/** The deeds a deed was made from, however far back: a worklist over the
    source edges between deeds. */
module Trail {
  import opened Prelude
  import opened Deeds
  import opened Graph
  import Store

  /** How a deed is looked up. */
  type Get = bytes -> Result<Deed>

  /** As a store serves it. */
  function ServedBy(files: Store.Files): Get {
    id => Store.Get(files, id)
  }

  /** Source edges. The deed the trail starts from is not looked up. */
  ghost function Sources(start: Deed, get: Get): Successors {
    (id: bytes) =>
      if id == start.id then Ok(DeedSources(start))
      else
        match get(id)
        case Err(e) => Err(e)
        case Ok(d) => Ok(DeedSources(d))
  }

  ghost predicate Distinct(xs: seq<bytes>) {
    forall i, j :: 0 <= i < j < |xs| ==> xs[i] != xs[j]
  }

  /** `out` is the start and then one deed for each of `ids`, as looked up. */
  ghost predicate Listed(start: Deed, get: Get, ids: seq<bytes>, out: seq<Deed>) {
    && |ids| == |out| > 0 && Distinct(ids)
    && ids[0] == start.id && out[0] == start
    && forall i :: 0 < i < |ids| ==> get(ids[i]) == Ok(out[i])
  }

  /** Every source of a listed deed is listed or waits on the stack. */
  ghost predicate Pending(start: Deed, get: Get, ids: seq<bytes>, stack: seq<bytes>) {
    forall x, y :: x in ids && Edge(Sources(start, get), x, y) ==> y in ids || y in stack
  }

  ghost predicate AllReached(start: Deed, get: Get, xs: seq<bytes>) {
    forall x :: x in xs ==> Reaches(Sources(start, get), start.id, x)
  }

  lemma SourcesReached(start: Deed, get: Get, x: bytes, d: Deed)
    requires Reaches(Sources(start, get), start.id, x) && Sources(start, get)(x) == Ok(DeedSources(d))
    ensures AllReached(start, get, DeedSources(d))
  {
    forall y | y in DeedSources(d)
      ensures Reaches(Sources(start, get), start.id, y)
    {
      ReachesNext(Sources(start, get), start.id, x, y);
    }
  }

  lemma ListNext(start: Deed, get: Get, ids: seq<bytes>, out: seq<Deed>, stack: seq<bytes>, id: bytes, d: Deed)
    requires Listed(start, get, ids, out) && id !in ids && get(id) == Ok(d)
    requires Pending(start, get, ids, stack + [id])
    ensures Listed(start, get, ids + [id], out + [d])
    ensures Pending(start, get, ids + [id], stack + DeedSources(d))
  {
    assert id != start.id by {
      assert ids[0] in ids;
    }
    forall x, y | x in ids + [id] && Edge(Sources(start, get), x, y)
      ensures y in ids + [id] || y in stack + DeedSources(d)
    {
      if x in ids {
        assert y in ids || y in stack + [id];
      }
    }
  }

  lemma Complete(start: Deed, get: Get, ids: seq<bytes>, out: seq<Deed>)
    requires Listed(start, get, ids, out) && Pending(start, get, ids, [])
    ensures forall x :: Reaches(Sources(start, get), start.id, x) ==> x in ids
  {
    var within := set x | x in ids;
    assert ids[0] in ids;
    forall x | Reaches(Sources(start, get), start.id, x)
      ensures x in ids
    {
      ClosedHoldsReached(Sources(start, get), within, start.id, x);
    }
  }

  /** The trail of `start` over any lookup that finds finitely many deeds. */
  method WalkTrail(start: Deed, get: Get, ghost held: set<bytes>) returns (r: Result<seq<Deed>>, ghost ids: seq<bytes>)
    requires forall id :: get(id).Ok? ==> id in held
    ensures r.Ok? ==>
              && Listed(start, get, ids, r.value)
              && forall x :: x in ids <==> Reaches(Sources(start, get), start.id, x)
    ensures r.Err? ==>
              exists x :: x != start.id && Reaches(Sources(start, get), start.id, x) && get(x) == Err(r.error)
  {
    var out := [start];
    ids := [start.id];
    var seen := {start.id};
    var stack := DeedSources(start);
    ReachesSelf(Sources(start, get), start.id);
    SourcesReached(start, get, start.id, start);
    hide Reaches, DeedSources, Sources;
    while stack != []
      invariant Listed(start, get, ids, out) && Pending(start, get, ids, stack)
      invariant AllReached(start, get, ids) && AllReached(start, get, stack)
      invariant forall x :: x in seen <==> x in ids
      invariant seen <= held + {start.id}
      decreases held + {start.id} - seen, |stack|
    {
      var n := |stack| - 1;
      var id := stack[n];
      assert stack == stack[..n] + [id] && id in stack;
      stack := stack[..n];
      if id !in seen {
        seen := seen + {id};
        assert ids[0] in ids;
        var next := get(id);
        if next.Err? {
          return Err(next.error), ids;
        }
        ListNext(start, get, ids, out, stack, id, next.value);
        SourceOf(start, get, id, next.value);
        SourcesReached(start, get, id, next.value);
        stack := stack + DeedSources(next.value);
        out := out + [next.value];
        ids := ids + [id];
      }
    }
    Complete(start, get, ids, out);
    return Ok(out), ids;
  }

  lemma SourceOf(start: Deed, get: Get, id: bytes, d: Deed)
    requires id != start.id && get(id) == Ok(d)
    ensures Sources(start, get)(id) == Ok(DeedSources(d))
  {
  }
}
