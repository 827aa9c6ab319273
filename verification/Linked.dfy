/** The links an import plans: one new deed to each old and one old to each new. */
module Linked {
  import opened Prelude
  import opened Text
  import opened Carrying
  import opened Deeds
  import opened Order
  import opened Planned
  import opened Planning
  import opened Sidecars
  import opened Store
  import Address
  import Issuing
  import Log
  import Receipt
  import Wire

  // ---------- one to one ----------

  /** Old to new and new to old are inverse to each other. */
  ghost predicate Inverses(ties: Ties) {
    && (forall o :: o in ties.byOld ==>
          && ties.byOld[o].0.id == o && ties.byOld[o].1.id != o
          && ties.byOld[o].1.id in ties.byNew && ties.byNew[ties.byOld[o].1.id] == ties.byOld[o].0)
    && forall n :: n in ties.byNew ==>
         ties.byNew[n].id in ties.byOld && ties.byOld[ties.byNew[n].id].1.id == n
  }

  ghost predicate TiesGrown(a: Ties, b: Ties) {
    forall o :: o in a.byOld ==> o in b.byOld && b.byOld[o] == a.byOld[o]
  }

  lemma AddTieInverse(ties: Ties, t: Tie)
    requires Inverses(ties) && AddTie(ties, t).Ok?
    ensures Inverses(AddTie(ties, t).value)
    ensures TiesGrown(ties, AddTie(ties, t).value)
    ensures t.0.id in AddTie(ties, t).value.byOld && AddTie(ties, t).value.byOld[t.0.id] == t
  {
    var more := AddTie(ties, t).value;
    if t.0.id in ties.byOld {
      assert ties.byOld[t.0.id] == t;
      assert more == ties;
    }
  }

  /** A tie whose links are well formed and, where they name a carried deed, name
      its digest. */
  ghost predicate GoodTie(i: Import, t: Tie) {
    GoodLink(t.0) && GoodLink(t.1) && RequireCarried(t.0, i.Cargo()).Ok? && RequireCarried(t.1, i.Cargo()).Ok?
  }

  ghost predicate GoodTies(i: Import, ties: Ties) {
    Inverses(ties) && forall o :: o in ties.byOld ==> GoodTie(i, ties.byOld[o])
  }

  ghost predicate HasTie(ties: Ties, t: Tie) {
    t.0.id in ties.byOld && ties.byOld[t.0.id] == t
  }

  lemma {:induction false} AddTiesGood(i: Import, ties: Ties, ts: seq<Tie>)
    requires GoodTies(i, ties) && (forall t :: t in ts ==> GoodTie(i, t)) && AddTies(ties, ts).Ok?
    ensures var more := AddTies(ties, ts).value;
            GoodTies(i, more) && TiesGrown(ties, more) && forall t :: t in ts ==> HasTie(more, t)
    decreases ts
  {
    hide Inverses, AddTie, GoodTie;
    if ts != [] {
      var next := AddTie(ties, ts[0]).value;
      AddTieInverse(ties, ts[0]);
      AddTieOnly(ties, ts[0]);
      assert ts[0] in ts;
      AddTiesGood(i, next, ts[1..]);
    }
  }

  lemma AddTieOnly(ties: Ties, t: Tie)
    requires AddTie(ties, t).Ok?
    ensures var more := AddTie(ties, t).value;
            forall o :: o in more.byOld ==> more.byOld[o] == t || (o in ties.byOld && more.byOld[o] == ties.byOld[o])
  {
  }

  lemma CarriedTies(i: Import, c: Carried)
    requires GoodCarried(i, c) && c.deed.id in i.Cargo() && i.Cargo()[c.deed.id] == c
    requires CheckLinks(i.keys.sha, i.disk.files, i.Cargo(), c).Ok?
    ensures forall t :: t in TiesOf(c) ==> GoodTie(i, t)
  {
    hide CarriedById, IsId, Address.HexOf, Readable, Receipt.ParseReceipt, RequireHeld, Address.Of, IsUtf8, ProofNames;
    Address.OfIsAddress(i.keys.sha, Wire.DeedBytes(c.deed));
  }

  lemma {:induction false} CollectedGood(i: Import, cs: seq<Carried>, ties: Ties)
    requires GoodTies(i, ties)
    requires forall c :: c in cs ==> GoodCarried(i, c) && c.deed.id in i.Cargo() && i.Cargo()[c.deed.id] == c
    requires CollectTies(i.keys.sha, i.disk.files, i.Cargo(), cs, ties).Ok?
    ensures var more := CollectTies(i.keys.sha, i.disk.files, i.Cargo(), cs, ties).value;
            && GoodTies(i, more) && TiesGrown(ties, more)
            && forall c, t :: c in cs && t in TiesOf(c) ==> HasTie(more, t)
    decreases cs
  {
    hide GoodTies, GoodTie, GoodCarried, CheckLinks, TiesOf, CarriedById;
    if cs != [] {
      assert cs[0] in cs;
      CarriedTies(i, cs[0]);
      AddTiesGood(i, ties, TiesOf(cs[0]));
      CollectedGood(i, cs[1..], AddTies(ties, TiesOf(cs[0])).value);
    }
  }

  lemma NoTies(i: Import)
    ensures GoodTies(i, Ties(map[], map[]))
  {
  }

  // ---------- staged in order ----------

  ghost predicate NewsApart(ts: seq<Tie>) {
    && (forall a, b :: 0 <= a < b < |ts| ==> ts[a].1.id != ts[b].1.id)
    && forall a, b :: 0 <= a < b < |ts| ==> ts[a].0.id != ts[b].0.id
  }

  lemma OrderedTies(i: Import, ties: Ties)
    requires GoodTies(i, ties)
    ensures var ts := TiesInOrder(ties.byOld);
            && NewsApart(ts)
            && (forall t :: t in ts ==> GoodTie(i, t) && HasTie(ties, t))
            && forall o :: o in ties.byOld ==> ties.byOld[o] in ts
  {
    hide GoodTie, InOrder, AtMost;
    InOrderElements(ties.byOld.Keys);
    InOrderAscends(ties.byOld.Keys);
    var olds, ts := InOrder(ties.byOld.Keys), TiesInOrder(ties.byOld);
    forall a | 0 <= a < |ts|
      ensures olds[a] in ties.byOld && ts[a] == ties.byOld[olds[a]]
    {
      assert olds[a] in olds;
    }
    forall a, b | 0 <= a < b < |ts|
      ensures ts[a].1.id != ts[b].1.id && ts[a].0.id != ts[b].0.id
    {
      assert Before(olds[a], olds[b]);
    }
    forall o | o in ties.byOld
      ensures ties.byOld[o] in ts
    {
      var a :| 0 <= a < |olds| && olds[a] == o;
      assert ts[a] == ties.byOld[o];
    }
  }

  /** Sidecars planned so far are none of those still to come. */
  ghost predicate StillApart(files: seq<Write>, ts: seq<Tie>) {
    forall w, t :: w in files && t in ts ==> w.name != Supersedes(t.1.id)
  }

  /** What staging one tie leaves planned or held. */
  ghost predicate Sided(disk: Files, files: seq<Write>, name: FileName, content: bytes) {
    Write(name, content) in files || (name in disk && disk[name] == content && forall w :: w in files ==>
        w.name != name)
  }

  ghost predicate Landed(i: Import, files: seq<Write>, t: Tie) {
    && Sided(i.disk.files, files, Supersedes(t.1.id), BoundLines(t.0.id, t.0.digest))
    && (t.0.id in i.Cargo() || Serves(i.disk.files, t.0.id) ==>
          Sided(i.disk.files, files, Successor(t.0.id), NameLine(t.1.id)))
  }

  lemma MayBindTie(i: Import, t: Tie)
    requires GoodTie(i, t)
    requires Supersedes(t.1.id) in i.disk.files ==> IdOnly(i.disk.files[Supersedes(t.1.id)], t.0.id)
    ensures Allowed(i, Write(Supersedes(t.1.id), BoundLines(t.0.id, t.0.digest)))
  {
    hide CarriedById, GoodLink, IdOnly, BoundLines;
    assert Binds(i, BoundLines(t.0.id, t.0.digest), t.0);
  }

  lemma StageKept(i: Import, t: Tie, p: Staged)
    requires AllAllowed(i, p.files) && GoodTie(i, t) && Find(p.files, Supersedes(t.1.id)) == |p.files|
    requires StageSupersedes(i.disk.files, t, p).Ok?
    ensures var q := StageSupersedes(i.disk.files, t, p).value;
            && AllAllowed(i, q.files) && Grown(p, q) && q.log == p.log
            && Sided(i.disk.files, q.files, Supersedes(t.1.id), BoundLines(t.0.id, t.0.digest))
            && forall w :: w in q.files ==> w in p.files || w.name == Supersedes(t.1.id)
  {
    hide AllAllowed, Allowed, IdOnly, BoundLines, GoodTie;
    FindFails(p.files, Supersedes(t.1.id));
    var name, content := Supersedes(t.1.id), BoundLines(t.0.id, t.0.digest);
    if name !in i.disk.files || (i.disk.files[name] != content && IdOnly(i.disk.files[name], t.0.id)) {
      MayBindTie(i, t);
      OneMore(i, p.files, Write(name, content));
      assert Write(name, content) in p.files + [Write(name, content)];
    }
  }

  lemma SuccessorKept(i: Import, t: Tie, p: Staged)
    requires AllAllowed(i, p.files)
    requires StageSuccessor(i.disk.files, i.Cargo(), t, p).Ok?
    ensures var q := StageSuccessor(i.disk.files, i.Cargo(), t, p).value;
            && AllAllowed(i, q.files) && Grown(p, q) && q.log == p.log
            && (t.0.id in i.Cargo() || Serves(i.disk.files, t.0.id) ==>
                  Sided(i.disk.files, q.files, Successor(t.0.id), NameLine(t.1.id)))
            && forall w :: w in q.files ==> w in p.files || w.name == Successor(t.0.id)
  {
    hide AllAllowed, CarriedById, NameLine, Serves;
    var name, content := Successor(t.0.id), NameLine(t.1.id);
    SuccessorAllowed(i, t.0.id, content);
    if t.0.id in i.Cargo() || Serves(i.disk.files, t.0.id) {
      PutAllowed(i, p, name, content);
      FindFails(p.files, name);
      if Find(p.files, name) < |p.files| {
        assert p.files[Find(p.files, name)] in p.files;
      } else if name !in i.disk.files {
        assert Write(name, content) in p.files + [Write(name, content)];
      }
    }
  }

  lemma SuccessorAllowed(i: Import, id: bytes, content: bytes)
    ensures Successor(id) !in i.disk.files ==> Allowed(i, Write(Successor(id), content))
  {
  }

  /** A side that is there stays there as files of other names are planned. */
  lemma SidedStays(disk: Files, files: seq<Write>, more: seq<Write>, name: FileName, content: bytes)
    requires Sided(disk, files, name, content) && files <= more
    requires forall w :: w in more ==> w in files || w.name != name
    ensures Sided(disk, more, name, content)
  {
    if Write(name, content) in files {
      var a :| 0 <= a < |files| && files[a] == Write(name, content);
      assert more[a] == Write(name, content);
    }
  }

  lemma LandedStays(i: Import, files: seq<Write>, more: seq<Write>, t: Tie, other: Tie)
    requires Landed(i, files, t) && files <= more && t.1.id != other.1.id && t.0.id != other.0.id
    requires forall w :: w in more ==> w in files || w.name == Supersedes(other.1.id) || w.name == Successor(other.0.id)
    ensures Landed(i, more, t)
  {
    hide Sided, BoundLines, NameLine, CarriedById, Serves;
    SidedStays(i.disk.files, files, more, Supersedes(t.1.id), BoundLines(t.0.id, t.0.digest));
    if t.0.id in i.Cargo() || Serves(i.disk.files, t.0.id) {
      SidedStays(i.disk.files, files, more, Successor(t.0.id), NameLine(t.1.id));
    }
  }

  lemma TieKept(i: Import, t: Tie, p: Staged)
    requires AllAllowed(i, p.files) && GoodTie(i, t) && Find(p.files, Supersedes(t.1.id)) == |p.files|
    requires StageTie(i.keys.sha, i.disk.files, i.Cargo(), t, p).Ok?
    ensures var q := StageTie(i.keys.sha, i.disk.files, i.Cargo(), t, p).value;
            && AllAllowed(i, q.files) && Grown(p, q) && q.log == p.log
            && Landed(i, q.files, t)
            && forall w :: w in q.files ==> w in p.files || w.name == Supersedes(t.1.id) || w.name == Successor(t.0.id)
  {
    hide AllAllowed, StageSupersedes, StageSuccessor, RequireHeld, GoodTie, CarriedById, NameLine, BoundLines;
    hide Serves, Sided;
    var mid := StageSupersedes(i.disk.files, t, p).value;
    StageKept(i, t, p);
    SuccessorKept(i, t, mid);
    var q := StageSuccessor(i.disk.files, i.Cargo(), t, mid).value;
    SidedStays(i.disk.files, mid.files, q.files, Supersedes(t.1.id), BoundLines(t.0.id, t.0.digest));
  }

  /** What staging every tie keeps and leaves. */
  ghost predicate TiesLanded(i: Import, p: Staged, q: Staged, ts: seq<Tie>) {
    && AllAllowed(i, q.files) && Grown(p, q) && q.log == p.log
    && forall t :: t in ts ==> Landed(i, q.files, t)
  }

  lemma {:induction false} StagedTies(i: Import, done: seq<Tie>, ts: seq<Tie>, p: Staged)
    requires AllAllowed(i, p.files) && NewsApart(done + ts) && StillApart(p.files, ts)
    requires (forall t :: t in ts ==> GoodTie(i, t)) && forall t :: t in done ==> Landed(i, p.files, t)
    requires StageTies(i.keys.sha, i.disk.files, i.Cargo(), ts, p).Ok?
    ensures TiesLanded(i, p, StageTies(i.keys.sha, i.disk.files, i.Cargo(), ts, p).value, done + ts)
    decreases ts
  {
    hide AllAllowed, StageTie, GoodTie, CarriedById, Landed;
    if ts == [] {
      assert done + ts == done;
    } else {
      var t, q := ts[0], StageTie(i.keys.sha, i.disk.files, i.Cargo(), ts[0], p).value;
      assert t in ts;
      FindFails(p.files, Supersedes(t.1.id));
      TieKept(i, t, p);
      forall d | d in done
        ensures Landed(i, q.files, d)
      {
        Apart(done, ts, d);
        LandedStays(i, p.files, q.files, d, t);
      }
      NextApart(p.files, q.files, done, ts);
      assert done + ts == (done + [t]) + ts[1..];
      StagedTies(i, done + [t], ts[1..], q);
    }
  }

  lemma Apart(done: seq<Tie>, ts: seq<Tie>, d: Tie)
    requires NewsApart(done + ts) && d in done && ts != []
    ensures d.1.id != ts[0].1.id && d.0.id != ts[0].0.id
  {
    var a :| 0 <= a < |done| && done[a] == d;
    assert (done + ts)[a] == d && (done + ts)[|done|] == ts[0];
  }

  lemma NextApart(files: seq<Write>, more: seq<Write>, done: seq<Tie>, ts: seq<Tie>)
    requires NewsApart(done + ts) && ts != [] && StillApart(files, ts)
    requires forall w :: w in more ==> w in files || w.name == Supersedes(ts[0].1.id) || w.name == Successor(ts[0].0.id)
    ensures StillApart(more, ts[1..])
  {
    forall w, t | w in more && t in ts[1..]
      ensures w.name != Supersedes(t.1.id)
    {
      var a :| 1 <= a < |ts| && ts[a] == t;
      assert (done + ts)[|done|] == ts[0] && (done + ts)[|done| + a] == t;
      assert t in ts;
    }
  }

  /** The links an import plans are one to one, include every link its bag
      names, and both sides of each are planned or held. */
  lemma LinksPlanned(i: Import, p: Staged)
    requires GoodImport(i) && AllAllowed(i, p.files) && NoLinks(p.files)
    requires PlanLinks(i.keys.sha, i.disk.files, i.Cargo(), i.whole.carried, p).Ok?
    ensures var sha, cs := i.keys.sha, i.whole.carried;
            var ties := CollectTies(sha, i.disk.files, i.Cargo(), cs, Ties(map[], map[]));
            var q := PlanLinks(sha, i.disk.files, i.Cargo(), cs, p).value;
            && ties.Ok? && GoodTies(i, ties.value)
            && (forall c, t :: c in cs && t in TiesOf(c) ==> HasTie(ties.value, t))
            && TiesLanded(i, p, q, TiesInOrder(ties.value.byOld))
  {
    hide GoodTies, GoodCarried, CollectTies, StageTies, AllAllowed, CarriedById, TiesInOrder, TiesOf, GoodTie;
    hide TiesLanded, Landed;
    CargoExact(i.whole.carried);
    NoTies(i);
    CollectedGood(i, i.whole.carried, Ties(map[], map[]));
    var ties := CollectTies(i.keys.sha, i.disk.files, i.Cargo(), i.whole.carried, Ties(map[], map[])).value;
    OrderedTies(i, ties);
    var ts := TiesInOrder(ties.byOld);
    assert [] + ts == ts;
    StagedTies(i, [], ts, p);
  }
}
