/** Paths, reachability and cycles in a graph given by its successor lists,
    where reading one list can fail. */
module Graph {
  import opened Prelude

  /** The successors of a node, or why they could not be read. */
  type Successors = bytes -> Result<seq<bytes>>

  ghost predicate Edge(next: Successors, x: bytes, y: bytes) {
    next(x).Ok? && y in next(x).value
  }

  ghost predicate IsPath(next: Successors, p: seq<bytes>) {
    p != [] && forall i :: 0 <= i < |p| - 1 ==> Edge(next, p[i], p[i + 1])
  }

  ghost predicate PathFrom(next: Successors, p: seq<bytes>, a: bytes, b: bytes) {
    IsPath(next, p) && p[0] == a && p[|p| - 1] == b
  }

  /** By any number of edges, none included. */
  ghost predicate Reaches(next: Successors, a: bytes, b: bytes) {
    exists p :: PathFrom(next, p, a, b)
  }

  /** By at least one edge back to itself. */
  ghost predicate OnCycle(next: Successors, x: bytes) {
    exists p :: PathFrom(next, p, x, x) && |p| >= 2
  }

  /** A finite set of nodes no edge leaves. */
  ghost predicate Closed(next: Successors, nodes: set<bytes>) {
    forall x, y :: x in nodes && Edge(next, x, y) ==> y in nodes
  }

  lemma ReachesSelf(next: Successors, a: bytes)
    ensures Reaches(next, a, a)
  {
    assert PathFrom(next, [a], a, a);
  }

  lemma ReachesNext(next: Successors, a: bytes, b: bytes, c: bytes)
    requires Reaches(next, a, b) && Edge(next, b, c)
    ensures Reaches(next, a, c)
  {
    var p :| PathFrom(next, p, a, b);
    assert PathFrom(next, p + [c], a, c);
  }

  /** A set that holds a node and every successor of its members holds every
      node reached from it. */
  lemma {:induction false} ReachedWithin(next: Successors, within: set<bytes>, p: seq<bytes>, a: bytes, b: bytes)
    requires PathFrom(next, p, a, b) && a in within
    requires Closed(next, within)
    ensures b in within
    decreases |p|
  {
    if |p| > 1 {
      var n := |p| - 1;
      assert Edge(next, p[n - 1], p[n]);
      ReachedWithin(next, within, p[..n], a, p[n - 1]);
    }
  }

  lemma ClosedHoldsReached(next: Successors, within: set<bytes>, a: bytes, b: bytes)
    requires a in within && Closed(next, within) && Reaches(next, a, b)
    ensures b in within
  {
    var p :| PathFrom(next, p, a, b);
    ReachedWithin(next, within, p, a, b);
  }

  /** Every member of `order` has its successors before it. */
  ghost predicate Topological(next: Successors, order: seq<bytes>) {
    forall i, y :: 0 <= i < |order| && Edge(next, order[i], y) ==> y in order[..i]
  }

  /** Along a path that starts in such a listing, places only go down. */
  lemma {:induction false} PathDescends(next: Successors, order: seq<bytes>, p: seq<bytes>, i: nat)
    requires Topological(next, order) && IsPath(next, p) && i < |order| && p[0] == order[i]
    ensures |p| >= 2 ==> p[|p| - 1] in order[..i]
    decreases |p|
  {
    if |p| >= 2 {
      assert Edge(next, p[0], p[1]);
      var j :| 0 <= j < i && order[j] == p[1];
      var rest := p[1..];
      forall k | 0 <= k < |rest| - 1
        ensures Edge(next, rest[k], rest[k + 1])
      {
        assert Edge(next, p[k + 1], p[k + 2]);
      }
      PathDescends(next, order, rest, j);
      if |rest| >= 2 {
        assert order[..j] <= order[..i];
      }
    }
  }

  lemma NoCycleInOrder(next: Successors, order: seq<bytes>, x: bytes)
    requires Topological(next, order) && x in order
    requires forall i, j :: 0 <= i < j < |order| ==> order[i] != order[j]
    ensures !OnCycle(next, x)
  {
    if OnCycle(next, x) {
      var p :| PathFrom(next, p, x, x) && |p| >= 2;
      var i :| 0 <= i < |order| && order[i] == x;
      PathDescends(next, order, p, i);
      assert false;
    }
  }

  /** An edge back to a node of a path puts every node from there on a cycle. */
  lemma BackEdge(next: Successors, p: seq<bytes>, i: nat, j: nat)
    requires IsPath(next, p) && i <= j < |p| && Edge(next, p[|p| - 1], p[i])
    ensures OnCycle(next, p[j])
  {
    var q := p[j..] + p[i..j + 1];
    assert PathFrom(next, q, p[j], p[j]) by {
      forall k | 0 <= k < |q| - 1
        ensures Edge(next, q[k], q[k + 1])
      {
        var n := |p| - j;
        if k + 1 < n {
          assert q[k] == p[j + k] && q[k + 1] == p[j + k + 1];
        } else if k + 1 == n {
          assert q[k] == p[|p| - 1] && q[k + 1] == p[i];
        } else {
          assert q[k] == p[i + k - n] && q[k + 1] == p[i + k - n + 1];
        }
      }
    }
  }
}
