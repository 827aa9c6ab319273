/** The walk along supersede edges, as a search with an explicit stack. */
module Walk {
  import opened Prelude
  import opened Graph
  import opened Order

  datatype Ending = Tip(id: bytes) | Fork(ids: seq<bytes>) | Cycle(ids: seq<bytes>)

  datatype Color = OnPath | Finished

  /** A node on the path, its successors, and how many have been followed. */
  datatype Frame = Frame(id: bytes, succs: seq<bytes>, next: nat)

  // ---------- what the walk answers ----------

  ghost predicate Sink(next: Successors, x: bytes) {
    next(x).Ok? && next(x).value == []
  }

  /** The answer for every graph: an error exactly when a reachable node cannot
      be read; otherwise a cycle exactly when one is reachable, with nodes that
      lie on one; otherwise the reachable nodes with no successor, each once
      and in order, of which there is at least one. */
  ghost predicate Answers(next: Successors, start: bytes, r: Result<Ending>) {
    match r
    case Err(e) => exists x :: Reaches(next, start, x) && next(x) == Err(e)
    case Ok(end) =>
      && (forall x :: Reaches(next, start, x) ==> next(x).Ok?)
      && match end
         case Cycle(ids) =>
           ids != [] && Ascending(ids) && forall x :: x in ids ==> Reaches(next, start, x) && OnCycle(next, x)
         case Tip(id) =>
           && (forall x :: Reaches(next, start, x) ==> !OnCycle(next, x))
           && forall x :: x == id <==> Reaches(next, start, x) && Sink(next, x)
         case Fork(ids) =>
           && |ids| >= 2 && Ascending(ids)
           && (forall x :: Reaches(next, start, x) ==> !OnCycle(next, x))
           && forall x :: x in ids <==> Reaches(next, start, x) && Sink(next, x)
  }

  // ---------- the state of the search ----------

  /** `order` lists the finished nodes as they were finished. */
  datatype State = State(
    color: map<bytes, Color>, path: seq<bytes>, stack: seq<Frame>, order: seq<bytes>,
    tips: set<bytes>, cycle: set<bytes>)

  ghost predicate Distinct(xs: seq<bytes>) {
    forall i, j :: 0 <= i < j < |xs| ==> xs[i] != xs[j]
  }

  /** Colours, path and stack agree. */
  ghost predicate Shape(next: Successors, s: State) {
    && Distinct(s.path) && Distinct(s.order)
    && (forall x :: x in s.color && s.color[x] == OnPath <==> x in s.path)
    && (forall x :: x in s.color && s.color[x] == Finished <==> x in s.order)
    && |s.stack| == |s.path|
    && forall i :: 0 <= i < |s.stack| ==> FrameOf(next, s, i)
  }

  ghost predicate FrameOf(next: Successors, s: State, i: nat)
    requires i < |s.stack| == |s.path|
  {
    var f := s.stack[i];
    && f.id == s.path[i] && next(f.id) == Ok(f.succs) && f.next <= |f.succs|
    && (i + 1 < |s.path| ==> f.next > 0 && f.succs[f.next - 1] == s.path[i + 1])
  }

  /** Every coloured node is reachable, and what was called a cycle is one. */
  ghost predicate Found(next: Successors, start: bytes, s: State) {
    && (forall x :: x in s.color ==> Reaches(next, start, x))
    && (forall x :: x in s.cycle ==> Reaches(next, start, x) && OnCycle(next, x))
    && start in s.color
  }

  /** Every followed edge leads to a coloured node, and all edges out of a
      finished node were followed. */
  ghost predicate Followed(next: Successors, s: State) {
    && (forall x, y :: x in s.order && Edge(next, x, y) ==> y in s.color)
    && (forall x :: x in s.order ==> next(x).Ok?)
    && forall i, k :: 0 <= i < |s.stack| && 0 <= k < s.stack[i].next && k < |s.stack[i].succs|
                      ==> s.stack[i].succs[k] in s.color
  }

  /** While no cycle is seen, edges followed to the end lead to nodes finished
      before. */
  ghost predicate Acyclic(next: Successors, s: State) {
    s.cycle == {} ==>
      && Topological(next, s.order)
      && forall i, k :: 0 <= i < |s.stack| && 0 <= k < |s.stack[i].succs| && Settled(s, i, k)
                        ==> s.stack[i].succs[k] in s.order
  }

  /** Whether the `k`th edge of frame `i` was followed and come back from. */
  ghost predicate Settled(s: State, i: nat, k: nat)
    requires i < |s.stack|
  {
    k < s.stack[i].next && (i + 1 < |s.stack| ==> k < s.stack[i].next - 1)
  }

  ghost predicate Tips(next: Successors, s: State) {
    forall x :: x in s.tips <==> x in s.order && Sink(next, x)
  }

  ghost predicate Inv(next: Successors, start: bytes, s: State) {
    Shape(next, s) && Found(next, start, s) && Followed(next, s) && Acyclic(next, s) && Tips(next, s)
  }

  // ---------- the steps ----------

  /** The top frame has no edge left: it is finished. */
  function Pop(s: State): State
    requires s.stack != [] && |s.path| == |s.stack|
  {
    var top := s.stack[|s.stack| - 1];
    s.(stack := s.stack[..|s.stack| - 1], path := s.path[..|s.path| - 1],
       color := s.color[top.id := Finished], order := s.order + [top.id],
       tips := if top.succs == [] then s.tips + {top.id} else s.tips)
  }

  /** One more edge of the top frame is followed. */
  function Advance(s: State): State
    requires s.stack != []
  {
    var n := |s.stack| - 1;
    s.(stack := s.stack[n := s.stack[n].(next := s.stack[n].next + 1)])
  }

  /** The edge leads back into the path at `i`. */
  function Back(s: State, i: nat): State
    requires s.stack != [] && i < |s.path|
  {
    Advance(s).(cycle := s.cycle + set x | x in s.path[i..])
  }

  /** The edge leads to a node not seen before. */
  function Push(s: State, id: bytes, succs: seq<bytes>): State
    requires s.stack != []
  {
    var a := Advance(s);
    a.(stack := a.stack + [Frame(id, succs, 0)], path := a.path + [id], color := a.color[id := OnPath])
  }

  function Start(id: bytes, succs: seq<bytes>): State {
    State(map[id := OnPath], [id], [Frame(id, succs, 0)], [], {}, {})
  }

  ghost predicate Ready(s: State) {
    && |s.stack| == |s.path| > 0
    && s.stack[|s.stack| - 1].next < |s.stack[|s.stack| - 1].succs|
  }

  function Target(s: State): bytes
    requires |s.stack| > 0 && s.stack[|s.stack| - 1].next < |s.stack[|s.stack| - 1].succs|
  {
    var top := s.stack[|s.stack| - 1];
    top.succs[top.next]
  }

  // ---------- every step keeps the invariant ----------

  lemma StartKeeps(next: Successors, id: bytes, succs: seq<bytes>)
    requires next(id) == Ok(succs)
    ensures Inv(next, id, Start(id, succs))
  {
    ReachesSelf(next, id);
  }

  lemma PopShape(next: Successors, s: State)
    requires Shape(next, s) && s.stack != []
    ensures Shape(next, Pop(s))
  {
    var n := |s.path| - 1;
    var t := Pop(s);
    assert FrameOf(next, s, n);
    forall i | 0 <= i < |t.stack|
      ensures FrameOf(next, t, i)
    {
      assert FrameOf(next, s, i);
    }
    assert s.path == s.path[..n] + [s.path[n]];
    assert s.path[n] !in s.path[..n];
    assert s.path[n] !in s.order;
  }

  lemma PopFound(next: Successors, start: bytes, s: State)
    requires Shape(next, s) && Found(next, start, s) && s.stack != []
    ensures Found(next, start, Pop(s))
  {
    var n := |s.path| - 1;
    assert FrameOf(next, s, n);
    assert s.path[n] in s.path;
  }

  lemma PopFollowed(next: Successors, s: State)
    requires Shape(next, s) && Followed(next, s) && s.stack != [] && !Ready(s)
    ensures Followed(next, Pop(s))
  {
    var n := |s.path| - 1;
    var top, t := s.stack[n], Pop(s);
    assert FrameOf(next, s, n);
    assert forall x :: x in s.color ==> x in t.color;
    forall x, y | x in t.order && Edge(next, x, y)
      ensures y in t.color
    {
      if x in s.order {
      } else {
        var k :| 0 <= k < |top.succs| && top.succs[k] == y;
        assert s.stack[n].succs[k] in s.color;
      }
    }
    forall i, k | 0 <= i < |t.stack| && 0 <= k < t.stack[i].next && k < |t.stack[i].succs|
      ensures t.stack[i].succs[k] in t.color
    {
      assert t.stack[i] == s.stack[i];
    }
  }

  lemma PopAcyclic(next: Successors, s: State)
    requires Shape(next, s) && Acyclic(next, s) && s.stack != [] && !Ready(s)
    ensures Acyclic(next, Pop(s))
  {
    var n := |s.path| - 1;
    var top, t := s.stack[n], Pop(s);
    assert FrameOf(next, s, n);
    if s.cycle == {} {
      forall i, y | 0 <= i < |t.order| && Edge(next, t.order[i], y)
        ensures y in t.order[..i]
      {
        if i < |s.order| {
          assert y in s.order[..i];
          assert t.order[..i] == s.order[..i];
        } else {
          var k :| 0 <= k < |top.succs| && top.succs[k] == y;
          assert Settled(s, n, k);
          assert t.order[..i] == s.order;
        }
      }
      forall i, k | 0 <= i < |t.stack| && 0 <= k < |t.stack[i].succs| && Settled(t, i, k)
        ensures t.stack[i].succs[k] in t.order
      {
        assert t.stack[i] == s.stack[i];
        assert FrameOf(next, s, i);
        if Settled(s, i, k) {
        } else {
          assert i + 1 == n && k == s.stack[i].next - 1;
          assert t.order[|s.order|] == s.path[n];
        }
      }
    }
  }

  lemma PopTips(next: Successors, s: State)
    requires Shape(next, s) && Tips(next, s) && s.stack != []
    ensures Tips(next, Pop(s))
  {
    assert FrameOf(next, s, |s.path| - 1);
  }

  lemma PopKeeps(next: Successors, start: bytes, s: State)
    requires Inv(next, start, s) && s.stack != [] && !Ready(s)
    ensures Inv(next, start, Pop(s))
  {
    hide Shape, Found, Followed, Acyclic, Tips, Pop, Ready;
    ShapeSizes(next, s);
    PopShape(next, s);
    PopFound(next, start, s);
    PopFollowed(next, s);
    PopAcyclic(next, s);
    PopTips(next, s);
  }

  lemma ShapeSizes(next: Successors, s: State)
    requires Shape(next, s)
    ensures |s.stack| == |s.path|
  {
  }

  lemma AdvanceFrames(next: Successors, s: State)
    requires Shape(next, s) && Ready(s)
    ensures var t := Advance(s);
            && |t.stack| == |s.stack|
            && (forall i :: 0 <= i < |s.stack| ==>
                  t.stack[i].id == s.stack[i].id && t.stack[i].succs == s.stack[i].succs)
            && (forall i :: 0 <= i < |s.stack| - 1 ==> t.stack[i] == s.stack[i])
            && t.stack[|s.stack| - 1].next == s.stack[|s.stack| - 1].next + 1
    ensures Edge(next, s.path[|s.path| - 1], Target(s))
  {
    assert FrameOf(next, s, |s.path| - 1);
  }

  lemma AdvanceShape(next: Successors, s: State)
    requires Shape(next, s) && Ready(s)
    ensures Shape(next, Advance(s))
  {
    AdvanceFrames(next, s);
    var t := Advance(s);
    hide Advance;
    forall i | 0 <= i < |t.stack|
      ensures FrameOf(next, t, i)
    {
      assert FrameOf(next, s, i);
    }
  }

  /** The edge leads to a coloured node. */
  lemma AdvanceFollowed(next: Successors, s: State)
    requires Shape(next, s) && Followed(next, s) && Ready(s) && Target(s) in s.color
    ensures Followed(next, Advance(s))
  {
    AdvanceFrames(next, s);
    var t, n := Advance(s), |s.stack| - 1;
    forall i, k | 0 <= i < |t.stack| && 0 <= k < t.stack[i].next && k < |t.stack[i].succs|
      ensures t.stack[i].succs[k] in t.color
    {
      if i == n && k == s.stack[n].next {
      } else {
        assert s.stack[i].succs[k] in s.color;
      }
    }
  }

  /** The edge leads to a finished node. */
  lemma AdvanceAcyclic(next: Successors, s: State)
    requires Shape(next, s) && Acyclic(next, s) && Ready(s) && Target(s) in s.order
    ensures Acyclic(next, Advance(s))
  {
    AdvanceFrames(next, s);
    var t, n := Advance(s), |s.stack| - 1;
    if s.cycle == {} {
      forall i, k | 0 <= i < |t.stack| && 0 <= k < |t.stack[i].succs| && Settled(t, i, k)
        ensures t.stack[i].succs[k] in t.order
      {
        if i == n && k == s.stack[n].next {
        } else {
          assert Settled(s, i, k);
        }
      }
    }
  }

  lemma SkipKeeps(next: Successors, start: bytes, s: State)
    requires Inv(next, start, s) && Ready(s) && Target(s) in s.order
    ensures Inv(next, start, Advance(s))
  {
    AdvanceShape(next, s);
    AdvanceFollowed(next, s);
    AdvanceAcyclic(next, s);
    assert Found(next, start, Advance(s));
    assert Tips(next, Advance(s));
  }

  lemma ShapeIsPath(next: Successors, s: State)
    requires Shape(next, s) && s.path != []
    ensures IsPath(next, s.path)
  {
    forall i | 0 <= i < |s.path| - 1
      ensures Edge(next, s.path[i], s.path[i + 1])
    {
      assert FrameOf(next, s, i);
    }
  }

  lemma BackFound(next: Successors, start: bytes, s: State, i: nat)
    requires Shape(next, s) && Found(next, start, s) && Ready(s) && i < |s.path| && s.path[i] == Target(s)
    ensures Found(next, start, Back(s, i)) && Back(s, i).cycle != {}
  {
    ShapeIsPath(next, s);
    AdvanceFrames(next, s);
    forall x | x in s.path[i..]
      ensures Reaches(next, start, x) && OnCycle(next, x)
    {
      var j :| i <= j < |s.path| && s.path[j] == x;
      assert s.path[j] in s.path;
      BackEdge(next, s.path, i, j);
    }
    assert s.path[i] in s.path[i..];
    assert s.path[i] in Back(s, i).cycle;
  }

  lemma WithCycle(next: Successors, s: State, cycle: set<bytes>)
    requires Shape(next, s) && Followed(next, s)
    ensures Shape(next, s.(cycle := cycle)) && Followed(next, s.(cycle := cycle))
  {
    var t := s.(cycle := cycle);
    forall i | 0 <= i < |t.stack|
      ensures FrameOf(next, t, i)
    {
      assert FrameOf(next, s, i);
    }
  }

  lemma BackKeeps(next: Successors, start: bytes, s: State, i: nat)
    requires Inv(next, start, s) && Ready(s) && i < |s.path| && s.path[i] == Target(s)
    ensures Inv(next, start, Back(s, i))
  {
    BackFound(next, start, s, i);
    assert s.path[i] in s.path;
    AdvanceShape(next, s);
    AdvanceFollowed(next, s);
    WithCycle(next, Advance(s), Back(s, i).cycle);
    assert Tips(next, Back(s, i));
  }

  lemma PushShape(next: Successors, s: State, succs: seq<bytes>)
    requires Shape(next, s) && Ready(s) && Target(s) !in s.color && next(Target(s)) == Ok(succs)
    ensures Shape(next, Push(s, Target(s), succs))
  {
    AdvanceFrames(next, s);
    var id, t := Target(s), Push(s, Target(s), succs);
    assert id !in s.path && id !in s.order;
    hide Advance;
    forall i | 0 <= i < |t.stack|
      ensures FrameOf(next, t, i)
    {
      if i < |s.stack| {
        assert FrameOf(next, s, i);
      }
    }
  }

  lemma PushFollowed(next: Successors, s: State, succs: seq<bytes>)
    requires Shape(next, s) && Followed(next, s) && Ready(s) && Target(s) !in s.color
    ensures Followed(next, Push(s, Target(s), succs))
  {
    AdvanceFrames(next, s);
    var id, t, n := Target(s), Push(s, Target(s), succs), |s.stack| - 1;
    assert forall x :: x in s.color ==> x in t.color;
    forall i, k | 0 <= i < |t.stack| && 0 <= k < t.stack[i].next && k < |t.stack[i].succs|
      ensures t.stack[i].succs[k] in t.color
    {
      if i < n || (i == n && k < s.stack[n].next) {
        assert s.stack[i].succs[k] in s.color;
      }
    }
  }

  lemma PushAcyclic(next: Successors, s: State, succs: seq<bytes>)
    requires Shape(next, s) && Acyclic(next, s) && Ready(s) && Target(s) !in s.color
    ensures Acyclic(next, Push(s, Target(s), succs))
  {
    AdvanceFrames(next, s);
    var id, t, n := Target(s), Push(s, Target(s), succs), |s.stack| - 1;
    if s.cycle == {} {
      forall i, k | 0 <= i < |t.stack| && 0 <= k < |t.stack[i].succs| && Settled(t, i, k)
        ensures t.stack[i].succs[k] in t.order
      {
        assert i <= n;
        assert Settled(s, i, k);
      }
    }
  }

  lemma PushKeeps(next: Successors, start: bytes, s: State, succs: seq<bytes>)
    requires Inv(next, start, s) && Ready(s) && Target(s) !in s.color && next(Target(s)) == Ok(succs)
    ensures Inv(next, start, Push(s, Target(s), succs))
  {
    var n := |s.path| - 1;
    AdvanceFrames(next, s);
    assert s.path[n] in s.path;
    ReachesNext(next, start, s.path[n], Target(s));
    PushShape(next, s, succs);
    PushFollowed(next, s, succs);
    PushAcyclic(next, s, succs);
    assert Found(next, start, Push(s, Target(s), succs));
    assert Tips(next, Push(s, Target(s), succs));
  }

  // ---------- the end of the search ----------

  /** With the stack empty, the finished nodes are the reachable ones. */
  lemma AllReached(next: Successors, start: bytes, s: State)
    requires Inv(next, start, s) && s.stack == []
    ensures forall x :: x in s.order <==> Reaches(next, start, x)
  {
    var done := set x | x in s.order;
    assert forall x :: x in s.color ==> x in s.order;
    assert Closed(next, done);
    forall x | Reaches(next, start, x)
      ensures x in s.order
    {
      ClosedHoldsReached(next, done, start, x);
    }
  }

  /** The first node finished has no successor, so without a cycle the walk
      never comes back with nothing. */
  lemma SomeTip(next: Successors, start: bytes, s: State)
    requires Inv(next, start, s) && s.stack == [] && s.cycle == {}
    ensures s.order != [] && s.order[0] in s.tips
  {
    assert start in s.order;
    var first := s.order[0];
    assert next(first).Ok?;
    if next(first).value != [] {
      var y := next(first).value[0];
      assert Edge(next, first, y);
      assert false;
    }
  }

  function EndOf(tips: set<bytes>, cycle: set<bytes>): Ending
    requires cycle != {} || tips != {}
  {
    if cycle != {} then Cycle(InOrder(cycle))
    else
      var ids := InOrder(tips);
      if |ids| == 1 then Tip(ids[0]) else Fork(ids)
  }

  lemma EndAnswers(next: Successors, start: bytes, s: State)
    requires Inv(next, start, s) && s.stack == []
    ensures (s.cycle != {} || s.tips != {}) && Answers(next, start, Ok(EndOf(s.tips, s.cycle)))
  {
    AllReached(next, start, s);
    InOrderAscends(s.cycle);
    InOrderElements(s.cycle);
    InOrderAscends(s.tips);
    InOrderElements(s.tips);
    if s.cycle == {} {
      SomeTip(next, start, s);
      forall x | Reaches(next, start, x)
        ensures !OnCycle(next, x)
      {
        NoCycleInOrder(next, s.order, x);
      }
      OneOrMore(s.tips);
    }
  }

  lemma OneOrMore(s: set<bytes>)
    requires s != {}
    ensures |InOrder(s)| >= 1
    ensures |InOrder(s)| == 1 ==> forall x :: x in s <==> x == InOrder(s)[0]
  {
    InOrderElements(s);
    var xs := InOrder(s);
    if |xs| == 1 {
      assert xs == [xs[0]];
    }
  }

  // ---------- the walk ----------

  method IndexIn(path: seq<bytes>, id: bytes) returns (i: nat)
    requires id in path
    ensures i < |path| && path[i] == id
  {
    i := 0;
    while path[i] != id
      invariant i < |path| && id in path[i..]
      decreases |path| - i
    {
      i := i + 1;
    }
  }

  /** The walk from `start` over a graph whose nodes are among `nodes`. */
  method Run(next: Successors, start: bytes, ghost nodes: set<bytes>) returns (r: Result<Ending>)
    requires start in nodes && Closed(next, nodes)
    ensures Answers(next, start, r)
  {
    hide Inv, Answers, Reaches;
    var first := next(start);
    if first.Err? {
      NotRead(next, start, start);
      return Err(first.error);
    }
    var color := map[start := OnPath];
    var tips: set<bytes>, cycle: set<bytes> := {}, {};
    var path := [start];
    var stack := [Frame(start, first.value, 0)];
    ghost var order: seq<bytes> := [];
    ghost var s := Start(start, first.value);
    StartKeeps(next, start, first.value);
    while stack != []
      invariant s == State(color, path, stack, order, tips, cycle)
      invariant Inv(next, start, s)
      invariant color.Keys <= nodes
      decreases nodes - color.Keys, |stack|,
                if stack == [] then 0 else |stack[|stack| - 1].succs| - stack[|stack| - 1].next
    {
      Sizes(next, start, s);
      var at := |stack| - 1;
      var top := stack[at];
      if top.next == |top.succs| {
        PopKeeps(next, start, s);
        s := Pop(s);
        stack := stack[..at];
        if top.succs == [] {
          tips := tips + {top.id};
        }
        assert color[top.id := Finished].Keys == color.Keys;
        color := color[top.id := Finished];
        path := path[..|path| - 1];
        order := order + [top.id];
      } else {
        var id := top.succs[top.next];
        assert id == Target(s);
        stack := stack[at := top.(next := top.next + 1)];
        if id !in color {
          var succs := next(id);
          TargetFound(next, start, s, nodes);
          if succs.Err? {
            NotRead(next, start, id);
            return Err(succs.error);
          }
          PushKeeps(next, start, s, succs.value);
          s := Push(s, id, succs.value);
          ghost var unseen := nodes - color.Keys;
          assert id in unseen;
          color := color[id := OnPath];
          assert nodes - color.Keys == unseen - {id};
          path := path + [id];
          stack := stack + [Frame(id, succs.value, 0)];
        } else if color[id] == OnPath {
          var i := IndexIn(path, id);
          BackKeeps(next, start, s, i);
          s := Back(s, i);
          cycle := cycle + set x | x in path[i..];
        } else {
          SkipKeeps(next, start, s);
          s := Advance(s);
        }
      }
    }
    EndAnswers(next, start, s);
    return Ok(EndOf(tips, cycle));
  }

  lemma NotRead(next: Successors, start: bytes, x: bytes)
    requires next(x).Err? && (x == start || Reaches(next, start, x))
    ensures Answers(next, start, Err(next(x).error))
  {
    ReachesSelf(next, start);
  }

  /** What the loop reads off the invariant. */
  lemma Sizes(next: Successors, start: bytes, s: State)
    requires Inv(next, start, s) && s.stack != []
    ensures var n := |s.stack| - 1;
            && |s.path| == |s.stack|
            && s.stack[n].next <= |s.stack[n].succs|
            && s.stack[n].id in s.color
            && (s.stack[n].next < |s.stack[n].succs| ==>
                  && Ready(s)
                  && (Target(s) in s.color ==> if s.color[Target(s)] == OnPath then Target(s) in s.path
                                               else Target(s) in s.order))
            && (s.stack[n].next == |s.stack[n].succs| ==> !Ready(s))
  {
    var n := |s.stack| - 1;
    assert FrameOf(next, s, n);
    assert s.path[n] in s.path;
  }

  lemma TargetFound(next: Successors, start: bytes, s: State, nodes: set<bytes>)
    requires Inv(next, start, s) && Ready(s) && Closed(next, nodes) && s.color.Keys <= nodes
    ensures Target(s) in nodes && Reaches(next, start, Target(s))
  {
    var n := |s.path| - 1;
    AdvanceFrames(next, s);
    assert s.path[n] in s.path;
    assert s.path[n] in s.color.Keys;
    ReachesNext(next, start, s.path[n], Target(s));
  }
}
