/** Which deed is current: supersede edges as the sidecars of a store give them,
    and where the walk along them ends in a store whose creates all finished. */
module Current {
  import opened Prelude
  import opened Text
  import opened Deeds
  import opened Graph
  import opened Order
  import opened Sidecars
  import opened Store
  import Frames
  import Issuing
  import Log
  import Walk

  // ---------- the edges ----------

  /** The successor a deed's own sidecar names, when it is served. */
  function NextTip(files: Files, id: bytes): Result<Option<bytes>> {
    if Successor(id) !in files then Ok(None)
    else
      var next :- ReadSuccessor(files[Successor(id)]);
      if next.Some? && Serves(files, next.value) then Ok(next) else Ok(None)
  }

  function SupersedesStems(files: Files): set<bytes> {
    set n | n in files && n.Supersedes? :: n.stem
  }

  /** A name that is an accession, and is served. */
  predicate Live(files: Files, stem: bytes) {
    ParseId(stem).Ok? && Serves(files, stem)
  }

  type ByPrior = map<bytes, set<bytes>>

  function Named(back: ByPrior, prior: bytes): set<bytes> {
    if prior in back then back[prior] else {}
  }

  /** The served deeds that name each prior. */
  function Gather(files: Files, stems: seq<bytes>, back: ByPrior): Result<ByPrior>
    requires forall s :: s in stems ==> Supersedes(s) in files
    decreases stems
  {
    if stems == [] then Ok(back)
    else if !Live(files, stems[0]) then Gather(files, stems[1..], back)
    else
      var bound :- ReadSupersedes(files[Supersedes(stems[0])]);
      match bound
      case None => Gather(files, stems[1..], back)
      case Some(b) => Gather(files, stems[1..], back[b.id := Named(back, b.id) + {stems[0]}])
  }

  lemma StemsHere(files: Files)
    ensures forall s :: s in InOrder(SupersedesStems(files)) <==> Supersedes(s) in files
  {
    InOrderElements(SupersedesStems(files));
    forall s | Supersedes(s) in files
      ensures s in SupersedesStems(files)
    {
      assert Supersedes(s).Supersedes?;
    }
  }

  function SupersededBy(files: Files): Result<ByPrior> {
    StemsHere(files);
    Gather(files, InOrder(SupersedesStems(files)), map[])
  }

  /** Both sources of edges, in the order of the accessions. */
  function Step(files: Files, back: ByPrior, id: bytes): Result<seq<bytes>> {
    var next :- NextTip(files, id);
    Ok(InOrder((if next.Some? then {next.value} else {}) + Named(back, id)))
  }

  function Edges(files: Files, back: ByPrior): Successors {
    id => Step(files, back, id)
  }

  method ReadSupersededBy(files: Files) returns (r: Result<ByPrior>)
    ensures r == SupersededBy(files)
  {
    hide ReadSupersedes, InOrder, Live;
    StemsHere(files);
    var stems, back: ByPrior := InOrder(SupersedesStems(files)), map[];
    for i := 0 to |stems|
      invariant forall s :: s in stems[i..] ==> s in stems
      invariant Gather(files, stems, map[]) == Gather(files, stems[i..], back)
    {
      assert stems[i..][0] == stems[i] && stems[i..][1..] == stems[i + 1..];
      if Live(files, stems[i]) {
        var bound := ReadSupersedes(files[Supersedes(stems[i])]);
        if bound.Err? {
          return Err(bound.error);
        }
        if bound.value.Some? {
          var prior := bound.value.value.id;
          back := back[prior := Named(back, prior) + {stems[i]}];
        }
      }
    }
    return Ok(back);
  }

  // ---------- what gathering finds ----------

  ghost predicate NamesPrior(files: Files, stem: bytes, prior: bytes) {
    && Supersedes(stem) in files && Live(files, stem)
    && ReadSupersedes(files[Supersedes(stem)]).Ok?
    && ReadSupersedes(files[Supersedes(stem)]).value.Some?
    && ReadSupersedes(files[Supersedes(stem)]).value.value.id == prior
  }

  lemma {:induction false} GatherExact(files: Files, stems: seq<bytes>, back: ByPrior)
    requires forall s :: s in stems ==> Supersedes(s) in files
    ensures Gather(files, stems, back).Ok? <==>
            forall s :: s in stems && Live(files, s) ==> ReadSupersedes(files[Supersedes(s)]).Ok?
    ensures Gather(files, stems, back).Ok? ==>
              forall p, s :: s in Named(Gather(files, stems, back).value, p)
                             <==> s in Named(back, p) || (s in stems && NamesPrior(files, s, p))
    decreases stems
  {
    hide ReadSupersedes, Live;
    if stems != [] {
      var s := stems[0];
      assert forall x :: x in stems <==> x == s || x in stems[1..];
      if Live(files, s) {
        var bound := ReadSupersedes(files[Supersedes(s)]);
        if bound.Ok? && bound.value.Some? {
          var prior := bound.value.value.id;
          GatherExact(files, stems[1..], back[prior := Named(back, prior) + {s}]);
        } else if bound.Ok? {
          GatherExact(files, stems[1..], back);
        }
      } else {
        GatherExact(files, stems[1..], back);
      }
    }
  }

  /** Edges are found exactly when every served deed's sidecar reads, and are the
      ones those sidecars name. */
  lemma SupersededByExact(files: Files)
    ensures SupersededBy(files).Ok? <==>
            forall s :: Supersedes(s) in files && Live(files, s) ==> ReadSupersedes(files[Supersedes(s)]).Ok?
    ensures SupersededBy(files).Ok? ==>
              forall p, s :: s in Named(SupersededBy(files).value, p) <==> NamesPrior(files, s, p)
  {
    hide ReadSupersedes, Live, InOrder;
    StemsHere(files);
    GatherExact(files, InOrder(SupersedesStems(files)), map[]);
  }

  // ---------- the walk ----------

  ghost function CapIds(files: Files): set<bytes> {
    set n | n in files && n.Cap? :: n.stem
  }

  lemma EdgesServed(files: Files, back: ByPrior, x: bytes, y: bytes)
    requires SupersededBy(files) == Ok(back) && Edge(Edges(files, back), x, y)
    ensures Serves(files, y) && y in CapIds(files)
  {
    hide ReadSupersedes, InOrder, SupersededBy, ReadSuccessor;
    SupersededByExact(files);
    var next := NextTip(files, x).value;
    InOrderElements((if next.Some? then {next.value} else {}) + Named(back, x));
    if y in Named(back, x) {
      assert NamesPrior(files, y, x);
    }
    assert Cap(y).Cap? && Cap(y) in files;
  }

  /** Where the walk from one accession ends. */
  method CurrentWalk(files: Files, id: bytes) returns (r: Result<Walk.Ending>)
    ensures SupersededBy(files).Err? ==> r == Err(SupersededBy(files).error)
    ensures SupersededBy(files).Ok? ==> Walk.Answers(Edges(files, SupersededBy(files).value), id, r)
  {
    hide Edges, SupersededBy, Walk.Answers;
    var back := ReadSupersededBy(files);
    if back.Err? {
      return Err(back.error);
    }
    var next := Edges(files, back.value);
    ghost var nodes := {id} + CapIds(files);
    forall x, y | x in nodes && Edge(next, x, y)
      ensures y in nodes
    {
      EdgesServed(files, back.value, x, y);
    }
    r := Walk.Run(next, id, nodes);
  }

  /** The one deed that is current, when there is one. */
  method Resolve(files: Files, id: bytes) returns (r: Result<Deed>)
    ensures SupersededBy(files).Err? ==> r == Err(SupersededBy(files).error)
    ensures SupersededBy(files).Ok? ==>
              exists end :: Walk.Answers(Edges(files, SupersededBy(files).value), id, end) && r == Told(files, end)
  {
    hide SupersededBy, Edges, Walk.Answers;
    var end := CurrentWalk(files, id);
    r := Told(files, end);
  }

  /** A fork and a cycle are told as a body that is not valid. */
  function Told(files: Files, end: Result<Walk.Ending>): Result<Deed> {
    match end
    case Err(e) => Err(e)
    case Ok(Tip(tip)) => Get(files, tip)
    case Ok(_) => Err(InvalidBody)
  }

  // ---------- stores whose creates all finished ----------

  /** Where the log names an accession. */
  ghost predicate LoggedAt(entries: seq<Log.Entry>, id: bytes, i: nat) {
    i < |entries| && entries[i].id == id
  }

  ghost predicate Earlier(entries: seq<Log.Entry>, a: bytes, b: bytes) {
    exists i, j :: LoggedAt(entries, a, i) && LoggedAt(entries, b, j) && i < j
  }

  /** `next` gives each superseded deed its one successor. */
  type Chain = map<bytes, bytes>

  ghost predicate LinkKept(files: Files, entries: seq<Log.Entry>, prior: bytes, id: bytes) {
    && IsId(prior) && IsId(id) && Earlier(entries, prior, id)
    && Successor(prior) in files && files[Successor(prior)] == NameLine(id)
    && Supersedes(id) in files && files[Supersedes(id)] == NameLine(prior)
  }

  ghost predicate IsSuccessor(next: Chain, id: bytes) {
    exists p :: p in next && next[p] == id
  }

  ghost predicate AllLogged(files: Files, entries: seq<Log.Entry>) {
    forall id :: Cap(id) in files ==> exists i :: LoggedAt(entries, id, i)
  }

  /** Every cap is logged, and every link sidecar is one side of a pair that
      agrees and goes to a later entry. */
  ghost predicate Chained(sha: Sha, disk: Disk, next: Chain) {
    && Sound(sha, disk)
    && var entries := Log.Entries(disk.log).value;
       && AllLogged(disk.files, entries)
       && (forall p :: p in next ==> LinkKept(disk.files, entries, p, next[p]))
       && (forall p :: Successor(p) in disk.files ==> p in next)
       && (forall n :: Supersedes(n) in disk.files ==> IsSuccessor(next, n))
  }

  lemma ChainedHeld(sha: Sha, disk: Disk, next: Chain, id: bytes, i: nat)
    requires Chained(sha, disk, next) && LoggedAt(Log.Entries(disk.log).value, id, i)
    ensures Cap(id) in disk.files && IsId(id)
  {
    hide Log.Entries, IsId, Frames.DecodeResponse, DeedDigest;
    assert Held(sha, disk.files, Log.Entries(disk.log).value[i]);
  }

  /** What a finished store's sidecars name: one successor or none. */
  lemma ChainedNames(sha: Sha, disk: Disk, next: Chain)
    requires Chained(sha, disk, next)
    ensures SupersededBy(disk.files).Ok?
    ensures forall p, s :: NamesPrior(disk.files, s, p) <==> p in next && next[p] == s && Serves(disk.files, s)
  {
    hide SupersededBy, ReadSupersedes, ReadSuccessor, IsId, ParseId, NameLine, Log.Entries, AllHeld, Once, Earlier;
    hide AllLogged;
    var files, entries := disk.files, Log.Entries(disk.log).value;
    forall s | Supersedes(s) in files
      ensures exists p :: p in next && next[p] == s && ReadSupersedes(files[Supersedes(s)]) == Ok(Some(Bound(p, None)))
      ensures ParseId(s).Ok?
    {
      var p :| p in next && next[p] == s;
      assert LinkKept(files, entries, p, s);
      NameLineReads(p);
      Parses(s);
    }
    forall p | p in next
      ensures ReadSupersedes(files[Supersedes(next[p])]) == Ok(Some(Bound(p, None)))
    {
      assert LinkKept(files, entries, p, next[p]);
      NameLineReads(p);
    }
    SupersededByExact(files);
  }

  lemma ChainedTip(sha: Sha, disk: Disk, next: Chain, p: bytes)
    requires Chained(sha, disk, next)
    ensures NextTip(disk.files, p) == Ok(if p in next && Serves(disk.files, next[p]) then Some(next[p]) else None)
  {
    hide ReadSuccessor, IsId, NameLine, Log.Entries, AllHeld, Once, Earlier, AllLogged, Serves;
    if p in next {
      assert LinkKept(disk.files, Log.Entries(disk.log).value, p, next[p]);
      NameLineReads(next[p]);
    }
  }

  /** The edges of a finished store: at most one out of each deed. */
  lemma ChainedEdges(sha: Sha, disk: Disk, next: Chain, p: bytes)
    requires Chained(sha, disk, next) && SupersededBy(disk.files).Ok?
    ensures Step(disk.files, SupersededBy(disk.files).value, p)
            == Ok(if p in next && Serves(disk.files, next[p]) then [next[p]] else [])
  {
    hide SupersededBy, Chained, NextTip, NamesPrior, Serves, InOrder;
    var files, back := disk.files, SupersededBy(disk.files).value;
    ChainedNames(sha, disk, next);
    SupersededByExact(files);
    ChainedTip(sha, disk, next, p);
    var names := if p in next && Serves(files, next[p]) then {next[p]} else {};
    assert Named(back, p) <= names && names <= Named(back, p);
    Singles(if p in next then next[p] else p);
    var tip := NextTip(files, p).value;
    assert (if tip.Some? then {tip.value} else {}) + Named(back, p) == names;
  }

  lemma Singles(x: bytes)
    ensures InOrder({x}) == [x] && InOrder({}) == []
  {
    assert {x} - {x} == {};
  }

  // ---------- one end, and no cycle ----------

  /** No node has two successors. */
  ghost predicate Single(next: Successors) {
    forall x :: next(x).Ok? && |next(x).value| <= 1
  }

  /** Every edge goes to a later entry of the log. */
  ghost predicate Forward(next: Successors, entries: seq<Log.Entry>) {
    forall x, y :: Edge(next, x, y) ==> Earlier(entries, x, y)
  }

  lemma OnePlace(entries: seq<Log.Entry>, a: bytes, i: nat, j: nat)
    requires Once(entries) && LoggedAt(entries, a, i) && LoggedAt(entries, a, j)
    ensures i == j
  {
  }

  lemma LaterOnce(entries: seq<Log.Entry>, a: bytes, b: bytes, c: bytes)
    requires Once(entries) && Earlier(entries, a, b) && Earlier(entries, b, c)
    ensures Earlier(entries, a, c)
  {
    hide Once, LoggedAt;
    var i: nat, j: nat :| LoggedAt(entries, a, i) && LoggedAt(entries, b, j) && i < j;
    var k: nat, l: nat :| LoggedAt(entries, b, k) && LoggedAt(entries, c, l) && k < l;
    OnePlace(entries, b, j, k);
  }

  lemma {:induction false} PathsGoForward(next: Successors, entries: seq<Log.Entry>, p: seq<bytes>)
    requires Forward(next, entries) && Once(entries) && IsPath(next, p) && |p| >= 2
    ensures Earlier(entries, p[0], p[|p| - 1])
    decreases |p|
  {
    hide Once, Earlier;
    assert Edge(next, p[|p| - 2], p[|p| - 1]);
    if |p| > 2 {
      var q := p[..|p| - 1];
      forall i | 0 <= i < |q| - 1
        ensures Edge(next, q[i], q[i + 1])
      {
        assert Edge(next, p[i], p[i + 1]);
      }
      PathsGoForward(next, entries, q);
      LaterOnce(entries, p[0], p[|p| - 2], p[|p| - 1]);
    }
  }

  lemma NotBeforeItself(entries: seq<Log.Entry>, a: bytes)
    requires Once(entries)
    ensures !Earlier(entries, a, a)
  {
    hide Once, LoggedAt;
    forall i: nat, j: nat | LoggedAt(entries, a, i) && LoggedAt(entries, a, j)
      ensures i == j
    {
      OnePlace(entries, a, i, j);
    }
  }

  lemma ForwardHasNoCycle(next: Successors, entries: seq<Log.Entry>, x: bytes)
    requires Forward(next, entries) && Once(entries)
    ensures !OnCycle(next, x)
  {
    hide Once, Earlier;
    if OnCycle(next, x) {
      var p :| PathFrom(next, p, x, x) && |p| >= 2;
      PathsGoForward(next, entries, p);
      NotBeforeItself(entries, x);
      assert false;
    }
  }

  /** From one node only one end is reached. */
  lemma {:induction false} OneEnd(next: Successors, p: seq<bytes>, q: seq<bytes>, a: bytes, x: bytes, y: bytes)
    requires Single(next) && PathFrom(next, p, a, x) && PathFrom(next, q, a, y)
    requires Walk.Sink(next, x) && Walk.Sink(next, y)
    ensures x == y
    decreases |p|
  {
    if |p| >= 2 {
      assert Edge(next, p[0], p[1]);
    }
    if |q| >= 2 {
      assert Edge(next, q[0], q[1]);
    }
    if |p| >= 2 && |q| >= 2 {
      assert p[1] == q[1] by {
        assert next(a).value == [p[1]];
      }
      RestOfPath(next, p, a, x);
      RestOfPath(next, q, a, y);
      OneEnd(next, p[1..], q[1..], p[1], x, y);
    }
  }

  lemma RestOfPath(next: Successors, p: seq<bytes>, a: bytes, x: bytes)
    requires PathFrom(next, p, a, x) && |p| >= 2
    ensures PathFrom(next, p[1..], p[1], x)
  {
    var q := p[1..];
    forall i | 0 <= i < |q| - 1
      ensures Edge(next, q[i], q[i + 1])
    {
      assert Edge(next, p[i + 1], p[i + 2]);
    }
  }

  lemma NoFork(next: Successors, a: bytes, ids: seq<bytes>)
    requires Single(next) && |ids| >= 2 && Ascending(ids)
    ensures exists x :: x in ids && !(Reaches(next, a, x) && Walk.Sink(next, x))
  {
    var x, y := ids[0], ids[1];
    assert x in ids && y in ids && Before(x, y);
    if Reaches(next, a, x) && Walk.Sink(next, x) && Reaches(next, a, y) && Walk.Sink(next, y) {
      var p :| PathFrom(next, p, a, x);
      var q :| PathFrom(next, q, a, y);
      OneEnd(next, p, q, a, x, y);
      assert false;
    }
  }

  lemma EndsInATip(next: Successors, entries: seq<Log.Entry>, a: bytes, r: Result<Walk.Ending>)
    requires Single(next) && Forward(next, entries) && Once(entries) && Walk.Answers(next, a, r)
    ensures r.Ok? && r.value.Tip?
    ensures forall x :: x == r.value.id <==> Reaches(next, a, x) && Walk.Sink(next, x)
  {
    hide Forward, Once, Reaches, Walk.Sink, OnCycle;
    if r.Ok? {
      match r.value {
        case Tip(_) =>
        case Fork(ids) =>
          NoFork(next, a, ids);
        case Cycle(ids) =>
          assert ids[0] in ids;
          ForwardHasNoCycle(next, entries, ids[0]);
      }
    }
  }

  lemma ChainedShape(sha: Sha, disk: Disk, next: Chain)
    requires Chained(sha, disk, next) && SupersededBy(disk.files).Ok?
    ensures Single(Edges(disk.files, SupersededBy(disk.files).value))
    ensures Forward(Edges(disk.files, SupersededBy(disk.files).value), Log.Entries(disk.log).value)
  {
    hide SupersededBy, Step, Log.Entries, Earlier, Serves, AllHeld, AllLogged, Once, NameLine, IsId;
    var edges, entries := Edges(disk.files, SupersededBy(disk.files).value), Log.Entries(disk.log).value;
    forall p
      ensures edges(p) == Ok(if p in next && Serves(disk.files, next[p]) then [next[p]] else [])
    {
      ChainedEdges(sha, disk, next, p);
    }
    forall x, y | Edge(edges, x, y)
      ensures Earlier(entries, x, y)
    {
      assert LinkKept(disk.files, entries, x, next[x]);
    }
  }

  /** In a store whose creates all finished, the walk from any accession ends in
      one deed: the end of its chain of served successors. */
  lemma ChainedEndsInATip(sha: Sha, disk: Disk, next: Chain, id: bytes, r: Result<Walk.Ending>)
    requires Chained(sha, disk, next) && SupersededBy(disk.files).Ok?
    requires Walk.Answers(Edges(disk.files, SupersededBy(disk.files).value), id, r)
    ensures r.Ok? && r.value.Tip?
    ensures var edges := Edges(disk.files, SupersededBy(disk.files).value);
            Reaches(edges, id, r.value.id) && Walk.Sink(edges, r.value.id)
  {
    hide SupersededBy, Edges, Walk.Answers, Log.Entries, AllHeld, Reaches, Single, Forward;
    ChainedShape(sha, disk, next);
    EndsInATip(Edges(disk.files, SupersededBy(disk.files).value), Log.Entries(disk.log).value, id, r);
  }
}
