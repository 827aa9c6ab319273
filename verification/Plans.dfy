/** The plan of an import as it is built, changed in place, and its loops. */
module Plans {
  import opened Prelude
  import opened Text
  import opened Carrying
  import opened Deeds
  import opened Order
  import opened Planning
  import opened Sidecars
  import opened Store
  import Address
  import Current
  import Frames
  import Graph
  import Hex
  import Issuing
  import Log
  import Paths
  import Trail
  import Wire

  /** `planned` gives every planned file its place, and nothing else. */
  ghost predicate Exact(files: seq<Write>, planned: map<FileName, nat>) {
    && (forall n :: n in planned ==> planned[n] < |files| && files[planned[n]].name == n)
    && forall a :: 0 <= a < |files| ==> files[a].name in planned && planned[files[a].name] == a
  }

  lemma ExactFind(files: seq<Write>, planned: map<FileName, nat>, name: FileName)
    requires Exact(files, planned)
    ensures Distinct(files)
    ensures Find(files, name) == if name in planned then planned[name] else |files|
  {
  }

  /** What a step leaves, against what the step is specified to plan. */
  ghost predicate Matches(r: Result<()>, now: Staged, spec: Result<Staged>) {
    match spec
    case Ok(q) => r.Ok? && now == q
    case Err(e) => r == Err(e)
  }

  class Plan {
    var files: seq<Write>
    var planned: map<FileName, nat>
    var log: seq<Log.Entry>
    var deeds: nat

    ghost predicate Valid()
      reads this
    {
      Exact(files, planned)
    }

    ghost function Value(): Staged
      reads this
    {
      Staged(files, log, deeds)
    }

    constructor ()
      ensures Valid() && Value() == Staged([], [], 0)
    {
      files, planned, log, deeds := [], map[], [], 0;
    }

    method Put(disk: Files, name: FileName, content: bytes) returns (r: Result<()>)
      requires Valid()
      modifies this
      ensures Valid() && (r.Err? ==> Value() == old(Value()))
      ensures Matches(r, Value(), Planning.Put(disk, old(Value()), name, content))
    {
      ExactFind(files, planned, name);
      if name in planned {
        return Need(files[planned[name]].content == content, Evidence);
      }
      if name in disk {
        return Need(disk[name] == content, Evidence);
      }
      planned := planned[name := |files|];
      files := files + [Write(name, content)];
      return Ok(());
    }

    method Replace(name: FileName, content: bytes)
      requires Valid()
      modifies this
      ensures Valid() && Value() == Planning.Replace(old(Value()), name, content)
    {
      ExactFind(files, planned, name);
      if name in planned {
        files := files[planned[name] := Write(name, content)];
      } else {
        planned := planned[name := |files|];
        files := files + [Write(name, content)];
      }
    }
  }

  // ---------- one deed ----------

  method StageCap(plan: Plan, disk: Files, c: Carried) returns (r: Result<()>)
    requires plan.Valid()
    modifies plan
    ensures plan.Valid() && Matches(r, plan.Value(), PlanCap(disk, c, old(plan.Value())))
  {
    hide Planning.Put, Get, CapFrame;
    var d := c.deed;
    if Tomb(d.id) in disk {
      return Err(Tombstoned);
    }
    if Cap(d.id) in disk {
      var held := Get(disk, d.id);
      if held.Err? {
        return Err(held.error);
      }
      return Need(Paths.SameDeed(held.value, d), Frozen);
    }
    r := plan.Put(disk, Cap(d.id), CapFrame(d));
    if r.Ok? {
      plan.deeds := plan.deeds + 1;
    }
  }

  /** The digests the store's sidecars bind a deed to, in a loop over them. */
  method ReadDigestKept(disk: Files, id: bytes) returns (r: Result<Option<bytes>>)
    ensures r == DigestKept(disk, id)
  {
    hide ReadSupersedes, InOrder;
    Current.StemsHere(disk);
    var stems, found: Option<bytes> := InOrder(Current.SupersedesStems(disk)), None;
    for n := 0 to |stems|
      invariant forall s :: s in stems[n..] ==> s in stems
      invariant DigestsNamed(disk, stems, id, None) == DigestsNamed(disk, stems[n..], id, found)
    {
      assert stems[n..][0] == stems[n] && stems[n..][1..] == stems[n + 1..];
      var bound := ReadSupersedes(disk[Supersedes(stems[n])]);
      if bound.Err? {
        return Err(bound.error);
      }
      if bound.value.Some? && bound.value.value.id == id && bound.value.value.digest.Some? {
        if found.Some? && found != bound.value.value.digest {
          return Err(Evidence);
        }
        found := bound.value.value.digest;
      }
    }
    return Ok(found);
  }

  method StageProducts(plan: Plan, sha: Sha, disk: Files, products: map<bytes, bytes>, paths: seq<bytes>)
    returns (r: Result<()>)
    requires plan.Valid()
    modifies plan
    ensures plan.Valid() && Matches(r, plan.Value(), PlanProducts(sha, disk, products, paths, old(plan.Value())))
  {
    hide Planning.Put, Hex.Render, Address.HexOf;
    ghost var start := plan.Value();
    for n := 0 to |paths|
      invariant plan.Valid()
      invariant PlanProducts(sha, disk, products, paths, start)
                  == PlanProducts(sha, disk, products, paths[n..], plan.Value())
    {
      assert paths[n..][0] == paths[n] && paths[n..][1..] == paths[n + 1..];
      var hex := Address.HexOf(paths[n]);
      if hex.None? {
        return Err(Evidence);
      }
      if Product(hex.value) in disk {
        if Hex.Render(sha(disk[Product(hex.value)])) != hex.value {
          return Err(Evidence);
        }
      } else {
        if hex.value !in products {
          return Err(Evidence);
        }
        r := plan.Put(disk, Product(hex.value), products[hex.value]);
        if r.Err? {
          return;
        }
      }
    }
    return Ok(());
  }

  method StageProof(plan: Plan, disk: Files, head: Option<bytes>, c: Carried) returns (r: Result<()>)
    requires plan.Valid()
    modifies plan
    ensures plan.Valid() && Matches(r, plan.Value(), PlanProof(disk, head, c, old(plan.Value())))
  {
    hide Planning.Put, KeptProof, ProofNames, IsUtf8;
    var id := c.deed.id;
    if Proof(id) in disk {
      var kept := KeptProof(disk[Proof(id)], c.receipt);
      if kept.Err? {
        return Err(kept.error);
      }
      if head.None? || !ProofNames(head.value, kept.value) {
        return Ok(());
      }
      if Kept(id) !in disk {
        r := plan.Put(disk, Kept(id), head.value);
        return;
      }
      return Need(IsUtf8(disk[Kept(id)]) && ProofNames(disk[Kept(id)], kept.value), Evidence);
    }
    r := plan.Put(disk, Proof(id), c.proof);
    if r.Ok? && head.Some? {
      r := plan.Put(disk, Kept(id), head.value);
    }
  }

  method StageEntry(plan: Plan, sha: Sha, logged: ById, c: Carried) returns (r: Result<()>)
    requires plan.Valid()
    modifies plan
    ensures plan.Valid() && Matches(r, plan.Value(), PlanEntry(sha, logged, c, old(plan.Value())))
  {
    hide EntryFor;
    if c.deed.id in logged {
      var held := logged[c.deed.id];
      return Need(held.digest == c.receipt.digest && held.time == c.receipt.time, Evidence);
    }
    plan.log := plan.log + [EntryFor(sha, c.deed, c.receipt.time)];
    return Ok(());
  }

  method StageHost(plan: Plan, keys: Issuing.Keys, disk: Files, c: Carried) returns (r: Result<()>)
    requires plan.Valid()
    modifies plan
    ensures plan.Valid() && Matches(r, plan.Value(), PlanHost(keys, disk, c, old(plan.Value())))
  {
    hide Planning.Put, HostOf, Wire.PutDeed;
    if c.host.Some? {
      r := plan.Put(disk, Host(c.deed.id), c.host.value);
      if r.Err? {
        return;
      }
    }
    return Need(keys.attests(Wire.DeedBytes(c.deed), c.receipt.time, HostOf(disk, c)).Ok?, Evidence);
  }

  method StageDeed(plan: Plan, keys: Issuing.Keys, disk: Files, logged: ById, whole: Whole, c: Carried)
    returns (r: Result<()>)
    requires plan.Valid()
    modifies plan
    ensures plan.Valid() && Matches(r, plan.Value(), PlanDeed(keys, disk, logged, whole, c, old(plan.Value())))
  {
    hide PlanCap, PlanEntry, PlanHost, PlanProducts, PlanProof, Planning.Put, DigestKept, EvidenceFrame;
    hide Issuing.EvidenceAt;
    r := StageCap(plan, disk, c);
    if r.Err? {
      return;
    }
    var bound := ReadDigestKept(disk, c.deed.id);
    if bound.Err? {
      return Err(bound.error);
    }
    if bound.value.Some? && bound.value.value != c.receipt.digest {
      return Err(Evidence);
    }
    r := StageEntry(plan, keys.sha, logged, c);
    if r.Err? {
      return;
    }
    r := plan.Put(disk, Evid(c.deed.id), EvidenceFrame(c.deed, Issuing.EvidenceAt(keys, c.deed, c.receipt.time)));
    if r.Err? {
      return;
    }
    r := StageHost(plan, keys, disk, c);
    if r.Err? {
      return;
    }
    r := StageProducts(plan, keys.sha, disk, whole.products, c.deed.paths);
    if r.Ok? {
      r := StageProof(plan, disk, whole.head, c);
    }
  }

  method StageDeeds(plan: Plan, keys: Issuing.Keys, disk: Files, logged: ById, whole: Whole) returns (r: Result<()>)
    requires plan.Valid()
    modifies plan
    ensures plan.Valid()
    ensures Matches(r, plan.Value(), PlanDeeds(keys, disk, logged, whole, whole.carried, old(plan.Value())))
  {
    hide PlanDeed;
    ghost var start, cs := plan.Value(), whole.carried;
    for n := 0 to |whole.carried|
      invariant plan.Valid()
      invariant PlanDeeds(keys, disk, logged, whole, cs, start)
                  == PlanDeeds(keys, disk, logged, whole, cs[n..], plan.Value())
    {
      assert cs[n..][0] == cs[n] && cs[n..][1..] == cs[n + 1..];
      r := StageDeed(plan, keys, disk, logged, whole, whole.carried[n]);
      if r.Err? {
        return;
      }
    }
    return Ok(());
  }

  method ReadLogged(entries: seq<Log.Entry>) returns (r: Result<ById>)
    ensures r == LoggedById(entries, map[])
  {
    var logged: ById := map[];
    for n := 0 to |entries|
      invariant LoggedById(entries, map[]) == LoggedById(entries[n..], logged)
    {
      assert entries[n..][0] == entries[n] && entries[n..][1..] == entries[n + 1..];
      var e := entries[n];
      if e.id in logged {
        if logged[e.id] != e {
          return Err(Evidence);
        }
      } else {
        logged := logged[e.id := e];
      }
    }
    return Ok(logged);
  }

  // ---------- links ----------

  /** The two maps, filled as the carried deeds are gone through. */
  method GatherTies(sha: Sha, disk: Files, carried: Carriage, cs: seq<Carried>) returns (r: Result<map<bytes, Tie>>)
    ensures match CollectTies(sha, disk, carried, cs, Ties(map[], map[]))
            case Ok(ties) => r == Ok(ties.byOld)
            case Err(e) => r == Err(e)
  {
    hide CheckLinks, AddTies, TiesOf;
    var byOld: map<bytes, Tie>, byNew: map<bytes, Link> := map[], map[];
    for n := 0 to |cs|
      invariant CollectTies(sha, disk, carried, cs, Ties(map[], map[]))
                  == CollectTies(sha, disk, carried, cs[n..], Ties(byOld, byNew))
    {
      assert cs[n..][0] == cs[n] && cs[n..][1..] == cs[n + 1..];
      var ok := CheckLinks(sha, disk, carried, cs[n]);
      if ok.Err? {
        return Err(ok.error);
      }
      var more := InsertTies(byOld, byNew, TiesOf(cs[n]));
      if more.Err? {
        return Err(more.error);
      }
      byOld, byNew := more.value.0, more.value.1;
    }
    return Ok(byOld);
  }

  method InsertTies(old0: map<bytes, Tie>, new0: map<bytes, Link>, ts: seq<Tie>)
    returns (r: Result<(map<bytes, Tie>, map<bytes, Link>)>)
    ensures match AddTies(Ties(old0, new0), ts)
            case Ok(ties) => r == Ok((ties.byOld, ties.byNew))
            case Err(e) => r == Err(e)
  {
    var byOld, byNew := old0, new0;
    for n := 0 to |ts|
      invariant AddTies(Ties(old0, new0), ts) == AddTies(Ties(byOld, byNew), ts[n..])
    {
      assert ts[n..][0] == ts[n] && ts[n..][1..] == ts[n + 1..];
      var (prior, next) := ts[n];
      if prior.id == next.id {
        return Err(Evidence);
      }
      if prior.id in byOld && (byOld[prior.id].1 != next || byOld[prior.id].0.digest != prior.digest) {
        return Err(Evidence);
      }
      if next.id in byNew && byNew[next.id] != prior {
        return Err(Evidence);
      }
      byOld := byOld[prior.id := (prior, next)];
      byNew := byNew[next.id := prior];
    }
    return Ok((byOld, byNew));
  }

  method StageOne(plan: Plan, sha: Sha, disk: Files, carried: Carriage, t: Tie) returns (r: Result<()>)
    requires plan.Valid()
    modifies plan
    ensures plan.Valid() && Matches(r, plan.Value(), StageTie(sha, disk, carried, t, old(plan.Value())))
  {
    hide Planning.Put, Planning.Replace, RequireHeld, IdOnly, BoundLines, NameLine, Serves;
    r := RequireHeld(sha, disk, carried, t.1);
    if r.Err? {
      return;
    }
    var name, content := Supersedes(t.1.id), BoundLines(t.0.id, t.0.digest);
    if name !in disk {
      r := plan.Put(disk, name, content);
      if r.Err? {
        return;
      }
    } else if disk[name] != content {
      if !IdOnly(disk[name], t.0.id) {
        return Err(Evidence);
      }
      plan.Replace(name, content);
    }
    r := RequireHeld(sha, disk, carried, t.0);
    if r.Err? {
      return;
    }
    if t.0.id in carried || Serves(disk, t.0.id) {
      r := plan.Put(disk, Successor(t.0.id), NameLine(t.1.id));
    }
  }

  method StageLinks(plan: Plan, sha: Sha, disk: Files, carried: Carriage, cs: seq<Carried>) returns (r: Result<()>)
    requires plan.Valid()
    modifies plan
    ensures plan.Valid() && Matches(r, plan.Value(), PlanLinks(sha, disk, carried, cs, old(plan.Value())))
  {
    hide CollectTies, StageTie, TiesInOrder;
    ghost var start := plan.Value();
    var byOld := GatherTies(sha, disk, carried, cs);
    if byOld.Err? {
      return Err(byOld.error);
    }
    var ts := TiesInOrder(byOld.value);
    for n := 0 to |ts|
      invariant plan.Valid()
      invariant StageTies(sha, disk, carried, ts, start) == StageTies(sha, disk, carried, ts[n..], plan.Value())
    {
      assert ts[n..][0] == ts[n] && ts[n..][1..] == ts[n + 1..];
      r := StageOne(plan, sha, disk, carried, ts[n]);
      if r.Err? {
        return;
      }
    }
    return Ok(());
  }

  // ---------- trails ----------

  ghost function FoundIn(disk: Files, carried: Carriage): set<bytes> {
    carried.Keys + Current.CapIds(disk)
  }

  lemma FoundHere(sha: Sha, disk: Files, carried: Carriage, c: Carried, id: bytes)
    requires SourceOf(sha, disk, carried, c)(id).Ok?
    ensures id in FoundIn(disk, carried)
  {
    hide Frames.DecodeResponse, DeedDigest;
    if id !in carried {
      assert Cap(id) in disk && Cap(id).Cap?;
    }
  }

  /** One carried deed's trail, with the deeds of it already passed. */
  ghost predicate PassedSoFar(keys: Issuing.Keys, disk: Files, passed: set<bytes>) {
    forall id :: id in passed ==> Get(disk, id).Ok? && Issuing.EvidenceLocal(keys, disk, Get(disk, id).value).Ok?
  }

  /** A source that is not carried is the deed the store serves. */
  lemma SourceServed(sha: Sha, disk: Files, carried: Carriage, c: Carried, id: bytes)
    requires id !in carried && SourceOf(sha, disk, carried, c)(id).Ok?
    ensures Get(disk, id) == SourceOf(sha, disk, carried, c)(id) && Get(disk, id).value.id == id
  {
    hide Frames.DecodeResponse, DeedDigest;
  }

  lemma SourceCarried(sha: Sha, disk: Files, carried: Carriage, c: Carried, id: bytes)
    requires id in carried && carried[id].deed.id == id && SourceOf(sha, disk, carried, c)(id).Ok?
    ensures SourceOf(sha, disk, carried, c)(id).value.id == id
  {
  }

  /** Passed, or carried. */
  ghost predicate SourcePasses(keys: Issuing.Keys, disk: Files, carried: Carriage, c: Carried, id: bytes) {
    var get := SourceOf(keys.sha, disk, carried, c);
    get(id).Ok? && (id in carried || Issuing.EvidenceLocal(keys, disk, get(id).value).Ok?)
  }

  method CheckTrail(keys: Issuing.Keys, disk: Files, carried: Carriage, c: Carried, passed0: set<bytes>)
    returns (r: Result<()>, passed: set<bytes>)
    requires c.deed.id in carried && PassedSoFar(keys, disk, passed0)
    requires forall id :: id in carried ==> carried[id].deed.id == id
    ensures r.Ok? <==> TrailPasses(keys, disk, carried, c)
    ensures PassedSoFar(keys, disk, passed)
  {
    hide Get, Issuing.EvidenceLocal, Graph.Reaches, PassedSoFar, FoundSource, Trail.Sources;
    var get := SourceOf(keys.sha, disk, carried, c);
    passed := passed0;
    forall id | get(id).Ok?
      ensures id in FoundIn(disk, carried)
    {
      FoundHere(keys.sha, disk, carried, c, id);
    }
    var out, ids := Trail.WalkTrail(c.deed, get, FoundIn(disk, carried));
    if out.Err? {
      return Err(out.error), passed;
    }
    for n := 0 to |out.value|
      invariant PassedSoFar(keys, disk, passed)
      invariant forall m :: 0 < m < n ==> SourcePasses(keys, disk, carried, c, ids[m])
    {
      var d := out.value[n];
      if n > 0 {
        if ids[n] in carried {
          SourceCarried(keys.sha, disk, carried, c, ids[n]);
        } else {
          SourceServed(keys.sha, disk, carried, c, ids[n]);
        }
      }
      if d.id !in carried {
        if d.id in passed {
          PassedOne(keys, disk, passed, d.id);
        } else {
          var e := Issuing.EvidenceLocal(keys, disk, d);
          if e.Err? {
            assert ids[n] in ids;
            return Err(Evidence), passed;
          }
          OneMorePassed(keys, disk, passed, d.id);
          passed := passed + {d.id};
        }
      }
    }
    forall id | Graph.Reaches(Trail.Sources(c.deed, get), c.deed.id, id) && id != c.deed.id
      ensures SourcePasses(keys, disk, carried, c, id)
    {
      var m :| 0 <= m < |ids| && ids[m] == id;
    }
    return Ok(()), passed;
  }

  lemma PassedOne(keys: Issuing.Keys, disk: Files, passed: set<bytes>, id: bytes)
    requires PassedSoFar(keys, disk, passed) && id in passed
    ensures Get(disk, id).Ok? && Issuing.EvidenceLocal(keys, disk, Get(disk, id).value).Ok?
  {
    hide Get, Issuing.EvidenceLocal;
  }

  lemma OneMorePassed(keys: Issuing.Keys, disk: Files, passed: set<bytes>, id: bytes)
    requires PassedSoFar(keys, disk, passed) && Get(disk, id).Ok?
               && Issuing.EvidenceLocal(keys, disk, Get(disk, id).value).Ok?
    ensures PassedSoFar(keys, disk, passed + {id})
  {
    hide Get, Issuing.EvidenceLocal;
  }

  method CheckTrails(keys: Issuing.Keys, disk: Files, carried: Carriage, cs: seq<Carried>) returns (r: Result<()>)
    requires forall id :: id in carried ==> carried[id].deed.id == id
    requires forall c :: c in cs ==> c.deed.id in carried
    ensures r.Ok? <==> TrailsPass(keys, disk, carried, cs)
  {
    hide TrailPasses, Issuing.EvidenceLocal;
    var passed: set<bytes> := {};
    for n := 0 to |cs|
      invariant PassedSoFar(keys, disk, passed)
      invariant forall m :: 0 <= m < n ==> TrailPasses(keys, disk, carried, cs[m])
    {
      assert cs[n] in cs;
      r, passed := CheckTrail(keys, disk, carried, cs[n], passed);
      if r.Err? {
        return;
      }
    }
    return Ok(());
  }

  lemma {:induction false} CarriedNames(cs: seq<Carried>)
    ensures forall id :: id in CarriedById(cs) ==> CarriedById(cs)[id].deed.id == id
    ensures forall c :: c in cs ==> c.deed.id in CarriedById(cs)
    decreases |cs|
  {
    if cs != [] {
      var n := |cs| - 1;
      CarriedNames(cs[..n]);
      assert cs == cs[..n] + [cs[n]];
    }
  }

  // ---------- the whole plan ----------

  /** The plan, or the first reason there is none. Nothing is written here. */
  method PlanImport(keys: Issuing.Keys, disk: Disk, whole: Whole) returns (r: Result<Staged>)
    ensures r.Ok? ==> Plans(keys, disk, whole, r.value)
    ensures r.Err? ==> forall p :: !Plans(keys, disk, whole, p)
    ensures PlanFiles(keys, disk, whole).Err? ==> r == Err(PlanFiles(keys, disk, whole).error)
  {
    hide Log.Entries, LoggedById, PlanDeeds, PlanLinks, TrailsPass, CarriedById;
    var entries := Log.Entries(disk.log);
    if entries.Err? {
      return Err(entries.error);
    }
    var logged := ReadLogged(entries.value);
    if logged.Err? {
      return Err(logged.error);
    }
    var plan := new Plan();
    var ok := StageDeeds(plan, keys, disk.files, logged.value, whole);
    if ok.Err? {
      return Err(ok.error);
    }
    var carried := CarriedById(whole.carried);
    ok := StageLinks(plan, keys.sha, disk.files, carried, whole.carried);
    if ok.Err? {
      return Err(ok.error);
    }
    CarriedNames(whole.carried);
    ok := CheckTrails(keys, disk.files, carried, whole.carried);
    if ok.Err? {
      return Err(ok.error);
    }
    return Ok(Staged(plan.files, plan.log, plan.deeds));
  }
}
