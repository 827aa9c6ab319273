/** Whole runs of a store: creates, deletes, backfills and imports in any order,
    each stopped anywhere between its writes. */
module Runs {
  import opened Prelude
  import opened Text
  import opened Deeds
  import opened Fitting
  import opened Issuing
  import opened Minting
  import opened Store
  import Audit
  import Bag
  import Chains
  import Current
  import Exports
  import Graph
  import Handover
  import Landing
  import Log
  import Importing
  import Planned
  import Planning
  import SignedHead
  import Walk

  /** What a store is asked to do. An import's bag is read once to be checked and
      once to be imported. */
  datatype Action =
    | Creates(ask: Ask)
    | Deletes(id: bytes)
    | Backfills(stamp: bytes -> nat)
    | Imports(verify: SignedHead.Verify, accept: set<Digest>, allow: bool, first: Bag.Bag, second: Bag.Bag)

  /** What the action writes. A create may be refused: what it took in stays. Any
      other is granted. */
  ghost predicate Writes(keys: Keys, disk: Disk, a: Action, plan: Plan) {
    match a
    case Creates(ask) =>
      && ask.time < U64 && Attempt(keys, disk.files, ask).plan == plan
      && (Made(keys, disk.files, ask).Ok? ==> Fits(Made(keys, disk.files, ask).value))
    case Deletes(id) => Delete(disk.files, id) == Ok(plan)
    case Backfills(stamp) => (forall id :: stamp(id) < U64) && Audit.Backfill(keys.sha, disk, stamp) == Ok(plan)
    case Imports(verify, accept, allow, first, second) =>
      && Importing.Clear(keys.sha, second)
      && exists checked, whole, p ::
           && Importing.Admitted(keys, verify, accept, allow, first, second, checked, whole)
           && Planning.Plans(keys, disk, whole, p) && plan == Planning.PlanOf(p)
           && Landing.Alike(Planned.Import(keys, disk, whole))
  }

  ghost predicate Takes(keys: Keys, before: Disk, a: Action, plan: Plan, k: nat, j: nat, after: Disk) {
    Writes(keys, before, a, plan) && StopsAt(plan, k, j) && after == Partly(before, plan, k, j)
  }

  /** One action, carried out as far as it got. */
  ghost predicate Step(keys: Keys, before: Disk, after: Disk) {
    exists a, plan, k, j :: Takes(keys, before, a, plan, k, j, after)
  }

  ghost predicate Run(keys: Keys, disks: seq<Disk>) {
    disks != [] && forall n :: 0 <= n < |disks| - 1 ==> Step(keys, disks[n], disks[n + 1])
  }

  lemma DeleteSound(sha: Sha, disk: Disk, id: bytes, plan: Plan)
    requires Delete(disk.files, id) == Ok(plan) && Sound(sha, disk)
    ensures SoundPlan(sha, disk, plan)
  {
    hide Held, Log.Entries, Ascii;
  }

  /** Whatever an action writes is sound. */
  lemma WritesSound(keys: Keys, disk: Disk, a: Action, plan: Plan)
    requires Sound(keys.sha, disk) && Writes(keys, disk, a, plan)
    ensures SoundPlan(keys.sha, disk, plan)
  {
    hide Sound, SoundPlan, Attempt, Made, Fits, Planned.GoodImport, Planning.PlanFiles, Planning.TrailsPass;
    hide Importing.Admitted, Importing.Clear;
    match a {
      case Creates(ask) =>
        AttemptSound(keys, disk, ask);
      case Deletes(id) =>
        DeleteSound(keys.sha, disk, id, plan);
      case Backfills(stamp) =>
        Audit.BackfillSound(keys.sha, disk, stamp);
      case Imports(verify, accept, allow, first, second) =>
        var checked, whole, p :| && Importing.Admitted(keys, verify, accept, allow, first, second, checked, whole)
                                 && Planning.Plans(keys, disk, whole, p) && plan == Planning.PlanOf(p)
                                 && Landing.Alike(Planned.Import(keys, disk, whole));
        Importing.AdmittedGood(keys, verify, accept, allow, first, second, checked, whole, disk);
        Landing.ImportSound(Planned.Import(keys, disk, whole), p);
    }
  }

  /** What a step keeps: the store stays sound, and its log only grows. */
  ghost predicate Grows(sha: Sha, before: Disk, after: Disk) {
    && Sound(sha, before) && Sound(sha, after)
    && before.log <= after.log
    && Log.Entries(before.log).value <= Log.Entries(after.log).value
  }

  lemma StepGrows(keys: Keys, before: Disk, after: Disk)
    requires Sound(keys.sha, before) && Step(keys, before, after)
    ensures Grows(keys.sha, before, after)
  {
    hide AllHeld, Once, Writes, StopsAt, Log.Entries, SoundPlan;
    var a, plan, k, j :| Takes(keys, before, a, plan, k, j, after);
    WritesSound(keys, before, a, plan);
    SoundKept(keys.sha, before, plan, k, j);
  }

  /** Over a whole run the log reads, names nothing twice, and only grows; every
      entry's digest stays that of the deed held under it. */
  lemma {:induction false} RunGrows(keys: Keys, disks: seq<Disk>, i: nat, j: nat)
    requires Run(keys, disks) && Sound(keys.sha, disks[0]) && i <= j < |disks|
    ensures Grows(keys.sha, disks[i], disks[j])
    decreases j, i
  {
    hide Step, AllHeld, Once, Log.Entries;
    if j > 0 {
      RunGrows(keys, disks, 0, j - 1);
      assert Step(keys, disks[j - 1], disks[j]);
      StepGrows(keys, disks[j - 1], disks[j]);
      if i < j {
        RunGrows(keys, disks, i, j - 1);
      }
    }
  }

  /** A store with nothing in it is sound. */
  lemma EmptySound(sha: Sha, files: Files)
    ensures Sound(sha, Disk(files, []))
  {
    Log.EmptyFile();
  }

  /** At every point of a run the audit misses the entombed entries and no other. */
  lemma RunAudits(keys: Keys, disks: seq<Disk>, j: nat)
    requires Run(keys, disks) && Sound(keys.sha, disks[0]) && j < |disks|
    ensures Audit.AuditOf(keys.sha, disks[j]).Ok?
    ensures Audit.AuditOf(keys.sha, disks[j]).value.missing
            == Audit.Entombed(disks[j].files, Log.Entries(disks[j].log).value)
  {
    hide Step, AllHeld, Once, Log.Entries, Audit.AuditOf, Audit.Entombed;
    RunGrows(keys, disks, j, j);
    Audit.AuditMissesTheEntombed(keys.sha, disks[j]);
  }

  /** The store bridges from every head it has had over some entry to every head
      it has later, and a receiver's check passes. */
  lemma RunBridges(keys: Keys, disks: seq<Disk>, i: nat, j: nat)
    requires Run(keys, disks) && Sound(keys.sha, disks[0]) && i <= j < |disks|
    ensures Grows(keys.sha, disks[i], disks[j])
    ensures var was, now := Log.Entries(disks[i].log).value, Log.Entries(disks[j].log).value;
            var b := Exports.StoreBridge(keys.sha, now, |was|);
            was != [] ==> b.Ok? && Handover.CheckSince(keys.sha, Handover.HeadOfLog(keys.sha, was), Some(b.value),
                                                       Handover.HeadOfLog(keys.sha, now)).Ok?
  {
    hide Step, AllHeld, Once, Log.Entries, Exports.StoreBridge, Handover.HeadOfLog, Handover.CheckSince;
    RunGrows(keys, disks, i, j);
    var was, now := Log.Entries(disks[i].log).value, Log.Entries(disks[j].log).value;
    Exports.StoreBridgeChecks(keys.sha, now, |was|);
    assert now[..|was|] == was;
  }

  // ---------- runs of creates and deletes that finish ----------

  ghost predicate Finishes(keys: Keys, before: Disk, a: Action, plan: Plan, after: Disk) {
    (a.Creates? || a.Deletes?) && Writes(keys, before, a, plan) && after == Done(before, plan)
  }

  ghost predicate WholeStep(keys: Keys, before: Disk, after: Disk) {
    exists a, plan :: Finishes(keys, before, a, plan, after)
  }

  ghost predicate WholeRun(keys: Keys, disks: seq<Disk>) {
    && disks != [] && disks[0] == Disk(map[], [])
    && forall n :: 0 <= n < |disks| - 1 ==> WholeStep(keys, disks[n], disks[n + 1])
  }

  lemma WholeStepChains(keys: Keys, before: Disk, after: Disk, next: Current.Chain) returns (longer: Current.Chain)
    requires Current.Chained(keys.sha, before, next) && WholeStep(keys, before, after)
    ensures Current.Chained(keys.sha, after, longer)
  {
    hide Current.Chained, Attempt, Made, Fits, Audit.Backfill;
    var a, plan :| Finishes(keys, before, a, plan, after);
    match a {
      case Creates(ask) =>
        longer := Chains.AttemptKeepsChains(keys, before, next, ask);
      case Deletes(id) =>
        Chains.DeleteKeepsChains(keys.sha, before, next, id, plan);
        longer := next;
    }
  }

  lemma EmptyChained(sha: Sha)
    ensures Current.Chained(sha, Disk(map[], []), map[])
  {
    EmptySound(sha, map[]);
    Log.EmptyFile();
  }

  /** In every store that whole creates and deletes alone have made, each deed has
      one successor at most, and every link goes to a later entry. */
  lemma {:induction false} WholeRunChains(keys: Keys, disks: seq<Disk>, j: nat) returns (next: Current.Chain)
    requires WholeRun(keys, disks) && j < |disks|
    ensures Current.Chained(keys.sha, disks[j], next)
    decreases j
  {
    hide WholeStep, Current.Chained;
    if j == 0 {
      EmptyChained(keys.sha);
      next := map[];
    } else {
      var before := WholeRunChains(keys, disks, j - 1);
      assert WholeStep(keys, disks[j - 1], disks[j]);
      next := WholeStepChains(keys, disks[j - 1], disks[j], before);
    }
  }

  /** In every such store the sidecars read, and the walk from any accession ends
      in one deed it reaches, which nothing served supersedes. */
  lemma WholeRunEndsInATip(keys: Keys, disks: seq<Disk>, j: nat, id: bytes, r: Result<Walk.Ending>)
    requires WholeRun(keys, disks) && j < |disks|
    requires var back := Current.SupersededBy(disks[j].files);
             back.Ok? ==> Walk.Answers(Current.Edges(disks[j].files, back.value), id, r)
    ensures Current.SupersededBy(disks[j].files).Ok?
    ensures r.Ok? && r.value.Tip?
    ensures var edges := Current.Edges(disks[j].files, Current.SupersededBy(disks[j].files).value);
            Graph.Reaches(edges, id, r.value.id) && Walk.Sink(edges, r.value.id)
  {
    hide WholeStep, Current.Chained, Current.SupersededBy, Walk.Answers, Current.NamesPrior, Current.Edges;
    var next := WholeRunChains(keys, disks, j);
    Current.ChainedNames(keys.sha, disks[j], next);
    Current.ChainedEndsInATip(keys.sha, disks[j], next, id, r);
  }
}
