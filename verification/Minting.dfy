/** A whole create: its first checks, the body's files taken in, the deed frozen. */
module Minting {
  import opened Prelude
  import opened Text
  import opened Deeds
  import opened Fitting
  import opened Ingest
  import opened Issuing
  import opened Paths
  import opened Store
  import Address
  import Frames
  import Hex
  import Log
  import Wire

  /** A request, what local paths read as, what assembling the draft over the
      ingested body comes to, and the clock. */
  datatype Ask = Ask(req: Frames.CreateRequest, read: Reads, make: Body -> Result<Deed>, time: nat)

  /** What a create answers, and what it writes, refused or not. */
  datatype Outcome = Outcome(answer: Result<(Deed, Evidence)>, plan: Plan)

  function FirstChecks(files: Files, req: Frames.CreateRequest): Result<()> {
    if req.id.Some? && Tomb(req.id.value) in files then Err(Frozen) else CheckPrior(files, req)
  }

  function Attempt(keys: Keys, files: Files, ask: Ask): Outcome {
    match FirstChecks(files, ask.req)
    case Err(e) => Outcome(Err(e), Plan([], []))
    case Ok(_) =>
      var (shelf, body) := IngestBody(keys.sha, ask.read, files, ask.req.body);
      match body
      case Err(e) => Outcome(Err(e), Plan(shelf, []))
      case Ok(b) =>
        match Create(keys, Written(files, shelf), ask.req, ask.make(b), ask.time)
        case Err(e) => Outcome(Err(e), Plan(shelf, []))
        case Ok(c) => Outcome(Ok((c.deed, c.evidence)), Plan(shelf + c.plan.writes, c.plan.entries))
  }

  /** What taking the body in writes. */
  function Shelf(keys: Keys, files: Files, ask: Ask): seq<Write> {
    IngestBody(keys.sha, ask.read, files, ask.req.body).0
  }

  /** The deed the ingested body is assembled into. */
  function Made(keys: Keys, files: Files, ask: Ask): Result<Deed> {
    var b :- IngestBody(keys.sha, ask.read, files, ask.req.body).1;
    ask.make(b)
  }

  /** A granted create is the freezing of its deed over the filled shelf. */
  lemma AttemptGranted(keys: Keys, files: Files, ask: Ask) returns (c: Creation)
    requires Attempt(keys, files, ask).answer.Ok?
    ensures FirstChecks(files, ask.req).Ok? && Made(keys, files, ask).Ok?
    ensures IngestBody(keys.sha, ask.read, files, ask.req.body).1.Ok?
    ensures Create(keys, Written(files, Shelf(keys, files, ask)), ask.req, Made(keys, files, ask), ask.time) == Ok(c)
    ensures Attempt(keys, files, ask)
            == Outcome(Ok((c.deed, c.evidence)), Plan(Shelf(keys, files, ask) + c.plan.writes, c.plan.entries))
  {
    hide IngestBody, Create, CheckPrior;
    c := Create(keys, Written(files, Shelf(keys, files, ask)), ask.req, Made(keys, files, ask), ask.time).value;
    MadeOk(keys, Written(files, Shelf(keys, files, ask)), ask.req, Made(keys, files, ask), ask.time);
  }

  lemma GrantedExact(keys: Keys, files: Files, ask: Ask)
    ensures var now := Written(files, Shelf(keys, files, ask));
            Attempt(keys, files, ask).answer.Ok? <==> Create(keys, now, ask.req, Made(keys, files, ask), ask.time).Ok?
  {
    hide Create, CheckPrior, IngestBody, SameButProducts, Written;
    var now := Written(files, Shelf(keys, files, ask));
    ShelfSame(keys, files, ask, 0);
    SameChecks(files, now, ask.req);
    if FirstChecks(files, ask.req).Err? {
      ChecksFirst(keys, now, ask.req, Made(keys, files, ask), ask.time);
    } else if Made(keys, files, ask).Err? {
      MadeErr(keys, now, ask.req, Made(keys, files, ask), ask.time);
    }
  }

  lemma ShelfShelves(keys: Keys, files: Files, ask: Ask)
    ensures Shelving(keys.sha, files, Shelf(keys, files, ask))
  {
    hide IngestPaths, Shelving, BodyPaths;
    IngestShelves(keys.sha, ask.read, files, ask.req.body, BodyPaths(ask.req.body));
  }

  /** A refused create logs nothing, and leaves at most product bytes. */
  lemma RefusedOnlyShelves(keys: Keys, files: Files, ask: Ask)
    requires Attempt(keys, files, ask).answer.Err?
    ensures Attempt(keys, files, ask).plan.entries == []
    ensures Shelving(keys.sha, files, Attempt(keys, files, ask).plan.writes)
    ensures OnlyShelved(keys.sha, files, Written(files, Attempt(keys, files, ask).plan.writes))
  {
    hide IngestBody, Create, CheckPrior, Shelving, OnlyShelved, Written;
    ShelfShelves(keys, files, ask);
    NoShelving(keys.sha, files);
    ShelvingOnly(keys.sha, files, Attempt(keys, files, ask).plan.writes);
  }

  // ---------- what product bytes leave alone ----------

  ghost predicate SameButProducts(before: Files, after: Files) {
    forall n: FileName :: !n.Product? ==> (n in after <==> n in before) && (n in before ==> after[n] == before[n])
  }

  lemma ShelvedSame(sha: Sha, before: Files, after: Files)
    requires OnlyShelved(sha, before, after)
    ensures SameButProducts(before, after)
  {
    hide HexOfBytes;
  }

  lemma ShelfSame(keys: Keys, files: Files, ask: Ask, k: nat)
    requires k <= |Shelf(keys, files, ask)|
    ensures SameButProducts(files, Written(files, Shelf(keys, files, ask)[..k]))
    ensures SameButProducts(files, Written(files, Shelf(keys, files, ask)))
  {
    hide Shelf, Shelving, OnlyShelved, SameButProducts, Written;
    var shelf := Shelf(keys, files, ask);
    ShelfShelves(keys, files, ask);
    ShelvingPart(keys.sha, files, shelf, k);
    ShelvedSame(keys.sha, files, Written(files, shelf[..k]));
    ShelvingOnly(keys.sha, files, shelf);
    ShelvedSame(keys.sha, files, Written(files, shelf));
  }

  lemma SameChecks(before: Files, after: Files, req: Frames.CreateRequest)
    requires SameButProducts(before, after)
    ensures FirstChecks(after, req) == FirstChecks(before, req)
  {
  }

  /** The checks made before the body is taken in are the freezing's own. */
  lemma ChecksFirst(keys: Keys, files: Files, req: Frames.CreateRequest, made: Result<Deed>, time: nat)
    requires FirstChecks(files, req).Err?
    ensures Create(keys, files, req, made, time) == Err(FirstChecks(files, req).error)
  {
  }

  lemma MadeErr(keys: Keys, files: Files, req: Frames.CreateRequest, made: Result<Deed>, time: nat)
    requires FirstChecks(files, req).Ok? && made.Err?
    ensures Create(keys, files, req, made, time) == Err(made.error)
  {
  }

  // ---------- sound ----------

  lemma SoundAfterShelf(sha: Sha, disk: Disk, shelf: seq<Write>, plan: Plan)
    requires Shelving(sha, disk.files, shelf)
    requires SoundPlan(sha, Disk(Written(disk.files, shelf), disk.log), plan)
    ensures SoundPlan(sha, disk, Plan(shelf + plan.writes, plan.entries))
  {
    hide AllHeld, Log.Entries, Written, Log.Writable, HexOfBytes;
    WrittenConcat(disk.files, shelf, plan.writes);
    ShelvingOnly(sha, disk.files, shelf);
    ShelvedSame(sha, disk.files, Written(disk.files, shelf));
    forall w | w in shelf + plan.writes && w.name.Cap?
      ensures w.name !in disk.files
    {
      assert w in plan.writes;
    }
  }

  lemma ShelfSound(sha: Sha, disk: Disk, shelf: seq<Write>)
    requires Sound(sha, disk) && Shelving(sha, disk.files, shelf)
    ensures SoundPlan(sha, disk, Plan(shelf, [])) && Sound(sha, Disk(Written(disk.files, shelf), disk.log))
  {
    hide Sound, Written, Log.Entries, HexOfBytes, Held;
    var plan := Plan(shelf, []);
    SoundKept(sha, disk, plan, |shelf|, 0);
    assert shelf[..|shelf|] == shelf;
  }

  /** A create's plan, refused or granted, is sound in a sound store. */
  lemma AttemptSound(keys: Keys, disk: Disk, ask: Ask)
    requires Sound(keys.sha, disk) && ask.time < U64
    requires Made(keys, disk.files, ask).Ok? ==> Fits(Made(keys, disk.files, ask).value)
    ensures SoundPlan(keys.sha, disk, Attempt(keys, disk.files, ask).plan)
  {
    hide Attempt, Sound, SoundPlan, Shelving, Create, Fits, Written, Shelf, Made, OnlyShelved;
    var files := disk.files;
    if Attempt(keys, files, ask).answer.Err? {
      RefusedOnlyShelves(keys, files, ask);
      ShelfSound(keys.sha, disk, Attempt(keys, files, ask).plan.writes);
    } else {
      var c := AttemptGranted(keys, files, ask);
      var shelf := Shelf(keys, files, ask);
      ShelfShelves(keys, files, ask);
      ShelfSound(keys.sha, disk, shelf);
      MadeOk(keys, Written(files, shelf), ask.req, Made(keys, files, ask), ask.time);
      CreateSound(keys, Disk(Written(files, shelf), disk.log), ask.req, Made(keys, files, ask), ask.time);
      SoundAfterShelf(keys.sha, disk, shelf, c.plan);
    }
  }

  lemma MadeOk(keys: Keys, files: Files, req: Frames.CreateRequest, made: Result<Deed>, time: nat)
    requires Create(keys, files, req, made, time).Ok?
    ensures made.Ok?
  {
    hide Get, LoadEvidence;
  }

  // ---------- asking again ----------

  ghost predicate SameProducts(a: Files, b: Files) {
    forall hex :: Product(hex) in a <==> Product(hex) in b
  }

  lemma SameShelved(sha: Sha, a: Files, b: Files, content: bytes)
    requires SameProducts(a, b)
    ensures ShelfWrites(sha, a, content) == ShelfWrites(sha, b, content)
    ensures SameProducts(Written(a, ShelfWrites(sha, a, content)), Written(b, ShelfWrites(sha, b, content)))
  {
    hide HexOfBytes;
    var writes := ShelfWrites(sha, a, content);
    if writes != [] {
      OneWritten(a, writes[0]);
      OneWritten(b, writes[0]);
    }
  }

  /** What taking paths in does depends on the shelf alone. */
  lemma {:induction false} SameIngest(sha: Sha, read: Reads, a: Files, b: Files, body: Body, originals: seq<bytes>)
    requires SameProducts(a, b)
    ensures IngestPaths(sha, read, a, body, originals) == IngestPaths(sha, read, b, body, originals)
    decreases originals
  {
    hide SameProducts, ShelfWrites, RewritePath, Address.Of, Address.HexOf, Ascii, Written;
    if originals != [] {
      var p, rest := originals[0], originals[1..];
      if !Local(p) {
        SameIngest(sha, read, a, b, body, rest);
      } else if read(p).Some? {
        var content := read(p).value;
        SameShelved(sha, a, b, content);
        SameIngest(sha, read, Written(a, ShelfWrites(sha, a, content)), Written(b, ShelfWrites(sha, b, content)),
                   RewritePath(body, p, Address.Of(sha, content)), rest);
      }
    }
  }

  lemma WritesKeepProducts(keys: Keys, files: Files, d: Deed, e: Evidence, supersedes: Option<bytes>, k: nat)
    requires k <= |CreateWrites(keys, d, e, supersedes)|
    ensures SameProducts(Written(files, CreateWrites(keys, d, e, supersedes)[..k]), files)
  {
    hide CreateWrites, Written;
    var part := CreateWrites(keys, d, e, supersedes)[..k];
    CreateNames(keys, d, e, supersedes);
    forall hex
      ensures Product(hex) in Written(files, part) <==> Product(hex) in files
    {
      Unwritten(files, part, Product(hex));
    }
  }

  /** Stopped while its body's files were taken in, and asked again, a create
      does exactly what it had left to do and answers the same. */
  lemma AttemptResumes(keys: Keys, files: Files, ask: Ask, k: nat)
    requires FirstChecks(files, ask.req).Ok? && k <= |Shelf(keys, files, ask)|
    ensures var whole := Attempt(keys, files, ask);
            && k <= |whole.plan.writes|
            && Attempt(keys, Written(files, whole.plan.writes[..k]), ask)
               == Outcome(whole.answer, Rest(whole.plan, k, 0))
  {
    hide Create, CheckPrior, Shelving, Written, SameButProducts, BodyPaths, IngestPaths;
    var shelf, paths := Shelf(keys, files, ask), BodyPaths(ask.req.body);
    var now := Written(files, shelf[..k]);
    ShelfSame(keys, files, ask, k);
    SameChecks(files, now, ask.req);
    IngestResumes(keys.sha, ask.read, files, ask.req.body, paths, k);
    WrittenConcat(files, shelf[..k], shelf[k..]);
    assert shelf[..k] + shelf[k..] == shelf;
    var whole := Attempt(keys, files, ask).plan;
    TakeShelf(shelf, whole.writes, k);
    assert whole.entries[0..] == whole.entries;
  }

  lemma TakeShelf(shelf: seq<Write>, all: seq<Write>, k: nat)
    requires shelf <= all && k <= |shelf|
    ensures all[..k] == shelf[..k] && all[k..] == shelf[k..] + all[|shelf|..]
  {
  }

  /** Stopped at any later write, and asked again, it writes nothing: it is
      refused, or answered from what is there. */
  lemma AttemptAgain(keys: Keys, files: Files, ask: Ask, again: nat, k: nat)
    requires Attempt(keys, files, ask).answer.Ok?
    requires var made, writes := Made(keys, files, ask).value, Attempt(keys, files, ask).plan.writes;
             && (ask.req.id.Some? ==> ask.req.id.value == made.id) && EvidenceFits(keys, made, ask.time)
             && |Shelf(keys, files, ask)| < k <= |writes|
    ensures var shelf, writes := |Shelf(keys, files, ask)|, Attempt(keys, files, ask).plan.writes;
            Attempt(keys, Written(files, writes[..k]), ask.(time := again))
            == Outcome(
                 AnsweredAgain(keys, files, Made(keys, files, ask).value, ask.time, ask.req.supersedes, k - shelf),
                 Plan([], []))
  {
    hide Attempt, Create, Written, SameButProducts, EvidenceFits, AnsweredAgain, Shelf, Made, FirstChecks;
    var c := AttemptGranted(keys, files, ask);
    var shelf, n := Shelf(keys, files, ask), k - |Shelf(keys, files, ask)|;
    WrittenConcat(files, shelf, c.plan.writes[..n]);
    assert shelf + c.plan.writes[..n] == (shelf + c.plan.writes)[..k];
    FrozenAgain(keys, files, ask, c, again, n);
  }

  /** The same, after `n` of the freezing's own writes. */
  lemma FrozenAgain(keys: Keys, files: Files, ask: Ask, c: Creation, again: nat, n: nat)
    requires var now, made := Written(files, Shelf(keys, files, ask)), Made(keys, files, ask);
             && Create(keys, now, ask.req, made, ask.time) == Ok(c) && 0 < n <= |c.plan.writes|
             && IngestBody(keys.sha, ask.read, files, ask.req.body).1.Ok? && made.Ok?
             && (ask.req.id.Some? ==> ask.req.id.value == made.value.id) && EvidenceFits(keys, made.value, ask.time)
    ensures var stopped := Written(Written(files, Shelf(keys, files, ask)), c.plan.writes[..n]);
            Attempt(keys, stopped, ask.(time := again))
            == Outcome(
                 AnsweredAgain(keys, files, Made(keys, files, ask).value, ask.time, ask.req.supersedes, n),
                 Plan([], []))
  {
    hide Attempt, Create, Written, SameButProducts, IngestBody, EvidenceFits, AnsweredAgain, CreateWrites, FirstChecks;
    var made, now := Made(keys, files, ask), Written(files, Shelf(keys, files, ask));
    var stopped := Written(now, c.plan.writes[..n]);
    MintedFacts(keys, now, ask.req, made, ask.time);
    AskedAgain(keys, Disk(now, []), ask.req, made, ask.time, again, n);
    IngestedAlready(keys, files, ask, c, n);
    NoneWritten(stopped);
    ShelfSame(keys, files, ask, 0);
    SameAnswer(keys, files, now, made.value, ask.time, ask.req.supersedes, n);
    Idle(keys, stopped, ask.(time := again), made,
         AnsweredAgain(keys, now, made.value, ask.time, ask.req.supersedes, n));
  }

  /** Once everything is shelved, taking it in again writes nothing. */
  lemma IngestedAlready(keys: Keys, files: Files, ask: Ask, c: Creation, n: nat)
    requires n <= |CreateWrites(keys, c.deed, c.evidence, ask.req.supersedes)|
    ensures var now := Written(files, Shelf(keys, files, ask));
            IngestBody(keys.sha, ask.read,
                       Written(now, CreateWrites(keys, c.deed, c.evidence, ask.req.supersedes)[..n]), ask.req.body)
            == ([], IngestBody(keys.sha, ask.read, files, ask.req.body).1)
  {
    hide Create, Written, BodyPaths, IngestPaths, CreateWrites, SameProducts;
    var shelf, paths := Shelf(keys, files, ask), BodyPaths(ask.req.body);
    var now := Written(files, shelf);
    IngestResumes(keys.sha, ask.read, files, ask.req.body, paths, |shelf|);
    assert shelf[..|shelf|] == shelf && shelf[|shelf|..] == [];
    WritesKeepProducts(keys, now, c.deed, c.evidence, ask.req.supersedes, n);
    SameIngest(keys.sha, ask.read, Written(now, CreateWrites(keys, c.deed, c.evidence, ask.req.supersedes)[..n]), now,
               ask.req.body, paths);
  }

  lemma SameAnswer(keys: Keys, files: Files, now: Files, d: Deed, time: nat, supersedes: Option<bytes>, n: nat)
    requires SameButProducts(files, now)
    ensures AnsweredAgain(keys, now, d, time, supersedes, n) == AnsweredAgain(keys, files, d, time, supersedes, n)
  {
    hide Settled, EvidenceAt, Frames.DecodeResponse;
    assert Evid(d.id) in now <==> Evid(d.id) in files;
  }

  lemma Idle(keys: Keys, files: Files, ask: Ask, made: Result<Deed>, answer: Result<(Deed, Evidence)>)
    requires Shelf(keys, files, ask) == [] && IngestBody(keys.sha, ask.read, files, ask.req.body).1.Ok?
    requires Made(keys, files, ask) == made && Written(files, []) == files
    requires Create(keys, files, ask.req, made, ask.time) == Idly(answer)
    ensures Attempt(keys, files, ask) == Outcome(answer, Plan([], []))
  {
    hide Create, IngestBody, FirstChecks, Written;
    if FirstChecks(files, ask.req).Err? {
      ChecksFirst(keys, files, ask.req, made, ask.time);
      assert answer.Err?;
    } else {
      var (shelf, body) := IngestBody(keys.sha, ask.read, files, ask.req.body);
      assert shelf == Shelf(keys, files, ask) && shelf + [] == [];
      assert ask.make(body.value) == made;
      if answer.Ok? {
        assert Idly(answer) == Ok(Creation(answer.value.0, answer.value.1, Plan([], [])));
      } else {
        assert Idly(answer) == Err(answer.error);
      }
    }
  }

  // ---------- a fresh deed passes its own evidence ----------

  /** What assembling a draft keeps of the request and of the body. */
  ghost predicate KeepsDraft(ask: Ask) {
    forall b :: ask.make(b).Ok? ==>
                  && ask.make(b).value.body == b && ask.make(b).value.paths == BodyPaths(b)
                  && (ask.req.id.Some? ==> ask.make(b).value.id == ask.req.id.value)
  }

  /** Product bytes on the shelf hash to their names. */
  ghost predicate Shelved(sha: Sha, files: Files) {
    forall hex :: Product(hex) in files ==> HexOfBytes(sha, files[Product(hex)]) == hex
  }

  /** Every path of the body that is no local file is an address on the shelf. */
  ghost predicate RestOnShelf(sha: Sha, files: Files, b: Body) {
    forall p :: p in BodyPaths(b) && !Local(p) ==> PathHolds(sha, files, p)
  }

  lemma LocalHolds(sha: Sha, before: Files, after: Files, content: bytes)
    requires Shelved(sha, before) && OnlyShelved(sha, before, after) && OnShelf(sha, before, after, content)
    ensures PathHolds(sha, after, Address.Of(sha, content))
  {
    hide Address.HexOf, Address.Of;
    Address.OfIsAddress(sha, content);
  }

  /** The paths of the ingested body hold exactly when those that were no local
      files do. */
  lemma IngestedHold(sha: Sha, read: Reads, files: Files, b: Body)
    requires Shelved(sha, files) && IngestBody(sha, read, files, b).1.Ok?
    ensures var (writes, out) := IngestBody(sha, read, files, b);
            var after := Written(files, writes);
            PathsHold(sha, after, BodyPaths(out.value)) <==> RestOnShelf(sha, after, b)
  {
    hide IngestBody, Written, PathHolds, BodyPaths, Target, Address.Of, Address.HexOf, Local, OnlyShelved, OnShelf;
    hide Shelved, WithPaths;
    var (writes, out) := IngestBody(sha, read, files, b);
    var paths, after := BodyPaths(b), Written(files, writes);
    IngestedBody(sha, read, files, b);
    WithPathsExact(b, Targets(sha, read, paths), paths);
    forall p | p in paths
      ensures if Local(p) then PathHolds(sha, after, Target(sha, read, paths, p)) else Target(sha, read, paths, p) == p
    {
      if Local(p) {
        TargetRead(sha, read, paths, p);
        LocalHolds(sha, files, after, read(First(paths, p)).value);
      } else {
        NoTarget(sha, read, paths, p);
      }
    }
    HoldEach(sha, after, paths, Targets(sha, read, paths));
  }

  lemma NoTarget(sha: Sha, read: Reads, paths: seq<bytes>, p: bytes)
    requires !Local(p)
    ensures Target(sha, read, paths, p) == p
  {
  }

  lemma {:induction false} FirstIsOne(paths: seq<bytes>, p: bytes)
    requires Seen(paths, p)
    ensures First(paths, p) in paths && SamePath(First(paths, p), p)
    decreases paths
  {
    hide SamePath;
    SeenFirst(paths, p);
    if !SamePath(paths[0], p) {
      FirstIsOne(paths[1..], p);
    }
  }

  lemma TargetRead(sha: Sha, read: Reads, paths: seq<bytes>, p: bytes)
    requires p in paths && Local(p) && forall q :: q in paths && Local(q) ==> read(q).Some?
    ensures First(paths, p) in paths && Local(First(paths, p)) && read(First(paths, p)).Some?
    ensures Target(sha, read, paths, p) == Address.Of(sha, read(First(paths, p)).value)
  {
    hide Local, Parse, Address.Of, First, Seen;
    SeenHere(paths, p);
    FirstIsOne(paths, p);
    SpellingsLocal(p, First(paths, p));
  }

  lemma HoldEach(sha: Sha, files: Files, paths: seq<bytes>, ends: seq<bytes>)
    requires |ends| == |paths|
    requires forall n :: 0 <= n < |paths| ==>
                           if Local(paths[n]) then PathHolds(sha, files, ends[n]) else ends[n] == paths[n]
    ensures PathsHold(sha, files, ends) <==> forall p :: p in paths && !Local(p) ==> PathHolds(sha, files, p)
  {
    hide PathHolds, Local;
    if PathsHold(sha, files, ends) {
      forall p | p in paths && !Local(p)
        ensures PathHolds(sha, files, p)
      {
        var n :| 0 <= n < |paths| && paths[n] == p;
        assert ends[n] in ends;
      }
    }
    if forall p :: p in paths && !Local(p) ==> PathHolds(sha, files, p) {
      forall q | q in ends
        ensures PathHolds(sha, files, q)
      {
        var n :| 0 <= n < |ends| && ends[n] == q;
        assert paths[n] in paths;
      }
    }
  }

  /** A deed just created over a truthful shelf passes the evidence check if and
      only if every path of its request that was not taken in is an address whose
      bytes are there. */
  lemma AttemptPassesEvidence(keys: Keys, disk: Disk, ask: Ask)
    requires Attempt(keys, disk.files, ask).answer.Ok? && Attempt(keys, disk.files, ask).plan.entries != []
    requires KeepsDraft(ask) && Shelved(keys.sha, disk.files)
    requires EvidenceFits(keys, Made(keys, disk.files, ask).value, ask.time)
    requires var d, after := Made(keys, disk.files, ask).value, Done(disk, Attempt(keys, disk.files, ask).plan).files;
             keys.attests(Wire.DeedBytes(d), ask.time, Lookup(after, Host(d.id))).Ok?
    ensures var d, after := Made(keys, disk.files, ask).value, Done(disk, Attempt(keys, disk.files, ask).plan).files;
            EvidenceLocal(keys, after, Settled(d))
            == if RestOnShelf(keys.sha, Written(disk.files, Shelf(keys, disk.files, ask)), ask.req.body)
               then Ok(EvidenceAt(keys, Settled(d), ask.time))
               else Err(Evidence)
  {
    hide Attempt, Create, Written, IngestBody, EvidenceFits, RestOnShelf, PathsHold, EvidenceLocal, FirstChecks;
    hide Settled, CreateWrites, Shelved;
    var files, shelf := disk.files, Shelf(keys, disk.files, ask);
    var c := AttemptGranted(keys, files, ask);
    var now := Disk(Written(files, shelf), disk.log);
    MintedFacts(keys, now.files, ask.req, Made(keys, files, ask), ask.time);
    CreateLength(keys, c.deed, c.evidence, ask.req.supersedes);
    WrittenConcat(files, shelf, c.plan.writes);
    FreshDeedPassesEvidence(keys, now, ask.req, Made(keys, files, ask), ask.time, c);
    IngestedHold(keys.sha, ask.read, files, ask.req.body);
  }
}
