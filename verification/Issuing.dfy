/** Evidence a store issues under its own key, and freezing one deed: the checks
    before it, the files written in order, and the log entry written last. */
module Issuing {
  import opened Prelude
  import opened Text
  import opened Deeds
  import opened Fitting
  import opened Paths
  import opened Sidecars
  import opened Store
  import Address
  import Frames
  import Hex
  import Log
  import Wire
  import WireProofs

  /** What a store hashes, keys and signs with. `host` is the sidecar this host
      makes over a deed's octets and a time, if it makes one; `attests` is the
      layout's judgement of a sidecar, or of none. */
  datatype Keys = Keys(
    sha: Sha, mac: bytes -> Digest, host: (bytes, nat) -> Option<bytes>,
    attests: (bytes, nat, Option<bytes>) -> Result<()>, hostReads: bytes -> bool)

  // ---------- evidence ----------

  function Signature(keys: Keys, d: Deed, time: nat): Digest {
    keys.mac(Wire.DeedBytes(d) + Wire.PutU64(time))
  }

  function EvidenceAt(keys: Keys, d: Deed, time: nat): Evidence {
    Issued(d.id, d.producedBy, d.grants, time, Signature(keys, d, time))
  }

  function LoadEvidence(files: Files, id: bytes): Result<Evidence> {
    if Evid(id) !in files then Err(Evidence)
    else
      var r :- Frames.DecodeResponse(files[Evid(id)]);
      match r
      case Created(_, e) => Ok(e)
      case _ => Err(Decode)
  }

  function Lookup(files: Files, name: FileName): Option<bytes> {
    if name in files then Some(files[name]) else None
  }

  /** A write-once path with its bytes here, hashing to its name. */
  predicate PathHolds(sha: Sha, files: Files, path: bytes) {
    match Address.HexOf(path)
    case None => false
    case Some(hex) => Product(hex) in files && Hex.Render(sha(files[Product(hex)])) == hex
  }

  predicate PathsHold(sha: Sha, files: Files, paths: seq<bytes>) {
    forall p :: p in paths ==> PathHolds(sha, files, p)
  }

  /** The deed's own evidence, against its product bytes, this store's key, the
      host's sidecar, and the deed. */
  function EvidenceLocal(keys: Keys, files: Files, d: Deed): Result<Evidence> {
    var e :- LoadEvidence(files, d.id);
    if !PathsHold(keys.sha, files, d.paths) then Err(Evidence)
    else if e.signature != Signature(keys, d, e.time) then Err(Evidence)
    else
      var _ :- keys.attests(Wire.DeedBytes(d), e.time, Lookup(files, Host(d.id)));
      if e.deedId != d.id || e.producedBy != d.producedBy || !SameGrants(e.grants, d.grants) then Err(Evidence)
      else Ok(e)
  }

  // ---------- freezing a deed ----------

  function CheckPrior(files: Files, req: Frames.CreateRequest): Result<()> {
    match req.supersedes
    case None => Ok(())
    case Some(prior) =>
      if req.id == Some(prior) then Err(InvalidBody)
      else if Cap(prior) !in files then Err(NotFound)
      else if Successor(prior) in files then Err(Frozen)
      else Ok(())
  }

  /** The successor's side first, then the prior's. */
  function LinkWrites(id: bytes, supersedes: Option<bytes>): seq<Write> {
    match supersedes
    case None => []
    case Some(prior) => [Write(Supersedes(id), NameLine(prior)), Write(Successor(prior), NameLine(id))]
  }

  function HostWrites(keys: Keys, d: Deed, time: nat): seq<Write> {
    match keys.host(Wire.DeedBytes(d), time)
    case None => []
    case Some(sidecar) => [Write(Host(d.id), sidecar)]
  }

  function CreateWrites(keys: Keys, d: Deed, e: Evidence, supersedes: Option<bytes>): seq<Write> {
    [Write(Cap(d.id), CapFrame(d)), Write(Evid(d.id), EvidenceFrame(d, e))]
    + HostWrites(keys, d, e.time) + LinkWrites(d.id, supersedes)
  }

  /** What a create answers with, and what it has to write. */
  datatype Creation = Creation(deed: Deed, evidence: Evidence, plan: Plan)

  /** The store serves the deed, field for field. */
  predicate ServedSame(files: Files, d: Deed) {
    Get(files, d.id).Ok? && SameDeed(Get(files, d.id).value, d)
  }

  /** `made` is the deed the request's draft is assembled into, or why it cannot
      be; a deed served already, field for field, is answered from the store. */
  function Create(keys: Keys, files: Files, req: Frames.CreateRequest, made: Result<Deed>,
      time: nat): Result<Creation> {
    if req.id.Some? && Tomb(req.id.value) in files then Err(Frozen)
    else
      var _ :- CheckPrior(files, req);
      var d :- made;
      if Cap(d.id) in files && req.supersedes.None? && ServedSame(files, d) then
        var e :- LoadEvidence(files, d.id);
        Ok(Creation(Get(files, d.id).value, e, Plan([], [])))
      else if Cap(d.id) in files || Tomb(d.id) in files then Err(Frozen)
      else
        var e := EvidenceAt(keys, d, time);
        Ok(Creation(d, e, Plan(CreateWrites(keys, d, e, req.supersedes), [EntryFor(keys.sha, d, time)])))
  }

  /** A request writes something exactly when its deed is new here. */
  ghost predicate Mints(keys: Keys, files: Files, req: Frames.CreateRequest, made: Result<Deed>, time: nat) {
    Create(keys, files, req, made, time).Ok? && Create(keys, files, req, made, time).value.plan.writes != []
  }

  lemma MintedFacts(keys: Keys, files: Files, req: Frames.CreateRequest, made: Result<Deed>, time: nat)
    requires Create(keys, files, req, made, time).Ok?
    ensures var c := Create(keys, files, req, made, time).value;
            && made.Ok? && SameDeed(c.deed, made.value)
            && (c.plan == Plan([], []) || (
                  && made == Ok(c.deed)
                  && c.evidence == EvidenceAt(keys, c.deed, time)
                  && c.plan.writes == CreateWrites(keys, c.deed, c.evidence, req.supersedes)
                  && c.plan.entries == [EntryFor(keys.sha, c.deed, time)]
                  && Cap(c.deed.id) !in files && Tomb(c.deed.id) !in files))
    ensures req.supersedes.Some? ==>
              && Cap(req.supersedes.value) in files && Successor(req.supersedes.value) !in files
              && Create(keys, files, req, made, time).value.deed.id != req.supersedes.value
              && Create(keys, files, req, made, time).value.plan.writes != []
  {
    hide Get, LoadEvidence, CapFrame, EvidenceFrame, HostWrites, LinkWrites, Signature;
  }

  lemma CreateNames(keys: Keys, d: Deed, e: Evidence, supersedes: Option<bytes>)
    ensures Distinct(CreateWrites(keys, d, e, supersedes))
    ensures forall w :: w in CreateWrites(keys, d, e, supersedes) ==>
              || (w.name in {Cap(d.id), Evid(d.id), Host(d.id)})
              || (supersedes.Some? && w == Write(Supersedes(d.id), NameLine(supersedes.value)))
              || (supersedes.Some? && w == Write(Successor(supersedes.value), NameLine(d.id)))
  {
    hide CapFrame, EvidenceFrame, NameLine;
  }

  /** The deed's own cap is all a create writes of caps, and it reads back. */
  lemma MintedReads(keys: Keys, files: Files, d: Deed, e: Evidence, supersedes: Option<bytes>)
    requires Fits(d)
    ensures CapDeed(Written(files, CreateWrites(keys, d, e, supersedes)), d.id) == Ok(Settled(d))
    ensures DeedDigest(keys.sha, Settled(d)) == DeedDigest(keys.sha, d) && IsId(d.id)
  {
    hide CapFrame, EvidenceFrame, HostWrites, LinkWrites, Frames.DecodeResponse, Fits, Written, Distinct, Settled;
    hide Wire.PutDeed, IsId, Address.Of;
    var writes := CreateWrites(keys, d, e, supersedes);
    CreateNames(keys, d, e, supersedes);
    assert writes[0] == Write(Cap(d.id), CapFrame(d));
    WrittenAt(files, writes, 0);
    CapEchoes(d);
  }

  /** What a create that mints a deed adds is sound in a sound store. */
  lemma MintedSound(keys: Keys, disk: Disk, d: Deed, e: Evidence, supersedes: Option<bytes>, time: nat)
    requires Sound(keys.sha, disk) && time < U64 && Fits(d) && Cap(d.id) !in disk.files
    ensures SoundPlan(keys.sha, disk, Plan(CreateWrites(keys, d, e, supersedes), [EntryFor(keys.sha, d, time)]))
  {
    hide CreateWrites, Fits, Log.Entries, IsId, Log.Writable, CapFrame, EvidenceFrame, Written, Address.Of, CapDeed;
    hide DeedDigest;
    CreateNames(keys, d, e, supersedes);
    MintedReads(keys, disk.files, d, e, supersedes);
    EntryWritable(keys.sha, d, time);
    forall f | f in Log.Entries(disk.log).value
      ensures f.id != d.id
    {
      assert Held(keys.sha, disk.files, f);
      HeldHere(keys.sha, disk.files, f);
    }
  }

  lemma HeldHere(sha: Sha, files: Files, e: Log.Entry)
    requires Held(sha, files, e)
    ensures Cap(e.id) in files
  {
  }

  /** A create's plan is sound in a sound store. */
  lemma CreateSound(keys: Keys, disk: Disk, req: Frames.CreateRequest, made: Result<Deed>, time: nat)
    requires Sound(keys.sha, disk) && time < U64
    requires Create(keys, disk.files, req, made, time).Ok? && Fits(made.value)
    ensures SoundPlan(keys.sha, disk, Create(keys, disk.files, req, made, time).value.plan)
  {
    hide Create, CreateWrites, Fits, Log.Entries, Sound;
    var c := Create(keys, disk.files, req, made, time).value;
    MintedFacts(keys, disk.files, req, made, time);
    if c.plan != Plan([], []) {
      MintedSound(keys, disk, c.deed, c.evidence, req.supersedes, time);
    }
  }

  /** Deleting a deed entombs it; its files and its log entry stay. */
  function Delete(files: Files, id: bytes): Result<Plan> {
    if Tomb(id) in files then Err(Tombstoned)
    else if Cap(id) !in files then Err(NotFound)
    else Ok(Plan([Write(Tomb(id), Ascii("tomb"))], []))
  }

  // ---------- asking again ----------

  /** A deed and its evidence that fit the frame of the evidence file. */
  predicate EvidenceFits(keys: Keys, d: Deed, time: nat) {
    Fits(d) && time < U64 && |Frames.ResponsePayload(Frames.Created(d, EvidenceAt(keys, d, time)))| < Wire.U32
  }

  lemma EvidenceReads(keys: Keys, d: Deed, time: nat)
    requires EvidenceFits(keys, d, time)
    ensures Frames.DecodeResponse(EvidenceFrame(d, EvidenceAt(keys, d, time)))
            == Ok(Frames.Created(Settled(d), EvidenceAt(keys, Settled(d), time)))
    ensures Fits(d)
  {
    hide Frames.DecodeResponse, Wire.PutDeed, Wire.PutEvidence, Wire.TakeDeed, WireProofs.Good, Fits;
    hide WireProofs.GoodEvidence, Frames.Wrap;
    FitsGood(d);
    SettledBytes(d);
    SettledEvidence(keys, d, time);
    var s := Frames.Created(Settled(d), EvidenceAt(keys, Settled(d), time));
    Frames.ResponseRound(s, []);
    assert Frames.EncodeResponse(s) + [] == Frames.EncodeResponse(s);
  }

  lemma SettledEvidence(keys: Keys, d: Deed, time: nat)
    requires WireProofs.Good(Settled(d)) && time < U64 && Wire.DeedBytes(Settled(d)) == Wire.DeedBytes(d)
    ensures Wire.PutEvidence(EvidenceAt(keys, Settled(d), time)) == Wire.PutEvidence(EvidenceAt(keys, d, time))
    ensures WireProofs.GoodEvidence(EvidenceAt(keys, Settled(d), time))
  {
    hide Wire.PutDeed, Wire.PutStr, Wire.PutList, WireProofs.GoodId, WireProofs.GoodGrants, WireProofs.GoodBody;
    hide WireProofs.AllShort, WireProofs.GoodSources, SettledBody;
  }

  /** What the first `k` writes of a create leave for asking again to find. */
  lemma PartWritten(keys: Keys, files: Files, d: Deed, e: Evidence, supersedes: Option<bytes>, k: nat)
    requires 0 < k <= |CreateWrites(keys, d, e, supersedes)|
    ensures var now := Written(files, CreateWrites(keys, d, e, supersedes)[..k]);
            && Cap(d.id) in now && now[Cap(d.id)] == CapFrame(d)
            && (Tomb(d.id) in now <==> Tomb(d.id) in files)
            && (k >= 2 ==> Evid(d.id) in now && now[Evid(d.id)] == EvidenceFrame(d, e))
            && (k == 1 ==> Lookup(now, Evid(d.id)) == Lookup(files, Evid(d.id)))
  {
    hide CapFrame, EvidenceFrame, NameLine, HostWrites, LinkWrites, Written, Distinct;
    var writes := CreateWrites(keys, d, e, supersedes);
    CreateNames(keys, d, e, supersedes);
    var part := writes[..k];
    TakeDistinct(writes, k);
    assert part[0] == Write(Cap(d.id), CapFrame(d));
    WrittenAt(files, part, 0);
    assert forall w :: w in part ==> w in writes;
    Unwritten(files, part, Tomb(d.id));
    if k >= 2 {
      assert part[1] == Write(Evid(d.id), EvidenceFrame(d, e));
      WrittenAt(files, part, 1);
    } else {
      assert part == [part[0]];
      Unwritten(files, part, Evid(d.id));
    }
  }

  lemma TakeDistinct(writes: seq<Write>, k: nat)
    requires Distinct(writes) && k <= |writes|
    ensures Distinct(writes[..k])
  {
  }

  /** What asking again is answered once the cap is written: a deed with an empty
      optional text is not the one its cap gives back, and one whose evidence is
      not written yet is answered with whatever evidence file was there before. */
  function AnsweredAgain(keys: Keys, before: Files, d: Deed, time: nat, supersedes: Option<bytes>, k: nat)
    : Result<(Deed, Evidence)>
  {
    if supersedes.Some? || Settled(d) != d then Err(Frozen)
    else if k > 1 then Ok((d, EvidenceAt(keys, d, time)))
    else
      var e :- LoadEvidence(before, d.id);
      Ok((d, e))
  }

  /** An answer that writes nothing. */
  function Idly(answer: Result<(Deed, Evidence)>): Result<Creation> {
    var (d, e) :- answer;
    Ok(Creation(d, e, Plan([], [])))
  }

  /** The same request asked again after a stop. From nothing written it starts
      over; once the cap is written it never writes again, not even the log
      entry: it is refused, or answered from what is there. */
  lemma AskedAgain(keys: Keys, disk: Disk, req: Frames.CreateRequest, made: Result<Deed>, time: nat, again: nat, k: nat)
    requires Mints(keys, disk.files, req, made, time)
    requires req.id.Some? ==> req.id.value == made.value.id
    requires EvidenceFits(keys, made.value, time)
    requires k <= |Create(keys, disk.files, req, made, time).value.plan.writes|
    ensures var c := Create(keys, disk.files, req, made, time).value;
            var r := Create(keys, Written(disk.files, c.plan.writes[..k]), req, made, again);
            r == if k == 0 then Create(keys, disk.files, req, made, again)
                 else Idly(AnsweredAgain(keys, disk.files, made.value, time, req.supersedes, k))
  {
    hide CapFrame, EvidenceFrame, CreateWrites, EvidenceFits, Fits, Frames.DecodeResponse, Settled, SameDeed;
    hide Wire.PutDeed, Signature, Written;
    var c := Create(keys, disk.files, req, made, time).value;
    MintedFacts(keys, disk.files, req, made, time);
    if k == 0 {
      assert c.plan.writes[..k] == [];
      NoneWritten(disk.files);
    } else {
      var now := Written(disk.files, c.plan.writes[..k]);
      PartWritten(keys, disk.files, c.deed, c.evidence, req.supersedes, k);
      EvidenceReads(keys, c.deed, time);
      CapEchoes(c.deed);
      SettledSame(c.deed);
      assert Get(now, c.deed.id) == Ok(Settled(c.deed));
      PriorAgain(keys, disk.files, c.deed, c.evidence, req, k);
    }
  }

  lemma SettledSame(d: Deed)
    ensures SameDeed(Settled(d), d) <==> Settled(d) == d
  {
    hide Parse;
  }

  /** The prior's own record is not written before the last write. */
  lemma PriorAgain(keys: Keys, files: Files, d: Deed, e: Evidence, req: Frames.CreateRequest, k: nat)
    requires k <= |CreateWrites(keys, d, e, req.supersedes)| && CheckPrior(files, req).Ok?
    ensures var now := CheckPrior(Written(files, CreateWrites(keys, d, e, req.supersedes)[..k]), req);
            now == Ok(()) || (now == Err(Frozen) && req.supersedes.Some?)
  {
    hide CapFrame, EvidenceFrame, NameLine, HostWrites, LinkWrites, Written, Distinct;
    if req.supersedes.Some? {
      CapsRemain(files, CreateWrites(keys, d, e, req.supersedes)[..k], req.supersedes.value);
    }
  }

  lemma {:induction false} CapsRemain(files: Files, writes: seq<Write>, id: bytes)
    requires Cap(id) in files
    ensures Cap(id) in Written(files, writes)
    decreases |writes|
  {
    if writes != [] {
      CapsRemain(files[writes[0].name := writes[0].content], writes[1..], id);
    }
  }
}
