/** A store on disk, and what a plan of writes leaves of it wherever it stops. */
module Store {
  import opened Prelude
  import opened Text
  import opened Deeds
  import opened Fitting
  import Address
  import Decoded
  import Frames
  import Log
  import Wire
  import WireProofs

  /** One file of the store, by what it holds and the accession it is named
      for. Product bytes are named by their hash. */
  datatype FileName =
    | Cap(stem: bytes)
    | Evid(stem: bytes)
    | Host(stem: bytes)
    | Tomb(stem: bytes)
    | Successor(stem: bytes)
    | Supersedes(stem: bytes)
    | Proof(stem: bytes)
    | Kept(stem: bytes)
    | Product(stem: bytes)

  type Files = map<FileName, bytes>

  /** A log that is not there yet reads as one with nothing in it. */
  datatype Disk = Disk(files: Files, log: bytes)

  datatype Write = Write(name: FileName, content: bytes)

  /** Whole-file writes in order, and then log entries in order. */
  datatype Plan = Plan(writes: seq<Write>, entries: seq<Log.Entry>)

  // ---------- carrying out a plan, or part of it ----------

  function Written(files: Files, writes: seq<Write>): Files
    decreases writes
  {
    if writes == [] then files else Written(files[writes[0].name := writes[0].content], writes[1..])
  }

  function Appended(log: bytes, entries: seq<Log.Entry>): bytes
    decreases entries
  {
    if entries == [] then log else Appended(log + Log.Line(entries[0]), entries[1..])
  }

  /** The disk after the first `k` writes and the first `j` appends. */
  function Partly(disk: Disk, plan: Plan, k: nat, j: nat): Disk
    requires k <= |plan.writes| && j <= |plan.entries|
  {
    Disk(Written(disk.files, plan.writes[..k]), Appended(disk.log, plan.entries[..j]))
  }

  function Done(disk: Disk, plan: Plan): Disk {
    Disk(Written(disk.files, plan.writes), Appended(disk.log, plan.entries))
  }

  /** Where a run of the plan can stop: no entry is appended before every file
      is written. */
  predicate StopsAt(plan: Plan, k: nat, j: nat) {
    k <= |plan.writes| && j <= |plan.entries| && (j > 0 ==> k == |plan.writes|)
  }

  /** What a plan has still to do. */
  function Rest(plan: Plan, k: nat, j: nat): Plan
    requires k <= |plan.writes| && j <= |plan.entries|
  {
    Plan(plan.writes[k..], plan.entries[j..])
  }

  lemma {:induction false} WrittenConcat(files: Files, a: seq<Write>, b: seq<Write>)
    ensures Written(Written(files, a), b) == Written(files, a + b)
    decreases |a|
  {
    if a == [] {
      assert a + b == b;
    } else {
      assert (a + b)[1..] == a[1..] + b;
      WrittenConcat(files[a[0].name := a[0].content], a[1..], b);
    }
  }

  lemma {:induction false} AppendedConcat(log: bytes, a: seq<Log.Entry>, b: seq<Log.Entry>)
    ensures Appended(Appended(log, a), b) == Appended(log, a + b)
    decreases |a|
  {
    hide Log.Line;
    if a == [] {
      assert a + b == b;
    } else {
      assert (a + b)[1..] == a[1..] + b;
      AppendedConcat(log + Log.Line(a[0]), a[1..], b);
    }
  }

  /** Stopping anywhere and then doing the rest comes to doing it all. */
  lemma RestCompletes(disk: Disk, plan: Plan, k: nat, j: nat)
    requires k <= |plan.writes| && j <= |plan.entries|
    ensures Done(Partly(disk, plan, k, j), Rest(plan, k, j)) == Done(disk, plan)
  {
    WrittenConcat(disk.files, plan.writes[..k], plan.writes[k..]);
    AppendedConcat(disk.log, plan.entries[..j], plan.entries[j..]);
    assert plan.writes[..k] + plan.writes[k..] == plan.writes;
    assert plan.entries[..j] + plan.entries[j..] == plan.entries;
  }

  lemma NoneWritten(files: Files)
    ensures Written(files, []) == files
  {
  }

  lemma NoneAppended(log: bytes)
    ensures Appended(log, []) == log
  {
  }

  lemma NothingDone(disk: Disk)
    ensures Done(disk, Plan([], [])) == disk
  {
  }

  ghost predicate Distinct(writes: seq<Write>) {
    forall i, j :: 0 <= i < j < |writes| ==> writes[i].name != writes[j].name
  }

  lemma {:induction false} Unwritten(files: Files, writes: seq<Write>, name: FileName)
    requires forall w :: w in writes ==> w.name != name
    ensures name in Written(files, writes) <==> name in files
    ensures name in files ==> Written(files, writes)[name] == files[name]
    decreases |writes|
  {
    if writes != [] {
      Unwritten(files[writes[0].name := writes[0].content], writes[1..], name);
    }
  }

  lemma {:induction false} WrittenAt(files: Files, writes: seq<Write>, i: nat)
    requires Distinct(writes) && i < |writes|
    ensures writes[i].name in Written(files, writes)
    ensures Written(files, writes)[writes[i].name] == writes[i].content
    decreases |writes|
  {
    var next, rest := files[writes[0].name := writes[0].content], writes[1..];
    if i == 0 {
      Unwritten(next, rest, writes[0].name);
    } else {
      WrittenAt(next, rest, i - 1);
    }
  }

  lemma OneWritten(files: Files, w: Write)
    ensures Written(files, [w]) == files[w.name := w.content]
  {
    assert [w][1..] == [];
  }

  /** Every line of the log after appending reads as before, then the entries. */
  lemma {:induction false} AppendMany(log: bytes, entries: seq<Log.Entry>)
    requires Terminated(log) && Log.Entries(log).Ok?
    requires forall e :: e in entries ==> Log.Writable(e)
    ensures Terminated(Appended(log, entries))
    ensures Log.Entries(Appended(log, entries)) == Ok(Log.Entries(log).value + entries)
    decreases |entries|
  {
    hide Log.Entries, Log.Writable, Log.Line;
    if entries == [] {
      assert Log.Entries(log).value + entries == Log.Entries(log).value;
    } else {
      Log.AppendEntry(log, entries[0]);
      AppendMany(log + Log.Line(entries[0]), entries[1..]);
      assert Log.Entries(log).value + [entries[0]] + entries[1..] == Log.Entries(log).value + entries;
    }
  }

  lemma {:induction false} AppendedGrows(log: bytes, entries: seq<Log.Entry>)
    ensures log <= Appended(log, entries)
    decreases |entries|
  {
    hide Log.Line;
    if entries != [] {
      AppendedGrows(log + Log.Line(entries[0]), entries[1..]);
    }
  }

  // ---------- reading a deed ----------

  function CapFrame(d: Deed): bytes {
    Frames.EncodeResponse(Frames.OneDeed(d))
  }

  function EvidenceFrame(d: Deed, e: Evidence): bytes {
    Frames.EncodeResponse(Frames.Created(d, e))
  }

  /** The deed a cap file holds for the accession it is named for. */
  function CapDeed(files: Files, id: bytes): Result<Deed> {
    if Cap(id) !in files then Err(NotFound)
    else
      var r :- Frames.DecodeResponse(files[Cap(id)]);
      match r
      case OneDeed(d) => if d.id == id then Ok(d) else Err(Decode)
      case _ => Err(Decode)
  }

  /** What the store serves under an accession: nothing once it is entombed. */
  function Get(files: Files, id: bytes): Result<Deed> {
    if Tomb(id) in files then Err(Tombstoned) else CapDeed(files, id)
  }

  lemma GetIsHeld(files: Files, id: bytes)
    requires Get(files, id).Ok?
    ensures CapDeed(files, id) == Get(files, id)
  {
    hide CapDeed;
  }

  predicate Serves(files: Files, id: bytes) {
    Cap(id) in files && Tomb(id) !in files
  }

  /** The content address of a deed's canonical octets. */
  function DeedDigest(sha: Sha, d: Deed): bytes {
    Address.Of(sha, Wire.DeedBytes(d))
  }

  function DigestInStore(sha: Sha, files: Files, id: bytes): Result<bytes> {
    var d :- CapDeed(files, id);
    Ok(DeedDigest(sha, d))
  }

  function EntryFor(sha: Sha, d: Deed, time: nat): Log.Entry {
    Log.Entry(d.id, DeedDigest(sha, d), time)
  }

  /** A deed its cap file gives back: its octets are one deed, and they fit a
      frame. */
  predicate Readable(d: Deed) {
    Wire.DeedFromBytes(Wire.DeedBytes(d)) == Ok(d) && |Wire.DeedBytes(d)| + 1 < Wire.U32
  }

  lemma GoodReadable(d: Deed)
    requires WireProofs.Good(d) && |Wire.DeedBytes(d)| + 1 < Wire.U32
    ensures Readable(d)
  {
    WireProofs.DeedBytesRound(d);
  }

  lemma CapReads(d: Deed)
    requires Readable(d)
    ensures Frames.DecodeResponse(CapFrame(d)) == Ok(Frames.OneDeed(d))
  {
    hide Wire.PutDeed, Wire.TakeDeed, Frames.Wrap, Frames.Unwrap;
    var payload := Frames.ResponsePayload(Frames.OneDeed(d));
    Frames.WrapRound(payload, []);
    assert Frames.Wrap(payload) + [] == Frames.Wrap(payload);
    assert payload[0] == 10 && payload[1..] == Wire.PutDeed(d);
  }

  lemma PayloadShort(b: bytes)
    requires Frames.Unwrap(b).Ok?
    ensures |Frames.Unwrap(b).value| < Wire.U32
  {
    Wire.Widths();
    Wire.FromLittleBound(b[12..16]);
  }

  lemma FramedDeed(p: bytes)
    requires Frames.ResponseOf(p).Ok? && Frames.ResponseOf(p).value.OneDeed?
    ensures p != [] && Wire.TakeDeed(p[1..]).Ok? && Wire.TakeDeed(p[1..]).value.0 == Frames.ResponseOf(p).value.deed
  {
    hide Wire.TakeDeed, Wire.TakeList, Wire.TakeStr, Wire.TakeEvidence;
  }

  /** A deed out of a cap file is well formed: a frame holds too little for a
      message identifier in it to outgrow its prefix. */
  lemma CapGood(files: Files, id: bytes)
    requires CapDeed(files, id).Ok?
    ensures var d := CapDeed(files, id).value;
            d.id == id && WireProofs.Good(d) && Wire.DeedFromBytes(Wire.DeedBytes(d)) == Ok(d)
  {
    hide Wire.TakeDeed, WireProofs.Good, Wire.PutDeed, Wire.DeedFromBytes, Wire.DeedBytes, Frames.Unwrap;
    var b := files[Cap(id)];
    PayloadShort(b);
    var p := Frames.Unwrap(b).value;
    FramedDeed(p);
    Decoded.FewOctetsFit(p[1..]);
    WireProofs.DeedBytesRound(CapDeed(files, id).value);
  }

  /** A cap file over any deed that fits gives the settled deed back: the same
      accession, the same octets. */
  lemma CapEchoes(d: Deed)
    requires Fits(d)
    ensures Frames.DecodeResponse(CapFrame(d)) == Ok(Frames.OneDeed(Settled(d)))
    ensures Settled(d).id == d.id && Wire.DeedBytes(Settled(d)) == Wire.DeedBytes(d) && IsId(d.id)
  {
    hide Frames.DecodeResponse, Wire.PutDeed, Wire.DeedFromBytes, Frames.Wrap, WireProofs.Good, IsId, IsUtf8;
    SettledBytes(d);
    FitsGood(d);
    GoodReadable(Settled(d));
    CapReads(Settled(d));
  }

  lemma IdParses(raw: bytes)
    ensures ParseId(raw).Ok? ==> IsId(ParseId(raw).value)
  {
  }

  lemma EntryWritable(sha: Sha, d: Deed, time: nat)
    requires IsId(d.id) && time < U64
    ensures Log.Writable(EntryFor(sha, d, time))
  {
    hide IsId, Address.Of, Address.HexOf;
    IdIsPlain(d.id);
    Address.OfIsAddress(sha, Wire.DeedBytes(d));
    Address.AddressPlain(DeedDigest(sha, d));
  }

  // ---------- what every run keeps of the log ----------

  /** The entry is of the deed held under its accession, entombed or not. */
  ghost predicate Held(sha: Sha, files: Files, e: Log.Entry) {
    && IsId(e.id)
    && CapDeed(files, e.id).Ok?
    && e.digest == DeedDigest(sha, CapDeed(files, e.id).value)
  }

  ghost predicate Once(entries: seq<Log.Entry>) {
    forall i, j :: 0 <= i < j < |entries| ==> entries[i].id != entries[j].id
  }

  ghost predicate AllHeld(sha: Sha, files: Files, entries: seq<Log.Entry>) {
    forall e :: e in entries ==> Held(sha, files, e)
  }

  /** The log reads, names no accession twice, and every entry's digest is that
      of the deed held under it. */
  ghost predicate Sound(sha: Sha, disk: Disk) {
    && Terminated(disk.log)
    && Log.Entries(disk.log).Ok?
    && Once(Log.Entries(disk.log).value)
    && AllHeld(sha, disk.files, Log.Entries(disk.log).value)
  }

  /** A plan that writes no cap file over another, and logs only accessions the
      log does not name, each once, each for the deed it leaves there. */
  ghost predicate SoundPlan(sha: Sha, disk: Disk, plan: Plan) {
    && (forall w :: w in plan.writes && w.name.Cap? ==> w.name !in disk.files)
    && Once(plan.entries)
    && (forall e :: e in plan.entries ==> Log.Writable(e))
    && (Log.Entries(disk.log).Ok? ==>
          forall e, f :: e in plan.entries && f in Log.Entries(disk.log).value ==> e.id != f.id)
    && AllHeld(sha, Done(disk, plan).files, plan.entries)
  }

  lemma CapsStay(files: Files, writes: seq<Write>, id: bytes)
    requires forall w :: w in writes && w.name.Cap? ==> w.name !in files
    requires CapDeed(files, id).Ok?
    ensures CapDeed(Written(files, writes), id) == CapDeed(files, id)
  {
    Unwritten(files, writes, Cap(id));
  }

  /** Wherever a sound plan stops, a sound store is left, and its log is the
      old one, grown. */
  lemma SoundKept(sha: Sha, disk: Disk, plan: Plan, k: nat, j: nat)
    requires Sound(sha, disk) && SoundPlan(sha, disk, plan) && StopsAt(plan, k, j)
    ensures var after := Partly(disk, plan, k, j);
            && Sound(sha, after)
            && disk.log <= after.log
            && Log.Entries(after.log).value == Log.Entries(disk.log).value + plan.entries[..j]
  {
    hide Log.Entries, Log.Writable, CapDeed, IsId, DeedDigest, Appended, Written;
    var held, more := Log.Entries(disk.log).value, plan.entries[..j];
    var files := Written(disk.files, plan.writes[..k]);
    AppendMany(disk.log, more);
    AppendedGrows(disk.log, more);
    forall e | e in held + more
      ensures Held(sha, files, e)
    {
      if e in held {
        assert Held(sha, disk.files, e);
        CapsStay(disk.files, plan.writes[..k], e.id);
      } else {
        assert plan.writes[..k] == plan.writes;
        assert e in plan.entries;
      }
    }
    OnceConcat(held, more);
  }

  lemma OnceConcat(a: seq<Log.Entry>, b: seq<Log.Entry>)
    requires Once(a) && Once(b)
    requires forall e, f :: e in b && f in a ==> e.id != f.id
    ensures Once(a + b)
  {
    var c := a + b;
    forall i, j | 0 <= i < j < |c|
      ensures c[i].id != c[j].id
    {
      if i < |a| <= j {
        assert c[i] in a && c[j] in b;
      }
    }
  }
}
