/** The import that breaks a log: it takes a deed held here for the one it
    carries because their paths are the same, though spelled otherwise. */
module Spelling {
  import opened Prelude
  import opened Text
  import opened Carrying
  import opened Deeds
  import opened Graph
  import opened Order
  import opened Paths
  import opened Planning
  import opened Sidecars
  import opened Store
  import Address
  import Audit
  import Current
  import Fitting
  import Frames
  import Ingest
  import Issuing
  import Log
  import Minting
  import Planned
  import Receipt
  import Trail
  import Wire
  import WireProofs

  // ---------- two deeds that compare as one ----------

  /** An event whose maker was granted a directory, spelled as given. */
  function Granted(path: bytes): Deed {
    Deed(Ascii("deed-event-a"), Event, Ascii("a"), [], [], ProducedBy(Ascii("a"), None), [GrantPath(path)], Document,
         EventBody(Ascii("a"), Ascii("a"), Ascii("a")))
  }

  function WithSlash(): Deed {
    Granted(Ascii("/w/"))
  }

  function Without(): Deed {
    Granted(Ascii("/w"))
  }

  lemma PlainText(s: string)
    requires |s| < 100 && forall i :: 0 <= i < |s| ==> ' ' <= s[i] <= '~'
    ensures Wire.Short(Ascii(s))
  {
    Utf8Ascii(Ascii(s));
  }

  lemma EventId()
    ensures IsId(Ascii("deed-event-a"))
  {
    hide SplitOnce;
    var id, kind, slug := Ascii("deed-event-a"), Token(Event), [97];
    assert id == Ascii("deed-") + (kind + [45] + slug);
    SplitOnceAt(kind, 45, slug);
    assert IsKind(kind);
  }

  /** Whatever short path was granted, the deed is one a cap gives back. */
  lemma GrantedReads(path: bytes)
    requires Wire.Short(path) && |path| < 100
    ensures Readable(Granted(path))
  {
    hide Ascii, Wire.Short, IsId, IsUtf8;
    EventId();
    PlainText("deed-event-a");
    PlainText("a");
    GrantedShort(path);
    GoodReadable(Granted(path));
  }

  lemma GrantedShort(path: bytes)
    requires |path| < 100
    ensures |Wire.DeedBytes(Granted(path))| < 1000
  {
    hide Ascii;
    var d := Granted(path);
    assert d.grants[1..] == [];
    assert |Wire.PutMany(Wire.PutGrant, d.grants)| == |Wire.PutGrant(d.grants[0])|;
    assert |Wire.PutGrant(d.grants[0])| == 5 + |path|;
    assert |Wire.PutList(Wire.PutStr, d.paths)| == 4 && |Wire.PutList(Wire.PutSource, d.sources)| == 4;
  }

  /** The program compares the two as one deed, and they are two. */
  lemma OneDeedTwice()
    ensures SameDeed(WithSlash(), Without()) && WithSlash() != Without()
    ensures Readable(WithSlash()) && Readable(Without())
  {
    hide Parse, Readable;
    var p := Ascii("/w");
    assert p == [47, 119] && Ascii("/w/") == [47, 119, 47] == p + [SLASH] + [];
    MoreSpellings(p, []);
    PlainText("/w");
    PlainText("/w/");
    GrantedReads(p);
    GrantedReads(Ascii("/w/"));
  }

  // ---------- what a stopped create leaves ----------

  /** A store that holds one cap and nothing else. */
  function CapAlone(held: Deed): Disk {
    Disk(map[Cap(held.id) := CapFrame(held)], [])
  }

  /** A create of a deed without files, stopped after its first write. */
  lemma StoppedAtCap(keys: Issuing.Keys, ask: Minting.Ask, held: Deed)
    requires ask.req.supersedes == None && ask.req.body.EventBody? && ask.make(ask.req.body) == Ok(held)
    ensures var plan := Minting.Attempt(keys, map[], ask).plan;
            |plan.writes| >= 1 && Partly(Disk(map[], []), plan, 1, 0) == CapAlone(held)
  {
    hide CapFrame, EvidenceFrame, Issuing.EvidenceAt, Issuing.HostWrites, EntryFor, SameDeed;
    var c := Issuing.Create(keys, map[], ask.req, Ok(held), ask.time).value;
    assert Ingest.IngestBody(keys.sha, ask.read, map[], ask.req.body) == ([], Ok(ask.req.body));
    NoneWritten(map[]);
    var plan := Minting.Attempt(keys, map[], ask).plan;
    assert [] + c.plan.writes == c.plan.writes;
    assert plan.writes[0] == Write(Cap(held.id), CapFrame(held));
    assert plan.writes[..1] == [plan.writes[0]] && plan.entries[..0] == [];
    OneWritten(map[], plan.writes[0]);
  }

  // ---------- the import ----------

  /** A carried deed with no files, no links and no sources. */
  ghost predicate Bare(sha: Sha, c: Carried) {
    && c.deed.paths == [] && DeedSources(c.deed) == [] && c.host == None && c.supersedes == None && c.successor == None
    && c.receipt.id == c.deed.id && c.receipt.digest == DeedDigest(sha, c.deed) && c.receipt.time < U64
  }

  function AfterCap(keys: Issuing.Keys, c: Carried): Staged {
    Staged(
      [Write(Evid(c.deed.id), EvidenceFrame(c.deed, Issuing.EvidenceAt(keys, c.deed, c.receipt.time))),
       Write(Proof(c.deed.id), c.proof)],
      [EntryFor(keys.sha, c.deed, c.receipt.time)], 0)
  }

  lemma NoneBound(held: Deed)
    ensures forall id :: DigestKept(CapAlone(held).files, id) == Ok(None)
  {
    hide CapFrame;
    var disk := CapAlone(held).files;
    Current.StemsHere(disk);
    assert Current.SupersedesStems(disk) == {};
    NothingInOrder();
  }

  lemma NothingInOrder()
    ensures InOrder({}) == []
  {
    InOrderElements({});
    if InOrder({}) != [] {
      HasMember(InOrder({}));
      assert false;
    }
  }

  lemma HeldReads(held: Deed)
    requires Readable(held)
    ensures Get(CapAlone(held).files, held.id) == Ok(held)
  {
    hide CapFrame, Frames.DecodeResponse, Readable;
    CapReads(held);
  }

  /** Over that store, the import of the other spelling is planned. */
  lemma DeedPlanned(keys: Issuing.Keys, held: Deed, c: Carried)
    requires Readable(held) && SameDeed(held, c.deed) && Bare(keys.sha, c)
    requires keys.attests(Wire.DeedBytes(c.deed), c.receipt.time, None).Ok?
    ensures PlanDeed(keys, CapAlone(held).files, map[], Whole([c], map[], None), c, Staged([], [], 0))
            == Ok(AfterCap(keys, c))
  {
    hide Get, CapFrame, EvidenceFrame, Issuing.EvidenceAt, DigestKept, Wire.PutDeed, EntryFor, SameDeed, Readable;
    hide DeedDigest, DeedSources;
    HeldReads(held);
    NoneBound(held);
    SameIds(held, c.deed);
    var disk, all := CapAlone(held).files, AfterCap(keys, c);
    var p := Staged([], [], 0);
    assert [] + all.log == all.log;
    assert PlanCap(disk, c, p) == Ok(p);
    assert PlanEntry(keys.sha, map[], c, p) == Ok(p.(log := all.log));
    PutNew(disk, Staged([], all.log, 0), all.files[0]);
    PutNew(disk, Staged([all.files[0]], all.log, 0), all.files[1]);
    assert [] + [all.files[0]] == [all.files[0]] && [all.files[0]] + [all.files[1]] == all.files;
  }

  lemma PutNew(disk: Files, p: Staged, w: Write)
    requires w.name !in disk && forall x :: x in p.files ==> x.name != w.name
    ensures Put(disk, p, w.name, w.content) == Ok(p.(files := p.files + [w]))
  {
    Planned.FindFails(p.files, w.name);
  }

  lemma SameIds(a: Deed, b: Deed)
    ensures SameDeed(a, b) ==> a.id == b.id
  {
  }

  lemma NoLinksPlanned(keys: Issuing.Keys, disk: Files, c: Carried, p: Staged)
    requires Bare(keys.sha, c)
    ensures PlanLinks(keys.sha, disk, CarriedById([c]), [c], p) == Ok(p)
  {
    hide DeedDigest, DeedSources, CarriedById;
    assert [c][1..] == [] && TiesOf(c) == [];
    var none := Ties(map[], map[]);
    assert CheckLinks(keys.sha, disk, CarriedById([c]), c) == Ok(());
    assert AddTies(none, []) == Ok(none);
    assert CollectTies(keys.sha, disk, CarriedById([c]), [], none) == Ok(none);
    NothingInOrder();
    assert none.byOld.Keys == {};
    assert TiesInOrder(none.byOld) == [];
  }

  lemma OnlyItself(keys: Issuing.Keys, disk: Files, c: Carried)
    requires Bare(keys.sha, c)
    ensures TrailsPass(keys, disk, CarriedById([c]), [c])
  {
    hide DeedDigest, DeedSources, CarriedById, FoundSource, Issuing.EvidenceLocal;
    var next := Trail.Sources(c.deed, SourceOf(keys.sha, disk, CarriedById([c]), c));
    assert Closed(next, {c.deed.id});
    forall id | Reaches(next, c.deed.id, id)
      ensures id == c.deed.id
    {
      ClosedHoldsReached(next, {c.deed.id}, c.deed.id, id);
    }
  }

  lemma ImportPlanned(keys: Issuing.Keys, held: Deed, c: Carried)
    requires Readable(held) && SameDeed(held, c.deed) && Bare(keys.sha, c)
    requires keys.attests(Wire.DeedBytes(c.deed), c.receipt.time, None).Ok?
    ensures Plans(keys, CapAlone(held), Whole([c], map[], None), AfterCap(keys, c))
  {
    hide PlanDeed, PlanLinks, TrailsPass, Readable, SameDeed, Bare, CarriedById;
    DeedPlanned(keys, held, c);
    NoLinksPlanned(keys, CapAlone(held).files, c, AfterCap(keys, c));
    OnlyItself(keys, CapAlone(held).files, c);
    Log.EmptyFile();
    assert LoggedById([], map[]) == Ok(map[]);
    OneDeedPlanned(keys, CapAlone(held).files, c, AfterCap(keys, c));
  }

  lemma OneDeedPlanned(keys: Issuing.Keys, disk: Files, c: Carried, p: Staged)
    requires PlanDeed(keys, disk, map[], Whole([c], map[], None), c, Staged([], [], 0)) == Ok(p)
    ensures PlanDeeds(keys, disk, map[], Whole([c], map[], None), [c], Staged([], [], 0)) == Ok(p)
  {
    hide PlanDeed;
    assert [c][1..] == [];
    assert PlanDeeds(keys, disk, map[], Whole([c], map[], None), [], p) == Ok(p);
  }

  // ---------- the log it leaves ----------

  lemma OneEntry(e: Log.Entry)
    requires Log.Writable(e)
    ensures Log.Entries(Appended([], [e])) == Ok([e])
  {
    hide Log.Entries, Log.Writable, Log.Line;
    Log.EmptyFile();
    AppendMany([], [e]);
    assert [] + [e] == [e];
  }

  lemma StillHeld(keys: Issuing.Keys, held: Deed, c: Carried)
    requires Readable(held) && held.id == c.deed.id
    ensures Get(Done(CapAlone(held), PlanOf(AfterCap(keys, c))).files, held.id) == Ok(held)
  {
    hide CapFrame, EvidenceFrame, Frames.DecodeResponse, Readable, Written, Issuing.EvidenceAt, EntryFor;
    var disk, writes := CapAlone(held).files, AfterCap(keys, c).files;
    HeldReads(held);
    Unwritten(disk, writes, Cap(held.id));
    Unwritten(disk, writes, Tomb(held.id));
  }

  /** The audit of what it leaves reports a deed no one deleted: the log names it
      under the digest of the other spelling. */
  lemma AuditReports(keys: Issuing.Keys, held: Deed, c: Carried)
    requires Readable(held) && Readable(c.deed) && held.id == c.deed.id && held != c.deed && IsId(held.id)
    requires Bare(keys.sha, c) && CollisionFree(keys.sha, {Wire.DeedBytes(held), Wire.DeedBytes(c.deed)})
    ensures var after := Done(CapAlone(held), PlanOf(AfterCap(keys, c)));
            && Tomb(held.id) !in after.files && Audit.AuditOf(keys.sha, after).Ok?
            && Audit.AuditOf(keys.sha, after).value.missing
               == [Audit.Missing(held.id, Audit.ServesAs(DeedDigest(keys.sha, held)))]
            && !Sound(keys.sha, after)
  {
    hide CapFrame, EvidenceFrame, Frames.DecodeResponse, Written, Appended, Issuing.EvidenceAt, Log.Entries, IsId;
    hide Wire.DeedBytes, Wire.DeedFromBytes, Address.Of, Get, CapDeed, Audit.ShelfOf, Audit.UnloggedOf, Audit.Without;
    hide DeedSources, Log.Writable;
    var after, e := Done(CapAlone(held), PlanOf(AfterCap(keys, c))), EntryFor(keys.sha, c.deed, c.receipt.time);
    StillHeld(keys, held, c);
    EntryWritable(keys.sha, c.deed, c.receipt.time);
    OneEntry(e);
    Audit.ParsedIsId(held.id);
    Audit.GetNames(after.files, held.id);
    GetIsHeld(after.files, held.id);
    DigestsDiffer(keys.sha, held, c.deed);
    assert [e][1..] == [];
    assert Audit.MissingOf(keys.sha, after.files, [e])
           == [Audit.Missing(held.id, Audit.ServesAs(DeedDigest(keys.sha, held)))];
    assert e in [e];
    if Sound(keys.sha, after) {
      assert false;
    }
  }

  lemma DigestsDiffer(sha: Sha, a: Deed, b: Deed)
    requires Readable(a) && Readable(b) && a != b && CollisionFree(sha, {Wire.DeedBytes(a), Wire.DeedBytes(b)})
    ensures DeedDigest(sha, a) != DeedDigest(sha, b)
  {
    hide Wire.DeedBytes, Wire.DeedFromBytes, Address.Of;
    if DeedDigest(sha, a) == DeedDigest(sha, b) {
      Address.OfInjective(sha, Wire.DeedBytes(a), Wire.DeedBytes(b));
      assert false;
    }
  }

  /** There is a deed whose create, stopped at its cap, and then an import of it
      under another spelling, leave a store whose audit is false. */
  lemma SpellingBreaksTheLog(keys: Issuing.Keys, ask: Minting.Ask, c: Carried)
    requires ask.req.supersedes == None && ask.req.body.EventBody? && ask.make(ask.req.body) == Ok(WithSlash())
    requires c.deed == Without() && Bare(keys.sha, c)
    requires keys.attests(Wire.DeedBytes(c.deed), c.receipt.time, None).Ok?
    requires CollisionFree(keys.sha, {Wire.DeedBytes(WithSlash()), Wire.DeedBytes(Without())})
    ensures var plan := Minting.Attempt(keys, map[], ask).plan;
            |plan.writes| >= 1 && Partly(Disk(map[], []), plan, 1, 0) == CapAlone(WithSlash())
    ensures Plans(keys, CapAlone(WithSlash()), Whole([c], map[], None), AfterCap(keys, c))
    ensures var after := Done(CapAlone(WithSlash()), PlanOf(AfterCap(keys, c)));
            && !Sound(keys.sha, after) && Audit.AuditOf(keys.sha, after).Ok?
            && Audit.AuditOf(keys.sha, after).value.missing
               == [Audit.Missing(c.deed.id, Audit.ServesAs(DeedDigest(keys.sha, WithSlash())))]
  {
    hide SameDeed, Readable, Bare, Plans, Minting.Attempt, Sound, Audit.AuditOf, CollisionFree, IsId, CapAlone;
    hide AfterCap, Wire.DeedBytes;
    OneDeedTwice();
    EventId();
    StoppedAtCap(keys, ask, WithSlash());
    ImportPlanned(keys, WithSlash(), c);
    AuditReports(keys, WithSlash(), c);
  }

  /** Such a record is carried by some bag's reading. */
  lemma SomeCarriesIt(sha: Sha, proof: bytes, r: Receipt.Receipt)
    requires r.id == Without().id && r.digest == DeedDigest(sha, Without()) && r.time < U64
    ensures Bare(sha, Carried(Without(), r, proof, None, None, None, map[]))
  {
    hide DeedDigest, Ascii;
    assert Without().sources == [];
  }
}
