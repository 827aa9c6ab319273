/** The store object: its files and its log change write by write, and each
    operation leaves what its plan says. */
module FsStore {
  import opened Prelude
  import opened Text
  import opened Bag
  import opened Carrying
  import opened Deeds
  import opened Importing
  import opened Issuing
  import opened Order
  import opened Paths
  import opened Planning
  import opened Sidecars
  import opened Store
  import Address
  import Audit
  import Delivered
  import Exported
  import Exports
  import Frames
  import Handover
  import Ingest
  import Log
  import Minting
  import Planned
  import Plans
  import Received
  import Resuming
  import SignedHead
  import Wire

  // ---------- one write, one entry ----------

  lemma OneMoreWritten(files: Files, writes: seq<Write>, n: nat)
    requires n < |writes|
    ensures Written(files, writes[..n + 1]) == Written(files, writes[..n])[writes[n].name := writes[n].content]
  {
    hide Written;
    assert writes[..n + 1] == writes[..n] + [writes[n]];
    WrittenConcat(files, writes[..n], [writes[n]]);
    OneWritten(Written(files, writes[..n]), writes[n]);
  }

  lemma OneMoreAppended(log: bytes, entries: seq<Log.Entry>, n: nat)
    requires n < |entries|
    ensures Appended(log, entries[..n + 1]) == Appended(log, entries[..n]) + Log.Line(entries[n])
  {
    hide Log.Line;
    assert entries[..n + 1] == entries[..n] + [entries[n]];
    AppendedConcat(log, entries[..n], [entries[n]]);
    OneAppended(Appended(log, entries[..n]), entries[n]);
  }

  lemma OneAppended(log: bytes, e: Log.Entry)
    ensures Appended(log, [e]) == log + Log.Line(e)
  {
    assert [e][1..] == [];
  }

  class FsStore {
    const keys: Keys
    const verify: SignedHead.Verify
    const signers: set<Digest>
    var files: Files
    var log: bytes

    ghost function Disk(): Store.Disk
      reads this
    {
      Store.Disk(files, log)
    }

    constructor (keys: Keys, verify: SignedHead.Verify, signers: set<Digest>, disk: Store.Disk)
      ensures this.keys == keys && this.verify == verify && this.signers == signers && Disk() == disk
    {
      this.keys, this.verify, this.signers := keys, verify, signers;
      files, log := disk.files, disk.log;
    }

    method AtomicWrite(name: FileName, content: bytes)
      modifies this`files
      ensures files == old(files)[name := content]
    {
      files := files[name := content];
    }

    method AppendLog(d: Deed, time: nat)
      modifies this`log
      ensures log == old(log) + Log.Line(EntryFor(keys.sha, d, time))
    {
      log := log + Log.Line(EntryFor(keys.sha, d, time));
    }

    // ---------- ingesting a body ----------

    /** Copy a body's local files in and rewrite its paths. A refusal leaves what
        was copied before it, and nothing else. */
    method IngestInto(read: Ingest.Reads, b: Body) returns (r: Result<Body>)
      modifies this`files
      ensures var (writes, body) := Ingest.IngestBody(keys.sha, read, old(files), b);
              r == body && files == Written(old(files), writes)
      ensures Ingest.OnlyShelved(keys.sha, old(files), files)
    {
      hide Ingest.BodyPaths, Ingest.RewritePath, Address.Of, Address.HexOf, Ascii, Ingest.HexOfBytes, Written;
      hide Ingest.OnlyShelved, Ingest.Shelving, Ingest.WithPaths;
      var originals, body := Ingest.BodyPaths(b), b;
      ghost var start, done: seq<Write> := files, [];
      NoneWritten(start);
      ghost var whole := Ingest.IngestPaths(keys.sha, read, start, b, originals);
      assert [] + whole.0 == whole.0;
      Ingest.IngestShelves(keys.sha, read, start, b, originals);
      Ingest.ShelvingOnly(keys.sha, start, whole.0);
      for n := 0 to |originals|
        invariant files == Written(start, done)
        invariant var (more, out) := Ingest.IngestPaths(keys.sha, read, files, body, originals[n..]);
                  whole == (done + more, out)
      {
        assert originals[n..][0] == originals[n] && originals[n..][1..] == originals[n + 1..];
        assert done + [] == done;
        var p := originals[n];
        if p != [] {
          if StartsWith(p, Ascii("sha256:")) {
            if Address.HexOf(p).None? {
              return Err(InvalidBody);
            }
          } else {
            var content := read(p);
            if content.None? {
              return Err(Io);
            }
            var name := Product(Ingest.HexOfBytes(keys.sha, content.value));
            ghost var one := Ingest.ShelfWrites(keys.sha, files, content.value);
            WrittenConcat(start, done, one);
            NoneWritten(files);
            if name !in files {
              OneWritten(files, Write(name, content.value));
              AtomicWrite(name, content.value);
            }
            JoinWrites(done, one, Ingest.IngestPaths(keys.sha, read, files,
                Ingest.RewritePath(body, p, Address.Of(keys.sha, content.value)), originals[n + 1..]).0);
            done := done + one;
            body := Ingest.RewriteBody(body, p, Address.Of(keys.sha, content.value));
          }
        }
      }
      assert done + [] == done;
      return Ok(body);
    }

    static lemma JoinWrites(a: seq<Write>, b: seq<Write>, c: seq<Write>)
      ensures a + (b + c) == (a + b) + c
    {
    }

    // ---------- create and delete ----------

    /** The link files of a create. Its checks repeat those made before. */
    method RecordSupersedes(id: bytes, prior: bytes) returns (r: Result<()>)
      modifies this`files
      ensures id != prior && Cap(prior) in old(files) && Successor(prior) !in old(files) ==>
                r.Ok? && files == Written(old(files), LinkWrites(id, Some(prior)))
    {
      if id == prior {
        return Err(InvalidBody);
      }
      if Cap(prior) !in files {
        return Err(NotFound);
      }
      if Successor(prior) in files {
        return Err(Frozen);
      }
      TwoWritten(files, Write(Supersedes(id), NameLine(prior)), Write(Successor(prior), NameLine(id)));
      AtomicWrite(Supersedes(id), NameLine(prior));
      AtomicWrite(Successor(prior), NameLine(id));
      return Ok(());
    }

    static lemma TwoWritten(files: Files, a: Write, b: Write)
      ensures Written(files, [a, b]) == files[a.name := a.content][b.name := b.content]
    {
      assert [a, b][1..] == [b];
      OneWritten(files[a.name := a.content], b);
    }

    /** The writes of a create come to those of its plan, in order. */
    static lemma CreateInOrder(keys: Keys, files: Files, d: Deed, e: Evidence, supersedes: Option<bytes>)
      ensures Written(files, CreateWrites(keys, d, e, supersedes))
              == Written(Written(files[Cap(d.id) := CapFrame(d)][Evid(d.id) := EvidenceFrame(d, e)],
                  HostWrites(keys, d, e.time)),
                         LinkWrites(d.id, supersedes))
    {
      hide CapFrame, EvidenceFrame, HostWrites, LinkWrites, Written;
      var a, b := Write(Cap(d.id), CapFrame(d)), Write(Evid(d.id), EvidenceFrame(d, e));
      WrittenConcat(files, [a, b] + HostWrites(keys, d, e.time), LinkWrites(d.id, supersedes));
      WrittenConcat(files, [a, b], HostWrites(keys, d, e.time));
      TwoWritten(files, a, b);
    }

    /** The prior a create supersedes is untouched by the deed's own files. */
    static lemma PriorUntouched(keys: Keys, files: Files, d: Deed, e: Evidence, prior: bytes)
      requires Cap(prior) in files && Successor(prior) !in files
      ensures var now := Written(files[Cap(d.id) := CapFrame(d)][Evid(d.id) := EvidenceFrame(d, e)],
                HostWrites(keys, d, e.time));
              Cap(prior) in now && Successor(prior) !in now
    {
      hide CapFrame, EvidenceFrame, Written;
      var mid := files[Cap(d.id) := CapFrame(d)][Evid(d.id) := EvidenceFrame(d, e)];
      Unwritten(mid, HostWrites(keys, d, e.time), Cap(prior));
      Unwritten(mid, HostWrites(keys, d, e.time), Successor(prior));
    }

    /** Freeze the deed a draft was assembled into, over the filled shelf. */
    method Freeze(req: Frames.CreateRequest, d: Deed, time: nat) returns (r: Result<(Deed, Evidence)>)
      requires Minting.FirstChecks(files, req).Ok?
      modifies this
      ensures match Issuing.Create(keys, old(files), req, Ok(d), time)
              case Ok(c) => r == Ok((c.deed, c.evidence)) && Disk() == Done(old(Disk()), c.plan)
              case Err(e) => r == Err(e) && Disk() == old(Disk())
    {
      hide Get, SameDeed, LoadEvidence, EvidenceAt, EntryFor, Log.Line, CapFrame, EvidenceFrame, CreateWrites, NameLine;
      hide Appended, Written;
      NothingDone(Disk());
      if Cap(d.id) in files && req.supersedes.None? && ServedSame(files, d) {
        var e := LoadEvidence(files, d.id);
        if e.Err? {
          return Err(e.error);
        }
        return Ok((Get(files, d.id).value, e.value));
      }
      if Cap(d.id) in files || Tomb(d.id) in files {
        return Err(Frozen);
      }
      var e := EvidenceAt(keys, d, time);
      ghost var start := files;
      EvidenceTime(keys, d, time);
      CreateInOrder(keys, start, d, e, req.supersedes);
      if req.supersedes.Some? {
        PriorUntouched(keys, start, d, e, req.supersedes.value);
      }
      AtomicWrite(Cap(d.id), CapFrame(d));
      AtomicWrite(Evid(d.id), EvidenceFrame(d, e));
      WriteHost(d, time);
      if req.supersedes.Some? {
        var linked := RecordSupersedes(d.id, req.supersedes.value);
        assert linked.Ok?;
      } else {
        NoneWritten(files);
      }
      OneAppended(log, EntryFor(keys.sha, d, time));
      AppendLog(d, time);
      return Ok((d, e));
    }

    static lemma EvidenceTime(keys: Keys, d: Deed, time: nat)
      ensures EvidenceAt(keys, d, time).time == time
    {
    }

    method WriteHost(d: Deed, time: nat)
      modifies this`files
      ensures files == Written(old(files), HostWrites(keys, d, time))
    {
      var sidecar := keys.host(Wire.DeedBytes(d), time);
      if sidecar.Some? {
        OneWritten(files, Write(Host(d.id), sidecar.value));
        AtomicWrite(Host(d.id), sidecar.value);
      }
    }

    /** Freeze one deed: the first checks, the body's files taken in, the draft
        assembled, and then the deed and its log entry. A refusal logs nothing
        and leaves at most product bytes. */
    method Create(ask: Minting.Ask) returns (r: Result<(Deed, Evidence)>)
      modifies this
      ensures var outcome := Minting.Attempt(keys, old(files), ask);
              r == outcome.answer && Disk() == Done(old(Disk()), outcome.plan)
      ensures r.Err? ==> log == old(log) && Ingest.OnlyShelved(keys.sha, old(files), files)
    {
      hide Issuing.Create, Ingest.IngestBody, Ingest.OnlyShelved, Ingest.Shelving, Written, Appended;
      ghost var start := files;
      if Minting.Attempt(keys, start, ask).answer.Err? {
        Minting.RefusedOnlyShelves(keys, start, ask);
      }
      NoneWritten(files);
      NoneAppended(log);
      var req := ask.req;
      if req.id.Some? && Tomb(req.id.value) in files {
        return Err(Frozen);
      }
      var prior := Issuing.CheckPrior(files, req);
      if prior.Err? {
        return Err(prior.error);
      }
      Minting.ShelfSame(keys, start, ask, 0);
      Minting.SameChecks(start, Written(start, Minting.Shelf(keys, start, ask)), req);
      var body := IngestInto(ask.read, req.body);
      if body.Err? {
        return Err(body.error);
      }
      var made := ask.make(body.value);
      if made.Err? {
        Minting.MadeErr(keys, files, req, made, ask.time);
        return Err(made.error);
      }
      ghost var shelf := Minting.Shelf(keys, start, ask);
      ghost var frozen := Issuing.Create(keys, files, req, made, ask.time);
      if frozen.Ok? {
        WrittenConcat(start, shelf, frozen.value.plan.writes);
      }
      r := Freeze(req, made.value, ask.time);
    }

    method Delete(id: bytes) returns (r: Result<()>)
      modifies this`files
      ensures match Issuing.Delete(old(files), id)
              case Ok(plan) => r == Ok(()) && Disk() == Done(old(Disk()), plan)
              case Err(e) => r == Err(e) && Disk() == old(Disk())
    {
      if Tomb(id) in files {
        return Err(Tombstoned);
      }
      if Cap(id) !in files {
        return Err(NotFound);
      }
      OneWritten(files, Write(Tomb(id), Ascii("tomb")));
      AtomicWrite(Tomb(id), Ascii("tomb"));
      return Ok(());
    }

    // ---------- the log against the shelf ----------

    method ReadShelf() returns (shelf: Audit.Shelf)
      ensures shelf == Audit.ShelfOf(files)
    {
      hide Get, ParseId, InOrder;
      var stems := InOrder(Audit.CapStems(files));
      var served: seq<Deed>, unreadable: seq<bytes> := [], [];
      for n := 0 to |stems|
        invariant Audit.ReadDeeds(files, stems).served == served + Audit.ReadDeeds(files, stems[n..]).served
        invariant Audit.ReadDeeds(files, stems).unreadable == unreadable + Audit.ReadDeeds(files, stems[n..]).unreadable
      {
        assert stems[n..][0] == stems[n] && stems[n..][1..] == stems[n + 1..];
        if ParseId(stems[n]).Ok? && Tomb(stems[n]) !in files {
          match Get(files, stems[n]) {
            case Ok(d) => served := served + [d];
            case Err(_) => unreadable := unreadable + [stems[n]];
          }
        }
      }
      assert served + [] == served && unreadable + [] == unreadable;
      return Audit.Shelf(served, unreadable);
    }

    method LogAudit() returns (r: Result<Audit.Found>)
      ensures r == Audit.AuditOf(keys.sha, Disk())
    {
      hide Log.Entries, Audit.MissingOf, Audit.ShelfOf, Audit.UnloggedOf, Audit.LoggedIds;
      var read := Log.Entries(log);
      if read.Err? {
        return Err(read.error);
      }
      var logged := ReadIds(read.value);
      var shelf := ReadShelf();
      var unlogged := LeftOut(logged, shelf.served);
      var missing := ReadMissing(read.value);
      return Ok(Audit.Found(|logged|, missing, unlogged, Audit.Without(logged, shelf.unreadable)));
    }

    static method ReadIds(entries: seq<Log.Entry>) returns (logged: set<bytes>)
      ensures logged == Audit.LoggedIds(entries)
    {
      logged := {};
      for n := 0 to |entries|
        invariant logged == Audit.LoggedIds(entries[..n])
      {
        assert entries[..n + 1] == entries[..n] + [entries[n]];
        MoreLogged(entries[..n], entries[n]);
        logged := logged + {entries[n].id};
      }
      assert entries[..|entries|] == entries;
    }

    static method LeftOut(logged: set<bytes>, served: seq<Deed>) returns (unlogged: seq<bytes>)
      ensures unlogged == Audit.UnloggedOf(logged, served)
    {
      unlogged := [];
      for n := 0 to |served|
        invariant Audit.UnloggedOf(logged, served) == unlogged + Audit.UnloggedOf(logged, served[n..])
      {
        assert served[n..][0] == served[n] && served[n..][1..] == served[n + 1..];
        if served[n].id !in logged {
          unlogged := unlogged + [served[n].id];
        }
      }
      assert unlogged + [] == unlogged;
    }

    method ReadMissing(entries: seq<Log.Entry>) returns (missing: seq<Audit.Missing>)
      ensures missing == Audit.MissingOf(keys.sha, files, entries)
    {
      hide Audit.MissingFor;
      missing := [];
      for n := 0 to |entries|
        invariant Audit.MissingOf(keys.sha, files, entries) == missing + Audit.MissingOf(keys.sha, files, entries[n..])
      {
        assert entries[n..][0] == entries[n] && entries[n..][1..] == entries[n + 1..];
        match Audit.MissingFor(keys.sha, files, entries[n]) {
          case None =>
          case Some(m) => missing := missing + [m];
        }
      }
      assert missing + [] == missing;
    }

    static lemma MoreLogged(entries: seq<Log.Entry>, e: Log.Entry)
      ensures Audit.LoggedIds(entries + [e]) == Audit.LoggedIds(entries) + {e.id}
    {
      assert forall x :: x in entries + [e] <==> x in entries || x == e;
    }

    /** Log every deed served and never logged. `stamp` is the time of a deed's
        evidence, or the clock when it has none. */
    method LogBackfill(stamp: bytes -> nat) returns (r: Result<seq<bytes>>)
      modifies this`log
      ensures match Audit.Backfill(keys.sha, old(Disk()), stamp)
              case Ok(plan) => r.Ok? && Disk() == Done(old(Disk()), plan) && |r.value| == |plan.entries|
                               && forall n :: 0 <= n < |plan.entries| ==> r.value[n] == plan.entries[n].id
              case Err(e) => r == Err(e) && Disk() == old(Disk())
    {
      hide Get, ParseId, Audit.AuditOf, Log.Line, EntryFor, Audit.EntriesFor, Appended, Written;
      var found := LogAudit();
      if found.Err? {
        return Err(found.error);
      }
      ghost var start := Disk();
      Audit.BackfillFacts(keys.sha, start, stamp);
      Audit.UnloggedAre(keys.sha, start);
      ghost var plan := Audit.Backfill(keys.sha, start, stamp).value;
      NothingDone(start);
      NoneAppended(log);
      var ids, added: seq<bytes> := found.value.unlogged, [];
      for n := 0 to |ids|
        invariant added == ids[..n]
        invariant log == Appended(start.log, plan.entries[..n])
      {
        assert ids[n] in ids;
        if ParseId(ids[n]).Ok? {
          match Get(files, ids[n]) {
            case Err(e) => return Err(e);
            case Ok(d) =>
              OneMoreAppended(start.log, plan.entries, n);
              AppendLog(d, stamp(ids[n]));
              added := added + [ids[n]];
          }
        }
      }
      assert plan.entries[..|ids|] == plan.entries;
      NoneWritten(files);
      return Ok(added);
    }

    // ---------- import ----------

    /** Check a bag, read it, plan everything, and only then write: files first,
        the log last. `first` is the directory as it was checked and `second` as
        it was read after. A refusal writes nothing. */
    method ImportHandover(first: Bag, second: Bag, allow: bool) returns (r: Result<(Handover.Handover, nat, nat)>)
      modifies this
      ensures r.Err? ==> Disk() == old(Disk())
      ensures r.Err? <==> !Importable(keys, verify, signers, allow, old(Disk()), first, second)
      ensures r.Ok? ==> Handover.Check(CryptoOf(keys, verify), first, signers) == Ok(r.value.0)
      ensures r.Ok? && r.value.0.proven == [] ==> Disk() == old(Disk()) && r.value.1 == r.value.2 == 0
      ensures r.Ok? && r.value.0.proven != [] ==>
                exists whole, p ::
                  && Admitted(keys, verify, signers, allow, first, second, r.value.0, whole)
                  && Planning.Plans(keys, old(Disk()), whole, p)
                  && Disk() == Done(old(Disk()), PlanOf(p))
                  && r.value.1 == p.deeds && r.value.2 == |p.log|
    {
      hide Handover.Check, ReadBag, SameAsChecked, Planning.Plans, Written, Appended, Log.Line;
      var c := CryptoOf(keys, verify);
      var check := Handover.CheckHandover(c, first, signers);
      if check.Err? {
        return Err(check.error);
      }
      var checked := check.value;
      if checked.proven == [] {
        return Ok((checked, 0, 0));
      }
      var whole := ReadBag(keys, second);
      if whole.Err? {
        return Err(whole.error);
      }
      var same := SameAsChecked(c, signers, second, whole.value, checked);
      if same.Err? {
        return Err(same.error);
      }
      var admitted := Admit(checked, allow);
      if admitted.Err? {
        return Err(admitted.error);
      }
      var planned := Plans.PlanImport(keys, Store.Disk(files, log), whole.value);
      if planned.Err? {
        return Err(planned.error);
      }
      var p := planned.value;
      assert Admitted(keys, verify, signers, allow, first, second, checked, whole.value);
      ghost var start := Disk();
      NoneWritten(files);
      NoneAppended(log);
      for n := 0 to |p.files|
        invariant files == Written(start.files, p.files[..n]) && log == start.log
      {
        OneMoreWritten(start.files, p.files, n);
        AtomicWrite(p.files[n].name, p.files[n].content);
      }
      assert p.files[..|p.files|] == p.files;
      for n := 0 to |p.log|
        invariant files == Written(start.files, p.files) && log == Appended(start.log, p.log[..n])
      {
        OneMoreAppended(start.log, p.log, n);
        log := log + Log.Line(p.log[n]);
      }
      assert p.log[..|p.log|] == p.log;
      return Ok((checked, p.deeds, |p.log|));
    }
  }

  /** A bag that checks out and carries nothing, or that is admitted and has a
      plan. */
  ghost predicate Importable(
    keys: Keys, verify: SignedHead.Verify, accept: set<Digest>, allow: bool, disk: Disk, first: Bag, second: Bag)
  {
    var check := Handover.Check(CryptoOf(keys, verify), first, accept);
    && check.Ok?
    && (check.value.proven == [] ||
        exists whole, p ::
          Admitted(keys, verify, accept, allow, first, second, check.value, whole)
              && Planning.Plans(keys, disk, whole, p))
  }

  /** What a sound store exports, a store new to it imports: the bag checks, is
      admitted and has a plan. */
  lemma ExportIsImportable(
    keys: Keys, verify: SignedHead.Verify, accept: set<Digest>, allow: bool, from: Store.Disk, bag: Bag, to: Store.Disk)
    requires Received.ExportedBag(keys, from, bag) && Exported.LineStands(CryptoOf(keys, verify), from, bag)
    requires Delivered.Framed(bag) && (allow || Delivered.Signed(bag, accept))
    requires Delivered.Travels(keys.sha, from.files, bag) && Delivered.LinksApart(keys.sha, from.files, bag)
    requires Delivered.Welcomes(keys, from.files, Exports.TreeOver(keys.sha, Log.Entries(from.log).value), bag, to)
    ensures Importable(keys, verify, accept, allow, to, bag, bag)
  {
    hide Admitted, Planning.Plans, Handover.Check, Planned.GoodImport, Delivered.Travels, Delivered.LinksApart;
    hide Delivered.Welcomes, Exported.LineStands, Delivered.ReadBack, Log.Entries;
    var checked, whole, p := Delivered.ExportImports(keys, verify, accept, allow, from, bag, to);
    CheckOfAdmitted(keys, verify, accept, allow, bag, bag, checked, whole);
  }

  /** An import that stopped after any of its files and any of its entries is
      granted again for the same bag, and what it then does completes it: the
      files and the log come to what they would have been without the stop. */
  lemma StoppedImportCompletes(
    keys: Keys, verify: SignedHead.Verify, accept: set<Digest>, allow: bool, first: Bag, second: Bag,
    checked: Handover.Handover, whole: Whole, disk: Store.Disk, p: Staged, k: nat, j: nat) returns (rest: Staged)
    requires Admitted(keys, verify, accept, allow, first, second, checked, whole) && Clear(keys.sha, second)
    requires Planning.Plans(keys, disk, whole, p) && (j == 0 || Terminated(disk.log)) && k <= |p.files| && j <= |p.log|
    ensures var after := Partly(disk, PlanOf(p), k, j);
            && Importable(keys, verify, accept, allow, after, first, second)
            && Planning.Plans(keys, after, whole, rest)
            && PlanOf(rest) == Rest(PlanOf(p), k, j)
            && Done(after, PlanOf(rest)) == Done(disk, PlanOf(p))
  {
    hide Admitted, Planning.Plans, Clear, Written, Appended, Handover.Check, Planned.GoodImport;
    AdmittedGood(keys, verify, accept, allow, first, second, checked, whole, disk);
    rest := Resuming.ImportResumes(Planned.Import(keys, disk, whole), p, k, j);
    CheckOfAdmitted(keys, verify, accept, allow, first, second, checked, whole);
  }

  lemma CheckOfAdmitted(
    keys: Keys, verify: SignedHead.Verify, accept: set<Digest>, allow: bool, first: Bag, second: Bag,
    checked: Handover.Handover, whole: Whole)
    requires Admitted(keys, verify, accept, allow, first, second, checked, whole)
    ensures Handover.Check(CryptoOf(keys, verify), first, accept) == Ok(checked)
  {
    hide Handover.Check;
  }
}
