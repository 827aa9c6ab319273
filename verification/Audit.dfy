/** The shelf as it is read, the log held against it in both directions, and
    logging what was never logged. */
module Audit {
  import opened Prelude
  import opened Text
  import opened Deeds
  import opened Order
  import opened Store
  import Frames
  import Log

  // ---------- the shelf ----------

  function CapStems(files: Files): set<bytes> {
    set n | n in files && n.Cap? :: n.stem
  }

  /** Deeds the shelf serves, and accessions whose cap does not read. */
  datatype Shelf = Shelf(served: seq<Deed>, unreadable: seq<bytes>)

  /** A name that is not an accession, or is entombed, is passed over. */
  function ReadDeeds(files: Files, stems: seq<bytes>): Shelf
    decreases stems
  {
    if stems == [] then Shelf([], [])
    else
      var rest := ReadDeeds(files, stems[1..]);
      if ParseId(stems[0]).Err? || Tomb(stems[0]) in files then rest
      else
        match Get(files, stems[0])
        case Ok(d) => rest.(served := [d] + rest.served)
        case Err(_) => rest.(unreadable := [stems[0]] + rest.unreadable)
  }

  /** In the order of the accessions. */
  function ShelfOf(files: Files): Shelf {
    ReadDeeds(files, InOrder(CapStems(files)))
  }

  predicate ServedAs(files: Files, id: bytes, d: Deed) {
    ParseId(id).Ok? && Get(files, id) == Ok(d)
  }

  lemma GetNames(files: Files, id: bytes)
    requires Get(files, id).Ok?
    ensures Get(files, id).value.id == id && Tomb(id) !in files && Cap(id) in files
  {
    hide Frames.DecodeResponse;
  }

  lemma {:induction false} ReadExact(files: Files, stems: seq<bytes>)
    ensures forall d :: d in ReadDeeds(files, stems).served <==> d.id in stems && ServedAs(files, d.id, d)
    decreases stems
  {
    hide Get, ParseId;
    if stems != [] {
      var s := stems[0];
      ReadExact(files, stems[1..]);
      assert forall id :: id in stems <==> id == s || id in stems[1..];
      if Get(files, s).Ok? {
        GetNames(files, s);
      }
      GetEntombed(files, s);
    }
  }

  lemma GetEntombed(files: Files, id: bytes)
    ensures Tomb(id) in files ==> Get(files, id) == Err(Tombstoned)
  {
  }

  /** The shelf lists exactly the deeds that are served. */
  lemma ShelfExact(files: Files)
    ensures forall d :: d in ShelfOf(files).served <==> ServedAs(files, d.id, d)
  {
    hide Get, ParseId, InOrder;
    InOrderElements(CapStems(files));
    ReadExact(files, InOrder(CapStems(files)));
    forall d: Deed | ServedAs(files, d.id, d)
      ensures d.id in CapStems(files)
    {
      GetNames(files, d.id);
      assert Cap(d.id) in files;
    }
  }

  ghost function Ids(ds: seq<Deed>): seq<bytes> {
    seq(|ds|, i requires 0 <= i < |ds| => ds[i].id)
  }

  // ---------- the audit ----------

  datatype Why = NotAnAccession | Refused(error: Error) | ServesAs(digest: bytes)

  /** A deed the log names that the store does not serve as logged. */
  datatype Missing = Missing(id: bytes, why: Why)

  datatype Found = Found(logged: nat, missing: seq<Missing>, unlogged: seq<bytes>, unreadable: seq<bytes>)

  function MissingFor(sha: Sha, files: Files, e: Log.Entry): Option<Missing> {
    if ParseId(e.id).Err? then Some(Missing(e.id, NotAnAccession))
    else
      match Get(files, e.id)
      case Err(x) => Some(Missing(e.id, Refused(x)))
      case Ok(d) =>
        if DeedDigest(sha, d) != e.digest then Some(Missing(e.id, ServesAs(DeedDigest(sha, d)))) else None
  }

  function MissingOf(sha: Sha, files: Files, entries: seq<Log.Entry>): seq<Missing>
    decreases entries
  {
    if entries == [] then []
    else
      (match MissingFor(sha, files, entries[0])
       case None => []
       case Some(m) => [m])
      + MissingOf(sha, files, entries[1..])
  }

  function LoggedIds(entries: seq<Log.Entry>): set<bytes> {
    set e | e in entries :: e.id
  }

  /** The accessions of a shelf that a set of logged ones leaves out. */
  function UnloggedOf(logged: set<bytes>, served: seq<Deed>): seq<bytes>
    decreases served
  {
    if served == [] then []
    else (if served[0].id in logged then [] else [served[0].id]) + UnloggedOf(logged, served[1..])
  }

  function Without(logged: set<bytes>, ids: seq<bytes>): seq<bytes>
    decreases ids
  {
    if ids == [] then []
    else (if ids[0] in logged then [] else [ids[0]]) + Without(logged, ids[1..])
  }

  function AuditOf(sha: Sha, disk: Disk): Result<Found> {
    var entries :- Log.Entries(disk.log);
    var logged, shelf := LoggedIds(entries), ShelfOf(disk.files);
    Ok(Found(|logged|, MissingOf(sha, disk.files, entries),
             UnloggedOf(logged, shelf.served), Without(logged, shelf.unreadable)))
  }

  // ---------- logging what was never logged ----------

  function EntriesFor(sha: Sha, files: Files, ids: seq<bytes>, stamp: bytes -> nat): Result<seq<Log.Entry>>
    decreases ids
  {
    if ids == [] then Ok([])
    else
      var d :- Get(files, ids[0]);
      var rest :- EntriesFor(sha, files, ids[1..], stamp);
      Ok([EntryFor(sha, d, stamp(ids[0]))] + rest)
  }

  /** `stamp` is the time of a deed's evidence, or the clock when it has none. */
  function Backfill(sha: Sha, disk: Disk, stamp: bytes -> nat): Result<Plan> {
    var found :- AuditOf(sha, disk);
    var entries :- EntriesFor(sha, disk.files, found.unlogged, stamp);
    Ok(Plan([], entries))
  }

  lemma {:induction false} UnloggedExact(logged: set<bytes>, served: seq<Deed>)
    ensures forall id :: id in UnloggedOf(logged, served) <==> id !in logged && exists d :: d in served && d.id == id
    decreases served
  {
    if served != [] {
      UnloggedExact(logged, served[1..]);
      assert forall d :: d in served <==> d == served[0] || d in served[1..];
    }
  }

  /** The unlogged accessions are exactly those served and never logged. */
  lemma UnloggedAre(sha: Sha, disk: Disk)
    requires AuditOf(sha, disk).Ok?
    ensures forall id :: id in AuditOf(sha, disk).value.unlogged <==>
              id !in LoggedIds(Log.Entries(disk.log).value) && ParseId(id).Ok? && Get(disk.files, id).Ok?
  {
    hide Get, ParseId, Log.Entries, ShelfOf, MissingOf, Without, UnloggedOf;
    var logged, shelf := LoggedIds(Log.Entries(disk.log).value), ShelfOf(disk.files);
    ShelfExact(disk.files);
    UnloggedExact(logged, shelf.served);
    forall id | ParseId(id).Ok? && Get(disk.files, id).Ok?
      ensures exists d :: d in shelf.served && d.id == id
    {
      GetNames(disk.files, id);
      assert ServedAs(disk.files, id, Get(disk.files, id).value);
      assert Get(disk.files, id).value in shelf.served;
    }
  }

  lemma {:induction false} EntriesForServed(sha: Sha, files: Files, ids: seq<bytes>, stamp: bytes -> nat)
    requires forall id :: id in ids ==> Get(files, id).Ok?
    ensures EntriesFor(sha, files, ids, stamp).Ok?
    ensures var es := EntriesFor(sha, files, ids, stamp).value;
            && |es| == |ids|
            && forall i :: 0 <= i < |ids| ==>
                 es[i] == EntryFor(sha, Get(files, ids[i]).value, stamp(ids[i])) && es[i].id == ids[i]
    decreases ids
  {
    hide Get, DeedDigest;
    if ids != [] {
      assert ids[0] in ids;
      GetNames(files, ids[0]);
      EntriesForServed(sha, files, ids[1..], stamp);
    }
  }

  lemma {:induction false} UnloggedOnce(logged: set<bytes>, served: seq<Deed>)
    requires Ascending(Ids(served))
    ensures Ascending(UnloggedOf(logged, served))
    ensures forall id :: id in UnloggedOf(logged, served) ==> id in Ids(served)
    decreases served
  {
    hide AtMost;
    if served != [] {
      var ids := Ids(served);
      assert Ids(served[1..]) == ids[1..];
      TailHas(ids);
      UnloggedOnce(logged, served[1..]);
      forall id | id in UnloggedOf(logged, served[1..])
        ensures Before(served[0].id, id)
      {
        assert id in ids[1..];
        var i :| 1 <= i < |ids| && ids[i] == id;
      }
      forall id | id in UnloggedOf(logged, served)
        ensures id in ids
      {
        if id !in UnloggedOf(logged, served[1..]) {
          assert id == ids[0];
        }
      }
    }
  }

  lemma {:induction false} ServedOnce(files: Files, stems: seq<bytes>)
    requires Ascending(stems)
    ensures Ascending(Ids(ReadDeeds(files, stems).served))
    ensures forall id :: id in Ids(ReadDeeds(files, stems).served) ==> id in stems
    decreases stems
  {
    hide AtMost, Get, ParseId;
    if stems != [] {
      TailHas(stems);
      ServedOnce(files, stems[1..]);
      var rest := Ids(ReadDeeds(files, stems[1..]).served);
      if Get(files, stems[0]).Ok? {
        GetNames(files, stems[0]);
      }
      forall id | id in rest
        ensures Before(stems[0], id)
      {
        var i :| 1 <= i < |stems| && stems[i] == id;
      }
      var all := Ids(ReadDeeds(files, stems).served);
      assert all == rest || all == [stems[0]] + rest;
    }
  }

  /** Each unlogged accession once, in order. */
  lemma UnloggedAscends(sha: Sha, disk: Disk)
    requires AuditOf(sha, disk).Ok?
    ensures Ascending(AuditOf(sha, disk).value.unlogged)
  {
    hide Get, ParseId, Log.Entries, MissingOf, Without, UnloggedOf, AtMost, InOrder;
    InOrderAscends(CapStems(disk.files));
    ServedOnce(disk.files, InOrder(CapStems(disk.files)));
    UnloggedOnce(LoggedIds(Log.Entries(disk.log).value), ShelfOf(disk.files).served);
  }

  /** What backfilling would append: one entry for each deed served and never
      logged, with the digest it serves as. */
  lemma BackfillFacts(sha: Sha, disk: Disk, stamp: bytes -> nat)
    requires AuditOf(sha, disk).Ok?
    ensures Backfill(sha, disk, stamp).Ok?
    ensures var plan, ids := Backfill(sha, disk, stamp).value, AuditOf(sha, disk).value.unlogged;
            && plan.writes == [] && |plan.entries| == |ids|
            && forall i :: 0 <= i < |ids| ==>
                 && plan.entries[i].id == ids[i]
                 && Get(disk.files, ids[i]).Ok?
                 && plan.entries[i] == EntryFor(sha, Get(disk.files, ids[i]).value, stamp(ids[i]))
  {
    hide Get, ParseId, AuditOf, EntriesFor, DeedDigest;
    UnloggedAre(sha, disk);
    EntriesForServed(sha, disk.files, AuditOf(sha, disk).value.unlogged, stamp);
  }

  lemma BackfillSound(sha: Sha, disk: Disk, stamp: bytes -> nat)
    requires AuditOf(sha, disk).Ok? && forall id :: stamp(id) < U64
    ensures Backfill(sha, disk, stamp).Ok? && SoundPlan(sha, disk, Backfill(sha, disk, stamp).value)
  {
    hide Get, Backfill, CapDeed, Log.Entries, Log.Writable, IsId, ParseId, DeedDigest, MissingOf, ShelfOf;
    hide UnloggedOf, Without;
    BackfillFacts(sha, disk, stamp);
    UnloggedAre(sha, disk);
    UnloggedAscends(sha, disk);
    var plan, ids := Backfill(sha, disk, stamp).value, AuditOf(sha, disk).value.unlogged;
    assert Done(disk, plan).files == disk.files;
    forall i | 0 <= i < |ids|
      ensures Log.Writable(plan.entries[i]) && Held(sha, disk.files, plan.entries[i])
      ensures plan.entries[i].id !in LoggedIds(Log.Entries(disk.log).value)
    {
      var id := ids[i];
      assert id in ids;
      GetNames(disk.files, id);
      GetIsHeld(disk.files, id);
      ParsedIsId(id);
      EntryWritable(sha, Get(disk.files, id).value, stamp(id));
    }
    forall i, j | 0 <= i < j < |ids|
      ensures plan.entries[i].id != plan.entries[j].id
    {
      assert Before(ids[i], ids[j]);
    }
  }

  lemma ParsedIsId(id: bytes)
    ensures ParseId(id).Ok? <==> IsId(id)
  {
  }

  /** After a backfill nothing served is unlogged, and another adds nothing. */
  lemma BackfillSettles(sha: Sha, disk: Disk, stamp: bytes -> nat, plan: Plan, again: bytes -> nat)
    requires Backfill(sha, disk, stamp) == Ok(plan)
    requires Terminated(disk.log) && forall id :: stamp(id) < U64
    ensures AuditOf(sha, Done(disk, plan)).Ok? && AuditOf(sha, Done(disk, plan)).value.unlogged == []
    ensures Backfill(sha, Done(disk, plan), again) == Ok(Plan([], []))
  {
    hide Get, Log.Entries, Log.Writable, ParseId, DeedDigest, MissingOf, ShelfOf, UnloggedOf, Without, AllHeld;
    hide Appended;
    BackfillFacts(sha, disk, stamp);
    BackfillSound(sha, disk, stamp);
    var ids, after := AuditOf(sha, disk).value.unlogged, Done(disk, plan);
    assert after.files == disk.files;
    AppendMany(disk.log, plan.entries);
    UnloggedAre(sha, disk);
    UnloggedAre(sha, after);
    var held := Log.Entries(disk.log).value;
    forall id | id in ids || id in LoggedIds(held)
      ensures id in LoggedIds(held + plan.entries)
    {
      NowLogged(held, plan.entries, ids, id);
    }
    if AuditOf(sha, after).value.unlogged != [] {
      HasMember(AuditOf(sha, after).value.unlogged);
      assert false;
    }
  }

  lemma NowLogged(held: seq<Log.Entry>, more: seq<Log.Entry>, ids: seq<bytes>, id: bytes)
    requires |more| == |ids| && forall i :: 0 <= i < |ids| ==> more[i].id == ids[i]
    requires id in ids || id in LoggedIds(held)
    ensures id in LoggedIds(held + more)
  {
    if id in ids {
      var i :| 0 <= i < |ids| && ids[i] == id;
      assert more[i] in held + more;
    } else {
      var e :| e in held && e.id == id;
      assert e in held + more;
    }
  }

  // ---------- a sound store's audit ----------

  lemma HeldMissing(sha: Sha, files: Files, e: Log.Entry)
    requires Held(sha, files, e)
    ensures MissingFor(sha, files, e) ==
            if Tomb(e.id) in files then Some(Missing(e.id, Refused(Tombstoned))) else None
  {
    hide CapDeed, DeedDigest;
  }

  /** The entries of a log whose accession is entombed. */
  function Entombed(files: Files, entries: seq<Log.Entry>): seq<Missing>
    decreases entries
  {
    if entries == [] then []
    else
      (if Tomb(entries[0].id) in files then [Missing(entries[0].id, Refused(Tombstoned))] else [])
      + Entombed(files, entries[1..])
  }

  lemma {:induction false} MissingAre(sha: Sha, files: Files, entries: seq<Log.Entry>)
    requires AllHeld(sha, files, entries)
    ensures MissingOf(sha, files, entries) == Entombed(files, entries)
    decreases entries
  {
    hide MissingFor, Held;
    if entries != [] {
      assert entries[0] in entries;
      HeldMissing(sha, files, entries[0]);
      MissingAre(sha, files, entries[1..]);
    }
  }

  /** In a sound store the audit misses exactly the entombed entries. */
  lemma AuditMissesTheEntombed(sha: Sha, disk: Disk)
    requires Sound(sha, disk)
    ensures AuditOf(sha, disk).Ok?
    ensures AuditOf(sha, disk).value.missing == Entombed(disk.files, Log.Entries(disk.log).value)
    ensures AuditOf(sha, disk).value.logged == |Log.Entries(disk.log).value|
  {
    hide Held, Log.Entries, ShelfOf, UnloggedOf, Without, MissingOf, Entombed;
    var entries := Log.Entries(disk.log).value;
    MissingAre(sha, disk.files, entries);
    OnceCounted(entries);
  }

  lemma LoggedFirst(entries: seq<Log.Entry>)
    requires entries != []
    ensures LoggedIds(entries) == {entries[0].id} + LoggedIds(entries[1..])
  {
    assert entries == [entries[0]] + entries[1..];
    assert forall e :: e in entries <==> e == entries[0] || e in entries[1..];
  }

  lemma FirstOnlyOnce(entries: seq<Log.Entry>)
    requires Once(entries) && entries != []
    ensures Once(entries[1..]) && entries[0].id !in LoggedIds(entries[1..])
  {
    forall i | 1 <= i < |entries|
      ensures entries[i].id != entries[0].id
    {
    }
  }

  lemma {:induction false} OnceCounted(entries: seq<Log.Entry>)
    requires Once(entries)
    ensures |LoggedIds(entries)| == |entries|
    decreases entries
  {
    hide LoggedIds, Once;
    if entries == [] {
      NoIds();
    } else {
      LoggedFirst(entries);
      FirstOnlyOnce(entries);
      OnceCounted(entries[1..]);
    }
  }

  lemma NoIds()
    ensures LoggedIds([]) == {}
  {
  }
}
