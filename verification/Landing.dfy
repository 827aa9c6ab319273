/** What an import leaves: nothing there before changed, and every link standing. */
module Landing {
  import opened Prelude
  import opened Text
  import opened Bag
  import opened Carrying
  import opened Deeds
  import opened Linked
  import opened Order
  import opened Planned
  import opened Planning
  import opened Receipt
  import opened Recovery
  import opened Resuming
  import opened Sidecars
  import opened Store
  import Address
  import Frames
  import Handover
  import Hex
  import Issuing
  import Log
  import Paths
  import SignedHead
  import Wire

  // ---------- additive ----------

  /** The content an id-only sidecar is completed to. */
  ghost predicate Completes(before: bytes, after: bytes) {
    exists t: Link :: Completed(before, after, t)
  }

  ghost predicate Completed(before: bytes, after: bytes, t: Link) {
    GoodLink(t) && IdOnly(before, t.id) && after == BoundLines(t.id, t.digest)
  }

  /** Wherever an import stops, every file that was there is there, with the
      content it had, unless it is a link sidecar that named an accession alone
      and now names the same one with its digest. */
  lemma ImportOnlyAdds(i: Import, final: Staged, k: nat, name: FileName)
    requires GoodImport(i) && PlanFiles(i.keys, i.disk, i.whole) == Ok(final)
    requires k <= |final.files| && name in i.disk.files
    ensures var now := Written(i.disk.files, final.files[..k]);
            && name in now
            && (now[name] == i.disk.files[name] || (name.Supersedes? && Completes(i.disk.files[name], now[name])))
  {
    hide GoodImport, Written, PlanFiles, Stopped, CarriedById, BoundLines, IdOnly, GoodLink;
    hide LogKept, GoodTies, NoLinks, LoggedById, PlanDeeds, CollectTies, StageTies, Landed, TiesInOrder, Log.Entries;
    EntriesOk(i, final);
    var logged, mid, ties := PlanFinished(i, final);
    StopOf(i, final, k, 0, logged, mid, ties);
    var s := Stop(i, final, k, 0);
    assert Now(s) == Written(i.disk.files, final.files[..k]);
    if !Same(i.disk.files, Now(s), name) {
      var n := NowPlanned(s, name);
      var t: Link :| Binds(i, final.files[n].content, t) && (name in i.disk.files ==> IdOnly(i.disk.files[name], t.id));
      assert Completed(i.disk.files[name], Now(s)[name], t);
    }
  }

  // ---------- the links stand ----------

  lemma SidedDone(s: Stop, name: FileName, content: bytes)
    requires Stopped(s) && s.k == |s.final.files| && Sided(s.i.disk.files, s.final.files, name, content)
    ensures name in Now(s) && Now(s)[name] == content
  {
    hide Now, GoodImport, AllAllowed;
    if Write(name, content) in s.final.files {
      var n :| 0 <= n < |s.final.files| && s.final.files[n] == Write(name, content);
      NowWritten(s, n);
    } else {
      forall n | 0 <= n < s.k
        ensures s.final.files[n].name != name
      {
        assert s.final.files[n] in s.final.files;
      }
      NowUnwritten(s, name);
    }
  }

  /** A pair of link sidecars that agree. */
  ghost predicate Tied(files: Files, t: Tie, both: bool) {
    && Supersedes(t.1.id) in files && files[Supersedes(t.1.id)] == BoundLines(t.0.id, t.0.digest)
    && (both ==> Successor(t.0.id) in files && files[Successor(t.0.id)] == NameLine(t.1.id))
  }

  ghost predicate Meet(t: Tie, u: Tie) {
    t.0.id == u.0.id || t.1.id == u.1.id
  }

  ghost predicate AnyTie(cs: seq<Carried>, t: Tie) {
    exists c :: c in cs && t in TiesOf(c)
  }

  /** When an import is done, every link its bag names stands on the new deed's
      side and, where the old deed is carried or served, on the old one's; and
      no deed has two successors or two priors among them. */
  lemma LinksStand(i: Import, final: Staged)
    requires GoodImport(i) && PlanFiles(i.keys, i.disk, i.whole) == Ok(final)
    ensures forall t :: AnyTie(i.whole.carried, t) ==>
              Tied(Written(i.disk.files, final.files), t, t.0.id in i.Cargo() || Serves(i.disk.files, t.0.id))
    ensures forall t, u :: AnyTie(i.whole.carried, t) && AnyTie(i.whole.carried, u) && Meet(t, u) ==> t == u
  {
    hide GoodImport, Written, PlanFiles, Stopped, CarriedById, BoundLines, NameLine, AllAllowed, LogKept;
    hide Log.Entries, Serves;
    hide TiesInOrder, GoodTies, Landed, NoLinks, LoggedById, PlanDeeds, CollectTies, StageTies, Grown, TiesOf, HasTie;
    EntriesOk(i, final);
    var logged, mid, ties := PlanFinished(i, final);
    var s := Stop(i, final, |final.files|, 0);
    StopOf(i, final, |final.files|, 0, logged, mid, ties);
    assert final.files[..|final.files|] == final.files;
    forall t | AnyTie(i.whole.carried, t)
      ensures HasTie(ties, t)
      ensures Tied(Written(i.disk.files, final.files), t, t.0.id in i.Cargo() || Serves(i.disk.files, t.0.id))
    {
      var c :| c in i.whole.carried && t in TiesOf(c);
      TieInOrder(i, ties, t);
      LandedDone(s, t);
    }
    forall t, u | AnyTie(i.whole.carried, t) && AnyTie(i.whole.carried, u) && Meet(t, u)
      ensures t == u
    {
      OneTie(i, ties, t, u);
    }
  }

  lemma TieInOrder(i: Import, ties: Ties, t: Tie)
    requires GoodTies(i, ties) && HasTie(ties, t)
    ensures t in TiesInOrder(ties.byOld)
  {
    hide GoodTies, TiesInOrder;
    OrderedTies(i, ties);
  }

  lemma OneTie(i: Import, ties: Ties, t: Tie, u: Tie)
    requires GoodTies(i, ties) && HasTie(ties, t) && HasTie(ties, u) && Meet(t, u)
    ensures t == u
  {
    hide GoodTie;
  }

  lemma LandedDone(s: Stop, t: Tie)
    requires Stopped(s) && s.k == |s.final.files| && Landed(s.i, s.final.files, t)
    ensures Tied(Now(s), t, t.0.id in s.i.Cargo() || Serves(s.i.disk.files, t.0.id))
  {
    hide Now, Stopped, CarriedById, BoundLines, NameLine, Sided, Serves;
    StoppedFacts(s);
    SidedDone(s, Supersedes(t.1.id), BoundLines(t.0.id, t.0.digest));
    if t.0.id in s.i.Cargo() || Serves(s.i.disk.files, t.0.id) {
      SidedDone(s, Successor(t.0.id), NameLine(t.1.id));
    }
  }

  // ---------- the log ----------

  /** A carried deed's cap, held before under any spelling, or planned. */
  ghost predicate CapSettled(disk: Files, files: seq<Write>, c: Carried) {
    || (Cap(c.deed.id) in disk && CapDeed(disk, c.deed.id).Ok? && Tomb(c.deed.id) !in disk)
    || (Cap(c.deed.id) !in disk && Tomb(c.deed.id) !in disk && Write(Cap(c.deed.id), CapFrame(c.deed)) in files)
  }

  lemma SettledStays(disk: Files, files: seq<Write>, more: seq<Write>, c: Carried)
    requires CapSettled(disk, files, c) && files <= more
    ensures CapSettled(disk, more, c)
  {
    hide CapDeed, CapFrame;
    var w := Write(Cap(c.deed.id), CapFrame(c.deed));
    if w in files {
      var n :| 0 <= n < |files| && files[n] == w;
      assert more[n] == w;
    }
  }

  lemma CapSettles(disk: Files, c: Carried, p: Staged)
    requires PlanCap(disk, c, p).Ok?
    ensures CapSettled(disk, PlanCap(disk, c, p).value.files, c)
  {
    hide CapFrame, Frames.DecodeResponse, Paths.SameDeed;
    var w := Write(Cap(c.deed.id), CapFrame(c.deed));
    if Cap(c.deed.id) !in disk {
      var n := Find(p.files, w.name);
      if n < |p.files| {
        assert p.files[n] == w;
      } else {
        assert (p.files + [w])[|p.files|] == w;
      }
    }
  }

  lemma DeedSettles(i: Import, logged: ById, c: Carried, p: Staged)
    requires PlanDeed(i.keys, i.disk.files, logged, i.whole, c, p).Ok?
    ensures CapSettled(i.disk.files, PlanDeed(i.keys, i.disk.files, logged, i.whole, c, p).value.files, c)
  {
    hide PlanCap, CheckBound, PlanEntry, PlanEvidence, PlanHost, PlanProducts, PlanProof, CapSettled;
    var keys, disk := i.keys, i.disk.files;
    var p1 := PlanCap(disk, c, p).value;
    CapSettles(disk, c, p);
    var p2 := PlanEntry(keys.sha, logged, c, p1).value;
    EntryGrows(keys.sha, logged, c, p1);
    var p3 := PlanEvidence(keys, disk, c, p2).value;
    EvidenceGrows(keys, disk, c, p2);
    var p4 := PlanHost(keys, disk, c, p3).value;
    HostGrows(keys, disk, c, p3);
    var p5 := PlanProducts(keys.sha, disk, i.whole.products, c.deed.paths, p4).value;
    ProductsGrow(i, c.deed.paths, p4);
    ProofGrows(disk, i.whole.head, c, p5);
    SettledStays(disk, p1.files, PlanProof(disk, i.whole.head, c, p5).value.files, c);
  }

  lemma {:induction false} DeedsSettle(i: Import, logged: ById, cs: seq<Carried>, p: Staged)
    requires PlanDeeds(i.keys, i.disk.files, logged, i.whole, cs, p).Ok?
    ensures forall c :: c in cs ==> CapSettled(i.disk.files, PlanDeeds(i.keys, i.disk.files, logged, i.whole, cs,
              p).value.files, c)
    decreases cs
  {
    hide PlanDeed, CapSettled;
    if cs != [] {
      var next := PlanDeed(i.keys, i.disk.files, logged, i.whole, cs[0], p).value;
      DeedSettles(i, logged, cs[0], p);
      DeedsGrow(i, logged, cs[1..], next);
      DeedsSettle(i, logged, cs[1..], next);
      SettledStays(i.disk.files, next.files, PlanDeeds(i.keys, i.disk.files, logged, i.whole, cs, p).value.files,
          cs[0]);
    }
  }

  /** Once the import is done, a carried deed is held as it travelled, or as it
      was held before. */
  lemma SettledDone(s: Stop, c: Carried)
    requires Stopped(s) && s.k == |s.final.files| && CapSettled(s.i.disk.files, s.final.files, c) && Readable(c.deed)
    ensures CapDeed(Now(s), c.deed.id)
            == if Cap(c.deed.id) in s.i.disk.files then CapDeed(s.i.disk.files, c.deed.id) else Ok(c.deed)
    ensures CapDeed(Now(s), c.deed.id).Ok? && Get(Now(s), c.deed.id) == CapDeed(Now(s), c.deed.id)
  {
    hide Now, GoodImport, AllAllowed, Frames.DecodeResponse, CapFrame, Readable;
    KeepsDeed(s, c.deed.id);
    if Cap(c.deed.id) in s.i.disk.files {
      NowKeeps(s, Cap(c.deed.id));
    } else {
      var w := Write(Cap(c.deed.id), CapFrame(c.deed));
      var n :| 0 <= n < |s.final.files| && s.final.files[n] == w;
      NowWritten(s, n);
      CapReads(c.deed);
    }
  }

  lemma CarriedReadable(i: Import, c: Carried)
    requires GoodCarried(i, c)
    ensures Readable(c.deed) && IsId(c.deed.id)
  {
    hide Readable, IsId;
  }

  /** The store holds the deed with the octets it travels as. */
  ghost predicate HeldAlike(files: Files, c: Carried) {
    CapDeed(files, c.deed.id).Ok? && Wire.DeedBytes(CapDeed(files, c.deed.id).value) == Wire.DeedBytes(c.deed)
  }

  ghost predicate Logs(log: bytes, id: bytes) {
    Log.Entries(log).Ok? && exists e :: e in Log.Entries(log).value && e.id == id
  }

  /** Every carried deed that is held here and not logged is held with the octets
      it travels as, and not merely with the same paths spelled otherwise. */
  ghost predicate Alike(i: Import) {
    forall c :: c in i.whole.carried && Cap(c.deed.id) in i.disk.files && !Logs(i.disk.log, c.deed.id) ==>
                  HeldAlike(i.disk.files, c)
  }

  /** The octets of every carried deed, as it travels and as it is held. */
  ghost function BothOctets(i: Import): set<bytes> {
    (set c | c in i.whole.carried :: Wire.DeedBytes(c.deed))
    + set c | c in i.whole.carried && CapDeed(i.disk.files, c.deed.id).Ok? ::
        Wire.DeedBytes(CapDeed(i.disk.files, c.deed.id).value)
  }

  lemma PlannedHeld(i: Import, s: Stop, logged: ById, e: Log.Entry)
    requires GoodImport(i) && s.i == i && Stopped(s) && s.k == |s.final.files|
    requires LogAllowed(i, logged, e) && forall c :: c in i.whole.carried ==> CapSettled(i.disk.files, s.final.files, c)
    ensures e.id in i.Cargo() && i.Cargo()[e.id] in i.whole.carried
    ensures var c := i.Cargo()[e.id];
            && (Cap(e.id) !in i.disk.files || HeldAlike(i.disk.files, c) ==> Held(i.keys.sha, Now(s), e))
            && (Cap(e.id) in i.disk.files && Held(i.keys.sha, Now(s), e) ==>
                  CollisionFree(i.keys.sha, BothOctets(i)) ==> HeldAlike(i.disk.files, c))
  {
    hide Now, Stopped, CarriedById, CapSettled, IsId, CapDeed, GoodCarried, DistinctIds, Wire.DeedBytes, Address.Of;
    hide Get;
    StoppedFacts(s);
    CargoExact(i.whole.carried);
    var c := i.Cargo()[e.id];
    CarriedReadable(i, c);
    SettledDone(s, c);
    if Cap(e.id) in i.disk.files && Held(i.keys.sha, Now(s), e) {
      Address.OfInjective(
        i.keys.sha, Wire.DeedBytes(c.deed), Wire.DeedBytes(CapDeed(i.disk.files, c.deed.id).value));
    }
  }

  /** What an import logs, whatever is held: accessions the log does not name,
      each once, of deeds it carries. */
  ghost predicate LogsNew(i: Import, final: Staged) {
    && (forall w :: w in final.files && w.name.Cap? ==> w.name !in i.disk.files)
    && Once(final.log) && (forall e :: e in final.log ==> Log.Writable(e) && !Logs(i.disk.log, e.id))
    && (forall c :: c in i.whole.carried ==> CapSettled(i.disk.files, final.files, c))
    && forall c :: c in i.whole.carried && !Logs(i.disk.log, c.deed.id) ==>
                     exists e :: e in final.log && e.id == c.deed.id
  }

  lemma ImportLogsNew(i: Import, final: Staged) returns (logged: ById)
    requires GoodImport(i) && PlanFiles(i.keys, i.disk, i.whole) == Ok(final)
    ensures LogsNew(i, final) && Stopped(Stop(i, final, |final.files|, 0)) && Log.Entries(i.disk.log).Ok?
    ensures forall e :: e in final.log ==> LogAllowed(i, logged, e)
  {
    hide GoodImport, PlanFiles, CarriedById, LogAllowed, Log.Entries, Log.Writable, CapSettled, Allowed, Stopped;
    hide TiesInOrder, GoodTies, Landed, NoLinks, LoggedById, PlanDeeds, CollectTies, StageTies, TiesOf, HasTie;
    EntriesOk(i, final);
    var known, mid, ties := PlanFinished(i, final);
    logged := known;
    StopOf(i, final, |final.files|, 0, logged, mid, ties);
    PlannedEntries(i, logged, final.log);
    NamedByLog(i.disk.log, logged);
    DeedsSettle(i, logged, i.whole.carried, Staged([], [], 0));
    EntriesPlanned(i, logged, i.whole.carried, Staged([], [], 0));
    forall c | c in i.whole.carried
      ensures CapSettled(i.disk.files, final.files, c)
    {
      SettledStays(i.disk.files, mid.files, final.files, c);
    }
    forall e | e in final.log
      ensures e.id !in logged
    {
      AllowedNew(i, logged, e);
    }
    forall w | w in final.files && w.name.Cap?
      ensures w.name !in i.disk.files
    {
      AllowedOver(i, w);
    }
  }

  lemma NamedByLog(log: bytes, logged: ById)
    requires Log.Entries(log).Ok? && LoggedById(Log.Entries(log).value, map[]) == Ok(logged)
    ensures forall id :: id in logged <==> Logs(log, id)
  {
    hide Log.Entries, LoggedById;
    LoggedKeys(Log.Entries(log).value, map[]);
    forall id | id in logged
      ensures Logs(log, id)
    {
      LoggedFrom(Log.Entries(log).value, map[], id);
    }
  }

  /** An import's plan is sound when the deeds it logs are held, if at all, with
      the octets they travel as: it then logs each accession under the digest of
      the deed it leaves there. */
  lemma ImportSound(i: Import, final: Staged)
    requires GoodImport(i) && PlanFiles(i.keys, i.disk, i.whole) == Ok(final) && Alike(i)
    ensures SoundPlan(i.keys.sha, i.disk, PlanOf(final))
  {
    hide GoodImport, Written, PlanFiles, CarriedById, LogAllowed, Log.Entries, Log.Writable, Appended, CapSettled;
    hide Held, Stopped, HeldAlike;
    var logged := ImportLogsNew(i, final);
    var s := Stop(i, final, |final.files|, 0);
    assert final.files[..|final.files|] == final.files;
    forall e | e in final.log
      ensures Held(i.keys.sha, Now(s), e)
    {
      PlannedHeld(i, s, logged, e);
      CargoNamed(i, e.id);
    }
  }

  lemma CargoNamed(i: Import, id: bytes)
    requires GoodImport(i) && id in i.Cargo()
    ensures i.Cargo()[id].deed.id == id
  {
    hide GoodCarried, CarriedById;
    CargoExact(i.whole.carried);
  }

  /** And, short of a collision, only then. */
  lemma ImportSoundExact(i: Import, final: Staged)
    requires GoodImport(i) && PlanFiles(i.keys, i.disk, i.whole) == Ok(final)
    requires CollisionFree(i.keys.sha, BothOctets(i))
    ensures SoundPlan(i.keys.sha, i.disk, PlanOf(final)) <==> Alike(i)
  {
    hide GoodImport, Written, PlanFiles, CarriedById, LogAllowed, Log.Entries, Log.Writable, Appended, CapSettled;
    hide Held, Stopped, HeldAlike, BothOctets, CollisionFree, CapDeed, Logs;
    if Alike(i) {
      ImportSound(i, final);
    }
    var logged := ImportLogsNew(i, final);
    var s := Stop(i, final, |final.files|, 0);
    assert final.files[..|final.files|] == final.files;
    if SoundPlan(i.keys.sha, i.disk, PlanOf(final)) {
      forall c | c in i.whole.carried && Cap(c.deed.id) in i.disk.files && !Logs(i.disk.log, c.deed.id)
        ensures HeldAlike(i.disk.files, c)
      {
        var e :| e in final.log && e.id == c.deed.id;
        CargoIs(i, c);
        PlannedHeld(i, s, logged, e);
        assert Held(i.keys.sha, Now(s), e);
      }
    }
  }

  lemma CargoIs(i: Import, c: Carried)
    requires GoodImport(i) && c in i.whole.carried
    ensures c.deed.id in i.Cargo() && i.Cargo()[c.deed.id] == c
  {
    hide GoodCarried, CarriedById;
    CargoExact(i.whole.carried);
  }
}
