/** What an import is for: once it is done, every deed it carried and every deed
    that was made from passes evidence here. */
module Settling {
  import opened Prelude
  import opened Text
  import opened Carrying
  import opened Deeds
  import opened Fitting
  import opened Graph
  import opened Landing
  import opened Paths
  import opened Planned
  import opened Planning
  import opened Store
  import Address
  import Decoded
  import Frames
  import Hex
  import Issuing
  import Linked
  import Log
  import Recovery
  import Resuming
  import Trail
  import Wire
  import WireProofs

  // ---------- an import with nothing left to write ----------

  /** The deed's own files, as its evidence needs them. */
  ghost predicate InPlace(keys: Issuing.Keys, files: Files, c: Carried) {
    && Get(files, c.deed.id).Ok?
    && Evid(c.deed.id) in files
    && files[Evid(c.deed.id)] == EvidenceFrame(c.deed, Issuing.EvidenceAt(keys, c.deed, c.receipt.time))
    && keys.attests(Wire.DeedBytes(c.deed), c.receipt.time, Issuing.Lookup(files, Host(c.deed.id))).Ok?
    && Issuing.PathsHold(keys.sha, files, c.deed.paths)
  }

  lemma PutInPlace(disk: Files, p: Staged, name: FileName, content: bytes)
    requires Put(disk, p, name, content).Ok? && Put(disk, p, name, content).value.files == []
    ensures p.files == [] && name in disk && disk[name] == content
  {
  }

  lemma {:induction false} ProductsInPlace(i: Import, paths: seq<bytes>, p: Staged)
    requires PlanProducts(i.keys.sha, i.disk.files, i.whole.products, paths, p).Ok?
    requires PlanProducts(i.keys.sha, i.disk.files, i.whole.products, paths, p).value.files == []
    ensures p.files == [] && Issuing.PathsHold(i.keys.sha, i.disk.files, paths)
    decreases paths
  {
    hide Hex.Render, Address.HexOf, Put;
    if paths != [] {
      ProductsInPlace(i, paths[1..], PlanProduct(i.keys.sha, i.disk.files, i.whole.products, paths[0], p).value);
      ProductInPlace(i, paths[0], p);
      assert forall q :: q in paths <==> q == paths[0] || q in paths[1..];
    }
  }

  lemma ProductInPlace(i: Import, path: bytes, p: Staged)
    requires PlanProduct(i.keys.sha, i.disk.files, i.whole.products, path, p).Ok?
    requires PlanProduct(i.keys.sha, i.disk.files, i.whole.products, path, p).value.files == []
    ensures p.files == [] && Issuing.PathHolds(i.keys.sha, i.disk.files, path)
  {
    hide Hex.Render, Address.HexOf, Put;
    var hex := Address.HexOf(path).value;
    if Product(hex) !in i.disk.files {
      PutInPlace(i.disk.files, p, Product(hex), i.whole.products[hex]);
    }
  }

  lemma DeedInPlace(i: Import, logged: ById, c: Carried, p: Staged)
    requires PlanDeed(i.keys, i.disk.files, logged, i.whole, c, p).Ok?
    requires PlanDeed(i.keys, i.disk.files, logged, i.whole, c, p).value.files == []
    ensures p.files == [] && InPlace(i.keys, i.disk.files, c)
  {
    hide PlanCap, CheckBound, PlanEntry, PlanEvidence, PlanHost, PlanProducts, PlanProof, Get, Issuing.PathsHold;
    hide EvidenceFrame, Issuing.EvidenceAt, Wire.PutDeed;
    var keys, disk := i.keys, i.disk.files;
    var p1 := PlanCap(disk, c, p).value;
    var p2 := PlanEntry(keys.sha, logged, c, p1).value;
    Resuming.EntryGrows(keys.sha, logged, c, p1);
    var p3 := PlanEvidence(keys, disk, c, p2).value;
    var p4 := PlanHost(keys, disk, c, p3).value;
    var p5 := PlanProducts(keys.sha, disk, i.whole.products, c.deed.paths, p4).value;
    Resuming.ProofGrows(disk, i.whole.head, c, p5);
    ProductsInPlace(i, c.deed.paths, p4);
    HostInPlace(keys, disk, c, p3);
    EvidenceInPlace(keys, disk, c, p2);
    CapInPlace(disk, c, p);
  }

  lemma CapInPlace(disk: Files, c: Carried, p: Staged)
    requires PlanCap(disk, c, p).Ok? && PlanCap(disk, c, p).value.files == []
    ensures p.files == [] && Get(disk, c.deed.id).Ok?
  {
    hide Get, CapFrame, Put, SameDeed;
    if Cap(c.deed.id) !in disk {
      PutInPlace(disk, p, Cap(c.deed.id), CapFrame(c.deed));
    }
  }

  lemma EvidenceInPlace(keys: Issuing.Keys, disk: Files, c: Carried, p: Staged)
    requires PlanEvidence(keys, disk, c, p).Ok? && PlanEvidence(keys, disk, c, p).value.files == []
    ensures p.files == [] && Evid(c.deed.id) in disk
    ensures disk[Evid(c.deed.id)] == EvidenceFrame(c.deed, Issuing.EvidenceAt(keys, c.deed, c.receipt.time))
  {
    hide EvidenceFrame, Issuing.EvidenceAt, Put;
    PutInPlace(disk, p, Evid(c.deed.id), EvidenceFrame(c.deed, Issuing.EvidenceAt(keys, c.deed, c.receipt.time)));
  }

  lemma HostInPlace(keys: Issuing.Keys, disk: Files, c: Carried, p: Staged)
    requires PlanHost(keys, disk, c, p).Ok? && PlanHost(keys, disk, c, p).value.files == []
    ensures p.files == []
    ensures keys.attests(Wire.DeedBytes(c.deed), c.receipt.time, Issuing.Lookup(disk, Host(c.deed.id))).Ok?
  {
    hide Put, Wire.PutDeed;
    if c.host.Some? {
      PutInPlace(disk, p, Host(c.deed.id), c.host.value);
    }
  }

  lemma {:induction false} DeedsInPlace(i: Import, logged: ById, cs: seq<Carried>, p: Staged)
    requires PlanDeeds(i.keys, i.disk.files, logged, i.whole, cs, p).Ok?
    requires PlanDeeds(i.keys, i.disk.files, logged, i.whole, cs, p).value.files == []
    ensures p.files == [] && forall c :: c in cs ==> InPlace(i.keys, i.disk.files, c)
    decreases cs
  {
    hide PlanDeed, InPlace;
    if cs != [] {
      DeedsInPlace(i, logged, cs[1..], PlanDeed(i.keys, i.disk.files, logged, i.whole, cs[0], p).value);
      DeedInPlace(i, logged, cs[0], p);
      assert forall c :: c in cs <==> c == cs[0] || c in cs[1..];
    }
  }

  lemma NothingLeft(i: Import, rest: Staged)
    requires GoodImport(i) && PlanFiles(i.keys, i.disk, i.whole) == Ok(rest) && rest.files == []
    ensures forall c :: c in i.whole.carried ==> InPlace(i.keys, i.disk.files, c)
  {
    hide GoodImport, Log.Entries, LoggedById, PlanDeeds, CollectTies, StageTies, TiesInOrder, AllAllowed, LogKept;
    hide Linked.GoodTies, Linked.Landed, NoLinks, Linked.HasTie, TiesOf, InPlace, CarriedById;
    Resuming.EntriesOk(i, rest);
    var logged, mid, ties := Resuming.PlanFinished(i, rest);
    assert mid.files <= rest.files;
    DeedsInPlace(i, logged, i.whole.carried, Staged([], [], 0));
  }

  // ---------- it passes evidence ----------

  /** The frame a deed's evidence is kept in can carry it. */
  predicate FrameFits(keys: Issuing.Keys, d: Deed, time: nat) {
    |Frames.ResponsePayload(Frames.Created(d, Issuing.EvidenceAt(keys, d, time)))| < Wire.U32
  }

  predicate FrameCarries(keys: Issuing.Keys, c: Carried) {
    FrameFits(keys, c.deed, c.receipt.time)
  }

  lemma ReadableGood(d: Deed)
    requires Readable(d)
    ensures WireProofs.Good(d) && Settled(d) == d
  {
    hide Wire.DeedBytes, Wire.DeedFromBytes, WireProofs.GoodId, WireProofs.AllShort, WireProofs.GoodSources;
    hide WireProofs.GoodGrants, Wire.Short, Decoded.MessageFits;
    Decoded.Reencodes(Wire.DeedBytes(d));
  }

  lemma EvidenceBack(keys: Issuing.Keys, files: Files, c: Carried)
    requires InPlace(keys, files, c) && FrameCarries(keys, c) && Readable(c.deed) && c.receipt.time < U64
    ensures Issuing.LoadEvidence(files, c.deed.id) == Ok(Issuing.EvidenceAt(keys, c.deed, c.receipt.time))
  {
    hide Frames.DecodeResponse, Wire.PutDeed, Wire.PutEvidence, Wire.DeedFromBytes, WireProofs.Good, Get, Settled;
    hide WireProofs.GoodEvidence, Issuing.EvidenceAt, Issuing.PathsHold, Frames.Wrap, Readable;
    var e := Issuing.EvidenceAt(keys, c.deed, c.receipt.time);
    ReadableGood(c.deed);
    Issuing.SettledEvidence(keys, c.deed, c.receipt.time);
    var s := Frames.Created(c.deed, e);
    Frames.ResponseRound(s, []);
    assert Frames.EncodeResponse(s) + [] == Frames.EncodeResponse(s);
  }

  lemma PassesInPlace(keys: Issuing.Keys, files: Files, c: Carried)
    requires InPlace(keys, files, c) && FrameCarries(keys, c) && Readable(c.deed) && c.receipt.time < U64
    ensures Issuing.EvidenceLocal(keys, files, c.deed) == Ok(Issuing.EvidenceAt(keys, c.deed, c.receipt.time))
  {
    hide Issuing.LoadEvidence, Readable, FrameCarries, Get, EvidenceFrame, Issuing.PathsHold, Issuing.Signature;
    hide Wire.PutDeed, Parse;
    EvidenceBack(keys, files, c);
  }

  // ---------- what is held is what travelled ----------

  lemma AlikeIs(files: Files, c: Carried)
    requires HeldAlike(files, c) && Readable(c.deed)
    ensures CapDeed(files, c.deed.id) == Ok(c.deed)
  {
    hide CapDeed, Wire.DeedBytes, Wire.DeedFromBytes, WireProofs.Good;
    CapGood(files, c.deed.id);
  }

  lemma {:induction false} LoggedIn(entries: seq<Log.Entry>, start: ById)
    requires LoggedById(entries, start).Ok?
    ensures var logged := LoggedById(entries, start).value;
            forall id :: id in logged ==>
              (id in start && logged[id] == start[id]) || (logged[id] in entries && logged[id].id == id)
    decreases entries
  {
    if entries != [] {
      LoggedIn(entries[1..], if entries[0].id in start then start else start[entries[0].id := entries[0]]);
      assert forall e :: e in entries <==> e == entries[0] || e in entries[1..];
    }
  }

  lemma EntryAgrees(i: Import, logged: ById, c: Carried, p: Staged)
    requires PlanDeed(i.keys, i.disk.files, logged, i.whole, c, p).Ok?
    ensures c.deed.id in logged ==> logged[c.deed.id].digest == c.receipt.digest
  {
    hide PlanCap, CheckBound, PlanEvidence, PlanHost, PlanProducts, PlanProof, DeedDigest;
  }

  lemma {:induction false} EntriesAgree(i: Import, logged: ById, cs: seq<Carried>, p: Staged)
    requires PlanDeeds(i.keys, i.disk.files, logged, i.whole, cs, p).Ok?
    ensures forall c :: c in cs && c.deed.id in logged ==> logged[c.deed.id].digest == c.receipt.digest
    decreases cs
  {
    hide PlanDeed;
    if cs != [] {
      EntryAgrees(i, logged, cs[0], p);
      EntriesAgree(i, logged, cs[1..], PlanDeed(i.keys, i.disk.files, logged, i.whole, cs[0], p).value);
      assert forall c :: c in cs <==> c == cs[0] || c in cs[1..];
    }
  }

  /** In a sound store a carried deed that is logged is held as it travels. */
  lemma LoggedAlike(i: Import, logged: ById, c: Carried)
    requires GoodImport(i) && Sound(i.keys.sha, i.disk) && CollisionFree(i.keys.sha, BothOctets(i))
    requires LoggedById(Log.Entries(i.disk.log).value, map[]) == Ok(logged)
    requires c in i.whole.carried && c.deed.id in logged && logged[c.deed.id].digest == c.receipt.digest
    ensures HeldAlike(i.disk.files, c)
  {
    hide Log.Entries, LoggedById, CapDeed, Wire.DeedBytes, Address.Of, IsId, Once, Readable, DistinctIds;
    var id := c.deed.id;
    LoggedIn(Log.Entries(i.disk.log).value, map[]);
    assert Held(i.keys.sha, i.disk.files, logged[id]);
    assert GoodCarried(i, c);
    Address.OfInjective(i.keys.sha, Wire.DeedBytes(c.deed), Wire.DeedBytes(CapDeed(i.disk.files, id).value));
  }

  lemma AllLoggedAlike(i: Import, final: Staged)
    requires GoodImport(i) && PlanFiles(i.keys, i.disk, i.whole) == Ok(final)
    requires Sound(i.keys.sha, i.disk) && CollisionFree(i.keys.sha, BothOctets(i))
    ensures forall c :: c in i.whole.carried && Logs(i.disk.log, c.deed.id) ==> HeldAlike(i.disk.files, c)
  {
    hide Log.Entries, LoggedById, Sound, GoodImport, CollisionFree, BothOctets, HeldAlike, PlanDeeds, CollectTies;
    hide StageTies, TiesInOrder, AllAllowed, LogKept, Linked.GoodTies, Linked.Landed, NoLinks, Linked.HasTie, TiesOf;
    hide CarriedById, Logs;
    Resuming.EntriesOk(i, final);
    var logged, mid, ties := Resuming.PlanFinished(i, final);
    NamedByLog(i.disk.log, logged);
    EntriesAgree(i, logged, i.whole.carried, Staged([], [], 0));
    forall c | c in i.whole.carried && Logs(i.disk.log, c.deed.id)
      ensures HeldAlike(i.disk.files, c)
    {
      LoggedAlike(i, logged, c);
    }
  }

  // ---------- the trail ----------

  /** The evidence of a deed's whole trail: every deed it was made from, however
      far back, is served, and each of them passes evidence. */
  ghost predicate Evidenced(keys: Issuing.Keys, files: Files, d: Deed) {
    && Get(files, d.id) == Ok(d)
    && forall id :: Reaches(Trail.Sources(d, Trail.ServedBy(files)), d.id, id) ==>
         Get(files, id).Ok? && Issuing.EvidenceLocal(keys, files, Get(files, id).value).Ok?
  }

  /** Where two graphs agree on every node one reaches, they reach the same. */
  lemma {:induction false} AgreeOnPath(a: Successors, b: Successors, p: seq<bytes>, x: bytes, y: bytes)
    requires PathFrom(a, p, x, y) && forall z :: Reaches(b, x, z) ==> a(z) == b(z)
    ensures Reaches(b, x, y)
    decreases |p|
  {
    if |p| == 1 {
      ReachesSelf(b, x);
    } else {
      var n := |p| - 1;
      var q := p[..n];
      assert Edge(a, p[n - 1], p[n]);
      forall m | 0 <= m < |q| - 1
        ensures Edge(a, q[m], q[m + 1])
      {
        assert Edge(a, p[m], p[m + 1]);
      }
      AgreeOnPath(a, b, q, x, p[n - 1]);
      ReachesNext(b, x, p[n - 1], p[n]);
    }
  }

  /** Every carried deed is served as it travelled and passes evidence. */
  ghost predicate CargoStands(i: Import) {
    forall c :: c in i.whole.carried ==>
      && Get(i.disk.files, c.deed.id) == Ok(c.deed)
      && Issuing.EvidenceLocal(i.keys, i.disk.files, c.deed).Ok?
  }

  lemma FoundIsServed(i: Import, c: Carried, id: bytes)
    requires GoodImport(i) && CargoStands(i) && FoundSource(i.keys.sha, i.disk.files, i.Cargo(), c, id).Ok?
    ensures Get(i.disk.files, id) == FoundSource(i.keys.sha, i.disk.files, i.Cargo(), c, id)
    ensures id in i.Cargo() ==> Issuing.EvidenceLocal(i.keys, i.disk.files, Get(i.disk.files, id).value).Ok?
  {
    hide GoodCarried, CarriedById, Get, DeedDigest, Issuing.EvidenceLocal, DistinctIds, ProductsHashed;
    CargoExact(i.whole.carried);
  }

  /** Once the carried deeds stand, so does every trail the import checked. */
  lemma TrailStands(i: Import, c: Carried)
    requires GoodImport(i) && CargoStands(i) && c in i.whole.carried
    requires TrailPasses(i.keys, i.disk.files, i.Cargo(), c)
    ensures Evidenced(i.keys, i.disk.files, c.deed)
  {
    hide GoodImport, CarriedById, FoundSource, Reaches, Issuing.EvidenceLocal, DeedSources, Get;
    var found, served := SourceOf(i.keys.sha, i.disk.files, i.Cargo(), c), Trail.ServedBy(i.disk.files);
    var a, b := Trail.Sources(c.deed, served), Trail.Sources(c.deed, found);
    forall z | Reaches(b, c.deed.id, z)
      ensures a(z) == b(z)
      ensures Get(i.disk.files, z).Ok? && Issuing.EvidenceLocal(i.keys, i.disk.files, Get(i.disk.files, z).value).Ok?
    {
      if z != c.deed.id {
        FoundIsServed(i, c, z);
      }
    }
    forall id | Reaches(a, c.deed.id, id)
      ensures Reaches(b, c.deed.id, id)
    {
      ReachesPath(a, b, c.deed.id, id);
    }
  }

  lemma ReachesPath(a: Successors, b: Successors, x: bytes, y: bytes)
    requires Reaches(a, x, y) && forall z :: Reaches(b, x, z) ==> a(z) == b(z)
    ensures Reaches(b, x, y)
  {
    hide PathFrom;
    var p :| PathFrom(a, p, x, y);
    AgreeOnPath(a, b, p, x, y);
  }

  /** When an import is done, every deed it carried that was new here, or was held
      as it travelled, is served as it travelled, and the evidence of its whole
      trail holds here. */
  lemma AlikeAreEvidenced(i: Import, final: Staged)
    requires GoodImport(i) && Plans(i.keys, i.disk, i.whole, final)
    requires forall c :: c in i.whole.carried ==> FrameCarries(i.keys, c)
    requires forall c :: c in i.whole.carried && Cap(c.deed.id) in i.disk.files ==> HeldAlike(i.disk.files, c)
    ensures forall c :: c in i.whole.carried ==> Evidenced(i.keys, Written(i.disk.files, final.files), c.deed)
  {
    hide GoodImport, PlanFiles, CarriedById, Log.Entries, Appended, CapSettled, Written, HeldAlike, Logs;
    hide FrameCarries, InPlace, TrailPasses, Issuing.EvidenceLocal, Get, CapDeed, Recovery.Stopped;
    var s := Recovery.Stop(i, final, |final.files|, 0);
    var rest := Resuming.ImportResumes(i, final, |final.files|, 0);
    var logged := ImportLogsNew(i, final);
    assert final.files[..|final.files|] == final.files;
    assert final.log[..0] == [] && final.files[|final.files|..] == [];
    NoneAppended(i.disk.log);
    var done := Import(i.keys, Disk(Written(i.disk.files, final.files), i.disk.log), i.whole);
    Resuming.SameGood(i, done.disk);
    NothingLeft(done, rest);
    forall c | c in i.whole.carried
      ensures Get(done.disk.files, c.deed.id) == Ok(c.deed)
      ensures Issuing.EvidenceLocal(i.keys, done.disk.files, c.deed).Ok?
    {
      CarriedFacts(i, c);
      SettledDone(s, c);
      if Cap(c.deed.id) in i.disk.files {
        AlikeIs(i.disk.files, c);
      }
      PassesInPlace(i.keys, done.disk.files, c);
    }
    forall c | c in i.whole.carried
      ensures Evidenced(i.keys, done.disk.files, c.deed)
    {
      TrailStands(done, c);
    }
  }

  /** Into a sound store, short of a collision, that asks only of the carried deeds
      held here and not logged that they are held as they travel. */
  lemma CarriedAreEvidenced(i: Import, final: Staged)
    requires GoodImport(i) && Plans(i.keys, i.disk, i.whole, final)
    requires Sound(i.keys.sha, i.disk) && CollisionFree(i.keys.sha, BothOctets(i)) && Alike(i)
    requires forall c :: c in i.whole.carried ==> FrameCarries(i.keys, c)
    ensures forall c :: c in i.whole.carried ==> Evidenced(i.keys, Written(i.disk.files, final.files), c.deed)
  {
    hide GoodImport, PlanFiles, Written, Sound, CollisionFree, BothOctets, HeldAlike, Logs, FrameCarries, TrailPasses;
    AllLoggedAlike(i, final);
    AlikeAreEvidenced(i, final);
  }

  lemma CarriedFacts(i: Import, c: Carried)
    requires GoodImport(i) && c in i.whole.carried
    ensures Readable(c.deed) && c.receipt.time < U64
  {
    hide Readable;
    assert GoodCarried(i, c);
  }
}
