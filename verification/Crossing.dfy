/** An import of deeds that are new to a store: it is always planned, when the
    links the bag names are one to one and its trails travel with it. */
module Crossing {
  import opened Prelude
  import opened Text
  import opened Carrying
  import opened Deeds
  import opened Graph
  import opened Ingest
  import opened Linked
  import opened Order
  import opened Planned
  import opened Planning
  import opened Receipt
  import opened Sidecars
  import opened Store
  import Address
  import Current
  import Hex
  import Issuing
  import Log
  import Minting
  import Resuming
  import Settling
  import Trail
  import Wire

  // ---------- what a store new to the deeds is ----------

  /** Nothing in the store is of the accession. */
  ghost predicate Strange(disk: Disk, id: bytes) {
    && (forall n: FileName :: n in disk.files && n.stem == id ==> n.Product?)
    && (forall s :: Supersedes(s) in disk.files ==>
          ReadSupersedes(disk.files[Supersedes(s)]).Ok? && NamesNot(disk.files[Supersedes(s)], id))
    && Log.Entries(disk.log).Ok? && forall e :: e in Log.Entries(disk.log).value ==> e.id != id
  }

  ghost predicate NamesNot(raw: bytes, id: bytes) {
    ReadSupersedes(raw).Ok? && ReadSupersedes(raw).value.Some? ==> ReadSupersedes(raw).value.value.id != id
  }

  /** A carried deed the store knows nothing of, whose bytes travel with it and
      whose host sidecar the store's layout accepts. */
  ghost predicate Lands(i: Import, c: Carried) {
    && Strange(i.disk, c.deed.id)
    && i.keys.attests(Wire.DeedBytes(c.deed), c.receipt.time, c.host).Ok?
    && forall p :: p in c.deed.paths ==> Address.HexOf(p).Some? && Address.HexOf(p).value in i.whole.products
  }

  /** The store's log reads by accession, and its shelf is truthful. */
  ghost predicate Orderly(sha: Sha, disk: Disk) {
    && Log.Entries(disk.log).Ok? && LoggedById(Log.Entries(disk.log).value, map[]).Ok?
    && Minting.Shelved(sha, disk.files)
  }

  // ---------- one deed ----------

  /** What is planned so far: files of deeds already planned, and products. */
  ghost predicate PlanOnly(i: Import, p: Staged, done: set<bytes>) {
    forall w :: w in p.files ==>
      if w.name.Product? then w.name.stem in i.whole.products && w.content == i.whole.products[w.name.stem]
      else !w.name.Supersedes? && !w.name.Successor? && w.name.stem in done
  }

  ghost predicate Placed(i: Import, r: Result<Staged>, done: set<bytes>) {
    r.Ok? && PlanOnly(i, r.value, done)
  }

  ghost predicate Unplanned(p: Staged, name: FileName) {
    forall w :: w in p.files ==> w.name != name
  }

  /** A file of a deed being planned, which neither the store nor the plan has. */
  lemma PutNew(i: Import, p: Staged, name: FileName, content: bytes, done: set<bytes>)
    requires PlanOnly(i, p, done) && name.stem in done && name !in i.disk.files && Unplanned(p, name)
    requires !name.Product? && !name.Supersedes? && !name.Successor?
    ensures Placed(i, Put(i.disk.files, p, name, content), done)
    ensures var q := Put(i.disk.files, p, name, content).value;
            && q.log == p.log && q.deeds == p.deeds
            && forall other :: other != name && Unplanned(p, other) ==> Unplanned(q, other)
  {
    FindFails(p.files, name);
  }

  lemma ProductLands(i: Import, path: bytes, p: Staged, done: set<bytes>)
    requires PlanOnly(i, p, done) && Minting.Shelved(i.keys.sha, i.disk.files)
    requires Address.HexOf(path).Some? && Address.HexOf(path).value in i.whole.products
    ensures Placed(i, PlanProduct(i.keys.sha, i.disk.files, i.whole.products, path, p), done)
    ensures var q := PlanProduct(i.keys.sha, i.disk.files, i.whole.products, path, p).value;
            forall name: FileName :: !name.Product? && Unplanned(p, name) ==> Unplanned(q, name)
  {
    hide Address.HexOf, Hex.Render;
    var hex := Address.HexOf(path).value;
    assert Product(hex) in i.disk.files ==> HexOfBytes(i.keys.sha, i.disk.files[Product(hex)]) == hex;
    var n := Find(p.files, Product(hex));
    if n < |p.files| {
      assert p.files[n] in p.files;
    }
  }

  lemma {:induction false} ProductsLand(i: Import, paths: seq<bytes>, p: Staged, done: set<bytes>)
    requires PlanOnly(i, p, done) && Minting.Shelved(i.keys.sha, i.disk.files)
    requires forall q :: q in paths ==> Address.HexOf(q).Some? && Address.HexOf(q).value in i.whole.products
    ensures Placed(i, PlanProducts(i.keys.sha, i.disk.files, i.whole.products, paths, p), done)
    ensures var q := PlanProducts(i.keys.sha, i.disk.files, i.whole.products, paths, p).value;
            forall name: FileName :: !name.Product? && Unplanned(p, name) ==> Unplanned(q, name)
    decreases paths
  {
    hide PlanProduct, PlanOnly, Unplanned, Address.HexOf, Minting.Shelved;
    if paths != [] {
      assert paths[0] in paths;
      ProductLands(i, paths[0], p, done);
      ProductsLand(i, paths[1..], PlanProduct(i.keys.sha, i.disk.files, i.whole.products, paths[0], p).value, done);
    }
  }

  lemma StrangeFiles(disk: Disk, id: bytes)
    requires Strange(disk, id)
    ensures Cap(id) !in disk.files && Tomb(id) !in disk.files && Evid(id) !in disk.files && Host(id) !in disk.files
    ensures Proof(id) !in disk.files && Kept(id) !in disk.files
    ensures Supersedes(id) !in disk.files && Successor(id) !in disk.files
  {
    hide NamesNot, Log.Entries, ReadSupersedes;
    assert forall n: FileName :: n in disk.files && n.stem == id ==> n.Product?;
    assert Cap(id).stem == id && Tomb(id).stem == id && Evid(id).stem == id && Host(id).stem == id;
    assert Proof(id).stem == id && Kept(id).stem == id && Supersedes(id).stem == id && Successor(id).stem == id;
  }

  lemma NewUnplanned(i: Import, p: Staged, done: set<bytes>, id: bytes)
    requires PlanOnly(i, p, done) && id !in done
    ensures PlanOnly(i, p, done + {id})
    ensures Unplanned(p, Cap(id)) && Unplanned(p, Evid(id)) && Unplanned(p, Host(id)) && Unplanned(p, Proof(id))
    ensures Unplanned(p, Kept(id))
  {
  }

  lemma BoundToNothing(disk: Disk, c: Carried)
    requires Strange(disk, c.deed.id)
    ensures CheckBound(disk.files, c).Ok?
  {
    hide CheckBound, Log.Entries, ReadSupersedes;
    Resuming.BoundExact(disk.files, c);
    forall n | Supersedes(n) in disk.files
      ensures Resuming.BindsTo(disk.files[Supersedes(n)], c.deed.id, c.receipt.digest)
    {
      assert NamesNot(disk.files[Supersedes(n)], c.deed.id);
    }
  }

  lemma ProofLands(i: Import, c: Carried, p: Staged, done: set<bytes>)
    requires PlanOnly(i, p, done) && c.deed.id in done
    requires Unplanned(p, Proof(c.deed.id)) && Unplanned(p, Kept(c.deed.id))
    requires Proof(c.deed.id) !in i.disk.files && Kept(c.deed.id) !in i.disk.files
    ensures Placed(i, PlanProof(i.disk.files, i.whole.head, c, p), done)
  {
    hide Put, PlanOnly, Unplanned, KeptProof, ProofNames, IsUtf8;
    var id := c.deed.id;
    PutNew(i, p, Proof(id), c.proof, done);
    if i.whole.head.Some? {
      PutNew(i, Put(i.disk.files, p, Proof(id), c.proof).value, Kept(id), i.whole.head.value, done);
    }
  }

  lemma HostLands(i: Import, c: Carried, p: Staged, done: set<bytes>)
    requires PlanOnly(i, p, done) && c.deed.id in done
    requires Unplanned(p, Host(c.deed.id)) && Host(c.deed.id) !in i.disk.files
    requires i.keys.attests(Wire.DeedBytes(c.deed), c.receipt.time, c.host).Ok?
    ensures Placed(i, PlanHost(i.keys, i.disk.files, c, p), done)
    ensures var q := PlanHost(i.keys, i.disk.files, c, p).value;
            forall name :: name != Host(c.deed.id) && Unplanned(p, name) ==> Unplanned(q, name)
  {
    hide Put, PlanOnly, Unplanned, Wire.PutDeed;
    if c.host.Some? {
      PutNew(i, p, Host(c.deed.id), c.host.value, done);
    }
  }

  /** A deed new to the store is planned, whatever was planned before it. */
  lemma DeedLands(i: Import, logged: ById, c: Carried, p: Staged, done: set<bytes>)
    requires Lands(i, c) && Minting.Shelved(i.keys.sha, i.disk.files)
    requires PlanOnly(i, p, done) && c.deed.id !in done && c.deed.id !in logged
    ensures Placed(i, PlanDeed(i.keys, i.disk.files, logged, i.whole, c, p), done + {c.deed.id})
  {
    hide Put, PlanOnly, Unplanned, CheckBound, PlanHost, PlanProducts, PlanProof, Wire.PutDeed, Address.HexOf, Strange;
    hide Minting.Shelved, CapFrame, EvidenceFrame, Issuing.EvidenceAt, EntryFor, Get;
    var id, files, all := c.deed.id, i.disk.files, done + {c.deed.id};
    StrangeFiles(i.disk, id);
    NewUnplanned(i, p, done, id);
    PutNew(i, p, Cap(id), CapFrame(c.deed), all);
    var p1 := PlanCap(files, c, p).value;
    SameFiles(i, Put(files, p, Cap(id), CapFrame(c.deed)).value, p1, all);
    BoundToNothing(i.disk, c);
    var p2 := PlanEntry(i.keys.sha, logged, c, p1).value;
    SameFiles(i, p1, p2, all);
    PutNew(i, p2, Evid(id), EvidenceFrame(c.deed, Issuing.EvidenceAt(i.keys, c.deed, c.receipt.time)), all);
    var p3 := PlanEvidence(i.keys, files, c, p2).value;
    HostLands(i, c, p3, all);
    var p4 := PlanHost(i.keys, files, c, p3).value;
    ProductsLand(i, c.deed.paths, p4, all);
    ProofLands(i, c, PlanProducts(i.keys.sha, files, i.whole.products, c.deed.paths, p4).value, all);
  }

  lemma SameFiles(i: Import, p: Staged, q: Staged, done: set<bytes>)
    requires p.files == q.files
    ensures PlanOnly(i, p, done) == PlanOnly(i, q, done)
    ensures forall name :: Unplanned(p, name) == Unplanned(q, name)
  {
  }

  lemma {:induction false} DeedsLand(i: Import, logged: ById, cs: seq<Carried>, p: Staged, done: set<bytes>)
    requires Minting.Shelved(i.keys.sha, i.disk.files) && DistinctIds(cs) && PlanOnly(i, p, done)
    requires forall c :: c in cs ==> Lands(i, c) && c.deed.id !in done && c.deed.id !in logged
    ensures PlanDeeds(i.keys, i.disk.files, logged, i.whole, cs, p).Ok?
    ensures NoLinks(PlanDeeds(i.keys, i.disk.files, logged, i.whole, cs, p).value.files)
    decreases cs
  {
    hide PlanDeed, Lands, Minting.Shelved;
    if cs != [] {
      assert cs[0] in cs;
      DeedLands(i, logged, cs[0], p, done);
      RestDistinct(cs);
      forall c | c in cs[1..]
        ensures c.deed.id != cs[0].deed.id
      {
        var n :| 1 <= n < |cs| && cs[n] == c;
      }
      DeedsLand(i, logged, cs[1..], PlanDeed(i.keys, i.disk.files, logged, i.whole, cs[0], p).value,
                done + {cs[0].deed.id});
    }
  }

  // ---------- the links ----------

  ghost predicate Tied(cs: seq<Carried>, t: Tie) {
    exists c :: c in cs && t in TiesOf(c)
  }

  /** The links of the bag: one new deed to each old, one old to each new, none to
      itself. */
  ghost predicate OneToOne(cs: seq<Carried>) {
    && (forall t :: Tied(cs, t) ==> t.0.id != t.1.id)
    && forall t, u :: Tied(cs, t) && Tied(cs, u) && (t.0.id == u.0.id || t.1.id == u.1.id) ==> t == u
  }

  /** They name carried deeds by their digests, and every successor is carried. */
  ghost predicate LinksTravel(i: Import) {
    forall c :: c in i.whole.carried ==>
      && (c.supersedes.Some? ==> RequireCarried(c.supersedes.value, i.Cargo()).Ok?)
      && (c.successor.Some? ==> c.successor.value.id in i.Cargo() && RequireCarried(c.successor.value, i.Cargo()).Ok?)
  }

  /** Ties gathered from the bag's own links. */
  ghost predicate Gathered(cs: seq<Carried>, ties: Ties) {
    && (forall o :: o in ties.byOld ==> Tied(cs, ties.byOld[o]) && ties.byOld[o].0.id == o)
    && forall n :: n in ties.byNew ==> exists t :: Tied(cs, t) && t.1.id == n && ties.byNew[n] == t.0
  }

  lemma TieGathers(cs: seq<Carried>, ties: Ties, t: Tie)
    requires OneToOne(cs) && Gathered(cs, ties) && Tied(cs, t)
    ensures AddTie(ties, t).Ok? && Gathered(cs, AddTie(ties, t).value)
  {
    hide Tied;
    if t.1.id in ties.byNew {
      var u :| Tied(cs, u) && u.1.id == t.1.id && ties.byNew[t.1.id] == u.0;
    }
  }

  lemma {:induction false} TiesGather(cs: seq<Carried>, ties: Ties, ts: seq<Tie>)
    requires OneToOne(cs) && Gathered(cs, ties) && forall t :: t in ts ==> Tied(cs, t)
    ensures AddTies(ties, ts).Ok? && Gathered(cs, AddTies(ties, ts).value)
    decreases ts
  {
    hide OneToOne, Gathered, Tied, AddTie;
    if ts != [] {
      assert ts[0] in ts;
      TieGathers(cs, ties, ts[0]);
      TiesGather(cs, AddTie(ties, ts[0]).value, ts[1..]);
    }
  }

  lemma LinksCheck(i: Import, c: Carried)
    requires LinksTravel(i) && c in i.whole.carried
    ensures CheckLinks(i.keys.sha, i.disk.files, i.Cargo(), c).Ok?
  {
    hide CarriedById;
  }

  lemma {:induction false} AllGather(i: Import, rest: seq<Carried>, ties: Ties)
    requires LinksTravel(i) && OneToOne(i.whole.carried) && Gathered(i.whole.carried, ties)
    requires forall c :: c in rest ==> c in i.whole.carried
    ensures CollectTies(i.keys.sha, i.disk.files, i.Cargo(), rest, ties).Ok?
    decreases rest
  {
    hide OneToOne, Gathered, LinksTravel, CheckLinks, TiesOf, CarriedById;
    if rest != [] {
      assert rest[0] in rest;
      LinksCheck(i, rest[0]);
      TiesGather(i.whole.carried, ties, TiesOf(rest[0]));
      AllGather(i, rest[1..], AddTies(ties, TiesOf(rest[0])).value);
    }
  }

  /** A tie both of whose deeds are new to the store. */
  ghost predicate NewTie(disk: Disk, t: Tie) {
    Strange(disk, t.0.id) && Strange(disk, t.1.id)
  }

  lemma TieStages(i: Import, t: Tie, p: Staged)
    requires NewTie(i.disk, t) && Unplanned(p, Supersedes(t.1.id)) && Unplanned(p, Successor(t.0.id))
    ensures StageTie(i.keys.sha, i.disk.files, i.Cargo(), t, p).Ok?
    ensures var q := StageTie(i.keys.sha, i.disk.files, i.Cargo(), t, p).value;
            forall name :: name != Supersedes(t.1.id) && name != Successor(t.0.id) && Unplanned(p, name) ==>
                             Unplanned(q, name)
  {
    hide Strange, CarriedById, BoundLines, NameLine, IdOnly;
    StrangeFiles(i.disk, t.0.id);
    StrangeFiles(i.disk, t.1.id);
    FindFails(p.files, Supersedes(t.1.id));
    var q := StageSupersedes(i.disk.files, t, p).value;
    FindFails(q.files, Successor(t.0.id));
  }

  lemma {:induction false} TiesStage(i: Import, ts: seq<Tie>, p: Staged)
    requires NewsApart(ts) && forall t :: t in ts ==>
               NewTie(i.disk, t) && Unplanned(p, Supersedes(t.1.id)) && Unplanned(p, Successor(t.0.id))
    ensures StageTies(i.keys.sha, i.disk.files, i.Cargo(), ts, p).Ok?
    decreases ts
  {
    hide NewTie, StageTie, CarriedById, Unplanned;
    if ts != [] {
      assert ts[0] in ts;
      TieStages(i, ts[0], p);
      var next := StageTie(i.keys.sha, i.disk.files, i.Cargo(), ts[0], p).value;
      forall t | t in ts[1..]
        ensures Unplanned(next, Supersedes(t.1.id)) && Unplanned(next, Successor(t.0.id)) && NewTie(i.disk, t)
      {
        var n :| 1 <= n < |ts| && ts[n] == t;
        assert t in ts;
      }
      TiesStage(i, ts[1..], next);
    }
  }

  lemma NoneUnplanned(files: seq<Write>, p: Staged)
    requires NoLinks(files) && p.files == files
    ensures forall id :: Unplanned(p, Supersedes(id)) && Unplanned(p, Successor(id))
  {
  }

  // ---------- the whole plan ----------

  /** What makes an import of new deeds certain. */
  ghost predicate Ready(i: Import) {
    && GoodImport(i) && Orderly(i.keys.sha, i.disk) && OneToOne(i.whole.carried) && LinksTravel(i)
    && (forall c :: c in i.whole.carried ==> Lands(i, c))
    && forall t :: Tied(i.whole.carried, t) ==> NewTie(i.disk, t)
  }

  lemma LinksPlan(i: Import, mid: Staged)
    requires Ready(i) && NoLinks(mid.files)
    ensures PlanLinks(i.keys.sha, i.disk.files, i.Cargo(), i.whole.carried, mid).Ok?
  {
    hide GoodCarried, CarriedById, OneToOne, LinksTravel, Lands, NewTie, TiesInOrder, CollectTies, StageTies, GoodTies;
    hide Orderly, NoLinks, DistinctIds, ProductsHashed, IsUtf8, HasTie, TiesOf;
    var cs, none := i.whole.carried, Ties(map[], map[]);
    CargoExact(cs);
    NoneGathered(cs);
    AllGather(i, cs, none);
    NoTies(i);
    CollectedGood(i, cs, none);
    var ties := CollectTies(i.keys.sha, i.disk.files, i.Cargo(), cs, none).value;
    CollectedTied(i, cs, none);
    OrderedTies(i, ties);
    NoneUnplanned(mid.files, mid);
    forall t | t in TiesInOrder(ties.byOld)
      ensures NewTie(i.disk, t)
    {
      HeldTie(cs, ties, t);
    }
    TiesStage(i, TiesInOrder(ties.byOld), mid);
  }

  lemma NoneGathered(cs: seq<Carried>)
    ensures Gathered(cs, Ties(map[], map[]))
  {
  }

  lemma HeldTie(cs: seq<Carried>, ties: Ties, t: Tie)
    requires Gathered(cs, ties) && HasTie(ties, t)
    ensures Tied(cs, t)
  {
    hide Tied;
  }

  lemma {:induction false} CollectedTied(i: Import, rest: seq<Carried>, ties: Ties)
    requires LinksTravel(i) && OneToOne(i.whole.carried) && Gathered(i.whole.carried, ties)
    requires forall c :: c in rest ==> c in i.whole.carried
    requires CollectTies(i.keys.sha, i.disk.files, i.Cargo(), rest, ties).Ok?
    ensures Gathered(i.whole.carried, CollectTies(i.keys.sha, i.disk.files, i.Cargo(), rest, ties).value)
    decreases rest
  {
    hide OneToOne, Gathered, LinksTravel, CheckLinks, TiesOf, CarriedById;
    if rest != [] {
      assert rest[0] in rest;
      TiesGather(i.whole.carried, ties, TiesOf(rest[0]));
      CollectedTied(i, rest[1..], AddTies(ties, TiesOf(rest[0])).value);
    }
  }

  /** An import of new deeds is planned. */
  lemma NewDeedsPlan(i: Import) returns (p: Staged)
    requires Ready(i)
    ensures PlanFiles(i.keys, i.disk, i.whole) == Ok(p)
  {
    hide Log.Entries, LoggedById, PlanDeeds, PlanLinks, OneToOne, LinksTravel, NewTie, GoodImport, CarriedById;
    var logged := LoggedById(Log.Entries(i.disk.log).value, map[]).value;
    Distinguished(i);
    forall c | c in i.whole.carried
      ensures c.deed.id !in logged
    {
      NotLogged(i.disk, logged, c.deed.id);
    }
    DeedsLand(i, logged, i.whole.carried, Staged([], [], 0), {});
    var mid := PlanDeeds(i.keys, i.disk.files, logged, i.whole, i.whole.carried, Staged([], [], 0)).value;
    LinksPlan(i, mid);
    p := PlanFiles(i.keys, i.disk, i.whole).value;
  }

  lemma Distinguished(i: Import)
    requires GoodImport(i)
    ensures DistinctIds(i.whole.carried)
  {
  }

  lemma NotLogged(disk: Disk, logged: ById, id: bytes)
    requires Strange(disk, id) && LoggedById(Log.Entries(disk.log).value, map[]) == Ok(logged)
    ensures id !in logged
  {
    hide Log.Entries, LoggedById, NamesNot;
    if id in logged {
      Resuming.LoggedFrom(Log.Entries(disk.log).value, map[], id);
      assert false;
    }
  }
}
