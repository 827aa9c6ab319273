/** From one store to another: what a sound store exports, a store new to it
    imports, and then serves as the first one did. */
module Delivered {
  import opened Prelude
  import opened Text
  import opened Bag
  import opened Carrying
  import opened Crossing
  import opened Deeds
  import opened Exported
  import opened Exports
  import opened Graph
  import opened Order
  import opened Planned
  import opened Planning
  import opened Received
  import opened Receipt
  import opened Store
  import Address
  import Audit
  import Current
  import Handover
  import Importing
  import Issuing
  import Landing
  import Linked
  import Log
  import Minting
  import Recovery
  import Settling
  import Sidecars
  import SignedHead
  import Trail
  import Wire
  import WireProofs

  // ---------- what has to travel ----------

  /** The trail of every deed in the bag is in the bag, and so is its successor. */
  ghost predicate Travels(sha: Sha, files: Files, bag: Bag) {
    forall n :: n in bag.folders ==> Get(files, n).Ok? && DeedTravels(sha, files, bag, n)
  }

  ghost predicate DeedTravels(sha: Sha, files: Files, bag: Bag, n: bytes)
    requires Get(files, n).Ok?
  {
    && TrailIds(files, Get(files, n).value) <= bag.folders.Keys
    && (NextLink(sha, files, n).Ok? && NextLink(sha, files, n).value.Some? ==>
          NextLink(sha, files, n).value.value.id in bag.folders)
  }

  /** The links an export writes of one deed, each with the deed itself. */
  ghost function TiesFrom(sha: Sha, files: Files, n: bytes): seq<Tie>
    requires Get(files, n).Ok? && PriorLink(sha, files, n).Ok? && NextLink(sha, files, n).Ok?
  {
    var here := Link(n, DeedDigest(sha, Get(files, n).value));
    (if PriorLink(sha, files, n).value.Some? then [(PriorLink(sha, files, n).value.value, here)] else [])
    + (if NextLink(sha, files, n).value.Some? then [(here, NextLink(sha, files, n).value.value)] else [])
  }

  ghost predicate LinkOf(sha: Sha, files: Files, bag: Bag, t: Tie) {
    exists n :: && n in bag.folders && Get(files, n).Ok? && PriorLink(sha, files, n).Ok? && NextLink(sha, files, n).Ok?
                && t in TiesFrom(sha, files, n)
  }

  /** Among the links of the bag one deed supersedes each, and each one other. */
  ghost predicate LinksApart(sha: Sha, files: Files, bag: Bag) {
    && (forall t :: LinkOf(sha, files, bag, t) ==> t.0.id != t.1.id)
    && forall t, u :: LinkOf(sha, files, bag, t) && LinkOf(sha, files, bag, u) ==> SharesASide(t, u) ==> t == u
  }

  predicate SharesASide(t: Tie, u: Tie) {
    t.0.id == u.0.id || t.1.id == u.1.id
  }

  /** The receiving store knows nothing of the deeds, nor of those their links
      name, its log and shelf are in order, and its layout accepts each host
      sidecar. */
  ghost predicate Welcomes(keys: Issuing.Keys, from: Files, tree: LogTree, bag: Bag, to: Disk) {
    && Orderly(keys.sha, to)
    && (forall t :: LinkOf(keys.sha, from, bag, t) ==> NewTie(to, t))
    && forall n :: n in bag.folders ==> Strange(to, n) && Accepts(keys, from, tree, n)
  }

  ghost predicate Accepts(keys: Issuing.Keys, from: Files, tree: LogTree, n: bytes) {
    && Get(from, n).Ok? && TreeReceipt(tree, keys.sha, n).Ok?
    && keys.attests(Wire.DeedBytes(Get(from, n).value), TreeReceipt(tree, keys.sha, n).value.time,
                    Issuing.Lookup(from, Host(n))).Ok?
  }

  /** A bag as its receiver read it, of deeds one store exported. */
  ghost predicate ReadBack(keys: Issuing.Keys, files: Files, tree: LogTree, bag: Bag, whole: Whole) {
    && (forall c :: c in whole.carried ==>
          && c.receipt.id in bag.folders && c.receipt.id == c.deed.id
          && AsExported(keys.sha, files, tree, c.receipt.id, c)
          && c.receipt.digest == DeedDigest(keys.sha, c.deed))
    && (forall n :: n in bag.folders ==> exists c :: c in whole.carried && c.receipt.id == n)
    && forall c, p :: c in whole.carried && p in c.deed.paths ==>
         Address.HexOf(p).Some? && Address.HexOf(p).value in whole.products
  }

  // ---------- the products of every folder ----------

  lemma {:induction false} AllProducts(keys: Issuing.Keys, bag: Bag, names: seq<bytes>)
    requires NamesIn(names, bag.folders) && ReadFolders(keys, bag, names).Ok?
    ensures forall n, h :: n in names && h in bag.folders[n].products ==> h in ReadFolders(keys, bag, names).value.1
    decreases names
  {
    hide ReadFolder;
    if names != [] {
      AllProducts(keys, bag, names[1..]);
      assert forall n :: n in names <==> n == names[0] || n in names[1..];
    }
  }

  lemma ProductsTravel(keys: Issuing.Keys, bag: Bag, whole: Whole, c: Carried)
    requires ReadBag(keys, bag) == Ok(whole) && c in whole.carried
    ensures forall p :: p in c.deed.paths ==> Address.HexOf(p).Some? && Address.HexOf(p).value in whole.products
    ensures c.receipt.digest == DeedDigest(keys.sha, c.deed) && c.receipt.id == c.deed.id
  {
    hide ReadFolder, InOrder, Address.HexOf, DeedDigest;
    WholeFolders(keys, bag, whole);
    ReadFolderFacts(keys, c.receipt.id, bag.folders[c.receipt.id]);
    InOrderElements(bag.folders.Keys);
    AllProducts(keys, bag, Names(bag));
    assert c.receipt.id in Names(bag);
  }

  lemma BagReadBack(keys: Issuing.Keys, from: Disk, bag: Bag) returns (whole: Whole)
    requires ExportedBag(keys, from, bag) && (bag.head.Some? ==> IsUtf8(bag.head.value))
    ensures ReadBag(keys, bag) == Ok(whole) && whole.head == bag.head && Log.Entries(from.log).Ok?
    ensures ReadBack(keys, from.files, TreeOver(keys.sha, Log.Entries(from.log).value), bag, whole)
    ensures forall c :: c in whole.carried ==>
              HeadOf(c.receipt) == Handover.HeadOfLog(keys.sha, Log.Entries(from.log).value)
  {
    hide ReadBag, AsExported, Log.Entries, TreeOver, HeadOf, Handover.HeadOfLog, IsUtf8, Once, AllHeld, ExportReads;
    hide Address.HexOf, DeedDigest;
    whole := BagReads(keys, from, bag);
    forall c | c in whole.carried
      ensures c.receipt.digest == DeedDigest(keys.sha, c.deed) && c.receipt.id == c.deed.id
      ensures forall p :: p in c.deed.paths ==> Address.HexOf(p).Some? && Address.HexOf(p).value in whole.products
    {
      ProductsTravel(keys, bag, whole, c);
    }
  }

  // ---------- it is ready to be planned ----------

  lemma TiesAre(keys: Issuing.Keys, files: Files, tree: LogTree, bag: Bag, whole: Whole, t: Tie)
    requires ReadBack(keys, files, tree, bag, whole) && Tied(whole.carried, t)
    ensures LinkOf(keys.sha, files, bag, t)
  {
    hide Get, PriorLink, NextLink, TreeReceipt, TrailServed, DeedDigest, TrailIds, ReadAs, Address.HexOf;
    var c :| c in whole.carried && t in TiesOf(c);
    assert TiesOf(c) == TiesFrom(keys.sha, files, c.deed.id);
  }

  lemma TiesApart(keys: Issuing.Keys, files: Files, tree: LogTree, bag: Bag, whole: Whole)
    requires ReadBack(keys, files, tree, bag, whole) && LinksApart(keys.sha, files, bag)
    ensures OneToOne(whole.carried)
  {
    hide ReadBack, LinkOf, Tied;
    forall t | Tied(whole.carried, t)
      ensures LinkOf(keys.sha, files, bag, t)
    {
      TiesAre(keys, files, tree, bag, whole, t);
    }
  }

  /** A link an export names, it names by the digest the deed is held with. */
  lemma LinkHeld(sha: Sha, files: Files, id: bytes, t: Link)
    requires PriorLink(sha, files, id) == Ok(Some(t)) || NextLink(sha, files, id) == Ok(Some(t))
    requires Get(files, t.id).Ok?
    ensures t.digest == DeedDigest(sha, Get(files, t.id).value)
  {
    hide Get, CapDeed, DeedDigest, Current.NextTip, Sidecars.ReadSupersedes;
    ServedHeld(files, t.id);
    Audit.GetNames(files, t.id);
  }

  lemma LinkAgrees(keys: Issuing.Keys, files: Files, tree: LogTree, bag: Bag, whole: Whole, c: Carried, t: Link)
    requires ReadBack(keys, files, tree, bag, whole) && DistinctIds(whole.carried) && c in whole.carried
    requires c.supersedes == Some(t) || c.successor == Some(t)
    ensures RequireCarried(t, CarriedById(whole.carried)).Ok?
  {
    hide Get, CapDeed, TreeReceipt, TrailServed, DeedDigest, TrailIds, ReadAs, Address.HexOf, CarriedById, DistinctIds;
    hide PriorLink, NextLink;
    CargoExact(whole.carried);
    var cargo := CarriedById(whole.carried);
    if t.id in cargo {
      assert AsExported(keys.sha, files, tree, c.receipt.id, c);
      assert AsExported(keys.sha, files, tree, cargo[t.id].receipt.id, cargo[t.id]);
      LinkHeld(keys.sha, files, c.receipt.id, t);
    }
  }

  lemma SuccessorGoes(keys: Issuing.Keys, files: Files, tree: LogTree, bag: Bag, whole: Whole, c: Carried)
    requires ReadBack(keys, files, tree, bag, whole) && DistinctIds(whole.carried) && Travels(keys.sha, files, bag)
    requires c in whole.carried && c.successor.Some?
    ensures c.successor.value.id in CarriedById(whole.carried)
  {
    hide Get, TreeReceipt, TrailServed, DeedDigest, TrailIds, ReadAs, Address.HexOf, CarriedById, DistinctIds;
    hide PriorLink, NextLink;
    CargoExact(whole.carried);
    assert DeedTravels(keys.sha, files, bag, c.receipt.id);
    var d :| d in whole.carried && d.receipt.id == c.successor.value.id;
  }

  lemma LinksGo(keys: Issuing.Keys, files: Files, tree: LogTree, bag: Bag, whole: Whole, to: Disk)
    requires ReadBack(keys, files, tree, bag, whole) && DistinctIds(whole.carried) && Travels(keys.sha, files, bag)
    ensures LinksTravel(Import(keys, to, whole))
  {
    hide ReadBack, CarriedById, DistinctIds, Travels, RequireCarried;
    forall c | c in whole.carried
      ensures c.supersedes.Some? ==> RequireCarried(c.supersedes.value, CarriedById(whole.carried)).Ok?
      ensures c.successor.Some? ==>
                && c.successor.value.id in CarriedById(whole.carried)
                && RequireCarried(c.successor.value, CarriedById(whole.carried)).Ok?
    {
      if c.supersedes.Some? {
        LinkAgrees(keys, files, tree, bag, whole, c, c.supersedes.value);
      }
      if c.successor.Some? {
        LinkAgrees(keys, files, tree, bag, whole, c, c.successor.value);
        SuccessorGoes(keys, files, tree, bag, whole, c);
      }
    }
  }

  lemma AllReady(keys: Issuing.Keys, files: Files, tree: LogTree, bag: Bag, whole: Whole, to: Disk)
    requires ReadBack(keys, files, tree, bag, whole) && GoodImport(Import(keys, to, whole))
    requires Travels(keys.sha, files, bag) && LinksApart(keys.sha, files, bag) && Welcomes(keys, files, tree, bag, to)
    ensures Ready(Import(keys, to, whole))
  {
    hide AsExported, OneToOne, LinksTravel, Orderly, Strange, NewTie, LinkOf, Tied, GoodCarried, Travels, LinksApart;
    hide DeedDigest, Address.HexOf, ProductsHashed, IsUtf8;
    TiesApart(keys, files, tree, bag, whole);
    LinksGo(keys, files, tree, bag, whole, to);
    forall t | Tied(whole.carried, t)
      ensures NewTie(to, t)
    {
      TiesAre(keys, files, tree, bag, whole, t);
    }
    forall c | c in whole.carried
      ensures Lands(Import(keys, to, whole), c)
    {
      AcceptedHere(keys, files, tree, c);
    }
  }

  lemma AcceptedHere(keys: Issuing.Keys, files: Files, tree: LogTree, c: Carried)
    requires AsExported(keys.sha, files, tree, c.receipt.id, c) && Accepts(keys, files, tree, c.receipt.id)
    ensures keys.attests(Wire.DeedBytes(c.deed), c.receipt.time, c.host).Ok?
  {
    hide Get, TreeReceipt, TrailServed, TrailIds, ReadAs, PriorLink, NextLink, Wire.PutDeed;
  }

  // ---------- the trails ----------

  /** What the import finds of a deed in a trail that travelled is what the first
      store serves. */
  lemma FoundInBag(i: Import, files: Files, tree: LogTree, bag: Bag, c: Carried, id: bytes)
    requires ReadBack(i.keys, files, tree, bag, i.whole) && DistinctIds(i.whole.carried) && c in i.whole.carried
    requires id in bag.folders
    ensures id in i.Cargo() && FoundSource(i.keys.sha, i.disk.files, i.Cargo(), c, id) == Get(files, id)
  {
    hide Get, TreeReceipt, TrailServed, TrailIds, PriorLink, NextLink, DeedDigest, Address.HexOf, CarriedById;
    hide DistinctIds;
    CargoExact(i.whole.carried);
    var d :| d in i.whole.carried && d.receipt.id == id;
    assert AsExported(i.keys.sha, files, tree, c.receipt.id, c);
    assert AsExported(i.keys.sha, files, tree, d.receipt.id, d);
  }

  /** The trail of an exported deed is in the bag. */
  lemma TrailCarried(sha: Sha, files: Files, tree: LogTree, bag: Bag, c: Carried, z: bytes)
    requires AsExported(sha, files, tree, c.receipt.id, c) && DeedTravels(sha, files, bag, c.receipt.id)
    requires Reaches(Trail.Sources(c.deed, Trail.ServedBy(files)), c.deed.id, z) && z != c.deed.id
    ensures z in bag.folders && Get(files, z).Ok?
  {
    hide Get, TreeReceipt, TrailIds, PriorLink, NextLink, Reaches, DeedSources, ReadAs;
    TrailIdsExact(files, c.deed);
    assert z in TrailIds(files, c.deed);
  }

  lemma TrailInBag(i: Import, files: Files, tree: LogTree, bag: Bag, c: Carried)
    requires ReadBack(i.keys, files, tree, bag, i.whole) && DistinctIds(i.whole.carried) && c in i.whole.carried
    requires Travels(i.keys.sha, files, bag)
    ensures TrailPasses(i.keys, i.disk.files, i.Cargo(), c)
  {
    hide AsExported, DeedTravels, DeedDigest, Address.HexOf, CarriedById, DistinctIds, FoundSource, Reaches;
    hide DeedSources, Issuing.EvidenceLocal, Get;
    assert AsExported(i.keys.sha, files, tree, c.receipt.id, c);
    assert DeedTravels(i.keys.sha, files, bag, c.receipt.id);
    var a := Trail.Sources(c.deed, SourceOf(i.keys.sha, i.disk.files, i.Cargo(), c));
    var b := Trail.Sources(c.deed, Trail.ServedBy(files));
    forall z | Reaches(b, c.deed.id, z)
      ensures a(z) == b(z)
      ensures z != c.deed.id ==> z in i.Cargo() && FoundSource(i.keys.sha, i.disk.files, i.Cargo(), c, z).Ok?
    {
      if z != c.deed.id {
        TrailCarried(i.keys.sha, files, tree, bag, c, z);
        FoundInBag(i, files, tree, bag, c, z);
      }
    }
    forall z | Reaches(a, c.deed.id, z)
      ensures Reaches(b, c.deed.id, z)
    {
      Settling.ReachesPath(a, b, c.deed.id, z);
    }
  }

  // ---------- links of a store whose chains are kept ----------

  /** A link of the store's chain, its digests those the deeds are held with. */
  ghost predicate InChain(sha: Sha, files: Files, next: Current.Chain, t: Tie) {
    && t.0.id in next && next[t.0.id] == t.1.id
    && DigestInStore(sha, files, t.0.id) == Ok(t.0.digest) && DigestInStore(sha, files, t.1.id) == Ok(t.1.digest)
  }

  lemma PriorInChain(sha: Sha, disk: Disk, next: Current.Chain, n: bytes)
    requires Current.Chained(sha, disk, next) && Get(disk.files, n).Ok?
    requires PriorLink(sha, disk.files, n).Ok? && PriorLink(sha, disk.files, n).value.Some?
    ensures InChain(sha, disk.files, next, (PriorLink(sha, disk.files, n).value.value,
                                            Link(n, DeedDigest(sha, Get(disk.files, n).value))))
  {
    hide Sidecars.ReadSupersedes, Log.Entries, DeedDigest, Sidecars.NameLine, IsId, Once, AllHeld, CapDeed, Get;
    hide Current.AllLogged, Current.Earlier, Sidecars.ReadSuccessor;
    var p :| p in next && next[p] == n;
    assert Current.LinkKept(disk.files, Log.Entries(disk.log).value, p, n);
    Sidecars.NameLineReads(p);
    ServedHeld(disk.files, n);
  }

  lemma NextInChain(sha: Sha, disk: Disk, next: Current.Chain, n: bytes)
    requires Current.Chained(sha, disk, next) && Get(disk.files, n).Ok?
    requires NextLink(sha, disk.files, n).Ok? && NextLink(sha, disk.files, n).value.Some?
    ensures InChain(sha, disk.files, next, (Link(n, DeedDigest(sha, Get(disk.files, n).value)),
                                            NextLink(sha, disk.files, n).value.value))
  {
    hide Current.Chained, Current.NextTip, DeedDigest, CapDeed, Get;
    Current.ChainedTip(sha, disk, next, n);
    ServedHeld(disk.files, n);
  }

  lemma LinkInChain(sha: Sha, disk: Disk, next: Current.Chain, bag: Bag, t: Tie)
    requires Current.Chained(sha, disk, next) && LinkOf(sha, disk.files, bag, t)
    ensures InChain(sha, disk.files, next, t)
  {
    hide Current.Chained, Get, PriorLink, NextLink, DeedDigest, InChain;
    var n :| && n in bag.folders && Get(disk.files, n).Ok? && PriorLink(sha, disk.files, n).Ok?
             && NextLink(sha, disk.files, n).Ok? && t in TiesFrom(sha, disk.files, n);
    if PriorLink(sha, disk.files, n).value.Some? {
      PriorInChain(sha, disk, next, n);
    }
    if NextLink(sha, disk.files, n).value.Some? {
      NextInChain(sha, disk, next, n);
    }
  }

  /** No deed is its own successor, and none succeeds two. */
  lemma ChainApart(sha: Sha, disk: Disk, next: Current.Chain, p: bytes, q: bytes)
    requires Current.Chained(sha, disk, next) && p in next && q in next
    ensures next[p] != p && (next[p] == next[q] ==> p == q)
  {
    hide Log.Entries, Sidecars.NameLine, IsId, Current.AllLogged, Current.Earlier, Once, AllHeld;
    var entries := Log.Entries(disk.log).value;
    assert Current.LinkKept(disk.files, entries, p, next[p]);
    assert Current.LinkKept(disk.files, entries, q, next[q]);
    Current.NotBeforeItself(entries, p);
    Sidecars.NameLineReads(p);
    Sidecars.NameLineReads(q);
  }

  /** Whatever a store whose chains are kept exports, its links are one to one. */
  lemma ChainedApart(sha: Sha, disk: Disk, next: Current.Chain, bag: Bag)
    requires Current.Chained(sha, disk, next)
    ensures LinksApart(sha, disk.files, bag)
  {
    hide Current.Chained, LinkOf, DigestInStore;
    forall t, u | LinkOf(sha, disk.files, bag, t) && LinkOf(sha, disk.files, bag, u)
      ensures t.0.id != t.1.id && (SharesASide(t, u) ==> t == u)
    {
      LinkInChain(sha, disk, next, bag, t);
      LinkInChain(sha, disk, next, bag, u);
      ChainApart(sha, disk, next, t.0.id, u.0.id);
    }
  }

  // ---------- from one store to another ----------

  /** Each deed's octets fit the frame its cap will be kept in. */
  predicate Framed(bag: Bag) {
    forall n :: n in bag.folders && bag.folders[n].deed.Some? ==> |bag.folders[n].deed.value| + 1 < Wire.U32
  }

  lemma ExportClear(keys: Issuing.Keys, from: Disk, bag: Bag)
    requires ExportedBag(keys, from, bag) && Framed(bag)
    ensures Importing.Clear(keys.sha, bag)
  {
    hide Log.Entries, TreeOver, Once, AllHeld, Wire.DeedFromBytes, Wire.DeedBytes, Get, CapDeed, Readily;
    hide PriorLink, NextLink, TreeReceipt, TrailServed, WireProofs.Good;
    forall n | n in bag.folders
      ensures Importing.ClearFolder(keys.sha, bag.folders[n])
    {
      assert ExportReads(keys, from.files, TreeOver(keys.sha, Log.Entries(from.log).value), bag, n);
      ServedHeld(from.files, n);
      CapGood(from.files, n);
    }
  }

  /** What a sound store exports is admitted and planned by any store that is new
      to its deeds and accepts their sidecars, when trails and successors travel
      and the links are one to one. The keys are the receiver's own; of the
      exporter's only the hash is the same. */
  lemma ExportImports(
    keys: Issuing.Keys, verify: SignedHead.Verify, accept: set<Digest>, allow: bool, from: Disk, bag: Bag, to: Disk)
    returns (checked: Handover.Handover, whole: Whole, p: Staged)
    requires ExportedBag(keys, from, bag) && LineStands(Importing.CryptoOf(keys, verify), from, bag) && Framed(bag)
    requires allow || Signed(bag, accept)
    requires Travels(keys.sha, from.files, bag) && LinksApart(keys.sha, from.files, bag)
    requires Welcomes(keys, from.files, TreeOver(keys.sha, Log.Entries(from.log).value), bag, to)
    ensures Importing.Admitted(keys, verify, accept, allow, bag, bag, checked, whole)
    ensures Plans(keys, to, whole, p) && GoodImport(Import(keys, to, whole))
    ensures ReadBack(keys, from.files, TreeOver(keys.sha, Log.Entries(from.log).value), bag, whole)
  {
    hide Travels, LinksApart, Welcomes, LineStands, ReadBag, Handover.Check, Handover.HeadOfLog, Framed;
    hide Log.Entries, TreeOver, Importing.Clear, ReadBack, HeadOf, Importing.Admitted, GoodImport, Ready, ExportedBag;
    hide PlanFiles, IsUtf8, TrailPasses, Sound;
    var c := Importing.CryptoOf(keys, verify);
    ExportClear(keys, from, bag);
    HeadIsText(c, from, bag);
    AllExported(keys, from, bag);
    CheckTold(c, from, bag, accept);
    checked := Handover.Check(c, bag, accept).value;
    whole := BagReadBack(keys, from, bag);
    BagAdmitted(keys, verify, accept, allow, from, bag, checked, whole);
    Importing.AdmittedGood(keys, verify, accept, allow, bag, bag, checked, whole, to);
    var i := Import(keys, to, whole);
    AllReady(keys, from.files, TreeOver(keys.sha, Log.Entries(from.log).value), bag, whole, to);
    p := NewDeedsPlan(i);
    Distinguished(i);
    forall x | x in whole.carried
      ensures TrailPasses(keys, to.files, i.Cargo(), x)
    {
      TrailInBag(i, from.files, TreeOver(keys.sha, Log.Entries(from.log).value), bag, x);
    }
  }

  /** Its head line is signed by a signer the receiver accepts. */
  predicate Signed(bag: Bag, accept: set<Digest>) {
    var line := Handover.ReadHeadLine(bag);
    line.Ok? && line.value.Some? && line.value.value.signer in accept
  }

  /** The frame each deed's evidence will be kept in can carry it. */
  ghost predicate EvidenceFits(keys: Issuing.Keys, files: Files, tree: LogTree, bag: Bag) {
    forall n :: n in bag.folders && Get(files, n).Ok? && TreeReceipt(tree, keys.sha, n).Ok? ==>
                  Settling.FrameFits(keys, Get(files, n).value, TreeReceipt(tree, keys.sha, n).value.time)
  }

  /** Once such an import is done, the store serves every deed of the bag as the
      first store did, and the evidence of its whole trail holds there. */
  lemma ExportArrives(keys: Issuing.Keys, from: Disk, tree: LogTree, bag: Bag, whole: Whole, to: Disk, p: Staged)
    requires ReadBack(keys, from.files, tree, bag, whole) && Plans(keys, to, whole, p)
    requires GoodImport(Import(keys, to, whole)) && Welcomes(keys, from.files, tree, bag, to)
    requires EvidenceFits(keys, from.files, tree, bag)
    ensures forall n :: n in bag.folders ==>
              && Get(from.files, n).Ok?
              && Settling.Evidenced(keys, Written(to.files, p.files), Get(from.files, n).value)
  {
    hide PlanFiles, Plans, GoodImport, Written, Settling.Evidenced, Strange, Orderly, NewTie, LinkOf, Accepts;
    hide DeedDigest, Address.HexOf, ReadAs, Get, TreeReceipt, PriorLink, NextLink, TrailServed, TrailIds;
    hide Settling.FrameFits;
    var i := Import(keys, to, whole);
    forall c | c in whole.carried
      ensures Settling.FrameCarries(keys, c) && Cap(c.deed.id) !in to.files
    {
      assert AsExported(keys.sha, from.files, tree, c.receipt.id, c);
      StrangeFiles(to, c.deed.id);
    }
    Settling.AlikeAreEvidenced(i, p);
    forall n | n in bag.folders
      ensures Get(from.files, n).Ok? && Settling.Evidenced(keys, Written(to.files, p.files), Get(from.files, n).value)
    {
      var c :| c in whole.carried && c.receipt.id == n;
      assert AsExported(keys.sha, from.files, tree, n, c);
    }
  }
}
