/** What an import plans, whatever the store: no file over one that is there. */
module Planned {
  import opened Prelude
  import opened Text
  import opened Carrying
  import opened Deeds
  import opened Order
  import opened Planning
  import opened Receipt
  import opened Sidecars
  import opened Store
  import Address
  import Hex
  import Issuing
  import Log
  import Wire

  /** An import: the store's keys and disk, and the bag as it was read. */
  datatype Import = Import(keys: Issuing.Keys, disk: Disk, whole: Whole) {
    function Cargo(): Carriage {
      CarriedById(whole.carried)
    }
  }

  // ---------- what reading a bag establishes ----------

  ghost predicate GoodLink(t: Link) {
    IsId(t.id) && Address.HexOf(t.digest).Some?
  }

  ghost predicate GoodCarried(i: Import, c: Carried) {
    && c.deed.id == c.receipt.id && IsId(c.deed.id) && Readable(c.deed)
    && c.receipt.digest == DeedDigest(i.keys.sha, c.deed) && c.receipt.time < U64
    && IsUtf8(c.proof) && ParseReceipt(c.proof) == Ok(c.receipt)
    && (c.supersedes.Some? ==> GoodLink(c.supersedes.value))
    && (c.successor.Some? ==> GoodLink(c.successor.value))
    && (i.whole.head.Some? ==> ProofNames(i.whole.head.value, c.receipt))
  }

  ghost predicate DistinctIds(cs: seq<Carried>) {
    forall a, b :: 0 <= a < b < |cs| ==> cs[a].deed.id != cs[b].deed.id
  }

  ghost predicate ProductsHashed(sha: Sha, products: map<bytes, bytes>) {
    forall h :: h in products ==> Hex.Render(sha(products[h])) == h
  }

  ghost predicate GoodImport(i: Import) {
    && (forall c :: c in i.whole.carried ==> GoodCarried(i, c))
    && DistinctIds(i.whole.carried)
    && ProductsHashed(i.keys.sha, i.whole.products)
    && (i.whole.head.Some? ==> IsUtf8(i.whole.head.value))
  }

  lemma {:induction false} CargoExact(cs: seq<Carried>)
    requires DistinctIds(cs)
    ensures forall c :: c in cs ==> c.deed.id in CarriedById(cs) && CarriedById(cs)[c.deed.id] == c
    ensures forall id :: id in CarriedById(cs) ==> CarriedById(cs)[id] in cs && CarriedById(cs)[id].deed.id == id
    decreases |cs|
  {
    if cs != [] {
      var n := |cs| - 1;
      CargoExact(cs[..n]);
      forall c | c in cs
        ensures c.deed.id in CarriedById(cs) && CarriedById(cs)[c.deed.id] == c
      {
        if c != cs[n] {
          var a :| 0 <= a < |cs| && cs[a] == c;
          assert cs[..n][a] == c;
        }
      }
    }
  }

  // ---------- what a plan may hold ----------

  /** The bytes of a bound sidecar, for a prior whose digest the bag agrees on. */
  ghost predicate Binds(i: Import, content: bytes, prior: Link) {
    && content == BoundLines(prior.id, prior.digest) && GoodLink(prior)
    && (prior.id in i.Cargo() ==> i.Cargo()[prior.id].receipt.digest == prior.digest)
  }

  ghost predicate MayBind(i: Import, w: Write) {
    exists t: Link :: Binds(i, w.content, t) && (w.name in i.disk.files ==> IdOnly(i.disk.files[w.name], t.id))
  }

  /** Only a link sidecar is ever written over, and only to complete it. */
  ghost predicate Allowed(i: Import, w: Write) {
    && (w.name in i.disk.files ==> w.name.Supersedes?)
    && match w.name
       case Cap(s) => s in i.Cargo() && w.content == CapFrame(i.Cargo()[s].deed)
       case Evid(s) => s in i.Cargo()
       case Host(s) => s in i.Cargo() && i.Cargo()[s].host == Some(w.content)
       case Tomb(_) => false
       case Successor(_) => true
       case Supersedes(_) => MayBind(i, w)
       case Proof(s) => s in i.Cargo() && w.content == i.Cargo()[s].proof
       case Kept(s) => i.whole.head == Some(w.content)
       case Product(h) => Hex.Render(i.keys.sha(w.content)) == h
  }

  ghost predicate AllAllowed(i: Import, files: seq<Write>) {
    Distinct(files) && forall w :: w in files ==> Allowed(i, w)
  }

  ghost predicate Grown(p: Staged, q: Staged) {
    p.files <= q.files && p.log <= q.log
  }

  lemma FindFails(files: seq<Write>, name: FileName)
    ensures Find(files, name) == |files| <==> forall w :: w in files ==> w.name != name
  {
    if Find(files, name) < |files| {
      assert files[Find(files, name)] in files;
    }
  }

  lemma OneMore(i: Import, files: seq<Write>, w: Write)
    requires AllAllowed(i, files) && Allowed(i, w) && Find(files, w.name) == |files|
    ensures AllAllowed(i, files + [w])
  {
    hide Allowed;
    FindFails(files, w.name);
  }

  /** Putting a file keeps the plan allowed and only adds to it. */
  lemma PutAllowed(i: Import, p: Staged, name: FileName, content: bytes)
    requires AllAllowed(i, p.files) && (name !in i.disk.files ==> Allowed(i, Write(name, content)))
    requires Put(i.disk.files, p, name, content).Ok?
    ensures var q := Put(i.disk.files, p, name, content).value;
            AllAllowed(i, q.files) && Grown(p, q) && q.log == p.log
            && forall w :: w in q.files ==> w in p.files || w.name == name
  {
    hide Allowed, AllAllowed;
    if Find(p.files, name) == |p.files| && name !in i.disk.files {
      OneMore(i, p.files, Write(name, content));
    }
  }

  ghost predicate NoLinks(files: seq<Write>) {
    forall w :: w in files ==> !w.name.Supersedes? && !w.name.Successor?
  }

  /** What one step of planning a deed keeps. */
  ghost predicate StepKept(i: Import, p: Staged, q: Staged) {
    && AllAllowed(i, q.files) && Grown(p, q)
    && forall w :: w in q.files ==> w in p.files || (!w.name.Supersedes? && !w.name.Successor?)
  }

  lemma KeptTwice(i: Import, p: Staged, q: Staged, r: Staged)
    requires StepKept(i, p, q) && StepKept(i, q, r)
    ensures StepKept(i, p, r)
  {
    hide AllAllowed;
  }

  lemma KeptSame(i: Import, p: Staged)
    requires AllAllowed(i, p.files)
    ensures StepKept(i, p, p)
  {
  }

  lemma PutKept(i: Import, p: Staged, name: FileName, content: bytes)
    requires AllAllowed(i, p.files) && AllowedIfAbsent(i, name, content) && !name.Supersedes? && !name.Successor?
    requires Put(i.disk.files, p, name, content).Ok?
    ensures StepKept(i, p, Put(i.disk.files, p, name, content).value)
    ensures Put(i.disk.files, p, name, content).value.log == p.log
  {
    hide Put, Allowed, AllAllowed;
    PutAllowed(i, p, name, content);
  }

  ghost predicate AllowedIfAbsent(i: Import, name: FileName, content: bytes) {
    name !in i.disk.files ==> Allowed(i, Write(name, content))
  }

  lemma CapKept(i: Import, c: Carried, p: Staged)
    requires AllAllowed(i, p.files) && c.deed.id in i.Cargo() && i.Cargo()[c.deed.id] == c
    requires PlanCap(i.disk.files, c, p).Ok?
    ensures StepKept(i, p, PlanCap(i.disk.files, c, p).value) && PlanCap(i.disk.files, c, p).value.log == p.log
  {
    hide Put, Get, CapFrame, AllAllowed, CarriedById;
    if Cap(c.deed.id) in i.disk.files {
      KeptSame(i, p);
    } else {
      PutKept(i, p, Cap(c.deed.id), CapFrame(c.deed));
      SameFiles(i, p, Put(i.disk.files, p, Cap(c.deed.id), CapFrame(c.deed)).value, PlanCap(i.disk.files, c, p).value);
    }
  }

  lemma SameFiles(i: Import, p: Staged, q: Staged, r: Staged)
    requires StepKept(i, p, q) && r.files == q.files && r.log == q.log
    ensures StepKept(i, p, r)
  {
    hide AllAllowed;
  }

  lemma EvidenceKept(i: Import, c: Carried, p: Staged)
    requires AllAllowed(i, p.files) && c.deed.id in i.Cargo()
    requires PlanEvidence(i.keys, i.disk.files, c, p).Ok?
    ensures StepKept(i, p, PlanEvidence(i.keys, i.disk.files, c, p).value)
    ensures PlanEvidence(i.keys, i.disk.files, c, p).value.log == p.log
  {
    hide Put, EvidenceFrame, AllAllowed, CarriedById, Issuing.EvidenceAt;
    PutKept(i, p, Evid(c.deed.id), EvidenceFrame(c.deed, Issuing.EvidenceAt(i.keys, c.deed, c.receipt.time)));
  }

  lemma HostKept(i: Import, c: Carried, p: Staged)
    requires AllAllowed(i, p.files) && c.deed.id in i.Cargo() && i.Cargo()[c.deed.id] == c
    requires PlanHost(i.keys, i.disk.files, c, p).Ok?
    ensures StepKept(i, p, PlanHost(i.keys, i.disk.files, c, p).value)
    ensures PlanHost(i.keys, i.disk.files, c, p).value.log == p.log
  {
    hide Put, AllAllowed, CarriedById, Wire.PutDeed;
    if c.host.Some? {
      PutKept(i, p, Host(c.deed.id), c.host.value);
    } else {
      KeptSame(i, p);
    }
  }

  lemma ProductKept(i: Import, path: bytes, p: Staged)
    requires AllAllowed(i, p.files) && ProductsHashed(i.keys.sha, i.whole.products)
    requires PlanProduct(i.keys.sha, i.disk.files, i.whole.products, path, p).Ok?
    ensures StepKept(i, p, PlanProduct(i.keys.sha, i.disk.files, i.whole.products, path, p).value)
    ensures PlanProduct(i.keys.sha, i.disk.files, i.whole.products, path, p).value.log == p.log
  {
    hide Put, AllAllowed, CarriedById, Hex.Render, Address.HexOf;
    var hex := Address.HexOf(path).value;
    if Product(hex) in i.disk.files {
      KeptSame(i, p);
    } else {
      PutKept(i, p, Product(hex), i.whole.products[hex]);
    }
  }

  lemma {:induction false} ProductsKept(i: Import, paths: seq<bytes>, p: Staged)
    requires AllAllowed(i, p.files) && ProductsHashed(i.keys.sha, i.whole.products)
    requires PlanProducts(i.keys.sha, i.disk.files, i.whole.products, paths, p).Ok?
    ensures StepKept(i, p, PlanProducts(i.keys.sha, i.disk.files, i.whole.products, paths, p).value)
    ensures PlanProducts(i.keys.sha, i.disk.files, i.whole.products, paths, p).value.log == p.log
    decreases paths
  {
    hide PlanProduct, AllAllowed, ProductsHashed;
    if paths == [] {
      KeptSame(i, p);
    } else {
      var q := PlanProduct(i.keys.sha, i.disk.files, i.whole.products, paths[0], p).value;
      ProductKept(i, paths[0], p);
      ProductsKept(i, paths[1..], q);
      KeptTwice(i, p, q, PlanProducts(i.keys.sha, i.disk.files, i.whole.products, paths, p).value);
    }
  }

  lemma HeadKept(i: Import, id: bytes, p: Staged)
    requires AllAllowed(i, p.files) && i.whole.head.Some?
    requires Put(i.disk.files, p, Kept(id), i.whole.head.value).Ok?
    ensures StepKept(i, p, Put(i.disk.files, p, Kept(id), i.whole.head.value).value)
    ensures Put(i.disk.files, p, Kept(id), i.whole.head.value).value.log == p.log
  {
    hide Put, AllAllowed, CarriedById;
    PutKept(i, p, Kept(id), i.whole.head.value);
  }

  lemma ProofKept(i: Import, c: Carried, p: Staged)
    requires AllAllowed(i, p.files) && c.deed.id in i.Cargo() && i.Cargo()[c.deed.id] == c
    requires PlanProof(i.disk.files, i.whole.head, c, p).Ok?
    ensures StepKept(i, p, PlanProof(i.disk.files, i.whole.head, c, p).value)
    ensures PlanProof(i.disk.files, i.whole.head, c, p).value.log == p.log
  {
    hide Put, AllAllowed, CarriedById, KeptProof, ProofNames, IsUtf8, StepKept;
    var id := c.deed.id;
    KeptSame(i, p);
    if Proof(id) in i.disk.files {
      if Kept(id) !in i.disk.files && PlanProof(i.disk.files, i.whole.head, c, p) != Ok(p) {
        HeadKept(i, id, p);
      }
    } else {
      var q := Put(i.disk.files, p, Proof(id), c.proof).value;
      PutKept(i, p, Proof(id), c.proof);
      if i.whole.head.Some? {
        KeptAllowed(i, p, q);
        HeadKept(i, id, q);
        KeptTwice(i, p, q, PlanProof(i.disk.files, i.whole.head, c, p).value);
      }
    }
  }

  lemma KeptAllowed(i: Import, p: Staged, q: Staged)
    requires StepKept(i, p, q)
    ensures AllAllowed(i, q.files)
  {
  }

  // ---------- the log ----------

  /** Entries for carried deeds the log does not name. */
  ghost predicate LogAllowed(i: Import, logged: ById, e: Log.Entry) {
    && e.id !in logged && e.id in i.Cargo()
    && e == EntryFor(i.keys.sha, i.Cargo()[e.id].deed, i.Cargo()[e.id].receipt.time)
  }

  ghost predicate LogKept(i: Import, logged: ById, log: seq<Log.Entry>, cs: seq<Carried>) {
    && Once(log)
    && (forall e :: e in log ==> LogAllowed(i, logged, e))
    && forall e, c :: e in log && c in cs ==> e.id != c.deed.id
  }

  lemma EntryKept(i: Import, logged: ById, cs: seq<Carried>, p: Staged)
    requires cs != [] && DistinctIds(cs) && LogKept(i, logged, p.log, cs)
    requires cs[0].deed.id in i.Cargo() && i.Cargo()[cs[0].deed.id] == cs[0]
    requires PlanEntry(i.keys.sha, logged, cs[0], p).Ok?
    ensures var q := PlanEntry(i.keys.sha, logged, cs[0], p).value;
            q.files == p.files && p.log <= q.log && LogKept(i, logged, q.log, cs[1..])
  {
    hide CarriedById, DeedDigest;
    var q := PlanEntry(i.keys.sha, logged, cs[0], p).value;
    assert cs[0] in cs;
    assert forall c :: c in cs[1..] ==> c in cs && c.deed.id != cs[0].deed.id;
  }

  /** What planning one deed keeps. */
  ghost predicate DeedsKept(i: Import, logged: ById, p: Staged, q: Staged, cs: seq<Carried>) {
    StepKept(i, p, q) && LogKept(i, logged, q.log, cs)
  }

  lemma DeedKept(i: Import, logged: ById, cs: seq<Carried>, p: Staged)
    requires cs != [] && DistinctIds(cs) && AllAllowed(i, p.files) && LogKept(i, logged, p.log, cs)
    requires ProductsHashed(i.keys.sha, i.whole.products)
    requires cs[0].deed.id in i.Cargo() && i.Cargo()[cs[0].deed.id] == cs[0]
    requires PlanDeed(i.keys, i.disk.files, logged, i.whole, cs[0], p).Ok?
    ensures DeedsKept(i, logged, p, PlanDeed(i.keys, i.disk.files, logged, i.whole, cs[0], p).value, cs[1..])
  {
    hide PlanCap, CheckBound, PlanEntry, PlanEvidence, PlanHost, PlanProducts, PlanProof, AllAllowed, LogKept;
    hide DistinctIds, ProductsHashed;
    hide CarriedById;
    var c, disk := cs[0], i.disk.files;
    var p1 := PlanCap(disk, c, p).value;
    CapKept(i, c, p);
    var p2 := PlanEntry(i.keys.sha, logged, c, p1).value;
    EntryKept(i, logged, cs, p1);
    assert StepKept(i, p, p2);
    var p3 := PlanEvidence(i.keys, disk, c, p2).value;
    EvidenceKept(i, c, p2);
    KeptTwice(i, p, p2, p3);
    var p4 := PlanHost(i.keys, disk, c, p3).value;
    HostKept(i, c, p3);
    KeptTwice(i, p, p3, p4);
    var p5 := PlanProducts(i.keys.sha, disk, i.whole.products, c.deed.paths, p4).value;
    ProductsKept(i, c.deed.paths, p4);
    KeptTwice(i, p, p4, p5);
    ProofKept(i, c, p5);
    KeptTwice(i, p, p5, PlanProof(disk, i.whole.head, c, p5).value);
  }

  lemma {:induction false} AllDeedsKept(i: Import, logged: ById, cs: seq<Carried>, p: Staged)
    requires DistinctIds(cs) && AllAllowed(i, p.files) && LogKept(i, logged, p.log, cs)
    requires ProductsHashed(i.keys.sha, i.whole.products)
    requires forall c :: c in cs ==> c.deed.id in i.Cargo() && i.Cargo()[c.deed.id] == c
    requires PlanDeeds(i.keys, i.disk.files, logged, i.whole, cs, p).Ok?
    ensures DeedsKept(i, logged, p, PlanDeeds(i.keys, i.disk.files, logged, i.whole, cs, p).value, [])
    decreases cs
  {
    hide PlanDeed, AllAllowed, LogKept, DistinctIds, ProductsHashed, CarriedById;
    if cs == [] {
      KeptSame(i, p);
    } else {
      var q := PlanDeed(i.keys, i.disk.files, logged, i.whole, cs[0], p).value;
      DeedKept(i, logged, cs, p);
      RestDistinct(cs);
      KeptAllowed(i, p, q);
      AllDeedsKept(i, logged, cs[1..], q);
      KeptTwice(i, p, q, PlanDeeds(i.keys, i.disk.files, logged, i.whole, cs, p).value);
    }
  }

  lemma RestDistinct(cs: seq<Carried>)
    requires DistinctIds(cs) && cs != []
    ensures DistinctIds(cs[1..])
  {
  }
}
