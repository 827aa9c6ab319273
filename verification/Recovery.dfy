/** An import that stopped, asked for again: planning over what the stopped one
    left plans exactly what is still to be done. */
module Recovery {
  import opened Prelude
  import opened Text
  import opened Carrying
  import opened Deeds
  import opened Linked
  import opened Order
  import opened Planned
  import opened Planning
  import opened Receipt
  import opened Sidecars
  import opened Store
  import Address
  import Current
  import Frames
  import Hex
  import Issuing
  import Log
  import Paths
  import SignedHead
  import Wire

  /** An import whose plan was carried out as far as `k` files and `j` entries. */
  datatype Stop = Stop(i: Import, final: Staged, k: nat, j: nat)

  ghost predicate Stopped(s: Stop) {
    && s.k <= |s.final.files| && s.j <= |s.final.log|
    && AllAllowed(s.i, s.final.files) && GoodImport(s.i)
  }

  /** The files the stop left. */
  function Now(s: Stop): Files
    requires s.k <= |s.final.files|
  {
    Written(s.i.disk.files, s.final.files[..s.k])
  }

  function After<T>(xs: seq<T>, n: nat): seq<T> {
    if n <= |xs| then xs[n..] else []
  }

  /** `q` is what is left of `p`, which is the beginning of the final plan. */
  ghost predicate Left(s: Stop, p: Staged, q: Staged) {
    && p.files <= s.final.files && p.log <= s.final.log
    && q.files == After(p.files, s.k) && q.log == After(p.log, s.j)
  }

  ghost predicate Follows(s: Stop, p: Staged, r: Result<Staged>) {
    r.Ok? && Left(s, p, r.value)
  }

  // ---------- the files a stop leaves ----------

  lemma AllowedFacts(i: Import, files: seq<Write>)
    requires AllAllowed(i, files)
    ensures Distinct(files) && forall w :: w in files ==> Allowed(i, w)
  {
  }

  lemma NowWritten(s: Stop, n: nat)
    requires Stopped(s) && n < s.k
    ensures s.final.files[n].name in Now(s) && Now(s)[s.final.files[n].name] == s.final.files[n].content
  {
    hide Allowed, GoodImport, Written;
    AllowedFacts(s.i, s.final.files);
    var part := s.final.files[..s.k];
    assert part[n] == s.final.files[n];
    WrittenAt(s.i.disk.files, part, n);
  }

  ghost predicate Same(a: Files, b: Files, name: FileName) {
    (name in a <==> name in b) && (name in a ==> a[name] == b[name])
  }

  lemma NowUnwritten(s: Stop, name: FileName)
    requires Stopped(s) && forall n :: 0 <= n < s.k ==> s.final.files[n].name != name
    ensures Same(s.i.disk.files, Now(s), name)
  {
    hide AllAllowed, GoodImport, Written;
    var part := s.final.files[..s.k];
    forall w | w in part
      ensures w.name != name
    {
      var n :| 0 <= n < |part| && part[n] == w;
      assert s.final.files[n] == w;
    }
    Unwritten(s.i.disk.files, part, name);
  }

  /** A file that was there and is no link sidecar is as it was. */
  lemma NowKeeps(s: Stop, name: FileName)
    requires Stopped(s) && name in s.i.disk.files && !name.Supersedes?
    ensures name in Now(s) && Now(s)[name] == s.i.disk.files[name]
  {
    hide GoodImport, Now;
    AllowedFacts(s.i, s.final.files);
    forall n | 0 <= n < s.k
      ensures s.final.files[n].name != name
    {
      assert s.final.files[n] in s.final.files;
      AllowedOver(s.i, s.final.files[n]);
    }
    NowUnwritten(s, name);
  }

  lemma AllowedOver(i: Import, w: Write)
    requires Allowed(i, w)
    ensures w.name in i.disk.files ==> w.name.Supersedes?
  {
  }

  /** A file that differs from what was there was planned, and is allowed. */
  lemma NowPlanned(s: Stop, name: FileName) returns (n: nat)
    requires Stopped(s) && !Same(s.i.disk.files, Now(s), name)
    ensures n < s.k && s.final.files[n].name == name && Allowed(s.i, s.final.files[n])
    ensures name in Now(s) && Now(s)[name] == s.final.files[n].content
  {
    hide GoodImport, Now, Allowed;
    AllowedFacts(s.i, s.final.files);
    if forall m :: 0 <= m < s.k ==> s.final.files[m].name != name {
      NowUnwritten(s, name);
      assert false;
    }
    n :| 0 <= n < s.k && s.final.files[n].name == name;
    NowWritten(s, n);
    assert s.final.files[n] in s.final.files;
  }

  // ---------- putting a file again ----------

  lemma FindAt(files: seq<Write>, n: nat)
    requires Distinct(files) && n < |files|
    ensures Find(files, files[n].name) == n
  {
    var m := Find(files, files[n].name);
    FindFails(files, files[n].name);
    assert files[n] in files;
  }

  lemma FindLeft(files: seq<Write>, k: nat, name: FileName)
    requires Distinct(files)
    ensures var n, rest := Find(files, name), After(files, k);
            if n < |files| && n >= k then Find(rest, name) == n - k < |rest| && rest[n - k] == files[n]
            else Find(rest, name) == |rest|
  {
    var n, rest := Find(files, name), After(files, k);
    FindFails(rest, name);
    if n < |files| && n >= k {
      assert rest[n - k] == files[n];
      assert Distinct(rest);
      FindAt(rest, n - k);
    } else {
      forall m | 0 <= m < |rest|
        ensures rest[m].name != name
      {
        assert rest[m] == files[k + m];
        if n < |files| {
          assert files[n].name != files[k + m].name;
        }
      }
    }
  }

  /** The final plan begins with one file more. */
  lemma AfterOneMore(s: Stop, p: Staged, w: Write)
    requires s.k <= |s.final.files| && p.files + [w] <= s.final.files
    ensures After(p.files + [w], s.k) == if |p.files| < s.k then After(p.files, s.k) else After(p.files, s.k) + [w]
    ensures s.final.files[|p.files|] == w
  {
    assert (p.files + [w])[|p.files|] == w;
  }

  lemma PrefixFacts(s: Stop, files: seq<Write>)
    requires Stopped(s) && files <= s.final.files
    ensures Distinct(files)
    ensures forall n :: 0 <= n < |files| ==> files[n] == s.final.files[n]
  {
    hide Allowed, GoodImport;
    AllowedFacts(s.i, s.final.files);
  }

  /** A put that planned a file before plans it again if it was not written yet,
      and finds it as it should be otherwise. */
  lemma PutFollows(s: Stop, p: Staged, q: Staged, name: FileName, content: bytes)
    requires Stopped(s) && Left(s, p, q) && (name.Supersedes? ==> name !in s.i.disk.files)
    requires Put(s.i.disk.files, p, name, content).Ok?
    requires Put(s.i.disk.files, p, name, content).value.files <= s.final.files
    ensures Follows(s, Put(s.i.disk.files, p, name, content).value, Put(Now(s), q, name, content))
    ensures name in Now(s) ==> Put(Now(s), q, name, content) == Ok(q)
  {
    hide Stopped, Now, Distinct;
    StoppedFacts(s);
    PrefixFacts(s, p.files);
    FindLeft(p.files, s.k, name);
    var n := Find(p.files, name);
    if n < |p.files| {
      if n < s.k {
        NowWritten(s, n);
      }
    } else if name in s.i.disk.files {
      NowKeeps(s, name);
    } else {
      var w := Write(name, content);
      AfterOneMore(s, p, w);
      if |p.files| < s.k {
        NowWritten(s, |p.files|);
      } else {
        NotYet(s, p.files, name);
      }
    }
  }

  lemma StoppedFacts(s: Stop)
    requires Stopped(s)
    ensures s.k <= |s.final.files| && s.j <= |s.final.log|
  {
  }

  /** A name planned next is on no file written so far. */
  lemma NotYet(s: Stop, files: seq<Write>, name: FileName)
    requires Stopped(s) && s.k <= |files| < |s.final.files| && files <= s.final.files
    requires s.final.files[|files|].name == name && name !in s.i.disk.files
    ensures name !in Now(s)
  {
    hide Allowed, GoodImport, Now;
    AllowedFacts(s.i, s.final.files);
    NowUnwritten(s, name);
  }

  // ---------- one deed again ----------

  lemma KeepsDeed(s: Stop, id: bytes)
    requires Stopped(s)
    ensures Tomb(id) in Now(s) <==> Tomb(id) in s.i.disk.files
    ensures Cap(id) in s.i.disk.files ==> Get(Now(s), id) == Get(s.i.disk.files, id)
  {
    hide Now, Stopped, Frames.DecodeResponse;
    StoppedFacts(s);
    if !Same(s.i.disk.files, Now(s), Tomb(id)) {
      var n := NowPlanned(s, Tomb(id));
      assert false;
    }
    if Cap(id) in s.i.disk.files {
      NowKeeps(s, Cap(id));
    }
  }

  /** A cap the stopped import wrote gives its deed back. */
  lemma WrittenCap(s: Stop, c: Carried)
    requires Stopped(s) && GoodCarried(s.i, c) && c.deed.id in s.i.Cargo() && s.i.Cargo()[c.deed.id] == c
    requires Cap(c.deed.id) !in s.i.disk.files && Cap(c.deed.id) in Now(s) && Tomb(c.deed.id) !in Now(s)
    ensures Get(Now(s), c.deed.id) == Ok(c.deed)
  {
    hide Now, Stopped, Frames.DecodeResponse, CapFrame, Readable, CarriedById;
    StoppedFacts(s);
    var n := NowPlanned(s, Cap(c.deed.id));
    CapReads(c.deed);
  }

  lemma CapFollows(s: Stop, c: Carried, p: Staged, q: Staged)
    requires Stopped(s) && Left(s, p, q) && GoodCarried(s.i, c)
    requires c.deed.id in s.i.Cargo() && s.i.Cargo()[c.deed.id] == c
    requires PlanCap(s.i.disk.files, c, p).Ok? && PlanCap(s.i.disk.files, c, p).value.files <= s.final.files
    ensures Follows(s, PlanCap(s.i.disk.files, c, p).value, PlanCap(Now(s), c, q))
  {
    hide Now, Stopped, Get, GoodCarried, CapFrame, CarriedById, Put;
    StoppedFacts(s);
    KeepsDeed(s, c.deed.id);
    if Cap(c.deed.id) in s.i.disk.files {
      NowKeeps(s, Cap(c.deed.id));
    } else {
      PutFollows(s, p, q, Cap(c.deed.id), CapFrame(c.deed));
      if Cap(c.deed.id) in Now(s) {
        WrittenCap(s, c);
        Paths.DeedIsSame(c.deed);
      }
    }
  }

  lemma EvidenceFollows(s: Stop, c: Carried, p: Staged, q: Staged)
    requires Stopped(s) && Left(s, p, q)
    requires PlanEvidence(s.i.keys, s.i.disk.files, c, p).Ok?
    requires PlanEvidence(s.i.keys, s.i.disk.files, c, p).value.files <= s.final.files
    ensures Follows(s, PlanEvidence(s.i.keys, s.i.disk.files, c, p).value, PlanEvidence(s.i.keys, Now(s), c, q))
  {
    hide Now, Stopped, Put, EvidenceFrame, Issuing.EvidenceAt;
    StoppedFacts(s);
    PutFollows(s, p, q, Evid(c.deed.id), EvidenceFrame(c.deed, Issuing.EvidenceAt(s.i.keys, c.deed, c.receipt.time)));
  }

  /** The host sidecar a carried deed is judged by is the same again. */
  lemma SameHost(s: Stop, c: Carried)
    requires Stopped(s) && c.deed.id in s.i.Cargo() && s.i.Cargo()[c.deed.id] == c
    ensures HostOf(Now(s), c) == HostOf(s.i.disk.files, c)
  {
    hide Now, Stopped, CarriedById;
    StoppedFacts(s);
    if c.host.None? && !Same(s.i.disk.files, Now(s), Host(c.deed.id)) {
      var n := NowPlanned(s, Host(c.deed.id));
      assert false;
    }
  }

  lemma HostFollows(s: Stop, c: Carried, p: Staged, q: Staged)
    requires Stopped(s) && Left(s, p, q) && c.deed.id in s.i.Cargo() && s.i.Cargo()[c.deed.id] == c
    requires PlanHost(s.i.keys, s.i.disk.files, c, p).Ok?
    requires PlanHost(s.i.keys, s.i.disk.files, c, p).value.files <= s.final.files
    ensures Follows(s, PlanHost(s.i.keys, s.i.disk.files, c, p).value, PlanHost(s.i.keys, Now(s), c, q))
  {
    hide Now, Stopped, Put, CarriedById, HostOf, Wire.PutDeed;
    StoppedFacts(s);
    SameHost(s, c);
    if c.host.Some? {
      PutFollows(s, p, q, Host(c.deed.id), c.host.value);
    }
  }

  lemma ProductFollows(s: Stop, path: bytes, p: Staged, q: Staged)
    requires Stopped(s) && Left(s, p, q)
    requires var r := PlanProduct(s.i.keys.sha, s.i.disk.files, s.i.whole.products, path, p);
             r.Ok? && r.value.files <= s.final.files
    ensures Follows(s, PlanProduct(s.i.keys.sha, s.i.disk.files, s.i.whole.products, path, p).value,
                    PlanProduct(s.i.keys.sha, Now(s), s.i.whole.products, path, q))
  {
    hide Now, Stopped, Put, Hex.Render, Address.HexOf;
    StoppedFacts(s);
    var hex := Address.HexOf(path).value;
    if Product(hex) in s.i.disk.files {
      NowKeeps(s, Product(hex));
    } else {
      PutFollows(s, p, q, Product(hex), s.i.whole.products[hex]);
      if Product(hex) in Now(s) {
        var n := NowPlanned(s, Product(hex));
      }
    }
  }

  lemma ProductGrows(i: Import, path: bytes, p: Staged)
    requires PlanProduct(i.keys.sha, i.disk.files, i.whole.products, path, p).Ok?
    ensures Grown(p, PlanProduct(i.keys.sha, i.disk.files, i.whole.products, path, p).value)
  {
    hide Hex.Render, Address.HexOf, Find;
  }

  lemma {:induction false} ProductsGrow(i: Import, paths: seq<bytes>, p: Staged)
    requires PlanProducts(i.keys.sha, i.disk.files, i.whole.products, paths, p).Ok?
    ensures Grown(p, PlanProducts(i.keys.sha, i.disk.files, i.whole.products, paths, p).value)
    decreases paths
  {
    hide PlanProduct;
    if paths != [] {
      ProductGrows(i, paths[0], p);
      ProductsGrow(i, paths[1..], PlanProduct(i.keys.sha, i.disk.files, i.whole.products, paths[0], p).value);
    }
  }

  lemma {:induction false} ProductsFollow(s: Stop, paths: seq<bytes>, p: Staged, q: Staged)
    requires Stopped(s) && Left(s, p, q)
    requires var r := PlanProducts(s.i.keys.sha, s.i.disk.files, s.i.whole.products, paths, p);
             r.Ok? && r.value.files <= s.final.files && r.value.log <= s.final.log
    ensures Follows(s, PlanProducts(s.i.keys.sha, s.i.disk.files, s.i.whole.products, paths, p).value,
                    PlanProducts(s.i.keys.sha, Now(s), s.i.whole.products, paths, q))
    decreases paths
  {
    hide Now, Stopped, PlanProduct;
    StoppedFacts(s);
    if paths != [] {
      var next := PlanProduct(s.i.keys.sha, s.i.disk.files, s.i.whole.products, paths[0], p).value;
      ProductsGrow(s.i, paths[1..], next);
      ProductFollows(s, paths[0], p, q);
      ProductsFollow(s, paths[1..], next, PlanProduct(s.i.keys.sha, Now(s), s.i.whole.products, paths[0], q).value);
    }
  }

  lemma ProofReads(s: Stop, c: Carried)
    requires GoodCarried(s.i, c)
    ensures KeptProof(c.proof, c.receipt) == Ok(c.receipt)
    ensures s.i.whole.head.Some? ==> ProofNames(s.i.whole.head.value, c.receipt)
  {
    hide IsUtf8, ParseReceipt, IsId, Readable, DeedDigest, GoodLink;
  }

  /** The kept head's file, when the stopped import wrote it or it was there. */
  lemma HeadFollows(s: Stop, c: Carried, kept: Receipt, p: Staged, q: Staged)
    requires Stopped(s) && Left(s, p, q) && s.i.whole.head.Some? && ProofNames(s.i.whole.head.value, kept)
    requires Put(s.i.disk.files, p, Kept(c.deed.id), s.i.whole.head.value).Ok?
    requires Put(s.i.disk.files, p, Kept(c.deed.id), s.i.whole.head.value).value.files <= s.final.files
    ensures Follows(s, Put(s.i.disk.files, p, Kept(c.deed.id), s.i.whole.head.value).value,
                    Put(Now(s), q, Kept(c.deed.id), s.i.whole.head.value))
    ensures Kept(c.deed.id) in Now(s) ==>
              && Put(Now(s), q, Kept(c.deed.id), s.i.whole.head.value) == Ok(q)
              && (Kept(c.deed.id) !in s.i.disk.files ==>
                    IsUtf8(Now(s)[Kept(c.deed.id)]) && ProofNames(Now(s)[Kept(c.deed.id)], kept))
  {
    hide Now, Put, ProofNames, IsUtf8;
    PutFollows(s, p, q, Kept(c.deed.id), s.i.whole.head.value);
    if Kept(c.deed.id) in Now(s) && Kept(c.deed.id) !in s.i.disk.files {
      var n := NowPlanned(s, Kept(c.deed.id));
    }
  }

  lemma DiskNotPlanned(s: Stop, files: seq<Write>, name: FileName)
    requires Stopped(s) && files <= s.final.files && name in s.i.disk.files && !name.Supersedes?
    ensures Find(files, name) == |files|
  {
    hide GoodImport, Allowed;
    AllowedFacts(s.i, s.final.files);
    var n := Find(files, name);
    if n < |files| {
      assert s.final.files[n] in s.final.files;
      AllowedOver(s.i, s.final.files[n]);
      assert false;
    }
  }

  /** A head kept before the import, which the plan left as it was. */
  lemma HeadThere(s: Stop, c: Carried, p: Staged)
    requires Stopped(s) && p.files <= s.final.files && s.i.whole.head.Some?
               && ProofNames(s.i.whole.head.value, c.receipt)
    requires Put(s.i.disk.files, p, Kept(c.deed.id), s.i.whole.head.value).Ok? && Kept(c.deed.id) in s.i.disk.files
    ensures Kept(c.deed.id) in Now(s)
    ensures IsUtf8(Now(s)[Kept(c.deed.id)]) && ProofNames(Now(s)[Kept(c.deed.id)], c.receipt)
  {
    hide Now, ProofNames, IsUtf8, AllAllowed, GoodCarried;
    DiskNotPlanned(s, p.files, Kept(c.deed.id));
    NowKeeps(s, Kept(c.deed.id));
  }

  lemma OldProofFollows(s: Stop, c: Carried, p: Staged, q: Staged)
    requires Stopped(s) && Left(s, p, q) && Proof(c.deed.id) in s.i.disk.files
    requires PlanProof(s.i.disk.files, s.i.whole.head, c, p).Ok?
    requires PlanProof(s.i.disk.files, s.i.whole.head, c, p).value.files <= s.final.files
    ensures Follows(s, PlanProof(s.i.disk.files, s.i.whole.head, c, p).value, PlanProof(Now(s), s.i.whole.head, c, q))
  {
    hide Now, Stopped, Put, ProofNames, IsUtf8, KeptProof;
    StoppedFacts(s);
    var id, head := c.deed.id, s.i.whole.head;
    NowKeeps(s, Proof(id));
    var kept := KeptProof(s.i.disk.files[Proof(id)], c.receipt).value;
    if head.Some? && ProofNames(head.value, kept) {
      if Kept(id) in s.i.disk.files {
        NowKeeps(s, Kept(id));
      } else {
        HeadFollows(s, c, kept, p, q);
      }
    }
  }

  lemma NewProofFollows(s: Stop, c: Carried, p: Staged, q: Staged)
    requires Stopped(s) && Left(s, p, q) && Proof(c.deed.id) !in s.i.disk.files
    requires GoodCarried(s.i, c) && c.deed.id in s.i.Cargo() && s.i.Cargo()[c.deed.id] == c
    requires PlanProof(s.i.disk.files, s.i.whole.head, c, p).Ok?
    requires PlanProof(s.i.disk.files, s.i.whole.head, c, p).value.files <= s.final.files
    ensures Follows(s, PlanProof(s.i.disk.files, s.i.whole.head, c, p).value, PlanProof(Now(s), s.i.whole.head, c, q))
  {
    hide Now, Stopped, Put, ProofNames, IsUtf8, KeptProof, GoodCarried, CarriedById;
    StoppedFacts(s);
    var id, head := c.deed.id, s.i.whole.head;
    var p1 := Put(s.i.disk.files, p, Proof(id), c.proof).value;
    if head.Some? {
      PutGrows(s.i.disk.files, p1, Kept(id), head.value);
    }
    PutFollows(s, p, q, Proof(id), c.proof);
    var q1 := Put(Now(s), q, Proof(id), c.proof).value;
    ProofReads(s, c);
    if head.Some? {
      HeadFollows(s, c, c.receipt, p1, q1);
      if Kept(id) in s.i.disk.files {
        HeadThere(s, c, p1);
      }
    }
    if Proof(id) in Now(s) {
      var n := NowPlanned(s, Proof(id));
    }
  }

  lemma PutGrows(disk: Files, p: Staged, name: FileName, content: bytes)
    requires Put(disk, p, name, content).Ok?
    ensures Grown(p, Put(disk, p, name, content).value)
  {
  }

  lemma ProofFollows(s: Stop, c: Carried, p: Staged, q: Staged)
    requires Stopped(s) && Left(s, p, q)
    requires GoodCarried(s.i, c) && c.deed.id in s.i.Cargo() && s.i.Cargo()[c.deed.id] == c
    requires PlanProof(s.i.disk.files, s.i.whole.head, c, p).Ok?
    requires PlanProof(s.i.disk.files, s.i.whole.head, c, p).value.files <= s.final.files
    ensures Follows(s, PlanProof(s.i.disk.files, s.i.whole.head, c, p).value, PlanProof(Now(s), s.i.whole.head, c, q))
  {
    hide *;
    if Proof(c.deed.id) in s.i.disk.files {
      OldProofFollows(s, c, p, q);
    } else {
      NewProofFollows(s, c, p, q);
    }
  }
}
