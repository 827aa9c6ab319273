/** The rest of recovery: bound digests, the log, whole deeds, links and trails
    planned again, and the theorem that importing again completes a stopped
    import. */
module Resuming {
  import opened Prelude
  import opened Text
  import opened Carrying
  import opened Deeds
  import opened Linked
  import opened Order
  import opened Planned
  import opened Planning
  import opened Receipt
  import opened Recovery
  import opened Sidecars
  import opened Store
  import Address
  import Current
  import Frames
  import Graph
  import Issuing
  import Log
  import Trail
  import Wire

  // ---------- bound digests ----------

  /** Every supersedes sidecar reads, and none binds `id` to another digest. */
  ghost predicate BoundTo(disk: Files, id: bytes, digest: bytes) {
    forall n :: Supersedes(n) in disk ==> BindsTo(disk[Supersedes(n)], id, digest)
  }

  ghost predicate BindsTo(raw: bytes, id: bytes, digest: bytes) {
    && ReadSupersedes(raw).Ok?
    && match ReadSupersedes(raw).value
       case None => true
       case Some(b) => b.id == id && b.digest.Some? ==> b.digest.value == digest
  }

  lemma {:induction false} NamedExact(disk: Files, stems: seq<bytes>, id: bytes, found: Option<bytes>, digest: bytes)
    requires forall s :: s in stems ==> Supersedes(s) in disk
    requires found.Some? ==> found.value == digest
    ensures var r := DigestsNamed(disk, stems, id, found);
            r.Ok? && (r.value.Some? ==> r.value.value == digest)
            <==> forall s :: s in stems ==> BindsTo(disk[Supersedes(s)], id, digest)
    decreases stems
  {
    hide ReadSupersedes;
    if stems != [] {
      var s := stems[0];
      assert forall x :: x in stems <==> x == s || x in stems[1..];
      var bound := ReadSupersedes(disk[Supersedes(s)]);
      if bound.Ok? {
        if bound.value.Some? && bound.value.value.id == id && bound.value.value.digest.Some? {
          if bound.value.value.digest.value == digest {
            NamedExact(disk, stems[1..], id, Some(digest), digest);
          } else {
            NamedOther(disk, stems[1..], id, bound.value.value.digest.value);
          }
        } else {
          NamedExact(disk, stems[1..], id, found, digest);
        }
      }
    }
  }

  /** Once a digest is found, no other is the answer. */
  lemma {:induction false} NamedOther(disk: Files, stems: seq<bytes>, id: bytes, digest: bytes)
    requires forall s :: s in stems ==> Supersedes(s) in disk
    ensures var r := DigestsNamed(disk, stems, id, Some(digest)); r.Ok? ==> r.value == Some(digest)
    decreases stems
  {
    hide ReadSupersedes;
    if stems != [] {
      NamedOther(disk, stems[1..], id, digest);
    }
  }

  lemma BoundExact(disk: Files, c: Carried)
    ensures CheckBound(disk, c).Ok? <==> BoundTo(disk, c.deed.id, c.receipt.digest)
  {
    hide ReadSupersedes, InOrder, BindsTo;
    Current.StemsHere(disk);
    NamedExact(disk, InOrder(Current.SupersedesStems(disk)), c.deed.id, None, c.receipt.digest);
  }

  /** What an import writes binds a carried deed to its own digest. */
  lemma AllowedBinds(i: Import, w: Write, c: Carried)
    requires Allowed(i, w) && w.name.Supersedes? && c.deed.id in i.Cargo() && i.Cargo()[c.deed.id] == c
    ensures BindsTo(w.content, c.deed.id, c.receipt.digest)
  {
    hide ReadSupersedes, BoundLines, CarriedById, IdOnly, IsId, Address.HexOf;
    var t: Link :| Binds(i, w.content, t);
    BoundLinesRead(t.id, t.digest);
  }

  lemma BoundFollows(s: Stop, c: Carried)
    requires Stopped(s) && c.deed.id in s.i.Cargo() && s.i.Cargo()[c.deed.id] == c
    requires CheckBound(s.i.disk.files, c).Ok?
    ensures CheckBound(Now(s), c).Ok?
  {
    hide Now, Stopped, BindsTo, CheckBound, CarriedById, Allowed;
    StoppedFacts(s);
    BoundExact(s.i.disk.files, c);
    forall n | Supersedes(n) in Now(s)
      ensures BindsTo(Now(s)[Supersedes(n)], c.deed.id, c.receipt.digest)
    {
      if !Same(s.i.disk.files, Now(s), Supersedes(n)) {
        var m := NowPlanned(s, Supersedes(n));
        AllowedBinds(s.i, s.final.files[m], c);
      }
    }
    BoundExact(Now(s), c);
  }

  // ---------- the log ----------

  /** The entries noted, after more of accessions not noted before. */
  function Noted(logged: ById, es: seq<Log.Entry>): ById
    decreases es
  {
    if es == [] then logged else Noted(logged[es[0].id := es[0]], es[1..])
  }

  lemma {:induction false} NotedExact(logged: ById, es: seq<Log.Entry>)
    requires Once(es) && forall e :: e in es ==> e.id !in logged
    ensures forall id :: id in Noted(logged, es) <==> id in logged || exists e :: e in es && e.id == id
    ensures forall id :: id in logged ==> Noted(logged, es)[id] == logged[id]
    ensures forall e :: e in es ==> Noted(logged, es)[e.id] == e
    decreases es
  {
    if es != [] {
      var next := logged[es[0].id := es[0]];
      forall e | e in es[1..]
        ensures e.id !in next
      {
        var a :| 1 <= a < |es| && es[a] == e;
      }
      assert Once(es[1..]);
      NotedExact(next, es[1..]);
      assert forall e :: e in es <==> e == es[0] || e in es[1..];
    }
  }

  lemma {:induction false} LoggedMore(a: seq<Log.Entry>, b: seq<Log.Entry>, start: ById)
    requires LoggedById(a, start).Ok?
    ensures LoggedById(a + b, start) == LoggedById(b, LoggedById(a, start).value)
    decreases a
  {
    if a == [] {
      assert a + b == b;
    } else {
      assert (a + b)[1..] == a[1..] + b;
      LoggedMore(a[1..], b, if a[0].id in start then start else start[a[0].id := a[0]]);
    }
  }

  lemma {:induction false} LoggedNew(es: seq<Log.Entry>, logged: ById)
    requires Once(es) && forall e :: e in es ==> e.id !in logged
    ensures LoggedById(es, logged) == Ok(Noted(logged, es))
    decreases es
  {
    if es != [] {
      var next := logged[es[0].id := es[0]];
      assert es[0] in es;
      forall e | e in es[1..]
        ensures e.id !in next
      {
        var a :| 1 <= a < |es| && es[a] == e;
      }
      assert Once(es[1..]);
      LoggedNew(es[1..], next);
    }
  }

  /** The log a stop left, read by accession. */
  lemma LoggedAgain(entries: seq<Log.Entry>, logged: ById, log: seq<Log.Entry>, j: nat)
    requires LoggedById(entries, map[]) == Ok(logged) && j <= |log|
    requires Once(log) && forall e :: e in log ==> e.id !in logged
    ensures LoggedById(entries + log[..j], map[]) == Ok(Noted(logged, log[..j]))
  {
    hide LoggedById, Noted;
    LoggedMore(entries, log[..j], map[]);
    assert Once(log[..j]);
    LoggedNew(log[..j], logged);
  }

  /** What planning knew of the log when the final plan was made. */
  ghost predicate LogOf(s: Stop, logged: ById) {
    s.j <= |s.final.log| && LogKept(s.i, logged, s.final.log, [])
  }

  function NotedNow(s: Stop, logged: ById): ById
    requires s.j <= |s.final.log|
  {
    Noted(logged, s.final.log[..s.j])
  }

  lemma NotedFacts(s: Stop, logged: ById, id: bytes)
    requires LogOf(s, logged)
    ensures id in logged ==> id in NotedNow(s, logged) && NotedNow(s, logged)[id] == logged[id]
    ensures id !in logged && id in NotedNow(s, logged) ==> exists n: nat :: n < s.j && s.final.log[n].id == id
    ensures var now := NotedNow(s, logged);
            forall n :: 0 <= n < s.j ==> s.final.log[n].id in now && now[s.final.log[n].id] == s.final.log[n]
  {
    hide LogAllowed, Noted;
    var part := s.final.log[..s.j];
    assert Once(part);
    forall e | e in part
      ensures e.id !in logged
    {
      assert e in s.final.log;
      AllowedNew(s.i, logged, e);
    }
    NotedExact(logged, part);
    if id !in logged && id in NotedNow(s, logged) {
      var e :| e in part && e.id == id;
      var n: nat :| n < |part| && part[n] == e;
      assert s.final.log[n] == e;
    }
    forall n | 0 <= n < s.j
      ensures s.final.log[n].id in NotedNow(s, logged) && NotedNow(s, logged)[s.final.log[n].id] == s.final.log[n]
    {
      assert part[n] == s.final.log[n] && part[n] in part;
    }
  }

  lemma AllowedNew(i: Import, logged: ById, e: Log.Entry)
    requires LogAllowed(i, logged, e)
    ensures e.id !in logged
  {
  }

  lemma EntryFollows(s: Stop, logged: ById, c: Carried, p: Staged, q: Staged)
    requires LogOf(s, logged) && Left(s, p, q) && GoodCarried(s.i, c)
    requires PlanEntry(s.i.keys.sha, logged, c, p).Ok?
    requires PlanEntry(s.i.keys.sha, logged, c, p).value.log <= s.final.log
    ensures Follows(s, PlanEntry(s.i.keys.sha, logged, c, p).value, PlanEntry(s.i.keys.sha, NotedNow(s, logged), c, q))
  {
    hide LogAllowed, NotedNow, DeedDigest, IsId, Readable, ParseReceipt, IsUtf8, GoodLink, ProofNames;
    var id, e := c.deed.id, EntryFor(s.i.keys.sha, c.deed, c.receipt.time);
    NotedFacts(s, logged, id);
    if id !in logged {
      var n := |p.log|;
      assert (p.log + [e])[n] == e;
      if n < s.j {
        assert s.final.log[n] == e;
      } else {
        assert forall m :: 0 <= m < s.j ==> s.final.log[m].id != id;
        assert (p.log + [e])[s.j..] == p.log[s.j..] + [e];
      }
    }
  }

  // ---------- a whole deed ----------

  /** What planning one deed again needs to know of it. */
  ghost predicate Ready(s: Stop, logged: ById, c: Carried) {
    && Stopped(s) && LogOf(s, logged)
    && GoodCarried(s.i, c) && c.deed.id in s.i.Cargo() && s.i.Cargo()[c.deed.id] == c
  }

  lemma CapGrows(disk: Files, c: Carried, p: Staged)
    requires PlanCap(disk, c, p).Ok?
    ensures Grown(p, PlanCap(disk, c, p).value) && PlanCap(disk, c, p).value.log == p.log
  {
    hide Get, CapFrame, Find;
  }

  lemma EntryGrows(sha: Sha, logged: ById, c: Carried, p: Staged)
    requires PlanEntry(sha, logged, c, p).Ok?
    ensures Grown(p, PlanEntry(sha, logged, c, p).value) && PlanEntry(sha, logged, c, p).value.files == p.files
  {
    hide DeedDigest;
  }

  lemma EvidenceGrows(keys: Issuing.Keys, disk: Files, c: Carried, p: Staged)
    requires PlanEvidence(keys, disk, c, p).Ok?
    ensures Grown(p, PlanEvidence(keys, disk, c, p).value) && PlanEvidence(keys, disk, c, p).value.log == p.log
  {
    hide Put, EvidenceFrame;
    PutGrows(disk, p, Evid(c.deed.id), EvidenceFrame(c.deed, Issuing.EvidenceAt(keys, c.deed, c.receipt.time)));
    PutLog(disk, p, Evid(c.deed.id), EvidenceFrame(c.deed, Issuing.EvidenceAt(keys, c.deed, c.receipt.time)));
  }

  lemma PutLog(disk: Files, p: Staged, name: FileName, content: bytes)
    requires Put(disk, p, name, content).Ok?
    ensures Put(disk, p, name, content).value.log == p.log
  {
  }

  lemma HostGrows(keys: Issuing.Keys, disk: Files, c: Carried, p: Staged)
    requires PlanHost(keys, disk, c, p).Ok?
    ensures Grown(p, PlanHost(keys, disk, c, p).value) && PlanHost(keys, disk, c, p).value.log == p.log
  {
    hide Put, HostOf, Wire.PutDeed;
    if c.host.Some? {
      PutGrows(disk, p, Host(c.deed.id), c.host.value);
      PutLog(disk, p, Host(c.deed.id), c.host.value);
    }
  }

  lemma ProofGrows(disk: Files, head: Option<bytes>, c: Carried, p: Staged)
    requires PlanProof(disk, head, c, p).Ok?
    ensures Grown(p, PlanProof(disk, head, c, p).value) && PlanProof(disk, head, c, p).value.log == p.log
  {
    hide KeptProof, ProofNames, IsUtf8, Find;
  }

  lemma DeedFollows(s: Stop, logged: ById, c: Carried, p: Staged, q: Staged)
    requires Ready(s, logged, c) && Left(s, p, q)
    requires var r := PlanDeed(s.i.keys, s.i.disk.files, logged, s.i.whole, c, p);
             r.Ok? && r.value.files <= s.final.files && r.value.log <= s.final.log
    ensures Follows(s, PlanDeed(s.i.keys, s.i.disk.files, logged, s.i.whole, c, p).value,
                    PlanDeed(s.i.keys, Now(s), NotedNow(s, logged), s.i.whole, c, q))
  {
    hide PlanCap, CheckBound, PlanEntry, PlanEvidence, PlanHost, PlanProducts, PlanProof, GoodCarried, Now;
    hide NotedNow, LogKept;
    hide CarriedById, AllAllowed, GoodImport;
    var keys, disk, now := s.i.keys, s.i.disk.files, Now(s);
    var p1 := PlanCap(disk, c, p).value;
    CapGrows(disk, c, p);
    var p2 := PlanEntry(keys.sha, logged, c, p1).value;
    EntryGrows(keys.sha, logged, c, p1);
    var p3 := PlanEvidence(keys, disk, c, p2).value;
    EvidenceGrows(keys, disk, c, p2);
    var p4 := PlanHost(keys, disk, c, p3).value;
    HostGrows(keys, disk, c, p3);
    var p5 := PlanProducts(keys.sha, disk, s.i.whole.products, c.deed.paths, p4).value;
    ProductsGrow(s.i, c.deed.paths, p4);
    ProofGrows(disk, s.i.whole.head, c, p5);
    CapFollows(s, c, p, q);
    BoundFollows(s, c);
    var q1 := PlanCap(now, c, q).value;
    EntryFollows(s, logged, c, p1, q1);
    var q2 := PlanEntry(keys.sha, NotedNow(s, logged), c, q1).value;
    EvidenceFollows(s, c, p2, q2);
    var q3 := PlanEvidence(keys, now, c, q2).value;
    HostFollows(s, c, p3, q3);
    var q4 := PlanHost(keys, now, c, q3).value;
    ProductsFollow(s, c.deed.paths, p4, q4);
    var q5 := PlanProducts(keys.sha, now, s.i.whole.products, c.deed.paths, q4).value;
    ProofFollows(s, c, p5, q5);
  }

  lemma DeedGrows(i: Import, logged: ById, c: Carried, p: Staged)
    requires PlanDeed(i.keys, i.disk.files, logged, i.whole, c, p).Ok?
    ensures Grown(p, PlanDeed(i.keys, i.disk.files, logged, i.whole, c, p).value)
  {
    hide PlanCap, CheckBound, PlanEntry, PlanEvidence, PlanHost, PlanProducts, PlanProof;
    var keys, disk := i.keys, i.disk.files;
    var p1 := PlanCap(disk, c, p).value;
    CapGrows(disk, c, p);
    var p2 := PlanEntry(keys.sha, logged, c, p1).value;
    EntryGrows(keys.sha, logged, c, p1);
    var p3 := PlanEvidence(keys, disk, c, p2).value;
    EvidenceGrows(keys, disk, c, p2);
    var p4 := PlanHost(keys, disk, c, p3).value;
    HostGrows(keys, disk, c, p3);
    ProductsGrow(i, c.deed.paths, p4);
    ProofGrows(disk, i.whole.head, c, PlanProducts(keys.sha, disk, i.whole.products, c.deed.paths, p4).value);
  }

  lemma {:induction false} DeedsGrow(i: Import, logged: ById, cs: seq<Carried>, p: Staged)
    requires PlanDeeds(i.keys, i.disk.files, logged, i.whole, cs, p).Ok?
    ensures Grown(p, PlanDeeds(i.keys, i.disk.files, logged, i.whole, cs, p).value)
    decreases cs
  {
    hide PlanDeed;
    if cs != [] {
      DeedGrows(i, logged, cs[0], p);
      DeedsGrow(i, logged, cs[1..], PlanDeed(i.keys, i.disk.files, logged, i.whole, cs[0], p).value);
    }
  }

  lemma {:induction false} DeedsFollow(s: Stop, logged: ById, cs: seq<Carried>, p: Staged, q: Staged)
    requires Stopped(s) && LogOf(s, logged) && Left(s, p, q) && forall c :: c in cs ==> Ready(s, logged, c)
    requires var r := PlanDeeds(s.i.keys, s.i.disk.files, logged, s.i.whole, cs, p);
             r.Ok? && r.value.files <= s.final.files && r.value.log <= s.final.log
    ensures Follows(s, PlanDeeds(s.i.keys, s.i.disk.files, logged, s.i.whole, cs, p).value,
                    PlanDeeds(s.i.keys, Now(s), NotedNow(s, logged), s.i.whole, cs, q))
    decreases cs
  {
    hide PlanDeed, Ready, Now, NotedNow, LogKept, AllAllowed, GoodImport;
    if cs != [] {
      assert cs[0] in cs;
      var next := PlanDeed(s.i.keys, s.i.disk.files, logged, s.i.whole, cs[0], p).value;
      DeedsGrow(s.i, logged, cs[1..], next);
      DeedFollows(s, logged, cs[0], p, q);
      DeedsFollow(s, logged, cs[1..], next, PlanDeed(s.i.keys, Now(s), NotedNow(s, logged), s.i.whole, cs[0], q).value);
    }
  }

  // ---------- links again ----------

  /** Caps and tombs of deeds the bag does not carry are as they were. */
  lemma SameOutside(s: Stop, id: bytes)
    requires Stopped(s) && id !in s.i.Cargo()
    ensures Same(s.i.disk.files, Now(s), Cap(id)) && Same(s.i.disk.files, Now(s), Tomb(id))
    ensures Same(s.i.disk.files, Now(s), Evid(id)) && Same(s.i.disk.files, Now(s), Host(id))
  {
    hide Now, Stopped, CarriedById, Same;
    StoppedFacts(s);
    if !Same(s.i.disk.files, Now(s), Cap(id)) {
      var n := NowPlanned(s, Cap(id));
      assert false;
    }
    if !Same(s.i.disk.files, Now(s), Tomb(id)) {
      var n := NowPlanned(s, Tomb(id));
      assert false;
    }
    if !Same(s.i.disk.files, Now(s), Evid(id)) {
      var n := NowPlanned(s, Evid(id));
      assert false;
    }
    if !Same(s.i.disk.files, Now(s), Host(id)) {
      var n := NowPlanned(s, Host(id));
      assert false;
    }
  }

  lemma SameHeld(s: Stop, t: Link)
    requires Stopped(s)
    ensures RequireHeld(s.i.keys.sha, Now(s), s.i.Cargo(), t)
              == RequireHeld(s.i.keys.sha, s.i.disk.files, s.i.Cargo(), t)
    ensures t.id !in s.i.Cargo() ==> (Serves(Now(s), t.id) <==> Serves(s.i.disk.files, t.id))
  {
    hide Now, Stopped, CarriedById, Frames.DecodeResponse, DeedDigest;
    StoppedFacts(s);
    if t.id !in s.i.Cargo() {
      SameOutside(s, t.id);
    }
  }

  lemma SameLinks(s: Stop, c: Carried)
    requires Stopped(s)
    ensures CheckLinks(s.i.keys.sha, Now(s), s.i.Cargo(), c) == CheckLinks(s.i.keys.sha, s.i.disk.files, s.i.Cargo(), c)
  {
    hide Now, Stopped, CarriedById, RequireHeld, RequireCarried, CheckPrior, Serves;
    StoppedFacts(s);
    if c.successor.Some? {
      SameHeld(s, c.successor.value);
    }
  }

  lemma {:induction false} SameTies(s: Stop, cs: seq<Carried>, ties: Ties)
    requires Stopped(s)
    ensures CollectTies(s.i.keys.sha, Now(s), s.i.Cargo(), cs, ties)
            == CollectTies(s.i.keys.sha, s.i.disk.files, s.i.Cargo(), cs, ties)
    decreases cs
  {
    hide Now, Stopped, CarriedById, CheckLinks, AddTies, TiesOf;
    StoppedFacts(s);
    if cs != [] {
      SameLinks(s, cs[0]);
      if AddTies(ties, TiesOf(cs[0])).Ok? {
        SameTies(s, cs[1..], AddTies(ties, TiesOf(cs[0])).value);
      }
    }
  }

  /** A sidecar staged before is, now, as it was or as it was to be. */
  lemma SidecarNow(s: Stop, t: Tie)
    requires Stopped(s) && GoodTie(s.i, t) && Landed(s.i, s.final.files, t)
    ensures var name := Supersedes(t.1.id);
            Same(s.i.disk.files, Now(s), name)
            || (name in Now(s) && Now(s)[name] == BoundLines(t.0.id, t.0.digest))
  {
    hide Now, Stopped, CarriedById, BoundLines, NameLine, GoodTie, Serves;
    StoppedFacts(s);
    var name, content := Supersedes(t.1.id), BoundLines(t.0.id, t.0.digest);
    if !Same(s.i.disk.files, Now(s), name) {
      var n := NowPlanned(s, name);
      assert s.final.files[n] in s.final.files;
      FinalDistinct(s);
      var m :| 0 <= m < |s.final.files| && s.final.files[m] == Write(name, content);
      OneName(s.final.files, m, n);
    }
  }

  lemma OneName(files: seq<Write>, m: nat, n: nat)
    requires Distinct(files) && m < |files| && n < |files| && files[m].name == files[n].name
    ensures m == n
  {
  }

  lemma FinalDistinct(s: Stop)
    requires Stopped(s)
    ensures Distinct(s.final.files)
  {
  }

  lemma PrefixAllowed(s: Stop, files: seq<Write>)
    requires Stopped(s) && files <= s.final.files
    ensures AllAllowed(s.i, files)
  {
    hide Allowed, GoodImport;
    forall w | w in files
      ensures Allowed(s.i, w)
    {
      var n :| 0 <= n < |files| && files[n] == w;
      assert s.final.files[n] == w;
    }
  }

  lemma StageFollows(s: Stop, t: Tie, p: Staged, q: Staged)
    requires Stopped(s) && Left(s, p, q) && GoodTie(s.i, t) && Landed(s.i, s.final.files, t)
    requires Find(p.files, Supersedes(t.1.id)) == |p.files|
    requires StageSupersedes(s.i.disk.files, t, p).Ok? && StageSupersedes(s.i.disk.files, t,
               p).value.files <= s.final.files
    ensures Follows(s, StageSupersedes(s.i.disk.files, t, p).value, StageSupersedes(Now(s), t, q))
  {
    hide Now, Stopped, CarriedById, BoundLines, NameLine, GoodTie, Landed, IdOnly, Put;
    StoppedFacts(s);
    SidecarNow(s, t);
    var name, content := Supersedes(t.1.id), BoundLines(t.0.id, t.0.digest);
    if name !in s.i.disk.files {
      PutFollows(s, p, q, name, content);
    } else if s.i.disk.files[name] != content {
      CompletedFollows(s, t, p, q);
    }
  }

  /** An id-only sidecar the plan completes. */
  lemma CompletedFollows(s: Stop, t: Tie, p: Staged, q: Staged)
    requires Stopped(s) && Left(s, p, q)
    requires Find(p.files, Supersedes(t.1.id)) == |p.files| && Supersedes(t.1.id) in s.i.disk.files
    requires s.i.disk.files[Supersedes(t.1.id)] != BoundLines(t.0.id, t.0.digest)
    requires StageSupersedes(s.i.disk.files, t, p).Ok? && StageSupersedes(s.i.disk.files, t,
               p).value.files <= s.final.files
    ensures Follows(s, StageSupersedes(s.i.disk.files, t, p).value, StageSupersedes(Now(s), t, q))
  {
    hide Now, Stopped, BoundLines, IdOnly, Distinct;
    StoppedFacts(s);
    PrefixFacts(s, p.files);
    var name, content := Supersedes(t.1.id), BoundLines(t.0.id, t.0.digest);
    var w := Write(name, content);
    AfterOneMore(s, p, w);
    if |p.files| < s.k {
      NowWritten(s, |p.files|);
    } else {
      NotAmong(s, p.files, name);
      NowUnwritten(s, name);
      FindLeft(p.files, s.k, name);
    }
  }

  /** A name planned next is on no file written so far. */
  lemma NotAmong(s: Stop, files: seq<Write>, name: FileName)
    requires Stopped(s) && s.k <= |files| < |s.final.files| && s.final.files[|files|].name == name
    ensures forall n :: 0 <= n < s.k ==> s.final.files[n].name != name
  {
    hide Allowed, GoodImport;
    AllowedFacts(s.i, s.final.files);
  }

  lemma SuccessorFollows(s: Stop, t: Tie, p: Staged, q: Staged)
    requires Stopped(s) && Left(s, p, q)
    requires StageSuccessor(s.i.disk.files, s.i.Cargo(), t, p).Ok?
    requires StageSuccessor(s.i.disk.files, s.i.Cargo(), t, p).value.files <= s.final.files
    ensures Follows(s, StageSuccessor(s.i.disk.files, s.i.Cargo(), t, p).value,
              StageSuccessor(Now(s), s.i.Cargo(), t, q))
  {
    hide Now, Stopped, CarriedById, NameLine, Put, Serves, RequireHeld;
    StoppedFacts(s);
    SameHeld(s, t.0);
    if t.0.id in s.i.Cargo() || Serves(s.i.disk.files, t.0.id) {
      PutFollows(s, p, q, Successor(t.0.id), NameLine(t.1.id));
    }
  }

  lemma TieFollows(s: Stop, t: Tie, p: Staged, q: Staged)
    requires Stopped(s) && Left(s, p, q) && GoodTie(s.i, t) && Landed(s.i, s.final.files, t)
    requires Find(p.files, Supersedes(t.1.id)) == |p.files|
    requires var r := StageTie(s.i.keys.sha, s.i.disk.files, s.i.Cargo(), t, p); r.Ok? && r.value.files <= s.final.files
    ensures Follows(s, StageTie(s.i.keys.sha, s.i.disk.files, s.i.Cargo(), t, p).value,
                    StageTie(s.i.keys.sha, Now(s), s.i.Cargo(), t, q))
  {
    hide Now, Stopped, CarriedById, GoodTie, Landed, StageSupersedes, StageSuccessor, RequireHeld;
    StoppedFacts(s);
    PrefixAllowed(s, p.files);
    var mid := StageSupersedes(s.i.disk.files, t, p).value;
    StageKept(s.i, t, p);
    SuccessorKept(s.i, t, mid);
    SameHeld(s, t.1);
    SameHeld(s, t.0);
    StageFollows(s, t, p, q);
    SuccessorFollows(s, t, mid, StageSupersedes(Now(s), t, q).value);
  }

  /** What staging ties again needs to know of them. */
  ghost predicate TiesReady(s: Stop, ts: seq<Tie>) {
    NewsApart(ts) && forall t :: t in ts ==> GoodTie(s.i, t) && Landed(s.i, s.final.files, t)
  }

  lemma FewerReady(s: Stop, ts: seq<Tie>)
    requires TiesReady(s, ts) && ts != []
    ensures TiesReady(s, ts[1..]) && GoodTie(s.i, ts[0]) && Landed(s.i, s.final.files, ts[0])
  {
    hide GoodTie, Landed;
    assert ts[0] in ts;
  }

  /** One tie staged: the next is still to come, and the rest only adds. */
  lemma TieAdvances(s: Stop, ts: seq<Tie>, p: Staged)
    requires Stopped(s) && TiesReady(s, ts) && StillApart(p.files, ts) && ts != [] && p.files <= s.final.files
    requires StageTies(s.i.keys.sha, s.i.disk.files, s.i.Cargo(), ts, p).Ok?
    ensures Find(p.files, Supersedes(ts[0].1.id)) == |p.files|
    ensures var next := StageTie(s.i.keys.sha, s.i.disk.files, s.i.Cargo(), ts[0], p).value;
            && StillApart(next.files, ts[1..])
            && Grown(next, StageTies(s.i.keys.sha, s.i.disk.files, s.i.Cargo(), ts, p).value)
  {
    hide Stopped, CarriedById, StageTie, AllAllowed, Landed, GoodTie, NewsApart;
    var t, next := ts[0], StageTie(s.i.keys.sha, s.i.disk.files, s.i.Cargo(), ts[0], p).value;
    FewerReady(s, ts);
    FindFails(p.files, Supersedes(t.1.id));
    assert t in ts;
    PrefixAllowed(s, p.files);
    TieKept(s.i, t, p);
    assert [] + ts == ts && [] + ts[1..] == ts[1..];
    NextApart(p.files, next.files, [], ts);
    StagedTies(s.i, [], ts[1..], next);
  }

  lemma {:induction false} TiesFollow(s: Stop, ts: seq<Tie>, p: Staged, q: Staged)
    requires Stopped(s) && Left(s, p, q) && TiesReady(s, ts) && StillApart(p.files, ts)
    requires var r := StageTies(s.i.keys.sha, s.i.disk.files, s.i.Cargo(), ts, p);
             r.Ok? && r.value.files <= s.final.files && r.value.log <= s.final.log
    ensures Follows(s, StageTies(s.i.keys.sha, s.i.disk.files, s.i.Cargo(), ts, p).value,
                    StageTies(s.i.keys.sha, Now(s), s.i.Cargo(), ts, q))
    decreases ts
  {
    hide Now, Stopped, CarriedById, StageTie, Landed, GoodTie, TiesReady, StillApart;
    StoppedFacts(s);
    if ts != [] {
      var t, next := ts[0], StageTie(s.i.keys.sha, s.i.disk.files, s.i.Cargo(), ts[0], p).value;
      FewerReady(s, ts);
      TieAdvances(s, ts, p);
      TieFollows(s, t, p, q);
      TiesFollow(s, ts[1..], next, StageTie(s.i.keys.sha, Now(s), s.i.Cargo(), t, q).value);
    }
  }

  // ---------- trails again ----------

  lemma EvidenceKeeps(s: Stop, d: Deed)
    requires Stopped(s) && d.id !in s.i.Cargo() && Issuing.EvidenceLocal(s.i.keys, s.i.disk.files, d).Ok?
    ensures Issuing.EvidenceLocal(s.i.keys, Now(s), d).Ok?
  {
    hide Now, Stopped, CarriedById, Frames.DecodeResponse, Address.HexOf, Wire.PutDeed, Issuing.Signature;
    StoppedFacts(s);
    SameOutside(s, d.id);
    forall p | p in d.paths
      ensures Issuing.PathHolds(s.i.keys.sha, Now(s), p)
    {
      assert Issuing.PathHolds(s.i.keys.sha, s.i.disk.files, p);
      NowKeeps(s, Product(Address.HexOf(p).value));
    }
  }

  lemma SameSource(s: Stop, c: Carried, id: bytes)
    requires Stopped(s)
    ensures FoundSource(s.i.keys.sha, Now(s), s.i.Cargo(), c, id)
              == FoundSource(s.i.keys.sha, s.i.disk.files, s.i.Cargo(), c, id)
  {
    hide Now, Stopped, CarriedById, Frames.DecodeResponse, DeedDigest;
    StoppedFacts(s);
    if id !in s.i.Cargo() {
      SameOutside(s, id);
    }
  }

  lemma SameGraph(a: Graph.Successors, b: Graph.Successors, x: bytes, y: bytes)
    requires (forall z :: a(z) == b(z)) && Graph.Reaches(b, x, y)
    ensures Graph.Reaches(a, x, y)
  {
    var p :| Graph.PathFrom(b, p, x, y);
    forall n | 0 <= n < |p| - 1
      ensures Graph.Edge(a, p[n], p[n + 1])
    {
      assert Graph.Edge(b, p[n], p[n + 1]);
    }
    assert Graph.PathFrom(a, p, x, y);
  }

  lemma OutsideId(i: Import, c: Carried, id: bytes)
    requires id !in i.Cargo() && FoundSource(i.keys.sha, i.disk.files, i.Cargo(), c, id).Ok?
    ensures FoundSource(i.keys.sha, i.disk.files, i.Cargo(), c, id).value.id == id
  {
    hide CarriedById, Frames.DecodeResponse, DeedDigest;
  }

  lemma TrailFollows(s: Stop, c: Carried)
    requires Stopped(s) && TrailPasses(s.i.keys, s.i.disk.files, s.i.Cargo(), c)
    ensures TrailPasses(s.i.keys, Now(s), s.i.Cargo(), c)
  {
    hide Now, Stopped, CarriedById, FoundSource, Graph.Reaches, Issuing.EvidenceLocal, DeedSources;
    StoppedFacts(s);
    var was := SourceOf(s.i.keys.sha, s.i.disk.files, s.i.Cargo(), c);
    var now := SourceOf(s.i.keys.sha, Now(s), s.i.Cargo(), c);
    forall id
      ensures now(id) == was(id)
    {
      SameSource(s, c, id);
    }
    forall id | Graph.Reaches(Trail.Sources(c.deed, now), c.deed.id, id) && id != c.deed.id
      ensures now(id).Ok? && (id in s.i.Cargo() || Issuing.EvidenceLocal(s.i.keys, Now(s), now(id).value).Ok?)
    {
      SameGraph(Trail.Sources(c.deed, was), Trail.Sources(c.deed, now), c.deed.id, id);
      if id !in s.i.Cargo() {
        OutsideId(s.i, c, id);
        EvidenceKeeps(s, now(id).value);
      }
    }
  }

  // ---------- importing again ----------

  /** What a finished plan knows of itself. */
  ghost predicate Finished(i: Import, logged: ById, mid: Staged, final: Staged, ties: Ties) {
    && Log.Entries(i.disk.log).Ok? && LoggedById(Log.Entries(i.disk.log).value, map[]) == Ok(logged)
    && PlanDeeds(i.keys, i.disk.files, logged, i.whole, i.whole.carried, Staged([], [], 0)) == Ok(mid)
    && CollectTies(i.keys.sha, i.disk.files, i.Cargo(), i.whole.carried, Ties(map[], map[])) == Ok(ties)
    && StageTies(i.keys.sha, i.disk.files, i.Cargo(), TiesInOrder(ties.byOld), mid) == Ok(final)
    && AllAllowed(i, final.files) && LogKept(i, logged, final.log, []) && NoLinks(mid.files)
    && Grown(mid, final) && final.log == mid.log
    && GoodTies(i, ties)
    && (forall c, t :: c in i.whole.carried && t in TiesOf(c) ==> HasTie(ties, t))
    && forall t :: t in TiesInOrder(ties.byOld) ==> Landed(i, final.files, t)
  }

  lemma NothingYet(i: Import, logged: ById, cs: seq<Carried>)
    ensures AllAllowed(i, []) && LogKept(i, logged, [], cs) && NoLinks([])
  {
  }

  lemma KeptNoLinks(i: Import, p: Staged, q: Staged)
    requires StepKept(i, p, q) && NoLinks(p.files)
    ensures NoLinks(q.files) && AllAllowed(i, q.files)
  {
    hide AllAllowed;
  }

  lemma PlanFinished(i: Import, final: Staged) returns (logged: ById, mid: Staged, ties: Ties)
    requires GoodImport(i) && PlanFiles(i.keys, i.disk, i.whole) == Ok(final) && Log.Entries(i.disk.log).Ok?
    ensures Finished(i, logged, mid, final, ties)
  {
    hide Log.Entries, PlanDeeds, CollectTies, StageTies, TiesInOrder, AllAllowed, LogKept, GoodTies, Landed;
    hide GoodCarried;
    hide CarriedById, LoggedById, TiesOf, DistinctIds, ProductsHashed, IsUtf8, NoLinks;
    logged := LoggedById(Log.Entries(i.disk.log).value, map[]).value;
    var cs := i.whole.carried;
    mid := PlanDeeds(i.keys, i.disk.files, logged, i.whole, cs, Staged([], [], 0)).value;
    ties := CollectTies(i.keys.sha, i.disk.files, i.Cargo(), cs, Ties(map[], map[])).value;
    CargoExact(cs);
    NothingYet(i, logged, cs);
    AllDeedsKept(i, logged, cs, Staged([], [], 0));
    KeptNoLinks(i, Staged([], [], 0), mid);
    LinksPlanned(i, mid);
  }

  lemma StopOf(i: Import, final: Staged, k: nat, j: nat, logged: ById, mid: Staged, ties: Ties)
    requires GoodImport(i) && Finished(i, logged, mid, final, ties) && k <= |final.files| && j <= |final.log|
    ensures Stopped(Stop(i, final, k, j)) && LogOf(Stop(i, final, k, j), logged)
    ensures forall c :: c in i.whole.carried ==> Ready(Stop(i, final, k, j), logged, c)
    ensures TiesReady(Stop(i, final, k, j), TiesInOrder(ties.byOld)) && StillApart(mid.files, TiesInOrder(ties.byOld))
  {
    hide AllAllowed, LogKept, GoodTies, Landed, GoodCarried, CarriedById, DistinctIds, ProductsHashed, TiesInOrder;
    hide GoodTie;
    hide NewsApart, PlanDeeds, StageTies, CollectTies, LoggedById, IsUtf8;
    CargoExact(i.whole.carried);
    OrderedTies(i, ties);
  }

  /** The entries a plan logs can be written, and read back after the log. */
  lemma PlannedEntries(i: Import, logged: ById, log: seq<Log.Entry>)
    requires GoodImport(i) && LogKept(i, logged, log, [])
    ensures forall e :: e in log ==> Log.Writable(e)
  {
    hide Log.Writable, CarriedById, IsId, Readable, ParseReceipt, IsUtf8, GoodLink, ProofNames, DeedDigest, EntryFor;
    CargoExact(i.whole.carried);
    forall e | e in log
      ensures Log.Writable(e)
    {
      var c := i.Cargo()[e.id];
      assert GoodCarried(i, c);
      EntryWritable(i.keys.sha, c.deed, c.receipt.time);
    }
  }

  /** A log that ends its last line, or one nothing is appended to. */
  lemma AppendSome(log: bytes, es: seq<Log.Entry>)
    requires (es == [] || Terminated(log)) && Log.Entries(log).Ok? && forall e :: e in es ==> Log.Writable(e)
    ensures Log.Entries(Appended(log, es)) == Ok(Log.Entries(log).value + es)
  {
    hide Log.Entries, Log.Writable;
    if es == [] {
      assert Log.Entries(log).value + [] == Log.Entries(log).value;
    } else {
      AppendMany(log, es);
    }
  }

  /** Planning over what a stopped import left plans exactly the rest. */
  lemma FilesResume(i: Import, final: Staged, k: nat, j: nat) returns (rest: Staged)
    requires GoodImport(i) && PlanFiles(i.keys, i.disk, i.whole) == Ok(final)
    requires (j == 0 || Terminated(i.disk.log)) && k <= |final.files| && j <= |final.log|
    ensures PlanFiles(i.keys, Partly(i.disk, PlanOf(final), k, j), i.whole) == Ok(rest)
    ensures PlanOf(rest) == Rest(PlanOf(final), k, j)
    ensures Stopped(Stop(i, final, k, j))
  {
    hide Log.Entries, PlanDeeds, CollectTies, StageTies, TiesInOrder, AllAllowed, LogKept, GoodTies, Landed, GoodImport;
    hide CarriedById, LoggedById, Noted, Stopped, Ready, TiesReady, StillApart, Written, Appended, Log.Writable;
    var logged, mid, ties := PlanFinished(i, final);
    var s, entries := Stop(i, final, k, j), Log.Entries(i.disk.log).value;
    StopOf(i, final, k, j, logged, mid, ties);
    PlannedEntries(i, logged, final.log);
    AppendSome(i.disk.log, final.log[..j]);
    LogNew(i, logged, final.log);
    LoggedAgain(entries, logged, final.log, j);
    var start := Staged([], [], 0);
    assert Left(s, start, start);
    DeedsFollow(s, logged, i.whole.carried, start, start);
    var q := PlanDeeds(i.keys, Now(s), NotedNow(s, logged), i.whole, i.whole.carried, start).value;
    SameTies(s, i.whole.carried, Ties(map[], map[]));
    TiesFollow(s, TiesInOrder(ties.byOld), mid, q);
    rest := StageTies(i.keys.sha, Now(s), i.Cargo(), TiesInOrder(ties.byOld), q).value;
  }

  lemma LogNew(i: Import, logged: ById, log: seq<Log.Entry>)
    requires LogKept(i, logged, log, [])
    ensures Once(log) && forall e :: e in log ==> e.id !in logged
  {
    hide CarriedById;
  }

  /** An import stopped after any of its file writes and any of its appends,
      asked for again, plans exactly what was still to be done; so it comes to
      what an uninterrupted import comes to, and after a finished one it plans
      nothing. Only an append asks that the log end its last line. */
  lemma ImportResumes(i: Import, final: Staged, k: nat, j: nat) returns (rest: Staged)
    requires GoodImport(i) && Plans(i.keys, i.disk, i.whole, final)
    requires (j == 0 || Terminated(i.disk.log)) && k <= |final.files| && j <= |final.log|
    ensures Plans(i.keys, Partly(i.disk, PlanOf(final), k, j), i.whole, rest)
    ensures PlanOf(rest) == Rest(PlanOf(final), k, j)
    ensures Done(Partly(i.disk, PlanOf(final), k, j), PlanOf(rest)) == Done(i.disk, PlanOf(final))
  {
    hide GoodImport, Stopped, TrailPasses, PlanFiles, Written, Appended, CarriedById;
    rest := FilesResume(i, final, k, j);
    var s := Stop(i, final, k, j);
    StoppedFacts(s);
    forall c | c in i.whole.carried
      ensures TrailPasses(i.keys, Now(s), i.Cargo(), c)
    {
      TrailFollows(s, c);
    }
    RestCompletes(i.disk, PlanOf(final), k, j);
  }

  // ---------- a log that does not end its last line ----------

  lemma {:induction false} LoggedKeys(entries: seq<Log.Entry>, start: ById)
    requires LoggedById(entries, start).Ok?
    ensures forall id :: id in start ==> id in LoggedById(entries, start).value
    ensures forall e :: e in entries ==> e.id in LoggedById(entries, start).value
    decreases entries
  {
    if entries != [] {
      LoggedKeys(entries[1..], if entries[0].id in start then start else start[entries[0].id := entries[0]]);
    }
  }

  lemma {:induction false} LoggedFrom(entries: seq<Log.Entry>, start: ById, id: bytes)
    requires LoggedById(entries, start).Ok? && id in LoggedById(entries, start).value
    ensures id in start || exists e :: e in entries && e.id == id
    decreases entries
  {
    if entries != [] {
      LoggedFrom(entries[1..], if entries[0].id in start then start else start[entries[0].id := entries[0]], id);
      assert forall e :: e in entries[1..] ==> e in entries;
      assert entries[0] in entries;
    }
  }

  /** A log that does not read is not mended by appending. */
  lemma {:induction false} ErrStays(log: bytes, es: seq<Log.Entry>)
    requires Terminated(log) && IsUtf8(log) && Log.Entries(log).Err? && forall e :: e in es ==> Log.Writable(e)
    ensures Log.Entries(Appended(log, es)).Err?
    decreases es
  {
    hide Log.ParseLines, Log.Line, IsUtf8, Lines, Log.Writable;
    if es != [] {
      assert es[0] in es;
      Log.LineUtf8(es[0]);
      Log.LineEnds(es[0]);
      Utf8Concat(log, Log.Line(es[0]));
      LinesConcat(log, Log.Line(es[0]));
      Log.ParseLinesConcat(Lines(log), Lines(Log.Line(es[0])));
      ErrStays(log + Log.Line(es[0]), es[1..]);
    }
  }

  ghost predicate EntryThere(logged: ById, log: seq<Log.Entry>, id: bytes) {
    id in logged || exists e :: e in log && e.id == id
  }

  lemma EntryPlanned(i: Import, logged: ById, c: Carried, p: Staged)
    requires PlanDeed(i.keys, i.disk.files, logged, i.whole, c, p).Ok?
    ensures EntryThere(logged, PlanDeed(i.keys, i.disk.files, logged, i.whole, c, p).value.log, c.deed.id)
  {
    hide PlanCap, CheckBound, PlanEvidence, PlanHost, PlanProducts, PlanProof, DeedDigest;
    var keys, disk := i.keys, i.disk.files;
    var p1 := PlanCap(disk, c, p).value;
    var p2 := PlanEntry(keys.sha, logged, c, p1).value;
    var p3 := PlanEvidence(keys, disk, c, p2).value;
    EvidenceGrows(keys, disk, c, p2);
    var p4 := PlanHost(keys, disk, c, p3).value;
    HostGrows(keys, disk, c, p3);
    ProductsGrow(i, c.deed.paths, p4);
    ProductsLog(i, c.deed.paths, p4);
    ProofGrows(disk, i.whole.head, c, PlanProducts(keys.sha, disk, i.whole.products, c.deed.paths, p4).value);
    if c.deed.id !in logged {
      var e := EntryFor(keys.sha, c.deed, c.receipt.time);
      assert p2.log == p1.log + [e];
      assert e in p2.log;
    }
  }

  lemma {:induction false} ProductsLog(i: Import, paths: seq<bytes>, p: Staged)
    requires PlanProducts(i.keys.sha, i.disk.files, i.whole.products, paths, p).Ok?
    ensures PlanProducts(i.keys.sha, i.disk.files, i.whole.products, paths, p).value.log == p.log
    decreases paths
  {
    hide Find, Address.HexOf;
    if paths != [] {
      ProductsLog(i, paths[1..], PlanProduct(i.keys.sha, i.disk.files, i.whole.products, paths[0], p).value);
    }
  }

  lemma {:induction false} EntriesPlanned(i: Import, logged: ById, cs: seq<Carried>, p: Staged)
    requires PlanDeeds(i.keys, i.disk.files, logged, i.whole, cs, p).Ok?
    ensures forall c :: c in cs ==> EntryThere(logged, PlanDeeds(i.keys, i.disk.files, logged, i.whole, cs,
              p).value.log, c.deed.id)
    decreases cs
  {
    hide PlanDeed;
    if cs != [] {
      var next := PlanDeed(i.keys, i.disk.files, logged, i.whole, cs[0], p).value;
      EntryPlanned(i, logged, cs[0], p);
      DeedsGrow(i, logged, cs[1..], next);
      EntriesPlanned(i, logged, cs[1..], next);
    }
  }

  /** The first entry an import appends to such a log cannot be read back. */
  lemma FirstEntryLost(log: bytes, es: seq<Log.Entry>)
    requires !Terminated(log) && Log.Entries(log).Ok? && es != [] && Once(es) && forall e :: e in es ==> Log.Writable(e)
    requires Log.Entries(Appended(log, es)).Ok?
    ensures forall x :: x in Log.Entries(Appended(log, es)).value && x.id == es[0].id ==> x in Log.Entries(log).value
  {
    hide Log.Entries, Log.Line, IsUtf8, Log.Writable;
    assert es[0] in es;
    Log.AppendLost(log, es[0]);
    var one := log + Log.Line(es[0]);
    assert Appended(log, es) == Appended(one, es[1..]);
    if Log.Entries(one).Err? {
      ErrStays(one, es[1..]);
    } else {
      AppendMany(one, es[1..]);
      FirstApart(es);
    }
  }

  lemma FirstApart(es: seq<Log.Entry>)
    requires Once(es) && es != []
    ensures forall x :: x in es[1..] ==> x.id != es[0].id
  {
    forall x | x in es[1..]
      ensures x.id != es[0].id
    {
      var n :| 1 <= n < |es| && es[n] == x;
    }
  }

  /** After an append to a log that does not end its last line, planning again
      fails or plans that entry once more. */
  lemma LostIsPlannedAgain(i: Import, final: Staged, k: nat, j: nat, rest: Staged)
    requires GoodImport(i) && PlanFiles(i.keys, i.disk, i.whole) == Ok(final)
    requires !Terminated(i.disk.log) && k <= |final.files| && 0 < j <= |final.log|
    requires PlanFiles(i.keys, Partly(i.disk, PlanOf(final), k, j), i.whole) == Ok(rest)
    ensures rest.log != final.log[j..]
  {
    hide Log.Entries, PlanDeeds, CollectTies, StageTies, TiesInOrder, AllAllowed, LogKept, GoodTies, Landed;
    hide GoodCarried, DistinctIds;
    hide CarriedById, LoggedById, Written, Appended, Log.Writable, ProductsHashed, TiesOf, NoLinks, EntryThere, IsUtf8;
    var after := Partly(i.disk, PlanOf(final), k, j);
    var again := Import(i.keys, after, i.whole);
    SameGood(i, after);
    EntriesOk(i, final);
    EntriesOk(again, rest);
    var logged, mid, ties := PlanFinished(i, final);
    var logged2, mid2, ties2 := PlanFinished(again, rest);
    PlannedEntries(i, logged, final.log);
    FirstIsNew(i, logged, final.log, j);
    FirstEntryLost(i.disk.log, final.log[..j]);
    EntriesPlanned(again, logged2, i.whole.carried, Staged([], [], 0));
    var id := final.log[0].id;
    CargoExact(i.whole.carried);
    assert EntryThere(logged2, rest.log, id) by {
      assert i.Cargo()[id].deed.id == id;
    }
    LoggedKeys(Log.Entries(i.disk.log).value, map[]);
    NotLogged(after.log, logged2, id, i.disk.log, logged);
    if rest.log == final.log[j..] {
      StillThere(logged2, rest.log, id);
      assert false;
    }
  }

  lemma StillThere(logged: ById, log: seq<Log.Entry>, id: bytes)
    requires EntryThere(logged, log, id) && id !in logged
    ensures exists e :: e in log && e.id == id
  {
  }

  lemma FirstIsNew(i: Import, logged: ById, log: seq<Log.Entry>, j: nat)
    requires LogKept(i, logged, log, []) && 0 < j <= |log|
    ensures log[0].id !in logged && log[0].id in i.Cargo()
    ensures Once(log[..j]) && log[..j] != [] && log[..j][0] == log[0]
    ensures forall e :: e in log[j..] ==> e.id != log[0].id
  {
    hide CarriedById;
    assert log[0] in log;
    forall e | e in log[j..]
      ensures e.id != log[0].id
    {
      var n :| j <= n < |log| && log[n] == e;
    }
  }

  lemma NotLogged(now: bytes, logged2: ById, id: bytes, was: bytes, logged: ById)
    requires Log.Entries(now).Ok? && LoggedById(Log.Entries(now).value, map[]) == Ok(logged2)
    requires Log.Entries(was).Ok? && (forall e :: e in Log.Entries(was).value ==> e.id in logged) && id !in logged
    requires forall x :: x in Log.Entries(now).value && x.id == id ==> x in Log.Entries(was).value
    ensures id !in logged2
  {
    hide Log.Entries, LoggedById;
    if id in logged2 {
      LoggedFrom(Log.Entries(now).value, map[], id);
      assert false;
    }
  }

  lemma SameGood(i: Import, disk: Disk)
    requires GoodImport(i)
    ensures GoodImport(Import(i.keys, disk, i.whole))
  {
    hide CarriedById, IsId, Readable, ParseReceipt, IsUtf8, GoodLink, ProofNames, DeedDigest;
    var again := Import(i.keys, disk, i.whole);
    forall c | c in i.whole.carried
      ensures GoodCarried(again, c)
    {
      assert GoodCarried(i, c);
    }
  }

  lemma EntriesOk(i: Import, final: Staged)
    requires PlanFiles(i.keys, i.disk, i.whole) == Ok(final)
    ensures Log.Entries(i.disk.log).Ok?
  {
    hide Log.Entries;
  }

  /** Stopped anywhere and asked for again, an import is planned again as exactly
      the rest if and only if nothing was appended yet or the log ended its last
      line before it. */
  lemma ResumesExactly(i: Import, final: Staged, k: nat, j: nat)
    requires GoodImport(i) && Plans(i.keys, i.disk, i.whole, final)
    requires k <= |final.files| && j <= |final.log|
    ensures (exists rest :: Resumes(i, final, k, j, rest)) <==> j == 0 || Terminated(i.disk.log)
  {
    hide GoodImport, PlanFiles, Written, Appended, Stopped, TrailsPass;
    if j == 0 || Terminated(i.disk.log) {
      var rest := ImportResumes(i, final, k, j);
      assert Resumes(i, final, k, j, rest);
    } else {
      forall rest
        ensures !Resumes(i, final, k, j, rest)
      {
        if PlanFiles(i.keys, Partly(i.disk, PlanOf(final), k, j), i.whole) == Ok(rest) {
          LostIsPlannedAgain(i, final, k, j, rest);
        }
      }
    }
  }

  ghost predicate Resumes(i: Import, final: Staged, k: nat, j: nat, rest: Staged)
    requires k <= |final.files| && j <= |final.log|
  {
    && Plans(i.keys, Partly(i.disk, PlanOf(final), k, j), i.whole, rest)
    && PlanOf(rest) == Rest(PlanOf(final), k, j)
  }
}
