/** A create that stops, and another that supersedes the same deed: when it is
    granted, and when it leaves two successors. */
module Forks {
  import opened Prelude
  import opened Text
  import opened Deeds
  import opened Chains
  import opened Current
  import opened Fitting
  import opened Ingest
  import opened Issuing
  import opened Minting
  import opened Order
  import opened Sidecars
  import opened Store
  import Frames
  import Log

  // ---------- what a stopped create leaves of its links ----------

  /** What part of a create's writes change of caps and links: the deed's cap,
      its own sidecar, and last its prior's. */
  ghost predicate PartLinks(before: Files, after: Files, d: bytes, prior: bytes, capped: bool, named: bool,
      linked: bool)
  {
    && (forall x :: Tomb(x) in after <==> Tomb(x) in before)
    && (forall x :: Cap(x) in after <==> Cap(x) in before || (capped && x == d))
    && (forall x :: !(named && x == d) ==> Agree(before, after, Supersedes(x)))
    && (forall x :: !(linked && x == prior) ==> Agree(before, after, Successor(x)))
    && (named ==> Supersedes(d) in after && after[Supersedes(d)] == NameLine(prior))
    && (linked ==> Successor(prior) in after && after[Successor(prior)] == NameLine(d))
  }

  lemma PartNames(keys: Keys, d: Deed, e: Evidence, prior: bytes, k: nat)
    requires k <= |CreateWrites(keys, d, e, Some(prior))|
    ensures var writes := CreateWrites(keys, d, e, Some(prior));
            var n := |writes|;
            && n >= 4 && writes[0] == Write(Cap(d.id), CapFrame(d))
            && writes[n - 2] == Write(Supersedes(d.id), NameLine(prior))
            && writes[n - 1] == Write(Successor(prior), NameLine(d.id))
            && forall w :: w in writes[..k] ==>
                 || (w.name in {Evid(d.id), Host(d.id)}) || (k > 0 && w.name == Cap(d.id))
                 || (k >= n - 1 && w.name == Supersedes(d.id)) || (k == n && w.name == Successor(prior))
  {
    hide CapFrame, EvidenceFrame, NameLine;
  }

  lemma PartFiles(keys: Keys, files: Files, d: Deed, e: Evidence, prior: bytes, k: nat)
    requires k <= |CreateWrites(keys, d, e, Some(prior))|
    ensures var writes := CreateWrites(keys, d, e, Some(prior));
            PartLinks(files, Written(files, writes[..k]), d.id, prior, k > 0, k >= |writes| - 1, k == |writes|)
  {
    hide CreateWrites, Written, NameLine, CapFrame, Distinct;
    var writes := CreateWrites(keys, d, e, Some(prior));
    var n, part := |writes|, writes[..k];
    PartNames(keys, d, e, prior, k);
    CreateNames(keys, d, e, Some(prior));
    TakeDistinct(writes, k);
    Others(files, part);
    if k > 0 {
      assert part[0] == writes[0];
      WrittenAt(files, part, 0);
    }
    if k >= n - 1 {
      assert part[n - 2] == writes[n - 2];
      WrittenAt(files, part, n - 2);
    }
    if k == n {
      assert part[n - 1] == writes[n - 1];
      WrittenAt(files, part, n - 1);
    }
    PartOthers(files, part, d.id, prior, k > 0, k >= n - 1, k == n);
  }

  lemma PartOthers(files: Files, part: seq<Write>, d: bytes, prior: bytes, capped: bool, named: bool, linked: bool)
    requires forall n :: (forall w :: w in part ==> w.name != n) ==> Agree(files, Written(files, part), n)
    requires forall w :: w in part ==>
                           || (w.name in {Evid(d), Host(d)}) || (capped && w.name == Cap(d))
                           || (named && w.name == Supersedes(d)) || (linked && w.name == Successor(prior))
    requires capped ==> Cap(d) in Written(files, part)
    requires var after := Written(files, part);
             && (named ==> Supersedes(d) in after && after[Supersedes(d)] == NameLine(prior))
             && (linked ==> Successor(prior) in after && after[Successor(prior)] == NameLine(d))
    ensures PartLinks(files, Written(files, part), d, prior, capped, named, linked)
  {
    hide Written, NameLine;
    var after := Written(files, part);
    forall x
      ensures Tomb(x) in after <==> Tomb(x) in files
      ensures Cap(x) in after <==> Cap(x) in files || (capped && x == d)
    {
      assert Agree(files, after, Tomb(x));
      if !(capped && x == d) {
        assert Agree(files, after, Cap(x));
      }
    }
  }

  lemma PartShelved(before: Files, mid: Files, after: Files, d: bytes, prior: bytes, capped: bool, named: bool,
      linked: bool)
    requires PartLinks(before, mid, d, prior, capped, named, linked) && SameButProducts(mid, after)
    ensures PartLinks(before, after, d, prior, capped, named, linked)
  {
    hide NameLine;
    forall n: FileName | !n.Product?
      ensures Agree(mid, after, n)
    {
    }
    forall x
      ensures Tomb(x) in after <==> Tomb(x) in mid
      ensures Cap(x) in after <==> Cap(x) in mid
    {
      assert Agree(mid, after, Tomb(x)) && Agree(mid, after, Cap(x));
    }
    forall x
      ensures Agree(mid, after, Supersedes(x)) && Agree(mid, after, Successor(x))
    {
    }
  }

  // ---------- who claims the prior ----------

  /** A served deed whose sidecar names `prior` and nothing else. */
  ghost predicate Claims(files: Files, id: bytes, prior: bytes) {
    && IsId(id) && IsId(prior) && Serves(files, id)
    && Supersedes(id) in files && files[Supersedes(id)] == NameLine(prior)
  }

  lemma ClaimNames(files: Files, id: bytes, prior: bytes)
    requires Claims(files, id, prior)
    ensures NamesPrior(files, id, prior)
  {
    hide IsId, ReadSupersedes, NameLine;
    NameLineReads(prior);
    Parses(id);
  }

  /** The deeds of `who` claim one prior, its own sidecar names one of them, and
      no other sidecar names it. */
  ghost predicate ClaimedBy(files: Files, prior: bytes, who: set<bytes>, last: bytes) {
    && last in who && (forall s :: s in who ==> Claims(files, s, prior))
    && Successor(prior) in files && files[Successor(prior)] == NameLine(last)
    && forall s :: Supersedes(s) in files && s !in who ==>
                     ReadSupersedes(files[Supersedes(s)]).Ok? && !NamesPrior(files, s, prior)
  }

  lemma ClaimantsAreSuccessors(files: Files, prior: bytes, who: set<bytes>, last: bytes)
    requires ClaimedBy(files, prior, who, last)
    ensures SupersededBy(files).Ok?
    ensures Step(files, SupersededBy(files).value, prior) == Ok(InOrder(who))
  {
    hide NameLine, IsId, SupersededBy, InOrder, ReadSuccessor, ReadSupersedes, NamesPrior;
    forall s | s in who
      ensures NamesPrior(files, s, prior)
    {
      ClaimNames(files, s, prior);
    }
    assert Claims(files, last, prior);
    NameLineReads(prior);
    NameLineReads(last);
    ClaimsRead(files, prior, who);
    SupersededByExact(files);
    Absent(files, prior);
    var back := SupersededBy(files).value;
    assert forall s :: s in Named(back, prior) <==> s in who;
    assert NextTip(files, prior) == Ok(Some(last));
    assert {last} + Named(back, prior) == who;
  }

  lemma ClaimsRead(files: Files, prior: bytes, who: set<bytes>)
    requires forall s :: s in who ==> Claims(files, s, prior)
    ensures forall s :: s in who ==> Supersedes(s) in files && ReadSupersedes(files[Supersedes(s)]).Ok?
  {
    hide IsId, ReadSupersedes, NameLine;
    forall s | s in who
      ensures Supersedes(s) in files && ReadSupersedes(files[Supersedes(s)]).Ok?
    {
      assert Claims(files, s, prior);
      NameLineReads(prior);
    }
  }

  lemma Absent(files: Files, prior: bytes)
    ensures forall s :: NamesPrior(files, s, prior) ==> Supersedes(s) in files
  {
    hide ReadSupersedes, Live;
  }

  /** A sidecar a finished store held names another prior than one that has no
      successor yet. */
  lemma OldClaim(sha: Sha, disk: Disk, next: Chain, files: Files, s: bytes, prior: bytes)
    requires Chained(sha, disk, next) && Successor(prior) !in disk.files
    requires Supersedes(s) in disk.files && Supersedes(s) in files && files[Supersedes(s)] == disk.files[Supersedes(s)]
    ensures ReadSupersedes(files[Supersedes(s)]).Ok? && !NamesPrior(files, s, prior)
  {
    hide Log.Entries, AllHeld, Once, AllLogged, NameLine, IsId, Earlier, ReadSupersedes, Live;
    var p :| p in next && next[p] == s;
    LinkHere(sha, disk, next, p);
    assert LinkKept(disk.files, Log.Entries(disk.log).value, p, s);
    NameLineReads(p);
  }

  lemma PriorIsId(sha: Sha, disk: Disk, next: Chain, prior: bytes)
    requires Chained(sha, disk, next) && Cap(prior) in disk.files
    ensures IsId(prior)
  {
    hide Log.Entries, IsId, AllHeld, Once;
    var i: nat :| LoggedAt(Log.Entries(disk.log).value, prior, i);
    ChainedHeld(sha, disk, next, prior, i);
  }

  /** A deed the store does not hold has no sidecar there. */
  lemma NoOldSidecar(sha: Sha, disk: Disk, next: Chain, d: bytes)
    requires Chained(sha, disk, next) && Cap(d) !in disk.files
    ensures Supersedes(d) !in disk.files
  {
    hide Log.Entries, AllHeld, Once, AllLogged, NameLine, IsId, LinkKept;
    if Supersedes(d) in disk.files {
      var p :| p in next && next[p] == d;
      LinkHeld(sha, disk, next, p);
    }
  }

  /** After the first create stops and the second finishes: both claim the prior
      when the first had named it, else the second alone. */
  lemma WhoClaims(sha: Sha, disk: Disk, next: Chain, prior: bytes, now: Files, end: Files, a: bytes, b: bytes,
      capped: bool, named: bool)
    requires Chained(sha, disk, next) && IsId(prior) && IsId(a) && IsId(b) && Successor(prior) !in disk.files
    requires PartLinks(disk.files, now, a, prior, capped, named, false)
    requires PartLinks(now, end, b, prior, true, true, true)
    requires Cap(a) !in disk.files && Tomb(a) !in disk.files && Cap(b) !in now && Tomb(b) !in now
    requires named ==> capped
    ensures ClaimedBy(end, prior, if named then {a, b} else {b}, b) && (capped ==> a != b)
  {
    hide NameLine, IsId, Chained, ReadSupersedes, NamesPrior;
    var who := if named then {a, b} else {b};
    NoOldSidecar(sha, disk, next, a);
    assert Cap(a) in now <==> capped;
    assert Agree(now, end, Supersedes(a)) || a == b;
    forall s | Supersedes(s) in end && s !in who
      ensures ReadSupersedes(end[Supersedes(s)]).Ok? && !NamesPrior(end, s, prior)
    {
      assert Agree(now, end, Supersedes(s)) && Agree(disk.files, now, Supersedes(s));
      OldClaim(sha, disk, next, end, s, prior);
    }
  }

  // ---------- one create after another ----------

  /** What a create needs of the store to mint its deed, beyond a prior that is
      held and has no successor. */
  ghost predicate Mintable(files: Files, req: Frames.CreateRequest, made: Result<Deed>, prior: bytes) {
    && (req.id.Some? ==> req.id.value != prior && Tomb(req.id.value) !in files)
    && made.Ok? && Cap(made.value.id) !in files && Tomb(made.value.id) !in files
  }

  /** Over what a stopped create left, another that supersedes the same deed is
      granted exactly when the prior's own sidecar is not written yet, as it would
      have been before, but for the accession the first took. */
  lemma SecondGranted(
    keys: Keys, files: Files, prior: bytes, req: Frames.CreateRequest, made: Result<Deed>, time: nat, c: Creation,
    k: nat, now: Files, req2: Frames.CreateRequest, made2: Result<Deed>, time2: nat)
    requires Create(keys, files, req, made, time) == Ok(c) && req.supersedes == Some(prior) == req2.supersedes
    requires k <= |c.plan.writes| && SameButProducts(Written(files, c.plan.writes[..k]), now)
    ensures Create(keys, now, req2, made2, time2).Ok? <==>
            k < |c.plan.writes| && Mintable(files, req2, made2, prior) && (k > 0 ==> made2.value.id != c.deed.id)
  {
    hide CreateWrites, Written, NameLine, SameButProducts, Get, LoadEvidence, CapFrame, EvidenceFrame, EvidenceAt;
    hide EntryFor;
    MintedFacts(keys, files, req, made, time);
    var n := |c.plan.writes|;
    PartFiles(keys, files, c.deed, c.evidence, prior, k);
    PartShelved(files, Written(files, c.plan.writes[..k]), now, c.deed.id, prior, k > 0, k >= n - 1, k == n);
    if k < n {
      assert Agree(files, now, Successor(prior));
    }
  }

  /** And once granted and finished, it leaves the prior with two successors if
      and only if the first stopped between its two link files. */
  lemma SecondForks(
    keys: Keys, disk: Disk, next: Chain, prior: bytes, req: Frames.CreateRequest, made: Result<Deed>, time: nat,
    c: Creation, k: nat, now: Files, req2: Frames.CreateRequest, made2: Result<Deed>, time2: nat, c2: Creation)
    requires Chained(keys.sha, disk, next) && req.supersedes == Some(prior) == req2.supersedes
    requires Create(keys, disk.files, req, made, time) == Ok(c) && Fits(c.deed)
    requires k <= |c.plan.writes| && SameButProducts(Written(disk.files, c.plan.writes[..k]), now)
    requires Create(keys, now, req2, made2, time2) == Ok(c2) && Fits(c2.deed)
    ensures var end, stopped := Written(now, c2.plan.writes), k == |c.plan.writes| - 1;
            && SupersededBy(end).Ok?
            && Step(end, SupersededBy(end).value, prior)
               == Ok(InOrder(if stopped then {c.deed.id, c2.deed.id} else {c2.deed.id}))
            && (stopped ==> c.deed.id != c2.deed.id)
  {
    hide Create, CreateWrites, Fits, Written, NameLine, IsId, Chained, ClaimedBy, Step, PartLinks, SameButProducts;
    var n, a, b := |c.plan.writes|, c.deed.id, c2.deed.id;
    var end := Written(now, c2.plan.writes);
    SecondGranted(keys, disk.files, prior, req, made, time, c, k, now, req2, made2, time2);
    MintedFacts(keys, disk.files, req, made, time);
    MintedFacts(keys, now, req2, made2, time2);
    PartFiles(keys, disk.files, c.deed, c.evidence, prior, k);
    PartShelved(disk.files, Written(disk.files, c.plan.writes[..k]), now, a, prior, k > 0, k >= n - 1, k == n);
    PartFiles(keys, now, c2.deed, c2.evidence, prior, |c2.plan.writes|);
    assert c2.plan.writes[..|c2.plan.writes|] == c2.plan.writes;
    PartNames(keys, c.deed, c.evidence, prior, k);
    FitsId(c.deed);
    FitsId(c2.deed);
    PriorIsId(keys.sha, disk, next, prior);
    WhoClaims(keys.sha, disk, next, prior, now, end, a, b, k > 0, k >= n - 1);
    ClaimantsAreSuccessors(end, prior, if k >= n - 1 then {a, b} else {b}, b);
  }

  // ---------- whole creates ----------

  /** The shelf and the writes that a stop after `k` writes of a create finished. */
  lemma StoppedAttempt(keys: Keys, files: Files, ask: Ask, k: nat) returns (c: Creation)
    requires Attempt(keys, files, ask).answer.Ok? && k <= |Attempt(keys, files, ask).plan.writes|
    ensures var shelf := Shelf(keys, files, ask);
            var n := if k < |shelf| then 0 else k - |shelf|;
            && Create(keys, Written(files, shelf), ask.req, Made(keys, files, ask), ask.time) == Ok(c)
            && Attempt(keys, files, ask).plan.writes == shelf + c.plan.writes && n <= |c.plan.writes|
            && SameButProducts(Written(Written(files, shelf), c.plan.writes[..n]),
                               Written(files, Attempt(keys, files, ask).plan.writes[..k]))
  {
    hide Attempt, Create, Written, Shelf, Made, SameButProducts;
    c := AttemptGranted(keys, files, ask);
    var shelf, writes := Shelf(keys, files, ask), Attempt(keys, files, ask).plan.writes;
    if k < |shelf| {
      ShelfSame(keys, files, ask, k);
      assert writes[..k] == shelf[..k] && c.plan.writes[..0] == [];
      Turned(files, Written(files, shelf), Written(files, shelf[..k]));
      NoneWritten(Written(files, shelf));
    } else {
      var n := k - |shelf|;
      assert writes[..k] == shelf + c.plan.writes[..n];
      WrittenConcat(files, shelf, c.plan.writes[..n]);
      Itself(Written(files, writes[..k]));
    }
  }

  lemma Itself(files: Files)
    ensures SameButProducts(files, files)
  {
  }

  lemma Turned(files: Files, a: Files, b: Files)
    requires SameButProducts(files, a) && SameButProducts(files, b)
    ensures SameButProducts(a, b)
  {
  }

  lemma Onward(a: Files, b: Files, c: Files)
    requires SameButProducts(a, b) && SameButProducts(b, c)
    ensures SameButProducts(a, c)
  {
  }

  lemma SameMintable(a: Files, b: Files, req: Frames.CreateRequest, made: Result<Deed>, prior: bytes)
    requires SameButProducts(a, b)
    ensures Mintable(a, req, made, prior) <==> Mintable(b, req, made, prior)
  {
  }

  /** One create superseding a deed stops after `k` writes and another is asked.
      It is granted exactly when the first's last write is not done, on the terms
      it would have had before, but for the accession the first took; and then it
      leaves the deed with two successors if and only if that last write is the
      only one the first had left. */
  lemma StoppedCreateForks(keys: Keys, disk: Disk, next: Chain, prior: bytes, first: Ask, k: nat, second: Ask)
    requires Chained(keys.sha, disk, next) && first.req.supersedes == Some(prior) == second.req.supersedes
    requires Attempt(keys, disk.files, first).answer.Ok? && Fits(Made(keys, disk.files, first).value)
    requires k <= |Attempt(keys, disk.files, first).plan.writes|
    ensures var writes := Attempt(keys, disk.files, first).plan.writes;
            var stopped := Written(disk.files, writes[..k]);
            var a, made := Made(keys, disk.files, first).value.id, Made(keys, stopped, second);
            var after := Attempt(keys, stopped, second);
            var end := Written(stopped, after.plan.writes);
            && (after.answer.Ok? <==>
                  && k < |writes| && Mintable(disk.files, second.req, made, prior)
                  && (k > |Shelf(keys, disk.files, first)| ==> made.value.id != a))
            && (after.answer.Ok? && Fits(made.value) ==>
                  && SupersededBy(end).Ok?
                  && Step(end, SupersededBy(end).value, prior)
                     == Ok(InOrder(if k == |writes| - 1 then {a, made.value.id} else {made.value.id}))
                  && (k == |writes| - 1 ==> a != made.value.id))
  {
    hide Attempt, Create, Fits, Written, Shelf, Made, SameButProducts, Chained, Mintable, Step, SupersededBy;
    hide CreateWrites;
    var files, shelf := disk.files, Shelf(keys, disk.files, first);
    var c := StoppedAttempt(keys, files, first, k);
    var n := if k < |shelf| then 0 else k - |shelf|;
    var writes := shelf + c.plan.writes;
    var stopped, filled := Written(files, writes[..k]), Disk(Written(files, shelf), disk.log);
    var made, made2 := Made(keys, files, first), Made(keys, stopped, second);
    var now := Written(stopped, Shelf(keys, stopped, second));
    ShelfSame(keys, files, first, 0);
    ShelfKeepsChains(keys.sha, disk, filled.files, next);
    ShelfSame(keys, stopped, second, 0);
    Onward(Written(filled.files, c.plan.writes[..n]), stopped, now);
    MintedFacts(keys, filled.files, first.req, made, first.time);
    PartNames(keys, c.deed, c.evidence, prior, n);
    SecondGranted(keys, filled.files, prior, first.req, made, first.time, c, n, now, second.req, made2, second.time);
    SameMintable(files, filled.files, second.req, made2, prior);
    GrantedExact(keys, stopped, second);
    if Attempt(keys, stopped, second).answer.Ok? {
      var c2 := AttemptGranted(keys, stopped, second);
      MintedFacts(keys, now, second.req, made2, second.time);
      if Fits(made2.value) {
        SecondForks(
          keys, filled, next, prior, first.req, made, first.time, c, n, now, second.req, made2, second.time, c2);
        WrittenConcat(stopped, Shelf(keys, stopped, second), c2.plan.writes);
      }
    }
  }
}
