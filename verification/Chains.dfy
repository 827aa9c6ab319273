/** Creates that finish, and deletes, keep every supersede chain single and
    forward in the log. */
module Chains {
  import opened Prelude
  import opened Text
  import opened Deeds
  import opened Current
  import opened Fitting
  import opened Graph
  import opened Ingest
  import opened Issuing
  import opened Minting
  import opened Order
  import opened Sidecars
  import opened Store
  import Frames
  import Log

  /** The files two disks agree on, but for what a create writes of its links. */
  ghost predicate SameLinks(before: Files, after: Files, d: bytes, supersedes: Option<bytes>) {
    && (forall x :: Cap(x) in after <==> x == d || Cap(x) in before)
    && (forall x :: Tomb(x) in after <==> Tomb(x) in before)
    && (forall x :: !(supersedes.Some? && x == d) ==> Agree(before, after, Supersedes(x)))
    && (forall x :: !(supersedes.Some? && x == supersedes.value) ==> Agree(before, after, Successor(x)))
  }

  ghost predicate Agree(before: Files, after: Files, n: FileName) {
    (n in after <==> n in before) && (n in before ==> after[n] == before[n])
  }

  ghost predicate LinkWritten(after: Files, d: bytes, prior: bytes) {
    && Supersedes(d) in after && after[Supersedes(d)] == NameLine(prior)
    && Successor(prior) in after && after[Successor(prior)] == NameLine(d)
  }

  ghost predicate LinkNames(writes: seq<Write>, d: bytes, supersedes: Option<bytes>) {
    forall w :: w in writes ==>
      || (w.name in {Cap(d), Evid(d), Host(d)})
      || (supersedes.Some? && (w.name == Supersedes(d) || w.name == Successor(supersedes.value)))
  }

  lemma OthersSame(files: Files, writes: seq<Write>, d: bytes, supersedes: Option<bytes>)
    requires LinkNames(writes, d, supersedes) && Cap(d) in Written(files, writes)
    ensures SameLinks(files, Written(files, writes), d, supersedes)
  {
    hide Written;
    var after := Written(files, writes);
    Others(files, writes);
    forall x
      ensures Cap(x) in after <==> x == d || Cap(x) in files
      ensures Tomb(x) in after <==> Tomb(x) in files
    {
      if x != d {
        assert Agree(files, after, Cap(x));
      }
      assert Agree(files, after, Tomb(x));
    }
  }

  /** What a create's writes leave of the files links are read from. */
  lemma CreateFiles(keys: Keys, files: Files, d: Deed, e: Evidence, supersedes: Option<bytes>)
    ensures var after := Written(files, CreateWrites(keys, d, e, supersedes));
            && SameLinks(files, after, d.id, supersedes)
            && (supersedes.Some? ==> LinkWritten(after, d.id, supersedes.value))
  {
    hide CapFrame, EvidenceFrame, NameLine, Written, Distinct, SameLinks;
    var writes := CreateWrites(keys, d, e, supersedes);
    CreateNames(keys, d, e, supersedes);
    assert writes[0] == Write(Cap(d.id), CapFrame(d));
    WrittenAt(files, writes, 0);
    OthersSame(files, writes, d.id, supersedes);
    if supersedes.Some? {
      var n := |writes|;
      assert writes[n - 2] == Write(Supersedes(d.id), NameLine(supersedes.value));
      assert writes[n - 1] == Write(Successor(supersedes.value), NameLine(d.id));
      WrittenAt(files, writes, n - 2);
      WrittenAt(files, writes, n - 1);
    }
  }

  lemma Others(files: Files, writes: seq<Write>)
    ensures forall n :: (forall w :: w in writes ==> w.name != n) ==> Agree(files, Written(files, writes), n)
  {
    forall n | forall w :: w in writes ==> w.name != n
      ensures Agree(files, Written(files, writes), n)
    {
      Unwritten(files, writes, n);
    }
  }

  function Extended(next: Chain, supersedes: Option<bytes>, d: bytes): Chain {
    if supersedes.Some? then next[supersedes.value := d] else next
  }

  lemma EarlierStays(entries: seq<Log.Entry>, e: Log.Entry, a: bytes, b: bytes)
    requires Earlier(entries, a, b)
    ensures Earlier(entries + [e], a, b)
  {
    var i: nat, j: nat :| LoggedAt(entries, a, i) && LoggedAt(entries, b, j) && i < j;
    assert LoggedAt(entries + [e], a, i) && LoggedAt(entries + [e], b, j);
  }

  lemma LastIsLater(entries: seq<Log.Entry>, e: Log.Entry, a: bytes)
    requires exists i :: LoggedAt(entries, a, i)
    ensures Earlier(entries + [e], a, e.id)
  {
    var i: nat :| LoggedAt(entries, a, i);
    assert LoggedAt(entries + [e], a, i) && LoggedAt(entries + [e], e.id, |entries|);
  }

  lemma AllLoggedStays(before: Files, after: Files, entries: seq<Log.Entry>, e: Log.Entry)
    requires AllLogged(before, entries)
    requires forall x :: Cap(x) in after <==> x == e.id || Cap(x) in before
    ensures AllLogged(after, entries + [e])
  {
    forall x | Cap(x) in after
      ensures exists i :: LoggedAt(entries + [e], x, i)
    {
      if x == e.id {
        assert LoggedAt(entries + [e], x, |entries|);
      } else {
        var i: nat :| LoggedAt(entries, x, i);
        assert LoggedAt(entries + [e], x, i);
      }
    }
  }

  /** A superseded deed and its successor are both held. */
  lemma LinkHeld(sha: Sha, disk: Disk, next: Chain, p: bytes)
    requires Chained(sha, disk, next) && p in next
    ensures Cap(p) in disk.files && Cap(next[p]) in disk.files
  {
    hide Log.Entries, AllHeld, Once, AllLogged, NameLine, IsId;
    var entries := Log.Entries(disk.log).value;
    assert LinkKept(disk.files, entries, p, next[p]);
    var i: nat, j: nat :| LoggedAt(entries, p, i) && LoggedAt(entries, next[p], j) && i < j;
    ChainedHeld(sha, disk, next, p, i);
    ChainedHeld(sha, disk, next, next[p], j);
  }

  /** A link that was there is there after a create of another deed. */
  lemma LinkStays(sha: Sha, disk: Disk, next: Chain, after: Files, d: bytes, supersedes: Option<bytes>, e: Log.Entry,
      p: bytes)
    requires Chained(sha, disk, next) && p in next
    requires SameLinks(disk.files, after, d, supersedes) && Cap(d) !in disk.files
    requires supersedes.Some? ==> supersedes.value != p
    ensures LinkKept(after, Log.Entries(disk.log).value + [e], p, next[p])
  {
    hide Log.Entries, AllHeld, Once, AllLogged, NameLine, IsId, Earlier;
    LinkHeld(sha, disk, next, p);
    assert LinkKept(disk.files, Log.Entries(disk.log).value, p, next[p]);
    EarlierStays(Log.Entries(disk.log).value, e, p, next[p]);
    assert Agree(disk.files, after, Supersedes(next[p]));
    assert Agree(disk.files, after, Successor(p));
  }

  lemma SuccessorsAreKeys(sha: Sha, disk: Disk, next: Chain, after: Files, d: bytes, supersedes: Option<bytes>)
    requires Chained(sha, disk, next) && SameLinks(disk.files, after, d, supersedes)
    ensures forall p :: Successor(p) in after ==> p in Extended(next, supersedes, d)
    ensures forall n :: Supersedes(n) in after && !(supersedes.Some? && n == d) ==> IsSuccessor(next, n)
  {
    hide Log.Entries, AllHeld, Once, AllLogged, NameLine, IsId, LinkKept;
    forall p | Successor(p) in after
      ensures p in Extended(next, supersedes, d)
    {
      assert (supersedes.Some? && p == supersedes.value) || Agree(disk.files, after, Successor(p));
    }
    forall n | Supersedes(n) in after && !(supersedes.Some? && n == d)
      ensures IsSuccessor(next, n)
    {
      assert Agree(disk.files, after, Supersedes(n));
    }
  }

  /** The log and the files after a create that wrote something and finished. */
  lemma Finished(keys: Keys, disk: Disk, req: Frames.CreateRequest, made: Result<Deed>, time: nat, c: Creation)
    requires Sound(keys.sha, disk) && time < U64
    requires Create(keys, disk.files, req, made, time) == Ok(c) && c.plan != Plan([], []) && Fits(c.deed)
    ensures Sound(keys.sha, Done(disk, c.plan))
    ensures Log.Entries(Done(disk, c.plan).log).value
            == Log.Entries(disk.log).value + [EntryFor(keys.sha, c.deed, time)]
    ensures SameLinks(disk.files, Done(disk, c.plan).files, c.deed.id, req.supersedes)
    ensures req.supersedes.Some? ==> LinkWritten(Done(disk, c.plan).files, c.deed.id, req.supersedes.value)
  {
    hide Create, CreateWrites, Sound, SoundPlan, Log.Entries, Fits, SameLinks, LinkWritten, Written, Appended;
    hide EntryFor;
    MintedFacts(keys, disk.files, req, made, time);
    CreateSound(keys, disk, req, made, time);
    SoundKept(keys.sha, disk, c.plan, |c.plan.writes|, 1);
    assert c.plan.writes[..|c.plan.writes|] == c.plan.writes && c.plan.entries[..1] == c.plan.entries;
    CreateFiles(keys, disk.files, c.deed, c.evidence, req.supersedes);
  }

  /** A create that finishes keeps every chain single and forward. */
  lemma CreateKeepsChains(keys: Keys, disk: Disk, next: Chain, req: Frames.CreateRequest, made: Result<Deed>,
      time: nat, c: Creation)
    requires Chained(keys.sha, disk, next) && time < U64
    requires Create(keys, disk.files, req, made, time) == Ok(c) && Fits(made.value)
    ensures Chained(keys.sha, Done(disk, c.plan),
                    if c.plan == Plan([], []) then next else Extended(next, req.supersedes, c.deed.id))
  {
    hide Create, Log.Entries, Fits, SameLinks, AllHeld, Once, Earlier, AllLogged, IsId, LinkKept, EntryFor, Written;
    MintedFacts(keys, disk.files, req, made, time);
    if c.plan != Plan([], []) {
      Finished(keys, disk, req, made, time, c);
      var after, d, e := Done(disk, c.plan), c.deed.id, EntryFor(keys.sha, c.deed, time);
      var entries, longer := Log.Entries(disk.log).value, Extended(next, req.supersedes, d);
      EntryNames(keys.sha, c.deed, time);
      CapsAfter(disk.files, after.files, d, req.supersedes);
      AllLoggedStays(disk.files, after.files, entries, e);
      SuccessorsAreKeys(keys.sha, disk, next, after.files, d, req.supersedes);
      forall p | p in longer
        ensures LinkKept(after.files, entries + [e], p, longer[p])
      {
        if req.supersedes == Some(p) {
          NewLink(keys, disk, next, after.files, c.deed, e, p);
        } else {
          LinkStays(keys.sha, disk, next, after.files, d, req.supersedes, e, p);
        }
      }
      if req.supersedes.Some? && req.supersedes.value in next {
        LinkHere(keys.sha, disk, next, req.supersedes.value);
        assert false;
      }
      OldStay(next, req.supersedes, d);
    } else {
      assert Done(disk, c.plan) == disk by {
        NothingDone(disk);
      }
    }
  }

  lemma EntryNames(sha: Sha, d: Deed, time: nat)
    ensures EntryFor(sha, d, time).id == d.id
  {
  }

  lemma CapsAfter(before: Files, after: Files, d: bytes, supersedes: Option<bytes>)
    requires SameLinks(before, after, d, supersedes)
    ensures forall x :: Cap(x) in after <==> x == d || Cap(x) in before
  {
  }

  lemma LinkHere(sha: Sha, disk: Disk, next: Chain, p: bytes)
    requires Chained(sha, disk, next) && p in next
    ensures Successor(p) in disk.files
  {
    hide Log.Entries, AllHeld, Once, AllLogged, NameLine, IsId, Earlier;
    assert LinkKept(disk.files, Log.Entries(disk.log).value, p, next[p]);
  }

  /** What was named a successor still is. */
  lemma OldStay(next: Chain, supersedes: Option<bytes>, d: bytes)
    requires supersedes.Some? ==> supersedes.value !in next
    ensures forall n :: IsSuccessor(next, n) ==> IsSuccessor(Extended(next, supersedes, d), n)
    ensures supersedes.Some? ==> IsSuccessor(Extended(next, supersedes, d), d)
  {
    var longer := Extended(next, supersedes, d);
    if supersedes.Some? {
      assert longer[supersedes.value] == d;
    }
    forall n | IsSuccessor(next, n)
      ensures IsSuccessor(longer, n)
    {
      var p :| p in next && next[p] == n;
      assert longer[p] == n;
    }
  }

  lemma FitsId(d: Deed)
    requires Fits(d)
    ensures IsId(d.id)
  {
  }

  lemma NewLink(keys: Keys, disk: Disk, next: Chain, after: Files, d: Deed, e: Log.Entry, prior: bytes)
    requires Chained(keys.sha, disk, next) && Cap(prior) in disk.files && e.id == d.id
    requires Fits(d) && LinkWritten(after, d.id, prior)
    ensures LinkKept(after, Log.Entries(disk.log).value + [e], prior, d.id)
  {
    hide Log.Entries, AllHeld, Once, Fits, IsId, Earlier, NameLine;
    FitsId(d);
    var i: nat :| LoggedAt(Log.Entries(disk.log).value, prior, i);
    ChainedHeld(keys.sha, disk, next, prior, i);
    LastIsLater(Log.Entries(disk.log).value, e, prior);
  }

  /** So does a delete. */
  lemma DeleteKeepsChains(sha: Sha, disk: Disk, next: Chain, id: bytes, plan: Plan)
    requires Chained(sha, disk, next) && Delete(disk.files, id) == Ok(plan)
    ensures Chained(sha, Done(disk, plan), next)
  {
    hide Log.Entries, Earlier, NameLine, IsId, Ascii, Once;
    var after := Done(disk, plan).files;
    OneWritten(disk.files, plan.writes[0]);
    assert after == disk.files[Tomb(id) := Ascii("tomb")];
    forall e | e in Log.Entries(disk.log).value
      ensures Held(sha, after, e)
    {
      assert Held(sha, disk.files, e);
    }
    forall p | p in next
      ensures LinkKept(after, Log.Entries(disk.log).value, p, next[p])
    {
      assert LinkKept(disk.files, Log.Entries(disk.log).value, p, next[p]);
    }
  }

  // ---------- whole creates ----------

  /** Product bytes are no part of a chain. */
  lemma ShelfKeepsChains(sha: Sha, disk: Disk, after: Files, next: Chain)
    requires Chained(sha, disk, next) && SameButProducts(disk.files, after)
    ensures Chained(sha, Disk(after, disk.log), next)
  {
    hide Log.Entries, Earlier, NameLine, IsId, Once, SameButProducts, Frames.DecodeResponse;
    var entries := Log.Entries(disk.log).value;
    forall e | e in entries
      ensures Held(sha, after, e)
    {
      assert Held(sha, disk.files, e);
      SameCap(disk.files, after, e.id);
    }
    forall p | p in next
      ensures LinkKept(after, entries, p, next[p])
    {
      assert LinkKept(disk.files, entries, p, next[p]);
      SameLink(disk.files, after, Successor(p));
      SameLink(disk.files, after, Supersedes(next[p]));
    }
    forall n: FileName | !n.Product?
      ensures n in after <==> n in disk.files
    {
      SameLink(disk.files, after, n);
    }
  }

  lemma SameLink(before: Files, after: Files, n: FileName)
    requires SameButProducts(before, after) && !n.Product?
    ensures Agree(before, after, n)
  {
  }

  lemma SameCap(before: Files, after: Files, id: bytes)
    requires SameButProducts(before, after)
    ensures CapDeed(after, id) == CapDeed(before, id)
  {
    assert Agree(before, after, Cap(id));
  }

  /** A whole create that finishes, granted or refused, keeps every chain single
      and forward. */
  lemma AttemptKeepsChains(keys: Keys, disk: Disk, next: Chain, ask: Ask) returns (longer: Chain)
    requires Chained(keys.sha, disk, next) && ask.time < U64
    requires Made(keys, disk.files, ask).Ok? ==> Fits(Made(keys, disk.files, ask).value)
    ensures Chained(keys.sha, Done(disk, Attempt(keys, disk.files, ask).plan), longer)
  {
    hide Attempt, Create, Chained, Fits, Written, Shelf, Made, SameButProducts, OnlyShelved, Appended;
    var files, plan := disk.files, Attempt(keys, disk.files, ask).plan;
    longer := next;
    if Attempt(keys, files, ask).answer.Err? {
      RefusedOnlyShelves(keys, files, ask);
      ShelvedSame(keys.sha, files, Written(files, plan.writes));
      NoneAppended(disk.log);
      ShelfKeepsChains(keys.sha, disk, Written(files, plan.writes), next);
    } else {
      var c := AttemptGranted(keys, files, ask);
      var shelf := Shelf(keys, files, ask);
      ShelfSame(keys, files, ask, 0);
      var now := Disk(Written(files, shelf), disk.log);
      ShelfKeepsChains(keys.sha, disk, now.files, next);
      MintedFacts(keys, now.files, ask.req, Made(keys, files, ask), ask.time);
      if c.plan != Plan([], []) {
        longer := Extended(next, ask.req.supersedes, c.deed.id);
      }
      MadeOk(keys, now.files, ask.req, Made(keys, files, ask), ask.time);
      CreateKeepsChains(keys, now, next, ask.req, Made(keys, files, ask), ask.time, c);
      WrittenConcat(files, shelf, c.plan.writes);
    }
  }
}
