/** Checking a whole handover, and what a receiver who keeps heads is safe
    from along a run of them. */
module Handover {
  import opened Prelude
  import opened Text
  import opened Order
  import opened Bag
  import opened Deeds
  import opened Receipt
  import Address
  import Hex
  import Log
  import Merkle
  import SignedHead
  import Wire

  /** The hash and the signature scheme a check relies on. */
  datatype Crypto = Crypto(sha: Sha, verify: SignedHead.Verify)

  datatype Handover = Handover(
    proven: seq<bytes>, head: Option<Merkle.Head>, signer: Option<Digest>, accepted: bool, listed: bool)

  // ---------- one head against an earlier one ----------

  /** Whether the log behind `now` is the log behind `kept`, grown. */
  function CheckSince(sha: Sha, kept: Merkle.Head, bridge: Option<Bridge>, now: Merkle.Head): Result<()> {
    if now.size < kept.size then Err(Evidence)
    else
      match bridge
      case None => Need(kept == now, Evidence)
      case Some(b) =>
        if b.start != kept || b.end != now then Err(Evidence)
        else Need(Merkle.Extends(sha, b.start, b.end, b.path), Evidence)
  }

  // ---------- one folder ----------

  /** Every product file hashes to its name, and every path of the deed is a
      write-once address with such a file. */
  predicate ProductsHold(sha: Sha, f: Folder, d: Deed) {
    && (forall n :: n in f.products ==> Hex.Render(sha(f.products[n])) == n)
    && (forall p :: p in d.paths ==> Address.HexOf(p).Some? && Address.HexOf(p).value in f.products)
  }

  predicate NamedFor(name: bytes, proofId: bytes, deedId: bytes) {
    IsId(name) && name == proofId && name == deedId
  }

  predicate OnPath(sha: Sha, r: Receipt) {
    Merkle.Includes(sha, Merkle.LeafHash(sha, Log.Material(EntryOf(r))), r.index, HeadOf(r), r.path)
  }

  /** One folder against the head everything before it was held to, if any. */
  function FolderReceipt(sha: Sha, name: bytes, f: Folder, held: Option<Merkle.Head>): Result<Receipt> {
    if f.proof.None? || !IsUtf8(f.proof.value) then Err(Evidence)
    else
      var r :- ParseReceipt(f.proof.value);
      if f.deed.None? then Err(Evidence)
      else if Address.Of(sha, f.deed.value) != r.digest then Err(Evidence)
      else
        var d :- Wire.DeedFromBytes(f.deed.value);
        if !NamedFor(name, r.id, d.id) then Err(Evidence)
        else if !ProductsHold(sha, f, d) then Err(Evidence)
        else if held.Some? && held.value != HeadOf(r) then Err(Evidence)
        else if !OnPath(sha, r) then Err(Evidence)
        else Ok(r)
  }

  // ---------- the head line ----------

  /** The fields of a head line that moved. */
  datatype Moved = MovedSize | MovedRoot | MovedLinks | Uncovered

  function HeadMoved(c: Crypto, bag: Bag, s: SignedHead.SignedHead, held: Option<Merkle.Head>): seq<Moved> {
    var links := if s.links.None? then Ok(None) else
                   match Commitment(c.sha, bag)
                   case Err(e) => Err(e)
                   case Ok(l) => Ok(Some(l));
    if links.Err? then [Uncovered]
    else if held.None? || !SignedHead.Covers(c.verify, s, held.value, links.value) then [Uncovered]
    else
      (if held.value.size != s.head.size then [MovedSize] else [])
      + (if held.value.root != s.head.root then [MovedRoot] else [])
      + (if links.value.Some? && s.links.Some? && links.value != s.links then [MovedLinks] else [])
  }

  /** A head line its signature does not cover is always complained of. */
  lemma MovedIsNamed(c: Crypto, bag: Bag, s: SignedHead.SignedHead, held: Option<Merkle.Head>)
    requires !SignedHead.Covers(c.verify, s, s.head, s.links)
    ensures HeadMoved(c, bag, s, held) != []
  {
  }

  function ReadHeadLine(bag: Bag): Result<Option<SignedHead.SignedHead>> {
    match bag.head
    case None => Ok(None)
    case Some(raw) =>
      if !IsUtf8(raw) then Err(Evidence)
      else
        var s :- SignedHead.Parse(raw);
        Ok(Some(s))
  }

  // ---------- the whole bag ----------

  /** What the folders so far amount to: the accessions proven, the head of the
      first, and how many complaints. */
  datatype Tally = Tally(proven: seq<bytes>, head: Option<Merkle.Head>, wrong: nat)

  function Add(sha: Sha, bag: Bag, signed: Option<Merkle.Head>, t: Tally, name: bytes): Tally
    requires name in bag.folders
  {
    match FolderReceipt(sha, name, bag.folders[name], if signed.Some? then signed else t.head)
    case Err(_) => t.(wrong := t.wrong + 1)
    case Ok(r) => Tally(t.proven + [r.id], if t.head.None? then Some(HeadOf(r)) else t.head, t.wrong)
  }

  function AddAll(sha: Sha, bag: Bag, signed: Option<Merkle.Head>, t: Tally, names: seq<bytes>): Tally
    requires NamesIn(names, bag.folders)
    decreases names
  {
    if names == [] then t else AddAll(sha, bag, signed, Add(sha, bag, signed, t, names[0]), names[1..])
  }

  function CoveredHead(c: Crypto, s: Option<SignedHead.SignedHead>): Option<Merkle.Head> {
    if s.Some? && SignedHead.Covers(c.verify, s.value, s.value.head, s.value.links) then Some(s.value.head) else None
  }

  /** Complaints about the head line. */
  function HeadWrong(c: Crypto, bag: Bag, line: Result<Option<SignedHead.SignedHead>>, t: Tally): nat {
    if line.Err? then 1
    else if line.value.None? then 0
    else if CoveredHead(c, line.value).Some? then
      if LinksBound(c.sha, bag, line.value.value).Ok? then 0 else 1
    else |HeadMoved(c, bag, line.value.value, t.head)|
  }

  function Insert(x: bytes, xs: seq<bytes>): seq<bytes> {
    if xs == [] || AtMost(x, xs[0]) then [x] + xs else [xs[0]] + Insert(x, xs[1..])
  }

  function Sort(xs: seq<bytes>): seq<bytes> {
    if xs == [] then [] else Insert(xs[0], Sort(xs[1..]))
  }

  function Verdict(c: Crypto, accept: set<Digest>, line: Result<Option<SignedHead.SignedHead>>, t: Tally, wrong: nat)
    : Result<Handover>
  {
    if wrong > 0 || line.Err? then Err(Evidence)
    else
      var covered := CoveredHead(c, line.value).Some?;
      Ok(Handover(
           Sort(t.proven), t.head,
           if covered then Some(line.value.value.signer) else None,
           covered && accept != {} && line.value.value.signer in accept,
           accept != {}))
  }

  function LineHead(c: Crypto, line: Result<Option<SignedHead.SignedHead>>): Option<Merkle.Head> {
    if line.Ok? then CoveredHead(c, line.value) else None
  }

  function Tallied(c: Crypto, bag: Bag): Tally {
    InOrderElements(bag.folders.Keys);
    AddAll(c.sha, bag, LineHead(c, ReadHeadLine(bag)), Tally([], None, 0), Names(bag))
  }

  function Check(c: Crypto, bag: Bag, accept: set<Digest>): Result<Handover> {
    var line, t := ReadHeadLine(bag), Tallied(c, bag);
    Verdict(c, accept, line, t, t.wrong + HeadWrong(c, bag, line, t))
  }

  method CheckHandover(c: Crypto, bag: Bag, accept: set<Digest>) returns (r: Result<Handover>)
    ensures r == Check(c, bag, accept)
  {
    hide FolderReceipt, HeadWrong, CoveredHead, InOrder;
    var line := ReadHeadLine(bag);
    var signed := LineHead(c, line);
    var names := Names(bag);
    InOrderElements(bag.folders.Keys);
    var proven: seq<bytes>, head: Option<Merkle.Head>, wrong: nat := [], None, 0;
    for i := 0 to |names|
      invariant AddAll(c.sha, bag, signed, Tally(proven, head, wrong), names[i..])
                == AddAll(c.sha, bag, signed, Tally([], None, 0), names)
    {
      assert names[i..][1..] == names[i + 1..];
      var name := names[i];
      match FolderReceipt(c.sha, name, bag.folders[name], if signed.Some? then signed else head) {
        case Err(_) =>
          wrong := wrong + 1;
        case Ok(receipt) =>
          if head.None? {
            head := Some(HeadOf(receipt));
          }
          proven := proven + [receipt.id];
      }
    }
    var t := Tally(proven, head, wrong);
    assert t == Tallied(c, bag);
    return Verdict(c, accept, line, t, wrong + HeadWrong(c, bag, line, t));
  }

  // ---------- sorting what is sorted ----------

  lemma {:induction false} SortAscending(xs: seq<bytes>)
    requires Ascending(xs)
    ensures Sort(xs) == xs
    decreases xs
  {
    if xs != [] {
      TailHas(xs);
      SortAscending(xs[1..]);
      if |xs| > 1 {
        assert Before(xs[0], xs[1]);
      }
    }
  }

  // ---------- what passing means ----------

  /** A folder proven against `head`: its receipt reads, its bytes hash to the
      receipt's digest, both are named for the folder, and the path reaches. */
  ghost predicate Proven(sha: Sha, bag: Bag, name: bytes, head: Merkle.Head) {
    && name in bag.folders
    && FolderReceipt(sha, name, bag.folders[name], Some(head)).Ok?
  }

  lemma FolderFacts(sha: Sha, name: bytes, f: Folder, held: Option<Merkle.Head>)
    requires FolderReceipt(sha, name, f, held).Ok?
    ensures var r := FolderReceipt(sha, name, f, held).value;
            && r.id == name && IsId(name) && OnPath(sha, r) && Fits(r)
            && f.deed.Some? && Address.Of(sha, f.deed.value) == r.digest
            && (held.Some? ==> HeadOf(r) == held.value)
            && FolderReceipt(sha, name, f, Some(HeadOf(r))) == Ok(r)
  {
    hide IsId, ProductsHold, OnPath, ParseReceipt;
    ReceiptsReadPlain(f.proof.value);
  }

  /** The head every folder is held to after the first that passes. */
  function Common(signed: Option<Merkle.Head>, t: Tally): Option<Merkle.Head> {
    if signed.Some? then signed else t.head
  }

  lemma {:induction false} WrongOnlyGrows(sha: Sha, bag: Bag, signed: Option<Merkle.Head>, t: Tally, names: seq<bytes>)
    requires NamesIn(names, bag.folders)
    ensures AddAll(sha, bag, signed, t, names).wrong >= t.wrong
    ensures AddAll(sha, bag, signed, t, names).wrong == 0 && t.head.Some? ==>
              AddAll(sha, bag, signed, t, names).head == t.head
    decreases names
  {
    hide FolderReceipt;
    if names != [] {
      WrongOnlyGrows(sha, bag, signed, Add(sha, bag, signed, t, names[0]), names[1..]);
    }
  }

  /** When no folder is complained of, all are proven, in order, against one
      head: the signed one, or else the first receipt's. */
  lemma {:induction false} AllProven(sha: Sha, bag: Bag, signed: Option<Merkle.Head>, t: Tally, names: seq<bytes>)
    requires NamesIn(names, bag.folders)
    requires signed.Some? && t.head.Some? ==> signed == t.head
    requires AddAll(sha, bag, signed, t, names).wrong == 0
    ensures var out := AddAll(sha, bag, signed, t, names);
            && out.proven == t.proven + names
            && (names != [] ==> out.head.Some?)
            && (names == [] ==> out.head == t.head)
            && (signed.Some? && out.head.Some? ==> signed == out.head)
            && forall n :: n in names ==> Proven(sha, bag, n, out.head.value)
    decreases names
  {
    hide FolderReceipt;
    if names != [] {
      var name, next := names[0], Add(sha, bag, signed, t, names[0]);
      WrongOnlyGrows(sha, bag, signed, next, names[1..]);
      FolderFacts(sha, name, bag.folders[name], Common(signed, t));
      AllProven(sha, bag, signed, next, names[1..]);
      assert t.proven + [name] + names[1..] == t.proven + names;
    }
  }

  /** A folder that passes against the common head adds no complaint. */
  lemma {:induction false} NoneWrong(sha: Sha, bag: Bag, signed: Option<Merkle.Head>, t: Tally, names: seq<bytes>,
      head: Merkle.Head)
    requires NamesIn(names, bag.folders) && t.wrong == 0
    requires signed.Some? ==> signed.value == head
    requires t.head.Some? ==> t.head.value == head
    requires forall n :: n in names ==> Proven(sha, bag, n, head)
    ensures AddAll(sha, bag, signed, t, names).wrong == 0
    decreases names
  {
    hide FolderReceipt;
    if names != [] {
      assert Proven(sha, bag, names[0], head);
      AnyHead(sha, names[0], bag.folders[names[0]], head);
      NoneWrong(sha, bag, signed, Add(sha, bag, signed, t, names[0]), names[1..], head);
    }
  }

  lemma AnyHead(sha: Sha, name: bytes, f: Folder, head: Merkle.Head)
    requires FolderReceipt(sha, name, f, Some(head)).Ok?
    ensures FolderReceipt(sha, name, f, None) == FolderReceipt(sha, name, f, Some(head))
    ensures HeadOf(FolderReceipt(sha, name, f, Some(head)).value) == head
  {
  }

  /** A bag checks out exactly when its head line, if it has one, reads, is
      covered by its signature and binds the bag's links, and every folder is
      proven against one head, which is the line's when there is a line. */
  ghost predicate ChecksOut(c: Crypto, bag: Bag) {
    var line := ReadHeadLine(bag);
    && line.Ok?
    && (line.value.Some? ==>
          && SignedHead.Covers(c.verify, line.value.value, line.value.value.head, line.value.value.links)
          && LinksBound(c.sha, bag, line.value.value).Ok?)
    && exists head :: AllAgainst(c.sha, bag, line.value, head)
  }

  /** Every folder is proven against `head`, which is the head line's if any. */
  ghost predicate AllAgainst(sha: Sha, bag: Bag, line: Option<SignedHead.SignedHead>, head: Merkle.Head) {
    && (line.Some? ==> head == line.value.head)
    && forall n :: n in bag.folders ==> Proven(sha, bag, n, head)
  }

  /** The head line of a bag that checks out, and the tally it is told from. */
  ghost predicate LineFine(c: Crypto, bag: Bag, h: Handover) {
    var line, t := ReadHeadLine(bag), Tallied(c, bag);
    && line.Ok? && t.wrong == 0 && h.proven == Sort(t.proven) && h.head == t.head
    && (h.signer.Some? ==> line.value.Some?)
    && (line.value.Some? ==>
          && SignedHead.Covers(c.verify, line.value.value, line.value.value.head, line.value.value.links)
          && LinksBound(c.sha, bag, line.value.value).Ok?
          && LineHead(c, line) == Some(line.value.value.head))
  }

  lemma LinePasses(c: Crypto, bag: Bag, accept: set<Digest>)
    requires Check(c, bag, accept).Ok?
    ensures LineFine(c, bag, Check(c, bag, accept).value)
  {
    hide SignedHead.Covers, LinksBound, ReadHeadLine, HeadMoved, Tallied, Sort;
    var line, t := ReadHeadLine(bag), Tallied(c, bag);
    if line.Ok? && line.value.Some? && CoveredHead(c, line.value).None? {
      MovedIsNamed(c, bag, line.value.value, t.head);
    }
  }

  /** The folders of a bag none of which is complained of. */
  ghost predicate TallyFine(c: Crypto, bag: Bag, t: Tally) {
    && Sort(t.proven) == Names(bag) && (t.head.None? <==> bag.folders.Keys == {})
    && (t.head.Some? ==> forall n :: n in bag.folders ==> Proven(c.sha, bag, n, t.head.value))
    && (LineHead(c, ReadHeadLine(bag)).Some? && t.head.Some? ==> LineHead(c, ReadHeadLine(bag)) == t.head)
  }

  lemma TallyPasses(c: Crypto, bag: Bag)
    requires Tallied(c, bag).wrong == 0
    ensures TallyFine(c, bag, Tallied(c, bag))
  {
    hide FolderReceipt, LineHead, Proven, ReadHeadLine, AddAll, Sort;
    var names := Names(bag);
    InOrderElements(bag.folders.Keys);
    InOrderAscends(bag.folders.Keys);
    AllProven(c.sha, bag, LineHead(c, ReadHeadLine(bag)), Tally([], None, 0), names);
    assert [] + names == names;
    SortAscending(names);
    NoNames(bag);
    assert forall n :: n in bag.folders ==> n in names;
  }

  lemma CheckedOut(c: Crypto, bag: Bag, accept: set<Digest>)
    requires Check(c, bag, accept).Ok?
    ensures ChecksOut(c, bag)
    ensures var h := Check(c, bag, accept).value;
            && h.proven == Names(bag)
            && (h.head.None? <==> bag.folders.Keys == {})
            && (h.head.Some? ==> forall n :: n in bag.folders ==> Proven(c.sha, bag, n, h.head.value))
            && (h.signer.Some? && h.head.Some? ==> ReadHeadLine(bag).value.value.head == h.head.value)
  {
    hide Check, SignedHead.Covers, LinksBound, Proven, ReadHeadLine, LineHead, Tallied, Sort, Names;
    LinePasses(c, bag, accept);
    TallyPasses(c, bag);
    var line, t := ReadHeadLine(bag), Tallied(c, bag);
    var head := if t.head.Some? then t.head.value
                else if line.value.Some? then line.value.value.head else Merkle.Head(0, []);
    assert AllAgainst(c.sha, bag, line.value, head);
  }

  /** Signer, acceptance and listing, as a check that succeeds tells them. */
  lemma Verdicts(c: Crypto, bag: Bag, accept: set<Digest>)
    requires Check(c, bag, accept).Ok?
    ensures ReadHeadLine(bag).Ok?
    ensures var h, line := Check(c, bag, accept).value, ReadHeadLine(bag).value;
            && h.listed == (accept != {})
            && h.signer == (if CoveredHead(c, line).Some? then Some(line.value.signer) else None)
            && h.accepted == (h.signer.Some? && accept != {} && h.signer.value in accept)
  {
    hide Tallied, HeadWrong, CoveredHead, ReadHeadLine;
    Covered(c, ReadHeadLine(bag));
  }

  lemma Covered(c: Crypto, line: Result<Option<SignedHead.SignedHead>>)
    ensures line.Ok? && CoveredHead(c, line.value).Some? ==> line.value.Some?
  {
  }

  /** A folder is proven against one head at most. */
  lemma OneHead(sha: Sha, bag: Bag, name: bytes, a: Merkle.Head, b: Merkle.Head)
    requires Proven(sha, bag, name, a) && Proven(sha, bag, name, b)
    ensures a == b
  {
    hide FolderReceipt;
    AnyHead(sha, name, bag.folders[name], a);
    AnyHead(sha, name, bag.folders[name], b);
  }

  lemma NoNames(bag: Bag)
    ensures Names(bag) == [] <==> bag.folders.Keys == {}
  {
  }

  /** The check succeeds on exactly the bags that check out. */
  lemma CheckExact(c: Crypto, bag: Bag, accept: set<Digest>)
    ensures Check(c, bag, accept).Ok? <==> ChecksOut(c, bag)
  {
    if Check(c, bag, accept).Ok? {
      CheckedOut(c, bag, accept);
    }
    if ChecksOut(c, bag) {
      Passes(c, bag, accept);
    }
  }

  lemma Passes(c: Crypto, bag: Bag, accept: set<Digest>)
    requires ChecksOut(c, bag)
    ensures Check(c, bag, accept).Ok?
  {
    hide FolderReceipt, SignedHead.Covers, LinksBound, Proven, ReadHeadLine, HeadMoved;
    var line, names := ReadHeadLine(bag), Names(bag);
    InOrderElements(bag.folders.Keys);
    var head :| AllAgainst(c.sha, bag, line.value, head);
    NoneWrong(c.sha, bag, LineHead(c, line), Tally([], None, 0), names, head);
  }

  /** A head line its signature does not cover fails every bag it is in. */
  lemma UncoveredFails(c: Crypto, bag: Bag, accept: set<Digest>)
    requires ReadHeadLine(bag).Ok? && ReadHeadLine(bag).value.Some?
    requires var s := ReadHeadLine(bag).value.value; !SignedHead.Covers(c.verify, s, s.head, s.links)
    ensures Check(c, bag, accept).Err?
  {
    CheckExact(c, bag, accept);
  }

  // ---------- what the head of a log proves of a bag ----------

  ghost function LeafInputs(log: seq<Log.Entry>): set<bytes> {
    set e | e in log :: [0] + Log.Material(e)
  }

  ghost predicate AllPlain(log: seq<Log.Entry>) {
    forall e :: e in log ==> Log.Plain(e)
  }

  /** Everything hashed by a log's head and by checking a receipt against it. */
  ghost function ReceiptInputs(sha: Sha, log: seq<Log.Entry>, r: Receipt): set<bytes> {
    var material := Log.Material(EntryOf(r));
    LeafInputs(log) + {[0] + material}
    + Merkle.InclusionInputs(sha, Log.Leaves(sha, log), r.index, Merkle.LeafHash(sha, material), r.path)
  }

  function HeadOfLog(sha: Sha, log: seq<Log.Entry>): Merkle.Head {
    Merkle.HeadOver(sha, Log.Leaves(sha, log))
  }

  lemma SameLeaf(sha: Sha, a: Log.Entry, b: Log.Entry, inputs: set<bytes>)
    requires Log.Plain(a) && Log.Plain(b) && CollisionFree(sha, inputs)
    requires [0] + Log.Material(a) in inputs && [0] + Log.Material(b) in inputs
    requires Merkle.LeafHash(sha, Log.Material(a)) == Merkle.LeafHash(sha, Log.Material(b))
    ensures a == b
  {
    hide Log.Material;
    assert ([0] + Log.Material(a))[1..] == Log.Material(a) && ([0] + Log.Material(b))[1..] == Log.Material(b);
    Log.MaterialInjective(a, b);
  }

  /** A receipt on the path to a log's head is the log's entry at its index. */
  lemma OnPathIsEntry(sha: Sha, log: seq<Log.Entry>, r: Receipt)
    requires AllPlain(log) && Log.Plain(EntryOf(r))
    requires HeadOf(r) == HeadOfLog(sha, log) && OnPath(sha, r)
    requires CollisionFree(sha, ReceiptInputs(sha, log, r))
    ensures r.index < |log| && log[r.index] == EntryOf(r)
  {
    hide Merkle.Includes, Merkle.InclusionInputs, Merkle.HeadOver, Log.Plain, Log.Material, Merkle.LeafHash;
    var leaves, material := Log.Leaves(sha, log), Log.Material(EntryOf(r));
    var leaf := Merkle.LeafHash(sha, material);
    CollisionFreeSubset(sha, Merkle.InclusionInputs(sha, leaves, r.index, leaf, r.path), ReceiptInputs(sha, log, r));
    Merkle.InclusionExact(sha, leaves, r.index, leaf, r.path);
    assert log[r.index] in log;
    SameLeaf(sha, log[r.index], EntryOf(r), ReceiptInputs(sha, log, r));
  }

  /** An accession is in the log where its receipt says, with the digest its
      `deed.bin` hashes to. */
  ghost predicate Logged(sha: Sha, log: seq<Log.Entry>, bag: Bag, name: bytes) {
    && name in bag.folders
    && var f := bag.folders[name];
       && f.proof.Some? && ParseReceipt(f.proof.value).Ok? && f.deed.Some?
       && var r := ParseReceipt(f.proof.value).value;
          && r.id == name && r.index < |log| && log[r.index] == EntryOf(r)
          && log[r.index] == Log.Entry(name, Address.Of(sha, f.deed.value), r.time)
  }

  /** No two inputs hashed while checking one folder against the log collide. */
  ghost predicate FolderCollisionFree(sha: Sha, log: seq<Log.Entry>, f: Folder) {
    f.proof.Some? && ParseReceipt(f.proof.value).Ok? ==>
      CollisionFree(sha, ReceiptInputs(sha, log, ParseReceipt(f.proof.value).value))
  }

  lemma ProvenIsLogged(sha: Sha, log: seq<Log.Entry>, bag: Bag, name: bytes)
    requires AllPlain(log) && Proven(sha, bag, name, HeadOfLog(sha, log))
    requires FolderCollisionFree(sha, log, bag.folders[name])
    ensures Logged(sha, log, bag, name)
  {
    hide OnPath, IsId, ReceiptInputs, HeadOfLog, ProductsHold, ParseReceipt, Address.Of;
    var f, head := bag.folders[name], HeadOfLog(sha, log);
    FolderFacts(sha, name, f, Some(head));
    var r := FolderReceipt(sha, name, f, Some(head)).value;
    IdIsPlain(name);
    Address.OfIsAddress(sha, f.deed.value);
    Address.AddressPlain(r.digest);
    OnPathIsEntry(sha, log, r);
  }

  /** When a bag checks out against the head of a log, the proven accessions
      are the names of its folders, in order and each once, and every one of
      them is in that log at its receipt's index under the digest its bytes
      hash to. */
  lemma HandoverSound(c: Crypto, bag: Bag, accept: set<Digest>, log: seq<Log.Entry>)
    requires AllPlain(log) && Check(c, bag, accept).Ok?
    requires Check(c, bag, accept).value.head == Some(HeadOfLog(c.sha, log))
    requires forall n :: n in bag.folders ==> FolderCollisionFree(c.sha, log, bag.folders[n])
    ensures var h := Check(c, bag, accept).value;
            && Ascending(h.proven)
            && (forall n :: n in h.proven <==> n in bag.folders)
            && forall n :: n in h.proven ==> Logged(c.sha, log, bag, n)
  {
    hide Check, ChecksOut, Proven, FolderCollisionFree, Logged, HeadOfLog;
    CheckedOut(c, bag, accept);
    InOrderElements(bag.folders.Keys);
    InOrderAscends(bag.folders.Keys);
    forall n | n in bag.folders
      ensures Logged(c.sha, log, bag, n)
    {
      ProvenIsLogged(c.sha, log, bag, n);
    }
  }

  // ---------- a receiver who keeps heads ----------

  function PathOf(bridge: Option<Bridge>): seq<Digest> {
    if bridge.Some? then bridge.value.path else []
  }

  /** Everything hashed by two logs' heads and by checking one against the other. */
  ghost function SinceInputs(sha: Sha, kept: seq<Log.Entry>, now: seq<Log.Entry>, bridge: Option<Bridge>): set<bytes> {
    LeafInputs(kept) + LeafInputs(now)
    + Merkle.ConsistencyInputs(sha, Log.Leaves(sha, kept), Log.Leaves(sha, now), PathOf(bridge))
  }

  lemma LeavesPrefix(sha: Sha, kept: seq<Log.Entry>, now: seq<Log.Entry>, inputs: set<bytes>)
    requires AllPlain(kept) && AllPlain(now) && CollisionFree(sha, inputs)
    requires LeafInputs(kept) + LeafInputs(now) <= inputs
    ensures Log.Leaves(sha, kept) <= Log.Leaves(sha, now) <==> kept <= now
  {
    hide Log.Plain, Log.Material, Merkle.LeafHash;
    var a, b := Log.Leaves(sha, kept), Log.Leaves(sha, now);
    if a <= b {
      forall i | 0 <= i < |kept|
        ensures kept[i] == now[i]
      {
        assert a[i] == b[i] && kept[i] in kept && now[i] in now;
        SameLeaf(sha, kept[i], now[i], inputs);
      }
    }
  }

  lemma CheckedBridge(sha: Sha, kept: Merkle.Head, bridge: Option<Bridge>, now: Merkle.Head)
    requires CheckSince(sha, kept, bridge, now).Ok?
    ensures bridge.None? ==> kept == now
    ensures bridge.Some? ==> Merkle.Extends(sha, kept, now, bridge.value.path)
  {
  }

  lemma SameHead(sha: Sha, a: Merkle.Leaves, b: Merkle.Leaves)
    requires Merkle.HeadOver(sha, a) == Merkle.HeadOver(sha, b)
    requires CollisionFree(sha, Merkle.RootInputs(sha, a) + Merkle.RootInputs(sha, b))
    ensures a == b
  {
    Hex.Injective(Merkle.Root(sha, a), Merkle.Root(sha, b));
    Merkle.RootInjective(sha, a, b);
  }

  /** A head that passes against a kept one is over the kept log, grown. */
  lemma SinceSound(sha: Sha, kept: seq<Log.Entry>, bridge: Option<Bridge>, now: seq<Log.Entry>)
    requires AllPlain(kept) && AllPlain(now)
    requires CheckSince(sha, HeadOfLog(sha, kept), bridge, HeadOfLog(sha, now)).Ok?
    requires CollisionFree(sha, SinceInputs(sha, kept, now, bridge))
    ensures kept <= now
  {
    hide Log.Plain, Log.Material, Log.Leaves, CheckSince, Merkle.Extends, LeafInputs, Merkle.RootInputs;
    hide Merkle.ClimbInputs;
    var a, b, inputs := Log.Leaves(sha, kept), Log.Leaves(sha, now), SinceInputs(sha, kept, now, bridge);
    CheckedBridge(sha, HeadOfLog(sha, kept), bridge, HeadOfLog(sha, now));
    CollisionFreeSubset(sha, Merkle.ConsistencyInputs(sha, a, b, PathOf(bridge)), inputs);
    if bridge.None? {
      CollisionFreeSubset(sha, Merkle.RootInputs(sha, a) + Merkle.RootInputs(sha, b), inputs);
      SameHead(sha, a, b);
    } else {
      Merkle.ConsistencyExact(sha, a, b, bridge.value.path);
    }
    LeavesPrefix(sha, kept, now, inputs);
  }

  /** The bridge a store writes from an earlier log to this one. */
  function BridgeOver(sha: Sha, kept: seq<Log.Entry>, now: seq<Log.Entry>): Option<Bridge>
    requires |kept| <= |now|
  {
    match Merkle.ConsistencyProof(sha, Log.Leaves(sha, now), |kept|)
    case None => None
    case Some(path) => Some(Bridge(HeadOfLog(sha, kept), HeadOfLog(sha, now), path))
  }

  /** A later head passes against a kept one exactly when nothing was appended
      and no bridge is given, or when the kept log is a prefix and the bridge is
      the one the store writes, which it never does from an empty log. */
  lemma SinceExact(sha: Sha, kept: seq<Log.Entry>, bridge: Option<Bridge>, now: seq<Log.Entry>)
    requires AllPlain(kept) && AllPlain(now)
    requires CollisionFree(sha, SinceInputs(sha, kept, now, bridge))
    ensures CheckSince(sha, HeadOfLog(sha, kept), bridge, HeadOfLog(sha, now)).Ok? <==>
            if bridge.None? then kept == now else kept <= now && bridge == BridgeOver(sha, kept, now)
  {
    hide AllPlain, Log.Leaves, Merkle.HeadOver, Merkle.Extends, SinceInputs, CollisionFree;
    if CheckSince(sha, HeadOfLog(sha, kept), bridge, HeadOfLog(sha, now)).Ok? {
      SinceSound(sha, kept, bridge, now);
      PassedBridge(sha, kept, bridge, now);
    } else if kept <= now {
      StoreBridgePasses(sha, kept, now);
    }
  }

  lemma PassedBridge(sha: Sha, kept: seq<Log.Entry>, bridge: Option<Bridge>, now: seq<Log.Entry>)
    requires CheckSince(sha, HeadOfLog(sha, kept), bridge, HeadOfLog(sha, now)).Ok? && kept <= now
    requires CollisionFree(sha, SinceInputs(sha, kept, now, bridge))
    ensures if bridge.None? then kept == now else bridge == BridgeOver(sha, kept, now)
  {
    hide Log.Leaves, Merkle.Root, Hex.Render, Merkle.Extends, LeafInputs, Merkle.ConsistencyInputs;
    hide Merkle.ConsistencyProof;
    var a, b := Log.Leaves(sha, kept), Log.Leaves(sha, now);
    CheckedBridge(sha, HeadOfLog(sha, kept), bridge, HeadOfLog(sha, now));
    if bridge.Some? {
      CollisionFreeSubset(sha, Merkle.ConsistencyInputs(sha, a, b, PathOf(bridge)),
          SinceInputs(sha, kept, now, bridge));
      Merkle.ConsistencyExact(sha, a, b, bridge.value.path);
    }
  }

  /** What the store writes passes, whatever the hash. */
  lemma StoreBridgePasses(sha: Sha, kept: seq<Log.Entry>, now: seq<Log.Entry>)
    requires kept <= now
    ensures BridgeOver(sha, kept, now).None? <==> kept == []
    ensures kept != [] ==> CheckSince(sha, HeadOfLog(sha, kept), BridgeOver(sha, kept, now), HeadOfLog(sha, now)).Ok?
    ensures kept == now ==> CheckSince(sha, HeadOfLog(sha, kept), None, HeadOfLog(sha, now)).Ok?
  {
    hide Merkle.LeafHash, Log.Material, Merkle.Root, Hex.Render, Merkle.Extends, Merkle.ConsistencyProof;
    var a, b := Log.Leaves(sha, kept), Log.Leaves(sha, now);
    assert b[..|a|] == a;
    Merkle.EveryPrefixProvesItIsOne(sha, b, |a|);
  }

  /** A receiver's run: the logs behind the heads kept, and the bridge each head
      came with. */
  ghost predicate Run(sha: Sha, logs: seq<seq<Log.Entry>>, bridges: seq<Option<Bridge>>) {
    && |logs| == |bridges| + 1
    && (forall i :: 0 <= i < |logs| ==> AllPlain(logs[i]))
    && forall i :: 0 <= i < |bridges| ==> Step(sha, logs[i], bridges[i], logs[i + 1])
  }

  ghost predicate Step(sha: Sha, kept: seq<Log.Entry>, bridge: Option<Bridge>, now: seq<Log.Entry>) {
    && CheckSince(sha, HeadOfLog(sha, kept), bridge, HeadOfLog(sha, now)).Ok?
    && CollisionFree(sha, SinceInputs(sha, kept, now, bridge))
  }

  /** Along a run every log kept is a prefix of every later one. */
  lemma {:induction false} RunOnlyGrows(sha: Sha, logs: seq<seq<Log.Entry>>, bridges: seq<Option<Bridge>>, i: nat,
      j: nat)
    requires Run(sha, logs, bridges) && i <= j < |logs|
    ensures logs[i] <= logs[j]
    decreases j
  {
    hide AllPlain, Step;
    if i < j {
      RunOnlyGrows(sha, logs, bridges, i, j - 1);
      StepGrows(sha, logs[j - 1], bridges[j - 1], logs[j]);
    }
  }

  lemma StepGrows(sha: Sha, kept: seq<Log.Entry>, bridge: Option<Bridge>, now: seq<Log.Entry>)
    requires AllPlain(kept) && AllPlain(now) && Step(sha, kept, bridge, now)
    ensures kept <= now
  {
    hide AllPlain, SinceInputs, CheckSince, HeadOfLog, CollisionFree;
    SinceSound(sha, kept, bridge, now);
  }

  /** What a bag proved against a kept head is still in every later log, at the
      index its receipt gave and with the same digest. */
  lemma ProvenStaysLogged(
    c: Crypto, bag: Bag, accept: set<Digest>,
    logs: seq<seq<Log.Entry>>, bridges: seq<Option<Bridge>>, i: nat, j: nat, name: bytes)
    requires Run(c.sha, logs, bridges) && i <= j < |logs|
    requires Check(c, bag, accept).Ok? && name in Check(c, bag, accept).value.proven
    requires Check(c, bag, accept).value.head == Some(HeadOfLog(c.sha, logs[i]))
    requires forall n :: n in bag.folders ==> FolderCollisionFree(c.sha, logs[i], bag.folders[n])
    ensures Logged(c.sha, logs[j], bag, name)
  {
    hide Check, Step, FolderCollisionFree, HeadOfLog, ParseReceipt, Address.Of;
    RunOnlyGrows(c.sha, logs, bridges, i, j);
    HandoverSound(c, bag, accept, logs[i]);
    assert Logged(c.sha, logs[i], bag, name);
  }
}
