/** Reading a bag to import it: every folder once, each receipt checked again on
    the octets that would be written, and the whole held to what was checked. */
module Carrying {
  import opened Prelude
  import opened Text
  import opened Bag
  import opened Deeds
  import opened Order
  import opened Paths
  import opened Receipt
  import opened Sidecars
  import Address
  import Frames
  import Handover
  import Issuing
  import Merkle
  import SignedHead
  import Store
  import Wire

  /** An accession and the digest a link binds it to. */
  datatype Link = Link(id: bytes, digest: bytes)

  /** One deed folder, read. */
  datatype Carried = Carried(
    deed: Deed, receipt: Receipt, proof: bytes, host: Option<bytes>,
    supersedes: Option<Link>, successor: Option<Link>, sources: map<bytes, bytes>)

  /** A whole bag, read: deeds in the order the sender logged them, product
      bytes by hash, and the head line as it travelled. */
  datatype Whole = Whole(carried: seq<Carried>, products: map<bytes, bytes>, head: Option<bytes>)

  function ParseDigest(raw: bytes): Result<bytes> {
    if Address.HexOf(Trim(raw)).None? then Err(Evidence) else Ok(Trim(raw))
  }

  function ReadLink(file: Option<bytes>): Result<Option<Link>> {
    match file
    case None => Ok(None)
    case Some(raw) =>
      if !IsUtf8(raw) then Err(Evidence)
      else
        var items := Items(Lines(raw));
        if items == [] then Err(Evidence)
        else
          var id :- ParseId(items[0]);
          if |items| == 1 then Err(Evidence)
          else
            var digest :- ParseDigest(items[1]);
            if |items| > 2 then Err(Evidence) else Ok(Some(Link(id, digest)))
  }

  function SourceLines(items: seq<bytes>, read: map<bytes, bytes>): Result<map<bytes, bytes>>
    decreases items
  {
    if items == [] then Ok(read)
    else
      match SplitOnce(items[0], TAB)
      case None => Err(Evidence)
      case Some((rawId, rawDigest)) =>
        var id :- ParseId(rawId);
        var digest :- ParseDigest(rawDigest);
        if id in read && read[id] != digest then Err(Evidence)
        else SourceLines(items[1..], read[id := digest])
  }

  function ReadSources(file: Option<bytes>): Result<map<bytes, bytes>> {
    match file
    case None => Ok(map[])
    case Some(raw) => if !IsUtf8(raw) then Err(Evidence) else SourceLines(Items(Lines(raw)), map[])
  }

  /** Evidence that travelled has to be of this deed, at the receipt's time. */
  function CheckEvidence(file: Option<bytes>, d: Deed, time: nat): Result<()> {
    match file
    case None => Ok(())
    case Some(raw) =>
      var r :- Frames.DecodeResponse(raw);
      match r
      case Created(framed, e) => Need(SameDeed(framed, d) && e.deedId == d.id && e.time == time, Evidence)
      case _ => Err(Decode)
  }

  /** Everything a receipt and its octets are held to, before the sidecars. */
  function ReadProof(sha: Sha, name: bytes, f: Folder): Result<(Receipt, Deed)> {
    if f.proof.None? || !IsUtf8(f.proof.value) then Err(Evidence)
    else
      var r :- ParseReceipt(f.proof.value);
      if f.deed.None? then Err(Evidence)
      else if Address.Of(sha, f.deed.value) != r.digest || !Handover.OnPath(sha, r) then Err(Evidence)
      else
        var d :- Wire.DeedFromBytes(f.deed.value);
        if !Handover.NamedFor(name, r.id, d.id) then Err(Evidence)
        else if Store.DeedDigest(sha, d) != r.digest then Err(Evidence)
        else Ok((r, d))
  }

  function ReadFolder(keys: Issuing.Keys, name: bytes, f: Folder): Result<Carried> {
    var (r, d) :- ReadProof(keys.sha, name, f);
    var _ :- CheckEvidence(f.evidence, d, r.time);
    if f.host.Some? && !keys.hostReads(f.host.value) then Err(Evidence)
    else if !Handover.ProductsHold(keys.sha, f, d) then Err(Evidence)
    else
      var supersedes :- ReadLink(f.supersedes);
      var successor :- ReadLink(f.successor);
      var sources :- ReadSources(f.sources);
      Ok(Carried(d, r, f.proof.value, f.host, supersedes, successor, sources))
  }

  function ReadFolders(keys: Issuing.Keys, bag: Bag, names: seq<bytes>): Result<(seq<Carried>, map<bytes, bytes>)>
    requires NamesIn(names, bag.folders)
    decreases names
  {
    if names == [] then Ok(([], map[]))
    else
      var c :- ReadFolder(keys, names[0], bag.folders[names[0]]);
      var (rest, products) :- ReadFolders(keys, bag, names[1..]);
      Ok(([c] + rest, bag.folders[names[0]].products + products))
  }

  /** Before the first of a later index: equal indices keep their order. */
  function Placed(c: Carried, cs: seq<Carried>): seq<Carried> {
    if cs == [] || c.receipt.index <= cs[0].receipt.index then [c] + cs else [cs[0]] + Placed(c, cs[1..])
  }

  function ByIndex(cs: seq<Carried>): seq<Carried> {
    if cs == [] then [] else Placed(cs[0], ByIndex(cs[1..]))
  }

  function ReadBag(keys: Issuing.Keys, bag: Bag): Result<Whole> {
    InOrderElements(bag.folders.Keys);
    var (cs, products) :- ReadFolders(keys, bag, Names(bag));
    if bag.head.Some? && !IsUtf8(bag.head.value) then Err(Evidence)
    else Ok(Whole(ByIndex(cs), products, bag.head))
  }

  // ---------- held to what was checked ----------

  function IdsOf(cs: seq<Carried>): seq<bytes> {
    seq(|cs|, i requires 0 <= i < |cs| => cs[i].receipt.id)
  }

  /** The signer of the head line, after everything about it is held to the
      check. */
  function SameHead(c: Handover.Crypto, accept: set<Digest>, bag: Bag, whole: Whole, checked: Handover.Handover)
    : Result<Option<Digest>>
  {
    match whole.head
    case None => Ok(None)
    case Some(text) =>
      var s :- SignedHead.Parse(text);
      if !SignedHead.Covers(c.verify, s, s.head, s.links) then Err(Evidence)
      else if checked.head != Some(s.head) || (accept != {} && s.signer in accept) != checked.accepted
          then Err(Evidence)
      else
        var _ :- LinksBound(c.sha, bag, s);
        Ok(Some(s.signer))
  }

  predicate SameReceipts(whole: Whole, checked: Handover.Handover) {
    && Handover.Sort(IdsOf(whole.carried)) == checked.proven
    && forall c :: c in whole.carried ==> checked.head == Some(HeadOf(c.receipt))
  }

  /** Both readings of the directory have to be one bag, record for record. */
  function SameAsChecked(c: Handover.Crypto, accept: set<Digest>, bag: Bag, whole: Whole,
      checked: Handover.Handover): Result<()> {
    if !SameReceipts(whole, checked) then Err(Evidence)
    else
      var signer :- SameHead(c, accept, bag, whole, checked);
      Need(signer == checked.signer, Evidence)
  }

  // ---------- what is imported was checked ----------

  lemma {:induction false} FoldersRead(keys: Issuing.Keys, bag: Bag, names: seq<bytes>)
    requires NamesIn(names, bag.folders) && ReadFolders(keys, bag, names).Ok?
    ensures var cs := ReadFolders(keys, bag, names).value.0;
            && |cs| == |names|
            && forall i :: 0 <= i < |names| ==> ReadFolder(keys, names[i], bag.folders[names[i]]) == Ok(cs[i])
    decreases names
  {
    hide ReadFolder;
    if names != [] {
      FoldersRead(keys, bag, names[1..]);
    }
  }

  lemma {:induction false} PlacedElements(c: Carried, cs: seq<Carried>)
    ensures forall x :: x in Placed(c, cs) <==> x == c || x in cs
    decreases cs
  {
    if cs != [] && c.receipt.index > cs[0].receipt.index {
      PlacedElements(c, cs[1..]);
    }
  }

  lemma {:induction false} ByIndexElements(cs: seq<Carried>)
    ensures forall x :: x in ByIndex(cs) <==> x in cs
    decreases cs
  {
    if cs != [] {
      ByIndexElements(cs[1..]);
      PlacedElements(cs[0], ByIndex(cs[1..]));
    }
  }

  lemma {:induction false} InsertElements(x: bytes, xs: seq<bytes>)
    ensures forall y :: y in Handover.Insert(x, xs) <==> y == x || y in xs
    decreases xs
  {
    hide AtMost;
    if xs != [] && !AtMost(x, xs[0]) {
      InsertElements(x, xs[1..]);
    }
  }

  lemma {:induction false} SortElements(xs: seq<bytes>)
    ensures forall y :: y in Handover.Sort(xs) <==> y in xs
    decreases xs
  {
    if xs != [] {
      SortElements(xs[1..]);
      InsertElements(xs[0], Handover.Sort(xs[1..]));
    }
  }

  /** A folder that was read names itself and is on the path to its head. */
  lemma ReadFolderFacts(keys: Issuing.Keys, name: bytes, f: Folder)
    requires ReadFolder(keys, name, f).Ok?
    ensures var c := ReadFolder(keys, name, f).value;
            && ReadProof(keys.sha, name, f) == Ok((c.receipt, c.deed))
            && c.receipt.id == name && c.deed.id == name && IsId(name)
            && c.receipt.digest == Store.DeedDigest(keys.sha, c.deed)
            && Handover.ProductsHold(keys.sha, f, c.deed)
            && f.proof == Some(c.proof) && IsUtf8(c.proof) && ParseReceipt(c.proof) == Ok(c.receipt)
            && f.host == c.host
  {
    hide ReadLink, ReadSources, CheckEvidence, Handover.ProductsHold, Handover.OnPath, IsId, ParseReceipt;
    hide Wire.DeedFromBytes, Store.DeedDigest, Address.Of;
  }

  /** What was read of a folder passes the folder's own check. */
  lemma ReadIsProven(keys: Issuing.Keys, bag: Bag, name: bytes, head: Merkle.Head)
    requires name in bag.folders && ReadFolder(keys, name, bag.folders[name]).Ok?
    requires HeadOf(ReadFolder(keys, name, bag.folders[name]).value.receipt) == head
    ensures Handover.Proven(keys.sha, bag, name, head)
  {
    hide ReadFolder, Handover.ProductsHold, Handover.OnPath, IsId, ParseReceipt, Wire.DeedFromBytes;
    hide Store.DeedDigest, Address.Of;
    ReadFolderFacts(keys, name, bag.folders[name]);
  }

  /** The folders of a bag that was read, and their receipts. */
  lemma WholeFolders(keys: Issuing.Keys, bag: Bag, whole: Whole)
    requires ReadBag(keys, bag) == Ok(whole)
    ensures forall n :: n in bag.folders ==>
              ReadFolder(keys, n, bag.folders[n]).Ok? && ReadFolder(keys, n, bag.folders[n]).value in whole.carried
    ensures forall c :: c in whole.carried ==>
              c.receipt.id in bag.folders && ReadFolder(keys, c.receipt.id, bag.folders[c.receipt.id]) == Ok(c)
    ensures whole.head == bag.head && (whole.head.Some? ==> IsUtf8(whole.head.value))
  {
    hide ReadFolder, InOrder;
    InOrderElements(bag.folders.Keys);
    var names := Names(bag);
    var cs := ReadFolders(keys, bag, names).value.0;
    FoldersRead(keys, bag, names);
    ByIndexElements(cs);
    forall n | n in bag.folders
      ensures ReadFolder(keys, n, bag.folders[n]).Ok? && ReadFolder(keys, n, bag.folders[n]).value in whole.carried
    {
      var i :| 0 <= i < |names| && names[i] == n;
      assert cs[i] in cs;
    }
    forall c | c in whole.carried
      ensures c.receipt.id in bag.folders && ReadFolder(keys, c.receipt.id, bag.folders[c.receipt.id]) == Ok(c)
    {
      var i :| 0 <= i < |cs| && cs[i] == c;
      assert names[i] in names;
      ReadFolderFacts(keys, names[i], bag.folders[names[i]]);
    }
  }

  lemma IdsAreNames(keys: Issuing.Keys, bag: Bag, whole: Whole, n: bytes)
    requires ReadBag(keys, bag) == Ok(whole)
    ensures n in IdsOf(whole.carried) <==> n in bag.folders
  {
    hide ReadBag, ReadFolder, InOrder;
    var ids := IdsOf(whole.carried);
    WholeFolders(keys, bag, whole);
    if n in ids {
      var i :| 0 <= i < |ids| && ids[i] == n;
      assert whole.carried[i] in whole.carried;
    }
    if n in bag.folders {
      var c := ReadFolder(keys, n, bag.folders[n]).value;
      ReadFolderFacts(keys, n, bag.folders[n]);
      var i :| 0 <= i < |whole.carried| && whole.carried[i] == c;
      assert ids[i] == n;
    }
  }

  lemma SameNames(keys: Issuing.Keys, bag: Bag, whole: Whole, proven: seq<bytes>)
    requires ReadBag(keys, bag) == Ok(whole) && Ascending(proven)
    requires Handover.Sort(IdsOf(whole.carried)) == proven
    ensures proven == Names(bag)
  {
    hide ReadFolder, ReadBag, InOrder, Handover.Sort;
    var ids := IdsOf(whole.carried);
    SortElements(ids);
    AscendingIsInOrder(proven);
    forall n
      ensures n in ids <==> n in bag.folders
    {
      IdsAreNames(keys, bag, whole, n);
    }
    assert Elements(proven) == bag.folders.Keys;
  }

  /** Folders proven against one head settle the rest of the check's answer. */
  lemma CheckOfProven(c: Handover.Crypto, bag: Bag, accept: set<Digest>, head: Merkle.Head)
    requires bag.folders.Keys != {} && Handover.ReadHeadLine(bag).Ok?
    requires Handover.AllAgainst(c.sha, bag, Handover.ReadHeadLine(bag).value, head)
    requires var line := Handover.ReadHeadLine(bag).value;
             line.Some? ==> SignedHead.Covers(c.verify, line.value, line.value.head, line.value.links)
                            && LinksBound(c.sha, bag, line.value).Ok?
    ensures var line := Handover.ReadHeadLine(bag).value;
            Handover.Check(c, bag, accept) ==
            Ok(Handover.Handover(
                 Names(bag), Some(head), if line.Some? then Some(line.value.signer) else None,
                 line.Some? && accept != {} && line.value.signer in accept, accept != {}))
  {
    hide Handover.FolderReceipt, SignedHead.Covers, LinksBound, Handover.ReadHeadLine, Handover.Check, Handover.Proven;
    assert Handover.ChecksOut(c, bag);
    Handover.CheckExact(c, bag, accept);
    Handover.Verdicts(c, bag, accept);
    Handover.CheckedOut(c, bag, accept);
    var h := Handover.Check(c, bag, accept).value;
    var n :| n in bag.folders.Keys;
    assert Handover.Proven(c.sha, bag, n, head) && Handover.Proven(c.sha, bag, n, h.head.value);
    Handover.OneHead(c.sha, bag, n, head, h.head.value);
  }

  /** A bag read after its check and held to it checks out itself, with the same
      answer: what is imported is what was checked. */
  lemma ReadIsChecked(
    keys: Issuing.Keys, c: Handover.Crypto, accept: set<Digest>, first: Bag, checked: Handover.Handover, second: Bag,
        whole: Whole)
    requires c.sha == keys.sha && Handover.Check(c, first, accept) == Ok(checked) && checked.proven != []
    requires ReadBag(keys, second) == Ok(whole) && SameAsChecked(c, accept, second, whole, checked).Ok?
    ensures Handover.Check(c, second, accept) == Ok(checked)
  {
    hide ReadBag, ReadFolder, Handover.Check, Handover.Proven, SignedHead.Covers, LinksBound, SignedHead.Parse;
    hide InOrder, Handover.Sort, HeadOf, IsUtf8;
    Handover.CheckedOut(c, first, accept);
    InOrderAscends(first.folders.Keys);
    WholeFolders(keys, second, whole);
    SameNames(keys, second, whole, checked.proven);
    InOrderElements(second.folders.Keys);
    assert checked.proven[0] in Names(second);
    assert checked.proven[0] in second.folders;
    var head := checked.head.value;
    forall n | n in second.folders
      ensures Handover.Proven(c.sha, second, n, head)
    {
      ReadIsProven(keys, second, n, head);
    }
    Handover.Verdicts(c, first, accept);
    CheckOfProven(c, second, accept, head);
  }
}
