/** From a bag on disk to a plan: the check, the reading, what is admitted, and
    what the reading establishes for everything proved of the plan. */
module Importing {
  import opened Prelude
  import opened Text
  import opened Bag
  import opened Carrying
  import opened Deeds
  import opened Order
  import opened Planned
  import opened Planning
  import opened Receipt
  import opened Sidecars
  import opened Store
  import Address
  import Handover
  import Hex
  import Issuing
  import SignedHead
  import Wire

  /** A head signed by a key the store lists, or an explicit allowance. */
  function Admit(checked: Handover.Handover, allow: bool): Result<()> {
    Need(checked.accepted || allow, Evidence)
  }

  function CryptoOf(keys: Issuing.Keys, verify: SignedHead.Verify): Handover.Crypto {
    Handover.Crypto(keys.sha, verify)
  }

  /** The bag as it was checked and as it was read after, and what the reading
      gave. */
  ghost predicate Admitted(
    keys: Issuing.Keys, verify: SignedHead.Verify, accept: set<Digest>, allow: bool, first: Bag, second: Bag,
    checked: Handover.Handover, whole: Whole)
  {
    && Handover.Check(CryptoOf(keys, verify), first, accept) == Ok(checked) && checked.proven != []
    && ReadBag(keys, second) == Ok(whole)
    && SameAsChecked(CryptoOf(keys, verify), accept, second, whole, checked).Ok?
    && Admit(checked, allow).Ok?
  }

  /** Each carried deed's octets fit a frame, and are not one half of a hash
      collision with their canonical form. */
  ghost predicate Clear(sha: Sha, bag: Bag) {
    forall n :: n in bag.folders ==> ClearFolder(sha, bag.folders[n])
  }

  ghost predicate ClearFolder(sha: Sha, f: Folder) {
    f.deed.Some? && Wire.DeedFromBytes(f.deed.value).Ok? ==>
      && |f.deed.value| + 1 < Wire.U32
      && CollisionFree(sha, {f.deed.value, Wire.DeedBytes(Wire.DeedFromBytes(f.deed.value).value)})
  }

  // ---------- what reading establishes ----------

  /** What a folder's receipt and octets are, once read. */
  lemma ReadProofFacts(sha: Sha, name: bytes, f: Folder)
    requires ReadProof(sha, name, f).Ok?
    ensures var (r, d) := ReadProof(sha, name, f).value;
            && f.deed.Some? && Wire.DeedFromBytes(f.deed.value) == Ok(d)
            && Address.Of(sha, f.deed.value) == r.digest && DeedDigest(sha, d) == r.digest
            && f.proof.Some? && ParseReceipt(f.proof.value) == Ok(r)
  {
    hide ParseReceipt, Address.Of, Wire.DeedFromBytes, Handover.OnPath, IsId, DeedDigest;
  }

  lemma CanonicalReads(sha: Sha, f: Folder, d: Deed)
    requires f.deed.Some? && Wire.DeedFromBytes(f.deed.value) == Ok(d) && ClearFolder(sha, f)
    requires Address.Of(sha, f.deed.value) == DeedDigest(sha, d)
    ensures Readable(d)
  {
    hide Wire.DeedFromBytes, Wire.DeedBytes, Address.Of;
    Address.OfInjective(sha, f.deed.value, Wire.DeedBytes(d));
  }

  lemma LinkRead(file: Option<bytes>)
    requires ReadLink(file).Ok? && ReadLink(file).value.Some?
    ensures GoodLink(ReadLink(file).value.value)
  {
    hide ParseId, Address.HexOf, Items, Lines, Trim, IsUtf8, IsId;
    IdParses(Items(Lines(file.value))[0]);
  }

  lemma FolderLinks(keys: Issuing.Keys, name: bytes, f: Folder)
    requires ReadFolder(keys, name, f).Ok?
    ensures var c := ReadFolder(keys, name, f).value;
            && (c.supersedes.Some? ==> GoodLink(c.supersedes.value))
            && (c.successor.Some? ==> GoodLink(c.successor.value))
  {
    hide ReadLink, ReadProof, CheckEvidence, Handover.ProductsHold, ReadSources, GoodLink;
    if ReadFolder(keys, name, f).value.supersedes.Some? {
      LinkRead(f.supersedes);
    }
    if ReadFolder(keys, name, f).value.successor.Some? {
      LinkRead(f.successor);
    }
  }

  /** The head line an admitted bag carries is, as a kept head, the head every
      receipt in it is against. */
  lemma HeadNamesAll(c: Handover.Crypto, accept: set<Digest>, bag: Bag, whole: Whole, checked: Handover.Handover)
    requires SameAsChecked(c, accept, bag, whole, checked).Ok? && whole.head.Some?
    ensures forall x :: x in whole.carried ==> ProofNames(whole.head.value, x.receipt)
  {
    hide SignedHead.Parse, SignedHead.Covers, LinksBound, SignedHead.Kept, Handover.Sort, HeadOf;
    SignedHead.SignedIsKept(whole.head.value);
  }

  lemma CarriedGood(keys: Issuing.Keys, disk: Disk, whole: Whole, name: bytes, f: Folder, c: Carried)
    requires ReadFolder(keys, name, f) == Ok(c) && ClearFolder(keys.sha, f)
    requires whole.head.Some? ==> ProofNames(whole.head.value, c.receipt)
    ensures GoodCarried(Import(keys, disk, whole), c)
  {
    hide ReadFolder, ReadProof, ParseReceipt, Address.Of, Wire.DeedFromBytes, Handover.ProductsHold, IsId, IsUtf8;
    hide Readable;
    hide GoodLink, ClearFolder, ProofNames;
    ReadFolderFacts(keys, name, f);
    ReadProofFacts(keys.sha, name, f);
    CanonicalReads(keys.sha, f, c.deed);
    FolderLinks(keys, name, f);
    ReceiptsReadPlain(c.proof);
  }

  lemma {:induction false} ProductsRead(keys: Issuing.Keys, bag: Bag, names: seq<bytes>)
    requires NamesIn(names, bag.folders) && ReadFolders(keys, bag, names).Ok?
    ensures ProductsHashed(keys.sha, ReadFolders(keys, bag, names).value.1)
    decreases names
  {
    hide ReadFolder, Hex.Render;
    if names != [] {
      ReadFolderFacts(keys, names[0], bag.folders[names[0]]);
      ProductsRead(keys, bag, names[1..]);
    }
  }

  lemma {:induction false} PlacedDistinct(c: Carried, cs: seq<Carried>)
    requires DistinctIds(cs) && forall x :: x in cs ==> x.deed.id != c.deed.id
    ensures DistinctIds(Placed(c, cs))
    decreases cs
  {
    var out := Placed(c, cs);
    PlacedElements(c, cs);
    if cs != [] && c.receipt.index > cs[0].receipt.index {
      RestDistinct(cs);
      PlacedDistinct(c, cs[1..]);
      PlacedElements(c, cs[1..]);
      assert out[1..] == Placed(c, cs[1..]);
      HeadDistinct(cs);
      FrontDistinct(out);
    } else {
      assert out[1..] == cs;
      FrontDistinct(out);
    }
  }

  lemma HeadDistinct(cs: seq<Carried>)
    requires DistinctIds(cs) && cs != []
    ensures forall x :: x in cs[1..] ==> x.deed.id != cs[0].deed.id
  {
    forall x | x in cs[1..]
      ensures x.deed.id != cs[0].deed.id
    {
      var a :| 1 <= a < |cs| && cs[a] == x;
    }
  }

  lemma FrontDistinct(cs: seq<Carried>)
    requires cs != [] && DistinctIds(cs[1..]) && forall x :: x in cs[1..] ==> x.deed.id != cs[0].deed.id
    ensures DistinctIds(cs)
  {
    forall a, b | 0 <= a < b < |cs|
      ensures cs[a].deed.id != cs[b].deed.id
    {
      assert cs[b] == cs[1..][b - 1];
      if a > 0 {
        assert cs[a] == cs[1..][a - 1];
      } else {
        assert cs[b] in cs[1..];
      }
    }
  }

  lemma {:induction false} ByIndexDistinct(cs: seq<Carried>)
    requires DistinctIds(cs)
    ensures DistinctIds(ByIndex(cs))
    decreases cs
  {
    if cs != [] {
      RestDistinct(cs);
      HeadDistinct(cs);
      ByIndexDistinct(cs[1..]);
      ByIndexElements(cs[1..]);
      PlacedDistinct(cs[0], ByIndex(cs[1..]));
    }
  }

  /** Every folder has its own name, so every deed its own accession. */
  lemma ReadDistinct(keys: Issuing.Keys, bag: Bag, whole: Whole)
    requires ReadBag(keys, bag) == Ok(whole)
    ensures DistinctIds(whole.carried) && ProductsHashed(keys.sha, whole.products)
  {
    hide ReadFolder, InOrder, AtMost, ProductsHashed;
    InOrderElements(bag.folders.Keys);
    InOrderAscends(bag.folders.Keys);
    var names := Names(bag);
    var cs := ReadFolders(keys, bag, names).value.0;
    FoldersRead(keys, bag, names);
    ProductsRead(keys, bag, names);
    forall a, b | 0 <= a < b < |cs|
      ensures cs[a].deed.id != cs[b].deed.id
    {
      assert names[a] in names && names[b] in names;
      ReadFolderFacts(keys, names[a], bag.folders[names[a]]);
      ReadFolderFacts(keys, names[b], bag.folders[names[b]]);
      assert Before(names[a], names[b]);
    }
    ByIndexDistinct(cs);
  }

  /** An admitted bag, read, is one everything proved of a plan applies to. */
  lemma AdmittedGood(
    keys: Issuing.Keys, verify: SignedHead.Verify, accept: set<Digest>, allow: bool, first: Bag, second: Bag,
    checked: Handover.Handover, whole: Whole, disk: Disk)
    requires Admitted(keys, verify, accept, allow, first, second, checked, whole) && Clear(keys.sha, second)
    ensures GoodImport(Import(keys, disk, whole))
  {
    hide ReadBag, ReadFolder, SameAsChecked, Handover.Check, Admit, ClearFolder, GoodCarried, DistinctIds;
    hide ProductsHashed, IsUtf8, ProofNames;
    WholeFolders(keys, second, whole);
    ReadDistinct(keys, second, whole);
    if whole.head.Some? {
      HeadNamesAll(CryptoOf(keys, verify), accept, second, whole, checked);
    }
    forall c | c in whole.carried
      ensures GoodCarried(Import(keys, disk, whole), c)
    {
      CarriedGood(keys, disk, whole, c.receipt.id, second.folders[c.receipt.id], c);
    }
  }
}
