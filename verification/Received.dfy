/** A bag as its receiver reads it: what an export wrote of each deed comes back. */
module Received {
  import opened Prelude
  import opened Text
  import opened Bag
  import opened Carrying
  import opened Deeds
  import opened Exported
  import opened Exports
  import opened Order
  import opened Receipt
  import opened Sidecars
  import opened Store
  import Address
  import Audit
  import Current
  import Frames
  import Graph
  import Handover
  import Hex
  import Importing
  import Issuing
  import Log
  import Planned
  import SignedHead
  import Trail
  import Wire
  import WireProofs

  // ---------- links ----------

  lemma SolidItem(t: bytes)
    requires Solid(t)
    ensures Trim(t) == t && t != [] && Items([t]) == [t]
  {
    hide Solid, Trim, Lines, IsUtf8, NameLine;
    SolidTrims(t);
    SolidSome(t);
    OneItem(t);
  }

  lemma {:induction false} ItemsConcat(a: seq<bytes>, b: seq<bytes>)
    ensures Items(a + b) == Items(a) + Items(b)
    decreases a
  {
    hide Trim;
    if a == [] {
      assert a + b == b;
    } else {
      assert (a + b)[1..] == a[1..] + b;
      ItemsConcat(a[1..], b);
    }
  }

  lemma LinkReads(t: Link)
    requires Planned.GoodLink(t)
    ensures ReadLink(Some(BoundLines(t.id, t.digest))) == Ok(Some(t))
  {
    hide Solid, Trim, Lines, IsUtf8, NameLine, ParseId, Address.HexOf, Items;
    IdSolid(t.id);
    AddressSolid(t.digest);
    SolidTrims(t.id);
    SolidTrims(t.digest);
    SolidItem(t.id);
    SolidItem(t.digest);
    Utf8Concat(NameLine(t.id), NameLine(t.digest));
    LinesConcat(NameLine(t.id), NameLine(t.digest));
    ItemsConcat([t.id], [t.digest]);
    Parses(t.id);
    assert [t.id] + [t.digest] == [t.id, t.digest];
  }

  lemma HeldId(files: Files, id: bytes)
    requires CapDeed(files, id).Ok?
    ensures IsId(id)
  {
    hide CapDeed, IsId, WireProofs.GoodBody, Wire.DeedFromBytes, Wire.DeedBytes;
    CapGood(files, id);
  }

  lemma ServedHeld(files: Files, id: bytes)
    requires Get(files, id).Ok?
    ensures CapDeed(files, id) == Get(files, id) && Get(files, id).value.id == id && IsId(id)
  {
    hide CapDeed, IsId;
    GetIsHeld(files, id);
    Audit.GetNames(files, id);
    HeldId(files, id);
  }

  lemma BoundGood(raw: bytes)
    requires ReadSupersedes(raw).Ok? && ReadSupersedes(raw).value.Some?
    ensures var b := ReadSupersedes(raw).value.value;
            IsId(b.id) && (b.digest.Some? ==> Address.HexOf(b.digest.value).Some?)
  {
    hide IsId, Address.HexOf, Items, Lines, IsUtf8, ParseId;
    IdParses(Items(Lines(raw))[0]);
  }

  lemma PriorGood(sha: Sha, files: Files, id: bytes)
    requires PriorLink(sha, files, id).Ok? && PriorLink(sha, files, id).value.Some?
    ensures Planned.GoodLink(PriorLink(sha, files, id).value.value)
  {
    hide CapDeed, IsId, Address.HexOf, ReadSupersedes, Wire.DeedBytes, Address.Of;
    BoundGood(files[Supersedes(id)]);
    var bound := ReadSupersedes(files[Supersedes(id)]).value.value;
    if CapDeed(files, bound.id).Ok? {
      Address.OfIsAddress(sha, Wire.DeedBytes(CapDeed(files, bound.id).value));
    }
  }

  lemma NextGood(sha: Sha, files: Files, id: bytes)
    requires NextLink(sha, files, id).Ok? && NextLink(sha, files, id).value.Some?
    ensures Planned.GoodLink(NextLink(sha, files, id).value.value)
  {
    hide CapDeed, IsId, Address.HexOf, Current.NextTip, Wire.DeedBytes, Address.Of;
    var t := NextLink(sha, files, id).value.value;
    HeldId(files, t.id);
    Address.OfIsAddress(sha, Wire.DeedBytes(CapDeed(files, t.id).value));
  }

  // ---------- the trail's digests ----------

  function Row(id: bytes, digest: bytes): bytes {
    id + [TAB] + digest
  }

  lemma RowSolid(id: bytes, digest: bytes)
    requires IsId(id) && Address.HexOf(digest).Some?
    ensures Solid(Row(id, digest)) && SplitOnce(Row(id, digest), TAB) == Some((id, digest))
  {
    hide IsId, IsUtf8, Address.HexOf, SplitOnce;
    IdIsPlain(id);
    IdChars(id);
    Address.AddressPlain(digest);
    AddressSolid(digest);
    SplitOnceAt(id, TAB, digest);
    Utf8Ascii([TAB]);
    Utf8Concat(id, [TAB]);
    Utf8Concat(id + [TAB], digest);
    LastVisible(digest);
    AsciiEnds(Row(id, digest));
  }

  lemma LastVisible(digest: bytes)
    requires Address.HexOf(digest).Some?
    ensures digest != [] && 33 <= digest[|digest| - 1] < 0x80
  {
    hide Ascii;
    Address.AddressPlain(digest);
    var hex := Address.HexOf(digest).value;
    assert digest[|digest| - 1] == hex[|hex| - 1];
  }

  function DigestOf(sha: Sha, files: Files, id: bytes): bytes
    requires Get(files, id).Ok?
  {
    DeedDigest(sha, Get(files, id).value)
  }

  function RowsFor(sha: Sha, files: Files, ids: seq<bytes>): seq<bytes>
    requires forall id :: id in ids ==> Get(files, id).Ok?
    decreases ids
  {
    if ids == [] then [] else [Row(ids[0], DigestOf(sha, files, ids[0]))] + RowsFor(sha, files, ids[1..])
  }

  lemma {:induction false} TextItems(sha: Sha, files: Files, ids: seq<bytes>)
    requires forall id :: id in ids ==> Get(files, id).Ok?
    ensures IsUtf8(SourceText(sha, files, ids))
    ensures Items(Lines(SourceText(sha, files, ids))) == RowsFor(sha, files, ids)
    decreases ids
  {
    hide Get, IsUtf8, Lines, Items, Solid, Trim, IsId, Address.HexOf, Wire.DeedBytes, Address.Of, SplitOnce;
    if ids == [] {
      NoText();
    } else {
      var id, rest := ids[0], SourceText(sha, files, ids[1..]);
      var digest := DigestOf(sha, files, id);
      var row := Row(id, digest);
      ServedHeld(files, id);
      Address.OfIsAddress(sha, Wire.DeedBytes(Get(files, id).value));
      RowSolid(id, digest);
      SolidTrims(row);
      SolidItem(row);
      TextItems(sha, files, ids[1..]);
      assert SourceText(sha, files, ids) == NameLine(row) + rest;
      Utf8Concat(NameLine(row), rest);
      LinesConcat(NameLine(row), rest);
      ItemsConcat([row], Lines(rest));
    }
  }

  lemma NoText()
    ensures IsUtf8([]) && Lines([]) == [] && Items([]) == []
  {
  }

  /** What was read so far, and what the rows to come add. */
  ghost predicate ReadAs(sha: Sha, files: Files, m: map<bytes, bytes>) {
    forall id :: id in m ==> Get(files, id).Ok? && m[id] == DigestOf(sha, files, id)
  }

  lemma {:induction false} RowsRead(sha: Sha, files: Files, ids: seq<bytes>, read: map<bytes, bytes>)
    requires (forall id :: id in ids ==> Get(files, id).Ok?) && ReadAs(sha, files, read)
    ensures var r := SourceLines(RowsFor(sha, files, ids), read);
            && r.Ok? && ReadAs(sha, files, r.value)
            && forall id :: id in r.value <==> id in read || id in ids
    decreases ids
  {
    hide Get, Solid, Trim, IsId, ParseId, Address.HexOf, Wire.DeedBytes, Address.Of, SplitOnce;
    if ids != [] {
      var id := ids[0];
      var digest := DigestOf(sha, files, id);
      var rows := RowsFor(sha, files, ids);
      ServedHeld(files, id);
      Address.OfIsAddress(sha, Wire.DeedBytes(Get(files, id).value));
      RowSolid(id, digest);
      AddressSolid(digest);
      SolidItem(digest);
      Parses(id);
      assert rows[0] == Row(id, digest) && rows[1..] == RowsFor(sha, files, ids[1..]);
      RowsRead(sha, files, ids[1..], read[id := digest]);
    }
  }

  /** A deed's trail as the sidecar beside it reads back. */
  lemma SourcesRead(sha: Sha, files: Files, d: Deed)
    requires TrailServed(files, d)
    ensures var r := ReadSources(SourcesFile(sha, files, d));
            && r.Ok? && ReadAs(sha, files, r.value) && r.value.Keys == TrailIds(files, d)
  {
    hide Get, InOrder, TrailServed, TrailIds, SourceText, ReadAs, ReadSources;
    TrailIdsExact(files, d);
    if TrailIds(files, d) == {} {
      NoSources(sha, files);
    } else {
      TextReads(sha, files, InOrder(TrailIds(files, d)));
    }
  }

  lemma NoSources(sha: Sha, files: Files)
    ensures ReadSources(None) == Ok(map[]) && ReadAs(sha, files, map[])
  {
  }

  lemma TextReads(sha: Sha, files: Files, ids: seq<bytes>)
    requires forall id :: id in ids ==> Get(files, id).Ok?
    ensures var r := ReadSources(Some(SourceText(sha, files, ids)));
            r.Ok? && ReadAs(sha, files, r.value) && r.value.Keys == set id | id in ids
  {
    hide Get, IsUtf8, Lines, Items, SourceText, SourceLines, DigestOf;
    TextItems(sha, files, ids);
    RowsRead(sha, files, ids, map[]);
  }

  // ---------- one folder ----------

  /** The deed of an export, its receipt, and its links, as a record carries them. */
  ghost predicate AsExported(sha: Sha, files: Files, tree: LogTree, id: bytes, c: Carried) {
    && Get(files, id) == Ok(c.deed) && TreeReceipt(tree, sha, id) == Ok(c.receipt)
    && c.host == Issuing.Lookup(files, Host(id))
    && PriorLink(sha, files, id) == Ok(c.supersedes) && NextLink(sha, files, id) == Ok(c.successor)
    && TrailServed(files, c.deed) && ReadAs(sha, files, c.sources) && c.sources.Keys == TrailIds(files, c.deed)
  }

  /** What a receiver asks of an exported folder beside its proof: evidence of the
      deed at its logged time, if any travels, and a host sidecar it can read. */
  ghost predicate Readily(keys: Issuing.Keys, f: Folder, d: Deed, time: nat) {
    CheckEvidence(f.evidence, d, time).Ok? && (f.host.Some? ==> keys.hostReads(f.host.value))
  }

  lemma LinksRead(sha: Sha, files: Files, id: bytes)
    requires PriorLink(sha, files, id).Ok? && NextLink(sha, files, id).Ok?
    ensures ReadLink(LinkFile(PriorLink(sha, files, id).value)) == PriorLink(sha, files, id)
    ensures ReadLink(LinkFile(NextLink(sha, files, id).value)) == NextLink(sha, files, id)
  {
    hide ReadLink, PriorLink, NextLink, Planned.GoodLink, BoundLines;
    var prior, next := PriorLink(sha, files, id).value, NextLink(sha, files, id).value;
    if prior.Some? {
      PriorGood(sha, files, id);
      LinkReads(prior.value);
    }
    if next.Some? {
      NextGood(sha, files, id);
      LinkReads(next.value);
    }
    NoLink();
  }

  lemma NoLink()
    ensures ReadLink(None) == Ok(None)
  {
  }

  // ---------- the whole bag ----------

  /** One folder as an export writes it, that its receiver can read. */
  ghost predicate ExportReads(keys: Issuing.Keys, files: Files, tree: LogTree, bag: Bag, id: bytes) {
    && IsExport(keys.sha, files, tree, bag, id) && TreeReceipt(tree, keys.sha, id).Ok?
    && Readily(keys, bag.folders[id], Get(files, id).value, TreeReceipt(tree, keys.sha, id).value.time)
  }

  /** A bag of such folders, at least one, from a sound store. */
  ghost predicate ExportedBag(keys: Issuing.Keys, disk: Disk, bag: Bag) {
    && Sound(keys.sha, disk) && |Log.Entries(disk.log).value| < U64 && bag.folders != map[]
    && forall id :: id in bag.folders ==>
         ExportReads(keys, disk.files, TreeOver(keys.sha, Log.Entries(disk.log).value), bag, id)
  }

  lemma {:induction false} FoldersRead(keys: Issuing.Keys, bag: Bag, names: seq<bytes>)
    requires NamesIn(names, bag.folders)
    requires forall n :: n in names ==> ReadFolder(keys, n, bag.folders[n]).Ok?
    ensures ReadFolders(keys, bag, names).Ok?
    decreases names
  {
    hide ReadFolder;
    if names != [] {
      assert names[0] in names;
      FoldersRead(keys, bag, names[1..]);
    }
  }

  /** An exported bag is read whole, each deed as it was exported. */
  lemma BagReads(keys: Issuing.Keys, disk: Disk, bag: Bag) returns (whole: Whole)
    requires ExportedBag(keys, disk, bag) && (bag.head.Some? ==> IsUtf8(bag.head.value))
    ensures ReadBag(keys, bag) == Ok(whole) && whole.head == bag.head
    ensures var tree := TreeOver(keys.sha, Log.Entries(disk.log).value);
            forall c :: c in whole.carried ==>
              && c.receipt.id in bag.folders && AsExported(keys.sha, disk.files, tree, c.receipt.id, c)
              && HeadOf(c.receipt) == Handover.HeadOfLog(keys.sha, Log.Entries(disk.log).value)
    ensures forall id :: id in bag.folders ==> exists c :: c in whole.carried && c.receipt.id == id
  {
    hide ReadFolder, AsExported, TreeOver, Log.Entries, Sound, HeadOf, InOrder, IsUtf8, Handover.HeadOfLog, ExportReads;
    forall id | id in bag.folders
      ensures FolderBack(keys, disk, bag, id)
    {
      FolderReads(keys, disk, bag, id);
    }
    InOrderElements(bag.folders.Keys);
    FoldersRead(keys, bag, Names(bag));
    whole := ReadBag(keys, bag).value;
    WholeFolders(keys, bag, whole);
    forall c | c in whole.carried
      ensures FolderBack(keys, disk, bag, c.receipt.id)
    {
    }
    forall id | id in bag.folders
      ensures exists c :: c in whole.carried && c.receipt.id == id
    {
      assert FolderBack(keys, disk, bag, id);
      ReadFolderFacts(keys, id, bag.folders[id]);
    }
  }

  /** A folder read back as it was exported. */
  ghost predicate FolderBack(keys: Issuing.Keys, disk: Disk, bag: Bag, id: bytes) {
    && id in bag.folders && ReadFolder(keys, id, bag.folders[id]).Ok? && Log.Entries(disk.log).Ok?
    && AsExported(keys.sha, disk.files, TreeOver(keys.sha, Log.Entries(disk.log).value), id,
                  ReadFolder(keys, id, bag.folders[id]).value)
    && HeadOf(ReadFolder(keys, id, bag.folders[id]).value.receipt)
       == Handover.HeadOfLog(keys.sha, Log.Entries(disk.log).value)
  }

  lemma OneExport(keys: Issuing.Keys, disk: Disk, bag: Bag, id: bytes)
    requires ExportedBag(keys, disk, bag) && id in bag.folders
    ensures Sound(keys.sha, disk) && |Log.Entries(disk.log).value| < U64
    ensures ExportReads(keys, disk.files, TreeOver(keys.sha, Log.Entries(disk.log).value), bag, id)
  {
    hide TreeOver, Log.Entries, Once, AllHeld, ExportReads;
  }

  /** Its proof, its octets and its products read back as the store's own. */
  lemma ProofReads(keys: Issuing.Keys, disk: Disk, bag: Bag, id: bytes, tree: LogTree)
    requires Sound(keys.sha, disk) && |Log.Entries(disk.log).value| < U64
    requires tree == TreeOver(keys.sha, Log.Entries(disk.log).value)
    requires ExportReads(keys, disk.files, tree, bag, id)
    ensures var f, d, r := bag.folders[id], Get(disk.files, id).value, TreeReceipt(tree, keys.sha, id).value;
            && ReadProof(keys.sha, id, f) == Ok((r, d)) && f.proof.Some? && Handover.ProductsHold(keys.sha, f, d)
            && HeadOf(r) == Handover.HeadOfLog(keys.sha, Log.Entries(disk.log).value)
  {
    hide TreeReceipt, TreeOver, Log.Entries, CapDeed, IsId, RenderReceipt, ParseReceipt, Handover.OnPath, IsUtf8, Sound;
    hide Get, PriorLink, NextLink, LinkFile, Handover.HeadOfLog, Wire.DeedFromBytes, Wire.DeedBytes, TrailServed;
    hide SourcesFile, CheckEvidence, Products, Address.Of, TrailIds, HeadOf;
    var sha, files := keys.sha, disk.files;
    ReceiptSurvives(sha, disk, id);
    GetIsHeld(files, id);
    CapGood(files, id);
    ProductsExact(sha, files, Get(files, id).value.paths);
    assert DeedDigest(sha, Get(files, id).value) == Address.Of(sha, Wire.DeedBytes(Get(files, id).value));
  }

  /** A folder a sound store exported reads back as what it exported. */
  lemma FolderReads(keys: Issuing.Keys, disk: Disk, bag: Bag, id: bytes)
    requires ExportedBag(keys, disk, bag) && id in bag.folders
    ensures FolderBack(keys, disk, bag, id)
  {
    hide TreeReceipt, TreeOver, Log.Entries, ReadProof, Handover.ProductsHold, AllHeld, Once;
    hide Get, PriorLink, NextLink, LinkFile, Handover.HeadOfLog, TrailServed, Wire.DeedBytes, RenderReceipt;
    hide SourcesFile, ReadLink, ReadSources, CheckEvidence, Products, TrailIds, ReadAs, HeadOf;
    OneExport(keys, disk, bag, id);
    var tree := TreeOver(keys.sha, Log.Entries(disk.log).value);
    ProofReads(keys, disk, bag, id, tree);
    LinksRead(keys.sha, disk.files, id);
    SourcesRead(keys.sha, disk.files, Get(disk.files, id).value);
  }

  // ---------- it is what was checked ----------

  lemma ConsAscends(x: bytes, ys: seq<bytes>)
    requires Ascending(ys) && forall y :: y in ys ==> Before(x, y)
    ensures Ascending([x] + ys)
  {
    hide Before;
    var all := [x] + ys;
    forall i, j | 0 <= i < j < |all|
      ensures Before(all[i], all[j])
    {
      assert all[j] == ys[j - 1] && ys[j - 1] in ys;
      if i > 0 {
        assert all[i] == ys[i - 1];
      }
    }
  }

  lemma {:induction false} InsertAscends(x: bytes, xs: seq<bytes>)
    requires Ascending(xs) && x !in xs
    ensures Ascending(Handover.Insert(x, xs))
    decreases xs
  {
    hide AtMost;
    if xs == [] || AtMost(x, xs[0]) {
      forall y | y in xs
        ensures Before(x, y)
      {
        FirstIsLeast(xs, y);
        Transitive(x, xs[0], y);
      }
      ConsAscends(x, xs);
    } else {
      Total(x, xs[0]);
      TailHas(xs);
      InsertAscends(x, xs[1..]);
      InsertElements(x, xs[1..]);
      forall y | y in Handover.Insert(x, xs[1..])
        ensures Before(xs[0], y)
      {
        if y != x {
          FirstIsLeast(xs, y);
        }
      }
      ConsAscends(xs[0], Handover.Insert(x, xs[1..]));
    }
  }

  lemma {:induction false} SortAscends(xs: seq<bytes>)
    requires forall i, j :: 0 <= i < j < |xs| ==> xs[i] != xs[j]
    ensures Ascending(Handover.Sort(xs))
    decreases xs
  {
    hide AtMost;
    if xs != [] {
      SortAscends(xs[1..]);
      SortElements(xs[1..]);
      InsertAscends(xs[0], Handover.Sort(xs[1..]));
    }
  }

  /** The accessions read, sorted, are the folders' names. */
  lemma SortedNames(keys: Issuing.Keys, bag: Bag, whole: Whole)
    requires ReadBag(keys, bag) == Ok(whole)
    ensures Handover.Sort(IdsOf(whole.carried)) == Names(bag)
  {
    hide ReadBag, ReadFolder, InOrder, Handover.Sort, Planned.ProductsHashed;
    var ids := IdsOf(whole.carried);
    Importing.ReadDistinct(keys, bag, whole);
    forall i, j | 0 <= i < j < |ids|
      ensures ids[i] != ids[j]
    {
      OwnName(keys, bag, whole, whole.carried[i]);
      OwnName(keys, bag, whole, whole.carried[j]);
    }
    SortAscends(ids);
    SameNames(keys, bag, whole, Handover.Sort(ids));
  }

  lemma OwnName(keys: Issuing.Keys, bag: Bag, whole: Whole, c: Carried)
    requires ReadBag(keys, bag) == Ok(whole) && c in whole.carried
    ensures c.deed.id == c.receipt.id
  {
    hide ReadBag, ReadFolder;
    WholeFolders(keys, bag, whole);
    ReadFolderFacts(keys, c.receipt.id, bag.folders[c.receipt.id]);
  }

  lemma CheckTold(c: Handover.Crypto, disk: Disk, bag: Bag, accept: set<Digest>)
    requires Sound(c.sha, disk) && |Log.Entries(disk.log).value| < U64 && LineStands(c, disk, bag)
    requires bag.folders.Keys != {}
    requires forall id :: id in bag.folders ==> IsExport(c.sha, disk.files,
               TreeOver(c.sha, Log.Entries(disk.log).value), bag, id)
    ensures var line := Handover.ReadHeadLine(bag).value;
            Handover.Check(c, bag, accept) ==
            Ok(Handover.Handover(
                 Names(bag), Some(Handover.HeadOfLog(c.sha, Log.Entries(disk.log).value)),
                 if line.Some? then Some(line.value.signer) else None,
                 line.Some? && accept != {} && line.value.signer in accept, accept != {}))
  {
    hide Handover.Check, Handover.ReadHeadLine, Handover.HeadOfLog, Log.Entries, LinksBound, IsExport;
    hide SignedHead.Covers, AllHeld, Once, TreeOver, Handover.AllAgainst;
    ExportedAgainst(c, disk, bag);
    CheckOfProven(c, bag, accept, Handover.HeadOfLog(c.sha, Log.Entries(disk.log).value));
  }

  /** What a receiver holds the head line of the bag it read to. */
  lemma HeadHeld(c: Handover.Crypto, disk: Disk, bag: Bag, accept: set<Digest>, whole: Whole,
      checked: Handover.Handover)
    requires LineStands(c, disk, bag) && whole.head == bag.head
    requires var line := Handover.ReadHeadLine(bag).value;
             && checked.head == Some(Handover.HeadOfLog(c.sha, Log.Entries(disk.log).value))
             && checked.signer == (if line.Some? then Some(line.value.signer) else None)
             && checked.accepted == (line.Some? && accept != {} && line.value.signer in accept)
    ensures SameHead(c, accept, bag, whole, checked) == Ok(checked.signer)
  {
    hide SignedHead.Parse, SignedHead.Covers, LinksBound, Handover.HeadOfLog, Log.Entries, IsUtf8;
  }

  lemma HeadIsText(c: Handover.Crypto, disk: Disk, bag: Bag)
    requires LineStands(c, disk, bag)
    ensures bag.head.Some? ==> IsUtf8(bag.head.value)
  {
    hide SignedHead.Parse, SignedHead.Covers, LinksBound, Handover.HeadOfLog, Log.Entries, IsUtf8;
  }

  /** The bag is admitted: its check, its reading and what it is held to agree. */
  lemma BagAdmitted(
    keys: Issuing.Keys, verify: SignedHead.Verify, accept: set<Digest>, allow: bool, disk: Disk, bag: Bag,
    checked: Handover.Handover, whole: Whole)
    requires ExportedBag(keys, disk, bag) && LineStands(Importing.CryptoOf(keys, verify), disk, bag)
    requires Handover.Check(Importing.CryptoOf(keys, verify), bag, accept) == Ok(checked)
    requires ReadBag(keys, bag) == Ok(whole) && (checked.accepted || allow)
    requires forall x :: x in whole.carried ==>
                           HeadOf(x.receipt) == Handover.HeadOfLog(keys.sha, Log.Entries(disk.log).value)
    ensures Importing.Admitted(keys, verify, accept, allow, bag, bag, checked, whole)
  {
    hide ReadBag, Handover.Check, Handover.ReadHeadLine, Handover.HeadOfLog, Log.Entries, Sound, ExportedBag;
    hide LineStands, HeadOf, SameHead, Handover.Sort, InOrder, Names;
    var c := Importing.CryptoOf(keys, verify);
    AllExported(keys, disk, bag);
    LineReads(c, disk, bag);
    CheckTold(c, disk, bag, accept);
    WholeHead(keys, bag, whole);
    SortedNames(keys, bag, whole);
    HeadHeld(c, disk, bag, accept, whole, checked);
    SomeName(bag);
  }

  lemma SomeName(bag: Bag)
    requires bag.folders.Keys != {}
    ensures Names(bag) != []
  {
    hide InOrder;
    InOrderElements(bag.folders.Keys);
    var id :| id in bag.folders.Keys;
    assert id in Names(bag);
  }

  lemma AllExported(keys: Issuing.Keys, disk: Disk, bag: Bag)
    requires ExportedBag(keys, disk, bag)
    ensures Sound(keys.sha, disk) && |Log.Entries(disk.log).value| < U64 && bag.folders.Keys != {}
    ensures forall id :: id in bag.folders ==>
              IsExport(keys.sha, disk.files, TreeOver(keys.sha, Log.Entries(disk.log).value), bag, id)
  {
    hide Log.Entries, AllHeld, Once, TreeOver, ExportReads, IsExport;
    forall id | id in bag.folders
      ensures IsExport(keys.sha, disk.files, TreeOver(keys.sha, Log.Entries(disk.log).value), bag, id)
    {
      OneExport(keys, disk, bag, id);
      ReadsIsExport(keys, disk.files, TreeOver(keys.sha, Log.Entries(disk.log).value), bag, id);
    }
    assert bag.folders.Keys == {} ==> bag.folders == map[];
  }

  lemma LineReads(c: Handover.Crypto, disk: Disk, bag: Bag)
    requires LineStands(c, disk, bag)
    ensures Handover.ReadHeadLine(bag).Ok?
  {
    hide Handover.ReadHeadLine;
  }

  lemma WholeHead(keys: Issuing.Keys, bag: Bag, whole: Whole)
    requires ReadBag(keys, bag) == Ok(whole)
    ensures whole.head == bag.head
  {
    hide ReadFolder;
    WholeFolders(keys, bag, whole);
  }

  lemma ReadsIsExport(keys: Issuing.Keys, files: Files, tree: LogTree, bag: Bag, id: bytes)
    requires ExportReads(keys, files, tree, bag, id)
    ensures IsExport(keys.sha, files, tree, bag, id)
  {
    hide IsExport, Readily;
  }
}
