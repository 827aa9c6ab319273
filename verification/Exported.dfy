/** The folder an export writes for one deed, and that a receiver's check takes
    every bag of such folders. */
module Exported {
  import opened Prelude
  import opened Text
  import opened Bag
  import opened Carrying
  import opened Deeds
  import opened Exports
  import opened Order
  import opened Receipt
  import opened Sidecars
  import opened Store
  import Address
  import Audit
  import Current
  import Fields
  import Frames
  import Graph
  import Handover
  import Hex
  import Issuing
  import Log
  import Merkle
  import SignedHead
  import Trail
  import Wire
  import WireProofs

  // ---------- the folder ----------

  /** The product bytes of every path, each copied from the store and hashed. */
  function Products(sha: Sha, files: Files, paths: seq<bytes>): Result<map<bytes, bytes>>
    decreases paths
  {
    if paths == [] then Ok(map[])
    else if !Issuing.PathHolds(sha, files, paths[0]) then Err(Evidence)
    else
      var hex := Address.HexOf(paths[0]).value;
      var rest :- Products(sha, files, paths[1..]);
      Ok(rest[hex := files[Product(hex)]])
  }

  /** The prior's accession with the digest it was bound to, or is held with. */
  function PriorLink(sha: Sha, files: Files, id: bytes): Result<Option<Link>> {
    if Supersedes(id) !in files then Ok(None)
    else
      var bound :- ReadSupersedes(files[Supersedes(id)]);
      match bound
      case None => Ok(None)
      case Some(Bound(prior, digest)) =>
        if digest.Some? && Cap(prior) !in files then Ok(Some(Link(prior, digest.value)))
        else
          var held :- DigestInStore(sha, files, prior);
          if digest.Some? && digest.value != held then Err(Evidence) else Ok(Some(Link(prior, held)))
  }

  /** Only a successor the store would step to. */
  function NextLink(sha: Sha, files: Files, id: bytes): Result<Option<Link>> {
    var next :- Current.NextTip(files, id);
    match next
    case None => Ok(None)
    case Some(n) =>
      var held :- DigestInStore(sha, files, n);
      Ok(Some(Link(n, held)))
  }

  function LinkFile(link: Option<Link>): Option<bytes> {
    match link
    case None => None
    case Some(t) => Some(BoundLines(t.id, t.digest))
  }

  // ---------- the trail beside it ----------

  /** One line for each deed, in order: its accession and its digest. */
  function SourceText(sha: Sha, files: Files, ids: seq<bytes>): bytes
    requires forall id :: id in ids ==> Get(files, id).Ok?
    decreases ids
  {
    if ids == [] then []
    else ids[0] + [TAB] + DeedDigest(sha, Get(files, ids[0]).value) + [NEWLINE] + SourceText(sha, files, ids[1..])
  }

  /** Every deed `d` was made from, however far back, is served. */
  ghost predicate TrailServed(files: Files, d: Deed) {
    forall id :: Graph.Reaches(Trail.Sources(d, Trail.ServedBy(files)), d.id, id) && id != d.id ==> Get(files, id).Ok?
  }

  ghost function TrailIds(files: Files, d: Deed): set<bytes> {
    set id | id in Audit.CapStems(files) && id != d.id
             && Graph.Reaches(Trail.Sources(d, Trail.ServedBy(files)), d.id, id)
  }

  lemma TrailIdsExact(files: Files, d: Deed)
    requires TrailServed(files, d)
    ensures forall id :: id in TrailIds(files, d) <==>
              id != d.id && Graph.Reaches(Trail.Sources(d, Trail.ServedBy(files)), d.id, id)
    ensures forall id :: id in InOrder(TrailIds(files, d)) <==> id in TrailIds(files, d)
    ensures forall id :: id in TrailIds(files, d) ==> Get(files, id).Ok?
  {
    hide Get, Graph.Reaches, InOrder;
    InOrderElements(TrailIds(files, d));
    forall id | id != d.id && Graph.Reaches(Trail.Sources(d, Trail.ServedBy(files)), d.id, id)
      ensures id in Audit.CapStems(files)
    {
      Audit.GetNames(files, id);
    }
  }

  /** The sidecar that lists a deed's trail, when it was made from any deed. */
  ghost function SourcesFile(sha: Sha, files: Files, d: Deed): Option<bytes>
    requires TrailServed(files, d)
  {
    TrailIdsExact(files, d);
    if TrailIds(files, d) == {} then None else Some(SourceText(sha, files, InOrder(TrailIds(files, d))))
  }

  /** The digests of a deed's trail by accession, as they are walked. */
  method TrailDigests(sha: Sha, files: Files, d: Deed) returns (r: Result<map<bytes, bytes>>)
    ensures r.Ok? <==> TrailServed(files, d)
    ensures r.Ok? ==> r.value.Keys == TrailIds(files, d)
    ensures r.Ok? ==> forall id :: id in r.value ==>
                        Get(files, id).Ok? && r.value[id] == DeedDigest(sha, Get(files, id).value)
  {
    hide Get, Graph.Reaches, InOrder, DeedDigest, Trail.Sources, Audit.CapStems;
    var held := Audit.CapStems(files);
    forall id | Get(files, id).Ok?
      ensures id in held
    {
      Served(files, id);
    }
    var walk, ids := Trail.WalkTrail(d, Trail.ServedBy(files), held);
    if walk.Err? {
      return Err(walk.error);
    }
    ListedTrail(files, d, ids, walk.value);
    hide TrailServed, TrailIds, Trail.Listed;
    var digests: map<bytes, bytes> := map[];
    for n := 1 to |walk.value|
      invariant digests.Keys == set k | 1 <= k < n :: ids[k]
      invariant forall id :: id in digests ==>
                  Get(files, id).Ok? && digests[id] == DeedDigest(sha, Get(files, id).value)
    {
      var found := walk.value[n];
      digests := digests[found.id := DeedDigest(sha, found)];
    }
    return Ok(digests);
  }

  /** The rows of the sidecar, in a loop over the accessions in order. */
  method RowsOf(sha: Sha, files: Files, digests: map<bytes, bytes>) returns (text: bytes)
    requires forall id :: id in digests ==> Get(files, id).Ok? && digests[id] == DeedDigest(sha, Get(files, id).value)
    ensures forall id :: id in InOrder(digests.Keys) ==> id in digests
    ensures text == SourceText(sha, files, InOrder(digests.Keys))
  {
    hide Get, InOrder, DeedDigest, SourceText;
    InOrderElements(digests.Keys);
    var rows := InOrder(digests.Keys);
    text := [];
    for n := 0 to |rows|
      invariant SourceText(sha, files, rows) == text + SourceText(sha, files, rows[n..])
    {
      assert rows[n] in rows;
      NextRow(sha, files, rows, n);
      text := text + (rows[n] + [TAB] + digests[rows[n]] + [NEWLINE]);
    }
    NoRows(sha, files);
    assert text + [] == text;
  }

  lemma NextRow(sha: Sha, files: Files, rows: seq<bytes>, n: nat)
    requires n < |rows| && forall id :: id in rows ==> Get(files, id).Ok?
    ensures SourceText(sha, files, rows[n..])
            == (rows[n] + [TAB] + DeedDigest(sha, Get(files, rows[n]).value) + [NEWLINE])
               + SourceText(sha, files, rows[n + 1..])
  {
    hide Get, DeedDigest;
    assert rows[n..][0] == rows[n] && rows[n..][1..] == rows[n + 1..];
  }

  lemma NoRows(sha: Sha, files: Files)
    ensures SourceText(sha, files, []) == []
  {
  }

  method WriteSources(sha: Sha, files: Files, d: Deed) returns (r: Result<Option<bytes>>)
    ensures r.Ok? <==> TrailServed(files, d)
    ensures r.Ok? ==> r.value == SourcesFile(sha, files, d)
  {
    hide Get, InOrder, DeedDigest, TrailServed, TrailIds, SourceText;
    var digests := TrailDigests(sha, files, d);
    if digests.Err? {
      return Err(digests.error);
    }
    if digests.value == map[] {
      return Ok(None);
    }
    var text := RowsOf(sha, files, digests.value);
    return Ok(Some(text));
  }

  /** What the walk lists after its start is the trail. */
  lemma ListedTrail(files: Files, d: Deed, ids: seq<bytes>, out: seq<Deed>)
    requires Trail.Listed(d, Trail.ServedBy(files), ids, out)
    requires forall x :: x in ids <==> Graph.Reaches(Trail.Sources(d, Trail.ServedBy(files)), d.id, x)
    ensures TrailServed(files, d)
    ensures (set k | 1 <= k < |ids| :: ids[k]) == TrailIds(files, d)
    ensures forall k :: 1 <= k < |ids| ==> Get(files, ids[k]) == Ok(out[k]) && out[k].id == ids[k]
  {
    hide Get, Graph.Reaches, Trail.Sources, Audit.CapStems;
    forall k | 1 <= k < |ids|
      ensures Get(files, ids[k]) == Ok(out[k]) && out[k].id == ids[k] && ids[k] != d.id
    {
      assert Trail.ServedBy(files)(ids[k]) == Ok(out[k]);
      Audit.GetNames(files, ids[k]);
      assert ids[0] != ids[k];
    }
    forall id | Graph.Reaches(Trail.Sources(d, Trail.ServedBy(files)), d.id, id) && id != d.id
      ensures exists k :: 1 <= k < |ids| && ids[k] == id
    {
      assert id in ids;
      var k :| 0 <= k < |ids| && ids[k] == id;
    }
    TrailIdsExact(files, d);
    var listed := set k | 1 <= k < |ids| :: ids[k];
    forall id
      ensures id in listed <==> id in TrailIds(files, d)
    {
      if id in listed {
        assert id in ids;
      }
    }
  }

  lemma Served(files: Files, id: bytes)
    requires Get(files, id).Ok?
    ensures id in Audit.CapStems(files)
  {
    hide Get;
    Audit.GetNames(files, id);
  }

  ghost function ExportFolder(sha: Sha, files: Files, tree: LogTree, id: bytes): Result<Folder> {
    var d :- Get(files, id);
    var products :- Products(sha, files, d.paths);
    var prior :- PriorLink(sha, files, id);
    var next :- NextLink(sha, files, id);
    if !TrailServed(files, d) then Err(Evidence)
    else
      var r :- TreeReceipt(tree, sha, id);
      Ok(Folder(
           Some(RenderReceipt(r)), Some(Wire.DeedBytes(d)), Issuing.Lookup(files, Evid(id)),
           Issuing.Lookup(files, Host(id)), LinkFile(prior), LinkFile(next), SourcesFile(sha, files, d), products))
  }

  // ---------- a receipt's file is text ----------

  predicate IsAscii(t: bytes) {
    forall i :: 0 <= i < |t| ==> t[i] < 0x80
  }

  lemma {:induction false} RenderedAscii(fields: seq<Fields.Field>)
    requires forall f :: f in fields ==> IsAscii(f.0) && IsAscii(f.1)
    ensures IsAscii(Fields.Render(fields))
    decreases fields
  {
    if fields != [] {
      RenderedAscii(fields[1..]);
    }
  }

  lemma HexAscii(b: bytes)
    ensures IsAscii(Hex.Render(b))
  {
    var t := Hex.Render(b);
    assert forall i :: 0 <= i < |t| ==> Hex.IsDigit(t[i]);
  }

  lemma DecimalAscii(n: nat)
    ensures IsAscii(Decimal(n))
  {
    var t := Decimal(n);
    assert forall i :: 0 <= i < |t| ==> IsDigit(t[i]);
  }

  lemma {:induction false} PathAscii(path: seq<Digest>)
    ensures forall f :: f in PathFields(path) ==> IsAscii(f.0) && IsAscii(f.1)
    decreases path
  {
    hide IsAscii;
    if path != [] {
      HexAscii(path[0]);
      KeysAscii();
      PathAscii(path[1..]);
    }
  }

  lemma KeysAscii()
    ensures IsAscii(Ascii("id")) && IsAscii(Ascii("digest")) && IsAscii(Ascii("time")) && IsAscii(Ascii("index"))
    ensures IsAscii(Ascii("size")) && IsAscii(Ascii("root")) && IsAscii(Ascii("path"))
  {
  }

  lemma ReceiptAscii(r: Receipt)
    requires IsAscii(r.id) && IsAscii(r.digest) && IsAscii(r.root)
    ensures IsUtf8(RenderReceipt(r))
  {
    hide IsAscii, IsUtf8, Decimal, PathFields, Ascii;
    KeysAscii();
    DecimalAscii(r.time);
    DecimalAscii(r.index);
    DecimalAscii(r.size);
    PathAscii(r.path);
    RenderedAscii(ReceiptFields(r));
    AsciiIsUtf8(RenderReceipt(r));
  }

  lemma AsciiIsUtf8(t: bytes)
    requires IsAscii(t)
    ensures IsUtf8(t)
  {
    Utf8Ascii(t);
  }

  lemma IdAscii(id: bytes)
    requires IsId(id)
    ensures IsAscii(id)
  {
    hide IsId;
    IdChars(id);
  }

  lemma AddressAscii(sha: Sha, content: bytes)
    ensures IsAscii(Address.Of(sha, content)) && LineSafe(Address.Of(sha, content))
  {
    hide Ascii, LineSafe, Address.HexOf;
    Address.OfIsAddress(sha, content);
    Address.AddressPlain(Address.Of(sha, content));
    Address.Colon();
    HexAscii(sha(content));
  }

  // ---------- it passes ----------

  lemma {:induction false} ProductsExact(sha: Sha, files: Files, paths: seq<bytes>)
    requires Products(sha, files, paths).Ok?
    ensures var m := Products(sha, files, paths).value;
            && (forall n :: n in m ==> Hex.Render(sha(m[n])) == n)
            && forall p :: p in paths ==> Address.HexOf(p).Some? && Address.HexOf(p).value in m
    decreases paths
  {
    hide Address.HexOf, Hex.Render;
    if paths != [] {
      ProductsExact(sha, files, paths[1..]);
    }
  }

  /** The receipt an exporter gives for a sound store's deed survives its file. */
  lemma ReceiptSurvives(sha: Sha, disk: Disk, id: bytes)
    requires Sound(sha, disk) && |Log.Entries(disk.log).value| < U64
    requires TreeReceipt(TreeOver(sha, Log.Entries(disk.log).value), sha, id).Ok?
    ensures var r := TreeReceipt(TreeOver(sha, Log.Entries(disk.log).value), sha, id).value;
            && r.id == id && IsId(id)
            && CapDeed(disk.files, id).Ok? && r.digest == DeedDigest(sha, CapDeed(disk.files, id).value)
            && IsUtf8(RenderReceipt(r)) && ParseReceipt(RenderReceipt(r)) == Ok(r)
            && HeadOf(r) == Handover.HeadOfLog(sha, Log.Entries(disk.log).value) && Handover.OnPath(sha, r)
  {
    hide TreeReceipt, TreeOver, Log.Entries, CapDeed, IsId, RenderReceipt, ParseReceipt, LineSafe, IsAscii;
    hide Handover.OnPath, IsUtf8;
    hide Address.Of, Hex.Render, Merkle.Root, Log.Leaves;
    var entries := Log.Entries(disk.log).value;
    TreeReceiptChecks(sha, entries, id);
    var r := TreeReceipt(TreeOver(sha, entries), sha, id).value;
    assert entries[r.index] in entries;
    Log.EntriesPlain(disk.log);
    assert Held(sha, disk.files, entries[r.index]);
    IdIsPlain(id);
    IdAscii(id);
    AddressAscii(sha, Wire.DeedBytes(CapDeed(disk.files, id).value));
    RootPlain(sha, Log.Leaves(sha, entries));
    ReceiptAscii(r);
    ReceiptRoundTrip(r);
  }

  lemma RootPlain(sha: Sha, leaves: Merkle.Leaves)
    ensures IsAscii(Hex.Render(Merkle.Root(sha, leaves))) && LineSafe(Hex.Render(Merkle.Root(sha, leaves)))
  {
    hide Merkle.Root;
    var d := Merkle.Root(sha, leaves);
    HexAscii(d);
    HexPlain(d);
    var t := Hex.Render(d);
    assert Hex.IsDigit(t[|t| - 1]);
  }

  /** A folder exported from a sound store is proven against its log's head. */
  lemma ExportedFolderPasses(sha: Sha, disk: Disk, id: bytes, f: Folder)
    requires Sound(sha, disk) && |Log.Entries(disk.log).value| < U64
    requires ExportFolder(sha, disk.files, TreeOver(sha, Log.Entries(disk.log).value), id) == Ok(f)
    ensures Handover.FolderReceipt(sha, id, f, Some(Handover.HeadOfLog(sha, Log.Entries(disk.log).value))).Ok?
  {
    hide TreeReceipt, TreeOver, Log.Entries, CapDeed, IsId, RenderReceipt, ParseReceipt, Handover.OnPath, IsUtf8, Sound;
    hide Get, PriorLink, NextLink, Handover.HeadOfLog, Wire.DeedFromBytes, Wire.DeedBytes;
    hide Products, TrailServed, SourcesFile;
    hide Address.Of;
    ReceiptSurvives(sha, disk, id);
    GetIsHeld(disk.files, id);
    CapGood(disk.files, id);
    ProductsExact(sha, disk.files, Get(disk.files, id).value.paths);
    assert DeedDigest(sha, Get(disk.files, id).value) == Address.Of(sha, Wire.DeedBytes(Get(disk.files, id).value));
  }

  /** One folder of a bag as an export writes it. */
  ghost predicate IsExport(sha: Sha, files: Files, tree: LogTree, bag: Bag, id: bytes) {
    && id in bag.folders
    && ExportFolder(sha, files, tree, id) == Ok(bag.folders[id])
  }

  /** A head line, if there is one, that reads, is covered by its signature,
      binds the bag's links and names the store's head. */
  ghost predicate LineStands(c: Handover.Crypto, disk: Disk, bag: Bag) {
    var line := Handover.ReadHeadLine(bag);
    && line.Ok? && Log.Entries(disk.log).Ok?
    && (line.value.Some? ==>
          var s := line.value.value;
          && SignedHead.Covers(c.verify, s, s.head, s.links)
          && LinksBound(c.sha, bag, s).Ok?
          && s.head == Handover.HeadOfLog(c.sha, Log.Entries(disk.log).value))
  }

  lemma ExportedAgainst(c: Handover.Crypto, disk: Disk, bag: Bag)
    requires Sound(c.sha, disk) && |Log.Entries(disk.log).value| < U64 && LineStands(c, disk, bag)
    requires forall id :: id in bag.folders ==> IsExport(c.sha, disk.files,
               TreeOver(c.sha, Log.Entries(disk.log).value), bag, id)
    ensures Handover.AllAgainst(c.sha, bag, Handover.ReadHeadLine(bag).value,
                                Handover.HeadOfLog(c.sha, Log.Entries(disk.log).value))
  {
    hide Handover.FolderReceipt, Handover.ReadHeadLine, Handover.HeadOfLog, Log.Entries, LinksBound;
    hide SignedHead.Covers, AllHeld, Once, Get, ExportFolder, TreeOver;
    var entries := Log.Entries(disk.log).value;
    forall id | id in bag.folders
      ensures Handover.Proven(c.sha, bag, id, Handover.HeadOfLog(c.sha, entries))
    {
      assert IsExport(c.sha, disk.files, TreeOver(c.sha, Log.Entries(disk.log).value), bag, id);
      ExportedFolderPasses(c.sha, disk, id, bag.folders[id]);
    }
  }

  /** A bag whose folders a sound store exported checks out, unsigned or under a
      head line its signature covers that names the store's head and binds the
      bag's links. */
  lemma ExportedBagChecks(c: Handover.Crypto, disk: Disk, bag: Bag, accept: set<Digest>)
    requires Sound(c.sha, disk) && |Log.Entries(disk.log).value| < U64 && LineStands(c, disk, bag)
    requires forall id :: id in bag.folders ==> IsExport(c.sha, disk.files,
               TreeOver(c.sha, Log.Entries(disk.log).value), bag, id)
    ensures Handover.Check(c, bag, accept).Ok?
    ensures Handover.Check(c, bag, accept).value.proven == Names(bag)
  {
    hide Handover.Check, Handover.ReadHeadLine, Handover.HeadOfLog, Log.Entries, LinksBound, IsExport;
    hide SignedHead.Covers, AllHeld, Once, TreeOver, Handover.AllAgainst;
    ExportedAgainst(c, disk, bag);
    assert Handover.ChecksOut(c, bag);
    Handover.CheckExact(c, bag, accept);
    Handover.CheckedOut(c, bag, accept);
  }
}
