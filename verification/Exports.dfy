/** Handing deeds out: receipts and bridges from one reading of the log. */
module Exports {
  import opened Prelude
  import opened Text
  import opened Receipt
  import Handover
  import Hex
  import Log
  import Merkle

  // ---------- receipts ----------

  function ReceiptAt(sha: Sha, entries: seq<Log.Entry>, index: nat): Receipt
    requires index < |entries|
  {
    var leaves, e := Log.Leaves(sha, entries), entries[index];
    var head := Merkle.HeadOver(sha, leaves);
    Receipt(e.id, e.digest, e.time, index, head.size, head.root, Merkle.InclusionProof(sha, leaves, index).value)
  }

  /** Where `id` is first logged; the length when it is not. */
  function FirstAt(entries: seq<Log.Entry>, id: bytes): (i: nat)
    ensures i <= |entries|
    ensures forall j :: 0 <= j < i ==> entries[j].id != id
    ensures i < |entries| ==> entries[i].id == id
  {
    if entries == [] || entries[0].id == id then 0 else 1 + FirstAt(entries[1..], id)
  }

  function StoreReceipt(sha: Sha, entries: seq<Log.Entry>, id: bytes): Result<Receipt> {
    if FirstAt(entries, id) == |entries| then Err(NotFound) else Ok(ReceiptAt(sha, entries, FirstAt(entries, id)))
  }

  /** One reading of the log, hashed once. */
  datatype LogTree = LogTree(entries: seq<Log.Entry>, leaves: Merkle.Leaves, head: Merkle.Head, position: map<bytes,
      nat>)

  /** Each accession's index; one logged again is found at its last. */
  function Positions(entries: seq<Log.Entry>): map<bytes, nat>
    decreases |entries|
  {
    if entries == [] then map[]
    else
      var n := |entries| - 1;
      Positions(entries[..n])[entries[n].id := n]
  }

  ghost predicate LastAt(entries: seq<Log.Entry>, id: bytes, i: nat) {
    i < |entries| && entries[i].id == id && forall j :: i < j < |entries| ==> entries[j].id != id
  }

  lemma {:induction false} PositionsAreLast(entries: seq<Log.Entry>)
    ensures forall id :: id in Positions(entries) ==> LastAt(entries, id, Positions(entries)[id])
    ensures forall j :: 0 <= j < |entries| ==> entries[j].id in Positions(entries)
    decreases |entries|
  {
    if entries != [] {
      var n := |entries| - 1;
      var at := Positions(entries[..n]);
      PositionsAreLast(entries[..n]);
      forall id | id in Positions(entries)
        ensures LastAt(entries, id, Positions(entries)[id])
      {
        if id != entries[n].id {
          assert LastAt(entries[..n], id, at[id]);
        }
      }
      forall j | 0 <= j < n
        ensures entries[j].id in at
      {
        assert entries[..n][j] == entries[j];
      }
    }
  }

  function TreeOver(sha: Sha, entries: seq<Log.Entry>): LogTree {
    var leaves := Log.Leaves(sha, entries);
    LogTree(entries, leaves, Merkle.HeadOver(sha, leaves), Positions(entries))
  }

  method BuildTree(sha: Sha, entries: seq<Log.Entry>) returns (tree: LogTree)
    ensures tree == TreeOver(sha, entries)
  {
    hide Merkle.HeadOver, Merkle.LeafHash, Log.Material;
    var leaves: seq<Digest>, position: map<bytes, nat> := [], map[];
    for i := 0 to |entries|
      invariant leaves == Log.Leaves(sha, entries)[..i]
      invariant position == Positions(entries[..i])
    {
      assert entries[..i + 1][..i] == entries[..i];
      leaves := leaves + [Merkle.LeafHash(sha, Log.Material(entries[i]))];
      position := position[entries[i].id := i];
    }
    assert entries[..|entries|] == entries;
    assert leaves == Log.Leaves(sha, entries);
    return LogTree(entries, leaves, Merkle.HeadOver(sha, leaves), position);
  }

  function TreeReceipt(tree: LogTree, sha: Sha, id: bytes): Result<Receipt> {
    if id !in tree.position then Err(NotFound)
    else
      var index := tree.position[id];
      match Merkle.InclusionProof(sha, tree.leaves, index)
      case None => Err(Io)
      case Some(path) =>
        if index >= |tree.entries| then Err(Io)
        else
          var e := tree.entries[index];
          Ok(Receipt(e.id, e.digest, e.time, index, tree.head.size, tree.head.root, path))
  }

  ghost predicate LoggedTwice(entries: seq<Log.Entry>, id: bytes) {
    exists i, j :: 0 <= i < j < |entries| && entries[i].id == id && entries[j].id == id
  }

  /** The exporter's receipt is the store's own exactly when the log does not
      name the accession twice: one finds the last entry, the other the first. */
  lemma ReceiptsAgree(sha: Sha, entries: seq<Log.Entry>, id: bytes)
    ensures StoreReceipt(sha, entries, id) == TreeReceipt(TreeOver(sha, entries), sha, id) <==>
            !LoggedTwice(entries, id)
  {
    hide Merkle.HeadOver, Log.Leaves, Merkle.InclusionProof, Positions;
    PositionsAreLast(entries);
    var tree, first := TreeOver(sha, entries), FirstAt(entries, id);
    if id in tree.position {
      var last := tree.position[id];
      ProofThere(sha, entries, last);
      if first < last {
        assert LoggedTwice(entries, id);
      }
    }
  }

  lemma ProofThere(sha: Sha, entries: seq<Log.Entry>, index: nat)
    requires index < |entries|
    ensures Merkle.InclusionProof(sha, Log.Leaves(sha, entries), index).Some?
  {
  }

  /** A store's receipt names its entry and is on the path to its head. */
  lemma StoreReceiptChecks(sha: Sha, entries: seq<Log.Entry>, id: bytes)
    requires StoreReceipt(sha, entries, id).Ok?
    ensures var r := StoreReceipt(sha, entries, id).value;
            && r.id == id && r.index < |entries| && entries[r.index] == EntryOf(r)
            && HeadOf(r) == Handover.HeadOfLog(sha, entries)
            && Handover.OnPath(sha, r)
  {
    hide Merkle.Includes, Merkle.InclusionProof, Log.Material, Merkle.LeafHash;
    Merkle.EveryLeafProvesIn(sha, Log.Leaves(sha, entries), FirstAt(entries, id));
  }

  /** So is an exporter's. */
  lemma TreeReceiptChecks(sha: Sha, entries: seq<Log.Entry>, id: bytes)
    ensures TreeReceipt(TreeOver(sha, entries), sha, id).Ok? <==> exists e :: e in entries && e.id == id
    ensures TreeReceipt(TreeOver(sha, entries), sha, id).Ok? ==>
              var r := TreeReceipt(TreeOver(sha, entries), sha, id).value;
              && r.id == id && r.index < |entries| && entries[r.index] == EntryOf(r)
              && HeadOf(r) == Handover.HeadOfLog(sha, entries)
              && Handover.OnPath(sha, r)
  {
    hide Merkle.Includes, Merkle.InclusionProof, Log.Material, Merkle.LeafHash, Positions;
    var tree := TreeOver(sha, entries);
    PositionsAreLast(entries);
    if id in tree.position {
      assert entries[tree.position[id]] in entries;
      ProofThere(sha, entries, tree.position[id]);
      Merkle.EveryLeafProvesIn(sha, Log.Leaves(sha, entries), tree.position[id]);
    }
  }

  // ---------- bridges ----------

  function StoreBridge(sha: Sha, entries: seq<Log.Entry>, from: nat): Result<Bridge> {
    var leaves := Log.Leaves(sha, entries);
    match Merkle.ConsistencyProof(sha, leaves, from)
    case None => Err(Evidence)
    case Some(path) =>
      if from > |leaves| then Err(Evidence)
      else Ok(Bridge(Merkle.HeadOver(sha, leaves[..from]), Merkle.HeadOver(sha, leaves), path))
  }

  /** A store bridges from every size its log has had but zero, and what it
      writes passes against the head it had then. */
  lemma StoreBridgeChecks(sha: Sha, entries: seq<Log.Entry>, from: nat)
    ensures StoreBridge(sha, entries, from).Ok? <==> 0 < from <= |entries|
    ensures StoreBridge(sha, entries, from).Ok? ==>
              Handover.CheckSince(sha, Handover.HeadOfLog(sha, entries[..from]),
                  Some(StoreBridge(sha, entries, from).value),
                                  Handover.HeadOfLog(sha, entries)).Ok?
  {
    hide Merkle.Extends, Merkle.Root, Log.Material, Merkle.LeafHash, Hex.Render;
    if 0 < from <= |entries| {
      var leaves := Log.Leaves(sha, entries);
      Merkle.EveryPrefixProvesItIsOne(sha, leaves, from);
      assert Log.Leaves(sha, entries[..from]) == leaves[..from];
    }
  }
}
