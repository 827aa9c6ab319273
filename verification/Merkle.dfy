/** The append-only Merkle log: its hashes, heads and verifiers. */
module Merkle {
  // A leaf hashes a zero octet and the entry's bytes, a node a one octet and the
  // two hashes below it (sections 2.1.1, 2.1.3 and 2.1.4 of RFC 9162).

  import opened Prelude
  import opened Shape
  import Tree
  import Hex

  type Leaves = seq<Digest>

  function NodeInput(left: Digest, right: Digest): bytes {
    [1] + left + right
  }

  function LeafHash(sha: Sha, material: bytes): Digest {
    sha([0] + material)
  }

  function Node(sha: Sha): Tree.Node<Digest> {
    (left: Digest, right: Digest) => sha(NodeInput(left, right))
  }

  /** The root of no leaves is the hash of nothing. */
  function Root(sha: Sha, leaves: Leaves): Digest {
    if leaves == [] then sha([]) else Tree.Root(Node(sha), leaves)
  }

  function InclusionProof(sha: Sha, leaves: Leaves, index: nat): Option<seq<Digest>> {
    Tree.InclusionProof(Node(sha), leaves, index)
  }

  function ConsistencyProof(sha: Sha, leaves: Leaves, held: nat): Option<seq<Digest>> {
    Tree.ConsistencyProof(Node(sha), leaves, held)
  }

  /** What a store publishes: how many entries it has, and the root over them
      as lower-case hex. */
  datatype Head = Head(size: nat, root: bytes)

  function HeadOver(sha: Sha, leaves: Leaves): Head {
    Head(|leaves|, Hex.Render(Root(sha, leaves)))
  }

  // ---------- what the verifiers accept ----------

  predicate Includes(sha: Sha, leaf: Digest, index: nat, head: Head, path: seq<Digest>) {
    && index < head.size
    && |path| == |Sides(index, head.size - 1)|
    && Hex.Render(Tree.Climb(Node(sha), leaf, Sides(index, head.size - 1), path)) == head.root
  }

  /** The hash both climbs of a consistency path start from, and the steps
      after it. The root of a whole subtree is not sent. */
  function SeedAndRest(held: Head, path: seq<Digest>): Option<(Digest, seq<Digest>)> {
    if IsPow2(held.size) then
      match Hex.Parse(held.root)
      case None => None
      case Some(seed) => Some((seed, path))
    else if path == [] then None
    else Some((path[0], path[1..]))
  }

  predicate Extends(sha: Sha, held: Head, now: Head, path: seq<Digest>) {
    && 0 < held.size <= now.size
    && if held.size == now.size then path == [] && held.root == now.root else
         match SeedAndRest(held, path)
         case None => false
         case Some((seed, rest)) =>
           var sides := BridgeSides(held.size, now.size);
           && |rest| == |sides|
           && Hex.Render(Tree.ClimbHeld(Node(sha), seed, sides, rest)) == held.root
           && Hex.Render(Tree.Climb(Node(sha), seed, sides, rest)) == now.root
  }

  // ---------- the verifiers ----------

  method VerifyInclusion(sha: Sha, leaf: Digest, index: nat, head: Head, path: seq<Digest>)
    returns (ok: bool)
    ensures ok == Includes(sha, leaf, index, head, path)
  {
    if index >= head.size {
      return false;
    }
    var hash := leaf;
    var at: nat, last: nat := index, head.size - 1;
    ghost var sides := Sides(at, last);
    var k := 0;
    while last > 0
      invariant at <= last
      invariant k <= |sides| && k <= |path|
      invariant Sides(at, last) == sides[k..]
      invariant hash == Tree.Climb(Node(sha), leaf, sides[..k], path[..k])
    {
      TakeSide(sides, k, at, last);
      if k == |path| {
        return false;
      }
      var step := path[k];
      Tree.ClimbStep(Node(sha), leaf, sides, path, k);
      if at % 2 == 1 || at == last {
        hash := Node(sha)(step, hash);
        at, last := Skip(at, last);
      } else {
        hash := Node(sha)(hash, step);
      }
      at := at / 2;
      last := last / 2;
      k := k + 1;
    }
    TakeSide(sides, k, at, last);
    ok := k == |path| && Hex.Render(hash) == head.root;
    if k == |path| {
      assert path[..k] == path;
    }
  }

  /** Pass every level at which this subtree has no sibling. */
  method Skip(at0: nat, last0: nat) returns (at: nat, last: nat)
    requires at0 <= last0
    ensures at <= last <= last0 && (at / 2, last / 2) == UpLeft(at0, last0)
  {
    at, last := at0, last0;
    while at != 0 && at % 2 == 0
      invariant at <= last <= last0
      invariant UpLeft(at, last) == UpLeft(at0, last0)
      decreases at
    {
      at := at / 2;
      last := last / 2;
    }
  }

  method VerifyConsistency(sha: Sha, held: Head, now: Head, path: seq<Digest>) returns (ok: bool)
    ensures ok == Extends(sha, held, now, path)
  {
    if held.size == 0 || held.size > now.size {
      return false;
    }
    if held.size == now.size {
      return path == [] && held.root == now.root;
    }
    var start := SeedAndRest(held, path);
    if start.None? {
      return false;
    }
    var (seed, rest) := start.value;
    var at: nat, last: nat := held.size - 1, now.size - 1;
    while at % 2 == 1
      invariant at <= last
      invariant StripOdd(at, last) == StripOdd(held.size - 1, now.size - 1)
      decreases at
    {
      at := at / 2;
      last := last / 2;
    }
    ghost var sides := BridgeSides(held.size, now.size);
    var fromHeld, fromNow := seed, seed;
    var k := 0;
    while k < |rest|
      invariant at <= last
      invariant k <= |sides| && k <= |rest|
      invariant Sides(at, last) == sides[k..]
      invariant fromHeld == Tree.ClimbHeld(Node(sha), seed, sides[..k], rest[..k])
      invariant fromNow == Tree.Climb(Node(sha), seed, sides[..k], rest[..k])
    {
      TakeSide(sides, k, at, last);
      if last == 0 {
        return false;
      }
      var step := rest[k];
      Tree.ClimbStep(Node(sha), seed, sides, rest, k);
      if at % 2 == 1 || at == last {
        fromHeld := Node(sha)(step, fromHeld);
        fromNow := Node(sha)(step, fromNow);
        at, last := Skip(at, last);
      } else {
        fromNow := Node(sha)(fromNow, step);
      }
      at := at / 2;
      last := last / 2;
      k := k + 1;
    }
    assert rest[..k] == rest;
    TakeSide(sides, k, at, last);
    ok := last == 0 && Hex.Render(fromHeld) == held.root && Hex.Render(fromNow) == now.root;
  }

  // ---------- the inputs a root and a climb hash ----------

  ghost function NodeInputs(joins: set<(Digest, Digest)>): set<bytes> {
    set p | p in joins :: NodeInput(p.0, p.1)
  }

  ghost function RootInputs(sha: Sha, leaves: Leaves): set<bytes> {
    NodeInputs(Tree.RootJoins(Node(sha), leaves))
  }

  ghost function ClimbInputs(sha: Sha, hash: Digest, sides: seq<Side>, path: seq<Digest>): set<bytes> {
    NodeInputs(Tree.ClimbJoins(Node(sha), hash, sides, path) + Tree.ClimbHeldJoins(Node(sha), hash, sides, path))
  }

  /** Everything hashed by a root and by checking an audit path against it. */
  ghost function InclusionInputs(sha: Sha, leaves: Leaves, index: nat, leaf: Digest, path: seq<Digest>): set<bytes> {
    RootInputs(sha, leaves)
    + if index < |leaves| then ClimbInputs(sha, leaf, Sides(index, |leaves| - 1), path) else {}
  }

  /** Everything hashed by two roots and by checking a path between them. */
  ghost function ConsistencyInputs(sha: Sha, a: Leaves, b: Leaves, path: seq<Digest>): set<bytes> {
    RootInputs(sha, a) + RootInputs(sha, b)
    + if !(0 < |a| <= |b|) then {} else
        match SeedAndRest(HeadOver(sha, a), path)
        case None => {}
        case Some((seed, rest)) => ClimbInputs(sha, seed, BridgeSides(|a|, |b|), rest)
  }

  lemma NodeInputInjective(a: Digest, b: Digest, c: Digest, d: Digest)
    requires NodeInput(a, b) == NodeInput(c, d)
    ensures a == c && b == d
  {
    assert NodeInput(a, b)[1..33] == a && NodeInput(a, b)[33..] == b;
    assert NodeInput(c, d)[1..33] == c && NodeInput(c, d)[33..] == d;
  }

  lemma NodesApart(sha: Sha, joins: set<(Digest, Digest)>)
    requires CollisionFree(sha, NodeInputs(joins))
    ensures Tree.InjectiveOn(Node(sha), joins)
  {
    hide NodeInput;
    forall p, q | p in joins && q in joins && Node(sha)(p.0, p.1) == Node(sha)(q.0, q.1)
      ensures p == q
    {
      assert NodeInput(p.0, p.1) in NodeInputs(joins) && NodeInput(q.0, q.1) in NodeInputs(joins);
      NodeInputInjective(p.0, p.1, q.0, q.1);
    }
  }

  /** Two leaf lists of one length with one root are one list. */
  lemma RootInjective(sha: Sha, a: Leaves, b: Leaves)
    requires |a| == |b| && Root(sha, a) == Root(sha, b)
    requires CollisionFree(sha, RootInputs(sha, a) + RootInputs(sha, b))
    ensures a == b
  {
    if |a| > 0 {
      var joins := Tree.RootJoins(Node(sha), a) + Tree.RootJoins(Node(sha), b);
      assert NodeInputs(joins) == RootInputs(sha, a) + RootInputs(sha, b);
      NodesApart(sha, joins);
      Tree.RootInjective(Node(sha), joins, a, b);
    }
  }

  // ---------- inclusion ----------

  /** Every leaf proves in, whatever the hash. */
  lemma EveryLeafProvesIn(sha: Sha, leaves: Leaves, index: nat)
    requires index < |leaves|
    ensures InclusionProof(sha, leaves, index).Some?
    ensures Includes(sha, leaves[index], index, HeadOver(sha, leaves), InclusionProof(sha, leaves, index).value)
  {
    InclusionSidesAgree(index, |leaves|);
    Tree.InclusionComplete(Node(sha), leaves, index);
  }

  /** The verifier accepts a leaf at an index, against the head of `leaves`,
      exactly when the leaf is the one there and the path is the one the
      prover writes: no shorter, longer or altered path passes. */
  lemma InclusionExact(sha: Sha, leaves: Leaves, index: nat, leaf: Digest, path: seq<Digest>)
    requires CollisionFree(sha, InclusionInputs(sha, leaves, index, leaf, path))
    ensures Includes(sha, leaf, index, HeadOver(sha, leaves), path) <==>
            && index < |leaves|
            && leaf == leaves[index]
            && InclusionProof(sha, leaves, index) == Some(path)
  {
    if index < |leaves| {
      EveryLeafProvesIn(sha, leaves, index);
      if Includes(sha, leaf, index, HeadOver(sha, leaves), path) {
        InclusionOnlyByProof(sha, leaves, index, leaf, path);
      }
    }
  }

  lemma InclusionOnlyByProof(sha: Sha, leaves: Leaves, index: nat, leaf: Digest, path: seq<Digest>)
    requires CollisionFree(sha, InclusionInputs(sha, leaves, index, leaf, path)) && index < |leaves|
    requires Includes(sha, leaf, index, HeadOver(sha, leaves), path)
    ensures leaf == leaves[index] && InclusionProof(sha, leaves, index) == Some(path)
  {
    hide Tree.Climb, Tree.Root, Tree.RootJoins, Tree.ClimbJoins, Tree.ClimbHeldJoins, Sides, Hex.Render;
    var sides := Sides(index, |leaves| - 1);
    InclusionSidesAgree(index, |leaves|);
    Hex.Injective(Tree.Climb(Node(sha), leaf, sides, path), Root(sha, leaves));
    var joins := Tree.RootJoins(Node(sha), leaves)
                 + (Tree.ClimbJoins(Node(sha), leaf, sides, path) + Tree.ClimbHeldJoins(Node(sha), leaf, sides, path));
    assert NodeInputs(joins) == InclusionInputs(sha, leaves, index, leaf, path);
    NodesApart(sha, joins);
    Tree.InclusionSound(Node(sha), joins, leaves, index, leaf, path);
  }

  // ---------- consistency ----------

  /** The path a prover writes is accepted for every prefix but the empty one. */
  lemma EveryPrefixProvesItIsOne(sha: Sha, leaves: Leaves, held: nat)
    requires held <= |leaves|
    ensures ConsistencyProof(sha, leaves, held).None? <==> held == 0
    ensures held > 0 ==>
              Extends(sha, HeadOver(sha, leaves[..held]), HeadOver(sha, leaves),
                      ConsistencyProof(sha, leaves, held).value)
  {
    hide Tree.Climb, Tree.ClimbHeld, Tree.Root, Tree.Subproof, Tree.Seed, Tree.Rest, Hex.Render, Hex.Parse;
    if held == |leaves| > 0 {
      assert leaves[..held] == leaves;
      Tree.SubproofWhole(Node(sha), leaves);
    } else if held > 0 {
      ConsistencySidesAgree(held, |leaves|);
      Tree.SubproofParts(Node(sha), leaves, held, true);
      Tree.ConsistencyClimbs(Node(sha), leaves, held);
      var seed, rest := Tree.Seed(Node(sha), leaves, held), Tree.Rest(Node(sha), leaves, held);
      Hex.RoundTrip(Hex.Render(Root(sha, leaves[..held])), Root(sha, leaves[..held]));
      var path := ConsistencyProof(sha, leaves, held).value;
      assert if IsPow2(held) then path == rest else path[1..] == rest;
      assert SeedAndRest(HeadOver(sha, leaves[..held]), path) == Some((seed, rest));
    }
  }

  /** A bridge between the heads of two leaf lists is accepted exactly when the
      older list is a prefix of the newer, is not empty, and the path is the
      one the prover writes. */
  lemma ConsistencyExact(sha: Sha, a: Leaves, b: Leaves, path: seq<Digest>)
    requires CollisionFree(sha, ConsistencyInputs(sha, a, b, path))
    ensures Extends(sha, HeadOver(sha, a), HeadOver(sha, b), path) <==>
            a <= b && ConsistencyProof(sha, b, |a|) == Some(path)
  {
    hide Extends, ConsistencyInputs, CollisionFree;
    if a <= b {
      assert b[..|a|] == a;
      EveryPrefixProvesItIsOne(sha, b, |a|);
    }
    if Extends(sha, HeadOver(sha, a), HeadOver(sha, b), path) {
      ExtendsOnlyByProof(sha, a, b, path);
    }
  }

  lemma ExtendsOnlyByProof(sha: Sha, a: Leaves, b: Leaves, path: seq<Digest>)
    requires CollisionFree(sha, ConsistencyInputs(sha, a, b, path))
    requires Extends(sha, HeadOver(sha, a), HeadOver(sha, b), path)
    ensures a <= b && ConsistencyProof(sha, b, |a|) == Some(path)
  {
    hide Tree.Climb, Tree.ClimbHeld, Tree.Root, Tree.RootJoins, Tree.ClimbJoins, Tree.ClimbHeldJoins;
    hide Tree.Subproof, Tree.Seed, Tree.Rest, BridgeSides, Hex.Render, Hex.Parse;
    if |a| == |b| {
      Hex.Injective(Root(sha, a), Root(sha, b));
      RootInjective(sha, a, b);
      Tree.SubproofWhole(Node(sha), b);
    } else {
      var (seed, rest) := SeedAndRest(HeadOver(sha, a), path).value;
      var sides := BridgeSides(|a|, |b|);
      ConsistencySidesAgree(|a|, |b|);
      Hex.Injective(Tree.ClimbHeld(Node(sha), seed, sides, rest), Root(sha, a));
      Hex.Injective(Tree.Climb(Node(sha), seed, sides, rest), Root(sha, b));
      var joins := Tree.RootJoins(Node(sha), a) + Tree.RootJoins(Node(sha), b)
                   + (Tree.ClimbJoins(Node(sha), seed, sides, rest) + Tree.ClimbHeldJoins(Node(sha), seed, sides,
                       rest));
      assert NodeInputs(joins) == ConsistencyInputs(sha, a, b, path);
      NodesApart(sha, joins);
      Tree.ConsistencySound(Node(sha), joins, a, b, seed, rest);
      Tree.SubproofParts(Node(sha), b, |a|, true);
      assert path == (if IsPow2(|a|) then [] else [seed]) + rest;
    }
  }
}
