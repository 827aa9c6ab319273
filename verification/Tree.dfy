/** Roots and paths of a Merkle tree, over any hash and any way of joining. */
module Tree {
  import opened Prelude
  import opened Shape

  /** How two hashes join into the one above them. */
  type Node<!D> = (D, D) -> D

  function Root<D>(node: Node<D>, leaves: seq<D>): D
    requires leaves != []
    decreases |leaves|
  {
    if |leaves| == 1 then leaves[0]
    else
      var s := Split(|leaves|);
      node(Root(node, leaves[..s]), Root(node, leaves[s..]))
  }

  // ---------- provers, top down ----------

  /** Sibling subtree roots from the leaf at `index` up, innermost first. */
  function AuditPath<D(!new)>(node: Node<D>, leaves: seq<D>, index: nat): (path: seq<D>)
    requires index < |leaves|
    ensures |path| == |InclusionSides(index, |leaves|)|
    decreases |leaves|
  {
    if |leaves| == 1 then []
    else
      var s := Split(|leaves|);
      if index < s then AuditPath(node, leaves[..s], index) + [Root(node, leaves[s..])]
      else AuditPath(node, leaves[s..], index - s) + [Root(node, leaves[..s])]
  }

  function InclusionProof<D(!new)>(node: Node<D>, leaves: seq<D>, index: nat): Option<seq<D>> {
    if index >= |leaves| then None else Some(AuditPath(node, leaves, index))
  }

  function Subproof<D(!new)>(node: Node<D>, leaves: seq<D>, held: nat, known: bool): seq<D>
    requires 0 < held <= |leaves|
    decreases |leaves|
  {
    if held == |leaves| then
      if known then [] else [Root(node, leaves)]
    else
      var s := Split(|leaves|);
      if held <= s then
        Subproof(node, leaves[..s], held, known) + [Root(node, leaves[s..])]
      else
        Subproof(node, leaves[s..], held - s, false) + [Root(node, leaves[..s])]
  }

  function ConsistencyProof<D(!new)>(node: Node<D>, leaves: seq<D>, held: nat): Option<seq<D>> {
    if held == 0 || held > |leaves| then None else Some(Subproof(node, leaves, held, true))
  }

  /** The running hash after joining every step of `path`, innermost first. */
  function Climb<D(!new)>(node: Node<D>, hash: D, sides: seq<Side>, path: seq<D>): D
    requires |sides| == |path|
    decreases |sides|
  {
    if sides == [] then hash
    else
      var n := |sides| - 1;
      var below := Climb(node, hash, sides[..n], path[..n]);
      match sides[n]
      case Left => node(path[n], below)
      case Right => node(below, path[n])
  }

  /** The running hash of the older tree: steps on the right lie beyond it. */
  function ClimbHeld<D(!new)>(node: Node<D>, hash: D, sides: seq<Side>, path: seq<D>): D
    requires |sides| == |path|
    decreases |sides|
  {
    if sides == [] then hash
    else
      var n := |sides| - 1;
      var below := ClimbHeld(node, hash, sides[..n], path[..n]);
      match sides[n]
      case Left => node(path[n], below)
      case Right => below
  }

  lemma ClimbStep<D(!new)>(node: Node<D>, hash: D, sides: seq<Side>, path: seq<D>, n: nat)
    requires n < |sides| && n < |path|
    ensures Climb(node, hash, sides[..n + 1], path[..n + 1]) ==
            match sides[n]
            case Left => node(path[n], Climb(node, hash, sides[..n], path[..n]))
            case Right => node(Climb(node, hash, sides[..n], path[..n]), path[n])
    ensures ClimbHeld(node, hash, sides[..n + 1], path[..n + 1]) ==
            match sides[n]
            case Left => node(path[n], ClimbHeld(node, hash, sides[..n], path[..n]))
            case Right => ClimbHeld(node, hash, sides[..n], path[..n])
  {
    assert sides[..n + 1][..n] == sides[..n];
    assert path[..n + 1][..n] == path[..n];
  }

  // ---------- the pairs a root and a climb join ----------

  /** No two different pairs among `pairs` join into one hash. */
  ghost predicate InjectiveOn<D(!new)>(node: Node<D>, pairs: set<(D, D)>) {
    forall p, q :: p in pairs && q in pairs && node(p.0, p.1) == node(q.0, q.1) ==> p == q
  }

  lemma Unjoin<D(!new)>(node: Node<D>, pairs: set<(D, D)>, p: (D, D), q: (D, D))
    requires InjectiveOn(node, pairs) && p in pairs && q in pairs && node(p.0, p.1) == node(q.0, q.1)
    ensures p.0 == q.0 && p.1 == q.1
  {
  }

  ghost function RootJoins<D(!new)>(node: Node<D>, leaves: seq<D>): set<(D, D)>
    decreases |leaves|
  {
    if |leaves| <= 1 then {}
    else
      var s := Split(|leaves|);
      {(Root(node, leaves[..s]), Root(node, leaves[s..]))}
      + RootJoins(node, leaves[..s]) + RootJoins(node, leaves[s..])
  }

  ghost function ClimbJoins<D(!new)>(node: Node<D>, hash: D, sides: seq<Side>, path: seq<D>): set<(D, D)>
    decreases |sides|
  {
    if |sides| != |path| || sides == [] then {}
    else
      var n := |sides| - 1;
      var below := Climb(node, hash, sides[..n], path[..n]);
      {if sides[n] == Left then (path[n], below) else (below, path[n])}
      + ClimbJoins(node, hash, sides[..n], path[..n])
  }

  ghost function ClimbHeldJoins<D(!new)>(node: Node<D>, hash: D, sides: seq<Side>, path: seq<D>): set<(D, D)>
    decreases |sides|
  {
    if |sides| != |path| || sides == [] then {}
    else
      var n := |sides| - 1;
      var below := ClimbHeld(node, hash, sides[..n], path[..n]);
      (if sides[n] == Left then {(path[n], below)} else {})
      + ClimbHeldJoins(node, hash, sides[..n], path[..n])
  }

  lemma RootSplits<D(!new)>(node: Node<D>, leaves: seq<D>)
    requires |leaves| >= 2
    ensures var s := Split(|leaves|);
            var l, r := leaves[..s], leaves[s..];
            && Root(node, leaves) == node(Root(node, l), Root(node, r))
            && RootJoins(node, leaves) == {(Root(node, l), Root(node, r))} + RootJoins(node, l) + RootJoins(node, r)
  {
  }

  /** Two leaf lists of one length with one root are one list. */
  lemma {:induction false} RootInjective<D(!new)>(node: Node<D>, joins: set<(D, D)>, a: seq<D>, b: seq<D>)
    requires |a| == |b| > 0 && Root(node, a) == Root(node, b)
    requires RootJoins(node, a) + RootJoins(node, b) <= joins && InjectiveOn(node, joins)
    ensures a == b
    decreases |a|
  {
    if |a| > 1 {
      var s := Split(|a|);
      RootInjective(node, joins, a[..s], b[..s]);
      RootInjective(node, joins, a[s..], b[s..]);
      assert a == a[..s] + a[s..] && b == b[..s] + b[s..];
    }
  }

  /** One more step on a climb. */
  lemma ClimbPush<D(!new)>(node: Node<D>, hash: D, sides: seq<Side>, side: Side, path: seq<D>, step: D)
    requires |sides| == |path|
    ensures Climb(node, hash, sides + [side], path + [step]) ==
            if side == Left then node(step, Climb(node, hash, sides, path))
            else node(Climb(node, hash, sides, path), step)
    ensures ClimbHeld(node, hash, sides + [side], path + [step]) ==
            if side == Left then node(step, ClimbHeld(node, hash, sides, path))
            else ClimbHeld(node, hash, sides, path)
  {
    assert (sides + [side])[..|sides|] == sides;
    assert (path + [step])[..|path|] == path;
  }

  /** The last step of a climb, and the pairs the climb below it joins. */
  lemma ClimbPop<D(!new)>(node: Node<D>, hash: D, sides: seq<Side>, side: Side, path: seq<D>)
    requires |path| == |sides| + 1
    ensures path == path[..|sides|] + [path[|sides|]]
    ensures var step, now := path[|sides|], Climb(node, hash, sides, path[..|sides|]);
            var pair := if side == Left then (step, now) else (now, step);
            && Climb(node, hash, sides + [side], path) == node(pair.0, pair.1)
            && ClimbJoins(node, hash, sides + [side], path)
               == {pair} + ClimbJoins(node, hash, sides, path[..|sides|])
  {
    assert (sides + [side])[..|sides|] == sides;
  }

  lemma ClimbHeldPop<D(!new)>(node: Node<D>, hash: D, sides: seq<Side>, side: Side, path: seq<D>)
    requires |path| == |sides| + 1
    ensures var step, held := path[|sides|], ClimbHeld(node, hash, sides, path[..|sides|]);
            && ClimbHeld(node, hash, sides + [side], path)
               == (if side == Left then node(step, held) else held)
            && ClimbHeldJoins(node, hash, sides + [side], path)
               == (if side == Left then {(step, held)} else {})
                  + ClimbHeldJoins(node, hash, sides, path[..|sides|])
  {
    assert (sides + [side])[..|sides|] == sides;
  }

  // ---------- inclusion ----------

  /** The climb along the audit path written for one leaf. */
  function Audited<D(!new)>(node: Node<D>, leaves: seq<D>, index: nat, leaf: D): D
    requires index < |leaves|
  {
    Climb(node, leaf, InclusionSides(index, |leaves|), AuditPath(node, leaves, index))
  }

  lemma AuditedSplits<D(!new)>(node: Node<D>, leaves: seq<D>, index: nat, leaf: D)
    requires |leaves| > 1 && index < |leaves|
    ensures var s := Split(|leaves|);
            Audited(node, leaves, index, leaf) ==
            if index < s then node(Audited(node, leaves[..s], index, leaf), Root(node, leaves[s..]))
            else node(Root(node, leaves[..s]), Audited(node, leaves[s..], index - s, leaf))
  {
    hide Climb, Split, Root;
    var s := Split(|leaves|);
    if index < s {
      ClimbPush(node, leaf, InclusionSides(index, s), Right, AuditPath(node, leaves[..s], index),
          Root(node, leaves[s..]));
    } else {
      ClimbPush(node, leaf, InclusionSides(index - s, |leaves| - s), Left,
                AuditPath(node, leaves[s..], index - s), Root(node, leaves[..s]));
    }
  }

  lemma {:induction false} InclusionComplete<D(!new)>(node: Node<D>, leaves: seq<D>, index: nat)
    requires index < |leaves|
    ensures Audited(node, leaves, index, leaves[index]) == Root(node, leaves)
    decreases |leaves|
  {
    if |leaves| > 1 {
      hide Audited, Split;
      var s := Split(|leaves|);
      AuditedSplits(node, leaves, index, leaves[index]);
      if index < s {
        InclusionComplete(node, leaves[..s], index);
      } else {
        InclusionComplete(node, leaves[s..], index - s);
      }
    }
  }

  /** An audit path that climbs from `leaf` to the root of `leaves`, where the
      joins on the way are apart. */
  ghost predicate Audits<D(!new)>(
    node: Node<D>, joins: set<(D, D)>, leaves: seq<D>, index: nat, leaf: D, path: seq<D>)
    requires index < |leaves|
  {
    && |path| == |InclusionSides(index, |leaves|)|
    && Climb(node, leaf, InclusionSides(index, |leaves|), path) == Root(node, leaves)
    && RootJoins(node, leaves) <= joins
    && ClimbJoins(node, leaf, InclusionSides(index, |leaves|), path) <= joins
  }

  lemma AuditsLeft<D(!new)>(
    node: Node<D>, joins: set<(D, D)>, leaves: seq<D>, index: nat, leaf: D, path: seq<D>)
    requires |leaves| > 1 && index < Split(|leaves|)
    requires InjectiveOn(node, joins) && Audits(node, joins, leaves, index, leaf, path)
    ensures var s, n := Split(|leaves|), |path| - 1;
            && n >= 0
            && Audits(node, joins, leaves[..s], index, leaf, path[..n])
            && path == path[..n] + [Root(node, leaves[s..])]
  {
    hide Climb, ClimbJoins, Split, Root, RootJoins, InjectiveOn;
    var s, n := Split(|leaves|), |path| - 1;
    RootSplits(node, leaves);
    var sides := InclusionSides(index, s);
    ClimbPop(node, leaf, sides, Right, path);
    Unjoin(node, joins, (Climb(node, leaf, sides, path[..n]), path[n]),
           (Root(node, leaves[..s]), Root(node, leaves[s..])));
  }

  lemma AuditsRight<D(!new)>(
    node: Node<D>, joins: set<(D, D)>, leaves: seq<D>, index: nat, leaf: D, path: seq<D>)
    requires |leaves| > 1 && Split(|leaves|) <= index < |leaves|
    requires InjectiveOn(node, joins) && Audits(node, joins, leaves, index, leaf, path)
    ensures var s, n := Split(|leaves|), |path| - 1;
            && n >= 0
            && Audits(node, joins, leaves[s..], index - s, leaf, path[..n])
            && path == path[..n] + [Root(node, leaves[..s])]
  {
    hide Climb, ClimbJoins, Split, Root, RootJoins, InjectiveOn;
    var s, n := Split(|leaves|), |path| - 1;
    RootSplits(node, leaves);
    var sides := InclusionSides(index - s, |leaves| - s);
    ClimbPop(node, leaf, sides, Left, path);
    Unjoin(node, joins, (path[n], Climb(node, leaf, sides, path[..n])),
           (Root(node, leaves[..s]), Root(node, leaves[s..])));
  }

  lemma {:induction false} InclusionSound<D(!new)>(
    node: Node<D>, joins: set<(D, D)>, leaves: seq<D>, index: nat, leaf: D, path: seq<D>)
    requires index < |leaves|
    requires InjectiveOn(node, joins) && Audits(node, joins, leaves, index, leaf, path)
    ensures leaf == leaves[index] && path == AuditPath(node, leaves, index)
    decreases |leaves|
  {
    if |leaves| > 1 {
      hide Audits, Split, InjectiveOn;
      var s, n := Split(|leaves|), |path| - 1;
      if index < s {
        AuditsLeft(node, joins, leaves, index, leaf, path);
        InclusionSound(node, joins, leaves[..s], index, leaf, path[..n]);
      } else {
        AuditsRight(node, joins, leaves, index, leaf, path);
        InclusionSound(node, joins, leaves[s..], index - s, leaf, path[..n]);
      }
    }
  }

  // ---------- consistency ----------

  /** The root both climbs start from, and the steps after it. */
  function Seed<D(!new)>(node: Node<D>, leaves: seq<D>, held: nat): D
    requires 0 < held <= |leaves|
    decreases |leaves|
  {
    if held == |leaves| then Root(node, leaves)
    else
      var s := Split(|leaves|);
      if held <= s then Seed(node, leaves[..s], held) else Seed(node, leaves[s..], held - s)
  }

  function Rest<D(!new)>(node: Node<D>, leaves: seq<D>, held: nat): (rest: seq<D>)
    requires 0 < held <= |leaves|
    ensures |rest| == |ConsistencySides(held, |leaves|)|
    decreases |leaves|
  {
    if held == |leaves| then []
    else
      var s := Split(|leaves|);
      if held <= s then Rest(node, leaves[..s], held) + [Root(node, leaves[s..])]
      else Rest(node, leaves[s..], held - s) + [Root(node, leaves[..s])]
  }

  lemma SubproofWhole<D(!new)>(node: Node<D>, leaves: seq<D>)
    requires leaves != []
    ensures Subproof(node, leaves, |leaves|, true) == []
  {
  }

  /** The seed is left out of the path exactly when the held tree is a whole
      subtree, and then it is the root the reader already holds. */
  lemma {:induction false} SubproofParts<D(!new)>(node: Node<D>, leaves: seq<D>, held: nat, known: bool)
    requires 0 < held <= |leaves|
    requires known ==> held < |leaves| || IsPow2(held)
    ensures Subproof(node, leaves, held, known) ==
            (if known && IsPow2(held) then [] else [Seed(node, leaves, held)]) + Rest(node, leaves, held)
    ensures known && IsPow2(held) ==> Seed(node, leaves, held) == Root(node, leaves[..held])
    decreases |leaves|
  {
    if held == |leaves| {
      assert leaves[..held] == leaves;
    } else {
      var s := Split(|leaves|);
      Pow2IsPow2(SplitExp(|leaves|));
      if s < held {
        NotPow2Between(held, SplitExp(|leaves|));
      }
      hide Split, IsPow2;
      if held <= s {
        SubproofParts(node, leaves[..s], held, known);
        assert leaves[..s][..held] == leaves[..held];
      } else {
        SubproofParts(node, leaves[s..], held - s, false);
      }
    }
  }

  /** A prefix wider than the left-hand subtree splits where the whole does. */
  lemma PrefixRoot<D(!new)>(node: Node<D>, leaves: seq<D>, held: nat)
    requires |leaves| >= 2 && Split(|leaves|) < held <= |leaves|
    ensures var s := Split(|leaves|);
            && Root(node, leaves[..held]) == node(Root(node, leaves[..s]), Root(node, leaves[s..][..held - s]))
            && RootJoins(node, leaves[..held]) ==
               {(Root(node, leaves[..s]), Root(node, leaves[s..][..held - s]))}
               + RootJoins(node, leaves[..s]) + RootJoins(node, leaves[s..][..held - s])
  {
    SameSplit(held, |leaves|);
    hide Split;
    var s := Split(|leaves|);
    assert leaves[..held][..s] == leaves[..s];
    assert leaves[..held][s..] == leaves[s..][..held - s];
  }

  lemma {:induction false} ConsistencyClimbs<D(!new)>(node: Node<D>, leaves: seq<D>, held: nat)
    requires 0 < held <= |leaves|
    ensures Climb(node, Seed(node, leaves, held), ConsistencySides(held, |leaves|), Rest(node, leaves, held))
            == Root(node, leaves)
    ensures ClimbHeld(node, Seed(node, leaves, held), ConsistencySides(held, |leaves|), Rest(node, leaves, held))
            == Root(node, leaves[..held])
    decreases |leaves|
  {
    if held == |leaves| {
      assert leaves[..held] == leaves;
    } else {
      hide Climb, ClimbHeld, Split, Root;
      var s := Split(|leaves|);
      RootSplits(node, leaves);
      if held <= s {
        ConsistencyClimbs(node, leaves[..s], held);
        assert leaves[..s][..held] == leaves[..held];
        ClimbPush(node, Seed(node, leaves, held), ConsistencySides(held, s), Right,
                  Rest(node, leaves[..s], held), Root(node, leaves[s..]));
      } else {
        ConsistencyClimbs(node, leaves[s..], held - s);
        PrefixRoot(node, leaves, held);
        ClimbPush(node, Seed(node, leaves, held), ConsistencySides(held - s, |leaves| - s), Left,
                  Rest(node, leaves[s..], held - s), Root(node, leaves[..s]));
      }
    }
  }

  /** A consistency path that climbs from `seed` to the roots of `a` and `b`,
      where the joins on the way are apart. */
  ghost predicate Bridges<D(!new)>(
    node: Node<D>, joins: set<(D, D)>, a: seq<D>, b: seq<D>, seed: D, rest: seq<D>)
    requires 0 < |a| <= |b|
  {
    var sides := ConsistencySides(|a|, |b|);
    && |rest| == |sides|
    && ClimbHeld(node, seed, sides, rest) == Root(node, a)
    && Climb(node, seed, sides, rest) == Root(node, b)
    && RootJoins(node, a) <= joins
    && RootJoins(node, b) <= joins
    && ClimbJoins(node, seed, sides, rest) <= joins
    && ClimbHeldJoins(node, seed, sides, rest) <= joins
  }

  lemma BridgesLeft<D(!new)>(
    node: Node<D>, joins: set<(D, D)>, a: seq<D>, b: seq<D>, seed: D, rest: seq<D>)
    requires 0 < |a| < |b| && |a| <= Split(|b|)
    requires InjectiveOn(node, joins) && Bridges(node, joins, a, b, seed, rest)
    ensures var s, n := Split(|b|), |rest| - 1;
            && n >= 0
            && Bridges(node, joins, a, b[..s], seed, rest[..n])
            && rest == rest[..n] + [Root(node, b[s..])]
  {
    hide Climb, ClimbHeld, ClimbJoins, ClimbHeldJoins, Split, Root, RootJoins, InjectiveOn;
    var s, n := Split(|b|), |rest| - 1;
    RootSplits(node, b);
    var sides := ConsistencySides(|a|, s);
    ClimbPop(node, seed, sides, Right, rest);
    ClimbHeldPop(node, seed, sides, Right, rest);
    Unjoin(node, joins, (Climb(node, seed, sides, rest[..n]), rest[n]), (Root(node, b[..s]), Root(node, b[s..])));
  }

  lemma BridgesRight<D(!new)>(
    node: Node<D>, joins: set<(D, D)>, a: seq<D>, b: seq<D>, seed: D, rest: seq<D>)
    requires 0 < |a| < |b| && Split(|b|) < |a|
    requires InjectiveOn(node, joins) && Bridges(node, joins, a, b, seed, rest)
    ensures var s, n := Split(|b|), |rest| - 1;
            && n >= 0
            && a[..s] == b[..s]
            && Bridges(node, joins, a[s..], b[s..], seed, rest[..n])
            && rest == rest[..n] + [Root(node, b[..s])]
  {
    hide Climb, ClimbHeld, ClimbJoins, ClimbHeldJoins, Split, Root, RootJoins, InjectiveOn;
    SameSplit(|a|, |b|);
    var s, n := Split(|b|), |rest| - 1;
    RootSplits(node, a);
    RootSplits(node, b);
    assert |a[s..]| == |a| - s && |b[s..]| == |b| - s;
    var sides := ConsistencySides(|a| - s, |b| - s);
    ClimbPop(node, seed, sides, Left, rest);
    ClimbHeldPop(node, seed, sides, Left, rest);
    var al, ar, bl, br := Root(node, a[..s]), Root(node, a[s..]), Root(node, b[..s]), Root(node, b[s..]);
    Unjoin(node, joins, (rest[n], Climb(node, seed, sides, rest[..n])), (bl, br));
    Unjoin(node, joins, (rest[n], ClimbHeld(node, seed, sides, rest[..n])), (al, ar));
    RootInjective(node, joins, a[..s], b[..s]);
  }

  lemma BridgesWhole<D(!new)>(node: Node<D>, joins: set<(D, D)>, a: seq<D>, b: seq<D>, seed: D, rest: seq<D>)
    requires 0 < |a| == |b| && InjectiveOn(node, joins) && Bridges(node, joins, a, b, seed, rest)
    ensures a == b[..|a|] && seed == Seed(node, b, |a|) && rest == Rest(node, b, |a|)
  {
    RootInjective(node, joins, a, b);
  }

  lemma {:induction false} ConsistencySound<D(!new)>(
    node: Node<D>, joins: set<(D, D)>, a: seq<D>, b: seq<D>, seed: D, rest: seq<D>)
    requires 0 < |a| <= |b|
    requires InjectiveOn(node, joins) && Bridges(node, joins, a, b, seed, rest)
    ensures a == b[..|a|] && seed == Seed(node, b, |a|) && rest == Rest(node, b, |a|)
    decreases |b|
  {
    hide Bridges, Split, InjectiveOn;
    if |a| == |b| {
      BridgesWhole(node, joins, a, b, seed, rest);
    } else {
      var s, n := Split(|b|), |rest| - 1;
      if |a| <= s {
        BridgesLeft(node, joins, a, b, seed, rest);
        ConsistencySound(node, joins, a, b[..s], seed, rest[..n]);
        assert b[..s][..|a|] == b[..|a|];
      } else {
        BridgesRight(node, joins, a, b, seed, rest);
        ConsistencySound(node, joins, a[s..], b[s..], seed, rest[..n]);
        PrefixParts(a, b, s);
      }
    }
  }

  lemma PrefixParts<D>(a: seq<D>, b: seq<D>, s: nat)
    requires s <= |a| <= |b| && a[..s] == b[..s] && a[s..] == b[s..][..|a| - s]
    ensures a == b[..|a|]
  {
    assert a == a[..s] + a[s..];
    assert b[..|a|] == b[..s] + b[s..][..|a| - s];
  }
}
