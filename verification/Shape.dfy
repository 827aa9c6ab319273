/** Where a tree of each width splits, and on which sides paths join. */
module Shape {
  // Sides are read off in two ways: bottom up from two shifted counters, as the
  // verifiers do, and top down along the splits, as the provers do.

  function Pow2(k: nat): (p: nat)
    ensures p >= 1
  {
    if k == 0 then 1 else 2 * Pow2(k - 1)
  }

  predicate IsPow2(n: nat) {
    n == 1 || (n > 1 && n % 2 == 0 && IsPow2(n / 2))
  }

  /** The exponent of the largest power of two strictly below `width`. */
  function SplitExp(width: nat): (k: nat)
    requires width >= 2
    ensures Pow2(k) < width <= 2 * Pow2(k)
  {
    if width == 2 then 0 else 1 + SplitExp((width + 1) / 2)
  }

  /** The largest power of two strictly below `width`. */
  function Split(width: nat): (split: nat)
    requires width >= 2
    ensures 1 <= split < width <= 2 * split
  {
    Pow2(SplitExp(width))
  }

  lemma {:induction false} Pow2Monotone(j: nat, k: nat)
    requires j < k
    ensures 2 * Pow2(j) <= Pow2(k)
    decreases k
  {
    if j + 1 < k {
      Pow2Monotone(j, k - 1);
    }
  }

  /** Only one power of two divides a width. */
  lemma SplitUnique(width: nat, k: nat)
    requires width >= 2 && Pow2(k) < width <= 2 * Pow2(k)
    ensures Split(width) == Pow2(k) && SplitExp(width) == k
  {
    var e := SplitExp(width);
    if e < k {
      Pow2Monotone(e, k);
    } else if k < e {
      Pow2Monotone(k, e);
    }
  }

  /** A prefix wider than the left-hand subtree splits where the whole does. */
  lemma SameSplit(held: nat, now: nat)
    requires now >= 2 && Split(now) < held <= now
    ensures Split(held) == Split(now)
  {
    SplitUnique(held, SplitExp(now));
  }

  method SplitPoint(width: nat) returns (split: nat)
    ensures width >= 2 ==> split == Split(width)
    ensures width < 2 ==> split == 1
  {
    split := 1;
    ghost var k := 0;
    while split * 2 < width
      invariant split == Pow2(k)
      invariant split == 1 || split < width
    {
      split := split * 2;
      k := k + 1;
    }
    if width >= 2 {
      SplitUnique(width, k);
    }
  }

  /** On which side of the running hash a path step joins. */
  datatype Side = Left | Right

  /** The counters after joining from the left: halved once, and before that
      at every level where `at` is even and not zero. */
  function UpLeft(at: nat, last: nat): (r: (nat, nat))
    requires at <= last
    ensures r.0 <= r.1 <= last / 2
    decreases at
  {
    if at != 0 && at % 2 == 0 then UpLeft(at / 2, last / 2) else (at / 2, last / 2)
  }

  /** The sides a verifier joins from, innermost first: a function of the two
      counters alone, whatever the hashes are. */
  function Sides(at: nat, last: nat): seq<Side>
    requires at <= last
    decreases last
  {
    if last == 0 then []
    else if at % 2 == 1 || at == last then
      [Left] + Sides(UpLeft(at, last).0, UpLeft(at, last).1)
    else
      [Right] + Sides(at / 2, last / 2)
  }

  /** Halve both counters while `at` is odd. */
  function StripOdd(at: nat, last: nat): (r: (nat, nat))
    requires at <= last
    ensures r.0 <= r.1 <= last && r.0 % 2 == 0
    decreases at
  {
    if at % 2 == 1 then StripOdd(at / 2, last / 2) else (at, last)
  }

  /** The sides of a consistency path from `held` to `new` leaves. */
  function BridgeSides(held: nat, now: nat): seq<Side>
    requires 0 < held <= now
  {
    var (at, last) := StripOdd(held - 1, now - 1);
    Sides(at, last)
  }

  lemma TakeSide(sides: seq<Side>, k: nat, at: nat, last: nat)
    requires k <= |sides| && at <= last && Sides(at, last) == sides[k..]
    ensures last == 0 ==> k == |sides| && sides[..k] == sides
    ensures last > 0 ==>
              && k < |sides|
              && (sides[k] == Left <==> at % 2 == 1 || at == last)
              && sides[k + 1..] ==
                 if sides[k] == Left then
                   Sides(UpLeft(at, last).0, UpLeft(at, last).1)
                 else
                   Sides(at / 2, last / 2)
  {
    if last > 0 {
      assert sides[k..][0] == sides[k];
      assert sides[k..][1..] == sides[k + 1..];
    }
  }

  // ---------- bottom-up control flow is the top-down recursion ----------

  /** The sides of an audit path, read off the recursive split. */
  function InclusionSides(index: nat, size: nat): seq<Side>
    requires index < size
    decreases size
  {
    if size == 1 then []
    else
      var s := Split(size);
      if index < s then InclusionSides(index, s) + [Right]
      else InclusionSides(index - s, size - s) + [Left]
  }

  /** The sides of a consistency path, read off the recursive split. */
  function ConsistencySides(held: nat, now: nat): seq<Side>
    requires 0 < held <= now
    decreases now
  {
    if held == now then []
    else
      var s := Split(now);
      if held <= s then ConsistencySides(held, s) + [Right]
      else ConsistencySides(held - s, now - s) + [Left]
  }

  lemma {:induction false} UpLeftPow2(d: nat)
    ensures UpLeft(Pow2(d), Pow2(d)) == (0, 0)
  {
    if d > 0 {
      UpLeftPow2(d - 1);
    }
  }

  lemma HalfShift(x: nat, d: nat)
    requires d > 0
    ensures (x + Pow2(d)) / 2 == x / 2 + Pow2(d - 1)
    ensures (x + Pow2(d)) % 2 == x % 2
    ensures x < Pow2(d) ==> x / 2 < Pow2(d - 1)
  {
    assert Pow2(d) == 2 * Pow2(d - 1);
  }

  lemma WideEnough(x: nat, d: nat)
    requires 0 < x < Pow2(d)
    ensures d > 0
  {
  }

  lemma {:induction false} UpLeftShift(at: nat, last: nat, d: nat) returns (e: nat)
    requires 0 < at <= last < Pow2(d)
    ensures UpLeft(at, last).1 < Pow2(e)
    ensures UpLeft(at + Pow2(d), last + Pow2(d)) ==
            (UpLeft(at, last).0 + Pow2(e), UpLeft(at, last).1 + Pow2(e))
    decreases at
  {
    hide Pow2;
    WideEnough(last, d);
    HalfShift(at, d);
    HalfShift(last, d);
    e := d - 1;
    if at % 2 == 0 {
      e := UpLeftShift(at / 2, last / 2, d - 1);
    }
  }

  /** A right-hand subtree under a full left-hand one: its own sides, then one
      join with the left-hand sibling. */
  lemma {:induction false} RightSubtree(at: nat, last: nat, d: nat)
    requires at <= last < Pow2(d)
    ensures Sides(at + Pow2(d), last + Pow2(d)) == Sides(at, last) + [Left]
    decreases last
  {
    hide Sides, UpLeft;
    if last == 0 {
      RightLeaf(d);
    } else {
      HalfShift(at, d);
      HalfShift(last, d);
      hide Pow2;
      SidesStep(at, last);
      SidesStep(at + Pow2(d), last + Pow2(d));
      if at % 2 == 1 || at == last {
        var e := UpLeftShift(at, last, d);
        RightSubtree(UpLeft(at, last).0, UpLeft(at, last).1, e);
      } else {
        RightSubtree(at / 2, last / 2, d - 1);
      }
    }
  }

  lemma RightLeaf(d: nat)
    ensures Sides(0, 0) == [] && Sides(Pow2(d), Pow2(d)) == [Left]
  {
    UpLeftPow2(d);
  }

  lemma SidesStep(at: nat, last: nat)
    requires at <= last && last > 0
    ensures Sides(at, last) ==
            if at % 2 == 1 || at == last then [Left] + Sides(UpLeft(at, last).0, UpLeft(at, last).1)
            else [Right] + Sides(at / 2, last / 2)
  {
  }

  /** A full left-hand subtree: its own sides, then one join with what lies to
      its right, however much that is. */
  lemma {:induction false} LeftSubtree(at: nat, last: nat, d: nat)
    requires at < Pow2(d) <= last < 2 * Pow2(d)
    ensures Sides(at, last) == Sides(at, Pow2(d) - 1) + [Right]
    decreases d
  {
    if d > 0 {
      LeftSubtree(at / 2, last / 2, d - 1);
      assert (Pow2(d) - 1) / 2 == Pow2(d - 1) - 1;
    }
  }

  lemma {:induction false} InclusionSidesAgree(index: nat, size: nat)
    requires index < size
    ensures Sides(index, size - 1) == InclusionSides(index, size)
    decreases size
  {
    hide Sides, Pow2, SplitExp;
    if size == 1 {
      RightLeaf(0);
    } else {
      var d := SplitExp(size);
      var s := Pow2(d);
      if index < s {
        InclusionSidesAgree(index, s);
        LeftSubtree(index, size - 1, d);
      } else {
        InclusionSidesAgree(index - s, size - s);
        RightSubtree(index - s, size - s - 1, d);
      }
    }
  }

  lemma StripOnce(at: nat, last: nat)
    requires at <= last
    ensures StripOdd(at, last) == if at % 2 == 1 then StripOdd(at / 2, last / 2) else (at, last)
  {
  }

  lemma {:induction false} StripShift(at: nat, last: nat, d: nat) returns (e: nat)
    requires at < last < Pow2(d)
    ensures StripOdd(at, last).1 < Pow2(e)
    ensures StripOdd(at + Pow2(d), last + Pow2(d)) ==
            (StripOdd(at, last).0 + Pow2(e), StripOdd(at, last).1 + Pow2(e))
    decreases at
  {
    hide Pow2, StripOdd;
    WideEnough(last, d);
    HalfShift(at, d);
    HalfShift(last, d);
    StripOnce(at, last);
    StripOnce(at + Pow2(d), last + Pow2(d));
    e := d;
    if at % 2 == 1 {
      e := StripShift(at / 2, last / 2, d - 1);
    }
  }

  lemma {:induction false} StripLeft(at: nat, last: nat, d: nat) returns (e: nat)
    requires at < Pow2(d) <= last < 2 * Pow2(d)
    ensures StripOdd(at, last).0 < Pow2(e) <= StripOdd(at, last).1 < 2 * Pow2(e)
    ensures StripOdd(at, Pow2(d) - 1) == (StripOdd(at, last).0, Pow2(e) - 1)
    decreases at
  {
    if at % 2 == 1 {
      e := StripLeft(at / 2, last / 2, d - 1);
      assert (Pow2(d) - 1) / 2 == Pow2(d - 1) - 1;
    } else {
      e := d;
    }
  }

  lemma {:induction false} StripFull(d: nat)
    ensures StripOdd(Pow2(d) - 1, Pow2(d) - 1) == (0, 0)
  {
    if d > 0 {
      StripFull(d - 1);
      assert (Pow2(d) - 1) / 2 == Pow2(d - 1) - 1;
    }
  }

  /** A tree that is a whole subtree needs no step of its own. */
  lemma FullBridge(d: nat)
    ensures BridgeSides(Pow2(d), Pow2(d)) == []
  {
    StripFull(d);
  }

  lemma {:induction false} ConsistencySidesAgree(held: nat, now: nat)
    requires 0 < held < now
    ensures BridgeSides(held, now) == ConsistencySides(held, now)
    decreases now, 1
  {
    if held <= Split(now) {
      ConsistencySidesLeft(held, now);
    } else {
      ConsistencySidesRight(held, now);
    }
  }

  lemma {:induction false} ConsistencySidesLeft(held: nat, now: nat)
    requires 0 < held < now && held <= Split(now)
    ensures BridgeSides(held, now) == ConsistencySides(held, now)
    decreases now, 0
  {
    hide Sides, StripOdd, Pow2, SplitExp;
    var d := SplitExp(now);
    var e := StripLeft(held - 1, now - 1, d);
    var (a, l) := StripOdd(held - 1, now - 1);
    LeftSubtree(a, l, e);
    assert BridgeSides(held, now) == BridgeSides(held, Pow2(d)) + [Right];
    hide BridgeSides;
    if held == Pow2(d) {
      FullBridge(d);
    } else {
      ConsistencySidesAgree(held, Pow2(d));
    }
  }

  lemma {:induction false} ConsistencySidesRight(held: nat, now: nat)
    requires 0 < held < now && held > Split(now)
    ensures BridgeSides(held, now) == ConsistencySides(held, now)
    decreases now, 0
  {
    hide Sides, StripOdd, Pow2, SplitExp;
    var d := SplitExp(now);
    var s := Pow2(d);
    var e := StripShift(held - 1 - s, now - 1 - s, d);
    RightSubtree(StripOdd(held - 1 - s, now - 1 - s).0, StripOdd(held - 1 - s, now - 1 - s).1, e);
    ConsistencySidesAgree(held - s, now - s);
  }

  lemma {:induction false} IsPow2Exp(n: nat) returns (k: nat)
    requires IsPow2(n)
    ensures n == Pow2(k)
  {
    if n == 1 {
      k := 0;
    } else {
      k := IsPow2Exp(n / 2);
      k := k + 1;
    }
  }

  lemma {:induction false} Pow2IsPow2(k: nat)
    ensures IsPow2(Pow2(k))
  {
    if k > 0 {
      Pow2IsPow2(k - 1);
    }
  }

  lemma NotPow2Between(n: nat, d: nat)
    requires Pow2(d) < n < 2 * Pow2(d)
    ensures !IsPow2(n)
  {
    if IsPow2(n) {
      var k := IsPow2Exp(n);
      if k < d {
        Pow2Monotone(k, d);
      } else if d < k {
        Pow2Monotone(d, k);
      }
    }
  }
}
