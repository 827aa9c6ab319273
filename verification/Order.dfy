/** The order of the source's sorted sets and maps: texts compared octet by
    octet, and a finite set of texts listed in that order. */
module Order {
  import opened Prelude

  /** Octet by octet, a prefix before what extends it. */
  predicate AtMost(a: bytes, b: bytes) {
    a == [] || (b != [] && (a[0] < b[0] || (a[0] == b[0] && AtMost(a[1..], b[1..]))))
  }

  predicate Before(a: bytes, b: bytes) {
    a != b && AtMost(a, b)
  }

  lemma {:induction false} Reflexive(a: bytes)
    ensures AtMost(a, a)
  {
    if a != [] {
      Reflexive(a[1..]);
    }
  }

  lemma {:induction false} Total(a: bytes, b: bytes)
    ensures AtMost(a, b) || AtMost(b, a)
  {
    if a != [] && b != [] {
      Total(a[1..], b[1..]);
    }
  }

  lemma {:induction false} Antisymmetric(a: bytes, b: bytes)
    requires AtMost(a, b) && AtMost(b, a)
    ensures a == b
  {
    if a != [] {
      Antisymmetric(a[1..], b[1..]);
      assert a == [a[0]] + a[1..] && b == [b[0]] + b[1..];
    }
  }

  lemma {:induction false} Transitive(a: bytes, b: bytes, c: bytes)
    requires AtMost(a, b) && AtMost(b, c)
    ensures AtMost(a, c)
  {
    if a != [] && a[0] == b[0] && b[0] == c[0] {
      Transitive(a[1..], b[1..], c[1..]);
    }
  }

  ghost predicate IsLeast(m: bytes, s: set<bytes>) {
    m in s && forall x :: x in s ==> AtMost(m, x)
  }

  lemma {:induction false} LeastExists(s: set<bytes>)
    requires s != {}
    ensures exists m :: IsLeast(m, s)
    decreases s
  {
    hide AtMost;
    var x :| x in s;
    Reflexive(x);
    if s == {x} {
      assert IsLeast(x, s);
    } else {
      var rest := s - {x};
      LeastExists(rest);
      var m :| IsLeast(m, rest);
      Total(m, x);
      assert s == rest + {x};
      if AtMost(m, x) {
        assert IsLeast(m, s);
      } else {
        forall y | y in rest
          ensures AtMost(x, y)
        {
          Transitive(x, m, y);
        }
        assert IsLeast(x, s);
      }
    }
  }

  lemma LeastUnique(s: set<bytes>)
    ensures forall a, b :: IsLeast(a, s) && IsLeast(b, s) ==> a == b
  {
    forall a, b | IsLeast(a, s) && IsLeast(b, s)
      ensures a == b
    {
      Antisymmetric(a, b);
    }
  }

  function Least(s: set<bytes>): (m: bytes)
    requires s != {}
    ensures IsLeast(m, s)
  {
    LeastExists(s);
    LeastUnique(s);
    forall a, b | a in s && b in s && (forall x :: x in s ==> AtMost(a, x)) && (forall x :: x in s ==> AtMost(b, x))
      ensures a == b
    {
      assert IsLeast(a, s) && IsLeast(b, s);
    }
    var m :| m in s && forall x :: x in s ==> AtMost(m, x);
    m
  }

  /** Each text once, in order. */
  ghost predicate Ascending(xs: seq<bytes>) {
    forall i, j :: 0 <= i < j < |xs| ==> Before(xs[i], xs[j])
  }

  ghost function Elements(xs: seq<bytes>): set<bytes> {
    set x | x in xs
  }

  /** The members of a set in order, as an ordered set is walked. */
  function InOrder(s: set<bytes>): (xs: seq<bytes>)
    ensures |xs| == |s|
    decreases s
  {
    if s == {} then [] else [Least(s)] + InOrder(s - {Least(s)})
  }

  lemma {:induction false} InOrderElements(s: set<bytes>)
    ensures forall x :: x in InOrder(s) <==> x in s
    decreases s
  {
    if s != {} {
      InOrderElements(s - {Least(s)});
    }
  }

  lemma {:induction false} InOrderAscends(s: set<bytes>)
    ensures Ascending(InOrder(s))
    decreases s
  {
    if s != {} {
      var m, rest := Least(s), s - {Least(s)};
      InOrderAscends(rest);
      InOrderElements(rest);
      var xs := InOrder(s);
      forall i, j | 0 <= i < j < |xs|
        ensures Before(xs[i], xs[j])
      {
        assert xs[j] == InOrder(rest)[j - 1];
        if i == 0 {
          assert xs[j] in rest;
        } else {
          assert xs[i] == InOrder(rest)[i - 1];
        }
      }
    }
  }

  lemma HasMember(ys: seq<bytes>)
    requires ys != []
    ensures exists y :: y in ys
  {
    assert ys[0] in ys;
  }

  /** There is one ascending list of a set's members. */
  lemma {:induction false} AscendingUnique(xs: seq<bytes>, ys: seq<bytes>)
    requires Ascending(xs) && Ascending(ys) && forall x :: x in xs <==> x in ys
    ensures xs == ys
    decreases |xs|
  {
    hide AtMost;
    if xs == [] {
      if ys != [] {
        HasMember(ys);
        assert false;
      }
    } else {
      assert xs[0] in ys && ys[0] in xs;
      FirstIsLeast(xs, ys[0]);
      FirstIsLeast(ys, xs[0]);
      Antisymmetric(xs[0], ys[0]);
      TailElements(xs, ys);
      AscendingUnique(xs[1..], ys[1..]);
      assert xs == [xs[0]] + xs[1..] && ys == [ys[0]] + ys[1..];
    }
  }

  lemma FirstIsLeast(xs: seq<bytes>, x: bytes)
    requires Ascending(xs) && x in xs
    ensures AtMost(xs[0], x)
  {
    Reflexive(x);
    var i :| 0 <= i < |xs| && xs[i] == x;
    assert i > 0 ==> Before(xs[0], xs[i]);
  }

  lemma TailElements(xs: seq<bytes>, ys: seq<bytes>)
    requires Ascending(xs) && Ascending(ys) && xs != [] && ys != [] && xs[0] == ys[0]
    requires forall x :: x in xs <==> x in ys
    ensures Ascending(xs[1..]) && Ascending(ys[1..]) && forall x :: x in xs[1..] <==> x in ys[1..]
  {
    hide AtMost;
    TailHas(xs);
    TailHas(ys);
  }

  lemma TailHas(xs: seq<bytes>)
    requires Ascending(xs) && xs != []
    ensures forall x :: x in xs[1..] <==> x in xs && x != xs[0]
    ensures Ascending(xs[1..])
  {
    forall i | 0 < i < |xs| ensures xs[i] in xs[1..] && xs[i] != xs[0]
    {
      assert xs[i] == xs[1..][i - 1];
      assert Before(xs[0], xs[i]);
    }
  }

  /** An ascending list is the ordered listing of its members. */
  lemma AscendingIsInOrder(xs: seq<bytes>)
    requires Ascending(xs)
    ensures xs == InOrder(Elements(xs))
  {
    InOrderAscends(Elements(xs));
    InOrderElements(Elements(xs));
    AscendingUnique(xs, InOrder(Elements(xs)));
  }
}
