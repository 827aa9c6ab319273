/** Lower-case hexadecimal text of fixed width. */
module Hex {
  import opened Prelude

  function Digit(n: byte): (c: byte)
    requires n < 16
    ensures IsDigit(c)
  {
    if n < 10 then 48 + n else 87 + n
  }

  /** `0`-`9` and `a`-`f`; upper case is not one. */
  predicate IsDigit(c: byte) {
    48 <= c <= 57 || 97 <= c <= 102
  }

  function Value(c: byte): (n: byte)
    requires IsDigit(c)
    ensures n < 16 && Digit(n) == c
  {
    if c <= 57 then c - 48 else c - 87
  }

  function Render(b: bytes): (t: bytes)
    ensures |t| == 2 * |b|
    ensures forall i :: 0 <= i < |t| ==> IsDigit(t[i])
  {
    if b == [] then [] else [Digit(b[0] / 16), Digit(b[0] % 16)] + Render(b[1..])
  }

  function Unpair(t: bytes): (b: bytes)
    requires |t| % 2 == 0 && forall i :: 0 <= i < |t| ==> IsDigit(t[i])
    ensures |b| == |t| / 2
  {
    if t == [] then [] else [16 * Value(t[0]) + Value(t[1])] + Unpair(t[2..])
  }

  /** Whether `t` is the text of a SHA-256 digest. */
  predicate IsDigest(t: bytes) {
    |t| == 64 && forall i :: 0 <= i < |t| ==> IsDigit(t[i])
  }

  function Parse(t: bytes): Option<Digest> {
    if IsDigest(t) then Some(Unpair(t)) else None
  }

  lemma {:induction false} UnpairRender(b: bytes)
    ensures Unpair(Render(b)) == b
  {
    if b != [] {
      UnpairRender(b[1..]);
      assert Render(b)[2..] == Render(b[1..]);
    }
  }

  lemma {:induction false} RenderUnpair(t: bytes)
    requires |t| % 2 == 0 && forall i :: 0 <= i < |t| ==> IsDigit(t[i])
    ensures Render(Unpair(t)) == t
  {
    hide Value, Digit, IsDigit;
    if t != [] {
      RenderUnpair(t[2..]);
      var b := 16 * Value(t[0]) + Value(t[1]);
      assert b / 16 == Value(t[0]) && b % 16 == Value(t[1]);
      assert Unpair(t)[1..] == Unpair(t[2..]);
      assert t == [t[0], t[1]] + t[2..];
    }
  }

  /** Parsing accepts exactly what rendering writes, and gives back the digest. */
  lemma RoundTrip(t: bytes, d: Digest)
    ensures Parse(t) == Some(d) <==> t == Render(d)
  {
    UnpairRender(d);
    if Parse(t).Some? {
      RenderUnpair(t);
    }
  }

  lemma {:induction false} Injective(a: bytes, b: bytes)
    requires Render(a) == Render(b)
    ensures a == b
  {
    UnpairRender(a);
    UnpairRender(b);
  }
}
