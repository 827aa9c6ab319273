/** Text as its UTF-8 octets: decimal numbers, lines, white space and fields,
    as the standard library of the source reads and writes them. */
module Text {
  import opened Prelude

  const TAB: byte := 9
  const NEWLINE: byte := 10
  const RETURN: byte := 13
  const SPACE: byte := 32
  const EQUALS: byte := 61

  const U64: nat := 0x1_0000_0000_0000_0000

  // ---------- UTF-8 ----------

  predicate Tail(b: byte) {
    0x80 <= b < 0xC0
  }

  /** Octets of the character `t` starts with, or 0 when it starts with none. */
  function CharLen(t: bytes): (n: nat)
    ensures n <= |t| && n <= 4
  {
    if |t| >= 1 && t[0] < 0x80 then 1
    else if |t| >= 2 && 0xC2 <= t[0] < 0xE0 && Tail(t[1]) then 2
    else if |t| >= 3 && 0xE0 <= t[0] < 0xF0 && Tail(t[1]) && Tail(t[2])
            && (t[0] == 0xE0 ==> t[1] >= 0xA0) && (t[0] == 0xED ==> t[1] < 0xA0) then 3
    else if |t| >= 4 && 0xF0 <= t[0] < 0xF5 && Tail(t[1]) && Tail(t[2]) && Tail(t[3])
            && (t[0] == 0xF0 ==> t[1] >= 0x90) && (t[0] == 0xF4 ==> t[1] < 0x90) then 4
    else 0
  }

  predicate IsUtf8(t: bytes) {
    t == [] || (CharLen(t) > 0 && IsUtf8(t[CharLen(t)..]))
  }

  lemma {:induction false} Utf8Concat(a: bytes, b: bytes)
    requires IsUtf8(a) && IsUtf8(b)
    ensures IsUtf8(a + b)
  {
    if a == [] {
      assert a + b == b;
    } else {
      var n := CharLen(a);
      Utf8Concat(a[n..], b);
      assert CharLen(a + b) == n;
      assert (a + b)[n..] == a[n..] + b;
    }
  }

  lemma {:induction false} Utf8Ascii(t: bytes)
    requires forall i :: 0 <= i < |t| ==> t[i] < 0x80
    ensures IsUtf8(t)
  {
    if t != [] {
      Utf8Ascii(t[1..]);
    }
  }

  // ---------- decimal numbers ----------

  predicate IsDigit(c: byte) {
    48 <= c <= 57
  }

  predicate AllDigits(t: bytes) {
    forall i :: 0 <= i < |t| ==> IsDigit(t[i])
  }

  function Decimal(n: nat): (t: bytes)
    ensures t != [] && AllDigits(t)
  {
    if n < 10 then [48 + n] else Decimal(n / 10) + [48 + n % 10]
  }

  function DigitsValue(t: bytes): nat
    requires AllDigits(t)
  {
    if t == [] then 0 else 10 * DigitsValue(t[..|t| - 1]) + (t[|t| - 1] - 48)
  }

  /** A 64-bit unsigned number: one leading plus sign is read, leading zeros
      are read, and a number too large is refused. */
  function ParseU64(t: bytes): Option<nat> {
    var digits := if t != [] && t[0] == 43 then t[1..] else t;
    if digits != [] && AllDigits(digits) && DigitsValue(digits) < U64 then Some(DigitsValue(digits)) else None
  }

  lemma {:induction false} DecimalValue(n: nat)
    ensures DigitsValue(Decimal(n)) == n
  {
    if n >= 10 {
      DecimalValue(n / 10);
      assert Decimal(n)[..|Decimal(n)| - 1] == Decimal(n / 10);
    }
  }

  lemma DecimalParses(n: nat)
    ensures ParseU64(Decimal(n)) == if n < U64 then Some(n) else None
  {
    DecimalValue(n);
    assert IsDigit(Decimal(n)[0]);
  }

  lemma DecimalInjective(m: nat, n: nat)
    requires Decimal(m) == Decimal(n)
    ensures m == n
  {
    DecimalValue(m);
    DecimalValue(n);
  }

  // ---------- splitting ----------

  /** Where `c` first stands in `t`; its length when it does not. */
  function IndexOf(t: bytes, c: byte): (i: nat)
    ensures i <= |t|
    ensures i < |t| ==> t[i] == c
    ensures forall j :: 0 <= j < i ==> t[j] != c
    ensures i == |t| <==> c !in t
  {
    if t == [] then 0 else if t[0] == c then 0 else 1 + IndexOf(t[1..], c)
  }

  /** The text before and after the first `c`. */
  function SplitOnce(t: bytes, c: byte): Option<(bytes, bytes)> {
    var i := IndexOf(t, c);
    if i == |t| then None else Some((t[..i], t[i + 1..]))
  }

  lemma {:induction false} IndexOfConcat(a: bytes, b: bytes, c: byte)
    ensures IndexOf(a + b, c) == if c in a then IndexOf(a, c) else |a| + IndexOf(b, c)
  {
    if a == [] {
      assert a + b == b;
    } else {
      assert (a + b)[1..] == a[1..] + b;
      IndexOfConcat(a[1..], b, c);
    }
  }

  lemma SplitOnceAt(a: bytes, c: byte, b: bytes)
    requires c !in a
    ensures SplitOnce(a + [c] + b, c) == Some((a, b))
  {
    var t := a + [c] + b;
    assert t == a + ([c] + b);
    IndexOfConcat(a, [c] + b, c);
    assert t[..|a|] == a && t[|a| + 1..] == b;
  }

  function StripSuffix(t: bytes, c: byte): bytes {
    if t != [] && t[|t| - 1] == c then t[..|t| - 1] else t
  }

  /** The lines of a text: each ends at a newline, which is dropped together
      with one carriage return before it; a last line need not end in one. */
  function Lines(t: bytes): seq<bytes>
    decreases |t|
  {
    if t == [] then []
    else
      var i := IndexOf(t, NEWLINE);
      if i == |t| then [t] else [StripSuffix(t[..i], RETURN)] + Lines(t[i + 1..])
  }

  /** A text of whole lines: nothing, or a newline at its end. */
  predicate Terminated(t: bytes) {
    t == [] || t[|t| - 1] == NEWLINE
  }

  lemma {:induction false} LinesConcat(a: bytes, b: bytes)
    requires Terminated(a)
    ensures Lines(a + b) == Lines(a) + Lines(b)
    decreases |a|
  {
    hide IndexOf, StripSuffix;
    if a == [] {
      assert a + b == b;
    } else {
      var i := IndexOf(a, NEWLINE);
      IndexOfConcat(a, b, NEWLINE);
      assert (a + b)[..i] == a[..i];
      assert (a + b)[i + 1..] == a[i + 1..] + b;
      LinesConcat(a[i + 1..], b);
    }
  }

  /** Text a line can carry and give back: no newline inside, and no carriage
      return at the end. */
  predicate LineSafe(t: bytes) {
    NEWLINE !in t && (t == [] || t[|t| - 1] != RETURN)
  }

  lemma OneLine(t: bytes)
    requires NEWLINE !in t
    ensures Lines(t + [NEWLINE]) == [StripSuffix(t, RETURN)]
  {
    IndexOfConcat(t, [NEWLINE], NEWLINE);
    assert (t + [NEWLINE])[..|t|] == t;
    assert (t + [NEWLINE])[|t| + 1..] == [];
  }

  /** No line holds a newline. */
  lemma {:induction false} LinesHaveNone(t: bytes)
    ensures forall line :: line in Lines(t) ==> NEWLINE !in line
    decreases |t|
  {
    if t != [] {
      var i := IndexOf(t, NEWLINE);
      if i < |t| {
        LinesHaveNone(t[i + 1..]);
      }
    }
  }

  // ---------- white space ----------

  /** Octets of the white-space character `t` starts with, or 0. */
  function SpaceLen(t: bytes): (n: nat)
    ensures n <= |t|
  {
    if |t| >= 1 && (9 <= t[0] <= 13 || t[0] == 32) then 1
    else if |t| >= 2 && t[0] == 0xC2 && (t[1] == 0x85 || t[1] == 0xA0) then 2
    else if |t| >= 3 && WideSpace(t[0], t[1], t[2]) then 3
    else 0
  }

  predicate WideSpace(a: byte, b: byte, c: byte) {
    || (a == 0xE1 && b == 0x9A && c == 0x80)
    || (a == 0xE2 && b == 0x80 && (0x80 <= c <= 0x8A || c == 0xA8 || c == 0xA9 || c == 0xAF))
    || (a == 0xE2 && b == 0x81 && c == 0x9F)
    || (a == 0xE3 && b == 0x80 && c == 0x80)
  }

  /** Octets of the white-space character `t` ends with, or 0. */
  function SpaceLenEnd(t: bytes): (n: nat)
    ensures n <= |t|
  {
    var n := |t|;
    if n >= 1 && (9 <= t[n - 1] <= 13 || t[n - 1] == 32) then 1
    else if n >= 2 && t[n - 2] == 0xC2 && (t[n - 1] == 0x85 || t[n - 1] == 0xA0) then 2
    else if n >= 3 && WideSpace(t[n - 3], t[n - 2], t[n - 1]) then 3
    else 0
  }

  function TrimStart(t: bytes): bytes
    decreases |t|
  {
    if SpaceLen(t) == 0 then t else TrimStart(t[SpaceLen(t)..])
  }

  function TrimEnd(t: bytes): bytes
    decreases |t|
  {
    if SpaceLenEnd(t) == 0 then t else TrimEnd(t[..|t| - SpaceLenEnd(t)])
  }

  function Trim(t: bytes): bytes {
    TrimEnd(TrimStart(t))
  }

  predicate IsBlank(t: bytes) {
    TrimStart(t) == []
  }

  predicate HasSpace(t: bytes) {
    exists i :: 0 <= i < |t| && SpaceLen(t[i..]) > 0
  }

  /** Octets of `t` before its first white space. */
  function WordLen(t: bytes): (n: nat)
    ensures n <= |t|
    ensures SpaceLen(t) == 0 && t != [] ==> n > 0
    decreases |t|
  {
    if t == [] || SpaceLen(t) > 0 then 0 else 1 + WordLen(t[1..])
  }

  /** The words white space separates. */
  function Words(t: bytes): seq<bytes>
    decreases |t|
  {
    if t == [] then []
    else if SpaceLen(t) > 0 then Words(t[SpaceLen(t)..])
    else [t[..WordLen(t)]] + Words(t[WordLen(t)..])
  }

  predicate StartsWith(t: bytes, prefix: bytes) {
    |prefix| <= |t| && t[..|prefix|] == prefix
  }

  function StripPrefix(t: bytes, prefix: bytes): Option<bytes> {
    if StartsWith(t, prefix) then Some(t[|prefix|..]) else None
  }

  /** Decoding a file's octets as text. */
  function ReadText(raw: bytes, error: Error): Result<bytes> {
    if IsUtf8(raw) then Ok(raw) else Err(error)
  }
}
