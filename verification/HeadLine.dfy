/** A signed head line reads back as the head it was written for. */
module HeadLine {
  import opened Prelude
  import opened Text
  import opened SignedHead
  import Hex
  import Merkle
  import Receipt

  // ---------- a line of words ----------

  /** The words, each followed by a space, and the last by the end of the line. */
  function Joined(words: seq<bytes>): bytes
    requires words != []
    decreases words
  {
    if |words| == 1 then words[0] + [NEWLINE] + [] else words[0] + [SPACE] + Joined(words[1..])
  }

  predicate IsWord(w: bytes) {
    w != [] && !HasSpace(w)
  }

  lemma {:induction false} WholeWord(w: bytes)
    requires !HasSpace(w)
    ensures WordLen(w) == |w|
    decreases |w|
  {
    if w != [] {
      assert w[0..] == w;
      forall i | 0 <= i < |w[1..]|
        ensures SpaceLen(w[1..][i..]) == 0
      {
        assert w[1..][i..] == w[i + 1..];
      }
      WholeWord(w[1..]);
    }
  }

  lemma OneWord(w: bytes)
    requires IsWord(w)
    ensures Words(w) == [w]
  {
    hide SpaceLen;
    WholeWord(w);
    assert SpaceLen(w[0..]) == 0 && w[0..] == w && w[..|w|] == w && w[|w|..] == [];
    NoWords();
  }

  lemma {:induction false} JoinedWords(words: seq<bytes>)
    requires words != [] && forall w :: w in words ==> IsWord(w)
    ensures Words(Joined(words)) == words
    decreases words
  {
    hide Words, IsWord;
    OneWord(words[0]);
    if |words| == 1 {
      NoWords();
      WordsSplit(words[0], NEWLINE, []);
    } else {
      JoinedWords(words[1..]);
      WordsSplit(words[0], SPACE, Joined(words[1..]));
    }
  }

  // ---------- no word holds white space ----------

  lemma {:induction false} WordPlain(t: bytes, i: nat)
    requires i < WordLen(t)
    ensures SpaceLen(t[i..]) == 0
    decreases |t|
  {
    if i > 0 {
      WordPlain(t[1..], i - 1);
      assert t[1..][i - 1..] == t[i..];
    } else {
      assert t[0..] == t;
    }
  }

  lemma CutShort(t: bytes, n: nat)
    requires n <= |t| && SpaceLen(t) == 0
    ensures SpaceLen(t[..n]) == 0
  {
  }

  lemma {:induction false} WordsHaveNone(t: bytes)
    ensures forall w :: w in Words(t) ==> !HasSpace(w)
    decreases |t|
  {
    hide SpaceLen;
    if t != [] {
      if SpaceLen(t) > 0 {
        WordsHaveNone(t[SpaceLen(t)..]);
      } else {
        var n := WordLen(t);
        forall i | 0 <= i < n
          ensures SpaceLen(t[..n][i..]) == 0
        {
          WordPlain(t, i);
          CutShort(t[i..], n - i);
          assert t[..n][i..] == t[i..][..n - i];
        }
        WordsHaveNone(t[n..]);
      }
    }
  }

  // ---------- the words of a head line ----------

  predicate Visible(t: bytes) {
    forall i :: 0 <= i < |t| ==> 33 <= t[i] < 0x80
  }

  lemma VisibleBefore(a: bytes, b: bytes)
    requires Visible(a)
    ensures HasSpace(a + b) <==> HasSpace(b)
  {
    var t := a + b;
    forall i | 0 <= i < |t|
      ensures SpaceLen(t[i..]) > 0 <==> i >= |a| && SpaceLen(b[i - |a|..]) > 0
    {
      if i < |a| {
        assert t[i..][0] == a[i];
      } else {
        assert t[i..] == b[i - |a|..];
      }
    }
    if HasSpace(b) {
      var i :| 0 <= i < |b| && SpaceLen(b[i..]) > 0;
      assert t[|a| + i..] == b[i..];
    }
  }

  lemma VisibleWord(t: bytes)
    requires Visible(t)
    ensures !HasSpace(t)
  {
    VisibleBefore(t, []);
    assert t + [] == t;
  }

  lemma TextVisible(s: string)
    requires forall i :: 0 <= i < |s| ==> '!' <= s[i] <= '~'
    ensures Visible(Ascii(s))
  {
  }

  lemma HexVisible(b: bytes)
    ensures Visible(Hex.Render(b))
  {
    var t := Hex.Render(b);
    assert forall i :: 0 <= i < |t| ==> Hex.IsDigit(t[i]);
  }

  lemma DecimalVisible(n: nat)
    ensures Visible(Decimal(n))
  {
    var t := Decimal(n);
    assert forall i :: 0 <= i < |t| ==> IsDigit(t[i]);
  }

  function LinksWords(links: Option<bytes>): seq<bytes> {
    if links.Some? then [Ascii("links=") + links.value] else []
  }

  function HeadWords(s: SignedHead): seq<bytes> {
    [Ascii("size=") + Decimal(s.head.size), Ascii("root=") + s.head.root] + LinksWords(s.links)
    + [Ascii("ed25519"), Hex.Render(s.signer), Hex.Render(s.signature)]
  }

  lemma RenderJoins(s: SignedHead)
    ensures Render(s) == Joined(HeadWords(s))
  {
    hide Ascii, Decimal, Hex.Render;
    var size, root := Ascii("size=") + Decimal(s.head.size), Ascii("root=") + s.head.root;
    var scheme, key, sig := Ascii("ed25519"), Hex.Render(s.signer), Hex.Render(s.signature);
    var end := [scheme, key, sig];
    assert end[1..] == [key, sig] && end[2..] == [sig];
    assert Joined([sig]) == sig + [NEWLINE];
    assert Joined([key, sig]) == key + [SPACE] + (sig + [NEWLINE]);
    assert Joined(end) == scheme + [SPACE] + (key + [SPACE] + (sig + [NEWLINE]));
    var rest := LinksWords(s.links) + end;
    if s.links.Some? {
      assert rest[1..] == end;
      assert Joined(rest) == Ascii("links=") + s.links.value + [SPACE] + Joined(end);
    } else {
      assert rest == end;
    }
    var words := HeadWords(s);
    assert words[1..] == [root] + rest && words[1..][1..] == rest;
    assert Joined(words) == size + [SPACE] + (root + [SPACE] + Joined(rest));
  }

  lemma {:induction false} AnyHexRender(b: bytes)
    ensures AnyHex(Hex.Render(b)) == Some(b)
    decreases |b|
  {
    if b != [] {
      AnyHexRender(b[1..]);
      var t := Hex.Render(b);
      assert t[2..] == Hex.Render(b[1..]);
      assert b[0] == 16 * (b[0] / 16) + b[0] % 16;
      assert AnyDigit(t[0]) == b[0] / 16 && AnyDigit(t[1]) == b[0] % 16;
      assert b == [b[0]] + b[1..];
    }
  }

  /** What a line can carry of a head: a 64-bit size, a root of one word, and the
      digest of the links when it has one. */
  predicate Carries(s: SignedHead) {
    s.head.size < U64 && !HasSpace(s.head.root) && (s.links.Some? ==> Hex.IsDigest(s.links.value))
  }

  lemma DigestVisible(t: bytes)
    requires Hex.IsDigest(t)
    ensures Visible(t)
  {
    assert forall i :: 0 <= i < |t| ==> Hex.IsDigit(t[i]);
  }

  lemma AllWords(s: SignedHead)
    requires Carries(s)
    ensures forall w :: w in HeadWords(s) ==> IsWord(w)
  {
    hide Decimal, Hex.Render, HasSpace, Hex.IsDigest, Ascii, Visible;
    TextVisible("size=");
    TextVisible("root=");
    TextVisible("links=");
    TextVisible("ed25519");
    DecimalVisible(s.head.size);
    HexVisible(s.signer);
    HexVisible(s.signature);
    VisibleWord(Decimal(s.head.size));
    VisibleBefore(Ascii("size="), Decimal(s.head.size));
    VisibleBefore(Ascii("root="), s.head.root);
    VisibleWord(Ascii("ed25519"));
    VisibleWord(Hex.Render(s.signer));
    VisibleWord(Hex.Render(s.signature));
    if s.links.Some? {
      DigestVisible(s.links.value);
      VisibleWord(s.links.value);
      VisibleBefore(Ascii("links="), s.links.value);
    }
  }

  lemma Stripped(p: bytes, t: bytes)
    ensures StripPrefix(p + t, p) == Some(t)
  {
    assert (p + t)[..|p|] == p && (p + t)[|p|..] == t;
  }

  lemma CarriedReads(s: SignedHead)
    requires Carries(s)
    ensures Parse(Render(s)) == Ok(s)
  {
    hide Ascii, Decimal, Hex.Render, HasSpace, Words, Joined, StripPrefix, AnyHex, ParseU64, Hex.IsDigest;
    RenderJoins(s);
    AllWords(s);
    JoinedWords(HeadWords(s));
    DecimalParses(s.head.size);
    Stripped(Ascii("size="), Decimal(s.head.size));
    Stripped(Ascii("root="), s.head.root);
    AnyHexRender(s.signer);
    AnyHexRender(s.signature);
    if s.links.Some? {
      Stripped(Ascii("links="), s.links.value);
    }
  }

  /** A signed head reads back from its line if and only if the line can carry it. */
  lemma HeadRoundTrip(s: SignedHead)
    ensures Parse(Render(s)) == Ok(s) <==> Carries(s)
  {
    hide Parse, Render, HasSpace;
    if Carries(s) {
      CarriedReads(s);
    } else if Parse(Render(s)) == Ok(s) {
      ReadCarries(Render(s));
    }
  }

  /** Whatever text a signed head is read from, a line can carry it. */
  lemma ReadCarries(text: bytes)
    requires Parse(text).Ok?
    ensures Carries(Parse(text).value)
  {
    hide Ascii, Words, AnyHex, ParseU64, Hex.IsDigest, HasSpace;
    var w, s := Words(text), Parse(text).value;
    WordsHaveNone(text);
    Receipt.NumberFits(StripPrefix(w[0], Ascii("size=")).value);
    RestHasNone(w[1], StripPrefix(w[1], Ascii("root=")).value);
  }

  lemma RestHasNone(w: bytes, rest: bytes)
    requires !HasSpace(w) && |rest| <= |w| && rest == w[|w| - |rest|..]
    ensures !HasSpace(rest)
  {
    var n := |w| - |rest|;
    forall i | 0 <= i < |rest|
      ensures SpaceLen(rest[i..]) == 0
    {
      assert rest[i..] == w[n + i..];
    }
  }
}
