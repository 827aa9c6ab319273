/** A log head with a signature over it, the line it travels as, and the head a
    receiver keeps from an earlier handover. */
module SignedHead {
  import opened Prelude
  import opened Text
  import Hex
  import Merkle
  import Receipt

  type Signature = s: bytes | |s| == 64 witness seq(64, _ => 0)

  /** Whether a key signed a message: the signer, the message, the signature. */
  type Verify = (Digest, bytes, bytes) -> bool

  datatype SignedHead = SignedHead(head: Merkle.Head, links: Option<bytes>, signer: Digest, signature: Signature)

  /** What a head signature covers: a domain tag, the head, and the digest of a
      bag's link sidecars when there is one. */
  function Message(head: Merkle.Head, links: Option<bytes>): bytes {
    Ascii("deedar-head-v1") + [0] + Decimal(head.size) + [SPACE] + head.root
    + match links
      case None => []
      case Some(l) => [0] + l
  }

  predicate Covers(verify: Verify, s: SignedHead, head: Merkle.Head, links: Option<bytes>) {
    verify(s.signer, Message(head, links), s.signature)
  }

  // ---------- the line ----------

  function Render(s: SignedHead): bytes {
    Ascii("size=") + Decimal(s.head.size) + [SPACE]
    + Ascii("root=") + s.head.root
    + (match s.links
       case None => []
       case Some(l) => [SPACE] + Ascii("links=") + l)
    + [SPACE] + Ascii("ed25519") + [SPACE] + Hex.Render(s.signer) + [SPACE] + Hex.Render(s.signature) + [NEWLINE]
  }

  /** The value of one hexadecimal digit of either case, or 16. */
  function AnyDigit(c: byte): (n: nat)
    ensures n <= 16
  {
    if 48 <= c <= 57 then c - 48
    else if 97 <= c <= 102 then c - 87
    else if 65 <= c <= 70 then c - 55
    else 16
  }

  /** Two characters as the source's number parser reads them: a plus sign
      before one digit is read too. */
  function AnyPair(a: byte, b: byte): Option<byte> {
    if AnyDigit(b) == 16 then None
    else if a == 43 then Some(AnyDigit(b))
    else if AnyDigit(a) == 16 then None
    else Some(16 * AnyDigit(a) + AnyDigit(b))
  }

  function AnyHex(t: bytes): (r: Option<bytes>)
    requires |t| % 2 == 0
    ensures r.Some? ==> |r.value| == |t| / 2
  {
    if t == [] then Some([])
    else
      match AnyPair(t[0], t[1])
      case None => None
      case Some(b) =>
        match AnyHex(t[2..])
        case None => None
        case Some(rest) => Some([b] + rest)
  }

  /** The key and the signature are read more loosely than a path step is. */
  function Parse(text: bytes): Result<SignedHead> {
    var w := Words(text);
    if |w| != 5 && |w| != 6 then Err(Evidence)
    else
      var k := |w| - 3;
      var scheme, key, sig := w[k], w[k + 1], w[k + 2];
      if scheme != Ascii("ed25519") then Err(Evidence)
      else
        var links :- ParseLinks(w);
        match StripPrefix(w[0], Ascii("size="))
        case None => Err(Evidence)
        case Some(size) =>
          match StripPrefix(w[1], Ascii("root="))
          case None => Err(Evidence)
          case Some(root) =>
            if |key| != 64 || |sig| != 128 || AnyHex(key).None? || AnyHex(sig).None? then Err(Evidence)
            else
              var n :- Receipt.Number(size);
              Ok(SignedHead(Merkle.Head(n, root), links, AnyHex(key).value, AnyHex(sig).value))
  }

  function ParseLinks(w: seq<bytes>): Result<Option<bytes>>
    requires |w| == 5 || |w| == 6
  {
    if |w| == 5 then Ok(None)
    else
      match StripPrefix(w[2], Ascii("links="))
      case None => Err(Evidence)
      case Some(hex) => if Hex.IsDigest(hex) then Ok(Some(hex)) else Err(Evidence)
  }

  // ---------- the head a receiver keeps ----------

  datatype KeptDraft = KeptDraft(size: Option<nat>, root: Option<bytes>)

  /** The last `size=` and the last `root=` among the words. */
  function KeptFields(d: KeptDraft, words: seq<bytes>): Result<KeptDraft>
    decreases words
  {
    if words == [] then Ok(d)
    else if StartsWith(words[0], Ascii("size=")) then
      var n :- Receipt.Number(words[0][5..]);
      KeptFields(d.(size := Some(n)), words[1..])
    else if StartsWith(words[0], Ascii("root=")) then
      KeptFields(d.(root := Some(words[0][5..])), words[1..])
    else KeptFields(d, words[1..])
  }

  predicate IsBridge(text: bytes) {
    exists line :: line in Lines(text) && StartsWith(TrimStart(line), Ascii("from="))
  }

  /** A bridge is refused: it is the sender's, and a kept head is the
      receiver's own. */
  function Kept(text: bytes): Result<Merkle.Head> {
    if IsBridge(text) then Err(Evidence)
    else
      var d :- KeptFields(KeptDraft(None, None), Words(text));
      if d.size.Some? && d.root.Some? then Ok(Merkle.Head(d.size.value, d.root.value)) else Err(Evidence)
  }

  method ReadKept(text: bytes) returns (r: Result<Merkle.Head>)
    ensures r == Kept(text)
  {
    if IsBridge(text) {
      return Err(Evidence);
    }
    var words, d := Words(text), KeptDraft(None, None);
    for i := 0 to |words|
      invariant KeptFields(KeptDraft(None, None), words) == KeptFields(d, words[i..])
    {
      assert words[i..][1..] == words[i + 1..];
      if StartsWith(words[i], Ascii("size=")) {
        var n := Receipt.Number(words[i][5..]);
        if n.Err? {
          return Err(n.error);
        }
        d := d.(size := Some(n.value));
      } else if StartsWith(words[i], Ascii("root=")) {
        d := d.(root := Some(words[i][5..]));
      }
    }
    return if d.size.Some? && d.root.Some? then Ok(Merkle.Head(d.size.value, d.root.value)) else Err(Evidence);
  }

  // ---------- a signed head line is a kept head ----------

  lemma SpaceBefore(a: bytes, c: byte, b: bytes)
    requires a != [] && (c == NEWLINE || c == RETURN || c == SPACE)
    ensures SpaceLen(a + [c] + b) == SpaceLen(a)
  {
    assert (a + [c] + b)[0] == a[0];
  }

  lemma {:induction false} WordBefore(a: bytes, c: byte, b: bytes)
    requires c == NEWLINE || c == RETURN || c == SPACE
    ensures WordLen(a + [c] + b) == WordLen(a)
    decreases |a|
  {
    if a == [] {
      assert (a + [c] + b)[0] == c;
    } else {
      SpaceBefore(a, c, b);
      if SpaceLen(a) == 0 {
        WordBefore(a[1..], c, b);
        assert (a + [c] + b)[1..] == a[1..] + [c] + b;
      }
    }
  }

  lemma {:induction false} WordsSplit(a: bytes, c: byte, b: bytes)
    requires c == NEWLINE || c == RETURN || c == SPACE
    ensures Words(a + [c] + b) == Words(a) + Words(b)
    decreases |a|
  {
    var t := a + [c] + b;
    hide SpaceLen, WordLen;
    if a == [] {
      CutSpace(c, b);
      assert t == [c] + b;
    } else {
      SpaceBefore(a, c, b);
      if SpaceLen(a) > 0 {
        var n := SpaceLen(a);
        WordsSplit(a[n..], c, b);
        assert t[n..] == a[n..] + [c] + b;
      } else {
        WordBefore(a, c, b);
        var n := WordLen(a);
        WordsSplit(a[n..], c, b);
        assert t[..n] == a[..n] && t[n..] == a[n..] + [c] + b;
      }
    }
  }

  lemma CutSpace(c: byte, b: bytes)
    requires c == NEWLINE || c == RETURN || c == SPACE
    ensures Words([c] + b) == Words(b)
  {
    assert SpaceLen([c] + b) == 1;
    assert ([c] + b)[1..] == b;
  }

  /** Every word of a line of a text is a word of the text. */
  lemma {:induction false} LineWords(text: bytes, line: bytes)
    requires line in Lines(text)
    ensures forall w :: w in Words(line) ==> w in Words(text)
    decreases |text|
  {
    hide Words, StripSuffix;
    var i := IndexOf(text, NEWLINE);
    if i < |text| {
      var first, rest := text[..i], text[i + 1..];
      assert text == first + [NEWLINE] + rest;
      WordsSplit(first, NEWLINE, rest);
      if line == StripSuffix(first, RETURN) {
        BareWords(first);
      } else {
        LineWords(rest, line);
      }
    }
  }

  lemma BareWords(t: bytes)
    ensures Words(StripSuffix(t, RETURN)) == Words(t)
  {
    hide Words;
    if t != [] && t[|t| - 1] == RETURN {
      assert t == t[..|t| - 1] + [RETURN] + [];
      WordsSplit(t[..|t| - 1], RETURN, []);
      NoWords();
      assert Words(t[..|t| - 1]) + [] == Words(t[..|t| - 1]);
    }
  }

  lemma NoWords()
    ensures Words([]) == []
  {
  }

  lemma {:induction false} TrimmedWords(t: bytes)
    ensures Words(TrimStart(t)) == Words(t)
    decreases |t|
  {
    if SpaceLen(t) > 0 {
      TrimmedWords(t[SpaceLen(t)..]);
    }
  }

  /** A line that starts with five plain letters after its white space has a
      word that starts with them. */
  lemma FirstWord(t: bytes, prefix: bytes)
    requires StartsWith(t, prefix) && |prefix| == 5
    requires forall i :: 0 <= i < 5 ==> 33 <= prefix[i] < 0x80
    ensures Words(t) != [] && StartsWith(Words(t)[0], prefix)
  {
    assert forall i :: 0 <= i < 5 ==> t[i] == prefix[i];
    Letters(t, 5);
  }

  lemma {:induction false} Letters(t: bytes, n: nat)
    requires n <= |t| && forall i :: 0 <= i < n ==> 33 <= t[i] < 0x80
    ensures WordLen(t) >= n && (n > 0 ==> SpaceLen(t) == 0)
  {
    if n > 0 {
      Letters(t[1..], n - 1);
    }
  }

  lemma PrefixLetters()
    ensures var f, s, r := Ascii("from="), Ascii("size="), Ascii("root=");
            f[0] == 102 && f[1] == 114 && s[0] == 115 && s[1] == 105 && r[0] == 114 && r[1] == 111
    ensures Ascii("links=")[0] == 108 && Ascii("ed25519")[0] == 101
    ensures forall i :: 0 <= i < 5 ==> 33 <= Ascii("from=")[i] < 0x80
  {
  }

  /** A word that is neither a size nor a root, and starts no bridge. */
  predicate Other(w: bytes) {
    !StartsWith(w, Ascii("from=")) && !StartsWith(w, Ascii("size=")) && !StartsWith(w, Ascii("root="))
  }

  lemma PrefixAt(w: bytes, p: bytes)
    ensures StartsWith(w, p) ==> forall i :: 0 <= i < |p| ==> w[i] == p[i]
  {
    if StartsWith(w, p) {
      assert forall i :: 0 <= i < |p| ==> w[..|p|][i] == w[i];
    }
  }

  lemma HexIsOther(w: bytes)
    requires |w| >= 2 && |w| % 2 == 0 && AnyHex(w).Some?
    ensures Other(w)
  {
    hide Ascii;
    PrefixLetters();
    assert AnyDigit(w[1]) < 16;
    PrefixAt(w, Ascii("from="));
    PrefixAt(w, Ascii("size="));
    PrefixAt(w, Ascii("root="));
  }

  lemma LettersOther(w: bytes, prefix: bytes)
    requires prefix != [] && StartsWith(w, prefix) && (prefix[0] == 108 || prefix[0] == 101)
    ensures Other(w)
  {
    hide Ascii;
    PrefixLetters();
    PrefixAt(w, prefix);
    PrefixAt(w, Ascii("from="));
    PrefixAt(w, Ascii("size="));
    PrefixAt(w, Ascii("root="));
  }

  /** The words of a signed head line: the size, the root, and others. */
  lemma SignedWords(text: bytes)
    requires Parse(text).Ok?
    ensures var w, h := Words(text), Parse(text).value.head;
            && |w| >= 5
            && StartsWith(w[0], Ascii("size=")) && Receipt.Number(w[0][5..]) == Ok(h.size)
            && StartsWith(w[1], Ascii("root=")) && w[1][5..] == h.root
            && forall i :: 2 <= i < |w| ==> Other(w[i])
  {
    hide Words, Ascii, AnyHex, Receipt.Number, Hex.IsDigest;
    var w := Words(text);
    var k := |w| - 3;
    PrefixLetters();
    if |w| == 6 {
      LettersOther(w[2], Ascii("links="));
    }
    assert w[k][..|w[k]|] == w[k];
    LettersOther(w[k], Ascii("ed25519"));
    HexIsOther(w[k + 1]);
    HexIsOther(w[k + 2]);
  }

  lemma {:induction false} OthersSkipped(d: KeptDraft, words: seq<bytes>)
    requires forall i :: 0 <= i < |words| ==> Other(words[i])
    ensures KeptFields(d, words) == Ok(d)
    decreases words
  {
    if words != [] {
      OthersSkipped(d, words[1..]);
    }
  }

  /** A signed head line read as a kept head names the head it signs. */
  lemma SignedIsKept(text: bytes)
    requires Parse(text).Ok?
    ensures Kept(text) == Ok(Parse(text).value.head)
  {
    hide Parse, Words, Ascii, Receipt.Number, Lines, TrimStart, IsBridge;
    SignedIsNoBridge(text);
    SignedWords(text);
    SizeIsNoRoot(Words(text)[1]);
    var w, h := Words(text), Parse(text).value.head;
    var d := KeptDraft(Some(h.size), None);
    assert w[1..][0] == w[1] && w[1..][1..] == w[2..];
    OthersSkipped(d.(root := Some(h.root)), w[2..]);
    assert KeptFields(d, w[1..]) == Ok(KeptDraft(Some(h.size), Some(h.root)));
  }

  lemma SizeIsNoRoot(w: bytes)
    requires StartsWith(w, Ascii("root="))
    ensures !StartsWith(w, Ascii("size=")) && !StartsWith(w, Ascii("from="))
  {
    hide Ascii, StartsWith;
    PrefixLetters();
    PrefixAt(w, Ascii("from="));
    PrefixAt(w, Ascii("size="));
    PrefixAt(w, Ascii("root="));
  }

  lemma SizeIsNoBridge(w: bytes)
    requires StartsWith(w, Ascii("size="))
    ensures !StartsWith(w, Ascii("from="))
  {
    hide Ascii, StartsWith;
    PrefixLetters();
    PrefixAt(w, Ascii("from="));
    PrefixAt(w, Ascii("size="));
    PrefixAt(w, Ascii("root="));
  }

  /** No word of a line that parses as a signed head starts as a bridge's does. */
  lemma SignedIsNoBridge(text: bytes)
    requires Parse(text).Ok?
    ensures !IsBridge(text)
  {
    hide Parse, Words, Ascii, Receipt.Number, Lines, TrimStart;
    if IsBridge(text) {
      var line :| line in Lines(text) && StartsWith(TrimStart(line), Ascii("from="));
      PrefixLetters();
      FirstWord(TrimStart(line), Ascii("from="));
      TrimmedWords(line);
      LineWords(text, line);
      var word := Words(line)[0];
      assert word in Words(line);
      var i :| 0 <= i < |Words(text)| && Words(text)[i] == word;
      SignedWords(text);
      SizeIsNoBridge(Words(text)[0]);
      SizeIsNoRoot(Words(text)[1]);
      assert false;
    }
  }
}
