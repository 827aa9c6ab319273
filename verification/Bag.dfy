/** The directory a handover travels as, and the digest of its link sidecars
    that the head's signature covers. */
module Bag {
  import opened Prelude
  import opened Text
  import opened Order
  import Hex
  import SignedHead

  /** The files of one deed folder; `products` is its `bytes/` directory. */
  datatype Folder = Folder(
    proof: Option<bytes>, deed: Option<bytes>, evidence: Option<bytes>, host: Option<bytes>,
    supersedes: Option<bytes>, successor: Option<bytes>, sources: Option<bytes>,
    products: map<bytes, bytes>)

  /** A deeds directory: a folder per name, and the signed head beside them. */
  datatype Bag = Bag(folders: map<bytes, Folder>, head: Option<bytes>)

  function Names(bag: Bag): seq<bytes> {
    InOrder(bag.folders.Keys)
  }

  // ---------- the transcript ----------

  datatype Links = Links(sources: Option<bytes>, supersedes: Option<bytes>, successor: Option<bytes>)

  function LinksOf(f: Folder): Links {
    Links(f.sources, f.supersedes, f.successor)
  }

  function Sized(b: bytes): bytes {
    Decimal(|b|) + [NEWLINE] + b
  }

  function Sidecar(kind: bytes, file: Option<bytes>): bytes {
    kind + [NEWLINE] + match file
                       case None => [45, NEWLINE]
                       case Some(b) => Sized(b)
  }

  function FolderText(name: bytes, links: Links): bytes {
    Sized(name) + (Sidecar(Ascii("sources"), links.sources)
                   + (Sidecar(Ascii("supersedes"), links.supersedes) + Sidecar(Ascii("successor"), links.successor)))
  }

  function FolderTexts(names: seq<bytes>, folders: map<bytes, Folder>): bytes
    requires forall n :: n in names ==> n in folders
  {
    if names == [] then [] else FolderText(names[0], LinksOf(folders[names[0]])) + FolderTexts(names[1..], folders)
  }

  function Transcript(bag: Bag): bytes {
    InOrderElements(bag.folders.Keys);
    Ascii("deedar-links-v2") + [0] + FolderTexts(Names(bag), bag.folders)
  }

  predicate NamesAreText(bag: Bag) {
    forall n :: n in bag.folders ==> IsUtf8(n)
  }

  /** The digest of a bag's link sidecars. */
  function Commitment(sha: Sha, bag: Bag): Result<bytes> {
    if NamesAreText(bag) then Ok(Hex.Render(sha(Transcript(bag)))) else Err(Evidence)
  }

  method LinkCommitment(sha: Sha, bag: Bag) returns (r: Result<bytes>)
    ensures r == Commitment(sha, bag)
  {
    hide FolderText, LinksOf, Ascii, Hex.Render, InOrder;
    var transcript := Ascii("deedar-links-v2") + [0];
    ghost var head := transcript;
    var names := Names(bag);
    InOrderElements(bag.folders.Keys);
    assert NamesIn(names, bag.folders);
    for i := 0 to |names|
      invariant forall k :: 0 <= k < i ==> IsUtf8(names[k])
      invariant transcript + FolderTexts(names[i..], bag.folders) == head + FolderTexts(names, bag.folders)
    {
      var name := names[i];
      assert names[i..][0] == name && names[i..][1..] == names[i + 1..];
      if !IsUtf8(name) {
        assert name in names;
        return Err(Evidence);
      }
      var text := FolderText(name, LinksOf(bag.folders[name]));
      assert transcript + (text + FolderTexts(names[i + 1..], bag.folders))
             == transcript + text + FolderTexts(names[i + 1..], bag.folders);
      transcript := transcript + text;
    }
    assert names[|names|..] == [] && transcript + [] == transcript;
    assert forall n :: n in bag.folders ==> n in names;
    assert transcript == Transcript(bag);
    return Ok(Hex.Render(sha(transcript)));
  }

  predicate NamesIn(names: seq<bytes>, folders: map<bytes, Folder>) {
    forall n :: n in names ==> n in folders
  }

  // ---------- it is uniquely decodable ----------

  lemma SizedApart(x: bytes, t: bytes, y: bytes, u: bytes)
    requires Sized(x) + t == Sized(y) + u
    ensures x == y && t == u
  {
    var a, b := Decimal(|x|), Decimal(|y|);
    assert NEWLINE !in a && NEWLINE !in b;
    assert Sized(x) + t == a + ([NEWLINE] + (x + t));
    assert Sized(y) + u == b + ([NEWLINE] + (y + u));
    IndexOfConcat(a, [NEWLINE] + (x + t), NEWLINE);
    IndexOfConcat(b, [NEWLINE] + (y + u), NEWLINE);
    var p := Sized(x) + t;
    var q := Sized(y) + u;
    assert p[..|a|] == a && q[..|b|] == b;
    DecimalInjective(|x|, |y|);
    assert p[|a| + 1..] == x + t && q[|b| + 1..] == y + u;
    assert (x + t)[..|x|] == x && (y + u)[..|y|] == y;
    assert (x + t)[|x|..] == t && (y + u)[|y|..] == u;
  }

  lemma SidecarApart(kind: bytes, a: Option<bytes>, t: bytes, b: Option<bytes>, u: bytes)
    requires Sidecar(kind, a) + t == Sidecar(kind, b) + u
    ensures a == b && t == u
  {
    hide Sized;
    var n := |kind| + 1;
    var p, q := Sidecar(kind, a) + t, Sidecar(kind, b) + u;
    var x := if a.Some? then Sized(a.value) else [45, NEWLINE];
    var y := if b.Some? then Sized(b.value) else [45, NEWLINE];
    assert p[n..] == x + t && q[n..] == y + u;
    SizedStarts(a);
    SizedStarts(b);
    assert (x + t)[0] == x[0] && (y + u)[0] == y[0];
    if a.Some? && b.Some? {
      SizedApart(a.value, t, b.value, u);
    } else if a.None? && b.None? {
      assert p[n + 2..] == t && q[n + 2..] == u;
    }
  }

  /** A present sidecar starts with a digit, so never as an absent one does. */
  lemma SizedStarts(a: Option<bytes>)
    ensures a.Some? ==> Sized(a.value) != [] && Sized(a.value)[0] != 45
  {
    if a.Some? {
      assert IsDigit(Decimal(|a.value|)[0]);
    }
  }

  lemma FolderApart(m: bytes, a: Links, t: bytes, n: bytes, b: Links, u: bytes)
    requires FolderText(m, a) + t == FolderText(n, b) + u
    ensures m == n && a == b && t == u
  {
    hide Sized, Sidecar, Ascii;
    var a1, a2, a3 := Sidecar(Ascii("sources"), a.sources), Sidecar(Ascii("supersedes"), a.supersedes),
        Sidecar(Ascii("successor"), a.successor);
    var b1, b2, b3 := Sidecar(Ascii("sources"), b.sources), Sidecar(Ascii("supersedes"), b.supersedes),
        Sidecar(Ascii("successor"), b.successor);
    Nested(Sized(m), a1, a2, a3, t);
    Nested(Sized(n), b1, b2, b3, u);
    SizedApart(m, a1 + (a2 + (a3 + t)), n, b1 + (b2 + (b3 + u)));
    SidecarApart(Ascii("sources"), a.sources, a2 + (a3 + t), b.sources, b2 + (b3 + u));
    SidecarApart(Ascii("supersedes"), a.supersedes, a3 + t, b.supersedes, b3 + u);
    SidecarApart(Ascii("successor"), a.successor, t, b.successor, u);
  }

  lemma Nested(a: bytes, b: bytes, c: bytes, d: bytes, t: bytes)
    ensures (a + (b + (c + d))) + t == a + (b + (c + (d + t)))
  {
  }

  lemma {:induction false} TextsApart(
    ms: seq<bytes>, a: map<bytes, Folder>, ns: seq<bytes>, b: map<bytes, Folder>)
    requires NamesIn(ms, a) && NamesIn(ns, b)
    requires FolderTexts(ms, a) == FolderTexts(ns, b)
    ensures ms == ns && forall n :: n in ms ==> LinksOf(a[n]) == LinksOf(b[n])
    decreases |ms|
  {
    hide FolderText, LinksOf;
    if ms == [] {
      if ns != [] {
        FolderTextStarts(ns[0], LinksOf(b[ns[0]]));
        assert false;
      }
    } else {
      FolderTextStarts(ms[0], LinksOf(a[ms[0]]));
      assert ns != [];
      FolderApart(ms[0], LinksOf(a[ms[0]]), FolderTexts(ms[1..], a), ns[0], LinksOf(b[ns[0]]), FolderTexts(ns[1..], b));
      TextsApart(ms[1..], a, ns[1..], b);
      assert ms == [ms[0]] + ms[1..] && ns == [ns[0]] + ns[1..];
    }
  }

  lemma FolderTextStarts(name: bytes, links: Links)
    ensures FolderText(name, links) != []
  {
  }

  /** The names and link sidecars of a bag, absent told from empty. */
  ghost function LinkMap(bag: Bag): map<bytes, Links> {
    map n | n in bag.folders :: LinksOf(bag.folders[n])
  }

  /** Two bags with one transcript have the same folder names and the same
      sidecars in each. */
  lemma TranscriptDecodes(a: Bag, b: Bag)
    requires Transcript(a) == Transcript(b)
    ensures LinkMap(a) == LinkMap(b)
  {
    hide Ascii, FolderTexts, LinksOf;
    InOrderElements(a.folders.Keys);
    InOrderElements(b.folders.Keys);
    var p := Ascii("deedar-links-v2") + [0];
    assert Transcript(a)[|p|..] == FolderTexts(Names(a), a.folders);
    assert Transcript(b)[|p|..] == FolderTexts(Names(b), b.folders);
    TextsApart(Names(a), a.folders, Names(b), b.folders);
    assert forall n :: n in a.folders ==> n in Names(a);
    assert forall n :: n in b.folders ==> n in Names(b);
  }

  /** One commitment stands for one set of link sidecars, short of a collision
      between the two transcripts. */
  lemma CommitmentBinds(sha: Sha, a: Bag, b: Bag)
    requires Commitment(sha, a).Ok? && Commitment(sha, a) == Commitment(sha, b)
    requires CollisionFree(sha, {Transcript(a), Transcript(b)})
    ensures LinkMap(a) == LinkMap(b)
  {
    Hex.Injective(sha(Transcript(a)), sha(Transcript(b)));
    TranscriptDecodes(a, b);
  }

  // ---------- what a signature binds ----------

  predicate HasLinks(bag: Bag) {
    exists n :: n in bag.folders && LinksOf(bag.folders[n]) != Links(None, None, None)
  }

  /** A signature that names a links digest has to name this bag's; one that
      names none covers a bag with no link sidecars. */
  function LinksBound(sha: Sha, bag: Bag, s: SignedHead.SignedHead): Result<()> {
    match s.links
    case Some(links) =>
      var got :- Commitment(sha, bag);
      Need(got == links, Evidence)
    case None => Need(!HasLinks(bag), Evidence)
  }

  /** Two bags one signed head is bound to carry the same link sidecars. */
  lemma SignedLinksAgree(sha: Sha, a: Bag, b: Bag, s: SignedHead.SignedHead)
    requires LinksBound(sha, a, s).Ok? && LinksBound(sha, b, s).Ok?
    requires CollisionFree(sha, {Transcript(a), Transcript(b)})
    ensures s.links.Some? ==> LinkMap(a) == LinkMap(b)
    ensures s.links.None? ==> forall n, m :: n in LinkMap(a) && m in LinkMap(b) ==> LinkMap(a)[n] == LinkMap(b)[m]
  {
    if s.links.Some? {
      CommitmentBinds(sha, a, b);
    }
  }
}
