/** Paths compare by their components, and deeds by comparing theirs. */
module Paths {
  import opened Prelude
  import opened Text
  import opened Deeds

  const SLASH: byte := 47

  /** A leading slash or dot, and then the names. */
  datatype Components = Components(rooted: bool, dotted: bool, names: seq<bytes>)

  /** One name, but for nothing and for a dot. */
  function NameIn(part: bytes): seq<bytes> {
    if part == [] || part == [DOT] then [] else [part]
  }

  /** The names between slashes. */
  function NamesOf(p: bytes): seq<bytes>
    decreases |p|
  {
    var i := IndexOf(p, SLASH);
    if i == |p| then NameIn(p) else NameIn(p[..i]) + NamesOf(p[i + 1..])
  }

  function Parse(p: bytes): Components {
    Components(p != [] && p[0] == SLASH, p == [DOT] || StartsWith(p, [DOT, SLASH]), NamesOf(p))
  }

  /** One path, however it is spelled: `a//b/.` is `a/b`, and `./a` is not `a`. */
  predicate SamePath(p: bytes, q: bytes) {
    Parse(p) == Parse(q)
  }

  predicate SamePaths(ps: seq<bytes>, qs: seq<bytes>) {
    |ps| == |qs| && forall i :: 0 <= i < |ps| ==> SamePath(ps[i], qs[i])
  }

  predicate SameSource(a: Source, b: Source) {
    a == b || (a.SourcePath? && b.SourcePath? && SamePath(a.path, b.path))
  }

  predicate SameGrant(a: Grant, b: Grant) {
    a == b || (a.GrantPath? && b.GrantPath? && SamePath(a.path, b.path))
  }

  predicate SameGrants(a: seq<Grant>, b: seq<Grant>) {
    |a| == |b| && forall i :: 0 <= i < |a| ==> SameGrant(a[i], b[i])
  }

  /** The paths of a clip compare as paths; any other body by its spelling. */
  predicate SameBody(a: Body, b: Body) {
    match a
    case ClipBody(sources, inPoint, outPoint, duration, path) =>
      && b.ClipBody? && SamePaths(sources, b.sources) && SamePath(path, b.path)
      && inPoint == b.inPoint && outPoint == b.outPoint && duration == b.duration
    case _ => a == b
  }

  predicate SameDeed(a: Deed, b: Deed) {
    && a.id == b.id && a.kind == b.kind && a.name == b.name && SamePaths(a.paths, b.paths)
    && |a.sources| == |b.sources| && (forall i :: 0 <= i < |a.sources| ==> SameSource(a.sources[i], b.sources[i]))
    && a.producedBy == b.producedBy && SameGrants(a.grants, b.grants) && a.face == b.face && SameBody(a.body, b.body)
  }

  lemma DeedIsSame(d: Deed)
    ensures SameDeed(d, d)
  {
    hide Parse;
  }

  // ---------- spellings ----------

  lemma NextName(part: bytes, b: bytes)
    requires SLASH !in part
    ensures NamesOf(part + [SLASH] + b) == NameIn(part) + NamesOf(b)
  {
    hide NameIn, IndexOf;
    var t := part + [SLASH] + b;
    assert t == part + ([SLASH] + b) && ([SLASH] + b)[0] == SLASH;
    IndexOfConcat(part, [SLASH] + b, SLASH);
    assert t[..|part|] == part && t[|part| + 1..] == b;
  }

  lemma Regroup(x: bytes, y: bytes, z: bytes)
    ensures x + [SLASH] + y + [SLASH] + z == x + [SLASH] + (y + [SLASH] + z)
  {
  }

  lemma LaterNames(x: seq<bytes>, y: seq<bytes>, z: seq<bytes>)
    ensures x + (y + z) == x + y + z
  {
  }

  lemma {:induction false} NamesSplit(a: bytes, b: bytes)
    ensures NamesOf(a + [SLASH] + b) == NamesOf(a) + NamesOf(b)
    decreases |a|
  {
    hide NameIn, NamesOf;
    var i := IndexOf(a, SLASH);
    if i == |a| {
      NextName(a, b);
      LastName(a);
    } else {
      var part, rest := a[..i], a[i + 1..];
      assert a == part + [SLASH] + rest;
      NamesSplit(rest, b);
      NextName(part, rest);
      NextName(part, rest + [SLASH] + b);
      Regroup(part, rest, b);
      LaterNames(NameIn(part), NamesOf(rest), NamesOf(b));
    }
  }

  lemma LastName(part: bytes)
    requires SLASH !in part
    ensures NamesOf(part) == NameIn(part)
  {
    hide NameIn;
  }

  lemma NoName(part: bytes, b: bytes)
    requires part == [] || part == [DOT]
    ensures NamesOf(part + [SLASH] + b) == NamesOf(b)
  {
    hide NamesOf;
    NextName(part, b);
    assert [] + NamesOf(b) == NamesOf(b);
  }

  /** A slash more, a dot between slashes, or a slash at the end is no other path. */
  lemma MoreSpellings(a: bytes, b: bytes)
    requires a != []
    ensures SamePath(a + [SLASH] + ([] + [SLASH] + b), a + [SLASH] + b)
    ensures SamePath(a + [SLASH] + ([DOT] + [SLASH] + b), a + [SLASH] + b)
    ensures SamePath(a + [SLASH] + [], a)
  {
    SameNext(a, [] + [SLASH] + b, b);
    SameNext(a, [DOT] + [SLASH] + b, b);
    hide NamesOf;
    NoName([], b);
    NoName([DOT], b);
    NamesSplit(a, []);
    NoNames();
    assert NamesOf(a) + [] == NamesOf(a);
    assert a + [SLASH] + [] == a + ([SLASH] + []);
    StartOf(a, []);
  }

  lemma SameNext(a: bytes, b: bytes, c: bytes)
    requires a != []
    ensures NamesOf(b) == NamesOf(c) ==> SamePath(a + [SLASH] + b, a + [SLASH] + c)
  {
    hide NamesOf;
    NamesSplit(a, b);
    NamesSplit(a, c);
    assert a + [SLASH] + b == a + ([SLASH] + b) && a + [SLASH] + c == a + ([SLASH] + c);
    StartOf(a, b);
    StartOf(a, c);
  }

  /** A path and a slash, whatever comes after, start as the path alone. */
  lemma StartOf(a: bytes, b: bytes)
    requires a != []
    ensures Parse(a + ([SLASH] + b)).rooted == Parse(a).rooted && Parse(a + ([SLASH] + b)).dotted == Parse(a).dotted
  {
    hide NamesOf;
    var t := a + ([SLASH] + b);
    assert t[..2] == [t[0], t[1]];
    if |a| >= 2 {
      assert a[..2] == [a[0], a[1]];
    }
  }

  // ---------- what two spellings share ----------

  /** An empty path is passed over, and so is one that is an address already. */
  predicate Local(p: bytes) {
    p != [] && !StartsWith(p, Ascii("sha256:"))
  }

  /** A path with no leading slash or dot is its first name up to a slash. */
  lemma FirstName(p: bytes)
    requires p != [] && !Parse(p).rooted && !Parse(p).dotted
    ensures NamesOf(p) != [] && NamesOf(p)[0] == p[..IndexOf(p, SLASH)]
  {
    var i := IndexOf(p, SLASH);
    if |p| >= 2 {
      assert p[..2] == [p[0], p[1]];
    }
  }

  lemma {:induction false} PlainStart(p: bytes)
    requires StartsWith(p, Ascii("sha256:"))
    ensures p != [] && !Parse(p).rooted && !Parse(p).dotted && IndexOf(p, SLASH) >= 7
  {
    hide NamesOf;
    var a := Ascii("sha256:");
    assert a == [115, 104, 97, 50, 53, 54, 58];
    assert p == a + p[7..];
    IndexOfConcat(a, p[7..], SLASH);
    assert p[0] == 115;
  }

  lemma StartShared(p: bytes, q: bytes)
    requires p != [] && SamePath(p, q) && StartsWith(q, Ascii("sha256:"))
    ensures StartsWith(p, Ascii("sha256:"))
  {
    hide NamesOf, Ascii;
    PlainStart(q);
    FirstName(p);
    FirstName(q);
    var i, j := IndexOf(p, SLASH), IndexOf(q, SLASH);
    assert p[..i] == q[..j];
    assert p[..7] == p[..i][..7] && q[..7] == q[..j][..7];
  }

  /** Another spelling of a local path is a local path. */
  lemma SpellingsLocal(p: bytes, q: bytes)
    requires Local(p) && SamePath(p, q)
    ensures Local(q)
  {
    hide NamesOf, Ascii;
    if q == [] {
      if !Parse(p).rooted && !Parse(p).dotted {
        FirstName(p);
      }
      NoNames();
    } else if StartsWith(q, Ascii("sha256:")) {
      StartShared(p, q);
    }
  }

  lemma NoNames()
    ensures NamesOf([]) == []
  {
  }
}
