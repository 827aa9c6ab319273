/** The link sidecars of a store: one accession to a line, and under it the
    digest that accession was bound to when there is one. */
module Sidecars {
  import opened Prelude
  import opened Text
  import opened Deeds
  import Address

  /** The lines that are not blank, without the white space around them. */
  function Items(lines: seq<bytes>): seq<bytes>
    decreases lines
  {
    if lines == [] then []
    else (if Trim(lines[0]) == [] then [] else [Trim(lines[0])]) + Items(lines[1..])
  }

  function ReadSuccessor(raw: bytes): Result<Option<bytes>> {
    if !IsUtf8(raw) then Err(Io)
    else if Trim(raw) == [] then Ok(None)
    else
      var id :- ParseId(Trim(raw));
      Ok(Some(id))
  }

  datatype Bound = Bound(id: bytes, digest: Option<bytes>)

  function ReadSupersedes(raw: bytes): Result<Option<Bound>> {
    if !IsUtf8(raw) then Err(Io)
    else
      var items := Items(Lines(raw));
      if items == [] then Ok(None)
      else if |items| >= 2 && Address.HexOf(items[1]).None? then Err(Evidence)
      else if |items| > 2 then Err(Evidence)
      else
        var id :- ParseId(items[0]);
        Ok(Some(Bound(id, if |items| == 2 then Some(items[1]) else None)))
  }

  function NameLine(id: bytes): bytes {
    id + [NEWLINE]
  }

  function BoundLines(id: bytes, digest: bytes): bytes {
    NameLine(id) + NameLine(digest)
  }

  /** Text with no white space at its ends, that a line can carry. */
  ghost predicate Solid(t: bytes) {
    t != [] && NEWLINE !in t && IsUtf8(t) && SpaceLen(t) == 0 && SpaceLenEnd(t) == 0
  }

  lemma AsciiEnds(t: bytes)
    requires t != [] && 33 <= t[0] < 0x80 && 33 <= t[|t| - 1] < 0x80
    ensures SpaceLen(t) == 0 && SpaceLenEnd(t) == 0
  {
  }

  lemma IdSolid(id: bytes)
    requires IsId(id)
    ensures Solid(id)
  {
    hide IsId, IsUtf8, SpaceLen, SpaceLenEnd;
    IdIsPlain(id);
    IdChars(id);
    AsciiEnds(id);
  }

  lemma AddressSolid(a: bytes)
    requires Address.HexOf(a).Some?
    ensures Solid(a)
  {
    hide IsUtf8, SpaceLen, SpaceLenEnd;
    Address.AddressPlain(a);
    var p, hex := Ascii("sha256:"), Address.HexOf(a).value;
    Address.Colon();
    assert a[0] == p[0] && a[|a| - 1] == hex[|hex| - 1];
    AsciiEnds(a);
  }

  lemma SolidTrims(t: bytes)
    requires Solid(t)
    ensures Trim(t) == t && Trim(NameLine(t)) == t && Lines(NameLine(t)) == [t]
    ensures IsUtf8(NameLine(t)) && Terminated(NameLine(t))
  {
    hide IsUtf8, Lines;
    var line := NameLine(t);
    StartSame(t);
    Utf8Ascii([NEWLINE]);
    Utf8Concat(t, [NEWLINE]);
    OneLine(t);
    NotReturn(t);
    assert SpaceLenEnd(line) == 1 && line[..|line| - 1] == t;
  }

  lemma NotReturn(t: bytes)
    requires Solid(t)
    ensures StripSuffix(t, RETURN) == t
  {
    hide IsUtf8;
  }

  lemma StartSame(t: bytes)
    requires Solid(t)
    ensures SpaceLen(NameLine(t)) == 0
  {
    hide IsUtf8;
    assert NameLine(t)[0] == t[0];
  }

  /** What a store writes beside a deed it supersedes, or is superseded by,
      reads back. */
  lemma NameLineReads(id: bytes)
    requires IsId(id)
    ensures ReadSuccessor(NameLine(id)) == Ok(Some(id))
    ensures ReadSupersedes(NameLine(id)) == Ok(Some(Bound(id, None)))
  {
    hide IsUtf8, Lines, Trim, NameLine, Solid;
    IdSolid(id);
    SolidTrims(id);
    SolidSome(id);
    OneItem(id);
  }

  lemma SolidSome(t: bytes)
    requires Solid(t)
    ensures t != []
  {
  }

  lemma OneItem(t: bytes)
    requires t != [] && Trim(t) == t
    ensures Items([t]) == [t]
  {
    hide Trim;
    assert [t][1..] == [];
    assert Items([]) == [];
  }

  lemma BoundLinesRead(id: bytes, digest: bytes)
    requires IsId(id) && Address.HexOf(digest).Some?
    ensures ReadSupersedes(BoundLines(id, digest)) == Ok(Some(Bound(id, Some(digest))))
  {
    hide IsUtf8, Lines, Trim, NameLine, Solid, Address.HexOf, ParseId;
    IdSolid(id);
    AddressSolid(digest);
    SolidTrims(id);
    SolidTrims(digest);
    SolidSome(id);
    SolidSome(digest);
    Utf8Concat(NameLine(id), NameLine(digest));
    LinesConcat(NameLine(id), NameLine(digest));
    OneItem(digest);
    assert [id] + [digest] == [id, digest];
    assert [id, digest][1..] == [digest];
    assert Items([id, digest]) == [id] + [digest];
    Parses(id);
  }

  lemma Parses(id: bytes)
    requires IsId(id)
    ensures ParseId(id) == Ok(id)
  {
  }
}
