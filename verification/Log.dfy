/** The log file: one tab-separated line an entry, appended and never
    rewritten, and the leaf each entry hashes to. */
module Log {
  import opened Prelude
  import opened Text
  import Merkle

  /** A deed's accession, the digest of its canonical bytes, and the second it
      was logged. */
  datatype Entry = Entry(id: bytes, digest: bytes, time: nat)

  /** The octets a leaf hashes over. */
  function Material(e: Entry): bytes {
    e.id + [TAB] + (e.digest + [TAB] + Decimal(e.time))
  }

  function Line(e: Entry): bytes {
    Material(e) + [NEWLINE]
  }

  function TrimNewlines(t: bytes): bytes {
    if t != [] && t[|t| - 1] == NEWLINE then TrimNewlines(t[..|t| - 1]) else t
  }

  /** Three tab-separated fields, the last a number. */
  function ParseEntry(line: bytes): Result<Entry> {
    match SplitOnce(TrimNewlines(line), TAB)
    case None => Err(Io)
    case Some((id, rest)) =>
      match SplitOnce(rest, TAB)
      case None => Err(Io)
      case Some((digest, time)) =>
        if TAB in time then Err(Io)
        else
          match ParseU64(time)
          case None => Err(Io)
          case Some(n) => Ok(Entry(id, digest, n))
  }

  /** The entries of every line that is not blank; nothing else is skipped. */
  function ParseLines(lines: seq<bytes>): Result<seq<Entry>> {
    if lines == [] then Ok([])
    else if IsBlank(lines[0]) then ParseLines(lines[1..])
    else
      var e :- ParseEntry(lines[0]);
      var rest :- ParseLines(lines[1..]);
      Ok([e] + rest)
  }

  /** The entries a log file holds. */
  function Entries(file: bytes): Result<seq<Entry>> {
    var text :- ReadText(file, Io);
    ParseLines(Lines(text))
  }

  function Leaves(sha: Sha, entries: seq<Entry>): (leaves: Merkle.Leaves)
    ensures |leaves| == |entries|
  {
    seq(|entries|, i requires 0 <= i < |entries| => Merkle.LeafHash(sha, Material(entries[i])))
  }

  /** The fields of an entry that a line can carry. */
  predicate Plain(e: Entry) {
    TAB !in e.id && NEWLINE !in e.id && TAB !in e.digest && NEWLINE !in e.digest && e.time < U64
  }

  lemma DecimalPlain(n: nat)
    ensures TAB !in Decimal(n) && NEWLINE !in Decimal(n)
  {
  }

  lemma PlainMaterial(e: Entry)
    requires Plain(e)
    ensures NEWLINE !in Material(e) && Material(e) != []
    ensures IsDigit(Material(e)[|Material(e)| - 1])
  {
    DecimalPlain(e.time);
    var d := Decimal(e.time);
    assert Material(e)[|Material(e)| - 1] == d[|d| - 1];
  }

  /** An entry's material, and the line it is stored as, read back as it. */
  lemma EntryRoundTrip(e: Entry)
    requires Plain(e)
    ensures ParseEntry(Material(e)) == Ok(e) && ParseEntry(Line(e)) == Ok(e)
  {
    PlainMaterial(e);
    DecimalPlain(e.time);
    DecimalParses(e.time);
    SplitOnceAt(e.id, TAB, e.digest + [TAB] + Decimal(e.time));
    SplitOnceAt(e.digest, TAB, Decimal(e.time));
    assert TrimNewlines(Material(e)) == Material(e);
    assert Line(e)[..|Line(e)| - 1] == Material(e);
    assert TrimNewlines(Line(e)) == Material(e);
  }

  /** Two entries with one leaf material are one entry. */
  lemma MaterialInjective(a: Entry, b: Entry)
    requires Plain(a) && Plain(b) && Material(a) == Material(b)
    ensures a == b
  {
    EntryRoundTrip(a);
    EntryRoundTrip(b);
  }

  lemma {:induction false} ParsedPlain(lines: seq<bytes>)
    requires ParseLines(lines).Ok? && forall line :: line in lines ==> NEWLINE !in line
    ensures forall e :: e in ParseLines(lines).value ==> Plain(e)
  {
    if lines != [] {
      ParsedPlain(lines[1..]);
      if !IsBlank(lines[0]) {
        ParsedEntryPlain(lines[0]);
      }
    }
  }

  lemma ParsedEntryPlain(line: bytes)
    requires ParseEntry(line).Ok? && NEWLINE !in line
    ensures Plain(ParseEntry(line).value)
  {
    assert TrimNewlines(line) == line;
  }

  /** Whatever a log file holds, each entry read out of it is one a line can
      carry. */
  lemma EntriesPlain(file: bytes)
    requires Entries(file).Ok?
    ensures forall e :: e in Entries(file).value ==> Plain(e)
  {
    LinesHaveNone(file);
    ParsedPlain(Lines(file));
  }

  lemma {:induction false} ParseLinesConcat(a: seq<bytes>, b: seq<bytes>)
    ensures ParseLines(a + b) ==
            if ParseLines(a).Err? then ParseLines(a)
            else if ParseLines(b).Err? then ParseLines(b)
            else Ok(ParseLines(a).value + ParseLines(b).value)
  {
    hide ParseEntry, IsBlank;
    if a == [] {
      assert a + b == b;
      if ParseLines(b).Ok? {
        assert [] + ParseLines(b).value == ParseLines(b).value;
      }
    } else {
      assert (a + b)[1..] == a[1..] + b;
      ParseLinesConcat(a[1..], b);
      if ParseLines(a).Ok? && ParseLines(b).Ok? && !IsBlank(a[0]) {
        var e, va, vb := ParseEntry(a[0]).value, ParseLines(a[1..]).value, ParseLines(b).value;
        assert [e] + (va + vb) == ([e] + va) + vb;
      }
    }
  }

  /** A text that ends in a digit is not blank. */
  lemma {:induction false} NotBlank(t: bytes)
    requires t != [] && IsDigit(t[|t| - 1])
    ensures !IsBlank(t)
    decreases |t|
  {
    var n := SpaceLen(t);
    if n > 0 {
      assert n < |t|;
      NotBlank(t[n..]);
    }
  }

  /** An entry's text is what its fields allow, and its octets are UTF-8. */
  predicate Writable(e: Entry) {
    Plain(e) && IsUtf8(e.id) && IsUtf8(e.digest)
  }

  lemma LineUtf8(e: Entry)
    requires Writable(e)
    ensures IsUtf8(Line(e))
  {
    hide IsUtf8, Decimal;
    Utf8Ascii([TAB]);
    Utf8Ascii(Decimal(e.time));
    Utf8Ascii([NEWLINE]);
    Utf8Concat(e.digest, [TAB]);
    Utf8Concat(e.digest + [TAB], Decimal(e.time));
    Utf8Concat(e.id, [TAB]);
    Utf8Concat(e.id + [TAB], e.digest + [TAB] + Decimal(e.time));
    Utf8Concat(Material(e), [NEWLINE]);
    assert Material(e) == e.id + [TAB] + (e.digest + [TAB] + Decimal(e.time));
  }

  lemma LineIsOneEntry(e: Entry)
    requires Writable(e)
    ensures ParseLines(Lines(Line(e))) == Ok([e])
  {
    hide Material, Lines, IsBlank, ParseEntry, IsUtf8;
    PlainMaterial(e);
    NotBlank(Material(e));
    OneLine(Material(e));
    EntryRoundTrip(e);
    assert ParseLines([]) == Ok([]);
    assert [Material(e)][1..] == [];
    assert [e] + [] == [e];
  }

  /** Appending one line to a file of whole lines adds one entry and leaves
      every entry before it as it was. */
  lemma AppendEntry(file: bytes, e: Entry)
    requires Terminated(file) && Entries(file).Ok? && Writable(e)
    ensures Terminated(file + Line(e))
    ensures Entries(file + Line(e)) == Ok(Entries(file).value + [e])
  {
    hide ParseLines, Lines, Line, IsUtf8;
    LineUtf8(e);
    LineIsOneEntry(e);
    Utf8Concat(file, Line(e));
    LinesConcat(file, Line(e));
    ParseLinesConcat(Lines(file), Lines(Line(e)));
    LineEnds(e);
  }

  lemma LineEnds(e: Entry)
    ensures |Line(e)| > 0 && Line(e)[|Line(e)| - 1] == NEWLINE
  {
  }

  /** What a file not of whole lines ends in. */
  lemma {:induction false} LastLine(file: bytes) returns (whole: bytes, part: bytes)
    requires !Terminated(file)
    ensures file == whole + part && Terminated(whole) && part != [] && NEWLINE !in part
    decreases |file|
  {
    var i := IndexOf(file, NEWLINE);
    if i == |file| {
      whole, part := [], file;
    } else {
      var first, rest := file[..i + 1], file[i + 1..];
      assert file == first + rest;
      whole, part := LastLine(rest);
      assert first + (whole + part) == first + whole + part;
      whole := first + whole;
    }
  }

  lemma PartIsOneLine(part: bytes)
    requires part != [] && NEWLINE !in part
    ensures Lines(part) == [part]
  {
  }

  /** The entry's text run on after part of a line reads as no such entry. */
  lemma RunOn(part: bytes, e: Entry)
    requires Plain(e) && part != [] && NEWLINE !in part
    ensures !IsBlank(part + Material(e))
    ensures ParseEntry(part + Material(e)).Ok? ==> ParseEntry(part + Material(e)).value.id != e.id
    ensures NEWLINE !in part + Material(e) && StripSuffix(part + Material(e), RETURN) == part + Material(e)
  {
    hide IsBlank, SplitOnce, Material, Decimal, Plain;
    PlainMaterial(e);
    var m := Material(e);
    var line := part + m;
    assert line[|line| - 1] == m[|m| - 1];
    NotBlank(line);
    assert TrimNewlines(line) == line;
    if TAB in part {
      RunOnFields(part, e);
    } else {
      RunOnId(part, e);
    }
  }

  lemma RunOnFields(part: bytes, e: Entry)
    requires Plain(e) && TAB in part
    ensures var (id, rest) := SplitOnce(part + Material(e), TAB).value;
            SplitOnce(rest, TAB).Some? && TAB in SplitOnce(rest, TAB).value.1
  {
    hide Decimal;
    var i, m := IndexOf(part, TAB), Material(e);
    SplitOnceAt(e.id, TAB, e.digest + [TAB] + Decimal(e.time));
    IndexOfConcat(part, m, TAB);
    assert (part + m)[i + 1..] == part[i + 1..] + m;
    TwoTabs(part[i + 1..], m);
  }

  lemma RunOnId(part: bytes, e: Entry)
    requires Plain(e) && TAB !in part && part != []
    ensures SplitOnce(part + Material(e), TAB).Some?
    ensures SplitOnce(part + Material(e), TAB).value.0 != e.id
  {
    hide Decimal, SplitOnce;
    var rest := e.digest + [TAB] + Decimal(e.time);
    assert part + Material(e) == part + e.id + [TAB] + rest;
    SplitOnceAt(part + e.id, TAB, rest);
    assert |part + e.id| != |e.id|;
  }

  lemma TwoTabs(part: bytes, m: bytes)
    requires SplitOnce(m, TAB).Some? && TAB in SplitOnce(m, TAB).value.1
    ensures SplitOnce(part + m, TAB).Some? && TAB in SplitOnce(part + m, TAB).value.1
  {
    IndexOfConcat(part, m, TAB);
    var i := IndexOf(part + m, TAB);
    if TAB in part {
      assert (part + m)[i + 1..] == part[i + 1..] + m;
      assert TAB in m;
    } else {
      assert (part + m)[i + 1..] == m[IndexOf(m, TAB) + 1..];
    }
  }

  /** Appending adds exactly its entry if and only if the file is of whole
      lines: after part of a line the entry is lost in it, or the log no longer
      reads. */
  lemma AppendExact(file: bytes, e: Entry)
    requires Entries(file).Ok? && Writable(e)
    ensures Entries(file + Line(e)) == Ok(Entries(file).value + [e]) <==> Terminated(file)
  {
    hide ParseLines, Lines, IsUtf8, Material, IsBlank, ParseEntry, StripSuffix;
    if Terminated(file) {
      AppendEntry(file, e);
    } else {
      var whole, part := LastLine(file);
      PartIsOneLine(part);
      LinesConcat(whole, part);
      ParseLinesConcat(Lines(whole), [part]);
      OneOfOne(part);
      RunOn(part, e);
      var line := part + Material(e);
      assert file + Line(e) == whole + (line + [NEWLINE]);
      OneLine(line);
      LinesConcat(whole, line + [NEWLINE]);
      ParseLinesConcat(Lines(whole), [line]);
      OneOfOne(line);
      var before := ParseLines(Lines(whole)).value;
      if Entries(file + Line(e)) == Ok(Entries(file).value + [e]) {
        RunOnLost(before, ParseLines([part]).value, ParseLines([line]).value, e);
        assert false;
      }
    }
  }

  /** An entry appended after part of a line is not among those read. */
  lemma AppendLost(file: bytes, e: Entry)
    requires !Terminated(file) && Entries(file).Ok? && Writable(e)
    ensures Terminated(file + Line(e)) && IsUtf8(file + Line(e))
    ensures Entries(file + Line(e)).Ok? ==>
              forall x :: x in Entries(file + Line(e)).value && x.id == e.id ==> x in Entries(file).value
  {
    hide ParseLines, Lines, Material, IsBlank, ParseEntry, StripSuffix, IsUtf8;
    LineEnds(e);
    LineUtf8(e);
    Utf8Concat(file, Line(e));
    var whole, part := LastLine(file);
    PartIsOneLine(part);
    LinesConcat(whole, part);
    ParseLinesConcat(Lines(whole), [part]);
    RunOn(part, e);
    var line := part + Material(e);
    assert file + Line(e) == whole + (line + [NEWLINE]);
    OneLine(line);
    LinesConcat(whole, line + [NEWLINE]);
    ParseLinesConcat(Lines(whole), [line]);
    OneOfOne(line);
  }

  lemma RunOnLost(before: seq<Entry>, was: seq<Entry>, now: seq<Entry>, e: Entry)
    requires before + now == before + was + [e] && |now| == 1
    ensures now == [e]
  {
    assert |was| == 0;
    assert (before + now)[|before|] == now[0];
    assert (before + was + [e])[|before|] == e;
  }

  lemma OneOfOne(line: bytes)
    ensures ParseLines([line]) ==
            if IsBlank(line) then Ok([])
            else if ParseEntry(line).Ok? then Ok([ParseEntry(line).value])
            else Err(ParseEntry(line).error)
  {
    hide ParseEntry, IsBlank;
    assert [line][1..] == [];
    assert ParseLines([]) == Ok([]);
    if ParseEntry(line).Ok? {
      assert [ParseEntry(line).value] + [] == [ParseEntry(line).value];
    }
  }

  /** The file that logging `entries` one after another leaves. */
  function FileOf(entries: seq<Entry>): bytes {
    if entries == [] then []
    else FileOf(entries[..|entries| - 1]) + Line(entries[|entries| - 1])
  }

  /** A log file built by any run of appends reads back as the entries
      appended, in that order. */
  lemma {:induction false} LogReadsBack(entries: seq<Entry>)
    requires forall e :: e in entries ==> Writable(e)
    ensures Terminated(FileOf(entries)) && Entries(FileOf(entries)) == Ok(entries)
  {
    hide Entries, Writable, Line;
    if entries == [] {
      EmptyFile();
    } else {
      var n := |entries| - 1;
      LogReadsBack(entries[..n]);
      AppendEntry(FileOf(entries[..n]), entries[n]);
      assert entries == entries[..n] + [entries[n]];
    }
  }

  lemma EmptyFile()
    ensures Entries([]) == Ok([])
  {
  }
}
