/** A deed and the records beside it, the accessions that name deeds, and the
    message identifiers a mail draft carries. */
module Deeds {
  import opened Prelude
  import opened Text

  // ---------- accessions ----------

  datatype Kind = File | Set | Quote | Patch | MailDraft | Clip | Page | Form | Table | Procedure | Event

  function Token(k: Kind): bytes {
    match k
    case File => Ascii("file")
    case Set => Ascii("set")
    case Quote => Ascii("quote")
    case Patch => Ascii("patch")
    case MailDraft => Ascii("mailDraft")
    case Clip => Ascii("clip")
    case Page => Ascii("page")
    case Form => Ascii("form")
    case Table => Ascii("table")
    case Procedure => Ascii("procedure")
    case Event => Ascii("event")
  }

  predicate IsKind(raw: bytes) {
    exists k: Kind :: raw == Token(k)
  }

  predicate IsSlug(t: bytes) {
    t != [] && forall i :: 0 <= i < |t| ==> 97 <= t[i] <= 122 || IsDigit(t[i]) || t[i] == 45
  }

  /** `deed-<kind>-<slug>`. */
  function ParseId(raw: bytes): (r: Result<bytes>)
    ensures r.Ok? ==> r.value == raw
  {
    match StripPrefix(raw, Ascii("deed-"))
    case None => Err(InvalidId)
    case Some(rest) =>
      match SplitOnce(rest, 45)
      case None => Err(InvalidId)
      case Some((kind, slug)) =>
        if !IsKind(kind) then Err(InvalidKind)
        else if IsSlug(slug) then Ok(raw)
        else Err(InvalidId)
  }

  /** What a value of the accession type holds. */
  predicate IsId(raw: bytes) {
    ParseId(raw).Ok?
  }

  /** A letter, a digit or a dash. */
  predicate IdChar(c: byte) {
    65 <= c <= 90 || 97 <= c <= 122 || IsDigit(c) || c == 45
  }

  predicate IdText(t: bytes) {
    forall i :: 0 <= i < |t| ==> IdChar(t[i])
  }

  predicate Letters(s: string) {
    forall i :: 0 <= i < |s| ==> 'A' <= s[i] <= 'Z' || 'a' <= s[i] <= 'z'
  }

  lemma LetterText(s: string)
    requires Letters(s)
    ensures IdText(Ascii(s))
  {
  }

  lemma TokenText(k: Kind)
    ensures IdText(Token(k))
  {
    hide IdText, Ascii;
    match k
    case File => LetterText("file");
    case Set => LetterText("set");
    case Quote => LetterText("quote");
    case Patch => LetterText("patch");
    case MailDraft => LetterText("mailDraft");
    case Clip => LetterText("clip");
    case Page => LetterText("page");
    case Form => LetterText("form");
    case Table => LetterText("table");
    case Procedure => LetterText("procedure");
    case Event => LetterText("event");
  }

  lemma IdTextConcat(a: bytes, b: bytes)
    requires IdText(a) && IdText(b)
    ensures IdText(a + b)
  {
  }

  /** An accession is a file name on any system and a field of any line. */
  lemma IdChars(id: bytes)
    requires IsId(id)
    ensures id != [] && IdText(id)
  {
    var (kind, slug) := SplitOnce(StripPrefix(id, Ascii("deed-")).value, 45).value;
    SlugText(slug);
    IdParts(id);
    hide Token, SplitOnce, StripPrefix, IdText, IsId, IsSlug;
    var k: Kind :| kind == Token(k);
    TokenText(k);
    DeedDash();
    IdTextConcat(kind, [45]);
    IdTextConcat(kind + [45], slug);
    IdTextConcat(Ascii("deed-"), kind + [45] + slug);
  }

  lemma DeedDash()
    ensures IdText(Ascii("deed-")) && IdText([45])
  {
  }

  lemma SlugText(t: bytes)
    requires IsSlug(t)
    ensures IdText(t)
  {
  }

  lemma IdParts(id: bytes)
    requires IsId(id)
    ensures var (kind, slug) := SplitOnce(StripPrefix(id, Ascii("deed-")).value, 45).value;
            id == Ascii("deed-") + (kind + [45] + slug)
  {
    hide IsKind, IsSlug;
    var p := Ascii("deed-");
    var rest := StripPrefix(id, p).value;
    assert id == p + rest;
    var i := IndexOf(rest, 45);
    assert rest == rest[..i] + [45] + rest[i + 1..];
  }

  lemma IdIsPlain(id: bytes)
    requires IsId(id)
    ensures id != [] && IsUtf8(id) && LineSafe(id)
    ensures TAB !in id && NEWLINE !in id && RETURN !in id && SPACE !in id
  {
    IdChars(id);
    hide IsId;
    Utf8Ascii(id);
  }

  // ---------- message identifiers ----------

  const AT: byte := 64
  const LESS: byte := 60
  const MORE: byte := 62
  const DOT: byte := 46

  function Inner(trimmed: bytes): bytes {
    var n := |trimmed|;
    if n >= 2 && trimmed[0] == LESS && trimmed[n - 1] == MORE then trimmed[1..n - 1] else trimmed
  }

  predicate GoodParts(local: bytes, domain: bytes) {
    && local != [] && domain != []
    && !HasSpace(local) && !HasSpace(domain)
    && (DOT in domain || domain == Ascii("localhost"))
  }

  /** An RFC 5322 msg-id, kept as `<local@domain>`. */
  function ParseMessageId(raw: bytes): Result<bytes> {
    match SplitOnce(Inner(Trim(raw)), AT)
    case None => Err(InvalidMessageId)
    case Some((local, domain)) =>
      if GoodParts(local, domain) then Ok([LESS] + local + [AT] + domain + [MORE]) else Err(InvalidMessageId)
  }

  predicate IsMessageId(m: bytes) {
    ParseMessageId(m) == Ok(m)
  }

  /** What parsing writes, parsing reads back unchanged. */
  lemma MessageIdIdempotent(raw: bytes)
    requires ParseMessageId(raw).Ok?
    ensures IsMessageId(ParseMessageId(raw).value)
    ensures |ParseMessageId(raw).value| <= |raw| + 2
  {
    hide GoodParts, SpaceLen, SpaceLenEnd, Trim;
    var (local, domain) := SplitOnce(Inner(Trim(raw)), AT).value;
    var m := ParseMessageId(raw).value;
    Bracketed(m);
    assert m[1..|m| - 1] == local + [AT] + domain;
    assert AT !in local;
    SplitOnceAt(local, AT, domain);
    TrimShrinks(raw);
  }

  lemma Bracketed(m: bytes)
    requires m != [] && m[0] == LESS && m[|m| - 1] == MORE
    ensures Trim(m) == m
  {
    assert SpaceLen(m) == 0 && SpaceLenEnd(m) == 0;
  }

  lemma {:induction false} TrimShrinks(t: bytes)
    ensures |Trim(t)| <= |t|
  {
    TrimStartShrinks(t);
    TrimEndShrinks(TrimStart(t));
  }

  lemma {:induction false} TrimStartShrinks(t: bytes)
    ensures |TrimStart(t)| <= |t|
    decreases |t|
  {
    if SpaceLen(t) > 0 {
      TrimStartShrinks(t[SpaceLen(t)..]);
    }
  }

  lemma {:induction false} TrimEndShrinks(t: bytes)
    ensures |TrimEnd(t)| <= |t|
    decreases |t|
  {
    if SpaceLenEnd(t) > 0 {
      TrimEndShrinks(t[..|t| - SpaceLenEnd(t)]);
    }
  }

  // ---------- records ----------

  datatype Source = SourceDeed(id: bytes) | SourcePath(path: bytes) | SourceUrl(url: bytes)

  function ParseUrl(raw: bytes): (r: Result<Source>)
    ensures r.Ok? ==> r.value == SourceUrl(raw)
  {
    if (StartsWith(raw, Ascii("http://")) || StartsWith(raw, Ascii("https://")) || StartsWith(raw, Ascii("file://")))
       && |raw| >= 8
    then Ok(SourceUrl(raw))
    else Err(InvalidUrl)
  }

  datatype Grant = GrantHost(host: bytes) | GrantPath(path: bytes)

  datatype ProducedBy = ProducedBy(agent: bytes, activity: Option<bytes>)

  datatype Face = Syntax | Sheet | Letter | Waveform | Document

  datatype Pair = Pair(name: bytes, value: bytes)

  datatype ProcedureStep = ProcedureStep(text: bytes, done: bool)

  /** The product, by kind. The three instants of a clip are the 64 bits each
      is compared and encoded by. */
  datatype Body =
    | FileBody(path: bytes, mediaType: Option<bytes>)
    | SetBody(title: bytes, members: seq<bytes>)
    | QuoteBody(edition: bytes, start: nat, end: nat, excerpt: bytes, urls: seq<bytes>)
    | PatchBody(tree: bytes, diffs: seq<bytes>, functionaries: seq<bytes>)
    | MailBody(messageId: bytes, inReplyTo: Option<bytes>, subject: bytes, path: bytes)
    | ClipBody(sources: seq<bytes>, inPoint: nat, outPoint: nat, duration: nat, path: bytes)
    | PageBody(url: bytes, snapshot: bytes)
    | FormBody(blank: bytes, fields: seq<Pair>, path: bytes)
    | TableBody(measures: seq<Pair>)
    | ProcedureBody(steps: seq<ProcedureStep>)
    | EventBody(when: bytes, where_: bytes, who: bytes)

  datatype Deed = Deed(
    id: bytes, kind: Kind, name: bytes, paths: seq<bytes>, sources: seq<Source>, producedBy: ProducedBy,
    grants: seq<Grant>, face: Face, body: Body)

  datatype Evidence = Issued(
    deedId: bytes, producedBy: ProducedBy, grants: seq<Grant>, time: nat, signature: bytes)

  /** The accessions among a deed's sources, in order. */
  function DeedSources(d: Deed): seq<bytes> {
    IdsAmong(d.sources)
  }

  function IdsAmong(sources: seq<Source>): seq<bytes> {
    if sources == [] then []
    else (if sources[0].SourceDeed? then [sources[0].id] else []) + IdsAmong(sources[1..])
  }
}
