/** The binary frames deeds, evidence, requests and responses are stored and
    sent as: little-endian lengths, length-prefixed text, one-octet tags. */
module Wire {
  import opened Prelude
  import opened Text
  import opened Deeds

  const U32: nat := 0x1_0000_0000

  // ---------- numbers and text ----------

  /** The low `k` octets of `n`, least first. */
  function Little(n: nat, k: nat): (b: bytes)
    ensures |b| == k
  {
    if k == 0 then [] else [n % 256] + Little(n / 256, k - 1)
  }

  function FromLittle(b: bytes): nat {
    if b == [] then 0 else b[0] + 256 * FromLittle(b[1..])
  }

  function Pow256(k: nat): nat {
    if k == 0 then 1 else 256 * Pow256(k - 1)
  }

  lemma {:induction false} LittleRound(n: nat, k: nat)
    requires n < Pow256(k)
    ensures FromLittle(Little(n, k)) == n
  {
    if k > 0 {
      LittleRound(n / 256, k - 1);
    }
  }

  lemma {:induction false} FromLittleBound(b: bytes)
    ensures FromLittle(b) < Pow256(|b|)
  {
    if b != [] {
      FromLittleBound(b[1..]);
    }
  }

  lemma Widths()
    ensures Pow256(4) == U32 && Pow256(8) == U64
  {
    assert Pow256(2) == 65536;
    assert Pow256(4) == 65536 * 65536;
    assert Pow256(6) == 65536 * Pow256(4);
    assert Pow256(8) == 65536 * Pow256(6);
  }

  /** A length is kept modulo 2^32. */
  function PutU32(n: nat): (b: bytes)
    ensures |b| == 4
  {
    Little(n, 4)
  }

  function TakeU32(p: bytes): (r: Result<nat>)
    ensures r.Ok? <==> |p| >= 4
  {
    if |p| < 4 then Err(Decode) else Ok(FromLittle(p[..4]))
  }

  function PutU64(n: nat): (b: bytes)
    ensures |b| == 8
  {
    Little(n, 8)
  }

  function TakeU64(p: bytes): Result<(nat, bytes)> {
    if |p| < 8 then Err(Decode) else Ok((FromLittle(p[..8]), p[8..]))
  }

  function PutStr(s: bytes): bytes {
    PutU32(|s|) + s
  }

  function TakeStr(p: bytes): Result<(bytes, bytes)> {
    var n :- TakeU32(p);
    if |p| < 4 + n then Err(Decode)
    else if !IsUtf8(p[4..4 + n]) then Err(Decode)
    else Ok((p[4..4 + n], p[4 + n..]))
  }

  lemma Cut(a: bytes, b: bytes, c: bytes)
    ensures (a + b) + c == a + (b + c)
  {
  }

  lemma U32Round(n: nat, t: bytes)
    requires n < U32
    ensures TakeU32(PutU32(n) + t) == Ok(n) && (PutU32(n) + t)[4..] == t
  {
    Widths();
    LittleRound(n, 4);
    assert (PutU32(n) + t)[..4] == PutU32(n);
  }

  lemma U64Round(n: nat, t: bytes)
    requires n < U64
    ensures TakeU64(PutU64(n) + t) == Ok((n, t))
  {
    Widths();
    LittleRound(n, 8);
    assert (PutU64(n) + t)[..8] == PutU64(n);
  }

  /** Text a length prefix can carry. */
  predicate Short(s: bytes) {
    |s| < U32 && IsUtf8(s)
  }

  lemma StrRound(s: bytes, t: bytes)
    requires Short(s)
    ensures TakeStr(PutStr(s) + t) == Ok((s, t))
  {
    var p := PutStr(s) + t;
    Cut(PutU32(|s|), s, t);
    U32Round(|s|, s + t);
    assert p[4..4 + |s|] == s;
    assert p[4 + |s|..] == t;
  }

  // ---------- lists ----------

  type Put<!T> = T -> bytes
  type Take<!T> = bytes -> Result<(T, bytes)>

  function PutMany<T>(put: Put<T>, xs: seq<T>): bytes {
    if xs == [] then [] else put(xs[0]) + PutMany(put, xs[1..])
  }

  function TakeMany<T>(take: Take<T>, n: nat, p: bytes): Result<(seq<T>, bytes)> {
    if n == 0 then Ok(([], p))
    else
      var (x, r) :- take(p);
      var (xs, r') :- TakeMany(take, n - 1, r);
      Ok(([x] + xs, r'))
  }

  function PutList<T>(put: Put<T>, xs: seq<T>): bytes {
    PutU32(|xs|) + PutMany(put, xs)
  }

  function TakeList<T>(take: Take<T>, p: bytes): Result<(seq<T>, bytes)> {
    var n :- TakeU32(p);
    TakeMany(take, n, p[4..])
  }

  /** `take` reads back what `put` writes for `x`, whatever follows it. */
  ghost predicate Inverse<T(!new)>(put: Put<T>, take: Take<T>, x: T) {
    forall t :: take(put(x) + t) == Ok((x, t))
  }

  lemma {:induction false} ManyRound<T(!new)>(put: Put<T>, take: Take<T>, xs: seq<T>, t: bytes)
    requires forall x :: x in xs ==> Inverse(put, take, x)
    ensures TakeMany(take, |xs|, PutMany(put, xs) + t) == Ok((xs, t))
    decreases xs
  {
    if xs == [] {
      assert PutMany(put, xs) + t == t;
    } else {
      var rest := PutMany(put, xs[1..]) + t;
      Cut(put(xs[0]), PutMany(put, xs[1..]), t);
      assert Inverse(put, take, xs[0]);
      assert take(put(xs[0]) + rest) == Ok((xs[0], rest));
      ManyRound(put, take, xs[1..], t);
      assert xs == [xs[0]] + xs[1..];
    }
  }

  lemma ListRound<T(!new)>(put: Put<T>, take: Take<T>, xs: seq<T>, t: bytes)
    requires |xs| < U32 && forall x :: x in xs ==> Inverse(put, take, x)
    ensures TakeList(take, PutList(put, xs) + t) == Ok((xs, t))
  {
    hide PutU32, TakeU32, Inverse;
    Cut(PutU32(|xs|), PutMany(put, xs), t);
    U32Round(|xs|, PutMany(put, xs) + t);
    ManyRound(put, take, xs, t);
  }

  // ---------- tagged values ----------

  function PutSource(s: Source): bytes {
    match s
    case SourceDeed(id) => [0] + PutStr(id)
    case SourcePath(path) => [1] + PutStr(path)
    case SourceUrl(url) => [2] + PutStr(url)
  }

  function TakeSource(p: bytes): Result<(Source, bytes)> {
    if p == [] then Err(Decode)
    else
      var (s, r) :- TakeStr(p[1..]);
      var src :-
        if p[0] == 0 then (var id :- ParseId(s); Ok(SourceDeed(id)))
        else if p[0] == 1 then Ok(SourcePath(s))
        else if p[0] == 2 then ParseUrl(s)
        else Err(Decode);
      Ok((src, r))
  }

  function PutGrant(g: Grant): bytes {
    match g
    case GrantHost(host) => [0] + PutStr(host)
    case GrantPath(path) => [1] + PutStr(path)
  }

  function TakeGrant(p: bytes): Result<(Grant, bytes)> {
    if p == [] then Err(Decode)
    else
      var (s, r) :- TakeStr(p[1..]);
      if p[0] == 0 then Ok((GrantHost(s), r))
      else if p[0] == 1 then Ok((GrantPath(s), r))
      else Err(Decode)
  }

  /** An absent optional text is written as an empty one. */
  function PutOption(o: Option<bytes>): bytes {
    PutStr(if o.Some? then o.value else [])
  }

  function TakeOption(p: bytes): Result<(Option<bytes>, bytes)> {
    var (s, r) :- TakeStr(p);
    Ok((if s == [] then None else Some(s), r))
  }

  function PutProduced(b: ProducedBy): bytes {
    PutStr(b.agent) + PutOption(b.activity)
  }

  function TakeProduced(p: bytes): Result<(ProducedBy, bytes)> {
    var (agent, r) :- TakeStr(p);
    var (activity, r) :- TakeOption(r);
    Ok((ProducedBy(agent, activity), r))
  }

  function KindTag(k: Kind): byte {
    match k
    case File => 0
    case Set => 1
    case Quote => 2
    case Patch => 3
    case MailDraft => 4
    case Clip => 5
    case Page => 6
    case Form => 7
    case Table => 8
    case Procedure => 9
    case Event => 10
  }

  function TakeKind(p: bytes): Result<(Kind, bytes)> {
    if p == [] then Err(Decode)
    else if p[0] == 0 then Ok((File, p[1..]))
    else if p[0] == 1 then Ok((Set, p[1..]))
    else if p[0] == 2 then Ok((Quote, p[1..]))
    else if p[0] == 3 then Ok((Patch, p[1..]))
    else if p[0] == 4 then Ok((MailDraft, p[1..]))
    else if p[0] == 5 then Ok((Clip, p[1..]))
    else if p[0] == 6 then Ok((Page, p[1..]))
    else if p[0] == 7 then Ok((Form, p[1..]))
    else if p[0] == 8 then Ok((Table, p[1..]))
    else if p[0] == 9 then Ok((Procedure, p[1..]))
    else if p[0] == 10 then Ok((Event, p[1..]))
    else Err(Decode)
  }

  function FaceTag(f: Face): byte {
    match f
    case Syntax => 0
    case Sheet => 1
    case Letter => 2
    case Waveform => 3
    case Document => 4
  }

  function TakeFace(p: bytes): Result<(Face, bytes)> {
    if p == [] then Err(Decode)
    else if p[0] == 0 then Ok((Syntax, p[1..]))
    else if p[0] == 1 then Ok((Sheet, p[1..]))
    else if p[0] == 2 then Ok((Letter, p[1..]))
    else if p[0] == 3 then Ok((Waveform, p[1..]))
    else if p[0] == 4 then Ok((Document, p[1..]))
    else Err(Decode)
  }

  function PutPair(x: Pair): bytes {
    PutStr(x.name) + PutStr(x.value)
  }

  function TakePair(p: bytes): Result<(Pair, bytes)> {
    var (name, r) :- TakeStr(p);
    var (value, r) :- TakeStr(r);
    Ok((Pair(name, value), r))
  }

  function PutStep(s: ProcedureStep): bytes {
    PutStr(s.text) + [if s.done then 1 else 0]
  }

  /** Any octet but zero says the step is done. */
  function TakeStep(p: bytes): Result<(ProcedureStep, bytes)> {
    var (text, r) :- TakeStr(p);
    if r == [] then Err(Decode) else Ok((ProcedureStep(text, r[0] != 0), r[1..]))
  }

  // ---------- bodies ----------

  function BodyTag(b: Body): byte {
    KindTag(KindOf(b))
  }

  function KindOf(b: Body): Kind {
    match b
    case FileBody(_, _) => File
    case SetBody(_, _) => Set
    case QuoteBody(_, _, _, _, _) => Quote
    case PatchBody(_, _, _) => Patch
    case MailBody(_, _, _, _) => MailDraft
    case ClipBody(_, _, _, _, _) => Clip
    case PageBody(_, _) => Page
    case FormBody(_, _, _) => Form
    case TableBody(_) => Table
    case ProcedureBody(_) => Procedure
    case EventBody(_, _, _) => Event
  }

  /** The octets after the tag. */
  function PutFields(b: Body): bytes {
    match b
    case FileBody(path, mediaType) => PutStr(path) + PutOption(mediaType)
    case SetBody(title, members) => PutStr(title) + PutList(PutStr, members)
    case QuoteBody(edition, start, end, excerpt, urls) =>
      PutStr(edition) + (PutU64(start) + (PutU64(end) + (PutStr(excerpt) + PutList(PutStr, urls))))
    case PatchBody(tree, diffs, functionaries) =>
      PutStr(tree) + (PutList(PutStr, diffs) + PutList(PutStr, functionaries))
    case MailBody(messageId, inReplyTo, subject, path) =>
      PutStr(messageId) + (PutOption(inReplyTo) + (PutStr(subject) + PutStr(path)))
    case ClipBody(sources, inPoint, outPoint, duration, path) =>
      PutList(PutStr, sources) + (PutU64(inPoint) + (PutU64(outPoint) + (PutU64(duration) + PutStr(path))))
    case PageBody(url, snapshot) => PutStr(url) + PutStr(snapshot)
    case FormBody(blank, fields, path) => PutStr(blank) + (PutList(PutPair, fields) + PutStr(path))
    case TableBody(measures) => PutList(PutPair, measures)
    case ProcedureBody(steps) => PutList(PutStep, steps)
    case EventBody(when, where_, who) => PutStr(when) + (PutStr(where_) + PutStr(who))
  }

  function PutBody(b: Body): bytes {
    [BodyTag(b)] + PutFields(b)
  }

  function TakeFile(p: bytes): Result<(Body, bytes)> {
    var (path, r) :- TakeStr(p);
    var (mediaType, r) :- TakeOption(r);
    Ok((FileBody(path, mediaType), r))
  }

  function TakeSet(p: bytes): Result<(Body, bytes)> {
    var (title, r) :- TakeStr(p);
    var (members, r) :- TakeList(TakeStr, r);
    Ok((SetBody(title, members), r))
  }

  function TakeQuote(p: bytes): Result<(Body, bytes)> {
    var (edition, r) :- TakeStr(p);
    var (start, r) :- TakeU64(r);
    var (end, r) :- TakeU64(r);
    var (excerpt, r) :- TakeStr(r);
    var (urls, r) :- TakeList(TakeStr, r);
    Ok((QuoteBody(edition, start, end, excerpt, urls), r))
  }

  function TakePatch(p: bytes): Result<(Body, bytes)> {
    var (tree, r) :- TakeStr(p);
    var (diffs, r) :- TakeList(TakeStr, r);
    var (functionaries, r) :- TakeList(TakeStr, r);
    Ok((PatchBody(tree, diffs, functionaries), r))
  }

  function TakeMail(p: bytes): Result<(Body, bytes)> {
    var (mid, r) :- TakeStr(p);
    var (irt, r) :- TakeOption(r);
    var (subject, r) :- TakeStr(r);
    var (path, r) :- TakeStr(r);
    var messageId :- ParseMessageId(mid);
    var inReplyTo :- ParseOptionalId(irt);
    Ok((MailBody(messageId, inReplyTo, subject, path), r))
  }

  function ParseOptionalId(o: Option<bytes>): Result<Option<bytes>> {
    match o
    case None => Ok(None)
    case Some(raw) => var m :- ParseMessageId(raw); Ok(Some(m))
  }

  function TakeClip(p: bytes): Result<(Body, bytes)> {
    var (sources, r) :- TakeList(TakeStr, p);
    var (inPoint, r) :- TakeU64(r);
    var (outPoint, r) :- TakeU64(r);
    var (duration, r) :- TakeU64(r);
    var (path, r) :- TakeStr(r);
    Ok((ClipBody(sources, inPoint, outPoint, duration, path), r))
  }

  function TakePage(p: bytes): Result<(Body, bytes)> {
    var (url, r) :- TakeStr(p);
    var (snapshot, r) :- TakeStr(r);
    Ok((PageBody(url, snapshot), r))
  }

  function TakeForm(p: bytes): Result<(Body, bytes)> {
    var (blank, r) :- TakeStr(p);
    var (fields, r) :- TakeList(TakePair, r);
    var (path, r) :- TakeStr(r);
    Ok((FormBody(blank, fields, path), r))
  }

  function TakeTable(p: bytes): Result<(Body, bytes)> {
    var (measures, r) :- TakeList(TakePair, p);
    Ok((TableBody(measures), r))
  }

  function TakeProcedure(p: bytes): Result<(Body, bytes)> {
    var (steps, r) :- TakeList(TakeStep, p);
    Ok((ProcedureBody(steps), r))
  }

  function TakeEvent(p: bytes): Result<(Body, bytes)> {
    var (when, r) :- TakeStr(p);
    var (where_, r) :- TakeStr(r);
    var (who, r) :- TakeStr(r);
    Ok((EventBody(when, where_, who), r))
  }

  function TakeBody(p: bytes): Result<(Body, bytes)> {
    if p == [] then Err(Decode)
    else if p[0] == 0 then TakeFile(p[1..])
    else if p[0] == 1 then TakeSet(p[1..])
    else if p[0] == 2 then TakeQuote(p[1..])
    else if p[0] == 3 then TakePatch(p[1..])
    else if p[0] == 4 then TakeMail(p[1..])
    else if p[0] == 5 then TakeClip(p[1..])
    else if p[0] == 6 then TakePage(p[1..])
    else if p[0] == 7 then TakeForm(p[1..])
    else if p[0] == 8 then TakeTable(p[1..])
    else if p[0] == 9 then TakeProcedure(p[1..])
    else if p[0] == 10 then TakeEvent(p[1..])
    else Err(Decode)
  }

  // ---------- deeds and evidence ----------

  function PutDeed(d: Deed): bytes {
    PutStr(d.id) + ([KindTag(d.kind)] + (PutStr(d.name) + (PutList(PutStr, d.paths)
    + (PutList(PutSource, d.sources) + (PutProduced(d.producedBy) + (PutList(PutGrant, d.grants)
    + ([FaceTag(d.face)] + PutBody(d.body))))))))
  }

  function TakeDeed(p: bytes): Result<(Deed, bytes)> {
    var (raw, r) :- TakeStr(p);
    var (kind, r) :- TakeKind(r);
    var (name, r) :- TakeStr(r);
    var (paths, r) :- TakeList(TakeStr, r);
    var (sources, r) :- TakeList(TakeSource, r);
    var (producedBy, r) :- TakeProduced(r);
    var (grants, r) :- TakeList(TakeGrant, r);
    var (face, r) :- TakeFace(r);
    var (body, r) :- TakeBody(r);
    var id :- ParseId(raw);
    Ok((Deed(id, kind, name, paths, sources, producedBy, grants, face, body), r))
  }

  /** The canonical octets of a deed, which its digest is taken over. */
  function DeedBytes(d: Deed): bytes {
    PutDeed(d)
  }

  /** A deed from octets that are one deed exactly. */
  function DeedFromBytes(b: bytes): Result<Deed> {
    var (d, rest) :- TakeDeed(b);
    if rest == [] then Ok(d) else Err(Decode)
  }

  function PutEvidence(e: Evidence): bytes {
    PutStr(e.deedId) + (PutProduced(e.producedBy) + (PutList(PutGrant, e.grants)
    + (PutU64(e.time) + (PutU32(|e.signature|) + e.signature))))
  }

  function TakeEvidence(p: bytes): Result<(Evidence, bytes)> {
    var (raw, r) :- TakeStr(p);
    var (producedBy, r) :- TakeProduced(r);
    var (grants, r) :- TakeList(TakeGrant, r);
    var (time, r) :- TakeU64(r);
    var n :- TakeU32(r);
    if |r| < 4 + n then Err(Decode)
    else
      var id :- ParseId(raw);
      Ok((Issued(id, producedBy, grants, time, r[4..4 + n]), r[4 + n..]))
  }
}
