/** What a cap file gives back of any deed whose octets fit its frame: the deed,
    but for optional texts that are present and empty. */
module Fitting {
  import opened Prelude
  import opened Text
  import opened Deeds
  import opened Wire
  import opened WireProofs

  // ---------- what the program's own types hold ----------

  predicate AllText(xs: seq<bytes>) {
    forall x :: x in xs ==> IsUtf8(x)
  }

  predicate TextOption(o: Option<bytes>) {
    o.Some? ==> IsUtf8(o.value)
  }

  predicate TypedSource(s: Source) {
    match s
    case SourceDeed(id) => IsId(id)
    case SourcePath(path) => IsUtf8(path)
    case SourceUrl(url) => IsUtf8(url) && ParseUrl(url).Ok?
  }

  predicate TypedGrant(g: Grant) {
    match g
    case GrantHost(host) => IsUtf8(host)
    case GrantPath(path) => IsUtf8(path)
  }

  predicate TypedPairs(xs: seq<Pair>) {
    forall x :: x in xs ==> IsUtf8(x.name) && IsUtf8(x.value)
  }

  predicate TypedSteps(xs: seq<ProcedureStep>) {
    forall x :: x in xs ==> IsUtf8(x.text)
  }

  predicate TypedMessageId(m: bytes) {
    IsMessageId(m) && IsUtf8(m)
  }

  predicate TypedBody(b: Body) {
    match b
    case FileBody(path, mediaType) => IsUtf8(path) && TextOption(mediaType)
    case SetBody(title, members) => IsUtf8(title) && AllText(members)
    case QuoteBody(edition, start, end, excerpt, urls) =>
      IsUtf8(edition) && start < U64 && end < U64 && IsUtf8(excerpt) && AllText(urls)
    case PatchBody(tree, diffs, functionaries) => IsUtf8(tree) && AllText(diffs) && AllText(functionaries)
    case MailBody(messageId, inReplyTo, subject, path) =>
      && TypedMessageId(messageId) && (inReplyTo.Some? ==> TypedMessageId(inReplyTo.value))
      && IsUtf8(subject) && IsUtf8(path)
    case ClipBody(sources, inPoint, outPoint, duration, path) =>
      AllText(sources) && inPoint < U64 && outPoint < U64 && duration < U64 && IsUtf8(path)
    case PageBody(url, snapshot) => IsUtf8(url) && IsUtf8(snapshot)
    case FormBody(blank, fields, path) => IsUtf8(blank) && TypedPairs(fields) && IsUtf8(path)
    case TableBody(measures) => TypedPairs(measures)
    case ProcedureBody(steps) => TypedSteps(steps)
    case EventBody(when, where_, who) => IsUtf8(when) && IsUtf8(where_) && IsUtf8(who)
  }

  predicate TypedSources(xs: seq<Source>) {
    forall x :: x in xs ==> TypedSource(x)
  }

  predicate TypedGrants(xs: seq<Grant>) {
    forall x :: x in xs ==> TypedGrant(x)
  }

  /** A deed as a value of the program's types: every text is UTF-8, every number
      64 bits, and accessions, addresses and message identifiers are parsed. */
  predicate Typed(d: Deed) {
    && IsId(d.id) && IsUtf8(d.name) && AllText(d.paths) && TypedSources(d.sources)
    && IsUtf8(d.producedBy.agent) && TextOption(d.producedBy.activity) && TypedGrants(d.grants) && TypedBody(d.body)
  }

  /** And one whose octets fit the frame of its cap file. */
  predicate Fits(d: Deed) {
    Typed(d) && |DeedBytes(d)| + 1 < U32
  }

  // ---------- the deed that comes back ----------

  /** An empty optional text is written as an absent one is. */
  function SettledOption(o: Option<bytes>): Option<bytes> {
    if o == Some([]) then None else o
  }

  function SettledBody(b: Body): Body {
    if b.FileBody? then FileBody(b.path, SettledOption(b.mediaType)) else b
  }

  function Settled(d: Deed): Deed {
    d.(producedBy := ProducedBy(d.producedBy.agent, SettledOption(d.producedBy.activity)), body := SettledBody(d.body))
  }

  lemma SettledBytes(d: Deed)
    ensures DeedBytes(Settled(d)) == DeedBytes(d)
  {
    hide PutStr, PutList;
  }

  // ---------- what fits is short ----------

  lemma {:induction false} ManyLength<T>(put: Put<T>, xs: seq<T>)
    requires forall x :: x in xs ==> |put(x)| >= 1
    ensures |xs| <= |PutMany(put, xs)|
    ensures forall x :: x in xs ==> |put(x)| <= |PutMany(put, xs)|
    decreases xs
  {
    if xs != [] {
      assert xs[0] in xs;
      ManyLength(put, xs[1..]);
    }
  }

  lemma ShortItems(xs: seq<bytes>)
    requires AllText(xs) && |PutList(PutStr, xs)| < U32
    ensures AllShort(xs)
  {
    hide IsUtf8;
    ManyLength(PutStr, xs);
  }

  lemma ShortPairs(xs: seq<Pair>)
    requires TypedPairs(xs) && |PutList(PutPair, xs)| < U32
    ensures GoodPairs(xs)
  {
    hide IsUtf8;
    ManyLength(PutPair, xs);
  }

  lemma ShortSteps(xs: seq<ProcedureStep>)
    requires TypedSteps(xs) && |PutList(PutStep, xs)| < U32
    ensures GoodSteps(xs)
  {
    hide IsUtf8;
    ManyLength(PutStep, xs);
  }

  lemma IdUtf8(id: bytes)
    requires IsId(id)
    ensures IsUtf8(id)
  {
    IdIsPlain(id);
  }

  lemma ShortSources(xs: seq<Source>)
    requires TypedSources(xs) && |PutList(PutSource, xs)| < U32
    ensures GoodSources(xs)
  {
    hide IsUtf8, IsId, ParseUrl;
    ManyLength(PutSource, xs);
    forall x | x in xs
      ensures GoodSource(x)
    {
      assert TypedSource(x);
      if x.SourceDeed? {
        IdUtf8(x.id);
      }
    }
  }

  lemma ShortGrants(xs: seq<Grant>)
    requires TypedGrants(xs) && |PutList(PutGrant, xs)| < U32
    ensures GoodGrants(xs)
  {
    hide IsUtf8;
    ManyLength(PutGrant, xs);
    forall x | x in xs
      ensures GoodGrant(x)
    {
      assert TypedGrant(x);
    }
  }

  lemma ShortBody(b: Body)
    requires TypedBody(b) && |PutFields(b)| < U32
    ensures GoodBody(SettledBody(b))
  {
    hide IsUtf8, PutList, AllText, AllShort, TypedPairs, GoodPairs, TypedSteps, GoodSteps, IsMessageId;
    match b {
      case SetBody(_, members) => ShortItems(members);
      case QuoteBody(_, _, _, _, urls) => ShortItems(urls);
      case PatchBody(_, diffs, functionaries) =>
        ShortItems(diffs);
        ShortItems(functionaries);
      case ClipBody(sources, _, _, _, _) => ShortItems(sources);
      case FormBody(_, fields, _) => ShortPairs(fields);
      case TableBody(measures) => ShortPairs(measures);
      case ProcedureBody(steps) => ShortSteps(steps);
      case _ =>
    }
  }

  lemma PartLengths(d: Deed)
    ensures |PutDeed(d)| >= |PutList(PutStr, d.paths)| && |PutDeed(d)| >= |PutList(PutSource, d.sources)|
    ensures |PutDeed(d)| >= |PutList(PutGrant, d.grants)| && |PutDeed(d)| >= |PutFields(d.body)|
    ensures |PutDeed(d)| >= |d.id| && |PutDeed(d)| >= |d.name| && |PutDeed(d)| >= |d.producedBy.agent|
    ensures d.producedBy.activity.Some? ==> |PutDeed(d)| >= |d.producedBy.activity.value|
  {
    hide PutList, PutFields;
  }

  /** Whatever fits a frame is well formed once it is settled. */
  lemma FitsGood(d: Deed)
    requires Fits(d)
    ensures Good(Settled(d))
  {
    hide IsUtf8, IsId, PutDeed, PutList, PutFields, AllText, AllShort, TypedSources, GoodSources, TypedGrants;
    hide GoodGrants, TypedBody, GoodBody, SettledBody;
    PartLengths(d);
    IdUtf8(d.id);
    ShortItems(d.paths);
    ShortSources(d.sources);
    ShortGrants(d.grants);
    ShortBody(d.body);
  }

  /** Its octets read back as the settled deed. */
  lemma FitsReads(d: Deed)
    requires Fits(d)
    ensures DeedFromBytes(DeedBytes(d)) == Ok(Settled(d))
  {
    hide Good, Settled, DeedBytes, DeedFromBytes, Typed;
    FitsGood(d);
    SettledBytes(d);
    DeedBytesRound(Settled(d));
  }
}
