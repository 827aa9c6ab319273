/** Every record reads back as written, whatever follows it. */
module WireProofs {
  import opened Prelude
  import opened Text
  import opened Deeds
  import opened Wire

  // ---------- what the octets of a record can carry ----------

  predicate ShortOption(o: Option<bytes>) {
    o.Some? ==> o.value != [] && Short(o.value)
  }

  predicate AllShort(xs: seq<bytes>) {
    |xs| < U32 && forall x :: x in xs ==> Short(x)
  }

  predicate GoodId(id: bytes) {
    IsId(id) && Short(id)
  }

  predicate GoodSource(s: Source) {
    match s
    case SourceDeed(id) => GoodId(id)
    case SourcePath(path) => Short(path)
    case SourceUrl(url) => Short(url) && ParseUrl(url).Ok?
  }

  predicate GoodGrant(g: Grant) {
    match g
    case GrantHost(host) => Short(host)
    case GrantPath(path) => Short(path)
  }

  predicate GoodProduced(b: ProducedBy) {
    Short(b.agent) && ShortOption(b.activity)
  }

  predicate GoodPairs(xs: seq<Pair>) {
    |xs| < U32 && forall x :: x in xs ==> Short(x.name) && Short(x.value)
  }

  predicate GoodSteps(xs: seq<ProcedureStep>) {
    |xs| < U32 && forall x :: x in xs ==> Short(x.text)
  }

  predicate GoodMessageId(m: bytes) {
    IsMessageId(m) && Short(m)
  }

  predicate GoodBody(b: Body) {
    match b
    case FileBody(path, mediaType) => Short(path) && ShortOption(mediaType)
    case SetBody(title, members) => Short(title) && AllShort(members)
    case QuoteBody(edition, start, end, excerpt, urls) =>
      Short(edition) && start < U64 && end < U64 && Short(excerpt) && AllShort(urls)
    case PatchBody(tree, diffs, functionaries) => Short(tree) && AllShort(diffs) && AllShort(functionaries)
    case MailBody(messageId, inReplyTo, subject, path) =>
      GoodMessageId(messageId) && (inReplyTo.Some? ==> GoodMessageId(inReplyTo.value)) && Short(subject) && Short(path)
    case ClipBody(sources, inPoint, outPoint, duration, path) =>
      AllShort(sources) && inPoint < U64 && outPoint < U64 && duration < U64 && Short(path)
    case PageBody(url, snapshot) => Short(url) && Short(snapshot)
    case FormBody(blank, fields, path) => Short(blank) && GoodPairs(fields) && Short(path)
    case TableBody(measures) => GoodPairs(measures)
    case ProcedureBody(steps) => GoodSteps(steps)
    case EventBody(when, where_, who) => Short(when) && Short(where_) && Short(who)
  }

  predicate GoodSources(xs: seq<Source>) {
    |xs| < U32 && forall x :: x in xs ==> GoodSource(x)
  }

  predicate GoodGrants(xs: seq<Grant>) {
    |xs| < U32 && forall x :: x in xs ==> GoodGrant(x)
  }

  /** Every length fits its prefix, every optional text is absent or not empty,
      and accessions, addresses and message identifiers are what parsing gives. */
  predicate Good(d: Deed) {
    GoodButBody(d) && GoodBody(d.body)
  }

  predicate GoodButBody(d: Deed) {
    && GoodId(d.id) && Short(d.name) && AllShort(d.paths) && GoodSources(d.sources)
    && GoodProduced(d.producedBy) && GoodGrants(d.grants)
  }

  predicate GoodEvidence(e: Evidence) {
    && GoodId(e.deedId) && GoodProduced(e.producedBy) && GoodGrants(e.grants)
    && e.time < U64 && |e.signature| < U32
  }

  // ---------- items ----------

  lemma Tagged(tag: byte, a: bytes, t: bytes)
    ensures ([tag] + a) + t != [] && (([tag] + a) + t)[0] == tag && (([tag] + a) + t)[1..] == a + t
  {
  }

  lemma SourceRound(s: Source, t: bytes)
    requires GoodSource(s)
    ensures TakeSource(PutSource(s) + t) == Ok((s, t))
  {
    hide Short, IsId, PutStr, TakeStr, ParseUrl, ParseId;
    match s
    case SourceDeed(id) =>
      Tagged(0, PutStr(id), t);
      StrRound(id, t);
      GoodIdParses(id);
    case SourcePath(path) =>
      Tagged(1, PutStr(path), t);
      StrRound(path, t);
    case SourceUrl(url) =>
      Tagged(2, PutStr(url), t);
      StrRound(url, t);
  }

  lemma GoodIdParses(id: bytes)
    requires GoodId(id)
    ensures Short(id) && ParseId(id) == Ok(id)
  {
  }

  lemma GrantRound(g: Grant, t: bytes)
    requires GoodGrant(g)
    ensures TakeGrant(PutGrant(g) + t) == Ok((g, t))
  {
    hide Short, PutStr, TakeStr;
    match g
    case GrantHost(host) =>
      Tagged(0, PutStr(host), t);
      StrRound(host, t);
    case GrantPath(path) =>
      Tagged(1, PutStr(path), t);
      StrRound(path, t);
  }

  lemma OptionRound(o: Option<bytes>, t: bytes)
    requires ShortOption(o)
    ensures TakeOption(PutOption(o) + t) == Ok((o, t))
  {
    EmptyShort();
    StrRound(if o.Some? then o.value else [], t);
  }

  lemma EmptyShort()
    ensures Short([])
  {
  }

  lemma ProducedRound(b: ProducedBy, t: bytes)
    requires GoodProduced(b)
    ensures TakeProduced(PutProduced(b) + t) == Ok((b, t))
  {
    hide Short, PutStr, TakeStr, PutOption, TakeOption, ShortOption;
    Cut(PutStr(b.agent), PutOption(b.activity), t);
    StrRound(b.agent, PutOption(b.activity) + t);
    OptionRound(b.activity, t);
  }

  lemma PairRound(x: Pair, t: bytes)
    requires Short(x.name) && Short(x.value)
    ensures TakePair(PutPair(x) + t) == Ok((x, t))
  {
    hide Short, PutStr, TakeStr;
    Cut(PutStr(x.name), PutStr(x.value), t);
    StrRound(x.name, PutStr(x.value) + t);
    StrRound(x.value, t);
  }

  lemma StepRound(s: ProcedureStep, t: bytes)
    requires Short(s.text)
    ensures TakeStep(PutStep(s) + t) == Ok((s, t))
  {
    hide Short, PutStr, TakeStr;
    var tail: bytes := [if s.done then 1 else 0];
    Cut(PutStr(s.text), tail, t);
    StrRound(s.text, tail + t);
    assert (tail + t)[1..] == t;
  }

  lemma KindRound(k: Kind, t: bytes)
    ensures TakeKind([KindTag(k)] + t) == Ok((k, t))
  {
    assert ([KindTag(k)] + t)[1..] == t;
  }

  lemma FaceRound(f: Face, t: bytes)
    ensures TakeFace([FaceTag(f)] + t) == Ok((f, t))
  {
    assert ([FaceTag(f)] + t)[1..] == t;
  }

  // ---------- lists ----------

  lemma StrsRound(xs: seq<bytes>, t: bytes)
    requires AllShort(xs)
    ensures TakeList(TakeStr, PutList(PutStr, xs) + t) == Ok((xs, t))
  {
    hide Short, PutStr, TakeStr, PutList, TakeList;
    forall x | x in xs
      ensures Inverse(PutStr, TakeStr, x)
    {
      forall t {
        StrRound(x, t);
      }
    }
    ListRound(PutStr, TakeStr, xs, t);
  }

  lemma PairsRound(xs: seq<Pair>, t: bytes)
    requires GoodPairs(xs)
    ensures TakeList(TakePair, PutList(PutPair, xs) + t) == Ok((xs, t))
  {
    hide Short, PutPair, TakePair, PutList, TakeList;
    forall x | x in xs
      ensures Inverse(PutPair, TakePair, x)
    {
      forall t {
        PairRound(x, t);
      }
    }
    ListRound(PutPair, TakePair, xs, t);
  }

  lemma StepsRound(xs: seq<ProcedureStep>, t: bytes)
    requires GoodSteps(xs)
    ensures TakeList(TakeStep, PutList(PutStep, xs) + t) == Ok((xs, t))
  {
    hide Short, PutStep, TakeStep, PutList, TakeList;
    forall x | x in xs
      ensures Inverse(PutStep, TakeStep, x)
    {
      forall t {
        StepRound(x, t);
      }
    }
    ListRound(PutStep, TakeStep, xs, t);
  }

  lemma SourcesRound(xs: seq<Source>, t: bytes)
    requires GoodSources(xs)
    ensures TakeList(TakeSource, PutList(PutSource, xs) + t) == Ok((xs, t))
  {
    hide GoodSource, PutSource, TakeSource, PutList, TakeList;
    forall x | x in xs
      ensures Inverse(PutSource, TakeSource, x)
    {
      forall t {
        SourceRound(x, t);
      }
    }
    ListRound(PutSource, TakeSource, xs, t);
  }

  lemma GrantsRound(xs: seq<Grant>, t: bytes)
    requires GoodGrants(xs)
    ensures TakeList(TakeGrant, PutList(PutGrant, xs) + t) == Ok((xs, t))
  {
    hide GoodGrant, PutGrant, TakeGrant, PutList, TakeList;
    forall x | x in xs
      ensures Inverse(PutGrant, TakeGrant, x)
    {
      forall t {
        GrantRound(x, t);
      }
    }
    ListRound(PutGrant, TakeGrant, xs, t);
  }

  // ---------- bodies ----------

  lemma QuoteRound(b: Body, t: bytes)
    requires b.QuoteBody? && GoodBody(b)
    ensures TakeQuote(PutFields(b) + t) == Ok((b, t))
  {
    hide Short, AllShort, PutStr, TakeStr, PutU64, TakeU64, PutList, TakeList;
    var t4 := PutList(PutStr, b.urls);
    var t3 := PutStr(b.excerpt) + t4;
    var t2 := PutU64(b.end) + t3;
    var t1 := PutU64(b.start) + t2;
    Cut(PutStr(b.edition), t1, t);
    StrRound(b.edition, t1 + t);
    Cut(PutU64(b.start), t2, t);
    U64Round(b.start, t2 + t);
    Cut(PutU64(b.end), t3, t);
    U64Round(b.end, t3 + t);
    Cut(PutStr(b.excerpt), t4, t);
    StrRound(b.excerpt, t4 + t);
    StrsRound(b.urls, t);
  }

  lemma PatchRound(b: Body, t: bytes)
    requires b.PatchBody? && GoodBody(b)
    ensures TakePatch(PutFields(b) + t) == Ok((b, t))
  {
    hide Short, AllShort, PutStr, TakeStr, PutList, TakeList;
    var t2 := PutList(PutStr, b.functionaries);
    var t1 := PutList(PutStr, b.diffs) + t2;
    Cut(PutStr(b.tree), t1, t);
    StrRound(b.tree, t1 + t);
    Cut(PutList(PutStr, b.diffs), t2, t);
    StrsRound(b.diffs, t2 + t);
    StrsRound(b.functionaries, t);
  }

  lemma GoodMessage(m: bytes)
    requires GoodMessageId(m)
    ensures Short(m) && m != [] && ParseMessageId(m) == Ok(m)
  {
  }

  lemma MailRound(b: Body, t: bytes)
    requires b.MailBody? && GoodBody(b)
    ensures TakeMail(PutFields(b) + t) == Ok((b, t))
  {
    hide Short, GoodMessageId, ParseMessageId, PutStr, TakeStr, PutOption, TakeOption;
    GoodMessage(b.messageId);
    if b.inReplyTo.Some? {
      GoodMessage(b.inReplyTo.value);
    }
    var t3 := PutStr(b.path);
    var t2 := PutStr(b.subject) + t3;
    var t1 := PutOption(b.inReplyTo) + t2;
    Cut(PutStr(b.messageId), t1, t);
    StrRound(b.messageId, t1 + t);
    Cut(PutOption(b.inReplyTo), t2, t);
    OptionRound(b.inReplyTo, t2 + t);
    Cut(PutStr(b.subject), t3, t);
    StrRound(b.subject, t3 + t);
    StrRound(b.path, t);
  }

  lemma ClipRound(b: Body, t: bytes)
    requires b.ClipBody? && GoodBody(b)
    ensures TakeClip(PutFields(b) + t) == Ok((b, t))
  {
    hide Short, AllShort, PutStr, TakeStr, PutU64, TakeU64, PutList, TakeList;
    var t4 := PutStr(b.path);
    var t3 := PutU64(b.duration) + t4;
    var t2 := PutU64(b.outPoint) + t3;
    var t1 := PutU64(b.inPoint) + t2;
    Cut(PutList(PutStr, b.sources), t1, t);
    StrsRound(b.sources, t1 + t);
    Cut(PutU64(b.inPoint), t2, t);
    U64Round(b.inPoint, t2 + t);
    Cut(PutU64(b.outPoint), t3, t);
    U64Round(b.outPoint, t3 + t);
    Cut(PutU64(b.duration), t4, t);
    U64Round(b.duration, t4 + t);
    StrRound(b.path, t);
  }

  lemma FormRound(b: Body, t: bytes)
    requires b.FormBody? && GoodBody(b)
    ensures TakeForm(PutFields(b) + t) == Ok((b, t))
  {
    hide Short, GoodPairs, PutStr, TakeStr, PutList, TakeList;
    var t2 := PutStr(b.path);
    var t1 := PutList(PutPair, b.fields) + t2;
    Cut(PutStr(b.blank), t1, t);
    StrRound(b.blank, t1 + t);
    Cut(PutList(PutPair, b.fields), t2, t);
    PairsRound(b.fields, t2 + t);
    StrRound(b.path, t);
  }

  lemma EventRound(b: Body, t: bytes)
    requires b.EventBody? && GoodBody(b)
    ensures TakeEvent(PutFields(b) + t) == Ok((b, t))
  {
    hide Short, PutStr, TakeStr;
    var t2 := PutStr(b.who);
    var t1 := PutStr(b.where_) + t2;
    Cut(PutStr(b.when), t1, t);
    StrRound(b.when, t1 + t);
    Cut(PutStr(b.where_), t2, t);
    StrRound(b.where_, t2 + t);
    StrRound(b.who, t);
  }

  /** The bodies of one or two fields. */
  lemma SmallRound(b: Body, t: bytes)
    requires GoodBody(b)
    ensures b.FileBody? ==> TakeFile(PutFields(b) + t) == Ok((b, t))
    ensures b.SetBody? ==> TakeSet(PutFields(b) + t) == Ok((b, t))
    ensures b.PageBody? ==> TakePage(PutFields(b) + t) == Ok((b, t))
    ensures b.TableBody? ==> TakeTable(PutFields(b) + t) == Ok((b, t))
    ensures b.ProcedureBody? ==> TakeProcedure(PutFields(b) + t) == Ok((b, t))
  {
    hide Short, ShortOption, AllShort, GoodPairs, GoodSteps, PutStr, TakeStr, PutOption, TakeOption, PutList, TakeList;
    match b {
      case FileBody(path, mediaType) =>
        Cut(PutStr(path), PutOption(mediaType), t);
        StrRound(path, PutOption(mediaType) + t);
        OptionRound(mediaType, t);
      case SetBody(title, members) =>
        Cut(PutStr(title), PutList(PutStr, members), t);
        StrRound(title, PutList(PutStr, members) + t);
        StrsRound(members, t);
      case PageBody(url, snapshot) =>
        Cut(PutStr(url), PutStr(snapshot), t);
        StrRound(url, PutStr(snapshot) + t);
        StrRound(snapshot, t);
      case TableBody(measures) =>
        PairsRound(measures, t);
      case ProcedureBody(steps) =>
        StepsRound(steps, t);
      case _ =>
    }
  }

  lemma BodyRound(b: Body, t: bytes)
    requires GoodBody(b)
    ensures TakeBody(PutBody(b) + t) == Ok((b, t))
  {
    hide GoodBody, PutFields, TakeFile, TakeSet, TakeQuote, TakePatch, TakeMail, TakeClip, TakePage, TakeForm;
    hide TakeTable, TakeProcedure, TakeEvent;
    Tagged(BodyTag(b), PutFields(b), t);
    match b {
      case QuoteBody(_, _, _, _, _) => QuoteRound(b, t);
      case PatchBody(_, _, _) => PatchRound(b, t);
      case MailBody(_, _, _, _) => MailRound(b, t);
      case ClipBody(_, _, _, _, _) => ClipRound(b, t);
      case FormBody(_, _, _) => FormRound(b, t);
      case EventBody(_, _, _) => EventRound(b, t);
      case _ => SmallRound(b, t);
    }
  }

  // ---------- deeds and evidence ----------

  /** A deed's octets, with anything after them, give back every field before
      the body, and then whatever the body's octets read as. */
  lemma DeedUpToBody(d: Deed, t: bytes)
    requires GoodButBody(d)
    ensures TakeDeed(PutDeed(d) + t) ==
            match TakeBody(PutBody(d.body) + t)
            case Err(e) => Err(e)
            case Ok((b, r)) => Ok((d.(body := b), r))
  {
    hide GoodId, Short, AllShort, GoodSources, GoodProduced, GoodGrants, ParseId;
    hide PutStr, TakeStr, PutList, TakeList, PutProduced, TakeProduced, PutBody, TakeBody, TakeKind, TakeFace;
    GoodIdParses(d.id);
    var t8 := PutBody(d.body);
    var t7 := [FaceTag(d.face)] + t8;
    var t6 := PutList(PutGrant, d.grants) + t7;
    var t5 := PutProduced(d.producedBy) + t6;
    var t4 := PutList(PutSource, d.sources) + t5;
    var t3 := PutList(PutStr, d.paths) + t4;
    var t2 := PutStr(d.name) + t3;
    var t1 := [KindTag(d.kind)] + t2;
    Cut(PutStr(d.id), t1, t);
    StrRound(d.id, t1 + t);
    Cut([KindTag(d.kind)], t2, t);
    KindRound(d.kind, t2 + t);
    Cut(PutStr(d.name), t3, t);
    StrRound(d.name, t3 + t);
    Cut(PutList(PutStr, d.paths), t4, t);
    StrsRound(d.paths, t4 + t);
    Cut(PutList(PutSource, d.sources), t5, t);
    SourcesRound(d.sources, t5 + t);
    Cut(PutProduced(d.producedBy), t6, t);
    ProducedRound(d.producedBy, t6 + t);
    Cut(PutList(PutGrant, d.grants), t7, t);
    GrantsRound(d.grants, t7 + t);
    Cut([FaceTag(d.face)], t8, t);
    FaceRound(d.face, t8 + t);
  }

  /** A deed's octets, with anything after them, give back the deed and what
      came after. */
  lemma DeedRound(d: Deed, t: bytes)
    requires Good(d)
    ensures TakeDeed(PutDeed(d) + t) == Ok((d, t))
  {
    hide GoodButBody, GoodBody, PutDeed, TakeDeed, PutBody, TakeBody;
    DeedUpToBody(d, t);
    BodyRound(d.body, t);
  }

  lemma DeedBytesRound(d: Deed)
    requires Good(d)
    ensures DeedFromBytes(DeedBytes(d)) == Ok(d)
  {
    hide PutDeed, TakeDeed, Good;
    DeedRound(d, []);
    assert PutDeed(d) + [] == PutDeed(d);
  }

  /** Two deeds with one canonical form are one deed. */
  lemma DeedBytesInjective(d: Deed, e: Deed)
    requires Good(d) && Good(e) && DeedBytes(d) == DeedBytes(e)
    ensures d == e
  {
    DeedBytesRound(d);
    DeedBytesRound(e);
  }

  lemma EvidenceRound(e: Evidence, t: bytes)
    requires GoodEvidence(e)
    ensures TakeEvidence(PutEvidence(e) + t) == Ok((e, t))
  {
    hide GoodId, Short, GoodProduced, GoodGrants, ParseId;
    hide PutStr, TakeStr, PutList, TakeList, PutProduced, TakeProduced, PutU64, TakeU64, PutU32, TakeU32;
    GoodIdParses(e.deedId);
    var t4 := PutU32(|e.signature|) + e.signature;
    var t3 := PutU64(e.time) + t4;
    var t2 := PutList(PutGrant, e.grants) + t3;
    var t1 := PutProduced(e.producedBy) + t2;
    Cut(PutStr(e.deedId), t1, t);
    StrRound(e.deedId, t1 + t);
    Cut(PutProduced(e.producedBy), t2, t);
    ProducedRound(e.producedBy, t2 + t);
    Cut(PutList(PutGrant, e.grants), t3, t);
    GrantsRound(e.grants, t3 + t);
    Cut(PutU64(e.time), t4, t);
    U64Round(e.time, t4 + t);
    Cut(PutU32(|e.signature|), e.signature, t);
    U32Round(|e.signature|, e.signature + t);
    var r := PutU32(|e.signature|) + (e.signature + t);
    assert r[4..4 + |e.signature|] == e.signature;
    assert r[4 + |e.signature|..] == t;
  }
}
