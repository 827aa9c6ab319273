/** What reads back is well formed: a deed taken from any octets can be written
    again and read back, unless a message identifier in it has outgrown its
    length prefix. */
module Decoded {
  import opened Prelude
  import opened Text
  import opened Deeds
  import opened Wire
  import opened WireProofs

  // ---------- cutting UTF-8 where a character starts ----------

  lemma {:induction false} Utf8Cut(a: bytes, b: bytes)
    requires IsUtf8(a + b) && (b == [] || !Tail(b[0]))
    ensures IsUtf8(a) && IsUtf8(b)
    decreases |a|
  {
    if a == [] {
      assert a + b == b;
    } else {
      var n := CharLen(a + b);
      CharWithin(a, b);
      assert (a + b)[n..] == a[n..] + b;
      Utf8Cut(a[n..], b);
    }
  }

  /** A character does not run over the start of another. */
  lemma CharWithin(a: bytes, b: bytes)
    requires a != [] && CharLen(a + b) > 0 && (b == [] || !Tail(b[0]))
    ensures CharLen(a + b) <= |a| && CharLen(a) == CharLen(a + b)
  {
    var t, n := a + b, CharLen(a + b);
    assert forall i :: 0 < i < n ==> Tail(t[i]);
    assert |a| < |t| ==> t[|a|] == b[0];
    assert forall i :: 0 <= i < |a| ==> t[i] == a[i];
  }

  lemma {:induction false} TrimStartUtf8(t: bytes)
    requires IsUtf8(t)
    ensures IsUtf8(TrimStart(t))
    decreases |t|
  {
    if SpaceLen(t) > 0 {
      assert CharLen(t) == SpaceLen(t);
      TrimStartUtf8(t[SpaceLen(t)..]);
    }
  }

  lemma {:induction false} TrimEndUtf8(t: bytes)
    requires IsUtf8(t)
    ensures IsUtf8(TrimEnd(t))
    decreases |t|
  {
    var n := SpaceLenEnd(t);
    if n > 0 {
      var k := |t| - n;
      assert t == t[..k] + t[k..];
      Utf8Cut(t[..k], t[k..]);
      TrimEndUtf8(t[..k]);
    }
  }

  lemma InnerUtf8(t: bytes)
    requires IsUtf8(t)
    ensures IsUtf8(Inner(t))
  {
    var n := |t|;
    if n >= 2 && t[0] == LESS && t[n - 1] == MORE {
      assert t == [LESS] + t[1..];
      assert CharLen(t) == 1;
      assert t[1..] == t[1..n - 1] + [MORE];
      Utf8Cut(t[1..n - 1], [MORE]);
    }
  }

  lemma MessageIdUtf8(raw: bytes)
    requires IsUtf8(raw) && ParseMessageId(raw).Ok?
    ensures IsUtf8(ParseMessageId(raw).value)
  {
    hide IsUtf8, TrimStart, TrimEnd, Inner, GoodParts;
    TrimStartUtf8(raw);
    TrimEndUtf8(TrimStart(raw));
    var t := Inner(Trim(raw));
    InnerUtf8(Trim(raw));
    var (local, domain) := SplitOnce(t, AT).value;
    assert t == local + ([AT] + domain);
    Utf8Cut(local, [AT] + domain);
    AfterAscii(AT, domain);
    BracketsUtf8(local, domain);
  }

  lemma BracketsUtf8(local: bytes, domain: bytes)
    requires IsUtf8(local) && IsUtf8(domain)
    ensures IsUtf8([LESS] + local + [AT] + domain + [MORE])
  {
    hide IsUtf8;
    Utf8Ascii([LESS]);
    Utf8Ascii([AT]);
    Utf8Ascii([MORE]);
    Utf8Concat([LESS], local);
    Utf8Concat([LESS] + local, [AT]);
    Utf8Concat([LESS] + local + [AT], domain);
    Utf8Concat([LESS] + local + [AT] + domain, [MORE]);
  }

  lemma AfterAscii(c: byte, t: bytes)
    requires c < 0x80 && IsUtf8([c] + t)
    ensures IsUtf8(t)
  {
    assert CharLen([c] + t) == 1;
    assert ([c] + t)[1..] == t;
  }

  // ---------- lists ----------

  lemma {:induction false} ManyTaken<T(!new)>(take: Take<T>, good: T -> bool, n: nat, p: bytes)
    requires forall q :: take(q).Ok? ==> good(take(q).value.0)
    requires TakeMany(take, n, p).Ok?
    ensures var xs := TakeMany(take, n, p).value.0;
            |xs| == n && forall x :: x in xs ==> good(x)
    decreases n
  {
    if n > 0 {
      ManyTaken(take, good, n - 1, take(p).value.1);
    }
  }

  lemma ListTaken<T(!new)>(take: Take<T>, good: T -> bool, p: bytes)
    requires forall q :: take(q).Ok? ==> good(take(q).value.0)
    requires TakeList(take, p).Ok?
    ensures var xs := TakeList(take, p).value.0;
            |xs| < U32 && forall x :: x in xs ==> good(x)
  {
    U32Bound(p);
    ManyTaken(take, good, TakeU32(p).value, p[4..]);
  }

  lemma U32Bound(p: bytes)
    ensures TakeU32(p).Ok? ==> TakeU32(p).value < U32
  {
    if |p| >= 4 {
      Widths();
      FromLittleBound(p[..4]);
    }
  }

  lemma U64Bound(p: bytes)
    ensures TakeU64(p).Ok? ==> TakeU64(p).value.0 < U64
  {
    if |p| >= 8 {
      Widths();
      FromLittleBound(p[..8]);
    }
  }

  lemma StrTaken(p: bytes)
    ensures TakeStr(p).Ok? ==> Short(TakeStr(p).value.0)
  {
    U32Bound(p);
  }

  lemma OptionTaken(p: bytes)
    ensures TakeOption(p).Ok? ==> ShortOption(TakeOption(p).value.0)
  {
    StrTaken(p);
  }

  lemma StrsTaken(p: bytes)
    ensures TakeList(TakeStr, p).Ok? ==> AllShort(TakeList(TakeStr, p).value.0)
  {
    hide TakeStr, Short, TakeList;
    forall q {
      StrTaken(q);
    }
    if TakeList(TakeStr, p).Ok? {
      ListTaken(TakeStr, s => Short(s), p);
    }
  }

  lemma PairTaken(p: bytes)
    ensures TakePair(p).Ok? ==> var x := TakePair(p).value.0; Short(x.name) && Short(x.value)
  {
    hide TakeStr, Short;
    StrTaken(p);
    if TakeStr(p).Ok? {
      StrTaken(TakeStr(p).value.1);
    }
  }

  lemma PairsTaken(p: bytes)
    ensures TakeList(TakePair, p).Ok? ==> GoodPairs(TakeList(TakePair, p).value.0)
  {
    hide TakePair, Short, TakeList;
    forall q {
      PairTaken(q);
    }
    if TakeList(TakePair, p).Ok? {
      ListTaken(TakePair, (x: Pair) => Short(x.name) && Short(x.value), p);
    }
  }

  lemma StepsTaken(p: bytes)
    ensures TakeList(TakeStep, p).Ok? ==> GoodSteps(TakeList(TakeStep, p).value.0)
  {
    hide TakeStr, Short, TakeList;
    forall q {
      StrTaken(q);
    }
    if TakeList(TakeStep, p).Ok? {
      ListTaken(TakeStep, (x: ProcedureStep) => Short(x.text), p);
    }
  }

  lemma SourceTaken(p: bytes)
    ensures TakeSource(p).Ok? ==> GoodSource(TakeSource(p).value.0)
  {
    hide TakeStr, Short, ParseUrl, ParseId;
    if p != [] {
      StrTaken(p[1..]);
      if TakeStr(p[1..]).Ok? {
        var s := TakeStr(p[1..]).value.0;
        IdParsed(s);
        UrlParsed(s);
      }
    }
  }

  lemma IdParsed(s: bytes)
    ensures ParseId(s).Ok? ==> IsId(s) && ParseId(s).value == s
  {
  }

  lemma UrlParsed(s: bytes)
    ensures ParseUrl(s).Ok? ==> ParseUrl(s).value == SourceUrl(s)
  {
  }

  lemma SourcesTaken(p: bytes)
    ensures TakeList(TakeSource, p).Ok? ==> GoodSources(TakeList(TakeSource, p).value.0)
  {
    hide TakeSource, GoodSource, TakeList;
    forall q {
      SourceTaken(q);
    }
    if TakeList(TakeSource, p).Ok? {
      ListTaken(TakeSource, s => GoodSource(s), p);
    }
  }

  lemma GrantsTaken(p: bytes)
    ensures TakeList(TakeGrant, p).Ok? ==> GoodGrants(TakeList(TakeGrant, p).value.0)
  {
    hide TakeStr, Short, TakeList;
    forall q ensures TakeGrant(q).Ok? ==> GoodGrant(TakeGrant(q).value.0)
    {
      if q != [] {
        StrTaken(q[1..]);
      }
    }
    hide TakeGrant, GoodGrant;
    if TakeList(TakeGrant, p).Ok? {
      ListTaken(TakeGrant, g => GoodGrant(g), p);
    }
  }

  lemma ProducedTaken(p: bytes)
    ensures TakeProduced(p).Ok? ==> GoodProduced(TakeProduced(p).value.0)
  {
    hide TakeStr, Short, TakeOption, ShortOption;
    StrTaken(p);
    if TakeStr(p).Ok? {
      OptionTaken(TakeStr(p).value.1);
    }
  }

  // ---------- bodies ----------

  /** Message identifiers that fit a length prefix. Reading one adds the angle
      brackets it lacks, so it can outgrow the prefix it was read under. */
  predicate MessageFits(b: Body) {
    b.MailBody? ==> |b.messageId| < U32 && (b.inReplyTo.Some? ==> |b.inReplyTo.value| < U32)
  }

  lemma QuoteTaken(p: bytes)
    requires TakeQuote(p).Ok?
    ensures GoodBody(TakeQuote(p).value.0)
  {
    hide Short, AllShort, TakeStr, TakeU64, TakeList;
    var (edition, r1) := TakeStr(p).value;
    var (start, r2) := TakeU64(r1).value;
    var (end, r3) := TakeU64(r2).value;
    var (excerpt, r4) := TakeStr(r3).value;
    StrTaken(p);
    U64Bound(r1);
    U64Bound(r2);
    StrTaken(r3);
    StrsTaken(r4);
  }

  lemma PatchTaken(p: bytes)
    requires TakePatch(p).Ok?
    ensures GoodBody(TakePatch(p).value.0)
  {
    hide Short, AllShort, TakeStr, TakeList;
    var (tree, r1) := TakeStr(p).value;
    var (diffs, r2) := TakeList(TakeStr, r1).value;
    StrTaken(p);
    StrsTaken(r1);
    StrsTaken(r2);
  }

  lemma ClipTaken(p: bytes)
    requires TakeClip(p).Ok?
    ensures GoodBody(TakeClip(p).value.0)
  {
    hide Short, AllShort, TakeStr, TakeU64, TakeList;
    var (sources, r1) := TakeList(TakeStr, p).value;
    var (inPoint, r2) := TakeU64(r1).value;
    var (outPoint, r3) := TakeU64(r2).value;
    var (duration, r4) := TakeU64(r3).value;
    StrsTaken(p);
    U64Bound(r1);
    U64Bound(r2);
    U64Bound(r3);
    StrTaken(r4);
  }

  lemma FormTaken(p: bytes)
    requires TakeForm(p).Ok?
    ensures GoodBody(TakeForm(p).value.0)
  {
    hide Short, GoodPairs, TakeStr, TakeList;
    var (blank, r1) := TakeStr(p).value;
    var (fields, r2) := TakeList(TakePair, r1).value;
    StrTaken(p);
    PairsTaken(r1);
    StrTaken(r2);
  }

  lemma EventTaken(p: bytes)
    requires TakeEvent(p).Ok?
    ensures GoodBody(TakeEvent(p).value.0)
  {
    hide Short, TakeStr;
    var (when, r1) := TakeStr(p).value;
    var (where_, r2) := TakeStr(r1).value;
    StrTaken(p);
    StrTaken(r1);
    StrTaken(r2);
  }

  lemma SmallTaken(p: bytes)
    ensures TakeFile(p).Ok? ==> GoodBody(TakeFile(p).value.0)
    ensures TakeSet(p).Ok? ==> GoodBody(TakeSet(p).value.0)
    ensures TakePage(p).Ok? ==> GoodBody(TakePage(p).value.0)
    ensures TakeTable(p).Ok? ==> GoodBody(TakeTable(p).value.0)
    ensures TakeProcedure(p).Ok? ==> GoodBody(TakeProcedure(p).value.0)
  {
    hide Short, ShortOption, AllShort, GoodPairs, GoodSteps, TakeStr, TakeOption, TakeList;
    StrTaken(p);
    PairsTaken(p);
    StepsTaken(p);
    if TakeStr(p).Ok? {
      var r := TakeStr(p).value.1;
      OptionTaken(r);
      StrsTaken(r);
      StrTaken(r);
    }
  }

  /** A message identifier read from text is one parsing gives back. */
  lemma MessageTaken(raw: bytes)
    requires IsUtf8(raw) && ParseMessageId(raw).Ok?
    ensures var m := ParseMessageId(raw).value;
            IsMessageId(m) && IsUtf8(m) && (GoodMessageId(m) <==> |m| < U32)
  {
    hide ParseMessageId, IsUtf8;
    MessageIdIdempotent(raw);
    MessageIdUtf8(raw);
  }

  lemma ShortIsUtf8(s: bytes)
    requires Short(s)
    ensures IsUtf8(s)
  {
  }

  lemma MailTaken(p: bytes)
    requires TakeMail(p).Ok?
    ensures GoodBody(TakeMail(p).value.0) <==> MessageFits(TakeMail(p).value.0)
  {
    hide Short, TakeStr, TakeOption, ParseMessageId, GoodMessageId, IsMessageId, IsUtf8;
    var (mid, r1) := TakeStr(p).value;
    var (irt, r2) := TakeOption(r1).value;
    var (subject, r3) := TakeStr(r2).value;
    StrTaken(p);
    ShortIsUtf8(mid);
    MessageTaken(mid);
    OptionTaken(r1);
    if irt.Some? {
      ShortIsUtf8(irt.value);
      MessageTaken(irt.value);
    }
    StrTaken(r2);
    StrTaken(r3);
  }

  lemma BodyTaken(p: bytes)
    requires TakeBody(p).Ok?
    ensures GoodBody(TakeBody(p).value.0) <==> MessageFits(TakeBody(p).value.0)
  {
    var q := p[1..];
    if p[0] == 4 {
      MailTaken(q);
    } else {
      OtherBodyTaken(p);
    }
  }

  lemma OtherBodyTaken(p: bytes)
    requires TakeBody(p).Ok? && p[0] != 4
    ensures GoodBody(TakeBody(p).value.0) && !TakeBody(p).value.0.MailBody?
  {
    NoMail(p[1..]);
    hide GoodBody, TakeFile, TakeSet, TakeQuote, TakePatch, TakeClip, TakePage, TakeForm, TakeMail;
    hide TakeTable, TakeProcedure, TakeEvent;
    var q := p[1..];
    SmallTaken(q);
    if p[0] == 2 {
      QuoteTaken(q);
    } else if p[0] == 3 {
      PatchTaken(q);
    } else if p[0] == 5 {
      ClipTaken(q);
    } else if p[0] == 7 {
      FormTaken(q);
    } else if p[0] == 10 {
      EventTaken(q);
    }
  }

  lemma NoMail(q: bytes)
    ensures TakeFile(q).Ok? ==> TakeFile(q).value.0.FileBody?
    ensures TakeSet(q).Ok? ==> TakeSet(q).value.0.SetBody?
    ensures TakeQuote(q).Ok? ==> TakeQuote(q).value.0.QuoteBody?
    ensures TakePatch(q).Ok? ==> TakePatch(q).value.0.PatchBody?
    ensures TakeClip(q).Ok? ==> TakeClip(q).value.0.ClipBody?
    ensures TakePage(q).Ok? ==> TakePage(q).value.0.PageBody?
    ensures TakeForm(q).Ok? ==> TakeForm(q).value.0.FormBody?
    ensures TakeTable(q).Ok? ==> TakeTable(q).value.0.TableBody?
    ensures TakeProcedure(q).Ok? ==> TakeProcedure(q).value.0.ProcedureBody?
    ensures TakeEvent(q).Ok? ==> TakeEvent(q).value.0.EventBody?
  {
    hide TakeStr, TakeOption, TakeU64, TakeList;
  }

  // ---------- deeds ----------

  /** Every field before the body of a deed read from any octets is well formed,
      and so is the body when its message identifiers fit their prefixes. */
  lemma DeedTaken(p: bytes)
    requires TakeDeed(p).Ok?
    ensures GoodButBody(TakeDeed(p).value.0)
    ensures Good(TakeDeed(p).value.0) <==> MessageFits(TakeDeed(p).value.0.body)
  {
    hide Short, AllShort, GoodSources, GoodProduced, GoodGrants, GoodBody, MessageFits, ParseId, IsId;
    hide TakeStr, TakeList, TakeProduced, TakeBody, TakeKind, TakeFace;
    var (raw, r1) := TakeStr(p).value;
    var (kind, r2) := TakeKind(r1).value;
    var (name, r3) := TakeStr(r2).value;
    var (paths, r4) := TakeList(TakeStr, r3).value;
    var (sources, r5) := TakeList(TakeSource, r4).value;
    var (producedBy, r6) := TakeProduced(r5).value;
    var (grants, r7) := TakeList(TakeGrant, r6).value;
    var (face, r8) := TakeFace(r7).value;
    StrTaken(p);
    IdParsed(raw);
    StrTaken(r2);
    StrsTaken(r3);
    SourcesTaken(r4);
    ProducedTaken(r5);
    GrantsTaken(r6);
    BodyTaken(r8);
  }

  // ---------- reading back what was read ----------

  /** A message identifier read from `raw` is at most two octets longer. */
  predicate ReadFrom(m: bytes, raw: bytes) {
    ParseMessageId(raw) == Ok(m)
  }

  /** The text a prefix gives back when the length was kept modulo 2^32. */
  lemma StrLength(m: bytes, t: bytes)
    ensures TakeStr(PutStr(m) + t).Ok? ==> |TakeStr(PutStr(m) + t).value.0| == |m| % U32
  {
    var p := PutStr(m) + t;
    Cut(PutU32(|m|), m, t);
    assert p[..4] == PutU32(|m|);
    LittleModulo(|m|);
  }

  lemma LittleModulo(n: nat)
    ensures FromLittle(PutU32(n)) == n % U32
  {
    hide FromLittle, PutU32;
    FourDigits(n);
    FourOctets(n % 256, n / 256 % 256, n / 256 / 256 % 256, n / 256 / 256 / 256 % 256);
    FourParts(n);
  }

  lemma FourParts(n: nat)
    ensures n % 256 + 256 * (n / 256 % 256) + 65536 * (n / 256 / 256 % 256) + 16777216 * (n / 256 / 256 / 256 % 256)
            == n % U32
  {
    var q1 := n / 256;
    var q2 := q1 / 256;
    var q3 := q2 / 256;
    var q4 := q3 / 256;
    LowPart(n, q1, q2, q3, q4, n % 256, q1 % 256, q2 % 256, q3 % 256);
  }

  lemma LowPart(n: nat, q1: nat, q2: nat, q3: nat, q4: nat, a: byte, b: byte, c: byte, d: byte)
    requires n == 256 * q1 + a && q1 == 256 * q2 + b && q2 == 256 * q3 + c && q3 == 256 * q4 + d
    ensures n % U32 == a + 256 * b + 65536 * c + 16777216 * d
  {
    assert n == U32 * q4 + (a + 256 * b + 65536 * c + 16777216 * d);
  }

  lemma FourDigits(n: nat)
    ensures PutU32(n) == [n % 256, n / 256 % 256, n / 256 / 256 % 256, n / 256 / 256 / 256 % 256]
  {
    assert Little(n / 256 / 256 / 256 / 256, 0) == [];
    assert Little(n / 256 / 256 / 256, 1) == [n / 256 / 256 / 256 % 256];
    assert Little(n / 256 / 256, 2) == [n / 256 / 256 % 256, n / 256 / 256 / 256 % 256];
    assert Little(n / 256, 3) == [n / 256 % 256, n / 256 / 256 % 256, n / 256 / 256 / 256 % 256];
  }

  lemma FourOctets(a: byte, b: byte, c: byte, d: byte)
    ensures FromLittle([a, b, c, d]) == a + 256 * b + 65536 * c + 16777216 * d
  {
    assert [a, b, c, d][1..] == [b, c, d] && [b, c, d][1..] == [c, d] && [c, d][1..] == [d] && [d][1..] == [];
    assert FromLittle([d]) == d;
    assert FromLittle([c, d]) == c + 256 * d;
    assert FromLittle([b, c, d]) == b + 256 * (c + 256 * d);
  }

  /** Oversized by so little, a written identifier's prefix is 0 or 1. */
  lemma OutgrownIsLost(m: bytes, raw: bytes, back: bytes)
    requires ParseMessageId(raw) == Ok(m) && |raw| < U32 && |back| == |m| % U32 && |m| >= U32
    ensures ParseMessageId(back) != Ok(m)
  {
    hide ParseMessageId;
    MessageIdIdempotent(raw);
    if ParseMessageId(back) == Ok(m) {
      MessageIdIdempotent(back);
      assert false;
    }
  }

  lemma MailFrom(p: bytes)
    requires TakeMail(p).Ok?
    ensures var b := TakeMail(p).value.0;
            && b.MailBody?
            && (exists raw :: ReadFrom(b.messageId, raw) && |raw| < U32)
            && (b.inReplyTo.Some? ==> exists raw :: ReadFrom(b.inReplyTo.value, raw) && |raw| < U32)
  {
    hide TakeStr, ParseMessageId;
    var (mid, r1) := TakeStr(p).value;
    StrTaken(p);
    StrTaken(r1);
    assert ReadFrom(TakeMail(p).value.0.messageId, mid);
    var (irt, r2) := TakeOption(r1).value;
    if irt.Some? {
      assert ReadFrom(TakeMail(p).value.0.inReplyTo.value, irt.value);
    }
  }

  /** A mail body read from any octets is not read back when it has outgrown a
      prefix. */
  lemma MailLost(p: bytes, t: bytes)
    requires TakeMail(p).Ok? && !MessageFits(TakeMail(p).value.0)
    ensures var b := TakeMail(p).value.0;
            TakeMail(PutFields(b) + t).Ok? ==> TakeMail(PutFields(b) + t).value.0 != b
  {
    hide TakeStr, PutStr, ParseMessageId;
    var b := TakeMail(p).value.0;
    MailFrom(p);
    var t2 := PutStr(b.subject) + PutStr(b.path);
    var t1 := PutOption(b.inReplyTo) + t2;
    Cut(PutStr(b.messageId), t1, t);
    StrLength(b.messageId, t1 + t);
    if TakeMail(PutFields(b) + t).Ok? {
      var (mid, r1) := TakeStr(PutStr(b.messageId) + (t1 + t)).value;
      if |b.messageId| >= U32 {
        var raw :| ReadFrom(b.messageId, raw) && |raw| < U32;
        OutgrownIsLost(b.messageId, raw, mid);
      } else {
        ReplyLost(p, t1, t2, t);
      }
    }
  }

  lemma ReplyLost(p: bytes, t1: bytes, t2: bytes, t: bytes)
    requires TakeMail(p).Ok?
    requires var b := TakeMail(p).value.0;
             && |b.messageId| < U32 && b.inReplyTo.Some? && |b.inReplyTo.value| >= U32
             && t1 == PutOption(b.inReplyTo) + t2 && PutFields(b) == PutStr(b.messageId) + t1
             && TakeMail(PutFields(b) + t).Ok?
    ensures TakeMail(PutFields(TakeMail(p).value.0) + t).value.0 != TakeMail(p).value.0
  {
    hide TakeStr, PutStr, ParseMessageId, PutFields, Short, GoodMessageId, IsMessageId, IsUtf8;
    var b := TakeMail(p).value.0;
    MailFrom(p);
    MessageShort(p);
    Cut(PutStr(b.messageId), t1, t);
    StrRound(b.messageId, t1 + t);
    Cut(PutOption(b.inReplyTo), t2, t);
    StrLength(b.inReplyTo.value, t2 + t);
    var (irt, r2) := TakeOption(t1 + t).value;
    if irt.Some? {
      var raw :| ReadFrom(b.inReplyTo.value, raw) && |raw| < U32;
      OutgrownIsLost(b.inReplyTo.value, raw, irt.value);
    }
  }

  lemma MessageShort(p: bytes)
    requires TakeMail(p).Ok? && |TakeMail(p).value.0.messageId| < U32
    ensures Short(TakeMail(p).value.0.messageId)
  {
    hide TakeStr, TakeOption, ParseMessageId, IsMessageId, IsUtf8;
    var (mid, r1) := TakeStr(p).value;
    StrTaken(p);
    ShortIsUtf8(mid);
    MessageTaken(mid);
  }

  lemma OnlyMail(p: bytes)
    requires TakeBody(p).Ok? && TakeBody(p).value.0.MailBody?
    ensures p != [] && TakeBody(p) == TakeMail(p[1..])
  {
    hide TakeFile, TakeSet, TakeQuote, TakePatch, TakeMail, TakeClip, TakePage, TakeForm;
    hide TakeTable, TakeProcedure, TakeEvent;
    if p[0] != 4 {
      OtherBodyTaken(p);
      assert false;
    }
  }

  lemma MailTag(b: Body, t: bytes)
    requires b.MailBody?
    ensures TakeBody(PutBody(b) + t) == TakeMail(PutFields(b) + t)
  {
    hide TakeMail, PutFields;
    Tagged(BodyTag(b), PutFields(b), t);
  }

  lemma BodyLost(p: bytes, t: bytes)
    requires TakeBody(p).Ok? && !MessageFits(TakeBody(p).value.0)
    ensures var b := TakeBody(p).value.0;
            TakeBody(PutBody(b) + t).Ok? ==> TakeBody(PutBody(b) + t).value.0 != b
  {
    hide TakeBody, TakeMail, PutBody, PutFields;
    OnlyMail(p);
    MailLost(p[1..], t);
    MailTag(TakeBody(p).value.0, t);
  }

  /** Reading never leaves more than it was given. */
  lemma {:induction false} ManyShrinks<T(!new)>(take: Take<T>, n: nat, p: bytes)
    requires forall q :: take(q).Ok? ==> |take(q).value.1| <= |q|
    requires TakeMany(take, n, p).Ok?
    ensures |TakeMany(take, n, p).value.1| <= |p|
    decreases n
  {
    if n > 0 {
      ManyShrinks(take, n - 1, take(p).value.1);
    }
  }

  lemma ListShrinks<T(!new)>(take: Take<T>, p: bytes)
    requires forall q :: take(q).Ok? ==> |take(q).value.1| <= |q|
    requires TakeList(take, p).Ok?
    ensures |TakeList(take, p).value.1| <= |p|
  {
    ManyShrinks(take, TakeU32(p).value, p[4..]);
  }

  lemma SmallShrink(p: bytes)
    ensures TakeStr(p).Ok? ==> |TakeStr(p).value.1| <= |p|
    ensures TakeKind(p).Ok? ==> |TakeKind(p).value.1| <= |p|
    ensures TakeFace(p).Ok? ==> |TakeFace(p).value.1| <= |p|
  {
    hide IsUtf8, FromLittle;
  }

  lemma ItemsShrink(p: bytes)
    ensures TakeList(TakeStr, p).Ok? ==> |TakeList(TakeStr, p).value.1| <= |p|
    ensures TakeList(TakeSource, p).Ok? ==> |TakeList(TakeSource, p).value.1| <= |p|
    ensures TakeList(TakeGrant, p).Ok? ==> |TakeList(TakeGrant, p).value.1| <= |p|
    ensures TakeProduced(p).Ok? ==> |TakeProduced(p).value.1| <= |p|
  {
    hide TakeStr, TakeList, ParseId, ParseUrl;
    forall q
      ensures TakeStr(q).Ok? ==> |TakeStr(q).value.1| <= |q|
    {
      SmallShrink(q);
    }
    forall q
      ensures TakeSource(q).Ok? ==> |TakeSource(q).value.1| <= |q|
      ensures TakeGrant(q).Ok? ==> |TakeGrant(q).value.1| <= |q|
    {
    }
    if TakeList(TakeStr, p).Ok? {
      ListShrinks(TakeStr, p);
    }
    if TakeList(TakeSource, p).Ok? {
      ListShrinks(TakeSource, p);
    }
    if TakeList(TakeGrant, p).Ok? {
      ListShrinks(TakeGrant, p);
    }
  }

  lemma DeedBody(p: bytes) returns (q: bytes)
    requires TakeDeed(p).Ok?
    ensures TakeBody(q).Ok? && TakeBody(q).value.0 == TakeDeed(p).value.0.body && |q| <= |p|
  {
    hide TakeStr, TakeList, TakeProduced, TakeBody, TakeKind, TakeFace, ParseId;
    var (raw, r1) := TakeStr(p).value;
    var (kind, r2) := TakeKind(r1).value;
    var (name, r3) := TakeStr(r2).value;
    var (paths, r4) := TakeList(TakeStr, r3).value;
    var (sources, r5) := TakeList(TakeSource, r4).value;
    var (producedBy, r6) := TakeProduced(r5).value;
    var (grants, r7) := TakeList(TakeGrant, r6).value;
    var (face, r8) := TakeFace(r7).value;
    SmallShrink(p);
    SmallShrink(r1);
    SmallShrink(r2);
    ItemsShrink(r3);
    ItemsShrink(r4);
    ItemsShrink(r5);
    ItemsShrink(r6);
    SmallShrink(r7);
    q := r8;
  }

  /** A deed read from any octets reads back from its canonical form exactly
      when its message identifiers fit their prefixes. */
  lemma Reencodes(b: bytes)
    requires DeedFromBytes(b).Ok?
    ensures var d := DeedFromBytes(b).value;
            && (Good(d) <==> MessageFits(d.body))
            && (DeedFromBytes(DeedBytes(d)) == Ok(d) <==> MessageFits(d.body))
  {
    hide TakeDeed, GoodButBody, GoodBody, MessageFits, PutDeed, TakeBody, PutBody;
    var d := DeedFromBytes(b).value;
    DeedTaken(b);
    if MessageFits(d.body) {
      DeedBytesRound(d);
    } else {
      var q := DeedBody(b);
      DeedUpToBody(d, []);
      BodyLost(q, []);
      assert PutDeed(d) + [] == PutDeed(d);
    }
  }

  /** The longest text a prefix carries, and a message identifier. */
  function LongId(): bytes {
    seq(U32 - 11, _ => 97) + [AT] + Ascii("localhost")
  }

  lemma LongIdParses()
    ensures Short(LongId()) && ParseMessageId(LongId()) == Ok([LESS] + LongId() + [MORE]) && |LongId()| == U32 - 1
  {
    hide IsUtf8, HasSpace, SplitOnce;
    var local, domain := seq(U32 - 11, _ => 97), Ascii("localhost");
    var t := LongId();
    assert t == local + [AT] + domain;
    assert domain == [108, 111, 99, 97, 108, 104, 111, 115, 116];
    Utf8Ascii(t);
    assert t[0] == 97 && t[|t| - 1] == 116 && t[|t| - 2] == 115 && t[|t| - 3] == 111;
    assert SpaceLen(t) == 0 && SpaceLenEnd(t) == 0;
    NoSpace(local);
    NoSpace(domain);
    SplitOnceAt(local, AT, domain);
    assert [LESS] + t + [MORE] == [LESS] + local + [AT] + domain + [MORE];
  }

  lemma NoSpace(t: bytes)
    requires forall i :: 0 <= i < |t| ==> 97 <= t[i] <= 122
    ensures !HasSpace(t)
  {
    forall i | 0 <= i < |t|
      ensures SpaceLen(t[i..]) == 0
    {
      assert t[i..][0] == t[i];
    }
  }

  function MailOf(m: bytes): Body {
    MailBody(m, None, [], [])
  }

  lemma LongMailReads()
    ensures TakeMail(PutFields(MailOf(LongId()))) == Ok((MailOf([LESS] + LongId() + [MORE]), []))
  {
    hide TakeStr, PutStr, LongId, ParseMessageId, IsUtf8;
    var raw, none := LongId(), PutStr([]);
    LongIdParses();
    EmptyShort();
    StrRound(raw, none + (none + none));
    StrRound([], none + none);
    StrRound([], none);
    StrRound([], []);
    assert none + [] == none;
  }

  /** There are octets that read as a deed whose canonical form does not read
      back as that deed: its message identifier came without angle brackets and
      filled its prefix. */
  lemma SomeAreLost()
    ensures exists b :: DeedFromBytes(b).Ok? && DeedFromBytes(DeedBytes(DeedFromBytes(b).value)) != DeedFromBytes(b)
  {
    hide TakeBody, PutBody, TakeMail, PutFields, LongId, TakeDeed, PutDeed, GoodButBody;
    var id := Ascii("deed-mailDraft-a");
    var d := Deed(id, MailDraft, [], [], [], ProducedBy([], None), [], Document, MailOf(LongId()));
    PlainDeed(id, d);
    LongIdParses();
    LongMailReads();
    MailTag(d.body, []);
    assert PutFields(d.body) + [] == PutFields(d.body);
    DeedUpToBody(d, []);
    assert PutDeed(d) + [] == PutDeed(d);
    var read := d.(body := MailOf([LESS] + LongId() + [MORE]));
    assert DeedFromBytes(DeedBytes(d)) == Ok(read);
    Reencodes(DeedBytes(d));
    assert !MessageFits(read.body);
  }

  lemma PlainDeed(id: bytes, d: Deed)
    requires id == Ascii("deed-mailDraft-a")
    requires d.id == id && d.name == [] && d.paths == [] && d.sources == [] && d.grants == []
    requires d.producedBy == ProducedBy([], None)
    ensures GoodButBody(d)
  {
    hide IsUtf8, IsId, Ascii;
    EmptyShort();
    PlainId();
  }

  lemma PlainId()
    ensures GoodId(Ascii("deed-mailDraft-a"))
  {
    hide IsUtf8, SplitOnce;
    var id, kind, slug := Ascii("deed-mailDraft-a"), Token(MailDraft), [97];
    assert id == Ascii("deed-") + (kind + [45] + slug);
    SplitOnceAt(kind, 45, slug);
    assert IsKind(kind);
    IdIsPlain(id);
  }

  /** From fewer than 2^32 octets every identifier read fits. */
  lemma FewOctetsFit(p: bytes)
    requires TakeDeed(p).Ok? && |p| < U32
    ensures MessageFits(TakeDeed(p).value.0.body) && Good(TakeDeed(p).value.0)
  {
    hide TakeDeed, GoodButBody, GoodBody, MessageFits, TakeBody;
    DeedTaken(p);
    var q := DeedBody(p);
    BodyFits(q);
  }

  lemma BodyFits(p: bytes)
    requires TakeBody(p).Ok? && |p| < U32
    ensures MessageFits(TakeBody(p).value.0)
  {
    hide TakeBody, TakeMail;
    if TakeBody(p).value.0.MailBody? {
      OnlyMail(p);
      MailFits(p[1..]);
    }
  }

  lemma MailFits(p: bytes)
    requires TakeMail(p).Ok? && |p| < U32
    ensures MessageFits(TakeMail(p).value.0)
  {
    hide ParseMessageId, IsUtf8, FromLittle;
    var (mid, r1) := TakeStr(p).value;
    var (irt, r2) := TakeOption(r1).value;
    MessageIdIdempotent(mid);
    if irt.Some? {
      MessageIdIdempotent(irt.value);
    }
  }
}
