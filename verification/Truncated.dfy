/** A deed's octets cut short never read as a deed, so a cap file over a deed
    too long for its frame cannot be read. */
module Truncated {
  import opened Prelude
  import opened Text
  import opened Deeds
  import opened Wire
  import opened WireProofs
  import Decoded
  import Frames

  /** What is read does not depend on what comes after it. */
  predicate Stays<T(==)>(take: Take<T>, p: bytes, t: bytes)
    requires take(p).Ok?
  {
    take(p + t) == Ok((take(p).value.0, take(p).value.1 + t))
  }

  ghost predicate Steady<T(!new)>(take: Take<T>) {
    forall p, t :: take(p).Ok? ==> Stays(take, p, t)
  }

  // ---------- items ----------

  lemma U32Steady(p: bytes, t: bytes)
    requires TakeU32(p).Ok?
    ensures TakeU32(p + t) == TakeU32(p) && (p + t)[4..] == p[4..] + t
  {
    assert (p + t)[..4] == p[..4];
  }

  lemma StrSteady(p: bytes, t: bytes)
    requires TakeStr(p).Ok?
    ensures Stays(TakeStr, p, t)
  {
    hide IsUtf8;
    U32Steady(p, t);
    var n := TakeU32(p).value;
    assert (p + t)[4..4 + n] == p[4..4 + n] && (p + t)[4 + n..] == p[4 + n..] + t;
  }

  lemma U64Steady(p: bytes, t: bytes)
    requires TakeU64(p).Ok?
    ensures Stays(TakeU64, p, t)
  {
    assert (p + t)[..8] == p[..8] && (p + t)[8..] == p[8..] + t;
  }

  lemma OptionSteady(p: bytes, t: bytes)
    requires TakeOption(p).Ok?
    ensures Stays(TakeOption, p, t)
  {
    hide TakeStr;
    StrSteady(p, t);
  }

  /** The octet a tagged value starts with, and what follows it. */
  lemma TagSteady(p: bytes, t: bytes)
    requires p != []
    ensures p + t != [] && (p + t)[0] == p[0] && (p + t)[1..] == p[1..] + t
  {
  }

  lemma SourceSteady(p: bytes, t: bytes)
    requires TakeSource(p).Ok?
    ensures Stays(TakeSource, p, t)
  {
    hide TakeStr, ParseId, ParseUrl;
    TagSteady(p, t);
    StrSteady(p[1..], t);
  }

  lemma GrantSteady(p: bytes, t: bytes)
    requires TakeGrant(p).Ok?
    ensures Stays(TakeGrant, p, t)
  {
    hide TakeStr;
    TagSteady(p, t);
    StrSteady(p[1..], t);
  }

  lemma ProducedSteady(p: bytes, t: bytes)
    requires TakeProduced(p).Ok?
    ensures Stays(TakeProduced, p, t)
  {
    hide TakeStr, TakeOption;
    StrSteady(p, t);
    OptionSteady(TakeStr(p).value.1, t);
  }

  lemma PairSteady(p: bytes, t: bytes)
    requires TakePair(p).Ok?
    ensures Stays(TakePair, p, t)
  {
    hide TakeStr;
    StrSteady(p, t);
    StrSteady(TakeStr(p).value.1, t);
  }

  lemma StepSteady(p: bytes, t: bytes)
    requires TakeStep(p).Ok?
    ensures Stays(TakeStep, p, t)
  {
    hide TakeStr;
    StrSteady(p, t);
    TagSteady(TakeStr(p).value.1, t);
  }

  lemma KindSteady(p: bytes, t: bytes)
    requires TakeKind(p).Ok?
    ensures Stays(TakeKind, p, t)
  {
    TagSteady(p, t);
  }

  lemma FaceSteady(p: bytes, t: bytes)
    requires TakeFace(p).Ok?
    ensures Stays(TakeFace, p, t)
  {
    TagSteady(p, t);
  }

  // ---------- lists ----------

  lemma {:induction false} ManySteady<T(!new)>(take: Take<T>, n: nat, p: bytes, t: bytes)
    requires Steady(take) && TakeMany(take, n, p).Ok?
    ensures TakeMany(take, n, p + t) == Ok((TakeMany(take, n, p).value.0, TakeMany(take, n, p).value.1 + t))
    decreases n
  {
    if n > 0 {
      assert Stays(take, p, t);
      ManySteady(take, n - 1, take(p).value.1, t);
    }
  }

  lemma ListSteady<T(!new)>(take: Take<T>, p: bytes, t: bytes)
    requires Steady(take) && TakeList(take, p).Ok?
    ensures TakeList(take, p + t) == Ok((TakeList(take, p).value.0, TakeList(take, p).value.1 + t))
  {
    hide Steady;
    U32Steady(p, t);
    ManySteady(take, TakeU32(p).value, p[4..], t);
  }

  lemma ItemsSteady()
    ensures Steady(TakeStr) && Steady(TakeSource) && Steady(TakeGrant) && Steady(TakePair) && Steady(TakeStep)
  {
    hide TakeStr, TakeSource, TakeGrant, TakePair, TakeStep, Stays;
    forall p, t
      ensures TakeStr(p).Ok? ==> Stays(TakeStr, p, t)
      ensures TakeSource(p).Ok? ==> Stays(TakeSource, p, t)
      ensures TakeGrant(p).Ok? ==> Stays(TakeGrant, p, t)
      ensures TakePair(p).Ok? ==> Stays(TakePair, p, t)
      ensures TakeStep(p).Ok? ==> Stays(TakeStep, p, t)
    {
      if TakeStr(p).Ok? {
        StrSteady(p, t);
      }
      if TakeSource(p).Ok? {
        SourceSteady(p, t);
      }
      if TakeGrant(p).Ok? {
        GrantSteady(p, t);
      }
      if TakePair(p).Ok? {
        PairSteady(p, t);
      }
      if TakeStep(p).Ok? {
        StepSteady(p, t);
      }
    }
  }

  // ---------- bodies ----------

  lemma QuoteSteady(p: bytes, t: bytes)
    requires TakeQuote(p).Ok?
    ensures Stays(TakeQuote, p, t)
  {
    hide TakeStr, TakeU64, TakeList, Steady;
    ItemsSteady();
    var (edition, r1) := TakeStr(p).value;
    var (start, r2) := TakeU64(r1).value;
    var (end, r3) := TakeU64(r2).value;
    var (excerpt, r4) := TakeStr(r3).value;
    StrSteady(p, t);
    U64Steady(r1, t);
    U64Steady(r2, t);
    StrSteady(r3, t);
    ListSteady(TakeStr, r4, t);
  }

  lemma PatchSteady(p: bytes, t: bytes)
    requires TakePatch(p).Ok?
    ensures Stays(TakePatch, p, t)
  {
    hide TakeStr, TakeList, Steady;
    ItemsSteady();
    var (tree, r1) := TakeStr(p).value;
    var (diffs, r2) := TakeList(TakeStr, r1).value;
    StrSteady(p, t);
    ListSteady(TakeStr, r1, t);
    ListSteady(TakeStr, r2, t);
  }

  lemma MailSteady(p: bytes, t: bytes)
    requires TakeMail(p).Ok?
    ensures Stays(TakeMail, p, t)
  {
    hide TakeStr, TakeOption, ParseMessageId, ParseOptionalId;
    var (mid, r1) := TakeStr(p).value;
    var (irt, r2) := TakeOption(r1).value;
    var (subject, r3) := TakeStr(r2).value;
    StrSteady(p, t);
    OptionSteady(r1, t);
    StrSteady(r2, t);
    StrSteady(r3, t);
  }

  lemma ClipSteady(p: bytes, t: bytes)
    requires TakeClip(p).Ok?
    ensures Stays(TakeClip, p, t)
  {
    hide TakeStr, TakeU64, TakeList, Steady;
    ItemsSteady();
    var (sources, r1) := TakeList(TakeStr, p).value;
    var (inPoint, r2) := TakeU64(r1).value;
    var (outPoint, r3) := TakeU64(r2).value;
    var (duration, r4) := TakeU64(r3).value;
    ListSteady(TakeStr, p, t);
    U64Steady(r1, t);
    U64Steady(r2, t);
    U64Steady(r3, t);
    StrSteady(r4, t);
  }

  lemma FormSteady(p: bytes, t: bytes)
    requires TakeForm(p).Ok?
    ensures Stays(TakeForm, p, t)
  {
    hide TakeStr, TakeList, Steady;
    ItemsSteady();
    var (blank, r1) := TakeStr(p).value;
    var (fields, r2) := TakeList(TakePair, r1).value;
    StrSteady(p, t);
    ListSteady(TakePair, r1, t);
    StrSteady(r2, t);
  }

  lemma EventSteady(p: bytes, t: bytes)
    requires TakeEvent(p).Ok?
    ensures Stays(TakeEvent, p, t)
  {
    hide TakeStr;
    var (when, r1) := TakeStr(p).value;
    var (where_, r2) := TakeStr(r1).value;
    StrSteady(p, t);
    StrSteady(r1, t);
    StrSteady(r2, t);
  }

  /** The bodies of one or two fields. */
  lemma SmallSteady(p: bytes, t: bytes)
    ensures TakeFile(p).Ok? ==> Stays(TakeFile, p, t)
    ensures TakeSet(p).Ok? ==> Stays(TakeSet, p, t)
    ensures TakePage(p).Ok? ==> Stays(TakePage, p, t)
    ensures TakeTable(p).Ok? ==> Stays(TakeTable, p, t)
    ensures TakeProcedure(p).Ok? ==> Stays(TakeProcedure, p, t)
  {
    hide TakeStr, TakeOption, TakeList, Steady;
    ItemsSteady();
    if TakeStr(p).Ok? {
      var r := TakeStr(p).value.1;
      StrSteady(p, t);
      if TakeOption(r).Ok? {
        OptionSteady(r, t);
      }
      if TakeList(TakeStr, r).Ok? {
        ListSteady(TakeStr, r, t);
      }
      if TakeStr(r).Ok? {
        StrSteady(r, t);
      }
    }
    if TakeList(TakePair, p).Ok? {
      ListSteady(TakePair, p, t);
    }
    if TakeList(TakeStep, p).Ok? {
      ListSteady(TakeStep, p, t);
    }
  }

  lemma BodySteady(p: bytes, t: bytes)
    requires TakeBody(p).Ok?
    ensures Stays(TakeBody, p, t)
  {
    hide TakeFile, TakeSet, TakeQuote, TakePatch, TakeMail, TakeClip, TakePage, TakeForm;
    hide TakeTable, TakeProcedure, TakeEvent;
    TagSteady(p, t);
    var q := p[1..];
    SmallSteady(q, t);
    if p[0] == 2 {
      QuoteSteady(q, t);
    } else if p[0] == 3 {
      PatchSteady(q, t);
    } else if p[0] == 4 {
      MailSteady(q, t);
    } else if p[0] == 5 {
      ClipSteady(q, t);
    } else if p[0] == 7 {
      FormSteady(q, t);
    } else if p[0] == 10 {
      EventSteady(q, t);
    }
  }

  // ---------- deeds ----------

  /** A deed read from some octets is the deed read from them with more after. */
  lemma DeedSteady(p: bytes, t: bytes)
    requires TakeDeed(p).Ok?
    ensures TakeDeed(p + t) == Ok((TakeDeed(p).value.0, TakeDeed(p).value.1 + t))
  {
    hide TakeStr, TakeList, TakeProduced, TakeBody, TakeKind, TakeFace, ParseId, Steady;
    ItemsSteady();
    var (raw, r1) := TakeStr(p).value;
    var (kind, r2) := TakeKind(r1).value;
    var (name, r3) := TakeStr(r2).value;
    var (paths, r4) := TakeList(TakeStr, r3).value;
    var (sources, r5) := TakeList(TakeSource, r4).value;
    var (producedBy, r6) := TakeProduced(r5).value;
    var (grants, r7) := TakeList(TakeGrant, r6).value;
    var (face, r8) := TakeFace(r7).value;
    StrSteady(p, t);
    KindSteady(r1, t);
    StrSteady(r2, t);
    ListSteady(TakeStr, r3, t);
    ListSteady(TakeSource, r4, t);
    ProducedSteady(r5, t);
    ListSteady(TakeGrant, r6, t);
    FaceSteady(r7, t);
    BodySteady(r8, t);
  }

  /** Cut anywhere before its end, a well-formed deed's encoding reads as no
      deed at all. */
  lemma CutIsLost(d: Deed, n: nat)
    requires Good(d) && n < |PutDeed(d)|
    ensures TakeDeed(PutDeed(d)[..n]).Err?
  {
    hide Good, PutDeed, TakeDeed;
    var p, t := PutDeed(d)[..n], PutDeed(d)[n..];
    assert p + t == PutDeed(d) == PutDeed(d) + [];
    DeedRound(d, []);
    if TakeDeed(p).Ok? {
      DeedSteady(p, t);
      assert false;
    }
  }

  // ---------- the frame ----------

  /** A frame says its payload's length modulo 2^32. */
  lemma WrappedLength(payload: bytes)
    ensures Frames.Unwrap(Frames.Wrap(payload)) == Ok(payload[..|payload| % U32])
  {
    hide Ascii, FromLittle;
    var b := Frames.Wrap(payload);
    Decoded.LittleModulo(1);
    Decoded.LittleModulo(|payload|);
    assert b[..8] == Ascii("CapNdeed");
    assert b[8..12] == PutU32(1);
    assert b[12..16] == PutU32(|payload|);
    assert b[16..16 + |payload| % U32] == payload[..|payload| % U32];
  }

  /** The frame a store keeps a deed in gives the deed back if and only if its
      payload is below 2^32 octets. A longer one reads as nothing. */
  lemma FrameExact(d: Deed)
    requires Good(d)
    ensures var frame := Frames.EncodeResponse(Frames.OneDeed(d));
            && (Frames.DecodeResponse(frame) == Ok(Frames.OneDeed(d)) <==> |DeedBytes(d)| + 1 < U32)
            && (|DeedBytes(d)| + 1 >= U32 ==> Frames.DecodeResponse(frame).Err?)
  {
    hide Good, PutDeed, TakeDeed, Frames.Unwrap, Frames.Wrap, TakeList, TakeStr, TakeEvidence;
    var payload := Frames.ResponsePayload(Frames.OneDeed(d));
    WrappedLength(payload);
    if |payload| < U32 {
      DeedRound(d, []);
      assert PutDeed(d) + [] == PutDeed(d);
      assert payload[..|payload|] == payload;
    } else {
      var n := |payload| % U32;
      if n > 0 {
        assert payload[..n][0] == 10 && payload[..n][1..] == PutDeed(d)[..n - 1];
        CutIsLost(d, n - 1);
      }
    }
  }
}
