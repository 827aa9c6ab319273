/** The codec as the source runs it: records appended to one growing buffer,
    and a cursor advanced over the octets read. */
module Buffers {
  import opened Prelude
  import opened Deeds
  import opened Wire

  class Buffer {
    var p: bytes

    constructor ()
      ensures p == []
    {
      p := [];
    }

    method Extend(b: bytes)
      modifies this
      ensures p == old(p) + b
    {
      p := p + b;
    }

    method PutItems<T>(put: Put<T>, xs: seq<T>)
      modifies this
      ensures p == old(p) + PutList(put, xs)
    {
      Extend(PutU32(|xs|));
      for i := 0 to |xs|
        invariant p + PutMany(put, xs[i..]) == old(p) + PutList(put, xs)
      {
        Cut(p, put(xs[i]), PutMany(put, xs[i + 1..]));
        assert xs[i..][0] == xs[i] && xs[i..][1..] == xs[i + 1..];
        Extend(put(xs[i]));
      }
      assert PutMany(put, xs[|xs|..]) == [];
    }

    method AppendBody(b: Body)
      modifies this
      ensures p == old(p) + PutBody(b)
    {
      hide PutStr, PutList, PutOption, PutU64, KindTag;
      ghost var start := p + [BodyTag(b)];
      Extend([BodyTag(b)]);
      match b {
        case SetBody(title, members) =>
          Extend(PutStr(title));
          PutItems(PutStr, members);
          Cut(start, PutStr(title), PutList(PutStr, members));
        case PatchBody(tree, diffs, functionaries) =>
          Extend(PutStr(tree));
          PutItems(PutStr, diffs);
          PutItems(PutStr, functionaries);
          Cut(start, PutStr(tree), PutList(PutStr, diffs));
          Cut(start, PutStr(tree) + PutList(PutStr, diffs), PutList(PutStr, functionaries));
          Cut(PutStr(tree), PutList(PutStr, diffs), PutList(PutStr, functionaries));
        case FormBody(blank, fields, path) =>
          Extend(PutStr(blank));
          PutItems(PutPair, fields);
          Extend(PutStr(path));
          Cut(start, PutStr(blank), PutList(PutPair, fields));
          Cut(start, PutStr(blank) + PutList(PutPair, fields), PutStr(path));
          Cut(PutStr(blank), PutList(PutPair, fields), PutStr(path));
        case TableBody(measures) =>
          PutItems(PutPair, measures);
        case ProcedureBody(steps) =>
          PutItems(PutStep, steps);
        case _ =>
          Extend(PutFields(b));
      }
      assert p == start + PutFields(b);
      Cut(old(p), [BodyTag(b)], PutFields(b));
    }

    method AppendDeed(d: Deed)
      modifies this
      ensures p == old(p) + PutDeed(d)
    {
      hide PutStr, PutList, PutBody, PutProduced;
      Extend(PutStr(d.id));
      Extend([KindTag(d.kind)]);
      Extend(PutStr(d.name));
      PutItems(PutStr, d.paths);
      PutItems(PutSource, d.sources);
      Extend(PutProduced(d.producedBy));
      PutItems(PutGrant, d.grants);
      Extend([FaceTag(d.face)]);
      AppendBody(d.body);
    }
  }

  method TakeItems<T>(take: Take<T>, start: bytes) returns (r: Result<(seq<T>, bytes)>)
    ensures r == TakeList(take, start)
  {
    var count := TakeU32(start);
    if count.Err? {
      return Err(count.error);
    }
    var n, p, xs := count.value, start[4..], [];
    assert TakeMany(take, n, p).Ok? ==> xs + TakeMany(take, n, p).value.0 == TakeMany(take, n, p).value.0;
    for i := 0 to n
      invariant TakeList(take, start) ==
                match TakeMany(take, n - i, p)
                case Err(e) => Err(e)
                case Ok((rest, t)) => Ok((xs + rest, t))
    {
      var x := take(p);
      if x.Err? {
        return Err(x.error);
      }
      ghost var more := TakeMany(take, n - i - 1, x.value.1);
      if more.Ok? {
        assert xs + ([x.value.0] + more.value.0) == xs + [x.value.0] + more.value.0;
      }
      xs, p := xs + [x.value.0], x.value.1;
    }
    assert xs + [] == xs;
    return Ok((xs, p));
  }

  method ReadDeed(start: bytes) returns (r: Result<(Deed, bytes)>)
    ensures r == TakeDeed(start)
  {
    hide TakeStr, TakeList, TakeProduced, TakeBody, TakeKind, TakeFace;
    var raw := TakeStr(start);
    if raw.Err? { return Err(raw.error); }
    var kind := TakeKind(raw.value.1);
    if kind.Err? { return Err(kind.error); }
    var name := TakeStr(kind.value.1);
    if name.Err? { return Err(name.error); }
    var paths := TakeItems(TakeStr, name.value.1);
    if paths.Err? { return Err(paths.error); }
    var sources := TakeItems(TakeSource, paths.value.1);
    if sources.Err? { return Err(sources.error); }
    var producedBy := TakeProduced(sources.value.1);
    if producedBy.Err? { return Err(producedBy.error); }
    var grants := TakeItems(TakeGrant, producedBy.value.1);
    if grants.Err? { return Err(grants.error); }
    var face := TakeFace(grants.value.1);
    if face.Err? { return Err(face.error); }
    var body := TakeBody(face.value.1);
    if body.Err? { return Err(body.error); }
    var id := ParseId(raw.value.0);
    if id.Err? { return Err(id.error); }
    return Ok((Deed(id.value, kind.value.0, name.value.0, paths.value.0, sources.value.0, producedBy.value.0,
                    grants.value.0, face.value.0, body.value.0), body.value.1));
  }
}
