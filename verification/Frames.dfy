/** Requests and responses in their frames: eight octets of magic, a revision,
    a length, then one operation octet and its fields. */
module Frames {
  import opened Prelude
  import opened Text
  import opened Deeds
  import opened Wire
  import opened WireProofs

  datatype CreateRequest = CreateRequest(
    id: Option<bytes>, name: bytes, sources: seq<Source>, agent: bytes, activity: Option<bytes>,
    grants: seq<Grant>, body: Body, supersedes: Option<bytes>)

  datatype Request =
    | Create(create: CreateRequest)
    | Get(id: bytes)
    | List
    | Trail(id: bytes)
    | Delete(id: bytes)
    | AskEvidence(id: bytes)
    | Leave(id: bytes, dest: bytes)
    | Timestamp(id: bytes)
    | Current(id: bytes)

  datatype Response =
    | OneDeed(deed: Deed)
    | Created(deed: Deed, evidence: Evidence)
    | ManyDeeds(deeds: seq<Deed>)
    | OneEvidence(evidence: Evidence)
    | Done
    | Failed(message: bytes)

  // ---------- the frame ----------

  function Header(n: nat): (h: bytes)
    ensures |h| == 16
  {
    Ascii("CapNdeed") + PutU32(1) + PutU32(n)
  }

  function Wrap(payload: bytes): bytes {
    Header(|payload|) + payload
  }

  function Unwrap(b: bytes): Result<bytes> {
    if |b| < 16 || b[..8] != Ascii("CapNdeed") then Err(Decode)
    else if FromLittle(b[8..12]) != 1 then Err(Decode)
    else
      var n := FromLittle(b[12..16]);
      if |b| < 16 + n then Err(Decode) else Ok(b[16..16 + n])
  }

  /** A frame gives its payload back, whatever follows it. */
  lemma WrapRound(payload: bytes, t: bytes)
    requires |payload| < U32
    ensures Unwrap(Wrap(payload) + t) == Ok(payload)
  {
    hide Ascii;
    var b := Wrap(payload) + t;
    Widths();
    LittleRound(1, 4);
    LittleRound(|payload|, 4);
    assert b[..8] == Ascii("CapNdeed");
    assert b[8..12] == PutU32(1);
    assert b[12..16] == PutU32(|payload|);
    assert b[16..16 + |payload|] == payload;
  }

  // ---------- create requests ----------

  function PutCreate(c: CreateRequest): bytes {
    PutOption(c.id) + (PutStr(c.name) + (PutList(PutSource, c.sources) + (PutStr(c.agent) + (PutOption(c.activity)
    + (PutList(PutGrant, c.grants) + (PutBody(c.body) + PutOption(c.supersedes)))))))
  }

  function ParseOptional(o: Option<bytes>): Result<Option<bytes>> {
    match o
    case None => Ok(None)
    case Some(raw) => var id :- ParseId(raw); Ok(Some(id))
  }

  /** A request with nothing after its body supersedes nothing. */
  function TakeSupersedes(rest: bytes): Result<Option<bytes>> {
    if rest == [] then Ok(None)
    else
      var (o, _) :- TakeOption(rest);
      ParseOptional(o)
  }

  function TakeCreate(p: bytes): Result<CreateRequest> {
    var (raw, r) :- TakeOption(p);
    var (name, r) :- TakeStr(r);
    var (sources, r) :- TakeList(TakeSource, r);
    var (agent, r) :- TakeStr(r);
    var (activity, r) :- TakeOption(r);
    var (grants, r) :- TakeList(TakeGrant, r);
    var (body, rest) :- TakeBody(r);
    var supersedes :- TakeSupersedes(rest);
    var id :- ParseOptional(raw);
    Ok(CreateRequest(id, name, sources, agent, activity, grants, body, supersedes))
  }

  predicate GoodCreate(c: CreateRequest) {
    && (c.id.Some? ==> GoodId(c.id.value)) && Short(c.name) && GoodSources(c.sources) && Short(c.agent)
    && ShortOption(c.activity) && GoodGrants(c.grants) && GoodBody(c.body)
    && (c.supersedes.Some? ==> GoodId(c.supersedes.value))
  }

  lemma OptionalId(o: Option<bytes>)
    requires o.Some? ==> GoodId(o.value)
    ensures ShortOption(o) && ParseOptional(o) == Ok(o)
  {
    if o.Some? {
      IdIsPlain(o.value);
    }
  }

  lemma CreateRound(c: CreateRequest)
    requires GoodCreate(c)
    ensures TakeCreate(PutCreate(c)) == Ok(c)
  {
    hide GoodId, Short, ShortOption, GoodSources, GoodGrants, GoodBody, ParseOptional;
    hide PutStr, TakeStr, PutOption, TakeOption, PutList, TakeList, PutBody, TakeBody;
    OptionalId(c.id);
    OptionalId(c.supersedes);
    var t7 := PutOption(c.supersedes);
    var t6 := PutBody(c.body) + t7;
    var t5 := PutList(PutGrant, c.grants) + t6;
    var t4 := PutOption(c.activity) + t5;
    var t3 := PutStr(c.agent) + t4;
    var t2 := PutList(PutSource, c.sources) + t3;
    OptionRound(c.id, PutStr(c.name) + t2);
    StrRound(c.name, t2);
    SourcesRound(c.sources, t3);
    StrRound(c.agent, t4);
    OptionRound(c.activity, t5);
    GrantsRound(c.grants, t6);
    BodyRound(c.body, t7);
    OptionLength(c.supersedes);
    OptionRound(c.supersedes, []);
    assert t7 + [] == t7;
  }

  lemma OptionLength(o: Option<bytes>)
    ensures PutOption(o) != []
  {
  }

  // ---------- requests ----------

  function RequestPayload(q: Request): bytes {
    match q
    case Create(c) => [0] + PutCreate(c)
    case Get(id) => [1] + PutStr(id)
    case List => [2]
    case Trail(id) => [3] + PutStr(id)
    case Delete(id) => [4] + PutStr(id)
    case AskEvidence(id) => [5] + PutStr(id)
    case Leave(id, dest) => [6] + (PutStr(id) + PutStr(dest))
    case Timestamp(id) => [7] + PutStr(id)
    case Current(id) => [8] + PutStr(id)
  }

  function EncodeRequest(q: Request): bytes {
    Wrap(RequestPayload(q))
  }

  function TakeId(p: bytes): Result<bytes> {
    var (raw, _) :- TakeStr(p);
    ParseId(raw)
  }

  function TakeLeave(p: bytes): Result<Request> {
    var (raw, r) :- TakeStr(p);
    var (dest, _) :- TakeStr(r);
    var id :- ParseId(raw);
    Ok(Leave(id, dest))
  }

  function RequestOf(p: bytes): Result<Request> {
    if p == [] then Err(Decode)
    else
      var op, rest := p[0], p[1..];
      if op == 0 then (var c :- TakeCreate(rest); Ok(Create(c)))
      else if op == 1 then (var id :- TakeId(rest); Ok(Get(id)))
      else if op == 2 then Ok(List)
      else if op == 3 then (var id :- TakeId(rest); Ok(Trail(id)))
      else if op == 4 then (var id :- TakeId(rest); Ok(Delete(id)))
      else if op == 5 then (var id :- TakeId(rest); Ok(AskEvidence(id)))
      else if op == 6 then TakeLeave(rest)
      else if op == 7 then (var id :- TakeId(rest); Ok(Timestamp(id)))
      else if op == 8 then (var id :- TakeId(rest); Ok(Current(id)))
      else Err(Decode)
  }

  function DecodeRequest(b: bytes): Result<Request> {
    var p :- Unwrap(b);
    RequestOf(p)
  }

  predicate GoodRequest(q: Request) {
    match q
    case Create(c) => GoodCreate(c)
    case List => true
    case Leave(id, dest) => GoodId(id) && Short(dest)
    case _ => GoodId(q.id)
  }

  lemma IdRound(id: bytes)
    requires GoodId(id)
    ensures TakeId(PutStr(id)) == Ok(id)
  {
    GoodIdParses(id);
    StrRound(id, []);
    assert PutStr(id) + [] == PutStr(id);
  }

  lemma LeaveRound(id: bytes, dest: bytes)
    requires GoodId(id) && Short(dest)
    ensures TakeLeave(PutStr(id) + PutStr(dest)) == Ok(Leave(id, dest))
  {
    hide PutStr, TakeStr;
    GoodIdParses(id);
    StrRound(id, PutStr(dest));
    StrRound(dest, []);
    assert PutStr(dest) + [] == PutStr(dest);
  }

  /** A request survives its frame, whatever follows it, when its payload fits
      the frame's length. */
  lemma RequestRound(q: Request, t: bytes)
    requires GoodRequest(q) && |RequestPayload(q)| < U32
    ensures DecodeRequest(EncodeRequest(q) + t) == Ok(q)
  {
    hide GoodCreate, GoodId, Short, PutCreate, TakeCreate, PutStr, TakeId, TakeLeave, Wrap, Unwrap;
    WrapRound(RequestPayload(q), t);
    match q {
      case Create(c) => CreateRound(c);
      case List =>
      case Leave(id, dest) => LeaveRound(id, dest);
      case _ => IdRound(q.id);
    }
  }

  // ---------- responses ----------

  function ResponsePayload(s: Response): bytes {
    match s
    case OneDeed(d) => [10] + PutDeed(d)
    case Created(d, e) => [11] + (PutDeed(d) + PutEvidence(e))
    case ManyDeeds(ds) => [12] + PutList(PutDeed, ds)
    case Done => [13]
    case Failed(message) => [14] + PutStr(message)
    case OneEvidence(e) => [15] + PutEvidence(e)
  }

  function EncodeResponse(s: Response): bytes {
    Wrap(ResponsePayload(s))
  }

  function TakeCreated(p: bytes): Result<Response> {
    var (d, r) :- TakeDeed(p);
    var (e, _) :- TakeEvidence(r);
    Ok(Created(d, e))
  }

  function ResponseOf(p: bytes): Result<Response> {
    if p == [] then Err(Decode)
    else
      var op, rest := p[0], p[1..];
      if op == 10 then (var (d, _) :- TakeDeed(rest); Ok(OneDeed(d)))
      else if op == 11 then TakeCreated(rest)
      else if op == 12 then (var (ds, _) :- TakeList(TakeDeed, rest); Ok(ManyDeeds(ds)))
      else if op == 13 then Ok(Done)
      else if op == 14 then (var (message, _) :- TakeStr(rest); Ok(Failed(message)))
      else if op == 15 then (var (e, _) :- TakeEvidence(rest); Ok(OneEvidence(e)))
      else Err(Decode)
  }

  function DecodeResponse(b: bytes): Result<Response> {
    var p :- Unwrap(b);
    ResponseOf(p)
  }

  predicate GoodResponse(s: Response) {
    match s
    case OneDeed(d) => Good(d)
    case Created(d, e) => Good(d) && GoodEvidence(e)
    case ManyDeeds(ds) => |ds| < U32 && forall d :: d in ds ==> Good(d)
    case Done => true
    case Failed(message) => Short(message)
    case OneEvidence(e) => GoodEvidence(e)
  }

  lemma CreatedRound(d: Deed, e: Evidence)
    requires Good(d) && GoodEvidence(e)
    ensures TakeCreated(PutDeed(d) + PutEvidence(e)) == Ok(Created(d, e))
  {
    hide PutDeed, TakeDeed, PutEvidence, TakeEvidence;
    DeedRound(d, PutEvidence(e));
    EvidenceRound(e, []);
    assert PutEvidence(e) + [] == PutEvidence(e);
  }

  lemma DeedsRound(ds: seq<Deed>)
    requires |ds| < U32 && forall d :: d in ds ==> Good(d)
    ensures TakeList(TakeDeed, PutList(PutDeed, ds)) == Ok((ds, []))
  {
    hide PutDeed, TakeDeed, Good, PutList, TakeList;
    forall d | d in ds
      ensures Inverse(PutDeed, TakeDeed, d)
    {
      forall t {
        DeedRound(d, t);
      }
    }
    ListRound(PutDeed, TakeDeed, ds, []);
    assert PutList(PutDeed, ds) + [] == PutList(PutDeed, ds);
  }

  /** A response survives its frame, whatever follows it, when its payload fits
      the frame's length. */
  lemma ResponseRound(s: Response, t: bytes)
    requires GoodResponse(s) && |ResponsePayload(s)| < U32
    ensures DecodeResponse(EncodeResponse(s) + t) == Ok(s)
  {
    hide Good, GoodEvidence, PutDeed, TakeDeed, PutEvidence, TakeEvidence, PutList, TakeList, PutStr, TakeStr;
    hide TakeCreated, Wrap, Unwrap;
    WrapRound(ResponsePayload(s), t);
    match s {
      case OneDeed(d) =>
        DeedRound(d, []);
        assert PutDeed(d) + [] == PutDeed(d);
      case Created(d, e) => CreatedRound(d, e);
      case ManyDeeds(ds) => DeedsRound(ds);
      case Done =>
      case Failed(message) =>
        StrRound(message, []);
        assert PutStr(message) + [] == PutStr(message);
      case OneEvidence(e) =>
        EvidenceRound(e, []);
        assert PutEvidence(e) + [] == PutEvidence(e);
    }
  }
}
