/** Receipts and bridges, as the text files that travel. */
module Receipt {
  import opened Prelude
  import opened Text
  import Hex
  import Merkle
  import Fields
  import Log

  // ---------- receipts ----------

  datatype Receipt = Receipt(
    id: bytes, digest: bytes, time: nat, index: nat, size: nat, root: bytes, path: seq<Digest>)

  function HeadOf(r: Receipt): Merkle.Head {
    Merkle.Head(r.size, r.root)
  }

  function EntryOf(r: Receipt): Log.Entry {
    Log.Entry(r.id, r.digest, r.time)
  }

  function PathFields(path: seq<Digest>): seq<Fields.Field> {
    if path == [] then [] else [(Ascii("path"), Hex.Render(path[0]))] + PathFields(path[1..])
  }

  function ReceiptFields(r: Receipt): seq<Fields.Field> {
    [(Ascii("id"), r.id), (Ascii("digest"), r.digest), (Ascii("time"), Decimal(r.time)),
     (Ascii("index"), Decimal(r.index)), (Ascii("size"), Decimal(r.size)), (Ascii("root"), r.root)]
    + PathFields(r.path)
  }

  function RenderReceipt(r: Receipt): bytes {
    Fields.Render(ReceiptFields(r))
  }

  /** The fields read so far. A key read twice keeps its last value. */
  datatype Draft = Draft(
    id: Option<bytes>, digest: Option<bytes>, time: Option<nat>, index: Option<nat>, size: Option<nat>,
    root: Option<bytes>, path: seq<Digest>)

  const NOTHING := Draft(None, None, None, None, None, None, [])

  function Number(value: bytes): Result<nat> {
    match ParseU64(value)
    case None => Err(Evidence)
    case Some(n) => Ok(n)
  }

  function ReceiptStep(d: Draft, key: bytes, value: bytes): Result<Draft> {
    if key == Ascii("id") then Ok(d.(id := Some(value)))
    else if key == Ascii("digest") then Ok(d.(digest := Some(value)))
    else if key == Ascii("time") then var n :- Number(value); Ok(d.(time := Some(n)))
    else if key == Ascii("index") then var n :- Number(value); Ok(d.(index := Some(n)))
    else if key == Ascii("size") then var n :- Number(value); Ok(d.(size := Some(n)))
    else if key == Ascii("root") then Ok(d.(root := Some(value)))
    else if key == Ascii("path") then
      match Hex.Parse(value)
      case None => Err(Evidence)
      case Some(step) => Ok(d.(path := d.path + [step]))
    else Err(Evidence)
  }

  /** No field has a default. */
  function Finish(d: Draft): Result<Receipt> {
    if d.id.Some? && d.digest.Some? && d.time.Some? && d.index.Some? && d.size.Some? && d.root.Some? then
      Ok(Receipt(d.id.value, d.digest.value, d.time.value, d.index.value, d.size.value, d.root.value, d.path))
    else Err(Evidence)
  }

  function ParseReceipt(text: bytes): Result<Receipt> {
    var d :- Fields.Parse(ReceiptStep, NOTHING, Lines(text));
    Finish(d)
  }

  method ReadReceipt(text: bytes) returns (r: Result<Receipt>)
    ensures r == ParseReceipt(text)
  {
    var d := Fields.Read(ReceiptStep, NOTHING, Lines(text));
    if d.Err? {
      return Err(d.error);
    }
    return Finish(d.value);
  }

  /** The numbers of a receipt fit the machine words they are kept in. */
  predicate Fits(r: Receipt) {
    r.time < U64 && r.index < U64 && r.size < U64
  }

  function Bare(t: bytes): bytes {
    StripSuffix(t, RETURN)
  }

  lemma KeyLetters()
    ensures Ascii("id")[0] == 105 && Ascii("to")[0] == 116
    ensures Ascii("time")[0] == 116 && Ascii("size")[0] == 115 && Ascii("root")[0] == 114
    ensures Ascii("path")[0] == 112 && Ascii("from")[0] == 102
  {
  }

  lemma KeysAreKeys()
    ensures Fields.IsKey(Ascii("id")) && Fields.IsKey(Ascii("digest")) && Fields.IsKey(Ascii("time"))
    ensures Fields.IsKey(Ascii("index")) && Fields.IsKey(Ascii("size")) && Fields.IsKey(Ascii("root"))
    ensures Fields.IsKey(Ascii("path")) && Fields.IsKey(Ascii("from")) && Fields.IsKey(Ascii("to"))
  {
  }

  /** Each key leads to the one field it names. */
  lemma Steps(d: Draft, value: bytes)
    ensures ReceiptStep(d, Ascii("id"), value) == Ok(d.(id := Some(value)))
    ensures ReceiptStep(d, Ascii("digest"), value) == Ok(d.(digest := Some(value)))
    ensures ReceiptStep(d, Ascii("root"), value) == Ok(d.(root := Some(value)))
    ensures Number(value).Ok? ==>
              && ReceiptStep(d, Ascii("time"), value) == Ok(d.(time := Some(Number(value).value)))
              && ReceiptStep(d, Ascii("index"), value) == Ok(d.(index := Some(Number(value).value)))
              && ReceiptStep(d, Ascii("size"), value) == Ok(d.(size := Some(Number(value).value)))
    ensures Hex.Parse(value).Some? ==>
              ReceiptStep(d, Ascii("path"), value) == Ok(d.(path := d.path + [Hex.Parse(value).value]))
  {
    hide Hex.Parse, Number;
    KeyLetters();
  }

  lemma HexPlain(d: Digest)
    ensures NEWLINE !in Hex.Render(d) && Bare(Hex.Render(d)) == Hex.Render(d)
    ensures Hex.Parse(Hex.Render(d)) == Some(d)
  {
    var t := Hex.Render(d);
    assert forall i :: 0 <= i < |t| ==> Hex.IsDigit(t[i]);
    Hex.RoundTrip(t, d);
  }

  lemma DecimalBare(n: nat)
    requires n < U64
    ensures NEWLINE !in Decimal(n) && Number(Bare(Decimal(n))) == Ok(n)
  {
    var t := Decimal(n);
    assert IsDigit(t[|t| - 1]);
    DecimalParses(n);
  }

  lemma {:induction false} PathFold(d: Draft, path: seq<Digest>)
    ensures Fields.Fold(ReceiptStep, d, PathFields(path)) == Ok(d.(path := d.path + path))
    decreases path
  {
    hide ReceiptStep, Hex.Parse, Bare;
    if path == [] {
      assert d.path + path == d.path;
    } else {
      HexPlain(path[0]);
      var next := d.(path := d.path + [path[0]]);
      Steps(d, Hex.Render(path[0]));
      PathFold(next, path[1..]);
      assert d.path + [path[0]] + path[1..] == d.path + path;
    }
  }

  lemma {:induction false} PathFieldsPlain(path: seq<Digest>)
    ensures forall f :: f in PathFields(path) ==> Fields.IsKey(f.0) && NEWLINE !in f.1
  {
    if path != [] {
      KeysAreKeys();
      HexPlain(path[0]);
      PathFieldsPlain(path[1..]);
    }
  }

  /** The value reading gives back for a field that no newline cuts. */
  function AsRead(r: Receipt): Receipt {
    r.(id := Bare(r.id), digest := Bare(r.digest), root := Bare(r.root))
  }

  predicate OneLineEach(r: Receipt) {
    NEWLINE !in r.id && NEWLINE !in r.digest && NEWLINE !in r.root
  }

  lemma FoldAt<A>(step: Fields.Step<A>, acc: A, fields: seq<Fields.Field>, i: nat, next: A)
    requires i < |fields| && step(acc, fields[i].0, Bare(fields[i].1)) == Ok(next)
    ensures Fields.Fold(step, acc, fields[i..]) == Fields.Fold(step, next, fields[i + 1..])
  {
    assert fields[i..][1..] == fields[i + 1..];
  }

  /** What the six fields before the path leave. */
  lemma SixFields(r: Receipt) returns (d: Draft)
    requires Fits(r)
    ensures d == Draft(Some(Bare(r.id)), Some(Bare(r.digest)), Some(r.time), Some(r.index), Some(r.size),
                       Some(Bare(r.root)), [])
    ensures Fields.Fold(ReceiptStep, NOTHING, ReceiptFields(r)) == Fields.Fold(ReceiptStep, d, PathFields(r.path))
  {
    hide ReceiptStep, Fields.Fold, Bare, Number, Ascii, Decimal, PathFields;
    DecimalBare(r.time);
    DecimalBare(r.index);
    DecimalBare(r.size);
    var fields := ReceiptFields(r);
    var values := [r.id, r.digest, Decimal(r.time), Decimal(r.index), Decimal(r.size), r.root];
    d := NOTHING;
    Steps(d, Bare(values[0]));
    FoldAt(ReceiptStep, d, fields, 0, d.(id := Some(Bare(r.id))));
    d := d.(id := Some(Bare(r.id)));
    Steps(d, Bare(values[1]));
    FoldAt(ReceiptStep, d, fields, 1, d.(digest := Some(Bare(r.digest))));
    d := d.(digest := Some(Bare(r.digest)));
    Steps(d, Bare(values[2]));
    FoldAt(ReceiptStep, d, fields, 2, d.(time := Some(r.time)));
    d := d.(time := Some(r.time));
    Steps(d, Bare(values[3]));
    FoldAt(ReceiptStep, d, fields, 3, d.(index := Some(r.index)));
    d := d.(index := Some(r.index));
    Steps(d, Bare(values[4]));
    FoldAt(ReceiptStep, d, fields, 4, d.(size := Some(r.size)));
    d := d.(size := Some(r.size));
    Steps(d, Bare(values[5]));
    FoldAt(ReceiptStep, d, fields, 5, d.(root := Some(Bare(r.root))));
    d := d.(root := Some(Bare(r.root)));
    assert fields[0..] == fields && fields[6..] == PathFields(r.path);
  }

  /** Where no field holds a newline, reading a rendered receipt gives back
      every field with one trailing carriage return dropped. */
  lemma ReadsBackBare(r: Receipt)
    requires Fits(r) && OneLineEach(r)
    ensures ParseReceipt(RenderReceipt(r)) == Ok(AsRead(r))
  {
    hide ReceiptStep, ReceiptFields, Fields.Parse, Fields.Fold, Fields.Render, Bare, Number, Lines;
    ReceiptFieldsPlain(r);
    Fields.RenderedFold(ReceiptStep, NOTHING, ReceiptFields(r));
    var d := SixFields(r);
    PathFold(d, r.path);
    assert d.path + r.path == r.path;
  }

  lemma ReceiptFieldsPlain(r: Receipt)
    requires OneLineEach(r)
    ensures forall f :: f in ReceiptFields(r) ==> Fields.IsKey(f.0) && NEWLINE !in f.1
  {
    hide Fields.IsKey, Ascii;
    KeysAreKeys();
    PathFieldsPlain(r.path);
  }

  ghost predicate DraftOneLine(d: Draft) {
    && (d.id.Some? ==> NEWLINE !in d.id.value)
    && (d.digest.Some? ==> NEWLINE !in d.digest.value)
    && (d.root.Some? ==> NEWLINE !in d.root.value)
    && (d.time.Some? ==> d.time.value < U64)
    && (d.index.Some? ==> d.index.value < U64)
    && (d.size.Some? ==> d.size.value < U64)
  }

  lemma StepOneLine(d: Draft, key: bytes, value: bytes)
    requires DraftOneLine(d) && NEWLINE !in value && ReceiptStep(d, key, value).Ok?
    ensures DraftOneLine(ReceiptStep(d, key, value).value)
  {
    hide DraftOneLine;
    NumberFits(value);
    StepFields(d, key, value);
    FieldsOneLine(d, ReceiptStep(d, key, value).value, value);
  }

  /** One step sets one field at most, to the value or to the number it is. */
  ghost predicate SetsOne(d: Draft, next: Draft, value: bytes) {
    && (next.id == d.id || next.id == Some(value))
    && (next.digest == d.digest || next.digest == Some(value))
    && (next.root == d.root || next.root == Some(value))
    && (next.time == d.time || (Number(value).Ok? && next.time == Some(Number(value).value)))
    && (next.index == d.index || (Number(value).Ok? && next.index == Some(Number(value).value)))
    && (next.size == d.size || (Number(value).Ok? && next.size == Some(Number(value).value)))
  }

  lemma StepFields(d: Draft, key: bytes, value: bytes)
    requires ReceiptStep(d, key, value).Ok?
    ensures SetsOne(d, ReceiptStep(d, key, value).value, value)
  {
    hide Ascii, Hex.Parse, Number;
  }

  lemma FieldsOneLine(d: Draft, next: Draft, value: bytes)
    requires DraftOneLine(d) && NEWLINE !in value && SetsOne(d, next, value)
    requires Number(value).Ok? ==> Number(value).value < U64
    ensures DraftOneLine(next)
  {
    hide Number;
  }

  lemma NumberFits(value: bytes)
    ensures Number(value).Ok? ==> Number(value).value < U64
  {
  }

  /** Whatever the text, a receipt read from it has no newline in a field and
      no number beyond 64 bits. */
  lemma ReceiptsReadPlain(text: bytes)
    requires ParseReceipt(text).Ok?
    ensures OneLineEach(ParseReceipt(text).value) && Fits(ParseReceipt(text).value)
  {
    hide ReceiptStep, DraftOneLine, Fields.Parse, Lines;
    LinesHaveNone(text);
    forall d, k, v | DraftOneLine(d) && NEWLINE !in v && ReceiptStep(d, k, v).Ok?
      ensures DraftOneLine(ReceiptStep(d, k, v).value)
    {
      StepOneLine(d, k, v);
    }
    NothingYet();
    Fields.ParseKeeps(ReceiptStep, d => DraftOneLine(d), NOTHING, Lines(text));
    FinishOneLine(Fields.Parse(ReceiptStep, NOTHING, Lines(text)).value);
  }

  lemma NothingYet()
    ensures DraftOneLine(NOTHING)
  {
  }

  lemma FinishOneLine(d: Draft)
    requires DraftOneLine(d) && Finish(d).Ok?
    ensures OneLineEach(Finish(d).value) && Fits(Finish(d).value)
  {
  }

  /** A receipt survives its file exactly when no text field of it holds a
      newline or ends in a carriage return. */
  lemma ReceiptRoundTrip(r: Receipt)
    requires Fits(r)
    ensures ParseReceipt(RenderReceipt(r)) == Ok(r) <==>
            LineSafe(r.id) && LineSafe(r.digest) && LineSafe(r.root)
  {
    hide ParseReceipt, RenderReceipt;
    if OneLineEach(r) {
      ReadsBackBare(r);
    } else if ParseReceipt(RenderReceipt(r)).Ok? {
      ReceiptsReadPlain(RenderReceipt(r));
    }
  }

  // ---------- bridges ----------

  datatype Bridge = Bridge(start: Merkle.Head, end: Merkle.Head, path: seq<Digest>)

  function HeadValue(h: Merkle.Head): bytes {
    Decimal(h.size) + [SPACE] + h.root
  }

  function ParseHead(value: bytes): Result<Merkle.Head> {
    match SplitOnce(value, SPACE)
    case None => Err(Evidence)
    case Some((size, root)) =>
      var n :- Number(size);
      Ok(Merkle.Head(n, root))
  }

  function BridgeFields(b: Bridge): seq<Fields.Field> {
    [(Ascii("from"), HeadValue(b.start)), (Ascii("to"), HeadValue(b.end))] + PathFields(b.path)
  }

  function RenderBridge(b: Bridge): bytes {
    Fields.Render(BridgeFields(b))
  }

  datatype BridgeDraft = BridgeDraft(start: Option<Merkle.Head>, end: Option<Merkle.Head>, path: seq<Digest>)

  function BridgeStep(d: BridgeDraft, key: bytes, value: bytes): Result<BridgeDraft> {
    if key == Ascii("from") then var h :- ParseHead(value); Ok(d.(start := Some(h)))
    else if key == Ascii("to") then var h :- ParseHead(value); Ok(d.(end := Some(h)))
    else if key == Ascii("path") then
      match Hex.Parse(value)
      case None => Err(Evidence)
      case Some(step) => Ok(d.(path := d.path + [step]))
    else Err(Evidence)
  }

  function ParseBridge(text: bytes): Result<Bridge> {
    var d :- Fields.Parse(BridgeStep, BridgeDraft(None, None, []), Lines(text));
    if d.start.Some? && d.end.Some? then Ok(Bridge(d.start.value, d.end.value, d.path)) else Err(Evidence)
  }

  method ReadBridge(text: bytes) returns (r: Result<Bridge>)
    ensures r == ParseBridge(text)
  {
    var d := Fields.Read(BridgeStep, BridgeDraft(None, None, []), Lines(text));
    if d.Err? {
      return Err(d.error);
    }
    var b := d.value;
    return if b.start.Some? && b.end.Some? then Ok(Bridge(b.start.value, b.end.value, b.path)) else Err(Evidence);
  }

  lemma BridgeSteps(d: BridgeDraft, value: bytes)
    ensures ParseHead(value).Ok? ==>
              && BridgeStep(d, Ascii("from"), value) == Ok(d.(start := Some(ParseHead(value).value)))
              && BridgeStep(d, Ascii("to"), value) == Ok(d.(end := Some(ParseHead(value).value)))
    ensures Hex.Parse(value).Some? ==>
              BridgeStep(d, Ascii("path"), value) == Ok(d.(path := d.path + [Hex.Parse(value).value]))
  {
    hide Hex.Parse, ParseHead;
    KeyLetters();
  }

  lemma {:induction false} BridgePathFold(d: BridgeDraft, path: seq<Digest>)
    ensures Fields.Fold(BridgeStep, d, PathFields(path)) == Ok(d.(path := d.path + path))
    decreases path
  {
    hide BridgeStep, Hex.Parse, Bare;
    if path == [] {
      assert d.path + path == d.path;
    } else {
      HexPlain(path[0]);
      var next := d.(path := d.path + [path[0]]);
      BridgeSteps(d, Hex.Render(path[0]));
      BridgePathFold(next, path[1..]);
      assert d.path + [path[0]] + path[1..] == d.path + path;
    }
  }

  lemma HeadReads(h: Merkle.Head)
    requires h.size < U64
    ensures ParseHead(Bare(HeadValue(h))) == Ok(h.(root := Bare(h.root)))
    ensures NEWLINE in HeadValue(h) <==> NEWLINE in h.root
  {
    var value := Bare(HeadValue(h));
    assert value == Decimal(h.size) + [SPACE] + Bare(h.root);
    assert SPACE !in Decimal(h.size) && NEWLINE !in Decimal(h.size);
    SplitOnceAt(Decimal(h.size), SPACE, Bare(h.root));
    DecimalParses(h.size);
  }

  function BridgeAsRead(b: Bridge): Bridge {
    Bridge(b.start.(root := Bare(b.start.root)), b.end.(root := Bare(b.end.root)), b.path)
  }

  lemma BridgeReadsBackBare(b: Bridge)
    requires b.start.size < U64 && b.end.size < U64
    requires NEWLINE !in b.start.root && NEWLINE !in b.end.root
    ensures ParseBridge(RenderBridge(b)) == Ok(BridgeAsRead(b))
  {
    hide BridgeStep, Fields.Parse, Fields.Fold, Fields.Render, Fields.IsKey, Bare, ParseHead, HeadValue;
    hide Ascii, Lines, PathFields;
    HeadReads(b.start);
    HeadReads(b.end);
    KeysAreKeys();
    PathFieldsPlain(b.path);
    var fields, d := BridgeFields(b), BridgeDraft(None, None, []);
    Fields.RenderedFold(BridgeStep, d, fields);
    var read := BridgeAsRead(b);
    BridgeSteps(d, Bare(HeadValue(b.start)));
    FoldAt(BridgeStep, d, fields, 0, d.(start := Some(read.start)));
    d := d.(start := Some(read.start));
    BridgeSteps(d, Bare(HeadValue(b.end)));
    FoldAt(BridgeStep, d, fields, 1, d.(end := Some(read.end)));
    d := d.(end := Some(read.end));
    assert fields[0..] == fields && fields[2..] == PathFields(b.path);
    BridgePathFold(d, b.path);
    assert d.path + b.path == b.path;
  }

  ghost predicate BridgeDraftOneLine(d: BridgeDraft) {
    && (d.start.Some? ==> NEWLINE !in d.start.value.root)
    && (d.end.Some? ==> NEWLINE !in d.end.value.root)
  }

  lemma BridgeStepOneLine(d: BridgeDraft, key: bytes, value: bytes)
    requires BridgeDraftOneLine(d) && NEWLINE !in value && BridgeStep(d, key, value).Ok?
    ensures BridgeDraftOneLine(BridgeStep(d, key, value).value)
  {
    hide Ascii, Hex.Parse;
  }

  lemma BridgesReadPlain(text: bytes)
    requires ParseBridge(text).Ok?
    ensures NEWLINE !in ParseBridge(text).value.start.root && NEWLINE !in ParseBridge(text).value.end.root
  {
    hide BridgeStep, Fields.Parse, Lines;
    LinesHaveNone(text);
    forall d, k, v | BridgeDraftOneLine(d) && NEWLINE !in v && BridgeStep(d, k, v).Ok?
      ensures BridgeDraftOneLine(BridgeStep(d, k, v).value)
    {
      BridgeStepOneLine(d, k, v);
    }
    Fields.ParseKeeps(BridgeStep, d => BridgeDraftOneLine(d), BridgeDraft(None, None, []), Lines(text));
  }

  /** A bridge survives its file exactly when neither root holds a newline or
      ends in a carriage return. */
  lemma BridgeRoundTrip(b: Bridge)
    requires b.start.size < U64 && b.end.size < U64
    ensures ParseBridge(RenderBridge(b)) == Ok(b) <==> LineSafe(b.start.root) && LineSafe(b.end.root)
  {
    hide ParseBridge, RenderBridge;
    if NEWLINE !in b.start.root && NEWLINE !in b.end.root {
      BridgeReadsBackBare(b);
    } else if ParseBridge(RenderBridge(b)).Ok? {
      BridgesReadPlain(RenderBridge(b));
    }
  }
}
