/** Files of `key=value` lines, as receipts and bridges are written. */
module Fields {
  import opened Prelude
  import opened Text

  /** What one field adds to what was read before it, or an error. */
  type Step<!A> = (A, bytes, bytes) -> Result<A>

  /** Read every line that is not blank: one key, an equals sign, one value. */
  function Parse<A>(step: Step<A>, acc: A, lines: seq<bytes>): Result<A> {
    if lines == [] then Ok(acc)
    else if IsBlank(lines[0]) then Parse(step, acc, lines[1..])
    else
      match SplitOnce(lines[0], EQUALS)
      case None => Err(Evidence)
      case Some((key, value)) =>
        var next :- step(acc, key, value);
        Parse(step, next, lines[1..])
  }

  method Read<A>(step: Step<A>, start: A, lines: seq<bytes>) returns (r: Result<A>)
    ensures r == Parse(step, start, lines)
  {
    var acc := start;
    for i := 0 to |lines|
      invariant Parse(step, start, lines) == Parse(step, acc, lines[i..])
    {
      var line := lines[i];
      assert lines[i..][1..] == lines[i + 1..];
      if !IsBlank(line) {
        var field := SplitOnce(line, EQUALS);
        if field.None? {
          return Err(Evidence);
        }
        var next := step(acc, field.value.0, field.value.1);
        if next.Err? {
          return Err(next.error);
        }
        acc := next.value;
      }
    }
    return Ok(acc);
  }

  type Field = (bytes, bytes)

  function FieldLine(f: Field): bytes {
    f.0 + [EQUALS] + f.1
  }

  function Render(fields: seq<Field>): bytes {
    if fields == [] then [] else FieldLine(fields[0]) + [NEWLINE] + Render(fields[1..])
  }

  /** A key starts with a lower-case letter and has no equals sign or newline. */
  predicate IsKey(k: bytes) {
    k != [] && 97 <= k[0] <= 122 && EQUALS !in k && NEWLINE !in k
  }

  /** What reading rendered fields does to them: a carriage return that ends a
      value is taken for part of the line's end. */
  function Fold<A>(step: Step<A>, acc: A, fields: seq<Field>): Result<A> {
    if fields == [] then Ok(acc)
    else
      var next :- step(acc, fields[0].0, StripSuffix(fields[0].1, RETURN));
      Fold(step, next, fields[1..])
  }

  lemma FieldLineParts(f: Field)
    requires IsKey(f.0) && NEWLINE !in f.1
    ensures var line := StripSuffix(FieldLine(f), RETURN);
            && !IsBlank(line)
            && SplitOnce(line, EQUALS) == Some((f.0, StripSuffix(f.1, RETURN)))
    ensures NEWLINE !in FieldLine(f)
  {
    var v := StripSuffix(f.1, RETURN);
    var line := StripSuffix(FieldLine(f), RETURN);
    assert line == f.0 + [EQUALS] + v;
    SplitOnceAt(f.0, EQUALS, v);
    assert line[0] == f.0[0];
    assert SpaceLen(line) == 0;
  }

  lemma {:induction false} RenderedFold<A>(step: Step<A>, acc: A, fields: seq<Field>)
    requires forall f :: f in fields ==> IsKey(f.0) && NEWLINE !in f.1
    ensures Parse(step, acc, Lines(Render(fields))) == Fold(step, acc, fields)
  {
    hide FieldLine, Lines, IsBlank, SplitOnce, StripSuffix, IsKey;
    if fields == [] {
      NoLines();
    } else {
      var line := FieldLine(fields[0]);
      FieldLineParts(fields[0]);
      OneLine(line);
      LinesConcat(line + [NEWLINE], Render(fields[1..]));
      var v := StripSuffix(fields[0].1, RETURN);
      if step(acc, fields[0].0, v).Ok? {
        RenderedFold(step, step(acc, fields[0].0, v).value, fields[1..]);
      }
      assert Lines(Render(fields))[1..] == Lines(Render(fields[1..]));
    }
  }

  lemma NoLines()
    ensures Lines([]) == []
  {
  }

  /** What every step keeps, reading keeps; a value read has no newline. */
  lemma {:induction false} ParseKeeps<A(!new)>(step: Step<A>, inv: A -> bool, acc: A, lines: seq<bytes>)
    requires inv(acc) && forall line :: line in lines ==> NEWLINE !in line
    requires forall a, k, v :: inv(a) && NEWLINE !in v && step(a, k, v).Ok? ==> inv(step(a, k, v).value)
    requires Parse(step, acc, lines).Ok?
    ensures inv(Parse(step, acc, lines).value)
    decreases lines
  {
    if lines != [] {
      if IsBlank(lines[0]) {
        ParseKeeps(step, inv, acc, lines[1..]);
      } else {
        var (key, value) := SplitOnce(lines[0], EQUALS).value;
        ValuePlain(lines[0]);
        ParseKeeps(step, inv, step(acc, key, value).value, lines[1..]);
      }
    }
  }

  lemma ValuePlain(line: bytes)
    requires NEWLINE !in line && SplitOnce(line, EQUALS).Some?
    ensures NEWLINE !in SplitOnce(line, EQUALS).value.1
  {
  }
}
