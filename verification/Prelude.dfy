/** Bytes, digests and the result types every other module uses. */
module Prelude {

  type byte = x: int | 0 <= x < 256
  type bytes = seq<byte>

  /** What SHA-256 returns: thirty-two octets. */
  type Digest = d: bytes | |d| == 32 witness seq(32, _ => 0)

  /** The hash function is a parameter of everything that hashes. */
  type Sha = bytes -> Digest

  datatype Option<+T> = None | Some(value: T)

  /** Which error case a call returns; the wording is not modelled. */
  datatype Error =
    | Io
    | Evidence
    | Decode
    | InvalidId
    | InvalidKind
    | InvalidUrl
    | InvalidMessageId
    | InvalidBody
    | NotFound
    | Frozen
    | Tombstoned

  datatype Result<+T> = Ok(value: T) | Err(error: Error) {
    predicate IsFailure() {
      Err?
    }

    function PropagateFailure<U>(): Result<U>
      requires Err?
    {
      Err(error)
    }

    function Extract(): T
      requires Ok?
    {
      value
    }
  }

  /** `:- Need(c, e)` returns `Err(e)` unless `c` holds. */
  function Need(condition: bool, error: Error): Result<()> {
    if condition then Ok(()) else Err(error)
  }

  /** The octets of an ASCII literal. */
  function Ascii(s: string): (b: bytes)
    ensures |b| == |s|
  {
    seq(|s|, i requires 0 <= i < |s| => s[i] as int % 256)
  }

  /** No two different members of `inputs` hash to the same digest. The
      soundness results assume this only of the inputs hashed by the values
      they speak of, which is a finite set; a failure of the premise is a
      collision inside that set. */
  ghost predicate CollisionFree(sha: Sha, inputs: set<bytes>) {
    forall x, y :: x in inputs && y in inputs && sha(x) == sha(y) ==> x == y
  }

  lemma CollisionFreeSubset(sha: Sha, small: set<bytes>, large: set<bytes>)
    requires small <= large && CollisionFree(sha, large)
    ensures CollisionFree(sha, small)
  {
  }
}
