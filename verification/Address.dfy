/** Content addresses: `sha256:` and the hex of a digest. */
module Address {
  import opened Prelude
  import opened Text
  import Hex

  function Of(sha: Sha, content: bytes): bytes {
    Ascii("sha256:") + Hex.Render(sha(content))
  }

  /** The hex of a write-once address, or nothing when it is not one. */
  function HexOf(address: bytes): Option<bytes> {
    match StripPrefix(address, Ascii("sha256:"))
    case None => None
    case Some(hex) => if Hex.IsDigest(hex) then Some(hex) else None
  }

  lemma OfIsAddress(sha: Sha, content: bytes)
    ensures HexOf(Of(sha, content)) == Some(Hex.Render(sha(content)))
  {
    var a, p := Of(sha, content), Ascii("sha256:");
    assert a[..|p|] == p && a[|p|..] == Hex.Render(sha(content));
  }

  /** An address is a field of any line. */
  lemma AddressPlain(a: bytes)
    requires HexOf(a).Some?
    ensures a != [] && LineSafe(a) && IsUtf8(a) && TAB !in a && RETURN !in a
    ensures a == Ascii("sha256:") + HexOf(a).value
  {
    var p, hex := Ascii("sha256:"), HexOf(a).value;
    assert a == p + hex;
    Colon();
    assert forall i :: 0 <= i < |hex| ==> Hex.IsDigit(hex[i]);
    assert forall i :: 0 <= i < |a| ==> 14 <= a[i] < 0x80;
    Utf8Ascii(a);
  }

  lemma Colon()
    ensures forall i :: 0 <= i < |Ascii("sha256:")| ==> 14 <= Ascii("sha256:")[i] < 0x80
  {
  }

  lemma OfInjective(sha: Sha, a: bytes, b: bytes)
    requires Of(sha, a) == Of(sha, b)
    ensures sha(a) == sha(b)
  {
    var p := |Ascii("sha256:")|;
    assert Of(sha, a)[p..] == Hex.Render(sha(a)) && Of(sha, b)[p..] == Hex.Render(sha(b));
    Hex.Injective(sha(a), sha(b));
  }
}
