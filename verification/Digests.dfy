/** Finding a deed by content address: the log read first, and the shelf walk it
    stands in for. */
module Digests {
  import opened Prelude
  import opened Text
  import opened Deeds
  import opened Order
  import opened Store
  import Address
  import Audit
  import Log
  import Wire
  import WireProofs

  // ---------- the shelf walk ----------

  /** The last deed with the digest. */
  function DigestHit(sha: Sha, served: seq<Deed>, raw: bytes): Option<bytes>
    decreases served
  {
    if served == [] then None
    else if DigestHit(sha, served[1..], raw).Some? then DigestHit(sha, served[1..], raw)
    else if DeedDigest(sha, served[0]) == raw then Some(served[0].id)
    else None
  }

  /** Every deed with the path. */
  function PathHits(served: seq<Deed>, raw: bytes): seq<bytes>
    decreases served
  {
    if served == [] then []
    else (if raw in served[0].paths then [served[0].id] else []) + PathHits(served[1..], raw)
  }

  function Told(digestHit: Option<bytes>, pathHits: seq<bytes>): Result<bytes> {
    if digestHit.Some? then Ok(digestHit.value)
    else if |pathHits| == 1 then Ok(pathHits[0])
    else if pathHits == [] then Err(NotFound)
    else Err(InvalidId)
  }

  function Listed(sha: Sha, files: Files, raw: bytes): Result<bytes> {
    var served := Audit.ShelfOf(files).served;
    Told(DigestHit(sha, served, raw), PathHits(served, raw))
  }

  method WalkShelf(sha: Sha, files: Files, raw: bytes) returns (r: Result<bytes>)
    ensures r == Listed(sha, files, raw)
  {
    hide DeedDigest, Audit.ShelfOf;
    var served := Audit.ShelfOf(files).served;
    var digestHit: Option<bytes>, pathHits: seq<bytes> := None, [];
    for i := 0 to |served|
      invariant DigestHit(sha, served, raw)
                == if DigestHit(sha, served[i..], raw).Some? then DigestHit(sha, served[i..], raw) else digestHit
      invariant PathHits(served, raw) == pathHits + PathHits(served[i..], raw)
    {
      assert served[i..][0] == served[i] && served[i..][1..] == served[i + 1..];
      if DeedDigest(sha, served[i]) == raw {
        digestHit := Some(served[i].id);
      }
      if raw in served[i].paths {
        pathHits := pathHits + [served[i].id];
      }
    }
    assert pathHits + [] == pathHits;
    return Told(digestHit, pathHits);
  }

  // ---------- the log first ----------

  /** Accessions on lines whose second field is the address. A line that is not
      three fields' worth ends the reading. */
  function Hits(lines: seq<bytes>, raw: bytes): Option<set<bytes>>
    decreases lines
  {
    if lines == [] then Some({})
    else if IsBlank(lines[0]) then Hits(lines[1..], raw)
    else
      match SplitOnce(lines[0], TAB)
      case None => None
      case Some((_, rest)) =>
        match SplitOnce(rest, TAB)
        case None => None
        case Some((digest, _)) =>
          if digest != raw then Hits(lines[1..], raw)
          else
            match Log.ParseEntry(lines[0])
            case Err(_) => None
            case Ok(e) =>
              Joined(if ParseId(e.id).Ok? then {e.id} else {}, Hits(lines[1..], raw))
  }

  predicate ServesAs(sha: Sha, files: Files, id: bytes, raw: bytes) {
    Get(files, id).Ok? && DeedDigest(sha, Get(files, id).value) == raw
  }

  function LastServed(sha: Sha, files: Files, ids: seq<bytes>, raw: bytes): Option<bytes>
    decreases ids
  {
    if ids == [] then None
    else if LastServed(sha, files, ids[1..], raw).Some? then LastServed(sha, files, ids[1..], raw)
    else if ServesAs(sha, files, ids[0], raw) then Some(ids[0])
    else None
  }

  function HitsIn(disk: Disk, raw: bytes): Option<set<bytes>> {
    if IsUtf8(disk.log) then Hits(Lines(disk.log), raw) else None
  }

  /** The last served deed, in order, among the accessions the log gives. */
  function LoggedDeed(sha: Sha, disk: Disk, raw: bytes): Option<bytes> {
    match HitsIn(disk, raw)
    case None => None
    case Some(hits) => LastServed(sha, disk.files, InOrder(hits), raw)
  }

  function Resolve(sha: Sha, disk: Disk, raw: bytes): Result<bytes> {
    if ParseId(raw).Ok? then ParseId(raw)
    else if Address.HexOf(raw).None? then Err(InvalidId)
    else if LoggedDeed(sha, disk, raw).Some? then Ok(LoggedDeed(sha, disk, raw).value)
    else Listed(sha, disk.files, raw)
  }

  /** The hits so far and those of the lines to come. */
  function Joined(hits: set<bytes>, more: Option<set<bytes>>): Option<set<bytes>> {
    if more.None? then None else Some(hits + more.value)
  }

  lemma JoinedOne(hits: set<bytes>, more: Option<set<bytes>>, one: set<bytes>)
    ensures Joined(hits, Joined(one, more)) == Joined(hits + one, more)
    ensures Joined({}, more) == more
    ensures Joined(hits, Some({})) == Some(hits) && Joined(hits, None) == None
  {
    if more.Some? {
      assert hits + (one + more.value) == hits + one + more.value;
      assert {} + more.value == more.value;
    }
    assert hits + {} == hits;
  }

  method ReadHits(disk: Disk, raw: bytes) returns (r: Option<set<bytes>>)
    ensures r == HitsIn(disk, raw)
  {
    hide IsBlank, SplitOnce, Log.ParseEntry, ParseId, Lines, Joined;
    if !IsUtf8(disk.log) {
      return None;
    }
    var lines, hits: set<bytes> := Lines(disk.log), {};
    JoinedOne({}, Hits(lines, raw), {});
    for i := 0 to |lines|
      invariant Hits(lines, raw) == Joined(hits, Hits(lines[i..], raw))
    {
      var line := lines[i];
      assert lines[i..][0] == line && lines[i..][1..] == lines[i + 1..];
      JoinedOne(hits, None, {});
      if !IsBlank(line) {
        var first := SplitOnce(line, TAB);
        if first.None? {
          return None;
        }
        var second := SplitOnce(first.value.1, TAB);
        if second.None? {
          return None;
        }
        if second.value.0 == raw {
          var e := Log.ParseEntry(line);
          if e.Err? {
            return None;
          }
          var one := if ParseId(e.value.id).Ok? then {e.value.id} else {};
          JoinedOne(hits, Hits(lines[i + 1..], raw), one);
          hits := hits + one;
        }
      }
    }
    JoinedOne(hits, None, {});
    return Some(hits);
  }

  method ResolveAddress(sha: Sha, disk: Disk, raw: bytes) returns (r: Result<bytes>)
    ensures r == Resolve(sha, disk, raw)
  {
    hide ServesAs, Listed, HitsIn, ParseId, Address.HexOf;
    if ParseId(raw).Ok? {
      return ParseId(raw);
    }
    if Address.HexOf(raw).None? {
      return Err(InvalidId);
    }
    var hits := ReadHits(disk, raw);
    if hits.Some? {
      var ids, found: Option<bytes> := InOrder(hits.value), None;
      for i := 0 to |ids|
        invariant LastServed(sha, disk.files, ids, raw)
                  == if LastServed(sha, disk.files, ids[i..], raw).Some?
                     then LastServed(sha, disk.files, ids[i..], raw) else found
      {
        assert ids[i..][0] == ids[i] && ids[i..][1..] == ids[i + 1..];
        if ServesAs(sha, disk.files, ids[i], raw) {
          found := Some(ids[i]);
        }
      }
      if found.Some? {
        return Ok(found.value);
      }
    }
    r := WalkShelf(sha, disk.files, raw);
  }

  // ---------- the log stands in for the walk ----------

  ghost predicate Greatest(x: bytes, s: iset<bytes>) {
    x in s && forall y :: y in s ==> AtMost(y, x)
  }

  /** `found` is the greatest member of `s`, if it has one. */
  ghost predicate LastOf(found: Option<bytes>, s: iset<bytes>) {
    match found
    case None => forall y :: y !in s
    case Some(x) => Greatest(x, s)
  }

  /** The accessions of deeds served with the digest, and those among `ids`. */
  ghost function Matches(sha: Sha, files: Files, raw: bytes): iset<bytes> {
    iset id | ParseId(id).Ok? && ServesAs(sha, files, id, raw)
  }

  ghost function Among(ids: seq<bytes>, sha: Sha, files: Files, raw: bytes): iset<bytes> {
    iset id | id in ids && ServesAs(sha, files, id, raw)
  }

  lemma {:induction false} LastServedIsLast(sha: Sha, files: Files, ids: seq<bytes>, raw: bytes)
    requires Ascending(ids)
    ensures LastOf(LastServed(sha, files, ids, raw), Among(ids, sha, files, raw))
    decreases ids
  {
    hide AtMost, ServesAs;
    if ids != [] {
      var all, rest := Among(ids, sha, files, raw), Among(ids[1..], sha, files, raw);
      TailHas(ids);
      LastServedIsLast(sha, files, ids[1..], raw);
      Reflexive(ids[0]);
      forall y | y in ids[1..]
        ensures AtMost(ids[0], y)
      {
        FirstIsLeast(ids, y);
      }
      assert forall y :: y in all <==> y in rest || (y == ids[0] && ServesAs(sha, files, y, raw));
    }
  }

  lemma {:induction false} DigestHitIsLast(sha: Sha, files: Files, served: seq<Deed>, raw: bytes)
    requires Ascending(Audit.Ids(served)) && forall d :: d in served ==> Get(files, d.id) == Ok(d)
    ensures LastOf(DigestHit(sha, served, raw), Among(Audit.Ids(served), sha, files, raw))
    decreases served
  {
    hide AtMost, Get, DeedDigest;
    if served != [] {
      var ids := Audit.Ids(served);
      var all, rest := Among(ids, sha, files, raw), Among(ids[1..], sha, files, raw);
      assert Audit.Ids(served[1..]) == ids[1..];
      TailHas(ids);
      DigestHitIsLast(sha, files, served[1..], raw);
      Reflexive(ids[0]);
      forall y | y in ids[1..]
        ensures AtMost(ids[0], y)
      {
        FirstIsLeast(ids, y);
      }
      assert served[0] in served;
      assert forall y :: y in all <==> y in rest || (y == ids[0] && ServesAs(sha, files, y, raw));
    }
  }

  lemma LastUnique(a: Option<bytes>, b: Option<bytes>, s: iset<bytes>)
    requires LastOf(a, s) && LastOf(b, s)
    ensures a == b
  {
    hide AtMost;
    if a.Some? && b.Some? {
      Antisymmetric(a.value, b.value);
    }
  }

  /** What the shelf walk finds by digest: the last of the matching deeds. */
  lemma ShelfFindsTheLast(sha: Sha, files: Files, raw: bytes)
    ensures LastOf(DigestHit(sha, Audit.ShelfOf(files).served, raw), Matches(sha, files, raw))
  {
    hide Get, DeedDigest, ParseId, InOrder, LastOf, DigestHit;
    var served := Audit.ShelfOf(files).served;
    InOrderAscends(Audit.CapStems(files));
    Audit.ServedOnce(files, InOrder(Audit.CapStems(files)));
    Audit.ShelfExact(files);
    forall d | d in served
      ensures Get(files, d.id) == Ok(d)
    {
      assert Audit.ServedAs(files, d.id, d);
    }
    DigestHitIsLast(sha, files, served, raw);
    forall id
      ensures id in Among(Audit.Ids(served), sha, files, raw) <==> id in Matches(sha, files, raw)
    {
      if id in Matches(sha, files, raw) {
        Audit.GetNames(files, id);
        MatchListed(files, served, id);
      } else if id in Among(Audit.Ids(served), sha, files, raw) {
        ListedParses(files, served, id);
        assert false;
      }
    }
    assert Among(Audit.Ids(served), sha, files, raw) == Matches(sha, files, raw);
  }

  lemma MatchListed(files: Files, served: seq<Deed>, id: bytes)
    requires forall d :: d in served <==> Audit.ServedAs(files, d.id, d)
    requires ParseId(id).Ok? && Get(files, id).Ok? && Get(files, id).value.id == id
    ensures id in Audit.Ids(served)
  {
    hide ParseId, Get;
    var d := Get(files, id).value;
    assert Audit.ServedAs(files, d.id, d);
    var i :| 0 <= i < |served| && served[i] == d;
    assert Audit.Ids(served)[i] == id;
  }

  lemma ListedParses(files: Files, served: seq<Deed>, id: bytes)
    requires forall d :: d in served <==> Audit.ServedAs(files, d.id, d)
    requires id in Audit.Ids(served)
    ensures ParseId(id).Ok?
  {
    hide ParseId, Get;
    var i :| 0 <= i < |served| && Audit.Ids(served)[i] == id;
    assert served[i] in served;
    assert Audit.ServedAs(files, served[i].id, served[i]);
  }

  lemma {:induction false} HitsParse(lines: seq<bytes>, raw: bytes)
    ensures Hits(lines, raw).Some? ==> forall id :: id in Hits(lines, raw).value ==> ParseId(id).Ok?
    decreases lines
  {
    hide IsBlank, SplitOnce, Log.ParseEntry, ParseId;
    if lines != [] {
      HitsParse(lines[1..], raw);
    }
  }

  /** What the log finds: the last of the matching deeds it names. */
  lemma LogFindsTheLast(sha: Sha, disk: Disk, raw: bytes)
    requires HitsIn(disk, raw).Some?
    ensures LastOf(LoggedDeed(sha, disk, raw), iset id | id in HitsIn(disk, raw).value
              && id in Matches(sha, disk.files, raw))
  {
    hide AtMost, ServesAs, ParseId, InOrder, LastOf, LastServed, Hits, Lines, IsUtf8;
    var hits := HitsIn(disk, raw).value;
    HitsParse(Lines(disk.log), raw);
    InOrderAscends(hits);
    InOrderElements(hits);
    LastServedIsLast(sha, disk.files, InOrder(hits), raw);
    assert Among(InOrder(hits), sha, disk.files, raw)
           == iset id | id in hits && id in Matches(sha, disk.files, raw);
  }

  /** The log names the last of the deeds served with the digest, or none. */
  ghost predicate LogKnows(sha: Sha, disk: Disk, raw: bytes) {
    var hits := HitsIn(disk, raw);
    || hits.None?
    || (forall id :: id in hits.value ==> id !in Matches(sha, disk.files, raw))
    || exists id :: id in hits.value && Greatest(id, Matches(sha, disk.files, raw))
  }

  /** Some hit matches: what the log finds is the last match if and only if the
      last match is among the hits. */
  lemma FoundExact(hits: set<bytes>, s: iset<bytes>, found: bytes, last: Option<bytes>)
    requires Greatest(found, iset id | id in hits && id in s) && LastOf(last, s)
    ensures last == Some(found) <==> exists id :: id in hits && Greatest(id, s)
  {
    hide AtMost;
    var some := iset id | id in hits && id in s;
    assert found in some;
    if exists id :: id in hits && Greatest(id, s) {
      var id :| id in hits && Greatest(id, s);
      assert id in some;
      LastUnique(Some(found), Some(id), some);
      LastUnique(last, Some(id), s);
    }
  }

  /** For a content address the log-first lookup answers as the shelf walk does
      if and only if the log names the last matching deed, or names none. */
  lemma ResolveExact(sha: Sha, disk: Disk, raw: bytes)
    requires Address.HexOf(raw).Some?
    ensures Resolve(sha, disk, raw) == Listed(sha, disk.files, raw) <==> LogKnows(sha, disk, raw)
  {
    hide ParseId, Matches, DigestHit, PathHits, Audit.ShelfOf, HitsIn, LoggedDeed, Address.HexOf, Greatest;
    AddressIsNoId(raw);
    ShelfFindsTheLast(sha, disk.files, raw);
    if HitsIn(disk, raw).Some? {
      LogFindsTheLast(sha, disk, raw);
      var hits, s := HitsIn(disk, raw).value, Matches(sha, disk.files, raw);
      var found := LoggedDeed(sha, disk, raw);
      NoneFound(found, hits, s);
      if found.Some? {
        FoundExact(hits, s, found.value, DigestHit(sha, Audit.ShelfOf(disk.files).served, raw));
        SomeLast(DigestHit(sha, Audit.ShelfOf(disk.files).served, raw), found.value, s);
      }
    } else {
      NoHits(sha, disk, raw);
    }
  }

  lemma AddressIsNoId(raw: bytes)
    requires Address.HexOf(raw).Some?
    ensures ParseId(raw).Err?
  {
    var a, d := Ascii("sha256:"), Ascii("deed-");
    assert a[0] == 115 && d[0] == 100;
    assert raw[..|a|][0] == raw[0];
  }

  lemma SomeLast(last: Option<bytes>, x: bytes, s: iset<bytes>)
    requires LastOf(last, s) && x in s
    ensures last.Some?
  {
  }

  lemma NoHits(sha: Sha, disk: Disk, raw: bytes)
    requires HitsIn(disk, raw).None?
    ensures LoggedDeed(sha, disk, raw) == None
  {
  }

  lemma NoneFound(found: Option<bytes>, hits: set<bytes>, s: iset<bytes>)
    requires LastOf(found, iset id | id in hits && id in s)
    ensures found.None? <==> forall id :: id in hits ==> id !in s
    ensures found.Some? ==> found.value in s
  {
    hide AtMost;
    var some := iset id | id in hits && id in s;
    assert forall id :: id in hits && id in s ==> id in some;
    if found.Some? {
      assert found.value in some;
    }
  }

  ghost predicate DistinctDigests(sha: Sha, files: Files) {
    forall a, b :: Get(files, a).Ok? && Get(files, b).Ok? && a != b ==>
                     DeedDigest(sha, Get(files, a).value) != DeedDigest(sha, Get(files, b).value)
  }

  /** The canonical octets of every deed the store serves. */
  ghost function ServedOctets(files: Files): set<bytes> {
    set id | id in Audit.CapStems(files) && Get(files, id).Ok? :: Wire.DeedBytes(Get(files, id).value)
  }

  lemma OctetsServed(files: Files, id: bytes)
    requires Get(files, id).Ok?
    ensures Wire.DeedBytes(Get(files, id).value) in ServedOctets(files)
  {
    hide Get, Wire.DeedBytes;
    Audit.GetNames(files, id);
  }

  /** Two served deeds differ in the accession their octets begin with, so they
      share a digest only if those octets collide. */
  lemma ServedDigestsDiffer(sha: Sha, files: Files)
    requires CollisionFree(sha, ServedOctets(files))
    ensures DistinctDigests(sha, files)
  {
    hide Get, CapDeed, Wire.DeedBytes, Wire.DeedFromBytes, Address.Of, ServedOctets, WireProofs.Good;
    forall a, b | Get(files, a).Ok? && Get(files, b).Ok? && a != b
      ensures DeedDigest(sha, Get(files, a).value) != DeedDigest(sha, Get(files, b).value)
    {
      GetIsHeld(files, a);
      GetIsHeld(files, b);
      CapGood(files, a);
      CapGood(files, b);
      OctetsServed(files, a);
      OctetsServed(files, b);
      var x, y := Wire.DeedBytes(Get(files, a).value), Wire.DeedBytes(Get(files, b).value);
      if Address.Of(sha, x) == Address.Of(sha, y) {
        Address.OfInjective(sha, x, y);
        assert false;
      }
    }
  }

  /** Whatever the log holds, a store whose served deeds do not collide answers
      one way. */
  lemma ResolveIsListed(sha: Sha, disk: Disk, raw: bytes)
    requires Address.HexOf(raw).Some? && CollisionFree(sha, ServedOctets(disk.files))
    ensures Resolve(sha, disk, raw) == Listed(sha, disk.files, raw)
  {
    hide AtMost, ParseId, Get, DeedDigest, HitsIn, Address.HexOf, Resolve, Listed, ServedOctets, CollisionFree;
    ServedDigestsDiffer(sha, disk.files);
    var s := Matches(sha, disk.files, raw);
    if HitsIn(disk, raw).Some? && exists id :: id in HitsIn(disk, raw).value && id in s {
      var id :| id in HitsIn(disk, raw).value && id in s;
      Reflexive(id);
      assert Greatest(id, s);
    }
    ResolveExact(sha, disk, raw);
  }
}
