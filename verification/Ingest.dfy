/** Taking a body's files into the store before its deed is frozen: every local
    path becomes the address of its bytes, and a deed created so passes its own
    evidence. */
module Ingest {
  import opened Prelude
  import opened Text
  import opened Deeds
  import opened Fitting
  import opened Issuing
  import opened Paths
  import opened Store
  import Address
  import Frames
  import Hex
  import Wire

  function BodyPaths(b: Body): seq<bytes> {
    match b
    case FileBody(path, _) => [path]
    case SetBody(_, members) => members
    case PatchBody(_, diffs, _) => diffs
    case MailBody(_, _, _, path) => [path]
    case ClipBody(sources, _, _, _, path) => sources + [path]
    case PageBody(_, snapshot) => [snapshot]
    case FormBody(_, _, path) => [path]
    case _ => []
  }

  /** The body with other paths in the places of its own. */
  function WithPaths(b: Body, ps: seq<bytes>): Body
    requires |ps| == |BodyPaths(b)|
  {
    match b
    case FileBody(_, mediaType) => FileBody(ps[0], mediaType)
    case SetBody(title, _) => SetBody(title, ps)
    case PatchBody(tree, _, functionaries) => PatchBody(tree, ps, functionaries)
    case MailBody(id, reply, subject, _) => MailBody(id, reply, subject, ps[0])
    case ClipBody(sources, inPoint, outPoint, duration, _) =>
      ClipBody(ps[..|sources|], inPoint, outPoint, duration, ps[|sources|])
    case PageBody(url, _) => PageBody(url, ps[0])
    case FormBody(blank, fields, _) => FormBody(blank, fields, ps[0])
    case _ => b
  }

  lemma WithPathsExact(b: Body, ps: seq<bytes>, qs: seq<bytes>)
    requires |ps| == |BodyPaths(b)| == |qs|
    ensures BodyPaths(WithPaths(b, ps)) == ps && WithPaths(b, BodyPaths(b)) == b
    ensures WithPaths(WithPaths(b, ps), qs) == WithPaths(b, qs)
  {
  }

  function Swap(p: bytes, from: bytes, to: bytes): bytes {
    if SamePath(p, from) then to else p
  }

  function Swapped(paths: seq<bytes>, from: bytes, to: bytes): (r: seq<bytes>)
    ensures |r| == |paths|
  {
    seq(|paths|, n requires 0 <= n < |paths| => Swap(paths[n], from, to))
  }

  method SwapEach(paths: seq<bytes>, from: bytes, to: bytes) returns (r: seq<bytes>)
    ensures r == Swapped(paths, from, to)
  {
    hide SamePath;
    r := paths;
    for n := 0 to |paths|
      invariant |r| == |paths|
      invariant forall m :: 0 <= m < n ==> r[m] == Swap(paths[m], from, to)
      invariant forall m :: n <= m < |paths| ==> r[m] == paths[m]
    {
      if SamePath(r[n], from) {
        r := r[n := to];
      }
    }
  }

  /** Every spelling of one path, changed to another. */
  function RewritePath(b: Body, from: bytes, to: bytes): Body {
    match b
    case FileBody(path, mediaType) => FileBody(Swap(path, from, to), mediaType)
    case SetBody(title, members) => SetBody(title, Swapped(members, from, to))
    case PatchBody(tree, diffs, functionaries) => PatchBody(tree, Swapped(diffs, from, to), functionaries)
    case MailBody(id, reply, subject, path) => MailBody(id, reply, subject, Swap(path, from, to))
    case ClipBody(sources, inPoint, outPoint, duration, path) =>
      ClipBody(Swapped(sources, from, to), inPoint, outPoint, duration, Swap(path, from, to))
    case PageBody(url, snapshot) => PageBody(url, Swap(snapshot, from, to))
    case FormBody(blank, fields, path) => FormBody(blank, fields, Swap(path, from, to))
    case _ => b
  }

  method RewriteBody(b: Body, from: bytes, to: bytes) returns (r: Body)
    ensures r == WithPaths(b, Swapped(BodyPaths(b), from, to)) == RewritePath(b, from, to)
  {
    hide SamePath;
    RewrittenPaths(b, from, to);
    r := b;
    match b {
      case FileBody(path, mediaType) =>
        if SamePath(path, from) {
          r := FileBody(to, mediaType);
        }
      case SetBody(title, members) =>
        var swapped := SwapEach(members, from, to);
        r := SetBody(title, swapped);
      case PatchBody(tree, diffs, functionaries) =>
        var swapped := SwapEach(diffs, from, to);
        r := PatchBody(tree, swapped, functionaries);
      case MailBody(id, reply, subject, path) =>
        if SamePath(path, from) {
          r := MailBody(id, reply, subject, to);
        }
      case ClipBody(sources, inPoint, outPoint, duration, path) =>
        var swapped := SwapEach(sources, from, to);
        r := ClipBody(swapped, inPoint, outPoint, duration, if SamePath(path, from) then to else path);
      case PageBody(url, snapshot) =>
        if SamePath(snapshot, from) {
          r := PageBody(url, to);
        }
      case FormBody(blank, fields, path) =>
        if SamePath(path, from) {
          r := FormBody(blank, fields, to);
        }
      case _ =>
    }
  }

  /** Every copy of the one path is rewritten, however it is spelled, and nothing
      else of the body is touched. */
  lemma RewrittenPaths(b: Body, from: bytes, to: bytes)
    ensures RewritePath(b, from, to) == WithPaths(b, Swapped(BodyPaths(b), from, to))
    ensures BodyPaths(RewritePath(b, from, to)) == Swapped(BodyPaths(b), from, to)
  {
    hide SamePath;
  }

  /** What a local path reads as, if it is a file. */
  type Reads = bytes -> Option<bytes>

  function HexOfBytes(sha: Sha, content: bytes): bytes {
    Hex.Render(sha(content))
  }

  /** Shelve one file's bytes under their hash, unless something is there. */
  function ShelfWrites(sha: Sha, files: Files, content: bytes): seq<Write> {
    var name := Product(HexOfBytes(sha, content));
    if name in files then [] else [Write(name, content)]
  }

  /** What taking in the paths writes, to its end or up to the path it fails at,
      and the body rewritten or the reason it is not. */
  function IngestPaths(sha: Sha, read: Reads, files: Files, b: Body, originals: seq<bytes>): (seq<Write>, Result<Body>)
    decreases originals
  {
    if originals == [] then ([], Ok(b))
    else
      var p := originals[0];
      if p == [] then IngestPaths(sha, read, files, b, originals[1..])
      else if StartsWith(p, Ascii("sha256:")) then
        if Address.HexOf(p).None? then ([], Err(InvalidBody)) else IngestPaths(sha, read, files, b, originals[1..])
      else
        match read(p)
        case None => ([], Err(Io))
        case Some(content) =>
          var writes := ShelfWrites(sha, files, content);
          var (more, r) := IngestPaths(sha, read, Written(files, writes),
                                       RewritePath(b, p, Address.Of(sha, content)), originals[1..]);
          (writes + more, r)
  }

  function IngestBody(sha: Sha, read: Reads, files: Files, b: Body): (seq<Write>, Result<Body>) {
    IngestPaths(sha, read, files, b, BodyPaths(b))
  }

  // ---------- what it writes ----------

  /** Writes of product bytes alone, each under its hash, none over a file and
      none twice. */
  ghost predicate Shelving(sha: Sha, files: Files, writes: seq<Write>) {
    && Distinct(writes)
    && forall w :: w in writes ==> w.name.Product? && HexOfBytes(sha, w.content) == w.name.stem && w.name !in files
  }

  /** The shelf gained product bytes under their hashes, and nothing else changed. */
  ghost predicate OnlyShelved(sha: Sha, before: Files, after: Files) {
    && (forall n :: n in before ==> n in after && after[n] == before[n])
    && forall n :: n in after && n !in before ==> n.Product? && HexOfBytes(sha, after[n]) == n.stem
  }

  lemma {:induction false} ShelvingOnly(sha: Sha, files: Files, writes: seq<Write>)
    requires Shelving(sha, files, writes)
    ensures OnlyShelved(sha, files, Written(files, writes))
    decreases |writes|
  {
    hide HexOfBytes;
    if writes != [] {
      var w := writes[0];
      ShelvingOnly(sha, files[w.name := w.content], writes[1..]);
    }
  }

  lemma ShelvingPart(sha: Sha, files: Files, writes: seq<Write>, k: nat)
    requires Shelving(sha, files, writes) && k <= |writes|
    ensures Shelving(sha, files, writes[..k]) && OnlyShelved(sha, files, Written(files, writes[..k]))
  {
    hide HexOfBytes, OnlyShelved, Written;
    ShelvingOnly(sha, files, writes[..k]);
  }

  lemma ShelvingJoins(sha: Sha, files: Files, content: bytes, more: seq<Write>)
    requires Shelving(sha, Written(files, ShelfWrites(sha, files, content)), more)
    ensures Shelving(sha, files, ShelfWrites(sha, files, content) + more)
  {
    hide HexOfBytes;
    var writes := ShelfWrites(sha, files, content);
    if writes != [] {
      OneWritten(files, writes[0]);
    }
  }

  /** Whatever is taken in, and wherever it fails, only product bytes are added. */
  lemma {:induction false} IngestShelves(sha: Sha, read: Reads, files: Files, b: Body, originals: seq<bytes>)
    ensures Shelving(sha, files, IngestPaths(sha, read, files, b, originals).0)
    decreases originals
  {
    hide Shelving, ShelfWrites, RewritePath, Address.Of, Address.HexOf, Ascii, Written;
    if originals == [] {
      NoShelving(sha, files);
    } else {
      var p, rest := originals[0], originals[1..];
      NoShelving(sha, files);
      if !Local(p) {
        IngestShelves(sha, read, files, b, rest);
      } else if read(p).Some? {
        var content := read(p).value;
        var next, body := Written(files, ShelfWrites(sha, files, content)), RewritePath(b, p, Address.Of(sha, content));
        IngestShelves(sha, read, next, body, rest);
        ShelvingJoins(sha, files, content, IngestPaths(sha, read, next, body, rest).0);
      }
    }
  }

  lemma NoShelving(sha: Sha, files: Files)
    ensures Shelving(sha, files, [])
  {
  }

  // ---------- taking in again ----------

  lemma ShelvedAlready(sha: Sha, files: Files, content: bytes, more: seq<Write>, k: nat)
    requires k <= |ShelfWrites(sha, files, content) + more|
    requires var writes := ShelfWrites(sha, files, content);
             Shelving(sha, Written(files, writes), more)
    ensures var writes := ShelfWrites(sha, files, content);
            var n := if k < |writes| then k else |writes|;
            var now := Written(files, (writes + more)[..k]);
            && ShelfWrites(sha, now, content) == writes[n..]
            && Written(now, ShelfWrites(sha, now, content)) == Written(Written(files, writes), more[..k - n])
  {
    hide HexOfBytes;
    var writes := ShelfWrites(sha, files, content);
    if k == 0 {
      assert (writes + more)[..k] == [] && more[..0] == [];
    } else {
      var n := |writes|;
      assert (writes + more)[..k] == writes + more[..k - n];
      WrittenConcat(files, writes, more[..k - n]);
      ShelvingPart(sha, Written(files, writes), more, k - n);
      if writes != [] {
        OneWritten(files, writes[0]);
      }
    }
  }

  /** A local path that reads: its bytes, then the rest. */
  lemma IngestLocal(sha: Sha, read: Reads, files: Files, b: Body, originals: seq<bytes>)
    requires originals != [] && Local(originals[0]) && read(originals[0]).Some?
    ensures var p := originals[0];
            var one := ShelfWrites(sha, files, read(p).value);
            var (more, r) := IngestPaths(sha, read, Written(files, one),
                                         RewritePath(b, p, Address.Of(sha, read(p).value)), originals[1..]);
            IngestPaths(sha, read, files, b, originals) == (one + more, r)
  {
    hide ShelfWrites, RewritePath, Address.Of, Address.HexOf, Ascii, Written;
  }

  /** Any other ends the work, or is passed over, whatever the files. */
  lemma IngestOther(sha: Sha, read: Reads, files: Files, b: Body, originals: seq<bytes>)
    requires originals == [] || !Local(originals[0]) || read(originals[0]).None?
    ensures || (forall now :: IngestPaths(sha, read, now, b, originals)
                              == ([], IngestPaths(sha, read, files, b, originals).1))
            || (originals != [] && forall now :: IngestPaths(sha, read, now, b, originals)
                                                 == IngestPaths(sha, read, now, b, originals[1..]))
  {
    hide ShelfWrites, RewritePath, Address.Of, Address.HexOf, Ascii, Written;
  }

  /** Taking the same paths in over what an earlier try left writes the rest, and
      rewrites the body the same way. */
  lemma {:induction false} IngestResumes(sha: Sha, read: Reads, files: Files, b: Body, originals: seq<bytes>, k: nat)
    requires k <= |IngestPaths(sha, read, files, b, originals).0|
    ensures var (writes, r) := IngestPaths(sha, read, files, b, originals);
            IngestPaths(sha, read, Written(files, writes[..k]), b, originals) == (writes[k..], r)
    decreases originals
  {
    hide Shelving, ShelfWrites, RewritePath, Address.Of, Address.HexOf, Local, Written, IngestPaths;
    var (writes, r) := IngestPaths(sha, read, files, b, originals);
    if originals != [] && Local(originals[0]) && read(originals[0]).Some? {
      var p, rest := originals[0], originals[1..];
      var content := read(p).value;
      var one, body := ShelfWrites(sha, files, content), RewritePath(b, p, Address.Of(sha, content));
      var next := Written(files, one);
      IngestLocal(sha, read, files, b, originals);
      IngestLocal(sha, read, Written(files, writes[..k]), b, originals);
      var more := IngestPaths(sha, read, next, body, rest).0;
      IngestShelves(sha, read, next, body, rest);
      ShelvedAlready(sha, files, content, more, k);
      var n := if k < |one| then k else |one|;
      IngestResumes(sha, read, next, body, rest, k - n);
      DropBoth(one, more, k);
    } else {
      IngestOther(sha, read, files, b, originals);
      if originals != [] {
        var rest := originals[1..];
        if IngestPaths(sha, read, files, b, originals) == IngestPaths(sha, read, files, b, rest) {
          IngestResumes(sha, read, files, b, rest, k);
        }
      }
      if writes == [] {
        NothingLeft(files, writes, k);
      }
    }
  }

  lemma DropBoth(a: seq<Write>, b: seq<Write>, k: nat)
    requires k <= |a + b|
    ensures var n := if k < |a| then k else |a|;
            a[n..] + b[k - n..] == (a + b)[k..]
  {
  }

  lemma NothingLeft(files: Files, writes: seq<Write>, k: nat)
    requires writes == [] && k <= |writes|
    ensures writes[k..] == [] && Written(files, writes[..k]) == files
  {
    NoneWritten(files);
  }

  // ---------- where each path ends ----------

  /** The first path spelled otherwise or not that is the one given. */
  function First(paths: seq<bytes>, p: bytes): bytes
    decreases paths
  {
    if paths == [] then p else if SamePath(paths[0], p) then paths[0] else First(paths[1..], p)
  }

  predicate Seen(paths: seq<bytes>, p: bytes) {
    exists i :: 0 <= i < |paths| && SamePath(paths[i], p)
  }

  /** The address of a local path's bytes, as the first spelling of it reads, and
      any other path as it is. */
  function Target(sha: Sha, read: Reads, done: seq<bytes>, p: bytes): bytes {
    if Local(p) && Seen(done, p) && read(First(done, p)).Some? then Address.Of(sha, read(First(done, p)).value) else p
  }

  ghost predicate PathsSofar(sha: Sha, read: Reads, done: seq<bytes>, start: seq<bytes>, now: seq<bytes>) {
    |now| == |start| && forall n :: 0 <= n < |start| ==> now[n] == Target(sha, read, done, start[n])
  }

  lemma AddressNotLocal(sha: Sha, content: bytes)
    ensures !Local(Address.Of(sha, content))
  {
    hide Ascii;
    var a, p := Address.Of(sha, content), Ascii("sha256:");
    assert a[..|p|] == p;
  }

  lemma {:induction false} FirstOfMore(done: seq<bytes>, p: bytes, q: bytes)
    ensures First(done + [p], q) == if Seen(done, q) then First(done, q) else if SamePath(p, q) then p else q
    ensures Seen(done + [p], q) <==> Seen(done, q) || SamePath(p, q)
    decreases done
  {
    hide SamePath;
    if done == [] {
      assert done + [p] == [p] && [p][1..] == [];
    } else {
      assert (done + [p])[1..] == done[1..] + [p];
      FirstOfMore(done[1..], p, q);
      SeenFirst(done, q);
      SeenFirst(done + [p], q);
    }
  }

  lemma SeenFirst(paths: seq<bytes>, p: bytes)
    requires paths != []
    ensures Seen(paths, p) <==> SamePath(paths[0], p) || Seen(paths[1..], p)
  {
    hide SamePath;
    if Seen(paths, p) && !SamePath(paths[0], p) {
      var i :| 0 <= i < |paths| && SamePath(paths[i], p);
      assert SamePath(paths[1..][i - 1], p);
    }
    if Seen(paths[1..], p) {
      var i :| 0 <= i < |paths[1..]| && SamePath(paths[1..][i], p);
      assert SamePath(paths[i + 1], p);
    }
  }

  lemma OneTarget(sha: Sha, read: Reads, done: seq<bytes>, p: bytes, q: bytes)
    requires Local(p) && read(p).Some?
    requires Local(q) && Seen(done, q) ==> read(First(done, q)).Some?
    ensures Swap(Target(sha, read, done, q), p, Address.Of(sha, read(p).value)) == Target(sha, read, done + [p], q)
  {
    hide Local, Address.Of, Parse;
    FirstOfMore(done, p, q);
    if Local(q) && Seen(done, q) {
      AddressNotLocal(sha, read(First(done, q)).value);
      if SamePath(Target(sha, read, done, q), p) {
        SpellingsLocal(p, Target(sha, read, done, q));
      }
    } else if SamePath(q, p) {
      SpellingsLocal(p, q);
    }
  }

  ghost predicate AllRead(read: Reads, done: seq<bytes>) {
    forall p :: p in done && Local(p) ==> read(p).Some?
  }

  lemma {:induction false} FirstReads(read: Reads, done: seq<bytes>, p: bytes)
    requires AllRead(read, done) && Local(p) && Seen(done, p)
    ensures read(First(done, p)).Some?
    decreases done
  {
    hide Local, Parse;
    SeenFirst(done, p);
    if SamePath(done[0], p) {
      SpellingsLocal(p, done[0]);
    } else {
      FirstReads(read, done[1..], p);
    }
  }

  /** One more original: only its own spellings change. */
  lemma OneMoreIngested(sha: Sha, read: Reads, done: seq<bytes>, start: seq<bytes>, now: seq<bytes>, p: bytes)
    requires PathsSofar(sha, read, done, start, now) && AllRead(read, done) && Local(p) && read(p).Some?
    ensures PathsSofar(sha, read, done + [p], start, Swapped(now, p, Address.Of(sha, read(p).value)))
    ensures AllRead(read, done + [p])
  {
    hide Local, Address.Of, Target, Swap, Seen, First;
    forall n | 0 <= n < |start|
      ensures Swap(now[n], p, Address.Of(sha, read(p).value)) == Target(sha, read, done + [p], start[n])
    {
      if Local(start[n]) && Seen(done, start[n]) {
        FirstReads(read, done, start[n]);
      }
      OneTarget(sha, read, done, p, start[n]);
    }
  }

  lemma PassedOver(sha: Sha, read: Reads, done: seq<bytes>, start: seq<bytes>, now: seq<bytes>, p: bytes)
    requires PathsSofar(sha, read, done, start, now) && AllRead(read, done) && !Local(p)
    ensures PathsSofar(sha, read, done + [p], start, now) && AllRead(read, done + [p])
  {
    hide Address.Of, Local, Seen, First, Parse;
    forall n | 0 <= n < |start|
      ensures Target(sha, read, done, start[n]) == Target(sha, read, done + [p], start[n])
    {
      FirstOfMore(done, p, start[n]);
      if Local(start[n]) && SamePath(p, start[n]) {
        SpellingsLocal(start[n], p);
      }
    }
  }

  /** The bytes of an ingested path are on the shelf: what was there, or its own. */
  ghost predicate OnShelf(sha: Sha, before: Files, after: Files, content: bytes) {
    var name := Product(HexOfBytes(sha, content));
    name in after && (name !in before ==> HexOfBytes(sha, after[name]) == HexOfBytes(sha, content))
  }

  lemma ShelvedHere(sha: Sha, before: Files, files: Files, content: bytes, after: Files)
    requires OnlyShelved(sha, before, files)
    requires OnlyShelved(sha, Written(files, ShelfWrites(sha, files, content)), after)
    ensures OnlyShelved(sha, before, Written(files, ShelfWrites(sha, files, content)))
    ensures OnShelf(sha, before, after, content)
  {
    hide HexOfBytes;
    var writes := ShelfWrites(sha, files, content);
    if writes != [] {
      OneWritten(files, writes[0]);
    }
  }

  lemma RewrittenAgain(b: Body, body: Body, ps: seq<bytes>, from: bytes, to: bytes)
    requires |ps| == |BodyPaths(b)| && body == WithPaths(b, ps)
    ensures RewritePath(body, from, to) == WithPaths(b, Swapped(ps, from, to))
  {
    hide RewritePath, WithPaths, BodyPaths, SamePath;
    RewrittenPaths(body, from, to);
    WithPathsExact(b, ps, Swapped(ps, from, to));
  }

  lemma {:induction false} IngestExact(
    sha: Sha, read: Reads, before: Files, b: Body, now: seq<bytes>, files: Files, done: seq<bytes>,
    originals: seq<bytes>) returns (ends: seq<bytes>)
    requires PathsSofar(sha, read, done, BodyPaths(b), now) && OnlyShelved(sha, before, files) && AllRead(read, done)
    requires IngestPaths(sha, read, files, WithPaths(b, now), originals).1.Ok?
    ensures var (writes, out) := IngestPaths(sha, read, files, WithPaths(b, now), originals);
            var after := Written(files, writes);
            && PathsSofar(sha, read, done + originals, BodyPaths(b), ends) && AllRead(read, done + originals)
            && out == Ok(WithPaths(b, ends))
            && (forall p :: p in originals ==>
                  if Local(p) then read(p).Some? && OnShelf(sha, before, after, read(p).value)
                  else p == [] || Address.HexOf(p).Some?)
    decreases originals
  {
    hide PathsSofar, OnlyShelved, BodyPaths, WithPaths, RewritePath, ShelfWrites, HexOfBytes, Address.Of, Address.HexOf;
    hide Ascii, AllRead, Written, OnShelf;
    ends := now;
    if originals == [] {
      assert done + originals == done;
    } else {
      var p, rest := originals[0], originals[1..];
      assert done + originals == (done + [p]) + rest;
      assert forall q :: q in originals <==> q == p || q in rest;
      if !Local(p) {
        PassedOver(sha, read, done, BodyPaths(b), now, p);
        ends := IngestExact(sha, read, before, b, now, files, done + [p], rest);
      } else {
        var content := read(p).value;
        var one, to := ShelfWrites(sha, files, content), Address.Of(sha, content);
        var next := Written(files, one);
        OneMoreIngested(sha, read, done, BodyPaths(b), now, p);
        SameLength(sha, read, done, BodyPaths(b), now);
        RewrittenAgain(b, WithPaths(b, now), now, p, to);
        IngestShelves(sha, read, next, RewritePath(WithPaths(b, now), p, to), rest);
        var more := IngestPaths(sha, read, next, RewritePath(WithPaths(b, now), p, to), rest).0;
        ShelvingOnly(sha, next, more);
        WrittenConcat(files, one, more);
        ShelvedHere(sha, before, files, content, Written(next, more));
        ends := IngestExact(sha, read, before, b, Swapped(now, p, to), next, done + [p], rest);
      }
    }
  }

  lemma SameLength(sha: Sha, read: Reads, done: seq<bytes>, start: seq<bytes>, now: seq<bytes>)
    requires PathsSofar(sha, read, done, start, now)
    ensures |now| == |start|
  {
  }

  lemma NothingSeen(sha: Sha, read: Reads, files: Files, start: seq<bytes>)
    ensures PathsSofar(sha, read, [], start, start) && OnlyShelved(sha, files, files) && AllRead(read, [])
  {
  }

  function Targets(sha: Sha, read: Reads, paths: seq<bytes>): (r: seq<bytes>)
    ensures |r| == |paths|
  {
    seq(|paths|, n requires 0 <= n < |paths| => Target(sha, read, paths, paths[n]))
  }

  /** Ingesting a body gives each local path the address of the bytes its first
      spelling reads as, and leaves every other path, each an address or empty,
      and everything else of the body as it was; the bytes are on the shelf, and
      nothing that was there is changed. */
  lemma IngestedBody(sha: Sha, read: Reads, files: Files, b: Body)
    requires IngestBody(sha, read, files, b).1.Ok?
    ensures var (writes, out) := IngestBody(sha, read, files, b);
            var after := Written(files, writes);
            && out == Ok(WithPaths(b, Targets(sha, read, BodyPaths(b))))
            && (forall p :: p in BodyPaths(b) ==>
                  if Local(p) then Address.HexOf(Target(sha, read, BodyPaths(b), p)).Some?
                  else p == [] || Address.HexOf(p).Some?)
            && OnlyShelved(sha, files, after)
            && forall p :: p in BodyPaths(b) && Local(p) ==> read(p).Some? && OnShelf(sha, files, after, read(p).value)
  {
    hide BodyPaths, OnlyShelved, OnShelf, IngestPaths, Address.Of, Address.HexOf, Local, WithPaths, Seen, First;
    hide SamePath, AllRead, Written;
    var start := BodyPaths(b);
    NothingSeen(sha, read, files, start);
    WithPathsExact(b, start, start);
    var ends := IngestExact(sha, read, files, b, start, files, [], start);
    assert [] + start == start;
    assert ends == Targets(sha, read, start);
    IngestShelves(sha, read, files, b, start);
    ShelvingOnly(sha, files, IngestBody(sha, read, files, b).0);
    forall p | p in start && Local(p)
      ensures Address.HexOf(Target(sha, read, start, p)).Some?
    {
      SeenHere(start, p);
      FirstReads(read, start, p);
      Address.OfIsAddress(sha, read(First(start, p)).value);
    }
  }

  lemma SeenHere(paths: seq<bytes>, p: bytes)
    requires p in paths
    ensures Seen(paths, p)
  {
    hide Parse;
    var i :| 0 <= i < |paths| && paths[i] == p;
    assert SamePath(paths[i], p);
  }

  // ---------- a fresh deed passes its own evidence ----------

  /** A deed just created, with a host sidecar the layout accepts, passes the
      evidence check as its cap gives it back, with the evidence it was created
      with, if and only if its product bytes are on the shelf. */
  lemma FreshDeedPassesEvidence(
    keys: Keys, disk: Disk, req: Frames.CreateRequest, made: Result<Deed>, time: nat, c: Creation)
    requires Create(keys, disk.files, req, made, time) == Ok(c) && c.plan.writes != []
    requires EvidenceFits(keys, c.deed, time)
    requires keys.attests(Wire.DeedBytes(c.deed), time, Lookup(Done(disk, c.plan).files, Host(c.deed.id))).Ok?
    ensures EvidenceLocal(keys, Done(disk, c.plan).files, Settled(c.deed))
            == if PathsHold(keys.sha, disk.files, c.deed.paths) then Ok(EvidenceAt(keys, Settled(c.deed), time))
               else Err(Evidence)
  {
    hide Create, CreateWrites, EvidenceFrame, CapFrame, Frames.DecodeResponse, EvidenceFits, Wire.PutDeed;
    hide Signature, Written, Fits, SettledBody, PathHolds;
    MintedFacts(keys, disk.files, req, made, time);
    var writes, n := c.plan.writes, |c.plan.writes|;
    CreateLength(keys, c.deed, c.evidence, req.supersedes);
    assert writes[..n] == writes;
    PartWritten(keys, disk.files, c.deed, c.evidence, req.supersedes, n);
    EvidenceReads(keys, c.deed, time);
    SettledBytes(c.deed);
    GrantsAreSame(c.deed.grants);
    forall p
      ensures PathHolds(keys.sha, Done(disk, c.plan).files, p) <==> PathHolds(keys.sha, disk.files, p)
    {
      HoldsStill(keys, disk.files, c.deed, c.evidence, req.supersedes, p);
    }
  }

  lemma GrantsAreSame(gs: seq<Grant>)
    ensures SameGrants(gs, gs)
  {
    hide Parse;
  }

  lemma CreateLength(keys: Keys, d: Deed, e: Evidence, supersedes: Option<bytes>)
    ensures |CreateWrites(keys, d, e, supersedes)| >= 2
  {
    hide CapFrame, EvidenceFrame;
  }

  /** A create's own writes leave the shelf alone. */
  lemma HoldsStill(keys: Keys, files: Files, d: Deed, e: Evidence, supersedes: Option<bytes>, p: bytes)
    ensures PathHolds(keys.sha, Written(files, CreateWrites(keys, d, e, supersedes)), p)
            <==> PathHolds(keys.sha, files, p)
  {
    hide CreateWrites, Written, Address.HexOf, Hex.Render;
    CreateNames(keys, d, e, supersedes);
    if Address.HexOf(p).Some? {
      Unwritten(files, CreateWrites(keys, d, e, supersedes), Product(Address.HexOf(p).value));
    }
  }
}
