/** Every write an import will make, worked out before the first one: what the
    store already holds has to be what the bag holds, and what it lacks is
    planned. */
module Planning {
  import opened Prelude
  import opened Text
  import opened Carrying
  import opened Deeds
  import opened Order
  import opened Receipt
  import opened Sidecars
  import opened Store
  import Address
  import Current
  import Graph
  import Hex
  import Issuing
  import Log
  import Paths
  import SignedHead
  import Trail
  import Wire

  /** The plan so far: files in the order they are written, then log entries,
      and how many deeds are new here. */
  datatype Staged = Staged(files: seq<Write>, log: seq<Log.Entry>, deeds: nat)

  /** Where a file is planned; the length when it is not. */
  function Find(files: seq<Write>, name: FileName): (i: nat)
    ensures i <= |files|
    ensures i < |files| ==> files[i].name == name
    ensures forall j :: 0 <= j < i ==> files[j].name != name
  {
    if files == [] || files[0].name == name then 0 else 1 + Find(files[1..], name)
  }

  /** Write the file unless it is there already; other content, on disk or
      planned, is refused. */
  function Put(disk: Files, p: Staged, name: FileName, content: bytes): Result<Staged> {
    var i := Find(p.files, name);
    if i < |p.files| then if p.files[i].content == content then Ok(p) else Err(Evidence)
    else if name in disk then if disk[name] == content then Ok(p) else Err(Evidence)
    else Ok(p.(files := p.files + [Write(name, content)]))
  }

  /** Write the file whatever is on disk. */
  function Replace(p: Staged, name: FileName, content: bytes): Staged {
    var i := Find(p.files, name);
    p.(files := if i < |p.files| then p.files[i := Write(name, content)] else p.files + [Write(name, content)])
  }

  // ---------- one deed ----------

  function PlanCap(disk: Files, c: Carried, p: Staged): Result<Staged> {
    var d := c.deed;
    if Tomb(d.id) in disk then Err(Tombstoned)
    else if Cap(d.id) in disk then
      var held :- Get(disk, d.id);
      if !Paths.SameDeed(held, d) then Err(Frozen) else Ok(p)
    else
      var p :- Put(disk, p, Cap(d.id), CapFrame(d));
      Ok(p.(deeds := p.deeds + 1))
  }

  function DigestsNamed(disk: Files, stems: seq<bytes>, id: bytes, found: Option<bytes>): Result<Option<bytes>>
    requires forall s :: s in stems ==> Supersedes(s) in disk
    decreases stems
  {
    if stems == [] then Ok(found)
    else
      var bound :- ReadSupersedes(disk[Supersedes(stems[0])]);
      if bound.None? || bound.value.id != id || bound.value.digest.None? then DigestsNamed(disk, stems[1..], id, found)
      else if found.Some? && found != bound.value.digest then Err(Evidence)
      else DigestsNamed(disk, stems[1..], id, bound.value.digest)
  }

  /** The digest the store's own sidecars bind a superseded deed to. */
  function DigestKept(disk: Files, id: bytes): Result<Option<bytes>> {
    Current.StemsHere(disk);
    DigestsNamed(disk, InOrder(Current.SupersedesStems(disk)), id, None)
  }

  function CheckBound(disk: Files, c: Carried): Result<()> {
    var bound :- DigestKept(disk, c.deed.id);
    Need(bound.Some? ==> bound.value == c.receipt.digest, Evidence)
  }

  type ById = map<bytes, Log.Entry>

  /** One accession logged twice with different fields has no single entry. */
  function LoggedById(entries: seq<Log.Entry>, logged: ById): Result<ById>
    decreases entries
  {
    if entries == [] then Ok(logged)
    else
      var e := entries[0];
      if e.id in logged then if logged[e.id] != e then Err(Evidence) else LoggedById(entries[1..], logged)
      else LoggedById(entries[1..], logged[e.id := e])
  }

  function PlanEntry(sha: Sha, logged: ById, c: Carried, p: Staged): Result<Staged> {
    var id := c.deed.id;
    if id in logged then
      if logged[id].digest == c.receipt.digest && logged[id].time == c.receipt.time then Ok(p) else Err(Evidence)
    else Ok(p.(log := p.log + [EntryFor(sha, c.deed, c.receipt.time)]))
  }

  function PlanEvidence(keys: Issuing.Keys, disk: Files, c: Carried, p: Staged): Result<Staged> {
    Put(disk, p, Evid(c.deed.id), EvidenceFrame(c.deed, Issuing.EvidenceAt(keys, c.deed, c.receipt.time)))
  }

  function HostOf(disk: Files, c: Carried): Option<bytes> {
    if c.host.Some? then c.host else Issuing.Lookup(disk, Host(c.deed.id))
  }

  function PlanHost(keys: Issuing.Keys, disk: Files, c: Carried, p: Staged): Result<Staged> {
    var p :- if c.host.Some? then Put(disk, p, Host(c.deed.id), c.host.value) else Ok(p);
    if keys.attests(Wire.DeedBytes(c.deed), c.receipt.time, HostOf(disk, c)).Err? then Err(Evidence) else Ok(p)
  }

  function PlanProduct(sha: Sha, disk: Files, products: map<bytes, bytes>, path: bytes, p: Staged): Result<Staged> {
    match Address.HexOf(path)
    case None => Err(Evidence)
    case Some(hex) =>
      if Product(hex) in disk then
        if Hex.Render(sha(disk[Product(hex)])) == hex then Ok(p) else Err(Evidence)
      else if hex !in products then Err(Evidence)
      else Put(disk, p, Product(hex), products[hex])
  }

  function PlanProducts(sha: Sha, disk: Files, products: map<bytes, bytes>, paths: seq<bytes>,
      p: Staged): Result<Staged>
    decreases paths
  {
    if paths == [] then Ok(p)
    else
      var p :- PlanProduct(sha, disk, products, paths[0], p);
      PlanProducts(sha, disk, products, paths[1..], p)
  }

  /** Whether a head line is the head a receipt was built against. */
  predicate ProofNames(line: bytes, r: Receipt) {
    SignedHead.Kept(line) == Ok(HeadOf(r))
  }

  /** The receipt kept for the same entry, when that is what is kept. */
  function KeptProof(held: bytes, r: Receipt): Result<Receipt> {
    if !IsUtf8(held) || ParseReceipt(held).Err? then Err(Evidence)
    else
      var kept := ParseReceipt(held).value;
      if EntryOf(kept) == EntryOf(r) then Ok(kept) else Err(Evidence)
  }

  /** A kept receipt stays with its own head; a new one is written with the
      bag's, the receipt first. */
  function PlanProof(disk: Files, head: Option<bytes>, c: Carried, p: Staged): Result<Staged> {
    var id := c.deed.id;
    if Proof(id) in disk then
      var kept :- KeptProof(disk[Proof(id)], c.receipt);
      if head.None? || !ProofNames(head.value, kept) then Ok(p)
      else if Kept(id) !in disk then Put(disk, p, Kept(id), head.value)
      else if IsUtf8(disk[Kept(id)]) && ProofNames(disk[Kept(id)], kept) then Ok(p)
      else Err(Evidence)
    else
      var p :- Put(disk, p, Proof(id), c.proof);
      if head.Some? then Put(disk, p, Kept(id), head.value) else Ok(p)
  }

  function PlanDeed(keys: Issuing.Keys, disk: Files, logged: ById, whole: Whole, c: Carried,
      p: Staged): Result<Staged> {
    var p :- PlanCap(disk, c, p);
    var _ :- CheckBound(disk, c);
    var p :- PlanEntry(keys.sha, logged, c, p);
    var p :- PlanEvidence(keys, disk, c, p);
    var p :- PlanHost(keys, disk, c, p);
    var p :- PlanProducts(keys.sha, disk, whole.products, c.deed.paths, p);
    PlanProof(disk, whole.head, c, p)
  }

  function PlanDeeds(keys: Issuing.Keys, disk: Files, logged: ById, whole: Whole, cs: seq<Carried>,
      p: Staged): Result<Staged>
    decreases cs
  {
    if cs == [] then Ok(p)
    else
      var p :- PlanDeed(keys, disk, logged, whole, cs[0], p);
      PlanDeeds(keys, disk, logged, whole, cs[1..], p)
  }

  // ---------- the links ----------

  type Carriage = map<bytes, Carried>

  function CarriedById(cs: seq<Carried>): Carriage
    decreases |cs|
  {
    if cs == [] then map[]
    else
      var n := |cs| - 1;
      CarriedById(cs[..n])[cs[n].deed.id := cs[n]]
  }

  type Tie = (Link, Link)

  /** Old to new, and new to old. */
  datatype Ties = Ties(byOld: map<bytes, Tie>, byNew: map<bytes, Link>)

  function RequireCarried(link: Link, carried: Carriage): Result<()> {
    Need(link.id in carried ==> carried[link.id].receipt.digest == link.digest, Evidence)
  }

  /** A deed not carried, when the store has its cap, has to be held as linked. */
  function RequireHeld(sha: Sha, disk: Files, carried: Carriage, link: Link): Result<()> {
    if link.id in carried || Cap(link.id) !in disk then Ok(())
    else
      var held :- DigestInStore(sha, disk, link.id);
      Need(held == link.digest, Evidence)
  }

  function CheckLinks(sha: Sha, disk: Files, carried: Carriage, c: Carried): Result<()> {
    if c.successor.Some? then
      var next := c.successor.value;
      var _ :- RequireCarried(next, carried);
      if next.id !in carried && !Serves(disk, next.id) then Err(Evidence)
      else
        var _ :- RequireHeld(sha, disk, carried, next);
        CheckPrior(carried, c)
    else CheckPrior(carried, c)
  }

  function CheckPrior(carried: Carriage, c: Carried): Result<()> {
    if c.supersedes.Some? then RequireCarried(c.supersedes.value, carried) else Ok(())
  }

  function Here(c: Carried): Link {
    Link(c.deed.id, c.receipt.digest)
  }

  function TiesOf(c: Carried): seq<Tie> {
    (if c.supersedes.Some? then [(c.supersedes.value, Here(c))] else [])
    + (if c.successor.Some? then [(Here(c), c.successor.value)] else [])
  }

  function AddTie(ties: Ties, t: Tie): Result<Ties> {
    if t.0.id == t.1.id then Err(Evidence)
    else if t.0.id in ties.byOld && (ties.byOld[t.0.id].1 != t.1 || ties.byOld[t.0.id].0.digest != t.0.digest)
        then Err(Evidence)
    else if t.1.id in ties.byNew && ties.byNew[t.1.id] != t.0 then Err(Evidence)
    else Ok(Ties(ties.byOld[t.0.id := t], ties.byNew[t.1.id := t.0]))
  }

  function AddTies(ties: Ties, ts: seq<Tie>): Result<Ties>
    decreases ts
  {
    if ts == [] then Ok(ties)
    else
      var ties :- AddTie(ties, ts[0]);
      AddTies(ties, ts[1..])
  }

  function CollectTies(sha: Sha, disk: Files, carried: Carriage, cs: seq<Carried>, ties: Ties): Result<Ties>
    decreases cs
  {
    if cs == [] then Ok(ties)
    else
      var _ :- CheckLinks(sha, disk, carried, cs[0]);
      var ties :- AddTies(ties, TiesOf(cs[0]));
      CollectTies(sha, disk, carried, cs[1..], ties)
  }

  /** A sidecar that names the same accession and no digest. */
  predicate IdOnly(held: bytes, id: bytes) {
    IsUtf8(held) && Items(Lines(held)) == [id]
  }

  /** The successor's side: the id and the digest. An id-only file that names
      the same accession is completed. */
  function StageSupersedes(disk: Files, t: Tie, p: Staged): Result<Staged> {
    var name, content := Supersedes(t.1.id), BoundLines(t.0.id, t.0.digest);
    if name !in disk then Put(disk, p, name, content)
    else if disk[name] == content then Ok(p)
    else if IdOnly(disk[name], t.0.id) then Ok(Replace(p, name, content))
    else Err(Evidence)
  }

  /** The prior's side, where the prior will be served. */
  function StageSuccessor(disk: Files, carried: Carriage, t: Tie, p: Staged): Result<Staged> {
    if t.0.id in carried || Serves(disk, t.0.id) then Put(disk, p, Successor(t.0.id), NameLine(t.1.id)) else Ok(p)
  }

  function StageTie(sha: Sha, disk: Files, carried: Carriage, t: Tie, p: Staged): Result<Staged> {
    var _ :- RequireHeld(sha, disk, carried, t.1);
    var p :- StageSupersedes(disk, t, p);
    var _ :- RequireHeld(sha, disk, carried, t.0);
    StageSuccessor(disk, carried, t, p)
  }

  function StageTies(sha: Sha, disk: Files, carried: Carriage, ts: seq<Tie>, p: Staged): Result<Staged>
    decreases ts
  {
    if ts == [] then Ok(p)
    else
      var p :- StageTie(sha, disk, carried, ts[0], p);
      StageTies(sha, disk, carried, ts[1..], p)
  }

  /** The ties in the order of the superseded accessions. */
  function TiesInOrder(byOld: map<bytes, Tie>): seq<Tie> {
    InOrderElements(byOld.Keys);
    var olds := InOrder(byOld.Keys);
    seq(|olds|, i requires 0 <= i < |olds| => assert olds[i] in olds; byOld[olds[i]])
  }

  function PlanLinks(sha: Sha, disk: Files, carried: Carriage, cs: seq<Carried>, p: Staged): Result<Staged> {
    var ties :- CollectTies(sha, disk, carried, cs, Ties(map[], map[]));
    StageTies(sha, disk, carried, TiesInOrder(ties.byOld), p)
  }

  // ---------- the whole plan ----------

  function PlanFiles(keys: Issuing.Keys, disk: Disk, whole: Whole): Result<Staged> {
    var entries :- Log.Entries(disk.log);
    var logged :- LoggedById(entries, map[]);
    var p :- PlanDeeds(keys, disk.files, logged, whole, whole.carried, Staged([], [], 0));
    PlanLinks(keys.sha, disk.files, CarriedById(whole.carried), whole.carried, p)
  }

  function PlanOf(p: Staged): Plan {
    Plan(p.files, p.log)
  }

  // ---------- the deeds carried ones were made from ----------

  /** A source of `c`: as carried, or as the store serves it under the digest
      the bag names. */
  function FoundSource(sha: Sha, disk: Files, carried: Carriage, c: Carried, id: bytes): Result<Deed> {
    if id in carried then
      if id in c.sources && c.sources[id] != carried[id].receipt.digest then Err(Evidence) else Ok(carried[id].deed)
    else
      match Get(disk, id)
      case Err(_) => Err(Evidence)
      case Ok(d) => if id !in c.sources || DeedDigest(sha, d) != c.sources[id] then Err(Evidence) else Ok(d)
  }

  function SourceOf(sha: Sha, disk: Files, carried: Carriage, c: Carried): Trail.Get {
    id => FoundSource(sha, disk, carried, c, id)
  }

  /** Every deed a carried one was made from is found, and one that is not
      carried passes evidence here. */
  ghost predicate TrailPasses(keys: Issuing.Keys, disk: Files, carried: Carriage, c: Carried) {
    var get := SourceOf(keys.sha, disk, carried, c);
    forall id :: Graph.Reaches(Trail.Sources(c.deed, get), c.deed.id, id) && id != c.deed.id ==>
      get(id).Ok? && (id in carried || Issuing.EvidenceLocal(keys, disk, get(id).value).Ok?)
  }

  ghost predicate TrailsPass(keys: Issuing.Keys, disk: Files, carried: Carriage, cs: seq<Carried>) {
    forall c :: c in cs ==> TrailPasses(keys, disk, carried, c)
  }

  /** An import of what was read plans `p`. */
  ghost predicate Plans(keys: Issuing.Keys, disk: Disk, whole: Whole, p: Staged) {
    && PlanFiles(keys, disk, whole) == Ok(p)
    && TrailsPass(keys, disk.files, CarriedById(whole.carried), whole.carried)
  }
}
