# Deedar, verified

A model in Dafny of deedar, a store of frozen deeds with an append-only Merkle
log, and of the handovers by which one store's deeds reach another. It follows
four parts of the program and proves them against one another.

- **The log** (`Shape`, `Tree`, `Merkle`, `Log`, `Hex`). Provers recurse from the
  top and verifiers loop from the bottom on two shifted counters, as in sections
  2.1.1, 2.1.3 and 2.1.4 of RFC 9162. Both directions meet for every size.
- **Handovers** (`Fields`, `Receipt`, `SignedHead`, `HeadLine`, `Bag`, `Handover`). Receipts,
  bridges, signed heads and the link transcript as text and as checks, and what a
  receiver who keeps heads is safe from.
- **The wire codec** (`Deeds`, `Paths`, `Wire`, `WireProofs`, `Decoded`, `Frames`,
  `Truncated`, `Fitting`, `Buffers`). Log digests are taken over these octets.
- **The store** (`Store`, `Issuing`, `Ingest`, `Minting`, `Audit`, `Sidecars`,
  `Current`, `Walk`, `Chains`, `Forks`, `Trail`, `Digests`, `Exports`, `Caching`,
  `Exported`, `Carrying`, `Importing`, `Planning`, `Planned`, `Linked`, `Plans`,
  `Recovery`, `Resuming`, `Landing`, `Settling`, `Spelling`, `Received`, `Crossing`,
  `Delivered`, `Runs`, `FsStore`). The files and the log as a state that creates,
  deletes, backfills and imports change write by write, each of which can stop
  anywhere; and the way of a bag from the store that exports it to one that
  imports it.

`Prelude`, `Text`, `Order`, `Graph` and `Address` are what the others share.

## How it is stated

Every operation has a specification function; loops and objects are methods and
classes proved equal to it (`Merkle.VerifyInclusion`, `Walk.Run`, `Plans.Plan`,
`FsStore.FsStore`), and the properties are lemmas about the specification.

The hash is a parameter. A result that needs it to be collision-free assumes so
of the inputs hashed by the values it speaks of, a finite set named in the
premise (`Merkle.InclusionInputs`, `Handover.SinceInputs`), so a failure of the
premise is a collision in that set. The keyed hash, the signature scheme, the
host's sidecar and the layout's judgement of one are parameters too.

A plan is a list of whole-file writes and a list of log entries. `Store.Partly`
is the disk after the first `k` and `j` of them, and `Store.StopsAt` says that no
entry is appended before every file is written.

Text is its UTF-8 octets. A directory is listed in name order; the program sorts
what it lists, so that decides at most which of several errors is returned.

## What does not hold as it might be read

- A receipt or a bridge does not survive its file when a text field holds a
  newline or ends in a carriage return, nor a signed head its line when its root
  holds white space; `Receipt.ReceiptRoundTrip`, `Receipt.BridgeRoundTrip` and
  `HeadLine.HeadRoundTrip` give the exact conditions.
- A deed read off the wire does not read back when a message identifier in it has
  outgrown its length prefix, and only then (`Decoded.Reencodes`): parsing adds
  the angle brackets. There are such octets (`Decoded.SomeAreLost`), none of them
  shorter than 2^32 (`Decoded.FewOctetsFit`), so none in a cap file
  (`Store.CapGood`).
- Heads over an empty log are bridged to no other (`Handover.SinceExact`,
  `Exports.StoreBridgeChecks`).
- A log that does not end its last line swallows the next entry
  (`Log.AppendExact`), and an import that has appended to it is not completed by
  importing again (`Resuming.ResumesExactly`).
- The exporter finds the last entry of an accession and the store the first
  (`Exports.ReceiptsAgree`).
- The log-first lookup differs from the shelf walk exactly when the log names a
  deed with the digest and not the last one served with it
  (`Digests.ResolveExact`). Two served deeds share a digest only if their octets
  collide (`Digests.ServedDigestsDiffer`), so short of a collision it never does
  (`Digests.ResolveIsListed`).
- Two exports at once can answer one of them from a tree over a longer log than
  its stamp's (`Caching.OverlapIsNotExact`): exactly when the export that stored
  the tree saw an append between reading its stamp and reading the log
  (`Caching.HitExact`).
- A create that stops before its evidence is refused when asked again, or answered
  with a stale evidence file, and one that stops later is answered without ever
  being logged until a backfill (`Minting.AttemptAgain`); one that stops just
  before its last link file, and no other, lets the prior be superseded twice
  (`Forks.StoppedCreateForks`).
- An import takes a held deed for the carried one when their paths are the same,
  however spelled. When the held one is not logged, its other octets make the entry
  it appends a false one, and the audit then misses a deed that is served: a create
  stopped after its cap and an import are enough (`Spelling.SpellingBreaksTheLog`).
  Short of a collision an import's plan keeps the log invariant if and only if every
  carried deed held here and not logged has here the octets it travels as
  (`Landing.ImportSoundExact`), which a caller sees by comparing the two files.
- A refused create can leave product bytes on the shelf, and nothing else
  (`Minting.RefusedOnlyShelves`).
- A deed whose frame would hold 2^32 octets or more reads back from its cap as
  nothing at all (`Truncated.FrameExact`), so `Importing.Clear` bounds carried
  octets and `Fitting.Fits` those of a create.

## Model

| member | source | states |
|---|---|---|
| Shape.SplitPoint | crates/deedar/src/log.rs:94-100 | for every width of two or more the doubling loop ends at the one power of two strictly below the width with the width at most twice it |
| Shape.InclusionSidesAgree | crates/deedar/src/log.rs:131-184 | the sides the bottom-up verifier reads off its two shifted counters are, for every index and size, the sides of the prover's top-down recursion |
| Shape.ConsistencySidesAgree | crates/deedar/src/log.rs:201-277 | the same for consistency: stripping odd levels and climbing meets the recursion's sides for every held and current size |
| Merkle.VerifyInclusion | crates/deedar/src/log.rs:152-184 | the loop with its inner skip accepts exactly what climbing the path over those sides accepts |
| Merkle.Skip | crates/deedar/src/log.rs:175-178 | the inner loop passes every level at which the subtree has no sibling |
| Merkle.VerifyConsistency | crates/deedar/src/log.rs:224-277 | the loop accepts exactly what both climbs from the seed accept, error branches included |
| Merkle.RootInjective | crates/deedar/src/log.rs:81-90 | two leaf lists of one length and one root are one list, short of a collision among the inputs hashed |
| Merkle.EveryLeafProvesIn | crates/deedar/src/log.rs:131-184 | completeness: for every list and index the prover writes a path and the verifier takes it, whatever the hash |
| Merkle.InclusionExact | crates/deedar/src/log.rs:131-184 | a leaf, index and path pass against the head of a list if and only if the leaf is the one there and the path is the prover's own |
| Merkle.EveryPrefixProvesItIsOne | crates/deedar/src/log.rs:191-277 | completeness of consistency for every prefix but the empty one, power-of-two sizes included |
| Merkle.ConsistencyExact | crates/deedar/src/log.rs:191-277 | a bridge between two heads passes if and only if the older list is a non-empty prefix of the newer and the path is the prover's own |
| Hex.RoundTrip | crates/deedar/src/log.rs:282-300 | parsing gives a digest back from exactly the text rendering writes, so no other spelling is taken |
| Log.EntryRoundTrip | crates/deedar/src/log.rs:25-55 | an entry's material and its line both parse back to the entry |
| Log.MaterialInjective | crates/deedar/src/log.rs:25-34 | two entries that hash over the same octets are one entry |
| Log.EntriesPlain | crates/deedar/src/fs.rs:450-460 | whatever a log file holds, an entry read out of it is one a line can carry |
| Log.AppendEntry | crates/deedar/src/fs.rs:393-411 | appending a line to a file of whole lines adds that entry and keeps every entry before it |
| Log.AppendExact | crates/deedar/src/fs.rs:393-460 | the append adds exactly its entry if and only if the file ended its last line |
| Log.LogReadsBack | crates/deedar/src/fs.rs:393-460 | a file built by any run of appends reads back as exactly the entries appended |
| Receipt.ReadReceipt | crates/deedar/src/receipt.rs:64-107 | the field loop computes the receipt grammar: last value of a repeated key, no defaults, unknown keys refused |
| Receipt.ReceiptsReadPlain | crates/deedar/src/receipt.rs:64-107 | whatever the text, a receipt read from it has no newline in a field and no number beyond 64 bits |
| Receipt.ReceiptRoundTrip | crates/deedar/src/receipt.rs:48-107 | a receipt survives its file if and only if no text field holds a newline or ends in a carriage return |
| Receipt.ReadBridge | crates/deedar/src/receipt.rs:403-425 | the loop that reads a bridge computes its grammar |
| Receipt.BridgeRoundTrip | crates/deedar/src/receipt.rs:387-425 | a bridge survives its file if and only if neither root holds a newline or ends in a carriage return |
| SignedHead.ReadKept | crates/deedar/src/receipt.rs:461-487 | the loop over words keeps the last size and the last root, and refuses a bridge |
| SignedHead.SignedIsKept | crates/deedar/src/receipt.rs:237-288 | every line that parses as a signed head is, read as a kept head, the head it signs; an import relies on it |
| HeadLine.HeadRoundTrip | crates/deedar/src/receipt.rs:210-288 | a signed head reads back from its line if and only if its size is 64 bits, its root one word and its links a digest |
| Deeds.IdIsPlain | crates/deed/src/id.rs:11-27 | an accession is never empty, and carries no tab, space or line break into a line or a sidecar |
| Deeds.MessageIdIdempotent | crates/deed/src/body.rs:13-33 | what parsing a message identifier writes, parsing reads back unchanged, and it is at most two octets longer |
| Paths.MoreSpellings | crates/deed/src/body.rs:191-232 | paths compare by components: a doubled slash, a dot between slashes or a slash at the end is the same path |
| Paths.SpellingsLocal | crates/deedar/src/fs.rs:1027-1046 | another spelling of a local path is a local path, so a rewrite never takes an address or an empty path for one |
| WireProofs.DeedRound | crates/deedar/src/wire.rs:793-864 | for every well-formed deed and any octets after it, taking gives the deed and those octets |
| WireProofs.DeedBytesInjective | crates/deedar/src/wire.rs:773-791 | two well-formed deeds with one canonical form are one deed |
| WireProofs.BodyRound | crates/deedar/src/wire.rs:459-771 | the same round trip for each of the eleven body shapes |
| WireProofs.EvidenceRound | crates/deedar/src/wire.rs:866-909 | the same round trip for evidence |
| Decoded.DeedTaken | crates/deedar/src/wire.rs:814-864 | every field before the body of a deed read from any octets is well formed, and all of it is if and only if its message identifiers fit their length prefixes |
| Decoded.Reencodes | crates/deedar/src/wire.rs:773-864 | a deed read from any octets reads back from its canonical form if and only if its message identifiers fit their length prefixes |
| Decoded.SomeAreLost | crates/deed/src/body.rs:13-33 | there are octets that read as a deed whose canonical form does not read back as it |
| Decoded.FewOctetsFit | crates/deedar/src/wire.rs:814-864 | whatever is read from fewer than 2^32 octets is well formed, and so reads back |
| Frames.WrapRound | crates/deedar/src/wire.rs:188-212 | a frame gives its payload back whatever follows it, for payloads below 2^32 octets |
| Frames.CreateRound | crates/deedar/src/wire.rs:261-328 | a create request survives its encoding, optional fields and the trailing superseded accession included |
| Frames.RequestRound | crates/deedar/src/wire.rs:59-124 | every well-formed request survives its frame |
| Frames.ResponseRound | crates/deedar/src/wire.rs:126-186 | every well-formed response survives its frame |
| Truncated.DeedSteady | crates/deedar/src/wire.rs:814-864 | a deed read from some octets is read from them with more after, and leaves those |
| Truncated.CutIsLost | crates/deedar/src/wire.rs:793-864 | cut anywhere before its end, a well-formed deed's encoding reads as no deed |
| Truncated.FrameExact | crates/deedar/src/wire.rs:126-212 | the frame a deed is kept in gives it back if and only if its payload is below 2^32 octets; a longer one reads as nothing |
| Fitting.FitsReads | crates/deedar/src/wire.rs:773-864 | a deed of the program's types that fits a frame reads back as itself, but for optional texts present and empty, which come back absent |
| Buffers.Buffer.AppendBody | crates/deedar/src/wire.rs:459-584 | the appends to the shared buffer come to the body's encoding after what was there |
| Buffers.Buffer.AppendDeed | crates/deedar/src/wire.rs:793-812 | the appends to the shared buffer come to the deed's encoding after what was there |
| Buffers.TakeItems | crates/deedar/src/wire.rs:586-771 | the counted take-and-push loop computes the list grammar and stops at the first item that does not read |
| Buffers.ReadDeed | crates/deedar/src/wire.rs:814-864 | the cursor moved through the fields of a deed computes the deed grammar on every input |
| Order.AscendingIsInOrder | crates/deedar/src/receipt.rs:1033-1035 | a list in strict order is the ordered listing of its members, so sorted results are unique |
| Walk.Run | crates/deedar/src/current.rs:182-249 | on every finite graph: a cycle if and only if one is reachable, with ids that lie on one; otherwise the reachable ids with no successor, each once, in order, never none; an error only for a reachable id that cannot be read |
| Walk.EndAnswers | crates/deedar/src/current.rs:240-249 | the final match is exact, and its empty arm is never taken |
| Trail.WalkTrail | crates/deed/src/trail.rs:9-36 | ends on every finite graph with the start first and then exactly the deeds reachable by source edges, each once; fails only on a reachable accession that cannot be read |
| Bag.LinkCommitment | crates/deedar/src/receipt.rs:793-836 | the loop over folders hashes the transcript, or fails on a name that is not text |
| Bag.TranscriptDecodes | crates/deedar/src/receipt.rs:793-836 | equal transcripts mean equal folder names and equal sidecars in each, absent told from empty, for arbitrary content |
| Bag.SignedLinksAgree | crates/deedar/src/receipt.rs:842-864 | two bags one signed head is bound to carry the same link sidecars |
| Address.AddressPlain | crates/deedar/src/fs.rs:1341-1345 | a write-once address is the prefix and its hex, and can stand in any line |
| Address.OfInjective | crates/deedar/src/digest.rs:9-12 | one content address stands for one digest |
| Handover.CheckHandover | crates/deedar/src/receipt.rs:896-1047 | the loop over folders with its complaints computes the check's verdict |
| Handover.MovedIsNamed | crates/deedar/src/receipt.rs:1075-1107 | a head line its signature does not cover is always complained of: the list is never empty |
| Handover.CheckExact | crates/deedar/src/receipt.rs:896-1047 | the check succeeds if and only if the head line reads, is covered and binds the links, and all folders are proven against one head, the line's when there is one |
| Handover.CheckedOut | crates/deedar/src/receipt.rs:896-1047 | what a successful check reports: the folder names in order, their common head, none only for an empty bag |
| Handover.Verdicts | crates/deedar/src/receipt.rs:1033-1047 | signer, acceptance and listing as reported |
| Handover.UncoveredFails | crates/deedar/src/receipt.rs:896-1047 | a bag whose head line the signature does not cover always fails |
| Handover.HandoverSound | crates/deedar/src/receipt.rs:127-173 | when a bag checks against the head of a log, every proven accession is in that log at its receipt's index under the digest its octets hash to, and the list is sorted without repeats |
| Handover.SinceExact | crates/deedar/src/receipt.rs:502-534 | a head passes against a kept one if and only if nothing changed and no bridge is given, or the kept log is a prefix and the bridge is the one the store writes |
| Handover.StoreBridgePasses | crates/deedar/src/receipt.rs:433-448 | the bridge a store writes passes whatever the hash; from an empty log there is none |
| Handover.RunOnlyGrows | crates/deedar/src/receipt.rs:502-534 | along any run of kept heads that pass, every earlier log is a prefix of every later one |
| Handover.ProvenStaysLogged | crates/deedar/src/receipt.rs:502-534 | what a bag proved against a kept head stays in every later log at its index with its digest |
| Store.RestCompletes | crates/deedar/src/import.rs:189-196 | stopping after any writes and appends and then doing the rest comes to doing all of them |
| Store.GoodReadable | crates/deedar/src/wire.rs:773-791 | every well-formed deed that fits a frame is one its cap file gives back |
| Store.CapReads | crates/deedar/src/fs.rs:789-803 | a deed whose octets are one deed and fit a frame is given back by its cap file |
| Store.CapEchoes | crates/deedar/src/fs.rs:789-803 | the cap file of any deed that fits gives back a deed of the same accession and the same canonical octets |
| Store.CapGood | crates/deedar/src/fs.rs:789-803 | every deed out of a cap file is well formed and reads back from its canonical form |
| Store.SoundKept | crates/deedar/src/fs.rs:386-411 | wherever a sound plan stops, the log still reads, names nothing twice, has the held deeds' digests, and is the old log grown |
| Issuing.MintedFacts | crates/deedar/src/fs.rs:321-390 | a granted create either writes nothing or mints: its cap and tomb were absent, and a superseded deed is held, is another deed, and had no successor |
| Issuing.CreateSound | crates/deedar/src/fs.rs:352-390 | the writes and the entry of every create keep a sound store sound |
| Issuing.AskedAgain | crates/deedar/src/fs.rs:350-390 | freezing the same deed after a stop at any write: starts over, or writes nothing and is refused, or answers with the evidence there, whatever evidence file there was before |
| Minting.RefusedOnlyShelves | crates/deedar/src/fs.rs:321-363 | a refused create logs nothing, and adds at most product bytes under their hashes, none over a file |
| Minting.AttemptSound | crates/deedar/src/fs.rs:321-390 | what a create writes, refused or granted, keeps a sound store sound |
| Minting.AttemptResumes | crates/deedar/src/fs.rs:321-390 | stopped while its files were taken in and asked again, a create does exactly the rest and answers the same |
| Minting.AttemptAgain | crates/deedar/src/fs.rs:316-390 | stopped at any later write and asked again, it writes nothing: frozen if it supersedes or has an empty optional text, else answered from the evidence file, or refused for want of one |
| Minting.AttemptPassesEvidence | crates/deedar/src/fs.rs:907-918 | a deed just created over a truthful shelf passes the evidence check if and only if each path not taken in is an address whose bytes are there |
| Audit.ShelfExact | crates/deedar/src/fs.rs:818-845 | the shelf lists exactly the deeds that are served |
| Audit.UnloggedAre | crates/deedar/src/fs.rs:566-576 | the audit's unlogged accessions are exactly those served and never logged |
| Audit.UnloggedAscends | crates/deedar/src/fs.rs:577-577 | each unlogged accession is listed once, in order |
| Audit.AuditMissesTheEntombed | crates/deedar/src/fs.rs:557-613 | in a sound store the audit's missing list is exactly the entombed entries, and its count is the log's |
| Audit.BackfillSound | crates/deedar/src/fs.rs:421-435 | what a backfill appends keeps a sound store sound |
| Audit.BackfillSettles | crates/deedar/src/fs.rs:421-435 | after a backfill nothing served is unlogged, and another backfill adds nothing |
| Sidecars.NameLineReads | crates/deedar/src/current.rs:89-90 | the link files a create writes read back as the accession, with no digest bound |
| Sidecars.BoundLinesRead | crates/deedar/src/fs.rs:1356-1388 | the link file an import writes reads back as the accession and its digest |
| Current.ReadSupersededBy | crates/deedar/src/current.rs:108-138 | the loop over sidecars fills the map of who names whom, and fails on the first that does not read |
| Current.SupersededByExact | crates/deedar/src/current.rs:108-138 | the map has exactly the served deeds whose sidecars name each prior, and exists if and only if those sidecars read |
| Current.CurrentWalk | crates/deedar/src/current.rs:61-64 | the walk answers over the edges both sidecars give, on every store |
| Current.Resolve | crates/deedar/src/current.rs:40-46 | the one deed when the walk ends in one; a fork and a cycle are refused |
| Current.ChainedEndsInATip | crates/deedar/src/current.rs:61-64 | where every create finished, the walk from any accession is one tip, the end of its served chain, never a fork or a cycle |
| Chains.CreateKeepsChains | crates/deedar/src/current.rs:78-92 | a create that finishes keeps each deed at one successor at most and every link going to a later log entry |
| Chains.AttemptKeepsChains | crates/deedar/src/fs.rs:321-390 | so does a whole create with its body's files, granted or refused |
| Chains.DeleteKeepsChains | crates/deedar/src/fs.rs:847-856 | so does a delete |
| Forks.StoppedCreateForks | crates/deedar/src/current.rs:85-91 | after a create stops at any write, another superseding the same deed is granted exactly when the first's last write is not done and its own deed is new there, and leaves two successors if and only if that write was all the first had left |
| Digests.ResolveAddress | crates/deedar/src/digest.rs:21-78 | the log-first lookup, with its early exits, as a loop over lines and hits |
| Digests.WalkShelf | crates/deedar/src/digest.rs:81-107 | the shelf walk keeps the last digest match and counts the path matches |
| Digests.ResolveExact | crates/deedar/src/digest.rs:21-107 | for every store and log the fast lookup answers as the shelf walk if and only if the log names the last matching deed, or none of them |
| Digests.ServedDigestsDiffer | crates/deedar/src/digest.rs:9-12 | two served deeds share a digest only if their canonical octets collide |
| Digests.ResolveIsListed | crates/deedar/src/digest.rs:21-107 | so short of a collision among the served deeds it always does, whatever the log holds |
| Exports.BuildTree | crates/deedar/src/fs.rs:659-680 | one pass over the log builds the leaves, the head, and each accession's last index |
| Exports.ReceiptsAgree | crates/deedar/src/fs.rs:45-63 | the exporter's receipt is the store's own if and only if the log does not name the accession twice |
| Exports.StoreReceiptChecks | crates/deedar/src/fs.rs:490-514 | a store's receipt names its entry and lies on the path to its head |
| Exports.TreeReceiptChecks | crates/deedar/src/fs.rs:45-63 | an exporter's receipt exists if and only if the accession is logged, and checks too |
| Exports.StoreBridgeChecks | crates/deedar/src/fs.rs:535-548 | a store bridges from every size its log has had but zero, and the bridge passes against the head it had then |
| Caching.EveryAnswerIsFresh | crates/deedar/src/fs.rs:622-644 | under any interleaving of exports and appends an answer is a tree over the log no older than the export's stamp and no newer than now |
| Caching.HitIsExact | crates/deedar/src/fs.rs:622-644 | with one export at a time and any appends between its steps, a cached tree is the tree over the log as it stood at the stamp |
| Caching.OverlapIsNotExact | crates/deedar/src/fs.rs:622-644 | two exports at once break that: the first finds under its own stamp a tree over a longer log |
| Caching.HitExact | crates/deedar/src/fs.rs:622-644 | over any interleaving whose appends are entries, a cached tree is the tree over the log at the stamp if and only if no append fell between the stamp and the reading of the export that stored it |
| Exported.ReceiptSurvives | crates/deedar/src/fs.rs:77-80 | the receipt an export of a sound store writes is text, parses back, and names the held deed's digest |
| Exported.WriteSources | crates/deedar/src/fs.rs:759-772 | a deed's export writes its trail's accessions with their digests, in order, or nothing for an empty trail, and fails if and only if some deed of the trail is not served |
| Exported.ExportedFolderPasses | crates/deedar/src/fs.rs:73-93 | a folder exported from a sound store is proven against its log's head |
| Exported.ExportedBagChecks | crates/deedar/src/fs.rs:682-774 | a bag of such folders checks out, unsigned or under a head line that covers it |
| Carrying.ReadIsProven | crates/deedar/src/import.rs:715-791 | a folder the import reads passes the folder check of the handover |
| Carrying.WholeFolders | crates/deedar/src/import.rs:686-713 | reading a bag reads each folder once and keeps the head line |
| Carrying.ReadIsChecked | crates/deedar/src/import.rs:796-837 | a bag read after its check and held to it checks out itself with the same answer, so what is imported was checked |
| Received.SourcesRead | crates/deedar/src/import.rs:860-888 | the trail sidecar an export writes is read as exactly the deeds of the trail with the digests they are served with |
| Received.BagReads | crates/deedar/src/import.rs:686-791 | a bag a sound store exported is read whole: every folder once, with the deed, receipt, host sidecar, both links and trail the store has |
| Received.BagAdmitted | crates/deedar/src/import.rs:158-246 | such a bag, its head line covered or absent, passes every comparison between its check and its reading |
| Importing.AdmittedGood | crates/deedar/src/import.rs:686-837 | what an admitted bag's reading establishes: canonical deeds, distinct accessions, hashed products, well-formed links, one head |
| Planned.PutAllowed | crates/deedar/src/import.rs:108-130 | putting a file plans it once, never over a file that is there, and only adds to the plan |
| Planned.AllDeedsKept | crates/deedar/src/import.rs:271-426 | planning every carried deed plans each file once, no link files, and one entry for each accession the log lacks |
| Plans.Plan.Put | crates/deedar/src/import.rs:108-130 | the plan and its index after a put; the index stays exact; a refusal changes nothing |
| Plans.Plan.Replace | crates/deedar/src/import.rs:133-140 | the plan and its index after a replacement; the index stays exact |
| Plans.ReadDigestKept | crates/deedar/src/import.rs:617-647 | the scan for a digest other sidecars bind a deed to |
| Plans.ReadLogged | crates/deedar/src/import.rs:250-267 | the log by accession, refused when one is logged with different fields |
| Plans.StageDeed | crates/deedar/src/import.rs:271-426 | one deed planned step by step, in the source's order |
| Plans.GatherTies | crates/deedar/src/import.rs:440-500 | the two maps filled from both sidecars of every carried deed |
| Plans.StageLinks | crates/deedar/src/import.rs:434-541 | the links staged in the order of the superseded accessions |
| Plans.CheckTrails | crates/deedar/src/import.rs:546-600 | succeeds if and only if every deed a carried one was made from is found as named and, when not carried, passes evidence |
| Plans.PlanImport | crates/deedar/src/import.rs:232-246 | a plan if and only if there is one, and nothing is written |
| Linked.LinksPlanned | crates/deedar/src/import.rs:434-541 | the planned links are one to one, include every link the bag names, and have both sides planned or held |
| Linked.AddTieInverse | crates/deedar/src/import.rs:475-498 | the two maps stay inverse to each other |
| Resuming.BoundExact | crates/deedar/src/import.rs:617-647 | a deed passes the bound-digest check if and only if every sidecar reads and none binds it to another digest |
| Resuming.ImportResumes | crates/deedar/src/import.rs:153-202 | after any prefix of the file writes and any prefix of the appends, planning again succeeds with exactly the rest, which completes the import; after all of them it plans nothing |
| Resuming.ResumesExactly | crates/deedar/src/import.rs:189-196 | stopped anywhere, an import is planned again as exactly the rest if and only if nothing was appended yet or the log ended its last line before it |
| Landing.ImportOnlyAdds | crates/deedar/src/import.rs:108-140 | wherever an import stops, every file that was there has its content, but an id-only supersedes sidecar that gained its digest |
| Landing.LinksStand | crates/deedar/src/import.rs:434-541 | when it is done every link of the bag stands on the new deed's side and, where the old deed is carried or served, on the old one's, one to one |
| Landing.ImportSound | crates/deedar/src/import.rs:271-315 | an import's plan keeps a sound store sound when every carried deed held here and not logged has the octets it travels as |
| Landing.ImportSoundExact | crates/deedar/src/import.rs:271-315 | and short of a collision only then: a guard a caller can read off the two files before importing |
| Spelling.OneDeedTwice | crates/deedar/src/import.rs:283-283 | there are two deeds the import takes for one that are not one: their grants spell one path otherwise |
| Spelling.SpellingBreaksTheLog | crates/deedar/src/import.rs:282-315 | a create stopped after its cap, then an import of the deed under another spelling: it is planned, and the audit then misses a deed that is served |
| Settling.AlikeAreEvidenced | crates/deedar/src/import.rs:543-600 | what the trail check is for: when an import is done, every carried deed that was new here or held as it travels is served as it travelled, every deed it was made from is served, and each of them passes evidence |
| Settling.CarriedAreEvidenced | crates/deedar/src/import.rs:543-600 | in a sound store, short of a collision, that needs no more than what keeps the log sound |
| Crossing.NewDeedsPlan | crates/deedar/src/import.rs:271-541 | an import of deeds the store knows nothing of is planned when their bytes travel, their sidecars are accepted and the links are one to one |
| Delivered.ChainedApart | crates/deedar/src/fs.rs:728-758 | whatever a store whose chains are kept exports, the links of the bag are one to one |
| Delivered.ExportImports | crates/deedar/src/fs.rs:682-774 | a bag exported by a sound store, closed under trails and successors, is admitted and planned by every store that knows none of its deeds, nor of those its links name, and accepts their sidecars, when its links are one to one |
| Delivered.ExportArrives | crates/deedar/src/fs.rs:682-774 | when that import is done, every deed of the bag is served as the first store serves it and the evidence of its whole trail holds |
| FsStore.ExportIsImportable | crates/deedar/src/import.rs:158-202 | so the importing store does not refuse it |
| Ingest.RewriteBody | crates/deed/src/body.rs:191-232 | every spelling of one path, and no other path, is rewritten, and nothing else of the body changes |
| Ingest.IngestShelves | crates/deedar/src/fs.rs:1027-1079 | taking files in, to its end or up to the path it fails at, writes product bytes under their hashes alone |
| Ingest.IngestResumes | crates/deedar/src/fs.rs:1027-1079 | taking the same paths in over any part of those writes does the rest and rewrites the body the same way |
| Ingest.IngestedBody | crates/deedar/src/fs.rs:1027-1046 | each local path ends as the address of the bytes its first spelling reads as, any other path and the rest of the body are unchanged, each other path is an address or empty, the bytes are on the shelf, and nothing there before is changed |
| Ingest.FreshDeedPassesEvidence | crates/deedar/src/fs.rs:907-918 | a deed just frozen passes the evidence check, with the evidence it was created with, if and only if its product bytes are on the shelf |
| Runs.RunGrows | crates/deedar/src/fs.rs:321-435 | over any run of creates, deletes, backfills and imports, each stopped anywhere, inside a create's taking in of files too: the log only grows, names nothing twice, and every digest is the held deed's, when no import finds an unlogged deed held under another spelling |
| Runs.RunAudits | crates/deedar/src/fs.rs:557-613 | at every point of such a run the audit misses exactly the entombed entries |
| Runs.RunBridges | crates/deedar/src/fs.rs:535-548 | at every point of a run the store bridges from every earlier head over some entry, and the check passes |
| Runs.WholeRunChains | crates/deedar/src/current.rs:78-92 | every store that whole creates and deletes made, refused ones among them, keeps single forward chains |
| Runs.WholeRunEndsInATip | crates/deedar/src/current.rs:40-64 | in every such store the sidecars read and the walk from any accession ends in one tip it reaches, never a fork, a cycle or an error |
| FsStore.FsStore.Create | crates/deedar/src/fs.rs:321-390 | the answer, and the files and the log after checks, taking in and freezing in order; a refusal logs nothing and adds at most product bytes |
| FsStore.FsStore.RecordSupersedes | crates/deedar/src/current.rs:78-92 | its repeated checks hold after a create's own, and it writes both link files |
| FsStore.FsStore.IngestInto | crates/deedar/src/fs.rs:1027-1079 | the body rewritten and the shelf filled, path by path; the files only gain product bytes, whether it succeeds or fails |
| FsStore.FsStore.Delete | crates/deedar/src/fs.rs:847-856 | entombs a held deed and changes nothing else |
| FsStore.FsStore.LogAudit | crates/deedar/src/fs.rs:557-613 | the audit in both directions, computed by its loops |
| FsStore.FsStore.LogBackfill | crates/deedar/src/fs.rs:421-435 | appends one line for each unlogged deed, in order |
| FsStore.FsStore.ImportHandover | crates/deedar/src/import.rs:158-202 | all or nothing: fails, writing nothing, if and only if the bag is not importable; otherwise the disk is the plan carried out |
| FsStore.StoppedImportCompletes | crates/deedar/src/import.rs:143-202 | a stopped import of an admitted bag is granted again and completes to the same files and log |

## Left out

- SHA-256, HMAC and Ed25519 themselves: parameters, as above.
- The width of a machine word in sizes and indices: unbounded here, except where text is parsed to 64 bits and where lengths are written in 32; a log of 2^64 entries is outside `Exported.ExportedBagChecks`.
- Two processes inside one create: its checks and writes hold no common lock, so creates run one after another and stop between writes. Appends by other processes are modelled in the tree cache.
- Directory errors, symbolic links, fifos, permissions and temporary names: each whole-file write is one step, and a file is absent or has its octets.
- Lossy conversion of file names: names are octets, and one that is not UTF-8 fails where the program needs text.
- The three instants of a clip are their 64 bits; comparing them as numbers is not needed by anything modelled.
- Assembling a draft into a deed (`Deed::from_draft`, `Body::validate`, minted accessions): a function of the ingested body that `FsStore.FsStore.Create` is given; `Minting.KeepsDraft` says what it keeps.
- The evidence of a whole trail (`FsStore::evidence`): `Issuing.EvidenceLocal` is one deed's, and the time a backfill stamps is a parameter.
- What a host sidecar says (`host.rs`, `attest.rs`): whether it reads and whether the layout accepts it are parameters of every member that depends on them.
- Decoding lists is written once, as a list of any item (`Wire.TakeList`, `Buffers.TakeItems`), where the program repeats the loop for each kind.
- Reading one bag folder twice under two spellings of its accession: the program refuses it, and folders here have distinct names that are the accessions, so it cannot arise.
- Runs.RunGrows: a create in a run is of a deed of the program's types whose octets fit the frame of its cap (`Fitting.Fits`): text in UTF-8, numbers of 64 bits, parsed accessions, addresses and message identifiers. One whose octets do not fit is logged and cannot be read back (`Truncated.FrameExact`). An import in a run finds no unlogged deed held here under another spelling (`Landing.Alike`); past such an import the log invariant is false (`Spelling.SpellingBreaksTheLog`).
- Delivered.ExportImports: each deed's octets fit the frame of its cap, and the evidence and the host sidecar that travel with it are ones the receiver reads (`Received.Readily`); the log invariant says nothing of either file.
- Settling.AlikeAreEvidenced: the evidence of a carried deed fits the frame it is kept in (`Settling.FrameFits`), and the same of `Delivered.ExportArrives`; a longer one reads back as nothing.
- Systems other than Unix: paths compare by components separated by slashes, and other prefixes and separators are not modelled.
- Landing.ImportSound: an import, here and in a run, is of a bag whose carried octets fit a frame and do not collide with their canonical form (`Importing.Clear`).
- Walk.Run: that a cycle's answer lists every deed on some cycle; the program collects path segments at back edges only.
- Plans.CheckTrails: which error is returned when several deeds of a trail fail.
- Opening a store, keys and layout files, timestamps, leaving and vouching, the command line, the MCP server, hints, reports and the wording of errors: an error is its case.
