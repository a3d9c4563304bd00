# safe-nd data types, verified

Models of four parts of the SAFE Network data types, with proofs about every input, every run and every
delivery order:

- **Map** (`MapTypes`, `Transaction`, `MapShell`, `MapData`, `MapBatches`, `Counting`, `MapRuns`). A versioned
  key-value map whose entries change in atomic batches and whose shell (permissions, owner, version) follows an
  optimistic-concurrency protocol. `MapData` holds the object with its loops and assignments; one class serves
  both flavours, as one macro does in the source. `Transaction` is the independent meaning of a batch: every
  action judged on its own against the original entries. `MapBatches` and `MapRuns` say what follows for single
  batches, pairs of batches and whole runs.
- **Sequence** (`LSeq`, `Convergence`, `SequenceTypes`, `SequenceCrdt`, `Sequence`, `Histories`, `LocalRuns`,
  `Cluster`, `ClusterRecords`, `ClusterOrder`). Three replicated lists that record each other's lengths. `LSeq` is a
  small stand-in for the list of the `crdts` library, kept to the contract this repository relies on. A network has
  any number of replicas under any actors; each is a writer, which makes calls of its own, or only receives.
- **Money** (`Decimals`, `Money`, `MoneyProperties`). The parser and printer of amounts, a decimal fixed point over
  64-bit nanos.
- **Envelope** (`Envelope`). The chain of signatures left by the hops of a message, and the route it takes.

`Common` holds shared vocabulary, and `Deliveries` what it means that messages arrive in any order.

`dafny verify dfyconfig.toml` checks everything.

## Conventions

- **Machine arithmetic.** Unchecked additions and products are modelled as in a build without overflow checks: they
  wrap (`Common.Wrap`, `Common.Succ`). A build with overflow checks stops at exactly the inputs where the exact
  result does not fit, and agrees with the model on all others. Where wrapping breaks what the documentation
  promises, there is a lemma with a concrete input and one with the exact condition.
- **Iteration.** The source visits the keys of a batch in ascending order; the loops here visit them in any order.
- **Batch loops.** The batch loops of the source are one method each (`InsertAllSeq`, `UpdateAllSeq`, `DeleteAllSeq`,
  and the same for the unsequenced flavour), called in the source's order on one working copy.
- **Replicated lists.** Assumed of the library: a list stays in the order of its identifiers, an insert whose
  identifier is present does nothing, a delete removes the element with its identifier, and `append` mints an
  identifier above all those present that carries the actor of the replica. Rank and actor together stand for the
  library's tree paths.
- **Signatures** are ideal: a signature names its key and what was signed, and only that verifies. Serialised bytes
  stand for the thing serialised, so serialisation is injective, also across messages and envelopes.

## Where the promises have limits

- `MapRuns.LargestVersionWraps`: the shell version is to increase with every change; at the largest version a
  validated change is accepted with version zero. `MapRuns.VersionsClimb` gives the exact condition.
- `MapRuns.VersionZeroTwice`, `MapRuns.VersionsAcceptedTwice`: around the largest version one version can be accepted
  twice. `MapRuns.ValidatedVersionsCount` has the exact condition for validated operations, and
  `MapRuns.OneWrapExactly` the one for runs that mix operations after a single pass of the largest version.
- `MapRuns.UpdateVersionsDistinct`: an entry version is accepted once only as long as the entry has been updated no
  more often than there are versions.
- `MapRuns.OwnerChangesConverge`: unvalidated owner changes reach one owner in every order exactly if the calls with
  the winning version name one owner.
- `MoneyProperties.LargestAmountWraps`: an amount one nano above the largest is accepted as zero, where
  `ExcessiveValue` is documented (src/errors.rs:81-83). `MoneyProperties.SumFits` and
  `MoneyProperties.DigitsParseExactly` give the exact condition.
- `MoneyProperties.HugeRemainderMisread`, `MoneyProperties.HugeRemainderOverflows`: the length of a remainder is cut to
  32 bits, so a fraction of more than 2^32 places can be misread as one of few, and its product can leave 64 bits.
  `MoneyProperties.RemainderBelowOneUnit` and `MoneyProperties.ScaledRemainderFits` give the exact conditions.
- `MoneyProperties.PlusIsZero`: a plus sign right after the dot is accepted and stands for a zero, so that 0.+5 is five
  hundredths; before nothing but zeros it is refused.
- `Convergence.CommuteExactly`, `Convergence.StreamsConverge`: operations need not commute; the exact conditions.
- `Cluster.ConvergesExactly`: replicas that have applied the same operations can differ if two replicas append under
  one actor, and only then; `Convergence.SharedActorDiverges` shows that nothing mends it.
- `ClusterOrder.OrderedExactly`: the recorded lengths put all changes in one order at every replica that has caught up
  exactly if at most one replica writes; with several writers, only the changes of each
  (`ClusterRecords.RecordsInTurn`).
- `Sequence.AccessIsDecidedByLast`: `check_permission` never returns `InvalidOwners`, although its comment says so
  (src/sequence/mod.rs:115).
- `Envelope.HonestHopVerifies`, `Envelope.UnsignedOriginVerifies`: `verify` checks the last link only; an envelope
  whose origin signed with another key verifies after one honest hop. By `Envelope.VerifiesThroughout` an envelope is
  signed throughout exactly if it verified at every stage.
- The comment on `SeqEntryActions::ins` says that a wrong version is an error (src/map.rs:993-994); inserts are not
  version-checked, which `MapBatches.SeqBatch` states.

## Model

| member | source | states |
|---|---|---|
| MapData.MutateSeqEntries | src/map.rs:573-663 | the staged loops over a working copy, with commit by swap, have exactly the effect and the reply of the pointwise transaction on the original entries |
| MapData.MutateUnseqEntries | src/map.rs:439-517 | the same for the unsequenced flavour |
| MapData.SplitSeq | src/map.rs:575-591 | the batch is divided by kind of action, every action into exactly one part |
| MapData.SplitUnseq | src/map.rs:444-464 | the same for the unsequenced flavour |
| MapData.InsertAllSeq | src/map.rs:604-616 | the insert loop visits further keys of the batch and keeps the working copy and the errors equal to what judging the original entries gives |
| MapData.UpdateAllSeq | src/map.rs:618-635 | the same for the update loop with its version check |
| MapData.DeleteAllSeq | src/map.rs:637-654 | the same for the delete loop with its version check |
| MapData.InsertAllUnseq | src/map.rs:477-486 | the same for unsequenced inserts |
| MapData.UpdateAllUnseq | src/map.rs:488-497 | the same for unsequenced updates |
| MapData.DeleteAllUnseq | src/map.rs:499-508 | the same for unsequenced deletes |
| MapData.StageSeq | src/map.rs:601-658 | the three loops together leave the effect of the whole batch, and its errors, which are empty exactly if every action is valid |
| MapData.StageUnseq | src/map.rs:474-512 | the same for the unsequenced flavour |
| MapData.PermitsSeq | src/map.rs:593-599 | asking once for each kind of action that occurs amounts to `check_permissions` passing for every action |
| MapData.PermitsUnseq | src/map.rs:466-472 | the same for the unsequenced flavour |
| MapData.NewSeqWithData | src/map.rs:534-548 | a new sequenced Map has a sequenced address, the given fields and version zero |
| MapData.NewUnseqWithData | src/map.rs:400-414 | a new unsequenced Map has an unsequenced address, the given fields and version zero |
| MapData.MapData.SetUserPermissions | src/map.rs:286-300 | new state and reply of the shell protocol |
| MapData.MapData.DelUserPermissions | src/map.rs:306-318 | new state and reply, the version being checked before the key |
| MapData.MapData.DelUserPermissionsWithoutValidation | src/map.rs:324-337 | new state and reply, any larger version being accepted |
| MapData.MapData.ChangeOwner | src/map.rs:343-352 | new state and reply |
| MapData.MapData.ChangeOwnerWithoutValidation | src/map.rs:358-371 | new state and reply, any larger version being accepted |
| Transaction.StagedStep | src/map.rs:601-654 | a partly changed working copy still holds the original entry under a key not yet visited, so judging the copy is judging the original |
| MapBatches.SeqDenied | src/map.rs:593-599 | a requester who is not the owner and lacks the right to any one action of a sequenced batch is refused with `AccessDenied`, whatever the entries are and whatever else is wrong with the batch, and nothing changes |
| MapBatches.UnseqDenied | src/map.rs:466-472 | the same for the unsequenced flavour |
| MapBatches.SeqBatch | src/map.rs:573-663 | a sequenced batch is accepted exactly if the requester owns the Map or has every kind of action in it in their permission set, and every action is valid against the original entries; accepted, every key holds what its action says and other keys what they held; refused, nothing changes; the shell never changes |
| MapBatches.UnseqBatch | src/map.rs:439-517 | the same for the unsequenced flavour |
| MapBatches.SeqErrors | src/map.rs:604-658 | to a requester with the rights, the error map names exactly the invalid actions, each with its error, versions being those stored before the call modulo 256 |
| MapBatches.UnseqErrors | src/map.rs:477-512 | the error map names exactly the invalid actions, existing entries being reported with zero |
| MapBatches.SplitBatch | src/map.rs:573-663 | a batch over disjoint parts is accepted exactly if the parts are, one after the other, and leaves the same Map |
| MapBatches.SwapBatches | src/map.rs:439-517 | two batches on different keys that succeed in one order succeed in the other and leave the same Map |
| MapBatches.VersionsOnlyRestrict | src/map.rs:618-654 | the sequenced Map accepts what the unsequenced one accepts on the same contents and whose versions follow the stored ones, and leaves the same contents |
| MapBatches.SeqReplay | src/map.rs:17-24 | a sequenced batch that succeeded is refused when sent again, every action in it now being invalid, and nothing changes |
| MapBatches.UnseqReplay | src/map.rs:477-514 | an unsequenced batch that succeeded succeeds again exactly if it only updates, and then changes nothing |
| MapBatches.BuildKeepsLastCall | src/map.rs:995-1033 | a batch built call by call holds the last action given for each key |
| MapRuns.ShellStep | src/map.rs:286-371 | a shell operation leaves the entries alone, is refused without effect, and raises the version except from the largest to zero |
| MapRuns.ShellReplies | src/map.rs:286-371 | the reply of every shell operation: validated ones insist on the next version first, reporting the stored one, and a deletion then on the key; the others say whether their version is larger |
| MapRuns.RightsAfterRun | src/map.rs:267-371 | after any run of shell operations and batches, an action is permitted to the owner named by the last accepted change of owner and to those whose last accepted permission set holds it, and is otherwise `AccessDenied`; refused calls and batches have no say |
| MapRuns.LargestVersionWraps | src/map.rs:343-352 | a change of owner to version zero is accepted at the largest version |
| MapRuns.VersionsClimb | src/map.rs:286-371 | over every run that mixes shell operations and batches the accepted versions strictly increase, exactly if no validated operation is accepted at the largest version |
| MapRuns.VersionsAcceptedOnce | src/map.rs:286-371 | in a mixed run without such an acceptance every accepted version is new, and above the initial one |
| MapRuns.OneWrapAcceptedOnce | src/map.rs:286-371 | in a mixed run with one of them every accepted version is new if the run ends no higher than it began |
| MapRuns.OneWrapExactly | src/map.rs:286-371 | that is the exact condition if the operations up to that acceptance are validated |
| MapRuns.ZeroOncePerWrap | src/map.rs:286-371 | in every mixed run version zero is accepted exactly once for each acceptance at the largest version |
| MapRuns.VersionsAcceptedTwice | src/map.rs:286-371 | so a run with two of those accepts a version twice |
| MapRuns.VersionZeroTwice | src/map.rs:343-371 | a run of three calls that accepts version zero twice |
| MapRuns.VersionIsLastAccepted | src/map.rs:286-371 | the version after a run is the last accepted one, and the address never changes |
| MapRuns.ValidatedVersionsCount | src/map.rs:286-352 | with validated operations alone the version counts the accepted ones, modulo 2^64, and no version is accepted twice exactly if at most 2^64 are accepted |
| MapRuns.EntryVersionCounts | src/map.rs:618-635 | while an entry stays present its version is the initial one plus the number of accepted updates, and those carry the successive versions, modulo 2^64 |
| MapRuns.UpdateVersionsDistinct | src/map.rs:618-635 | so no update version is accepted twice, exactly if there are at most 2^64 updates |
| MapRuns.DeliverKeepsLargest | src/map.rs:358-371 | a stream of unvalidated owner changes leaves the largest version and an owner that came with it |
| MapRuns.OwnerChangesConverge | src/map.rs:358-371 | such a stream leaves the same Map in every order and with any repetition, exactly if the calls with the winning version agree; distinct versions suffice |
| LSeq.ApplyMeaning | src/sequence/seq_crdt.rs:103-106 | the assumed list: an operation has its outcome under its own identifier only, and the list stays sorted |
| LSeq.SameContents | src/sequence/seq_crdt.rs:36-41 | a sorted list is determined by its contents |
| Convergence.CommuteExactly | src/sequence/mod.rs:210-215 | two operations commute on every list exactly if they are on different identifiers or are the same |
| Convergence.StreamsConverge | src/sequence/mod.rs:210-297 | a set of operations, deletes included, leaves the same list in every order and with any repetition, exactly if any two of them on one identifier are the same or both insert what the list already has |
| Convergence.MintIsAbove | src/sequence/seq_crdt.rs:98-101 | an appended element gets an identifier above all those present |
| Convergence.MintIsNew | src/sequence/seq_crdt.rs:98-101 | in every reachable network with one writer per actor a freshly minted identifier is unknown to all replicas |
| Convergence.RecordKeepsInv | src/sequence/seq_crdt.rs:103-106 | appending and delivering keep one value per identifier, every replica at exactly the inserts it has applied, and every operation at a writer that has applied it |
| Convergence.SameSeenSameList | src/sequence/mod.rs:423-447 | replicas that have applied the same operations hold the same list |
| Convergence.SharedActorDiverges | src/sequence/mod.rs:69-71 | two replicas that hold the same list and append different values under one actor hold different lists after any further inserts, the same or not |
| Cluster.RunKeepsInv | src/sequence/mod.rs:197-297 | every run of local calls and deliveries keeps the invariant on all three lists, while no two writers share an actor |
| Cluster.EventAtReplica | src/sequence/seq_crdt.rs:98-191 | an event of the network, a local call or a delivery, has the effect of that call at its replica |
| Cluster.PublicEventIsCall | src/sequence/mod.rs:197-297 | in every run of public Sequences each event, local or delivered, is the write operation of `Data` at its replica, and is let through |
| Cluster.PrivateEventIsCall | src/sequence/mod.rs:197-297 | the same for private Sequences |
| Cluster.EventElsewhere | src/sequence/mod.rs:197-297 | an event changes no replica but the one it happens at |
| Cluster.ReplicasConverge | src/sequence/seq_crdt.rs:108-154 | in every run with one writer per actor, two replicas, under one actor or not, that have applied the same operations on entries, permissions and owners, in any order and however often, hold identical lists and answer `get`, `last_entry`, `in_range`, `owner` and `permissions` alike for every index |
| Cluster.ConvergesExactly | src/sequence/mod.rs:411-592 | all runs of a group of replicas converge in this way exactly if no two writers share an actor; any number of replicas that only receive may be held under a writer's actor |
| Cluster.PublicAccessConverges | src/sequence/mod.rs:117-138 | and such replicas of public Sequences decide every request for access alike |
| Cluster.PrivateAccessConverges | src/sequence/mod.rs:117-138 | and of private ones |
| ClusterRecords.RunIsRecorded | src/sequence/mod.rs:218-289 | in every run with one writer per actor, all lengths recorded under one actor with owners and permissions are nondecreasing in the rank of the records, and are within what its writer holds of the list counted |
| ClusterRecords.RecordsInTurn | src/sequence/seq_crdt.rs:170-191 | so at every replica the records of one actor carry nondecreasing lengths, whatever order they arrived in, and no record counts more elements than were broadcast |
| ClusterOrder.OneWriterInOrder | src/sequence/mod.rs:561-592 | with one writer, every replica that has applied all operations, in any order and however often, holds lengths of one order and rebuilds from them the changes the writer made, in the order in which it made them |
| ClusterOrder.OrderedExactly | src/sequence/seq_crdt.rs:170-191 | in all runs of a group of replicas every replica that has applied all operations holds lengths of one order, exactly if at most one replica writes |
| SequenceCrdt.SequenceCrdt.constructor | src/sequence/seq_crdt.rs:68-75 | a new replica has three empty lists |
| SequenceCrdt.SequenceCrdt.Append | src/sequence/seq_crdt.rs:98-101 | the operation returned inserts the entry under the next identifier, and the new entries are the old ones with it applied |
| SequenceCrdt.SequenceCrdt.ApplyCrdtOp | src/sequence/seq_crdt.rs:104-106 | the new state |
| SequenceCrdt.SequenceCrdt.AppendPermissions | src/sequence/seq_crdt.rs:170-172 | the same for the given permissions record |
| SequenceCrdt.SequenceCrdt.ApplyCrdtPermsOp | src/sequence/seq_crdt.rs:175-177 | the new state |
| SequenceCrdt.SequenceCrdt.AppendOwner | src/sequence/seq_crdt.rs:180-186 | the same for the owner, recorded with the current lengths of the other lists |
| SequenceCrdt.SequenceCrdt.ApplyCrdtOwnerOp | src/sequence/seq_crdt.rs:189-191 | the new state |
| SequenceCrdt.BroadcastIsApplied | src/sequence/seq_crdt.rs:98-186 | what a replica appends is exactly what it broadcasts: each append equals applying the operation returned, and a record carries the lengths of the other two lists |
| SequenceCrdt.ReadsAreLookups | src/sequence/seq_crdt.rs:109-129 | `get`, `owner` and `permissions` find the value at the place counted from either end, and nothing beyond either end; the last entry is the first from the end |
| SequenceCrdt.LastOwnerIsChecked | src/sequence/seq_crdt.rs:199-210 | the check passes the last owner, refuses others, and reports `InvalidOwners` if there is none |
| SequenceCrdt.InRangeIsSlice | src/sequence/seq_crdt.rs:132-154 | for each of the four combinations of bounds, a range is the slice between the places they count to, or nothing if it is empty or a bound is out of range |
| SequenceCrdt.AdjacentRanges | src/sequence/seq_crdt.rs:132-154 | adjacent ranges concatenate, however their bounds are given |
| SequenceCrdt.IndexKindsAgree | src/sequence/seq_crdt.rs:215-221 | an index from the start and its counterpart from the end read alike; the last entry is the first from the end |
| Sequence.NewPub | src/sequence/mod.rs:69-71 | a new public Sequence has a public address and three empty lists |
| Sequence.NewPrivate | src/sequence/mod.rs:74-76 | a new private Sequence has a private address and three empty lists |
| Sequence.Data.Append | src/sequence/mod.rs:197-207 | the operation returned, under the address of the data, inserts the entry, and the new entries are the old ones with it applied |
| Sequence.Data.ApplyCrdtOp | src/sequence/mod.rs:210-215 | the new state |
| Sequence.Data.SetPubPermissions | src/sequence/mod.rs:218-234 | the operation returned, under the address of public data, carries the permissions with the current lengths, and the new history is the old one with it applied; private data refuses with `InvalidOperation` |
| Sequence.Data.SetPrivatePermissions | src/sequence/mod.rs:237-253 | the converse for private data |
| Sequence.Data.ApplyCrdtPubPermsOp | src/sequence/mod.rs:256-264 | inserts into public data, and nothing else, are applied; the rest is refused with `InvalidOperation` |
| Sequence.Data.ApplyCrdtPrivatePermsOp | src/sequence/mod.rs:267-278 | any operation is applied to private data; public data refuses with `InvalidOperation` |
| Sequence.Data.SetOwner | src/sequence/mod.rs:281-289 | the operation returned, under the address of the data, carries the owner with the current lengths, and the new owners are the old ones with it applied |
| Sequence.Data.ApplyCrdtOwnerOp | src/sequence/mod.rs:292-297 | the new state |
| Sequence.RecordsGrant | src/sequence/metadata.rs:229-371 | what one record allows, field by field: in public data a decision made for the user stands and otherwise the one made for anyone; in private data what the user's own flags say |
| Sequence.AccessIsDecidedByLast | src/sequence/mod.rs:117-138 | access is granted exactly to reads of public data, the last owner, and those the fields of the last permissions grant it; every refusal is `AccessDenied` |
| Histories.HistoryKept | src/sequence/seq_crdt.rs:103-106 | the earlier values of a list remain in order after an operation, exactly unless it deletes one of them |
| Histories.PublicPermissionsSurvive | src/sequence/mod.rs:256-264 | in every run, whatever is received, the earlier permissions history of a public Sequence is a subsequence of the later one |
| Histories.EntriesAndOwnersSurvive | src/sequence/mod.rs:210-215 | the same for entries and owners of either kind when the operations received are inserts |
| LocalRuns.DataCallsAreLocal | src/sequence/mod.rs:197-289 | the local write operations of public and private data are those of the replica runs; permissions of the other kind are refused |
| LocalRuns.LocalEffect | src/sequence/seq_crdt.rs:98-186 | a local call appends one value to one list, with the current lengths of the other two |
| LocalRuns.LocalRunIsChronological | src/sequence/seq_crdt.rs:170-186 | in every run of local calls the recorded lengths are those of one order: owners and permissions agree on which came first, entries only accumulate, and nothing exceeds the current lengths |
| LocalRuns.LocalRunIsRebuilt | src/sequence/mod.rs:218-289 | and that order can be rebuilt from the two histories alone |
| LocalRuns.EntriesAccumulate | src/sequence/metadata.rs:173-183 | along it the recorded numbers of entries never decrease nor exceed the current one |
| Money.FirstDot | src/money.rs:58-62 | the text is split at its first dot |
| Money.RemainderOfDigits | src/money.rs:71-85 | a trimmed fraction of at most nine digits is worth its value scaled to nanos, below one unit |
| Money.PrintThenParse | src/money.rs:57-102 | parsing a printed amount gives the amount, for every 64-bit amount |
| MoneyProperties.NanosAreExact | src/money.rs:17-21 | the exact nanos of a text are the decimal number written, times 10^9 |
| MoneyProperties.ShortDigits | src/money.rs:57-88 | text of digits with at most nine places that matter is accepted exactly if its units are within range, as the nanos written modulo 2^64, which are the nanos themselves exactly up to the largest amount |
| MoneyProperties.EveryText | src/money.rs:58-72 | every text is units without a dot, followed by a dot and a fraction or by nothing, in one way |
| MoneyProperties.EveryTextParses | src/money.rs:57-88 | for every text, which of the four errors it is refused with or what amount it is accepted as: units and trimmed fraction must be digits with at most a plus sign in front and fit in 64 bits, the units must not exceed the largest amount, and the fraction must, counted modulo 2^32, have at most nine places |
| MoneyProperties.DigitsParseExactly | src/money.rs:57-88 | of all accepted texts of digits, what they are accepted as is the decimal number written, exactly if at most nine places matter and the largest amount is not exceeded |
| MoneyProperties.RemainderBelowOneUnit | src/money.rs:75-84 | the exact product behind any accepted remainder, plus sign or not, is below one unit exactly if the number parsed has no more digits than the length, cut to 32 bits, allows for; below 2^32 places it always is |
| MoneyProperties.ScaledRemainderFits | src/money.rs:80-83 | the product of line 83 fits in 64 bits, and the remainder is worth it, exactly up to the largest number that can be shifted by that many places |
| MoneyProperties.SumFits | src/money.rs:65-88 | for every accepted text, the unchecked sum of line 87 fits in 64 bits, and is the result, exactly unless the units, with those that a misread remainder brings along, exceed 18446744073, or reach it with more than 709551615 nanos |
| MoneyProperties.LargestAmountWraps | src/money.rs:87-87 | one nano above the largest amount is accepted as zero |
| MoneyProperties.HugeRemainderMisread | src/money.rs:80-83 | a nought, a dot, 2^32 zeros and a one are read as a tenth of a unit |
| MoneyProperties.HugeRemainderOverflows | src/money.rs:80-83 | a number after so many zeros that the fraction is 2^32 + 1 long is accepted as that number times 10^8, wrapped, which leaves 64 bits exactly from 184467440738 on |
| MoneyProperties.PlusIsZero | src/money.rs:71-84 | for any units and any fraction after it, a plus sign right after the dot parses as a zero would, unless nothing but zeros follows, which is refused |
| MoneyProperties.PlusInFraction | src/money.rs:76-78 | so 0.+5 is read as 0.05 |
| MoneyProperties.AppendedZerosIgnored | src/money.rs:72-72 | zeros appended after a dot change nothing, errors included |
| MoneyProperties.PrintIsCanonical | src/money.rs:97-102 | printing gives the one canonical text of an amount, and it parses to that amount |
| Envelope.VerifiesThroughout | src/messaging/mod.rs:71-81 | an envelope verifies at every stage exactly if every hop signed what it received |
| Envelope.HonestTravelVerifies | src/messaging/mod.rs:83-90 | an envelope from an honest client, node or section that went through honest hops of any kind is signed throughout and verifies at every stage |
| Envelope.LastSignatureCoversAll | src/messaging/mod.rs:71-81 | the last signature stands for message, origin and all earlier hops |
| Envelope.HonestHopVerifies | src/messaging/mod.rs:71-90 | one honest hop makes any envelope verify, and the chain is then signed exactly if it was before |
| Envelope.UnsignedOriginVerifies | src/messaging/mod.rs:71-90 | an envelope that verifies although its origin did not sign the message |
| Envelope.HopsBeforeTheLastDoNotCount | src/messaging/mod.rs:101-158 | the destination of any envelope depends on message, origin and, for data commands only, the most recent sender |
| Envelope.AnswersReturn | src/messaging/mod.rs:101-116 | a response or error that records the address of the sender it answers goes to that client, node or section |
| Envelope.OthersGoWhereTheySay | src/messaging/mod.rs:101-127 | queries, events, transfers and node messages go where they say, an authorisation to the section of its origin |
| Envelope.DataGoesByLastSender | src/messaging/mod.rs:118-158 | where a data command goes from any sender: from gateway nodes to the payer, from payment duty to the data, from everyone else, clients and gateway sections included, to the origin |
| Envelope.DataRoute | src/messaging/mod.rs:118-158 | a data command goes from a client to its own section, from a gateway to that of the payer, and from payment to that of the data, whatever hops came earlier, and verifies all along |

## Left out

- Stops on overflow: a build with overflow checks stops where this model wraps; see Conventions.
- `Data` of Maps, which passes each call to its flavour and refuses a batch of the other flavour: single matches.
- `take_entries`, `shell`, `keys`, `values` and the other getters of Maps, and `PermissionSet::allow` and `deny`: one-step accessors.
- `checked_add` and `checked_sub` of Money: one-line wrappers of library arithmetic.
- `user_permissions` of Sequences, and the setters of permission records: lookups without consequences elsewhere.
- Identifier allocation in the `crdts` library, and the dots its operations carry: only the order of identifiers matters here.
- Deletions in the network of `Cluster`: no call of this repository broadcasts one; `Convergence.CommuteExactly` shows what they would break.
- MapRuns.VersionsAcceptedOnce: of mixed runs that pass the largest version once, those that skip versions before it and end higher than they began are left open; whether a version then comes twice depends on which ones were skipped. `MapRuns.OneWrapExactly`, `MapRuns.OneWrapAcceptedOnce` and `MapRuns.VersionsAcceptedTwice` cover the others.
- Real cryptography, key types and `SigningKeyTypeMismatch`: ideal signatures stand for them.
- Message bodies beyond what the destination needs, `dst_address` of the single commands, authorisation kinds, errors and conversions of responses: accessors and single matches.
- Serialisation, z-base-32 and debug formats: library codecs.
- Blobs, transfers, rewards, accounts, identities and keys: accessors, library code or randomised loops.
