# Verification of the Got-Soup store

A Dafny model of the event-sourced store of Got-Soup and proofs about it. The store keeps a log of signed events and a
timeline of blocks. Appending places an event in a block, a routine check opens slots and confirms blocks by age, every
change relinks the blocks by hash, and a replay of the sorted events gives balances, moderation state and forum views. A
self-audit checks the whole, and a recovery step cuts it back to a checkpoint.

## How it is built

The behaviour is stated twice. Functions on values (`Timeline`, `Ledger`, `Moderation`, `Views`, `Checkpoint`, `Logs`, ...)
say what each operation computes, and lemmas prove what the repository promises about them, over every input, every run
and every replay. The class `Storage.Store` has the fields of the original, and its methods update them in place with the
original's loops; each method's contract equates the new state with those functions, so the lemmas hold of the class.
`Service.AlphaService` produces events against such a store.

| file | about |
|---|---|
| Types, Text, Sorting, Decimal | records, byte order, splitting and joining, a sorting function, decimal text |
| Canonical, Amount, AmountText | payload text; printing and reading amounts; which texts are amounts |
| Sha256, Sha256Constants, Merkle | the digest fallback; where its constants come from; the halving loop |
| Timeline | slots, placing, confirming, linking; the operations as functions |
| Invariant, Preservation, Clock, History, Admission | what every operation keeps; what the clock does; whole runs; what gets into the log |
| Checkpoint | checkpoints and rollback |
| Audit, AuditMeaning, Recovery, Relapses | the audit; what it rules out; what it finds after a rollback |
| BlockHashes, Binding, Unbound, ConsensusBinds | what the hashes are; what tip and consensus hash fix, and leave open |
| Schedule, Ledger, Entitlement | the reward schedule; claims, transfers and posts; what each must show |
| Replay, ReplayOrder, Growth | the replay; its order; cutting and extending it |
| Moderation, Authority, Conflicts, Finality | moderation state; who may change it; opposite actions; finality of moderation and money |
| Views, ForumPosts | the forum; what a post shows |
| Logs, BlockLog, FileLayout | the two files; where things lie in them |
| Reopen, Rerun | opening a store; replaying twice |
| SmallRuns, Batches, PaidInTime, Incidents | one or more appends in full; money at one time stamp; runs on which promises fail |
| Store, StoreSteps | the store as a class; one step of each of its loops |
| Producer, ProducedPayloads, Service | what the service writes; the service as a class |

Time is an argument. The digest is a parameter `h`; binding lemmas assume that it does not collide on the texts hashed
for the chains at hand, and nothing else about it except, where said, that digests are 64 hex characters. Texts are
sequences of characters; where the code works on bytes, characters are below 256.

## What the proofs found

Each of these is a promise that does not hold of the code as it stands, with the exact condition under which it does and
an input on which it fails: a run from a new store wherever it takes one.

- **Overflow blocks.** An event that finds no room opens a block at its own time stamp, which may lie before the last block's. The confirmed blocks then need not stay a prefix. Condition: `History.AppendKeepsHistory`, `History.UntimelyBreaks`. Run: `Incidents.OverflowHappens`.
- **Confirmation counts.** The replay counts confirmations of an event whose own block is not confirmed, the metrics do not. Condition: the confirmed blocks are a prefix (`Moderation.CountsAgree`). Run: `Incidents.OverflowHappens`.
- **Oversized events.** The event limit and the block limit are independent, so an event can be larger than any block. It still gets a block to itself, and the audit then fails. Condition: `Audit.ValidIsClean`. Run: `Incidents.OversizedHappens`.
- **Content ids.** An event need not have the id of its payload to be appended. It stays, and the audit then fails, after a rollback too if the event is retained. Condition: `AuditMeaning.PassesExactly`. Runs: `Relapses.ForeignIdStays`, and for any store `AuditMeaning.ForeignIdFails`.
- **Rollback and claims.** A claim in a retained block may name a block past the checkpoint. Replay after rollback then refuses it. Condition: `Replay.RollbackTruncates`. Run: `Incidents.RollbackLosesReward`.
- **Recovery.** A store that fails its audit is rolled back and audited again. Whatever was wrong with a retained event stays wrong, and a retained claim may lose its block. Condition: `Recovery.RecoveryHelps`. Runs: `Relapses.DuplicateStays`, and one that starts from a healthy store, `Relapses.RollbackHarms`.
- **Late claims.** A claim refused because its block is not confirmed is accepted by a later replay, which changes the ledger after events that were confirmed long ago. Condition, readable off the earlier replay: it refused a claim there for nothing but its block (`Finality.MoneyOnlyContinues`, for all later states at once `Finality.MoneyIsFinal`). Run: `Incidents.LateClaimHappens`.
- **Replaying twice.** An accepted policy update changes the policy that the next replay starts from, and opening a store replays twice. Condition: replaying again repeats the first replay, state by state, if and only if the last accepted updates restore every setting (`Moderation.ReplayAgain`, `Moderation.PolicyRestored`). The last states alone may agree without it (`Moderation.LastStatesMayAgree`), so for them the condition is sufficient and not necessary. An opened store differs from a single replay in the same way (`Rerun.OpenShowsOneReplay`). Runs: `Rerun.StoreReplaysDiffer`, and through the files `Rerun.OpeningHidesMore`. The ledger is not affected.
- **Proof of work.** The check takes the difficulty from the claim itself and does not tie the material to the block. Condition: `Incidents.WorkIsForBlock`. Run: `Incidents.FreeClaimPaid`, `Incidents.FreeClaimProvesNothing`.
- **Tip hash.** Block hashes cover ids and payloads, not kinds and authors, so that runs which differ only in these have one timeline (`Unbound.RunsMissKinds`). Condition under which one tip hash means one replay: `Unbound.TipFixesReplay`. It gives one ledger too, but is not necessary for that (`Unbound.SameLedgerOtherReplay`). Runs: `Unbound.SameHashesOtherLedger`.
- **Amount parser.** Its guard looks at the whole part only, so a few sums leave 64 bits (`Amount.ParsedOverflow`, `Amount.OverflowExample`).
- **Tie rule.** moderation-plan.md lets the smaller id win within a block. The code lets the later event of the replay order win. Condition under which both agree: `Conflicts.PlanAndCode`. Run: `Conflicts.SmallerIdLoses`. The model follows the code.

## Model

| member | source | states |
|---|---|---|
| Decimal.ParseI64OfText | src/core/storage/store.cpp:171-179 | every `int64_t` printed in decimal is read back as itself |
| Decimal.ParseU64OfText | src/core/storage/store.cpp:309-317 | the same for `uint64_t` |
| Decimal.IntTextInjective | src/core/storage/store.cpp:2220-2222 | different numbers print differently, so digest texts do not confuse them |
| Canonical.TrimCopy | src/core/util/canonical.cpp:25-37 | the result is the argument without the white space around it: the two loops compute `Trim`, whose contract says which characters went |
| Canonical.CanonicalJoin | src/core/util/canonical.cpp:39-61 | the loops write the sorted, escaped lines of the fields |
| Canonical.ParseCanonicalMap | src/core/util/canonical.cpp:63-120 | the character loop with its four variables computes the map of `ParseMap`, on any text |
| Canonical.RoundTrip | src/core/util/canonical.cpp:39-120 | for distinct keys and arbitrary values, parsing undoes joining if and only if every key is non-empty and free of `=` and newline |
| Canonical.ParsedKeysOk | src/core/util/canonical.cpp:63-120 | whatever text is parsed, the keys that come out are such keys |
| Canonical.TextIsCanonical | src/core/util/canonical.cpp:39-47 | any permutation of the fields joins to the same text, and equal texts carry equal maps |
| Amount.FormatLeafAmountAsBasil | src/app/main_win.cpp:368-387 | the printing loop computes `BasilText`, for every amount whose negation fits 64 bits |
| Amount.ParseBasilAmountToLeafs | src/app/main_win.cpp:389-430 | the parser with all its refusals computes `ParseBasil`, on any input |
| Amount.RoundTrip | src/app/main_win.cpp:368-430 | reading a printed amount returns it for every amount from 0 to 2^63-1; a printed negative amount is refused |
| Amount.ParsedOverflow | src/app/main_win.cpp:415-429 | the final sum leaves 64 bits if and only if the whole part is 92233720368 and the fraction exceeds 54775807 Leafs, which the guard on the whole part lets through |
| Amount.OverflowExample | src/app/main_win.cpp:415-429 | one such input: 92233720368.54775808 sums to 2^63 |
| AmountText.ReadsExactly | src/app/main_win.cpp:389-430 | once spaces are gone, exactly the texts of digits, or of digits, a dot and up to eight digits, with at most 92233720368 whole Basils are read, and as the amount they denote |
| AmountText.PrintsShort | src/app/main_win.cpp:368-387 | an amount that is not negative prints as its whole Basils, and a dot and a fraction that does not end in 0 exactly if there is one |
| AmountText.PrintsSign | src/app/main_win.cpp:371 | a negative amount prints as a minus sign and the text of its negation |
| Sha256.PadMessage | src/core/util/hash.cpp:52-60 | the padding loops produce the padding of section 5.1.1 of FIPS 180-4 |
| Sha256.ExpandSchedule | src/core/util/hash.cpp:64-75 | the array `w`, overwritten in place, ends as the 64 words of the message schedule |
| Sha256.RunRounds | src/core/util/hash.cpp:77-102 | the eight registers, shifted round by round, end as 64 steps of the recursive compression |
| Sha256.Sha256Hex | src/core/util/hash.cpp:32-123 | the whole fallback equals the recursive computation of section 6.2.2 of FIPS 180-4, for every byte string |
| Sha256.WriteHex | src/core/util/hash.cpp:114-122 | the nibble loop writes each word as eight hex digits, most significant first |
| Sha256.DigestIsHex | src/core/util/hash.cpp:114-122 | a digest is always 64 lowercase hex characters |
| Sha256.PadShortest | src/core/util/hash.cpp:52-60 | padding fills whole blocks and no shorter padding has room for the mark and the length |
| Sha256.PadInjective | src/core/util/hash.cpp:52-60 | padding is injective on messages shorter than 2^61 bytes |
| Sha256.StableHashIsHex | src/core/storage/store.cpp:232-234 | `stable_hash` over the fallback meets what the chain lemmas ask of a digest function |
| Sha256Constants.RoundConstants | src/core/util/hash.cpp:32-44 | the round constants are the fractions of the cube roots of the first 64 primes |
| Sha256Constants.InitialValue | src/core/util/hash.cpp:46-49 | the initial hash value is the fractions of the square roots of the first 8 primes |
| Sha256Constants.Mixing | src/core/util/hash.cpp:64-93 | the four mixing functions on single bits |
| Sha256.HasLeadingZeroNibbles | src/core/util/hash.cpp:138-151 | true if and only if the text is long enough and its first characters are all zero |
| Merkle.ComputeMerkleRoot | src/core/storage/store.cpp:279-298 | the halving loop ends and computes the root by levels; `preview_merkle_root` (src/core/service/alpha_service.cpp:105-121) is the same loop |
| Merkle.PairUp | src/core/storage/store.cpp:285-294 | one pass of the loop over an even list builds the next level |
| Merkle.RootBinds | src/core/storage/store.cpp:279-298 | equal roots over equally many fixed-width digests mean equal leaf lists, if the digest function does not collide on the texts hashed for them |
| Merkle.DoubledLeafSameRoot | src/core/storage/store.cpp:286-288 | equal length is essential: an odd list and the list with its last leaf doubled have one root |
| Timeline.FindSlot | src/core/storage/store.cpp:2145-2154 | the slot found is the first unconfirmed block with room for the event in count and bytes |
| Invariant.PlacedIds | src/core/storage/store.cpp:1344-1360 | in a placed chain no id lies in two blocks, and ids in blocks and ids of events are the same |
| Invariant.RelinkedLinked | src/core/storage/store.cpp:2188-2241 | after relinking every block carries the recomputed hashes and its predecessor's hash, and nothing but hashes and the genesis text changed |
| Invariant.RelinkedKeeps | src/core/storage/store.cpp:2188-2241 | relinking leaves a prefix that is already linked exactly as it is |
| Preservation.AssignIdle | src/core/storage/store.cpp:2125-2143 | when every event has a block, assigning moves nothing |
| Preservation.AssignFresh | src/core/storage/store.cpp:2139-2176 | a new event is the only one placed |
| Preservation.AppendValid | src/core/storage/store.cpp:516-570 | appending keeps the invariant: positions, unique ids, each event in one block, limits, hashes |
| Preservation.TickValid | src/core/storage/store.cpp:1116-1147 | so does ticking |
| Clock.SlotsAre | src/core/storage/store.cpp:2101-2123 | slots open one per whole interval since the last block, in order, at most 256 at a time |
| Clock.TickConfirms | src/core/storage/store.cpp:1116-1131 | a tick confirms exactly the blocks that were confirmed or opened at least one interval ago, and opens exactly the slots that are due |
| Clock.TickOpens | src/core/storage/store.cpp:2109-2121 | the slots a tick adds are empty and open one interval after another |
| Clock.TicksCatchUp | src/core/storage/store.cpp:2101-2123 | after a long sleep the timeline has caught up after `n` ticks if and only if at most 256n slots were due |
| History.RunValid | src/core/storage/store.cpp:516-1147 | every chain that any run of appends, ticks and rollbacks reaches from a valid one is valid |
| Admission.AnswersExactly | src/core/storage/store.cpp:516-549 | each answer to an append and when it is given: accepted exactly with id, payload and signature, within the size and both drifts, and with a new id |
| Admission.AppendAdmits | src/core/storage/store.cpp:516-570 | an accepted event comes last in the log, and any other append leaves the store as it was |
| Admission.RunAdmits | src/core/storage/store.cpp:516-570 | whatever a run from a new store leaves in the log came in by an append and was admissible then |
| History.AppendKeepsHistory | src/core/storage/store.cpp:2125-2177 | an append changes no confirmed block and keeps the confirmed blocks a prefix; it keeps waiting blocks in opening order if and only if the event is timely |
| History.ConfirmsPrefix | src/core/storage/store.cpp:1121-1127 | the confirmed blocks stay a prefix at every clock reading if and only if the waiting blocks opened in order |
| History.TickKeepsHistory | src/core/storage/store.cpp:1116-1131 | a tick changes no confirmed block and keeps the confirmed blocks a prefix |
| History.UntimelyBreaks | src/core/storage/store.cpp:2156-2166 | an event that needs an overflow block opening before the last waiting one breaks the prefix: some later tick confirms a block before an earlier one |
| Incidents.OverflowHappens | src/core/storage/store.cpp:2156-2166 | it happens: two appends, the second event older, and a tick leave a confirmed block behind an unconfirmed one and the two confirmation counts apart |
| History.ConfirmedHistoryImmutable | src/core/storage/store.cpp:1116-1134 | over any timely run of appends and ticks, every confirmed block keeps its whole record, ids and hashes included |
| Checkpoint.CheckpointsAgree | src/core/storage/store.cpp:1822-1845 | on strictly increasing indices the query, the checkpoint file and the recovery step name the same checkpoint, 0 when there is none |
| Checkpoint.RollbackCuts | src/core/storage/store.cpp:1903-1961 | rollback keeps exactly the blocks up to the checkpoint, unchanged to the last hash, and exactly the events in them |
| Checkpoint.RollbackValid | src/core/storage/store.cpp:1903-1961 | rollback keeps the invariant |
| Checkpoint.RollbackLowers | src/core/storage/store.cpp:1903-1936 | with two or more checkpoint confirmations, rolling back again strictly lowers a positive checkpoint |
| Checkpoint.RollbackSettles | src/core/storage/store.cpp:1903-1961 | with one confirmation, or at checkpoint 0, rolling back again changes nothing |
| Checkpoint.SettleFixed | src/core/storage/store.cpp:2188-2241 | relinking a linked chain is the identity |
| Audit.ValidIsClean | src/core/storage/store.cpp:1297-1363 | a valid chain passes the audit of its blocks if and only if every event fits a block alone |
| Audit.EveryRunIsClean | src/core/storage/store.cpp:1297-1363 | so does every chain that any run reaches from a new store, hardcoded genesis hashes included |
| Audit.EveryRunPasses | src/core/storage/store.cpp:1149-1363 | over any run from a new store the whole audit passes if and only if every event fits a block alone, is not past the drift at the time of the audit, and passes the checks that appending does not make; the drift plays no part unless the clock was put back |
| AuditMeaning.AuditIsComplete | src/core/storage/store.cpp:1297-1376 | on blocks numbered by position and a log without repeated ids, the audit of the blocks passes if and only if the whole invariant holds and every event fits a block alone |
| AuditMeaning.PassesExactly | src/core/storage/store.cpp:1149-1376 | the whole audit passes if and only if besides this each event has the id of its payload, the expected community, chain and network, the fields of its kind, no negative price, a signature, and keeps size and drift |
| AuditMeaning.ForeignIdFails | src/core/storage/store.cpp:1166-1169 | appending asks for no particular id: an event with another id than that of its payload stays, and the audit fails |
| BlockHashes.HashesAre | src/core/storage/store.cpp:2188-2241 | the hashes of every block of a valid chain, written out: predecessor, content lines, Merkle root, header text, and the two hashes of an empty genesis block that the network sets |
| BlockHashes.RunsKeepGenesis | src/core/storage/store.cpp:2231-2238 | after every run from a new store an empty genesis block has the hashes of its network, and the next block links to them |
| BlockHashes.AuditSeesGenesis | src/core/storage/store.cpp:1331-1350 | the audit passes on no chain whose empty genesis block has other hashes |
| BlockHashes.MainnetStarts | src/core/model/types.hpp:416-421 | a new mainnet store after two routine checks: both hardcoded hashes, and a second block that links to them |
| Incidents.OversizedHappens | src/core/storage/store.cpp:469-478 | it happens: one append of an event larger than a block, and the audit fails |
| Binding.HeaderBinds | src/core/storage/store.cpp:2217-2222 | the text hashed into a block hash determines every field of the header |
| Binding.ContentBinds | src/core/storage/store.cpp:2198-2215 | equal content texts mean the same ids in the same order with the same payload digests |
| Binding.TipBindsHistory | src/core/storage/store.cpp:2188-2241 | two valid chains of one length with the same last block hash share every block after genesis, field by field, and the payloads of its events, if the digest function does not collide on the texts hashed for them |
| Unbound.HashesMissKinds | src/core/storage/store.cpp:2193-2215 | kinds, authors and times are not hashed: replacing them leaves a valid chain valid, with every hash as it was |
| Unbound.RunsMissKinds | src/core/storage/store.cpp:2101-2241 | two runs that differ only in the kinds and authors of what they append have the same blocks, hashes and genesis text after every operation |
| Unbound.ConsensusMissesKinds | src/core/storage/store.cpp:2484-2497 | nor does the consensus hash see kinds, authors and times |
| Unbound.SameHashesOtherLedger | src/core/storage/store.cpp:2193-2215 | two stores, each after one append and one tick, with the same blocks, tip hash and consensus hash, of which one has paid a reward and the other has an empty ledger |
| Unbound.SameLedgerOtherReplay | src/core/storage/store.cpp:2193-2215 | the ledger can be the same without it: two stores with the same blocks and the same ledger that replay different events |
| Unbound.TipFixesReplay | src/core/storage/store.cpp:2188-2241 | with one tip hash, blocks and replay are the same if and only if the genesis blocks, the kind, author, time and signature of each id, and the payloads in genesis are; the ledgers then are too |
| Ledger.BurnFee | src/core/storage/store.cpp:2269-2275 | the fee of a positive amount is one percent rounded down, but at least one unit; of any other amount 0 |
| Ledger.AlwaysSolvent | src/core/storage/store.cpp:684-799 | after any number of events of any replay no balance is negative, the balances sum to issued minus burned, and issued stays within the cap |
| Entitlement.ClaimDecided | src/core/storage/store.cpp:688-742 | a claim is paid if and only if it names a confirmed block nobody claimed, asks for exactly what is due, and shows its work and its witness; any other is refused and moves nothing |
| Entitlement.TransferDecided | src/core/storage/store.cpp:744-782 | a transfer is booked if and only if it has a receiver, a positive amount, the next nonce, a fee of one percent rounded down and at least 1, the witness of exactly these terms, and money for both; any other is refused and moves nothing |
| Entitlement.PostDecided | src/core/storage/store.cpp:784-798 | a post burns what its first price field offers if its author has it, and is refused if not or if that is negative |
| Entitlement.RestIgnored | src/core/storage/store.cpp:684-798 | no other kind of event touches the ledger |
| Entitlement.TransferEntries | src/core/storage/store.cpp:744-782 | looking up a nonce or a balance leaves an entry for the author of a transfer, refused or not |
| Entitlement.EveryMovement | src/core/storage/store.cpp:684-798 | every step of every replay is a reward earned, a transfer sent, a post paid, or nothing |
| Entitlement.MoneyLeaves | src/core/storage/store.cpp:744-798 | nobody loses money by an event of somebody else, or by anything but a transfer sent or a post paid |
| Entitlement.MoneyArrives | src/core/storage/store.cpp:688-782 | nobody gains money but by a reward earned by an event of their own or a transfer somebody else sent them |
| Entitlement.BadTransferRefused | src/core/storage/store.cpp:744-782 | a transfer without its witness, its fee or anything else it must show is among the refused events at the end, having moved nothing |
| Ledger.IssuanceClosedForm | src/core/storage/store.cpp:689-741 | claimed blocks are confirmed and not genesis, each is claimed once, and issued is the smaller of the cap and the sum of their scheduled rewards, whatever order the claims came in |
| Ledger.NoncesCount | src/core/storage/store.cpp:751-782 | the accepted transfers of each author carry the nonces 1, 2, 3, ... in replay order |
| Schedule.ScheduleFalls | src/core/storage/store.cpp:2243-2254 | rewards never grow from block to block and stay between one unit and the first reward, which is the configured one |
| Schedule.SubsidyBounds | src/core/storage/store.cpp:2247-2251 | the subsidy after n blocks lies between the line and the hyperbola that fall with the decay |
| Schedule.RewardAfterDecay | tests/test_alpha_core.cpp:102-103 | from a first reward of 115 units the reward of block 24193 is 110 |
| Ledger.SameClaims | src/core/storage/store.cpp:702-709 | of the blocks, the ledger depends only on which ones can be claimed |
| Replay.IndexFacts | src/core/storage/store.cpp:2179-2186 | the index knows exactly the ids in blocks, each with the last block that holds it |
| Replay.ReplayTotal | src/core/storage/store.cpp:610-648 | on events with distinct ids the four-key comparator is a strict total order |
| ReplayOrder.ReplayIsInOrder | src/core/storage/store.cpp:606-647 | the replay is the one arrangement of the events that goes block by block and, in a block, by time, then claims, transfers and the rest, then by id |
| ReplayOrder.KindsInOrder | src/core/storage/store.cpp:622-647 | in a block time never falls, and at one time nothing comes before the claims and nothing but claims before the transfers |
| Batches.BatchOrdered | src/core/storage/store.cpp:516-570 | a run: events appended at one time that fit one block replay in that order after a tick |
| PaidInTime.ClaimsThenTransfersThenPosts | src/core/storage/store.cpp:622-647 | such a run: a post, the transfer its author pays it with and the claim that transfer is paid from arrive in this order, replay in the opposite one, and none is refused |
| Replay.ArrivalIrrelevant | src/core/storage/store.cpp:604-648 | the replay order does not depend on the order the events arrived in |
| Replay.ConsensusIgnoresArrival | src/core/storage/store.cpp:2484-2497 | neither does the consensus hash, whatever the ids |
| ConsensusBinds.ConsensusSeparates | src/core/storage/store.cpp:2484-2497 | two logs have one consensus hash if and only if they hold the same ids with the same payloads, each as often, if the digest function does not collide on the texts hashed for them |
| Replay.CutReplay | src/core/storage/store.cpp:610-648 | the replay of a chain cut after k blocks is a prefix of the replay of the whole chain |
| Replay.ClaimableIs | src/core/storage/store.cpp:702-709 | on a valid chain a block can be claimed if and only if it exists and is confirmed |
| Replay.RollbackTruncates | src/core/storage/store.cpp:1903-1961 | the ledger after rollback is the old replay stopped after the last event of the checkpoint block, if and only if no claim accepted up to there names a block past the checkpoint |
| Replay.FewerClaimsExactly | src/core/storage/store.cpp:702-709 | over blocks of which more can be claimed the ledger is the same if and only if no accepted claim needs one of the additional ones |
| Replay.FewerClaimsKnown | src/core/storage/store.cpp:684-737 | the same read off the replay over the fewer blocks: the ledgers agree if and only if that replay meets no claim that passes every other check and names one of the additional blocks |
| Incidents.RollbackLosesReward | src/core/storage/store.cpp:1903-1961 | it happens: an append of a claim, a tick and a rollback take back a reward that was issued, while all events stay |
| Recovery.FewerRefusals | src/core/storage/store.cpp:684-737 | a replay over fewer claimable blocks refuses nothing if and only if the replay over more refuses nothing and books the same money |
| Recovery.RecoveryHelps | src/core/service/alpha_service.cpp:585-601 | recovery ends in a healthy store if and only if every retained event passes its own checks and fits a block alone, the replay before the rollback had refused none of them and accepted none that claims a dropped block, and the moderation replay of what is left denies nothing |
| Recovery.RollbackModeration | src/core/storage/store.cpp:1903-1961 | where no event updates the policy, moderation after a rollback is the moderation before it stopped at some event, the last retained one if confirmations have no say, and nothing is denied that was not denied before |
| Recovery.EmptyPastRecovers | tests/test_alpha_core.cpp:153-161 | if the retained blocks hold no events, recovery ends in an empty healthy store whatever was wrong |
| Recovery.AcceptedIsClean | src/core/storage/store.cpp:1228-1287 | a claim, transfer or post that the ledger accepts passes the audit of its fields |
| Recovery.ActedIsClean | src/core/storage/store.cpp:1248-1275 | a moderation event that takes effect passes it too, except exactly the flags, hides and unhides that name their object in no field the audit knows |
| Relapses.DuplicateStays | src/core/service/alpha_service.cpp:1805-1816 | a claim and its duplicate in genesis: after two appends and a tick the audit fails, and after a rollback it fails still |
| Relapses.ForeignIdStays | src/core/storage/store.cpp:1166-1169 | an event with a foreign id, as the first of a store: the audit fails after the append, and after a rollback it fails still |
| Relapses.RollbackHarms | src/core/storage/store.cpp:1903-1961 | a healthy store, after one append and one tick, that a rollback leaves unhealthy |
| Incidents.LateClaimHappens | src/core/storage/store.cpp:702-709 | a claim in a confirmed block that a replay refuses and, one tick later, a replay of the same events accepts |
| Incidents.FreeClaimPaid | src/core/storage/store.cpp:716-741 | a claim with difficulty 0 over freely chosen material is paid in full on a reachable chain |
| Incidents.WorkIsForBlock | src/core/storage/store.cpp:716-728 | a claim that passes the check of its work proves work for a block if and only if it carries the material of that block and its digest has the zeros the network asks for, if the digest function does not collide on the two texts |
| Incidents.FreeClaimProvesNothing | src/core/storage/store.cpp:716-728 | that free claim proves work for the block it was paid for by a collision only |
| Moderation.HiddenClosedForm | src/core/storage/store.cpp:852-904 | flag counts, hidden and auto-hidden objects in closed form: hidden if and only if some accepted hide, or flag reaching the threshold in force, has no accepted unhide after it; auto-hidden objects are hidden |
| Moderation.ModeratorsRemain | src/core/storage/store.cpp:839-863 | a community has moderators after any replay if and only if it was configured with some |
| Authority.StartsWithConfigured | src/core/storage/store.cpp:651-656 | a replay starts with the configured moderators, trimmed and without blanks, and with nothing hidden, flagged, pinned or denied |
| Authority.OutsiderDenied | src/core/storage/store.cpp:810-843 | whoever is not a moderator changes nothing by an event of a reserved kind, and is listed as denied if the event was in force |
| Authority.PendingIgnored | src/core/storage/store.cpp:674-688 | an event that is not in force changes nothing, nor does one that is not about moderation |
| Authority.ChangesNeedModerators | src/core/storage/store.cpp:810-925 | whatever changes moderators, pins, policy or hidden objects is an event in force, and of a moderator unless it is a flag |
| Authority.MembersChange | src/core/storage/store.cpp:846-870 | additions and removals take effect on the member named, never on the last one, and are denied otherwise |
| Authority.HiddenChanges | src/core/storage/store.cpp:885-904 | a hide or unhide acts on the object the event is about: the first of five fields, or the event itself |
| Authority.FlagCounts | src/core/storage/store.cpp:872-883 | anyone may flag, and the flag that reaches the threshold hides the object |
| Authority.PinsChange | src/core/storage/store.cpp:905-922 | pins and unpins set the recipe named, and are denied without one |
| Authority.PolicyChanges | src/core/storage/store.cpp:923-941 | an update sets the settings it names, numbers only if positive, and leaves the others |
| Authority.OutsidersDecideNothing | src/core/storage/store.cpp:800-943 | if every event of a reserved kind comes from somebody who does not moderate at the start, moderators, pins and policy end as they started, only flags hide anything, and every such event in force is listed as denied |
| Moderation.CountsAgree | src/core/storage/store.cpp:658-682 | the confirmation counts of the replay and of the metrics (2290-2307) agree on every block if and only if the confirmed blocks are a prefix |
| Moderation.PendingRest | src/core/storage/store.cpp:674-682 | when finality is required throughout, nothing after the first moderation event that is not effective yet has an effect: the effective ones are a prefix of the replay |
| Moderation.FinalPolicy | src/core/storage/store.cpp:923-940 | each setting a replay ends with is the one named by the last accepted update that names it, else the starting one; an update names only positive numbers |
| Moderation.NoneAfter | src/core/storage/store.cpp:923-940 | that update is the last: no accepted one after it names the setting |
| Moderation.PolicyRestored | src/core/storage/store.cpp:923-940 | a replay ends with the policy it started from if and only if those last updates restore every setting |
| Moderation.ReplayAgain | src/core/storage/store.cpp:923-940 | replaying again passes through the states of the first replay, the last one included, if and only if the first replay restored the policy |
| Moderation.NoUpdatesNoChange | src/core/storage/store.cpp:923-940 | without policy updates in the log, replaying again gives the same state |
| Moderation.SteadyReplay | src/core/storage/store.cpp:923-940 | a replay that accepts no policy update ends with the policy it started from, and replaying again gives the same state |
| Moderation.LastStatesMayAgree | src/core/storage/store.cpp:923-940 | the converse fails for the last states alone: after a lone update they agree although the policy was not restored |
| Moderation.ReplayAgainDiffers | src/core/storage/store.cpp:923-940 | a flag and a later accepted policy update for which replaying again hides an object the first replay left visible |
| Rerun.ReplayChainAgain | src/core/storage/store.cpp:578-595 | on the replay order of any chain: materializing again gives the same moderation state if the policy was restored, which it is if and only if it ends as it started, and always without policy updates |
| Rerun.OpenShowsOneReplay | src/core/storage/store.cpp:1847-1870 | an opened store replays its chain through the states of a single replay if and only if the replay of the bare event log restored the policy |
| Rerun.StoreReplaysDiffer | src/core/storage/store.cpp:578-595 | a run of two appends after which the store leaves an object visible that replaying its chain once more hides |
| Rerun.OpeningHidesMore | src/core/storage/store.cpp:392-400 | the same run through the files: the store that wrote them leaves the object visible, the store opened from them hides it |
| Conflicts.LastWordDecides | src/core/storage/store.cpp:875-895 | the last accepted hide or unhide of an object, with nothing about it after, decides whether it is hidden |
| Conflicts.PlanAndCode | src/core/storage/store.cpp:632-648 | of an accepted hide and unhide of one object the later one in replay order decides; that is what the tie rule of moderation-plan.md prefers if and only if they lie in different blocks or the later one has the smaller id |
| Conflicts.SmallerIdLoses | src/core/storage/store.cpp:632-648 | a run of two appends on which the hide has the smaller id, which the plan prefers, and the object stays visible |
| Finality.CommonPast | src/core/storage/store.cpp:610-648 | the replays of an earlier and a later state share exactly the events in the blocks confirmed in the earlier one |
| Finality.ModerationOnlyContinues | src/core/storage/store.cpp:658-682 | with finality required throughout, the later replay passes through exactly the earlier moderation state: it is continued, never rewritten |
| Finality.RunsOnlyContinue | src/core/storage/store.cpp:658-682 | the same along every timely run of appends and ticks |
| Finality.FixedPolicyIsFinal | src/core/storage/store.cpp:674-682 | a policy that requires finality requires it throughout every replay without policy updates |
| Finality.MoneyOnlyContinues | src/core/storage/store.cpp:702-709 | after the events in blocks confirmed earlier, the later ledger is the earlier one if and only if the earlier replay refused no claim there for its unconfirmed block alone whose block is confirmed later |
| Finality.WaitingIsRefused | src/core/storage/store.cpp:702-709 | such a claim is refused, as naming an unconfirmed block |
| Finality.MoneyIsFinal | src/core/storage/store.cpp:702-709 | the money in the confirmed past of a state is final under every timely run if and only if no such claim waits there |
| Finality.TicksConfirm | src/core/storage/store.cpp:1116-1131 | ticks alone open and confirm a block of any index |
| Views.PostedReplies | src/core/storage/store.cpp:985-1000 | under every thread lie exactly the accepted replies to it, in replay order |
| Views.ModerationOnlyHides | src/core/storage/store.cpp:1044-1110 | the moderated views are the unmoderated ones minus hidden recipes, hidden threads and threads of hidden recipes, hidden replies and replies of such threads, and nothing else; every thread counts exactly its visible replies |
| Views.RecipeTotals | src/core/storage/store.cpp:947-1057 | every visible recipe shows exactly the accepted reviews and thumbs-ups that name it, before or after it was posted, and the mean of their ratings |
| ForumPosts.RecipeShown | src/core/storage/store.cpp:947-978 | a recipe is visible if and only if an accepted recipe event names its id and it is not hidden, and shows the last one, field by field, with the menu place moderators gave it |
| ForumPosts.PostedThreads | src/core/storage/store.cpp:980-992 | a thread id shows the last accepted thread event that names it, field by field |
| ForumPosts.ThreadShown | src/core/storage/store.cpp:980-992 | so does every visible thread |
| ForumPosts.ReplyPosted | src/core/storage/store.cpp:994-1008 | every reply comes from an accepted event that says just that |
| Views.ReplayIgnoresArrival | src/core/storage/store.cpp:578-1114 | ledger, moderation state and views do not depend on the order the events arrived in |
| Logs.HexOf | src/core/storage/store.cpp:30-39 | the loop writes two hex digits a byte |
| Logs.BytesOfHex | src/core/storage/store.cpp:54-70 | the loop reads them, and gives nothing for an odd length or a bad digit |
| Logs.HexRoundTrip | src/core/storage/store.cpp:30-70 | reading the hex of any byte string gives it back |
| Logs.KindRoundTrip | src/core/storage/store.cpp:72-162 | all seventeen kinds read back as written, and their names hold no tab or newline |
| Logs.ParseEventLine | src/core/storage/store.cpp:181-208 | the field loop accepts and refuses exactly as `ParseEvent` |
| Logs.EventLineRoundTrip | src/core/storage/store.cpp:164-208 | a written event line reads back as the event if and only if id and payload are not empty and id, author and signature hold no tab |
| Logs.LoadEventLog | src/core/storage/store.cpp:1847-1870 | the line loop loads exactly the lines that are neither empty, comments nor malformed, in order |
| Logs.EventLogRoundTrip | src/core/storage/store.cpp:1847-1901 | a saved event log loads as the same events if and only if every event is safe for a line, holds no newline and does not start with `#` |
| BlockLog.SplitEventIds | src/core/storage/store.cpp:247-264 | the loop collects the non-empty pieces between commas |
| BlockLog.IdsRoundTrip | src/core/storage/store.cpp:236-264 | an id list reads back if and only if no id is empty or holds a comma |
| BlockLog.ParseBlockLine | src/core/storage/store.cpp:319-359 | the field loop accepts eleven fields, or nine in the older format, as `ParseBlock` |
| BlockLog.BlockLineRoundTrip | src/core/storage/store.cpp:300-359 | a written block line reads back as the block if and only if no hash holds a tab and the ids are safe |
| BlockLog.LoadBlockLog | src/core/storage/store.cpp:2003-2044 | the line loop loads the lines that parse, sorted by index |
| BlockLog.BlockLogRoundTrip | src/core/storage/store.cpp:1988-2074 | with strictly increasing indices a saved block log loads as the same blocks if and only if every block is safe for the file |
| FileLayout.EventLineLayout | src/core/storage/store.cpp:164-170 | the six fields of an event line and where they lie |
| FileLayout.BlockLineLayout | src/core/storage/store.cpp:300-308 | the eleven fields of a block line and where they lie |
| FileLayout.HexIsRead | src/core/storage/store.cpp:54-70 | reading hex gives the bytes two digits at a time, either case, and nothing if the text is no such text |
| FileLayout.OldLineReads | src/core/storage/store.cpp:319-359 | a line of the older nine-field layout reads with the Merkle root for the content hash and without a genesis text |
| FileLayout.KindsByTable | src/core/storage/store.cpp:72-162 | every kind has its number and its name in one table, and reading the name gives the kind |
| Reopen.ReopenKeepsBlocks | src/core/storage/store.cpp:392-396 | opening keeps every stored block to the last hash and adds only empty, unconfirmed slots |
| Reopen.ReopenKeepsLedger | src/core/storage/store.cpp:392-400 | opening gives the same replay order and the same ledger, whatever slots the clock has opened since |
| Reopen.ReopenKeepsViews | src/core/storage/store.cpp:392-400 | opening gives the same moderation state and forum, from any one policy |
| Reopen.OpenRestores | src/core/storage/store.cpp:363-418 | from the files a valid store wrote, whatever genesis text is configured now, opening gives the same events, blocks and ledger, and from any one policy the same moderation state and forum |
| Reopen.ValidIsCarried | src/core/storage/store.cpp:164-171 | both files can carry every valid chain over carryable events: hashes and id lists take care of themselves |
| Reopen.RunReopens | src/core/storage/store.cpp:363-418 | so every run over such events can be closed and opened again |
| Growth.LastIsKnown | src/core/storage/store.cpp:632-648 | whether an appended event sorts last in the replay can be told before it is appended, from its slot and the events in it |
| Growth.AppendBooks | src/core/storage/store.cpp:684-799 | an appended event that comes last is booked on the ledger as it was |
| Producer.FieldReadsBack | src/core/util/canonical.cpp:39-120 | a field of a well-formed payload reads back as it was written, whatever its value |
| Producer.TransferReadsBack | src/core/service/alpha_service.cpp:974-990 | the replay reads receiver, amount, fee, nonce and witness of a produced transfer as they were written |
| Producer.BalanceBound | src/core/storage/store.cpp:684-799 | nobody ever holds more than the whole supply |
| Producer.NonceBound | src/core/storage/store.cpp:751-782 | every nonce is at most what was burned, so nonces and balances cannot leave 64 bits |
| Producer.TransferAccepted | src/core/service/alpha_service.cpp:947-993 | a transfer produced against a materialized store whose sender can pay is accepted when it comes last: the amount reaches the receiver, the fee is burned, the next nonce is one higher, nothing else changes |
| Producer.ClaimReadsBack | src/core/service/alpha_service.cpp:2512-2528 | the replay reads block, reward, proof of work and witness of a produced claim as they were written |
| Producer.ClaimAccepted | src/core/service/alpha_service.cpp:2467-2535 | a claim produced against a materialized store for a block it offers, with a proof of work, is accepted when it comes last and issues exactly the scheduled reward, capped by what is left |
| ProducedPayloads.TransferHolds | src/core/service/alpha_service.cpp:970-989 | a local transfer holds its terms, its receiver as given, the witness of the terms, and who made it, for which chain and when |
| ProducedPayloads.ClaimHolds | src/core/service/alpha_service.cpp:2489-2528 | a local claim holds its block, its work on the material of that block, its witness, and the same |
| Service.AlphaService.MakeEvent | src/core/service/alpha_service.cpp:2625-2649 | local timestamps strictly increase, whatever the clock does; id, payload and signature belong together |
| Service.AlphaService.AppendLocally | src/core/service/alpha_service.cpp:2607-2623 | an unsigned event is refused; otherwise the store decides, and after an append the call fails exactly when the audit of the whole store finds an issue, the event staying either way |
| Service.AlphaService.ValidateStore | src/core/service/alpha_service.cpp:585-602 | a store without issues is left alone; any other is rolled back, and counts as recovered exactly when what the rollback left is healthy |
| Service.AlphaService.SendReward | src/core/service/alpha_service.cpp:947-1044 | exactly when a transfer is refused for a missing target, a wrong address prefix, its amount, lack of money or an unknown receiver, when it is unsigned, and what the store and the audit answer otherwise; an appended one that comes last moves exactly its amount and burns exactly its fee in the store |
| Service.AlphaService.ClaimReward | src/core/service/alpha_service.cpp:2485-2535 | a claim is produced if and only if a reward is left, and one that comes last is paid exactly that reward in the store |
| Storage.Store.constructor | src/core/storage/store.hpp:78-149 | a new store holds nothing: no events, blocks, money, moderation or posts, and empty files |
| Storage.Store.Open | src/core/storage/store.cpp:363-418 | the chain is that of `Reopen.Open`, and the views are a fresh replay that starts from the policy the first replay, over the bare event log, left behind |
| Storage.Store.EnsureGenesisBlock | src/core/storage/store.cpp:2076-2099 | new state: the chain of `EnsureGenesis` |
| Storage.Store.EnsureBlockSlotsUntil | src/core/storage/store.cpp:2101-2123 | new state: the chain of `EnsureSlots`, counted closed by `Clock.SlotsAre` |
| Storage.Store.RebuildEventToBlockIndex | src/core/storage/store.cpp:2179-2186 | new state: the index of the blocks, and nothing else |
| Storage.Store.BlockEventBytes | src/core/storage/store.cpp:2456-2469 | the byte count of a block |
| Storage.Store.FindRoom | src/core/storage/store.cpp:2145-2154 | the first block with room |
| Storage.Store.AssignUnassignedEvents | src/core/storage/store.cpp:2125-2177 | new state: the chain of `Assign`, with its index |
| Storage.Store.SealBlock | src/core/storage/store.cpp:2198-2239 | the hashes of one block, with the hardcoded genesis hashes |
| Storage.Store.RecomputeBlockHashes | src/core/storage/store.cpp:2188-2241 | new state: the chain of `Settle`, with its index |
| Storage.Store.ReplayClaim | src/core/storage/store.cpp:689-741 | books a claim exactly as judged; every refusal leaves the money alone |
| Storage.Store.ReplayTransfer | src/core/storage/store.cpp:743-782 | books a transfer exactly as judged, looked-up zero entries included |
| Storage.Store.ReplaySpend | src/core/storage/store.cpp:784-798 | books a paid post exactly as judged |
| Storage.Store.ReplayEconomy | src/core/storage/store.cpp:684-799 | new state: the ledger of the replay |
| Storage.Store.ReplayModeration | src/core/storage/store.cpp:809-943 | enacts one moderation event exactly as decided |
| Storage.Store.ReplayForum | src/core/storage/store.cpp:946-1040 | files one accepted post |
| Storage.Store.ReplayCommunity | src/core/storage/store.cpp:801-1042 | new state: the moderation state and the forum of the replay |
| Storage.Store.DropHiddenThreads | src/core/storage/store.cpp:1074-1083 | erases hidden threads and the replies under them, and nothing else |
| Storage.Store.DropHiddenReplies | src/core/storage/store.cpp:1085-1097 | erases hidden replies and emptied lists, and nothing else |
| Storage.Store.FinishViews | src/core/storage/store.cpp:1044-1110 | the seven passes over the views make them `Visible` |
| Storage.Store.LatestConfirmedBlockIndex | src/core/storage/store.cpp:2277-2288 | the highest confirmed index |
| Storage.Store.MaterializeViews | src/core/storage/store.cpp:578-1114 | new state: exactly a fresh replay of the timeline from the policy in force, whatever the views were |
| Storage.Store.PersistEvent | src/core/storage/store.cpp:1872-1884 | the event log grows by one line and holds all events again |
| Storage.Store.PersistEventLog | src/core/storage/store.cpp:1886-1901 | the event log holds all events |
| Storage.Store.PersistBlockLog | src/core/storage/store.cpp:2059-2074 | the block log holds the header and all blocks |
| Storage.Store.PersistCheckpoints | src/core/storage/store.cpp:2386-2426 | the checkpoint file lists exactly the qualifying blocks |
| Storage.Store.LatestCheckpointBlock | src/core/storage/store.cpp:1822-1845 | the last qualifying block |
| Storage.Store.AppendEvent | src/core/storage/store.cpp:516-570 | the result says why an event was refused; a refused event changes nothing, an accepted one gives the chain of `Append`, a fresh replay, matching files and a valid chain |
| Storage.Store.RoutineBlockCheck | src/core/storage/store.cpp:1116-1147 | new state: the chain of `Tick`, matching files, and untouched ledger, moderation and forum |
| Storage.Store.RollbackToLastCheckpoint | src/core/storage/store.cpp:1903-1986 | new state: the chain of `Rollback`, a fresh replay, and files that match |
| Storage.Store.CheckEvent | src/core/storage/store.cpp:1165-1292 | no issue is counted if and only if content id, size, drift, community, chain, network, the fields of the kind, the post value and the signature are in order |
| Storage.Store.Backtest | src/core/storage/store.cpp:1149-1395 | no issue is counted if and only if every event and every block is in order and the last replay refused and denied nothing |
| Storage.Store.ConsensusHash | src/core/storage/store.cpp:2484-2497 | the digest of the sorted lines |

## Left out

- File and directory handling, quarantine, reset and snapshot contents: persistence is the text of the files, and writing always succeeds.
- Pruning: it is off by default, and it removes blocks after hashing without rehashing, so links and claims are stated without it.
- libsodium, Argon2id, Ed25519, random keys and the vault: foreign calls. The digest is a parameter; the built-in SHA-256 is proved separately and meets what the lemmas ask of the parameter.
- Setters: settings appear after their clamping, as the constrained type `Config`; the moderator list of a policy is any list.
- Machine integers of the ledger and the block indices: mathematical integers; `Producer.BalanceBound` and `Producer.NonceBound` show that balances and nonces stay small, `amount + fee` with an amount near 2^63 in a foreign transfer is not modelled as wrapping.
- `std::sort` on block lines with equal indices: the model is one stable sort, and round trips ask for strictly increasing indices.
- Confirmation counts and ages shown on recipes, threads and replies: the views do not hold them; `Moderation.CountsAgree` is about their formula.
- Message texts: refusals are reason tags.
- The search for a proof of work, wallet locking, name and address lookup, and the queue of the network node: the producers take the proof and the receiver as arguments.
- Query filters, search text, display names, community and profile files, anonymity providers, the daemon and the native shells apart from the two amount functions.
- Rating sums and reply counts of type `int`: mathematical integers; average ratings are exact quotients.
- The two clock readings inside one rollback are one argument; the second is never used on a chain that has a genesis block.
- In the message schedule the four terms are added in the order of the code; section 6.2.2 of FIPS 180-4 lists them in another order, and addition modulo 2^32 does not care.
- Schedule.ScheduleFalls: exact reals in place of `long double` and `std::pow`, whose rounding is not modelled.
- Schedule.RewardAfterDecay: exact reals in place of `long double` and `std::pow`.
- Amount.RoundTrip: leaves out the one amount -2^63, whose negation the printer computes in 64 bits.
- Sha256.PadInjective: stops at 2^61 bytes, where the 64-bit length of the message in bits wraps.
- BlockLog.BlockLogRoundTrip: the settings that loading reads back from the header line are not modelled, and chain and network ids hold no newline.
- Storage.Store.RoutineBlockCheck: without pruning and without refreshing the shown confirmation counts.
- Service.AlphaService.SendReward: one method for the two transfer methods, which differ in how the receiver is looked up and in one field name; the target comes trimmed or sanitized.
- Service.AlphaService.ClaimReward: one turn of the claiming loop.
- Schedule.SubsidyBounds: exact reals in place of `long double` and `std::pow`.
- BlockLog.LoadBlockLog: version, chain id and network that loading takes from the header line are left out.
- Service.AlphaService.AppendLocally: the queue of the network node is left out.
- Storage.Store.ReplayTransfer: `amount + fee` is a mathematical sum; the code adds in 64 bits, which matters only for a transfer whose amount is within its fee of 2^63 and so far above the supply.
- Storage.Store.FinishViews: without the confirmation counts and ages refreshed at its end.
- Storage.Store.MaterializeViews: without the confirmation counts and ages of recipes, threads and replies.
- Storage.Store.PersistCheckpoints: lists the blocks of the checkpoint file; its text is left out.
- Storage.Store.constructor: the paths and the backtest status are not part of the state.
