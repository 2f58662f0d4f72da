# Arxium consensus model

A Dafny model of the Arxium validator's finality protocol and of the code around it that must not
lose, forge or unwind what was finalized. `dafny verify dfyconfig.toml` covers every file.

The model is layered:

- **The protocol.** `Protocol` is the voting rules as a history of votes; its theorems are the lock
  lemma, agreement, one gap-free chain and no skipped rounds, for voting power instead of head count,
  for a lock released by a quorum of the same round, and for timeouts after precommits. Votes are
  ordered by when they are durably recorded, not by when they are signed.
- **The node.** `VoteRecord`, `VoteRuns` and `SignedVotes` are the durable vote record: its rules, every
  run of it, and its text file. `Chain` is the database as consensus sees it, `Engine` the validator's
  step, `Tally`, `VoteDesk` and `RoundDesk` the three tallies, `SignedHeight` the proposal record.
- **The network.** `System` puts honest nodes, Byzantine validators and an arbitrary message schedule
  into one state machine in which every node counts votes under the set its own database holds, restores
  backups and joins from snapshots. `Safety` proves the protocol's theorems for its runs, `StaleSets` says when a node reads the right set and what
  happens when it does not, and `Evidence` shows that what the tallies write and accept are events of that
  machine. `Unwind` and `Recovery` are the paths that give up blocks and the conversation that catches a
  node up, with `BackfillExample`.
- **The adjudicator.** `StateTrie`, `ProofTrie`, `ProofCoverage`, `ProofBackedTrie` and `ProofCodec` are
  the sparse Merkle trie, the trie rebuilt from proofs and the proofs on the wire. `Replay`,
  `Adjudicate`, `BlockAdjudicator`, `AdjudicateExample` and `ActionAdjudicate` relate judging from proofs
  to executing on the full state, for an arbitrary runtime, and `BlockExecution` says what executing a
  block means.
- **Around it.** `PowerAssignment`, `SnapshotSync`, `SnapshotCertificate`, `SnapshotImport`,
  `SnapshotExample`, `Slashing` and `Backlog`.

Conventions: a hash is the value it commits to (blocks carry their ancestors, trie hashes are trees),
signatures are unforgeable tokens and an aggregate is the bag of its parts. `s.powers(b)` is the
validator set the chain ending in `b` puts in force for the next height; only a block at an epoch boundary
changes it. A durable write may succeed, be lost, or be torn: the new file in place although the caller
saw a failure or died. Database writes are atomic batches. Timeouts fire at any moment.

Where a promise of the source does not hold of its code, the code is modelled and the exact condition
is proved:

- *Anything the proofs don't cover is a disagreement, never a guess.* A read that fails inside a circuit
  arrives wrapped in the circuit's error type, is not recognised, and is taken for a rejected action:
  `AdjudicateExample.HonestProposerFramed` is such a block and `Adjudicate.HonestProposerNamed` says
  exactly when it happens. The single-action replay has the same gap: `AdjudicateExample.HonestSideNamed`
  and `ActionAdjudicate.HonestSideNamedIff`.
- *Two certificates never name two blocks at one height.* A tally and the certificate check read the newest
  validator set in the node's own database, and nothing makes them wait for the epoch boundary below the
  height to be executed. `StaleSets.StaleSetSplits` is a run without Byzantine validators in which two
  honest nodes file different records for one height, `StaleSets.StaleSetForks` carries it to the finalized
  chains and `Recovery.HaltsOnStaleSet` to a halt. A node reads the right set for certain exactly when the
  last boundary below the height is behind its watermark (`StaleSets.SettledIff`; merely executed is not
  enough, since a provisional boundary block may give way to one that opens another set). In the runs in
  which locks and records are formed only at such heights, agreement, the lock lemma, one chain, one
  finalized prefix and no halts hold for all nodes and all moments (`Safety`, `Recovery.NeverHalts`).
- *Every finality record a tally writes passes the check every other node makes.* It does while what the
  nodes read about the height is the same (`VoteDesk.EveryRecordHolds`), and all nodes settled for a height
  read the same set (`Evidence.SettledNodesAgree`). A vote counted under a set that is then replaced stays:
  `Evidence.StaleMemberRefused` and `Evidence.StaleWriterRefused` are such runs, and
  `VoteDesk.RecordHoldsIff` is the condition, for any writer and any checker.
- *No vote is granted in a round already left.* A vote recorded by a torn claim and loaded by a restart is
  granted later (`VoteRuns.RecordedThenGrantedLate`), and only such a vote
  (`VoteRuns.LateGrantsAreRepeats`, `VoteRuns.FirstGrantsInTime`). Agreement is unaffected, since it rests
  on the order of records.
- *A second ballot of a validator at a slot is reported.* A revert deletes the persisted votes of the blocks
  above the next height while the tallies stay, so a restart after it forgets the first ballot:
  `VoteDesk.RevertThenRestartMisses` is such a run and `VoteDesk.FirstHearingReports` the exact condition. A
  restart alone keeps only one of two votes that differ in the execution proof alone, and prevotes not at
  all: `VoteDesk.RestartForgets`, with the conditions for every run in `VoteDesk.ReportsExactly` and
  `RoundDesk.ReportsExactly`. Timeout votes are lost the same way: `RoundDesk.RevertThenRestartLoses`,
  `RoundDesk.RestartKeepsVotes`.
- *The watermark catches up with a peer on the same chain.* The peer's own records may carry the vote of a
  member that has left and then fail the check here for good: `BackfillExample.StuckBackfill` is such a
  peer, `Recovery.PeerCatchesUpIff` says which peers suffice and `Recovery.BackfillExact` where a backfill
  ends.
- *The certificate is checked against the snapshot's own validator set.* The check reads the first row of a
  key, the database the last one in the key's own column: `SnapshotExample.TwoRowsSplit`, and
  `SnapshotImport.CheckedIsImportedIff` for when they are one.
- *The state imported is exactly the one the block committed to.* The root is computed from the last row of
  each key whatever column it names, each row is written to the column it names, and reads look in the
  key's own: `SnapshotExample.MisfiledImported` imports a validator set the block did not commit to.
  `SnapshotImport.ImportIsState` and, over runs of the client, `SnapshotSync.DoneIsState` say exactly when
  the database reads the committed state, which it does for the rows an honest server lists.
- *A retry tries another peer, and a failed import just starts over.* After a storage error the client goes
  on following its peer (`SnapshotSync.RetryAsksIff`, `SnapshotSync.OnlyFollowedMoves`). When the second of
  the two writes failed the genesis row is gone, and no import succeeds until a restart seeds it again
  (`SnapshotSync.GenesisGoneIff`, `SnapshotSync.WipedForever`).
- A quorum of timeout votes need not certify the round when the parent was replaced between them:
  `Evidence.StaleParentBlocks`.
- After a storage error during a snapshot import the client keeps its manifest with no chunk slots:
  `SnapshotSync.CrashesIff`, and `SnapshotExample.CrashExample` is a run into it.

## Model

| member | source | states |
|---|---|---|
| Protocol.Lock | arxd/finality/src/signed_votes.rs:133-152 | lock lemma, same-round release included: once precommits for a block at a round reach quorum, every quorum of prevotes at that height from that round on is for that block |
| Protocol.LockSameRound | arxd/finality/src/signed_votes.rs:181-237 | a quorum of precommits and a quorum of prevotes at one round name one block |
| Protocol.ReleasedBy | arxd/finality/src/signed_votes.rs:139-151 | a locked honest validator prevotes another block in a later round only after a quorum prevoted that block at a round between its lock and the vote |
| Protocol.PrecommitBeforeLaterRounds | arxd/finality/src/signed_votes.rs:209-223 | an honest precommit precedes, in claim order, every vote the validator makes in a later round of the height |
| Protocol.Agreement | arxd/finality/src/lib.rs:947-1048 | two final blocks of one height are one block, across all rounds and all lawful vote histories; final means certified, with every block below it, by the set its own chain puts in force |
| Protocol.OneChain | arxd/finality/src/lib.rs:943-1048 | a final block is an ancestor of every final block above it |
| Protocol.NoSkippedRound | arxd/finality/src/lib.rs:1041-1046 | a round certificate implies a certificate of every earlier round of the height, already complete before a timeout vote of the round after it was recorded |
| Safety.StepKeeps | arxd/finality/src/lib.rs:947-1048 | every event of the network - votes, crashes, torn or lost writes, restarts, partial and stale reads, database swaps, pruning, forged votes - keeps the invariant tying votes, records, databases and the wire together, as long as locks and records are formed at settled heights |
| Safety.NetworkAgreement | arxd/finality/src/lib.rs:94-140 | agreement: two certificates that any two nodes, at any two moments, could tally or accept at one height they are settled for name one block, while Byzantine power is at most 3,333 of 10,000 in every set the final chain puts in force |
| Safety.NetworkLock | arxd/finality/src/lib.rs:1024-1039 | the lock lemma across nodes and moments: after a certificate for a block at a round, every lock formed at that height from that round on is on that block |
| Safety.NetworkChain | arxd/finality/src/lib.rs:943-1048 | an accepted certificate finalizes its block and every block below it down to genesis, each by the set its own chain put in force |
| Safety.NetworkPrefix | arxd/finality/src/lib.rs:943-1048 | the finalized chains of any two nodes, at any two moments of a run, are prefixes of one chain, database swaps included |
| Safety.NetworkRounds | arxd/finality/src/lib.rs:960-972 | a round certificate by the set its parent puts in force - and every node counts timeouts under the set of the parent it holds - implies certificates for all earlier rounds on that parent, each complete at a moment of the run at which the next was not, also when a node learned its round from a held block |
| Safety.HonestNeverEquivocates | arxd/finality/src/signed_votes.rs:181-237 | in every run, guarded or not, an honest validator's signatures of one kind at one (height, round) are one vote |
| Safety.RecordFollows | arxd/finality/src/signed_votes.rs:181-268 | inside any run of the network each node's vote record is a run of the record model, and every signature of the node was granted in it |
| Safety.SettledSet | core/storage/src/lib.rs:2089-2118 | the set a settled node reads for a height is the one every final parent a block there can have puts in force |
| StaleSets.SettledIff | core/storage/src/lib.rs:2089-2118 | a node reads the right set for a height - whatever sets its chain and its rivals open, whichever possible parent turns out final - if and only if no epoch boundary lies between its watermark and that height |
| StaleSets.StaleSetSplits | arxd/finality/src/lib.rs:1389-1502 | a run without Byzantine validators, settled but for its last event, after which two honest nodes hold finality records for different blocks at one height: a node that has not executed the boundary counts a precommit of a validator that has left |
| StaleSets.StaleSetForks | core/storage/src/lib.rs:1487-1532 | its continuation, in which the finalized chains of two honest nodes fork |
| Safety.BackupsQualify | arxd/finality/src/signed_votes.rs:6-20 | any database a node of the run ever had is one it may be restored to: the guarantees survive the restore |
| Safety.FinalProven | core/executor/src/lib.rs:685-705 | every block of a finalized chain of a guarded run is of a round whose predecessor was certified timed out |
| Safety.JoinedOk | core/storage/src/snapshot.rs:217-243 | a database imported at a finalized block holds nothing unearned, so nodes that joined from a snapshot are in every network theorem |
| VoteRuns.OneHashPerSlot | arxd/finality/src/signed_votes.rs:195-208 | over every run of claims, failed and torn writes, pruning and reloads, one hash is granted per (kind, height, round) |
| VoteRuns.GrantedAfterLeaving | arxd/finality/src/signed_votes.rs:195-223 | in a round already left a prevote or precommit is granted exactly when that vote is on record |
| VoteRuns.LateGrantsAreRepeats | arxd/finality/src/signed_votes.rs:195-223 | a vote granted in a round already left was granted before, or was recorded by a claim whose write tore and loaded by a restart since |
| VoteRuns.FirstGrantsInTime | arxd/finality/src/signed_votes.rs:195-223 | over runs without a torn write no first grant comes late: in a left round exactly the votes granted before, at open heights, are granted again |
| VoteRuns.RecordedThenGrantedLate | arxd/finality/src/signed_votes.rs:195-208 | the run in which a torn claim, loaded by a restart, is granted for the first time after its round was left |
| VoteRuns.LockOnlyAdvances | arxd/finality/src/signed_votes.rs:119-125 | the lock of an open height changes only to a strictly higher round, in every step of every run |
| VoteRuns.GrantedIff | arxd/finality/src/signed_votes.rs:133-237 | over every run, exactly which claims are granted, from the entries on record: the height is open; a prevote is for the hash of the highest-round precommit there, or a quorum prevoted its hash at a round from that one to its own; and it is on record already, or its slot is free, its round not left and the write durable |
| VoteRuns.RefusedFor | arxd/finality/src/signed_votes.rs:133-237 | and which reason a refusal gives |
| VoteRuns.PruneExact | arxd/finality/src/signed_votes.rs:241-249 | in every run a prune drops exactly the votes below the cutoff and closes exactly those heights, on disk too unless the write was lost |
| SignedVotesFile.LoadPersisted | arxd/finality/src/signed_votes.rs:57-104 | what persist writes, load reads back: every entry in order and the floor, down to the decimal digits |
| SignedVotesFile.LoadOtherChain | arxd/finality/src/signed_votes.rs:82-84 | a file of another genesis loads as an empty record |
| SignedVotesFile.LoadedIsSized | arxd/finality/src/signed_votes.rs:57-104 | whatever loads fits the field widths, so it can be persisted and loaded again unchanged |
| SignedVotesFile.Load | arxd/finality/src/signed_votes.rs:57-104 | load succeeds exactly on a missing or well-formed file and then holds exactly what the file says; any malformed line is an error |
| SignedVotesFile.SignedVotes.Persist | arxd/finality/src/signed_votes.rs:256-268 | after a durable or torn replacement the file loads as the record in memory; after a lost one it loads as before |
| SignedVotesFile.SignedVotes.Claim | arxd/finality/src/signed_votes.rs:181-237 | memory, file and answer after a claim are those of the record model, refusal by refusal, including the entry dropped again when the write fails |
| SignedVotesFile.SignedVotes.ClaimPrevote | arxd/finality/src/signed_votes.rs:133-152 | the lock check in front of a prevote claim: refused when locked elsewhere without a quorum between the lock's round and the vote's |
| SignedVotesFile.SignedVotes.PruneBelow | arxd/finality/src/signed_votes.rs:241-249 | pruning drops exactly the entries at or below the new floor, in memory even when the write fails |
| SignedHeightFile.LoadPersisted | arxd/node/src/validator.rs:120-148 | a written mark loads back as itself |
| SignedHeightFile.LegacyRefusesHeight | arxd/node/src/validator.rs:130-132 | after a file without a round every round of that height stays refused and the next height is open |
| SignedHeightFile.LoadOther | arxd/node/src/validator.rs:124-142 | no file or another chain's holds nothing yet, and a text of another length is refused |
| SignedHeightFile.SignedHeight.Claim | arxd/node/src/validator.rs:157-170 | a claim is granted only past the last one held and only once durable; the file and memory end as the run model says |
| SignedHeightFile.Load | arxd/node/src/validator.rs:120-148 | load fails exactly on a malformed file and otherwise starts from what the file says |
| SignedHeightFile.OnlyForward | arxd/node/src/validator.rs:157-170 | over every run of claims, failed and torn writes and restarts, granted (height, round) pairs strictly increase |
| SignedHeightFile.NoRoundTwice | arxd/node/src/validator.rs:102-112 | no (height, round) is ever granted twice |
| SignedHeightFile.GrantedIff | arxd/node/src/validator.rs:157-170 | over every run a claim is granted exactly when it is past what is held and the write durable; a torn write refuses it from the next restart on |
| SignedHeightFile.HeldIsLast | arxd/node/src/validator.rs:157-170 | while no write tears, what is held is the last mark granted |
| FinalityEngine.TidiedHoldsLock | arxd/finality/src/lib.rs:960-1010 | after the reading half the node holds the locked block at the voting height or none there, still has the lock and accepts no other block in its place, knows the round it votes in and gave up nothing final |
| FinalityEngine.Engine.Sign | arxd/finality/src/lib.rs:1050-1190 | nothing already signed or refused is tried again, nothing is signed without the record's grant, and the attempt is one network event |
| FinalityEngine.Engine.Read | arxd/finality/src/lib.rs:947-1011 | the plan read from the database, the round certificate kept from the held block, and the held block dropped for the locked one, as network events |
| FinalityEngine.Engine.TryStep | arxd/finality/src/lib.rs:947-1048 | in-place try_step computes the step the theorems are about and is a run of the network model; it signs exactly what is due, from the state it starts in: precommit, prevote, timeout in this order, each once and judged by the record the ones before it left |
| FinalityEngine.StepSigns | arxd/finality/src/lib.rs:947-1048 | what a step signs and remembers, from the database and the record: the locked block at its lock's round, then the locked block or without a lock the round's own, then the timeout of a round not certified |
| FinalityEngine.PlanAtOnce | arxd/finality/src/lib.rs:947-1010 | read without interruption the plan is that of the one moment |
| FinalityEngine.PlanOfView | arxd/finality/src/lib.rs:947-1011 | whatever other threads write between the reads of a step, it decides what one reading of a single view decides |
| FinalityEngine.TornStep | arxd/finality/src/lib.rs:947-1011 | every interleaving of a step's reads with other events is a run of network events leaving exactly that view |
| Unwind.ViewsRooted | arxd/finality/src/lib.rs:947-1011 | in every run, however a step's values were read, the parent it votes on top of is still final and held |
| Tally.VerifyRecord | arxd/finality/src/lib.rs:94-140 | accepts exactly the certificates with distinct member signers, quorum power, known keys and an aggregate of exactly those keys over exactly that message |
| Tally.HoldsIff | arxd/finality/src/lib.rs:94-150 | a record passes exactly when its signers are distinct members with a quorum of the power and known keys, and its aggregate is one signature of each over its message and nothing else |
| Tally.WrittenHoldsIff | arxd/finality/src/lib.rs:94-140 | a certificate written under one reading passes the check under another exactly when, there, everyone in the bucket is a member, together they are a quorum, and their keys are known and the ones the writer knew |
| Tally.SameWorldHoldsIff | arxd/finality/src/lib.rs:1459-1502 | for a node that reads the same set and keys, membership of the bucket alone decides |
| Tally.QuorumCertifies | arxd/finality/src/lib.rs:1470-1502 | a bucket of verified votes becomes a certificate exactly when it reaches quorum, and the certificate passes the check |
| VotingPower.SignedPower | core/primitives/src/validator_set.rs:41-52 | the combined power of the distinct members among the signers; repeats and outsiders add nothing |
| VotingPower.QuorumsShareHonest | core/primitives/src/validator_set.rs:30-38 | two quorums of one set share a member outside any group of at most 3,333 power |
| VotingPower.QuorumIff | core/primitives/src/validator_set.rs:28-38 | a group is a quorum exactly when the members outside it weigh at most 3,333 |
| VoteDesk.EveryRecordHolds | arxd/finality/src/lib.rs:1352-1519 | over every run of votes, pruning and restarts, with the database changing between votes: while what it reads about a height stays the same, only verified votes of members are counted there and the record passes the check of every node reading the same |
| VoteDesk.HearingCounts | arxd/finality/src/lib.rs:1352-1470 | in every run a member's signed vote at a height without a record is counted and persisted or completes the record with all counted signers; any other vote changes nothing |
| VoteDesk.GivenIff | arxd/finality/src/lib.rs:1352-1365 | the heights closed by a peer's record are exactly those one came for |
| VoteDesk.RecordHoldsIff | arxd/finality/src/lib.rs:94-140 | exactly when a record of any run passes the check of a node that reads some other set and keys |
| VoteDesk.MembersOnlyHolds | arxd/finality/src/lib.rs:94-140 | a record written under the set and keys a checker reads passes its check exactly when its signers are members there, whatever was read when the earlier votes came in |
| VoteDesk.ReportProves | arxd/finality/src/lib.rs:1400-1448 | in every run a report holds two signatures of one validator on two ballots of one slot, the earlier verified against the set and key in force when it was counted, the later against those now |
| VoteDesk.ReportsExactly | arxd/finality/src/lib.rs:1400-1464 | in every run, reverts and restarts included, a counted vote is reported exactly when an earlier vote of that validator at that slot was counted for another ballot and is remembered: not pruned, and at each restart since the vote on file under its key |
| VoteDesk.HoldsWhatItCounted | core/storage/src/lib.rs:1614-1632 | the tallies and rows of an open height are exactly what the run's votes, prunes, reverts, outside records and restarts say is remembered and on file |
| VoteDesk.FirstHearingReports | arxd/finality/src/lib.rs:1400-1464 | at a retained height a ballot counted for the first time is reported exactly when, for some block, the validator's last ballot for it at the slot was not followed by a revert to two heights below or lower and then a restart |
| VoteDesk.RevertThenRestartMisses | core/storage/src/lib.rs:1614-1632 | the run in which such a revert and a restart hide an equivocation that either alone would not |
| VoteDesk.RestartForgets | arxd/finality/src/lib.rs:682-704 | what a restart loses: of two votes for one block differing in the execution proof the later stays, so hearing it again is no longer reported |
| VoteDesk.PrecommitDesk.TallyVote | arxd/finality/src/lib.rs:1352-1519 | one vote: the whole new tally, row and record state, and a report exactly when a conflicting ballot is held |
| VoteDesk.PrecommitDesk.Prune | arxd/finality/src/lib.rs:837-861 | aged tallies, and the persisted votes of the heights those tallies knew, are dropped and nothing else |
| VoteDesk.PrecommitDesk.Revert | core/storage/src/lib.rs:1614-1632 | a revert drops the persisted votes from two heights above its target on and leaves the tallies |
| VoteDesk.PrecommitDesk.Reload | arxd/finality/src/lib.rs:682-704 | the tallies rebuilt from the persisted votes at or above the cutoff, each under its own message |
| RoundDesk.LockIsHighest | arxd/finality/src/lib.rs:1302-1340 | at a height whose lock is not dropped the stored lock is the highest-round quorum the node ever formed there, and there is none exactly when it formed none |
| RoundDesk.QuorumForms | arxd/finality/src/lib.rs:1302-1330 | a counted prevote forms a lock exactly when its bucket is a quorum of the set read |
| RoundDesk.HearingCounts | arxd/finality/src/lib.rs:1237-1290 | in every run a member's signed prevote at a height without a finality record joins its tally; any other changes nothing |
| RoundDesk.FinalIff | arxd/finality/src/lib.rs:1237-1250 | heights are closed exactly by their finality record |
| RoundDesk.PrunedLocks | arxd/finality/src/lib.rs:837-900 | a prune keeps exactly the locks above the watermark and the tallies above it and not below the cutoff |
| RoundDesk.EveryLockHolds | arxd/finality/src/lib.rs:1237-1350 | over every run of prevotes, finality records, prunes, reverts and restarts: while what the database reads about a height stays the same, only verified prevotes of members are counted there and the lock passes the check |
| RoundDesk.ReportProves | arxd/finality/src/lib.rs:1275-1301 | in every run a double-prevote report holds two signatures of one validator on two blocks of one slot, each verified when counted |
| RoundDesk.ReportsExactly | arxd/finality/src/lib.rs:1275-1303 | in every run a counted prevote is reported exactly when an earlier prevote of that validator at that slot was counted for another block and neither a prune passed its height nor a restart emptied the tallies since |
| RoundDesk.PrevoteDesk.TallyPrevote | arxd/finality/src/lib.rs:1237-1350 | one prevote: the whole new tally and lock state, and a report exactly when a conflicting ballot is held |
| RoundDesk.PrevoteDesk.Prune | arxd/finality/src/lib.rs:863-879 | prevotes below the cutoff or at final heights, and spent locks, are dropped and nothing else |
| RoundDesk.RoundWritten | arxd/finality/src/lib.rs:1575-1682 | every round certificate of a run was certified from the bucket of its slot against the parent held when it was written |
| RoundDesk.HearingTimesOut | arxd/finality/src/lib.rs:1575-1680 | in every run a member's timeout vote signed over the parent held, for a round without certificate, is persisted and kept or completes the certificate; any other changes nothing |
| RoundDesk.CertifiedClosed | arxd/finality/src/lib.rs:1581-1583 | a vote for a certified round changes nothing |
| RoundDesk.CertificateStays | arxd/finality/src/lib.rs:1581-1583 | a round certificate is never replaced, only removed with its parent |
| RoundDesk.PrunedExactly | arxd/finality/src/lib.rs:837-900 | a prune forgets exactly the slots below the cutoff with their persisted votes, and spent persisted votes |
| RoundDesk.EveryRoundHolds | arxd/finality/src/lib.rs:1575-1682 | over every run of timeout votes, parent changes, prunes, reverts and restarts: while what the database reads about a height stays the same, every vote kept is a member's and every round certificate passes the check |
| RoundDesk.RestartKeepsVotes | arxd/finality/src/lib.rs:717-735 | a timeout vote in memory, one over a replaced parent too, comes back after a restart exactly when the cutoff keeps its height and, since its voter's last vote at the slot, the height was not spent and no revert went to two heights below or lower |
| RoundDesk.RevertThenRestartLoses | core/storage/src/lib.rs:1614-1632 | the run in which a revert and a restart lose a vote that a restart alone would have kept |
| RoundDesk.TimeoutDesk.TallyTimeout | arxd/finality/src/lib.rs:1575-1682 | one timeout vote: the whole new tally, row and certificate state |
| RoundDesk.TimeoutDesk.Prune | arxd/finality/src/lib.rs:865-899 | spent rows, and the rows and tallies of aged slots, are dropped and nothing else |
| RoundDesk.TimeoutDesk.Revert | core/storage/src/lib.rs:1614-1632 | a revert drops the round certificates and persisted timeout votes from two heights above its target on and leaves the tallies |
| Evidence.RecordIsQuorum | arxd/finality/src/lib.rs:94-140 | a record that passes a node's check is a quorum, in the set that node reads, of signatures on the wire: what the network model lets it file |
| Evidence.RecordIsTakeCert | arxd/finality/src/lib.rs:1459-1519 | when the precommit tally writes a record, the network model lets the node take that certificate, and both file it for one block |
| Evidence.LockIsFormPol | arxd/finality/src/lib.rs:1302-1340 | when the prevote tally forms a lock, the network model lets the node lock that block |
| Evidence.RoundIsFormRoundCert | arxd/finality/src/lib.rs:1618-1663 | when the timeout tally certifies a round on the held parent, the network model lets the node file that certificate |
| Evidence.RevertsTogether | core/storage/src/lib.rs:1614-1632 | one revert of the database is one of every tally: locks and certified rounds go on agreeing, and persisted votes survive exactly where the parent does |
| Evidence.PrecommitsAuthentic | arxd/finality/src/lib.rs:1352-1464 | in every run whatever the precommit tally counts was signed by the validator it is counted for |
| Evidence.SettledNodesAgree | core/storage/src/lib.rs:2089-2118 | in a guarded run all nodes settled for a height read the same set for it, at any moments |
| Evidence.HonestNeverReported | arxd/finality/src/lib.rs:1400-1464 | in no run of the network, and no run of any node's tally over it, is an honest validator's precommit reported, its execution proof being a function of the block |
| Evidence.HonestPrevotesNeverReported | arxd/finality/src/lib.rs:1275-1301 | nor is an honest validator's prevote |
| Evidence.StaleParentBlocks | arxd/finality/src/lib.rs:1618-1663 | a timeout tally yields a certificate exactly when it has quorum and every vote in it names the parent held now |
| Evidence.BucketOfRun | arxd/finality/src/lib.rs:717-735 | every bucket of a timeout-tally run, restarts included, is one that theorem speaks of |
| Evidence.StaleMemberRefused | arxd/finality/src/lib.rs:1389-1502 | the run in which a leaving validator's vote, counted before the epoch boundary is executed, makes a finality record that fails the check afterwards |
| Evidence.StaleWriterRefused | arxd/finality/src/lib.rs:94-140 | the run whose record the writer itself accepts and every node past the boundary refuses |
| Chain.StageWatermark | core/storage/src/lib.rs:1487-1532 | the watermark advances through every next height whose certificate names the block held there, and stops at the first that does not |
| Chain.CurrentRound | core/storage/src/lib.rs:1239-1261 | one past the highest certified round of the height, 0 when there is none |
| Unwind.WriteKeepsFinal | core/storage/src/lib.rs:1577-1655 | no database write moves the watermark back, replaces a finalized block, or forgets or changes a certificate behind the watermark, whatever set votes were counted under |
| Unwind.RevertExact | core/storage/src/lib.rs:1577-1660 | a revert keeps exactly the blocks up to its target, every certificate, and the locks and certified rounds of the heights whose parent is still held; one below the watermark or at the tip changes nothing |
| Unwind.LocksOnlyRise | arxd/finality/src/lib.rs:1237-1345 | no write replaces a lock but by one of a later round at an uncertified height |
| Unwind.Covered | core/storage/src/lib.rs:1487-1532 | in every run the certificates of the held heights behind the watermark are stored and name the blocks held there, for a node that joined from a snapshot from its height on |
| Unwind.FinalizedStays | arxd/finality/src/lib.rs:989-1010 | over every run in which a node's database is not swapped, its watermark only rises and every height at or below it keeps its block |
| Unwind.ConflictIsAboveMark | arxd/finality/src/lib.rs:1534-1536 | a certificate a node accepts against a block it holds is against one above the watermark |
| Unwind.UnwindsAboveMark | arxd/finality/src/lib.rs:1541-1730 | in every run, database swaps included, certificate enforcement, dead-tip unwinding on both sides and the lock swap only ask for heights at or above the watermark, and leave the node on the parent of the block it gave up |
| Unwind.DeadTipsGo | arxd/finality/src/lib.rs:1575-1730 | in every run, once a round certificate is filed: a tip of that round is gone unless certified or locked, every other tip is still held, and a free height then takes exactly the blocks on its parent of rounds not left |
| Unwind.DeadTipsYield | core/executor/src/lib.rs:345-398 | in every run, once a block of a later certified round arrived: an earlier-round tip is gone unless certified or locked, every other tip is still held, and the newcomer lands where it may |
| Unwind.LockedHeld | arxd/finality/src/lib.rs:985-1010 | in every run, after the lock swap: a block held at a locked height is the locked one, every other tip is still held, and nothing else is accepted in its place |
| Unwind.EnforcedAgrees | arxd/finality/src/lib.rs:1541-1568 | after enforcing a certificate nothing held contradicts it, and a chain that agrees with it is left alone |
| Recovery.PageExact | arxd/network/src/lib.rs:1038-1066 | a page keeps exactly the contiguous verified certificates that name held blocks, and hands on exactly the first that names another block |
| Recovery.WalkPage | arxd/network/src/lib.rs:1043-1066 | the handler's walk, each record put through the certificate check, computes that |
| Recovery.PageOk | arxd/network/src/lib.rs:1067-1076 | whatever a peer sends, the stored page leaves a database backed by certificates of the right sets, settled or not |
| Recovery.PageIsRun | arxd/network/src/lib.rs:1067-1076 | what a node keeps of a page is a run of careful events of the network, so the theorems about guarded runs hold of a node that backfilled |
| Recovery.AnswerIsEvent | arxd/network/src/lib.rs:1119-1224 | keeping a single certificate, or unwinding for it, is an event of the network |
| Recovery.StoredKeepsCerts | arxd/network/src/lib.rs:1056-1064 | a page never changes a certificate already stored |
| Recovery.BackfillExact | arxd/network/src/lib.rs:1038-1087 | page after page, the watermark reaches exactly the first height whose record is missing, names another block or fails the check under this node's own set and keys, heights it certified itself aside |
| Recovery.PeersConsistent | arxd/network/src/lib.rs:1054-1062 | in a guarded run, where the heights certified here are settled, no peer record that passes the check contradicts a stored certificate |
| Recovery.HonestPeerCatchesUp | arxd/network/src/lib.rs:1077-1087 | against a peer on the same chain whose records through k pass the check here the watermark ends at least at min(tip, k) |
| Recovery.PeerCatchesUpIff | arxd/network/src/lib.rs:1043-1053 | against an honest peer on the same chain that certified through k itself the watermark reaches k exactly when every record on the way, own certificates aside, was signed by members of the set in force only |
| BackfillExample.StuckBackfill | arxd/network/src/lib.rs:1043-1087 | a peer on the same chain whose record carries the vote of a member that left: the block has a quorum of the set in force, and the backfill never passes it; from a peer that did not hear that vote it does |
| Recovery.NeverHalts | arxd/network/src/lib.rs:1093-1180 | in a guarded run a verified certificate at a settled height is kept or unwinds the node to its parent at or above the watermark; it halts an honest node only for a height below the snapshot it joined from, and then always |
| Recovery.HaltsOnStaleSet | arxd/network/src/lib.rs:1176-1193 | a run without Byzantine validators after which a genuine certificate halts an honest node, because a record was formed at an unsettled height |
| Recovery.FindsTheFork | arxd/network/src/recovery.rs:39-47 | on a page of a peer's chain the answer is the fork: held heights below agree, held heights from it on do not, none exactly when all agree |
| Recovery.RevertsSpaced | arxd/network/src/recovery.rs:106-112 | any two automatic reverts are a cooldown apart, and a request is suppressed exactly within a cooldown of the last revert |
| Recovery.Recoverer.OnTick | arxd/network/src/lib.rs:536-550 | with no conversation open, the certificates above the watermark are asked for |
| Recovery.Recoverer.OnHashes | arxd/network/src/lib.rs:1014-1032 | unasked hashes change nothing but the open step; asked ones only choose which certificate to request |
| Recovery.Recoverer.OnCertificates | arxd/network/src/lib.rs:1038-1088 | the whole new state: unsolicited pages change nothing, kept certificates are stored in one batch, and the next request follows |
| Recovery.Recoverer.OnCertificate | arxd/network/src/lib.rs:1093-1224 | the whole new state for a single certificate: kept, conflicting, below the watermark, or a rate-limited revert to its parent |
| StateTrie.SubtreeEmpty | core/poe/src/lib.rs:239-257 | the root of a subtree without keys is the default of its depth |
| StateTrie.SubtreeCommits | core/poe/src/lib.rs:229-260 | two states with one root hold the same value at every key |
| StateTrie.ProofExact | core/poe/src/lib.rs:318-337 | a proof verifies against the root of a state exactly when its value and its siblings are that state's |
| StateTrie.PutRoot | core/poe/src/lib.rs:453-481 | climbing the siblings from a new leaf gives the root of the updated state |
| ProofTrie.FromProofsTrue | core/poe/src/lib.rs:375-392 | a set of proofs is accepted exactly when every one is true of the state, and what is built is a view of it |
| ProofTrie.GetTrue | core/poe/src/lib.rs:434-444 | a read that is answered is answered as the full state would |
| ProofTrie.ApplyTrue | core/poe/src/lib.rs:453-481 | an update that goes through lands on the root a full commit would |
| ProofCoverage.ApplyKeepsPaths | core/poe/src/lib.rs:453-481 | updates never change which keys can be written |
| ProofCoverage.ApplyKeepsValues | core/poe/src/lib.rs:434-481 | after an update the readable keys are those readable before and the one written |
| ProofCoverage.ProofsCover | core/poe/src/lib.rs:375-419 | every key a proof was supplied for can be read from the start |
| ProofBackedTrieClass.VerifyProof | core/poe/src/lib.rs:318-337 | the loop from leaf to root decides verification |
| ProofBackedTrieClass.ProofBackedTrie.Descend | core/poe/src/lib.rs:187-216 | the loop from root to leaf finds the siblings and leaf, or stops at the first missing node |
| ProofBackedTrieClass.ProofBackedTrie.Get | core/poe/src/lib.rs:434-444 | present, proven absent, or unproven, as the value model says |
| ProofBackedTrieClass.ProofBackedTrie.Apply | core/poe/src/lib.rs:453-481 | the stored nodes, leaves and root after an update; nothing changes when the key is unproven |
| ProofBackedTrieClass.FromProofs | core/poe/src/lib.rs:375-392 | one bad proof rejects the whole batch |
| ProofCodec.FillExact | arxd/runtime/src/adjudicate.rs:495-514 | expansion succeeds exactly when there is one hash per set bit, and gives every remaining level a sibling |
| ProofCodec.ExpandCompressed | arxd/runtime/src/adjudicate.rs:466-523 | expanding what compression left out gives the siblings back |
| ProofCodec.CompressExpanded | core/poe/src/lib.rs:281-293 | a wire form is the one compression produces exactly when it carries no default |
| ProofCodec.Compress | core/poe/src/lib.rs:281-293 | the bitmap's bits are exactly the levels with a non-default sibling, and those siblings are sent in order |
| ProofCodec.DecodeProof | arxd/runtime/src/adjudicate.rs:470-523 | the decoding loop, with its error cases: a bitmap that is not 32 bytes, too few siblings, too many |
| ProofCodec.WireRoundTrip | arxd/runtime/src/adjudicate.rs:466-523 | whatever compression sends decodes to the proof it came from |
| ProofCodec.WireProofExact | arxd/runtime/src/adjudicate.rs:470-523 | a wire proof is accepted against a root exactly when it expands to that state's value and siblings |
| Replay.RunInStep | arxd/runtime/src/adjudicate.rs:734-758 | any deterministic program run on proofs computes what it computes on the full ledger, or stops at its first uncovered read |
| Replay.WritesInStep | arxd/runtime/src/adjudicate.rs:446-451 | writing a batch on proofs stays in step with the full ledger, or stops at the first uncovered write |
| Adjudicate.JudgeExact | arxd/runtime/src/adjudicate.rs:216-442 | the verdict is the full replay's, phase by phase, up to the first access the proofs do not cover |
| Adjudicate.VoterNamedOnlyIfWrong | arxd/runtime/src/adjudicate.rs:423-441 | a dissenter is named only for a wrong root on a block a full node accepts as proposed |
| Adjudicate.HonestProposerNamed | arxd/runtime/src/adjudicate.rs:302-391 | an honest proposer is named exactly when the first uncovered access is a read whose failure a circuit wraps in its own error |
| Adjudicate.CompleteProofsDecide | arxd/runtime/src/adjudicate.rs:193-212 | with a proof for every key touched, each party is named exactly when it is at fault |
| Adjudicate.NamedOverSigned | arxd/runtime/src/adjudicate.rs:243-290 | nobody is named over an action list the proposer did not sign or one too long to replay |
| BlockExecution.WalkExact | arxd/runtime/src/adjudicate.rs:328-395 | the action loop gets through exactly the actions that are authorized, fit the block by the sum of weights so far and have an effect, and hands on the sums of weights and fees over all of them and their statuses in order; or stops at the first that does not, for that reason |
| BlockExecution.WeightBinds | arxd/runtime/src/adjudicate.rs:357-361 | the loop gets through only if every prefix weighs no more than allowed, and refuses the block at the first that weighs more |
| BlockExecution.ExecuteIff | core/executor/src/lib.rs:745-850 | a full node ends with a state exactly when unbonds mature first, every action runs, the seal is given those sums, and the set it elects is filed for the next height |
| BlockExecution.OverweightBlamed | arxd/runtime/src/adjudicate.rs:357-361 | with complete proofs a block over its weight is held against its proposer |
| AdjudicateExample.HonestProposerFramed | arxd/runtime/src/adjudicate.rs:302-391 | a concrete honest block whose proposer is named, because the dissenter left out one key a circuit reads |
| AdjudicateExample.HonestSideNamed | arxd/runtime/src/adjudicate.rs:532-634 | a concrete action whose honest proposer is contradicted by the replay of its own claim and named, because its proofs leave out one wrapped read |
| BlockAdjudicator.RunOver | arxd/runtime/src/adjudicate.rs:734-758 | a phase run over the mutable view computes the value model's answer |
| BlockAdjudicator.ApplyEntries | arxd/runtime/src/adjudicate.rs:446-451 | the entry loop succeeds exactly when every Merkleized key can be placed, and leaves the updated trie |
| BlockAdjudicator.ReplayAction | arxd/runtime/src/adjudicate.rs:335-397 | one turn of the action loop |
| BlockAdjudicator.ReplayActions | arxd/runtime/src/adjudicate.rs:331-397 | the action loop |
| BlockAdjudicator.ReplayBlockDivergence | arxd/runtime/src/adjudicate.rs:216-442 | the in-place adjudicator returns exactly the verdict the theorems are about; what it replays is pinned by BlockExecution |
| ActionAdjudicate.ReplayExact | arxd/runtime/src/adjudicate.rs:532-634 | replaying one action on a claim's proofs gives the full ledger's root up to the first uncovered access |
| ActionAdjudicate.TrueClaimContradictedIff | arxd/runtime/src/adjudicate.rs:600-621 | the replay contradicts a true claim exactly when its own proofs miss a wrapped read and the action changes the root |
| ActionAdjudicate.HonestSideNamedIff | arxd/runtime/src/adjudicate.rs:122-177 | an honest side is named exactly when its own proofs miss a wrapped read, the action changes the root, and the other side's claim is reproduced |
| ActionAdjudicate.ReproducedIff | arxd/runtime/src/adjudicate.rs:532-634 | a claim from the true state is reproduced exactly when its proofs cover the action and it claims the true result, or they miss a wrapped read and it claims no change |
| ActionAdjudicate.HonestSideNotNamed | arxd/runtime/src/adjudicate.rs:122-177 | otherwise a side whose claim is the full ledger's result is never named, whatever the other side sent |
| SnapshotSync.SnapshotChunks | core/storage/src/snapshot.rs:42-59 | consecutive ranges that cover every row once, each within the message limit unless it is one row, and none able to take the next row as well |
| SnapshotSync.OneCut | core/storage/src/snapshot.rs:38-59 | all servers of one state cut it the same way |
| SnapshotSync.ChunksWhole | arxd/network/src/snapshot_sync.rs:81-106 | the chunks in order are the state they were cut from |
| SnapshotSync.ImportsAnchored | arxd/network/src/snapshot_sync.rs:226-291 | in every run each import is of the trusted block, with a certificate that passes the check in the network the first rows describe, and the rows are all chunks of one anchored manifest in order from its peer; a finished one hashes to the block's root and carries this chain's genesis |
| SnapshotSync.AsksExactly | arxd/network/src/snapshot_sync.rs:157-291 | in every run: from whom a manifest is asked, which manifest is followed, and that the chunk asked for is the first one missing |
| SnapshotSync.ImportsIff | arxd/network/src/snapshot_sync.rs:226-291 | in every run: an import is called exactly when the followed peer sends the last missing chunk and the certificate passes against all rows, and is done exactly when the rows are admitted and the database works |
| SnapshotSync.DoneIsState | core/storage/src/snapshot.rs:147-243 | after a finished download of a block that commits to a state, the database reads that state at a state key exactly when the last row of the key and its last row in its own column carry one value, and always for rows that list each key once in its own column |
| SnapshotSync.AskedOnce | arxd/network/src/snapshot_sync.rs:157-170 | over every run each peer is asked for the manifest at most once |
| SnapshotSync.CrashesIff | arxd/network/src/snapshot_sync.rs:240-252 | the chunk index is out of range exactly when a used-up download gets a matching chunk from the same peer again |
| SnapshotSync.RepeatedChunkCrashes | arxd/network/src/snapshot_sync.rs:226-289 | every snapshot that checks out does it: after an import that ends in a storage error, the peer's only chunk once more |
| SnapshotExample.CrashExample | arxd/network/src/snapshot_sync.rs:226-289 | one such snapshot, down to its rows |
| SnapshotSync.SpentOnlyByImport | arxd/network/src/snapshot_sync.rs:259-289 | that state is entered only by an import that succeeded or ended in a storage error |
| SnapshotSync.RetryAsksIff | arxd/network/src/snapshot_sync.rs:125-134 | after a retry a peer not asked yet is asked exactly when the retry was not for a storage error |
| SnapshotSync.OnlyFollowedMoves | arxd/network/src/snapshot_sync.rs:157-170 | while the followed peer says nothing, whatever others send changes nothing and nobody else is asked |
| SnapshotSync.GenesisGoneIff | core/storage/src/snapshot.rs:215-243 | the genesis row goes exactly when an admitted import's second write fails |
| SnapshotSync.WipedForever | core/storage/src/snapshot.rs:205-213 | once it is gone no later import of the run is written |
| SnapshotSync.FailedWriteEndsJoining | core/storage/src/snapshot.rs:160-243 | every snapshot that checks out has a run into that state |
| SnapshotSync.SnapshotClient.PeerTip | arxd/network/src/snapshot_sync.rs:157-170 | a peer is asked once, only when it is high enough and nobody else is being followed |
| SnapshotSync.SnapshotClient.TakeManifest | arxd/network/src/snapshot_sync.rs:172-224 | a manifest is followed exactly when it is anchored in the trusted block; anything else gives the peer up |
| SnapshotSync.SnapshotClient.TakeChunk | arxd/network/src/snapshot_sync.rs:226-291 | the whole new state, the next request and the import call for a chunk |
| SnapshotSync.Download | arxd/network/src/snapshot_sync.rs:172-291 | from an honest server every reply fills one missing chunk and the client imports exactly the server's rows |
| SnapshotCertificate.VerifyCertificateAgainst | arxd/network/src/snapshot_sync.rs:316-358 | the check accepts exactly what verify_finality_record would accept in the network that the first row of each key describes, for the snapshot's own block and genesis |
| SnapshotCertificate.FitsIff | arxd/network/src/snapshot_sync.rs:316-358 | what the check means, from the first rows: a precommit certificate of this block, the genesis hash, the epoch's set, distinct members of it with a quorum and a key row each, and exactly their signatures |
| SnapshotCertificate.RowAtFirst | arxd/network/src/snapshot_sync.rs:303-307 | a lookup finds the value of the first row with the key, or none when no row has it |
| SnapshotCertificate.PaddedRead | core/storage/src/batch.rs:234-234 | heights are written twenty digits wide and read back as themselves |
| SnapshotCertificate.GenesisRead | arxd/network/src/snapshot_sync.rs:316-358 | a genesis hash is read back from its hex text with or without the prefix, and only with 32 bytes |
| SnapshotCertificate.EpochStart | core/primitives/src/validator_set.rs:65-72 | the effective height is the first of its epoch |
| SnapshotImport.RootIsLastRows | core/storage/src/snapshot.rs:183-197 | a snapshot the import admits holds, in the last row of each state key whatever column it names, what the block's root commits to |
| SnapshotImport.AdmitsIff | core/storage/src/snapshot.rs:172-213 | what a snapshot has to bring: a certificate for this very block, the root, and this node's own genesis row |
| SnapshotImport.HomesApart | core/storage/src/lib.rs:629-661 | no kind of key is shadowed by another's column, but for a meta key of 32 bytes |
| SnapshotImport.ImportIsState | core/storage/src/snapshot.rs:147-243 | after the import the database reads, for a state key, what the block committed to exactly when no row has the key, or its last row and its last row in its own column carry one value |
| SnapshotImport.CheckedIsImportedIff | core/storage/src/snapshot.rs:183-243 | the row the certificate check reads for a key is what the database reads after the import exactly when no row has the key, or the last row of it in its own column carries the value of its very first row |
| SnapshotImport.ListedChecksImported | arxd/network/src/snapshot_sync.rs:303-358 | for rows that list every key once in its own column, as a server does, the certificate is checked in the very network that is imported |
| SnapshotExample.MisfiledImported | core/storage/src/lib.rs:1722-1741 | a snapshot whose certificate passes and whose rows hash to the block's root, imported with a validator set the block did not commit to |
| SnapshotExample.TwoRowsSplit | arxd/network/src/snapshot_sync.rs:303-358 | a snapshot with two rows for one validator-set key that is imported although its certificate passes only against the set that is not |
| Slashing.SlashingConserves | arxd/runtime/src/consensus.rs:368-434 | over any sequence of fault submissions the sum of all balances is unchanged, whoever the challenger is |
| Slashing.SlashedOnce | arxd/runtime/src/consensus.rs:377-379 | a validator whose stake a submission touched is never touched by a later one |
| Slashing.TombstonedStays | arxd/runtime/src/consensus.rs:377-379 | a tombstoned validator stays tombstoned and its stake stays what it was |
| Slashing.RewardBounded | arxd/runtime/src/consensus.rs:401-426 | for every challenger the reward is at most what the pool received from this slash, and a challenger other than the pool and the sub-account gains exactly the given share of it |
| Slashing.SlashOnlyRow | arxd/runtime/src/consensus.rs:380-395 | the stake row slashed is the first master's, no other row changes, and it is gone exactly when the masters are cleared |
| Slashing.ShareExact | core/evidence/src/lib.rs:22-26 | the amount is the exact fraction rounded down |
| Slashing.SlashSucceedsIff | arxd/runtime/src/consensus.rs:368-434 | while all money fits 128 bits no slash fails for an overflow: it succeeds exactly when the validator is tombstoned or its first master has a stake behind it |
| Slashing.StaysInRange | arxd/runtime/src/consensus.rs:416-426 | no sequence of submissions writes a balance that does not fit 128 bits |
| Slashing.SubmitTwice | arxd/runtime/src/consensus.rs:61-135 | the second time a submission changes nothing |
| Slashing.SubmitPunishes | arxd/runtime/src/consensus.rs:144-355 | a dispute leaves its marker and nothing else; unmarked evidence against a staked validator tombstones it; only the culprit named is marked |
| Slashing.CutExact | circuits/staking/src/lib.rs:341-430 | what is bonded pays first, and an unbonding used up is gone |
| Slashing.SlashTakes | arxd/runtime/src/consensus.rs:380-434 | for every challenger: the given share leaves the stake, what the sub-account has of it leaves the sub-account, the reward reaches the challenger and the rest the pool, no other balance changes, and the validator is tombstoned |
| Slashing.ApplyConserves | circuits/staking/src/lib.rs:341-430 | a slash moves exactly what it debits |
| Slashing.RunFaultSlash | arxd/runtime/src/consensus.rs:368-434 | the in-place edit of the account map computes the slash the theorems are about, error cases included |
| Backlog.GateHolds | arxd/node/src/lib.rs:906-917 | under every interleaving at most 50,000 peer events are queued, the counter equals what is queued or between two steps, and no subtraction underflows |
| Backlog.AtRestExact | arxd/finality/src/lib.rs:575-582 | with no thread between steps the counter is exactly the queue length |
| Backlog.RestExact | arxd/node/src/lib.rs:906-917 | from rest a sender is let in exactly while fewer than the cap are queued and otherwise leaves no trace, and the finality thread takes one out whenever one waits |
| Backlog.Delivered | arxd/finality/src/lib.rs:575-582 | what was put on the channel was taken off, is queued, or was there when the receiver went away |
| PowerAssignment.AssignVotingPower | core/primitives/src/validator_set.rs:102-174 | powers cover exactly the members and sum to exactly 10,000; those below the cap share what is left in proportion to stake, rounded down with the units over going to the first in address order, and everyone else holds the cap and earns it at that rate; more stake never holds a whole unit less |
| PowerAssignment.CapFits | core/primitives/src/validator_set.rs:85-90 | the cap can always be met, and keeps a single validator within the fault bound exactly from four validators on |
| PowerAssignment.CapExact | core/primitives/src/validator_set.rs:85-90 | the cap is the equal share rounded up to three validators, 3,333 to six, twice the equal share rounded down to twenty, and a tenth beyond |

## Left out

- BLS, Ed25519, SHA-256 and bincode: signatures, hashes and encodings are the ideal ones described
  above; a value that does not decode appears only where the source branches on it.
- The circuits, `dispatch`, `seal` and metering bodies: replay is proved for every deterministic program
  over key reads in their place. Undecodable values in the proven state are not distinguished.
- `accept_block` beyond its chain, certificate, lock and round checks: proposer turn, timestamps and
  mempool effects only restrict further which blocks a node accepts.
- Storage errors inside a tally or an engine step: a read or write the database refuses ends the call
  early and is not modelled; the durable vote and proposal records are the exception.
- FinalityEngine.Engine.TryStep: the method reads the database once; that a step whose reads interleave
  with other threads is also a run of network events is `FinalityEngine.TornStep`. The round certificate a
  step keeps from a held block is filed at the height after the watermark of that moment.
- Safety.NetworkAgreement: for certificates at settled heights, since the code's own guards admit
  `StaleSets.StaleSetSplits`.
- Safety.NetworkLock: likewise, for certificates and locks at settled heights.
- Safety.NetworkChain: likewise, for certificates at settled heights.
- Safety.NetworkPrefix: for runs in which locks and records are formed at settled heights, since the code
  admits `StaleSets.StaleSetForks`.
- Safety.NetworkRounds: for the same runs.
- Recovery.NeverHalts: for the same runs and a settled height, since the code admits
  `Recovery.HaltsOnStaleSet`; a height below the snapshot the node joined from does halt it.
- Key rotation: which BLS key a height is checked against is whatever the node reads for it; when those
  readings change is not modelled.
- Dissents, evidence artifacts and the on-chain dispute states: only whom a submission names, and whether
  it slashes, enter `Slashing`.
- Slashing.RunFaultSlash: amounts are unbounded where the code multiplies in 128 bits; the overflow checks
  on credited balances are kept.
- Block pages, peer scoring, the stuck-tip counter, the revert's returned mempool actions and everything
  about transport, gossip and metrics.
- SnapshotSync.ImportsAnchored: rows outside the state trie are only tied to the manifest, as in the source;
  a root or a column name that does not decode is not modelled, and hash collisions are excluded for the
  keys of the rows only (`SnapshotImport.Alone`).
- Liveness and timeout lengths.
- Undo records and state reconstruction at past heights, the epoch boundary hook, genesis and operator
  bookkeeping: they would only add easy members.
