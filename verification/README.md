# Broker authority: a verified model

A Dafny model of the host broker's authority machinery: the grant verifier and
its durable journals, signed time, controller documents, key rotation and the
issuer pin, the browser dispatcher, operation owners and the durable header,
one-use browser offers, the byte relay and the WebSocket upgrade.

How the model is built:

- Pure code is functions and lemmas. Objects the broker updates in place are
  classes whose methods are proved equal to those functions
  (`ConsumptionJournal`, `RevocationLog`, `VerifierObject`, `KeyRotation`,
  `PinHistory`, `Owners`, `Offers`, `Relay`), and loops are loops with
  invariants.
- Runs are sequences of states and events. Every locked call is one step. Every
  file operation's outcome is a parameter of the step: lost, torn after `k`
  bytes, renamed but reported as failed, or durable. Crashes and restarts are
  events. The dispatcher runs as single atomic reads and updates interleaved
  with its actors.
- Files are text with one character per byte. The journal revision is a number
  that every write advances. Maps are walked in any order. Boottime, signed
  stamps, random ids and signature checks are inputs; error texts are not told
  apart. Numbers are unbounded, and 64-bit saturation and overflow checks are
  written out where the code has them.

Where a promised property does not hold of the code, the model keeps the code,
gives a concrete run, and proves exactly when the property holds:

- **One use.** A time reply a day ahead can prune the consumption journal and
  then fail on the revocation journal. Memory keeps the old time, and a
  consumed grant can be delivered and consumed again
  (`DoubleUse.AtMostOnceCanFail`). A step keeps the one-use invariant if and
  only if it is not such a reply (`VerifierRuns.StepKeepsInvExactly`), and a
  crash instead of going on is harmless (`VerifierRuns.CrashInReply`). Under an
  honest controller clock it cannot happen (`HonestClock.AtMostOnceHonest`).
- **The pruned boundary.** After the same reply a record can be added that
  expires no later than what was already pruned
  (`DoubleUse.BoundaryCanBeOvertaken`,
  `PrunedBoundary.StepKeepsBoundaryExactly`).
- **The time mark** can fall after a mark write that was renamed but reported
  as failed (`SignedTime.MarkCanFall`, `SignedTime.MarkFallsExactly`).
- **The durable pin epoch** can fall in the same way
  (`PinHistory.PinCanFall`, `PinHistory.PinFallsExactly`).
- **An interrupted rotation.** When the last flush of a key rotation fails, the
  new key is active while grants for the old key stay accepted until the
  document is delivered again (`InterruptedRotation.RotationCanLeaveOldKey`,
  `AuthorityRuns.InterruptedRotationExactly`,
  `AuthorityRuns.RedeliveryRepairs`).
- **The header projection.** Replacing a closure by one with a longer status
  raises it, and the one-mebibyte bound can be exceeded
  (`HeaderSize.ReclosingCanExceedBound`, `HeaderSize.CloseRaisesExactly`).
- **The revocation file** becomes unreadable when a tombstone is appended after
  a torn residue that was not cut, and it loses a tombstone memory still holds
  when a done compaction is reported as failed
  (`TornRevocation.RevocationFileCanBeLost`,
  `TornRevocation.CompactionCanDisagree`,
  `RevocationRuns.StepKeepsAgreementExactly`).
- **Closed records.** When an operation id comes back after its record was
  pruned while the dispatcher still takes it as terminated, recovery can close
  the new record while its helper runs (`OperationIds.ReuseClosesRunning`,
  `Dispatcher.StepKeepsInvExactly`).

`dafny verify dfyconfig.toml` checks everything.

## Model

| member | source | states |
|---|---|---|
| JournalLine.ConsumptionLineExact | crates/blindpass-broker/src/grants.rs:1542-1601 | the line reader accepts exactly the printed form of valid consumption records, so printing and parsing are mutual inverses |
| JournalLine.TombstoneLineExact | crates/blindpass-broker/src/grants.rs:1603-1652 | the same for revocation tombstones with or without an outcome |
| JournalLine.HistoryLineExact | crates/blindpass-broker/src/grants/history.rs:41-122 | the same for the history header |
| LineFile.ScanLines | crates/blindpass-broker/src/grants.rs:805-835 | the one-pass reader of complete lines computes the fold over the file's lines and stops at the first refused one |
| LineFile.CutTornTail | crates/blindpass-broker/src/grants.rs:1528-1540 | the cut keeps exactly the part up to the last line end |
| JournalFile.ReadLocked | crates/blindpass-broker/src/grants.rs:772-849 | reading computes the loaded state and the repaired file, or refuses for size, header placement, duplicates or bounds |
| JournalFile.CrashAtomicAppend | crates/blindpass-broker/src/grants.rs:772-849 | for every prefix of an append, the next read succeeds, yields exactly the old records or those plus the new one, and leaves the file on a record boundary |
| JournalFile.LoadConsistent | crates/blindpass-broker/src/grants.rs:785-849 | whatever an accepted file holds is internally consistent: valid records, bindings only for records, bounded count |
| JournalFile.RenderedLoads | crates/blindpass-broker/src/grants.rs:1054-1104 | a compacted file within its bound loads back as exactly the state it was written from, in any record order |
| ConsumptionJournal.Store.Read | crates/blindpass-broker/src/grants.rs:772-849 | reading the shared file cuts a torn tail in place and returns what it holds |
| ConsumptionJournal.Open | crates/blindpass-broker/src/grants.rs:767-771 | opening yields an instance in step with the file, or refuses |
| ConsumptionJournal.Journal.Synchronize | crates/blindpass-broker/src/grants.rs:854-900 | re-reads only a changed revision and refuses another history, an older boundary or a missing unpruned consumption, leaving memory unchanged |
| ConsumptionJournal.Journal.Append | crates/blindpass-broker/src/grants.rs:962-1011 | one line is written; memory follows the durable line even when a later flush fails |
| ConsumptionJournal.Journal.Record | crates/blindpass-broker/src/grants.rs:928-1011 | the whole new file, memory and result of recording an intent, for every outcome of the write |
| ConsumptionJournal.Journal.Rewrite | crates/blindpass-broker/src/grants.rs:1054-1104 | replaces the file by a printed state, for every point at which the replacement may fail |
| ConsumptionJournal.Journal.Prune | crates/blindpass-broker/src/grants.rs:1013-1052 | drops exactly the records whose expiry plus retention has passed and raises the pruned boundary |
| ConsumptionJournal.FilterRetained | crates/blindpass-broker/src/grants.rs:1017-1040 | one pass keeps exactly the retained records and finds the latest dropped expiry |
| ConsumptionJournal.PrunedState | crates/blindpass-broker/src/grants.rs:1017-1046 | the state a prune leaves, bindings and header included |
| ConsumptionJournal.Render | crates/blindpass-broker/src/grants.rs:1066-1085 | the printed file lists the header and each record once |
| JournalSize.PruneFits | crates/blindpass-broker/src/grants.rs:1054-1104 | compacting any readable file needs no more bytes than the file had, in any record order, although the header grows |
| JournalRuns.StepKeepsInv | crates/blindpass-broker/src/grants.rs:767-1104 | every open, record, prune, bind or genesis by any instance, with any write outcome, is one change of the ledger and keeps every cache sound |
| JournalRuns.PruneExactly | crates/blindpass-broker/src/grants.rs:1013-1104 | a prune succeeds exactly when no record is due or its write completes, and removes records exactly when the rename happens and the raised boundary is printable, never failing on size |
| JournalRuns.CacheCoherence | crates/blindpass-broker/src/grants.rs:767-1104 | over every interleaving of any number of instances, equal revision implies that memory equals the parsed file, which can always be reopened |
| JournalRuns.HonestNeverRefused | crates/blindpass-broker/src/grants.rs:854-900 | honest writers and compactors never trip the rollback refusal |
| JournalRuns.RefinesLedger | crates/blindpass-broker/src/grants.rs:767-1104 | caches, torn tails and failed writes refine one run of a simple ledger |
| JournalRuns.NoIntentLost | crates/blindpass-broker/src/grants.rs:928-1052 | a recorded intent leaves the file only by a prune at or after its expiry plus 24 hours |
| JournalRuns.NoDoubleRecord | crates/blindpass-broker/src/grants.rs:928-1052 | no id is recorded twice without such a prune in between |
| JournalRuns.AbovePrunedApply | crates/blindpass-broker/src/grants.rs:1013-1052 | pruning keeps every retained expiry above the pruned boundary; an added record keeps it exactly when it expires after that boundary |
| JournalRuns.RollbackRefusalExact | crates/blindpass-broker/src/grants.rs:854-900 | an earlier copy of the file is accepted if and only if it has the same boundary and scope and lacks nothing the reader saw |
| RollbackRuns.RollbackExact | crates/blindpass-broker/src/grants.rs:854-900 | over every verifier-driven run in which no process goes on after an overtaking reply: memory is some state the file had; a copy not older than that is accepted, and an older one if and only if it lacks nothing that was seen |
| RevocationJournal.ReopenAgrees | crates/blindpass-broker/src/grants.rs:1108-1152 | for ids outside `unpersisted`, reopening gives memory's retention and first outcome |
| RevocationJournal.RecordExactly | crates/blindpass-broker/src/grants.rs:1200-1225 | from a file that agrees with memory, recording keeps them agreeing exactly when its line does not merge with an uncut residue, and on a record boundary exactly when it leaves none; the tombstone is in force in any case |
| RevocationJournal.RetryExactly | crates/blindpass-broker/src/grants.rs:1278-1284 | the same for retrying any number of tombstones, and success leaves none of them unpersisted |
| RevocationJournal.PruneInStepExactly | crates/blindpass-broker/src/grants.rs:1336-1385 | compaction keeps them in step if and only if it does not fail after removing a written tombstone |
| RevocationJournal.BoundaryNeededExactly | crates/blindpass-broker/src/grants.rs:1286-1334 | after an append the file reads back if and only if it ended on a record boundary before |
| RevocationLog.Open | crates/blindpass-broker/src/grants.rs:1108-1152 | opening cuts a torn tail and reads every tombstone, keeping the longest retention and the first outcome |
| RevocationLog.Log.Append | crates/blindpass-broker/src/grants.rs:1286-1334 | the file and result for every outcome of the write |
| RevocationLog.Log.Record | crates/blindpass-broker/src/grants.rs:1200-1225 | memory first, then the file |
| RevocationLog.Log.RetryUnpersisted | crates/blindpass-broker/src/grants.rs:1278-1284 | appends in order, stopping at the first failure |
| RevocationLog.Log.Prune | crates/blindpass-broker/src/grants.rs:1336-1385 | removes expired tombstones and their outcomes and rewrites the file |
| GrantVerifier.DeadlineBounds | crates/blindpass-broker/src/grants.rs:372-381 | a local deadline lies strictly ahead, within the signed lifetime and within the grant's, the policy's and the registration's ceiling each |
| VerifierObject.BrokerVerifier.AcceptTimeReply | crates/blindpass-broker/src/grants.rs:215-296 | the full new memory and files of a time reply, for every point at which one of its writes may fail |
| VerifierObject.BrokerVerifier.AcceptSigned | crates/blindpass-broker/src/grants.rs:298-388 | the full effect of delivering a grant, redeliveries settled first |
| VerifierObject.BrokerVerifier.ConsumeGrant | crates/blindpass-broker/src/grants.rs:390-414 | the intent is durable before the grant is handed out; a failed write hands out nothing |
| VerifierObject.BrokerVerifier.RevokeGrant | crates/blindpass-broker/src/grants.rs:590-606 | authority is gone before the tombstone is written and stays gone on an error |
| VerifierObject.BrokerVerifier.RetireOne | crates/blindpass-broker/src/grants.rs:537-546 | the bounded queue after one retirement |
| VerifierObject.BrokerVerifier.WithdrawFor | crates/blindpass-broker/src/grants.rs:548-586 | an epoch, key, registration or policy change drops exactly the grants it hits |
| VerifierObject.BrokerVerifier.RetryRevocationWrites | crates/blindpass-broker/src/grants.rs:694-699 | only the revocation file and its unpersisted ids change, for every outcome of each write |
| VerifierRuns.StepKeepsMemory | crates/blindpass-broker/src/grants.rs:215-606 | accepted ids and tombstones stay disjoint, deadlines stay within the ceilings, and the high-water mark stays within two seconds of trusted time |
| VerifierRuns.ReplyCompletesExactly | crates/blindpass-broker/src/grants.rs:255-295 | a reply is accepted exactly when it passes the checks and every write it needs succeeds; it removes records exactly when its own prune is written |
| VerifierRuns.StepKeepsInvExactly | crates/blindpass-broker/src/grants.rs:215-414 | one step keeps the one-use invariant if and only if it is not a reply that replaces the journal file, fails at a later write, and finds a spent grant due that memory holds or does not know to be over; a consumption that succeeds is the grant's first |
| VerifierRuns.CrashInReply | crates/blindpass-broker/src/grants.rs:255-289 | a crash at any point of a reply keeps the one-use invariant, as the mark is written first |
| VerifierRuns.AtMostOnce | crates/blindpass-broker/src/grants.rs:215-414 | over every run of starts, crashes at any point, replies with arbitrary signed times, redeliveries and failed writes in which no process goes on after such a reply, consume succeeds at most once per grant |
| DoubleUse.AtMostOnceCanFail | crates/blindpass-broker/src/grants.rs:266-289 | a concrete run with such a reply hands out one grant twice |
| PrunedBoundary.StepKeepsBoundaryExactly | crates/blindpass-broker/src/grants.rs:255-289 | one step keeps the pruned boundary behind memory and mark if and only if it is not a reply that replaces the journal file, fails later, and removes a record that memory's time has not passed |
| PrunedBoundary.RecordsAbovePruned | crates/blindpass-broker/src/grants.rs:1013-1052 | over every verifier-driven run with arbitrary signed times in which no process goes on after such a reply, every retained expiry stays above the pruned boundary |
| DoubleUse.BoundaryCanBeOvertaken | crates/blindpass-broker/src/grants.rs:266-289 | a concrete run in which a process goes on after such a reply and records a grant at the boundary |
| HonestClock.EstimateIsUpperBound | crates/blindpass-broker/src/grants.rs:232-246 | with honest stamps the estimate is never below true controller time at receipt, whatever delay the relay adds |
| HonestClock.AtMostOnceHonest | crates/blindpass-broker/src/grants.rs:215-414 | under an honest clock consume succeeds at most once per grant with every failure allowed |
| HonestClock.NeverAfterExpiry | crates/blindpass-broker/src/grants.rs:325-387 | every consumption that succeeds happens strictly before the signed expiry in true controller time and before the boottime limit that its last acceptance set from one hour and the three ceilings |
| HonestClock.AcceptedSoonAfterIssue | crates/blindpass-broker/src/grants.rs:325-363 | under an honest clock a grant is newly accepted only within one minute of true controller time after it was issued |
| HonestClock.RecordsAbovePruned | crates/blindpass-broker/src/grants.rs:1013-1052 | under an honest clock every retained expiry stays above the pruned boundary with every failure allowed |
| SignedTime.MarkFallsExactly | crates/blindpass-broker/src/grants.rs:255-272 | the persisted mark falls exactly when a reply is written against memory that lags behind it, at a lower signed time |
| SignedTime.MarkInStepExactly | crates/blindpass-broker/src/grants.rs:262-295 | memory and mark stay equal if and only if no reply raises the mark on disk and then fails to flush it, to replace a journal with due records or to replace a revocation file with due tombstones |
| SignedTime.MarkNeverFalls | crates/blindpass-broker/src/grants.rs:255-295 | over every run in which no process goes on after such a reply, so with crashes at any point of one, the mark never falls and every accepted signed time is at least any earlier mark minus two seconds |
| SignedTime.MarkCanFall | crates/blindpass-broker/src/grants.rs:262-289 | a concrete run in which the mark falls |
| SignedTime.OneReplyPerChallenge | crates/blindpass-broker/src/grants.rs:192-246 | over every run an accepted reply answers a challenge begun at most 35 s before and after every earlier reply, accepted or not |
| SignedTime.BoundedRegress | crates/blindpass-broker/src/grants.rs:206-295 | trusted time at a fixed boottime drops by at most 37 s when a reply replaces another |
| SignedTime.RegressIsTight | crates/blindpass-broker/src/grants.rs:206-256 | a run from an empty state reaches that bound |
| RevocationRuns.RevokedNeverConsumed | crates/blindpass-broker/src/grants.rs:590-606 | once revoke has run, even with an error, the grant is not consumable again in that process |
| RevocationRuns.StepKeepsAgreementExactly | crates/blindpass-broker/src/grants.rs:1200-1385 | for every step, file and memory keep agreeing if and only if no line is written behind a residue and no compaction is reported as failed after removing a written tombstone |
| RevocationRuns.StepKeepsMarksExactly | crates/blindpass-broker/src/grants.rs:1200-1385 | for every step, the file also stays on a record boundary if and only if moreover no failed write leaves part of its line |
| RevocationRuns.ReopenGivesMemory | crates/blindpass-broker/src/grants.rs:1107-1225 | over runs of crashes, failed and torn writes, retries and compactions in which no process goes on after spoiling the file, reading it gives memory's answer for every id outside `unpersisted`, right after a torn write too |
| TornRevocation.RevocationFileCanBeLost | crates/blindpass-broker/src/grants.rs:1286-1334 | a run in which a torn revocation is retried with success, nothing is unpersisted, the file cannot be read and the verifier does not start again |
| TornRevocation.CompactionCanDisagree | crates/blindpass-broker/src/grants.rs:1336-1385 | a compaction reported as failed after which memory holds a tombstone the file lacks |
| Retirement.RetireStep | crates/blindpass-broker/src/grants.rs:537-546 | the retirement queue is first-in first-out and forgets a record only when 9,999 newer ones follow it |
| Retirement.LeavingIsRecorded | crates/blindpass-broker/src/grants.rs:513-586 | every grant that leaves `accepted` is recorded, tombstoned or consumed afterwards, and only an unknown grant is newly accepted |
| Retirement.NotAgainWhileKnown | crates/blindpass-broker/src/grants.rs:316-324 | a grant that left is not accepted again while its record is held |
| Retirement.NotAgainBeforeEvicted | crates/blindpass-broker/src/grants.rs:316-546 | a dropped grant is not accepted again by the same process before more than 10,000 grants, itself included, have been dropped |
| AuthorityRuns.StepKeepsCurrent | crates/blindpass-broker/src/control.rs:378-700 | every document keeps all accepted grants on the observed epoch and fully matching the policy and registration in force; versions only rise; whatever else leaves is outdated |
| AuthorityRuns.EpochExact | crates/blindpass-broker/src/grants.rs:563-571 | all accepted grants always carry exactly the epoch the verifier observed |
| AuthorityRuns.StaleOnlyShrinks | crates/blindpass-broker/src/control.rs:394-445 | a document of an older epoch adds no grant, removes no tombstone and changes no configuration |
| AuthorityRuns.RevocationFromAnyEpoch | crates/blindpass-broker/src/control.rs:423-437 | a revocation for this node, of any epoch, leaves the grant gone and its tombstone in force for at least the signed time, whether or not it could be written |
| AuthorityRuns.NeverAcceptedAgain | crates/blindpass-broker/src/control.rs:384-700 | a grant withdrawn by a new epoch, key, registration or policy is never accepted again in that process, even after its record was evicted |
| AuthorityRuns.HandedOutMatches | crates/blindpass-broker/src/grants.rs:390-512 | over every run what is handed out matches the policy and registration in force at that moment, the observed epoch, and the workload, unit and invocation asking |
| AuthorityRuns.InterruptedRotationExactly | crates/blindpass-broker/src/control.rs:661-677 | for every document and every other step, accepted grants stay on exactly the current key if and only if the step is not a rotation interrupted at its last flush while a grant of the document's epoch is held |
| AuthorityRuns.RedeliveryRepairs | crates/blindpass-broker/src/control.rs:661-677 | delivering the active rotation again leaves only grants for the current key, whatever was interrupted before |
| AuthorityRuns.AcceptedCarryCurrentKey | crates/blindpass-broker/src/control.rs:661-677 | over every run without an interrupted rotation, and from any redelivery on until the next one, all accepted grants carry exactly the current key |
| InterruptedRotation.RotationCanLeaveOldKey | crates/blindpass-broker/src/control.rs:661-677 | a run that delivers a grant, interrupts the rotation and still holds the grant for the old key |
| Dispatcher.StepKeepsInvExactly | crates/blindpass-broker/src/browser_coordinator.rs:277-630 | every atomic step of dispatcher and actors keeps the full invariant if and only if it does not reserve an operation id that is still terminated, running or alive (or, unpersisted, one whose earlier actor revoked its account) |
| Dispatcher.StepSafe | crates/blindpass-broker/src/browser_coordinator.rs:277-630 | whatever the operation ids, every atomic step keeps the counter, the gate, the selection of records and their exclusivity right |
| Dispatcher.NoStopUnderActors | crates/blindpass-broker/src/browser_coordinator.rs:320-348 | over all interleavings a class-wide stop is issued only when no operation is registered as running and no actor holds a place |
| Dispatcher.LaunchAfterRecovery | crates/blindpass-broker/src/browser_coordinator.rs:405-488 | no actor is launched before a class-wide recovery succeeded, and at most 16 hold a place |
| Dispatcher.RecoveryLeavesActorsAlone | crates/blindpass-broker/src/browser_coordinator.rs:495-605 | over every interleaving that reuses no such id, terminated and running operations are disjoint, recovery never touches a registered actor's record, and what it takes as terminated was pending at a class-wide stop and has no process |
| Dispatcher.ClosedOnlyWhenStopped | crates/blindpass-broker/src/browser_coordinator.rs:713-733 | over every such interleaving a record closed by reconciliation has no helper or browser left and its account was revoked since the record was made; the actor's own claims come from its cleanup facts |
| Dispatcher.OneOperationPerAccount | crates/blindpass-broker/src/session_journal.rs:278-325 | two unfinished operations never share an account or a unit, whatever the ids |
| OperationIds.FreshIdsSuffice | crates/blindpass-broker/src/browser_coordinator.rs:277-290 | operation ids that never repeat are never reused in that sense |
| OperationIds.ReuseClosesRunning | crates/blindpass-broker/src/browser_coordinator.rs:495-605 | a run from a broker start in which a pruned id is used again and its record is closed while its helper runs |
| ActorCleanup.CleanupProvesStop | crates/blindpass-broker/src/browser_coordinator.rs:713-733 | an actor claims both processes stopped only when neither can be left |
| ActorCleanup.CleanupClaimsExactly | crates/blindpass-broker/src/browser_coordinator.rs:713-733 | exactly when each claim is made: no process the facts allow can be left, and a verified browser was itself terminated |
| ActorCleanup.DeadlineNeverExtended | crates/blindpass-broker/src/browser_coordinator.rs:1126-1141 | the browser's boottime deadline never extends the website's, for samples up to 20 ms apart |
| Owners.InsertInto | crates/blindpass-broker/src/lib.rs:297-306 | the bounded insertion loop |
| Owners.QueuedReferences | crates/blindpass-broker/src/owner_retention.rs:226-235 | the keys named by queued events |
| Owners.OwnerTable.NextBatch | crates/blindpass-broker/src/owner_retention.rs:99-110 | the next terminal keys in age order, at most one batch |
| Owners.OwnerTable.Reclaim | crates/blindpass-broker/src/owner_retention.rs:91-116 | batches of the oldest terminal owners are removed while the table is full |
| Owners.OwnerTable.EnsureCapacity | crates/blindpass-broker/src/owner_retention.rs:84-130 | the whole outcome of making room; a failed durable write restores both tables exactly |
| Owners.OwnerTable.EvictTerminal | crates/blindpass-broker/src/owner_retention.rs:149-177 | removes exactly the first terminal owners up to the limit, or nothing when the write fails |
| Owners.OwnerTable.PruneCrowded | crates/blindpass-broker/src/owner_retention.rs:134-143 | the tick reclaims only a table crowded by count or size |
| Owners.EvictCountExact | crates/blindpass-broker/src/owner_retention.rs:99-116 | the table was full before the last batch, and afterwards there is room or no terminal owner is left |
| Owners.VictimsAreOldestTerminals | crates/blindpass-broker/src/owner_retention.rs:91-116 | only terminal owners go, and every terminal owner that stays is younger than every victim |
| Owners.OwnersInUseStay | crates/blindpass-broker/src/owner_retention.rs:237-268 | an owner withdrawn before admission, without closure, with an open cancellation, lease, browser, unresolved record or queued event survives every eviction unchanged |
| Owners.RefusedMeansNoneLeft | crates/blindpass-broker/src/owner_retention.rs:117-130 | a refusal for capacity means that no terminal owner remains |
| HeaderSize.OwnerFits | crates/blindpass-broker/src/owner_retention.rs:43-77 | an owner at maximum field sizes plus its closure reserve fits the room admission keeps |
| HeaderSize.CloseRaisesExactly | crates/blindpass-broker/src/lib.rs:1814-1817 | closing raises the projection exactly when it replaces a shorter status |
| HeaderSize.EvictSize | crates/blindpass-broker/src/owner_retention.rs:111-114 | evicting owners never raises the projection |
| HeaderSize.ReclaimIsStep | crates/blindpass-broker/src/owner_retention.rs:91-116 | what making room removes is one eviction of present owners, each once, so `HeaderStaysBounded` covers it |
| HeaderSize.SmallTables | crates/blindpass-broker/src/owner_retention.rs:51-52 | a table under the floor cannot reach the bound |
| HeaderSize.HeaderStaysBounded | crates/blindpass-broker/src/owner_retention.rs:179-216 | over every run of admissions, closures and evictions in which no closure replaces a shorter one, the projection stays within one mebibyte |
| HeaderSize.ReclosingCanExceedBound | crates/blindpass-broker/src/control.rs:641-659 | 630 admitted owners closed twice exceed the bound although every admission found room |
| CanonicalJson.EncodedSize | crates/blindpass-core/src/canon.rs:137-217 | the computed size of a value is the length of its canonical text, with section 7 of RFC 8259 escaping and sorted names |
| CanonicalJson.BindingSize | crates/blindpass-broker/src/owner_retention.rs:62-72 | the projection of a binding bounds its real size |
| CanonicalJson.ProjectionIsUpperBound | crates/blindpass-broker/src/lib.rs:3177-3249 | the header the writer produces is encodable and no longer than the projection, in any order of its tables |
| CanonicalJson.HeaderAlwaysFits | crates/blindpass-broker/src/lib.rs:3177-3249 | in every state of every run of admissions, closures and evictions in which no closure replaces a shorter one, the header can be written in any table order and is at most one mebibyte |
| CanonicalJson.BindingRoundTrip | crates/blindpass-broker/src/operation_request.rs:168-243 | reading a binding undoes writing it on exactly the valid bindings |
| KeyMaterial.Encode | crates/blindpass-broker/src/keys.rs:667-685 | the fixed buffer is filled with exactly the specified 137 bytes, or refused |
| KeyMaterial.KeysRoundTrip | crates/blindpass-broker/src/keys.rs:667-800 | reading undoes writing exactly when the rotation id is absent or a valid identifier, and otherwise refuses |
| KeyMaterial.KeysReadBack | crates/blindpass-broker/src/keys.rs:751-800 | whatever the reader accepts is exactly what the writer would write |
| KeyMaterial.PinExact | crates/blindpass-broker/src/keys.rs:966-1048 | the pin reader accepts exactly the lines the writer writes for valid pins |
| KeyRotation.NodeIdentity.PrepareRotation | crates/blindpass-broker/src/keys.rs:176-199 | the staged candidate and files afterwards; repeated calls keep the candidate |
| KeyRotation.NodeIdentity.ApplyKeyRotation | crates/blindpass-broker/src/keys.rs:203-256 | the keys, candidate and files afterwards, for every outcome of the write, removal and flush |
| KeyRotation.NodeIdentity.AcknowledgeRotation | crates/blindpass-broker/src/keys.rs:274-292 | the rotation id is forgotten durably or not at all |
| KeyRotation.StepKeepsInv | crates/blindpass-broker/src/keys.rs:72-292 | every step keeps the files loadable and in step with memory, advances the version by at most one, and keeps a staged candidate until it becomes the identity |
| KeyRotation.VersionsRiseByOne | crates/blindpass-broker/src/keys.rs:176-256 | over every run with crashes the key version in use never falls and rises by one |
| KeyRotation.ReloadAfterCrash | crates/blindpass-broker/src/keys.rs:72-129 | a crash at any point: reloading gives the old identity with the same candidate, or the candidate as new identity with nothing staged; without a candidate in memory one is staged exactly when a leftover file has it |
| KeyRotation.LeftoverExactly | crates/blindpass-broker/src/keys.rs:176-256 | such a leftover file appears exactly when staging was renamed but reported as failed, or the last representable version was applied and the pending file not removed |
| PinHistory.IssuerPin.PinIssuer | crates/blindpass-broker/src/keys.rs:447-469 | the pin file, memory and result for every outcome of binding and writing |
| PinHistory.HistoryCoversPin | crates/blindpass-broker/src/keys.rs:447-516 | at every crash point the durable pin is readable and the durable history epoch is at least its epoch |
| PinHistory.MemoryPinRises | crates/blindpass-broker/src/keys.rs:447-516 | within a process the pinned epoch never falls |
| PinHistory.PinFallsExactly | crates/blindpass-broker/src/keys.rs:447-516 | the durable epoch falls exactly when a pin passes the checks against memory (or a recovery raises memory's epoch), the history is not bound to another issuer, the rename happens, and its epoch is below the file's |
| PinHistory.PinNeverFalls | crates/blindpass-broker/src/keys.rs:447-516 | over runs in which no process goes on after a half-written pin the durable epoch never falls |
| PinHistory.PinCanFall | crates/blindpass-broker/src/keys.rs:1023-1048 | a run in which it falls |
| Offers.OfferBook.Purge | crates/blindpass-broker/src/provisioning.rs:35-42 | offers stay until their grant's deadline |
| Offers.OfferBook.Maintain | crates/blindpass-broker/src/provisioning.rs:43-57 | without a clock or without authority the key is withdrawn |
| Offers.OfferBook.MintOffer | crates/blindpass-broker/src/provisioning.rs:129-205 | the book and the offer handed out |
| Offers.OfferBook.AdmitSource | crates/blindpass-broker/src/provisioning.rs:217-312 | the book and the result of a delivery, the attempt spent before the key is used |
| Offers.OneOfferPerDeadline | crates/blindpass-broker/src/provisioning.rs:129-205 | over every run a second offer for a grant is made only after the first one's grant deadline and before its own |
| OfferRuns.OneOfferPerAcceptance | crates/blindpass-broker/src/provisioning.rs:161-205 | over every run of verifier and book with restarts, between two offers for one grant the verifier accepted the grant anew |
| Offers.OpenedAtMostOnce | crates/blindpass-broker/src/provisioning.rs:217-312 | over every run the key of an offer is used at most once |
| Offers.OpenedInTime | crates/blindpass-broker/src/provisioning.rs:161-312 | a key is used only before the offer's deadline, which is at most the grant's, and a source is stored only before that deadline and before the grant's signed expiry |
| Offers.RetryChangesNothing | crates/blindpass-broker/src/provisioning.rs:257-259 | at any later point of a run, while the offer is on the book, the exact retry of an accepted delivery is acknowledged and changes nothing |
| Offers.MintingEvictsNothing | crates/blindpass-broker/src/provisioning.rs:158-160 | capacity never evicts a live key |
| Relay.Buffer.Fill | crates/blindpass-broker/src/browser_proxy.rs:663-674 | one read into the empty buffer, everything outside it zero |
| Relay.Buffer.Flush | crates/blindpass-broker/src/browser_proxy.rs:675-690 | what is written leaves the front of the buffer and is wiped |
| Relay.Connection.Round | crates/blindpass-broker/src/browser_proxy.rs:584-656 | one turn keeps both directions first-in first-out and shuts a write side only when drained |
| Relay.Connection.Run | crates/blindpass-broker/src/browser_proxy.rs:564-661 | for every pattern of partial transfers the bytes written are a prefix of the bytes read, and success means equality both ways |
| Base64.CanonicalExact | crates/blindpass-broker/src/browser_proxy.rs:478-489 | a padded text is canonical exactly when it encodes some byte string of the fitting length (section 4 of RFC 4648) |
| Upgrade.KeyShapeExact | crates/blindpass-broker/src/browser_proxy.rs:478-489 | a key is accepted exactly when it is the base64 of sixteen bytes (section 4.1 of RFC 6455) |
| Upgrade.ScanHeaders | crates/blindpass-broker/src/browser_proxy.rs:461-506 | the header loop computes the fold over the header lines |
| Upgrade.RewriteUpgrade | crates/blindpass-broker/src/browser_proxy.rs:440-512 | the rewritten request, or a refusal |
| Upgrade.AcceptedKeyExact | crates/blindpass-broker/src/browser_proxy.rs:458-511 | an accepted request carries exactly one key, of the right shape |
| Upgrade.ForbiddenRefused | crates/blindpass-broker/src/browser_proxy.rs:461-506 | any malformed line, credential header, transfer encoding or body length refuses the whole request, wherever it stands |
| Upgrade.AcceptedIsUpgrade | crates/blindpass-broker/src/browser_proxy.rs:490-511 | an accepted request has a version 13 header, a websocket upgrade, a connection asking for it and a host of at most 256 bytes |
| Upgrade.OnlyKeyMatters | crates/blindpass-broker/src/browser_proxy.rs:440-512 | two accepted requests with the same key give identical output whatever their other headers |

## Left out

- VerifierRuns.AtMostOnce: assumes that no process goes on after a reply that failed once its prune removed a consumption memory does not know to be over; `DoubleUse` shows why, `HonestClock` removes the assumption for an honest clock.
- PrunedBoundary.RecordsAbovePruned: the same assumption for any record, and a journal to start from whose boundary is at least two seconds behind the mark.
- RevocationRuns.RevokedNeverConsumed: assumes that a revocation is retained until two seconds past the grant's expiry, as the controller promises.
- RevocationRuns.ReopenGivesMemory: assumes that no process goes on after it wrote behind a residue or had a done compaction reported as failed; `TornRevocation` shows why.
- AuthorityRuns.StepKeepsCurrent: the fence for unpersisted state is an input, and the recovery report may raise the pin without telling the verifier, so the observed epoch may lag behind the pin.
- Dispatcher.ClosedOnlyWhenStopped: assumes that no reserved operation id is still terminated, running or alive; `OperationIds` shows why.
- Dispatcher.RecoveryLeavesActorsAlone: the same assumption; retry spacing and the four records per pass are any choice of records, so no fairness is claimed.
- HeaderSize.HeaderStaysBounded: closures of unknown owners do not occur, keys have at most 58 and statuses at most 9 characters.
- KeyRotation.ReloadAfterCrash: at the last representable 64-bit version a leftover file may count as staged again, as the code's saturating comparison has it.
- CanonicalJson.HeaderAlwaysFits: assumes that keys, closure words and owner fields use the character sets the broker checks before it stores them.
- Relay.Connection.Run: the script of turns is finite; the final shutdown of both sockets after the loop is not modelled.
- Signatures, key agreement and hashes: abstract; documents are given as already verified, public keys stand for their seeds, and SHA-256 digests are opaque.
- File ownership, modes, links, locks, flushes and polls: only their effect is modelled.
- The acknowledgement file of the revocation journal, the audit queue and its overflow handling: easy bookkeeping.
- Fulfillment documents, the fulfillment book and the recovery report pages: other subsystems.
- Legacy key import at first start: only the canonical identity file is modelled.
- `handle_command`, the length and pin parsers of the control socket, the proxy slot and the upgrade reader: they would only add easy members.
- Session journal durability, helper and login records: records are pending or closed in memory only.
- Workload identity proofs, the browser supervisor, the private helper, configuration and startup: mostly foreign calls.
- `preview_consumption` and the other read-only previews: the same checks as `consume` without its effect.
