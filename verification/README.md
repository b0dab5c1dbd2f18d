# Tide Mind: verified models of the delivery, repair, archive and admission cores

This project models the parts of Tide Mind whose correctness depends on many steps at once, and proves what they promise.

- **Context restore** (`ContextRestore`, `RestoreProtocol`, `RestoreRuns`, `RestoreStore`). A durable lease protocol over one metadata row per scope. Each store operation is one transaction; runs are arbitrary sequences of transactions with a clock, from any rows. The hook programs are methods over the store, with other processes' transactions between their own.
- **Verification-evidence repair** (`EvidenceTables` to `EvidenceDatabase`, `EvidenceVisitOrder` and `EvidenceKept`). Five tables repaired by row loops; each loop is proved equal to a closed form over all rows at once, and the closed forms carry the safety, index and second-pass theorems.
- **Release archives** (`Crc32`, `PartialIo`, `ZipFormat`, `ZipReader`). Byte-level ZIP reading (PKWARE APPNOTE.TXT sections 4.3.6, 4.3.7, 4.3.9, 4.3.12 and 4.3.16), the table-driven CRC-32 against the bit-serial one of section 8 of RFC 1952, and copy loops over short reads and writes.
- **Bridge admission** (`BridgeAdmission`, `BridgeRuns`, `BridgeCarriers`). The decision over the run log and the physical-write log, for every later log.
- **Diagnostic supervisor** (`DiagnosticSupervisor`, `SupervisorRuns`, `SupervisorEvents`, `SupervisorProcess`). The event handlers as one machine, its invariants over every order of events, and the program's variables that follow it.
- **Diagnostic receipts** (`DiagnosticReceipts`, `DiagnosticReceiptStore`). What a verified receipt says about the calls that made it.
- **Hook text** (`HookText`, `RestoredContext`, `SessionContext`). Bounded, delimited, well-formed UTF-16 text.
- **Event sanitizer** (`EventSanitizer`). Bounds of accepted payloads and totality of the version 15 migration.

`dafny verify dfyconfig.toml` checks everything.

## Where the code and its descriptions differ

The model follows the code. These are stated as theorems.

- **A SessionStart observation can outlive its record.** Revisions restart at 1 when a record expires, so an observation made before the expiry can discharge a revision marked after it. `RestoreRuns.ObservationAcrossExpiryLosesAMark` is such a run; `RestoreRuns.ObservationDischarges` says exactly when an observation discharges a mark, and `RestoreRuns.MarkOutlivesOlderObservation` holds within one record's lifetime. A claim has no such gap (`RestoreRuns.MarkOutlivesOlderClaim`).
- **The write self-check needs a clock that does not go back.** `RestoreRuns.SelfCheckNeverRejects` assumes one; `RestoreProtocol.SelfCheckRejectsIff` gives the single failing case of any operation under any clock: SessionStart keeps a claim that ends more than 30 s after the new reading. `RestoreProtocol.BackwardClockRejects` is an instance.
- **Repair depends on row order in one case.** A verified run is cancelled by the first visited row that names it, and only that row's installation is marked for recovery. `EvidenceRevocation.RowOrderIsIrrelevantIff` gives the exact condition for one revoking loop and `EvidenceVisitOrder.VisitOrderIsIrrelevantIff` for the whole pass, in which the other loops may mark the same installation anyway; `EvidenceVisitOrder.VisitOrderCanMatter` is an instance. The order of runs never matters (`EvidenceRepairOrder.RunOrderIsIrrelevant`).
- **Any disconnect run revokes.** The comment at `src/agent-bridge-guard.ts:99` speaks of a confirmed disconnect, but the query does not look at the run's state. `BridgeRuns.UnappliedRunRevokesIff` and `BridgeRuns.FailedDisconnectRevokes` state what the code does.
- **A newer shared write revokes per artifact.** An older token stays admitted exactly when an eligible member consumes another artifact that bears it (`BridgeCarriers.OlderTokenSurvivesIff`, `BridgeCarriers.NewerWriteDecides`); `BridgeCarriers.OlderTokenCanSurvive` is a ledger in which it does.
- **An empty node id is not a write.** The receipt tests `writtenNodeId` for truth, so a write completed under an empty id lets a second one complete and verify (`DiagnosticReceipts.EmptyNodeIdAllowsASecondWrite`); `DiagnosticReceipts.OneWriteIff` is the exact condition.
- **A chunk write trusts an excessive count.** `writeCompleteZipChunk` tests only for no progress, so a handle that reported more than it was given would end the loop early; `PartialIo.WriteComplete` says when the chunk is complete. The copy loop tests both.
- **Session text may split a surrogate pair.** Only the restored text avoids it. For well-formed parts `SessionContext.AssembleSessionContext` gives the exact condition for the whole text: neither the profile's truncation nor the hard cut may end inside a pair, and a split of the profile that the hard cut removes does not count. `SessionContext.ProfilePairCanSplit` is a profile that the default budget splits, `SessionContext.SkillPairCanSplit` a Skill that the hard cut splits.
- **A revision can be written twice.** A claim whose lease ends unacknowledged is followed by a claim for the same revision, and `canEmit` has then said yes to both (`RestoreRuns.LeaseEndAllowsASecondWrite`); `RestoreRuns.SecondClaim` says that it takes the end of the lease or a release.

## Model

| member | source | states |
|---|---|---|
| `ContextRestore.Decode` | src/hook-codex-context-restore.ts:64-88 | Whatever text is stored, a decoded record satisfies every bound between its revisions, lease and expiry. |
| `ContextRestore.DecodeIff` | src/hook-codex-context-restore.ts:55-88 | Exactly which stored texts are read as which record: these fields and no other, of these types, within every bound. |
| `ContextRestore.HashDigits` | src/hook-codex-context-restore.ts:60-60 | A digest is 64 lower-case hexadecimal digits. |
| `ContextRestore.Utf8ByCodePoint` | src/hook-codex-context-restore.ts:59-59 | A code point of up to 7, 11, 16 or more bits counts for one, two, three or four bytes. |
| `ContextRestore.SizeOfSmallest` | src/hook-codex-context-restore.ts:125-126 | The size of the smallest record is the length of its text. |
| `ContextRestore.SizeOfOptionalFields` | src/hook-codex-context-restore.ts:125-126 | A claim and a last turn add the length of their own text. |
| `ContextRestore.DigitsByTens` | src/hook-codex-context-restore.ts:125-126 | A number takes one unit for each decimal digit. |
| `ContextRestore.QuotedByKind` | src/hook-codex-context-restore.ts:125-126 | A character that JSON writes with a letter takes two bytes, another control character six, and any other its UTF-8 length. |
| `ContextRestore.ValidStatesFit` | src/hook-codex-context-restore.ts:124-128 | Every record that meets the bounds serializes within 2048 bytes, so the size test of a write never decides. |
| `ContextRestore.ClaimRoundTrip` | src/hook-codex-context-restore.ts:55-62 | A claim read back is the claim written exactly when it is valid. |
| `ContextRestore.RecordRoundTrip` | src/hook-codex-context-restore.ts:64-88 | A record read back from its stored form is itself exactly when it meets the bounds. |
| `RestoreProtocol.FirstKeys` | src/hook-codex-context-restore.ts:154-156 | The limited cleanup takes the first hundred matching keys in key order, and all of them if there are fewer. |
| `RestoreProtocol.CleanableIsDead` | src/hook-codex-context-restore.ts:145-157 | Every row that cleanup may delete is absent to all reads from that time on. |
| `RestoreProtocol.CleanupRemovesExpired` | src/hook-codex-context-restore.ts:145-157 | Every stored record whose time has come is up for cleanup; up to a hundred go, and all of them if there are no more. |
| `RestoreProtocol.CleanupSparesOthers` | src/hook-codex-context-restore.ts:145-157 | No other row goes: of another prefix, too long, no object, or without an integer time that has come. |
| `RestoreProtocol.CleanupIsInvisible` | src/hook-codex-context-restore.ts:119-123 | After cleanup every scope reads as before, at that time and later, and rows outside the prefix are untouched. |
| `RestoreProtocol.WriteEffect` | src/hook-codex-context-restore.ts:124-132 | A write over the row just read stores exactly the valid records and refuses every other one. |
| `RestoreProtocol.TransactionEffect` | src/hook-codex-context-restore.ts:159-248 | Every operation is its decision on the record read: it never loses its compare-and-swap, and a failure changes no row. |
| `RestoreProtocol.TimeIsRefusedIff` | src/hook-codex-context-restore.ts:112-118 | A clock reading is refused exactly when it, or the end of a record written then, is no safe integer. |
| `RestoreProtocol.OtherScopes` | src/hook-codex-context-restore.ts:170-186 | No operation changes what any other scope reads, now or later. |
| `RestoreProtocol.DecisionsKeepRecordsValid` | src/hook-codex-context-restore.ts:170-247 | With a clock that has not gone back, every record an operation decides on meets all bounds, including a claim kept by SessionStart. |
| `RestoreProtocol.SelfCheckRejectsIff` | src/hook-codex-context-restore.ts:124-132 | For any operation and any clock the self-check fails if and only if SessionStart discharges below the pending revision and keeps a claim more than 30 s away. |
| `RestoreProtocol.BackwardClockRejects` | src/hook-codex-context-restore.ts:234-247 | Two marks, a claim and a discharge that the self-check accepts at the same time and rejects one millisecond earlier. |
| `RestoreProtocol.ScopesDoNotShareKeys` | src/hook-codex-context-restore.ts:94-99 | Two complete scopes with the same key are the same scope. |
| `RestoreRuns.SelfCheckNeverRejects` | src/hook-codex-context-restore.ts:124-132 | In every run the self-check accepts every record produced and no mark reports a concurrent change. |
| `RestoreRuns.ExclusiveDelivery` | src/hook-codex-context-restore.ts:136-144 | With fresh claim ids, of all claims ever handed out for a scope in a run at most one passes the emit check at any moment. |
| `RestoreRuns.SecondClaim` | src/hook-codex-context-restore.ts:188-203 | With a clock that does not go back, a revision of a scope is handed out a second time only after the first claim's lease has ended or the claim was released; an earlier second claim is for a later revision. |
| `RestoreRuns.AckExcludesOthers` | src/hook-codex-context-restore.ts:205-220 | With fresh claim ids, if a claim's acknowledgement succeeds, no other claim of its scope passes the emit check at any moment between its issue and that acknowledgement. |
| `RestoreRuns.LeaseEndAllowsASecondWrite` | src/hook-codex-context-restore.ts:188-209 | From every claimable state, a lease that ends unacknowledged is followed by a claim for the same revision, and both pass the emit check. |
| `RestoreRuns.AnswersIff` | src/hook-codex-context-restore.ts:136-143 | On exactly which records each call says yes, hands out a claim or marks: a lease of its own that has not ended is all that emitting and acknowledging need. |
| `RestoreRuns.RevisionsMove` | src/hook-codex-context-restore.ts:170-247 | In every step of every run a readable record stays readable, only a mark raises what is pending, and what is delivered changes only to a revision discharged there. |
| `RestoreRuns.ClaimMoves` | src/hook-codex-context-restore.ts:170-247 | A claim comes only from the request that obtains it and goes only with a mark, its acknowledgement, its release or a discharge of its revision; the last turn is that of the last acknowledgement. |
| `RestoreRuns.PendingUntilDischarged` | src/hook-codex-context-restore.ts:170-247 | A marked revision stays pending, in every run and while its record lives, until a step discharges it or a later one. |
| `RestoreRuns.ReleaseLeavesPending` | src/hook-codex-context-restore.ts:222-232 | After a successful release the claimed revision is pending and the next request is issued a claim for it. |
| `RestoreRuns.AbandonedClaimReturns` | src/hook-codex-user-prompt-submit.ts:29-45 | A participant that claims and gives up within its lease, others undisturbing meanwhile, leaves the same revision to the next request. |
| `RestoreRuns.OnceOnly` | src/hook-codex-context-restore.ts:210-247 | Within one record's lifetime successive discharges strictly rise, so no revision is discharged twice. |
| `RestoreRuns.MarkOutlivesOlderClaim` | src/hook-codex-context-restore.ts:188-232 | After a successful mark, no call with an earlier claim changes anything, for the rest of the run. |
| `RestoreRuns.MarkedIsPending` | src/hook-codex-context-restore.ts:170-186 | A successful mark is at once readable as pending. |
| `RestoreRuns.MarkExceedsObservation` | src/hook-session-start.ts:269-277 | A revision marked while the observed record lives is above what SessionStart observed. |
| `RestoreRuns.ObservationDischarges` | src/hook-session-start.ts:360-366 | An observation discharges a later marked revision if and only if it equals that revision. |
| `RestoreRuns.MarkOutlivesOlderObservation` | src/hook-session-start.ts:360-366 | Within one record's lifetime a revision marked after the observation is still pending after the acknowledgement. |
| `RestoreRuns.ObservationAcrossExpiryLosesAMark` | src/hook-session-start.ts:269-277 | A run in which the record expires between observation and acknowledgement, and a new mark is lost. |
| `RestoreRuns.LeaseHolds` | src/hook-codex-context-restore.ts:188-208 | A claim stays the holder, and may emit until its lease ends, through any run without another mark or discharge of its scope and without its own closing calls. |
| `RestoreRuns.AlwaysRecoverable` | src/hook-codex-user-prompt-submit.ts:29-45 | From any rows with an undelivered revision and no live claim, claim, check and acknowledge succeed within the lease and clear it, with other processes' steps between, and the release changes nothing. |
| `RestoreRuns.AlikeRuns` | src/hook-codex-context-restore.ts:145-157 | Tables that no read can tell apart give the same answers to every later run. |
| `RestoreRuns.CleanupNeverShows` | src/hook-codex-context-restore.ts:145-157 | Cleaning up first changes no answer of any later operation on any scope. |
| `RestoreStore.Store.MarkPending` | src/hook-codex-context-restore.ts:170-186 | The in-place mark, with cleanup and rollback, is the transaction of the protocol. |
| `RestoreStore.Store.ClaimPending` | src/hook-codex-context-restore.ts:188-203 | The in-place claim is the transaction of the protocol. |
| `RestoreStore.Store.CanEmit` | src/hook-codex-context-restore.ts:205-208 | The check answers as the protocol does and changes nothing. |
| `RestoreStore.Store.MarkEmitted` | src/hook-codex-context-restore.ts:210-220 | The in-place acknowledgement is the transaction of the protocol. |
| `RestoreStore.Store.ReleaseClaim` | src/hook-codex-context-restore.ts:222-232 | The in-place release is the transaction of the protocol; what was claimed is then still pending and free to be claimed. |
| `RestoreStore.Store.SatisfyFromSessionStart` | src/hook-codex-context-restore.ts:234-247 | The in-place discharge is the transaction of the protocol. |
| `RestoreStore.Store.UserPromptSubmit` | src/hook-codex-user-prompt-submit.ts:29-45 | The prompt hook's run is exactly its stages with other processes' steps between: it writes exactly after a positive check of its own claim, discharges only what it wrote in full, leaves both revisions as they were otherwise, and ends without its claim. |
| `RestoreStore.Store.SessionStart` | src/hook-session-start.ts:269-277 | The start hook's run is exactly its observation, the others' steps and its discharge, which takes only the revision it observed and only after the saved context was written. |
| `RestoreStore.Store.PostCompact` | src/hook-post-compact.ts:70-87 | The compaction hook does one mark when it is admitted and nothing else to any row, and it writes only after a mark that succeeded. |
| `EvidenceTables.DetachFinalizerIff` | src/db/agent-integration-schema.ts:778-893 | A run needs no evidence if and only if its distinct planned components are those it detached, each from a consumer and a component row that wait for it under the installation's current consent, and no other such consumer waits. |
| `EvidenceTables.FinalizersAreStable` | src/db/agent-integration-schema.ts:778-893 | Whether a run is an evidence-free detach finalizer does not change while the repair runs. |
| `EvidenceRepairOrder.IsolationAddsUp` | src/db/agent-integration-schema.ts:1224-1235 | Visiting one set of runs and then another is visiting both at once. |
| `EvidenceRepairOrder.FoldIsAllAtOnce` | src/db/agent-integration-schema.ts:1224-1235 | The loop over runs equals one simultaneous step over the set of runs. |
| `EvidenceRepairOrder.RunOrderIsIrrelevant` | src/db/agent-integration-schema.ts:1224-1235 | Every order of the same runs leaves the same tables. |
| `EvidenceRevocation.RevocationAddsUp` | src/db/agent-integration-schema.ts:1152-1167 | Visiting one more row continues the closed form of the rows before it, in all four tables. |
| `EvidenceRevocation.AffectedAddUp` | src/db/agent-integration-schema.ts:1152-1167 | The growing set of affected installations is the closed form too. |
| `EvidenceRevocation.RowOrderIsIrrelevantIff` | src/db/agent-integration-schema.ts:1152-1167 | The order of quarantined rows is irrelevant if and only if each installation that some order would mark is marked by a run of its own. |
| `EvidenceRevocation.AmbiguityShows` | src/db/agent-integration-schema.ts:1152-1167 | Whenever that condition fails, two orders with different results exist. |
| `EvidenceRevocation.RowOrderCanMatter` | src/db/agent-integration-schema.ts:1152-1158 | A concrete table in which the first visited row decides who is sent to recovery. |
| `EvidenceVisitOrder.SameResultIff` | src/db/agent-integration-schema.ts:1120-1270 | Two orders of the rows of both loops give the same tables if and only if they send the same recoverable installations to recovery. |
| `EvidenceVisitOrder.VisitOrderIsIrrelevantIff` | src/db/agent-integration-schema.ts:1120-1270 | Over the whole pass every order of the query answers gives the same tables if and only if each installation some order would mark is marked by a run of its own in some loop, or by the last loop. |
| `EvidenceVisitOrder.AmbiguityShows` | src/db/agent-integration-schema.ts:1120-1270 | Whenever that fails, two answers of the same queries leave different tables. |
| `EvidenceVisitOrder.VisitOrderCanMatter` | src/db/agent-integration-schema.ts:1152-1158 | A database whose repaired tables depend on which of two duplicate rows is returned first. |
| `EvidenceSafety.IsolationIsSafe` | src/db/agent-integration-schema.ts:1171-1235 | After the last loop a verified run has evidence or is a detach finalizer. |
| `EvidenceSafety.VerifiedRunsAreTrustworthy` | src/db/agent-integration-schema.ts:1168-1235 | After the whole pass every verified run is a detach finalizer or has valid verified evidence of its own. |
| `EvidenceSafety.BoundEvidenceFitsTheIndex` | src/db/agent-integration-schema.ts:1276-1277 | Every bound row is complete, names an existing run and is alone with its run and component. |
| `EvidenceSafety.NothingPointsAtUnbound` | src/db/agent-integration-schema.ts:1096-1106 | Every row the pass unbinds is invalidated, and no component or installation points at it. |
| `EvidenceSafety.IsolationSettles` | src/db/agent-integration-schema.ts:1224-1235 | Isolating again after isolation and new summaries changes no row. |
| `EvidenceSafety.SecondPassChangesNothing` | src/db/agent-integration-schema.ts:1049-1270 | A second pass with nothing to upgrade changes no row of any table, whatever its clock. |
| `EvidenceSafety.SummariesAreBacked` | src/db/agent-integration-schema.ts:1247-1270 | The capability and summary written on an affected installation are backed by the components the pass leaves, within the custom-surface ceiling. |
| `EvidenceKept.StaysBoundIff` | src/db/agent-integration-schema.ts:1051-1090 | A bound row stays bound if and only if no schema repair happened, its run exists, all its columns are filled, no other row has its run and component, and it is not failed evidence of a verified run. |
| `EvidenceKept.RunsAfter` | src/db/agent-integration-schema.ts:1107-1235 | Every run after the pass: a verified one stays as it was if and only if it lost no evidence and has valid evidence left or needs none; others are never touched. |
| `EvidenceKept.EvidenceAfter` | src/db/agent-integration-schema.ts:1089-1235 | Every evidence row after the pass, with its invalidation time and reason, from the tables before it. |
| `EvidenceKept.ComponentsAfter` | src/db/agent-integration-schema.ts:1096-1235 | A component loses its link, and is stale then, exactly when the row it points at was hit, unbound or set apart; nothing else changes. |
| `EvidenceKept.InstallationsAfter` | src/db/agent-integration-schema.ts:1101-1235 | An installation keeps its control columns and loses a link as a component does; recovery is asked of the managed ones that are marked. |
| `EvidenceKept.MarksAreCaused` | src/db/agent-integration-schema.ts:1130-1235 | Recovery is asked of an installation only for a run that the pass cancels: its own, or one that a row of the installation was bound to. |
| `EvidenceKept.CancellingAsksForRecovery` | src/db/agent-integration-schema.ts:1130-1235 | Every run that the pass cancels asks for recovery of an installation whose row it lost, or of its own. |
| `EvidenceKept.AffectedIff` | src/db/agent-integration-schema.ts:1087-1170 | Summaries are written anew exactly for the installations that owned or pointed at a row hit or unbound, or have a verified run without evidence. |
| `EvidenceKept.SummariesAfter` | src/db/agent-integration-schema.ts:1247-1270 | An installation that is not affected keeps its summary; an affected one shows the one status of its managed components, or that they are mixed or none. |
| `EvidenceKept.SoundRunIsKept` | src/db/agent-integration-schema.ts:1051-1075 | A verified run whose rows are all sound, one of them verified and valid, keeps its state, its rows and the links to them. |
| `EvidenceKept.SoundTablesAreKept` | src/db/agent-integration-schema.ts:1049-1270 | Tables with sound rows only, which back every verified run, are not changed at all. |
| `EvidenceDatabase.Database.RevokeRow` | src/db/agent-integration-schema.ts:1152-1167 | One loop body, as four updates in place, is the closed form for one row. |
| `EvidenceDatabase.Database.RevokeRows` | src/db/agent-integration-schema.ts:1152-1167 | The loop over rows is the closed form for all of them, and collects exactly the affected installations. |
| `EvidenceDatabase.Database.IsolateRuns` | src/db/agent-integration-schema.ts:1224-1235 | The loop over verified runs without evidence is the simultaneous step. |
| `EvidenceDatabase.Database.SummarizeInstallations` | src/db/agent-integration-schema.ts:1247-1270 | Exactly the affected installations get the capability and summary of their managed components. |
| `EvidenceDatabase.Database.Repair` | src/db/agent-integration-schema.ts:1049-1270 | The whole pass in place is the composition of the closed forms, so every safety theorem is about it. |
| `Crc32.BuildTable` | scripts/capture-agent-distribution-receipt.ts:73-77 | Each of the 256 entries is eight steps of the shift register from its index. |
| `Crc32.LookupIsEightSteps` | scripts/capture-agent-distribution-receipt.ts:1954-1958 | One table lookup equals eight steps of the register. |
| `Crc32.ByteIsEightBits` | scripts/capture-agent-distribution-receipt.ts:1954-1958 | Eight register steps after adding a byte equal feeding its eight bits one by one, low bit first. |
| `Crc32.UpdateCrc32` | scripts/capture-agent-distribution-receipt.ts:1954-1958 | Folding the table over more input continues the bit-serial register of everything before it. |
| `Crc32.CheckValue` | scripts/capture-agent-distribution-receipt.ts:73-77 | The reference gives the published check value 0xcbf43926 for the nine digits. |
| `Crc32.ChecksumChunks` | scripts/capture-agent-distribution-receipt.ts:1866-1877 | Over any split into chunks, with start and final inversion, the result is the bit-serial CRC-32 of the whole input. |
| `PartialIo.ReadExact` | scripts/capture-agent-distribution-receipt.ts:1923-1941 | Through any short reads the result is exactly the requested slice; it succeeds if and only if the request is in range, the slice is inside the file and no read of bytes that are there reports a bad count. |
| `PartialIo.WriteComplete` | scripts/capture-agent-distribution-receipt.ts:1914-1921 | Through any short writes it fails if and only if one makes no progress; a success has appended the whole chunk if and only if no write reported too much. |
| `PartialIo.CopyStable` | scripts/capture-agent-distribution-receipt.ts:1968-2030 | The nested copy loops succeed if and only if the file is the expected one by identity, size and digest and no read or write reports a bad count, and then the destination is the source. |
| `ZipFormat.ShortsAreLittleEndian` | scripts/capture-agent-distribution-receipt.ts:1723-1731 | Two-byte numbers are stored low byte first. |
| `ZipFormat.LongsAreLittleEndian` | scripts/capture-agent-distribution-receipt.ts:1723-1734 | Four-byte numbers are stored low byte first. |
| `ZipFormat.SignaturesArePk` | scripts/capture-agent-distribution-receipt.ts:65-68 | The four signatures are the letters PK and two more bytes. |
| `ZipFormat.DescriptorBit` | scripts/capture-agent-distribution-receipt.ts:70-70 | A data descriptor follows when bit 3 is set. |
| `ZipFormat.EndRecordIsInTail` | scripts/capture-agent-distribution-receipt.ts:1680-1691 | Every end record of an archive lies in the fetched tail, and every one in the tail is one of the archive. |
| `ZipFormat.TilesCoverOnce` | scripts/capture-agent-distribution-receipt.ts:1840-1846 | In a tiling every position is in exactly one range. |
| `ZipFormat.TilesRebuild` | scripts/capture-agent-distribution-receipt.ts:1840-1846 | The ranges of a tiling, put side by side, are the bytes themselves. |
| `ZipReader.FindEndRecord` | scripts/capture-agent-distribution-receipt.ts:1683-1692 | The backward search returns the last end record, and nothing only when there is none. |
| `ZipReader.TailSearchMissesNothing` | scripts/capture-agent-distribution-receipt.ts:1680-1691 | The tail has an end record if and only if the archive has one anywhere. |
| `ZipReader.LocateEnd` | scripts/capture-agent-distribution-receipt.ts:1680-1692 | The search succeeds if and only if the archive has an end record and no read fails, and finds the last one. |
| `ZipReader.LocateDirectory` | scripts/capture-agent-distribution-receipt.ts:1693-1710 | A directory is located if and only if the last end record states one disk, a bounded number of entries and a directory that ends at it, and no read fails. |
| `ZipReader.CentralEntryIff` | scripts/capture-agent-distribution-receipt.ts:1719-1784 | From the bytes of one record: accepted if and only if it is stored or deflated with permitted flag bits, within the sizes and the ratio, on one disk, with a decodable name that is new, of a permitted Unix or DOS node kind, and the total holds it; with the entry made of it. |
| `ZipReader.AcceptableIff` | scripts/capture-agent-distribution-receipt.ts:1714-1787 | A directory is acceptable if and only if it is a chain of so many permitted records from its first byte to its last, with a fitting total and distinct names. |
| `ZipReader.EntryIff` | scripts/capture-agent-distribution-receipt.ts:1719-1784 | Of the other records only the total and the folded names matter: an entry is accepted if and only if it is acceptable on its own, the total holds it and its name is new. |
| `ZipReader.ReadEntries` | scripts/capture-agent-distribution-receipt.ts:1714-1787 | The directory is accepted if and only if every record in it is acceptable on its own, they are in order and without gap exactly its bytes, their total is within the limit and no two names collide when folded; the answer is those records' entries. |
| `ZipReader.ReadCentralDirectory` | scripts/capture-agent-distribution-receipt.ts:1672-1788 | Reading succeeds if and only if the last end record is usable, the directory it names is acceptable with its entry count, and no read fails; the answer is that directory's entries. |
| `ZipReader.BindEntry` | scripts/capture-agent-distribution-receipt.ts:1797-1836 | An entry is bound if and only if its local header, data and descriptor are at the stated place, agree with the central entry and end before the directory, and no read fails. |
| `ZipReader.BindLocalEntries` | scripts/capture-agent-distribution-receipt.ts:1790-1847 | The entries get their data offsets in place and nothing else; they are accepted if and only if their local records tile the bytes before the directory and no read fails. |
| `ZipReader.SortingPermutes` | scripts/capture-agent-distribution-receipt.ts:1840-1840 | Sorting by offset orders the ranges and loses or adds none. |
| `ZipReader.ArchivePartition` | scripts/capture-agent-distribution-receipt.ts:1672-1847 | Local records by offset, central entries and end record together are the archive byte for byte, without gap or overlap. |
| `ZipReader.ReadArchive` | scripts/capture-agent-distribution-receipt.ts:1672-1847 | Reading succeeds if and only if the directory is readable, its entries' local records tile everything before it, and no read fails; the entries get only their data offsets, and all records tile the archive. |
| `ZipReader.ExtractFile` | scripts/capture-agent-distribution-receipt.ts:1849-1912 | Over any chunks, a file is accepted if and only if the input is drained, the chunks have the declared length and CRC-32 and no write stalls; it is then the chunks unless a write reported more than it was given, and never more than declared is written. |
| `BridgeRuns.OwnedAdmission` | src/agent-bridge-guard.ts:82-120 | A token is admitted exactly when the installation is unmanaged, or nothing stops it and its selected generation bears the token. |
| `BridgeRuns.RefusalsByReason` | src/agent-bridge-guard.ts:82-89 | Each reason is given exactly by its column, the earlier one first, whatever the log says. |
| `BridgeRuns.Guarded` | src/agent-bridge-guard.ts:70-82 | Which entries are guarded at all, and by whose rows; a shared identity with an active member outside its domain is refused as unavailable. |
| `BridgeRuns.TrimMeans` | src/agent-bridge-guard.ts:70-71 | Identity and token are taken without the white space at both ends, and otherwise as they are. |
| `BridgeRuns.GenerationIsSelected` | src/agent-bridge-guard.ts:93-112 | The query selects a run if and only if it carries the component and no later run carries it or disconnects. |
| `BridgeRuns.AtMostOneToken` | src/agent-bridge-guard.ts:113-116 | For a managed installation and component at most one bare token is admitted. |
| `BridgeRuns.AppendedRun` | src/agent-bridge-guard.ts:97-111 | The whole effect of one more run on every answer: revoke, replace, or nothing. |
| `BridgeRuns.BystandersChangeNothing` | src/agent-bridge-guard.ts:90-92 | A run that is neither a disconnect nor an applied carrier of the component changes no answer. |
| `BridgeRuns.PreviewChangesNothing` | src/agent-bridge-guard.ts:90-98 | A run that is no disconnect and is planned, checked, applying, compensating, in recovery, failed, or cancelled for any other reason than a repair of its generation changes no answer of the guard. |
| `BridgeRuns.InPlaceRunDecides` | src/agent-bridge-guard.ts:97-116 | A run that is applied, verified, committed or so retired, and lists the component, becomes the generation: its token with its digest alone is admitted. |
| `BridgeRuns.UnappliedRunRevokesIff` | src/agent-bridge-guard.ts:101-104 | A run that is not applied changes an answer if and only if it is a disconnect and the answer was yes. |
| `BridgeRuns.FailedDisconnectRevokes` | src/agent-bridge-guard.ts:99-104 | A log in which a failed disconnect takes a live connection's token away. |
| `BridgeRuns.RevocationIsPermanent` | src/agent-bridge-guard.ts:99-104 | Once a disconnect follows every run that names a token, no later log admits it until a new run names it. |
| `BridgeRuns.RevokedTokenIsRefused` | src/agent-bridge-guard.ts:66-121 | The guard's own answer in every such later log is a refusal while the installation is not unmanaged. |
| `BridgeRuns.RetiringKeepsAdmission` | src/agent-bridge-guard.ts:98-98 | Moving runs between states that count alike, as a same-generation repair does, changes no answer. |
| `BridgeCarriers.CarrierIffLatest` | src/agent-bridge-guard.ts:149-156 | The query's row is the artifact's physical write with the latest commit time, the later row among equals, and there is no other. |
| `BridgeCarriers.CarrierIsNewest` | src/agent-bridge-guard.ts:156-156 | No other physical write of the artifact is newer, and of equally old ones none is a later row; a write without a time is the oldest. |
| `BridgeCarriers.SharedAdmissionIff` | src/agent-bridge-guard.ts:128-166 | A shared identity admits a token if and only if, in the terms of the tables, a live member consumes under its active consent an artifact whose carrier's content is there and whose run bears the token. |
| `BridgeCarriers.PreviewCarriesNothing` | src/agent-bridge-guard.ts:158-160 | What a disconnect, an unfinished or failed run, or one cancelled in any but the five named ways wrote last admits no token. |
| `BridgeCarriers.OneTokenPerArtifact` | src/agent-bridge-guard.ts:160-162 | An artifact admits one token at most. |
| `BridgeCarriers.OneArtifactOneToken` | src/agent-bridge-guard.ts:134-164 | When all eligible members consume one artifact, the identity admits one token at most. |
| `BridgeCarriers.NewerWriteDecides` | src/agent-bridge-guard.ts:149-162 | After a write by any member that is no earlier than its artifact's own physical writes, exactly its token is admitted through the artifact, and other artifacts decide as before. |
| `BridgeCarriers.OlderTokenSurvivesIff` | src/agent-bridge-guard.ts:149-162 | An older token outlives a newer write if and only if another consumed artifact bears it. |
| `BridgeCarriers.OlderTokenCanSurvive` | src/agent-bridge-guard.ts:134-164 | A ledger with two artifacts in which both the newer and the older token are admitted after a newer write. |
| `BridgeCarriers.BackdatedWriteChangesNothing` | src/agent-bridge-guard.ts:153-156 | A write recorded later but with an earlier commit time than a physical write to its artifact changes no answer of the guard. |
| `BridgeCarriers.DetachChangesNothing` | src/agent-bridge-guard.ts:155-155 | A detach-only or uncommitted write changes no answer of the guard, for any agent, token and component. |
| `BridgeCarriers.LeavingIsExact` | src/agent-bridge-guard.ts:131-162 | After a member leaves, a token is admitted if and only if another member admitted it before, even if the leaver wrote it. |
| `BridgeCarriers.SharedTokenOutlivesLeaver` | src/agent-bridge-guard.ts:158-162 | The token stays admitted while another eligible member consumes the artifact that bears it. |
| `BridgeCarriers.AdmissionRestsOn` | src/agent-bridge-guard.ts:128-166 | An admission rests on an active member with its own active consent, its healthy or paused artifact as last written, and a run that bears token and digest. |
| `SupervisorRuns.StopIsGood` | src/agent-diagnostic-runner.ts:213-217 | A stop keeps every invariant and an earlier reason, and records one unless the machine has finished. |
| `SupervisorRuns.StepIsLater` | src/agent-diagnostic-runner.ts:161-317 | Every event, in every state of a run and with the channel up or down, keeps the invariants and what was recorded. |
| `SupervisorRuns.AtMostOneResult` | src/agent-diagnostic-runner.ts:167-212 | In every order of events at most one result is sent, and only by a finished machine. |
| `SupervisorRuns.ForwardedWithinLimit` | src/agent-diagnostic-runner.ts:218-225 | The child's bytes sent on never exceed the session's protocol limit or what it wrote, and the input passed to it stays within 8 MiB. |
| `SupervisorRuns.AcceptedOutputIsBounded` | src/agent-diagnostic-runner.ts:296-308 | The model window is granted at most once, and accepted output follows it and stays within 8 KiB. |
| `SupervisorRuns.RecordedReasonStays` | src/agent-diagnostic-runner.ts:190-217 | A recorded reason changes only to cleanup_failed, and after the end not at all. |
| `SupervisorRuns.NoLateSuccess` | src/agent-diagnostic-runner.ts:284-310 | Every acceptance after a recorded reason answers a command received at or before that moment. |
| `SupervisorRuns.CleanupReports` | src/agent-diagnostic-runner.ts:167-212 | A recorded reason means cleanup runs, and its end sends one result with the right reason and group state. |
| `SupervisorRuns.MessageAfterStop` | src/agent-diagnostic-runner.ts:284-284 | A command after a stop, or before the session is ready, is refused and leaves counters, window and pending commands alone. |
| `SupervisorRuns.MessageAccepts` | src/agent-diagnostic-runner.ts:286-309 | What each immediate acceptance says about the session, for every message in every state of a run. |
| `SupervisorRuns.ConsumeShows` | src/agent-diagnostic-runner.ts:218-225 | Conservation of the child's bytes between received, held and sent, and the exact overflow condition. |
| `SupervisorEvents.NeverUnwatched` | src/agent-diagnostic-runner.ts:250-313 | In every run a session that has not begun its cleanup has exactly the timer of its phase, and that timer stops it with the phase's time-out. |
| `SupervisorEvents.MessageReasons` | src/agent-diagnostic-runner.ts:226-310 | What each message makes the reason of a live session: nothing, or what it violates, with the bounds of specification, input and output. |
| `SupervisorEvents.InitializeStarts` | src/agent-diagnostic-runner.ts:226-250 | A first, bounded specification sets the session's limit and preparation timer, and its child is there unless spawning threw. |
| `SupervisorEvents.ReadyRequest` | src/agent-diagnostic-runner.ts:284-310 | What each command does to a ready session: the answer, what is passed on to the child, the window and the counters. |
| `SupervisorEvents.EventReasons` | src/agent-diagnostic-runner.ts:218-317 | What output, the child, the controller and the end of the cleanup make the reason of a live session. |
| `SupervisorEvents.ReadyIff` | src/agent-diagnostic-runner.ts:266-277 | The session becomes ready exactly when a live child that has not closed has its identity, and then says so once. |
| `SupervisorEvents.CloseFlushes` | src/agent-diagnostic-runner.ts:256-265 | When the child closes without a recorded reason, what the decoders hold is sent and cleanup begins. |
| `SupervisorEvents.StopWithoutChild` | src/agent-diagnostic-runner.ts:167-217 | Before there is a child a stop ends the session at once and reports its reason. |
| `SupervisorEvents.LostChannelStops` | src/agent-diagnostic-runner.ts:161-165 | With the channel down nothing is sent, and the loss of the controller is the reason. |
| `SupervisorEvents.ClosedAfterReason` | src/agent-diagnostic-runner.ts:256-265 | After a recorded reason the child's close sends nothing more. |
| `SupervisorProcess.Supervisor.Consume` | src/agent-diagnostic-runner.ts:218-225 | A chunk is counted in full; what is sent or held stays within the limit; overrunning it is the recorded reason exactly when it happens first; nothing is lost before a reason and nothing sent after one. |
| `SupervisorProcess.Supervisor.OnMessage` | src/agent-diagnostic-runner.ts:278-310 | After a recorded reason, and before the session is ready, a message accepts nothing and changes no counter; an acceptance means a first window of at most 90 s, output within 8 KiB after it, or input already ended. |
| `SupervisorProcess.Supervisor.Handle` | src/agent-diagnostic-runner.ts:251-317 | Any event changes the variables as the machine's step does, and keeps its invariants. |
| `SupervisorProcess.Serve` | src/agent-diagnostic-runner.ts:143-319 | A whole session ends in the state of the machine's run over the same events. |
| `DiagnosticReceipts.ReceiptIsHistory` | src/agent-diagnostic-receipts.ts:46-113 | The stored receipt is the run's admitted calls, its last completed write and its last completed read. |
| `DiagnosticReceipts.VerifiedIff` | src/agent-diagnostic-receipts.ts:120-129 | Verification succeeds if and only if at most four calls of known tools were admitted and the last write and read fit together, in content, node and time, with the live node. |
| `DiagnosticReceipts.VerifiedReadFollowsWrite` | src/agent-diagnostic-receipts.ts:104-113 | In a verified run the read completed after the write and returned that node with the expected content, which the store held when it was written. |
| `DiagnosticReceipts.WriteIff` | src/agent-diagnostic-receipts.ts:91-103 | Exactly which call completes a write, and what it leaves in the receipt. |
| `DiagnosticReceipts.ReadIff` | src/agent-diagnostic-receipts.ts:104-113 | Exactly which call completes a read: authorized, and the first node of the id it saw holds the expected text. |
| `DiagnosticReceipts.OtherCalls` | src/agent-diagnostic-receipts.ts:58-119 | An admitted tool call counts and fails the run past the fourth or for an unknown tool; preparing and hooks are noted once. |
| `DiagnosticReceipts.ForeignReceiptStands` | src/agent-diagnostic-receipts.ts:35-57 | A receipt of another run is never changed and never verifies. |
| `DiagnosticReceipts.OneWriteIff` | src/agent-diagnostic-receipts.ts:98-102 | A verified run completed exactly one write if and only if none was completed under an empty node id. |
| `DiagnosticReceipts.EmptyNodeIdAllowsASecondWrite` | src/agent-diagnostic-receipts.ts:99-99 | A run with two completed writes that verifies. |
| `DiagnosticReceiptStore.InterleavingsAreHonest` | src/agent-diagnostic-receipts.ts:104-113 | However any number of processes interleave their calls and the two steps of their recalls, the receipt is that of a run in which every recall used a node id that the receipt held before it. |
| `DiagnosticReceiptStore.VerifiedHoweverInterleaved` | src/agent-diagnostic-receipts.ts:104-129 | After any interleaving, a receipt that verifies records a write and a later read that returned its node with the expected content. |
| `DiagnosticReceiptStore.ReceiptStore.CountToolCall` | src/agent-diagnostic-receipts.ts:58-67 | Counting in place is the step, also when the call then fails, and it succeeds exactly when no failure is recorded and the caller is allowed. |
| `DiagnosticReceiptStore.ReceiptStore.CompleteDigest` | src/agent-diagnostic-receipts.ts:91-103 | Completing a write in place is the step, and succeeds exactly when the write is the expected one and the first. |
| `DiagnosticReceiptStore.ReceiptStore.CompleteRecall` | src/agent-diagnostic-receipts.ts:104-113 | The read checks the node seen before its own transaction, with any calls of other processes between; an honest run stays one. |
| `DiagnosticReceiptStore.ReceiptStore.Verify` | src/agent-diagnostic-receipts.ts:120-129 | Of a receipt made by a run of the module's calls, the readback accepts exactly the meaningful ones. |
| `HookText.TruncateAtParagraph` | src/hook-session-format.ts:77-89 | The result is the text if it fits, and within the maximum otherwise, with the marker whenever it fits. |
| `HookText.TruncationWithoutRoom` | src/hook-session-format.ts:82-82 | Without room for the marker the text is cut at the maximum, and is empty for a negative one. |
| `HookText.TruncationIsPrefix` | src/hook-session-format.ts:77-89 | Nothing but a beginning of the text and the marker is ever returned. |
| `HookText.TruncationIsWellFormed` | src/hook-session-format.ts:82-88 | A truncation of well-formed text is well-formed unless its hard cut follows a high surrogate. |
| `HookText.TruncationIsWellFormedIff` | src/hook-session-format.ts:82-88 | The same for every overlong text, exactly: it fails if and only if no late paragraph break is used and the room ends after a high surrogate. |
| `HookText.TruncationKeepsHalf` | src/hook-session-format.ts:83-88 | An overlong text is cut at its last paragraph break past half of the room, and otherwise at the room's end. |
| `RestoredContext.EscapedHasNoTag` | src/hook-brief-context.ts:66-67 | After escaping no opening or closing saved-memory tag is left, in any letter case and with any white space. |
| `RestoredContext.EscapeAtTag` | src/hook-brief-context.ts:66-67 | Escaping touches the tags and nothing else: the text before a tag is kept, its two brackets are written out, and the text behind it is escaped in turn. |
| `RestoredContext.EscapeKeepsIff` | src/hook-brief-context.ts:66-67 | Escaping changes a text if and only if it has such a tag. |
| `RestoredContext.OnlyFrameTags` | src/hook-brief-context.ts:74-74 | Around data without tags, cut anywhere or not, the whole text has exactly the frame's two tags. |
| `HookText.SurrogateRanges` | src/hook-brief-context.ts:71-72 | High and low surrogates are the units with the two six-bit prefixes. |
| `RestoredContext.LowerIsAscii` | src/hook-brief-context.ts:66-66 | Tags are recognized in any case of the 26 letters, and of no other unit. |
| `RestoredContext.FormatCodexRestoredContext` | src/hook-brief-context.ts:65-75 | At most 4000 units; exactly one opening and one closing tag, at the frame's positions; well-formed for well-formed data; the data whole or truncated to the exact room the frame leaves. |
| `SessionContext.AssembleSessionContext` | src/hook-session-format.ts:102-146 | Never over the larger of budget and 9800; within budget whenever 500 units are left for the profile, which is then truncated to exactly that room; Skill and rest verbatim except exactly when the hard cut is reached, which keeps what fits before its marker; for well-formed parts the text is well-formed if and only if the truncation that is left in it and the hard cut keep their pairs. |
| `SessionContext.ProfilePairCanSplit` | src/hook-session-format.ts:129-132 | A well-formed profile that the default budget cuts inside a pair. |
| `SessionContext.SkillPairCanSplit` | src/hook-session-format.ts:141-144 | A well-formed Skill that the hard cut splits inside a pair, with no profile to truncate. |
| `SessionContext.BuildReads` | src/hook-session-format.ts:110-121 | Frame, Skill, profile and rest stand in this order, a blank line apart, and an empty section leaves no gap. |
| `SessionContext.HardCutIff` | src/hook-session-format.ts:135-144 | The hard cut is reached if and only if the floor is and the text then passes 9800 units, which a long profile alone never causes. |
| `EventSanitizer.FieldsAreImages` | src/db/agent-integration-event-sanitizer.ts:522-537 | Every kept field appears once, in place, under its safe key; the object is rejected exactly for colliding keys or a rejected field. |
| `EventSanitizer.ObjectRejectedIff` | src/db/agent-integration-event-sanitizer.ts:512-541 | An object is rejected if and only if it is walked and misuses the reserved key, or two kept keys collide, or a kept field is rejected. |
| `EventSanitizer.SanitizeValue` | src/db/agent-integration-event-sanitizer.ts:485-545 | The loops that fill the record and the key map compute the sanitized value, and reject exactly when it is rejected. |
| `EventSanitizer.NothingLeaks` | src/db/agent-integration-event-sanitizer.ts:485-545 | No text and no key of an accepted payload, at any depth, is one that redaction does not return, the fixed markers, redacted keys and decimal integers apart. |
| `EventSanitizer.LeavesByKind` | src/db/agent-integration-event-sanitizer.ts:485-500 | A sensitive or content field is replaced whatever its value; otherwise booleans and finite numbers stay, a text becomes its redaction, and the rest has its fixed form. |
| `EventSanitizer.ContainersReplaced` | src/db/agent-integration-event-sanitizer.ts:485-512 | A container of such a field, six deep, or with a configuration key is replaced whole. |
| `EventSanitizer.ContainersKept` | src/db/agent-integration-event-sanitizer.ts:504-541 | Every other accepted container keeps its first 32 entries in place, each sanitized, and says if there were more. |
| `EventSanitizer.ScrubChangesIff` | src/db/agent-integration-event-sanitizer.ts:598-621 | The scrub changes a payload if and only if an object of 33 keys with the old marker is within its reach. |
| `EventSanitizer.ScrubByKind` | src/db/agent-integration-event-sanitizer.ts:598-621 | Such an object is replaced whole; every other container is scrubbed entry by entry. |
| `EventSanitizer.AcceptedFits` | src/db/agent-integration-event-sanitizer.ts:500-541 | An accepted payload is plain JSON at most six containers deep, each of at most 33 entries with distinct keys, the 33rd only as the marker. |
| `EventSanitizer.MigrationIsTotal` | src/db/agent-integration-event-sanitizer.ts:598-621 | Scrubbing and sanitizing any payload that version 15 could have stored is never rejected. |
| `EventSanitizer.AcceptedIsStorable` | src/db/agent-integration-event-sanitizer.ts:485-545 | Whatever is accepted is again of the shape that the migration takes. |
| `EventSanitizer.NoticeIsAccepted` | src/db/agent-integration-event-sanitizer.ts:574-585 | A notice that stands for a payload too long or not JSON is never rejected either, whatever its text. |
| `EventSanitizer.ResanitizingIsTotal` | src/db/agent-integration-event-sanitizer.ts:628-660 | Scrubbing and sanitizing what is stored of any payload once more, its own value or the notice in its place, is never rejected. |
| `EventSanitizer.Utf8ByCodePoint` | src/db/agent-integration-event-sanitizer.ts:550-550 | The size limit counts UTF-8 bytes, one to four for each code point by its bits. |
| `EventSanitizer.StringifyLeaves` | src/db/agent-integration-event-sanitizer.ts:549-549 | The words, digits and quoted texts of JSON. |
| `EventSanitizer.StringifyItemsInOrder` | src/db/agent-integration-event-sanitizer.ts:549-549 | Items stand in order between brackets, a comma apart. |
| `EventSanitizer.StringifyFieldsInOrder` | src/db/agent-integration-event-sanitizer.ts:549-549 | Fields stand in order between braces, each after its quoted key, a comma apart. |
| `EventSanitizer.SanitizedPayloadJson` | src/db/agent-integration-event-sanitizer.ts:547-552 | The stored text is that of the payload's own sanitized value, which is within the bounds, exactly when it fits 8 KiB, and otherwise the fixed notice, which is the text of the notice's value; it fails exactly when the payload is rejected. |

## Left out

- Processes, file handles, SQLite, standard input and output: transactions are atomic steps, tables are maps or sequences of rows, and reads, writes and the message channel are nondeterministic results given with each step.
- Hashes are functions, assumed injective only where a theorem says so; claim ids and digests are values supplied with each step; time is an integer.
- Stored JSON is its parsed form with a byte size; duplicate keys in one JSON object and JavaScript number formatting are not expressible.
- ContextRestore.ValidStatesFit: sizes are those of the stored form with JSON quoting bounds, not of every spelling that JSON allows.
- The run loop for a database whose evidence table had no run column (`src/db/agent-integration-schema.ts:1017-1048`): the repair theorems hold from any tables, so they hold after it.
- The LIKE tests for host-activity evidence are one flag of the row; row timestamps are the transaction's time.
- DEFLATE, UTF-8 decoding and case folding in the archive reader are given functions or given chunks; the mapping of an entry to a file on disk, directories and links on disk are not modelled.
- ZipReader.ExtractFile: a chunk sequence and whether the input was drained stand for the decompressor, and the target is an append-only sink; directory identity is not modelled.
- PartialIo.CopyStable: the identity checks before and after the copy are two given answers; a read count outside what was asked for, which the handle's interface excludes and the loop does not test, counts as a short read.
- Bridge logs: a physical write enters the log when it commits and rows are never deleted; prepared plans that are not JSON have no component keys for an owned installation and do not occur for a shared one; a failing database is not modelled.
- BridgeCarriers.NewerWriteDecides: the write is the last row (for an earlier commit time see `BridgeCarriers.BackdatedWriteChangesNothing`); the artifact's recorded hash is that of the state the guard reads.
- The supervisor's exit code and signal, process identity and spawn errors beyond their effect on the machine; one flag says whether the channel takes messages during a step.
- The receipt's call count past 2^53 - 1, the capability check behind `authorized`, and the input validation of tool calls.
- `formatBriefContext` and the section builders: the brief text, the profile and the rest section are arbitrary texts.
- The sanitizer's text heuristics, dedupe keys and the row loop of the migration; an object that occurs twice without being its own ancestor is two equal values.
- EventSanitizer.ResanitizingIsTotal: assumes that redaction keeps the redacted form of a key, which the text heuristics are to satisfy.
- Plain storage and configuration code, the desktop application, event toggles, and the receipt script's registry, signature and mount checks: they would only add easy members.
