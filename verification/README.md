# Codex Preflight: verified model

A Dafny model of the parts of Codex Preflight where a small mistake would matter most, with proofs of what
they keep. `dafny verify dfyconfig.toml` checks all of it.

## What is modelled

**The trust-mutation protocol** (`TrustStore`, `AuditChain`, `AuditFiles`, `AuditLog`, `MutationProtocol`,
`Recovery`, `Confirmation`, `MutationLedger`, `MutationService`). A one-time challenge binds a request to the
bytes of the trust store. When it is confirmed, a reservation marker is created, a prepare record goes into a
MAC-chained, rotating log whose anchor is itself updated in two phases, the store is replaced, a commit record
follows, and the marker goes.
`TrustMutationAuditLog` is a class over the disk; each of its file operations may fail before or after its
effect, and a crash is a failure that nothing follows. What its methods guarantee are the steps of the state
machine in `MutationProtocol`, whose runs may crash anywhere. `Recovery` says which crashes the log survives, and
that recovery can always finish after those. `TrustMutationService` drives all of it and is proved to stay inside
that machine, to replace only the store that a challenge was issued for, whatever other processes do meanwhile, and
to answer exactly as decided when nothing fails.

**The reachability resolver** (`CommandParser`, `Reachability`, `Resolver`). A class with the fields of
`ReachabilityResolver`; its recursive methods end on every file system. The relation `Leads` says,
independently of the explorer, what refers to what; the explorer is complete with respect to it whenever it
reports no uncertainty.

**From graph to verdict** (`PolicyMatrix`, `Policy`, `Preflight`). The policy engine, the explanation that
derives the verdict again, the deduplication of findings, and the pipeline around them.

**Bounded remote state** (`OperationSlot`, `RemoteCache`). The operation slot as a state machine of indivisible
thread steps, and the remote scan cache as a class over its file.

**Listing and text** (`TrustListing`, `ShellSegments`, `GradleText`, `Characters`). Cursor pagination, the shell
splitter, the Gradle masker and block reader.

## How the world is modelled

- HMAC and SHA-256 are free datatype constructors, so equal digests come from equal inputs; the zero MAC of an
  empty log is no HMAC. UUIDs are drawn fresh.
- A file operation may fail before or after its effect. A torn line is a proper prefix of the record's bytes.
  Replacing a file is atomic, locks are exclusive, and releasing a lock does not fail.
- `history` in `LogFiles` is no file. It lists every record whose line was ever written completely.
- Clocks are arguments and are real numbers. The length of a record's line, of an entry's JSON object and of a
  report are part of the value, because JSON itself is not modelled.
- Identity resolution, fingerprints, request validation, deadlines and cancellation are arguments of the
  service's methods: what they found, or an error.
- Whenever the service takes a lock, other processes may have run the same protocol, crashes included, and while no
  mutation is open anyone may have replaced the store (`OthersRun`, `OthersWrite`, `MayBecome`). `versions` lists
  every content the store had. `Watch` and `Calm` say for which calls nothing stood in the way: no file operation
  failed, and the others left a log that can be read, no marker and no reserve file.
- Each method of the audit log reports how far it came (`Reach`, `Stage`), so that the exact condition for a crash
  can be stated over whole runs.
- The file system, the word splitter, the reference patterns and the files that a build tool reads are
  functions given to the resolver. The words of a command are assumed to fit into it, one space between them.
- Of the rule packs only the rule, severity and file of their findings matter here, so they are arguments.
- Reports in the remote cache take as many bytes in the file as they encode to, as they do where the line
  separator is a single newline.

## Where the code and its promises differ

- An append opens the active segment, and so creates it, before it writes. A crash in between, when there was no
  active segment, leaves an empty file that neither anchor covers, and verification refuses from then on, also
  without rotation. `PlainAppendSurvivesCrashes` gives the exact condition, `FirstAppendCanEndTheLog` an input.
- A rotating append that stops after the first effective rename and before its line is complete leaves a log
  that verification refuses from then on (`RotatingAppendFailsClosed`, at an input `HalfARotationEndsTheLog`). It
  fails closed. `LogSurvivesRunUnlessEnded` puts both, torn lines and a torn key file together: over whole runs the
  log stays readable if and only if no step was cut off at such a point.
- `prepare_mutation` may be called without a reservation. Such a prepare opens a mutation without any marker, so that
  nothing demands recovery before the next one. A prepare is safe if and only if the marker is there and nothing else
  is open (`WhenAPrepareIsSafe`, at an input `LonePrepareIsNotSafe`). The service always passes its reservation.
- The command line writes the trust store without looking at the log. If it does so while a crashed mutation is open,
  recovery is undecided if and only if what it wrote is neither of the mutation's two states
  (`WhenRecoveryIsUndecided`).
- The project's README promises that missing paths are reported as uncertainty. Some leave neither a node nor an
  uncertainty: a package script, exactly if every package file can be read and none declares it, or the budget was
  spent, and this reported, before the first that does (`ResolvePackageScript`, `WhenScriptsVanish`); and files or a
  directory that a Maven or Gradle command line names (`RunStep`, `WhenNamedFilesVanish`).
  `MissingReferencesLeaveNoTrace` runs both. A Docker file that cannot be read leaves its node but no uncertainty
  (`FollowContainer`).
- Adding a finding can lower the verdict in exactly one case: the first finding of an unknown shell command, when
  it is not in the matrix and scores at most nine (`WhenAFindingLowersTheVerdict`).
- A count limit of zero for the remote cache means no limit (`ZeroEntriesMeansNoLimit`).

## Model

| member | source | states |
|---|---|---|
| `TrustStore.ApprovalAddsOneEntry` | codex_preflight_core/cache/trust_cache.py:185-282 | An applied approval appends exactly its entry; the id is new, nothing live granted the target, and live grants stay distinct. |
| `TrustStore.WhenApprovalApplies` | codex_preflight_core/cache/trust_cache.py:207-264 | An approval is applied if and only if the stored file is within the size limit and readable, the id is unused, no live entry has the target, and the result fits the size limit. |
| `TrustStore.RevocationRemovesOneEntry` | codex_preflight_core/cache/trust_cache.py:306-367 | An applied revocation removes exactly the live entry with the id and the expected value; all others stay in order and none keeps the id. |
| `TrustStore.WhenRevocationApplies` | codex_preflight_core/cache/trust_cache.py:319-340 | A revocation refuses a file over the limit or unreadable, finds nothing if and only if no live entry has the id, conflicts if and only if the live entry with the id differs from the expected one, and otherwise applies unless the result exceeds the size limit. |
| `TrustStore.RevokeUndoesApproval` | codex_preflight_core/cache/trust_cache.py:185-367 | Revoking a fresh approval before it expires always applies and restores the previous list. |
| `TrustStore.StoreStaysSound` | codex_preflight_core/cache/trust_cache.py:705-733 | Over every run of approvals and revocations with a clock that never goes back, ids stay unique and at most one live entry exists per target. |
| `TrustStore.FindTarget` | codex_preflight_core/cache/trust_cache.py:711-733 | The first live entry that matches all six fields, and none only if no live entry matches. |
| `TrustStore.FindLiveId` | codex_preflight_core/cache/trust_cache.py:324-334 | The first live entry with the id, and none only if no live entry has it. |
| `AuditChain.AnchorDeterminesSegments` | codex_preflight_mcp/trust_mutation_audit.py:806-823 | The anchor of a list of segments determines their contents: decoding it gives the segments back. |
| `AuditChain.SameAnchorSameSegments` | codex_preflight_mcp/trust_mutation_audit.py:1050-1062 | Two sets of segment files with the same anchor are the same files, gaps included. |
| `AuditChain.ProjectionKeepsSuffix` | codex_preflight_mcp/trust_mutation_audit.py:783-804 | The projected files hold the old lines without the oldest segment (when rotating), followed by the new line. |
| `AuditChain.TotalNeverRefuses` | codex_preflight_mcp/trust_mutation_audit.py:695-703 | With room for all segments, no admissible append is refused for total size. |
| `AuditChain.DefaultLimitsAreRoomy` | codex_preflight_mcp/trust_mutation_audit.py:28-31 | The default constants have that room. |
| `AuditChain.SegmentsBoundTotal` | codex_preflight_mcp/trust_mutation_audit.py:725-774 | Segments within their limit keep the total within their number times the limit. |
| `AuditChain.AppendedIsReadable` | codex_preflight_mcp/trust_mutation_audit.py:689-723 | A record signed onto a readable log gives a readable log: the retained suffix of the old records and the new one. |
| `AuditChain.ChainGrows` | codex_preflight_mcp/trust_mutation_audit.py:831-868 | A record linked to the last MAC extends a valid chain, even after the oldest lines were dropped. |
| `AuditChain.MacIsNotItsOwnPrevious` | codex_preflight_mcp/trust_mutation_audit.py:864-868 | No MAC is the MAC of a record that links to it. |
| `AuditFiles.CrashVerdict` | codex_preflight_mcp/trust_mutation_audit.py:689-774 | After a crash between any two file operations of an append, a torn line and a half-done rotation included, verification returns exactly the old records, exactly the retained old ones with the new one, or refuses; which of them is told for each point. |
| `AuditFiles.PlainAppendSurvivesCrashes` | codex_preflight_mcp/trust_mutation_audit.py:689-723 | Without rotation and with an all-or-nothing line, verification after a crash succeeds if and only if the crash did not leave a freshly created, empty active file. |
| `AuditFiles.RotatingAppendFailsClosed` | codex_preflight_mcp/trust_mutation_audit.py:689-723 | With rotation, verification after a crash succeeds if and only if no file had moved yet or the line was complete. |
| `AuditFiles.FirstAppendCanEndTheLog` | codex_preflight_mcp/trust_mutation_audit.py:689-723 | At the default limits: the first append to an empty log, cut off between creating the active file and writing to it, loses the log without rotating. |
| `AuditFiles.HalfARotationEndsTheLog` | codex_preflight_mcp/trust_mutation_audit.py:890-910 | With room for one line in a file: the second append, cut off once the active file has moved, loses the log. |
| `AuditFiles.AppendSurvivesUnlessDeadly` | codex_preflight_mcp/trust_mutation_audit.py:689-723 | For every append and every point in it: the log can be read afterwards if and only if no file had moved and no active file been created by then, or the whole line was there. |
| `AuditFiles.LogSurvivesUnlessEnded` | codex_preflight_mcp/trust_mutation_audit.py:251-269 | The same of a whole attempt, which first creates the key if there is none and verifies the chain. |
| `AuditFiles.RoomyLogsTakeRecords` | codex_preflight_mcp/trust_mutation_audit.py:689-723 | With room for all segments, a log that can be read takes every record whose line fits, unless it must rotate and a reserve file was left behind. |
| `AuditFiles.OnlyAnchoredFilesAreLegible` | codex_preflight_mcp/trust_mutation_audit.py:725-774 | While an append is announced, exactly the files of the committed anchor and those of the pending anchor verify. |
| `AuditFiles.RotationMeetsProjection` | codex_preflight_mcp/trust_mutation_audit.py:783-804 | The rename loop followed by the write gives exactly the projected segment map, for every number of rotated segments and any gaps. |
| `AuditFiles.RenameMovesOneDown` | codex_preflight_mcp/trust_mutation_audit.py:890-903 | One rename takes the loop from one intermediate map to the next. |
| `AuditFiles.DiscardOldest` | codex_preflight_mcp/trust_mutation_audit.py:905-910 | Removing the oldest segment is the first intermediate map. |
| `AuditFiles.StagesStayBounded` | codex_preflight_mcp/trust_mutation_audit.py:689-723 | At every point of an append, torn lines included, every segment keeps within the segment limit and the rotation index limit. |
| `AuditFiles.AppendEffectIsLogStep` | codex_preflight_mcp/trust_mutation_audit.py:689-723 | Whatever point an append reaches, the log is as before, extended by one record that continues its chain, or refused from then on. |
| `AuditFiles.NextLineDecides` | codex_preflight_mcp/trust_mutation_audit.py:746-767 | The checks on one line decide whether the chain read so far extends to it; a line that fails them makes the whole log invalid. |
| `AuditLog.ReadSegment` | codex_preflight_mcp/trust_mutation_audit.py:746-767 | The inner verification loop accepts exactly the lines that continue the chain, and returns their records. |
| `AuditLog.ReadSegments` | codex_preflight_mcp/trust_mutation_audit.py:725-774 | The outer verification loop accepts exactly the readable files and returns all records from the oldest to the newest. |
| `AuditLog.ReadChain` | codex_preflight_mcp/trust_mutation_audit.py:725-774 | Reading the chain succeeds if and only if the files are readable under the limits. |
| `AuditLog.TrustMutationAuditLog.VerifyChain` | codex_preflight_mcp/trust_mutation_audit.py:725-774 | Verification returns exactly the legible records, settles a pending anchor, and otherwise changes nothing. |
| `AuditLog.TrustMutationAuditLog.Rotate` | codex_preflight_mcp/trust_mutation_audit.py:890-910 | The loop of renames in place ends with the fully rotated files, or stops at one of its intermediate maps. |
| `AuditLog.TrustMutationAuditLog.AppendRecord` | codex_preflight_mcp/trust_mutation_audit.py:689-723 | An append leaves the files of some reachable point behind; success is the last point. |
| `AuditLog.TrustMutationAuditLog.Append` | codex_preflight_mcp/trust_mutation_audit.py:689-723 | A successful append extends the legible log by its record; without a fault it fails only when it is not admissible. |
| `AuditLog.TrustMutationAuditLog.RecordEvent` | codex_preflight_mcp/trust_mutation_audit.py:251-269 | An event is refused while the reservation marker exists; otherwise it is one append. Without a fault it fails only with the marker or where the record cannot be appended. |
| `AuditLog.TrustMutationAuditLog.BeginTransaction` | codex_preflight_mcp/trust_mutation_audit.py:405-457 | A transaction starts only without a marker, and creates it. |
| `AuditLog.TrustMutationAuditLog.FinishTransaction` | codex_preflight_mcp/trust_mutation_audit.py:405-457 | Leaving a transaction clears the marker only if nothing was prepared or the commit was recorded. |
| `AuditLog.TrustMutationAuditLog.PrepareMutation` | codex_preflight_mcp/trust_mutation_audit.py:271-303 | With its reservation and the marker, or of its own with neither, it appends one bound prepare record; it is refused otherwise and for equal states. Without a fault it fails for no other reason than that the record cannot be appended. |
| `AuditLog.TrustMutationAuditLog.CommitMutation` | codex_preflight_mcp/trust_mutation_audit.py:315-340 | With or without a reservation, it appends the completion only for the one open prepare at the end of the log that matches in every bound field. Without a fault it fails only if it is barred, the mutation is not the reserved one, or the log does not take its commit. |
| `AuditLog.TrustMutationAuditLog.VerifyAndRecover` | codex_preflight_mcp/trust_mutation_audit.py:342-402 | Recovery does what its plan says, clears the marker on success, and without a fault fails only where nothing can be decided or appended. |
| `MutationProtocol.WriteAheadSafety` | codex_preflight_mcp/trust_mutation_audit.py:404-546 | In every reachable state of every run with crashes, whether the log can be read or not: of all records ever written at most one prepare is open; it is the last record, the marker is present, and the store is in its before or after state; every file keeps its limit; what verification returns is a suffix of everything ever written with the same mutation open. |
| `MutationProtocol.EveryRunKeepsInv` | codex_preflight_mcp/trust_mutation_audit.py:404-546 | The protocol invariant holds after every run of record, begin, prepare, store, commit, finish, crash and recovery steps. |
| `MutationProtocol.StepKeepsInv` | codex_preflight_mcp/trust_mutation_audit.py:404-546 | Each single step keeps the invariant. |
| `MutationProtocol.RecoveryIsDecided` | codex_preflight_mcp/trust_mutation_audit.py:366-391 | As long as the log can be read, recovery commits if and only if the store is in the after state, aborts if and only if it is in the before state, and has nothing to do if and only if nothing is open. `Recovery.CrashedRunsCanRecover` says when it can be read. |
| `MutationProtocol.WhenRecoveryIsUndecided` | codex_preflight_mcp/trust_mutation_audit.py:366-391 | For whatever store a writer outside the protocol left, recovery is undecided if and only if a mutation is open and the store is in neither of its states. |
| `MutationProtocol.RecoveryIsFinal` | codex_preflight_mcp/trust_mutation_audit.py:342-402 | A finished recovery leaves no open prepare and no marker, so that a second run finds nothing to do. |
| `MutationProtocol.InterruptedRecoveryRepeats` | codex_preflight_mcp/trust_mutation_audit.py:342-402 | Cutting recovery off any number of times, anywhere, and running it again ends with the completion that the first attempt had planned. |
| `Recovery.LogSurvivesRunUnlessEnded` | codex_preflight_mcp/trust_mutation_audit.py:404-546 | Over every run, with crashes and recoveries: the log can be read at the end if and only if no step was cut off while a file had moved, an active file had been created or a line or the key file was torn. |
| `Recovery.PlainRunsNeverEnd` | codex_preflight_mcp/trust_mutation_audit.py:689-723 | A run whose appends do not rotate, tear no line and start with an active file, and that does not tear the key file, is such a run. |
| `Recovery.CrashedRunsCanRecover` | codex_preflight_mcp/trust_mutation_audit.py:342-402 | Wherever such a run is cut off, the log can be read, recovery's plan is the commit or the abort of the one open mutation, or nothing, and if its record has room only a fault can keep it from finishing. |
| `Recovery.InterruptedRecoveryCanFinish` | codex_preflight_mcp/trust_mutation_audit.py:342-402 | So it is after any number of recoveries that were cut off themselves, with the verdict of the first. |
| `MutationProtocol.WhenAPrepareIsSafe` | codex_preflight_mcp/trust_mutation_audit.py:271-303 | An appended prepare leaves a state that a crash may leave if and only if the marker is there and nothing else is open. |
| `MutationProtocol.LonePrepareIsNotSafe` | codex_preflight_mcp/trust_mutation_audit.py:271-288 | On an empty log: a prepare without a reservation leaves an open mutation that no marker announces. |
| `MutationProtocol.OnlyTailUnmatched` | codex_preflight_mcp/trust_mutation_audit.py:1015-1025 | With only the last record open, the unmatched prepares are exactly that record. |
| `MutationProtocol.NoneUnmatched` | codex_preflight_mcp/trust_mutation_audit.py:1015-1025 | With every prepare completed later, nothing is unmatched, also after rotation dropped old records. |
| `Confirmation.TrustMutationConfirmationManager.Issue` | codex_preflight_mcp/trust_mutation_confirmation.py:95-162 | A challenge is refused if and only if 128 are live or 32 were issued in the window; otherwise it is entered with its expiry. |
| `Confirmation.TrustMutationConfirmationManager.AuthenticateAndConsume` | codex_preflight_mcp/trust_mutation_confirmation.py:164-198 | A token is consumed if and only if it carries the signature, matches a live record in every field and was not consumed; it then never is again. |
| `Confirmation.TrustMutationConfirmationManager.InvalidateAll` | codex_preflight_mcp/trust_mutation_confirmation.py:200-203 | All challenges are gone, while consumed ids stay consumed. |
| `Confirmation.TrustMutationConfirmationManager.IssueLimits` | codex_preflight_mcp/trust_mutation_confirmation.py:120-152 | With a clock that never goes back and between invalidations, no 60-second window sees more than 32 issues and no 300-second window more than 128. |
| `Confirmation.SpacingBoundsWindow` | codex_preflight_mcp/trust_mutation_confirmation.py:120-152 | If any run of issues of a given length spans the window width, every window holds at most that many. |
| `Confirmation.TrustMutationConfirmationManager.FreeSlotsSpaceIssues` | codex_preflight_mcp/trust_mutation_confirmation.py:205-213 | Free slots mean that the issue a full limit ago is out of its window, because consuming frees no slot. |
| `Confirmation.PruningKeepsSuffix` | codex_preflight_mcp/trust_mutation_confirmation.py:212-213 | Pruning keeps exactly the issues that are still in the window. |
| `MutationService.TrustMutationService.ConfirmApproval` | codex_preflight_mcp/trust_mutation.py:428-568 | An unhealthy service does nothing and a token that cannot be redeemed changes nothing. Otherwise anything but a failure, and every replacement of the store, implies a challenge consumed now for the first time, and the request, the target on both looks, and the store on both looks as the challenge was issued for; the answer tells the truth about the store and the log; and if nothing fails the answer is exactly what the checks and the decision under the lock say. |
| `MutationService.TrustMutationService.ConfirmRevoke` | codex_preflight_mcp/trust_mutation.py:570-726 | The same for revocations. |
| `MutationService.TrustMutationService.IssueApproval` | codex_preflight_mcp/trust_mutation.py:272-340 | A challenge binds the request, the observed target and the store bytes read during the call under ids that nothing else carries. If nothing fails it is issued if and only if the request is valid, the target is found, the store can be read and the manager has a slot. |
| `MutationService.TrustMutationService.IssueRevoke` | codex_preflight_mcp/trust_mutation.py:342-426 | A challenge binds the live entry found for the id and the store bytes read during the call. If nothing fails it is issued if and only if the request is valid, the entry is there and live, and the manager has a slot. |
| `MutationService.TrustMutationService.Consume` | codex_preflight_mcp/trust_mutation.py:728-776 | Only an unused, unexpired token of the same operation passes, and it passes once; if nothing fails it does pass. |
| `MutationService.TrustMutationService.Transact` | codex_preflight_mcp/trust_mutation.py:478-535 | The decision is made for the store as it is under the lock, after other processes ran. The outcome says what the store and the log hold: committed exactly once, pending, unchanged or a failed store write; and if nothing fails it is the decision. |
| `MutationService.TrustMutationService.Mutate` | codex_preflight_core/cache/trust_cache.py:254-282 | Prepare, store write and commit in order, with the outcome for each point of failure; without a fault it is committed. |
| `MutationService.TrustMutationService.Answer` | codex_preflight_mcp/trust_mutation.py:506-568 | Which answer and which health follow from each outcome. |
| `MutationService.AnswerIsTruthful` | codex_preflight_mcp/trust_mutation.py:506-568 | Applied means stored and committed exactly once; pending means stored and unhealthy; any other error means that this service replaced nothing, except a failed store write, which leaves the service unhealthy. Without a fault the answer is the decision. |
| `MutationService.TrustMutationService.RecoverStartup` | codex_preflight_mcp/trust_mutation.py:179-210 | The service is healthy again if and only if recovery succeeded, and then nothing is open and no marker is left; the store is untouched. Without a fault it fails only if the log cannot be read, a reserve file was left behind or the limits leave no room. |
| `MutationService.AppliedDecisionsAreBound` | codex_preflight_mcp/trust_mutation.py:478-483 | What is decided to be applied under the lock is applied to exactly the store that the challenge is bound to, with the target seen again, and changes it. |
| `MutationService.ConfirmedIsAuthorized` | codex_preflight_mcp/trust_mutation.py:428-535 | Nothing is approved, revoked or replaced unless every check passed on both versions of the store. |
| `MutationService.WhenAnApprovalGoesThrough` | codex_preflight_mcp/trust_mutation.py:428-535 | If nothing fails, a confirmed approval is applied if and only if the request, the target on both looks and the store on both looks are those of the challenge, and the plan for that store applies. |
| `MutationService.WhenARevocationGoesThrough` | codex_preflight_mcp/trust_mutation.py:570-660 | If nothing fails, a confirmed revocation is applied if and only if the request and the entry are those of the challenge, the store is on both looks, and the plan for it applies. |
| `MutationLedger.OthersStayWithinBounds` | codex_preflight_mcp/trust_mutation_audit.py:404-546 | Any number of steps of other processes that run the protocol with ids of their own, crashes included, leave a disk that the service allows for. |
| `MutationLedger.StoreWritersStayWithinBounds` | codex_preflight_core/cache/trust_cache.py:139-183 | So does any writer of the store that ignores the log, while no mutation is open. |
| `MutationLedger.ReplacementsNeverOutnumberChallenges` | codex_preflight_mcp/trust_mutation.py:728-776 | Each replacement has a challenge of its own, consumed before it expired and issued for the version of the store that was replaced; no challenge pays for two. |
| `MutationLedger.CommitIsUnique` | codex_preflight_mcp/trust_mutation_audit.py:492-517 | After a commit the log ends with the only completion of its prepare. |
| `MutationService.ApprovalMismatch` | codex_preflight_mcp/trust_mutation.py:439-469 | An approval goes on if and only if request, target and store equal the bound ones; otherwise the first failing check names the error. |
| `MutationService.RevocationMismatch` | codex_preflight_mcp/trust_mutation.py:580-619 | A revocation goes on only for the bound request, entry and store bytes. |
| `CommandParser.NestedIsShorter` | codex_preflight_core/reachability/command_parser.py:70-208 | Every nested command is strictly shorter than the command it comes from. |
| `CommandParser.UnwrapEnvCommand` | codex_preflight_core/reachability/command_parser.py:70-92 | The index loop leaves what `EnvLeavesItsCommand` describes. |
| `CommandParser.EnvLeavesItsCommand` | codex_preflight_core/reachability/command_parser.py:70-92 | However the words after `env` are read as complete options and a rest that begins with none, what is left is the command in the rest: after a `--`, or the rest itself, or nothing if an option lacks its value. |
| `CommandParser.EveryLineIsAnEnvLine` | codex_preflight_core/reachability/command_parser.py:70-92 | They can always be read that way. |
| `Reachability.NestedSegmentsAreShorter` | codex_preflight_core/reachability/resolver.py:339-349 | So is every shell segment of it, which makes following nested commands end. |
| `Reachability.SettledLeadsToSeen` | codex_preflight_core/reachability/resolver.py:331-494 | If all references of an item resolve to seen items, then every item it refers to, in the sense of the independent reference relation, was seen. |
| `Reachability.ChainStaysSeen` | codex_preflight_core/reachability/resolver.py:331-494 | If everything seen is settled, whatever it reaches over any number of references was seen. |
| `Resolver.ReachabilityResolver.Build` | codex_preflight_core/reachability/resolver.py:49-147 | On every file system the exploration ends with a tree of at most 100 nodes rooted at the entry command and at most one budget uncertainty; without uncertainties everything reached was followed and every reached file has a node. |
| `Resolver.ReachabilityResolver.FollowTarget` | codex_preflight_core/reachability/resolver.py:407-444 | Every target becomes a file node with an edge from its parent, or leaves exactly the uncertainty that names the first failing check (depth, budget, absolute, symbolic link, outside, missing); without uncertainties it is settled. |
| `Resolver.ReachabilityResolver.FollowNodeModuleTarget` | codex_preflight_core/reachability/resolver.py:471-494 | Every Node.js module becomes a node with an edge from its parent or leaves an uncertainty, for all its candidate files. |
| `Resolver.ReachabilityResolver.FollowPythonModule` | codex_preflight_core/reachability/resolver.py:390-405 | The same for Python modules. |
| `Resolver.ReachabilityResolver.ScanFile` | codex_preflight_core/reachability/resolver.py:446-469 | Each file is scanned once; without uncertainties all its references are settled, cycles included. |
| `Resolver.ReachabilityResolver.ResolveCommandReferences` | codex_preflight_core/reachability/resolver.py:331-361 | Without uncertainties everything the command refers to was followed; a command in which nothing is found leaves the doubt about it. It terminates by the remaining node budget and then the length of the command. |
| `Resolver.ReachabilityResolver.ResolvePackageScript` | codex_preflight_core/reachability/resolver.py:363-388 | Unless the budget runs out, every script of that name in every package file gets a node with an edge from the parent; without uncertainties it is followed. Nothing is added if and only if the scripts vanish, as `WhenScriptsVanish` tells. |
| `Reachability.WhenScriptsVanish` | codex_preflight_core/reachability/resolver.py:363-388 | Scripts vanish if and only if every package file can be read and declares none, or the budget was spent, and this reported, before the first that does. |
| `Resolver.ReachabilityResolver.HasNodeBudget` | codex_preflight_core/reachability/resolver.py:539-552 | The budget holds if and only if fewer than 100 nodes exist; its uncertainty is reported at most once. |
| `Resolver.ReachabilityResolver.AddChild` | codex_preflight_core/reachability/resolver.py:554-575 | A node gets the next id and its one incoming edge, from its parent. |
| `Resolver.ReachabilityResolver.FollowContainers` | codex_preflight_core/reachability/resolver.py:314-329 | Unless the budget runs out every Docker file gets a node with an edge from the entry; without uncertainties the Dockerfile references of every readable Compose file are followed; nothing is added if and only if there are no files or the budget was spent. |
| `Resolver.ReachabilityResolver.FollowContainer` | codex_preflight_core/reachability/resolver.py:321-329 | The node with its edge comes first; of a file that cannot be read or refers to nothing it is all that is added, so that there is no uncertainty. |
| `Resolver.ReachabilityResolver.RunStep` | codex_preflight_core/reachability/resolver.py:99-147 | One segment of a build adds nothing if and only if it finds no file or script, or the budget was spent; without uncertainties everything it reads was followed. |
| `Resolver.WhenNamedFilesVanish` | codex_preflight_core/reachability/resolver.py:226-238 | Files that the command line names vanish if and only if none of them is a file of the repository. |
| `Resolver.MissingReferencesVanish` | codex_preflight_core/reachability/resolver.py:99-176 | In a repository whose only package file declares a test script: a build script and a Maven file that are not there both vanish. |
| `Resolver.MissingReferencesLeaveNoTrace` | codex_preflight_core/reachability/resolver.py:99-176 | Running both leaves the entry node alone and no uncertainty. |
| `Resolver.ReachabilityResolver.RunSteps` | codex_preflight_core/reachability/resolver.py:99-147 | Every build step is followed, and an exhausted budget ends the build. |
| `Resolver.PathToEntry` | codex_preflight_core/reachability/resolver.py:554-575 | From every node the incoming edges lead back to the entry command. |
| `Resolver.OneIncomingEdge` | codex_preflight_core/reachability/resolver.py:554-575 | Every node but the entry has exactly one incoming edge, from an earlier node. |
| `Resolver.SettledStartIsSeen` | codex_preflight_core/reachability/resolver.py:49-147 | Every item that the planned command starts from was seen. |
| `Policy.EvaluatePolicy` | codex_preflight_core/policy/engine.py:9-45 | The loop over rule ids in any order gives the verdict, the risk score and a reason that is true. |
| `Policy.OrderDoesNotMatter` | codex_preflight_core/policy/engine.py:9-45 | The verdict and the score depend on the findings as a multiset only. |
| `Policy.MoreFindingsNeverLowerTheVerdict` | codex_preflight_core/policy/engine.py:9-45 | More findings never lower the verdict, in any scope, unless there were none for an unknown shell command. |
| `Policy.WhenAFindingLowersTheVerdict` | codex_preflight_core/policy/engine.py:34-37 | Adding a finding lowers the verdict if and only if it is the first one of an unknown shell command, not in the matrix and of score at most nine. |
| `Policy.BuildPolicyExplanation` | codex_preflight_core/policy/explanation.py:12-64 | The selector's decision is the final one; no gate exactly for an untrusted ALLOW; a rule-driven selector exactly if some contribution affects the gate; one contribution for each rule; their scores sum to the risk score, except for the unknown-shell floor. |
| `Policy.SelectionAccounts` | codex_preflight_core/policy/explanation.py:67-96 | For every engine result the selector that the explanation derives names the same cause as the engine's reason. |
| `Policy.SomeRuleAffects` | codex_preflight_core/policy/explanation.py:99-130 | A rule-driven selector always has a rule whose contribution affects the gate. |
| `Policy.ListContributions` | codex_preflight_core/policy/explanation.py:41-51 | Contributions list each rule once and add up to the total score. |
| `Policy.ApplyMinimums` | codex_preflight_core/policy/engine.py:22-30 | The loop computes the highest minimum of the rules, whatever their order. |
| `Policy.DedupeFindings` | codex_preflight_core/preflight.py:118-134 | The loop keeps the first finding of each rule and file that is not subsumed. |
| `Policy.DedupeKeepsEveryKey` | codex_preflight_core/preflight.py:118-134 | Every rule and file pair that is not subsumed is kept exactly once, nothing else is, and the score never rises. |
| `Policy.DedupeKeepsTheGate` | codex_preflight_core/preflight.py:118-134 | Deduplication changes neither the highest minimum nor the presence of a hard block, in any scope. |
| `Policy.UncertaintyForcesReview` | codex_preflight_core/policy/matrix.py:135-145 | One uncertainty among any findings survives deduplication and demands at least ASK_USER, or WARN for read-only commands. |
| `Preflight.UncertainGraphAsksTheUser` | codex_preflight_core/preflight.py:72-84 | Every uncertainty of the graph is among the deduplicated findings, and the verdict is at least ASK_USER outside read-only commands. |
| `Preflight.RunPreflight` | codex_preflight_core/preflight.py:72-103 | Unknown is not safe, end to end: an untrusted verdict below ASK_USER outside read-only commands implies that every file the command reaches is in the graph. |
| `Preflight.QuietGraphIsComplete` | codex_preflight_core/reachability/resolver.py:49-64 | A graph without uncertainties contains every file reached over any chain of references. |
| `OperationSlot.SlotSafety` | codex_preflight_mcp/remote_operation.py:1294-1310 | Over all interleavings: at most two running, at most one for each URL, free slots and holders add up to two, no unheld lock outside the guard, and nothing left behind when all have gone. |
| `OperationSlot.EveryRunKeepsInv` | codex_preflight_mcp/remote_operation.py:1294-1310 | The invariant holds after every run. |
| `OperationSlot.StepKeepsInv` | codex_preflight_mcp/remote_operation.py:1294-1310 | Each indivisible step of any thread keeps it. |
| `OperationSlot.SomeoneCanStep` | codex_preflight_mcp/remote_operation.py:1294-1310 | No deadlock: while a thread is inside, some thread inside can take a step. |
| `RemoteCache.RemoteScanCache.Get` | codex_preflight_mcp/remote_state.py:103-117 | A report that is returned is the one stored last for the key and not past its time; exactly the live entry is found; without a fault it fails only for a file that cannot be loaded. |
| `RemoteCache.RemoteScanCache.Store` | codex_preflight_mcp/remote_state.py:119-149 | The file keeps the longest recent suffix of the live entries for other keys and the new one within count and size, and ends with the new one; the latest report for the key is the new one. Without a fault it fails only for an oversized report or entry or a file that cannot be loaded. |
| `RemoteCache.Trim` | codex_preflight_mcp/remote_state.py:138-142 | The slice and the pop loop keep the longest suffix within the limits. |
| `RemoteCache.KeptRefines` | codex_preflight_mcp/remote_state.py:119-149 | What a store keeps holds each key at most once, with the latest report. |
| `RemoteCache.StoredReportIsRead` | codex_preflight_mcp/remote_state.py:103-149 | A stored report is read back until it expires. |
| `RemoteCache.ZeroEntriesMeansNoLimit` | codex_preflight_mcp/remote_state.py:139-140 | The count limit bounds every result if and only if it is at least one. |
| `RemoteCache.RemoteScanCache.Load` | codex_preflight_mcp/remote_state.py:155-171 | Loading returns exactly the entries of this process; without a fault it succeeds if and only if the file is a list within its limit whose own entries are all signed. |
| `TrustListing.List` | codex_preflight_mcp/trust_read.py:112-330 | The page, the cursor and the errors of one call. |
| `TrustListing.CursorsListEverythingOnce` | codex_preflight_mcp/trust_read.py:215-330 | On an unchanged snapshot, following cursors to the end yields the whole list in order, each entry once, in the smallest positive number of pages with room for it. |
| `TrustListing.ListingIsFilteredAndSorted` | codex_preflight_mcp/trust_read.py:215-222 | The list of a snapshot holds the matching entries, no more and no fewer, in the order of the sort key. |
| `TrustListing.WalkGoesOn` | codex_preflight_mcp/trust_state.py:113-157 | A cursor within its lifetime is never a dead end. |
| `TrustListing.WhenACursorIsAccepted` | codex_preflight_mcp/trust_state.py:84-157 | An issued cursor is accepted if and only if filters, limit and snapshot are the same and it has not expired. |
| `TrustListing.SortSorts` | codex_preflight_mcp/trust_read.py:420-429 | The listing is sorted by the seven-part key. |
| `TrustListing.WalkStands` | codex_preflight_mcp/trust_read.py:266-282 | After any number of pages exactly the first entries were shown, and the cursor stands at the next one. |
| `ShellSegments.SplitShellSegments` | codex_preflight_core/command/classifier.py:121-149 | The index loop computes the scan of the command. |
| `ShellSegments.SeparatorsSeparate` | codex_preflight_core/command/classifier.py:121-149 | If scanning the first command ends outside quotes, splitting the two joined by `&&`, `||` or `;` is the two splits one after the other. |
| `ShellSegments.LineBreakSeparates` | codex_preflight_core/command/classifier.py:134-137 | So it is for two commands joined by a line break. |
| `ShellSegments.QuotedTextStaysTogether` | codex_preflight_core/command/classifier.py:129-133 | Inside quotes nothing separates. |
| `ShellSegments.SegmentsAreNoLonger` | codex_preflight_core/command/classifier.py:121-149 | No segment, and not all of them together, is longer than the command. |
| `GradleText.MaskCommentsAndStrings` | codex_preflight_core/rules/java_kotlin.py:237-288 | The index loop computes the masked text. |
| `GradleText.MaskIsClean` | codex_preflight_core/rules/java_kotlin.py:237-288 | Masking keeps length and newlines and otherwise only blanks; it leaves nothing that opens a string or a comment, changes exactly the texts that have such an opener, and is idempotent. |
| `GradleText.StringIsBlanked` | codex_preflight_core/rules/java_kotlin.py:237-288 | A string literal is blanked up to its own closing quote, escapes, comment marks and other quotes inside included; what follows is masked on its own. |
| `GradleText.LineCommentIsBlanked` | codex_preflight_core/rules/java_kotlin.py:237-288 | A line comment is blanked up to its line end, and what follows is masked on its own. |
| `GradleText.BlockCommentIsBlanked` | codex_preflight_core/rules/java_kotlin.py:237-288 | A block comment is blanked up to its own end, and what follows is masked on its own. |
| `GradleText.OtherCodeStays` | codex_preflight_core/rules/java_kotlin.py:286-287 | A character of code that opens nothing stays. |
| `GradleText.BlockBodies` | codex_preflight_core/rules/java_kotlin.py:169-183 | The bodies of exactly the blocks that end, in order. |
| `GradleText.BodyOf` | codex_preflight_core/rules/java_kotlin.py:169-183 | A body is brace-balanced and ends at the brace that closes its block. |
| `GradleText.FindClose` | codex_preflight_core/rules/java_kotlin.py:174-181 | The loop finds the matching brace, and none only if there is none. |
| `GradleText.ClosingIsUnique` | codex_preflight_core/rules/java_kotlin.py:174-181 | The matching brace is unique. |

## Left out

- Windows ACLs, POSIX ownership checks, descriptors, fsync and reparse points: foreign calls.
- JSON, base64url, the key-state file format and record validation field by field: a line is a record or other bytes.
- Command-line writers of the trust store (`approve`, `revoke_identity`) and the legacy migration: what they write is any content; that they do not write while a crashed mutation is open is assumed of the service's runs.
- MutationService.TrustMutationService.ConfirmApproval: unexpected exceptions of injected callables are not modelled; nor are the event names for cancelled, timed-out and lock-timeout failures.
- MutationService.TrustMutationService.ConfirmRevoke: as for approvals; the prepare id is drawn before the transaction instead of inside it.
- AuditLog.TrustMutationAuditLog.PrepareMutation: that prepared mutations stay safe is proved of calls in a transaction only; of a call of its own the condition is told and an input where it is not safe.
- Recovery.CrashedRunsCanRecover: a run in which a step was cut off where the log does not survive it stays unreadable; nothing repairs it in the source either.
- MutationService.TrustMutationService.Answer: result fields other than entry and event ids are not modelled.
- Confirmation.TrustMutationConfirmationManager.Issue: the display text and the token's encoding are not modelled.
- Confirmation.TrustMutationConfirmationManager.IssueLimits: nothing is said across an invalidation, which forgets earlier issues, or once the clock has gone back.
- Resolver.ReachabilityResolver.Build: capabilities, languages and edge reasons of the graph are not modelled; which Ruby, Cargo, Go and Gradle files belong to a command, and which files its words name, is an argument.
- Resolver.ReachabilityResolver.RunStep: named files come in the order of the words instead of by path.
- CommandParser.UnwrapEnvCommand: lower-casing is ASCII, and the tests for assignments and paths are arguments.
- Reachability.NestedSegmentsAreShorter: target extraction for Python, Node.js, Deno, Bun and package managers is an argument; only nested commands matter for termination.
- Policy.BuildPolicyExplanation: rationale texts are not modelled, and the name order of rule ids is an argument.
- Preflight.RunPreflight: the scan cache, trust matching and the report's other sections are not modelled.
- RemoteCache.RemoteScanCache.Store: other processes that rewrite the same file between two calls are not modelled.
- TrustListing.List: audit records of a call are not modelled; a cursor longer than 512 bytes cannot arise from bounded fields and is not modelled.
- OperationSlot.SlotSafety: fairness, and so that every thread gets its slot some day, is not claimed.
- The remote confirmation manager, the remote and trust-read audit logs, report capping and comparison: weaker copies of what is here.
- The rule packs, Git, DNS, HTTP, cloning, scan workers, the command-line interface and tool registration: plumbing or pattern tables.
- The command classifier beyond its splitter: plain branching.
