# Gatehold: a verified model of PF activation

SASD Gatehold is a privileged daemon that replaces the active packet-filter (PF) ruleset of a firewall. An activation
is a small transaction: write a durable record, load the target ruleset, probe it, wait for an operator's confirmation,
move the last-known-good marker, clear the record. Everything can fail, the audit journal included, and the process can
crash between any two effects; every failure has to lead back to the previous ruleset. This project models that
protocol and the components around it in Dafny and proves what they promise.

## The parts

**Activation protocol.** `ActivationProtocol` describes what survives a crash (PF, marker, record), what each effect
may do to it, and the program text of `activate`, its rollback closure and `recover_pending` as a labelled transition
system. Failed begins, marks, clears and advances may or may not have reached the disk; a failed load leaves PF unknown.
`ActivationService` is the same code in its imperative form: each method's contract says that the effects it had are an
execution of that text. `ActivationInvariant` states what holds at every control point; `ActivationTheorems`,
`RecoveryTheorems`, `GatingTheorems`, `CommitTheorem` and `ActivationProgress` draw the conclusions over whole runs.
`ActivationVerdict` says, over the effects alone and without the transition system, what each status means:
the status is a function of what went wrong. `ActivationTranscript` and `RecoveryTranscript` write out, with `Restoration`
for the way back they share, the whole sequence of effects of every activation and every recovery.

One hypothesis is explicit. `Reported(run)` says that an advance to `committed` that reported failure had no effect.
The code rolls back after such a report while the record may already say `committed`, and recovery then trusts the
record without looking at PF. `SilentCommitDiverges` gives the run in which PF and marker then differ although recovery
reports success, and `CrashSafetyIsExact` shows that this is the only such case: after a failed advance to `committed`
every continuation is crash-safe if and only if the advance had no effect. `DivergenceIsReachable` gives the whole run,
from a clean world on, for every valid activation. The status theorem needs no hypothesis.

**Controller.** `PrivilegedPfController` wraps the service: recovery before anything else, activations only while ready,
degradation to read-only or blocked for good.

**Stores.** `TransactionFiles` is the pending record as files: temporary names, inodes, chunked writes, link, rename and
unlink, any number of begins at once, crashes anywhere. It refines the one optional record the protocol uses, in terms
of the protocol's own effects, and a call that nothing disturbs does what it was asked. `RecordEncoding` is the record's
text; `RevisionStore` holds the revisions and the marker.

**Admission.** `AdmissionRateLimiter` compares the pruned vector with the full history of calls. `LocalListener` is the
serve/stop race over an atomic flag and a mutex. `Framing` and `ControllerRequests` are the wire protocol.
`ControllerService` is the service's run loop, `SignalStopBridge` the bridge from signals to stop requests.

**Text.** `Json`, `AuditEvents` and `OperationJournal` are the audit journal; `PfRules`, `PfRenderer` and `PfReader` are
rule validation, rendering, and a reader that recovers a rule set from its text. `PfMeaning` is an evaluator of PF text
that knows nothing of the renderer: the last matching statement decides, `quick` ends the search, and without one a
packet passes. `Text` has decimals and lines. In all of them a char stands for a byte.

## How to read it

A label or effect carries its outcome, and a theorem over all traces or all action sequences therefore covers every
combination of faults and every interleaving. Where the source changes fields or appends in a loop the model has a class
or a method with that loop, proved against a function; where several threads interleave it has a transition system
whose steps are the accesses to shared state.

Four results are about behaviour that a reader of the code may not expect:

- the failed advance to `committed`, above;
- `NulIsAmbiguous`: the address check goes through a C string, so a network text may carry anything behind a NUL byte,
  and two different valid rule sets can have the same rendered text. `RenderingIsInvertible` gives the exact condition
  (no space and no newline in a network), `NoNulIsEnough` a simple sufficient one;
- `TearLine`: a write error can leave part of a line in any journal, and from then on splitting at newlines no longer
  gives the appended events (`SplittingRecovers`). `SplittingMerges` says what it gives instead, for any pattern of
  failures, and `TornSpoilsOne` which lines are intact: those of complete appends before which, since the last complete
  one, nothing was written;
- `PartialRevision`: a failed store whose file cannot be removed leaves a beginning of the candidate under the
  revision's name, where it is loaded as the revision and blocks the number. `StoreRevision` says exactly when.

## Model

| member | source | states |
|---|---|---|
| ActivationTheorems.CrashSafety | src/core/firewall/activation_service.cpp:218-1174 | over every run of activations, faults, crashes at any effect and recoveries: no record and a marker imply PF is the marker; a record implies the marker is its rollback or target, the rollback before `committing`; a `committed` record implies PF and marker are its target |
| ActivationTheorems.AtomicCommit | src/core/firewall/activation_service.cpp:853-968 | whenever nothing is pending, PF and marker are the target of the last operation whose record durably reached `committed`, or the initial marker; while a record is pending, recovery would settle to that same value |
| ActivationTheorems.StatusTheorem | src/core/firewall/activation_service.cpp:408-968 | an ok status ends with PF and marker at the target; any other status except `rollback_failed` ends with both at the previous revision, and with no record unless it is `transaction_store_failed` or `audit_failed`; `rollback_failed` leaves a record that names the previous revision as rollback, or that same clean state |
| ActivationTheorems.StatusTellsCommit | src/core/firewall/activation_service.cpp:408-968 | unless a commit went unreported, a status is ok if and only if the record durably reached `committed`; recovery then restores the target, and after every other status, `rollback_failed` included, the previous revision |
| ActivationTheorems.SilentCommitDiverges | src/core/firewall/activation_service.cpp:912-927 | a failed advance to `committed` that took effect can be followed by a crash and a recovery that reports success while PF and marker differ |
| ActivationTheorems.CrashSafetyIsExact | src/core/firewall/activation_service.cpp:912-927 | after a failed advance to `committed` all continuations are crash-safe if and only if the advance had no effect |
| ActivationInvariant.StepHolds | src/core/firewall/activation_service.cpp:218-1174 | every single effect the code may have at a control point keeps what is known there about PF, marker and record, and changes the recoverable value only at a durable commit |
| GatingTheorems.LoadGate | src/core/firewall/activation_service.cpp:278-682 | what precedes the first load of the target is exactly: journaled start, authorization, journaled outcome, marker and revision found, journaled successful revalidation, durable record, journaled intent |
| GatingTheorems.MarkGate | src/core/firewall/activation_service.cpp:637-880 | what precedes the marker's move to the target is exactly one history: successful load, every probe in order and healthy, valid confirmation, each advance durable and each event journaled |
| GatingTheorems.FullyAuditedStatus | src/core/firewall/activation_service.cpp:533-910 | `committed`, `activation_failed` and the three rolled-back failure statuses are reported only if no append of the operation failed |
| CommitTheorem.CommitTheorem | src/core/firewall/activation_service.cpp:278-968 | an activation that can commit reports `committed` if and only if its effects are those of the one fault-free history, and then PF and marker are the target with nothing pending |
| CommitTheorem.DivergenceIsReachable | src/core/firewall/activation_service.cpp:912-927 | from every clean world and for every valid activation of another revision there is a run of the code, with no fault before the one unreported commit, that ends in a successful recovery with the marker at the target and PF at the previous revision |
| ActivationProgress.ActivationIsBounded | src/core/firewall/activation_service.cpp:278-968 | an activation has at most 46 effects and three for each probe, rollback included |
| ActivationProgress.ActivationNeverStuck | src/core/firewall/activation_service.cpp:278-968 | a running activation or rollback always has a next effect that the world allows and the code accepts |
| ActivationProgress.ActivationCanEnd | src/core/firewall/activation_service.cpp:278-968 | from wherever an activation has got to, it can be brought to an end with a status |
| ActivationProgress.RollbackConverges | src/core/firewall/activation_service.cpp:408-531 | a rollback in which validator, loader and stores work has at most ten effects, never reports `rollback_failed`, and ends with the status asked for or a failed audit, with PF and marker at the previous revision and nothing pending, whatever the journal does |
| ActivationProgress.RollbackCanFinish | src/core/firewall/activation_service.cpp:408-531 | from wherever a rollback has got to without a fault of theirs, it can be completed in that way |
| ActivationVerdict.StatusIsVerdict | src/core/firewall/activation_service.cpp:278-968 | the status of every activation is a function of the effects that did not succeed, in their order: the first names the stage, the later ones say whether audit and way back held |
| ActivationVerdict.RefusalNamesTheCheck | src/core/firewall/activation_service.cpp:278-636 | denied and unavailable authorization, missing or identical marker, unreadable target, failed revalidation and conflict: each is reported if and only if that call failed that way and no append failed |
| ActivationVerdict.RollbackNamesTheCall | src/core/firewall/activation_service.cpp:637-880 | the failed load, probe, confirmation and marker each have their status, which is reported if and only if that call failed, every append succeeded and every step of the way back held |
| ActivationVerdict.DoubtIsExact | src/core/firewall/activation_service.cpp:278-968 | a status demands read-only operation if and only if some append, begin, advance or clear failed and the status is not `rollback_failed` |
| ActivationTranscript.ActivationCourse | src/core/firewall/activation_service.cpp:278-968 | every activation has either the effects of the whole commit, or a beginning of them, one that fails, and exactly the reports and the way back due after that one |
| RecoveryTheorems.RecoveryConserves | src/core/firewall/activation_service.cpp:970-1174 | wherever a recovery is cut off, the world is crash-safe and settles to the same PF and marker; a recovery has at most twelve effects; an ok status means it is settled |
| RecoveryTheorems.RecoveryConverges | src/core/firewall/activation_service.cpp:970-1174 | after any number of crashed recoveries, one in which validator, loader and stores work succeeds and clears the record, whatever the journal does |
| RecoveryTheorems.RecoveryCanFinish | src/core/firewall/activation_service.cpp:970-1174 | from wherever a recovery has got to without a fault of theirs, it can be completed in that way |
| RecoveryTheorems.NeverStuck | src/core/firewall/activation_service.cpp:970-1174 | a running recovery always has a next effect that the world allows and the code accepts |
| RecoveryTheorems.SecondRecovery | src/core/firewall/activation_service.cpp:970-1000 | recovering without a record has one effect, changes nothing and reports `no_pending` if the store can be read |
| RecoveryTranscript.RecoveryCourse | src/core/firewall/activation_service.cpp:970-1174 | every recovery has one of the written-out sequences of effects for its record, and the status that belongs to it |
| RecoveryTranscript.RecoveryStatusMeans | src/core/firewall/activation_service.cpp:970-1174 | of the successful statuses `audit_failed_recovered` is reported if and only if some append failed, `committed_cleaned` and `rolled_back` if and only if none did and the record was or was not `committed`, `no_pending` if and only if there was no record |
| ActivationService.PfActivationService.Activate | src/core/firewall/activation_service.cpp:218-968 | rejected arguments leave everything as it was; anything else is an execution of the protocol whose status is the verdict on its effects and means what it says |
| ActivationService.PfActivationService.CheckProbes | src/core/firewall/activation_service.cpp:261-287 | probes are accepted if and only if there is one, all identifiers are safe and no two are alike |
| ActivationService.PfActivationService.RollbackToPrevious | src/core/firewall/activation_service.cpp:408-531 | the rollback closure is the protocol's rollback, up to the status it returns |
| ActivationService.PfActivationService.RunProbes | src/core/firewall/activation_service.cpp:684-745 | the probe loop follows the protocol probe by probe and rolls back at the first failure |
| ActivationService.PfActivationService.RecoverPending | src/core/firewall/activation_service.cpp:970-1174 | recovery is an execution of the protocol, from any resting point, with one of the written-out sequences of effects and the status that belongs to it |
| PrivilegedPfController.ReadyIsKept | src/core/controller/privileged_pf_controller.cpp:225-288 | from a world with nothing pending and PF at the marker, an activation never meets a conflict, and each status that keeps the controller ready leaves such a world |
| PrivilegedPfController.Controller.Start | src/core/controller/privileged_pf_controller.cpp:128-223 | recovery runs in the first call only; what is journaled and the resulting state follow from its status and the two audits: blocked if and only if it failed, ready if and only if it succeeded with every one of its events and both of the controller's journaled; unless blocked the world is settled |
| PrivilegedPfController.Controller.Activate | src/core/controller/privileged_pf_controller.cpp:225-288 | an activation reaches the service if and only if the controller is ready, never conflicts, and leaves the controller blocked if and only if it reports `rollback_failed` and ready if and only if the request was refused unseen or no append, begin, advance or clear failed and it was not `rollback_failed`; read-only and blocked are final, and every activation comes after a successful recovery and the journaled readiness event |
| TransactionFiles.RecordIsNeverTorn | src/core/firewall/activation_transaction_store.cpp:215-541 | in every interleaving of begins, an update and crashes, the record's name is absent or holds one complete record of a valid transaction, which `load` reads back |
| TransactionFiles.StepRefines | src/core/firewall/activation_transaction_store.cpp:215-539 | each file operation is one atomic begin, advance or clear of the protocol's record, with an outcome the protocol allows, or leaves the record alone |
| TransactionFiles.RunRefinesRegister | src/core/firewall/activation_transaction_store.cpp:215-539 | every run of the files, crashes included, is a run of one optional register |
| TransactionFiles.OnePublication | src/core/firewall/activation_transaction_store.cpp:363-384 | of any number of begins, with no clear among them, at most one publishes, and none over an existing record |
| TransactionFiles.ReportsAreExact | src/core/firewall/activation_transaction_store.cpp:307-539 | a finished call had exactly the effect on the record that it reports, once, between its start and its end; a call that reports none had none |
| TransactionFiles.BeginRuns | src/core/firewall/activation_transaction_store.cpp:307-401 | a begin that meets no failure creates the record if there is none, with success if and only if the directory is synchronized, and else reports the conflict; it leaves no temporary file |
| TransactionFiles.AdvanceRuns | src/core/firewall/activation_transaction_store.cpp:215-271 | an advance of the pending operation to the next phase that meets no failure replaces the record and leaves no temporary file |
| TransactionFiles.ClearRuns | src/core/firewall/activation_transaction_store.cpp:502-539 | a clear of the pending operation that meets no failure removes the record |
| RecordEncoding.ReadSerialized | src/core/firewall/activation_transaction_store.cpp:125-209 | parsing a serialized valid transaction gives it back, and its size is far below the load limit |
| RecordEncoding.ParseIsStable | src/core/firewall/activation_transaction_store.cpp:163-209 | whatever parses is a valid transaction, and rewriting it does not change what is read |
| RecordEncoding.ParseIsExact | src/core/firewall/activation_transaction_store.cpp:163-209 | a text reads as a transaction if and only if the transaction is valid and the text is its five lines with some numerals for the two revisions |
| RecordEncoding.RecordSays | src/core/firewall/activation_transaction_store.cpp:125-209 | a text that reads as a transaction has the format as its first line and gives its operation, the numerals of its target and of its rollback, and the name of its phase under their own keys |
| Text.PrintByPosition | src/core/firewall/activation_transaction_store.cpp:125-131 | the character k places before the end of a written numeral is the k-th decimal digit of the number |
| Identifiers.IdentifierBytes | src/core/firewall/activation_transaction_store.cpp:34-49 | an identifier has 1 to 128 bytes, each a letter, a digit or one of four marks, by ASCII number |
| RecordEncoding.CanonicalExactly | src/core/firewall/activation_transaction_store.cpp:125-161 | such a text is the one that is written if and only if neither numeral has a superfluous leading zero |
| RecordEncoding.NotCanonical | src/core/firewall/activation_transaction_store.cpp:155-161 | with a leading zero before its target revision every record has another text that reads the same |
| RecordEncoding.ParseRecord | src/core/firewall/activation_transaction_store.cpp:163-209 | the position loop over exactly five lines computes the specified parse |
| RevisionStore.FilenameOrder | src/core/firewall/revision_store.cpp:24-28 | the order of revision file names is the order of the 64-bit revision numbers |
| RevisionStore.FilenamesDiffer | src/core/firewall/revision_store.cpp:24-28 | different revisions have different file names, none of them the marker's; each is the twenty digits of its number and `.pf.conf` |
| RevisionStore.MarkerRoundTrip | src/core/firewall/revision_store.cpp:377-377 | a written marker passes the 2 to 32 byte check and reads back as its revision |
| RevisionStore.Store.StoreRevision | src/core/firewall/revision_store.cpp:149-261 | every status follows exactly from the arguments and the outcomes of the system calls; a revision that has a file is never replaced, no other revision and not the marker is touched; a failed store leaves something behind if and only if its file was created and could not be removed, namely the part of the candidate that was written |
| RevisionStore.PartialRevision | src/core/firewall/revision_store.cpp:206-261 | for every free revision, candidate and proper beginning of it there are outcomes after which that beginning is loaded as the revision and no later store of it succeeds |
| RevisionStore.Store.MarkLastKnownGood | src/core/firewall/revision_store.cpp:340-413 | the marker moves exactly if the revision can be read and the new marker renamed into place, success means it was synchronized too; the outcome is a legal Mark of the protocol, and revisions stay as they are |
| RevisionStore.Store.LastKnownGood | src/core/firewall/revision_store.cpp:415-486 | the marker's revision is reported exactly if marker and revision can be read, and the outcome is a legal ReadMarker of the protocol |
| AdmissionRateLimiter.Limiter.TryAdmit | src/core/controller/admission_rate_limiter.cpp:21-50 | the vector pruned at its front admits exactly what the full history since reset allows, and a denial for capacity hints the exact wait |
| AdmissionRateLimiter.Limiter.Reset | src/core/controller/admission_rate_limiter.cpp:52-56 | a reset starts an empty history |
| AdmissionRateLimiter.WindowBound | src/core/controller/admission_rate_limiter.cpp:21-50 | any window of the configured length holds at most the configured number of admissions |
| AdmissionRateLimiter.AdmissionRule | src/core/controller/admission_rate_limiter.cpp:21-50 | a call may be admitted if and only if no earlier call came at a later time and fewer than the configured number of calls were admitted less than a window before |
| AdmissionRateLimiter.DenialsAreFree | src/core/controller/admission_rate_limiter.cpp:21-50 | denials and clock regressions change nothing about what may be admitted later |
| AdmissionRateLimiter.CeilIsLeast | src/core/controller/admission_rate_limiter.cpp:36-45 | the hint is the least whole number of milliseconds that covers the remaining ticks |
| AdmissionRateLimiter.DeniedUntilRetry | src/core/controller/admission_rate_limiter.cpp:31-50 | after a denial for capacity every call before the remaining time has passed is denied |
| AdmissionRateLimiter.AdmittedAtRetry | src/core/controller/admission_rate_limiter.cpp:31-50 | a call at the hinted time is admitted when nothing was admitted in between |
| LocalListener.ServeIsSafe | src/core/controller/local_listener.cpp:461-563 | with any number of threads in start, serve_one and stop, at most one is past the claim, and the descriptor it uses is the listener's and open |
| LocalListener.ClosingIsSafe | src/core/controller/local_listener.cpp:565-611 | a step that closes or replaces the descriptor happens only while no thread holds it |
| LocalListener.BusyStop | src/core/controller/local_listener.cpp:565-592 | a stop is refused if and only if some thread is past the claim, wherever in its session, and then changes neither the listener nor any other thread |
| LocalListener.LimiterIsNotShared | src/core/controller/local_listener.cpp:208-232 | the rate limiter is never used by two threads at once although only one of them holds the mutex |
| LocalListener.ClaimIsFree | src/core/controller/local_listener.cpp:461-476 | the claim is granted if and only if no thread is past it |
| LocalListener.ServeRuns | src/core/controller/local_listener.cpp:461-487 | a thread that serves with the claim free holds the open descriptor if and only if the listener is open, and then gives everything back |
| LocalListener.StartRuns | src/core/controller/local_listener.cpp:208-232 | a start is refused if and only if the listener is open; otherwise it publishes a new descriptor, or gives up with it closed again |
| LocalListener.StopRuns | src/core/controller/local_listener.cpp:565-592 | a stop is refused if and only if some thread is past the claim; otherwise it closes the descriptor and leaves the listener closed |
| Framing.Socket.ReadExact | src/core/controller/local_protocol.cpp:302-328 | the receiving loop consumes exactly what the specification says for every sequence of poll and receive outcomes |
| Framing.Socket.WriteExact | src/core/controller/local_protocol.cpp:363-392 | the sending loop sends exactly what the specification says for every sequence of poll and send outcomes |
| Framing.Socket.WriteFrame | src/core/controller/local_protocol.cpp:394-419 | sizes outside 1 to 4096 are refused with nothing sent; completion means the whole frame was sent, any other end a proper prefix of it |
| Framing.Socket.ReadFrame | src/core/controller/local_protocol.cpp:330-361 | a payload is returned only if its whole frame stood at the front of the stream, which is then consumed; otherwise no byte of it is handed out |
| Framing.ReadBack | src/core/controller/local_protocol.cpp:330-419 | however a frame was cut up, a completed read returns the payload written and leaves what follows |
| Framing.EveryFragmentation | src/core/controller/local_protocol.cpp:302-361 | every fragmentation into non-empty pieces with enough turns delivers the payload |
| Framing.Delivered | src/core/controller/local_protocol.cpp:302-419 | with enough turns on both sides a payload written is the payload read, however each side cuts up the frame |
| Framing.TruncatedFrame | src/core/controller/local_protocol.cpp:330-361 | no proper prefix of a frame is ever read as a payload |
| Framing.FrameLayout | src/core/controller/local_protocol.cpp:330-419 | the first four bytes of a frame weigh 2^24, 2^16, 2^8 and 1 and add up to the size of the payload behind them |
| Framing.ReadingTells | src/core/controller/local_protocol.cpp:302-361 | a read that ends without a payload reports what ended it: the deadline, the end of the stream, or a failed call |
| Framing.WritingTells | src/core/controller/local_protocol.cpp:363-419 | so does a write, for which a call that moves nothing is a failure |
| ControllerRequests.SplitPayload | src/core/controller/local_protocol.cpp:113-135 | the offset loop computes the specified split |
| ControllerRequests.SplitIsInverse | src/core/controller/local_protocol.cpp:113-135 | a payload splits into given lines if and only if there is a line, all are non-empty without CR and NUL, and the payload is their join |
| ControllerRequests.AcceptedMeansPrinted | src/core/controller/local_protocol.cpp:137-232 | an accepted request keeps every identifier, revision and timeout bound, those of the activation service included, and its payload is its printed form up to leading zeros |
| ControllerRequests.PrintedIsAccepted | src/core/controller/local_protocol.cpp:137-232 | every request within the bounds is accepted, whatever numerals its numbers have |
| ControllerRequests.RequestRoundTrip | src/core/controller/local_protocol.cpp:137-232 | parsing a printed request gives it back, for all identifiers, a revision from 1 to 2^64 - 1, a probe timeout from 100 to 60000 and a confirmation timeout from 1000 to 600000 milliseconds |
| ControllerRequests.UnsupportedExactly | src/core/controller/local_protocol.cpp:137-177 | a payload is unsupported if and only if its lines are at least three, of another protocol, or with a valid request id and an operation other than the two |
| ControllerRequests.MalformedExactly | src/core/controller/local_protocol.cpp:137-232 | a payload is malformed if and only if it is neither unsupported nor the text of a valid request |
| ControllerRequests.StatusText | src/core/controller/local_protocol.cpp:137-169 | the text of a status request, byte for byte |
| ControllerRequests.ActivateText | src/core/controller/local_protocol.cpp:172-232 | the eight lines of an activation request |
| Json.ReadEscaped | src/core/logging/json_event_formatter.cpp:32-73 | a string reader after section 7 of RFC 8259 undoes the escaping of every byte string |
| Json.EscapeByNumber | src/core/logging/json_event_formatter.cpp:32-73 | each byte is escaped as section 7 of RFC 8259 has it, by its number |
| Json.PrintedObject | src/core/logging/json_event_formatter.cpp:75-154 | strings stand in quotation marks, members have a colon, commas between them and braces around them |
| Json.ReadPrinted | src/core/logging/json_event_formatter.cpp:75-154 | a reader undoes the printing of every nested object of strings, whatever follows it |
| Json.PrintIsVisible | src/core/logging/json_event_formatter.cpp:32-73 | printed values contain no byte below 0x20 |
| AuditEvents.AppendEscaped | src/core/logging/json_event_formatter.cpp:32-73 | the escaping loop appends the quoted string |
| AuditEvents.Format | src/core/logging/json_event_formatter.cpp:125-154 | the formatter's appends and loop print the event's document |
| AuditEvents.LineDetermines | src/core/logging/json_event_formatter.cpp:103-154 | two events have the same line if and only if they differ in nothing but values of sensitive attributes |
| AuditEvents.LineReadsBack | src/core/logging/json_event_formatter.cpp:125-154 | a line is not empty, has no newline and reads back as the event with its secrets blanked |
| AuditEvents.SensitiveInside | src/core/logging/json_event_formatter.cpp:89-123 | a sensitive key stays sensitive in any capitalisation and inside any longer key |
| AuditEvents.SensitiveExactly | src/core/logging/json_event_formatter.cpp:103-123 | a key is sensitive if and only if one of the thirteen words is spelled in it, in capital or small letters |
| AuditEvents.DocumentSays | src/core/logging/json_event_formatter.cpp:125-154 | the line gives each field of the event under its own name and the attributes in order, `[REDACTED]` in place of sensitive values |
| OperationJournal.Journal.WriteAll | src/core/logging/operation_journal.cpp:32-52 | the loop writes a prefix whose length the outcomes of the write calls determine, all of it if and only if it reports success |
| OperationJournal.Journal.Append | src/core/logging/operation_journal.cpp:73-192 | status, added bytes and journal follow exactly from the event, the room left and the outcomes of the system calls: a refusal changes nothing, and what reaches the writes adds exactly what they get done of the line; the journal never exceeds its bound |
| OperationJournal.TearLine | src/core/logging/operation_journal.cpp:163-175 | every acceptable event can tear every journal with room for it, at any byte of its line, and splitting then no longer gives the complete appends |
| OperationJournal.SplittingRecovers | src/core/logging/operation_journal.cpp:73-192 | splitting the journal at newlines gives exactly the complete appends in order if and only if no append left part of a line |
| OperationJournal.LinesReadBack | src/core/logging/operation_journal.cpp:82-90 | each line so recovered decodes to its event with the secrets blanked |
| OperationJournal.SplittingMerges | src/core/logging/operation_journal.cpp:73-192 | in any journal, whatever failed while it was written, there is one line for each complete append, in order, each behind what the failed appends right before it wrote, and an unended rest after the last ones |
| OperationJournal.TornSpoilsOne | src/core/logging/operation_journal.cpp:164-175 | the line of a complete append is exactly its own, and decodes to its event, if and only if no append since the complete one before it has written anything |
| PfRules.ValidateRule | src/core/firewall/model.cpp:166-231 | each code is reported under its field if and only if the rule has the defect it stands for, and the report is empty if and only if names, description, networks, ports and protocol keep their bounds and one address family fits the rule and both ends |
| PfRules.ValidateRuleSet | src/core/firewall/model.cpp:233-263 | the report names exactly the defects of each rule under its index, each id that an earlier rule has, and a missing revision; it is empty if and only if the revision is not zero, every rule is valid and no two share an id |
| PfRules.NetworkExactly | src/core/firewall/model.cpp:72-121 | a network is accepted if and only if it is `any`, or an address without prefix length or with one of at most 32 or 128 by its family |
| PfRules.NetworkIsClean | src/core/firewall/model.cpp:72-121 | a valid network without NUL is one word, given that the address parser accepts only hexadecimal digits, dots and colons |
| PfRenderer.AppendStatement | src/core/firewall/pf_renderer.cpp:25-55 | the appends of a rule write its words, separated by single spaces |
| PfRenderer.Render | src/core/firewall/pf_renderer.cpp:63-87 | a text is produced if and only if the rule set is valid, and it is the specified text |
| PfReader.StatementBack | src/core/firewall/pf_renderer.cpp:9-55 | parsing a rule's words recovers every field its statement shows |
| PfReader.RenderingIsInvertible | src/core/firewall/pf_renderer.cpp:63-87 | parsing the text of a valid rule set recovers revision, ids in order, descriptions and every field of the enabled rules if and only if no network of an enabled rule has a space or newline |
| PfReader.NoNulIsEnough | src/core/firewall/model.cpp:72-121 | without NUL bytes in its networks a valid rule set is recovered from its text |
| PfReader.NulIsAmbiguous | src/core/firewall/model.cpp:92-101 | with NUL bytes two different valid rule sets can have the same text |
| PfReader.NothingElseIsActive | src/core/firewall/pf_renderer.cpp:63-87 | the active lines are `set block-policy drop`, `set skip on lo`, `block log all` and one statement per enabled rule, in order |
| PfMeaning.StatementMeans | src/core/firewall/pf_renderer.cpp:25-55 | read by PF, the statement of a rule matches exactly the packets the rule is about, and is quick when the rule is |
| PfMeaning.RenderedTextDecides | src/core/firewall/pf_renderer.cpp:63-87 | read by PF, the text of a valid rule set leaves loopback alone, lets the first quick enabled rule that applies or the last that applies decide, and drops what no enabled rule applies to |
| PfMeaning.PassesExactly | src/core/firewall/pf_renderer.cpp:69-87 | outside loopback a packet passes if and only if the rule that decides about it is a pass rule; everything else is dropped |
| ControllerService.ControllerService.Run | src/core/controller/controller_service.cpp:132-350 | a run has exactly the written-out sequence of entries for its configuration, the stop request before the start, its answers and the outcomes of its calls; recovery always runs; the loop ends only with the answers, k consecutive errors, or an unjournaled rate limit; the status follows from what went wrong first in the order the code asks, and `stopped` means nothing did |
| ControllerService.ListenerIsStarted | src/core/controller/controller_service.cpp:143-215 | the listener is started if and only if the bounds are kept, the start was journaled and no stop was requested before |
| ControllerService.ControllerService.EveryTurnIsServed | src/core/controller/controller_service.cpp:241-312 | with readiness journaled, no refusal of the rate limiter unjournaled and no run of errors at the limit, every answer of the listener is served |
| ControllerService.TrailingErrorsMeans | src/core/controller/controller_service.cpp:241-302 | the consecutive-error counter reaches k if and only if the last k answers are errors |
| ControllerService.CountersAddUp | src/core/controller/controller_service.cpp:104-108 | handled, timed out, rate limited and errors add up to the number of calls, below saturation |
| SignalStopBridge.OneOwner | src/core/system/posix_signal_stop_bridge.cpp:131-320 | at most one bridge owns the process-wide claim, and the claim is set exactly while one does |
| SignalStopBridge.StopHasACause | src/core/system/posix_signal_stop_bridge.cpp:339-385 | a requested stop has a recorded external signal or a wait error behind it, and with either of them the stop is requested or is the worker's very next step; the wake-up sent by `stop` is never recorded |
| SignalStopBridge.JoinReturns | src/core/system/posix_signal_stop_bridge.cpp:254-258 | once the wake-up is sent the worker has a step to take until it is done, and then the join can return |
| SignalStopBridge.WokenWorkerEnds | src/core/system/posix_signal_stop_bridge.cpp:254-258 | in any interleaving after the wake-up, however long, the worker takes at most four more steps before the join |
| SignalStopBridge.StoppedForGood | src/core/system/posix_signal_stop_bridge.cpp:131-146 | a stopped bridge never restarts, has no worker and keeps the first signal it recorded |
| SignalStopBridge.SignalRuns | src/core/system/posix_signal_stop_bridge.cpp:339-385 | a signal that reaches a waiting worker is recorded and requests the stop if it is the first, and changes nothing else |
| SignalStopBridge.StartRuns | src/core/system/posix_signal_stop_bridge.cpp:131-224 | a start gets the claim if and only if no bridge owns it, and then becomes active or gives it back |
| SignalStopBridge.StopRuns | src/core/system/posix_signal_stop_bridge.cpp:226-270 | a stop that can wake its waiting worker ends it, gives the claim back and keeps signal and stop request |

## Left out

- Host reboot: recovery of a `committed` record does not reload PF, so the theorems are about process crashes, which
  kernel state, marker and record survive.
- Contents of revisions in the protocol: the world names revisions by number; that a stored revision does not change is
  proved of the revision store, in runs without a crash inside `store`, which writes directly to the final name.
- System calls: open flags, ownership and mode checks, peer credentials, polling, process creation and the PF tools
  appear as outcomes that are free to happen.
- Two updates of the record at once: advance and clear exclude each other, as the service's mutex makes them; two of
  them from different processes are outside the model, and so is a temporary name that another process creates first.
- ControllerService.ControllerService.Run: speaks of runs that end; a run that is never asked to stop is covered
  up to any point by the run that is asked to stop there. The content of events and the startup results are not kept.
- SignalStopBridge.JoinReturns: needs the wake-up to have been sent; when sending fails the join may wait for the next
  signal. The destructor has the steps of `stop`.
- Framing.EveryFragmentation: poll deadlines are outcomes of a turn rather than readings of a clock.
- The mutex around the activation service's calls: callers in the model are sequential, which is what it makes them.
- Messages, severities, timestamps and attributes of events, and authorization identifiers: only the identity and order
  of events matter to the protocol.
- Calls refused before they touch a file (a bad argument, an unsafe directory, the wrong operation or phase) have no
  steps in the file model; they change nothing.
- Names of fields and messages in validation reports: an issue has its code, which field it is about, and the index of
  its rule.
- PfMeaning.RenderedTextDecides: speaks of packets that belong to no established state; which addresses a network covers
  and which interfaces belong to a group are parameters.
- Clock arithmetic of the rate limiter is over unbounded integers.
- The preparation service, the candidate store, the native validator, the process runner and the health probes: they
  check files, start programs and read their answers; the protocol sees their outcomes only. Argument parsing, the
  filesystem checks at start and packaging are not modelled either.
- Attributes of an event are the sequence in which the ordered map is walked; that the map sorts them is not used.
