/**
 The PF activation protocol as a labelled transition system.

 `World` is what survives a process crash: the active PF ruleset, the last-known-good marker and the pending
 activation record.  `Effect` is one call the service makes to the outside together with its outcome.  `Apply` says
 what the effect does to the world, `Legal` which outcomes the world allows.  `Step` is the program text of
 PfActivationService (activate, its rollback closure, recover_pending): from a control point it accepts exactly
 the effects the code may perform there and says where the code goes next.

 Every effect may fail.  A failed begin, advance, mark or clear may or may not have reached the disk.
 */
module ActivationProtocol {
  import opened Basics

  datatype Phase = PreparedForLoad | TargetLoaded | Verified | AwaitingConfirmation | Committing | Committed

  function Rank(p: Phase): nat {
    match p
    case PreparedForLoad => 0
    case TargetLoaded => 1
    case Verified => 2
    case AwaitingConfirmation => 3
    case Committing => 4
    case Committed => 5
  }

  datatype Pending = Pending(op: string, target: nat, rollback: nat, phase: Phase)

  // A failed or interrupted load leaves the kernel ruleset unknown.
  datatype Pf = Known(revision: nat) | Unknown

  datatype World = World(pf: Pf, marker: Option<nat>, record: Option<Pending>)

  datatype Authorization = Authorized | Denied | Unavailable

  datatype BeginStatus = Created | Conflict | BeginFailed

  datatype LoadRecordResult = NoPendingRecord | LoadedRecord(pending: Pending) | RecordUnreadable

  // The audit events, by identity.
  datatype Audit =
    | ActivationStarted                            // GH-ACT-0001
    | AuthorizationChecked(a: Authorization)       // GH-AUTH-*
    | NoLastKnownGood                              // GH-ACT-1004
    | AlreadyLastKnownGood                         // GH-ACT-1005
    | TargetUnavailableEvent                       // GH-ACT-1006
    | RevalidationStarted                          // GH-ACT-0002
    | ValidationFinished(rev: nat, ok: bool)
    | BeginStarted                                 // GH-ACT-0010
    | BeginFinished(status: BeginStatus)           // GH-TXN-*
    | LoadIntent                                   // GH-ACT-0003
    | LoadFinished(rev: nat, ok: bool)
    | AdvanceFinished(phase: Phase, ok: bool)      // GH-TXN-*
    | ProbeStarted(index: nat)                     // GH-ACT-0004
    | ProbeFinished(index: nat, ok: bool)          // GH-PROBE-*
    | ConfirmationPending                          // GH-ACT-0005
    | ConfirmationFinished(ok: bool)               // GH-CONF-*
    | CommitStarted                                // GH-ACT-0006
    | MarkFinished(rev: nat, ok: bool)             // GH-REV-*
    | ActivationCommitted                          // GH-ACT-0007
    | RollbackStarted                              // GH-ACT-0008
    | RollbackSucceeded                            // GH-ACT-0009
    | RollbackGaveUp                               // GH-ACT-2001
    | ClearFinished(ok: bool)                      // GH-TXN-*
    | RecoveryStarted                              // GH-REC-0001
    | RecoveryRolledBack                           // GH-REC-0002
    | RecoveryCleanedUp                            // GH-REC-0003
    | RecoveryMarkerMismatch                       // GH-REC-2001
    | RecoveryRevisionUnavailable                  // GH-REC-2002

  // `applied` says whether a durable update took effect; `ok` is what the call reported.
  datatype Effect =
    | Append(event: Audit, ok: bool)
    | Authorize(a: Authorization)
    | ReadMarker(found: Option<nat>)
    | ReadRevision(rev: nat, ok: bool)
    | Validate(rev: nat, ok: bool)
    | LoadPf(rev: nat, ok: bool)
    | RunProbe(index: nat, ok: bool)
    | Confirm(ok: bool)
    | Begin(pending: Pending, status: BeginStatus, applied: bool)
    | Advance(op: string, next: Phase, ok: bool, applied: bool)
    | Mark(rev: nat, ok: bool, applied: bool)
    | Clear(op: string, ok: bool, applied: bool)
    | LoadRecord(result: LoadRecordResult)

  ghost predicate ValidPending(p: Pending) {
    p.target > 0 && p.rollback > 0 && p.target != p.rollback
  }

  // The outcomes a world allows.
  ghost predicate Legal(w: World, e: Effect) {
    match e
    case ReadMarker(found) => found.Some? ==> w.marker == found && found.value > 0
    case Begin(p, status, applied) =>
      && (status == Created ==> applied)
      && (status == Conflict ==> !applied && w.record.Some?)
      && (applied ==> w.record.None? && ValidPending(p) && p.phase == PreparedForLoad)
    case Advance(op, next, ok, applied) =>
      && (ok ==> applied)
      && (applied ==> w.record.Some? && w.record.value.op == op && Rank(next) == Rank(w.record.value.phase) + 1)
    case Mark(_, ok, applied) => ok ==> applied
    case Clear(op, ok, applied) => (ok ==> applied) && (applied ==> w.record.Some? && w.record.value.op == op)
    case LoadRecord(r) =>
      && (r.NoPendingRecord? ==> w.record.None?)
      && (r.LoadedRecord? ==> w.record == Some(r.pending))
    case _ => true
  }

  function Apply(w: World, e: Effect): World {
    match e
    case LoadPf(rev, ok) => w.(pf := if ok then Known(rev) else Unknown)
    case Begin(p, _, true) => w.(record := Some(p))
    case Advance(_, next, _, true) =>
      if w.record.Some? then w.(record := Some(w.record.value.(phase := next))) else w
    case Mark(rev, _, true) => w.(marker := Some(rev))
    case Clear(_, _, true) => w.(record := None)
    case _ => w
  }

  // ---------- control ----------

  datatype ActivationStatus =
    | CommittedOk | InvalidRequest | AuthorizationDenied | AuthorizationError | LastKnownGoodUnavailable
    | TargetUnavailable | NativeRevalidationFailed | ActivationFailed | VerificationFailedRolledBack
    | ConfirmationFailedRolledBack | CommitFailedRolledBack | TransactionConflict | TransactionStoreFailed
    | CommittedWithWarning | CommittedCleanupPending | AuditFailed | AuditFailedRolledBack | RollbackFailed

  predicate Ok(s: ActivationStatus) {
    s == CommittedOk || s == CommittedWithWarning || s == CommittedCleanupPending
  }

  datatype RecoveryStatus = NoPending | RolledBack | CommittedCleaned | AuditFailedRecovered | RecoveryFailed

  predicate RecoveryOk(s: RecoveryStatus) { s != RecoveryFailed }

  // An activation request that passed the argument checks: operation, target revision, number of probes.
  datatype Job = Job(op: string, target: nat, probes: nat)

  ghost predicate ValidJob(j: Job) { j.target > 0 && j.probes > 0 }

  datatype Stage =
    | Start
    | Authorizing
    | Authorized1(a: Authorization)
    | ReadingMarker
    | RejectingNoMarker
    | RejectingSame
    | ReadingTarget
    | RejectingTarget
    | AnnouncingValidation
    | Validating
    | Validated(ok: bool)
    | AnnouncingBegin
    | Beginning
    | Begun(status: BeginStatus)
    | ClearingUnaudited
    | AnnouncingLoad
    | LoadingTarget
    | Loaded(ok: bool)
    | Advancing(next: Phase)
    | Advanced(next: Phase, ok: bool)
    | AnnouncingProbe(index: nat)
    | Probing(index: nat)
    | Probed(index: nat, ok: bool)
    | AnnouncingConfirmation
    | Confirming
    | Confirmed(ok: bool)
    | AnnouncingCommit
    | Marking
    | Marked(ok: bool)
    | Announced7(audited: bool)
    | Clearing(audited: bool)

  datatype RollStage =
    | RollAnnouncing
    | RollValidating
    | RollValidated(ok: bool)
    | RollLoading
    | RollLoaded(ok: bool)
    | RollMarking
    | RollMarked(ok: bool)
    | RollGivingUp
    | RollClearing
    | RollCleared(ok: bool)
    | RollFinishing

  datatype RecStage =
    | RecAnnouncing
    | RecReadingMarker
    | RecMismatch
    | RecCleaning
    | RecCleaned(ok: bool)
    | RecCleanFinishing
    | RecReadingRevision
    | RecUnavailable
    | RecValidating
    | RecValidated(ok: bool)
    | RecLoading
    | RecLoaded(ok: bool)
    | RecMarking
    | RecMarked(ok: bool)
    | RecClearing
    | RecCleared(ok: bool)
    | RecFinishing

  datatype Control =
    | Idle
    | Act(job: Job, prev: nat, at: Stage)
    | Roll(job: Job, prev: nat, desired: ActivationStatus, compromised: bool, rollAt: RollStage)
    | Done(job: Job, status: ActivationStatus)
    | Recovering
    | Rec(pending: Pending, auditOk: bool, recAt: RecStage)
    | Recovered(recovery: RecoveryStatus)

  // An audit append is due: continue at `good` or `bad`.
  function Audited(e: Effect, event: Audit, good: Control, bad: Control): Option<Control> {
    if e == Append(event, true) then Some(good) else if e == Append(event, false) then Some(bad) else None
  }

  function Rollback(j: Job, prev: nat, desired: ActivationStatus, compromised: bool): Control {
    Roll(j, prev, desired, compromised, RollAnnouncing)
  }

  function AfterAdvance(next: Phase): Stage {
    match next
    case TargetLoaded => AnnouncingProbe(0)
    case Verified => Advancing(AwaitingConfirmation)
    case AwaitingConfirmation => AnnouncingConfirmation
    case _ => AnnouncingCommit
  }

  // Up to the choice of target and rollback revision.
  function StepAuthorize(j: Job, prev: nat, at: Stage, e: Effect): Option<Control> {
    match at
    case Start => Audited(e, ActivationStarted, Act(j, prev, Authorizing), Done(j, AuditFailed))
    case Authorizing => if e.Authorize? then Some(Act(j, prev, Authorized1(e.a))) else None
    case Authorized1(a) =>
      Audited(e, AuthorizationChecked(a),
              match a
              case Authorized => Act(j, prev, ReadingMarker)
              case Denied => Done(j, AuthorizationDenied)
              case Unavailable => Done(j, AuthorizationError),
              Done(j, AuditFailed))
    case ReadingMarker =>
      if !e.ReadMarker? then None
      else if e.found.None? then Some(Act(j, prev, RejectingNoMarker))
      else if e.found.value == j.target then Some(Act(j, e.found.value, RejectingSame))
      else Some(Act(j, e.found.value, ReadingTarget))
    case RejectingNoMarker => Audited(e, NoLastKnownGood, Done(j, LastKnownGoodUnavailable), Done(j, AuditFailed))
    case RejectingSame => Audited(e, AlreadyLastKnownGood, Done(j, InvalidRequest), Done(j, AuditFailed))
    case ReadingTarget =>
      if e.ReadRevision? && e.rev == j.target
      then Some(Act(j, prev, if e.ok then AnnouncingValidation else RejectingTarget)) else None
    case RejectingTarget => Audited(e, TargetUnavailableEvent, Done(j, TargetUnavailable), Done(j, AuditFailed))
    case _ => None
  }

  // Revalidation of the target.
  function StepPrepare(j: Job, prev: nat, at: Stage, e: Effect): Option<Control> {
    match at
    case AnnouncingValidation => Audited(e, RevalidationStarted, Act(j, prev, Validating), Done(j, AuditFailed))
    case Validating => if e.Validate? && e.rev == j.target then Some(Act(j, prev, Validated(e.ok))) else None
    case Validated(ok) =>
      Audited(e, ValidationFinished(j.target, ok),
              if ok then Act(j, prev, AnnouncingBegin) else Done(j, NativeRevalidationFailed), Done(j, AuditFailed))
    case AnnouncingBegin => Audited(e, BeginStarted, Act(j, prev, Beginning), Done(j, AuditFailed))
    case _ => None
  }

  // The durable record and the announcement of the PF load.
  function StepBegin(j: Job, prev: nat, at: Stage, e: Effect): Option<Control> {
    match at
    case Beginning =>
      if e.Begin? && e.pending == Pending(j.op, j.target, prev, PreparedForLoad)
      then Some(Act(j, prev, Begun(e.status))) else None
    case Begun(status) =>
      Audited(e, BeginFinished(status),
              match status
              case Created => Act(j, prev, AnnouncingLoad)
              case Conflict => Done(j, TransactionConflict)
              case BeginFailed => Done(j, TransactionStoreFailed),
              if status == Created then Act(j, prev, ClearingUnaudited) else Done(j, AuditFailed))
    case ClearingUnaudited =>
      if e.Clear? && e.op == j.op then Some(Done(j, if e.ok then AuditFailed else TransactionStoreFailed)) else None
    case AnnouncingLoad => Audited(e, LoadIntent, Act(j, prev, LoadingTarget), Act(j, prev, ClearingUnaudited))
    case _ => None
  }

  // From the PF load to the last probe.
  function StepVerify(j: Job, prev: nat, at: Stage, e: Effect): Option<Control> {
    match at
    case LoadingTarget => if e.LoadPf? && e.rev == j.target then Some(Act(j, prev, Loaded(e.ok))) else None
    case Loaded(ok) =>
      Audited(e, LoadFinished(j.target, ok),
              if ok then Act(j, prev, Advancing(TargetLoaded)) else Rollback(j, prev, ActivationFailed, false),
              Rollback(j, prev, ActivationFailed, true))
    case AnnouncingProbe(i) =>
      Audited(e, ProbeStarted(i), Act(j, prev, Probing(i)), Rollback(j, prev, VerificationFailedRolledBack, true))
    case Probing(i) => if e.RunProbe? && e.index == i then Some(Act(j, prev, Probed(i, e.ok))) else None
    case Probed(i, ok) =>
      Audited(e, ProbeFinished(i, ok),
              if !ok then Rollback(j, prev, VerificationFailedRolledBack, false)
              else if i + 1 < j.probes then Act(j, prev, AnnouncingProbe(i + 1))
              else Act(j, prev, Advancing(Verified)),
              Rollback(j, prev, VerificationFailedRolledBack, true))
    case _ => None
  }

  // A phase change of the durable record.
  function StepAdvance(j: Job, prev: nat, at: Stage, e: Effect): Option<Control> {
    match at
    case Advancing(next) =>
      if e.Advance? && e.op == j.op && e.next == next then Some(Act(j, prev, Advanced(next, e.ok))) else None
    case Advanced(next, ok) =>
      if next == Committed then
        Audited(e, AdvanceFinished(next, ok),
                if ok then Act(j, prev, Announced7(true)) else Rollback(j, prev, TransactionStoreFailed, false),
                if ok then Act(j, prev, Announced7(false)) else Rollback(j, prev, TransactionStoreFailed, false))
      else
        Audited(e, AdvanceFinished(next, ok),
                if ok then Act(j, prev, AfterAdvance(next)) else Rollback(j, prev, TransactionStoreFailed, false),
                Rollback(j, prev, TransactionStoreFailed, true))
    case _ => None
  }

  function StepConfirm(j: Job, prev: nat, at: Stage, e: Effect): Option<Control> {
    match at
    case AnnouncingConfirmation =>
      Audited(e, ConfirmationPending, Act(j, prev, Confirming),
              Rollback(j, prev, ConfirmationFailedRolledBack, true))
    case Confirming => if e.Confirm? then Some(Act(j, prev, Confirmed(e.ok))) else None
    case Confirmed(ok) =>
      Audited(e, ConfirmationFinished(ok),
              if ok then Act(j, prev, Advancing(Committing))
              else Rollback(j, prev, ConfirmationFailedRolledBack, false),
              Rollback(j, prev, ConfirmationFailedRolledBack, true))
    case _ => None
  }

  // From the confirmation to the end of the activation.
  function StepCommit(j: Job, prev: nat, at: Stage, e: Effect): Option<Control> {
    match at
    case AnnouncingCommit =>
      Audited(e, CommitStarted, Act(j, prev, Marking), Rollback(j, prev, CommitFailedRolledBack, true))
    case Marking => if e.Mark? && e.rev == j.target then Some(Act(j, prev, Marked(e.ok))) else None
    case Marked(ok) =>
      Audited(e, MarkFinished(j.target, ok),
              if ok then Act(j, prev, Advancing(Committed)) else Rollback(j, prev, CommitFailedRolledBack, false),
              Rollback(j, prev, CommitFailedRolledBack, true))
    case Announced7(audited) =>
      Audited(e, ActivationCommitted, Act(j, prev, Clearing(audited)), Act(j, prev, Clearing(false)))
    case Clearing(audited) =>
      if e.Clear? && e.op == j.op
      then Some(Done(j, if !e.ok then CommittedCleanupPending
                     else if audited then CommittedOk else CommittedWithWarning)) else None
    case _ => None
  }

  function StepUndo(j: Job, prev: nat, desired: ActivationStatus, compromised: bool, at: RollStage, e: Effect)
    : Option<Control>
  {
    match at
    case RollAnnouncing =>
      Audited(e, RollbackStarted, Roll(j, prev, desired, compromised, RollValidating),
              Roll(j, prev, desired, true, RollValidating))
    case RollValidating =>
      if e.Validate? && e.rev == prev then Some(Roll(j, prev, desired, compromised, RollValidated(e.ok))) else None
    case RollValidated(ok) =>
      var next := if ok then RollLoading else RollGivingUp;
      Audited(e, ValidationFinished(prev, ok), Roll(j, prev, desired, compromised, next),
              Roll(j, prev, desired, true, next))
    case RollLoading =>
      if e.LoadPf? && e.rev == prev then Some(Roll(j, prev, desired, compromised, RollLoaded(e.ok))) else None
    case RollLoaded(ok) =>
      var next := if ok then RollMarking else RollGivingUp;
      Audited(e, LoadFinished(prev, ok), Roll(j, prev, desired, compromised, next),
              Roll(j, prev, desired, true, next))
    case _ => None
  }

  function StepRestoreMarker(j: Job, prev: nat, desired: ActivationStatus, compromised: bool, at: RollStage, e: Effect)
    : Option<Control>
  {
    match at
    case RollMarking =>
      if e.Mark? && e.rev == prev then Some(Roll(j, prev, desired, compromised, RollMarked(e.ok))) else None
    case RollMarked(ok) =>
      var next := if ok then RollClearing else RollGivingUp;
      Audited(e, MarkFinished(prev, ok), Roll(j, prev, desired, compromised, next),
              Roll(j, prev, desired, true, next))
    case RollGivingUp => Audited(e, RollbackGaveUp, Done(j, RollbackFailed), Done(j, RollbackFailed))
    case _ => None
  }

  function StepFinishUndo(j: Job, prev: nat, desired: ActivationStatus, compromised: bool, at: RollStage, e: Effect)
    : Option<Control>
  {
    match at
    case RollClearing =>
      if e.Clear? && e.op == j.op then Some(Roll(j, prev, desired, compromised, RollCleared(e.ok))) else None
    case RollCleared(ok) =>
      Audited(e, ClearFinished(ok),
              if ok then Roll(j, prev, desired, compromised, RollFinishing) else Done(j, RollbackFailed),
              if ok then Roll(j, prev, desired, true, RollFinishing) else Done(j, RollbackFailed))
    case RollFinishing =>
      Audited(e, RollbackSucceeded, Done(j, if compromised then AuditFailedRolledBack else desired),
              Done(j, AuditFailedRolledBack))
    case _ => None
  }

  function StepCleanup(p: Pending, auditOk: bool, at: RecStage, e: Effect): Option<Control> {
    match at
    case RecAnnouncing =>
      var next := if p.phase == Committed then RecReadingMarker else RecReadingRevision;
      Audited(e, RecoveryStarted, Rec(p, true, next), Rec(p, false, next))
    case RecReadingMarker =>
      if e.ReadMarker? then Some(Rec(p, auditOk, if e.found == Some(p.target) then RecCleaning else RecMismatch))
      else None
    case RecMismatch => Audited(e, RecoveryMarkerMismatch, Recovered(RecoveryFailed), Recovered(RecoveryFailed))
    case RecCleaning => if e.Clear? && e.op == p.op then Some(Rec(p, auditOk, RecCleaned(e.ok))) else None
    case RecCleaned(ok) =>
      Audited(e, ClearFinished(ok),
              if ok then Rec(p, auditOk, RecCleanFinishing) else Recovered(RecoveryFailed),
              if ok then Rec(p, false, RecCleanFinishing) else Recovered(RecoveryFailed))
    case RecCleanFinishing =>
      Audited(e, RecoveryCleanedUp, Recovered(if auditOk then CommittedCleaned else AuditFailedRecovered),
              Recovered(AuditFailedRecovered))
    case _ => None
  }

  function StepRestore(p: Pending, auditOk: bool, at: RecStage, e: Effect): Option<Control> {
    match at
    case RecReadingRevision =>
      if e.ReadRevision? && e.rev == p.rollback
      then Some(Rec(p, auditOk, if e.ok then RecValidating else RecUnavailable)) else None
    case RecUnavailable =>
      Audited(e, RecoveryRevisionUnavailable, Recovered(RecoveryFailed), Recovered(RecoveryFailed))
    case RecValidating =>
      if e.Validate? && e.rev == p.rollback then Some(Rec(p, auditOk, RecValidated(e.ok))) else None
    case RecValidated(ok) =>
      Audited(e, ValidationFinished(p.rollback, ok),
              if ok then Rec(p, auditOk, RecLoading) else Recovered(RecoveryFailed),
              if ok then Rec(p, false, RecLoading) else Recovered(RecoveryFailed))
    case RecLoading =>
      if e.LoadPf? && e.rev == p.rollback then Some(Rec(p, auditOk, RecLoaded(e.ok))) else None
    case RecLoaded(ok) =>
      Audited(e, LoadFinished(p.rollback, ok),
              if ok then Rec(p, auditOk, RecMarking) else Recovered(RecoveryFailed),
              if ok then Rec(p, false, RecMarking) else Recovered(RecoveryFailed))
    case _ => None
  }

  function StepSettle(p: Pending, auditOk: bool, at: RecStage, e: Effect): Option<Control> {
    match at
    case RecMarking =>
      if e.Mark? && e.rev == p.rollback then Some(Rec(p, auditOk, RecMarked(e.ok))) else None
    case RecMarked(ok) =>
      Audited(e, MarkFinished(p.rollback, ok),
              if ok then Rec(p, auditOk, RecClearing) else Recovered(RecoveryFailed),
              if ok then Rec(p, false, RecClearing) else Recovered(RecoveryFailed))
    case RecClearing => if e.Clear? && e.op == p.op then Some(Rec(p, auditOk, RecCleared(e.ok))) else None
    case RecCleared(ok) =>
      Audited(e, ClearFinished(ok),
              if ok then Rec(p, auditOk, RecFinishing) else Recovered(RecoveryFailed),
              if ok then Rec(p, false, RecFinishing) else Recovered(RecoveryFailed))
    case RecFinishing =>
      Audited(e, RecoveryRolledBack, Recovered(if auditOk then RolledBack else AuditFailedRecovered),
              Recovered(AuditFailedRecovered))
    case _ => None
  }

  function StepActivation(j: Job, prev: nat, at: Stage, e: Effect): Option<Control> {
    match at
    case AnnouncingValidation | Validating | Validated(_) | AnnouncingBegin => StepPrepare(j, prev, at, e)
    case Beginning | Begun(_) | ClearingUnaudited | AnnouncingLoad => StepBegin(j, prev, at, e)
    case LoadingTarget | Loaded(_) | AnnouncingProbe(_) | Probing(_) | Probed(_, _) => StepVerify(j, prev, at, e)
    case Advancing(_) | Advanced(_, _) => StepAdvance(j, prev, at, e)
    case AnnouncingConfirmation | Confirming | Confirmed(_) => StepConfirm(j, prev, at, e)
    case AnnouncingCommit | Marking | Marked(_) | Announced7(_) | Clearing(_) => StepCommit(j, prev, at, e)
    case _ => StepAuthorize(j, prev, at, e)
  }

  function StepRollback(j: Job, prev: nat, desired: ActivationStatus, compromised: bool, at: RollStage, e: Effect)
    : Option<Control>
  {
    match at
    case RollAnnouncing | RollValidating | RollValidated(_) | RollLoading | RollLoaded(_) =>
      StepUndo(j, prev, desired, compromised, at, e)
    case RollClearing | RollCleared(_) | RollFinishing => StepFinishUndo(j, prev, desired, compromised, at, e)
    case _ => StepRestoreMarker(j, prev, desired, compromised, at, e)
  }

  function StepRecovery(p: Pending, auditOk: bool, at: RecStage, e: Effect): Option<Control> {
    match at
    case RecAnnouncing | RecReadingMarker | RecMismatch | RecCleaning | RecCleaned(_) | RecCleanFinishing =>
      StepCleanup(p, auditOk, at, e)
    case RecReadingRevision | RecUnavailable | RecValidating | RecValidated(_) | RecLoading | RecLoaded(_) =>
      StepRestore(p, auditOk, at, e)
    case _ => StepSettle(p, auditOk, at, e)
  }

  // The effects the code accepts at a control point, and where each one leads.
  function Step(c: Control, e: Effect): Option<Control> {
    match c
    case Idle => None
    case Act(j, prev, at) =>
      StepActivation(j, prev, at, e)
    case Roll(j, prev, desired, compromised, at) => StepRollback(j, prev, desired, compromised, at, e)
    case Done(_, _) => None
    case Recovering =>
      if !e.LoadRecord? then None
      else
        Some(match e.result
             case NoPendingRecord => Recovered(NoPending)
             case LoadedRecord(p) => Rec(p, true, RecAnnouncing)
             case RecordUnreadable => Recovered(RecoveryFailed))
    case Rec(p, auditOk, at) => StepRecovery(p, auditOk, at, e)
    case Recovered(_) => None
  }

  predicate Resting(c: Control) { c.Idle? || c.Done? || c.Recovered? }

  // Where an activation that passed its argument checks starts.
  function Begins(j: Job): Control { Act(j, 0, Start) }

  datatype Config = Config(w: World, c: Control)

  ghost predicate Accepts(s: Config, e: Effect) { Legal(s.w, e) && Step(s.c, e).Some? }

  ghost function Follow(s: Config, e: Effect): Config
    requires Accepts(s, e)
  {
    Config(Apply(s.w, e), Step(s.c, e).value)
  }

  // The configuration an uninterrupted execution of the effects in `trace` reaches; None if the code or the world
  // does not allow them.
  ghost function Exec(s: Config, trace: seq<Effect>): Option<Config>
    decreases |trace|
  {
    if trace == [] then Some(s)
    else
      var before := Exec(s, trace[..|trace| - 1]);
      var e := trace[|trace| - 1];
      if before.Some? && Accepts(before.value, e) then Some(Follow(before.value, e)) else None
  }
}
