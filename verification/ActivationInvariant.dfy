/**
 What every single step of an activation or a recovery keeps.

 `Holds(w0, w, c, silent)` relates the world at the start of the current operation, the world now and the control
 point.  `silent` records the one outcome the code does not defend against: an advance to `committed` that reported
 failure although the record on disk already says committed.
 */
module ActivationInvariant {
  import opened Basics
  import opened ActivationProtocol

  // Crash safety, as a property of the surviving world alone.
  ghost predicate CrashSafe(w: World) {
    match w.record
    case None => w.marker.Some? ==> w.pf == Known(w.marker.value)
    case Some(r) =>
      && ValidPending(r)
      && (w.marker == Some(r.rollback) || w.marker == Some(r.target))
      && (Rank(r.phase) < Rank(Committing) ==> w.marker == Some(r.rollback))
      && (r.phase == Committed ==> w.pf == Known(r.target) && w.marker == Some(r.target))
  }

  // The value of the register the world stands for: what recovery makes of it.
  ghost function Value(w: World): Option<nat> {
    match w.record
    case None => w.marker
    case Some(r) => Some(if r.phase == Committed then r.target else r.rollback)
  }

  // The world a successful recovery leaves behind.
  ghost function Settle(w: World): World {
    match w.record
    case None => w
    case Some(r) =>
      if r.phase == Committed then w.(record := None) else World(Known(r.rollback), Some(r.rollback), None)
  }

  ghost predicate SilentCommit(e: Effect) { e.Advance? && e.next == Committed && e.applied && !e.ok }

  ghost predicate DurableCommit(e: Effect) { e.Advance? && e.next == Committed && e.applied }

  // The register changes at one kind of step only: the durable advance to `committed`.
  ghost function NextValue(w: World, e: Effect): Option<nat> {
    if DurableCommit(e) && w.record.Some? then Some(w.record.value.target) else Value(w)
  }

  ghost predicate InRecovery(c: Control) { c.Recovering? || c.Rec? || c.Recovered? }

  ghost function Subject(c: Control): Option<Job> {
    match c
    case Act(j, _, _) => Some(j)
    case Roll(j, _, _, _, _) => Some(j)
    case Done(j, _) => Some(j)
    case _ => None
  }

  // What one step keeps besides the invariant: the job it works for and, unless a commit went unreported, the register.
  ghost predicate Keeps(w0: World, w: World, c: Control, e: Effect, c2: Control, silent: bool) {
    && Subject(c2) == Subject(c) && InRecovery(c2) == InRecovery(c) && !c2.Idle?
    && (CrashSafe(w0) && !silent && !SilentCommit(e) ==> Value(Apply(w, e)) == NextValue(w, e))
  }

  // ---------- per control point ----------

  ghost predicate Owner(w0: World, j: Job, prev: nat) {
    && w0.record.None? && w0.marker == Some(prev) && prev > 0 && prev != j.target && j.target > 0
  }

  // The record is this operation's, in phase `ph`.
  ghost predicate Open(w0: World, j: Job, prev: nat, w: World, ph: Phase, pf: Pf, marker: nat) {
    Owner(w0, j, prev) && w == World(pf, Some(marker), Some(Pending(j.op, j.target, prev, ph)))
  }

  function Before(next: Phase): Phase
    requires next != PreparedForLoad
  {
    match next
    case TargetLoaded => PreparedForLoad
    case Verified => TargetLoaded
    case AwaitingConfirmation => Verified
    case Committing => AwaitingConfirmation
    case Committed => Committing
  }

  ghost predicate HoldsPrepare(w0: World, w: World, j: Job, prev: nat, at: Stage) {
    match at
    case Start | Authorizing | Authorized1(_) | ReadingMarker | RejectingNoMarker | RejectingSame => w == w0
    case ReadingTarget | RejectingTarget | AnnouncingValidation | Validating | Validated(_) | AnnouncingBegin
       | Beginning =>
      w == w0 && w0.marker == Some(prev) && prev > 0 && prev != j.target
    case Begun(status) =>
      && w0.marker == Some(prev)
      && (status == Created ==> Open(w0, j, prev, w, PreparedForLoad, w0.pf, prev))
      && (status == Conflict ==> w == w0 && w0.record.Some?)
      && (status == BeginFailed ==> w == w0 || Open(w0, j, prev, w, PreparedForLoad, w0.pf, prev))
    case ClearingUnaudited | AnnouncingLoad | LoadingTarget => Open(w0, j, prev, w, PreparedForLoad, w0.pf, prev)
    case _ => true
  }

  ghost predicate HoldsActivate(w0: World, w: World, j: Job, prev: nat, at: Stage, silent: bool) {
    var t := Known(j.target);
    match at
    case Loaded(ok) => Open(w0, j, prev, w, PreparedForLoad, if ok then t else Unknown, prev)
    case Advancing(next) =>
      && next != PreparedForLoad
      && Open(w0, j, prev, w, Before(next), t, if next == Committed then j.target else prev)
    case Advanced(next, ok) =>
      && next != PreparedForLoad
      && (var m := if next == Committed then j.target else prev;
          || Open(w0, j, prev, w, next, t, m)
          || (!ok && Open(w0, j, prev, w, Before(next), t, m)))
      && (next == Committed && !ok && w.record.value.phase == Committed ==> silent)
    case AnnouncingProbe(i) => i < j.probes && Open(w0, j, prev, w, TargetLoaded, t, prev)
    case Probing(i) => i < j.probes && Open(w0, j, prev, w, TargetLoaded, t, prev)
    case Probed(i, _) => i < j.probes && Open(w0, j, prev, w, TargetLoaded, t, prev)
    case AnnouncingConfirmation | Confirming | Confirmed(_) => Open(w0, j, prev, w, AwaitingConfirmation, t, prev)
    case AnnouncingCommit | Marking => Open(w0, j, prev, w, Committing, t, prev)
    case Marked(ok) =>
      || Open(w0, j, prev, w, Committing, t, j.target)
      || (!ok && Open(w0, j, prev, w, Committing, t, prev))
    case Announced7(_) | Clearing(_) => Open(w0, j, prev, w, Committed, t, j.target)
    case _ => true
  }

  // During a rollback the record is still ours and the marker is old or new.
  ghost predicate Undoing(w0: World, w: World, j: Job, prev: nat, silent: bool) {
    && Owner(w0, j, prev)
    && w.record.Some?
    && (var r := w.record.value;
        && r.op == j.op && r.target == j.target && r.rollback == prev
        && (w.marker == Some(prev) || w.marker == Some(j.target))
        && (Rank(r.phase) < Rank(Committing) ==> w.marker == Some(prev))
        && (r.phase == Committed ==> silent))
  }

  ghost predicate HoldsRollback(w0: World, w: World, j: Job, prev: nat, at: RollStage, silent: bool) {
    match at
    case RollAnnouncing | RollValidating | RollValidated(_) | RollLoading | RollGivingUp =>
      Undoing(w0, w, j, prev, silent)
    case RollLoaded(ok) => Undoing(w0, w, j, prev, silent) && w.pf == if ok then Known(prev) else Unknown
    case RollMarking => Undoing(w0, w, j, prev, silent) && w.pf == Known(prev)
    case RollMarked(ok) => Undoing(w0, w, j, prev, silent) && w.pf == Known(prev) && (ok ==> w.marker == Some(prev))
    case RollClearing => Undoing(w0, w, j, prev, silent) && w.pf == Known(prev) && w.marker == Some(prev)
    case RollCleared(ok) =>
      && Owner(w0, j, prev)
      && (|| w == World(Known(prev), Some(prev), None)
          || (!ok && Undoing(w0, w, j, prev, silent) && w.pf == Known(prev) && w.marker == Some(prev)))
    case RollFinishing => Owner(w0, j, prev) && w == World(Known(prev), Some(prev), None)
  }

  // The statuses the code asks a rollback to report.
  predicate RollbackReason(s: ActivationStatus) {
    || s == ActivationFailed || s == VerificationFailedRolledBack || s == ConfirmationFailedRolledBack
    || s == CommitFailedRolledBack || s == TransactionStoreFailed
  }

  // Statuses after which no record of this operation is left.
  predicate LeavesNoRecord(s: ActivationStatus) {
    match s
    case TransactionStoreFailed | CommittedCleanupPending | AuditFailed | RollbackFailed | TransactionConflict => false
    case _ => true
  }

  // What each final status says about the world.
  ghost predicate Outcome(w0: World, w: World, j: Job, s: ActivationStatus) {
    && (Ok(s) ==>
          && w0.record.None?
          && w.pf == Known(j.target) && w.marker == Some(j.target)
          && (w.record.Some? ==> w.record.value.phase == Committed && w.record.value.target == j.target))
    && (!Ok(s) && s != RollbackFailed ==>
          && w.marker == w0.marker
          && (w.pf == w0.pf || (w0.marker.Some? && w.pf == Known(w0.marker.value))))
    && (s == RollbackFailed ==>
          && w0.marker.Some?
          && (if w.record.Some? then w.record.value.rollback == w0.marker.value
              else w.pf == Known(w0.marker.value) && w.marker == w0.marker))
    && (LeavesNoRecord(s) ==> w.record == None || w.record == w0.record)
    && (s == TransactionConflict ==> w0.record.Some?)
  }

  ghost predicate HoldsRecovery(w0: World, w: World, p: Pending, at: RecStage) {
    && w0.record == Some(p)
    && (match at
        case RecAnnouncing => w == w0
        case RecReadingMarker | RecMismatch | RecCleaning => w == w0 && p.phase == Committed
        case RecCleaned(ok) => p.phase == Committed && (w == w0.(record := None) || (!ok && w == w0))
        case RecCleanFinishing => p.phase == Committed && w == w0.(record := None)
        case RecReadingRevision | RecUnavailable | RecValidating | RecValidated(_) | RecLoading =>
          w == w0 && p.phase != Committed
        case RecLoaded(ok) => p.phase != Committed && w == w0.(pf := if ok then Known(p.rollback) else Unknown)
        case RecMarking => p.phase != Committed && w == w0.(pf := Known(p.rollback))
        case RecMarked(ok) =>
          p.phase != Committed &&
          (w == w0.(pf := Known(p.rollback), marker := Some(p.rollback))
           || (!ok && w == w0.(pf := Known(p.rollback))))
        case RecClearing => p.phase != Committed && w == w0.(pf := Known(p.rollback), marker := Some(p.rollback))
        case RecCleared(ok) =>
          p.phase != Committed &&
          (w == World(Known(p.rollback), Some(p.rollback), None)
           || (!ok && w == w0.(pf := Known(p.rollback), marker := Some(p.rollback))))
        case RecFinishing => p.phase != Committed && w == World(Known(p.rollback), Some(p.rollback), None))
  }

  // A successful recovery has settled the world; a failed one has not changed what it will settle to.
  ghost predicate RecoveryOutcome(w0: World, w: World, s: RecoveryStatus) {
    && Settle(w) == Settle(w0)
    && (RecoveryOk(s) ==> w == Settle(w0))
  }

  ghost predicate Holds(w0: World, w: World, c: Control, silent: bool) {
    match c
    case Idle => CrashSafe(w0) && !silent ==> CrashSafe(w)
    case Act(j, prev, at) =>
      ValidJob(j) && HoldsPrepare(w0, w, j, prev, at) && HoldsActivate(w0, w, j, prev, at, silent)
    case Roll(j, prev, desired, _, at) =>
      && ValidJob(j) && HoldsRollback(w0, w, j, prev, at, silent)
      && RollbackReason(desired)
    case Done(j, s) => Outcome(w0, w, j, s) && (CrashSafe(w0) && !silent ==> CrashSafe(w))
    case Recovering => w == w0
    case Rec(p, _, at) => HoldsRecovery(w0, w, p, at)
    case Recovered(s) =>
      RecoveryOutcome(w0, w, s) && (CrashSafe(w0) ==> CrashSafe(w))
  }

  // ---------- preservation, part by part ----------

  lemma AuthorizeStep(w0: World, w: World, j: Job, prev: nat, at: Stage, e: Effect, c: Control, silent: bool)
    requires Holds(w0, w, Act(j, prev, at), silent) && Legal(w, e) && StepAuthorize(j, prev, at, e) == Some(c)
    ensures Holds(w0, Apply(w, e), c, silent || SilentCommit(e))
    ensures Keeps(w0, w, Act(j, prev, at), e, c, silent)
  {
    hide HoldsRollback, HoldsRecovery, Settle, Undoing;
  }

  lemma PrepareStep(w0: World, w: World, j: Job, prev: nat, at: Stage, e: Effect, c: Control, silent: bool)
    requires Holds(w0, w, Act(j, prev, at), silent) && Legal(w, e) && StepPrepare(j, prev, at, e) == Some(c)
    ensures Holds(w0, Apply(w, e), c, silent || SilentCommit(e))
    ensures Keeps(w0, w, Act(j, prev, at), e, c, silent)
  {
    hide HoldsRollback, HoldsRecovery, Settle, Undoing;
  }

  lemma BeginStep(w0: World, w: World, j: Job, prev: nat, at: Stage, e: Effect, c: Control, silent: bool)
    requires Holds(w0, w, Act(j, prev, at), silent) && Legal(w, e) && StepBegin(j, prev, at, e) == Some(c)
    ensures Holds(w0, Apply(w, e), c, silent || SilentCommit(e))
    ensures Keeps(w0, w, Act(j, prev, at), e, c, silent)
  {
    hide HoldsRollback, HoldsRecovery, Settle, Undoing;
  }

  lemma VerifyStep(w0: World, w: World, j: Job, prev: nat, at: Stage, e: Effect, c: Control, silent: bool)
    requires Holds(w0, w, Act(j, prev, at), silent) && Legal(w, e) && StepVerify(j, prev, at, e) == Some(c)
    ensures Holds(w0, Apply(w, e), c, silent || SilentCommit(e))
    ensures Keeps(w0, w, Act(j, prev, at), e, c, silent)
  {
    hide HoldsRecovery, Settle, Outcome;
  }

  lemma RecordPhase(w0: World, w: World, j: Job, prev: nat, at: Stage, e: Effect, c: Control, silent: bool)
    requires Holds(w0, w, Act(j, prev, at), silent) && Legal(w, e) && StepAdvance(j, prev, at, e) == Some(c)
    requires at.Advancing?
    ensures Holds(w0, Apply(w, e), c, silent || SilentCommit(e))
    ensures Keeps(w0, w, Act(j, prev, at), e, c, silent)
  {
    hide HoldsRecovery, Settle, Outcome;
  }

  lemma AuditPhase(w0: World, w: World, j: Job, prev: nat, at: Stage, e: Effect, c: Control, silent: bool)
    requires Holds(w0, w, Act(j, prev, at), silent) && Legal(w, e) && StepAdvance(j, prev, at, e) == Some(c)
    requires at.Advanced? && at.next != Committed
    ensures Holds(w0, Apply(w, e), c, silent || SilentCommit(e))
    ensures Keeps(w0, w, Act(j, prev, at), e, c, silent)
  {
    hide HoldsRecovery, Settle, Outcome;
  }

  lemma AuditCommit(w0: World, w: World, j: Job, prev: nat, at: Stage, e: Effect, c: Control, silent: bool)
    requires Holds(w0, w, Act(j, prev, at), silent) && Legal(w, e) && StepAdvance(j, prev, at, e) == Some(c)
    requires at.Advanced? && at.next == Committed
    ensures Holds(w0, Apply(w, e), c, silent || SilentCommit(e))
    ensures Keeps(w0, w, Act(j, prev, at), e, c, silent)
  {
    hide HoldsRecovery, Settle, Outcome;
  }

  lemma AdvanceStep(w0: World, w: World, j: Job, prev: nat, at: Stage, e: Effect, c: Control, silent: bool)
    requires Holds(w0, w, Act(j, prev, at), silent) && Legal(w, e) && StepAdvance(j, prev, at, e) == Some(c)
    ensures Holds(w0, Apply(w, e), c, silent || SilentCommit(e))
    ensures Keeps(w0, w, Act(j, prev, at), e, c, silent)
  {
    hide Holds, Keeps, Legal, Apply;
    if at.Advancing? {
      RecordPhase(w0, w, j, prev, at, e, c, silent);
    } else if at.next == Committed {
      AuditCommit(w0, w, j, prev, at, e, c, silent);
    } else {
      AuditPhase(w0, w, j, prev, at, e, c, silent);
    }
  }

  lemma ConfirmStep(w0: World, w: World, j: Job, prev: nat, at: Stage, e: Effect, c: Control, silent: bool)
    requires Holds(w0, w, Act(j, prev, at), silent) && Legal(w, e) && StepConfirm(j, prev, at, e) == Some(c)
    ensures Holds(w0, Apply(w, e), c, silent || SilentCommit(e))
    ensures Keeps(w0, w, Act(j, prev, at), e, c, silent)
  {
    hide HoldsRecovery, Settle, Outcome;
  }

  lemma MarkStep(w0: World, w: World, j: Job, prev: nat, at: Stage, e: Effect, c: Control, silent: bool)
    requires Holds(w0, w, Act(j, prev, at), silent) && Legal(w, e) && StepCommit(j, prev, at, e) == Some(c)
    requires at.AnnouncingCommit? || at.Marking? || at.Marked?
    ensures Holds(w0, Apply(w, e), c, silent || SilentCommit(e))
    ensures Keeps(w0, w, Act(j, prev, at), e, c, silent)
  {
    hide HoldsRecovery, Settle;
  }

  lemma FinishStep(w0: World, w: World, j: Job, prev: nat, at: Stage, e: Effect, c: Control, silent: bool)
    requires Holds(w0, w, Act(j, prev, at), silent) && Legal(w, e) && StepCommit(j, prev, at, e) == Some(c)
    requires at.Announced7? || at.Clearing?
    ensures Holds(w0, Apply(w, e), c, silent || SilentCommit(e))
    ensures Keeps(w0, w, Act(j, prev, at), e, c, silent)
  {
    hide HoldsRecovery, Settle;
  }

  lemma CommitStep(w0: World, w: World, j: Job, prev: nat, at: Stage, e: Effect, c: Control, silent: bool)
    requires Holds(w0, w, Act(j, prev, at), silent) && Legal(w, e) && StepCommit(j, prev, at, e) == Some(c)
    ensures Holds(w0, Apply(w, e), c, silent || SilentCommit(e))
    ensures Keeps(w0, w, Act(j, prev, at), e, c, silent)
  {
    hide Holds, Keeps, Legal, Apply;
    if at.AnnouncingCommit? || at.Marking? || at.Marked? {
      MarkStep(w0, w, j, prev, at, e, c, silent);
    } else {
      FinishStep(w0, w, j, prev, at, e, c, silent);
    }
  }

  lemma UndoAnnounce(w0: World, w: World, j: Job, prev: nat, d: ActivationStatus, m: bool, at: RollStage, e: Effect,
                c: Control, silent: bool)
    requires Holds(w0, w, Roll(j, prev, d, m, at), silent) && Legal(w, e)
    requires StepUndo(j, prev, d, m, at, e) == Some(c)
    requires at.RollAnnouncing?
    ensures Holds(w0, Apply(w, e), c, silent || SilentCommit(e))
    ensures Keeps(w0, w, Roll(j, prev, d, m, at), e, c, silent)
  {
    hide HoldsPrepare, HoldsActivate, HoldsRecovery, Settle, Outcome;
  }

  lemma UndoValidation(w0: World, w: World, j: Job, prev: nat, d: ActivationStatus, m: bool, at: RollStage, e: Effect,
                c: Control, silent: bool)
    requires Holds(w0, w, Roll(j, prev, d, m, at), silent) && Legal(w, e)
    requires StepUndo(j, prev, d, m, at, e) == Some(c)
    requires at.RollValidating? || at.RollValidated?
    ensures Holds(w0, Apply(w, e), c, silent || SilentCommit(e))
    ensures Keeps(w0, w, Roll(j, prev, d, m, at), e, c, silent)
  {
    hide HoldsPrepare, HoldsActivate, HoldsRecovery, Settle, Outcome;
  }

  lemma UndoLoad(w0: World, w: World, j: Job, prev: nat, d: ActivationStatus, m: bool, at: RollStage, e: Effect,
                c: Control, silent: bool)
    requires Holds(w0, w, Roll(j, prev, d, m, at), silent) && Legal(w, e)
    requires StepUndo(j, prev, d, m, at, e) == Some(c)
    requires at.RollLoading? || at.RollLoaded?
    ensures Holds(w0, Apply(w, e), c, silent || SilentCommit(e))
    ensures Keeps(w0, w, Roll(j, prev, d, m, at), e, c, silent)
  {
    hide HoldsPrepare, HoldsActivate, HoldsRecovery, Settle, Outcome;
  }

  lemma UndoStep(w0: World, w: World, j: Job, prev: nat, d: ActivationStatus, m: bool, at: RollStage, e: Effect,
                c: Control, silent: bool)
    requires Holds(w0, w, Roll(j, prev, d, m, at), silent) && Legal(w, e)
    requires StepUndo(j, prev, d, m, at, e) == Some(c)
    ensures Holds(w0, Apply(w, e), c, silent || SilentCommit(e))
    ensures Keeps(w0, w, Roll(j, prev, d, m, at), e, c, silent)
  {
    hide Holds, Keeps, Legal, Apply;
    if at.RollLoading? || at.RollLoaded? {
      UndoLoad(w0, w, j, prev, d, m, at, e, c, silent);
    } else if at.RollAnnouncing? {
      UndoAnnounce(w0, w, j, prev, d, m, at, e, c, silent);
    } else {
      UndoValidation(w0, w, j, prev, d, m, at, e, c, silent);
    }
  }

  lemma RestoreMarkerStep(w0: World, w: World, j: Job, prev: nat, d: ActivationStatus, m: bool, at: RollStage,
                          e: Effect, c: Control, silent: bool)
    requires Holds(w0, w, Roll(j, prev, d, m, at), silent) && Legal(w, e)
    requires StepRestoreMarker(j, prev, d, m, at, e) == Some(c)
    ensures Holds(w0, Apply(w, e), c, silent || SilentCommit(e))
    ensures Keeps(w0, w, Roll(j, prev, d, m, at), e, c, silent)
  {
    hide HoldsPrepare, HoldsActivate, HoldsRecovery, Settle;
  }

  lemma ClearUndone(w0: World, w: World, j: Job, prev: nat, d: ActivationStatus, m: bool, at: RollStage, e: Effect,
                c: Control, silent: bool)
    requires Holds(w0, w, Roll(j, prev, d, m, at), silent) && Legal(w, e)
    requires StepFinishUndo(j, prev, d, m, at, e) == Some(c)
    requires at.RollClearing? || at.RollCleared?
    ensures Holds(w0, Apply(w, e), c, silent || SilentCommit(e))
    ensures Keeps(w0, w, Roll(j, prev, d, m, at), e, c, silent)
  {
    hide HoldsPrepare, HoldsActivate, HoldsRecovery, Settle;
  }

  lemma ReportUndone(w0: World, w: World, j: Job, prev: nat, d: ActivationStatus, m: bool, at: RollStage, e: Effect,
                c: Control, silent: bool)
    requires Holds(w0, w, Roll(j, prev, d, m, at), silent) && Legal(w, e)
    requires StepFinishUndo(j, prev, d, m, at, e) == Some(c)
    requires !at.RollClearing? && !at.RollCleared?
    ensures Holds(w0, Apply(w, e), c, silent || SilentCommit(e))
    ensures Keeps(w0, w, Roll(j, prev, d, m, at), e, c, silent)
  {
    hide HoldsPrepare, HoldsActivate, HoldsRecovery, Settle;
  }

  lemma FinishUndoStep(w0: World, w: World, j: Job, prev: nat, d: ActivationStatus, m: bool, at: RollStage, e: Effect,
                c: Control, silent: bool)
    requires Holds(w0, w, Roll(j, prev, d, m, at), silent) && Legal(w, e)
    requires StepFinishUndo(j, prev, d, m, at, e) == Some(c)
    ensures Holds(w0, Apply(w, e), c, silent || SilentCommit(e))
    ensures Keeps(w0, w, Roll(j, prev, d, m, at), e, c, silent)
  {
    hide Holds, Keeps, Legal, Apply;
    if at.RollClearing? || at.RollCleared? {
      ClearUndone(w0, w, j, prev, d, m, at, e, c, silent);
    } else {
      ReportUndone(w0, w, j, prev, d, m, at, e, c, silent);
    }
  }

  lemma CleanupStep(w0: World, w: World, p: Pending, a: bool, at: RecStage, e: Effect, c: Control, silent: bool)
    requires Holds(w0, w, Rec(p, a, at), silent) && Legal(w, e) && StepCleanup(p, a, at, e) == Some(c)
    ensures Holds(w0, Apply(w, e), c, silent || SilentCommit(e))
    ensures Keeps(w0, w, Rec(p, a, at), e, c, silent)
  {
    hide HoldsPrepare, HoldsActivate, HoldsRollback, Outcome, Undoing, Open;
  }

  lemma RestoreStep(w0: World, w: World, p: Pending, a: bool, at: RecStage, e: Effect, c: Control, silent: bool)
    requires Holds(w0, w, Rec(p, a, at), silent) && Legal(w, e) && StepRestore(p, a, at, e) == Some(c)
    ensures Holds(w0, Apply(w, e), c, silent || SilentCommit(e))
    ensures Keeps(w0, w, Rec(p, a, at), e, c, silent)
  {
    hide HoldsPrepare, HoldsActivate, HoldsRollback, Outcome, Undoing, Open;
  }

  lemma SettleStep(w0: World, w: World, p: Pending, a: bool, at: RecStage, e: Effect, c: Control, silent: bool)
    requires Holds(w0, w, Rec(p, a, at), silent) && Legal(w, e) && StepSettle(p, a, at, e) == Some(c)
    ensures Holds(w0, Apply(w, e), c, silent || SilentCommit(e))
    ensures Keeps(w0, w, Rec(p, a, at), e, c, silent)
  {
    hide HoldsPrepare, HoldsActivate, HoldsRollback, Outcome, Undoing, Open;
  }

  lemma ActivationStep(w0: World, w: World, j: Job, prev: nat, at: Stage, e: Effect, c: Control, silent: bool)
    requires Holds(w0, w, Act(j, prev, at), silent) && Legal(w, e) && StepActivation(j, prev, at, e) == Some(c)
    ensures Holds(w0, Apply(w, e), c, silent || SilentCommit(e))
    ensures Keeps(w0, w, Act(j, prev, at), e, c, silent)
  {
    if StepAuthorize(j, prev, at, e) == Some(c) {
      AuthorizeStep(w0, w, j, prev, at, e, c, silent);
    } else if StepPrepare(j, prev, at, e) == Some(c) {
      PrepareStep(w0, w, j, prev, at, e, c, silent);
    } else if StepBegin(j, prev, at, e) == Some(c) {
      BeginStep(w0, w, j, prev, at, e, c, silent);
    } else if StepVerify(j, prev, at, e) == Some(c) {
      VerifyStep(w0, w, j, prev, at, e, c, silent);
    } else if StepAdvance(j, prev, at, e) == Some(c) {
      AdvanceStep(w0, w, j, prev, at, e, c, silent);
    } else if StepConfirm(j, prev, at, e) == Some(c) {
      ConfirmStep(w0, w, j, prev, at, e, c, silent);
    } else {
      CommitStep(w0, w, j, prev, at, e, c, silent);
    }
  }

  lemma RollbackStep(w0: World, w: World, j: Job, prev: nat, d: ActivationStatus, m: bool, at: RollStage, e: Effect,
                     c: Control, silent: bool)
    requires Holds(w0, w, Roll(j, prev, d, m, at), silent) && Legal(w, e)
    requires StepRollback(j, prev, d, m, at, e) == Some(c)
    ensures Holds(w0, Apply(w, e), c, silent || SilentCommit(e))
    ensures Keeps(w0, w, Roll(j, prev, d, m, at), e, c, silent)
  {
    if StepUndo(j, prev, d, m, at, e) == Some(c) {
      UndoStep(w0, w, j, prev, d, m, at, e, c, silent);
    } else if StepFinishUndo(j, prev, d, m, at, e) == Some(c) {
      FinishUndoStep(w0, w, j, prev, d, m, at, e, c, silent);
    } else {
      RestoreMarkerStep(w0, w, j, prev, d, m, at, e, c, silent);
    }
  }

  lemma RecoveryStep(w0: World, w: World, p: Pending, a: bool, at: RecStage, e: Effect, c: Control, silent: bool)
    requires Holds(w0, w, Rec(p, a, at), silent) && Legal(w, e) && StepRecovery(p, a, at, e) == Some(c)
    ensures Holds(w0, Apply(w, e), c, silent || SilentCommit(e))
    ensures Keeps(w0, w, Rec(p, a, at), e, c, silent)
  {
    if StepCleanup(p, a, at, e) == Some(c) {
      CleanupStep(w0, w, p, a, at, e, c, silent);
    } else if StepRestore(p, a, at, e) == Some(c) {
      RestoreStep(w0, w, p, a, at, e, c, silent);
    } else {
      SettleStep(w0, w, p, a, at, e, c, silent);
    }
  }

  // Every step of the code keeps the invariant.
  lemma StepHolds(w0: World, w: World, c: Control, e: Effect, c2: Control, silent: bool)
    requires Holds(w0, w, c, silent) && Legal(w, e) && Step(c, e) == Some(c2)
    ensures Holds(w0, Apply(w, e), c2, silent || SilentCommit(e))
    ensures Keeps(w0, w, c, e, c2, silent)
  {
    match c
    case Act(j, prev, at) => ActivationStep(w0, w, j, prev, at, e, c2, silent);
    case Roll(j, prev, d, m, at) => RollbackStep(w0, w, j, prev, d, m, at, e, c2, silent);
    case Rec(p, a, at) => RecoveryStep(w0, w, p, a, at, e, c2, silent);
    case _ =>
  }
}
