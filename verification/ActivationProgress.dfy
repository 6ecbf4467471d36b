/**
 Activations end: each has a bounded number of effects and is never stuck, and a rollback whose validator, loader and
 stores work restores the previous revision, whatever happens to the audit journal.
 */
module ActivationProgress {
  import opened Basics
  import opened ActivationProtocol
  import opened ActivationInvariant
  import opened ActivationTheorems
  import opened RecoveryTheorems
  import opened GatingTheorems
  import opened CommitTheorem

  // ---------- a bound ----------

  // The effects a rollback still has to come, at most.
  function RollbackLeft(at: RollStage): nat {
    match at
    case RollAnnouncing => 10
    case RollValidating => 9
    case RollValidated(_) => 8
    case RollLoading => 7
    case RollLoaded(_) => 6
    case RollMarking => 5
    case RollMarked(_) => 4
    case RollClearing => 3
    case RollCleared(_) => 2
    case RollGivingUp | RollFinishing => 1
  }

  // An upper bound on the effects still to come: what is left on the way to the commit, and a rollback.
  function EffectsLeft(c: Control): int {
    match c
    case Act(j, _, at) => Left(j, at) + 10
    case Roll(_, _, _, _, at) => RollbackLeft(at)
    case _ => 0
  }

  ghost predicate Shrinks(c: Control, c2: Control) { 0 <= EffectsLeft(c2) < EffectsLeft(c) }

  lemma EarlyShrinks(w0: World, w: World, j: Job, prev: nat, at: Stage, silent: bool, e: Effect, c: Control)
    requires Holds(w0, w, Act(j, prev, at), silent)
    requires StepAuthorize(j, prev, at, e) == Some(c) || StepPrepare(j, prev, at, e) == Some(c)
          || StepBegin(j, prev, at, e) == Some(c)
    ensures Shrinks(Act(j, prev, at), c)
  {
    hide HoldsPrepare, HoldsActivate;
  }

  lemma VerifyShrinks(w0: World, w: World, j: Job, prev: nat, at: Stage, silent: bool, e: Effect, c: Control)
    requires Holds(w0, w, Act(j, prev, at), silent) && StepVerify(j, prev, at, e) == Some(c)
    ensures Shrinks(Act(j, prev, at), c)
  {
    hide HoldsPrepare, Open;
  }

  lemma AdvanceShrinks(w0: World, w: World, j: Job, prev: nat, at: Stage, silent: bool, e: Effect, c: Control)
    requires Holds(w0, w, Act(j, prev, at), silent) && StepAdvance(j, prev, at, e) == Some(c)
    ensures Shrinks(Act(j, prev, at), c)
  {
    hide HoldsPrepare, Open;
  }

  lemma LateShrinks(j: Job, prev: nat, at: Stage, e: Effect, c: Control)
    requires StepConfirm(j, prev, at, e) == Some(c) || StepCommit(j, prev, at, e) == Some(c)
    ensures Shrinks(Act(j, prev, at), c)
  {}

  lemma UndoShrinks(j: Job, prev: nat, d: ActivationStatus, m: bool, at: RollStage, e: Effect, c: Control)
    requires StepUndo(j, prev, d, m, at, e) == Some(c)
    ensures Shrinks(Roll(j, prev, d, m, at), c)
  {}

  lemma RestoreShrinks(j: Job, prev: nat, d: ActivationStatus, m: bool, at: RollStage, e: Effect, c: Control)
    requires StepRestoreMarker(j, prev, d, m, at, e) == Some(c) || StepFinishUndo(j, prev, d, m, at, e) == Some(c)
    ensures Shrinks(Roll(j, prev, d, m, at), c)
  {}

  lemma RollbackShrinks(j: Job, prev: nat, d: ActivationStatus, m: bool, at: RollStage, e: Effect, c: Control)
    requires StepRollback(j, prev, d, m, at, e) == Some(c)
    ensures Shrinks(Roll(j, prev, d, m, at), c)
  {
    hide Shrinks;
    if StepUndo(j, prev, d, m, at, e) == Some(c) {
      UndoShrinks(j, prev, d, m, at, e, c);
    } else {
      RestoreShrinks(j, prev, d, m, at, e, c);
    }
  }

  lemma StepShrinks(w0: World, w: World, c: Control, silent: bool, e: Effect, c2: Control)
    requires Holds(w0, w, c, silent) && Step(c, e) == Some(c2) && (c.Act? || c.Roll?)
    ensures Shrinks(c, c2)
  {
    hide Holds, Shrinks;
    match c
    case Act(j, prev, at) =>
      if StepVerify(j, prev, at, e) == Some(c2) {
        VerifyShrinks(w0, w, j, prev, at, silent, e, c2);
      } else if StepAdvance(j, prev, at, e) == Some(c2) {
        AdvanceShrinks(w0, w, j, prev, at, silent, e, c2);
      } else if StepConfirm(j, prev, at, e) == Some(c2) || StepCommit(j, prev, at, e) == Some(c2) {
        LateShrinks(j, prev, at, e, c2);
      } else {
        EarlyShrinks(w0, w, j, prev, at, silent, e, c2);
      }
    case Roll(j, prev, d, m, at) => RollbackShrinks(j, prev, d, m, at, e, c2);
  }

  lemma BeginningLeft(j: Job)
    ensures EffectsLeft(Begins(j)) == 46 + 3 * j.probes
  {}

  /** An activation has at most 46 effects and three for each probe, rollback included. */
  lemma {:induction false} ActivationIsBounded(w0: World, j: Job, trace: seq<Effect>, s: Config)
    requires ValidJob(j) && Exec(Config(w0, Begins(j)), trace) == Some(s)
    ensures 0 <= EffectsLeft(s.c)
    ensures |trace| + EffectsLeft(s.c) <= 46 + 3 * j.probes
    decreases |trace|
  {
    hide Holds, Legal, Apply, Step, EffectsLeft;
    BeginHolds(w0, j);
    if trace == [] {
      BeginningLeft(j);
    } else {
      var s0 := Config(w0, Begins(j));
      var n := |trace| - 1;
      var before := Exec(s0, trace[..n]).value;
      ActivationIsBounded(w0, j, trace[..n], before);
      ExecHolds(s0, trace[..n], before);
      SubjectRuns(before.c, trace[n]);
      StepShrinks(w0, before.w, before.c, Silent(trace[..n]), trace[n], s.c);
    }
  }

  // ---------- never stuck ----------

  function FailingActivation(j: Job, prev: nat, at: Stage): Effect {
    match at
    case Start => Append(ActivationStarted, false)
    case Authorizing => Authorize(Unavailable)
    case Authorized1(a) => Append(AuthorizationChecked(a), false)
    case ReadingMarker => ReadMarker(None)
    case RejectingNoMarker => Append(NoLastKnownGood, false)
    case RejectingSame => Append(AlreadyLastKnownGood, false)
    case ReadingTarget => ReadRevision(j.target, false)
    case RejectingTarget => Append(TargetUnavailableEvent, false)
    case AnnouncingValidation => Append(RevalidationStarted, false)
    case Validating => Validate(j.target, false)
    case Validated(ok) => Append(ValidationFinished(j.target, ok), false)
    case AnnouncingBegin => Append(BeginStarted, false)
    case Beginning => Begin(Pending(j.op, j.target, prev, PreparedForLoad), BeginFailed, false)
    case Begun(status) => Append(BeginFinished(status), false)
    case AnnouncingLoad => Append(LoadIntent, false)
    case LoadingTarget => LoadPf(j.target, false)
    case Loaded(ok) => Append(LoadFinished(j.target, ok), false)
    case Advancing(next) => Advance(j.op, next, false, false)
    case Advanced(next, ok) => Append(AdvanceFinished(next, ok), false)
    case AnnouncingProbe(i) => Append(ProbeStarted(i), false)
    case Probing(i) => RunProbe(i, false)
    case Probed(i, ok) => Append(ProbeFinished(i, ok), false)
    case AnnouncingConfirmation => Append(ConfirmationPending, false)
    case Confirming => Confirm(false)
    case Confirmed(ok) => Append(ConfirmationFinished(ok), false)
    case AnnouncingCommit => Append(CommitStarted, false)
    case Marking => Mark(j.target, false, false)
    case Marked(ok) => Append(MarkFinished(j.target, ok), false)
    case Announced7(_) => Append(ActivationCommitted, false)
    case ClearingUnaudited | Clearing(_) => Clear(j.op, false, false)
  }

  function FailingRollback(j: Job, prev: nat, at: RollStage): Effect {
    match at
    case RollAnnouncing => Append(RollbackStarted, false)
    case RollValidating => Validate(prev, false)
    case RollValidated(ok) => Append(ValidationFinished(prev, ok), false)
    case RollLoading => LoadPf(prev, false)
    case RollLoaded(ok) => Append(LoadFinished(prev, ok), false)
    case RollMarking => Mark(prev, false, false)
    case RollMarked(ok) => Append(MarkFinished(prev, ok), false)
    case RollGivingUp => Append(RollbackGaveUp, false)
    case RollClearing => Clear(j.op, false, false)
    case RollCleared(ok) => Append(ClearFinished(ok), false)
    case RollFinishing => Append(RollbackSucceeded, false)
  }

  // The outcome of the effect due in which it fails and leaves no trace.
  function Failing(c: Control): Effect
    requires c.Act? || c.Roll?
  {
    match c
    case Act(j, prev, at) => FailingActivation(j, prev, at)
    case Roll(j, prev, _, _, at) => FailingRollback(j, prev, at)
  }

  lemma ActivationNeverStuckAt(w: World, j: Job, prev: nat, at: Stage)
    ensures Legal(w, FailingActivation(j, prev, at))
    ensures StepActivation(j, prev, at, FailingActivation(j, prev, at)).Some?
  {
    hide StepRollback, StepRecovery;
  }

  /** A running activation or rollback always has a next effect: whatever the world, the code accepts that the effect
      due fails. */
  lemma ActivationNeverStuck(w: World, c: Control)
    requires c.Act? || c.Roll?
    ensures Accepts(Config(w, c), Failing(c))
  {
    match c
    case Act(j, prev, at) => ActivationNeverStuckAt(w, j, prev, at);
    case Roll(j, prev, d, m, at) =>
  }

  /** So every activation can be brought to an end from wherever it has got to, with the status that is then due. */
  lemma {:induction false} ActivationCanEnd(w0: World, j: Job, trace: seq<Effect>, s: Config)
    returns (full: seq<Effect>, s2: Config)
    requires ValidJob(j) && Exec(Config(w0, Begins(j)), trace) == Some(s)
    ensures trace <= full && Exec(Config(w0, Begins(j)), full) == Some(s2)
    ensures s2.c.Done? && s2.c.job == j
    decreases 46 + 3 * j.probes - |trace|
  {
    hide Holds, Legal, Apply, Step, EffectsLeft, Accepts, Follow, Failing;
    var s0 := Config(w0, Begins(j));
    BeginHolds(w0, j);
    ExecHolds(s0, trace, s);
    if s.c.Done? { return trace, s; }
    ActivationNeverStuck(s.w, s.c);
    var e := Failing(s.c);
    ExecSnoc(s0, trace, e);
    ActivationIsBounded(w0, j, trace + [e], Follow(s, e));
    full, s2 := ActivationCanEnd(w0, j, trace + [e], Follow(s, e));
  }

  // ---------- rollback restores ----------

  // The rollback has met no failure: it is on its way to the previous revision, or has ended there.
  ghost predicate Restoring(prev: nat, d: ActivationStatus, s: Config) {
    match s.c
    case Roll(_, p, desired, _, at) =>
      && p == prev && desired == d
      && (match at
          case RollValidated(ok) => ok
          case RollLoaded(ok) => ok
          case RollMarked(ok) => ok
          case RollCleared(ok) => ok
          case RollGivingUp => false
          case _ => true)
    case Done(_, status) => (status == d || status == AuditFailedRolledBack) && Clean(s.w, prev)
    case _ => false
  }

  lemma UndoRestores(w0: World, s: Config, silent: bool, prev: nat, d: ActivationStatus, e: Effect)
    requires Holds(w0, s.w, s.c, silent) && Restoring(prev, d, s) && Accepts(s, e) && Works(s.w, e)
    ensures Restoring(prev, d, Follow(s, e))
  {
    hide HoldsPrepare, HoldsActivate, HoldsRecovery, StepActivation, StepRecovery, Undoing;
  }

  lemma RollbackLeftIsNatural(c: Control)
    requires c.Roll?
    ensures 1 <= EffectsLeft(c) <= 10
  {}

  lemma RestoringStays(prev: nat, d: ActivationStatus, s: Config, e: Effect)
    requires Restoring(prev, d, s) && Accepts(s, e)
    ensures s.c.Roll?
  {}

  lemma {:induction false} RollbackProgresses(w0: World, s0: Config, silent: bool, prev: nat, d: ActivationStatus,
                                              trace: seq<Effect>, s: Config) returns (later: bool)
    requires Holds(w0, s0.w, s0.c, silent) && s0.c.Roll? && Restoring(prev, d, s0)
    requires Exec(s0, trace) == Some(s) && StorageWorks(s0, trace)
    ensures Restoring(prev, d, s) && Holds(w0, s.w, s.c, later) && Subject(s.c) == Subject(s0.c)
    ensures 0 <= EffectsLeft(s.c) && |trace| + EffectsLeft(s.c) <= EffectsLeft(s0.c)
    decreases |trace|
  {
    hide Holds, Legal, Apply, Step, Works, Restoring, EffectsLeft, SilentCommit, Subject;
    if trace == [] {
      RollbackLeftIsNatural(s0.c);
      return silent;
    }
    var n := |trace| - 1;
    var before := Exec(s0, trace[..n]).value;
    var sofar := RollbackProgresses(w0, s0, silent, prev, d, trace[..n], before);
    RestoringStays(prev, d, before, trace[n]);
    UndoRestores(w0, before, sofar, prev, d, trace[n]);
    StepHolds(w0, before.w, before.c, trace[n], s.c, sofar);
    StepShrinks(w0, before.w, before.c, sofar, trace[n], s.c);
    later := sofar || SilentCommit(trace[n]);
  }

  // The rollback closure is entered with the known-good revision of the activation's start.
  lemma RollbackBegins(w0: World, j: Job, s: Config, silent: bool)
    requires Holds(w0, s.w, s.c, silent) && Subject(s.c) == Some(j) && s.c.Roll? && s.c.rollAt.RollAnnouncing?
    ensures w0.marker == Some(s.c.prev) && Restoring(s.c.prev, s.c.desired, s) && RollbackReason(s.c.desired)
  {}

  /** A rollback in which validator, loader and stores work never reports failure, whatever happens to the journal: it
      ends with the status it was asked for, or with a failed audit, and with PF and marker at the previous revision
      and nothing pending. */
  lemma RollbackConverges(w0: World, j: Job, before: seq<Effect>, s: Config, after: seq<Effect>, w: World, j2: Job,
                          status: ActivationStatus)
    requires ValidJob(j) && Exec(Config(w0, Begins(j)), before) == Some(s)
    requires s.c.Roll? && s.c.rollAt.RollAnnouncing?
    requires Exec(s, after) == Some(Config(w, Done(j2, status))) && StorageWorks(s, after)
    ensures w0.marker.Some? && Clean(w, w0.marker.value)
    ensures status != RollbackFailed && (status == s.c.desired || status == AuditFailedRolledBack)
    ensures |after| <= 10
  {
    BeginHolds(w0, j);
    ExecHolds(Config(w0, Begins(j)), before, s);
    RollbackBegins(w0, j, s, Silent(before));
    RollbackLeftIsNatural(s.c);
    var _ := RollbackProgresses(w0, s, Silent(before), s.c.prev, s.c.desired, after, Config(w, Done(j2, status)));
  }

  // The outcome of the effect due in which it succeeds.
  function Working(j: Job, prev: nat, at: RollStage): Effect {
    match at
    case RollAnnouncing => Append(RollbackStarted, true)
    case RollValidating => Validate(prev, true)
    case RollValidated(ok) => Append(ValidationFinished(prev, ok), true)
    case RollLoading => LoadPf(prev, true)
    case RollLoaded(ok) => Append(LoadFinished(prev, ok), true)
    case RollMarking => Mark(prev, true, true)
    case RollMarked(ok) => Append(MarkFinished(prev, ok), true)
    case RollGivingUp => Append(RollbackGaveUp, true)
    case RollClearing => Clear(j.op, true, true)
    case RollCleared(ok) => Append(ClearFinished(ok), true)
    case RollFinishing => Append(RollbackSucceeded, true)
  }

  lemma WorkingIsAccepted(w0: World, w: World, c: Control, silent: bool)
    requires Holds(w0, w, c, silent) && c.Roll?
    ensures var e := Working(c.job, c.prev, c.rollAt); Accepts(Config(w, c), e) && Works(w, e)
  {
    hide HoldsPrepare, HoldsActivate, HoldsRecovery, StepActivation, StepRecovery, Outcome;
  }

  /** Such an end can be reached from wherever a rollback has got to without a failure of theirs. */
  lemma {:induction false} RollbackCanFinish(w0: World, s0: Config, silent: bool, prev: nat, d: ActivationStatus,
                                             trace: seq<Effect>, s: Config)
    returns (full: seq<Effect>, s2: Config)
    requires Holds(w0, s0.w, s0.c, silent) && s0.c.Roll? && Restoring(prev, d, s0)
    requires Exec(s0, trace) == Some(s) && StorageWorks(s0, trace)
    ensures trace <= full && Exec(s0, full) == Some(s2) && StorageWorks(s0, full)
    ensures s2.c.Done? && Clean(s2.w, prev) && (s2.c.status == d || s2.c.status == AuditFailedRolledBack)
    decreases 10 - |trace|
  {
    hide Holds, Legal, Apply, Step, Works, EffectsLeft, Accepts, Follow, Working;
    RollbackLeftIsNatural(s0.c);
    var later := RollbackProgresses(w0, s0, silent, prev, d, trace, s);
    if s.c.Done? { return trace, s; }
    WorkingIsAccepted(w0, s.w, s.c, later);
    var e := Working(s.c.job, s.c.prev, s.c.rollAt);
    ExecSnoc(s0, trace, e);
    var _ := RollbackProgresses(w0, s0, silent, prev, d, trace + [e], Follow(s, e));
    full, s2 := RollbackCanFinish(w0, s0, silent, prev, d, trace + [e], Follow(s, e));
  }
}
