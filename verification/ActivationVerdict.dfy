/**
 What the status of an activation says about what went wrong, over the effects alone.

 `Faults` are the effects of an activation that did not turn out as they should.  The status is a function of them: the
 first one names the stage, the later ones say whether the audit and the way back held.
 */
module ActivationVerdict {
  import opened Basics
  import opened ActivationProtocol
  import opened ActivationInvariant
  import opened ActivationTheorems
  import opened GatingTheorems

  // ---------- faults ----------

  // The outcome is the one a commit needs.
  predicate Smooth(j: Job, e: Effect) {
    match e
    case Append(_, ok) => ok
    case Authorize(a) => a.Authorized?
    case ReadMarker(found) => found.Some? && found.value != j.target
    case ReadRevision(_, ok) => ok
    case Validate(_, ok) => ok
    case LoadPf(_, ok) => ok
    case RunProbe(_, ok) => ok
    case Confirm(ok) => ok
    case Begin(_, status, _) => status == Created
    case Advance(_, _, ok, _) => ok
    case Mark(_, ok, _) => ok
    case Clear(_, ok, _) => ok
    case LoadRecord(_) => true
  }

  function Faults(j: Job, trace: seq<Effect>): seq<Effect>
    decreases |trace|
  {
    if trace == [] then []
    else
      var n := |trace| - 1;
      Faults(j, trace[..n]) + if Smooth(j, trace[n]) then [] else [trace[n]]
  }

  // ---------- the verdict ----------

  // When the append of an event is due: before there is a record, with a record but PF untouched, with PF changed, or
  // after the record has reached `committed`.
  datatype Period = BeforeRecord | RecordOnly | Exposed | AfterCommit

  function PeriodOf(event: Audit): Period {
    match event
    case BeginFinished(_) | LoadIntent => RecordOnly
    case AdvanceFinished(phase, _) => if phase == Committed then AfterCommit else Exposed
    case ActivationCommitted => AfterCommit
    case LoadFinished(_, _) | ProbeStarted(_) | ProbeFinished(_, _) | ConfirmationPending | ConfirmationFinished(_)
       | CommitStarted | MarkFinished(_, _) => Exposed
    case _ => BeforeRecord
  }

  predicate Uncleared(faults: seq<Effect>) { exists k :: 0 <= k < |faults| && faults[k].Clear? }

  // The effect belongs to the way back to the previous revision.
  predicate WayBack(j: Job, e: Effect) {
    match e
    case Validate(rev, _) => rev != j.target
    case LoadPf(rev, _) => rev != j.target
    case Mark(rev, _, _) => rev != j.target
    case Clear(_, _, _) => true
    case _ => false
  }

  predicate Broken(j: Job, faults: seq<Effect>) { exists k :: 0 <= k < |faults| && WayBack(j, faults[k]) }

  // A failed append that counts against the audit: all but the report of a failed advance to `committed`.
  predicate AuditFault(e: Effect) { e.Append? && e.event != AdvanceFinished(Committed, false) }

  predicate Unaudited(faults: seq<Effect>) { exists k :: 0 <= k < |faults| && AuditFault(faults[k]) }

  // What an operation that had changed PF reports.
  function Undone(j: Job, faults: seq<Effect>, reason: ActivationStatus): ActivationStatus {
    if Broken(j, faults) then RollbackFailed else if Unaudited(faults) then AuditFailedRolledBack else reason
  }

  // What an operation that had changed nothing reports: the reason, if that could be journaled.
  function Refused(faults: seq<Effect>, reason: ActivationStatus): ActivationStatus {
    if |faults| == 1 then reason else AuditFailed
  }

  function Unjournaled(j: Job, faults: seq<Effect>, event: Audit): ActivationStatus {
    match PeriodOf(event)
    case BeforeRecord => AuditFailed
    case RecordOnly => if Uncleared(faults) then TransactionStoreFailed else AuditFailed
    case Exposed => Undone(j, faults, AuditFailedRolledBack)
    case AfterCommit => if Uncleared(faults) then CommittedCleanupPending else CommittedWithWarning
  }

  /** The status by what went wrong. */
  function Verdict(j: Job, faults: seq<Effect>): ActivationStatus {
    if faults == [] then CommittedOk
    else
      match faults[0]
      case Append(event, _) => Unjournaled(j, faults, event)
      case Authorize(a) => Refused(faults, if a == Denied then AuthorizationDenied else AuthorizationError)
      case ReadMarker(found) => Refused(faults, if found.None? then LastKnownGoodUnavailable else InvalidRequest)
      case ReadRevision(_, _) => Refused(faults, TargetUnavailable)
      case Validate(rev, _) => if rev == j.target then Refused(faults, NativeRevalidationFailed) else RollbackFailed
      case Begin(_, status, _) =>
        Refused(faults, if status == Conflict then TransactionConflict else TransactionStoreFailed)
      case LoadPf(_, _) => Undone(j, faults, ActivationFailed)
      case RunProbe(_, _) => Undone(j, faults, VerificationFailedRolledBack)
      case Confirm(_) => Undone(j, faults, ConfirmationFailedRolledBack)
      case Mark(_, _, _) => Undone(j, faults, CommitFailedRolledBack)
      case Advance(_, _, _, _) => Undone(j, faults, TransactionStoreFailed)
      case Clear(_, _, _) => CommittedCleanupPending
      case LoadRecord(_) => CommittedOk
  }

  // ---------- at every control point ----------

  // What a fault that exposes PF makes the code ask its rollback to report.
  function ReasonOf(f: Effect): Option<ActivationStatus> {
    match f
    case LoadPf(_, _) => Some(ActivationFailed)
    case RunProbe(_, _) => Some(VerificationFailedRolledBack)
    case Confirm(_) => Some(ConfirmationFailedRolledBack)
    case Mark(_, _, _) => Some(CommitFailedRolledBack)
    case Advance(_, _, _, _) => Some(TransactionStoreFailed)
    case _ => None
  }

  // The first fault came with PF changed, and not from the way back.
  predicate Exposing(j: Job, f: Effect) {
    match f
    case Append(event, _) => PeriodOf(event) == Exposed
    case _ => ReasonOf(f).Some? && !WayBack(j, f)
  }

  // What can go wrong after a first fault: a report or another event that is not journaled, and, if there is a record,
  // a failure on the way back.
  predicate Later(j: Job, first: Effect, e: Effect) {
    || (e.Append? && (e.event == AdvanceFinished(Committed, false) ==> first.Advance?))
    || (WayBack(j, e) && (first.Append? || ReasonOf(first).Some?))
  }

  predicate OneCause(j: Job, faults: seq<Effect>) {
    forall k :: 0 < k < |faults| ==> Later(j, faults[0], faults[k])
  }

  predicate Failing(at: RollStage) {
    match at
    case RollValidated(ok) => !ok
    case RollLoaded(ok) => !ok
    case RollMarked(ok) => !ok
    case RollCleared(ok) => !ok
    case RollGivingUp => true
    case _ => false
  }

  predicate Single(faults: seq<Effect>, ok: bool, f: Effect) { faults == if ok then [] else [f] }

  predicate ToldAct(j: Job, at: Stage, faults: seq<Effect>) {
    match at
    case Authorized1(a) => Single(faults, a.Authorized?, Authorize(a))
    case RejectingNoMarker => faults == [ReadMarker(None)]
    case RejectingSame => faults == [ReadMarker(Some(j.target))]
    case RejectingTarget => faults == [ReadRevision(j.target, false)]
    case Validated(ok) => Single(faults, ok, Validate(j.target, false))
    case Begun(status) =>
      if status == Created then faults == [] else |faults| == 1 && faults[0].Begin? && faults[0].status == status
    case ClearingUnaudited => |faults| == 1 && faults[0].Append? && PeriodOf(faults[0].event) == RecordOnly
    case Loaded(ok) => Single(faults, ok, LoadPf(j.target, false))
    case Probed(i, ok) => Single(faults, ok, RunProbe(i, false))
    case Confirmed(ok) => Single(faults, ok, Confirm(false))
    case Marked(ok) =>
      if ok then faults == [] else |faults| == 1 && faults[0].Mark? && faults[0].rev == j.target && !faults[0].ok
    case Advanced(next, ok) =>
      if ok then faults == [] else |faults| == 1 && faults[0].Advance? && faults[0].next == next && !faults[0].ok
    case Announced7(audited) => Single(faults, audited, Append(AdvanceFinished(Committed, true), false))
    case Clearing(audited) =>
      if audited then faults == []
      else
        && faults != [] && faults[0].Append? && PeriodOf(faults[0].event) == AfterCommit
        && forall k :: 0 <= k < |faults| ==>
             faults[k].Append? && PeriodOf(faults[k].event) == AfterCommit
             && faults[k].event != AdvanceFinished(Committed, false)
    case _ => faults == []
  }

  predicate ToldRoll(j: Job, prev: nat, desired: ActivationStatus, compromised: bool, at: RollStage,
                     faults: seq<Effect>) {
    && prev != j.target && faults != [] && Exposing(j, faults[0]) && OneCause(j, faults)
    && (compromised <==> Unaudited(faults))
    && (faults[0].Append? || ReasonOf(faults[0]) == Some(desired))
    && (Broken(j, faults) <==> Failing(at))
  }

  predicate Told(c: Control, faults: seq<Effect>) {
    match c
    case Act(j, _, at) => ToldAct(j, at, faults)
    case Roll(j, prev, desired, compromised, at) => ToldRoll(j, prev, desired, compromised, at, faults)
    case Done(j, status) => status == Verdict(j, faults) && OneCause(j, faults)
    case _ => true
  }

  // The faults after one more effect.
  function More(j: Job, faults: seq<Effect>, e: Effect): seq<Effect> { if Smooth(j, e) then faults else faults + [e] }

  lemma OneMore(j: Job, faults: seq<Effect>, e: Effect)
    ensures Uncleared(faults + [e]) <==> Uncleared(faults) || e.Clear?
    ensures Broken(j, faults + [e]) <==> Broken(j, faults) || WayBack(j, e)
    ensures Unaudited(faults + [e]) <==> Unaudited(faults) || AuditFault(e)
    ensures OneCause(j, faults + [e]) <==> OneCause(j, faults) && (faults == [] || Later(j, faults[0], e))
  {
    var more := faults + [e];
    assert more[|faults|] == e && forall k :: 0 <= k < |faults| ==> more[k] == faults[k];
    if Uncleared(faults) {
      var k :| 0 <= k < |faults| && faults[k].Clear?;
      assert more[k].Clear?;
    }
    if Broken(j, faults) {
      var k :| 0 <= k < |faults| && WayBack(j, faults[k]);
      assert WayBack(j, more[k]);
    }
    if Unaudited(faults) {
      var k :| 0 <= k < |faults| && AuditFault(faults[k]);
      assert AuditFault(more[k]);
    }
  }

  lemma NoFaults(j: Job)
    ensures !Uncleared([]) && !Broken(j, []) && !Unaudited([]) && OneCause(j, [])
  {}

  // The faults of a trace that has met at most one before.
  lemma FewFaults(j: Job, faults: seq<Effect>, e: Effect)
    requires |faults| <= 1
    ensures Uncleared(faults + [e]) <==> (|faults| == 1 && faults[0].Clear?) || e.Clear?
    ensures Broken(j, faults + [e]) <==> (|faults| == 1 && WayBack(j, faults[0])) || WayBack(j, e)
    ensures Unaudited(faults + [e]) <==> (|faults| == 1 && AuditFault(faults[0])) || AuditFault(e)
    ensures OneCause(j, faults + [e]) <==> faults == [] || Later(j, faults[0], e)
    ensures |faults| == 1 ==>
              && (Uncleared(faults) <==> faults[0].Clear?) && (Broken(j, faults) <==> WayBack(j, faults[0]))
              && (Unaudited(faults) <==> AuditFault(faults[0])) && OneCause(j, faults)
  {
    NoFaults(j);
    OneMore(j, faults, e);
    if |faults| == 1 {
      OneMore(j, [], faults[0]);
      assert [] + [faults[0]] == faults;
    }
  }

  lemma AuthorizeTold(j: Job, prev: nat, at: Stage, e: Effect, c: Control, faults: seq<Effect>)
    requires StepAuthorize(j, prev, at, e) == Some(c) && ToldAct(j, at, faults)
    ensures Told(c, More(j, faults, e))
  {
    hide Uncleared, Broken, Unaudited, OneCause;
    NoFaults(j);
    if |faults| <= 1 { FewFaults(j, faults, e); }
  }

  lemma PrepareTold(j: Job, prev: nat, at: Stage, e: Effect, c: Control, faults: seq<Effect>)
    requires StepPrepare(j, prev, at, e) == Some(c) && ToldAct(j, at, faults)
    ensures Told(c, More(j, faults, e))
  {
    hide Uncleared, Broken, Unaudited, OneCause;
    NoFaults(j);
    if |faults| <= 1 { FewFaults(j, faults, e); }
  }

  lemma BeginTold(j: Job, prev: nat, at: Stage, e: Effect, c: Control, faults: seq<Effect>)
    requires StepBegin(j, prev, at, e) == Some(c) && ToldAct(j, at, faults)
    ensures Told(c, More(j, faults, e))
  {
    hide Uncleared, Broken, Unaudited, OneCause;
    NoFaults(j);
    if |faults| <= 1 { FewFaults(j, faults, e); }
  }

  lemma VerifyTold(j: Job, prev: nat, at: Stage, e: Effect, c: Control, faults: seq<Effect>)
    requires prev != j.target && StepVerify(j, prev, at, e) == Some(c) && ToldAct(j, at, faults)
    ensures Told(c, More(j, faults, e))
  {
    hide Uncleared, Broken, Unaudited, OneCause;
    NoFaults(j);
    if |faults| <= 1 { FewFaults(j, faults, e); }
  }

  lemma AdvanceTold(j: Job, prev: nat, at: Stage, e: Effect, c: Control, faults: seq<Effect>)
    requires prev != j.target && StepAdvance(j, prev, at, e) == Some(c) && ToldAct(j, at, faults)
    ensures Told(c, More(j, faults, e))
  {
    hide Uncleared, Broken, Unaudited, OneCause;
    NoFaults(j);
    if |faults| <= 1 { FewFaults(j, faults, e); }
  }

  lemma ConfirmTold(j: Job, prev: nat, at: Stage, e: Effect, c: Control, faults: seq<Effect>)
    requires prev != j.target && StepConfirm(j, prev, at, e) == Some(c) && ToldAct(j, at, faults)
    ensures Told(c, More(j, faults, e))
  {
    hide Uncleared, Broken, Unaudited, OneCause;
    NoFaults(j);
    if |faults| <= 1 { FewFaults(j, faults, e); }
  }

  lemma MarkTold(j: Job, prev: nat, at: Stage, e: Effect, c: Control, faults: seq<Effect>)
    requires prev != j.target && StepCommit(j, prev, at, e) == Some(c) && ToldAct(j, at, faults)
    requires at.AnnouncingCommit? || at.Marking? || at.Marked?
    ensures Told(c, More(j, faults, e))
  {
    hide Uncleared, Broken, Unaudited, OneCause;
    NoFaults(j);
    if |faults| <= 1 { FewFaults(j, faults, e); }
  }

  lemma OnlyAppends(j: Job, faults: seq<Effect>)
    requires forall k :: 0 <= k < |faults| ==> faults[k].Append? && PeriodOf(faults[k].event) == AfterCommit
    requires forall k :: 0 <= k < |faults| ==> faults[k].event != AdvanceFinished(Committed, false)
    ensures !Uncleared(faults) && !Broken(j, faults) && OneCause(j, faults)
  {}

  lemma FinishTold(j: Job, prev: nat, at: Stage, e: Effect, c: Control, faults: seq<Effect>)
    requires StepCommit(j, prev, at, e) == Some(c) && ToldAct(j, at, faults)
    requires at.Announced7? || at.Clearing?
    ensures Told(c, More(j, faults, e))
  {
    hide Uncleared, Broken, Unaudited, OneCause;
    NoFaults(j);
    OnlyAppends(j, faults);
    OneMore(j, faults, e);
  }

  lemma UndoValidationTold(j: Job, prev: nat, d: ActivationStatus, m: bool, at: RollStage, e: Effect, c: Control,
                faults: seq<Effect>)
    requires StepUndo(j, prev, d, m, at, e) == Some(c) && ToldRoll(j, prev, d, m, at, faults)
    requires !at.RollLoading? && !at.RollLoaded?
    ensures Told(c, More(j, faults, e))
  {
    hide Uncleared, Broken, Unaudited, OneCause, Exposing, ReasonOf, Verdict;
    OneMore(j, faults, e);
  }

  lemma UndoLoadTold(j: Job, prev: nat, d: ActivationStatus, m: bool, at: RollStage, e: Effect, c: Control,
                faults: seq<Effect>)
    requires StepUndo(j, prev, d, m, at, e) == Some(c) && ToldRoll(j, prev, d, m, at, faults)
    requires at.RollLoading? || at.RollLoaded?
    ensures Told(c, More(j, faults, e))
  {
    hide Uncleared, Broken, Unaudited, OneCause, Exposing, ReasonOf, Verdict;
    OneMore(j, faults, e);
  }

  lemma RestoreTold(j: Job, prev: nat, d: ActivationStatus, m: bool, at: RollStage, e: Effect, c: Control,
                faults: seq<Effect>)
    requires StepRestoreMarker(j, prev, d, m, at, e) == Some(c) && ToldRoll(j, prev, d, m, at, faults)
    ensures Told(c, More(j, faults, e))
  {
    hide Uncleared, Broken, Unaudited, OneCause;
    OneMore(j, faults, e);
  }

  lemma FirstIsAudited(faults: seq<Effect>)
    ensures faults != [] && AuditFault(faults[0]) ==> Unaudited(faults)
  {}

  lemma FinishUndoTold(j: Job, prev: nat, d: ActivationStatus, m: bool, at: RollStage, e: Effect, c: Control,
                faults: seq<Effect>)
    requires StepFinishUndo(j, prev, d, m, at, e) == Some(c) && ToldRoll(j, prev, d, m, at, faults)
    ensures Told(c, More(j, faults, e))
  {
    hide Uncleared, Broken, Unaudited, OneCause;
    FirstIsAudited(faults);
    OneMore(j, faults, e);
  }

  // Once there is a record the rollback revision is not the target.
  lemma OwnsRecord(w0: World, w: World, j: Job, prev: nat, at: Stage, silent: bool, e: Effect)
    requires Holds(w0, w, Act(j, prev, at), silent)
    requires StepVerify(j, prev, at, e).Some? || StepAdvance(j, prev, at, e).Some?
          || StepConfirm(j, prev, at, e).Some? || StepCommit(j, prev, at, e).Some?
    ensures prev != j.target
  {}

  lemma ActTold(w0: World, w: World, j: Job, prev: nat, at: Stage, silent: bool, e: Effect, c: Control,
                faults: seq<Effect>)
    requires Holds(w0, w, Act(j, prev, at), silent)
    requires StepActivation(j, prev, at, e) == Some(c) && ToldAct(j, at, faults)
    ensures Told(c, More(j, faults, e))
  {
    hide Told, ToldAct, More;
    if StepAuthorize(j, prev, at, e) == Some(c) {
      AuthorizeTold(j, prev, at, e, c, faults);
    } else if StepPrepare(j, prev, at, e) == Some(c) {
      PrepareTold(j, prev, at, e, c, faults);
    } else if StepBegin(j, prev, at, e) == Some(c) {
      BeginTold(j, prev, at, e, c, faults);
    } else {
      OwnsRecord(w0, w, j, prev, at, silent, e);
      if StepVerify(j, prev, at, e) == Some(c) {
        VerifyTold(j, prev, at, e, c, faults);
      } else if StepAdvance(j, prev, at, e) == Some(c) {
        AdvanceTold(j, prev, at, e, c, faults);
      } else if StepConfirm(j, prev, at, e) == Some(c) {
        ConfirmTold(j, prev, at, e, c, faults);
      } else if at.Announced7? || at.Clearing? {
        FinishTold(j, prev, at, e, c, faults);
      } else {
        MarkTold(j, prev, at, e, c, faults);
      }
    }
  }

  lemma StepTold(w0: World, w: World, c: Control, silent: bool, e: Effect, c2: Control, j: Job, faults: seq<Effect>)
    requires Holds(w0, w, c, silent) && Step(c, e) == Some(c2) && Subject(c) == Some(j) && Told(c, faults)
    ensures Told(c2, More(j, faults, e))
  {
    hide Holds, ToldAct, ToldRoll, More, Verdict, OneCause;
    match c
    case Act(_, prev, at) => ActTold(w0, w, j, prev, at, silent, e, c2, faults);
    case Roll(_, prev, d, m, at) =>
      if StepRestoreMarker(j, prev, d, m, at, e) == Some(c2) {
        RestoreTold(j, prev, d, m, at, e, c2, faults);
      } else if StepFinishUndo(j, prev, d, m, at, e) == Some(c2) {
        FinishUndoTold(j, prev, d, m, at, e, c2, faults);
      } else if at.RollLoading? || at.RollLoaded? {
        UndoLoadTold(j, prev, d, m, at, e, c2, faults);
      } else {
        UndoValidationTold(j, prev, d, m, at, e, c2, faults);
      }
    case _ =>
  }

  lemma NothingTold(j: Job)
    ensures Told(Begins(j), [])
  {}

  lemma {:induction false} ExecTold(w0: World, j: Job, trace: seq<Effect>, s: Config)
    requires ValidJob(j) && Exec(Config(w0, Begins(j)), trace) == Some(s)
    ensures Told(s.c, Faults(j, trace))
    decreases |trace|
  {
    hide Holds, Legal, Apply, Step, Told, Smooth, Subject;
    BeginHolds(w0, j);
    if trace == [] {
      NothingTold(j);
    } else {
      var s0 := Config(w0, Begins(j));
      var n := |trace| - 1;
      var before := Exec(s0, trace[..n]).value;
      ExecTold(w0, j, trace[..n], before);
      ExecHolds(s0, trace[..n], before);
      StepTold(w0, before.w, before.c, Silent(trace[..n]), trace[n], s.c, j, Faults(j, trace[..n]));
      assert Faults(j, trace) == More(j, Faults(j, trace[..n]), trace[n]);
    }
  }

  /** The status of every activation is the verdict on what went wrong in it. */
  lemma StatusIsVerdict(w0: World, j: Job, trace: seq<Effect>, w: World, j2: Job, status: ActivationStatus)
    requires ValidJob(j) && Exec(Config(w0, Begins(j)), trace) == Some(Config(w, Done(j2, status)))
    ensures status == Verdict(j, Faults(j, trace)) && OneCause(j, Faults(j, trace))
  {
    ExecTold(w0, j, trace, Config(w, Done(j2, status)));
    BeginHolds(w0, j);
    ExecHolds(Config(w0, Begins(j)), trace, Config(w, Done(j2, status)));
  }

  // ---------- what each status means ----------

  lemma {:induction false} InFaults(j: Job, trace: seq<Effect>, e: Effect)
    ensures e in Faults(j, trace) <==> e in trace && !Smooth(j, e)
    decreases |trace|
  {
    if trace == [] {
    } else {
      hide Smooth;
      var n := |trace| - 1;
      InFaults(j, trace[..n], e);
      assert trace == trace[..n] + [trace[n]];
    }
  }

  lemma AppendsInFaults(j: Job, trace: seq<Effect>)
    ensures AppendsOk(trace) <==> forall k :: 0 <= k < |Faults(j, trace)| ==> !Faults(j, trace)[k].Append?
  {
    var faults := Faults(j, trace);
    forall i | 0 <= i < |trace| ensures trace[i] in faults <==> !Smooth(j, trace[i]) { InFaults(j, trace, trace[i]); }
    forall k | 0 <= k < |faults| ensures faults[k] in trace && !Smooth(j, faults[k]) {
      InFaults(j, trace, faults[k]);
    }
  }

  // A fault that is neither an append nor on the way back is the first.
  lemma FirstFault(j: Job, trace: seq<Effect>, e: Effect)
    requires OneCause(j, Faults(j, trace)) && !e.Append? && !WayBack(j, e) && !Smooth(j, e)
    ensures e in trace <==> Faults(j, trace) != [] && Faults(j, trace)[0] == e
  {
    InFaults(j, trace, e);
  }

  predicate AllFaults(j: Job, faults: seq<Effect>) { forall k :: 0 <= k < |faults| ==> !Smooth(j, faults[k]) }

  lemma {:induction false} FaultsAreFaults(j: Job, trace: seq<Effect>)
    ensures AllFaults(j, Faults(j, trace))
    decreases |trace|
  {
    if trace == [] {
    } else {
      hide Smooth;
      FaultsAreFaults(j, trace[..|trace| - 1]);
    }
  }

  // Nothing else can follow a fault that leaves nothing to undo, if everything could be journaled.
  lemma RefusalMeans(j: Job, trace: seq<Effect>, f: Effect)
    requires OneCause(j, Faults(j, trace)) && !f.Append? && ReasonOf(f).None? && !WayBack(j, f) && !Smooth(j, f)
    ensures Faults(j, trace) == [f] <==> f in trace && AppendsOk(trace)
  {
    FirstFault(j, trace, f);
    AppendsInFaults(j, trace);
    var faults := Faults(j, trace);
    assert [f][0] == f;
    if |faults| > 1 {
      assert Later(j, faults[0], faults[1]);
    }
  }

  lemma VerdictOfAuthorization(j: Job, faults: seq<Effect>)
    requires AllFaults(j, faults)
    ensures Verdict(j, faults) == AuthorizationDenied <==> faults == [Authorize(Denied)]
    ensures Verdict(j, faults) == AuthorizationError <==> faults == [Authorize(Unavailable)]
  {
    if faults != [] { assert !Smooth(j, faults[0]); }
  }

  lemma VerdictOfMarker(j: Job, faults: seq<Effect>)
    requires AllFaults(j, faults)
    ensures Verdict(j, faults) == LastKnownGoodUnavailable <==> faults == [ReadMarker(None)]
    ensures Verdict(j, faults) == InvalidRequest <==> faults == [ReadMarker(Some(j.target))]
  {
    if faults != [] { assert !Smooth(j, faults[0]); }
    if faults != [] && faults[0].ReadMarker? && faults[0].found.Some? {
      assert faults[0] == ReadMarker(Some(j.target));
    }
  }

  lemma VerdictOfTarget(j: Job, faults: seq<Effect>)
    requires AllFaults(j, faults)
    ensures Verdict(j, faults) == TargetUnavailable <==> |faults| == 1 && faults[0].ReadRevision?
    ensures Verdict(j, faults) == NativeRevalidationFailed <==> faults == [Validate(j.target, false)]
    ensures Verdict(j, faults) == TransactionConflict <==>
              |faults| == 1 && faults[0].Begin? && faults[0].status == Conflict
  {
    if faults != [] { assert !Smooth(j, faults[0]); }
  }

  lemma RefusedTarget(j: Job, trace: seq<Effect>)
    requires OneCause(j, Faults(j, trace))
    ensures var faults := Faults(j, trace);
            |faults| == 1 && faults[0].ReadRevision? <==>
              (exists rev :: ReadRevision(rev, false) in trace) && AppendsOk(trace)
  {
    var faults := Faults(j, trace);
    FaultsAreFaults(j, trace);
    if rev :| ReadRevision(rev, false) in trace { RefusalMeans(j, trace, ReadRevision(rev, false)); }
    if |faults| == 1 && faults[0].ReadRevision? {
      assert faults == [ReadRevision(faults[0].rev, false)];
      RefusalMeans(j, trace, ReadRevision(faults[0].rev, false));
    }
  }

  lemma RefusedBegin(j: Job, trace: seq<Effect>)
    requires OneCause(j, Faults(j, trace))
    ensures var faults := Faults(j, trace);
            |faults| == 1 && faults[0].Begin? && faults[0].status == Conflict <==>
              (exists p, applied :: Begin(p, Conflict, applied) in trace) && AppendsOk(trace)
  {
    var faults := Faults(j, trace);
    if p, applied :| Begin(p, Conflict, applied) in trace { RefusalMeans(j, trace, Begin(p, Conflict, applied)); }
    if |faults| == 1 && faults[0].Begin? && faults[0].status == Conflict {
      var f := faults[0];
      assert faults == [Begin(f.pending, Conflict, f.applied)];
      RefusalMeans(j, trace, Begin(f.pending, Conflict, f.applied));
    }
  }

  /** Refusals: the status names the check that failed, if everything could be journaled. */
  lemma RefusalNamesTheCheck(w0: World, j: Job, trace: seq<Effect>, w: World, j2: Job, status: ActivationStatus)
    requires ValidJob(j) && Exec(Config(w0, Begins(j)), trace) == Some(Config(w, Done(j2, status)))
    ensures status == AuthorizationDenied <==> Authorize(Denied) in trace && AppendsOk(trace)
    ensures status == AuthorizationError <==> Authorize(Unavailable) in trace && AppendsOk(trace)
    ensures status == LastKnownGoodUnavailable <==> ReadMarker(None) in trace && AppendsOk(trace)
    ensures status == InvalidRequest <==> ReadMarker(Some(j.target)) in trace && AppendsOk(trace)
    ensures status == TargetUnavailable <==> (exists rev :: ReadRevision(rev, false) in trace) && AppendsOk(trace)
    ensures status == NativeRevalidationFailed <==> Validate(j.target, false) in trace && AppendsOk(trace)
    ensures status == TransactionConflict <==>
              (exists p, applied :: Begin(p, Conflict, applied) in trace) && AppendsOk(trace)
  {
    hide Verdict, Exec, AppendsOk, OneCause, Faults;
    StatusIsVerdict(w0, j, trace, w, j2, status);
    FaultsAreFaults(j, trace);
    VerdictOfAuthorization(j, Faults(j, trace));
    VerdictOfMarker(j, Faults(j, trace));
    VerdictOfTarget(j, Faults(j, trace));
    RefusalMeans(j, trace, Authorize(Denied));
    RefusalMeans(j, trace, Authorize(Unavailable));
    RefusalMeans(j, trace, ReadMarker(None));
    RefusalMeans(j, trace, ReadMarker(Some(j.target)));
    RefusalMeans(j, trace, Validate(j.target, false));
    RefusedTarget(j, trace);
    RefusedBegin(j, trace);
  }

  // Some step of the way back failed.
  ghost predicate Unrestored(j: Job, trace: seq<Effect>) {
    exists i :: 0 <= i < |trace| && WayBack(j, trace[i]) && !Smooth(j, trace[i])
  }

  lemma UnrestoredIsBroken(j: Job, trace: seq<Effect>)
    ensures Unrestored(j, trace) <==> Broken(j, Faults(j, trace))
  {
    hide Smooth;
    var faults := Faults(j, trace);
    FaultsAreFaults(j, trace);
    if Unrestored(j, trace) {
      var i :| 0 <= i < |trace| && WayBack(j, trace[i]) && !Smooth(j, trace[i]);
      InFaults(j, trace, trace[i]);
      var k :| 0 <= k < |faults| && faults[k] == trace[i];
      assert WayBack(j, faults[k]);
    }
    if Broken(j, faults) {
      var k :| 0 <= k < |faults| && WayBack(j, faults[k]);
      InFaults(j, trace, faults[k]);
      var i :| 0 <= i < |trace| && trace[i] == faults[k];
      assert WayBack(j, trace[i]) && !Smooth(j, trace[i]);
    }
  }

  lemma NotOnTheWayBack(j: Job, e: Effect)
    requires e.Append?
    ensures !WayBack(j, e)
  {}

  lemma AuditedIsUnfailed(j: Job, trace: seq<Effect>)
    requires OneCause(j, Faults(j, trace))
    ensures var faults := Faults(j, trace);
            faults != [] && !faults[0].Advance? && !faults[0].Append? ==>
              (AppendsOk(trace) <==> !Unaudited(faults))
    ensures var faults := Faults(j, trace);
            faults != [] && faults[0].Append? ==> !AppendsOk(trace)
  {
    hide Smooth, WayBack, ReasonOf;
    var faults := Faults(j, trace);
    AppendsInFaults(j, trace);
    if faults != [] && !faults[0].Advance? && !faults[0].Append? && !AppendsOk(trace) {
      var k :| 0 <= k < |faults| && faults[k].Append?;
      assert Later(j, faults[0], faults[k]);
      NotOnTheWayBack(j, faults[k]);
      assert AuditFault(faults[k]);
    }
  }

  // The verdicts of a rollback that restored.
  lemma VerdictOfRollback(j: Job, faults: seq<Effect>)
    requires AllFaults(j, faults)
    ensures var undone := !Broken(j, faults) && !Unaudited(faults);
            && (Verdict(j, faults) == ActivationFailed <==>
                  faults != [] && faults[0] == LoadPf(j.target, false) && undone)
            && (Verdict(j, faults) == VerificationFailedRolledBack <==>
                  faults != [] && faults[0].RunProbe? && undone)
            && (Verdict(j, faults) == ConfirmationFailedRolledBack <==>
                  faults != [] && faults[0] == Confirm(false) && undone)
            && (Verdict(j, faults) == CommitFailedRolledBack <==>
                  faults != [] && faults[0].Mark? && faults[0].rev == j.target && undone)
  {
    hide Unaudited;
    if faults != [] {
      assert !Smooth(j, faults[0]);
      assert WayBack(j, faults[0]) ==> Broken(j, faults);
      FirstIsAudited(faults);
    }
  }

  // The operation was undone, and the undoing and everything else was journaled.
  ghost predicate CleanlyUndone(j: Job, trace: seq<Effect>) { AppendsOk(trace) && !Unrestored(j, trace) }

  lemma UndoneMeans(j: Job, trace: seq<Effect>)
    requires OneCause(j, Faults(j, trace))
    ensures var faults := Faults(j, trace);
            faults != [] && !faults[0].Advance? && !faults[0].Append? ==>
              (CleanlyUndone(j, trace) <==> !Broken(j, faults) && !Unaudited(faults))
  {
    hide Broken, Unaudited, Unrestored, AppendsOk;
    UnrestoredIsBroken(j, trace);
    AuditedIsUnfailed(j, trace);
  }

  lemma FirstProbeFault(j: Job, trace: seq<Effect>)
    requires OneCause(j, Faults(j, trace))
    ensures (exists i :: RunProbe(i, false) in trace) <==> Faults(j, trace) != [] && Faults(j, trace)[0].RunProbe?
  {
    var faults := Faults(j, trace);
    FaultsAreFaults(j, trace);
    if i :| RunProbe(i, false) in trace {
      FirstFault(j, trace, RunProbe(i, false));
    }
    if faults != [] && faults[0].RunProbe? {
      assert faults[0] == RunProbe(faults[0].index, false);
      FirstFault(j, trace, RunProbe(faults[0].index, false));
    }
  }

  lemma FirstMarkFault(j: Job, trace: seq<Effect>)
    requires OneCause(j, Faults(j, trace))
    ensures (exists applied :: Mark(j.target, false, applied) in trace) <==>
              Faults(j, trace) != [] && Faults(j, trace)[0].Mark? && Faults(j, trace)[0].rev == j.target
  {
    var faults := Faults(j, trace);
    FaultsAreFaults(j, trace);
    if applied :| Mark(j.target, false, applied) in trace {
      FirstFault(j, trace, Mark(j.target, false, applied));
    }
    if faults != [] && faults[0].Mark? && faults[0].rev == j.target {
      assert faults[0] == Mark(j.target, false, faults[0].applied);
      FirstFault(j, trace, Mark(j.target, false, faults[0].applied));
    }
  }

  /** Rollbacks: the status names the call that failed, if the way back held and everything could be journaled. */
  lemma RollbackNamesTheCall(w0: World, j: Job, trace: seq<Effect>, w: World, j2: Job, status: ActivationStatus)
    requires ValidJob(j) && Exec(Config(w0, Begins(j)), trace) == Some(Config(w, Done(j2, status)))
    ensures status == ActivationFailed <==> LoadPf(j.target, false) in trace && CleanlyUndone(j, trace)
    ensures status == ConfirmationFailedRolledBack <==> Confirm(false) in trace && CleanlyUndone(j, trace)
    ensures status == VerificationFailedRolledBack <==>
              (exists i :: RunProbe(i, false) in trace) && CleanlyUndone(j, trace)
    ensures status == CommitFailedRolledBack <==>
              (exists applied :: Mark(j.target, false, applied) in trace) && CleanlyUndone(j, trace)
  {
    hide Verdict, Exec, AppendsOk, OneCause, Faults, Broken, Unaudited, CleanlyUndone;
    var faults := Faults(j, trace);
    StatusIsVerdict(w0, j, trace, w, j2, status);
    FaultsAreFaults(j, trace);
    VerdictOfRollback(j, faults);
    UndoneMeans(j, trace);
    FirstFault(j, trace, LoadPf(j.target, false));
    FirstFault(j, trace, Confirm(false));
    FirstProbeFault(j, trace);
    FirstMarkFault(j, trace);
  }

  // ---------- audit and record ----------

  // The effect leaves the audit trail or the record in doubt.
  predicate Disturbs(e: Effect) {
    match e
    case Append(_, ok) => !ok
    case Begin(_, status, _) => status != Created
    case Advance(_, _, ok, _) => !ok
    case Clear(_, ok, _) => !ok
    case _ => false
  }

  ghost predicate Undisturbed(trace: seq<Effect>) { forall i :: 0 <= i < |trace| ==> !Disturbs(trace[i]) }

  predicate Disturbed(faults: seq<Effect>) { exists k :: 0 <= k < |faults| && Disturbs(faults[k]) }

  lemma DisturbedFaults(j: Job, trace: seq<Effect>)
    ensures Undisturbed(trace) <==> !Disturbed(Faults(j, trace))
  {
    var faults := Faults(j, trace);
    if !Undisturbed(trace) {
      var i :| 0 <= i < |trace| && Disturbs(trace[i]);
      InFaults(j, trace, trace[i]);
      var k :| 0 <= k < |faults| && faults[k] == trace[i];
      assert Disturbs(faults[k]);
    }
    if Disturbed(faults) {
      var k :| 0 <= k < |faults| && Disturbs(faults[k]);
      InFaults(j, trace, faults[k]);
      var i :| 0 <= i < |trace| && trace[i] == faults[k];
      assert Disturbs(trace[i]);
    }
  }

  // Statuses after which the controller does not go on.
  predicate RequiresReadOnly(status: ActivationStatus) {
    match status
    case TransactionConflict | TransactionStoreFailed | CommittedWithWarning | CommittedCleanupPending | AuditFailed
       | AuditFailedRolledBack => true
    case _ => false
  }

  lemma AuditFaultDisturbs(j: Job, faults: seq<Effect>)
    requires AllFaults(j, faults)
    ensures Unaudited(faults) || Uncleared(faults) ==> Disturbed(faults)
  {
    if Unaudited(faults) {
      var k :| 0 <= k < |faults| && AuditFault(faults[k]);
      assert !Smooth(j, faults[k]) && Disturbs(faults[k]);
    }
    if Uncleared(faults) {
      var k :| 0 <= k < |faults| && faults[k].Clear?;
      assert !Smooth(j, faults[k]) && Disturbs(faults[k]);
    }
  }

  lemma DoubtDisturbs(j: Job, faults: seq<Effect>)
    requires AllFaults(j, faults) && OneCause(j, faults) && RequiresReadOnly(Verdict(j, faults))
    ensures Disturbed(faults)
  {
    hide Unaudited, Uncleared, Broken;
    AuditFaultDisturbs(j, faults);
    var f := faults[0];
    assert !Smooth(j, f);
    assert Disturbs(f) ==> Disturbed(faults);
    if |faults| > 1 {
      assert Later(j, f, faults[1]) && !Smooth(j, faults[1]);
      assert faults[1].Append? ==> Disturbs(faults[1]);
    }
  }

  lemma DisturbanceShows(j: Job, faults: seq<Effect>)
    requires AllFaults(j, faults) && OneCause(j, faults) && Disturbed(faults)
    ensures RequiresReadOnly(Verdict(j, faults)) || Verdict(j, faults) == RollbackFailed
  {
    var k :| 0 <= k < |faults| && Disturbs(faults[k]);
    var f := faults[0];
    assert !Smooth(j, f);
    if k > 0 {
      assert Later(j, f, faults[k]);
      assert faults[k].Clear? ==> WayBack(j, faults[k]);
      assert faults[k].Append? && !f.Advance? ==> AuditFault(faults[k]);
    }
  }

  /** A status leaves the audit trail or the record in doubt exactly if some append, begin, advance or clear failed, and
      the way back held. */
  lemma DoubtIsExact(w0: World, j: Job, trace: seq<Effect>, w: World, j2: Job, status: ActivationStatus)
    requires ValidJob(j) && Exec(Config(w0, Begins(j)), trace) == Some(Config(w, Done(j2, status)))
    ensures RequiresReadOnly(status) <==> !Undisturbed(trace) && status != RollbackFailed
  {
    hide Verdict, Exec, OneCause, Faults, Undisturbed, Disturbed;
    var faults := Faults(j, trace);
    StatusIsVerdict(w0, j, trace, w, j2, status);
    FaultsAreFaults(j, trace);
    DisturbedFaults(j, trace);
    if RequiresReadOnly(status) { DoubtDisturbs(j, faults); }
    if Disturbed(faults) { DisturbanceShows(j, faults); }
  }
}
