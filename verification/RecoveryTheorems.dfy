/**
 Recovery converges: every recovery is short and never stuck, a crashed one loses nothing, and one whose validator,
 loader and stores work restores the register's value, whatever happens to the audit journal.
 */
module RecoveryTheorems {
  import opened Basics
  import opened ActivationProtocol
  import opened ActivationInvariant

  // The effect does not report a failure of the validator, the loader or a store; audit appends may fail.
  ghost predicate Works(w: World, e: Effect) {
    match e
    case ReadMarker(found) => found == w.marker
    case ReadRevision(_, ok) => ok
    case Validate(_, ok) => ok
    case LoadPf(_, ok) => ok
    case Mark(_, ok, _) => ok
    case Clear(_, ok, _) => ok
    case LoadRecord(r) => !r.RecordUnreadable?
    case _ => true
  }

  // No failure report so far.
  predicate OnTrack(c: Control) {
    match c
    case Recovering => true
    case Rec(_, _, at) =>
      (match at
       case RecMismatch | RecUnavailable | RecCleaned(false) | RecValidated(false) | RecLoaded(false)
          | RecMarked(false) | RecCleared(false) => false
       case _ => true)
    case Recovered(s) => RecoveryOk(s)
    case _ => false
  }

  // An upper bound on the effects still to come.
  function Distance(c: Control): nat {
    match c
    case Recovering => 12
    case Rec(_, _, at) =>
      (match at
       case RecAnnouncing => 11
       case RecReadingMarker | RecReadingRevision => 10
       case RecValidating => 9
       case RecValidated(_) => 8
       case RecLoading => 7
       case RecLoaded(_) => 6
       case RecMarking => 5
       case RecMarked(_) => 4
       case RecClearing | RecCleaning => 3
       case RecCleared(_) | RecCleaned(_) => 2
       case _ => 1)
    case _ => 0
  }

  // The fault-free outcome of the effect due at a control point.
  ghost function Expected(w: World, c: Control): Effect {
    match c
    case Rec(p, _, at) =>
      (match at
       case RecAnnouncing => Append(RecoveryStarted, true)
       case RecReadingMarker => ReadMarker(w.marker)
       case RecMismatch => Append(RecoveryMarkerMismatch, true)
       case RecCleaning | RecClearing => Clear(p.op, true, true)
       case RecCleaned(ok) => Append(ClearFinished(ok), true)
       case RecCleanFinishing => Append(RecoveryCleanedUp, true)
       case RecReadingRevision => ReadRevision(p.rollback, true)
       case RecUnavailable => Append(RecoveryRevisionUnavailable, true)
       case RecValidating => Validate(p.rollback, true)
       case RecValidated(ok) => Append(ValidationFinished(p.rollback, ok), true)
       case RecLoading => LoadPf(p.rollback, true)
       case RecLoaded(ok) => Append(LoadFinished(p.rollback, ok), true)
       case RecMarking => Mark(p.rollback, true, true)
       case RecMarked(ok) => Append(MarkFinished(p.rollback, ok), true)
       case RecCleared(ok) => Append(ClearFinished(ok), true)
       case RecFinishing => Append(RecoveryRolledBack, true))
    case _ => LoadRecord(if w.record.Some? then LoadedRecord(w.record.value) else NoPendingRecord)
  }

  ghost predicate Progresses(w: World, c: Control, e: Effect, c2: Control) {
    Distance(c2) < Distance(c) && (OnTrack(c) && Works(w, e) ==> OnTrack(c2))
  }

  lemma CleanupProgresses(w0: World, w: World, p: Pending, a: bool, at: RecStage, e: Effect, c: Control)
    requires CrashSafe(w0) && HoldsRecovery(w0, w, p, at) && StepCleanup(p, a, at, e) == Some(c)
    ensures Progresses(w, Rec(p, a, at), e, c)
  {}

  lemma RestoreProgresses(w: World, p: Pending, a: bool, at: RecStage, e: Effect, c: Control)
    requires StepRestore(p, a, at, e) == Some(c)
    ensures Progresses(w, Rec(p, a, at), e, c)
  {}

  lemma SettleProgresses(w: World, p: Pending, a: bool, at: RecStage, e: Effect, c: Control)
    requires StepSettle(p, a, at, e) == Some(c)
    ensures Progresses(w, Rec(p, a, at), e, c)
  {}

  lemma RecoveryProgresses(w0: World, w: World, c: Control, e: Effect, c2: Control)
    requires CrashSafe(w0) && Holds(w0, w, c, false) && InRecovery(c) && Step(c, e) == Some(c2)
    ensures Progresses(w, c, e, c2)
  {
    if c.Rec? {
      var p, a, at := c.pending, c.auditOk, c.recAt;
      if StepCleanup(p, a, at, e) == Some(c2) {
        CleanupProgresses(w0, w, p, a, at, e, c2);
      } else if StepRestore(p, a, at, e) == Some(c2) {
        RestoreProgresses(w, p, a, at, e, c2);
      } else {
        SettleProgresses(w, p, a, at, e, c2);
      }
    }
  }

  lemma NeverStuckAt(w0: World, w: World, p: Pending, a: bool, at: RecStage)
    requires CrashSafe(w0) && HoldsRecovery(w0, w, p, at)
    ensures Legal(w, Expected(w, Rec(p, a, at))) && StepRecovery(p, a, at, Expected(w, Rec(p, a, at))).Some?
    ensures OnTrack(Rec(p, a, at)) ==> Works(w, Expected(w, Rec(p, a, at)))
  {}

  /** A running recovery is never stuck: its next effect has an outcome the world allows and the code accepts. */
  lemma NeverStuck(w0: World, w: World, c: Control)
    requires CrashSafe(w0) && Holds(w0, w, c, false) && InRecovery(c) && !c.Recovered?
    ensures Accepts(Config(w, c), Expected(w, c))
    ensures OnTrack(c) ==> Works(w, Expected(w, c))
  {
    match c {
      case Rec(p, a, at) => NeverStuckAt(w0, w, p, a, at);
      case _ =>
    }
  }

  // ---------- executions ----------

  ghost predicate StorageWorks(s: Config, trace: seq<Effect>)
    decreases |trace|
  {
    trace == [] ||
    var n := |trace| - 1;
    && StorageWorks(s, trace[..n])
    && Exec(s, trace[..n]).Some?
    && Works(Exec(s, trace[..n]).value.w, trace[n])
  }

  lemma HoldsSettles(w0: World, w: World, c: Control, silent: bool)
    requires CrashSafe(w0) && InRecovery(c) && Holds(w0, w, c, silent)
    ensures Holds(w0, w, c, false)
    ensures CrashSafe(w) && Settle(w) == Settle(w0)
    ensures c.Recovered? && RecoveryOk(c.recovery) ==> w == Settle(w0)
  {}

  lemma {:induction false} ExecProgresses(w0: World, trace: seq<Effect>, s: Config)
    requires CrashSafe(w0) && Exec(Config(w0, Recovering), trace) == Some(s)
    ensures InRecovery(s.c) && Holds(w0, s.w, s.c, false)
    ensures |trace| + Distance(s.c) <= 12
    ensures StorageWorks(Config(w0, Recovering), trace) ==> OnTrack(s.c)
    decreases |trace|
  {
    if trace == [] {
    } else {
      var n := |trace| - 1;
      var before := Exec(Config(w0, Recovering), trace[..n]).value;
      ExecProgresses(w0, trace[..n], before);
      StepHolds(w0, before.w, before.c, trace[n], s.c, false);
      RecoveryProgresses(w0, before.w, before.c, trace[n], s.c);
      HoldsSettles(w0, s.w, s.c, SilentCommit(trace[n]));
    }
  }

  /** Wherever a recovery is interrupted, the world stays safe and still settles to the same state. */
  lemma RecoveryConserves(w0: World, trace: seq<Effect>, s: Config)
    requires CrashSafe(w0) && Exec(Config(w0, Recovering), trace) == Some(s)
    ensures CrashSafe(s.w) && Settle(s.w) == Settle(w0)
    ensures |trace| <= 12
    ensures s.c.Recovered? && RecoveryOk(s.c.recovery) ==> s.w == Settle(w0)
  {
    ExecProgresses(w0, trace, s);
    HoldsSettles(w0, s.w, s.c, false);
  }

  // The world after recoveries that each crashed at the end of their trace.
  ghost function AfterCrashes(w: World, traces: seq<seq<Effect>>): Option<World>
    decreases |traces|
  {
    if traces == [] then Some(w)
    else
      var n := |traces| - 1;
      var before := AfterCrashes(w, traces[..n]);
      if before.None? || Exec(Config(before.value, Recovering), traces[n]).None? then None
      else Some(Exec(Config(before.value, Recovering), traces[n]).value.w)
  }

  lemma {:induction false} CrashesConserve(w0: World, traces: seq<seq<Effect>>, w: World)
    requires CrashSafe(w0) && AfterCrashes(w0, traces) == Some(w)
    ensures CrashSafe(w) && Settle(w) == Settle(w0)
    decreases |traces|
  {
    if traces == [] {
    } else {
      var n := |traces| - 1;
      var before := AfterCrashes(w0, traces[..n]).value;
      CrashesConserve(w0, traces[..n], before);
      RecoveryConserves(before, traces[n], Exec(Config(before, Recovering), traces[n]).value);
    }
  }

  /** After any number of crashed recoveries, a complete one in which validator, loader and stores work succeeds and
      leaves exactly the settled world: nothing pending, PF and marker equal to the register's value. */
  lemma RecoveryConverges(w0: World, crashed: seq<seq<Effect>>, w1: World, trace: seq<Effect>, w2: World,
                          status: RecoveryStatus)
    requires CrashSafe(w0) && AfterCrashes(w0, crashed) == Some(w1)
    requires Exec(Config(w1, Recovering), trace) == Some(Config(w2, Recovered(status)))
    requires StorageWorks(Config(w1, Recovering), trace)
    ensures RecoveryOk(status)
    ensures w2 == Settle(w0) && w2.record.None?
    ensures Value(w0).Some? ==> w2 == World(Known(Value(w0).value), Value(w0), None)
  {
    CrashesConserve(w0, crashed, w1);
    ExecProgresses(w1, trace, Config(w2, Recovered(status)));
    HoldsSettles(w1, w2, Recovered(status), false);
  }

  lemma ExecSnoc(s: Config, trace: seq<Effect>, e: Effect)
    requires Exec(s, trace).Some? && Accepts(Exec(s, trace).value, e)
    ensures Exec(s, trace + [e]) == Some(Follow(Exec(s, trace).value, e))
    ensures StorageWorks(s, trace) && Works(Exec(s, trace).value.w, e) ==> StorageWorks(s, trace + [e])
  {
    assert (trace + [e])[..|trace + [e]| - 1] == trace;
  }

  /** Such a recovery exists from wherever a recovery has got to without a failure report. */
  lemma {:induction false} RecoveryCanFinish(w0: World, trace: seq<Effect>, s: Config)
    returns (full: seq<Effect>, s2: Config)
    requires CrashSafe(w0) && Exec(Config(w0, Recovering), trace) == Some(s)
    requires StorageWorks(Config(w0, Recovering), trace)
    ensures trace <= full && Exec(Config(w0, Recovering), full) == Some(s2)
    ensures StorageWorks(Config(w0, Recovering), full)
    ensures s2.c.Recovered? && RecoveryOk(s2.c.recovery) && s2.w == Settle(w0)
    decreases 12 - |trace|
  {
    ExecProgresses(w0, trace, s);
    if s.c.Recovered? {
      HoldsSettles(w0, s.w, s.c, false);
      return trace, s;
    }
    NeverStuck(w0, s.w, s.c);
    var e := Expected(s.w, s.c);
    ExecSnoc(Config(w0, Recovering), trace, e);
    ExecProgresses(w0, trace + [e], Follow(s, e));
    full, s2 := RecoveryCanFinish(w0, trace + [e], Follow(s, e));
  }

  /** Recovering again finds nothing and does nothing. */
  lemma SecondRecovery(w: World, trace: seq<Effect>, s: Config)
    requires w.record.None? && Exec(Config(w, Recovering), trace) == Some(s) && trace != []
    ensures s.w == w && |trace| == 1
    ensures Works(w, trace[0]) ==> s.c == Recovered(NoPending)
  {
    var n := |trace| - 1;
    if n > 0 {
      SecondRecovery(w, trace[..n], Exec(Config(w, Recovering), trace[..n]).value);
    }
  }
}
