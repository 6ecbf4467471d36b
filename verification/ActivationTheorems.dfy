/**
 Whole-run properties of the activation protocol: what each activation status means, crash safety, atomic commit, and
 the one gap in them.
 */
module ActivationTheorems {
  import opened Basics
  import opened ActivationProtocol
  import opened ActivationInvariant

  // ---------- one operation ----------

  // Some advance to `committed` in the trace reported failure although it took effect.
  ghost predicate Silent(trace: seq<Effect>) {
    trace != [] && (Silent(trace[..|trace| - 1]) || SilentCommit(trace[|trace| - 1]))
  }

  lemma {:induction false} ExecHolds(s: Config, trace: seq<Effect>, s2: Config)
    requires Holds(s.w, s.w, s.c, false)
    requires Exec(s, trace) == Some(s2)
    ensures Holds(s.w, s2.w, s2.c, Silent(trace))
    ensures Subject(s2.c) == Subject(s.c) && InRecovery(s2.c) == InRecovery(s.c)
    decreases |trace|
  {
    if trace == [] {
    } else {
      hide Holds, Legal, Apply, Step, SilentCommit;
      var n := |trace| - 1;
      var before := Exec(s, trace[..n]).value;
      ExecHolds(s, trace[..n], before);
      StepHolds(s.w, before.w, before.c, trace[n], s2.c, Silent(trace[..n]));
    }
  }

  // The state an activation is meant to start from: marker set, that revision loaded, nothing pending.
  ghost predicate Clean(w: World, previous: nat) {
    w == World(Known(previous), Some(previous), None)
  }

  // What the status of an activation from a clean world promises about the world it leaves.
  ghost predicate StatusMeans(previous: nat, w: World, j: Job, status: ActivationStatus) {
    && (Ok(status) ==> w.pf == Known(j.target) && w.marker == Some(j.target))
    && (!Ok(status) && status != RollbackFailed ==> w.pf == Known(previous) && w.marker == Some(previous))
    && (status == RollbackFailed ==>
          || (w.record.Some? && w.record.value.rollback == previous)
          || Clean(w, previous))
    && (LeavesNoRecord(status) ==> w.record.None?)
    && status != TransactionConflict
  }

  /** Whatever failed on the way, the status of an uninterrupted activation means what it says. */
  lemma StatusTheorem(w0: World, previous: nat, j: Job, trace: seq<Effect>, w: World, j2: Job, status: ActivationStatus)
    requires Clean(w0, previous) && ValidJob(j)
    requires Exec(Config(w0, Begins(j)), trace) == Some(Config(w, Done(j2, status)))
    ensures StatusMeans(previous, w, j, status)
  {
    ExecHolds(Config(w0, Begins(j)), trace, Config(w, Done(j2, status)));
  }

  // The record has durably reached `committed` and the code knows it.
  predicate PastCommit(c: Control) {
    match c
    case Act(_, _, at) => at == Advanced(Committed, true) || at.Announced7? || at.Clearing?
    case Done(_, status) => Ok(status)
    case _ => false
  }

  // Some effect of the trace is a durable advance to `committed`.
  ghost predicate Commits(trace: seq<Effect>) { exists i :: 0 <= i < |trace| && DurableCommit(trace[i]) }

  lemma CommitsSnoc(trace: seq<Effect>)
    requires trace != []
    ensures Commits(trace) <==> Commits(trace[..|trace| - 1]) || DurableCommit(trace[|trace| - 1])
  {
    var n := |trace| - 1;
    if Commits(trace[..n]) {
      var i :| 0 <= i < n && DurableCommit(trace[..n][i]);
      assert DurableCommit(trace[i]);
    }
    if Commits(trace) && !DurableCommit(trace[n]) {
      var i :| 0 <= i < |trace| && DurableCommit(trace[i]);
      assert DurableCommit(trace[..n][i]);
    }
  }

  lemma EarlyPastCommit(j: Job, prev: nat, at: Stage, e: Effect, c: Control)
    requires StepAuthorize(j, prev, at, e) == Some(c) || StepPrepare(j, prev, at, e) == Some(c)
          || StepBegin(j, prev, at, e) == Some(c)
    ensures !PastCommit(c) && !PastCommit(Act(j, prev, at)) && !DurableCommit(e)
  {}

  lemma LatePastCommit(j: Job, prev: nat, at: Stage, e: Effect, c: Control)
    requires StepVerify(j, prev, at, e) == Some(c) || StepConfirm(j, prev, at, e) == Some(c)
          || StepCommit(j, prev, at, e) == Some(c)
    ensures PastCommit(c) <==> PastCommit(Act(j, prev, at))
    ensures !DurableCommit(e)
  {}

  lemma AdvancePastCommit(w: World, j: Job, prev: nat, at: Stage, e: Effect, c: Control)
    requires Legal(w, e) && StepAdvance(j, prev, at, e) == Some(c) && !SilentCommit(e)
    ensures PastCommit(c) <==> PastCommit(Act(j, prev, at)) || DurableCommit(e)
  {}

  lemma RollPastCommit(j: Job, prev: nat, d: ActivationStatus, m: bool, at: RollStage, e: Effect, c: Control)
    requires RollbackReason(d) && StepRollback(j, prev, d, m, at, e) == Some(c)
    ensures !PastCommit(c) && !DurableCommit(e)
  {}

  lemma ReasonOfRollback(w0: World, w: World, c: Control, silent: bool)
    requires Holds(w0, w, c, silent) && c.Roll?
    ensures RollbackReason(c.desired)
  {}

  lemma StepPastCommit(w0: World, w: World, c: Control, silent: bool, e: Effect, c2: Control)
    requires Holds(w0, w, c, silent) && Legal(w, e) && Step(c, e) == Some(c2) && (c.Act? || c.Roll?)
    requires !SilentCommit(e)
    ensures PastCommit(c2) <==> PastCommit(c) || DurableCommit(e)
  {
    hide Holds, Legal, SilentCommit, DurableCommit, RollbackReason;
    match c
    case Act(j, prev, at) =>
      if StepAdvance(j, prev, at, e) == Some(c2) {
        AdvancePastCommit(w, j, prev, at, e, c2);
      } else if StepVerify(j, prev, at, e) == Some(c2) || StepConfirm(j, prev, at, e) == Some(c2)
                || StepCommit(j, prev, at, e) == Some(c2) {
        LatePastCommit(j, prev, at, e, c2);
      } else {
        EarlyPastCommit(j, prev, at, e, c2);
      }
    case Roll(j, prev, d, m, at) =>
      ReasonOfRollback(w0, w, c, silent);
      RollPastCommit(j, prev, d, m, at, e, c2);
  }

  lemma SubjectRuns(c: Control, e: Effect)
    requires Subject(c).Some? && Step(c, e).Some?
    ensures c.Act? || c.Roll?
  {}

  lemma NothingCommitted(j: Job)
    ensures !PastCommit(Begins(j)) && !Commits([])
  {}

  lemma BeginHolds(w0: World, j: Job)
    requires ValidJob(j)
    ensures Holds(w0, w0, Begins(j), false) && Subject(Begins(j)) == Some(j)
  {}

  lemma {:induction false} ExecPastCommit(w0: World, j: Job, trace: seq<Effect>, s: Config)
    requires ValidJob(j) && Exec(Config(w0, Begins(j)), trace) == Some(s) && !Silent(trace)
    ensures PastCommit(s.c) <==> Commits(trace)
    decreases |trace|
  {
    hide Holds, Legal, Apply, Step, SilentCommit, DurableCommit, PastCommit, Commits, Subject;
    var s0 := Config(w0, Begins(j));
    if trace == [] {
      NothingCommitted(j);
    } else {
      var n := |trace| - 1;
      var before := Exec(s0, trace[..n]).value;
      ExecPastCommit(w0, j, trace[..n], before);
      BeginHolds(w0, j);
      ExecHolds(s0, trace[..n], before);
      SubjectRuns(before.c, trace[n]);
      StepPastCommit(w0, before.w, before.c, false, trace[n], s.c);
      CommitsSnoc(trace);
    }
  }

  // ---------- runs with crashes ----------

  datatype Action = Invoke(job: Job) | StartRecovery | Do(e: Effect) | Crash

  ghost predicate Enabled(s: Config, a: Action) {
    match a
    case Invoke(j) => Resting(s.c) && ValidJob(j)
    case StartRecovery => Resting(s.c)
    case Do(e) => Accepts(s, e)
    case Crash => true
  }

  ghost function After(s: Config, a: Action): Config
    requires Enabled(s, a)
  {
    match a
    case Invoke(j) => Config(s.w, Begins(j))
    case StartRecovery => Config(s.w, Recovering)
    case Do(e) => Follow(s, e)
    case Crash => Config(s.w, Idle)
  }

  ghost function Run(s: Config, run: seq<Action>): Option<Config>
    decreases |run|
  {
    if run == [] then Some(s)
    else
      var before := Run(s, run[..|run| - 1]);
      if before.Some? && Enabled(before.value, run[|run| - 1]) then Some(After(before.value, run[|run| - 1])) else None
  }

  // No advance to `committed` reported failure although it took effect.
  ghost predicate Reported(run: seq<Action>) {
    forall i :: 0 <= i < |run| && run[i].Do? ==> !SilentCommit(run[i].e)
  }

  ghost function LastJob(initial: Option<Job>, run: seq<Action>): Option<Job>
    decreases |run|
  {
    if run == [] then initial
    else if run[|run| - 1].Invoke? then Some(run[|run| - 1].job)
    else LastJob(initial, run[..|run| - 1])
  }

  // The target of the last activation whose record durably reached `committed`, read off the actions alone.
  ghost function LastCommitted(initial: Option<nat>, job: Option<Job>, run: seq<Action>): Option<nat>
    decreases |run|
  {
    if run == [] then initial
    else
      var n := |run| - 1;
      if run[n].Do? && DurableCommit(run[n].e) && LastJob(job, run[..n]).Some?
      then Some(LastJob(job, run[..n]).value.target)
      else LastCommitted(initial, job, run[..n])
  }

  lemma HoldsIsSafe(w0: World, w: World, c: Control)
    requires CrashSafe(w0) && Holds(w0, w, c, false)
    ensures CrashSafe(w)
  {}

  // A configuration an operation that started in `origin` can be in, and that operation's job.
  ghost predicate Sound(origin: World, s: Config, job: Option<Job>) {
    && CrashSafe(origin) && Holds(origin, s.w, s.c, false)
    && (Subject(s.c).Some? && !s.c.Done? ==> Subject(s.c) == job)
  }

  lemma ReportedPrefix(run: seq<Action>, n: nat)
    requires Reported(run) && n < |run|
    ensures Reported(run[..n]) && (run[n].Do? ==> !SilentCommit(run[n].e))
  {}

  lemma RestHolds(w: World, c: Control)
    requires CrashSafe(w) && (c.Idle? || c.Recovering? || exists j :: ValidJob(j) && c == Begins(j))
    ensures Holds(w, w, c, false)
  {}

  // Only a running activation advances its record, and the record carries its own target.
  lemma CommitterIsRunning(w0: World, s: Config, e: Effect)
    requires CrashSafe(w0) && Holds(w0, s.w, s.c, false) && Accepts(s, e)
    ensures DurableCommit(e) ==>
              s.c.Act? && s.w.record.Some? && s.w.record.value.target == Subject(s.c).value.target
  {
    hide Apply, Value, Outcome, Settle, HoldsRollback, HoldsRecovery, HoldsPrepare, CrashSafe;
    if e.Advance? && s.c.Act? {
      assert s.c.at.Advancing?;
    }
  }

  // One action, from a sound configuration to a sound one.
  lemma ActionHolds(origin0: World, m: Config, job: Option<Job>, a: Action, s: Config) returns (origin: World)
    requires Sound(origin0, m, job) && Enabled(m, a) && After(m, a) == s
    requires a.Do? ==> !SilentCommit(a.e)
    ensures Sound(origin, s, if a.Invoke? then Some(a.job) else job)
    ensures Value(s.w) == if a.Do? && DurableCommit(a.e) && job.Some? then Some(job.value.target) else Value(m.w)
  {
    if a.Do? {
      hide Holds, Legal, Apply, Step, CrashSafe, Value;
      origin := origin0;
      StepHolds(origin, m.w, m.c, a.e, s.c, false);
      CommitterIsRunning(origin, m, a.e);
    } else {
      HoldsIsSafe(origin0, m.w, m.c);
      origin := m.w;
      RestHolds(m.w, s.c);
    }
  }

  lemma {:induction false} RunHolds(origin0: World, s0: Config, job: Option<Job>, run: seq<Action>, s: Config)
    returns (origin: World)
    requires Sound(origin0, s0, job) && Reported(run)
    requires Run(s0, run) == Some(s)
    ensures Sound(origin, s, LastJob(job, run))
    ensures Value(s.w) == LastCommitted(Value(s0.w), job, run)
    decreases |run|
  {
    hide Sound, Enabled, After, Value, SilentCommit, DurableCommit;
    if run == [] { return origin0; }
    var n := |run| - 1;
    var m := Run(s0, run[..n]).value;
    ReportedPrefix(run, n);
    origin := RunHolds(origin0, s0, job, run[..n], m);
    origin := ActionHolds(origin, m, LastJob(job, run[..n]), run[n], s);
  }

  /** Crash safety: however activations, faults, crashes and recoveries interleave. */
  lemma CrashSafety(w0: World, run: seq<Action>, s: Config)
    requires CrashSafe(w0) && Reported(run)
    requires Run(Config(w0, Idle), run) == Some(s)
    ensures CrashSafe(s.w)
  {
    var origin := RunHolds(w0, Config(w0, Idle), None, run, s);
    HoldsIsSafe(origin, s.w, s.c);
  }

  /** Atomic commit: whenever nothing is pending, PF and marker are those of the last durable commit, and while
      something is pending it is the value recovery will restore. */
  lemma AtomicCommit(w0: World, run: seq<Action>, s: Config)
    requires CrashSafe(w0) && Reported(run)
    requires Run(Config(w0, Idle), run) == Some(s)
    ensures var v := LastCommitted(Value(w0), None, run);
            && Value(s.w) == v
            && (s.w.record.None? && v.Some? ==> Clean(s.w, v.value))
            && (s.w.record.None? && v.None? ==> s.w.marker.None?)
  {
    var _ := RunHolds(w0, Config(w0, Idle), None, run, s);
    CrashSafety(w0, run, s);
  }

  lemma SafeSettles(w: World)
    requires CrashSafe(w) && Value(w).Some?
    ensures Clean(Settle(w), Value(w).value)
  {}

  lemma {:induction false} ExecValue(w0: World, j: Job, trace: seq<Effect>, s: Config)
    requires ValidJob(j) && CrashSafe(w0) && Exec(Config(w0, Begins(j)), trace) == Some(s) && !Silent(trace)
    ensures Value(s.w) == if Commits(trace) then Some(j.target) else Value(w0)
    decreases |trace|
  {
    hide Holds, Legal, Apply, Step, CrashSafe, Value, Commits, DurableCommit, SilentCommit, Subject;
    var s0 := Config(w0, Begins(j));
    if trace == [] {
      NothingCommitted(j);
    } else {
      var n := |trace| - 1;
      var before := Exec(s0, trace[..n]).value;
      ExecValue(w0, j, trace[..n], before);
      BeginHolds(w0, j);
      ExecHolds(s0, trace[..n], before);
      StepHolds(w0, before.w, before.c, trace[n], s.c, false);
      CommitterIsRunning(w0, before, trace[n]);
      CommitsSnoc(trace);
    }
  }

  /** Unless a commit went unreported, an activation has durably committed exactly if its status is ok, and what
      recovery makes of the world it leaves is the target then and the previous revision otherwise: after
      `rollback_failed` too, whatever phase its record is left in. */
  lemma StatusTellsCommit(w0: World, previous: nat, j: Job, trace: seq<Effect>, w: World, j2: Job,
                          status: ActivationStatus)
    requires Clean(w0, previous) && ValidJob(j) && !Silent(trace)
    requires Exec(Config(w0, Begins(j)), trace) == Some(Config(w, Done(j2, status)))
    ensures Ok(status) <==> Commits(trace)
    ensures var v := if Ok(status) then j.target else previous;
            CrashSafe(w) && Value(w) == Some(v) && Clean(Settle(w), v)
  {
    var s := Config(w, Done(j2, status));
    ExecPastCommit(w0, j, trace, s);
    BeginHolds(w0, j);
    ExecValue(w0, j, trace, s);
    ExecHolds(Config(w0, Begins(j)), trace, s);
    HoldsIsSafe(w0, w, s.c);
    SafeSettles(w);
  }

  // ---------- the one gap ----------

  lemma RunTake(s: Config, run: seq<Action>, k: nat, m: Config)
    requires k < |run| && Run(s, run[..k]) == Some(m) && Enabled(m, run[k])
    ensures Run(s, run[..k + 1]) == Some(After(m, run[k]))
  {
    assert run[..k + 1][..k] == run[..k];
  }

  lemma {:induction false} RunAppend(s: Config, r1: seq<Action>, r2: seq<Action>)
    requires Run(s, r1).Some?
    ensures Run(s, r1 + r2) == Run(Run(s, r1).value, r2)
    decreases |r2|
  {
    if r2 == [] {
      assert r1 + r2 == r1;
    } else {
      var n := |r2| - 1;
      RunAppend(s, r1, r2[..n]);
      assert (r1 + r2)[..|r1 + r2| - 1] == r1 + r2[..n];
    }
  }

  // Rolling back a record that already says committed, interrupted after the PF load.
  ghost function UndoUntilLoaded(prev: nat): seq<Action> {
    [Do(Append(AdvanceFinished(Committed, false), true)), Do(Append(RollbackStarted, true)), Do(Validate(prev, true)),
     Do(Append(ValidationFinished(prev, true), true))] + [Do(LoadPf(prev, true)), Crash]
  }

  // Recovery of a committed record: find it, then clear it.
  ghost function FindCommitted(p: Pending): seq<Action> {
    [StartRecovery, Do(LoadRecord(LoadedRecord(p))), Do(Append(RecoveryStarted, true)), Do(ReadMarker(Some(p.target)))]
  }

  ghost function ClearCommitted(p: Pending): seq<Action> {
    [Do(Clear(p.op, true, true)), Do(Append(ClearFinished(true), true)), Do(Append(RecoveryCleanedUp, true))]
  }

  lemma NoAction(s: Config)
    ensures Run(s, []) == Some(s)
  {}

  lemma UndoUntilValidatedRuns(w: World, j: Job, prev: nat)
    ensures Run(Config(w, Act(j, prev, Advanced(Committed, false))), UndoUntilLoaded(prev)[..4])
         == Some(Config(w, Roll(j, prev, TransactionStoreFailed, false, RollLoading)))
  {
    hide StepRecovery, Run;
    var s := Config(w, Act(j, prev, Advanced(Committed, false)));
    var r := UndoUntilLoaded(prev);
    NoAction(s);
    assert r[..0] == [];
    RunTake(s, r, 0, s);
    RunTake(s, r, 1, Config(w, Rollback(j, prev, TransactionStoreFailed, false)));
    RunTake(s, r, 2, Config(w, Roll(j, prev, TransactionStoreFailed, false, RollValidating)));
    RunTake(s, r, 3, Config(w, Roll(j, prev, TransactionStoreFailed, false, RollValidated(true))));
  }

  lemma UndoUntilLoadedRuns(w: World, j: Job, prev: nat)
    ensures Run(Config(w, Act(j, prev, Advanced(Committed, false))), UndoUntilLoaded(prev))
         == Some(Config(w.(pf := Known(prev)), Idle))
  {
    hide StepRecovery, StepActivation, Run;
    var s := Config(w, Act(j, prev, Advanced(Committed, false)));
    var r := UndoUntilLoaded(prev);
    UndoUntilValidatedRuns(w, j, prev);
    RunTake(s, r, 4, Config(w, Roll(j, prev, TransactionStoreFailed, false, RollLoading)));
    RunTake(s, r, 5, Config(w.(pf := Known(prev)), Roll(j, prev, TransactionStoreFailed, false, RollLoaded(true))));
    assert r[..6] == r;
  }

  lemma FindCommittedRuns(w: World, p: Pending)
    requires w.record == Some(p) && p.phase == Committed && w.marker == Some(p.target) && p.target > 0
    ensures Run(Config(w, Idle), FindCommitted(p)) == Some(Config(w, Rec(p, true, RecCleaning)))
  {
    hide StepActivation, StepRollback, StepSettle, Run;
    var s := Config(w, Idle);
    var r := FindCommitted(p);
    NoAction(s);
    assert r[..0] == [];
    RunTake(s, r, 0, s);
    RunTake(s, r, 1, Config(w, Recovering));
    RunTake(s, r, 2, Config(w, Rec(p, true, RecAnnouncing)));
    RunTake(s, r, 3, Config(w, Rec(p, true, RecReadingMarker)));
    assert r[..4] == r;
  }

  lemma ClearCommittedRuns(w: World, p: Pending)
    requires w.record == Some(p)
    ensures Run(Config(w, Rec(p, true, RecCleaning)), ClearCommitted(p))
         == Some(Config(w.(record := None), Recovered(CommittedCleaned)))
  {
    hide StepActivation, StepRollback, StepSettle, StepRestore, Run;
    var s := Config(w, Rec(p, true, RecCleaning));
    var r := ClearCommitted(p);
    NoAction(s);
    assert r[..0] == [];
    RunTake(s, r, 0, s);
    RunTake(s, r, 1, Config(w.(record := None), Rec(p, true, RecCleaned(true))));
    RunTake(s, r, 2, Config(w.(record := None), Rec(p, true, RecCleanFinishing)));
    assert r[..3] == r;
  }

  lemma DivergingRun(w: World, j: Job, prev: nat, p: Pending) returns (run: seq<Action>)
    requires w.record == Some(p) && p.phase == Committed && w.marker == Some(p.target) && p.target > 0
    ensures Reported(run)
    ensures Run(Config(w, Act(j, prev, Advanced(Committed, false))), run)
         == Some(Config(w.(pf := Known(prev), record := None), Recovered(CommittedCleaned)))
  {
    var s := Config(w, Act(j, prev, Advanced(Committed, false)));
    var w2 := w.(pf := Known(prev));
    UndoUntilLoadedRuns(w, j, prev);
    FindCommittedRuns(w2, p);
    ClearCommittedRuns(w2, p);
    run := UndoUntilLoaded(prev) + FindCommitted(p);
    RunAppend(s, UndoUntilLoaded(prev), FindCommitted(p));
    RunAppend(s, run, ClearCommitted(p));
    run := run + ClearCommitted(p);
  }

  /** After an unreported commit the code can crash and recover into a state that reports success while PF and
      marker differ. */
  lemma SilentCommitDiverges(origin: World, s: Config, e: Effect) returns (run: seq<Action>, s2: Config)
    requires CrashSafe(origin) && Holds(origin, s.w, s.c, false) && Accepts(s, e) && SilentCommit(e)
    ensures Reported(run) && Run(Follow(s, e), run) == Some(s2)
    ensures s2.c == Recovered(CommittedCleaned)
    ensures s2.w.record.None? && s2.w.marker.Some? && s2.w.pf.Known? && s2.w.pf.revision != s2.w.marker.value
    ensures !CrashSafe(s2.w)
  {
    CommitterIsRunning(origin, s, e);
    var j, prev := s.c.job, s.c.prev;
    var w := Apply(s.w, e);
    var p := w.record.value;
    assert Follow(s, e) == Config(w, Act(j, prev, Advanced(Committed, false)));
    run := DivergingRun(w, j, prev, p);
    s2 := Config(w.(pf := Known(prev), record := None), Recovered(CommittedCleaned));
  }

  ghost predicate SafeFrom(s: Config) {
    forall run, s2 :: Reported(run) && Run(s, run) == Some(s2) ==> CrashSafe(s2.w)
  }

  /** A failed advance to `committed` keeps every continuation crash-safe exactly when it had no effect. */
  lemma CrashSafetyIsExact(origin: World, s: Config, e: Effect)
    requires CrashSafe(origin) && Holds(origin, s.w, s.c, false) && Accepts(s, e)
    requires e.Advance? && e.next == Committed && !e.ok
    ensures SafeFrom(Follow(s, e)) <==> !e.applied
  {
    if e.applied {
      var run, s2 := SilentCommitDiverges(origin, s, e);
    } else {
      var s1 := Follow(s, e);
      StepHolds(origin, s.w, s.c, e, s1.c, false);
      forall run, s2 | Reported(run) && Run(s1, run) == Some(s2) ensures CrashSafe(s2.w) {
        var o := RunHolds(origin, s1, Subject(s1.c), run, s2);
        HoldsIsSafe(o, s2.w, s2.c);
      }
    }
  }
}
