/**
 The commit can be reached, by exactly one history: an activation reports `committed` if and only if nothing it did
 failed.
 */
module CommitTheorem {
  import opened Basics
  import opened ActivationProtocol
  import opened ActivationInvariant
  import opened ActivationTheorems
  import opened GatingTheorems
  import opened RecoveryTheorems

  // The control points on the way to the commit.
  predicate OnWay(at: Stage) {
    match at
    case RejectingNoMarker | RejectingSame | RejectingTarget | ClearingUnaudited => false
    case Authorized1(a) => a.Authorized?
    case Begun(status) => status.Created?
    case Validated(ok) => ok
    case Loaded(ok) => ok
    case Advanced(_, ok) => ok
    case Probed(_, ok) => ok
    case Confirmed(ok) => ok
    case Marked(ok) => ok
    case Announced7(audited) => audited
    case Clearing(audited) => audited
    case _ => true
  }

  // The fault-free outcome of the effect due at a control point.
  ghost function Due(w: World, j: Job, prev: nat, at: Stage): Effect {
    match at
    case Start => Append(ActivationStarted, true)
    case Authorizing => Authorize(Authorized)
    case Authorized1(a) => Append(AuthorizationChecked(a), true)
    case ReadingMarker => ReadMarker(w.marker)
    case ReadingTarget => ReadRevision(j.target, true)
    case AnnouncingValidation => Append(RevalidationStarted, true)
    case Validating => Validate(j.target, true)
    case Validated(ok) => Append(ValidationFinished(j.target, ok), true)
    case AnnouncingBegin => Append(BeginStarted, true)
    case Beginning => Begin(Pending(j.op, j.target, prev, PreparedForLoad), Created, true)
    case Begun(status) => Append(BeginFinished(status), true)
    case AnnouncingLoad => Append(LoadIntent, true)
    case LoadingTarget => LoadPf(j.target, true)
    case Loaded(ok) => Append(LoadFinished(j.target, ok), true)
    case Advancing(next) => Advance(j.op, next, true, true)
    case Advanced(next, ok) => Append(AdvanceFinished(next, ok), true)
    case AnnouncingProbe(i) => Append(ProbeStarted(i), true)
    case Probing(i) => RunProbe(i, true)
    case Probed(i, ok) => Append(ProbeFinished(i, ok), true)
    case AnnouncingConfirmation => Append(ConfirmationPending, true)
    case Confirming => Confirm(true)
    case Confirmed(ok) => Append(ConfirmationFinished(ok), true)
    case AnnouncingCommit => Append(CommitStarted, true)
    case Marking => Mark(j.target, true, true)
    case Marked(ok) => Append(MarkFinished(j.target, ok), true)
    case Announced7(_) => Append(ActivationCommitted, true)
    case _ => Clear(j.op, true, true)
  }

  function PhaseLeft(next: Phase): int {
    match next
    case PreparedForLoad => 0
    case TargetLoaded => 22
    case Verified => 18
    case AwaitingConfirmation => 16
    case Committing => 11
    case Committed => 6
  }

  // The effects still to come on the way to the commit, at most.
  function Left(j: Job, at: Stage): int {
    var probing := 3 * j.probes;
    match at
    case Start => probing + 36
    case Authorizing => probing + 35
    case Authorized1(_) => probing + 34
    case ReadingMarker => probing + 33
    case ReadingTarget => probing + 32
    case AnnouncingValidation => probing + 31
    case Validating => probing + 30
    case Validated(_) => probing + 29
    case AnnouncingBegin => probing + 28
    case Beginning => probing + 27
    case Begun(_) => probing + 26
    case AnnouncingLoad => probing + 25
    case LoadingTarget => probing + 24
    case Loaded(_) => probing + 23
    case Advancing(next) => PhaseLeft(next) + (if next == TargetLoaded then probing else 0)
    case Advanced(next, _) => PhaseLeft(next) - 1 + (if next == TargetLoaded then probing else 0)
    case AnnouncingProbe(i) => 3 * (j.probes - i) + 18
    case Probing(i) => 3 * (j.probes - i) + 17
    case Probed(i, _) => 3 * (j.probes - i) + 16
    case AnnouncingConfirmation => 14
    case Confirming => 13
    case Confirmed(_) => 12
    case AnnouncingCommit => 9
    case Marking => 8
    case Marked(_) => 7
    case Announced7(_) => 4
    case _ => 3
  }

  // One fault-free step on the way leads further on the way or to the commit.
  ghost predicate Leads(j: Job, at: Stage, c: Option<Control>) {
    && c.Some?
    && (|| c.value == Done(j, CommittedOk)
        || (c.value.Act? && c.value.job == j && OnWay(c.value.at) && 0 <= Left(j, c.value.at) < Left(j, at)))
  }

  ghost predicate Goes(w: World, j: Job, prev: nat, at: Stage) {
    var e := Due(w, j, prev, at);
    Legal(w, e) && Leads(j, at, StepActivation(j, prev, at, e))
  }

  // An activation that can commit: nothing pending and a known-good revision to fall back to.
  ghost predicate CanCommit(w0: World, j: Job) {
    ValidJob(j) && w0.record.None? && w0.marker.Some? && w0.marker.value > 0 && w0.marker.value != j.target
  }

  lemma AuthorizeLeads(w0: World, w: World, j: Job, prev: nat, at: Stage)
    requires CanCommit(w0, j) && Holds(w0, w, Act(j, prev, at), false) && OnWay(at)
    requires at.Start? || at.Authorizing? || at.Authorized1? || at.ReadingMarker? || at.ReadingTarget?
    ensures Goes(w, j, prev, at)
  {
    hide HoldsRollback, HoldsRecovery, Outcome, StepPrepare, StepBegin, StepVerify,
         StepAdvance, StepConfirm, StepCommit;
  }

  lemma PrepareLeads(w0: World, w: World, j: Job, prev: nat, at: Stage)
    requires CanCommit(w0, j) && Holds(w0, w, Act(j, prev, at), false) && OnWay(at)
    requires at.AnnouncingValidation? || at.Validating? || at.Validated? || at.AnnouncingBegin?
    ensures Goes(w, j, prev, at)
  {
    hide HoldsRollback, HoldsRecovery, Outcome, StepAuthorize, StepBegin, StepVerify,
         StepAdvance, StepConfirm, StepCommit;
  }

  lemma BeginLeads(w0: World, w: World, j: Job, prev: nat, at: Stage)
    requires CanCommit(w0, j) && Holds(w0, w, Act(j, prev, at), false) && OnWay(at)
    requires at.Beginning? || at.Begun? || at.AnnouncingLoad?
    ensures Goes(w, j, prev, at)
  {
    hide HoldsRollback, HoldsRecovery, Outcome, StepAuthorize, StepPrepare, StepVerify,
         StepAdvance, StepConfirm, StepCommit;
  }

  lemma VerifyLeads(w0: World, w: World, j: Job, prev: nat, at: Stage)
    requires CanCommit(w0, j) && Holds(w0, w, Act(j, prev, at), false) && OnWay(at)
    requires at.LoadingTarget? || at.Loaded? || at.AnnouncingProbe? || at.Probing? || at.Probed?
    ensures Goes(w, j, prev, at)
  {
    hide HoldsRollback, HoldsRecovery, Outcome, StepAuthorize, StepPrepare, StepBegin,
         StepAdvance, StepConfirm, StepCommit;
  }

  lemma AdvanceLeads(w0: World, w: World, j: Job, prev: nat, at: Stage)
    requires CanCommit(w0, j) && Holds(w0, w, Act(j, prev, at), false) && OnWay(at)
    requires at.Advancing? || at.Advanced?
    ensures Goes(w, j, prev, at)
  {
    hide HoldsRollback, HoldsRecovery, Outcome, StepAuthorize, StepPrepare, StepBegin,
         StepVerify, StepConfirm, StepCommit;
  }

  lemma ConfirmLeads(w0: World, w: World, j: Job, prev: nat, at: Stage)
    requires CanCommit(w0, j) && Holds(w0, w, Act(j, prev, at), false) && OnWay(at)
    requires at.AnnouncingConfirmation? || at.Confirming? || at.Confirmed?
    ensures Goes(w, j, prev, at)
  {
    hide HoldsRollback, HoldsRecovery, Outcome, StepAuthorize, StepPrepare, StepBegin,
         StepVerify, StepAdvance, StepCommit;
  }

  lemma MarkLeads(w0: World, w: World, j: Job, prev: nat, at: Stage)
    requires CanCommit(w0, j) && Holds(w0, w, Act(j, prev, at), false) && OnWay(at)
    requires at.AnnouncingCommit? || at.Marking? || at.Marked?
    ensures Goes(w, j, prev, at)
  {
    hide HoldsRollback, HoldsRecovery, Outcome, StepAuthorize, StepPrepare, StepBegin,
         StepVerify, StepAdvance, StepConfirm;
  }

  lemma FinishLeads(w0: World, w: World, j: Job, prev: nat, at: Stage)
    requires CanCommit(w0, j) && Holds(w0, w, Act(j, prev, at), false) && OnWay(at)
    requires at.Announced7? || at.Clearing?
    ensures Goes(w, j, prev, at)
  {
    hide HoldsRollback, HoldsRecovery, Outcome, StepAuthorize, StepPrepare, StepBegin,
         StepVerify, StepAdvance, StepConfirm;
  }

  lemma DueLeads(w0: World, w: World, j: Job, prev: nat, at: Stage)
    requires CanCommit(w0, j) && Holds(w0, w, Act(j, prev, at), false) && OnWay(at)
    ensures Goes(w, j, prev, at)
  {
    if at.Start? || at.Authorizing? || at.Authorized1? || at.ReadingMarker? || at.ReadingTarget? {
      AuthorizeLeads(w0, w, j, prev, at);
    } else if at.AnnouncingValidation? || at.Validating? || at.Validated? || at.AnnouncingBegin? {
      PrepareLeads(w0, w, j, prev, at);
    } else if at.Beginning? || at.Begun? || at.AnnouncingLoad? {
      BeginLeads(w0, w, j, prev, at);
    } else if at.LoadingTarget? || at.Loaded? || at.AnnouncingProbe? || at.Probing? || at.Probed? {
      VerifyLeads(w0, w, j, prev, at);
    } else if at.Advancing? || at.Advanced? {
      AdvanceLeads(w0, w, j, prev, at);
    } else if at.AnnouncingConfirmation? || at.Confirming? || at.Confirmed? {
      ConfirmLeads(w0, w, j, prev, at);
    } else if at.Announced7? || at.Clearing? {
      FinishLeads(w0, w, j, prev, at);
    } else {
      MarkLeads(w0, w, j, prev, at);
    }
  }

  lemma {:induction false} Completes(w0: World, j: Job, trace: seq<Effect>, s: Config)
    returns (full: seq<Effect>, w: World)
    requires CanCommit(w0, j) && Exec(Config(w0, Begins(j)), trace) == Some(s) && !Silent(trace)
    requires s.c.Act? && s.c.job == j && OnWay(s.c.at) && Left(j, s.c.at) >= 0
    ensures Exec(Config(w0, Begins(j)), full) == Some(Config(w, Done(j, CommittedOk)))
    decreases Left(j, s.c.at)
  {
    ExecHolds(Config(w0, Begins(j)), trace, s);
    DueLeads(w0, s.w, j, s.c.prev, s.c.at);
    var e := Due(s.w, j, s.c.prev, s.c.at);
    ExecSnoc(Config(w0, Begins(j)), trace, e);
    var next := Follow(s, e);
    assert (trace + [e])[..|trace + [e]| - 1] == trace;
    if next.c == Done(j, CommittedOk) {
      return trace + [e], next.w;
    }
    full, w := Completes(w0, j, trace + [e], next);
  }

  // The history names the revision to fall back to.
  lemma FullCommitReads(j: Job, prev: nat, marker: nat)
    ensures |FullCommit(j, prev)| > 12 && FullCommit(j, prev)[12] == LoadPf(j.target, true)
    ensures FullCommit(j, prev)[..12] == BeforeLoad(j, marker) ==> prev == marker
  {
    assert FullCommit(j, prev)[..12] == BeforeLoad(j, prev);
    assert BeforeLoad(j, prev)[3] == ReadMarker(Some(prev)) && BeforeLoad(j, marker)[3] == ReadMarker(Some(marker));
  }

  lemma CommittedHistory(w0: World, j: Job, trace: seq<Effect>, w: World)
    requires CanCommit(w0, j) && Exec(Config(w0, Begins(j)), trace) == Some(Config(w, Done(j, CommittedOk)))
    ensures trace == FullCommit(j, w0.marker.value) && Clean(w, j.target)
  {
    ExecTraced(w0, j, trace, Config(w, Done(j, CommittedOk)));
    ExecHolds(Config(w0, Begins(j)), trace, Config(w, Done(j, CommittedOk)));
    var prev :| trace == FullCommit(j, prev);
    FullCommitReads(j, prev, w0.marker.value);
    LoadGate(w0, j, trace, 12);
  }

  /** From a world it can commit from, an activation ends in `committed` exactly when its effects are those of the
      one fault-free history, and then PF and marker are the target with nothing pending. */
  lemma CommitTheorem(w0: World, j: Job, trace: seq<Effect>, s: Config)
    requires CanCommit(w0, j) && Exec(Config(w0, Begins(j)), trace) == Some(s)
    ensures s.c == Done(j, CommittedOk) <==> trace == FullCommit(j, w0.marker.value)
    ensures s.c == Done(j, CommittedOk) ==> Clean(s.w, j.target)
  {
    var full, w := Completes(w0, j, [], Config(w0, Begins(j)));
    CommittedHistory(w0, j, full, w);
    if s.c == Done(j, CommittedOk) {
      CommittedHistory(w0, j, trace, s.w);
    }
  }

  // ---------- the gap can be reached ----------

  function Dos(trace: seq<Effect>): seq<Action> { seq(|trace|, i requires 0 <= i < |trace| => Do(trace[i])) }

  lemma DoFollows(s: Config, e: Effect)
    ensures Enabled(s, Do(e)) <==> Accepts(s, e)
    ensures Accepts(s, e) ==> After(s, Do(e)) == Follow(s, e)
  {}

  // An execution is a run of its effects.
  lemma {:induction false} ExecIsRun(s: Config, trace: seq<Effect>)
    ensures Run(s, Dos(trace)) == Exec(s, trace)
    decreases |trace|
  {
    hide Accepts, Follow;
    if trace == [] {
    } else {
      var n := |trace| - 1;
      ExecIsRun(s, trace[..n]);
      assert Dos(trace)[..n] == Dos(trace[..n]);
      assert Dos(trace)[n] == Do(trace[n]);
      DoFollows(s, trace[n]);
      if Exec(s, trace[..n]).Some? { DoFollows(Exec(s, trace[..n]).value, trace[n]); }
    }
  }

  lemma StartCommits(w0: World, j: Job)
    requires ValidJob(j) && w0.record.None? && w0.marker.Some? && w0.marker.value > 0 && w0.marker.value != j.target
    ensures CanCommit(w0, j) && Exec(Config(w0, Begins(j)), []) == Some(Config(w0, Begins(j))) && !Silent([])
    ensures OnWay(Begins(j).at) && Left(j, Begins(j).at) >= 0
  {}

  lemma CommitFollows(j: Job, prev: nat)
    ensures var n := |BeforeCommitted(j, prev)|;
            && n < |FullCommit(j, prev)| && FullCommit(j, prev)[..n] == BeforeCommitted(j, prev)
            && FullCommit(j, prev)[n] == Advance(j.op, Committed, true, true)
  {
    hide BeforeCommitted;
  }

  lemma AdvancesToCommittedAt(w0: World, s: Config, e: Effect, j: Job, silent: bool)
    requires Holds(w0, s.w, s.c, silent) && Subject(s.c) == Some(j) && Accepts(s, e)
    requires e.Advance? && e.next == Committed
    ensures w0.marker.Some? && s.c == Act(j, w0.marker.value, Advancing(Committed))
    ensures s.w == World(Known(j.target), Some(j.target), Some(Pending(j.op, j.target, w0.marker.value, Committing)))
  {}

  // Where the fault-free history stands when the record is about to say `committed`.
  lemma BeforeCommittedLeads(prev: nat, j: Job) returns (s: Config)
    requires prev > 0 && ValidJob(j) && j.target != prev
    ensures Exec(Config(World(Known(prev), Some(prev), None), Begins(j)), BeforeCommitted(j, prev)) == Some(s)
    ensures s == Config(World(Known(j.target), Some(j.target), Some(Pending(j.op, j.target, prev, Committing))),
                        Act(j, prev, Advancing(Committed)))
  {
    hide Exec, Accepts, Holds, FullCommit, BeforeCommitted;
    var w0 := World(Known(prev), Some(prev), None);
    var s0 := Config(w0, Begins(j));
    StartCommits(w0, j);
    var full, w := Completes(w0, j, [], s0);
    CommittedHistory(w0, j, full, w);
    var n := |BeforeCommitted(j, prev)|;
    CommitFollows(j, prev);
    ExecPrefix(s0, full, n);
    s := Exec(s0, full[..n]).value;
    BeginHolds(w0, j);
    ExecHolds(s0, full[..n], s);
    AdvancesToCommittedAt(w0, s, full[n], j, Silent(full[..n]));
  }

  // An activation up to the record's last advance, which takes effect and reports failure.
  function UnreportedCommit(j: Job, prev: nat): seq<Action> {
    [Invoke(j)] + Dos(BeforeCommitted(j, prev)) + [Do(Advance(j.op, Committed, false, true))]
  }

  lemma InvokeRuns(s: Config, j: Job)
    requires Resting(s.c) && ValidJob(j)
    ensures Run(s, [Invoke(j)]) == Some(Config(s.w, Begins(j)))
  {
    assert [Invoke(j)][..0] == [];
  }

  lemma LastAdvanceRuns(s: Config, j: Job, prev: nat)
    requires s.c == Act(j, prev, Advancing(Committed))
    requires s.w.record == Some(Pending(j.op, j.target, prev, Committing))
    ensures Run(s, [Do(Advance(j.op, Committed, false, true))])
         == Some(Config(s.w.(record := Some(Pending(j.op, j.target, prev, Committed))),
                        Act(j, prev, Advanced(Committed, false))))
  {
    hide StepRollback, StepRecovery;
    assert [Do(Advance(j.op, Committed, false, true))][..0] == [];
  }

  lemma UnreportedCommitRuns(prev: nat, j: Job)
    requires prev > 0 && ValidJob(j) && j.target != prev
    ensures Run(Config(World(Known(prev), Some(prev), None), Idle), UnreportedCommit(j, prev))
         == Some(Config(World(Known(j.target), Some(j.target), Some(Pending(j.op, j.target, prev, Committed))),
                        Act(j, prev, Advanced(Committed, false))))
  {
    hide BeforeCommitted, Dos, Exec;
    var s0 := Config(World(Known(prev), Some(prev), None), Idle);
    var s := BeforeCommittedLeads(prev, j);
    var head := [Invoke(j)];
    var middle := Dos(BeforeCommitted(j, prev));
    InvokeRuns(s0, j);
    ExecIsRun(Config(s0.w, Begins(j)), BeforeCommitted(j, prev));
    RunAppend(s0, head, middle);
    LastAdvanceRuns(s, j, prev);
    RunAppend(s0, head + middle, [Do(Advance(j.op, Committed, false, true))]);
  }

  /** The failing input is a real one: from every clean world and for every valid activation of another revision, the
      code can run up to its last advance without a fault, meet that one unreported commit, crash, and recover with
      success into a world where the marker names the target and PF holds the previous revision. */
  lemma DivergenceIsReachable(prev: nat, j: Job) returns (rest: seq<Action>)
    requires prev > 0 && ValidJob(j) && j.target != prev
    ensures Reported(rest)
    ensures Run(Config(World(Known(prev), Some(prev), None), Idle), UnreportedCommit(j, prev) + rest)
         == Some(Config(World(Known(prev), Some(j.target), None), Recovered(CommittedCleaned)))
  {
    hide UnreportedCommit, Reported;
    var s0 := Config(World(Known(prev), Some(prev), None), Idle);
    var p := Pending(j.op, j.target, prev, Committed);
    UnreportedCommitRuns(prev, j);
    rest := DivergingRun(World(Known(j.target), Some(j.target), Some(p)), j, prev, p);
    RunAppend(s0, UnreportedCommit(j, prev), rest);
  }
}
