/**
 The order of effects.  On its way to the commit the code has exactly one history at each control point, so what
 precedes the PF load and the marker update is known effect by effect.
 */
module GatingTheorems {
  import opened Basics
  import opened ActivationProtocol
  import opened ActivationInvariant
  import opened ActivationTheorems

  predicate AppendsOk(trace: seq<Effect>) {
    forall i :: 0 <= i < |trace| && trace[i].Append? ==> trace[i].ok
  }

  // Everything that has to happen before the target ruleset is loaded.
  function BeforeLoad(j: Job, prev: nat): seq<Effect> {
    [Append(ActivationStarted, true),
     Authorize(Authorized),
     Append(AuthorizationChecked(Authorized), true),
     ReadMarker(Some(prev)),
     ReadRevision(j.target, true),
     Append(RevalidationStarted, true),
     Validate(j.target, true),
     Append(ValidationFinished(j.target, true), true),
     Append(BeginStarted, true),
     Begin(Pending(j.op, j.target, prev, PreparedForLoad), Created, true),
     Append(BeginFinished(Created), true),
     Append(LoadIntent, true)]
  }

  function AdvanceRound(j: Job, next: Phase): seq<Effect> {
    [Advance(j.op, next, true, true), Append(AdvanceFinished(next, true), true)]
  }

  function ProbeRound(i: nat): seq<Effect> {
    [Append(ProbeStarted(i), true), RunProbe(i, true), Append(ProbeFinished(i, true), true)]
  }

  // The first n probes, in order, all healthy.
  function ProbeRounds(n: nat): seq<Effect> {
    if n == 0 then [] else ProbeRounds(n - 1) + ProbeRound(n - 1)
  }

  function BeforeProbes(j: Job, prev: nat): seq<Effect> {
    BeforeLoad(j, prev) + [LoadPf(j.target, true), Append(LoadFinished(j.target, true), true)]
      + AdvanceRound(j, TargetLoaded)
  }

  function BeforeConfirmation(j: Job, prev: nat): seq<Effect> {
    BeforeProbes(j, prev) + ProbeRounds(j.probes) + AdvanceRound(j, Verified) + AdvanceRound(j, AwaitingConfirmation)
  }

  function BeforeCommitting(j: Job, prev: nat): seq<Effect> {
    BeforeConfirmation(j, prev)
      + [Append(ConfirmationPending, true), Confirm(true), Append(ConfirmationFinished(true), true)]
  }

  // Everything that has to happen before the marker moves to the target.
  function BeforeMark(j: Job, prev: nat): seq<Effect> {
    BeforeCommitting(j, prev) + AdvanceRound(j, Committing) + [Append(CommitStarted, true)]
  }

  function BeforeCommitted(j: Job, prev: nat): seq<Effect> {
    BeforeMark(j, prev) + [Mark(j.target, true, true), Append(MarkFinished(j.target, true), true)]
  }

  function FullCommit(j: Job, prev: nat): seq<Effect> {
    BeforeCommitted(j, prev) + AdvanceRound(j, Committed)
      + [Append(ActivationCommitted, true), Clear(j.op, true, true)]
  }

  function BeforeAdvance(j: Job, prev: nat, next: Phase): Option<seq<Effect>> {
    match next
    case PreparedForLoad => None
    case TargetLoaded =>
      Some(BeforeLoad(j, prev) + [LoadPf(j.target, true), Append(LoadFinished(j.target, true), true)])
    case Verified => Some(BeforeProbes(j, prev) + ProbeRounds(j.probes))
    case AwaitingConfirmation => Some(BeforeProbes(j, prev) + ProbeRounds(j.probes) + AdvanceRound(j, Verified))
    case Committing => Some(BeforeCommitting(j, prev))
    case Committed => Some(BeforeCommitted(j, prev))
  }

  function LaterHistory(j: Job, prev: nat, at: Stage): Option<seq<Effect>> {
    match at
    case Advancing(next) => BeforeAdvance(j, prev, next)
    case Advanced(next, true) =>
      if BeforeAdvance(j, prev, next).None? then None
      else Some(BeforeAdvance(j, prev, next).value + AdvanceRound(j, next)[..1])
    case AnnouncingProbe(i) => Some(BeforeProbes(j, prev) + ProbeRounds(i))
    case Probing(i) => Some(BeforeProbes(j, prev) + ProbeRounds(i) + ProbeRound(i)[..1])
    case Probed(i, true) => Some(BeforeProbes(j, prev) + ProbeRounds(i) + ProbeRound(i)[..2])
    case AnnouncingConfirmation => Some(BeforeConfirmation(j, prev))
    case Confirming => Some(BeforeConfirmation(j, prev) + [Append(ConfirmationPending, true)])
    case Confirmed(true) => Some(BeforeConfirmation(j, prev) + [Append(ConfirmationPending, true), Confirm(true)])
    case AnnouncingCommit => Some(BeforeCommitting(j, prev) + AdvanceRound(j, Committing))
    case Marking => Some(BeforeMark(j, prev))
    case Marked(true) => Some(BeforeMark(j, prev) + [Mark(j.target, true, true)])
    case Announced7(true) => Some(BeforeCommitted(j, prev) + AdvanceRound(j, Committed))
    case Clearing(true) =>
      Some(BeforeCommitted(j, prev) + AdvanceRound(j, Committed) + [Append(ActivationCommitted, true)])
    case _ => None
  }

  // The one history of a control point on the way to the commit; None off that way.
  function History(j: Job, prev: nat, at: Stage): Option<seq<Effect>> {
    var load := BeforeLoad(j, prev);
    match at
    case Start => Some([])
    case Authorizing => Some(load[..1])
    case Authorized1(Authorized) => Some(load[..2])
    case ReadingMarker => Some(load[..3])
    case ReadingTarget => Some(load[..4])
    case AnnouncingValidation => Some(load[..5])
    case Validating => Some(load[..6])
    case Validated(true) => Some(load[..7])
    case AnnouncingBegin => Some(load[..8])
    case Beginning => Some(load[..9])
    case Begun(Created) => Some(load[..10])
    case AnnouncingLoad => Some(load[..11])
    case LoadingTarget => Some(load)
    case Loaded(true) => Some(load + [LoadPf(j.target, true)])
    case _ => LaterHistory(j, prev, at)
  }

  // The statuses that promise a complete audit trail.
  predicate FullyAudited(s: ActivationStatus) {
    || s == CommittedOk || s == ActivationFailed || s == VerificationFailedRolledBack
    || s == ConfirmationFailedRolledBack || s == CommitFailedRolledBack
  }

  // What the trace looks like at a control point.  Only the commit tail and the clearing of an unused record are
  // entered with a failed append behind them.
  ghost predicate Traced(trace: seq<Effect>, c: Control) {
    match c
    case Act(j, prev, at) =>
      && (match at
          case ClearingUnaudited => true
          case Announced7(audited) => audited ==> AppendsOk(trace)
          case Clearing(audited) => audited ==> AppendsOk(trace)
          case _ => AppendsOk(trace))
      && (History(j, prev, at).Some? ==> trace == History(j, prev, at).value)
    case Roll(_, _, desired, compromised, _) => desired != TransactionStoreFailed && !compromised ==> AppendsOk(trace)
    case Done(j, s) =>
      && (FullyAudited(s) ==> AppendsOk(trace))
      && (s == CommittedOk ==> exists prev :: trace == FullCommit(j, prev))
    case _ => true
  }

  lemma AppendsOkSnoc(trace: seq<Effect>, e: Effect)
    ensures AppendsOk(trace + [e]) <==> AppendsOk(trace) && (e.Append? ==> e.ok)
  {
    if AppendsOk(trace + [e]) {
      assert (trace + [e])[|trace|] == e;
      forall i | 0 <= i < |trace| && trace[i].Append? ensures trace[i].ok { assert (trace + [e])[i] == trace[i]; }
    }
  }

  lemma LoadPrefixes(j: Job, prev: nat)
    ensures forall k :: 0 <= k < 12 ==>
              BeforeLoad(j, prev)[..k] + [BeforeLoad(j, prev)[k]] == BeforeLoad(j, prev)[..k + 1]
  {
    var load := BeforeLoad(j, prev);
    assert forall k :: 0 <= k < 12 ==> load[..k] + [load[k]] == load[..k + 1];
  }

  // The rollback revision is not yet known up to the reading of the marker.
  lemma EarlyPrefix(j: Job, prev: nat, found: nat)
    ensures BeforeLoad(j, prev)[..3] == BeforeLoad(j, found)[..3]
  {}

  lemma AuthorizeTraced(w: World, j: Job, prev: nat, at: Stage, e: Effect, c: Control, trace: seq<Effect>)
    requires Legal(w, e) && StepAuthorize(j, prev, at, e) == Some(c)
    requires Traced(trace, Act(j, prev, at))
    ensures Traced(trace + [e], c)
  {
    AppendsOkSnoc(trace, e);
    LoadPrefixes(j, prev);
    if c.Act? && c.prev != prev {
      EarlyPrefix(j, prev, c.prev);
      LoadPrefixes(j, c.prev);
    }
  }

  lemma PrepareTraced(w: World, j: Job, prev: nat, at: Stage, e: Effect, c: Control, trace: seq<Effect>)
    requires Legal(w, e) && StepPrepare(j, prev, at, e) == Some(c)
    requires Traced(trace, Act(j, prev, at))
    ensures Traced(trace + [e], c)
  {
    AppendsOkSnoc(trace, e);
    LoadPrefixes(j, prev);
  }

  lemma BeginTraced(w: World, j: Job, prev: nat, at: Stage, e: Effect, c: Control, trace: seq<Effect>)
    requires Legal(w, e) && StepBegin(j, prev, at, e) == Some(c)
    requires Traced(trace, Act(j, prev, at))
    ensures Traced(trace + [e], c)
  {
    AppendsOkSnoc(trace, e);
    LoadPrefixes(j, prev);
  }

  lemma TargetTraced(w: World, j: Job, prev: nat, at: Stage, e: Effect, c: Control, trace: seq<Effect>)
    requires at.LoadingTarget? || at.Loaded?
    requires Legal(w, e) && StepVerify(j, prev, at, e) == Some(c)
    requires Traced(trace, Act(j, prev, at))
    ensures Traced(trace + [e], c)
  {
    AppendsOkSnoc(trace, e);
  }

  lemma ProbeTraced(w: World, j: Job, prev: nat, at: Stage, e: Effect, c: Control, trace: seq<Effect>)
    requires !at.LoadingTarget? && !at.Loaded? && (at.Probed? ==> at.index < j.probes)
    requires Legal(w, e) && StepVerify(j, prev, at, e) == Some(c)
    requires Traced(trace, Act(j, prev, at))
    ensures Traced(trace + [e], c)
  {
    AppendsOkSnoc(trace, e);
    if at.Probed? && at.ok && e.ok {
      assert trace + [e] == BeforeProbes(j, prev) + (ProbeRounds(at.index) + ProbeRound(at.index));
    }
  }

  lemma VerifyTraced(w: World, j: Job, prev: nat, at: Stage, e: Effect, c: Control, trace: seq<Effect>)
    requires at.Probed? ==> at.index < j.probes
    requires Legal(w, e) && StepVerify(j, prev, at, e) == Some(c)
    requires Traced(trace, Act(j, prev, at))
    ensures Traced(trace + [e], c)
  {
    hide Traced, Legal;
    if at.LoadingTarget? || at.Loaded? {
      TargetTraced(w, j, prev, at, e, c, trace);
    } else {
      ProbeTraced(w, j, prev, at, e, c, trace);
    }
  }

  lemma AdvanceTraced(w: World, j: Job, prev: nat, next: Phase, e: Effect, c: Control, trace: seq<Effect>)
    requires Legal(w, e) && StepAdvance(j, prev, Advancing(next), e) == Some(c)
    requires Traced(trace, Act(j, prev, Advancing(next)))
    ensures Traced(trace + [e], c)
  {
    AppendsOkSnoc(trace, e);
  }

  lemma AdvancedHistory(j: Job, prev: nat, next: Phase)
    requires next != PreparedForLoad
    ensures History(j, prev, if next == Committed then Announced7(true) else AfterAdvance(next))
         == Some(BeforeAdvance(j, prev, next).value + AdvanceRound(j, next))
  {
    assert BeforeProbes(j, prev) + ProbeRounds(0) == BeforeProbes(j, prev);
  }

  lemma AdvancedTraced(j: Job, prev: nat, next: Phase, ok: bool, e: Effect, c: Control, trace: seq<Effect>)
    requires next != PreparedForLoad
    requires StepAdvance(j, prev, Advanced(next, ok), e) == Some(c)
    requires Traced(trace, Act(j, prev, Advanced(next, ok)))
    ensures Traced(trace + [e], c)
  {
    AppendsOkSnoc(trace, e);
    if e.ok && ok {
      assert trace + [e] == BeforeAdvance(j, prev, next).value + AdvanceRound(j, next);
      AdvancedHistory(j, prev, next);
    }
  }

  lemma ConfirmTraced(w: World, j: Job, prev: nat, at: Stage, e: Effect, c: Control, trace: seq<Effect>)
    requires Legal(w, e) && StepConfirm(j, prev, at, e) == Some(c)
    requires Traced(trace, Act(j, prev, at))
    ensures Traced(trace + [e], c)
  {
    AppendsOkSnoc(trace, e);
  }

  lemma MarkTraced(w: World, j: Job, prev: nat, at: Stage, e: Effect, c: Control, trace: seq<Effect>)
    requires Legal(w, e) && StepCommit(j, prev, at, e) == Some(c)
    requires at.AnnouncingCommit? || at.Marking? || at.Marked?
    requires Traced(trace, Act(j, prev, at))
    ensures Traced(trace + [e], c)
  {
    AppendsOkSnoc(trace, e);
  }

  lemma AnnouncedTraced(w: World, j: Job, prev: nat, at: Stage, e: Effect, c: Control, trace: seq<Effect>)
    requires Legal(w, e) && StepCommit(j, prev, at, e) == Some(c)
    requires at.Announced7?
    requires Traced(trace, Act(j, prev, at))
    ensures Traced(trace + [e], c)
  {
    AppendsOkSnoc(trace, e);
  }

  lemma ClearedTraced(w: World, j: Job, prev: nat, at: Stage, e: Effect, c: Control, trace: seq<Effect>)
    requires Legal(w, e) && StepCommit(j, prev, at, e) == Some(c)
    requires at.Clearing?
    requires Traced(trace, Act(j, prev, at))
    ensures Traced(trace + [e], c)
  {
    AppendsOkSnoc(trace, e);
    if at == Clearing(true) && e.ok {
      assert trace + [e] == FullCommit(j, prev);
    }
  }

  lemma CommitTraced(w: World, j: Job, prev: nat, at: Stage, e: Effect, c: Control, trace: seq<Effect>)
    requires Legal(w, e) && StepCommit(j, prev, at, e) == Some(c)
    requires Traced(trace, Act(j, prev, at))
    ensures Traced(trace + [e], c)
  {
    hide Traced, Legal;
    if at.Announced7? {
      AnnouncedTraced(w, j, prev, at, e, c, trace);
    } else if at.Clearing? {
      ClearedTraced(w, j, prev, at, e, c, trace);
    } else {
      MarkTraced(w, j, prev, at, e, c, trace);
    }
  }

  lemma RollbackTraced(j: Job, prev: nat, d: ActivationStatus, m: bool, at: RollStage, e: Effect, c: Control,
                       trace: seq<Effect>)
    requires RollbackReason(d)
    requires StepUndo(j, prev, d, m, at, e) == Some(c) || StepRestoreMarker(j, prev, d, m, at, e) == Some(c)
          || StepFinishUndo(j, prev, d, m, at, e) == Some(c)
    requires Traced(trace, Roll(j, prev, d, m, at))
    ensures Traced(trace + [e], c)
  {
    AppendsOkSnoc(trace, e);
  }

  lemma ActivationTraced(w0: World, w: World, j: Job, prev: nat, at: Stage, e: Effect, c: Control, silent: bool,
                         trace: seq<Effect>)
    requires HoldsActivate(w0, w, j, prev, at, silent) && Legal(w, e)
    requires StepActivation(j, prev, at, e) == Some(c) && Traced(trace, Act(j, prev, at))
    ensures Traced(trace + [e], c)
  {
    if StepAuthorize(j, prev, at, e) == Some(c) {
      AuthorizeTraced(w, j, prev, at, e, c, trace);
    } else if StepPrepare(j, prev, at, e) == Some(c) {
      PrepareTraced(w, j, prev, at, e, c, trace);
    } else if StepBegin(j, prev, at, e) == Some(c) {
      BeginTraced(w, j, prev, at, e, c, trace);
    } else if StepVerify(j, prev, at, e) == Some(c) {
      VerifyTraced(w, j, prev, at, e, c, trace);
    } else if at.Advancing? {
      AdvanceTraced(w, j, prev, at.next, e, c, trace);
    } else if at.Advanced? {
      AdvancedTraced(j, prev, at.next, at.ok, e, c, trace);
    } else if StepConfirm(j, prev, at, e) == Some(c) {
      ConfirmTraced(w, j, prev, at, e, c, trace);
    } else {
      CommitTraced(w, j, prev, at, e, c, trace);
    }
  }

  lemma StepTraced(w0: World, w: World, c: Control, e: Effect, c2: Control, silent: bool, trace: seq<Effect>)
    requires Holds(w0, w, c, silent) && Legal(w, e) && Step(c, e) == Some(c2) && Subject(c).Some?
    requires Traced(trace, c)
    ensures Traced(trace + [e], c2)
  {
    match c
    case Act(j, prev, at) => ActivationTraced(w0, w, j, prev, at, e, c2, silent, trace);
    case Roll(j, prev, d, m, at) => RollbackTraced(j, prev, d, m, at, e, c2, trace);
    case _ =>
  }

  lemma NothingTraced(j: Job)
    ensures Traced([], Begins(j))
  {}

  lemma {:induction false} ExecTraced(w0: World, j: Job, trace: seq<Effect>, s: Config)
    requires ValidJob(j) && Exec(Config(w0, Begins(j)), trace) == Some(s)
    ensures Traced(trace, s.c)
    decreases |trace|
  {
    hide Traced, Holds, Legal, Apply, Step, Silent;
    BeginHolds(w0, j);
    if trace == [] {
      NothingTraced(j);
    } else {
      var n := |trace| - 1;
      var before := Exec(Config(w0, Begins(j)), trace[..n]).value;
      ExecTraced(w0, j, trace[..n], before);
      ExecHolds(Config(w0, Begins(j)), trace[..n], before);
      assert trace == trace[..n] + [trace[n]];
      StepTraced(w0, before.w, before.c, trace[n], s.c, Silent(trace[..n]), trace[..n]);
    }
  }

  lemma {:induction false} ExecPrefix(s: Config, trace: seq<Effect>, i: nat)
    requires Exec(s, trace).Some? && i < |trace|
    ensures Exec(s, trace[..i]).Some? && Accepts(Exec(s, trace[..i]).value, trace[i])
    decreases |trace|
  {
    hide Legal, Apply, Step;
    var n := |trace| - 1;
    if i == n {
    } else {
      ExecPrefix(s, trace[..n], i);
      assert trace[..n][..i] == trace[..i];
    }
  }

  // Which control points perform the effects of interest.
  lemma LoadsTargetAt(w0: World, s: Config, e: Effect, j: Job, silent: bool)
    requires Holds(w0, s.w, s.c, silent) && Subject(s.c) == Some(j) && Accepts(s, e)
    requires e.LoadPf? && e.rev == j.target
    ensures w0.marker.Some? && s.c == Act(j, w0.marker.value, LoadingTarget)
  {}

  lemma MarksTargetAt(w0: World, s: Config, e: Effect, j: Job, silent: bool)
    requires Holds(w0, s.w, s.c, silent) && Subject(s.c) == Some(j) && Accepts(s, e)
    requires e.Mark? && e.rev == j.target
    ensures w0.marker.Some? && s.c == Act(j, w0.marker.value, Marking)
  {}

  /** A load of the target ruleset comes after exactly these effects: journaled start, authorization, resolved
      rollback and target revisions, successful revalidation, a durable record and the journaled intent. */
  lemma LoadGate(w0: World, j: Job, trace: seq<Effect>, i: nat)
    requires ValidJob(j) && Exec(Config(w0, Begins(j)), trace).Some?
    requires i < |trace| && trace[i].LoadPf? && trace[i].rev == j.target
    ensures w0.marker.Some? && trace[..i] == BeforeLoad(j, w0.marker.value)
  {
    var s0 := Config(w0, Begins(j));
    ExecPrefix(s0, trace, i);
    var s := Exec(s0, trace[..i]).value;
    ExecHolds(s0, trace[..i], s);
    ExecTraced(w0, j, trace[..i], s);
    LoadsTargetAt(w0, s, trace[i], j, Silent(trace[..i]));
  }

  /** The marker moves to the target only after these effects: in particular a successful load, every configured
      probe in order and healthy, and a valid confirmation, all of them journaled. */
  lemma MarkGate(w0: World, j: Job, trace: seq<Effect>, i: nat)
    requires ValidJob(j) && Exec(Config(w0, Begins(j)), trace).Some?
    requires i < |trace| && trace[i].Mark? && trace[i].rev == j.target
    ensures w0.marker.Some? && trace[..i] == BeforeMark(j, w0.marker.value)
  {
    var s0 := Config(w0, Begins(j));
    ExecPrefix(s0, trace, i);
    var s := Exec(s0, trace[..i]).value;
    ExecHolds(s0, trace[..i], s);
    ExecTraced(w0, j, trace[..i], s);
    MarksTargetAt(w0, s, trace[i], j, Silent(trace[..i]));
  }

  /** These statuses are only reported when every audit append of the operation succeeded. */
  lemma FullyAuditedStatus(w0: World, j: Job, trace: seq<Effect>, w: World, j2: Job, status: ActivationStatus)
    requires ValidJob(j) && Exec(Config(w0, Begins(j)), trace) == Some(Config(w, Done(j2, status)))
    ensures FullyAudited(status) ==> AppendsOk(trace)
  {
    ExecTraced(w0, j, trace, Config(w, Done(j2, status)));
  }
}
