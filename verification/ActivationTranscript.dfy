/**
 What an activation does after something has gone wrong, effect by effect.  Up to its first fault an activation does
 what a commit does; what comes then depends on that fault alone, and on how far the way back gets.
 */
module ActivationTranscript {
  import opened Basics
  import opened ActivationProtocol
  import opened ActivationInvariant
  import opened ActivationTheorems
  import opened GatingTheorems
  import opened CommitTheorem
  import opened ActivationVerdict
  import opened Restoration

  // ---------- the parts of a transcript ----------

  // The effects before the first fault.
  function Good(j: Job, trace: seq<Effect>): seq<Effect>
    decreases |trace|
  {
    if trace == [] then []
    else
      var n := |trace| - 1;
      if Faults(j, trace[..n]) == [] && Smooth(j, trace[n]) then trace else Good(j, trace[..n])
  }

  // The effects after it.
  function Rest(j: Job, trace: seq<Effect>): seq<Effect>
    decreases |trace|
  {
    if trace == [] then []
    else
      var n := |trace| - 1;
      if Faults(j, trace[..n]) == [] then [] else Rest(j, trace[..n]) + [Plain(trace[n])]
  }

  // The event that reports a failed call.
  function Report(f: Effect): seq<Effect> {
    match f
    case Authorize(a) => [Event(AuthorizationChecked(a))]
    case ReadMarker(found) => [Event(if found.None? then NoLastKnownGood else AlreadyLastKnownGood)]
    case ReadRevision(_, _) => [Event(TargetUnavailableEvent)]
    case Validate(rev, ok) => [Event(ValidationFinished(rev, ok))]
    case Begin(_, status, _) => [Event(BeginFinished(status))]
    case LoadPf(rev, ok) => [Event(LoadFinished(rev, ok))]
    case RunProbe(i, ok) => [Event(ProbeFinished(i, ok))]
    case Confirm(ok) => [Event(ConfirmationFinished(ok))]
    case Mark(rev, ok, _) => [Event(MarkFinished(rev, ok))]
    case Advance(_, next, ok, _) => [Event(AdvanceFinished(next, ok))]
    case _ => []
  }

  // The rollback closure of which n calls succeed.
  function RollbackTrace(op: string, prev: nat, n: nat): seq<Effect>
    requires n <= 4
  {
    [Event(RollbackStarted)] + WayBackTrace(op, prev, n)
      + if n == 4 then [Event(RollbackSucceeded)] else if n < 3 then [Event(RollbackGaveUp)] else []
  }

  ghost predicate RollsBack(j: Job, prev: nat, rest: seq<Effect>) {
    exists n :: 0 <= n <= 4 && rest == RollbackTrace(j.op, prev, n)
  }

  predicate JustClears(op: string, rest: seq<Effect>) {
    |rest| == 1 && rest[0].Clear? && rest[0] == Clear(op, rest[0].ok, rest[0].ok)
  }

  /** What follows the first fault of an activation that has ended. */
  ghost predicate Aftermath(j: Job, prev: nat, f: Effect, rest: seq<Effect>) {
    match f
    case Append(event, _) =>
      (match PeriodOf(event)
       case BeforeRecord => rest == []
       case RecordOnly => JustClears(j.op, rest)
       case Exposed => RollsBack(j, prev, rest)
       case AfterCommit =>
         if event == ActivationCommitted then JustClears(j.op, rest)
         else rest != [] && rest[0] == Event(ActivationCommitted) && JustClears(j.op, rest[1..]))
    case Clear(_, _, _) => rest == []
    case Authorize(_) | ReadMarker(_) | ReadRevision(_, _) | Validate(_, _) | Begin(_, _, _) => rest == Report(f)
    case _ => |rest| > 0 && rest[..1] == Report(f) && RollsBack(j, prev, rest[1..])
  }

  // ---------- at every control point ----------

  // The rollback closure up to a control point on its way.
  function RollPrefix(op: string, prev: nat, at: RollStage): seq<Effect> {
    if at.RollAnnouncing? then []
    else
      [Event(RollbackStarted)]
      + match at
        case RollValidated(ok) => [WayCall(op, prev, 0, ok)]
        case RollLoading => Rounds(op, prev, 1)
        case RollLoaded(ok) => Rounds(op, prev, 1) + [WayCall(op, prev, 1, ok)]
        case RollMarking => Rounds(op, prev, 2)
        case RollMarked(ok) => Rounds(op, prev, 2) + [WayCall(op, prev, 2, ok)]
        case RollClearing => Rounds(op, prev, 3)
        case RollCleared(ok) => Rounds(op, prev, 3) + [WayCall(op, prev, 3, ok)]
        case RollFinishing => Rounds(op, prev, 4)
        case _ => []
  }

  // What comes between the first fault and the rollback.
  function Lead(f: Effect): seq<Effect> { if f.Append? then [] else Report(f) }

  ghost predicate RollWritten(op: string, prev: nat, at: RollStage, rest: seq<Effect>) {
    if at.RollGivingUp? then
      exists n :: 0 <= n < 3 && rest == [Event(RollbackStarted)] + WayBackTrace(op, prev, n)
    else rest == RollPrefix(op, prev, at)
  }

  ghost predicate RollStands(j: Job, prev: nat, at: RollStage, f: Effect, rest: seq<Effect>) {
    && |Lead(f)| <= |rest| && rest[..|Lead(f)|] == Lead(f)
    && RollWritten(j.op, prev, at, rest[|Lead(f)|..])
  }

  // What has been written after the first fault, at a control point; `base` is the revision to fall back to.
  ghost predicate Written(base: nat, c: Control, faults: seq<Effect>, rest: seq<Effect>) {
    match c
    case Act(_, _, at) =>
      if at == Clearing(false) && faults != [] && faults[0].Append? && faults[0].event != ActivationCommitted
      then rest == [Event(ActivationCommitted)]
      else rest == []
    case Roll(j, prev, _, _, at) => prev == base && faults != [] && RollStands(j, prev, at, faults[0], rest)
    case Done(j, _) => if faults == [] then rest == [] else Aftermath(j, base, faults[0], rest)
    case _ => true
  }

  function Longer(faults: seq<Effect>, rest: seq<Effect>, e: Effect): seq<Effect> {
    if faults == [] then [] else rest + [Plain(e)]
  }

  lemma AuthorizeWritten(base: nat, j: Job, prev: nat, at: Stage, e: Effect, c: Control, faults: seq<Effect>,
                        rest: seq<Effect>)
    requires StepAuthorize(j, prev, at, e) == Some(c) && ToldAct(j, at, faults)
    requires Written(base, Act(j, prev, at), faults, rest)
    ensures Written(base, c, More(j, faults, e), Longer(faults, rest, e))
  {
    hide Verdict, OneCause, Uncleared, Broken, Unaudited;
  }

  lemma PrepareWritten(base: nat, j: Job, prev: nat, at: Stage, e: Effect, c: Control, faults: seq<Effect>,
                        rest: seq<Effect>)
    requires StepPrepare(j, prev, at, e) == Some(c) && ToldAct(j, at, faults)
    requires Written(base, Act(j, prev, at), faults, rest)
    ensures Written(base, c, More(j, faults, e), Longer(faults, rest, e))
  {
    hide Verdict, OneCause, Uncleared, Broken, Unaudited;
  }

  lemma BeginWritten(base: nat, j: Job, prev: nat, at: Stage, e: Effect, c: Control, faults: seq<Effect>,
                        rest: seq<Effect>)
    requires StepBegin(j, prev, at, e) == Some(c) && ToldAct(j, at, faults)
    requires Written(base, Act(j, prev, at), faults, rest)
    ensures Written(base, c, More(j, faults, e), Longer(faults, rest, e))
  {
    hide Verdict, OneCause, Uncleared, Broken, Unaudited;
  }

  lemma VerifyWritten(base: nat, j: Job, prev: nat, at: Stage, e: Effect, c: Control, faults: seq<Effect>,
                        rest: seq<Effect>)
    requires StepVerify(j, prev, at, e) == Some(c) && ToldAct(j, at, faults)
    requires Written(base, Act(j, prev, at), faults, rest)
    requires prev == base
    ensures Written(base, c, More(j, faults, e), Longer(faults, rest, e))
  {
    hide Verdict, OneCause, Uncleared, Broken, Unaudited;
  }

  lemma AdvanceWritten(base: nat, j: Job, prev: nat, at: Stage, e: Effect, c: Control, faults: seq<Effect>,
                        rest: seq<Effect>)
    requires StepAdvance(j, prev, at, e) == Some(c) && ToldAct(j, at, faults)
    requires Written(base, Act(j, prev, at), faults, rest)
    requires prev == base
    ensures Written(base, c, More(j, faults, e), Longer(faults, rest, e))
  {
    hide Verdict, OneCause, Uncleared, Broken, Unaudited;
  }

  lemma ConfirmWritten(base: nat, j: Job, prev: nat, at: Stage, e: Effect, c: Control, faults: seq<Effect>,
                        rest: seq<Effect>)
    requires StepConfirm(j, prev, at, e) == Some(c) && ToldAct(j, at, faults)
    requires Written(base, Act(j, prev, at), faults, rest)
    requires prev == base
    ensures Written(base, c, More(j, faults, e), Longer(faults, rest, e))
  {
    hide Verdict, OneCause, Uncleared, Broken, Unaudited;
  }

  lemma MarkWritten(base: nat, j: Job, prev: nat, at: Stage, e: Effect, c: Control, faults: seq<Effect>,
                        rest: seq<Effect>)
    requires StepCommit(j, prev, at, e) == Some(c) && ToldAct(j, at, faults)
    requires Written(base, Act(j, prev, at), faults, rest)
    requires prev == base
    requires at.AnnouncingCommit? || at.Marking? || at.Marked?
    ensures Written(base, c, More(j, faults, e), Longer(faults, rest, e))
  {
    hide Verdict, OneCause, Uncleared, Broken, Unaudited;
  }

  lemma FinishWritten(base: nat, j: Job, prev: nat, at: Stage, e: Effect, c: Control, faults: seq<Effect>,
                        rest: seq<Effect>)
    requires StepCommit(j, prev, at, e) == Some(c) && ToldAct(j, at, faults)
    requires Written(base, Act(j, prev, at), faults, rest)
    requires prev == base
    requires at.Announced7? || at.Clearing?
    ensures Written(base, c, More(j, faults, e), Longer(faults, rest, e))
  {
    hide Verdict, OneCause, Uncleared, Broken, Unaudited;
    assert (rest + [Plain(e)])[|rest|..] == [Plain(e)];
  }

  // One more effect behind the lead.
  lemma BehindLead(lead: seq<Effect>, rest: seq<Effect>, e: Effect)
    requires |lead| <= |rest| && rest[..|lead|] == lead
    ensures (rest + [e])[..|lead|] == lead && (rest + [e])[|lead|..] == rest[|lead|..] + [e]
  {}

  lemma UndoWritten(j: Job, prev: nat, d: ActivationStatus, m: bool, at: RollStage, e: Effect, c: Control,
                    rest: seq<Effect>)
    requires StepUndo(j, prev, d, m, at, e) == Some(c) && RollWritten(j.op, prev, at, rest)
    ensures c.Roll? && RollWritten(j.op, prev, c.rollAt, rest + [Plain(e)])
  {
    hide Rounds, WayBackTrace;
    OneRound(j.op, prev, 0);
    OneRound(j.op, prev, 1);
    assert Rounds(j.op, prev, 0) == [] by { NoRounds(j.op, prev); }
    var rs := [Event(RollbackStarted)];
    var w := rest + [Plain(e)];
    match at
    case RollValidated(ok) =>
      if !ok { assert w == rs + WayBackTrace(j.op, prev, 0); } else { assert w == rs + Rounds(j.op, prev, 1); }
    case RollLoaded(ok) =>
      if !ok { assert w == rs + WayBackTrace(j.op, prev, 1); } else { assert w == rs + Rounds(j.op, prev, 2); }
    case RollLoading =>
      assert w == rs + (Rounds(j.op, prev, 1) + [WayCall(j.op, prev, 1, e.ok)]);
    case _ =>
  }

  // Where the rollback closure ends, its transcript is complete.
  ghost predicate RollOrEnd(j: Job, prev: nat, c: Control, rest: seq<Effect>) {
    match c
    case Roll(_, _, _, _, at) => RollWritten(j.op, prev, at, rest)
    case _ => RollsBack(j, prev, rest)
  }

  lemma RestoreWritten(j: Job, prev: nat, d: ActivationStatus, m: bool, at: RollStage, e: Effect, c: Control,
                       rest: seq<Effect>)
    requires StepRestoreMarker(j, prev, d, m, at, e) == Some(c) && RollWritten(j.op, prev, at, rest)
    ensures RollOrEnd(j, prev, c, rest + [Plain(e)])
  {
    hide Rounds, WayBackTrace;
    OneRound(j.op, prev, 2);
    var rs := [Event(RollbackStarted)];
    var w := rest + [Plain(e)];
    match at
    case RollMarking => assert w == rs + (Rounds(j.op, prev, 2) + [WayCall(j.op, prev, 2, e.ok)]);
    case RollMarked(ok) =>
      if !ok { assert w == rs + WayBackTrace(j.op, prev, 2); } else { assert w == rs + Rounds(j.op, prev, 3); }
    case RollGivingUp =>
      var n :| 0 <= n < 3 && rest == rs + WayBackTrace(j.op, prev, n);
      assert w == RollbackTrace(j.op, prev, n);
    case _ =>
  }

  lemma FinishUndoWritten(j: Job, prev: nat, d: ActivationStatus, m: bool, at: RollStage, e: Effect, c: Control,
                          rest: seq<Effect>)
    requires StepFinishUndo(j, prev, d, m, at, e) == Some(c) && RollWritten(j.op, prev, at, rest)
    ensures RollOrEnd(j, prev, c, rest + [Plain(e)])
  {
    hide Rounds, WayBackTrace;
    OneRound(j.op, prev, 3);
    var rs := [Event(RollbackStarted)];
    var w := rest + [Plain(e)];
    match at
    case RollClearing => assert w == rs + (Rounds(j.op, prev, 3) + [WayCall(j.op, prev, 3, e.ok)]);
    case RollCleared(ok) =>
      if !ok {
        assert w == RollbackTrace(j.op, prev, 3);
      } else {
        assert w == rs + Rounds(j.op, prev, 4);
      }
    case RollFinishing =>
      AllRounds(j.op, prev);
      assert w == RollbackTrace(j.op, prev, 4);
    case _ =>
  }

  lemma RollStep(j: Job, prev: nat, d: ActivationStatus, m: bool, at: RollStage, e: Effect, c: Control,
                 rest: seq<Effect>)
    requires StepRollback(j, prev, d, m, at, e) == Some(c) && RollWritten(j.op, prev, at, rest)
    ensures RollOrEnd(j, prev, c, rest + [Plain(e)])
    ensures (c.Roll? && c.job == j && c.prev == prev) || (c.Done? && c.job == j)
  {
    hide RollWritten, RollsBack;
    if StepUndo(j, prev, d, m, at, e) == Some(c) {
      UndoWritten(j, prev, d, m, at, e, c, rest);
    } else if StepRestoreMarker(j, prev, d, m, at, e) == Some(c) {
      RestoreWritten(j, prev, d, m, at, e, c, rest);
    } else {
      FinishUndoWritten(j, prev, d, m, at, e, c, rest);
    }
  }

  // The lead of an exposing fault is its report, and what follows it is a rollback.
  lemma RollEnds(j: Job, prev: nat, f: Effect, rest: seq<Effect>)
    requires Exposing(j, f) && |Lead(f)| <= |rest| && rest[..|Lead(f)|] == Lead(f)
    requires RollsBack(j, prev, rest[|Lead(f)|..])
    ensures Aftermath(j, prev, f, rest)
  {
    hide RollsBack;
    if f.Append? {
      assert rest[0..] == rest;
    }
  }

  lemma RollKeepsWritten(base: nat, j: Job, prev: nat, d: ActivationStatus, m: bool, at: RollStage, e: Effect,
                         c: Control, faults: seq<Effect>, rest: seq<Effect>)
    requires StepRollback(j, prev, d, m, at, e) == Some(c) && ToldRoll(j, prev, d, m, at, faults)
    requires Written(base, Roll(j, prev, d, m, at), faults, rest)
    ensures Written(base, c, More(j, faults, e), Longer(faults, rest, e))
  {
    hide RollWritten, RollsBack, Aftermath, Lead, Exposing, OneCause, Broken, Unaudited;
    var f := faults[0];
    BehindLead(Lead(f), rest, Plain(e));
    RollStep(j, prev, d, m, at, e, c, rest[|Lead(f)|..]);
    if c.Done? {
      RollEnds(j, prev, f, rest + [Plain(e)]);
    }
  }

  // Once there is a record the rollback revision is the marker's.
  lemma OwnsMarker(w0: World, w: World, j: Job, prev: nat, at: Stage, silent: bool, e: Effect)
    requires Holds(w0, w, Act(j, prev, at), silent)
    requires StepVerify(j, prev, at, e).Some? || StepAdvance(j, prev, at, e).Some?
          || StepConfirm(j, prev, at, e).Some? || StepCommit(j, prev, at, e).Some?
    ensures w0.marker == Some(prev)
  {}

  lemma ActKeepsWritten(w0: World, w: World, base: nat, j: Job, prev: nat, at: Stage, silent: bool, e: Effect,
                        c: Control, faults: seq<Effect>, rest: seq<Effect>)
    requires Holds(w0, w, Act(j, prev, at), silent) && (w0.marker.Some? ==> base == w0.marker.value)
    requires StepActivation(j, prev, at, e) == Some(c) && ToldAct(j, at, faults)
    requires Written(base, Act(j, prev, at), faults, rest)
    ensures Written(base, c, More(j, faults, e), Longer(faults, rest, e))
  {
    hide ToldAct, More, Longer, Written;
    if StepAuthorize(j, prev, at, e) == Some(c) {
      AuthorizeWritten(base, j, prev, at, e, c, faults, rest);
    } else if StepPrepare(j, prev, at, e) == Some(c) {
      PrepareWritten(base, j, prev, at, e, c, faults, rest);
    } else if StepBegin(j, prev, at, e) == Some(c) {
      BeginWritten(base, j, prev, at, e, c, faults, rest);
    } else {
      OwnsMarker(w0, w, j, prev, at, silent, e);
      if StepVerify(j, prev, at, e) == Some(c) {
        VerifyWritten(base, j, prev, at, e, c, faults, rest);
      } else if StepAdvance(j, prev, at, e) == Some(c) {
        AdvanceWritten(base, j, prev, at, e, c, faults, rest);
      } else if StepConfirm(j, prev, at, e) == Some(c) {
        ConfirmWritten(base, j, prev, at, e, c, faults, rest);
      } else if at.Announced7? || at.Clearing? {
        FinishWritten(base, j, prev, at, e, c, faults, rest);
      } else {
        MarkWritten(base, j, prev, at, e, c, faults, rest);
      }
    }
  }

  lemma StepWritten(w0: World, w: World, base: nat, c: Control, silent: bool, e: Effect, c2: Control, j: Job,
                    faults: seq<Effect>, rest: seq<Effect>)
    requires Holds(w0, w, c, silent) && (w0.marker.Some? ==> base == w0.marker.value)
    requires Step(c, e) == Some(c2) && Subject(c) == Some(j) && Told(c, faults) && Written(base, c, faults, rest)
    ensures Written(base, c2, More(j, faults, e), Longer(faults, rest, e))
  {
    hide Holds, ToldAct, ToldRoll, More, Longer, Written, Verdict, OneCause;
    match c
    case Act(_, prev, at) => ActKeepsWritten(w0, w, base, j, prev, at, silent, e, c2, faults, rest);
    case Roll(_, prev, d, m, at) => RollKeepsWritten(base, j, prev, d, m, at, e, c2, faults, rest);
    case _ =>
  }

  lemma NothingWritten(base: nat, j: Job)
    ensures Written(base, Begins(j), [], [])
  {}

  lemma {:induction false} ExecWritten(w0: World, base: nat, j: Job, trace: seq<Effect>, s: Config)
    requires ValidJob(j) && Exec(Config(w0, Begins(j)), trace) == Some(s)
    requires w0.marker.Some? ==> base == w0.marker.value
    ensures Written(base, s.c, Faults(j, trace), Rest(j, trace))
    decreases |trace|
  {
    hide Holds, Legal, Apply, Step, Told, Smooth, Subject, Written, Plain;
    BeginHolds(w0, j);
    if trace == [] {
      NothingWritten(base, j);
    } else {
      var s0 := Config(w0, Begins(j));
      var n := |trace| - 1;
      var before := Exec(s0, trace[..n]).value;
      ExecWritten(w0, base, j, trace[..n], before);
      ExecTold(w0, j, trace[..n], before);
      ExecHolds(s0, trace[..n], before);
      StepWritten(w0, before.w, base, before.c, Silent(trace[..n]), trace[n], s.c, j,
                  Faults(j, trace[..n]), Rest(j, trace[..n]));
      assert Faults(j, trace) == More(j, Faults(j, trace[..n]), trace[n]);
      assert Rest(j, trace) == Longer(Faults(j, trace[..n]), Rest(j, trace[..n]), trace[n]);
    }
  }

  // ---------- up to the first fault ----------

  // The call without its outcome.
  function Call(e: Effect): Effect {
    match e
    case Append(event, _) => Append(event, true)
    case Authorize(_) => Authorize(Authorized)
    case ReadMarker(_) => ReadMarker(None)
    case ReadRevision(rev, _) => ReadRevision(rev, true)
    case Validate(rev, _) => Validate(rev, true)
    case LoadPf(rev, _) => LoadPf(rev, true)
    case RunProbe(i, _) => RunProbe(i, true)
    case Confirm(_) => Confirm(true)
    case Begin(p, _, _) => Begin(p, Created, true)
    case Advance(op, next, _, _) => Advance(op, next, true, true)
    case Mark(rev, _, _) => Mark(rev, true, true)
    case Clear(op, _, _) => Clear(op, true, true)
    case LoadRecord(_) => LoadRecord(NoPendingRecord)
  }

  // The fault-free outcome of the effect due at a control point.
  ghost function DueAt(j: Job, prev: nat, at: Stage): Effect { Due(World(Unknown, Some(prev), None), j, prev, at) }

  /** The effects so far are those of a commit, and the fault is another outcome of the commit's next call. */
  ghost predicate Deviates(j: Job, base: nat, good: seq<Effect>, f: Effect) {
    good < FullCommit(j, base) && Call(f) == Call(FullCommit(j, base)[|good|])
  }

  lemma EarlyIsDue(j: Job, prev: nat, at: Stage, e: Effect)
    requires OnWay(at) && (StepAuthorize(j, prev, at, e).Some? || StepPrepare(j, prev, at, e).Some?)
    ensures Call(e) == Call(DueAt(j, prev, at))
  {}

  lemma MiddleIsDue(j: Job, prev: nat, at: Stage, e: Effect)
    requires OnWay(at) && (StepBegin(j, prev, at, e).Some? || StepVerify(j, prev, at, e).Some?)
    ensures Call(e) == Call(DueAt(j, prev, at))
  {}

  lemma LateIsDue(j: Job, prev: nat, at: Stage, e: Effect)
    requires OnWay(at)
    requires StepAdvance(j, prev, at, e).Some? || StepConfirm(j, prev, at, e).Some? || StepCommit(j, prev, at, e).Some?
    ensures Call(e) == Call(DueAt(j, prev, at))
  {}

  lemma Prefixes(a: seq<Effect>, b: seq<Effect>, c: seq<Effect>)
    ensures a <= a + b
    ensures a <= b && b <= c ==> a <= c
  {}

  lemma {:induction false} ProbesContinue(n: nat, i: nat)
    requires i < n
    ensures ProbeRounds(i) + ProbeRound(i) <= ProbeRounds(n)
    decreases n
  {
    hide ProbeRound;
    if i == n - 1 {
    } else {
      ProbesContinue(n - 1, i);
      Prefixes(ProbeRounds(n - 1), ProbeRound(n - 1), []);
      Prefixes(ProbeRounds(i) + ProbeRound(i), ProbeRounds(n - 1), ProbeRounds(n));
    }
  }

  lemma Milestones(j: Job, prev: nat)
    ensures BeforeLoad(j, prev) <= FullCommit(j, prev) && BeforeProbes(j, prev) <= FullCommit(j, prev)
    ensures BeforeConfirmation(j, prev) <= FullCommit(j, prev) && BeforeCommitting(j, prev) <= FullCommit(j, prev)
    ensures BeforeMark(j, prev) <= FullCommit(j, prev) && BeforeCommitted(j, prev) <= FullCommit(j, prev)
  {
    hide AdvanceRound, ProbeRounds, BeforeLoad;
    var f := FullCommit(j, prev);
    assert BeforeCommitted(j, prev) <= f;
    assert BeforeMark(j, prev) <= BeforeCommitted(j, prev);
    assert BeforeCommitting(j, prev) <= BeforeMark(j, prev);
    assert BeforeConfirmation(j, prev) <= BeforeCommitting(j, prev);
    assert BeforeProbes(j, prev) <= BeforeConfirmation(j, prev);
    assert BeforeLoad(j, prev) <= BeforeProbes(j, prev);
  }

  // The history of a control point and the effect due there are part of the commit.
  ghost predicate Continues(j: Job, prev: nat, at: Stage) {
    var h := History(j, prev, at);
    h.Some? && h.value + [DueAt(j, prev, at)] <= FullCommit(j, prev)
  }

  lemma LoadContinues(j: Job, prev: nat, at: Stage)
    requires OnWay(at)
    requires at.Start? || at.Authorizing? || at.Authorized1? || at.ReadingMarker? || at.ReadingTarget?
          || at.AnnouncingValidation? || at.Validating? || at.Validated? || at.AnnouncingBegin? || at.Beginning?
          || at.Begun? || at.AnnouncingLoad?
    ensures Continues(j, prev, at)
  {
    hide FullCommit, LaterHistory;
    Milestones(j, prev);
    LoadPrefixes(j, prev);
    var h := History(j, prev, at).value;
    var load := BeforeLoad(j, prev);
    assert load[|h|] == DueAt(j, prev, at);
    assert h + [DueAt(j, prev, at)] == load[..|h| + 1];
    Prefixes(load[..|h| + 1], load, FullCommit(j, prev));
  }

  lemma LoadedContinues(j: Job, prev: nat, at: Stage)
    requires at.LoadingTarget? || at == Loaded(true)
    ensures Continues(j, prev, at)
  {
    hide FullCommit, BeforeLoad, LaterHistory;
    Milestones(j, prev);
    var h := History(j, prev, at).value + [DueAt(j, prev, at)];
    assert h <= BeforeProbes(j, prev);
    Prefixes(h, BeforeProbes(j, prev), FullCommit(j, prev));
  }

  lemma AdvanceIsPart(j: Job, prev: nat, next: Phase)
    requires next != PreparedForLoad
    ensures BeforeAdvance(j, prev, next).value + AdvanceRound(j, next) <= FullCommit(j, prev)
  {
    hide BeforeLoad, ProbeRounds, AdvanceRound;
    Milestones(j, prev);
    var a := BeforeAdvance(j, prev, next).value + AdvanceRound(j, next);
    match next
    case TargetLoaded => Prefixes(a, BeforeProbes(j, prev), FullCommit(j, prev));
    case Verified =>
      assert a <= BeforeConfirmation(j, prev);
      Prefixes(a, BeforeConfirmation(j, prev), FullCommit(j, prev));
    case AwaitingConfirmation => Prefixes(a, BeforeConfirmation(j, prev), FullCommit(j, prev));
    case Committing =>
      assert a <= BeforeMark(j, prev);
      Prefixes(a, BeforeMark(j, prev), FullCommit(j, prev));
    case Committed => assert a <= FullCommit(j, prev);
  }

  lemma AdvanceContinues(j: Job, prev: nat, at: Stage)
    requires (at.Advancing? || (at.Advanced? && at.ok)) && at.next != PreparedForLoad
    ensures Continues(j, prev, at)
  {
    hide BeforeLoad, ProbeRounds;
    Milestones(j, prev);
    var before := BeforeAdvance(j, prev, at.next).value;
    var h := History(j, prev, at).value + [DueAt(j, prev, at)];
    assert h <= before + AdvanceRound(j, at.next);
    AdvanceIsPart(j, prev, at.next);
    Prefixes(h, before + AdvanceRound(j, at.next), FullCommit(j, prev));
  }

  lemma ProbeContinues(j: Job, prev: nat, at: Stage)
    requires (at.AnnouncingProbe? || at.Probing? || (at.Probed? && at.ok)) && at.index < j.probes
    ensures Continues(j, prev, at)
  {
    hide FullCommit, BeforeProbes, ProbeRounds;
    Milestones(j, prev);
    var h := History(j, prev, at).value + [DueAt(j, prev, at)];
    var round := BeforeProbes(j, prev) + (ProbeRounds(at.index) + ProbeRound(at.index));
    assert h <= round;
    ProbesContinue(j.probes, at.index);
    var all := BeforeProbes(j, prev) + ProbeRounds(j.probes);
    assert round <= all;
    assert all <= BeforeConfirmation(j, prev);
    Prefixes(h, round, all);
    Prefixes(h, all, BeforeConfirmation(j, prev));
    Prefixes(h, BeforeConfirmation(j, prev), FullCommit(j, prev));
  }

  lemma ConfirmContinues(j: Job, prev: nat, at: Stage)
    requires OnWay(at) && (at.AnnouncingConfirmation? || at.Confirming? || at.Confirmed?)
    ensures Continues(j, prev, at)
  {
    hide FullCommit, BeforeConfirmation;
    Milestones(j, prev);
    var h := History(j, prev, at).value + [DueAt(j, prev, at)];
    assert h <= BeforeCommitting(j, prev);
    Prefixes(h, BeforeCommitting(j, prev), FullCommit(j, prev));
  }

  lemma MarkContinues(j: Job, prev: nat, at: Stage)
    requires OnWay(at) && (at.AnnouncingCommit? || at.Marking? || at.Marked?)
    ensures Continues(j, prev, at)
  {
    hide FullCommit, BeforeCommitting, AdvanceRound;
    Milestones(j, prev);
    var h := History(j, prev, at).value + [DueAt(j, prev, at)];
    assert h <= BeforeCommitted(j, prev);
    Prefixes(h, BeforeCommitted(j, prev), FullCommit(j, prev));
  }

  lemma FinishContinues(j: Job, prev: nat, at: Stage)
    requires OnWay(at) && (at.Announced7? || at.Clearing?)
    ensures Continues(j, prev, at)
  {
    hide BeforeCommitted, AdvanceRound;
    assert History(j, prev, at).value + [DueAt(j, prev, at)] <= FullCommit(j, prev);
  }

  predicate InRange(j: Job, at: Stage) {
    match at
    case Advancing(next) => next != PreparedForLoad
    case Advanced(next, _) => next != PreparedForLoad
    case AnnouncingProbe(i) => i < j.probes
    case Probing(i) => i < j.probes
    case Probed(i, _) => i < j.probes
    case _ => true
  }

  lemma InRangeNext(j: Job, at: Stage)
    requires InRange(j, at)
    ensures at.Advancing? || at.Advanced? ==> at.next != PreparedForLoad
    ensures at.AnnouncingProbe? || at.Probing? || at.Probed? ==> at.index < j.probes
  {}

  lemma AllContinue(j: Job, prev: nat, at: Stage)
    requires OnWay(at) && InRange(j, at)
    ensures Continues(j, prev, at)
  {
    hide Continues, InRange;
    match at
    case LoadingTarget => LoadedContinues(j, prev, at);
    case Loaded(_) => LoadedContinues(j, prev, at);
    case Advancing(_) => InRangeNext(j, at); AdvanceContinues(j, prev, at);
    case Advanced(_, _) => InRangeNext(j, at); AdvanceContinues(j, prev, at);
    case AnnouncingProbe(_) => InRangeNext(j, at); ProbeContinues(j, prev, at);
    case Probing(_) => InRangeNext(j, at); ProbeContinues(j, prev, at);
    case Probed(_, _) => InRangeNext(j, at); ProbeContinues(j, prev, at);
    case AnnouncingConfirmation | Confirming => ConfirmContinues(j, prev, at);
    case Confirmed(_) => ConfirmContinues(j, prev, at);
    case AnnouncingCommit | Marking => MarkContinues(j, prev, at);
    case Marked(_) => MarkContinues(j, prev, at);
    case Announced7(_) => FinishContinues(j, prev, at);
    case Clearing(_) => FinishContinues(j, prev, at);
    case _ => LoadContinues(j, prev, at);
  }

  lemma HoldsInRange(w0: World, w: World, j: Job, prev: nat, at: Stage, silent: bool)
    requires Holds(w0, w, Act(j, prev, at), silent)
    ensures InRange(j, at)
  {
    hide HoldsPrepare, Open;
  }

  lemma NoFaultsOnWay(c: Control)
    requires Told(c, []) && Subject(c).Some?
    ensures c.Act? ==> OnWay(c.at)
    ensures !c.Roll?
  {}

  predicate BeforeMarker(at: Stage) { at.Start? || at.Authorizing? || at.Authorized1? || at.ReadingMarker? }

  lemma RevisionIsBase(w0: World, w: World, j: Job, prev: nat, at: Stage, silent: bool)
    requires Holds(w0, w, Act(j, prev, at), silent) && OnWay(at) && !BeforeMarker(at)
    ensures w0.marker == Some(prev)
  {
    hide HoldsRollback, HoldsRecovery, Outcome;
  }

  lemma SameEarlyHistory(j: Job, prev: nat, base: nat, at: Stage)
    requires BeforeMarker(at) && OnWay(at)
    ensures History(j, prev, at) == History(j, base, at) && Call(DueAt(j, prev, at)) == Call(DueAt(j, base, at))
  {
    hide LaterHistory;
    var a, b := BeforeLoad(j, prev), BeforeLoad(j, base);
    assert a[..0] == b[..0] && a[..1] == b[..1] && a[..2] == b[..2] && a[..3] == b[..3];
  }

  lemma CallIsDue(j: Job, prev: nat, at: Stage, e: Effect)
    requires OnWay(at) && StepActivation(j, prev, at, e).Some?
    ensures Call(e) == Call(DueAt(j, prev, at))
  {
    hide Call, DueAt;
    if StepAuthorize(j, prev, at, e).Some? || StepPrepare(j, prev, at, e).Some? {
      EarlyIsDue(j, prev, at, e);
    } else if StepBegin(j, prev, at, e).Some? || StepVerify(j, prev, at, e).Some? {
      MiddleIsDue(j, prev, at, e);
    } else {
      LateIsDue(j, prev, at, e);
    }
  }

  // The first fault comes where a commit would go on.
  lemma FirstFaultDeviates(w0: World, s: Config, base: nat, j: Job, silent: bool, trace: seq<Effect>, e: Effect)
    requires Holds(w0, s.w, s.c, silent) && s.c.Act? && s.c.job == j && OnWay(s.c.at) && Traced(trace, s.c)
    requires w0.marker.Some? ==> base == w0.marker.value
    requires Step(s.c, e).Some?
    ensures Deviates(j, base, trace, e)
  {
    hide Holds, InRange, OnWay, BeforeMarker, StepActivation, History, FullCommit, Call, DueAt;
    var prev, at := s.c.prev, s.c.at;
    HoldsInRange(w0, s.w, j, prev, at, silent);
    AllContinue(j, base, at);
    CallIsDue(j, prev, at, e);
    if BeforeMarker(at) {
      SameEarlyHistory(j, prev, base, at);
    } else {
      RevisionIsBase(w0, s.w, j, prev, at, silent);
    }
    assert trace == History(j, base, at).value;
    assert FullCommit(j, base)[|trace|] == (trace + [DueAt(j, base, at)])[|trace|];
  }

  ghost predicate GoodSoFar(j: Job, base: nat, trace: seq<Effect>) {
    if Faults(j, trace) == [] then Good(j, trace) == trace
    else Deviates(j, base, Good(j, trace), Faults(j, trace)[0])
  }

  lemma SubjectIs(c: Control, j: Job)
    requires Subject(c) == Some(j) && c.Act?
    ensures c.job == j
  {}

  lemma {:induction false} ExecGood(w0: World, base: nat, j: Job, trace: seq<Effect>, s: Config)
    requires ValidJob(j) && Exec(Config(w0, Begins(j)), trace) == Some(s)
    requires w0.marker.Some? ==> base == w0.marker.value
    ensures GoodSoFar(j, base, trace)
    decreases |trace|
  {
    if trace == [] {
    } else {
      hide Holds, Legal, Apply, Step, Told, Smooth, Subject, Traced, Deviates, OnWay;
      BeginHolds(w0, j);
      var s0 := Config(w0, Begins(j));
      var n := |trace| - 1;
      var before := Exec(s0, trace[..n]).value;
      ExecGood(w0, base, j, trace[..n], before);
      if Faults(j, trace[..n]) == [] && !Smooth(j, trace[n]) {
        ExecHolds(s0, trace[..n], before);
        ExecTold(w0, j, trace[..n], before);
        ExecTraced(w0, j, trace[..n], before);
        NoFaultsOnWay(before.c);
        SubjectRuns(before.c, trace[n]);
        SubjectIs(before.c, j);
        FirstFaultDeviates(w0, before, base, j, Silent(trace[..n]), trace[..n], trace[n]);
        assert Faults(j, trace)[0] == trace[n];
      }
    }
  }

  // The revision an activation falls back to.
  function Base(w0: World): nat { if w0.marker.Some? then w0.marker.value else 0 }

  lemma {:induction false} Parts(j: Job, trace: seq<Effect>)
    ensures if Faults(j, trace) == [] then Good(j, trace) == trace
            else Plains(trace) == Plains(Good(j, trace)) + [Plain(Faults(j, trace)[0])] + Rest(j, trace)
    decreases |trace|
  {
    if trace == [] {
    } else {
      hide Smooth, Plain;
      Parts(j, trace[..|trace| - 1]);
    }
  }

  // Without a fault the status is `committed`, which has one history.
  lemma FaultFree(w0: World, j: Job, trace: seq<Effect>, w: World, j2: Job, status: ActivationStatus)
    requires ValidJob(j) && Exec(Config(w0, Begins(j)), trace) == Some(Config(w, Done(j2, status)))
    requires Faults(j, trace) == []
    ensures trace == FullCommit(j, Base(w0))
  {
    var s := Config(w, Done(j2, status));
    hide Exec, FullCommit, BeforeLoad, AppendsOk, Holds;
    StatusIsVerdict(w0, j, trace, w, j2, status);
    BeginHolds(w0, j);
    ExecHolds(Config(w0, Begins(j)), trace, s);
    ExecTraced(w0, j, trace, s);
    var prev :| trace == FullCommit(j, prev);
    FullCommitReads(j, prev, Base(w0));
    LoadGate(w0, j, trace, 12);
  }

  /** The whole course of an activation that has ended: either every effect of a commit, or the effects of a commit up
      to a fault, that fault, and what its kind and the way back determine, event by event. */
  lemma ActivationCourse(w0: World, j: Job, trace: seq<Effect>, w: World, j2: Job, status: ActivationStatus)
    requires ValidJob(j) && Exec(Config(w0, Begins(j)), trace) == Some(Config(w, Done(j2, status)))
    ensures var faults := Faults(j, trace);
            if faults == [] then trace == FullCommit(j, Base(w0))
            else
              && Deviates(j, Base(w0), Good(j, trace), faults[0])
              && Plains(trace) == Plains(Good(j, trace)) + [Plain(faults[0])] + Rest(j, trace)
              && Aftermath(j, Base(w0), faults[0], Rest(j, trace))
  {
    hide FullCommit, Deviates, Aftermath, Traced, Holds, Exec;
    var s := Config(w, Done(j2, status));
    ExecGood(w0, Base(w0), j, trace, s);
    ExecWritten(w0, Base(w0), j, trace, s);
    Parts(j, trace);
    BeginHolds(w0, j);
    ExecHolds(Config(w0, Begins(j)), trace, s);
    if Faults(j, trace) == [] {
      FaultFree(w0, j, trace, w, j2, status);
    }
  }
}
