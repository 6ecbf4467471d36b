/**
 What a recovery does and reports, effect by effect.  Whether events can be journaled changes nothing about its course;
 it decides only whether a successful recovery is reported as such or as unaudited.
 */
module RecoveryTranscript {
  import opened Basics
  import opened ActivationProtocol
  import opened GatingTheorems
  import opened Restoration

  // The start of every recovery of a record.
  function Found(p: Pending): seq<Effect> { [LoadRecord(LoadedRecord(p)), Event(RecoveryStarted)] }

  // The recovery of a committed record, by what the marker reads as and whether the record could be cleared.
  function CleanupTrace(p: Pending, found: Option<nat>, cleared: bool): seq<Effect> {
    Found(p) + [ReadMarker(found)]
      + if found != Some(p.target) then [Event(RecoveryMarkerMismatch)]
        else
          [Clear(p.op, cleared, cleared), Event(ClearFinished(cleared))]
          + if cleared then [Event(RecoveryCleanedUp)] else []
  }

  // The recovery of any other record, by whether its rollback revision could be read and how many of the calls back to
  // it succeed.
  function RestoreTrace(p: Pending, readable: bool, n: nat): seq<Effect>
    requires n <= 4
  {
    Found(p) + [ReadRevision(p.rollback, readable)]
      + if !readable then [Event(RecoveryRevisionUnavailable)]
        else WayBackTrace(p.op, p.rollback, n) + if n == 4 then [Event(RecoveryRolledBack)] else []
  }

  // What is reported when the recovery has succeeded.
  function Reported(trace: seq<Effect>, status: RecoveryStatus): RecoveryStatus {
    if AppendsOk(trace) then status else AuditFailedRecovered
  }

  ghost predicate CleanupCourse(p: Pending, trace: seq<Effect>, status: RecoveryStatus) {
    exists found, cleared ::
      && Plains(trace) == CleanupTrace(p, found, cleared)
      && status == if found == Some(p.target) && cleared then Reported(trace, CommittedCleaned) else RecoveryFailed
  }

  ghost predicate RestoreCourse(p: Pending, trace: seq<Effect>, status: RecoveryStatus) {
    exists readable, n ::
      && 0 <= n <= 4 && Plains(trace) == RestoreTrace(p, readable, n)
      && status == if readable && n == 4 then Reported(trace, RolledBack) else RecoveryFailed
  }

  /** The course of a recovery that has ended. */
  ghost predicate Course(trace: seq<Effect>, status: RecoveryStatus) {
    && trace != [] && trace[0].LoadRecord?
    && match trace[0].result
       case NoPendingRecord => |trace| == 1 && status == NoPending
       case RecordUnreadable => |trace| == 1 && status == RecoveryFailed
       case LoadedRecord(p) =>
         if p.phase == Committed then CleanupCourse(p, trace, status) else RestoreCourse(p, trace, status)
  }

  // ---------- at every control point ----------

  predicate InCleanup(at: RecStage) {
    at.RecReadingMarker? || at.RecMismatch? || at.RecCleaning? || at.RecCleaned? || at.RecCleanFinishing?
  }

  function WayPrefix(p: Pending, at: RecStage): seq<Effect> {
    match at
    case RecValidating => Rounds(p.op, p.rollback, 0)
    case RecValidated(ok) => Rounds(p.op, p.rollback, 0) + [WayCall(p.op, p.rollback, 0, ok)]
    case RecLoading => Rounds(p.op, p.rollback, 1)
    case RecLoaded(ok) => Rounds(p.op, p.rollback, 1) + [WayCall(p.op, p.rollback, 1, ok)]
    case RecMarking => Rounds(p.op, p.rollback, 2)
    case RecMarked(ok) => Rounds(p.op, p.rollback, 2) + [WayCall(p.op, p.rollback, 2, ok)]
    case RecClearing => Rounds(p.op, p.rollback, 3)
    case RecCleared(ok) => Rounds(p.op, p.rollback, 3) + [WayCall(p.op, p.rollback, 3, ok)]
    case RecFinishing => Rounds(p.op, p.rollback, 4)
    case _ => []
  }

  // What has been written up to a control point; a mismatch leaves open what the marker read as.
  function Prefix(p: Pending, at: RecStage): seq<Effect> {
    match at
    case RecAnnouncing => [LoadRecord(LoadedRecord(p))]
    case RecReadingMarker | RecReadingRevision | RecMismatch => Found(p)
    case RecCleaning => Found(p) + [ReadMarker(Some(p.target))]
    case RecCleaned(ok) => Found(p) + [ReadMarker(Some(p.target)), Clear(p.op, ok, ok)]
    case RecCleanFinishing =>
      Found(p) + [ReadMarker(Some(p.target)), Clear(p.op, true, true), Event(ClearFinished(true))]
    case RecUnavailable => Found(p) + [ReadRevision(p.rollback, false)]
    case _ => Found(p) + [ReadRevision(p.rollback, true)] + WayPrefix(p, at)
  }

  ghost predicate Written(p: Pending, at: RecStage, plains: seq<Effect>) {
    if at.RecMismatch? then exists found :: found != Some(p.target) && plains == Found(p) + [ReadMarker(found)]
    else plains == Prefix(p, at)
  }

  ghost predicate Recorded(c: Control, trace: seq<Effect>) {
    match c
    case Recovering => trace == []
    case Rec(p, auditOk, at) =>
      && trace != [] && trace[0] == LoadRecord(LoadedRecord(p)) && Written(p, at, Plains(trace))
      && (auditOk <==> AppendsOk(trace))
      && (!at.RecAnnouncing? ==> (InCleanup(at) <==> p.phase == Committed))
    case Recovered(status) => Course(trace, status)
    case _ => true
  }

  // ---------- every step ----------

  lemma Snoc(trace: seq<Effect>, e: Effect)
    ensures Plains(trace + [e]) == Plains(trace) + [Plain(e)]
  {
    assert (trace + [e])[..|trace|] == trace;
  }

  lemma RestoreEnds(p: Pending, trace: seq<Effect>, readable: bool, n: nat, status: RecoveryStatus)
    requires trace != [] && trace[0] == LoadRecord(LoadedRecord(p)) && p.phase != Committed
    requires n <= 4 && Plains(trace) == RestoreTrace(p, readable, n)
    requires status == if readable && n == 4 then Reported(trace, RolledBack) else RecoveryFailed
    ensures Course(trace, status)
  {
    hide RestoreTrace, CleanupCourse;
  }

  lemma CleanupEnds(p: Pending, trace: seq<Effect>, found: Option<nat>, cleared: bool, status: RecoveryStatus)
    requires trace != [] && trace[0] == LoadRecord(LoadedRecord(p)) && p.phase == Committed
    requires Plains(trace) == CleanupTrace(p, found, cleared)
    requires status == if found == Some(p.target) && cleared then Reported(trace, CommittedCleaned) else RecoveryFailed
    ensures Course(trace, status)
  {
    hide CleanupTrace, RestoreCourse;
  }

  // One more effect on the way back, and one that ends it.
  lemma Behind(head: seq<Effect>, way: seq<Effect>, e: Effect)
    ensures head + way + [e] == head + (way + [e])
  {}

  lemma WayEnds(p: Pending, n: nat, w: seq<Effect>)
    requires n < 4
    requires w == Found(p) + [ReadRevision(p.rollback, true)] + WayBackTrace(p.op, p.rollback, n)
    ensures w == RestoreTrace(p, true, n)
  {}

  lemma FindStep(p: Pending, a: bool, at: RecStage, e: Effect, c: Control, trace: seq<Effect>)
    requires StepCleanup(p, a, at, e) == Some(c) && Recorded(Rec(p, a, at), trace)
    requires at.RecAnnouncing? || at.RecReadingMarker? || at.RecMismatch?
    ensures Recorded(c, trace + [e])
  {
    hide Course;
    Snoc(trace, e);
    AppendsOkSnoc(trace, e);
    var w := Plains(trace + [e]);
    match at
    case RecMismatch =>
      var found :| found != Some(p.target) && Plains(trace) == Found(p) + [ReadMarker(found)];
      assert w == CleanupTrace(p, found, false);
      CleanupEnds(p, trace + [e], found, false, RecoveryFailed);
    case RecReadingMarker =>
      if e.found != Some(p.target) { assert w == Found(p) + [ReadMarker(e.found)]; }
    case _ =>
  }

  lemma CleanStep(p: Pending, a: bool, at: RecStage, e: Effect, c: Control, trace: seq<Effect>)
    requires StepCleanup(p, a, at, e) == Some(c) && Recorded(Rec(p, a, at), trace)
    requires at.RecCleaning? || at.RecCleaned? || at.RecCleanFinishing?
    ensures Recorded(c, trace + [e])
  {
    hide Course, Found, AppendsOk;
    Snoc(trace, e);
    AppendsOkSnoc(trace, e);
    var w := Plains(trace + [e]);
    match at
    case RecCleaned(ok) =>
      if !ok {
        assert w == CleanupTrace(p, Some(p.target), false);
        CleanupEnds(p, trace + [e], Some(p.target), false, RecoveryFailed);
      }
    case RecCleanFinishing =>
      assert w == CleanupTrace(p, Some(p.target), true);
      CleanupEnds(p, trace + [e], Some(p.target), true, c.recovery);
    case _ =>
  }

  lemma ReadStep(p: Pending, a: bool, at: RecStage, e: Effect, c: Control, trace: seq<Effect>)
    requires StepRestore(p, a, at, e) == Some(c) && Recorded(Rec(p, a, at), trace)
    requires at.RecReadingRevision? || at.RecUnavailable? || at.RecValidating?
    ensures Recorded(c, trace + [e])
  {
    hide Course, Found, Rounds, WayBackTrace, AppendsOk;
    Snoc(trace, e);
    AppendsOkSnoc(trace, e);
    var op, rev := p.op, p.rollback;
    NoRounds(op, rev);
    var w := Plains(trace + [e]);
    var head := Found(p) + [ReadRevision(rev, true)];
    match at
    case RecUnavailable =>
      assert w == RestoreTrace(p, false, 0);
      RestoreEnds(p, trace + [e], false, 0, RecoveryFailed);
    case RecValidating => Behind(head, Rounds(op, rev, 0), WayCall(op, rev, 0, e.ok));
    case RecReadingRevision => assert e.ok ==> w == head + [];
    case _ =>
  }

  lemma ValidatedStep(p: Pending, a: bool, at: RecStage, e: Effect, c: Control, trace: seq<Effect>)
    requires StepRestore(p, a, at, e) == Some(c) && Recorded(Rec(p, a, at), trace)
    requires at.RecValidated?
    ensures Recorded(c, trace + [e])
  {
    hide Course, Found, Rounds, WayBackTrace, AppendsOk;
    Snoc(trace, e);
    AppendsOkSnoc(trace, e);
    var op, rev := p.op, p.rollback;
    OneRound(op, rev, 0);
    NoRounds(op, rev);
    var w := Plains(trace + [e]);
    var head := Found(p) + [ReadRevision(rev, true)];
    match at
    case RecValidated(ok) =>
      Behind(head, Rounds(op, rev, 0) + [WayCall(op, rev, 0, ok)], WayReport(rev, 0, ok));
      if !ok {
        WayEnds(p, 0, w);
        RestoreEnds(p, trace + [e], true, 0, RecoveryFailed);
      }
    case _ =>
  }

  lemma LoadingStep(p: Pending, a: bool, at: RecStage, e: Effect, c: Control, trace: seq<Effect>)
    requires StepRestore(p, a, at, e) == Some(c) && Recorded(Rec(p, a, at), trace)
    requires at.RecLoading?
    ensures Recorded(c, trace + [e])
  {
    hide Course, Found, Rounds, WayBackTrace, AppendsOk;
    Snoc(trace, e);
    AppendsOkSnoc(trace, e);
    var op, rev := p.op, p.rollback;
    var w := Plains(trace + [e]);
    var head := Found(p) + [ReadRevision(rev, true)];
    match at
    case RecLoading => Behind(head, Rounds(op, rev, 1), WayCall(op, rev, 1, e.ok));
    case _ =>
  }

  lemma LoadedStep(p: Pending, a: bool, at: RecStage, e: Effect, c: Control, trace: seq<Effect>)
    requires StepRestore(p, a, at, e) == Some(c) && Recorded(Rec(p, a, at), trace)
    requires at.RecLoaded?
    ensures Recorded(c, trace + [e])
  {
    hide Course, Found, Rounds, WayBackTrace, AppendsOk;
    Snoc(trace, e);
    AppendsOkSnoc(trace, e);
    var op, rev := p.op, p.rollback;
    OneRound(op, rev, 1);
    var w := Plains(trace + [e]);
    var head := Found(p) + [ReadRevision(rev, true)];
    match at
    case RecLoaded(ok) =>
      Behind(head, Rounds(op, rev, 1) + [WayCall(op, rev, 1, ok)], WayReport(rev, 1, ok));
      if !ok {
        WayEnds(p, 1, w);
        RestoreEnds(p, trace + [e], true, 1, RecoveryFailed);
      }
    case _ =>
  }

  lemma MarkingStep(p: Pending, a: bool, at: RecStage, e: Effect, c: Control, trace: seq<Effect>)
    requires StepSettle(p, a, at, e) == Some(c) && Recorded(Rec(p, a, at), trace)
    requires at.RecMarking?
    ensures Recorded(c, trace + [e])
  {
    hide Course, Found, Rounds, WayBackTrace, AppendsOk;
    Snoc(trace, e);
    AppendsOkSnoc(trace, e);
    var op, rev := p.op, p.rollback;
    var w := Plains(trace + [e]);
    var head := Found(p) + [ReadRevision(rev, true)];
    match at
    case RecMarking => Behind(head, Rounds(op, rev, 2), WayCall(op, rev, 2, e.ok));
    case _ =>
  }

  lemma MarkedStep(p: Pending, a: bool, at: RecStage, e: Effect, c: Control, trace: seq<Effect>)
    requires StepSettle(p, a, at, e) == Some(c) && Recorded(Rec(p, a, at), trace)
    requires at.RecMarked?
    ensures Recorded(c, trace + [e])
  {
    hide Course, Found, Rounds, WayBackTrace, AppendsOk;
    Snoc(trace, e);
    AppendsOkSnoc(trace, e);
    var op, rev := p.op, p.rollback;
    OneRound(op, rev, 2);
    var w := Plains(trace + [e]);
    var head := Found(p) + [ReadRevision(rev, true)];
    match at
    case RecMarked(ok) =>
      Behind(head, Rounds(op, rev, 2) + [WayCall(op, rev, 2, ok)], WayReport(rev, 2, ok));
      if !ok {
        WayEnds(p, 2, w);
        RestoreEnds(p, trace + [e], true, 2, RecoveryFailed);
      }
    case _ =>
  }

  lemma ClearingStep(p: Pending, a: bool, at: RecStage, e: Effect, c: Control, trace: seq<Effect>)
    requires StepSettle(p, a, at, e) == Some(c) && Recorded(Rec(p, a, at), trace)
    requires at.RecClearing?
    ensures Recorded(c, trace + [e])
  {
    hide Course, Found, Rounds, WayBackTrace, AppendsOk;
    Snoc(trace, e);
    AppendsOkSnoc(trace, e);
    var op, rev := p.op, p.rollback;
    var w := Plains(trace + [e]);
    var head := Found(p) + [ReadRevision(rev, true)];
    match at
    case RecClearing => Behind(head, Rounds(op, rev, 3), WayCall(op, rev, 3, e.ok));
    case _ =>
  }

  lemma ClearedStep(p: Pending, a: bool, at: RecStage, e: Effect, c: Control, trace: seq<Effect>)
    requires StepSettle(p, a, at, e) == Some(c) && Recorded(Rec(p, a, at), trace)
    requires at.RecCleared?
    ensures Recorded(c, trace + [e])
  {
    hide Course, Found, Rounds, WayBackTrace, AppendsOk;
    Snoc(trace, e);
    AppendsOkSnoc(trace, e);
    var op, rev := p.op, p.rollback;
    OneRound(op, rev, 3);
    var w := Plains(trace + [e]);
    var head := Found(p) + [ReadRevision(rev, true)];
    match at
    case RecCleared(ok) =>
      Behind(head, Rounds(op, rev, 3) + [WayCall(op, rev, 3, ok)], WayReport(rev, 3, ok));
      if !ok {
        WayEnds(p, 3, w);
        RestoreEnds(p, trace + [e], true, 3, RecoveryFailed);
      }
    case _ =>
  }

  lemma FinishStep(p: Pending, a: bool, at: RecStage, e: Effect, c: Control, trace: seq<Effect>)
    requires StepSettle(p, a, at, e) == Some(c) && Recorded(Rec(p, a, at), trace)
    requires at.RecFinishing?
    ensures Recorded(c, trace + [e])
  {
    hide Course, Found, Rounds, WayBackTrace, AppendsOk;
    Snoc(trace, e);
    AppendsOkSnoc(trace, e);
    var op, rev := p.op, p.rollback;
    AllRounds(op, rev);
    var w := Plains(trace + [e]);
    var head := Found(p) + [ReadRevision(rev, true)];
    match at
    case RecFinishing =>
      assert w == RestoreTrace(p, true, 4);
      RestoreEnds(p, trace + [e], true, 4, c.recovery);
    case _ =>
  }

  lemma FirstStep(e: Effect, c: Control)
    requires Step(Recovering, e) == Some(c)
    ensures Recorded(c, [e])
  {
    assert [e][..0] == [];
  }

  lemma StepRecorded(c: Control, e: Effect, c2: Control, trace: seq<Effect>)
    requires (c.Recovering? || c.Rec?) && Step(c, e) == Some(c2) && Recorded(c, trace)
    ensures Recorded(c2, trace + [e])
  {
    match c
    case Recovering =>
      assert [] + [e] == [e];
      FirstStep(e, c2);
    case Rec(p, a, at) =>
      hide Recorded;
      if StepCleanup(p, a, at, e) == Some(c2) {
        if at.RecAnnouncing? || at.RecReadingMarker? || at.RecMismatch? {
          FindStep(p, a, at, e, c2, trace);
        } else {
          CleanStep(p, a, at, e, c2, trace);
        }
      } else if StepRestore(p, a, at, e) == Some(c2) {
        if at.RecValidated? {
          ValidatedStep(p, a, at, e, c2, trace);
        } else if at.RecLoading? {
          LoadingStep(p, a, at, e, c2, trace);
        } else if at.RecLoaded? {
          LoadedStep(p, a, at, e, c2, trace);
        } else {
          ReadStep(p, a, at, e, c2, trace);
        }
      } else {
        if at.RecMarking? {
          MarkingStep(p, a, at, e, c2, trace);
        } else if at.RecMarked? {
          MarkedStep(p, a, at, e, c2, trace);
        } else if at.RecFinishing? {
          FinishStep(p, a, at, e, c2, trace);
        } else if at.RecClearing? {
          ClearingStep(p, a, at, e, c2, trace);
        } else {
          ClearedStep(p, a, at, e, c2, trace);
        }
      }
  }

  predicate InRun(c: Control) { c.Recovering? || c.Rec? || c.Recovered? }

  lemma CleanupStays(p: Pending, a: bool, at: RecStage, e: Effect)
    requires StepCleanup(p, a, at, e).Some?
    ensures InRun(StepCleanup(p, a, at, e).value)
  {}

  lemma RestoreStays(p: Pending, a: bool, at: RecStage, e: Effect)
    requires StepRestore(p, a, at, e).Some?
    ensures InRun(StepRestore(p, a, at, e).value)
  {}

  lemma SettleStays(p: Pending, a: bool, at: RecStage, e: Effect)
    requires StepSettle(p, a, at, e).Some?
    ensures InRun(StepSettle(p, a, at, e).value)
  {}

  lemma StaysInRun(c: Control, e: Effect)
    requires InRun(c) && Step(c, e).Some?
    ensures (c.Recovering? || c.Rec?) && InRun(Step(c, e).value)
  {
    hide StepActivation, StepRollback, StepCleanup, StepRestore, StepSettle;
    if c.Rec? {
      var p, a, at := c.pending, c.auditOk, c.recAt;
      if StepCleanup(p, a, at, e).Some? { CleanupStays(p, a, at, e); }
      if StepRestore(p, a, at, e).Some? { RestoreStays(p, a, at, e); }
      if StepSettle(p, a, at, e).Some? { SettleStays(p, a, at, e); }
    }
  }

  lemma {:induction false} ExecRecorded(w0: World, trace: seq<Effect>, s: Config)
    requires Exec(Config(w0, Recovering), trace) == Some(s)
    ensures Recorded(s.c, trace) && InRun(s.c)
    decreases |trace|
  {
    if trace == [] {
    } else {
      hide Recorded, Legal, Apply, Step, InRun;
      var n := |trace| - 1;
      var before := Exec(Config(w0, Recovering), trace[..n]).value;
      ExecRecorded(w0, trace[..n], before);
      StaysInRun(before.c, trace[n]);
      StepRecorded(before.c, trace[n], s.c, trace[..n]);
      assert trace == trace[..n] + [trace[n]];
    }
  }

  lemma StartsWithLoad(trace: seq<Effect>, status: RecoveryStatus)
    requires Recorded(Recovered(status), trace)
    ensures Course(trace, status) && trace != [] && trace[0].LoadRecord?
  {}

  /** The whole course of a recovery that has ended, event by event, and the status that follows from it. */
  lemma RecoveryCourse(w0: World, trace: seq<Effect>, w: World, status: RecoveryStatus)
    requires Exec(Config(w0, Recovering), trace) == Some(Config(w, Recovered(status)))
    ensures Course(trace, status)
    ensures trace[0].result == NoPendingRecord ==> w0.record.None?
    ensures trace[0].result.LoadedRecord? ==> w0.record == Some(trace[0].result.pending)
  {
    hide Course, Step;
    ExecRecorded(w0, trace, Config(w, Recovered(status)));
    StartsWithLoad(trace, status);
    ExecPrefix(Config(w0, Recovering), trace, 0);
    assert trace[..0] == [];
  }

  /** What a successful recovery reports: nothing pending, or what became of the record, and exactly if some event could
      not be journaled that instead. */
  lemma RecoveryStatusMeans(w0: World, trace: seq<Effect>, w: World, status: RecoveryStatus)
    requires Exec(Config(w0, Recovering), trace) == Some(Config(w, Recovered(status))) && RecoveryOk(status)
    ensures status == NoPending <==> w0.record.None?
    ensures status == AuditFailedRecovered <==> !AppendsOk(trace)
    ensures w0.record.Some? ==>
              && (status == CommittedCleaned <==> AppendsOk(trace) && w0.record.value.phase == Committed)
              && (status == RolledBack <==> AppendsOk(trace) && w0.record.value.phase != Committed)
  {
    RecoveryCourse(w0, trace, w, status);
  }
}
