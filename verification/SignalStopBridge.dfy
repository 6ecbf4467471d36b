/**
 Signal-stop bridges, with any number of them in one process, their owners, their workers and the signals interleaved.

 The calls on one bridge exclude each other by its mutex, so each bridge has one owner position.  A wake-up is the
 SIGTERM that `stop` (or the destructor) sends to the worker thread; an external signal is any other.  The process-wide
 claim is an atomic flag; the model also says who set it.
 */
module SignalStopBridge {
  import opened Basics

  datatype Lifecycle = Idle | Active | Stopped

  datatype Origin = External | WakeUp

  datatype Owner =
    | Resting
    | Starting                   // start saw an idle bridge
    | Claimed                    // ... and took the process-wide claim
    | Spawned                    // ... and created the worker
    | Stopping                   // stop saw an active bridge
    | StopRequested              // ... and asked the worker to stop
    | Joining(woken: bool)       // ... and sent the wake-up, or failed to
    | Closing                    // ... and marked the bridge stopped after the join

  datatype Worker =
    | Unborn
    | Waiting                    // in sigwait
    | Got(origin: Origin)        // sigwait returned a signal
    | Recording(origin: Origin)  // ... and the worker was not asked to stop
    | Requesting                 // ... and the signal is recorded
    | Erring                     // sigwait failed and the error is recorded
    | Done

  datatype Bridge = Bridge(state: Lifecycle, owner: Owner, worker: Worker, workerStop: bool, wakePending: bool,
                           received: Option<Origin>, waitError: bool, token: bool)

  const NEW := Bridge(Idle, Resting, Unborn, false, false, None, false, false)

  // Bridges, the holder of the process-wide claim, and the pending external signals.
  datatype State = State(bridges: map<nat, Bridge>, claim: Option<nat>, pending: nat)

  const INITIAL := State(map[], None, 0)

  function At(s: State, b: nat): Bridge { if b in s.bridges then s.bridges[b] else NEW }

  function Put(s: State, b: nat, x: Bridge): State { s.(bridges := s.bridges[b := x]) }

  datatype Step =
    | EnterStart | TakeClaim | FailStart | Spawn | Activate
    | EnterStop | RequestStop | WakeWorker(ok: bool) | Join | Release
    | Wait(origin: Origin) | FailWait | CheckStop | Record | RequestService | FinishError

  predicate Enabled(s: State, b: nat, a: Step) {
    var x := At(s, b);
    match a
    case EnterStart => x.owner.Resting? && x.state == Idle
    case TakeClaim => x.owner.Starting?
    case FailStart => x.owner.Claimed?
    case Spawn => x.owner.Claimed?
    case Activate => x.owner.Spawned?
    case EnterStop => x.owner.Resting? && x.state == Active
    case RequestStop => x.owner.Stopping?
    case WakeWorker(_) => x.owner.StopRequested?
    case Join => x.owner.Joining? && x.worker.Done?
    case Release => x.owner.Closing?
    case Wait(origin) => x.worker.Waiting? && (if origin.WakeUp? then x.wakePending else s.pending > 0)
    case FailWait => x.worker.Waiting?
    case CheckStop => x.worker.Got?
    case Record => x.worker.Recording?
    case RequestService => x.worker.Requesting?
    case FinishError => x.worker.Erring?
  }

  function After(s: State, b: nat, a: Step): State
    requires Enabled(s, b, a)
  {
    var x := At(s, b);
    match a
    case EnterStart => Put(s, b, x.(owner := Starting))
    // test_and_set
    case TakeClaim =>
      if s.claim.Some? then Put(s, b, x.(owner := Resting)) else Put(s, b, x.(owner := Claimed)).(claim := Some(b))
    // no audit, no signal mask or no thread: the claim is given back
    case FailStart => Put(s, b, x.(owner := Resting)).(claim := None)
    case Spawn => Put(s, b, x.(owner := Spawned, worker := Waiting))
    case Activate => Put(s, b, x.(owner := Resting, state := Active))
    case EnterStop => Put(s, b, x.(owner := Stopping))
    case RequestStop => Put(s, b, x.(owner := StopRequested, workerStop := true))
    case WakeWorker(ok) => Put(s, b, x.(owner := Joining(ok), wakePending := ok))
    case Join => Put(s, b, x.(owner := Closing, state := Stopped))
    case Release => Put(s, b, x.(owner := Resting)).(claim := None)
    case Wait(origin) =>
      if origin.WakeUp? then Put(s, b, x.(worker := Got(WakeUp), wakePending := false))
      else Put(s, b, x.(worker := Got(External))).(pending := s.pending - 1)
    case FailWait => Put(s, b, x.(worker := Erring, waitError := true))
    case CheckStop => Put(s, b, x.(worker := if x.workerStop then Done else Recording(x.worker.origin)))
    // compare_exchange: the first signal is kept
    case Record =>
      if x.received.None? then Put(s, b, x.(worker := Requesting, received := Some(x.worker.origin)))
      else Put(s, b, x.(worker := Waiting))
    case RequestService => Put(s, b, x.(worker := Waiting, token := true))
    case FinishError => Put(s, b, x.(worker := Done, token := true))
  }

  // A step of a bridge, or a signal from outside.
  datatype Action = Act(b: nat, step: Step) | Signal

  predicate Possible(s: State, x: Action) { x.Act? ==> Enabled(s, x.b, x.step) }

  function Next(s: State, x: Action): State
    requires Possible(s, x)
  {
    if x.Act? then After(s, x.b, x.step) else s.(pending := s.pending + 1)
  }

  function Run(s: State, actions: seq<Action>): Option<State>
    decreases |actions|
  {
    if actions == [] then Some(s)
    else if Possible(s, actions[0]) then Run(Next(s, actions[0]), actions[1..])
    else None
  }

  // ---------- the invariant ----------

  predicate Owns(x: Bridge) { x.state == Active || x.owner.Claimed? || x.owner.Spawned? || x.owner.Closing? }

  predicate InStart(x: Bridge) { x.owner.Starting? || x.owner.Claimed? || x.owner.Spawned? }

  predicate InStop(x: Bridge) { x.owner.Stopping? || x.owner.StopRequested? || x.owner.Joining? }

  // One bridge: its owner and its worker.
  predicate BridgeHolds(x: Bridge) {
    && (InStart(x) ==> x.state == Idle)
    && (InStop(x) ==> x.state == Active)
    && (x.owner.Closing? ==> x.state == Stopped)
    && (x.worker.Unborn? <==> x.state == Idle && !x.owner.Spawned?)
    && (x.state == Stopped ==> x.worker.Done?)
    && (x.workerStop <==> x.owner.StopRequested? || x.owner.Joining? || x.state == Stopped)
    && (x.wakePending ==> x.workerStop)
    && (x.owner == Joining(true) ==> x.wakePending || x.worker == Got(WakeUp) || x.worker.Done?)
  }

  // What the worker has recorded, and what it has asked for.
  predicate RecordHolds(x: Bridge) {
    && (x.worker == Got(WakeUp) ==> x.workerStop)
    && (x.worker.Recording? ==> x.worker.origin == External)
    && x.received != Some(WakeUp)
    && (x.worker.Requesting? ==> x.received.Some?)
    && (x.worker.Erring? ==> x.waitError)
    && (x.token ==> x.received.Some? || x.waitError)
    && (x.received.Some? && !x.worker.Requesting? ==> x.token)
    && (x.waitError && !x.worker.Erring? ==> x.token)
  }

  ghost predicate Invariant(s: State) {
    && (forall b: nat :: BridgeHolds(At(s, b)) && RecordHolds(At(s, b)))
    && (forall b: nat :: Owns(At(s, b)) <==> s.claim == Some(b))
  }

  lemma MovesOne(s: State, b: nat, a: Step)
    requires Enabled(s, b, a)
    ensures forall c: nat :: c != b ==> At(After(s, b, a), c) == At(s, c)
  {}

  lemma StartStepHolds(s: State, b: nat, a: Step)
    requires Enabled(s, b, a) && BridgeHolds(At(s, b)) && RecordHolds(At(s, b))
    requires a.EnterStart? || a.TakeClaim? || a.FailStart? || a.Spawn? || a.Activate?
    ensures BridgeHolds(At(After(s, b, a), b)) && RecordHolds(At(After(s, b, a), b))
  {}

  lemma StopStepHolds(s: State, b: nat, a: Step)
    requires Enabled(s, b, a) && BridgeHolds(At(s, b)) && RecordHolds(At(s, b))
    requires a.EnterStop? || a.RequestStop? || a.WakeWorker? || a.Join? || a.Release?
    ensures BridgeHolds(At(After(s, b, a), b)) && RecordHolds(At(After(s, b, a), b))
  {}

  predicate WorkerStep(a: Step) {
    a.Wait? || a.FailWait? || a.CheckStop? || a.Record? || a.RequestService? || a.FinishError?
  }

  lemma WorkerStepHolds(s: State, b: nat, a: Step)
    requires Enabled(s, b, a) && BridgeHolds(At(s, b)) && RecordHolds(At(s, b)) && WorkerStep(a)
    ensures BridgeHolds(At(After(s, b, a), b)) && RecordHolds(At(After(s, b, a), b))
  {}

  lemma BridgeStep(s: State, b: nat, a: Step)
    requires Enabled(s, b, a) && BridgeHolds(At(s, b)) && RecordHolds(At(s, b))
    ensures BridgeHolds(At(After(s, b, a), b)) && RecordHolds(At(After(s, b, a), b))
  {
    hide BridgeHolds, RecordHolds, After, Enabled;
    if WorkerStep(a) {
      WorkerStepHolds(s, b, a);
    } else if a.EnterStart? || a.TakeClaim? || a.FailStart? || a.Spawn? || a.Activate? {
      StartStepHolds(s, b, a);
    } else {
      StopStepHolds(s, b, a);
    }
  }

  // Only the step that takes the claim and the steps that give it back change who owns it.
  lemma ClaimStep(s: State, b: nat, a: Step)
    requires Enabled(s, b, a) && BridgeHolds(At(s, b))
    requires Owns(At(s, b)) <==> s.claim == Some(b)
    ensures var t := After(s, b, a);
            && (Owns(At(t, b)) <==> t.claim == Some(b))
            && (t.claim == s.claim || (s.claim.None? && t.claim == Some(b)) || (s.claim == Some(b) && t.claim.None?))
  {}

  lemma NextKeeps(s: State, x: Action)
    requires Invariant(s) && Possible(s, x)
    ensures Invariant(Next(s, x))
  {
    if x.Act? {
      hide BridgeHolds, RecordHolds, Owns, After, Enabled;
      BridgeStep(s, x.b, x.step);
      ClaimStep(s, x.b, x.step);
      MovesOne(s, x.b, x.step);
    } else {
      assert forall b: nat :: At(Next(s, x), b) == At(s, b);
    }
  }

  lemma {:induction false} RunKeeps(s: State, actions: seq<Action>)
    requires Invariant(s) && Run(s, actions).Some?
    ensures Invariant(Run(s, actions).value)
    decreases |actions|
  {
    hide Invariant, Possible, Next;
    if actions == [] {
    } else {
      NextKeeps(s, actions[0]);
      RunKeeps(Next(s, actions[0]), actions[1..]);
    }
  }

  lemma Reachable(actions: seq<Action>, s: State)
    requires Run(INITIAL, actions) == Some(s)
    ensures Invariant(s)
  {
    RunKeeps(INITIAL, actions);
  }

  // ---------- what it means ----------

  /** At most one bridge is active, starting or stopping with the claim, and the claim is held exactly while one is. */
  lemma OneOwner(actions: seq<Action>, s: State, b: nat, c: nat)
    requires Run(INITIAL, actions) == Some(s)
    ensures Owns(At(s, b)) && Owns(At(s, c)) ==> b == c
    ensures s.claim.None? ==> !Owns(At(s, b))
    ensures s.claim.Some? ==> Owns(At(s, s.claim.value))
  {
    Reachable(actions, s);
  }

  /** A requested stop has a recorded external signal or a wait error behind it, and with either of them the stop is
      requested unless that is the very next step of the worker; the wake-up that `stop` sends is never recorded as a
      signal. */
  lemma StopHasACause(actions: seq<Action>, s: State, b: nat)
    requires Run(INITIAL, actions) == Some(s)
    ensures At(s, b).token ==> At(s, b).received == Some(External) || At(s, b).waitError
    ensures (At(s, b).received == Some(External) || At(s, b).waitError) && !At(s, b).token ==>
              (At(s, b).worker.Requesting? && At(After(s, b, RequestService), b).token)
              || (At(s, b).worker.Erring? && At(After(s, b, FinishError), b).token)
    ensures At(s, b).received != Some(WakeUp)
  {
    Reachable(actions, s);
    var x := At(s, b);
    assert RecordHolds(x);
    assert x.received.Some? && x.received.value != WakeUp ==> x.received.value == External;
  }

  // How far a worker that has been woken is from its end.
  function Distance(w: Worker): nat {
    match w
    case Recording(_) => 4
    case Requesting => 3
    case Waiting => 2
    case Got(_) => 1
    case Erring => 1
    case _ => 0
  }

  /** Once the wake-up is out the worker cannot be stuck: as long as it is not done it has a step to take other than
      an error, and when it is done the join can return. */
  lemma JoinReturns(actions: seq<Action>, s: State, b: nat)
    requires Run(INITIAL, actions) == Some(s) && At(s, b).owner == Joining(true)
    ensures At(s, b).worker.Done? ==> Enabled(s, b, Join)
    ensures !At(s, b).worker.Done? ==> exists a :: WorkerStep(a) && a != FailWait && Enabled(s, b, a)
  {
    Reachable(actions, s);
    var x := At(s, b);
    assert BridgeHolds(x);
    if !x.worker.Done? {
      var a := match x.worker
               case Waiting => Wait(WakeUp)
               case Got(_) => CheckStop
               case Recording(_) => Record
               case Requesting => RequestService
               case _ => FinishError;
      assert WorkerStep(a) && a != FailWait && Enabled(s, b, a);
    }
  }

  // Steps of anything but the bridge's own worker leave that distance alone.
  lemma OthersDoNotDelay(s: State, x: Action, b: nat)
    requires Possible(s, x) && At(s, b).owner == Joining(true)
    requires x.Signal? || x.b != b || !WorkerStep(x.step)
    ensures At(Next(s, x), b).worker == At(s, b).worker
  {}

  // The steps that bridge b's worker takes in a run.
  function WorkerSteps(actions: seq<Action>, b: nat): nat {
    if actions == [] then 0
    else
      (if actions[0].Act? && actions[0].b == b && WorkerStep(actions[0].step) then 1 else 0)
      + WorkerSteps(actions[1..], b)
  }

  lemma OwnStepAdvances(s: State, b: nat, a: Step)
    requires Invariant(s) && Enabled(s, b, a) && At(s, b).owner == Joining(true) && WorkerStep(a)
    ensures Distance(At(After(s, b, a), b).worker) < Distance(At(s, b).worker)
    ensures At(After(s, b, a), b).owner == Joining(true)
  {
    assert BridgeHolds(At(s, b));
  }

  lemma JoiningStep(s: State, x: Action, b: nat)
    requires Invariant(s) && Possible(s, x) && At(s, b).owner == Joining(true)
    ensures var y := At(Next(s, x), b);
            if y.owner == Joining(true) then
              Distance(y.worker) + WorkerSteps([x], b) <= Distance(At(s, b).worker)
            else !y.owner.Joining? && y.state == Stopped
  {
    hide Distance, BridgeHolds, RecordHolds, Owns;
    if x.Signal? || x.b != b {
      OthersDoNotDelay(s, x, b);
    } else if WorkerStep(x.step) {
      OwnStepAdvances(s, b, x.step);
    }
  }

  lemma StoppedDoesNotJoin(s: State, b: nat)
    requires Invariant(s) && At(s, b).state == Stopped
    ensures !At(s, b).owner.Joining?
  {
    assert BridgeHolds(At(s, b));
  }

  lemma WorkerKeepsState(s: State, b: nat, a: Step)
    requires Enabled(s, b, a) && WorkerStep(a)
    ensures At(After(s, b, a), b).state == At(s, b).state
    ensures At(s, b).received.Some? ==> At(After(s, b, a), b).received == At(s, b).received
  {}

  lemma StaysStopped(s: State, x: Action, b: nat)
    requires Invariant(s) && Possible(s, x)
    ensures At(s, b).state == Stopped ==> At(Next(s, x), b).state == Stopped
    ensures At(s, b).received.Some? ==> At(Next(s, x), b).received == At(s, b).received
  {
    hide RecordHolds, Owns;
    assert BridgeHolds(At(s, b));
    if x.Act? && x.b != b {
      MovesOne(s, x.b, x.step);
    } else if x.Act? && WorkerStep(x.step) {
      WorkerKeepsState(s, b, x.step);
    }
  }

  /** A stopped bridge stays stopped, with no worker, and keeps the signal it first recorded. */
  lemma {:induction false} StoppedForGood(s: State, actions: seq<Action>, b: nat)
    requires Invariant(s) && Run(s, actions).Some?
    ensures var t := Run(s, actions).value;
            && (At(s, b).state == Stopped ==> At(t, b).state == Stopped && At(t, b).worker.Done?)
            && (At(s, b).received.Some? ==> At(t, b).received == At(s, b).received)
    decreases |actions|
  {
    if actions == [] {
      assert BridgeHolds(At(s, b));
    } else {
      hide BridgeHolds, RecordHolds, Owns, Invariant;
      NextKeeps(s, actions[0]);
      StaysStopped(s, actions[0], b);
      StoppedForGood(Next(s, actions[0]), actions[1..], b);
    }
  }

  /** From the wake-up on, a run of any length has at most four more steps of that worker before the join. */
  lemma {:induction false} WokenWorkerEnds(s: State, actions: seq<Action>, b: nat)
    requires Invariant(s) && Run(s, actions).Some? && At(s, b).owner == Joining(true)
    requires At(Run(s, actions).value, b).owner == Joining(true)
    ensures WorkerSteps(actions, b) + Distance(At(Run(s, actions).value, b).worker) <= Distance(At(s, b).worker) <= 4
    decreases |actions|
  {
    if actions == [] {
    } else {
      hide Invariant, After, Enabled;
      var x := actions[0];
      NextKeeps(s, x);
      JoiningStep(s, x, b);
      if At(Next(s, x), b).owner.Joining? {
        WokenWorkerEnds(Next(s, x), actions[1..], b);
      } else {
        StoppedForGood(Next(s, x), actions[1..], b);
        RunKeeps(s, actions);
        StoppedDoesNotJoin(Run(s, actions).value, b);
      }
    }
  }

  // ---------- calls and signals that nothing disturbs ----------

  // The steps of one bridge, with no other in between.
  function Alone(s: State, b: nat, steps: seq<Step>): Option<State>
    decreases |steps|
  {
    if steps == [] then Some(s)
    else if Enabled(s, b, steps[0]) then Alone(After(s, b, steps[0]), b, steps[1..])
    else None
  }

  lemma AloneOne(s: State, b: nat, x: Step)
    requires Enabled(s, b, x)
    ensures Alone(s, b, [x]) == Some(After(s, b, x))
  {}

  lemma AloneTwo(s: State, b: nat, x: Step, y: Step)
    requires Enabled(s, b, x) && Enabled(After(s, b, x), b, y)
    ensures Alone(s, b, [x, y]) == Some(After(After(s, b, x), b, y))
  {
    hide Enabled, After;
    AloneOne(After(s, b, x), b, y);
    assert [x, y][1..] == [y];
  }

  lemma AloneThree(s: State, b: nat, x: Step, y: Step, z: Step)
    requires Enabled(s, b, x) && Enabled(After(s, b, x), b, y) && Enabled(After(After(s, b, x), b, y), b, z)
    ensures Alone(s, b, [x, y, z]) == Some(After(After(After(s, b, x), b, y), b, z))
  {
    hide Enabled, After;
    AloneTwo(After(s, b, x), b, y, z);
    assert [x, y, z][1..] == [y, z];
  }

  /** A signal that reaches a waiting worker nobody asked to stop is recorded and the stop is requested, if it is the
      first; a later one changes nothing. */
  lemma SignalRuns(s: State, b: nat) returns (heard: State)
    requires At(s, b).worker.Waiting? && !At(s, b).workerStop && s.pending > 0
    ensures Alone(s, b, [Wait(External), CheckStop, Record]) == Some(heard) && heard.pending == s.pending - 1
    ensures At(s, b).received.Some? ==> At(heard, b) == At(s, b)
    ensures At(s, b).received.None? ==>
              && Enabled(heard, b, RequestService)
              && At(After(heard, b, RequestService), b) == At(s, b).(received := Some(External), token := true)
  {
    hide Alone;
    AloneThree(s, b, Wait(External), CheckStop, Record);
    heard := After(After(After(s, b, Wait(External)), b, CheckStop), b, Record);
  }

  /** A start of an idle bridge gets the claim exactly if no bridge owns it; it then becomes active with a worker that
      waits, or fails and gives the claim back.  A refused start changes nothing. */
  lemma StartRuns(actions: seq<Action>, s: State, b: nat) returns (tried: State, active: State, failed: State)
    requires Run(INITIAL, actions) == Some(s) && At(s, b).owner.Resting? && At(s, b).state == Idle
    ensures Alone(s, b, [EnterStart, TakeClaim]) == Some(tried)
    ensures At(tried, b).owner.Claimed? <==> forall c: nat :: !Owns(At(s, c))
    ensures !At(tried, b).owner.Claimed? ==> At(tried, b) == At(s, b) && tried.claim == s.claim
    ensures At(tried, b).owner.Claimed? ==>
              && Alone(tried, b, [Spawn, Activate]) == Some(active) && active.claim == Some(b)
              && At(active, b) == At(s, b).(state := Active, worker := Waiting)
              && Alone(tried, b, [FailStart]) == Some(failed) && failed.claim.None? && At(failed, b) == At(s, b)
  {
    hide Alone, BridgeHolds, RecordHolds, Run;
    Reachable(actions, s);
    AloneTwo(s, b, EnterStart, TakeClaim);
    tried := After(After(s, b, EnterStart), b, TakeClaim);
    active, failed := tried, tried;
    assert s.claim.Some? ==> Owns(At(s, s.claim.value));
    if At(tried, b).owner.Claimed? {
      AloneTwo(tried, b, Spawn, Activate);
      active := After(After(tried, b, Spawn), b, Activate);
      AloneOne(tried, b, FailStart);
      failed := After(tried, b, FailStart);
    }
  }

  lemma Wakes(s: State, b: nat) returns (woken: State)
    requires At(s, b).owner.Resting? && At(s, b).state == Active
    ensures Alone(s, b, [EnterStop, RequestStop, WakeWorker(true)]) == Some(woken) && woken.pending == s.pending
    ensures At(woken, b) == At(s, b).(owner := Joining(true), workerStop := true, wakePending := true)
  {
    hide Alone;
    AloneThree(s, b, EnterStop, RequestStop, WakeWorker(true));
    woken := After(After(After(s, b, EnterStop), b, RequestStop), b, WakeWorker(true));
  }

  lemma Ends(s: State, b: nat) returns (ended: State)
    requires At(s, b).worker.Waiting? && At(s, b).wakePending && At(s, b).workerStop
    ensures Alone(s, b, [Wait(WakeUp), CheckStop]) == Some(ended) && ended.pending == s.pending
    ensures At(ended, b) == At(s, b).(worker := Done, wakePending := false)
  {
    hide Alone;
    AloneTwo(s, b, Wait(WakeUp), CheckStop);
    ended := After(After(s, b, Wait(WakeUp)), b, CheckStop);
  }

  lemma Joins(s: State, b: nat) returns (end: State)
    requires At(s, b).worker.Done? && At(s, b).owner.Joining?
    ensures Alone(s, b, [Join, Release]) == Some(end) && end.pending == s.pending && end.claim.None?
    ensures At(end, b) == At(s, b).(owner := Resting, state := Stopped)
  {
    hide Alone;
    AloneTwo(s, b, Join, Release);
    end := After(After(s, b, Join), b, Release);
  }

  /** A stop of an active bridge whose worker waits and can be woken ends the worker, gives the claim back and leaves
      the bridge stopped, with whatever signal and stop request it had. */
  lemma StopRuns(s: State, b: nat) returns (woken: State, ended: State, end: State)
    requires At(s, b).owner.Resting? && At(s, b).state == Active && At(s, b).worker.Waiting?
    ensures Alone(s, b, [EnterStop, RequestStop, WakeWorker(true)]) == Some(woken)
    ensures Alone(woken, b, [Wait(WakeUp), CheckStop]) == Some(ended)
    ensures Alone(ended, b, [Join, Release]) == Some(end)
    ensures end.claim.None? && end.pending == s.pending
    ensures At(end, b) == At(s, b).(state := Stopped, worker := Done, workerStop := true, wakePending := false)
  {
    hide Alone, At;
    woken := Wakes(s, b);
    ended := Ends(woken, b);
    end := Joins(ended, b);
  }
}
