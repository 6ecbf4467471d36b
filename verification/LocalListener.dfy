/**
 The listener's serve/stop race, with any number of threads in start, serve_one and stop at once.

 A step is one access to shared state: the atomic claim `serving`, the lifecycle mutex, or a field the mutex guards.
 Descriptors are numbers the kernel may reuse once they are closed.
 */
module LocalListener {
  import opened Basics

  // Where a thread is.  `Reading` and everything in start and stop happens with the mutex held.
  datatype Pc =
    | Outside
    | Claimed              // serve_one set the claim
    | Reading              // ... and locked the mutex to read the descriptor
    | Holding(fd: int)     // ... and uses the descriptor it read, without the mutex
    | Leaving              // ... and is about to release the claim
    | StopEntered
    | StopUncontended      // stop saw no claim
    | StopClosed
    | StartEntered
    | StartIdle            // start saw no active listener
    | StartBound           // start published a new descriptor
    | StartFailed

  datatype State = State(threads: map<nat, Pc>, mutex: Option<nat>, serving: bool, listener: int, open: set<int>)

  function At(s: State, t: nat): Pc { if t in s.threads then s.threads[t] else Outside }

  datatype Label =
    | Claim | LockToRead | Read | Use | Finish | Release
    | EnterStop | TestClaim | CloseListener | LeaveStop
    | EnterStart | TestListener | Bind(fd: int) | AbandonStart | LeaveStart

  // The step a label names is possible for thread t.
  predicate Enabled(s: State, t: nat, l: Label) {
    match l
    case Claim => At(s, t) == Outside
    case LockToRead => At(s, t) == Claimed && s.mutex.None?
    case Read => At(s, t) == Reading
    case Use => At(s, t).Holding?
    case Finish => At(s, t).Holding?
    case Release => At(s, t) == Leaving
    case EnterStop => At(s, t) == Outside && s.mutex.None?
    case TestClaim => At(s, t) == StopEntered
    case CloseListener => At(s, t) == StopUncontended
    case LeaveStop => At(s, t) == StopClosed
    case EnterStart => At(s, t) == Outside && s.mutex.None?
    case TestListener => At(s, t) == StartEntered
    case Bind(fd) => At(s, t) == StartIdle && fd >= 0 && fd !in s.open
    case AbandonStart => At(s, t) == StartBound || At(s, t) == StartIdle
    case LeaveStart => At(s, t) == StartBound || At(s, t) == StartFailed
  }

  function Goto(s: State, t: nat, pc: Pc): State { s.(threads := s.threads[t := pc]) }

  function CloseDescriptor(s: State): State {
    if s.listener >= 0 then s.(open := s.open - {s.listener}, listener := -1) else s
  }

  function After(s: State, t: nat, l: Label): State {
    match l
    // test_and_set: only the thread that changes the flag owns the claim, anyone else is told busy
    case Claim => if s.serving then s else Goto(s.(serving := true), t, Claimed)
    case LockToRead => Goto(s.(mutex := Some(t)), t, Reading)
    case Read => Goto(s.(mutex := None), t, if s.listener < 0 then Leaving else Holding(s.listener))
    case Use => s
    case Finish => Goto(s, t, Leaving)
    case Release => Goto(s.(serving := false), t, Outside)
    case EnterStop => Goto(s.(mutex := Some(t)), t, StopEntered)
    case TestClaim => if s.serving then Goto(s.(mutex := None), t, Outside) else Goto(s, t, StopUncontended)
    case CloseListener => Goto(CloseDescriptor(s), t, StopClosed)
    case LeaveStop => Goto(s.(mutex := None), t, Outside)
    case EnterStart => Goto(s.(mutex := Some(t)), t, StartEntered)
    case TestListener => if s.listener >= 0 then Goto(s.(mutex := None), t, Outside) else Goto(s, t, StartIdle)
    case Bind(fd) => Goto(s.(listener := fd, open := s.open + {fd}), t, StartBound)
    case AbandonStart => Goto(CloseDescriptor(s), t, StartFailed)
    case LeaveStart => Goto(s.(mutex := None), t, Outside)
  }

  // One step: of a thread of the listener, or of the rest of the process opening and closing its own descriptors.
  datatype Action = Act(thread: nat, step: Label) | Elsewhere(open: set<int>)

  predicate Possible(s: State, a: Action) {
    match a
    case Act(t, l) => Enabled(s, t, l)
    case Elsewhere(open) => s.listener in open <==> s.listener in s.open
  }

  function Next(s: State, a: Action): State {
    match a
    case Act(t, l) => After(s, t, l)
    case Elsewhere(open) => s.(open := open)
  }

  function Run(s: State, actions: seq<Action>): Option<State>
    decreases |actions|
  {
    if actions == [] then Some(s)
    else
      var before := Run(s, actions[..|actions| - 1]);
      var a := actions[|actions| - 1];
      if before.Some? && Possible(before.value, a) then Some(Next(before.value, a)) else None
  }

  const INITIAL := State(map[], None, false, -1, {})

  // ---------- the invariant ----------

  predicate PastClaim(pc: Pc) { pc.Claimed? || pc.Reading? || pc.Holding? || pc.Leaving? }

  predicate Locked(pc: Pc) {
    pc.Reading? || pc.StopEntered? || pc.StopUncontended? || pc.StopClosed?
    || pc.StartEntered? || pc.StartIdle? || pc.StartBound? || pc.StartFailed?
  }

  // Control points at which the descriptor may be opened or closed.
  predicate Exclusive(pc: Pc) {
    pc.StopUncontended? || pc.StopClosed? || pc.StartIdle? || pc.StartBound? || pc.StartFailed?
  }

  ghost predicate Invariant(s: State) {
    && (forall t: nat :: Locked(At(s, t)) <==> s.mutex == Some(t))
    && (forall t: nat :: PastClaim(At(s, t)) ==> s.serving)
    && (forall t: nat, u: nat :: PastClaim(At(s, t)) && PastClaim(At(s, u)) ==> t == u)
    && (forall t: nat :: At(s, t).Holding? ==> At(s, t).fd == s.listener && s.listener >= 0)
    && (forall t: nat, u: nat :: Exclusive(At(s, t)) ==> !At(s, u).Holding?)
    && (forall t: nat :: At(s, t).StartIdle? ==> s.listener < 0)
    && (s.listener >= 0 ==> s.listener in s.open)
  }

  // A step moves one thread.
  lemma MovesOne(s: State, t: nat, l: Label)
    ensures forall u: nat :: u != t ==> At(After(s, t, l), u) == At(s, u)
  {}

  lemma ServeKeeps(s: State, t: nat, l: Label)
    requires Invariant(s) && Enabled(s, t, l)
    requires l.Claim? || l.LockToRead? || l.Read? || l.Use? || l.Finish? || l.Release?
    ensures Invariant(After(s, t, l))
  {
    MovesOne(s, t, l);
    if l.Claim? {
    } else if l.LockToRead? {
    } else if l.Read? {
    }
  }

  lemma StopKeeps(s: State, t: nat, l: Label)
    requires Invariant(s) && Enabled(s, t, l)
    requires l.EnterStop? || l.TestClaim? || l.CloseListener? || l.LeaveStop?
    ensures Invariant(After(s, t, l))
  {
    MovesOne(s, t, l);
    if l.EnterStop? {
    } else if l.TestClaim? {
    } else if l.CloseListener? {
    }
  }

  lemma StartKeeps(s: State, t: nat, l: Label)
    requires Invariant(s) && Enabled(s, t, l)
    requires l.EnterStart? || l.TestListener? || l.LeaveStart?
    ensures Invariant(After(s, t, l))
  {
    MovesOne(s, t, l);
    if l.EnterStart? {
    } else if l.TestListener? {
    }
  }

  lemma BindKeeps(s: State, t: nat, l: Label)
    requires Invariant(s) && Enabled(s, t, l) && (l.Bind? || l.AbandonStart?)
    ensures Invariant(After(s, t, l))
  {
    MovesOne(s, t, l);
    if l.Bind? {
    }
  }

  lemma StepKeeps(s: State, a: Action)
    requires Invariant(s) && Possible(s, a)
    ensures Invariant(Next(s, a))
  {
    if a.Act? {
      match a.step {
        case Claim | LockToRead | Read | Use | Finish | Release => ServeKeeps(s, a.thread, a.step);
        case EnterStop | TestClaim | CloseListener | LeaveStop => StopKeeps(s, a.thread, a.step);
        case Bind(_) | AbandonStart => BindKeeps(s, a.thread, a.step);
        case _ => StartKeeps(s, a.thread, a.step);
      }
    }
  }

  lemma {:induction false} Reachable(actions: seq<Action>, s: State)
    requires Run(INITIAL, actions) == Some(s)
    ensures Invariant(s)
    decreases |actions|
  {
    if actions == [] {
    } else {
      var before := Run(INITIAL, actions[..|actions| - 1]).value;
      Reachable(actions[..|actions| - 1], before);
      StepKeeps(before, actions[|actions| - 1]);
    }
  }

  // ---------- what it means ----------

  /** In every interleaving at most one thread is past the claim, and as long as it uses the descriptor it read, that
      descriptor is the listener's and open. */
  lemma ServeIsSafe(actions: seq<Action>, s: State, t: nat, u: nat)
    requires Run(INITIAL, actions) == Some(s)
    ensures PastClaim(At(s, t)) && PastClaim(At(s, u)) ==> t == u
    ensures At(s, t).Holding? ==> At(s, t).fd == s.listener && s.listener in s.open
  {
    Reachable(actions, s);
  }

  /** A step of the listener that closes or replaces the descriptor happens only while no thread holds it. */
  lemma ClosingIsSafe(actions: seq<Action>, s: State, t: nat, l: Label, u: nat)
    requires Run(INITIAL, actions) == Some(s) && Enabled(s, t, l)
    ensures After(s, t, l).listener != s.listener ==> !At(s, u).Holding?
    ensures s.listener >= 0 && s.listener !in After(s, t, l).open ==> !At(s, u).Holding?
  {
    Reachable(actions, s);
  }

  // The flag is set by a thread that is still past the claim.
  lemma {:induction false} ClaimHasAHolder(actions: seq<Action>, s: State) returns (u: nat)
    requires Run(INITIAL, actions) == Some(s)
    ensures s.serving ==> PastClaim(At(s, u))
    decreases |actions|
  {
    u := 0;
    if actions == [] {
    } else {
      var a := actions[|actions| - 1];
      var before := Run(INITIAL, actions[..|actions| - 1]).value;
      u := ClaimHasAHolder(actions[..|actions| - 1], before);
      if a.Act? {
        MovesOne(before, a.thread, a.step);
        if !before.serving { u := a.thread; }
        Reachable(actions[..|actions| - 1], before);
      }
    }
  }

  /** A stop is refused exactly when some thread is past the claim, wherever in its session that thread is; a refused
      stop leaves the listener, its descriptor and every other thread alone. */
  lemma BusyStop(actions: seq<Action>, s: State, t: nat)
    requires Run(INITIAL, actions) == Some(s) && Enabled(s, t, TestClaim)
    ensures At(After(s, t, TestClaim), t) == Outside <==> exists u: nat :: PastClaim(At(s, u))
    ensures At(After(s, t, TestClaim), t) == Outside || At(After(s, t, TestClaim), t) == StopUncontended
    ensures After(s, t, TestClaim).listener == s.listener && After(s, t, TestClaim).open == s.open
    ensures forall u: nat :: u != t ==> At(After(s, t, TestClaim), u) == At(s, u)
  {
    Reachable(actions, s);
    var u := ClaimHasAHolder(actions, s);
    assert s.serving ==> PastClaim(At(s, u));
  }

  /** The rate limiter is used without the mutex by serve_one and reset by start, yet never by two threads at once. */
  lemma LimiterIsNotShared(actions: seq<Action>, s: State, t: nat, u: nat)
    requires Run(INITIAL, actions) == Some(s) && t != u
    requires At(s, t).Holding? || At(s, t).StartBound?
    ensures !(At(s, u).Holding? || At(s, u).StartBound?)
  {
    Reachable(actions, s);
  }

  // ---------- calls that nothing disturbs ----------

  // The steps of one thread, with no other in between.
  function Alone(s: State, t: nat, labels: seq<Label>): Option<State>
    decreases |labels|
  {
    if labels == [] then Some(s)
    else if Enabled(s, t, labels[0]) then Alone(After(s, t, labels[0]), t, labels[1..])
    else None
  }

  lemma AloneStep(s: State, t: nat, l: Label, rest: seq<Label>)
    requires Enabled(s, t, l)
    ensures Alone(s, t, [l] + rest) == Alone(After(s, t, l), t, rest)
  {
    assert ([l] + rest)[1..] == rest;
  }

  lemma AloneOne(s: State, t: nat, l: Label)
    requires Enabled(s, t, l)
    ensures Alone(s, t, [l]) == Some(After(s, t, l))
  {
    assert [l] == [l] + [];
    AloneStep(s, t, l, []);
  }

  lemma AloneTwo(s: State, t: nat, l: Label, m: Label)
    requires Enabled(s, t, l) && Enabled(After(s, t, l), t, m)
    ensures Alone(s, t, [l, m]) == Some(After(After(s, t, l), t, m))
  {
    hide Enabled, After, Alone;
    AloneStep(s, t, l, [m]);
    AloneOne(After(s, t, l), t, m);
    assert [l, m] == [l] + [m];
  }

  lemma AloneThree(s: State, t: nat, l: Label, m: Label, n: Label)
    requires Enabled(s, t, l) && Enabled(After(s, t, l), t, m) && Enabled(After(After(s, t, l), t, m), t, n)
    ensures Alone(s, t, [l, m, n]) == Some(After(After(After(s, t, l), t, m), t, n))
  {
    hide Enabled, After, Alone;
    AloneStep(s, t, l, [m, n]);
    AloneTwo(After(s, t, l), t, m, n);
    assert [l, m, n] == [l] + [m, n];
  }

  /** The claim is granted exactly if no thread is past it. */
  lemma ClaimIsFree(actions: seq<Action>, s: State, t: nat)
    requires Run(INITIAL, actions) == Some(s) && Enabled(s, t, Claim)
    ensures At(After(s, t, Claim), t) == Claimed <==> forall u: nat :: !PastClaim(At(s, u))
  {
    Reachable(actions, s);
    var u := ClaimHasAHolder(actions, s);
    assert s.serving ==> PastClaim(At(s, u));
  }

  lemma OpenListener(s: State)
    requires Invariant(s)
    ensures s.listener >= 0 ==> s.listener in s.open
  {}

  /** With no thread past the claim and the mutex free, a thread that serves holds the listener's open descriptor, or
      finds the listener closed; either way it gives the claim back and leaves everything as it was. */
  lemma ServeRuns(actions: seq<Action>, s: State, t: nat) returns (held: State)
    requires Run(INITIAL, actions) == Some(s) && s.mutex.None? && At(s, t) == Outside
    requires forall u: nat :: !PastClaim(At(s, u))
    ensures Alone(s, t, [Claim, LockToRead, Read]) == Some(held) && held.mutex.None?
    ensures At(held, t) == if s.listener >= 0 then Holding(s.listener) else Leaving
    ensures s.listener >= 0 ==> s.listener in held.open
    ensures Alone(held, t, if s.listener >= 0 then [Finish, Release] else [Release])
         == Some(s.(threads := s.threads[t := Outside]))
  {
    hide Run, Alone, Invariant;
    ClaimIsFree(actions, s, t);
    assert s.listener >= 0 ==> s.listener in s.open by { Reachable(actions, s); OpenListener(s); }
    AloneThree(s, t, Claim, LockToRead, Read);
    assert !s.serving by { assert At(After(s, t, Claim), t) == Claimed; }
    held := After(After(After(s, t, Claim), t, LockToRead), t, Read);
    if s.listener >= 0 {
      AloneTwo(held, t, Finish, Release);
      assert After(After(held, t, Finish), t, Release).threads == s.threads[t := Outside];
    } else {
      AloneOne(held, t, Release);
      assert After(held, t, Release).threads == s.threads[t := Outside];
    }
  }

  lemma Binds(s: State, t: nat, fd: int)
    requires At(s, t) == StartIdle && s.listener < 0 && fd >= 0 && fd !in s.open
    ensures Alone(s, t, [Bind(fd), LeaveStart])
         == Some(s.(threads := s.threads[t := Outside], listener := fd, open := s.open + {fd}, mutex := None))
  {
    hide Alone;
    AloneTwo(s, t, Bind(fd), LeaveStart);
    assert After(After(s, t, Bind(fd)), t, LeaveStart).threads == s.threads[t := Outside];
  }

  lemma GivesUp(s: State, t: nat, fd: int)
    requires At(s, t) == StartIdle && s.listener < 0 && fd >= 0 && fd !in s.open
    ensures Alone(s, t, [Bind(fd), AbandonStart, LeaveStart])
         == Some(s.(threads := s.threads[t := Outside], listener := -1, mutex := None))
    ensures Alone(s, t, [AbandonStart, LeaveStart]) == Some(s.(threads := s.threads[t := Outside], mutex := None))
  {
    hide Alone;
    AloneThree(s, t, Bind(fd), AbandonStart, LeaveStart);
    AloneTwo(s, t, AbandonStart, LeaveStart);
    assert s.open + {fd} - {fd} == s.open;
    assert After(After(After(s, t, Bind(fd)), t, AbandonStart), t, LeaveStart).threads == s.threads[t := Outside];
    assert After(After(s, t, AbandonStart), t, LeaveStart).threads == s.threads[t := Outside];
  }

  /** With the mutex free, a start is refused exactly if the listener is open and then changes nothing; otherwise it
      binds any unused descriptor as the listener's, or gives up with the listener closed and the descriptor too. */
  lemma StartRuns(actions: seq<Action>, s: State, t: nat, fd: int) returns (tested: State)
    requires Run(INITIAL, actions) == Some(s) && s.mutex.None? && At(s, t) == Outside && fd >= 0 && fd !in s.open
    ensures Alone(s, t, [EnterStart, TestListener]) == Some(tested)
    ensures At(tested, t) == Outside <==> s.listener >= 0
    ensures s.listener >= 0 ==> tested == s.(threads := s.threads[t := Outside])
    ensures s.listener < 0 ==>
              && Alone(tested, t, [Bind(fd), LeaveStart])
                 == Some(s.(threads := s.threads[t := Outside], listener := fd, open := s.open + {fd}))
              && Alone(tested, t, [Bind(fd), AbandonStart, LeaveStart])
                 == Some(s.(threads := s.threads[t := Outside], listener := -1))
              && Alone(tested, t, [AbandonStart, LeaveStart]) == Some(s.(threads := s.threads[t := Outside]))
  {
    hide Run, Alone;
    AloneTwo(s, t, EnterStart, TestListener);
    tested := After(After(s, t, EnterStart), t, TestListener);
    if s.listener < 0 {
      Binds(tested, t, fd);
      GivesUp(tested, t, fd);
      assert tested.threads[t := Outside] == s.threads[t := Outside];
    } else {
      assert tested.threads == s.threads[t := Outside];
    }
  }

  lemma OneMoreStep(actions: seq<Action>, s: State, t: nat, l: Label)
    requires Run(INITIAL, actions) == Some(s) && Enabled(s, t, l)
    ensures Run(INITIAL, actions + [Act(t, l)]) == Some(After(s, t, l))
  {
    assert (actions + [Act(t, l)])[..|actions|] == actions;
  }

  lemma EnteringClaimsNothing(s: State, t: nat)
    requires Enabled(s, t, EnterStop)
    ensures forall u: nat :: PastClaim(At(After(s, t, EnterStop), u)) <==> PastClaim(At(s, u))
  {
    MovesOne(s, t, EnterStop);
  }

  lemma StopIsTested(actions: seq<Action>, s: State, t: nat)
    requires Run(INITIAL, actions) == Some(s) && Enabled(s, t, EnterStop)
    ensures var entered := After(s, t, EnterStop);
            && Enabled(entered, t, TestClaim)
            && (At(After(entered, t, TestClaim), t) == Outside <==> exists u: nat :: PastClaim(At(s, u)))
  {
    hide Run, PastClaim;
    OneMoreStep(actions, s, t, EnterStop);
    BusyStop(actions + [Act(t, EnterStop)], After(s, t, EnterStop), t);
    EnteringClaimsNothing(s, t);
  }

  lemma Closes(s: State, t: nat)
    requires At(s, t) == StopUncontended
    ensures Alone(s, t, [CloseListener, LeaveStop])
         == Some(CloseDescriptor(s).(threads := s.threads[t := Outside], mutex := None))
  {
    hide Alone;
    AloneTwo(s, t, CloseListener, LeaveStop);
    assert After(After(s, t, CloseListener), t, LeaveStop).threads == s.threads[t := Outside];
  }

  /** With the mutex free, a stop is refused exactly if some thread is past the claim and then changes nothing;
      otherwise it closes the listener's descriptor and leaves the listener closed. */
  lemma StopRuns(actions: seq<Action>, s: State, t: nat) returns (tested: State)
    requires Run(INITIAL, actions) == Some(s) && s.mutex.None? && At(s, t) == Outside
    ensures Alone(s, t, [EnterStop, TestClaim]) == Some(tested)
    ensures At(tested, t) == Outside <==> exists u: nat :: PastClaim(At(s, u))
    ensures At(tested, t) == Outside ==> tested == s.(threads := s.threads[t := Outside])
    ensures At(tested, t) != Outside ==>
              Alone(tested, t, [CloseListener, LeaveStop])
              == Some(s.(threads := s.threads[t := Outside], listener := if s.listener >= 0 then -1 else s.listener,
                         open := if s.listener >= 0 then s.open - {s.listener} else s.open))
  {
    hide Alone, Run, PastClaim;
    StopIsTested(actions, s, t);
    AloneTwo(s, t, EnterStop, TestClaim);
    tested := After(After(s, t, EnterStop), t, TestClaim);
    if At(tested, t) != Outside {
      Closes(tested, t);
      assert tested.threads[t := Outside] == s.threads[t := Outside];
    } else {
      assert tested.threads == s.threads[t := Outside];
    }
  }
}
