/**
 The controller's lifecycle gate around the activation service: recovery first, then activations while ready,
 degradation to read-only or blocked for good.
 */
module PrivilegedPfController {
  import opened Basics
  import opened ActivationProtocol
  import opened ActivationInvariant
  import opened ActivationTheorems
  import opened RecoveryTheorems
  import opened ActivationRequests
  import opened ActivationService
  import opened ActivationVerdict
  import opened GatingTheorems
  import RecoveryTranscript

  datatype ControllerState = New | Starting | Ready | ReadOnly | Blocked

  predicate KeepsReady(s: ActivationStatus) { s != RollbackFailed && !RequiresReadOnly(s) }

  // The world a ready controller relies on.
  ghost predicate ReadyWorld(w: World) { w.record.None? && (w.marker.Some? ==> w.pf == Known(w.marker.value)) }

  /** An activation that starts in a ready world never meets a conflict, and with any status that keeps the controller
      ready it ends in a ready world. */
  lemma ReadyIsKept(w0: World, j: Job, trace: seq<Effect>, w: World, j2: Job, status: ActivationStatus)
    requires ReadyWorld(w0) && ValidJob(j)
    requires Exec(Config(w0, Begins(j)), trace) == Some(Config(w, Done(j2, status)))
    ensures status != TransactionConflict
    ensures KeepsReady(status) ==> ReadyWorld(w)
  {
    ExecHolds(Config(w0, Begins(j)), trace, Config(w, Done(j2, status)));
  }

  // What the controller did, in order.
  datatype Entry =
    | Journaled(id: string, ok: bool)
    | RecoveryRan(recovery: RecoveryStatus)
    | ActivationRan(status: ActivationStatus)

  // A successful recovery, later followed by the journaled readiness event.
  ghost predicate Opened(log: seq<Entry>) {
    exists k, l :: 0 <= k < l < |log| && log[k].RecoveryRan? && RecoveryOk(log[k].recovery)
                   && log[l] == Journaled("GH-CTL-0002", true)
  }

  // Every activation that reached the service came after that.
  ghost predicate Gated(log: seq<Entry>) {
    forall i :: 0 <= i < |log| && log[i].ActivationRan? ==> Opened(log[..i])
  }

  lemma OpenedGrows(log: seq<Entry>, more: seq<Entry>)
    requires Opened(log)
    ensures Opened(log + more)
  {
    var k, l :| 0 <= k < l < |log| && log[k].RecoveryRan? && RecoveryOk(log[k].recovery)
                && log[l] == Journaled("GH-CTL-0002", true);
    assert (log + more)[k] == log[k] && (log + more)[l] == log[l];
  }

  lemma ReadinessOpens(log: seq<Entry>, recovery: RecoveryStatus)
    requires log != [] && log[|log| - 1] == RecoveryRan(recovery) && RecoveryOk(recovery)
    ensures Opened(log + [Journaled("GH-CTL-0002", true)])
  {
    var more := log + [Journaled("GH-CTL-0002", true)];
    assert more[|log| - 1].RecoveryRan? && more[|log|] == Journaled("GH-CTL-0002", true);
  }

  lemma SettledIsReady(w: World)
    requires CrashSafe(w)
    ensures ReadyWorld(Settle(w))
  {}

  lemma GatedGrows(log: seq<Entry>, e: Entry)
    requires Gated(log) && (e.ActivationRan? ==> Opened(log))
    ensures Gated(log + [e])
  {
    forall i | 0 <= i < |log + [e]| && (log + [e])[i].ActivationRan? ensures Opened((log + [e])[..i]) {
      assert (log + [e])[..i] == if i < |log| then log[..i] else log;
    }
  }

  // How a startup ends: what is journaled last, and the state it leads to.
  predicate ConcludedAs(audited: bool, recovery: RecoveryStatus, last: Entry, state: ControllerState) {
    last.Journaled?
    && if !RecoveryOk(recovery) then last.id == "GH-CTL-2001" && state == Blocked
       else if !audited || recovery == AuditFailedRecovered then last.id == "GH-CTL-2002" && state == ReadOnly
       else last.id == "GH-CTL-0002" && state == if last.ok then Ready else ReadOnly
  }

  // A startup in full.
  predicate StartedAs(entries: seq<Entry>, state: ControllerState) {
    && |entries| == 3 && entries[0].Journaled? && entries[0].id == "GH-CTL-0001" && entries[1].RecoveryRan?
    && ConcludedAs(entries[0].ok, entries[1].recovery, entries[2], state)
  }

  // A dispatched activation in full.
  predicate DispatchedAs(entries: seq<Entry>, status: ActivationStatus, state: ControllerState) {
    && entries != [] && entries[0] == ActivationRan(status)
    && if KeepsReady(status) then |entries| == 1 && state == Ready
       else
         && |entries| == 2 && entries[1].Journaled?
         && entries[1].id == (if status == RollbackFailed then "GH-CTL-2003" else "GH-CTL-2004")
         && state == if status == RollbackFailed then Blocked else ReadOnly
  }

  class Controller {
    var state: ControllerState
    const service: PfActivationService
    const host: Host
    ghost var log: seq<Entry>

    // The service's world is safe at first (that is what crashes leave behind), and ready while the controller is.
    ghost predicate Valid()
      reads this, host
    {
      && service.host == host
      && host.Valid() && Resting(host.control)
      && state != Starting
      && (state == New ==> CrashSafe(host.world))
      && (state == Ready ==> ReadyWorld(host.world) && Opened(log))
      && Gated(log)
    }

    constructor (service: PfActivationService)
      requires service.host.Valid() && Resting(service.host.control) && CrashSafe(service.host.world)
      ensures Valid() && state == New && this.service == service && host == service.host && log == []
    {
      this.service := service;
      this.host := service.host;
      state := New;
      log := [];
    }

    ghost method Record(e: Entry)
      requires Gated(log) && (e.ActivationRan? ==> Opened(log))
      modifies this`log
      ensures log == old(log) + [e] && Gated(log)
      ensures old(Opened(log)) ==> Opened(log)
    {
      if Opened(log) { OpenedGrows(log, [e]); }
      GatedGrows(log, e);
      log := log + [e];
    }

    method AppendControllerEvent(id: string) returns (ok: bool)
      requires Gated(log)
      modifies this`log
      ensures log == old(log) + [Journaled(id, ok)] && Gated(log)
      ensures old(Opened(log)) ==> Opened(log)
    {
      ok := *;
      Record(Journaled(id, ok));
    }

    // The recovery of a startup.
    method Recover() returns (recovery: RecoveryStatus)
      requires service.host == host && host.Valid() && Resting(host.control) && CrashSafe(host.world) && Gated(log)
      modifies this`log, host
      ensures host.Valid() && Resting(host.control) && Gated(log)
      ensures log == old(log) + [RecoveryRan(recovery)]
      ensures host.start == Config(old(host.world), Recovering) && host.control == Recovered(recovery)
      ensures RecoveryOk(recovery) ==> host.world == Settle(old(host.world)) && ReadyWorld(host.world)
      ensures RecoveryOk(recovery) ==> (recovery == AuditFailedRecovered <==> !AppendsOk(host.trace))
    {
      hide AppendsOk, Opened, Gated, Settle, ReadyWorld, CrashSafe, Exec;
      recovery := service.RecoverPending();
      Record(RecoveryRan(recovery));
      RecoveryConserves(old(host.world), host.trace, Config(host.world, Recovered(recovery)));
      SettledIsReady(old(host.world));
      if RecoveryOk(recovery) {
        RecoveryTranscript.RecoveryStatusMeans(old(host.world), host.trace, host.world, recovery);
      }
    }

    // The outcome of a startup.
    method Conclude(startupAudited: bool, recovery: RecoveryStatus)
      requires Gated(log) && log != [] && log[|log| - 1] == RecoveryRan(recovery)
      modifies this`state, this`log
      ensures Gated(log) && (state == Ready ==> Opened(log))
      ensures |log| == |old(log)| + 1 && log[..|old(log)|] == old(log)
      ensures ConcludedAs(startupAudited, recovery, log[|old(log)|], state)
      ensures state in {Ready, ReadOnly, Blocked} && (state == Blocked <==> !RecoveryOk(recovery))
      ensures state == Ready <==>
                && startupAudited && RecoveryOk(recovery) && recovery != AuditFailedRecovered
                && log[|old(log)|] == Journaled("GH-CTL-0002", true)
    {
      hide Opened, Gated;
      if !RecoveryOk(recovery) {
        state := Blocked;
        var _ := AppendControllerEvent("GH-CTL-2001");
      } else if !startupAudited || recovery == AuditFailedRecovered {
        state := ReadOnly;
        var _ := AppendControllerEvent("GH-CTL-2002");
      } else {
        state := Ready;
        ReadinessOpens(log, recovery);
        var readyAudited := AppendControllerEvent("GH-CTL-0002");
        if !readyAudited {
          state := ReadOnly;
        }
      }
    }

    /** Startup runs recovery exactly once, in the first call, and opens only after it and its audit succeeded. */
    method Start() returns (result: ControllerState)
      requires Valid()
      modifies this`state, this`log, host
      ensures Valid() && result == state
      ensures old(state) != New ==> state == old(state) && log == old(log) && unchanged(host)
      ensures old(state) == New ==>
                && |log| >= |old(log)| && log[..|old(log)|] == old(log) && StartedAs(log[|old(log)|..], state)
                && host.start == Config(old(host.world), Recovering)
                && host.control == Recovered(log[|old(log)| + 1].recovery)
                && (state != Blocked ==> host.world == Settle(old(host.world)))
      // it is ready exactly if the start, every event of a successful recovery, and readiness were journaled
      ensures old(state) == New ==>
                var n := |old(log)|;
                && (state == Blocked <==> log[n + 1] == RecoveryRan(RecoveryFailed))
                && (state == Ready <==>
                      && log[n] == Journaled("GH-CTL-0001", true) && log[n + 1] != RecoveryRan(RecoveryFailed)
                      && AppendsOk(host.trace) && log[n + 2] == Journaled("GH-CTL-0002", true))
    {
      hide AppendsOk, Opened, Gated, Settle, Exec, ReadyWorld, CrashSafe, ConcludedAs;
      if state != New { return state; }
      state := Starting;
      var startupAudited := AppendControllerEvent("GH-CTL-0001");
      var recovery := Recover();
      Conclude(startupAudited, recovery);
      result := state;
    }

    lemma EntriesSince(before: seq<Entry>, booked: seq<Entry>, after: seq<Entry>, e: Entry)
      requires booked == before + [e] && |after| >= |booked| && after[..|booked|] == booked
      ensures |after| >= |before| && after[..|before|] == before
      ensures [e] + after[|booked|..] == after[|before|..]
    {
      assert after == after[..|booked|] + after[|booked|..];
    }

    // What a finished activation does to the controller's state.
    method Degrade(status: ActivationStatus)
      requires service.host == host && host.Valid() && Resting(host.control) && state == Ready && Gated(log)
      requires KeepsReady(status) ==> ReadyWorld(host.world) && Opened(log)
      modifies this`state, this`log
      ensures Valid()
      ensures |log| >= |old(log)| && log[..|old(log)|] == old(log)
      ensures DispatchedAs([ActivationRan(status)] + log[|old(log)|..], status, state)
      ensures (state == Ready <==> KeepsReady(status)) && (state == Blocked <==> status == RollbackFailed)
    {
      hide Opened, Gated, ReadyWorld;
      if status == RollbackFailed {
        state := Blocked;
        var _ := AppendControllerEvent("GH-CTL-2003");
      } else if RequiresReadOnly(status) {
        state := ReadOnly;
        var _ := AppendControllerEvent("GH-CTL-2004");
      }
    }

    // A ready controller's call of the service.
    method Dispatch(request: ActivationRequest) returns (status: ActivationStatus)
      requires Valid() && state == Ready
      modifies this`log, host
      ensures host.Valid() && Resting(host.control) && Gated(log)
      ensures log == old(log) + [ActivationRan(status)] && status != TransactionConflict
      ensures KeepsReady(status) ==> ReadyWorld(host.world) && Opened(log)
      ensures KeepsReady(status) <==>
                || !(ValidRequest(request) && ValidProbes(service.probes))
                || (Undisturbed(host.trace) && status != RollbackFailed)
    {
      hide Gated, Opened, Exec, StatusMeans, Undisturbed, Verdict, Faults;
      status := service.Activate(request);
      ghost var j := JobOf(request, service.probes);
      if ValidRequest(request) && ValidProbes(service.probes) {
        ReadyIsKept(old(host.world), j, host.trace, host.world, j, status);
        DoubtIsExact(old(host.world), j, host.trace, host.world, j, status);
      }
      Record(ActivationRan(status));
    }

    /** A controller that is not ready leaves the service alone; read-only and blocked are final. */
    method Activate(request: ActivationRequest) returns (activation: Option<ActivationStatus>)
      requires Valid()
      modifies this`state, this`log, host
      ensures Valid()
      ensures activation.Some? <==> old(state) == Ready
      ensures old(state) != Ready ==> state == old(state) && unchanged(host)
      ensures |log| >= |old(log)| && log[..|old(log)|] == old(log)
      ensures activation.Some? ==>
                activation.value != TransactionConflict && DispatchedAs(log[|old(log)|..], activation.value, state)
      // it stays ready exactly if the request was refused unseen, or if audit trail, record and way back all held
      ensures activation.Some? ==>
                && (state == Blocked <==> activation.value == RollbackFailed)
                && (state == Ready <==>
                      || !(ValidRequest(request) && ValidProbes(service.probes))
                      || (Undisturbed(host.trace) && activation.value != RollbackFailed))
      ensures activation.None? ==>
                |log| == |old(log)| + 1 && log[|old(log)|].Journaled? && log[|old(log)|].id == "GH-CTL-1001"
    {
      hide Gated, Opened, ReadyWorld, DispatchedAs, Undisturbed, KeepsReady;
      if state != Ready {
        var _ := AppendControllerEvent("GH-CTL-1001");
        return None;
      }
      var status := Dispatch(request);
      ghost var booked := log;
      Degrade(status);
      EntriesSince(old(log), booked, log, ActivationRan(status));
      activation := Some(status);
    }
  }
}
