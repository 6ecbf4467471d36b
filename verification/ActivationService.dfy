/**
 PfActivationService in its own imperative form.

 `Host` stands for the collaborators the service calls: stores, validator, loader, journal, authorizer, probes and
 confirmation gate.  Every method of the host has one effect with a nondeterministic outcome among those the world
 allows, and records it in a ghost trace.  The contract of each service method is that its trace is an execution of
 the protocol's text from the world it found to the world it leaves; what such executions mean is proved in the
 theorem modules.
 */
module ActivationService {
  import opened Basics
  import opened Identifiers
  import opened ActivationRequests
  import opened ActivationProtocol
  import opened ActivationTheorems
  import opened RecoveryTheorems
  import opened ActivationVerdict
  import RecoveryTranscript

  class Host {
    var world: World
    ghost var start: Config
    ghost var trace: seq<Effect>
    ghost var control: Control

    ghost predicate Valid()
      reads this
    {
      Exec(start, trace) == Some(Config(world, control))
    }

    constructor (w: World)
      ensures Valid() && world == w && control == Idle
    {
      world := w;
      start := Config(w, Idle);
      trace := [];
      control := Idle;
    }

    // Nothing runs while an operation starts: the service serialises operations with a mutex.
    ghost method Enter(c: Control)
      modifies this`start, this`trace, this`control
      ensures Valid() && start == Config(world, c) && control == c && trace == []
    {
      start := Config(world, c);
      trace := [];
      control := c;
    }

    // The effect has moved the code on ...
    twostate predicate Performs(e: Effect)
      reads this
    {
      Valid() && start == old(start) && Step(old(control), e) == Some(control)
    }

    // ... and the world with it.
    twostate predicate Changes(e: Effect)
      reads this
    {
      Legal(old(world), e) && world == Apply(old(world), e) && trace == old(trace) + [e]
    }

    // Books one effect that the world allows and the code is due to perform.
    ghost method Book(e: Effect, w: World)
      requires Exec(start, trace) == Some(Config(w, control))
      requires Legal(w, e) && Step(control, e).Some? && world == Apply(w, e)
      modifies this`trace, this`control
      ensures Valid() && trace == old(trace) + [e] && Some(control) == Step(old(control), e)
    {
      ExecSnoc(start, trace, e);
      control := Step(control, e).value;
      trace := trace + [e];
    }

    method AppendEvent(event: Audit) returns (ok: bool)
      requires Valid()
      requires Step(control, Append(event, true)).Some? && Step(control, Append(event, false)).Some?
      modifies this
      ensures Performs(Append(event, ok)) && Changes(Append(event, ok))
    {
      ok := *;
      Book(Append(event, ok), world);
    }

    method AuthorizeOperation() returns (a: Authorization)
      requires Valid() && forall x :: Step(control, Authorize(x)).Some?
      modifies this
      ensures Performs(Authorize(a)) && Changes(Authorize(a))
    {
      var granted: bool := *;
      var reachable: bool := *;
      a := if !reachable then Unavailable else if granted then Authorized else Denied;
      Book(Authorize(a), world);
    }

    method LastKnownGood() returns (found: Option<nat>)
      requires Valid() && forall f :: Step(control, ReadMarker(f)).Some?
      modifies this
      ensures Performs(ReadMarker(found)) && Changes(ReadMarker(found))
      ensures found.Some? ==> found == world.marker && found.value > 0
    {
      var readable: bool := *;
      found := if readable && world.marker.Some? && world.marker.value > 0 then world.marker else None;
      Book(ReadMarker(found), world);
    }

    method LoadRevision(rev: nat) returns (ok: bool)
      requires Valid() && forall b :: Step(control, ReadRevision(rev, b)).Some?
      modifies this
      ensures Performs(ReadRevision(rev, ok)) && Changes(ReadRevision(rev, ok))
    {
      ok := *;
      Book(ReadRevision(rev, ok), world);
    }

    method ValidateRuleset(rev: nat) returns (ok: bool)
      requires Valid() && forall b :: Step(control, Validate(rev, b)).Some?
      modifies this
      ensures Performs(Validate(rev, ok)) && Changes(Validate(rev, ok))
    {
      ok := *;
      Book(Validate(rev, ok), world);
    }

    method LoadRuleset(rev: nat) returns (ok: bool)
      requires Valid() && forall b :: Step(control, LoadPf(rev, b)).Some?
      modifies this
      ensures Performs(LoadPf(rev, ok)) && Changes(LoadPf(rev, ok))
    {
      ghost var w := world;
      ok := *;
      world := world.(pf := if ok then Known(rev) else Unknown);
      Book(LoadPf(rev, ok), w);
    }

    method Probe(index: nat) returns (ok: bool)
      requires Valid() && forall b :: Step(control, RunProbe(index, b)).Some?
      modifies this
      ensures Performs(RunProbe(index, ok)) && Changes(RunProbe(index, ok))
    {
      ok := *;
      Book(RunProbe(index, ok), world);
    }

    method AwaitConfirmation() returns (ok: bool)
      requires Valid() && forall b :: Step(control, Confirm(b)).Some?
      modifies this
      ensures Performs(Confirm(ok)) && Changes(Confirm(ok))
    {
      ok := *;
      Book(Confirm(ok), world);
    }

    method BeginTransaction(p: Pending) returns (status: BeginStatus, ghost applied: bool)
      requires Valid() && forall s, b :: Step(control, Begin(p, s, b)).Some?
      requires ValidPending(p) && p.phase == PreparedForLoad
      modifies this
      ensures Performs(Begin(p, status, applied)) && Changes(Begin(p, status, applied))
    {
      ghost var w := world;
      var outcome: BeginStatus := *;
      var reached: bool := *;
      if world.record.Some? {
        status, reached := if outcome == Created then Conflict else outcome, false;
      } else {
        status := if outcome == Conflict then BeginFailed else outcome;
        reached := reached || status == Created;
      }
      if reached {
        world := world.(record := Some(p));
      }
      applied := reached;
      Book(Begin(p, status, applied), w);
    }

    method AdvanceTransaction(op: string, next: Phase) returns (ok: bool, ghost applied: bool)
      requires Valid() && forall b, c :: Step(control, Advance(op, next, b, c)).Some?
      modifies this
      ensures Performs(Advance(op, next, ok, applied)) && Changes(Advance(op, next, ok, applied))
    {
      ghost var w := world;
      var success: bool := *;
      var reached: bool := *;
      var allowed := world.record.Some? && world.record.value.op == op
                     && Rank(next) == Rank(world.record.value.phase) + 1;
      ok := success && allowed;
      reached := allowed && (reached || ok);
      if reached {
        world := world.(record := Some(world.record.value.(phase := next)));
      }
      applied := reached;
      Book(Advance(op, next, ok, applied), w);
    }

    method MarkLastKnownGood(rev: nat) returns (ok: bool, ghost applied: bool)
      requires Valid() && forall b, c :: Step(control, Mark(rev, b, c)).Some?
      modifies this
      ensures Performs(Mark(rev, ok, applied)) && Changes(Mark(rev, ok, applied))
    {
      ghost var w := world;
      ok := *;
      var reached: bool := *;
      reached := reached || ok;
      if reached {
        world := world.(marker := Some(rev));
      }
      applied := reached;
      Book(Mark(rev, ok, applied), w);
    }

    method ClearTransaction(op: string) returns (ok: bool, ghost applied: bool)
      requires Valid() && forall b, c :: Step(control, Clear(op, b, c)).Some?
      modifies this
      ensures Performs(Clear(op, ok, applied)) && Changes(Clear(op, ok, applied))
    {
      ghost var w := world;
      var success: bool := *;
      var reached: bool := *;
      var allowed := world.record.Some? && world.record.value.op == op;
      ok := success && allowed;
      reached := allowed && (reached || ok);
      if reached {
        world := world.(record := None);
      }
      applied := reached;
      Book(Clear(op, ok, applied), w);
    }

    method LoadTransaction() returns (r: LoadRecordResult)
      requires Valid() && forall x :: Step(control, LoadRecord(x)).Some?
      modifies this
      ensures Performs(LoadRecord(r)) && Changes(LoadRecord(r))
    {
      var readable: bool := *;
      r := if !readable then RecordUnreadable
           else if world.record.None? then NoPendingRecord else LoadedRecord(world.record.value);
      Book(LoadRecord(r), world);
    }
  }

  // Safe identifiers, no two alike, at least one.
  predicate ValidProbes(ids: seq<string>) {
    && |ids| > 0
    && (forall i :: 0 <= i < |ids| ==> ValidIdentifier(ids[i]))
    && (forall i, k :: 0 <= i < k < |ids| ==> ids[i] != ids[k])
  }

  function JobOf(r: ActivationRequest, probes: seq<string>): Job { Job(r.operationId, r.revision, |probes|) }

  // ---------- the protocol's text, round by round ----------

  // An append is due at c, and leads to one point or the other.
  predicate AppendLeads(c: Control, event: Audit, good: Control, bad: Control) {
    && Step(c, Append(event, true)) == Some(good)
    && Step(c, Append(event, false)) == Some(bad)
  }

  lemma AnnounceValidationSteps(j: Job, prev: nat)
    ensures AppendLeads(Act(j, prev, AnnouncingValidation), RevalidationStarted, Act(j, prev, Validating),
                        Done(j, AuditFailed))
  {
    hide StepAuthorize, StepBegin, StepVerify, StepAdvance, StepConfirm, StepCommit, StepRollback, StepRecovery;
  }

  lemma ValidateSteps(j: Job, prev: nat)
    ensures forall ok :: Step(Act(j, prev, Validating), Validate(j.target, ok)) == Some(Act(j, prev, Validated(ok)))
  {
    hide StepAuthorize, StepBegin, StepVerify, StepAdvance, StepConfirm, StepCommit, StepRollback, StepRecovery;
  }

  lemma ValidatedSteps(j: Job, prev: nat, ok: bool)
    ensures AppendLeads(Act(j, prev, Validated(ok)), ValidationFinished(j.target, ok),
                        if ok then Act(j, prev, AnnouncingBegin) else Done(j, NativeRevalidationFailed),
                        Done(j, AuditFailed))
  {
    hide StepAuthorize, StepBegin, StepVerify, StepAdvance, StepConfirm, StepCommit, StepRollback, StepRecovery;
  }

  lemma AnnounceBeginSteps(j: Job, prev: nat)
    ensures AppendLeads(Act(j, prev, AnnouncingBegin), BeginStarted, Act(j, prev, Beginning), Done(j, AuditFailed))
  {
    hide StepAuthorize, StepBegin, StepVerify, StepAdvance, StepConfirm, StepCommit, StepRollback, StepRecovery;
  }

  lemma ProbeStartSteps(j: Job, prev: nat, i: nat)
    ensures AppendLeads(Act(j, prev, AnnouncingProbe(i)), ProbeStarted(i), Act(j, prev, Probing(i)),
                        Rollback(j, prev, VerificationFailedRolledBack, true))
  {
    hide StepAuthorize, StepPrepare, StepBegin, StepAdvance, StepConfirm, StepCommit, StepRollback, StepRecovery;
  }

  lemma ProbeSteps(j: Job, prev: nat, i: nat)
    ensures forall ok :: Step(Act(j, prev, Probing(i)), Effect.RunProbe(i, ok)) == Some(Act(j, prev, Probed(i, ok)))
  {
    hide StepAuthorize, StepPrepare, StepBegin, StepAdvance, StepConfirm, StepCommit, StepRollback, StepRecovery;
  }

  lemma ProbeEndSteps(j: Job, prev: nat, i: nat, ok: bool)
    ensures AppendLeads(Act(j, prev, Probed(i, ok)), ProbeFinished(i, ok),
                        if !ok then Rollback(j, prev, VerificationFailedRolledBack, false)
                        else if i + 1 < j.probes then Act(j, prev, AnnouncingProbe(i + 1))
                        else Act(j, prev, Advancing(Verified)),
                        Rollback(j, prev, VerificationFailedRolledBack, true))
  {
    hide StepAuthorize, StepPrepare, StepBegin, StepAdvance, StepConfirm, StepCommit, StepRollback, StepRecovery;
  }

  lemma ConfirmStartSteps(j: Job, prev: nat)
    ensures AppendLeads(Act(j, prev, AnnouncingConfirmation), ConfirmationPending, Act(j, prev, Confirming),
                        Rollback(j, prev, ConfirmationFailedRolledBack, true))
  {
    hide StepAuthorize, StepPrepare, StepBegin, StepVerify, StepAdvance, StepCommit, StepRollback, StepRecovery;
  }

  lemma ConfirmSteps(j: Job, prev: nat)
    ensures forall ok :: Step(Act(j, prev, Confirming), Confirm(ok)) == Some(Act(j, prev, Confirmed(ok)))
  {
    hide StepAuthorize, StepPrepare, StepBegin, StepVerify, StepAdvance, StepCommit, StepRollback, StepRecovery;
  }

  lemma ConfirmEndSteps(j: Job, prev: nat, ok: bool)
    ensures AppendLeads(Act(j, prev, Confirmed(ok)), ConfirmationFinished(ok),
                        if ok then Act(j, prev, Advancing(Committing))
                        else Rollback(j, prev, ConfirmationFailedRolledBack, false),
                        Rollback(j, prev, ConfirmationFailedRolledBack, true))
  {
    hide StepAuthorize, StepPrepare, StepBegin, StepVerify, StepAdvance, StepCommit, StepRollback, StepRecovery;
  }

  lemma MarkStartSteps(j: Job, prev: nat)
    ensures AppendLeads(Act(j, prev, AnnouncingCommit), CommitStarted, Act(j, prev, Marking),
                        Rollback(j, prev, CommitFailedRolledBack, true))
  {
    hide StepAuthorize, StepPrepare, StepBegin, StepVerify, StepAdvance, StepConfirm, StepRollback, StepRecovery;
  }

  lemma MarkSteps(j: Job, prev: nat)
    ensures forall ok, applied ::
              Step(Act(j, prev, Marking), Mark(j.target, ok, applied)) == Some(Act(j, prev, Marked(ok)))
  {
    hide StepAuthorize, StepPrepare, StepBegin, StepVerify, StepAdvance, StepConfirm, StepRollback, StepRecovery;
  }

  lemma MarkEndSteps(j: Job, prev: nat, ok: bool)
    ensures AppendLeads(Act(j, prev, Marked(ok)), MarkFinished(j.target, ok),
                        if ok then Act(j, prev, Advancing(Committed))
                        else Rollback(j, prev, CommitFailedRolledBack, false),
                        Rollback(j, prev, CommitFailedRolledBack, true))
  {
    hide StepAuthorize, StepPrepare, StepBegin, StepVerify, StepAdvance, StepConfirm, StepRollback, StepRecovery;
  }

  lemma AnnounceCommittedSteps(j: Job, prev: nat, audited: bool)
    ensures AppendLeads(Act(j, prev, Announced7(audited)), ActivationCommitted, Act(j, prev, Clearing(audited)),
                        Act(j, prev, Clearing(false)))
  {
    hide StepAuthorize, StepPrepare, StepBegin, StepVerify, StepAdvance, StepConfirm, StepRollback, StepRecovery;
  }

  lemma ClearCommittedSteps(j: Job, prev: nat, audited: bool)
    ensures forall ok, applied ::
              Step(Act(j, prev, Clearing(audited)), Clear(j.op, ok, applied))
              == Some(Done(j, if !ok then CommittedCleanupPending
                              else if audited then CommittedOk else CommittedWithWarning))
  {
    hide StepAuthorize, StepPrepare, StepBegin, StepVerify, StepAdvance, StepConfirm, StepRollback, StepRecovery;
  }

  lemma ClearSteps(p: Pending, audit: bool)
    ensures forall ok, applied ::
              Step(Rec(p, audit, RecClearing), Clear(p.op, ok, applied)) == Some(Rec(p, audit, RecCleared(ok)))
  {
    hide StepActivation, StepRollback, StepCleanup, StepRestore;
  }

  lemma ClearedSteps(p: Pending, audit: bool, ok: bool)
    ensures AppendLeads(Rec(p, audit, RecCleared(ok)), ClearFinished(ok),
                        if ok then Rec(p, audit, RecFinishing) else Recovered(RecoveryFailed),
                        if ok then Rec(p, false, RecFinishing) else Recovered(RecoveryFailed))
  {
    hide StepActivation, StepRollback, StepCleanup, StepRestore;
  }

  lemma FinishSteps(p: Pending, audit: bool)
    ensures AppendLeads(Rec(p, audit, RecFinishing), RecoveryRolledBack,
                        Recovered(if audit then RolledBack else AuditFailedRecovered),
                        Recovered(AuditFailedRecovered))
  {
    hide StepActivation, StepRollback, StepCleanup, StepRestore;
  }

  class PfActivationService {
    const host: Host
    const probes: seq<string>

    constructor (host: Host, probes: seq<string>)
      ensures this.host == host && this.probes == probes
    {
      this.host := host;
      this.probes := probes;
    }

    method CheckProbes() returns (valid: bool)
      ensures valid <==> ValidProbes(probes)
    {
      var seen: set<string> := {};
      for i := 0 to |probes|
        invariant seen == set k | 0 <= k < i :: probes[k]
        invariant forall k :: 0 <= k < i ==> ValidIdentifier(probes[k])
        invariant forall k, l :: 0 <= k < l < i ==> probes[k] != probes[l]
      {
        if !ValidIdentifier(probes[i]) || probes[i] in seen {
          return false;
        }
        seen := seen + {probes[i]};
      }
      return |probes| > 0;
    }

    // The operation `j` has ended with `status`.
    ghost predicate Finished(j: Job, status: ActivationStatus)
      reads this, host
    {
      host.Valid() && host.control == Done(j, status)
    }

    // Either the operation has ended with the status returned, or it continues at `at`.
    ghost predicate Continues(j: Job, prev: nat, rejected: Option<ActivationStatus>, at: Stage)
      reads this, host
    {
      match rejected
      case None => host.Valid() && host.control == Act(j, prev, at)
      case Some(status) => Finished(j, status)
    }

    method AuthorizeRequest(j: Job) returns (rejected: Option<ActivationStatus>)
      requires host.Valid() && host.control == Begins(j)
      modifies host
      ensures Continues(j, 0, rejected, ReadingMarker) && host.start == old(host.start)
    {
      hide Host.Changes, Host.Valid, Legal, Apply, Exec, StepPrepare, StepBegin, StepVerify, StepAdvance,
        StepConfirm, StepCommit, StepRollback, StepRecovery;
      var audited := host.AppendEvent(ActivationStarted);
      if !audited { return Some(AuditFailed); }
      var authorization := host.AuthorizeOperation();
      audited := host.AppendEvent(AuthorizationChecked(authorization));
      if !audited { return Some(AuditFailed); }
      if authorization != Authorized {
        return Some(if authorization == Denied then AuthorizationDenied else AuthorizationError);
      }
      rejected := None;
    }

    // Find the revision to fall back to and the target.
    method Resolve(j: Job) returns (rejected: Option<ActivationStatus>, previous: nat)
      requires host.Valid() && host.control == Act(j, 0, ReadingMarker)
      modifies host
      ensures Continues(j, previous, rejected, AnnouncingValidation) && host.start == old(host.start)
      ensures rejected.None? ==> previous > 0 && previous != j.target
    {
      hide Host.Changes, Host.Valid, Legal, Apply, Exec, StepPrepare, StepBegin, StepVerify, StepAdvance,
        StepConfirm, StepCommit, StepRollback, StepRecovery;
      var found := host.LastKnownGood();
      if found.None? {
        var audited := host.AppendEvent(NoLastKnownGood);
        return Some(if audited then LastKnownGoodUnavailable else AuditFailed), 0;
      }
      previous := found.value;
      if previous == j.target {
        var audited := host.AppendEvent(AlreadyLastKnownGood);
        return Some(if audited then InvalidRequest else AuditFailed), previous;
      }
      var target := host.LoadRevision(j.target);
      if !target {
        var audited := host.AppendEvent(TargetUnavailableEvent);
        return Some(if audited then TargetUnavailable else AuditFailed), previous;
      }
      rejected := None;
    }

    method Revalidate(j: Job, previous: nat) returns (rejected: Option<ActivationStatus>)
      requires host.Valid() && host.control == Act(j, previous, AnnouncingValidation)
      modifies host
      ensures Continues(j, previous, rejected, Beginning) && host.start == old(host.start)
    {
      hide Host.Changes, Host.Valid, Legal, Apply, Exec, Step;
      AnnounceValidationSteps(j, previous);
      ValidateSteps(j, previous);
      AnnounceBeginSteps(j, previous);
      var audited := host.AppendEvent(RevalidationStarted);
      if !audited { return Some(AuditFailed); }
      var valid := host.ValidateRuleset(j.target);
      ValidatedSteps(j, previous, valid);
      audited := host.AppendEvent(ValidationFinished(j.target, valid));
      if !audited { return Some(AuditFailed); }
      if !valid { return Some(NativeRevalidationFailed); }
      audited := host.AppendEvent(BeginStarted);
      rejected := if audited then None else Some(AuditFailed);
    }

    // The record exists but PF is untouched: take the record back.
    method ClearUnaudited(j: Job, previous: nat) returns (status: ActivationStatus)
      requires host.Valid() && host.control == Act(j, previous, ClearingUnaudited)
      modifies host
      ensures Finished(j, status) && host.start == old(host.start)
    {
      hide Host.Changes, Host.Valid, Legal, Apply, Exec, StepAuthorize, StepPrepare, StepVerify, StepAdvance,
        StepConfirm, StepCommit, StepRollback, StepRecovery;
      var cleared, applied := host.ClearTransaction(j.op);
      status := if cleared then AuditFailed else TransactionStoreFailed;
    }

    // Write the durable record and announce the load.
    method BeginRecord(j: Job, previous: nat) returns (rejected: Option<ActivationStatus>)
      requires host.Valid() && host.control == Act(j, previous, Beginning)
      requires ValidJob(j) && previous > 0 && previous != j.target
      modifies host
      ensures Continues(j, previous, rejected, LoadingTarget) && host.start == old(host.start)
    {
      hide Host.Changes, Host.Valid, Legal, Apply, Exec, StepAuthorize, StepPrepare, StepVerify, StepAdvance,
        StepConfirm, StepCommit, StepRollback, StepRecovery;
      var begun, applied := host.BeginTransaction(Pending(j.op, j.target, previous, PreparedForLoad));
      var audited := host.AppendEvent(BeginFinished(begun));
      if begun != Created {
        return Some(if !audited then AuditFailed
                    else if begun == Conflict then TransactionConflict else TransactionStoreFailed);
      }
      if audited {
        audited := host.AppendEvent(LoadIntent);
      }
      if !audited {
        var status := ClearUnaudited(j, previous);
        return Some(status);
      }
      rejected := None;
    }

    method ReloadRollback(j: Job, previous: nat, desired: ActivationStatus, compromised: bool)
      returns (loaded: bool, auditCompromised: bool)
      requires host.Valid() && host.control == Roll(j, previous, desired, compromised, RollLoading)
      modifies host
      ensures host.Valid() && host.start == old(host.start)
      ensures host.control
           == Roll(j, previous, desired, auditCompromised, if loaded then RollMarking else RollGivingUp)
    {
      hide Host.Changes, Host.Valid, Legal, Apply, Exec, StepActivation, StepRecovery, StepRestoreMarker,
        StepFinishUndo;
      loaded := host.LoadRuleset(previous);
      var audited := host.AppendEvent(LoadFinished(previous, loaded));
      auditCompromised := compromised || !audited;
    }

    method RevalidateRollback(j: Job, previous: nat, desired: ActivationStatus, compromised: bool)
      returns (valid: bool, auditCompromised: bool)
      requires host.Valid() && host.control == Roll(j, previous, desired, compromised, RollValidating)
      modifies host
      ensures host.Valid() && host.start == old(host.start)
      ensures host.control == Roll(j, previous, desired, auditCompromised, if valid then RollLoading else RollGivingUp)
    {
      hide Host.Changes, Host.Valid, Legal, Apply, Exec, StepActivation, StepRecovery, StepRestoreMarker,
        StepFinishUndo;
      valid := host.ValidateRuleset(previous);
      var audited := host.AppendEvent(ValidationFinished(previous, valid));
      auditCompromised := compromised || !audited;
    }

    method RestoreRuleset(j: Job, previous: nat, desired: ActivationStatus, compromised: bool)
      returns (restored: bool, auditCompromised: bool)
      requires host.Valid() && host.control == Rollback(j, previous, desired, compromised)
      modifies host
      ensures host.Valid() && host.start == old(host.start)
      ensures host.control
           == Roll(j, previous, desired, auditCompromised, if restored then RollMarking else RollGivingUp)
    {
      hide Host.Changes, Host.Valid, Legal, Apply, Exec, StepActivation, StepRecovery, StepRestoreMarker,
        StepFinishUndo;
      var audited := host.AppendEvent(RollbackStarted);
      restored, auditCompromised := RevalidateRollback(j, previous, desired, compromised || !audited);
      if restored {
        restored, auditCompromised := ReloadRollback(j, previous, desired, auditCompromised);
      }
    }

    method RestoreMarker(j: Job, previous: nat, desired: ActivationStatus, compromised: bool)
      returns (restored: bool, auditCompromised: bool)
      requires host.Valid() && host.control == Roll(j, previous, desired, compromised, RollMarking)
      modifies host
      ensures host.Valid() && host.start == old(host.start)
      ensures host.control
           == Roll(j, previous, desired, auditCompromised, if restored then RollClearing else RollGivingUp)
    {
      hide Host.Changes, Host.Valid, Legal, Apply, Exec, StepActivation, StepRecovery, StepUndo, StepFinishUndo;
      var marked, applied := host.MarkLastKnownGood(previous);
      var audited := host.AppendEvent(MarkFinished(previous, marked));
      return marked, compromised || !audited;
    }

    method FinishRollback(j: Job, previous: nat, desired: ActivationStatus, compromised: bool)
      returns (status: ActivationStatus)
      requires host.Valid() && host.control == Roll(j, previous, desired, compromised, RollClearing)
      modifies host
      ensures Finished(j, status) && host.start == old(host.start)
    {
      hide Host.Changes, Host.Valid, Legal, Apply, Exec, StepActivation, StepRecovery, StepUndo, StepRestoreMarker;
      var cleared, applied := host.ClearTransaction(j.op);
      var audited := host.AppendEvent(ClearFinished(cleared));
      if !cleared { return RollbackFailed; }
      var auditCompromised := compromised || !audited;
      audited := host.AppendEvent(RollbackSucceeded);
      status := if auditCompromised || !audited then AuditFailedRolledBack else desired;
    }

    // The rollback closure: revalidate and load the previous revision, reset the marker, clear the record.
    method RollbackToPrevious(j: Job, previous: nat, desired: ActivationStatus, compromised: bool)
      returns (status: ActivationStatus)
      requires host.Valid() && host.control == Rollback(j, previous, desired, compromised)
      modifies host
      ensures Finished(j, status) && host.start == old(host.start)
    {
      hide Host.Changes, Host.Valid, Legal, Apply, Exec, StepActivation, StepRecovery, StepUndo, StepFinishUndo;
      var restored, auditCompromised := RestoreRuleset(j, previous, desired, compromised);
      if restored {
        restored, auditCompromised := RestoreMarker(j, previous, desired, auditCompromised);
      }
      if !restored {
        var _ := host.AppendEvent(RollbackGaveUp);
        return RollbackFailed;
      }
      status := FinishRollback(j, previous, desired, auditCompromised);
    }

    // Move the durable record one phase on; roll back when that or its audit fails.
    method AdvanceTo(j: Job, previous: nat, next: Phase) returns (rejected: Option<ActivationStatus>)
      requires host.Valid() && host.control == Act(j, previous, Advancing(next))
      requires next != PreparedForLoad && next != Committed
      modifies host
      ensures Continues(j, previous, rejected, AfterAdvance(next)) && host.start == old(host.start)
    {
      hide Host.Changes, Host.Valid, Legal, Apply, Exec, StepAuthorize, StepPrepare, StepBegin, StepVerify,
        StepConfirm, StepCommit, StepRollback, StepRecovery;
      var advanced, applied := host.AdvanceTransaction(j.op, next);
      var audited := host.AppendEvent(AdvanceFinished(next, advanced));
      if !advanced || !audited {
        var status := RollbackToPrevious(j, previous, TransactionStoreFailed, !audited);
        return Some(status);
      }
      rejected := None;
    }

    method LoadTarget(j: Job, previous: nat) returns (rejected: Option<ActivationStatus>)
      requires host.Valid() && host.control == Act(j, previous, LoadingTarget)
      modifies host
      ensures Continues(j, previous, rejected, AnnouncingProbe(0)) && host.start == old(host.start)
    {
      hide Host.Changes, Host.Valid, Legal, Apply, Exec, StepAuthorize, StepPrepare, StepBegin, StepAdvance,
        StepConfirm, StepCommit, StepRollback, StepRecovery;
      var loaded := host.LoadRuleset(j.target);
      var audited := host.AppendEvent(LoadFinished(j.target, loaded));
      if !audited || !loaded {
        var status := RollbackToPrevious(j, previous, ActivationFailed, !audited);
        return Some(status);
      }
      rejected := AdvanceTo(j, previous, TargetLoaded);
    }

    method RunProbe(j: Job, previous: nat, i: nat) returns (rejected: Option<ActivationStatus>)
      requires host.Valid() && host.control == Act(j, previous, AnnouncingProbe(i)) && i < j.probes
      modifies host
      ensures host.start == old(host.start)
      ensures Continues(j, previous, rejected,
                        if i + 1 < j.probes then AnnouncingProbe(i + 1) else Advancing(Verified))
    {
      hide Host.Changes, Host.Valid, Legal, Apply, Exec, Step;
      ProbeStartSteps(j, previous, i);
      ProbeSteps(j, previous, i);
      var healthy := false;
      var audited := host.AppendEvent(ProbeStarted(i));
      if audited {
        healthy := host.Probe(i);
        ProbeEndSteps(j, previous, i, healthy);
        audited := host.AppendEvent(ProbeFinished(i, healthy));
      }
      if !audited || !healthy {
        var status := RollbackToPrevious(j, previous, VerificationFailedRolledBack, !audited);
        return Some(status);
      }
      rejected := None;
    }

    // Every configured probe, in order.
    method RunProbes(j: Job, previous: nat) returns (rejected: Option<ActivationStatus>)
      requires host.Valid() && host.control == Act(j, previous, AnnouncingProbe(0)) && j.probes > 0
      modifies host
      ensures Continues(j, previous, rejected, Advancing(Verified)) && host.start == old(host.start)
    {
      hide Host.Changes, Host.Valid, Legal, Apply, Exec, Step;
      var i := 0;
      while i < j.probes
        invariant i <= j.probes && host.start == old(host.start)
        invariant Continues(j, previous, None, if i < j.probes then AnnouncingProbe(i) else Advancing(Verified))
      {
        rejected := RunProbe(j, previous, i);
        if rejected.Some? { return; }
        i := i + 1;
      }
      rejected := None;
    }

    method WaitForConfirmation(j: Job, previous: nat) returns (rejected: Option<ActivationStatus>)
      requires host.Valid() && host.control == Act(j, previous, AnnouncingConfirmation)
      modifies host
      ensures Continues(j, previous, rejected, Advancing(Committing)) && host.start == old(host.start)
    {
      hide Host.Changes, Host.Valid, Legal, Apply, Exec, Step;
      ConfirmStartSteps(j, previous);
      ConfirmSteps(j, previous);
      var confirmed := false;
      var audited := host.AppendEvent(ConfirmationPending);
      if audited {
        confirmed := host.AwaitConfirmation();
        ConfirmEndSteps(j, previous, confirmed);
        audited := host.AppendEvent(ConfirmationFinished(confirmed));
      }
      if !audited || !confirmed {
        var status := RollbackToPrevious(j, previous, ConfirmationFailedRolledBack, !audited);
        return Some(status);
      }
      rejected := None;
    }

    method ConfirmOperation(j: Job, previous: nat) returns (rejected: Option<ActivationStatus>)
      requires host.Valid() && host.control == Act(j, previous, Advancing(Verified))
      modifies host
      ensures Continues(j, previous, rejected, AnnouncingCommit) && host.start == old(host.start)
    {
      hide Host.Changes, Host.Valid, Legal, Apply, Exec, Step;
      rejected := AdvanceTo(j, previous, Verified);
      if rejected.Some? { return; }
      rejected := AdvanceTo(j, previous, AwaitingConfirmation);
      if rejected.Some? { return; }
      rejected := WaitForConfirmation(j, previous);
      if rejected.Some? { return; }
      rejected := AdvanceTo(j, previous, Committing);
    }

    // Announce the commit and move the marker.
    method MarkTarget(j: Job, previous: nat) returns (rejected: Option<ActivationStatus>)
      requires host.Valid() && host.control == Act(j, previous, AnnouncingCommit)
      modifies host
      ensures Continues(j, previous, rejected, Advancing(Committed)) && host.start == old(host.start)
    {
      hide Host.Changes, Host.Valid, Legal, Apply, Exec, Step;
      MarkStartSteps(j, previous);
      MarkSteps(j, previous);
      var marked := false;
      var audited := host.AppendEvent(CommitStarted);
      if audited {
        ghost var applied;
        marked, applied := host.MarkLastKnownGood(j.target);
        MarkEndSteps(j, previous, marked);
        audited := host.AppendEvent(MarkFinished(j.target, marked));
      }
      if !audited || !marked {
        var status := RollbackToPrevious(j, previous, CommitFailedRolledBack, !audited);
        return Some(status);
      }
      rejected := None;
    }

    method ClearCommitted(j: Job, previous: nat, advanceAudited: bool) returns (status: ActivationStatus)
      requires host.Valid() && host.control == Act(j, previous, Announced7(advanceAudited))
      modifies host
      ensures Finished(j, status) && host.start == old(host.start)
    {
      hide Host.Changes, Host.Valid, Legal, Apply, Exec, Step;
      AnnounceCommittedSteps(j, previous, advanceAudited);
      var finalAudited := host.AppendEvent(ActivationCommitted);
      ClearCommittedSteps(j, previous, advanceAudited && finalAudited);
      var cleared, applied := host.ClearTransaction(j.op);
      status := if !cleared then CommittedCleanupPending
                else if !advanceAudited || !finalAudited then CommittedWithWarning
                else CommittedOk;
    }

    // Move the record to `committed` and clear it.
    method FinishCommit(j: Job, previous: nat) returns (status: ActivationStatus)
      requires host.Valid() && host.control == Act(j, previous, Advancing(Committed))
      modifies host
      ensures Finished(j, status) && host.start == old(host.start)
    {
      hide Host.Changes, Host.Valid, Legal, Apply, Exec, StepAuthorize, StepPrepare, StepBegin, StepVerify,
        StepConfirm, StepCommit, StepRollback, StepRecovery;
      var advanced, applied := host.AdvanceTransaction(j.op, Committed);
      var audited := host.AppendEvent(AdvanceFinished(Committed, advanced));
      if !advanced {
        status := RollbackToPrevious(j, previous, TransactionStoreFailed, false);
        return;
      }
      status := ClearCommitted(j, previous, audited);
    }

    method RunActivation(j: Job) returns (status: ActivationStatus)
      requires ValidJob(j) && host.Valid() && host.control == Begins(j)
      modifies host
      ensures Finished(j, status) && host.start == old(host.start)
    {
      var rejected := AuthorizeRequest(j);
      if rejected.Some? { return rejected.value; }
      var previous: nat;
      rejected, previous := Resolve(j);
      if rejected.Some? { return rejected.value; }
      rejected := Revalidate(j, previous);
      if rejected.Some? { return rejected.value; }
      rejected := BeginRecord(j, previous);
      if rejected.Some? { return rejected.value; }
      rejected := LoadTarget(j, previous);
      if rejected.Some? { return rejected.value; }
      rejected := RunProbes(j, previous);
      if rejected.Some? { return rejected.value; }
      rejected := ConfirmOperation(j, previous);
      if rejected.Some? { return rejected.value; }
      rejected := MarkTarget(j, previous);
      if rejected.Some? { return rejected.value; }
      status := FinishCommit(j, previous);
    }

    /** One activation: rejected arguments leave everything as it was, anything else is an execution of the protocol. */
    method Activate(request: ActivationRequest) returns (status: ActivationStatus)
      requires host.Valid() && Resting(host.control)
      modifies host
      ensures var j := JobOf(request, probes);
              if ValidRequest(request) && ValidProbes(probes) then
                && host.start == Config(old(host.world), Begins(j))
                && Exec(host.start, host.trace) == Some(Config(host.world, Done(j, status)))
                && host.control == Done(j, status)
                && status == Verdict(j, Faults(j, host.trace))
                && forall p | Clean(old(host.world), p) :: StatusMeans(p, host.world, j, status)
              else
                status == InvalidRequest && unchanged(host)
    {
      var probesValid := CheckProbes();
      if !ValidRequest(request) || !probesValid {
        return InvalidRequest;
      }
      var j := JobOf(request, probes);
      host.Enter(Begins(j));
      status := RunActivation(j);
      StatusIsVerdict(old(host.world), j, host.trace, host.world, j, status);
      forall p | Clean(old(host.world), p) ensures StatusMeans(p, host.world, j, status) {
        StatusTheorem(old(host.world), p, j, host.trace, host.world, j, status);
      }
    }

    // ---------- recovery ----------

    ghost predicate FinishedRecovery(status: RecoveryStatus)
      reads this, host
    {
      host.Valid() && host.control == Recovered(status)
    }

    // Either recovery has failed, or it continues at `at` with the audit verdict so far.
    ghost predicate Recovers(pending: Pending, auditOk: bool, failed: bool, at: RecStage)
      reads this, host
    {
      host.Valid() && host.control == if failed then Recovered(RecoveryFailed) else Rec(pending, auditOk, at)
    }

    method ClearCleanedUp(pending: Pending, auditSoFar: bool) returns (status: RecoveryStatus)
      requires host.Valid() && host.control == Rec(pending, auditSoFar, RecCleaning)
      modifies host
      ensures FinishedRecovery(status) && host.start == old(host.start)
    {
      hide Host.Changes, Host.Valid, Legal, Apply, Exec, StepActivation, StepRollback, StepRestore, StepSettle;
      var cleared, applied := host.ClearTransaction(pending.op);
      var audited := host.AppendEvent(ClearFinished(cleared));
      if !cleared { return RecoveryFailed; }
      var auditOk := audited && auditSoFar;
      audited := host.AppendEvent(RecoveryCleanedUp);
      status := if audited && auditOk then CommittedCleaned else AuditFailedRecovered;
    }

    method CleanUpCommitted(pending: Pending, auditSoFar: bool) returns (status: RecoveryStatus)
      requires host.Valid() && host.control == Rec(pending, auditSoFar, RecReadingMarker)
      modifies host
      ensures FinishedRecovery(status) && host.start == old(host.start)
    {
      hide Host.Changes, Host.Valid, Legal, Apply, Exec, StepActivation, StepRollback, StepRestore, StepSettle;
      var lastKnownGood := host.LastKnownGood();
      if lastKnownGood != Some(pending.target) {
        var _ := host.AppendEvent(RecoveryMarkerMismatch);
        return RecoveryFailed;
      }
      status := ClearCleanedUp(pending, auditSoFar);
    }

    method ValidatePrevious(pending: Pending, auditSoFar: bool) returns (failed: bool, auditOk: bool)
      requires host.Valid() && host.control == Rec(pending, auditSoFar, RecValidating)
      modifies host
      ensures Recovers(pending, auditOk, failed, RecLoading) && host.start == old(host.start)
    {
      hide Host.Changes, Host.Valid, Legal, Apply, Exec, StepActivation, StepRollback, StepCleanup, StepSettle;
      var valid := host.ValidateRuleset(pending.rollback);
      var audited := host.AppendEvent(ValidationFinished(pending.rollback, valid));
      return !valid, audited && auditSoFar;
    }

    method RevalidatePrevious(pending: Pending, auditSoFar: bool) returns (failed: bool, auditOk: bool)
      requires host.Valid() && host.control == Rec(pending, auditSoFar, RecReadingRevision)
      modifies host
      ensures Recovers(pending, auditOk, failed, RecLoading) && host.start == old(host.start)
    {
      hide Host.Changes, Host.Valid, Legal, Apply, Exec, StepActivation, StepRollback, StepCleanup, StepSettle;
      var available := host.LoadRevision(pending.rollback);
      if !available {
        var _ := host.AppendEvent(RecoveryRevisionUnavailable);
        return true, auditSoFar;
      }
      failed, auditOk := ValidatePrevious(pending, auditSoFar);
    }

    method ReloadPrevious(pending: Pending, auditSoFar: bool) returns (failed: bool, auditOk: bool)
      requires host.Valid() && host.control == Rec(pending, auditSoFar, RecLoading)
      modifies host
      ensures Recovers(pending, auditOk, failed, RecMarking) && host.start == old(host.start)
    {
      hide Host.Changes, Host.Valid, Legal, Apply, Exec, StepActivation, StepRollback, StepCleanup, StepSettle;
      var loaded := host.LoadRuleset(pending.rollback);
      var audited := host.AppendEvent(LoadFinished(pending.rollback, loaded));
      return !loaded, audited && auditSoFar;
    }

    method ResetMarker(pending: Pending, auditSoFar: bool) returns (failed: bool, auditOk: bool)
      requires host.Valid() && host.control == Rec(pending, auditSoFar, RecMarking)
      modifies host
      ensures Recovers(pending, auditOk, failed, RecClearing) && host.start == old(host.start)
    {
      hide Host.Changes, Host.Valid, Legal, Apply, Exec, StepActivation, StepRollback, StepCleanup, StepRestore;
      var marked, applied := host.MarkLastKnownGood(pending.rollback);
      var audited := host.AppendEvent(MarkFinished(pending.rollback, marked));
      return !marked, audited && auditSoFar;
    }

    method ClearRecovered(pending: Pending, auditSoFar: bool) returns (status: RecoveryStatus)
      requires host.Valid() && host.control == Rec(pending, auditSoFar, RecClearing)
      modifies host
      ensures FinishedRecovery(status) && host.start == old(host.start)
    {
      hide Host.Changes, Host.Valid, Legal, Apply, Exec, Step;
      ClearSteps(pending, auditSoFar);
      var cleared, applied := host.ClearTransaction(pending.op);
      ClearedSteps(pending, auditSoFar, cleared);
      var audited := host.AppendEvent(ClearFinished(cleared));
      if !cleared { return RecoveryFailed; }
      var auditOk := audited && auditSoFar;
      FinishSteps(pending, auditOk);
      audited := host.AppendEvent(RecoveryRolledBack);
      status := if audited && auditOk then RolledBack else AuditFailedRecovered;
    }

    method RestorePrevious(pending: Pending, auditSoFar: bool) returns (status: RecoveryStatus)
      requires host.Valid() && host.control == Rec(pending, auditSoFar, RecReadingRevision)
      modifies host
      ensures FinishedRecovery(status) && host.start == old(host.start)
    {
      hide Host.Changes, Host.Valid, Legal, Apply, Exec, Step;
      var failed, auditOk := RevalidatePrevious(pending, auditSoFar);
      if failed { return RecoveryFailed; }
      failed, auditOk := ReloadPrevious(pending, auditOk);
      if failed { return RecoveryFailed; }
      failed, auditOk := ResetMarker(pending, auditOk);
      if failed { return RecoveryFailed; }
      status := ClearRecovered(pending, auditOk);
    }

    method RunRecovery() returns (status: RecoveryStatus)
      requires host.Valid() && host.control == Recovering
      modifies host
      ensures FinishedRecovery(status) && host.start == old(host.start)
    {
      hide Host.Changes, Host.Valid, Legal, Apply, Exec, StepActivation, StepRollback, StepRestore, StepSettle;
      var loaded := host.LoadTransaction();
      if loaded.NoPendingRecord? { return NoPending; }
      if loaded.RecordUnreadable? { return RecoveryFailed; }
      var pending := loaded.pending;
      var auditOk := host.AppendEvent(RecoveryStarted);
      if pending.phase == Committed {
        status := CleanUpCommitted(pending, auditOk);
      } else {
        status := RestorePrevious(pending, auditOk);
      }
    }

    /** One recovery is an execution of the protocol's recovery text. */
    method RecoverPending() returns (status: RecoveryStatus)
      requires host.Valid() && Resting(host.control)
      modifies host
      ensures host.start == Config(old(host.world), Recovering)
      ensures Exec(host.start, host.trace) == Some(Config(host.world, Recovered(status)))
      ensures host.control == Recovered(status)
      ensures RecoveryTranscript.Course(host.trace, status)
    {
      host.Enter(Recovering);
      status := RunRecovery();
      RecoveryTranscript.RecoveryCourse(old(host.world), host.trace, host.world, status);
    }
  }
}
