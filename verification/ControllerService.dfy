/**
 The controller service: recovery, then the admission loop, then one listener shutdown.

 `turns` is what the listener answers until the stop request is seen: the stop token reads as requested once all of
 them have been used.  Appends, starts and stops of the collaborators succeed or fail as they like.
 */
module ControllerService {
  import opened Basics

  datatype Admission = Session(ok: bool) | TimedOut | RateLimited | ListenerError

  datatype Status =
    | Stopped | AlreadyRunning | InvalidConfiguration | AuditFailed | ListenerStartFailed | ListenerFailed
    | ShutdownFailed

  datatype ServiceConfig = ServiceConfig(acceptPollInterval: int, sessionTimeout: int, errorLimit: nat)

  const MINIMUM_POLL_INTERVAL := 10
  const MAXIMUM_POLL_INTERVAL := 1000
  const MAXIMUM_IO_TIMEOUT := 60000
  const MAXIMUM_ERROR_LIMIT := 100
  const SIZE_MAX := 0xFFFF_FFFF_FFFF_FFFF

  predicate ValidConfig(c: ServiceConfig) {
    && MINIMUM_POLL_INTERVAL <= c.acceptPollInterval <= MAXIMUM_POLL_INTERVAL
    && 0 < c.sessionTimeout <= MAXIMUM_IO_TIMEOUT
    && 0 < c.errorLimit <= MAXIMUM_ERROR_LIMIT
  }

  // What the service did, in order.
  datatype Entry =
    | Journaled(id: string, ok: bool)
    | ControllerStarted
    | ListenerStarted(ok: bool)
    | Served(admission: Admission)
    | ListenerStopped(ok: bool)

  datatype Output = Output(status: Status, handled: nat, failures: nat, timeouts: nat, limited: nat, errors: nat)

  // ---------- histories ----------

  // The answers of the listener.
  function Calls(trace: seq<Entry>): seq<Admission> {
    if trace == [] then []
    else
      var n := |trace| - 1;
      Calls(trace[..n]) + if trace[n].Served? then [trace[n].admission] else []
  }

  // How often an event was attempted.
  function Attempts(trace: seq<Entry>, id: string): nat {
    if trace == [] then 0
    else
      var n := |trace| - 1;
      Attempts(trace[..n], id) + if trace[n].Journaled? && trace[n].id == id then 1 else 0
  }

  function Stops(trace: seq<Entry>): nat {
    if trace == [] then 0
    else
      var n := |trace| - 1;
      Stops(trace[..n]) + if trace[n].ListenerStopped? then 1 else 0
  }

  predicate AllJournaled(trace: seq<Entry>) {
    forall i :: 0 <= i < |trace| && trace[i].Journaled? ==> trace[i].ok
  }

  // Admission is open: the controller has started, the listener has, and readiness is journaled, in this order.
  ghost predicate Open(trace: seq<Entry>) {
    exists i, k, l :: 0 <= i < k < l < |trace| && trace[i] == ControllerStarted && trace[k] == ListenerStarted(true)
                      && trace[l] == Journaled("GH-SVC-0002", true)
  }

  ghost predicate Gated(trace: seq<Entry>) {
    forall i :: 0 <= i < |trace| && trace[i].Served? ==> Open(trace[..i]) && Stops(trace[..i]) == 0
  }

  datatype Kind = Handled | Failed | Timeout | Limited | Errored

  predicate Is(a: Admission, kind: Kind) {
    match kind
    case Handled => a.Session?
    case Failed => a.Session? && !a.ok
    case Timeout => a.TimedOut?
    case Limited => a.RateLimited?
    case Errored => a.ListenerError?
  }

  function Count(calls: seq<Admission>, kind: Kind): nat {
    if calls == [] then 0
    else Count(calls[..|calls| - 1], kind) + if Is(calls[|calls| - 1], kind) then 1 else 0
  }

  function Saturated(n: nat): nat { if n <= SIZE_MAX then n else SIZE_MAX }

  function TrailingErrors(calls: seq<Admission>): nat {
    if calls == [] || !calls[|calls| - 1].ListenerError? then 0
    else 1 + TrailingErrors(calls[..|calls| - 1])
  }

  /** A call history ends in at least k consecutive errors exactly if its last k answers are errors. */
  lemma {:induction false} TrailingErrorsMeans(calls: seq<Admission>, k: nat)
    ensures TrailingErrors(calls) >= k <==>
              |calls| >= k && forall i :: |calls| - k <= i < |calls| ==> calls[i].ListenerError?
    decreases |calls|
  {
    if calls == [] || k == 0 {
    } else {
      var n := |calls| - 1;
      TrailingErrorsMeans(calls[..n], k - 1);
      if calls[n].ListenerError? {
        assert forall i :: 0 <= i < n ==> calls[i] == calls[..n][i];
      }
    }
  }

  /** Every call of the listener is counted once: handled, timed out, rate limited or an error. */
  lemma {:induction false} EveryCallIsCounted(calls: seq<Admission>)
    ensures Count(calls, Handled) + Count(calls, Timeout) + Count(calls, Limited) + Count(calls, Errored) == |calls|
    ensures Count(calls, Failed) <= Count(calls, Handled)
    decreases |calls|
  {
    if calls == [] {
    } else {
      EveryCallIsCounted(calls[..|calls| - 1]);
    }
  }

  function Increment(n: nat): nat { if n < SIZE_MAX then n + 1 else n }

  function Counted(o: Output, a: Admission): Output {
    match a
    case Session(ok) =>
      o.(handled := Increment(o.handled), failures := if ok then o.failures else Increment(o.failures))
    case TimedOut => o.(timeouts := Increment(o.timeouts))
    case RateLimited => o.(limited := Increment(o.limited))
    case ListenerError => o.(errors := Increment(o.errors))
  }

  // The counters are those of the calls.
  predicate Tallies(o: Output, calls: seq<Admission>) {
    && o.handled == Saturated(Count(calls, Handled)) && o.failures == Saturated(Count(calls, Failed))
    && o.timeouts == Saturated(Count(calls, Timeout)) && o.limited == Saturated(Count(calls, Limited))
    && o.errors == Saturated(Count(calls, Errored))
  }

  /** The counters add up to the number of calls, as long as none can have saturated. */
  lemma CountersAddUp(o: Output, calls: seq<Admission>)
    requires Tallies(o, calls) && |calls| <= SIZE_MAX
    ensures o.handled + o.timeouts + o.limited + o.errors == |calls| && o.failures <= o.handled
  {
    EveryCallIsCounted(calls);
  }

  lemma TalliesStep(o: Output, turns: seq<Admission>, n: nat)
    requires n < |turns| && Tallies(o, turns[..n])
    ensures Tallies(Counted(o, turns[n]), turns[..n + 1])
    ensures TrailingErrors(turns[..n + 1]) == if turns[n].ListenerError? then TrailingErrors(turns[..n]) + 1 else 0
    ensures RateLimited in turns[..n + 1] <==> RateLimited in turns[..n] || turns[n] == RateLimited
  {
    assert turns[..n + 1][..n] == turns[..n];
  }

  // Only answers and audits were added.
  ghost predicate Extends(before: seq<Entry>, after: seq<Entry>) {
    before <= after && forall i :: |before| <= i < |after| ==> after[i].Served? || after[i].Journaled?
  }

  lemma ExtendsItself(trace: seq<Entry>)
    ensures Extends(trace, trace)
  {}

  lemma ExtendsAgain(a: seq<Entry>, b: seq<Entry>, c: seq<Entry>)
    requires Extends(a, b) && Extends(b, c)
    ensures Extends(a, c)
  {
    assert forall i :: |a| <= i < |b| ==> c[i] == b[i];
  }

  lemma ExtendsByAudit(before: seq<Entry>, after: seq<Entry>)
    requires |after| == |before| + 1 && after[..|before|] == before && after[|before|].Journaled?
    ensures Extends(before, after)
  {}

  // The first thing is the audit of the start.
  predicate Announced(trace: seq<Entry>) { trace != [] && trace[0].Journaled? && trace[0].id == "GH-SVC-0001" }

  lemma SameMembers(before: seq<Entry>, after: seq<Entry>)
    requires Extends(before, after)
    ensures Announced(before) ==> Announced(after)
    ensures forall e: Entry :: !e.Served? && !e.Journaled? ==> (e in after <==> e in before)
  {
    forall e: Entry | e in after && !e.Served? && !e.Journaled? ensures e in before {
      var i :| 0 <= i < |after| && after[i] == e;
      assert i < |before| && before[i] == e;
    }
    assert forall i :: 0 <= i < |before| ==> after[i] == before[i];
  }

  lemma OpenGrows(trace: seq<Entry>, e: Entry)
    requires Open(trace)
    ensures Open(trace + [e])
  {
    var i, k, l :| 0 <= i < k < l < |trace| && trace[i] == ControllerStarted && trace[k] == ListenerStarted(true)
                   && trace[l] == Journaled("GH-SVC-0002", true);
    var t := trace + [e];
    assert t[i] == trace[i] && t[k] == trace[k] && t[l] == trace[l];
  }

  lemma GatedGrows(trace: seq<Entry>, e: Entry)
    requires Gated(trace) && (e.Served? ==> Open(trace) && Stops(trace) == 0)
    ensures Gated(trace + [e])
  {
    hide Open, Stops;
    var t := trace + [e];
    forall i | 0 <= i < |t| && t[i].Served? ensures Open(t[..i]) && Stops(t[..i]) == 0 {
      assert t[..i] == if i < |trace| then trace[..i] else trace;
    }
  }

  lemma OneMore(trace: seq<Entry>, e: Entry)
    ensures Calls(trace + [e]) == Calls(trace) + if e.Served? then [e.admission] else []
    ensures forall id :: Attempts(trace + [e], id) == Attempts(trace, id) + if e.Journaled? && e.id == id then 1 else 0
    ensures Stops(trace + [e]) == Stops(trace) + if e.ListenerStopped? then 1 else 0
    ensures AllJournaled(trace + [e]) <==> AllJournaled(trace) && (e.Journaled? ==> e.ok)
  {
    assert (trace + [e])[..|trace|] == trace;
    assert forall i :: 0 <= i < |trace| ==> (trace + [e])[i] == trace[i];
  }

  // ---------- the service ----------

  // The last thing is the audited end.
  predicate Closed(trace: seq<Entry>) { trace != [] && trace[|trace| - 1] == Journaled("GH-SVC-0003", true) }

  // The controller and the listener have started, in this order.
  ghost predicate Ready(trace: seq<Entry>) {
    exists i, k :: 0 <= i < k < |trace| && trace[i] == ControllerStarted && trace[k] == ListenerStarted(true)
  }

  lemma NowReady(trace: seq<Entry>)
    requires trace == [Journaled("GH-SVC-0001", true), ControllerStarted, ListenerStarted(true)]
    ensures Ready(trace)
  {
    assert trace[1] == ControllerStarted && trace[2] == ListenerStarted(true);
  }

  lemma ReadyOpens(trace: seq<Entry>)
    requires Ready(trace)
    ensures Open(trace + [Journaled("GH-SVC-0002", true)])
  {
    var i, k :| 0 <= i < k < |trace| && trace[i] == ControllerStarted && trace[k] == ListenerStarted(true);
    var t := trace + [Journaled("GH-SVC-0002", true)];
    assert t[i] == trace[i] && t[k] == trace[k] && t[|trace|] == Journaled("GH-SVC-0002", true);
  }

  // How the calls of one run turned out: every event it may journal, and the start and the stop of the listener.
  datatype Fortune = Fortune(
    announced: bool, rejected: bool, listening: bool, reported: bool, ready: bool, limited: bool, gaveUp: bool,
    closed: bool, ended: bool)

  // The admission loop: the first refusal of the rate limiter is journaled, no other.
  function Admissions(calls: seq<Admission>, limited: bool): seq<Entry> {
    if calls == [] then []
    else
      var n := |calls| - 1;
      Admissions(calls[..n], limited) + [Served(calls[n])]
      + if calls[n] == RateLimited && RateLimited !in calls[..n] then [Journaled("GH-SVC-1003", limited)] else []
  }

  lemma AdmissionsStep(turns: seq<Admission>, n: nat, limited: bool)
    requires n < |turns|
    ensures Admissions(turns[..n + 1], limited)
            == Admissions(turns[..n], limited) + [Served(turns[n])]
               + if turns[n] != RateLimited || RateLimited in turns[..n] then []
                 else [Journaled("GH-SVC-1003", limited)]
  {
    assert turns[..n + 1][..n] == turns[..n];
  }

  lemma {:induction false} SameAdmissions(calls: seq<Admission>, a: bool, b: bool)
    requires RateLimited !in calls
    ensures Admissions(calls, a) == Admissions(calls, b)
    decreases |calls|
  {
    if calls == [] {
    } else {
      SameAdmissions(calls[..|calls| - 1], a, b);
    }
  }

  lemma NoAdmissions(limited: bool)
    ensures Admissions([], limited) == []
  {}

  // The last answer is the first refusal of the rate limiter.
  predicate JustLimited(calls: seq<Admission>) {
    calls != [] && calls[|calls| - 1] == RateLimited && RateLimited !in calls[..|calls| - 1]
  }

  function Recovery(valid: bool, f: Fortune): seq<Entry> {
    [Journaled("GH-SVC-0001", f.announced)] + (if valid then [] else [Journaled("GH-SVC-1001", f.rejected)])
    + [ControllerStarted]
  }

  function Closing(closed: bool, ended: bool): seq<Entry> {
    [ListenerStopped(closed)] + if closed then [Journaled("GH-SVC-0003", ended)] else []
  }

  function Admitting(calls: seq<Admission>, limited: bool, repeated: bool, gaveUp: bool): seq<Entry> {
    Admissions(calls, limited) + if repeated then [Journaled("GH-SVC-2003", gaveUp)] else []
  }

  function Opening(f: Fortune): seq<Entry> {
    [ListenerStarted(f.listening)] + if f.listening then [] else [Journaled("GH-SVC-2002", f.reported)]
  }

  // Everything a started listener is used for.
  function Listening(calls: seq<Admission>, repeated: bool, f: Fortune): seq<Entry> {
    [Journaled("GH-SVC-0002", f.ready)]
    + if f.ready then Admitting(calls, f.limited, repeated, f.gaveUp) + Closing(f.closed, f.ended)
      else [ListenerStopped(f.closed)]
  }

  // A whole run.
  function Transcript(valid: bool, stopRequested: bool, calls: seq<Admission>, repeated: bool, f: Fortune)
    : seq<Entry>
  {
    Recovery(valid, f)
    + if !valid || !f.announced then []
      else if stopRequested then [Journaled("GH-SVC-0003", f.ended)]
      else Opening(f) + if f.listening then Listening(calls, repeated, f) else []
  }

  lemma {:induction false} AdmissionsOnly(calls: seq<Admission>, limited: bool)
    ensures forall e :: e in Admissions(calls, limited) ==> e.Served? || e == Journaled("GH-SVC-1003", limited)
    ensures RateLimited in calls ==> Journaled("GH-SVC-1003", limited) in Admissions(calls, limited)
    decreases |calls|
  {
    if calls == [] {
    } else {
      var n := |calls| - 1;
      AdmissionsOnly(calls[..n], limited);
      assert calls == calls[..n] + [calls[n]];
    }
  }

  lemma NoListenerEntry(valid: bool, f: Fortune)
    ensures forall ok :: ListenerStarted(ok) !in Recovery(valid, f)
    ensures Recovery(valid, f) != [] && Recovery(valid, f)[0] == Journaled("GH-SVC-0001", f.announced)
  {}

  lemma NotYetReady(valid: bool, f: Fortune)
    ensures Journaled("GH-SVC-0002", true) !in Recovery(valid, f) && Journaled("GH-SVC-0002", true) !in Opening(f)
  {}

  /** The listener is started exactly if the bounds are kept, the start is journaled and no stop is requested before. */
  lemma ListenerIsStarted(valid: bool, stopRequested: bool, calls: seq<Admission>, repeated: bool, f: Fortune)
    ensures var trace := Transcript(valid, stopRequested, calls, repeated, f);
            && |trace| > 0
            && (ListenerStarted(true) in trace || ListenerStarted(false) in trace
                <==> valid && !stopRequested && trace[0] == Journaled("GH-SVC-0001", true))
  {
    hide Recovery, Listening;
    NoListenerEntry(valid, f);
    var trace := Transcript(valid, stopRequested, calls, repeated, f);
    var rest := trace[|Recovery(valid, f)|..];
    assert trace == Recovery(valid, f) + rest;
    assert trace[0] == Recovery(valid, f)[0];
    if valid && f.announced && !stopRequested {
      assert rest[0] == ListenerStarted(f.listening);
      assert ListenerStarted(f.listening) in trace;
    }
  }

  // What a listening service journals of its readiness and of the rate limiter, read off the entries.
  lemma ListeningTells(calls: seq<Admission>, repeated: bool, f: Fortune)
    ensures Journaled("GH-SVC-0002", true) in Listening(calls, repeated, f) <==> f.ready
    ensures f.ready && RateLimited in calls ==> Journaled("GH-SVC-1003", f.limited) in Listening(calls, repeated, f)
  {
    hide Admissions;
    AdmissionsOnly(calls, f.limited);
    if f.ready {
      var admitting := Admitting(calls, f.limited, repeated, f.gaveUp);
      assert RateLimited in calls ==> Journaled("GH-SVC-1003", f.limited) in admitting;
      assert Listening(calls, repeated, f)[0] == Journaled("GH-SVC-0002", true);
    }
  }

  lemma CourseRefused(valid: bool, f: Fortune)
    requires !valid || !f.announced
    ensures forall stopRequested :: Transcript(valid, stopRequested, [], false, f) == Recovery(valid, f)
  {
    assert Recovery(valid, f) + [] == Recovery(valid, f);
  }

  lemma CourseUnlistened(f: Fortune)
    requires f.announced
    ensures Transcript(true, true, [], false, f) == Recovery(true, f) + [Journaled("GH-SVC-0003", f.ended)]
    ensures !f.listening ==> Transcript(true, false, [], false, f) == Recovery(true, f) + Opening(f)
  {
    assert Opening(f) + [] == Opening(f);
  }

  lemma CourseUnready(f: Fortune)
    requires f.announced && f.listening && !f.ready
    ensures forall calls, repeated :: Transcript(true, false, calls, repeated, f)
                                      == Recovery(true, f) + Opening(f) + [Journaled("GH-SVC-0002", false)]
                                         + [ListenerStopped(f.closed)]
  {
    assert Listening([], false, f) == [Journaled("GH-SVC-0002", false)] + [ListenerStopped(f.closed)];
  }

  lemma CourseReady(f: Fortune, calls: seq<Admission>, repeated: bool)
    requires f.announced && f.listening && f.ready
    ensures Transcript(true, false, calls, repeated, f)
            == Recovery(true, f) + Opening(f) + [Journaled("GH-SVC-0002", true)]
               + Admitting(calls, f.limited, repeated, f.gaveUp) + Closing(f.closed, f.ended)
  {
    hide Recovery, Opening, Admitting, Closing;
  }

  lemma SameOpening(f: Fortune, g: Fortune)
    requires f.announced == g.announced && f.rejected == g.rejected && f.listening == g.listening
    requires f.reported == g.reported
    ensures forall valid :: Recovery(valid, f) == Recovery(valid, g)
    ensures Opening(f) == Opening(g)
  {}

  class ControllerService {
    const config: ServiceConfig
    var running: bool
    ghost var trace: seq<Entry>

    constructor (config: ServiceConfig)
      ensures this.config == config && !running && trace == []
    {
      this.config := config;
      running := false;
      trace := [];
    }

    ghost method Note(e: Entry)
      requires Gated(trace) && (e.Served? ==> Open(trace) && Stops(trace) == 0)
      modifies this`trace
      ensures trace == old(trace) + [e] && Gated(trace)
      ensures old(Open(trace)) ==> Open(trace)
      ensures Calls(trace) == Calls(old(trace)) + if e.Served? then [e.admission] else []
      ensures forall id :: Attempts(trace, id)
                        == Attempts(old(trace), id) + if e.Journaled? && e.id == id then 1 else 0
      ensures Stops(trace) == Stops(old(trace)) + if e.ListenerStopped? then 1 else 0
      ensures AllJournaled(trace) <==> AllJournaled(old(trace)) && (e.Journaled? ==> e.ok)
    {
      hide Open, Gated, Calls, Attempts, Stops, AllJournaled;
      if Open(trace) { OpenGrows(trace, e); }
      GatedGrows(trace, e);
      OneMore(trace, e);
      trace := trace + [e];
    }

    method Append(id: string) returns (ok: bool)
      requires Gated(trace)
      modifies this`trace
      ensures trace == old(trace) + [Journaled(id, ok)] && Gated(trace)
      ensures old(Open(trace)) ==> Open(trace)
      ensures Calls(trace) == Calls(old(trace)) && Stops(trace) == Stops(old(trace))
      ensures forall other :: Attempts(trace, other) == Attempts(old(trace), other) + if other == id then 1 else 0
      ensures AllJournaled(trace) <==> AllJournaled(old(trace)) && ok
    {
      ok := *;
      Note(Journaled(id, ok));
    }

    // The answers end in as many consecutive errors as the configuration allows.
    ghost predicate Repeated(calls: seq<Admission>) { calls != [] && TrailingErrors(calls) >= config.errorLimit }

    // What each status means; only a run without any trouble counts as stopped.
    ghost predicate StatusFits(status: Status, calls: seq<Admission>)
      reads this
    {
      status == if !ValidConfig(config) then InvalidConfiguration
                else if ListenerStarted(false) in trace then ListenerStartFailed
                else if ListenerStopped(false) in trace then ShutdownFailed
                else if !Closed(trace) then AuditFailed
                else if Repeated(calls) then ListenerFailed
                else if AllJournaled(trace) then Stopped else AuditFailed
    }

    method StartListener() returns (early: Option<Status>, ghost reported: bool)
      requires ValidConfig(config) && Gated(trace) && Calls(trace) == [] && Stops(trace) == 0 && AllJournaled(trace)
      requires trace == [Journaled("GH-SVC-0001", true), ControllerStarted]
      requires forall id :: id != "GH-SVC-0001" && id != "GH-SVC-1001" ==> Attempts(trace, id) == 0
      modifies this`trace
      ensures trace == old(trace) + [ListenerStarted(early.None?)]
                       + if early.None? then [] else [Journaled("GH-SVC-2002", reported)]
      ensures Gated(trace) && Calls(trace) == [] && ControllerStarted in trace
      ensures Attempts(trace, "GH-SVC-1003") == 0 && Attempts(trace, "GH-SVC-2003") == 0
      ensures Stops(trace) == 0 && ListenerStopped(false) !in trace
      ensures early.None? ==>
                && AllJournaled(trace) && ListenerStarted(true) in trace && ListenerStarted(false) !in trace
                && Ready(trace)
      ensures early.Some? ==> ListenerStarted(true) !in trace && StatusFits(early.value, [])
      ensures Attempts(trace, "GH-SVC-0002") == 0 && Announced(trace)
    {
      hide Open, Gated, Calls, Attempts, Stops, AllJournaled, Ready;
      var started: bool := *;
      Note(ListenerStarted(started));
      if !started {
        var journaled := Append("GH-SVC-2002");
        return Some(ListenerStartFailed), journaled;
      }
      NowReady(trace);
      return None, true;
    }

    lemma Empty()
      ensures Gated([]) && Calls([]) == [] && Stops([]) == 0 && AllJournaled([])
      ensures forall id :: Attempts([], id) == 0
    {}

    // The controller recovers even when the configuration is refused.
    method Recover() returns (audited: bool, ghost noted: bool)
      requires trace == []
      modifies this`trace
      ensures trace == [Journaled("GH-SVC-0001", audited)]
                       + (if ValidConfig(config) then [] else [Journaled("GH-SVC-1001", noted)]) + [ControllerStarted]
      ensures Gated(trace) && Calls(trace) == [] && Stops(trace) == 0
      ensures forall id :: id != "GH-SVC-0001" && id != "GH-SVC-1001" ==> Attempts(trace, id) == 0
      ensures ValidConfig(config) ==> (AllJournaled(trace) <==> audited)
      ensures !ValidConfig(config) ==> StatusFits(InvalidConfiguration, [])
      ensures ValidConfig(config) && !audited ==> StatusFits(AuditFailed, [])
    {
      hide Open, Gated, Calls, Attempts, Stops, AllJournaled;
      Empty();
      audited := Append("GH-SVC-0001");
      noted := true;
      if !ValidConfig(config) {
        var rejected := Append("GH-SVC-1001");
        noted := rejected;
      }
      Note(ControllerStarted);
    }

    // The stop was requested before the listener started.
    method StopAtOnce() returns (status: Status)
      requires ValidConfig(config) && Gated(trace) && Calls(trace) == [] && Stops(trace) == 0 && AllJournaled(trace)
      requires trace == [Journaled("GH-SVC-0001", true), ControllerStarted]
      requires forall id :: id != "GH-SVC-0001" && id != "GH-SVC-1001" ==> Attempts(trace, id) == 0
      modifies this`trace
      ensures trace == old(trace) + [Journaled("GH-SVC-0003", status == Stopped)]
      ensures Gated(trace) && Calls(trace) == [] && Stops(trace) == 0
      ensures Attempts(trace, "GH-SVC-1003") == 0 && Attempts(trace, "GH-SVC-2003") == 0
      ensures Attempts(trace, "GH-SVC-0002") == 0 && StatusFits(status, [])
    {
      hide Open, Gated, Calls, Attempts, Stops, AllJournaled;
      var journaled := Append("GH-SVC-0003");
      status := if journaled then Stopped else AuditFailed;
    }

    // Recovery and startup; None when the admission loop may begin.
    method StartUp(stopRequested: bool) returns (early: Option<Status>, ghost f: Fortune)
      requires trace == []
      modifies this`trace
      ensures early.Some? ==> trace == Transcript(ValidConfig(config), stopRequested, [], false, f) && !f.ready
      ensures early.None? ==>
                && ValidConfig(config) && f.announced && !stopRequested && f.listening
                && trace == Recovery(true, f) + Opening(f)
      ensures Gated(trace) && Calls(trace) == [] && ControllerStarted in trace
      ensures Attempts(trace, "GH-SVC-1003") == 0 && Attempts(trace, "GH-SVC-2003") == 0
      ensures Stops(trace) == 0 && ListenerStopped(false) !in trace
      ensures early.None? ==>
                && ValidConfig(config) && AllJournaled(trace)
                && ListenerStarted(true) in trace && ListenerStarted(false) !in trace && Ready(trace)
      ensures early.Some? ==> ListenerStarted(true) !in trace && StatusFits(early.value, [])
      ensures Attempts(trace, "GH-SVC-0002") == 0 && Announced(trace)
    {
      hide Open, Gated, Calls, Attempts, Stops, AllJournaled, StatusFits, Transcript;
      var audited;
      ghost var noted;
      audited, noted := Recover();
      f := Fortune(audited, noted, false, false, false, false, false, false, false);
      if !ValidConfig(config) || !audited { CourseRefused(ValidConfig(config), f); }
      if !ValidConfig(config) { return Some(InvalidConfiguration), f; }
      if !audited { return Some(AuditFailed), f; }
      if stopRequested {
        var status := StopAtOnce();
        f := f.(ended := status == Stopped);
        CourseUnlistened(f);
        return Some(status), f;
      }
      ghost var reported;
      early, reported := StartListener();
      f := f.(listening := early.None?, reported := reported);
      CourseUnlistened(f);
    }

    // The loop may go on: no run of errors has reached the limit, and no event failed to be journaled.
    ghost predicate Running(start: seq<Entry>, turns: seq<Admission>, n: nat, o: Output, consecutive: nat)
      reads this
      requires n <= |turns|
    {
      && trace == start + Admissions(turns[..n], o.status == Stopped)
      && (o.status == AuditFailed ==> JustLimited(turns[..n]))
      && Gated(trace) && Open(trace) && Stops(trace) == 0
      && Calls(trace) == turns[..n] && Tallies(o, turns[..n])
      && consecutive == TrailingErrors(turns[..n])
      && Attempts(trace, "GH-SVC-1003") == (if RateLimited in turns[..n] then 1 else 0)
      && o.status in {Stopped, AuditFailed} && (o.status == Stopped <==> AllJournaled(trace))
    }

    lemma CountingKeepsStatus(o: Output, a: Admission)
      ensures Counted(o, a).status == o.status
    {}

    lemma StatusIsNotCounted(o: Output, calls: seq<Admission>)
      ensures forall s :: Tallies(o.(status := s), calls) <==> Tallies(o, calls)
    {}

    // One answer of the listener.
    method Turn(ghost start: seq<Entry>, ghost turns: seq<Admission>, ghost n: nat, answer: Admission, o: Output,
                consecutive: nat, limitAudited: bool) returns (r: Output, errors: nat)
      requires n < |turns| && answer == turns[n] && Running(start, turns, n, o, consecutive) && o.status == Stopped
      requires limitAudited <==> RateLimited in turns[..n]
      requires Attempts(trace, "GH-SVC-2003") == 0
      modifies this`trace
      ensures Running(start, turns, n + 1, r, errors) && Extends(old(trace), trace)
      ensures Attempts(trace, "GH-SVC-2003") == 0
      ensures Attempts(trace, "GH-SVC-0002") == Attempts(old(trace), "GH-SVC-0002")
    {
      hide Gated, Open, Stops, Calls, Attempts, Tallies, TrailingErrors, AllJournaled, Counted, Admissions;
      TalliesStep(o, turns, n);
      AdmissionsStep(turns, n, true);
      assert turns[..n + 1] == turns[..n] + [turns[n]];
      Note(Served(answer));
      r := Counted(o, answer);
      CountingKeepsStatus(o, answer);
      errors := if answer.ListenerError? then consecutive + 1 else 0;
      if answer.RateLimited? && !limitAudited {
        var audited := Append("GH-SVC-1003");
        AdmissionsStep(turns, n, false);
        SameAdmissions(turns[..n], audited, true);
        if !audited { r := r.(status := AuditFailed); }
        StatusIsNotCounted(r, turns[..n + 1]);
      }
    }

    // No proper beginning of the first n answers has reached the error limit.
    ghost predicate BelowLimit(turns: seq<Admission>, n: nat)
      requires n <= |turns|
    {
      forall m :: 0 <= m < n ==> TrailingErrors(turns[..m]) < config.errorLimit
    }

    // How the loop ends after n answers.
    ghost predicate LoopOutcome(start: seq<Entry>, turns: seq<Admission>, n: nat, o: Output, limited: bool,
                                gaveUp: bool)
      reads this
    {
      && n <= |turns| && Calls(trace) == turns[..n]
      && Gated(trace) && Stops(trace) == 0 && Tallies(o, turns[..n]) && BelowLimit(turns, n)
      && Attempts(trace, "GH-SVC-1003") == (if RateLimited in turns[..n] then 1 else 0)
      && Attempts(trace, "GH-SVC-2003") == (if TrailingErrors(turns[..n]) >= config.errorLimit then 1 else 0)
      && trace == start + Admitting(turns[..n], limited, TrailingErrors(turns[..n]) >= config.errorLimit, gaveUp)
      && (n < |turns| ==> TrailingErrors(turns[..n]) >= config.errorLimit || !limited)
      && (!limited ==> JustLimited(turns[..n]))
      && o.status == if TrailingErrors(turns[..n]) >= config.errorLimit then ListenerFailed
                     else if AllJournaled(trace) then Stopped else AuditFailed
    }

    // The last run of errors has reached the limit.
    method GiveUp(ghost start: seq<Entry>, ghost turns: seq<Admission>, ghost n: nat, o: Output, consecutive: nat)
      returns (r: Output, ghost gaveUp: bool)
      requires n <= |turns| && Running(start, turns, n, o, consecutive) && consecutive >= config.errorLimit
      requires BelowLimit(turns, n) && Attempts(trace, "GH-SVC-2003") == 0
      modifies this`trace
      ensures LoopOutcome(start, turns, n, r, o.status == Stopped, gaveUp) && Extends(old(trace), trace)
      ensures Attempts(trace, "GH-SVC-0002") == Attempts(old(trace), "GH-SVC-0002")
    {
      hide Gated, Open, Stops, Calls, Attempts, Tallies, TrailingErrors, AllJournaled, Extends, BelowLimit, Admissions;
      ghost var before := trace;
      var journaled := Append("GH-SVC-2003");
      gaveUp := journaled;
      ExtendsByAudit(before, trace);
      StatusIsNotCounted(o, turns[..n]);
      r := o.(status := ListenerFailed);
    }

    lemma NoCalls(o: Output)
      requires o == Output(Stopped, 0, 0, 0, 0, 0)
      ensures Tallies(o, []) && TrailingErrors([]) == 0
    {}

    lemma NothingBelow(turns: seq<Admission>)
      ensures BelowLimit(turns, 0)
    {}

    lemma BelowLimitStep(turns: seq<Admission>, n: nat)
      requires n < |turns| && BelowLimit(turns, n) && TrailingErrors(turns[..n]) < config.errorLimit
      ensures BelowLimit(turns, n + 1)
    {}

    // The admission loop, and how many answers it takes.
    method Admit(turns: seq<Admission>) returns (o: Output, ghost n: nat, ghost limited: bool, ghost gaveUp: bool)
      requires Gated(trace) && Open(trace) && Stops(trace) == 0 && Calls(trace) == []
      requires Attempts(trace, "GH-SVC-1003") == 0 && Attempts(trace, "GH-SVC-2003") == 0
      requires AllJournaled(trace) && config.errorLimit > 0
      modifies this`trace
      ensures LoopOutcome(old(trace), turns, n, o, limited, gaveUp) && Extends(old(trace), trace)
      ensures Attempts(trace, "GH-SVC-0002") == Attempts(old(trace), "GH-SVC-0002")
    {
      hide Gated, Open, Stops, Calls, Attempts, Tallies, TrailingErrors, AllJournaled, Extends, BelowLimit, Admissions;
      o := Output(Stopped, 0, 0, 0, 0, 0);
      NoCalls(o);
      NoAdmissions(true);
      assert turns[..0] == [];
      gaveUp := false;
      var turn: nat := 0;
      var consecutive: nat := 0;
      var limitAudited := false;
      ExtendsItself(trace);
      NothingBelow(turns);
      while turn < |turns|
        invariant turn <= |turns| && Extends(old(trace), trace)
        invariant Running(old(trace), turns, turn, o, consecutive) && o.status == Stopped
        invariant consecutive < config.errorLimit
        invariant limitAudited <==> RateLimited in turns[..turn]
        invariant BelowLimit(turns, turn)
        invariant Attempts(trace, "GH-SVC-2003") == 0
        invariant Attempts(trace, "GH-SVC-0002") == Attempts(old(trace), "GH-SVC-0002")
      {
        ghost var before := trace;
        var answer := turns[turn];
        o, consecutive := Turn(old(trace), turns, turn, answer, o, consecutive, limitAudited);
        ExtendsAgain(old(trace), before, trace);
        limitAudited := limitAudited || answer.RateLimited?;
        assert turns[..turn + 1] == turns[..turn] + [turns[turn]];
        BelowLimitStep(turns, turn);
        turn := turn + 1;
        if consecutive >= config.errorLimit {
          before := trace;
          limited := o.status == Stopped;
          o, gaveUp := GiveUp(old(trace), turns, turn, o, consecutive);
          ExtendsAgain(old(trace), before, trace);
          return o, turn, limited, gaveUp;
        }
        if o.status == AuditFailed { break; }
      }
      n, limited := turn, o.status == Stopped;
    }

    // Listener shutdown and its audit.
    method ShutDown(o: Output) returns (r: Output, ghost stopped: bool, ghost audited: bool)
      requires Gated(trace) && Stops(trace) == 0
      modifies this`trace
      ensures trace == old(trace) + Closing(stopped, audited)
      ensures ListenerStopped(false) !in old(trace) ==> (ListenerStopped(false) in trace <==> !stopped)
      ensures forall e: Entry :: e.ListenerStarted? || e == ControllerStarted ==> (e in trace <==> e in old(trace))
      ensures Announced(old(trace)) ==> Announced(trace)
      ensures stopped ==> (Closed(trace) <==> audited)
      ensures Gated(trace) && Calls(trace) == Calls(old(trace)) && Stops(trace) == 1
      ensures forall id :: id != "GH-SVC-0003" ==> Attempts(trace, id) == Attempts(old(trace), id)
      ensures AllJournaled(trace) <==> AllJournaled(old(trace)) && (stopped ==> audited)
      ensures r == o.(status := if !stopped then ShutdownFailed else if !audited then AuditFailed else o.status)
    {
      hide Gated, Open, Stops, Calls, Attempts, AllJournaled;
      var closed: bool := *;
      stopped, audited := closed, true;
      Note(ListenerStopped(closed));
      if !closed { return o.(status := ShutdownFailed), closed, false; }
      var journaled := Append("GH-SVC-0003");
      audited := journaled;
      r := if journaled then o else o.(status := AuditFailed);
    }

    // The course of a run, entry by entry; admission ends early only with the error limit or with a refusal that could
    // not be journaled.
    ghost predicate RunCourse(stopRequested: bool, turns: seq<Admission>, f: Fortune)
      reads this
    {
      var calls := Calls(trace);
      && trace == Transcript(ValidConfig(config), stopRequested, calls, Repeated(calls), f)
      && (f.ready && |calls| < |turns| ==> Repeated(calls) || !f.limited)
      && (f.ready && !f.limited ==> JustLimited(calls))
    }

    // What a run comes to.
    ghost predicate RunOutcome(turns: seq<Admission>, o: Output)
      reads this
    {
      var calls := Calls(trace);
      && calls <= turns
      // recovery runs whatever else happens, and nothing is admitted before it, the listener's start and the
      // journaled readiness, nor after the listener's stop
      && ControllerStarted in trace && Gated(trace)
      && Tallies(o, calls)
      // the loop ends at the first run of consecutive errors that reaches the limit
      && BelowLimit(calls, |calls|)
      && Attempts(trace, "GH-SVC-2003") == (if Repeated(calls) then 1 else 0)
      && Attempts(trace, "GH-SVC-1003") == (if RateLimited in calls then 1 else 0)
      // the listener is stopped once if it was started, and not otherwise
      && Stops(trace) == (if ListenerStarted(true) in trace then 1 else 0)
      // readiness is announced once if the listener was started, and not otherwise
      && Attempts(trace, "GH-SVC-0002") == Stops(trace) && Announced(trace)
      && StatusFits(o.status, calls)
      && (o.status == InvalidConfiguration
          <==> !(10 <= config.acceptPollInterval <= 1000 && 1 <= config.sessionTimeout <= 60000
                 && 1 <= config.errorLimit <= 100))
    }

    lemma BelowLimitOfCalls(turns: seq<Admission>, n: nat)
      requires n <= |turns| && BelowLimit(turns, n)
      ensures BelowLimit(turns[..n], n) && BelowLimit([], 0)
    {
      assert forall m :: 0 <= m < n ==> turns[..n][..m] == turns[..m];
    }

    // Readiness could not be journaled: the listener is stopped without having admitted anyone.
    method StopUnready(ghost f0: Fortune, ghost turns: seq<Admission>) returns (o: Output, ghost f: Fortune)
      requires f0.announced && f0.listening
      requires trace == Recovery(true, f0) + Opening(f0) + [Journaled("GH-SVC-0002", false)]
      requires ValidConfig(config) && Gated(trace) && Calls(trace) == []
      requires ControllerStarted in trace && ListenerStarted(true) in trace && ListenerStarted(false) !in trace
      requires Stops(trace) == 0 && ListenerStopped(false) !in trace && !AllJournaled(trace)
      requires Attempts(trace, "GH-SVC-1003") == 0 && Attempts(trace, "GH-SVC-2003") == 0
      requires Attempts(trace, "GH-SVC-0002") == 1 && Announced(trace)
      modifies this`trace
      ensures RunOutcome(turns, o) && RunCourse(false, turns, f)
    {
      hide Gated, Open, Stops, Calls, Attempts, Tallies, TrailingErrors, AllJournaled, BelowLimit, Transcript;
      hide Recovery, Opening;
      o := Output(Stopped, 0, 0, 0, 0, 0);
      NoCalls(o);
      BelowLimitOfCalls([], 0);
      var stopped: bool := *;
      Note(ListenerStopped(stopped));
      StatusIsNotCounted(o, []);
      o := o.(status := if stopped then AuditFailed else ShutdownFailed);
      f := f0.(ready := false, closed := stopped);
      SameOpening(f, f0);
      CourseUnready(f);
    }

    lemma NoErrors()
      ensures TrailingErrors([]) == 0
    {}

    method AdmitAndStop(ghost f0: Fortune, turns: seq<Admission>) returns (o: Output, ghost f: Fortune)
      requires f0.announced && f0.listening && f0.ready
      requires trace == Recovery(true, f0) + Opening(f0) + [Journaled("GH-SVC-0002", true)]
      requires ValidConfig(config) && AllJournaled(trace) && Gated(trace) && Calls(trace) == [] && Open(trace)
      requires ControllerStarted in trace && ListenerStarted(true) in trace && ListenerStarted(false) !in trace
      requires Stops(trace) == 0 && ListenerStopped(false) !in trace
      requires Attempts(trace, "GH-SVC-1003") == 0 && Attempts(trace, "GH-SVC-2003") == 0
      requires Attempts(trace, "GH-SVC-0002") == 1 && Announced(trace)
      modifies this`trace
      ensures RunOutcome(turns, o) && RunCourse(false, turns, f)
    {
      hide Gated, Open, Stops, Calls, Attempts, Tallies, TrailingErrors, AllJournaled, BelowLimit, Transcript;
      hide Recovery, Opening, Admitting, Closing, Announced, Closed;
      ghost var n, start := 0, trace;
      ghost var limited, gaveUp;
      o, n, limited, gaveUp := Admit(turns);
      ghost var calls := turns[..n];
      SameMembers(start, trace);
      BelowLimitOfCalls(turns, n);
      NoErrors();
      StatusIsNotCounted(o, calls);
      ghost var stopped, audited;
      o, stopped, audited := ShutDown(o);
      f := f0.(limited := limited, gaveUp := gaveUp, closed := stopped, ended := audited);
      SameOpening(f, f0);
      CourseReady(f, calls, Repeated(calls));
    }

    // Readiness, admission and shutdown.
    method Listen(ghost f0: Fortune, turns: seq<Admission>) returns (o: Output, ghost f: Fortune)
      requires f0.announced && f0.listening && trace == Recovery(true, f0) + Opening(f0)
      requires ValidConfig(config) && AllJournaled(trace) && Gated(trace) && Calls(trace) == [] && Ready(trace)
      requires ControllerStarted in trace && ListenerStarted(true) in trace && ListenerStarted(false) !in trace
      requires Stops(trace) == 0 && ListenerStopped(false) !in trace
      requires Attempts(trace, "GH-SVC-1003") == 0 && Attempts(trace, "GH-SVC-2003") == 0
      requires Attempts(trace, "GH-SVC-0002") == 0 && Announced(trace)
      modifies this`trace
      ensures RunOutcome(turns, o) && RunCourse(false, turns, f)
    {
      hide Gated, Open, Stops, Calls, Attempts, Tallies, TrailingErrors, AllJournaled, Ready, BelowLimit, Recovery;
      hide Opening, RunCourse, RunOutcome;
      ReadyOpens(trace);
      var readinessAudited := Append("GH-SVC-0002");
      SameOpening(f0, f0.(ready := true));
      if readinessAudited {
        o, f := AdmitAndStop(f0.(ready := true), turns);
      } else {
        o, f := StopUnready(f0, turns);
      }
    }

    method RunOnce(stopRequested: bool, turns: seq<Admission>) returns (o: Output, ghost f: Fortune)
      requires trace == []
      modifies this`trace
      ensures RunOutcome(turns, o) && RunCourse(stopRequested, turns, f)
    {
      hide Gated, Open, Stops, Calls, Attempts, Tallies, TrailingErrors, AllJournaled, Ready, BelowLimit, Transcript;
      hide Recovery, Opening;
      BelowLimitOfCalls([], 0);
      var early;
      early, f := StartUp(stopRequested);
      if early.Some? {
        o := Output(Stopped, 0, 0, 0, 0, 0);
        NoCalls(o);
        StatusIsNotCounted(o, []);
        return o.(status := early.value), f;
      }
      o, f := Listen(f, turns);
    }

    /**
     A service that announced its readiness and could journal a refusal of the rate limiter serves every connection
     until the stop is requested, unless so many errors in a row as the configuration allows end it.
     */
    lemma EveryTurnIsServed(stopRequested: bool, turns: seq<Admission>, o: Output, f: Fortune)
      requires RunOutcome(turns, o) && RunCourse(stopRequested, turns, f)
      requires Journaled("GH-SVC-0002", true) in trace && Journaled("GH-SVC-1003", false) !in trace
      requires forall m :: 0 <= m <= |turns| ==> TrailingErrors(turns[..m]) < config.errorLimit
      ensures Calls(trace) == turns
    {
      hide Calls, Gated, Tallies, TrailingErrors, Recovery, Listening, BelowLimit, StatusFits, Stops, Attempts;
      var calls := Calls(trace);
      var valid, repeated := ValidConfig(config), Repeated(calls);
      assert calls == turns[..|calls|];
      NotYetReady(valid, f);
      ListeningTells(calls, repeated, f);
      assert !repeated;
      assert forall e :: e in Listening(calls, repeated, f) && f.listening && valid && f.announced && !stopRequested
                         ==> e in trace;
    }

    /** One run of the service; a second one at the same time does nothing. */
    method Run(stopRequested: bool, turns: seq<Admission>) returns (o: Output, ghost f: Fortune)
      modifies this
      ensures running == old(running)
      ensures old(running) ==> o.status == AlreadyRunning && trace == old(trace)
      ensures !old(running) ==> RunOutcome(turns, o) && RunCourse(stopRequested, turns, f)
    {
      if running {
        return Output(AlreadyRunning, 0, 0, 0, 0, 0),
               Fortune(false, false, false, false, false, false, false, false, false);
      }
      running := true;
      trace := [];
      o, f := RunOnce(stopRequested, turns);
      running := false;
    }
  }
}
