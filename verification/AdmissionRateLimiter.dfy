/**
 The sliding-window admission limiter: a vector of recent admissions, erased from the front, against a specification
 over the whole call history since the last reset.

 Times are clock ticks, configured durations are milliseconds.
 */
module AdmissionRateLimiter {
  import opened Basics

  // The steady clock counts nanoseconds.
  const TICKS_PER_MILLISECOND := 1_000_000
  const MAXIMUM_ADMISSION_LIMIT := 1024
  const MINIMUM_WINDOW := 100
  const MAXIMUM_WINDOW := 3_600_000

  datatype RateConfig = RateConfig(maximumAdmissions: nat, window: int)

  predicate ValidConfig(c: RateConfig) {
    0 < c.maximumAdmissions <= MAXIMUM_ADMISSION_LIMIT && MINIMUM_WINDOW <= c.window <= MAXIMUM_WINDOW
  }

  function Window(c: RateConfig): int { c.window * TICKS_PER_MILLISECOND }

  // ---------- specification ----------

  datatype Call = Call(now: int, admitted: bool)

  // The latest time seen; a call before it is a clock regression and is not seen.
  function LastObserved(h: seq<Call>): Option<int> {
    if h == [] then None
    else
      var before := LastObserved(h[..|h| - 1]);
      var now := h[|h| - 1].now;
      if before.Some? && now < before.value then before else Some(now)
  }

  function Admissions(h: seq<Call>): seq<int> {
    if h == [] then []
    else Admissions(h[..|h| - 1]) + if h[|h| - 1].admitted then [h[|h| - 1].now] else []
  }

  // How many of the times are younger than the window.
  function ActiveCount(times: seq<int>, now: int, window: int): nat {
    if times == [] then 0
    else ActiveCount(times[..|times| - 1], now, window) + if now - times[|times| - 1] < window then 1 else 0
  }

  predicate Regresses(h: seq<Call>, now: int) { LastObserved(h).Some? && now < LastObserved(h).value }

  predicate MayAdmit(c: RateConfig, h: seq<Call>, now: int) {
    !Regresses(h, now) && ActiveCount(Admissions(h), now, Window(c)) < c.maximumAdmissions
  }

  // Every decision in the history is the specified one.
  ghost predicate Faithful(c: RateConfig, h: seq<Call>) {
    forall i :: 0 <= i < |h| ==> (h[i].admitted <==> MayAdmit(c, h[..i], h[i].now))
  }

  // The index of the first active time, if any.
  function FirstActive(times: seq<int>, now: int, window: int): (k: nat)
    ensures k <= |times|
    ensures forall i :: 0 <= i < k ==> now - times[i] >= window
    ensures k < |times| ==> now - times[k] < window
  {
    if times == [] then 0
    else
      var k := FirstActive(times[..|times| - 1], now, window);
      if k < |times| - 1 || now - times[|times| - 1] < window then k else |times|
  }

  // Ticks until the oldest active admission leaves the window.
  function Remaining(c: RateConfig, h: seq<Call>, now: int): int {
    var a := Admissions(h);
    var k := FirstActive(a, now, Window(c));
    if k < |a| then Window(c) - (now - a[k]) else 0
  }

  function CeilMilliseconds(ticks: int): int {
    if ticks % TICKS_PER_MILLISECOND == 0 then ticks / TICKS_PER_MILLISECOND else ticks / TICKS_PER_MILLISECOND + 1
  }

  // ---------- properties of the specification ----------

  ghost predicate Sorted(s: seq<int>) { forall i, j :: 0 <= i < j < |s| ==> s[i] <= s[j] }

  lemma FaithfulPrefix(c: RateConfig, h: seq<Call>)
    requires Faithful(c, h) && h != []
    ensures Faithful(c, h[..|h| - 1])
  {
    var p := h[..|h| - 1];
    forall i | 0 <= i < |p| ensures p[i].admitted <==> MayAdmit(c, p[..i], p[i].now) {
      assert p[..i] == h[..i];
    }
  }

  lemma {:induction false} HistoryIsSorted(c: RateConfig, h: seq<Call>)
    requires Faithful(c, h)
    ensures Sorted(Admissions(h))
    ensures |Admissions(h)| > 0 ==> LastObserved(h).Some?
    ensures forall i :: 0 <= i < |Admissions(h)| ==> Admissions(h)[i] <= LastObserved(h).value
    decreases |h|
  {
    if h == [] {
    } else {
      FaithfulPrefix(c, h);
      HistoryIsSorted(c, h[..|h| - 1]);
    }
  }

  // The admissions in the half-open interval of window length that starts at t.
  function CountFrom(times: seq<int>, t: int, window: int): nat {
    if times == [] then 0
    else
      CountFrom(times[..|times| - 1], t, window) + if t <= times[|times| - 1] < t + window then 1 else 0
  }

  lemma {:induction false} CountFromIsActive(times: seq<int>, t: int, window: int, now: int)
    requires t <= now < t + window
    ensures CountFrom(times, t, window) <= ActiveCount(times, now, window)
    decreases |times|
  {
    if times == [] {
    } else {
      CountFromIsActive(times[..|times| - 1], t, window, now);
    }
  }

  /** No window of the configured length ever contains more than the configured number of admissions. */
  lemma {:induction false} WindowBound(c: RateConfig, h: seq<Call>, t: int)
    requires Faithful(c, h)
    ensures CountFrom(Admissions(h), t, Window(c)) <= c.maximumAdmissions
    decreases |h|
  {
    if h == [] {
    } else {
      var n := |h| - 1;
      var now := h[n].now;
      FaithfulPrefix(c, h);
      WindowBound(c, h[..n], t);
      if h[n].admitted {
        assert Admissions(h)[..|Admissions(h)| - 1] == Admissions(h[..n]);
        if t <= now < t + Window(c) {
          CountFromIsActive(Admissions(h[..n]), t, Window(c), now);
        }
      } else {
        assert Admissions(h) == Admissions(h[..n]);
      }
    }
  }

  lemma {:induction false} ActiveIsCountFrom(times: seq<int>, now: int, window: int)
    requires forall i :: 0 <= i < |times| ==> times[i] <= now
    ensures ActiveCount(times, now, window) == CountFrom(times, now - window + 1, window)
    decreases |times|
  {
    if times == [] {
    } else {
      ActiveIsCountFrom(times[..|times| - 1], now, window);
    }
  }

  // A sorted history has its active times at the end.
  lemma {:induction false} ActiveSuffix(times: seq<int>, k: nat, now: int, window: int)
    requires k <= |times| && Sorted(times)
    requires forall i :: 0 <= i < k ==> now - times[i] >= window
    requires k < |times| ==> now - times[k] < window
    ensures ActiveCount(times, now, window) == |times| - k
    decreases |times|
  {
    if times == [] {
    } else {
      var n := |times| - 1;
      if k <= n {
        assert times[k] <= times[n];
        ActiveSuffix(times[..n], k, now, window);
      } else {
        ActiveSuffix(times[..n], n, now, window);
      }
    }
  }

  /** A denied call consumes no capacity: what may be admitted later does not change, except that the clock has been
      seen at a capacity denial. */
  lemma DenialsAreFree(c: RateConfig, h: seq<Call>, now: int, later: int)
    requires Regresses(h, now) || now <= later
    ensures MayAdmit(c, h + [Call(now, false)], later) <==> MayAdmit(c, h, later)
  {
    var h2 := h + [Call(now, false)];
    assert h2[..|h2| - 1] == h;
    assert Admissions(h2) == Admissions(h);
  }

  lemma {:induction false} LastIsLatest(h: seq<Call>)
    ensures h == [] ==> LastObserved(h).None?
    ensures h != [] ==> LastObserved(h).Some? && exists i :: 0 <= i < |h| && h[i].now == LastObserved(h).value
    ensures forall i :: 0 <= i < |h| ==> LastObserved(h).Some? && h[i].now <= LastObserved(h).value
    decreases |h|
  {
    if h == [] {
    } else {
      var n := |h| - 1;
      LastIsLatest(h[..n]);
      assert forall i :: 0 <= i < n ==> h[i] == h[..n][i];
      if n > 0 {
        var i :| 0 <= i < n && h[..n][i].now == LastObserved(h[..n]).value;
        assert h[i].now == LastObserved(h[..n]).value;
      }
      assert h[n].now == LastObserved(h).value || LastObserved(h) == LastObserved(h[..n]);
    }
  }

  // The calls admitted less than a window before.
  ghost function Recent(c: RateConfig, h: seq<Call>, now: int): set<nat> {
    set i: nat | i < |h| && h[i].admitted && now - h[i].now < c.window * 1_000_000
  }

  lemma RecentStep(c: RateConfig, h: seq<Call>, now: int)
    requires h != []
    ensures var n := |h| - 1;
            && n !in Recent(c, h[..n], now)
            && Recent(c, h, now) == Recent(c, h[..n], now)
                                    + if h[n].admitted && now - h[n].now < c.window * 1_000_000 then {n} else {}
  {
    assert forall i :: 0 <= i < |h| - 1 ==> h[i] == h[..|h| - 1][i];
  }

  lemma AdmissionsStep(h: seq<Call>)
    requires h != []
    ensures var n := |h| - 1;
            Admissions(h) == Admissions(h[..n]) + if h[n].admitted then [h[n].now] else []
  {}

  lemma ActiveStep(times: seq<int>, t: int, now: int, window: int)
    ensures ActiveCount(times + [t], now, window) == ActiveCount(times, now, window) + if now - t < window then 1 else 0
  {
    assert (times + [t])[..|times|] == times;
  }

  lemma {:induction false} RecentAreActive(c: RateConfig, h: seq<Call>, now: int)
    ensures |Recent(c, h, now)| == ActiveCount(Admissions(h), now, Window(c))
    decreases |h|
  {
    if h == [] {
      assert Recent(c, h, now) == {};
    } else {
      hide Recent, Admissions, ActiveCount;
      var n := |h| - 1;
      RecentAreActive(c, h[..n], now);
      RecentStep(c, h, now);
      AdmissionsStep(h);
      ActiveStep(Admissions(h[..n]), h[n].now, now, Window(c));
      assert Admissions(h[..n]) + [] == Admissions(h[..n]);
    }
  }

  /** A call may be admitted exactly if no earlier call came at a later time and fewer than the configured number were
      admitted less than a window before. */
  lemma AdmissionRule(c: RateConfig, h: seq<Call>, now: int)
    ensures MayAdmit(c, h, now) <==>
              (forall i :: 0 <= i < |h| ==> h[i].now <= now) && |Recent(c, h, now)| < c.maximumAdmissions
  {
    hide ActiveCount, Admissions, LastObserved;
    LastIsLatest(h);
    RecentAreActive(c, h, now);
  }

  // ---------- the retry hint ----------

  // A denial for lack of capacity, not for a regressing clock.
  predicate CapacityDenied(c: RateConfig, h: seq<Call>, now: int) { !Regresses(h, now) && !MayAdmit(c, h, now) }

  /** The hint is the least whole number of milliseconds that covers the remaining ticks. */
  lemma CeilIsLeast(ticks: int, ms: int)
    ensures ms * TICKS_PER_MILLISECOND >= ticks <==> ms >= CeilMilliseconds(ticks)
  {
    var t := TICKS_PER_MILLISECOND;
    assert ticks == ticks / t * t + ticks % t;
  }

  // At a capacity denial the window is exactly full.
  lemma FullAtDenial(c: RateConfig, h: seq<Call>, now: int)
    requires ValidConfig(c) && Faithful(c, h) && CapacityDenied(c, h, now)
    ensures var a := Admissions(h); var k := FirstActive(a, now, Window(c));
            && ActiveCount(a, now, Window(c)) == c.maximumAdmissions == |a| - k
            && Sorted(a) && (forall i :: 0 <= i < |a| ==> a[i] <= now)
            && 0 < Remaining(c, h, now) <= Window(c)
  {
    var a := Admissions(h);
    HistoryIsSorted(c, h);
    WindowBound(c, h, now - Window(c) + 1);
    ActiveIsCountFrom(a, now, Window(c));
    ActiveSuffix(a, FirstActive(a, now, Window(c)), now, Window(c));
  }

  // Until the oldest active admission expires the window stays full.
  lemma StaysFull(c: RateConfig, h: seq<Call>, now: int, t: int)
    requires ValidConfig(c) && Faithful(c, h) && CapacityDenied(c, h, now)
    requires now <= t < now + Remaining(c, h, now)
    ensures ActiveCount(Admissions(h), t, Window(c)) == c.maximumAdmissions
  {
    FullAtDenial(c, h, now);
    ActiveSuffix(Admissions(h), FirstActive(Admissions(h), now, Window(c)), t, Window(c));
  }

  /** Every call before the remaining time has passed is denied, however many there are. */
  lemma {:induction false} DeniedUntilRetry(c: RateConfig, h: seq<Call>, now: int, more: seq<Call>)
    requires ValidConfig(c) && Faithful(c, h) && CapacityDenied(c, h, now)
    requires Faithful(c, h + [Call(now, false)] + more)
    requires forall i :: 0 <= i < |more| ==> more[i].now < now + Remaining(c, h, now)
    ensures forall i :: 0 <= i < |more| ==> !more[i].admitted
    ensures Admissions(h + [Call(now, false)] + more) == Admissions(h)
    ensures LastObserved(h + [Call(now, false)] + more).Some?
    ensures now <= LastObserved(h + [Call(now, false)] + more).value < now + Remaining(c, h, now)
    decreases |more|
  {
    hide ActiveCount, FirstActive;
    var all := h + [Call(now, false)] + more;
    assert (h + [Call(now, false)])[..|h|] == h;
    FullAtDenial(c, h, now);
    if more == [] {
      assert all == h + [Call(now, false)];
    } else {
      var n := |more| - 1;
      assert all[..|all| - 1] == h + [Call(now, false)] + more[..n];
      FaithfulPrefix(c, all);
      DeniedUntilRetry(c, h, now, more[..n]);
      var t := more[n].now;
      assert all[|all| - 1] == more[n];
      if !Regresses(all[..|all| - 1], t) {
        StaysFull(c, h, now, t);
      }
    }
  }

  /** A call at the hinted time is admitted when nothing was admitted in between. */
  lemma AdmittedAtRetry(c: RateConfig, h: seq<Call>, now: int, more: seq<Call>, t: int)
    requires ValidConfig(c) && Faithful(c, h) && CapacityDenied(c, h, now)
    requires Faithful(c, h + [Call(now, false)] + more)
    requires forall i :: 0 <= i < |more| ==> more[i].now < now + Remaining(c, h, now)
    requires t >= now + CeilMilliseconds(Remaining(c, h, now)) * TICKS_PER_MILLISECOND
    ensures MayAdmit(c, h + [Call(now, false)] + more, t)
  {
    var a := Admissions(h);
    var r := Remaining(c, h, now);
    FullAtDenial(c, h, now);
    CeilIsLeast(r, CeilMilliseconds(r));
    DeniedUntilRetry(c, h, now, more);
    var k := FirstActive(a, t, Window(c));
    ActiveSuffix(a, k, t, Window(c));
    assert k > FirstActive(a, now, Window(c));
  }

  // `s` are the admissions that are active at `now`.
  ghost predicate Survivors(c: RateConfig, h: seq<Call>, s: seq<int>, now: int) {
    var a := Admissions(h);
    s == a[FirstActive(a, now, Window(c))..] && ActiveCount(a, now, Window(c)) == |s|
  }

  lemma FirstActiveIsUnique(times: seq<int>, k: nat, now: int, window: int)
    requires k <= |times|
    requires forall i :: 0 <= i < k ==> now - times[i] >= window
    requires k < |times| ==> now - times[k] < window
    ensures FirstActive(times, now, window) == k
  {}

  // Erasing the expired front of the vector leaves the active admissions.
  lemma ErasedSuffix(a: seq<int>, vector: seq<int>, last: int, k: nat, now: int, window: int)
    requires Sorted(a) && |vector| <= |a| && vector == a[|a| - |vector|..]
    requires forall i :: 0 <= i < |a| - |vector| ==> last - a[i] >= window
    requires |vector| < |a| ==> last <= now
    requires k <= |vector| && forall i :: 0 <= i < k ==> now - vector[i] >= window
    requires k < |vector| ==> now - vector[k] < window
    ensures vector[k..] == a[FirstActive(a, now, window)..]
    ensures ActiveCount(a, now, window) == |vector| - k
  {
    var m := |a| - |vector| + k;
    forall i | 0 <= i < m ensures now - a[i] >= window {
      if i >= |a| - |vector| { assert a[i] == vector[i - (|a| - |vector|)]; }
    }
    assert k < |vector| ==> a[m] == vector[k];
    ActiveSuffix(a, m, now, window);
    FirstActiveIsUnique(a, m, now, window);
  }

  // ---------- the implementation ----------

  class Limiter {
    const config: RateConfig
    var admissions: seq<int>
    var lastObservation: int
    var hasObservation: bool
    ghost var history: seq<Call>

    // The vector holds the end of all admissions since reset; what is missing has expired.
    ghost predicate Valid()
      reads this
    {
      var a := Admissions(history);
      && Faithful(config, history)
      && (hasObservation <==> LastObserved(history).Some?)
      && (hasObservation ==> lastObservation == LastObserved(history).value)
      && |admissions| <= |a| && admissions == a[|a| - |admissions|..]
      && forall i :: 0 <= i < |a| - |admissions| ==> lastObservation - a[i] >= Window(config)
    }

    constructor (config: RateConfig)
      ensures Valid() && history == [] && this.config == config
    {
      this.config := config;
      admissions, lastObservation, hasObservation := [], 0, false;
      history := [];
    }

    method FindFirstActive(now: int) returns (k: nat)
      ensures k <= |admissions|
      ensures forall i :: 0 <= i < k ==> now - admissions[i] >= Window(config)
      ensures k < |admissions| ==> now - admissions[k] < Window(config)
    {
      k := 0;
      while k < |admissions| && now - admissions[k] >= Window(config)
        invariant k <= |admissions|
        invariant forall i :: 0 <= i < k ==> now - admissions[i] >= Window(config)
      {
        k := k + 1;
      }
    }

    lemma SuffixSurvives(k: nat, now: int)
      requires Valid() && (hasObservation ==> lastObservation <= now)
      requires k <= |admissions|
      requires forall i :: 0 <= i < k ==> now - admissions[i] >= Window(config)
      requires k < |admissions| ==> now - admissions[k] < Window(config)
      ensures Survivors(config, history, admissions[k..], now)
    {
      HistoryIsSorted(config, history);
      ErasedSuffix(Admissions(history), admissions, lastObservation, k, now, Window(config));
    }

    // Drops the admissions that have left the window.
    method EraseExpired(now: int)
      requires Valid() && (hasObservation ==> lastObservation <= now)
      modifies this`admissions
      ensures Survivors(config, history, admissions, now)
    {
      hide Faithful, Survivors;
      var firstActive := FindFirstActive(now);
      SuffixSurvives(firstActive, now);
      admissions := admissions[firstActive..];
    }

    static method RoundUp(remaining: int) returns (milliseconds: int)
      ensures milliseconds == CeilMilliseconds(remaining)
    {
      milliseconds := remaining / TICKS_PER_MILLISECOND;
      if milliseconds * TICKS_PER_MILLISECOND < remaining {
        milliseconds := milliseconds + 1;
      }
    }

    ghost method Note(now: int, admitted: bool)
      requires Faithful(config, history)
      requires admitted <==> MayAdmit(config, history, now)
      modifies this`history
      ensures history == old(history) + [Call(now, admitted)] && Faithful(config, history)
      ensures Admissions(history) == Admissions(old(history)) + if admitted then [now] else []
      ensures LastObserved(history)
           == if Regresses(old(history), now) then LastObserved(old(history)) else Some(now)
    {
      ghost var h := history + [Call(now, admitted)];
      assert h[..|h| - 1] == history;
      forall i | 0 <= i < |h| ensures h[i].admitted <==> MayAdmit(config, h[..i], h[i].now) {
        if i < |history| { assert h[..i] == history[..i]; }
      }
      history := h;
    }

    // The decision once expired admissions are gone.
    method Decide(now: int) returns (admitted: bool, retryAfter: int)
      requires ValidConfig(config) && Faithful(config, history) && !Regresses(history, now)
      requires Survivors(config, history, admissions, now)
      modifies this
      ensures Valid() && history == old(history) + [Call(now, admitted)]
      ensures admitted <==> MayAdmit(config, old(history), now)
      ensures retryAfter == if admitted then 0 else CeilMilliseconds(Remaining(config, old(history), now))
    {
      hide Faithful, Admissions, ActiveCount, FirstActive, LastObserved, CeilMilliseconds;
      lastObservation, hasObservation := now, true;
      if |admissions| >= config.maximumAdmissions {
        retryAfter := RoundUp(Window(config) - (now - admissions[0]));
        Note(now, false);
        return false, retryAfter;
      }
      admissions := admissions + [now];
      Note(now, true);
      return true, 0;
    }

    /** Admits exactly what the full history allows, and at a capacity denial hints the exact wait. */
    method TryAdmit(now: int) returns (admitted: bool, retryAfter: int)
      requires Valid()
      modifies this
      ensures Valid()
      ensures ValidConfig(config) <==> 1 <= config.maximumAdmissions <= 1024 && 100 <= config.window <= 3600000
      ensures !ValidConfig(config) ==> !admitted && retryAfter == config.window && unchanged(this)
      ensures ValidConfig(config) ==>
                && history == old(history) + [Call(now, admitted)]
                && (admitted <==> MayAdmit(config, old(history), now))
                && retryAfter == (if admitted then 0
                                  else if Regresses(old(history), now) then config.window
                                  else CeilMilliseconds(Remaining(config, old(history), now)))
    {
      hide Faithful, Admissions, ActiveCount, FirstActive, LastObserved, CeilMilliseconds;
      if !ValidConfig(config) {
        return false, config.window;
      }
      if hasObservation && now < lastObservation {
        Note(now, false);
        return false, config.window;
      }
      EraseExpired(now);
      admitted, retryAfter := Decide(now);
    }

    method Reset()
      modifies this
      ensures Valid() && history == []
    {
      admissions, lastObservation, hasObservation := [], 0, false;
      history := [];
    }
  }
}
