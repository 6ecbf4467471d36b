/**
 The way back to a revision, effect by effect: revalidate it, load it, point the marker at it, clear the record, each
 call followed by its report.
 */
module Restoration {
  import opened ActivationProtocol

  // The effect with its audit outcome and its hidden part left out.
  function Plain(e: Effect): Effect {
    match e
    case Append(event, _) => Append(event, true)
    case Begin(p, status, _) => Begin(p, status, status == Created)
    case Advance(op, next, ok, _) => Advance(op, next, ok, ok)
    case Mark(rev, ok, _) => Mark(rev, ok, ok)
    case Clear(op, ok, _) => Clear(op, ok, ok)
    case _ => e
  }

  function Plains(trace: seq<Effect>): seq<Effect>
    decreases |trace|
  {
    if trace == [] then [] else Plains(trace[..|trace| - 1]) + [Plain(trace[|trace| - 1])]
  }

  function Event(event: Audit): Effect { Append(event, true) }

  // The four calls, in order.
  function WayCall(op: string, rev: nat, i: nat, ok: bool): Effect
    requires i < 4
  {
    if i == 0 then Validate(rev, ok)
    else if i == 1 then LoadPf(rev, ok)
    else if i == 2 then Mark(rev, ok, ok)
    else Clear(op, ok, ok)
  }

  function WayReport(rev: nat, i: nat, ok: bool): Effect
    requires i < 4
  {
    Event(if i == 0 then ValidationFinished(rev, ok)
          else if i == 1 then LoadFinished(rev, ok)
          else if i == 2 then MarkFinished(rev, ok)
          else ClearFinished(ok))
  }

  // The first n calls, all successful, with their reports.
  function Rounds(op: string, rev: nat, n: nat): seq<Effect>
    requires n <= 4
  {
    if n == 0 then [] else Rounds(op, rev, n - 1) + [WayCall(op, rev, n - 1, true), WayReport(rev, n - 1, true)]
  }

  // The way back of which n calls succeed: it stops at the first that fails.
  function WayBackTrace(op: string, rev: nat, n: nat): seq<Effect>
    requires n <= 4
  {
    Rounds(op, rev, n) + if n == 4 then [] else [WayCall(op, rev, n, false), WayReport(rev, n, false)]
  }

  lemma OneRound(op: string, rev: nat, n: nat)
    requires n < 4
    ensures Rounds(op, rev, n + 1) == Rounds(op, rev, n) + [WayCall(op, rev, n, true)] + [WayReport(rev, n, true)]
    ensures WayBackTrace(op, rev, n) == Rounds(op, rev, n) + [WayCall(op, rev, n, false)] + [WayReport(rev, n, false)]
  {}

  lemma NoRounds(op: string, rev: nat)
    ensures Rounds(op, rev, 0) == []
  {}

  lemma AllRounds(op: string, rev: nat)
    ensures WayBackTrace(op, rev, 4) == Rounds(op, rev, 4)
  {}
}
