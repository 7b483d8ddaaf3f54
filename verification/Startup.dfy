/**
 The mandatory order of a server start, and what the admission pause inside it
 protects: the commit head that was verified is still the head when the gate opens.
 */
module Startup {
  import opened Common
  import W = SubmissionProtocol

  datatype Phase =
    | StartTTSGated
    | PreflightMandatory
    | TerminalizeRunning
    | ScanIntegrity
    | TerminalizeMandatory
    | RescanIntegrity
    | PreflightEligibility
    | PauseAdmissions
    | PreflightContentRefs
    | PreflightProjection
    | EvaluateFinalReadiness
    | BindHTTP
    | StartProjection
    | WaitProjectionReady
    | StartWorkersGated
    | StartHTTPGated
    | RequireCanonicalHead
    | ResumeAdmissions
    | OpenGate

  const OPENING: seq<Phase> := [StartTTSGated, PreflightMandatory, TerminalizeRunning]

  const RECOVERY: seq<Phase> := [ScanIntegrity, TerminalizeMandatory]

  const CLOSING: seq<Phase> :=
    [PreflightEligibility, PauseAdmissions, PreflightContentRefs, PreflightProjection, EvaluateFinalReadiness, BindHTTP,
     StartProjection, WaitProjectionReady, StartWorkersGated, StartHTTPGated, RequireCanonicalHead, ResumeAdmissions, OpenGate]

  /** The second integrity scan runs only when mandatory recovery left something unresolved. */
  function Plan(unresolved: bool): seq<Phase> {
    OPENING + RECOVERY + (if unresolved then [RescanIntegrity] else []) + CLOSING
  }

  /** How the operation of a phase ends; a missing operation counts as a failure without running. */
  datatype Ends = Missing | Fails | Succeeds

  /** `calls` are the operations that ran; `failed` is what FailGate was told. */
  datatype Start = Start(calls: seq<Phase>, failed: Option<Phase>)

  /** The phases of `plan` before the first one that does not succeed. */
  function Clear(plan: seq<Phase>, ends: Phase -> Ends): nat {
    if plan == [] || ends(plan[0]) != Succeeds then 0 else 1 + Clear(plan[1..], ends)
  }

  /** A start is decided by the first phase that does not succeed. */
  ghost predicate Outcome(plan: seq<Phase>, ends: Phase -> Ends, r: Start) {
    var n := Clear(plan, ends);
    if n < |plan| then
      && r.failed == Some(plan[n])
      && r.calls == if ends(plan[n]) == Fails then plan[..n + 1] else plan[..n]
    else r == Start(plan, None)
  }

  lemma {:induction false} ClearBound(plan: seq<Phase>, ends: Phase -> Ends)
    ensures Clear(plan, ends) <= |plan|
    ensures forall k :: 0 <= k < Clear(plan, ends) ==> ends(plan[k]) == Succeeds
    ensures Clear(plan, ends) < |plan| ==> ends(plan[Clear(plan, ends)]) != Succeeds
  {
    if plan != [] && ends(plan[0]) == Succeeds {
      ClearBound(plan[1..], ends);
    }
  }

  lemma {:induction false} ClearJoin(left: seq<Phase>, right: seq<Phase>, ends: Phase -> Ends)
    ensures Clear(left + right, ends) == if Clear(left, ends) < |left| then Clear(left, ends) else |left| + Clear(right, ends)
  {
    ClearBound(left, ends);
    if left == [] {
      assert left + right == right;
    } else {
      assert (left + right)[1..] == left[1..] + right;
      ClearJoin(left[1..], right, ends);
      ClearBound(left[1..], ends);
    }
  }

  /** One loop over named phases; stops at the first phase that does not succeed. */
  method RunPhases(phases: seq<Phase>, ends: Phase -> Ends) returns (r: Start)
    ensures Outcome(phases, ends, r)
  {
    var i := 0;
    while i < |phases|
      invariant 0 <= i <= |phases|
      invariant Clear(phases, ends) == i + Clear(phases[i..], ends)
    {
      match ends(phases[i]) {
        case Missing => return Start(phases[..i], Some(phases[i]));
        case Fails => return Start(phases[..i + 1], Some(phases[i]));
        case Succeeds =>
      }
      assert phases[i..][1..] == phases[i + 1..];
      i := i + 1;
    }
    return Start(phases, None);
  }

  lemma OutcomeJoin(left: seq<Phase>, right: seq<Phase>, ends: Phase -> Ends, a: Start, b: Start)
    requires Outcome(left, ends, a) && Outcome(right, ends, b)
    ensures Outcome(left + right, ends, if a.failed.Some? then a else Start(left + b.calls, b.failed))
  {
    ClearJoin(left, right, ends);
    ClearBound(left, ends);
    ClearBound(right, ends);
    var n := Clear(left + right, ends);
    if n < |left| {
      assert (left + right)[..n] == left[..n] && (left + right)[..n + 1] == left[..n + 1];
    } else if n < |left| + |right| {
      assert (left + right)[..n] == left + right[..n - |left|];
      assert (left + right)[..n + 1] == left + right[..n + 1 - |left|];
    }
  }

  /** `runServeStartupSequence`: phases run in the planned order and the first failure ends the start. */
  method RunServeStartupSequence(ends: Phase -> Ends, unresolved: bool) returns (r: Start)
    ensures Outcome(Plan(unresolved), ends, r)
    ensures OpenGate in r.calls ==> forall p :: p in Plan(unresolved) && p != OpenGate ==> ends(p) == Succeeds && p in r.calls
    ensures r.failed.None? <==> forall p :: p in Plan(unresolved) ==> ends(p) == Succeeds
  {
    hide Outcome, Clear;
    var opening := OPENING + RECOVERY;
    var middle: seq<Phase> := if unresolved then [RescanIntegrity] else [];
    r := RunPhases(opening, ends);
    if r.failed.None? {
      var again := RunPhases(middle, ends);
      OutcomeJoin(opening, middle, ends, r, again);
      r := Start(opening + again.calls, again.failed);
      if r.failed.None? {
        var closing := RunPhases(CLOSING, ends);
        OutcomeJoin(opening + middle, CLOSING, ends, r, closing);
        r := Start(opening + middle + closing.calls, closing.failed);
      } else {
        OutcomeEarly(opening + middle, CLOSING, ends, r);
      }
    } else {
      OutcomeEarly(opening, middle + CLOSING, ends, r);
      assert opening + (middle + CLOSING) == Plan(unresolved);
    }
    GateOpensLast(Plan(unresolved), ends, r);
  }

  lemma OutcomeEarly(left: seq<Phase>, right: seq<Phase>, ends: Phase -> Ends, a: Start)
    requires Outcome(left, ends, a) && a.failed.Some?
    ensures Outcome(left + right, ends, a)
  {
    ClearJoin(left, right, ends);
    ClearBound(left, ends);
    var n := Clear(left, ends);
    assert (left + right)[..n] == left[..n] && (left + right)[..n + 1] == left[..n + 1];
  }

  lemma GateOpensLast(plan: seq<Phase>, ends: Phase -> Ends, r: Start)
    requires Outcome(plan, ends, r) && plan != [] && plan[|plan| - 1] == OpenGate
    requires forall k :: 0 <= k < |plan| - 1 ==> plan[k] != OpenGate
    ensures OpenGate in r.calls ==> forall p :: p in plan && p != OpenGate ==> ends(p) == Succeeds && p in r.calls
    ensures r.failed.None? <==> forall p :: p in plan ==> ends(p) == Succeeds
  {
    ClearBound(plan, ends);
    if OpenGate in r.calls {
      assert |r.calls| == |plan| && r.calls == plan;
    }
    if Clear(plan, ends) == |plan| {
      forall p | p in plan
        ensures ends(p) == Succeeds
      {
        var k :| 0 <= k < |plan| && plan[k] == p;
      }
    }
  }

  // ------------------------------------------- composed with the Writer

  /** No request is submitted, as while every producer waits at the start gate. */
  ghost predicate Gated(run: seq<W.Action>) {
    forall a :: a in run ==> !(a.Client? && a.client.Begin?)
  }

  lemma {:induction false} HeadFixedWhileGated(s: W.Sys, run: seq<W.Action>, t: W.Sys)
    requires W.Inv(s) && s.gate.active == 0 && W.Reaches(s, run, t) && Gated(run)
    ensures t.gate.active == 0 && t.core == s.core
    decreases |run|
  {
    if run != [] {
      assert run[0] in run && forall a :: a in run[1..] ==> a in run;
      W.StepKeepsIdle(s, run[0]);
      W.StepKeepsInv(s, run[0]);
      hide W.Inv, W.Enabled, W.Apply;
      HeadFixedWhileGated(W.Apply(s, run[0]), run[1..], t);
    }
  }

  /**
   Admission paused at `paused`, the head verified at `verified`, admission
   resumed, the gate opened at `atOpening` with every producer gated until then: the
   verified head is the head at the opening, and admission is open with nothing live.
   Only the start sequence resumes, and other callers may submit, pause or close at will before it does.
   */
  lemma VerifiedHeadIsTheHead(paused: W.Sys, run1: seq<W.Action>, verified: W.Sys, run2: seq<W.Action>, before: W.Sys,
                              run3: seq<W.Action>, atOpening: W.Sys)
    requires W.Reachable(paused) && W.Quiet(paused)
    requires W.Reaches(paused, run1, verified) && W.Control(W.Resume) !in run1
    requires W.Reaches(verified, run2, before) && W.Control(W.Resume) !in run2
    requires W.Reaches(W.ApplyControl(before, W.Resume), run3, atOpening) && Gated(run3)
    ensures W.ApplyControl(before, W.Resume).gate.open
    ensures atOpening.core == verified.core && atOpening.gate.active == 0
  {
    hide W.Inv, W.Reachable, W.Reaches;
    W.ReachableInv(paused);
    W.RunKeepsInv(paused, run1, verified);
    W.HeadFixedWhilePaused(paused, run1, verified);
    W.RunKeepsInv(verified, run2, before);
    W.HeadFixedWhilePaused(verified, run2, before);
    W.StepKeepsInv(before, W.Control(W.Resume));
    HeadFixedWhileGated(W.ApplyControl(before, W.Resume), run3, atOpening);
  }
}
