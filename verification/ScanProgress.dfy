/**
 Scan cycles cannot be starved. Both cycles keep one ceiling, so new commits do
 not lengthen them: while discovery finds no more work, a cycle ends after a
 bounded number of passes, whatever ingress, commits and Admin requests come in
 between.
 */
module ScanProgress {
  import opened Common
  import opened MemoryScan
  import opened ScanProtocol

  datatype Queue = Normal | Reextraction

  /** What the bookkeeping of one cycle consists of. */
  datatype Cycle = Cycle(open: bool, cursor: Option<Cursor>, dirty: bool)

  function CycleOf(s: Sys, q: Queue): Cycle {
    match q
    case Normal => Cycle(s.scan.normalEpoch.Some?, s.scan.normalCursor, s.scan.normalDirty)
    case Reextraction => Cycle(s.scan.reActive, s.scan.reCursor, s.scan.reDirty)
  }

  /** The block that records the progress of one pass. */
  predicate Records(a: Action, q: Queue) {
    match q
    case Normal => a == PublishNormalProgress
    case Reextraction => a == PublishReProgress
  }

  function Passes(run: seq<Action>, q: Queue): nat {
    if run == [] then 0 else (if Records(run[0], q) then 1 else 0) + Passes(run[1..], q)
  }

  predicate QuietResult(cursor: Option<Cursor>, d: Discovery) {
    && !d.foundWork
    && (d.cycleComplete || (d.next.Some? && (cursor.Some? ==> cursor.value.position < d.next.value.position)))
  }

  /** A pass that has just returned found no work and has reached the ceiling or moved on. */
  predicate QuietAt(s: Sys) {
    s.holder.Worker? ==>
      match s.holder.turn
      case AtUpdateNormal(_, ticket, d) => QuietResult(ticket.cursor, d)
      case AtUpdateRe(_, ticket, d) => QuietResult(ticket.cursor, d)
      case _ => true
  }

  ghost predicate QuietThroughout(s: Sys, run: seq<Action>)
    decreases |run|
  {
    QuietAt(s) && (run != [] && Enabled(s, run[0]) ==> QuietThroughout(Apply(s, run[0]), run[1..]))
  }

  ghost predicate OpenThroughout(s: Sys, run: seq<Action>, q: Queue)
    decreases |run|
  {
    CycleOf(s, q).open && (run != [] && Enabled(s, run[0]) ==> OpenThroughout(Apply(s, run[0]), run[1..], q))
  }

  /**
   Passes left: to the end of the sweep and, after a find, once more from the
   start. A sweep without a cursor has yet to fix its ceiling, at most `head`.
   */
  function Left(c: Cycle, head: nat): int {
    if c.cursor.None? then head + 2
    else
      var cursor := c.cursor.value;
      cursor.ceiling - cursor.position + 1 + if c.dirty then cursor.ceiling + 1 else 0
  }

  // ------------------------------------------------------------ invariant

  predicate Within(cursor: Option<Cursor>, head: nat) {
    cursor.Some? ==> cursor.value.position <= cursor.value.ceiling <= head
  }

  /** No cursor, stored or carried, points past the newest commit. */
  predicate CursorsWithin(s: Sys) {
    && Within(s.scan.normalCursor, s.head)
    && Within(s.scan.reCursor, s.head)
    && (s.holder.Worker? ==>
          match s.holder.turn
          case AtDiscoverNormal(_, ticket) => Within(ticket.cursor, s.head)
          case AtDiscoverRe(_, ticket) => Within(ticket.cursor, s.head)
          case AtUpdateNormal(_, _, d) => Within(d.next, s.head)
          case AtUpdateRe(_, _, d) => Within(d.next, s.head)
          case _ => true)
  }

  lemma DiscoverKeepsCursors(s: Sys, a: Action)
    requires CursorsWithin(s) && Enabled(s, a) && (a.DiscoverNormal? || a.DiscoverRe?)
    ensures CursorsWithin(Apply(s, a))
  {
    hide Observe;
  }

  lemma UpdateNormalKeepsCursors(s: Sys)
    requires CursorsWithin(s) && Enabled(s, PublishNormalProgress)
    ensures CursorsWithin(ApplyUpdateNormal(s))
  {
  }

  lemma UpdateReKeepsCursors(s: Sys)
    requires CursorsWithin(s) && Enabled(s, PublishReProgress)
    ensures CursorsWithin(ApplyUpdateRe(s))
  {
  }

  lemma StartKeepsCursors(s: Sys, a: Action)
    requires CursorsWithin(s) && Enabled(s, a) && (a.StartNormalCycle? || a.StartReCycle?)
    ensures CursorsWithin(Apply(s, a))
  {
  }

  lemma StepKeepsCursors(s: Sys, a: Action)
    requires CursorsWithin(s) && Enabled(s, a)
    ensures CursorsWithin(Apply(s, a)) && s.head <= Apply(s, a).head
  {
    hide DiscoveryContract, Observe, UpdateNormal, UpdateRe, StartNormal, StartRe;
    match a
    case DiscoverNormal(_, _) => DiscoverKeepsCursors(s, a);
    case DiscoverRe(_, _) => DiscoverKeepsCursors(s, a);
    case PublishNormalProgress => UpdateNormalKeepsCursors(s);
    case PublishReProgress => UpdateReKeepsCursors(s);
    case StartNormalCycle => StartKeepsCursors(s, a);
    case StartReCycle => StartKeepsCursors(s, a);
    case _ =>
  }

  lemma {:induction false} RunKeepsCursors(s: Sys, run: seq<Action>, t: Sys)
    requires CursorsWithin(s) && Reaches(s, run, t)
    ensures CursorsWithin(t) && s.head <= t.head
    decreases |run|
  {
    if run != [] {
      StepKeepsCursors(s, run[0]);
      hide Enabled, Apply, CursorsWithin;
      RunKeepsCursors(Apply(s, run[0]), run[1..], t);
    }
  }

  // ------------------------------------------------------------- progress

  lemma NormalPassCounts(s: Sys, head: nat)
    requires NormalShape(s) && NormalTracked(s) && CursorsWithin(s) && QuietAt(s) && s.head <= head
    requires Enabled(s, PublishNormalProgress) && CycleOf(s, Normal).open
    ensures CycleOf(ApplyUpdateNormal(s), Normal).open ==>
              Left(CycleOf(ApplyUpdateNormal(s), Normal), head) < Left(CycleOf(s, Normal), head)
  {
  }

  lemma RePassCounts(s: Sys, head: nat)
    requires ReShape(s) && ReTracked(s) && CursorsWithin(s) && QuietAt(s) && s.head <= head
    requires Enabled(s, PublishReProgress) && CycleOf(s, Reextraction).open
    ensures CycleOf(ApplyUpdateRe(s), Reextraction).open ==>
              Left(CycleOf(ApplyUpdateRe(s), Reextraction), head) < Left(CycleOf(s, Reextraction), head)
  {
  }

  /** Any other step leaves an open cycle as it is, or closes it. */
  lemma OthersLeaveCycle(s: Sys, a: Action, q: Queue)
    requires NormalShape(s) && Enabled(s, a) && !Records(a, q)
    requires CycleOf(s, q).open && CycleOf(Apply(s, a), q).open
    ensures CycleOf(Apply(s, a), q) == CycleOf(s, q)
  {
    hide DiscoveryContract, Observe;
  }

  lemma StepCounts(s: Sys, a: Action, q: Queue, head: nat)
    requires Inv(s) && CursorsWithin(s) && QuietAt(s) && s.head <= head && Enabled(s, a)
    requires CycleOf(s, q).open && CycleOf(Apply(s, a), q).open
    ensures Left(CycleOf(Apply(s, a), q), head) + (if Records(a, q) then 1 else 0) <= Left(CycleOf(s, q), head)
  {
    if !Records(a, q) {
      OthersLeaveCycle(s, a, q);
    } else if q == Normal {
      NormalPassCounts(s, head);
    } else {
      RePassCounts(s, head);
    }
  }

  lemma {:induction false} PassesAreLimited(s: Sys, run: seq<Action>, t: Sys, q: Queue)
    requires Inv(s) && CursorsWithin(s) && Reaches(s, run, t)
    requires QuietThroughout(s, run) && OpenThroughout(s, run, q)
    ensures Passes(run, q) < Left(CycleOf(s, q), t.head)
    decreases |run|
  {
    RunKeepsCursors(s, run, t);
    if run != [] {
      var next := Apply(s, run[0]);
      StepKeepsInv(s, run[0]);
      StepKeepsCursors(s, run[0]);
      StepCounts(s, run[0], q, t.head);
      hide Inv, Enabled, Apply, CursorsWithin, QuietAt, Left, CycleOf, Records;
      PassesAreLimited(next, run[1..], t, q);
    }
  }

  /**
   From any reachable state a cycle that stays open while its passes find no work
   has had fewer passes than were left: commits, ingress, Admin requests and
   optional turns in between never add one. Once its ceiling is fixed the limit
   is a number of the state alone; before that it is two more than the head.
   */
  lemma CyclesCannotBeStarved(prefix: seq<Action>, s: Sys, run: seq<Action>, t: Sys, q: Queue)
    requires Reaches(Init(), prefix, s) && Reaches(s, run, t)
    requires QuietThroughout(s, run) && OpenThroughout(s, run, q)
    ensures match CycleOf(s, q).cursor
            case None => Passes(run, q) < t.head + 2
            case Some(c) => Passes(run, q) <= c.ceiling - c.position + if CycleOf(s, q).dirty then c.ceiling + 1 else 0
  {
    RunKeepsInv(Init(), prefix, s);
    RunKeepsCursors(Init(), prefix, s);
    PassesAreLimited(s, run, t, q);
  }
}

/**
 The fair cursor, which hands out one obligation at a time after a dialogue. It
 moves on before the obligation is processed, so that none can pin it.
 */
module FairSweep {
  import opened Common
  import opened MemoryScan

  /** One fair pass: the epoch when its progress is published, the one it was captured at, and its bound. */
  datatype FairPass = FairPass(epoch: nat, expected: nat, through: nat, result: Discovery, to: nat)

  /** Where the pass begins: a stored sweep goes on unless it reaches past the bound. */
  function Origin(cursor: Option<Cursor>, through: nat): Cursor {
    if cursor.Some? && cursor.value.ceiling <= through then cursor.value else Cursor(0, through)
  }

  /** The repository's promise: a pass that has not completed the sweep has moved on, also when it found work. */
  ghost predicate FairContract(cursor: Option<Cursor>, p: FairPass) {
    var from := Origin(cursor, p.through);
    && from.position <= p.to <= from.ceiling
    && (p.result.next.Some? ==> p.result.next.value == Cursor(p.to, from.ceiling))
    && (p.result.cycleComplete ==> p.to == from.ceiling)
    && (!p.result.cycleComplete ==> p.result.next.Some? && from.position < p.to)
  }

  function AfterPass(s: Scan, p: FairPass): Scan {
    UpdateFair(s, p.epoch, p.expected, p.result).0
  }

  ghost predicate FairRun(s: Scan, run: seq<FairPass>, t: Scan)
    decreases |run|
  {
    if run == [] then s == t
    else FairContract(s.fairCursor, run[0]) && FairRun(AfterPass(s, run[0]), run[1..], t)
  }

  /** Passes of one sweep: published at their epoch, not its last, with bounds that do not cut it short. */
  ghost predicate WithinSweep(run: seq<FairPass>, ceiling: nat) {
    forall p :: p in run ==> p.epoch == p.expected && !p.result.cycleComplete && ceiling <= p.through
  }

  /** A pass that lost its epoch leaves the sweep alone; one that completes it makes the next one start anew. */
  lemma SweepEndsOrStays(s: Scan, p: FairPass)
    requires FairContract(s.fairCursor, p)
    ensures p.epoch != p.expected ==> AfterPass(s, p) == s
    ensures p.epoch == p.expected && p.result.cycleComplete ==>
              AfterPass(s, p) == s.(fairCursor := None) && p.to == Origin(s.fairCursor, p.through).ceiling
  {
  }

  /**
   Each pass of a sweep goes on exactly where the last one stopped and at least
   one position further, whether or not it found work and whatever became of it.
   So the sweep comes past every position, within as many passes as are left.
   */
  lemma {:induction false} FairSweepMovesOn(s: Scan, run: seq<FairPass>, t: Scan)
    requires FairRun(s, run, t) && s.fairCursor.Some? && WithinSweep(run, s.fairCursor.value.ceiling)
    ensures t == s.(fairCursor := t.fairCursor) && t.fairCursor.Some?
    ensures t.fairCursor.value.ceiling == s.fairCursor.value.ceiling
    ensures s.fairCursor.value.position + |run| <= t.fairCursor.value.position
    ensures run != [] ==> t.fairCursor.value.position == run[|run| - 1].to <= t.fairCursor.value.ceiling
    ensures forall i :: 0 < i < |run| ==> run[i - 1].to < run[i].to
    decreases |run|
  {
    if run != [] {
      var next := AfterPass(s, run[0]);
      assert run[0] in run && forall p :: p in run[1..] ==> p in run;
      FairSweepMovesOn(next, run[1..], t);
      if |run| > 1 {
        assert run[1] in run && FairContract(next.fairCursor, run[1..][0]);
      }
    }
  }
}
