/**
 Lifecycle boundaries over all residents. `residentBoundaryMu` admits one
 boundary at a time; provider admission and worker threads go on in between.
 */
module ResidentBoundaries {
  import opened Common

  datatype Boundary =
    | Selecting(targets: set<ResidentId>)
    | Archiving(resident: ResidentId, wasBlocked: bool)

  datatype Sys = Sys(
    blocked: set<ResidentId>,
    selectionBlocked: bool,
    work: set<ResidentId>,       // residents in the serialized worker map
    calls: set<ResidentId>,      // residents with a current provider call
    boundary: Option<Boundary>,
    winner: Option<ResidentId>,  // history: what the last selection with a known result selected
    decided: set<ResidentId>     // history: every resident that was a target or a winner
  )

  function Fresh(): Sys {
    Sys({}, false, {}, {}, None, None, {})
  }

  datatype Step =
    | Threads(work: set<ResidentId>, calls: set<ResidentId>)
    | BeginSelection(resident: ResidentId, previous: Option<ResidentId>)
    | SettleSelection(selectedAfter: Option<ResidentId>)
    | BeginArchive(resident: ResidentId)
    | SettleArchive(knownUnarchived: bool)

  /** The residents one selection fences. Without a former selection these are all that threads are known to serve. */
  function Targets(resident: ResidentId, previous: Option<ResidentId>, work: set<ResidentId>, calls: set<ResidentId>): set<ResidentId> {
    {resident} + (if previous.Some? then {previous.value} else work + calls) - {ZERO_ID}
  }

  predicate Enabled(s: Sys, a: Step) {
    match a
    case Threads(_, _) => true
    case BeginSelection(_, _) => s.boundary.None?
    case SettleSelection(w) => s.boundary.Some? && s.boundary.value.Selecting? && w != Some(ZERO_ID)
    case BeginArchive(_) => s.boundary.None?
    case SettleArchive(_) => s.boundary.Some? && s.boundary.value.Archiving?
  }

  function Apply(s: Sys, a: Step): Sys
    requires Enabled(s, a)
  {
    match a
    case Threads(work, calls) => s.(work := work, calls := calls)
    case BeginSelection(r, previous) =>
      var targets := Targets(r, previous, s.work, s.calls);
      s.(selectionBlocked := s.selectionBlocked || previous.None?, blocked := s.blocked + targets,
         boundary := Some(Selecting(targets)), decided := s.decided + targets)
    case SettleSelection(None) => s.(boundary := None)
    case SettleSelection(Some(w)) =>
      s.(boundary := None, selectionBlocked := false, blocked := s.blocked + s.boundary.value.targets - {w},
         winner := Some(w), decided := s.decided + {w})
    case BeginArchive(r) => s.(boundary := Some(Archiving(r, r in s.blocked)), blocked := s.blocked + {r})
    case SettleArchive(knownUnarchived) =>
      var b := s.boundary.value;
      s.(boundary := None,
         blocked := if knownUnarchived && !b.wasBlocked then s.blocked - {b.resident} else s.blocked)
  }

  predicate Open(s: Sys, r: ResidentId) {
    !s.selectionBlocked && r !in s.blocked
  }

  /** Of all residents a selection ever decided about, at most its last winner is not fenced. */
  predicate OnlyWinner(s: Sys) {
    s.decided - s.blocked <= if s.winner.Some? then {s.winner.value} else {}
  }

  /** The targets this selection would fix leave out an unfenced former winner. */
  predicate LeavesOut(s: Sys, resident: ResidentId, previous: Option<ResidentId>) {
    && s.winner.Some? && s.winner.value !in s.blocked
    && s.winner.value !in Targets(resident, previous, s.work, s.calls)
  }

  ghost predicate Inv(s: Sys) {
    && OnlyWinner(s)
    && (s.winner.Some? ==> s.winner.value in s.decided && s.winner.value != ZERO_ID)
    && (s.boundary.Some? ==>
          match s.boundary.value
          case Selecting(targets) => targets <= s.blocked && targets <= s.decided
          case Archiving(r, wasBlocked) => r in s.blocked && (r in s.decided && !wasBlocked ==> s.winner == Some(r)))
  }

  /** While a selection is in progress the former winner is fenced, so that any result leaves one winner. */
  ghost predicate Handover(s: Sys) {
    s.boundary.Some? && s.boundary.value.Selecting? && s.winner.Some? ==> s.winner.value in s.blocked
  }

  lemma StepKeepsOnlyWinner(s: Sys, a: Step)
    requires Inv(s) && Handover(s) && Enabled(s, a)
    ensures Inv(Apply(s, a))
    ensures !(a.BeginSelection? && LeavesOut(s, a.resident, a.previous)) ==> Handover(Apply(s, a))
  {
    match a
    case Threads(_, _) =>
    case BeginSelection(_, _) =>
    case SettleSelection(None) =>
    case SettleSelection(Some(w)) => SettleKeepsOnlyWinner(s, w);
    case BeginArchive(_) =>
    case SettleArchive(_) => SettleArchiveKeepsOnlyWinner(s, a);
  }

  lemma SettleKeepsOnlyWinner(s: Sys, w: ResidentId)
    requires Inv(s) && Handover(s) && Enabled(s, SettleSelection(Some(w)))
    ensures Inv(Apply(s, SettleSelection(Some(w))))
  {
    var t := Apply(s, SettleSelection(Some(w)));
    forall r | r in t.decided - t.blocked
      ensures r == w
    {
      assert r != w ==> r in s.decided - s.blocked;
    }
  }

  lemma SettleArchiveKeepsOnlyWinner(s: Sys, a: Step)
    requires Inv(s) && Enabled(s, a) && a.SettleArchive?
    ensures Inv(Apply(s, a))
  {
    var t := Apply(s, a);
    forall r | r in t.decided - t.blocked
      ensures s.winner == Some(r)
    {
      assert r != s.boundary.value.resident ==> r in s.decided - s.blocked;
    }
  }

  lemma StepKeepsShape(s: Sys, a: Step)
    requires Inv(s) && Enabled(s, a) && OnlyWinner(Apply(s, a))
    ensures Inv(Apply(s, a))
  {
    if a.BeginArchive? && a.resident in s.decided && a.resident !in s.blocked {
      assert a.resident in s.decided - s.blocked;
    }
    hide OnlyWinner;
  }

  /** A selection that left out the former winner settles on another one. */
  lemma LeftOutWinnerStaysOpen(s: Sys, resident: ResidentId, previous: Option<ResidentId>) returns (w: ResidentId)
    requires Inv(s) && Enabled(s, BeginSelection(resident, previous)) && LeavesOut(s, resident, previous)
    ensures w != ZERO_ID && (resident != ZERO_ID ==> w == resident)
    ensures !OnlyWinner(Apply(Apply(s, BeginSelection(resident, previous)), SettleSelection(Some(w))))
  {
    w := if resident != ZERO_ID then resident else s.winner.value + 1;
    var begun := Apply(s, BeginSelection(resident, previous));
    var t := Apply(begun, SettleSelection(Some(w)));
    assert s.winner.value != w && s.winner.value in t.decided - t.blocked;
  }

  /** One selection: it keeps at most the winner open whatever its result exactly when its targets leave out no unfenced former winner. */
  lemma SelectionKeepsOnlyWinnerExactly(s: Sys, resident: ResidentId, previous: Option<ResidentId>)
    requires Inv(s) && Enabled(s, BeginSelection(resident, previous))
    ensures var begun := Apply(s, BeginSelection(resident, previous));
            !LeavesOut(s, resident, previous)
            <==> forall w :: Enabled(begun, SettleSelection(w)) ==> OnlyWinner(Apply(begun, SettleSelection(w)))
  {
    if LeavesOut(s, resident, previous) {
      var w := LeftOutWinnerStaysOpen(s, resident, previous);
      assert Enabled(Apply(s, BeginSelection(resident, previous)), SettleSelection(Some(w)));
    }
  }

  /** Runs in which every selection passes the check `admit` before it begins. */
  ghost predicate Reaches(s: Sys, run: seq<Step>, t: Sys, admit: (Sys, ResidentId, Option<ResidentId>) -> bool)
    decreases |run|
  {
    if run == [] then s == t
    else
      && Enabled(s, run[0])
      && (run[0].BeginSelection? ==> admit(s, run[0].resident, run[0].previous))
      && Reaches(Apply(s, run[0]), run[1..], t, admit)
  }

  lemma {:induction false} Extend(s: Sys, run: seq<Step>, t: Sys, a: Step, admit: (Sys, ResidentId, Option<ResidentId>) -> bool)
    requires Reaches(s, run, t, admit) && Enabled(t, a)
    requires a.BeginSelection? ==> admit(t, a.resident, a.previous)
    ensures Reaches(s, run + [a], Apply(t, a), admit)
    decreases |run|
  {
    if run == [] {
      assert [a][1..] == [] && Reaches(Apply(t, a), [], Apply(t, a), admit);
    } else {
      Extend(Apply(s, run[0]), run[1..], t, a, admit);
      assert (run + [a])[1..] == run[1..] + [a];
    }
  }

  /** The check admits no selection that leaves out an unfenced former winner, in any state it is asked in. */
  ghost predicate NeverLeavesOut(admit: (Sys, ResidentId, Option<ResidentId>) -> bool) {
    forall run, s, resident, previous ::
      Reaches(Fresh(), run, s, admit) && s.boundary.None? && admit(s, resident, previous) ==> !LeavesOut(s, resident, previous)
  }

  ghost predicate AlwaysOnlyWinner(admit: (Sys, ResidentId, Option<ResidentId>) -> bool) {
    forall run, s :: Reaches(Fresh(), run, s, admit) ==> OnlyWinner(s)
  }

  lemma {:induction false} RunKeepsHandover(prefix: seq<Step>, s: Sys, run: seq<Step>, t: Sys,
                                            admit: (Sys, ResidentId, Option<ResidentId>) -> bool)
    requires NeverLeavesOut(admit) && Reaches(Fresh(), prefix, s, admit) && Inv(s) && Handover(s) && Reaches(s, run, t, admit)
    ensures Inv(t) && Handover(t)
    decreases |run|
  {
    if run != [] {
      if run[0].BeginSelection? {
        assert !LeavesOut(s, run[0].resident, run[0].previous);
      }
      StepKeepsOnlyWinner(s, run[0]);
      Extend(Fresh(), prefix, s, run[0], admit);
      hide Inv, Handover, Enabled, Apply, NeverLeavesOut;
      RunKeepsHandover(prefix + [run[0]], Apply(s, run[0]), run[1..], t, admit);
    }
  }

  lemma {:induction false} RunKeepsInv(prefix: seq<Step>, s: Sys, run: seq<Step>, t: Sys,
                                       admit: (Sys, ResidentId, Option<ResidentId>) -> bool)
    requires AlwaysOnlyWinner(admit) && Reaches(Fresh(), prefix, s, admit) && Inv(s) && Reaches(s, run, t, admit)
    ensures Inv(t)
    decreases |run|
  {
    if run != [] {
      Extend(Fresh(), prefix, s, run[0], admit);
      assert OnlyWinner(Apply(s, run[0]));
      StepKeepsShape(s, run[0]);
      hide Inv, Enabled, Apply, AlwaysOnlyWinner;
      RunKeepsInv(prefix + [run[0]], Apply(s, run[0]), run[1..], t, admit);
    }
  }

  /**
   All selections and archives of all residents, threads entering work and calls
   at any point in between, selections checked before they begin: at most the last
   winner is unfenced among the residents ever decided about, in every such run,
   exactly when the check lets no selection begin whose targets leave out an
   unfenced former winner.
   */
  lemma AtMostTheWinnerIsOpenExactly(admit: (Sys, ResidentId, Option<ResidentId>) -> bool)
    ensures AlwaysOnlyWinner(admit) <==> NeverLeavesOut(admit)
  {
    assert Reaches(Fresh(), [], Fresh(), admit);
    if NeverLeavesOut(admit) {
      forall run, s | Reaches(Fresh(), run, s, admit)
        ensures OnlyWinner(s)
      {
        RunKeepsHandover([], Fresh(), run, s, admit);
      }
    }
    if AlwaysOnlyWinner(admit) {
      forall run, s, resident, previous |
        Reaches(Fresh(), run, s, admit) && s.boundary.None? && admit(s, resident, previous)
        ensures !LeavesOut(s, resident, previous)
      {
        RunKeepsInv([], Fresh(), run, s, admit);
        if LeavesOut(s, resident, previous) {
          var w := LeftOutWinnerStaysOpen(s, resident, previous);
          var begin, settle := BeginSelection(resident, previous), SettleSelection(Some(w));
          Extend(Fresh(), run, s, begin, admit);
          Extend(Fresh(), run + [begin], Apply(s, begin), settle, admit);
          assert false;
        }
      }
    }
  }

  /** Two selections that cannot resolve the former one leave two residents open. */
  lemma TwoResidentsOpen(first: ResidentId, second: ResidentId)
    requires first != second && first != ZERO_ID && second != ZERO_ID
    ensures var s1 := Apply(Apply(Fresh(), BeginSelection(first, None)), SettleSelection(Some(first)));
            var s2 := Apply(Apply(s1, BeginSelection(second, None)), SettleSelection(Some(second)));
            Open(s2, first) && Open(s2, second)
  {
  }

  /** While a selection is in progress no target is open; a known result opens exactly the winner among them, an unknown one none. */
  lemma TargetsAreDecided(s: Sys, selectedAfter: Option<ResidentId>, t: ResidentId)
    requires Inv(s) && Enabled(s, SettleSelection(selectedAfter)) && t in s.boundary.value.targets
    ensures !Open(s, t)
    ensures Open(Apply(s, SettleSelection(selectedAfter)), t) <==> selectedAfter == Some(t)
  {
  }

  /** An archive known to have failed gives the fence back as it was; any other result leaves the resident fenced. */
  lemma ArchiveSettles(s: Sys, r: ResidentId, knownUnarchived: bool)
    requires s.boundary.None?
    ensures var t := Apply(Apply(s, BeginArchive(r)), SettleArchive(knownUnarchived));
            t == s.(blocked := if knownUnarchived then s.blocked else s.blocked + {r})
  {
    assert r in s.blocked ==> s.blocked + {r} == s.blocked;
    assert r !in s.blocked ==> s.blocked + {r} - {r} == s.blocked;
  }

  /** A selection that resolved the former winner, or found it in a map, does not leave it out. */
  lemma CoveredWinnerIsNotLeftOut(s: Sys, resident: ResidentId, previous: Option<ResidentId>)
    requires Inv(s) && s.winner.Some?
    requires if previous.Some? then previous == s.winner else s.winner.value in s.work + s.calls
    ensures !LeavesOut(s, resident, previous)
  {
  }

  /** The target computation, entry by entry. */
  method CollectTargets(resident: ResidentId, previous: Option<ResidentId>, work: set<ResidentId>, calls: set<ResidentId>)
    returns (targets: set<ResidentId>)
    ensures targets == Targets(resident, previous, work, calls)
  {
    var all := {resident};
    if previous.Some? {
      all := all + {previous.value};
    } else {
      all := AddAll(all, work);
      all := AddAll(all, calls);
    }
    // The loops over the targets skip the zero ID.
    targets := all - {ZERO_ID};
  }

  method AddAll(targets: set<ResidentId>, entries: set<ResidentId>) returns (all: set<ResidentId>)
    ensures all == targets + entries
  {
    all := targets;
    var left := entries;
    while left != {}
      invariant left <= entries && all == targets + (entries - left)
      decreases |left|
    {
      var target :| target in left;
      left := left - {target};
      all := all + {target};
    }
  }
}

/**
 The landing locks of all residents. A selection takes those of its targets in
 the order of their IDs' texts; an archive, an ingress, a mutation and a landing
 take one. Residents stand here in that order: IDs are their ranks in it.
 */
module LandingLocks {
  import opened Common
  import opened Sorting

  /** A thread takes the locks of its plan one by one; the first `held` of them are its own. */
  datatype Thread = Thread(plan: seq<ResidentId>, held: nat)

  type Sys = seq<Thread>

  datatype Step = Take(i: nat) | Finish(i: nat)

  predicate Owns(t: Thread, lock: ResidentId) {
    exists k :: 0 <= k < |t.plan| && k < t.held && t.plan[k] == lock
  }

  predicate Waits(t: Thread) {
    t.held < |t.plan|
  }

  ghost predicate Free(s: Sys, lock: ResidentId) {
    forall i :: 0 <= i < |s| ==> !Owns(s[i], lock)
  }

  ghost predicate Enabled(s: Sys, a: Step) {
    match a
    case Take(i) => i < |s| && Waits(s[i]) && Free(s, s[i].plan[s[i].held])
    // A thread with all its locks does its work and then releases them.
    case Finish(i) => i < |s| && !Waits(s[i])
  }

  ghost function Apply(s: Sys, a: Step): Sys
    requires Enabled(s, a)
  {
    match a
    case Take(i) => s[i := s[i].(held := s[i].held + 1)]
    case Finish(i) => s[..i] + s[i + 1..]
  }

  ghost predicate Increasing(plan: seq<ResidentId>) {
    forall j, k :: 0 <= j < k < |plan| ==> plan[j] < plan[k]
  }

  ghost predicate Inv(s: Sys) {
    forall i :: 0 <= i < |s| ==> s[i].held <= |s[i].plan| && Increasing(s[i].plan)
  }

  /** The lock a waiting thread asks for is owned by the other one. */
  ghost predicate WaitsFor(t: Thread, u: Thread) {
    Waits(t) && Owns(u, t.plan[t.held])
  }

  /** The lock a thread is waiting for; above all locks when it waits for none. */
  function Wanted(t: Thread): nat
    requires Waits(t)
  {
    t.plan[t.held]
  }

  lemma OwnedIsBelowWanted(t: Thread, u: Thread)
    requires WaitsFor(t, u) && Waits(u) && Increasing(u.plan)
    ensures Wanted(t) < Wanted(u)
  {
  }

  /** Threads that wait for one another in a row. */
  ghost predicate Chain(c: seq<Thread>) {
    forall k :: 0 <= k < |c| - 1 ==> WaitsFor(c[k], c[k + 1])
  }

  lemma {:induction false} WantedGrows(c: seq<Thread>)
    requires |c| > 1 && Chain(c) && (forall k :: 0 <= k < |c| ==> Waits(c[k]) && Increasing(c[k].plan))
    ensures Wanted(c[0]) < Wanted(c[|c| - 1])
  {
    var n := |c| - 1;
    OwnedIsBelowWanted(c[n - 1], c[n]);
    if n > 1 {
      WantedGrows(c[..n]);
    }
  }

  /** No thread waits for itself through others: sorted acquisition admits no cycle. */
  lemma NoWaitsForCycle(s: Sys, c: seq<Thread>)
    requires Inv(s) && |c| > 1 && (forall k :: 0 <= k < |c| ==> c[k] in s)
    requires Chain(c)
    ensures c[0] != c[|c| - 1]
  {
    if c[0] == c[|c| - 1] {
      forall k | 0 <= k < |c|
        ensures Waits(c[k]) && Increasing(c[k].plan)
      {
        assert c[k] in s && WaitsFor(c[0], c[1]);
        assert k < |c| - 1 ==> WaitsFor(c[k], c[k + 1]);
      }
      WantedGrows(c);
      assert false;
    }
  }

  // ----------------------------------------------------- everyone finishes

  function Need(t: Thread): nat {
    if t.held <= |t.plan| then 1 + |t.plan| - t.held else 1
  }

  lemma {:induction false} MostWanted(s: Sys) returns (i: nat)
    requires s != []
    ensures i < |s|
    ensures Waits(s[i]) ==> forall j :: 0 <= j < |s| ==> Waits(s[j]) && Wanted(s[j]) <= Wanted(s[i])
  {
    var last := |s| - 1;
    i := last;
    if Waits(s[last]) && last > 0 {
      var j := MostWanted(s[..last]);
      if !Waits(s[j]) || Wanted(s[last]) <= Wanted(s[j]) {
        i := j;
      }
    }
  }

  /** Some thread can always go on. */
  lemma SomeThreadMoves(s: Sys) returns (a: Step)
    requires Inv(s) && s != []
    ensures Enabled(s, a)
  {
    var i := MostWanted(s);
    a := if Waits(s[i]) then Take(i) else Finish(i);
    if Waits(s[i]) {
      forall j | 0 <= j < |s|
        ensures !Owns(s[j], Wanted(s[i]))
      {
        if Owns(s[j], Wanted(s[i])) {
          OwnedIsBelowWanted(s[i], s[j]);
          assert false;
        }
      }
    }
  }

  lemma {:induction false} TotalDrop(s: Sys, i: nat)
    requires i < |s|
    ensures Total(s[..i] + s[i + 1..], Need) + Need(s[i]) == Total(s, Need)
  {
    var n := |s| - 1;
    if i == n {
      assert s[..i] + s[i + 1..] == s[..n];
    } else {
      var t := s[..i] + s[i + 1..];
      assert t[..|t| - 1] == s[..n][..i] + s[..n][i + 1..];
      TotalDrop(s[..n], i);
    }
  }

  lemma StepKeepsInv(s: Sys, a: Step)
    requires Inv(s) && Enabled(s, a)
    ensures Inv(Apply(s, a)) && Total(Apply(s, a), Need) < Total(s, Need)
  {
    hide Free, Owns, Increasing;
    match a
    case Take(i) => TotalUpdate(s, i, s[i].(held := s[i].held + 1), Need);
    case Finish(i) => TotalDrop(s, i);
  }

  ghost predicate Reaches(s: Sys, run: seq<Step>, t: Sys)
    decreases |run|
  {
    if run == [] then s == t else Enabled(s, run[0]) && Reaches(Apply(s, run[0]), run[1..], t)
  }

  lemma {:induction false} RunsEnd(s: Sys, run: seq<Step>, t: Sys)
    requires Inv(s) && Reaches(s, run, t)
    ensures Inv(t) && |run| + Total(t, Need) <= Total(s, Need)
    decreases |run|
  {
    if run != [] {
      StepKeepsInv(s, run[0]);
      RunsEnd(Apply(s, run[0]), run[1..], t);
    }
  }

  /**
   Any number of boundaries, landings and ingresses that start on free locks all
   finish: however they are scheduled, a run is bounded, and one that cannot be
   continued has released every lock.
   */
  lemma AcquisitionCannotDeadlock(s: Sys, run: seq<Step>, t: Sys)
    requires forall i :: 0 <= i < |s| ==> s[i].held == 0 && Increasing(s[i].plan)
    requires Reaches(s, run, t)
    ensures |run| <= Total(s, Need)
    ensures t == [] || exists a :: Enabled(t, a)
  {
    RunsEnd(s, run, t);
    if t != [] {
      var a := SomeThreadMoves(t);
    }
  }

  /** The order does it: two boundaries that take the same two locks in different orders can block each other for good. */
  lemma UnsortedPlansDeadlock()
    ensures var s := [Thread([1, 2], 0), Thread([2, 1], 0)];
            exists run, t :: Reaches(s, run, t) && t != [] && forall a :: !Enabled(t, a)
  {
    var s := [Thread([1, 2], 0), Thread([2, 1], 0)];
    var one := [Thread([1, 2], 1), Thread([2, 1], 0)];
    var both := [Thread([1, 2], 1), Thread([2, 1], 1)];
    assert !Owns(s[0], 1) && !Owns(s[1], 1) && !Owns(one[0], 2) && !Owns(one[1], 2);
    assert Apply(s, Take(0)) == one && Apply(one, Take(1)) == both;
    assert [Take(0), Take(1)][1..] == [Take(1)] && [Take(1)][1..] == [];
    assert Reaches(both, [], both) && Reaches(one, [Take(1)], both);
    assert both[1].plan[0] == 2 && Owns(both[1], 2);
    assert both[0].plan[0] == 1 && Owns(both[0], 1);
    assert Reaches(s, [Take(0), Take(1)], both);
  }

  // ----------------------------------------------------------- the method

  predicate Before(a: ResidentId, b: ResidentId) {
    a < b
  }

  /** The locks of the targets, in the order they are taken. */
  method LockOrder(targets: set<ResidentId>) returns (plan: seq<ResidentId>)
    ensures Increasing(plan)
    ensures forall r :: r in plan <==> r in targets && r != ZERO_ID
  {
    var ids: seq<ResidentId> := [];
    var left := targets;
    while left != {}
      invariant left <= targets
      invariant forall r :: r in ids <==> r in targets - left && r != ZERO_ID
      invariant forall j, k :: 0 <= j < k < |ids| ==> ids[j] != ids[k]
      decreases |left|
    {
      var target :| target in left;
      assert target !in ids;
      left := left - {target};
      if target != ZERO_ID {
        ids := ids + [target];
      }
    }
    plan := SortBy(ids, Before);
    SortOrders(ids, Before);
    SortPermutes(ids, Before);
    DistinctSorted(ids, plan);
  }

  lemma DistinctSorted(ids: seq<ResidentId>, plan: seq<ResidentId>)
    requires multiset(plan) == multiset(ids) && Ordered(plan, Before)
    requires forall j, k :: 0 <= j < k < |ids| ==> ids[j] != ids[k]
    ensures Increasing(plan)
  {
    forall j, k | 0 <= j < k < |plan|
      ensures plan[j] < plan[k]
    {
      if plan[j] == plan[k] {
        TwiceCounts(plan, j, k);
        OnceCounts(ids, plan[j]);
      }
    }
  }
}
