/**
 One garbage collection of a resident's content, after its plan was computed.
 The stores, the boundary check and the failpoints answer as the turns say.
 */
module GcRun {
  import opened Common
  import opened GcPlan

  /** A removal that reports an error may or may not have unlinked the file. */
  datatype Removal = Removed | RemovedUnsure(unlinked: bool) | Vanished | NotRemoved

  datatype CommitEnd = Confirmed | Unsure(applied: bool)

  /** The answers one candidate meets, in order; `true` means that a check passed or a call succeeded. */
  datatype Turn = Turn(
    begun: bool,
    boundaryBefore: bool,
    beforeFile: bool,
    removal: Removal,
    afterFile: bool,
    rowDeleted: bool,
    afterRow: bool,
    beforeCommit: bool,
    boundaryInside: bool,
    commit: CommitEnd,
    boundaryAfter: bool,
    afterCommit: bool
  )

  /** Physical copies by digest. */
  datatype World = World(files: set<Digest>, rows: set<Digest>)

  datatype Event = FileTouched(candidate: nat) | RowTouched(candidate: nat) | Committed(candidate: nat)

  datatype Fault = Stale | Partial | Plain

  datatype Result = Result(
    candidateCount: int,
    deletedCount: int,
    remainingCount: int,
    physicalMutation: bool,
    maintenanceIncomplete: bool
  )

  /** The counter half of `Result.Validate`; the plan in a result is one that was validated when it was built. */
  predicate Counted(r: Result) {
    && 0 <= r.candidateCount && 0 <= r.deletedCount <= r.candidateCount
    && r.remainingCount == r.candidateCount - r.deletedCount
  }

  const ZERO_RESULT := Result(0, 0, 0, false, false)

  function FinishFailure(r: Result, cause: Fault): Fault {
    if r.deletedCount > 0 || r.physicalMutation then Partial else cause
  }

  /** Nothing of a candidate is touched before every earlier one has committed, and nothing commits twice. */
  ghost predicate InOrder(log: seq<Event>) {
    forall i :: 0 <= i < |log| ==>
      && (forall j :: 0 <= j < log[i].candidate ==> Committed(j) in log[..i])
      && (forall j :: 0 <= j < i && log[j].Committed? ==> log[j].candidate < log[i].candidate)
  }

  /** Only copies named by the first `n` candidates are gone. */
  ghost predicate OnlyPlanned(was: World, now: World, plan: seq<Candidate>, n: nat) {
    && now.files <= was.files && now.rows <= was.rows
    && (forall d :: d in was.files - now.files ==>
          exists i :: 0 <= i < |plan| && i < n && plan[i].digest == d && plan[i].file.Some?)
    && (forall d :: d in was.rows - now.rows ==> exists i :: 0 <= i < |plan| && i < n && plan[i].digest == d)
  }

  /** Both copies of the first `n` candidates are gone. */
  ghost predicate Collected(w: World, plan: seq<Candidate>, n: nat)
    requires n <= |plan|
  {
    forall i :: 0 <= i < n ==> plan[i].digest !in w.rows && (plan[i].file.Some? ==> plan[i].digest !in w.files)
  }

  lemma OnlyOneMore(before: World, was: World, now: World, plan: seq<Candidate>, index: nat)
    requires index < |plan| && OnlyPlanned(before, was, plan, index)
    requires now.files == was.files || (now.files == was.files - {plan[index].digest} && plan[index].file.Some?)
    requires now.rows == was.rows || now.rows == was.rows - {plan[index].digest}
    ensures OnlyPlanned(before, now, plan, index + 1) && OnlyPlanned(before, now, plan, |plan|)
    ensures Collected(was, plan, index) && plan[index].digest !in now.rows && (plan[index].file.Some? ==> plan[index].digest !in now.files)
            ==> Collected(now, plan, index + 1)
  {
    forall d | d in before.files - now.files
      ensures exists i :: 0 <= i < |plan| && i < index + 1 && plan[i].digest == d && plan[i].file.Some?
    {
      if d !in before.files - was.files {
        assert plan[index].digest == d;
      }
    }
    forall d | d in before.rows - now.rows
      ensures exists i :: 0 <= i < |plan| && i < index + 1 && plan[i].digest == d
    {
      if d !in before.rows - was.rows {
        assert plan[index].digest == d;
      }
    }
  }

  /** Every check and call of the candidate's transaction succeeds; a planned file must still be there. */
  predicate Passes(candidate: Candidate, turn: Turn) {
    && turn.begun && turn.boundaryBefore && turn.beforeFile
    && (candidate.file.Some? ==> turn.removal.Removed?)
    && turn.afterFile && turn.rowDeleted && turn.afterRow && turn.beforeCommit
    && turn.boundaryInside && turn.commit.Confirmed? && turn.boundaryAfter && turn.afterCommit
  }

  /** Something said that the plan is out of date. */
  predicate SaysStale(candidate: Candidate, turn: Turn) {
    !turn.boundaryBefore || !turn.boundaryInside || !turn.boundaryAfter || (candidate.file.Some? && turn.removal.Vanished?)
  }

  ghost predicate AllPass(plan: seq<Candidate>, turns: nat -> Turn, n: nat)
    requires n <= |plan|
  {
    forall i :: 0 <= i < n ==> Passes(plan[i], turns(i))
  }

  ghost predicate SomeStale(plan: seq<Candidate>, turns: nat -> Turn) {
    exists i :: 0 <= i < |plan| && SaysStale(plan[i], turns(i))
  }

  lemma NonePass(plan: seq<Candidate>, turns: nat -> Turn)
    ensures AllPass(plan, turns, 0)
  {
  }

  lemma TurnDecides(plan: seq<Candidate>, turns: nat -> Turn, index: nat)
    requires index < |plan|
    ensures AllPass(plan, turns, index) && Passes(plan[index], turns(index)) ==> AllPass(plan, turns, index + 1)
    ensures !Passes(plan[index], turns(index)) ==> !AllPass(plan, turns, |plan|)
    ensures SaysStale(plan[index], turns(index)) ==> SomeStale(plan, turns)
  {
    hide Passes, SaysStale;
  }

  /**
   One candidate's transaction. `touched` are the events of this turn; `result`
   and `world` are what the run goes on with, or ends with when `fault` is set.
   */
  method CollectOne(index: nat, candidate: Candidate, turn: Turn, was: Result, before: World)
    returns (result: Result, world: World, touched: seq<Event>, fault: Option<Fault>)
    requires Counted(was) && was.deletedCount == index < was.candidateCount
    ensures Counted(result) && result.candidateCount == was.candidateCount
    ensures result.deletedCount == was.deletedCount + (if Committed(index) in touched then 1 else 0)
    ensures fault.None? ==> Committed(index) in touched
    ensures fault.None? <==> Passes(candidate, turn)
    ensures fault == Some(Stale) ==> SaysStale(candidate, turn)
    ensures result.physicalMutation == (was.physicalMutation || FileTouched(index) in touched || RowTouched(index) in touched)
    ensures fault.Some? ==> (fault.value.Partial? <==> result.deletedCount > 0 || result.physicalMutation)
    ensures TurnOf(touched, index)
    ensures touched != [] <==>
            FileTouched(index) in touched || RowTouched(index) in touched || Committed(index) in touched
    ensures world.files == before.files || (world.files == before.files - {candidate.digest} && FileTouched(index) in touched)
    ensures world.files != before.files ==> candidate.file.Some?
    ensures world.rows == before.rows || (world.rows == before.rows - {candidate.digest} && RowTouched(index) in touched)
    ensures Committed(index) in touched ==> candidate.digest !in world.rows
    ensures Committed(index) in touched && candidate.file.Some? ==> candidate.digest !in world.files
  {
    result, world, touched := was, before, [];
    if !turn.begun {
      return result, world, touched, Some(FinishFailure(result, Plain));
    }
    if !turn.boundaryBefore {
      return result, world, touched, Some(FinishFailure(result, Stale));
    }
    if !turn.beforeFile {
      return result, world, touched, Some(FinishFailure(result, Plain));
    }
    if candidate.file.Some? {
      var removed := turn.removal.Removed? || turn.removal.RemovedUnsure?;
      if removed {
        touched := [FileTouched(index)];
        result := result.(physicalMutation := true);
        if turn.removal.Removed? || turn.removal.unlinked {
          world := world.(files := world.files - {candidate.digest});
        }
      }
      if turn.removal.RemovedUnsure? || turn.removal.NotRemoved? {
        return result, world, touched, Some(FinishFailure(result, Plain));
      }
      if !removed {
        // The copy that was planned has vanished: a new plan is needed.
        return result, world, touched, Some(FinishFailure(result, Stale));
      }
    }
    if !turn.afterFile || !turn.rowDeleted || !turn.afterRow || !turn.beforeCommit {
      return result, world, touched, Some(FinishFailure(result, Plain));
    }
    if !turn.boundaryInside {
      return result, world, touched, Some(FinishFailure(result, Stale));
    }
    var rowRemoved := candidate.digest in world.rows;
    if rowRemoved {
      touched := touched + [RowTouched(index)];
      result := result.(physicalMutation := true);
      if turn.commit.Confirmed? || turn.commit.applied {
        world := world.(rows := world.rows - {candidate.digest});
      }
    }
    if turn.commit.Unsure? {
      return result, world, touched, Some(FinishFailure(result, Plain));
    }
    touched := touched + [Committed(index)];
    result := result.(deletedCount := result.deletedCount + 1, remainingCount := result.remainingCount - 1);
    if !turn.boundaryAfter {
      return result, world, touched, Some(FinishFailure(result, Stale));
    }
    if !turn.afterCommit {
      return result, world, touched, Some(FinishFailure(result, Plain));
    }
    return result, world, touched, None;
  }

  /** The candidates committed so far are the first `n`. */
  ghost predicate CommitsAre(log: seq<Event>, n: nat) {
    forall j: nat :: Committed(j) in log <==> j < n
  }

  ghost predicate Below(log: seq<Event>, n: nat) {
    forall e :: e in log ==> e.candidate < n
  }

  /** One turn touches its own candidate only: the file first, then the row, and the commit last. */
  ghost predicate TurnOf(touched: seq<Event>, index: nat) {
    && (forall e :: e in touched ==> e.candidate == index)
    && (forall k :: 0 <= k < |touched| && touched[k].Committed? ==> k == |touched| - 1)
    && (forall k :: 0 <= k < |touched| && touched[k].FileTouched? ==> k == 0)
  }

  lemma TurnExtends(log: seq<Event>, touched: seq<Event>, index: nat)
    requires InOrder(log) && CommitsAre(log, index) && Below(log, index) && TurnOf(touched, index)
    ensures InOrder(log + touched) && Below(log + touched, index + 1)
    ensures CommitsAre(log + touched, if Committed(index) in touched then index + 1 else index)
  {
    OrderExtends(log, touched, index);
  }

  lemma OrderExtends(log: seq<Event>, touched: seq<Event>, index: nat)
    requires InOrder(log) && CommitsAre(log, index) && Below(log, index) && TurnOf(touched, index)
    ensures InOrder(log + touched)
  {
    var all := log + touched;
    forall i | 0 <= i < |all|
      ensures forall j :: 0 <= j < all[i].candidate ==> Committed(j) in all[..i]
      ensures forall j :: 0 <= j < i && all[j].Committed? ==> all[j].candidate < all[i].candidate
    {
      if i < |log| {
        assert all[..i] == log[..i];
      } else {
        assert all[i] == touched[i - |log|] && all[i] in touched;
        assert all[..i] == log + touched[..i - |log|];
        forall j | 0 <= j < i && all[j].Committed?
          ensures all[j].candidate < all[i].candidate
        {
          if j < |log| {
            assert log[j] in log;
          } else {
            assert false;
          }
        }
      }
    }
  }

  lemma NothingYet(before: World, plan: seq<Candidate>)
    ensures OnlyPlanned(before, before, plan, 0) && OnlyPlanned(before, before, plan, |plan|)
    ensures InOrder([]) && CommitsAre([], 0) && Below([], 0) && Collected(before, plan, 0)
  {
  }

  /** The loop over the plan's candidates. */
  method CollectAll(plan: seq<Candidate>, turns: nat -> Turn, before: World)
    returns (result: Result, world: World, log: seq<Event>, fault: Option<Fault>)
    ensures Counted(result) && result.candidateCount == |plan|
    ensures OnlyPlanned(before, world, plan, |plan|) && InOrder(log) && CommitsAre(log, result.deletedCount)
    ensures result.physicalMutation || result.deletedCount > 0 <==> log != []
    ensures log == [] ==> world == before
    ensures fault.Some? ==> (fault.value.Partial? <==> log != [])
    ensures fault.None? ==> result.deletedCount == |plan| && Collected(world, plan, |plan|)
    ensures fault.None? <==> AllPass(plan, turns, |plan|)
    ensures fault == Some(Stale) ==> SomeStale(plan, turns)
  {
    hide OnlyPlanned, InOrder, CommitsAre, Below, TurnOf, Collected, Passes, SaysStale, AllPass, SomeStale;
    world, log := before, [];
    NothingYet(before, plan);
    NonePass(plan, turns);
    result := Result(|plan|, 0, |plan|, false, false);
    var index := 0;
    while index < |plan|
      invariant 0 <= index <= |plan|
      invariant Counted(result) && result.candidateCount == |plan| && result.deletedCount == index
      invariant OnlyPlanned(before, world, plan, index) && InOrder(log)
      invariant Below(log, index) && CommitsAre(log, index)
      invariant result.physicalMutation || index > 0 <==> log != []
      invariant log == [] ==> world == before
      invariant Collected(world, plan, index)
      invariant AllPass(plan, turns, index)
    {
      ghost var was := world;
      var touched: seq<Event>;
      result, world, touched, fault := CollectOne(index, plan[index], turns(index), result, world);
      TurnDecides(plan, turns, index);
      TurnExtends(log, touched, index);
      log := log + touched;
      OnlyOneMore(before, was, world, plan, index);
      if fault.Some? {
        return;
      }
      index := index + 1;
    }
    fault := None;
  }

  /** From the last failpoint before the loop to the end. */
  method ApplyPlan(plan: seq<Candidate>, preflight: bool, turns: nat -> Turn, maintained: bool, finalBoundary: bool, before: World)
    returns (result: Result, world: World, log: seq<Event>, fault: Option<Fault>)
    ensures Counted(result) && result.candidateCount == |plan|
    ensures OnlyPlanned(before, world, plan, |plan|) && InOrder(log) && CommitsAre(log, result.deletedCount)
    ensures result.physicalMutation || result.deletedCount > 0 <==> log != []
    ensures log == [] ==> world == before
    ensures fault.Some? ==> (fault.value.Partial? <==> log != [])
    ensures fault.None? ==> result.deletedCount == |plan| && Collected(world, plan, |plan|)
    ensures fault.None? <==> preflight && finalBoundary && AllPass(plan, turns, |plan|)
    ensures fault == Some(Stale) ==> !finalBoundary || SomeStale(plan, turns)
  {
    hide OnlyPlanned, InOrder, CommitsAre, Collected, Passes, SaysStale, AllPass, SomeStale;
    if !preflight {
      NothingYet(before, plan);
      return Result(|plan|, 0, |plan|, false, false), before, [], Some(Plain);
    }
    result, world, log, fault := CollectAll(plan, turns, before);
    if fault.Some? {
      return;
    }
    if !maintained {
      result := result.(maintenanceIncomplete := true);
    }
    if !finalBoundary {
      fault := Some(FinishFailure(result, Stale));
    }
  }

  /**
   The apply half of `Execute`. Whatever the stores answer: deleted and remaining
   add up at every exit, only planned copies go and in plan order, nothing is
   touched without a matching confirmation, an error is `Partial` exactly when a
   physical change was reported or a candidate committed, and hence whenever
   anything did change. A success has removed every planned copy.
   */
  method Execute(plan: seq<Candidate>, apply: bool, confirmed: bool, preflight: bool, preflightBoundary: bool,
                 turns: nat -> Turn, maintained: bool, finalBoundary: bool, before: World)
    returns (result: Result, world: World, log: seq<Event>, fault: Option<Fault>)
    ensures Counted(result)
    ensures OnlyPlanned(before, world, plan, |plan|) && InOrder(log)
    ensures !apply || !confirmed ==> world == before && log == []
    ensures fault.Some? ==> (fault.value.Partial? <==> log != [])
    ensures log == [] ==> world == before
    ensures result.candidateCount == (if preflightBoundary && apply && !confirmed then 0 else |plan|)
    ensures result.physicalMutation || result.deletedCount > 0 <==> log != []
    ensures CommitsAre(log, result.deletedCount)
    ensures apply && fault.None? ==> result.deletedCount == |plan| && Collected(world, plan, |plan|)
    ensures fault.None? <==> preflightBoundary && (apply ==>
              confirmed && preflight && finalBoundary && AllPass(plan, turns, |plan|))
    ensures fault == Some(Stale) ==> !preflightBoundary || !confirmed || !finalBoundary ||
                                     SomeStale(plan, turns)
  {
    NothingYet(before, plan);
    world, log := before, [];
    result := Result(|plan|, 0, |plan|, false, false);
    if !preflightBoundary {
      return result, world, log, Some(Stale);
    }
    if !apply {
      return result, world, log, None;
    }
    if !confirmed {
      return ZERO_RESULT, world, log, Some(Stale);
    }
    result, world, log, fault := ApplyPlan(plan, preflight, turns, maintained, finalBoundary, before);
  }

  // ------------------------------------------------- plan and application

  /** Neither kind of reference holds the locator, and neither count is out of range. */
  predicate Loose(x: Locator) {
    x.authoritativeReferences + x.projectionReferences == 0 && x.authoritativeReferences >= 0 && x.projectionReferences >= 0
  }

  /** The digest names a locator of the capture that nothing references. */
  ghost predicate Garbage(d: Digest, locators: seq<Locator>) {
    exists x :: x in locators && Loose(x) && x.digest == d
  }

  ghost predicate OnlyGarbage(was: World, now: World, locators: seq<Locator>, files: seq<FinalObject>) {
    && now.files <= was.files && now.rows <= was.rows
    && (forall d :: d in was.files - now.files ==> Garbage(d, locators) && exists f :: f in files && f.digest == d)
    && (forall d :: d in was.rows - now.rows ==> Garbage(d, locators))
  }

  ghost predicate GarbageGone(w: World, locators: seq<Locator>, files: seq<FinalObject>) {
    && (forall x :: x in locators && Loose(x) ==> x.digest !in w.rows)
    && (forall x, f :: x in locators && Loose(x) && f in files && f.digest == x.digest ==> x.digest !in w.files)
  }

  lemma PlannedCandidate(resident: ResidentId, locators: seq<Locator>, files: seq<FinalObject>, c: Candidate)
    requires Acceptable(resident, locators, files) && c in Candidates(SortByKey(locators), FileMap(files))
    ensures Garbage(c.digest, locators) && (c.file.Some? ==> exists f :: f in files && f.digest == c.digest)
  {
    PlanIsExact(resident, locators, files);
    hide Acceptable, Candidates, SortByKey, Bytes, FileMap;
    var x :| x in locators && Unreferenced(x) && c == CandidateFor(x, FileMap(files));
    assert Loose(x) && x.digest == c.digest;
  }

  lemma PlannedIsGarbage(resident: ResidentId, locators: seq<Locator>, files: seq<FinalObject>, was: World, now: World)
    requires Acceptable(resident, locators, files)
    requires var plan := Candidates(SortByKey(locators), FileMap(files)); OnlyPlanned(was, now, plan, |plan|)
    ensures OnlyGarbage(was, now, locators, files)
  {
    var plan := Candidates(SortByKey(locators), FileMap(files));
    hide Acceptable, Candidates, SortByKey, Bytes, FileMap, Garbage;
    forall d | d in was.files - now.files
      ensures Garbage(d, locators) && exists f :: f in files && f.digest == d
    {
      var i :| 0 <= i < |plan| && plan[i].digest == d && plan[i].file.Some?;
      PlannedCandidate(resident, locators, files, plan[i]);
    }
    forall d | d in was.rows - now.rows
      ensures Garbage(d, locators)
    {
      var i :| 0 <= i < |plan| && plan[i].digest == d;
      PlannedCandidate(resident, locators, files, plan[i]);
    }
  }

  lemma CollectedIsAllGarbage(resident: ResidentId, locators: seq<Locator>, files: seq<FinalObject>, w: World)
    requires Acceptable(resident, locators, files)
    requires var plan := Candidates(SortByKey(locators), FileMap(files)); Collected(w, plan, |plan|)
    ensures GarbageGone(w, locators, files)
  {
    PlanIsExact(resident, locators, files);
    var plan := Candidates(SortByKey(locators), FileMap(files));
    hide Acceptable, Candidates, SortByKey, Bytes;
    forall x | x in locators && Loose(x)
      ensures x.digest !in w.rows
      ensures forall f :: f in files && f.digest == x.digest ==> x.digest !in w.files
    {
      var c := CandidateFor(x, FileMap(files));
      assert c in plan;
      var i :| 0 <= i < |plan| && plan[i] == c;
    }
  }

  /** The answers a whole invocation meets; `None` is a failed walk or capture. */
  datatype Answers = Answers(
    boundary: bool,
    walked: Option<seq<FinalObject>>,
    captured: Option<seq<Locator>>,
    snapshotCurrent: bool,
    planBoundary: bool,
    preflight: bool,
    turns: nat -> Turn,
    maintained: bool,
    finalBoundary: bool
  )

  /**
   The whole of `Execute`: a fresh walk, capture and plan, then the application of
   a confirmed plan. Content that was referenced at the capture stays, whatever
   the answers; nothing goes unless the confirmation is the digest of the very
   plan these inputs give; and a successful application leaves no garbage.
   */
  method Run(resident: ResidentId, apply: bool, confirm: Option<nat>, digestOf: Plan -> nat, answers: Answers, before: World)
    returns (world: World, log: seq<Event>, fault: Option<Fault>)
    ensures world != before ==>
              && answers.walked.Some? && answers.captured.Some?
              && Acceptable(resident, answers.captured.value, answers.walked.value)
              && OnlyGarbage(before, world, answers.captured.value, answers.walked.value)
    ensures world != before ==>
              var cs := Candidates(SortByKey(answers.captured.value), FileMap(answers.walked.value));
              apply && confirm == Some(digestOf(Plan(cs, Bytes(cs))))
    ensures fault.Some? ==> (fault.value.Partial? <==> log != [])
    ensures log == [] ==> world == before
    ensures fault.None? ==> answers.walked.Some? && answers.captured.Some?
                            && Acceptable(resident, answers.captured.value, answers.walked.value)
    ensures fault.None? && apply ==> GarbageGone(world, answers.captured.value, answers.walked.value)
    ensures fault.None? <==>
              && (apply <==> confirm.Some?) && answers.boundary && answers.walked.Some? && answers.captured.Some?
              && answers.snapshotCurrent && Acceptable(resident, answers.captured.value, answers.walked.value) && answers.planBoundary
              && var cs := Candidates(SortByKey(answers.captured.value), FileMap(answers.walked.value));
                 apply ==>
                   && confirm == Some(digestOf(Plan(cs, Bytes(cs)))) && answers.preflight && answers.finalBoundary
                   && AllPass(cs, answers.turns, |cs|)
  {
    hide Acceptable, OnlyPlanned, Collected, OnlyGarbage, GarbageGone, Candidates, SortByKey, Bytes, FileMap, InOrder, CommitsAre, Counted, Passes, SaysStale, AllPass, SomeStale;
    world, log := before, [];
    if apply != confirm.Some? || !answers.boundary {
      return world, log, Some(Stale);
    }
    if answers.walked.None? || answers.captured.None? {
      return world, log, Some(Plain);
    }
    var locators, files := answers.captured.value, answers.walked.value;
    var built := BuildPlan(answers.snapshotCurrent, resident, locators, files);
    if built.Err? {
      return world, log, Some(Plain);
    }
    var plan := built.value;
    var result: Result;
    result, world, log, fault := Execute(plan.candidates, apply, confirm == Some(digestOf(plan)), answers.preflight, answers.planBoundary,
                                         answers.turns, answers.maintained, answers.finalBoundary, before);
    PlannedIsGarbage(resident, locators, files, before, world);
    if apply && fault.None? {
      CollectedIsAllGarbage(resident, locators, files, world);
    }
  }
}
