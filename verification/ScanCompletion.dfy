/**
 A resident that is left alone becomes complete. Worker turns that nobody
 interrupts and whose passes find no work publish the completeness flag after a
 bounded number of steps, from every reachable state: whatever stale cycle,
 dirty mark or pending rescan is left over is worked off first.
 */
module ScanCompletion {
  import opened Common
  import opened Admission
  import opened MemoryScan
  import opened ScanProtocol
  import opened ScanProgress

  /** A step of an uninterrupted worker turn, or a commit of somebody else. */
  ghost predicate QuietStep(s: Sys, a: Action) {
    && Enabled(s, a)
    && match a
       case OtherCommit => true
       case TakeWorker => true
       case RecordDialogue(cycleEpoch) => cycleEpoch == s.adm.epoch
       case Clear => true
       case Capture => true
       case Phase => true
       case StartNormalCycle => true
       case DiscoverNormal(d, _) => QuietResult(s.holder.turn.ticket.cursor, d)
       case PublishNormalProgress => true
       case StartReCycle => true
       case DiscoverRe(d, _) => QuietResult(s.holder.turn.ticket.cursor, d)
       case PublishReProgress => true
       case CheckNormal => true
       case PublishComplete => true
       case _ => false
  }

  ghost predicate QuietRun(s: Sys, run: seq<Action>, t: Sys)
    decreases |run|
  {
    if run == [] then s == t else QuietStep(s, run[0]) && QuietRun(Apply(s, run[0]), run[1..], t)
  }

  /** The worker's own steps in a run. */
  function Steps(run: seq<Action>): nat {
    if run == [] then 0 else (if run[0] == OtherCommit then 0 else 1) + Steps(run[1..])
  }

  /** The flag is raised and proven at the current epoch. */
  ghost predicate Complete(s: Sys) {
    s.scan.complete && s.proof.Some? && s.proof.value.epoch == s.adm.epoch
  }

  // ------------------------------------------------------------ invariant

  /** An open re-extraction cycle belongs to the normal cycle that opened it, and that one is closed. */
  ghost predicate Paired(s: Sys) {
    s.scan.reActive ==> s.scan.normalComplete == s.scan.reEpoch && s.scan.normalEpoch.None?
  }

  lemma StepKeepsPaired(s: Sys, a: Action)
    requires NormalShape(s) && ReShape(s) && Paired(s) && Enabled(s, a)
    ensures Paired(Apply(s, a))
  {
    hide DiscoveryContract, Observe;
  }

  lemma {:induction false} RunKeepsPaired(s: Sys, run: seq<Action>, t: Sys)
    requires Inv(s) && Paired(s) && Reaches(s, run, t)
    ensures Paired(t)
    decreases |run|
  {
    if run != [] {
      StepKeepsPaired(s, run[0]);
      StepKeepsInv(s, run[0]);
      hide Inv, Enabled, Apply, Paired;
      RunKeepsPaired(Apply(s, run[0]), run[1..], t);
    }
  }

  /** What a turn carries as long as nobody interrupts it. */
  ghost predicate Undisturbed(s: Sys) {
    && (s.holder.Free? || s.holder.Worker?)
    && QuietAt(s)
    && (s.holder.Worker? ==>
          match s.holder.turn
          case AtDialogueEnd => true
          case AtClear => true
          case AtCapture => true
          case AtPhase(e) => e == s.adm.epoch
          case AtStartNormal(e) => e == s.adm.epoch
          case AtDiscoverNormal(e, _) => e == s.adm.epoch && s.scan.normalEpoch.Some?
          case AtUpdateNormal(e, _, _) => e == s.adm.epoch && s.scan.normalEpoch.Some?
          case AtStartRe(e) => e == s.adm.epoch && s.scan.reActive
          case AtDiscoverRe(e, _) => e == s.adm.epoch && s.scan.reActive && (s.scan.reCursor.None? ==> !s.scan.rescanPending)
          case AtUpdateRe(e, _, _) => e == s.adm.epoch && s.scan.reActive && (s.scan.reCursor.None? ==> !s.scan.rescanPending)
          case AtCheckNormal(e) => e == s.adm.epoch && s.scan.normalComplete == Some(e)
          case AtPublish(e) => e == s.adm.epoch)
  }

  // -------------------------------------------------------------- measure

  /** Passes to publication when both cycles have yet to begin, or the second one. */
  function FromRe(head: nat): nat { head + 2 }

  function FromNormal(head: nat): nat { head + 2 + FromRe(head) }

  /** Will the open re-extraction cycle end in publication? */
  predicate Current(s: Sys) {
    s.scan.reEpoch == Some(s.adm.epoch) && (s.scan.rescanPending ==> s.scan.reCursor.None?)
  }

  function PassesLeft(s: Sys, head: nat): int {
    if s.scan.reActive then
      Left(CycleOf(s, Reextraction), head) + if Current(s) then 0 else FromNormal(head)
    else
      Left(CycleOf(s, Normal), head)
      + if s.scan.normalEpoch.None? || s.scan.normalEpoch == Some(s.adm.epoch) then FromRe(head) else FromNormal(head)
  }

  function StepsToPass(holder: Holder): nat {
    match holder
    case Free => 12
    case Worker(AtDialogueEnd) => 11
    case Worker(AtClear) => 10
    case Worker(AtCapture) => 9
    case Worker(AtPhase(_)) => 8
    case Worker(AtStartNormal(_)) => 7
    case Worker(AtDiscoverNormal(_, _)) => 6
    case Worker(AtUpdateNormal(_, _, _)) => 5
    case Worker(AtStartRe(_)) => 4
    case Worker(AtDiscoverRe(_, _)) => 3
    case Worker(AtUpdateRe(_, _, _)) => 2
    case _ => 0
  }

  function Measure(s: Sys, head: nat): int {
    match s.holder
    case Worker(AtCheckNormal(_)) => 2
    case Worker(AtPublish(_)) => 1
    case _ => 13 * PassesLeft(s, head) + StepsToPass(s.holder)
  }

  ghost predicate Ready(s: Sys, head: nat) {
    Inv(s) && Paired(s) && CursorsWithin(s) && Undisturbed(s) && s.head <= head
  }

  lemma LeftIsPositive(s: Sys, q: Queue, head: nat)
    requires CursorsWithin(s) && s.head <= head
    ensures 1 <= Left(CycleOf(s, q), head)
    ensures Left(CycleOf(s, q), head) <= 2 * head + 2
  {
  }

  // ------------------------------------------------------------- progress

  ghost predicate GoesDown(s: Sys, t: Sys, head: nat) {
    Undisturbed(t) && Measure(t, head) < Measure(s, head)
  }

  lemma OpeningGoesDown(s: Sys, a: Action, head: nat)
    requires Ready(s, head) && QuietStep(s, a)
    requires a.TakeWorker? || a.RecordDialogue? || a.Clear? || a.Capture? || a.Phase?
    ensures GoesDown(s, Apply(s, a), head)
  {
    hide Inv, CursorsWithin, Left;
  }

  lemma StartsGoDown(s: Sys, a: Action, head: nat)
    requires Ready(s, head) && QuietStep(s, a) && (a.StartNormalCycle? || a.StartReCycle?)
    ensures GoesDown(s, Apply(s, a), head)
  {
    assert ReShape(s) && NormalShape(s);
    hide Inv, CursorsWithin, Left;
  }

  lemma DiscoveriesGoDown(s: Sys, a: Action, head: nat)
    requires Ready(s, head) && QuietStep(s, a) && (a.DiscoverNormal? || a.DiscoverRe?)
    ensures GoesDown(s, Apply(s, a), head)
  {
    hide Inv, CursorsWithin, Left, DiscoveryContract, Observe;
  }

  lemma NormalPassGoesDown(s: Sys, head: nat)
    requires Ready(s, head) && QuietStep(s, PublishNormalProgress)
    ensures GoesDown(s, ApplyUpdateNormal(s), head)
  {
    NormalPassCounts(s, head);
    LeftIsPositive(s, Normal, head);
    assert ReShape(s) && NormalShape(s) && NormalTracked(s);
    hide Inv, CursorsWithin, Tracks;
    var t := ApplyUpdateNormal(s);
    assert PassesLeft(t, head) < PassesLeft(s, head);
  }

  lemma RePassGoesDown(s: Sys, head: nat)
    requires Ready(s, head) && QuietStep(s, PublishReProgress)
    ensures GoesDown(s, ApplyUpdateRe(s), head)
  {
    RePassCounts(s, head);
    LeftIsPositive(s, Reextraction, head);
    assert ReShape(s) && NormalShape(s) && ReTracked(s);
    hide Inv, CursorsWithin, Tracks;
    var t := ApplyUpdateRe(s);
    assert t.holder.Free? ==> PassesLeft(t, head) < PassesLeft(s, head);
  }

  lemma CheckGoesDown(s: Sys, head: nat)
    requires Ready(s, head) && QuietStep(s, CheckNormal)
    ensures GoesDown(s, Apply(s, CheckNormal), head)
  {
    hide Inv, CursorsWithin, Left;
  }

  lemma StepGoesDown(s: Sys, a: Action, head: nat)
    requires Ready(s, head) && QuietStep(s, a) && a != PublishComplete && Apply(s, a).head <= head
    ensures Ready(Apply(s, a), head)
    ensures Measure(Apply(s, a), head) + (if a == OtherCommit then 0 else 1) <= Measure(s, head)
  {
    StepKeepsInv(s, a);
    StepKeepsCursors(s, a);
    StepKeepsPaired(s, a);
    if a != OtherCommit {
      WorkerStepGoesDown(s, a, head);
      hide Inv, Paired, CursorsWithin, Undisturbed, QuietStep, Enabled, Apply, Measure;
    } else {
      hide Inv, Paired, CursorsWithin, Left;
    }
  }

  lemma WorkerStepGoesDown(s: Sys, a: Action, head: nat)
    requires Ready(s, head) && QuietStep(s, a) && a != PublishComplete && a != OtherCommit
    ensures GoesDown(s, Apply(s, a), head)
  {
    hide Ready, GoesDown, Enabled, ApplyUpdateNormal, ApplyUpdateRe;
    match a
    case StartNormalCycle => StartsGoDown(s, a, head);
    case StartReCycle => StartsGoDown(s, a, head);
    case DiscoverNormal(_, _) => DiscoveriesGoDown(s, a, head);
    case DiscoverRe(_, _) => DiscoveriesGoDown(s, a, head);
    case PublishNormalProgress => NormalPassGoesDown(s, head);
    case PublishReProgress => RePassGoesDown(s, head);
    case CheckNormal => CheckGoesDown(s, head);
    case _ => OpeningGoesDown(s, a, head);
  }

  lemma MeasureIsBounded(s: Sys, head: nat)
    requires CursorsWithin(s) && s.head <= head
    ensures 0 < Measure(s, head) <= 52 * head + 90
  {
    LeftIsPositive(s, Normal, head);
    LeftIsPositive(s, Reextraction, head);
    hide CursorsWithin, Left, CycleOf;
  }

  lemma HeadGrows(s: Sys, a: Action)
    requires Enabled(s, a)
    ensures s.head <= Apply(s, a).head
  {
    hide DiscoveryContract, Observe, UpdateNormal, UpdateRe, StartNormal, StartRe;
  }

  lemma {:induction false} QuietRunGrows(s: Sys, run: seq<Action>, t: Sys)
    requires QuietRun(s, run, t)
    ensures s.head <= t.head
    decreases |run|
  {
    if run != [] {
      HeadGrows(s, run[0]);
      hide Enabled, Apply;
      QuietRunGrows(Apply(s, run[0]), run[1..], t);
    }
  }

  lemma {:induction false} QuietRunGoesDown(s: Sys, run: seq<Action>, t: Sys)
    requires Ready(s, t.head) && QuietRun(s, run, t) && PublishComplete !in run
    ensures Ready(t, t.head) && Steps(run) + Measure(t, t.head) <= Measure(s, t.head)
    decreases |run|
  {
    if run != [] {
      var next := Apply(s, run[0]);
      assert run[0] in run && forall a :: a in run[1..] ==> a in run;
      QuietRunGrows(next, run[1..], t);
      StepGoesDown(s, run[0], t.head);
      hide Ready, QuietStep, Apply, Measure;
      QuietRunGoesDown(next, run[1..], t);
    }
  }

  // ------------------------------------------------------------- theorems

  /** A sweep that finds nothing up to its ceiling. */
  function CleanResult(): Discovery {
    Discovery(false, None, true)
  }

  function CeilingOf(cursor: Option<Cursor>, head: nat): nat {
    if cursor.Some? then cursor.value.ceiling else head
  }

  function NextAction(s: Sys): Action {
    match s.holder
    case Worker(AtDialogueEnd) => RecordDialogue(s.adm.epoch)
    case Worker(AtClear) => Clear
    case Worker(AtCapture) => Capture
    case Worker(AtPhase(_)) => Phase
    case Worker(AtStartNormal(_)) => StartNormalCycle
    case Worker(AtDiscoverNormal(_, ticket)) => DiscoverNormal(CleanResult(), CeilingOf(ticket.cursor, s.head))
    case Worker(AtUpdateNormal(_, _, _)) => PublishNormalProgress
    case Worker(AtStartRe(_)) => StartReCycle
    case Worker(AtDiscoverRe(_, ticket)) => DiscoverRe(CleanResult(), CeilingOf(ticket.cursor, s.head))
    case Worker(AtUpdateRe(_, _, _)) => PublishReProgress
    case Worker(AtCheckNormal(_)) => CheckNormal
    case Worker(AtPublish(_)) => PublishComplete
    case _ => TakeWorker
  }

  lemma NeverStuck(s: Sys)
    requires CursorsWithin(s) && (s.holder.Free? || s.holder.Worker?)
    ensures QuietStep(s, NextAction(s)) && NextAction(s) != OtherCommit
  {
  }

  lemma PublishesProof(s: Sys)
    requires Inv(s) && Undisturbed(s) && Enabled(s, PublishComplete)
    ensures Complete(Apply(s, PublishComplete))
  {
    hide DiscoveryContract;
  }

  lemma FreshlyReady(prefix: seq<Action>, s: Sys, head: nat)
    requires Reaches(Init(), prefix, s) && s.holder.Free? && s.head <= head
    ensures Ready(s, head)
  {
    RunKeepsInv(Init(), prefix, s);
    RunKeepsCursors(Init(), prefix, s);
    RunKeepsPaired(Init(), prefix, s);
    hide Reaches, Inv, CursorsWithin;
  }

  /**
   From any reachable state with a free lock, however worker turns without
   ingress, boundary or Admin step go on, with passes that find no work: they have
   taken a bounded number of steps before they publish, they can always take
   another one, and publishing raises the flag with a proof at the current epoch.
   */
  lemma QuietTurnsPublish(prefix: seq<Action>, s: Sys, run: seq<Action>, t: Sys)
    requires Reaches(Init(), prefix, s) && s.holder.Free?
    requires QuietRun(s, run, t) && PublishComplete !in run
    ensures Steps(run) < 52 * t.head + 90
    ensures exists a :: a != OtherCommit && QuietStep(t, a)
    ensures Enabled(t, PublishComplete) ==> Complete(Apply(t, PublishComplete))
  {
    QuietRunGrows(s, run, t);
    FreshlyReady(prefix, s, t.head);
    QuietRunGoesDown(s, run, t);
    MeasureIsBounded(s, t.head);
    MeasureIsBounded(t, t.head);
    NeverStuck(t);
    if Enabled(t, PublishComplete) {
      PublishesProof(t);
    }
  }

  lemma {:induction false} GoOn(s: Sys) returns (run: seq<Action>, t: Sys)
    requires Ready(s, s.head)
    ensures Reaches(s, run, t) && Complete(t)
    decreases Measure(s, s.head)
  {
    var a := NextAction(s);
    NeverStuck(s);
    MeasureIsBounded(s, s.head);
    if a == PublishComplete {
      PublishesProof(s);
      run, t := [a], Apply(s, a);
      assert Reaches(t, [], t) && run[1..] == [];
    } else {
      SameHead(s);
      StepGoesDown(s, a, s.head);
      MeasureIsBounded(Apply(s, a), s.head);
      hide Ready, QuietStep, Apply, Measure, Complete;
      run, t := GoOn(Apply(s, a));
      assert ([a] + run)[1..] == run;
      run := [a] + run;
    }
  }

  lemma SameHead(s: Sys)
    requires Enabled(s, NextAction(s))
    ensures Apply(s, NextAction(s)).head == s.head
  {
    hide DiscoveryContract, Observe, UpdateNormal, UpdateRe, StartNormal, StartRe;
  }

  /** Every reachable state with a free lock can become complete. */
  lemma CompletionIsReachable(prefix: seq<Action>, s: Sys) returns (run: seq<Action>, t: Sys)
    requires Reaches(Init(), prefix, s) && s.holder.Free?
    ensures Reaches(s, run, t) && Complete(t)
  {
    FreshlyReady(prefix, s, s.head);
    run, t := GoOn(s);
  }
}
