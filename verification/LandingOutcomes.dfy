/**
 What goes through when nothing is in the way. The safety theorems would hold of
 a program that refused everything; here each operation, left undisturbed, is
 shown to succeed exactly when its conditions hold.
 */
module LandingOutcomes {
  import opened Common
  import opened Admission
  import opened LandingProtocol

  // ------------------------------------------- operations under the lock

  lemma NoSteps(s: Sys)
    ensures Reaches(s, [], s)
  {
  }

  lemma ThenDo(from: Sys, run: seq<Action>, s: Sys, a: Action) returns (longer: seq<Action>, t: Sys)
    requires Reaches(from, run, s) && Enabled(s, a)
    ensures Reaches(from, longer, t) && t == Apply(s, a) && longer == run + [a]
  {
    Extend(from, run, s, a);
    longer, t := run + [a], Apply(s, a);
  }

  lemma ThenIngress(from: Sys, run: seq<Action>, s: Sys, i: IngressStep) returns (longer: seq<Action>, t: Sys)
    requires Reaches(from, run, s) && s.holder == IngressBefore(i) && (i == CommitIngress ==> Eligible(s))
    ensures Reaches(from, longer, t) && t == ApplyIngress(s, i) && longer == run + [Ingress(i)]
  {
    longer, t := ThenDo(from, run, s, Ingress(i));
  }

  lemma ThenLanding(from: Sys, run: seq<Action>, s: Sys, l: LandingStep) returns (longer: seq<Action>, t: Sys)
    requires Reaches(from, run, s) && LandingEnabled(s, l)
    ensures Reaches(from, longer, t) && t == ApplyLanding(s, l) && longer == run + [Landing(l)]
  {
    longer, t := ThenDo(from, run, s, Landing(l));
  }

  lemma ThenMutation(from: Sys, run: seq<Action>, s: Sys, m: MutationStep) returns (longer: seq<Action>, t: Sys)
    requires Reaches(from, run, s) && MutationEnabled(s, m)
    ensures Reaches(from, longer, t) && t == ApplyMutation(s, m) && longer == run + [Mutation(m)]
  {
    longer, t := ThenDo(from, run, s, Mutation(m));
  }

  lemma ThenLeave(from: Sys, run: seq<Action>, s: Sys) returns (longer: seq<Action>, t: Sys)
    requires Reaches(from, run, s) && Enabled(s, LeaveLock)
    ensures Reaches(from, longer, t) && t == Move(s, Unlocked) && longer == run + [LeaveLock]
  {
    longer, t := ThenDo(from, run, s, LeaveLock);
  }

  lemma IngressChecked(s: Sys) returns (run: seq<Action>, t: Sys)
    requires s.holder == Unlocked
    ensures Reaches(s, run, t) && forall a :: a in run ==> a.Ingress?
    ensures t == Move(s, if !FencedOff(s) && Eligible(s) then IngressSelected else Unlocked)
  {
    hide Reaches, Apply;
    NoSteps(s);
    run, t := ThenIngress(s, [], s, EnterIngress);
    assert t == Move(s, IngressEntered);
    run, t := ThenIngress(s, run, Move(s, IngressEntered), CheckIngressFence);
    assert t == Move(s, if FencedOff(s) then Unlocked else IngressUnfenced);
    if !FencedOff(s) {
      run, t := ThenIngress(s, run, Move(s, IngressUnfenced), CheckIngressSelection(true));
    }
  }

  lemma IngressGoesOn(from: Sys, before: seq<Action>, s: Sys) returns (run: seq<Action>, t: Sys)
    requires Reaches(from, before, s) && s.holder == IngressSelected && Eligible(s) && forall a :: a in before ==> a.Ingress?
    ensures Reaches(from, run, t) && t.holder == Unlocked && forall a :: a in run ==> a.Ingress? || a.LeaveLock?
    ensures t.log == s.log + [IngressCommit(true, Active)] && t.committed == s.committed + 1 && t.adm.epoch == s.adm.epoch + 1
  {
    hide Reaches, Apply;
    run, t := ThenIngress(from, before, s, SubmitIngress);
    run, t := ThenIngress(from, run, t, CommitIngress);
    run, t := ThenIngress(from, run, t, BumpEpoch);
    run, t := ThenLeave(from, run, t);
  }

  /** An ingress left to itself commits, and advances the epoch, exactly when the resident is unfenced, selected and active. */
  lemma UndisturbedIngressExactly(s: Sys) returns (run: seq<Action>, t: Sys)
    requires s.holder == Unlocked
    ensures Reaches(s, run, t) && t.holder == Unlocked && forall a :: a in run ==> a.Ingress? || a.LeaveLock?
    ensures if !FencedOff(s) && Eligible(s)
            then t.log == s.log + [IngressCommit(true, Active)] && t.committed == s.committed + 1 && t.adm.epoch == s.adm.epoch + 1
            else t == s
  {
    run, t := IngressChecked(s);
    hide Reaches, Apply, FencedOff;
    if !FencedOff(s) && Eligible(s) {
      run, t := IngressGoesOn(s, run, t);
    }
  }

  lemma LandingChecked(s: Sys, lease: Lease) returns (run: seq<Action>, t: Sys)
    requires s.holder == Unlocked && lease in s.leases
    ensures Reaches(s, run, t) && forall a :: a in run ==> a.Landing?
    ensures t == Move(s, if !FencedOff(s) && Eligible(s) && s.adm.epoch == lease.epoch && lease.id !in s.preempted
                         then LandingSelected(lease) else Unlocked)
  {
    hide Reaches, Apply;
    NoSteps(s);
    run, t := ThenLanding(s, [], s, EnterLanding(lease));
    assert t == Move(s, LandingEntered(lease));
    run, t := ThenLanding(s, run, Move(s, LandingEntered(lease)), CheckLandingFence);
    var passes := !FencedOff(s) && s.adm.epoch == lease.epoch && lease.id !in s.preempted;
    assert t == Move(s, if passes then LandingUnfenced(lease) else Unlocked);
    if passes {
      run, t := ThenLanding(s, run, Move(s, LandingUnfenced(lease)), CheckLandingSelection(true));
    }
  }

  /**
   The landing of a lease, left to itself, commits exactly when the resident is
   unfenced, selected and active, the epoch is still the lease's and its call was
   not preempted. Whether the call is still the current entry does not matter.
   */
  lemma UndisturbedLandingExactly(s: Sys, lease: Lease) returns (run: seq<Action>, t: Sys)
    requires s.holder == Unlocked && lease in s.leases
    ensures Reaches(s, run, t) && t.holder == Unlocked && forall a :: a in run ==> a.Landing? || a.LeaveLock?
    ensures if !FencedOff(s) && Eligible(s) && s.adm.epoch == lease.epoch && lease.id !in s.preempted
            then |t.log| == |s.log| + 1 && t.log[..|s.log|] == s.log && t.log[|s.log|].LandingCommit? && t.adm == s.adm
            else t == s
  {
    run, t := LandingChecked(s, lease);
    hide Reaches, Apply, FencedOff;
    if t.holder.LandingSelected? {
      run, t := ThenLanding(s, run, Move(s, LandingSelected(lease)), CommitLanding);
      run, t := ThenLeave(s, run, t);
    }
  }

  lemma MutationChecked(s: Sys, c: Capture, requireClean: bool) returns (run: seq<Action>, t: Sys)
    requires s.holder == Unlocked && c in s.captures
    ensures Reaches(s, run, t) && forall a :: a in run ==> a.Mutation?
    ensures t == Move(s, if Eligible(s) then MutationSelected(c, requireClean) else Unlocked)
  {
    hide Reaches, Apply;
    NoSteps(s);
    run, t := ThenMutation(s, [], s, EnterMutation(c, requireClean));
    assert t == Move(s, MutationEntered(c, requireClean));
    run, t := ThenMutation(s, run, Move(s, MutationEntered(c, requireClean)), CheckMutationSelection(true));
  }

  /**
   A mutation left to itself registers its call and commits exactly when the
   resident is selected and active, unfenced, still at the captured epoch, and, if
   it requires that, the dialogue proof of this epoch has been recorded.
   */
  lemma UndisturbedMutationExactly(s: Sys, c: Capture, requireClean: bool) returns (run: seq<Action>, t: Sys)
    requires s.holder == Unlocked && c in s.captures
    ensures Reaches(s, run, t) && t.holder == Unlocked && forall a :: a in run ==> a.Mutation? || a.LeaveLock?
    ensures if Eligible(s) && !FencedOff(s) && s.adm.epoch == c.epoch && (requireClean ==> s.adm.clean == Some(c.epoch))
            then |t.log| == |s.log| + 1 && t.log[..|s.log|] == s.log && t.log[|s.log|].MutationCommit? && t.adm.call == Some(s.nextCall)
            else t.log == s.log && t.adm == s.adm
  {
    run, t := MutationChecked(s, c, requireClean);
    hide Reaches, Apply;
    if Eligible(s) {
      run, t := ThenMutation(s, run, Move(s, MutationSelected(c, requireClean)), RegisterMutation);
      if t.holder.MutationRegistered? {
        run, t := ThenMutation(s, run, t, CommitMutation);
        run, t := ThenLeave(s, run, t);
      }
    }
  }

  // ---------------------------------------------------------- boundaries

  /** A selection of an active resident that succeeds leaves it selected and open, whatever fenced it before. */
  lemma SelectionOpens(s: Sys, previousKnown: bool) returns (run: seq<Action>, t: Sys)
    requires s.holder == Unlocked && s.boundary.kind == Idle && s.status == Active
    ensures Reaches(s, run, t) && t.holder == Unlocked && t.boundary.kind == Idle
    ensures Eligible(t) && !FencedOff(t) && !t.unknownArchive && !t.unknownSelection
  {
    run, t := Follow(s, [], s, Lifecycle(BeginSelection(true, previousKnown)));
    run, t := Follow(s, run, t, Lifecycle(LockBoundary));
    run, t := Follow(s, run, t, Lifecycle(ChangeSelection(true, true)));
    run, t := Follow(s, run, t, Lifecycle(SettleSelection(true)));
    run, t := Follow(s, run, t, Lifecycle(EndBoundary));
  }

  /** An archive that fails and is re-read gives the resident back its former fence, or lack of one. */
  lemma FailedArchiveRestores(s: Sys) returns (run: seq<Action>, t: Sys)
    requires s.holder == Unlocked && s.boundary.kind == Idle && s.status != Archived
    ensures Reaches(s, run, t) && t.holder == Unlocked && t.boundary.kind == Idle
    ensures t.selected == s.selected && t.status == s.status && t.adm.blocked == s.adm.blocked && t.selectionBlocked == s.selectionBlocked
    ensures t.adm.epoch == s.adm.epoch + 1 && t.adm.clean == None
  {
    run, t := Follow(s, [], s, Lifecycle(BeginArchive));
    run, t := Follow(s, run, t, Lifecycle(LockBoundary));
    run, t := Follow(s, run, t, Lifecycle(ChangeArchive(false, false)));
    run, t := Follow(s, run, t, Lifecycle(SettleArchive(true)));
    run, t := Follow(s, run, t, Lifecycle(EndBoundary));
  }

  // ------------------------------------------------------------ calls

  /** A step that registers no call. */
  predicate RegistersNone(a: Action) {
    !(a.Worker? && a.worker.BeginCall?) && !(a.Mutation? && a.mutation.RegisterMutation?)
  }

  lemma WorkerLeavesCall(s: Sys, w: WorkerStep, id: CallId)
    requires s.adm.call == Some(id) && !w.BeginCall? && w != EndCall(id)
    ensures ApplyWorker(s, w).adm.call == Some(id)
  {
    hide TryCall;
    match w
    case EnterWork =>
    case CaptureEpoch =>
    case EndCall(_) =>
  }

  lemma MutationLeavesCall(s: Sys, m: MutationStep)
    requires MutationEnabled(s, m) && !m.RegisterMutation?
    ensures ApplyMutation(s, m).adm == s.adm
  {
    hide TryMutation, Eligible, Since;
    match m
    case EnterMutation(_, _) =>
    case CheckMutationSelection(_) =>
    case CommitMutation =>
  }

  lemma LandingLeavesCall(s: Sys, l: LandingStep)
    requires LandingEnabled(s, l)
    ensures ApplyLanding(s, l).adm == s.adm
  {
    hide FencedOff, Eligible, Since;
    match l
    case EnterLanding(_) =>
    case CheckLandingFence =>
    case CheckLandingSelection(_) =>
    case CommitLanding =>
  }

  lemma FencesLeaveCall(a: Standing)
    ensures Fence(a).call == a.call && Preempt(a).call == a.call
  {
  }

  lemma BoundariesLeaveCall(s: Sys, forR: bool, previousKnown: bool)
    ensures FenceSelection(s, forR, previousKnown).adm.call == s.adm.call && FenceArchive(s).adm.call == s.adm.call
  {
    FencesLeaveCall(s.adm);
    hide Covers, Current, Fence;
  }

  lemma SettlingLeavesCall(s: Sys, reread: bool)
    ensures SettleSelected(s, reread).adm.call == s.adm.call && SettleArchived(s, reread).adm.call == s.adm.call
  {
  }

  lemma LifecycleLeavesCall(s: Sys, l: LifecycleStep)
    ensures ApplyLifecycle(s, l).adm.call == s.adm.call
  {
    hide FenceSelection, FenceArchive, SettleSelected, SettleArchived;
    match l
    case BeginSelection(forR, previousKnown) => BoundariesLeaveCall(s, forR, previousKnown);
    case BeginArchive => BoundariesLeaveCall(s, false, false);
    case LockBoundary =>
    case ChangeSelection(_, _) =>
    case ChangeArchive(_, _) =>
    case SettleSelection(reread) => SettlingLeavesCall(s, reread);
    case SettleArchive(reread) => SettlingLeavesCall(s, reread);
    case EndBoundary =>
    case Activate =>
  }

  lemma IngressLeavesCall(s: Sys, i: IngressStep)
    ensures ApplyIngress(s, i).adm.call == s.adm.call
  {
    FencesLeaveCall(s.adm);
    hide FencedOff, Eligible, Current, Preempt;
    match i
    case EnterIngress =>
    case CheckIngressFence =>
    case CheckIngressSelection(_) =>
    case SubmitIngress =>
    case CommitIngress =>
    case BumpEpoch =>
  }

  lemma DialogueLeavesCall(s: Sys, d: DialogueStep)
    requires DialogueEnabled(s, d)
    ensures ApplyDialogue(s, d).adm.call == s.adm.call
  {
    RecordLeavesCall(s.adm);
    hide DialogueContract, RecordClean;
    match d
    case StartCycle =>
    case DiscoverDialogue(_) =>
    case RecordCycle =>
    case FinishDialogue(_) =>
  }

  lemma RecordLeavesCall(a: Standing)
    ensures forall expected :: RecordClean(a, expected).call == a.call
  {
  }

  lemma StepLeavesCall(s: Sys, a: Action, id: CallId)
    requires Enabled(s, a) && s.adm.call == Some(id) && RegistersNone(a) && a != Worker(EndCall(id))
    ensures Apply(s, a).adm.call == Some(id)
  {
    hide ApplyIngress, ApplyWorker, ApplyMutation, ApplyLanding, ApplyLifecycle, ApplyDialogue;
    hide MutationEnabled, LandingEnabled, LifecycleEnabled, DialogueEnabled, IngressBefore;
    match a
    case Ingress(i) => IngressLeavesCall(s, i);
    case Worker(w) => WorkerLeavesCall(s, w, id);
    case Mutation(m) => MutationLeavesCall(s, m);
    case Landing(l) => LandingLeavesCall(s, l);
    case Lifecycle(l) => LifecycleLeavesCall(s, l);
    case Dialogue(d) => DialogueLeavesCall(s, d);
    case LeaveLock =>
  }

  /**
   The current call entry outlives everything but its own end and a later
   registration: calls that it overwrote may finish, and ingress and boundaries
   may preempt it, and it is still the entry.
   */
  lemma {:induction false} CallStandsUntilItsEnd(s: Sys, run: seq<Action>, t: Sys, id: CallId)
    requires Reaches(s, run, t) && s.adm.call == Some(id)
    requires forall a :: a in run ==> RegistersNone(a) && a != Worker(EndCall(id))
    ensures t.adm.call == Some(id)
    decreases |run|
  {
    if run != [] {
      assert run[0] in run && forall a :: a in run[1..] ==> a in run;
      StepLeavesCall(s, run[0], id);
      CallStandsUntilItsEnd(Apply(s, run[0]), run[1..], t, id);
    }
  }

  lemma ThenDialogue(from: Sys, run: seq<Action>, s: Sys, d: DialogueStep) returns (longer: seq<Action>, t: Sys)
    requires Reaches(from, run, s) && DialogueEnabled(s, d)
    ensures Reaches(from, longer, t) && t == ApplyDialogue(s, d)
  {
    longer, t := Follow(from, run, s, Dialogue(d));
  }

  lemma ThenStart(from: Sys, run: seq<Action>, s: Sys) returns (longer: seq<Action>, t: Sys)
    requires Reaches(from, run, s) && !s.recording
    ensures Reaches(from, longer, t)
    ensures t == s.(cycle := Some(if s.cycle.Some? then s.cycle.value else Cycle(s.adm.epoch, None, s.committed)))
  {
    longer, t := ThenDialogue(from, run, s, StartCycle);
    hide Reaches;
  }

  lemma ThenFinish(from: Sys, run: seq<Action>, s: Sys) returns (longer: seq<Action>, t: Sys)
    requires Reaches(from, run, s) && s.unfinished == {} && s.cycle.Some? && !s.recording
    ensures Reaches(from, longer, t) && t == s.(recording := true)
  {
    longer, t := ThenDialogue(from, run, s, DiscoverDialogue(DialogueResult(false, None, true)));
    hide Reaches;
  }

  lemma ThenRecord(from: Sys, run: seq<Action>, s: Sys) returns (longer: seq<Action>, t: Sys)
    requires Reaches(from, run, s) && s.recording && s.cycle.Some?
    ensures Reaches(from, longer, t) && t.unfinished == s.unfinished && !t.recording && t.cycle == None
    ensures t.adm == if s.cycle.value.epoch == s.adm.epoch then s.adm.(clean := Some(s.adm.epoch)) else s.adm
  {
    longer, t := ThenDialogue(from, run, s, RecordCycle);
    hide Reaches;
  }

  lemma CycleRecords(from: Sys, before: seq<Action>, s: Sys) returns (run: seq<Action>, t: Sys)
    requires Reaches(from, before, s) && s.unfinished == {} && !s.recording
    ensures Reaches(from, run, t) && t.unfinished == {} && !t.recording && t.cycle == None && t.adm.epoch == s.adm.epoch
    ensures s.cycle.None? ==> t.adm.clean == Some(t.adm.epoch)
  {
    hide Reaches;
    run, t := ThenStart(from, before, s);
    run, t := ThenFinish(from, run, t);
    run, t := ThenRecord(from, run, t);
  }

  /** Once no dialogue is unfinished, scanning alone records the proof for the current epoch, whatever stale cycle is open. */
  lemma CleanProofIsReached(start: Sys, prefix: seq<Action>, s: Sys) returns (run: seq<Action>, t: Sys)
    requires Initial(start) && Reaches(start, prefix, s) && s.unfinished == {}
    ensures Reaches(s, run, t) && t.adm.epoch == s.adm.epoch && t.adm.clean == Some(s.adm.epoch)
  {
    RunKeepsInv(start, prefix, s);
    assert CycleProgress(s.cycle, s.recording, s.adm.epoch, InWindow(s), s.committed, s.unfinished);
    NoSteps(s);
    hide Inv, Initial, Reaches;
    run, t := [], s;
    if s.recording {
      run, t := ThenRecord(s, run, t);
    }
    run, t := CycleRecords(s, run, t);
    run, t := CycleRecords(s, run, t);
  }

  /**
   A call that requires a clean dialogue is admitted exactly for an unfenced
   resident at the captured epoch whose dialogue scan has recorded its proof at
   this epoch; outside an ingress window no dialogue is unfinished then.
   */
  lemma CleanCallIsAdmittedExactly(start: Sys, prefix: seq<Action>, s: Sys, c: Capture)
    requires Initial(start) && Reaches(start, prefix, s) && c in s.captures
    ensures var t := Apply(s, Worker(BeginCall(c, true)));
            if !FencedOff(s) && s.adm.epoch == c.epoch && s.adm.clean == Some(s.adm.epoch)
            then t.adm == s.adm.(call := Some(s.nextCall)) && t.preempted == s.preempted && (!InWindow(s) ==> s.unfinished == {})
            else t.adm == s.adm && t.leases == s.leases && s.nextCall in t.preempted
  {
    RunKeepsInv(start, prefix, s);
    assert CleanProof(s.adm.clean, s.adm.epoch, InWindow(s), s.cleanIngress, s.committed, s.unfinished);
    hide Inv, Reaches, Initial;
  }

  // -------------------------------------------------------- preemption

  /** The current call has been preempted or was registered at the epoch that still stands. */
  ghost predicate CallIsTimely(call: Option<CallId>, epoch: nat, preempted: set<CallId>, leases: set<Lease>) {
    call.Some? ==> call.value in preempted || exists l :: l in leases && l.id == call.value && l.epoch == epoch
  }

  ghost predicate Timely(s: Sys) {
    CallIsTimely(s.adm.call, s.adm.epoch, s.preempted, s.leases)
  }

  lemma TryCallStaysTimely(s: Sys, c: Capture, requireClean: bool)
    requires Timely(s)
    ensures Timely(TryCall(s, c, requireClean))
  {
    var t := TryCall(s, c, requireClean);
    if Admits(s.adm, s.selectionBlocked, c.epoch, true, requireClean) {
      assert Lease(s.nextCall, c.epoch, c.ingress, s.boundaries) in t.leases;
    }
  }

  lemma WorkerStaysTimely(s: Sys, w: WorkerStep)
    requires Timely(s)
    ensures Timely(ApplyWorker(s, w))
  {
    hide TryCall, CallIsTimely;
    match w
    case EnterWork =>
    case CaptureEpoch =>
    case BeginCall(c, requireClean) => TryCallStaysTimely(s, c, requireClean);
    case EndCall(id) => EndStaysTimely(s, id);
  }

  lemma EndStaysTimely(s: Sys, id: CallId)
    requires Timely(s)
    ensures CallIsTimely(FinishCall(s.adm, id).call, FinishCall(s.adm, id).epoch, s.preempted, s.leases)
  {
  }

  lemma MutationStaysTimely(s: Sys, m: MutationStep)
    requires Timely(s) && MutationEnabled(s, m)
    ensures Timely(ApplyMutation(s, m))
  {
    hide TryCall, CallIsTimely, Admits, Eligible, Since;
    match m
    case EnterMutation(_, _) =>
    case CheckMutationSelection(_) =>
    case RegisterMutation => TryCallStaysTimely(s, s.holder.capture, s.holder.requireClean);
    case CommitMutation =>
  }

  lemma BumpStaysTimely(s: Sys)
    requires Timely(s)
    ensures Timely(Bump(s))
  {
  }

  lemma IngressStaysTimely(s: Sys, i: IngressStep)
    requires Timely(s)
    ensures Timely(ApplyIngress(s, i))
  {
    hide CallIsTimely, FencedOff, Eligible, Bump;
    match i
    case EnterIngress =>
    case CheckIngressFence =>
    case CheckIngressSelection(_) =>
    case SubmitIngress =>
    case CommitIngress =>
    case BumpEpoch => BumpStaysTimely(s);
  }

  lemma FencesStayTimely(s: Sys, forR: bool, previousKnown: bool)
    requires Timely(s)
    ensures Timely(FenceSelection(s, forR, previousKnown)) && Timely(FenceArchive(s))
  {
    hide Covers;
  }

  lemma SettlingStaysTimely(s: Sys, reread: bool)
    requires Timely(s)
    ensures Timely(SettleSelected(s, reread)) && Timely(SettleArchived(s, reread))
  {
    hide CallIsTimely;
  }

  lemma LifecycleStaysTimely(s: Sys, l: LifecycleStep)
    requires Timely(s)
    ensures Timely(ApplyLifecycle(s, l))
  {
    hide CallIsTimely, FenceSelection, FenceArchive, SettleSelected, SettleArchived;
    match l
    case BeginSelection(forR, previousKnown) => FencesStayTimely(s, forR, previousKnown);
    case BeginArchive => FencesStayTimely(s, false, false);
    case LockBoundary =>
    case ChangeSelection(_, _) =>
    case ChangeArchive(_, _) =>
    case SettleSelection(reread) => SettlingStaysTimely(s, reread);
    case SettleArchive(reread) => SettlingStaysTimely(s, reread);
    case EndBoundary =>
    case Activate =>
  }

  lemma LandingStaysTimely(s: Sys, l: LandingStep)
    requires Timely(s) && LandingEnabled(s, l)
    ensures Timely(ApplyLanding(s, l))
  {
    hide CallIsTimely, FencedOff, Eligible, Since;
    match l
    case EnterLanding(_) =>
    case CheckLandingFence =>
    case CheckLandingSelection(_) =>
    case CommitLanding =>
  }

  lemma DialogueStaysTimely(s: Sys, d: DialogueStep)
    requires Timely(s) && DialogueEnabled(s, d)
    ensures Timely(ApplyDialogue(s, d))
  {
    hide CallIsTimely, DialogueContract;
    match d
    case StartCycle =>
    case DiscoverDialogue(_) =>
    case RecordCycle =>
    case FinishDialogue(_) =>
  }

  lemma StepStaysTimely(s: Sys, a: Action)
    requires Timely(s) && Enabled(s, a)
    ensures Timely(Apply(s, a))
  {
    hide CallIsTimely, ApplyIngress, ApplyWorker, ApplyMutation, ApplyLanding, ApplyLifecycle, ApplyDialogue;
    hide MutationEnabled, LandingEnabled, LifecycleEnabled, DialogueEnabled, IngressBefore;
    match a
    case Ingress(i) => IngressStaysTimely(s, i);
    case Worker(w) => WorkerStaysTimely(s, w);
    case Mutation(m) => MutationStaysTimely(s, m);
    case Landing(l) => LandingStaysTimely(s, l);
    case Lifecycle(l) => LifecycleStaysTimely(s, l);
    case Dialogue(d) => DialogueStaysTimely(s, d);
    case LeaveLock =>
  }

  lemma {:induction false} RunStaysTimely(s: Sys, run: seq<Action>, t: Sys)
    requires Timely(s) && Reaches(s, run, t)
    ensures Timely(t)
    decreases |run|
  {
    if run != [] {
      StepStaysTimely(s, run[0]);
      hide Enabled, Apply, Timely;
      RunStaysTimely(Apply(s, run[0]), run[1..], t);
    }
  }

  /** In every run a current call that has not been preempted was registered at the current epoch: ingress and boundaries preempt what they outdate. */
  lemma OutdatedCallIsPreempted(start: Sys, run: seq<Action>, s: Sys)
    requires Initial(start) && Reaches(start, run, s)
    requires s.adm.call.Some? && s.adm.call.value !in s.preempted
    ensures exists l :: l in s.leases && l.id == s.adm.call.value && l.epoch == s.adm.epoch
  {
    RunStaysTimely(start, run, s);
  }
}
