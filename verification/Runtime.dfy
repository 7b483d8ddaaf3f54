/**
 The in-place state behind the protocols. `Resident` holds the entries that the
 application's parallel maps keep for one resident; `Application` holds what is
 shared. Each method is one critical section, tied to the function of the
 protocol models that describes it.
 */
module Runtime {
  import opened Common
  import opened Admission
  import opened MemoryScan
  import Boundaries = ResidentBoundaries

  class Resident {
    // guarded by backgroundMu
    var foregroundEpoch: nat
    var dialogueCleanEpoch: Option<nat>
    var background: Option<CallId>
    var backgroundBlocked: bool
    // guarded by memoryStateMu
    var memoryDiscoveryCursor: Option<Cursor>
    var normalMemoryDiscoveryCursor: Option<Cursor>
    var memoryNormalCycleEpoch: Option<nat>
    var memoryNormalCycleDirty: bool
    var memoryNormalCompleteEpoch: Option<nat>
    var memoryReextractionCursor: Option<Cursor>
    var memoryReextractionCycle: bool
    var memoryReextractionCycleEpoch: Option<nat>
    var memoryReextractionCycleDirty: bool
    var memoryReextractionRescanPending: bool
    var memoryExtractionScansComplete: bool

    function Standing(): Standing
      reads this
    {
      Admission.Standing(foregroundEpoch, dialogueCleanEpoch, backgroundBlocked, background)
    }

    function Scan(): Scan
      reads this
    {
      MemoryScan.Scan(
        memoryDiscoveryCursor,
        normalMemoryDiscoveryCursor, memoryNormalCycleEpoch, memoryNormalCycleDirty, memoryNormalCompleteEpoch,
        memoryReextractionCursor, memoryReextractionCycle, memoryReextractionCycleEpoch, memoryReextractionCycleDirty,
        memoryReextractionRescanPending, memoryExtractionScansComplete)
    }

    constructor ()
      ensures Standing() == Fresh() && Scan() == Empty()
    {
      foregroundEpoch, dialogueCleanEpoch, background, backgroundBlocked := 0, None, None, false;
      memoryDiscoveryCursor := None;
      normalMemoryDiscoveryCursor, memoryNormalCycleEpoch, memoryNormalCycleDirty := None, None, false;
      memoryNormalCompleteEpoch := None;
      memoryReextractionCursor, memoryReextractionCycle, memoryReextractionCycleEpoch := None, false, None;
      memoryReextractionCycleDirty, memoryReextractionRescanPending, memoryExtractionScansComplete := false, false, false;
    }

    // --------------------------------------------------- backgroundMu blocks

    method FinishBackgroundCall(call: CallId)
      modifies this`background
      ensures Standing() == FinishCall(old(Standing()), call)
    {
      if background == Some(call) {
        background := None;
      }
    }

    method RecordDialogueCleanAtEpoch(expected: nat) returns (recorded: bool)
      modifies this`dialogueCleanEpoch
      ensures recorded == (foregroundEpoch == expected)
      ensures Standing() == RecordClean(old(Standing()), expected)
    {
      if foregroundEpoch != expected {
        return false;
      }
      dialogueCleanEpoch := Some(expected);
      return true;
    }

    /** The caller preempts the returned call, which is only the entry current at this moment. */
    method PreemptBackground() returns (toPreempt: Option<CallId>)
      modifies this`foregroundEpoch
      ensures Standing() == Preempt(old(Standing())) && toPreempt == old(background)
    {
      foregroundEpoch := foregroundEpoch + 1;
      toPreempt := background;
    }

    method InvalidateResidentRuntimeLocked() returns (toPreempt: Option<CallId>)
      modifies this
      ensures Standing() == InvalidateRuntime(old(Standing())) && Scan() == Empty() && toPreempt == old(background)
    {
      foregroundEpoch := foregroundEpoch + 1;
      dialogueCleanEpoch := None;
      toPreempt := background;
      ResetMemoryDiscovery();
    }

    /** The admission half of `ArchiveResident`, before the landing lock is taken. */
    method FenceForArchive() returns (wasBlocked: bool, toPreempt: Option<CallId>)
      modifies this
      ensures wasBlocked == old(backgroundBlocked) && toPreempt == old(background)
      ensures Standing() == Fence(old(Standing())) && Scan() == Empty()
    {
      wasBlocked := backgroundBlocked;
      backgroundBlocked := true;
      toPreempt := InvalidateResidentRuntimeLocked();
    }

    /** An archive that is known not to have happened puts the former fence back. */
    method RestoreAfterFailedArchive(wasBlocked: bool)
      modifies this`backgroundBlocked
      ensures Standing() == old(Standing()).(blocked := wasBlocked)
    {
      backgroundBlocked := wasBlocked;
    }

    // -------------------------------------------------- memoryStateMu blocks

    method StartOrResumeNormalMemoryCycleAtEpoch(expected: nat) returns (ticket: Option<Ticket>)
      modifies this`memoryNormalCycleEpoch
      ensures (Scan(), ticket) == StartNormal(old(Scan()), foregroundEpoch, expected)
    {
      if foregroundEpoch != expected {
        return None;
      }
      if memoryNormalCycleEpoch.None? {
        memoryNormalCycleEpoch := Some(expected);
      }
      return Some(Ticket(normalMemoryDiscoveryCursor, memoryNormalCycleEpoch.value));
    }

    method UpdateNormalMemoryDiscoveryAtEpoch(cycleEpoch: nat, result: Discovery) returns (updated: bool, verified: bool)
      modifies this
      ensures Updated(Scan(), updated, verified) == UpdateNormal(old(Scan()), foregroundEpoch, cycleEpoch, result)
      ensures Standing() == old(Standing())
    {
      if memoryNormalCycleEpoch != Some(cycleEpoch) {
        return false, false;
      }
      if result.next.Some? {
        normalMemoryDiscoveryCursor := result.next;
      }
      if result.foundWork {
        memoryNormalCycleDirty := true;
      }
      if result.cycleComplete {
        if memoryNormalCycleDirty {
          // Repeat the sweep under the same ceiling; a newer one would let ingress postpone re-extraction forever.
          if normalMemoryDiscoveryCursor.None? {
            return false, false;
          }
          normalMemoryDiscoveryCursor := Some(Cursor(0, normalMemoryDiscoveryCursor.value.ceiling));
          memoryNormalCycleDirty := false;
          memoryReextractionCycle, memoryReextractionCycleEpoch, memoryNormalCompleteEpoch := false, None, None;
          return true, false;
        }
        normalMemoryDiscoveryCursor, memoryNormalCycleEpoch := None, None;
        if foregroundEpoch != cycleEpoch {
          memoryReextractionCycle, memoryReextractionCycleEpoch, memoryNormalCompleteEpoch := false, None, None;
          return true, false;
        }
        memoryReextractionCycle := true;
        memoryReextractionCycleEpoch, memoryNormalCompleteEpoch := Some(cycleEpoch), Some(cycleEpoch);
        return true, true;
      }
      memoryNormalCompleteEpoch := None;
      return true, false;
    }

    method StartOrResumeMemoryReextractionCycleAtEpoch(expected: nat) returns (ticket: Option<Ticket>)
      modifies this`memoryReextractionCycleEpoch, this`memoryReextractionRescanPending
      ensures (Scan(), ticket) == StartRe(old(Scan()), foregroundEpoch, expected)
    {
      if foregroundEpoch != expected || !memoryReextractionCycle {
        return None;
      }
      if memoryReextractionCycleEpoch.None? {
        memoryReextractionCycleEpoch := Some(expected);
      }
      if memoryReextractionCursor.None? {
        // No ceiling yet: the discovery that follows includes every request admitted so far.
        memoryReextractionRescanPending := false;
      }
      return Some(Ticket(memoryReextractionCursor, memoryReextractionCycleEpoch.value));
    }

    method UpdateMemoryReextractionAtEpoch(cycleEpoch: nat, result: Discovery) returns (updated: bool, verified: bool)
      modifies this
      ensures Updated(Scan(), updated, verified) == UpdateRe(old(Scan()), foregroundEpoch, cycleEpoch, result)
      ensures Standing() == old(Standing())
    {
      if memoryReextractionCycleEpoch != Some(cycleEpoch) {
        return false, false;
      }
      if result.next.Some? {
        memoryReextractionCursor := result.next;
      }
      if result.foundWork {
        memoryReextractionCycleDirty := true;
      }
      if result.cycleComplete {
        if memoryReextractionCycleDirty {
          if memoryReextractionCursor.None? {
            return false, false;
          }
          memoryReextractionCursor := Some(Cursor(0, memoryReextractionCursor.value.ceiling));
          memoryReextractionCycleDirty, memoryReextractionCycle := false, true;
          return true, false;
        }
        memoryReextractionCursor, memoryReextractionCycle, memoryReextractionCycleEpoch := None, false, None;
        if memoryReextractionRescanPending {
          // A request was admitted beyond this cycle's ceiling: verify both queues afresh.
          memoryNormalCompleteEpoch := None;
          return true, false;
        }
        return true, foregroundEpoch == cycleEpoch;
      }
      memoryReextractionCycle := true;
      return true, false;
    }

    method UpdateFairMemoryDiscoveryAtEpoch(expected: nat, result: Discovery) returns (updated: bool)
      modifies this`memoryDiscoveryCursor
      ensures (Scan(), updated) == UpdateFair(old(Scan()), foregroundEpoch, expected, result)
    {
      if foregroundEpoch != expected {
        return false;
      }
      if result.next.Some? {
        memoryDiscoveryCursor := result.next;
      }
      if result.cycleComplete {
        memoryDiscoveryCursor := None;
      }
      return true;
    }

    method InvalidateMemoryExtractionScansForReextraction()
      modifies this`memoryExtractionScansComplete, this`memoryReextractionRescanPending
      ensures Scan() == InvalidateForReextraction(old(Scan()))
    {
      memoryExtractionScansComplete, memoryReextractionRescanPending := false, true;
    }

    method SetMemoryExtractionScansComplete(complete: bool)
      modifies this`memoryExtractionScansComplete
      ensures Scan() == SetComplete(old(Scan()), complete)
    {
      memoryExtractionScansComplete := complete;
    }

    method SetMemoryExtractionScansCompleteAtEpoch(expected: nat) returns (published: bool)
      modifies this`memoryExtractionScansComplete
      ensures (Scan(), published) == SetCompleteAtEpoch(old(Scan()), foregroundEpoch, expected)
    {
      if foregroundEpoch != expected {
        return false;
      }
      memoryExtractionScansComplete := true;
      return true;
    }

    method ResetMemoryDiscovery()
      modifies this
      ensures Scan() == Empty() && Standing() == old(Standing())
    {
      memoryDiscoveryCursor := None;
      normalMemoryDiscoveryCursor, memoryNormalCycleEpoch := None, None;
      memoryReextractionCursor, memoryReextractionCycle, memoryReextractionCycleEpoch := None, false, None;
      memoryReextractionRescanPending := false;
      memoryNormalCycleDirty, memoryReextractionCycleDirty := false, false;
      memoryNormalCompleteEpoch := None;
      memoryExtractionScansComplete := false;
    }
  }

  class Application {
    var backgroundSelectionBlocked: bool
    var preempted: set<CallId>   // calls whose context ended with the preemption cause
    var nextCall: CallId

    constructor ()
      ensures !backgroundSelectionBlocked && preempted == {}
    {
      backgroundSelectionBlocked, preempted, nextCall := false, {}, 0;
    }

    /**
     Admission of one provider call. A rejected call is preempted at once and
     changes nothing else; an admitted one takes over the resident's entry.
     */
    method RegisterBackgroundCall(resident: Resident, expected: nat, requireExpected: bool, requireClean: bool)
      returns (call: CallId, registered: bool)
      modifies this`preempted, this`nextCall, resident`background
      ensures registered
              == Admits(old(resident.Standing()), backgroundSelectionBlocked, expected, requireExpected, requireClean)
      ensures call == old(nextCall) && nextCall == call + 1
      ensures resident.Standing()
              == if registered then Register(old(resident.Standing()), call) else old(resident.Standing())
      ensures preempted == if registered then old(preempted) else old(preempted) + {call}
    {
      call, nextCall := nextCall, nextCall + 1;
      var current := resident.foregroundEpoch;
      var clean := resident.dialogueCleanEpoch;
      if backgroundSelectionBlocked || resident.backgroundBlocked ||
         (requireExpected && current != expected) ||
         (requireClean && (clean.None? || clean.value != expected || current != expected)) {
        preempted := preempted + {call};
        return call, false;
      }
      resident.background := Some(call);
      return call, true;
    }

    /**
     The admission half of `SelectResident`: every target is fenced and
     invalidated before any landing lock is taken. While the former selection
     is unresolved, admission closes for every resident.
     */
    method FenceForSelection(targets: set<Resident>, previousKnown: bool)
      modifies this, targets
      ensures backgroundSelectionBlocked == (old(backgroundSelectionBlocked) || !previousKnown)
      ensures forall t :: t in targets ==> t.Standing() == Fence(old(t.Standing())) && t.Scan() == Empty()
      ensures preempted == old(preempted) + set t | t in targets && old(t.background).Some? :: old(t.background).value
    {
      if !previousKnown {
        backgroundSelectionBlocked := true;
      }
      var left := targets;
      while left != {}
        invariant left <= targets
        invariant backgroundSelectionBlocked == (old(backgroundSelectionBlocked) || !previousKnown)
        invariant forall t :: t in targets - left ==> t.Standing() == Fence(old(t.Standing())) && t.Scan() == Empty()
        invariant forall t :: t in left ==> t.Standing() == old(t.Standing())
        invariant preempted
               == old(preempted) + set t | t in targets - left && old(t.background).Some? :: old(t.background).value
        decreases |left|
      {
        var target :| target in left;
        assert target.background == old(target.background) by {
          assert target.Standing() == old(target.Standing());
        }
        left := left - {target};
        target.backgroundBlocked := true;
        var toPreempt := target.InvalidateResidentRuntimeLocked();
        if toPreempt.Some? {
          preempted := preempted + {toPreempt.value};
        }
      }
    }

    /** The residents with a current call. */
    method Serving(directory: map<ResidentId, Resident>) returns (calls: set<ResidentId>)
      ensures calls == set r | r in directory && directory[r].background.Some?
    {
      calls := {};
      var left := directory.Keys;
      while left != {}
        invariant left <= directory.Keys
        invariant calls == set r | r in directory && r !in left && directory[r].background.Some?
        decreases |left|
      {
        var r :| r in left;
        left := left - {r};
        if directory[r].background.Some? {
          calls := calls + {r};
        }
      }
    }

    /**
     The opening of `SelectResident`: the targets come from the former selection
     or, where it is unresolved, from the worker map and the call map, and exactly
     these are fenced. The directory stands for the keys of the parallel maps.
     */
    method BeginSelection(directory: map<ResidentId, Resident>, resident: ResidentId, previous: Option<ResidentId>, work: set<ResidentId>)
      returns (targets: set<ResidentId>)
      requires forall a, b :: a in directory && b in directory && a != b ==> directory[a] != directory[b]
      requires Boundaries.Targets(resident, previous, work, {}) <= directory.Keys
      modifies this, directory.Values
      ensures targets == Boundaries.Targets(resident, previous, work, set r | r in directory && old(directory[r].background).Some?)
      ensures backgroundSelectionBlocked == (old(backgroundSelectionBlocked) || previous.None?)
      ensures forall r :: r in directory ==>
                directory[r].Standing() == if r in targets then Fence(old(directory[r].Standing())) else old(directory[r].Standing())
      ensures forall r :: r in directory && r in targets ==> directory[r].Scan() == Empty()
    {
      var calls := {};
      if previous.None? {
        calls := Serving(directory);
      }
      targets := Boundaries.CollectTargets(resident, previous, work, calls);
      assert targets <= directory.Keys;
      var entries := set r | r in targets :: directory[r];
      forall r | r in directory
        ensures directory[r] in entries <==> r in targets
      {
      }
      FenceForSelection(entries, previous.Some?);
    }

    /**
     The admission half that follows the durable selection: a known winner is
     opened, every other target stays fenced, an unknown result opens nothing.
     */
    method SettleSelection(targets: set<Resident>, selectedAfter: Option<Resident>)
      modifies this`backgroundSelectionBlocked, targets, if selectedAfter.Some? then {selectedAfter.value} else {}
      ensures selectedAfter.None? ==>
                backgroundSelectionBlocked == old(backgroundSelectionBlocked) && forall t :: t in targets ==> unchanged(t)
      ensures selectedAfter.Some? ==>
                && !backgroundSelectionBlocked
                && selectedAfter.value.Standing() == old(selectedAfter.value.Standing()).(blocked := false)
                && forall t :: t in targets && t != selectedAfter.value ==>
                                 t.Standing() == old(t.Standing()).(blocked := true)
    {
      if selectedAfter.None? {
        return;
      }
      backgroundSelectionBlocked := false;
      var left := targets;
      while left != {}
        invariant left <= targets && !backgroundSelectionBlocked
        invariant forall t :: t in targets && t != selectedAfter.value ==>
                    t.Standing() == if t in left then old(t.Standing()) else old(t.Standing()).(blocked := true)
        invariant selectedAfter.value.Standing().(blocked := false) == old(selectedAfter.value.Standing()).(blocked := false)
        decreases |left|
      {
        var target :| target in left;
        left := left - {target};
        target.backgroundBlocked := target != selectedAfter.value;
      }
      selectedAfter.value.backgroundBlocked := false;
    }
  }
}
