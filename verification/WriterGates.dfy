/** The Writer's two lock-protected gates, updated in place: acceptance with its enqueue count, and the admission fence. */
module WriterGates {
  import opened Common
  import opened SubmissionProtocol

  class EnqueueGate {
    var accept: bool
    var pendingEnqueue: int
    var enqueueDone: nat   // times the channel was closed

    /** The queue `q` with this gate's fields. */
    ghost function Within(q: Queue): Queue
      reads this
    {
      q.(accept := accept, pendingEnqueue := pendingEnqueue, enqueueDone := enqueueDone)
    }

    constructor ()
      ensures forall q: Queue :: Within(q) == q.(accept := true, pendingEnqueue := 0, enqueueDone := 0)
    {
      accept, pendingEnqueue, enqueueDone := true, 0, 0;
    }

    method ReserveEnqueue() returns (reserved: bool)
      modifies this`pendingEnqueue
      ensures reserved == accept
      ensures forall q: Queue :: Within(q) == EnterEnqueue(old(Within(q)))
    {
      if !accept {
        return false;
      }
      pendingEnqueue := pendingEnqueue + 1;
      return true;
    }

    method FinishEnqueue()
      modifies this
      ensures forall q: Queue :: Within(q) == LeaveEnqueue(old(Within(q)))
    {
      pendingEnqueue := pendingEnqueue - 1;
      if !accept && pendingEnqueue == 0 {
        enqueueDone := enqueueDone + 1;
      }
    }

    /** Close runs its block once; later calls find it done. */
    method Close()
      modifies this
      ensures forall q: Queue :: Within(q) == CloseQueue(old(Within(q)))
    {
      if !accept {
        return;
      }
      accept := false;
      if pendingEnqueue == 0 {
        enqueueDone := enqueueDone + 1;
      }
    }
  }

  class AdmissionGate {
    var admissionOpen: bool
    var admissionActive: int
    var admissionDrained: Option<nat>
    var nextChannel: nat
    var closed: set<nat>
    var resumes: nat

    ghost function State(): Gate
      reads this
    {
      Gate(admissionOpen, admissionActive, admissionDrained, nextChannel, closed, resumes)
    }

    constructor ()
      ensures State() == Gate(true, 0, None, 0, {}, 0)
    {
      admissionOpen, admissionActive, admissionDrained, nextChannel, closed, resumes := true, 0, None, 0, {}, 0;
    }

    method BeginAdmission() returns (admitted: bool)
      modifies this`admissionActive
      ensures admitted == admissionOpen
      ensures State() == old(State()).(active := old(admissionActive) + if admitted then 1 else 0)
    {
      if !admissionOpen {
        return false;
      }
      admissionActive := admissionActive + 1;
      return true;
    }

    method EndAdmission() returns (panics: bool)
      modifies this
      ensures panics == (old(admissionActive) <= 0)
      ensures !panics ==> State() == LeaveGate(old(State()))
    {
      admissionActive := admissionActive - 1;
      if admissionActive < 0 {
        return true;
      }
      if admissionActive == 0 && admissionDrained.Some? {
        closed := closed + {admissionDrained.value};
        admissionDrained := None;
      }
      return false;
    }

    /** Up to the wait: `None` means that there is nothing to wait for. */
    method PauseAdmissions() returns (channel: Option<nat>)
      modifies this
      ensures State() == PauseGate(old(State()))
      ensures channel == if old(admissionActive) == 0 then None else State().drained
      ensures old(admissionActive) != 0 ==> channel.Some?
    {
      admissionOpen := false;
      if admissionActive == 0 {
        return None;
      }
      if admissionDrained.None? {
        admissionDrained := Some(nextChannel);
        nextChannel := nextChannel + 1;
      }
      return admissionDrained;
    }

    method ResumeAdmissions() returns (resumed: bool)
      modifies this
      ensures resumed == (old(admissionActive) == 0)
      ensures State() == ResumeGate(old(State()))
    {
      if admissionActive != 0 {
        return false;
      }
      admissionOpen := true;
      admissionDrained := None;
      resumes := resumes + 1;
      return true;
    }
  }
}
