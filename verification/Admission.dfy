/**
 The admission facts one resident carries: its foreground epoch, the dialogue
 proof recorded for that epoch, its lifecycle fence and its cancellable call.
 Every function below is one block that the program runs under `backgroundMu`.
 */
module Admission {
  import opened Common

  type CallId = nat

  datatype Standing = Standing(
    epoch: nat,
    clean: Option<nat>,
    blocked: bool,
    call: Option<CallId>
  )

  function Fresh(): Standing {
    Standing(0, None, false, None)
  }

  /** The decision of `registerBackgroundCallAtEpochWithHook`. */
  predicate Admits(a: Standing, selectionBlocked: bool, expected: nat, requireExpected: bool, requireClean: bool) {
    && !selectionBlocked
    && !a.blocked
    && (requireExpected ==> a.epoch == expected)
    && (requireClean ==> a.clean == Some(expected) && a.epoch == expected)
  }

  function Register(a: Standing, call: CallId): Standing {
    a.(call := Some(call))
  }

  /** A finished call removes its own entry; an entry written later stays. */
  function FinishCall(a: Standing, call: CallId): Standing {
    if a.call == Some(call) then a.(call := None) else a
  }

  function RecordClean(a: Standing, expected: nat): Standing {
    if a.epoch == expected then a.(clean := Some(expected)) else a
  }

  /** Foreground ingress advances the epoch and leaves the recorded proof to go stale. */
  function Preempt(a: Standing): Standing {
    a.(epoch := a.epoch + 1)
  }

  /** A lifecycle boundary advances the epoch and drops the recorded proof. */
  function InvalidateRuntime(a: Standing): Standing {
    a.(epoch := a.epoch + 1, clean := None)
  }

  /** What a lifecycle boundary does to a resident before it takes the landing lock. */
  function Fence(a: Standing): Standing {
    InvalidateRuntime(a.(blocked := true))
  }
}
