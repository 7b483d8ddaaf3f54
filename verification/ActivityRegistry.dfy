/**
 The Writer's table of live commands per resident. A command is accepted,
 queued, in flight and then gone. A fencing command closes its resident to
 later admissions until it finishes. Each function is one block under the
 registry's mutex.
 */
module ActivityTable {
  import opened Common

  datatype State = Accepted | Queued | InFlight

  datatype Entry = Entry(resident: ResidentId, state: State, fence: bool, contended: bool)

  /** Issued by `Admit` only. A command with global scope carries no token. */
  datatype Token = Token(sequence: nat, resident: ResidentId)

  datatype Refusal = ResidentAdmissionClosed | InvalidActivityToken | ResidentActivityBusy

  datatype Table = Table(next: nat, entries: map<nat, Entry>, fences: map<ResidentId, nat>)

  function Empty(): Table {
    Table(0, map[], map[])
  }

  predicate Valid(token: Option<Token>) {
    token.Some? && token.value.sequence != 0 && token.value.resident != ZERO_ID
  }

  /** The token names a live entry of its own resident. */
  predicate Names(g: Table, token: Option<Token>) {
    Valid(token) && token.value.sequence in g.entries && g.entries[token.value.sequence].resident == token.value.resident
  }

  predicate Busy(entries: map<nat, Entry>, resident: ResidentId) {
    exists q :: q in entries && entries[q].resident == resident
  }

  predicate BusyBeside(entries: map<nat, Entry>, sequence: nat, resident: ResidentId) {
    exists q :: q in entries && q != sequence && entries[q].resident == resident
  }

  function Admit(g: Table, scope: Option<ResidentId>, fence: bool): (Table, Result<Option<Token>, Refusal>) {
    if scope.None? then (g, Ok(None))
    else if scope.value in g.fences then (g, Err(ResidentAdmissionClosed))
    else
      var entry := Entry(scope.value, Accepted, fence, fence && Busy(g.entries, scope.value));
      (Table(g.next + 1, g.entries[g.next + 1 := entry], if fence then g.fences[scope.value := g.next + 1] else g.fences),
       Ok(Some(Token(g.next + 1, scope.value))))
  }

  predicate Follows(from: State, to: State) {
    (from == Accepted && to == Queued) || (from == Queued && to == InFlight)
  }

  function Transition(g: Table, token: Option<Token>, to: State): (Table, bool) {
    if !Names(g, token) || !Follows(g.entries[token.value.sequence].state, to) then (g, false)
    else
      var entry := g.entries[token.value.sequence];
      (g.(entries := g.entries[token.value.sequence := entry.(state := to)]), true)
  }

  function Finish(g: Table, token: Option<Token>): Table {
    if !Names(g, token) then g
    else
      var entry := g.entries[token.value.sequence];
      var ownsFence := entry.fence && entry.resident in g.fences && g.fences[entry.resident] == token.value.sequence;
      g.(entries := g.entries - {token.value.sequence},
         fences := if ownsFence then g.fences - {entry.resident} else g.fences)
  }

  /** The final in-transaction check of a resident erasure; `None` grants exclusion. */
  function RequireExclusive(g: Table, token: Option<Token>, resident: ResidentId): Option<Refusal> {
    if !Names(g, token) || token.value.resident != resident || !OwnsFenceInFlight(g, token.value) then
      Some(InvalidActivityToken)
    else if g.entries[token.value.sequence].contended || BusyBeside(g.entries, token.value.sequence, resident) then
      Some(ResidentActivityBusy)
    else None
  }

  predicate OwnsFenceInFlight(g: Table, token: Token)
    requires Names(g, Some(token))
  {
    var entry := g.entries[token.sequence];
    entry.state == InFlight && entry.fence && token.resident in g.fences && g.fences[token.resident] == token.sequence
  }

  // ------------------------------------------------------------------ runs

  datatype Op =
    | AdmitOp(scope: Option<ResidentId>, fence: bool)
    | TransitionOp(token: Option<Token>, to: State)
    | FinishOp(token: Option<Token>)

  function Step(g: Table, op: Op): Table {
    match op
    case AdmitOp(scope, fence) => Admit(g, scope, fence).0
    case TransitionOp(token, to) => Transition(g, token, to).0
    case FinishOp(token) => Finish(g, token)
  }

  function Run(g: Table, ops: seq<Op>): Table
    decreases |ops|
  {
    if ops == [] then g else Run(Step(g, ops[0]), ops[1..])
  }

  /** Sequence numbers are never reused, and a fence stands exactly while its owner is live. */
  ghost predicate Inv(g: Table) {
    && (forall q :: q in g.entries ==> 0 < q <= g.next)
    && (forall q :: q in g.entries && g.entries[q].fence ==>
          g.entries[q].resident in g.fences && g.fences[g.entries[q].resident] == q)
    && (forall r :: r in g.fences ==>
          g.fences[r] in g.entries && g.entries[g.fences[r]].resident == r && g.entries[g.fences[r]].fence)
    && (forall q, p ::
          q in g.entries && p in g.entries && q != p && g.entries[q].fence && g.entries[q].resident == g.entries[p].resident
          ==> g.entries[q].contended)
  }

  lemma AdmitKeepsInv(g: Table, scope: Option<ResidentId>, fence: bool)
    requires Inv(g)
    ensures Inv(Admit(g, scope, fence).0)
  {
    if scope.Some? && scope.value !in g.fences {
      var h := Admit(g, scope, fence).0;
      forall q, p | q in h.entries && p in h.entries && q != p && h.entries[q].resident == h.entries[p].resident && h.entries[q].fence
        ensures h.entries[q].contended
      {
        if q == h.next {
          assert p in g.entries;
        }
      }
    }
  }

  lemma StepKeepsInv(g: Table, op: Op)
    requires Inv(g)
    ensures Inv(Step(g, op))
  {
    match op
    case AdmitOp(scope, fence) => AdmitKeepsInv(g, scope, fence);
    case TransitionOp(_, _) =>
    case FinishOp(_) =>
  }

  lemma {:induction false} RunKeepsInv(g: Table, ops: seq<Op>)
    requires Inv(g)
    ensures Inv(Run(g, ops))
    decreases |ops|
  {
    if ops != [] {
      StepKeepsInv(g, ops[0]);
      RunKeepsInv(Step(g, ops[0]), ops[1..]);
    }
  }

  /**
   In every reachable table exclusion is granted exactly to the in-flight owner
   of an uncontended fence, and that owner is then its resident's only entry:
   the closing scan of the table never finds anybody.
   */
  lemma ExclusionIsAnUncontendedFence(ops: seq<Op>, token: Token)
    ensures var g := Run(Empty(), ops);
            RequireExclusive(g, Some(token), token.resident) == None
            <==> Names(g, Some(token)) && var e := g.entries[token.sequence]; e.state == InFlight && e.fence && !e.contended
    ensures var g := Run(Empty(), ops);
            RequireExclusive(g, Some(token), token.resident) == Some(ResidentActivityBusy)
            <==> Names(g, Some(token)) && var e := g.entries[token.sequence]; e.state == InFlight && e.fence && e.contended
    ensures var g := Run(Empty(), ops);
            forall q :: q in g.entries && g.entries[q].fence && !g.entries[q].contended ==>
              !BusyBeside(g.entries, q, g.entries[q].resident)
  {
    RunKeepsInv(Empty(), ops);
  }

  /** What an exclusive owner sees of the table. */
  ghost predicate Exclusive(g: Table, token: Token) {
    && RequireExclusive(g, Some(token), token.resident) == None
    && !BusyBeside(g.entries, token.sequence, token.resident)
    && forall fence :: Admit(g, Some(token.resident), fence) == (g, Err(ResidentAdmissionClosed))
  }

  lemma StepKeepsExclusive(g: Table, token: Token, op: Op)
    requires Inv(g) && Exclusive(g, token) && op != FinishOp(Some(token))
    ensures Exclusive(Step(g, op), token)
  {
    match op
    case AdmitOp(_, _) =>
    case TransitionOp(_, _) =>
    case FinishOp(_) =>
  }

  lemma {:induction false} RunKeepsExclusive(g: Table, token: Token, ops: seq<Op>)
    requires Inv(g) && Exclusive(g, token) && FinishOp(Some(token)) !in ops
    ensures Exclusive(Run(g, ops), token)
    decreases |ops|
  {
    if ops != [] {
      assert ops[0] in ops && forall op :: op in ops[1..] ==> op in ops;
      StepKeepsExclusive(g, token, ops[0]);
      StepKeepsInv(g, ops[0]);
      RunKeepsExclusive(Step(g, ops[0]), token, ops[1..]);
    }
  }

  /** Once granted, exclusion lasts through everything but the owner's own finish. */
  lemma ExclusionLastsUntilFinish(before: seq<Op>, token: Token, after: seq<Op>)
    requires RequireExclusive(Run(Empty(), before), Some(token), token.resident) == None
    requires FinishOp(Some(token)) !in after
    ensures Exclusive(Run(Run(Empty(), before), after), token)
  {
    RunKeepsInv(Empty(), before);
    RunKeepsExclusive(Run(Empty(), before), token, after);
  }

  /** Only the finish of its owner removes a fence, and nothing replaces a standing one. */
  lemma FenceEndsOnlyWithItsOwner(ops: seq<Op>, resident: ResidentId, op: Op)
    requires resident in Run(Empty(), ops).fences
    ensures var g := Run(Empty(), ops);
            var owner := g.fences[resident];
            if op == FinishOp(Some(Token(owner, resident))) && resident != ZERO_ID
            then resident !in Step(g, op).fences
            else resident in Step(g, op).fences && Step(g, op).fences[resident] == owner
  {
    RunKeepsInv(Empty(), ops);
  }

  /**
   In every reachable table a command is turned away exactly while a fencing
   command of its resident is live. Otherwise it gets a sequence number never
   seen before and an accepted entry, contended exactly if it fences while
   others of its resident are live.
   */
  lemma AdmissionIsRefusedExactly(ops: seq<Op>, resident: ResidentId, fence: bool)
    ensures var g := Run(Empty(), ops);
            var (h, result) := Admit(g, Some(resident), fence);
            if exists q :: q in g.entries && g.entries[q].resident == resident && g.entries[q].fence
            then h == g && result == Err(ResidentAdmissionClosed)
            else
              && result.Ok? && result.value.Some? && result.value.value.resident == resident
              && var q := result.value.value.sequence;
                 && (forall r :: r in g.entries ==> r < q) && q !in g.entries && h.next == q > g.next
                 && h.entries == g.entries[q := h.entries[q]]
                 && h.entries[q].resident == resident && h.entries[q].state == Accepted && h.entries[q].fence == fence
                 && (h.entries[q].contended <==> fence && exists r :: r in g.entries && g.entries[r].resident == resident)
  {
    RunKeepsInv(Empty(), ops);
  }

  /** The operation is about some other command. */
  predicate Elsewhere(op: Op, token: Token) {
    match op
    case AdmitOp(_, _) => true
    case TransitionOp(t, _) => t != Some(token)
    case FinishOp(t) => t != Some(token)
  }

  lemma {:induction false} EntryStays(g: Table, token: Token, ops: seq<Op>)
    requires Inv(g) && Names(g, Some(token)) && forall op :: op in ops ==> Elsewhere(op, token)
    ensures Inv(Run(g, ops)) && Names(Run(g, ops), Some(token))
    ensures Run(g, ops).entries[token.sequence] == g.entries[token.sequence]
    decreases |ops|
  {
    if ops != [] {
      assert ops[0] in ops && forall op :: op in ops[1..] ==> op in ops;
      StepKeepsInv(g, ops[0]);
      StepLeavesEntry(g, token, ops[0]);
      EntryStays(Step(g, ops[0]), token, ops[1..]);
    }
  }

  lemma StepLeavesEntry(g: Table, token: Token, op: Op)
    requires Inv(g) && Names(g, Some(token)) && Elsewhere(op, token)
    ensures Names(Step(g, op), Some(token)) && Step(g, op).entries[token.sequence] == g.entries[token.sequence]
  {
    match op
    case AdmitOp(_, _) =>
    case TransitionOp(_, _) =>
    case FinishOp(_) =>
  }

  /**
   An admitted command goes its way whatever the others do in between: it is
   queued once, in flight once, and its finish removes its entry and nothing else.
   */
  lemma CommandsProceed(before: seq<Op>, resident: ResidentId, fence: bool, first: seq<Op>, second: seq<Op>, token: Token)
    requires resident != ZERO_ID && Admit(Run(Empty(), before), Some(resident), fence).1 == Ok(Some(token))
    requires forall op :: op in first + second ==> Elsewhere(op, token)
    ensures var admitted := Admit(Run(Empty(), before), Some(resident), fence).0;
            var waiting := Run(admitted, first);
            var (queued, isQueued) := Transition(waiting, Some(token), Queued);
            var (flying, isFlying) := Transition(Run(queued, second), Some(token), InFlight);
            && isQueued && isFlying && !Transition(waiting, Some(token), InFlight).1
            && Names(flying, Some(token)) && flying.entries[token.sequence].state == InFlight
            && Finish(flying, Some(token)).entries == flying.entries - {token.sequence}
  {
    assert forall op :: op in first ==> op in first + second;
    assert forall op :: op in second ==> op in first + second;
    RunKeepsInv(Empty(), before);
    var admitted := Admit(Run(Empty(), before), Some(resident), fence).0;
    AdmitKeepsInv(Run(Empty(), before), Some(resident), fence);
    EntryStays(admitted, token, first);
    var waiting := Run(admitted, first);
    var queued := Transition(waiting, Some(token), Queued).0;
    StepKeepsInv(waiting, TransitionOp(Some(token), Queued));
    EntryStays(queued, token, second);
  }
}

/** The same table updated in place. */
module ActivityRegistry {
  import opened Common
  import opened ActivityTable

  class Registry {
    var next: nat
    var entries: map<nat, Entry>
    var fences: map<ResidentId, nat>

    ghost function Contents(): Table
      reads this
    {
      Table(next, entries, fences)
    }

    constructor ()
      ensures Contents() == Empty()
    {
      next, entries, fences := 0, map[], map[];
    }

    method Admit(scope: Option<ResidentId>, fence: bool) returns (result: Result<Option<Token>, Refusal>)
      modifies this
      ensures (Contents(), result) == ActivityTable.Admit(old(Contents()), scope, fence)
    {
      if scope.None? {
        return Ok(None);
      }
      var resident := scope.value;
      if resident in fences {
        return Err(ResidentAdmissionClosed);
      }
      next := next + 1;
      var contended := false;
      if fence {
        contended := HasEntryBeside(None, resident);
      }
      entries := entries[next := Entry(resident, Accepted, fence, contended)];
      if fence {
        fences := fences[resident := next];
      }
      return Ok(Some(Token(next, resident)));
    }

    /** The scan over the table, which stops at the first entry of the resident. */
    method HasEntryBeside(sequence: Option<nat>, resident: ResidentId) returns (found: bool)
      ensures found <==> exists q :: q in entries && Some(q) != sequence && entries[q].resident == resident
    {
      var left := entries.Keys;
      while left != {}
        invariant left <= entries.Keys
        invariant forall q :: q in entries && q !in left && Some(q) != sequence ==> entries[q].resident != resident
        decreases |left|
      {
        var q :| q in left;
        if Some(q) != sequence && entries[q].resident == resident {
          return true;
        }
        left := left - {q};
      }
      return false;
    }

    method Transition(token: Option<Token>, to: State) returns (done: bool)
      modifies this`entries
      ensures (Contents(), done) == ActivityTable.Transition(old(Contents()), token, to)
    {
      if !Valid(token) || token.value.sequence !in entries {
        return false;
      }
      var entry := entries[token.value.sequence];
      if entry.resident != token.value.resident || !Follows(entry.state, to) {
        return false;
      }
      entries := entries[token.value.sequence := entry.(state := to)];
      return true;
    }

    method Finish(token: Option<Token>)
      modifies this`entries, this`fences
      ensures Contents() == ActivityTable.Finish(old(Contents()), token)
    {
      if !Valid(token) || token.value.sequence !in entries {
        return;
      }
      var entry := entries[token.value.sequence];
      if entry.resident != token.value.resident {
        return;
      }
      entries := entries - {token.value.sequence};
      if entry.fence && entry.resident in fences && fences[entry.resident] == token.value.sequence {
        fences := fences - {entry.resident};
      }
    }

    method RequireExclusive(token: Option<Token>, resident: ResidentId) returns (refusal: Option<Refusal>)
      ensures refusal == ActivityTable.RequireExclusive(Contents(), token, resident)
    {
      if !Valid(token) || token.value.resident != resident || token.value.sequence !in entries {
        return Some(InvalidActivityToken);
      }
      var entry := entries[token.value.sequence];
      if entry.resident != resident || entry.state != InFlight || !entry.fence ||
         resident !in fences || fences[resident] != token.value.sequence {
        return Some(InvalidActivityToken);
      }
      if entry.contended {
        return Some(ResidentActivityBusy);
      }
      var found := HasEntryBeside(Some(token.value.sequence), resident);
      return if found then Some(ResidentActivityBusy) else None;
    }
  }
}
