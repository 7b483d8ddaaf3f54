/**
 The Writer's bounded queue under every interleaving of submitting clients, the
 single consumer, `Close`, and the reversible admission fence. One step is one
 critical section, channel operation or block of the consumer. Each submission
 remembers which counters it currently stands in.
 */
module SubmissionProtocol {
  import opened Common
  import C = CommitCore
  import T = ActivityTable

  datatype Stage =
    // the client's side
    | Admitted | Registered | Reserved | Slotted | Marked
    | Unwinding | Returned
    // in the queue, then the consumer's side
    | Queued | Taken | Unslotted | InFlight | Executed | Unlisted | Unadmitted | Responded

  datatype Sub = Sub(
    stage: Stage,
    scope: C.Scope,
    fence: bool,
    token: Option<T.Token>,
    admission: bool,   // counted in admissionActive
    activity: bool,    // listed in the activity table
    pending: bool,     // counted in pendingEnqueue
    slot: bool,        // holds a queue slot
    reserved: bool,    // history: passed reserveEnqueue
    cancelled: bool,   // history: its context ended before it took a slot
    handled: nat       // history: times the consumer received it
  )

  /** The consumer: its main loop, its drain loop, the drain of the fixed remainder, finished. */
  datatype Mode = Running | Draining | Finishing | Done

  datatype Queue = Queue(
    capacity: nat,
    waiting: seq<nat>,
    slots: int,
    accept: bool,        // `stop` closes in the block that clears it
    pendingEnqueue: int,
    enqueueDone: nat,    // times the channel was closed
    mode: Mode,
    serving: Option<nat>
  )

  datatype Gate = Gate(
    open: bool,
    active: int,
    drained: Option<nat>,   // the channel that paused callers wait on
    nextChannel: nat,
    closed: set<nat>,
    resumes: nat            // history: successful ResumeAdmissions calls
  )

  /** A paused caller: the channel it waits on and the resumes before its pause. */
  datatype Waiter = Waiter(channel: nat, resumes: nat)

  datatype Sys = Sys(
    subs: seq<Sub>,
    queue: Queue,
    gate: Gate,
    waiters: seq<Waiter>,
    table: T.Table,
    core: C.Core,
    panicked: bool
  )

  function Opened(capacity: nat, durable: seq<C.Metadata>): Sys {
    Sys([], Queue(capacity, [], 0, true, 0, 0, Running, None), Gate(true, 0, None, 0, {}, 0), [],
        T.Empty(), C.Open(durable), false)
  }

  datatype ClientStep =
    | Begin(scope: C.Scope, fence: bool)
    | Register(i: nat)
    | Reserve(i: nat)
    | TakeSlot(i: nat)
    | Cancel(i: nat)
    | Mark(i: nat)
    | Send(i: nat)
    | FinishEnqueue(i: nat)
    | Unwind(i: nat)

  datatype ServerStep =
    | Take
    | FreeSlot
    | Start
    | Exec(script: C.Script)
    | FinishActivity
    | EndAdmission
    | Respond
    | SeeStop
    | SeeEnqueueDone
    | SeeEmpty

  datatype ControlStep = Pause | Resume | Close

  datatype Action = Client(client: ClientStep) | Server(server: ServerStep) | Control(control: ControlStep)

  // ----------------------------------------------------- shared blocks

  /** `reserveEnqueue` */
  function EnterEnqueue(q: Queue): Queue {
    q.(pendingEnqueue := q.pendingEnqueue + if q.accept then 1 else 0)
  }

  /** `finishEnqueue` */
  function LeaveEnqueue(q: Queue): Queue {
    q.(pendingEnqueue := q.pendingEnqueue - 1,
       enqueueDone := if !q.accept && q.pendingEnqueue == 1 then q.enqueueDone + 1 else q.enqueueDone)
  }

  /** `endAdmission`; the caller panics when the count drops below zero. */
  function LeaveGate(g: Gate): Gate {
    var last := g.active == 1 && g.drained.Some?;
    g.(active := g.active - 1,
       closed := if last then g.closed + {g.drained.value} else g.closed,
       drained := if last then None else g.drained)
  }

  /** `PauseAdmissions` up to its wait. */
  function PauseGate(g: Gate): Gate {
    var makes := g.active != 0 && g.drained.None?;
    g.(open := false,
       drained := if makes then Some(g.nextChannel) else g.drained,
       nextChannel := if makes then g.nextChannel + 1 else g.nextChannel)
  }

  function ResumeGate(g: Gate): Gate {
    if g.active != 0 then g else g.(open := true, drained := None, resumes := g.resumes + 1)
  }

  function CloseQueue(q: Queue): Queue {
    if !q.accept then q
    else q.(accept := false, enqueueDone := if q.pendingEnqueue == 0 then q.enqueueDone + 1 else q.enqueueDone)
  }

  function Put(s: Sys, i: nat, sub: Sub): Sys
    requires i < |s.subs|
  {
    s.(subs := s.subs[i := sub])
  }

  // ---------------------------------------------------------- client steps

  predicate At(s: Sys, i: nat, stage: Stage) {
    i < |s.subs| && s.subs[i].stage == stage
  }

  predicate ClientEnabled(s: Sys, c: ClientStep) {
    match c
    case Begin(scope, _) => scope != Some(ZERO_ID)
    case Register(i) => At(s, i, Admitted)
    case Reserve(i) => At(s, i, Registered)
    case TakeSlot(i) => At(s, i, Reserved) && s.queue.slots < s.queue.capacity
    case Cancel(i) => At(s, i, Reserved)
    case Mark(i) => At(s, i, Slotted)
    case Send(i) => At(s, i, Marked) && |s.queue.waiting| < s.queue.capacity
    case FinishEnqueue(i) => i < |s.subs| && s.subs[i].pending && Sent(s.subs[i].stage)
    case Unwind(i) => At(s, i, Unwinding)
  }

  /** The request has been in the queue. */
  predicate Sent(stage: Stage) {
    stage == Queued || Served(stage) || stage == Responded
  }

  /** The consumer is working on the request. */
  predicate Served(stage: Stage) {
    stage == Taken || stage == Unslotted || stage == InFlight || stage == Executed || stage == Unlisted || stage == Unadmitted
  }

  function ApplyClient(s: Sys, c: ClientStep): Sys
    requires ClientEnabled(s, c)
  {
    match c
    case Begin(scope, fence) => BeginSub(s, scope, fence)
    case Register(i) => RegisterSub(s, i)
    case Reserve(i) => ReserveSub(s, i)
    case TakeSlot(i) => TakeSlotSub(s, i)
    case Cancel(i) => Put(s, i, s.subs[i].(stage := Unwinding, cancelled := true))
    case Mark(i) => MarkSub(s, i)
    case Send(i) => SendSub(s, i)
    case FinishEnqueue(i) => FinishEnqueueSub(s, i)
    case Unwind(i) => UnwindSub(s, i)
  }

  function BeginSub(s: Sys, scope: C.Scope, fence: bool): Sys {
    if !s.gate.open then s
    else
      s.(subs := s.subs + [Sub(Admitted, scope, fence, None, true, false, false, false, false, false, 0)],
         gate := s.gate.(active := s.gate.active + 1))
  }

  function RegisterSub(s: Sys, i: nat): Sys
    requires i < |s.subs|
  {
    var sub := s.subs[i];
    var (table, result) := T.Admit(s.table, sub.scope, sub.fence);
    Put(s, i, sub.(stage := if result.Ok? then Registered else Unwinding,
                   token := if result.Ok? then result.value else None,
                   activity := result.Ok?)).(table := table)
  }

  function ReserveSub(s: Sys, i: nat): Sys
    requires i < |s.subs|
  {
    Put(s, i, s.subs[i].(stage := if s.queue.accept then Reserved else Unwinding,
                         pending := s.queue.accept,
                         reserved := s.queue.accept))
    .(queue := EnterEnqueue(s.queue))
  }

  function TakeSlotSub(s: Sys, i: nat): Sys
    requires i < |s.subs|
  {
    Put(s, i, s.subs[i].(stage := Slotted, slot := true)).(queue := s.queue.(slots := s.queue.slots + 1))
  }

  function SendSub(s: Sys, i: nat): Sys
    requires i < |s.subs|
  {
    Put(s, i, s.subs[i].(stage := Queued)).(queue := s.queue.(waiting := s.queue.waiting + [i]))
  }

  function FinishEnqueueSub(s: Sys, i: nat): Sys
    requires i < |s.subs|
  {
    Put(s, i, s.subs[i].(pending := false)).(queue := LeaveEnqueue(s.queue))
  }

  function MarkSub(s: Sys, i: nat): Sys
    requires i < |s.subs|
  {
    var sub := s.subs[i];
    var (table, done) := T.Transition(s.table, sub.token, T.Queued);
    Put(s, i, sub.(stage := if done || !T.Valid(sub.token) then Marked else Unwinding)).(table := table)
  }

  /** Failure paths give back, in this order, the slot, the enqueue count, the table entry and the admission. */
  function UnwindSub(s: Sys, i: nat): Sys
    requires i < |s.subs|
  {
    var sub := s.subs[i];
    if sub.slot then Put(s, i, sub.(slot := false)).(queue := s.queue.(slots := s.queue.slots - 1))
    else if sub.pending then Put(s, i, sub.(pending := false)).(queue := LeaveEnqueue(s.queue))
    else if sub.activity then Put(s, i, sub.(activity := false)).(table := T.Finish(s.table, sub.token))
    else if sub.admission then
      Put(s, i, sub.(admission := false)).(gate := LeaveGate(s.gate), panicked := s.panicked || s.gate.active <= 0)
    else Put(s, i, sub.(stage := Returned))
  }

  // -------------------------------------------------------- consumer steps

  predicate Serving(s: Sys, stage: Stage) {
    s.queue.serving.Some? && At(s, s.queue.serving.value, stage)
  }

  predicate Idle(s: Sys, mode: Mode) {
    s.queue.serving.None? && s.queue.mode == mode
  }

  predicate ServerEnabled(s: Sys, v: ServerStep) {
    match v
    case Take =>
      && s.queue.serving.None? && s.queue.mode != Done && s.queue.waiting != []
      && s.queue.waiting[0] < |s.subs|
    case FreeSlot => Serving(s, Taken)
    case Start => Serving(s, Unslotted)
    case Exec(_) => Serving(s, InFlight)
    case FinishActivity => Serving(s, Executed)
    case EndAdmission => Serving(s, Unlisted)
    case Respond => Serving(s, Unadmitted)
    case SeeStop => Idle(s, Running) && !s.queue.accept
    case SeeEnqueueDone => Idle(s, Draining) && s.queue.enqueueDone > 0
    case SeeEmpty => Idle(s, Finishing) && s.queue.waiting == []
  }

  function ApplyServer(s: Sys, v: ServerStep): Sys
    requires ServerEnabled(s, v)
  {
    match v
    case Take => TakeSub(s)
    case SeeStop => s.(queue := s.queue.(mode := Draining))
    case SeeEnqueueDone => s.(queue := s.queue.(mode := Finishing))
    case SeeEmpty => s.(queue := s.queue.(mode := Done))
    case _ => Handle(s, v, s.queue.serving.value)
  }

  function TakeFirst(q: Queue): Queue
    requires q.waiting != []
  {
    q.(waiting := q.waiting[1..], serving := Some(q.waiting[0]))
  }

  function TakeSub(s: Sys): Sys
    requires ServerEnabled(s, Take)
  {
    var i := s.queue.waiting[0];
    Put(s, i, s.subs[i].(stage := Taken, handled := s.subs[i].handled + 1))
    .(queue := TakeFirst(s.queue))
  }

  predicate HandleEnabled(s: Sys, v: ServerStep, i: nat) {
    ServerEnabled(s, v) && s.queue.serving == Some(i) && !v.Take? && !v.SeeStop? && !v.SeeEnqueueDone? && !v.SeeEmpty?
  }

  function Handle(s: Sys, v: ServerStep, i: nat): Sys
    requires HandleEnabled(s, v, i)
  {
    var sub := s.subs[i];
    match v
    case FreeSlot =>
      Put(s, i, sub.(stage := Unslotted, slot := false))
      .(queue := s.queue.(slots := s.queue.slots - 1), panicked := s.panicked || s.queue.slots <= 0)
    case Start => StartSub(s, i)
    case Exec(script) => Put(s, i, sub.(stage := Executed)).(core := C.Execute(s.core, sub.scope, script).0)
    case FinishActivity => Put(s, i, sub.(stage := Unlisted, activity := false)).(table := T.Finish(s.table, sub.token))
    case EndAdmission =>
      Put(s, i, sub.(stage := Unadmitted, admission := false))
      .(gate := LeaveGate(s.gate), panicked := s.panicked || s.gate.active <= 0)
    case Respond => Put(s, i, sub.(stage := Responded)).(queue := s.queue.(serving := None))
    case _ => s
  }

  function StartSub(s: Sys, i: nat): Sys
    requires i < |s.subs|
  {
    var sub := s.subs[i];
    var (table, done) := T.Transition(s.table, sub.token, T.InFlight);
    Put(s, i, sub.(stage := if done || !T.Valid(sub.token) then InFlight else Executed)).(table := table)
  }

  // --------------------------------------------------------- control steps

  function ApplyControl(s: Sys, c: ControlStep): Sys {
    match c
    case Pause =>
      var gate := PauseGate(s.gate);
      s.(gate := gate,
         waiters := if s.gate.active != 0 then s.waiters + [Waiter(gate.drained.value, gate.resumes)] else s.waiters)
    case Resume => s.(gate := ResumeGate(s.gate))
    case Close => s.(queue := CloseQueue(s.queue))
  }

  predicate Enabled(s: Sys, a: Action) {
    match a
    case Client(c) => ClientEnabled(s, c)
    case Server(v) => ServerEnabled(s, v)
    case Control(_) => true
  }

  function Apply(s: Sys, a: Action): Sys
    requires Enabled(s, a)
  {
    match a
    case Client(c) => ApplyClient(s, c)
    case Server(v) => ApplyServer(s, v)
    case Control(c) => ApplyControl(s, c)
  }

  // ------------------------------------------------------------- invariant

  /** Which counters a submission stands in at each stage. */
  predicate Shape(x: Sub) {
    && (x.slot ==> x.reserved) && (x.pending ==> x.reserved) && (x.activity ==> x.admission)
    && (x.token.Some? ==> x.scope == Some(x.token.value.resident))
    && (x.activity && x.token.None? ==> x.scope.None?)
    && x.scope != Some(ZERO_ID)
    && (x.handled == if Served(x.stage) || x.stage == Responded then 1 else 0)
    && match x.stage
       case Admitted => x.admission && !x.activity && !x.slot && !x.reserved && x.token == None
       case Registered => x.activity && !x.slot && !x.reserved
       case Reserved => x.activity && x.pending && !x.slot
       case Slotted => x.activity && x.pending && x.slot
       case Marked => x.activity && x.pending && x.slot
       case Queued => x.activity && x.slot
       case Taken => x.activity && x.slot
       case Unslotted => x.activity && !x.slot && x.reserved
       case InFlight => x.activity && !x.slot && x.reserved
       case Executed => x.activity && !x.slot && x.reserved
       case Unlisted => !x.activity && x.admission && !x.slot && x.reserved
       case Unadmitted => !x.admission && !x.slot && x.reserved
       case Responded => !x.admission && !x.slot && x.reserved
       case Unwinding => !x.slot && (x.pending ==> x.activity) && (x.reserved ==> x.cancelled)
       case Returned => !x.admission && !x.pending && !x.slot && (x.reserved ==> x.cancelled)
  }

  predicate HoldsSlot(x: Sub) { x.slot }
  predicate HoldsEnqueue(x: Sub) { x.pending }
  predicate HoldsAdmission(x: Sub) { x.admission }
  predicate IsQueued(x: Sub) { x.stage == Queued }

  ghost predicate Counts(subs: seq<Sub>, slots: int, pendingEnqueue: int, active: int, waiting: nat) {
    && slots == CountIf(subs, HoldsSlot)
    && pendingEnqueue == CountIf(subs, HoldsEnqueue)
    && active == CountIf(subs, HoldsAdmission)
    && waiting == CountIf(subs, IsQueued)
  }

  ghost predicate Shapes(subs: seq<Sub>) {
    forall i :: 0 <= i < |subs| ==> Shape(subs[i])
  }

  ghost predicate Line(subs: seq<Sub>, waiting: seq<nat>, serving: Option<nat>) {
    && (forall k :: 0 <= k < |waiting| ==> waiting[k] < |subs| && subs[waiting[k]].stage == Queued)
    && (forall k, l :: 0 <= k < l < |waiting| ==> waiting[k] != waiting[l])
    && (serving.Some? ==> serving.value < |subs| && Served(subs[serving.value].stage))
    && (forall i :: 0 <= i < |subs| && Served(subs[i].stage) ==> serving == Some(i))
  }

  /** `enqueueDone` is closed exactly when the Writer is closed and nobody is still enqueueing. */
  predicate Closing(q: Queue) {
    && 0 <= q.slots <= q.capacity && 0 < q.capacity
    && q.enqueueDone == (if !q.accept && q.pendingEnqueue == 0 then 1 else 0)
    && (q.mode != Running ==> !q.accept)
    && (q.mode == Finishing || q.mode == Done ==> q.enqueueDone == 1)
    && (q.mode == Done ==> q.waiting == [] && q.serving.None?)
  }

  function StateOf(stage: Stage): T.State {
    match stage
    case Admitted | Registered | Reserved | Slotted | Unwinding | Returned => T.Accepted
    case Marked | Queued | Taken | Unslotted => T.Queued
    case InFlight | Executed | Unlisted | Unadmitted | Responded => T.InFlight
  }

  predicate HasEntry(x: Sub, g: T.Table) {
    x.activity && x.token.Some? ==> T.Names(g, x.token) && g.entries[x.token.value.sequence].state == StateOf(x.stage)
  }

  /** Every live scoped submission is listed in the state its stage calls for, under a sequence number of its own. */
  ghost predicate Listed(subs: seq<Sub>, g: T.Table) {
    && T.Inv(g)
    && (forall i :: 0 <= i < |subs| ==> HasEntry(subs[i], g))
    && (forall i :: 0 <= i < |subs| && subs[i].token.Some? ==> 0 < subs[i].token.value.sequence <= g.next)
    && (forall i, j :: 0 <= i < j < |subs| && subs[i].token.Some? && subs[j].token.Some? ==>
          subs[i].token.value.sequence != subs[j].token.value.sequence)
  }

  ghost predicate Fence(g: Gate, waiters: seq<Waiter>) {
    && (g.drained.Some? ==> g.active > 0 && !g.open && g.drained.value < g.nextChannel && g.drained.value !in g.closed)
    && (forall c :: c in g.closed ==> c < g.nextChannel)
    && (forall w :: 0 <= w < |waiters| ==>
          && waiters[w].channel < g.nextChannel && waiters[w].resumes <= g.resumes
          && (waiters[w].channel !in g.closed ==> g.drained == Some(waiters[w].channel) && waiters[w].resumes == g.resumes)
          && (waiters[w].channel in g.closed && waiters[w].resumes == g.resumes ==> !g.open && g.active == 0))
  }

  ghost predicate Inv(s: Sys) {
    && Shapes(s.subs)
    && Counts(s.subs, s.queue.slots, s.queue.pendingEnqueue, s.gate.active, |s.queue.waiting|)
    && Line(s.subs, s.queue.waiting, s.queue.serving)
    && Closing(s.queue)
    && Listed(s.subs, s.table)
    && Fence(s.gate, s.waiters)
    && C.Inv(s.core)
    && !s.panicked
  }

  // ----------------------------------------------- moving one submission

  function Bit(b: bool): int { if b then 1 else 0 }

  lemma CountsMove(subs: seq<Sub>, i: nat, x: Sub, slots: int, pendingEnqueue: int, active: int, waiting: nat)
    requires i < |subs| && Counts(subs, slots, pendingEnqueue, active, waiting)
    ensures var was := subs[i];
            && waiting + Bit(IsQueued(x)) - Bit(IsQueued(was)) >= 0
            && Counts(subs[i := x], slots + Bit(x.slot) - Bit(was.slot), pendingEnqueue + Bit(x.pending) - Bit(was.pending),
                      active + Bit(x.admission) - Bit(was.admission), waiting + Bit(IsQueued(x)) - Bit(IsQueued(was)))
  {
    CountUpdate(subs, i, x, HoldsSlot);
    CountUpdate(subs, i, x, HoldsEnqueue);
    CountUpdate(subs, i, x, HoldsAdmission);
    CountUpdate(subs, i, x, IsQueued);
  }

  /** A submission that stands in a counter keeps it positive; one that holds a slot outside the queue leaves room in it. */
  lemma CountsCover(s: Sys, i: nat)
    requires Inv(s) && i < |s.subs|
    ensures s.subs[i].slot ==> s.queue.slots > 0
    ensures s.subs[i].pending ==> s.queue.pendingEnqueue > 0
    ensures s.subs[i].admission ==> s.gate.active > 0
    ensures s.subs[i].slot && s.subs[i].stage != Queued ==> |s.queue.waiting| < s.queue.slots
  {
    CountBound(s.subs, HoldsSlot);
    CountBound(s.subs, HoldsEnqueue);
    CountBound(s.subs, HoldsAdmission);
    CountImplied(s.subs, IsQueued, HoldsSlot);
  }

  /** A step of submission i that keeps its place in line. */
  lemma LineMove(subs: seq<Sub>, waiting: seq<nat>, serving: Option<nat>, i: nat, x: Sub)
    requires i < |subs| && Line(subs, waiting, serving)
    requires (subs[i].stage == Queued) == (x.stage == Queued) && Served(subs[i].stage) == Served(x.stage)
    ensures Line(subs[i := x], waiting, serving)
  {
  }

  lemma LineSend(subs: seq<Sub>, waiting: seq<nat>, serving: Option<nat>, i: nat, x: Sub)
    requires i < |subs| && Line(subs, waiting, serving) && subs[i].stage == Marked && x.stage == Queued
    ensures Line(subs[i := x], waiting + [i], serving)
  {
  }

  lemma LineTake(subs: seq<Sub>, waiting: seq<nat>, x: Sub)
    requires waiting != [] && Line(subs, waiting, None) && x.stage == Taken
    ensures waiting[0] < |subs| && subs[waiting[0]].stage == Queued
    ensures Line(subs[waiting[0] := x], waiting[1..], Some(waiting[0]))
  {
  }

  lemma LineRespond(subs: seq<Sub>, waiting: seq<nat>, i: nat, x: Sub)
    requires i < |subs| && Line(subs, waiting, Some(i)) && x.stage == Responded
    ensures Line(subs[i := x], waiting, None)
  {
  }

  lemma ListedMove(subs: seq<Sub>, g: T.Table, i: nat, x: Sub)
    requires i < |subs| && Listed(subs, g) && x.token == subs[i].token
    requires x.activity ==> subs[i].activity && StateOf(x.stage) == StateOf(subs[i].stage)
    ensures Listed(subs[i := x], g)
  {
  }

  lemma ListedTransition(subs: seq<Sub>, g: T.Table, i: nat, x: Sub, to: T.State)
    requires i < |subs| && Listed(subs, g) && subs[i].activity
    requires T.Follows(StateOf(subs[i].stage), to) && StateOf(x.stage) == to && x.token == subs[i].token
    requires x.token.Some? ==> x.token.value.resident != ZERO_ID
    ensures T.Valid(x.token) ==> T.Transition(g, x.token, to).1
    ensures Listed(subs[i := x], T.Transition(g, x.token, to).0)
  {
    T.StepKeepsInv(g, T.TransitionOp(x.token, to));
  }

  lemma ListedFinish(subs: seq<Sub>, g: T.Table, i: nat, x: Sub)
    requires i < |subs| && Listed(subs, g) && x.token == subs[i].token && !x.activity
    ensures Listed(subs[i := x], T.Finish(g, x.token))
  {
    T.StepKeepsInv(g, T.FinishOp(x.token));
  }

  lemma ListedAdmit(subs: seq<Sub>, g: T.Table, i: nat, x: Sub, scope: C.Scope, fence: bool)
    requires i < |subs| && Listed(subs, g) && subs[i].token.None? && scope != Some(ZERO_ID)
    requires var r := T.Admit(g, scope, fence).1;
             x.token == (if r.Ok? then r.value else None) && x.stage == (if r.Ok? then Registered else Unwinding)
    ensures Listed(subs[i := x], T.Admit(g, scope, fence).0)
  {
    T.StepKeepsInv(g, T.AdmitOp(scope, fence));
  }

  // ------------------------------------------------ every step keeps it

  lemma Move(s: Sys, i: nat, x: Sub)
    requires Inv(s) && i < |s.subs| && Shape(x)
    ensures Shapes(s.subs[i := x])
    ensures var was := s.subs[i];
            && |s.queue.waiting| + Bit(IsQueued(x)) - Bit(IsQueued(was)) >= 0
            && Counts(s.subs[i := x], s.queue.slots + Bit(x.slot) - Bit(was.slot),
                      s.queue.pendingEnqueue + Bit(x.pending) - Bit(was.pending),
                      s.gate.active + Bit(x.admission) - Bit(was.admission),
                      |s.queue.waiting| + Bit(IsQueued(x)) - Bit(IsQueued(was)))
    ensures s.subs[i].slot ==> s.queue.slots > 0
    ensures s.subs[i].pending ==> s.queue.pendingEnqueue > 0
    ensures s.subs[i].admission ==> s.gate.active > 0
  {
    CountsMove(s.subs, i, x, s.queue.slots, s.queue.pendingEnqueue, s.gate.active, |s.queue.waiting|);
    CountsCover(s, i);
  }

  lemma LeaveGateKeepsFence(g: Gate, waiters: seq<Waiter>)
    requires Fence(g, waiters) && g.active > 0
    ensures Fence(LeaveGate(g), waiters)
  {
  }

  lemma CountsAppend(subs: seq<Sub>, x: Sub, slots: int, pendingEnqueue: int, active: int, waiting: nat)
    requires Counts(subs, slots, pendingEnqueue, active, waiting) && !x.slot && !x.pending && x.admission && !IsQueued(x)
    ensures active >= 0 && Counts(subs + [x], slots, pendingEnqueue, active + 1, waiting)
  {
    CountAppend(subs, x, HoldsSlot);
    CountAppend(subs, x, HoldsEnqueue);
    CountAppend(subs, x, HoldsAdmission);
    CountAppend(subs, x, IsQueued);
  }

  lemma ListsAppend(subs: seq<Sub>, x: Sub, waiting: seq<nat>, serving: Option<nat>, g: T.Table)
    requires Shapes(subs) && Line(subs, waiting, serving) && Listed(subs, g)
    requires Shape(x) && x.stage == Admitted
    ensures Shapes(subs + [x]) && Line(subs + [x], waiting, serving) && Listed(subs + [x], g)
  {
  }

  lemma EnterGateKeepsFence(g: Gate, waiters: seq<Waiter>)
    requires Fence(g, waiters) && g.open && g.active >= 0
    ensures Fence(g.(active := g.active + 1), waiters)
  {
  }

  lemma BeginKeepsInv(s: Sys, scope: C.Scope, fence: bool)
    requires Inv(s) && scope != Some(ZERO_ID)
    ensures Inv(BeginSub(s, scope, fence))
  {
    hide Shapes, Line, Listed, Counts, Fence, Closing, C.Inv;
    if s.gate.open {
      var x := Sub(Admitted, scope, fence, None, true, false, false, false, false, false, 0);
      CountsAppend(s.subs, x, s.queue.slots, s.queue.pendingEnqueue, s.gate.active, |s.queue.waiting|);
      EnterGateKeepsFence(s.gate, s.waiters);
      ListsAppend(s.subs, x, s.queue.waiting, s.queue.serving, s.table);
    }
  }

  lemma RegisteredShape(x: Sub, g: T.Table)
    requires Shape(x) && x.stage == Admitted
    ensures var r := T.Admit(g, x.scope, x.fence).1;
            Shape(x.(stage := if r.Ok? then Registered else Unwinding, token := if r.Ok? then r.value else None, activity := r.Ok?))
    ensures x.token.None? && !x.slot && !x.pending && x.scope != Some(ZERO_ID)
  {
  }

  lemma RegisterKeepsInv(s: Sys, i: nat)
    requires Inv(s) && At(s, i, Admitted)
    ensures Inv(RegisterSub(s, i))
  {
    hide Line, Listed, Counts, Fence, Closing, C.Inv, Shape, T.Admit;
    var t := RegisterSub(s, i);
    RegisteredShape(s.subs[i], s.table);
    Move(s, i, t.subs[i]);
    LineMove(s.subs, s.queue.waiting, s.queue.serving, i, t.subs[i]);
    ListedAdmit(s.subs, s.table, i, t.subs[i], s.subs[i].scope, s.subs[i].fence);
  }

  lemma ReservedShape(x: Sub, accept: bool)
    requires Shape(x) && x.stage == Registered
    ensures Shape(x.(stage := if accept then Reserved else Unwinding, pending := accept, reserved := accept))
    ensures !x.pending && StateOf(x.stage) == StateOf(if accept then Reserved else Unwinding)
    ensures !Served(x.stage) && !Served(if accept then Reserved else Unwinding)
  {
  }

  lemma ReserveKeepsClosing(q: Queue)
    requires Closing(q)
    ensures Closing(EnterEnqueue(q))
  {
  }

  lemma ReserveKeepsInv(s: Sys, i: nat)
    requires Inv(s) && At(s, i, Registered)
    ensures Inv(ReserveSub(s, i))
  {
    hide Line, Listed, Counts, Fence, Closing, C.Inv, Shape, StateOf, Served;
    ReserveKeepsClosing(s.queue);
    var t := ReserveSub(s, i);
    ReservedShape(s.subs[i], s.queue.accept);
    Move(s, i, t.subs[i]);
    LineMove(s.subs, s.queue.waiting, s.queue.serving, i, t.subs[i]);
    ListedMove(s.subs, s.table, i, t.subs[i]);
  }

  lemma TakeSlotKeepsInv(s: Sys, i: nat)
    requires Inv(s) && At(s, i, Reserved) && s.queue.slots < s.queue.capacity
    ensures Inv(TakeSlotSub(s, i))
  {
    hide Line, Listed, Counts, Fence, C.Inv;
    var t := TakeSlotSub(s, i);
    Move(s, i, t.subs[i]);
    LineMove(s.subs, s.queue.waiting, s.queue.serving, i, t.subs[i]);
    ListedMove(s.subs, s.table, i, t.subs[i]);
    assert Closing(t.queue);
    hide Closing, Shape;
  }

  lemma CancelKeepsInv(s: Sys, i: nat)
    requires Inv(s) && At(s, i, Reserved)
    ensures Inv(Put(s, i, s.subs[i].(stage := Unwinding, cancelled := true)))
  {
    hide Line, Listed, Counts, Fence, C.Inv;
    var x := s.subs[i].(stage := Unwinding, cancelled := true);
    Move(s, i, x);
    LineMove(s.subs, s.queue.waiting, s.queue.serving, i, x);
    ListedMove(s.subs, s.table, i, x);
  }

  lemma MarkKeepsInv(s: Sys, i: nat)
    requires Inv(s) && At(s, i, Slotted)
    ensures Inv(MarkSub(s, i)) && MarkSub(s, i).subs[i].stage == Marked
  {
    hide T.Transition, Line, Listed, Counts, Fence, C.Inv;
    var x := s.subs[i].(stage := Marked);
    ListedTransition(s.subs, s.table, i, x, T.Queued);
    Move(s, i, x);
    LineMove(s.subs, s.queue.waiting, s.queue.serving, i, x);
  }

  lemma SendKeepsInv(s: Sys, i: nat)
    requires Inv(s) && At(s, i, Marked)
    ensures Inv(SendSub(s, i))
  {
    hide Line, Listed, Counts, Fence, C.Inv;
    var x := s.subs[i].(stage := Queued);
    LineSend(s.subs, s.queue.waiting, s.queue.serving, i, x);
    Move(s, i, x);
    ListedMove(s.subs, s.table, i, x);
  }

  lemma LeaveKeepsClosing(q: Queue)
    requires Closing(q) && q.pendingEnqueue > 0
    ensures Closing(LeaveEnqueue(q))
  {
  }

  lemma SentShape(x: Sub)
    requires Shape(x) && Sent(x.stage)
    ensures Shape(x.(pending := false))
  {
  }

  lemma FinishEnqueueKeepsInv(s: Sys, i: nat)
    requires Inv(s) && i < |s.subs| && s.subs[i].pending && Sent(s.subs[i].stage)
    ensures Inv(FinishEnqueueSub(s, i))
  {
    hide Line, Listed, Counts, Fence, Closing, C.Inv, Shape;
    var x := s.subs[i].(pending := false);
    SentShape(s.subs[i]);
    Move(s, i, x);
    LeaveKeepsClosing(s.queue);
    LineMove(s.subs, s.queue.waiting, s.queue.serving, i, x);
    ListedMove(s.subs, s.table, i, x);
  }

  lemma UnwindKeepsInv(s: Sys, i: nat)
    requires Inv(s) && At(s, i, Unwinding)
    ensures Inv(UnwindSub(s, i))
  {
    hide Line, Listed, Counts, Fence, C.Inv;
    var t := UnwindSub(s, i);
    Move(s, i, t.subs[i]);
    LineMove(s.subs, s.queue.waiting, s.queue.serving, i, t.subs[i]);
    if !s.subs[i].pending && s.subs[i].activity {
      ListedFinish(s.subs, s.table, i, t.subs[i]);
    } else {
      ListedMove(s.subs, s.table, i, t.subs[i]);
    }
    if s.subs[i].admission {
      LeaveGateKeepsFence(s.gate, s.waiters);
    }
  }

  lemma TakeKeepsClosing(q: Queue)
    requires Closing(q) && q.waiting != [] && q.mode != Done
    ensures Closing(TakeFirst(q)) && |TakeFirst(q).waiting| == |q.waiting| - 1
  {
  }

  lemma TakenShape(x: Sub)
    requires Shape(x) && x.stage == Queued
    ensures Shape(x.(stage := Taken, handled := x.handled + 1))
  {
  }

  lemma TakeKeepsInv(s: Sys)
    requires Inv(s) && ServerEnabled(s, Take)
    ensures Inv(TakeSub(s))
  {
    hide Line, Listed, Counts, Fence, Closing, C.Inv, Shape;
    var i := s.queue.waiting[0];
    var x := s.subs[i].(stage := Taken, handled := s.subs[i].handled + 1);
    LineTake(s.subs, s.queue.waiting, x);
    TakenShape(s.subs[i]);
    TakeKeepsClosing(s.queue);
    Move(s, i, x);
    ListedMove(s.subs, s.table, i, x);
    hide Shapes;
  }

  lemma FreeSlotKeepsInv(s: Sys, i: nat)
    requires Inv(s) && HandleEnabled(s, FreeSlot, i)
    ensures Inv(Handle(s, FreeSlot, i))
  {
    hide Line, Listed, Counts, Fence, C.Inv;
    var x := s.subs[i].(stage := Unslotted, slot := false);
    Move(s, i, x);
    LineMove(s.subs, s.queue.waiting, s.queue.serving, i, x);
    ListedMove(s.subs, s.table, i, x);
  }

  lemma StartKeepsInv(s: Sys, i: nat)
    requires Inv(s) && HandleEnabled(s, Start, i)
    ensures Inv(StartSub(s, i)) && StartSub(s, i).subs[i].stage == InFlight
  {
    hide T.Transition, Line, Listed, Counts, Fence, C.Inv;
    var x := s.subs[i].(stage := InFlight);
    ListedTransition(s.subs, s.table, i, x, T.InFlight);
    Move(s, i, x);
    LineMove(s.subs, s.queue.waiting, s.queue.serving, i, x);
  }

  lemma ExecKeepsInv(s: Sys, script: C.Script, i: nat)
    requires Inv(s) && HandleEnabled(s, Exec(script), i)
    ensures Inv(Handle(s, Exec(script), i))
  {
    hide Line, Listed, Counts, Fence, C.Inv;
    var x := s.subs[i].(stage := Executed);
    Move(s, i, x);
    LineMove(s.subs, s.queue.waiting, s.queue.serving, i, x);
    ListedMove(s.subs, s.table, i, x);
    C.ExecuteKeepsInv(s.core, s.subs[i].scope, script);
  }

  lemma EpilogueKeepsInv(s: Sys, v: ServerStep, i: nat)
    requires Inv(s) && HandleEnabled(s, v, i) && (v.FinishActivity? || v.EndAdmission?)
    ensures Inv(Handle(s, v, i))
  {
    hide Line, Listed, Counts, Fence, C.Inv;
    var t := Handle(s, v, i);
    Move(s, i, t.subs[i]);
    LineMove(s.subs, s.queue.waiting, s.queue.serving, i, t.subs[i]);
    if v.FinishActivity? {
      ListedFinish(s.subs, s.table, i, t.subs[i]);
    } else {
      ListedMove(s.subs, s.table, i, t.subs[i]);
      LeaveGateKeepsFence(s.gate, s.waiters);
    }
  }

  lemma RespondKeepsInv(s: Sys, i: nat)
    requires Inv(s) && HandleEnabled(s, Respond, i)
    ensures Inv(Handle(s, Respond, i))
  {
    hide Line, Listed, Counts, Fence, C.Inv;
    var x := s.subs[i].(stage := Responded);
    LineRespond(s.subs, s.queue.waiting, i, x);
    Move(s, i, x);
    ListedMove(s.subs, s.table, i, x);
  }

  lemma ControlKeepsInv(s: Sys, c: ControlStep)
    requires Inv(s)
    ensures Inv(ApplyControl(s, c))
  {
    CountBound(s.subs, HoldsAdmission);
    CountBound(s.subs, HoldsEnqueue);
    hide Shapes, Line, Listed, C.Inv, CountIf;
  }

  lemma ClientKeepsInv(s: Sys, c: ClientStep)
    requires Inv(s) && ClientEnabled(s, c)
    ensures Inv(ApplyClient(s, c))
  {
    hide Inv, BeginSub, RegisterSub, ReserveSub, TakeSlotSub, MarkSub, SendSub, FinishEnqueueSub, UnwindSub, Put;
    match c
    case Begin(scope, fence) => BeginKeepsInv(s, scope, fence);
    case Register(i) => RegisterKeepsInv(s, i);
    case Reserve(i) => ReserveKeepsInv(s, i);
    case Mark(i) => MarkKeepsInv(s, i);
    case Send(i) => SendKeepsInv(s, i);
    case FinishEnqueue(i) => FinishEnqueueKeepsInv(s, i);
    case Unwind(i) => UnwindKeepsInv(s, i);
    case TakeSlot(i) => TakeSlotKeepsInv(s, i);
    case Cancel(i) => CancelKeepsInv(s, i);
  }

  lemma LoopKeepsInv(s: Sys, v: ServerStep)
    requires Inv(s) && ServerEnabled(s, v) && (v.SeeStop? || v.SeeEnqueueDone? || v.SeeEmpty?)
    ensures Inv(ApplyServer(s, v))
  {
  }

  lemma HandleKeepsInv(s: Sys, v: ServerStep, i: nat)
    requires Inv(s) && HandleEnabled(s, v, i)
    ensures Inv(Handle(s, v, i))
  {
    hide Inv, StartSub, Put;
    match v
    case FreeSlot => FreeSlotKeepsInv(s, i);
    case Start => StartKeepsInv(s, i);
    case Exec(script) => ExecKeepsInv(s, script, i);
    case Respond => RespondKeepsInv(s, i);
    case _ => EpilogueKeepsInv(s, v, i);
  }

  lemma ServerKeepsInv(s: Sys, v: ServerStep)
    requires Inv(s) && ServerEnabled(s, v)
    ensures Inv(ApplyServer(s, v))
  {
    hide Inv, TakeSub, Handle;
    match v
    case Take => TakeKeepsInv(s);
    case SeeStop => LoopKeepsInv(s, v);
    case SeeEnqueueDone => LoopKeepsInv(s, v);
    case SeeEmpty => LoopKeepsInv(s, v);
    case _ => HandleKeepsInv(s, v, s.queue.serving.value);
  }

  lemma StepKeepsInv(s: Sys, a: Action)
    requires Inv(s) && Enabled(s, a)
    ensures Inv(Apply(s, a))
  {
    hide Inv, ClientEnabled, ServerEnabled, ApplyClient, ApplyServer, ApplyControl;
    match a
    case Client(c) => ClientKeepsInv(s, c);
    case Server(v) => ServerKeepsInv(s, v);
    case Control(c) => ControlKeepsInv(s, c);
  }

  // -------------------------------------------------------------- theorems

  ghost predicate Reaches(from: Sys, run: seq<Action>, to: Sys)
    decreases |run|
  {
    if run == [] then from == to
    else Enabled(from, run[0]) && Reaches(Apply(from, run[0]), run[1..], to)
  }

  lemma {:induction false} RunKeepsInv(from: Sys, run: seq<Action>, to: Sys)
    requires Inv(from) && Reaches(from, run, to)
    ensures Inv(to)
    decreases |run|
  {
    if run != [] {
      StepKeepsInv(from, run[0]);
      RunKeepsInv(Apply(from, run[0]), run[1..], to);
    }
  }

  /** A Writer opened over a valid store, after any run. */
  ghost predicate Reachable(s: Sys) {
    exists capacity: nat, durable, run ::
      capacity > 0 && C.Gapless(durable) && Reaches(Opened(capacity, durable), run, s)
  }

  lemma ReachableInv(s: Sys)
    requires Reachable(s)
    ensures Inv(s)
  {
    var capacity: nat, durable, run :|
      capacity > 0 && C.Gapless(durable) && Reaches(Opened(capacity, durable), run, s);
    RunKeepsInv(Opened(capacity, durable), run, s);
  }

  /**
   No count goes negative or past the queue's capacity, no panic branch is
   reached, `enqueueDone` is closed at most once and no request is received twice.
   */
  lemma CountsStayExact(s: Sys)
    requires Reachable(s)
    ensures !s.panicked && 0 <= s.queue.slots <= s.queue.capacity && 0 <= s.queue.pendingEnqueue && 0 <= s.gate.active
    ensures s.queue.enqueueDone <= 1
    ensures forall i :: 0 <= i < |s.subs| ==> s.subs[i].handled <= 1
  {
    ReachableInv(s);
    hide Line, Listed, Fence, C.Inv, Reachable;
    CountBound(s.subs, HoldsEnqueue);
    CountBound(s.subs, HoldsAdmission);
  }

  /** A sender that holds its slot finds room in the queue, and the consumer finds the slot it gives back. */
  lemma SlotsMatchTheQueue(s: Sys, i: nat)
    requires Reachable(s)
    ensures At(s, i, Marked) ==> ClientEnabled(s, Send(i))
    ensures At(s, i, Taken) ==> s.queue.slots > 0
  {
    ReachableInv(s);
    hide Reachable;
    if At(s, i, Marked) || At(s, i, Taken) {
      HoldersHaveSlots(s, i);
      hide Inv;
      CountsCover(s, i);
    }
  }

  lemma HoldersHaveSlots(s: Sys, i: nat)
    requires Inv(s) && (At(s, i, Marked) || At(s, i, Taken))
    ensures s.subs[i].slot && s.queue.slots <= s.queue.capacity
  {
    hide Line, Listed, Counts, Fence, C.Inv;
    assert Shape(s.subs[i]);
  }

  /** Handled once and answered, or given up by its own context before it took a slot. */
  predicate Settled(x: Sub) {
    (x.handled == 1 && x.stage == Responded) ||
    (x.handled == 0 && x.cancelled && !x.slot && (x.stage == Unwinding || x.stage == Returned))
  }

  /** When `done` closes, every submission that passed `reserveEnqueue` is settled and none can reach the queue any more. */
  lemma DrainIsExact(s: Sys)
    requires Reachable(s) && s.queue.mode == Done
    ensures forall i :: 0 <= i < |s.subs| && s.subs[i].reserved ==> Settled(s.subs[i])
    ensures s.queue.slots == 0 && s.queue.waiting == []
  {
    ReachableInv(s);
    CountBound(s.subs, HoldsEnqueue);
    CountBound(s.subs, IsQueued);
    forall i | 0 <= i < |s.subs|
      ensures !s.subs[i].slot && (s.subs[i].reserved ==> Settled(s.subs[i]))
    {
      assert Shape(s.subs[i]) && !s.subs[i].pending && !IsQueued(s.subs[i]) && !Served(s.subs[i].stage);
    }
    CountBound(s.subs, HoldsSlot);
  }

  /** A resident-scoped command that passes the exclusion check while it executes is the only live submission of its resident. */
  lemma ExclusiveCommandIsAlone(s: Sys, i: nat)
    requires Reachable(s) && i < |s.subs| && s.subs[i].token.Some? && s.subs[i].activity
    requires T.RequireExclusive(s.table, s.subs[i].token, s.subs[i].token.value.resident) == None
    ensures forall j :: 0 <= j < |s.subs| && j != i && s.subs[j].activity ==> s.subs[j].scope != s.subs[i].scope
  {
    ReachableInv(s);
    var token := s.subs[i].token.value;
    forall j | 0 <= j < |s.subs| && j != i && s.subs[j].activity
      ensures s.subs[j].scope != s.subs[i].scope
    {
      assert Shape(s.subs[i]) && Shape(s.subs[j]) && HasEntry(s.subs[j], s.table);
    }
  }

  // ------------------------------------------------------ paused admission

  /** The stable interval of a successful pause. */
  predicate Quiet(s: Sys) {
    !s.gate.open && s.gate.active == 0
  }

  /** Without an admitted command nothing is listed, holds a slot, waits in the queue or executes. */
  lemma IdleSubs(s: Sys)
    requires Inv(s) && s.gate.active == 0
    ensures forall i :: 0 <= i < |s.subs| ==> !s.subs[i].admission && !s.subs[i].activity && !s.subs[i].slot
    ensures forall i :: At(s, i, InFlight) || At(s, i, Unlisted) ==> false
    ensures s.queue.waiting == []
  {
    CountBound(s.subs, HoldsAdmission);
    CountBound(s.subs, IsQueued);
    forall i | 0 <= i < |s.subs|
      ensures !s.subs[i].admission && !s.subs[i].activity && !s.subs[i].slot && s.subs[i].stage != Queued
      ensures s.subs[i].stage != InFlight && s.subs[i].stage != Unlisted
    {
      assert Shape(s.subs[i]);
    }
  }

  /**
   A pause that returns at once is quiet. A pause that waited is quiet when its
   channel has closed, unless someone has resumed in between; until then its
   channel is still the one the last command will close.
   */
  lemma PauseSucceedsQuietly(s: Sys, w: nat)
    requires Reachable(s)
    ensures s.gate.active == 0 ==> Quiet(ApplyControl(s, Pause)) && ApplyControl(s, Pause).waiters == s.waiters
    ensures w < |s.waiters| && s.waiters[w].channel in s.gate.closed && s.waiters[w].resumes == s.gate.resumes ==> Quiet(s)
    ensures w < |s.waiters| && s.waiters[w].channel !in s.gate.closed ==>
              s.gate.active > 0 && s.gate.drained == Some(s.waiters[w].channel)
  {
    ReachableInv(s);
  }

  lemma IdleClient(s: Sys, c: ClientStep)
    requires Inv(s) && s.gate.active == 0 && ClientEnabled(s, c) && !c.Begin?
    ensures ApplyClient(s, c).gate == s.gate && ApplyClient(s, c).core == s.core
  {
    IdleSubs(s);
    hide Inv, T.Admit, T.Transition, T.Finish, LeaveEnqueue;
  }

  lemma IdleHandle(s: Sys, v: ServerStep, i: nat)
    requires HandleEnabled(s, v, i) && !v.Exec? && !v.EndAdmission?
    ensures Handle(s, v, i).gate == s.gate && Handle(s, v, i).core == s.core
  {
    hide T.Transition, T.Finish;
  }

  lemma IdleServer(s: Sys, v: ServerStep)
    requires Inv(s) && s.gate.active == 0 && ServerEnabled(s, v)
    ensures ApplyServer(s, v).gate == s.gate && ApplyServer(s, v).core == s.core
  {
    IdleSubs(s);
    hide Inv, Handle;
    if HandleEnabled(s, v, if s.queue.serving.Some? then s.queue.serving.value else 0) {
      assert !v.Exec? && !v.EndAdmission?;
      IdleHandle(s, v, s.queue.serving.value);
    }
  }

  /** While nothing is admitted, only an admission can lead to another commit. */
  lemma StepKeepsIdle(s: Sys, a: Action)
    requires Inv(s) && s.gate.active == 0 && Enabled(s, a) && !(a.Client? && a.client.Begin?)
    ensures Apply(s, a).gate.active == 0 && Apply(s, a).core == s.core
    ensures !s.gate.open && a != Control(Resume) ==> !Apply(s, a).gate.open
  {
    hide Inv, ClientEnabled, ServerEnabled, ApplyClient, ApplyServer;
    match a
    case Client(c) => IdleClient(s, c);
    case Server(v) => IdleServer(s, v);
    case Control(c) =>
  }

  lemma StepKeepsQuiet(s: Sys, a: Action)
    requires Inv(s) && Quiet(s) && Enabled(s, a) && a != Control(Resume)
    ensures Quiet(Apply(s, a)) && Apply(s, a).core == s.core
  {
    hide Inv;
    if a.Client? && a.client.Begin? {
      assert Apply(s, a) == s;
    } else {
      StepKeepsIdle(s, a);
    }
  }

  /** From a successful pause to the next resume no command is live and the commit head stands still. */
  lemma {:induction false} HeadFixedWhilePaused(s: Sys, run: seq<Action>, t: Sys)
    requires Inv(s) && Quiet(s) && Reaches(s, run, t) && Control(Resume) !in run
    ensures Quiet(t) && t.core == s.core
    decreases |run|
  {
    if run != [] {
      assert run[0] in run && forall a :: a in run[1..] ==> a in run;
      StepKeepsQuiet(s, run[0]);
      StepKeepsInv(s, run[0]);
      HeadFixedWhilePaused(Apply(s, run[0]), run[1..], t);
    }
  }

  // ----------------------------------------------------- drain terminates

  /** Steps that need no new caller and no context to end. */
  predicate Internal(a: Action) {
    match a
    case Client(c) => !c.Begin? && !c.Cancel?
    case Server(_) => true
    case Control(_) => false
  }

  function StageRank(stage: Stage): nat {
    match stage
    case Admitted => 20
    case Registered => 18
    case Reserved => 16
    case Slotted => 14
    case Marked => 12
    case Queued => 10
    case Taken => 9
    case Unslotted => 8
    case InFlight => 7
    case Executed => 6
    case Unlisted => 5
    case Unadmitted => 4
    case Unwinding => 3
    case Returned => 0
    case Responded => 0
  }

  function Rank(x: Sub): nat {
    2 * StageRank(x.stage) + (if x.slot then 1 else 0) + (if x.pending then 1 else 0)
    + (if x.activity then 1 else 0) + (if x.admission then 1 else 0)
  }

  function Measure(s: Sys): nat {
    Total(s.subs, Rank) + match s.queue.mode case Running => 3 case Draining => 2 case Finishing => 1 case Done => 0
  }

  lemma UnwindRankFalls(s: Sys, i: nat)
    requires i < |s.subs| && s.subs[i].stage == Unwinding
    ensures |UnwindSub(s, i).subs| == |s.subs| && Rank(UnwindSub(s, i).subs[i]) < Rank(s.subs[i])
  {
    hide T.Finish, LeaveEnqueue, LeaveGate;
  }

  lemma FirstRanksFall(s: Sys, i: nat)
    requires i < |s.subs|
    ensures s.subs[i].stage == Admitted ==>
              |RegisterSub(s, i).subs| == |s.subs| && Rank(RegisterSub(s, i).subs[i]) < Rank(s.subs[i])
    ensures s.subs[i].stage == Slotted ==> |MarkSub(s, i).subs| == |s.subs| && Rank(MarkSub(s, i).subs[i]) < Rank(s.subs[i])
  {
    hide T.Admit, T.Transition;
  }

  lemma ClientRankFalls(s: Sys, c: ClientStep)
    requires ClientEnabled(s, c) && !c.Begin? && !c.Cancel?
    ensures Rank(ApplyClient(s, c).subs[c.i]) < Rank(s.subs[c.i])
  {
    hide RegisterSub, MarkSub, UnwindSub, LeaveEnqueue;
    match c
    case Register(i) => FirstRanksFall(s, i);
    case Mark(i) => FirstRanksFall(s, i);
    case Unwind(i) => UnwindRankFalls(s, i);
    case _ =>
  }

  lemma ClientMovesOne(s: Sys, c: ClientStep)
    requires ClientEnabled(s, c) && !c.Begin?
    ensures c.i < |s.subs| && |ApplyClient(s, c).subs| == |s.subs|
    ensures ApplyClient(s, c).subs == s.subs[c.i := ApplyClient(s, c).subs[c.i]]
    ensures ApplyClient(s, c).queue.mode == s.queue.mode
  {
    hide T.Admit, T.Transition, T.Finish, LeaveGate;
  }

  lemma InternalClientDecreases(s: Sys, c: ClientStep)
    requires ClientEnabled(s, c) && !c.Begin? && !c.Cancel?
    ensures Measure(ApplyClient(s, c)) < Measure(s)
  {
    ClientRankFalls(s, c);
    ClientMovesOne(s, c);
    hide Rank, ApplyClient, ClientEnabled;
    TotalUpdate(s.subs, c.i, ApplyClient(s, c).subs[c.i], Rank);
  }

  lemma HandleMovesOne(s: Sys, v: ServerStep, i: nat)
    requires HandleEnabled(s, v, i)
    ensures i < |s.subs| && |Handle(s, v, i).subs| == |s.subs| && Rank(Handle(s, v, i).subs[i]) < Rank(s.subs[i])
    ensures Handle(s, v, i).subs == s.subs[i := Handle(s, v, i).subs[i]] && Handle(s, v, i).queue.mode == s.queue.mode
  {
    hide T.Transition, T.Finish, LeaveGate, C.Execute;
  }

  lemma HandleDecreases(s: Sys, v: ServerStep, i: nat)
    requires HandleEnabled(s, v, i)
    ensures Measure(Handle(s, v, i)) < Measure(s)
  {
    HandleMovesOne(s, v, i);
    hide Rank, Handle, HandleEnabled;
    TotalUpdate(s.subs, i, Handle(s, v, i).subs[i], Rank);
  }

  lemma TakeDecreases(s: Sys)
    requires Inv(s) && ServerEnabled(s, Take)
    ensures Measure(TakeSub(s)) < Measure(s)
  {
    var i := s.queue.waiting[0];
    assert s.subs[i].stage == Queued;
    hide Inv, ServerEnabled;
    assert Rank(TakeSub(s).subs[i]) < Rank(s.subs[i]);
    hide Rank;
    TotalUpdate(s.subs, i, TakeSub(s).subs[i], Rank);
  }

  lemma InternalServerDecreases(s: Sys, v: ServerStep)
    requires Inv(s) && ServerEnabled(s, v)
    ensures Measure(ApplyServer(s, v)) < Measure(s)
  {
    hide Inv, Rank, Handle;
    match v
    case Take => TakeDecreases(s);
    case SeeStop =>
    case SeeEnqueueDone =>
    case SeeEmpty =>
    case _ => HandleDecreases(s, v, s.queue.serving.value);
  }

  lemma InternalDecreases(s: Sys, a: Action)
    requires Inv(s) && Enabled(s, a) && Internal(a)
    ensures Measure(Apply(s, a)) < Measure(s)
  {
    hide Inv, ClientEnabled, ServerEnabled, ApplyClient, ApplyServer, Measure;
    match a
    case Client(c) => InternalClientDecreases(s, c);
    case Server(v) => InternalServerDecreases(s, v);
  }

  /** The consumer's next step on the request it is serving. */
  function NextServer(stage: Stage): ServerStep {
    match stage
    case Taken => FreeSlot
    case Unslotted => Start
    case InFlight => Exec(C.Script(true, None, 0, C.BeginFails, C.Same, C.Returns, false, C.Confirmed))
    case Executed => FinishActivity
    case Unlisted => EndAdmission
    case _ => Respond
  }

  /** A client that stands in the enqueue count and needs no slot can move on while the queue is empty. */
  lemma EnqueuerMoves(s: Sys, i: nat) returns (a: Action)
    requires Inv(s) && i < |s.subs| && s.queue.serving.None? && s.queue.waiting == []
    requires s.subs[i].pending || s.subs[i].slot
    requires s.subs[i].stage == Reserved ==> s.queue.slots < s.queue.capacity
    ensures Internal(a) && Enabled(s, a)
  {
    assert Shape(s.subs[i]) && 0 < s.queue.capacity && !Served(s.subs[i].stage);
    assert s.subs[i].stage != Queued by {
      CountBound(s.subs, IsQueued);
    }
    a := Client(match s.subs[i].stage
                case Reserved => TakeSlot(i)
                case Slotted => Mark(i)
                case Marked => Send(i)
                case Unwinding => Unwind(i)
                case _ => FinishEnqueue(i));
  }

  lemma DrainMoves(s: Sys) returns (a: Action)
    requires Inv(s) && s.queue.serving.None? && s.queue.waiting == [] && s.queue.pendingEnqueue != 0
    ensures Internal(a) && Enabled(s, a)
  {
    CountBound(s.subs, HoldsEnqueue);
    var i: nat :| i < |s.subs| && HoldsEnqueue(s.subs[i]);
    if s.subs[i].stage == Reserved && s.queue.slots == s.queue.capacity {
      CountBound(s.subs, HoldsSlot);
      var j: nat :| j < |s.subs| && HoldsSlot(s.subs[j]);
      assert Shape(s.subs[j]);
      a := EnqueuerMoves(s, j);
    } else {
      a := EnqueuerMoves(s, i);
    }
  }

  /** A closed Writer that has not finished can always take a step of its own. */
  lemma NeverStuck(s: Sys) returns (a: Action)
    requires Inv(s) && !s.queue.accept && s.queue.mode != Done
    ensures Internal(a) && Enabled(s, a)
  {
    if s.queue.serving.Some? {
      a := Server(NextServer(s.subs[s.queue.serving.value].stage));
    } else if s.queue.waiting != [] {
      a := Server(Take);
    } else if s.queue.mode == Draining && s.queue.enqueueDone == 0 {
      a := DrainMoves(s);
    } else {
      a := Server(match s.queue.mode case Running => SeeStop case Draining => SeeEnqueueDone case _ => SeeEmpty);
    }
  }

  lemma StaysClosed(s: Sys, a: Action)
    requires Enabled(s, a) && !s.queue.accept
    ensures !Apply(s, a).queue.accept
  {
    hide T.Admit, T.Transition, T.Finish, LeaveGate, C.Execute;
    match a
    case Client(c) =>
    case Server(v) =>
    case Control(c) =>
  }

  lemma {:induction false} InternalRunsEnd(s: Sys, run: seq<Action>, t: Sys)
    requires Inv(s) && !s.queue.accept && Reaches(s, run, t) && forall a :: a in run ==> Internal(a)
    ensures Inv(t) && !t.queue.accept && |run| + Measure(t) <= Measure(s)
    decreases |run|
  {
    if run != [] {
      assert run[0] in run && forall a :: a in run[1..] ==> a in run;
      InternalDecreases(s, run[0]);
      StepKeepsInv(s, run[0]);
      StaysClosed(s, run[0]);
      InternalRunsEnd(Apply(s, run[0]), run[1..], t);
    }
  }

  /**
   Drain cannot deadlock and cannot go on forever: after Close, however the
   Writer's own steps are scheduled and whatever each command does, every run of
   them is bounded and one that cannot be continued has closed `done`.
   */
  lemma CloseCompletes(s: Sys, run: seq<Action>, t: Sys)
    requires Reachable(s) && !s.queue.accept && Reaches(s, run, t) && forall a :: a in run ==> Internal(a)
    ensures |run| <= Measure(s)
    ensures t.queue.mode == Done || exists a :: Internal(a) && Enabled(t, a)
  {
    ReachableInv(s);
    InternalRunsEnd(s, run, t);
    if t.queue.mode != Done {
      var a := NeverStuck(t);
    }
  }
}
