/**
 A submission to an idle open Writer goes through: the safety theorems would
 hold of a Writer that turned everybody away.
 */
module SubmissionOutcome {
  import opened Common
  import opened SubmissionProtocol
  import T = ActivityTable
  import C = CommitCore

  /** Open for business with nothing in progress. */
  ghost predicate Ready(s: Sys) {
    && s.gate.open && s.gate.active == 0 && s.gate.drained == None
    && s.queue.accept && s.queue.mode == Running && s.queue.serving == None && s.queue.waiting == []
    && s.queue.slots == 0 && s.queue.slots < s.queue.capacity
  }

  lemma IdleWriterIsReady(s: Sys)
    requires Reachable(s) && s.gate.open && s.gate.active == 0 && s.queue.accept && s.queue.serving == None
    ensures Ready(s)
  {
    ReachableInv(s);
    IdleSubs(s);
    CountBound(s.subs, HoldsSlot);
    hide Listed, C.Inv, Reachable, Line;
  }

  /** `s` with one more submission and the given shared state. */
  function With(s: Sys, x: Sub, queue: Queue, gate: Gate, table: T.Table): Sys {
    s.(subs := s.subs + [x], queue := queue, gate := gate, table := table)
  }

  lemma ReplaceLast(s: Sys, x: Sub, y: Sub)
    ensures (s.subs + [x])[|s.subs| := y] == s.subs + [y] && (s.subs + [x])[|s.subs|] == x
  {
  }

  lemma {:induction false} Extend(from: Sys, run: seq<Action>, mid: Sys, a: Action)
    requires Reaches(from, run, mid) && Enabled(mid, a)
    ensures Reaches(from, run + [a], Apply(mid, a))
    decreases |run|
  {
    if run == [] {
      assert [a][1..] == [] && Reaches(Apply(mid, a), [], Apply(mid, a));
    } else {
      Extend(Apply(from, run[0]), run[1..], mid, a);
      assert (run + [a])[1..] == run[1..] + [a];
    }
  }

  lemma NoSteps(s: Sys)
    ensures Reaches(s, [], s)
  {
  }

  lemma ThenClient(from: Sys, run: seq<Action>, s: Sys, c: ClientStep) returns (longer: seq<Action>, t: Sys)
    requires Reaches(from, run, s) && ClientEnabled(s, c)
    ensures Reaches(from, longer, t) && t == ApplyClient(s, c)
  {
    Extend(from, run, s, Client(c));
    longer, t := run + [Client(c)], ApplyClient(s, c);
  }

  lemma ThenServer(from: Sys, run: seq<Action>, s: Sys, v: ServerStep) returns (longer: seq<Action>, t: Sys)
    requires Reaches(from, run, s) && ServerEnabled(s, v)
    ensures Reaches(from, longer, t) && t == ApplyServer(s, v)
  {
    Extend(from, run, s, Server(v));
    longer, t := run + [Server(v)], ApplyServer(s, v);
  }

  // ------------------------------------------------------- the table's part

  datatype Life = Life(token: Option<T.Token>, listed: T.Table, queued: T.Table, flying: T.Table)

  /** The table as the command is admitted, queued and started. */
  function LifeOf(g: T.Table, scope: C.Scope, fence: bool): Life {
    var (listed, result) := T.Admit(g, scope, fence);
    var token := if result.Ok? then result.value else None;
    var queued := T.Transition(listed, token, T.Queued).0;
    Life(token, listed, queued, T.Transition(queued, token, T.InFlight).0)
  }

  ghost predicate Lives(g: T.Table, scope: C.Scope, fence: bool) {
    var life := LifeOf(g, scope, fence);
    && T.Admit(g, scope, fence) == (life.listed, Ok(life.token))
    && (T.Transition(life.listed, life.token, T.Queued).1 || !T.Valid(life.token))
    && (T.Transition(life.queued, life.token, T.InFlight).1 || !T.Valid(life.token))
  }

  lemma UnfencedLives(g: T.Table, scope: C.Scope, fence: bool)
    requires scope != Some(ZERO_ID) && (scope.Some? ==> scope.value !in g.fences)
    ensures Lives(g, scope, fence)
  {
  }

  // ------------------------------------------------------------ the phases

  function Sender(scope: C.Scope, fence: bool, stage: Stage, token: Option<T.Token>, pending: bool): Sub {
    Sub(stage, scope, fence, token, true, true, pending, true, true, false, 0)
  }

  lemma Arrives(s: Sys, scope: C.Scope, fence: bool) returns (run: seq<Action>, t: Sys)
    requires Ready(s) && scope != Some(ZERO_ID) && Lives(s.table, scope, fence)
    ensures Reaches(s, run, t)
    ensures var life := LifeOf(s.table, scope, fence);
            t == With(s, Sender(scope, fence, Slotted, life.token, true),
                      s.queue.(slots := 1, pendingEnqueue := s.queue.pendingEnqueue + 1), s.gate.(active := 1), life.listed)
  {
    var life := LifeOf(s.table, scope, fence);
    var i := |s.subs|;
    var x := Sub(Admitted, scope, fence, None, true, false, false, false, false, false, 0);
    var gate, queue := s.gate.(active := 1), s.queue;
    NoSteps(s);
    hide Reaches, LifeOf, T.Admit, T.Transition;
    run, t := ThenClient(s, [], s, Begin(scope, fence));
    assert t == With(s, x, queue, gate, s.table);
    run, t := ThenClient(s, run, t, Register(i));
    var y := x.(stage := Registered, token := life.token, activity := true);
    ReplaceLast(s, x, y);
    assert t == With(s, y, queue, gate, life.listed);
    run, t := ThenClient(s, run, t, Reserve(i));
    x := y.(stage := Reserved, pending := true, reserved := true);
    ReplaceLast(s, y, x);
    queue := queue.(pendingEnqueue := queue.pendingEnqueue + 1);
    assert t == With(s, x, queue, gate, life.listed);
    run, t := ThenClient(s, run, t, TakeSlot(i));
    ReplaceLast(s, x, x.(stage := Slotted, slot := true));
  }

  lemma Enqueues(from: Sys, before: seq<Action>, s: Sys, scope: C.Scope, fence: bool, gate: Gate) returns (run: seq<Action>, t: Sys)
    requires Ready(s) && Lives(s.table, scope, fence)
    requires var life := LifeOf(s.table, scope, fence);
             Reaches(from, before, With(s, Sender(scope, fence, Slotted, life.token, true),
                                        s.queue.(slots := 1, pendingEnqueue := s.queue.pendingEnqueue + 1), gate, life.listed))
    ensures Reaches(from, run, t)
    ensures var life := LifeOf(s.table, scope, fence);
            t == With(s, Sender(scope, fence, Queued, life.token, false), s.queue.(slots := 1, waiting := [|s.subs|]), gate, life.queued)
  {
    var life := LifeOf(s.table, scope, fence);
    var i := |s.subs|;
    var x := Sender(scope, fence, Slotted, life.token, true);
    var queue := s.queue.(slots := 1, pendingEnqueue := s.queue.pendingEnqueue + 1);
    t := With(s, x, queue, gate, life.listed);
    ReplaceLast(s, x, x.(stage := Marked));
    assert T.Transition(life.listed, life.token, T.Queued).0 == life.queued;
    hide Reaches, LifeOf, T.Admit;
    run, t := ThenClient(from, before, t, Mark(i));
    hide T.Transition;
    x := x.(stage := Marked);
    assert t == With(s, x, queue, gate, life.queued);
    run, t := ThenClient(from, run, t, Send(i));
    ReplaceLast(s, x, x.(stage := Queued));
    x, queue := x.(stage := Queued), queue.(waiting := [i]);
    assert s.queue.waiting + [i] == [i];
    assert t == With(s, x, queue, gate, life.queued);
    run, t := ThenClient(from, run, t, FinishEnqueue(i));
    ReplaceLast(s, x, x.(pending := false));
  }

  function Handled(scope: C.Scope, fence: bool, stage: Stage, token: Option<T.Token>, live: bool): Sub {
    Sub(stage, scope, fence, token, live, live, false, false, true, false, 1)
  }

  lemma Starts(from: Sys, before: seq<Action>, s: Sys, scope: C.Scope, fence: bool, gate: Gate) returns (run: seq<Action>, t: Sys)
    requires Ready(s) && Lives(s.table, scope, fence)
    requires var life := LifeOf(s.table, scope, fence);
             Reaches(from, before, With(s, Sender(scope, fence, Queued, life.token, false),
                                        s.queue.(slots := 1, waiting := [|s.subs|]), gate, life.queued))
    ensures Reaches(from, run, t)
    ensures var life := LifeOf(s.table, scope, fence);
            t == With(s, Handled(scope, fence, InFlight, life.token, true), s.queue.(serving := Some(|s.subs|)), gate, life.flying)
  {
    var life := LifeOf(s.table, scope, fence);
    var i := |s.subs|;
    var x := Sender(scope, fence, Queued, life.token, false);
    t := With(s, x, s.queue.(slots := 1, waiting := [i]), gate, life.queued);
    assert T.Transition(life.queued, life.token, T.InFlight).0 == life.flying;
    hide Reaches, LifeOf, T.Admit;
    run, t := ThenServer(from, before, t, Take);
    var y := x.(stage := Taken, handled := 1);
    ReplaceLast(s, x, y);
    assert [i][1..] == [];
    assert t == With(s, y, s.queue.(slots := 1, serving := Some(i)), gate, life.queued);
    run, t := ThenServer(from, run, t, FreeSlot);
    x := Handled(scope, fence, Unslotted, life.token, true);
    ReplaceLast(s, y, x);
    assert t == With(s, x, s.queue.(serving := Some(i)), gate, life.queued);
    run, t := ThenServer(from, run, t, Start);
    ReplaceLast(s, x, x.(stage := InFlight));
  }

  lemma Ends(from: Sys, before: seq<Action>, s: Sys, x: Sub, gate: Gate, table: T.Table, script: C.Script)
    returns (run: seq<Action>, t: Sys)
    requires Ready(s) && x == Handled(x.scope, x.fence, InFlight, x.token, true) && gate == s.gate.(active := 1)
    requires Reaches(from, before, With(s, x, s.queue.(serving := Some(|s.subs|)), gate, table))
    ensures Reaches(from, run, t)
    ensures t == With(s, Handled(x.scope, x.fence, Responded, x.token, false), s.queue, s.gate, T.Finish(table, x.token))
                 .(core := C.Execute(s.core, x.scope, script).0)
  {
    var i := |s.subs|;
    var queue := s.queue.(serving := Some(i));
    var core := C.Execute(s.core, x.scope, script).0;
    t := With(s, x, queue, gate, table);
    hide Reaches, T.Finish, C.Execute;
    run, t := ThenServer(from, before, t, Exec(script));
    var y := x.(stage := Executed);
    ReplaceLast(s, x, y);
    assert t == With(s, y, queue, gate, table).(core := core);
    run, t := ThenServer(from, run, t, FinishActivity);
    var z := y.(stage := Unlisted, activity := false);
    ReplaceLast(s, y, z);
    assert t == With(s, z, queue, gate, T.Finish(table, x.token)).(core := core);
    run, t := ThenServer(from, run, t, EndAdmission);
    y := z.(stage := Unadmitted, admission := false);
    ReplaceLast(s, z, y);
    assert t == With(s, y, queue, s.gate, T.Finish(table, x.token)).(core := core);
    run, t := ThenServer(from, run, t, Respond);
    ReplaceLast(s, y, y.(stage := Responded));
  }

  /**
   From every reachable state of an open Writer with nothing in progress, a
   command whose resident is not fenced is admitted, queued, executed once with
   whatever the backend answers, answered, and leaves no trace in any counter.
   */
  lemma SubmissionGoesThrough(s: Sys, scope: C.Scope, fence: bool, script: C.Script) returns (run: seq<Action>, t: Sys)
    requires Reachable(s) && s.gate.open && s.gate.active == 0 && s.queue.accept && s.queue.serving == None
    requires scope != Some(ZERO_ID) && (scope.Some? ==> scope.value !in s.table.fences)
    ensures Reaches(s, run, t)
    ensures t.core == C.Execute(s.core, scope, script).0 && t.queue == s.queue && t.gate == s.gate
    ensures |t.subs| == |s.subs| + 1 && t.subs[..|s.subs|] == s.subs
    ensures t.subs[|s.subs|].stage == Responded && t.subs[|s.subs|].handled == 1
  {
    IdleWriterIsReady(s);
    UnfencedLives(s.table, scope, fence);
    var life := LifeOf(s.table, scope, fence);
    hide Reachable, Ready, Lives, LifeOf, Reaches, T.Finish, C.Execute;
    run, t := Arrives(s, scope, fence);
    run, t := Enqueues(s, run, s, scope, fence, s.gate.(active := 1));
    run, t := Starts(s, run, s, scope, fence, s.gate.(active := 1));
    run, t := Ends(s, run, s, Handled(scope, fence, InFlight, life.token, true), s.gate.(active := 1), life.flying, script);
  }
}
