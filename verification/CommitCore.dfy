/**
 The part of the Writer that owns the commit cursor: allocating metadata,
 running one unit of work against the backend, and poisoning. Everything the
 clock, the ID generator, the command and the backend may answer is a `Script`.
 */
module CommitCore {
  import opened Common

  /** Ledger time in microseconds. */
  type Instant = Int64

  type Scope = Option<ResidentId>

  /** `id` 0 is the zero commit ID. */
  datatype Metadata = Metadata(id: nat, commitSeq: int, scope: Scope, at: Instant)

  datatype Stamp = Stamp(commitSeq: int, at: Instant)

  /** The Writer's cursor and poison flag, with the backend's durable commits and its `Begin` calls so far. */
  datatype Core = Core(head: Option<Stamp>, poisoned: bool, durable: seq<Metadata>, begins: nat)

  datatype Begun = BeginFails | NoUnit | Unit(metadata: Metadata)

  datatype Check = Same | Changed | CheckPanics

  datatype Ran = Returns | NoMutation | Fails | Panics

  /** A commit that does not return cleanly may still have become durable. */
  datatype CommitEnd = Confirmed | Errored(applied: bool) | Crashed(applied: bool)

  /** `rollbackFails` also stands for a rollback that panics. */
  datatype Script = Script(
    cancelled: bool,
    id: Option<nat>,
    clock: Instant,
    begun: Begun,
    snapshot: Check,
    ran: Ran,
    rollbackFails: bool,
    commit: CommitEnd
  )

  datatype Outcome = Committed(metadata: Metadata) | Unchanged | Failed

  predicate ValidMetadata(m: Metadata) {
    m.id != 0 && 0 < m.commitSeq <= MAX_INT64 && m.scope != Some(ZERO_ID)
  }

  /** `None` stands for the overflow and allocation errors. */
  function NextMetadata(head: Option<Stamp>, scope: Scope, id: Option<nat>, clock: Instant): Option<Metadata> {
    if head.Some? && head.value.commitSeq == MAX_INT64 then None
    else
      var commitSeq := if head.Some? then head.value.commitSeq + 1 else 1;
      if commitSeq <= 0 || id.None? then None
      else if head.Some? && clock <= head.value.at then
        if head.value.at == MAX_INT64 then None
        else Some(Metadata(id.value, commitSeq, scope, head.value.at + 1))
      else Some(Metadata(id.value, commitSeq, scope, clock))
  }

  function Execute(c: Core, scope: Scope, x: Script): (Core, Outcome) {
    if c.poisoned || x.cancelled then (c, Failed)
    else
      var next := NextMetadata(c.head, scope, x.id, x.clock);
      if next.None? || !ValidMetadata(next.value) then (c, Failed)
      else RunUnit(c.(begins := c.begins + 1), next.value, x)
  }

  function RunUnit(c: Core, m: Metadata, x: Script): (Core, Outcome) {
    match x.begun
    case BeginFails => (c, Failed)
    case NoUnit => (Poison(c), Failed)
    case Unit(u) => if u != m then (Poison(c), Failed) else Perform(c, u, x)
  }

  function Perform(c: Core, unit: Metadata, x: Script): (Core, Outcome) {
    if x.snapshot.CheckPanics? || (x.snapshot.Same? && x.ran.Panics?) then (Poison(c), Failed)
    else if x.snapshot.Changed? || !x.ran.Returns? then
      if x.rollbackFails then (Poison(c), Failed)
      else (c, if x.snapshot.Same? && x.ran.NoMutation? then Unchanged else Failed)
    else
      match x.commit
      case Confirmed =>
        (c.(head := Some(Stamp(unit.commitSeq, unit.at)), durable := c.durable + [unit]), Committed(unit))
      case Errored(applied) => (Poison(c.(durable := if applied then c.durable + [unit] else c.durable)), Failed)
      case Crashed(applied) => (Poison(c.(durable := if applied then c.durable + [unit] else c.durable)), Failed)
  }

  function Poison(c: Core): Core {
    c.(poisoned := true)
  }

  function LoadHead(durable: seq<Metadata>): Option<Stamp> {
    if durable == [] then None else Some(Stamp(durable[|durable| - 1].commitSeq, durable[|durable| - 1].at))
  }

  /** A new process opens the Writer over what is durable. */
  function Open(durable: seq<Metadata>): Core {
    Core(LoadHead(durable), false, durable, 0)
  }

  // --------------------------------------------------- the durable history

  /** Sequence numbers 1..n, one each, under strictly increasing ledger time. */
  ghost predicate Gapless(durable: seq<Metadata>) {
    && (forall i :: 0 <= i < |durable| ==> durable[i].commitSeq == i + 1 <= MAX_INT64)
    && (forall i, j :: 0 <= i < j < |durable| ==> durable[i].at < durable[j].at)
  }

  /** Until it is poisoned the Writer's cursor is the newest durable commit. */
  ghost predicate Inv(c: Core) {
    Gapless(c.durable) && (!c.poisoned ==> c.head == LoadHead(c.durable))
  }

  lemma ExecuteKeepsInv(c: Core, scope: Scope, x: Script)
    requires Inv(c)
    ensures Inv(Execute(c, scope, x).0)
  {
  }

  /** A reply says exactly what became of the command; a silent failure leaves cursor and history alone. */
  lemma RepliesAreExact(c: Core, scope: Scope, x: Script)
    requires Inv(c)
    ensures var (d, out) := Execute(c, scope, x);
            && (out.Committed? ==> d.durable == c.durable + [out.metadata] && out.metadata.scope == scope && !d.poisoned)
            && (!out.Committed? && !d.poisoned ==> d == c.(begins := d.begins))
            && (!out.Committed? && !c.poisoned && d.poisoned ==>
                  d.head == c.head && c.durable <= d.durable && |d.durable| <= |c.durable| + 1)
            && (c.poisoned ==> d == c && out == Failed)
  {
  }

  /** The unit of work for `m` was surely closed: by a confirmed commit or by a clean rollback. */
  predicate Closed(m: Metadata, x: Script) {
    && x.begun == Unit(m) && !x.snapshot.CheckPanics?
    && if x.snapshot.Same? && x.ran.Returns? then x.commit.Confirmed?
       else !x.rollbackFails && (x.snapshot.Same? ==> !x.ran.Panics?)
  }

  /** Once `Begin` has answered, the Writer goes on exactly when the unit of work was surely closed. */
  lemma PoisonedUnlessUnitIsClosed(c: Core, scope: Scope, x: Script)
    requires !c.poisoned && !x.cancelled && !x.begun.BeginFails?
    requires NextMetadata(c.head, scope, x.id, x.clock).Some? && ValidMetadata(NextMetadata(c.head, scope, x.id, x.clock).value)
    ensures Execute(c, scope, x).0.poisoned <==> !Closed(NextMetadata(c.head, scope, x.id, x.clock).value, x)
    ensures Execute(c, scope, x).0.begins == c.begins + 1
  {
  }

  /** The next number and a later time exist within 64 bits, and there is an ID for them. */
  predicate Allocatable(head: Option<Stamp>, scope: Scope, x: Script) {
    && x.id.Some? && x.id.value != 0 && scope != Some(ZERO_ID)
    && (head.Some? ==> 0 <= head.value.commitSeq < MAX_INT64)
    && (head.Some? ==> head.value.at < MAX_INT64)
  }

  /** The unit a healthy Writer asks the backend for. */
  function UnitFor(head: Option<Stamp>, scope: Scope, x: Script): Metadata
    requires Allocatable(head, scope, x)
  {
    if head.None? then Metadata(x.id.value, 1, scope, x.clock)
    else Metadata(x.id.value, head.value.commitSeq + 1, scope, if x.clock > head.value.at then x.clock else head.value.at + 1)
  }

  /** A healthy Writer was called in time and the backend has begun the unit it asked for, under an unchanged command. */
  predicate Underway(c: Core, scope: Scope, x: Script) {
    && !c.poisoned && !x.cancelled && Allocatable(c.head, scope, x)
    && x.begun == Unit(UnitFor(c.head, scope, x)) && x.snapshot == Same
  }

  /**
   What each reply means: a commit exactly when the unit ran, returned and was
   confirmed; the successful no-op exactly when the command reported that it
   changed nothing and the rollback went through. Everything else is a failure.
   */
  lemma RepliesMean(c: Core, scope: Scope, x: Script)
    ensures Execute(c, scope, x).1.Committed? <==> Underway(c, scope, x) && x.ran == Returns && x.commit == Confirmed
    ensures Execute(c, scope, x).1.Unchanged? <==> Underway(c, scope, x) && x.ran == NoMutation && !x.rollbackFails
    ensures Execute(c, scope, x).1.Committed? ==> Execute(c, scope, x).1.metadata == UnitFor(c.head, scope, x)
  {
  }

  datatype Action = Exec(scope: Scope, script: Script) | Restart

  /** The Writer's life across processes; `acknowledged[i]` says whether a caller was told of durable commit i. */
  datatype History = History(core: Core, acknowledged: seq<bool>, restarts: nat)

  function Next(h: History, a: Action): History {
    match a
    case Restart => History(Open(h.core.durable), h.acknowledged, h.restarts + 1)
    case Exec(scope, script) =>
      var (core, outcome) := Execute(h.core, scope, script);
      h.(core := core,
         acknowledged := if |core.durable| > |h.core.durable| then h.acknowledged + [outcome.Committed?] else h.acknowledged)
  }

  function Live(h: History, run: seq<Action>): History
    decreases |run|
  {
    if run == [] then h else Live(Next(h, run[0]), run[1..])
  }

  function Begin(durable: seq<Metadata>): History {
    History(Open(durable), seq(|durable|, _ => true), 0)
  }

  function Silent(acknowledged: seq<bool>): nat {
    CountIf(acknowledged, (known: bool) => !known)
  }

  ghost predicate GoodHistory(h: History) {
    && Inv(h.core)
    && |h.acknowledged| == |h.core.durable|
    && Silent(h.acknowledged) <= h.restarts + if h.core.poisoned then 1 else 0
  }

  lemma NextKeepsHistory(h: History, a: Action)
    requires GoodHistory(h)
    ensures GoodHistory(Next(h, a))
  {
    match a
    case Restart =>
    case Exec(scope, script) =>
      ExecuteKeepsInv(h.core, scope, script);
      RepliesAreExact(h.core, scope, script);
      CountAppend(h.acknowledged, Execute(h.core, scope, script).1.Committed?, (known: bool) => !known);
  }

  lemma {:induction false} LiveKeepsHistory(h: History, run: seq<Action>)
    requires GoodHistory(h)
    ensures GoodHistory(Live(h, run))
    decreases |run|
  {
    if run != [] {
      NextKeepsHistory(h, run[0]);
      LiveKeepsHistory(Next(h, run[0]), run[1..]);
    }
  }

  lemma {:induction false} AllKnown(n: nat)
    ensures Silent(seq(n, _ => true)) == 0
  {
    CountBound(seq(n, _ => true), (known: bool) => !known);
  }

  /**
   Over every run with refused, failing, panicking and ambiguous commits and
   any number of restarts, the durable history stays gapless and its ledger time
   strictly increases whatever the clock reads. Every durable commit was
   acknowledged, save at most one for each process that ended poisoned.
   */
  lemma HistoryIsGapless(durable: seq<Metadata>, run: seq<Action>)
    requires Gapless(durable)
    ensures var h := Live(Begin(durable), run);
            && Gapless(h.core.durable) && durable <= h.core.durable
            && |h.acknowledged| == |h.core.durable|
            && Silent(h.acknowledged) <= h.restarts + if h.core.poisoned then 1 else 0
  {
    AllKnown(|durable|);
    LiveKeepsHistory(Begin(durable), run);
    HistoryOnlyGrows(Begin(durable), run);
  }

  lemma {:induction false} HistoryOnlyGrows(h: History, run: seq<Action>)
    requires GoodHistory(h)
    ensures h.core.durable <= Live(h, run).core.durable
    decreases |run|
  {
    if run != [] {
      NextKeepsHistory(h, run[0]);
      if run[0].Exec? {
        RepliesAreExact(h.core, run[0].scope, run[0].script);
      }
      HistoryOnlyGrows(Next(h, run[0]), run[1..]);
    }
  }

  /** The commit the caller of one command is told of, if any. */
  function ReplyTo(h: History, a: Action): seq<Metadata> {
    match a
    case Restart => []
    case Exec(scope, script) =>
      var outcome := Execute(h.core, scope, script).1;
      if outcome.Committed? then [outcome.metadata] else []
  }

  /** The commits that callers were told of in the course of a run, in order. */
  function Replies(h: History, run: seq<Action>): seq<Metadata>
    decreases |run|
  {
    if run == [] then [] else ReplyTo(h, run[0]) + Replies(Next(h, run[0]), run[1..])
  }

  lemma ReplyAccountsForStep(h: History, a: Action)
    requires GoodHistory(h) && a.Exec?
    ensures var c := Next(h, a).core;
            && h.core.durable + ReplyTo(h, a) <= c.durable
            && (h.core.poisoned ==> c.poisoned)
            && (c.durable == h.core.durable + ReplyTo(h, a) ||
                (c.poisoned && !h.core.poisoned && |c.durable| <= |h.core.durable| + |ReplyTo(h, a)| + 1))
  {
    RepliesAreExact(h.core, a.scope, a.script);
    hide Execute, Inv;
  }

  lemma PrefixChain<T>(a: seq<T>, r: seq<T>, b: seq<T>, q: seq<T>, c: seq<T>)
    requires b == a + r && b + q <= c
    ensures a + (r + q) <= c
  {
    assert a + (r + q) == b + q;
  }

  /**
   Within one process the committed replies, one after the other, are exactly
   what the history has grown by; a Writer that gets poisoned has appended at most
   one commit more.
   */
  lemma {:induction false} RepliesAccountForHistory(h: History, run: seq<Action>)
    requires GoodHistory(h) && Restart !in run
    ensures var d := Live(h, run).core;
            && h.core.durable + Replies(h, run) <= d.durable
            && |d.durable| <= |h.core.durable| + |Replies(h, run)| + (if d.poisoned && !h.core.poisoned then 1 else 0)
    decreases |run|
  {
    if run != [] {
      var next := Next(h, run[0]);
      assert run[0] in run && forall a :: a in run[1..] ==> a in run;
      ReplyAccountsForStep(h, run[0]);
      NextKeepsHistory(h, run[0]);
      hide GoodHistory, Next, ReplyTo;
      RepliesAccountForHistory(next, run[1..]);
      if next.core.poisoned {
        PoisonIsFinal(next, run[1..]);
        assert Replies(next, run[1..]) == [];
      } else {
        PrefixChain(h.core.durable, ReplyTo(h, run[0]), next.core.durable, Replies(next, run[1..]), Live(next, run[1..]).core.durable);
      }
    }
  }

  /** A poisoned Writer never reaches the backend again in its process. */
  lemma {:induction false} PoisonIsFinal(h: History, run: seq<Action>)
    requires GoodHistory(h) && h.core.poisoned && Restart !in run
    ensures Live(h, run) == h
    decreases |run|
  {
    if run != [] {
      assert run[0] in run && forall a :: a in run[1..] ==> a in run;
      RepliesAreExact(h.core, run[0].scope, run[0].script);
      PoisonIsFinal(h, run[1..]);
    }
  }

  // ------------------------------------------------ replies along a run

  function OutcomeAt(durable: seq<Metadata>, run: seq<Action>, i: nat): Outcome
    requires i < |run| && run[i].Exec?
  {
    Execute(Live(Begin(durable), run[..i]).core, run[i].scope, run[i].script).1
  }

  /** The command meets a backend that begins a unit which is then not surely closed. */
  predicate Breaks(c: Core, a: Action) {
    a.Exec? && !a.script.cancelled && Allocatable(LoadHead(c.durable), a.scope, a.script) &&
    !a.script.begun.BeginFails? && !Closed(UnitFor(LoadHead(c.durable), a.scope, a.script), a.script)
  }

  predicate BreaksAt(durable: seq<Metadata>, run: seq<Action>, j: nat)
    requires j < |run|
  {
    Breaks(Live(Begin(durable), run[..j]).core, run[j])
  }

  /** Whatever broke a process, it was restarted since. */
  ghost predicate Healthy(durable: seq<Metadata>, run: seq<Action>) {
    forall j :: 0 <= j < |run| && BreaksAt(durable, run, j) ==> Restart in run[j + 1..]
  }

  lemma StepPoisons(c: Core, a: Action)
    requires Inv(c) && !c.poisoned && a.Exec?
    ensures Execute(c, a.scope, a.script).0.poisoned <==> Breaks(c, a)
  {
  }

  lemma LiveSnoc(h: History, run: seq<Action>, a: Action)
    ensures Live(h, run + [a]) == Next(Live(h, run), a)
    decreases |run|
  {
    if run == [] {
      assert (run + [a])[1..] == [];
    } else {
      LiveSnoc(Next(h, run[0]), run[1..], a);
      assert (run + [a])[1..] == run[1..] + [a];
    }
  }

  lemma BeginIsGood(durable: seq<Metadata>)
    requires Gapless(durable)
    ensures GoodHistory(Begin(durable))
  {
    AllKnown(|durable|);
  }

  lemma BreaksInPrefix(durable: seq<Metadata>, run: seq<Action>, a: Action, j: nat)
    requires j <= |run|
    ensures BreaksAt(durable, run + [a], j) <==> if j < |run| then BreaksAt(durable, run, j) else Breaks(Live(Begin(durable), run).core, a)
    ensures (run + [a])[j + 1..] == if j < |run| then run[j + 1..] + [a] else []
  {
    hide Breaks, Live, Begin;
    assert (run + [a])[..j] == run[..j] && run[..|run|] == run;
    assert j < |run| ==> (run + [a])[j] == run[j];
  }

  lemma HealthySnoc(durable: seq<Metadata>, run: seq<Action>, a: Action)
    ensures Healthy(durable, run + [a]) <==>
            a == Restart || (Healthy(durable, run) && !Breaks(Live(Begin(durable), run).core, a))
  {
    var longer := run + [a];
    forall j | 0 <= j < |longer|
      ensures BreaksAt(durable, longer, j)
              <==> if j < |run| then BreaksAt(durable, run, j) else Breaks(Live(Begin(durable), run).core, a)
      ensures longer[j + 1..] == if j < |run| then run[j + 1..] + [a] else []
    {
      BreaksInPrefix(durable, run, a, j);
    }
    assert a == Restart ==> !Breaks(Live(Begin(durable), run).core, a);
    hide BreaksAt, Breaks, Live, Begin;
    assert BreaksAt(durable, longer, |run|) <==> Breaks(Live(Begin(durable), run).core, a);
  }

  /** A process is poisoned exactly when one of its commands left a unit that was not surely closed. */
  lemma {:induction false} PoisonedExactly(durable: seq<Metadata>, run: seq<Action>)
    requires Gapless(durable)
    ensures GoodHistory(Live(Begin(durable), run))
    ensures Live(Begin(durable), run).core.poisoned <==> !Healthy(durable, run)
    decreases |run|
  {
    BeginIsGood(durable);
    if run != [] {
      var init, a := run[..|run| - 1], run[|run| - 1];
      assert run == init + [a];
      PoisonedExactly(durable, init);
      LiveSnoc(Begin(durable), init, a);
      HealthySnoc(durable, init, a);
      var h := Live(Begin(durable), init);
      NextKeepsHistory(h, a);
      if a.Exec? {
        StepAgainstPoison(h.core, a);
      }
      hide Healthy, GoodHistory, Live, Begin, Breaks;
    }
  }

  lemma StepAgainstPoison(c: Core, a: Action)
    requires Inv(c) && a.Exec?
    ensures Execute(c, a.scope, a.script).0.poisoned <==> c.poisoned || Breaks(c, a)
  {
    if !c.poisoned {
      StepPoisons(c, a);
    }
  }

  /**
   Over every run with any number of restarts, each reply says exactly what
   happened: whether the process was still healthy, the call was in time, the
   backend began the unit that follows the durable history, and how it ended.
   */
  lemma RepliesAreExactAlongRuns(durable: seq<Metadata>, run: seq<Action>, i: nat)
    requires Gapless(durable) && i < |run| && run[i].Exec?
    ensures var before, scope, x := Live(Begin(durable), run[..i]).core.durable, run[i].scope, run[i].script;
            var underway := Healthy(durable, run[..i]) && !x.cancelled && Allocatable(LoadHead(before), scope, x)
                            && x.begun == Unit(UnitFor(LoadHead(before), scope, x)) && x.snapshot == Same;
            && (OutcomeAt(durable, run, i).Committed? <==> underway && x.ran == Returns && x.commit == Confirmed)
            && (OutcomeAt(durable, run, i).Unchanged? <==> underway && x.ran == NoMutation && !x.rollbackFails)
  {
    PoisonedExactly(durable, run[..i]);
    RepliesMean(Live(Begin(durable), run[..i]).core, run[i].scope, run[i].script);
    hide Execute, Healthy, Live, Begin;
  }
}

/** The Writer's own fields next to the backend it drives, updated step by step. */
module CommitWriter {
  import opened Common
  import opened CommitCore

  class Writer {
    var head: Option<Stamp>
    var poisoned: bool
    var durable: seq<Metadata>   // the backend's committed units
    var begins: nat              // calls of the backend's Begin

    ghost function State(): Core
      reads this
    {
      Core(head, poisoned, durable, begins)
    }

    constructor (committed: seq<Metadata>)
      ensures State() == Open(committed)
    {
      head, poisoned, durable, begins := LoadHead(committed), false, committed, 0;
    }

    method NextMetadata(scope: Scope, id: Option<nat>, clock: Instant) returns (metadata: Option<Metadata>)
      ensures metadata == CommitCore.NextMetadata(head, scope, id, clock)
      ensures metadata.Some? ==> id == Some(metadata.value.id) && metadata.value.scope == scope && clock <= metadata.value.at
      ensures metadata.Some? && head.None? ==> metadata.value.commitSeq == 1 && metadata.value.at == clock
      ensures metadata.Some? && head.Some? ==>
                && metadata.value.commitSeq == head.value.commitSeq + 1
                && metadata.value.at > head.value.at
                && (metadata.value.at == clock || metadata.value.at == head.value.at + 1)
      ensures metadata.None? <==>
                || id.None?
                || (head.Some? && (head.value.commitSeq == MAX_INT64 || head.value.commitSeq < 0))
                || (head.Some? && clock <= head.value.at == MAX_INT64)
    {
      var next := 1;
      if head.Some? {
        if head.value.commitSeq == MAX_INT64 {
          return None;
        }
        next := head.value.commitSeq + 1;
      }
      if next <= 0 || id.None? {
        return None;
      }
      var ledgerTime := clock;
      if head.Some? && ledgerTime <= head.value.at {
        if head.value.at == MAX_INT64 {
          return None;
        }
        ledgerTime := head.value.at + 1;
      }
      return Some(Metadata(id.value, next, scope, ledgerTime));
    }

    method Rollback(fails: bool)
      modifies this`poisoned
      ensures State() == if fails then Poison(old(State())) else old(State())
    {
      if fails {
        poisoned := true;
      }
    }

    method Execute(scope: Scope, x: Script) returns (outcome: Outcome)
      modifies this
      ensures (State(), outcome) == CommitCore.Execute(old(State()), scope, x)
    {
      if poisoned || x.cancelled {
        return Failed;
      }
      var metadata := NextMetadata(scope, x.id, x.clock);
      if metadata.None? || !ValidMetadata(metadata.value) {
        return Failed;
      }
      begins := begins + 1;
      if x.begun.BeginFails? {
        return Failed;
      }
      if x.begun.NoUnit? || x.begun.metadata != metadata.value || x.snapshot.CheckPanics? {
        poisoned := true;
        return Failed;
      }
      if x.snapshot.Changed? {
        Rollback(x.rollbackFails);
        return Failed;
      }
      match x.ran {
        case Panics =>
          poisoned := true;
          return Failed;
        case Fails =>
          Rollback(x.rollbackFails);
          return Failed;
        case NoMutation =>
          Rollback(x.rollbackFails);
          return if x.rollbackFails then Failed else Unchanged;
        case Returns =>
      }
      if x.commit == Confirmed || x.commit == Errored(true) || x.commit == Crashed(true) {
        durable := durable + [metadata.value];
      }
      if !x.commit.Confirmed? {
        // The unit may have become durable: stop every later write and rely on a restart.
        poisoned := true;
        return Failed;
      }
      head := Some(Stamp(metadata.value.commitSeq, metadata.value.at));
      return Committed(metadata.value);
    }
  }
}
