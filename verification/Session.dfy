/**
 Activity sessions rebuilt from canonical events. The program walks backward
 from the last user message; what it finds is the last block of the forward
 partition of user messages at every gap of at least the idle gap.
 */
module Session {
  import opened Common
  import opened Sorting

  const TWO_TO_THE_64: int := 0x1_0000_0000_0000_0000

  datatype Kind = UserMessage | ResidentMessage | OtherKind

  datatype Event = Event(commitSeq: Int64, number: Int64, recordedAt: Int64, kind: Kind, id: nat)

  datatype Transition = Transition(commitSeq: Int64, recordedAt: Int64, status: string)

  datatype Input = Input(
    events: seq<Event>,
    transitions: seq<Transition>,
    initialStatus: string,
    throughCommit: Int64,
    asOf: Int64,
    idleGap: Int64,
    maxEvents: int
  )

  datatype Session = Session(
    events: seq<Event>,
    startSeq: Int64,
    startedAt: Int64,
    lastUserAt: Int64,
    open: bool,
    residentActive: bool
  )

  const NO_SESSION := Session([], 0, 0, 0, false, false)

  // ----------------------------------------------------------------- gaps

  /** Conversion to an unsigned 64-bit word. */
  function U64(x: int): int {
    x % TWO_TO_THE_64
  }

  predicate GapAtLeast(newer: Int64, older: Int64, idle: Int64) {
    newer >= older && U64(U64(newer) - U64(older)) >= U64(idle)
  }

  /** The unsigned subtraction is exact, also across the sign and over the whole range. */
  lemma GapIsTheDifference(newer: Int64, older: Int64, idle: Int64)
    requires idle >= 0
    ensures GapAtLeast(newer, older, idle) <==> newer - older >= idle
  {
    if newer >= older {
      assert newer - older < TWO_TO_THE_64;
      var u, v := U64(newer), U64(older);
      assert u == newer || u == newer + TWO_TO_THE_64;
      assert v == older || v == older + TWO_TO_THE_64;
      assert U64(u - v) == newer - older;
    }
  }

  // ------------------------------------------------------------- lifecycle

  predicate KnownStatus(status: string) {
    status == "draft" || status == "active" || status == "archived" || status == "erased"
  }

  predicate TransitionBefore(a: Transition, b: Transition) {
    if a.commitSeq > 0 && b.commitSeq > 0 && a.commitSeq != b.commitSeq then a.commitSeq < b.commitSeq
    else a.recordedAt < b.recordedAt
  }

  predicate InView(t: Transition, throughCommit: Int64, asOf: Int64) {
    !(throughCommit > 0 && t.commitSeq > throughCommit) && t.recordedAt <= asOf
  }

  predicate LifecycleKnown(input: Input) {
    (input.initialStatus != "" ==> KnownStatus(input.initialStatus)) &&
    forall t :: t in input.transitions ==> KnownStatus(t.status)
  }

  function Seen(transitions: seq<Transition>, throughCommit: Int64, asOf: Int64): seq<Transition> {
    Filter(transitions, (t: Transition) => InView(t, throughCommit, asOf))
  }

  function Last<T>(s: seq<T>): Option<T> {
    if s == [] then None else Some(s[|s| - 1])
  }

  /** The newest transition in view, which alone decides status and boundary. */
  function Latest(input: Input): Option<Transition> {
    Last(Seen(SortBy(input.transitions, TransitionBefore), input.throughCommit, input.asOf))
  }

  function StatusFrom(latest: Option<Transition>, initial: string): string {
    if latest.Some? then latest.value.status else initial
  }

  function BoundaryFrom(latest: Option<Transition>): Option<Transition> {
    if latest.Some? && latest.value.status == "active" then latest else None
  }

  predicate ActiveAt(input: Input) {
    StatusFrom(Latest(input), input.initialStatus) == "active"
  }

  function Boundary(input: Input): Option<Transition> {
    BoundaryFrom(Latest(input))
  }

  predicate AfterBoundary(e: Event, boundary: Option<Transition>) {
    if boundary.None? then true
    else if boundary.value.commitSeq > 0 && e.commitSeq > 0 then e.commitSeq > boundary.value.commitSeq
    else e.recordedAt >= boundary.value.recordedAt
  }

  lemma SeenSnoc(s: seq<Transition>, t: Transition, throughCommit: Int64, asOf: Int64)
    ensures Last(Seen(s + [t], throughCommit, asOf))
            == if InView(t, throughCommit, asOf) then Some(t) else Last(Seen(s, throughCommit, asOf))
  {
    FilterSnoc(s, t, (t: Transition) => InView(t, throughCommit, asOf));
  }

  method LifecycleAt(input: Input) returns (known: bool, active: bool, boundary: Option<Transition>)
    ensures known <==> LifecycleKnown(input)
    ensures known ==> active == ActiveAt(input) && boundary == Boundary(input)
  {
    hide KnownStatus, InView, TransitionBefore, Seen, Filter, SortBy;
    if input.initialStatus != "" && !KnownStatus(input.initialStatus) {
      return false, false, None;
    }
    var transitions := SortBy(input.transitions, TransitionBefore);
    var status := input.initialStatus;
    boundary := None;
    NothingSeen(input);
    var i := 0;
    while i < |transitions|
      invariant 0 <= i <= |transitions|
      invariant forall k :: 0 <= k < i ==> KnownStatus(transitions[k].status)
      invariant status == StatusFrom(Last(Seen(transitions[..i], input.throughCommit, input.asOf)), input.initialStatus)
      invariant boundary == BoundaryFrom(Last(Seen(transitions[..i], input.throughCommit, input.asOf)))
    {
      var t := transitions[i];
      assert transitions[..i + 1] == transitions[..i] + [t];
      SeenSnoc(transitions[..i], t, input.throughCommit, input.asOf);
      if !KnownStatus(t.status) {
        SortPermutes(input.transitions, TransitionBefore);
        assert t in input.transitions;
        return false, false, None;
      }
      if InView(t, input.throughCommit, input.asOf) {
        status := t.status;
        boundary := if status == "active" then Some(t) else None;
      }
      i := i + 1;
    }
    assert transitions[..i] == transitions;
    assert LifecycleKnown(input) by {
      SortPermutes(input.transitions, TransitionBefore);
    }
    return true, status == "active", boundary;
  }

  lemma NothingSeen(input: Input)
    ensures forall s: seq<Transition> :: s == [] ==> Last(Seen(s, input.throughCommit, input.asOf)) == None
  {
  }

  // ----------------------------------------------------- eligible messages

  /** The two cursors that order an event. */
  datatype Key = Key(commitSeq: Int64, number: Int64)

  function KeyOf(e: Event): Key {
    Key(e.commitSeq, e.number)
  }

  predicate KeyBefore(a: Key, b: Key) {
    if a.commitSeq > 0 && b.commitSeq > 0 && a.commitSeq != b.commitSeq then a.commitSeq < b.commitSeq
    else if a.number > 0 && b.number > 0 && a.number != b.number then a.number < b.number
    else false
  }

  predicate Before(a: Event, b: Event) {
    KeyBefore(KeyOf(a), KeyOf(b))
  }

  predicate IsUser(e: Event) {
    e.kind == UserMessage
  }

  predicate EligibleIn(e: Event, throughCommit: Int64, asOf: Int64, boundary: Option<Transition>) {
    && !(throughCommit > 0 && e.commitSeq > throughCommit)
    && e.recordedAt <= asOf && AfterBoundary(e, boundary)
    && e.kind != OtherKind
  }

  function Eligibility(throughCommit: Int64, asOf: Int64, boundary: Option<Transition>): Event -> bool {
    (e: Event) => EligibleIn(e, throughCommit, asOf, boundary)
  }

  function Eligible(input: Input): seq<Event> {
    Filter(SortBy(input.events, Before), Eligibility(input.throughCommit, input.asOf, Boundary(input)))
  }

  function Users(s: seq<Event>): seq<Event> {
    Filter(s, IsUser)
  }

  // ----------------------------------------------------- forward partition

  /** User messages grouped front to back: a new block starts after each gap of at least `idle`. */
  function Partition(users: seq<Event>, idle: Int64): (blocks: seq<seq<Event>>)
    ensures users == [] <==> blocks == []
  {
    if users == [] then []
    else
      var n := |users| - 1;
      var blocks := Partition(users[..n], idle);
      if n == 0 || users[n].recordedAt - users[n - 1].recordedAt >= idle then blocks + [[users[n]]]
      else blocks[..|blocks| - 1] + [blocks[|blocks| - 1] + [users[n]]]
  }

  function LastBlock(users: seq<Event>, idle: Int64): seq<Event>
    requires users != []
  {
    var blocks := Partition(users, idle);
    blocks[|blocks| - 1]
  }

  ghost predicate GapBefore(users: seq<Event>, k: nat, idle: Int64)
    requires 0 < k < |users|
  {
    users[k].recordedAt - users[k - 1].recordedAt >= idle
  }

  lemma LastBlockGrows(users: seq<Event>, idle: Int64)
    requires users != []
    ensures var n := |users| - 1;
            LastBlock(users, idle)
            == (if n > 0 && !GapBefore(users, n, idle) then LastBlock(users[..n], idle) else []) + [users[n]]
  {
  }

  /** The last block is the longest tail without an inner gap. */
  lemma {:induction false} LastBlockIs(users: seq<Event>, k: nat, idle: Int64)
    requires k < |users|
    requires forall j :: k < j < |users| ==> !GapBefore(users, j, idle)
    requires k > 0 ==> GapBefore(users, k, idle)
    ensures LastBlock(users, idle) == users[k..]
  {
    var n := |users| - 1;
    LastBlockGrows(users, idle);
    hide LastBlock, GapBefore;
    if k < n {
      forall j | k <= j < n && j > 0
        ensures GapBefore(users[..n], j, idle) <==> GapBefore(users, j, idle)
      {
        GapOfInit(users, j, idle);
      }
      LastBlockIs(users[..n], k, idle);
      TailGrows(users, k);
    }
  }

  lemma GapOfInit(users: seq<Event>, j: nat, idle: Int64)
    requires 0 < j < |users| - 1
    ensures GapBefore(users[..|users| - 1], j, idle) <==> GapBefore(users, j, idle)
  {
  }

  lemma TailGrows<T>(s: seq<T>, k: nat)
    requires k < |s|
    ensures s[k..] == s[..|s| - 1][k..] + [s[|s| - 1]]
  {
  }

  // ------------------------------------------------------------ the session

  /** The position in `s` of its user message number `k`. */
  function UserAt(s: seq<Event>, k: nat): (i: nat)
    requires k < |Users(s)|
    ensures i < |s| && IsUser(s[i]) && |Users(s[..i])| == k
  {
    var n := |s| - 1;
    FilterSnoc(s[..n], s[n], IsUser);
    assert s == s[..n] + [s[n]];
    if k < |Users(s[..n])| then
      assert forall i :: 0 <= i <= n ==> s[..n][..i] == s[..i];
      UserAt(s[..n], k)
    else n
  }

  function Tail<T>(s: seq<T>, most: nat): seq<T> {
    if |s| > most then s[|s| - most..] else s
  }

  /** The session by its forward definition, in plain integers. */
  function SessionFrom(eligible: seq<Event>, idle: Int64, maxEvents: nat, asOf: Int64): Session {
    var users := Users(eligible);
    if users == [] then NO_SESSION.(residentActive := true)
    else
      var block := LastBlock(users, idle);
      LastBlockFits(users, idle);
      var start := UserAt(eligible, |users| - |block|);
      var lastUserAt := block[|block| - 1].recordedAt;
      Session(Tail(eligible[start..], maxEvents), block[0].number, block[0].recordedAt, lastUserAt, asOf - lastUserAt < idle, true)
  }

  /** `None` is an error. */
  function SessionOf(input: Input): Option<Session> {
    if input.idleGap <= 0 || input.maxEvents < 1 || !LifecycleKnown(input) then None
    else if !ActiveAt(input) then Some(NO_SESSION)
    else Some(SessionFrom(Eligible(input), input.idleGap, input.maxEvents, input.asOf))
  }

  lemma {:induction false} LastBlockFits(users: seq<Event>, idle: Int64)
    requires users != []
    ensures 0 < |LastBlock(users, idle)| <= |users|
    ensures LastBlock(users, idle) == users[|users| - |LastBlock(users, idle)|..]
  {
    var n := |users| - 1;
    LastBlockGrows(users, idle);
    hide LastBlock, GapBefore;
    if n > 0 && !GapBefore(users, n, idle) {
      LastBlockFits(users[..n], idle);
      TailGrows(users, n - |LastBlock(users[..n], idle)|);
    } else {
      assert users[n..] == [users[n]];
    }
  }

  // ------------------------------------------------- the backward program

  lemma UserPosition(s: seq<Event>, i: nat)
    requires i < |s| && IsUser(s[i])
    ensures var k := |Users(s[..i])|; k < |Users(s)| && Users(s)[k] == s[i] && Users(s)[..k] == Users(s[..i])
  {
    assert s == s[..i + 1] + s[i + 1..] && s[..i + 1] == s[..i] + [s[i]];
    FilterJoin(s[..i + 1], s[i + 1..], IsUser);
    FilterSnoc(s[..i], s[i], IsUser);
  }

  /** The number of user messages before a user message identifies its position. */
  lemma UserAtIs(s: seq<Event>, i: nat)
    requires i < |s| && IsUser(s[i])
    ensures |Users(s[..i])| < |Users(s)| && UserAt(s, |Users(s[..i])|) == i
  {
    UserPosition(s, i);
    var j := UserAt(s, |Users(s[..i])|);
    if j < i {
      UserCountGrows(s, j, i);
    } else if i < j {
      UserCountGrows(s, i, j);
    }
  }

  lemma UserCountGrows(s: seq<Event>, i: nat, j: nat)
    requires i < j <= |s| && IsUser(s[i])
    ensures |Users(s[..i])| < |Users(s[..j])|
  {
    assert s[..j] == s[..i + 1] + s[i + 1..j] && s[..i + 1] == s[..i] + [s[i]];
    FilterJoin(s[..i + 1], s[i + 1..j], IsUser);
    FilterSnoc(s[..i], s[i], IsUser);
  }

  lemma NoUsersBetween(s: seq<Event>, i: nat, j: nat)
    requires i <= j <= |s| && forall m :: i <= m < j ==> !IsUser(s[m])
    ensures Users(s[..j]) == Users(s[..i])
  {
    assert s[..j] == s[..i] + s[i..j];
    FilterJoin(s[..i], s[i..j], IsUser);
    FilterNone(s[i..j], IsUser);
  }

  method FilterEligible(input: Input, boundary: Option<Transition>) returns (eligible: seq<Event>)
    ensures eligible == Filter(SortBy(input.events, Before), Eligibility(input.throughCommit, input.asOf, boundary))
  {
    var events := SortBy(input.events, Before);
    ghost var keep := Eligibility(input.throughCommit, input.asOf, boundary);
    eligible := [];
    var i := 0;
    while i < |events|
      invariant 0 <= i <= |events| && eligible == Filter(events[..i], keep)
    {
      var e := events[i];
      assert events[..i + 1] == events[..i] + [e];
      FilterSnoc(events[..i], e, keep);
      i := i + 1;
      if input.throughCommit > 0 && e.commitSeq > input.throughCommit {
        continue;
      }
      if e.recordedAt > input.asOf || !AfterBoundary(e, boundary) {
        continue;
      }
      if e.kind != UserMessage && e.kind != ResidentMessage {
        continue;
      }
      eligible := eligible + [e];
    }
    assert events[..i] == events;
  }

  method FindLastUser(eligible: seq<Event>) returns (lastUser: int)
    ensures -1 <= lastUser < |eligible|
    ensures lastUser < 0 ==> Users(eligible) == []
    ensures lastUser >= 0 ==> IsUser(eligible[lastUser]) && |Users(eligible)| == |Users(eligible[..lastUser])| + 1
  {
    lastUser := |eligible| - 1;
    while lastUser >= 0
      invariant -1 <= lastUser < |eligible|
      invariant forall m :: lastUser < m < |eligible| ==> !IsUser(eligible[m])
    {
      if IsUser(eligible[lastUser]) {
        NoUsersBetween(eligible, lastUser + 1, |eligible|);
        assert eligible[..|eligible|] == eligible && eligible[..lastUser + 1] == eligible[..lastUser] + [eligible[lastUser]];
        FilterSnoc(eligible[..lastUser], eligible[lastUser], IsUser);
        return;
      }
      lastUser := lastUser - 1;
    }
    NoUsersBetween(eligible, 0, |eligible|);
    assert eligible[..|eligible|] == eligible;
  }

  /** The backward walk from the last user message to the start of its block. */
  method FindStart(eligible: seq<Event>, lastUser: nat, idle: Int64) returns (start: nat)
    requires lastUser < |eligible| && IsUser(eligible[lastUser]) && idle > 0
    requires |Users(eligible)| == |Users(eligible[..lastUser])| + 1
    ensures start <= lastUser && IsUser(eligible[start]) && |Users(eligible[..start])| < |Users(eligible)|
    ensures LastBlock(Users(eligible), idle) == Users(eligible)[|Users(eligible[..start])|..]
  {
    ghost var users := Users(eligible);
    start := lastUser;
    var newerUserTime := eligible[lastUser].recordedAt;
    var index := lastUser - 1;
    while index >= 0
      invariant -1 <= index < start <= lastUser && IsUser(eligible[start]) && newerUserTime == eligible[start].recordedAt
      invariant forall m :: index < m < start ==> !IsUser(eligible[m])
      invariant |Users(eligible[..start])| < |users|
      invariant forall j :: |Users(eligible[..start])| < j < |users| ==> !GapBefore(users, j, idle)
    {
      if IsUser(eligible[index]) {
        var olderUserTime := eligible[index].recordedAt;
        StepBack(eligible, index, start);
        GapIsTheDifference(newerUserTime, olderUserTime, idle);
        if GapAtLeast(newerUserTime, olderUserTime, idle) {
          LastBlockIs(users, |Users(eligible[..start])|, idle);
          return;
        }
        start := index;
        newerUserTime := olderUserTime;
      }
      index := index - 1;
    }
    NoUsersBetween(eligible, 0, start);
    LastBlockIs(users, 0, idle);
  }

  /** Neighbouring user messages of `s` are neighbours among its user messages. */
  lemma StepBack(s: seq<Event>, i: nat, j: nat)
    requires i < j < |s| && IsUser(s[i]) && IsUser(s[j]) && forall m :: i < m < j ==> !IsUser(s[m])
    ensures var k := |Users(s[..j])|;
            k == |Users(s[..i])| + 1 && k < |Users(s)| && Users(s)[k] == s[j] && Users(s)[k - 1] == s[i]
  {
    NoUsersBetween(s, i + 1, j);
    assert s[..i + 1] == s[..i] + [s[i]];
    FilterSnoc(s[..i], s[i], IsUser);
    UserPosition(s, i);
    UserPosition(s, j);
  }

  lemma BlockEnds(eligible: seq<Event>, start: nat, lastUser: nat, idle: Int64)
    requires start <= lastUser < |eligible| && IsUser(eligible[start]) && IsUser(eligible[lastUser])
    requires |Users(eligible)| == |Users(eligible[..lastUser])| + 1 && |Users(eligible[..start])| < |Users(eligible)|
    requires LastBlock(Users(eligible), idle) == Users(eligible)[|Users(eligible[..start])|..]
    ensures var block := LastBlock(Users(eligible), idle);
            && 0 < |block| <= |Users(eligible)| && UserAt(eligible, |Users(eligible)| - |block|) == start
            && block[0] == eligible[start] && block[|block| - 1] == eligible[lastUser]
  {
    UserPosition(eligible, start);
    UserPosition(eligible, lastUser);
    UserAtIs(eligible, start);
  }

  lemma SessionFromEnds(eligible: seq<Event>, start: nat, lastUser: nat, idle: Int64, maxEvents: nat, asOf: Int64)
    requires start <= lastUser < |eligible| && IsUser(eligible[start]) && IsUser(eligible[lastUser])
    requires |Users(eligible)| == |Users(eligible[..lastUser])| + 1 && |Users(eligible[..start])| < |Users(eligible)|
    requires LastBlock(Users(eligible), idle) == Users(eligible)[|Users(eligible[..start])|..]
    ensures SessionFrom(eligible, idle, maxEvents, asOf)
            == Session(Tail(eligible[start..], maxEvents), eligible[start].number, eligible[start].recordedAt,
                       eligible[lastUser].recordedAt, asOf - eligible[lastUser].recordedAt < idle, true)
  {
    BlockEnds(eligible, start, lastUser, idle);
    hide LastBlock, UserAt, Users, IsUser, Tail;
  }

  lemma NoUsersNoSession(eligible: seq<Event>, input: Input)
    requires Users(eligible) == [] && input.maxEvents >= 1
    ensures SessionFrom(eligible, input.idleGap, input.maxEvents, input.asOf) == NO_SESSION.(residentActive := true)
  {
  }

  method Calculate(input: Input) returns (r: Option<Session>)
    ensures r == SessionOf(input)
  {
    hide LifecycleKnown, ActiveAt, SessionFrom, LastBlock, Users, Boundary, Filter, SortBy, GapAtLeast;
    if input.idleGap <= 0 || input.maxEvents < 1 {
      return None;
    }
    var known, active, boundary := LifecycleAt(input);
    if !known {
      return None;
    }
    if !active {
      return Some(NO_SESSION);
    }
    var eligible := FilterEligible(input, boundary);
    var lastUser := FindLastUser(eligible);
    if lastUser < 0 {
      NoUsersNoSession(eligible, input);
      return Some(NO_SESSION.(residentActive := true));
    }
    var start := FindStart(eligible, lastUser, input.idleGap);
    SessionFromEnds(eligible, start, lastUser, input.idleGap, input.maxEvents, input.asOf);
    var selected := eligible[start..];
    if |selected| > input.maxEvents {
      selected := selected[|selected| - input.maxEvents..];
    }
    var lastUserAt := eligible[lastUser].recordedAt;
    GapIsTheDifference(input.asOf, lastUserAt, input.idleGap);
    return Some(Session(selected, eligible[start].number, eligible[start].recordedAt, lastUserAt,
                        !GapAtLeast(input.asOf, lastUserAt, input.idleGap), true));
  }

  // --------------------------------------------------------- what decides

  lemma SortedAlikeSessionsAlike(input: Input, shuffled: seq<Event>)
    requires WeakOrderOn(input.events, Before) && TotalOn(input.events, Before)
    requires multiset(shuffled) == multiset(input.events)
    ensures SessionOf(input.(events := shuffled)) == SessionOf(input)
  {
    hide Before, LifecycleKnown, SessionFrom, BoundaryFrom, StatusFrom;
    SortIgnoresOrder(input.events, shuffled, Before);
    hide SortBy, Filter, WeakOrderOn, TotalOn;
    var other := input.(events := shuffled);
    assert Eligible(other) == Eligible(input);
    assert LifecycleKnown(other) == LifecycleKnown(input) by {
      SameLifecycle(input, shuffled);
    }
  }

  lemma SameLifecycle(input: Input, events: seq<Event>)
    ensures LifecycleKnown(input.(events := events)) <==> LifecycleKnown(input)
  {
  }

  /** The same outcome but for the listed events. */
  predicate SameSpan(a: Option<Session>, b: Option<Session>) {
    (a.None? <==> b.None?) && (a.Some? ==> b.Some? && b.value == a.value.(events := b.value.events))
  }

  lemma EligibleUsersStay(input: Input, keep: Event -> bool)
    requires WeakOrderOn(input.events, Before) && forall e: Event :: IsUser(e) ==> keep(e)
    ensures Users(Eligible(input.(events := Filter(input.events, keep)))) == Users(Eligible(input))
  {
    hide Before, SortBy, Filter, WeakOrderOn, BoundaryFrom;
    SortFilter(input.events, keep, Before);
    FilterThrough(SortBy(input.events, Before), keep, Eligibility(input.throughCommit, input.asOf, Boundary(input)), IsUser);
  }

  lemma SameUsersSameSpan(input: Input, events: seq<Event>)
    requires Users(Eligible(input.(events := events))) == Users(Eligible(input))
    ensures SameSpan(SessionOf(input), SessionOf(input.(events := events)))
  {
    hide LifecycleKnown, SessionFrom, BoundaryFrom, StatusFrom, Eligible, Users;
    SameLifecycle(input, events);
    if input.maxEvents >= 1 {
      SameUsersSameSession(Eligible(input), Eligible(input.(events := events)), input.idleGap, input.maxEvents, input.asOf);
    }
  }

  lemma DroppingResidentMessages(input: Input, keep: Event -> bool)
    requires WeakOrderOn(input.events, Before) && forall e: Event :: IsUser(e) ==> keep(e)
    ensures SameSpan(SessionOf(input), SessionOf(input.(events := Filter(input.events, keep))))
  {
    hide SessionOf, WeakOrderOn;
    EligibleUsersStay(input, keep);
    SameUsersSameSpan(input, Filter(input.events, keep));
  }

  lemma SameUsersSameSession(a: seq<Event>, b: seq<Event>, idle: Int64, maxEvents: nat, asOf: Int64)
    requires Users(a) == Users(b)
    ensures SessionFrom(b, idle, maxEvents, asOf)
            == SessionFrom(a, idle, maxEvents, asOf).(events := SessionFrom(b, idle, maxEvents, asOf).events)
  {
  }

  lemma LastUserDecides(eligible: seq<Event>, idle: Int64, maxEvents: nat, asOf: Int64)
    requires Users(eligible) != []
    ensures SessionFrom(eligible, idle, maxEvents, asOf).lastUserAt == Users(eligible)[|Users(eligible)| - 1].recordedAt
  {
    LastBlockFits(Users(eligible), idle);
    hide LastBlock, UserAt, Users;
  }

  lemma OneSorted(u: Event)
    ensures SortBy([u], Before) == [u]
  {
    assert SortBy([], Before) == [];
    hide Before, SortBy, InsertBy;
    SortSnoc([], u, Before);
    InsertEnd([], u, Before);
    assert [] + [u] == [u];
  }

  lemma PairKept(u: Event, r: Event)
    requires !Before(r, u)
    ensures SortBy([u, r], Before) == [u, r]
  {
    OneSorted(u);
    hide Before, SortBy, InsertBy;
    SortSnoc([u], r, Before);
    InsertEnd([u], r, Before);
    assert [u] + [r] == [u, r];
  }

  lemma PairSwapped(u: Event, v: Event)
    requires Before(v, u)
    ensures SortBy([u, v], Before) == [v, u]
  {
    OneSorted(u);
    hide Before, SortBy, InsertBy;
    SortSnoc([u], v, Before);
    InsertFront(u, v, Before);
    assert [u] + [v] == [u, v];
  }

  lemma TripleKept(u: Event, r: Event, v: Event)
    requires !Before(r, u) && !Before(v, r)
    ensures SortBy([u, r, v], Before) == [u, r, v]
  {
    PairKept(u, r);
    hide Before, SortBy, InsertBy;
    SortSnoc([u, r], v, Before);
    InsertEnd([u, r], v, Before);
    assert [u, r] + [v] == [u, r, v];
  }

  /** Without transitions an initially active resident has a session and no boundary. */
  lemma ActiveThroughout(input: Input)
    requires input.transitions == [] && input.initialStatus == "active" && input.idleGap > 0 && input.maxEvents >= 1
    ensures SessionOf(input) == Some(SessionFrom(Filter(SortBy(input.events, Before), Eligibility(input.throughCommit, input.asOf, None)),
                                                 input.idleGap, input.maxEvents, input.asOf))
  {
    NothingSeen(input);
    assert SortBy(input.transitions, TransitionBefore) == [];
    hide SessionFrom, Filter, SortBy, Seen;
  }

  /** An input of always eligible events for an active resident. */
  function Plain(events: seq<Event>): Input {
    Input(events, [], "active", 0, 1000, 500, 10)
  }

  predicate Ordinary(e: Event) {
    e.recordedAt <= 1000 && e.kind != OtherKind
  }

  predicate LastUserTime(session: Option<Session>, time: Int64) {
    session.Some? && session.value.lastUserAt == time
  }

  lemma OrdinaryAreEligible(sorted: seq<Event>)
    requires forall i :: 0 <= i < |sorted| ==> Ordinary(sorted[i])
    ensures Filter(sorted, Eligibility(0, 1000, None)) == sorted
  {
    FilterAll(sorted, Eligibility(0, 1000, None));
  }

  lemma LastUserIsLast(s: seq<Event>)
    requires s != [] && IsUser(s[|s| - 1])
    ensures Users(s) != [] && Users(s)[|Users(s)| - 1] == s[|s| - 1]
  {
    var n := |s| - 1;
    assert s == s[..n] + [s[n]];
    FilterSnoc(s[..n], s[n], IsUser);
  }

  lemma LastUserOf(events: seq<Event>, sorted: seq<Event>)
    requires SortBy(events, Before) == sorted && sorted != [] && IsUser(sorted[|sorted| - 1])
    requires forall i :: 0 <= i < |sorted| ==> Ordinary(sorted[i])
    ensures LastUserTime(SessionOf(Plain(events)), sorted[|sorted| - 1].recordedAt)
  {
    hide SessionOf, SessionFrom, SortBy, Filter, Before, IsUser, Ordinary;
    ActiveThroughout(Plain(events));
    OrdinaryAreEligible(sorted);
    LastUserIsLast(sorted);
    LastUserDecides(sorted, 500, 10, 1000);
  }

  // ------------------------------------------------- exactly which keys do

  /** Incomparable keys group together: `KeyBefore` is a strict weak order on the set. */
  ghost predicate WeakKeys(keys: iset<Key>) {
    forall a, b, c :: a in keys && b in keys && c in keys && KeyBefore(a, c) ==> KeyBefore(a, b) || KeyBefore(b, c)
  }

  ghost predicate TotalKeys(keys: iset<Key>) {
    forall a, b :: a in keys && b in keys && a != b ==> KeyBefore(a, b) || KeyBefore(b, a)
  }

  ghost predicate KeyedIn(events: seq<Event>, keys: iset<Key>) {
    forall e :: e in events ==> KeyOf(e) in keys
  }

  /** Whatever the kinds and times, dropping events that are not user messages leaves the session's span. */
  ghost predicate ResidentMessagesHarmless(keys: iset<Key>) {
    forall input: Input, keep: Event -> bool ::
      KeyedIn(input.events, keys) && (forall e: Event :: IsUser(e) ==> keep(e)) ==>
        SameSpan(SessionOf(input), SessionOf(input.(events := Filter(input.events, keep))))
  }

  /** Whatever the kinds and times, events with keys of their own may be handed over in any order. */
  ghost predicate InputOrderIrrelevant(keys: iset<Key>) {
    forall input: Input, shuffled: seq<Event> ::
      KeyedIn(input.events, keys) && OwnKeys(input.events) && multiset(shuffled) == multiset(input.events) ==>
        SessionOf(input.(events := shuffled)) == SessionOf(input)
  }

  ghost predicate OwnKeys(events: seq<Event>) {
    forall a, b :: a in events && b in events && KeyOf(a) == KeyOf(b) ==> a == b
  }

  lemma WeakKeysOrder(events: seq<Event>, keys: iset<Key>)
    requires KeyedIn(events, keys) && WeakKeys(keys)
    ensures WeakOrderOn(events, Before)
    ensures TotalKeys(keys) && OwnKeys(events) ==> TotalOn(events, Before)
  {
    forall a, b, c | a in events && b in events && c in events && Before(a, c)
      ensures Before(a, b) || Before(b, c)
    {
      assert KeyOf(a) in keys && KeyOf(b) in keys && KeyOf(c) in keys;
    }
  }

  lemma HarmfulDrop(events: seq<Event>, kept: seq<Event>, t: Int64, u: Int64, keys: iset<Key>)
    requires KeyedIn(events, keys) && Users(events) == kept && t != u
    requires LastUserTime(SessionOf(Plain(events)), t) && LastUserTime(SessionOf(Plain(kept)), u)
    ensures !ResidentMessagesHarmless(keys)
  {
    hide SessionOf, Filter, KeyedIn;
    var input, keep := Plain(events), IsUser;
    assert input.(events := Filter(input.events, keep)) == Plain(kept);
    assert !SameSpan(SessionOf(input), SessionOf(input.(events := Filter(input.events, keep))));
  }

  lemma HarmfulShuffle(events: seq<Event>, shuffled: seq<Event>, t: Int64, u: Int64, keys: iset<Key>)
    requires KeyedIn(events, keys) && OwnKeys(events) && multiset(shuffled) == multiset(events) && t != u
    requires LastUserTime(SessionOf(Plain(events)), t) && LastUserTime(SessionOf(Plain(shuffled)), u)
    ensures !InputOrderIrrelevant(keys)
  {
    hide SessionOf, KeyedIn, OwnKeys;
    var input := Plain(events);
    assert input.(events := shuffled) == Plain(shuffled);
    assert SessionOf(input.(events := shuffled)) != SessionOf(input);
  }

  function At(k: Key, kind: Kind, time: Int64): (e: Event)
    ensures KeyOf(e) == k && e.kind == kind && e.recordedAt == time
  {
    Event(k.commitSeq, k.number, time, kind, 0)
  }

  lemma UsersAround(u: Event, r: Event, v: Event)
    requires IsUser(u) && !IsUser(r) && IsUser(v)
    ensures Users([u, r, v]) == [u, v]
  {
    FilterAll([u], IsUser);
    hide Filter, IsUser;
    FilterSnoc([u], r, IsUser);
    FilterSnoc([u, r], v, IsUser);
    assert [u] + [r] == [u, r] && [u, r] + [v] == [u, r, v] && [u] + [v] == [u, v] && [u] + [] == [u];
  }

  lemma DroppedBetween(u: Event, r: Event, v: Event)
    requires Ordinary(u) && Ordinary(r) && Ordinary(v) && IsUser(u) && IsUser(v)
    requires !Before(r, u) && !Before(v, r) && Before(v, u)
    ensures LastUserTime(SessionOf(Plain([u, r, v])), v.recordedAt)
    ensures LastUserTime(SessionOf(Plain([u, v])), u.recordedAt)
  {
    hide SessionOf, SortBy, Before;
    TripleKept(u, r, v);
    PairSwapped(u, v);
    LastUserOf([u, r, v], [u, r, v]);
    LastUserOf([u, v], [v, u]);
  }

  /** Three keys that break the grouping let a resident message decide between two user messages. */
  lemma BrokenGroupingHarms(a: Key, b: Key, c: Key, keys: iset<Key>)
    requires a in keys && b in keys && c in keys && KeyBefore(a, c) && !KeyBefore(a, b) && !KeyBefore(b, c)
    ensures !ResidentMessagesHarmless(keys)
  {
    var u, r, v := At(c, UserMessage, 100), At(b, ResidentMessage, 100), At(a, UserMessage, 200);
    assert Before(v, u) && !Before(r, u) && !Before(v, r);
    assert KeyedIn([u, r, v], keys);
    hide SessionOf, SortBy, Filter, Before, KeyedIn, ResidentMessagesHarmless;
    UsersAround(u, r, v);
    DroppedBetween(u, r, v);
    HarmfulDrop([u, r, v], [u, v], 200, 100, keys);
  }

  /**
   Resident messages never move the session, for all kinds, times and other
   inputs, exactly when the keys that occur are weakly ordered.
   */
  lemma ResidentMessagesHarmlessExactly(keys: iset<Key>)
    ensures ResidentMessagesHarmless(keys) <==> WeakKeys(keys)
  {
    if WeakKeys(keys) {
      forall input: Input, keep: Event -> bool | KeyedIn(input.events, keys) && forall e: Event :: IsUser(e) ==> keep(e)
        ensures SameSpan(SessionOf(input), SessionOf(input.(events := Filter(input.events, keep))))
      {
        WeakKeysOrder(input.events, keys);
        DroppingResidentMessages(input, keep);
      }
    } else {
      var a, b, c :| a in keys && b in keys && c in keys && KeyBefore(a, c) && !KeyBefore(a, b) && !KeyBefore(b, c);
      BrokenGroupingHarms(a, b, c, keys);
    }
  }

  lemma PairShuffled(u: Event, v: Event)
    requires Ordinary(u) && Ordinary(v) && IsUser(u) && IsUser(v) && !Before(u, v) && !Before(v, u)
    ensures LastUserTime(SessionOf(Plain([u, v])), v.recordedAt) && LastUserTime(SessionOf(Plain([v, u])), u.recordedAt)
  {
    hide SessionOf, SortBy, Before;
    PairKept(u, v);
    PairKept(v, u);
    LastUserOf([u, v], [u, v]);
    LastUserOf([v, u], [v, u]);
  }

  lemma UnorderedKeysHarm(a: Key, b: Key, keys: iset<Key>)
    requires a in keys && b in keys && a != b && !KeyBefore(a, b) && !KeyBefore(b, a)
    ensures !InputOrderIrrelevant(keys)
  {
    var u, v := At(a, UserMessage, 100), At(b, UserMessage, 200);
    assert !Before(u, v) && !Before(v, u);
    assert KeyedIn([u, v], keys) && OwnKeys([u, v]);
    assert multiset([v, u]) == multiset([u, v]);
    hide SessionOf, SortBy, Before, KeyedIn, OwnKeys, InputOrderIrrelevant;
    PairShuffled(u, v);
    HarmfulShuffle([u, v], [v, u], 200, 100, keys);
  }

  lemma CircleShuffled(x: Event, y: Event, z: Event)
    requires Ordinary(x) && Ordinary(y) && Ordinary(z) && IsUser(x) && IsUser(z)
    requires !Before(x, y) && !Before(y, z) && !Before(z, x)
    ensures LastUserTime(SessionOf(Plain([z, y, x])), x.recordedAt)
    ensures LastUserTime(SessionOf(Plain([y, x, z])), z.recordedAt)
  {
    hide SessionOf, SortBy, Before;
    TripleKept(z, y, x);
    TripleKept(y, x, z);
    LastUserOf([z, y, x], [z, y, x]);
    LastUserOf([y, x, z], [y, x, z]);
  }

  /** Three keys ordered in a circle sort to whatever order they came in. */
  lemma CircularKeysHarm(a: Key, b: Key, c: Key, keys: iset<Key>)
    requires a in keys && b in keys && c in keys && KeyBefore(a, c) && KeyBefore(c, b) && KeyBefore(b, a)
    ensures !InputOrderIrrelevant(keys)
  {
    var x, y, z := At(a, UserMessage, 200), At(b, UserMessage, 100), At(c, UserMessage, 100);
    assert !Before(x, y) && !Before(y, z) && !Before(z, x);
    assert KeyedIn([z, y, x], keys) && OwnKeys([z, y, x]);
    assert multiset([y, x, z]) == multiset([z, y, x]);
    hide SessionOf, SortBy, Before, KeyedIn, OwnKeys, InputOrderIrrelevant;
    CircleShuffled(x, y, z);
    HarmfulShuffle([z, y, x], [y, x, z], 200, 100, keys);
  }

  /**
   The order in which events are handed over never matters, for all kinds, times
   and other inputs, exactly when the keys that occur are weakly ordered and no
   two of them are unordered.
   */
  lemma InputOrderIrrelevantExactly(keys: iset<Key>)
    ensures InputOrderIrrelevant(keys) <==> WeakKeys(keys) && TotalKeys(keys)
  {
    if !TotalKeys(keys) {
      var a, b :| a in keys && b in keys && a != b && !KeyBefore(a, b) && !KeyBefore(b, a);
      UnorderedKeysHarm(a, b, keys);
    } else if !WeakKeys(keys) {
      var a, b, c :| a in keys && b in keys && c in keys && KeyBefore(a, c) && !KeyBefore(a, b) && !KeyBefore(b, c);
      CircularKeysHarm(a, b, c, keys);
    } else {
      forall input: Input, shuffled: seq<Event> |
        KeyedIn(input.events, keys) && OwnKeys(input.events) && multiset(shuffled) == multiset(input.events)
        ensures SessionOf(input.(events := shuffled)) == SessionOf(input)
      {
        WeakKeysOrder(input.events, keys);
        SortedAlikeSessionsAlike(input, shuffled);
      }
    }
  }

  /** Uniformly positive or uniformly zero commit cursors with keys that tell events apart meet both conditions. */
  lemma UniformKeysSuffice(keys: iset<Key>)
    requires (forall k :: k in keys ==> k.commitSeq > 0) || (forall k :: k in keys ==> k.commitSeq == 0)
    requires forall a, b :: a in keys && b in keys && a != b ==>
               a.commitSeq != b.commitSeq || (a.number > 0 && b.number > 0 && a.number != b.number)
    ensures ResidentMessagesHarmless(keys) && InputOrderIrrelevant(keys)
  {
    ResidentMessagesHarmlessExactly(keys);
    InputOrderIrrelevantExactly(keys);
    hide ResidentMessagesHarmless, InputOrderIrrelevant;
  }

  /** Mixed cursors need not: three keys, one without a commit cursor, that break both. */
  lemma MixedCursorsDoNot()
    ensures var keys := iset{Key(5, 3), Key(0, 2), Key(10, 1)};
            !ResidentMessagesHarmless(keys) && !InputOrderIrrelevant(keys)
  {
    var a, b, c := Key(5, 3), Key(0, 2), Key(10, 1);
    var keys := iset{a, b, c};
    assert KeyBefore(a, c) && KeyBefore(c, b) && KeyBefore(b, a);
    BrokenGroupingHarms(a, b, c, keys);
    CircularKeysHarm(a, b, c, keys);
  }
}
