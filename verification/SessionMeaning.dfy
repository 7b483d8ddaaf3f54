/**
 What a session is, said of the events and transitions themselves: which of them
 count, which transition decides, where the session starts and ends. None of it
 mentions the sorting, filtering and walking that computes it.
 */
module SessionMeaning {
  import opened Common
  import opened Sorting
  import opened Session

  // ------------------------------------------------------- the vocabulary

  predicate Known(status: string) {
    status in {"draft", "active", "archived", "erased"}
  }

  predicate Visible(commitSeq: Int64, recordedAt: Int64, input: Input) {
    (input.throughCommit <= 0 || commitSeq <= input.throughCommit) && recordedAt <= input.asOf
  }

  /** By commit where both have one that tells them apart, by time otherwise. */
  predicate OlderTransition(a: Transition, b: Transition) {
    || (a.commitSeq > 0 && b.commitSeq > 0 && a.commitSeq < b.commitSeq)
    || ((a.commitSeq <= 0 || b.commitSeq <= 0 || a.commitSeq == b.commitSeq) && a.recordedAt < b.recordedAt)
  }

  /** By commit, then by number, each where both have one that tells them apart. */
  predicate OlderEvent(a: Event, b: Event) {
    var byCommit := a.commitSeq > 0 && b.commitSeq > 0 && a.commitSeq != b.commitSeq;
    (byCommit && a.commitSeq < b.commitSeq) || (!byCommit && a.number > 0 && b.number > 0 && a.number < b.number)
  }

  /** The newest transition in view; of those recorded alike the one handed over last. */
  ghost predicate Newest(input: Input, i: nat) {
    var ts := input.transitions;
    && i < |ts| && Visible(ts[i].commitSeq, ts[i].recordedAt, input)
    && forall j :: 0 <= j < |ts| && Visible(ts[j].commitSeq, ts[j].recordedAt, input) ==>
         if j <= i then !OlderTransition(ts[i], ts[j]) else OlderTransition(ts[j], ts[i])
  }

  /** The resident is active, since the transition `since` or from the outset. */
  ghost predicate ActiveSince(input: Input, since: Option<Transition>) {
    match since
    case Some(t) => t.status == "active" && exists i: nat :: Newest(input, i) && input.transitions[i] == t
    case None =>
      && input.initialStatus == "active"
      && forall t :: t in input.transitions ==> !Visible(t.commitSeq, t.recordedAt, input)
  }

  /** A message in view and not from before the activation. */
  predicate Belongs(e: Event, since: Option<Transition>, input: Input) {
    && (e.kind == UserMessage || e.kind == ResidentMessage)
    && Visible(e.commitSeq, e.recordedAt, input)
    && (since.Some? && since.value.commitSeq > 0 && e.commitSeq > 0 ==> since.value.commitSeq < e.commitSeq)
    && (since.Some? && (since.value.commitSeq <= 0 || e.commitSeq <= 0) ==> since.value.recordedAt <= e.recordedAt)
  }

  // ---------------------------------------------------------- transitions

  lemma SameOrders()
    ensures forall a, b :: TransitionBefore(a, b) <==> OlderTransition(a, b)
    ensures forall a, b :: Before(a, b) <==> OlderEvent(a, b)
  {
  }

  function InSight(input: Input): Transition -> bool {
    (t: Transition) => InView(t, input.throughCommit, input.asOf)
  }

  /** The transition that decides is the newest in view. */
  lemma LatestIsNewest(input: Input)
    requires WeakOrderOn(input.transitions, TransitionBefore)
    ensures match Latest(input)
            case None => forall t :: t in input.transitions ==> !Visible(t.commitSeq, t.recordedAt, input)
            case Some(t) => exists i: nat :: Newest(input, i) && input.transitions[i] == t
  {
    var ts, p := input.transitions, InSight(input);
    SortFilter(ts, p, TransitionBefore);
    assert Seen(SortBy(ts, TransitionBefore), input.throughCommit, input.asOf) == SortBy(Filter(ts, p), TransitionBefore) by {
      SameFilter(SortBy(ts, TransitionBefore), input);
    }
    FilterMembers(ts, p);
    SortPermutes(Filter(ts, p), TransitionBefore);
    if Filter(ts, p) != [] {
      var i := SortedLast(ts, p, TransitionBefore);
      LastIsNewest(input, i);
    } else {
      assert SortBy(Filter(ts, p), TransitionBefore) == [];
    }
  }

  lemma LastIsNewest(input: Input, i: nat)
    requires LastOf(input.transitions, InSight(input), i, TransitionBefore)
    ensures Newest(input, i)
  {
  }

  lemma {:induction false} SameFilter(s: seq<Transition>, input: Input)
    ensures Seen(s, input.throughCommit, input.asOf) == Filter(s, InSight(input))
  {
    if s != [] {
      SameFilter(s[..|s| - 1], input);
    }
  }

  lemma OneNewest(input: Input, i: nat, j: nat)
    requires Newest(input, i) && Newest(input, j)
    ensures i == j
  {
  }

  /** Status and boundary are those of the newest transition in view, or of the outset if there is none. */
  lemma NewestDecides(input: Input, since: Option<Transition>)
    requires WeakOrderOn(input.transitions, TransitionBefore)
    ensures ActiveSince(input, since) <==> ActiveAt(input) && Boundary(input) == since
  {
    LatestIsNewest(input);
    hide Newest, Latest;
    if Latest(input).Some? {
      var t := Latest(input).value;
      var i: nat :| Newest(input, i) && input.transitions[i] == t;
      forall j: nat | Newest(input, j)
        ensures j == i
      {
        OneNewest(input, i, j);
      }
      assert t in input.transitions && Visible(t.commitSeq, t.recordedAt, input) by {
        NewestIsVisible(input, i);
      }
    } else if since.Some? {
      forall j: nat | Newest(input, j)
        ensures false
      {
        NewestIsVisible(input, j);
      }
    }
  }

  lemma NewestIsVisible(input: Input, i: nat)
    requires Newest(input, i)
    ensures i < |input.transitions|
    ensures var t := input.transitions[i]; t in input.transitions && Visible(t.commitSeq, t.recordedAt, input)
  {
  }

  // ------------------------------------------------------------- messages

  ghost predicate NextUser(messages: seq<Event>, i: nat, j: nat) {
    && i < j < |messages| && messages[i].kind == UserMessage && messages[j].kind == UserMessage
    && forall m :: i < m < j ==> messages[m].kind != UserMessage
  }

  /** The last user message, and the first one from which no two user messages in a row are `idle` apart. */
  ghost predicate Spans(messages: seq<Event>, start: nat, last: nat, idle: Int64) {
    && start <= last < |messages| && messages[start].kind == UserMessage && messages[last].kind == UserMessage
    && (forall m :: last < m < |messages| ==> messages[m].kind != UserMessage)
    && (forall i: nat, j: nat :: NextUser(messages, i, j) && start <= i ==> messages[j].recordedAt - messages[i].recordedAt < idle)
    && (forall i: nat :: NextUser(messages, i, start) ==> messages[start].recordedAt - messages[i].recordedAt >= idle)
  }

  ghost predicate TailFrom(users: seq<Event>, k: nat, idle: Int64) {
    && k < |users|
    && (k > 0 ==> GapBefore(users, k, idle))
    && (forall j :: k < j < |users| ==> !GapBefore(users, j, idle))
  }

  lemma TailGoesOn(users: seq<Event>, k: nat, idle: Int64)
    requires |users| > 1 && TailFrom(users[..|users| - 1], k, idle) && !GapBefore(users, |users| - 1, idle)
    ensures TailFrom(users, k, idle)
  {
    forall j | 0 < j < |users| - 1
      ensures GapBefore(users[..|users| - 1], j, idle) <==> GapBefore(users, j, idle)
    {
      GapOfInit(users, j, idle);
    }
    hide GapBefore;
  }

  lemma {:induction false} LastBlockGaps(users: seq<Event>, idle: Int64)
    requires users != []
    ensures |LastBlock(users, idle)| <= |users| && TailFrom(users, |users| - |LastBlock(users, idle)|, idle)
  {
    var n := |users| - 1;
    LastBlockFits(users, idle);
    LastBlockGrows(users, idle);
    if n > 0 && !GapBefore(users, n, idle) {
      hide LastBlock, GapBefore, TailFrom;
      LastBlockGaps(users[..n], idle);
      TailGoesOn(users, n - |LastBlock(users[..n], idle)|, idle);
    } else {
      hide LastBlock, GapBefore;
    }
  }

  lemma NextUserGap(messages: seq<Event>, i: nat, j: nat, idle: Int64)
    requires NextUser(messages, i, j)
    ensures var k := |Users(messages[..j])|;
            && 0 < k < |Users(messages)| && |Users(messages[..i])| == k - 1
            && (GapBefore(Users(messages), k, idle) <==> messages[j].recordedAt - messages[i].recordedAt >= idle)
  {
    StepBack(messages, i, j);
  }

  lemma CountsGrow(messages: seq<Event>, i: nat, j: nat)
    requires i <= j < |messages| && messages[i].kind == UserMessage
    ensures |Users(messages[..i])| <= |Users(messages[..j])|
  {
    if i < j {
      UserCountGrows(messages, i, j);
    }
  }

  lemma NoUserAfter(messages: seq<Event>, last: nat, m: nat)
    requires last < m < |messages| && messages[last].kind == UserMessage
    requires |Users(messages[..last])| == |Users(messages)| - 1
    ensures messages[m].kind != UserMessage
  {
    if messages[m].kind == UserMessage {
      UserCountGrows(messages, last, m);
      UserPosition(messages, m);
    }
  }

  lemma InnerGap(messages: seq<Event>, start: nat, i: nat, j: nat, idle: Int64)
    requires NextUser(messages, i, j) && start <= i && messages[start].kind == UserMessage
    requires forall k :: |Users(messages[..start])| < k < |Users(messages)| ==> !GapBefore(Users(messages), k, idle)
    ensures messages[j].recordedAt - messages[i].recordedAt < idle
  {
    NextUserGap(messages, i, j, idle);
    CountsGrow(messages, start, i);
    hide GapBefore, Filter;
  }

  lemma SpansFrom(messages: seq<Event>, start: nat, last: nat, idle: Int64)
    requires start < |messages| && messages[start].kind == UserMessage
    requires last < |messages| && messages[last].kind == UserMessage
    requires TailFrom(Users(messages), |Users(messages[..start])|, idle) && |Users(messages[..last])| == |Users(messages)| - 1
    ensures Spans(messages, start, last, idle)
  {
    hide Users;
    if last < start {
      CountsGrow(messages, last, start);
      UserCountGrows(messages, last, start);
    }
    forall m | last < m < |messages|
      ensures messages[m].kind != UserMessage
    {
      NoUserAfter(messages, last, m);
    }
    forall i: nat, j: nat | NextUser(messages, i, j) && start <= i
      ensures messages[j].recordedAt - messages[i].recordedAt < idle
    {
      InnerGap(messages, start, i, j, idle);
    }
    forall i: nat | NextUser(messages, i, start)
      ensures messages[start].recordedAt - messages[i].recordedAt >= idle
    {
      NextUserGap(messages, i, start, idle);
    }
  }

  lemma BlockSpans(messages: seq<Event>, idle: Int64) returns (start: nat, last: nat)
    requires Users(messages) != []
    ensures Spans(messages, start, last, idle)
    ensures var users := Users(messages);
            var k := |users| - |LastBlock(users, idle)|;
            0 <= k < |users| && UserAt(messages, k) == start && users[k] == messages[start] && users[|users| - 1] == messages[last]
  {
    var users := Users(messages);
    LastBlockGaps(users, idle);
    var k := |users| - |LastBlock(users, idle)|;
    assert k < |users| by {
      LastBlockFits(users, idle);
    }
    hide LastBlock, GapBefore, Users, Spans, TailFrom;
    start, last := UserAt(messages, k), UserAt(messages, |users| - 1);
    hide UserAt;
    UserPosition(messages, start);
    UserPosition(messages, last);
    SpansFrom(messages, start, last, idle);
  }

  // --------------------------------------------------------- the session

  function Belonging(input: Input, since: Option<Transition>): Event -> bool {
    (e: Event) => Belongs(e, since, input)
  }

  lemma SameMessages(input: Input, e: Event)
    ensures EligibleIn(e, input.throughCommit, input.asOf, Boundary(input)) <==> Belongs(e, Boundary(input), input)
  {
  }

  lemma {:induction false} SameEligible(s: seq<Event>, input: Input)
    ensures Filter(s, Eligibility(input.throughCommit, input.asOf, Boundary(input))) == Filter(s, Belonging(input, Boundary(input)))
  {
    if s != [] {
      SameEligible(s[..|s| - 1], input);
      SameMessages(input, s[|s| - 1]);
    }
  }

  /** The messages that belong, each as often as it was handed over, and in order where there is one. */
  ghost predicate InOrder(messages: seq<Event>, input: Input, since: Option<Transition>) {
    && (forall e :: e in messages <==> e in input.events && Belongs(e, since, input))
    && multiset(messages) == multiset(Filter(input.events, Belonging(input, since)))
    && (WeakOrderOn(input.events, OlderEvent) ==>
          forall i, j :: 0 <= i < j < |messages| ==> !OlderEvent(messages[j], messages[i]))
  }

  lemma {:induction false} FilterPermutes<T(!new)>(a: seq<T>, p: T -> bool, less: (T, T) -> bool)
    ensures multiset(Filter(SortBy(a, less), p)) == multiset(Filter(a, p))
  {
    if a != [] {
      var init, x := a[..|a| - 1], a[|a| - 1];
      assert a == init + [x];
      FilterPermutes(init, p, less);
      SortSnoc(init, x, less);
      FilterSnoc(init, x, p);
      InsertFiltered(SortBy(init, less), x, p, less);
    }
  }

  lemma {:induction false} InsertFiltered<T(!new)>(s: seq<T>, x: T, p: T -> bool, less: (T, T) -> bool)
    ensures multiset(Filter(InsertBy(s, x, less), p)) == multiset(Filter(s, p)) + if p(x) then multiset{x} else multiset{}
  {
    if s != [] && less(x, s[|s| - 1]) {
      var init, last := s[..|s| - 1], s[|s| - 1];
      assert s == init + [last];
      InsertFiltered(init, x, p, less);
      InsertMiddle(s, x, less);
      FilterSnoc(InsertBy(init, x, less), last, p);
      FilterSnoc(init, last, p);
    } else {
      InsertEnd(s, x, less);
      FilterSnoc(s, x, p);
    }
  }

  lemma SameWeakOrder(events: seq<Event>)
    ensures WeakOrderOn(events, OlderEvent) <==> WeakOrderOn(events, Before)
  {
    SameOrders();
    hide OlderEvent, Before;
  }

  lemma OrderedFilter(input: Input, p: Event -> bool)
    requires WeakOrderOn(input.events, Before)
    ensures Ordered(Filter(SortBy(input.events, Before), p), Before)
  {
    SortFilter(input.events, p, Before);
    FilterMembers(input.events, p);
    assert WeakOrderOn(Filter(input.events, p), Before);
    SortOrders(Filter(input.events, p), Before);
  }

  lemma EligibleIsInOrder(input: Input)
    ensures InOrder(Eligible(input), input, Boundary(input))
  {
    var sorted, p := SortBy(input.events, Before), Belonging(input, Boundary(input));
    SameEligible(sorted, input);
    FilterMembers(sorted, p);
    SortPermutes(input.events, Before);
    FilterPermutes(input.events, p, Before);
    SameWeakOrder(input.events);
    SameOrders();
    hide SortBy, Filter, Before, OlderEvent, WeakOrderOn, Boundary;
    if WeakOrderOn(input.events, Before) {
      OrderedFilter(input, p);
    }
  }

  /** The session of `messages` that starts and ends where `start` and `last` say. */
  ghost predicate SessionBetween(session: Session, messages: seq<Event>, start: nat, last: nat, input: Input)
    requires start < |messages| && last < |messages|
  {
    && session.startSeq == messages[start].number && session.startedAt == messages[start].recordedAt
    && session.lastUserAt == messages[last].recordedAt
    && (session.open <==> input.asOf - messages[last].recordedAt < input.idleGap)
    && session.residentActive
    && |session.events| == (if |messages| - start < input.maxEvents then |messages| - start else input.maxEvents)
    && session.events == messages[|messages| - |session.events|..]
  }

  predicate NoUser(messages: seq<Event>) {
    forall e :: e in messages ==> e.kind != UserMessage
  }

  lemma UsersOrNone(messages: seq<Event>)
    ensures Users(messages) == [] <==> NoUser(messages)
  {
    FilterMembers(messages, IsUser);
    if Users(messages) == [] {
      assert forall e :: e in messages ==> e in Users(messages) || !IsUser(e);
    } else {
      assert Users(messages)[0] in Users(messages);
    }
  }

  lemma BlockEndsAre(users: seq<Event>, idle: Int64)
    requires users != []
    ensures var block := LastBlock(users, idle);
            0 < |block| <= |users| && block[0] == users[|users| - |block|] && block[|block| - 1] == users[|users| - 1]
  {
    LastBlockFits(users, idle);
    hide LastBlock;
  }

  lemma SessionFromIs(messages: seq<Event>, start: nat, last: nat, input: Input)
    requires Users(messages) != [] && input.maxEvents >= 1 && start < |messages| && last < |messages|
    requires var block := LastBlock(Users(messages), input.idleGap);
             && 0 < |block| <= |Users(messages)| && UserAt(messages, |Users(messages)| - |block|) == start
             && block[0] == messages[start] && block[|block| - 1] == messages[last]
    ensures SessionFrom(messages, input.idleGap, input.maxEvents, input.asOf)
            == Session(Tail(messages[start..], input.maxEvents), messages[start].number, messages[start].recordedAt,
                       messages[last].recordedAt, input.asOf - messages[last].recordedAt < input.idleGap, true)
  {
    hide LastBlock, UserAt, Users, Tail;
  }

  lemma SessionIsBetween(messages: seq<Event>, start: nat, last: nat, input: Input, session: Session)
    requires input.maxEvents >= 1 && start < |messages| && last < |messages|
    requires session == Session(Tail(messages[start..], input.maxEvents), messages[start].number, messages[start].recordedAt,
                                messages[last].recordedAt, input.asOf - messages[last].recordedAt < input.idleGap, true)
    ensures SessionBetween(session, messages, start, last, input)
  {
    TailIsNewest(messages, start, input.maxEvents);
    hide Tail;
  }

  lemma SessionFromSpans(messages: seq<Event>, input: Input) returns (start: nat, last: nat)
    requires Users(messages) != [] && input.idleGap > 0 && input.maxEvents >= 1
    ensures Spans(messages, start, last, input.idleGap)
    ensures SessionBetween(SessionFrom(messages, input.idleGap, input.maxEvents, input.asOf), messages, start, last, input)
  {
    hide Spans, LastBlock, UserAt, Users, SessionFrom, SessionBetween;
    start, last := BlockSpans(messages, input.idleGap);
    SpanIsInside(messages, start, last, input.idleGap);
    BlockEndsAre(Users(messages), input.idleGap);
    SessionFromIs(messages, start, last, input);
    SessionIsBetween(messages, start, last, input, SessionFrom(messages, input.idleGap, input.maxEvents, input.asOf));
  }

  lemma SpanIsInside(messages: seq<Event>, start: nat, last: nat, idle: Int64)
    requires Spans(messages, start, last, idle)
    ensures start <= last < |messages|
  {
  }

  lemma TailIsNewest<T>(s: seq<T>, start: nat, most: nat)
    requires start <= |s|
    ensures var tail := Tail(s[start..], most);
            && |tail| == (if |s| - start < most then |s| - start else most)
            && tail == s[|s| - |tail|..]
  {
  }

  /** An error exactly for an idle gap or a bound that is not positive, or an unknown status anywhere. */
  lemma RefusedExactly(input: Input)
    ensures SessionOf(input).None? <==>
            || input.idleGap <= 0 || input.maxEvents < 1
            || (input.initialStatus != "" && !Known(input.initialStatus))
            || exists t :: t in input.transitions && !Known(t.status)
  {
    hide SessionFrom, ActiveAt, Eligible;
  }

  /**
   The whole meaning of an accepted calculation. With no user message that
   belongs there is no session. Otherwise, of the messages that belong, in order,
   the session starts at the first user message from which no two in a row are
   an idle gap apart, ends with the last one, is open while that is less than an
   idle gap ago, and lists the newest messages from its start on.
   */
  lemma SessionMeans(input: Input) returns (messages: seq<Event>, start: nat, last: nat)
    requires SessionOf(input).Some? && ActiveAt(input)
    ensures InOrder(messages, input, Boundary(input))
    ensures NoUser(messages) ==> SessionOf(input).value == NO_SESSION.(residentActive := true)
    ensures !NoUser(messages) ==>
              Spans(messages, start, last, input.idleGap) && SessionBetween(SessionOf(input).value, messages, start, last, input)
  {
    messages, start, last := Eligible(input), 0, 0;
    EligibleIsInOrder(input);
    UsersOrNone(messages);
    hide InOrder, Spans, SessionBetween, Eligible, LifecycleKnown, ActiveAt, Boundary;
    if Users(messages) != [] {
      hide SessionFrom;
      start, last := SessionFromSpans(messages, input);
    }
  }

  lemma InactiveHasNone(input: Input)
    requires SessionOf(input).Some? && !ActiveAt(input)
    ensures SessionOf(input).value == NO_SESSION
  {
  }

  /**
   Said of the input alone: with transitions that are weakly ordered, as with
   uniform cursors, an accepted calculation has a session exactly when the resident
   is active and a user message belongs to that activation; everything it lists
   belongs; and its last user message is a newest one.
   */
  lemma SessionIsTheLatestActivity(input: Input, since: Option<Transition>)
    requires SessionOf(input).Some? && WeakOrderOn(input.transitions, TransitionBefore)
    ensures (forall s :: !ActiveSince(input, s)) ==> SessionOf(input).value == NO_SESSION
    ensures ActiveSince(input, since) ==>
              var session := SessionOf(input).value;
              && session.residentActive
              && (session.events != [] <==> exists e :: e in input.events && e.kind == UserMessage && Belongs(e, since, input))
              && (forall e :: e in session.events ==> e in input.events && Belongs(e, since, input))
              && (session.events != [] ==> exists u :: LastUser(u, since, input) && session.lastUserAt == u.recordedAt)
  {
    NewestDecides(input, since);
    if ActiveAt(input) {
      NewestDecides(input, Boundary(input));
      hide ActiveSince, ActiveAt, SessionOf, Boundary;
      if ActiveSince(input, since) {
        var messages, start, last := SessionMeans(input);
        SessionFacts(input, messages, start, last, SessionOf(input).value, since);
      }
    } else {
      InactiveHasNone(input);
    }
  }

  /** A user message that belongs and, if events are weakly ordered, one that no other such message follows. */
  ghost predicate LastUser(u: Event, since: Option<Transition>, input: Input) {
    && u in input.events && u.kind == UserMessage && Belongs(u, since, input)
    && (WeakOrderOn(input.events, OlderEvent) ==>
          forall v :: v in input.events && v.kind == UserMessage && Belongs(v, since, input) ==> !OlderEvent(u, v))
  }

  lemma SessionFacts(input: Input, messages: seq<Event>, start: nat, last: nat, session: Session, since: Option<Transition>)
    requires InOrder(messages, input, since) && input.maxEvents >= 1
    requires NoUser(messages) ==> session == NO_SESSION.(residentActive := true)
    requires !NoUser(messages) ==> Spans(messages, start, last, input.idleGap) && SessionBetween(session, messages, start, last, input)
    ensures session.residentActive
    ensures session.events != [] <==> exists e :: e in input.events && e.kind == UserMessage && Belongs(e, since, input)
    ensures forall e :: e in session.events ==> e in input.events && Belongs(e, since, input)
    ensures session.events != [] ==> exists u :: LastUser(u, since, input) && session.lastUserAt == u.recordedAt
  {
    hide Belongs, OlderEvent, WeakOrderOn;
    if !NoUser(messages) {
      var e :| e in messages && e.kind == UserMessage;
      assert e in input.events && Belongs(e, since, input);
      LastIsNewestUser(input, messages, last, since);
      assert LastUser(messages[last], since, input);
    }
  }

  lemma LastIsNewestUser(input: Input, messages: seq<Event>, last: nat, since: Option<Transition>)
    requires InOrder(messages, input, since) && last < |messages| && messages[last].kind == UserMessage
    requires forall m :: last < m < |messages| ==> messages[m].kind != UserMessage
    ensures LastUser(messages[last], since, input)
  {
    var u := messages[last];
    assert u in messages;
    if WeakOrderOn(input.events, OlderEvent) {
      forall v | v in input.events && v.kind == UserMessage && Belongs(v, since, input)
        ensures !OlderEvent(u, v)
      {
        assert v in messages;
        var j :| 0 <= j < |messages| && messages[j] == v;
        assert !OlderEvent(u, u);
      }
    }
  }
}
