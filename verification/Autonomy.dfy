/**
 When a resident may talk to itself or reach out. Times and durations are
 microseconds, as the ledger records them; the zone is a fixed offset.
 */
module Autonomy {
  import opened Common
  import K = TriggerKeys

  const MINUTE: int := 60_000_000
  const HOUR: int := 60 * MINUTE
  const DAY: int := 24 * HOUR

  /** Go's zero time, the first instant of year 1. */
  const ZERO_TIME: int := -62_135_596_800_000_000

  // ------------------------------------------------------------- calendar

  /** Minutes of the local day. */
  datatype QuietHours = QuietHours(start: int, end: int)

  predicate ValidHours(h: QuietHours) {
    0 <= h.start < 1440 && 0 <= h.end < 1440 && h.start != h.end
  }

  function MinuteOfDay(local: int): int {
    local % DAY / MINUTE
  }

  predicate Contains(h: QuietHours, local: int) {
    var minute := MinuteOfDay(local);
    if h.start < h.end then h.start <= minute < h.end else minute >= h.start || minute < h.end
  }

  function EndAfter(h: QuietHours, local: int): int {
    var end := local - local % DAY + h.end * MINUTE;
    if end > local then end else end + DAY
  }

  function HourStart(now: int, zone: int): int {
    now - (now + zone) % HOUR
  }

  function DayStart(now: int, zone: int): int {
    now - (now + zone) % DAY
  }

  // --------------------------------------------------------------- policy

  datatype SelfTalkPolicy = SelfTalkPolicy(
    enabled: bool, interval: int, consecutiveLimit: int, hourlyLimit: int, dailyLimit: int, quietHours: QuietHours)

  datatype InitiativePolicy = InitiativePolicy(
    enabled: bool, minimumInterval: int, hourlyLimit: int, dailyLimit: int, recentUserSuppression: int,
    quietHours: QuietHours, triggers: seq<K.Kind>)

  /** `othersValid` stands for the version, scan and retention checks; `zone` is absent when the timezone does not load. */
  datatype Policy = Policy(selfTalk: SelfTalkPolicy, initiative: InitiativePolicy, zone: Option<int>, othersValid: bool)

  predicate ValidPolicy(p: Policy) {
    && p.othersValid && p.zone.Some?
    && p.selfTalk.interval > 0 && p.selfTalk.consecutiveLimit > 0 && p.selfTalk.hourlyLimit > 0 && p.selfTalk.dailyLimit > 0
    && ValidHours(p.selfTalk.quietHours)
    && p.initiative.minimumInterval > 0 && p.initiative.hourlyLimit > 0 && p.initiative.dailyLimit > 0
    && p.initiative.recentUserSuppression > 0
    && ValidHours(p.initiative.quietHours)
    && p.initiative.triggers != [] && (forall k :: k in p.initiative.triggers ==> K.IsInitiative(k))
    && (forall i, j :: 0 <= i < j < |p.initiative.triggers| ==> p.initiative.triggers[i] != p.initiative.triggers[j])
  }

  // ------------------------------------------------------------ decisions

  datatype Point = Point(number: nat, recordedAt: int)

  datatype Snapshot = Snapshot(
    active: bool,
    memoryPolicyAllows: bool,
    lastUser: Option<Point>,
    lastSelfTalk: Option<Point>,
    lastInitiative: Option<Point>,
    consecutiveSelfTalk: int,
    selfTalkHourCount: int,
    selfTalkDayCount: int,
    initiativeHourCount: int,
    initiativeDayCount: int,
    latestRecordedAt: int,
    projectionAvailable: bool,
    foregroundPending: bool
  )

  datatype Timing = Timing(
    now: int, sinceUser: Option<int>, sinceSelfTalk: Option<int>, sinceInitiative: Option<int>, regressed: bool)

  datatype Reason =
    | NotBlocked | Disabled | ResidentInactive | MemoryPolicyTooOld | ProjectionUnavailable | InQuietHours | MinimumInterval
    | ConsecutiveLimit | HourlyLimit | DailyLimit | RecentUserSuppression | NoTrigger | ClockRegression | ForegroundPending

  datatype Decision = Decision(eligible: bool, reason: Reason, next: Option<int>)

  function Blocked(reason: Reason): Decision {
    Decision(false, reason, None)
  }

  function BlockedUntil(reason: Reason, next: int): Decision {
    Decision(false, reason, Some(next))
  }

  predicate ClockRegressed(s: Snapshot, t: Timing) {
    || t.regressed || t.now == ZERO_TIME
    || (s.latestRecordedAt != 0 && s.latestRecordedAt > t.now)
    || Negative(t.sinceUser) || Negative(t.sinceSelfTalk) || Negative(t.sinceInitiative)
  }

  predicate Negative(elapsed: Option<int>) {
    elapsed.Some? && elapsed.value < 0
  }

  /** The latest self-talk counts as the anchor only if no user message came after it. */
  function Anchor(s: Snapshot, t: Timing): Option<int>
    requires s.lastUser.Some?
  {
    if s.lastSelfTalk.Some? && s.lastSelfTalk.value.number > s.lastUser.value.number then t.sinceSelfTalk else t.sinceUser
  }

  function DecideSelfTalk(p: Policy, s: Snapshot, trigger: K.Trigger, t: Timing): Decision {
    if !p.selfTalk.enabled then Blocked(Disabled)
    else if !s.active then Blocked(ResidentInactive)
    else if !s.memoryPolicyAllows then Blocked(MemoryPolicyTooOld)
    else if s.foregroundPending then Blocked(ForegroundPending)
    else if ClockRegressed(s, t) then Blocked(ClockRegression)
    else if !ValidPolicy(p) then Blocked(Disabled)
    else
      var zone := p.zone.value;
      if Contains(p.selfTalk.quietHours, t.now + zone) then
        BlockedUntil(InQuietHours, EndAfter(p.selfTalk.quietHours, t.now + zone) - zone)
      else if !K.IsSelfTalk(trigger.kind) || !K.Valid(trigger) || s.lastUser.None? then Blocked(NoTrigger)
      else if Anchor(s, t).None? || Negative(Anchor(s, t)) then Blocked(ClockRegression)
      else if Anchor(s, t).value < p.selfTalk.interval then
        BlockedUntil(MinimumInterval, t.now + (p.selfTalk.interval - Anchor(s, t).value))
      else if s.consecutiveSelfTalk >= p.selfTalk.consecutiveLimit then Blocked(ConsecutiveLimit)
      else if s.selfTalkHourCount >= p.selfTalk.hourlyLimit then BlockedUntil(HourlyLimit, HourStart(t.now, zone) + HOUR)
      else if s.selfTalkDayCount >= p.selfTalk.dailyLimit then BlockedUntil(DailyLimit, DayStart(t.now, zone) + DAY)
      else Decision(true, NotBlocked, None)
  }

  function DecideInitiative(p: Policy, s: Snapshot, trigger: K.Trigger, t: Timing): Decision {
    if !p.initiative.enabled then Blocked(Disabled)
    else if !s.active then Blocked(ResidentInactive)
    else if s.foregroundPending then Blocked(ForegroundPending)
    else if !s.projectionAvailable then Blocked(ProjectionUnavailable)
    else if !K.IsInitiative(trigger.kind) || !K.Valid(trigger) || trigger.kind !in p.initiative.triggers then Blocked(NoTrigger)
    else if ClockRegressed(s, t) then Blocked(ClockRegression)
    else if !ValidPolicy(p) then Blocked(Disabled)
    else
      var zone := p.zone.value;
      if Contains(p.initiative.quietHours, t.now + zone) then
        BlockedUntil(InQuietHours, EndAfter(p.initiative.quietHours, t.now + zone) - zone)
      else if s.lastUser.Some? && (t.sinceUser.None? || t.sinceUser.value < 0) then Blocked(ClockRegression)
      else if s.lastUser.Some? && t.sinceUser.value < p.initiative.recentUserSuppression then
        BlockedUntil(RecentUserSuppression, t.now + (p.initiative.recentUserSuppression - t.sinceUser.value))
      else if s.lastInitiative.Some? && (t.sinceInitiative.None? || t.sinceInitiative.value < 0) then Blocked(ClockRegression)
      else if s.lastInitiative.Some? && t.sinceInitiative.value < p.initiative.minimumInterval then
        BlockedUntil(MinimumInterval, t.now + (p.initiative.minimumInterval - t.sinceInitiative.value))
      else if s.initiativeHourCount >= p.initiative.hourlyLimit then BlockedUntil(HourlyLimit, HourStart(t.now, zone) + HOUR)
      else if s.initiativeDayCount >= p.initiative.dailyLimit then BlockedUntil(DailyLimit, DayStart(t.now, zone) + DAY)
      else Decision(true, NotBlocked, None)
  }

  // ------------------------------------------------------- the next moment

  lemma DayParts(base: int, r: int)
    requires base % DAY == 0 && 0 <= r < DAY
    ensures (base + r) % DAY == r && MinuteOfDay(base + r) == r / MINUTE
  {
  }

  lemma MinuteBounds(r: int, minute: int)
    ensures r / MINUTE < minute <==> r < minute * MINUTE
  {
  }

  /** Quiet hours last without a break up to `EndAfter`, and are over then. */
  lemma QuietUntilEnd(h: QuietHours, local: int, later: int)
    requires ValidHours(h) && Contains(h, local) && local <= later < EndAfter(h, local)
    ensures Contains(h, later) && !Contains(h, EndAfter(h, local))
  {
    var r := local % DAY;
    var base := local - r;
    DayParts(base, r);
    DayParts(base, h.end * MINUTE);
    DayParts(base + DAY, h.end * MINUTE);
    MinuteBounds(r, h.start);
    MinuteBounds(r, h.end);
    MinuteBounds(h.end * MINUTE, h.end);
    assert h.end * MINUTE / MINUTE == h.end;
    var s := later - base;
    if s < DAY {
      DayParts(base, s);
      MinuteBounds(s, h.start);
      MinuteBounds(s, h.end);
    } else {
      DayParts(base + DAY, s - DAY);
      MinuteBounds(s - DAY, h.end);
    }
  }

  /** The same evaluation `d` later, with nothing new recorded. */
  function Later(t: Timing, d: int): Timing {
    t.(now := t.now + d, sinceUser := Plus(t.sinceUser, d), sinceSelfTalk := Plus(t.sinceSelfTalk, d),
       sinceInitiative := Plus(t.sinceInitiative, d))
  }

  function Plus(elapsed: Option<int>, d: int): Option<int> {
    if elapsed.Some? then Some(elapsed.value + d) else None
  }

  /**
   The announced moment is never late: before it, the same facts with the clock
   moved on are still not eligible. For quiet hours and for the interval it is
   not early either: at that moment the reason is gone.
   */
  lemma SelfTalkIsNotDueBefore(p: Policy, s: Snapshot, trigger: K.Trigger, t: Timing, d: int)
    requires DecideSelfTalk(p, s, trigger, t).next.Some?
    requires 0 <= d && t.now + d < DecideSelfTalk(p, s, trigger, t).next.value
    ensures !DecideSelfTalk(p, s, trigger, Later(t, d)).eligible
  {
    var decision := DecideSelfTalk(p, s, trigger, t);
    if decision.reason == InQuietHours {
      var zone := p.zone.value;
      QuietUntilEnd(p.selfTalk.quietHours, t.now + zone, t.now + d + zone);
    }
  }

  lemma SelfTalkReasonIsGone(p: Policy, s: Snapshot, trigger: K.Trigger, t: Timing)
    requires DecideSelfTalk(p, s, trigger, t).next.Some?
    ensures var decision := DecideSelfTalk(p, s, trigger, t);
            && t.now < decision.next.value
            && (decision.reason == InQuietHours || decision.reason == MinimumInterval ==>
                  DecideSelfTalk(p, s, trigger, Later(t, decision.next.value - t.now)).reason != decision.reason)
  {
    var decision := DecideSelfTalk(p, s, trigger, t);
    if decision.reason == InQuietHours {
      var zone := p.zone.value;
      QuietUntilEnd(p.selfTalk.quietHours, t.now + zone, t.now + zone);
    }
  }

  lemma InitiativeIsNotDueBefore(p: Policy, s: Snapshot, trigger: K.Trigger, t: Timing, d: int)
    requires DecideInitiative(p, s, trigger, t).next.Some?
    requires 0 <= d && t.now + d < DecideInitiative(p, s, trigger, t).next.value
    ensures !DecideInitiative(p, s, trigger, Later(t, d)).eligible
  {
    var decision := DecideInitiative(p, s, trigger, t);
    if decision.reason == InQuietHours {
      var zone := p.zone.value;
      QuietUntilEnd(p.initiative.quietHours, t.now + zone, t.now + d + zone);
    }
  }

  lemma InitiativeReasonIsGone(p: Policy, s: Snapshot, trigger: K.Trigger, t: Timing)
    requires DecideInitiative(p, s, trigger, t).next.Some?
    ensures var decision := DecideInitiative(p, s, trigger, t);
            && t.now < decision.next.value
            && (decision.reason == InQuietHours || decision.reason == MinimumInterval || decision.reason == RecentUserSuppression ==>
                  DecideInitiative(p, s, trigger, Later(t, decision.next.value - t.now)).reason != decision.reason)
  {
    var decision := DecideInitiative(p, s, trigger, t);
    if decision.reason == InQuietHours {
      var zone := p.zone.value;
      QuietUntilEnd(p.initiative.quietHours, t.now + zone, t.now + zone);
    }
  }

  // --------------------------------------------------------------- history

  datatype EventKind = UserMessage | ResidentMessage | SelfTalk | OutboundInitiative

  datatype Event = Event(kind: EventKind, recordedAt: int)

  /** `None` is the overflow error. */
  function ConsecutiveSelfTalkAfter(current: nat, kind: EventKind): Option<nat> {
    match kind
    case UserMessage => Some(0)
    case SelfTalk => if current == MAX_INT64 then None else Some(current + 1)
    case _ => Some(current)
  }

  function LastOf(h: seq<Event>, kind: EventKind): Option<Point> {
    if h == [] then None
    else
      var last := h[|h| - 1];
      if last.kind == kind then Some(Point(|h|, last.recordedAt)) else LastOf(h[..|h| - 1], kind)
  }

  lemma {:induction false} LastOfIsLast(h: seq<Event>, kind: EventKind)
    ensures var p := LastOf(h, kind);
            && (p.Some? ==> 0 < p.value.number <= |h| && h[p.value.number - 1] == Event(kind, p.value.recordedAt))
            && (forall i :: 0 <= i < |h| && h[i].kind == kind ==> p.Some? && i < p.value.number)
  {
    if h != [] {
      LastOfIsLast(h[..|h| - 1], kind);
    }
  }

  /** Self-talk since the last user message. */
  function Consecutive(h: seq<Event>): nat {
    if h == [] || h[|h| - 1].kind == UserMessage then 0
    else Consecutive(h[..|h| - 1]) + if h[|h| - 1].kind == SelfTalk then 1 else 0
  }

  function LatestAt(h: seq<Event>): int {
    if h == [] then 0
    else if |h| == 1 then h[0].recordedAt
    else
      var before := LatestAt(h[..|h| - 1]);
      if h[|h| - 1].recordedAt > before then h[|h| - 1].recordedAt else before
  }

  predicate Within(e: Event, kind: EventKind, start: int, length: int) {
    e.kind == kind && start <= e.recordedAt < start + length
  }

  function InWindow(h: seq<Event>, kind: EventKind, start: int, length: int): nat {
    CountIf(h, (e: Event) => Within(e, kind, start, length))
  }

  function InHour(h: seq<Event>, kind: EventKind, now: int, zone: int): nat {
    InWindow(h, kind, HourStart(now, zone), HOUR)
  }

  function InDay(h: seq<Event>, kind: EventKind, now: int, zone: int): nat {
    InWindow(h, kind, DayStart(now, zone), DAY)
  }

  /** Everything a decision needs that is not the event history. */
  datatype Facts = Facts(active: bool, memoryPolicyAllows: bool, projectionAvailable: bool, foregroundPending: bool)

  /** The snapshot that the store reads at the moment `now`. */
  function Capture(h: seq<Event>, now: int, zone: int, f: Facts): Snapshot {
    Snapshot(f.active, f.memoryPolicyAllows, LastOf(h, UserMessage), LastOf(h, SelfTalk), LastOf(h, OutboundInitiative),
             Consecutive(h), InHour(h, SelfTalk, now, zone), InDay(h, SelfTalk, now, zone),
             InHour(h, OutboundInitiative, now, zone), InDay(h, OutboundInitiative, now, zone),
             LatestAt(h), f.projectionAvailable, f.foregroundPending)
  }

  function Elapsed(p: Option<Point>, now: int): Option<int> {
    if p.Some? then Some(now - p.value.recordedAt) else None
  }

  /** `ResolveEvaluationTime` without process anchors, as at the commit. */
  function Resolve(s: Snapshot, now: int): Timing {
    var user, talk, initiative := Elapsed(s.lastUser, now), Elapsed(s.lastSelfTalk, now), Elapsed(s.lastInitiative, now);
    Timing(now, user, talk, initiative,
           Negative(user) || Negative(talk) || Negative(initiative) || (s.latestRecordedAt != 0 && s.latestRecordedAt > now))
  }

  /** The event may be appended: ledger time moves on, and self-talk is decided at its own commit time. */
  ghost predicate Admitted(p: Policy, h: seq<Event>, e: Event) {
    && (h != [] ==> h[|h| - 1].recordedAt <= e.recordedAt)
    && (e.kind == SelfTalk ==>
          p.zone.Some? && exists f, trigger ::
            DecideSelfTalk(p, Capture(h, e.recordedAt, p.zone.value, f), trigger,
                           Resolve(Capture(h, e.recordedAt, p.zone.value, f), e.recordedAt)).eligible)
  }

  ghost predicate Run(p: Policy, h: seq<Event>) {
    forall i :: 0 <= i < |h| ==> Admitted(p, h[..i], h[i])
  }

  /** What eligibility says about the history it was decided on. */
  lemma EligibleMeans(p: Policy, h: seq<Event>, now: int, f: Facts, trigger: K.Trigger)
    requires p.zone.Some?
    requires var s := Capture(h, now, p.zone.value, f); DecideSelfTalk(p, s, trigger, Resolve(s, now)).eligible
    ensures ValidPolicy(p) && !Contains(p.selfTalk.quietHours, now + p.zone.value)
    ensures Consecutive(h) < p.selfTalk.consecutiveLimit
    ensures InHour(h, SelfTalk, now, p.zone.value) < p.selfTalk.hourlyLimit
    ensures InDay(h, SelfTalk, now, p.zone.value) < p.selfTalk.dailyLimit
    ensures LastOf(h, UserMessage).Some?
    ensures var user, talk := LastOf(h, UserMessage), LastOf(h, SelfTalk);
            if talk.Some? && talk.value.number > user.value.number then now - talk.value.recordedAt >= p.selfTalk.interval
            else now - user.value.recordedAt >= p.selfTalk.interval
  {
  }

  // ------------------------------------------------------------ what holds

  lemma RunInit(p: Policy, h: seq<Event>)
    requires Run(p, h) && h != []
    ensures Run(p, h[..|h| - 1]) && Admitted(p, h[..|h| - 1], h[|h| - 1])
  {
    var init := h[..|h| - 1];
    forall i | 0 <= i < |init|
      ensures Admitted(p, init[..i], init[i])
    {
      assert init[..i] == h[..i] && init[i] == h[i];
    }
  }

  lemma {:induction false} TimesAscend(p: Policy, h: seq<Event>, i: nat, j: nat)
    requires Run(p, h) && i <= j < |h|
    ensures h[i].recordedAt <= h[j].recordedAt
    decreases j - i
  {
    if i < j {
      assert Admitted(p, h[..j], h[j]) && h[..j] != [] && h[..j][j - 1] == h[j - 1];
      TimesAscend(p, h, i, j - 1);
    }
  }

  /** The counter kept from event to event is the count of self-talk since the last user message. */
  lemma ConsecutiveFolds(h: seq<Event>, e: Event)
    ensures var next := ConsecutiveSelfTalkAfter(Consecutive(h), e.kind);
            next.Some? ==> Consecutive(h + [e]) == next.value
  {
    assert (h + [e])[..|h|] == h;
  }

  lemma {:induction false} ConsecutiveStaysWithin(p: Policy, h: seq<Event>)
    requires ValidPolicy(p) && Run(p, h)
    ensures Consecutive(h) <= p.selfTalk.consecutiveLimit
    decreases |h|
  {
    if h != [] {
      RunInit(p, h);
      ConsecutiveStaysWithin(p, h[..|h| - 1]);
      var e := h[|h| - 1];
      if e.kind == SelfTalk {
        SelfTalkWasEligible(p, h[..|h| - 1], e);
      }
    }
  }

  lemma SelfTalkWasEligible(p: Policy, h: seq<Event>, e: Event)
    requires ValidPolicy(p) && Admitted(p, h, e) && e.kind == SelfTalk
    ensures !Contains(p.selfTalk.quietHours, e.recordedAt + p.zone.value)
    ensures Consecutive(h) < p.selfTalk.consecutiveLimit
    ensures InHour(h, SelfTalk, e.recordedAt, p.zone.value) < p.selfTalk.hourlyLimit
    ensures InDay(h, SelfTalk, e.recordedAt, p.zone.value) < p.selfTalk.dailyLimit
    ensures LastOf(h, UserMessage).Some?
    ensures var user, talk := LastOf(h, UserMessage), LastOf(h, SelfTalk);
            if talk.Some? && talk.value.number > user.value.number then e.recordedAt - talk.value.recordedAt >= p.selfTalk.interval
            else e.recordedAt - user.value.recordedAt >= p.selfTalk.interval
  {
    var f, trigger :| DecideSelfTalk(p, Capture(h, e.recordedAt, p.zone.value, f), trigger,
                                     Resolve(Capture(h, e.recordedAt, p.zone.value, f), e.recordedAt)).eligible;
    EligibleMeans(p, h, e.recordedAt, f, trigger);
  }

  lemma SameHour(t: int, now: int, zone: int)
    requires HourStart(now, zone) <= t < HourStart(now, zone) + HOUR
    ensures HourStart(t, zone) == HourStart(now, zone)
  {
    var base := (now + zone) - (now + zone) % HOUR;
    HourParts(base, t + zone - base);
  }

  lemma HourParts(base: int, r: int)
    requires base % HOUR == 0 && 0 <= r < HOUR
    ensures (base + r) % HOUR == r
  {
  }

  lemma SameCalendarDay(t: int, now: int, zone: int)
    requires DayStart(now, zone) <= t < DayStart(now, zone) + DAY
    ensures DayStart(t, zone) == DayStart(now, zone)
  {
    var base := (now + zone) - (now + zone) % DAY;
    DayParts(base, t + zone - base);
  }

  lemma {:induction false} HoursStayWithin(p: Policy, h: seq<Event>, now: int)
    requires ValidPolicy(p) && Run(p, h)
    ensures InHour(h, SelfTalk, now, p.zone.value) <= p.selfTalk.hourlyLimit
    decreases |h|
  {
    if h != [] {
      var init, e := h[..|h| - 1], h[|h| - 1];
      RunInit(p, h);
      HoursStayWithin(p, init, now);
      if Within(e, SelfTalk, HourStart(now, p.zone.value), HOUR) {
        SelfTalkWasEligible(p, init, e);
        SameHour(e.recordedAt, now, p.zone.value);
      }
    }
  }

  lemma {:induction false} DaysStayWithin(p: Policy, h: seq<Event>, now: int)
    requires ValidPolicy(p) && Run(p, h)
    ensures InDay(h, SelfTalk, now, p.zone.value) <= p.selfTalk.dailyLimit
    decreases |h|
  {
    if h != [] {
      var init, e := h[..|h| - 1], h[|h| - 1];
      RunInit(p, h);
      DaysStayWithin(p, init, now);
      if Within(e, SelfTalk, DayStart(now, p.zone.value), DAY) {
        SelfTalkWasEligible(p, init, e);
        SameCalendarDay(e.recordedAt, now, p.zone.value);
      }
    }
  }

  lemma RunAt(p: Policy, h: seq<Event>, i: nat)
    requires Run(p, h) && i < |h|
    ensures Admitted(p, h[..i], h[i])
  {
    hide Admitted;
  }

  /** Two self-talks keep their distance, whether or not a user message came between them. */
  lemma SelfTalksKeepDistance(p: Policy, h: seq<Event>, i: nat, j: nat)
    requires ValidPolicy(p) && Run(p, h) && i < j < |h| && h[i].kind == SelfTalk && h[j].kind == SelfTalk
    ensures h[j].recordedAt - h[i].recordedAt >= p.selfTalk.interval
  {
    assert p.zone.Some?;
    hide Admitted, Run, ValidPolicy, Contains, Consecutive, InHour, InDay, LastOf;
    var before := h[..j];
    RunAt(p, h, j);
    SelfTalkWasEligible(p, before, h[j]);
    LastOfIsLast(before, UserMessage);
    LastOfIsLast(before, SelfTalk);
    var user, talk := LastOf(before, UserMessage).value, LastOf(before, SelfTalk);
    assert before[i].kind == SelfTalk && before[i] == h[i];
    var anchor: nat := if talk.value.number > user.number then talk.value.number - 1 else user.number - 1;
    assert before[anchor] == h[anchor] && i <= anchor < j;
    TimesAscend(p, h, i, anchor);
  }

  lemma SelfTalkAvoidsQuietHours(p: Policy, h: seq<Event>, i: nat)
    requires ValidPolicy(p) && Run(p, h) && i < |h| && h[i].kind == SelfTalk
    ensures p.zone.Some? && !Contains(p.selfTalk.quietHours, h[i].recordedAt + p.zone.value)
  {
    assert p.zone.Some?;
    RunAt(p, h, i);
    hide Admitted, Run, ValidPolicy, Contains, Consecutive, InHour, InDay, LastOf;
    SelfTalkWasEligible(p, h[..i], h[i]);
  }

  /**
   Every run that appends self-talk only when it is eligible at its commit time:
   the consecutive count, every calendar hour and every calendar day stay within
   their limits, no self-talk falls into quiet hours, and any two keep the interval.
   */
  lemma SelfTalkStaysBounded(p: Policy, h: seq<Event>)
    requires ValidPolicy(p) && Run(p, h)
    ensures Consecutive(h) <= p.selfTalk.consecutiveLimit
    ensures forall now :: InHour(h, SelfTalk, now, p.zone.value) <= p.selfTalk.hourlyLimit
    ensures forall now :: InDay(h, SelfTalk, now, p.zone.value) <= p.selfTalk.dailyLimit
    ensures forall i :: 0 <= i < |h| && h[i].kind == SelfTalk ==> !Contains(p.selfTalk.quietHours, h[i].recordedAt + p.zone.value)
    ensures forall i, j :: 0 <= i < j < |h| && h[i].kind == SelfTalk && h[j].kind == SelfTalk ==>
              h[j].recordedAt - h[i].recordedAt >= p.selfTalk.interval
  {
    ConsecutiveStaysWithin(p, h);
    assert p.zone.Some?;
    hide Run, ValidPolicy, Contains, Consecutive, InHour, InDay;
    forall now
      ensures InHour(h, SelfTalk, now, p.zone.value) <= p.selfTalk.hourlyLimit
    {
      HoursStayWithin(p, h, now);
    }
    forall now
      ensures InDay(h, SelfTalk, now, p.zone.value) <= p.selfTalk.dailyLimit
    {
      DaysStayWithin(p, h, now);
    }
    forall i | 0 <= i < |h| && h[i].kind == SelfTalk
      ensures !Contains(p.selfTalk.quietHours, h[i].recordedAt + p.zone.value)
    {
      SelfTalkAvoidsQuietHours(p, h, i);
    }
    forall i, j | 0 <= i < j < |h| && h[i].kind == SelfTalk && h[j].kind == SelfTalk
      ensures h[j].recordedAt - h[i].recordedAt >= p.selfTalk.interval
    {
      SelfTalksKeepDistance(p, h, i, j);
    }
  }
}
