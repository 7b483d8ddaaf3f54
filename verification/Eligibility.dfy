/**
 Exactly when a resident may talk to itself or reach out: of one decision, of a
 whole event history, and for initiatives of every run that respects it.
 */
module Eligibility {
  import opened Common
  import opened Autonomy
  import K = TriggerKeys

  /** The minute of the day lies in the circular span from the start to before the end. */
  predicate Quiet(h: QuietHours, local: int) {
    (local / MINUTE - h.start) % 1440 < (h.end - h.start) % 1440
  }

  lemma MinutesOfDay(local: int)
    ensures MinuteOfDay(local) == local / MINUTE % 1440
  {
    var q, r := local / DAY, local % DAY;
    assert local == 1440 * q * MINUTE + r;
    assert local / MINUTE == 1440 * q + r / MINUTE;
    assert 0 <= r / MINUTE < 1440;
  }

  lemma Shifted(total: int, start: int)
    ensures (total - start) % 1440 == (total % 1440 - start) % 1440
  {
    assert total == 1440 * (total / 1440) + total % 1440;
  }

  lemma Circular(minute: int, start: int, end: int)
    requires 0 <= minute < 1440 && 0 <= start < 1440 && 0 <= end < 1440 && start != end
    ensures (minute - start) % 1440 < (end - start) % 1440
            <==> if start < end then start <= minute < end else minute >= start || minute < end
  {
    assert (minute - start) % 1440 == if minute >= start then minute - start else minute - start + 1440;
    assert (end - start) % 1440 == if end >= start then end - start else end - start + 1440;
  }

  lemma QuietExactly(h: QuietHours, local: int)
    requires ValidHours(h)
    ensures Contains(h, local) <==> Quiet(h, local)
  {
    MinutesOfDay(local);
    Shifted(local / MINUTE, h.start);
    Circular(local / MINUTE % 1440, h.start, h.end);
    hide MinuteOfDay;
  }

  /** Hours and days begin on the zone's own clock and contain the moment. */
  lemma CalendarIsLocal(now: int, zone: int)
    ensures (HourStart(now, zone) + zone) % HOUR == 0 && HourStart(now, zone) <= now < HourStart(now, zone) + HOUR
    ensures (DayStart(now, zone) + zone) % DAY == 0 && DayStart(now, zone) <= now < DayStart(now, zone) + DAY
  {
  }

  // ------------------------------------------------------------ decisions

  /** The clock has not gone back behind anything the snapshot knows. */
  predicate ClockHolds(s: Snapshot, t: Timing) {
    && !t.regressed && t.now != ZERO_TIME && (s.latestRecordedAt == 0 || s.latestRecordedAt <= t.now)
    && (t.sinceUser.Some? ==> t.sinceUser.value >= 0)
    && (t.sinceSelfTalk.Some? ==> t.sinceSelfTalk.value >= 0)
    && (t.sinceInitiative.Some? ==> t.sinceInitiative.value >= 0)
  }

  /** The user message or self-talk that came last; only self-talk after the user's last message counts. */
  predicate TalkRested(p: Policy, s: Snapshot, t: Timing) {
    s.lastUser.Some? &&
    if s.lastSelfTalk.Some? && s.lastSelfTalk.value.number > s.lastUser.value.number
    then t.sinceSelfTalk.Some? && t.sinceSelfTalk.value >= p.selfTalk.interval
    else t.sinceUser.Some? && t.sinceUser.value >= p.selfTalk.interval
  }

  lemma SelfTalkIsEligibleExactly(p: Policy, s: Snapshot, trigger: K.Trigger, t: Timing)
    ensures DecideSelfTalk(p, s, trigger, t).eligible <==>
            && ValidPolicy(p) && p.selfTalk.enabled && s.active && s.memoryPolicyAllows && !s.foregroundPending
            && trigger.kind in {K.Idle, K.MetaDependencyStatusChange, K.SettledDirectConflict} && K.Valid(trigger)
            && ClockHolds(s, t) && !Quiet(p.selfTalk.quietHours, t.now + p.zone.value) && TalkRested(p, s, t)
            && s.consecutiveSelfTalk < p.selfTalk.consecutiveLimit
            && s.selfTalkHourCount < p.selfTalk.hourlyLimit && s.selfTalkDayCount < p.selfTalk.dailyLimit
  {
    if ValidPolicy(p) {
      QuietExactly(p.selfTalk.quietHours, t.now + p.zone.value);
    }
    hide Contains, Quiet, EndAfter, HourStart, DayStart, K.Valid;
  }

  lemma InitiativeIsEligibleExactly(p: Policy, s: Snapshot, trigger: K.Trigger, t: Timing)
    ensures DecideInitiative(p, s, trigger, t).eligible <==>
            && ValidPolicy(p) && p.initiative.enabled && s.active && s.projectionAvailable && !s.foregroundPending
            && trigger.kind in {K.FutureToCurrent, K.VolatileAging} && trigger.kind in p.initiative.triggers && K.Valid(trigger)
            && ClockHolds(s, t) && !Quiet(p.initiative.quietHours, t.now + p.zone.value)
            && (s.lastUser.Some? ==> t.sinceUser.Some? && t.sinceUser.value >= p.initiative.recentUserSuppression)
            && (s.lastInitiative.Some? ==> t.sinceInitiative.Some? && t.sinceInitiative.value >= p.initiative.minimumInterval)
            && s.initiativeHourCount < p.initiative.hourlyLimit && s.initiativeDayCount < p.initiative.dailyLimit
  {
    if ValidPolicy(p) {
      QuietExactly(p.initiative.quietHours, t.now + p.zone.value);
    }
    hide Contains, Quiet, EndAfter, HourStart, DayStart, K.Valid;
  }

  /** The reason given for a refusal holds, and limits of the calendar name the first moment of the next local hour or day. */
  lemma SelfTalkReasonIsTrue(p: Policy, s: Snapshot, trigger: K.Trigger, t: Timing)
    ensures var d := DecideSelfTalk(p, s, trigger, t);
            match d.reason
            case NotBlocked => d.eligible
            case Disabled => !p.selfTalk.enabled || !ValidPolicy(p)
            case ResidentInactive => !s.active
            case MemoryPolicyTooOld => !s.memoryPolicyAllows
            case ForegroundPending => s.foregroundPending
            case ClockRegression => !ClockHolds(s, t) || s.lastUser.Some?
            case InQuietHours => Quiet(p.selfTalk.quietHours, t.now + p.zone.value)
            case NoTrigger => !K.IsSelfTalk(trigger.kind) || !K.Valid(trigger) || s.lastUser.None?
            case MinimumInterval => !TalkRested(p, s, t)
            case ConsecutiveLimit => s.consecutiveSelfTalk >= p.selfTalk.consecutiveLimit
            case HourlyLimit => s.selfTalkHourCount >= p.selfTalk.hourlyLimit && EndsHour(d.next, t.now, p.zone)
            case DailyLimit => s.selfTalkDayCount >= p.selfTalk.dailyLimit && EndsDay(d.next, t.now, p.zone)
            case _ => false
  {
    if ValidPolicy(p) {
      QuietExactly(p.selfTalk.quietHours, t.now + p.zone.value);
      BoundsEnd(t.now, p.zone.value);
    }
    assert p.zone.None? ==> !ValidPolicy(p);
    hide Contains, Quiet, EndAfter, HourStart, DayStart, EndsHour, EndsDay, ValidPolicy, K.Valid, K.IsSelfTalk, K.IsInitiative;
  }

  lemma BoundsEnd(now: int, zone: int)
    ensures EndsHour(Some(HourStart(now, zone) + HOUR), now, Some(zone)) && EndsDay(Some(DayStart(now, zone) + DAY), now, Some(zone))
  {
    CalendarIsLocal(now, zone);
    hide HourStart, DayStart;
  }

  predicate EndsHour(next: Option<int>, now: int, zone: Option<int>) {
    next.Some? && zone.Some? && (next.value + zone.value) % HOUR == 0 && now < next.value <= now + HOUR
  }

  predicate EndsDay(next: Option<int>, now: int, zone: Option<int>) {
    next.Some? && zone.Some? && (next.value + zone.value) % DAY == 0 && now < next.value <= now + DAY
  }

  lemma InitiativeReasonIsTrue(p: Policy, s: Snapshot, trigger: K.Trigger, t: Timing)
    ensures var d := DecideInitiative(p, s, trigger, t);
            match d.reason
            case NotBlocked => d.eligible
            case Disabled => !p.initiative.enabled || !ValidPolicy(p)
            case ResidentInactive => !s.active
            case ForegroundPending => s.foregroundPending
            case ProjectionUnavailable => !s.projectionAvailable
            case NoTrigger => !K.IsInitiative(trigger.kind) || !K.Valid(trigger) || trigger.kind !in p.initiative.triggers
            case ClockRegression => !ClockHolds(s, t) || s.lastUser.Some? || s.lastInitiative.Some?
            case InQuietHours => Quiet(p.initiative.quietHours, t.now + p.zone.value)
            case RecentUserSuppression => s.lastUser.Some? && t.sinceUser.Some? && t.sinceUser.value < p.initiative.recentUserSuppression
            case MinimumInterval =>
              s.lastInitiative.Some? && t.sinceInitiative.Some? && t.sinceInitiative.value < p.initiative.minimumInterval
            case HourlyLimit => s.initiativeHourCount >= p.initiative.hourlyLimit && EndsHour(d.next, t.now, p.zone)
            case DailyLimit => s.initiativeDayCount >= p.initiative.dailyLimit && EndsDay(d.next, t.now, p.zone)
            case _ => false
  {
    if ValidPolicy(p) {
      QuietExactly(p.initiative.quietHours, t.now + p.zone.value);
      BoundsEnd(t.now, p.zone.value);
    }
    assert p.zone.None? ==> !ValidPolicy(p);
    hide Contains, Quiet, EndAfter, HourStart, DayStart, EndsHour, EndsDay, ValidPolicy, K.Valid, K.IsSelfTalk, K.IsInitiative;
  }

  // ------------------------------------------------------------- histories

  /** Ledger time moves on, and nothing is recorded ahead of `now`. */
  ghost predicate Chronological(h: seq<Event>, now: int) {
    && (forall i, j :: 0 <= i < j < |h| ==> h[i].recordedAt <= h[j].recordedAt)
    && (forall i :: 0 <= i < |h| ==> h[i].recordedAt <= now)
  }

  /** Every event of the kind is at least `gap` old. */
  ghost predicate AllRested(h: seq<Event>, kind: EventKind, now: int, gap: int) {
    forall i :: 0 <= i < |h| && h[i].kind == kind ==> now - h[i].recordedAt >= gap
  }

  lemma LastIsYoungest(h: seq<Event>, kind: EventKind, now: int, gap: int)
    requires Chronological(h, now)
    ensures var last := LastOf(h, kind);
            && (last.Some? ==> now - last.value.recordedAt >= 0)
            && (AllRested(h, kind, now, gap) <==> (last.Some? ==> now - last.value.recordedAt >= gap))
  {
    LastOfIsLast(h, kind);
    var last := LastOf(h, kind);
    if last.Some? {
      var at := last.value.number - 1;
      assert h[at].recordedAt == last.value.recordedAt && h[at].kind == kind;
      forall i | 0 <= i < |h| && h[i].kind == kind
        ensures h[i].recordedAt <= last.value.recordedAt
      {
        assert i <= at;
      }
    }
  }

  lemma {:induction false} LatestIsNotAhead(h: seq<Event>, now: int)
    requires h != [] && forall i :: 0 <= i < |h| ==> h[i].recordedAt <= now
    ensures LatestAt(h) <= now
  {
    if |h| > 1 {
      LatestIsNotAhead(h[..|h| - 1], now);
    }
  }

  lemma ClockHoldsThere(h: seq<Event>, now: int, zone: int, f: Facts)
    requires Chronological(h, now) && now != ZERO_TIME
    ensures var s := Capture(h, now, zone, f); ClockHolds(s, Resolve(s, now))
  {
    LastIsYoungest(h, UserMessage, now, 0);
    LastIsYoungest(h, SelfTalk, now, 0);
    LastIsYoungest(h, OutboundInitiative, now, 0);
    if h != [] {
      LatestIsNotAhead(h, now);
    }
    hide InWindow, Consecutive, LastOf, LatestAt, AllRested;
  }

  /**
   An initiative decided at its commit time: eligible exactly if it is switched on
   for an active resident with an available projection and nothing pending, its
   kind is allowed, it is not quiet, no user message is too recent and no initiative
   either, and the calendar hour and day have room.
   */
  lemma InitiativeMayCommitExactly(p: Policy, h: seq<Event>, now: int, f: Facts, trigger: K.Trigger)
    requires p.zone.Some? && Chronological(h, now) && now != ZERO_TIME
    ensures var s := Capture(h, now, p.zone.value, f);
            DecideInitiative(p, s, trigger, Resolve(s, now)).eligible <==>
            && ValidPolicy(p) && p.initiative.enabled && f.active && f.projectionAvailable && !f.foregroundPending
            && trigger.kind in {K.FutureToCurrent, K.VolatileAging} && trigger.kind in p.initiative.triggers && K.Valid(trigger)
            && !Quiet(p.initiative.quietHours, now + p.zone.value)
            && AllRested(h, UserMessage, now, p.initiative.recentUserSuppression)
            && AllRested(h, OutboundInitiative, now, p.initiative.minimumInterval)
            && InHour(h, OutboundInitiative, now, p.zone.value) < p.initiative.hourlyLimit
            && InDay(h, OutboundInitiative, now, p.zone.value) < p.initiative.dailyLimit
  {
    var s := Capture(h, now, p.zone.value, f);
    InitiativeIsEligibleExactly(p, s, trigger, Resolve(s, now));
    ClockHoldsThere(h, now, p.zone.value, f);
    LastIsYoungest(h, UserMessage, now, p.initiative.recentUserSuppression);
    LastIsYoungest(h, OutboundInitiative, now, p.initiative.minimumInterval);
    hide DecideInitiative, ClockHolds, ValidPolicy, K.Valid, Quiet, AllRested, InHour, InDay, Consecutive, LastOf, LatestAt, Chronological;
  }

  /** The same for self-talk, which also needs a user message and counts in a row. */
  lemma SelfTalkMayCommitExactly(p: Policy, h: seq<Event>, now: int, f: Facts, trigger: K.Trigger)
    requires p.zone.Some? && Chronological(h, now) && now != ZERO_TIME
    ensures var s := Capture(h, now, p.zone.value, f);
            DecideSelfTalk(p, s, trigger, Resolve(s, now)).eligible <==>
            && ValidPolicy(p) && p.selfTalk.enabled && f.active && f.memoryPolicyAllows && !f.foregroundPending
            && trigger.kind in {K.Idle, K.MetaDependencyStatusChange, K.SettledDirectConflict} && K.Valid(trigger)
            && !Quiet(p.selfTalk.quietHours, now + p.zone.value)
            && (exists i :: 0 <= i < |h| && h[i].kind == UserMessage)
            && AllRested(h, UserMessage, now, p.selfTalk.interval) && AllRested(h, SelfTalk, now, p.selfTalk.interval)
            && Consecutive(h) < p.selfTalk.consecutiveLimit
            && InHour(h, SelfTalk, now, p.zone.value) < p.selfTalk.hourlyLimit
            && InDay(h, SelfTalk, now, p.zone.value) < p.selfTalk.dailyLimit
  {
    var s := Capture(h, now, p.zone.value, f);
    SelfTalkIsEligibleExactly(p, s, trigger, Resolve(s, now));
    ClockHoldsThere(h, now, p.zone.value, f);
    TalkRestedExactly(p, h, now, f);
    hide DecideSelfTalk, ClockHolds, TalkRested, ValidPolicy, K.Valid, Quiet, AllRested, InHour, InDay, Consecutive, LastOf, LatestAt, Chronological;
  }

  lemma TalkRestedExactly(p: Policy, h: seq<Event>, now: int, f: Facts)
    requires p.zone.Some? && Chronological(h, now)
    ensures var s := Capture(h, now, p.zone.value, f);
            TalkRested(p, s, Resolve(s, now)) <==>
            && (exists i :: 0 <= i < |h| && h[i].kind == UserMessage)
            && AllRested(h, UserMessage, now, p.selfTalk.interval) && AllRested(h, SelfTalk, now, p.selfTalk.interval)
  {
    LastOfIsLast(h, UserMessage);
    LastOfIsLast(h, SelfTalk);
    LastIsYoungest(h, UserMessage, now, p.selfTalk.interval);
    LastIsYoungest(h, SelfTalk, now, p.selfTalk.interval);
    var user, talk := LastOf(h, UserMessage), LastOf(h, SelfTalk);
    if user.Some? {
      assert h[user.value.number - 1].kind == UserMessage;
    }
    if user.Some? && talk.Some? {
      assert h[user.value.number - 1].recordedAt == user.value.recordedAt && h[talk.value.number - 1].recordedAt == talk.value.recordedAt;
    }
    hide LastOf, LatestAt, InHour, InDay, Consecutive, AllRested;
  }

  // ----------------------------------------------------- runs of initiatives

  /** The event may be appended: ledger time moves on, and an initiative is decided at its own commit time. */
  ghost predicate MayFollow(p: Policy, h: seq<Event>, e: Event) {
    && (h != [] ==> h[|h| - 1].recordedAt <= e.recordedAt)
    && (e.kind == OutboundInitiative ==>
          p.zone.Some? && exists f, trigger ::
            DecideInitiative(p, Capture(h, e.recordedAt, p.zone.value, f), trigger,
                             Resolve(Capture(h, e.recordedAt, p.zone.value, f), e.recordedAt)).eligible)
  }

  ghost predicate InitiativeRun(p: Policy, h: seq<Event>) {
    forall i :: 0 <= i < |h| ==> MayFollow(p, h[..i], h[i])
  }

  lemma RunSplits(p: Policy, h: seq<Event>)
    requires InitiativeRun(p, h) && h != []
    ensures InitiativeRun(p, h[..|h| - 1]) && MayFollow(p, h[..|h| - 1], h[|h| - 1])
  {
    var init := h[..|h| - 1];
    forall i | 0 <= i < |init|
      ensures MayFollow(p, init[..i], init[i])
    {
      assert init[..i] == h[..i] && init[i] == h[i];
    }
  }

  lemma ChronologyGrows(init: seq<Event>, e: Event, now: int)
    requires Chronological(init, e.recordedAt) && e.recordedAt <= now
    ensures Chronological(init + [e], now)
  {
  }

  lemma TimeOfLast(p: Policy, h: seq<Event>, e: Event)
    requires MayFollow(p, h, e)
    ensures h != [] ==> h[|h| - 1].recordedAt <= e.recordedAt
  {
  }

  lemma {:induction false} RunIsChronological(p: Policy, h: seq<Event>, now: int)
    requires InitiativeRun(p, h) && (h != [] ==> h[|h| - 1].recordedAt <= now)
    ensures Chronological(h, now)
    decreases |h|
  {
    if h != [] {
      var init, e := h[..|h| - 1], h[|h| - 1];
      RunSplits(p, h);
      hide InitiativeRun, MayFollow, Chronological;
      TimeOfLast(p, init, e);
      RunIsChronological(p, init, e.recordedAt);
      ChronologyGrows(init, e, now);
      assert h == init + [e];
    }
  }

  lemma InitiativeWasEligible(p: Policy, h: seq<Event>, e: Event)
    requires InitiativeRun(p, h) && MayFollow(p, h, e) && e.kind == OutboundInitiative
    ensures ValidPolicy(p) && p.initiative.enabled && !Quiet(p.initiative.quietHours, e.recordedAt + p.zone.value)
    ensures AllRested(h, UserMessage, e.recordedAt, p.initiative.recentUserSuppression)
    ensures AllRested(h, OutboundInitiative, e.recordedAt, p.initiative.minimumInterval)
    ensures InHour(h, OutboundInitiative, e.recordedAt, p.zone.value) < p.initiative.hourlyLimit
    ensures InDay(h, OutboundInitiative, e.recordedAt, p.zone.value) < p.initiative.dailyLimit
  {
    var now := e.recordedAt;
    var f, trigger :| DecideInitiative(p, Capture(h, now, p.zone.value, f), trigger, Resolve(Capture(h, now, p.zone.value, f), now)).eligible;
    RunIsChronological(p, h, now);
    InitiativeIsEligibleExactly(p, Capture(h, now, p.zone.value, f), trigger, Resolve(Capture(h, now, p.zone.value, f), now));
    InitiativeMayCommitExactly(p, h, now, f, trigger);
    hide DecideInitiative, InitiativeRun, MayFollow, ValidPolicy, K.Valid, Quiet, AllRested, InHour, InDay, Consecutive, LastOf, LatestAt;
  }

  lemma {:induction false} InitiativeHours(p: Policy, h: seq<Event>, now: int)
    requires ValidPolicy(p) && InitiativeRun(p, h)
    ensures InHour(h, OutboundInitiative, now, p.zone.value) <= p.initiative.hourlyLimit
    decreases |h|
  {
    if h != [] {
      var init, e := h[..|h| - 1], h[|h| - 1];
      RunSplits(p, h);
      InitiativeHours(p, init, now);
      if Within(e, OutboundInitiative, HourStart(now, p.zone.value), HOUR) {
        InitiativeWasEligible(p, init, e);
        SameHour(e.recordedAt, now, p.zone.value);
      }
    }
  }

  lemma {:induction false} InitiativeDays(p: Policy, h: seq<Event>, now: int)
    requires ValidPolicy(p) && InitiativeRun(p, h)
    ensures InDay(h, OutboundInitiative, now, p.zone.value) <= p.initiative.dailyLimit
    decreases |h|
  {
    if h != [] {
      var init, e := h[..|h| - 1], h[|h| - 1];
      RunSplits(p, h);
      InitiativeDays(p, init, now);
      if Within(e, OutboundInitiative, DayStart(now, p.zone.value), DAY) {
        InitiativeWasEligible(p, init, e);
        SameCalendarDay(e.recordedAt, now, p.zone.value);
      }
    }
  }

  lemma RunPrefix(p: Policy, h: seq<Event>, n: nat)
    requires InitiativeRun(p, h) && n < |h|
    ensures InitiativeRun(p, h[..n]) && MayFollow(p, h[..n], h[n])
  {
    forall i | 0 <= i < n
      ensures MayFollow(p, h[..n][..i], h[..n][i])
    {
      assert h[..n][..i] == h[..i];
    }
  }

  lemma InitiativeKeepsItsGaps(p: Policy, h: seq<Event>, j: nat)
    requires InitiativeRun(p, h) && j < |h| && h[j].kind == OutboundInitiative
    ensures ValidPolicy(p) && p.initiative.enabled && !Quiet(p.initiative.quietHours, h[j].recordedAt + p.zone.value)
    ensures forall i :: 0 <= i < j && h[i].kind == OutboundInitiative ==> h[j].recordedAt - h[i].recordedAt >= p.initiative.minimumInterval
    ensures forall i :: 0 <= i < j && h[i].kind == UserMessage ==> h[j].recordedAt - h[i].recordedAt >= p.initiative.recentUserSuppression
  {
    RunPrefix(p, h, j);
    InitiativeWasEligible(p, h[..j], h[j]);
    hide InitiativeRun, MayFollow, ValidPolicy, Quiet, InHour, InDay;
    forall i | 0 <= i < j
      ensures h[i].kind == OutboundInitiative ==> h[j].recordedAt - h[i].recordedAt >= p.initiative.minimumInterval
      ensures h[i].kind == UserMessage ==> h[j].recordedAt - h[i].recordedAt >= p.initiative.recentUserSuppression
    {
      assert h[..j][i] == h[i];
    }
  }

  /**
   Every run that appends initiatives only when they are eligible at their commit
   time: every calendar hour and day stays within its limit, none falls into quiet
   hours, any two keep the interval, and each keeps its distance to every user
   message before it.
   */
  lemma InitiativesStayBounded(p: Policy, h: seq<Event>)
    requires ValidPolicy(p) && InitiativeRun(p, h)
    ensures forall now :: InHour(h, OutboundInitiative, now, p.zone.value) <= p.initiative.hourlyLimit
    ensures forall now :: InDay(h, OutboundInitiative, now, p.zone.value) <= p.initiative.dailyLimit
    ensures forall j :: 0 <= j < |h| && h[j].kind == OutboundInitiative ==>
              p.initiative.enabled && !Quiet(p.initiative.quietHours, h[j].recordedAt + p.zone.value)
    ensures forall i, j :: 0 <= i < j < |h| && h[i].kind == OutboundInitiative && h[j].kind == OutboundInitiative ==>
              h[j].recordedAt - h[i].recordedAt >= p.initiative.minimumInterval
    ensures forall i, j :: 0 <= i < j < |h| && h[i].kind == UserMessage && h[j].kind == OutboundInitiative ==>
              h[j].recordedAt - h[i].recordedAt >= p.initiative.recentUserSuppression
  {
    assert p.zone.Some?;
    hide InitiativeRun, ValidPolicy, Quiet, InHour, InDay;
    forall now
      ensures InHour(h, OutboundInitiative, now, p.zone.value) <= p.initiative.hourlyLimit
      ensures InDay(h, OutboundInitiative, now, p.zone.value) <= p.initiative.dailyLimit
    {
      InitiativeHours(p, h, now);
      InitiativeDays(p, h, now);
    }
    forall j | 0 <= j < |h| && h[j].kind == OutboundInitiative
      ensures p.initiative.enabled && !Quiet(p.initiative.quietHours, h[j].recordedAt + p.zone.value)
      ensures forall i :: 0 <= i < j && h[i].kind == OutboundInitiative ==> h[j].recordedAt - h[i].recordedAt >= p.initiative.minimumInterval
      ensures forall i :: 0 <= i < j && h[i].kind == UserMessage ==> h[j].recordedAt - h[i].recordedAt >= p.initiative.recentUserSuppression
    {
      InitiativeKeepsItsGaps(p, h, j);
    }
  }
}
