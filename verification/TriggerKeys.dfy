/** Autonomy triggers and the textual keys that make acting on them idempotent. */
module TriggerKeys {
  import opened Common
  import opened Sorting
  import opened Codecs

  datatype Kind = Idle | MetaDependencyStatusChange | SettledDirectConflict | FutureToCurrent | VolatileAging

  datatype Trigger = Trigger(kind: Kind, source: nat, related: seq<nat>, boundary: Int64, ordinal: Int64)

  predicate IsSelfTalk(k: Kind) {
    k == Idle || k == MetaDependencyStatusChange || k == SettledDirectConflict
  }

  predicate IsInitiative(k: Kind) {
    k == FutureToCurrent || k == VolatileAging
  }

  predicate ValidId(id: nat) {
    0 < id < ID_LIMIT
  }

  predicate Valid(t: Trigger) {
    && ValidId(t.source) && (forall id :: id in t.related ==> ValidId(id))
    && match t.kind
       case Idle => t.ordinal >= 1 && t.related == [] && t.boundary == 0
       case MetaDependencyStatusChange => t.ordinal == 0 && |t.related| == 1 && t.boundary == 0
       case SettledDirectConflict => t.ordinal == 0 && |t.related| == 2 && t.boundary == 0 && t.related[0] != t.related[1]
       case FutureToCurrent => t.ordinal == 0 && t.related == [] && t.boundary != 0
       case VolatileAging => t.ordinal == 0 && t.related == [] && t.boundary != 0
  }

  function KindText(k: Kind): string {
    match k
    case Idle => "idle"
    case MetaDependencyStatusChange => "meta_dependency_status_change"
    case SettledDirectConflict => "settled_direct_conflict"
    case FutureToCurrent => "future_to_current"
    case VolatileAging => "volatile_aging"
  }

  /** Byte-wise order of texts. */
  predicate TextLess(a: string, b: string) {
    if b == "" then false
    else if a == "" then true
    else a[0] < b[0] || (a[0] == b[0] && TextLess(a[1..], b[1..]))
  }

  predicate ClaimBefore(a: nat, b: nat) {
    TextLess(IdText(a), IdText(b))
  }

  function ClaimTexts(claims: seq<nat>): seq<string> {
    seq(|claims|, i requires 0 <= i < |claims| => IdText(claims[i]))
  }

  /** The parts after kind and source. */
  function Rest(t: Trigger): seq<string> {
    (if t.ordinal != 0 then [FormatInt(t.ordinal)] else [])
    + (if t.boundary != 0 then [FormatInt(t.boundary)] else [])
    + ClaimTexts(SortBy(t.related, ClaimBefore))
  }

  function Parts(t: Trigger): seq<string> {
    [KindText(t.kind), IdText(t.source)] + Rest(t)
  }

  function Join(parts: seq<string>): string {
    if parts == [] then "" else if |parts| == 1 then parts[0] else parts[0] + ":" + Join(parts[1..])
  }

  function StableIdentity(t: Trigger): string {
    Join(Parts(t))
  }

  const POLICY_VERSION := "autonomy-policy-v0"

  /** `None` is an error. */
  function IdempotencyKey(t: Trigger, policyVersion: string, resident: nat): Option<string> {
    if !ValidId(resident) || policyVersion != POLICY_VERSION || !Valid(t) then None
    else
      Some((if IsInitiative(t.kind) then "outbound_initiative:v1:" else "self_talk:v1:") + StableIdentity(t) + ":" + policyVersion)
  }

  /** The source's local slices, filled step by step. */
  method BuildParts(t: Trigger) returns (parts: seq<string>)
    ensures parts == Parts(t)
  {
    hide KindText, IdText, FormatInt;
    parts := [KindText(t.kind), IdText(t.source)];
    if t.ordinal != 0 {
      parts := parts + [FormatInt(t.ordinal)];
    }
    if t.boundary != 0 {
      parts := parts + [FormatInt(t.boundary)];
    }
    if |t.related| > 0 {
      ghost var head := parts;
      hide SortBy;
      var claims := SortBy(t.related, ClaimBefore);
      var i := 0;
      while i < |claims|
        invariant 0 <= i <= |claims| && parts == head + ClaimTexts(claims[..i])
      {
        assert ClaimTexts(claims[..i + 1]) == ClaimTexts(claims[..i]) + [IdText(claims[i])];
        parts := parts + [IdText(claims[i])];
        i := i + 1;
      }
      assert claims[..i] == claims;
    }
  }

  // ---------------------------------------------------------------- joining

  predicate Plain(s: string) {
    ':' !in s
  }

  ghost predicate AllPlain(parts: seq<string>) {
    forall p :: p in parts ==> Plain(p)
  }

  /** The first colon ends the first part. */
  lemma {:induction false} FirstPart(a: string, b: string, x: string, y: string)
    requires Plain(a) && Plain(b) && a + ":" + x == b + ":" + y
    ensures a == b && x == y
  {
    var s := a + ":" + x;
    if a == "" || b == "" {
      assert s[0] == ':';
      assert s[1..] == x && (b + ":" + y)[1..] == y;
    } else {
      assert s[0] == a[0] == b[0];
      assert s[1..] == a[1..] + ":" + x && (b + ":" + y)[1..] == b[1..] + ":" + y;
      FirstPart(a[1..], b[1..], x, y);
      assert a == [a[0]] + a[1..] && b == [b[0]] + b[1..];
    }
  }

  lemma PlainHasNoColon(a: string, b: string, y: string)
    requires Plain(a)
    ensures a != b + ":" + y
  {
    assert (b + ":" + y)[|b|] == ':';
  }

  /** Joining non-empty lists of colon-free parts loses nothing, though parts carry no tags. */
  lemma {:induction false} JoinIsInjective(p: seq<string>, q: seq<string>)
    requires p != [] && q != [] && AllPlain(p) && AllPlain(q) && Join(p) == Join(q)
    ensures p == q
    decreases |p|
  {
    assert p[0] in p && q[0] in q;
    if |p| == 1 && |q| > 1 {
      PlainHasNoColon(p[0], q[0], Join(q[1..]));
    } else if |q| == 1 && |p| > 1 {
      PlainHasNoColon(q[0], p[0], Join(p[1..]));
    } else if |p| > 1 {
      assert forall x :: x in p[1..] ==> x in p;
      assert forall x :: x in q[1..] ==> x in q;
      FirstPart(p[0], q[0], Join(p[1..]), Join(q[1..]));
      JoinIsInjective(p[1..], q[1..]);
      assert p == [p[0]] + p[1..] && q == [q[0]] + q[1..];
    }
  }

  lemma FormatIsPlain(v: int)
    ensures Plain(FormatInt(v))
  {
    NatTextRoundTrip(if v < 0 then -v else v);
  }

  lemma KindTextsArePlain(k: Kind)
    ensures Plain(KindText(k))
  {
    match k
    case Idle => assert Plain("idle");
    case MetaDependencyStatusChange => assert Plain("meta_dependency_status_change");
    case SettledDirectConflict => assert Plain("settled_direct_conflict");
    case FutureToCurrent => assert Plain("future_to_current");
    case VolatileAging => assert Plain("volatile_aging");
  }

  lemma KindTextsDiffer(a: Kind, b: Kind)
    requires KindText(a) == KindText(b)
    ensures a == b
  {
    assert KindText(a)[0] == KindText(b)[0];
  }

  lemma IdTextsDiffer(a: nat, b: nat)
    requires ValidId(a) && ValidId(b) && IdText(a) == IdText(b)
    ensures a == b
  {
    IdTextRoundTrip(a);
    IdTextRoundTrip(b);
  }

  lemma FormatsDiffer(a: Int64, b: Int64)
    requires FormatInt(a) == FormatInt(b)
    ensures a == b
  {
    DecodesExactlyTheEncodings(FormatInt(a), MIN_INT64, MAX_INT64, a);
    DecodesExactlyTheEncodings(FormatInt(b), MIN_INT64, MAX_INT64, b);
  }

  lemma PartsArePlain(t: Trigger)
    requires Valid(t)
    ensures AllPlain(Parts(t))
  {
    KindTextsArePlain(t.kind);
    IdTextRoundTrip(t.source);
    FormatIsPlain(t.ordinal);
    FormatIsPlain(t.boundary);
    var claims := SortBy(t.related, ClaimBefore);
    SortPermutes(t.related, ClaimBefore);
    hide KindText, IdText, FormatInt;
    forall p | p in ClaimTexts(claims)
      ensures Plain(p)
    {
      var i :| 0 <= i < |claims| && p == IdText(claims[i]);
      assert claims[i] in t.related;
      IdTextRoundTrip(claims[i]);
    }
  }

  // ------------------------------------------------------------ claim order

  lemma {:induction false} TextLessIsStrict(a: string, b: string)
    ensures !(TextLess(a, b) && TextLess(b, a))
    ensures a != b ==> TextLess(a, b) || TextLess(b, a)
    ensures !TextLess(a, a)
    decreases |a|
  {
    if a != "" && b != "" {
      TextLessIsStrict(a[1..], b[1..]);
      assert a == [a[0]] + a[1..] && b == [b[0]] + b[1..];
    } else if a != "" {
      TextLessIsStrict(a[1..], "");
    }
  }

  lemma {:induction false} TextLessIsTransitive(a: string, b: string, c: string)
    requires TextLess(a, b) && TextLess(b, c)
    ensures TextLess(a, c)
    decreases |a|
  {
    if a != "" && a[0] == b[0] == c[0] {
      TextLessIsTransitive(a[1..], b[1..], c[1..]);
    }
  }

  lemma ClaimsAreOrdered(claims: seq<nat>)
    requires forall id :: id in claims ==> ValidId(id)
    ensures WeakOrderOn(claims, ClaimBefore) && TotalOn(claims, ClaimBefore)
  {
    forall a, b | a in claims && b in claims
      ensures !(ClaimBefore(a, b) && ClaimBefore(b, a)) && (a != b ==> ClaimBefore(a, b) || ClaimBefore(b, a))
    {
      TextLessIsStrict(IdText(a), IdText(b));
      if IdText(a) == IdText(b) {
        IdTextsDiffer(a, b);
      }
    }
    forall a, b, c | a in claims && b in claims && c in claims && ClaimBefore(a, c)
      ensures ClaimBefore(a, b) || ClaimBefore(b, c)
    {
      TextLessIsStrict(IdText(a), IdText(b));
      if TextLess(IdText(b), IdText(a)) {
        TextLessIsTransitive(IdText(b), IdText(a), IdText(c));
      }
    }
  }

  // -------------------------------------------------------------- the keys

  /** The same occasion to act: everything equal, related claims in any order. */
  predicate SameOccasion(a: Trigger, b: Trigger) {
    && a.kind == b.kind && a.source == b.source && a.ordinal == b.ordinal && a.boundary == b.boundary
    && multiset(a.related) == multiset(b.related)
  }

  lemma SameOccasionSameParts(a: Trigger, b: Trigger)
    requires Valid(a) && Valid(b) && SameOccasion(a, b)
    ensures Parts(a) == Parts(b)
  {
    ClaimsAreOrdered(a.related);
    SortIgnoresOrder(a.related, b.related, ClaimBefore);
  }

  lemma SameTextsSameClaims(a: seq<nat>, b: seq<nat>)
    requires (forall id :: id in a ==> ValidId(id)) && (forall id :: id in b ==> ValidId(id))
    requires ClaimTexts(SortBy(a, ClaimBefore)) == ClaimTexts(SortBy(b, ClaimBefore))
    ensures multiset(a) == multiset(b)
  {
    SortPermutes(a, ClaimBefore);
    SortPermutes(b, ClaimBefore);
    var x, y := SortBy(a, ClaimBefore), SortBy(b, ClaimBefore);
    assert |ClaimTexts(x)| == |x| && |ClaimTexts(y)| == |y|;
    forall i | 0 <= i < |x|
      ensures x[i] == y[i]
    {
      assert ClaimTexts(x)[i] == ClaimTexts(y)[i];
      assert x[i] in x && y[i] in y;
      IdTextsDiffer(x[i], y[i]);
    }
    assert x == y;
  }

  lemma SamePartsSameOccasion(a: Trigger, b: Trigger)
    requires Valid(a) && Valid(b) && Parts(a) == Parts(b)
    ensures SameOccasion(a, b)
  {
    assert Parts(a)[0] == KindText(a.kind) && Parts(b)[0] == KindText(b.kind);
    assert Parts(a)[1] == IdText(a.source) && Parts(b)[1] == IdText(b.source);
    assert Parts(a)[2..] == Rest(a) && Parts(b)[2..] == Rest(b);
    KindTextsDiffer(a.kind, b.kind);
    IdTextsDiffer(a.source, b.source);
    hide KindText, IdText, Parts;
    SameRest(a, b);
  }

  lemma SameRest(a: Trigger, b: Trigger)
    requires Valid(a) && Valid(b) && a.kind == b.kind && Rest(a) == Rest(b)
    ensures a.ordinal == b.ordinal && a.boundary == b.boundary && multiset(a.related) == multiset(b.related)
  {
    SortPermutes(a.related, ClaimBefore);
    SortPermutes(b.related, ClaimBefore);
    if a.kind == Idle {
      assert Rest(a)[0] == FormatInt(a.ordinal) && Rest(b)[0] == FormatInt(b.ordinal);
      FormatsDiffer(a.ordinal, b.ordinal);
    } else if IsInitiative(a.kind) {
      assert Rest(a)[0] == FormatInt(a.boundary) && Rest(b)[0] == FormatInt(b.boundary);
      FormatsDiffer(a.boundary, b.boundary);
    } else {
      assert Rest(a) == ClaimTexts(SortBy(a.related, ClaimBefore)) && Rest(b) == ClaimTexts(SortBy(b.related, ClaimBefore));
      SameTextsSameClaims(a.related, b.related);
    }
  }

  /**
   Two valid triggers share an idempotency key exactly when they are the same
   occasion: same kind, source, ordinal and boundary, same related claims in any order.
   */
  lemma KeysIdentifyOccasions(a: Trigger, b: Trigger, resident: nat)
    requires Valid(a) && Valid(b) && ValidId(resident)
    ensures IdempotencyKey(a, POLICY_VERSION, resident) == IdempotencyKey(b, POLICY_VERSION, resident) <==> SameOccasion(a, b)
  {
    if SameOccasion(a, b) {
      SameOccasionSameParts(a, b);
    }
    var x, y := IdempotencyKey(a, POLICY_VERSION, resident).value, IdempotencyKey(b, POLICY_VERSION, resident).value;
    if x == y {
      PartsArePlain(a);
      PartsArePlain(b);
      SamePrefix(a, b, resident);
      JoinIsInjective(Parts(a), Parts(b));
      SamePartsSameOccasion(a, b);
    }
  }

  lemma SamePrefix(a: Trigger, b: Trigger, resident: nat)
    requires Valid(a) && Valid(b) && ValidId(resident)
    requires IdempotencyKey(a, POLICY_VERSION, resident) == IdempotencyKey(b, POLICY_VERSION, resident)
    ensures StableIdentity(a) == StableIdentity(b)
  {
    hide Valid, StableIdentity;
    var x, y := IdempotencyKey(a, POLICY_VERSION, resident).value, IdempotencyKey(b, POLICY_VERSION, resident).value;
    var s, t := StableIdentity(a), StableIdentity(b);
    assert x[0] == if IsInitiative(a.kind) then 'o' else 's';
    assert y[0] == if IsInitiative(b.kind) then 'o' else 's';
    var prefix := if IsInitiative(a.kind) then "outbound_initiative:v1:" else "self_talk:v1:";
    assert x == prefix + s + ":" + POLICY_VERSION && y == prefix + t + ":" + POLICY_VERSION;
    assert |s| == |t|;
    assert x[|prefix|..|prefix| + |s|] == s && y[|prefix|..|prefix| + |t|] == t;
  }
}
