/** Commitment and event preimages as byte strings, with SHA-256 as an abstract function on them. */
module Hashes {
  import opened Common

  type Byte = x: int | 0 <= x < 256

  type Bytes = seq<Byte>

  const SALT_LENGTH: nat := 32

  type Salt = s: Bytes | |s| == SALT_LENGTH witness seq(SALT_LENGTH, _ => 0)

  type Digest = Bytes

  function Text(s: string): (b: Bytes)
    ensures |b| == |s|
  {
    seq(|s|, i requires 0 <= i < |s| => s[i] as int % 256)
  }

  const CONTENT_COMMITMENT_DOMAIN := "mahoroba:content-commitment:v1"
  const EVENT_HASH_DOMAIN := "mahoroba:event-hash:v1"

  /** What the library supplies: the hash and the UTF-8 check. */
  datatype Library = Library(sha256: Bytes -> Digest, utf8: Bytes -> bool)

  ghost predicate CollisionFree(l: Library) {
    forall a, b :: l.sha256(a) == l.sha256(b) ==> a == b
  }

  predicate ValidClass(l: Library, class_: Bytes) {
    class_ != [] && 0 !in class_ && l.utf8(class_)
  }

  function CommitmentPreimage(class_: Bytes, salt: Salt, content: Bytes): Bytes {
    Text(CONTENT_COMMITMENT_DOMAIN) + [0] + class_ + [0] + salt + content
  }

  function EventPreimage(envelope: Bytes): Bytes {
    Text(EVENT_HASH_DOMAIN) + [0] + envelope
  }

  function CommitContent(l: Library, class_: Bytes, salt: Salt, content: Bytes): Option<Digest> {
    if !ValidClass(l, class_) then None else Some(l.sha256(CommitmentPreimage(class_, salt, content)))
  }

  function HashEvent(l: Library, envelope: Bytes): Option<Digest> {
    if envelope == [] then None else Some(l.sha256(EventPreimage(envelope)))
  }

  // ------------------------------------------------------ reading it back

  datatype Committed = Committed(class_: Bytes, salt: Salt, content: Bytes)

  function UpToZero(s: Bytes): (n: nat)
    ensures n <= |s|
  {
    if s == [] || s[0] == 0 then 0 else 1 + UpToZero(s[1..])
  }

  function DecodeCommitment(p: Bytes): Option<Committed> {
    var d := Text(CONTENT_COMMITMENT_DOMAIN) + [0];
    if !(d <= p) then None
    else
      var rest := p[|d|..];
      var n := UpToZero(rest);
      if n == 0 || |rest| < n + 1 + SALT_LENGTH then None
      else Some(Committed(rest[..n], rest[n + 1..n + 1 + SALT_LENGTH], rest[n + 1 + SALT_LENGTH..]))
  }

  lemma {:induction false} UpToZeroStops(class_: Bytes, rest: Bytes)
    requires 0 !in class_
    ensures UpToZero(class_ + [0] + rest) == |class_|
  {
    var s := class_ + [0] + rest;
    if class_ != [] {
      assert class_[0] != 0;
      assert s[1..] == class_[1..] + [0] + rest;
      UpToZeroStops(class_[1..], rest);
    }
  }

  /** A commitment preimage reads back as exactly what was committed. */
  lemma CommitmentRoundTrip(class_: Bytes, salt: Salt, content: Bytes)
    requires class_ != [] && 0 !in class_
    ensures DecodeCommitment(CommitmentPreimage(class_, salt, content)) == Some(Committed(class_, salt, content))
  {
    var d := Text(CONTENT_COMMITMENT_DOMAIN) + [0];
    var p := CommitmentPreimage(class_, salt, content);
    var rest := class_ + [0] + (salt + content);
    assert p == d + rest;
    UpToZeroStops(class_, salt + content);
    assert rest[..|class_|] == class_;
    assert rest[|class_| + 1..] == salt + content;
    assert rest[|class_| + 1..|class_| + 1 + SALT_LENGTH] == salt;
    assert rest[|class_| + 1 + SALT_LENGTH..] == content;
  }

  /** No commitment preimage is an event preimage, whatever they carry. */
  lemma PreimagesAreDisjoint(class_: Bytes, salt: Salt, content: Bytes, envelope: Bytes)
    ensures CommitmentPreimage(class_, salt, content) != EventPreimage(envelope)
  {
    var p, q := CommitmentPreimage(class_, salt, content), EventPreimage(envelope);
    assert p[9] == Text(CONTENT_COMMITMENT_DOMAIN)[9] == 'c' as int;
    assert q[9] == Text(EVENT_HASH_DOMAIN)[9] == 'e' as int;
  }

  /** Equal commitments were made from the same class, salt and bytes. */
  lemma CommitmentBinds(l: Library, a: Committed, b: Committed)
    requires CollisionFree(l) && ValidClass(l, a.class_) && ValidClass(l, b.class_)
    requires CommitContent(l, a.class_, a.salt, a.content) == CommitContent(l, b.class_, b.salt, b.content)
    ensures a == b
  {
    CommitmentRoundTrip(a.class_, a.salt, a.content);
    CommitmentRoundTrip(b.class_, b.salt, b.content);
  }
}

/** Verification of one resident's event chain and of the content it commits to. */
module Ledger {
  import opened Common
  import opened Hashes

  datatype Erasure = Present | Erased | UnknownState

  datatype Content = Content(
    found: bool,
    id: nat,
    resident: ResidentId,
    class_: Bytes,
    erasure: Erasure,
    blobFound: bool,
    logicalBytes: Bytes,
    blobHash: Option<Digest>,
    commitment: Digest,
    salt: Option<Salt>
  )

  datatype Record = Record(
    eventId: nat,
    resident: ResidentId,
    number: int,
    contentId: nat,
    payloadCommitment: Digest,
    content: Content,
    prevEventHash: Option<Digest>,
    eventHash: Digest,
    envelope: Bytes
  )

  datatype Report = Report(contentCount: int, eventCount: int, firstSeq: int, lastSeq: int, headHash: Option<Digest>)

  /** The storage adapter's check that ties an envelope to its row; it may be absent. */
  type Validator = Option<Record -> bool>

  predicate VerifyContentObject(l: Library, c: Content, resident: ResidentId) {
    && c.found && c.id != 0 && c.resident != ZERO_ID && c.resident == resident && ValidClass(l, c.class_)
    && match c.erasure
       case Present =>
         && c.blobFound && c.blobHash.Some? && c.salt.Some?
         && l.sha256(c.logicalBytes) == c.blobHash.value
         && CommitContent(l, c.class_, c.salt.value, c.logicalBytes) == Some(c.commitment)
       case Erased => !c.blobFound && c.blobHash.None? && c.salt.None? && c.logicalBytes == []
       case UnknownState => false
  }

  predicate VerifyLedgerContent(l: Library, r: Record) {
    && r.contentId != 0 && r.content.found && r.content.id == r.contentId
    && r.payloadCommitment == r.content.commitment
    && VerifyContentObject(l, r.content, r.resident)
  }

  /** One record by itself. */
  predicate RecordOk(l: Library, v: Validator, r: Record, resident: ResidentId) {
    && r.eventId != 0 && r.resident == resident && 0 < r.number
    && VerifyLedgerContent(l, r)
    && (v.Some? ==> v.value(r))
    && HashEvent(l, r.envelope) == Some(r.eventHash)
  }

  /** One record after its predecessor in the chain. */
  predicate LinkOk(before: Option<Record>, r: Record) {
    if before.None? then r.prevEventHash.None?
    else before.value.number < r.number && r.prevEventHash == Some(before.value.eventHash)
  }

  function Before(events: seq<Record>, i: nat): Option<Record>
    requires i <= |events|
  {
    if i == 0 then None else Some(events[i - 1])
  }

  predicate LinkAt(l: Library, v: Validator, events: seq<Record>, i: nat, resident: ResidentId)
    requires i < |events|
  {
    RecordOk(l, v, events[i], resident) && LinkOk(Before(events, i), events[i])
  }

  ghost predicate Chain(l: Library, v: Validator, events: seq<Record>, resident: ResidentId) {
    forall i :: 0 <= i < |events| ==> LinkAt(l, v, events, i, resident)
  }

  /** What `Verify` accepts: every content object and the whole chain, as far as the counters reach. */
  ghost predicate Verified(l: Library, v: Validator, contents: seq<Content>, events: seq<Record>, resident: ResidentId) {
    && resident != ZERO_ID
    && (forall c :: c in contents ==> VerifyContentObject(l, c, resident))
    && |contents| <= MAX_INT64
    && Chain(l, v, events, resident) && |events| <= MAX_INT64
  }

  function Head(events: seq<Record>): Option<Digest> {
    if events == [] then None else Some(events[|events| - 1].eventHash)
  }

  method VerifyContents(l: Library, contents: seq<Content>, resident: ResidentId) returns (count: Option<int>)
    ensures count.Some? <==> (forall c :: c in contents ==> VerifyContentObject(l, c, resident)) && |contents| <= MAX_INT64
    ensures count.Some? ==> count.value == |contents|
  {
    hide VerifyContentObject;
    var contentCount := 0;
    while contentCount < |contents|
      invariant 0 <= contentCount <= |contents| && contentCount <= MAX_INT64
      invariant forall i :: 0 <= i < contentCount ==> VerifyContentObject(l, contents[i], resident)
    {
      if !VerifyContentObject(l, contents[contentCount], resident) || contentCount == MAX_INT64 {
        assert contents[contentCount] in contents;
        return None;
      }
      contentCount := contentCount + 1;
    }
    return Some(contentCount);
  }

  method Verify(l: Library, v: Validator, contents: seq<Content>, events: seq<Record>, resident: ResidentId) returns (r: Option<Report>)
    ensures r.Some? <==> Verified(l, v, contents, events, resident)
    ensures r.Some? ==> r.value.contentCount == |contents| && r.value.eventCount == |events| && r.value.headHash == Head(events)
    ensures r.Some? && events != [] ==> r.value.firstSeq == events[0].number && r.value.lastSeq == events[|events| - 1].number
  {
    hide RecordOk, VerifyContentObject;
    if resident == ZERO_ID {
      return None;
    }
    var contentCount := VerifyContents(l, contents, resident);
    if contentCount.None? {
      return None;
    }
    var report := VerifyEvents(l, v, events, resident);
    if report.None? {
      return None;
    }
    return Some(report.value.(contentCount := contentCount.value));
  }

  /** The event walk with the values it carries from record to record. */
  method VerifyEvents(l: Library, v: Validator, events: seq<Record>, resident: ResidentId) returns (r: Option<Report>)
    ensures r.Some? <==> Chain(l, v, events, resident) && |events| <= MAX_INT64
    ensures r.Some? ==> r.value.eventCount == |events| && r.value.headHash == Head(events)
    ensures r.Some? && events != [] ==> r.value.firstSeq == events[0].number && r.value.lastSeq == events[|events| - 1].number
  {
    hide RecordOk, Chain;
    var previousSeq, previousHash: Digest, seen := 0, [], false;
    var report := Report(0, 0, 0, 0, None);
    var i := 0;
    assert Chain(l, v, events[..0], resident) by { ChainEmpty(l, v, resident); }
    while i < |events|
      invariant 0 <= i <= |events| && i <= MAX_INT64
      invariant Chain(l, v, events[..i], resident)
      invariant seen == (i > 0)
      invariant seen ==> previousSeq == events[i - 1].number && previousHash == events[i - 1].eventHash
      invariant report.eventCount == i && (!seen ==> report.headHash == None)
      invariant seen ==> report.firstSeq == events[0].number && report.lastSeq == previousSeq && report.headHash == Some(previousHash)
    {
      var record := events[i];
      var linked := if seen then record.number > previousSeq && record.prevEventHash == Some(previousHash)
                    else record.prevEventHash.None?;
      if !RecordOk(l, v, record, resident) || !linked {
        NotChain(l, v, events, i, resident);
        return None;
      }
      ChainSnoc(l, v, events, i, resident);
      if report.eventCount == MAX_INT64 {
        return None;
      }
      if !seen {
        report := report.(firstSeq := record.number);
      }
      seen, previousSeq, previousHash := true, record.number, record.eventHash;
      report := report.(lastSeq := record.number, eventCount := report.eventCount + 1, headHash := Some(record.eventHash));
      i := i + 1;
    }
    assert events[..i] == events;
    return Some(report);
  }

  lemma ChainEmpty(l: Library, v: Validator, resident: ResidentId)
    ensures Chain(l, v, [], resident)
  {
  }

  lemma NotChain(l: Library, v: Validator, events: seq<Record>, i: nat, resident: ResidentId)
    requires i < |events| && (!RecordOk(l, v, events[i], resident) || !LinkOk(Before(events, i), events[i]))
    ensures !Chain(l, v, events, resident)
  {
    assert !LinkAt(l, v, events, i, resident);
  }

  lemma ChainSnoc(l: Library, v: Validator, events: seq<Record>, i: nat, resident: ResidentId)
    requires i < |events| && Chain(l, v, events[..i], resident)
    requires RecordOk(l, v, events[i], resident) && LinkOk(Before(events, i), events[i])
    ensures Chain(l, v, events[..i + 1], resident)
  {
    hide RecordOk, LinkOk;
    var longer := events[..i + 1];
    forall k | 0 <= k < |longer|
      ensures LinkAt(l, v, longer, k, resident)
    {
      if k < i {
        assert LinkAt(l, v, events[..i], k, resident);
      }
    }
  }

  // ----------------------------------------------- what a head hash fixes

  /** The fields of a row that its envelope states. */
  predicate SameEvent(a: Record, b: Record) {
    && a.eventId == b.eventId && a.resident == b.resident && a.number == b.number && a.contentId == b.contentId
    && a.payloadCommitment == b.payloadCommitment && a.prevEventHash == b.prevEventHash
    && a.eventHash == b.eventHash && a.envelope == b.envelope
  }

  /** A validator that accepts an envelope only for rows whose fields it states. */
  ghost predicate Ties(v: Validator) {
    v.Some? && forall a, b :: v.value(a) && v.value(b) && a.envelope == b.envelope ==> SameEvent(a.(eventHash := b.eventHash), b)
  }

  lemma EqualHashesSameEvent(l: Library, v: Validator, a: Record, b: Record, resident: ResidentId)
    requires CollisionFree(l) && Ties(v) && RecordOk(l, v, a, resident) && RecordOk(l, v, b, resident)
    requires a.eventHash == b.eventHash
    ensures SameEvent(a, b)
  {
    assert EventPreimage(a.envelope) == EventPreimage(b.envelope);
    var n := |Text(EVENT_HASH_DOMAIN)| + 1;
    assert a.envelope == EventPreimage(a.envelope)[n..] && b.envelope == EventPreimage(b.envelope)[n..];
    hide VerifyLedgerContent, CollisionFree;
    assert SameEvent(a.(eventHash := b.eventHash), b);
  }

  lemma PreviousIsHead(l: Library, v: Validator, events: seq<Record>, resident: ResidentId)
    requires events != [] && Chain(l, v, events, resident)
    ensures events[|events| - 1].prevEventHash == Head(events[..|events| - 1])
    ensures RecordOk(l, v, events[|events| - 1], resident)
  {
    hide RecordOk;
    assert LinkAt(l, v, events, |events| - 1, resident);
  }

  /** Two verified chains with the same head hash are the same chain, link by link. */
  lemma {:induction false} HeadFixesChain(l: Library, v: Validator, a: seq<Record>, b: seq<Record>, resident: ResidentId)
    requires CollisionFree(l) && Ties(v) && Chain(l, v, a, resident) && Chain(l, v, b, resident)
    requires Head(a) == Head(b)
    ensures |a| == |b| && forall i :: 0 <= i < |a| ==> SameEvent(a[i], b[i])
    decreases |a|
  {
    if a != [] {
      var m, n := |a| - 1, |b| - 1;
      PreviousIsHead(l, v, a, resident);
      PreviousIsHead(l, v, b, resident);
      EqualHashesSameEvent(l, v, a[m], b[n], resident);
      ChainInit(l, v, a, resident);
      ChainInit(l, v, b, resident);
      hide RecordOk, Chain, CollisionFree, Ties;
      HeadFixesChain(l, v, a[..m], b[..n], resident);
    }
  }

  lemma ChainInit(l: Library, v: Validator, events: seq<Record>, resident: ResidentId)
    requires events != [] && Chain(l, v, events, resident)
    ensures Chain(l, v, events[..|events| - 1], resident)
  {
    hide RecordOk, LinkOk;
    var init := events[..|events| - 1];
    forall k | 0 <= k < |init|
      ensures LinkAt(l, v, init, k, resident)
    {
      assert LinkAt(l, v, events, k, resident);
    }
  }

  /**
   Two ledgers that `Verify` accepts and that report the same head hash hold the
   same events in the same number, and where both still keep an event's content
   it has the same class, salt and bytes.
   */
  lemma HeadHashFixesHistory(l: Library, v: Validator, contentsA: seq<Content>, a: seq<Record>,
                             contentsB: seq<Content>, b: seq<Record>, resident: ResidentId)
    requires CollisionFree(l) && Ties(v)
    requires Verified(l, v, contentsA, a, resident) && Verified(l, v, contentsB, b, resident)
    requires Head(a) == Head(b)
    ensures |a| == |b|
    ensures forall i :: 0 <= i < |a| ==> SameEvent(a[i], b[i])
    ensures forall i :: 0 <= i < |a| && a[i].content.erasure == Present && b[i].content.erasure == Present ==>
              && a[i].content.class_ == b[i].content.class_
              && a[i].content.salt == b[i].content.salt
              && a[i].content.logicalBytes == b[i].content.logicalBytes
  {
    HeadFixesChain(l, v, a, b, resident);
    forall i | 0 <= i < |a| && a[i].content.erasure == Present && b[i].content.erasure == Present
      ensures a[i].content.class_ == b[i].content.class_ && a[i].content.salt == b[i].content.salt
      ensures a[i].content.logicalBytes == b[i].content.logicalBytes
    {
      assert SameEvent(a[i], b[i]) && LinkAt(l, v, a, i, resident) && LinkAt(l, v, b, i, resident);
      var x, y := a[i].content, b[i].content;
      CommitmentBinds(l, Committed(x.class_, x.salt.value, x.logicalBytes), Committed(y.class_, y.salt.value, y.logicalBytes));
    }
  }

  function Bare(l: Library, class_: Bytes, e: Bytes, number: int, previous: Option<Digest>): Record
    requires e != []
  {
    Record(1, 1, number, 1, [], Content(true, 1, 1, class_, Erased, false, [], None, [], None), previous, HashEvent(l, e).value, e)
  }

  lemma BareIsOk(l: Library, class_: Bytes, e: Bytes, number: int, previous: Option<Digest>)
    requires ValidClass(l, class_) && e != [] && number > 0
    ensures RecordOk(l, None, Bare(l, class_, e, number, previous), 1)
  {
    hide EventPreimage;
  }

  /** Without a validator the head hash fixes the last envelope only: ledgers of different length can share it. */
  lemma WithoutValidatorLengthIsOpen(l: Library, class_: Bytes, e1: Bytes, e2: Bytes)
    requires ValidClass(l, class_) && e1 != [] && e2 != []
    ensures exists a: seq<Record>, b: seq<Record> ::
              Verified(l, None, [], a, 1) && Verified(l, None, [], b, 1) && Head(a) == Head(b) && |a| == 2 && |b| == 1
  {
    var first := Bare(l, class_, e1, 1, None);
    var second := Bare(l, class_, e2, 2, Some(first.eventHash));
    var alone := Bare(l, class_, e2, 2, None);
    BareIsOk(l, class_, e1, 1, None);
    BareIsOk(l, class_, e2, 2, Some(first.eventHash));
    BareIsOk(l, class_, e2, 2, None);
    hide RecordOk, HashEvent, VerifyContentObject;
    var a, b := [first, second], [alone];
    assert LinkAt(l, None, a, 0, 1) && LinkAt(l, None, a, 1, 1) && LinkAt(l, None, b, 0, 1);
    assert Verified(l, None, [], a, 1) && Verified(l, None, [], b, 1);
  }
}

/** Ledgers as they are written: events recorded one after the other, some of their contents erased later. */
module LedgerRecording {
  import opened Common
  import opened Hashes
  import opened Ledger

  /** What the writer of an event supplies; `erased` says whether its content has been erased since. */
  datatype Draft = Draft(
    eventId: nat, contentId: nat, class_: Bytes, salt: Salt, bytes: Bytes, number: int, envelope: Bytes, erased: bool)

  predicate Sound(l: Library, d: Draft) {
    d.eventId != 0 && d.contentId != 0 && d.number > 0 && d.envelope != [] && ValidClass(l, d.class_)
  }

  function Stored(l: Library, d: Draft, resident: ResidentId): Content {
    var commitment := l.sha256(CommitmentPreimage(d.class_, d.salt, d.bytes));
    if d.erased then Content(true, d.contentId, resident, d.class_, Erased, false, [], None, commitment, None)
    else Content(true, d.contentId, resident, d.class_, Present, true, d.bytes, Some(l.sha256(d.bytes)), commitment, Some(d.salt))
  }

  function Recorded(l: Library, d: Draft, resident: ResidentId, previous: Option<Digest>): Record {
    var content := Stored(l, d, resident);
    Record(d.eventId, resident, d.number, d.contentId, content.commitment, content, previous,
           l.sha256(EventPreimage(d.envelope)), d.envelope)
  }

  function Written(l: Library, drafts: seq<Draft>, resident: ResidentId): (events: seq<Record>)
    ensures |events| == |drafts|
  {
    if drafts == [] then []
    else
      var before := Written(l, drafts[..|drafts| - 1], resident);
      before + [Recorded(l, drafts[|drafts| - 1], resident, Head(before))]
  }

  function Contents(l: Library, drafts: seq<Draft>, resident: ResidentId): seq<Content> {
    seq(|drafts|, i requires 0 <= i < |drafts| => Stored(l, drafts[i], resident))
  }

  lemma RecordedIsOk(l: Library, v: Validator, d: Draft, resident: ResidentId, previous: Option<Digest>)
    requires resident != ZERO_ID && Sound(l, d) && (v.Some? ==> v.value(Recorded(l, d, resident, previous)))
    ensures RecordOk(l, v, Recorded(l, d, resident, previous), resident) && VerifyContentObject(l, Stored(l, d, resident), resident)
  {
    hide CommitmentPreimage, EventPreimage;
  }

  lemma {:induction false} WrittenIsChained(l: Library, v: Validator, drafts: seq<Draft>, resident: ResidentId)
    requires resident != ZERO_ID && (forall d :: d in drafts ==> Sound(l, d))
    requires forall i, j :: 0 <= i < j < |drafts| ==> drafts[i].number < drafts[j].number
    requires v.Some? ==> forall r :: r in Written(l, drafts, resident) ==> v.value(r)
    ensures Chain(l, v, Written(l, drafts, resident), resident)
    ensures forall i :: 0 <= i < |drafts| ==> Written(l, drafts, resident)[i].number == drafts[i].number
  {
    if drafts != [] {
      var n := |drafts| - 1;
      var events, before := Written(l, drafts, resident), Written(l, drafts[..n], resident);
      assert forall r :: r in before ==> r in events;
      WrittenIsChained(l, v, drafts[..n], resident);
      assert drafts[n] in drafts && events[n] in events;
      RecordedIsOk(l, v, drafts[n], resident, Head(before));
      hide RecordOk, Sound, Stored;
      forall i | 0 <= i < |events|
        ensures LinkAt(l, v, events, i, resident)
      {
        if i < n {
          assert LinkAt(l, v, before, i, resident) && events[i] == before[i] && Before(events, i) == Before(before, i);
        }
      }
    }
  }

  /**
   Whatever is written this way verifies, with any of its contents erased or not,
   and erasing changes neither the head hash nor the number of events.
   */
  lemma WrittenLedgersVerify(l: Library, v: Validator, drafts: seq<Draft>, erasedLater: seq<Draft>, resident: ResidentId)
    requires resident != ZERO_ID && |drafts| <= MAX_INT64 && (forall d :: d in drafts ==> Sound(l, d))
    requires forall i, j :: 0 <= i < j < |drafts| ==> drafts[i].number < drafts[j].number
    requires v.Some? ==> forall r :: r in Written(l, drafts, resident) ==> v.value(r)
    requires |erasedLater| == |drafts| && forall i :: 0 <= i < |drafts| ==> erasedLater[i] == drafts[i].(erased := erasedLater[i].erased)
    ensures Verified(l, v, Contents(l, drafts, resident), Written(l, drafts, resident), resident)
    ensures Head(Written(l, erasedLater, resident)) == Head(Written(l, drafts, resident))
  {
    WrittenIsChained(l, v, drafts, resident);
    forall c | c in Contents(l, drafts, resident)
      ensures VerifyContentObject(l, c, resident)
    {
      var i :| 0 <= i < |drafts| && c == Stored(l, drafts[i], resident);
      assert drafts[i] in drafts;
      RecordedIsOk(l, None, drafts[i], resident, None);
    }
    if drafts != [] {
      var n := |drafts| - 1;
      assert erasedLater[n].envelope == drafts[n].envelope;
    }
  }

  /**
   Nothing that a verified record commits to can be changed under its hashes: with
   collision-free hashing two records that verify under the same event hash and
   payload commitment carry the same envelope and, where both still have their
   content, the same class, salt and bytes. Erased content keeps nothing.
   */
  lemma TamperingIsDetected(l: Library, v: Validator, r: Record, t: Record, resident: ResidentId)
    requires CollisionFree(l) && RecordOk(l, v, r, resident) && RecordOk(l, v, t, resident)
    requires t.eventHash == r.eventHash && t.payloadCommitment == r.payloadCommitment
    ensures t.envelope == r.envelope
    ensures r.content.erasure == Present && t.content.erasure == Present ==>
              t.content.class_ == r.content.class_ && t.content.salt == r.content.salt && t.content.logicalBytes == r.content.logicalBytes
              && t.content.blobHash == r.content.blobHash
    ensures r.content.erasure == Present || r.content.erasure == Erased
    ensures r.content.erasure == Erased ==>
              !r.content.blobFound && r.content.blobHash.None? && r.content.salt.None? && r.content.logicalBytes == []
  {
    assert EventPreimage(r.envelope) == EventPreimage(t.envelope);
    assert EventPreimage(r.envelope)[|Text(EVENT_HASH_DOMAIN) + [0]|..] == r.envelope;
    assert EventPreimage(t.envelope)[|Text(EVENT_HASH_DOMAIN) + [0]|..] == t.envelope;
    if r.content.erasure == Present && t.content.erasure == Present {
      hide CollisionFree;
      SameCommitment(l, r.content, t.content);
    }
  }

  lemma SameCommitment(l: Library, c: Content, d: Content)
    requires CollisionFree(l) && ValidClass(l, c.class_) && ValidClass(l, d.class_) && c.salt.Some? && d.salt.Some?
    requires CommitContent(l, c.class_, c.salt.value, c.logicalBytes) == CommitContent(l, d.class_, d.salt.value, d.logicalBytes)
    ensures c.class_ == d.class_ && c.salt == d.salt && c.logicalBytes == d.logicalBytes
  {
    CommitmentBinds(l, Committed(c.class_, c.salt.value, c.logicalBytes), Committed(d.class_, d.salt.value, d.logicalBytes));
  }
}
