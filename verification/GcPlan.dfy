/**
 The garbage-collection plan: the locators of one resident that nothing
 references, in key order, with both physical copies of each.
 */
module GcPlan {
  import opened Common
  import opened Sorting

  type Digest = nat

  type ByteSize = Int64

  /** Algorithm names enter only through equality and the sort key; 0 is SHA-256. */
  const HASH_ALGORITHM: nat := 0

  datatype FinalObject = FinalObject(resident: ResidentId, algorithm: nat, digest: Digest, size: ByteSize)

  datatype Locator = Locator(
    resident: ResidentId,
    algorithm: nat,
    digest: Digest,
    sqlitePresent: bool,
    sqliteSize: Option<ByteSize>,
    authoritativeReferences: int,
    projectionReferences: int
  )

  datatype Candidate = Candidate(digest: Digest, sqliteSize: Option<ByteSize>, file: Option<FinalObject>)

  datatype Plan = Plan(candidates: seq<Candidate>, bytes: int)

  datatype PlanError = ProjectionNotCurrent | ContentIntegrity | ByteCountOverflow | InvalidPlan

  predicate Scoped(f: FinalObject, resident: ResidentId) {
    f.resident == resident && f.algorithm == HASH_ALGORITHM
  }

  predicate ValidLocator(x: Locator, resident: ResidentId) {
    && x.resident == resident && x.algorithm == HASH_ALGORITHM
    && x.authoritativeReferences >= 0 && x.projectionReferences >= 0
    && x.sqlitePresent == x.sqliteSize.Some?
  }

  predicate Unreferenced(x: Locator) {
    x.authoritativeReferences == 0 && x.projectionReferences == 0
  }

  predicate NonNegative(c: Candidate) {
    (c.sqliteSize.Some? ==> c.sqliteSize.value >= 0) && (c.file.Some? ==> c.file.value.size >= 0)
  }

  /** `Candidate.Validate`, as far as it can fail for a candidate made here. */
  predicate ValidCandidate(c: Candidate) {
    NonNegative(c) && (c.sqliteSize.Some? && c.file.Some? ==> c.sqliteSize.value == c.file.value.size)
  }

  function Lookup(m: map<Digest, FinalObject>, d: Digest): Option<FinalObject> {
    if d in m then Some(m[d]) else None
  }

  function FileMap(files: seq<FinalObject>): (m: map<Digest, FinalObject>)
    ensures forall d :: d in m ==> m[d] in files && m[d].digest == d
    ensures forall f :: f in files ==> f.digest in m
  {
    if files == [] then map[] else FileMap(files[..|files| - 1])[files[|files| - 1].digest := files[|files| - 1]]
  }

  function CandidateFor(x: Locator, m: map<Digest, FinalObject>): Candidate {
    Candidate(x.digest, x.sqliteSize, Lookup(m, x.digest))
  }

  function Candidates(states: seq<Locator>, m: map<Digest, FinalObject>): seq<Candidate> {
    if states == [] then []
    else
      var x := states[|states| - 1];
      Candidates(states[..|states| - 1], m) + if Unreferenced(x) then [CandidateFor(x, m)] else []
  }

  function SizeOf(c: Candidate): int {
    (if c.sqliteSize.Some? then c.sqliteSize.value else 0) + if c.file.Some? then c.file.value.size else 0
  }

  function Bytes(cs: seq<Candidate>): int {
    if cs == [] then 0 else Bytes(cs[..|cs| - 1]) + SizeOf(cs[|cs| - 1])
  }

  // -------------------------------------------------------------- key order

  predicate KeyLess(a: Locator, b: Locator) {
    a.resident < b.resident || (a.resident == b.resident &&
    (a.algorithm < b.algorithm || (a.algorithm == b.algorithm && a.digest < b.digest)))
  }

  function SortByKey(s: seq<Locator>): (r: seq<Locator>)
    ensures multiset(r) == multiset(s)
  {
    SortPermutes(s, KeyLess);
    SortBy(s, KeyLess)
  }

  ghost predicate Increasing(s: seq<Locator>) {
    forall i, j :: 0 <= i < j < |s| ==> s[i].digest < s[j].digest
  }

  // -------------------------------------------------- which inputs are accepted

  ghost predicate NoTwins(locators: multiset<Locator>) {
    && (forall x :: x in locators ==> locators[x] == 1)
    && (forall x, y :: x in locators && y in locators && x.digest == y.digest ==> x == y)
  }

  ghost predicate NoFileTwins(files: multiset<FinalObject>) {
    && (forall f :: f in files ==> files[f] == 1)
    && (forall f, g :: f in files && g in files && f.digest == g.digest ==> f == g)
  }

  ghost predicate AllScoped(files: seq<FinalObject>, resident: ResidentId) {
    forall f :: f in files ==> Scoped(f, resident)
  }

  /** Every locator is valid and has a copy, every file has its locator, and no collectable pair of copies disagrees. */
  ghost predicate Matched(resident: ResidentId, locators: seq<Locator>, m: map<Digest, FinalObject>) {
    && (forall x :: x in locators ==> ValidLocator(x, resident) && (x.sqlitePresent || x.digest in m))
    && (forall d :: d in m ==> exists x :: x in locators && x.digest == d)
    && (forall x :: x in locators && Unreferenced(x) ==> ValidCandidate(CandidateFor(x, m)))
  }

  ghost predicate Consistent(resident: ResidentId, locators: seq<Locator>, files: seq<FinalObject>) {
    && AllScoped(files, resident) && NoFileTwins(multiset(files)) && NoTwins(multiset(locators))
    && Matched(resident, locators, FileMap(files))
  }

  /** What `buildPlan` accepts. */
  ghost predicate Acceptable(resident: ResidentId, locators: seq<Locator>, files: seq<FinalObject>) {
    && Consistent(resident, locators, files)
    && Bytes(Candidates(SortByKey(locators), FileMap(files))) <= MAX_INT64
  }

  // --------------------------------------------------------------- the plan

  lemma {:induction false} CandidatesAre(states: seq<Locator>, m: map<Digest, FinalObject>)
    requires Increasing(states)
    ensures forall i, j :: 0 <= i < j < |Candidates(states, m)| ==> Candidates(states, m)[i].digest < Candidates(states, m)[j].digest
    ensures forall c :: c in Candidates(states, m) <==> exists x :: x in states && Unreferenced(x) && c == CandidateFor(x, m)
  {
    if states != [] {
      var init, x := states[..|states| - 1], states[|states| - 1];
      CandidatesAre(init, m);
      assert states == init + [x];
      assert forall y :: y in init ==> y.digest < x.digest;
      forall i | 0 <= i < |Candidates(init, m)|
        ensures Candidates(init, m)[i].digest < x.digest
      {
        assert Candidates(init, m)[i] in Candidates(init, m);
      }
      forall c | c in Candidates(states, m)
        ensures exists y :: y in states && Unreferenced(y) && c == CandidateFor(y, m)
      {
        if c in Candidates(init, m) {
          var y :| y in init && Unreferenced(y) && c == CandidateFor(y, m);
          assert y in states;
        } else {
          assert x in states;
        }
      }
    }
  }

  /** In key order, without twins, the digests increase. */
  lemma NoTwinsIncrease(states: seq<Locator>, resident: ResidentId)
    requires Ordered(states, KeyLess) && NoTwins(multiset(states))
    requires forall x :: x in states ==> ValidLocator(x, resident)
    ensures Increasing(states)
  {
    forall i, j | 0 <= i < j < |states|
      ensures states[i].digest < states[j].digest
    {
      assert states[i] in multiset(states) && states[j] in multiset(states);
      assert ValidLocator(states[i], resident) && ValidLocator(states[j], resident) && !KeyLess(states[j], states[i]);
      if states[i].digest == states[j].digest {
        TwiceCounts(states, i, j);
      }
    }
  }

  lemma {:induction false} IncreasingHasNoTwins(states: seq<Locator>)
    requires Increasing(states)
    ensures NoTwins(multiset(states))
  {
    if states != [] {
      var init, x := states[..|states| - 1], states[|states| - 1];
      assert states == init + [x];
      IncreasingHasNoTwins(init);
      assert x !in init;
      forall y: Locator | y in multiset(init)
        ensures y.digest < x.digest
      {
        assert y in init;
      }
    }
  }

  /** The sorted locators of consistent inputs, with membership in plain terms. */
  lemma SortedStates(resident: ResidentId, locators: seq<Locator>, m: map<Digest, FinalObject>)
    requires NoTwins(multiset(locators)) && Matched(resident, locators, m)
    ensures Increasing(SortByKey(locators)) && Matched(resident, SortByKey(locators), m)
    ensures forall x :: x in SortByKey(locators) <==> x in locators
  {
    var states := SortByKey(locators);
    SameMembers(states, locators);
    SortOrders(locators, KeyLess);
    NoTwinsIncrease(states, resident);
  }

  lemma MatchedByMembers(resident: ResidentId, a: seq<Locator>, b: seq<Locator>, m: map<Digest, FinalObject>)
    requires forall x :: x in a <==> x in b
    ensures Matched(resident, a, m) <==> Matched(resident, b, m)
  {
    hide ValidLocator, ValidCandidate;
  }

  /**
   A successful plan lists exactly the unreferenced locators, each once, in
   strict key order, with the file found under its digest, and counts their bytes.
   */
  lemma PlanIsExact(resident: ResidentId, locators: seq<Locator>, files: seq<FinalObject>)
    requires Acceptable(resident, locators, files)
    ensures var cs := Candidates(SortByKey(locators), FileMap(files));
            && (forall i, j :: 0 <= i < j < |cs| ==> cs[i].digest < cs[j].digest)
            && (forall c :: c in cs ==> exists x :: x in locators && Unreferenced(x) && c == CandidateFor(x, FileMap(files)))
            && (forall x :: x in locators && Unreferenced(x) ==> CandidateFor(x, FileMap(files)) in cs)
            && (forall c :: c in cs ==>
                  if c.file.Some? then c.file.value in files && c.file.value.digest == c.digest
                  else forall f :: f in files ==> f.digest != c.digest)
            && (forall c :: c in cs ==> ValidCandidate(c) && (c.sqliteSize.Some? || c.file.Some?))
            && 0 <= Bytes(cs) <= MAX_INT64
  {
    var states, m := SortByKey(locators), FileMap(files);
    var cs := Candidates(states, m);
    SortedStates(resident, locators, m);
    CandidatesAre(states, m);
    hide NoTwins, NoFileTwins;
    forall c | c in cs
      ensures exists x :: x in locators && Unreferenced(x) && c == CandidateFor(x, m)
      ensures ValidCandidate(c) && (c.sqliteSize.Some? || c.file.Some?)
      ensures if c.file.Some? then c.file.value in files && c.file.value.digest == c.digest
              else forall f :: f in files ==> f.digest != c.digest
    {
      var x :| x in states && Unreferenced(x) && c == CandidateFor(x, m);
    }
    BytesNonNegative(cs);
  }

  lemma {:induction false} BytesNonNegative(cs: seq<Candidate>)
    requires forall c :: c in cs ==> NonNegative(c)
    ensures Bytes(cs) >= 0
  {
    if cs != [] {
      assert forall c :: c in cs[..|cs| - 1] ==> c in cs;
      assert cs[|cs| - 1] in cs;
      BytesNonNegative(cs[..|cs| - 1]);
    }
  }

  // ------------------------------------------------- acceptance, spelled out

  lemma TwinFreeLocators(s: seq<Locator>)
    ensures NoTwins(multiset(s)) <==> Distinct(s, (x: Locator) => x.digest)
  {
    if NoTwins(multiset(s)) {
      forall i, j | 0 <= i < j < |s|
        ensures s[i].digest != s[j].digest
      {
        assert s[i] in multiset(s) && s[j] in multiset(s);
        if s[i] == s[j] {
          TwiceCounts(s, i, j);
        }
      }
    } else if Distinct(s, (x: Locator) => x.digest) {
      forall x | x in multiset(s)
        ensures multiset(s)[x] == 1
      {
        OnceCounts(s, x);
      }
    }
  }

  lemma TwinFreeFiles(s: seq<FinalObject>)
    ensures NoFileTwins(multiset(s)) <==> Distinct(s, (f: FinalObject) => f.digest)
  {
    if NoFileTwins(multiset(s)) {
      forall i, j | 0 <= i < j < |s|
        ensures s[i].digest != s[j].digest
      {
        assert s[i] in multiset(s) && s[j] in multiset(s);
        if s[i] == s[j] {
          TwiceCounts(s, i, j);
        }
      }
    } else if Distinct(s, (f: FinalObject) => f.digest) {
      forall x | x in multiset(s)
        ensures multiset(s)[x] == 1
      {
        OnceCounts(s, x);
      }
    }
  }

  /** A locator that the capture may report, with what it may say of a file found under its digest. */
  predicate Plausible(x: Locator, resident: ResidentId) {
    && x.resident == resident && x.algorithm == HASH_ALGORITHM
    && x.authoritativeReferences >= 0 && x.projectionReferences >= 0
    && (if x.sqlitePresent then x.sqliteSize.Some? else x.sqliteSize.None?)
  }

  predicate Collectable(x: Locator) {
    x.authoritativeReferences + x.projectionReferences == 0
  }

  ghost predicate HasCopy(x: Locator, files: seq<FinalObject>) {
    x.sqlitePresent || exists f :: f in files && f.digest == x.digest
  }

  /** The copies of the locator have one size, which is not negative. */
  ghost predicate SizesAgree(x: Locator, files: seq<FinalObject>) {
    && (x.sqliteSize.Some? ==> x.sqliteSize.value >= 0)
    && (forall f :: f in files && f.digest == x.digest ==> f.size >= 0 && (x.sqliteSize.Some? ==> x.sqliteSize.value == f.size))
  }

  ghost predicate Distinct<T(!new)>(s: seq<T>, digest: T -> Digest) {
    forall i, j :: 0 <= i < j < |s| ==> digest(s[i]) != digest(s[j])
  }

  /**
   What is accepted, of locators and files one by one: each valid and of this
   resident, no digest twice, every locator with a copy and every file with a
   locator, copies to be collected of one size that is not negative, and a total
   within 64 bits.
   */
  lemma AcceptableExactly(resident: ResidentId, locators: seq<Locator>, files: seq<FinalObject>)
    ensures Acceptable(resident, locators, files) <==>
            && Distinct(locators, (x: Locator) => x.digest) && Distinct(files, (f: FinalObject) => f.digest)
            && (forall x :: x in locators ==> Plausible(x, resident) && HasCopy(x, files) && (Collectable(x) ==> SizesAgree(x, files)))
            && (forall f :: f in files ==>
                  f.resident == resident && f.algorithm == HASH_ALGORITHM && exists x :: x in locators && x.digest == f.digest)
            && Bytes(Candidates(SortByKey(locators), FileMap(files))) <= MAX_INT64
  {
    TwinFreeLocators(locators);
    TwinFreeFiles(files);
    if Distinct(files, (f: FinalObject) => f.digest) {
      FilesAreIndexed(files);
      MatchedExactly(resident, locators, files, FileMap(files));
    }
    hide NoTwins, NoFileTwins, Matched, Bytes, Candidates, SortByKey, FileMap, HasCopy, SizesAgree, Plausible, Collectable;
  }

  ghost predicate Indexed(files: seq<FinalObject>, m: map<Digest, FinalObject>) {
    && (forall f :: f in files ==> f.digest in m && m[f.digest] == f)
    && (forall d :: d in m ==> m[d] in files && m[d].digest == d)
  }

  lemma FilesAreIndexed(files: seq<FinalObject>)
    requires Distinct(files, (f: FinalObject) => f.digest)
    ensures Indexed(files, FileMap(files))
  {
    var m := FileMap(files);
    forall f | f in files
      ensures f.digest in m && m[f.digest] == f
    {
      assert m[f.digest] in files;
    }
  }

  lemma LocatorMatches(x: Locator, resident: ResidentId, files: seq<FinalObject>, m: map<Digest, FinalObject>)
    requires Indexed(files, m)
    ensures x.digest in m <==> exists f :: f in files && f.digest == x.digest
    ensures ValidLocator(x, resident) <==> Plausible(x, resident)
    ensures Plausible(x, resident) ==> (Unreferenced(x) <==> Collectable(x))
    ensures ValidCandidate(CandidateFor(x, m)) <==> SizesAgree(x, files)
  {
  }

  lemma MatchedExactly(resident: ResidentId, locators: seq<Locator>, files: seq<FinalObject>, m: map<Digest, FinalObject>)
    requires Indexed(files, m)
    ensures Matched(resident, locators, m) <==>
            && (forall x :: x in locators ==> Plausible(x, resident) && HasCopy(x, files) && (Collectable(x) ==> SizesAgree(x, files)))
            && (forall f :: f in files ==> exists x :: x in locators && x.digest == f.digest)
  {
    forall x | x in locators
      ensures ValidLocator(x, resident) && (x.sqlitePresent || x.digest in m) && (Unreferenced(x) ==> ValidCandidate(CandidateFor(x, m)))
              <==> Plausible(x, resident) && HasCopy(x, files) && (Collectable(x) ==> SizesAgree(x, files))
    {
      LocatorMatches(x, resident, files, m);
    }
    hide ValidLocator, Unreferenced, ValidCandidate, CandidateFor, Plausible, HasCopy, Collectable, SizesAgree;
  }

  // ------------------------------------------------------- order of inputs

  lemma SameFileMap(a: seq<FinalObject>, b: seq<FinalObject>)
    requires multiset(a) == multiset(b) && NoFileTwins(multiset(a))
    ensures FileMap(a) == FileMap(b)
  {
    SameMembers(a, b);
    forall f, g | f in a && g in b && f.digest == g.digest
      ensures f == g
    {
      assert f in multiset(a) && g in multiset(a);
    }
    hide NoFileTwins;
    SameEntries(FileMap(a), FileMap(b), a, b);
  }

  lemma SameEntries(m: map<Digest, FinalObject>, n: map<Digest, FinalObject>, a: seq<FinalObject>, b: seq<FinalObject>)
    requires (forall f :: f in a <==> f in b) && (forall f, g :: f in a && g in b && f.digest == g.digest ==> f == g)
    requires (forall d :: d in m ==> m[d] in a && m[d].digest == d) && (forall f :: f in a ==> f.digest in m)
    requires (forall d :: d in n ==> n[d] in b && n[d].digest == d) && (forall f :: f in b ==> f.digest in n)
    ensures m == n
  {
    assert m.Keys == n.Keys;
  }

  /** Neither acceptance nor the plan depends on the order of the captured locators or of the walked files. */
  lemma PlanIgnoresInputOrder(resident: ResidentId, locators: seq<Locator>, shuffled: seq<Locator>,
                              files: seq<FinalObject>, rewalked: seq<FinalObject>)
    requires multiset(locators) == multiset(shuffled) && multiset(files) == multiset(rewalked)
    ensures Acceptable(resident, locators, files) <==> Acceptable(resident, shuffled, rewalked)
    ensures Acceptable(resident, locators, files) ==>
              Candidates(SortByKey(locators), FileMap(files)) == Candidates(SortByKey(shuffled), FileMap(rewalked))
  {
    hide NoFileTwins, NoTwins, Matched;
    SameMembers(locators, shuffled);
    SameMembers(files, rewalked);
    if NoFileTwins(multiset(files)) && NoTwins(multiset(locators)) {
      SameFileMap(files, rewalked);
      var m := FileMap(files);
      MatchedByMembers(resident, locators, shuffled, m);
      if Matched(resident, locators, m) {
        SortedStates(resident, locators, m);
        SortedStates(resident, shuffled, m);
        var byDigest := (a: Locator, b: Locator) => a.digest < b.digest;
        SortedIsUnique(SortByKey(locators), SortByKey(shuffled), byDigest);
      }
    }
  }

  // ------------------------------------------------------------ buildPlan

  /** Signed 64-bit wrap-around of the overflow test's subtraction. */
  function Wrap(x: int): int {
    if x > MAX_INT64 then x - 0x1_0000_0000_0000_0000 else x
  }

  /** Both sizes of one candidate, each behind its own overflow test. */
  function AddCandidate(total: int, c: Candidate): (sum: Option<int>)
    requires 0 <= total <= MAX_INT64
    ensures sum.Some? <==> NonNegative(c) && total + SizeOf(c) <= MAX_INT64
    ensures sum.Some? ==> sum.value == total + SizeOf(c)
  {
    var half := Add(total, c.sqliteSize);
    if half.None? then None else Add(half.value, if c.file.Some? then Some(c.file.value.size) else None)
  }

  function Add(total: int, size: Option<ByteSize>): Option<int> {
    if size.None? then Some(total)
    else if total > Wrap(MAX_INT64 - size.value) then None
    else Some(total + size.value)
  }

  lemma FileFresh(files: seq<FinalObject>, f: FinalObject)
    requires NoFileTwins(multiset(files)) && f.digest !in FileMap(files)
    ensures NoFileTwins(multiset(files + [f])) && FileMap(files + [f]) == FileMap(files)[f.digest := f]
  {
    assert (files + [f])[..|files|] == files;
    assert forall g :: g in multiset(files) ==> g in files;
  }

  method CollectFiles(resident: ResidentId, files: seq<FinalObject>) returns (r: Option<map<Digest, FinalObject>>)
    ensures r.Some? <==> AllScoped(files, resident) && NoFileTwins(multiset(files))
    ensures r.Some? ==> r.value == FileMap(files)
  {
    hide NoFileTwins;
    var m: map<Digest, FinalObject> := map[];
    var i := 0;
    assert NoFileTwins(multiset{}) by { NoFilesNoTwins(); }
    while i < |files|
      invariant 0 <= i <= |files| && m == FileMap(files[..i])
      invariant AllScoped(files[..i], resident) && NoFileTwins(multiset(files[..i]))
    {
      var f := files[i];
      assert files[..i + 1] == files[..i] + [f];
      assert f in files;
      if !Scoped(f, resident) {
        return None;
      }
      if f.digest in m {
        FileTwin(files, i, m[f.digest]);
        return None;
      }
      FileFresh(files[..i], f);
      m := m[f.digest := f];
      i := i + 1;
    }
    assert files[..i] == files;
    return Some(m);
  }

  lemma NoFilesNoTwins()
    ensures NoFileTwins(multiset{})
  {
  }

  lemma FileTwin(files: seq<FinalObject>, i: nat, g: FinalObject)
    requires i < |files| && g in files[..i] && g.digest == files[i].digest
    ensures !NoFileTwins(multiset(files))
  {
    var j :| 0 <= j < i && files[j] == g;
    assert g in multiset(files) && files[i] in multiset(files);
    if g == files[i] {
      TwiceCounts(files, j, i);
    }
  }

  lemma {:induction false} BytesOfPrefix(states: seq<Locator>, m: map<Digest, FinalObject>, i: nat)
    requires i <= |states| && forall c :: c in Candidates(states, m) ==> NonNegative(c)
    ensures Bytes(Candidates(states[..i], m)) <= Bytes(Candidates(states, m))
  {
    if i < |states| {
      var init, x := states[..|states| - 1], states[|states| - 1];
      var cs := Candidates(states, m);
      assert forall c :: c in Candidates(init, m) ==> c in cs;
      assert init[..i] == states[..i];
      BytesOfPrefix(init, m, i);
      if Unreferenced(x) {
        assert CandidateFor(x, m) in cs;
        BytesSnoc(Candidates(init, m), CandidateFor(x, m));
      } else {
        assert cs == Candidates(init, m);
      }
    } else {
      assert states[..i] == states;
    }
  }

  lemma BytesSnoc(cs: seq<Candidate>, c: Candidate)
    ensures Bytes(cs + [c]) == Bytes(cs) + SizeOf(c)
  {
    assert (cs + [c])[..|cs|] == cs;
  }

  /** The state of the main loop after its first `n` sorted locators. */
  ghost predicate Walked(resident: ResidentId, states: seq<Locator>, m: map<Digest, FinalObject>, n: nat)
    requires n <= |states|
  {
    && Increasing(states[..n])
    && (forall x :: x in states[..n] ==> ValidLocator(x, resident) && (x.sqlitePresent || x.digest in m))
  }

  ghost predicate Remaining(left: map<Digest, FinalObject>, m: map<Digest, FinalObject>, states: seq<Locator>) {
    forall d :: d in left <==> d in m && forall x :: x in states ==> x.digest != d
  }

  lemma WalkIncreases(resident: ResidentId, states: seq<Locator>, m: map<Digest, FinalObject>, n: nat)
    requires n < |states| && Ordered(states, KeyLess) && Walked(resident, states, m, n) && ValidLocator(states[n], resident)
    requires n > 0 ==> states[n - 1].digest != states[n].digest
    ensures forall y :: y in states[..n] ==> y.digest < states[n].digest
  {
    var init, x := states[..n], states[n];
    forall j | 0 <= j < n
      ensures init[j].digest < x.digest
    {
      assert init[n - 1] == states[n - 1] && init[n - 1] in init;
      assert !KeyLess(x, states[n - 1]);
    }
  }

  lemma WalkOn(resident: ResidentId, states: seq<Locator>, m: map<Digest, FinalObject>, left: map<Digest, FinalObject>, n: nat)
    requires n < |states| && Ordered(states, KeyLess) && Walked(resident, states, m, n) && ValidLocator(states[n], resident)
    requires !SameKeyBefore(states, n) && Remaining(left, m, states[..n])
    ensures states[n].digest in left <==> states[n].digest in m
    ensures Remaining(left - {states[n].digest}, m, states[..n + 1])
    ensures states[n].sqlitePresent || states[n].digest in m ==> Walked(resident, states, m, n + 1)
  {
    assert n > 0 ==> states[n - 1] in states[..n];
    WalkIncreases(resident, states, m, n);
    hide Ordered, ValidLocator, SameKeyBefore;
    assert states[..n + 1] == states[..n] + [states[n]];
    LeaveOne(left, m, states[..n], states[n]);
    hide Remaining;
    assert Increasing(states[..n] + [states[n]]);
    hide Increasing;
  }

  lemma LeaveOne(left: map<Digest, FinalObject>, m: map<Digest, FinalObject>, states: seq<Locator>, x: Locator)
    requires Remaining(left, m, states) && forall y :: y in states ==> y.digest != x.digest
    ensures x.digest in left <==> x.digest in m
    ensures Remaining(left - {x.digest}, m, states + [x])
  {
  }

  /** The guards of the main loop reject only inputs that have no plan. */
  lemma WalkRejects(resident: ResidentId, states: seq<Locator>, m: map<Digest, FinalObject>, left: map<Digest, FinalObject>, n: nat)
    requires n < |states| && Ordered(states, KeyLess) && Walked(resident, states, m, n) && Remaining(left, m, states[..n])
    requires var x := states[n];
             !ValidLocator(x, resident) || SameKeyBefore(states, n) || (!x.sqlitePresent && x.digest !in left)
    ensures !NoTwins(multiset(states)) || !Matched(resident, states, m)
  {
    if ValidLocator(states[n], resident) {
      if SameKeyBefore(states, n) {
        LocatorTwin(states, n);
      } else {
        WalkOn(resident, states, m, left, n);
      }
    }
  }

  predicate SameKeyBefore(states: seq<Locator>, n: nat)
    requires n < |states|
  {
    n > 0 && states[n - 1].resident == states[n].resident && states[n - 1].algorithm == states[n].algorithm
    && states[n - 1].digest == states[n].digest
  }

  lemma LocatorTwin(states: seq<Locator>, i: nat)
    requires 0 < i < |states| && states[i - 1].digest == states[i].digest
    ensures !NoTwins(multiset(states))
  {
    assert states[i - 1] in multiset(states) && states[i] in multiset(states);
    if states[i - 1] == states[i] {
      TwiceCounts(states, i - 1, i);
    }
  }

  lemma CandidateRejects(resident: ResidentId, states: seq<Locator>, m: map<Digest, FinalObject>, c: Candidate)
    requires Increasing(states) && c in Candidates(states, m) && !ValidCandidate(c)
    ensures !Matched(resident, states, m)
  {
    CandidatesAre(states, m);
  }

  /** A byte count that overflows part of the way, or meets a negative size, rejects the whole input. */
  lemma OverflowRejects(resident: ResidentId, states: seq<Locator>, m: map<Digest, FinalObject>, i: nat, c: Candidate)
    requires i <= |states| && c in Candidates(states[..i], m)
    requires NonNegative(c) ==> Bytes(Candidates(states[..i], m)) > MAX_INT64
    requires NoTwins(multiset(states)) && Ordered(states, KeyLess) && Matched(resident, states, m)
    ensures Bytes(Candidates(states, m)) > MAX_INT64
  {
    NoTwinsIncrease(states, resident);
    CandidatesAre(states, m);
    CandidatesGrow(states, m, i);
    BytesOfPrefix(states, m, i);
  }

  lemma {:induction false} CandidatesGrow(states: seq<Locator>, m: map<Digest, FinalObject>, i: nat)
    requires i <= |states|
    ensures Candidates(states[..i], m) <= Candidates(states, m)
  {
    if i < |states| {
      assert states[..|states| - 1][..i] == states[..i];
      CandidatesGrow(states[..|states| - 1], m, i);
    } else {
      assert states[..i] == states;
    }
  }

  lemma Accepts(resident: ResidentId, states: seq<Locator>, m: map<Digest, FinalObject>)
    requires Walked(resident, states, m, |states|) && Remaining(map[], m, states)
    requires forall c :: c in Candidates(states, m) ==> ValidCandidate(c)
    ensures NoTwins(multiset(states)) && Matched(resident, states, m)
  {
    assert states[..|states|] == states;
    IncreasingHasNoTwins(states);
    CandidatesAre(states, m);
    hide NoTwins, ValidLocator, ValidCandidate;
    forall x | x in states && Unreferenced(x)
      ensures ValidCandidate(CandidateFor(x, m))
    {
      assert CandidateFor(x, m) in Candidates(states, m);
    }
  }

  /** `Plan.Validate` over the candidates: each is valid and the keys strictly increase. */
  method ValidateCandidates(cs: seq<Candidate>) returns (valid: bool)
    ensures valid <==> (forall c :: c in cs ==> ValidCandidate(c)) && (forall i :: 0 < i < |cs| ==> cs[i - 1].digest < cs[i].digest)
  {
    var i := 0;
    while i < |cs|
      invariant 0 <= i <= |cs|
      invariant forall k :: 0 <= k < i ==> ValidCandidate(cs[k])
      invariant forall k :: 0 < k < i ==> cs[k - 1].digest < cs[k].digest
    {
      if !ValidCandidate(cs[i]) || (i > 0 && cs[i].digest <= cs[i - 1].digest) {
        assert cs[i] in cs;
        return false;
      }
      i := i + 1;
    }
    return true;
  }

  /** The candidates and bytes gathered from the first `n` sorted locators. */
  ghost predicate Gathered(states: seq<Locator>, m: map<Digest, FinalObject>, n: nat, candidates: seq<Candidate>, total: int)
    requires n <= |states|
  {
    && candidates == Candidates(states[..n], m)
    && (forall c :: c in candidates ==> NonNegative(c)) && 0 <= total == Bytes(candidates) <= MAX_INT64
  }

  lemma GatherOn(states: seq<Locator>, m: map<Digest, FinalObject>, n: nat, candidates: seq<Candidate>, total: int)
    requires n < |states| && Gathered(states, m, n, candidates, total)
    ensures var c := CandidateFor(states[n], m);
            if !Unreferenced(states[n]) then Gathered(states, m, n + 1, candidates, total)
            else if AddCandidate(total, c).Some? then Gathered(states, m, n + 1, candidates + [c], AddCandidate(total, c).value)
            else c in Candidates(states[..n + 1], m) && (NonNegative(c) ==> Bytes(Candidates(states[..n + 1], m)) > MAX_INT64)
  {
    assert states[..n + 1] == states[..n] + [states[n]] && states[..n + 1][..n] == states[..n];
    BytesSnoc(candidates, CandidateFor(states[n], m));
  }

  lemma GatheredBounds(states: seq<Locator>, m: map<Digest, FinalObject>, n: nat, candidates: seq<Candidate>, total: int)
    requires n <= |states| && Gathered(states, m, n, candidates, total)
    ensures 0 <= total <= MAX_INT64 && total == Bytes(candidates) && candidates == Candidates(states[..n], m)
  {
  }

  method BuildPlan(snapshotCurrent: bool, resident: ResidentId, locators: seq<Locator>, files: seq<FinalObject>)
    returns (r: Result<Plan, PlanError>)
    ensures r.Ok? <==> snapshotCurrent && Acceptable(resident, locators, files)
    ensures r.Ok? ==> r.value.candidates == Candidates(SortByKey(locators), FileMap(files)) && r.value.bytes == Bytes(r.value.candidates)
    ensures r == Err(ProjectionNotCurrent) <==> !snapshotCurrent
  {
    if !snapshotCurrent {
      return Err(ProjectionNotCurrent);
    }
    hide Matched, NoTwins, NoFileTwins, AllScoped;
    var byDigest := CollectFiles(resident, files);
    if byDigest.None? {
      return Err(ContentIntegrity);
    }
    SortOrders(locators, KeyLess);
    var states := SortByKey(locators);
    var plan := WalkLocators(resident, states, byDigest.value);
    SameMembers(locators, states);
    MatchedByMembers(resident, locators, states, FileMap(files));
    return plan;
  }

  /** The main loop over the sorted locators; every file must find its locator on the way. */
  method WalkLocators(resident: ResidentId, states: seq<Locator>, m: map<Digest, FinalObject>) returns (r: Result<Plan, PlanError>)
    requires Ordered(states, KeyLess)
    ensures r.Ok? <==> NoTwins(multiset(states)) && Matched(resident, states, m) && Bytes(Candidates(states, m)) <= MAX_INT64
    ensures r.Ok? ==> r.value.candidates == Candidates(states, m) && r.value.bytes == Bytes(r.value.candidates)
    ensures r != Err(ProjectionNotCurrent)
  {
    hide KeyLess, Ordered, NoTwins, Increasing, SizeOf, NonNegative, Gathered, Walked, Remaining, Matched, ValidLocator, ValidCandidate, SameKeyBefore;
    var left := m;
    var candidates: seq<Candidate>, total := [], 0;
    var i := 0;
    NothingWalked(resident, states, m);
    while i < |states|
      invariant 0 <= i <= |states|
      invariant Walked(resident, states, m, i)
      invariant Remaining(left, m, states[..i]) && forall d :: d in left ==> d in m && left[d] == m[d]
      invariant 0 <= total <= MAX_INT64 && Gathered(states, m, i, candidates, total)
    {
      var x := states[i];
      if !ValidLocator(x, resident) || SameKeyBefore(states, i) || (!x.sqlitePresent && x.digest !in left) {
        WalkRejects(resident, states, m, left, i);
        return Err(ContentIntegrity);
      }
      WalkOn(resident, states, m, left, i);
      var file := Lookup(left, x.digest);
      left := left - {x.digest};
      GatherOn(states, m, i, candidates, total);
      if Unreferenced(x) {
        var candidate := Candidate(x.digest, x.sqliteSize, file);
        var sum := AddCandidate(total, candidate);
        if sum.None? {
          if NoTwins(multiset(states)) && Matched(resident, states, m) {
            OverflowRejects(resident, states, m, i + 1, candidate);
          }
          return Err(ByteCountOverflow);
        }
        total := sum.value;
        candidates := candidates + [candidate];
        assert 0 <= total <= MAX_INT64 by {
          GatheredBounds(states, m, i + 1, candidates, total);
        }
      }
      i := i + 1;
    }
    assert states[..i] == states;
    GatheredBounds(states, m, i, candidates, total);
    if left != map[] {
      LeftoverRejects(resident, states, m, left);
      return Err(ContentIntegrity);
    }
    WalkedIncreases(resident, states, m);
    CandidatesAre(states, m);
    var valid := ValidateCandidates(candidates);
    if !valid {
      var c :| c in candidates && !ValidCandidate(c);
      CandidateRejects(resident, states, m, c);
      return Err(InvalidPlan);
    }
    Accepts(resident, states, m);
    return Ok(Plan(candidates, total));
  }

  lemma LeftoverRejects(resident: ResidentId, states: seq<Locator>, m: map<Digest, FinalObject>, left: map<Digest, FinalObject>)
    requires left != map[] && Remaining(left, m, states)
    ensures !Matched(resident, states, m)
  {
    var d :| d in left;
  }

  lemma WalkedIncreases(resident: ResidentId, states: seq<Locator>, m: map<Digest, FinalObject>)
    requires Walked(resident, states, m, |states|)
    ensures Increasing(states)
  {
    assert states[..|states|] == states;
  }

  lemma NothingWalked(resident: ResidentId, states: seq<Locator>, m: map<Digest, FinalObject>)
    ensures Walked(resident, states, m, 0) && Remaining(m, m, states[..0]) && Gathered(states, m, 0, [], 0)
  {
  }
}
