/**
 Staged, final and quarantined content. An operation first reads the namespace
 and then carries out a short list of atomic changes; a crash or an error leaves
 a prefix of the list done. Files are known by the digest of their bytes.
 */
module BlobNamespace {
  import opened Common

  type Digest = nat

  datatype Key = Key(resident: ResidentId, digest: Digest)

  /** The sealed name of a staged file carries its key and the random part of its partial name. */
  datatype Marker = Marker(key: Key, nonce: nat)

  datatype File = File(digest: Digest, identity: nat)

  datatype Namespace = Namespace(
    stage: map<Marker, File>,
    quarantinedStage: map<Marker, File>,   // "delete-stage-" entries
    objects: map<Key, Digest>,
    quarantinedObjects: map<Key, Digest>,  // "delete-object-" entries
    evidence: seq<(Key, Digest)>           // kept for good
  )

  datatype Change =
    | Publish(key: Key, digest: Digest)
    | QuarantineMismatch(key: Key)
    | MoveStage(marker: Marker)
    | DeleteStage(marker: Marker)
    | RestoreObject(key: Key)
    | MoveObject(key: Key)
    | DeleteObject(key: Key)

  /** Moves and publications never replace an entry; `None` is an error that changed nothing. */
  function Carry(n: Namespace, c: Change): Option<Namespace> {
    match c
    case Publish(k, d) => if k in n.objects then None else Some(n.(objects := n.objects[k := d]))
    case QuarantineMismatch(k) =>
      if k !in n.objects then None
      else Some(n.(objects := n.objects - {k}, evidence := n.evidence + [(k, n.objects[k])]))
    case MoveStage(m) =>
      if m !in n.stage || m in n.quarantinedStage then None
      else Some(n.(stage := n.stage - {m}, quarantinedStage := n.quarantinedStage[m := n.stage[m]]))
    case DeleteStage(m) =>
      if m !in n.quarantinedStage then None else Some(n.(quarantinedStage := n.quarantinedStage - {m}))
    case RestoreObject(k) =>
      if k !in n.quarantinedObjects || k in n.objects then None
      else Some(n.(quarantinedObjects := n.quarantinedObjects - {k}, objects := n.objects[k := n.quarantinedObjects[k]]))
    case MoveObject(k) =>
      if k !in n.objects || k in n.quarantinedObjects then None
      else Some(n.(objects := n.objects - {k}, quarantinedObjects := n.quarantinedObjects[k := n.objects[k]]))
    case DeleteObject(k) =>
      if k !in n.quarantinedObjects then None else Some(n.(quarantinedObjects := n.quarantinedObjects - {k}))
  }

  /** What an operation decides to do, and whether it reports success once all of it is done. */
  datatype Plan = Plan(changes: seq<Change>, ok: bool)

  const REFUSED := Plan([], false)

  predicate Holds(files: map<Marker, File>, m: Marker, identity: nat) {
    m in files && files[m].identity == identity && files[m].digest == m.key.digest
  }

  predicate GoodObject(n: Namespace, k: Key) {
    k in n.objects && n.objects[k] == k.digest
  }

  function FinalizePlan(n: Namespace, m: Marker, identity: nat): Plan {
    if !Holds(n.stage, m, identity) then REFUSED
    else if m.key in n.objects then
      if GoodObject(n, m.key) then Plan([], true) else Plan([QuarantineMismatch(m.key)], false)
    else Plan([Publish(m.key, n.stage[m].digest)], true)
  }

  function AcknowledgePlan(n: Namespace, m: Marker, identity: nat): Plan {
    if m.key !in n.objects then REFUSED
    else if !GoodObject(n, m.key) then Plan([QuarantineMismatch(m.key)], false)
    else if m in n.quarantinedStage then
      if Holds(n.quarantinedStage, m, identity) then Plan([DeleteStage(m)], true) else REFUSED
    else if m in n.stage then
      if Holds(n.stage, m, identity) then Plan([MoveStage(m), DeleteStage(m)], true) else REFUSED
    else Plan([], true)
  }

  function RemoveMarker(m: Marker, inStaging: bool): seq<Change> {
    (if inStaging then [MoveStage(m)] else []) + [DeleteStage(m)]
  }

  /** Recovery of one sealed orphan, found in the staging directory or among the quarantined stages. */
  function CleanupPlan(n: Namespace, referenced: bool, m: Marker, identity: nat, inStaging: bool): Plan {
    var k := m.key;
    var last := RemoveMarker(m, inStaging);
    if !Holds(if inStaging then n.stage else n.quarantinedStage, m, identity) then REFUSED
    else if k in n.objects then
      if !GoodObject(n, k) then Plan([QuarantineMismatch(k)], false)
      else if referenced then Plan(last, true)
      else Plan([MoveObject(k), DeleteObject(k)] + last, true)
    else if k in n.quarantinedObjects then
      if n.quarantinedObjects[k] != k.digest then REFUSED
      else if referenced then Plan([RestoreObject(k)] + last, true)
      else Plan([DeleteObject(k)] + last, true)
    else if referenced then Plan([Publish(k, k.digest)] + last, true)
    else Plan(last, true)
  }

  /** At most `budget` changes; stops early at one that fails. */
  function Perform(n: Namespace, changes: seq<Change>, budget: nat): Namespace
    decreases budget
  {
    if changes == [] || budget == 0 || Carry(n, changes[0]).None? then n
    else Perform(Carry(n, changes[0]).value, changes[1..], budget - 1)
  }

  predicate Completes(n: Namespace, changes: seq<Change>)
    decreases |changes|
  {
    changes == [] || (Carry(n, changes[0]).Some? && Completes(Carry(n, changes[0]).value, changes[1..]))
  }

  // ------------------------------------------------------------ retrying

  /** A cleanup that stopped after its first change is taken up by the next one where it stopped. */
  lemma CleanupResumes(n: Namespace, referenced: bool, m: Marker, identity: nat, inStaging: bool)
    requires var p := CleanupPlan(n, referenced, m, identity, inStaging);
             p.ok && |p.changes| > 1 && Carry(n, p.changes[0]).Some?
    ensures var p := CleanupPlan(n, referenced, m, identity, inStaging);
            CleanupPlan(Carry(n, p.changes[0]).value, referenced, m, identity, inStaging && p.changes[0] != MoveStage(m))
            == Plan(p.changes[1..], true)
  {
    var k := m.key;
    var last := RemoveMarker(m, inStaging);
    if k in n.objects && !referenced {
      assert ([MoveObject(k), DeleteObject(k)] + last)[1..] == [DeleteObject(k)] + last;
    } else if k in n.objects || (k !in n.quarantinedObjects && !referenced) {
      assert last == [MoveStage(m), DeleteStage(m)] && last[1..] == [DeleteStage(m)] == RemoveMarker(m, false);
    } else {
      var p := CleanupPlan(n, referenced, m, identity, inStaging);
      assert p.changes[1..] == last;
    }
  }

  lemma AcknowledgeResumes(n: Namespace, m: Marker, identity: nat)
    requires AcknowledgePlan(n, m, identity).ok && AcknowledgePlan(n, m, identity).changes != []
    ensures var p := AcknowledgePlan(n, m, identity);
            && Carry(n, p.changes[0]).Some?
            && (p.changes[0].DeleteStage? && m in n.stage ==> p.changes[1..] == [])
            && (!(p.changes[0].DeleteStage? && m in n.stage) ==>
                  AcknowledgePlan(Carry(n, p.changes[0]).value, m, identity) == Plan(p.changes[1..], true))
  {
  }

  /**
   An undisturbed cleanup of a valid orphan finishes unless the object has a twin
   waiting in quarantine that it would have to replace, or its marker has.
   */
  lemma CleanupCompletesExactly(n: Namespace, referenced: bool, m: Marker, identity: nat, inStaging: bool)
    requires CleanupPlan(n, referenced, m, identity, inStaging).ok
    ensures Completes(n, CleanupPlan(n, referenced, m, identity, inStaging).changes)
            <==> (m.key in n.objects && m.key in n.quarantinedObjects ==> referenced) && (inStaging ==> m !in n.quarantinedStage)
  {
    var k := m.key;
    var last := RemoveMarker(m, inStaging);
    if !referenced && k in n.objects {
      var p := [MoveObject(k), DeleteObject(k)] + last;
      assert p[0] == MoveObject(k) && p[1..] == [DeleteObject(k)] + last && p[1..][1..] == last;
      if k !in n.quarantinedObjects {
        MarkerRemovalCompletes(Carry(Carry(n, p[0]).value, p[1]).value, m, inStaging);
      }
    } else if k !in n.objects && (referenced || k in n.quarantinedObjects) {
      var p := CleanupPlan(n, referenced, m, identity, inStaging).changes;
      assert p[1..] == last;
      MarkerRemovalCompletes(Carry(n, p[0]).value, m, inStaging);
    } else {
      MarkerRemovalCompletes(n, m, inStaging);
    }
  }

  lemma MarkerRemovalCompletes(n: Namespace, m: Marker, inStaging: bool)
    requires m in if inStaging then n.stage else n.quarantinedStage
    ensures Completes(n, RemoveMarker(m, inStaging)) <==> (inStaging ==> m !in n.quarantinedStage)
  {
    assert [DeleteStage(m)][1..] == [];
    if inStaging {
      var p := RemoveMarker(m, true);
      assert p[0] == MoveStage(m) && p[1..] == [DeleteStage(m)];
      if m !in n.quarantinedStage {
        assert Completes(Carry(n, p[0]).value, p[1..]);
      }
    } else {
      assert RemoveMarker(m, false) == [DeleteStage(m)];
    }
  }

  // ------------------------------------------- what success asks and leaves

  /** The plan exists and an undisturbed operation carries out all of it. */
  predicate Succeeds(n: Namespace, p: Plan) {
    p.ok && Completes(n, p.changes)
  }

  function Outcome(n: Namespace, p: Plan): Namespace {
    Perform(n, p.changes, |p.changes|)
  }

  lemma OneChange(n: Namespace, c: Change)
    ensures Completes(n, [c]) <==> Carry(n, c).Some?
    ensures Perform(n, [c], 1) == if Carry(n, c).Some? then Carry(n, c).value else n
  {
    assert [c][1..] == [];
  }

  lemma MoreChanges(n: Namespace, c: Change, rest: seq<Change>)
    ensures Completes(n, [c] + rest) <==> Carry(n, c).Some? && Completes(Carry(n, c).value, rest)
    ensures Carry(n, c).Some? ==> Perform(n, [c] + rest, 1 + |rest|) == Perform(Carry(n, c).value, rest, |rest|)
  {
    assert ([c] + rest)[1..] == rest;
  }

  lemma MarkerRemovalLeaves(n: Namespace, m: Marker, inStaging: bool)
    requires m in if inStaging then n.stage else n.quarantinedStage
    ensures Completes(n, RemoveMarker(m, inStaging)) <==> (inStaging ==> m !in n.quarantinedStage)
    ensures Completes(n, RemoveMarker(m, inStaging)) ==>
              Perform(n, RemoveMarker(m, inStaging), |RemoveMarker(m, inStaging)|)
              == n.(stage := if inStaging then n.stage - {m} else n.stage, quarantinedStage := n.quarantinedStage - {m})
  {
    OneChange(n, DeleteStage(m));
    if inStaging {
      MoreChanges(n, MoveStage(m), [DeleteStage(m)]);
      if m !in n.quarantinedStage {
        OneChange(Carry(n, MoveStage(m)).value, DeleteStage(m));
      }
    }
    assert [] + [DeleteStage(m)] == [DeleteStage(m)];
  }

  lemma AfterOneChange(n: Namespace, c: Change, m: Marker, inStaging: bool)
    requires Carry(n, c).Some?
    requires var t := Carry(n, c).value; t.stage == n.stage && t.quarantinedStage == n.quarantinedStage
    requires m in if inStaging then n.stage else n.quarantinedStage
    ensures var p := [c] + RemoveMarker(m, inStaging);
            && (Completes(n, p) <==> (inStaging ==> m !in n.quarantinedStage))
            && (Completes(n, p) ==>
                  Perform(n, p, |p|) == Carry(n, c).value.(stage := if inStaging then n.stage - {m} else n.stage,
                                                           quarantinedStage := n.quarantinedStage - {m}))
  {
    MoreChanges(n, c, RemoveMarker(m, inStaging));
    MarkerRemovalLeaves(Carry(n, c).value, m, inStaging);
  }

  lemma AfterTwoChanges(n: Namespace, k: Key, m: Marker, inStaging: bool)
    requires k in n.objects && m in if inStaging then n.stage else n.quarantinedStage
    ensures var p := [MoveObject(k), DeleteObject(k)] + RemoveMarker(m, inStaging);
            && (Completes(n, p) <==> k !in n.quarantinedObjects && (inStaging ==> m !in n.quarantinedStage))
            && (Completes(n, p) ==>
                  Perform(n, p, |p|) == n.(objects := n.objects - {k}, stage := if inStaging then n.stage - {m} else n.stage,
                                           quarantinedStage := n.quarantinedStage - {m}))
  {
    var rest := [DeleteObject(k)] + RemoveMarker(m, inStaging);
    assert [MoveObject(k), DeleteObject(k)] + RemoveMarker(m, inStaging) == [MoveObject(k)] + rest;
    MoreChanges(n, MoveObject(k), rest);
    if k !in n.quarantinedObjects {
      var t := Carry(n, MoveObject(k)).value;
      AfterOneChange(t, DeleteObject(k), m, inStaging);
      assert t.quarantinedObjects - {k} == n.quarantinedObjects;
    }
  }

  /**
   Recovery of an orphan, in terms of the directories. It succeeds exactly when
   the marker is there with its own bytes, the object is good if there is one, a
   quarantined copy is good if there is no object, and neither the object nor the
   marker has a twin in the way. It leaves the object there, whole, if it is
   referenced, also one that had been lost, and otherwise no copy; the marker is gone.
   */
  lemma CleanupSucceedsExactly(n: Namespace, referenced: bool, m: Marker, identity: nat, inStaging: bool)
    ensures var k := m.key;
            var source := if inStaging then n.stage else n.quarantinedStage;
            Succeeds(n, CleanupPlan(n, referenced, m, identity, inStaging))
            <==>
            && m in source && source[m] == File(k.digest, identity)
            && (k in n.objects ==> n.objects[k] == k.digest && (k in n.quarantinedObjects ==> referenced))
            && (k !in n.objects && k in n.quarantinedObjects ==> n.quarantinedObjects[k] == k.digest)
            && (inStaging ==> m !in n.quarantinedStage)
    ensures var k := m.key;
            var p := CleanupPlan(n, referenced, m, identity, inStaging);
            Succeeds(n, p) ==>
              Outcome(n, p)
              == n.(objects := if referenced then n.objects[k := k.digest] else n.objects - {k},
                    quarantinedObjects := if k in n.objects then n.quarantinedObjects else n.quarantinedObjects - {k},
                    stage := if inStaging then n.stage - {m} else n.stage,
                    quarantinedStage := n.quarantinedStage - {m})
  {
    var k, p := m.key, CleanupPlan(n, referenced, m, identity, inStaging);
    hide Completes, Perform, RemoveMarker;
    if p.ok {
      if k in n.objects {
        if referenced {
          MarkerRemovalLeaves(n, m, inStaging);
          assert n.objects[k := k.digest] == n.objects;
        } else {
          AfterTwoChanges(n, k, m, inStaging);
        }
      } else if k in n.quarantinedObjects {
        AfterOneChange(n, if referenced then RestoreObject(k) else DeleteObject(k), m, inStaging);
      } else if referenced {
        AfterOneChange(n, Publish(k, k.digest), m, inStaging);
      } else {
        MarkerRemovalLeaves(n, m, inStaging);
      }
      assert k !in n.objects ==> n.objects - {k} == n.objects;
      assert k !in n.quarantinedObjects ==> n.quarantinedObjects - {k} == n.quarantinedObjects;
    }
  }

  /** A mismatching object is not used but set aside as evidence, and a missing or foreign marker changes nothing. */
  lemma CleanupRefusesCleanly(n: Namespace, referenced: bool, m: Marker, identity: nat, inStaging: bool)
    ensures var k := m.key;
            var source := if inStaging then n.stage else n.quarantinedStage;
            var t := Outcome(n, CleanupPlan(n, referenced, m, identity, inStaging));
            if m !in source || source[m] != File(k.digest, identity) then t == n
            else k in n.objects && n.objects[k] != k.digest ==>
              t == n.(objects := n.objects - {k}, evidence := n.evidence + [(k, n.objects[k])])
  {
    OneChange(n, QuarantineMismatch(m.key));
  }

  /**
   Finalizing succeeds exactly when the staged file is the caller's own with its
   own bytes and no other object is in its place; it leaves the object there,
   new or deduplicated, and changes nothing else. A mismatching one is set aside.
   */
  lemma FinalizeSucceedsExactly(n: Namespace, m: Marker, identity: nat)
    ensures var k, p := m.key, FinalizePlan(n, m, identity);
            Succeeds(n, p) <==>
            && m in n.stage && n.stage[m] == File(k.digest, identity) && (k in n.objects ==> n.objects[k] == k.digest)
    ensures var k, p := m.key, FinalizePlan(n, m, identity);
            Succeeds(n, p) ==> Outcome(n, p) == n.(objects := n.objects[k := k.digest])
    ensures var k, t := m.key, Outcome(n, FinalizePlan(n, m, identity));
            if m !in n.stage || n.stage[m] != File(k.digest, identity) then t == n
            else k in n.objects && n.objects[k] != k.digest ==>
              t == n.(objects := n.objects - {k}, evidence := n.evidence + [(k, n.objects[k])])
  {
    var k := m.key;
    if m in n.stage {
      OneChange(n, Publish(k, n.stage[m].digest));
    }
    OneChange(n, QuarantineMismatch(k));
    assert GoodObject(n, k) ==> n.objects[k := k.digest] == n.objects;
  }

  /**
   Acknowledging succeeds exactly when the object is good and the marker, if it is
   still in either place, is the caller's own; it leaves the object and no marker.
   */
  lemma AcknowledgeSucceedsExactly(n: Namespace, m: Marker, identity: nat)
    ensures Succeeds(n, AcknowledgePlan(n, m, identity)) <==>
            && m.key in n.objects && n.objects[m.key] == m.key.digest
            && (m in n.quarantinedStage ==> n.quarantinedStage[m] == File(m.key.digest, identity))
            && (m !in n.quarantinedStage && m in n.stage ==> n.stage[m] == File(m.key.digest, identity))
    ensures var p := AcknowledgePlan(n, m, identity);
            Succeeds(n, p) ==>
              Outcome(n, p) == n.(stage := if m in n.quarantinedStage then n.stage else n.stage - {m},
                                  quarantinedStage := n.quarantinedStage - {m})
    ensures m.key in n.objects && n.objects[m.key] != m.key.digest ==>
              Outcome(n, AcknowledgePlan(n, m, identity))
              == n.(objects := n.objects - {m.key}, evidence := n.evidence + [(m.key, n.objects[m.key])])
  {
    OneChange(n, QuarantineMismatch(m.key));
    if m in n.quarantinedStage {
      MarkerRemovalLeaves(n, m, false);
      assert RemoveMarker(m, false) == [DeleteStage(m)];
    } else if m in n.stage {
      MarkerRemovalLeaves(n, m, true);
      assert RemoveMarker(m, true) == [MoveStage(m), DeleteStage(m)];
    } else {
      assert n.stage - {m} == n.stage;
    }
    assert m !in n.quarantinedStage ==> n.quarantinedStage - {m} == n.quarantinedStage;
  }
}

/**
 All crash-and-retry runs of uploads (stage, finalize, commit the reference,
 acknowledge) and of recovery, which runs only while no upload is in progress.
 `finalizeMu` admits one finalize, acknowledge or cleanup at a time; staging and
 commits interleave with it at every point.
 */
module BlobProtocol {
  import opened Common
  import opened BlobNamespace

  /** A caller's staged token; `committed` once it knows that its reference is durable. */
  datatype Upload = Upload(marker: Marker, identity: nat, finalized: bool, committed: bool)

  datatype Kind = Idle | Finalizing | Acknowledging | Cleaning

  datatype Job = Job(kind: Kind, upload: nat, marker: Marker, identity: nat, inStaging: bool,
                     fromStaging: bool, changes: seq<Change>, ok: bool)

  const NO_JOB := Job(Idle, 0, Marker(Key(0, 0), 0), 0, false, false, [], false)

  datatype Sys = Sys(
    names: Namespace,
    referenced: set<Key>,   // durable; this model has no erasure, so it only grows
    uploads: seq<Upload>,   // of the running process
    job: Job,
    nextIdentity: nat,
    damaged: set<Key>       // history: objects ever lost or altered from outside
  )

  function Empty(): Sys {
    Sys(Namespace(map[], map[], map[], map[], []), {}, [], NO_JOB, 0, {})
  }

  datatype Action =
    | Stage(key: Key, nonce: nat)
    | BeginFinalize(i: nat)
    | Commit(i: nat, known: bool)
    | BeginAcknowledge(i: nat)
    | BeginCleanup(marker: Marker, identity: nat, inStaging: bool)
    | Advance
    | Finish
    | Fail
    | Crash
    | Damage(key: Key, becomes: Option<Digest>)

  ghost predicate Marked(n: Namespace, k: Key) {
    exists m: Marker :: m.key == k && (m in n.stage || m in n.quarantinedStage)
  }

  ghost predicate Enabled(s: Sys, a: Action) {
    match a
    case Stage(k, nonce) => s.job.kind != Cleaning && Marker(k, nonce) !in s.names.stage
    case BeginFinalize(i) => s.job.kind == Idle && i < |s.uploads|
    case Commit(i, _) => i < |s.uploads| && s.uploads[i].finalized
    case BeginAcknowledge(i) => s.job.kind == Idle && i < |s.uploads| && s.uploads[i].committed
    case BeginCleanup(_, _, _) => s.job.kind == Idle && s.uploads == []
    case Advance => s.job.changes != [] && Carry(s.names, s.job.changes[0]).Some?
    case Finish => s.job.kind != Idle && s.job.changes == []
    case Fail => s.job.kind != Idle
    case Crash => true
    // Outside interference, but only with an object whose sealed marker is still there.
    case Damage(k, _) => s.job.kind == Idle && Marked(s.names, k)
  }

  ghost function Apply(s: Sys, a: Action): Sys
    requires Enabled(s, a)
  {
    match a
    case Stage(k, nonce) =>
      s.(names := s.names.(stage := s.names.stage[Marker(k, nonce) := File(k.digest, s.nextIdentity)]),
         uploads := s.uploads + [Upload(Marker(k, nonce), s.nextIdentity, false, false)],
         nextIdentity := s.nextIdentity + 1)
    case BeginFinalize(i) =>
      var u := s.uploads[i];
      var p := FinalizePlan(s.names, u.marker, u.identity);
      s.(job := Job(Finalizing, i, u.marker, u.identity, true, true, p.changes, p.ok))
    case Commit(i, known) =>
      s.(referenced := s.referenced + {s.uploads[i].marker.key},
         uploads := s.uploads[i := s.uploads[i].(committed := s.uploads[i].committed || known)])
    case BeginAcknowledge(i) =>
      var u := s.uploads[i];
      var p := AcknowledgePlan(s.names, u.marker, u.identity);
      s.(job := Job(Acknowledging, i, u.marker, u.identity, true, true, p.changes, p.ok))
    case BeginCleanup(m, identity, inStaging) =>
      var p := CleanupPlan(s.names, m.key in s.referenced, m, identity, inStaging);
      s.(job := Job(Cleaning, 0, m, identity, inStaging, inStaging, p.changes, p.ok))
    case Advance =>
      s.(names := Carry(s.names, s.job.changes[0]).value,
         job := s.job.(changes := s.job.changes[1..], inStaging := s.job.inStaging && !s.job.changes[0].MoveStage?))
    case Finish =>
      s.(job := NO_JOB,
         uploads := if s.job.kind == Finalizing && s.job.ok && s.job.upload < |s.uploads|
                    then s.uploads[s.job.upload := s.uploads[s.job.upload].(finalized := true)] else s.uploads)
    case Fail => s.(job := NO_JOB)
    case Crash => s.(job := NO_JOB, uploads := [])
    case Damage(k, becomes) =>
      s.(damaged := s.damaged + {k},
         names := s.names.(objects := if k !in s.names.objects then s.names.objects
                                      else if becomes.None? then s.names.objects - {k}
                                      else s.names.objects[k := becomes.value]))
  }

  // ------------------------------------------------------------- invariant

  ghost predicate Intact(n: Namespace, next: nat) {
    && (forall m :: m in n.stage ==> n.stage[m].digest == m.key.digest && n.stage[m].identity < next)
    && (forall m :: m in n.quarantinedStage ==> n.quarantinedStage[m].digest == m.key.digest)
    && (forall k :: k in n.quarantinedObjects ==> n.quarantinedObjects[k] == k.digest)
  }

  /** Until its caller knows of the commit, an upload keeps its sealed marker. */
  ghost predicate Uploads(n: Namespace, uploads: seq<Upload>, next: nat) {
    && (forall i :: 0 <= i < |uploads| ==> uploads[i].identity < next)
    && (forall i :: 0 <= i < |uploads| && !uploads[i].committed ==> Holds(n.stage, uploads[i].marker, uploads[i].identity))
    && (forall i, j :: 0 <= i < j < |uploads| ==> uploads[i].identity != uploads[j].identity)
  }

  ghost predicate Recoverable(n: Namespace, referenced: set<Key>) {
    forall k :: k in referenced ==> GoodObject(n, k) || Marked(n, k)
  }

  ghost predicate Undamaged(n: Namespace, referenced: set<Key>, uploads: seq<Upload>, damaged: set<Key>) {
    && (forall k :: k in n.objects && k !in damaged ==> n.objects[k] == k.digest)
    && (forall k :: k in referenced && k !in damaged ==> k in n.objects)
    && (forall i :: 0 <= i < |uploads| && uploads[i].finalized && uploads[i].marker.key !in damaged ==>
          uploads[i].marker.key in n.objects)
    && (forall i :: 0 <= i < |uploads| && uploads[i].committed ==> uploads[i].marker.key in referenced)
  }

  /** What a successful cleanup leaves behind. */
  predicate Settled(n: Namespace, referenced: set<Key>, m: Marker, fromStaging: bool) {
    && (m.key in n.objects <==> m.key in referenced) && (m.key in n.objects ==> GoodObject(n, m.key))
    && m !in n.quarantinedStage && (fromStaging ==> m !in n.stage)
  }

  /** The rest of the job is what a fresh look at the namespace would decide. */
  ghost predicate OnCourse(n: Namespace, referenced: set<Key>, uploads: seq<Upload>, j: Job) {
    var k := j.marker.key;
    if j.kind == Idle then j.changes == []
    else if !j.ok then j.changes == [] || (j.changes == [QuarantineMismatch(k)] && !GoodObject(n, k))
    else
      match j.kind
      case Idle => true
      case Finalizing =>
        && j.upload < |uploads| && uploads[j.upload].marker == j.marker
        && ((j.changes == [] && GoodObject(n, k)) || (j.changes == [Publish(k, k.digest)] && k !in n.objects))
      case Acknowledging =>
        && GoodObject(n, k)
        && j.upload < |uploads| && uploads[j.upload].committed && uploads[j.upload].identity == j.identity
        && (j.changes == [] || j.changes == [DeleteStage(j.marker)] ||
            (j.changes == [MoveStage(j.marker), DeleteStage(j.marker)] && Holds(n.stage, j.marker, j.identity)))
      case Cleaning =>
        && uploads == []
        && (j.fromStaging && !j.inStaging ==> j.marker !in n.stage)
        && ((j.changes == [] && Settled(n, referenced, j.marker, j.fromStaging)) ||
            Plan(j.changes, true) == CleanupPlan(n, k in referenced, j.marker, j.identity, j.inStaging))
  }

  ghost predicate Inv(s: Sys) {
    && Intact(s.names, s.nextIdentity)
    && Uploads(s.names, s.uploads, s.nextIdentity)
    && Recoverable(s.names, s.referenced)
    && Undamaged(s.names, s.referenced, s.uploads, s.damaged)
    && OnCourse(s.names, s.referenced, s.uploads, s.job)
    && (s.job.kind == Cleaning ==> s.uploads == [])
  }

  // ------------------------------------------------ every step keeps it

  lemma StageKeepsInv(s: Sys, k: Key, nonce: nat)
    requires Inv(s) && Enabled(s, Stage(k, nonce))
    ensures Inv(Apply(s, Stage(k, nonce)))
  {
    var t := Apply(s, Stage(k, nonce));
    forall r | r in t.referenced
      ensures GoodObject(t.names, r) || Marked(t.names, r)
    {
      if !GoodObject(s.names, r) {
        var m: Marker :| m.key == r && (m in s.names.stage || m in s.names.quarantinedStage);
        assert m in t.names.stage || m in t.names.quarantinedStage;
      }
    }
  }

  lemma BeginKeepsInv(s: Sys, a: Action)
    requires Inv(s) && Enabled(s, a) && (a.BeginFinalize? || a.BeginAcknowledge? || a.BeginCleanup?)
    ensures Inv(Apply(s, a))
  {
  }

  lemma CommitKeepsInv(s: Sys, i: nat, known: bool)
    requires Inv(s) && Enabled(s, Commit(i, known))
    ensures Inv(Apply(s, Commit(i, known)))
  {
  }

  lemma EndKeepsInv(s: Sys, a: Action)
    requires Inv(s) && Enabled(s, a) && (a.Finish? || a.Fail? || a.Crash?)
    ensures Inv(Apply(s, a))
  {
  }

  lemma DamageKeepsInv(s: Sys, k: Key, becomes: Option<Digest>)
    requires Inv(s) && Enabled(s, Damage(k, becomes))
    ensures Inv(Apply(s, Damage(k, becomes)))
  {
  }

  lemma MismatchKeepsInv(s: Sys)
    requires Inv(s) && Enabled(s, Advance) && !s.job.ok
    ensures Inv(Apply(s, Advance))
  {
  }

  lemma FinalizeKeepsInv(s: Sys)
    requires Inv(s) && Enabled(s, Advance) && s.job.ok && s.job.kind == Finalizing
    ensures Inv(Apply(s, Advance))
  {
  }

  lemma AcknowledgeKeepsInv(s: Sys)
    requires Inv(s) && Enabled(s, Advance) && s.job.ok && s.job.kind == Acknowledging
    ensures Inv(Apply(s, Advance))
  {
    var n := Apply(s, Advance).names;
    forall k | k in s.referenced
      ensures GoodObject(n, k) || Marked(n, k)
    {
      KeepsRecoverable(s.names, s.job.changes[0], k);
    }
  }

  /** A change keeps a key's object or marker unless it takes that very object or deletes that very marker. */
  lemma KeepsRecoverable(n: Namespace, c: Change, k: Key)
    requires Carry(n, c).Some? && (GoodObject(n, k) || Marked(n, k))
    requires c.MoveObject? || c.QuarantineMismatch? ==> c.key != k
    requires c.RestoreObject? && c.key == k ==> n.quarantinedObjects[k] == k.digest
    requires c.Publish? && c.key == k ==> c.digest == k.digest
    requires c.DeleteStage? && c.marker.key == k ==> GoodObject(n, k)
    ensures GoodObject(Carry(n, c).value, k) || Marked(Carry(n, c).value, k)
  {
    var t := Carry(n, c).value;
    if !GoodObject(n, k) {
      var m: Marker :| m.key == k && (m in n.stage || m in n.quarantinedStage);
      assert m in t.stage || m in t.quarantinedStage;
    }
  }

  lemma CleanupCourse(s: Sys)
    requires Inv(s) && Enabled(s, Advance) && s.job.ok && s.job.kind == Cleaning
    ensures OnCourse(Apply(s, Advance).names, s.referenced, [], Apply(s, Advance).job)
  {
    var j := s.job;
    var referenced := j.marker.key in s.referenced;
    assert Plan(j.changes, true) == CleanupPlan(s.names, referenced, j.marker, j.identity, j.inStaging);
    if |j.changes| > 1 {
      CleanupResumes(s.names, referenced, j.marker, j.identity, j.inStaging);
      CleanupTouchesItsOwn(s.names, referenced, j.marker, j.identity, j.inStaging);
    } else {
      assert j.changes == [DeleteStage(j.marker)] && j.changes[1..] == [];
    }
  }

  /** A cleanup changes only entries of its own key, takes an object only if unreferenced, and drops its marker last. */
  lemma CleanupTouchesItsOwn(n: Namespace, referenced: bool, m: Marker, identity: nat, inStaging: bool)
    requires CleanupPlan(n, referenced, m, identity, inStaging).ok
    ensures var c := CleanupPlan(n, referenced, m, identity, inStaging).changes[0];
            && (c.MoveStage? || c.DeleteStage? ==> c.marker == m && m.key !in n.quarantinedObjects - n.objects.Keys)
            && (c.MoveStage? || c.DeleteStage? ==> (m.key in n.objects <==> referenced))
            && (c.Publish? ==> c.key == m.key && c.digest == m.key.digest)
            && (c.MoveObject? ==> c.key == m.key && !referenced)
            && (c.RestoreObject? || c.DeleteObject? ==> c.key == m.key && n.quarantinedObjects[m.key] == m.key.digest)
            && !c.QuarantineMismatch?
  {
  }

  lemma CleanupKeepsInv(s: Sys)
    requires Inv(s) && Enabled(s, Advance) && s.job.ok && s.job.kind == Cleaning
    ensures Inv(Apply(s, Advance))
  {
    CleanupCourse(s);
    var j := s.job;
    var t := Apply(s, Advance);
    CleanupTouchesItsOwn(s.names, j.marker.key in s.referenced, j.marker, j.identity, j.inStaging);
    forall k | k in s.referenced
      ensures GoodObject(t.names, k) || Marked(t.names, k)
    {
      KeepsRecoverable(s.names, j.changes[0], k);
    }
  }

  lemma StepKeepsInv(s: Sys, a: Action)
    requires Inv(s) && Enabled(s, a)
    ensures Inv(Apply(s, a))
  {
    hide Inv, Apply;
    match a
    case Stage(k, nonce) => StageKeepsInv(s, k, nonce);
    case Commit(i, known) => CommitKeepsInv(s, i, known);
    case Damage(k, becomes) => DamageKeepsInv(s, k, becomes);
    case Advance => AdvanceKeepsInv(s);
    case Finish => EndKeepsInv(s, a);
    case Fail => EndKeepsInv(s, a);
    case Crash => EndKeepsInv(s, a);
    case _ => BeginKeepsInv(s, a);
  }

  lemma AdvanceKeepsInv(s: Sys)
    requires Inv(s) && Enabled(s, Advance)
    ensures Inv(Apply(s, Advance))
  {
    assert s.job.kind != Idle;
    hide Inv, Apply, Enabled;
    if !s.job.ok {
      MismatchKeepsInv(s);
    } else {
      match s.job.kind
      case Finalizing => FinalizeKeepsInv(s);
      case Acknowledging => AcknowledgeKeepsInv(s);
      case Cleaning => CleanupKeepsInv(s);
    }
  }

  // -------------------------------------------------------------- theorems

  ghost predicate Reaches(from: Sys, run: seq<Action>, to: Sys)
    decreases |run|
  {
    if run == [] then from == to
    else Enabled(from, run[0]) && Reaches(Apply(from, run[0]), run[1..], to)
  }

  lemma {:induction false} RunKeepsInv(from: Sys, run: seq<Action>, to: Sys)
    requires Inv(from) && Reaches(from, run, to)
    ensures Inv(to)
    decreases |run|
  {
    if run != [] {
      StepKeepsInv(from, run[0]);
      RunKeepsInv(Apply(from, run[0]), run[1..], to);
    }
  }

  /**
   In every run, at every moment and across every crash: each referenced key has
   its verified object or a sealed marker with the right bytes, and an object that
   nobody outside touched is there in full as long as it is referenced.
   */
  lemma ReferencedContentSurvives(run: seq<Action>, s: Sys, k: Key)
    requires Reaches(Empty(), run, s) && k in s.referenced
    ensures GoodObject(s.names, k) || Marked(s.names, k)
    ensures k !in s.damaged ==> GoodObject(s.names, k)
    ensures forall m :: m in s.names.stage ==> s.names.stage[m].digest == m.key.digest
    ensures forall m :: m in s.names.quarantinedStage ==> s.names.quarantinedStage[m].digest == m.key.digest
  {
    RunKeepsInv(Empty(), run, s);
  }

  /** A cleanup that reports success leaves the object present, and whole, exactly when it is referenced. */
  lemma CleanupIsExact(run: seq<Action>, s: Sys)
    requires Reaches(Empty(), run, s) && s.job.kind == Cleaning && s.job.ok && Enabled(s, Finish)
    ensures s.job.marker.key in s.names.objects <==> s.job.marker.key in s.referenced
    ensures s.job.marker.key in s.referenced ==> GoodObject(s.names, s.job.marker.key)
    ensures s.job.marker !in s.names.quarantinedStage && (s.job.fromStaging ==> s.job.marker !in s.names.stage)
  {
    RunKeepsInv(Empty(), run, s);
  }

  // ------------------------------------------------------ building runs

  lemma {:induction false} Extend(from: Sys, run: seq<Action>, mid: Sys, a: Action)
    requires Reaches(from, run, mid) && Enabled(mid, a)
    ensures Reaches(from, run + [a], Apply(mid, a))
    decreases |run|
  {
    if run == [] {
      assert [a][1..] == [] && Reaches(Apply(mid, a), [], Apply(mid, a));
    } else {
      Extend(Apply(from, run[0]), run[1..], mid, a);
      assert (run + [a])[1..] == run[1..] + [a];
    }
  }

  lemma StaysPut(s: Sys)
    ensures Reaches(s, [], s)
  {
  }

  lemma Follow(from: Sys, run: seq<Action>, s: Sys, a: Action) returns (longer: seq<Action>, t: Sys)
    requires Reaches(from, run, s) && Enabled(s, a)
    ensures Reaches(from, longer, t) && t == Apply(s, a)
  {
    Extend(from, run, s, a);
    longer, t := run + [a], Apply(s, a);
  }

  // ------------------------------------------------ an upload goes through

  lemma UploadFinalizes(s: Sys, m: Marker) returns (run: seq<Action>, t: Sys)
    requires s.job == NO_JOB && m !in s.names.stage && (m.key in s.names.objects ==> GoodObject(s.names, m.key))
    ensures Reaches(s, run, t)
    ensures t == s.(nextIdentity := s.nextIdentity + 1,
                    names := s.names.(stage := s.names.stage[m := File(m.key.digest, s.nextIdentity)],
                                      objects := s.names.objects[m.key := m.key.digest]),
                    uploads := s.uploads + [Upload(m, s.nextIdentity, true, false)])
  {
    StaysPut(s);
    hide Reaches;
    var i := |s.uploads|;
    run, t := Follow(s, [], s, Stage(m.key, m.nonce));
    run, t := Follow(s, run, t, BeginFinalize(i));
    if m.key !in s.names.objects {
      run, t := Follow(s, run, t, Advance);
    } else {
      assert s.names.objects[m.key := m.key.digest] == s.names.objects;
    }
    run, t := Follow(s, run, t, Finish);
    assert t.uploads == s.uploads + [Upload(m, s.nextIdentity, true, false)];
  }

  lemma UploadCommits(from: Sys, before: seq<Action>, s: Sys, i: nat) returns (run: seq<Action>, t: Sys)
    requires Reaches(from, before, s) && s.job == NO_JOB && i < |s.uploads| && s.uploads[i].finalized
    requires var u := s.uploads[i];
             GoodObject(s.names, u.marker.key) && Holds(s.names.stage, u.marker, u.identity) && u.marker !in s.names.quarantinedStage
    ensures Reaches(from, run, t) && t.job == NO_JOB
    ensures var m := s.uploads[i].marker;
            t.referenced == s.referenced + {m.key} && t.names == s.names.(stage := s.names.stage - {m})
  {
    hide Reaches;
    var m := s.uploads[i].marker;
    run, t := Follow(from, before, s, Commit(i, true));
    run, t := Follow(from, run, t, BeginAcknowledge(i));
    assert t.job.changes == [MoveStage(m), DeleteStage(m)] && t.job.changes[1..] == [DeleteStage(m)];
    run, t := Follow(from, run, t, Advance);
    run, t := Follow(from, run, t, Advance);
    run, t := Follow(from, run, t, Finish);
    assert t.names.quarantinedStage == s.names.quarantinedStage;
  }

  /** From any state without a running job an upload under a fresh name, to a free place or a good object, ends referenced and without a marker. */
  lemma UploadGoesThrough(s: Sys, m: Marker) returns (run: seq<Action>, t: Sys)
    requires s.job == NO_JOB && m !in s.names.stage && m !in s.names.quarantinedStage
    requires m.key in s.names.objects ==> GoodObject(s.names, m.key)
    ensures Reaches(s, run, t) && t.job == NO_JOB
    ensures t.referenced == s.referenced + {m.key}
    ensures t.names == s.names.(objects := s.names.objects[m.key := m.key.digest])
  {
    run, t := UploadFinalizes(s, m);
    run, t := UploadCommits(s, run, t, |s.uploads|);
    assert s.names.stage[m := File(m.key.digest, s.nextIdentity)] - {m} == s.names.stage;
  }

  // --------------------------------------------- what recovery brings back

  /** After a crash a mismatching object of a referenced key can be set aside, so that its place is free. */
  lemma PlaceIsFreed(s: Sys, m: Marker) returns (run: seq<Action>, t: Sys)
    requires Inv(s) && s.job == NO_JOB && s.uploads == [] && !GoodObject(s.names, m.key)
    requires m in s.names.stage || m in s.names.quarantinedStage
    ensures Reaches(s, run, t) && t.job == NO_JOB && t.uploads == [] && m.key !in t.names.objects
    ensures t.names.stage == s.names.stage && t.names.quarantinedStage == s.names.quarantinedStage
    ensures t.names.quarantinedObjects == s.names.quarantinedObjects && t.referenced == s.referenced
  {
    assert Intact(s.names, s.nextIdentity);
    hide Inv, Reaches;
    run, t := [], s;
    assert Reaches(s, [], s) by {
      StaysPut(s);
    }
    if m.key in s.names.objects {
      var inStaging := m !in s.names.quarantinedStage;
      var file := if inStaging then s.names.stage[m] else s.names.quarantinedStage[m];
      run, t := Follow(s, run, t, BeginCleanup(m, file.identity, inStaging));
      run, t := Follow(s, run, t, Advance);
      run, t := Follow(s, run, t, Finish);
    }
  }

  lemma MarkerRestores(from: Sys, before: seq<Action>, s: Sys, m: Marker) returns (run: seq<Action>, t: Sys)
    requires Reaches(from, before, s) && s.job == NO_JOB && s.uploads == [] && Intact(s.names, s.nextIdentity)
    requires m.key in s.referenced && m.key !in s.names.objects && (m in s.names.stage || m in s.names.quarantinedStage)
    ensures Reaches(from, run, t) && GoodObject(t.names, m.key) && t.referenced == s.referenced
  {
    hide Reaches;
    var inStaging := m !in s.names.quarantinedStage;
    var file := if inStaging then s.names.stage[m] else s.names.quarantinedStage[m];
    run, t := Follow(from, before, s, BeginCleanup(m, file.identity, inStaging));
    run, t := Follow(from, run, t, Advance);
  }

  /**
   Recovery always can bring referenced content back: from every reachable state,
   whatever was lost or damaged, a restart and a recovery lead to the whole object.
   */
  lemma RecoveryRestores(prefix: seq<Action>, s: Sys, k: Key) returns (run: seq<Action>, t: Sys)
    requires Reaches(Empty(), prefix, s) && k in s.referenced
    ensures Reaches(s, run, t) && GoodObject(t.names, k) && k in t.referenced
  {
    RunKeepsInv(Empty(), prefix, s);
    run, t := Follow(s, [], s, Crash);
    var crashed := t;
    StepKeepsInv(s, Crash);
    if !GoodObject(t.names, k) {
      assert Recoverable(t.names, t.referenced);
      var m: Marker :| m.key == k && (m in t.names.stage || m in t.names.quarantinedStage);
      var freeing, freed := PlaceIsFreed(t, m);
      RunKeepsInv(crashed, freeing, freed);
      assert Intact(freed.names, freed.nextIdentity);
      Join(s, run, crashed, freeing, freed);
      run, t := MarkerRestores(s, run + freeing, freed, m);
    }
  }

  lemma {:induction false} Join(from: Sys, run: seq<Action>, mid: Sys, rest: seq<Action>, to: Sys)
    requires Reaches(from, run, mid) && Reaches(mid, rest, to)
    ensures Reaches(from, run + rest, to)
    decreases |run|
  {
    if run == [] {
      assert run + rest == rest;
    } else {
      Join(Apply(from, run[0]), run[1..], mid, rest, to);
      assert (run + rest)[1..] == run[1..] + rest;
    }
  }

  // ------------------------------------------ a run that leaves a twin

  /** An upload is published and the process dies before its reference is committed. */
  lemma PublishAndCrash(before: seq<Action>, s: Sys, m: Marker) returns (run: seq<Action>, t: Sys)
    requires Reaches(Empty(), before, s) && s.job == NO_JOB && s.uploads == []
    requires m !in s.names.stage && m.key !in s.names.objects
    ensures Reaches(Empty(), run, t)
    ensures t == s.(nextIdentity := s.nextIdentity + 1,
                    names := s.names.(stage := s.names.stage[m := File(m.key.digest, s.nextIdentity)],
                                      objects := s.names.objects[m.key := m.key.digest]))
  {
    hide Reaches;
    run, t := Follow(Empty(), before, s, Stage(m.key, m.nonce));
    run, t := Follow(Empty(), run, t, BeginFinalize(0));
    run, t := Follow(Empty(), run, t, Advance);
    run, t := Follow(Empty(), run, t, Crash);
  }

  /** A recovery has quarantined the object of its orphan when the process dies. */
  lemma QuarantineAndCrash(before: seq<Action>, s: Sys, m: Marker) returns (run: seq<Action>, t: Sys)
    requires Reaches(Empty(), before, s) && s.job == NO_JOB && s.uploads == [] && m.key !in s.referenced
    requires m in s.names.stage && s.names.stage[m].digest == m.key.digest
    requires GoodObject(s.names, m.key) && m.key !in s.names.quarantinedObjects
    ensures Reaches(Empty(), run, t)
    ensures t == s.(names := s.names.(objects := s.names.objects - {m.key},
                                      quarantinedObjects := s.names.quarantinedObjects[m.key := m.key.digest]))
  {
    hide Reaches;
    run, t := Follow(Empty(), before, s, BeginCleanup(m, s.names.stage[m].identity, true));
    run, t := Follow(Empty(), run, t, Advance);
    run, t := Follow(Empty(), run, t, Crash);
  }

  /**
   The twin that stops a cleanup does occur: an unreferenced upload, a recovery
   that died half-way, and the same content uploaded anew before recovery ran
   again. Recovering that marker then fails on every attempt.
   */
  lemma TwinIsReachable(k: Key) returns (run: seq<Action>, s: Sys, m: Marker)
    ensures Reaches(Empty(), run, s) && s.job == NO_JOB && s.uploads == [] && k !in s.referenced
    ensures m.key == k && m in s.names.stage && k in s.names.objects && k in s.names.quarantinedObjects
    ensures var p := CleanupPlan(s.names, false, m, s.names.stage[m].identity, true);
            p.ok && !Completes(s.names, p.changes)
  {
    var first := Marker(k, 0);
    m := Marker(k, 1);
    run, s := PublishAndCrash([], Empty(), first);
    run, s := QuarantineAndCrash(run, s, first);
    run, s := PublishAndCrash(run, s, m);
    hide Reaches, Completes;
    CleanupCompletesExactly(s.names, false, m, s.names.stage[m].identity, true);
  }
}

/** The store's directories, changed in place. `left` is how many changes happen before the process dies. */
module BlobDirectories {
  import opened Common
  import opened BlobNamespace

  lemma PerformFirst(n: Namespace, c: Change, rest: seq<Change>, budget: nat)
    ensures Perform(n, [c] + rest, budget)
            == if budget > 0 && Carry(n, c).Some? then Perform(Carry(n, c).value, rest, budget - 1) else n
    ensures Completes(n, [c] + rest) <==> Carry(n, c).Some? && Completes(Carry(n, c).value, rest)
  {
    assert ([c] + rest)[1..] == rest;
  }

  lemma PerformNothing()
    ensures forall n, budget :: Perform(n, [], budget) == n
  {
  }

  class FileStore {
    var stage: map<Marker, File>
    var quarantinedStage: map<Marker, File>
    var objects: map<Key, Digest>
    var quarantinedObjects: map<Key, Digest>
    var evidence: seq<(Key, Digest)>
    var left: nat

    ghost function Names(): Namespace
      reads this
    {
      Namespace(stage, quarantinedStage, objects, quarantinedObjects, evidence)
    }

    /** One directory change; nothing happens after a crash or when the change is refused. */
    method Change(c: Change) returns (done: bool)
      modifies this
      ensures done == (old(left) > 0 && Carry(old(Names()), c).Some?)
      ensures Names() == (if done then Carry(old(Names()), c).value else old(Names()))
      ensures left == old(left) - if done then 1 else 0
    {
      if left == 0 {
        return false;
      }
      match c {
        case Publish(k, d) =>
          if k in objects { return false; }
          objects := objects[k := d];
        case QuarantineMismatch(k) =>
          if k !in objects { return false; }
          evidence, objects := evidence + [(k, objects[k])], objects - {k};
        case MoveStage(m) =>
          if m !in stage || m in quarantinedStage { return false; }
          quarantinedStage, stage := quarantinedStage[m := stage[m]], stage - {m};
        case DeleteStage(m) =>
          if m !in quarantinedStage { return false; }
          quarantinedStage := quarantinedStage - {m};
        case RestoreObject(k) =>
          if k !in quarantinedObjects || k in objects { return false; }
          objects, quarantinedObjects := objects[k := quarantinedObjects[k]], quarantinedObjects - {k};
        case MoveObject(k) =>
          if k !in objects || k in quarantinedObjects { return false; }
          quarantinedObjects, objects := quarantinedObjects[k := objects[k]], objects - {k};
        case DeleteObject(k) =>
          if k !in quarantinedObjects { return false; }
          quarantinedObjects := quarantinedObjects - {k};
      }
      left := left - 1;
      return true;
    }

    method RemoveOrphanMarker(m: Marker, inStaging: bool) returns (done: bool)
      modifies this
      ensures Names() == Perform(old(Names()), RemoveMarker(m, inStaging), old(left))
      ensures done <==> Completes(old(Names()), RemoveMarker(m, inStaging)) && old(left) >= |RemoveMarker(m, inStaging)|
    {
      PerformFirst(Names(), MoveStage(m), [DeleteStage(m)], left);
      PerformFirst(Names(), DeleteStage(m), [], left);
      assert [DeleteStage(m)] + [] == [DeleteStage(m)] == RemoveMarker(m, false);
      assert RemoveMarker(m, true) == [MoveStage(m)] + [DeleteStage(m)];
      if inStaging {
        done := Change(MoveStage(m));
        if !done {
          return;
        }
        assert [DeleteStage(m)][1..] == [] && RemoveMarker(m, true)[1..] == [DeleteStage(m)];
        PerformFirst(Names(), DeleteStage(m), [], left);
      }
      done := Change(DeleteStage(m));
    }

    /** Recovery of a sealed orphan; `referenced` is the authoritative answer of the reference checker. */
    method CleanupOrphan(m: Marker, identity: nat, inStaging: bool, referenced: bool) returns (done: bool)
      modifies this
      ensures var p := CleanupPlan(old(Names()), referenced, m, identity, inStaging);
              && Names() == Perform(old(Names()), p.changes, old(left))
              && (done <==> p.ok && Completes(old(Names()), p.changes) && old(left) >= |p.changes|)
    {
      hide Carry, Perform, Completes;
      PerformNothing();
      ghost var names, budget := Names(), left;
      ghost var last := RemoveMarker(m, inStaging);
      ghost var p := CleanupPlan(names, referenced, m, identity, inStaging);
      var k := m.key;
      var directory := if inStaging then stage else quarantinedStage;
      if !Holds(directory, m, identity) {
        return false;
      }
      if k !in objects && k in quarantinedObjects {
        if quarantinedObjects[k] != k.digest {
          return false;
        }
        if referenced {
          done := Change(RestoreObject(k));
          PerformFirst(names, RestoreObject(k), last, budget);
        } else {
          done := Change(DeleteObject(k));
          PerformFirst(names, DeleteObject(k), last, budget);
        }
        if !done {
          return;
        }
        assert p.changes[1..] == last;
      } else if k !in objects && referenced {
        done := Change(Publish(k, directory[m].digest));
        PerformFirst(names, Publish(k, k.digest), last, budget);
        if !done {
          return;
        }
        assert p.changes[1..] == last;
      } else if k in objects && objects[k] != k.digest {
        done := Change(QuarantineMismatch(k));
        PerformFirst(names, QuarantineMismatch(k), [], budget);
        assert [QuarantineMismatch(k)] + [] == p.changes;
        return false;
      } else if k in objects && !referenced {
        assert p.changes == [MoveObject(k)] + ([DeleteObject(k)] + last);
        PerformFirst(names, MoveObject(k), [DeleteObject(k)] + last, budget);
        done := Change(MoveObject(k));
        if !done {
          return;
        }
        PerformFirst(Names(), DeleteObject(k), last, left);
        assert p.changes[1..] == [DeleteObject(k)] + last && p.changes[1..][1..] == last;
        done := Change(DeleteObject(k));
        if !done {
          return;
        }
      }
      done := RemoveOrphanMarker(m, inStaging);
    }

    method Finalize(m: Marker, identity: nat) returns (done: bool)
      modifies this
      ensures var p := FinalizePlan(old(Names()), m, identity);
              && Names() == Perform(old(Names()), p.changes, old(left))
              && (done <==> p.ok && Completes(old(Names()), p.changes) && old(left) >= |p.changes|)
    {
      if !Holds(stage, m, identity) {
        return false;
      }
      if m.key in objects {
        if objects[m.key] == m.key.digest {
          return true;
        }
        PerformFirst(Names(), QuarantineMismatch(m.key), [], left);
        assert [QuarantineMismatch(m.key)] + [] == [QuarantineMismatch(m.key)];
        done := Change(QuarantineMismatch(m.key));
        return false;
      }
      PerformFirst(Names(), Publish(m.key, stage[m].digest), [], left);
      assert [Publish(m.key, stage[m].digest)] + [] == [Publish(m.key, stage[m].digest)];
      done := Change(Publish(m.key, stage[m].digest));
    }

    method Acknowledge(m: Marker, identity: nat) returns (done: bool)
      modifies this
      ensures var p := AcknowledgePlan(old(Names()), m, identity);
              && Names() == Perform(old(Names()), p.changes, old(left))
              && (done <==> p.ok && Completes(old(Names()), p.changes) && old(left) >= |p.changes|)
    {
      if m.key !in objects {
        return false;
      }
      if objects[m.key] != m.key.digest {
        PerformFirst(Names(), QuarantineMismatch(m.key), [], left);
        assert [QuarantineMismatch(m.key)] + [] == [QuarantineMismatch(m.key)];
        done := Change(QuarantineMismatch(m.key));
        return false;
      }
      if m in quarantinedStage {
        if !Holds(quarantinedStage, m, identity) {
          return false;
        }
        done := RemoveOrphanMarker(m, false);
        return;
      }
      if m !in stage {
        return true;
      }
      if !Holds(stage, m, identity) {
        return false;
      }
      assert RemoveMarker(m, true) == [MoveStage(m), DeleteStage(m)];
      done := RemoveOrphanMarker(m, true);
    }
  }
}
