/**
 One resident's landing lock under all interleavings of user ingress, provider
 leases, background mutations, dialogue scans, resident selection and archive.
 Every lock-protected block is one step. Unlocked threads hold only values they
 read earlier (captured epochs, leases), so those values stand for the threads.
 Counters and the commit log are history: no decision reads them.
 */
module LandingProtocol {
  import opened Common
  import opened Admission

  /** An epoch some thread has read, with the number of ingress submissions begun by then. */
  datatype Capture = Capture(epoch: nat, ingress: nat)

  datatype Lease = Lease(id: CallId, epoch: nat, ingress: nat, boundaries: nat)

  datatype Status = Draft | Active | Archived

  /** Who holds the resident's landing lock, and how far it has come. */
  datatype Holder =
    | Unlocked
    | IngressEntered
    | IngressUnfenced
    | IngressSelected
    | IngressSubmitting
    | IngressBumped
    | MutationEntered(capture: Capture, requireClean: bool)
    | MutationSelected(capture: Capture, requireClean: bool)
    | MutationRegistered(lease: Lease, requireClean: bool, provenIngress: nat)
    | MutationDone
    | LandingEntered(lease: Lease)
    | LandingUnfenced(lease: Lease)
    | LandingSelected(lease: Lease)
    | LandingDone
    | BoundaryHolds

  datatype Stage = Fenced | Locked | Changed | Settled

  datatype BoundaryKind = Idle | Selecting | Archiving

  /** The lifecycle boundary in progress; `covered` says that this resident is among its targets. */
  datatype Boundary = Boundary(
    kind: BoundaryKind,
    stage: Stage,
    forR: bool,             // a selection of this resident
    previousKnown: bool,    // the former selection was resolved
    covered: bool,
    wasBlocked: bool,
    reported: bool          // the durable change came back without an error
  )

  const NO_BOUNDARY := Boundary(Idle, Settled, false, true, false, false, false)

  /** A dialogue scan cycle: its fixed epoch, its cursor, and the ingress count when the epoch was read. */
  datatype Cycle = Cycle(epoch: nat, before: Option<nat>, ingress: nat)

  datatype DialogueResult = DialogueResult(found: bool, next: Option<nat>, cycleComplete: bool)

  /** One durable commit on the landing-lock path, with the facts that held at that moment. */
  datatype Commit =
    | IngressCommit(selected: bool, status: Status)
    | MutationCommit(selected: bool, status: Status, ingressSinceCapture: nat,
                     requireClean: bool, ingressSinceProof: nat, unfinished: set<nat>)
    | LandingCommit(selected: bool, status: Status, ingressSinceCapture: nat, boundariesSinceLease: nat)

  datatype Sys = Sys(
    adm: Standing,
    selectionBlocked: bool,
    preempted: set<CallId>,   // calls whose context ended with the preemption cause
    nextCall: CallId,
    inWork: bool,             // the resident has an entry in the serialized worker map
    selected: bool,           // durable
    status: Status,           // durable
    holder: Holder,
    boundary: Boundary,
    captures: set<Capture>,
    leases: set<Lease>,
    cycle: Option<Cycle>,
    recording: bool,          // the scan has ended clean and is about to record
    submitted: nat,           // ingress submissions begun
    committed: nat,           // user events durable; their ordinals are 0..committed-1
    unfinished: set<nat>,     // user events whose dialogue is not terminal
    cleanIngress: nat,        // `ingress` of the cycle whose proof was recorded last
    boundaries: nat,          // boundaries targeting the resident that have passed their durable change
    uncovered: bool,          // some boundary left the resident out while it was selected
    unknownSelection: bool,   // a selection ended without an authoritative result and none has resolved since
    unknownArchive: bool,     // an archive of the resident did, and neither one nor a selection of it has resolved since
    log: seq<Commit>
  )

  /** A fresh process over any durable state; the store selects active residents and unselects one that it archives. */
  ghost predicate Initial(s: Sys) {
    && s.adm == Fresh() && !s.selectionBlocked && s.preempted == {} && s.nextCall == 0 && !s.inWork
    && s.holder == Unlocked && s.boundary.kind == Idle && s.captures == {} && s.leases == {}
    && s.cycle == None && !s.recording
    && (s.selected ==> s.status == Active)
    && s.submitted == 0 && s.cleanIngress == 0 && s.boundaries == 0
    && (forall e :: e in s.unfinished ==> e < s.committed)
    && !s.uncovered && !s.unknownSelection && !s.unknownArchive && s.log == []
  }

  /** One user ingress, from taking the landing lock to advancing the epoch. */
  datatype IngressStep =
    | EnterIngress
    | CheckIngressFence
    | CheckIngressSelection(readOk: bool)
    | SubmitIngress
    | CommitIngress
    | BumpEpoch

  /** Worker threads outside the lock: work entries, captured epochs and provider calls. */
  datatype WorkerStep =
    | EnterWork
    | CaptureEpoch
    | BeginCall(capture: Capture, requireClean: bool)
    | EndCall(id: CallId)

  /** A background mutation that begins its provider call inside the lock. */
  datatype MutationStep =
    | EnterMutation(capture: Capture, requireClean: bool)
    | CheckMutationSelection(readOk: bool)
    | RegisterMutation
    | CommitMutation

  /** The landing of a provider result. */
  datatype LandingStep =
    | EnterLanding(lease: Lease)
    | CheckLandingFence
    | CheckLandingSelection(readOk: bool)
    | CommitLanding

  /** Resident selection and archive. */
  datatype LifecycleStep =
    | BeginSelection(forR: bool, previousKnown: bool)
    | BeginArchive
    | LockBoundary
    | ChangeSelection(durable: bool, reported: bool)
    | ChangeArchive(durable: bool, reported: bool)
    | SettleSelection(reread: bool)
    | SettleArchive(reread: bool)
    | EndBoundary
    | Activate

  datatype DialogueStep =
    | StartCycle
    | DiscoverDialogue(result: DialogueResult)
    | RecordCycle
    | FinishDialogue(done: set<nat>)

  datatype Action =
    | Ingress(ingress: IngressStep)
    | Worker(worker: WorkerStep)
    | Mutation(mutation: MutationStep)
    | Landing(landing: LandingStep)
    | Lifecycle(lifecycle: LifecycleStep)
    | Dialogue(dialogue: DialogueStep)
    | LeaveLock

  predicate InWindow(s: Sys) {
    s.holder == IngressSubmitting
  }

  predicate Eligible(s: Sys) {
    s.selected && s.status == Active
  }

  predicate FencedOff(s: Sys) {
    s.selectionBlocked || s.adm.blocked
  }

  /** Is this resident among the targets of a selection? */
  predicate Covers(s: Sys, forR: bool, previousKnown: bool) {
    forR || (if previousKnown then s.selected else s.inWork || s.adm.call.Some?)
  }

  // ------------------------------------------------- dialogue discovery

  const RECENT_CANDIDATES: nat := 128

  /** The oldest ordinal inside the recent window that every pass re-reads. */
  function RecentLow(committed: nat): nat {
    if committed < RECENT_CANDIDATES then 0 else committed - RECENT_CANDIDATES
  }

  function ScanStart(before: Option<nat>, committed: nat): nat {
    if before.Some? && before.value < RecentLow(committed) then before.value else RecentLow(committed)
  }

  ghost predicate NoneWithin(unfinished: set<nat>, low: nat, high: nat) {
    forall e :: e in unfinished && low <= e < high ==> false
  }

  /**
   The repository's promise about one bounded pass: a pass that returns no
   unfinished work found the recent window finished, a next cursor never skips
   unfinished history, and a quiet completed pass found the rest finished.
   */
  ghost predicate DialogueContract(s: Sys, before: Option<nat>, d: DialogueResult) {
    var start := ScanStart(before, s.committed);
    && (!d.found ==> NoneWithin(s.unfinished, RecentLow(s.committed), s.committed))
    && (d.next.Some? ==> d.next.value <= start && NoneWithin(s.unfinished, d.next.value, start))
    && (d.cycleComplete && !d.found ==> NoneWithin(s.unfinished, 0, start))
  }

  // ----------------------------------------------------------- the steps

  ghost predicate Enabled(s: Sys, a: Action) {
    match a
    // The ingress transaction itself requires a selected and active resident.
    case Ingress(i) => s.holder == IngressBefore(i) && (i == CommitIngress ==> Eligible(s))
    case Worker(w) => w.BeginCall? ==> w.capture in s.captures
    case Mutation(m) => MutationEnabled(s, m)
    case Landing(l) => LandingEnabled(s, l)
    case Lifecycle(l) => LifecycleEnabled(s, l)
    case Dialogue(d) => DialogueEnabled(s, d)
    // An ingress that reached its submission always advances the epoch before it leaves.
    case LeaveLock => !s.holder.Unlocked? && !s.holder.BoundaryHolds? && !s.holder.IngressSubmitting?
  }

  function IngressBefore(i: IngressStep): Holder {
    match i
    case EnterIngress => Unlocked
    case CheckIngressFence => IngressEntered
    case CheckIngressSelection(_) => IngressUnfenced
    case SubmitIngress => IngressSelected
    case CommitIngress => IngressSubmitting
    case BumpEpoch => IngressSubmitting
  }

  predicate MutationEnabled(s: Sys, m: MutationStep) {
    match m
    case EnterMutation(c, _) => s.holder == Unlocked && c in s.captures
    case CheckMutationSelection(_) => s.holder.MutationEntered?
    case RegisterMutation => s.holder.MutationSelected?
    case CommitMutation => s.holder.MutationRegistered?
  }

  predicate LandingEnabled(s: Sys, l: LandingStep) {
    match l
    case EnterLanding(lease) => s.holder == Unlocked && lease in s.leases
    case CheckLandingFence => s.holder.LandingEntered?
    case CheckLandingSelection(_) => s.holder.LandingUnfenced?
    case CommitLanding => s.holder.LandingSelected?
  }

  predicate LifecycleEnabled(s: Sys, l: LifecycleStep) {
    match l
    case BeginSelection(_, _) => s.boundary.kind == Idle
    case BeginArchive => s.boundary.kind == Idle
    case LockBoundary => s.holder == Unlocked && Covering(s.boundary) && s.boundary.stage == Fenced
    case ChangeSelection(durable, reported) =>
      && s.boundary.kind == Selecting && (reported ==> durable)
      && (durable && s.boundary.forR ==> s.status == Active)   // the store refuses any other status
      && s.boundary.stage == (if s.boundary.covered then Locked else Fenced)
    case ChangeArchive(durable, reported) =>
      s.boundary.kind == Archiving && s.boundary.stage == Locked && (reported ==> durable || s.status == Archived)
      && (durable ==> s.status == Active)
    case SettleSelection(_) => s.boundary.kind == Selecting && s.boundary.stage == Changed
    case SettleArchive(_) => s.boundary.kind == Archiving && s.boundary.stage == Changed
    case EndBoundary => s.boundary.kind != Idle && s.boundary.stage == Settled
    case Activate => s.status == Draft
  }

  ghost predicate DialogueEnabled(s: Sys, d: DialogueStep) {
    match d
    case StartCycle => !s.recording
    case DiscoverDialogue(result) => s.cycle.Some? && !s.recording && DialogueContract(s, s.cycle.value.before, result)
    case RecordCycle => s.recording && s.cycle.Some?
    case FinishDialogue(_) => true
  }

  ghost function Apply(s: Sys, a: Action): Sys
    requires Enabled(s, a)
  {
    match a
    case Ingress(i) => ApplyIngress(s, i)
    case Worker(w) => ApplyWorker(s, w)
    case Mutation(m) => ApplyMutation(s, m)
    case Landing(l) => ApplyLanding(s, l)
    case Lifecycle(l) => ApplyLifecycle(s, l)
    case Dialogue(d) => ApplyDialogue(s, d)
    case LeaveLock => Move(s, Unlocked)
  }

  function ApplyIngress(s: Sys, i: IngressStep): Sys {
    match i
    case EnterIngress => Move(s, IngressEntered)
    case CheckIngressFence => Move(s, if FencedOff(s) then Unlocked else IngressUnfenced)
    case CheckIngressSelection(readOk) => Move(s, if readOk && Eligible(s) then IngressSelected else Unlocked)
    case SubmitIngress => s.(holder := IngressSubmitting, submitted := s.submitted + 1)
    case CommitIngress => AppendIngress(s)
    case BumpEpoch => Bump(s)
  }

  function ApplyWorker(s: Sys, w: WorkerStep): Sys {
    match w
    case EnterWork => s.(inWork := true)
    case CaptureEpoch => s.(captures := s.captures + {Capture(s.adm.epoch, s.submitted)})
    case BeginCall(c, requireClean) => TryCall(s, c, requireClean)
    case EndCall(id) => s.(adm := FinishCall(s.adm, id))
  }

  function ApplyMutation(s: Sys, m: MutationStep): Sys
    requires MutationEnabled(s, m)
  {
    match m
    case EnterMutation(c, requireClean) => Move(s, MutationEntered(c, requireClean))
    case CheckMutationSelection(readOk) =>
      Move(s, if readOk && Eligible(s) then MutationSelected(s.holder.capture, s.holder.requireClean) else Unlocked)
    case RegisterMutation => TryMutation(s)
    case CommitMutation => AppendMutation(s)
  }

  function ApplyLanding(s: Sys, l: LandingStep): Sys
    requires LandingEnabled(s, l)
  {
    match l
    case EnterLanding(lease) => Move(s, LandingEntered(lease))
    case CheckLandingFence =>
      var lease := s.holder.lease;
      Move(s, if FencedOff(s) || s.adm.epoch != lease.epoch || lease.id in s.preempted then Unlocked else LandingUnfenced(lease))
    case CheckLandingSelection(readOk) =>
      Move(s, if readOk && Eligible(s) then LandingSelected(s.holder.lease) else Unlocked)
    case CommitLanding => AppendLanding(s)
  }

  function ApplyLifecycle(s: Sys, l: LifecycleStep): Sys {
    match l
    case BeginSelection(forR, previousKnown) => FenceSelection(s, forR, previousKnown)
    case BeginArchive => FenceArchive(s)
    case LockBoundary => s.(holder := BoundaryHolds, boundary := s.boundary.(stage := Locked))
    case ChangeSelection(durable, reported) => SelectDurably(s, durable, reported)
    case ChangeArchive(durable, reported) => ArchiveDurably(s, durable, reported)
    case SettleSelection(reread) => SettleSelected(s, reread)
    case SettleArchive(reread) => SettleArchived(s, reread)
    case EndBoundary => s.(boundary := NO_BOUNDARY, holder := if s.holder.BoundaryHolds? then Unlocked else s.holder)
    case Activate => s.(status := Active)
  }

  ghost function ApplyDialogue(s: Sys, d: DialogueStep): Sys
    requires DialogueEnabled(s, d)
  {
    match d
    case StartCycle => s.(cycle := if s.cycle.Some? then s.cycle else Some(Cycle(s.adm.epoch, None, s.committed)))
    case DiscoverDialogue(result) => Discover(s, result)
    case RecordCycle => Record(s)
    case FinishDialogue(done) => s.(unfinished := s.unfinished - done)
  }

  function Move(s: Sys, holder: Holder): Sys {
    s.(holder := holder)
  }

  function AppendIngress(s: Sys): Sys {
    s.(committed := s.committed + 1, unfinished := s.unfinished + {s.committed}, log := s.log + [IngressCommit(s.selected, s.status)])
  }

  function AppendMutation(s: Sys): Sys
    requires s.holder.MutationRegistered?
  {
    var h := s.holder;
    s.(holder := MutationDone,
       log := s.log + [MutationCommit(
                         s.selected, s.status, Since(s.submitted, h.lease.ingress), h.requireClean,
                         Since(s.committed, h.provenIngress), s.unfinished)])
  }

  function AppendLanding(s: Sys): Sys
    requires s.holder.LandingSelected?
  {
    var l := s.holder.lease;
    s.(holder := LandingDone,
       log := s.log + [LandingCommit(s.selected, s.status, Since(s.submitted, l.ingress), Since(s.boundaries, l.boundaries))])
  }

  function SelectDurably(s: Sys, durable: bool, reported: bool): Sys {
    s.(selected := if durable then s.boundary.forR else s.selected,
       boundaries := if s.boundary.covered then s.boundaries + 1 else s.boundaries,
       boundary := s.boundary.(stage := Changed, reported := reported))
  }

  /** The archive transaction also clears the configured resident if it is this one. */
  function ArchiveDurably(s: Sys, durable: bool, reported: bool): Sys {
    s.(status := if durable then Archived else s.status,
       selected := s.selected && !durable,
       boundaries := s.boundaries + 1,
       boundary := s.boundary.(stage := Changed, reported := reported))
  }

  /** Registration outside the landing lock. */
  function TryCall(s: Sys, c: Capture, requireClean: bool): Sys {
    var granted := Admits(s.adm, s.selectionBlocked, c.epoch, true, requireClean);
    s.(adm := if granted then Register(s.adm, s.nextCall) else s.adm,
       nextCall := s.nextCall + 1,
       preempted := s.preempted + if granted then {} else {s.nextCall},
       leases := s.leases + if granted then {Lease(s.nextCall, c.epoch, c.ingress, s.boundaries)} else {})
  }

  /** Registration inside the landing lock, just before the mutation is submitted. */
  function TryMutation(s: Sys): Sys
    requires s.holder.MutationSelected?
  {
    var c, requireClean := s.holder.capture, s.holder.requireClean;
    TryCall(s, c, requireClean).(
      holder := if Admits(s.adm, s.selectionBlocked, c.epoch, true, requireClean)
                then MutationRegistered(Lease(s.nextCall, c.epoch, c.ingress, s.boundaries), requireClean, s.cleanIngress)
                else Unlocked)
  }

  function Bump(s: Sys): Sys {
    s.(adm := Preempt(s.adm), preempted := s.preempted + Current(s.adm), holder := IngressBumped)
  }

  function FenceSelection(s: Sys, forR: bool, previousKnown: bool): Sys {
    var covered := Covers(s, forR, previousKnown);
    s.(boundary := Boundary(Selecting, Fenced, forR, previousKnown, covered, false, false),
       selectionBlocked := s.selectionBlocked || !previousKnown,
       uncovered := s.uncovered || (s.selected && !covered),
       adm := if covered then Fence(s.adm) else s.adm,
       preempted := s.preempted + if covered then Current(s.adm) else {})
  }

  function FenceArchive(s: Sys): Sys {
    s.(boundary := Boundary(Archiving, Fenced, false, true, true, s.adm.blocked, false),
       adm := Fence(s.adm), preempted := s.preempted + Current(s.adm))
  }

  function SettleSelected(s: Sys, reread: bool): Sys {
    var b := s.boundary;
    var known := b.reported || reread;
    s.(boundary := b.(stage := Settled),
       selectionBlocked := s.selectionBlocked && !known,
       unknownSelection := !known && (s.unknownSelection || b.covered || !b.previousKnown),
       unknownArchive := s.unknownArchive && !(b.reported && b.forR),
       adm := s.adm.(blocked := if known then !s.selected && (b.covered || s.adm.blocked) else s.adm.blocked))
  }

  function SettleArchived(s: Sys, reread: bool): Sys {
    var b := s.boundary;
    var restore := !b.reported && reread && s.status != Archived;
    s.(boundary := b.(stage := Settled),
       unknownArchive := !b.reported && !reread,
       adm := s.adm.(blocked := if restore then b.wasBlocked else s.adm.blocked))
  }

  function Discover(s: Sys, d: DialogueResult): Sys
    requires s.cycle.Some?
  {
    var c := s.cycle.value;
    s.(cycle := Some(if d.next.Some? then c.(before := d.next) else c), recording := !d.found && d.cycleComplete)
  }

  function Record(s: Sys): Sys
    requires s.cycle.Some?
  {
    var c := s.cycle.value;
    s.(cycle := None, recording := false,
       adm := RecordClean(s.adm, c.epoch),
       cleanIngress := if s.adm.epoch == c.epoch then c.ingress else s.cleanIngress)
  }

  function Since(now: nat, before: nat): nat {
    if now >= before then now - before else 0
  }

  /** Only the call entry that is current now is preempted; one it overwrote is not. */
  function Current(a: Standing): set<CallId> {
    if a.call.Some? then {a.call.value} else {}
  }

  // ------------------------------------------------------------ invariant

  predicate Covering(b: Boundary) {
    b.kind != Idle && b.covered
  }

  ghost predicate BoundaryShape(s: Sys) {
    && (s.holder == BoundaryHolds <==> Covering(s.boundary) && s.boundary.stage != Fenced)
    && (Covering(s.boundary) && s.boundary.stage != Settled ==> s.adm.blocked)
    && (s.boundary.kind == Selecting && s.boundary.forR ==> s.boundary.covered)
    && (s.boundary.kind == Selecting && !s.boundary.covered ==> s.boundary.stage != Locked)
    && (s.boundary.kind == Selecting && !s.boundary.covered && s.boundary.stage == Fenced && s.selected ==> s.uncovered)
    && (s.boundary.kind == Selecting && s.boundary.stage != Settled && !s.boundary.previousKnown ==> s.selectionBlocked)
    && (s.boundary.kind == Archiving ==> s.boundary.covered)
    && (s.boundary.kind == Archiving && s.boundary.stage != Settled && s.unknownSelection ==>
          s.boundary.wasBlocked || s.selectionBlocked)
    && (s.boundary.kind == Selecting && s.boundary.stage == Changed && s.boundary.reported ==> s.selected == s.boundary.forR)
    && (s.unknownSelection ==> FencedOff(s))
  }

  /** A captured epoch is outdated as soon as an ingress submitted after the capture has left its window. */
  ghost predicate CapturesFresh(captures: set<Capture>, epoch: nat, submitted: nat, window: bool) {
    forall c :: c in captures ==>
      c.epoch <= epoch && c.ingress <= submitted && (c.epoch == epoch && !window ==> c.ingress == submitted)
  }

  ghost predicate LeasesFresh(leases: set<Lease>, epoch: nat, submitted: nat, window: bool, boundaries: nat, fencing: bool) {
    forall l :: l in leases ==>
      && l.epoch <= epoch && l.ingress <= submitted && l.boundaries <= boundaries
      && (l.epoch == epoch && !window ==> l.ingress == submitted)
      && (l.epoch == epoch ==> l.boundaries == boundaries)
      && (fencing ==> l.epoch < epoch)
  }

  /** A boundary has fenced this resident and has not yet passed its durable change. */
  predicate Fencing(b: Boundary) {
    Covering(b) && (b.stage == Fenced || b.stage == Locked)
  }

  /** What a selection check leaves true for as long as its lock is held. */
  predicate Served(s: Sys) {
    s.status == Active && (s.selected || s.uncovered)
  }

  ghost predicate HolderFacts(s: Sys) {
    match s.holder
    case MutationEntered(c, _) => c in s.captures
    case MutationSelected(c, _) => c in s.captures && Served(s)
    case MutationRegistered(l, requireClean, proven) =>
      && Served(s)
      && l.ingress == s.submitted
      && (requireClean ==> proven == s.committed && s.unfinished == {})
    case LandingEntered(l) => l in s.leases
    case LandingUnfenced(l) => l.ingress == s.submitted && l.boundaries == s.boundaries
    case LandingSelected(l) => l.ingress == s.submitted && l.boundaries == s.boundaries && Served(s)
    case IngressSelected => Served(s)
    case IngressSubmitting => Served(s)
    case _ => true
  }

  ghost predicate CleanProof(clean: Option<nat>, epoch: nat, window: bool, cleanIngress: nat, committed: nat, unfinished: set<nat>) {
    && (forall e :: e in unfinished ==> e < committed)
    && (clean.Some? ==> clean.value <= epoch)
    && (clean == Some(epoch) && !window ==> cleanIngress == committed && unfinished == {})
  }

  ghost predicate CycleProgress(cycle: Option<Cycle>, recording: bool, epoch: nat, window: bool, committed: nat, unfinished: set<nat>) {
    && (recording ==> cycle.Some?)
    && (cycle.Some? ==>
          var c := cycle.value;
          && c.epoch <= epoch && c.ingress <= committed
          && (c.epoch == epoch && !window ==> c.ingress == committed)
          && (c.ingress == committed && c.before.Some? ==> NoneWithin(unfinished, c.before.value, RecentLow(committed)))
          && (c.ingress == committed && recording ==> unfinished == {}))
  }

  predicate GoodCommit(c: Commit) {
    match c
    case IngressCommit(_, _) => true
    case MutationCommit(_, _, since, requireClean, sinceProof, unfinished) =>
      since == 0 && (requireClean ==> sinceProof == 0 && unfinished == {})
    case LandingCommit(_, _, since, boundaries) => since == 0 && boundaries == 0
  }

  /** For an active resident and, where it is user ingress, for the selected one. */
  predicate RightResident(c: Commit) {
    c.status == Active && (c.IngressCommit? ==> c.selected)
  }

  ghost predicate GoodLog(log: seq<Commit>, uncovered: bool) {
    && (forall i :: 0 <= i < |log| ==> GoodCommit(log[i]) && RightResident(log[i]))
    && (!uncovered ==> AllSelected(log))
  }

  ghost predicate AllSelected(log: seq<Commit>) {
    forall i :: 0 <= i < |log| ==> log[i].selected
  }

  ghost predicate Inv(s: Sys) {
    && BoundaryShape(s)
    && (s.selected ==> s.status == Active)
    && HolderFacts(s)
    && CapturesFresh(s.captures, s.adm.epoch, s.submitted, InWindow(s))
    && LeasesFresh(s.leases, s.adm.epoch, s.submitted, InWindow(s), s.boundaries, Fencing(s.boundary))
    && CleanProof(s.adm.clean, s.adm.epoch, InWindow(s), s.cleanIngress, s.committed, s.unfinished)
    && CycleProgress(s.cycle, s.recording, s.adm.epoch, InWindow(s), s.committed, s.unfinished)
    && GoodLog(s.log, s.uncovered)
  }

  // ------------------------------------------------ every block keeps it

  lemma CaptureKeepsInv(s: Sys)
    requires Inv(s)
    ensures Inv(ApplyWorker(s, CaptureEpoch))
  {
    hide LeasesFresh, CleanProof, CycleProgress, GoodLog;
  }

  lemma TryCallKeepsInv(s: Sys, c: Capture, requireClean: bool)
    requires Inv(s) && c in s.captures
    ensures Inv(TryCall(s, c, requireClean))
  {
    hide CleanProof, CycleProgress, GoodLog;
  }

  lemma WorkerKeepsInv(s: Sys, w: WorkerStep)
    requires Inv(s) && Enabled(s, Worker(w))
    ensures Inv(ApplyWorker(s, w))
  {
    hide CapturesFresh, LeasesFresh, CleanProof, CycleProgress, GoodLog;
    match w
    case EnterWork =>
    case CaptureEpoch => CaptureKeepsInv(s);
    case BeginCall(c, requireClean) => TryCallKeepsInv(s, c, requireClean);
    case EndCall(_) =>
  }

  lemma LeaveKeepsInv(s: Sys)
    requires Inv(s) && Enabled(s, LeaveLock)
    ensures Inv(Move(s, Unlocked))
  {
  }

  lemma SubmitIngressKeepsInv(s: Sys)
    requires Inv(s) && s.holder == IngressSelected
    ensures Inv(ApplyIngress(s, SubmitIngress))
  {
    hide GoodLog;
  }

  lemma CommitIngressKeepsInv(s: Sys)
    requires Inv(s) && InWindow(s) && Eligible(s)
    ensures Inv(ApplyIngress(s, CommitIngress))
  {
    hide CapturesFresh, LeasesFresh;
  }

  lemma BumpKeepsInv(s: Sys)
    requires Inv(s) && InWindow(s)
    ensures Inv(Bump(s))
  {
    hide GoodLog;
  }

  lemma IngressKeepsInv(s: Sys, i: IngressStep)
    requires Inv(s) && Enabled(s, Ingress(i))
    ensures Inv(ApplyIngress(s, i))
  {
    hide CapturesFresh, LeasesFresh, CleanProof, CycleProgress, GoodLog;
    match i
    case SubmitIngress => SubmitIngressKeepsInv(s);
    case CommitIngress => CommitIngressKeepsInv(s);
    case BumpEpoch => BumpKeepsInv(s);
    case _ =>
  }

  lemma RegisterKeepsInv(s: Sys)
    requires Inv(s) && s.holder.MutationSelected?
    ensures Inv(TryMutation(s))
  {
  }

  lemma MutationKeepsInv(s: Sys, m: MutationStep)
    requires Inv(s) && MutationEnabled(s, m)
    ensures Inv(ApplyMutation(s, m))
  {
    if m.RegisterMutation? {
      RegisterKeepsInv(s);
    }
  }

  lemma LandingFenceKeepsInv(s: Sys)
    requires Inv(s) && s.holder.LandingEntered?
    ensures Inv(ApplyLanding(s, CheckLandingFence))
  {
    hide CapturesFresh, CleanProof, CycleProgress, GoodLog;
  }

  lemma CommitLandingKeepsInv(s: Sys)
    requires Inv(s) && s.holder.LandingSelected?
    ensures Inv(AppendLanding(s))
  {
    hide CapturesFresh, LeasesFresh, CleanProof, CycleProgress;
  }

  lemma LandingKeepsInv(s: Sys, l: LandingStep)
    requires Inv(s) && LandingEnabled(s, l)
    ensures Inv(ApplyLanding(s, l))
  {
    hide CapturesFresh, LeasesFresh, CleanProof, CycleProgress, GoodLog;
    match l
    case CheckLandingFence => LandingFenceKeepsInv(s);
    case CommitLanding => CommitLandingKeepsInv(s);
    case _ =>
  }

  lemma FenceSelectionKeepsInv(s: Sys, forR: bool, previousKnown: bool)
    requires Inv(s) && s.boundary.kind == Idle
    ensures Inv(FenceSelection(s, forR, previousKnown))
  {
  }

  lemma FenceArchiveKeepsInv(s: Sys)
    requires Inv(s) && s.boundary.kind == Idle
    ensures Inv(FenceArchive(s))
  {
  }

  lemma SelectDurablyKeepsInv(s: Sys, durable: bool, reported: bool)
    requires Inv(s) && LifecycleEnabled(s, ChangeSelection(durable, reported))
    ensures Inv(SelectDurably(s, durable, reported))
  {
    hide CapturesFresh, CleanProof, CycleProgress, GoodLog;
  }

  lemma ArchiveDurablyKeepsInv(s: Sys, durable: bool, reported: bool)
    requires Inv(s) && LifecycleEnabled(s, ChangeArchive(durable, reported))
    ensures Inv(ArchiveDurably(s, durable, reported))
  {
    hide CapturesFresh, CleanProof, CycleProgress, GoodLog;
  }

  lemma SettleSelectedKeepsInv(s: Sys, reread: bool)
    requires Inv(s) && LifecycleEnabled(s, SettleSelection(reread))
    ensures Inv(SettleSelected(s, reread))
  {
  }

  lemma SettleArchivedKeepsInv(s: Sys, reread: bool)
    requires Inv(s) && LifecycleEnabled(s, SettleArchive(reread))
    ensures Inv(SettleArchived(s, reread))
  {
  }

  lemma LifecycleKeepsInv(s: Sys, l: LifecycleStep)
    requires Inv(s) && LifecycleEnabled(s, l)
    ensures Inv(ApplyLifecycle(s, l))
  {
    hide CapturesFresh, LeasesFresh, CleanProof, CycleProgress, GoodLog;
    match l
    case BeginSelection(forR, previousKnown) => FenceSelectionKeepsInv(s, forR, previousKnown);
    case BeginArchive => FenceArchiveKeepsInv(s);
    case ChangeSelection(durable, reported) => SelectDurablyKeepsInv(s, durable, reported);
    case ChangeArchive(durable, reported) => ArchiveDurablyKeepsInv(s, durable, reported);
    case SettleSelection(reread) => SettleSelectedKeepsInv(s, reread);
    case SettleArchive(reread) => SettleArchivedKeepsInv(s, reread);
    case _ =>
  }

  lemma DiscoverKeepsInv(s: Sys, d: DialogueResult)
    requires Inv(s) && DialogueEnabled(s, DiscoverDialogue(d))
    ensures Inv(Discover(s, d))
  {
  }

  lemma RecordKeepsInv(s: Sys)
    requires Inv(s) && DialogueEnabled(s, RecordCycle)
    ensures Inv(Record(s))
  {
  }

  lemma DialogueKeepsInv(s: Sys, d: DialogueStep)
    requires Inv(s) && DialogueEnabled(s, d)
    ensures Inv(ApplyDialogue(s, d))
  {
    match d
    case DiscoverDialogue(result) => DiscoverKeepsInv(s, result);
    case RecordCycle => RecordKeepsInv(s);
    case _ =>
  }

  lemma StepKeepsInv(s: Sys, a: Action)
    requires Inv(s) && Enabled(s, a)
    ensures Inv(Apply(s, a))
  {
    match a
    case Ingress(i) => IngressKeepsInv(s, i);
    case Worker(w) => WorkerKeepsInv(s, w);
    case Mutation(m) => MutationKeepsInv(s, m);
    case Landing(l) => LandingKeepsInv(s, l);
    case Lifecycle(l) => LifecycleKeepsInv(s, l);
    case Dialogue(d) => DialogueKeepsInv(s, d);
    case LeaveLock => LeaveKeepsInv(s);
  }

  // ------------------------------------------------------------- theorems

  ghost predicate Reaches(from: Sys, run: seq<Action>, to: Sys)
    decreases |run|
  {
    if run == [] then from == to
    else Enabled(from, run[0]) && Reaches(Apply(from, run[0]), run[1..], to)
  }

  lemma {:induction false} RunKeepsInv(from: Sys, run: seq<Action>, to: Sys)
    requires Inv(from) && Reaches(from, run, to)
    ensures Inv(to)
    decreases |run|
  {
    if run != [] {
      StepKeepsInv(from, run[0]);
      RunKeepsInv(Apply(from, run[0]), run[1..], to);
    }
  }

  /**
   Every commit ever made on the landing-lock path: a landing crossed no ingress
   submitted after its epoch was captured and no boundary passed after its lease
   was registered; a mutation crossed no such ingress either, and one that
   required a clean dialogue was committed with no dialogue unfinished and no
   user event newer than the scan that proved it.
   */
  lemma CommitsRespectForeground(start: Sys, run: seq<Action>, s: Sys)
    requires Initial(start) && Reaches(start, run, s)
    ensures forall i :: 0 <= i < |s.log| ==> GoodCommit(s.log[i])
  {
    RunKeepsInv(start, run, s);
  }

  /**
   Everything that commits on the landing-lock path commits for an active
   resident, and ingress for the selected one. The rest commits for the selected
   one too as long as no boundary has left it out while it was selected.
   */
  lemma CommitsOnlyWhileSelected(start: Sys, run: seq<Action>, s: Sys)
    requires Initial(start) && Reaches(start, run, s)
    ensures forall i :: 0 <= i < |s.log| ==> s.log[i].status == Active && (s.log[i].IngressCommit? ==> s.log[i].selected)
    ensures !s.uncovered ==> forall i :: 0 <= i < |s.log| ==> s.log[i].selected
  {
    RunKeepsInv(start, run, s);
  }

  /** Nothing passes the fence: no call is admitted, no ingress and no landing gets past its check. */
  ghost predicate NothingPasses(s: Sys) {
    && (forall expected, requireExpected, requireClean ::
          !Admits(s.adm, s.selectionBlocked, expected, requireExpected, requireClean))
    && (s.holder == IngressEntered ==> Apply(s, Ingress(CheckIngressFence)).holder == Unlocked)
    && (s.holder.LandingEntered? ==> Apply(s, Landing(CheckLandingFence)).holder == Unlocked)
  }

  lemma FencedOffExactly(s: Sys)
    ensures NothingPasses(s) <==> FencedOff(s)
  {
    if !FencedOff(s) {
      assert Admits(s.adm, s.selectionBlocked, s.adm.epoch, true, false);
    }
  }

  /** After a selection without an authoritative result nothing passes until a later selection has one. */
  lemma UnknownSelectionStaysFenced(start: Sys, run: seq<Action>, s: Sys)
    requires Initial(start) && Reaches(start, run, s) && s.unknownSelection
    ensures NothingPasses(s)
  {
    assert FencedOff(s) by {
      RunKeepsInv(start, run, s);
    }
    FencedOffExactly(s);
  }

  // ------------------------------------------ an archive without a result

  /** A failed selection that re-reads which resident is configured and finds this one: the block unblocks it. */
  predicate Reopens(s: Sys, a: Action) {
    a == Lifecycle(SettleSelection(true)) && !s.boundary.reported && s.selected
  }

  ghost predicate ArchiveFence(s: Sys) {
    s.unknownArchive ==> s.adm.blocked && (s.boundary.kind == Archiving && s.boundary.stage != Settled ==> s.boundary.wasBlocked)
  }

  lemma LifecycleKeepsArchiveFence(s: Sys, l: LifecycleStep)
    requires Inv(s) && ArchiveFence(s) && LifecycleEnabled(s, l)
    ensures if s.unknownArchive && Reopens(s, Lifecycle(l))
            then ApplyLifecycle(s, l).unknownArchive && !FencedOff(ApplyLifecycle(s, l))
            else ArchiveFence(ApplyLifecycle(s, l))
  {
    assert BoundaryShape(s);
    hide Inv, Covers;
  }

  /** Steps of threads other than lifecycle boundaries leave the boundary's facts alone. */
  predicate SameBoundaryFacts(s: Sys, t: Sys) {
    && t.boundary == s.boundary && t.adm.blocked == s.adm.blocked && t.uncovered == s.uncovered
    && t.selected == s.selected && t.status == s.status
    && t.unknownArchive == s.unknownArchive && (s.inWork ==> t.inWork)
  }

  lemma WorkerLeavesBoundaryFacts(s: Sys, w: WorkerStep)
    ensures SameBoundaryFacts(s, ApplyWorker(s, w))
  {
    hide Admits;
  }

  lemma MutationLeavesBoundaryFacts(s: Sys, m: MutationStep)
    requires MutationEnabled(s, m)
    ensures SameBoundaryFacts(s, ApplyMutation(s, m))
  {
    hide Admits, Eligible, Since;
  }

  lemma IngressLeavesBoundaryFacts(s: Sys, i: IngressStep)
    ensures SameBoundaryFacts(s, ApplyIngress(s, i))
  {
    hide FencedOff, Eligible;
  }

  lemma LandingLeavesBoundaryFacts(s: Sys, l: LandingStep)
    requires LandingEnabled(s, l)
    ensures SameBoundaryFacts(s, ApplyLanding(s, l))
  {
    hide FencedOff, Eligible, Since;
  }

  lemma DialogueLeavesBoundaryFacts(s: Sys, d: DialogueStep)
    requires DialogueEnabled(s, d)
    ensures SameBoundaryFacts(s, ApplyDialogue(s, d))
  {
    hide DialogueContract;
  }

  lemma ThreadLeavesBoundaryFacts(s: Sys, a: Action)
    requires Enabled(s, a) && !a.Lifecycle?
    ensures SameBoundaryFacts(s, Apply(s, a))
  {
    hide ApplyIngress, ApplyWorker, ApplyMutation, ApplyLanding, ApplyDialogue;
    hide MutationEnabled, LandingEnabled, DialogueEnabled, IngressBefore;
    match a
    case Ingress(i) => IngressLeavesBoundaryFacts(s, i);
    case Worker(w) => WorkerLeavesBoundaryFacts(s, w);
    case Mutation(m) => MutationLeavesBoundaryFacts(s, m);
    case Landing(l) => LandingLeavesBoundaryFacts(s, l);
    case Dialogue(d) => DialogueLeavesBoundaryFacts(s, d);
    case LeaveLock =>
  }

  lemma StepKeepsArchiveFence(s: Sys, a: Action)
    requires Inv(s) && ArchiveFence(s) && Enabled(s, a)
    ensures if s.unknownArchive && Reopens(s, a)
            then Apply(s, a).unknownArchive && !FencedOff(Apply(s, a))
            else ArchiveFence(Apply(s, a))
  {
    if a.Lifecycle? {
      LifecycleKeepsArchiveFence(s, a.lifecycle);
    } else {
      ThreadLeavesBoundaryFacts(s, a);
      hide Enabled, Apply;
    }
  }

  /** At every state along the run, while an archive has no authoritative result, nothing passes. */
  ghost predicate HeldThroughout(s: Sys, run: seq<Action>)
    decreases |run|
  {
    && (s.unknownArchive ==> NothingPasses(s))
    && (run != [] && Enabled(s, run[0]) ==> HeldThroughout(Apply(s, run[0]), run[1..]))
  }

  /** No failed selection settles by finding the resident of an unresolved archive still configured. */
  ghost predicate NeverReopened(s: Sys, run: seq<Action>)
    decreases |run|
  {
    run != [] && Enabled(s, run[0]) ==>
      !(s.unknownArchive && Reopens(s, run[0])) && NeverReopened(Apply(s, run[0]), run[1..])
  }

  lemma {:induction false} HeldUnlessReopened(s: Sys, run: seq<Action>)
    requires Inv(s) && ArchiveFence(s)
    ensures HeldThroughout(s, run) <==> NeverReopened(s, run)
    decreases |run|
  {
    FencedOffExactly(s);
    if run != [] && Enabled(s, run[0]) {
      var t := Apply(s, run[0]);
      StepKeepsArchiveFence(s, run[0]);
      StepKeepsInv(s, run[0]);
      hide Inv, Enabled, Apply, NothingPasses;
      if s.unknownArchive && Reopens(s, run[0]) {
        FencedOffExactly(t);
        assert !HeldThroughout(t, run[1..]);
      } else {
        HeldUnlessReopened(t, run[1..]);
      }
    }
  }

  /**
   An archive without an authoritative result stays fenced along a run exactly
   when no failed selection re-reads this resident as the configured one. The
   result becomes known by a later archive or by a successful selection.
   */
  lemma UnknownArchiveStaysFencedExactly(start: Sys, run: seq<Action>)
    requires Initial(start)
    ensures HeldThroughout(start, run) <==> NeverReopened(start, run)
  {
    HeldUnlessReopened(start, run);
  }

  /** The re-read is as good as a result: a configured resident is active, so its archive did not commit. */
  lemma ReopensOnlyTheActive(start: Sys, run: seq<Action>, s: Sys, a: Action)
    requires Initial(start) && Reaches(start, run, s) && Reopens(s, a)
    ensures s.status == Active
  {
    RunKeepsInv(start, run, s);
  }

  /** `archivable` says that the resident was not yet archived when the process started. */
  ghost predicate ArchivedIsBlocked(s: Sys, archivable: bool) {
    && (archivable && s.status == Archived ==> s.adm.blocked)
    && (s.unknownArchive && s.status != Active ==> s.adm.blocked)
  }

  lemma LifecycleKeepsArchivedBlocked(s: Sys, l: LifecycleStep, archivable: bool)
    requires Inv(s) && ArchivedIsBlocked(s, archivable) && LifecycleEnabled(s, l)
    ensures ArchivedIsBlocked(ApplyLifecycle(s, l), archivable)
  {
    assert BoundaryShape(s) && (s.selected ==> s.status == Active);
    hide Inv, Covers;
  }

  lemma {:induction false} RunKeepsArchivedBlocked(s: Sys, run: seq<Action>, t: Sys, archivable: bool)
    requires Inv(s) && ArchivedIsBlocked(s, archivable) && Reaches(s, run, t)
    ensures ArchivedIsBlocked(t, archivable)
    decreases |run|
  {
    if run != [] {
      if run[0].Lifecycle? {
        LifecycleKeepsArchivedBlocked(s, run[0].lifecycle, archivable);
      } else {
        ThreadLeavesBoundaryFacts(s, run[0]);
      }
      StepKeepsInv(s, run[0]);
      hide Inv, Enabled;
      RunKeepsArchivedBlocked(Apply(s, run[0]), run[1..], t, archivable);
    }
  }

  /**
   An archived resident stays fenced: once this process has archived it, with or
   without an answer, nothing passes, whatever selections and archives succeed or
   fail afterwards. And an archive that has no result keeps the fence closed unless
   the resident is active, that is, unless it did not commit.
   */
  lemma ArchivedStaysFenced(start: Sys, run: seq<Action>, s: Sys)
    requires Initial(start) && Reaches(start, run, s)
    ensures start.status != Archived && s.status == Archived ==> NothingPasses(s)
    ensures s.unknownArchive && s.status != Active ==> NothingPasses(s)
  {
    RunKeepsArchivedBlocked(start, run, s, start.status != Archived);
    FencedOffExactly(s);
  }

  /** A scan cycle whose epoch has passed records nothing. */
  lemma StaleCycleRecordsNothing(start: Sys, run: seq<Action>, s: Sys)
    requires Initial(start) && Reaches(start, run, s) && DialogueEnabled(s, RecordCycle)
    ensures s.cycle.value.epoch < s.adm.epoch ==> Record(s).adm == s.adm
    ensures s.cycle.value.epoch >= s.adm.epoch ==> Record(s).adm.clean == Some(s.adm.epoch)
    ensures Record(s).adm.clean == Some(s.adm.epoch) && !InWindow(s) ==> s.unfinished == {}
  {
    RunKeepsInv(start, run, s);
    RecordKeepsInv(s);
  }

  // ---------------------------------------- which residents are isolated

  /** Nothing about the resident is in progress and nothing fences it. */
  ghost predicate Quiet(s: Sys) {
    s.holder == Unlocked && s.boundary.kind == Idle && !FencedOff(s) && Eligible(s) && !s.uncovered
  }

  /** A resident with a worker entry is among the targets of every later boundary that can unselect it. */
  lemma LifecycleKeepsCovered(s: Sys, l: LifecycleStep)
    requires s.inWork && !s.uncovered && LifecycleEnabled(s, l)
    ensures ApplyLifecycle(s, l).inWork && !ApplyLifecycle(s, l).uncovered
  {
  }

  lemma StepKeepsCovered(s: Sys, a: Action)
    requires s.inWork && !s.uncovered && Enabled(s, a)
    ensures Apply(s, a).inWork && !Apply(s, a).uncovered
  {
    if a.Lifecycle? {
      LifecycleKeepsCovered(s, a.lifecycle);
    } else {
      ThreadLeavesBoundaryFacts(s, a);
      hide Enabled, Apply;
    }
  }

  lemma {:induction false} WorkerEntryKeepsCovered(from: Sys, run: seq<Action>, to: Sys)
    requires from.inWork && !from.uncovered && Reaches(from, run, to)
    ensures to.inWork && !to.uncovered
    decreases |run|
  {
    if run != [] {
      StepKeepsCovered(from, run[0]);
      WorkerEntryKeepsCovered(Apply(from, run[0]), run[1..], to);
    }
  }

  lemma CoveredRunIsSelected(from: Sys, run: seq<Action>, to: Sys)
    requires Inv(from) && from.inWork && !from.uncovered && Reaches(from, run, to)
    ensures AllSelected(to.log)
  {
    WorkerEntryKeepsCovered(from, run, to);
    RunKeepsInv(from, run, to);
  }

  lemma CoveredContinuationsAreSelected(s: Sys)
    requires Inv(s) && s.inWork && !s.uncovered
    ensures forall run, t :: Reaches(s, run, t) ==> AllSelected(t.log)
  {
    forall run, t | Reaches(s, run, t)
      ensures AllSelected(t.log)
    {
      CoveredRunIsSelected(s, run, t);
    }
  }

  lemma {:induction false} Extend(from: Sys, run: seq<Action>, mid: Sys, a: Action)
    requires Reaches(from, run, mid) && Enabled(mid, a)
    ensures Reaches(from, run + [a], Apply(mid, a))
    decreases |run|
  {
    if run == [] {
      assert [a][1..] == [] && Reaches(Apply(mid, a), [], Apply(mid, a));
    } else {
      Extend(Apply(from, run[0]), run[1..], mid, a);
      assert (run + [a])[1..] == run[1..] + [a];
    }
  }

  lemma Follow(from: Sys, run: seq<Action>, s: Sys, a: Action) returns (longer: seq<Action>, t: Sys)
    requires Reaches(from, run, s) && Enabled(s, a)
    ensures Reaches(from, longer, t) && t == Apply(s, a)
  {
    Extend(from, run, s, a);
    longer, t := run + [a], Apply(s, a);
  }

  /** An archive fails without committing, and the re-read fails too. */
  lemma ArchiveGetsNoAnswer(s: Sys) returns (run: seq<Action>, t: Sys)
    requires Quiet(s)
    ensures Reaches(s, run, t) && t.unknownArchive && t.status == Active && t.selected
    ensures t.holder == Unlocked && t.boundary.kind == Idle && FencedOff(t)
  {
    run, t := Follow(s, [], s, Lifecycle(BeginArchive));
    run, t := Follow(s, run, t, Lifecycle(LockBoundary));
    run, t := Follow(s, run, t, Lifecycle(ChangeArchive(false, false)));
    run, t := Follow(s, run, t, Lifecycle(SettleArchive(false)));
    run, t := Follow(s, run, t, Lifecycle(EndBoundary));
  }

  /** A selection of another resident fails and re-reads this one as still configured. */
  lemma FailedSelectionReopens(from: Sys, before: seq<Action>, s: Sys) returns (run: seq<Action>, t: Sys)
    requires Reaches(from, before, s) && s.selected && s.holder == Unlocked && s.boundary.kind == Idle
    ensures Reaches(from, run, t) && t.status == s.status && t.unknownArchive == s.unknownArchive && !FencedOff(t)
  {
    run, t := Follow(from, before, s, Lifecycle(BeginSelection(false, true)));
    run, t := Follow(from, run, t, Lifecycle(LockBoundary));
    run, t := Follow(from, run, t, Lifecycle(ChangeSelection(false, false)));
    run, t := Follow(from, run, t, Lifecycle(SettleSelection(true)));
    run, t := Follow(from, run, t, Lifecycle(EndBoundary));
  }

  /** The run on which a failed selection opens the fence of an archive that had no result and had not committed. */
  lemma UncommittedArchiveIsReopened(s: Sys) returns (run: seq<Action>, t: Sys)
    requires Quiet(s)
    ensures Reaches(s, run, t) && t.status == Active && t.unknownArchive
    ensures Admits(t.adm, t.selectionBlocked, t.adm.epoch, true, false)
  {
    run, t := ArchiveGetsNoAnswer(s);
    run, t := FailedSelectionReopens(s, run, t);
  }

  /**
   A selection of another resident that cannot resolve this one takes its targets,
   and only then a worker of this one enters and passes the selection check.
   */
  lemma LateWorkerPassesCheck(s: Sys) returns (run: seq<Action>, t: Sys)
    requires Quiet(s) && !s.inWork && s.adm.call.None?
    ensures Reaches(s, run, t) && t.holder == MutationSelected(Capture(t.adm.epoch, t.submitted), false)
    ensures t.boundary == Boundary(Selecting, Fenced, false, false, false, false, false) && !t.adm.blocked
  {
    var c := Capture(s.adm.epoch, s.submitted);
    run, t := Follow(s, [], s, Lifecycle(BeginSelection(false, false)));
    run, t := Follow(s, run, t, Worker(EnterWork));
    run, t := Follow(s, run, t, Worker(CaptureEpoch));
    run, t := Follow(s, run, t, Mutation(EnterMutation(c, false)));
    run, t := Follow(s, run, t, Mutation(CheckMutationSelection(true)));
  }

  /** The selection becomes durable and settles without waiting for the lock. */
  lemma SelectionOvertakes(from: Sys, before: seq<Action>, s: Sys) returns (run: seq<Action>, t: Sys)
    requires Reaches(from, before, s) && s.holder.MutationSelected?
    requires s.boundary == Boundary(Selecting, Fenced, false, false, false, false, false) && !s.adm.blocked
    ensures Reaches(from, run, t) && t.holder == s.holder && t.adm == s.adm && !t.selectionBlocked && !t.selected
  {
    run, t := Follow(from, before, s, Lifecycle(ChangeSelection(true, true)));
    run, t := Follow(from, run, t, Lifecycle(SettleSelection(false)));
  }

  lemma MutationCommitsAnyway(from: Sys, before: seq<Action>, s: Sys) returns (run: seq<Action>, t: Sys)
    requires Reaches(from, before, s) && !s.selected && !FencedOff(s)
    requires s.holder.MutationSelected? && s.holder.capture.epoch == s.adm.epoch && !s.holder.requireClean
    ensures Reaches(from, run, t) && !AllSelected(t.log)
  {
    run, t := Follow(from, before, s, Mutation(RegisterMutation));
    run, t := Follow(from, run, t, Mutation(CommitMutation));
    assert !t.log[|s.log|].selected;
  }

  /** A mutation commits after its resident has been unselected. */
  lemma EscapeIsPossible(s: Sys) returns (run: seq<Action>, t: Sys)
    requires Quiet(s) && !s.inWork
    ensures Reaches(s, run, t) && !AllSelected(t.log)
    decreases s.adm.call.Some?
  {
    if s.adm.call.Some? {
      var end := Worker(EndCall(s.adm.call.value));
      run, t := EscapeIsPossible(Apply(s, end));
      assert ([end] + run)[1..] == run;
      run := [end] + run;
    } else {
      run, t := LateWorkerPassesCheck(s);
      run, t := SelectionOvertakes(s, run, t);
      run, t := MutationCommitsAnyway(s, run, t);
    }
  }

  /**
   Isolation across boundaries is not unconditional. When `SelectResident` cannot
   resolve the former selection it fences only the residents of the worker map
   and of the call map. A worker of the selected resident that enters after these
   were read can pass the selection check, be overtaken by the selection and then
   register and commit its mutation. From any quiet state nothing ever commits for
   the resident unselected exactly when it has a worker entry.
   */
  lemma IsolatedExactlyWithWorkerEntry(start: Sys, prefix: seq<Action>, s: Sys)
    requires Initial(start) && Reaches(start, prefix, s) && Quiet(s)
    ensures s.inWork <==> forall run, t :: Reaches(s, run, t) ==> AllSelected(t.log)
  {
    assert Inv(s) && !s.uncovered by {
      RunKeepsInv(start, prefix, s);
    }
    hide Inv, Initial, Reaches, Quiet, AllSelected, Enabled, Apply;
    if s.inWork {
      CoveredContinuationsAreSelected(s);
    } else {
      var run, t := EscapeIsPossible(s);
      assert Reaches(s, run, t) && !AllSelected(t.log);
    }
  }
}
