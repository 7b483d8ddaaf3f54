/**
 All interleavings of one resident's scan turns with foreground ingress,
 lifecycle boundaries, Admin re-extractions and gated optional turns. A turn
 advances one lock-protected block at a time and keeps its locals in between;
 passive observers record what the discovery calls really covered.
 */
module ScanProtocol {
  import opened Common
  import opened Admission
  import opened MemoryScan

  /** What an observer of the discovery calls saw of the latest sweep of one queue. */
  datatype Pass = Pass(ceiling: nat, through: nat, found: bool)

  /** The block a worker turn runs next, with the locals it carries there. */
  datatype Turn =
    | AtDialogueEnd
    | AtClear
    | AtCapture
    | AtPhase(epoch: nat)
    | AtStartNormal(epoch: nat)
    | AtDiscoverNormal(epoch: nat, ticket: Ticket)
    | AtUpdateNormal(epoch: nat, ticket: Ticket, result: Discovery)
    | AtStartRe(epoch: nat)
    | AtDiscoverRe(epoch: nat, ticket: Ticket)
    | AtUpdateRe(epoch: nat, ticket: Ticket, result: Discovery)
    | AtCheckNormal(epoch: nat)
    | AtPublish(epoch: nat)

  /** Who holds the resident work lock. */
  datatype Holder =
    | Free
    | Worker(turn: Turn)
    | Admin(invalidated: bool)
    | Optional(gateEpoch: nat)

  /** What stood behind a published completeness flag at the moment of publication. */
  datatype Proof = Proof(epoch: nat, normalTag: nat, normal: Pass, reTag: nat, re: Pass)

  datatype Sys = Sys(
    adm: Standing,
    scan: Scan,
    holder: Holder,
    head: nat,              // newest durable commit
    admitted: set<nat>,     // commits of the re-extraction requests made durable so far
    normalPass: Option<Pass>,
    normalBegan: nat,       // epoch in force when the current normal cycle was tagged
    rePass: Option<Pass>,
    reBegan: nat,           // epoch in force when the current re-extraction cycle was opened
    proof: Option<Proof>
  )

  function Init(): Sys {
    Sys(Fresh(), Empty(), Free, 0, {}, None, 0, None, 0, None)
  }

  datatype Action =
    | OtherCommit
    | Ingress
    | Boundary
    | TakeWorker
    | RecordDialogue(cycleEpoch: nat)
    | Clear
    | Capture
    | Phase
    | StartNormalCycle
    | DiscoverNormal(result: Discovery, scannedTo: nat)
    | PublishNormalProgress
    | StartReCycle
    | DiscoverRe(result: Discovery, scannedTo: nat)
    | PublishReProgress
    | CheckNormal
    | PublishComplete
    | LeaveWorker
    | TakeAdmin
    | AdminInvalidate
    | AdminAdmit
    | LeaveAdmin
    | TakeOptional
    | LeaveOptional

  /**
   The repository's promise about one discovery pass: the ceiling is the one in
   the cursor or, without a cursor, everything durable now; a next cursor keeps
   the ceiling and stands where the pass stopped; a completed cycle reached the
   ceiling; returned work comes with a next cursor.
   */
  ghost predicate DiscoveryContract(cursor: Option<Cursor>, head: nat, d: Discovery, to: nat) {
    var ceiling := if cursor.Some? then cursor.value.ceiling else head;
    var from := if cursor.Some? then cursor.value.position else 0;
    && from <= to <= ceiling
    && (d.next.Some? ==> d.next.value == Cursor(to, ceiling))
    && (d.cycleComplete ==> to == ceiling)
    && (d.foundWork ==> d.next.Some?)
  }

  /** Follow one pass: a sweep starts at position 0 and goes on only where the last pass stopped or earlier. */
  ghost function Observe(pass: Option<Pass>, cursor: Option<Cursor>, head: nat, d: Discovery, to: nat): Option<Pass> {
    if cursor.None? then Some(Pass(head, to, d.foundWork))
    else if cursor.value.position == 0 then Some(Pass(cursor.value.ceiling, to, d.foundWork))
    else if pass.Some? && pass.value.ceiling == cursor.value.ceiling && cursor.value.position <= pass.value.through then
      Some(Pass(pass.value.ceiling, if to > pass.value.through then to else pass.value.through, pass.value.found || d.foundWork))
    else None
  }

  ghost predicate Enabled(s: Sys, a: Action) {
    match a
    case OtherCommit => true
    case Ingress => true
    case Boundary => true
    case TakeWorker => s.holder.Free?
    case RecordDialogue(_) => s.holder == Worker(AtDialogueEnd)
    case Clear => s.holder == Worker(AtClear)
    case Capture => s.holder == Worker(AtCapture)
    case Phase => s.holder.Worker? && s.holder.turn.AtPhase?
    case StartNormalCycle => s.holder.Worker? && s.holder.turn.AtStartNormal?
    case DiscoverNormal(d, to) =>
      s.holder.Worker? && s.holder.turn.AtDiscoverNormal? && DiscoveryContract(s.holder.turn.ticket.cursor, s.head, d, to)
    case PublishNormalProgress => s.holder.Worker? && s.holder.turn.AtUpdateNormal?
    case StartReCycle => s.holder.Worker? && s.holder.turn.AtStartRe?
    case DiscoverRe(d, to) =>
      s.holder.Worker? && s.holder.turn.AtDiscoverRe? && DiscoveryContract(s.holder.turn.ticket.cursor, s.head, d, to)
    case PublishReProgress => s.holder.Worker? && s.holder.turn.AtUpdateRe?
    case CheckNormal => s.holder.Worker? && s.holder.turn.AtCheckNormal?
    case PublishComplete => s.holder.Worker? && s.holder.turn.AtPublish?
    // A clean dialogue scan runs straight into clearing the flag, and a returned discovery result
    // straight into its progress block; at any other point the turn may return.
    case LeaveWorker =>
      s.holder.Worker? && !s.holder.turn.AtClear? && !s.holder.turn.AtUpdateNormal? && !s.holder.turn.AtUpdateRe?
    case TakeAdmin => s.holder.Free?
    case AdminInvalidate => s.holder.Admin?
    case AdminAdmit => s.holder == Admin(true)
    case LeaveAdmin => s.holder.Admin?
    // The gate re-checks both proofs after it owns the resident lock.
    case TakeOptional => s.holder.Free? && s.adm.clean == Some(s.adm.epoch) && s.scan.complete
    case LeaveOptional => s.holder.Optional?
  }

  ghost function Apply(s: Sys, a: Action): Sys
    requires Enabled(s, a)
  {
    match a
    case OtherCommit => s.(head := s.head + 1)
    case Ingress => s.(adm := Preempt(s.adm))
    case Boundary => s.(adm := InvalidateRuntime(s.adm), scan := Empty())
    case TakeWorker => s.(holder := Worker(AtDialogueEnd))
    case RecordDialogue(c) =>
      if s.adm.epoch == c then s.(adm := RecordClean(s.adm, c), holder := Worker(AtClear)) else s
    case Clear => s.(scan := SetComplete(s.scan, false), holder := Worker(AtCapture))
    case Capture => s.(holder := Worker(AtPhase(s.adm.epoch)))
    case Phase =>
      var e := s.holder.turn.epoch;
      s.(holder := Worker(if s.scan.reActive then AtStartRe(e) else AtStartNormal(e)))
    case StartNormalCycle => ApplyStartNormal(s)
    case DiscoverNormal(d, to) =>
      var t := s.holder.turn;
      s.(normalPass := Observe(s.normalPass, t.ticket.cursor, s.head, d, to),
         holder := Worker(AtUpdateNormal(t.epoch, t.ticket, d)))
    case PublishNormalProgress => ApplyUpdateNormal(s)
    case StartReCycle => ApplyStartRe(s)
    case DiscoverRe(d, to) =>
      var t := s.holder.turn;
      s.(rePass := Observe(s.rePass, t.ticket.cursor, s.head, d, to),
         holder := Worker(AtUpdateRe(t.epoch, t.ticket, d)))
    case PublishReProgress => ApplyUpdateRe(s)
    case CheckNormal =>
      var e := s.holder.turn.epoch;
      s.(holder := if s.scan.normalComplete == Some(e) then Worker(AtPublish(e)) else Free)
    case PublishComplete => ApplyPublish(s)
    case LeaveWorker => s.(holder := Free)
    case TakeAdmin => s.(holder := Admin(false))
    case AdminInvalidate => s.(scan := InvalidateForReextraction(s.scan), holder := Admin(true))
    case AdminAdmit => s.(head := s.head + 1, admitted := s.admitted + {s.head + 1})
    case LeaveAdmin => s.(holder := Free)
    case TakeOptional => s.(holder := Optional(s.adm.epoch))
    case LeaveOptional => s.(holder := Free)
  }

  ghost function ApplyStartNormal(s: Sys): Sys
    requires s.holder.Worker? && s.holder.turn.AtStartNormal?
  {
    var e := s.holder.turn.epoch;
    var (scan, ticket) := StartNormal(s.scan, s.adm.epoch, e);
    if ticket.None? then s.(holder := Free)
    else
      s.(scan := scan,
         normalBegan := if s.scan.normalEpoch.None? then s.adm.epoch else s.normalBegan,
         holder := Worker(AtDiscoverNormal(e, ticket.value)))
  }

  ghost function ApplyUpdateNormal(s: Sys): Sys
    requires s.holder.Worker? && s.holder.turn.AtUpdateNormal?
  {
    var t := s.holder.turn;
    var r := UpdateNormal(s.scan, s.adm.epoch, t.ticket.cycleEpoch, t.result);
    var goesOn := r.updated && !t.result.foundWork && t.result.cycleComplete && r.verified;
    s.(scan := r.scan,
       reBegan := if r.verified then s.adm.epoch else s.reBegan,
       holder := if goesOn then Worker(AtStartRe(t.epoch)) else Free)
  }

  ghost function ApplyStartRe(s: Sys): Sys
    requires s.holder.Worker? && s.holder.turn.AtStartRe?
  {
    var e := s.holder.turn.epoch;
    var (scan, ticket) := StartRe(s.scan, s.adm.epoch, e);
    if ticket.None? then s.(holder := Free)
    else s.(scan := scan, holder := Worker(AtDiscoverRe(e, ticket.value)))
  }

  ghost function ApplyUpdateRe(s: Sys): Sys
    requires s.holder.Worker? && s.holder.turn.AtUpdateRe?
  {
    var t := s.holder.turn;
    var r := UpdateRe(s.scan, s.adm.epoch, t.ticket.cycleEpoch, t.result);
    var goesOn := r.updated && !t.result.foundWork && t.result.cycleComplete && r.verified;
    s.(scan := r.scan, holder := if goesOn then Worker(AtCheckNormal(t.epoch)) else Free)
  }

  ghost function ApplyPublish(s: Sys): Sys
    requires s.holder.Worker? && s.holder.turn.AtPublish?
  {
    var (scan, published) := SetCompleteAtEpoch(s.scan, s.adm.epoch, s.holder.turn.epoch);
    var proof :=
      if published && s.normalPass.Some? && s.rePass.Some? then
        Some(Proof(s.adm.epoch, s.normalBegan, s.normalPass.value, s.reBegan, s.rePass.value))
      else if published then None
      else s.proof;
    s.(scan := scan, proof := proof, holder := Free)
  }

  // ------------------------------------------------------------ invariant

  ghost predicate Covered(p: Pass) {
    p.through == p.ceiling && !p.found
  }

  ghost predicate AllWithin(admitted: set<nat>, ceiling: nat) {
    forall a :: a in admitted ==> a <= ceiling
  }

  /** A stored cursor stands inside the sweep the observer saw, and found work has left its mark. */
  ghost predicate Tracks(cursor: Option<Cursor>, pass: Option<Pass>, dirty: bool) {
    cursor.Some? && cursor.value.position > 0 ==>
      && pass.Some?
      && pass.value.ceiling == cursor.value.ceiling
      && cursor.value.position <= pass.value.through <= pass.value.ceiling
      && (pass.value.found ==> dirty)
  }

  /** The same, between a discovery pass and the block that records its progress. */
  ghost predicate Pending(cursor: Option<Cursor>, d: Discovery, pass: Option<Pass>, dirty: bool) {
    && pass.Some?
    && pass.value.through <= pass.value.ceiling
    && (cursor.Some? ==> pass.value.ceiling == cursor.value.ceiling && cursor.value.position <= pass.value.through)
    && (d.next.Some? ==> d.next.value.ceiling == pass.value.ceiling && d.next.value.position <= pass.value.through)
    && (d.cycleComplete ==> pass.value.through == pass.value.ceiling)
    && (d.foundWork ==> d.next.Some?)
    && (pass.value.found ==> dirty || d.foundWork)
    && ((cursor.None? || cursor.value.position == 0) ==> (pass.value.found ==> d.foundWork))
  }

  ghost predicate InTurn(s: Sys) {
    s.holder.Worker?
  }

  ghost predicate NormalShape(s: Sys) {
    && (s.scan.normalEpoch.None? ==> s.scan.normalCursor.None? && !s.scan.normalDirty)
    && (s.scan.normalDirty ==> s.scan.normalCursor.Some?)
    && (s.scan.normalEpoch.Some? ==> s.scan.normalEpoch.value == s.normalBegan <= s.adm.epoch)
    && (InTurn(s) && (s.holder.turn.AtStartNormal? || s.holder.turn.AtDiscoverNormal? || s.holder.turn.AtUpdateNormal?) ==>
          !s.scan.reActive)
    && (InTurn(s) && (s.holder.turn.AtDiscoverNormal? || s.holder.turn.AtUpdateNormal?) && s.scan.normalEpoch.Some? ==>
          s.scan.normalCursor == s.holder.turn.ticket.cursor && s.scan.normalEpoch.value == s.holder.turn.ticket.cycleEpoch)
  }

  ghost predicate NormalTracked(s: Sys) {
    if InTurn(s) && s.holder.turn.AtUpdateNormal? then
      s.scan.normalEpoch.Some? ==>
        Pending(s.holder.turn.ticket.cursor, s.holder.turn.result, s.normalPass, s.scan.normalDirty)
    else
      Tracks(s.scan.normalCursor, s.normalPass, s.scan.normalDirty)
  }

  ghost predicate NormalProven(s: Sys) {
    s.scan.reActive || (InTurn(s) && s.holder.turn.AtCheckNormal?) ==>
      s.scan.normalComplete.Some? ==>
        && s.scan.normalComplete.value <= s.adm.epoch
        && s.normalPass.Some? && Covered(s.normalPass.value)
        && s.normalBegan == s.scan.normalComplete.value
  }

  /** Among the rest: an inactive re-extraction cycle holds no cursor. */
  ghost predicate ReShape(s: Sys) {
    && (s.scan.reActive <==> s.scan.reEpoch.Some?)
    && (!s.scan.reActive ==> s.scan.reCursor.None? && !s.scan.reDirty)
    && (s.scan.reDirty ==> s.scan.reCursor.Some?)
    && (s.scan.reActive ==> s.scan.reEpoch.value == s.reBegan <= s.adm.epoch)
    && (InTurn(s) && (s.holder.turn.AtDiscoverRe? || s.holder.turn.AtUpdateRe?) && s.scan.reActive ==>
          s.scan.reCursor == s.holder.turn.ticket.cursor && s.scan.reEpoch.value == s.holder.turn.ticket.cycleEpoch)
  }

  ghost predicate ReTracked(s: Sys) {
    if InTurn(s) && s.holder.turn.AtUpdateRe? then
      s.scan.reActive ==>
        && Pending(s.holder.turn.ticket.cursor, s.holder.turn.result, s.rePass, s.scan.reDirty)
        && (s.scan.rescanPending || AllWithin(s.admitted, s.rePass.value.ceiling))
    else
      && Tracks(s.scan.reCursor, s.rePass, s.scan.reDirty)
      && (s.scan.reCursor.Some? ==> s.scan.rescanPending || AllWithin(s.admitted, s.scan.reCursor.value.ceiling))
  }

  ghost predicate TurnEpochs(s: Sys) {
    InTurn(s) ==>
      match s.holder.turn
      case AtDialogueEnd => true
      case AtClear => true
      case AtCapture => true
      case AtDiscoverNormal(e, t) => t.cycleEpoch <= e <= s.adm.epoch
      case AtUpdateNormal(e, t, _) => t.cycleEpoch <= e <= s.adm.epoch
      case AtDiscoverRe(e, t) => t.cycleEpoch <= e <= s.adm.epoch
      case AtUpdateRe(e, t, _) => t.cycleEpoch <= e <= s.adm.epoch
      case AtPhase(e) => e <= s.adm.epoch
      case AtStartNormal(e) => e <= s.adm.epoch
      case AtStartRe(e) => e <= s.adm.epoch
      case AtCheckNormal(e) => e <= s.adm.epoch && (e == s.adm.epoch ==> ReProven(s, e))
      case AtPublish(e) => e <= s.adm.epoch && (e == s.adm.epoch ==> ReProven(s, e) && FullNormal(s, e))
  }

  ghost predicate ReProven(s: Sys, e: nat) {
    && s.rePass.Some? && Covered(s.rePass.value) && s.reBegan == e
    && AllWithin(s.admitted, s.rePass.value.ceiling)
  }

  ghost predicate FullNormal(s: Sys, e: nat) {
    s.normalPass.Some? && Covered(s.normalPass.value) && s.normalBegan == e
  }

  /** What a raised completeness flag means. */
  ghost predicate ProofHolds(s: Sys) {
    s.scan.complete ==>
      && s.proof.Some?
      && var p := s.proof.value;
         && p.epoch <= s.adm.epoch
         && p.normalTag == p.epoch && p.reTag == p.epoch
         && Covered(p.normal) && Covered(p.re)
         && AllWithin(s.admitted, p.re.ceiling)
  }

  ghost predicate Gate(s: Sys) {
    && (s.adm.clean.Some? ==> s.adm.clean.value <= s.adm.epoch)
    && (s.holder != Worker(AtClear) && s.adm.clean == Some(s.adm.epoch) && s.scan.complete ==>
          s.proof.Some? && s.proof.value.epoch == s.adm.epoch)
    && (s.holder.Optional? && s.adm.clean == Some(s.adm.epoch) ==>
          s.scan.complete && s.holder.gateEpoch == s.adm.epoch)
  }

  ghost predicate Inv(s: Sys) {
    && NormalShape(s) && NormalTracked(s) && NormalProven(s)
    && ReShape(s) && ReTracked(s)
    && TurnEpochs(s)
    && ProofHolds(s)
    && Gate(s)
    && AllWithin(s.admitted, s.head)
    && (s.holder == Admin(true) ==> !s.scan.complete && (s.scan.reCursor.Some? ==> s.scan.rescanPending))
  }

  // ------------------------------------------------ every block keeps it

  lemma CommitKeepsInv(s: Sys)
    requires Inv(s)
    ensures Inv(Apply(s, OtherCommit))
  {
    hide Tracks, Pending, Covered;
  }

  lemma IngressKeepsInv(s: Sys)
    requires Inv(s)
    ensures Inv(Apply(s, Ingress))
  {
    hide Tracks, Pending, Covered, AllWithin;
  }

  lemma BoundaryKeepsInv(s: Sys)
    requires Inv(s)
    ensures Inv(Apply(s, Boundary))
  {
    hide Pending, Covered, AllWithin;
  }

  lemma LockMovesKeepInv(s: Sys, a: Action)
    requires Inv(s) && Enabled(s, a)
    requires a.TakeWorker? || a.LeaveWorker? || a.TakeAdmin? || a.LeaveAdmin? || a.TakeOptional? || a.LeaveOptional?
    ensures Inv(Apply(s, a))
  {
  }

  lemma TurnOpeningKeepsInv(s: Sys, a: Action)
    requires Inv(s) && Enabled(s, a)
    requires a.RecordDialogue? || a.Clear? || a.Capture? || a.Phase?
    ensures Inv(Apply(s, a))
  {
  }

  lemma TurnClosingKeepsInv(s: Sys, a: Action)
    requires Inv(s) && Enabled(s, a)
    requires a.CheckNormal? || a.PublishComplete?
    ensures Inv(Apply(s, a))
  {
  }

  lemma AdminKeepsInv(s: Sys, a: Action)
    requires Inv(s) && Enabled(s, a)
    requires a.AdminInvalidate? || a.AdminAdmit?
    ensures Inv(Apply(s, a))
  {
  }

  lemma StartNormalKeepsInv(s: Sys)
    requires Inv(s) && Enabled(s, StartNormalCycle)
    ensures Inv(ApplyStartNormal(s))
  {
    var s' := ApplyStartNormal(s);
    assert NormalShape(s');
    assert NormalTracked(s') && NormalProven(s');
  }

  lemma DiscoverNormalKeepsInv(s: Sys, d: Discovery, to: nat)
    requires Inv(s) && Enabled(s, DiscoverNormal(d, to))
    ensures Inv(Apply(s, DiscoverNormal(d, to)))
  {
  }

  lemma UpdateNormalKeepsInv(s: Sys)
    requires Inv(s) && Enabled(s, PublishNormalProgress)
    ensures Inv(ApplyUpdateNormal(s))
  {
    var s' := ApplyUpdateNormal(s);
    assert NormalShape(s');
    assert NormalTracked(s') && NormalProven(s');
  }

  lemma StartReKeepsInv(s: Sys)
    requires Inv(s) && Enabled(s, StartReCycle)
    ensures Inv(ApplyStartRe(s))
  {
    var s' := ApplyStartRe(s);
    assert ReShape(s');
    assert ReTracked(s');
  }

  lemma DiscoverReKeepsInv(s: Sys, d: Discovery, to: nat)
    requires Inv(s) && Enabled(s, DiscoverRe(d, to))
    ensures Inv(Apply(s, DiscoverRe(d, to)))
  {
  }

  lemma UpdateReKeepsCycle(s: Sys)
    requires ReShape(s) && ReTracked(s) && Enabled(s, PublishReProgress)
    ensures var s' := ApplyUpdateRe(s); ReShape(s') && ReTracked(s')
    ensures ApplyUpdateRe(s).holder.Worker? ==>
              s.rePass.Some? && Covered(s.rePass.value) && AllWithin(s.admitted, s.rePass.value.ceiling)
  {
  }

  lemma UpdateReKeepsInv(s: Sys)
    requires Inv(s) && Enabled(s, PublishReProgress)
    ensures Inv(ApplyUpdateRe(s))
  {
    UpdateReKeepsCycle(s);
    assert NormalShape(ApplyUpdateRe(s)) && NormalTracked(ApplyUpdateRe(s));
  }

  lemma StepKeepsInv(s: Sys, a: Action)
    requires Inv(s) && Enabled(s, a)
    ensures Inv(Apply(s, a))
  {
    hide Inv, Enabled, ApplyStartNormal, ApplyUpdateNormal, ApplyStartRe, ApplyUpdateRe;
    match a
    case OtherCommit => CommitKeepsInv(s);
    case Ingress => IngressKeepsInv(s);
    case Boundary => BoundaryKeepsInv(s);
    case TakeWorker => LockMovesKeepInv(s, a);
    case RecordDialogue(_) => TurnOpeningKeepsInv(s, a);
    case Clear => TurnOpeningKeepsInv(s, a);
    case Capture => TurnOpeningKeepsInv(s, a);
    case Phase => TurnOpeningKeepsInv(s, a);
    case StartNormalCycle => StartNormalKeepsInv(s);
    case DiscoverNormal(d, to) => DiscoverNormalKeepsInv(s, d, to);
    case PublishNormalProgress => UpdateNormalKeepsInv(s);
    case StartReCycle => StartReKeepsInv(s);
    case DiscoverRe(d, to) => DiscoverReKeepsInv(s, d, to);
    case PublishReProgress => UpdateReKeepsInv(s);
    case CheckNormal => TurnClosingKeepsInv(s, a);
    case PublishComplete => TurnClosingKeepsInv(s, a);
    case LeaveWorker => LockMovesKeepInv(s, a);
    case TakeAdmin => LockMovesKeepInv(s, a);
    case AdminInvalidate => AdminKeepsInv(s, a);
    case AdminAdmit => AdminKeepsInv(s, a);
    case LeaveAdmin => LockMovesKeepInv(s, a);
    case TakeOptional => LockMovesKeepInv(s, a);
    case LeaveOptional => LockMovesKeepInv(s, a);
  }

  // ------------------------------------------------------------- theorems

  /** Every step of `run` is enabled where it is taken, and the run ends in `to`. */
  ghost predicate Reaches(from: Sys, run: seq<Action>, to: Sys)
    decreases |run|
  {
    if run == [] then from == to
    else Enabled(from, run[0]) && Reaches(Apply(from, run[0]), run[1..], to)
  }

  lemma {:induction false} RunKeepsInv(from: Sys, run: seq<Action>, to: Sys)
    requires Inv(from) && Reaches(from, run, to)
    ensures Inv(to)
    decreases |run|
  {
    if run != [] {
      StepKeepsInv(from, run[0]);
      RunKeepsInv(Apply(from, run[0]), run[1..], to);
    }
  }

  /**
   Publication: a turn raises the completeness flag only at its own epoch e, and
   then the last normal sweep and the last re-extraction sweep each reached their own
   ceiling without meeting work, both cycles carry the tag e, the epoch is
   still what it was when the normal cycle was tagged, and every re-extraction
   request admitted so far lies within the ceiling just swept.
   */
  lemma PublishedFlagIsProven(run: seq<Action>, s: Sys)
    requires Reaches(Init(), run, s) && Enabled(s, PublishComplete)
    ensures var e := s.adm.epoch;
            var s' := Apply(s, PublishComplete);
            if s.holder.turn.epoch == e then
              && s'.scan.complete
              && s.normalPass.Some? && Covered(s.normalPass.value)
              && s.rePass.Some? && Covered(s.rePass.value)
              && s.normalBegan == e && s.reBegan == e
              && AllWithin(s.admitted, s.rePass.value.ceiling)
              && s'.proof == Some(Proof(e, e, s.normalPass.value, e, s.rePass.value))
            else
              s'.scan == s.scan
  {
    RunKeepsInv(Init(), run, s);
  }

  /**
   The flag keeps its meaning for as long as it stays raised: in every reachable
   state it is backed by such a pair of sweeps and by a ceiling that no admitted
   re-extraction request has passed since.
   */
  lemma RaisedFlagStaysProven(run: seq<Action>, s: Sys)
    requires Reaches(Init(), run, s)
    ensures ProofHolds(s)
  {
    RunKeepsInv(Init(), run, s);
  }

  /**
   The optional-work gate: an autonomous turn that holds the resident lock can
   find the dialogue proof current only while the memory proof is current too.
   The flag itself is not reset by ingress, so neither proof alone would do.
   */
  lemma GateSeesOneEpoch(run: seq<Action>, s: Sys)
    requires Reaches(Init(), run, s)
    requires s.holder.Optional? && Admits(s.adm, false, s.adm.epoch, true, true)
    ensures s.scan.complete && s.proof.Some? && s.proof.value.epoch == s.adm.epoch == s.holder.gateEpoch
    ensures AllWithin(s.admitted, s.proof.value.re.ceiling)
  {
    RunKeepsInv(Init(), run, s);
  }
}
