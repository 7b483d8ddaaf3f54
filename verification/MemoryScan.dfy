/**
 One resident's mandatory-memory scan cycles. A normal cycle sweeps extraction
 obligations up to a fixed ceiling; its clean completion opens a re-extraction
 cycle with a ceiling of its own. Each function is one block that the program
 runs with `memoryStateMu` held.
 */
module MemoryScan {
  import opened Common

  /** A resume position inside a sweep whose ceiling stays fixed; position 0 is its beginning. */
  datatype Cursor = Cursor(position: nat, ceiling: nat)

  datatype Discovery = Discovery(foundWork: bool, next: Option<Cursor>, cycleComplete: bool)

  datatype Scan = Scan(
    fairCursor: Option<Cursor>,
    normalCursor: Option<Cursor>,
    normalEpoch: Option<nat>,
    normalDirty: bool,
    normalComplete: Option<nat>,
    reCursor: Option<Cursor>,
    reActive: bool,
    reEpoch: Option<nat>,
    reDirty: bool,
    rescanPending: bool,
    complete: bool
  )

  function Empty(): Scan {
    Scan(None, None, None, false, None, None, false, None, false, false, false)
  }

  /** What a caller of a start block holds afterwards: the cursor copy and the cycle's epoch tag. */
  datatype Ticket = Ticket(cursor: Option<Cursor>, cycleEpoch: nat)

  function StartNormal(s: Scan, epoch: nat, expected: nat): (Scan, Option<Ticket>) {
    if epoch != expected then (s, None)
    else
      var tag := if s.normalEpoch.Some? then s.normalEpoch.value else expected;
      (s.(normalEpoch := Some(tag)), Some(Ticket(s.normalCursor, tag)))
  }

  datatype Updated = Updated(scan: Scan, updated: bool, verified: bool)

  function CloseRe(s: Scan): Scan {
    s.(reActive := false, reEpoch := None)
  }

  function UpdateNormal(s: Scan, epoch: nat, cycleEpoch: nat, d: Discovery): Updated {
    if s.normalEpoch != Some(cycleEpoch) then Updated(s, false, false)
    else
      var cursor := if d.next.Some? then d.next else s.normalCursor;
      var t := s.(normalCursor := cursor, normalDirty := s.normalDirty || d.foundWork);
      if !d.cycleComplete then Updated(t.(normalComplete := None), true, false)
      else if t.normalDirty then
        if cursor.None? then Updated(t, false, false)
        else
          Updated(CloseRe(t.(normalCursor := Some(Cursor(0, cursor.value.ceiling)), normalDirty := false, normalComplete := None)),
                  true, false)
      else
        var u := t.(normalCursor := None, normalEpoch := None);
        if epoch != cycleEpoch then Updated(CloseRe(u.(normalComplete := None)), true, false)
        else
          Updated(u.(reActive := true, reEpoch := Some(cycleEpoch), normalComplete := Some(cycleEpoch)), true, true)
  }

  function StartRe(s: Scan, epoch: nat, expected: nat): (Scan, Option<Ticket>) {
    if epoch != expected || !s.reActive then (s, None)
    else
      var tag := if s.reEpoch.Some? then s.reEpoch.value else expected;
      var t := s.(reEpoch := Some(tag));
      (if s.reCursor.None? then t.(rescanPending := false) else t, Some(Ticket(s.reCursor, tag)))
  }

  function UpdateRe(s: Scan, epoch: nat, cycleEpoch: nat, d: Discovery): Updated {
    if s.reEpoch != Some(cycleEpoch) then Updated(s, false, false)
    else
      var cursor := if d.next.Some? then d.next else s.reCursor;
      var t := s.(reCursor := cursor, reDirty := s.reDirty || d.foundWork);
      if !d.cycleComplete then Updated(t.(reActive := true), true, false)
      else if t.reDirty then
        if cursor.None? then Updated(t, false, false)
        else Updated(t.(reCursor := Some(Cursor(0, cursor.value.ceiling)), reDirty := false, reActive := true), true, false)
      else if t.rescanPending then
        Updated(CloseRe(t.(reCursor := None, normalComplete := None)), true, false)
      else
        Updated(CloseRe(t.(reCursor := None)), true, epoch == cycleEpoch)
  }

  function UpdateFair(s: Scan, epoch: nat, expected: nat, d: Discovery): (Scan, bool) {
    if epoch != expected then (s, false)
    else
      var t := if d.next.Some? then s.(fairCursor := d.next) else s;
      (if d.cycleComplete then t.(fairCursor := None) else t, true)
  }

  /** An Admin re-extraction is about to be admitted: withdraw the published proof. */
  function InvalidateForReextraction(s: Scan): Scan {
    s.(complete := false, rescanPending := true)
  }

  function SetComplete(s: Scan, complete: bool): Scan {
    s.(complete := complete)
  }

  function SetCompleteAtEpoch(s: Scan, epoch: nat, expected: nat): (Scan, bool) {
    if epoch != expected then (s, false) else (s.(complete := true), true)
  }
}
