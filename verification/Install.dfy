/**
 Crash-atomic installation of several prepared directories at once, and its recovery.

 The disk, the journal record and the point of control are one state. `Proceed` performs the
 next step of whatever is running, a look at the disk or a change of it; a crash, an I/O
 failure, an interrupted recursive removal or an outside edit of a destination can come
 between any two steps, also between a look and the change it leads to.
 */
module Install {
  import opened Wrappers

  /** A directory tree on disk. Fingerprints compare `value`; `user` says whose it is. */
  datatype Dir = Dir(value: nat, user: bool)

  /** What the journal fixes about one destination before anything is touched. */
  datatype Entry = Entry(hadCurrent: bool, original: nat, installed: nat)

  /** The places one entry owns: the destination, its staging directory's two children, and
      the recovery quarantine. `pin` marks the parent directory as still the same one. */
  datatype Slot = Slot(
    destination: Option<Dir>, next: Option<Dir>, rollback: Option<Dir>, quarantine: Option<Dir>, pin: bool)

  datatype Phase = PhasePrepared | PhasePreserved | PhaseInstalled

  datatype Record = Record(committed: bool, phases: seq<Phase>)

  datatype Control =
    | WriteRecord
    | Preserve(i: nat)        // looks at the destination
    | MoveAside(i: nat)       // the look found the original
    | MarkPreserved(i: nat)
    | Place(i: nat)
    | MarkInstalled(i: nat)
    | Commit
    | Inspect(i: nat)         // recovery looks at entry i, going down
    | Removing(i: nat)        // the look found the installed tree at the destination
    | SetAside(i: nat)        // the look found something else there
    | Restore(i: nat)
    | CheckInstalled
    | RemoveStaging(i: nat)
    | RemoveRecord
    | RemovePin(i: nat)
    | Finished
    | Stopped                 // nothing is running; the next run starts with recovery

  datatype State = State(
    entries: seq<Entry>, slots: seq<Slot>, record: Option<Record>, control: Control,
    everCommitted: bool)      // the commit record has been durable

  datatype Action =
    | Proceed
    | Crash
    | Fail                                                    // an I/O error in the current step
    | InterruptRemoval(remnant: nat, rollbackToo: bool)       // a crash inside a recursive removal
    | Edit(i: nat, content: Option<nat>)                      // someone else changes a destination

  predicate WellFormed(s: State) {
    && s.entries != [] && |s.slots| == |s.entries|
    && (s.record.Some? ==> |s.record.value.phases| == |s.entries|)
  }

  function Prepared(entries: seq<Entry>): State {
    State(entries,
          seq(|entries|, i requires 0 <= i < |entries| =>
            Slot(if entries[i].hadCurrent then Some(Dir(entries[i].original, true)) else None,
                 Some(Dir(entries[i].installed, false)), None, None, true)),
          None, WriteRecord, false)
  }

  // ----- The steps -----

  function Update(s: State, i: nat, slot: Slot, control: Control): State
    requires i < |s.slots|
  {
    s.(slots := s.slots[i := slot], control := control)
  }

  /** A failed installation step rolls back at once, or only cleans up while there is no record
      yet; a failed recovery step gives up for now. */
  function Failed(s: State): State {
    if s.control.WriteRecord? then s.(control := RemoveStaging(0))
    else if s.control.Preserve? || s.control.MoveAside? || s.control.MarkPreserved? || s.control.Place? ||
       s.control.MarkInstalled? || s.control.Commit?
    then s.(control := StartRecovery(s))
    else s.(control := Stopped)
  }

  function StartRecovery(s: State): Control {
    match s.record
    case None => Finished
    case Some(record) =>
      if record.committed then CheckInstalled
      else if s.entries == [] then Stopped
      else Inspect(|s.entries| - 1)
  }

  function WritePhase(s: State, i: nat, phase: Phase, control: Control): State
    requires WellFormed(s) && i < |s.entries|
  {
    match s.record
    case None => s.(control := Stopped)
    case Some(record) => s.(record := Some(record.(phases := record.phases[i := phase])), control := control)
  }

  /** Looks whether the destination is the original, or that there is none. */
  function PreserveStep(s: State, i: nat): State
    requires WellFormed(s) && i < |s.entries|
  {
    var e, slot := s.entries[i], s.slots[i];
    if !slot.pin then Failed(s)
    else if e.hadCurrent then
      if slot.destination.None? || slot.destination.value.value != e.original then Failed(s)
      else s.(control := MoveAside(i))
    else if slot.destination.Some? then Failed(s)
    else s.(control := Place(i))
  }

  /** Renames whatever is at the destination by now. */
  function MoveAsideStep(s: State, i: nat): State
    requires WellFormed(s) && i < |s.entries|
  {
    var slot := s.slots[i];
    if slot.destination.None? then Failed(s)
    else Update(s, i, slot.(destination := None, rollback := slot.destination), MarkPreserved(i))
  }

  function PlaceStep(s: State, i: nat): State
    requires WellFormed(s) && i < |s.entries|
  {
    var slot := s.slots[i];
    if slot.next.None? || slot.destination.Some? then Failed(s)
    else Update(s, i, slot.(destination := slot.next, next := None), MarkInstalled(i))
  }

  /** After entry `i`, recovery goes on with the entry before it, then cleans up. */
  function NextEntry(i: nat): Control {
    if i == 0 then RemoveStaging(0) else Inspect(i - 1)
  }

  /** How recovery goes on once the destination of entry `i` is free. */
  function Freed(s: State, i: nat): Control
    requires WellFormed(s) && i < |s.entries|
  {
    if s.entries[i].hadCurrent then Restore(i) else NextEntry(i)
  }

  /** What the fingerprint of an existing destination leads to. */
  function Fingerprinted(s: State, i: nat): State
    requires WellFormed(s) && i < |s.entries| && s.slots[i].destination.Some?
  {
    s.(control := if s.slots[i].destination.value.value == s.entries[i].installed then Removing(i) else SetAside(i))
  }

  function InspectStep(s: State, i: nat): State
    requires WellFormed(s) && i < |s.entries| && s.record.Some?
  {
    var e, slot, phase := s.entries[i], s.slots[i], s.record.value.phases[i];
    if !slot.pin then s.(control := Stopped)
    else if e.hadCurrent then
      if slot.rollback.Some? then
        if slot.destination.Some? then Fingerprinted(s, i) else s.(control := Restore(i))
      else if slot.destination.Some? && slot.destination.value.value == e.original then
        s.(control := NextEntry(i))
      else if slot.quarantine.Some? then s.(control := Stopped)
      else if slot.destination.None? || slot.next.None? || phase != PhasePrepared then s.(control := Stopped)
      else s.(control := NextEntry(i))
    else if slot.destination.Some? then
      if slot.next.Some? && phase == PhasePrepared then s.(control := Stopped) else Fingerprinted(s, i)
    else s.(control := NextEntry(i))
  }

  /** Removes whatever is at the destination by now. */
  function RemovingStep(s: State, i: nat): State
    requires WellFormed(s) && i < |s.entries|
  {
    Update(s, i, s.slots[i].(destination := None), Freed(s, i))
  }

  /** Renames whatever is at the destination by now, if the quarantine is free. */
  function SetAsideStep(s: State, i: nat): State
    requires WellFormed(s) && i < |s.entries|
  {
    var slot := s.slots[i];
    if slot.quarantine.Some? || slot.destination.None? then s.(control := Stopped)
    else Update(s, i, slot.(destination := None, quarantine := slot.destination), Freed(s, i))
  }

  function RestoreStep(s: State, i: nat): State
    requires WellFormed(s) && i < |s.entries|
  {
    var slot := s.slots[i];
    if slot.rollback.None? || slot.destination.Some? then s.(control := Stopped)
    else Update(s, i, slot.(destination := slot.rollback, rollback := None), NextEntry(i))
  }

  function RemoveStagingStep(s: State, i: nat): State
    requires WellFormed(s) && i < |s.entries|
  {
    var slot := s.slots[i];
    if !slot.pin then s.(control := Stopped)
    else Update(s, i, slot.(next := None, rollback := None),
                if i + 1 < |s.entries| then RemoveStaging(i + 1) else RemoveRecord)
  }

  function ProceedStep(s: State): State
    requires WellFormed(s)
  {
    var n := |s.entries|;
    match s.control
    case WriteRecord =>
      s.(record := Some(Record(false, seq(n, _ => PhasePrepared))), control := Preserve(0))
    case Preserve(i) => if i < n then PreserveStep(s, i) else s
    case MoveAside(i) => if i < n then MoveAsideStep(s, i) else s
    case MarkPreserved(i) => if i < n then WritePhase(s, i, PhasePreserved, Place(i)) else s
    case Place(i) => if i < n then PlaceStep(s, i) else s
    case MarkInstalled(i) =>
      if i < n then WritePhase(s, i, PhaseInstalled, if i + 1 < n then Preserve(i + 1) else Commit) else s
    case Commit =>
      if s.record.None? then s
      else s.(record := Some(s.record.value.(committed := true)), control := CheckInstalled, everCommitted := true)
    case Inspect(i) => if i < n && s.record.Some? then InspectStep(s, i) else s
    case Removing(i) => if i < n then RemovingStep(s, i) else s
    case SetAside(i) => if i < n then SetAsideStep(s, i) else s
    case Restore(i) => if i < n then RestoreStep(s, i) else s
    case CheckInstalled =>
      if forall i | 0 <= i < n :: s.slots[i].pin && s.slots[i].destination.Some?
      then s.(control := RemoveStaging(0)) else s.(control := Stopped)
    case RemoveStaging(i) => if i < n then RemoveStagingStep(s, i) else s
    case RemoveRecord => s.(record := None, control := RemovePin(0))
    case RemovePin(i) =>
      if i < n then Update(s, i, s.slots[i].(pin := false), if i + 1 < n then RemovePin(i + 1) else Finished) else s
    case Finished => s
    case Stopped => s.(control := StartRecovery(s))
  }

  /** A crash inside a recursive removal leaves part of the tree behind. */
  function Interrupted(s: State, remnant: nat, rollbackToo: bool): State
    requires WellFormed(s)
  {
    var left := Some(Dir(remnant, false));
    var n := |s.entries|;
    match s.control
    case Removing(i) =>
      if i < n && s.slots[i].destination.Some?
      then Update(s, i, s.slots[i].(destination := left), Stopped)
      else s.(control := Stopped)
    case RemoveStaging(i) =>
      if i < n && s.slots[i].pin
      then Update(s, i, s.slots[i].(next := if s.slots[i].next.None? then None else left,
                                    rollback := if s.slots[i].rollback.None? || rollbackToo then None else left),
                                      Stopped)
      else s.(control := Stopped)
    case _ => s.(control := Stopped)
  }

  function Next(s: State, a: Action): State
    requires WellFormed(s)
  {
    match a
    case Proceed => ProceedStep(s)
    case Crash => if s.control.Finished? then s else s.(control := Stopped)
    case Fail => if s.control.Finished? then s else Failed(s)
    case InterruptRemoval(remnant, rollbackToo) =>
      if s.control.Finished? then s else Interrupted(s, remnant, rollbackToo)
    case Edit(i, content) =>
      if i < |s.slots|
      then Update(s, i, s.slots[i].(destination := if content.None? then None else Some(Dir(content.value, true))),
        s.control)
      else s
  }

  lemma NextIsWellFormed(s: State, a: Action)
    requires WellFormed(s)
    ensures WellFormed(Next(s, a)) && Next(s, a).entries == s.entries
  {}

  function Run(s: State, actions: seq<Action>): (r: State)
    requires WellFormed(s)
    ensures WellFormed(r) && r.entries == s.entries
    decreases actions
  {
    if actions == [] then s
    else
      NextIsWellFormed(s, actions[0]);
      Run(Next(s, actions[0]), actions[1..])
  }

  // ----- Without outside edits: all or nothing -----

  /** The destination is as it was before the installation. */
  predicate Restored(e: Entry, slot: Slot) {
    && slot.rollback == None
    && slot.destination == if e.hadCurrent then Some(Dir(e.original, true)) else None
  }

  /** Recovery can bring the destination back: the original is safe in one place or the other,
      and whatever else is at the destination is ours to remove. */
  predicate Recoverable(e: Entry, slot: Slot) {
    || Restored(e, slot)
    || (&& slot.rollback == (if e.hadCurrent then Some(Dir(e.original, true)) else None)
        && (slot.destination.Some? ==>
              slot.next == None && slot.quarantine == None && !slot.destination.value.user))
  }

  /** The original is aside and something of ours, whole or not, is at the destination. */
  predicate HalfInstalled(e: Entry, slot: Slot) {
    && slot.rollback == (if e.hadCurrent then Some(Dir(e.original, true)) else None)
    && slot.destination.Some? && !slot.destination.value.user && slot.next == None && slot.quarantine == None
  }

  predicate Untouched(e: Entry, slot: Slot) {
    Restored(e, slot) && slot.next == Some(Dir(e.installed, false)) && slot.quarantine == None
  }

  predicate Installed(e: Entry, slot: Slot) {
    slot.destination == Some(Dir(e.installed, false))
  }

  predicate Fresh(e: Entry, slot: Slot) {
    && Installed(e, slot) && slot.next == None && slot.quarantine == None
    && slot.rollback == if e.hadCurrent then Some(Dir(e.original, true)) else None
  }

  predicate MovedAside(e: Entry, slot: Slot) {
    && slot.next == Some(Dir(e.installed, false)) && slot.quarantine == None && slot.destination == None
    && slot.rollback == if e.hadCurrent then Some(Dir(e.original, true)) else None
  }

  /** The installation has done the entries before `i` and not begun those after it. */
  ghost predicate Reached(s: State, i: nat)
    requires WellFormed(s)
  {
    && i < |s.entries|
    && (forall k | 0 <= k < i :: Fresh(s.entries[k], s.slots[k]))
    && (forall k | i < k < |s.entries| :: Untouched(s.entries[k], s.slots[k]))
  }

  ghost predicate InstallingInv(s: State)
    requires WellFormed(s)
  {
    var n := |s.entries|;
    match s.control
    case WriteRecord => s.record == None && forall k | 0 <= k < n :: Untouched(s.entries[k], s.slots[k])
    case Preserve(i) => Reached(s, i) && Untouched(s.entries[i], s.slots[i])
    case MoveAside(i) => Reached(s, i) && Untouched(s.entries[i], s.slots[i]) && s.entries[i].hadCurrent
    case MarkPreserved(i) => Reached(s, i) && MovedAside(s.entries[i], s.slots[i])
    case Place(i) => Reached(s, i) && MovedAside(s.entries[i], s.slots[i])
    case MarkInstalled(i) => Reached(s, i) && Fresh(s.entries[i], s.slots[i])
    case Commit => forall k | 0 <= k < n :: Fresh(s.entries[k], s.slots[k])
    case _ => true
  }

  ghost predicate RecoveryInv(s: State)
    requires WellFormed(s)
  {
    var n := |s.entries|;
    match s.control
    case Inspect(i) => i < n && forall k | i < k < n :: Restored(s.entries[k], s.slots[k])
    case Removing(i) =>
      i < n && HalfInstalled(s.entries[i], s.slots[i]) && forall k | i < k < n :: Restored(s.entries[k], s.slots[k])
    case SetAside(i) =>
      i < n && HalfInstalled(s.entries[i], s.slots[i]) && forall k | i < k < n :: Restored(s.entries[k], s.slots[k])
    case Restore(i) =>
      && i < n && (forall k | i < k < n :: Restored(s.entries[k], s.slots[k]))
      && s.slots[i].destination == None && s.slots[i].rollback.Some?
    case RemoveStaging(i) => i < n && (s.everCommitted || forall k | 0 <= k < n :: Restored(s.entries[k], s.slots[k]))
    case RemoveRecord => s.everCommitted || forall k | 0 <= k < n :: Restored(s.entries[k], s.slots[k])
    case CheckInstalled => s.everCommitted
    case RemovePin(i) => i < n && s.record == None
    case Finished => s.record == None
    case _ => true
  }

  /** What holds in every state of a run without outside edits. */
  ghost predicate Inv(s: State) {
    && WellFormed(s)
    && (s.record.Some? ==> s.record.value.committed == s.everCommitted)
    && (s.record.Some? ==> forall k | 0 <= k < |s.slots| :: s.slots[k].pin)
    && (s.record.None? ==>
          s.control.WriteRecord? || s.control.RemoveStaging? || s.control.RemoveRecord? || s.control.RemovePin? ||
          s.control.Finished? || s.control.Stopped?)
    && (if s.everCommitted then
          && (forall k | 0 <= k < |s.entries| :: Installed(s.entries[k], s.slots[k]))
          && (s.control.CheckInstalled? || s.control.RemoveStaging? || s.control.RemoveRecord? ||
              s.control.RemovePin? || s.control.Finished? || s.control.Stopped?)
        else if s.record.Some? then
          forall k | 0 <= k < |s.entries| :: Recoverable(s.entries[k], s.slots[k])
        else
          forall k | 0 <= k < |s.entries| :: Restored(s.entries[k], s.slots[k]))
    && (s.control.WriteRecord? || s.control.RemoveStaging? ==> forall k | 0 <= k < |s.slots| :: s.slots[k].pin)
    && InstallingInv(s) && RecoveryInv(s)
  }

  lemma PreparedInv(entries: seq<Entry>)
    requires entries != []
    ensures Inv(Prepared(entries))
  {}

  lemma InstallStepInv(s: State)
    requires Inv(s)
    requires s.control.WriteRecord? || s.control.MarkPreserved? || s.control.MarkInstalled? || s.control.Commit?
    ensures Inv(ProceedStep(s))
  {}

  lemma PreserveStepInv(s: State)
    requires Inv(s) && (s.control.Preserve? || s.control.MoveAside?)
    ensures Inv(ProceedStep(s))
  {}

  lemma PlaceStepInv(s: State)
    requires Inv(s) && s.control.Place?
    ensures Inv(ProceedStep(s))
  {}

  lemma InspectOriginalInv(s: State)
    requires Inv(s) && s.control.Inspect? && s.entries[s.control.i].hadCurrent
    ensures Inv(ProceedStep(s)) && ProceedStep(s).control != Stopped
  {}

  lemma InspectNewInv(s: State)
    requires Inv(s) && s.control.Inspect? && !s.entries[s.control.i].hadCurrent
    ensures Inv(ProceedStep(s)) && ProceedStep(s).control != Stopped
  {}

  lemma FreeStepInv(s: State)
    requires Inv(s) && (s.control.Removing? || s.control.SetAside?)
    ensures Inv(ProceedStep(s)) && ProceedStep(s).control != Stopped
  {}

  lemma RestoreStepInv(s: State)
    requires Inv(s) && s.control.Restore?
    ensures Inv(ProceedStep(s)) && ProceedStep(s).control != Stopped
  {}

  lemma CleanupStepInv(s: State)
    requires Inv(s)
    requires s.control.CheckInstalled? || s.control.RemoveRecord? ||
             s.control.RemovePin? || s.control.Finished? || s.control.Stopped?
    ensures Inv(ProceedStep(s)) && ProceedStep(s).control != Stopped
  {}

  lemma RemoveStagingInv(s: State)
    requires Inv(s) && s.control.RemoveStaging?
    ensures Inv(ProceedStep(s)) && ProceedStep(s).control != Stopped
  {}

  lemma DisturbanceInv(s: State, a: Action)
    requires Inv(s) && !a.Edit? && !a.Proceed?
    ensures Inv(Next(s, a))
  {}

  /** Without edits every step keeps the invariant, and recovery never has to give up. */
  lemma ProceedInv(s: State)
    requires Inv(s)
    ensures Inv(ProceedStep(s)) && ProceedStep(s).control != Stopped
  {
    match s.control
    case Preserve(_) => PreserveStepInv(s);
    case MoveAside(_) => PreserveStepInv(s);
    case Place(_) => PlaceStepInv(s);
    case Inspect(i) => if s.entries[i].hadCurrent { InspectOriginalInv(s); } else { InspectNewInv(s); }
    case Removing(_) => FreeStepInv(s);
    case SetAside(_) => FreeStepInv(s);
    case Restore(_) => RestoreStepInv(s);
    case RemoveStaging(_) => RemoveStagingInv(s);
    case WriteRecord => InstallStepInv(s);
    case MarkPreserved(_) => InstallStepInv(s);
    case MarkInstalled(_) => InstallStepInv(s);
    case Commit => InstallStepInv(s);
    case _ => CleanupStepInv(s);
  }

  predicate NoEdits(actions: seq<Action>) {
    forall a | a in actions :: !a.Edit?
  }

  lemma {:induction false} RunInv(s: State, actions: seq<Action>)
    requires Inv(s) && NoEdits(actions)
    ensures Inv(Run(s, actions))
    decreases actions
  {
    if actions != [] {
      assert actions[0] in actions;
      if actions[0].Proceed? { ProceedInv(s); } else { DisturbanceInv(s, actions[0]); }
      RunInv(Next(s, actions[0]), actions[1..]);
    }
  }

  /** Every destination is the new tree, or every destination is as it was. */
  predicate AllInstalled(s: State)
    requires WellFormed(s)
  {
    forall k | 0 <= k < |s.entries| :: s.slots[k].destination == Some(Dir(s.entries[k].installed, false))
  }

  predicate AllOriginal(s: State)
    requires WellFormed(s)
  {
    forall k | 0 <= k < |s.entries| ::
      s.slots[k].destination == if s.entries[k].hadCurrent then Some(Dir(s.entries[k].original, true)) else None
  }

  /**
   However often installation and recovery crash or fail, at whatever step, once a run
   finishes every destination is new if the commit record was ever durable, and every
   destination is the original (or absent) if it was not.
   */
  lemma AllOrNothing(entries: seq<Entry>, actions: seq<Action>)
    requires entries != [] && NoEdits(actions)
    ensures var s := Run(Prepared(entries), actions);
            && WellFormed(s) && s.entries == entries
            && (s.control.Finished? ==> if s.everCommitted then AllInstalled(s) else AllOriginal(s))
  {
    PreparedInv(entries);
    RunInv(Prepared(entries), actions);
  }

  // ----- Recovery completes -----

  function Rank(s: State): int {
    var n := |s.entries|;
    match s.control
    case Finished => 0
    case RemovePin(i) => n - i
    case RemoveRecord => n + 1
    case RemoveStaging(i) => 2 * n + 1 - i
    case CheckInstalled => 2 * n + 2
    case Restore(i) => 2 * n + 3 * i + 3
    case Removing(i) => 2 * n + 3 * i + 4
    case SetAside(i) => 2 * n + 3 * i + 4
    case Inspect(i) => 2 * n + 3 * i + 5
    case Stopped => 5 * n + 6
    case Commit => 5 * n + 7
    case MarkInstalled(i) => 10 * n - 5 * i + 3
    case Place(i) => 10 * n - 5 * i + 4
    case MarkPreserved(i) => 10 * n - 5 * i + 5
    case MoveAside(i) => 10 * n - 5 * i + 6
    case Preserve(i) => 10 * n - 5 * i + 7
    case WriteRecord => 10 * n + 8
  }

  lemma InstallAdvances(s: State)
    requires Inv(s)
    requires s.control.WriteRecord? || s.control.Preserve? || s.control.MoveAside? || s.control.MarkPreserved? ||
             s.control.Place? || s.control.MarkInstalled? || s.control.Commit?
    ensures 0 <= Rank(ProceedStep(s)) < Rank(s)
  {}

  lemma RecoveryAdvances(s: State)
    requires Inv(s) && (s.control.Inspect? || s.control.Removing? || s.control.SetAside? || s.control.Restore?)
    ensures 0 <= Rank(ProceedStep(s)) < Rank(s)
  {
    var i := s.control.i;
    if s.control.Restore? {
      RestoreStepInv(s);
    } else if s.control.Removing? || s.control.SetAside? {
      FreeStepInv(s);
    } else if s.entries[i].hadCurrent {
      InspectOriginalInv(s);
    } else {
      InspectNewInv(s);
    }
    assert ProceedStep(s).control in {Removing(i), SetAside(i), Restore(i), NextEntry(i)};
  }

  lemma CleanupAdvances(s: State)
    requires Inv(s)
    requires s.control.CheckInstalled? || s.control.RemoveStaging? || s.control.RemoveRecord? ||
             s.control.RemovePin? || s.control.Stopped?
    ensures 0 <= Rank(ProceedStep(s)) < Rank(s)
  {}

  lemma ProceedAdvances(s: State)
    requires Inv(s) && !s.control.Finished?
    ensures 0 <= Rank(ProceedStep(s)) < Rank(s)
  {
    match s.control
    case Inspect(_) => RecoveryAdvances(s);
    case Removing(_) => RecoveryAdvances(s);
    case SetAside(_) => RecoveryAdvances(s);
    case Restore(_) => RecoveryAdvances(s);
    case CheckInstalled => CleanupAdvances(s);
    case RemoveStaging(_) => CleanupAdvances(s);
    case RemoveRecord => CleanupAdvances(s);
    case RemovePin(_) => CleanupAdvances(s);
    case Stopped => CleanupAdvances(s);
    case _ => InstallAdvances(s);
  }

  function Proceeds(k: nat): (actions: seq<Action>)
    ensures NoEdits(actions)
  {
    if k == 0 then [] else [Proceed] + Proceeds(k - 1)
  }

  /** From every reachable state, left alone, the protocol runs to its end. */
  lemma {:induction false} Completes(s: State) returns (k: nat)
    requires Inv(s)
    ensures Run(s, Proceeds(k)).control.Finished?
    decreases Rank(s)
  {
    if s.control.Finished? {
      k := 0;
    } else {
      ProceedInv(s);
      ProceedAdvances(s);
      var rest := Completes(ProceedStep(s));
      k := rest + 1;
      assert Proceeds(k)[1..] == Proceeds(rest);
    }
  }

  lemma RunFirst(s: State, first: seq<Action>, second: seq<Action>) returns (next: State)
    requires WellFormed(s) && first != []
    ensures WellFormed(next) && Run(s, first) == Run(next, first[1..])
    ensures Run(s, first + second) == Run(next, first[1..] + second)
  {
    next := Next(s, first[0]);
    NextIsWellFormed(s, first[0]);
    assert (first + second)[1..] == first[1..] + second;
  }

  lemma {:induction false} RunAppend(s: State, first: seq<Action>, second: seq<Action>)
    requires WellFormed(s)
    ensures WellFormed(Run(s, first)) && Run(s, first + second) == Run(Run(s, first), second)
    decreases first
  {
    if first == [] {
      assert first + second == second;
    } else {
      var next := RunFirst(s, first, second);
      RunAppend(next, first[1..], second);
    }
  }

  /** After any edit-free history, recovery left alone ends in one of the two outcomes. */
  lemma RecoveryReachesAnOutcome(entries: seq<Entry>, history: seq<Action>) returns (k: nat)
    requires entries != [] && NoEdits(history)
    ensures var s := Run(Prepared(entries), history + Proceeds(k));
            WellFormed(s) && s.control.Finished? && if s.everCommitted then AllInstalled(s) else AllOriginal(s)
  {
    PreparedInv(entries);
    RunInv(Prepared(entries), history);
    k := Completes(Run(Prepared(entries), history));
    RunAppend(Prepared(entries), history, Proceeds(k));
    assert NoEdits(history + Proceeds(k));
    AllOrNothing(entries, history + Proceeds(k));
  }

  // ----- With outside edits: nothing of the user's is lost -----

  function Precious(e: Entry, place: Option<Dir>): multiset<nat> {
    if place.Some? && place.value.user && place.value.value != e.installed then multiset{place.value.value}
    else multiset{}
  }

  /** The user's own content held for an entry, wherever it is; a tree equal to the one being
      installed is not counted, since the installation holds that content itself. */
  function UserContent(e: Entry, slot: Slot): multiset<nat> {
    Precious(e, slot.destination) + Precious(e, slot.rollback) + Precious(e, slot.quarantine)
  }

  /** What holds whatever outsiders do to the destinations. */
  ghost predicate EditInv(s: State) {
    && WellFormed(s)
    && (s.record.Some? ==> s.record.value.committed == s.everCommitted)
    && (forall k | 0 <= k < |s.slots| :: s.slots[k].next.Some? ==> !s.slots[k].next.value.user)
    && (forall k | 0 <= k < |s.slots| :: !s.entries[k].hadCurrent ==> s.slots[k].rollback == None)
    && (s.control.CheckInstalled? ==> s.everCommitted)
    && (s.control.Inspect? || s.control.Removing? || s.control.SetAside? || s.control.Restore? ==>
          && !s.everCommitted && s.control.i < |s.slots|
          && forall k | s.control.i < k < |s.slots| :: s.slots[k].rollback == None)
    && (!s.everCommitted && (s.control.RemoveStaging? || s.control.RemoveRecord?) ==>
          forall k | 0 <= k < |s.slots| :: s.slots[k].rollback == None)
    && (s.control.WriteRecord? ==> forall k | 0 <= k < |s.slots| :: s.slots[k].rollback == None)
    && (s.control.Preserve? || s.control.MoveAside? ==>
          s.control.i < |s.slots| && forall k | s.control.i <= k < |s.slots| :: s.slots[k].rollback == None)
    && (s.control.MoveAside? ==> s.entries[s.control.i].hadCurrent)
    && (s.control.MarkPreserved? || s.control.Place? || s.control.MarkInstalled? ==>
          s.control.i < |s.slots| && forall k | s.control.i < k < |s.slots| :: s.slots[k].rollback == None)
    && (s.everCommitted ==>
          s.control.CheckInstalled? || s.control.RemoveStaging? || s.control.RemoveRecord? ||
          s.control.RemovePin? || s.control.Finished? || s.control.Stopped?)
  }

  lemma InspectEditInv(s: State)
    requires EditInv(s) && s.control.Inspect?
    ensures EditInv(ProceedStep(s))
  {}

  lemma RemovingEditInv(s: State)
    requires EditInv(s) && s.control.Removing?
    ensures EditInv(ProceedStep(s))
  {}

  lemma SetAsideEditInv(s: State)
    requires EditInv(s) && s.control.SetAside?
    ensures EditInv(ProceedStep(s))
  {}

  lemma RestoreEditInv(s: State)
    requires EditInv(s) && s.control.Restore?
    ensures EditInv(ProceedStep(s))
  {}

  lemma PreserveEditInv(s: State)
    requires EditInv(s) && (s.control.WriteRecord? || s.control.Preserve? || s.control.MarkPreserved?)
    ensures EditInv(ProceedStep(s))
  {}

  lemma MoveAsideEditInv(s: State)
    requires EditInv(s) && s.control.MoveAside?
    ensures EditInv(ProceedStep(s))
  {}

  lemma InstallEditInv(s: State)
    requires EditInv(s) && (s.control.Place? || s.control.MarkInstalled? || s.control.Commit?)
    ensures EditInv(ProceedStep(s))
  {}

  lemma CleanupEditInv(s: State)
    requires EditInv(s)
    requires s.control.CheckInstalled? || s.control.RemoveStaging? || s.control.RemoveRecord? ||
             s.control.RemovePin? || s.control.Finished? || s.control.Stopped?
    ensures EditInv(ProceedStep(s))
  {}

  lemma StoppedEditInv(s: State, a: Action)
    requires EditInv(s) && (a.Crash? || a.Fail?)
    ensures EditInv(Next(s, a))
  {}

  lemma InterruptedEditInv(s: State, remnant: nat, rollbackToo: bool)
    requires EditInv(s)
    ensures EditInv(Interrupted(s, remnant, rollbackToo))
  {}

  lemma OtherEditInv(s: State, a: Action)
    requires EditInv(s) && !a.Proceed?
    ensures EditInv(Next(s, a))
  {
    match a
    case InterruptRemoval(remnant, rollbackToo) => InterruptedEditInv(s, remnant, rollbackToo);
    case Edit(i, content) =>
    case _ => StoppedEditInv(s, a);
  }

  lemma ProceedEditInv(s: State)
    requires EditInv(s)
    ensures EditInv(ProceedStep(s))
  {
    match s.control
    case Inspect(_) => InspectEditInv(s);
    case Removing(_) => RemovingEditInv(s);
    case SetAside(_) => SetAsideEditInv(s);
    case Restore(_) => RestoreEditInv(s);
    case WriteRecord => PreserveEditInv(s);
    case Preserve(_) => PreserveEditInv(s);
    case MoveAside(_) => MoveAsideEditInv(s);
    case MarkPreserved(_) => PreserveEditInv(s);
    case Place(_) => InstallEditInv(s);
    case MarkInstalled(_) => InstallEditInv(s);
    case Commit => InstallEditInv(s);
    case _ => CleanupEditInv(s);
  }

  lemma {:induction false} EditRunInv(s: State, actions: seq<Action>)
    requires EditInv(s)
    ensures EditInv(Run(s, actions))
    decreases actions
  {
    if actions != [] {
      if actions[0].Proceed? { ProceedEditInv(s); } else { OtherEditInv(s, actions[0]); }
      EditRunInv(Next(s, actions[0]), actions[1..]);
    }
  }

  /** The changes one step can make to a slot before the commit: a directory moves to a place
      that was empty, or one that is not the user's own content goes away. */
  predicate SlotMoves(before: Slot, after: Slot, e: Entry) {
    || after == before
    || (before.rollback == None && after == before.(destination := None, rollback := before.destination))
    || (before.destination == None && after == before.(destination := before.rollback, rollback := None))
    || (before.quarantine == None && after == before.(destination := None, quarantine := before.destination))
    || (before.destination == None && after == before.(destination := before.next, next := None))
    || (before.rollback == None && after == before.(next := None, rollback := None))
    || after == before.(pin := false)
  }

  lemma MovesKeepUserContent(before: Slot, after: Slot, e: Entry)
    requires SlotMoves(before, after, e) && (before.next.Some? ==> !before.next.value.user)
    ensures UserContent(e, after) == UserContent(e, before)
  {}

  lemma ProceedMoves(s: State, k: nat)
    requires EditInv(s) && k < |s.slots| && s.control != Removing(k) && !ProceedStep(s).everCommitted
    ensures SlotMoves(s.slots[k], ProceedStep(s).slots[k], s.entries[k])
  {}

  /** A removal is about to reach content of the user's at destination `k`. */
  ghost predicate Exposed(s: State, k: nat)
    requires WellFormed(s) && k < |s.entries|
  {
    s.control == Removing(k) && Precious(s.entries[k], s.slots[k].destination) != multiset{}
  }

  predicate Removes(a: Action) {
    a.Proceed? || a.InterruptRemoval?
  }

  /** Before the commit a step loses content of the user's exactly if it removes a destination
      that has become the user's since recovery looked at it. */
  lemma ProceedKeepsUserContent(s: State, k: nat)
    requires EditInv(s) && k < |s.slots| && !ProceedStep(s).everCommitted
    ensures (UserContent(s.entries[k], ProceedStep(s).slots[k]) == UserContent(s.entries[k], s.slots[k]))
            <==> !Exposed(s, k)
  {
    if s.control != Removing(k) {
      ProceedMoves(s, k);
      MovesKeepUserContent(s.slots[k], ProceedStep(s).slots[k], s.entries[k]);
    } else {
      RemovalTakes(s, ProceedStep(s), k);
    }
  }

  /** What the removal of destination `k` takes away of the user's. */
  lemma RemovalTakes(s: State, after: State, k: nat)
    requires WellFormed(s) && k < |s.slots| && |after.slots| == |s.slots|
    requires after.slots[k] == s.slots[k].(destination := after.slots[k].destination)
    requires Precious(s.entries[k], after.slots[k].destination) == multiset{}
    ensures UserContent(s.entries[k], s.slots[k]) ==
            UserContent(s.entries[k], after.slots[k]) + Precious(s.entries[k], s.slots[k].destination)
    ensures (UserContent(s.entries[k], after.slots[k]) == UserContent(s.entries[k], s.slots[k]))
            <==> Precious(s.entries[k], s.slots[k].destination) == multiset{}
  {
    var taken, kept := Precious(s.entries[k], s.slots[k].destination), UserContent(s.entries[k], after.slots[k]);
    assert |kept + taken| == |kept| + |taken|;
  }

  lemma CleanupSparesUserContent(s: State, remnant: nat, rollbackToo: bool, k: nat)
    requires EditInv(s) && k < |s.slots| && !s.everCommitted && s.control != Removing(k)
    ensures var after := Interrupted(s, remnant, rollbackToo).slots[k];
            && after.destination == s.slots[k].destination && after.quarantine == s.slots[k].quarantine
            && after.rollback == s.slots[k].rollback
  {}

  lemma RemovalInterrupted(s: State, remnant: nat, rollbackToo: bool, k: nat)
    requires WellFormed(s) && k < |s.slots| && s.control == Removing(k)
    ensures var after := Interrupted(s, remnant, rollbackToo).slots[k];
            && after == s.slots[k].(destination := after.destination)
            && Precious(s.entries[k], after.destination) == multiset{}
  {}

  lemma InterruptionSparesUserContent(s: State, remnant: nat, rollbackToo: bool, k: nat)
    requires EditInv(s) && k < |s.slots| && !s.everCommitted
    ensures var after := Interrupted(s, remnant, rollbackToo);
            (UserContent(s.entries[k], after.slots[k]) == UserContent(s.entries[k], s.slots[k])) <==> !Exposed(s, k)
  {
    if s.control == Removing(k) {
      RemovalInterrupted(s, remnant, rollbackToo, k);
      RemovalTakes(s, Interrupted(s, remnant, rollbackToo), k);
    } else {
      CleanupSparesUserContent(s, remnant, rollbackToo, k);
    }
  }

  lemma DisturbanceKeepsUserContent(s: State, a: Action, k: nat)
    requires EditInv(s) && k < |s.slots| && !a.Edit? && !a.Proceed? && !s.everCommitted
    ensures (UserContent(s.entries[k], Next(s, a).slots[k]) == UserContent(s.entries[k], s.slots[k]))
            <==> !(Exposed(s, k) && Removes(a))
  {
    match a
    case Crash => assert Next(s, a).slots == s.slots;
    case Fail => assert Next(s, a).slots == s.slots;
    case InterruptRemoval(remnant, rollbackToo) => InterruptionSparesUserContent(s, remnant, rollbackToo, k);
  }

  // ----- The window between the look and the removal -----

  /** The `i`th action edits destination `k` while the protocol stands at `c`. */
  ghost predicate EditsAt(entries: seq<Entry>, history: seq<Action>, i: nat, k: nat, c: Control)
    requires entries != [] && i < |history|
  {
    && history[i].Edit? && history[i].i == k
    && Run(Prepared(entries), history[..i]).control == c
  }

  lemma RunOne(s: State, a: Action)
    requires WellFormed(s)
    ensures Run(s, [a]) == Next(s, a)
  {
    NextIsWellFormed(s, a);
    assert [a][1..] == [];
  }

  lemma RunThen(s: State, actions: seq<Action>, a: Action)
    requires WellFormed(s)
    ensures WellFormed(Run(s, actions)) && Run(s, actions + [a]) == Next(Run(s, actions), a)
  {
    RunAppend(s, actions, [a]);
    RunOne(Run(s, actions), a);
  }

  lemma RunLast(entries: seq<Entry>, init: seq<Action>, last: Action)
    requires entries != []
    ensures WellFormed(Prepared(entries)) && WellFormed(Run(Prepared(entries), init))
    ensures Run(Prepared(entries), init + [last]) == Next(Run(Prepared(entries), init), last)
  {
    RunThen(Prepared(entries), init, last);
  }

  /** The window opens on a tree that is not the user's. */
  lemma WindowOpensClean(s: State, a: Action, k: nat)
    requires EditInv(s) && k < |s.slots| && Next(s, a).control == Removing(k)
    requires Exposed(Next(s, a), k) && !(a.Edit? && a.i == k && s.control == Removing(k))
    ensures Exposed(s, k)
  {}

  /** Content of the user's is exposed only if an edit fell into the window. */
  lemma {:induction false} ExposedByEdit(entries: seq<Entry>, history: seq<Action>, k: nat)
    requires entries != [] && k < |entries|
    requires var s := Run(Prepared(entries), history); WellFormed(s) && s.entries == entries && Exposed(s, k)
    ensures exists i :: 0 <= i < |history| && EditsAt(entries, history, i, k, Removing(k))
    decreases history
  {
    assert history != [];
    var init, last := history[..|history| - 1], history[|history| - 1];
    assert history == init + [last];
    RunLast(entries, init, last);
    EditRunInv(Prepared(entries), init);
    var s := Run(Prepared(entries), init);
    if last.Edit? && last.i == k && s.control == Removing(k) {
      assert EditsAt(entries, history, |history| - 1, k, Removing(k));
    } else {
      WindowOpensClean(s, last, k);
      ExposedByEdit(entries, init, k);
      var i :| 0 <= i < |init| && EditsAt(entries, init, i, k, Removing(k));
      assert history[..i] == init[..i];
      assert EditsAt(entries, history, i, k, Removing(k));
    }
  }

  /**
   In every run with any outside edits, as long as no edit of a destination falls between
   recovery's look at it and its removal, no step before the commit loses user content: what
   was at the destination, in the rollback place or in quarantine is still in one of them.
   After the commit no step touches a destination or a quarantine at all.
   */
  lemma NothingOfTheUsersIsLost(entries: seq<Entry>, history: seq<Action>, a: Action, k: nat)
    requires entries != [] && k < |entries| && !a.Edit?
    requires forall i | 0 <= i < |history| :: !EditsAt(entries, history, i, k, Removing(k))
    ensures var s := Run(Prepared(entries), history);
            && WellFormed(s) && |s.slots| == |entries| && |Next(s, a).slots| == |entries|
            && var before, after := s.slots[k], Next(s, a).slots[k];
               if !Next(s, a).everCommitted then UserContent(entries[k], after) == UserContent(entries[k], before)
               else after.destination == before.destination && after.quarantine == before.quarantine
  {
    var s := Run(Prepared(entries), history);
    EditRunInv(Prepared(entries), history);
    NextIsWellFormed(s, a);
    if Exposed(s, k) {
      ExposedByEdit(entries, history, k);
    }
    if Next(s, a).everCommitted {
      CommittedKeepsDestination(s, a, k);
    } else if a.Proceed? {
      ProceedKeepsUserContent(s, k);
    } else {
      DisturbanceKeepsUserContent(s, a, k);
    }
  }

  /** And exactly then: every edit in the window is lost with the next step. */
  lemma EditInWindowIsLost(s: State, k: nat, content: nat)
    requires EditInv(s) && k < |s.slots| && s.control == Removing(k) && content != s.entries[k].installed
    ensures var edited := Next(s, Edit(k, Some(content)));
            EditInv(edited) && |edited.slots| == |s.slots| && |ProceedStep(edited).slots| == |s.slots|
    ensures var edited := Next(s, Edit(k, Some(content)));
            UserContent(s.entries[k], edited.slots[k]) ==
            UserContent(s.entries[k], ProceedStep(edited).slots[k]) + multiset{content}
  {
    var edited := Next(s, Edit(k, Some(content)));
    OtherEditInv(s, Edit(k, Some(content)));
    RemovalTakes(edited, ProceedStep(edited), k);
  }

  function One(e: Entry, slot: Slot, record: Option<Record>, control: Control): State {
    State([e], [slot], record, control, false)
  }

  lemma Proceeded(before: State, after: State, k: nat)
    requires WellFormed(before) && k > 0 && after == ProceedStep(before)
    ensures WellFormed(after) && Run(before, Proceeds(k)) == Run(after, Proceeds(k - 1))
  {
    NextIsWellFormed(before, Proceed);
    assert Proceeds(k)[1..] == Proceeds(k - 1);
  }

  /** An installation of one tree, up to where it has placed it. */
  lemma PlacedOne(e: Entry)
    requires e.hadCurrent
    ensures WellFormed(Prepared([e]))
    ensures Run(Prepared([e]), Proceeds(5)) ==
            One(e, Slot(Some(Dir(e.installed, false)), None, Some(Dir(e.original, true)), None, true),
                Some(Record(false, [PhasePreserved])), MarkInstalled(0))
  {
    var whole := Slot(Some(Dir(e.original, true)), Some(Dir(e.installed, false)), None, None, true);
    var aside := whole.(destination := None, rollback := whole.destination);
    var prepared, preserved := Some(Record(false, [PhasePrepared])), Some(Record(false, [PhasePreserved]));
    assert Prepared([e]) == One(e, whole, None, WriteRecord);
    assert seq(1, _ => PhasePrepared) == [PhasePrepared];
    Proceeded(One(e, whole, None, WriteRecord), One(e, whole, prepared, Preserve(0)), 5);
    Proceeded(One(e, whole, prepared, Preserve(0)), One(e, whole, prepared, MoveAside(0)), 4);
    Proceeded(One(e, whole, prepared, MoveAside(0)), One(e, aside, prepared, MarkPreserved(0)), 3);
    assert [PhasePrepared][0 := PhasePreserved] == [PhasePreserved];
    Proceeded(One(e, aside, prepared, MarkPreserved(0)), One(e, aside, preserved, Place(0)), 2);
    Proceeded(One(e, aside, preserved, Place(0)), ProceedStep(One(e, aside, preserved, Place(0))), 1);
  }

  /** The window does open: after an installation that was interrupted once it had placed a tree. */
  lemma WindowOpens(e: Entry)
    requires e.hadCurrent
    ensures Run(Prepared([e]), Proceeds(5) + [Crash] + Proceeds(2)).control == Removing(0)
  {
    var record := Some(Record(false, [PhasePreserved]));
    var slot := Slot(Some(Dir(e.installed, false)), None, Some(Dir(e.original, true)), None, true);
    PlacedOne(e);
    RunThen(Prepared([e]), Proceeds(5), Crash);
    RunAppend(Prepared([e]), Proceeds(5) + [Crash], Proceeds(2));
    Proceeded(One(e, slot, record, Stopped), One(e, slot, record, Inspect(0)), 2);
    Proceeded(One(e, slot, record, Inspect(0)), One(e, slot, record, Removing(0)), 1);
  }

  // ----- The window between the look and the move aside -----

  /** What is aside for entry `k` is the original, and what is about to go aside is too. */
  predicate AsideIsOriginal(s: State, k: nat)
    requires WellFormed(s) && k < |s.entries|
  {
    && (s.slots[k].rollback.Some? && s.slots[k].rollback.value.user ==>
          s.slots[k].rollback.value.value == s.entries[k].original)
    && (s.control == MoveAside(k) ==>
          s.slots[k].destination.Some? && s.slots[k].destination.value.value == s.entries[k].original)
  }

  lemma ProceedKeepsAside(s: State, k: nat)
    requires EditInv(s) && k < |s.slots| && AsideIsOriginal(s, k)
    ensures WellFormed(ProceedStep(s)) && AsideIsOriginal(ProceedStep(s), k)
  {
    NextIsWellFormed(s, Proceed);
  }

  lemma StepKeepsAside(s: State, a: Action, k: nat)
    requires EditInv(s) && k < |s.slots| && AsideIsOriginal(s, k)
    requires !(a.Edit? && a.i == k && s.control == MoveAside(k))
    ensures WellFormed(Next(s, a)) && AsideIsOriginal(Next(s, a), k)
  {
    NextIsWellFormed(s, a);
    if a.Proceed? {
      ProceedKeepsAside(s, k);
    }
  }

  /** As long as no edit of a destination falls between the look at it and its move aside, what
      an installation keeps aside, and what a committed one finally removes, is the original. */
  lemma {:induction false} RollbackIsTheOriginal(entries: seq<Entry>, history: seq<Action>, k: nat)
    requires entries != [] && k < |entries|
    requires forall i | 0 <= i < |history| :: !EditsAt(entries, history, i, k, MoveAside(k))
    ensures var s := Run(Prepared(entries), history);
            WellFormed(s) && s.entries == entries && AsideIsOriginal(s, k)
    decreases history
  {
    if history != [] {
      var init, last := history[..|history| - 1], history[|history| - 1];
      forall i | 0 <= i < |init| ensures !EditsAt(entries, init, i, k, MoveAside(k)) {
        assert history[..i] == init[..i];
        assert !EditsAt(entries, history, i, k, MoveAside(k));
      }
      RollbackIsTheOriginal(entries, init, k);
      assert history == init + [last];
    RunLast(entries, init, last);
      EditRunInv(Prepared(entries), init);
      assert !EditsAt(entries, history, |history| - 1, k, MoveAside(k));
      StepKeepsAside(Run(Prepared(entries), init), last, k);
    }
  }

  /** An edit in that window goes aside in place of the original. */
  lemma EditGoesAside(s: State, k: nat, content: nat)
    requires EditInv(s) && k < |s.slots| && s.control == MoveAside(k)
    ensures ProceedStep(Next(s, Edit(k, Some(content)))).slots[k].rollback == Some(Dir(content, true))
  {}

  lemma CommittedKeepsDestination(s: State, a: Action, k: nat)
    requires EditInv(s) && k < |s.slots| && !a.Edit? && Next(s, a).everCommitted
    ensures Next(s, a).slots[k].destination == s.slots[k].destination
    ensures Next(s, a).slots[k].quarantine == s.slots[k].quarantine
  {}

  /** An uncommitted run only starts deleting staging once no original is left there. */
  lemma StagingOutlivesOriginals(entries: seq<Entry>, history: seq<Action>)
    requires entries != []
    ensures var s := Run(Prepared(entries), history);
            s.control.RemoveStaging? && !s.everCommitted ==> forall k | 0 <= k < |s.slots| ::
              s.slots[k].rollback == None
  {
    EditRunInv(Prepared(entries), history);
  }
}
