/**
 What installation and recovery achieve when they are left alone, whatever outsiders did to the
 destinations before: when they come to an end, and what the disk looks like then.
 */
module InstallProgress {
  import opened Wrappers
  import opened Install

  /** Left alone, the protocol gets from `s` to `t`. */
  ghost predicate Leads(s: State, t: State)
    requires WellFormed(s)
  {
    exists k: nat :: Run(s, Proceeds(k)) == t
  }

  ghost predicate Ends(s: State)
    requires WellFormed(s)
  {
    exists k: nat :: Run(s, Proceeds(k)).control.Finished?
  }

  lemma {:induction false} ProceedsAdd(k: nat, m: nat)
    ensures Proceeds(k) + Proceeds(m) == Proceeds(k + m)
    decreases k
  {
    if k > 0 {
      ProceedsAdd(k - 1, m);
      assert Proceeds(k) + Proceeds(m) == [Proceed] + (Proceeds(k - 1) + Proceeds(m));
    }
  }

  lemma LeadsOn(s: State, t: State, u: State)
    requires WellFormed(s) && Leads(s, t) && WellFormed(t) && Leads(t, u)
    ensures Leads(s, u)
  {
    var k: nat :| Run(s, Proceeds(k)) == t;
    var m: nat :| Run(t, Proceeds(m)) == u;
    ProceedsAdd(k, m);
    RunAppend(s, Proceeds(k), Proceeds(m));
    assert Run(s, Proceeds(k + m)) == u;
  }

  lemma Stays(s: State)
    requires WellFormed(s)
    ensures Leads(s, s)
  {
    assert Proceeds(0) == [];
    assert Run(s, Proceeds(0)) == s;
  }

  lemma Steps(s: State, t: State, u: State)
    requires WellFormed(s) && ProceedStep(s) == t && WellFormed(t) && Leads(t, u)
    ensures Leads(s, u)
  {
    assert Proceeds(0) == [];
    Proceeded(s, t, 1);
    assert Run(s, Proceeds(1)) == t;
    LeadsOn(s, t, u);
  }

  // ----- Cleaning up -----

  function Cleaned(slot: Slot): Slot {
    slot.(next := None, rollback := None)
  }

  function Released(slot: Slot): Slot {
    slot.(pin := false)
  }

  function CleanedFrom(slots: seq<Slot>, i: nat): seq<Slot> {
    seq(|slots|, k requires 0 <= k < |slots| => if k < i then slots[k] else Cleaned(slots[k]))
  }

  function ReleasedFrom(slots: seq<Slot>, i: nat): seq<Slot> {
    seq(|slots|, k requires 0 <= k < |slots| => if k < i then slots[k] else Released(slots[k]))
  }

  lemma {:induction false} RemovesPins(s: State, i: nat)
    requires WellFormed(s) && s.control == RemovePin(i) && i < |s.slots|
    ensures Leads(s, s.(slots := ReleasedFrom(s.slots, i), control := Finished))
    decreases |s.slots| - i
  {
    var t := ProceedStep(s);
    assert ReleasedFrom(t.slots, i + 1) == ReleasedFrom(s.slots, i);
    if i + 1 < |s.slots| {
      RemovesPins(t, i + 1);
    } else {
      assert t.slots == ReleasedFrom(s.slots, i);
      Stays(t);
    }
    Steps(s, t, s.(slots := ReleasedFrom(s.slots, i), control := Finished));
  }

  lemma {:induction false} RemovesStaging(s: State, i: nat)
    requires WellFormed(s) && s.control == RemoveStaging(i) && i < |s.slots|
    requires forall k | 0 <= k < |s.slots| :: s.slots[k].pin
    ensures Leads(s, s.(slots := CleanedFrom(s.slots, i), control := RemoveRecord))
    decreases |s.slots| - i
  {
    var t := ProceedStep(s);
    assert CleanedFrom(t.slots, i + 1) == CleanedFrom(s.slots, i);
    if i + 1 < |s.slots| {
      RemovesStaging(t, i + 1);
    } else {
      assert t.slots == CleanedFrom(s.slots, i);
      Stays(t);
    }
    Steps(s, t, s.(slots := CleanedFrom(s.slots, i), control := RemoveRecord));
  }

  /** The end of a run: no record, nothing staged, no pin. */
  function Over(s: State): State {
    s.(slots := seq(|s.slots|, k requires 0 <= k < |s.slots| => Released(Cleaned(s.slots[k]))),
       record := None, control := Finished)
  }

  lemma CleansUp(s: State)
    requires WellFormed(s) && s.control == RemoveStaging(0) && forall k | 0 <= k < |s.slots| :: s.slots[k].pin
    ensures Leads(s, Over(s))
  {
    RemovesStaging(s, 0);
    var t := s.(slots := CleanedFrom(s.slots, 0), control := RemoveRecord);
    var u := ProceedStep(t);
    RemovesPins(u, 0);
    assert ReleasedFrom(u.slots, 0) == Over(s).slots;
    Steps(t, u, Over(s));
    LeadsOn(s, t, Over(s));
  }

  // ----- Recovery -----

  predicate Removable(e: Entry, slot: Slot) {
    slot.destination.Some? ==> slot.destination.value.value == e.installed || slot.quarantine == None
  }

  /** What the disk must be like at one entry for recovery to get past it. */
  predicate Clear(e: Entry, slot: Slot, phase: Phase) {
    && slot.pin
    && if slot.rollback.Some? then Removable(e, slot)
       else if e.hadCurrent then
         && slot.destination.Some?
         && (slot.destination.value.value == e.original ||
             (slot.next.Some? && phase == PhasePrepared && slot.quarantine == None))
       else slot.destination.None? || ((slot.next.None? || phase != PhasePrepared) && Removable(e, slot))
  }

  /** What recovery leaves at the places of one entry: what was aside is back, what was not is
      where it was, and what was in its way and not the installed tree is in quarantine. */
  function Recovered(e: Entry, slot: Slot): Slot {
    slot.(destination := if slot.rollback.Some? then slot.rollback else if e.hadCurrent then slot.destination else None,
          rollback := None,
          quarantine := if (slot.rollback.Some? || !e.hadCurrent) && slot.destination.Some? &&
                           slot.destination.value.value != e.installed
                        then slot.destination else slot.quarantine)
  }

  ghost predicate Recovering(s: State) {
    EditInv(s) && s.record.Some? && !s.everCommitted
  }

  lemma Restores(s: State, i: nat)
    requires WellFormed(s) && s.control == Restore(i) && i < |s.slots|
    requires s.slots[i].rollback.Some? && s.slots[i].destination.None?
    ensures Leads(s, Update(s, i, s.slots[i].(destination := s.slots[i].rollback, rollback := None), NextEntry(i)))
  {
    Stays(ProceedStep(s));
    Steps(s, ProceedStep(s), ProceedStep(s));
  }

  /** Recovery has found something in the way at entry `i`, and gets past it. */
  lemma Frees(s: State, i: nat)
    requires WellFormed(s) && i < |s.slots| && s.slots[i].destination.Some?
    requires !s.entries[i].hadCurrent ==> s.slots[i].rollback.None?
    requires s.entries[i].hadCurrent ==> s.slots[i].rollback.Some?
    requires Removable(s.entries[i], s.slots[i]) && s == Fingerprinted(s, i)
    ensures Leads(s, Update(s, i, Recovered(s.entries[i], s.slots[i]), NextEntry(i)))
  {
    var t := ProceedStep(s);
    if s.entries[i].hadCurrent {
      Restores(t, i);
    } else {
      Stays(t);
    }
    var u := Update(s, i, Recovered(s.entries[i], s.slots[i]), NextEntry(i));
    assert s.entries[i].hadCurrent ==> u.slots == t.slots[i := u.slots[i]];
    Steps(s, t, u);
  }

  /** Recovery gets past a clear entry. */
  lemma PassesEntry(s: State, i: nat)
    requires Recovering(s) && s.control == Inspect(i) && Clear(s.entries[i], s.slots[i], s.record.value.phases[i])
    ensures Leads(s, Update(s, i, Recovered(s.entries[i], s.slots[i]), NextEntry(i)))
  {
    var e, slot, t := s.entries[i], s.slots[i], ProceedStep(s);
    var u := Update(s, i, Recovered(e, slot), NextEntry(i));
    if slot.destination.Some? && (slot.rollback.Some? || !e.hadCurrent) {
      Frees(t, i);
    } else if slot.rollback.Some? {
      Restores(t, i);
    } else {
      assert u.slots == s.slots;
      Stays(t);
    }
    Steps(s, t, u);
  }

  ghost predicate AllClear(s: State, i: nat)
    requires WellFormed(s) && s.record.Some?
  {
    forall k | 0 <= k < |s.slots| && k < i :: Clear(s.entries[k], s.slots[k], s.record.value.phases[k])
  }

  function RecoveredUpTo(s: State, i: nat): seq<Slot>
    requires WellFormed(s)
  {
    seq(|s.slots|, k requires 0 <= k < |s.slots| =>
      if k < i then Recovered(s.entries[k], s.slots[k]) else s.slots[k])
  }

  lemma {:induction false} PassesEntries(s: State, i: nat)
    requires Recovering(s) && s.control == Inspect(i) && AllClear(s, i + 1)
    ensures Leads(s, s.(slots := RecoveredUpTo(s, i + 1), control := RemoveStaging(0)))
    decreases i
  {
    var t := Update(s, i, Recovered(s.entries[i], s.slots[i]), NextEntry(i));
    var u := s.(slots := RecoveredUpTo(s, i + 1), control := RemoveStaging(0));
    PassesEntry(s, i);
    if i == 0 {
      assert t.slots == u.slots;
    } else {
      PassedInv(s, i);
      PassesEntries(t, i - 1);
      assert RecoveredUpTo(t, i) == u.slots;
      LeadsOn(s, t, u);
    }
  }

  lemma PassedInv(s: State, i: nat)
    requires Recovering(s) && s.control == Inspect(i) && i > 0
    ensures Recovering(Update(s, i, Recovered(s.entries[i], s.slots[i]), NextEntry(i)))
  {}

  lemma {:induction false} FinishedStays(s: State, k: nat)
    requires WellFormed(s) && s.control.Finished?
    ensures Run(s, Proceeds(k)) == s
    decreases k
  {
    if k > 0 {
      Proceeded(s, s, k);
      FinishedStays(s, k - 1);
    }
  }

  /** Whether a run ends does not change along the way. */
  lemma EndsOn(s: State, t: State)
    requires WellFormed(s) && Leads(s, t) && WellFormed(t)
    ensures Ends(s) <==> Ends(t)
  {
    var m: nat :| Run(s, Proceeds(m)) == t;
    if Ends(s) {
      var k: nat :| Run(s, Proceeds(k)).control.Finished?;
      FinishedStays(Run(s, Proceeds(k)), m);
      ProceedsAdd(k, m);
      RunAppend(s, Proceeds(k), Proceeds(m));
      ProceedsAdd(m, k);
      RunAppend(s, Proceeds(m), Proceeds(k));
      assert Run(t, Proceeds(k)).control.Finished?;
    }
    if Ends(t) {
      var k: nat :| Run(t, Proceeds(k)).control.Finished?;
      ProceedsAdd(m, k);
      RunAppend(s, Proceeds(m), Proceeds(k));
      assert Run(s, Proceeds(m + k)).control.Finished?;
    }
  }

  lemma LeadsToEnd(s: State, t: State)
    requires WellFormed(s) && Leads(s, t) && t.control.Finished?
    ensures Ends(s)
  {}

  /** Recovery has not passed entry `j`, which is not clear. */
  ghost predicate Stuck(s: State, j: nat) {
    && WellFormed(s) && s.record.Some? && !s.record.value.committed && j < |s.slots|
    && !Clear(s.entries[j], s.slots[j], s.record.value.phases[j])
    && (!s.entries[j].hadCurrent ==> s.slots[j].rollback == None)
    && match s.control
       case Stopped => true
       case Inspect(i) => j <= i < |s.slots|
       case Removing(i) => j < i < |s.slots|
       case SetAside(i) => j <= i < |s.slots| && (i == j ==> s.slots[j].quarantine.Some?)
       case Restore(i) => j < i < |s.slots|
       case _ => false
  }

  lemma StuckStep(s: State, j: nat)
    requires Stuck(s, j)
    ensures Stuck(ProceedStep(s), j)
  {}

  lemma {:induction false} StuckRun(s: State, j: nat, k: nat)
    requires Stuck(s, j)
    ensures Stuck(Run(s, Proceeds(k)), j)
    decreases k
  {
    if k > 0 {
      StuckStep(s, j);
      Proceeded(s, ProceedStep(s), k);
      StuckRun(ProceedStep(s), j, k - 1);
    }
  }

  /**
   After any crashes, failures and outside edits, recovery left alone comes to an end if and
   only if every entry is clear. Then every destination is what was kept aside for it, or is
   untouched where nothing was, or is gone where there was none, and nothing is left behind.
   */
  lemma RecoveryEnds(s: State)
    requires Recovering(s) && (s.control == Stopped || s.control == Inspect(|s.slots| - 1))
    ensures Ends(s) <==> AllClear(s, |s.slots|)
    ensures AllClear(s, |s.slots|) ==> Leads(s, Over(s.(slots := RecoveredUpTo(s, |s.slots|))))
  {
    var n := |s.slots|;
    if AllClear(s, n) {
      var t, u := s.(control := Inspect(n - 1)), s.(slots := RecoveredUpTo(s, n), control := RemoveStaging(0));
      PassesEntries(t, n - 1);
      assert RecoveredUpTo(t, n) == RecoveredUpTo(s, n);
      CleansUp(u);
      LeadsOn(t, u, Over(u));
      if s.control == Stopped {
        Steps(s, t, Over(u));
      }
      assert Over(u) == Over(s.(slots := RecoveredUpTo(s, n)));
      LeadsToEnd(s, Over(u));
    } else {
      var j :| 0 <= j < n && !Clear(s.entries[j], s.slots[j], s.record.value.phases[j]);
      forall k: nat ensures !Run(s, Proceeds(k)).control.Finished? {
        StuckRun(s, j, k);
      }
    }
  }

  // ----- A committed installation -----

  predicate Standing(s: State) {
    forall k | 0 <= k < |s.slots| :: s.slots[k].pin && s.slots[k].destination.Some?
  }

  lemma {:induction false} Unfinalized(s: State, k: nat)
    requires WellFormed(s) && s.record.Some? && s.record.value.committed && !Standing(s)
    requires s.control == Stopped || s.control == CheckInstalled
    ensures !Run(s, Proceeds(k)).control.Finished?
    decreases k
  {
    if k > 0 {
      Proceeded(s, ProceedStep(s), k);
      Unfinalized(ProceedStep(s), k - 1);
    }
  }

  /** A committed installation is finalized if and only if every destination is there, whatever
      it is by now; destinations and quarantines stay, and nothing else is left behind. */
  lemma FinalizingEnds(s: State)
    requires WellFormed(s) && s.record.Some? && s.record.value.committed
    requires s.control == Stopped || s.control == CheckInstalled
    ensures Ends(s) <==> Standing(s)
    ensures Standing(s) ==> Leads(s, Over(s))
  {
    if Standing(s) {
      var check, staging := s.(control := CheckInstalled), s.(control := RemoveStaging(0));
      CleansUp(staging);
      assert Over(staging) == Over(s);
      Steps(check, staging, Over(s));
      if s.control == Stopped {
        Steps(s, check, Over(s));
      }
      LeadsToEnd(s, Over(s));
    } else {
      forall k: nat ensures !Run(s, Proceeds(k)).control.Finished? {
        Unfinalized(s, k);
      }
    }
  }

  // ----- An installation -----

  /** Everything is staged and nothing has been touched; destinations may be anything. */
  ghost predicate Ready(s: State) {
    && WellFormed(s) && s.record == None && !s.everCommitted && s.control == WriteRecord
    && forall k | 0 <= k < |s.slots| ::
         && s.slots[k].next == Some(Dir(s.entries[k].installed, false)) && s.slots[k].pin
         && s.slots[k].rollback == None && s.slots[k].quarantine == None
  }

  /** The destination is as the journal has it: the original, or none. */
  predicate Fits(e: Entry, slot: Slot) {
    e.hadCurrent == slot.destination.Some? && (e.hadCurrent ==> slot.destination.value.value == e.original)
  }

  function Placed(slot: Slot): Slot {
    slot.(destination := slot.next, next := None, rollback := slot.destination)
  }

  /** The first `m` entries are installed, the others are as they were. */
  function InstalledUpTo(s: State, m: nat): State {
    s.(slots := seq(|s.slots|, k requires 0 <= k < |s.slots| => if k < m then Placed(s.slots[k]) else s.slots[k]),
       record := Some(Record(false, seq(|s.slots|, k => if k < m then PhaseInstalled else PhasePrepared))),
       control := if m < |s.slots| then Preserve(m) else Commit)
  }

  /** One entry: the original goes aside, if there is one, and the new tree takes its place. */
  lemma InstallsEntry(s: State, i: nat, after: Control)
    requires WellFormed(s) && i < |s.slots| && s.control == Preserve(i) && s.record.Some?
    requires Fits(s.entries[i], s.slots[i]) && s.slots[i].pin && s.slots[i].next.Some? && s.slots[i].rollback == None
    requires after == if i + 1 < |s.slots| then Preserve(i + 1) else Commit
    ensures Leads(s, s.(slots := s.slots[i := Placed(s.slots[i])], control := after,
                        record := Some(s.record.value.(phases := s.record.value.phases[i := PhaseInstalled]))))
  {
    var end := s.(slots := s.slots[i := Placed(s.slots[i])], control := after,
                  record := Some(s.record.value.(phases := s.record.value.phases[i := PhaseInstalled])));
    var slot := s.slots[i];
    if s.entries[i].hadCurrent {
      var moving := s.(control := MoveAside(i));
      var moved := Update(s, i, slot.(destination := None, rollback := slot.destination), MarkPreserved(i));
      var marked := WritePhase(moved, i, PhasePreserved, Place(i));
      PlacesEntry(marked, i, after);
      assert s.record.value.phases[i := PhasePreserved][i := PhaseInstalled] ==
             s.record.value.phases[i := PhaseInstalled];
      assert moved.slots[i := Placed(slot)] == end.slots;
      Steps(moved, marked, end);
      Steps(moving, moved, end);
      Steps(s, moving, end);
    } else {
      PlacesEntry(s.(control := Place(i)), i, after);
      Steps(s, s.(control := Place(i)), end);
    }
  }

  lemma PlacesEntry(s: State, i: nat, after: Control)
    requires WellFormed(s) && i < |s.slots| && s.control == Place(i) && s.record.Some?
    requires s.slots[i].destination.None? && s.slots[i].next.Some?
    requires after == if i + 1 < |s.slots| then Preserve(i + 1) else Commit
    ensures Leads(s, s.(slots := s.slots[i := s.slots[i].(destination := s.slots[i].next, next := None)],
                        control := after,
                        record := Some(s.record.value.(phases := s.record.value.phases[i := PhaseInstalled]))))
  {
    var placed := Update(s, i, s.slots[i].(destination := s.slots[i].next, next := None), MarkInstalled(i));
    var end := WritePhase(placed, i, PhaseInstalled, after);
    Stays(end);
    Steps(placed, end, end);
    Steps(s, placed, end);
  }

  lemma {:induction false} InstallsUpTo(s: State, m: nat)
    requires Ready(s) && m <= |s.slots| && forall k | 0 <= k < m :: Fits(s.entries[k], s.slots[k])
    ensures WellFormed(InstalledUpTo(s, m)) && Leads(s, InstalledUpTo(s, m))
    decreases m
  {
    var t := InstalledUpTo(s, m);
    if m == 0 {
      assert t.slots == s.slots;
      assert t.record.value.phases == seq(|s.slots|, _ => PhasePrepared);
      Stays(t);
      Steps(s, t, t);
    } else {
      var before := InstalledUpTo(s, m - 1);
      InstallsUpTo(s, m - 1);
      assert before.slots[m - 1] == s.slots[m - 1];
      InstallsEntry(before, m - 1, t.control);
      assert before.slots[m - 1 := Placed(s.slots[m - 1])] == t.slots;
      assert before.record.value.phases[m - 1 := PhaseInstalled] == t.record.value.phases;
      LeadsOn(s, before, t);
    }
  }

  /** Left alone, an installation whose destinations all are as the journal has them commits,
      and ends with the new trees in place and nothing else left behind. */
  lemma Installs(s: State)
    requires Ready(s) && forall k | 0 <= k < |s.slots| :: Fits(s.entries[k], s.slots[k])
    ensures var slots := seq(|s.slots|, k requires 0 <= k < |s.slots| => s.slots[k].(destination := s.slots[k].next));
            Leads(s, Over(s.(slots := slots, everCommitted := true)))
  {
    var n := |s.slots|;
    var t := InstalledUpTo(s, n);
    InstallsUpTo(s, n);
    var committed := ProceedStep(t);
    FinalizingEnds(committed);
    var slots := seq(n, k requires 0 <= k < n => s.slots[k].(destination := s.slots[k].next));
    assert Over(committed).slots == Over(s.(slots := slots, everCommitted := true)).slots;
    Steps(t, committed, Over(committed));
    LeadsOn(s, t, Over(committed));
  }

  /** Rolling back the installed entries puts everything where it was. */
  lemma RolledBack(s: State, m: nat)
    requires Ready(s) && m < |s.slots| && forall k | 0 <= k < m :: Fits(s.entries[k], s.slots[k])
    ensures var t := InstalledUpTo(s, m).(control := Inspect(|s.slots| - 1));
            && Recovering(t)
            && (AllClear(t, |t.slots|) <==>
                forall k | m <= k < |s.slots| :: s.entries[k].hadCurrent == s.slots[k].destination.Some?)
            && (AllClear(t, |t.slots|) ==> Over(t.(slots := RecoveredUpTo(t, |t.slots|))) == Over(s))
  {
    var t := InstalledUpTo(s, m).(control := Inspect(|s.slots| - 1));
    forall k | 0 <= k < |s.slots|
      ensures Clear(t.entries[k], t.slots[k], t.record.value.phases[k]) <==>
              k < m || s.entries[k].hadCurrent == s.slots[k].destination.Some?
    {}
    if AllClear(t, |t.slots|) {
      assert Over(t.(slots := RecoveredUpTo(t, |t.slots|))).slots == Over(s).slots;
    }
  }

  /**
   Left alone, an installation that meets a destination that is not as the journal has it rolls
   back. It comes to an end if and only if, from that entry on, there is a directory exactly
   where there was one; then every destination is what it was when the installation began.
   */
  lemma RollsBack(s: State, m: nat)
    requires Ready(s) && m < |s.slots| && !Fits(s.entries[m], s.slots[m])
    requires forall k | 0 <= k < m :: Fits(s.entries[k], s.slots[k])
    ensures Ends(s) <==> forall k | m <= k < |s.slots| :: s.entries[k].hadCurrent == s.slots[k].destination.Some?
    ensures Ends(s) ==> Leads(s, Over(s))
  {
    var t := InstalledUpTo(s, m);
    var u := t.(control := Inspect(|s.slots| - 1));
    InstallsUpTo(s, m);
    assert t.slots[m] == s.slots[m];
    assert ProceedStep(t) == u;
    RolledBack(s, m);
    RecoveryEnds(u);
    Stays(u);
    Steps(t, u, u);
    LeadsOn(s, t, u);
    EndsOn(s, u);
    if Ends(u) {
      LeadsOn(s, u, Over(s));
    }
  }

  /** What is prepared is ready, whatever is done to the destinations meanwhile. */
  lemma {:induction false} EditedIsReady(s: State, edits: seq<Action>)
    requires Ready(s) && forall a | a in edits :: a.Edit?
    ensures Ready(Run(s, edits))
    decreases edits
  {
    if edits != [] {
      assert edits[0] in edits;
      EditedIsReady(Next(s, edits[0]), edits[1..]);
    }
  }

  lemma PreparedIsReady(entries: seq<Entry>, edits: seq<Action>)
    requires entries != [] && forall a | a in edits :: a.Edit?
    ensures WellFormed(Prepared(entries)) && Ready(Run(Prepared(entries), edits))
    ensures edits == [] ==> forall k | 0 <= k < |entries| :: Fits(entries[k], Prepared(entries).slots[k])
  {
    EditedIsReady(Prepared(entries), edits);
  }

  // ----- What a finished run leaves behind -----

  predicate Gone(slot: Slot) {
    slot.next == None && slot.rollback == None
  }

  /** `written`: the record has been durable; `quiet`: nothing disturbed the removal of the pins. */
  ghost predicate Tidy(s: State, written: bool, quiet: bool) {
    && WellFormed(s) && (s.record.Some? ==> written)
    && (s.control.Finished? || s.control.RemovePin? ==> s.record.None?)
    && (s.control.RemoveStaging? ==> forall k | 0 <= k < |s.slots| && k < s.control.i :: Gone(s.slots[k]))
    && (s.control.RemoveRecord? || s.control.RemovePin? || (written && s.record.None?) ==>
          forall k | 0 <= k < |s.slots| :: Gone(s.slots[k]))
    && (s.control.RemovePin? ==> forall k | 0 <= k < |s.slots| && k < s.control.i :: !s.slots[k].pin)
    && (written && s.record.None? ==> s.control.RemovePin? || s.control.Finished? || s.control.Stopped?)
    && (written && s.record.None? && quiet ==>
          s.control.RemovePin? || (s.control.Finished? && forall k | 0 <= k < |s.slots| :: !s.slots[k].pin))
  }

  predicate Disturbs(s: State, a: Action) {
    s.control.RemovePin? && (a.Crash? || a.Fail? || a.InterruptRemoval?)
  }

  predicate Closing(c: Control) {
    c.RemoveStaging? || c.RemoveRecord? || c.RemovePin? || c.Finished? || c.Stopped?
  }

  /** Before the cleanup a step removes no record and does not begin the removal of pins. */
  lemma BeforeCleanup(s: State)
    requires WellFormed(s) && !Closing(s.control)
    ensures var t := ProceedStep(s);
            && WellFormed(t) && (s.record.Some? ==> t.record.Some?)
            && !t.control.RemoveRecord? && !t.control.RemovePin?
            && (t.control.RemoveStaging? ==> t.control.i == 0)
            && (t.control.Finished? ==> s.record.None?)
  {}

  lemma TidyInstall(s: State, written: bool, quiet: bool)
    requires Tidy(s, written, quiet) && !Closing(s.control)
    ensures Tidy(ProceedStep(s), written || ProceedStep(s).record.Some?, quiet)
  {
    BeforeCleanup(s);
  }

  lemma TidyCleanup(s: State, written: bool, quiet: bool)
    requires Tidy(s, written, quiet) && Closing(s.control)
    ensures Tidy(ProceedStep(s), written || ProceedStep(s).record.Some?, quiet)
  {}

  lemma TidyProceed(s: State, written: bool, quiet: bool)
    requires Tidy(s, written, quiet)
    ensures Tidy(ProceedStep(s), written || ProceedStep(s).record.Some?, quiet)
  {
    if Closing(s.control) {
      TidyCleanup(s, written, quiet);
    } else {
      TidyInstall(s, written, quiet);
    }
  }

  lemma TidyStep(s: State, a: Action, written: bool, quiet: bool)
    requires Tidy(s, written, quiet)
    ensures Tidy(Next(s, a), written || Next(s, a).record.Some?, quiet && !Disturbs(s, a))
  {
    if a.Proceed? {
      TidyProceed(s, written, quiet);
    }
  }

  ghost predicate Written(entries: seq<Entry>, history: seq<Action>)
    requires entries != []
  {
    exists i :: 0 <= i <= |history| && Run(Prepared(entries), history[..i]).record.Some?
  }

  ghost predicate Quiet(entries: seq<Entry>, history: seq<Action>)
    requires entries != []
  {
    forall i | 0 <= i < |history| :: !Disturbs(Run(Prepared(entries), history[..i]), history[i])
  }

  lemma WrittenOn(entries: seq<Entry>, init: seq<Action>, last: Action)
    requires entries != []
    ensures Written(entries, init + [last]) <==>
            Written(entries, init) || Run(Prepared(entries), init + [last]).record.Some?
  {
    var all := init + [last];
    assert all[..|all|] == all && forall i | 0 <= i <= |init| :: all[..i] == init[..i];
    if Written(entries, init) {
      var i :| 0 <= i <= |init| && Run(Prepared(entries), init[..i]).record.Some?;
      assert Run(Prepared(entries), all[..i]).record.Some?;
    } else if Written(entries, all) {
      var i :| 0 <= i <= |all| && Run(Prepared(entries), all[..i]).record.Some?;
      assert i == |all|;
    }
  }

  lemma QuietOn(entries: seq<Entry>, init: seq<Action>, last: Action)
    requires entries != [] && Quiet(entries, init + [last])
    ensures Quiet(entries, init) && !Disturbs(Run(Prepared(entries), init), last)
  {
    var all := init + [last];
    assert all[..|init|] == init && all[|init|] == last;
    forall i | 0 <= i < |init| ensures !Disturbs(Run(Prepared(entries), init[..i]), init[i]) {
      assert all[..i] == init[..i] && all[i] == init[i];
    }
  }

  lemma {:induction false} TidyRun(entries: seq<Entry>, history: seq<Action>)
    requires entries != []
    ensures Tidy(Run(Prepared(entries), history), Written(entries, history), Quiet(entries, history))
    decreases history
  {
    if history == [] {
      assert history[..0] == [];
    } else {
      var init, last := history[..|history| - 1], history[|history| - 1];
      assert history == init + [last];
      TidyRun(entries, init);
      RunLast(entries, init, last);
      WrittenOn(entries, init, last);
      if Quiet(entries, history) {
        QuietOn(entries, init, last);
      }
      TidyStep(Run(Prepared(entries), init), last, Written(entries, init), Quiet(entries, init));
    }
  }

  /** Whatever happened, a finished run whose record was ever durable has left neither new trees
      nor originals behind, and no pin unless its removal of the pins was disturbed. */
  lemma NothingIsLeftBehind(entries: seq<Entry>, history: seq<Action>, k: nat)
    requires entries != [] && k < |entries|
    requires Run(Prepared(entries), history).control.Finished? && Written(entries, history)
    ensures Gone(Run(Prepared(entries), history).slots[k])
    ensures Quiet(entries, history) ==> !Run(Prepared(entries), history).slots[k].pin
  {
    TidyRun(entries, history);
  }
}
