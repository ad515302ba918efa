/**
 Under how many push identities the plan sends one snapshot. The journal records the identity
 of the snapshot's stash, but a push picks its stash up by candidate. The two can come apart
 in one place only, and the theorems here say which.
 */
module SnapshotIdentity {
  import opened Wrappers
  import opened BucketSync
  import opened Publication

  /** All requests sent for one snapshot carry one push identity. */
  ghost predicate OnePushPerSnapshot(s: State) {
    forall i, j | 0 <= i < j < |s.issued| && s.issued[i].snapshot.Some? &&
                  s.issued[i].snapshot == s.issued[j].snapshot ::
      s.issued[i].request.pushId == s.issued[j].request.pushId
  }

  /** The plan goes on to push the snapshot under the identity it records. */
  predicate AboutToPush(s: State) {
    && s.pending.Some?
    && (s.control.Freezing? || (s.control.Marking? && MayMark(s.pending.value, s.control.stash)))
  }

  /** Someone stages the pending candidate anew between the plan's record and its push. */
  predicate Splits(s: State, a: Action) {
    && a.OutStage? && AboutToPush(s) && a.candidate == s.pending.value.candidate
    && FindPending(s.w.stashes, a.candidate, 0) == |s.w.stashes|
    && Stage(s.w, a.candidate, a.base, a.changeSet, a.message, s.nextId).Some?
  }

  predicate SplitFreeRun(s: State, actions: seq<Action>)
    decreases actions
  {
    actions == [] || (!Splits(s, actions[0]) && SplitFreeRun(Next(s, actions[0]), actions[1..]))
  }

  // ----- Without such a step -----

  /** Whatever is pending for `candidate` is the stash `id`. */
  ghost predicate OnlyPending(stashes: seq<Stash>, candidate: Root, id: Id) {
    forall i | 0 <= i < |stashes| && stashes[i].status == Pending && stashes[i].candidate == candidate ::
      stashes[i].id == id
  }

  ghost predicate IdentityInv(s: State) {
    s.pending.Some? ==>
      var p := s.pending.value;
      && (s.control.Marking? && MayMark(p, s.control.stash) ==>
            OnlyPending(s.w.stashes, p.candidate, s.control.stash.id))
      && (s.control.Freezing? ==> p.staged.Some? && OnlyPending(s.w.stashes, p.candidate, p.staged.value.0))
      && (s.control.Pulling? || s.control.Sending? ==> p.staged == Some((s.control.stash.id, s.control.stash.pushId)))
  }

  ghost predicate SnapshotInv(s: State) {
    && OnePushPerSnapshot(s)
    && (forall i | 0 <= i < |s.issued| && s.issued[i].snapshot.Some? :: s.issued[i].snapshot.value < s.snapshots)
    && (s.pending.Some? ==>
          && s.pending.value.snapshot < s.snapshots
          && forall i | 0 <= i < |s.issued| && s.issued[i].snapshot == Some(s.pending.value.snapshot) ::
               s.pending.value.staged.Some? && s.issued[i].request.pushId == s.pending.value.staged.value.1)
  }

  lemma RemovalLeavesOnly(stashes: seq<Stash>, k: nat, candidate: Root, id: Id)
    requires OnlyPending(stashes, candidate, id) && k < |stashes|
    ensures OnlyPending(Remove(stashes, k), candidate, id)
  {
    assert forall j | 0 <= j < |Remove(stashes, k)| :: Remove(stashes, k)[j] == stashes[if j < k then j else j + 1];
  }

  /** Outside steps put no other stash in that place, unless they split the snapshot. */
  lemma OutsideLeavesOnly(s: State, a: Action, id: Id)
    requires Outside(a) && !Splits(s, a) && AboutToPush(s)
    requires OnlyPending(s.w.stashes, s.pending.value.candidate, id)
    ensures OnlyPending(Next(s, a).w.stashes, s.pending.value.candidate, id)
  {
    var stashes, candidate := s.w.stashes, s.pending.value.candidate;
    match a
    case OutSettle(other, branched, _) =>
      var k := FindId(stashes, other, 0);
      if k < |stashes| { RemovalLeavesOnly(stashes, k, candidate, id); }
    case OutResolve(other, _) =>
      var k := FindId(stashes, other, 0);
      if k < |stashes| { RemovalLeavesOnly(stashes, k, candidate, id); }
    case _ =>
  }

  lemma OutsideIdentityInv(s: State, a: Action)
    requires IdentityInv(s) && Outside(a) && !Splits(s, a)
    ensures IdentityInv(Next(s, a))
  {
    if AboutToPush(s) {
      var id := if s.control.Freezing? then s.pending.value.staged.value.0 else s.control.stash.id;
      OutsideLeavesOnly(s, a, id);
    }
  }

  lemma OutsideSnapshotInv(s: State, a: Action)
    requires SnapshotInv(s) && Outside(a)
    ensures SnapshotInv(Next(s, a))
  {}

  /** A pending stash in the workspace is the only one for its candidate. */
  lemma HeldIsOnly(w: Workspace, stash: Stash)
    requires Valid(w) && stash in w.stashes && stash.status == Pending
    ensures OnlyPending(w.stashes, stash.candidate, stash.id)
  {}

  /** What the plan is about to record is in the workspace, pending, when it gets hold of it. */
  lemma MarkingIsHeld(s: State, head: Head, branched: bool)
    requires Inv(s) && s.pending.Some? && (s.control.Matching? || s.control.Restoring? || s.control.Staging?)
    requires ProceedStep(s, head, branched).control.Marking?
    ensures var s' := ProceedStep(s, head, branched);
            s'.control.stash in s'.w.stashes && s'.control.stash.status == Pending
  {}

  lemma MarkingIdentityInv(s: State, head: Head, branched: bool)
    requires Inv(s) && s.pending.Some? && (s.control.Matching? || s.control.Restoring? || s.control.Staging?)
    ensures IdentityInv(ProceedStep(s, head, branched))
  {
    var s' := ProceedStep(s, head, branched);
    if s'.control.Marking? {
      ProceedInv(s, head, branched);
      MarkingIsHeld(s, head, branched);
      HeldIsOnly(s'.w, s'.control.stash);
    }
  }

  /** The stash a push picks up is the one the journal has recorded. */
  lemma FreezePicksTheStagedOne(s: State)
    requires Inv(s) && IdentityInv(s) && s.pending.Some? && s.control.Freezing?
    requires PushFreeze(s.w, s.pending.value.candidate, NO_TEXT, s.pending.value.message).Some?
    ensures var stash := PushFreeze(s.w, s.pending.value.candidate, NO_TEXT, s.pending.value.message).value.1;
            s.pending.value.staged == Some((stash.id, stash.pushId))
  {}

  lemma ProceedIdentityInv(s: State, head: Head, branched: bool)
    requires Inv(s) && IdentityInv(s)
    ensures IdentityInv(ProceedStep(s, head, branched))
  {
    if s.pending.Some? {
      var p := s.pending.value;
      if s.control.Matching? || s.control.Restoring? || s.control.Staging? {
        MarkingIdentityInv(s, head, branched);
      } else if s.control.Freezing? && PushFreeze(s.w, p.candidate, NO_TEXT, p.message).Some? {
        FreezePicksTheStagedOne(s);
      }
    }
  }

  lemma ProceedSnapshotInv(s: State, head: Head, branched: bool)
    requires Inv(s) && IdentityInv(s) && SnapshotInv(s)
    ensures SnapshotInv(ProceedStep(s, head, branched))
  {}

  lemma NextIdentityInv(s: State, a: Action)
    requires Inv(s) && IdentityInv(s) && SnapshotInv(s) && !Splits(s, a)
    ensures IdentityInv(Next(s, a)) && SnapshotInv(Next(s, a))
  {
    if a.Proceed? {
      ProceedIdentityInv(s, a.head, a.branched);
      ProceedSnapshotInv(s, a.head, a.branched);
    } else if Outside(a) {
      OutsideIdentityInv(s, a);
      OutsideSnapshotInv(s, a);
    }
  }

  lemma {:induction false} IdentityRunInv(s: State, actions: seq<Action>)
    requires Inv(s) && IdentityInv(s) && SnapshotInv(s) && ConformingRun(s, actions) && SplitFreeRun(s, actions)
    ensures Inv(Publication.Run(s, actions)) && SnapshotInv(Publication.Run(s, actions))
    decreases actions
  {
    if actions != [] {
      NextIdentityInv(s, actions[0]);
      NextInv(s, actions[0]);
      IdentityRunInv(Next(s, actions[0]), actions[1..]);
    }
  }

  /**
   In every run of backups and retries with crashes, lost answers and others using the same
   workspace, in which no push deviates and no step splits the snapshot, all requests sent for
   one pending snapshot are identical.
   */
  lemma SnapshotIsSentOneWay(actions: seq<Action>, i: nat, j: nat)
    requires ConformingRun(INITIAL, actions) && SplitFreeRun(INITIAL, actions)
    requires var issued := Publication.Run(INITIAL, actions).issued;
             i < |issued| && j < |issued| && issued[i].snapshot.Some? && issued[i].snapshot == issued[j].snapshot
    ensures Publication.Run(INITIAL, actions).issued[i].request == Publication.Run(INITIAL, actions).issued[j].request
  {
    IdentityRunInv(INITIAL, actions);
    var issued := Publication.Run(INITIAL, actions).issued;
    var low, high := if i < j then i else j, if i < j then j else i;
    assert low < high ==> issued[low].request == issued[high].request;
  }

  // ----- After such a step -----

  /** The plan is about to push, its recorded stash is not pending, and stash `n` is in its place. */
  ghost predicate Split(s: State, p: PendingBackup, id: Id, n: Id) {
    && Valid(s.w) && s.w.initialized && ValidHead(p.base) && id != n
    && s.pending == Some(p) && p.staged == Some((id, id)) && s.control == Freezing
    && s.w.stashes != [] && InItsPlace(s.w.stashes[|s.w.stashes| - 1], p, n)
    && NotPending(s.w.stashes, p, id)
  }

  predicate InItsPlace(stash: Stash, p: PendingBackup, n: Id) {
    stash.id == stash.pushId == n && stash.candidate == p.candidate && stash.status == Pending && !stash.frozen
  }

  ghost predicate NotPending(stashes: seq<Stash>, p: PendingBackup, id: Id) {
    forall j | 0 <= j < |stashes| && stashes[j].id == id ::
      stashes[j].status == Branched && stashes[j].candidate == p.candidate
  }

  function Recorded(s: State): seq<Action> {
    if s.control.Marking? then Proceeds(1) else []
  }

  function RecordedId(s: State): Id
    requires AboutToPush(s) && JournalInv(s)
  {
    if s.control.Freezing? then s.pending.value.staged.value.0 else s.control.stash.id
  }

  /** The recorded stash agrees with the journal on its candidate, so it cannot be pending. */
  lemma RecordedIsNotPending(s: State)
    requires Inv(s) && JournalInv(s) && AboutToPush(s)
    requires FindPending(s.w.stashes, s.pending.value.candidate, 0) == |s.w.stashes|
    ensures NotPending(s.w.stashes, s.pending.value, RecordedId(s)) && RecordedId(s) < s.nextId
  {}

  lemma SplitIsMade(s: State, a: Action)
    requires Inv(s) && JournalInv(s) && Splits(s, a)
    ensures var s' := Publication.Run(Next(s, a), Recorded(s));
            s'.pending.Some? && Split(s', s'.pending.value, RecordedId(s), s.nextId)
  {
    RecordedIsNotPending(s);
    OutStageInv(s, a.candidate, a.base, a.changeSet, a.message);
    if s.control.Marking? {
      RunProceed(Next(s, a), 1);
    }
  }

  lemma SplitIsFrozen(s: State, p: PendingBackup, id: Id, n: Id) returns (stash: Stash)
    requires Split(s, p, id, n)
    ensures var k := |s.w.stashes| - 1;
            && stash.id == stash.pushId == n && stash.status == Pending && stash.candidate == p.candidate
            && Valid(s.w.(stashes := s.w.stashes[k := stash]))
            && ProceedStep(s, EMPTY, false) ==
               s.(w := s.w.(stashes := s.w.stashes[k := stash]), control := Pulling(stash))
  {
    var k := |s.w.stashes| - 1;
    stash := Freeze(s.w.stashes[k], NO_TEXT, p.message).value;
    assert FindPending(s.w.stashes, p.candidate, 0) == k;
    FreezeKeeps(s.w, p.candidate, NO_TEXT, p.message);
  }

  /** The plan sends the snapshot as stash `n`, and the push goes through. */
  lemma SplitIsSent(s: State, p: PendingBackup, id: Id, n: Id) returns (w: Workspace, request: Request)
    requires Split(s, p, id, n)
    ensures request.pushId == n && Valid(w) && w.initialized && w.stashes == s.w.stashes[..|s.w.stashes| - 1]
    ensures Publication.Run(s, Proceeds(4)) ==
            s.(w := w, control := Closing(false), issued := s.issued + [Issued(request, Some(p.snapshot), true)])
  {
    var r, k := Proceed(EMPTY, false), |s.w.stashes| - 1;
    var stash := SplitIsFrozen(s, p, id, n);
    var s1 := Next(s, r);
    FrozenIsSent(s1, stash);
    SettledIsGone(s1.w, k);
    request := RequestOf(stash);
    w := PushSettle(s1.w, n, false, EMPTY).value;
    FourSteps(s);
  }

  /** Resolving the conflict on stash `k` removes it. */
  lemma ResolvedIsGone(w: Workspace, k: nat, candidate: Root)
    requires Valid(w) && w.initialized && k < |w.stashes|
    requires w.stashes[k].status == Branched && w.stashes[k].candidate == candidate
    requires FindPending(w.stashes, candidate, 0) == |w.stashes|
    ensures var r := ResolveBranched(w, w.stashes[k].id, candidate);
            && r.Some? && Valid(r.value) && r.value.initialized && r.value.stashes == Remove(w.stashes, k)
            && FindId(r.value.stashes, w.stashes[k].id, 0) == |r.value.stashes|
            && FindPending(r.value.stashes, candidate, 0) == |r.value.stashes|
  {
    var id, rest := w.stashes[k].id, Remove(w.stashes, k);
    assert FindId(w.stashes, id, 0) == k;
    ResolveKeeps(w, id, candidate);
    assert forall j | 0 <= j < |rest| :: rest[j] == w.stashes[if j < k then j else j + 1];
  }

  /** Without the last stash, which was pending for `candidate`, nothing is. */
  lemma NoneIsPending(stashes: seq<Stash>, candidate: Root)
    requires Distinct(stashes) && stashes != []
    requires stashes[|stashes| - 1].status == Pending && stashes[|stashes| - 1].candidate == candidate
    ensures FindPending(stashes[..|stashes| - 1], candidate, 0) == |stashes| - 1
  {}

  /** Then the recorded stash can be restored, after a conflict on it is resolved. */
  lemma SplitIsRestorable(w: Workspace, p: PendingBackup, id: Id)
    requires Valid(w) && w.initialized && NotPending(w.stashes, p, id)
    requires FindPending(w.stashes, p.candidate, 0) == |w.stashes|
    ensures var w' := Take(w, DoResolve(id, p.candidate));
            && Valid(w') && w'.initialized
            && FindId(w'.stashes, id, 0) == |w'.stashes| == FindPending(w'.stashes, p.candidate, 0)
  {
    var k := FindId(w.stashes, id, 0);
    if k < |w.stashes| {
      ResolvedIsGone(w, k, p.candidate);
    }
  }

  function Resolved(id: Id, candidate: Root): seq<Action> {
    [Crash, OutResolve(id, candidate)]
  }

  lemma Resolves(s: State, id: Id, candidate: Root)
    ensures Publication.Run(s, Resolved(id, candidate)) ==
            s.(control := Idle, w := Take(s.w, DoResolve(id, candidate)))
  {
    RunStep(s, Resolved(id, candidate));
    RunStep(Next(s, Crash), [OutResolve(id, candidate)]);
    assert Resolved(id, candidate)[1..] == [OutResolve(id, candidate)];
  }

  /** The push as stash `n` is done; a retry then sends the snapshot under the recorded identity. */
  lemma SplitIsRetried(s: State, p: PendingBackup, id: Id)
    requires Valid(s.w) && s.w.initialized && ValidHead(p.base) && NotPending(s.w.stashes, p, id)
    requires FindPending(s.w.stashes, p.candidate, 0) == |s.w.stashes|
    requires s.pending == Some(p) && p.staged == Some((id, id))
    ensures Publication.Run(s, Resolved(id, p.candidate) + Retried()).issued ==
            s.issued + [Issued(PendingRequest(p, id), Some(p.snapshot), true)]
  {
    Resolves(s, id, p.candidate);
    SplitIsRestorable(s.w, p, id);
    RetrySends(s.(control := Idle, w := Take(s.w, DoResolve(id, p.candidate))), p, id);
    RunAppend(s, Resolved(id, p.candidate), Retried());
  }

  lemma SplitIsSentTwice(s: State, p: PendingBackup, id: Id, n: Id)
    requires Split(s, p, id, n)
    ensures !OnePushPerSnapshot(Publication.Run(s, Proceeds(4) + (Resolved(id, p.candidate) + Retried())))
  {
    var w, request := SplitIsSent(s, p, id, n);
    var s1, i := Publication.Run(s, Proceeds(4)), |s.issued|;
    NoneIsPending(s.w.stashes, p.candidate);
    SplitIsRetried(s1, p, id);
    RunAppend(s, Proceeds(4), Resolved(id, p.candidate) + Retried());
    var issued := Publication.Run(s1, Resolved(id, p.candidate) + Retried()).issued;
    assert issued[i] == Issued(request, Some(p.snapshot), true);
    assert issued[i + 1] == Issued(PendingRequest(p, id), Some(p.snapshot), true);
  }

  /** What follows a split: the plan pushes, the conflict on its stash is resolved, it retries. */
  function Aftermath(s: State, id: Id, candidate: Root): (actions: seq<Action>)
    ensures forall b | b in actions :: !b.OutStage? && !b.OutPush?
  {
    Recorded(s) + (Proceeds(4) + (Resolved(id, candidate) + Retried()))
  }

  lemma SplitsFrom(s: State, a: Action) returns (rest: seq<Action>)
    requires Inv(s) && JournalInv(s) && Splits(s, a)
    ensures !OnePushPerSnapshot(Publication.Run(Next(s, a), rest))
    ensures forall b | b in rest :: !b.OutStage? && !b.OutPush?
  {
    SplitIsMade(s, a);
    var p := Publication.Run(Next(s, a), Recorded(s)).pending.value;
    SplitIsSentTwice(Publication.Run(Next(s, a), Recorded(s)), p, RecordedId(s), s.nextId);
    rest := Aftermath(s, RecordedId(s), p.candidate);
    RunAppend(Next(s, a), Recorded(s), Proceeds(4) + (Resolved(RecordedId(s), p.candidate) + Retried()));
  }

  /**
   Every such step does it: from every reachable state it can be followed by steps in which no
   one deviates or stages anything, and the plan sends its snapshot under two push identities.
   */
  lemma RestagingSplitsTheSnapshot(history: seq<Action>, a: Action) returns (rest: seq<Action>)
    requires ConformingRun(INITIAL, history) && Splits(Publication.Run(INITIAL, history), a)
    ensures ConformingRun(INITIAL, history + ([a] + rest))
    ensures forall b | b in rest :: !b.OutStage?
    ensures !OnePushPerSnapshot(Publication.Run(INITIAL, history + ([a] + rest)))
  {
    var s := Publication.Run(INITIAL, history);
    RunInv(INITIAL, history);
    RunJournalInv(INITIAL, history);
    rest := SplitsFrom(s, a);
    RunAppend(INITIAL, history, [a] + rest);
    RunFirst(s, a, rest);
    NoPushConforms(s, [a] + rest);
    ConformAppend(INITIAL, history, [a] + rest);
  }

  /** The plan stages its snapshot and records its identity. */
  function Marked(candidate: Root, message: Text): seq<Action> {
    [OutPull(EMPTY), Backup(candidate, EMPTY, message), Proceed(EMPTY, false), Proceed(EMPTY, false)]
  }

  /** An outsider pushes that very request, and the push goes through. */
  function Overtaken(candidate: Root): seq<Action> {
    [OutPush(candidate, NO_TEXT, NO_TEXT), OutSend(0), OutSettle(0, false, EMPTY)]
  }

  function AboutToFreeze(candidate: Root, message: Text): State {
    State(Workspace(true, EMPTY, EMPTY, [Stash(0, 0, candidate, EMPTY, NO_TEXT, message, false, Pending)]),
          Some(PendingBackup(0, candidate, EMPTY, message, Some((0, 0)))), Freezing, [], 1, 1)
  }

  lemma AfterMarked(candidate: Root, message: Text)
    ensures Publication.Run(INITIAL, Marked(candidate, message)) == AboutToFreeze(candidate, message)
  {
    var a := Marked(candidate, message);
    var s1 := Next(INITIAL, a[0]);
    var s2 := Next(s1, a[1]);
    var s3 := Next(s2, a[2]);
    assert s3.w == AboutToFreeze(candidate, message).w && s3.control == Marking(s3.w.stashes[0]);
    RunStep(INITIAL, a);
    RunStep(s1, a[1..]);
    RunStep(s2, a[2..]);
    RunStep(s3, a[3..]);
  }

  lemma AfterOvertaken(candidate: Root, message: Text)
    ensures var s := AboutToFreeze(candidate, message);
            && ConformingRun(s, Overtaken(candidate))
            && Publication.Run(s, Overtaken(candidate)) ==
               s.(w := Workspace(true, EMPTY, EMPTY, []),
                  issued := [Issued(Request(0, EMPTY, candidate, NO_TEXT, message), None, true)])
  {
    var s, a := AboutToFreeze(candidate, message), Overtaken(candidate);
    var s1 := Next(s, a[0]);
    assert s1.w.stashes == [s.w.stashes[0].(frozen := true)];
    var s2 := Next(s1, a[1]);
    assert Next(s2, a[2]).w.stashes == [];
    ThreeSteps(s, a[0], a[1], a[2]);
    NoPushConforms(s1, a[1..]);
  }

  /** Such a step is possible: staging the candidate again at that moment. */
  lemma RestagingIsPossible(candidate: Root, message: Text, base: Head, changeSet: Text, other: Text)
    requires ValidHead(base)
    ensures var actions := Marked(candidate, message) + Overtaken(candidate);
            && ConformingRun(INITIAL, actions)
            && Splits(Publication.Run(INITIAL, actions), OutStage(candidate, base, changeSet, other))
  {
    AfterMarked(candidate, message);
    AfterOvertaken(candidate, message);
    RunAppend(INITIAL, Marked(candidate, message), Overtaken(candidate));
    NoPushConforms(INITIAL, Marked(candidate, message));
    ConformAppend(INITIAL, Marked(candidate, message), Overtaken(candidate));
  }
}
