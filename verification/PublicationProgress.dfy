/**
 What a backup or a retry achieves when it is left alone: which request goes out, and what the
 journal and the workspace are afterwards, for either answer of the remote.
 */
module PublicationProgress {
  import opened Wrappers
  import opened BucketSync
  import opened Publication

  function Newest(known: Head, answer: Head): Head {
    if answer.revision > known.revision then answer else known
  }

  /** The remote's answers on the way: the head it is pulled at, and the head after the push. */
  datatype Answers = Answers(pulled: Head, pushed: Head, branched: bool)

  predicate Consistent(remote: Head, a: Answers) {
    Acceptable(remote, a.pulled) && Acceptable(Newest(remote, a.pulled), a.pushed)
  }

  // ----- From the recorded stash to the end -----

  /** The plan has got hold of the pending stash `k`, which fits its journal. */
  ghost predicate Holding(s: State, p: PendingBackup, k: nat) {
    && Valid(s.w) && s.w.initialized && k < |s.w.stashes|
    && s.pending == Some(p) && s.control == Marking(s.w.stashes[k])
    && Fits(s.w.stashes[k], p) && s.w.stashes[k].status == Pending && s.w.stashes[k].pushId == s.w.stashes[k].id
    && (p.staged.Some? ==> p.staged.value == (s.w.stashes[k].id, s.w.stashes[k].id))
  }

  /** The steps from there: record, freeze, pull, send, settle, close. */
  function Finishing(a: Answers): seq<Action> {
    [Proceed(EMPTY, false), Proceed(EMPTY, false), Proceed(a.pulled, false), Proceed(EMPTY, false),
     Proceed(a.pushed, a.branched), Proceed(EMPTY, false)]
  }

  /** The stashes afterwards: without stash `k`, or with it frozen and branched. */
  function Afterwards(stashes: seq<Stash>, k: nat, branched: bool): seq<Stash>
    requires k < |stashes|
  {
    if branched then stashes[k := stashes[k].(frozen := true, status := Branched)] else Remove(stashes, k)
  }

  function CaughtUpTo(base: Head, remote: Head, stashes: seq<Stash>): Workspace {
    Workspace(true, if stashes == [] then remote else base, remote, stashes)
  }

  /** The end of a publication: one request went out, and the journal is closed, or it stays
      open on the branched stash. */
  function Published(s: State, p: PendingBackup, k: nat, a: Answers): State
    requires k < |s.w.stashes|
  {
    var id := s.w.stashes[k].id;
    s.(w := CaughtUpTo(s.w.base, Newest(Newest(s.w.remote, a.pulled), a.pushed),
                       Afterwards(s.w.stashes, k, a.branched)),
       pending := if a.branched then Some(p.(staged := Some((id, id)))) else None,
       control := Idle,
       issued := s.issued + [Issued(PendingRequest(p, id), Some(p.snapshot), true)])
  }

  lemma SixSteps(s: State, a: seq<Action>)
    requires |a| == 6
    ensures Publication.Run(s, a) == Next(Next(Next(Next(Next(Next(s, a[0]), a[1]), a[2]), a[3]), a[4]), a[5])
  {
    var front, back := [a[0], a[1], a[2]], [a[3], a[4], a[5]];
    assert a == front + back;
    RunAppend(s, front, back);
    ThreeSteps(s, a[0], a[1], a[2]);
    ThreeSteps(Publication.Run(s, front), a[3], a[4], a[5]);
  }

  lemma RecordsAndFreezes(s: State, p: PendingBackup, k: nat)
    requires Holding(s, p, k)
    ensures var r, stash := Proceed(EMPTY, false), s.w.stashes[k].(frozen := true);
            && Valid(s.w.(stashes := s.w.stashes[k := stash]))
            && Next(Next(s, r), r) ==
               s.(pending := Some(p.(staged := Some((stash.id, stash.id)))),
                  w := s.w.(stashes := s.w.stashes[k := stash]), control := Pulling(stash))
  {
    var r, stash := Proceed(EMPTY, false), s.w.stashes[k].(frozen := true);
    var marked := s.(pending := Some(p.(staged := Some((stash.id, stash.id)))), control := Freezing);
    assert Next(s, r) == marked;
    assert FindPending(s.w.stashes, p.candidate, 0) == k;
    assert Freeze(s.w.stashes[k], NO_TEXT, p.message) == Some(stash);
    FreezeKeeps(s.w, p.candidate, NO_TEXT, p.message);
  }

  lemma PullsAndSends(s: State, stash: Stash, head: Head)
    requires Valid(s.w) && s.w.initialized && s.w.stashes != [] && s.pending.Some? && s.control == Pulling(stash)
    requires Acceptable(s.w.remote, head)
    ensures var w := s.w.(remote := Newest(s.w.remote, head));
            && Valid(w)
            && Next(Next(s, Proceed(head, false)), Proceed(EMPTY, false)) ==
               s.(w := w, control := Settling(stash),
                  issued := s.issued + [Issued(RequestOf(stash), Some(s.pending.value.snapshot), true)])
  {
    PullOutcome(s.w, head);
    PullKeeps(s.w, head);
    var w := s.w.(remote := Newest(s.w.remote, head));
    assert Pull(s.w, head) == Some(w);
    assert Next(s, Proceed(head, false)) == s.(w := w, control := Sending(stash));
  }

  lemma SettlesAt(w: Workspace, k: nat, branched: bool, head: Head)
    requires Valid(w) && w.initialized && k < |w.stashes| && Acceptable(w.remote, head)
    ensures var stashes := if branched then w.stashes[k := w.stashes[k].(status := Branched)] else Remove(w.stashes, k);
            PushSettle(w, w.stashes[k].id, branched, head) ==
            Some(CaughtUpTo(w.base, Newest(w.remote, head), stashes))
  {
    var stashes := if branched then w.stashes[k := w.stashes[k].(status := Branched)] else Remove(w.stashes, k);
    assert FindId(w.stashes, w.stashes[k].id, 0) == k;
    AdvanceCatchesUp(w, head, stashes);
  }

  lemma SettlesAndCloses(s: State, k: nat, head: Head, branched: bool)
    requires Valid(s.w) && s.w.initialized && k < |s.w.stashes| && s.pending.Some?
    requires s.control == Settling(s.w.stashes[k]) && Acceptable(s.w.remote, head)
    ensures var stashes := if branched then s.w.stashes[k := s.w.stashes[k].(status := Branched)]
                           else Remove(s.w.stashes, k);
            Next(Next(s, Proceed(head, branched)), Proceed(EMPTY, false)) ==
            s.(w := CaughtUpTo(s.w.base, Newest(s.w.remote, head), stashes), control := Idle,
               pending := if branched then s.pending else None)
  {
    SettlesAt(s.w, k, branched, head);
    var w := PushSettle(s.w, s.w.stashes[k].id, branched, head).value;
    assert Next(s, Proceed(head, branched)) == s.(w := w, control := Closing(branched));
  }

  lemma FrozenAfterwards(stashes: seq<Stash>, k: nat, branched: bool)
    requires k < |stashes|
    ensures var frozen := stashes[k := stashes[k].(frozen := true)];
            Afterwards(stashes, k, branched) ==
            if branched then frozen[k := frozen[k].(status := Branched)] else Remove(frozen, k)
  {}

  lemma Finishes(s: State, p: PendingBackup, k: nat, a: Answers)
    requires Holding(s, p, k) && Consistent(s.w.remote, a)
    ensures Publication.Run(s, Finishing(a)) == Published(s, p, k, a)
  {
    var r, stash := Proceed(EMPTY, false), s.w.stashes[k].(frozen := true);
    RecordsAndFreezes(s, p, k);
    var s2 := Next(Next(s, r), r);
    PullsAndSends(s2, stash, a.pulled);
    var s4 := Next(Next(s2, Proceed(a.pulled, false)), r);
    SettlesAndCloses(s4, k, a.pushed, a.branched);
    FrozenAfterwards(s.w.stashes, k, a.branched);
    SixSteps(s, Finishing(a));
  }

  // ----- A backup -----

  /** Nothing is known of the candidate, and the base can be staged on. */
  ghost predicate Fresh(w: Workspace, candidate: Root, base: Head) {
    && w.initialized && ValidHead(base)
    && forall s | s in w.stashes :: s.candidate != candidate || s.status != Pending
  }

  lemma NonePending(stashes: seq<Stash>, candidate: Root)
    requires forall s | s in stashes :: s.candidate != candidate || s.status != Pending
    ensures FindPending(stashes, candidate, 0) == |stashes|
  {}

  lemma StagesNew(s: State, p: PendingBackup)
    requires Inv(s) && s.pending == Some(p) && p.staged == None && s.control == Staging
    requires Fresh(s.w, p.candidate, p.base)
    ensures var stash := Stash(s.nextId, s.nextId, p.candidate, p.base, NO_TEXT, p.message, false, Pending);
            var after := s.(w := s.w.(stashes := s.w.stashes + [stash]), nextId := s.nextId + 1,
                            control := Marking(stash));
            Next(s, Proceed(EMPTY, false)) == after && Holding(after, p, |s.w.stashes|)
  {
    var stash := Stash(s.nextId, s.nextId, p.candidate, p.base, NO_TEXT, p.message, false, Pending);
    NonePending(s.w.stashes, p.candidate);
    AppendKeeps(s.w, stash);
  }

  lemma AppendedAfterwards(stashes: seq<Stash>, stash: Stash, branched: bool)
    ensures Afterwards(stashes + [stash], |stashes|, branched) ==
            stashes + if branched then [stash.(frozen := true, status := Branched)] else []
  {}

  /**
   A backup left alone sends its snapshot once, under a new identity. Answered "not branched" it
   ends with the journal closed and the workspace's stashes as they were; answered "branched" it
   ends with the journal open and its frozen stash branched. Either way it catches up.
   */
  lemma BackupCompletes(s: State, candidate: Root, base: Head, message: Text, a: Answers)
    requires Inv(s) && s.control == Idle && s.pending == None && Fresh(s.w, candidate, base)
    requires Consistent(s.w.remote, a)
    ensures var id, r := s.nextId, Proceed(EMPTY, false);
            var stash := Stash(id, id, candidate, base, NO_TEXT, message, true, Branched);
            Publication.Run(s, [Backup(candidate, base, message), r] + Finishing(a)) ==
            State(CaughtUpTo(s.w.base, Newest(Newest(s.w.remote, a.pulled), a.pushed),
                             s.w.stashes + if a.branched then [stash] else []),
                  if a.branched
                    then Some(PendingBackup(s.snapshots, candidate, base, message, Some((id, id)))) else None,
                  Idle, s.issued + [Issued(Request(id, base, candidate, NO_TEXT, message), Some(s.snapshots), true)],
                  id + 1, s.snapshots + 1)
  {
    var p, r := PendingBackup(s.snapshots, candidate, base, message, None), Proceed(EMPTY, false);
    var backup := Backup(candidate, base, message);
    var s1 := Next(s, backup);
    NewPendingInv(s, p);
    StagesNew(s1, p);
    var s2 := Next(s1, r);
    Finishes(s2, p, |s.w.stashes|, a);
    AppendedAfterwards(s.w.stashes, s2.control.stash, a.branched);
    RunFirst(s, backup, [r] + Finishing(a));
    RunFirst(s1, r, Finishing(a));
    assert [backup, r] + Finishing(a) == [backup] + ([r] + Finishing(a));
  }

  lemma LastIsResolved(w: Workspace, stashes: seq<Stash>, stash: Stash)
    requires Valid(w) && w.initialized && w.stashes == stashes + [stash] && stash.status == Branched
    ensures ResolveBranched(w, stash.id, stash.candidate) == Some(CaughtUpTo(w.base, w.remote, stashes))
  {
    assert w.stashes[|stashes|] == stash && FindId(w.stashes, stash.id, 0) == |stashes|;
    assert Remove(w.stashes, |stashes|) == stashes;
    AdvanceCatchesUp(w, w.remote, stashes);
  }

  /** After a branched push, resolving the stash and clearing the journal leaves the workspace as
      it was, caught up, and the plan ready for its next snapshot. */
  lemma ConflictIsResolved(s: State, stashes: seq<Stash>, stash: Stash)
    requires Inv(s) && s.control == Idle && s.w.initialized && s.w.stashes == stashes + [stash]
    requires stash.status == Branched
    ensures Publication.Run(s, [OutResolve(stash.id, stash.candidate), Clear]) ==
            s.(w := CaughtUpTo(s.w.base, s.w.remote, stashes), pending := None)
  {
    var resolve := OutResolve(stash.id, stash.candidate);
    LastIsResolved(s.w, stashes, stash);
    RunFirst(s, resolve, [Clear]);
    RunFirst(Next(s, resolve), Clear, []);
    assert [resolve] + [Clear] == [resolve, Clear] && [Clear] + [] == [Clear];
  }

  // ----- A retry -----

  /** Where a retry finds the stash of the snapshot: by the journaled identity, or the first of
      its candidate while the journal has none. */
  predicate FoundAt(w: Workspace, p: PendingBackup, k: nat) {
    && k < |w.stashes|
    && match p.staged
       case Some((id, _)) => w.stashes[k].id == id
       case None =>
         w.stashes[k].candidate == p.candidate && forall j | 0 <= j < k :: w.stashes[j].candidate != p.candidate
  }

  /** The stash found there can be pushed on. */
  predicate Usable(stash: Stash, p: PendingBackup) {
    Fits(stash, p) && stash.status == Pending && (p.staged.Some? ==> p.staged.value.1 == stash.pushId)
  }

  lemma FoundIsThere(s: State, p: PendingBackup, k: nat)
    requires Valid(s.w) && FoundAt(s.w, p, k)
    ensures PendingStash(s.w, p) ==
            if !Fits(s.w.stashes[k], p) || (p.staged.Some? && p.staged.value.1 != s.w.stashes[k].pushId)
            then Conflict else Found(s.w.stashes[k])
  {
    if p.staged.Some? {
      assert FindId(s.w.stashes, p.staged.value.0, 0) == k;
    } else {
      FirstOfCandidate(s.w.stashes, p.candidate, 0, k);
    }
  }

  lemma {:induction false} FirstOfCandidate(stashes: seq<Stash>, candidate: Root, i: nat, k: nat)
    requires i <= k <= |stashes| && (k < |stashes| ==> stashes[k].candidate == candidate)
    requires forall j | i <= j < k :: stashes[j].candidate != candidate
    ensures FindCandidate(stashes, candidate, i) == k
    decreases k - i
  {
    if i < k {
      FirstOfCandidate(stashes, candidate, i + 1, k);
    }
  }

  /** A retry that finds its stash pending sends exactly the journaled request with it. */
  lemma RetryResumes(s: State, p: PendingBackup, k: nat, a: Answers)
    requires Inv(s) && s.control == Idle && s.pending == Some(p) && s.w.initialized
    requires FoundAt(s.w, p, k) && Usable(s.w.stashes[k], p) && Consistent(s.w.remote, a)
    ensures Publication.Run(s, [Retry, Proceed(EMPTY, false)] + Finishing(a)) == Published(s, p, k, a)
  {
    var r := Proceed(EMPTY, false);
    FoundIsThere(s, p, k);
    var s2 := s.(control := Marking(s.w.stashes[k]));
    assert Next(Next(s, Retry), r) == s2;
    assert s.w.stashes[k] in s.w.stashes;
    StashAgrees(s, s.w.stashes[k]);
    Finishes(s2, p, k, a);
    RunFirst(s, Retry, [r] + Finishing(a));
    RunFirst(Next(s, Retry), r, Finishing(a));
    assert [Retry, r] + Finishing(a) == [Retry] + ([r] + Finishing(a));
  }

  lemma NothingFound(w: Workspace, p: PendingBackup)
    requires forall k: nat :: !FoundAt(w, p, k)
    ensures PendingStash(w, p) == Missing
  {
    if p.staged.Some? {
      var k := FindId(w.stashes, p.staged.value.0, 0);
      assert !FoundAt(w, p, k);
    } else {
      NoneOfCandidate(w, p, |w.stashes|);
      FirstOfCandidate(w.stashes, p.candidate, 0, |w.stashes|);
    }
  }

  lemma {:induction false} NoneOfCandidate(w: Workspace, p: PendingBackup, i: nat)
    requires p.staged == None && i <= |w.stashes| && forall k: nat :: !FoundAt(w, p, k)
    ensures forall j | 0 <= j < i :: w.stashes[j].candidate != p.candidate
    decreases i
  {
    if i > 0 {
      NoneOfCandidate(w, p, i - 1);
      assert !FoundAt(w, p, i - 1);
    }
  }

  /** A retry that finds nothing, and nothing else pending for its candidate, puts its stash
      back under the journaled identity, or stages it anew if there is none, and completes. */
  lemma RetryRestages(s: State, p: PendingBackup, a: Answers)
    requires Inv(s) && s.control == Idle && s.pending == Some(p) && Fresh(s.w, p.candidate, p.base)
    requires (forall k: nat :: !FoundAt(s.w, p, k)) && Consistent(s.w.remote, a)
    ensures var r, id := Proceed(EMPTY, false), if p.staged.Some? then p.staged.value.0 else s.nextId;
            var stash := Stash(id, id, p.candidate, p.base, NO_TEXT, p.message, true, Branched);
            Publication.Run(s, [Retry, r, r] + Finishing(a)) ==
            s.(w := CaughtUpTo(s.w.base, Newest(Newest(s.w.remote, a.pulled), a.pushed),
                               s.w.stashes + if a.branched then [stash] else []),
               pending := if a.branched then Some(p.(staged := Some((id, id)))) else None,
               issued := s.issued + [Issued(PendingRequest(p, id), Some(p.snapshot), true)],
               nextId := if p.staged.Some? then s.nextId else s.nextId + 1)
  {
    var r := Proceed(EMPTY, false);
    NothingFound(s.w, p);
    NonePending(s.w.stashes, p.candidate);
    var s3;
    if p.staged.Some? {
      var id := p.staged.value.0;
      RetryRestores(s, p, id);
      AppendKeeps(s.w, JournaledStash(p, id));
      s3 := s.(w := WithNew(s.w, JournaledStash(p, id)), control := Marking(JournaledStash(p, id)));
    } else {
      var s2 := s.(control := Staging);
      assert Next(Next(s, Retry), r) == s2;
      GoInv(s, Staging);
      StagesNew(s2, p);
      s3 := Next(s2, r);
    }
    Finishes(s3, p, |s.w.stashes|, a);
    AppendedAfterwards(s.w.stashes, s3.control.stash, a.branched);
    RunAppend(s, [Retry, r, r], Finishing(a));
    ThreeSteps(s, Retry, r, r);
  }

  /** A stash found that cannot be pushed on stops the retry at once. */
  lemma FoundIsRefused(s: State, p: PendingBackup, k: nat)
    requires Valid(s.w) && s.control == Matching && s.pending == Some(p) && FoundAt(s.w, p, k)
    requires !s.w.initialized || !Usable(s.w.stashes[k], p)
    ensures Next(s, Proceed(EMPTY, false)) == s.(control := Idle)
  {
    FoundIsThere(s, p, k);
  }

  lemma RestagingIsRefused(s: State, p: PendingBackup)
    requires Inv(s) && s.pending == Some(p) && !Fresh(s.w, p.candidate, p.base)
    requires s.control == (if p.staged.Some? then Restoring else Staging) && PendingStash(s.w, p) == Missing
    ensures Next(s, Proceed(EMPTY, false)) == s.(control := Idle)
  {
    if x :| x in s.w.stashes && x.candidate == p.candidate && x.status == Pending {
      var i :| 0 <= i < |s.w.stashes| && s.w.stashes[i] == x;
      if p.staged.None? {
        NotFirst(s.w.stashes, p.candidate, i);
      }
    }
  }

  lemma NotFirst(stashes: seq<Stash>, candidate: Root, i: nat)
    requires i < |stashes| && stashes[i].candidate == candidate
    ensures FindCandidate(stashes, candidate, 0) < |stashes|
  {
    NotFirstFrom(stashes, candidate, 0, i);
  }

  lemma {:induction false} NotFirstFrom(stashes: seq<Stash>, candidate: Root, from: nat, i: nat)
    requires from <= i < |stashes| && stashes[i].candidate == candidate
    ensures FindCandidate(stashes, candidate, from) < |stashes|
    decreases |stashes| - from
  {
    if stashes[from].candidate != candidate {
      NotFirstFrom(stashes, candidate, from + 1, i);
    }
  }

  lemma MissingGoesOn(s: State, p: PendingBackup)
    requires s.control == Matching && s.pending == Some(p) && PendingStash(s.w, p) == Missing
    ensures Next(s, Proceed(EMPTY, false)) ==
            s.(control := if !s.w.initialized then Idle else if p.staged.Some? then Restoring else Staging)
  {}

  /** In every other case a retry changes nothing. */
  lemma RetryRefused(s: State, p: PendingBackup)
    requires Inv(s) && s.control == Idle && s.pending == Some(p)
    requires forall k: nat | FoundAt(s.w, p, k) :: !s.w.initialized || !Usable(s.w.stashes[k], p)
    requires (forall k: nat :: !FoundAt(s.w, p, k)) ==> !Fresh(s.w, p.candidate, p.base)
    ensures var r := Proceed(EMPTY, false); Publication.Run(s, [Retry, r, r]) == s
  {
    var r, matching := Proceed(EMPTY, false), s.(control := Matching);
    ThreeSteps(s, Retry, r, r);
    assert Next(s, Retry) == matching;
    if k: nat :| FoundAt(s.w, p, k) {
      FoundIsRefused(matching, p, k);
    } else {
      NothingFound(s.w, p);
      MissingGoesOn(matching, p);
      if s.w.initialized {
        var c := if p.staged.Some? then Restoring else Staging;
        GoInv(s, c);
        RestagingIsRefused(s.(control := c), p);
      }
    }
  }

  /** One publication at a time: while one is under way no other starts and nothing is cleared, a
      new snapshot waits for the pending one, and without a pending one there is nothing to retry. */
  lemma OneAtATime(s: State, a: Action)
    requires a.Backup? || a.Retry? || a.Clear?
    requires s.control != Idle || (if a.Retry? then s.pending.None? else a.Backup? && s.pending.Some?)
    ensures Next(s, a) == s
  {}

  // ----- No snapshot is forgotten -----

  ghost predicate WasSent(s: State, snapshot: nat) {
    exists i :: 0 <= i < |s.issued| && s.issued[i].out && s.issued[i].snapshot == Some(snapshot)
  }

  ghost predicate SentInv(s: State) {
    s.pending.Some? && (s.control.Settling? || s.control.Closing?) ==> WasSent(s, s.pending.value.snapshot)
  }

  lemma SentStays(s: State, a: Action, snapshot: nat)
    requires WasSent(s, snapshot)
    ensures WasSent(Next(s, a), snapshot)
  {
    var i :| 0 <= i < |s.issued| && s.issued[i].out && s.issued[i].snapshot == Some(snapshot);
    assert Next(s, a).issued[i].out && Next(s, a).issued[i].snapshot == Some(snapshot);
  }

  lemma NextSentInv(s: State, a: Action)
    requires SentInv(s)
    ensures SentInv(Next(s, a))
  {
    if s.pending.Some? && (s.control.Settling? || s.control.Closing?) {
      SentStays(s, a, s.pending.value.snapshot);
    }
    if s.pending.Some? && s.control.Sending? && a.Proceed? {
      var after, i := Next(s, a), |s.issued|;
      assert after.issued[i].out && after.issued[i].snapshot == Some(s.pending.value.snapshot);
    }
  }

  lemma {:induction false} RunSentInv(s: State, actions: seq<Action>)
    requires SentInv(s)
    ensures SentInv(Publication.Run(s, actions))
    decreases actions
  {
    if actions != [] {
      NextSentInv(s, actions[0]);
      RunSentInv(Next(s, actions[0]), actions[1..]);
    }
  }

  /** In every run, whatever others do, a journaled snapshot stays journaled, with its candidate,
      base and message, until it has been sent or is cleared. */
  lemma NoSnapshotIsForgotten(history: seq<Action>, a: Action)
    requires Publication.Run(INITIAL, history).pending.Some? && !a.Clear?
    ensures var s := Publication.Run(INITIAL, history);
            var p, after := s.pending.value, Next(s, a).pending;
            WasSent(s, p.snapshot) || (after.Some? && after.value == p.(staged := after.value.staged))
  {
    RunSentInv(INITIAL, history);
  }
}
