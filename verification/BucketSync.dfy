/**
 The durable Bucket workspace: the base local work starts from, the newest remote head that
 has been observed, and the stashes of local work not yet merged. Every function here is one
 locked reload-operate-write step.
 */
module BucketSync {
  import opened Wrappers

  type Id = nat
  type Root = nat

  /** Messages and change-set identities, trimmed. All that matters of one is whether it is
      empty and whether it equals another. */
  type Text = nat

  const NO_TEXT: Text := 0

  /** A commit on the target branch; revision 0 is the empty branch. */
  datatype Head = Head(commit: nat, root: Root, revision: nat)

  const EMPTY := Head(0, 0, 0)

  predicate ValidHead(h: Head) {
    if h.commit == 0 then h.root == 0 && h.revision == 0 else h.root != 0 && h.revision != 0
  }

  datatype Status = Pending | Branched

  /** Local work bound to the base it was made from. Text is kept trimmed. */
  datatype Stash = Stash(
    id: Id, pushId: Id, candidate: Root, base: Head, changeSet: Text, message: Text,
    frozen: bool, status: Status)

  datatype Workspace = Workspace(initialized: bool, base: Head, remote: Head, stashes: seq<Stash>)

  const NEW := Workspace(false, EMPTY, EMPTY, [])

  /** Never backwards, and one revision never names two commits. */
  function MonotonicHead(current: Head, incoming: Head): Option<Head> {
    if incoming.revision < current.revision then Some(current)
    else if incoming.revision > current.revision then Some(incoming)
    else if current != incoming then None
    else Some(current)
  }

  /** Moves the base up to the remote head when no local work holds it back. */
  function Advance(w: Workspace): Option<Workspace> {
    if w.stashes != [] then Some(w)
    else match MonotonicHead(w.base, w.remote)
         case None => None
         case Some(h) => Some(w.(base := h))
  }

  /** The first stash from position `i` on that is pending for `candidate`, or `|stashes|`. */
  function FindPending(stashes: seq<Stash>, candidate: Root, i: nat): (k: nat)
    requires i <= |stashes|
    ensures i <= k <= |stashes|
    ensures k < |stashes| ==> stashes[k].status == Pending && stashes[k].candidate == candidate
    ensures forall j | i <= j < k :: !(stashes[j].status == Pending && stashes[j].candidate == candidate)
    decreases |stashes| - i
  {
    if i == |stashes| || (stashes[i].status == Pending && stashes[i].candidate == candidate) then i
    else FindPending(stashes, candidate, i + 1)
  }

  /** The first stash with identity `id`, or `|stashes|`. */
  function FindId(stashes: seq<Stash>, id: Id, i: nat): (k: nat)
    requires i <= |stashes|
    ensures i <= k <= |stashes|
    ensures k < |stashes| ==> stashes[k].id == id
    ensures forall j | i <= j < k :: stashes[j].id != id
    decreases |stashes| - i
  {
    if i == |stashes| || stashes[i].id == id then i else FindId(stashes, id, i + 1)
  }

  function Remove(stashes: seq<Stash>, k: nat): seq<Stash>
    requires k < |stashes|
  {
    stashes[..k] + stashes[k + 1..]
  }

  // ----- The steps -----

  function Pull(w: Workspace, head: Head): Option<Workspace> {
    if !ValidHead(head) then None
    else match MonotonicHead(w.remote, head)
         case None => None
         case Some(remote) => Advance(w.(initialized := true, remote := remote))
  }

  /** Finds or creates the stash for a candidate; `drawn` is a newly drawn identity. */
  function Stage(w: Workspace, candidate: Root, base: Head, changeSet: Text, message: Text, drawn: Id)
    : Option<(Workspace, Stash)>
  {
    var k := FindPending(w.stashes, candidate, 0);
    if !w.initialized || !ValidHead(base) then None
    else if k < |w.stashes| then
      if w.stashes[k].base != base then None else Some((w, w.stashes[k]))
    else
      var stash := Stash(drawn, drawn, candidate, base, changeSet, message, false, Pending);
      Some((w.(stashes := w.stashes + [stash]), stash))
  }

  /** Puts back an exact frozen stash that another durable journal remembers. */
  function RestorePending(w: Workspace, stash: Stash): Option<(Workspace, Stash)> {
    var byId, byCandidate := FindId(w.stashes, stash.id, 0), FindPending(w.stashes, stash.candidate, 0);
    if !w.initialized || !stash.frozen || stash.status != Pending || !ValidHead(stash.base) then None
    else if byCandidate < byId then None
    else if byId < |w.stashes| then
      if w.stashes[byId] == stash then Some((w, stash)) else None
    else Some((w.(stashes := w.stashes + [stash]), stash))
  }

  /** The stash with the request fields a push asks for; an empty field asks for nothing. */
  function Freeze(stash: Stash, changeSet: Text, message: Text): Option<Stash> {
    if stash.frozen then
      if (changeSet != NO_TEXT && changeSet != stash.changeSet) || (message != NO_TEXT && message != stash.message)
        then None
      else Some(stash)
    else Some(stash.(changeSet := if changeSet != NO_TEXT then changeSet else stash.changeSet,
                   message := if message != NO_TEXT then message else stash.message,
                   frozen := true))
  }

  /** The first half of a push: the request becomes durable before anything is sent. */
  function PushFreeze(w: Workspace, candidate: Root, changeSet: Text, message: Text): Option<(Workspace, Stash)> {
    var k := FindPending(w.stashes, candidate, 0);
    if !w.initialized || k == |w.stashes| then None
    else match Freeze(w.stashes[k], changeSet, message)
         case None => None
         case Some(stash) => Some((w.(stashes := w.stashes[k := stash]), stash))
  }

  /** The second half of a push: what the remote answered about stash `id`. */
  function PushSettle(w: Workspace, id: Id, branched: bool, head: Head): Option<Workspace> {
    var k := FindId(w.stashes, id, 0);
    var stashes :=
      if k == |w.stashes| then w.stashes
      else if branched then w.stashes[k := w.stashes[k].(status := Branched)]
      else Remove(w.stashes, k);
    if !ValidHead(head) then None
    else match MonotonicHead(w.remote, head)
         case None => None
         case Some(remote) => Advance(w.(stashes := stashes, remote := remote))
  }

  function ResolveBranched(w: Workspace, id: Id, candidate: Root): Option<Workspace> {
    var k := FindId(w.stashes, id, 0);
    if k == |w.stashes| || w.stashes[k].status != Branched || w.stashes[k].candidate != candidate then None
    else Advance(w.(stashes := Remove(w.stashes, k)))
  }

  // ----- What every step keeps -----

  /** The base never runs ahead of the remote head, is the remote head whenever there is no
      local work, and stashes have distinct identities, one pending per candidate. */
  ghost predicate Valid(w: Workspace) {
    && ValidHead(w.base) && ValidHead(w.remote)
    && w.base.revision <= w.remote.revision
    && (w.base.revision == w.remote.revision ==> w.base == w.remote)
    && (w.stashes == [] ==> w.base == w.remote)
    && (!w.initialized ==> w == NEW)
    && Distinct(w.stashes)
  }

  predicate Distinct(stashes: seq<Stash>) {
    && (forall i, j | 0 <= i < j < |stashes| :: stashes[i].id != stashes[j].id)
    && (forall i, j | 0 <= i < j < |stashes| && stashes[i].status == Pending == stashes[j].status ::
          stashes[i].candidate != stashes[j].candidate)
  }

  predicate Newer(before: Head, after: Head) {
    before.revision < after.revision || before == after
  }

  /** The same work: bound to the same base, and a frozen request stays what it was. */
  predicate SameWork(before: Stash, after: Stash) {
    && after.id == before.id && after.pushId == before.pushId
    && after.candidate == before.candidate && after.base == before.base
    && (before.frozen ==> after.frozen && after.changeSet == before.changeSet && after.message == before.message)
  }

  /** Neither head goes back, and no stash is rebound. */
  ghost predicate Follows(before: Workspace, after: Workspace) {
    && Newer(before.base, after.base) && Newer(before.remote, after.remote)
    && KeepsWork(before.stashes, after.stashes)
  }

  ghost predicate KeepsWork(before: seq<Stash>, after: seq<Stash>) {
    forall i, j | 0 <= i < |before| && 0 <= j < |after| && before[i].id == after[j].id :: SameWork(before[i], after[j])
  }

  datatype Step =
    | DoPull(head: Head)
    | DoStage(candidate: Root, base: Head, changeSet: Text, message: Text, drawn: Id)
    | DoRestore(stash: Stash)
    | DoFreeze(candidate: Root, changeSet: Text, message: Text)
    | DoSettle(id: Id, branched: bool, head: Head)
    | DoResolve(id: Id, candidate: Root)

  /** A failed step writes nothing. */
  function Take(w: Workspace, step: Step): Workspace {
    match step
    case DoPull(head) => var r := Pull(w, head); if r.Some? then r.value else w
    case DoStage(c, b, cs, m, drawn) => var r := Stage(w, c, b, cs, m, drawn); if r.Some? then r.value.0 else w
    case DoRestore(stash) => var r := RestorePending(w, stash); if r.Some? then r.value.0 else w
    case DoFreeze(c, cs, m) => var r := PushFreeze(w, c, cs, m); if r.Some? then r.value.0 else w
    case DoSettle(id, branched, head) => var r := PushSettle(w, id, branched, head); if r.Some? then r.value else w
    case DoResolve(id, c) => var r := ResolveBranched(w, id, c); if r.Some? then r.value else w
  }

  /** A drawn identity is not one in use. */
  predicate FreshFor(w: Workspace, step: Step) {
    step.DoStage? ==> forall i | 0 <= i < |w.stashes| :: w.stashes[i].id != step.drawn
  }

  lemma PullKeeps(w: Workspace, head: Head)
    requires Valid(w) && Pull(w, head).Some?
    ensures Valid(Pull(w, head).value) && Follows(w, Pull(w, head).value)
  {}

  lemma AppendKeeps(w: Workspace, stash: Stash)
    requires Valid(w) && w.initialized
    requires FindId(w.stashes, stash.id, 0) == |w.stashes|
    requires stash.status == Pending ==> FindPending(w.stashes, stash.candidate, 0) == |w.stashes|
    ensures Valid(w.(stashes := w.stashes + [stash])) && Follows(w, w.(stashes := w.stashes + [stash]))
  {}

  lemma FreezeKeeps(w: Workspace, candidate: Root, changeSet: Text, message: Text)
    requires Valid(w) && PushFreeze(w, candidate, changeSet, message).Some?
    ensures Valid(PushFreeze(w, candidate, changeSet, message).value.0)
    ensures Follows(w, PushFreeze(w, candidate, changeSet, message).value.0)
  {}

  predicate Shrunk(before: seq<Stash>, after: seq<Stash>, k: nat)
    requires k <= |before|
  {
    || after == before
    || (k < |before| && after == before[k := before[k].(status := Branched)])
    || (k < |before| && after == Remove(before, k))
  }

  lemma RemovalKeepsWork(before: seq<Stash>, k: nat)
    requires Distinct(before) && k < |before|
    ensures Distinct(Remove(before, k)) && KeepsWork(before, Remove(before, k))
  {
    var after := Remove(before, k);
    assert forall i | 0 <= i < k :: after[i] == before[i];
    assert forall i | k <= i < |after| :: after[i] == before[i + 1];
  }

  lemma BranchingKeepsWork(before: seq<Stash>, k: nat)
    requires Distinct(before) && k < |before|
    ensures var after := before[k := before[k].(status := Branched)]; Distinct(after) && KeepsWork(before, after)
  {}

  /** Losing a stash, or marking it branched, and then catching up keeps everything. */
  lemma ShrinkKeeps(w: Workspace, stashes: seq<Stash>, remote: Head, k: nat)
    requires Valid(w) && w.initialized && ValidHead(remote) && Newer(w.remote, remote)
    requires k <= |w.stashes| && Shrunk(w.stashes, stashes, k)
    ensures Advance(w.(stashes := stashes, remote := remote)).Some?
    ensures Valid(Advance(w.(stashes := stashes, remote := remote)).value)
    ensures Follows(w, Advance(w.(stashes := stashes, remote := remote)).value)
  {
    if k < |w.stashes| {
      RemovalKeepsWork(w.stashes, k);
      BranchingKeepsWork(w.stashes, k);
    }
  }

  lemma SettleKeeps(w: Workspace, id: Id, branched: bool, head: Head)
    requires Valid(w) && w.initialized && PushSettle(w, id, branched, head).Some?
    ensures Valid(PushSettle(w, id, branched, head).value) && Follows(w, PushSettle(w, id, branched, head).value)
  {
    var k := FindId(w.stashes, id, 0);
    var stashes :=
      if k == |w.stashes| then w.stashes
      else if branched then w.stashes[k := w.stashes[k].(status := Branched)]
      else Remove(w.stashes, k);
    assert Shrunk(w.stashes, stashes, k);
    ShrinkKeeps(w, stashes, MonotonicHead(w.remote, head).value, k);
  }

  lemma ResolveKeeps(w: Workspace, id: Id, candidate: Root)
    requires Valid(w) && ResolveBranched(w, id, candidate).Some?
    ensures Valid(ResolveBranched(w, id, candidate).value) && Follows(w, ResolveBranched(w, id, candidate).value)
  {
    var k := FindId(w.stashes, id, 0);
    assert Shrunk(w.stashes, Remove(w.stashes, k), k);
    ShrinkKeeps(w, Remove(w.stashes, k), w.remote, k);
  }

  // ----- What each step achieves -----

  /** The remote does not contradict what is known: it names no other commit at the same revision. */
  predicate Acceptable(known: Head, answer: Head) {
    ValidHead(answer) && (answer.revision == known.revision ==> answer == known)
  }

  /** `after` has the newer of the two heads as its remote, and as its base too unless local
      work holds the base back. */
  predicate CaughtUp(before: Workspace, answer: Head, after: Workspace) {
    && after.remote == (if answer.revision > before.remote.revision then answer else before.remote)
    && after.base == if after.stashes == [] then after.remote else before.base
  }

  lemma AdvanceCatchesUp(w: Workspace, answer: Head, stashes: seq<Stash>)
    requires Valid(w) && Acceptable(w.remote, answer)
    ensures var r := Advance(w.(remote := MonotonicHead(w.remote, answer).value, stashes := stashes));
            && r.Some? && CaughtUp(w, answer, r.value)
            && r.value.stashes == stashes && r.value.initialized == w.initialized
  {}

  /** A pull is refused exactly if the head contradicts what is known; otherwise it records the
      newer head and leaves the stashes alone. */
  lemma PullOutcome(w: Workspace, head: Head)
    requires Valid(w)
    ensures Pull(w, head).Some? <==> Acceptable(w.remote, head)
    ensures Pull(w, head).Some? ==>
              var w' := Pull(w, head).value; w'.initialized && w'.stashes == w.stashes && CaughtUp(w, head, w')
  {}

  /** Staging is refused exactly in a new workspace, on a bad base, or if the candidate is
      pending on another one. A staged candidate is pending on exactly the base asked for, as
      found or as new. */
  lemma StageBinds(w: Workspace, candidate: Root, base: Head, changeSet: Text, message: Text, drawn: Id)
    requires Valid(w)
    ensures Stage(w, candidate, base, changeSet, message, drawn).Some? <==>
              && w.initialized && ValidHead(base)
              && forall s | s in w.stashes && s.candidate == candidate && s.status == Pending :: s.base == base
    ensures Stage(w, candidate, base, changeSet, message, drawn).Some? ==>
              var (w', stash) := Stage(w, candidate, base, changeSet, message, drawn).value;
              && stash in w'.stashes && stash.candidate == candidate && stash.base == base && stash.status == Pending
              && (w' == w ||
                  w' == w.(stashes := w.stashes +
                                      [Stash(drawn, drawn, candidate, base, changeSet, message, false, Pending)]))
              && (w' == w <==> exists s :: s in w.stashes && s.candidate == candidate && s.status == Pending)
  {
    var k := FindPending(w.stashes, candidate, 0);
    assert k < |w.stashes| ==> w.stashes[k] in w.stashes;
    assert |w.stashes + [Stash(drawn, drawn, candidate, base, changeSet, message, false, Pending)]| != |w.stashes|;
  }

  /** What a journal may put back: a frozen pending stash on a valid base that is there as it is,
      or of whose identity and candidate nothing is there. */
  ghost predicate MayRestore(w: Workspace, stash: Stash) {
    && w.initialized && stash.frozen && stash.status == Pending && ValidHead(stash.base)
    && (stash in w.stashes ||
        forall s | s in w.stashes :: s.id != stash.id && !(s.status == Pending && s.candidate == stash.candidate))
  }

  /** Restoring is refused exactly otherwise. It puts the stash there, touches no other, and
      repeating it changes nothing. */
  lemma RestoreIsExact(w: Workspace, stash: Stash)
    requires Valid(w)
    ensures RestorePending(w, stash).Some? <==> MayRestore(w, stash)
    ensures RestorePending(w, stash).Some? ==>
              var w' := RestorePending(w, stash).value.0;
              && RestorePending(w, stash).value.1 == stash
              && w' == (if stash in w.stashes then w else w.(stashes := w.stashes + [stash]))
              && RestorePending(w', stash) == Some((w', stash))
  {
    var k, p := FindId(w.stashes, stash.id, 0), FindPending(w.stashes, stash.candidate, 0);
    assert k < |w.stashes| ==> w.stashes[k] in w.stashes;
    assert p < |w.stashes| ==> w.stashes[p] in w.stashes;
    if RestorePending(w, stash).Some? {
      var w' := RestorePending(w, stash).value.0;
      assert w'.stashes[k] == stash;
      assert FindId(w'.stashes, stash.id, 0) == k;
    }
  }

  /** The request a push of `stash` makes: the fields it asks for, and the stash's own where it
      asks for nothing. */
  predicate Requested(stash: Stash, changeSet: Text, message: Text, after: Stash) {
    && after.frozen && after.changeSet == (if changeSet != NO_TEXT then changeSet else stash.changeSet)
    && after.message == (if message != NO_TEXT then message else stash.message)
    && after == stash.(frozen := true, changeSet := after.changeSet, message := after.message)
  }

  /** Freezing needs a pending stash of the candidate, and a frozen one that already has the
      fields asked for. It answers the push with its own fields, touches no other stash, and the
      same push again is the same request. */
  lemma FreezeAnswers(w: Workspace, candidate: Root, changeSet: Text, message: Text, stash: Stash)
    requires Valid(w) && w.initialized && stash in w.stashes && stash.candidate == candidate && stash.status == Pending
    ensures PushFreeze(w, candidate, changeSet, message).Some? <==>
              (stash.frozen ==> Requested(stash, changeSet, message, stash))
    ensures PushFreeze(w, candidate, changeSet, message).Some? ==>
              var (w', after) := PushFreeze(w, candidate, changeSet, message).value;
              && Requested(stash, changeSet, message, after)
              && (exists k :: 0 <= k < |w.stashes| && w.stashes[k] == stash &&
                              w' == w.(stashes := w.stashes[k := after]))
              && PushFreeze(w', candidate, changeSet, message) == Some((w', after))
  {
    var k := FindPending(w.stashes, candidate, 0);
    assert k < |w.stashes| && w.stashes[k] == stash;
    if PushFreeze(w, candidate, changeSet, message).Some? {
      var (w', after) := PushFreeze(w, candidate, changeSet, message).value;
      assert w'.stashes[k] == after;
      assert FindPending(w'.stashes, candidate, 0) == k;
      assert w'.stashes[k := after] == w'.stashes;
    }
  }

  lemma NothingToFreeze(w: Workspace, candidate: Root, changeSet: Text, message: Text)
    requires !w.initialized || forall s | s in w.stashes :: s.candidate != candidate || s.status != Pending
    ensures PushFreeze(w, candidate, changeSet, message) == None
  {
    var k := FindPending(w.stashes, candidate, 0);
    assert k < |w.stashes| ==> w.stashes[k] in w.stashes;
  }

  /** An answer is refused exactly if its head contradicts what is known. Success takes the stash
      away, a branch keeps it and marks it, other stashes stay as they are, and both catch up. */
  lemma SettleOutcome(w: Workspace, id: Id, branched: bool, head: Head, stash: Stash)
    requires Valid(w)
    ensures PushSettle(w, id, branched, head).Some? <==> Acceptable(w.remote, head)
    ensures PushSettle(w, id, branched, head).Some? ==>
              var w' := PushSettle(w, id, branched, head).value;
              && w'.initialized == w.initialized && CaughtUp(w, head, w')
              && (stash.id != id ==> (stash in w'.stashes <==> stash in w.stashes))
              && (stash.id == id && stash in w'.stashes ==> branched && stash.status == Branched)
              && (stash.id == id && stash in w.stashes && branched ==> stash.(status := Branched) in w'.stashes)
  {
    var k := FindId(w.stashes, id, 0);
    var after :=
      if k == |w.stashes| then w.stashes
      else if branched then w.stashes[k := w.stashes[k].(status := Branched)]
      else Remove(w.stashes, k);
    if Acceptable(w.remote, head) {
      AdvanceCatchesUp(w, head, after);
      assert PushSettle(w, id, branched, head).value.stashes == after;
    }
    if k < |w.stashes| && branched {
      MarkedOne(w.stashes, k, stash);
    } else if k < |w.stashes| {
      RemovedOne(w.stashes, k, stash);
    }
  }

  lemma MarkedOne(stashes: seq<Stash>, k: nat, stash: Stash)
    requires Distinct(stashes) && k < |stashes|
    ensures var after := stashes[k := stashes[k].(status := Branched)];
            && (stash.id != stashes[k].id ==> (stash in after <==> stash in stashes))
            && (stash.id == stashes[k].id && stash in after ==> stash.status == Branched)
            && (stash.id == stashes[k].id && stash in stashes ==> stash.(status := Branched) in after)
  {
    var after := stashes[k := stashes[k].(status := Branched)];
    assert after[k] == stashes[k].(status := Branched);
    assert forall i | 0 <= i < |after| && i != k :: after[i] == stashes[i];
    if stash in stashes {
      var i :| 0 <= i < |stashes| && stashes[i] == stash;
      assert after[i] in after;
    }
  }

  lemma RemovedOne(stashes: seq<Stash>, k: nat, stash: Stash)
    requires Distinct(stashes) && k < |stashes|
    ensures stash in Remove(stashes, k) <==> stash in stashes && stash.id != stashes[k].id
  {
    var after := Remove(stashes, k);
    assert stashes == stashes[..k] + [stashes[k]] + stashes[k + 1..];
    if stash in after {
      var i :| 0 <= i < |after| && after[i] == stash;
      assert stash == stashes[if i < k then i else i + 1];
    }
  }

  /** Resolving needs a branched stash of that identity and candidate, and takes exactly it away. */
  lemma ResolveOutcome(w: Workspace, id: Id, candidate: Root, stash: Stash)
    requires Valid(w)
    ensures ResolveBranched(w, id, candidate).Some? <==>
              exists s :: s in w.stashes && s.id == id && s.status == Branched && s.candidate == candidate
    ensures ResolveBranched(w, id, candidate).Some? ==>
              var w' := ResolveBranched(w, id, candidate).value;
              && w'.initialized == w.initialized && CaughtUp(w, w.remote, w')
              && (stash in w'.stashes <==> stash in w.stashes && stash.id != id)
  {
    var k := FindId(w.stashes, id, 0);
    assert k < |w.stashes| ==> w.stashes[k] in w.stashes;
    if k < |w.stashes| {
      AdvanceCatchesUp(w, w.remote, Remove(w.stashes, k));
      RemovedOne(w.stashes, k, stash);
    }
  }

  /** Every step keeps the workspace valid, moves no head back and rebinds no stash. */
  lemma StepKeeps(w: Workspace, step: Step)
    requires Valid(w) && FreshFor(w, step) && (step.DoSettle? ==> w.initialized)
    ensures Valid(Take(w, step)) && Follows(w, Take(w, step))
  {
    match step
    case DoPull(head) => if Pull(w, head).Some? { PullKeeps(w, head); }
    case DoStage(c, b, cs, m, drawn) =>
      if Stage(w, c, b, cs, m, drawn).Some? && FindPending(w.stashes, c, 0) == |w.stashes| {
        AppendKeeps(w, Stage(w, c, b, cs, m, drawn).value.1);
      }
    case DoRestore(stash) =>
      if RestorePending(w, stash).Some? && FindId(w.stashes, stash.id, 0) == |w.stashes| { AppendKeeps(w, stash); }
    case DoFreeze(c, cs, m) => if PushFreeze(w, c, cs, m).Some? { FreezeKeeps(w, c, cs, m); }
    case DoSettle(id, branched, head) =>
      if PushSettle(w, id, branched, head).Some? { SettleKeeps(w, id, branched, head); }
    case DoResolve(id, c) => if ResolveBranched(w, id, c).Some? { ResolveKeeps(w, id, c); }
  }

  // ----- Whole runs -----

  function Run(w: Workspace, steps: seq<Step>): Workspace
    decreases steps
  {
    if steps == [] then w else Run(Take(w, steps[0]), steps[1..])
  }

  /** Every identity drawn along the run is new, and answers arrive only after a pull. */
  ghost predicate Orderly(w: Workspace, steps: seq<Step>)
    decreases steps
  {
    steps == [] ||
    (FreshFor(w, steps[0]) && (steps[0].DoSettle? ==> w.initialized) && Orderly(Take(w, steps[0]), steps[1..]))
  }

  /** Over any run, with any answers from the remote, the workspace stays valid and neither
      head ever goes back. */
  lemma {:induction false} RunKeeps(w: Workspace, steps: seq<Step>)
    requires Valid(w) && Orderly(w, steps)
    ensures Valid(Run(w, steps))
    ensures Newer(w.base, Run(w, steps).base) && Newer(w.remote, Run(w, steps).remote)
    decreases steps
  {
    if steps != [] {
      StepKeeps(w, steps[0]);
      RunKeeps(Take(w, steps[0]), steps[1..]);
    }
  }

  /** The run takes no identity of `stash` for other work: none drawn, none restored. */
  predicate Respects(step: Step, stash: Stash) {
    && (step.DoStage? ==> step.drawn != stash.id)
    && (step.DoRestore? && step.stash.id == stash.id ==> SameWork(stash, step.stash))
  }

  /** Whatever has the identity of `stash` is the same work. */
  ghost predicate Bound(stashes: seq<Stash>, stash: Stash) {
    forall i | 0 <= i < |stashes| && stashes[i].id == stash.id :: SameWork(stash, stashes[i])
  }

  lemma RemovalKeepsBound(stashes: seq<Stash>, k: nat, stash: Stash)
    requires Bound(stashes, stash) && k < |stashes|
    ensures Bound(Remove(stashes, k), stash)
  {}

  lemma StepKeepsBound(w: Workspace, step: Step, stash: Stash)
    requires Bound(w.stashes, stash) && Respects(step, stash)
    ensures Bound(Take(w, step).stashes, stash)
  {
    match step
    case DoSettle(id, _, _) =>
      var k := FindId(w.stashes, id, 0);
      if k < |w.stashes| { RemovalKeepsBound(w.stashes, k, stash); }
    case DoResolve(id, _) =>
      var k := FindId(w.stashes, id, 0);
      if k < |w.stashes| { RemovalKeepsBound(w.stashes, k, stash); }
    case _ =>
  }

  /** Over every run that does not give its identity to other work, a stash is not rebound, also
      not when it is gone for a while. */
  lemma {:induction false} RunKeepsBound(w: Workspace, steps: seq<Step>, stash: Stash)
    requires Bound(w.stashes, stash) && forall i | 0 <= i < |steps| :: Respects(steps[i], stash)
    ensures Bound(Run(w, steps).stashes, stash)
    decreases steps
  {
    if steps != [] {
      StepKeepsBound(w, steps[0], stash);
      assert forall i | 0 <= i < |steps[1..]| :: steps[1..][i] == steps[i + 1];
      RunKeepsBound(Take(w, steps[0]), steps[1..], stash);
    }
  }

  // ----- The service -----

  class Service {
    var workspace: Workspace

    constructor ()
      ensures workspace == NEW && Valid(workspace)
    {
      workspace := NEW;
    }

    /** Records an observed head, and returns the workspace. */
    method PullHead(head: Head) returns (r: Option<Workspace>)
      modifies this
      ensures r == Pull(old(workspace), head)
      ensures workspace == Take(old(workspace), DoPull(head)) == if r.Some? then r.value else old(workspace)
    {
      if !ValidHead(head) { return None; }
      var next := workspace.(initialized := true);
      var remote := MonotonicHead(next.remote, head);
      if remote.None? { return None; }
      next := next.(remote := remote.value);
      if |next.stashes| == 0 {
        var base := MonotonicHead(next.base, remote.value);
        if base.None? { return None; }
        next := next.(base := base.value);
      }
      workspace := next;
      r := Some(next);
    }

    method StageCandidate(candidate: Root, base: Head, changeSet: Text, message: Text, drawn: Id)
      returns (r: Option<Stash>)
      modifies this
      ensures workspace == Take(old(workspace), DoStage(candidate, base, changeSet, message, drawn))
      ensures Stage(old(workspace), candidate, base, changeSet, message, drawn) ==
              if r.None? then None else Some((workspace, r.value))
      ensures r.None? ==> workspace == old(workspace)
    {
      if !ValidHead(base) || !workspace.initialized { return None; }
      var i := 0;
      while i < |workspace.stashes|
        invariant 0 <= i <= |workspace.stashes| && workspace == old(workspace)
        invariant FindPending(workspace.stashes, candidate, 0) == FindPending(workspace.stashes, candidate, i)
      {
        var existing := workspace.stashes[i];
        if existing.status == Pending && existing.candidate == candidate {
          if existing.base != base { return None; }
          return Some(existing);
        }
        i := i + 1;
      }
      var stash := Stash(drawn, drawn, candidate, base, changeSet, message, false, Pending);
      workspace := workspace.(stashes := workspace.stashes + [stash]);
      r := Some(stash);
    }

    method RestoreStash(stash: Stash) returns (r: Option<Stash>)
      modifies this
      ensures workspace == Take(old(workspace), DoRestore(stash))
      ensures RestorePending(old(workspace), stash) == if r.None? then None else Some((workspace, r.value))
      ensures r.None? ==> workspace == old(workspace)
    {
      if stash.status != Pending || !stash.frozen || !ValidHead(stash.base) || !workspace.initialized { return None; }
      var i := 0;
      while i < |workspace.stashes|
        invariant 0 <= i <= |workspace.stashes| && workspace == old(workspace)
        invariant FindPending(workspace.stashes, stash.candidate, 0) == FindPending(workspace.stashes,
            stash.candidate, i)
        invariant FindId(workspace.stashes, stash.id, 0) == FindId(workspace.stashes, stash.id, i)
      {
        var existing := workspace.stashes[i];
        if existing.id == stash.id {
          if existing != stash { return None; }
          return Some(existing);
        }
        if existing.status == Pending && existing.candidate == stash.candidate { return None; }
        i := i + 1;
      }
      workspace := workspace.(stashes := workspace.stashes + [stash]);
      r := Some(stash);
    }

    method FreezeForPush(candidate: Root, changeSet: Text, message: Text) returns (r: Option<Stash>)
      modifies this
      ensures workspace == Take(old(workspace), DoFreeze(candidate, changeSet, message))
      ensures PushFreeze(old(workspace), candidate, changeSet, message) ==
              if r.None? then None else Some((workspace, r.value))
      ensures r.None? ==> workspace == old(workspace)
    {
      if !workspace.initialized { return None; }
      var i := 0;
      while i < |workspace.stashes|
        invariant 0 <= i <= |workspace.stashes| && workspace == old(workspace)
        invariant FindPending(workspace.stashes, candidate, 0) == FindPending(workspace.stashes, candidate, i)
      {
        var stash := workspace.stashes[i];
        if stash.status == Pending && stash.candidate == candidate {
          if stash.frozen {
            if changeSet != NO_TEXT && changeSet != stash.changeSet { return None; }
            if message != NO_TEXT && message != stash.message { return None; }
          } else {
            if changeSet != NO_TEXT { stash := stash.(changeSet := changeSet); }
            if message != NO_TEXT { stash := stash.(message := message); }
            stash := stash.(frozen := true);
          }
          workspace := workspace.(stashes := workspace.stashes[i := stash]);
          return Some(stash);
        }
        i := i + 1;
      }
      r := None;
    }

    method SettlePush(id: Id, branched: bool, head: Head) returns (r: Option<Workspace>)
      modifies this
      ensures r == PushSettle(old(workspace), id, branched, head)
      ensures workspace == Take(old(workspace), DoSettle(id, branched, head))
      ensures workspace == if r.Some? then r.value else old(workspace)
    {
      var current := workspace;
      var i := 0;
      while i < |current.stashes| && current.stashes[i].id != id
        invariant 0 <= i <= |current.stashes| && current == workspace == old(workspace)
        invariant FindId(current.stashes, id, 0) == FindId(current.stashes, id, i)
      {
        i := i + 1;
      }
      if i < |current.stashes| {
        current := current.(stashes := if branched then current.stashes[i := current.stashes[i].(status := Branched)]
                                       else Remove(current.stashes, i));
      }
      if !ValidHead(head) { return None; }
      var remote := MonotonicHead(current.remote, head);
      if remote.None? { return None; }
      r := Advance(current.(remote := remote.value));
      if r.Some? {
        workspace := r.value;
      }
    }

    method Resolve(id: Id, candidate: Root) returns (r: Option<Workspace>)
      modifies this
      ensures r == ResolveBranched(old(workspace), id, candidate)
      ensures workspace == Take(old(workspace), DoResolve(id, candidate))
      ensures workspace == if r.Some? then r.value else old(workspace)
    {
      var i := 0;
      while i < |workspace.stashes| && workspace.stashes[i].id != id
        invariant 0 <= i <= |workspace.stashes| && workspace == old(workspace)
        invariant FindId(workspace.stashes, id, 0) == FindId(workspace.stashes, id, i)
      {
        i := i + 1;
      }
      if i == |workspace.stashes| { return None; }
      if workspace.stashes[i].status != Branched || workspace.stashes[i].candidate != candidate { return None; }
      r := Advance(workspace.(stashes := Remove(workspace.stashes, i)));
      if r.Some? {
        workspace := r.value;
      }
    }
  }
}
