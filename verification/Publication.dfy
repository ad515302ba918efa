/**
 Publishing a backup snapshot. Two durable files take part: the plan's own journal (the
 pending backup) and the Bucket workspace (its stash). The remote may lose answers, the
 process may crash after any step and retry, and others share the workspace.

 The question is under which identity a snapshot is ever sent.
 */
module Publication {
  import opened Wrappers
  import opened BucketSync

  /** What the remote is asked to apply. */
  datatype Request = Request(pushId: Id, base: Head, candidate: Root, changeSet: Text, message: Text)

  /** A request that was frozen for a push: for which pending snapshot of the plan, if for any,
      and whether it went out. */
  datatype Issued = Issued(request: Request, snapshot: Option<nat>, out: bool)

  /** The plan's journal of a snapshot that has not been published yet. */
  datatype PendingBackup = PendingBackup(
    snapshot: nat, candidate: Root, base: Head, message: Text, staged: Option<(Id, Id)>)

  /** Where the plan's Backup or retry stands; locals that matter are carried along. */
  datatype Control =
    | Idle
    | Matching
    | Restoring
    | Staging
    | Marking(stash: Stash)
    | Freezing
    | Pulling(stash: Stash)
    | Sending(stash: Stash)
    | Settling(stash: Stash)
    | Closing(branched: bool)

  datatype State = State(
    w: Workspace, pending: Option<PendingBackup>, control: Control, issued: seq<Issued>,
    nextId: Id, snapshots: nat)

  const INITIAL := State(NEW, None, Idle, [], 0, 0)

  datatype Action =
    | Backup(candidate: Root, base: Head, message: Text)      // journals a new snapshot
    | Retry
    | Proceed(head: Head, branched: bool)                       // next step; what the remote answers
    | Crash                                                     // also a lost answer
    | Clear                                                     // a conflict was resolved
    | OutPull(head: Head)
    | OutStage(candidate: Root, base: Head, changeSet: Text, message: Text)
    | OutPush(candidate: Root, changeSet: Text, message: Text)  // freezes; may stop there
    | OutSend(i: nat)                                           // sends what it froze
    | OutSettle(id: Id, branched: bool, head: Head)
    | OutResolve(id: Id, candidate: Root)

  function RequestOf(stash: Stash): Request {
    Request(stash.pushId, stash.base, stash.candidate, stash.changeSet, stash.message)
  }

  // ----- Matching the journal with the workspace -----

  datatype Match = Found(stash: Stash) | Missing | Conflict

  predicate Fits(stash: Stash, p: PendingBackup) {
    stash.candidate == p.candidate && stash.base == p.base && stash.message == p.message && stash.changeSet == NO_TEXT
  }

  function FindCandidate(stashes: seq<Stash>, candidate: Root, i: nat): (k: nat)
    requires i <= |stashes|
    ensures i <= k <= |stashes| && (k < |stashes| ==> stashes[k].candidate == candidate)
    decreases |stashes| - i
  {
    if i == |stashes| || stashes[i].candidate == candidate then i else FindCandidate(stashes, candidate, i + 1)
  }

  /** By the frozen identity once there is one, before that by the candidate. */
  function PendingStash(w: Workspace, p: PendingBackup): Match {
    match p.staged
    case Some((id, pushId)) =>
      var k := FindId(w.stashes, id, 0);
      if k == |w.stashes| then Missing
      else if w.stashes[k].pushId != pushId || !Fits(w.stashes[k], p) then Conflict
      else Found(w.stashes[k])
    case None =>
      var k := FindCandidate(w.stashes, p.candidate, 0);
      if k == |w.stashes| then Missing
      else if !Fits(w.stashes[k], p) then Conflict
      else Found(w.stashes[k])
  }

  /** Whether the journal may record `stash` as the identity of the pending snapshot. */
  predicate MayMark(p: PendingBackup, stash: Stash) {
    Fits(stash, p) && (p.staged.Some? ==> p.staged.value == (stash.id, stash.pushId))
  }

  // ----- The plan's steps -----

  function ProceedStep(s: State, head: Head, branched: bool): State {
    if s.pending.None? then s.(control := Idle)
    else
      var p := s.pending.value;
      match s.control
      case Idle => s
      case Matching =>
        (match PendingStash(s.w, p)
         case Conflict => s.(control := Idle)
         case Found(stash) =>
           if !s.w.initialized || stash.status == Branched then s.(control := Idle)
           else s.(control := Marking(stash))
         case Missing =>
           if !s.w.initialized then s.(control := Idle)
           else if p.staged.Some? then s.(control := Restoring)
           else s.(control := Staging))
      case Restoring =>
        if p.staged.None? then s.(control := Idle)
        else
          var stash := Stash(p.staged.value.0, p.staged.value.1, p.candidate, p.base, NO_TEXT, p.message, true,
            Pending);
          var r := RestorePending(s.w, stash);
          if r.None? then s.(control := Idle) else s.(w := r.value.0, control := Marking(r.value.1))
      case Staging =>
        var r := Stage(s.w, p.candidate, p.base, NO_TEXT, p.message, s.nextId);
        if r.None? then s.(control := Idle)
        else s.(w := r.value.0, nextId := s.nextId + 1, control := Marking(r.value.1))
      case Marking(stash) =>
        if !MayMark(p, stash) then s.(control := Idle)
        else s.(pending := Some(p.(staged := Some((stash.id, stash.pushId)))), control := Freezing)
      case Freezing =>
        var r := PushFreeze(s.w, p.candidate, NO_TEXT, p.message);
        if r.None? then s.(control := Idle) else s.(w := r.value.0, control := Pulling(r.value.1))
      case Pulling(stash) =>
        var r := Pull(s.w, head);
        if r.None? then s.(control := Idle) else s.(w := r.value, control := Sending(stash))
      case Sending(stash) =>
        s.(issued := s.issued + [Issued(RequestOf(stash), Some(p.snapshot), true)], control := Settling(stash))
      case Settling(stash) =>
        var r := PushSettle(s.w, stash.id, branched, head);
        if r.None? then s.(control := Idle) else s.(w := r.value, control := Closing(branched))
      case Closing(conflict) =>
        if conflict then s.(control := Idle) else s.(pending := None, control := Idle)
  }

  /** A push by someone else: frozen durably, to be sent after a pull of its own. */
  function OutsidePush(s: State, candidate: Root, changeSet: Text, message: Text): State {
    match PushFreeze(s.w, candidate, changeSet, message)
    case None => s
    case Some((w, stash)) => s.(w := w, issued := s.issued + [Issued(RequestOf(stash), None, false)])
  }

  function Next(s: State, a: Action): State {
    match a
    case Backup(candidate, base, message) =>
      if s.control != Idle || s.pending.Some? then s
      else s.(pending := Some(PendingBackup(s.snapshots, candidate, base, message, None)),
              snapshots := s.snapshots + 1, control := Staging)
    case Retry => if s.control != Idle || s.pending.None? then s else s.(control := Matching)
    case Proceed(head, branched) => ProceedStep(s, head, branched)
    case Crash => s.(control := Idle)
    case Clear => if s.control != Idle then s else s.(pending := None)
    case OutPull(head) => s.(w := Take(s.w, DoPull(head)))
    case OutStage(c, base, cs, m) => s.(w := Take(s.w, DoStage(c, base, cs, m, s.nextId)), nextId := s.nextId + 1)
    case OutPush(c, cs, m) => OutsidePush(s, c, cs, m)
    case OutSend(i) => if i < |s.issued| then s.(issued := s.issued[i := s.issued[i].(out := true)]) else s
    case OutSettle(id, branched, head) =>
      if s.w.initialized then s.(w := Take(s.w, DoSettle(id, branched, head))) else s
    case OutResolve(id, c) => s.(w := Take(s.w, DoResolve(id, c)))
  }

  function Run(s: State, actions: seq<Action>): State
    decreases actions
  {
    if actions == [] then s else Run(Next(s, actions[0]), actions[1..])
  }

  // ----- One push identity, one request -----

  /** The plan has recorded, or is about to record, `id` as the identity of its snapshot. */
  predicate Remembers(s: State, id: Id) {
    && s.pending.Some?
    && (|| (s.pending.value.staged.Some? && s.pending.value.staged.value.0 == id)
        || (s.control.Marking? && Fits(s.control.stash, s.pending.value) && s.control.stash.id == id))
  }

  /** A push that gives a stash the plan remembers other request fields, and is not refused:
      a stash that is frozen already keeps its fields. */
  predicate Deviates(s: State, candidate: Root, changeSet: Text, message: Text) {
    var k := FindPending(s.w.stashes, candidate, 0);
    && s.w.initialized && k < |s.w.stashes| && !s.w.stashes[k].frozen && Remembers(s, s.w.stashes[k].id)
    && (changeSet != NO_TEXT || (message != NO_TEXT && message != s.pending.value.message))
  }

  predicate Conforms(s: State, a: Action) {
    a.OutPush? ==> !Deviates(s, a.candidate, a.changeSet, a.message)
  }

  predicate ConformingRun(s: State, actions: seq<Action>)
    decreases actions
  {
    actions == [] || (Conforms(s, actions[0]) && ConformingRun(Next(s, actions[0]), actions[1..]))
  }

  /** Everything already known under identity `id` is the request `r`. */
  ghost predicate Agrees(s: State, id: Id, r: Request) {
    && (forall i | 0 <= i < |s.issued| && s.issued[i].request.pushId == id :: s.issued[i].request == r)
    && (forall i | 0 <= i < |s.w.stashes| && s.w.stashes[i].id == id :: RequestOf(s.w.stashes[i]) == r)
  }

  ghost predicate FrozenIn(w: Workspace, id: Id) {
    forall i | 0 <= i < |w.stashes| && w.stashes[i].id == id :: w.stashes[i].frozen
  }

  function PendingRequest(p: PendingBackup, id: Id): Request {
    Request(id, p.base, p.candidate, NO_TEXT, p.message)
  }

  ghost predicate IdsInUse(s: State) {
    && (forall i | 0 <= i < |s.w.stashes| :: s.w.stashes[i].pushId == s.w.stashes[i].id < s.nextId)
    && (forall i | 0 <= i < |s.issued| :: s.issued[i].request.pushId < s.nextId)
  }

  /** What was issued under an identity still in the workspace is that frozen stash's request. */
  ghost predicate IssuedIsFrozen(s: State) {
    forall i, j | 0 <= i < |s.w.stashes| && 0 <= j < |s.issued| && s.issued[j].request.pushId == s.w.stashes[i].id ::
      s.w.stashes[i].frozen && s.issued[j].request == RequestOf(s.w.stashes[i])
  }

  ghost predicate OneRequestPerId(s: State) {
    forall i, j | 0 <= i < j < |s.issued| && s.issued[i].request.pushId == s.issued[j].request.pushId ::
      s.issued[i].request == s.issued[j].request
  }

  /** All requests sent under one push identity are the same request. */
  ghost predicate OneRequestPerPush(s: State) {
    forall i, j | 0 <= i < j < |s.issued| && s.issued[i].out && s.issued[j].out &&
                  s.issued[i].request.pushId == s.issued[j].request.pushId ::
      s.issued[i].request == s.issued[j].request
  }

  ghost predicate PendingInv(s: State) {
    s.pending.Some? && s.pending.value.staged.Some? ==>
      var (id, pushId) := s.pending.value.staged.value;
      id == pushId < s.nextId && Agrees(s, id, PendingRequest(s.pending.value, id))
  }

  ghost predicate ControlInv(s: State) {
    && (s.control.Marking? || s.control.Freezing? || s.control.Pulling? || s.control.Sending? || s.control.Settling? ==>
          s.w.initialized)
    && (s.control.Marking? && s.pending.Some? ==>
          var stash := s.control.stash;
          && stash.pushId == stash.id < s.nextId
          && (Fits(stash, s.pending.value) ==> Agrees(s, stash.id, RequestOf(stash))))
    && (s.control.Pulling? || s.control.Sending? ==>
          var stash := s.control.stash;
          && stash.pushId == stash.id < s.nextId
          && Agrees(s, stash.id, RequestOf(stash)) && FrozenIn(s.w, stash.id)
          && (s.pending.Some? && s.pending.value.staged == Some((stash.id, stash.pushId)) ==>
                RequestOf(stash) == PendingRequest(s.pending.value, stash.id)))
  }

  ghost predicate Inv(s: State) {
    && Valid(s.w) && IdsInUse(s) && IssuedIsFrozen(s) && OneRequestPerId(s) && PendingInv(s) && ControlInv(s)
  }

  predicate SameRequest(a: Stash, b: Stash) {
    a.id == b.id && a.frozen == b.frozen && RequestOf(a) == RequestOf(b)
  }

  /** The workspace changed only by losing stashes or by marking them branched. */
  ghost predicate NoNewWork(w: Workspace, w': Workspace) {
    (w.initialized ==> w'.initialized) && ComesFrom(w.stashes, w'.stashes)
  }

  lemma NoNewWorkKeeps(s: State, w': Workspace)
    requires Inv(s) && Valid(w') && NoNewWork(s.w, w')
    ensures Inv(s.(w := w'))
  {}

  lemma PullMakesNoWork(w: Workspace, head: Head)
    requires Pull(w, head).Some?
    ensures NoNewWork(w, Pull(w, head).value)
  {
    var w' := Pull(w, head).value;
    assert forall j | 0 <= j < |w'.stashes| :: SameRequest(w.stashes[j], w'.stashes[j]);
  }

  /** Every stash of `after` is one of `before`, with the same request. */
  ghost predicate ComesFrom(before: seq<Stash>, after: seq<Stash>) {
    forall j | 0 <= j < |after| :: HasOrigin(before, after[j])
  }

  ghost predicate HasOrigin(before: seq<Stash>, stash: Stash) {
    exists i :: 0 <= i < |before| && SameRequest(before[i], stash)
  }

  lemma RemovalComesFrom(stashes: seq<Stash>, k: nat)
    requires k < |stashes|
    ensures ComesFrom(stashes, Remove(stashes, k))
  {
    var after := Remove(stashes, k);
    forall j | 0 <= j < |after| ensures HasOrigin(stashes, after[j]) {
      var i := if j >= k then j + 1 else j;
      assert after[j] == stashes[i];
      assert SameRequest(stashes[i], after[j]);
    }
  }

  lemma BranchingComesFrom(stashes: seq<Stash>, k: nat)
    requires k <= |stashes|
    ensures ComesFrom(stashes, if k == |stashes| then stashes else stashes[k := stashes[k].(status := Branched)])
  {
    var after := if k == |stashes| then stashes else stashes[k := stashes[k].(status := Branched)];
    assert forall j | 0 <= j < |after| :: SameRequest(stashes[j], after[j]);
  }

  lemma SettleMakesNoWork(w: Workspace, id: Id, branched: bool, head: Head)
    requires PushSettle(w, id, branched, head).Some?
    ensures NoNewWork(w, PushSettle(w, id, branched, head).value)
  {
    var k := FindId(w.stashes, id, 0);
    if k < |w.stashes| && !branched {
      RemovalComesFrom(w.stashes, k);
    } else {
      BranchingComesFrom(w.stashes, k);
    }
  }

  lemma ResolveMakesNoWork(w: Workspace, id: Id, candidate: Root)
    requires ResolveBranched(w, id, candidate).Some?
    ensures NoNewWork(w, ResolveBranched(w, id, candidate).value)
  {
    RemovalComesFrom(w.stashes, FindId(w.stashes, id, 0));
  }

  /** A stash joins the workspace: brand new, or put back as the journal remembers it. */
  lemma AppendInv(s: State, stash: Stash)
    requires Inv(s) && s.w.initialized
    requires FindId(s.w.stashes, stash.id, 0) == |s.w.stashes|
    requires stash.status == Pending ==> FindPending(s.w.stashes, stash.candidate, 0) == |s.w.stashes|
    requires stash.pushId == stash.id <= s.nextId
    requires stash.id == s.nextId || (stash.frozen && s.control == Restoring && s.pending.Some? &&
                                      s.pending.value.staged == Some((stash.id, stash.id)) &&
                                      RequestOf(stash) == PendingRequest(s.pending.value, stash.id))
    ensures Inv(s.(w := s.w.(stashes := s.w.stashes + [stash]),
                   nextId := if stash.id == s.nextId then s.nextId + 1 else s.nextId))
  {
    AppendKeeps(s.w, stash);
  }

  /** Drawing an identity without using it. */
  lemma DrawInv(s: State)
    requires Inv(s)
    ensures Inv(s.(nextId := s.nextId + 1))
  {}

  /** `after` is `before` frozen; what was frozen before stays as it is. */
  predicate FreezesTo(before: Stash, after: Stash) {
    && after.frozen && (before.frozen ==> after == before)
    && after.id == before.id && after.pushId == before.pushId && after.candidate == before.candidate
    && after.base == before.base && after.status == before.status
  }

  /** Freezing stash `k` contradicts nothing the plan remembers of it. */
  ghost predicate MayFreeze(s: State, k: nat, stash: Stash) {
    && k < |s.w.stashes| && s.w.initialized && FreezesTo(s.w.stashes[k], stash)
    && (s.pending.Some? && s.pending.value.staged.Some? && s.pending.value.staged.value.0 == stash.id ==>
          RequestOf(stash) == PendingRequest(s.pending.value, stash.id))
    && (s.pending.Some? && s.control.Marking? && Fits(s.control.stash, s.pending.value) &&
        s.control.stash.id == stash.id ==>
          RequestOf(stash) == RequestOf(s.control.stash))
  }

  function WithStash(s: State, k: nat, stash: Stash): State
    requires k < |s.w.stashes|
  {
    s.(w := s.w.(stashes := s.w.stashes[k := stash]))
  }

  lemma FreezeKeepsIssued(s: State, k: nat, stash: Stash)
    requires Inv(s) && MayFreeze(s, k, stash)
    ensures var s' := WithStash(s, k, stash);
            && IdsInUse(s') && IssuedIsFrozen(s') && OneRequestPerId(s')
            && Agrees(s', stash.id, RequestOf(stash)) && FrozenIn(s'.w, stash.id)
  {}

  lemma FreezeKeepsPending(s: State, k: nat, stash: Stash)
    requires Inv(s) && MayFreeze(s, k, stash)
    ensures PendingInv(WithStash(s, k, stash))
  {}

  lemma FreezeKeepsControl(s: State, k: nat, stash: Stash)
    requires Inv(s) && MayFreeze(s, k, stash)
    ensures ControlInv(WithStash(s, k, stash))
  {}

  lemma ConformingFreeze(s: State, k: nat, candidate: Root, changeSet: Text, message: Text)
    requires Inv(s) && k == FindPending(s.w.stashes, candidate, 0) < |s.w.stashes| && s.w.initialized
    requires Freeze(s.w.stashes[k], changeSet, message).Some? && !Deviates(s, candidate, changeSet, message)
    ensures MayFreeze(s, k, Freeze(s.w.stashes[k], changeSet, message).value)
  {}

  /** A push freezes a stash; requests already known by identity do not change. */
  lemma FreezeInv(s: State, candidate: Root, changeSet: Text, message: Text)
    requires Inv(s) && Conforms(s, OutPush(candidate, changeSet, message))
    requires PushFreeze(s.w, candidate, changeSet, message).Some?
    ensures var (w', stash) := PushFreeze(s.w, candidate, changeSet, message).value;
            && Inv(s.(w := w'))
            && stash.pushId == stash.id < s.nextId && stash.frozen
            && Agrees(s.(w := w'), stash.id, RequestOf(stash)) && FrozenIn(w', stash.id)
            && (s.pending.Some? && s.pending.value.staged == Some((stash.id, stash.pushId)) ==>
                  RequestOf(stash) == PendingRequest(s.pending.value, stash.id))
  {
    var k := FindPending(s.w.stashes, candidate, 0);
    var stash := PushFreeze(s.w, candidate, changeSet, message).value.1;
    FreezeKeeps(s.w, candidate, changeSet, message);
    ConformingFreeze(s, k, candidate, changeSet, message);
    FreezeKeepsIssued(s, k, stash);
    FreezeKeepsPending(s, k, stash);
    FreezeKeepsControl(s, k, stash);
  }

  /** The plan, if it holds a copy of this very stash, holds the same request. */
  ghost predicate CopyAgrees(s: State, stash: Stash) {
    && ((s.control.Pulling? || s.control.Sending?) && s.control.stash.id == stash.id ==>
          RequestOf(s.control.stash) == RequestOf(stash))
    && (s.control.Marking? && s.pending.Some? && Fits(s.control.stash, s.pending.value) &&
        s.control.stash.id == stash.id ==>
          RequestOf(s.control.stash) == RequestOf(stash))
  }

  /** Sending under an identity whose every trace agrees. */
  ghost predicate MayIssue(s: State, stash: Stash) {
    && CopyAgrees(s, stash)
    && stash.pushId == stash.id < s.nextId && Agrees(s, stash.id, RequestOf(stash)) && FrozenIn(s.w, stash.id)
    && (s.pending.Some? && s.pending.value.staged == Some((stash.id, stash.pushId)) ==>
          RequestOf(stash) == PendingRequest(s.pending.value, stash.id))
  }

  function AfterIssue(s: State, stash: Stash, snapshot: Option<nat>, out: bool): State {
    s.(issued := s.issued + [Issued(RequestOf(stash), snapshot, out)])
  }

  lemma IssueKeepsAgreement(s: State, stash: Stash, snapshot: Option<nat>, out: bool, id: Id, r: Request)
    requires Agrees(s, id, r) && (id == stash.pushId ==> r == RequestOf(stash))
    ensures Agrees(AfterIssue(s, stash, snapshot, out), id, r)
  {}

  lemma IssueKeepsRequests(s: State, stash: Stash, snapshot: Option<nat>, out: bool)
    requires Inv(s) && MayIssue(s, stash)
    ensures IdsInUse(AfterIssue(s, stash, snapshot, out)) && IssuedIsFrozen(AfterIssue(s, stash, snapshot, out))
    ensures OneRequestPerId(AfterIssue(s, stash, snapshot, out))
  {}

  lemma IssueInv(s: State, stash: Stash, snapshot: Option<nat>, out: bool)
    requires Inv(s) && MayIssue(s, stash)
    ensures Inv(AfterIssue(s, stash, snapshot, out))
  {
    IssueKeepsRequests(s, stash, snapshot, out);
    if s.pending.Some? && s.pending.value.staged.Some? {
      var staged := s.pending.value.staged.value;
      assert staged.0 == stash.id ==> staged == (stash.id, stash.pushId);
      IssueKeepsAgreement(s, stash, snapshot, out, staged.0, PendingRequest(s.pending.value, staged.0));
    }
    if s.control.Pulling? || s.control.Sending? ||
       (s.control.Marking? && s.pending.Some? && Fits(s.control.stash, s.pending.value)) {
      IssueKeepsAgreement(s, stash, snapshot, out, s.control.stash.id, RequestOf(s.control.stash));
    }
  }

  /** Moving to a point of control that holds no stash. */
  lemma GoInv(s: State, c: Control)
    requires Inv(s) && !c.Marking? && !c.Pulling? && !c.Sending?
    requires c.Freezing? || c.Settling? ==> s.w.initialized
    ensures Inv(s.(control := c))
  {}

  lemma DropPendingInv(s: State)
    requires Inv(s)
    ensures Inv(s.(pending := None, control := Idle))
  {}

  lemma NewPendingInv(s: State, p: PendingBackup)
    requires Inv(s) && s.control == Idle && p.staged == None
    ensures Inv(s.(pending := Some(p), snapshots := s.snapshots + 1, control := Staging))
  {}

  lemma OutsidePushInv(s: State, candidate: Root, changeSet: Text, message: Text)
    requires Inv(s) && Conforms(s, OutPush(candidate, changeSet, message))
    ensures Inv(OutsidePush(s, candidate, changeSet, message))
  {
    if PushFreeze(s.w, candidate, changeSet, message).Some? {
      var (w', stash) := PushFreeze(s.w, candidate, changeSet, message).value;
      FreezeInv(s, candidate, changeSet, message);
      var k := FindPending(s.w.stashes, candidate, 0);
      assert w'.stashes[k] == stash;
      IssueInv(s.(w := w'), stash, None, false);
    }
  }

  lemma MarkInv(s: State)
    requires Inv(s) && s.control.Marking? && s.pending.Some?
    ensures Inv(ProceedStep(s, EMPTY, false))
  {}

  /** A stash in the workspace agrees with everything known under its identity. */
  lemma StashAgrees(s: State, stash: Stash)
    requires Inv(s) && stash in s.w.stashes
    ensures Agrees(s, stash.id, RequestOf(stash)) && stash.pushId == stash.id < s.nextId
  {}

  lemma HoldInv(s: State, stash: Stash)
    requires Inv(s) && stash in s.w.stashes && s.w.initialized
    ensures Inv(s.(control := Marking(stash)))
  {
    StashAgrees(s, stash);
  }

  lemma MatchInv(s: State)
    requires Inv(s) && s.control.Matching? && s.pending.Some?
    ensures Inv(ProceedStep(s, EMPTY, false))
  {
    var m := PendingStash(s.w, s.pending.value);
    var c := ProceedStep(s, EMPTY, false).control;
    if m.Found? && s.w.initialized && m.stash.status == Pending {
      HoldInv(s, m.stash);
    } else {
      GoInv(s, c);
    }
    assert ProceedStep(s, EMPTY, false) == s.(control := c);
  }

  lemma RestoreInv(s: State)
    requires Inv(s) && s.control.Restoring? && s.pending.Some?
    ensures Inv(ProceedStep(s, EMPTY, false))
  {
    var p := s.pending.value;
    if p.staged.Some? {
      var stash := Stash(p.staged.value.0, p.staged.value.1, p.candidate, p.base, NO_TEXT, p.message, true, Pending);
      if RestorePending(s.w, stash).Some? {
        var s' := s.(w := RestorePending(s.w, stash).value.0);
        if FindId(s.w.stashes, stash.id, 0) == |s.w.stashes| {
          AppendInv(s, stash);
        }
        assert stash in s'.w.stashes;
        HoldInv(s', stash);
      }
    }
  }

  lemma StagedInv(s: State, r: (Workspace, Stash))
    requires Inv(s) && s.pending.Some?
    requires var p := s.pending.value; Stage(s.w, p.candidate, p.base, NO_TEXT, p.message, s.nextId) == Some(r)
    ensures Inv(s.(w := r.0, nextId := s.nextId + 1)) && r.1 in r.0.stashes && r.0.initialized
  {
    if FindPending(s.w.stashes, s.pending.value.candidate, 0) == |s.w.stashes| {
      AppendInv(s, r.1);
    } else {
      DrawInv(s);
    }
  }

  lemma StageInv(s: State)
    requires Inv(s) && s.control.Staging? && s.pending.Some?
    ensures Inv(ProceedStep(s, EMPTY, false))
  {
    var p := s.pending.value;
    var r := Stage(s.w, p.candidate, p.base, NO_TEXT, p.message, s.nextId);
    if r.Some? {
      StagedInv(s, r.value);
      HoldInv(s.(w := r.value.0, nextId := s.nextId + 1), r.value.1);
    } else {
      GoInv(s, Idle);
    }
  }

  lemma PlanFreezeInv(s: State)
    requires Inv(s) && s.pending.Some? && s.control.Freezing?
    ensures Inv(ProceedStep(s, EMPTY, false))
  {
    var p := s.pending.value;
    if PushFreeze(s.w, p.candidate, NO_TEXT, p.message).Some? {
      FreezeInv(s, p.candidate, NO_TEXT, p.message);
    }
  }

  lemma PlanPullInv(s: State, head: Head)
    requires Inv(s) && s.pending.Some? && s.control.Pulling?
    ensures Inv(ProceedStep(s, head, false))
  {
    if Pull(s.w, head).Some? {
      PullInv(s, head);
    }
  }

  lemma PlanSendInv(s: State)
    requires Inv(s) && s.pending.Some? && s.control.Sending?
    ensures Inv(ProceedStep(s, EMPTY, false))
  {
    IssueInv(s.(control := Settling(s.control.stash)), s.control.stash, Some(s.pending.value.snapshot), true);
  }

  lemma PlanSettleInv(s: State, head: Head, branched: bool)
    requires Inv(s) && s.pending.Some? && s.control.Settling?
    ensures Inv(ProceedStep(s, head, branched))
  {
    var r := PushSettle(s.w, s.control.stash.id, branched, head);
    if r.Some? {
      SettleInv(s, s.control.stash.id, branched, head);
      GoInv(s.(w := r.value), Closing(branched));
      assert ProceedStep(s, head, branched) == s.(w := r.value).(control := Closing(branched));
    } else {
      GoInv(s, Idle);
    }
  }

  lemma PlanCloseInv(s: State, head: Head, branched: bool)
    requires Inv(s) && s.pending.Some? && s.control.Closing?
    ensures Inv(ProceedStep(s, head, branched))
  {
    GoInv(s, Idle);
    DropPendingInv(s);
  }

  lemma PullInv(s: State, head: Head)
    requires Inv(s) && Pull(s.w, head).Some?
    ensures Inv(s.(w := Pull(s.w, head).value))
  {
    PullKeeps(s.w, head);
    PullMakesNoWork(s.w, head);
    NoNewWorkKeeps(s, Pull(s.w, head).value);
  }

  lemma SettleInv(s: State, id: Id, branched: bool, head: Head)
    requires Inv(s) && s.w.initialized && PushSettle(s.w, id, branched, head).Some?
    ensures Inv(s.(w := PushSettle(s.w, id, branched, head).value))
  {
    SettleKeeps(s.w, id, branched, head);
    SettleMakesNoWork(s.w, id, branched, head);
    NoNewWorkKeeps(s, PushSettle(s.w, id, branched, head).value);
  }

  lemma ResolveInv(s: State, id: Id, candidate: Root)
    requires Inv(s) && ResolveBranched(s.w, id, candidate).Some?
    ensures Inv(s.(w := ResolveBranched(s.w, id, candidate).value))
  {
    ResolveKeeps(s.w, id, candidate);
    ResolveMakesNoWork(s.w, id, candidate);
    NoNewWorkKeeps(s, ResolveBranched(s.w, id, candidate).value);
  }

  lemma ProceedInv(s: State, head: Head, branched: bool)
    requires Inv(s)
    ensures Inv(ProceedStep(s, head, branched))
  {
    if s.pending.Some? {
      match s.control
      case Idle =>
      case Matching => MatchInv(s);
      case Restoring => RestoreInv(s);
      case Staging => StageInv(s);
      case Marking(_) => MarkInv(s);
      case Freezing => PlanFreezeInv(s);
      case Pulling(_) => PlanPullInv(s, head);
      case Sending(_) => PlanSendInv(s);
      case Settling(_) => PlanSettleInv(s, head, branched);
      case Closing(_) => PlanCloseInv(s, head, branched);
    } else {
      GoInv(s, Idle);
    }
  }

  lemma OutStageInv(s: State, candidate: Root, base: Head, changeSet: Text, message: Text)
    requires Inv(s)
    ensures Inv(Next(s, OutStage(candidate, base, changeSet, message)))
  {
    var r := Stage(s.w, candidate, base, changeSet, message, s.nextId);
    if r.Some? && FindPending(s.w.stashes, candidate, 0) == |s.w.stashes| {
      AppendInv(s, r.value.1);
    } else {
      DrawInv(s);
    }
  }

  lemma OutSendInv(s: State, i: nat)
    requires Inv(s)
    ensures Inv(Next(s, OutSend(i)))
  {
    assert forall j | 0 <= j < |s.issued| :: Next(s, OutSend(i)).issued[j].request == s.issued[j].request;
  }

  predicate Outside(a: Action) {
    a.OutPull? || a.OutStage? || a.OutPush? || a.OutSend? || a.OutSettle? || a.OutResolve?
  }

  lemma OutsideInv(s: State, a: Action)
    requires Inv(s) && Conforms(s, a) && Outside(a)
    ensures Inv(Next(s, a))
  {
    match a
    case OutPull(head) => if Pull(s.w, head).Some? { PullInv(s, head); }
    case OutStage(c, b, cs, m) => OutStageInv(s, c, b, cs, m);
    case OutPush(c, cs, m) => OutsidePushInv(s, c, cs, m);
    case OutSend(i) => OutSendInv(s, i);
    case OutSettle(id, branched, head) =>
      if s.w.initialized && PushSettle(s.w, id, branched, head).Some? { SettleInv(s, id, branched, head); }
    case OutResolve(id, c) => if ResolveBranched(s.w, id, c).Some? { ResolveInv(s, id, c); }
  }

  lemma NextInv(s: State, a: Action)
    requires Inv(s) && Conforms(s, a)
    ensures Inv(Next(s, a))
  {
    match a
    case Proceed(head, branched) => ProceedInv(s, head, branched);
    case Backup(candidate, base, message) =>
      if s.control == Idle {
        NewPendingInv(s, PendingBackup(s.snapshots, candidate, base, message, None));
      }
    case Retry => GoInv(s, Matching);
    case Crash => GoInv(s, Idle);
    case Clear => DropPendingInv(s);
    case _ => OutsideInv(s, a);
  }

  lemma {:induction false} RunInv(s: State, actions: seq<Action>)
    requires Inv(s) && ConformingRun(s, actions)
    ensures Inv(Run(s, actions))
    decreases actions
  {
    if actions != [] {
      NextInv(s, actions[0]);
      RunInv(Next(s, actions[0]), actions[1..]);
    }
  }

  /**
   In every run of backups and retries, with crashes, lost answers and others using the same
   workspace without deviating, a push identity is only ever sent with one request.
   */
  lemma PushIsFrozen(actions: seq<Action>)
    requires ConformingRun(INITIAL, actions)
    ensures OneRequestPerPush(Run(INITIAL, actions))
  {
    RunInv(INITIAL, actions);
  }

  // ----- What the journal records can be restored -----

  ghost predicate ValidBases(stashes: seq<Stash>) {
    forall i | 0 <= i < |stashes| :: ValidHead(stashes[i].base)
  }

  ghost predicate JournalInv(s: State) {
    && ValidBases(s.w.stashes)
    && (s.pending.Some? && s.pending.value.staged.Some? ==> ValidHead(s.pending.value.base))
    && (s.control.Staging? && s.pending.Some? ==> s.pending.value.staged == None)
    && (s.control.Freezing? && s.pending.Some? ==> s.pending.value.staged.Some?)
    && (s.control.Marking? ==> ValidHead(s.control.stash.base))
    && (s.control.Marking? && s.pending.Some? && s.pending.value.staged.Some? ==>
          s.pending.value.staged.value == (s.control.stash.id, s.control.stash.pushId))
  }

  lemma RemovalKeepsBases(stashes: seq<Stash>, k: nat)
    requires ValidBases(stashes) && k < |stashes|
    ensures ValidBases(Remove(stashes, k))
  {}

  lemma SettleKeepsBases(w: Workspace, id: Id, branched: bool, head: Head)
    requires ValidBases(w.stashes) && PushSettle(w, id, branched, head).Some?
    ensures ValidBases(PushSettle(w, id, branched, head).value.stashes)
  {
    var k := FindId(w.stashes, id, 0);
    if k < |w.stashes| {
      RemovalKeepsBases(w.stashes, k);
    }
  }

  lemma ResolveKeepsBases(w: Workspace, id: Id, candidate: Root)
    requires ValidBases(w.stashes) && ResolveBranched(w, id, candidate).Some?
    ensures ValidBases(ResolveBranched(w, id, candidate).value.stashes)
  {
    RemovalKeepsBases(w.stashes, FindId(w.stashes, id, 0));
  }

  lemma OutsideBases(s: State, a: Action)
    requires ValidBases(s.w.stashes) && Outside(a)
    ensures ValidBases(Next(s, a).w.stashes)
  {
    match a
    case OutSettle(id, branched, head) =>
      if s.w.initialized && PushSettle(s.w, id, branched, head).Some? { SettleKeepsBases(s.w, id, branched, head); }
    case OutResolve(id, c) => if ResolveBranched(s.w, id, c).Some? { ResolveKeepsBases(s.w, id, c); }
    case _ =>
  }

  lemma UnsettledBases(s: State, head: Head, branched: bool)
    requires ValidBases(s.w.stashes) && !s.control.Settling?
    ensures ValidBases(ProceedStep(s, head, branched).w.stashes)
  {}

  lemma ProceedBases(s: State, head: Head, branched: bool)
    requires ValidBases(s.w.stashes)
    ensures ValidBases(ProceedStep(s, head, branched).w.stashes)
  {
    if !s.control.Settling? {
      UnsettledBases(s, head, branched);
    } else if PushSettle(s.w, s.control.stash.id, branched, head).Some? {
      SettleKeepsBases(s.w, s.control.stash.id, branched, head);
    }
  }

  lemma ProceedJournalInv(s: State, head: Head, branched: bool)
    requires JournalInv(s)
    ensures JournalInv(ProceedStep(s, head, branched))
  {
    ProceedBases(s, head, branched);
  }

  lemma NextJournalInv(s: State, a: Action)
    requires JournalInv(s)
    ensures JournalInv(Next(s, a))
  {
    if a.Proceed? {
      ProceedJournalInv(s, a.head, a.branched);
    } else if Outside(a) {
      OutsideBases(s, a);
    }
  }

  lemma {:induction false} RunJournalInv(s: State, actions: seq<Action>)
    requires JournalInv(s)
    ensures JournalInv(Run(s, actions))
    decreases actions
  {
    if actions != [] {
      NextJournalInv(s, actions[0]);
      RunJournalInv(Next(s, actions[0]), actions[1..]);
    }
  }

  // ----- A retry sends what the journal records -----

  function Proceeds(n: nat): (actions: seq<Action>)
    ensures forall a | a in actions :: a.Proceed?
  {
    if n == 0 then [] else [Proceed(EMPTY, false)] + Proceeds(n - 1)
  }

  /** The plan retries: it puts its stash back and sends again. */
  function Retried(): seq<Action> {
    [Retry] + Proceeds(6)
  }

  lemma RunFirst(s: State, a: Action, rest: seq<Action>)
    ensures Run(s, [a] + rest) == Run(Next(s, a), rest)
  {
    assert ([a] + rest)[1..] == rest;
  }

  lemma RunStep(s: State, actions: seq<Action>)
    requires actions != []
    ensures Run(s, actions) == Run(Next(s, actions[0]), actions[1..])
  {}

  lemma RunProceed(s: State, n: nat)
    requires n > 0
    ensures Run(s, Proceeds(n)) == Run(Next(s, Proceed(EMPTY, false)), Proceeds(n - 1))
  {
    RunFirst(s, Proceed(EMPTY, false), Proceeds(n - 1));
  }

  lemma {:induction false} RunAppend(s: State, first: seq<Action>, second: seq<Action>)
    ensures Run(s, first + second) == Run(Run(s, first), second)
    decreases first
  {
    if first == [] {
      assert first + second == second;
    } else {
      RunAppend(Next(s, first[0]), first[1..], second);
      assert (first + second)[1..] == first[1..] + second;
    }
  }

  function JournaledStash(p: PendingBackup, id: Id): Stash {
    Stash(id, id, p.candidate, p.base, NO_TEXT, p.message, true, Pending)
  }

  function WithNew(w: Workspace, stash: Stash): Workspace {
    w.(stashes := w.stashes + [stash])
  }

  /** The journaled stash is gone, and nothing else is pending for its candidate. */
  ghost predicate Restorable(s: State, p: PendingBackup, id: Id) {
    && Valid(s.w) && s.w.initialized && ValidHead(p.base)
    && s.pending == Some(p) && p.staged == Some((id, id))
    && FindId(s.w.stashes, id, 0) == |s.w.stashes| == FindPending(s.w.stashes, p.candidate, 0)
  }

  lemma RetryRestores(s: State, p: PendingBackup, id: Id)
    requires Restorable(s, p, id) && s.control == Idle
    ensures var r, stash := Proceed(EMPTY, false), JournaledStash(p, id);
            Next(Next(Next(s, Retry), r), r) == s.(w := WithNew(s.w, stash), control := Marking(stash))
  {
    var r := Proceed(EMPTY, false);
    assert Next(Next(s, Retry), r) == s.(control := Restoring);
  }

  /** A pull of what is no news changes nothing while there is local work. */
  lemma IdlePull(w: Workspace)
    requires Valid(w) && w.initialized && w.stashes != []
    ensures Pull(w, EMPTY) == Some(w)
  {}

  lemma AppendedIsFound(stashes: seq<Stash>, stash: Stash)
    requires FindPending(stashes, stash.candidate, 0) == |stashes| && stash.status == Pending
    ensures FindPending(stashes + [stash], stash.candidate, 0) == |stashes|
  {
    assert (stashes + [stash])[|stashes|] == stash;
  }

  lemma MarkedFreezes(s: State, p: PendingBackup, id: Id)
    requires Restorable(s, p, id)
    ensures var r, stash := Proceed(EMPTY, false), JournaledStash(p, id);
            Next(Next(s.(w := WithNew(s.w, stash), control := Marking(stash)), r), r) ==
            s.(w := WithNew(s.w, stash), control := Pulling(stash))
  {
    var r, stash := Proceed(EMPTY, false), JournaledStash(p, id);
    var marking := s.(w := WithNew(s.w, stash), control := Marking(stash));
    var stashes := marking.w.stashes;
    assert Next(marking, r) == marking.(control := Freezing);
    AppendedIsFound(s.w.stashes, stash);
    assert stashes[|s.w.stashes| := stash] == stashes;
  }

  lemma FrozenIsSent(s: State, stash: Stash)
    requires Valid(s.w) && s.w.initialized && s.w.stashes != [] && s.pending.Some? && s.control == Pulling(stash)
    ensures var r := Proceed(EMPTY, false);
            Next(Next(s, r), r) ==
            s.(control := Settling(stash),
               issued := s.issued + [Issued(RequestOf(stash), Some(s.pending.value.snapshot), true)])
  {
    IdlePull(s.w);
    assert Next(s, Proceed(EMPTY, false)) == s.(control := Sending(stash));
  }

  lemma FourSteps(s: State)
    ensures var r := Proceed(EMPTY, false); Run(s, Proceeds(4)) == Next(Next(Next(Next(s, r), r), r), r)
  {
    var r := Proceed(EMPTY, false);
    RunProceed(s, 4);
    RunProceed(Next(s, r), 3);
    RunProceed(Next(Next(s, r), r), 2);
    RunProceed(Next(Next(Next(s, r), r), r), 1);
    assert Proceeds(0) == [];
  }

  lemma RetrySends(s: State, p: PendingBackup, id: Id)
    requires Restorable(s, p, id) && s.control == Idle
    ensures Run(s, Retried()).issued == s.issued + [Issued(PendingRequest(p, id), Some(p.snapshot), true)]
  {
    var r, stash := Proceed(EMPTY, false), JournaledStash(p, id);
    RetryRestores(s, p, id);
    RunFirst(s, Retry, Proceeds(6));
    RunProceed(Next(s, Retry), 6);
    RunProceed(Next(Next(s, Retry), r), 5);
    var marking := s.(w := WithNew(s.w, stash), control := Marking(stash));
    MarkedFreezes(s, p, id);
    AppendKeeps(s.w, stash);
    FrozenIsSent(s.(w := WithNew(s.w, stash), control := Pulling(stash)), stash);
    FourSteps(marking);
  }

  // ----- When an outsider deviates -----

  /** The plan records the identity it is about to record, if it has not yet. */
  function Recording(s: State): seq<Action> {
    if s.pending.Some? && s.pending.value.staged.None? then Proceeds(1) else []
  }

  /** The plan is interrupted; push `i`, for the stash `id`, is sent and goes through. */
  function Answered(i: nat, id: Id): seq<Action> {
    [Crash, OutSend(i), OutSettle(id, false, EMPTY)]
  }

  /** The plan has recorded `id`, and push `i` of someone has frozen another request under it. */
  ghost predicate Deviated(s: State, p: PendingBackup, k: nat, i: nat) {
    && Valid(s.w) && s.w.initialized && ValidHead(p.base) && k < |s.w.stashes| && i + 1 == |s.issued|
    && s.pending == Some(p) && s.w.stashes[k].candidate == p.candidate && s.w.stashes[k].status == Pending
    && var id := s.w.stashes[k].id;
       && p.staged == Some((id, id)) && s.issued[i].request.pushId == id
       && s.issued[i].request != PendingRequest(p, id)
  }

  lemma DeviatingFreeze(s: State, candidate: Root, changeSet: Text, message: Text)
    requires Inv(s) && Deviates(s, candidate, changeSet, message)
    ensures var k := FindPending(s.w.stashes, candidate, 0);
            var stash := s.w.stashes[k];
            && RequestOf(stash) == PendingRequest(s.pending.value, stash.id)
            && Freeze(stash, changeSet, message).Some?
            && RequestOf(Freeze(stash, changeSet, message).value) != PendingRequest(s.pending.value, stash.id)
  {}

  lemma DeviationIsRecorded(s: State, candidate: Root, changeSet: Text, message: Text)
    requires Inv(s) && JournalInv(s) && Deviates(s, candidate, changeSet, message)
    ensures var s' := Run(OutsidePush(s, candidate, changeSet, message), Recording(s));
            s'.pending.Some? && Deviated(s', s'.pending.value, FindPending(s.w.stashes, candidate, 0), |s.issued|)
  {
    var k := FindPending(s.w.stashes, candidate, 0);
    DeviatingFreeze(s, candidate, changeSet, message);
    FreezeKeeps(s.w, candidate, changeSet, message);
    var s1 := OutsidePush(s, candidate, changeSet, message);
    if s.pending.value.staged.None? {
      RunProceed(s1, 1);
    }
  }

  /** Once the stash `k` is settled, nothing has its identity or is pending for its candidate. */
  lemma SettledIsGone(w: Workspace, k: nat)
    requires Valid(w) && w.initialized && k < |w.stashes| && w.stashes[k].status == Pending
    ensures var r := PushSettle(w, w.stashes[k].id, false, EMPTY);
            && r.Some? && Valid(r.value) && r.value.initialized && r.value.stashes == Remove(w.stashes, k)
            && FindId(r.value.stashes, w.stashes[k].id, 0) == |r.value.stashes|
            && FindPending(r.value.stashes, w.stashes[k].candidate, 0) == |r.value.stashes|
  {
    var id, rest := w.stashes[k].id, Remove(w.stashes, k);
    assert FindId(w.stashes, id, 0) == k;
    SettleKeeps(w, id, false, EMPTY);
    assert forall j | 0 <= j < |rest| :: rest[j] == w.stashes[if j < k then j else j + 1];
  }

  lemma ThreeSteps(s: State, a: Action, b: Action, c: Action)
    ensures Run(s, [a, b, c]) == Next(Next(Next(s, a), b), c)
  {
    RunStep(s, [a, b, c]);
    RunStep(Next(s, a), [b, c]);
    RunStep(Next(Next(s, a), b), [c]);
    assert [a, b, c][1..] == [b, c] && [b, c][1..] == [c] && [c][1..] == [];
  }

  lemma AnsweredRun(s: State, i: nat, id: Id)
    requires i < |s.issued| && s.w.initialized && PushSettle(s.w, id, false, EMPTY).Some?
    ensures Run(s, Answered(i, id)) ==
            s.(control := Idle, issued := s.issued[i := s.issued[i].(out := true)],
               w := PushSettle(s.w, id, false, EMPTY).value)
  {
    ThreeSteps(s, Crash, OutSend(i), OutSettle(id, false, EMPTY));
    var idle := s.(control := Idle);
    assert Next(s, Crash) == idle;
    var sent := idle.(issued := s.issued[i := s.issued[i].(out := true)]);
    assert Next(idle, OutSend(i)) == sent;
    assert Next(sent, OutSettle(id, false, EMPTY)) == sent.(w := PushSettle(s.w, id, false, EMPTY).value);
  }

  lemma DeviationIsAnswered(s: State, p: PendingBackup, k: nat, i: nat)
    requires Deviated(s, p, k, i)
    ensures var id := s.w.stashes[k].id;
            var s' := Run(s, Answered(i, id));
            && s'.control == Idle && Restorable(s', p, id)
            && s'.issued == s.issued[i := s.issued[i].(out := true)]
  {
    SettledIsGone(s.w, k);
    AnsweredRun(s, i, s.w.stashes[k].id);
  }

  /** From there the plan's retry sends the recorded request under the same identity. */
  lemma DeviationIsSentTwice(s: State, p: PendingBackup, k: nat, i: nat)
    requires Deviated(s, p, k, i)
    ensures !OneRequestPerPush(Run(s, Answered(i, s.w.stashes[k].id) + Retried()))
  {
    var id := s.w.stashes[k].id;
    DeviationIsAnswered(s, p, k, i);
    var s' := Run(s, Answered(i, id));
    RetrySends(s', p, id);
    RunAppend(s, Answered(i, id), Retried());
    var end := Run(s', Retried());
    assert end.issued[i] == s.issued[i].(out := true) && end.issued[i + 1].request == PendingRequest(p, id);
  }

  lemma {:induction false} ConformAppend(s: State, first: seq<Action>, second: seq<Action>)
    requires ConformingRun(s, first) && ConformingRun(Run(s, first), second)
    ensures ConformingRun(s, first + second)
    decreases first
  {
    if first == [] {
      assert first + second == second;
    } else {
      ConformAppend(Next(s, first[0]), first[1..], second);
      assert (first + second)[1..] == first[1..] + second;
    }
  }

  lemma {:induction false} NoPushConforms(s: State, actions: seq<Action>)
    requires forall a | a in actions :: !a.OutPush?
    ensures ConformingRun(s, actions)
    decreases actions
  {
    if actions != [] {
      NoPushConforms(Next(s, actions[0]), actions[1..]);
    }
  }

  /**
   The condition cannot be dropped: from every reachable state, a push that deviates can be
   followed by steps in which no one deviates and one push identity goes out with two requests.
   */
  lemma DeviationBreaksThePush(s: State, candidate: Root, changeSet: Text, message: Text)
    returns (rest: seq<Action>)
    requires Inv(s) && JournalInv(s) && Deviates(s, candidate, changeSet, message)
    ensures ConformingRun(Next(s, OutPush(candidate, changeSet, message)), rest)
    ensures !OneRequestPerPush(Run(Next(s, OutPush(candidate, changeSet, message)), rest))
  {
    var k := FindPending(s.w.stashes, candidate, 0);
    var s1 := OutsidePush(s, candidate, changeSet, message);
    var s2 := Run(s1, Recording(s));
    DeviationIsRecorded(s, candidate, changeSet, message);
    DeviationIsSentTwice(s2, s2.pending.value, k, |s.issued|);
    var after := Answered(|s.issued|, s2.w.stashes[k].id) + Retried();
    rest := Recording(s) + after;
    RunAppend(s1, Recording(s), after);
    NoPushConforms(s1, rest);
  }

  /** Over whole runs: the first push that deviates can break the law. */
  lemma DeviatingRunBreaksThePush(history: seq<Action>, candidate: Root, changeSet: Text, message: Text)
    returns (rest: seq<Action>)
    requires ConformingRun(INITIAL, history) && Deviates(Run(INITIAL, history), candidate, changeSet, message)
    ensures !OneRequestPerPush(Run(INITIAL, history + ([OutPush(candidate, changeSet, message)] + rest)))
  {
    var push := OutPush(candidate, changeSet, message);
    RunInv(INITIAL, history);
    RunJournalInv(INITIAL, history);
    rest := DeviationBreaksThePush(Run(INITIAL, history), candidate, changeSet, message);
    RunAppend(INITIAL, history, [push] + rest);
    RunFirst(Run(INITIAL, history), push, rest);
  }

  /** The plan stages its snapshot, records its identity and is interrupted before it pushes. */
  function Interrupted(candidate: Root, message: Text): seq<Action> {
    [OutPull(EMPTY), Backup(candidate, EMPTY, message), Proceed(EMPTY, false), Proceed(EMPTY, false), Crash]
  }

  lemma AfterInterruption(candidate: Root, message: Text)
    ensures Run(INITIAL, Interrupted(candidate, message)) ==
            State(Workspace(true, EMPTY, EMPTY, [Stash(0, 0, candidate, EMPTY, NO_TEXT, message, false, Pending)]),
                  Some(PendingBackup(0, candidate, EMPTY, message, Some((0, 0)))), Idle, [], 1, 1)
  {
    var a := Interrupted(candidate, message);
    var s1 := Next(INITIAL, a[0]);
    var s2 := Next(s1, a[1]);
    var s3 := Next(s2, a[2]);
    var stash := Stash(0, 0, candidate, EMPTY, NO_TEXT, message, false, Pending);
    assert s3.w.stashes == [stash] && s3.control == Marking(stash);
    var s4 := Next(s3, a[3]);
    RunStep(INITIAL, a);
    RunStep(s1, a[1..]);
    RunStep(s2, a[2..]);
    RunStep(s3, a[3..]);
    RunStep(s4, a[4..]);
  }

  /** Such a state is reached, and there a push of the plan's candidate deviates exactly by its fields. */
  lemma DeviationIsPossible(candidate: Root, message: Text, changeSet: Text, other: Text)
    ensures ConformingRun(INITIAL, Interrupted(candidate, message))
    ensures Deviates(Run(INITIAL, Interrupted(candidate, message)), candidate, changeSet, other) <==>
            (changeSet != NO_TEXT || (other != NO_TEXT && other != message))
  {
    AfterInterruption(candidate, message);
    NoPushConforms(INITIAL, Interrupted(candidate, message));
  }
}
