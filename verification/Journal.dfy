/**
 The durable operation journal. Every operation here is one locked reload-operate-write step,
 and a failed step writes nothing. Identities and paths are kept in their normal form and
 stand for themselves; the empty one stands for none.
 */
module Journal {
  import opened Wrappers

  type Id = nat

  const NONE: Id := 0

  type Root = nat

  datatype Kind = Write | Mkdir | Rename | Unlink
  datatype Status = LocalDirty | OfflineOnly | PendingUpload | Conflicted | Completed | Superseded

  datatype Intent = Intent(
    operationId: Id, retryId: Id, dataset: Id, branch: Id, baseRoot: Root, baseRevision: nat,
    kind: Kind, path: Id, destination: Id, payload: Option<Root>, epoch: nat)

  datatype Operation = Operation(
    intent: Intent, sequence: nat, status: Status, conflictId: Id, resultRoot: Option<Root>, replacement: Id)

  datatype Log = Log(next: nat, ops: map<Id, Operation>, usedOps: set<Id>, usedRetries: set<Id>)

  const EMPTY := Log(1, map[], {}, {})

  datatype Error = NotFound | IdentityReuse | InvalidStatus | RequestFrozen | Malformed

  predicate ValidIntent(i: Intent) {
    && i.operationId != NONE && i.retryId != NONE && i.dataset != NONE && i.branch != NONE && i.path != NONE
    && match i.kind
       case Write => i.destination == NONE && i.payload.Some?
       case Rename => i.payload.None? && i.destination != NONE && i.destination != i.path
       case Mkdir => i.destination == NONE && i.payload.None?
       case Unlink => i.destination == NONE && i.payload.None?
  }

  // ----- What a reload checks -----

  predicate ValidOperation(op: Operation) {
    && ValidIntent(op.intent) && op.sequence != 0
    && (op.status == Conflicted || op.status == Superseded <==> op.conflictId != NONE)
    && (op.status == Superseded <==> op.replacement != NONE)
    && (op.status == Completed <==> op.resultRoot.Some?)
  }

  predicate ValidRecord(log: Log, id: Id)
    requires id in log.ops
  {
    var op := log.ops[id];
    && ValidOperation(op) && op.intent.operationId == id && op.sequence < log.next
    && id in log.usedOps && op.intent.retryId in log.usedRetries
  }

  predicate ValidReplacement(log: Log, op: Operation) {
    && op.replacement in log.ops
    && var next := log.ops[op.replacement];
       next.sequence > op.sequence && next.intent.dataset == op.intent.dataset && next.intent.branch == op.intent.branch
  }

  predicate SameIdentity(a: Operation, b: Operation) {
    a.sequence == b.sequence || a.intent.retryId == b.intent.retryId
  }

  predicate SharedReplacement(a: Operation, b: Operation) {
    a.status == Superseded && b.status == Superseded && a.replacement == b.replacement
  }

  predicate Clash(a: Operation, b: Operation) {
    SameIdentity(a, b) || SharedReplacement(a, b)
  }

  /** What the journal checks of the file before every step. */
  predicate Reloads(log: Log) {
    && log.next != 0
    && (forall id | id in log.ops :: ValidRecord(log, id))
    && (forall id, other | id in log.ops && other in log.ops && id != other :: !Clash(log.ops[id], log.ops[other]))
    && NONE !in log.usedOps && NONE !in log.usedRetries
    && (forall id | id in log.ops && log.ops[id].status == Superseded :: ValidReplacement(log, log.ops[id]))
  }

  // ----- The steps -----

  predicate Initial(status: Status) {
    status == LocalDirty || status == OfflineOnly
  }

  function AppendLocked(log: Log, intent: Intent, initial: Status): Result<(Log, Operation), Error> {
    var id := intent.operationId;
    if id in log.ops then
      if log.ops[id].intent != intent then Err(IdentityReuse) else Ok((log, log.ops[id]))
    else if id in log.usedOps || intent.retryId in log.usedRetries then Err(IdentityReuse)
    else
      var op := Operation(intent, log.next, initial, NONE, None, NONE);
      Ok((Log(log.next + 1, log.ops[id := op], log.usedOps + {id}, log.usedRetries + {intent.retryId}), op))
  }

  function Append(log: Log, intent: Intent, initial: Status): Result<(Log, Operation), Error> {
    if !ValidIntent(intent) || !Initial(initial) then Err(Malformed) else AppendLocked(log, intent, initial)
  }

  predicate Allowed(current: Status, next: Status) {
    match current
    case LocalDirty => next == OfflineOnly || next == PendingUpload || next == Conflicted
    case OfflineOnly => next == LocalDirty || next == PendingUpload || next == Conflicted
    case PendingUpload => next == Conflicted || next == Completed
    case _ => false
  }

  /** What one record is asked to become. */
  datatype Target = Offline | Freeze | Conflict(id: Id) | Complete(root: Root)
  {
    function Status(): Status {
      match this
      case Offline => OfflineOnly
      case Freeze => PendingUpload
      case Conflict(_) => Conflicted
      case Complete(_) => Completed
    }

    function ConflictId(): Id { if Conflict? then id else NONE }

    function ResultRoot(): Option<Root> { if Complete? then Some(root) else None }

    predicate WellFormed() { Conflict? ==> id != NONE }
  }

  function Transition(log: Log, id: Id, to: Target): Result<Log, Error> {
    if id == NONE || !to.WellFormed() then Err(Malformed)
    else if id !in log.ops then Err(NotFound)
    else
      var op := log.ops[id];
      if op.status == to.Status() then
        if op.conflictId != to.ConflictId() || op.resultRoot != to.ResultRoot() then Err(IdentityReuse) else Ok(log)
      else if !Allowed(op.status, to.Status()) then
        if op.status == PendingUpload && to.Offline? then Err(RequestFrozen) else Err(InvalidStatus)
      else
        Ok(log.(ops := log.ops[id := op.(status := to.Status(), conflictId := to.ConflictId(),
          resultRoot := to.ResultRoot())]))
  }

  predicate ValidIds(ids: seq<Id>) {
    ids != [] && NONE !in ids && forall i, j | 0 <= i < j < |ids| :: ids[i] != ids[j]
  }

  /** Why a record may not take part in a batch, if it may not. */
  function Refusal(log: Log, id: Id, to: Target): Option<Error> {
    if id !in log.ops then Some(NotFound)
    else
      var op := log.ops[id];
      match to
      case Freeze =>
        if op.status == LocalDirty || op.status == OfflineOnly || op.status == PendingUpload then None
        else Some(InvalidStatus)
      case Conflict(c) =>
        if op.status == Conflicted then (if op.conflictId != c then Some(IdentityReuse) else None)
        else if op.status != PendingUpload then Some(InvalidStatus) else None
      case Complete(root) =>
        if op.status == Completed then (if op.resultRoot != Some(root) then Some(IdentityReuse) else None)
        else if op.status != PendingUpload then Some(InvalidStatus) else None
      case Offline => Some(InvalidStatus)
  }

  function Moved(op: Operation, to: Target): Operation {
    if op.status == to.Status() then op
    else match to
         case Conflict(c) => op.(status := Conflicted, conflictId := c)
         case Complete(root) => op.(status := Completed, resultRoot := Some(root))
         case _ => op.(status := to.Status())
  }

  function MovedAll(ops: map<Id, Operation>, ids: seq<Id>, to: Target): map<Id, Operation> {
    map id | id in ops :: if id in ids then Moved(ops[id], to) else ops[id]
  }

  predicate Willing(log: Log, ids: seq<Id>, to: Target) {
    forall id | id in ids :: Refusal(log, id, to).None?
  }

  predicate BatchAllowed(log: Log, ids: seq<Id>, to: Target) {
    ValidIds(ids) && to.WellFormed() && !to.Offline? && Willing(log, ids, to)
  }

  /** All records move, or none does. */
  function Batch(log: Log, ids: seq<Id>, to: Target): Log {
    if BatchAllowed(log, ids, to) then log.(ops := MovedAll(log.ops, ids, to)) else log
  }

  function ResolveConflict(log: Log, id: Id, replacement: Intent, initial: Status): Result<(Log, Operation), Error> {
    var next := replacement.operationId;
    if id == NONE || !ValidIntent(replacement) || !Initial(initial) then Err(Malformed)
    else if next == id then Err(IdentityReuse)
    else if id !in log.ops then Err(NotFound)
    else
      var current := log.ops[id];
      if current.status == Superseded then
        if current.replacement != next || next !in log.ops || log.ops[next].intent != replacement
          then Err(IdentityReuse)
        else Ok((log, log.ops[next]))
      else if current.status != Conflicted then Err(InvalidStatus)
      else if replacement.dataset != current.intent.dataset || replacement.branch != current.intent.branch
        then Err(Malformed)
      else if next in log.ops then Err(IdentityReuse)
      else match AppendLocked(log, replacement, initial)
           case Err(e) => Err(e)
           case Ok((more, op)) =>
             Ok((more.(ops := more.ops[id := current.(status := Superseded, replacement := next)]), op))
  }

  /** A completed record, or one superseded by a chain that ends in one. */
  predicate Finished(log: Log, id: Id)
    requires Reloads(log) && id in log.ops
    decreases log.next - log.ops[id].sequence
  {
    assert ValidRecord(log, id);
    var op := log.ops[id];
    if op.status == Superseded then
      assert ValidReplacement(log, op) && ValidRecord(log, op.replacement);
      Finished(log, op.replacement)
    else op.status == Completed
  }

  function Pruned(log: Log): Log
    requires Reloads(log)
  {
    log.(ops := map id | id in log.ops && !Finished(log, id) :: log.ops[id])
  }

  // ----- What each step achieves -----

  /** Every record but `id` is in `after` exactly as in `before`. */
  ghost predicate OthersStay(before: Log, after: Log, id: Id) {
    forall other | other != id ::
      && (other in after.ops <==> other in before.ops)
      && (other in before.ops ==> after.ops[other] == before.ops[other])
  }

  /** Repeating an append gives the stored record and changes nothing. Otherwise it needs two
      identities never used before, and appends the intent as a new last record. */
  lemma AppendOutcome(log: Log, intent: Intent, initial: Status)
    requires Reloads(log)
    ensures var r, id := Append(log, intent, initial), intent.operationId;
            && (r == Err(Malformed) <==> !ValidIntent(intent) || !Initial(initial))
            && (r.Ok? <==>
                && ValidIntent(intent) && Initial(initial)
                && ((id in log.ops && log.ops[id].intent == intent) ||
                    (id !in log.usedOps && intent.retryId !in log.usedRetries)))
            && (r.Err? ==> r.error == Malformed || r.error == IdentityReuse)
    ensures Append(log, intent, initial).Ok? ==>
              var (after, op) := Append(log, intent, initial).value;
              var id := intent.operationId;
              && id in after.ops && after.ops[id] == op && op.intent == intent
              && (id in log.ops ==> after == log)
              && (id !in log.ops ==>
                    && OthersStay(log, after, id) && op == Operation(intent, log.next, initial, NONE, None, NONE)
                    && after.next == log.next + 1 && after.usedOps == log.usedOps + {id}
                    && after.usedRetries == log.usedRetries + {intent.retryId})
              && Append(after, intent, initial) == Ok((after, op))
  {
    assert intent.operationId in log.ops ==> ValidRecord(log, intent.operationId);
  }

  /** From where a record may be brought to a target; it may be there already. */
  predicate CanReach(op: Operation, to: Target) {
    match to
    case Offline => op.status == LocalDirty || op.status == OfflineOnly
    case Freeze => op.status == LocalDirty || op.status == OfflineOnly || op.status == PendingUpload
    case Conflict(id) =>
      || op.status == LocalDirty || op.status == OfflineOnly || op.status == PendingUpload
      || (op.status == Conflicted && op.conflictId == id)
    case Complete(root) => op.status == PendingUpload || (op.status == Completed && op.resultRoot == Some(root))
  }

  /** The record at the target: its own intent and sequence number, and what the target says. */
  predicate Reached(before: Operation, to: Target, after: Operation) {
    && after.intent == before.intent && after.sequence == before.sequence && after.replacement == before.replacement
    && match to
       case Offline => after.status == OfflineOnly && after.conflictId == NONE && after.resultRoot == None
       case Freeze => after.status == PendingUpload && after.conflictId == NONE && after.resultRoot == None
       case Conflict(id) => after.status == Conflicted && after.conflictId == id && after.resultRoot == None
       case Complete(root) => after.status == Completed && after.conflictId == NONE && after.resultRoot == Some(root)
  }

  /** A transition succeeds exactly for a record that can reach the target, brings it there, and
      changes nothing when repeated. A frozen request asked to go offline is told so. */
  lemma TransitionOutcome(log: Log, id: Id, to: Target)
    requires Reloads(log)
    ensures Transition(log, id, to).Ok? <==>
              id != NONE && (to.Conflict? ==> to.id != NONE) && id in log.ops && CanReach(log.ops[id], to)
    ensures Transition(log, id, to) == Err(RequestFrozen) <==>
              id != NONE && to.Offline? && id in log.ops && log.ops[id].status == PendingUpload
    ensures Transition(log, id, to) == Err(NotFound) <==>
              id != NONE && (to.Conflict? ==> to.id != NONE) && id !in log.ops
    ensures Transition(log, id, to).Ok? ==>
              var after := Transition(log, id, to).value;
              && id in after.ops && Reached(log.ops[id], to, after.ops[id]) && OthersStay(log, after, id)
              && after == log.(ops := after.ops) && Transition(after, id, to) == Ok(after)
  {
    assert id in log.ops ==> ValidRecord(log, id);
  }

  /** As for one record, except that nothing may skip being frozen. */
  predicate CanJoin(op: Operation, to: Target) {
    !to.Offline? && CanReach(op, to) && (to.Conflict? ==> op.status == PendingUpload || op.status == Conflicted)
  }

  /** A batch moves exactly if it names distinct records that can all reach the target; then they
      all do, and no other record changes. */
  lemma BatchOutcome(log: Log, ids: seq<Id>, to: Target)
    requires Reloads(log) && to.WellFormed()
    ensures BatchAllowed(log, ids, to) <==>
              && ids != [] && (forall i, j | 0 <= i < j < |ids| :: ids[i] != ids[j]) && !to.Offline?
              && forall id | id in ids :: id in log.ops && CanJoin(log.ops[id], to)
    ensures !BatchAllowed(log, ids, to) ==> Batch(log, ids, to) == log
    ensures BatchAllowed(log, ids, to) ==>
              var after := Batch(log, ids, to);
              && after == log.(ops := after.ops) && after.ops.Keys == log.ops.Keys
              && forall id | id in log.ops ::
                   if id in ids then Reached(log.ops[id], to, after.ops[id]) else after.ops[id] == log.ops[id]
  {
    forall id | id in ids && id in log.ops
      ensures id != NONE && (CanJoin(log.ops[id], to) <==> Refusal(log, id, to).None?)
    {
      assert ValidRecord(log, id);
    }
    forall id | id in log.ops && id in ids && Refusal(log, id, to).None?
      ensures Reached(log.ops[id], to, Moved(log.ops[id], to))
    {
      assert ValidRecord(log, id);
    }
    if BatchAllowed(log, ids, to) {
      assert Batch(log, ids, to).ops.Keys == log.ops.Keys;
    }
  }

  /** A resolution needs a conflicted record, and new intent for the same dataset and branch under
      identities never used before. The record is superseded by the new one; repeating the
      resolution gives that one again and changes nothing. */
  lemma ResolveOutcome(log: Log, id: Id, replacement: Intent, initial: Status)
    requires Reloads(log) && id in log.ops && ValidIntent(replacement) && Initial(initial)
    requires log.ops[id].status == Conflicted
    ensures ResolveConflict(log, id, replacement, initial).Ok? <==>
              && replacement.dataset == log.ops[id].intent.dataset && replacement.branch == log.ops[id].intent.branch
              && replacement.operationId !in log.usedOps && replacement.retryId !in log.usedRetries
    ensures ResolveConflict(log, id, replacement, initial).Ok? ==>
              var (after, op) := ResolveConflict(log, id, replacement, initial).value;
              var next := replacement.operationId;
              && op == Operation(replacement, log.next, initial, NONE, None, NONE)
              && after == Log(log.next + 1,
                              log.ops[next := op][id := log.ops[id].(status := Superseded, replacement := next)],
                              log.usedOps + {next}, log.usedRetries + {replacement.retryId})
              && ResolveConflict(after, id, replacement, initial) == Ok((after, op))
  {
    assert ValidRecord(log, id);
    assert replacement.operationId in log.ops ==> ValidRecord(log, replacement.operationId);
  }

  /** Of other records, only one that is superseded by this very intent is resolved already. */
  lemma ResolveOfOthers(log: Log, id: Id, replacement: Intent, initial: Status)
    requires Reloads(log) && id in log.ops && log.ops[id].status != Conflicted
    requires ValidIntent(replacement) && Initial(initial)
    ensures var r, op := ResolveConflict(log, id, replacement, initial), log.ops[id];
            && (r.Ok? <==> op.status == Superseded && log.ops[op.replacement].intent == replacement)
            && (r.Ok? ==> r.value == (log, log.ops[op.replacement]))
            && (r.Err? ==>
                  r.error == if replacement.operationId == id || op.status == Superseded
                             then IdentityReuse else InvalidStatus)
  {
    assert ValidRecord(log, id);
    if log.ops[id].status == Superseded {
      assert ValidReplacement(log, log.ops[id]) && ValidRecord(log, log.ops[id].replacement);
    }
  }

  // ----- Every step keeps the journal loadable -----

  lemma AppendedIsApart(log: Log, op: Operation)
    requires Reloads(log) && op.sequence == log.next && op.intent.retryId !in log.usedRetries && op.status != Superseded
    ensures forall id | id in log.ops :: !Clash(log.ops[id], op) && !Clash(op, log.ops[id])
  {
    forall id | id in log.ops ensures !Clash(log.ops[id], op) && !Clash(op, log.ops[id]) {
      assert ValidRecord(log, id);
    }
  }

  lemma AppendReloads(log: Log, intent: Intent, initial: Status)
    requires Reloads(log) && ValidIntent(intent) && Initial(initial) && AppendLocked(log, intent, initial).Ok?
    ensures Reloads(AppendLocked(log, intent, initial).value.0)
  {
    var after := AppendLocked(log, intent, initial).value.0;
    forall id | id in log.ops ensures ValidRecord(after, id) {
      assert ValidRecord(log, id);
    }
    if intent.operationId !in log.ops {
      AppendedIsApart(log, AppendLocked(log, intent, initial).value.1);
    }
    forall id | id in after.ops && after.ops[id].status == Superseded ensures ValidReplacement(after, after.ops[id]) {
      assert ValidReplacement(log, log.ops[id]);
    }
  }

  /** Changing how far records have come, and nothing else about them. */
  ghost predicate OnlyStatus(before: Log, after: Log) {
    && after.next == before.next && after.usedOps == before.usedOps && after.usedRetries == before.usedRetries
    && after.ops.Keys == before.ops.Keys
    && forall id | id in after.ops ::
         && after.ops[id].intent == before.ops[id].intent && after.ops[id].sequence == before.ops[id].sequence
         && after.ops[id].replacement == before.ops[id].replacement
         && (after.ops[id].status == Superseded <==> before.ops[id].status == Superseded)
         && (ValidOperation(before.ops[id]) ==> ValidOperation(after.ops[id]))
  }

  lemma OnlyStatusReloads(before: Log, after: Log)
    requires Reloads(before) && OnlyStatus(before, after)
    ensures Reloads(after)
  {
    forall id | id in after.ops ensures ValidRecord(after, id) {
      assert ValidRecord(before, id);
    }
    forall id, other | id in after.ops && other in after.ops && id != other
      ensures !Clash(after.ops[id], after.ops[other]) {
      assert !Clash(before.ops[id], before.ops[other]);
    }
    forall id | id in after.ops && after.ops[id].status == Superseded ensures ValidReplacement(after, after.ops[id]) {
      assert ValidReplacement(before, before.ops[id]);
    }
  }

  lemma OneChanges(log: Log, id: Id, op: Operation)
    requires id in log.ops
    requires op.intent == log.ops[id].intent && op.sequence == log.ops[id].sequence
    requires op.replacement == log.ops[id].replacement
    requires op.status == Superseded <==> log.ops[id].status == Superseded
    requires ValidOperation(log.ops[id]) ==> ValidOperation(op)
    ensures OnlyStatus(log, log.(ops := log.ops[id := op]))
  {
    var after := log.(ops := log.ops[id := op]);
    assert after.ops.Keys == log.ops.Keys;
  }

  lemma TransitionReloads(log: Log, id: Id, to: Target)
    requires Reloads(log) && Transition(log, id, to).Ok?
    ensures OnlyStatus(log, Transition(log, id, to).value) && Reloads(Transition(log, id, to).value)
  {
    OneChanges(log, id, Transition(log, id, to).value.ops[id]);
    assert Transition(log, id, to).value.ops == log.ops[id := Transition(log, id, to).value.ops[id]];
    OnlyStatusReloads(log, Transition(log, id, to).value);
  }

  lemma BatchReloads(log: Log, ids: seq<Id>, to: Target)
    requires Reloads(log)
    ensures OnlyStatus(log, Batch(log, ids, to)) && Reloads(Batch(log, ids, to))
  {
    var after := Batch(log, ids, to);
    forall id | id in log.ops && BatchAllowed(log, ids, to) && id in ids
      ensures ValidOperation(log.ops[id]) ==> ValidOperation(after.ops[id])
    {
      assert Refusal(log, id, to).None?;
    }
    OnlyStatusReloads(log, after);
  }

  /** Handing a conflicted record over to a later one that nobody else points to. */
  lemma SupersedeReloads(log: Log, id: Id, next: Id)
    requires Reloads(log) && id in log.ops && next in log.ops && log.ops[id].status == Conflicted
    requires log.ops[next].sequence > log.ops[id].sequence
    requires log.ops[next].intent.dataset == log.ops[id].intent.dataset &&
               log.ops[next].intent.branch == log.ops[id].intent.branch
    requires forall other | other in log.ops && log.ops[other].status == Superseded ::
               log.ops[other].replacement != next
    ensures Reloads(log.(ops := log.ops[id := log.ops[id].(status := Superseded, replacement := next)]))
  {
    var after := log.(ops := log.ops[id := log.ops[id].(status := Superseded, replacement := next)]);
    assert ValidRecord(log, next);
    forall other | other in after.ops ensures ValidRecord(after, other) {
      assert ValidRecord(log, other);
    }
    forall a, b | a in after.ops && b in after.ops && a != b ensures !Clash(after.ops[a], after.ops[b]) {
      assert !Clash(log.ops[a], log.ops[b]);
    }
    forall other | other in after.ops && after.ops[other].status == Superseded
      ensures ValidReplacement(after, after.ops[other]) {
      assert other != id ==> ValidReplacement(log, log.ops[other]);
    }
  }

  lemma ResolveReloads(log: Log, id: Id, replacement: Intent, initial: Status)
    requires Reloads(log) && ResolveConflict(log, id, replacement, initial).Ok?
    ensures Reloads(ResolveConflict(log, id, replacement, initial).value.0)
  {
    if log.ops[id].status == Conflicted {
      AppendReloads(log, replacement, initial);
      var more := AppendLocked(log, replacement, initial).value.0;
      assert ValidRecord(log, id);
      forall other | other in more.ops && more.ops[other].status == Superseded
        ensures more.ops[other].replacement != replacement.operationId
      {
        assert ValidReplacement(log, log.ops[other]);
      }
      SupersedeReloads(more, id, replacement.operationId);
    }
  }

  lemma PruneReloads(log: Log)
    requires Reloads(log)
    ensures Reloads(Pruned(log))
  {
    var after := Pruned(log);
    forall id | id in after.ops ensures ValidRecord(after, id) {
      assert ValidRecord(log, id);
    }
    forall id | id in after.ops && after.ops[id].status == Superseded ensures ValidReplacement(after, after.ops[id]) {
      assert ValidReplacement(log, log.ops[id]) && !Finished(log, id);
    }
  }

  // ----- Runs -----

  datatype Step =
    | DoAppend(intent: Intent, initial: Status)
    | DoTransition(id: Id, to: Target)
    | DoBatch(ids: seq<Id>, to: Target)
    | DoResolve(id: Id, intent: Intent, initial: Status)
    | DoPrune

  /** A journal that does not reload refuses every step. */
  function Take(log: Log, step: Step): Log {
    if !Reloads(log) then log
    else match step
         case DoAppend(intent, initial) => var r := Append(log, intent, initial); if r.Ok? then r.value.0 else log
         case DoTransition(id, to) => var r := Transition(log, id, to); if r.Ok? then r.value else log
         case DoBatch(ids, to) => Batch(log, ids, to)
         case DoResolve(id, intent, initial) => var r := ResolveConflict(log, id, intent, initial); if r.Ok?
           then r.value.0 else log
         case DoPrune => Pruned(log)
  }

  /** Records of `after` are records of `before`, or carry identities and a sequence number that
      nothing up to `before` has ever had. */
  ghost predicate Later(before: Log, after: Log) {
    && before.next <= after.next && before.usedOps <= after.usedOps && before.usedRetries <= after.usedRetries
    && forall id | id in after.ops ::
         if id in before.ops then
           after.ops[id].intent == before.ops[id].intent && after.ops[id].sequence == before.ops[id].sequence
         else
           id !in before.usedOps && after.ops[id].intent.retryId !in before.usedRetries &&
             after.ops[id].sequence >= before.next
  }

  lemma LaterTransitive(a: Log, b: Log, c: Log)
    requires Reloads(a) && Later(a, b) && Later(b, c)
    ensures Later(a, c)
  {
    forall id | id in c.ops
      ensures if id in a.ops then c.ops[id].intent == a.ops[id].intent && c.ops[id].sequence == a.ops[id].sequence
              else id !in a.usedOps && c.ops[id].intent.retryId !in a.usedRetries && c.ops[id].sequence >= a.next
    {
      assert id in a.ops ==> ValidRecord(a, id);
    }
  }

  lemma ResolveIsLater(log: Log, id: Id, intent: Intent, initial: Status)
    requires Reloads(log) && ResolveConflict(log, id, intent, initial).Ok?
    ensures Later(log, ResolveConflict(log, id, intent, initial).value.0)
  {}

  lemma OnlyStatusIsLater(before: Log, after: Log)
    requires OnlyStatus(before, after)
    ensures Later(before, after)
  {}

  /** Every step leaves a journal that reloads, and uses no identity twice. */
  lemma StepReloads(log: Log, step: Step)
    requires Reloads(log)
    ensures Reloads(Take(log, step)) && Later(log, Take(log, step))
  {
    var after := Take(log, step);
    match step
    case DoAppend(intent, initial) => if Append(log, intent, initial).Ok? { AppendReloads(log, intent, initial); }
    case DoTransition(id, to) =>
      if Transition(log, id, to).Ok? {
        TransitionReloads(log, id, to);
        OnlyStatusIsLater(log, after);
      }
    case DoBatch(ids, to) =>
      BatchReloads(log, ids, to);
      OnlyStatusIsLater(log, after);
    case DoResolve(id, intent, initial) =>
      if ResolveConflict(log, id, intent, initial).Ok? {
        ResolveReloads(log, id, intent, initial);
        ResolveIsLater(log, id, intent, initial);
      }
    case DoPrune => PruneReloads(log);
  }

  ghost predicate Run(logs: seq<Log>, steps: seq<Step>) {
    && |logs| == |steps| + 1 && logs[0] == EMPTY
    && forall i {:trigger steps[i]} | 0 <= i < |steps| :: logs[i + 1] == Take(logs[i], steps[i])
  }

  /** Every journal reachable through the API passes its own reload validation. */
  lemma {:induction false} RunReloads(logs: seq<Log>, steps: seq<Step>, i: nat)
    requires Run(logs, steps) && i < |logs|
    ensures Reloads(logs[i])
    decreases i
  {
    if i > 0 {
      RunReloads(logs, steps, i - 1);
      StepReloads(logs[i - 1], steps[i - 1]);
    }
  }

  lemma {:induction false} RunIsLater(logs: seq<Log>, steps: seq<Step>, i: nat, j: nat)
    requires Run(logs, steps) && i <= j < |logs|
    ensures Later(logs[i], logs[j])
    decreases j
  {
    if i < j {
      RunIsLater(logs, steps, i, j - 1);
      RunReloads(logs, steps, j - 1);
      RunReloads(logs, steps, i);
      StepReloads(logs[j - 1], steps[j - 1]);
      LaterTransitive(logs[i], logs[j - 1], logs[j]);
    }
  }

  /**
   In every run, whatever was pruned in between, an operation or retry identity that turns up
   twice is the same intent with the same sequence number.
   */
  lemma IdentitiesAreForever(logs: seq<Log>, steps: seq<Step>, i: nat, j: nat, a: Id, b: Id)
    requires Run(logs, steps) && i <= j < |logs| && a in logs[i].ops && b in logs[j].ops
    requires a == b || logs[i].ops[a].intent.retryId == logs[j].ops[b].intent.retryId
    ensures a == b && logs[i].ops[a].intent == logs[j].ops[b].intent &&
              logs[i].ops[a].sequence == logs[j].ops[b].sequence
  {
    RunReloads(logs, steps, i);
    RunIsLater(logs, steps, i, j);
    assert ValidRecord(logs[i], a);
    assert b in logs[i].ops && a != b ==> !Clash(logs[i].ops[a], logs[i].ops[b]);
  }

  /** A record that has been pruned never comes back. */
  lemma PrunedStaysAway(logs: seq<Log>, steps: seq<Step>, i: nat, j: nat, k: nat, id: Id)
    requires Run(logs, steps) && i <= j <= k < |logs| && id in logs[i].ops && id !in logs[j].ops
    ensures id !in logs[k].ops
  {
    RunReloads(logs, steps, i);
    RunIsLater(logs, steps, i, j);
    RunIsLater(logs, steps, j, k);
    assert ValidRecord(logs[i], id);
  }

  predicate Final(status: Status) {
    status == Completed || status == Conflicted || status == Superseded
  }

  /** A completed record never changes, a conflicted one can only be superseded, and a frozen
      request is never demoted. */
  predicate Kept(before: Operation, after: Operation) {
    && (before.status == Completed ==> after == before)
    && (before.status == Conflicted || before.status == Superseded ==>
          after.status == Conflicted || after.status == Superseded)
    && (before.status == PendingUpload ==> after.status == PendingUpload || Final(after.status))
    && (before.status == Superseded ==> after.status == Superseded)
  }

  /** What one step may make of a record: besides, only a frozen request is completed. */
  predicate Moves(before: Operation, after: Operation) {
    Kept(before, after) && (after.status == Completed && before.status != Completed ==> before.status == PendingUpload)
  }

  lemma BatchMoves(log: Log, ids: seq<Id>, to: Target, id: Id)
    requires id in log.ops
    ensures id in Batch(log, ids, to).ops && Moves(log.ops[id], Batch(log, ids, to).ops[id])
  {
    if BatchAllowed(log, ids, to) && id in ids {
      assert Refusal(log, id, to).None?;
    }
  }

  lemma TransitionMoves(log: Log, id: Id, to: Target, other: Id)
    requires other in log.ops && Transition(log, id, to).Ok?
    ensures var after := Transition(log, id, to).value;
            other in after.ops && Moves(log.ops[other], after.ops[other])
  {}

  lemma ResolveMoves(log: Log, id: Id, intent: Intent, initial: Status, other: Id)
    requires other in log.ops && ResolveConflict(log, id, intent, initial).Ok?
    ensures var after := ResolveConflict(log, id, intent, initial).value.0;
            other in after.ops && Moves(log.ops[other], after.ops[other])
  {}

  lemma StepMoves(log: Log, step: Step, id: Id)
    requires id in log.ops && id in Take(log, step).ops
    ensures Moves(log.ops[id], Take(log, step).ops[id])
  {
    if Reloads(log) {
      match step
      case DoAppend(intent, initial) =>
      case DoTransition(other, to) => if Transition(log, other, to).Ok? { TransitionMoves(log, other, to, id); }
      case DoBatch(ids, to) => BatchMoves(log, ids, to, id);
      case DoResolve(other, intent, initial) =>
        if ResolveConflict(log, other, intent, initial).Ok? { ResolveMoves(log, other, intent, initial, id); }
      case DoPrune =>
    }
  }

  lemma KeptTransitive(a: Operation, b: Operation, c: Operation)
    requires Kept(a, b) && Kept(b, c)
    ensures Kept(a, c)
  {}

  ghost predicate KeptAt(before: Log, after: Log, id: Id) {
    id in before.ops && id in after.ops ==> Kept(before.ops[id], after.ops[id])
  }

  lemma NextKeepsFinal(logs: seq<Log>, steps: seq<Step>, i: nat, id: Id)
    requires Run(logs, steps) && i < |steps|
    ensures KeptAt(logs[i], logs[i + 1], id)
  {
    var log, step := logs[i], steps[i];
    if id in log.ops && id in Take(log, step).ops {
      StepMoves(log, step, id);
    }
  }

  /** Over any stretch of a run, a final record stays final, and a completed one as it is. */
  lemma {:induction false} RunKeepsFinal(logs: seq<Log>, steps: seq<Step>, i: nat, j: nat, id: Id)
    requires Run(logs, steps) && i <= j < |logs|
    ensures KeptAt(logs[i], logs[j], id)
    decreases j
  {
    if i < j && id in logs[i].ops && id in logs[j].ops {
      RunKeepsFinal(logs, steps, i, j - 1, id);
      NextKeepsFinal(logs, steps, j - 1, id);
      assert id in logs[j - 1].ops by {
        if id !in logs[j - 1].ops { PrunedStaysAway(logs, steps, i, j - 1, j, id); }
      }
      KeptTransitive(logs[i].ops[id], logs[j - 1].ops[id], logs[j].ops[id]);
    }
  }

  // ----- Reloading -----

  /** The checks made of a journal file, one record at a time. */
  method ReloadLocked(log: Log) returns (ok: bool)
    ensures ok <==> Reloads(log)
  {
    if log.next == 0 || NONE in log.usedOps || NONE in log.usedRetries {
      return false;
    }
    ok := CheckRecords(log);
    if ok {
      ok := CheckReplacements(log);
    }
  }

  method CheckRecords(log: Log) returns (ok: bool)
    ensures ok <==>
              && (forall id | id in log.ops :: ValidRecord(log, id))
              && (forall a, b | a in log.ops && b in log.ops && a != b :: !SameIdentity(log.ops[a], log.ops[b]))
  {
    var rest := log.ops.Keys;
    var sequences: map<nat, Id>, retries: map<Id, Id> := map[], map[];
    while rest != {}
      invariant rest <= log.ops.Keys
      invariant Seen(log, log.ops.Keys - rest, sequences, retries)
      decreases rest
    {
      var id :| id in rest;
      var op := log.ops[id];
      if !ValidRecord(log, id) {
        return false;
      }
      if op.sequence in sequences {
        assert SameIdentity(log.ops[sequences[op.sequence]], log.ops[id]);
        return false;
      }
      if op.intent.retryId in retries {
        assert SameIdentity(log.ops[retries[op.intent.retryId]], log.ops[id]);
        return false;
      }
      SeenOneMore(log, log.ops.Keys - rest, sequences, retries, id);
      assert log.ops.Keys - (rest - {id}) == (log.ops.Keys - rest) + {id};
      rest, sequences, retries := rest - {id}, sequences[op.sequence := id], retries[op.intent.retryId := id];
    }
    assert log.ops.Keys - {} == log.ops.Keys;
    ok := true;
  }

  /** The records checked so far, found by sequence number and by retry identity. */
  ghost predicate Seen(log: Log, done: set<Id>, sequences: map<nat, Id>, retries: map<Id, Id>) {
    && done <= log.ops.Keys
    && (forall id | id in done :: ValidRecord(log, id))
    && (forall id | id in done :: log.ops[id].sequence in sequences && sequences[log.ops[id].sequence] == id)
    && (forall id | id in done :: log.ops[id].intent.retryId in retries && retries[log.ops[id].intent.retryId] == id)
    && (forall s | s in sequences :: sequences[s] in done && log.ops[sequences[s]].sequence == s)
    && (forall r | r in retries :: retries[r] in done && log.ops[retries[r]].intent.retryId == r)
  }

  lemma SeenOneMore(log: Log, done: set<Id>, sequences: map<nat, Id>, retries: map<Id, Id>, id: Id)
    requires Seen(log, done, sequences, retries) && id in log.ops && id !in done && ValidRecord(log, id)
    requires log.ops[id].sequence !in sequences && log.ops[id].intent.retryId !in retries
    ensures Seen(log, done + {id}, sequences[log.ops[id].sequence := id], retries[log.ops[id].intent.retryId := id])
  {}

  method CheckReplacements(log: Log) returns (ok: bool)
    ensures ok <==>
              && (forall id | id in log.ops && log.ops[id].status == Superseded :: ValidReplacement(log, log.ops[id]))
              && (forall a, b | a in log.ops && b in log.ops && a != b :: !SharedReplacement(log.ops[a], log.ops[b]))
  {
    var rest, inbound := log.ops.Keys, {};
    while rest != {}
      invariant rest <= log.ops.Keys
      invariant forall id | id in log.ops && id !in rest && log.ops[id].status == Superseded ::
                  ValidReplacement(log, log.ops[id]) && log.ops[id].replacement in inbound
      invariant forall r | r in inbound ::
                  exists id :: id in log.ops && id !in rest && log.ops[id].status == Superseded &&
                    log.ops[id].replacement == r
      invariant forall a, b | a in log.ops && b in log.ops && a != b && a !in rest && b !in rest ::
                  !SharedReplacement(log.ops[a], log.ops[b])
      decreases rest
    {
      var id :| id in rest;
      var op := log.ops[id];
      rest := rest - {id};
      if op.status == Superseded {
        if !ValidReplacement(log, op) {
          return false;
        }
        if op.replacement in inbound {
          ghost var other :| other in log.ops && other !in rest + {id} && log.ops[other].status == Superseded &&
                             log.ops[other].replacement == op.replacement;
          assert SharedReplacement(log.ops[other], log.ops[id]);
          return false;
        }
        inbound := inbound + {op.replacement};
      }
    }
    ok := true;
  }

  // ----- The store -----

  class Store {
    var state: Log

    constructor ()
      ensures state == EMPTY
    {
      state := EMPTY;
    }

    method AppendIntent(intent: Intent, initial: Status) returns (r: Result<Operation, Error>)
      requires Reloads(state)
      modifies this
      ensures Reloads(state) && state == Take(old(state), DoAppend(intent, initial))
      ensures Append(old(state), intent, initial) == if r.Ok? then Ok((state, r.value)) else Err(r.error)
      ensures r.Err? ==> state == old(state)
    {
      StepReloads(state, DoAppend(intent, initial));
      if !ValidIntent(intent) || !Initial(initial) {
        return Err(Malformed);
      }
      var id := intent.operationId;
      if id in state.ops {
        return if state.ops[id].intent != intent then Err(IdentityReuse) else Ok(state.ops[id]);
      }
      if id in state.usedOps || intent.retryId in state.usedRetries {
        return Err(IdentityReuse);
      }
      var op := Operation(intent, state.next, initial, NONE, None, NONE);
      state := Log(state.next + 1, state.ops[id := op], state.usedOps + {id}, state.usedRetries + {intent.retryId});
      return Ok(op);
    }

    method TransitionOne(id: Id, to: Target) returns (r: Result<Operation, Error>)
      requires Reloads(state)
      modifies this
      ensures Reloads(state) && state == Take(old(state), DoTransition(id, to))
      ensures Transition(old(state), id, to) == if r.Ok? then Ok(state) else Err(r.error)
      ensures if r.Ok? then id in state.ops && r.value == state.ops[id] else state == old(state)
    {
      StepReloads(state, DoTransition(id, to));
      if id == NONE || !to.WellFormed() {
        return Err(Malformed);
      }
      if id !in state.ops {
        return Err(NotFound);
      }
      var op := state.ops[id];
      if op.status == to.Status() {
        return if op.conflictId != to.ConflictId() || op.resultRoot != to.ResultRoot()
          then Err(IdentityReuse) else Ok(op);
      }
      if !Allowed(op.status, to.Status()) {
        return Err(if op.status == PendingUpload && to.Offline? then RequestFrozen else InvalidStatus);
      }
      op := op.(status := to.Status(), conflictId := to.ConflictId(), resultRoot := to.ResultRoot());
      state := state.(ops := state.ops[id := op]);
      return Ok(op);
    }

    /** Checks every record first, then moves each one that has not got there yet. */
    method MoveBatch(ids: seq<Id>, to: Target) returns (ok: bool)
      requires Reloads(state)
      modifies this
      ensures Reloads(state) && state == Take(old(state), DoBatch(ids, to))
      ensures ok <==> BatchAllowed(old(state), ids, to)
      ensures state == if ok then old(state).(ops := MovedAll(old(state).ops, ids, to)) else old(state)
    {
      BatchReloads(state, ids, to);
      var wellFormed := ValidIds(ids) && to.WellFormed() && !to.Offline?;
      ok := wellFormed;
      for i := 0 to |ids|
        invariant ok <==> wellFormed && forall id | id in ids[..i] :: Refusal(state, id, to).None?
      {
        ok := ok && Refusal(state, ids[i], to).None?;
      }
      assert ids[..|ids|] == ids;
      if ok {
        MoveAll(ids, to);
      }
    }

    method MoveAll(ids: seq<Id>, to: Target)
      requires ValidIds(ids) && forall id | id in ids :: id in state.ops
      modifies this
      ensures state == old(state).(ops := MovedAll(old(state).ops, ids, to))
    {
      ghost var before := state;
      for i := 0 to |ids|
        invariant state == before.(ops := MovedAll(before.ops, ids[..i], to))
      {
        assert ids[i] in before.ops && ids[i] !in ids[..i];
        var op := state.ops[ids[i]];
        state := state.(ops := state.ops[ids[i] := Moved(op, to)]);
        assert state.ops == MovedAll(before.ops, ids[..i + 1], to);
      }
      assert ids[..|ids|] == ids;
    }

    /** Supersedes a conflicted record with new intent under new identities. */
    method Resolve(id: Id, replacement: Intent, initial: Status) returns (r: Result<Operation, Error>)
      requires Reloads(state)
      modifies this
      ensures Reloads(state) && state == Take(old(state), DoResolve(id, replacement, initial))
      ensures ResolveConflict(old(state), id, replacement, initial) ==
              if r.Ok? then Ok((state, r.value)) else Err(r.error)
      ensures r.Err? ==> state == old(state)
    {
      StepReloads(state, DoResolve(id, replacement, initial));
      var next := replacement.operationId;
      if id == NONE || !ValidIntent(replacement) || !Initial(initial) {
        return Err(Malformed);
      }
      if next == id {
        return Err(IdentityReuse);
      }
      if id !in state.ops {
        return Err(NotFound);
      }
      var current := state.ops[id];
      if current.status == Superseded {
        if current.replacement != next || next !in state.ops || state.ops[next].intent != replacement {
          return Err(IdentityReuse);
        }
        return Ok(state.ops[next]);
      }
      if current.status != Conflicted {
        return Err(InvalidStatus);
      }
      if replacement.dataset != current.intent.dataset || replacement.branch != current.intent.branch {
        return Err(Malformed);
      }
      if next in state.ops {
        return Err(IdentityReuse);
      }
      r := AppendIntent(replacement, initial);
      if r.Ok? {
        state := state.(ops := state.ops[id := current.(status := Superseded, replacement := next)]);
      }
    }

    /** Removes exactly the finished records. */
    method PruneCompleted() returns (removed: nat)
      requires Reloads(state)
      modifies this
      ensures Reloads(state) && state == Take(old(state), DoPrune)
      ensures removed == |old(state).ops| - |state.ops|
    {
      PruneReloads(state);
      var selected := SelectFinished(state);
      PrunedIsDifference(state, selected);
      KeysSize(state.ops, selected);
      removed := |selected|;
      state := state.(ops := state.ops - selected);
    }
  }

  lemma PrunedIsDifference(log: Log, selected: set<Id>)
    requires Reloads(log) && selected == set id | id in log.ops && Finished(log, id)
    ensures Pruned(log) == log.(ops := log.ops - selected) && selected <= log.ops.Keys
  {
    assert Pruned(log).ops == log.ops - selected;
  }

  /** Passes over the records until nothing more is added. */
  method SelectFinished(log: Log) returns (selected: set<Id>)
    requires Reloads(log)
    ensures selected == set id | id in log.ops && Finished(log, id)
  {
    selected := set id | id in log.ops && log.ops[id].status == Completed;
    var changed := true;
    SubsetSize(selected, log.ops.Keys);
    while changed
      invariant Between(log, selected) && |selected| <= |log.ops.Keys|
      invariant !changed ==> Saturated(log, selected)
      decreases |log.ops.Keys| - |selected| + if changed then 1 else 0
    {
      var grown, more := OnePass(log, selected);
      SubsetSize(more, log.ops.Keys);
      if grown {
        StrictSubsetSize(selected, more);
      }
      changed, selected := grown, more;
    }
    SaturatedIsFinished(log, selected);
  }

  /** A chain of records, each superseded by the next, that ends in a completed one. */
  ghost predicate IsFinishedChain(log: Log, chain: seq<Id>) {
    && chain != [] && (forall i | 0 <= i < |chain| :: chain[i] in log.ops)
    && log.ops[chain[|chain| - 1]].status == Completed
    && forall i | 0 <= i < |chain| - 1 ::
         log.ops[chain[i]].status == Superseded && log.ops[chain[i]].replacement == chain[i + 1]
  }

  /** What pruning removes: exactly the records from which such a chain starts. */
  lemma FinishedIffChain(log: Log, id: Id)
    requires Reloads(log) && id in log.ops
    ensures Finished(log, id) <==> exists chain :: IsFinishedChain(log, chain) && chain[0] == id
  {
    if Finished(log, id) {
      var chain := ChainOf(log, id);
    }
    forall chain | IsFinishedChain(log, chain) && chain[0] == id ensures Finished(log, id) {
      ChainFinishes(log, chain);
    }
  }

  lemma {:induction false} ChainOf(log: Log, id: Id) returns (chain: seq<Id>)
    requires Reloads(log) && id in log.ops && Finished(log, id)
    ensures IsFinishedChain(log, chain) && chain[0] == id
    decreases log.next - log.ops[id].sequence
  {
    if log.ops[id].status == Superseded {
      assert ValidReplacement(log, log.ops[id]) && ValidRecord(log, log.ops[id].replacement);
      var rest := ChainOf(log, log.ops[id].replacement);
      chain := [id] + rest;
    } else {
      chain := [id];
    }
  }

  lemma {:induction false} ChainFinishes(log: Log, chain: seq<Id>)
    requires Reloads(log) && IsFinishedChain(log, chain)
    ensures Finished(log, chain[0])
    decreases chain
  {
    if |chain| > 1 {
      var rest := chain[1..];
      forall i | 0 <= i < |rest| - 1
        ensures log.ops[rest[i]].status == Superseded && log.ops[rest[i]].replacement == rest[i + 1]
      {
        assert rest[i] == chain[i + 1];
      }
      assert log.ops[chain[0]].replacement == rest[0];
      ChainFinishes(log, rest);
    }
  }

  ghost predicate Between(log: Log, selected: set<Id>)
    requires Reloads(log)
  {
    && (forall id | id in selected :: id in log.ops && Finished(log, id))
    && (forall id | id in log.ops && log.ops[id].status == Completed :: id in selected)
  }

  predicate Saturated(log: Log, selected: set<Id>) {
    forall id | id in log.ops && log.ops[id].status == Superseded && log.ops[id].replacement in selected ::
      id in selected
  }

  method OnePass(log: Log, selected: set<Id>) returns (grown: bool, more: set<Id>)
    requires Reloads(log) && Between(log, selected)
    ensures Between(log, more) && selected <= more
    ensures if grown then selected < more else more == selected && Saturated(log, more)
  {
    grown, more := false, selected;
    var rest := log.ops.Keys;
    while rest != {}
      invariant Between(log, more) && selected <= more && rest <= log.ops.Keys
      invariant if grown then selected < more else more == selected
      invariant !grown ==> forall id | id in log.ops && id !in rest && log.ops[id].status == Superseded &&
                             log.ops[id].replacement in more :: id in more
      decreases rest
    {
      var id :| id in rest;
      rest := rest - {id};
      if log.ops[id].status == Superseded && log.ops[id].replacement in more && id !in more {
        more, grown := more + {id}, true;
      }
    }
  }

  lemma SaturatedIsFinished(log: Log, selected: set<Id>)
    requires Reloads(log) && Between(log, selected) && Saturated(log, selected)
    ensures forall id | id in log.ops :: id in selected <==> Finished(log, id)
  {
    forall id | id in log.ops && Finished(log, id) ensures id in selected {
      FinishedIsSelected(log, selected, id);
    }
  }

  lemma {:induction false} FinishedIsSelected(log: Log, selected: set<Id>, id: Id)
    requires Reloads(log) && Between(log, selected) && Saturated(log, selected) && id in log.ops && Finished(log, id)
    ensures id in selected
    decreases log.next - log.ops[id].sequence
  {
    if log.ops[id].status == Superseded {
      assert ValidReplacement(log, log.ops[id]) && ValidRecord(log, log.ops[id].replacement);
      FinishedIsSelected(log, selected, log.ops[id].replacement);
    }
  }

  lemma {:induction false} SubsetSize(a: set<Id>, b: set<Id>)
    requires a <= b
    ensures |a| <= |b|
    decreases a
  {
    if a != {} {
      var x :| x in a;
      SubsetSize(a - {x}, b - {x});
    }
  }

  lemma StrictSubsetSize(a: set<Id>, b: set<Id>)
    requires a < b
    ensures |a| < |b|
  {
    var x :| x in b && x !in a;
    SubsetSize(a, b - {x});
  }

  lemma KeysSize(ops: map<Id, Operation>, selected: set<Id>)
    requires selected <= ops.Keys
    ensures |ops - selected| == |ops| - |selected|
  {
    assert (ops - selected).Keys == ops.Keys - selected;
    assert ops.Keys == (ops.Keys - selected) + selected;
  }
}
