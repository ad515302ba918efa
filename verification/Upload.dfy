/**
 Uploading staged operations. Preparing freezes every unfinished operation of a view into a
 batch; completing or conflicting the batch moves exactly those operations, whatever else has
 been staged in the meantime.
 */
module Upload {
  import opened Wrappers
  import opened Journal

  datatype View = View(dataset: Id, branch: Id, root: Root, revision: nat, epoch: nat)

  predicate ValidView(view: View) {
    view.dataset != NONE && view.branch != NONE
  }

  /** An operation of the view's overlay. */
  predicate Mine(view: View, op: Operation) {
    && op.status != Superseded && op.intent.dataset == view.dataset && op.intent.branch == view.branch
    && op.intent.baseRoot == view.root && op.intent.baseRevision == view.revision && op.intent.epoch == view.epoch
  }

  /** The deterministic identity of a view and the intents replayed on it, ideal. */
  datatype Transaction = Transaction(view: View, intents: seq<(nat, Intent)>)

  function Identify(view: View, ops: seq<Operation>): Transaction {
    Transaction(view, seq(|ops|, i requires 0 <= i < |ops| => (ops[i].sequence, ops[i].intent)))
  }

  datatype UploadBatch = UploadBatch(view: View, transaction: Transaction, operations: seq<Operation>,
    pending: seq<Operation>)

  datatype Failure = NoPendingUpload | UploadConflict | StaleBatch | BadView

  // ----- Listing a view's operations -----

  ghost predicate Held(log: Log, view: View, op: Operation) {
    op.intent.operationId in log.ops && log.ops[op.intent.operationId] == op && Mine(view, op)
  }

  /** The view's operations in replay order. */
  ghost predicate IsListing(log: Log, view: View, ops: seq<Operation>) {
    && (forall op :: op in ops <==> Held(log, view, op))
    && (forall i, j | 0 <= i < j < |ops| :: ops[i].sequence < ops[j].sequence)
  }

  method Operations(log: Log, view: View) returns (ops: seq<Operation>)
    requires Reloads(log)
    ensures IsListing(log, view, ops)
  {
    ops := [];
    for n := 0 to log.next
      invariant forall op :: op in ops <==> Held(log, view, op) && op.sequence < n
      invariant forall i, j | 0 <= i < j < |ops| :: ops[i].sequence < ops[j].sequence
    {
      if id :| id in log.ops && log.ops[id].sequence == n {
        assert ValidRecord(log, id);
        if Mine(view, log.ops[id]) {
          ops := ops + [log.ops[id]];
        }
      }
    }
  }

  lemma ListingIsDistinct(log: Log, view: View, ops: seq<Operation>)
    requires IsListing(log, view, ops)
    ensures forall i, j | 0 <= i < j < |ops| :: ops[i].intent.operationId != ops[j].intent.operationId
  {
    forall i, j | 0 <= i < j < |ops| ensures ops[i].intent.operationId != ops[j].intent.operationId {
      assert ops[i] in ops && ops[j] in ops;
    }
  }

  // ----- Batches -----

  predicate Unfinished(op: Operation) {
    op.status == LocalDirty || op.status == OfflineOnly || op.status == PendingUpload
  }

  function IdsOf(ops: seq<Operation>): (ids: seq<Id>)
    ensures |ids| == |ops| && forall i | 0 <= i < |ops| :: ids[i] == ops[i].intent.operationId
  {
    seq(|ops|, i requires 0 <= i < |ops| => ops[i].intent.operationId)
  }

  predicate DistinctIds(ops: seq<Operation>) {
    forall i, j | 0 <= i < j < |ops| :: ops[i].intent.operationId != ops[j].intent.operationId
  }

  /** A batch as it is handed back: its identity is right, it holds only pending and completed
      operations, and its pending part is exactly the pending ones. */
  predicate ValidBatch(b: UploadBatch) {
    && ValidView(b.view) && b.operations != [] && b.pending != [] && b.transaction == Identify(b.view, b.operations)
    && DistinctIds(b.operations) && DistinctIds(b.pending)
    && (forall op | op in b.operations :: op.status == PendingUpload || (op.status == Completed && op.resultRoot.Some?))
    && (forall op | op in b.pending :: op in b.operations && op.status == PendingUpload)
    && (forall op | op in b.operations && op.status == PendingUpload :: op in b.pending)
  }

  /** The journal after every unfinished operation of the view is frozen, and the batch. */
  ghost predicate Prepared(before: Log, view: View, after: Log, b: UploadBatch) {
    && b.view == view && ValidBatch(b) && IsListing(after, view, b.operations)
    && OnlyStatus(before, after)
    && (forall id | id in before.ops ::
          if Mine(view, before.ops[id]) && Unfinished(before.ops[id])
          then after.ops[id] in b.pending && after.ops[id] == Moved(before.ops[id], Freeze)
          else after.ops[id] == before.ops[id])
    && (forall op | op in b.pending :: op.intent.operationId in before.ops)
  }

  lemma FreezeIsAllowed(log: Log, view: View, ops: seq<Operation>, chosen: seq<Operation>)
    requires Reloads(log) && IsListing(log, view, ops) && chosen != [] && DistinctIds(chosen)
    requires forall op :: op in chosen <==> op in ops && Unfinished(op)
    ensures BatchAllowed(log, IdsOf(chosen), Freeze)
  {
    forall id | id in IdsOf(chosen) ensures id != NONE && Refusal(log, id, Freeze).None? {
      var i :| 0 <= i < |chosen| && IdsOf(chosen)[i] == id;
      assert chosen[i] in chosen && Held(log, view, chosen[i]) && ValidRecord(log, id);
    }
  }

  lemma ChosenIds(log: Log, view: View, ops: seq<Operation>, chosen: seq<Operation>, id: Id)
    requires Reloads(log) && IsListing(log, view, ops) && id in log.ops
    requires forall op :: op in chosen <==> op in ops && Unfinished(op)
    ensures id in IdsOf(chosen) <==> Mine(view, log.ops[id]) && Unfinished(log.ops[id])
  {
    assert ValidRecord(log, id);
    var op := log.ops[id];
    if id in IdsOf(chosen) {
      var i :| 0 <= i < |chosen| && IdsOf(chosen)[i] == id;
      assert chosen[i] in chosen && Held(log, view, chosen[i]);
    }
    if Mine(view, op) && Unfinished(op) {
      assert Held(log, view, op) && op in chosen;
      var i :| 0 <= i < |chosen| && chosen[i] == op;
      assert IdsOf(chosen)[i] == id;
    }
  }

  /** Freezing the unfinished operations of a view without conflicts gives a valid batch. */
  lemma FrozenBatch(before: Log, view: View, ops: seq<Operation>, chosen: seq<Operation>, after: Log,
                    now: seq<Operation>, pending: seq<Operation>)
    requires Reloads(before) && ValidView(view) && IsListing(before, view, ops)
    requires forall op :: op in chosen <==> op in ops && Unfinished(op)
    requires chosen != [] && DistinctIds(chosen) && forall op | op in ops :: op.status != Conflicted
    requires after == Batch(before, IdsOf(chosen), Freeze)
    requires IsListing(after, view, now) && DistinctIds(pending)
    requires forall op :: op in pending <==> op in now && op.intent.operationId in IdsOf(chosen)
    ensures Prepared(before, view, after, UploadBatch(view, Identify(view, now), now, pending))
  {
    FreezeIsAllowed(before, view, ops, chosen);
    BatchReloads(before, IdsOf(chosen), Freeze);
    ListingIsDistinct(after, view, now);
    forall id | id in before.ops ensures FrozenRecord(before, view, after, pending, id) {
      FrozenRecordHolds(before, view, ops, chosen, after, now, pending, id);
    }
    forall op | op in now
      ensures op.intent.operationId in before.ops && FrozenStatus(op) && (op.status == PendingUpload ==> op in pending)
    {
      assert Held(after, view, op) && FrozenRecord(before, view, after, pending, op.intent.operationId);
      FrozenStatusHolds(before, view, ops, after, pending, op);
    }
    assert chosen[0] in chosen;
    assert Held(before, view, chosen[0]);
    var first := chosen[0].intent.operationId;
    assert FrozenRecord(before, view, after, pending, first);
    assert after.ops[first] in pending;
    forall op | op in pending ensures op.status == PendingUpload {
      var id := op.intent.operationId;
      assert op in now && Held(after, view, op);
      ChosenIds(before, view, ops, chosen, id);
    }
  }

  ghost predicate FrozenRecord(before: Log, view: View, after: Log, pending: seq<Operation>, id: Id) {
    id in before.ops && id in after.ops &&
    if Mine(view, before.ops[id]) && Unfinished(before.ops[id])
    then after.ops[id] in pending && after.ops[id] == Moved(before.ops[id], Freeze)
    else after.ops[id] == before.ops[id]
  }

  predicate FrozenStatus(op: Operation) {
    op.status == PendingUpload || (op.status == Completed && op.resultRoot.Some?)
  }

  lemma FrozenRecordHolds(before: Log, view: View, ops: seq<Operation>, chosen: seq<Operation>, after: Log,
                          now: seq<Operation>, pending: seq<Operation>, id: Id)
    requires Reloads(before) && IsListing(before, view, ops) && id in before.ops
    requires forall op :: op in chosen <==> op in ops && Unfinished(op)
    requires BatchAllowed(before, IdsOf(chosen), Freeze) && after == Batch(before, IdsOf(chosen), Freeze)
    requires IsListing(after, view, now)
    requires forall op :: op in pending <==> op in now && op.intent.operationId in IdsOf(chosen)
    ensures FrozenRecord(before, view, after, pending, id)
  {
    ChosenIds(before, view, ops, chosen, id);
    assert ValidRecord(before, id);
    if id in IdsOf(chosen) {
      assert Held(after, view, after.ops[id]);
    }
  }

  lemma FrozenStatusHolds(before: Log, view: View, ops: seq<Operation>, after: Log,
                          pending: seq<Operation>, op: Operation)
    requires Reloads(before) && IsListing(before, view, ops) && forall op | op in ops :: op.status != Conflicted
    requires op.intent.operationId in after.ops && after.ops[op.intent.operationId] == op && Mine(view, op)
    requires FrozenRecord(before, view, after, pending, op.intent.operationId)
    ensures FrozenStatus(op) && (op.status == PendingUpload ==> op in pending)
  {
    var was := before.ops[op.intent.operationId];
    assert ValidRecord(before, op.intent.operationId);
    assert Mine(view, was) ==> Held(before, view, was) && was in ops;
  }

  /** An operation was made on this view: dataset, branch, base root and revision, and epoch. */
  predicate MadeOn(view: View, intent: Intent) {
    View(intent.dataset, intent.branch, intent.baseRoot, intent.baseRevision, intent.epoch) == view
  }

  /** Preparing touches and returns only operations made on the view, and returns every one of
      them that is not superseded. */
  lemma PreparedIsOfTheView(before: Log, view: View, after: Log, b: UploadBatch, id: Id)
    requires Reloads(before) && Prepared(before, view, after, b) && id in before.ops
    ensures !MadeOn(view, before.ops[id].intent) ==> after.ops[id] == before.ops[id]
    ensures after.ops[id] in b.operations <==>
              MadeOn(view, before.ops[id].intent) && before.ops[id].status != Superseded
  {
    assert ValidRecord(before, id);
    assert after.ops[id] in b.operations <==> Held(after, view, after.ops[id]);
  }

  /** Two batches have the same transaction identity exactly if they replay the same intents, in
      the same places, on the same view. */
  lemma IdentityIsExact(a: View, ops: seq<Operation>, b: View, others: seq<Operation>)
    ensures Identify(a, ops) == Identify(b, others) <==>
            && a == b && |ops| == |others|
            && forall i | 0 <= i < |ops| :: ops[i].sequence == others[i].sequence && ops[i].intent == others[i].intent
  {
    if Identify(a, ops) == Identify(b, others) {
      forall i | 0 <= i < |ops| ensures ops[i].sequence == others[i].sequence && ops[i].intent == others[i].intent {
        assert Identify(a, ops).intents[i] == Identify(b, others).intents[i];
      }
    }
  }

  // ----- Settling a batch -----

  /** Still pending, or already where the batch is to go. */
  predicate Ready(op: Operation, to: Target) {
    || op.status == PendingUpload
    || (to.Complete? && op.status == Completed && op.resultRoot == Some(to.root))
    || (to.Conflict? && op.status == Conflicted && op.conflictId == to.id)
  }

  predicate ReadyRecord(log: Log, view: View, expected: Operation, to: Target) {
    && expected.intent.operationId in log.ops
    && var op := log.ops[expected.intent.operationId];
       Mine(view, op) && op.sequence == expected.sequence && op.intent == expected.intent && Ready(op, to)
  }

  predicate Snapshot(log: Log, b: UploadBatch, to: Target) {
    forall op | op in b.pending :: ReadyRecord(log, b.view, op, to)
  }

  predicate MaySettle(log: Log, b: UploadBatch, to: Target) {
    ValidBatch(b) && (to.Complete? || to.Conflict?) && to.WellFormed() && Snapshot(log, b, to)
  }

  /** Completing or conflicting a batch, all of it or nothing. */
  function Settle(log: Log, b: UploadBatch, to: Target): Log {
    if MaySettle(log, b, to) then Batch(log, IdsOf(b.pending), to) else log
  }

  lemma SettleIsAllowed(log: Log, b: UploadBatch, to: Target)
    requires Reloads(log) && MaySettle(log, b, to)
    ensures BatchAllowed(log, IdsOf(b.pending), to)
  {
    forall id | id in IdsOf(b.pending) ensures id != NONE && Refusal(log, id, to).None? {
      var i :| 0 <= i < |b.pending| && IdsOf(b.pending)[i] == id;
      assert b.pending[i] in b.pending && ReadyRecord(log, b.view, b.pending[i], to) && ValidRecord(log, id);
    }
  }

  /** The journal with exactly the batch's pending operations brought to the target. */
  ghost predicate Settled(log: Log, b: UploadBatch, to: Target, after: Log) {
    && after == log.(ops := after.ops) && after.ops.Keys == log.ops.Keys
    && (forall op | op in b.pending :: op.intent.operationId in log.ops)
    && forall id | id in log.ops ::
         if id in IdsOf(b.pending) then Reached(log.ops[id], to, after.ops[id]) else after.ops[id] == log.ops[id]
  }

  lemma SettleOutcome(log: Log, b: UploadBatch, to: Target)
    requires Reloads(log) && MaySettle(log, b, to)
    ensures Settled(log, b, to, Settle(log, b, to))
  {
    SettleIsAllowed(log, b, to);
    BatchOutcome(log, IdsOf(b.pending), to);
    forall op | op in b.pending ensures op.intent.operationId in log.ops {
      assert ReadyRecord(log, b.view, op, to);
    }
  }

  /** A batch may be settled either way right after it was prepared. */
  lemma PreparedMaySettle(before: Log, view: View, after: Log, b: UploadBatch, to: Target)
    requires Prepared(before, view, after, b) && (to.Complete? || to.Conflict?) && to.WellFormed()
    ensures MaySettle(after, b, to)
  {
    forall op | op in b.pending ensures ReadyRecord(after, b.view, op, to) {
      assert op in b.operations && Held(after, view, op);
    }
  }

  /** Out of the uploader's hands: completed, conflicted, superseded or pruned. */
  predicate Closed(log: Log, id: Id) {
    id in log.usedOps && (id in log.ops ==> Final(log.ops[id].status))
  }

  lemma SettleCloses(log: Log, b: UploadBatch, to: Target, id: Id)
    requires Reloads(log) && MaySettle(log, b, to) && id in IdsOf(b.pending)
    ensures Closed(Settle(log, b, to), id)
  {
    SettleIsAllowed(log, b, to);
    assert Refusal(log, id, to).None? && ValidRecord(log, id);
  }

  lemma ClosedSettlesNothing(log: Log, b: UploadBatch, to: Target)
    requires Reloads(log) && forall id | id in IdsOf(b.pending) :: Closed(log, id)
    ensures Settle(log, b, to) == log
  {
    if MaySettle(log, b, to) {
      SettleIsAllowed(log, b, to);
      forall id | id in log.ops && id in IdsOf(b.pending) ensures Moved(log.ops[id], to) == log.ops[id] {
        assert Closed(log, id) && Refusal(log, id, to).None?;
      }
      assert MovedAll(log.ops, IdsOf(b.pending), to) == log.ops;
    }
  }

  /** A journal run in which step `i` is the settling of `b` as `to`. */
  ghost predicate SettledAt(logs: seq<Log>, steps: seq<Step>, i: nat, b: UploadBatch, to: Target) {
    && Run(logs, steps) && i < |steps|
    && steps[i] == DoBatch(IdsOf(b.pending), to) && MaySettle(logs[i], b, to)
  }

  lemma StaysClosed(logs: seq<Log>, steps: seq<Step>, i: nat, j: nat, b: UploadBatch, to: Target, id: Id)
    requires SettledAt(logs, steps, i, b, to) && i < j < |logs| && id in IdsOf(b.pending)
    ensures Closed(logs[j], id)
  {
    RunReloads(logs, steps, i);
    SettleCloses(logs[i], b, to, id);
    assert logs[i + 1] == Settle(logs[i], b, to);
    RunIsLater(logs, steps, i + 1, j);
    RunKeepsFinal(logs, steps, i + 1, j, id);
  }

  /**
   A batch is settled once. Whatever happens afterwards, settling it again, the same way or
   with another result, changes nothing.
   */
  lemma SettledOnce(logs: seq<Log>, steps: seq<Step>, i: nat, j: nat, b: UploadBatch, to: Target, again: Target)
    requires SettledAt(logs, steps, i, b, to) && i < j < |logs|
    ensures Settle(logs[j], b, again) == logs[j]
  {
    RunReloads(logs, steps, j);
    forall id | id in IdsOf(b.pending) ensures Closed(logs[j], id) {
      StaysClosed(logs, steps, i, j, b, to, id);
    }
    ClosedSettlesNothing(logs[j], b, again);
  }

  // ----- Repeating a completion -----

  /** Completed with result `root`, or pruned since. */
  ghost predicate Recorded(log: Log, expected: Operation, root: Root) {
    var id := expected.intent.operationId;
    && id in log.usedOps
    && (id in log.ops ==> log.ops[id] == expected.(status := Completed, resultRoot := Some(root)))
  }

  lemma CompletionRecords(log: Log, b: UploadBatch, root: Root, op: Operation)
    requires Reloads(log) && MaySettle(log, b, Complete(root)) && op in b.pending
    ensures Recorded(Settle(log, b, Complete(root)), log.ops[op.intent.operationId], root)
  {
    SettleIsAllowed(log, b, Complete(root));
    var i :| 0 <= i < |b.pending| && b.pending[i] == op;
    var id := IdsOf(b.pending)[i];
    assert id in IdsOf(b.pending);
    assert ReadyRecord(log, b.view, op, Complete(root)) && ValidRecord(log, id);
  }

  lemma StaysRecorded(logs: seq<Log>, steps: seq<Step>, i: nat, j: nat, b: UploadBatch, root: Root, op: Operation)
    requires SettledAt(logs, steps, i, b, Complete(root)) && i < j < |logs| && op in b.pending
    ensures op.intent.operationId in logs[i].ops && Recorded(logs[j], logs[i].ops[op.intent.operationId], root)
  {
    RunReloads(logs, steps, i);
    assert ReadyRecord(logs[i], b.view, op, Complete(root));
    CompletionRecords(logs[i], b, root, op);
    assert logs[i + 1] == Settle(logs[i], b, Complete(root));
    RunIsLater(logs, steps, i + 1, j);
    RunKeepsFinal(logs, steps, i + 1, j, op.intent.operationId);
  }

  /**
   Repeating a completion succeeds exactly with the same result root, as long as the journal
   still holds the batch's operations.
   */
  lemma RepeatedCompletion(logs: seq<Log>, steps: seq<Step>, i: nat, j: nat, b: UploadBatch, root: Root, again: Target)
    requires SettledAt(logs, steps, i, b, Complete(root)) && i < j < |logs|
    requires forall id | id in IdsOf(b.pending) :: id in logs[j].ops
    ensures MaySettle(logs[j], b, again) <==> again == Complete(root)
  {
    forall op | op in b.pending ensures ReadyRecord(logs[j], b.view, op, again) <==> again == Complete(root) {
      StaysRecorded(logs, steps, i, j, b, root, op);
      assert ReadyRecord(logs[i], b.view, op, Complete(root));
      var k :| 0 <= k < |b.pending| && b.pending[k] == op;
      assert IdsOf(b.pending)[k] in logs[j].ops;
    }
    assert b.pending[0] in b.pending;
  }

  // ----- Interleaving -----

  /**
   A batch prepared at step `i` may be settled at any later point exactly when each of its
   operations is still there and still pending (or already where it is to go); settling then
   moves those operations and no other, in particular none staged after the batch.
   */
  lemma SettlesExactlyItsOwn(logs: seq<Log>, steps: seq<Step>, i: nat, j: nat, view: View, b: UploadBatch, to: Target)
    requires Run(logs, steps) && i < j < |logs| && Prepared(logs[i], view, logs[i + 1], b)
    requires (to.Complete? || to.Conflict?) && to.WellFormed()
    ensures MaySettle(logs[j], b, to) <==>
              forall id | id in IdsOf(b.pending) :: id in logs[j].ops && Ready(logs[j].ops[id], to)
    ensures var after := Settle(logs[j], b, to);
            && OnlyStatus(logs[j], after)
            && (forall id | id in logs[j].ops && (id !in IdsOf(b.pending) || id !in logs[i].ops) ::
              after.ops[id] == logs[j].ops[id])
            && (MaySettle(logs[j], b, to) ==>
                  forall id | id in IdsOf(b.pending) ::
                    id in after.ops && after.ops[id].status == to.Status() && Ready(after.ops[id], to))
  {
    RunReloads(logs, steps, j);
    RunIsLater(logs, steps, i + 1, j);
    forall op | op in b.pending
      ensures ReadyRecord(logs[j], view, op, to) <==>
                op.intent.operationId in logs[j].ops && Ready(logs[j].ops[op.intent.operationId], to)
    {
      KnownIsReady(logs[i], logs[i + 1], logs[j], view, b, op, to);
    }
    ReadyByIds(logs[j], b, to);
    SettleMoves(logs[j], b, to);
    PendingWereThere(logs[i], view, logs[i + 1], b);
  }

  /** Whether an operation of a prepared batch can still be settled depends on its status alone. */
  lemma KnownIsReady(before: Log, prepared: Log, later: Log, view: View, b: UploadBatch, op: Operation, to: Target)
    requires Prepared(before, view, prepared, b) && Later(prepared, later) && op in b.pending
    requires to.Complete? || to.Conflict?
    ensures ReadyRecord(later, view, op, to) <==>
            op.intent.operationId in later.ops && Ready(later.ops[op.intent.operationId], to)
  {
    assert op in b.operations && Held(prepared, view, op);
  }

  lemma PendingWereThere(before: Log, view: View, prepared: Log, b: UploadBatch)
    requires Prepared(before, view, prepared, b)
    ensures forall id | id in IdsOf(b.pending) :: id in before.ops
  {
    forall id | id in IdsOf(b.pending) ensures id in before.ops {
      var k :| 0 <= k < |b.pending| && IdsOf(b.pending)[k] == id;
      assert b.pending[k] in b.pending;
    }
  }

  lemma ReadyByIds(log: Log, b: UploadBatch, to: Target)
    requires forall op | op in b.pending :: ReadyRecord(log, b.view, op, to) <==>
               op.intent.operationId in log.ops && Ready(log.ops[op.intent.operationId], to)
    ensures Snapshot(log, b, to) <==> forall id | id in IdsOf(b.pending) :: id in log.ops && Ready(log.ops[id], to)
  {
    if Snapshot(log, b, to) {
      forall id | id in IdsOf(b.pending) ensures id in log.ops && Ready(log.ops[id], to) {
        var k :| 0 <= k < |b.pending| && IdsOf(b.pending)[k] == id;
        assert b.pending[k] in b.pending;
      }
    }
    if forall id | id in IdsOf(b.pending) :: id in log.ops && Ready(log.ops[id], to) {
      forall op | op in b.pending ensures ReadyRecord(log, b.view, op, to) {
        var k :| 0 <= k < |b.pending| && b.pending[k] == op;
        assert IdsOf(b.pending)[k] == op.intent.operationId;
      }
    }
  }

  lemma SettleMoves(log: Log, b: UploadBatch, to: Target)
    requires Reloads(log) && to.WellFormed()
    ensures var after := Settle(log, b, to);
            && OnlyStatus(log, after)
            && (forall id | id in log.ops && id !in IdsOf(b.pending) :: after.ops[id] == log.ops[id])
            && (MaySettle(log, b, to) ==>
                  forall id | id in IdsOf(b.pending) ::
                    id in after.ops && after.ops[id].status == to.Status() && Ready(after.ops[id], to))
  {
    BatchReloads(log, IdsOf(b.pending), to);
    if MaySettle(log, b, to) {
      SettleIsAllowed(log, b, to);
      forall id | id in IdsOf(b.pending) ensures id in log.ops && Ready(Moved(log.ops[id], to), to) {
        assert Refusal(log, id, to).None?;
      }
    }
  }

  // ----- The service -----

  class Service {
    const journal: Store

    constructor (journal: Store)
      ensures this.journal == journal
    {
      this.journal := journal;
    }

    /**
     Freezes every unfinished operation of the view and returns the batch; a conflicted one in
     the view refuses, and nothing is frozen then.
     */
    method PrepareUpload(view: View) returns (r: Result<UploadBatch, Failure>)
      requires Reloads(journal.state)
      modifies journal
      ensures Reloads(journal.state)
      ensures r.Ok? ==> Prepared(old(journal.state), view, journal.state, r.value)
      ensures r.Ok? <==>
                && ValidView(view) && (exists op :: Held(old(journal.state), view, op) && Unfinished(op))
                && forall op | Held(old(journal.state), view, op) :: op.status != Conflicted
      ensures r.Err? ==> journal.state == old(journal.state)
      ensures r == Err(BadView) <==> !ValidView(view)
      ensures r == Err(UploadConflict) <==>
                ValidView(view) && exists op :: Held(old(journal.state), view, op) && op.status == Conflicted
      ensures r == Err(NoPendingUpload) <==>
                && ValidView(view)
                && !exists op :: Held(old(journal.state), view, op) && (op.status == Conflicted || Unfinished(op))
    {
      if !ValidView(view) {
        return Err(BadView);
      }
      var ops := Operations(journal.state, view);
      ListingIsDistinct(journal.state, view, ops);
      var conflict, chosen := Choose(ops);
      if conflict {
        return Err(UploadConflict);
      }
      if chosen == [] {
        assert forall op | Held(journal.state, view, op) && Unfinished(op) :: op in chosen;
        return Err(NoPendingUpload);
      }
      ghost var before := journal.state;
      assert chosen[0] in chosen && Held(before, view, chosen[0]) && Unfinished(chosen[0]);
      FreezeIsAllowed(before, view, ops, chosen);
      var frozen := journal.MoveBatch(IdsOf(chosen), Freeze);
      var now := Operations(journal.state, view);
      ListingIsDistinct(journal.state, view, now);
      var pending := OnlyIds(now, IdsOf(chosen));
      FrozenBatch(before, view, ops, chosen, journal.state, now, pending);
      return Ok(UploadBatch(view, Identify(view, now), now, pending));
    }

    /** Moves the batch's operations, if each is still what the batch says. */
    method SettleBatch(b: UploadBatch, to: Target) returns (ok: bool)
      requires Reloads(journal.state) && (to.Complete? || to.Conflict?)
      modifies journal
      ensures Reloads(journal.state)
      ensures ok <==> MaySettle(old(journal.state), b, to)
      ensures journal.state == Settle(old(journal.state), b, to)
    {
      var valid := ValidateUploadBatch(b);
      if !valid {
        return false;
      }
      var current := Operations(journal.state, b.view);
      ok := RequireTargetSnapshot(journal.state, b.view, current, b.pending, to);
      if !ok || !to.WellFormed() {
        return false;
      }
      SettleIsAllowed(journal.state, b, to);
      ok := journal.MoveBatch(IdsOf(b.pending), to);
    }

    /** A candidate equal to the batch's base is refused. */
    method CompleteUpload(b: UploadBatch, candidate: Root) returns (ok: bool)
      requires Reloads(journal.state)
      modifies journal
      ensures Reloads(journal.state)
      ensures ok <==> candidate != b.view.root && MaySettle(old(journal.state), b, Complete(candidate))
      ensures journal.state == if ok then Settle(old(journal.state), b, Complete(candidate)) else old(journal.state)
    {
      if candidate == b.view.root {
        return false;
      }
      ok := SettleBatch(b, Complete(candidate));
    }

    method CompleteNoChange(b: UploadBatch) returns (ok: bool)
      requires Reloads(journal.state)
      modifies journal
      ensures Reloads(journal.state)
      ensures ok <==> MaySettle(old(journal.state), b, Complete(b.view.root))
      ensures journal.state == Settle(old(journal.state), b, Complete(b.view.root))
    {
      ok := SettleBatch(b, Complete(b.view.root));
    }

    method MarkUploadConflicted(b: UploadBatch, conflictId: Id) returns (ok: bool)
      requires Reloads(journal.state)
      modifies journal
      ensures Reloads(journal.state)
      ensures ok <==> MaySettle(old(journal.state), b, Conflict(conflictId))
      ensures journal.state == Settle(old(journal.state), b, Conflict(conflictId))
    {
      ok := SettleBatch(b, Conflict(conflictId));
    }
  }

  method Choose(ops: seq<Operation>) returns (conflict: bool, chosen: seq<Operation>)
    requires DistinctIds(ops)
    ensures conflict <==> exists op :: op in ops && op.status == Conflicted
    ensures !conflict ==> DistinctIds(chosen) && forall op :: op in chosen <==> op in ops && Unfinished(op)
  {
    chosen := [];
    for i := 0 to |ops|
      invariant forall op | op in ops[..i] :: op.status != Conflicted
      invariant forall op :: op in chosen <==> op in ops[..i] && Unfinished(op)
      invariant DistinctIds(chosen)
    {
      if ops[i].status == Conflicted {
        return true, chosen;
      }
      if Unfinished(ops[i]) {
        forall k | 0 <= k < |chosen| ensures chosen[k].intent.operationId != ops[i].intent.operationId {
          assert chosen[k] in chosen;
        }
        chosen := chosen + [ops[i]];
      }
    }
    assert ops[..|ops|] == ops;
    conflict := false;
  }

  method OnlyIds(ops: seq<Operation>, ids: seq<Id>) returns (kept: seq<Operation>)
    requires DistinctIds(ops)
    ensures DistinctIds(kept) && forall op :: op in kept <==> op in ops && op.intent.operationId in ids
  {
    kept := [];
    for i := 0 to |ops|
      invariant forall op :: op in kept <==> op in ops[..i] && op.intent.operationId in ids
      invariant DistinctIds(kept)
    {
      if ops[i].intent.operationId in ids {
        forall k | 0 <= k < |kept| ensures kept[k].intent.operationId != ops[i].intent.operationId {
          assert kept[k] in kept;
        }
        kept := kept + [ops[i]];
      }
    }
    assert ops[..|ops|] == ops;
  }

  method RequireTargetSnapshot(ghost log: Log, view: View, current: seq<Operation>, pending: seq<Operation>, to: Target)
    returns (ok: bool)
    requires Reloads(log) && IsListing(log, view, current)
    ensures ok <==> forall op | op in pending :: ReadyRecord(log, view, op, to)
  {
    var byId := IndexById(log, view, current);
    for i := 0 to |pending|
      invariant forall op | op in pending[..i] :: ReadyRecord(log, view, op, to)
    {
      var expected := pending[i];
      var id := expected.intent.operationId;
      FoundById(log, view, current, byId, id);
      if id !in byId || byId[id].sequence != expected.sequence || byId[id].intent != expected.intent ||
        !Ready(byId[id], to) {
        assert !ReadyRecord(log, view, pending[i], to);
        return false;
      }
    }
    assert pending[..|pending|] == pending;
    ok := true;
  }

  method IndexById(ghost log: Log, view: View, current: seq<Operation>) returns (byId: map<Id, Operation>)
    requires IsListing(log, view, current)
    ensures forall op | op in current :: op.intent.operationId in byId && byId[op.intent.operationId] == op
    ensures forall id | id in byId :: byId[id] in current && byId[id].intent.operationId == id
  {
    byId := map[];
    ListingIsDistinct(log, view, current);
    for i := 0 to |current|
      invariant forall k | 0 <= k < i ::
          current[k].intent.operationId in byId && byId[current[k].intent.operationId] == current[k]
      invariant forall id | id in byId :: byId[id] in current && byId[id].intent.operationId == id
    {
      byId := byId[current[i].intent.operationId := current[i]];
    }
  }

  lemma FoundById(log: Log, view: View, current: seq<Operation>, byId: map<Id, Operation>, id: Id)
    requires Reloads(log) && IsListing(log, view, current)
    requires forall op | op in current :: op.intent.operationId in byId && byId[op.intent.operationId] == op
    requires forall id | id in byId :: byId[id] in current && byId[id].intent.operationId == id
    ensures id in byId <==> id in log.ops && Mine(view, log.ops[id])
    ensures id in byId ==> byId[id] == log.ops[id]
  {
    if id in byId {
      assert Held(log, view, byId[id]);
    }
    if id in log.ops && Mine(view, log.ops[id]) {
      assert ValidRecord(log, id) && Held(log, view, log.ops[id]);
    }
  }

  // ----- Validating a batch -----

  /** The operations met so far by identity, and the identities of the pending ones. */
  ghost predicate Collected(ops: seq<Operation>, byId: map<Id, Operation>, expected: set<Id>) {
    && (forall op | op in ops :: op.intent.operationId in byId && byId[op.intent.operationId] == op)
    && (forall id | id in byId :: byId[id] in ops && byId[id].intent.operationId == id)
    && expected == set id | id in byId && byId[id].status == PendingUpload
  }

  method CollectOperations(ops: seq<Operation>) returns (ok: bool, byId: map<Id, Operation>, expected: set<Id>)
    ensures ok <==> DistinctIds(ops) && forall op | op in ops :: FrozenStatus(op)
    ensures ok ==> Collected(ops, byId, expected)
  {
    byId, expected := map[], {};
    for i := 0 to |ops|
      invariant DistinctIds(ops[..i]) && (forall op | op in ops[..i] :: FrozenStatus(op))
      invariant Collected(ops[..i], byId, expected)
    {
      var op := ops[i];
      var id := op.intent.operationId;
      if id in byId {
        ghost var k :| 0 <= k < i && ops[k] == byId[id];
        assert ops[k].intent.operationId == ops[i].intent.operationId;
        return false, byId, expected;
      }
      if !FrozenStatus(op) {
        return false, byId, expected;
      }
      assert ops[..i + 1] == ops[..i] + [op];
      assert forall k | 0 <= k < i :: ops[k] in ops[..i];
      byId := byId[id := op];
      if op.status == PendingUpload {
        expected := expected + {id};
      }
    }
    assert ops[..|ops|] == ops;
    ok := true;
  }

  method CheckPending(ghost ops: seq<Operation>, byId: map<Id, Operation>, expected: set<Id>, pending: seq<Operation>)
    returns (ok: bool, seen: set<Id>)
    requires Collected(ops, byId, expected)
    ensures ok <==> DistinctIds(pending) && forall op | op in pending :: op in ops && op.status == PendingUpload
    ensures ok ==> seen <= expected && seen == set op | op in pending :: op.intent.operationId
  {
    seen := {};
    for i := 0 to |pending|
      invariant DistinctIds(pending[..i]) && forall op | op in pending[..i] :: op in ops && op.status == PendingUpload
      invariant seen <= expected && seen == set op | op in pending[..i] :: op.intent.operationId
    {
      var op := pending[i];
      var id := op.intent.operationId;
      if id in seen {
        ghost var other :| other in pending[..i] && other.intent.operationId == id;
        ghost var k :| 0 <= k < i && pending[k] == other;
        assert pending[k].intent.operationId == pending[i].intent.operationId;
        return false, seen;
      }
      if id !in byId || id !in expected || byId[id] != op {
        return false, seen;
      }
      assert pending[..i + 1] == pending[..i] + [op];
      assert forall k | 0 <= k < i :: pending[k] in pending[..i] && pending[k].intent.operationId in seen;
      seen := seen + {id};
    }
    assert pending[..|pending|] == pending;
    ok := true;
  }

  method ValidateUploadBatch(b: UploadBatch) returns (ok: bool)
    ensures ok <==> ValidBatch(b)
  {
    if !ValidView(b.view) || b.operations == [] || b.pending == [] || b.transaction != Identify(b.view, b.operations) {
      return false;
    }
    var fine, byId, expected := CollectOperations(b.operations);
    if !fine {
      return false;
    }
    var matching, seen := CheckPending(b.operations, byId, expected, b.pending);
    if !matching {
      return false;
    }
    SameSize(seen, expected);
    ok := |seen| == |expected|;
    AllPending(b, byId, expected, seen);
  }

  lemma AllPending(b: UploadBatch, byId: map<Id, Operation>, expected: set<Id>, seen: set<Id>)
    requires Collected(b.operations, byId, expected) && seen == set op | op in b.pending :: op.intent.operationId
    requires forall op | op in b.pending :: op in b.operations && op.status == PendingUpload
    ensures seen == expected <==> forall op | op in b.operations && op.status == PendingUpload :: op in b.pending
  {
    if seen == expected {
      forall op | op in b.operations && op.status == PendingUpload ensures op in b.pending {
        assert op.intent.operationId in seen;
      }
    }
    if forall op | op in b.operations && op.status == PendingUpload :: op in b.pending {
      forall id | id in expected ensures id in seen {
        assert byId[id] in b.pending;
      }
    }
  }

  lemma SameSize(a: set<Id>, b: set<Id>)
    requires a <= b
    ensures a == b <==> |a| == |b|
  {
    if a != b { StrictSubsetSize(a, b); }
  }
}
