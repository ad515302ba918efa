/**
 Replaying staged operations against the accepted root, interleaved with promotions of that
 root, with staging and with other write-back workers. Every event is one step under one lock:
 a journal step, a trust-store step, or a journal step under the trust store's fence.
 */
module WriteBack {
  import opened Wrappers
  import opened Journal
  import opened Upload
  import Trust

  /** Where a worker is in a replay. */
  datatype Control =
    | Idle
    | Checked(view: View)
    | Batched(view: View, batch: UploadBatch)
    | Unchanged(view: View, batch: UploadBatch)
    | Persisted(view: View, batch: UploadBatch, root: Root)
    | Stored(view: View, batch: UploadBatch, root: Root)
    | Beaten(view: View, batch: UploadBatch)
    | Conflicting(view: View, batch: UploadBatch)

  datatype World = World(log: Log, roots: Trust.RootState, workers: map<nat, Control>)

  datatype Event =
    /** The accepted root is the view's root. */
    | Begin(w: nat, view: View)
    | Prepare(w: nat, after: Log, batch: UploadBatch)
    /** The planner's answer; a root other than the base has also been persisted remotely. */
    | Planned(w: nat, root: Root)
    /** Completion without a candidate, under the fence. */
    | CompleteUnchanged(w: nat)
    | ObserveCandidate(w: nat)
    /** Completion with a recorded candidate, under the fence. */
    | CompleteCandidate(w: nat)
    /** After losing to a promotion, the accepted root is read again. */
    | Reread(w: nat)
    | MarkConflicted(w: nat, conflictId: Id)
    /** An error return or a crash. */
    | Stop(w: nat)
    | Promote(promotion: Trust.Step)
    | Stage(step: Step)

  predicate IsWorker(e: Event) {
    !e.Promote? && !e.Stage?
  }

  function At(world: World, w: nat): Control {
    if w in world.workers then world.workers[w] else Idle
  }

  function Go(world: World, w: nat, c: Control): World {
    world.(workers := world.workers[w := c])
  }

  /** Nothing outside write-back completes an operation. */
  predicate Completing(step: Step) {
    (step.DoTransition? || step.DoBatch?) && step.to.Complete?
  }

  ghost predicate Enabled(world: World, e: Event) {
    match e
    case Begin(w, view) => At(world, w).Idle? && world.roots.accepted == Some(view.root)
    case Prepare(w, after, batch) => At(world, w).Checked? && Prepared(world.log, At(world, w).view, after, batch)
    case Planned(w, _) => At(world, w).Batched?
    case CompleteUnchanged(w) => At(world, w).Unchanged?
    case ObserveCandidate(w) => At(world, w).Persisted?
    case CompleteCandidate(w) => At(world, w).Stored?
    case Reread(w) => At(world, w).Beaten?
    case MarkConflicted(w, c) => At(world, w).Conflicting? && c != NONE
    case Stop(_) => true
    case Promote(_) => true
    case Stage(step) => !Completing(step)
  }

  function Next(world: World, e: Event): World
    requires Enabled(world, e)
  {
    match e
    case Begin(w, view) => Go(world, w, Checked(view))
    case Prepare(w, after, batch) => Go(world.(log := after), w, Batched(At(world, w).view, batch))
    case Planned(w, root) =>
      var c := At(world, w);
      Go(world, w, if root == c.view.root then Unchanged(c.view, c.batch) else Persisted(c.view, c.batch, root))
    case CompleteUnchanged(w) =>
      var c := At(world, w);
      if world.roots.accepted == Some(c.view.root) then
        Go(world.(log := Settle(world.log, c.batch, Complete(c.batch.view.root))), w, Idle)
      else Go(world, w, Conflicting(c.view, c.batch))
    case ObserveCandidate(w) =>
      var c := At(world, w);
      var r := Trust.AddCandidate(world.roots, c.root, Some(c.view.root));
      if r.Ok? then Go(world.(roots := r.value), w, Stored(c.view, c.batch, c.root))
      else Go(world, w, Beaten(c.view, c.batch))
    case CompleteCandidate(w) =>
      var c := At(world, w);
      if world.roots.accepted == Some(c.view.root) then
        Go(world.(log := if c.root == c.batch.view.root
          then world.log else Settle(world.log, c.batch, Complete(c.root))), w, Idle)
      else Go(world, w, Conflicting(c.view, c.batch))
    case Reread(w) =>
      var c := At(world, w);
      Go(world, w, if world.roots.accepted == Some(c.view.root) then Idle else Conflicting(c.view, c.batch))
    case MarkConflicted(w, conflict) =>
      Go(world.(log := Settle(world.log, At(world, w).batch, Conflict(conflict))), w, Idle)
    case Stop(w) => Go(world, w, Idle)
    case Promote(step) => world.(roots := Trust.Take(world.roots, step))
    case Stage(step) => world.(log := Journal.Take(world.log, step))
  }

  // ----- What every step keeps -----

  ghost predicate Coherent(c: Control) {
    && (c.Batched? || c.Unchanged? || c.Persisted? || c.Stored? || c.Beaten? || c.Conflicting? ==>
      c.batch.view == c.view)
    && (c.Persisted? || c.Stored? ==> c.root != c.view.root)
  }

  ghost predicate Inv(world: World) {
    && Reloads(world.log) && Trust.Valid(world.roots)
    && forall w | w in world.workers :: Coherent(world.workers[w])
  }

  lemma SettleReloads(log: Log, b: UploadBatch, to: Target)
    requires Reloads(log)
    ensures Reloads(Settle(log, b, to))
  {
    BatchReloads(log, IdsOf(b.pending), to);
  }

  lemma LogInv(world: World, e: Event)
    requires Inv(world) && Enabled(world, e)
    ensures Reloads(Next(world, e).log)
  {
    match e
    case Prepare(w, after, batch) => OnlyStatusReloads(world.log, after);
    case CompleteUnchanged(w) => SettleReloads(world.log, At(world, w).batch, Complete(At(world, w).batch.view.root));
    case CompleteCandidate(w) => SettleReloads(world.log, At(world, w).batch, Complete(At(world, w).root));
    case MarkConflicted(w, c) => SettleReloads(world.log, At(world, w).batch, Conflict(c));
    case Stage(step) => Journal.StepReloads(world.log, step);
    case _ =>
  }

  lemma RootsInv(world: World, e: Event)
    requires Inv(world) && Enabled(world, e)
    ensures Trust.Valid(Next(world, e).roots)
  {
    match e
    case ObserveCandidate(w) =>
      Trust.StepKeeps(world.roots, Trust.DoAddCandidate(At(world, w).root, Some(At(world, w).view.root)));
    case Promote(step) => Trust.StepKeeps(world.roots, step);
    case _ =>
  }

  lemma StepInv(world: World, e: Event)
    requires Inv(world) && Enabled(world, e)
    ensures Inv(Next(world, e))
  {
    LogInv(world, e);
    RootsInv(world, e);
    forall w | w in Next(world, e).workers ensures Coherent(Next(world, e).workers[w]) {
      assert w in world.workers ==> Coherent(world.workers[w]);
    }
  }

  // ----- Runs -----

  ghost predicate Run(worlds: seq<World>, events: seq<Event>) {
    && |worlds| == |events| + 1 && worlds[0] == World(EMPTY, Trust.UNKNOWN, map[])
    && forall i {:trigger events[i]} | 0 <= i < |events| ::
         Enabled(worlds[i], events[i]) && worlds[i + 1] == Next(worlds[i], events[i])
  }

  /** At some point up to `i`, `root` stood as a candidate on `base` while `base` was accepted. */
  ghost predicate WasCandidate(worlds: seq<World>, i: nat, root: Root, base: Root) {
    exists k :: 0 <= k <= i < |worlds| && CandidateOn(worlds[k], root, base)
  }

  predicate CandidateOn(world: World, root: Root, base: Root) {
    world.roots.accepted == Some(base) && Trust.Candidate(root, Some(base)) in world.roots.candidates
  }

  /** Event `b` began the replay that worker `w` is still in at `i`, its view's root being the
      accepted one then. */
  ghost predicate BeganAt(worlds: seq<World>, events: seq<Event>, i: nat, w: nat, b: nat) {
    && b < i < |worlds| && i <= |events| && events[b].Begin? && events[b].w == w
    && worlds[b].roots.accepted == Some(events[b].view.root)
    && forall m | b < m <= i :: !At(worlds[m], w).Idle? && At(worlds[m], w).view == events[b].view
  }

  lemma {:induction false} RunInv(worlds: seq<World>, events: seq<Event>, i: nat)
    requires Run(worlds, events) && i < |worlds|
    ensures Inv(worlds[i])
    decreases i
  {
    if i > 0 {
      RunInv(worlds, events, i - 1);
      StepInv(worlds[i - 1], events[i - 1]);
    }
  }

  /** How a worker can come to hold a recorded candidate, or to have lost. */
  lemma NewControl(world: World, e: Event, w: nat)
    requires Inv(world) && Enabled(world, e)
    ensures var c := At(Next(world, e), w);
            && (c.Stored? ==> c == At(world, w) || CandidateOn(Next(world, e), c.root, c.view.root))
            && (c.Beaten? ==> c == At(world, w) || world.roots.accepted != Some(c.view.root))
            && (c.Conflicting? ==> c == At(world, w) || world.roots.accepted != Some(c.view.root))
  {
    if e.ObserveCandidate? && e.w == w {
      assert Coherent(world.workers[w]);
    }
  }

  lemma NewControlIn(worlds: seq<World>, events: seq<Event>, i: nat, w: nat)
    requires Run(worlds, events) && i < |events|
    ensures var before, after := At(worlds[i], w), At(worlds[i + 1], w);
            && (after.Stored? ==> after == before || CandidateOn(worlds[i + 1], after.root, after.view.root))
            && (after.Beaten? || after.Conflicting? ==>
                  after == before || worlds[i].roots.accepted != Some(after.view.root))
  {
    RunInv(worlds, events, i);
    NewControl(worlds[i], events[i], w);
  }

  lemma {:induction false} StoredWasCandidate(worlds: seq<World>, events: seq<Event>, i: nat, w: nat)
    requires Run(worlds, events) && i < |worlds| && At(worlds[i], w).Stored?
    ensures WasCandidate(worlds, i, At(worlds[i], w).root, At(worlds[i], w).view.root)
    decreases i
  {
    assert i > 0;
    var c := At(worlds[i], w);
    NewControlIn(worlds, events, i - 1, w);
    if c == At(worlds[i - 1], w) {
      StoredWasCandidate(worlds, events, i - 1, w);
      var k :| 0 <= k <= i - 1 && CandidateOn(worlds[k], c.root, c.view.root);
    } else {
      assert CandidateOn(worlds[i], c.root, c.view.root);
    }
  }

  lemma StepKeepsView(world: World, e: Event, w: nat)
    requires Enabled(world, e) && !At(Next(world, e), w).Idle?
    ensures var before, after := At(world, w), At(Next(world, e), w);
            if before.Idle? then e == Begin(w, after.view) && world.roots.accepted == Some(after.view.root)
            else after.view == before.view
  {}

  /** A worker in a replay began it on its view while the view's root was accepted. */
  lemma {:induction false} WorkerBegan(worlds: seq<World>, events: seq<Event>, i: nat, w: nat) returns (b: nat)
    requires Run(worlds, events) && i < |worlds| && !At(worlds[i], w).Idle?
    ensures BeganAt(worlds, events, i, w, b) && events[b].view == At(worlds[i], w).view
    decreases i
  {
    assert i > 0;
    StepKeepsView(worlds[i - 1], events[i - 1], w);
    if At(worlds[i - 1], w).Idle? {
      b := i - 1;
    } else {
      b := WorkerBegan(worlds, events, i - 1, w);
    }
  }

  /** A worker that has lost saw its root accepted when it began, and another root accepted at
      some point of the same replay. */
  lemma {:induction false} LoserWasBeaten(worlds: seq<World>, events: seq<Event>, i: nat, w: nat)
    returns (b: nat, k: nat)
    requires Run(worlds, events) && i < |worlds| && (At(worlds[i], w).Conflicting? || At(worlds[i], w).Beaten?)
    ensures BeganAt(worlds, events, i, w, b) && events[b].view == At(worlds[i], w).view
    ensures b < k < i && worlds[k].roots.accepted != Some(events[b].view.root)
    decreases i
  {
    assert i > 0;
    NewControlIn(worlds, events, i - 1, w);
    if At(worlds[i], w) == At(worlds[i - 1], w) {
      b, k := LoserWasBeaten(worlds, events, i - 1, w);
    } else {
      b := WorkerBegan(worlds, events, i, w);
      k := i - 1;
    }
  }

  // ----- The fence -----

  /** Operation `id` got status `status` in going from `before` to `after`. */
  predicate Becomes(before: Log, after: Log, id: Id, status: Status) {
    id in after.ops && after.ops[id].status == status && !(id in before.ops && before.ops[id].status == status)
  }

  /** What settling a batch makes of an operation that was not there yet. */
  lemma SettledOperation(log: Log, b: UploadBatch, to: Target, id: Id, status: Status)
    requires Reloads(log) && (to.Complete? || to.Conflict?) && to.WellFormed()
    requires Becomes(log, Settle(log, b, to), id, status)
    ensures status == to.Status()
    ensures var op := Settle(log, b, to).ops[id];
            op.intent.baseRoot == b.view.root && (to.Complete? ==> op.resultRoot == Some(to.root))
  {
    SettleIsAllowed(log, b, to);
    assert id in IdsOf(b.pending);
    var i :| 0 <= i < |b.pending| && IdsOf(b.pending)[i] == id;
    assert b.pending[i] in b.pending && ReadyRecord(log, b.view, b.pending[i], to);
    assert Refusal(log, id, to).None?;
  }

  /** Staging, freezing and resolving complete nothing. */
  lemma StagingCompletesNothing(log: Log, step: Step, id: Id)
    requires Reloads(log) && !Completing(step)
    ensures !Becomes(log, Journal.Take(log, step), id, Completed)
  {
    match step
    case DoAppend(intent, initial) =>
    case DoTransition(other, to) =>
    case DoBatch(ids, to) =>
    case DoResolve(other, intent, initial) =>
    case DoPrune =>
  }

  /** The step that completes an operation is a worker's, under the fence. */
  lemma CompletingStep(world: World, e: Event, id: Id)
    requires Inv(world) && Enabled(world, e) && Becomes(world.log, Next(world, e).log, id, Completed)
    ensures e.CompleteUnchanged? || e.CompleteCandidate?
    ensures var op := Next(world, e).log.ops[id];
            && world.roots.accepted == Some(op.intent.baseRoot) && Next(world, e).roots == world.roots
            && (e.CompleteUnchanged? ==> op.resultRoot == Some(op.intent.baseRoot))
            && (e.CompleteCandidate? ==>
                  op.resultRoot == Some(At(world, e.w).root) && op.intent.baseRoot == At(world, e.w).view.root)
  {
    match e
    case CompleteUnchanged(w) =>
      assert Coherent(world.workers[w]);
      SettledOperation(world.log, At(world, w).batch, Complete(At(world, w).batch.view.root), id, Completed);
    case CompleteCandidate(w) =>
      assert Coherent(world.workers[w]);
      SettledOperation(world.log, At(world, w).batch, Complete(At(world, w).root), id, Completed);
    case MarkConflicted(w, c) =>
      SettledOperation(world.log, At(world, w).batch, Conflict(c), id, Completed);
      assert false;
    case Prepare(w, after, batch) => PreparingCompletesNothing(world.log, At(world, w).view, after, batch, id);
    case Stage(step) => StagingCompletesNothing(world.log, step, id);
    case _ =>
  }

  lemma PreparingCompletesNothing(before: Log, view: View, after: Log, batch: UploadBatch, id: Id)
    requires Prepared(before, view, after, batch)
    ensures !Becomes(before, after, id, Completed)
  {}

  /**
   In every interleaving, an operation becomes completed only while its base is the accepted
   root, with a result that is that base or was recorded earlier as a candidate on it.
   */
  lemma CompletedUnderFence(worlds: seq<World>, events: seq<Event>, i: nat, id: Id)
    requires Run(worlds, events) && i < |events| && Becomes(worlds[i].log, worlds[i + 1].log, id, Completed)
    ensures var op := worlds[i + 1].log.ops[id];
            && worlds[i].roots.accepted == worlds[i + 1].roots.accepted == Some(op.intent.baseRoot)
            && op.resultRoot.Some?
            && (op.resultRoot.value == op.intent.baseRoot ||
              WasCandidate(worlds, i, op.resultRoot.value, op.intent.baseRoot))
  {
    RunInv(worlds, events, i);
    CompletingStep(worlds[i], events[i], id);
    if events[i].CompleteCandidate? {
      StoredWasCandidate(worlds, events, i, events[i].w);
    }
  }

  /** Write-back never changes the accepted root. */
  lemma WriteBackNeverAccepts(world: World, e: Event)
    requires Enabled(world, e) && !e.Promote?
    ensures Next(world, e).roots.accepted == world.roots.accepted &&
              Next(world, e).roots.previous == world.roots.previous
    ensures forall c | c in Next(world, e).roots.candidates && c !in world.roots.candidates ::
              e.ObserveCandidate? && c.base == world.roots.accepted
  {}

  /** A worker marks an operation conflicted only if the operation's base was the accepted root
      when its replay began and was not at some later point of that replay. */
  lemma ConflictIsReal(worlds: seq<World>, events: seq<Event>, i: nat, id: Id) returns (b: nat, k: nat)
    requires Run(worlds, events) && i < |events| && IsWorker(events[i])
    requires Becomes(worlds[i].log, worlds[i + 1].log, id, Conflicted)
    ensures var base := worlds[i + 1].log.ops[id].intent.baseRoot;
            && b < k < i && BeganAt(worlds, events, i, events[i].w, b) && events[b].view.root == base
            && worlds[b].roots.accepted == Some(base) && worlds[k].roots.accepted != Some(base)
  {
    RunInv(worlds, events, i);
    var world, e := worlds[i], events[i];
    ConflictingStep(world, e, id);
    b, k := LoserWasBeaten(worlds, events, i, e.w);
  }

  lemma ConflictingStep(world: World, e: Event, id: Id)
    requires Inv(world) && Enabled(world, e) && IsWorker(e) && Becomes(world.log, Next(world, e).log, id, Conflicted)
    ensures e.MarkConflicted? && Next(world, e).log.ops[id].intent.baseRoot == At(world, e.w).view.root
  {
    match e
    case CompleteUnchanged(w) =>
      SettledOperation(world.log, At(world, w).batch, Complete(At(world, w).batch.view.root), id, Conflicted);
      assert false;
    case CompleteCandidate(w) =>
      SettledOperation(world.log, At(world, w).batch, Complete(At(world, w).root), id, Conflicted);
      assert false;
    case MarkConflicted(w, c) =>
      assert Coherent(world.workers[w]);
      SettledOperation(world.log, At(world, w).batch, Conflict(c), id, Conflicted);
    case _ =>
  }

  // ----- A replay left alone -----

  /** Taking `events` one after the other leads from `world` to `after`. */
  ghost predicate Leads(world: World, events: seq<Event>, after: World)
    decreases events
  {
    if events == [] then after == world
    else Enabled(world, events[0]) && Leads(Next(world, events[0]), events[1..], after)
  }

  lemma LeadsFirst(world: World, e: Event, rest: seq<Event>, after: World)
    requires Enabled(world, e) && Leads(Next(world, e), rest, after)
    ensures Leads(world, [e] + rest, after)
  {
    assert ([e] + rest)[1..] == rest;
  }

  /** The end of a replay: exactly the batch's pending operations got there, and the worker is
      free again. */
  ghost predicate Replayed(log: Log, batch: UploadBatch, to: Target, w: nat, after: World) {
    Settled(log, batch, to, after.log) && At(after, w).Idle?
  }

  lemma UnchangedCompletes(world: World, w: nat)
    requires Reloads(world.log) && At(world, w).Unchanged? && world.roots.accepted == Some(At(world, w).view.root)
    requires At(world, w).batch.view == At(world, w).view
    requires MaySettle(world.log, At(world, w).batch, Complete(At(world, w).view.root))
    ensures var after := Next(world, CompleteUnchanged(w));
            && Leads(world, [CompleteUnchanged(w)], after) && after.roots == world.roots
            && Replayed(world.log, At(world, w).batch, Complete(At(world, w).view.root), w, after)
  {
    SettleOutcome(world.log, At(world, w).batch, Complete(At(world, w).view.root));
    assert [CompleteUnchanged(w)][1..] == [];
  }

  /** A candidate that is still in time is recorded, and the batch completed with it. */
  lemma CandidateCompletes(world: World, w: nat) returns (after: World)
    requires Reloads(world.log) && At(world, w).Persisted? && world.roots.accepted == Some(At(world, w).view.root)
    requires At(world, w).batch.view == At(world, w).view && At(world, w).root != At(world, w).view.root
    requires MaySettle(world.log, At(world, w).batch, Complete(At(world, w).root))
    ensures Leads(world, [ObserveCandidate(w), CompleteCandidate(w)], after)
    ensures Replayed(world.log, At(world, w).batch, Complete(At(world, w).root), w, after)
    ensures CandidateOn(after, At(world, w).root, At(world, w).view.root)
  {
    var c, observe, complete := At(world, w), ObserveCandidate(w), CompleteCandidate(w);
    var stored := Next(world, observe);
    Trust.CandidateIsRecorded(world.roots, c.root, Some(c.view.root), Trust.Candidate(c.root, Some(c.view.root)));
    after := Next(stored, complete);
    SettleOutcome(world.log, c.batch, Complete(c.root));
    assert Leads(after, [], after);
    LeadsFirst(stored, complete, [], after);
    LeadsFirst(world, observe, [complete], after);
    assert [observe] + [complete] == [observe, complete] && [complete] + [] == [complete];
  }

  lemma ConflictCompletes(world: World, w: nat, conflictId: Id)
    requires Reloads(world.log) && At(world, w).Conflicting? && conflictId != NONE
    requires MaySettle(world.log, At(world, w).batch, Conflict(conflictId))
    ensures var after := Next(world, MarkConflicted(w, conflictId));
            && Leads(world, [MarkConflicted(w, conflictId)], after)
            && Replayed(world.log, At(world, w).batch, Conflict(conflictId), w, after)
  {
    SettleOutcome(world.log, At(world, w).batch, Conflict(conflictId));
    assert [MarkConflicted(w, conflictId)][1..] == [];
  }

  /** A worker that comes too late goes on to mark the conflict, changing nothing on the way. */
  lemma LateIsConflicting(world: World, w: nat) returns (events: seq<Event>, after: World)
    requires At(world, w).Unchanged? || At(world, w).Persisted?
    requires world.roots.accepted != Some(At(world, w).view.root)
    ensures Leads(world, events, after)
    ensures after == Go(after, w, Conflicting(At(world, w).view, At(world, w).batch))
    ensures after.log == world.log && after.roots == world.roots && forall e | e in events :: !e.Promote? && !e.Stage?
  {
    var c := At(world, w);
    if c.Unchanged? {
      events, after := [CompleteUnchanged(w)], Next(world, CompleteUnchanged(w));
      assert events[1..] == [];
    } else {
      var beaten := Next(world, ObserveCandidate(w));
      assert At(beaten, w) == Beaten(c.view, c.batch);
      events, after := [ObserveCandidate(w), Reread(w)], Next(beaten, Reread(w));
      assert Leads(after, [], after);
      LeadsFirst(beaten, Reread(w), [], after);
      LeadsFirst(world, ObserveCandidate(w), [Reread(w)], after);
      assert [ObserveCandidate(w)] + [Reread(w)] == events && [Reread(w)] + [] == [Reread(w)];
    }
  }

  function Starting(w: nat, view: View, prepared: Log, batch: UploadBatch, root: Root): seq<Event> {
    [Begin(w, view), Prepare(w, prepared, batch), Planned(w, root)]
  }

  /** Where a worker is once its plan is made. */
  function Planning(world: World, w: nat, view: View, prepared: Log, batch: UploadBatch, root: Root): World {
    var c := if root == view.root then Unchanged(view, batch) else Persisted(view, batch, root);
    World(prepared, world.roots, world.workers[w := c])
  }

  lemma StartsReplay(world: World, w: nat, view: View, prepared: Log, batch: UploadBatch, root: Root,
                     rest: seq<Event>, after: World)
    requires At(world, w).Idle? && world.roots.accepted == Some(view.root)
    requires Prepared(world.log, view, prepared, batch)
    requires Leads(Planning(world, w, view, prepared, batch, root), rest, after)
    ensures Leads(world, Starting(w, view, prepared, batch, root) + rest, after)
  {
    var begin, prepare, plan := Begin(w, view), Prepare(w, prepared, batch), Planned(w, root);
    var begun := Next(world, begin);
    var batched := Next(begun, prepare);
    assert Next(batched, plan) == Planning(world, w, view, prepared, batch, root) by {
      assert At(begun, w) == Checked(view) && At(batched, w) == Batched(view, batch);
      assert world.workers[w := Checked(view)][w := Batched(view, batch)] == world.workers[w := Batched(view, batch)];
      assert Next(batched, plan).workers == Planning(world, w, view, prepared, batch, root).workers;
    }
    LeadsFirst(batched, plan, rest, after);
    LeadsFirst(begun, prepare, [plan] + rest, after);
    LeadsFirst(world, begin, [prepare] + ([plan] + rest), after);
    assert Starting(w, view, prepared, batch, root) + rest == [begin] + ([prepare] + ([plan] + rest));
  }

  /**
   From every state, a replay left alone on the accepted root completes exactly the operations
   its batch froze, with the planned root, which is recorded as a candidate if it is a new one.
   */
  lemma ReplayCompletes(world: World, w: nat, view: View, prepared: Log, batch: UploadBatch, root: Root)
    returns (events: seq<Event>, after: World)
    requires Reloads(world.log) && At(world, w).Idle? && world.roots.accepted == Some(view.root)
    requires Prepared(world.log, view, prepared, batch)
    ensures Leads(world, events, after) && Replayed(prepared, batch, Complete(root), w, after)
    ensures if root == view.root then after.roots == world.roots else CandidateOn(after, root, view.root)
  {
    var planned := Planning(world, w, view, prepared, batch, root);
    OnlyStatusReloads(world.log, prepared);
    PreparedMaySettle(world.log, view, prepared, batch, Complete(root));
    var rest;
    if root == view.root {
      rest, after := [CompleteUnchanged(w)], Next(planned, CompleteUnchanged(w));
      UnchangedCompletes(planned, w);
    } else {
      rest := [ObserveCandidate(w), CompleteCandidate(w)];
      after := CandidateCompletes(planned, w);
    }
    events := Starting(w, view, prepared, batch, root) + rest;
    StartsReplay(world, w, view, prepared, batch, root, rest, after);
  }

  lemma {:induction false} LeadsOn(world: World, first: seq<Event>, mid: World, second: seq<Event>, after: World)
    requires Leads(world, first, mid) && Leads(mid, second, after)
    ensures Leads(world, first + second, after)
    decreases first
  {
    if first == [] {
      assert first + second == second;
    } else {
      LeadsOn(Next(world, first[0]), first[1..], mid, second, after);
      assert (first + second)[1..] == first[1..] + second;
    }
  }

  /** If another root is promoted before it can complete, the replay ends with exactly those
      operations conflicted. */
  lemma ReplayConflicts(world: World, w: nat, view: View, prepared: Log, batch: UploadBatch, root: Root,
                        other: Root, conflictId: Id)
    returns (events: seq<Event>, after: World)
    requires Reloads(world.log) && At(world, w).Idle? && world.roots.accepted == Some(view.root)
    requires Prepared(world.log, view, prepared, batch) && other != view.root && conflictId != NONE
    ensures Leads(world, events, after) && Replayed(prepared, batch, Conflict(conflictId), w, after)
    ensures after.roots.accepted == Some(other)
  {
    var promote, mark := Promote(Trust.DoTrust(other)), MarkConflicted(w, conflictId);
    var planned := Planning(world, w, view, prepared, batch, root);
    var promoted := Next(planned, promote);
    OnlyStatusReloads(world.log, prepared);
    PreparedMaySettle(world.log, view, prepared, batch, Conflict(conflictId));
    var late, lost := LateIsConflicting(promoted, w);
    ConflictCompletes(lost, w, conflictId);
    after := Next(lost, mark);
    LeadsOn(promoted, late, lost, [mark], after);
    LeadsFirst(planned, promote, late + [mark], after);
    events := Starting(w, view, prepared, batch, root) + ([promote] + (late + [mark]));
    StartsReplay(world, w, view, prepared, batch, root, [promote] + (late + [mark]), after);
  }

  /** If by the time it looks again its root has been accepted again, the worker gives up without
      marking anything. */
  lemma BeatenReturns(world: World, w: nat, view: View, prepared: Log, batch: UploadBatch, root: Root, other: Root)
    returns (events: seq<Event>, after: World)
    requires At(world, w).Idle? && world.roots.accepted == Some(view.root) && root != view.root
    requires Prepared(world.log, view, prepared, batch) && other != view.root
    ensures Leads(world, events, after)
    ensures after.log == prepared && At(after, w).Idle? && after.roots.accepted == Some(view.root)
  {
    var leave, observe, back := Promote(Trust.DoTrust(other)), ObserveCandidate(w), Promote(Trust.DoTrust(view.root));
    var planned := Planning(world, w, view, prepared, batch, root);
    var left := Next(planned, leave);
    var beaten := Next(left, observe);
    assert At(beaten, w) == Beaten(view, batch);
    var returned := Next(beaten, back);
    after := Next(returned, Reread(w));
    assert Leads(after, [], after);
    LeadsFirst(returned, Reread(w), [], after);
    LeadsFirst(beaten, back, [Reread(w)] + [], after);
    LeadsFirst(left, observe, [back] + ([Reread(w)] + []), after);
    LeadsFirst(planned, leave, [observe] + ([back] + ([Reread(w)] + [])), after);
    var rest := [leave] + ([observe] + ([back] + ([Reread(w)] + [])));
    events := Starting(w, view, prepared, batch, root) + rest;
    StartsReplay(world, w, view, prepared, batch, root, rest, after);
  }

  // ----- A run that completes -----

  const STAGED := Intent(1, 1, 1, 1, 1, 0, Mkdir, 1, NONE, None, 0)
  const VIEW := View(1, 1, 1, 0, 0)

  function Holding(op: Operation): Log {
    Log(2, map[1 := op], {1}, {1})
  }

  function StagedOperation(status: Status): Operation {
    Operation(STAGED, 1, status, NONE, None, NONE)
  }

  function StagedBatch(): UploadBatch {
    var ops := [StagedOperation(PendingUpload)];
    UploadBatch(VIEW, Identify(VIEW, ops), ops, ops)
  }

  lemma StagedIsPrepared()
    ensures Prepared(Holding(StagedOperation(LocalDirty)), VIEW, Holding(StagedOperation(PendingUpload)), StagedBatch())
  {
    var op := StagedOperation(PendingUpload);
    forall other ensures other in [op] <==> Held(Holding(op), VIEW, other) {}
  }

  lemma StagedSettles(root: Root)
    ensures Becomes(Holding(StagedOperation(PendingUpload)),
                    Settle(Holding(StagedOperation(PendingUpload)), StagedBatch(), Complete(root)), 1, Completed)
  {
    var log, b := Holding(StagedOperation(PendingUpload)), StagedBatch();
    assert ReadyRecord(log, VIEW, b.pending[0], Complete(root));
    assert MaySettle(log, b, Complete(root));
    assert IdsOf(b.pending) == [1];
    assert Refusal(log, 1, Complete(root)).None?;
    assert BatchAllowed(log, [1], Complete(root));
  }

  lemma RunExtends(worlds: seq<World>, events: seq<Event>, e: Event)
    requires Run(worlds, events) && Enabled(worlds[|events|], e)
    ensures Run(worlds + [Next(worlds[|events|], e)], events + [e])
  {
    var more, all := worlds + [Next(worlds[|events|], e)], events + [e];
    forall i | 0 <= i < |all| ensures Enabled(more[i], all[i]) && more[i + 1] == Next(more[i], all[i]) {
      if i < |events| {
        assert all[i] == events[i] && more[i] == worlds[i] && more[i + 1] == worlds[i + 1];
      }
    }
  }

  const TRUSTED := Trust.AcceptRoot(Trust.UNKNOWN, 1)

  lemma StagingStarts() returns (worlds: seq<World>, events: seq<Event>)
    ensures Run(worlds, events)
    ensures worlds[|events|] == World(Holding(StagedOperation(LocalDirty)), TRUSTED, map[])
  {
    worlds, events := [World(EMPTY, Trust.UNKNOWN, map[])], [];
    RunExtends(worlds, events, Promote(Trust.DoTrust(1)));
    worlds, events := worlds + [Next(worlds[0], Promote(Trust.DoTrust(1)))], events + [Promote(Trust.DoTrust(1))];
    assert worlds[1] == World(EMPTY, TRUSTED, map[]);
    var append := DoAppend(STAGED, LocalDirty);
    assert Journal.Take(EMPTY, append) == Holding(StagedOperation(LocalDirty));
    RunExtends(worlds, events, Stage(append));
    worlds, events := worlds + [Next(worlds[1], Stage(append))], events + [Stage(append)];
  }

  lemma WorkerPrepares() returns (worlds: seq<World>, events: seq<Event>)
    ensures Run(worlds, events)
    ensures worlds[|events|] ==
            World(Holding(StagedOperation(PendingUpload)), TRUSTED, map[0 := Persisted(VIEW, StagedBatch(), 2)])
  {
    worlds, events := StagingStarts();
    var w := worlds[|events|];
    var begin, prepare := Begin(0, VIEW), Prepare(0, Holding(StagedOperation(PendingUpload)), StagedBatch());
    RunExtends(worlds, events, begin);
    worlds, events := worlds + [Next(w, begin)], events + [begin];
    StagedIsPrepared();
    w := worlds[|events|];
    RunExtends(worlds, events, prepare);
    worlds, events := worlds + [Next(w, prepare)], events + [prepare];
    w := worlds[|events|];
    assert At(w, 0) == Batched(VIEW, StagedBatch());
    RunExtends(worlds, events, Planned(0, 2));
    worlds, events := worlds + [Next(w, Planned(0, 2))], events + [Planned(0, 2)];
    assert worlds[|events|].workers == map[0 := Persisted(VIEW, StagedBatch(), 2)];
  }

  /** The theorem above is about something: here is a run in which an operation is completed. */
  lemma CompletionHappens() returns (worlds: seq<World>, events: seq<Event>)
    ensures Run(worlds, events) && |events| > 0
    ensures Becomes(worlds[|events| - 1].log, worlds[|events|].log, 1, Completed)
  {
    worlds, events := WorkerPrepares();
    var w := worlds[|events|];
    RunExtends(worlds, events, ObserveCandidate(0));
    worlds, events := worlds + [Next(w, ObserveCandidate(0))], events + [ObserveCandidate(0)];
    w := worlds[|events|];
    assert At(w, 0) == Stored(VIEW, StagedBatch(), 2) && w.roots.accepted == Some(1);
    RunExtends(worlds, events, CompleteCandidate(0));
    worlds, events := worlds + [Next(w, CompleteCandidate(0))], events + [CompleteCandidate(0)];
    StagedSettles(2);
  }
}
