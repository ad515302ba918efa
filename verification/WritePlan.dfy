/**
 Preparing and persisting a write plan. Candidates are staged locally; a plan keeps those the
 final root needs, dependencies first, and persisting sends blocks in bounded batches and then
 the candidates in order to a remote that may fail at any call.
 */
module WritePlan {
  import opened Wrappers

  type Id = nat

  /** A candidate root, the root it edits and the targets it binds. `sound` is what content
      validation says of it. */
  datatype Candidate = Candidate(root: Id, previous: Id, targets: seq<Id>, sound: bool)
  {
    function Deps(): seq<Id> { [previous] + targets }
  }

  /** A block with the size of its local bytes, and whether they match the identity when read
      first and when read again. */
  datatype Block = Block(id: Id, size: nat, intact: bool, stillIntact: bool)

  datatype Plan = Plan(base: Id, root: Id, candidates: seq<Candidate>, blocks: seq<Block>)

  // ----- Reachability -----

  predicate Walkable(known: map<Id, Candidate>, source: set<Id>, k: Id) {
    k in known && k !in source
  }

  ghost predicate IsPath(known: map<Id, Candidate>, source: set<Id>, p: seq<Id>) {
    && p != []
    && (forall i | 0 <= i < |p| :: Walkable(known, source, p[i]))
    && (forall i | 0 < i < |p| :: p[i] in known[p[i - 1]].Deps())
  }

  /** A staged candidate reached from `root` without passing a source before-image. */
  ghost predicate Reaches(known: map<Id, Candidate>, source: set<Id>, root: Id, k: Id) {
    exists p :: IsPath(known, source, p) && p[0] == root && p[|p| - 1] == k
  }

  ghost predicate Closed(known: map<Id, Candidate>, source: set<Id>, s: set<Id>, within: set<Id>) {
    forall k, d | k in s && k in known && d in known[k].Deps() && Walkable(known, source, d) :: d in within
  }

  lemma ReachesSelf(known: map<Id, Candidate>, source: set<Id>, root: Id)
    requires Walkable(known, source, root)
    ensures Reaches(known, source, root, root)
  {
    assert IsPath(known, source, [root]);
  }

  lemma ReachesNext(known: map<Id, Candidate>, source: set<Id>, root: Id, k: Id)
    requires Walkable(known, source, root) && k in known[root].Deps()
    ensures forall m | Reaches(known, source, k, m) :: Reaches(known, source, root, m)
  {
    forall m | Reaches(known, source, k, m) ensures Reaches(known, source, root, m) {
      var p :| IsPath(known, source, p) && p[0] == k && p[|p| - 1] == m;
      assert IsPath(known, source, [root] + p);
    }
  }

  lemma {:induction false} ClosedHoldsPath(known: map<Id, Candidate>, source: set<Id>, s: set<Id>, p: seq<Id>)
    requires IsPath(known, source, p) && p[0] in s && Closed(known, source, s, s)
    ensures p[|p| - 1] in s
    decreases p
  {
    if |p| > 1 {
      assert p[1] in s;
      var rest := p[1..];
      assert forall i | 0 < i < |rest| :: rest[i] == p[i + 1] && rest[i - 1] == p[i];
      ClosedHoldsPath(known, source, s, rest);
    }
  }

  // ----- Plans -----

  function Filter(candidates: seq<Candidate>, needed: set<Id>): (r: seq<Candidate>)
    ensures forall c :: c in r <==> c in candidates && c.root in needed
  {
    if candidates == [] then []
    else
      var init, last := candidates[..|candidates| - 1], candidates[|candidates| - 1];
      if last.root in needed then Filter(init, needed) + [last] else Filter(init, needed)
  }

  predicate Distinct(candidates: seq<Candidate>) {
    forall i, j | 0 <= i < j < |candidates| :: candidates[i].root != candidates[j].root
  }

  /** Whatever a candidate depends on is either not in the list or earlier in it. */
  predicate DependenciesFirst(candidates: seq<Candidate>) {
    forall i, j | 0 <= i <= j < |candidates| :: candidates[j].root !in candidates[i].Deps()
  }

  predicate RootLast(candidates: seq<Candidate>, root: Id) {
    candidates == [] || candidates[|candidates| - 1].root == root
  }

  predicate Valid(p: Plan) {
    && (forall c | c in p.candidates :: c.sound)
    && Distinct(p.candidates) && DependenciesFirst(p.candidates) && RootLast(p.candidates, p.root)
  }

  /** `sub` are entries of `all` in their order, `at` being their positions. */
  ghost predicate InOrder(sub: seq<Candidate>, all: seq<Candidate>, at: seq<nat>) {
    && |at| == |sub|
    && (forall i | 0 <= i < |sub| :: at[i] < |all| && sub[i] == all[at[i]])
    && (forall i, j | 0 <= i < j < |sub| :: at[i] < at[j])
  }

  lemma OrderExtends(sub: seq<Candidate>, all: seq<Candidate>, at: seq<nat>, last: Candidate)
    requires InOrder(sub, all, at)
    ensures InOrder(sub, all + [last], at) && InOrder(sub + [last], all + [last], at + [|all|])
  {}

  lemma {:induction false} FilterInOrder(candidates: seq<Candidate>, needed: set<Id>) returns (at: seq<nat>)
    ensures InOrder(Filter(candidates, needed), candidates, at)
    decreases candidates
  {
    if candidates == [] {
      at := [];
    } else {
      var init, last := candidates[..|candidates| - 1], candidates[|candidates| - 1];
      at := FilterInOrder(init, needed);
      OrderExtends(Filter(init, needed), init, at, last);
      if last.root in needed {
        at := at + [|candidates| - 1];
      }
      assert candidates == init + [last];
    }
  }

  /** If every candidate was staged after what it depends on, a plan for a root keeps that order
      and ends with the root. */
  lemma FilteredOrder(candidates: seq<Candidate>, needed: set<Id>)
    requires Distinct(candidates)
    ensures Distinct(Filter(candidates, needed))
    ensures DependenciesFirst(candidates) ==> DependenciesFirst(Filter(candidates, needed))
  {
    var at := FilterInOrder(candidates, needed);
  }

  /** `roots` finds every staged candidate; all are sound and no root is staged twice. */
  ghost predicate Indexed(candidates: seq<Candidate>, roots: map<Id, nat>) {
    && Distinct(candidates)
    && (forall i | 0 <= i < |candidates| :: candidates[i].root in roots && roots[candidates[i].root] == i)
    && (forall k | k in roots :: roots[k] < |candidates| && candidates[roots[k]].root == k)
    && (forall c | c in candidates :: c.sound)
  }

  ghost function KnownOf(candidates: seq<Candidate>, roots: map<Id, nat>): map<Id, Candidate>
    requires Indexed(candidates, roots)
  {
    map k | k in roots :: candidates[roots[k]]
  }

  ghost function ReachedFrom(known: map<Id, Candidate>, source: set<Id>, root: Id): set<Id> {
    set k | k in known && Reaches(known, source, root, k)
  }

  /** The plan a root calls for: the staged candidates it reaches, in staging order. */
  ghost function PlanFor(candidates: seq<Candidate>, roots: map<Id, nat>, source: set<Id>, blocks: seq<Block>,
                         base: Id, root: Id): Plan
    requires Indexed(candidates, roots)
  {
    Plan(base, root, Filter(candidates, ReachedFrom(KnownOf(candidates, roots), source, root)), blocks)
  }

  /** No source to read before-images from, or what it answers (nothing also for a failure). */
  datatype Source = NoSource | Answers(candidate: Option<Candidate>)

  /** A root that was read from the source is in no plan, whatever sibling was staged for it. */
  lemma SourceIsNotPlanned(candidates: seq<Candidate>, roots: map<Id, nat>, source: set<Id>, blocks: seq<Block>,
                           base: Id, root: Id, c: Candidate)
    requires Indexed(candidates, roots) && c in PlanFor(candidates, roots, source, blocks, base, root).candidates
    ensures c.root !in source
  {
    var known := KnownOf(candidates, roots);
    var p :| IsPath(known, source, p) && p[0] == root && p[|p| - 1] == c.root;
  }

  class Staging {
    var candidates: seq<Candidate>
    var roots: map<Id, nat>
    var sourceRoots: set<Id>
    var keys: seq<Block>

    ghost predicate Consistent()
      reads this
    {
      Indexed(candidates, roots)
    }

    ghost function Known(): map<Id, Candidate>
      requires Consistent()
      reads this
    {
      KnownOf(candidates, roots)
    }

    constructor ()
      ensures Consistent() && candidates == [] && sourceRoots == {} && keys == []
    {
      candidates, roots, sourceRoots, keys := [], map[], {}, [];
    }

    /** The first candidate staged for a root stays; an unsound one is refused. */
    method MaterializeAuthentication(c: Candidate) returns (r: Option<Id>)
      requires Consistent()
      modifies this
      ensures Consistent() && sourceRoots == old(sourceRoots) && keys == old(keys)
      ensures r == if c.sound then Some(c.root) else None
      ensures candidates == old(candidates) + if c.sound && c.root !in old(roots) then [c] else []
    {
      if !c.sound {
        return None;
      }
      if c.root !in roots {
        roots := roots[c.root := |candidates|];
        candidates := candidates + [c];
      }
      return Some(c.root);
    }

    /** The before-image of a root. A source is asked when there is one, and an answer for
        another root is refused; a root read from the source is from then on not planned. */
    method BeforeImage(root: Id, source: Source) returns (r: Option<Candidate>)
      requires Consistent()
      modifies this`sourceRoots
      ensures Consistent() && old(sourceRoots) <= sourceRoots <= old(sourceRoots) + {root}
      ensures r.Some? ==> r.value.root == root
      ensures source.NoSource? ==>
                sourceRoots == old(sourceRoots) && r == if root in Known() then Some(Known()[root]) else None
      ensures source.Answers? ==>
                && (r.Some? <==> source.candidate.Some? && source.candidate.value.root == root)
                && (r.Some? ==> r == source.candidate && root in sourceRoots)
                && (r.None? ==> sourceRoots == old(sourceRoots))
    {
      if source.NoSource? {
        return if root in roots then Some(candidates[roots[root]]) else None;
      }
      if source.candidate.None? || source.candidate.value.root != root {
        return None;
      }
      sourceRoots := sourceRoots + {root};
      return source.candidate;
    }

    /** Adds to `needed` what is reachable from `key`. */
    method Visit(key: Id, needed: set<Id>) returns (after: set<Id>)
      requires Consistent()
      ensures needed <= after
      ensures Walkable(Known(), sourceRoots, key) ==> key in after
      ensures forall k | k in after && k !in needed :: k in Known() && Reaches(Known(), sourceRoots, key, k)
      ensures Closed(Known(), sourceRoots, after - needed, after)
      decreases roots.Keys - needed
    {
      if key in needed || key in sourceRoots || key !in roots {
        return needed;
      }
      after := needed + {key};
      var candidate := candidates[roots[key]];
      ghost var known, source := Known(), sourceRoots;
      ReachesSelf(known, source, key);
      after := VisitOne(key, candidate, candidate.previous, needed, after);
      assert candidate.previous in candidate.Deps();
      for i := 0 to |candidate.targets|
        invariant needed + {key} <= after
        invariant forall k | k in after && k !in needed :: k in known && Reaches(known, source, key, k)
        invariant Closed(known, source, after - needed - {key}, after)
        invariant Walkable(known, source, candidate.previous) ==> candidate.previous in after
        invariant forall j | 0 <= j < i && Walkable(known, source, candidate.targets[j]) ::
            candidate.targets[j] in after
      {
        after := VisitOne(key, candidate, candidate.targets[i], needed, after);
      }
    }

    /** One dependency of the candidate being visited. */
    method VisitOne(key: Id, candidate: Candidate, dep: Id, ghost needed: set<Id>, before: set<Id>)
      returns (after: set<Id>)
      requires Consistent() && Walkable(Known(), sourceRoots, key) && Known()[key] == candidate
      requires dep in candidate.Deps() && needed + {key} <= before && key !in needed
      requires forall k | k in before && k !in needed :: k in Known() && Reaches(Known(), sourceRoots, key, k)
      requires Closed(Known(), sourceRoots, before - needed - {key}, before)
      ensures before <= after
      ensures Walkable(Known(), sourceRoots, dep) ==> dep in after
      ensures forall k | k in after && k !in needed :: k in Known() && Reaches(Known(), sourceRoots, key, k)
      ensures Closed(Known(), sourceRoots, after - needed - {key}, after)
      decreases roots.Keys - needed, 0
    {
      assert roots.Keys - before < roots.Keys - needed by {
        assert key in roots.Keys - needed && key !in roots.Keys - before;
      }
      after := Visit(dep, before);
      ReachesNext(Known(), sourceRoots, key, dep);
    }

    method Reached(root: Id) returns (needed: set<Id>)
      requires Consistent()
      ensures needed == ReachedFrom(Known(), sourceRoots, root)
    {
      needed := Visit(root, {});
      ghost var known, source := Known(), sourceRoots;
      assert needed - {} == needed;
      forall k | k in known && Reaches(known, source, root, k) ensures k in needed {
        var p :| IsPath(known, source, p) && p[0] == root && p[|p| - 1] == k;
        ClosedHoldsPath(known, source, needed, p);
      }
    }

    /** A plan for `root` is exactly what it reaches, and is given only when staging order puts
        dependencies first and the root last. */
    method MakePlan(base: Id, root: Id) returns (r: Option<Plan>)
      requires Consistent()
      ensures var plan := PlanFor(candidates, roots, sourceRoots, keys, base, root);
              r == if Valid(plan) then Some(plan) else None
    {
      var needed := Reached(root);
      var kept := Keep(candidates, needed);
      r := Offer(Plan(base, root, kept, keys));
    }
  }

  method Offer(plan: Plan) returns (r: Option<Plan>)
    ensures r == if Valid(plan) then Some(plan) else None
  {
    if plan.candidates != [] && plan.candidates[|plan.candidates| - 1].root != plan.root {
      return None;
    }
    var ok := Validate(plan);
    return if ok then Some(plan) else None;
  }

  method Keep(candidates: seq<Candidate>, needed: set<Id>) returns (kept: seq<Candidate>)
    ensures kept == Filter(candidates, needed)
  {
    kept := [];
    for i := 0 to |candidates|
      invariant kept == Filter(candidates[..i], needed)
    {
      assert candidates[..i + 1][..i] == candidates[..i];
      if candidates[i].root in needed {
        kept := kept + [candidates[i]];
      }
    }
    assert candidates[..|candidates|] == candidates;
  }

  // ----- When planning succeeds -----

  /** Along a path the staging positions only fall. */
  lemma {:induction false} PathDescends(candidates: seq<Candidate>, at: map<Id, nat>, known: map<Id, Candidate>,
                                        source: set<Id>, p: seq<Id>)
    requires DependenciesFirst(candidates) && IsPath(known, source, p)
    requires forall k | k in known ::
               k in at && at[k] < |candidates| && candidates[at[k]] == known[k] && known[k].root == k
    ensures at[p[|p| - 1]] < at[p[0]] || p[|p| - 1] == p[0]
    decreases p
  {
    if |p| > 1 {
      var rest := p[1..];
      assert forall i | 0 < i < |rest| :: rest[i] == p[i + 1] && rest[i - 1] == p[i];
      PathDescends(candidates, at, known, source, rest);
      assert p[1] in candidates[at[p[0]]].Deps();
    }
  }

  lemma PlannedPosition(candidates: seq<Candidate>, roots: map<Id, nat>, kept: seq<Candidate>, at: seq<nat>, k: Id)
    requires Indexed(candidates, roots) && InOrder(kept, candidates, at) && k in roots && candidates[roots[k]] in kept
    requires kept != []
    ensures roots[k] <= roots[kept[|kept| - 1].root]
  {
    var i :| 0 <= i < |kept| && kept[i] == candidates[roots[k]];
    assert at[i] == roots[k] && at[|kept| - 1] == roots[kept[|kept| - 1].root];
  }

  /** Staging dependencies before what needs them is enough: then every root can be planned. */
  lemma OrderedStagingPlans(candidates: seq<Candidate>, roots: map<Id, nat>, source: set<Id>, blocks: seq<Block>,
                            base: Id, root: Id)
    requires Indexed(candidates, roots) && DependenciesFirst(candidates)
    ensures Valid(PlanFor(candidates, roots, source, blocks, base, root))
  {
    var needed := ReachedFrom(KnownOf(candidates, roots), source, root);
    FilteredOrder(candidates, needed);
    var at := FilterInOrder(candidates, needed);
    RootComesLast(candidates, roots, source, root, Filter(candidates, needed), at);
  }

  /** If `kept` is what `root` reaches, in staging order, its last entry is the root. */
  lemma RootComesLast(candidates: seq<Candidate>, roots: map<Id, nat>, source: set<Id>, root: Id,
                      kept: seq<Candidate>, at: seq<nat>)
    requires Indexed(candidates, roots) && DependenciesFirst(candidates) && InOrder(kept, candidates, at)
    requires forall c :: c in kept <==> c in candidates && Reaches(KnownOf(candidates, roots), source, root, c.root)
    ensures RootLast(kept, root)
  {
    if kept != [] {
      assert kept[|kept| - 1] in kept;
      ReachedIsEarlier(candidates, roots, source, root, kept[|kept| - 1].root);
      ReachesSelf(KnownOf(candidates, roots), source, root);
      assert candidates[roots[root]] in kept;
      PlannedPosition(candidates, roots, kept, at, root);
    }
  }

  lemma ReachedIsEarlier(candidates: seq<Candidate>, roots: map<Id, nat>, source: set<Id>, root: Id, k: Id)
    requires Indexed(candidates, roots) && DependenciesFirst(candidates)
    requires Reaches(KnownOf(candidates, roots), source, root, k)
    ensures Walkable(KnownOf(candidates, roots), source, root) && k in roots && (roots[k] < roots[root] || k == root)
  {
    var known := KnownOf(candidates, roots);
    var p :| IsPath(known, source, p) && p[0] == root && p[|p| - 1] == k;
    PathDescends(candidates, roots, known, source, p);
  }

  // ----- Validation -----

  method Validate(p: Plan) returns (ok: bool)
    ensures ok <==> Valid(p)
  {
    var seen: map<Id, nat> := map[];
    for i := 0 to |p.candidates|
      invariant forall j | 0 <= j < i :: p.candidates[j].sound
      invariant Distinct(p.candidates[..i])
      invariant IsIndex(seen, p.candidates[..i])
    {
      if !p.candidates[i].sound || p.candidates[i].root in seen {
        if p.candidates[i].sound {
          assert p.candidates[seen[p.candidates[i].root]].root == p.candidates[i].root;
        }
        return false;
      }
      seen := seen[p.candidates[i].root := i];
    }
    assert p.candidates[..|p.candidates|] == p.candidates;
    for i := 0 to |p.candidates|
      invariant forall h, j | 0 <= h < i && h <= j < |p.candidates| :: p.candidates[j].root !in p.candidates[h].Deps()
    {
      var early := CheckDeps(p.candidates, seen, i);
      if !early {
        return false;
      }
    }
    return RootLast(p.candidates, p.root);
  }

  predicate IsIndex(seen: map<Id, nat>, candidates: seq<Candidate>) {
    && (forall k | k in seen :: seen[k] < |candidates| && candidates[seen[k]].root == k)
    && (forall j | 0 <= j < |candidates| :: candidates[j].root in seen)
  }

  /** Nothing candidate `i` depends on is at `i` or later. */
  method CheckDeps(candidates: seq<Candidate>, seen: map<Id, nat>, i: nat) returns (early: bool)
    requires i < |candidates| && Distinct(candidates) && IsIndex(seen, candidates)
    ensures early <==> forall j | i <= j < |candidates| :: candidates[j].root !in candidates[i].Deps()
  {
    var deps := candidates[i].Deps();
    for d := 0 to |deps|
      invariant forall j, e | i <= j < |candidates| && 0 <= e < d :: candidates[j].root != deps[e]
    {
      if deps[d] in seen && seen[deps[d]] >= i {
        assert candidates[seen[deps[d]]].root in deps;
        return false;
      }
      forall j | i <= j < |candidates| ensures candidates[j].root != deps[d] {
        assert candidates[j].root in seen && candidates[seen[candidates[j].root]].root == candidates[j].root;
      }
    }
    early := true;
  }

  // ----- What a plan promises -----

  /** A planned candidate's staged dependencies are planned too, and earlier, unless they are
      before-images the source already has. */
  lemma DependenciesArePlanned(candidates: seq<Candidate>, roots: map<Id, nat>, source: set<Id>, blocks: seq<Block>,
                               base: Id, root: Id, i: nat, d: Id)
    requires Indexed(candidates, roots)
    requires var plan := PlanFor(candidates, roots, source, blocks, base, root);
             Valid(plan) && i < |plan.candidates| && d in plan.candidates[i].Deps()
    requires Walkable(KnownOf(candidates, roots), source, d)
    ensures var plan := PlanFor(candidates, roots, source, blocks, base, root);
            exists j :: 0 <= j < i && plan.candidates[j] == KnownOf(candidates, roots)[d]
  {
    var known := KnownOf(candidates, roots);
    var kept := Filter(candidates, ReachedFrom(known, source, root));
    assert kept[i] in kept;
    ReachesDependency(known, source, root, kept[i].root, d);
    assert known[d] in candidates && known[d].root == d;
    assert known[d] in kept;
    var j :| 0 <= j < |kept| && kept[j] == known[d];
  }

  lemma ReachesDependency(known: map<Id, Candidate>, source: set<Id>, root: Id, k: Id, d: Id)
    requires Reaches(known, source, root, k) && k in known && d in known[k].Deps() && Walkable(known, source, d)
    ensures Reaches(known, source, root, d)
  {
    var p :| IsPath(known, source, p) && p[0] == root && p[|p| - 1] == k;
    var longer := p + [d];
    assert IsPath(known, source, longer) && longer[0] == root && longer[|longer| - 1] == d;
  }

  // ----- Persisting -----

  const MAX_BATCH_BLOCKS := 4096
  const MAX_BATCH_BYTES := 8 * 1024 * 1024

  /** A call made to the remote. */
  datatype Call = PutBatch(blocks: seq<Block>) | Put(block: Block) | Install(candidate: Candidate)

  function TotalSize(blocks: seq<Block>): nat {
    if blocks == [] then 0 else TotalSize(blocks[..|blocks| - 1]) + blocks[|blocks| - 1].size
  }

  function BlocksOf(call: Call): seq<Block> {
    match call
    case PutBatch(blocks) => blocks
    case Put(block) => [block]
    case Install(_) => []
  }

  function Sent(calls: seq<Call>): seq<Block> {
    if calls == [] then [] else Sent(calls[..|calls| - 1]) + BlocksOf(calls[|calls| - 1])
  }

  function Installs(calls: seq<Call>): seq<Candidate> {
    if calls == [] then []
    else Installs(calls[..|calls| - 1]) + if calls[|calls| - 1].Install? then [calls[|calls| - 1].candidate] else []
  }

  /** Batches are bounded; a single put is for a writer that cannot batch or an oversized block. */
  predicate Bounded(call: Call, batching: bool) {
    match call
    case PutBatch(blocks) =>
      batching && 0 < |blocks| <= MAX_BATCH_BLOCKS && TotalSize(blocks) <= MAX_BATCH_BYTES
    case Put(block) => !batching || block.size > MAX_BATCH_BYTES
    case Install(_) => false
  }

  lemma OneMoreBlock(pending: seq<Block>, block: Block)
    ensures TotalSize(pending + [block]) == TotalSize(pending) + block.size
  {
    assert (pending + [block])[..|pending|] == pending;
  }

  predicate Room(pending: seq<Block>, batching: bool) {
    |pending| <= MAX_BATCH_BLOCKS && TotalSize(pending) <= MAX_BATCH_BYTES && (pending != [] ==> batching)
  }

  /** The block could have joined the batch. */
  predicate HasRoomFor(batch: seq<Block>, block: Block) {
    |batch| < MAX_BATCH_BLOCKS && TotalSize(batch) + block.size <= MAX_BATCH_BYTES
  }

  /** If call `i` is a batch, the block after it, the first of the next call or at the end of
      `rest`, would not have fitted in it. */
  predicate FullAt(calls: seq<Call>, i: nat, rest: seq<Block>)
    requires i < |calls|
  {
    var next := if i + 1 < |calls| then BlocksOf(calls[i + 1]) else rest;
    calls[i].PutBatch? && next != [] ==> !HasRoomFor(calls[i].blocks, next[0])
  }

  predicate Filled(calls: seq<Call>, from: nat, rest: seq<Block>) {
    forall i | from <= i < |calls| :: FullAt(calls, i, rest)
  }

  /** So far, and whatever comes next if nothing is pending. */
  predicate FilledSoFar(calls: seq<Call>, from: nat, pending: seq<Block>) {
    && Filled(calls, from, pending)
    && (pending == [] && |calls| > from ==> !calls[|calls| - 1].PutBatch?)
  }

  lemma FilledByCall(calls: seq<Call>, from: nat, call: Call, rest: seq<Block>)
    requires Filled(calls, from, BlocksOf(call))
    requires call.PutBatch? && rest != [] ==> !HasRoomFor(call.blocks, rest[0])
    ensures Filled(calls + [call], from, rest)
  {
    forall i | from <= i < |calls| + 1 ensures FullAt(calls + [call], i, rest) {
      assert i < |calls| ==> FullAt(calls, i, BlocksOf(call));
    }
  }

  lemma FilledAnyway(calls: seq<Call>, from: nat, rest: seq<Block>)
    requires Filled(calls, from, rest)
    ensures Filled(calls, from, [])
  {
    forall i | from <= i < |calls| ensures FullAt(calls, i, []) {
      assert FullAt(calls, i, rest);
    }
  }

  lemma FilledByBlock(calls: seq<Call>, from: nat, pending: seq<Block>, rest: seq<Block>)
    requires FilledSoFar(calls, from, pending) && (pending != [] && rest != [] ==> rest[0] == pending[0])
    ensures Filled(calls, from, rest)
  {
    forall i | from <= i < |calls| ensures FullAt(calls, i, rest) {
      assert FullAt(calls, i, pending);
    }
  }

  /** Every block has the right bytes when it is read again to be sent. */
  predicate StillIntact(blocks: seq<Block>) {
    forall i | 0 <= i < |blocks| :: blocks[i].stillIntact
  }

  /** The remote: what it was asked, in order, and for which calls the exact acknowledgement
      came back. A call that was not acknowledged may or may not have taken effect. */
  class Remote {
    var calls: seq<Call>
    const answers: nat -> bool

    constructor (answers: nat -> bool)
      ensures calls == [] && this.answers == answers
    {
      calls := [];
      this.answers := answers;
    }

    method Ask(call: Call) returns (acknowledged: bool)
      modifies this
      ensures calls == old(calls) + [call] && acknowledged == answers(|old(calls)|)
    {
      acknowledged := answers(|calls|);
      calls := calls + [call];
    }

    /** Every call from number `from` on, but perhaps the last, was acknowledged. */
    ghost predicate Acknowledged(from: nat, all: bool)
      reads this
    {
      forall i | from <= i < |calls| - (if all then 0 else 1) :: answers(i)
    }

    /** Since `before`, exactly the blocks `sent` went out, read intact, in bounded calls. */
    ghost predicate Sending(before: seq<Call>, batching: bool, all: bool, sent: seq<Block>)
      reads this
    {
      && before <= calls && Acknowledged(|before|, all) && Sent(calls[|before|..]) == sent && StillIntact(sent)
      && forall i | |before| <= i < |calls| :: Bounded(calls[i], batching)
    }

    /** One call that sends blocks. */
    method Send(call: Call, batching: bool, ghost before: seq<Call>, ghost sent: seq<Block>) returns (ok: bool)
      requires Sending(before, batching, true, sent) && Bounded(call, batching) && StillIntact(BlocksOf(call))
      requires Filled(calls, |before|, BlocksOf(call))
      modifies this
      ensures Sending(before, batching, ok, sent + BlocksOf(call)) && (ok <==> Acknowledged(|before|, true))
      ensures calls == old(calls) + [call] && Filled(calls, |before|, [])
    {
      FilledByCall(calls, |before|, call, []);
      ok := Ask(call);
      assert calls[|before|..][..|calls[|before|..]| - 1] == old(calls[|before|..]);
    }

    /** Flushes the pending batch. */
    method Flush(pending: seq<Block>, batching: bool, ghost before: seq<Call>, ghost sent: seq<Block>)
      returns (ok: bool)
      requires Sending(before, batching, true, sent) && Room(pending, batching) && StillIntact(pending)
      requires Filled(calls, |before|, pending)
      modifies this
      ensures Sending(before, batching, ok, sent + pending) && (ok <==> Acknowledged(|before|, true))
      ensures calls == (if pending == [] then old(calls) else old(calls) + [PutBatch(pending)])
      ensures Filled(calls, |before|, [])
    {
      if pending == [] {
        assert sent + pending == sent;
        return true;
      }
      ok := Send(PutBatch(pending), batching, before, sent);
    }

    /** A block that goes out by itself, after the pending batch. */
    method SendAlone(block: Block, pending: seq<Block>, batching: bool, ghost before: seq<Call>, ghost sent: seq<Block>)
      returns (ok: bool, ghost now: seq<Block>)
      requires Sending(before, batching, true, sent) && Room(pending, batching) && StillIntact(pending + [block])
      requires (!batching || block.size > MAX_BATCH_BYTES) && FilledSoFar(calls, |before|, pending)
      modifies this
      ensures Sending(before, batching, ok, now) && now <= sent + pending + [block]
      ensures Filled(calls, |before|, []) && (ok ==> FilledSoFar(calls, |before|, []))
      ensures (ok <==> Acknowledged(|before|, true)) && (ok ==> now == sent + pending + [block])
    {
      assert (pending + [block])[|pending|] == block;
      assert forall i | 0 <= i < |pending| :: pending[i] == (pending + [block])[i];
      ghost var called := calls;
      ok := Flush(pending, batching, before, sent);
      now := sent + pending;
      if ok {
        if pending == [] {
          FilledByBlock(calls, |before|, pending, [block]);
        } else {
          FilledByCall(called, |before|, PutBatch(pending), [block]);
        }
        ok := Send(Put(block), batching, before, now);
        now := now + [block];
      }
    }

    /** Flushes the pending batch if the block does not fit in it. */
    method MakeRoom(block: Block, pending: seq<Block>, bytes: nat, ghost before: seq<Call>, ghost sent: seq<Block>)
      returns (ok: bool, left: seq<Block>, total: nat, ghost now: seq<Block>)
      requires Sending(before, true, true, sent) && Room(pending, true) && bytes == TotalSize(pending)
      requires StillIntact(pending) && block.size <= MAX_BATCH_BYTES && FilledSoFar(calls, |before|, pending)
      modifies this
      ensures Sending(before, true, ok, now) && now + left == sent + pending
      ensures Filled(calls, |before|, left + [block])
      ensures ok <==> Acknowledged(|before|, true)
      ensures ok ==> && |left| < MAX_BATCH_BLOCKS && total == TotalSize(left) <= MAX_BATCH_BYTES - block.size
                     && StillIntact(left)
    {
      if |pending| == MAX_BATCH_BLOCKS || block.size > MAX_BATCH_BYTES - bytes {
        ghost var calledBefore := calls;
        ok := Flush(pending, true, before, sent);
        FilledByCall(calledBefore, |before|, PutBatch(pending), [block]);
        assert [] + [block] == [block];
        return ok, [], 0, sent + pending;
      }
      FilledByBlock(calls, |before|, pending, pending + [block]);
      return true, pending, bytes, sent;
    }

    /** One block joins the pending batch, or goes out alone; the batch goes out first when the
        block does not fit. */
    method Consume(block: Block, pending: seq<Block>, bytes: nat, batching: bool,
                   ghost before: seq<Call>, ghost sent: seq<Block>)
      returns (ok: bool, left: seq<Block>, total: nat, ghost now: seq<Block>)
      requires Sending(before, batching, true, sent) && Room(pending, batching) && bytes == TotalSize(pending)
      requires StillIntact(pending) && FilledSoFar(calls, |before|, pending)
      modifies this
      ensures Sending(before, batching, ok, now) && now <= sent + pending + [block]
      ensures Filled(calls, |before|, []) && (ok ==> FilledSoFar(calls, |before|, left))
      ensures ok <==> block.stillIntact && Acknowledged(|before|, true)
      ensures ok ==> now + left == sent + pending + [block]
      ensures ok ==> Room(left, batching) && total == TotalSize(left) && StillIntact(left)
    {
      left, total, now := pending, bytes, sent;
      if !block.stillIntact {
        FilledAnyway(calls, |before|, pending);
        return false, left, total, sent;
      }
      if !batching || block.size > MAX_BATCH_BYTES {
        ok, now := SendAlone(block, left, batching, before, now);
        assert now + [] == now;
        return ok, [], 0, now;
      }
      ok, left, total, now := MakeRoom(block, left, total, before, now);
      FilledAnyway(calls, |before|, left + [block]);
      if ok {
        OneMoreBlock(left, block);
        assert now + (left + [block]) == now + left + [block];
        left, total := left + [block], total + block.size;
      }
    }

    /** Takes in every block and flushes what is left. */
    method SendBlocks(blocks: seq<Block>, batching: bool) returns (ok: bool, ghost sent: seq<Block>)
      modifies this
      ensures Sending(old(calls), batching, ok, sent) && sent <= blocks && (ok ==> sent == blocks)
      ensures ok <==> StillIntact(blocks) && Acknowledged(|old(calls)|, true)
      ensures Filled(calls, |old(calls)|, [])
    {
      ghost var before := calls;
      var pending, bytes, i := [], 0, 0;
      sent := [];
      assert calls[|before|..] == [];
      while i < |blocks|
        invariant 0 <= i <= |blocks|
        invariant Sending(before, batching, true, sent) && sent + pending == blocks[..i]
        invariant Room(pending, batching) && bytes == TotalSize(pending)
        invariant StillIntact(pending) && StillIntact(blocks[..i]) && FilledSoFar(calls, |before|, pending)
      {
        assert blocks[..i + 1] == blocks[..i] + [blocks[i]];
        ok, pending, bytes, sent := Consume(blocks[i], pending, bytes, batching, before, sent);
        if !ok {
          return;
        }
        i := i + 1;
      }
      assert blocks[..i] == blocks;
      ok := Flush(pending, batching, before, sent);
      sent := sent + pending;
    }

    /**
     Sends every block, in order, in bounded batches. Nothing is sent unless all local bytes
     match first, and no block whose bytes do not match again; what was sent is a prefix of the
     blocks. It succeeds, having sent them all, exactly if all match both times and every call
     was acknowledged. No batch goes out that the next block would have fitted in.
     */
    method PersistBlocks(blocks: seq<Block>, batching: bool) returns (ok: bool, ghost sent: seq<Block>)
      modifies this
      ensures Sending(old(calls), batching, ok, sent) && sent <= blocks && (ok ==> sent == blocks)
      ensures (exists b | b in blocks :: !b.intact) ==> !ok && calls == old(calls)
      ensures ok <==> (forall b | b in blocks :: b.intact && b.stillIntact) && Acknowledged(|old(calls)|, true)
      ensures Filled(calls, |old(calls)|, [])
    {
      assert calls[|calls|..] == [];
      for i := 0 to |blocks|
        invariant forall j | 0 <= j < i :: blocks[j].intact
      {
        if !blocks[i].intact {
          return false, [];
        }
      }
      ok, sent := SendBlocks(blocks, batching);
    }

    /** Since `before`, exactly the blocks `sent` and then the candidates `installed` went out. */
    ghost predicate Persisting(before: seq<Call>, all: bool, sent: seq<Block>, installed: seq<Candidate>)
      reads this
    {
      && before <= calls && Acknowledged(|before|, all)
      && Sent(calls[|before|..]) == sent && Installs(calls[|before|..]) == installed
    }

    /** Blocks first, then the candidates one by one, stopping at the first call that is not
        acknowledged exactly. A remote that was asked before may be asked again. */
    method Persist(plan: Plan, batching: bool)
      returns (ok: bool, ghost sent: seq<Block>, ghost installed: seq<Candidate>)
      modifies this
      ensures Persisting(old(calls), ok, sent, installed)
      ensures !Valid(plan) ==> !ok && calls == old(calls)
      ensures sent <= plan.blocks && installed <= plan.candidates
      ensures installed != [] || ok ==> sent == plan.blocks
      ensures ok ==> installed == plan.candidates
      ensures forall b | b in sent :: b.stillIntact
      ensures ok <==> && Valid(plan) && (forall b | b in plan.blocks :: b.intact && b.stillIntact)
                      && Acknowledged(|old(calls)|, true)
    {
      assert calls[|calls|..] == [];
      sent, installed := [], [];
      var valid := Validate(plan);
      if !valid {
        return false, [], [];
      }
      ghost var before := calls;
      ok, sent := PersistBlocks(plan.blocks, batching);
      NoInstalls(calls[|before|..], batching);
      if !ok {
        return;
      }
      ok, installed := InstallAll(plan.candidates, before, sent);
    }

    method InstallAll(candidates: seq<Candidate>, ghost before: seq<Call>, ghost sent: seq<Block>)
      returns (ok: bool, ghost installed: seq<Candidate>)
      requires Persisting(before, true, sent, [])
      modifies this
      ensures Persisting(before, ok, sent, installed) && installed <= candidates && (ok ==> installed == candidates)
      ensures ok <==> Acknowledged(|before|, true)
    {
      installed := [];
      for i := 0 to |candidates|
        invariant Persisting(before, true, sent, candidates[..i]) && installed == candidates[..i]
      {
        assert candidates[..i + 1] == candidates[..i] + [candidates[i]];
        ok := InstallOne(candidates[i], before, sent, installed);
        installed := installed + [candidates[i]];
        if !ok {
          return;
        }
      }
      ok := true;
    }

    method InstallOne(candidate: Candidate, ghost before: seq<Call>, ghost sent: seq<Block>,
                      ghost installed: seq<Candidate>)
      returns (ok: bool)
      requires Persisting(before, true, sent, installed)
      modifies this
      ensures Persisting(before, ok, sent, installed + [candidate]) && (ok <==> Acknowledged(|before|, true))
    {
      ok := Ask(Install(candidate));
      assert calls[|before|..][..|calls[|before|..]| - 1] == old(calls[|before|..]);
      assert sent + [] == sent;
    }
  }

  lemma {:induction false} NoInstalls(calls: seq<Call>, batching: bool)
    requires forall i | 0 <= i < |calls| :: Bounded(calls[i], batching)
    ensures Installs(calls) == []
    decreases calls
  {
    if calls != [] {
      NoInstalls(calls[..|calls| - 1], batching);
    }
  }

  /**
   Whenever persisting stops, whether or not the last call took effect, every candidate the
   remote has installed has all its planned dependencies installed before it.
   */
  lemma PrefixIsClosed(plan: Plan, n: nat, c: Candidate, d: Candidate)
    requires Valid(plan) && n <= |plan.candidates|
    requires c in plan.candidates[..n] && d in plan.candidates && d.root in c.Deps()
    ensures exists i, j :: 0 <= j < i < n && plan.candidates[i] == c && plan.candidates[j] == d
  {
    var i :| 0 <= i < n && plan.candidates[i] == c;
    var j :| 0 <= j < |plan.candidates| && plan.candidates[j] == d;
    assert j < i;
  }
}
