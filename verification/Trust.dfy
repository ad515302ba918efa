/**
 The accepted root of one alias, the candidates recorded on it and the remote heads observed.
 Every function is one step under the store's lock; a failed step writes nothing.
 */
module Trust {
  import opened Wrappers

  type Root = nat
  type Stream = nat

  datatype Candidate = Candidate(root: Root, base: Option<Root>)

  /** A remote head; `commit` is None for an empty stream. */
  datatype Observation = Observation(stream: Stream, commit: Option<nat>, root: Option<Root>, revision: nat)

  datatype RootState = RootState(
    accepted: Option<Root>, previous: Option<Root>, candidates: seq<Candidate>, observed: seq<Observation>)

  const UNKNOWN := RootState(None, None, [], [])

  datatype Error = NotFound | NoAcceptedRoot | CandidateNotFound | ObservationNotFound | StaleCandidate
                 | AcceptedRootChanged | StaleObservation | ConflictingObservation | Malformed

  // ----- Candidates -----

  function RemoveCandidate(candidates: seq<Candidate>, root: Root): (r: seq<Candidate>)
    ensures forall c :: c in r <==> c in candidates && c.root != root
  {
    if candidates == [] then []
    else
      var init, last := candidates[..|candidates| - 1], candidates[|candidates| - 1];
      RemoveCandidate(init, root) + if last.root != root then [last] else []
  }

  function FindCandidate(candidates: seq<Candidate>, root: Root, i: nat): (k: nat)
    requires i <= |candidates|
    ensures i <= k <= |candidates|
    ensures k < |candidates| ==> candidates[k].root == root
    ensures forall j | i <= j < k :: candidates[j].root != root
    decreases |candidates| - i
  {
    if i == |candidates| || candidates[i].root == root then i else FindCandidate(candidates, root, i + 1)
  }

  /** Recorded only on the accepted root, or with no base before there is one. */
  function AddCandidate(s: RootState, root: Root, base: Option<Root>): Result<RootState, Error> {
    if base != s.accepted then Err(StaleCandidate)
    else if s.accepted == Some(root) then Ok(s)
    else Ok(s.(candidates := RemoveCandidate(s.candidates, root) + [Candidate(root, base)]))
  }

  // ----- Promotion -----

  function AcceptRoot(s: RootState, root: Root): RootState {
    RootState(Some(root),
              if s.accepted.Some? && s.accepted.value != root then s.accepted else s.previous,
              if s.accepted.None? then [] else RemoveCandidate(s.candidates, root),
              s.observed)
  }

  function AcceptCandidate(s: RootState, root: Root): Result<RootState, Error> {
    var k := FindCandidate(s.candidates, root, 0);
    if s == UNKNOWN then Err(NotFound)
    else if k == |s.candidates| then Err(CandidateNotFound)
    else if s.candidates[k].base != s.accepted then Err(StaleCandidate)
    else Ok(AcceptRoot(s, root))
  }

  predicate IsObserved(observed: seq<Observation>, root: Root) {
    exists o | o in observed :: o.root == Some(root)
  }

  function AcceptObserved(s: RootState, root: Root): Result<RootState, Error> {
    if s == UNKNOWN then Err(NotFound)
    else if !IsObserved(s.observed, root) then Err(ObservationNotFound)
    else Ok(AcceptRoot(s, root))
  }

  // ----- Observation -----

  predicate ValidObservation(o: Observation) {
    if o.commit.None? then o.root.None? && o.revision == 0 else o.root.Some? && o.revision != 0
  }

  function FindStream(observed: seq<Observation>, stream: Stream, i: nat): (k: nat)
    requires i <= |observed|
    ensures i <= k <= |observed|
    ensures k < |observed| ==> observed[k].stream == stream
    ensures forall j | i <= j < k :: observed[j].stream != stream
    decreases |observed| - i
  {
    if i == |observed| || observed[i].stream == stream then i else FindStream(observed, stream, i + 1)
  }

  function ObserveHead(s: RootState, o: Observation): Result<RootState, Error> {
    var k := FindStream(s.observed, o.stream, 0);
    if !ValidObservation(o) then Err(Malformed)
    else if k == |s.observed| then Ok(s.(observed := s.observed + [o]))
    else if o.revision < s.observed[k].revision then Err(StaleObservation)
    else if o.revision == s.observed[k].revision &&
      (o.commit != s.observed[k].commit || o.root != s.observed[k].root) then
      Err(ConflictingObservation)
    else Ok(s.(observed := s.observed[k := o]))
  }

  // ----- What every step keeps -----

  predicate Distinct(candidates: seq<Candidate>) {
    forall i, j | 0 <= i < j < |candidates| :: candidates[i].root != candidates[j].root
  }

  /** No root is a candidate twice, the accepted root is not a candidate, and every stream has
      one valid observation. */
  ghost predicate Valid(s: RootState) {
    && Distinct(s.candidates)
    && (forall c | c in s.candidates :: s.accepted != Some(c.root))
    && (forall i, j | 0 <= i < j < |s.observed| :: s.observed[i].stream != s.observed[j].stream)
    && (forall o | o in s.observed :: ValidObservation(o))
  }

  datatype Step =
    | DoTrust(root: Root)
    | DoAddCandidate(root: Root, base: Option<Root>)
    | DoAcceptCandidate(root: Root)
    | DoAcceptObserved(root: Root)
    | DoObserve(observation: Observation)

  function Attempt(s: RootState, step: Step): Result<RootState, Error> {
    match step
    case DoTrust(root) => Ok(AcceptRoot(s, root))
    case DoAddCandidate(root, base) => AddCandidate(s, root, base)
    case DoAcceptCandidate(root) => AcceptCandidate(s, root)
    case DoAcceptObserved(root) => AcceptObserved(s, root)
    case DoObserve(o) => ObserveHead(s, o)
  }

  function Take(s: RootState, step: Step): RootState {
    var r := Attempt(s, step);
    if r.Ok? then r.value else s
  }

  lemma DistinctWithLast(candidates: seq<Candidate>, last: Candidate)
    requires Distinct(candidates) && forall c | c in candidates :: c.root != last.root
    ensures Distinct(candidates + [last])
  {
    var more := candidates + [last];
    forall i, j | 0 <= i < j < |more| ensures more[i].root != more[j].root {
      assert candidates[i] in candidates;
    }
  }

  lemma {:induction false} RemovalKeepsDistinct(candidates: seq<Candidate>, root: Root)
    requires Distinct(candidates)
    ensures Distinct(RemoveCandidate(candidates, root))
    decreases candidates
  {
    if candidates != [] {
      var init, last := candidates[..|candidates| - 1], candidates[|candidates| - 1];
      RemovalKeepsDistinct(init, root);
      var r := RemoveCandidate(init, root);
      if last.root != root {
        forall c | c in r ensures c.root != last.root {
          var k :| 0 <= k < |init| && init[k] == c;
          assert candidates[k].root != candidates[|candidates| - 1].root;
        }
        DistinctWithLast(r, last);
      } else {
        assert r + [] == r;
      }
    }
  }

  /** Observations of one stream never go back, and one revision never names two heads. */
  ghost predicate Newer(before: RootState, after: RootState) {
    forall o | o in before.observed ::
      exists p :: p in after.observed && p.stream == o.stream && (p.revision > o.revision || p == o)
  }

  /** The accepted root only moves to a root the user trusted outright, to an observed one, or
      forward along a candidate recorded on it. */
  ghost predicate Justified(before: RootState, step: Step, after: RootState) {
    after.accepted != before.accepted ==>
      && after.accepted.Some? && (before.accepted.Some? ==> after.previous == before.accepted)
      && (|| step == DoTrust(after.accepted.value)
          || (step == DoAcceptObserved(after.accepted.value) && IsObserved(before.observed, after.accepted.value))
          || (step == DoAcceptCandidate(after.accepted.value) &&
              Candidate(after.accepted.value, before.accepted) in before.candidates))
  }

  lemma CandidatesKeep(s: RootState, root: Root, base: Option<Root>)
    requires Valid(s) && AddCandidate(s, root, base).Ok?
    ensures Valid(AddCandidate(s, root, base).value)
  {
    if s.accepted != Some(root) {
      RemovalKeepsDistinct(s.candidates, root);
      DistinctWithLast(RemoveCandidate(s.candidates, root), Candidate(root, base));
    }
  }

  lemma PromotionKeeps(s: RootState, root: Root)
    requires Valid(s)
    ensures Valid(AcceptRoot(s, root))
  {
    RemovalKeepsDistinct(s.candidates, root);
  }

  /** Every promotion that succeeds makes the root the accepted one, remembers the one before it,
      keeps the observations, and of the candidates exactly those with another root; the first
      accepted root starts without any. */
  lemma PromotionMoves(s: RootState, step: Step, c: Candidate)
    requires step.DoTrust? || step.DoAcceptCandidate? || step.DoAcceptObserved?
    requires Attempt(s, step).Ok?
    ensures var after := Take(s, step);
            && after.accepted == Some(step.root) && after.observed == s.observed
            && after.previous == (if s.accepted.Some? && s.accepted != Some(step.root) then s.accepted else s.previous)
            && (c in after.candidates <==> s.accepted.Some? && c in s.candidates && c.root != step.root)
  {}

  /** A promotion is refused exactly if the root is not trusted outright, not a candidate recorded
      on the accepted root, or was not observed; the refusal says which. */
  lemma PromotionNeeds(s: RootState, root: Root)
    requires Valid(s)
    ensures Attempt(s, DoTrust(root)).Ok?
    ensures Attempt(s, DoAcceptCandidate(root)).Ok? <==> Candidate(root, s.accepted) in s.candidates
    ensures Attempt(s, DoAcceptObserved(root)).Ok? <==> exists o :: o in s.observed && o.root == Some(root)
    ensures Attempt(s, DoAcceptCandidate(root)).Err? ==>
              Attempt(s, DoAcceptCandidate(root)).error ==
              if s == UNKNOWN then NotFound
              else if exists c :: c in s.candidates && c.root == root then StaleCandidate else CandidateNotFound
    ensures Attempt(s, DoAcceptObserved(root)).Err? ==>
              Attempt(s, DoAcceptObserved(root)).error == if s == UNKNOWN then NotFound else ObservationNotFound
  {
    var k := FindCandidate(s.candidates, root, 0);
    assert k < |s.candidates| ==> s.candidates[k] in s.candidates;
    if Candidate(root, s.accepted) in s.candidates {
      var i :| 0 <= i < |s.candidates| && s.candidates[i] == Candidate(root, s.accepted);
      assert i == k;
    }
  }

  /** A candidate is recorded exactly on the accepted root, unless it is that root, and replaces
      only an earlier record of the same root. */
  lemma CandidateIsRecorded(s: RootState, root: Root, base: Option<Root>, c: Candidate)
    ensures AddCandidate(s, root, base).Ok? <==> base == s.accepted
    ensures AddCandidate(s, root, base).Ok? ==>
              var after := AddCandidate(s, root, base).value;
              && after == s.(candidates := after.candidates)
              && (s.accepted == Some(root) ==> after == s)
              && (s.accepted != Some(root) ==>
                    (c in after.candidates <==> c == Candidate(root, base) || (c in s.candidates && c.root != root)))
  {}

  /** An observation is recorded exactly if it is well formed and neither older than the one known
      of its stream nor in contradiction with it, and replaces only that one. */
  lemma ObservationIsRecorded(s: RootState, o: Observation, p: Observation)
    requires Valid(s)
    ensures ObserveHead(s, o).Ok? <==>
              && ValidObservation(o)
              && forall q | q in s.observed && q.stream == o.stream :: q == o || q.revision < o.revision
    ensures ObserveHead(s, o).Ok? ==>
              var after := ObserveHead(s, o).value;
              && after == s.(observed := after.observed)
              && (p in after.observed <==> p == o || (p in s.observed && p.stream != o.stream))
  {
    var k := FindStream(s.observed, o.stream, 0);
    if k < |s.observed| {
      assert s.observed[k] in s.observed;
      var after := s.observed[k := o];
      assert after[k] == o && forall i | 0 <= i < |after| && i != k :: after[i] == s.observed[i];
      if p in s.observed {
        var i :| 0 <= i < |s.observed| && s.observed[i] == p;
        assert after[i] in after;
      }
    }
  }

  lemma ObservationKeeps(s: RootState, o: Observation)
    requires Valid(s) && ObserveHead(s, o).Ok?
    ensures Valid(ObserveHead(s, o).value) && Newer(s, ObserveHead(s, o).value)
  {
    var after, k := ObserveHead(s, o).value, FindStream(s.observed, o.stream, 0);
    forall was | was in s.observed
      ensures exists p :: p in after.observed && p.stream == was.stream && (p.revision > was.revision || p == was)
    {
      if k < |s.observed| && was == s.observed[k] {
        assert after.observed[k] in after.observed;
      } else {
        var i :| 0 <= i < |s.observed| && s.observed[i] == was;
        assert after.observed[i] in after.observed;
      }
    }
  }

  lemma StepKeeps(s: RootState, step: Step)
    requires Valid(s)
    ensures Valid(Take(s, step)) && Newer(s, Take(s, step)) && Justified(s, step, Take(s, step))
  {
    var after := Take(s, step);
    if after.observed == s.observed {
      assert Newer(s, after);
    }
    if Attempt(s, step).Ok? {
      match step
      case DoTrust(root) => PromotionKeeps(s, root);
      case DoAddCandidate(root, base) => CandidatesKeep(s, root, base);
      case DoAcceptCandidate(root) =>
        PromotionKeeps(s, root);
        assert s.candidates[FindCandidate(s.candidates, root, 0)] in s.candidates;
      case DoAcceptObserved(root) => PromotionKeeps(s, root);
      case DoObserve(o) => ObservationKeeps(s, o);
    }
  }

  // ----- The store -----

  method KeepOthers(candidates: seq<Candidate>, root: Root) returns (kept: seq<Candidate>)
    ensures kept == RemoveCandidate(candidates, root)
  {
    kept := [];
    for i := 0 to |candidates|
      invariant kept == RemoveCandidate(candidates[..i], root)
    {
      assert candidates[..i + 1][..i] == candidates[..i];
      if candidates[i].root != root {
        kept := kept + [candidates[i]];
      }
    }
    assert candidates[..|candidates|] == candidates;
  }

  method SearchObserved(observed: seq<Observation>, root: Root) returns (found: bool)
    ensures found <==> IsObserved(observed, root)
  {
    for i := 0 to |observed|
      invariant forall j | 0 <= j < i :: observed[j].root != Some(root)
    {
      if observed[i].root == Some(root) {
        assert observed[i] in observed;
        return true;
      }
    }
    found := false;
  }

  class Store {
    var state: RootState

    constructor ()
      ensures Valid(state) && state == UNKNOWN
    {
      state := UNKNOWN;
    }

    /** The fence: `operation` may run only while `expected` is the accepted root. */
    method WithAcceptedRoot(expected: Root) returns (r: Option<Error>)
      ensures r.None? <==> state.accepted == Some(expected)
      ensures r == Some(AcceptedRootChanged) <==> state.accepted.Some? && state.accepted != Some(expected)
      ensures r == Some(NotFound) <==> state == UNKNOWN
    {
      if state == UNKNOWN {
        return Some(NotFound);
      }
      if state.accepted.None? {
        return Some(NoAcceptedRoot);
      }
      return if state.accepted.value != expected then Some(AcceptedRootChanged) else None;
    }

    method Promote(root: Root)
      modifies this
      ensures state == AcceptRoot(old(state), root) && state.accepted == Some(root)
    {
      var previous := if state.accepted.Some? && state.accepted.value != root then state.accepted else state.previous;
      var candidates := [];
      if state.accepted.Some? {
        candidates := KeepOthers(state.candidates, root);
      }
      state := state.(accepted := Some(root), previous := previous, candidates := candidates);
    }

    method TrustRoot(root: Root)
      requires Valid(state)
      modifies this
      ensures Valid(state) && state == Take(old(state), DoTrust(root)) && state.accepted == Some(root)
    {
      StepKeeps(state, DoTrust(root));
      Promote(root);
    }

    method RecordCandidate(root: Root, base: Option<Root>) returns (r: Option<Error>)
      requires Valid(state)
      modifies this
      ensures Valid(state) && state == Take(old(state), DoAddCandidate(root, base))
      ensures r.None? <==> base == old(state).accepted
      ensures Attempt(old(state), DoAddCandidate(root, base)) == if r.None? then Ok(state) else Err(r.value)
    {
      StepKeeps(state, DoAddCandidate(root, base));
      if base != state.accepted {
        return Some(StaleCandidate);
      }
      if state.accepted == Some(root) {
        return None;
      }
      var kept := KeepOthers(state.candidates, root);
      state := state.(candidates := kept + [Candidate(root, base)]);
      return None;
    }

    method PromoteCandidate(root: Root) returns (r: Option<Error>)
      requires Valid(state)
      modifies this
      ensures Valid(state) && state == Take(old(state), DoAcceptCandidate(root))
      ensures r.None? <==> Candidate(root, old(state).accepted) in old(state).candidates
      ensures r.None? ==> state.accepted == Some(root)
      ensures Attempt(old(state), DoAcceptCandidate(root)) == if r.None? then Ok(state) else Err(r.value)
    {
      StepKeeps(state, DoAcceptCandidate(root));
      if state == UNKNOWN {
        return Some(NotFound);
      }
      var k := 0;
      while k < |state.candidates| && state.candidates[k].root != root
        invariant 0 <= k <= |state.candidates|
        invariant FindCandidate(state.candidates, root, 0) == FindCandidate(state.candidates, root, k)
      {
        k := k + 1;
      }
      if k == |state.candidates| {
        return Some(CandidateNotFound);
      }
      if state.candidates[k].base != state.accepted {
        assert forall c | c in state.candidates && c.root == root :: c == state.candidates[k];
        return Some(StaleCandidate);
      }
      Promote(root);
      return None;
    }

    method PromoteObserved(root: Root) returns (r: Option<Error>)
      requires Valid(state)
      modifies this
      ensures Valid(state) && state == Take(old(state), DoAcceptObserved(root))
      ensures r.None? <==> IsObserved(old(state).observed, root)
      ensures r.None? ==> state.accepted == Some(root)
      ensures Attempt(old(state), DoAcceptObserved(root)) == if r.None? then Ok(state) else Err(r.value)
    {
      StepKeeps(state, DoAcceptObserved(root));
      if state == UNKNOWN {
        return Some(NotFound);
      }
      var found := SearchObserved(state.observed, root);
      if !found {
        return Some(ObservationNotFound);
      }
      Promote(root);
      return None;
    }

    method RecordHead(o: Observation) returns (r: Option<Error>)
      requires Valid(state)
      modifies this
      ensures Valid(state) && state == Take(old(state), DoObserve(o))
      ensures Attempt(old(state), DoObserve(o)) == if r.None? then Ok(state) else Err(r.value)
      ensures r.None? ==> o in state.observed
    {
      StepKeeps(state, DoObserve(o));
      if !ValidObservation(o) {
        return Some(Malformed);
      }
      var k := 0;
      while k < |state.observed| && state.observed[k].stream != o.stream
        invariant 0 <= k <= |state.observed|
        invariant FindStream(state.observed, o.stream, 0) == FindStream(state.observed, o.stream, k)
      {
        k := k + 1;
      }
      if k == |state.observed| {
        state := state.(observed := state.observed + [o]);
        return None;
      }
      var existing := state.observed[k];
      if o.revision < existing.revision {
        return Some(StaleObservation);
      }
      if o.revision == existing.revision && (o.commit != existing.commit || o.root != existing.root) {
        return Some(ConflictingObservation);
      }
      state := state.(observed := state.observed[k := o]);
      return None;
    }
  }
}
