/**
 Who owns the resources of a platform mount. Mounting acquires a View lease, may bind a
 writable filesystem and attaches a platform session; any of the calls may fail. Lifecycle
 operations and the session monitor run one at a time.
 */
module MountLeases {
  import opened Wrappers

  type Id = nat
  type Resource = nat

  /** A record of the manager. One that is `cleanupOnly` is no longer an active mount. */
  datatype Live = Live(
    session: Option<Resource>, binding: Option<Resource>, lease: Option<Resource>, token: nat,
    cleanupOnly: bool, needsUnmount: bool, expectedDone: bool)

  /** What was built on a lease. */
  datatype Uses = Uses(binding: Option<Resource>, session: Option<Resource>)

  /** Which of the calls made to take a mount down succeed. */
  datatype Cleanup = Cleanup(unmount: bool, close: bool, release: bool)

  datatype Binding = Unsupported | BindError(created: bool) | NilBinding | Bound

  /** What the adapter returns; a session may come with an error or without its Done channel. */
  datatype Attach = Attach(session: bool, done: bool, error: bool)

  datatype Platform = Platform(selected: bool, leasing: bool, acquired: bool, bind: Binding, attach: Attach,
    rollback: Cleanup)

  /** Everything the manager and the platform know. */
  datatype State = State(
    live: map<Id, Live>, nextToken: nat, closed: bool,
    uses: map<Resource, Uses>, released: set<Resource>, closedBindings: set<Resource>, detached: set<Resource>,
    nextResource: nat)

  predicate Detached(s: State, session: Option<Resource>) {
    session.Some? ==> session.value in s.detached
  }

  predicate BindingClosed(s: State, binding: Option<Resource>) {
    binding.Some? ==> binding.value in s.closedBindings
  }

  /** A lease may be released: nothing built on it is in use any more. */
  predicate Unused(s: State, uses: Uses) {
    Detached(s, uses.session) && BindingClosed(s, uses.binding)
  }

  predicate ValidRecord(s: State, r: Live) {
    && r.token < s.nextToken
    && (r.lease.Some? ==> r.lease.value in s.uses && s.uses[r.lease.value] == Uses(r.binding, r.session))
    && (r.needsUnmount ==> r.session.Some?)
    && (!r.needsUnmount ==> Detached(s, r.session))
    && (!r.cleanupOnly ==> r.needsUnmount && (r.lease.Some? ==> r.lease.value !in s.released))
    && (r.session.Some? ==> r.session.value < s.nextResource)
    && (r.binding.Some? ==> r.binding.value < s.nextResource)
  }

  predicate Apart(a: Live, b: Live) {
    && a.token != b.token && (a.lease.Some? ==> a.lease != b.lease)
    && (a.session.Some? ==> a.session != b.session) && (a.binding.Some? ==> a.binding != b.binding)
  }

  /** Some record holds the lease. */
  ghost predicate IsHeld(s: State, lease: Resource) {
    exists id :: id in s.live && s.live[id].lease == Some(lease)
  }

  /**
   What holds between operations: no two records share a lease, a session, a binding or a token; a lease
   that is not released is held by a record, by the previous clause exactly one; a released
   lease has nothing left on it.
   */
  ghost predicate Valid(s: State) {
    && (forall id | id in s.live :: ValidRecord(s, s.live[id]))
    && (forall a, b | a in s.live && b in s.live && a != b :: Apart(s.live[a], s.live[b]))
    && (forall l | l in s.uses :: l < s.nextResource && (l in s.released || IsHeld(s, l)))
    && (forall l | l in s.released :: l in s.uses && Unused(s, s.uses[l]))
    && (forall b | b in s.closedBindings :: b < s.nextResource)
    && (s.closed ==> s.live == map[])
  }

  /** Nothing is undone: what was released, closed or detached stays so, and leases keep their uses. */
  ghost predicate Grows(before: State, after: State) {
    && before.released <= after.released && before.closedBindings <= after.closedBindings
    && before.detached <= after.detached
    && (forall l | l in before.uses :: l in after.uses && after.uses[l] == before.uses[l])
    && before.nextToken <= after.nextToken && before.nextResource <= after.nextResource
  }

  // ----- When a mount comes up or goes down -----

  /** With these answers the binding can be closed and the lease released; one that is done with
      already needs no answer. */
  predicate CanClose(s: State, r: Live, c: Cleanup) {
    && (BindingClosed(s, r.binding) || c.close)
    && (r.lease.None? || r.lease.value in s.released || c.release)
  }

  /** With these answers the mount can be taken down. */
  predicate CanTakeDown(s: State, r: Live, c: Cleanup) {
    (r.needsUnmount ==> c.unmount) && CanClose(s, r, c)
  }

  /** With these answers a mount comes up. */
  predicate ComesUp(writeBack: bool, p: Platform) {
    && p.selected && (p.leasing ==> p.acquired) && (writeBack ==> p.bind.Bound?)
    && p.attach.session && p.attach.done && !p.attach.error
  }

  /** What a mount that does not come up has made of a binding and a session by then. */
  predicate MadeBinding(writeBack: bool, p: Platform) {
    writeBack && (p.bind.Bound? || (p.bind.BindError? && p.bind.created))
  }

  predicate MadeSession(writeBack: bool, p: Platform) {
    (writeBack ==> p.bind.Bound?) && p.attach.session
  }

  /** A mount that does not come up cannot be taken down again either. */
  predicate IsRetained(writeBack: bool, p: Platform) {
    && p.selected && (p.leasing ==> p.acquired)
    && !(&& (MadeSession(writeBack, p) ==> p.rollback.unmount) && (MadeBinding(writeBack, p) ==> p.rollback.close)
         && (p.leasing ==> p.rollback.release))
  }

  /** Nothing is left of the mount a record stands for. */
  predicate IsDown(s: State, r: Live) {
    Detached(s, r.session) && BindingClosed(s, r.binding) && (r.lease.Some? ==> r.lease.value in s.released)
  }

  // ----- Small steps -----

  lemma DetachKeeps(s: State, id: Id, r: Live, session: Resource)
    requires Valid(s) && id in s.live && s.live[id].session == Some(session) && session < s.nextResource
    requires r == s.live[id].(cleanupOnly := true, needsUnmount := false, expectedDone := r.expectedDone)
    ensures Valid(s.(live := s.live[id := r], detached := s.detached + {session}))
  {
    var after := s.(live := s.live[id := r], detached := s.detached + {session});
    forall l | l in after.uses ensures l in after.released || IsHeld(after, l) {
      if l !in s.released {
        var holder :| holder in s.live && s.live[holder].lease == Some(l);
        assert after.live[holder].lease == Some(l);
      }
    }
    forall k | k in after.live ensures ValidRecord(after, after.live[k]) {
      assert ValidRecord(s, s.live[k]);
    }
    forall a, b | a in after.live && b in after.live && a != b ensures Apart(after.live[a], after.live[b]) {
      assert Apart(s.live[a], s.live[b]);
    }
  }

  lemma CloseKeeps(s: State, binding: Resource)
    requires Valid(s) && binding < s.nextResource
    ensures Valid(s.(closedBindings := s.closedBindings + {binding}))
  {
    var after := s.(closedBindings := s.closedBindings + {binding});
    forall l | l in after.uses ensures l in after.released || IsHeld(after, l) {
      if l !in s.released {
        var holder :| holder in s.live && s.live[holder].lease == Some(l);
        assert after.live[holder].lease == Some(l);
      }
    }
    forall k | k in after.live ensures ValidRecord(after, after.live[k]) {
      assert ValidRecord(s, s.live[k]);
    }
  }

  lemma ReleaseKeeps(s: State, id: Id, lease: Resource)
    requires Valid(s) && id in s.live && s.live[id].lease == Some(lease) && s.live[id].cleanupOnly
    requires Unused(s, Uses(s.live[id].binding, s.live[id].session))
    ensures Valid(s.(released := s.released + {lease}))
  {
    var after := s.(released := s.released + {lease});
    assert ValidRecord(s, s.live[id]);
    forall l | l in after.uses ensures l in after.released || IsHeld(after, l) {
      if l !in after.released {
        var holder :| holder in s.live && s.live[holder].lease == Some(l);
        assert after.live[holder].lease == Some(l);
      }
    }
    forall k | k in after.live ensures ValidRecord(after, after.live[k]) {
      assert ValidRecord(s, s.live[k]);
      assert k != id ==> Apart(s.live[id], s.live[k]);
    }
  }

  /** A record whose lease is released may be dropped. */
  lemma DropKeeps(s: State, id: Id)
    requires Valid(s) && id in s.live && (s.live[id].lease.Some? ==> s.live[id].lease.value in s.released)
    ensures Valid(s.(live := s.live - {id}))
  {
    var after := s.(live := s.live - {id});
    forall l | l in after.uses ensures l in after.released || IsHeld(after, l) {
      if l !in s.released {
        var holder :| holder in s.live && s.live[holder].lease == Some(l);
        assert holder in after.live && after.live[holder].lease == Some(l);
      }
    }
    forall k | k in after.live ensures ValidRecord(after, after.live[k]) {
      assert ValidRecord(s, s.live[k]);
    }
    forall a, b | a in after.live && b in after.live && a != b ensures Apart(after.live[a], after.live[b]) {
      assert Apart(s.live[a], s.live[b]);
    }
  }

  /** A fresh lease that a new record takes up, or that was released already. */
  lemma AddKeeps(s: State, id: Id, r: Live, after: State)
    requires Valid(s) && id !in s.live && !s.closed
    requires after.closed == s.closed && after.released == s.released && Grows(s, after)
    requires after.live == s.live[id := r] && r.token == s.nextToken < after.nextToken
    requires r.session.Some? ==> s.nextResource <= r.session.value
    requires r.binding.Some? ==> s.nextResource <= r.binding.value
    requires r.lease.Some? ==> s.nextResource <= r.lease.value < after.nextResource
    requires after.uses == if r.lease.Some? then s.uses[r.lease.value := Uses(r.binding, r.session)] else s.uses
    requires ValidRecord(after, r) && forall b | b in after.closedBindings :: b < after.nextResource
    ensures Valid(after)
  {
    forall k | k in s.live ensures ValidRecord(after, s.live[k]) && Apart(s.live[k], r) && Apart(r, s.live[k]) {
      assert ValidRecord(s, s.live[k]);
    }
    forall l | l in after.uses ensures l < after.nextResource && (l in after.released || IsHeld(after, l)) {
      if r.lease == Some(l) {
        assert after.live[id].lease == Some(l);
      } else if l !in s.released {
        var holder :| holder in s.live && s.live[holder].lease == Some(l);
        assert after.live[holder].lease == Some(l);
      }
    }
    forall a, b | a in after.live && b in after.live && a != b ensures Apart(after.live[a], after.live[b]) {
      assert a != id && b != id ==> Apart(s.live[a], s.live[b]);
    }
  }

  /** A fresh lease that nothing came of and that was released again. */
  lemma GiveUpKeeps(s: State, after: State, lease: Option<Resource>, uses: Uses)
    requires Valid(s) && Grows(s, after) && after.live == s.live && after.closed == s.closed
    requires lease.Some? ==> s.nextResource <= lease.value < after.nextResource
    requires after.uses == if lease.Some? then s.uses[lease.value := uses] else s.uses
    requires after.released == s.released + if lease.Some? then {lease.value} else {}
    requires Unused(after, uses) && forall b | b in after.closedBindings :: b < after.nextResource
    ensures Valid(after)
  {
    forall k | k in s.live ensures ValidRecord(after, s.live[k]) {
      assert ValidRecord(s, s.live[k]);
    }
    forall l | l in after.uses ensures l < after.nextResource && (l in after.released || IsHeld(after, l)) {
      if l !in after.released {
        var holder :| holder in s.live && s.live[holder].lease == Some(l);
        assert after.live[holder].lease == Some(l);
      }
    }
  }

  lemma ExpectKeeps(s: State, id: Id, expected: bool)
    requires Valid(s) && id in s.live
    ensures Valid(s.(live := s.live[id := s.live[id].(expectedDone := expected)]))
  {
    var after := s.(live := s.live[id := s.live[id].(expectedDone := expected)]);
    forall l | l in after.uses ensures l in after.released || IsHeld(after, l) {
      if l !in s.released {
        var holder :| holder in s.live && s.live[holder].lease == Some(l);
        assert after.live[holder].lease == Some(l);
      }
    }
    forall k | k in after.live ensures ValidRecord(after, after.live[k]) {
      assert ValidRecord(s, s.live[k]);
    }
    forall a, b | a in after.live && b in after.live && a != b ensures Apart(after.live[a], after.live[b]) {
      assert Apart(s.live[a], s.live[b]);
    }
  }

  /** Between operations every acquired lease is released, or held by exactly one record. */
  lemma ExactlyOneOwner(s: State, lease: Resource)
    requires Valid(s) && lease in s.uses && lease !in s.released
    ensures exists id :: id in s.live && s.live[id].lease == Some(lease) &&
              forall other | other in s.live && other != id :: s.live[other].lease != Some(lease)
  {
    var id :| id in s.live && s.live[id].lease == Some(lease);
    forall other | other in s.live && other != id ensures s.live[other].lease != Some(lease) {
      assert Apart(s.live[id], s.live[other]);
    }
  }

  /** The other records are untouched, and only the lease and binding of record `id` (or new ones)
      were released and closed. */
  ghost predicate OnlyTouches(before: State, after: State, id: Id) {
    && (forall k | k != id ::
      (k in before.live <==> k in after.live) && (k in before.live ==> after.live[k] == before.live[k]))
    && (forall l | l in before.uses && l in after.released && l !in before.released ::
          id in before.live && before.live[id].lease == Some(l))
    && (forall b | b < before.nextResource && b in after.closedBindings && b !in before.closedBindings ::
          id in before.live && before.live[id].binding == Some(b))
  }

  /** A mount under way: a lease acquired and things built on it, but no record yet. */
  ghost predicate Opening(before: State, s: State, id: Id, lease: Option<Resource>, uses: Uses) {
    && Valid(before) && !before.closed && id !in before.live
    && before.nextResource <= s.nextResource
    && (lease.Some? ==> before.nextResource <= lease.value < s.nextResource)
    && (uses.session.Some? ==> before.nextResource <= uses.session.value < s.nextResource)
    && (uses.binding.Some? ==> before.nextResource <= uses.binding.value < s.nextResource)
    && s == before.(uses := if lease.Some?
      then before.uses[lease.value := uses] else before.uses, nextResource := s.nextResource)
  }

  /** What it takes to bring `r` down is the same in both states. */
  predicate SameNeeds(before: State, after: State, r: Live) {
    && (BindingClosed(before, r.binding) <==> BindingClosed(after, r.binding))
    && (r.lease.Some? ==> (r.lease.value in before.released <==> r.lease.value in after.released))
  }

  /** Of the mounts not in `rest`, exactly those that could be taken down are gone; those in
      `rest` are as they were. */
  ghost predicate DownExcept(before: State, s: State, outcomes: map<Id, Cleanup>, rest: set<Id>) {
    && rest <= s.live.Keys <= before.live.Keys == outcomes.Keys
    && (forall k | k in rest :: s.live[k] == before.live[k] && SameNeeds(before, s, before.live[k]))
    && (forall k | k in before.live && k !in rest ::
          k in s.live <==> !CanTakeDown(before, before.live[k], outcomes[k]))
  }

  lemma DownOneMore(before: State, now: State, after: State, outcomes: map<Id, Cleanup>, rest: set<Id>, id: Id,
                    ok: bool)
    requires DownExcept(before, now, outcomes, rest) && id in rest
    requires ok <==> CanTakeDown(now, now.live[id], outcomes[id])
    requires after.live.Keys == if ok then now.live.Keys - {id} else now.live.Keys
    requires forall k | k in now.live && k != id :: after.live[k] == now.live[k] && SameNeeds(now, after, now.live[k])
    ensures DownExcept(before, after, outcomes, rest - {id})
  {}

  lemma GrowsOn(a: State, b: State, c: State)
    requires Grows(a, b) && Grows(b, c)
    ensures Grows(a, c)
  {}

  lemma NeedsStay(before: State, after: State, id: Id, other: Id)
    requires Valid(before) && Grows(before, after) && id in before.live && other in before.live && other != id
    requires OnlyTouches(before, after.(live := before.live), id)
    ensures SameNeeds(before, after, before.live[other])
  {
    assert ValidRecord(before, before.live[other]) && Apart(before.live[other], before.live[id]);
  }

  // ----- The manager -----

  class Manager {
    var s: State

    constructor ()
      ensures Valid(s) && s.live == map[] && !s.closed
    {
      s := State(map[], 1, false, map[], {}, {}, {}, 0);
    }

    method Fresh() returns (r: Resource)
      modifies this
      ensures r == old(s).nextResource && s == old(s).(nextResource := r + 1)
    {
      r := s.nextResource;
      s := s.(nextResource := r + 1);
    }

    /** Closing a binding; closing one twice is harmless. */
    method CloseBinding(binding: Option<Resource>, succeeds: bool) returns (ok: bool)
      modifies this
      ensures ok <==> BindingClosed(old(s), binding) || succeeds
      ensures ok ==> BindingClosed(s, binding)
      ensures s == if ok && binding.Some?
                then old(s).(closedBindings := old(s).closedBindings + {binding.value}) else old(s)
    {
      if binding.None? {
        return true;
      }
      if binding.value in s.closedBindings {
        assert s.closedBindings + {binding.value} == s.closedBindings;
        return true;
      }
      if !succeeds {
        return false;
      }
      s := s.(closedBindings := s.closedBindings + {binding.value});
      return true;
    }

    /** Releasing a lease. Every caller must have taken down what was built on it. */
    method ReleaseView(lease: Option<Resource>, succeeds: bool) returns (ok: bool)
      requires lease.Some? ==> lease.value in s.uses && Unused(s, s.uses[lease.value])
      modifies this
      ensures ok <==> lease.None? || lease.value in old(s).released || succeeds
      ensures ok && lease.Some? ==> lease.value in s.released
      ensures s == if ok && lease.Some? then old(s).(released := old(s).released + {lease.value}) else old(s)
    {
      if lease.None? {
        return true;
      }
      if lease.value in s.released {
        assert s.released + {lease.value} == s.released;
        return true;
      }
      if !succeeds {
        return false;
      }
      s := s.(released := s.released + {lease.value});
      return true;
    }

    /** The session of a record is gone: it is no active mount any more. */
    method MarkDetached(id: Id, expected: bool)
      requires Valid(s) && id in s.live && s.live[id].session.Some?
      modifies this
      ensures Valid(s) && Grows(old(s), s) && OnlyTouches(old(s), s, id)
      ensures id in s.live &&
                s.live[id] == old(s).live[id].(cleanupOnly := true, needsUnmount := false, expectedDone := expected)
      ensures s.released == old(s).released && s.closed == old(s).closed && Detached(s, s.live[id].session)
      ensures s.closedBindings == old(s).closedBindings
    {
      var r := s.live[id].(cleanupOnly := true, needsUnmount := false, expectedDone := expected);
      assert ValidRecord(s, s.live[id]);
      DetachKeeps(s, id, r, r.session.value);
      s := s.(live := s.live[id := r], detached := s.detached + {r.session.value});
    }

    /** Closes the binding and then releases the lease of a record whose session is gone. */
    method CloseAndRelease(id: Id, c: Cleanup) returns (ok: bool)
      requires Valid(s) && id in s.live && s.live[id].cleanupOnly && !s.live[id].needsUnmount
      modifies this
      ensures Valid(s) && Grows(old(s), s) && OnlyTouches(old(s), s, id) && s.live == old(s).live &&
                s.closed == old(s).closed
      ensures ok <==> CanClose(old(s), s.live[id], c)
      ensures ok ==> IsDown(s, s.live[id])
    {
      var r := s.live[id];
      assert ValidRecord(s, r);
      if r.binding.Some? { CloseKeeps(s, r.binding.value); }
      ok := CloseBinding(r.binding, c.close);
      if !ok {
        return;
      }
      assert ValidRecord(s, r);
      if r.lease.Some? { ReleaseKeeps(s, id, r.lease.value); }
      ok := ReleaseView(r.lease, c.release);
    }

    /** Takes a record's mount down as far as the platform lets it; the record stays. */
    method CleanupLive(id: Id, c: Cleanup) returns (ok: bool)
      requires Valid(s) && id in s.live
      modifies this
      ensures Valid(s) && Grows(old(s), s) && OnlyTouches(old(s), s, id) && s.closed == old(s).closed
      ensures id in s.live && s.live[id].lease == old(s).live[id].lease
      ensures ok <==> CanTakeDown(old(s), old(s).live[id], c)
      ensures ok || old(s).live[id].cleanupOnly ==> s.live[id].cleanupOnly
      ensures ok ==> IsDown(s, s.live[id])
      ensures old(s).live[id].needsUnmount && !c.unmount ==>
                s == old(s).(live := old(s).live[id := old(s).live[id].(expectedDone := false)])
    {
      assert ValidRecord(s, s.live[id]);
      if s.live[id].session.Some? && s.live[id].needsUnmount {
        if !c.unmount {
          ExpectKeeps(s, id, false);
          s := s.(live := s.live[id := s.live[id].(expectedDone := false)]);
          return false;
        }
        MarkDetached(id, true);
      }
      assert ValidRecord(s, s.live[id]);
      ok := CloseAndRelease(id, c);
    }

    method Drop(id: Id)
      requires Valid(s) && id in s.live && (s.live[id].lease.Some? ==> s.live[id].lease.value in s.released)
      modifies this
      ensures Valid(s) && s == old(s).(live := old(s).live - {id})
    {
      DropKeeps(s, id);
      s := s.(live := s.live - {id});
    }

    /** Keeps ownership of what a failed mount could not take down. */
    method RetainCleanup(id: Id, lease: Option<Resource>, uses: Uses, needsUnmount: bool, ghost before: State)
      requires Grows(before, s) && s.live == before.live && s.closed == before.closed && s.released == before.released
      requires s.nextToken == before.nextToken
      requires Opening(before, before.(uses := s.uses, nextResource := s.nextResource), id, lease, uses)
      requires needsUnmount ==> uses.session.Some?
      requires !needsUnmount ==> Detached(s, uses.session)
      requires forall b | b in s.closedBindings ::
                 b < s.nextResource && (b < before.nextResource ==> b in before.closedBindings)
      modifies this
      ensures Valid(s) && Grows(before, s) && OnlyTouches(before, s, id)
      ensures id in s.live && s.live[id] == Live(uses.session, uses.binding, lease, before.nextToken, true,
                needsUnmount, uses.session.Some? && !needsUnmount)
      ensures s.released == old(s).released && s.closedBindings == old(s).closedBindings && s.closed == old(s).closed
    {
      var r := Live(uses.session, uses.binding, lease, s.nextToken, true, needsUnmount, uses.session.Some? &&
        !needsUnmount);
      var after := s.(live := s.live[id := r], nextToken := s.nextToken + 1);
      AddKeeps(before, id, r, after);
      s := after;
    }

    /** Takes down a mount that did not come up; what cannot be taken down is retained. */
    method RollbackFailedMount(id: Id, lease: Option<Resource>, uses: Uses, c: Cleanup, ghost before: State)
      requires Opening(before, s, id, lease, uses)
      modifies this
      ensures Valid(s) && Grows(before, s) && OnlyTouches(before, s, id) && s.closed == before.closed
      ensures id !in s.live <==>
                && (uses.session.Some? ==> c.unmount) && (uses.binding.Some? ==> c.close)
                && (lease.Some? ==> c.release)
      ensures if id in s.live then
                && s.live[id].cleanupOnly && s.live[id].lease == lease
                && uses == Uses(s.live[id].binding, s.live[id].session)
              else lease.Some? ==> lease.value in s.released
    {
      NotReleased(before, lease);
      if uses.session.Some? {
        if !c.unmount {
          RetainCleanup(id, lease, uses, true, before);
          return;
        }
        s := s.(detached := s.detached + {uses.session.value});
      }
      var ok := CloseDetached(lease, uses, c);
      if !ok {
        RetainCleanup(id, lease, uses, false, before);
        return;
      }
      GiveUpKeeps(before, s, lease, uses);
    }

    /** Closes the binding and then releases the lease of what has no session any more. */
    method CloseDetached(lease: Option<Resource>, uses: Uses, c: Cleanup) returns (ok: bool)
      requires Detached(s, uses.session) && !(uses.binding.Some? && uses.binding.value in s.closedBindings)
      requires lease.Some? ==> lease.value in s.uses && s.uses[lease.value] == uses && lease.value !in s.released
      modifies this
      ensures ok <==> (uses.binding.Some? ==> c.close) && (lease.Some? ==> c.release)
      ensures ok ==> BindingClosed(s, uses.binding)
      ensures s == old(s).(released := s.released, closedBindings := s.closedBindings)
      ensures s.released == old(s).released + if ok && lease.Some? then {lease.value} else {}
      ensures old(s).closedBindings <= s.closedBindings <=
              old(s).closedBindings + if uses.binding.Some? then {uses.binding.value} else {}
    {
      ok := CloseBinding(uses.binding, c.close);
      if ok {
        ok := ReleaseView(lease, c.release);
      }
    }

    /**
     Mounts `id`. Whatever call fails, the lease acquired here is then held by a record or has
     been released again.
     */
    method Mount(id: Id, writeBack: bool, c: Cleanup, p: Platform) returns (ok: bool)
      requires Valid(s)
      modifies this
      ensures Valid(s) && Grows(old(s), s) && OnlyTouches(old(s), s, id)
      ensures ok <==> id in s.live && !s.live[id].cleanupOnly
      ensures ok <==>
                && !old(s).closed
                && ((id in old(s).live && !old(s).live[id].cleanupOnly) ||
                    ((id in old(s).live ==> CanTakeDown(old(s), old(s).live[id], c)) && ComesUp(writeBack, p)))
      ensures old(s).closed || (id in old(s).live && !old(s).live[id].cleanupOnly) ==> s == old(s)
      ensures ok && s != old(s) ==> s.live[id].lease.Some? == p.leasing && s.live[id].binding.Some? == writeBack
      ensures !ok && !old(s).closed && (id in old(s).live ==> CanTakeDown(old(s), old(s).live[id], c)) ==>
                (id in s.live <==> IsRetained(writeBack, p))
    {
      if s.closed {
        assert id !in s.live;
        return false;
      }
      if id in s.live {
        if !s.live[id].cleanupOnly {
          return true;
        }
        var clean := CleanupLive(id, c);
        if !clean {
          return false;
        }
        Drop(id);
      }
      ok := MountNew(id, writeBack, p);
    }

    method MountNew(id: Id, writeBack: bool, p: Platform) returns (ok: bool)
      requires Valid(s) && id !in s.live && !s.closed
      modifies this
      ensures Valid(s) && Grows(old(s), s) && OnlyTouches(old(s), s, id)
      ensures ok <==> id in s.live && !s.live[id].cleanupOnly
      ensures ok <==> ComesUp(writeBack, p)
      ensures id in s.live <==> ok || IsRetained(writeBack, p)
      ensures id in s.live ==>
                && s.live[id].lease.Some? == p.leasing && s.live[id].binding.Some? == MadeBinding(writeBack, p)
                && s.live[id].session.Some? == MadeSession(writeBack, p)
    {
      ghost var before := s;
      if !p.selected || (p.leasing && !p.acquired) {
        return false;
      }
      var lease: Option<Resource> := None;
      if p.leasing {
        var l := Fresh();
        lease := Some(l);
        s := s.(uses := s.uses[l := Uses(None, None)]);
      }
      var bound := true;
      var binding: Option<Resource> := None;
      if writeBack {
        bound := p.bind.Bound?;
        if p.bind.Bound? || (p.bind.BindError? && p.bind.created) {
          var b := Fresh();
          binding := Some(b);
          if lease.Some? { s := s.(uses := s.uses[lease.value := Uses(binding, None)]); }
        }
      }
      assert Opening(before, s, id, lease, Uses(binding, None));
      if !bound {
        RollbackFailedMount(id, lease, Uses(binding, None), p.rollback, before);
        return false;
      }
      ok := AttachSession(id, lease, binding, p, before);
    }

    method AttachSession(id: Id, lease: Option<Resource>, binding: Option<Resource>, p: Platform, ghost before: State)
      returns (ok: bool)
      requires Opening(before, s, id, lease, Uses(binding, None))
      modifies this
      ensures Valid(s) && Grows(before, s) && OnlyTouches(before, s, id)
      ensures ok <==> id in s.live && !s.live[id].cleanupOnly
      ensures ok <==> p.attach.session && p.attach.done && !p.attach.error
      ensures id in s.live <==>
                || ok
                || !(&& (p.attach.session ==> p.rollback.unmount) && (binding.Some? ==> p.rollback.close)
                     && (lease.Some? ==> p.rollback.release))
      ensures id in s.live ==>
                && s.live[id].lease == lease && s.live[id].binding == binding
                && s.live[id].session.Some? == p.attach.session
    {
      var session: Option<Resource> := None;
      if p.attach.session {
        var attached := Fresh();
        session := Some(attached);
        if lease.Some? { s := s.(uses := s.uses[lease.value := Uses(binding, session)]); }
      }
      var uses := Uses(binding, session);
      assert Opening(before, s, id, lease, uses);
      if p.attach.error || session.None? || !p.attach.done {
        RollbackFailedMount(id, lease, uses, p.rollback, before);
        return false;
      }
      var r := Live(session, binding, lease, s.nextToken, false, true, false);
      var after := s.(live := s.live[id := r], nextToken := s.nextToken + 1);
      NotReleased(before, lease);
      AddKeeps(before, id, r, after);
      s := after;
      return true;
    }

    /** The record goes only once the mount is down and the durable record deleted. */
    method Unmount(id: Id, marked: bool, recovered: bool, deleted: bool, c: Cleanup) returns (ok: bool)
      requires Valid(s)
      modifies this
      ensures Valid(s) && Grows(old(s), s) && OnlyTouches(old(s), s, id)
      ensures ok ==> id !in s.live
      ensures ok <==>
                && !old(s).closed && marked && deleted
                && if id in old(s).live then CanTakeDown(old(s), old(s).live[id], c) else recovered
      ensures !ok && id in old(s).live ==> id in s.live && s.live[id].lease == old(s).live[id].lease
    {
      if s.closed || !marked {
        return false;
      }
      ok := recovered;
      if id in s.live {
        ok := CleanupLive(id, c);
      }
      if !ok || !deleted {
        return false;
      }
      if id in s.live {
        Drop(id);
      }
      return true;
    }

    /** A session ends on its own. */
    method SessionEnds(session: Resource)
      requires Valid(s)
      modifies this
      ensures Valid(s) && s == old(s).(detached := old(s).detached + {session})
    {
      EndKeeps(s, session);
      s := s.(detached := s.detached + {session});
    }

    /** Runs after the session started under `token` has signalled its end. */
    method Monitor(id: Id, token: nat, c: Cleanup)
      requires Valid(s)
      requires id in s.live && s.live[id].token == token ==> s.live[id].session.Some? && Detached(s, s.live[id].session)
      modifies this
      ensures Valid(s) && Grows(old(s), s) && OnlyTouches(old(s), s, id)
      ensures id in s.live && s.live[id].token == token ==> s.live[id].cleanupOnly || s.live[id].expectedDone
      ensures id in old(s).live && old(s).live[id].token == token && !old(s).live[id].expectedDone ==>
                (id !in s.live <==> CanClose(old(s), old(s).live[id], c))
      ensures id !in old(s).live || old(s).live[id].token != token || old(s).live[id].expectedDone ==> s == old(s)
    {
      if id !in s.live || s.live[id].token != token || s.live[id].expectedDone {
        return;
      }
      MarkDetached(id, false);
      var ok := CloseAndRelease(id, c);
      if ok {
        Drop(id);
      }
    }

    /** Takes one mount down and drops its record, or keeps it. */
    method TakeDown(id: Id, c: Cleanup) returns (ok: bool)
      requires Valid(s) && id in s.live
      modifies this
      ensures Valid(s) && Grows(old(s), s) && s.closed == old(s).closed
      ensures ok <==> CanTakeDown(old(s), old(s).live[id], c)
      ensures s.live.Keys == if ok then old(s).live.Keys - {id} else old(s).live.Keys
      ensures forall k | k in old(s).live && k != id ::
                s.live[k] == old(s).live[k] && SameNeeds(old(s), s, old(s).live[k])
    {
      ghost var before := s;
      ok := CleanupLive(id, c);
      forall k | k in before.live && k != id ensures SameNeeds(before, s, before.live[k]) {
        NeedsStay(before, s, id, k);
      }
      assert s.live.Keys == before.live.Keys;
      if ok {
        Drop(id);
      }
    }

    /** Takes down every mount that can be taken down. */
    method TakeDownAll(outcomes: map<Id, Cleanup>) returns (ok: bool)
      requires Valid(s) && outcomes.Keys == s.live.Keys
      modifies this
      ensures Valid(s) && Grows(old(s), s) && s.closed == old(s).closed
      ensures forall id :: id in s.live <==>
                id in old(s).live && !CanTakeDown(old(s), old(s).live[id], outcomes[id])
      ensures ok <==> s.live == map[]
    {
      var rest := s.live.Keys;
      ghost var before := s;
      ok := true;
      while rest != {}
        invariant Valid(s) && Grows(before, s) && s.closed == before.closed
        invariant DownExcept(before, s, outcomes, rest) && (ok <==> s.live.Keys <= rest)
        decreases rest
      {
        ghost var now := s;
        var id :| id in rest;
        var clean := TakeDown(id, outcomes[id]);
        DownOneMore(before, now, s, outcomes, rest, id, clean);
        GrowsOn(before, now, s);
        rest := rest - {id};
        ok := ok && clean;
      }
    }

    /** Takes every mount down. On success no record is left and every lease ever acquired is released. */
    method Shutdown(outcomes: map<Id, Cleanup>, filesystemCloses: bool) returns (ok: bool)
      requires Valid(s) && outcomes.Keys == s.live.Keys
      modifies this
      ensures Valid(s) && Grows(old(s), s)
      ensures ok && !old(s).closed ==> s.closed && s.live == map[] && forall l | l in s.uses :: l in s.released
      ensures ok <==>
                || old(s).closed
                || (&& filesystemCloses
                    && forall id | id in old(s).live :: CanTakeDown(old(s), old(s).live[id], outcomes[id]))
      ensures forall id :: id in s.live <==>
                id in old(s).live && !CanTakeDown(old(s), old(s).live[id], outcomes[id])
    {
      if s.closed {
        return true;
      }
      ok := TakeDownAll(outcomes);
      if !ok || !filesystemCloses {
        return false;
      }
      s := s.(closed := true);
      forall l | l in s.uses ensures l in s.released {
        assert !IsHeld(s, l);
      }
    }
  }

  lemma NotReleased(before: State, lease: Option<Resource>)
    requires Valid(before) && (lease.Some? ==> before.nextResource <= lease.value)
    ensures lease.Some? ==> lease.value !in before.released && lease.value !in before.uses
  {}

  lemma EndKeeps(s: State, session: Resource)
    requires Valid(s)
    ensures Valid(s.(detached := s.detached + {session}))
  {
    var after := s.(detached := s.detached + {session});
    forall l | l in after.uses ensures l in after.released || IsHeld(after, l) {
      if l !in s.released {
        var holder :| holder in s.live && s.live[holder].lease == Some(l);
        assert after.live[holder].lease == Some(l);
      }
    }
    forall k | k in after.live ensures ValidRecord(after, after.live[k]) {
      assert ValidRecord(s, s.live[k]);
    }
  }
}
