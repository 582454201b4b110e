/**
 Ownership of the vector-store client (services/retrieval/qdrant_store.py:36-96): leases borrow one
 lazily created client, and closing waits for them.

 Each stretch during which a thread holds the condition's lock is one step; closing the client itself
 happens outside the lock and is a step of its own.
 */
module QdrantLease {
  import opened Common

  type Id = nat

  /** The store's fields; the leases and the client each holds; the one thread that is closing, by phase;
      and every client ever made or closed. */
  datatype Closing = Idle | Parked(id: Id) | Woken(id: Id) | Detached(id: Id, client: Option<Id>) | Done

  datatype State = State(
    client: Option<Id>, active: int, closed: bool,
    leases: map<Id, Id>, closing: Closing, made: seq<Id>, shut: seq<Id>)

  datatype Event =
    | Acquire(lease: Id, made: Option<Id>)  // the client the factory would make; None when it raises
    | Release(lease: Id)
    | Close(id: Id)                         // a call of close() takes the lock
    | Wake                                  // the wait of the closing thread returns on its own
    | Resume                                // the woken closing thread takes the lock again
    | Shut                                  // the detached client is closed

  const INITIAL: State := State(None, 0, false, map[], Idle, [], [])

  ghost predicate Enabled(s: State, e: Event) {
    match e
    case Acquire(l, made) => l !in s.leases && (made.Some? ==> made.value !in s.made)
    case Release(l) => l in s.leases
    case Close(_) => true
    case Wake => s.closing.Parked?
    case Resume => s.closing.Woken?
    case Shut => s.closing.Detached?
  }

  /** The loop test of a closing thread that holds the lock: wait on, or detach the client. */
  ghost function CloseLoop(s: State, id: Id): State {
    if s.active != 0 then s.(closing := Parked(id))
    else s.(closing := Detached(id, s.client), client := None)
  }

  ghost function Step(s: State, e: Event): State
    requires Enabled(s, e)
  {
    match e
    case Acquire(l, made) =>
      if s.closed then s
      else if s.client.Some? then s.(active := s.active + 1, leases := s.leases[l := s.client.value])
      else if made.None? then s
      else s.(client := made, active := s.active + 1, leases := s.leases[l := made.value],
              made := s.made + [made.value])
    case Release(l) =>
      var t := s.(active := s.active - 1, leases := s.leases - {l});
      if t.active == 0 && s.closing.Parked? then t.(closing := Woken(s.closing.id)) else t
    case Close(id) => if s.closed then s else CloseLoop(s.(closed := true), id)
    case Wake => s.(closing := Woken(s.closing.id))
    case Resume => CloseLoop(s, s.closing.id)
    case Shut =>
      match s.closing.client
      case Some(c) => s.(closing := Done, shut := s.shut + [c])
      case None => s.(closing := Done)
  }

  ghost predicate Runs(s: State, events: seq<Event>)
    decreases |events|
  {
    events == [] || (Enabled(s, events[0]) && Runs(Step(s, events[0]), events[1..]))
  }

  ghost function Run(s: State, events: seq<Event>): State
    requires Runs(s, events)
    decreases |events|
  {
    if events == [] then s else Run(Step(s, events[0]), events[1..])
  }

  ghost predicate Holds(s: State, l: Id) {
    l in s.leases ==> s.client == Some(s.leases[l])
  }

  ghost predicate Inv(s: State) {
    && s.active == |s.leases|
    && (forall l {:trigger Holds(s, l)} :: Holds(s, l))                // a lease holds the one current client
    && (s.closed <==> s.closing != Idle)
    && (s.closing.Parked? ==> s.active > 0)                            // no lost wakeup
    && (s.closing.Detached? || s.closing.Done? ==> s.active == 0 && s.client.None?)
    && |s.made| <= 1 && (s.client.Some? ==> s.made == [s.client.value])
    && s.shut == (if s.closing.Done? then s.made else [])               // closed once, at the very end
    && (s.closing.Detached? ==> s.closing.client == if s.made == [] then None else Some(s.made[0]))
    && (!s.closing.Detached? && !s.closing.Done? && s.client.None? ==> s.made == [])
  }

  lemma AcquireKeeps(s: State, l: Id, made: Option<Id>)
    requires Inv(s) && Enabled(s, Acquire(l, made))
    ensures Inv(Step(s, Acquire(l, made)))
  {
    var t := Step(s, Acquire(l, made));
    if t != s {
      assert |t.leases| == |s.leases| + 1 by { assert t.leases - {l} == s.leases; }
      if s.client.None? { NothingLeased(s); }
      forall other ensures Holds(t, other) { assert Holds(s, other); }
    }
  }

  /** With no client there is no lease. */
  lemma NothingLeased(s: State)
    requires Inv(s) && s.client.None?
    ensures s.leases == map[]
  {
    forall l ensures l !in s.leases { assert Holds(s, l); }
  }

  lemma ReleaseKeeps(s: State, l: Id)
    requires Inv(s) && l in s.leases
    ensures Inv(Step(s, Release(l)))
  {
    var t := Step(s, Release(l));
    assert s.leases == t.leases[l := s.leases[l]];
    forall other ensures Holds(t, other) { assert Holds(s, other); }
  }

  lemma StepKeeps(s: State, e: Event)
    requires Inv(s) && Enabled(s, e)
    ensures Inv(Step(s, e))
    ensures s.made <= Step(s, e).made && s.shut <= Step(s, e).shut
  {
    match e
    case Acquire(l, made) => AcquireKeeps(s, l, made);
    case Release(l) => ReleaseKeeps(s, l);
    case _ =>
      var t := Step(s, e);
      forall l ensures Holds(t, l) { assert Holds(s, l); }
  }

  /** In every interleaving: at most one client is ever made, it is closed at most once and only after
      every lease is returned, and a closing thread sleeps only while a lease is out. */
  lemma {:induction false} EveryRunKeepsInvariant(s: State, events: seq<Event>)
    requires Inv(s) && Runs(s, events)
    ensures Inv(Run(s, events))
    ensures s.made <= Run(s, events).made && s.shut <= Run(s, events).shut
    decreases |events|
  {
    if events != [] {
      StepKeeps(s, events[0]);
      EveryRunKeepsInvariant(Step(s, events[0]), events[1..]);
    }
  }

  lemma ClosedOnceAndNeverLeased(events: seq<Event>)
    requires Runs(INITIAL, events)
    ensures var s := Run(INITIAL, events);
            && |s.shut| <= 1
            && (s.shut != [] ==> s.leases == map[] && s.shut == s.made)
            && (s.closing.Done? ==> s.shut == s.made)
            && (s.closing.Parked? ==> s.leases != map[])
  {
    EveryRunKeepsInvariant(INITIAL, events);
    var s := Run(INITIAL, events);
    assert s.active == 0 ==> s.leases == map[];
  }

  /** Once closing has begun no lease is granted, in any continuation. */
  lemma {:induction false} NoLeaseAfterClose(s: State, events: seq<Event>)
    requires Inv(s) && Runs(s, events) && s.closed
    ensures Run(s, events).closed && Run(s, events).leases.Keys <= s.leases.Keys
    ensures Run(s, events).made == s.made
    decreases |events|
  {
    if events != [] {
      StepKeeps(s, events[0]);
      NoLeaseAfterClose(Step(s, events[0]), events[1..]);
    }
  }

  class QdrantStore {
    var client: Option<Id>
    var active: int
    var closed: bool
    ghost var state: State

    ghost predicate Valid()
      reads this
    {
      Inv(state) && state.client == client && state.active == active && state.closed == closed
    }

    constructor ()
      ensures Valid() && state == INITIAL
    {
      client, active, closed := None, 0, false;
      state := INITIAL;
    }

    /** Entering connection(): the client to use, or None when the store is closed or the factory raised. */
    method AcquireLease(ghost lease: Id, made: Option<Id>) returns (granted: Option<Id>)
      requires Valid() && Enabled(state, Acquire(lease, made))
      modifies this
      ensures Valid() && state == Step(old(state), Acquire(lease, made))
      ensures granted.Some? <==> !old(closed) && (old(client).Some? || made.Some?)
      ensures granted.Some? ==> lease in state.leases && state.leases[lease] == granted.value
      ensures granted.Some? ==>
        && granted == (if old(client).Some? then old(client) else made) && client == granted
        && active == old(active) + 1 && state.leases == old(state).leases[lease := granted.value]
        && state.made == old(state).made + (if old(client).Some? then [] else [granted.value])
      ensures granted.None? ==> client == old(client) && active == old(active) && state == old(state)
      ensures closed == old(closed)
    {
      if closed {
        return None;
      }
      StepKeeps(state, Acquire(lease, made));
      if client.None? {
        if made.None? {
          return None;
        }
        client := made;
      }
      state := Step(state, Acquire(lease, made));
      active := active + 1;
      return client;
    }

    method ReleaseLease(ghost lease: Id)
      requires Valid() && lease in state.leases
      modifies this
      ensures Valid() && state == Step(old(state), Release(lease))
      ensures active == old(active) - 1 && client == old(client) && closed == old(closed)
      ensures state.leases == old(state).leases - {lease}
      ensures state.closing == if active == 0 && old(state).closing.Parked? then Woken(old(state).closing.id)
                               else old(state).closing
    {
      StepKeeps(state, Release(lease));
      state := Step(state, Release(lease));
      active := active - 1;
    }

    /** close() up to its first wait: whether it returned, waits, or goes on to close a client. */
    method BeginClose(ghost id: Id) returns (detached: Option<Option<Id>>)
      requires Valid()
      modifies this
      ensures Valid() && state == Step(old(state), Close(id))
      ensures detached.Some? <==> !old(closed) && old(active) == 0
      ensures detached.Some? ==> state.closing == Detached(id, detached.value)
      ensures detached.Some? ==> detached.value == old(client) && client == None
      ensures closed && active == old(active) && state.leases == old(state).leases
      ensures old(closed) ==> state == old(state)
      ensures !old(closed) && old(active) != 0 ==> state.closing == Closing.Parked(id) && client == old(client)
    {
      StepKeeps(state, Close(id));
      state := Step(state, Close(id));
      if closed {
        return None;
      }
      closed := true;
      if active != 0 {
        return None;
      }
      detached := Some(client);
      client := None;
    }

    /** The wait of close() has returned. */
    method ResumeClose() returns (detached: Option<Option<Id>>)
      requires Valid() && state.closing.Woken?
      modifies this
      ensures Valid() && state == Step(old(state), Resume)
      ensures detached.Some? <==> old(active) == 0
      ensures detached.Some? ==> state.closing == Detached(old(state.closing.id), detached.value)
      ensures detached.Some? ==> detached.value == old(client) && client == None
      ensures detached.None? ==> client == old(client) && state.closing == Closing.Parked(old(state).closing.id)
      ensures closed == old(closed) && active == old(active) && state.leases == old(state).leases
    {
      StepKeeps(state, Resume);
      state := Step(state, Resume);
      if active != 0 {
        return None;
      }
      detached := Some(client);
      client := None;
    }
  }
}
