/**
 Admission to model inference (services/retrieval/model_loading.py): a monitor that bounds how many
 calls run and how many wait.

 Each stretch during which a thread holds the condition's lock is one step. A waiting call is parked
 inside the condition, or woken: notified or out of time, and still to take the lock again.
 */
module InferenceGate {
  import opened Common

  type Call = nat

  datatype Limits = Limits(concurrency: int, maxWaiters: int, timeout: real)

  predicate ValidLimits(l: Limits) {
    1 <= l.concurrency && 0 <= l.maxWaiters && 0.0 < l.timeout
  }

  /** Where a call is. Parked: asleep in the condition. Woken: notified or out of time, and still to take
      the lock and look again. */
  datatype Phase = Running | Parked | Woken | Finished | Refused | Interrupted

  /** The gate's fields, and the phase of every call that ever arrived. */
  datatype State = State(
    limits: Limits, configured: bool, active: int, waiting: int, rejected: int, calls: map<Call, Phase>)

  datatype Event =
    | Configure(limits: Limits)
    | Enter(call: Call)                  // the first locked stretch of inference()
    | Wake(call: Call)                   // the wait of a parked call times out
    | Resume(call: Call, expired: bool)  // a woken call takes the lock and looks again
    | Interrupt(call: Call)              // an exception leaves the wait
    | Leave(call: Call)                  // the finally of a running call

  function Initial(limits: Limits): State {
    State(limits, false, 0, 0, 0, map[])
  }

  predicate IsIn(s: State, c: Call, p: Phase) {
    c in s.calls && s.calls[c] == p
  }

  /** An event that can happen: calls arrive once, and only a call in the right phase moves on. */
  predicate Enabled(s: State, e: Event) {
    match e
    case Configure(_) => true
    case Enter(c) => c !in s.calls
    case Wake(c) => IsIn(s, c, Parked)
    case Resume(c, _) => IsIn(s, c, Woken)
    case Interrupt(c) => IsIn(s, c, Woken)
    case Leave(c) => IsIn(s, c, Running)
  }

  /** notify_all */
  function WakeAll(calls: map<Call, Phase>): map<Call, Phase> {
    map c | c in calls :: if calls[c] == Parked then Woken else calls[c]
  }

  datatype ConfigureOutcome = Applied | Unchanged | Invalid | Inconsistent | InUse

  function ConfigureResult(s: State, limits: Limits): ConfigureOutcome {
    if !ValidLimits(limits) then Invalid
    else if s.configured && limits == s.limits then Unchanged
    else if s.configured then Inconsistent
    else if s.active != 0 || s.waiting != 0 then InUse
    else Applied
  }

  function Step(s: State, e: Event): State
    requires Enabled(s, e)
  {
    match e
    case Configure(limits) =>
      if ConfigureResult(s, limits) == Applied then s.(limits := limits, configured := true) else s
    case Enter(c) =>
      if s.active < s.limits.concurrency then s.(active := s.active + 1, calls := s.calls[c := Running])
      else if s.waiting >= s.limits.maxWaiters then s.(rejected := s.rejected + 1, calls := s.calls[c := Refused])
      else s.(waiting := s.waiting + 1, calls := s.calls[c := Parked])
    case Wake(c) => s.(calls := s.calls[c := Woken])
    case Resume(c, expired) =>
      if s.active < s.limits.concurrency then
        s.(waiting := s.waiting - 1, active := s.active + 1, calls := s.calls[c := Running])
      else if expired then
        s.(waiting := s.waiting - 1, rejected := s.rejected + 1, calls := s.calls[c := Refused])
      else
        s.(calls := s.calls[c := Parked])
    case Interrupt(c) => s.(waiting := s.waiting - 1, calls := s.calls[c := Interrupted])
    case Leave(c) => s.(active := s.active - 1, calls := WakeAll(s.calls[c := Finished]))
  }

  ghost predicate Runs(s: State, events: seq<Event>)
    decreases |events|
  {
    events == [] || (Enabled(s, events[0]) && Runs(Step(s, events[0]), events[1..]))
  }

  ghost function Run(s: State, events: seq<Event>): State
    requires Runs(s, events)
    decreases |events|
  {
    if events == [] then s else Run(Step(s, events[0]), events[1..])
  }

  // ---------------------------------------------------------------- what every step keeps

  function In(calls: map<Call, Phase>, p: Phase): set<Call> {
    set c | c in calls && calls[c] == p
  }

  function Count(calls: map<Call, Phase>, p: Phase): nat {
    |In(calls, p)|
  }

  lemma InMoved(calls: map<Call, Phase>, c: Call, to: Phase, p: Phase)
    ensures In(calls[c := to], p) == if to == p then In(calls, p) + {c} else In(calls, p) - {c}
  {
    var moved := calls[c := to];
    forall x ensures x in In(moved, p) <==> (if x == c then to == p else x in In(calls, p)) { }
  }

  lemma CountMoved(calls: map<Call, Phase>, c: Call, to: Phase, p: Phase)
    ensures Count(calls[c := to], p)
         == Count(calls, p) - (if c in calls && calls[c] == p then 1 else 0) + (if to == p then 1 else 0)
  {
    InMoved(calls, c, to, p);
    if c in In(calls, p) {
      assert to == p ==> In(calls, p) + {c} == In(calls, p);
    } else {
      assert to != p ==> In(calls, p) - {c} == In(calls, p);
    }
  }

  lemma CountWoken(calls: map<Call, Phase>)
    ensures Count(WakeAll(calls), Parked) == 0
    ensures Count(WakeAll(calls), Woken) == Count(calls, Woken) + Count(calls, Parked)
    ensures forall p :: p != Parked && p != Woken ==> Count(WakeAll(calls), p) == Count(calls, p)
  {
    assert In(WakeAll(calls), Parked) == {};
    assert In(WakeAll(calls), Woken) == In(calls, Woken) + In(calls, Parked);
    assert In(calls, Woken) !! In(calls, Parked);
    forall p | p != Parked && p != Woken ensures Count(WakeAll(calls), p) == Count(calls, p) {
      assert In(WakeAll(calls), p) == In(calls, p);
    }
  }

  lemma SomeCount(calls: map<Call, Phase>, c: Call)
    requires c in calls
    ensures Count(calls, calls[c]) > 0
  {
    assert c in In(calls, calls[c]);
  }

  /** The counters say how many calls are in each phase. */
  ghost predicate Counted(s: State) {
    && s.active == Count(s.calls, Running)
    && s.waiting == Count(s.calls, Parked) + Count(s.calls, Woken)
    && s.rejected == Count(s.calls, Refused)
  }

  /** A call sleeps un-notified only while every slot is taken: no wakeup is lost. */
  ghost predicate NoLostWakeup(s: State) {
    Count(s.calls, Parked) > 0 ==> s.active == s.limits.concurrency
  }

  ghost predicate Inv(s: State) {
    && ValidLimits(s.limits) && Counted(s) && NoLostWakeup(s)
    && s.active <= s.limits.concurrency && s.waiting <= s.limits.maxWaiters
  }

  /** The counts of all phases after one call moves. */
  ghost predicate Moved(s: State, c: Call, to: Phase, p: Phase) {
    Count(s.calls[c := to], p)
      == Count(s.calls, p) - (if IsIn(s, c, p) then 1 else 0) + (if to == p then 1 else 0)
  }

  lemma MoveCounts(s: State, c: Call, to: Phase)
    ensures Moved(s, c, to, Running) && Moved(s, c, to, Parked) && Moved(s, c, to, Woken) && Moved(s, c, to, Refused)
  {
    CountMoved(s.calls, c, to, Running);
    CountMoved(s.calls, c, to, Parked);
    CountMoved(s.calls, c, to, Woken);
    CountMoved(s.calls, c, to, Refused);
  }

  lemma EnterKeeps(s: State, c: Call)
    requires Inv(s) && c !in s.calls
    ensures Inv(Step(s, Enter(c)))
  {
    if s.active < s.limits.concurrency { MoveCounts(s, c, Running); }
    else if s.waiting >= s.limits.maxWaiters { MoveCounts(s, c, Refused); }
    else { MoveCounts(s, c, Parked); }
  }

  lemma ResumeKeeps(s: State, c: Call, expired: bool)
    requires Inv(s) && IsIn(s, c, Woken)
    ensures Inv(Step(s, Resume(c, expired)))
  {
    if s.active < s.limits.concurrency { MoveCounts(s, c, Running); }
    else if expired { MoveCounts(s, c, Refused); }
    else { MoveCounts(s, c, Parked); }
  }

  lemma StepKeeps(s: State, e: Event)
    requires Inv(s) && Enabled(s, e)
    ensures Inv(Step(s, e))
  {
    match e
    case Configure(_) =>
    case Enter(c) => EnterKeeps(s, c);
    case Wake(c) => MoveCounts(s, c, Woken);
    case Resume(c, expired) => ResumeKeeps(s, c, expired);
    case Interrupt(c) => MoveCounts(s, c, Interrupted);
    case Leave(c) => MoveCounts(s, c, Finished); CountWoken(s.calls[c := Finished]);
  }

  /** In every interleaving of any number of calls: the limits hold, each call is exactly one of
      running, waiting, finished, refused or interrupted, and no wakeup is lost. */
  lemma {:induction false} EveryRunKeepsInvariant(s: State, events: seq<Event>)
    requires Inv(s) && Runs(s, events)
    ensures Inv(Run(s, events))
    decreases |events|
  {
    if events != [] {
      StepKeeps(s, events[0]);
      EveryRunKeepsInvariant(Step(s, events[0]), events[1..]);
    }
  }

  lemma InitialInv(limits: Limits)
    requires ValidLimits(limits)
    ensures Inv(Initial(limits))
  {
  }

  /** No deadlock: with nothing running and nothing about to look again, nothing waits. */
  lemma NoOneIsStranded(limits: Limits, events: seq<Event>)
    requires ValidLimits(limits) && Runs(Initial(limits), events)
    ensures var s := Run(Initial(limits), events);
            (forall c :: c in s.calls ==> s.calls[c] != Running && s.calls[c] != Woken) ==>
              (forall c :: c in s.calls ==> s.calls[c] != Parked) && s.waiting == 0
  {
    InitialInv(limits);
    EveryRunKeepsInvariant(Initial(limits), events);
    var s := Run(Initial(limits), events);
    if forall c :: c in s.calls ==> s.calls[c] != Running && s.calls[c] != Woken {
      assert In(s.calls, Running) == {} && In(s.calls, Woken) == {};
      forall c | c in s.calls ensures s.calls[c] != Parked { SomeCount(s.calls, c); }
    }
  }

  /** How an arrival is met, by the calls there are: admitted exactly when fewer run than may, refused exactly
      when the slots and the waiting places are all taken, and otherwise left waiting. */
  lemma ArrivalIsMetByRoom(limits: Limits, events: seq<Event>, c: Call)
    requires ValidLimits(limits) && Runs(Initial(limits), events) && c !in Run(Initial(limits), events).calls
    ensures var s := Run(Initial(limits), events);
            var t := Step(s, Enter(c));
            && c in t.calls
            && (t.calls[c] == Running <==> Count(s.calls, Running) < s.limits.concurrency)
            && (t.calls[c] == Refused <==>
                  && Count(s.calls, Running) >= s.limits.concurrency
                  && Count(s.calls, Parked) + Count(s.calls, Woken) >= s.limits.maxWaiters)
            && (t.calls[c] in {Running, Refused, Parked})
            && t.calls == s.calls[c := t.calls[c]]
  {
    InitialInv(limits);
    EveryRunKeepsInvariant(Initial(limits), events);
  }

  /** A woken call that takes the lock is admitted exactly when a slot is free, refused exactly when none
      is and its time is up. */
  lemma WokenIsMetByRoom(limits: Limits, events: seq<Event>, c: Call, expired: bool)
    requires ValidLimits(limits) && Runs(Initial(limits), events) && IsIn(Run(Initial(limits), events), c, Woken)
    ensures var s := Run(Initial(limits), events);
            var t := Step(s, Resume(c, expired));
            t.calls == s.calls[c :=
              if Count(s.calls, Running) < s.limits.concurrency then Running
              else if expired then Refused else Parked]
  {
    InitialInv(limits);
    EveryRunKeepsInvariant(Initial(limits), events);
  }

  // ---------------------------------------------------------------- histories

  predicate Ended(p: Phase) {
    p.Finished? || p.Refused? || p.Interrupted?
  }

  /** No call is forgotten, and a call that ended stays as it ended. */
  ghost predicate KeepsCall(s: State, t: State, c: Call) {
    c in s.calls ==> c in t.calls && (Ended(s.calls[c]) ==> t.calls[c] == s.calls[c])
  }

  /** Configured limits never change again, and every call stays known. */
  ghost predicate Later(s: State, t: State) {
    && (s.configured ==> t.configured && t.limits == s.limits)
    && s.rejected <= t.rejected
    && (forall c {:trigger KeepsCall(s, t, c)} :: KeepsCall(s, t, c))
  }

  lemma StepIsLater(s: State, e: Event)
    requires Enabled(s, e)
    ensures Later(s, Step(s, e))
  {
    forall c ensures KeepsCall(s, Step(s, e), c) { }
  }

  lemma {:induction false} HistoryOnlyGrows(s: State, events: seq<Event>)
    requires Runs(s, events)
    ensures Later(s, Run(s, events))
    decreases |events|
  {
    if events != [] {
      var t, u := Step(s, events[0]), Run(s, events);
      StepIsLater(s, events[0]);
      HistoryOnlyGrows(t, events[1..]);
      forall c ensures KeepsCall(s, u, c) { assert KeepsCall(s, t, c) && KeepsCall(t, u, c); }
    }
  }

  ghost predicate InUseBy(s: State, c: Call) {
    c in s.calls && !Ended(s.calls[c])
  }

  /** Limits cannot change while any call runs or waits: from its arrival to its end a call is measured
      against the same limits. */
  lemma {:induction false} LimitsFixedForCall(s: State, events: seq<Event>, c: Call)
    requires Inv(s) && Runs(s, events) && InUseBy(s, c) && InUseBy(Run(s, events), c)
    ensures Run(s, events).limits == s.limits
    decreases |events|
  {
    if events != [] {
      var t, u := Step(s, events[0]), Run(s, events);
      StepKeeps(s, events[0]);
      StepIsLater(s, events[0]);
      HistoryOnlyGrows(t, events[1..]);
      assert KeepsCall(s, t, c) && KeepsCall(t, u, c);
      SomeCount(s.calls, c);
      LimitsFixedForCall(t, events[1..], c);
    }
  }

  // ---------------------------------------------------------------- the monitor

  class ModelInferenceGate {
    var limits: Limits
    var configured: bool
    var active: int
    var waiting: int
    var rejected: int
    ghost var state: State

    /** The ghost record of the calls carries the same fields. */
    ghost predicate Valid()
      reads this
    {
      && Inv(state) && state.limits == limits && state.configured == configured
      && state.active == active && state.waiting == waiting && state.rejected == rejected
    }

    constructor (limits: Limits)
      requires ValidLimits(limits)
      ensures Valid() && state == Initial(limits)
    {
      this.limits, configured, active, waiting, rejected := limits, false, 0, 0, 0;
      state := Initial(limits);
    }

    method ConfigureLimits(limits: Limits) returns (r: ConfigureOutcome)
      requires Valid()
      modifies this
      ensures Valid() && r == ConfigureResult(old(state), limits) && state == Step(old(state), Configure(limits))
      ensures r == Invalid <==> limits.concurrency < 1 || limits.maxWaiters < 0 || limits.timeout <= 0.0
      ensures r == Unchanged <==> r != Invalid && old(configured) && limits == old(this.limits)
      ensures r == Inconsistent <==> r != Invalid && old(configured) && limits != old(this.limits)
      ensures r == InUse <==> r != Invalid && !old(configured) && (old(active) != 0 || old(waiting) != 0)
      ensures r == Applied ==> this.limits == limits && configured
      ensures r != Applied ==> this.limits == old(this.limits) && configured == old(configured)
      ensures active == old(active) && waiting == old(waiting) && rejected == old(rejected)
      ensures state.calls == old(state).calls
    {
      if !ValidLimits(limits) {
        return Invalid;
      }
      if configured && limits == this.limits {
        return Unchanged;
      }
      if configured {
        return Inconsistent;
      }
      if active != 0 || waiting != 0 {
        return InUse;
      }
      StepKeeps(state, Configure(limits));
      state := Step(state, Configure(limits));
      this.limits, configured := limits, true;
      return Applied;
    }

    /** The call is admitted, refused, or left waiting (None). */
    method EnterCall(ghost c: Call) returns (admitted: Option<bool>)
      requires Valid() && Enabled(state, Enter(c))
      modifies this
      ensures Valid() && state == Step(old(state), Enter(c))
      ensures admitted == Some(true) <==> old(active) < old(limits).concurrency
      ensures admitted == Some(false) <==>
        old(active) >= old(limits).concurrency && old(waiting) >= old(limits).maxWaiters
      ensures active == old(active) + (if admitted == Some(true) then 1 else 0)
      ensures rejected == old(rejected) + (if admitted == Some(false) then 1 else 0)
      ensures waiting == old(waiting) + (if admitted == None then 1 else 0)
      ensures limits == old(limits) && configured == old(configured)
      ensures admitted == (if IsIn(state, c, Running) then Some(true)
                           else if IsIn(state, c, Refused) then Some(false) else None)
    {
      StepKeeps(state, Enter(c));
      state := Step(state, Enter(c));
      if active >= limits.concurrency {
        if waiting >= limits.maxWaiters {
          rejected := rejected + 1;
          return Some(false);
        }
        waiting := waiting + 1;
        return None;
      }
      active := active + 1;
      return Some(true);
    }

    /** The predicate of the wait, evaluated by a woken call. */
    method ResumeCall(ghost c: Call, expired: bool) returns (admitted: Option<bool>)
      requires Valid() && IsIn(state, c, Woken)
      modifies this
      ensures Valid() && state == Step(old(state), Resume(c, expired))
      ensures admitted == Some(true) <==> old(active) < old(limits).concurrency
      ensures admitted == Some(false) <==> old(active) >= old(limits).concurrency && expired
      ensures active == old(active) + (if admitted == Some(true) then 1 else 0)
      ensures rejected == old(rejected) + (if admitted == Some(false) then 1 else 0)
      ensures waiting == old(waiting) - (if admitted == None then 0 else 1)
      ensures limits == old(limits) && configured == old(configured)
      ensures admitted == (if IsIn(state, c, Running) then Some(true)
                           else if IsIn(state, c, Refused) then Some(false) else None)
    {
      StepKeeps(state, Resume(c, expired));
      state := Step(state, Resume(c, expired));
      var free := active < limits.concurrency;
      if !free && !expired {
        return None;
      }
      waiting := waiting - 1;
      if !free {
        rejected := rejected + 1;
        return Some(false);
      }
      active := active + 1;
      return Some(true);
    }

    method LeaveCall(ghost c: Call)
      requires Valid() && IsIn(state, c, Running)
      modifies this
      ensures Valid() && state == Step(old(state), Leave(c))
      ensures active == old(active) - 1 && waiting == old(waiting) && rejected == old(rejected)
      ensures limits == old(limits) && configured == old(configured)
      ensures state.calls.Keys == old(state).calls.Keys && state.calls[c] == Finished
      ensures forall x :: x in state.calls && x != c ==>
        (state.calls[x] == if old(state).calls[x] == Parked then Woken else old(state).calls[x])
    {
      StepKeeps(state, Leave(c));
      state := Step(state, Leave(c));
      active := active - 1;
    }

    method InterruptCall(ghost c: Call)
      requires Valid() && IsIn(state, c, Woken)
      modifies this
      ensures Valid() && state == Step(old(state), Interrupt(c))
      ensures waiting == old(waiting) - 1 && active == old(active) && rejected == old(rejected)
      ensures limits == old(limits) && configured == old(configured)
    {
      StepKeeps(state, Interrupt(c));
      state := Step(state, Interrupt(c));
      waiting := waiting - 1;
    }
  }
}
