/**
 What holds in every run of the companion-agent bridge, however its coroutines interleave.
 */
module BridgeSafety {
  import opened Common
  import opened BridgeProtocol

  lemma {:induction false} EveryRunKeepsInvariant(cfg: Config, events: seq<Event>)
    ensures Inv(cfg, Run(cfg, events))
  {
    if events != [] {
      EveryRunKeepsInvariant(cfg, events[..|events| - 1]);
      StepKeeps(cfg, Run(cfg, events[..|events| - 1]), events[|events| - 1]);
    }
  }

  /** No waiter is stranded: an unresolved future sits under its own request id in the pending
      map of the connection its tenant has now, and its caller has not left. */
  lemma NoWaiterStranded(cfg: Config, events: seq<Event>, id: Id)
    requires id in Run(cfg, events).commands && Run(cfg, events).commands[id].future.Unresolved?
    ensures Answerable(Run(cfg, events), id)
  {
    EveryRunKeepsInvariant(cfg, events);
    assert CommandOk(Run(cfg, events), id);
  }

  /** Once every caller has left, no pending map holds an entry, no lock is held and no future
      is unresolved. */
  lemma NothingLeaks(cfg: Config, events: seq<Event>)
    requires forall id :: id in Run(cfg, events).commands ==> Run(cfg, events).commands[id].phase.Finished?
    ensures var s := Run(cfg, events);
            && (forall c :: c in s.objects ==> s.objects[c].pending == map[] && s.objects[c].sendLock.None?)
            && (forall id :: id in s.commands ==> !s.commands[id].future.Unresolved?)
  {
    EveryRunKeepsInvariant(cfg, events);
    var s := Run(cfg, events);
    forall c | c in s.objects ensures s.objects[c].pending == map[] && s.objects[c].sendLock.None? {
      assert ConnectionOk(cfg, s, c) && LockOk(s, c);
      forall r ensures r !in s.objects[c].pending {
        assert r in s.objects[c].pending ==> EntryOk(s, c, r);
      }
    }
    forall id | id in s.commands ensures !s.commands[id].future.Unresolved? {
      assert CommandOk(s, id);
    }
  }

  lemma PendingNeverExceedsMaximum(cfg: Config, events: seq<Event>, c: Id)
    requires c in Run(cfg, events).objects
    ensures |Run(cfg, events).objects[c].pending| <= cfg.maxPending
  {
    EveryRunKeepsInvariant(cfg, events);
    assert ConnectionOk(cfg, Run(cfg, events), c);
  }

  // ---------------------------------------------------------------- one step

  /** A command keeps its identity, and a future that is done keeps its outcome. */
  ghost predicate Persists(before: State, after: State, id: Id)
    requires id in before.commands
  {
    && id in after.commands
    && after.commands[id].tenant == before.commands[id].tenant
    && after.commands[id].connection == before.commands[id].connection
    && after.commands[id].request == before.commands[id].request
    && (!before.commands[id].future.Unresolved? ==> after.commands[id].future == before.commands[id].future)
  }

  predicate RegistryEvent(e: Event) {
    e.RegisterCalled? || e.RegisterChecked? || e.Unregistered? || e.CloseCalled?
  }

  /** Joining, leaving and closing touch commands only by failing unresolved futures. */
  lemma RegistryStepOnlyFails(cfg: Config, s: State, e: Event)
    requires Inv(cfg, s) && RegistryEvent(e)
    ensures var after := Step(cfg, s, e).commands;
            && after.Keys == s.commands.Keys
            && (forall id :: id in s.commands ==>
                  || after[id] == s.commands[id]
                  || (s.commands[id].future.Unresolved? && after[id].future.Failed?
                      && after[id] == s.commands[id].(future := after[id].future)))
  {
  }

  predicate MessageEvent(e: Event) {
    e.ResultArrived? || e.ResultChecked? || e.SendCalled?
  }

  predicate NewlyWriting(before: State, after: State, id: Id) {
    && id in after.commands && after.commands[id].phase.Writing?
    && (id in before.commands ==> !before.commands[id].phase.Writing?)
  }

  predicate NewlyResolved(before: State, after: State, id: Id) {
    && id in after.commands && after.commands[id].future.Resolved?
    && (id in before.commands ==> before.commands[id].future.Unresolved?)
  }

  lemma MessageStep(cfg: Config, s: State, e: Event, id: Id)
    requires Inv(cfg, s) && MessageEvent(e)
    ensures id in s.commands ==> Persists(s, Step(cfg, s, e), id)
    ensures !NewlyWriting(s, Step(cfg, s, e), id)
  {
    assert id in s.commands ==> CommandOk(s, id);
    if e.ResultChecked? && e.call in s.deliveries { assert DeliveryOk(s, e.call); }
  }

  /** What a step of a send_command coroutine may do to any command. */
  ghost predicate CoroutineEffect(s: State, after: State, id: Id) {
    && (id in s.commands ==> Persists(s, after, id))
    && (NewlyWriting(s, after, id) ==>
          id in s.commands && IsCurrent(s, s.commands[id].tenant, s.commands[id].connection))
    && !NewlyResolved(s, after, id)
  }

  lemma LockEffect(cfg: Config, s: State, command: Id, id: Id)
    ensures CoroutineEffect(s, LockStep(cfg, s, command), id)
  {
  }

  lemma SendCheckedEffect(s: State, command: Id, ok: bool, id: Id)
    ensures CoroutineEffect(s, SendCheckedStep(s, command, ok), id)
  {
  }

  lemma WriteEffect(s: State, command: Id, ok: bool, id: Id)
    ensures CoroutineEffect(s, WriteStep(s, command, ok), id)
  {
  }

  lemma LeaveEffect(s: State, command: Id, id: Id)
    requires command in s.commands && s.commands[command].connection in s.objects
    ensures CoroutineEffect(s, Leave(s, command), id)
  {
  }

  lemma InterruptEffect(s: State, command: Id, id: Id)
    ensures CoroutineEffect(s, InterruptStep(s, command), id)
  {
  }

  lemma CoroutineStep(cfg: Config, s: State, e: Event, id: Id)
    requires Inv(cfg, s) && !RegistryEvent(e) && !MessageEvent(e)
    ensures CoroutineEffect(s, Step(cfg, s, e), id)
  {
    match e
    case LockGranted(command) => LockEffect(cfg, s, command, id);
    case SendChecked(command, ok) => SendCheckedEffect(s, command, ok, id);
    case WriteReturned(command, ok) => WriteEffect(s, command, ok, id);
    case Woken(command) => if Suspended(s, command, AwaitingResult) { LeaveEffect(s, command, id); }
    case InterruptDelivered(command) => InterruptEffect(s, command, id);
    case Unwound(command) => if Suspended(s, command, Interrupted) { LeaveEffect(s, command, id); }
    case _ =>
  }

  lemma StepPersists(cfg: Config, s: State, e: Event, id: Id)
    requires Inv(cfg, s) && id in s.commands
    ensures Persists(s, Step(cfg, s, e), id)
  {
    if RegistryEvent(e) { RegistryStepOnlyFails(cfg, s, e); }
    else if MessageEvent(e) { MessageStep(cfg, s, e, id); }
    else { CoroutineStep(cfg, s, e, id); }
  }

  /** A write to a socket begins only on the tenant's current connection, with the lock held and
      no other command of that connection in its locked section. */
  lemma StepWritesOnCurrent(cfg: Config, s: State, e: Event, id: Id)
    requires Inv(cfg, s) && NewlyWriting(s, Step(cfg, s, e), id)
    ensures var after := Step(cfg, s, e);
            && IsCurrent(s, after.commands[id].tenant, after.commands[id].connection)
            && (forall other :: other in after.commands && other != id
                  && after.commands[other].connection == after.commands[id].connection
                  ==> after.commands[other].phase !in {Verifying, Writing})
  {
    var after := Step(cfg, s, e);
    if RegistryEvent(e) { RegistryStepOnlyFails(cfg, s, e); }
    else if MessageEvent(e) { MessageStep(cfg, s, e, id); }
    else { CoroutineStep(cfg, s, e, id); StepPersists(cfg, s, e, id); }
    StepKeeps(cfg, s, e);
    assert CommandOk(after, id);
    forall other | other in after.commands && other != id
                   && after.commands[other].connection == after.commands[id].connection
      ensures after.commands[other].phase !in {Verifying, Writing}
    {
      assert CommandOk(after, other);
    }
  }

  /** The message that answers a command came over the very socket the command was issued on,
      and that socket's connection is still its tenant's. */
  ghost predicate AnsweredBy(s: State, e: Event, id: Id, message: string)
    requires id in s.commands
  {
    var cmd := s.commands[id];
    && cmd.connection in s.objects
    && IsCurrent(s, cmd.tenant, cmd.connection)
    && cmd.future.Unresolved?
    && match e
       case ResultArrived(tenant, socket, reply, text) =>
         tenant == cmd.tenant && socket == s.objects[cmd.connection].socket && reply == Some(cmd.request)
                 && text == message
       case ResultChecked(call, ok) =>
         ok && call in s.deliveries
         && s.deliveries[call] == Delivery(cmd.tenant, s.objects[cmd.connection].socket, cmd.connection, cmd.request,
                 id, message)
       case _ => false
  }

  lemma StepAnswers(cfg: Config, s: State, e: Event, id: Id)
    requires Inv(cfg, s) && NewlyResolved(s, Step(cfg, s, e), id)
    ensures id in s.commands && AnsweredBy(s, e, id, Step(cfg, s, e).commands[id].future.message)
  {
    if RegistryEvent(e) { RegistryStepOnlyFails(cfg, s, e); }
    else if !MessageEvent(e) { CoroutineStep(cfg, s, e, id); }
    else { MessageAnswers(cfg, s, e, id); }
  }

  lemma MessageAnswers(cfg: Config, s: State, e: Event, id: Id)
    requires Inv(cfg, s) && MessageEvent(e) && NewlyResolved(s, Step(cfg, s, e), id)
    ensures id in s.commands && AnsweredBy(s, e, id, Step(cfg, s, e).commands[id].future.message)
  {
    assert id in s.commands ==> CommandOk(s, id);
    match e
    case ResultArrived(tenant, socket, reply, message) =>
      if tenant in s.connections && reply.Some? {
        assert TenantOk(s, tenant) && ConnectionOk(cfg, s, s.connections[tenant]);
        assert reply.value in s.objects[s.connections[tenant]].pending ==>
                EntryOk(s, s.connections[tenant], reply.value);
      }
    case ResultChecked(call, ok) =>
      if call in s.deliveries { assert DeliveryOk(s, call); }
    case _ =>
  }

  /** Unregistering removes a connection only for its own socket, and touches no other tenant. */
  lemma LateUnregisterKeepsSuccessor(cfg: Config, s: State, tenant: string, socket: Id)
    requires Inv(cfg, s)
    ensures var after := Step(cfg, s, Unregistered(tenant, socket));
            && ((tenant in s.connections && s.connections[tenant] in s.objects
                 && s.objects[s.connections[tenant]].socket != socket) ==> after == s)
            && (forall t :: t != tenant && t in s.connections ==> IsCurrent(after, t, s.connections[t]))
            && (forall id :: id in s.commands && s.commands[id].tenant != tenant ==>
                  id in after.commands && after.commands[id] == s.commands[id])
  {
    var after := Step(cfg, s, Unregistered(tenant, socket));
    assert tenant in s.connections ==> TenantOk(s, tenant);
    forall id | id in s.commands && s.commands[id].tenant != tenant
      ensures id in after.commands && after.commands[id] == s.commands[id]
    {
      assert CommandOk(s, id);
      if tenant in s.connections {
        var c := s.connections[tenant];
        assert ConnectionOk(cfg, s, c);
        forall r | r in s.objects[c].pending ensures s.objects[c].pending[r] != id { assert EntryOk(s, c, r); }
        assert id !in s.objects[c].pending.Values;
      }
    }
  }

  lemma StepStaysClosed(cfg: Config, s: State, e: Event)
    requires Inv(cfg, s) && s.closing
    ensures Step(cfg, s, e).closing && Step(cfg, s, e).connections == map[]
  {
  }

  // ---------------------------------------------------------------- whole runs

  lemma RunSplits(cfg: Config, events: seq<Event>, k: nat)
    requires k < |events|
    ensures Run(cfg, events[..k + 1]) == Step(cfg, Run(cfg, events[..k]), events[k])
  {
    assert events[..k + 1][..|events[..k + 1]| - 1] == events[..k];
  }

  /** The states of a run, one before each event and one at the end. */
  function States(cfg: Config, events: seq<Event>): (states: seq<State>)
    ensures |states| == |events| + 1
  {
    seq(|events| + 1, k requires 0 <= k <= |events| => Run(cfg, events[..k]))
  }

  ghost predicate PersistsAt(states: seq<State>, k: nat, id: Id)
    requires k + 1 < |states|
  {
    id in states[k].commands ==> Persists(states[k], states[k + 1], id)
  }

  lemma {:induction false} PersistsThroughout(states: seq<State>, i: nat, j: nat, id: Id)
    requires i <= j < |states| && id in states[i].commands
    requires forall k: nat {:trigger PersistsAt(states, k, id)} :: k + 1 < |states| ==> PersistsAt(states, k, id)
    ensures Persists(states[i], states[j], id)
    decreases j
  {
    if i < j {
      PersistsThroughout(states, i, j - 1, id);
      assert PersistsAt(states, j - 1, id);
    }
  }

  lemma StatesPersist(cfg: Config, events: seq<Event>, k: nat, id: Id)
    requires k < |events|
    ensures PersistsAt(States(cfg, events), k, id)
  {
    if id in Run(cfg, events[..k]).commands {
      EveryRunKeepsInvariant(cfg, events[..k]);
      StepPersists(cfg, Run(cfg, events[..k]), events[k], id);
      RunSplits(cfg, events, k);
    }
  }

  /** A future is resolved at most once: whatever it holds when it is done, it holds for ever. */
  lemma ResolvedAtMostOnce(cfg: Config, events: seq<Event>, i: nat, j: nat, id: Id)
    requires i <= j <= |events|
    requires id in Run(cfg, events[..i]).commands
    ensures Persists(Run(cfg, events[..i]), Run(cfg, events[..j]), id)
  {
    var states := States(cfg, events);
    forall k: nat | k + 1 < |states| ensures PersistsAt(states, k, id) { StatesPersist(cfg, events, k, id); }
    PersistsThroughout(states, i, j, id);
  }

  ghost predicate StaysClosedAt(states: seq<State>, k: nat)
    requires k + 1 < |states|
  {
    states[k].closing ==> states[k + 1].closing && states[k + 1].connections == map[]
  }

  lemma {:induction false} ClosedThroughout(states: seq<State>, i: nat, j: nat)
    requires i <= j < |states| && states[i].closing && states[i].connections == map[]
    requires forall k: nat {:trigger StaysClosedAt(states, k)} :: k + 1 < |states| ==> StaysClosedAt(states, k)
    ensures states[j].closing && states[j].connections == map[]
    decreases j
  {
    if i < j {
      ClosedThroughout(states, i, j - 1);
      assert StaysClosedAt(states, j - 1);
    }
  }

  lemma StatesStayClosed(cfg: Config, events: seq<Event>, k: nat)
    requires k < |events|
    ensures StaysClosedAt(States(cfg, events), k)
  {
    if Run(cfg, events[..k]).closing {
      EveryRunKeepsInvariant(cfg, events[..k]);
      StepStaysClosed(cfg, Run(cfg, events[..k]), events[k]);
      RunSplits(cfg, events, k);
    }
  }

  /** After close has started, no connection is ever registered again - not even by a register
      call that was suspended in its device check when close ran. */
  lemma ClosedForEver(cfg: Config, events: seq<Event>, i: nat, j: nat)
    requires i <= j <= |events| && Run(cfg, events[..i]).closing
    ensures Run(cfg, events[..j]).closing && Run(cfg, events[..j]).connections == map[]
  {
    var states := States(cfg, events);
    EveryRunKeepsInvariant(cfg, events[..i]);
    forall k: nat | k + 1 < |states| ensures StaysClosedAt(states, k) { StatesStayClosed(cfg, events, k); }
    ClosedThroughout(states, i, j);
  }

  // ---------------------------------------------------------------- where answers come from

  /** The event brings the delivery's message over its socket, whose connection is the tenant's current
      one and still waits for it. */
  ghost predicate Brings(s: State, e: Event, d: Delivery) {
    && e == ResultArrived(d.tenant, d.socket, Some(d.request), d.message)
    && IsCurrent(s, d.tenant, d.connection)
    && d.connection in s.objects && s.objects[d.connection].socket == d.socket
    && d.request in s.objects[d.connection].pending && s.objects[d.connection].pending[d.request] == d.command
  }

  lemma ResultDelivers(cfg: Config, s: State, tenant: string, socket: Id, reply: Option<string>, message: string,
                       call: Id)
    requires call in ResultStep(cfg, s, tenant, socket, reply, message).deliveries
    ensures var d := ResultStep(cfg, s, tenant, socket, reply, message).deliveries[call];
            (call in s.deliveries && s.deliveries[call] == d)
                    || Brings(s, ResultArrived(tenant, socket, reply, message), d)
  {
  }

  lemma ResultCheckedDelivers(s: State, checked: Id, ok: bool)
    ensures var after := ResultCheckedStep(s, checked, ok).deliveries;
            forall call :: call in after ==> call in s.deliveries && after[call] == s.deliveries[call]
  {
  }

  lemma RegistryDelivers(cfg: Config, s: State, e: Event)
    requires RegistryEvent(e) || e.SendCalled?
    ensures Step(cfg, s, e).deliveries == s.deliveries
  {
  }

  lemma CoroutineDelivers(cfg: Config, s: State, e: Event)
    requires !RegistryEvent(e) && !MessageEvent(e)
    ensures Step(cfg, s, e).deliveries == s.deliveries
  {
  }

  lemma StepDelivers(cfg: Config, s: State, e: Event, call: Id)
    requires call in Step(cfg, s, e).deliveries
    ensures var d := Step(cfg, s, e).deliveries[call];
            (call in s.deliveries && s.deliveries[call] == d) || Brings(s, e, d)
  {
    match e
    case ResultArrived(tenant, socket, reply, message) => ResultDelivers(cfg, s, tenant, socket, reply, message, call);
    case ResultChecked(checked, ok) => ResultCheckedDelivers(s, checked, ok);
    case _ =>
      if RegistryEvent(e) || e.SendCalled? { RegistryDelivers(cfg, s, e); }
      else { CoroutineDelivers(cfg, s, e); }
  }

  /** A result that is being verified did arrive: at a definite event, over the socket of the connection
      that was current then. */
  lemma {:induction false} EveryDeliveryArrived(cfg: Config, events: seq<Event>, call: Id) returns (h: nat)
    requires call in Run(cfg, events).deliveries
    ensures h < |events| && Brings(Run(cfg, events[..h]), events[h], Run(cfg, events).deliveries[call])
  {
    var n := |events| - 1;
    StepDelivers(cfg, Run(cfg, events[..n]), events[n], call);
    if Brings(Run(cfg, events[..n]), events[n], Run(cfg, events).deliveries[call]) {
      h := n;
    } else {
      h := EveryDeliveryArrived(cfg, events[..n], call);
      assert events[..n][..h] == events[..h];
    }
  }

  /** The message arrived at an event, over the socket the command was issued on, while that socket's
      connection was the tenant's current one and the command was pending on it. */
  ghost predicate ArrivedFor(s: State, e: Event, id: Id, cmd: Command, message: string) {
    && cmd.connection in s.objects
    && Brings(s, e, Delivery(cmd.tenant, s.objects[cmd.connection].socket, cmd.connection, cmd.request, id, message))
  }

  /** An answer given at one step had arrived by then. */
  lemma AnswerArrived(cfg: Config, events: seq<Event>, k: nat, id: Id, message: string) returns (h: nat)
    requires k < |events| && id in Run(cfg, events[..k]).commands
    requires AnsweredBy(Run(cfg, events[..k]), events[k], id, message)
    ensures h <= k && ArrivedFor(Run(cfg, events[..h]), events[h], id, Run(cfg, events[..k]).commands[id], message)
  {
    var s := Run(cfg, events[..k]);
    EveryRunKeepsInvariant(cfg, events[..k]);
    assert CommandOk(s, id);
    if events[k].ResultArrived? {
      h := k;
    } else {
      h := EveryDeliveryArrived(cfg, events[..k], events[k].call);
      assert events[..k][..h] == events[..h];
    }
  }

  /** Every answer a caller of a run ever gets arrived at one definite event h and was given at event k,
      the same one unless devices are verified: it came over the socket its command was issued on, with
      its request id, and at both events that socket's connection was the tenant's. */
  lemma EveryAnswerIsGenuine(cfg: Config, events: seq<Event>, id: Id) returns (h: nat, k: nat)
    requires id in Run(cfg, events).commands && Run(cfg, events).commands[id].future.Resolved?
    ensures h <= k < |events| && id in Run(cfg, events[..k]).commands
    ensures AnsweredBy(Run(cfg, events[..k]), events[k], id, Run(cfg, events).commands[id].future.message)
    ensures ArrivedFor(Run(cfg, events[..h]), events[h], id, Run(cfg, events[..k]).commands[id],
                       Run(cfg, events).commands[id].future.message)
  {
    k := AnswerGiven(cfg, events, id);
    h := AnswerArrived(cfg, events, k, id, Run(cfg, events).commands[id].future.message);
  }

  lemma {:induction false} AnswerGiven(cfg: Config, events: seq<Event>, id: Id) returns (k: nat)
    requires id in Run(cfg, events).commands && Run(cfg, events).commands[id].future.Resolved?
    ensures k < |events| && id in Run(cfg, events[..k]).commands
    ensures AnsweredBy(Run(cfg, events[..k]), events[k], id, Run(cfg, events).commands[id].future.message)
  {
    var n := |events| - 1;
    var before := Run(cfg, events[..n]);
    EveryRunKeepsInvariant(cfg, events[..n]);
    if id in before.commands && !before.commands[id].future.Unresolved? {
      StepPersists(cfg, before, events[n], id);
      k := AnswerGiven(cfg, events[..n], id);
      assert events[..n][..k] == events[..k];
    } else {
      StepAnswers(cfg, before, events[n], id);
      k := n;
    }
  }

  // ---------------------------------------------------------------- genuine results reach their callers

  /** A verified result reaches its caller: whenever the check of a delivery succeeds and its command still
      waits, the command has the message and is no longer pending. */
  lemma GenuineResultResolves(cfg: Config, events: seq<Event>, call: Id)
    requires call in Run(cfg, events).deliveries
    ensures var s := Run(cfg, events);
            var after := Run(cfg, events + [ResultChecked(call, true)]);
            var d := s.deliveries[call];
            && d.command in s.commands && d.command in after.commands && d.connection in after.objects
            && call !in after.deliveries
            && (s.commands[d.command].future.Unresolved? ==>
                  && after.commands[d.command].future == Resolved(d.message)
                  && d.request !in after.objects[d.connection].pending)
  {
    EveryRunKeepsInvariant(cfg, events);
    var s := Run(cfg, events);
    assert (events + [ResultChecked(call, true)])[..|events|] == events;
    assert DeliveryOk(s, call);
    if s.commands[s.deliveries[call].command].future.Unresolved? { RecheckNeverFires(cfg, s, call); }
  }

  /** An arriving result with the request id of a command that waits, over the socket the command was
      issued on, reaches the caller at once; if the device must be verified first, the check of exactly
      this message is left to succeed. */
  lemma ArrivingResultResolves(cfg: Config, events: seq<Event>, id: Id, message: string)
    requires id in Run(cfg, events).commands && Run(cfg, events).commands[id].future.Unresolved?
    ensures var s := Run(cfg, events);
            var cmd := s.commands[id];
            cmd.connection in s.objects
            && var held := s.objects[cmd.connection];
               var after := Run(cfg, events + [ResultArrived(cmd.tenant, held.socket, Some(cmd.request), message)]);
               && id in after.commands && cmd.connection in after.objects
               && (if cfg.verifiesDevices && held.device.Some? then
                     && after.commands == s.commands && s.next !in s.deliveries
                     && after.deliveries == s.deliveries[s.next :=
                          Delivery(cmd.tenant, held.socket, cmd.connection, cmd.request, id, message)]
                   else
                     && after.commands[id].future == Resolved(message)
                     && cmd.request !in after.objects[cmd.connection].pending)
  {
    EveryRunKeepsInvariant(cfg, events);
    var s := Run(cfg, events);
    assert CommandOk(s, id);
    var cmd := s.commands[id];
    var e := ResultArrived(cmd.tenant, s.objects[cmd.connection].socket, Some(cmd.request), message);
    assert (events + [e])[..|events|] == events;
    assert s.next in s.deliveries ==> DeliveryOk(s, s.next);
  }

  /** No command of any run uses a capability its agent had not switched on, and its connection is its
      tenant's own. */
  lemma CapabilityWasEnabled(cfg: Config, events: seq<Event>, id: Id)
    requires id in Run(cfg, events).commands
    ensures var s := Run(cfg, events);
            var cmd := s.commands[id];
            && cmd.connection in s.objects && s.objects[cmd.connection].tenant == cmd.tenant
            && cmd.capability in s.objects[cmd.connection].capabilities
            && s.objects[cmd.connection].capabilities[cmd.capability] == Flag(true)
  {
    EveryRunKeepsInvariant(cfg, events);
    assert CommandOk(Run(cfg, events), id);
  }

  /** A caller that can be served is served: with the capability on and room for one more command, a call
      with a fresh request id is queued. */
  lemma ServableCallIsQueued(cfg: Config, events: seq<Event>, tenant: string, capability: string, request: string)
    requires var s := Run(cfg, events);
             && tenant in s.connections && s.connections[tenant] in s.objects && Fresh(s, request)
             && capability in s.objects[s.connections[tenant]].capabilities
             && s.objects[s.connections[tenant]].capabilities[capability] == Flag(true)
             && |s.objects[s.connections[tenant]].pending| < cfg.maxPending
    ensures var s := Run(cfg, events);
            var after := Run(cfg, events + [SendCalled(tenant, capability, request, true)]);
            && s.next !in s.commands
            && after.commands == s.commands[s.next :=
                 Command(tenant, s.connections[tenant], request, capability, WaitingLock, Unresolved)]
            && Answerable(after, s.next)
  {
    EveryRunKeepsInvariant(cfg, events);
    var s := Run(cfg, events);
    assert TenantOk(s, tenant);
    assert s.next in s.commands ==> CommandOk(s, s.next);
    assert (events + [SendCalled(tenant, capability, request, true)])[..|events|] == events;
  }
}
