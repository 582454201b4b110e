/**
 The bridge itself: a registry updated in place, one method for each stretch of a coroutine
 between two awaits.  Every method takes the step its event has in BridgeProtocol.
 */
module Bridge {
  import opened Common
  import opened BridgeProtocol

  datatype Refusal = ShutDown | InvalidArgument | NotConnected | CapabilityDisabled | TooManyPending

  datatype RegisterOutcome = RegisterRefused(why: Refusal) | Checking(call: Id) | Registered(connection: Id)

  lemma FailWaitingTwice(s: State, first: set<Id>, second: set<Id>, why: Failure)
    ensures FailWaiting(FailWaiting(s, first, why), second, why) == FailWaiting(s, first + second, why)
  {
    var once := FailWaiting(s, first, why);
    forall id | id in s.commands
      ensures WaitsOn(s, first + second, id) <==> WaitsOn(s, first, id) || WaitsOn(once, second, id)
    {
    }
    assert FailWaiting(once, second, why).commands == FailWaiting(s, first + second, why).commands;
  }

  lemma FailWaitingSame(s: State, t: State, doomed: set<Id>, why: Failure)
    requires s.objects == t.objects && s.commands == t.commands
    ensures FailWaiting(t, doomed, why).commands == FailWaiting(s, doomed, why).commands
  {
    assert forall id :: WaitsOn(t, doomed, id) <==> WaitsOn(s, doomed, id);
  }

  /** Exactly the open futures of the commands issued on these connections fail. */
  ghost predicate OnlyFails(before: map<Id, Command>, after: map<Id, Command>, doomed: set<Id>, why: Failure) {
    && after.Keys == before.Keys
    && forall id :: id in before ==>
         after[id] == if before[id].future.Unresolved? && before[id].connection in doomed
                      then before[id].(future := Failed(why)) else before[id]
  }

  lemma FailWaitingFailsOnly(cfg: Config, s: State, doomed: set<Id>, why: Failure)
    requires Inv(cfg, s)
    ensures OnlyFails(s.commands, FailWaiting(s, doomed, why).commands, doomed, why)
  {
    forall id | id in s.commands && s.commands[id].future.Unresolved?
      ensures WaitsOn(s, doomed, id) <==> s.commands[id].connection in doomed
    {
      assert CommandOk(s, id);
      var c := s.commands[id].connection;
      assert s.objects[c].pending[s.commands[id].request] in s.objects[c].pending.Values;
      forall o | o in doomed && o in s.objects && id in s.objects[o].pending.Values ensures o == c {
        assert ConnectionOk(cfg, s, o);
        var r :| r in s.objects[o].pending && s.objects[o].pending[r] == id;
        assert EntryOk(s, o, r);
      }
    }
  }

  /** The tenant's connection is the one over this socket. */
  predicate ServedBy(s: State, tenant: string, socket: Id) {
    && tenant in s.connections && s.connections[tenant] in s.objects
    && s.objects[s.connections[tenant]].socket == socket
  }

  /** The message is a result that a caller still waits for: it came over the socket of the tenant's
      connection and names a command pending there whose future is open. */
  predicate Awaited(s: State, tenant: string, socket: Id, reply: Option<string>) {
    && ServedBy(s, tenant, socket)
    && reply.Some? && reply.value in s.objects[s.connections[tenant]].pending
    && var id := s.objects[s.connections[tenant]].pending[reply.value];
       id in s.commands && s.commands[id].future.Unresolved?
  }

  /** The caller has its message and the command is no longer pending; nothing else has changed. */
  ghost predicate Answered(before: State, after: State, connection: Id, request: string, id: Id, message: string) {
    && connection in before.objects && id in before.commands
    && after.commands == before.commands[id := before.commands[id].(future := Resolved(message))]
    && after.objects == before.objects[connection :=
         before.objects[connection].(pending := before.objects[connection].pending - {request})]
    && after == before.(commands := after.commands, objects := after.objects)
  }

  /** The caller has left: its command is finished with whatever its future held, or cancelled, it is
      pending nowhere, and a lock it held is free. */
  ghost predicate HasLeft(before: State, after: State, id: Id) {
    && id in before.commands && before.commands[id].connection in before.objects
    && var cmd := before.commands[id];
       var held := before.objects[cmd.connection];
       && after.commands == before.commands[id := cmd.(
            phase := Finished, future := if cmd.future.Unresolved? then Future.Cancelled else cmd.future)]
       && after.objects == before.objects[cmd.connection := held.(
            pending := held.pending - {cmd.request},
            sendLock := if held.sendLock == Some(id) then None else held.sendLock)]
       && after == before.(commands := after.commands, objects := after.objects)
  }

  /** The connection that is to lose its place to a newcomer. */
  function OldPlace(connections: map<string, Id>, tenant: string): set<Id> {
    set t | t in connections && t == tenant :: connections[t]
  }

  class PcAgentBridge {
    const cfg: Config
    var closing: bool
    var connections: map<string, Id>
    var objects: map<Id, Connection>
    var commands: map<Id, Command>
    var joining: map<Id, Joining>
    var deliveries: map<Id, Delivery>
    var next: Id

    ghost function View(): State
      reads this
    {
      State(closing, connections, objects, commands, joining, deliveries, next)
    }

    ghost predicate Valid()
      reads this
    {
      Inv(cfg, View())
    }

    constructor (maxPendingCommands: nat, verifiesDevices: bool)
      requires maxPendingCommands > 0
      ensures cfg == Config(maxPendingCommands, verifiesDevices)
      ensures View() == INITIAL && Valid()
    {
      cfg := Config(maxPendingCommands, verifiesDevices);
      closing, connections, objects, commands, joining, deliveries, next := false, map[], map[], map[], map[], map[], 0;
    }

    static method Create(maxPendingCommands: int, verifiesDevices: bool) returns (r: Result<PcAgentBridge, Refusal>)
      ensures r.Err? <==> maxPendingCommands <= 0
      ensures r.Ok? ==> fresh(r.value) && r.value.Valid() && r.value.View() == INITIAL
                        && r.value.cfg == Config(maxPendingCommands, verifiesDevices)
    {
      if maxPendingCommands <= 0 { return Err(InvalidArgument); }
      var bridge := new PcAgentBridge(maxPendingCommands, verifiesDevices);
      r := Ok(bridge);
    }

    /** Fail every future of one connection's pending map that is not done. */
    method FailPending(connection: Id, why: Failure)
      requires connection in objects
      modifies this`commands
      ensures View() == FailWaiting(old(View()), {connection}, why)
    {
      var waiting := objects[connection].pending.Values;
      while waiting != {}
        invariant waiting <= objects[connection].pending.Values
        invariant commands.Keys == old(commands).Keys
        invariant forall id :: id in commands ==> (commands[id] ==
                    if old(commands)[id].future.Unresolved? && id in objects[connection].pending.Values - waiting
                    then old(commands)[id].(future := Failed(why)) else old(commands)[id])
        decreases waiting
      {
        var id :| id in waiting;
        waiting := waiting - {id};
        if id in commands && commands[id].future.Unresolved? {
          commands := commands[id := commands[id].(future := Failed(why))];
        }
      }
      assert forall id :: WaitsOn(old(View()), {connection}, id) <==> id in objects[connection].pending.Values;
      assert commands == FailWaiting(old(View()), {connection}, why).commands;
    }

    method InstallConnection(j: Joining) returns (r: RegisterOutcome)
      requires Valid()
      modifies this
      ensures View() == Install(old(View()), j) && Valid()
      ensures r == if old(closing) then RegisterRefused(ShutDown)
                   else if !ValidCapabilities(j.capabilities) then RegisterRefused(InvalidArgument)
                   else Registered(old(next))
      ensures r.Registered? ==>
        && objects == old(objects)[r.connection :=
             Connection(j.tenant, j.socket, j.capabilities, j.device, map[], None)]
        && connections == old(connections)[j.tenant := r.connection]
        && OnlyFails(old(commands), commands, OldPlace(old(connections), j.tenant), Replaced)
      ensures !r.Registered? ==> View() == old(View())
    {
      InstallKeeps(cfg, View(), j);
      FailWaitingFailsOnly(cfg, View(), CurrentOf(View(), j.tenant), Replaced);
      if closing { return RegisterRefused(ShutDown); }
      if !ValidCapabilities(j.capabilities) { return RegisterRefused(InvalidArgument); }
      if j.tenant in connections {
        assert TenantOk(View(), j.tenant);
        FailPending(connections[j.tenant], Replaced);
      } else {
        assert FailWaiting(View(), {}, Replaced).commands == commands;
      }
      objects := objects[next := Connection(j.tenant, j.socket, j.capabilities, j.device, map[], None)];
      connections := connections[j.tenant := next];
      r := Registered(next);
      next := next + 1;
    }

    method Register(tenant: string, socket: Id, capabilities: Capabilities, device: Option<Device>)
      returns (r: RegisterOutcome)
      requires Valid()
      modifies this
      ensures View() == Step(cfg, old(View()), RegisterCalled(tenant, socket, capabilities, device)) && Valid()
      ensures old(closing) ==> r == RegisterRefused(ShutDown)
      ensures r.Checking? <==> !old(closing) && cfg.verifiesDevices && device.Some? && device.value.tenant == tenant
      ensures r.RegisterRefused? <==>
        || old(closing)
        || (if cfg.verifiesDevices then device.None? || device.value.tenant != tenant
            else !(forall key :: key in capabilities ==>
                     && key in {"open_apps", "file_rw", "shell_exec", "mouse_keyboard_control"}
                     && capabilities[key].Flag?))
      ensures r.RegisterRefused? ==> View() == old(View())
      ensures r.Checking? ==>
        && joining == old(joining)[r.call := Joining(tenant, socket, capabilities, device)] && r.call !in old(joining)
        && connections == old(connections) && objects == old(objects) && commands == old(commands)
      ensures r.Registered? ==>
        && objects == old(objects)[r.connection := Connection(tenant, socket, capabilities, device, map[], None)]
        && connections == old(connections)[tenant := r.connection]
        && OnlyFails(old(commands), commands, OldPlace(old(connections), tenant), Replaced)
    {
      if closing { return RegisterRefused(ShutDown); }
      var j := Joining(tenant, socket, capabilities, device);
      if cfg.verifiesDevices {
        if device.None? || device.value.tenant != tenant { return RegisterRefused(InvalidArgument); }
        JoiningKeeps(cfg, View(), joining[next := j], next + 1);
        joining := joining[next := j];
        r := Checking(next);
        next := next + 1;
      } else {
        r := InstallConnection(j);
      }
    }

    /** register resumes after its device check. */
    method ResumeRegister(call: Id, ok: bool) returns (r: RegisterOutcome)
      requires Valid() && call in joining
      modifies this
      ensures View() == Step(cfg, old(View()), RegisterChecked(call, ok)) && Valid()
      ensures old(closing) ==> r.RegisterRefused? && connections == map[]
      ensures joining == old(joining) - {call} && !r.Checking?
      ensures r.Registered? <==> ok && !old(closing) && ValidCapabilities(old(joining)[call].capabilities)
      ensures r.Registered? ==>
        var j := old(joining)[call];
        && objects == old(objects)[r.connection :=
             Connection(j.tenant, j.socket, j.capabilities, j.device, map[], None)]
        && connections == old(connections)[j.tenant := r.connection]
        && OnlyFails(old(commands), commands, OldPlace(old(connections), j.tenant), Replaced)
      ensures !r.Registered? ==> connections == old(connections) && commands == old(commands)
    {
      var j := joining[call];
      JoiningKeeps(cfg, View(), joining - {call}, next);
      joining := joining - {call};
      if !ok { return RegisterRefused(NotConnected); }
      r := InstallConnection(j);
    }

    method Unregister(tenant: string, socket: Id)
      requires Valid()
      modifies this
      ensures View() == Step(cfg, old(View()), Unregistered(tenant, socket)) && Valid()
      ensures ServedBy(old(View()), tenant, socket) ==>
        && connections == old(connections) - {tenant}
        && OnlyFails(old(commands), commands, {old(connections)[tenant]}, Disconnected)
      ensures !ServedBy(old(View()), tenant, socket) ==> View() == old(View())
    {
      UnregisterKeeps(cfg, View(), tenant, socket);
      FailWaitingFailsOnly(cfg, View(), CurrentOf(View(), tenant), Disconnected);
      if tenant !in connections { return; }
      assert TenantOk(View(), tenant);
      var connection := connections[tenant];
      if objects[connection].socket != socket { return; }
      FailPending(connection, Disconnected);
      connections := connections - {tenant};
    }

    /** The shutdown loop over the connections taken out of the registry. */
    method FailEvery(open: set<Id>, why: Failure)
      requires forall c :: c in open ==> c in objects
      modifies this`commands
      ensures View() == FailWaiting(old(View()), open, why)
    {
      ghost var start := View();
      var rest := open;
      assert FailWaiting(start, {}, why).commands == commands;
      while rest != {}
        invariant rest <= open && View() == FailWaiting(start, open - rest, why)
        decreases rest
      {
        var c :| c in rest;
        FailWaitingTwice(start, open - rest, {c}, why);
        assert open - rest + {c} == open - (rest - {c});
        FailPending(c, why);
        rest := rest - {c};
      }
      assert open - rest == open;
    }

    method Close()
      requires Valid()
      modifies this
      ensures View() == Step(cfg, old(View()), CloseCalled) && Valid()
      ensures closing && connections == map[]
      ensures !old(closing) ==> OnlyFails(old(commands), commands, old(connections).Values, ShuttingDown)
      ensures old(closing) ==> View() == old(View())
    {
      CloseKeeps(cfg, View());
      if closing { return; }
      FailWaitingFailsOnly(cfg, View(), connections.Values, ShuttingDown);
      closing := true;
      var open := connections.Values;
      forall c | c in open ensures c in objects {
        var t :| t in connections && connections[t] == c;
        assert TenantOk(old(View()), t);
      }
      connections := map[];
      ghost var emptied := View();
      FailEvery(open, ShuttingDown);
      FailWaitingSame(old(View()), emptied, open, ShuttingDown);
    }

    /** set_result: only ever called on a future that is not done. */
    method Answer(connection: Id, request: string, command: Id, message: string)
      requires connection in objects && command in commands && commands[command].future.Unresolved?
      modifies this`objects, this`commands
      ensures View() == Complete(old(View()), connection, request, command, message)
    {
      objects := objects[connection := objects[connection].(pending := objects[connection].pending - {request})];
      commands := commands[command := commands[command].(future := Resolved(message))];
    }

    method HandleResult(tenant: string, reply: Option<string>, message: string, socket: Id)
      requires Valid()
      modifies this
      ensures View() == Step(cfg, old(View()), ResultArrived(tenant, socket, reply, message)) && Valid()
      ensures !Awaited(old(View()), tenant, socket, reply) ==> View() == old(View())
      ensures Awaited(old(View()), tenant, socket, reply) ==>
        var c := old(connections)[tenant];
        var id := old(objects)[c].pending[reply.value];
        if cfg.verifiesDevices && old(objects)[c].device.Some? then
          && deliveries == old(deliveries)[old(next) := Delivery(tenant, socket, c, reply.value, id, message)]
          && objects == old(objects) && commands == old(commands) && connections == old(connections)
        else Answered(old(View()), View(), c, reply.value, id, message)
    {
      ResultKeeps(cfg, View(), tenant, socket, reply, message);
      if tenant !in connections { return; }
      assert TenantOk(View(), tenant);
      var c := connections[tenant];
      assert ConnectionOk(cfg, View(), c);
      if objects[c].socket != socket || reply.None? { return; }
      if reply.value !in objects[c].pending { return; }
      var command := objects[c].pending[reply.value];
      assert EntryOk(View(), c, reply.value);
      if !commands[command].future.Unresolved? { return; }
      if cfg.verifiesDevices && objects[c].device.Some? {
        deliveries := deliveries[next := Delivery(tenant, socket, c, reply.value, command, message)];
        next := next + 1;
        return;
      }
      Answer(c, reply.value, command, message);
    }

    /** handle_result resumes after its device check. */
    method ResumeResult(call: Id, ok: bool)
      requires Valid() && call in deliveries
      modifies this
      ensures View() == Step(cfg, old(View()), ResultChecked(call, ok)) && Valid()
      ensures deliveries == old(deliveries) - {call}
      ensures old(deliveries)[call].command in old(commands)
      ensures var d := old(deliveries)[call]; var was := old(commands)[d.command].future;
              if !was.Unresolved? then commands == old(commands) && objects == old(objects)
              else if !ok then
                commands == old(commands)[d.command := old(commands)[d.command].(future := Failed(VerificationFailed))]
                && objects == old(objects)
              else
                Answered(old(View()).(deliveries := deliveries), View(), d.connection, d.request, d.command, d.message)
    {
      ResultCheckedKeeps(cfg, View(), call, ok);
      assert DeliveryOk(View(), call);
      ghost var start := View();
      var d := deliveries[call];
      deliveries := deliveries - {call};
      if !ok {
        if commands[d.command].future.Unresolved? {
          commands := commands[d.command := commands[d.command].(future := Failed(VerificationFailed))];
        }
        return;
      }
      if !commands[d.command].future.Unresolved? { return; }
      if d.tenant !in connections || connections[d.tenant] != d.connection {
        commands := commands[d.command := commands[d.command].(future := Failed(ConnectionChanged))];
        RecheckNeverFires(cfg, start, call);
        return;
      }
      Answer(d.connection, d.request, d.command, d.message);
    }

    /** send_command up to the wait for the connection's send lock. */
    method SendCommand(tenant: string, capability: string, request: string, validTimeout: bool)
      returns (r: Result<Id, Refusal>)
      requires Valid() && Fresh(View(), request)
      modifies this
      ensures View() == Step(cfg, old(View()), SendCalled(tenant, capability, request, validTimeout)) && Valid()
      ensures r.Err? ==> View() == old(View())
      ensures r == Err(TooManyPending) <==>
                && !old(closing) && validTimeout && tenant in old(connections)
                && old(connections)[tenant] in old(objects)
                && capability in old(objects)[old(connections)[tenant]].capabilities
                && old(objects)[old(connections)[tenant]].capabilities[capability] == Flag(true)
                && |old(objects)[old(connections)[tenant]].pending| >= cfg.maxPending
      ensures r == Err(ShutDown) <==> old(closing)
      ensures r == Err(InvalidArgument) <==> !old(closing) && !validTimeout
      ensures r == Err(NotConnected) <==> !old(closing) && validTimeout && tenant !in old(connections)
      ensures r == Err(CapabilityDisabled) <==>
                && !old(closing) && validTimeout && tenant in old(connections)
                && old(connections)[tenant] in old(objects)
                && !(capability in old(objects)[old(connections)[tenant]].capabilities
                     && old(objects)[old(connections)[tenant]].capabilities[capability] == Flag(true))
      ensures r.Ok? ==>
        var c := old(connections)[tenant];
        && r.value !in old(commands)
        && commands == old(commands)[r.value := Command(tenant, c, request, capability, WaitingLock, Unresolved)]
        && objects == old(objects)[c := old(objects)[c].(pending := old(objects)[c].pending[request := r.value])]
        && connections == old(connections) && Answerable(View(), r.value)
    {
      SendKeeps(cfg, View(), tenant, capability, request, validTimeout);
      assert tenant in connections ==> TenantOk(View(), tenant);
      assert next in commands ==> CommandOk(View(), next);
      if closing { return Err(ShutDown); }
      if !validTimeout { return Err(InvalidArgument); }
      if tenant !in connections { return Err(NotConnected); }
      var c := connections[tenant];
      var held := objects[c];
      if capability !in held.capabilities || held.capabilities[capability] != Flag(true) {
        return Err(CapabilityDisabled);
      }
      if |held.pending| >= cfg.maxPending { return Err(TooManyPending); }
      commands := commands[next := Command(tenant, c, request, capability, WaitingLock, Unresolved)];
      objects := objects[c := held.(pending := held.pending[request := next])];
      r := Ok(next);
      next := next + 1;
    }

    /** The finally block of send_command. */
    method Finally(id: Id)
      requires id in commands && commands[id].connection in objects
      modifies this`objects, this`commands
      ensures View() == Leave(old(View()), id)
    {
      var c := commands[id].connection;
      if objects[c].sendLock == Some(id) {
        objects := objects[c := objects[c].(sendLock := None)];
      }
      objects := objects[c := objects[c].(pending := objects[c].pending - {commands[id].request})];
      if commands[id].future.Unresolved? {
        commands := commands[id := commands[id].(future := Cancelled)];
      }
      commands := commands[id := commands[id].(phase := Finished)];
      assert objects == Leave(old(View()), id).objects;
    }

    method CheckThenWrite(id: Id) returns (writing: bool)
      requires id in commands && commands[id].connection in objects
      modifies this`objects, this`commands
      ensures View() == BeginWrite(old(View()), id)
      ensures writing <==> IsCurrent(old(View()), old(commands)[id].tenant, old(commands)[id].connection)
    {
      writing := commands[id].tenant in connections && connections[commands[id].tenant] == commands[id].connection;
      if writing {
        commands := commands[id := commands[id].(phase := Writing)];
      } else {
        Finally(id);
      }
    }

    method AcquireLock(id: Id)
      requires Valid() && Suspended(View(), id, WaitingLock)
      requires objects[commands[id].connection].sendLock.None?
      modifies this
      ensures View() == Step(cfg, old(View()), LockGranted(id)) && Valid()
      ensures var cmd := old(commands)[id];
              var locked := old(objects)[cmd.connection].(sendLock := Some(id));
              if cfg.verifiesDevices && locked.device.Some? then
                && commands == old(commands)[id := cmd.(phase := Verifying)]
                && objects == old(objects)[cmd.connection := locked] && connections == old(connections)
              else if IsCurrent(old(View()), cmd.tenant, cmd.connection) then
                && commands == old(commands)[id := cmd.(phase := Writing)]
                && objects == old(objects)[cmd.connection := locked] && connections == old(connections)
              else HasLeft(old(View()), View(), id)
    {
      LockKeeps(cfg, View(), id);
      var c := commands[id].connection;
      objects := objects[c := objects[c].(sendLock := Some(id))];
      if cfg.verifiesDevices && objects[c].device.Some? {
        commands := commands[id := commands[id].(phase := Verifying)];
      } else {
        var _ := CheckThenWrite(id);
      }
    }

    method ResumeSend(id: Id, ok: bool)
      requires Valid() && Suspended(View(), id, Verifying)
      modifies this
      ensures View() == Step(cfg, old(View()), SendChecked(id, ok)) && Valid()
      ensures var cmd := old(commands)[id];
              if ok && IsCurrent(old(View()), cmd.tenant, cmd.connection)
              then View() == old(View()).(commands := old(commands)[id := cmd.(phase := Writing)])
              else HasLeft(old(View()), View(), id)
    {
      SendCheckedKeeps(cfg, View(), id, ok);
      if ok { var _ := CheckThenWrite(id); } else { Finally(id); }
    }

    method FinishWrite(id: Id, ok: bool)
      requires Valid() && Suspended(View(), id, Writing)
      modifies this
      ensures View() == Step(cfg, old(View()), WriteReturned(id, ok)) && Valid()
      ensures ok ==>
        var cmd := old(commands)[id];
        && commands == old(commands)[id := cmd.(phase := AwaitingResult)]
        && objects == old(objects)[cmd.connection := old(objects)[cmd.connection].(sendLock := None)]
        && connections == old(connections)
      ensures !ok ==> HasLeft(old(View()), View(), id)
    {
      WriteKeeps(cfg, View(), id, ok);
      if ok {
        var c := commands[id].connection;
        objects := objects[c := objects[c].(sendLock := None)];
        commands := commands[id := commands[id].(phase := AwaitingResult)];
      } else {
        Finally(id);
      }
    }

    /** The awaited future is done: leave with its outcome. */
    method Wake(id: Id) returns (outcome: Future)
      requires Valid() && Suspended(View(), id, AwaitingResult) && !commands[id].future.Unresolved?
      modifies this
      ensures View() == Step(cfg, old(View()), Woken(id)) && Valid()
      ensures outcome == old(commands)[id].future && !outcome.Unresolved?
      ensures HasLeft(old(View()), View(), id)
    {
      LeaveKeeps(cfg, View(), id);
      outcome := commands[id].future;
      Finally(id);
    }

    method Interrupt(id: Id)
      requires Valid() && id in commands
      modifies this
      ensures View() == Step(cfg, old(View()), InterruptDelivered(id)) && Valid()
      ensures var cmd := old(commands)[id];
              if cmd.phase.Interrupted? || cmd.phase.Finished? then View() == old(View())
              else
                && View() == old(View()).(commands := commands)
                && commands == old(commands)[id := cmd.(
                     phase := Interrupted,
                     future := if cmd.phase.AwaitingResult? && cmd.future.Unresolved? then Future.Cancelled
                               else cmd.future)]
    {
      InterruptKeeps(cfg, View(), id);
      if commands[id].phase.Interrupted? || commands[id].phase.Finished? { return; }
      if commands[id].phase.AwaitingResult? && commands[id].future.Unresolved? {
        commands := commands[id := commands[id].(future := Cancelled)];
      }
      commands := commands[id := commands[id].(phase := Interrupted)];
    }

    method Unwind(id: Id)
      requires Valid() && Suspended(View(), id, Interrupted)
      modifies this
      ensures View() == Step(cfg, old(View()), Unwound(id)) && Valid()
      ensures commands[id].phase.Finished? && !commands[id].future.Unresolved?
      ensures HasLeft(old(View()), View(), id)
    {
      LeaveKeeps(cfg, View(), id);
      Finally(id);
    }
  }
}
