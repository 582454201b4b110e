/**
 The companion-agent bridge as a state machine.

 Everything the bridge's coroutines do between two awaits is one event.  The
 state is what the process holds between events: the connection registry, every
 connection and command object ever created (named by identity, so that "is" and
 "is not" in the program are equality of names here), and the coroutines that are
 suspended inside a device check.
 */
module BridgeProtocol {
  import opened Common

  type Id = nat

  datatype Setting = Flag(on: bool) | NotABool
  type Capabilities = map<string, Setting>

  datatype Device = Device(tenant: string, credential: string, id: string)

  datatype Failure = Replaced | Disconnected | ShuttingDown | VerificationFailed | ConnectionChanged

  datatype Future = Unresolved | Resolved(message: string) | Failed(why: Failure) | Cancelled

  /** Where a send_command coroutine is suspended.  Interrupted: a timeout or a cancellation
      has been delivered and the finally block has not run yet. */
  datatype Phase = WaitingLock | Verifying | Writing | AwaitingResult | Interrupted | Finished

  datatype Command = Command(
    tenant: string, connection: Id, request: string, capability: string, phase: Phase, future: Future)

  datatype Connection = Connection(
    tenant: string, socket: Id, capabilities: Capabilities, device: Option<Device>,
    pending: map<string, Id>, sendLock: Option<Id>)

  /** A register call suspended in its device check. */
  datatype Joining = Joining(tenant: string, socket: Id, capabilities: Capabilities, device: Option<Device>)

  /** A handle_result call suspended in its device check. */
  datatype Delivery = Delivery(tenant: string, socket: Id, connection: Id, request: string, command: Id,
                               message: string)

  datatype Config = Config(maxPending: nat, verifiesDevices: bool)

  datatype State = State(
    closing: bool,
    connections: map<string, Id>,
    objects: map<Id, Connection>,
    commands: map<Id, Command>,
    joining: map<Id, Joining>,
    deliveries: map<Id, Delivery>,
    next: Id)

  const KNOWN_CAPABILITIES: set<string> := {"open_apps", "file_rw", "shell_exec", "mouse_keyboard_control"}

  const INITIAL: State := State(false, map[], map[], map[], map[], map[], 0)

  datatype Event =
    | RegisterCalled(tenant: string, socket: Id, capabilities: Capabilities, device: Option<Device>)
    | RegisterChecked(call: Id, ok: bool)
    | Unregistered(tenant: string, socket: Id)
    | CloseCalled
    | ResultArrived(tenant: string, socket: Id, reply: Option<string>, message: string)
    | ResultChecked(call: Id, ok: bool)
    | SendCalled(tenant: string, capability: string, request: string, validTimeout: bool)
    | LockGranted(command: Id)
    | SendChecked(command: Id, ok: bool)
    | WriteReturned(command: Id, ok: bool)
    | Woken(command: Id)
    | InterruptDelivered(command: Id)
    | Unwound(command: Id)

  // ---------------------------------------------------------------- what each event does

  predicate ValidCapabilities(capabilities: Capabilities) {
    forall key :: key in capabilities ==> key in KNOWN_CAPABILITIES && capabilities[key].Flag?
  }

  predicate IsCurrent(s: State, tenant: string, connection: Id) {
    tenant in s.connections && s.connections[tenant] == connection
  }

  /** The command waits in the pending map of one of the given connections. */
  predicate WaitsOn(s: State, doomed: set<Id>, command: Id) {
    exists c :: c in doomed && c in s.objects && command in s.objects[c].pending.Values
  }

  /** Every unresolved future waiting on a doomed connection fails; nothing else changes. */
  function FailWaiting(s: State, doomed: set<Id>, why: Failure): State {
    s.(commands := map id | id in s.commands ::
         if s.commands[id].future.Unresolved? && WaitsOn(s, doomed, id)
         then s.commands[id].(future := Failed(why)) else s.commands[id])
  }

  function CurrentOf(s: State, tenant: string): set<Id> {
    if tenant in s.connections then {s.connections[tenant]} else {}
  }

  /** The part of register after its last check: the newcomer takes the tenant's place. */
  function Install(s: State, j: Joining): State {
    if s.closing || !ValidCapabilities(j.capabilities) then s
    else
      var failed := FailWaiting(s, CurrentOf(s, j.tenant), Replaced);
      failed.(
        objects := failed.objects[s.next := Connection(j.tenant, j.socket, j.capabilities, j.device, map[], None)],
        connections := failed.connections[j.tenant := s.next],
        next := s.next + 1)
  }

  function RegisterStep(cfg: Config, s: State, j: Joining): State {
    if s.closing then s
    else if !cfg.verifiesDevices then Install(s, j)
    else if j.device.None? || j.device.value.tenant != j.tenant then s
    else s.(joining := s.joining[s.next := j], next := s.next + 1)
  }

  function RegisterCheckedStep(s: State, call: Id, ok: bool): State {
    if call !in s.joining then s
    else
      var resumed := s.(joining := s.joining - {call});
      if ok then Install(resumed, s.joining[call]) else resumed
  }

  function UnregisterStep(s: State, tenant: string, socket: Id): State {
    if tenant !in s.connections || s.connections[tenant] !in s.objects
       || s.objects[s.connections[tenant]].socket != socket
    then s
    else
      var failed := FailWaiting(s, CurrentOf(s, tenant), Disconnected);
      failed.(connections := failed.connections - {tenant})
  }

  function CloseStep(s: State): State {
    if s.closing then s
    else FailWaiting(s, s.connections.Values, ShuttingDown).(closing := true, connections := map[])
  }

  function WithCommand(s: State, id: Id, command: Command): State {
    s.(commands := s.commands[id := command])
  }

  function WithConnection(s: State, id: Id, connection: Connection): State {
    s.(objects := s.objects[id := connection])
  }

  /** pending.pop(request) followed by set_result(message). */
  function Complete(s: State, connection: Id, request: string, command: Id, message: string): State
    requires connection in s.objects && command in s.commands
  {
    WithCommand(
      WithConnection(s, connection, s.objects[connection].(pending := s.objects[connection].pending - {request})),
      command, s.commands[command].(future := Resolved(message)))
  }

  function ResultStep(cfg: Config, s: State, tenant: string, socket: Id, request: Option<string>,
                      message: string): State {
    if tenant !in s.connections || s.connections[tenant] !in s.objects then s
    else
      var c := s.connections[tenant];
      var connection := s.objects[c];
      if connection.socket != socket || request.None? || request.value !in connection.pending then s
      else
        var command := connection.pending[request.value];
        if command !in s.commands || !s.commands[command].future.Unresolved? then s
        else if cfg.verifiesDevices && connection.device.Some? then
          s.(deliveries := s.deliveries[s.next := Delivery(tenant, socket, c, request.value, command, message)],
             next := s.next + 1)
        else Complete(s, c, request.value, command, message)
  }

  function ResultCheckedStep(s: State, call: Id, ok: bool): State {
    if call !in s.deliveries then s
    else
      var d := s.deliveries[call];
      var resumed := s.(deliveries := s.deliveries - {call});
      if d.command !in s.commands || d.connection !in s.objects
              || !s.commands[d.command].future.Unresolved? then resumed
      else if !ok then WithCommand(resumed, d.command, s.commands[d.command].(future := Failed(VerificationFailed)))
      else if !IsCurrent(s, d.tenant, d.connection) then
        WithCommand(resumed, d.command, s.commands[d.command].(future := Failed(ConnectionChanged)))
      else Complete(resumed, d.connection, d.request, d.command, d.message)
  }

  /** Request ids are random UUIDs: an id that was used before is not drawn again. */
  predicate Fresh(s: State, request: string) {
    forall id :: id in s.commands ==> s.commands[id].request != request
  }

  function SendStep(cfg: Config, s: State, tenant: string, capability: string, request: string,
                    validTimeout: bool): State {
    if s.closing || !validTimeout || tenant !in s.connections || s.connections[tenant] !in s.objects then s
    else
      var c := s.connections[tenant];
      var connection := s.objects[c];
      if capability !in connection.capabilities || connection.capabilities[capability] != Flag(true) then s
      else if |connection.pending| >= cfg.maxPending || !Fresh(s, request) then s
      else
        WithConnection(
          WithCommand(s, s.next, Command(tenant, c, request, capability, WaitingLock, Unresolved)),
          c, connection.(pending := connection.pending[request := s.next])).(next := s.next + 1)
  }

  /** The finally block: give the lock back, leave the pending map, resolve one's own future. */
  function Leave(s: State, id: Id): State
    requires id in s.commands && s.commands[id].connection in s.objects
  {
    var cmd := s.commands[id];
    var connection := s.objects[cmd.connection];
    WithCommand(
      WithConnection(s, cmd.connection, connection.(
        pending := connection.pending - {cmd.request},
        sendLock := if connection.sendLock == Some(id) then None else connection.sendLock)),
      id, cmd.(phase := Finished, future := if cmd.future.Unresolved? then Cancelled else cmd.future))
  }

  predicate Suspended(s: State, id: Id, phase: Phase) {
    id in s.commands && s.commands[id].phase == phase && s.commands[id].connection in s.objects
  }

  /** The last check before the write, made while holding the lock. */
  function BeginWrite(s: State, id: Id): State
    requires id in s.commands && s.commands[id].connection in s.objects
  {
    if IsCurrent(s, s.commands[id].tenant, s.commands[id].connection)
    then WithCommand(s, id, s.commands[id].(phase := Writing))
    else Leave(s, id)
  }

  function LockStep(cfg: Config, s: State, id: Id): State {
    if !Suspended(s, id, WaitingLock) || s.objects[s.commands[id].connection].sendLock.Some? then s
    else
      var c := s.commands[id].connection;
      var locked := WithConnection(s, c, s.objects[c].(sendLock := Some(id)));
      if cfg.verifiesDevices && s.objects[c].device.Some?
      then WithCommand(locked, id, s.commands[id].(phase := Verifying))
      else BeginWrite(locked, id)
  }

  function SendCheckedStep(s: State, id: Id, ok: bool): State {
    if !Suspended(s, id, Verifying) then s
    else if ok then BeginWrite(s, id)
    else Leave(s, id)
  }

  function WriteStep(s: State, id: Id, ok: bool): State {
    if !Suspended(s, id, Writing) then s
    else if ok then
      var c := s.commands[id].connection;
      WithCommand(WithConnection(s, c, s.objects[c].(sendLock := None)), id, s.commands[id].(phase := AwaitingResult))
    else Leave(s, id)
  }

  function WakeStep(s: State, id: Id): State {
    if Suspended(s, id, AwaitingResult) && !s.commands[id].future.Unresolved? then Leave(s, id) else s
  }

  /** Cancelling a task cancels the future it awaits at once; its finally block runs later. */
  function InterruptStep(s: State, id: Id): State {
    if id !in s.commands || s.commands[id].phase.Interrupted? || s.commands[id].phase.Finished? then s
    else
      var cmd := s.commands[id];
      WithCommand(s, id, cmd.(
        phase := Interrupted,
        future := if cmd.phase.AwaitingResult? && cmd.future.Unresolved? then Cancelled else cmd.future))
  }

  function UnwindStep(s: State, id: Id): State {
    if Suspended(s, id, Interrupted) then Leave(s, id) else s
  }

  function Step(cfg: Config, s: State, e: Event): State {
    match e
    case RegisterCalled(tenant, socket, capabilities, device) =>
      RegisterStep(cfg, s, Joining(tenant, socket, capabilities, device))
    case RegisterChecked(call, ok) => RegisterCheckedStep(s, call, ok)
    case Unregistered(tenant, socket) => UnregisterStep(s, tenant, socket)
    case CloseCalled => CloseStep(s)
    case ResultArrived(tenant, socket, reply, message) => ResultStep(cfg, s, tenant, socket, reply, message)
    case ResultChecked(call, ok) => ResultCheckedStep(s, call, ok)
    case SendCalled(tenant, capability, request, validTimeout) =>
      SendStep(cfg, s, tenant, capability, request, validTimeout)
    case LockGranted(command) => LockStep(cfg, s, command)
    case SendChecked(command, ok) => SendCheckedStep(s, command, ok)
    case WriteReturned(command, ok) => WriteStep(s, command, ok)
    case Woken(command) => WakeStep(s, command)
    case InterruptDelivered(command) => InterruptStep(s, command)
    case Unwound(command) => UnwindStep(s, command)
  }

  /** Any interleaving of any number of calls is a sequence of events. */
  function Run(cfg: Config, events: seq<Event>): State {
    if events == [] then INITIAL
    else Step(cfg, Run(cfg, events[..|events| - 1]), events[|events| - 1])
  }

  // ---------------------------------------------------------------- the invariant

  /** A caller that can still be answered: its future sits under its request id in the pending
      map of the connection registered for its tenant now. */
  ghost predicate Answerable(s: State, id: Id)
    requires id in s.commands
  {
    var cmd := s.commands[id];
    && !cmd.phase.Finished?
    && IsCurrent(s, cmd.tenant, cmd.connection)
    && cmd.connection in s.objects
    && cmd.request in s.objects[cmd.connection].pending
    && s.objects[cmd.connection].pending[cmd.request] == id
  }

  /** The agent has switched the capability on. */
  predicate Enabled(connection: Connection, capability: string) {
    capability in connection.capabilities && connection.capabilities[capability] == Flag(true)
  }

  ghost predicate TenantOk(s: State, tenant: string)
    requires tenant in s.connections
  {
    s.connections[tenant] in s.objects && s.objects[s.connections[tenant]].tenant == tenant
  }

  /** A pending entry belongs to a caller that has not left. */
  ghost predicate EntryOk(s: State, c: Id, request: string)
    requires c in s.objects && request in s.objects[c].pending
  {
    var id := s.objects[c].pending[request];
    && id in s.commands && s.commands[id].connection == c
    && s.commands[id].request == request && !s.commands[id].phase.Finished?
  }

  ghost predicate LockOk(s: State, c: Id)
    requires c in s.objects
  {
    s.objects[c].sendLock.Some? ==>
      var id := s.objects[c].sendLock.value;
      id in s.commands && s.commands[id].connection == c && s.commands[id].phase in {Verifying, Writing, Interrupted}
  }

  ghost predicate ConnectionOk(cfg: Config, s: State, c: Id)
    requires c in s.objects
  {
    && c < s.next
    && |s.objects[c].pending| <= cfg.maxPending
    && (forall request {:trigger EntryOk(s, c, request)} :: request in s.objects[c].pending ==> EntryOk(s, c, request))
    && LockOk(s, c)
  }

  ghost predicate CommandOk(s: State, id: Id)
    requires id in s.commands
  {
    var cmd := s.commands[id];
    && id < s.next
    && cmd.connection in s.objects
    && s.objects[cmd.connection].tenant == cmd.tenant
    && Enabled(s.objects[cmd.connection], cmd.capability)
    && (cmd.request in s.objects[cmd.connection].pending ==> s.objects[cmd.connection].pending[cmd.request] == id)
    && (cmd.phase in {Verifying, Writing} ==> s.objects[cmd.connection].sendLock == Some(id))
    && (cmd.future.Unresolved? ==> Answerable(s, id))
  }

  ghost predicate DeliveryOk(s: State, call: Id)
    requires call in s.deliveries
  {
    var d := s.deliveries[call];
    && call < s.next
    && d.command in s.commands && d.connection in s.objects
    && s.commands[d.command].connection == d.connection && s.commands[d.command].request == d.request
    && s.commands[d.command].tenant == d.tenant && s.objects[d.connection].socket == d.socket
  }

  ghost predicate Inv(cfg: Config, s: State) {
    && (s.closing ==> s.connections == map[])
    && (forall call :: call in s.joining ==> call < s.next)
    && (forall t {:trigger TenantOk(s, t)} :: t in s.connections ==> TenantOk(s, t))
    && (forall c {:trigger ConnectionOk(cfg, s, c)} :: c in s.objects ==> ConnectionOk(cfg, s, c))
    && (forall id {:trigger CommandOk(s, id)} :: id in s.commands ==> CommandOk(s, id))
    && (forall call {:trigger DeliveryOk(s, call)} :: call in s.deliveries ==> DeliveryOk(s, call))
  }

  // ---------------------------------------------------------------- every step keeps the invariant

  /** Every step of every coroutine keeps the invariant, case by case below. */
  lemma StepKeeps(cfg: Config, s: State, e: Event)
    requires Inv(cfg, s)
    ensures Inv(cfg, Step(cfg, s, e))
  {
    match e
    case RegisterCalled(tenant, socket, capabilities, device) =>
      var j := Joining(tenant, socket, capabilities, device);
      InstallKeeps(cfg, s, j);
      JoiningKeeps(cfg, s, s.joining[s.next := j], s.next + 1);
    case RegisterChecked(call, ok) =>
      if call in s.joining {
        var resumed := s.(joining := s.joining - {call});
        JoiningKeeps(cfg, s, s.joining - {call}, s.next);
        assert resumed == s.(joining := s.joining - {call}, next := s.next);
        InstallKeeps(cfg, resumed, s.joining[call]);
      }
    case Unregistered(tenant, socket) => UnregisterKeeps(cfg, s, tenant, socket);
    case CloseCalled => CloseKeeps(cfg, s);
    case ResultArrived(tenant, socket, reply, message) => ResultKeeps(cfg, s, tenant, socket, reply, message);
    case ResultChecked(call, ok) => ResultCheckedKeeps(cfg, s, call, ok);
    case SendCalled(tenant, capability, request, validTimeout) =>
      SendKeeps(cfg, s, tenant, capability, request, validTimeout);
    case LockGranted(id) => LockKeeps(cfg, s, id);
    case SendChecked(id, ok) => SendCheckedKeeps(cfg, s, id, ok);
    case WriteReturned(id, ok) => WriteKeeps(cfg, s, id, ok);
    case Woken(id) => if Suspended(s, id, AwaitingResult) { LeaveKeeps(cfg, s, id); }
    case InterruptDelivered(id) => InterruptKeeps(cfg, s, id);
    case Unwound(id) => if Suspended(s, id, Interrupted) { LeaveKeeps(cfg, s, id); }
  }

  /** The connection re-check after the device check cannot fail for a future that is still
      unresolved: replacing or dropping the connection has already failed the future. */
  lemma RecheckNeverFires(cfg: Config, s: State, call: Id)
    requires Inv(cfg, s) && call in s.deliveries && s.deliveries[call].command in s.commands
    requires s.commands[s.deliveries[call].command].future.Unresolved?
    ensures IsCurrent(s, s.deliveries[call].tenant, s.deliveries[call].connection)
  {
    assert DeliveryOk(s, call) && CommandOk(s, s.deliveries[call].command);
  }

  // ---------------------------------------------------------------- step by step

  lemma RemovedSize<K, V>(m: map<K, V>, k: K)
    ensures |m - {k}| <= |m|
  {
    assert (m - {k}).Keys == m.Keys - {k};
    assert |(m - {k}).Keys| == |m - {k}| && |m.Keys| == |m|;
  }

  /** Bookkeeping outside connections and commands. */
  lemma SuspensionsKeep(cfg: Config, s: State, joining: map<Id, Joining>, deliveries: map<Id, Delivery>, next: Id)
    requires Inv(cfg, s) && s.next <= next
    requires forall call :: call in joining ==> call < next
    requires var after := s.(joining := joining, deliveries := deliveries, next := next);
             forall call {:trigger DeliveryOk(after, call)} :: call in deliveries ==> DeliveryOk(after, call)
    ensures Inv(cfg, s.(joining := joining, deliveries := deliveries, next := next))
  {
    var after := s.(joining := joining, deliveries := deliveries, next := next);
    forall t | t in after.connections ensures TenantOk(after, t) { assert TenantOk(s, t); }
    forall c | c in after.objects ensures ConnectionOk(cfg, after, c) {
      assert ConnectionOk(cfg, s, c);
      forall r | r in after.objects[c].pending ensures EntryOk(after, c, r) { assert EntryOk(s, c, r); }
    }
    forall id | id in after.commands ensures CommandOk(after, id) { assert CommandOk(s, id); }
  }

  lemma JoiningKeeps(cfg: Config, s: State, joining: map<Id, Joining>, next: Id)
    requires Inv(cfg, s) && s.next <= next
    requires forall call :: call in joining ==> call < next
    ensures Inv(cfg, s.(joining := joining, next := next))
  {
    var after := s.(joining := joining, next := next);
    forall call | call in s.deliveries ensures DeliveryOk(after, call) { assert DeliveryOk(s, call); }
    assert after == s.(joining := joining, deliveries := s.deliveries, next := next);
    SuspensionsKeep(cfg, s, joining, s.deliveries, next);
  }

  lemma DroppedDeliveryKeeps(cfg: Config, s: State, call: Id)
    requires Inv(cfg, s)
    ensures Inv(cfg, s.(deliveries := s.deliveries - {call}))
  {
    var after := s.(deliveries := s.deliveries - {call});
    forall d | d in after.deliveries ensures DeliveryOk(after, d) { assert DeliveryOk(s, d); }
    assert after == s.(joining := s.joining, deliveries := s.deliveries - {call}, next := s.next);
    SuspensionsKeep(cfg, s, s.joining, s.deliveries - {call}, s.next);
  }

  /** What one coroutine may do to its own command and to the connection it was issued on. */
  ghost predicate LocalChange(s: State, id: Id, cmd: Command, connection: Connection) {
    && id in s.commands && s.commands[id].connection in s.objects
    && var before := s.commands[id];
       var held := s.objects[before.connection];
       && cmd == before.(phase := cmd.phase, future := cmd.future)
       && connection == held.(pending := connection.pending, sendLock := connection.sendLock)
       && connection.pending in {held.pending, held.pending - {before.request}}
       && (cmd.future.Unresolved? ==>
             before.future.Unresolved? && connection.pending == held.pending && !cmd.phase.Finished?)
       && (cmd.phase.Finished? ==> before.phase.Finished? || connection.pending == held.pending - {before.request})
       && (connection.sendLock == held.sendLock
           || (held.sendLock in {None, Some(id)} && connection.sendLock in {None, Some(id)}))
       && (cmd.phase in {Verifying, Writing} ==> connection.sendLock == Some(id))
       && (connection.sendLock == Some(id) ==> cmd.phase in {Verifying, Writing, Interrupted})
  }

  lemma LocalChangeEntries(cfg: Config, s: State, id: Id, cmd: Command, connection: Connection, o: Id, r: string)
    requires Inv(cfg, s) && LocalChange(s, id, cmd, connection) && o in s.objects
    requires var after := WithCommand(WithConnection(s, s.commands[id].connection, connection), id, cmd);
             r in after.objects[o].pending
    ensures EntryOk(WithCommand(WithConnection(s, s.commands[id].connection, connection), id, cmd), o, r)
  {
    assert CommandOk(s, id) && ConnectionOk(cfg, s, o) && EntryOk(s, o, r);
  }

  lemma LocalChangeLocks(cfg: Config, s: State, id: Id, cmd: Command, connection: Connection, o: Id)
    requires Inv(cfg, s) && LocalChange(s, id, cmd, connection) && o in s.objects
    ensures LockOk(WithCommand(WithConnection(s, s.commands[id].connection, connection), id, cmd), o)
  {
    assert CommandOk(s, id) && ConnectionOk(cfg, s, o) && LockOk(s, o);
  }

  lemma LocalChangeConnections(cfg: Config, s: State, id: Id, cmd: Command, connection: Connection, o: Id)
    requires Inv(cfg, s) && LocalChange(s, id, cmd, connection) && o in s.objects
    ensures ConnectionOk(cfg, WithCommand(WithConnection(s, s.commands[id].connection, connection), id, cmd), o)
  {
    var c := s.commands[id].connection;
    var after := WithCommand(WithConnection(s, c, connection), id, cmd);
    assert ConnectionOk(cfg, s, o);
    RemovedSize(s.objects[c].pending, cmd.request);
    forall r | r in after.objects[o].pending ensures EntryOk(after, o, r) {
      LocalChangeEntries(cfg, s, id, cmd, connection, o, r);
    }
    LocalChangeLocks(cfg, s, id, cmd, connection, o);
  }

  lemma LocalChangeCommands(cfg: Config, s: State, id: Id, cmd: Command, connection: Connection, other: Id)
    requires Inv(cfg, s) && LocalChange(s, id, cmd, connection) && other in s.commands
    ensures CommandOk(WithCommand(WithConnection(s, s.commands[id].connection, connection), id, cmd), other)
  {
    var c := s.commands[id].connection;
    assert CommandOk(s, id) && CommandOk(s, other);
  }

  lemma LocalChangeKeeps(cfg: Config, s: State, id: Id, cmd: Command, connection: Connection)
    requires Inv(cfg, s) && LocalChange(s, id, cmd, connection)
    ensures Inv(cfg, WithCommand(WithConnection(s, s.commands[id].connection, connection), id, cmd))
  {
    var c := s.commands[id].connection;
    var after := WithCommand(WithConnection(s, c, connection), id, cmd);
    forall t | t in after.connections ensures TenantOk(after, t) { assert TenantOk(s, t); }
    forall o | o in after.objects ensures ConnectionOk(cfg, after, o) {
      LocalChangeConnections(cfg, s, id, cmd, connection, o);
    }
    forall other | other in after.commands ensures CommandOk(after, other) {
      LocalChangeCommands(cfg, s, id, cmd, connection, other);
    }
    forall call | call in after.deliveries ensures DeliveryOk(after, call) { assert DeliveryOk(s, call); }
  }

  lemma CommandChangeKeeps(cfg: Config, s: State, id: Id, cmd: Command)
    requires Inv(cfg, s) && id in s.commands && s.commands[id].connection in s.objects
    requires LocalChange(s, id, cmd, s.objects[s.commands[id].connection])
    ensures Inv(cfg, WithCommand(s, id, cmd))
  {
    var c := s.commands[id].connection;
    LocalChangeKeeps(cfg, s, id, cmd, s.objects[c]);
    assert WithConnection(s, c, s.objects[c]) == s;
  }

  lemma FailWaitingKeeps(cfg: Config, s: State, doomed: set<Id>, why: Failure)
    requires Inv(cfg, s)
    ensures var f := FailWaiting(s, doomed, why);
            && Inv(cfg, f)
            && (forall id :: id in f.commands && f.commands[id].future.Unresolved? ==>
                    f.commands[id].connection !in doomed)
  {
    var f := FailWaiting(s, doomed, why);
    forall t | t in f.connections ensures TenantOk(f, t) { assert TenantOk(s, t); }
    forall c | c in f.objects ensures ConnectionOk(cfg, f, c) {
      assert ConnectionOk(cfg, s, c);
      forall r | r in f.objects[c].pending ensures EntryOk(f, c, r) { assert EntryOk(s, c, r); }
    }
    forall id | id in f.commands
      ensures CommandOk(f, id) && (f.commands[id].future.Unresolved? ==> f.commands[id].connection !in doomed)
    {
      assert CommandOk(s, id);
      var cmd := s.commands[id];
      if cmd.future.Unresolved? {
        assert id == s.objects[cmd.connection].pending[cmd.request];
        assert id in s.objects[cmd.connection].pending.Values;
      }
    }
    forall call | call in f.deliveries ensures DeliveryOk(f, call) { assert DeliveryOk(s, call); }
  }

  /** Changing the registry once nobody waits on a connection that loses its place. */
  lemma RegistryKeeps(cfg: Config, s: State, connections: map<string, Id>, closing: bool)
    requires Inv(cfg, s)
    requires closing ==> connections == map[]
    requires forall t :: t in connections ==> connections[t] in s.objects && s.objects[connections[t]].tenant == t
    requires forall id :: id in s.commands && s.commands[id].future.Unresolved? ==>
               s.commands[id].tenant in connections && connections[s.commands[id].tenant] == s.commands[id].connection
    ensures Inv(cfg, s.(connections := connections, closing := closing))
  {
    var after := s.(connections := connections, closing := closing);
    forall t | t in after.connections ensures TenantOk(after, t) {}
    forall c | c in after.objects ensures ConnectionOk(cfg, after, c) {
      assert ConnectionOk(cfg, s, c);
      forall r | r in after.objects[c].pending ensures EntryOk(after, c, r) { assert EntryOk(s, c, r); }
    }
    forall id | id in after.commands ensures CommandOk(after, id) { assert CommandOk(s, id); }
    forall call | call in after.deliveries ensures DeliveryOk(after, call) { assert DeliveryOk(s, call); }
  }

  /** A new connection object that nobody refers to yet. */
  lemma NewConnectionKeeps(cfg: Config, s: State, connection: Connection)
    requires Inv(cfg, s) && connection.pending == map[] && connection.sendLock.None?
    ensures Inv(cfg, WithConnection(s, s.next, connection).(next := s.next + 1))
  {
    var after := WithConnection(s, s.next, connection).(next := s.next + 1);
    assert s.next in s.objects ==> ConnectionOk(cfg, s, s.next);
    forall t | t in after.connections ensures TenantOk(after, t) { assert TenantOk(s, t); }
    forall c | c in after.objects ensures ConnectionOk(cfg, after, c) {
      if c != s.next {
        assert ConnectionOk(cfg, s, c);
        forall r | r in after.objects[c].pending ensures EntryOk(after, c, r) { assert EntryOk(s, c, r); }
      }
    }
    forall id | id in after.commands ensures CommandOk(after, id) { assert CommandOk(s, id); }
    forall call | call in after.deliveries ensures DeliveryOk(after, call) { assert DeliveryOk(s, call); }
  }

  lemma InstallKeeps(cfg: Config, s: State, j: Joining)
    requires Inv(cfg, s)
    ensures Inv(cfg, Install(s, j))
  {
    if !s.closing && ValidCapabilities(j.capabilities) {
      var f := FailWaiting(s, CurrentOf(s, j.tenant), Replaced);
      FailWaitingKeeps(cfg, s, CurrentOf(s, j.tenant), Replaced);
      var connection := Connection(j.tenant, j.socket, j.capabilities, j.device, map[], None);
      NewConnectionKeeps(cfg, f, connection);
      var g := WithConnection(f, f.next, connection).(next := f.next + 1);
      var registry := g.connections[j.tenant := s.next];
      forall t | t in registry ensures registry[t] in g.objects && g.objects[registry[t]].tenant == t {
        if t != j.tenant { assert TenantOk(g, t); }
      }
      forall id | id in g.commands && g.commands[id].future.Unresolved?
        ensures g.commands[id].tenant in registry && registry[g.commands[id].tenant] == g.commands[id].connection
      {
        assert CommandOk(g, id);
      }
      RegistryKeeps(cfg, g, registry, false);
      assert Install(s, j) == g.(connections := registry, closing := false);
    }
  }

  lemma UnregisterKeeps(cfg: Config, s: State, tenant: string, socket: Id)
    requires Inv(cfg, s)
    ensures Inv(cfg, UnregisterStep(s, tenant, socket))
  {
    var f := FailWaiting(s, CurrentOf(s, tenant), Disconnected);
    var registry := s.connections - {tenant};
    if UnregisterStep(s, tenant, socket) == f.(connections := registry) && tenant in s.connections {
      FailWaitingKeeps(cfg, s, CurrentOf(s, tenant), Disconnected);
      forall t | t in registry ensures registry[t] in f.objects && f.objects[registry[t]].tenant == t {
        assert TenantOk(f, t);
      }
      forall id | id in f.commands && f.commands[id].future.Unresolved?
        ensures f.commands[id].tenant in registry && registry[f.commands[id].tenant] == f.commands[id].connection
      {
        assert CommandOk(f, id);
      }
      assert f.closing ==> registry == map[];
      RegistryKeeps(cfg, f, registry, f.closing);
      assert f.(connections := registry, closing := f.closing) == f.(connections := registry);
    }
  }

  lemma CloseKeeps(cfg: Config, s: State)
    requires Inv(cfg, s)
    ensures Inv(cfg, CloseStep(s))
  {
    if !s.closing {
      FailWaitingKeeps(cfg, s, s.connections.Values, ShuttingDown);
      var f := FailWaiting(s, s.connections.Values, ShuttingDown);
      forall id | id in f.commands ensures !f.commands[id].future.Unresolved? {
        assert CommandOk(f, id);
        if f.commands[id].tenant in s.connections {
          assert s.connections[f.commands[id].tenant] in s.connections.Values;
        }
      }
      RegistryKeeps(cfg, f, map[], true);
    }
  }

  lemma CompleteKeeps(cfg: Config, s: State, id: Id, message: string)
    requires Inv(cfg, s) && id in s.commands && s.commands[id].connection in s.objects
    requires s.commands[id].future.Unresolved?
    ensures Inv(cfg, Complete(s, s.commands[id].connection, s.commands[id].request, id, message))
  {
    var cmd := s.commands[id];
    var c := cmd.connection;
    var connection := s.objects[c].(pending := s.objects[c].pending - {cmd.request});
    assert CommandOk(s, id) && ConnectionOk(cfg, s, c);
    LocalChangeKeeps(cfg, s, id, cmd.(future := Resolved(message)), connection);
  }

  lemma ResultKeeps(cfg: Config, s: State, tenant: string, socket: Id, reply: Option<string>, message: string)
    requires Inv(cfg, s)
    ensures Inv(cfg, ResultStep(cfg, s, tenant, socket, reply, message))
  {
    if tenant in s.connections && reply.Some? {
      assert TenantOk(s, tenant);
      var c := s.connections[tenant];
      if reply.value in s.objects[c].pending && s.objects[c].socket == socket {
        var id := s.objects[c].pending[reply.value];
        assert ConnectionOk(cfg, s, c) && EntryOk(s, c, reply.value) && CommandOk(s, id);
        if s.commands[id].future.Unresolved? {
          CompleteKeeps(cfg, s, id, message);
          var queued := s.deliveries[s.next := Delivery(tenant, socket, c, reply.value, id, message)];
          var after := s.(deliveries := queued, next := s.next + 1);
          forall call | call in queued ensures DeliveryOk(after, call) {
            if call != s.next { assert DeliveryOk(s, call); }
          }
          assert after == s.(joining := s.joining, deliveries := queued, next := s.next + 1);
          SuspensionsKeep(cfg, s, s.joining, queued, s.next + 1);
        }
      }
    }
  }

  lemma ResultCheckedKeeps(cfg: Config, s: State, call: Id, ok: bool)
    requires Inv(cfg, s)
    ensures Inv(cfg, ResultCheckedStep(s, call, ok))
  {
    if call in s.deliveries {
      var d := s.deliveries[call];
      var resumed := s.(deliveries := s.deliveries - {call});
      DroppedDeliveryKeeps(cfg, s, call);
      assert DeliveryOk(s, call) && CommandOk(s, d.command) && ConnectionOk(cfg, s, d.connection);
      if s.commands[d.command].future.Unresolved? {
        RecheckNeverFires(cfg, s, call);
        CompleteKeeps(cfg, resumed, d.command, d.message);
        CommandChangeKeeps(cfg, resumed, d.command, s.commands[d.command].(future := Failed(VerificationFailed)));
      }
    }
  }

  lemma SendKeeps(cfg: Config, s: State, tenant: string, capability: string, request: string, validTimeout: bool)
    requires Inv(cfg, s)
    ensures Inv(cfg, SendStep(cfg, s, tenant, capability, request, validTimeout))
  {
    var after := SendStep(cfg, s, tenant, capability, request, validTimeout);
    if tenant in s.connections && after.next != s.next {
      var c := s.connections[tenant];
      assert TenantOk(s, tenant) && ConnectionOk(cfg, s, c);
      assert request in s.objects[c].pending ==> EntryOk(s, c, request);
      assert s.next in s.commands ==> CommandOk(s, s.next);
      AddedSize(s.objects[c].pending, request, s.next);
      forall t | t in after.connections ensures TenantOk(after, t) { assert TenantOk(s, t); }
      forall o | o in after.objects ensures ConnectionOk(cfg, after, o) {
        assert ConnectionOk(cfg, s, o);
        forall r | r in after.objects[o].pending ensures EntryOk(after, o, r) {
          if o != c || r != request { assert EntryOk(s, o, r); }
        }
      }
      forall id | id in after.commands ensures CommandOk(after, id) {
        if id != s.next { assert CommandOk(s, id); }
      }
      forall call | call in after.deliveries ensures DeliveryOk(after, call) { assert DeliveryOk(s, call); }
    }
  }

  lemma LeaveKeeps(cfg: Config, s: State, id: Id)
    requires Inv(cfg, s) && id in s.commands && s.commands[id].connection in s.objects
    ensures Inv(cfg, Leave(s, id))
  {
    var cmd := s.commands[id];
    var held := s.objects[cmd.connection];
    LocalChangeKeeps(cfg, s, id,
      cmd.(phase := Finished, future := if cmd.future.Unresolved? then Cancelled else cmd.future),
      held.(pending := held.pending - {cmd.request},
            sendLock := if held.sendLock == Some(id) then None else held.sendLock));
  }

  lemma LockKeeps(cfg: Config, s: State, id: Id)
    requires Inv(cfg, s)
    ensures Inv(cfg, LockStep(cfg, s, id))
  {
    if Suspended(s, id, WaitingLock) && s.objects[s.commands[id].connection].sendLock.None? {
      var c := s.commands[id].connection;
      var held := s.objects[c].(sendLock := Some(id));
      var locked := WithConnection(s, c, held);
      assert CommandOk(s, id);
      LocalChangeKeeps(cfg, s, id, s.commands[id].(phase := Verifying), held);
      LocalChangeKeeps(cfg, s, id, s.commands[id].(phase := Writing), held);
      LeaveKeeps(cfg, s, id);
      assert Leave(locked, id) == Leave(s, id);
    }
  }

  lemma WriteKeeps(cfg: Config, s: State, id: Id, ok: bool)
    requires Inv(cfg, s)
    ensures Inv(cfg, WriteStep(s, id, ok))
  {
    if Suspended(s, id, Writing) {
      var c := s.commands[id].connection;
      assert CommandOk(s, id);
      LeaveKeeps(cfg, s, id);
      LocalChangeKeeps(cfg, s, id, s.commands[id].(phase := AwaitingResult), s.objects[c].(sendLock := None));
    }
  }

  lemma SendCheckedKeeps(cfg: Config, s: State, id: Id, ok: bool)
    requires Inv(cfg, s)
    ensures Inv(cfg, SendCheckedStep(s, id, ok))
  {
    if Suspended(s, id, Verifying) {
      assert CommandOk(s, id);
      LeaveKeeps(cfg, s, id);
      CommandChangeKeeps(cfg, s, id, s.commands[id].(phase := Writing));
    }
  }

  lemma InterruptKeeps(cfg: Config, s: State, id: Id)
    requires Inv(cfg, s)
    ensures Inv(cfg, InterruptStep(s, id))
  {
    var after := InterruptStep(s, id);
    if id in s.commands && after != s {
      assert CommandOk(s, id);
      CommandChangeKeeps(cfg, s, id, after.commands[id]);
    }
  }
}
