/**
 The two places where the API admits unauthenticated clients: WebSocket authentication
 (services/api/websocket/security.py) and device pairing (services/auth/admission.py).

 Each object is specified by a history it does not store: every attempt it ever let through, with
 the monotonic clock reading. Its decision is that of a limiter which looks at the whole history.
 */
module Admission {
  import opened KeyOrder
  import opened SlidingWindow

  /** The stored map, the history and the clock of a limiter fit together. */
  ghost predicate InStep(order: seq<string>, deques: map<string, seq<real>>, log: seq<Attempt>, clock: real,
                         perHost: nat, maxHosts: nat)
  {
    && Represents(order, deques, log, clock, perHost) && |order| <= maxHosts
    && Admitted(log, clock, perHost, maxHosts)
  }

  /** A stored map never holds an empty deque, and never more than clients x limit timestamps. */
  lemma StoredMapIsBounded(order: seq<string>, deques: map<string, seq<real>>, log: seq<Attempt>, clock: real,
                           perHost: nat, maxHosts: nat)
    requires InStep(order, deques, log, clock, perHost, maxHosts)
    ensures forall h :: h in deques ==> deques[h] != []
    ensures |deques.Keys| == |order| <= maxHosts
    ensures Stored(order, deques) <= maxHosts * perHost
  {
    forall h | h in deques ensures 0 < |deques[h]| <= perHost {
      assert Agrees(deques, log, clock, perHost, h);
    }
    SizeOfDistinct(order);
    StorageIsBounded(order, deques, perHost, maxHosts);
  }

  /** The attempt the program is about to record, or not: what it reads off the stored map is what the
      whole history says. */
  lemma ReadsTheHistory(order: seq<string>, deques: map<string, seq<real>>, log: seq<Attempt>, now: real,
                        perHost: nat, maxHosts: nat, host: string)
    requires InStep(order, deques, log, now, perHost, maxHosts) && Fresh(order, deques, now)
    ensures var kept := if host in deques then After(deques[host], now - WINDOW) else [];
            && kept == Recent(log, host, now)
            && (Admits(log, host, now, perHost, maxHosts)
                <==> (host in deques || |order| < maxHosts) && |kept| < perHost)
    ensures host in deques ==>
      && Ascends(deques[host], now) && LastOf(deques, host) > now - WINDOW
      && After(deques[host], now - WINDOW) != []
  {
    StoredAreRecent(order, deques, log, now, perHost);
    assert Agrees(deques, log, now, perHost, host);
    if host in deques {
      FreshHost(order, deques, now, host);
      AfterKeepsLast(deques[host], now - WINDOW);
    }
  }

  /** The map after an attempt is recorded does not depend on whether the host's deque was inserted
      and trimmed on the way. */
  lemma Overwritten(deques: map<string, seq<real>>, host: string, first: seq<real>, second: seq<real>, last: seq<real>)
    ensures deques[host := first][host := second] == deques[host := second]
    ensures deques[host := first][host := second][host := last] == deques[host := last]
            == deques[host := second][host := last]
    ensures host !in deques ==> deques[host := first][host := second] - {host} == deques
  {
  }

  lemma RecordInStep(order: seq<string>, deques: map<string, seq<real>>, log: seq<Attempt>, now: real,
                     perHost: nat, maxHosts: nat, host: string)
    requires InStep(order, deques, log, now, perHost, maxHosts)
    requires Admits(log, host, now, perHost, maxHosts)
    requires host in deques || |order| < maxHosts
    ensures InStep(MoveToEnd(order, host), deques[host := Recent(log, host, now) + [now]], log + [Attempt(host, now)],
                   now, perHost, maxHosts)
  {
    TimesAscend(log, now, perHost, maxHosts, host);
    AfterAscends(Times(log, host), now, now - WINDOW);
    RecordKeeps(order, deques, log, now, perHost, host);
    AdmittedExtends(log, host, now, perHost, maxHosts);
  }

  lemma NothingYet(now: real, perHost: nat)
    ensures Represents([], map[], [], now, perHost)
  {
  }

  /** A refusal leaves the host's deque trimmed and everything else as it was. */
  lemma RefuseInStep(order: seq<string>, deques: map<string, seq<real>>, log: seq<Attempt>, now: real,
                     perHost: nat, maxHosts: nat, host: string)
    requires InStep(order, deques, log, now, perHost, maxHosts) && Fresh(order, deques, now) && host in deques
    ensures InStep(order, deques[host := After(deques[host], now - WINDOW)], log, now, perHost, maxHosts)
  {
    ReadsTheHistory(order, deques, log, now, perHost, maxHosts, host);
    TrimKeeps(order, deques, log, now, perHost, host);
  }

  // ---------------------------------------------------------------- the decision, read off the history

  /** The attempts of a host in the 60 seconds before now, by their places in the history. */
  function AttemptsWithin(log: seq<Attempt>, host: string, now: real): set<nat> {
    set i: nat | i < |log| && log[i].host == host && now - 60.0 < log[i].at
  }

  /** The hosts with an attempt in the 60 seconds before now. */
  function HostsWithin(log: seq<Attempt>, now: real): set<string> {
    set i: nat | i < |log| && now - 60.0 < log[i].at :: log[i].host
  }

  lemma {:induction false} RecentAreCounted(log: seq<Attempt>, host: string, now: real)
    ensures |Recent(log, host, now)| == |AttemptsWithin(log, host, now)|
  {
    if log != [] {
      var n := |log| - 1;
      RecentAreCounted(log[..n], host, now);
      assert log == log[..n] + [log[n]];
      RecentStep(log[..n], log[n], host, now);
      assert AttemptsWithin(log, host, now) == AttemptsWithin(log[..n], host, now)
          + if log[n].host == host && now - 60.0 < log[n].at then {n} else {};
    } else {
      assert AttemptsWithin(log, host, now) == {};
    }
  }

  /** Nobody is refused who may come in, and nobody comes in who may not. */
  lemma AdmitsByCount(log: seq<Attempt>, host: string, now: real, perHost: nat, maxHosts: nat)
    ensures Admits(log, host, now, perHost, maxHosts) <==>
      && (host in HostsWithin(log, now) || |HostsWithin(log, now)| < maxHosts)
      && |AttemptsWithin(log, host, now)| < perHost
  {
    RecentAreCounted(log, host, now);
    assert HostsWithin(log, now) == RecentHosts(log, now);
  }

  /** What a call leaves stored once expired hosts are gone, and whether it got its slot. */
  datatype Slot = Slot(order: seq<string>, deques: map<string, seq<real>>, granted: bool)

  function SlotFor(order: seq<string>, deques: map<string, seq<real>>, host: string, now: real,
                   perHost: nat, maxHosts: nat, free: bool): Slot
  {
    var times := if host in deques then After(deques[host], now - WINDOW) else [];
    if host !in deques && |order| >= maxHosts then Slot(order, deques, false)
    else if |times| >= perHost || !free then
      Slot(order, if host in deques then deques[host := times] else deques, false)
    else Slot(MoveToEnd(order, host), deques[host := times + [now]], true)
  }

  /** The slot is granted exactly when the whole history says so, and every outcome stays in step with it. */
  lemma SlotDecides(order: seq<string>, deques: map<string, seq<real>>, log: seq<Attempt>, now: real,
                    perHost: nat, maxHosts: nat, host: string, free: bool)
    requires InStep(order, deques, log, now, perHost, maxHosts) && Fresh(order, deques, now)
    ensures host in deques ==> Ascends(deques[host], now) && After(deques[host], now - WINDOW) != []
    ensures host !in deques ==> host !in KeySet(order)
    ensures var slot := SlotFor(order, deques, host, now, perHost, maxHosts, free);
            && (slot.granted <==> Admits(log, host, now, perHost, maxHosts) && free)
            && InStep(slot.order, slot.deques, if slot.granted then log + [Attempt(host, now)] else log,
                      now, perHost, maxHosts)
  {
    ReadsTheHistory(order, deques, log, now, perHost, maxHosts, host);
    if host in deques {
      RefuseInStep(order, deques, log, now, perHost, maxHosts, host);
    }
    if Admits(log, host, now, perHost, maxHosts) {
      RecordInStep(order, deques, log, now, perHost, maxHosts, host);
    }
  }

  /** Expiry, for a state that is in step with its history. */
  method Forget(order: seq<string>, deques: map<string, seq<real>>, now: real,
                ghost log: seq<Attempt>, ghost clock: real, ghost perHost: nat, ghost maxHosts: nat)
    returns (order': seq<string>, deques': map<string, seq<real>>)
    requires InStep(order, deques, log, clock, perHost, maxHosts) && clock <= now
    ensures InStep(order', deques', log, now, perHost, maxHosts) && Fresh(order', deques', now)
  {
    order', deques' := Expire(order, deques, now, log, clock, perHost);
    AdmittedLater(log, clock, now, perHost, maxHosts);
  }

  class WebSocketSecurity {
    const attemptsPerMinute: nat
    const maxAuthClients: nat
    const maxAuthInflight: nat

    var order: seq<string>
    var attempts: map<string, seq<real>>
    var authInflight: int

    ghost var log: seq<Attempt>
    ghost var clock: real

    ghost predicate Valid()
      reads this
    {
      && 0 < attemptsPerMinute
      && 0 <= authInflight <= maxAuthInflight
      && InStep(order, attempts, log, clock, attemptsPerMinute, maxAuthClients)
    }

    constructor (attemptsPerMinute: nat, maxAuthClients: nat, maxAuthInflight: nat, now: real)
      requires 0 < attemptsPerMinute
      ensures Valid() && log == [] && clock == now && authInflight == 0
      ensures this.attemptsPerMinute == attemptsPerMinute && this.maxAuthClients == maxAuthClients
      ensures this.maxAuthInflight == maxAuthInflight
    {
      this.attemptsPerMinute, this.maxAuthClients := attemptsPerMinute, maxAuthClients;
      this.maxAuthInflight := maxAuthInflight;
      order, attempts, authInflight := [], map[], 0;
      log, clock := [], now;
      new;
      NothingYet(now, attemptsPerMinute);
    }

    /** Admits exactly what the never-forgetting limiter admits, and remembers exactly that. */
    method AllowAttempt(host: string, now: real) returns (ok: bool)
      requires Valid() && clock <= now
      modifies this`order, this`attempts, this`log, this`clock
      ensures Valid() && clock == now
      ensures ok <==> old(Admits(log, host, now, attemptsPerMinute, maxAuthClients))
      ensures ok <==>
        && (host in HostsWithin(old(log), now) || |HostsWithin(old(log), now)| < maxAuthClients)
        && |AttemptsWithin(old(log), host, now)| < attemptsPerMinute
      ensures log == if ok then old(log) + [Attempt(host, now)] else old(log)
    {
      AdmitsByCount(log, host, now, attemptsPerMinute, maxAuthClients);
      order, attempts := Forget(order, attempts, now, log, clock, attemptsPerMinute, maxAuthClients);
      clock := now;
      SlotDecides(order, attempts, log, now, attemptsPerMinute, maxAuthClients, host, true);
      order, attempts, ok := Reserve(order, attempts, host, now);
      log := if ok then log + [Attempt(host, now)] else log;
    }

    /** What follows expiry in _allow_attempt, on the map it works on. */
    method Reserve(order: seq<string>, attempts: map<string, seq<real>>, host: string, now: real)
      returns (order': seq<string>, attempts': map<string, seq<real>>, ok: bool)
      requires 0 < attemptsPerMinute
      requires host in attempts ==> Ascends(attempts[host], now)
      requires host !in attempts ==> host !in KeySet(order)
      ensures Slot(order', attempts', ok)
           == SlotFor(order, attempts, host, now, attemptsPerMinute, maxAuthClients, true)
    {
      order', attempts' := order, attempts;
      if host !in attempts' {
        if |order'| >= maxAuthClients {
          return order', attempts', false;
        }
        MoveInserted(order, host);
        order', attempts' := order' + [host], attempts'[host := []];
      }
      var times := Trim(attempts'[host], now);
      Overwritten(attempts, host, [], times, times + [now]);
      attempts' := attempts'[host := times];
      if |times| >= attemptsPerMinute {
        return order', attempts', false;
      }
      return MoveToEnd(order', host), attempts'[host := times + [now]], true;
    }

    /** Authentication starts: the rate limit is asked, and charged, before the inflight limit. */
    method BeginAuthenticate(host: string, now: real) returns (ok: bool)
      requires Valid() && clock <= now
      modifies this
      ensures Valid() && clock == now
      ensures ok <==> old(Admits(log, host, now, attemptsPerMinute, maxAuthClients) && authInflight < maxAuthInflight)
      ensures ok <==>
        && (host in HostsWithin(old(log), now) || |HostsWithin(old(log), now)| < maxAuthClients)
        && |AttemptsWithin(old(log), host, now)| < attemptsPerMinute && old(authInflight) < maxAuthInflight
      ensures log == if old(Admits(log, host, now, attemptsPerMinute, maxAuthClients))
                     then old(log) + [Attempt(host, now)] else old(log)
      ensures authInflight == old(authInflight) + if ok then 1 else 0
    {
      AdmitsByCount(log, host, now, attemptsPerMinute, maxAuthClients);
      var allowed := AllowAttempt(host, now);
      if !allowed || authInflight >= maxAuthInflight {
        return false;
      }
      authInflight := authInflight + 1;
      return true;
    }

    /** The finally of an authentication that had started. */
    method EndAuthenticate()
      requires Valid() && 0 < authInflight
      modifies this`authInflight
      ensures Valid() && authInflight == old(authInflight) - 1
    {
      authInflight := authInflight - 1;
    }
  }

  class PairingAdmission {
    const attemptsPerMinute: nat
    const maxAuthClients: nat
    const maxAuthInflight: nat

    var order: seq<string>
    var attempts: map<string, seq<real>>
    var inflight: int

    ghost var log: seq<Attempt>
    ghost var clock: real

    ghost predicate Valid()
      reads this
    {
      && 0 <= inflight <= maxAuthInflight
      && InStep(order, attempts, log, clock, attemptsPerMinute, maxAuthClients)
    }

    constructor (attemptsPerMinute: nat, maxAuthClients: nat, maxAuthInflight: nat, now: real)
      ensures Valid() && log == [] && clock == now && inflight == 0
      ensures this.attemptsPerMinute == attemptsPerMinute && this.maxAuthClients == maxAuthClients
      ensures this.maxAuthInflight == maxAuthInflight
    {
      this.attemptsPerMinute, this.maxAuthClients := attemptsPerMinute, maxAuthClients;
      this.maxAuthInflight := maxAuthInflight;
      order, attempts, inflight := [], map[], 0;
      log, clock := [], now;
      new;
      NothingYet(now, attemptsPerMinute);
    }

    /** Enters the admitted section or refuses. Here a refusal charges nothing, whichever limit refused. */
    method Enter(host: string, now: real) returns (ok: bool)
      requires Valid() && clock <= now
      modifies this
      ensures Valid() && clock == now
      ensures ok <==> old(Admits(log, host, now, attemptsPerMinute, maxAuthClients) && inflight < maxAuthInflight)
      ensures ok <==>
        && (host in HostsWithin(old(log), now) || |HostsWithin(old(log), now)| < maxAuthClients)
        && |AttemptsWithin(old(log), host, now)| < attemptsPerMinute && old(inflight) < maxAuthInflight
      ensures log == if ok then old(log) + [Attempt(host, now)] else old(log)
      ensures inflight == old(inflight) + if ok then 1 else 0
    {
      AdmitsByCount(log, host, now, attemptsPerMinute, maxAuthClients);
      order, attempts := Forget(order, attempts, now, log, clock, attemptsPerMinute, maxAuthClients);
      clock := now;
      SlotDecides(order, attempts, log, now, attemptsPerMinute, maxAuthClients, host, inflight < maxAuthInflight);
      order, attempts, ok := Reserve(order, attempts, host, now, inflight < maxAuthInflight);
      if ok {
        log := log + [Attempt(host, now)];
        inflight := inflight + 1;
      }
    }

    /** What follows expiry in admit, on the map it works on: no empty deque stays behind. */
    method Reserve(order: seq<string>, attempts: map<string, seq<real>>, host: string, now: real, free: bool)
      returns (order': seq<string>, attempts': map<string, seq<real>>, ok: bool)
      requires host in attempts ==> Ascends(attempts[host], now) && After(attempts[host], now - WINDOW) != []
      requires host !in attempts ==> host !in KeySet(order)
      ensures Slot(order', attempts', ok)
           == SlotFor(order, attempts, host, now, attemptsPerMinute, maxAuthClients, free)
    {
      order', attempts' := order, attempts;
      if host !in attempts' {
        if |order'| >= maxAuthClients {
          return order', attempts', false;
        }
        MoveInserted(order, host);
        order', attempts' := order' + [host], attempts'[host := []];
      }
      var times := Trim(attempts'[host], now);
      Overwritten(attempts, host, [], times, times + [now]);
      attempts' := attempts'[host := times];
      if |times| >= attemptsPerMinute || !free {
        if times == [] {
          order', attempts' := Without(order', host), attempts' - {host};
        }
        return order', attempts', false;
      }
      return MoveToEnd(order', host), attempts'[host := times + [now]], true;
    }

    /** The finally of an admitted section. */
    method Leave()
      requires Valid() && 0 < inflight
      modifies this`inflight
      ensures Valid() && inflight == old(inflight) - 1
    {
      inflight := inflight - 1;
    }
  }
}
