/**
 The sliding-window limiter both admission points are built on: an ordered map of deques that
 forgets what is older than a minute, and the limiter it must agree with, which never forgets.
 */
module SlidingWindow {
  import opened Common
  import opened KeyOrder

  const WINDOW: real := 60.0

  datatype Attempt = Attempt(host: string, at: real)

  // ---------------------------------------------------------------- the limiter that never forgets

  /** The times of every admitted attempt of a host. */
  function Times(log: seq<Attempt>, host: string): seq<real> {
    if log == [] then []
    else
      var last := log[|log| - 1];
      var rest := Times(log[..|log| - 1], host);
      if last.host == host then rest + [last.at] else rest
  }

  function After(times: seq<real>, t: real): seq<real> {
    if times == [] then []
    else
      var last := times[|times| - 1];
      var rest := After(times[..|times| - 1], t);
      if last > t then rest + [last] else rest
  }

  function Recent(log: seq<Attempt>, host: string, now: real): seq<real> {
    After(Times(log, host), now - WINDOW)
  }

  function RecentHosts(log: seq<Attempt>, now: real): set<string> {
    set i | 0 <= i < |log| && log[i].at > now - WINDOW :: log[i].host
  }

  /** The decision: a known host or room for one more, and the host under its own limit. */
  ghost predicate Admits(log: seq<Attempt>, host: string, now: real, perHost: nat, maxHosts: nat) {
    && (host in RecentHosts(log, now) || |RecentHosts(log, now)| < maxHosts)
    && |Recent(log, host, now)| < perHost
  }

  /** A log that the limiter admitted attempt by attempt, under a clock that never goes back and now
      stands at the given time. */
  ghost predicate Admitted(log: seq<Attempt>, clock: real, perHost: nat, maxHosts: nat) {
    log != [] ==>
      var init, last := log[..|log| - 1], log[|log| - 1];
      && last.at <= clock
      && Admits(init, last.host, last.at, perHost, maxHosts)
      && Admitted(init, last.at, perHost, maxHosts)
  }

  lemma {:induction false} AdmittedUpTo(log: seq<Attempt>, clock: real, perHost: nat, maxHosts: nat)
    requires Admitted(log, clock, perHost, maxHosts)
    ensures forall i :: 0 <= i < |log| ==> log[i].at <= clock
  {
    if log != [] { AdmittedUpTo(log[..|log| - 1], log[|log| - 1].at, perHost, maxHosts); }
  }

  lemma AdmittedLater(log: seq<Attempt>, clock: real, now: real, perHost: nat, maxHosts: nat)
    requires Admitted(log, clock, perHost, maxHosts) && clock <= now
    ensures Admitted(log, now, perHost, maxHosts)
  {
  }

  lemma AdmittedExtends(log: seq<Attempt>, host: string, now: real, perHost: nat, maxHosts: nat)
    requires Admitted(log, now, perHost, maxHosts) && Admits(log, host, now, perHost, maxHosts)
    ensures Admitted(log + [Attempt(host, now)], now, perHost, maxHosts)
  {
    assert (log + [Attempt(host, now)])[..|log|] == log;
  }

  lemma AfterAppend(times: seq<real>, x: real, t: real)
    ensures After(times + [x], t) == if x > t then After(times, t) + [x] else After(times, t)
  {
    assert (times + [x])[..|times|] == times;
  }

  /** Dropping an old first time changes nothing. */
  lemma {:induction false} AfterHead(times: seq<real>, t: real)
    requires times != [] && times[0] <= t
    ensures After(times[1..], t) == After(times, t)
  {
    var n := |times| - 1;
    if n > 0 {
      AfterHead(times[..n], t);
      assert times[1..][..n - 1] == times[..n][1..];
    }
  }

  /** Forgetting early does not change what is recent later. */
  lemma {:induction false} AfterAgain(times: seq<real>, early: real, late: real)
    requires early <= late
    ensures After(After(times, early), late) == After(times, late)
  {
    if times != [] {
      var init, last := times[..|times| - 1], times[|times| - 1];
      AfterAgain(init, early, late);
      AfterAppend(After(init, early), last, late);
    }
  }

  /** The times never go down, and end at or before the given one. */
  ghost predicate Ascends(times: seq<real>, top: real) {
    times != [] ==> times[|times| - 1] <= top && Ascends(times[..|times| - 1], times[|times| - 1])
  }

  lemma {:induction false} AscendsFrom(times: seq<real>, top: real)
    requires Ascends(times, top) && times != []
    ensures times[0] <= times[|times| - 1] && Ascends(times[1..], top)
  {
    var n := |times| - 1;
    if n > 0 {
      AscendsFrom(times[..n], times[n]);
      assert times[1..][..n - 1] == times[..n][1..];
    }
  }

  lemma {:induction false} AfterAscends(times: seq<real>, top: real, t: real)
    requires Ascends(times, top)
    ensures Ascends(After(times, t), top)
  {
    if times != [] {
      var init, last := times[..|times| - 1], times[|times| - 1];
      AfterAscends(init, last, t);
      assert (After(init, t) + [last])[..|After(init, t)|] == After(init, t);
    }
  }

  lemma {:induction false} AfterAll(times: seq<real>, top: real, t: real)
    requires Ascends(times, top) && (times != [] ==> times[0] > t)
    ensures After(times, t) == times
  {
    if times != [] {
      AscendsFrom(times, top);
      AfterAll(times[..|times| - 1], times[|times| - 1], t);
      assert times == times[..|times| - 1] + [times[|times| - 1]];
    }
  }

  lemma {:induction false} AfterNone(times: seq<real>, t: real)
    requires Ascends(times, t)
    ensures After(times, t) == []
  {
    if times != [] { AfterNone(times[..|times| - 1], t); }
  }

  lemma {:induction false} AfterShort(times: seq<real>, t: real)
    ensures |After(times, t)| <= |times|
  {
    if times != [] { AfterShort(times[..|times| - 1], t); }
  }

  lemma AfterKeepsLast(times: seq<real>, t: real)
    requires times != [] && times[|times| - 1] > t
    ensures After(times, t) != [] && After(times, t)[|After(times, t)| - 1] == times[|times| - 1]
  {
  }

  lemma {:induction false} TimesAscend(log: seq<Attempt>, clock: real, perHost: nat, maxHosts: nat, host: string)
    requires Admitted(log, clock, perHost, maxHosts)
    ensures Ascends(Times(log, host), clock)
  {
    if log != [] {
      var init, last := log[..|log| - 1], log[|log| - 1];
      TimesAscend(init, last.at, perHost, maxHosts, host);
      AscendsAppend(Times(init, host), last.at);
      AscendsLater(Times(init, host), last.at, clock);
    }
  }

  lemma AscendsAppend(times: seq<real>, x: real)
    requires Ascends(times, x)
    ensures Ascends(times + [x], x)
  {
    assert (times + [x])[..|times|] == times;
  }

  lemma AscendsLater(times: seq<real>, top: real, later: real)
    requires Ascends(times, top) && top <= later
    ensures Ascends(times, later)
  {
  }

  /** What the last attempt adds to what is recent of a host. */
  lemma RecentStep(log: seq<Attempt>, a: Attempt, host: string, now: real)
    ensures Recent(log + [a], host, now)
         == if a.host == host && a.at > now - WINDOW then Recent(log, host, now) + [a.at] else Recent(log, host, now)
  {
    assert (log + [a])[..|log|] == log;
    if a.host == host { AfterAppend(Times(log, host), a.at, now - WINDOW); }
  }

  lemma {:induction false} RecentHostIff(log: seq<Attempt>, host: string, now: real)
    ensures host in RecentHosts(log, now) <==> Recent(log, host, now) != []
  {
    if log != [] {
      var init, last := log[..|log| - 1], log[|log| - 1];
      assert log == init + [last];
      RecentHostIff(init, host, now);
      RecentStep(init, last, host, now);
      HostsStep(init, last, now);
    }
  }

  lemma HostsStep(log: seq<Attempt>, a: Attempt, now: real)
    ensures RecentHosts(log + [a], now) == RecentHosts(log, now) + if a.at > now - WINDOW then {a.host} else {}
  {
    var all := log + [a];
    forall h | h in RecentHosts(log, now) ensures h in RecentHosts(all, now) {
      var i :| 0 <= i < |log| && log[i].at > now - WINDOW && log[i].host == h;
      assert all[i] == log[i];
    }
    assert all[|log|] == a;
  }

  // ---------------------------------------------------------------- what the limiter guarantees

  /** The attempts of a host in the minute that ends at t. */
  function InMinute(log: seq<Attempt>, host: string, t: real): nat {
    if log == [] then 0
    else
      var last := log[|log| - 1];
      InMinute(log[..|log| - 1], host, t) + if last.host == host && t - WINDOW < last.at <= t then 1 else 0
  }

  function HostsInMinute(log: seq<Attempt>, t: real): set<string> {
    set i | 0 <= i < |log| && t - WINDOW < log[i].at <= t :: log[i].host
  }

  lemma {:induction false} MinuteIsRecent(log: seq<Attempt>, host: string, t: real, now: real)
    requires now <= t
    ensures InMinute(log, host, t) <= |Recent(log, host, now)|
  {
    if log != [] {
      var init, last := log[..|log| - 1], log[|log| - 1];
      MinuteIsRecent(init, host, t, now);
      AfterAppend(Times(init, host), last.at, now - WINDOW);
    }
  }

  /** No host ever gets more than its limit through in any minute whatsoever. */
  lemma {:induction false} NoMinuteExceedsTheHostLimit(log: seq<Attempt>, clock: real, host: string, t: real,
                                                       perHost: nat, maxHosts: nat)
    requires Admitted(log, clock, perHost, maxHosts)
    ensures InMinute(log, host, t) <= perHost
  {
    if log != [] {
      var init, last := log[..|log| - 1], log[|log| - 1];
      NoMinuteExceedsTheHostLimit(init, last.at, host, t, perHost, maxHosts);
      if last.host == host && last.at <= t {
        MinuteIsRecent(init, host, t, last.at);
      }
    }
  }

  lemma LateAttemptIgnored(log: seq<Attempt>, a: Attempt, t: real)
    requires a.at > t
    ensures HostsInMinute(log + [a], t) == HostsInMinute(log, t)
  {
    var all := log + [a];
    forall h | h in HostsInMinute(log, t) ensures h in HostsInMinute(all, t) {
      var i :| 0 <= i < |log| && t - WINDOW < log[i].at <= t && log[i].host == h;
      assert all[i] == log[i];
    }
  }

  lemma MinuteHostsAreKnown(log: seq<Attempt>, a: Attempt, t: real)
    requires a.at <= t
    ensures HostsInMinute(log + [a], t) <= RecentHosts(log, a.at) + {a.host}
  {
    var all := log + [a];
    forall h | h in HostsInMinute(all, t) ensures h in RecentHosts(log, a.at) + {a.host} {
      var i :| 0 <= i < |all| && t - WINDOW < all[i].at <= t && all[i].host == h;
      if i < |log| { assert all[i] == log[i]; }
    }
  }

  lemma RecentAreOfTheMinute(log: seq<Attempt>, now: real)
    requires forall i :: 0 <= i < |log| ==> log[i].at <= now
    ensures RecentHosts(log, now) == HostsInMinute(log, now)
  {
  }

  /** No minute ever sees more distinct hosts than the limit. */
  lemma {:induction false} NoMinuteExceedsTheClientLimit(log: seq<Attempt>, clock: real, t: real, perHost: nat,
                                                         maxHosts: nat)
    requires Admitted(log, clock, perHost, maxHosts)
    ensures |HostsInMinute(log, t)| <= maxHosts
    decreases |log|
  {
    if log != [] {
      var init, last := log[..|log| - 1], log[|log| - 1];
      assert log == init + [last];
      if last.at > t {
        NoMinuteExceedsTheClientLimit(init, last.at, t, perHost, maxHosts);
        LateAttemptIgnored(init, last, t);
      } else {
        var recent := RecentHosts(init, last.at);
        NoMinuteExceedsTheClientLimit(init, last.at, last.at, perHost, maxHosts);
        AdmittedUpTo(init, last.at, perHost, maxHosts);
        RecentAreOfTheMinute(init, last.at);
        MinuteHostsAreKnown(init, last, t);
        AddOne(recent, last.host);
        SubsetSmaller(HostsInMinute(init + [last], t), recent + {last.host});
      }
    }
  }

  lemma AddOne(hosts: set<string>, host: string)
    ensures |hosts + {host}| == |hosts| + if host in hosts then 0 else 1
  {
    if host in hosts { assert hosts + {host} == hosts; }
  }

  // ---------------------------------------------------------------- what the program stores

  function LastOf(deques: map<string, seq<real>>, host: string): real {
    if host in deques && deques[host] != [] then deques[host][|deques[host]| - 1] else 0.0
  }

  /** Every host was last seen at or after the bound. */
  ghost predicate NotBefore(order: seq<string>, deques: map<string, seq<real>>, bound: real) {
    forall h {:trigger LastOf(deques, h)} :: h in KeySet(order) ==> bound <= LastOf(deques, h)
  }

  /** The hosts stand in the order of their last attempts. */
  ghost predicate ByLast(order: seq<string>, deques: map<string, seq<real>>) {
    order != [] ==> NotBefore(order[1..], deques, LastOf(deques, order[0])) && ByLast(order[1..], deques)
  }

  /** The stored deque of a host, or its absence, tells exactly what is recent at the clock and later. */
  ghost predicate Agrees(deques: map<string, seq<real>>, log: seq<Attempt>, clock: real, perHost: nat, host: string) {
    if host in deques then
      && 0 < |deques[host]| <= perHost && Ascends(deques[host], clock)
      && After(deques[host], clock - WINDOW) == Recent(log, host, clock)
    else Recent(log, host, clock) == []
  }

  ghost predicate Represents(order: seq<string>, deques: map<string, seq<real>>, log: seq<Attempt>, clock: real,
                             perHost: nat) {
    && Distinct(order) && ByLast(order, deques)
    && KeySet(order) == deques.Keys
    && (forall h {:trigger Agrees(deques, log, clock, perHost, h)} :: Agrees(deques, log, clock, perHost, h))
  }

  /** Nothing stored is out of the window: enough to look at the head. */
  ghost predicate Fresh(order: seq<string>, deques: map<string, seq<real>>, now: real) {
    order != [] ==> LastOf(deques, order[0]) > now - WINDOW
  }

  lemma TimePasses(order: seq<string>, deques: map<string, seq<real>>, log: seq<Attempt>, clock: real, now: real,
                   perHost: nat)
    requires Represents(order, deques, log, clock, perHost) && clock <= now
    ensures Represents(order, deques, log, now, perHost)
  {
    forall h ensures Agrees(deques, log, now, perHost, h) {
      assert Agrees(deques, log, clock, perHost, h);
      AfterAgain(Times(log, h), clock - WINDOW, now - WINDOW);
      if h in deques { AfterAgain(deques[h], clock - WINDOW, now - WINDOW); }
    }
  }

  lemma {:induction false} ByLastSame(order: seq<string>, deques: map<string, seq<real>>,
                                      deques': map<string, seq<real>>)
    requires ByLast(order, deques)
    requires forall h :: h in KeySet(order) ==> LastOf(deques', h) == LastOf(deques, h)
    ensures ByLast(order, deques')
  {
    if order != [] { ByLastSame(order[1..], deques, deques'); }
  }

  lemma HeadExpires(order: seq<string>, deques: map<string, seq<real>>, log: seq<Attempt>, now: real, perHost: nat)
    requires Represents(order, deques, log, now, perHost)
    requires order != [] && LastOf(deques, order[0]) <= now - WINDOW
    ensures Represents(order[1..], deques - {order[0]}, log, now, perHost)
  {
    var gone, rest := order[0], deques - {order[0]};
    ByLastSame(order[1..], deques, rest);
    assert KeySet(order) == {gone} + KeySet(order[1..]);
    forall h ensures Agrees(rest, log, now, perHost, h) {
      assert Agrees(deques, log, now, perHost, h);
      if h == gone { AfterNone(deques[h], now - WINDOW); }
    }
  }

  /** Drop hosts from the front while their last attempt is out of the window. */
  method Expire(order: seq<string>, deques: map<string, seq<real>>, now: real,
                ghost log: seq<Attempt>, ghost clock: real, ghost perHost: nat)
    returns (order': seq<string>, deques': map<string, seq<real>>)
    requires Represents(order, deques, log, clock, perHost) && clock <= now
    ensures Represents(order', deques', log, now, perHost) && Fresh(order', deques', now)
    ensures |order'| <= |order|
  {
    TimePasses(order, deques, log, clock, now, perHost);
    order', deques' := order, deques;
    while order' != [] && LastOf(deques', order'[0]) <= now - WINDOW
      invariant Represents(order', deques', log, now, perHost) && |order'| <= |order|
      decreases |order'|
    {
      HeadExpires(order', deques', log, now, perHost);
      order', deques' := order'[1..], deques' - {order'[0]};
    }
  }

  /** Drop times from the front of a deque while they are out of the window. */
  method Trim(times: seq<real>, now: real) returns (kept: seq<real>)
    requires Ascends(times, now)
    ensures kept == After(times, now - WINDOW)
  {
    kept := times;
    while kept != [] && kept[0] <= now - WINDOW
      invariant After(kept, now - WINDOW) == After(times, now - WINDOW) && Ascends(kept, now)
    {
      AfterHead(kept, now - WINDOW);
      AscendsFrom(kept, now);
      kept := kept[1..];
    }
    AfterAll(kept, now, now - WINDOW);
  }

  /** The order makes the head speak for every stored host. */
  lemma FreshHost(order: seq<string>, deques: map<string, seq<real>>, now: real, host: string)
    requires ByLast(order, deques) && Fresh(order, deques, now) && host in KeySet(order)
    ensures LastOf(deques, host) > now - WINDOW
  {
    assert host != order[0] ==> host in KeySet(order[1..]);
  }

  /** After expiry, the stored hosts are the recent hosts of the full history. */
  lemma StoredAreRecent(order: seq<string>, deques: map<string, seq<real>>, log: seq<Attempt>, now: real, perHost: nat)
    requires Represents(order, deques, log, now, perHost) && Fresh(order, deques, now)
    ensures deques.Keys == RecentHosts(log, now)
    ensures |order| == |RecentHosts(log, now)|
  {
    forall h ensures h in deques <==> h in RecentHosts(log, now) {
      RecentHostIff(log, h, now);
      assert Agrees(deques, log, now, perHost, h);
      if h in deques {
        FreshHost(order, deques, now, h);
        AfterKeepsLast(deques[h], now - WINDOW);
      }
    }
    SizeOfDistinct(order);
  }

  function Without(order: seq<string>, host: string): seq<string> {
    if order == [] then [] else if order[0] == host then order[1..] else [order[0]] + Without(order[1..], host)
  }

  /** OrderedDict.move_to_end, on a key that may have just been inserted. */
  function MoveToEnd(order: seq<string>, host: string): seq<string> {
    Without(order, host) + [host]
  }

  lemma {:induction false} WithoutKeys(order: seq<string>, host: string)
    requires Distinct(order)
    ensures KeySet(Without(order, host)) == KeySet(order) - {host}
    ensures Distinct(Without(order, host))
    ensures |Without(order, host)| == |order| - (if host in KeySet(order) then 1 else 0)
  {
    if order != [] {
      WithoutKeys(order[1..], host);
      assert order[0] != host ==> Without(order, host)[1..] == Without(order[1..], host);
    }
  }

  lemma {:induction false} WithoutByLast(order: seq<string>, host: string, deques: map<string, seq<real>>)
    requires Distinct(order) && ByLast(order, deques)
    ensures ByLast(Without(order, host), deques)
  {
    if order != [] {
      WithoutByLast(order[1..], host, deques);
      WithoutKeys(order[1..], host);
      assert order[0] != host ==> Without(order, host)[1..] == Without(order[1..], host);
    }
  }

  lemma {:induction false} ByLastAppend(order: seq<string>, host: string, deques: map<string, seq<real>>)
    requires ByLast(order, deques)
    requires forall h :: h in KeySet(order) ==> LastOf(deques, h) <= LastOf(deques, host)
    ensures ByLast(order + [host], deques)
  {
    if order != [] {
      assert (order + [host])[1..] == order[1..] + [host];
      ByLastAppend(order[1..], host, deques);
      KeysAppend(order[1..], host);
    } else {
      assert (order + [host])[1..] == [];
    }
  }

  /** Recording an admitted attempt keeps the stored deques in step with the history. */
  lemma RecordAgrees(deques: map<string, seq<real>>, log: seq<Attempt>, now: real, perHost: nat, host: string,
                     h: string)
    requires Agrees(deques, log, now, perHost, h)
    requires Ascends(Recent(log, host, now), now) && |Recent(log, host, now)| < perHost
    ensures Agrees(deques[host := Recent(log, host, now) + [now]], log + [Attempt(host, now)], now, perHost, h)
  {
    RecentStep(log, Attempt(host, now), h, now);
    if h == host {
      var kept := Recent(log, host, now);
      AfterAgain(Times(log, h), now - WINDOW, now - WINDOW);
      AfterAppend(kept, now, now - WINDOW);
      AscendsAppend(kept, now);
    }
  }

  lemma MoveKeeps(order: seq<string>, deques: map<string, seq<real>>, host: string, times: seq<real>)
    requires Distinct(order) && ByLast(order, deques) && KeySet(order) == deques.Keys && times != []
    requires forall h :: h in KeySet(order) ==> LastOf(deques, h) <= times[|times| - 1]
    ensures var order', deques' := MoveToEnd(order, host), deques[host := times];
            && Distinct(order') && ByLast(order', deques') && KeySet(order') == deques'.Keys
            && |order'| == |order| + if host in deques then 0 else 1
  {
    var rest, deques' := Without(order, host), deques[host := times];
    WithoutKeys(order, host);
    WithoutByLast(order, host, deques);
    KeysAppend(rest, host);
    ByLastSame(rest, deques, deques');
    ByLastAppend(rest, host, deques');
  }

  lemma RecordKeeps(order: seq<string>, deques: map<string, seq<real>>, log: seq<Attempt>, now: real, perHost: nat,
                    host: string)
    requires Represents(order, deques, log, now, perHost)
    requires Ascends(Recent(log, host, now), now) && |Recent(log, host, now)| < perHost
    ensures Represents(MoveToEnd(order, host), deques[host := Recent(log, host, now) + [now]],
                       log + [Attempt(host, now)], now, perHost)
    ensures |MoveToEnd(order, host)| == |order| + if host in deques then 0 else 1
  {
    var times, after := Recent(log, host, now) + [now], log + [Attempt(host, now)];
    var deques' := deques[host := times];
    forall h | h in KeySet(order) ensures LastOf(deques, h) <= times[|times| - 1] {
      assert Agrees(deques, log, now, perHost, h);
    }
    MoveKeeps(order, deques, host, times);
    forall h ensures Agrees(deques', after, now, perHost, h) {
      assert Agrees(deques, log, now, perHost, h);
      RecordAgrees(deques, log, now, perHost, host, h);
    }
  }

  lemma TrimAgrees(deques: map<string, seq<real>>, log: seq<Attempt>, now: real, perHost: nat, host: string, h: string)
    requires host in deques && Agrees(deques, log, now, perHost, host) && Agrees(deques, log, now, perHost, h)
    requires LastOf(deques, host) > now - WINDOW
    ensures Agrees(deques[host := After(deques[host], now - WINDOW)], log, now, perHost, h)
  {
    AfterAgain(deques[host], now - WINDOW, now - WINDOW);
    AfterShort(deques[host], now - WINDOW);
    AfterKeepsLast(deques[host], now - WINDOW);
    AfterAscends(deques[host], now, now - WINDOW);
  }

  /** Trimming the deque of a stored host on the way to a refusal changes nothing that is recent. */
  lemma TrimKeeps(order: seq<string>, deques: map<string, seq<real>>, log: seq<Attempt>, now: real, perHost: nat,
                  host: string)
    requires Represents(order, deques, log, now, perHost) && host in deques && LastOf(deques, host) > now - WINDOW
    ensures Represents(order, deques[host := After(deques[host], now - WINDOW)], log, now, perHost)
  {
    var deques' := deques[host := After(deques[host], now - WINDOW)];
    assert Agrees(deques, log, now, perHost, host);
    forall h ensures Agrees(deques', log, now, perHost, h) {
      assert Agrees(deques, log, now, perHost, h);
      TrimAgrees(deques, log, now, perHost, host, h);
    }
    AfterKeepsLast(deques[host], now - WINDOW);
    ByLastSame(order, deques, deques');
    assert deques'.Keys == deques.Keys;
  }

  /** Inserting a new key and moving it to the end is moving it to the end; deleting it undoes it. */
  lemma {:induction false} MoveInserted(order: seq<string>, host: string)
    requires host !in KeySet(order)
    ensures Without(order + [host], host) == order == Without(order, host)
  {
    if order == [] {
      assert (order + [host])[1..] == [];
    } else {
      assert (order + [host])[1..] == order[1..] + [host];
      MoveInserted(order[1..], host);
    }
  }

  function Stored(order: seq<string>, deques: map<string, seq<real>>): nat {
    if order == [] then 0
    else Stored(order[1..], deques) + if order[0] in deques then |deques[order[0]]| else 0
  }

  /** At most clients x limit timestamps are ever stored. */
  lemma {:induction false} StorageIsBounded(order: seq<string>, deques: map<string, seq<real>>, perHost: nat,
                                            maxHosts: nat)
    requires |order| <= maxHosts
    requires forall h :: h in deques ==> |deques[h]| <= perHost
    ensures Stored(order, deques) <= maxHosts * perHost
  {
    if order != [] {
      StorageIsBounded(order[1..], deques, perHost, maxHosts - 1);
      assert maxHosts * perHost == (maxHosts - 1) * perHost + perHost;
    }
  }
}
