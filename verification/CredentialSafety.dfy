/** What every run of the credential transactions keeps, and what it can never do twice. */
module CredentialSafety {
  import opened Common
  import opened Credentials

  // ---------------------------------------------------------------- the invariant

  ghost predicate PairingOk(pairings: map<Token, Pairing>, tenants: set<Id>, t: Token) {
    t in pairings ==> pairings[t].tenant in tenants
  }

  /** One pending pairing per tenant. */
  ghost predicate PairingsApart(pairings: map<Token, Pairing>, t: Token, u: Token) {
    t in pairings && u in pairings && t != u ==> pairings[t].tenant != pairings[u].tenant
  }

  /** A device's credential is a dedicated key of the same tenant, revoked with the device. */
  ghost predicate DeviceOk(devices: map<Id, Device>, keys: map<Id, Key>, d: Id) {
    d in devices ==>
      var device := devices[d];
      && device.credential in keys
      && keys[device.credential].tenant == device.tenant && keys[device.credential].scopes == {PcConnect}
      && (device.revoked ==> keys[device.credential].revoked)
  }

  /** No shared credential, and no two unrevoked devices of one tenant. */
  ghost predicate DevicesApart(devices: map<Id, Device>, d: Id, e: Id) {
    d in devices && e in devices && d != e ==>
      && devices[d].credential != devices[e].credential
      && (devices[d].tenant == devices[e].tenant ==> devices[d].revoked || devices[e].revoked)
  }

  /** A ticket is of a key of its tenant that may use its audience. */
  ghost predicate TicketOk(tickets: map<Token, Ticket>, keys: map<Id, Key>, t: Token) {
    t in tickets ==>
      var ticket := tickets[t];
      && ticket.credential in keys && keys[ticket.credential].tenant == ticket.tenant
      && AudienceScope(ticket.audience) in keys[ticket.credential].scopes
  }

  ghost predicate QuotaOk(tickets: map<Token, Ticket>, limits: Limits, c: Id) {
    |OfCredential(tickets, c)| <= limits.maxPerCredential
  }

  ghost predicate PairingsOk(db: Db) {
    && |db.pairings| <= MAX_PENDING_PAIRINGS
    && (forall t {:trigger PairingOk(db.pairings, db.tenants, t)} :: PairingOk(db.pairings, db.tenants, t))
    && (forall t, u {:trigger PairingsApart(db.pairings, t, u)} :: PairingsApart(db.pairings, t, u))
  }

  ghost predicate DevicesOk(db: Db) {
    && (forall d {:trigger DeviceOk(db.devices, db.keys, d)} :: DeviceOk(db.devices, db.keys, d))
    && (forall d, e {:trigger DevicesApart(db.devices, d, e)} :: DevicesApart(db.devices, d, e))
  }

  ghost predicate TicketsOk(db: Db, limits: Limits) {
    && |db.tickets| <= limits.maxTickets
    && (forall t {:trigger TicketOk(db.tickets, db.keys, t)} :: TicketOk(db.tickets, db.keys, t))
    && (forall c {:trigger QuotaOk(db.tickets, limits, c)} :: QuotaOk(db.tickets, limits, c))
  }

  ghost predicate Inv(db: Db, limits: Limits) {
    PairingsOk(db) && DevicesOk(db) && TicketsOk(db, limits)
  }

  // ---------------------------------------------------------------- sizes

  lemma {:induction false} SubmapSmaller<K, V>(small: map<K, V>, big: map<K, V>)
    requires small.Keys <= big.Keys
    ensures |small| <= |big|
  {
    assert big.Keys == small.Keys + (big.Keys - small.Keys);
    assert |small.Keys| == |small| && |big.Keys| == |big|;
  }

  lemma UpdateSize<K, V>(m: map<K, V>, k: K, v: V)
    ensures |m[k := v]| <= |m| + 1
  {
    assert m[k := v].Keys == m.Keys + {k};
    assert |m[k := v].Keys| == |m[k := v]| && |m.Keys| == |m|;
  }

  // ---------------------------------------------------------------- every transaction keeps it

  lemma IssuePairingKeeps(db: Db, limits: Limits, tenant: Id, token: Token, now: real)
    requires Inv(db, limits)
    ensures Inv(IssuePairingTx(db, tenant, token, now).0, limits)
  {
    var db' := IssuePairingTx(db, tenant, token, now).0;
    if db' != db {
      var live := Unexpired(db.pairings, now);
      var others := WithoutTenant(live, tenant);
      SubmapSmaller(others, live);
      UpdateSize(others, token, Pairing(tenant, now + PAIRING_TTL));
      forall t ensures PairingOk(db'.pairings, db'.tenants, t) { assert PairingOk(db.pairings, db.tenants, t); }
      forall t, u ensures PairingsApart(db'.pairings, t, u) { assert PairingsApart(db.pairings, t, u); }
    }
  }

  /** Revoking a tenant's devices leaves it with none unrevoked. */
  lemma RevokeTenantKeeps(db: Db, limits: Limits, tenant: Id)
    requires Inv(db, limits)
    ensures Inv(RevokeTenant(db, tenant), limits)
    ensures forall d :: d in db.devices && db.devices[d].tenant == tenant ==>
              var revoked := RevokeTenant(db, tenant);
              && revoked.devices[d].revoked
              && db.devices[d].credential in revoked.keys && revoked.keys[db.devices[d].credential].revoked
  {
    var db' := RevokeTenant(db, tenant);
    forall d ensures DeviceOk(db'.devices, db'.keys, d) { assert DeviceOk(db.devices, db.keys, d); }
    forall d, e ensures DevicesApart(db'.devices, d, e) { assert DevicesApart(db.devices, d, e); }
    forall t ensures TicketOk(db'.tickets, db'.keys, t) { assert TicketOk(db.tickets, db.keys, t); }
    forall d | d in db.devices && db.devices[d].tenant == tenant
      ensures db'.devices[d].revoked
      ensures db.devices[d].credential in db'.keys && db'.keys[db.devices[d].credential].revoked
    {
      assert DeviceOk(db'.devices, db'.keys, d);
    }
  }

  lemma RemovePairingKeeps(db: Db, limits: Limits, pairings: map<Token, Pairing>)
    requires Inv(db, limits)
    requires forall t :: t in pairings ==> t in db.pairings && pairings[t] == db.pairings[t]
    ensures Inv(db.(pairings := pairings), limits)
  {
    SubmapSmaller(pairings, db.pairings);
    var db' := db.(pairings := pairings);
    forall t ensures PairingOk(db'.pairings, db'.tenants, t) { assert PairingOk(db.pairings, db.tenants, t); }
    forall t, u ensures PairingsApart(db'.pairings, t, u) { assert PairingsApart(db.pairings, t, u); }
  }

  /** Enrolling a device of a tenant that has no unrevoked one. */
  lemma EnrollKeeps(db: Db, limits: Limits, tenant: Id, device: Id, credential: Id)
    requires Inv(db, limits) && credential !in db.keys && device !in db.devices
    requires forall d :: d in db.devices && db.devices[d].tenant == tenant ==> db.devices[d].revoked
    ensures Inv(db.(keys := db.keys[credential := Key(tenant, {PcConnect}, false)],
                    devices := db.devices[device := Device(tenant, credential, false)]), limits)
  {
    var db' := db.(keys := db.keys[credential := Key(tenant, {PcConnect}, false)],
                   devices := db.devices[device := Device(tenant, credential, false)]);
    forall d ensures DeviceOk(db'.devices, db'.keys, d) { assert DeviceOk(db.devices, db.keys, d); }
    forall d, e ensures DevicesApart(db'.devices, d, e) {
      assert DevicesApart(db.devices, d, e) && DeviceOk(db.devices, db.keys, d) && DeviceOk(db.devices, db.keys, e);
    }
    forall t ensures TicketOk(db'.tickets, db'.keys, t) { assert TicketOk(db.tickets, db.keys, t); }
  }

  lemma RedeemKeeps(db: Db, limits: Limits, token: Token, device: Id, credential: Id, now: real)
    requires Inv(db, limits)
    ensures Inv(RedeemTx(db, token, device, credential, now).0, limits)
  {
    var (db', outcome) := RedeemTx(db, token, device, credential, now);
    if outcome.Enrolled? {
      var tenant := db.pairings[token].tenant;
      var paid := db.(pairings := db.pairings - {token});
      RemovePairingKeeps(db, limits, db.pairings - {token});
      RevokeTenantKeeps(paid, limits, tenant);
      EnrollKeeps(RevokeTenant(paid, tenant), limits, tenant, device, credential);
    }
  }

  lemma RevokeKeeps(db: Db, limits: Limits, tenant: Id)
    requires Inv(db, limits)
    ensures Inv(RevokeTx(db, tenant).0, limits)
  {
    RevokeTenantKeeps(db, limits, tenant);
    RemovePairingKeeps(RevokeTenant(db, tenant), limits, WithoutTenant(db.pairings, tenant));
  }

  lemma KeyChangeKeeps(db: Db, limits: Limits, credential: Id, key: Key, tenants: set<Id>)
    requires Inv(db, limits) && db.tenants <= tenants
    requires credential in db.keys ==> key == db.keys[credential].(revoked := true)
    ensures Inv(db.(keys := db.keys[credential := key], tenants := tenants), limits)
  {
    var db' := db.(keys := db.keys[credential := key], tenants := tenants);
    forall t ensures PairingOk(db'.pairings, db'.tenants, t) { assert PairingOk(db.pairings, db.tenants, t); }
    forall d ensures DeviceOk(db'.devices, db'.keys, d) { assert DeviceOk(db.devices, db.keys, d); }
    forall t ensures TicketOk(db'.tickets, db'.keys, t) { assert TicketOk(db.tickets, db.keys, t); }
  }

  lemma FewerTicketsKeep(db: Db, limits: Limits, tickets: map<Token, Ticket>)
    requires Inv(db, limits)
    requires forall t :: t in tickets ==> t in db.tickets && tickets[t] == db.tickets[t]
    ensures Inv(db.(tickets := tickets), limits)
  {
    SubmapSmaller(tickets, db.tickets);
    forall t ensures TicketOk(tickets, db.keys, t) { assert TicketOk(db.tickets, db.keys, t); }
    forall c ensures QuotaOk(tickets, limits, c) {
      assert QuotaOk(db.tickets, limits, c);
      SubsetSmaller(OfCredential(tickets, c), OfCredential(db.tickets, c));
    }
  }

  lemma OfCredentialAdded(tickets: map<Token, Ticket>, token: Token, ticket: Ticket, c: Id)
    requires token !in tickets
    ensures |OfCredential(tickets[token := ticket], c)|
         == |OfCredential(tickets, c)| + if c == ticket.credential then 1 else 0
  {
    var after := OfCredential(tickets[token := ticket], c);
    if c == ticket.credential {
      assert after == OfCredential(tickets, c) + {token};
    } else {
      assert after == OfCredential(tickets, c);
    }
  }

  lemma IssueTicketKeeps(db: Db, limits: Limits, p: Principal, audience: Audience, token: Token, now: real)
    requires Inv(db, limits)
    ensures Inv(IssueTicketTx(db, limits, p, audience, token, now).0, limits)
  {
    var (db', outcome) := IssueTicketTx(db, limits, p, audience, token, now);
    if outcome.Done? {
      var live := UnexpiredTickets(db.tickets, now);
      FewerTicketsKeep(db, limits, live);
      var ticket := Ticket(p.credential, p.tenant, audience, now + limits.ticketTtl);
      UpdateSize(live, token, ticket);
      forall t ensures TicketOk(db'.tickets, db'.keys, t) { assert TicketOk(live, db.keys, t); }
      forall c ensures QuotaOk(db'.tickets, limits, c) {
        assert QuotaOk(live, limits, c);
        OfCredentialAdded(live, token, ticket, c);
      }
    }
  }

  lemma ApplyKeeps(db: Db, limits: Limits, op: Op)
    requires Inv(db, limits)
    ensures Inv(Apply(db, limits, op).0, limits)
  {
    match op
    case Provision(tenant, credential, scopes) =>
      if credential !in db.keys {
        KeyChangeKeeps(db, limits, credential, Key(tenant, scopes, false), db.tenants + {tenant});
      }
    case RevokeKey(credential) =>
      if credential in db.keys {
        KeyChangeKeeps(db, limits, credential, db.keys[credential].(revoked := true), db.tenants);
      }
    case IssuePairing(tenant, token, now) => IssuePairingKeeps(db, limits, tenant, token, now);
    case Redeem(token, device, credential, now) => RedeemKeeps(db, limits, token, device, credential, now);
    case Revoke(tenant) => RevokeKeeps(db, limits, tenant);
    case IssueTicket(p, audience, token, now) => IssueTicketKeeps(db, limits, p, audience, token, now);
    case Consume(token, _, _) => FewerTicketsKeep(db, limits, db.tickets - {token});
  }

  /** Every serialised run: one unrevoked device per tenant, revoked devices have revoked credentials,
      one pending pairing per tenant, and no quota is ever exceeded. */
  lemma {:induction false} EveryRunKeepsInvariant(db: Db, limits: Limits, ops: seq<Op>)
    requires Inv(db, limits)
    ensures Inv(Run(db, limits, ops), limits)
  {
    if ops != [] {
      EveryRunKeepsInvariant(db, limits, ops[..|ops| - 1]);
      ApplyKeeps(Run(db, limits, ops[..|ops| - 1]), limits, ops[|ops| - 1]);
    }
  }

  lemma EmptyOk(limits: Limits)
    ensures Inv(EMPTY, limits)
  {
    forall c ensures QuotaOk(EMPTY.tickets, limits, c) { assert OfCredential(EMPTY.tickets, c) == {}; }
  }

  /** A tenant never has two devices that pass require_active. */
  lemma OneActiveDevice(limits: Limits, ops: seq<Op>, tenant: Id, d: Id, c: Id, e: Id, c': Id)
    requires var db := Run(EMPTY, limits, ops); RequireActive(db, d, tenant, c) && RequireActive(db, e, tenant, c')
    ensures d == e && c == c'
  {
    EmptyOk(limits);
    EveryRunKeepsInvariant(EMPTY, limits, ops);
    assert DevicesApart(Run(EMPTY, limits, ops).devices, d, e);
  }

  // ---------------------------------------------------------------- failures

  /** A refused or empty-handed operation changes nothing - not even the expired rows it swept. */
  lemma FailureChangesNothing(db: Db, limits: Limits, op: Op)
    requires Inv(db, limits)
    requires Apply(db, limits, op).1.Refused? || Apply(db, limits, op).1 == Nothing
    ensures Apply(db, limits, op).0 == db
  {
    if op.Consume? { assert TicketOk(db.tickets, db.keys, op.token); }
  }

  /** Spending a ticket never ends in a late scope refusal: what was checked at issue still holds. */
  lemma ConsumeIsNeverRefused(db: Db, limits: Limits, token: Token, audience: Audience, now: real)
    requires Inv(db, limits)
    ensures !ConsumeTx(db, token, audience, now).1.Refused?
  {
    assert TicketOk(db.tickets, db.keys, token);
  }

  // ---------------------------------------------------------------- what is final

  /** Keys and devices are never forgotten or changed, except from unrevoked to revoked. */
  ghost predicate KeyLater(a: map<Id, Key>, b: map<Id, Key>, c: Id) {
    c in a ==> c in b && (b[c] == a[c] || b[c] == a[c].(revoked := true))
  }

  ghost predicate DeviceLater(a: map<Id, Device>, b: map<Id, Device>, d: Id) {
    d in a ==> d in b && (b[d] == a[d] || b[d] == a[d].(revoked := true))
  }

  ghost predicate Later(a: Db, b: Db) {
    && (forall c {:trigger KeyLater(a.keys, b.keys, c)} :: KeyLater(a.keys, b.keys, c))
    && (forall d {:trigger DeviceLater(a.devices, b.devices, d)} :: DeviceLater(a.devices, b.devices, d))
  }

  lemma ApplyIsLater(db: Db, limits: Limits, op: Op)
    ensures Later(db, Apply(db, limits, op).0)
  {
    var db' := Apply(db, limits, op).0;
    forall c ensures KeyLater(db.keys, db'.keys, c) { }
    forall d ensures DeviceLater(db.devices, db'.devices, d) { }
  }

  lemma {:induction false} HistoryOnlyRevokes(db: Db, limits: Limits, ops: seq<Op>)
    ensures Later(db, Run(db, limits, ops))
  {
    if ops == [] {
      forall c ensures KeyLater(db.keys, db.keys, c) { }
      forall d ensures DeviceLater(db.devices, db.devices, d) { }
    } else {
      var mid, end := Run(db, limits, ops[..|ops| - 1]), Run(db, limits, ops);
      HistoryOnlyRevokes(db, limits, ops[..|ops| - 1]);
      ApplyIsLater(mid, limits, ops[|ops| - 1]);
      forall c ensures KeyLater(db.keys, end.keys, c) {
        assert KeyLater(db.keys, mid.keys, c) && KeyLater(mid.keys, end.keys, c);
      }
      forall d ensures DeviceLater(db.devices, end.devices, d) {
        assert DeviceLater(db.devices, mid.devices, d) && DeviceLater(mid.devices, end.devices, d);
      }
    }
  }

  /** A binding that was replaced or revoked fails require_active for ever, whatever happens next. */
  lemma RevokedForEver(db: Db, limits: Limits, ops: seq<Op>, device: Id, tenant: Id, credential: Id)
    requires device in db.devices && db.devices[device].revoked
    ensures !RequireActive(Run(db, limits, ops), device, tenant, credential)
  {
    HistoryOnlyRevokes(db, limits, ops);
    assert DeviceLater(db.devices, Run(db, limits, ops).devices, device);
  }

  /** Redemption: the new device is active at once and binds with its own credential only, every earlier
      device of the tenant is out for good, and its key with it; other tenants' devices are untouched. */
  lemma RedemptionReplaces(db: Db, limits: Limits, token: Token, device: Id, credential: Id, now: real, ops: seq<Op>)
    requires Inv(db, limits) && RedeemTx(db, token, device, credential, now).1.Enrolled?
    ensures var db' := RedeemTx(db, token, device, credential, now).0;
            var tenant := db.pairings[token].tenant;
            && Binds(db', Principal(tenant, credential, {PcConnect}), device)
            && (forall d, c :: d in db.devices && db.devices[d].tenant == tenant ==>
                  !RequireActive(Run(db', limits, ops), d, tenant, c))
            && (forall d :: d in db.devices && db.devices[d].tenant == tenant ==>
                  db.devices[d].credential in db'.keys && db'.keys[db.devices[d].credential].revoked)
            && (forall d :: d in db.devices && db.devices[d].tenant != tenant ==>
                  d in db'.devices && db'.devices[d] == db.devices[d])
  {
    var db' := RedeemTx(db, token, device, credential, now).0;
    var tenant := db.pairings[token].tenant;
    var paid := db.(pairings := db.pairings - {token});
    RemovePairingKeeps(db, limits, db.pairings - {token});
    RevokeTenantKeeps(paid, limits, tenant);
    forall d, c | d in db.devices && db.devices[d].tenant == tenant
      ensures !RequireActive(Run(db', limits, ops), d, tenant, c)
    {
      RevokedForEver(db', limits, ops, d, tenant, c);
    }
    forall d | d in db.devices && db.devices[d].tenant == tenant
      ensures db.devices[d].credential in db'.keys && db'.keys[db.devices[d].credential].revoked
    {
      assert DeviceOk(db.devices, db.keys, d);
    }
  }

  /** No ticket of a revoked credential is ever honoured again, in any continuation. */
  lemma RevokedKeyAdmitsNoOne(db: Db, limits: Limits, ops: seq<Op>, token: Token, audience: Audience, now: real,
                              credential: Id)
    requires credential in db.keys && db.keys[credential].revoked
    ensures var outcome := ConsumeTx(Run(db, limits, ops), token, audience, now).1;
            outcome.Admitted? ==> outcome.principal.credential != credential
  {
    HistoryOnlyRevokes(db, limits, ops);
    assert KeyLater(db.keys, Run(db, limits, ops).keys, credential);
  }

  /** Revoking a key ends, in every continuation, the tickets issued to it and the device bound with it. */
  lemma RevokingAKeyIsFinal(db: Db, limits: Limits, credential: Id, ops: seq<Op>, token: Token, audience: Audience,
                            now: real, device: Id, tenant: Id)
    requires credential in db.keys
    ensures var after := Run(Apply(db, limits, RevokeKey(credential)).0, limits, ops);
            && !RequireActive(after, device, tenant, credential)
            && var outcome := Apply(after, limits, Consume(token, audience, now)).1;
               outcome.Admitted? ==> outcome.principal.credential != credential
  {
    var revoked := Apply(db, limits, RevokeKey(credential)).0;
    RevokedKeyAdmitsNoOne(revoked, limits, ops, token, audience, now, credential);
    HistoryOnlyRevokes(revoked, limits, ops);
    assert KeyLater(revoked.keys, Run(revoked, limits, ops).keys, credential);
  }

  /** Issuing a second token for a tenant ends the first. */
  lemma LatestTokenOnly(db: Db, limits: Limits, tenant: Id, token: Token, now: real, earlier: Token)
    requires Inv(db, limits) && IssuePairingTx(db, tenant, token, now).1.Done?
    requires earlier in db.pairings && db.pairings[earlier].tenant == tenant && earlier != token
    ensures var db' := IssuePairingTx(db, tenant, token, now).0;
            forall device, credential, later ::
                    RedeemTx(db', earlier, device, credential, later) == (db', Refused(InvalidToken))
  {
  }

  // ---------------------------------------------------------------- at most one pay-out

  function Issued(db: Db, limits: Limits, ops: seq<Op>, token: Token): nat {
    if ops == [] then 0
    else
      var init, last := ops[..|ops| - 1], ops[|ops| - 1];
      Issued(db, limits, init, token)
      + if last.IssuePairing? && last.token == token && Apply(Run(db, limits, init), limits, last).1.Done? then 1 else 0
  }

  function Redeemed(db: Db, limits: Limits, ops: seq<Op>, token: Token): nat {
    if ops == [] then 0
    else
      var init, last := ops[..|ops| - 1], ops[|ops| - 1];
      Redeemed(db, limits, init, token)
      + if last.Redeem? && last.token == token && Apply(Run(db, limits, init), limits, last).1.Enrolled? then 1 else 0
  }

  /** A pairing token pays out at most once for each time it was issued - so, being fresh, once. */
  lemma {:induction false} PairingPaysAtMostOnce(db: Db, limits: Limits, ops: seq<Op>, token: Token)
    requires token !in db.pairings
    ensures Redeemed(db, limits, ops, token) + (if token in Run(db, limits, ops).pairings then 1 else 0)
         <= Issued(db, limits, ops, token)
  {
    if ops != [] {
      var init, last := ops[..|ops| - 1], ops[|ops| - 1];
      PairingPaysAtMostOnce(db, limits, init, token);
      PairingStep(Run(db, limits, init), limits, last, token);
    }
  }

  lemma PairingStep(db: Db, limits: Limits, op: Op, token: Token)
    ensures var (db', outcome) := Apply(db, limits, op);
            && (op.Redeem? && op.token == token && outcome.Enrolled? ==> token in db.pairings && token !in db'.pairings)
            && (token in db'.pairings && token !in db.pairings ==>
                    op.IssuePairing? && op.token == token && outcome.Done?)
  {
  }

  function TicketsIssued(db: Db, limits: Limits, ops: seq<Op>, token: Token): nat {
    if ops == [] then 0
    else
      var init, last := ops[..|ops| - 1], ops[|ops| - 1];
      TicketsIssued(db, limits, init, token)
      + if last.IssueTicket? && last.token == token && Apply(Run(db, limits, init), limits, last).1.Done? then 1 else 0
  }

  function TicketsHonoured(db: Db, limits: Limits, ops: seq<Op>, token: Token): nat {
    if ops == [] then 0
    else
      var init, last := ops[..|ops| - 1], ops[|ops| - 1];
      TicketsHonoured(db, limits, init, token)
      + if last.Consume? && last.token == token && Apply(Run(db, limits, init), limits, last).1.Admitted? then 1 else 0
  }

  /** The same for socket tickets, whichever audience or moment they are presented for. */
  lemma {:induction false} TicketPaysAtMostOnce(db: Db, limits: Limits, ops: seq<Op>, token: Token)
    requires token !in db.tickets
    ensures TicketsHonoured(db, limits, ops, token) + (if token in Run(db, limits, ops).tickets then 1 else 0)
         <= TicketsIssued(db, limits, ops, token)
  {
    if ops != [] {
      var init, last := ops[..|ops| - 1], ops[|ops| - 1];
      TicketPaysAtMostOnce(db, limits, init, token);
      TicketStep(Run(db, limits, init), limits, last, token);
    }
  }

  lemma TicketStep(db: Db, limits: Limits, op: Op, token: Token)
    ensures var (db', outcome) := Apply(db, limits, op);
            && (op.Consume? && op.token == token && outcome.Admitted? ==> token in db.tickets && token !in db'.tickets)
            && (token in db'.tickets && token !in db.tickets ==> op.IssueTicket? && op.token == token && outcome.Done?)
  {
  }
}
