/**
 The credential tables and the transactions over them: device enrollment
 (services/auth/devices.py), WebSocket tickets (services/auth/tickets.py), and the key provisioning
 and revocation they meet (services/auth/api_keys.py).

 Each transaction is one function from the tables to the tables and what the caller gets. Secrets are
 stored only as hashes; a secret and its hash are one value here, so that two secrets with one hash do
 not exist. Fresh identifiers and secrets are arguments, and the unique constraints are checked.
 */
module Credentials {

  type Id = nat
  type Token = string

  datatype Scope = PcConnect | ChatUse | OtherScope(name: nat)
  datatype Audience = Chat | PcAgent

  const MAX_PENDING_PAIRINGS: nat := 4096
  const PAIRING_TTL: real := 120.0

  datatype Key = Key(tenant: Id, scopes: set<Scope>, revoked: bool)
  datatype Device = Device(tenant: Id, credential: Id, revoked: bool)
  datatype Pairing = Pairing(tenant: Id, expires: real)
  datatype Ticket = Ticket(credential: Id, tenant: Id, audience: Audience, expires: real)

  datatype Principal = Principal(tenant: Id, credential: Id, scopes: set<Scope>)

  datatype Limits = Limits(maxTickets: nat, maxPerCredential: nat, ticketTtl: real)

  datatype Db = Db(
    tenants: set<Id>, keys: map<Id, Key>, devices: map<Id, Device>,
    pairings: map<Token, Pairing>, tickets: map<Token, Ticket>)

  datatype Reason = NoTenant | Capacity | InvalidToken | Inactive | NotPermitted | Conflict

  datatype Outcome =
    Done | Nothing | Enrolled(device: Id, credential: Id) | Admitted(principal: Principal) | Refused(reason: Reason)

  datatype Op =
    | Provision(tenant: Id, credential: Id, scopes: set<Scope>)
    | RevokeKey(credential: Id)
    | IssuePairing(tenant: Id, token: Token, now: real)
    | Redeem(token: Token, device: Id, credential: Id, now: real)
    | Revoke(tenant: Id)
    | IssueTicket(principal: Principal, audience: Audience, token: Token, now: real)
    | Consume(token: Token, audience: Audience, now: real)

  function AudienceScope(a: Audience): Scope {
    match a case Chat => ChatUse case PcAgent => PcConnect
  }

  predicate PlausibleToken(token: Token) {
    32 <= |token| <= 128
  }

  function Unexpired(pairings: map<Token, Pairing>, now: real): map<Token, Pairing> {
    map t | t in pairings && pairings[t].expires > now :: pairings[t]
  }

  function UnexpiredTickets(tickets: map<Token, Ticket>, now: real): map<Token, Ticket> {
    map t | t in tickets && tickets[t].expires > now :: tickets[t]
  }

  function OfCredential(tickets: map<Token, Ticket>, credential: Id): set<Token> {
    set t | t in tickets && tickets[t].credential == credential
  }

  function WithoutTenant(pairings: map<Token, Pairing>, tenant: Id): map<Token, Pairing> {
    map t | t in pairings && pairings[t].tenant != tenant :: pairings[t]
  }

  /** The credentials of a tenant's unrevoked devices. */
  function BoundCredentials(devices: map<Id, Device>, tenant: Id): set<Id> {
    set d | d in devices && devices[d].tenant == tenant && !devices[d].revoked :: devices[d].credential
  }

  function RevokeKeys(keys: map<Id, Key>, credentials: set<Id>): map<Id, Key> {
    map c | c in keys :: if c in credentials then keys[c].(revoked := true) else keys[c]
  }

  function RevokeDevices(devices: map<Id, Device>, tenant: Id): map<Id, Device> {
    map d | d in devices :: if devices[d].tenant == tenant then devices[d].(revoked := true) else devices[d]
  }

  /** Revokes a tenant's unrevoked devices and, first, their credentials. */
  function RevokeTenant(db: Db, tenant: Id): Db {
    db.(keys := RevokeKeys(db.keys, BoundCredentials(db.devices, tenant)), devices := RevokeDevices(db.devices, tenant))
  }

  function ProvisionTx(db: Db, tenant: Id, credential: Id, scopes: set<Scope>): (Db, Outcome) {
    if credential in db.keys then (db, Refused(Conflict))
    else (db.(tenants := db.tenants + {tenant}, keys := db.keys[credential := Key(tenant, scopes, false)]), Done)
  }

  function RevokeKeyTx(db: Db, credential: Id): (Db, Outcome) {
    if credential in db.keys && !db.keys[credential].revoked
    then (db.(keys := db.keys[credential := db.keys[credential].(revoked := true)]), Done)
    else (db, Nothing)
  }

  /** The capacity check comes before the upsert, so at capacity even a replacement is refused. */
  function IssuePairingTx(db: Db, tenant: Id, token: Token, now: real): (Db, Outcome) {
    var live := Unexpired(db.pairings, now);
    if tenant !in db.tenants then (db, Refused(NoTenant))
    else if |live| >= MAX_PENDING_PAIRINGS then (db, Refused(Capacity))
    else if token in live && live[token].tenant != tenant then (db, Refused(Conflict))
    else (db.(pairings := WithoutTenant(live, tenant)[token := Pairing(tenant, now + PAIRING_TTL)]), Done)
  }

  function RedeemTx(db: Db, token: Token, device: Id, credential: Id, now: real): (Db, Outcome) {
    if !PlausibleToken(token) || token !in db.pairings || db.pairings[token].expires <= now then
      (db, Refused(InvalidToken))
    else
      var tenant := db.pairings[token].tenant;
      var revoked := RevokeTenant(db.(pairings := db.pairings - {token}), tenant);
      if credential in db.keys || device in db.devices then (db, Refused(Conflict))
      else
        (revoked.(keys := revoked.keys[credential := Key(tenant, {PcConnect}, false)],
                  devices := revoked.devices[device := Device(tenant, credential, false)]),
         Enrolled(device, credential))
  }

  function RevokeTx(db: Db, tenant: Id): (Db, Outcome) {
    if tenant !in db.tenants then (db, Refused(NoTenant))
    else
      var revoked := RevokeTenant(db, tenant);
      (revoked.(pairings := WithoutTenant(db.pairings, tenant)), Done)
  }

  /** The stored credential, when it is still active and of the tenant that is claimed. */
  predicate ActiveKey(db: Db, tenant: Id, credential: Id) {
    credential in db.keys && db.keys[credential].tenant == tenant && !db.keys[credential].revoked
  }

  function IssueTicketTx(db: Db, limits: Limits, p: Principal, audience: Audience, token: Token, now: real)
    : (Db, Outcome)
  {
    var live := UnexpiredTickets(db.tickets, now);
    if AudienceScope(audience) !in p.scopes then (db, Refused(NotPermitted))
    else if !ActiveKey(db, p.tenant, p.credential) then (db, Refused(Inactive))
    else if AudienceScope(audience) !in db.keys[p.credential].scopes then (db, Refused(NotPermitted))
    else if |live| >= limits.maxTickets || |OfCredential(live, p.credential)| >= limits.maxPerCredential then
      (db, Refused(Capacity))
    else if token in live then (db, Refused(Conflict))
    else (db.(tickets := live[token := Ticket(p.credential, p.tenant, audience, now + limits.ticketTtl)]), Done)
  }

  /** The delete is committed before the current scopes are checked. */
  function ConsumeTx(db: Db, token: Token, audience: Audience, now: real): (Db, Outcome) {
    if !PlausibleToken(token) || token !in db.tickets then (db, Nothing)
    else
      var t := db.tickets[token];
      if t.audience != audience || t.expires <= now || !ActiveKey(db, t.tenant, t.credential) then (db, Nothing)
      else
        var scopes := db.keys[t.credential].scopes;
        (db.(tickets := db.tickets - {token}),
         if AudienceScope(audience) in scopes then Admitted(Principal(t.tenant, t.credential, scopes))
         else Refused(NotPermitted))
  }

  function Apply(db: Db, limits: Limits, op: Op): (Db, Outcome) {
    match op
    case Provision(tenant, credential, scopes) => ProvisionTx(db, tenant, credential, scopes)
    case RevokeKey(credential) => RevokeKeyTx(db, credential)
    case IssuePairing(tenant, token, now) => IssuePairingTx(db, tenant, token, now)
    case Redeem(token, device, credential, now) => RedeemTx(db, token, device, credential, now)
    case Revoke(tenant) => RevokeTx(db, tenant)
    case IssueTicket(p, audience, token, now) => IssueTicketTx(db, limits, p, audience, token, now)
    case Consume(token, audience, now) => ConsumeTx(db, token, audience, now)
  }

  function Run(db: Db, limits: Limits, ops: seq<Op>): Db {
    if ops == [] then db else Apply(Run(db, limits, ops[..|ops| - 1]), limits, ops[|ops| - 1]).0
  }

  /** What require_active asks of a device claimed by id, tenant and credential. */
  predicate RequireActive(db: Db, device: Id, tenant: Id, credential: Id) {
    && device in db.devices && db.devices[device] == Device(tenant, credential, false)
    && ActiveKey(db, tenant, credential) && db.keys[credential].scopes == {PcConnect}
  }

  /** bind: only a dedicated device credential, and only to its own active device. */
  predicate Binds(db: Db, p: Principal, device: Id) {
    p.scopes == {PcConnect} && RequireActive(db, device, p.tenant, p.credential)
  }

  const EMPTY: Db := Db({}, map[], map[], map[], map[])
}
