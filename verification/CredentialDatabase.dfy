/**
 The methods of DeviceRegistry (services/auth/devices.py) and PostgresTicketStore
 (services/auth/tickets.py), statement by statement over shared tables. A transaction works on its own
 copies and stores them when it commits; leaving early is the rollback.
 */
module CredentialDatabase {
  import opened Credentials

  class Tables {
    const limits: Limits
    var tenants: set<Id>
    var keys: map<Id, Key>
    var devices: map<Id, Device>
    var pairings: map<Token, Pairing>
    var tickets: map<Token, Ticket>

    function View(): Db
      reads this
    {
      Db(tenants, keys, devices, pairings, tickets)
    }

    constructor (limits: Limits)
      ensures View() == EMPTY && this.limits == limits
    {
      this.limits := limits;
      tenants, keys, devices, pairings, tickets := {}, map[], map[], map[], map[];
    }

    method IssuePairing(tenant: Id, token: Token, now: real) returns (r: Outcome)
      modifies this
      ensures (View(), r) == Apply(old(View()), limits, Op.IssuePairing(tenant, token, now))
      ensures r.Done? ==> forall t :: t in pairings && pairings[t].tenant == tenant <==> t == token
      ensures !r.Done? ==> View() == old(View())
      ensures r == Refused(NoTenant) <==> tenant !in old(tenants)
      ensures r == Refused(Capacity) <==>
        tenant in old(tenants) && |set t | t in old(pairings) && now < old(pairings)[t].expires| >= 4096
      ensures r.Done? <==>
        && tenant in old(tenants) && |set t | t in old(pairings) && now < old(pairings)[t].expires| < 4096
        && (token in old(pairings) && now < old(pairings)[token].expires ==> old(pairings)[token].tenant == tenant)
      ensures r.Done? ==>
        && View() == old(View()).(pairings := pairings) && token in pairings
        && pairings[token] == Pairing(tenant, now + 120.0)
        && (forall t :: t in pairings && t != token <==>
              t != token && t in old(pairings) && old(pairings)[t].tenant != tenant && now < old(pairings)[t].expires)
        && (forall t :: t in pairings && t != token ==> pairings[t] == old(pairings)[t])
    {
      if tenant !in tenants {
        return Refused(NoTenant);
      }
      var rows := map t | t in pairings && !(pairings[t].expires <= now) :: pairings[t];
      assert rows == Unexpired(pairings, now);
      assert rows.Keys == set t | t in pairings && now < pairings[t].expires;
      if |rows| >= MAX_PENDING_PAIRINGS {
        return Refused(Capacity);
      }
      if token in rows && rows[token].tenant != tenant {
        return Refused(Conflict);
      }
      pairings := WithoutTenant(rows, tenant)[token := Pairing(tenant, now + PAIRING_TTL)];
      return Done;
    }

    /** The revocation shared by redeem and revoke: keys by way of the devices, then the devices. */
    method RevokedTables(tenant: Id, keys: map<Id, Key>, devices: map<Id, Device>)
      returns (keys': map<Id, Key>, devices': map<Id, Device>)
      ensures keys' == RevokeKeys(keys, BoundCredentials(devices, tenant))
      ensures devices' == RevokeDevices(devices, tenant)
      ensures keys'.Keys == keys.Keys && devices'.Keys == devices.Keys
      ensures forall d :: d in devices ==>
        devices'[d] == devices[d].(revoked := devices[d].revoked || devices[d].tenant == tenant)
      ensures forall c :: c in keys ==>
        keys'[c] == keys[c].(revoked := keys[c].revoked || exists d :: d in devices && devices[d].credential == c
                                                             && devices[d].tenant == tenant && !devices[d].revoked)
    {
      keys' := map c | c in keys ::
        if !keys[c].revoked && c in BoundCredentials(devices, tenant) then keys[c].(revoked := true) else keys[c];
      devices' := map d | d in devices ::
        if devices[d].tenant == tenant && !devices[d].revoked then devices[d].(revoked := true) else devices[d];
    }

    method Redeem(token: Token, device: Id, credential: Id, now: real) returns (r: Outcome)
      modifies this
      ensures (View(), r) == Apply(old(View()), limits, Op.Redeem(token, device, credential, now))
      ensures r.Enrolled? ==>
        && token in old(pairings) && token !in pairings
        && var tenant := old(pairings)[token].tenant;
           && RequireActive(View(), device, tenant, credential)
           && forall d :: d in devices && devices[d].tenant == tenant && !devices[d].revoked ==> d == device
      ensures !r.Enrolled? ==> View() == old(View())
      ensures r.Enrolled? <==>
        && 32 <= |token| <= 128 && token in old(pairings) && now < old(pairings)[token].expires
        && credential !in old(keys) && device !in old(devices)
      ensures r == Refused(InvalidToken) <==>
        !(32 <= |token| <= 128 && token in old(pairings) && now < old(pairings)[token].expires)
      ensures r in {Enrolled(device, credential), Refused(InvalidToken), Refused(Conflict)}
      ensures r.Enrolled? ==>
        var tenant := old(pairings)[token].tenant;
        && pairings == old(pairings) - {token} && tenants == old(tenants) && tickets == old(tickets)
        && keys.Keys == old(keys).Keys + {credential} && devices.Keys == old(devices).Keys + {device}
        && keys[credential] == Key(tenant, {PcConnect}, false)
        && devices[device] == Device(tenant, credential, false)
        && (forall d :: d in old(devices) ==>
              devices[d] == old(devices)[d].(revoked := old(devices)[d].revoked || old(devices)[d].tenant == tenant))
        && (forall c :: c in old(keys) ==>
              keys[c] == old(keys)[c].(revoked := old(keys)[c].revoked ||
                exists d :: d in old(devices) && old(devices)[d].credential == c
                  && old(devices)[d].tenant == tenant && !old(devices)[d].revoked))
    {
      if !PlausibleToken(token) {
        return Refused(InvalidToken);
      }
      if token !in pairings {
        return Refused(InvalidToken);
      }
      var tenant := pairings[token].tenant;
      if !(pairings[token].expires > now) {
        return Refused(InvalidToken);
      }
      var rows := pairings - {token};
      var keyRows, deviceRows := RevokedTables(tenant, keys, devices);
      assert keyRows.Keys == keys.Keys && deviceRows.Keys == devices.Keys;
      if credential in keyRows || device in deviceRows {
        return Refused(Conflict);
      }
      keyRows := keyRows[credential := Key(tenant, {PcConnect}, false)];
      deviceRows := deviceRows[device := Device(tenant, credential, false)];
      pairings, keys, devices := rows, keyRows, deviceRows;
      return Enrolled(device, credential);
    }

    method Revoke(tenant: Id) returns (r: Outcome)
      modifies this
      ensures (View(), r) == Apply(old(View()), limits, Op.Revoke(tenant))
      ensures r.Done? ==>
        && (forall t :: t in pairings ==> pairings[t].tenant != tenant)
        && (forall d :: d in devices && devices[d].tenant == tenant ==> devices[d].revoked)
      ensures r == if tenant in old(tenants) then Done else Refused(NoTenant)
      ensures !r.Done? ==> View() == old(View())
      ensures r.Done? ==>
        && tenants == old(tenants) && tickets == old(tickets)
        && keys.Keys == old(keys).Keys && devices.Keys == old(devices).Keys
        && (forall t :: t in pairings <==> t in old(pairings) && old(pairings)[t].tenant != tenant)
        && (forall t :: t in pairings ==> pairings[t] == old(pairings)[t])
        && (forall d :: d in devices ==>
              devices[d] == old(devices)[d].(revoked := old(devices)[d].revoked || old(devices)[d].tenant == tenant))
        && (forall c :: c in keys ==>
              keys[c] == old(keys)[c].(revoked := old(keys)[c].revoked ||
                exists d :: d in old(devices) && old(devices)[d].credential == c
                  && old(devices)[d].tenant == tenant && !old(devices)[d].revoked))
    {
      if tenant !in tenants {
        return Refused(NoTenant);
      }
      var keyRows, deviceRows := RevokedTables(tenant, keys, devices);
      keys, devices, pairings := keyRows, deviceRows, WithoutTenant(pairings, tenant);
      return Done;
    }

    method IssueTicket(p: Principal, audience: Audience, token: Token, now: real) returns (r: Outcome)
      modifies this
      ensures (View(), r) == Apply(old(View()), limits, Op.IssueTicket(p, audience, token, now))
      ensures r.Done? ==>
        && token in tickets && tickets[token].credential == p.credential && ActiveKey(View(), p.tenant, p.credential)
        && AudienceScope(audience) in keys[p.credential].scopes
      ensures !r.Done? ==> View() == old(View())
      ensures r.Done? || r == Refused(Capacity) || r == Refused(Conflict) <==>
        var scope := if audience == Chat then ChatUse else PcConnect;
        && scope in p.scopes && p.credential in old(keys) && old(keys)[p.credential].tenant == p.tenant
        && !old(keys)[p.credential].revoked && scope in old(keys)[p.credential].scopes
      ensures r == Refused(Inactive) <==>
        && (if audience == Chat then ChatUse else PcConnect) in p.scopes
        && !(p.credential in old(keys) && old(keys)[p.credential].tenant == p.tenant
             && !old(keys)[p.credential].revoked)
      ensures r.Done? || r == Refused(Conflict) ==>
        && |set t | t in old(tickets) && now < old(tickets)[t].expires| < limits.maxTickets
        && |set t | t in old(tickets) && now < old(tickets)[t].expires && old(tickets)[t].credential == p.credential|
           < limits.maxPerCredential
      ensures r == Refused(Capacity) ==>
        || |set t | t in old(tickets) && now < old(tickets)[t].expires| >= limits.maxTickets
        || |set t | t in old(tickets) && now < old(tickets)[t].expires && old(tickets)[t].credential == p.credential|
           >= limits.maxPerCredential
      ensures r == Refused(Conflict) ==> token in old(tickets) && now < old(tickets)[token].expires
      ensures r.Done? ==>
        && !(token in old(tickets) && now < old(tickets)[token].expires)
        && View() == old(View()).(tickets := tickets)
        && tickets[token] == Ticket(p.credential, p.tenant, audience, now + limits.ticketTtl)
        && (forall t :: t in tickets && t != token <==>
              t != token && t in old(tickets) && now < old(tickets)[t].expires)
        && (forall t :: t in tickets && t != token ==> tickets[t] == old(tickets)[t])
    {
      if AudienceScope(audience) !in p.scopes {
        return Refused(NotPermitted);
      }
      if p.credential !in keys || keys[p.credential].tenant != p.tenant || keys[p.credential].revoked {
        return Refused(Inactive);
      }
      if AudienceScope(audience) !in keys[p.credential].scopes {
        return Refused(NotPermitted);
      }
      var rows := map t | t in tickets && !(tickets[t].expires <= now) :: tickets[t];
      assert rows == UnexpiredTickets(tickets, now);
      assert rows.Keys == set t | t in tickets && now < tickets[t].expires;
      assert OfCredential(rows, p.credential)
          == set t | t in tickets && now < tickets[t].expires && tickets[t].credential == p.credential;
      var total, owned := |rows|, |OfCredential(rows, p.credential)|;
      if total >= limits.maxTickets || owned >= limits.maxPerCredential {
        return Refused(Capacity);
      }
      if token in rows {
        return Refused(Conflict);
      }
      tickets := rows[token := Ticket(p.credential, p.tenant, audience, now + limits.ticketTtl)];
      return Done;
    }

    method ConsumeTicket(token: Token, audience: Audience, now: real) returns (r: Outcome)
      modifies this
      ensures (View(), r) == Apply(old(View()), limits, Op.Consume(token, audience, now))
      ensures r.Admitted? ==>
        && token !in tickets && AudienceScope(audience) in r.principal.scopes
        && ActiveKey(View(), r.principal.tenant, r.principal.credential)
      ensures r != Nothing <==>
        && 32 <= |token| <= 128 && token in old(tickets)
        && var t := old(tickets)[token];
           && t.audience == audience && now < t.expires
           && t.credential in keys && keys[t.credential].tenant == t.tenant && !keys[t.credential].revoked
      ensures r == Nothing ==> View() == old(View())
      ensures r != Nothing ==>
        var t := old(tickets)[token];
        && View() == old(View()).(tickets := old(tickets) - {token})
        && r == if (if audience == Chat then ChatUse else PcConnect) in keys[t.credential].scopes
                then Admitted(Principal(t.tenant, t.credential, keys[t.credential].scopes))
                else Refused(NotPermitted)
    {
      if !PlausibleToken(token) {
        return Nothing;
      }
      if token !in tickets || tickets[token].audience != audience || tickets[token].expires <= now {
        return Nothing;
      }
      var t := tickets[token];
      if t.credential !in keys || keys[t.credential].tenant != t.tenant || keys[t.credential].revoked {
        return Nothing;
      }
      tickets := tickets - {token};
      var principal := Principal(t.tenant, t.credential, keys[t.credential].scopes);
      return if AudienceScope(audience) in principal.scopes then Admitted(principal) else Refused(NotPermitted);
    }

    method ActiveDevice(device: Id, tenant: Id, credential: Id) returns (active: bool)
      ensures active <==> RequireActive(View(), device, tenant, credential)
      ensures active <==>
        && device in devices && devices[device] == Device(tenant, credential, false)
        && credential in keys && keys[credential] == Key(tenant, {PcConnect}, false)
    {
      if device !in devices || credential !in keys {
        return false;
      }
      var d, k := devices[device], keys[credential];
      return d.tenant == tenant && d.credential == credential && k.tenant == tenant
             && !d.revoked && !k.revoked && k.scopes == {PcConnect};
    }

    method Bind(p: Principal, device: Id) returns (bound: bool)
      ensures bound <==> Binds(View(), p, device)
      ensures bound <==>
        && p.scopes == {PcConnect}
        && device in devices && devices[device] == Device(p.tenant, p.credential, false)
        && p.credential in keys && keys[p.credential] == Key(p.tenant, {PcConnect}, false)
    {
      if p.scopes != {PcConnect} {
        return false;
      }
      bound := ActiveDevice(device, p.tenant, p.credential);
    }
  }
}
