/**
 How long the short-lived secrets are good for: a pairing token for exactly 120 seconds and a socket ticket
 for exactly its time to live, whatever else happens in between that does not concern them.
 */
module CredentialLifetimes {
  import opened Credentials
  import opened CredentialSafety

  // ---------------------------------------------------------------- pairing tokens

  /** The operation does not replace, revoke, redeem or - before the deadline - sweep away the token. */
  ghost predicate SparesPairing(db: Db, limits: Limits, op: Op, tenant: Id, token: Token, deadline: real) {
    match op
    case IssuePairing(other, _, now) => other != tenant && now < deadline
    case Redeem(other, _, _, _) => other == token ==> !Apply(db, limits, op).1.Enrolled?
    case Revoke(other) => other != tenant
    case _ => true
  }

  ghost predicate PairingSpared(db: Db, limits: Limits, ops: seq<Op>, tenant: Id, token: Token, deadline: real) {
    forall k :: 0 <= k < |ops| ==> SparesPairing(Run(db, limits, ops[..k]), limits, ops[k], tenant, token, deadline)
  }

  lemma {:induction false} SparedPairingStays(db: Db, limits: Limits, ops: seq<Op>, token: Token)
    requires token in db.pairings
    requires PairingSpared(db, limits, ops, db.pairings[token].tenant, token, db.pairings[token].expires)
    ensures token in Run(db, limits, ops).pairings && Run(db, limits, ops).pairings[token] == db.pairings[token]
  {
    if ops != [] {
      var n := |ops| - 1;
      forall k | 0 <= k < n
        ensures SparesPairing(Run(db, limits, ops[..n][..k]), limits, ops[..n][k], db.pairings[token].tenant, token,
                              db.pairings[token].expires)
      {
        assert ops[..n][..k] == ops[..k];
      }
      SparedPairingStays(db, limits, ops[..n], token);
      assert SparesPairing(Run(db, limits, ops[..n]), limits, ops[n], db.pairings[token].tenant, token,
                           db.pairings[token].expires);
    }
  }

  lemma IssuedPairing(db: Db, limits: Limits, tenant: Id, token: Token, t: real)
    requires Apply(db, limits, IssuePairing(tenant, token, t)).1 == Done
    ensures var after := Apply(db, limits, IssuePairing(tenant, token, t)).0;
            token in after.pairings && after.pairings[token] == Pairing(tenant, t + 120.0)
  {
  }

  lemma PendingEnrolls(db: Db, limits: Limits, token: Token, device: Id, credential: Id, now: real)
    requires token in db.pairings && 32 <= |token| <= 128 && credential !in db.keys && device !in db.devices
    ensures Apply(db, limits, Redeem(token, device, credential, now)).1
         == if now < db.pairings[token].expires then Enrolled(device, credential) else Refused(InvalidToken)
  {
  }

  /** A token issued at t that is neither replaced, revoked nor redeemed enrolls a device at every moment
      before t + 120 seconds, and is refused from then on. */
  lemma PairingLivesTwoMinutes(db: Db, limits: Limits, tenant: Id, token: Token, t: real, ops: seq<Op>, device: Id,
                               credential: Id, now: real)
    requires Apply(db, limits, IssuePairing(tenant, token, t)).1 == Done && 32 <= |token| <= 128
    requires PairingSpared(Apply(db, limits, IssuePairing(tenant, token, t)).0, limits, ops, tenant, token, t + 120.0)
    requires var after := Run(Apply(db, limits, IssuePairing(tenant, token, t)).0, limits, ops);
             credential !in after.keys && device !in after.devices
    ensures var after := Run(Apply(db, limits, IssuePairing(tenant, token, t)).0, limits, ops);
            Apply(after, limits, Redeem(token, device, credential, now)).1
              == if now < t + 120.0 then Enrolled(device, credential) else Refused(InvalidToken)
  {
    var issued := Apply(db, limits, IssuePairing(tenant, token, t)).0;
    IssuedPairing(db, limits, tenant, token, t);
    SparedPairingStays(issued, limits, ops, token);
    PendingEnrolls(Run(issued, limits, ops), limits, token, device, credential, now);
  }

  ghost predicate ExpiresBy(pairings: map<Token, Pairing>, token: Token, deadline: real) {
    token in pairings ==> pairings[token].expires <= deadline
  }

  lemma OneStepExpires(db: Db, limits: Limits, op: Op, token: Token, deadline: real)
    requires ExpiresBy(db.pairings, token, deadline) && (op.IssuePairing? ==> op.token != token)
    ensures ExpiresBy(Apply(db, limits, op).0.pairings, token, deadline)
  {
  }

  lemma {:induction false} DeadlineStands(db: Db, limits: Limits, ops: seq<Op>, token: Token, deadline: real)
    requires ExpiresBy(db.pairings, token, deadline)
    requires forall op :: op in ops && op.IssuePairing? ==> op.token != token
    ensures ExpiresBy(Run(db, limits, ops).pairings, token, deadline)
  {
    if ops != [] {
      var n := |ops| - 1;
      assert forall op :: op in ops[..n] ==> op in ops;
      DeadlineStands(db, limits, ops[..n], token, deadline);
      assert ops[n] in ops;
      OneStepExpires(Run(db, limits, ops[..n]), limits, ops[n], token, deadline);
    }
  }

  /** Whatever happens after it was issued: 120 seconds later the token is worthless for good. */
  lemma ExpiredPairingNeverEnrolls(db: Db, limits: Limits, tenant: Id, token: Token, t: real, ops: seq<Op>,
                                   device: Id, credential: Id, now: real)
    requires Apply(db, limits, IssuePairing(tenant, token, t)).1 == Done && t + 120.0 <= now
    requires forall op :: op in ops && op.IssuePairing? ==> op.token != token
    ensures var after := Run(Apply(db, limits, IssuePairing(tenant, token, t)).0, limits, ops);
            Apply(after, limits, Redeem(token, device, credential, now)) == (after, Refused(InvalidToken))
  {
    IssuedPairing(db, limits, tenant, token, t);
    DeadlineStands(Apply(db, limits, IssuePairing(tenant, token, t)).0, limits, ops, token, t + 120.0);
  }

  // ---------------------------------------------------------------- socket tickets

  /** The operation does not spend the ticket or - before the deadline - sweep it away. */
  ghost predicate SparesTicket(db: Db, limits: Limits, op: Op, token: Token, deadline: real) {
    match op
    case IssueTicket(_, _, _, now) => now < deadline
    case Consume(other, _, _) => other == token ==> Apply(db, limits, op).1 == Nothing
    case _ => true
  }

  ghost predicate TicketSpared(db: Db, limits: Limits, ops: seq<Op>, token: Token, deadline: real) {
    forall k :: 0 <= k < |ops| ==> SparesTicket(Run(db, limits, ops[..k]), limits, ops[k], token, deadline)
  }

  lemma {:induction false} SparedTicketStays(db: Db, limits: Limits, ops: seq<Op>, token: Token)
    requires token in db.tickets && TicketSpared(db, limits, ops, token, db.tickets[token].expires)
    ensures token in Run(db, limits, ops).tickets && Run(db, limits, ops).tickets[token] == db.tickets[token]
  {
    if ops != [] {
      var n := |ops| - 1;
      forall k | 0 <= k < n
        ensures SparesTicket(Run(db, limits, ops[..n][..k]), limits, ops[..n][k], token, db.tickets[token].expires)
      {
        assert ops[..n][..k] == ops[..k];
      }
      SparedTicketStays(db, limits, ops[..n], token);
      assert SparesTicket(Run(db, limits, ops[..n]), limits, ops[n], token, db.tickets[token].expires);
    }
  }

  lemma IssuedTicket(db: Db, limits: Limits, p: Principal, audience: Audience, token: Token, t: real)
    requires Apply(db, limits, IssueTicket(p, audience, token, t)).1 == Done
    ensures var after := Apply(db, limits, IssueTicket(p, audience, token, t)).0;
            && token in after.tickets
            && after.tickets[token] == Ticket(p.credential, p.tenant, audience, t + limits.ticketTtl)
            && after.keys == db.keys && p.credential in db.keys && db.keys[p.credential].tenant == p.tenant
            && AudienceScope(audience) in db.keys[p.credential].scopes
  {
  }

  lemma PendingAdmits(db: Db, limits: Limits, token: Token, presented: Audience, now: real)
    requires token in db.tickets && 32 <= |token| <= 128
    requires var t := db.tickets[token];
             && t.credential in db.keys && db.keys[t.credential].tenant == t.tenant
             && AudienceScope(t.audience) in db.keys[t.credential].scopes
    ensures var t := db.tickets[token];
            Apply(db, limits, Consume(token, presented, now)).1
            == if presented == t.audience && now < t.expires && !db.keys[t.credential].revoked
               then Admitted(Principal(t.tenant, t.credential, db.keys[t.credential].scopes)) else Nothing
  {
  }

  /** A ticket issued at t that is not spent admits its holder, with the key's scopes, exactly for the
      audience it was issued for, before its time is up, and while its key is not revoked. */
  lemma TicketAdmitsUntilItExpires(db: Db, limits: Limits, p: Principal, audience: Audience, token: Token, t: real,
                                   ops: seq<Op>, presented: Audience, now: real)
    requires Apply(db, limits, IssueTicket(p, audience, token, t)).1 == Done && 32 <= |token| <= 128
    requires TicketSpared(Apply(db, limits, IssueTicket(p, audience, token, t)).0, limits, ops, token,
                          t + limits.ticketTtl)
    ensures var after := Run(Apply(db, limits, IssueTicket(p, audience, token, t)).0, limits, ops);
            && p.credential in db.keys && p.credential in after.keys
            && Apply(after, limits, Consume(token, presented, now)).1
               == if presented == audience && now < t + limits.ticketTtl && !after.keys[p.credential].revoked
                  then Admitted(Principal(p.tenant, p.credential, db.keys[p.credential].scopes)) else Nothing
  {
    var issued := Apply(db, limits, IssueTicket(p, audience, token, t)).0;
    IssuedTicket(db, limits, p, audience, token, t);
    SparedTicketStays(issued, limits, ops, token);
    HistoryOnlyRevokes(issued, limits, ops);
    assert KeyLater(issued.keys, Run(issued, limits, ops).keys, p.credential);
    PendingAdmits(Run(issued, limits, ops), limits, token, presented, now);
  }

  ghost predicate TicketExpiresBy(tickets: map<Token, Ticket>, token: Token, deadline: real) {
    token in tickets ==> tickets[token].expires <= deadline
  }

  lemma OneStepTicketExpires(db: Db, limits: Limits, op: Op, token: Token, deadline: real)
    requires TicketExpiresBy(db.tickets, token, deadline) && (op.IssueTicket? ==> op.token != token)
    ensures TicketExpiresBy(Apply(db, limits, op).0.tickets, token, deadline)
  {
  }

  lemma {:induction false} TicketDeadlineStands(db: Db, limits: Limits, ops: seq<Op>, token: Token, deadline: real)
    requires TicketExpiresBy(db.tickets, token, deadline)
    requires forall op :: op in ops && op.IssueTicket? ==> op.token != token
    ensures TicketExpiresBy(Run(db, limits, ops).tickets, token, deadline)
  {
    if ops != [] {
      var n := |ops| - 1;
      assert forall op :: op in ops[..n] ==> op in ops;
      TicketDeadlineStands(db, limits, ops[..n], token, deadline);
      assert ops[n] in ops;
      OneStepTicketExpires(Run(db, limits, ops[..n]), limits, ops[n], token, deadline);
    }
  }

  lemma ExpiredTicketNeverAdmits(db: Db, limits: Limits, p: Principal, audience: Audience, token: Token, t: real,
                                 ops: seq<Op>, presented: Audience, now: real)
    requires Apply(db, limits, IssueTicket(p, audience, token, t)).1 == Done && t + limits.ticketTtl <= now
    requires forall op :: op in ops && op.IssueTicket? ==> op.token != token
    ensures var after := Run(Apply(db, limits, IssueTicket(p, audience, token, t)).0, limits, ops);
            Apply(after, limits, Consume(token, presented, now)) == (after, Nothing)
  {
    IssuedTicket(db, limits, p, audience, token, t);
    TicketDeadlineStands(Apply(db, limits, IssueTicket(p, audience, token, t)).0, limits, ops, token,
                         t + limits.ticketTtl);
  }
}
