/**
 Issuing a pairing token at capacity (services/auth/devices.py:58-69). The rows are counted before the
 upsert, so the row that a replacement would overwrite counts against it.
 */
module PairingCapacity {
  import opened Common
  import opened ChunkIdentity
  import opened Credentials
  import opened CredentialSafety

  ghost predicate HasPending(pairings: map<Token, Pairing>, tenant: Id) {
    exists t :: t in pairings && pairings[t].tenant == tenant
  }

  /** A known tenant gets its token exactly while fewer than the maximum are pending, its own included. */
  lemma GrantedIff(db: Db, tenant: Id, token: Token, now: real)
    requires tenant in db.tenants
    requires token in db.pairings ==> db.pairings[token].tenant == tenant
    ensures var outcome := IssuePairingTx(db, tenant, token, now).1;
            && (outcome == Done <==> |Unexpired(db.pairings, now)| < MAX_PENDING_PAIRINGS)
            && (outcome != Done ==> outcome == Refused(Capacity))
  {
  }

  lemma PendingOverwritten(pairings: map<Token, Pairing>, tenant: Id)
    requires forall t, u {:trigger PairingsApart(pairings, t, u)} :: PairingsApart(pairings, t, u)
    ensures |WithoutTenant(pairings, tenant)| == |pairings| - if HasPending(pairings, tenant) then 1 else 0
  {
    var others := WithoutTenant(pairings, tenant);
    if t :| t in pairings && pairings[t].tenant == tenant {
      forall u | u in pairings ensures u in others.Keys + {t} { assert PairingsApart(pairings, t, u); }
      assert pairings.Keys == others.Keys + {t};
      assert |others.Keys| == |others| && |pairings.Keys| == |pairings|;
    } else {
      assert others == pairings;
    }
  }

  /** Replacing a pending pairing never adds a row, so a count that leaves the tenant's own row out would
      always admit it: that count and the program's differ exactly for a tenant with a pending pairing
      when the maximum is pending. */
  lemma ReplacementRefusedIff(db: Db, limits: Limits, tenant: Id, token: Token, now: real)
    requires Inv(db, limits) && tenant in db.tenants
    requires token in db.pairings ==> db.pairings[token].tenant == tenant
    ensures var live := Unexpired(db.pairings, now);
            var replacementAware := |WithoutTenant(live, tenant)| < MAX_PENDING_PAIRINGS;
            var granted := IssuePairingTx(db, tenant, token, now).1 == Done;
            && (HasPending(live, tenant) ==> replacementAware)
            && (replacementAware && !granted <==> HasPending(live, tenant) && |live| == MAX_PENDING_PAIRINGS)
            && (granted ==> replacementAware)
  {
    var live := Unexpired(db.pairings, now);
    SubmapSmaller(live, db.pairings);
    forall t, u ensures PairingsApart(live, t, u) { assert PairingsApart(db.pairings, t, u); }
    PendingOverwritten(live, tenant);
    GrantedIff(db, tenant, token, now);
  }

  // ---------------------------------------------------------------- a run that gets there

  /** The n-th token of the witness: 32 characters and the digits of n. */
  function TokenOf(n: nat): Token {
    seq(32, i => 'x') + Digits(n)
  }

  lemma TokensInjective(m: nat, n: nat)
    requires TokenOf(m) == TokenOf(n)
    ensures m == n
  {
    assert Digits(m) == TokenOf(m)[32..] && Digits(n) == TokenOf(n)[32..];
    DigitsInjective(m, n);
  }

  /** Each of n tenants is provisioned and asks for a pairing at time zero. */
  function Fill(n: nat): seq<Op> {
    if n == 0 then [] else Fill(n - 1) + [Provision(n - 1, n - 1, {})] + [IssuePairing(n - 1, TokenOf(n - 1), 0.0)]
  }

  function KeysOf(n: nat): map<Id, Key> {
    if n == 0 then map[] else KeysOf(n - 1)[n - 1 := Key(n - 1, {}, false)]
  }

  function PairingsOf(n: nat): map<Token, Pairing> {
    if n == 0 then map[] else PairingsOf(n - 1)[TokenOf(n - 1) := Pairing(n - 1, PAIRING_TTL)]
  }

  /** The tables after that. */
  function Filled(n: nat): Db {
    Db(KeysOf(n).Keys, KeysOf(n), map[], PairingsOf(n), map[])
  }

  ghost predicate PairingOfEarlier(n: nat, t: Token) {
    t in PairingsOf(n) ==>
      && PairingsOf(n)[t].tenant < n && PairingsOf(n)[t].expires == PAIRING_TTL && t == TokenOf(PairingsOf(n)[t].tenant)
  }

  lemma {:induction false} TokenAfter(n: nat, m: nat)
    requires n <= m
    ensures TokenOf(m) !in PairingsOf(n)
  {
    if n > 0 {
      TokenAfter(n - 1, m);
      if TokenOf(m) == TokenOf(n - 1) { TokensInjective(m, n - 1); }
    }
  }

  lemma {:induction false} FilledSize(n: nat)
    ensures |PairingsOf(n)| == n
  {
    if n > 0 {
      FilledSize(n - 1);
      TokenAfter(n - 1, n - 1);
      AddedSize(PairingsOf(n - 1), TokenOf(n - 1), Pairing(n - 1, PAIRING_TTL));
    }
  }

  lemma {:induction false} FilledKeys(n: nat)
    ensures forall i: nat :: i in KeysOf(n) <==> i < n
  {
    if n > 0 { FilledKeys(n - 1); }
  }

  lemma {:induction false} FilledPairings(n: nat, t: Token)
    ensures PairingOfEarlier(n, t) && (0 < n ==> TokenOf(0) in PairingsOf(n))
  {
    if n > 0 { FilledPairings(n - 1, t); }
  }

  lemma FillStep(limits: Limits, n: nat)
    ensures Run(EMPTY, limits, Fill(n + 1))
         == IssuePairingTx(ProvisionTx(Run(EMPTY, limits, Fill(n)), n, n, {}).0, n, TokenOf(n), 0.0).0
  {
    var first, second := Provision(n, n, {}), IssuePairing(n, TokenOf(n), 0.0);
    assert Fill(n + 1)[..|Fill(n)| + 1] == Fill(n) + [first];
    assert (Fill(n) + [first])[..|Fill(n)|] == Fill(n);
  }

  lemma NothingExpired(n: nat, now: real)
    requires now < PAIRING_TTL
    ensures Unexpired(PairingsOf(n), now) == PairingsOf(n)
  {
    forall t ensures t in PairingsOf(n) ==> PairingsOf(n)[t].expires > now { FilledPairings(n, t); }
  }

  lemma OneMoreTenant(n: nat)
    ensures ProvisionTx(Filled(n), n, n, {}).0 == Db(KeysOf(n + 1).Keys, KeysOf(n + 1), map[], PairingsOf(n), map[])
  {
    FilledKeys(n);
    assert KeysOf(n + 1).Keys == KeysOf(n).Keys + {n};
  }

  lemma OneMorePairing(n: nat)
    requires n < MAX_PENDING_PAIRINGS
    ensures var known := Db(KeysOf(n + 1).Keys, KeysOf(n + 1), map[], PairingsOf(n), map[]);
            IssuePairingTx(known, n, TokenOf(n), 0.0).0 == Filled(n + 1)
  {
    FilledSize(n);
    TokenAfter(n, n);
    NothingExpired(n, 0.0);
    forall t ensures t in PairingsOf(n) ==> PairingsOf(n)[t].tenant != n { FilledPairings(n, t); }
    assert WithoutTenant(PairingsOf(n), n) == PairingsOf(n);
  }

  lemma {:induction false} FillRuns(limits: Limits, n: nat)
    requires n <= MAX_PENDING_PAIRINGS
    ensures Run(EMPTY, limits, Fill(n)) == Filled(n)
  {
    if n > 0 {
      var i := n - 1;
      calc {
        Run(EMPTY, limits, Fill(n));
        { FillStep(limits, i); }
        IssuePairingTx(ProvisionTx(Run(EMPTY, limits, Fill(i)), i, i, {}).0, i, TokenOf(i), 0.0).0;
        { FillRuns(limits, i); }
        IssuePairingTx(ProvisionTx(Filled(i), i, i, {}).0, i, TokenOf(i), 0.0).0;
        { OneMoreTenant(i); }
        IssuePairingTx(Db(KeysOf(n).Keys, KeysOf(n), map[], PairingsOf(i), map[]), i, TokenOf(i), 0.0).0;
        { OneMorePairing(i); }
        Filled(n);
      }
    }
  }

  /** The concrete refusal: after 4096 tenants have paired, tenant 0 - whose own pairing is among them and
      would be overwritten - is refused a new token. */
  lemma ReplacementRefused(limits: Limits)
    ensures var db := Run(EMPTY, limits, Fill(MAX_PENDING_PAIRINGS));
            var another := TokenOf(MAX_PENDING_PAIRINGS);
            && HasPending(Unexpired(db.pairings, 1.0), 0) && another !in db.pairings
            && IssuePairingTx(db, 0, another, 1.0) == (db, Refused(Capacity))
  {
    var n := MAX_PENDING_PAIRINGS;
    FillRuns(limits, n);
    FilledSize(n);
    FilledKeys(n);
    TokenAfter(n, n);
    NothingExpired(n, 1.0);
    FilledPairings(n, TokenOf(0));
    TokensInjective(PairingsOf(n)[TokenOf(0)].tenant, 0);
  }
}
