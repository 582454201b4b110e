/**
 What every interleaving of ingestion transactions keeps.
 */
module IngestionSafety {
  import opened Common
  import opened IngestionStore

  // ---------------------------------------------------------------- the invariant

  /** A document's pointer names its own active version; deletion leaves a tombstone and no pointer. */
  ghost predicate DocumentOk(db: Db, d: Uuid)
    requires d in db.documents
  {
    var document := db.documents[d];
    && (document.active.Some? ==>
          OwnsVersion(db, document.active.value, d, document.tenant)
                  && db.versions[document.active.value].status.Active?)
    && (document.status.DocDeleted? ==> document.active.None? && d in db.tombstones)
  }

  ghost predicate TombstoneOk(db: Db, d: Uuid)
    requires d in db.tombstones
  {
    OwnsDocument(db, d, db.tombstones[d].tenant) && db.documents[d].status.DocDeleted?
  }

  ghost predicate AttemptOk(db: Db, a: Uuid)
    requires a in db.attempts
  {
    OwnsDocument(db, db.attempts[a].document, db.attempts[a].tenant)
  }

  /** An active version is its document's pointer, and its chunk rows are as many as it says. */
  ghost predicate VersionOk(db: Db, v: Uuid)
    requires v in db.versions
  {
    var version := db.versions[v];
    && OwnsAttempt(db, version.attempt, version.document, version.tenant)
    && OwnsDocument(db, version.document, version.tenant)
    && (version.status.Active? ==> db.documents[version.document].active == Some(v))
    && version.chunkCount == if v in db.chunks then |db.chunks[v]| else 0
  }

  /** Exactly 1, 2, ..., n. */
  ghost predicate Consecutive(numbers: set<nat>) {
    forall k: nat :: k in numbers <==> 1 <= k <= MaxOf(numbers)
  }

  ghost predicate AttemptsDistinct(attempts: map<Uuid, Attempt>, d: Uuid) {
    forall a, b | a in attempts && b in attempts && attempts[a].document == d && attempts[b].document == d ::
      attempts[a].number == attempts[b].number ==> a == b
  }

  ghost predicate VersionsDistinct(versions: map<Uuid, Version>, d: Uuid) {
    forall v, w | v in versions && w in versions && versions[v].document == d && versions[w].document == d ::
      versions[v].number == versions[w].number ==> v == w
  }

  ghost predicate NumberingOk(db: Db, d: Uuid) {
    && Consecutive(AttemptNumbers(db.attempts, d)) && AttemptsDistinct(db.attempts, d)
    && Consecutive(VersionNumbers(db.versions, d)) && VersionsDistinct(db.versions, d)
  }

  ghost predicate WorkflowsDistinct(db: Db) {
    forall a, b :: a in db.attempts && b in db.attempts && db.attempts[a].workflow == db.attempts[b].workflow ==> a == b
  }

  ghost predicate RowsOk(db: Db) {
    && db.chunks.Keys <= db.versions.Keys
    && (forall d {:trigger DocumentOk(db, d)} :: d in db.documents ==> DocumentOk(db, d))
    && (forall d {:trigger TombstoneOk(db, d)} :: d in db.tombstones ==> TombstoneOk(db, d))
    && (forall a {:trigger AttemptOk(db, a)} :: a in db.attempts ==> AttemptOk(db, a))
    && (forall v {:trigger VersionOk(db, v)} :: v in db.versions ==> VersionOk(db, v))
  }

  ghost predicate Inv(db: Db) {
    && RowsOk(db)
    && WorkflowsDistinct(db)
    && (forall d {:trigger NumberingOk(db, d)} :: NumberingOk(db, d))
  }

  // ---------------------------------------------------------------- rows

  lemma RegisterKeepsRows(db: Db, r: Tx)
    requires RowsOk(db) && r.Register? && AcceptsRegister(db, r)
    ensures RowsOk(RegisterEffect(db, r))
  {
    var after := RegisterEffect(db, r);
    assert r.attempt in db.attempts ==> AttemptOk(db, r.attempt);
    forall d | d in after.documents ensures DocumentOk(after, d) { assert d in db.documents ==> DocumentOk(db, d); }
    forall d | d in after.tombstones ensures TombstoneOk(after, d) { assert TombstoneOk(db, d); }
    forall a | a in after.attempts ensures AttemptOk(after, a) { assert a in db.attempts ==> AttemptOk(db, a); }
    forall v | v in after.versions ensures VersionOk(after, v) {
      assert v in db.versions ==> VersionOk(db, v);
    }
  }

  lemma StageKeepsRows(db: Db, r: Tx)
    requires RowsOk(db) && r.UpdateStage? && AcceptsStage(db, r)
    ensures RowsOk(StageEffect(db, r))
  {
    var after := StageEffect(db, r);
    forall d | d in after.documents ensures DocumentOk(after, d) { assert DocumentOk(db, d); }
    forall d | d in after.tombstones ensures TombstoneOk(after, d) { assert TombstoneOk(db, d); }
    forall a | a in after.attempts ensures AttemptOk(after, a) { assert AttemptOk(db, a); }
    forall v | v in after.versions ensures VersionOk(after, v) { assert VersionOk(db, v); }
  }

  lemma PersistKeepsRows(db: Db, r: Tx)
    requires RowsOk(db) && r.Persist? && AcceptsPersist(db, r)
    ensures RowsOk(PersistEffect(db, r))
  {
    var after := PersistEffect(db, r);
    forall d | d in after.documents ensures DocumentOk(after, d) { assert DocumentOk(db, d); }
    forall d | d in after.tombstones ensures TombstoneOk(after, d) { assert TombstoneOk(db, d); }
    forall a | a in after.attempts ensures AttemptOk(after, a) { assert AttemptOk(db, a); }
    forall v | v in after.versions ensures VersionOk(after, v) { assert VersionOk(db, v); }
  }

  lemma ActivateKeepsRows(db: Db, r: Tx)
    requires RowsOk(db) && r.Activate? && AcceptsActivate(db, r)
    ensures RowsOk(ActivateEffect(db, r))
  {
    var after := ActivateEffect(db, r);
    assert DocumentOk(db, r.document) && VersionOk(db, r.version);
    forall d | d in after.documents ensures DocumentOk(after, d) { assert DocumentOk(db, d); }
    forall d | d in after.tombstones ensures TombstoneOk(after, d) { assert TombstoneOk(db, d); }
    forall a | a in after.attempts ensures AttemptOk(after, a) { assert AttemptOk(db, a); }
    forall v | v in after.versions ensures VersionOk(after, v) { assert VersionOk(db, v); }
  }

  lemma FinishKeepsRows(db: Db, r: Tx)
    requires RowsOk(db) && r.Finish? && AcceptsFinish(db, r)
    ensures RowsOk(FinishEffect(db, r))
  {
    var after := FinishEffect(db, r);
    forall d | d in after.documents ensures DocumentOk(after, d) { assert DocumentOk(db, d); }
    forall d | d in after.tombstones ensures TombstoneOk(after, d) { assert TombstoneOk(db, d); }
    forall a | a in after.attempts ensures AttemptOk(after, a) { assert AttemptOk(db, a); }
    forall v | v in after.versions ensures VersionOk(after, v) { assert VersionOk(db, v); }
  }

  lemma BuryKeepsRows(db: Db, r: Tx)
    requires RowsOk(db) && r.Bury? && AcceptsBury(db, r)
    ensures RowsOk(BuryEffect(db, r))
  {
    var after := BuryEffect(db, r);
    forall d | d in after.documents ensures DocumentOk(after, d) { assert DocumentOk(db, d); }
    forall d | d in after.tombstones ensures TombstoneOk(after, d) { assert d in db.tombstones ==> TombstoneOk(db, d); }
    forall a | a in after.attempts ensures AttemptOk(after, a) { assert AttemptOk(db, a); }
    forall v | v in after.versions ensures VersionOk(after, v) { assert VersionOk(db, v); }
  }

  lemma ReconcileKeepsRows(db: Db)
    requires RowsOk(db)
    ensures RowsOk(ReconcileEffect(db))
  {
    var after := ReconcileEffect(db);
    forall d | d in after.documents ensures DocumentOk(after, d) { assert DocumentOk(db, d); }
    forall d | d in after.tombstones ensures TombstoneOk(after, d) { assert TombstoneOk(db, d); }
    forall a | a in after.attempts ensures AttemptOk(after, a) { assert AttemptOk(db, a); }
    forall v | v in after.versions ensures VersionOk(after, v) { assert VersionOk(db, v); }
  }

  lemma EffectKeepsRows(db: Db, r: Tx)
    requires RowsOk(db) && Accepts(db, r)
    ensures RowsOk(Effect(db, r))
  {
    match r
    case Register(_, _, _, _, _, _, _, _) => RegisterKeepsRows(db, r);
    case UpdateStage(_, _, _, _) => StageKeepsRows(db, r);
    case Persist(_, _, _, _, _) => PersistKeepsRows(db, r);
    case Activate(_, _, _) => ActivateKeepsRows(db, r);
    case Finish(_, _, _, _, _, _) => FinishKeepsRows(db, r);
    case Bury(_, _, _) => BuryKeepsRows(db, r);
    case MarkReconciled => ReconcileKeepsRows(db);
  }

  // ---------------------------------------------------------------- numbers

  /** What never changes about a row once it exists. */
  ghost predicate SameAttempts(db: Db, after: Db) {
    && db.attempts.Keys <= after.attempts.Keys
    && (forall a :: a in db.attempts ==>
          && after.attempts[a].document == db.attempts[a].document && after.attempts[a].tenant == db.attempts[a].tenant
          && after.attempts[a].workflow == db.attempts[a].workflow && after.attempts[a].number == db.attempts[a].number)
  }

  ghost predicate SameVersions(db: Db, after: Db) {
    && db.versions.Keys <= after.versions.Keys
    && (forall v :: v in db.versions ==>
          && after.versions[v].document == db.versions[v].document && after.versions[v].tenant == db.versions[v].tenant
          && after.versions[v].attempt == db.versions[v].attempt && after.versions[v].number == db.versions[v].number)
  }

  ghost predicate SameIdentities(db: Db, after: Db) {
    SameAttempts(db, after) && SameVersions(db, after)
  }

  lemma RegisterKeepsIdentities(db: Db, r: Tx)
    requires r.Register? && AcceptsRegister(db, r)
    ensures SameIdentities(db, RegisterEffect(db, r))
  {
  }

  lemma StageKeepsIdentities(db: Db, r: Tx)
    requires r.UpdateStage? && AcceptsStage(db, r)
    ensures SameIdentities(db, StageEffect(db, r))
    ensures StageEffect(db, r).attempts.Keys == db.attempts.Keys && StageEffect(db, r).versions.Keys == db.versions.Keys
  {
  }

  lemma PersistKeepsIdentities(db: Db, r: Tx)
    requires r.Persist? && AcceptsPersist(db, r)
    ensures SameIdentities(db, PersistEffect(db, r))
    ensures PersistEffect(db, r).attempts.Keys == db.attempts.Keys
            && PersistEffect(db, r).versions.Keys == db.versions.Keys
  {
  }

  lemma ActivateKeepsAttempts(db: Db, r: Tx)
    requires r.Activate? && AcceptsActivate(db, r)
    ensures SameAttempts(db, ActivateEffect(db, r)) && ActivateEffect(db, r).attempts == db.attempts
  {
  }

  lemma ActivateKeepsVersions(db: Db, r: Tx)
    requires r.Activate? && AcceptsActivate(db, r)
    ensures SameVersions(db, ActivateEffect(db, r)) && ActivateEffect(db, r).versions.Keys == db.versions.Keys
  {
  }

  lemma FinishKeepsAttempts(db: Db, r: Tx)
    requires r.Finish? && AcceptsFinish(db, r)
    ensures SameAttempts(db, FinishEffect(db, r)) && FinishEffect(db, r).attempts.Keys == db.attempts.Keys
  {
  }

  lemma FinishKeepsVersions(db: Db, r: Tx)
    requires r.Finish? && AcceptsFinish(db, r)
    ensures SameVersions(db, FinishEffect(db, r)) && FinishEffect(db, r).versions.Keys == db.versions.Keys
  {
  }

  lemma BuryKeepsIdentities(db: Db, r: Tx)
    requires r.Bury? && AcceptsBury(db, r)
    ensures SameIdentities(db, BuryEffect(db, r))
    ensures BuryEffect(db, r).attempts.Keys == db.attempts.Keys && BuryEffect(db, r).versions.Keys == db.versions.Keys
  {
  }

  lemma ReconcileKeepsIdentities(db: Db)
    ensures SameIdentities(db, ReconcileEffect(db))
    ensures ReconcileEffect(db).attempts.Keys == db.attempts.Keys
            && ReconcileEffect(db).versions.Keys == db.versions.Keys
  {
  }

  lemma EffectKeepsIdentities(db: Db, r: Tx)
    requires Accepts(db, r)
    ensures SameIdentities(db, Effect(db, r))
    ensures !r.Register? ==>
              Effect(db, r).attempts.Keys == db.attempts.Keys && Effect(db, r).versions.Keys == db.versions.Keys
  {
    match r
    case Register(_, _, _, _, _, _, _, _) => RegisterKeepsIdentities(db, r);
    case UpdateStage(_, _, _, _) => StageKeepsIdentities(db, r);
    case Persist(_, _, _, _, _) => PersistKeepsIdentities(db, r);
    case Activate(_, _, _) => ActivateKeepsAttempts(db, r); ActivateKeepsVersions(db, r);
    case Finish(_, _, _, _, _, _) => FinishKeepsAttempts(db, r); FinishKeepsVersions(db, r);
    case Bury(_, _, _) => BuryKeepsIdentities(db, r);
    case MarkReconciled => ReconcileKeepsIdentities(db);
  }

  lemma SameNumbering(db: Db, after: Db, d: Uuid)
    requires SameIdentities(db, after) && NumberingOk(db, d)
    requires forall a :: a in after.attempts && after.attempts[a].document == d ==> a in db.attempts
    requires forall v :: v in after.versions && after.versions[v].document == d ==> v in db.versions
    ensures NumberingOk(after, d)
  {
    assert AttemptNumbers(after.attempts, d) == AttemptNumbers(db.attempts, d);
    assert VersionNumbers(after.versions, d) == VersionNumbers(db.versions, d);
  }

  lemma NextIsConsecutive(numbers: set<nat>)
    requires Consecutive(numbers)
    ensures Consecutive(numbers + {MaxOf(numbers) + 1}) && MaxOf(numbers) + 1 !in numbers
  {
  }

  lemma AddedAttempt(attempts: map<Uuid, Attempt>, a: Uuid, x: Attempt, d: Uuid)
    requires a !in attempts
    ensures AttemptNumbers(attempts[a := x], d)
         == AttemptNumbers(attempts, d) + if x.document == d then {x.number} else {}
  {
    forall b | b in attempts && attempts[b].document == d
      ensures attempts[b].number in AttemptNumbers(attempts[a := x], d)
    {
      assert attempts[a := x][b] == attempts[b];
    }
    assert attempts[a := x][a] == x;
    assert x.document == d ==> x.number in AttemptNumbers(attempts[a := x], d);
  }

  lemma AddedAttemptDistinct(attempts: map<Uuid, Attempt>, a: Uuid, x: Attempt, d: Uuid)
    requires a !in attempts && AttemptsDistinct(attempts, d) && x.number !in AttemptNumbers(attempts, x.document)
    ensures AttemptsDistinct(attempts[a := x], d)
  {
    forall b | b in attempts && attempts[b].document == d ensures attempts[b].number in AttemptNumbers(attempts, d) {}
  }

  lemma AddedVersion(versions: map<Uuid, Version>, v: Uuid, x: Version, d: Uuid)
    requires v !in versions
    ensures VersionNumbers(versions[v := x], d)
         == VersionNumbers(versions, d) + if x.document == d then {x.number} else {}
  {
    forall w | w in versions && versions[w].document == d
      ensures versions[w].number in VersionNumbers(versions[v := x], d)
    {
      assert versions[v := x][w] == versions[w];
    }
    assert versions[v := x][v] == x;
    assert x.document == d ==> x.number in VersionNumbers(versions[v := x], d);
  }

  lemma AddedVersionDistinct(versions: map<Uuid, Version>, v: Uuid, x: Version, d: Uuid)
    requires v !in versions && VersionsDistinct(versions, d) && x.number !in VersionNumbers(versions, x.document)
    ensures VersionsDistinct(versions[v := x], d)
  {
    forall w | w in versions && versions[w].document == d ensures versions[w].number in VersionNumbers(versions, d) {}
  }

  lemma RegisterNumbersAttempts(attempts: map<Uuid, Attempt>, r: Tx, d: Uuid)
    requires r.Register? && Consecutive(AttemptNumbers(attempts, d)) && AttemptsDistinct(attempts, d)
    ensures Consecutive(AttemptNumbers(RegisteredAttempts(attempts, r), d))
    ensures AttemptsDistinct(RegisteredAttempts(attempts, r), d)
  {
    if r.attempt !in attempts {
      var x := RegisteredAttempts(attempts, r)[r.attempt];
      AddedAttempt(attempts, r.attempt, x, d);
      AddedAttemptDistinct(attempts, r.attempt, x, d);
      NextIsConsecutive(AttemptNumbers(attempts, d));
      assert x.document != d ==> AttemptNumbers(attempts[r.attempt := x], d) == AttemptNumbers(attempts, d);
    }
  }

  lemma RegisterNumbersVersions(versions: map<Uuid, Version>, r: Tx, d: Uuid)
    requires r.Register? && Consecutive(VersionNumbers(versions, d)) && VersionsDistinct(versions, d)
    ensures Consecutive(VersionNumbers(RegisteredVersions(versions, r), d))
    ensures VersionsDistinct(RegisteredVersions(versions, r), d)
  {
    if r.version !in versions {
      var x := RegisteredVersions(versions, r)[r.version];
      AddedVersion(versions, r.version, x, d);
      AddedVersionDistinct(versions, r.version, x, d);
      NextIsConsecutive(VersionNumbers(versions, d));
      assert x.document != d ==> VersionNumbers(versions[r.version := x], d) == VersionNumbers(versions, d);
    }
  }

  lemma EffectKeepsInv(db: Db, r: Tx)
    requires Inv(db) && Accepts(db, r)
    ensures Inv(Effect(db, r))
  {
    EffectKeepsRows(db, r);
    EffectKeepsIdentities(db, r);
    forall d ensures NumberingOk(Effect(db, r), d) {
      assert NumberingOk(db, d);
      if r.Register? {
        RegisterNumbersAttempts(db.attempts, r, d);
        RegisterNumbersVersions(db.versions, r, d);
      } else {
        SameNumbering(db, Effect(db, r), d);
      }
    }
  }

  lemma {:induction false} EveryRunKeepsInvariant(events: seq<Event>)
    ensures Inv(Run(events))
  {
    if events == [] {
      forall d ensures NumberingOk(EMPTY, d) {
        assert AttemptNumbers(EMPTY.attempts, d) == {} && VersionNumbers(EMPTY.versions, d) == {};
      }
    } else {
      var before := Run(events[..|events| - 1]);
      EveryRunKeepsInvariant(events[..|events| - 1]);
      var e := events[|events| - 1];
      if !e.fault && Accepts(before, e.tx) { EffectKeepsInv(before, e.tx); }
    }
  }
}
