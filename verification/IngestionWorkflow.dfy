/**
 The ingestion worker: activities retried after faults and lost acknowledgements, and the order the
 workflow runs them in.  What happens to each try is an argument.
 */
module IngestionWorkflow {
  import opened Common
  import opened ChunkIdentity
  import opened IngestionStore
  import opened IngestionSafety
  import opened IngestionHistory
  import opened IngestionDatabase
  import opened VectorIndex
  import opened VectorStore
  import opened Visibility

  const MAXIMUM_ATTEMPTS := 5

  /** What happens to a try of a transaction: it never arrives, its acknowledgement is lost after it has
      committed or been refused, or it is answered. */
  datatype Try = Lost | Unanswered | Answered

  /** The same for a try that updates points: it may also break off after so many. */
  datatype PointTry = PointTry(arrives: bool, cut: Option<nat>, answered: bool)

  /** What happens to every try of one workflow, to the steps between its activities, and which of the two
      reports ends it when it does not succeed. */
  datatype Fates = Fates(
    tx: (Tx, nat) -> Try, index: nat -> PointTry, activate: nat -> PointTry, broken: nat -> bool, cancelled: bool)

  ghost predicate IsAnswered(f: Fates, tx: Tx) {
    exists i: nat :: i < 5 && f.tx(tx, i) == Answered
  }

  ghost predicate Arrives(f: Fates, tx: Tx) {
    exists i: nat :: i < 5 && f.tx(tx, i) != Lost
  }

  predicate Clean(t: PointTry) {
    t.arrives && t.cut.None? && t.answered
  }

  /** The try puts that many points and is answered. */
  predicate Through(t: PointTry, n: nat) {
    t.arrives && Covers(t.cut, n) && t.answered
  }

  ghost predicate SomeClean(tries: nat -> PointTry) {
    exists i: nat :: i < 5 && Clean(tries(i))
  }

  function PointerOf(db: Db, d: Uuid): Option<Uuid> {
    if d in db.documents then db.documents[d].active else None
  }

  function ActiveRows(db: Db, d: Uuid): seq<ChunkRow> {
    if PointerOf(db, d).Some? then RowsOf(db, PointerOf(db, d).value) else []
  }

  /** The document's active pointer and the rows behind it are what they were. */
  predicate Undisturbed(db: Db, after: Db, d: Uuid) {
    PointerOf(after, d) == PointerOf(db, d) && ActiveRows(after, d) == ActiveRows(db, d)
  }

  /** Only the given documents may have moved; and no version is lost or changes hands. */
  ghost predicate Beside(db: Db, after: Db, moved: set<Uuid>) {
    && (forall d {:trigger Undisturbed(db, after, d)} :: d !in moved ==> Undisturbed(db, after, d))
    && (forall v, d, t {:trigger OwnsVersion(db, v, d, t)} :: OwnsVersion(db, v, d, t) ==> OwnsVersion(after, v, d, t))
  }

  lemma EffectBeside(db: Db, tx: Tx)
    requires Inv(db) && Accepts(db, tx) && !tx.Bury?
    ensures Beside(db, Effect(db, tx), if tx.Activate? then {tx.document} else {})
  {
    var e := IngestionStore.Event(tx, false);
    ApplyLater(db, e);
    forall d | !(tx.Activate? && tx.document == d) ensures Undisturbed(db, Effect(db, tx), d) {
      if d in db.documents { OnlyActivationMovesThePointer(db, e, d); } else { NewDocumentHasNoPointer(db, tx, d); }
    }
    forall v, d, t | OwnsVersion(db, v, d, t) ensures OwnsVersion(Effect(db, tx), v, d, t) {
      assert VersionLater(db, Effect(db, tx), v);
    }
  }

  lemma NewDocumentHasNoPointer(db: Db, tx: Tx, d: Uuid)
    requires Accepts(db, tx) && !tx.Bury? && !(tx.Activate? && tx.document == d) && d !in db.documents
    ensures PointerOf(Effect(db, tx), d).None?
  {
  }

  lemma BesideComposes(x: Db, y: Db, z: Db, first: set<Uuid>, second: set<Uuid>)
    requires Beside(x, y, first) && Beside(y, z, second)
    ensures Beside(x, z, first + second)
  {
    forall d | d !in first + second ensures Undisturbed(x, z, d) {
      assert Undisturbed(x, y, d) && Undisturbed(y, z, d);
    }
    forall v, d, t | OwnsVersion(x, v, d, t) ensures OwnsVersion(z, v, d, t) { assert OwnsVersion(y, v, d, t); }
  }

  lemma BesideHomed(db: Db, after: Db, moved: set<Uuid>, points: Points)
    requires Beside(db, after, moved) && Homed(db, points)
    ensures Homed(after, points)
  {
    forall id | id in points ensures HomedAt(after, points, id) { assert HomedAt(db, points, id); }
  }

  /** Every other document shows the points it showed. */
  ghost predicate Aside(points: Points, x: Points, document: string) {
    forall r: Row {:trigger VisibleVersioned(x, r)} ::
      r.document != document ==> VisibleVersioned(x, r) == VisibleVersioned(points, r)
  }

  /** The previous version's points or the new version's are all visible, and nothing else of the document. */
  predicate SeesOldOrNew(x: Points, r: Row, before: set<string>, after: set<string>) {
    && (before <= VisibleVersioned(x, r) || after <= VisibleVersioned(x, r))
    && VisibleVersioned(x, r) <= before + after
  }

  lemma SameVisibleSameVersioned(points: Points, x: Points, r: Row)
    requires VisiblePoints(x) == VisiblePoints(points)
    ensures VisibleVersioned(x, r) == VisibleVersioned(points, r)
  {
    forall id ensures id in VisibleVersioned(x, r) <==> id in VisibleVersioned(points, r) {
      assert id in VisiblePoints(x) <==> id in VisiblePoints(points);
      assert id in VisiblePoints(x) ==> VisiblePoints(x)[id] == x[id];
      assert id in VisiblePoints(points) ==> VisiblePoints(points)[id] == points[id];
    }
  }

  /** The version has no points but these. */
  ghost predicate OnlyThese(points: Points, tenant: string, version: string, ids: seq<string>) {
    forall id :: id in points && points[id].tenant == tenant && points[id].version == Some(version) ==> id in ids
  }

  predicate AllDifferent(ids: seq<string>) {
    forall i, j :: 0 <= i < j < |ids| ==> ids[i] != ids[j]
  }

  /** The point is one of the items, under its own id, or the one that was there. */
  ghost predicate PutOrKept(base: Points, ids: seq<string>, items: seq<Point>, x: Points, id: string)
    requires |ids| == |items| && id in x
  {
    (exists i :: 0 <= i < |ids| && ids[i] == id && items[i] == x[id]) || (id in base && x[id] == base[id])
  }

  lemma {:induction false} UpsertedHolds(points: Points, ids: seq<string>, items: seq<Point>, k: nat)
    requires |ids| == |items| && k <= |ids|
    requires AllDifferent(ids)
    ensures var x := Upserted(points, ids[..k], items[..k]);
            && (forall i :: 0 <= i < k ==> ids[i] in x && x[ids[i]] == items[i])
            && (forall id {:trigger PutOrKept(points, ids, items, x, id)} :: id in x ==>
                    PutOrKept(points, ids, items, x, id))
  {
    if k > 0 {
      UpsertedHolds(points, ids, items, k - 1);
      assert ids[..k][..k - 1] == ids[..k - 1] && items[..k][..k - 1] == items[..k - 1];
      var before, x := Upserted(points, ids[..k - 1], items[..k - 1]), Upserted(points, ids[..k], items[..k]);
      forall id | id in x ensures PutOrKept(points, ids, items, x, id) {
        if id != ids[k - 1] { assert PutOrKept(points, ids, items, before, id); }
      }
    }
  }

  /** The identities of one version's chunks. */
  function VersionIds(tenant: string, document: string, version: string, filename: string,
                      chunks: seq<Chunk>): seq<string> {
    PointIds(ChunkPoints(tenant, document, version, filename, chunks))
  }

  lemma VersionIdsDiffer(tenant: string, document: string, version: string, filename: string, chunks: seq<Chunk>)
    requires IsUuid(tenant) && IsUuid(version)
    ensures AllDifferent(VersionIds(tenant, document, version, filename, chunks))
  {
    var ids := VersionIds(tenant, document, version, filename, chunks);
    forall i, j | 0 <= i < j < |ids| ensures ids[i] != ids[j] {
      if ids[i] == ids[j] {
        IdentityInjective(tenant, filename, chunks[i].page, i, Some(version), tenant, filename, chunks[j].page, j,
                Some(version));
      }
    }
  }

  class Worker {
    const db: Tables
    const store: Collection

    constructor (db: Tables, store: Collection)
      ensures this.db == db && this.store == store
    {
      this.db, this.store := db, store;
    }

    /** One try of a transaction that reaches PostgreSQL. */
    method Commit(tx: Tx) returns (committed: bool)
      requires db.Valid()
      modifies db
      ensures db.Valid()
      ensures committed == Accepts(old(db.View()), tx)
      ensures db.View() == Apply(old(db.View()), IngestionStore.Event(tx, false))
    {
      match tx
      case Register(document, attempt, version, storage, sha, filename, tenant, workflow) =>
        committed := db.RegisterIngestion(document, attempt, version, storage, sha, filename, tenant, workflow);
      case UpdateStage(document, attempt, tenant, stage) =>
        committed := db.UpdateIngestionStage(document, attempt, tenant, stage);
      case Persist(chunks, filename, tenant, document, version) =>
        committed := db.PersistChunks(chunks, filename, tenant, document, version);
      case Activate(document, version, tenant) =>
        committed := db.ActivateVersion(document, version, tenant);
      case Finish(document, attempt, version, tenant, status, error) =>
        committed := db.FinishAttempt(document, attempt, version, tenant, status, error);
      case Bury(document, tenant, reason) =>
        committed := db.TombstoneDocument(document, tenant, reason);
      case MarkReconciled =>
        db.RepairAttempts();
        committed := true;
    }

    /** An activity that is one transaction: tried up to five times; a try may never arrive, and
        its acknowledgement may be lost after it has committed. */
    method Execute(tx: Tx, f: Fates) returns (ok: bool)
      requires db.Valid()
      modifies db
      ensures db.Valid()
      ensures ok <==> Accepts(old(db.View()), tx) && IsAnswered(f, tx)
      ensures db.View() == if Accepts(old(db.View()), tx) && Arrives(f, tx) then Effect(old(db.View()), tx)
                           else old(db.View())
    {
      ghost var start := db.View();
      if Accepts(start, tx) { RepeatingChangesNothing(start, tx); }
      var tries := 0;
      ok := false;
      while tries < MAXIMUM_ATTEMPTS && !ok
        invariant db.Valid() && 0 <= tries <= MAXIMUM_ATTEMPTS
        invariant ok <==> Accepts(start, tx) && exists i: nat :: i < tries && f.tx(tx, i) == Answered
        invariant db.View() == if Accepts(start, tx) && exists i: nat :: i < tries && f.tx(tx, i) != Lost
                               then Effect(start, tx) else start
      {
        if f.tx(tx, tries) != Lost {
          var committed := Commit(tx);
          ok := committed && f.tx(tx, tries) == Answered;
        }
        tries := tries + 1;
      }
    }

    /** One try of embed_and_index: an upsert that may break off anywhere. */
    method TryUpsert(tenant: string, version: string, ids: seq<string>, items: seq<Point>, cut: Option<nat>,
                     ghost base: Points)
      returns (done: bool)
      requires PreparedItems(tenant, version, ids, items)
      requires store.Valid() && StagedState(store.points, tenant, version, ids, items, base)
      modifies store
      ensures store.Valid() && StagedState(store.points, tenant, version, ids, items, base)
      ensures old(store.trace) <= store.trace
      ensures forall i :: |old(store.trace)| <= i < |store.trace| ==>
              VisiblePoints(store.trace[i]) == VisiblePoints(base)
      ensures done ==> Present(store.points, ids, items)
      ensures done <==> Covers(cut, |ids|)
    {
      ghost var points := store.points;
      done := store.Upsert(ids, items, cut);
      forall k: nat | k <= |ids|
        ensures StagedState(Upserted(points, ids[..k], items[..k]), tenant, version, ids, items, base)
      {
        UpsertKeepsStaged(points, tenant, version, ids, items, base, k);
      }
      if done {
        UpsertedHolds(points, ids, items, |ids|);
        assert ids[..|ids|] == ids && items[..|items|] == items;
      }
    }

    /** embed_and_index: tried up to five times. */
    method IndexVersion(tenant: string, version: string, ids: seq<string>, items: seq<Point>, f: Fates,
                        ghost base: Points)
      returns (ok: bool)
      requires PreparedItems(tenant, version, ids, items)
      requires store.Valid() && StagedState(store.points, tenant, version, ids, items, base)
      modifies store
      ensures store.Valid() && StagedState(store.points, tenant, version, ids, items, base)
      ensures old(store.trace) <= store.trace
      ensures forall i :: |old(store.trace)| <= i < |store.trace| ==>
              VisiblePoints(store.trace[i]) == VisiblePoints(base)
      ensures ok ==> Present(store.points, ids, items)
      ensures ok <==> exists i: nat :: i < 5 && Through(f.index(i), |ids|)
    {
      var tries := 0;
      ok := false;
      while tries < MAXIMUM_ATTEMPTS && !ok
        invariant store.Valid() && StagedState(store.points, tenant, version, ids, items, base)
        invariant old(store.trace) <= store.trace
        invariant forall i :: |old(store.trace)| <= i < |store.trace| ==>
                VisiblePoints(store.trace[i]) == VisiblePoints(base)
        invariant ok ==> Present(store.points, ids, items)
        invariant 0 <= tries <= MAXIMUM_ATTEMPTS
        invariant ok <==> exists i: nat :: i < tries && Through(f.index(i), |ids|)
      {
        if f.index(tries).arrives {
          var done := TryUpsert(tenant, version, ids, items, f.index(tries).cut, base);
          ok := done && f.index(tries).answered;
        }
        tries := tries + 1;
      }
    }

    /** One try of the activation: commit the pointer, then tell the vector store, which may break off. */
    method TryActivate(document: string, version: string, tenant: string, cut: Option<nat>, ghost change: Change)
      returns (done: bool)
      requires db.Valid() && store.Valid() && ReplacesIn(change, store.points)
      requires change.row == Row(document, tenant, change.row.filename, Some(version), false, true)
      requires document in db.documents ==> db.documents[document].filename == change.row.filename
      modifies db, store
      ensures db.Valid() && store.Valid() && ReplacesIn(change, store.points)
      ensures Thinned(old(store.points), store.points)
      ensures db.View() == Apply(old(db.View()), IngestionStore.Event(Activate(document, version, tenant), false))
      ensures !Accepts(old(db.View()), Activate(document, version, tenant)) ==>
                !done && store.points == old(store.points) && store.trace == old(store.trace)
      ensures old(store.trace) <= store.trace
      ensures forall i :: |old(store.trace)| <= i < |store.trace| ==> ReplacesIn(change, store.trace[i])
      ensures done ==> VisibleVersioned(store.points, change.row) == change.after
      ensures cut.None? ==> (done <==> Accepts(old(db.View()), Activate(document, version, tenant)))
    {
      var committed := db.ActivateVersion(document, version, tenant);
      if !committed { return false; }
      var r := Row(document, tenant, db.documents[document].filename, Some(version), false, true);
      assert r == change.row;
      ghost var points := store.points;
      done := store.ReconcileDocumentVersion(r, cut);
      forall x | During(points, r, x) ensures ReplacesIn(change, x) { DuringReplaces(change, points, x); }
      DuringThins(points, r, store.points);
      RowEndsExactly(points, r);
    }

    /** activate_ingestion_version, tried up to five times. */
    method ActivateVersion(document: string, version: string, tenant: string, f: Fates, ghost change: Change)
      returns (ok: bool)
      requires db.Valid() && store.Valid() && ReplacesIn(change, store.points)
      requires change.row == Row(document, tenant, change.row.filename, Some(version), false, true)
      requires document in db.documents ==> db.documents[document].filename == change.row.filename
      modifies db, store
      ensures db.Valid() && store.Valid() && ReplacesIn(change, store.points)
      ensures Thinned(old(store.points), store.points)
      ensures var tx := Activate(document, version, tenant); var start := old(db.View());
              || (!ok && db.View() == start && store.points == old(store.points) && store.trace == old(store.trace))
              || (Accepts(start, tx) && db.View() == Effect(start, tx))
      ensures old(store.trace) <= store.trace
      ensures forall i :: |old(store.trace)| <= i < |store.trace| ==> ReplacesIn(change, store.trace[i])
      ensures ok ==> VisibleVersioned(store.points, change.row) == change.after
      ensures Accepts(old(db.View()), Activate(document, version, tenant)) && SomeClean(f.activate) ==> ok
    {
      ghost var tx := Activate(document, version, tenant);
      ghost var start := db.View();
      if Accepts(start, tx) { RepeatingChangesNothing(start, tx); }
      var tries := 0;
      ok := false;
      while tries < MAXIMUM_ATTEMPTS && !ok
        invariant db.Valid() && store.Valid() && ReplacesIn(change, store.points)
        invariant Thinned(old(store.points), store.points)
        invariant document in db.documents ==> db.documents[document].filename == change.row.filename
        invariant (!ok && db.View() == start && store.points == old(store.points) && store.trace == old(store.trace))
                  || (Accepts(start, tx) && db.View() == Effect(start, tx))
        invariant old(store.trace) <= store.trace
        invariant forall i :: |old(store.trace)| <= i < |store.trace| ==> ReplacesIn(change, store.trace[i])
        invariant ok ==> VisibleVersioned(store.points, change.row) == change.after
        invariant 0 <= tries <= MAXIMUM_ATTEMPTS
        invariant !ok && Accepts(start, tx) ==> forall i: nat :: i < tries ==> !Clean(f.activate(i))
      {
        if f.activate(tries).arrives {
          var done := TryActivate(document, version, tenant, f.activate(tries).cut, change);
          ok := done && f.activate(tries).answered;
        }
        tries := tries + 1;
      }
    }

    /** A transaction that cannot move a pointer. */
    method ExecuteQuietly(tx: Tx, f: Fates) returns (ok: bool)
      requires db.Valid() && !tx.Activate? && !tx.Bury?
      modifies db
      ensures db.Valid() && Beside(old(db.View()), db.View(), {})
      ensures ok <==> Accepts(old(db.View()), tx) && IsAnswered(f, tx)
      ensures db.View() == if Accepts(old(db.View()), tx) && Arrives(f, tx) then Effect(old(db.View()), tx)
                           else old(db.View())
    {
      if Accepts(db.View(), tx) { EffectBeside(db.View(), tx); }
      ok := Execute(tx, f);
    }

    /** Everything the workflow does to the tables before the version is indexed. */
    method PrepareRows(u: Upload, chunks: seq<Chunk>, f: Fates) returns (registered: bool, ok: bool)
      requires db.Valid() && u.version !in db.versions
      modifies db
      ensures db.Valid() && Beside(old(db.View()), db.View(), {})
      ensures ok ==> registered && RowsReady(db.View(), u, chunks)
      ensures Welcome(old(db.View()), u, chunks) && TablesAnswer(f, u, chunks) ==> ok
      ensures Welcome(old(db.View()), u, chunks) && ok ==> CanGoOn(db.View(), u)
    {
      ok := false;
      ghost var start := db.View();
      registered := ExecuteQuietly(u.Registering(), f);
      if !registered { return; }
      ghost var known := db.View();
      if Welcome(start, u, chunks) { RegisteredGoesOn(start, u); }
      ok := RecordStages(u, f);
      BesideComposes(start, known, db.View(), {}, {});
      if !ok { return; }
      ghost var staged := db.View();
      ok := PersistRows(u, chunks, f);
      BesideComposes(start, staged, db.View(), {}, {});
    }

    /** persist_chunks and the stage after it. */
    method PersistRows(u: Upload, chunks: seq<Chunk>, f: Fates) returns (ok: bool)
      requires db.Valid() && OwnsDocument(db.View(), u.document, u.tenant)
              && OwnsVersion(db.View(), u.version, u.document, u.tenant)
      requires db.documents[u.document].filename == u.filename
      modifies db
      ensures db.Valid() && Beside(old(db.View()), db.View(), {})
      ensures ok ==> RowsReady(db.View(), u, chunks)
      ensures CanGoOn(old(db.View()), u) ==> PagesPositive(chunks) && RowsAnswer(f, u, chunks) ==> ok
      ensures CanGoOn(old(db.View()), u) && ok ==> CanGoOn(db.View(), u)
    {
      ghost var start := db.View();
      if CanGoOn(start, u) && PagesPositive(chunks) { SavedGoesOn(start, u, chunks); }
      ok := ExecuteQuietly(u.Saving(chunks), f);
      if !ok { return; }
      ghost var persisted := db.View();
      assert RowsReady(persisted, u, chunks);
      if CanGoOn(persisted, u) { StagedGoesOn(persisted, u, "indexing"); }
      ok := ExecuteQuietly(u.Staging("indexing"), f);
      BesideComposes(start, persisted, db.View(), {}, {});
    }

    /** The stages up to persisting. Detection, extraction and chunking touch no row; any of them may
        fail for good. */
    method RecordStages(u: Upload, f: Fates) returns (ok: bool)
      requires db.Valid() && OwnsDocument(db.View(), u.document, u.tenant)
              && OwnsVersion(db.View(), u.version, u.document, u.tenant)
      requires db.documents[u.document].filename == u.filename
      modifies db
      ensures db.Valid() && Beside(old(db.View()), db.View(), {})
      ensures ok ==>
        && OwnsDocument(db.View(), u.document, u.tenant) && OwnsVersion(db.View(), u.version, u.document, u.tenant)
        && db.documents[u.document].filename == u.filename
      ensures CanGoOn(old(db.View()), u) && StagesAnswer(f, u) ==> ok
      ensures CanGoOn(old(db.View()), u) && ok ==> CanGoOn(db.View(), u)
    {
      var stages := ["detecting", "extracting", "chunking", "persisting"];
      var i := 0;
      while i < |stages|
        invariant 0 <= i <= |stages|
        invariant db.Valid() && Beside(old(db.View()), db.View(), {})
        invariant OwnsDocument(db.View(), u.document, u.tenant)
                && OwnsVersion(db.View(), u.version, u.document, u.tenant)
        invariant db.documents[u.document].filename == u.filename
        invariant CanGoOn(old(db.View()), u) ==> CanGoOn(db.View(), u)
      {
        ghost var before := db.View();
        if CanGoOn(before, u) { StagedGoesOn(before, u, stages[i]); }
        ok := ExecuteQuietly(u.Staging(stages[i]), f);
        BesideComposes(old(db.View()), before, db.View(), {}, {});
        if !ok { return; }
        if f.broken(i) { return false; }
        i := i + 1;
      }
      ok := true;
    }

    /** IngestDocumentWorkflow.run for a tracked upload. */
    method IngestDocument(u: Upload, chunks: seq<Chunk>, f: Fates) returns (ok: bool)
      requires db.Valid() && store.Valid() && WellKeyed(store.points) && Homed(db.View(), store.points)
      requires IsUuid(u.tenant) && IsUuid(u.version) && u.version !in db.versions
      requires VisibleVersioned(store.points, u.Row())
            == OfVersion(store.points, u.Row(), PointerOf(db.View(), u.document))
      modifies db, store
      ensures db.Valid() && store.Valid() && WellKeyed(store.points) && Homed(db.View(), store.points)
      ensures Beside(old(db.View()), db.View(), {u.document})
      ensures PointerOf(db.View(), u.document) in {PointerOf(old(db.View()), u.document), Some(u.version)}
      ensures PointerOf(db.View(), u.document) != Some(u.version) ==>
                && Undisturbed(old(db.View()), db.View(), u.document)
                && VisiblePoints(store.points) == VisiblePoints(old(store.points))
      ensures ok ==> Published(u, chunks, db.View(), store.points)
      ensures Between(u, chunks, old(store.points), store.points)
      ensures old(store.trace) <= store.trace
      ensures forall i :: |old(store.trace)| <= i < |store.trace| ==>
              Between(u, chunks, old(store.points), store.trace[i])
      ensures Welcome(old(db.View()), u, chunks) && TablesAnswer(f, u, chunks) && PointsAnswer(f) ==> ok
    {
      ghost var start, change := db.View(), u.Change(PointerOf(db.View(), u.document), store.points, chunks);
      PointersExist(start, u.document);
      var registered, prepared := PrepareRows(u, chunks, f);
      ghost var ready := db.View();
      assert Undisturbed(start, ready, u.document);
      BesideHomed(start, ready, {}, store.points);
      BesideWider(start, ready, {u.document});
      if !registered { return false; }
      ok := prepared;
      if ok {
        NoPointsYet(start, store.points, u.tenant, u.version);
        ok := PublishVersion(u, chunks, f, change);
        BesideComposes(start, ready, db.View(), {}, {u.document});
      }
      if !ok {
        ghost var failed := db.View();
        ReportFailure(u, f);
        assert Undisturbed(failed, db.View(), u.document);
        BesideHomed(failed, db.View(), {}, store.points);
        BesideComposes(start, failed, db.View(), {u.document}, {});
      }
    }

    /** From persisted rows to the finished attempt: index, activate, finish. */
    method PublishVersion(u: Upload, chunks: seq<Chunk>, f: Fates, ghost change: Change) returns (ok: bool)
      requires db.Valid() && store.Valid() && RowsReady(db.View(), u, chunks)
      requires WellKeyed(store.points) && Homed(db.View(), store.points) && IsUuid(u.tenant) && IsUuid(u.version)
      requires OnlyThese(store.points, u.tenant, u.version, []) && change.previous != Some(u.version)
      requires change == u.Change(change.previous, store.points, chunks)
      requires change.before == OfVersion(store.points, u.Row(), change.previous)
      modifies db, store
      ensures db.Valid() && store.Valid() && WellKeyed(store.points) && Homed(db.View(), store.points)
      ensures Beside(old(db.View()), db.View(), {u.document})
      ensures PointerOf(db.View(), u.document) == Some(u.version)
              || (!ok && db.View() == old(db.View()) && VisiblePoints(store.points) == VisiblePoints(old(store.points)))
      ensures ok ==> Published(u, chunks, db.View(), store.points)
      ensures Between(u, chunks, old(store.points), store.points)
      ensures old(store.trace) <= store.trace
      ensures forall i :: |old(store.trace)| <= i < |store.trace| ==>
              Between(u, chunks, old(store.points), store.trace[i])
      ensures CanGoOn(old(db.View()), u) && PointsAnswer(f) && IsAnswered(f, u.Finishing()) ==> ok
    {
      ghost var start := db.View();
      BesideItself(start, {u.document});
      ok := IndexStaged(u, chunks, f, change);
      if !ok { return; }
      ok := Switch(u, chunks, f, change);
      if !ok { return; }
      ghost var switched := db.View();
      ok := RecordIndexed(u, chunks, f);
      BesideHomed(switched, db.View(), {}, store.points);
      BesideComposes(start, switched, db.View(), {u.document}, {});
    }

    /** The activation of an indexed version. */
    method Switch(u: Upload, chunks: seq<Chunk>, f: Fates, ghost change: Change) returns (ok: bool)
      requires db.Valid() && store.Valid() && RowsReady(db.View(), u, chunks) && ReplacesIn(change, store.points)
      requires WellKeyed(store.points) && Homed(db.View(), store.points)
      requires change == u.Change(change.previous, change.base, chunks) && AllQuote(u, chunks, store.points)
      modifies db, store
      ensures db.Valid() && store.Valid() && WellKeyed(store.points) && Homed(db.View(), store.points)
      ensures Beside(old(db.View()), db.View(), {u.document})
      ensures (PointerOf(db.View(), u.document) == Some(u.version) && RowsReady(db.View(), u, chunks))
              || (!ok && db.View() == old(db.View()) && store.points == old(store.points))
      ensures ok ==> PointerOf(db.View(), u.document) == Some(u.version)
                     && VisibleVersioned(store.points, u.Row()) == change.after
                     && AllQuote(u, chunks, store.points)
      ensures ReplacesIn(change, store.points) && old(store.trace) <= store.trace
      ensures forall i :: |old(store.trace)| <= i < |store.trace| ==> ReplacesIn(change, store.trace[i])
      ensures CanGoOn(old(db.View()), u) && SomeClean(f.activate) ==> ok
      ensures CanGoOn(old(db.View()), u) && ok ==> CanFinish(db.View(), u)
    {
      ghost var start, tx := db.View(), Activate(u.document, u.version, u.tenant);
      if CanGoOn(start, u) { SwitchedGoesOn(start, u); }
      ActivateKeepsReady(start, u, chunks);
      if Accepts(start, tx) { EffectBeside(start, tx); }
      BesideItself(start, {u.document});
      ok := ActivateVersion(u.document, u.version, u.tenant, f, change);
      ThinnedHomed(start, old(store.points), store.points);
      BesideHomed(start, db.View(), {u.document}, store.points);
      ThinnedWellKeyed(old(store.points), store.points);
      ThinnedQuotes(u, chunks, old(store.points), store.points);
    }

    method RecordIndexed(u: Upload, chunks: seq<Chunk>, f: Fates) returns (ok: bool)
      requires db.Valid() && RowsReady(db.View(), u, chunks)
      requires PointerOf(db.View(), u.document) == Some(u.version)
      requires VisibleVersioned(store.points, u.Row()) == OfVersion(store.points, u.Row(), Some(u.version))
            == ChunkIds(u, chunks)
      requires AllQuote(u, chunks, store.points)
      modifies db
      ensures db.Valid() && Beside(old(db.View()), db.View(), {}) && PointerOf(db.View(), u.document) == Some(u.version)
      ensures ok ==> Published(u, chunks, db.View(), store.points)
      ensures CanFinish(old(db.View()), u) && IsAnswered(f, u.Finishing()) ==> ok
    {
      ok := ExecuteQuietly(u.Finishing(), f);
      assert Undisturbed(old(db.View()), db.View(), u.document);
      if ok { VisibleCites(db.View(), u, chunks, store.points); }
    }

    /** The failure and cancellation paths; a refusal to record them is only logged. */
    method ReportFailure(u: Upload, f: Fates)
      requires db.Valid()
      modifies db
      ensures db.Valid() && Beside(old(db.View()), db.View(), {})
      ensures CanFinish(old(db.View()), u) && Accepts(old(db.View()), u.Reporting(f.cancelled)) ==>
                Arrives(f, u.Reporting(f.cancelled)) ==>
                  && u.attempt in db.attempts
                  && db.attempts[u.attempt].status == if f.cancelled then Cancelled else Failed
    {
      var _ := ExecuteQuietly(u.Reporting(f.cancelled), f);
    }

    /** Indexing shows nothing; once it is complete the version is ready to take over. */
    method IndexStaged(u: Upload, chunks: seq<Chunk>, f: Fates, ghost change: Change) returns (ok: bool)
      requires store.Valid() && WellKeyed(store.points) && IsUuid(u.tenant) && IsUuid(u.version)
      requires OwnsVersion(db.View(), u.version, u.document, u.tenant) && Homed(db.View(), store.points)
      requires OnlyThese(store.points, u.tenant, u.version, []) && change.previous != Some(u.version)
      requires change == u.Change(change.previous, store.points, chunks)
      requires change.before == OfVersion(store.points, u.Row(), change.previous)
      modifies store
      ensures store.Valid() && WellKeyed(store.points) && Homed(db.View(), store.points)
      ensures VisiblePoints(store.points) == VisiblePoints(old(store.points))
      ensures Between(u, chunks, old(store.points), store.points)
      ensures old(store.trace) <= store.trace
      ensures forall i :: |old(store.trace)| <= i < |store.trace| ==>
              Between(u, chunks, old(store.points), store.trace[i])
      ensures ok ==> ReplacesIn(change, store.points) && AllQuote(u, chunks, store.points)
      ensures SomeClean(f.index) ==> ok
    {
      ghost var base := store.points;
      var items := ChunkPoints(u.tenant, u.document, u.version, u.filename, chunks);
      var ids := PointIds(items);
      VersionIdsDiffer(u.tenant, u.document, u.version, u.filename, chunks);
      assert ids == VersionIds(u.tenant, u.document, u.version, u.filename, chunks);
      ok := IndexVersion(u.tenant, u.version, ids, items, f, base);
      forall i | |old(store.trace)| <= i < |store.trace| ensures Between(u, chunks, base, store.trace[i]) {
        SameVisibleBetween(u, chunks, base, store.trace[i]);
      }
      SameVisibleBetween(u, chunks, base, store.points);
      StagedHomed(db.View(), u, ids, items, base, store.points);
      if ok {
        StagedReady(u, chunks, change, base, store.points, ids, items);
        PresentQuotes(u, chunks, store.points, ids, items);
      }
    }
  }

  /** What a store may look like while a version takes over: its document shows the old points or all of
      the new ones, and every other document what it showed. */
  ghost predicate Between(u: Upload, chunks: seq<Chunk>, base: Points, x: Points) {
    SeesOldOrNew(x, u.Row(), VisibleVersioned(base, u.Row()), ChunkIds(u, chunks)) && Aside(base, x, u.document)
  }

  lemma SameVisibleBetween(u: Upload, chunks: seq<Chunk>, base: Points, x: Points)
    requires VisiblePoints(x) == VisiblePoints(base)
    ensures Between(u, chunks, base, x)
  {
    forall r: Row ensures VisibleVersioned(x, r) == VisibleVersioned(base, r) { SameVisibleSameVersioned(base, x, r); }
  }

  lemma BesideItself(db: Db, moved: set<Uuid>)
    ensures Beside(db, db, moved)
  {
  }

  lemma BesideWider(db: Db, after: Db, moved: set<Uuid>)
    requires Beside(db, after, {})
    ensures Beside(db, after, moved)
  {
  }

  /** A version the tables do not know has no points. */
  lemma NoPointsYet(db: Db, points: Points, tenant: string, version: string)
    requires Homed(db, points) && version !in db.versions
    ensures OnlyThese(points, tenant, version, [])
  {
    forall id | id in points ensures points[id].version != Some(version) { assert HomedAt(db, points, id); }
  }

  lemma ThinnedWellKeyed(points: Points, x: Points)
    requires WellKeyed(points) && Thinned(points, x)
    ensures WellKeyed(x)
  {
    forall id | id in x ensures KeyedRight(id, x[id]) { assert KeyedRight(id, points[id]); }
  }

  lemma StagedHomed(db: Db, u: Upload, ids: seq<string>, items: seq<Point>, base: Points, x: Points)
    requires Homed(db, base) && OwnsVersion(db, u.version, u.document, u.tenant) && |ids| == |items|
    requires forall i :: 0 <= i < |items| ==>
               items[i].tenant == u.tenant && items[i].document == Some(u.document)
                       && items[i].version == Some(u.version)
    requires forall id :: id in x ==> PutOrKept(base, ids, items, x, id)
    ensures Homed(db, x)
  {
    forall id | id in x ensures HomedAt(db, x, id) {
      assert PutOrKept(base, ids, items, x, id);
      assert id in base ==> HomedAt(db, base, id);
    }
  }

  /** One version taking over from another: the points each of them has. */
  datatype Change = Takeover(row: Row, previous: Option<string>, base: Points, before: set<string>, after: set<string>)

  ghost predicate ReplacesIn(c: Change, x: Points) {
    && !c.row.deleted
    && OfVersion(x, c.row, c.previous) == c.before && OfVersion(x, c.row, c.row.active) == c.after
    && SeesOldOrNew(x, c.row, c.before, c.after) && Aside(c.base, x, c.row.document)
  }

  lemma DuringReplaces(c: Change, points: Points, x: Points)
    requires ReplacesIn(c, points) && During(points, c.row, x)
    ensures ReplacesIn(c, x)
  {
    ActivationNeverHidesBoth(points, c.row, c.previous, x);
    DuringKeepsPoints(points, c.row, x);
    forall r: Row | r.document != c.row.document ensures VisibleVersioned(x, r) == VisibleVersioned(c.base, r) {
      DuringElsewhere(points, c.row, x, r);
    }
  }

  /** The prepared upsert of one staged version. */
  ghost predicate PreparedItems(tenant: string, version: string, ids: seq<string>, items: seq<Point>) {
    && IsUuid(tenant) && IsUuid(version)
    && ids == PointIds(items)
    && (forall i :: 0 <= i < |items| ==>
          items[i].tenant == tenant && items[i].version == Some(version) && !items[i].active)
    && AllDifferent(ids)
  }

  /** The store while a version is being upserted onto a base: nothing of the version is shown,
      searches see what they saw, and only the version's ids have changed. */
  ghost predicate StagedState(x: Points, tenant: string, version: string, ids: seq<string>, items: seq<Point>,
                              base: Points)
    requires |ids| == |items|
  {
    && WellKeyed(x) && NotShown(x, tenant, version) && OnlyThese(x, tenant, version, ids)
    && VisiblePoints(x) == VisiblePoints(base)
    && (forall id {:trigger PutOrKept(base, ids, items, x, id)} :: id in x ==> PutOrKept(base, ids, items, x, id))
  }

  ghost predicate Present(x: Points, ids: seq<string>, items: seq<Point>)
    requires |ids| == |items|
  {
    forall i :: 0 <= i < |ids| ==> ids[i] in x && x[ids[i]] == items[i]
  }

  lemma UpsertKeepsStaged(points: Points, tenant: string, version: string, ids: seq<string>, items: seq<Point>,
                          base: Points, k: nat)
    requires PreparedItems(tenant, version, ids, items) && k <= |ids|
    requires StagedState(points, tenant, version, ids, items, base)
    ensures StagedState(Upserted(points, ids[..k], items[..k]), tenant, version, ids, items, base)
  {
    StagedUpsertIsInvisible(points, tenant, version, items, k);
    UpsertedHolds(points, ids, items, k);
    var x := Upserted(points, ids[..k], items[..k]);
    forall id | id in x
      ensures PutOrKept(base, ids, items, x, id)
      ensures x[id].tenant == tenant && x[id].version == Some(version) ==> id in ids
    {
      assert PutOrKept(points, ids, items, x, id);
      assert id in points ==> PutOrKept(base, ids, items, points, id);
    }
  }

  /** What the upload endpoint hands to the workflow. */
  datatype Upload = Upload(document: string, attempt: string, version: string, storage: string, sha: string,
                           filename: string, tenant: string, workflow: string)
  {
    function Row(): VectorIndex.Row {
      VectorIndex.Row(document, tenant, filename, Some(version), false, true)
    }

    function Registering(): Tx { Register(document, attempt, version, storage, sha, filename, tenant, workflow) }

    function Staging(stage: string): Tx { UpdateStage(document, attempt, tenant, stage) }

    function Saving(chunks: seq<Chunk>): Tx { Persist(chunks, filename, tenant, document, version) }

    function Switching(): Tx { Activate(document, version, tenant) }

    function Finishing(): Tx { Finish(document, attempt, version, tenant, Indexed, None) }

    /** How a workflow that does not succeed is recorded. */
    function Reporting(cancelled: bool): Tx {
      if cancelled then Finish(document, attempt, version, tenant, Cancelled, Some("workflow_cancelled"))
      else Finish(document, attempt, version, tenant, Failed, Some(RECOVERABLE_ERROR))
    }

    /** The takeover this upload is to make from what a search sees at its start. */
    function Change(previous: Option<string>, points: Points, chunks: seq<Chunk>): Change {
      Takeover(Row(), previous, points, VisibleVersioned(points, Row()), ChunkIds(this, chunks))
    }
  }

  // ---------------------------------------------------------------- when an upload goes through

  predicate PagesPositive(chunks: seq<Chunk>) {
    forall i :: 0 <= i < |chunks| ==> chunks[i].page > 0
  }

  /** The tables have a place for the upload: nobody else's ids, and an attempt that is new or still running. */
  ghost predicate Welcome(db: Db, u: Upload, chunks: seq<Chunk>) {
    && Accepts(db, u.Registering()) && PagesPositive(chunks) && u.version !in db.versions
    && (u.attempt in db.attempts ==> db.attempts[u.attempt].status in {Queued, Processing})
  }

  ghost predicate StagesAnswer(f: Fates, u: Upload) {
    && (forall stage :: stage in STAGES ==> IsAnswered(f, u.Staging(stage)))
    && (forall i: nat :: i < 4 ==> !f.broken(i))
  }

  ghost predicate RowsAnswer(f: Fates, u: Upload, chunks: seq<Chunk>) {
    IsAnswered(f, u.Saving(chunks)) && IsAnswered(f, u.Staging("indexing"))
  }

  /** Every transaction of the workflow is answered in one of its five tries. */
  ghost predicate TablesAnswer(f: Fates, u: Upload, chunks: seq<Chunk>) {
    && IsAnswered(f, u.Registering()) && StagesAnswer(f, u) && RowsAnswer(f, u, chunks)
    && IsAnswered(f, u.Finishing())
  }

  ghost predicate PointsAnswer(f: Fates) {
    SomeClean(f.index) && SomeClean(f.activate)
  }

  predicate CanFinish(db: Db, u: Upload) {
    OwnsAttempt(db, u.attempt, u.document, u.tenant) && db.attempts[u.attempt].status in {Queued, Processing}
  }

  /** The upload is registered and nothing has ended it. */
  predicate CanGoOn(db: Db, u: Upload) {
    && CanFinish(db, u)
    && OwnsDocument(db, u.document, u.tenant) && db.documents[u.document].status in {DocQueued, DocProcessing}
    && OwnsVersion(db, u.version, u.document, u.tenant) && db.versions[u.version].status.Staged?
  }

  lemma RegisteredGoesOn(db: Db, u: Upload)
    requires Inv(db) && Accepts(db, u.Registering()) && u.version !in db.versions
    requires u.attempt in db.attempts ==> db.attempts[u.attempt].status in {Queued, Processing}
    ensures CanGoOn(Effect(db, u.Registering()), u)
  {
  }

  lemma StagedGoesOn(db: Db, u: Upload, stage: string)
    requires CanGoOn(db, u) && stage in STAGES
    ensures Accepts(db, u.Staging(stage)) && CanGoOn(Effect(db, u.Staging(stage)), u)
  {
  }

  lemma SavedGoesOn(db: Db, u: Upload, chunks: seq<Chunk>)
    requires CanGoOn(db, u) && PagesPositive(chunks)
    ensures Accepts(db, u.Saving(chunks)) && CanGoOn(Effect(db, u.Saving(chunks)), u)
  {
  }

  lemma SwitchedGoesOn(db: Db, u: Upload)
    requires CanGoOn(db, u)
    ensures Accepts(db, u.Switching()) && CanFinish(Effect(db, u.Switching()), u)
  {
  }

  /** The point carries one of the upload's chunks: its page and its text, under its position. */
  predicate Quotes(u: Upload, chunks: seq<Chunk>, p: Point) {
    && p.index < |chunks| && p.page == chunks[p.index].page && p.text == chunks[p.index].text
    && p.tenant == u.tenant && p.filename == u.filename && p.document == Some(u.document)
    && p.version == Some(u.version)
  }

  ghost predicate AllQuote(u: Upload, chunks: seq<Chunk>, points: Points) {
    forall id :: id in OfVersion(points, u.Row(), Some(u.version)) ==> Quotes(u, chunks, points[id])
  }

  lemma ThinnedQuotes(u: Upload, chunks: seq<Chunk>, points: Points, x: Points)
    requires AllQuote(u, chunks, points) && Thinned(points, x)
    ensures AllQuote(u, chunks, x)
  {
    forall id | id in OfVersion(x, u.Row(), Some(u.version)) ensures Quotes(u, chunks, x[id]) {
      assert id in OfVersion(points, u.Row(), Some(u.version));
    }
  }

  /** What is quoted from the chunks is cited from the rows that were made of them. */
  lemma QuotesAreCited(db: Db, u: Upload, chunks: seq<Chunk>, p: Point)
    requires Quotes(u, chunks, p) && RowsOf(db, u.version) == Rows(chunks, u.filename)
    ensures Cites(db, p)
  {
  }

  function ChunkIds(u: Upload, chunks: seq<Chunk>): set<string> {
    set i | 0 <= i < |chunks| :: Identity(u.tenant, u.filename, chunks[i].page, i, Some(u.version))
  }

  /** The upload is live: it is its document's pointer, the rows behind the pointer are its chunks,
      a search sees exactly those rows' points, each with the text and page of its row, and the attempt is
      recorded as indexed. */
  ghost predicate Published(u: Upload, chunks: seq<Chunk>, db: Db, points: Points) {
    && PointerOf(db, u.document) == Some(u.version)
    && RowsOf(db, u.version) == Rows(chunks, u.filename)
    && VisibleVersioned(points, u.Row()) == RowIds(db, u.version)
    && (forall id :: id in VisibleVersioned(points, u.Row()) ==> Cites(db, points[id]))
    && u.attempt in db.attempts && db.attempts[u.attempt].status.Indexed?
  }

  /** The version is staged for its document and its rows are the given chunks. */
  ghost predicate RowsReady(db: Db, u: Upload, chunks: seq<Chunk>) {
    && OwnsDocument(db, u.document, u.tenant) && db.documents[u.document].filename == u.filename
    && OwnsVersion(db, u.version, u.document, u.tenant)
    && RowsOf(db, u.version) == Rows(chunks, u.filename)
  }

  lemma ActivateKeepsReady(db: Db, u: Upload, chunks: seq<Chunk>)
    requires RowsReady(db, u, chunks)
    ensures var tx := Activate(u.document, u.version, u.tenant);
            Accepts(db, tx) ==>
              RowsReady(Effect(db, tx), u, chunks) && PointerOf(Effect(db, tx), u.document) == Some(u.version)
  {
  }

  lemma PointersExist(db: Db, d: Uuid)
    requires Inv(db)
    ensures PointerOf(db, d).Some? ==> PointerOf(db, d).value in db.versions
  {
    assert d in db.documents ==> DocumentOk(db, d);
  }

  lemma RowIdsAreChunkIds(db: Db, u: Upload, chunks: seq<Chunk>)
    requires RowsReady(db, u, chunks)
    ensures RowIds(db, u.version) == ChunkIds(u, chunks)
  {
    forall i | 0 <= i < |chunks|
      ensures Identity(u.tenant, u.filename, chunks[i].page, i, Some(u.version)) in RowIds(db, u.version)
    {
      assert RowsOf(db, u.version)[i] == ChunkRow(u.filename, chunks[i].page, i, chunks[i].text);
    }
  }

  lemma VisibleCites(db: Db, u: Upload, chunks: seq<Chunk>, points: Points)
    requires RowsReady(db, u, chunks) && AllQuote(u, chunks, points)
    requires VisibleVersioned(points, u.Row()) == OfVersion(points, u.Row(), Some(u.version)) == ChunkIds(u, chunks)
    ensures VisibleVersioned(points, u.Row()) == RowIds(db, u.version)
    ensures forall id :: id in VisibleVersioned(points, u.Row()) ==> Cites(db, points[id])
  {
    RowIdsAreChunkIds(db, u, chunks);
  }

  /** After a complete upsert the document's points are the base's and the new version's. */
  lemma StagedReady(u: Upload, chunks: seq<Chunk>, change: Change, base: Points, x: Points, ids: seq<string>,
                    items: seq<Point>)
    requires items == ChunkPoints(u.tenant, u.document, u.version, u.filename, chunks) && ids == PointIds(items)
    requires StagedState(x, u.tenant, u.version, ids, items, base) && Present(x, ids, items)
    requires change == u.Change(change.previous, base, chunks) && change.previous != Some(u.version)
    requires change.before == OfVersion(base, u.Row(), change.previous)
    ensures ReplacesIn(change, x)
  {
    SameVisibleBetween(u, chunks, base, x);
    SameVisibleSameVersioned(base, x, u.Row());
    NewPointsAreChunks(u, chunks, x, ids, items);
    OldPointsAreKept(u, change.previous, base, x, ids, items);
  }

  lemma NewPointsAreChunks(u: Upload, chunks: seq<Chunk>, x: Points, ids: seq<string>, items: seq<Point>)
    requires items == ChunkPoints(u.tenant, u.document, u.version, u.filename, chunks) && ids == PointIds(items)
    requires OnlyThese(x, u.tenant, u.version, ids) && Present(x, ids, items)
    ensures OfVersion(x, u.Row(), Some(u.version)) == ChunkIds(u, chunks)
  {
    forall i | 0 <= i < |chunks|
      ensures ids[i] == Identity(u.tenant, u.filename, chunks[i].page, i, Some(u.version))
      ensures ids[i] in OfVersion(x, u.Row(), Some(u.version))
    {
    }
  }

  lemma PresentQuotes(u: Upload, chunks: seq<Chunk>, x: Points, ids: seq<string>, items: seq<Point>)
    requires items == ChunkPoints(u.tenant, u.document, u.version, u.filename, chunks) && ids == PointIds(items)
    requires OnlyThese(x, u.tenant, u.version, ids) && Present(x, ids, items)
    ensures AllQuote(u, chunks, x)
  {
    forall id | id in OfVersion(x, u.Row(), Some(u.version)) ensures Quotes(u, chunks, x[id]) {
      var i :| 0 <= i < |ids| && ids[i] == id;
      assert x[id] == items[i];
    }
  }

  lemma OldPointsAreKept(u: Upload, previous: Option<string>, base: Points, x: Points, ids: seq<string>,
                         items: seq<Point>)
    requires |ids| == |items| && Present(x, ids, items) && VisiblePoints(x) == VisiblePoints(base)
    requires forall i :: 0 <= i < |items| ==> items[i].version == Some(u.version)
    requires forall id :: id in x ==> PutOrKept(base, ids, items, x, id)
    requires previous != Some(u.version)
    requires VisibleVersioned(base, u.Row()) == OfVersion(base, u.Row(), previous)
    ensures OfVersion(x, u.Row(), previous) == OfVersion(base, u.Row(), previous)
  {
    forall id | id in OfVersion(base, u.Row(), previous) ensures id in OfVersion(x, u.Row(), previous) {
      assert id in VisibleVersioned(base, u.Row());
      assert id in VisiblePoints(base) && id in VisiblePoints(x) && VisiblePoints(x)[id] == VisiblePoints(base)[id];
    }
  }
}
