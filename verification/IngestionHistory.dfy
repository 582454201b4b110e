/**
 How ingestion rows may evolve: one-way statuses, frozen chunk rows, and transactions
 that may be repeated.
 */
module IngestionHistory {
  import opened Common
  import opened IngestionStore
  import opened IngestionSafety

  function RowsOf(db: Db, v: Uuid): seq<ChunkRow> {
    if v in db.chunks then db.chunks[v] else []
  }

  /** Staged may become anything; active may only step down; superseded and rejected are final. */
  predicate VersionStatusLater(before: VersionStatus, after: VersionStatus) {
    before == after || before.Staged? || (before.Active? && after.Superseded?)
  }

  ghost predicate VersionLater(db: Db, after: Db, v: Uuid)
    requires v in db.versions
  {
    && v in after.versions
    && var x, y := db.versions[v], after.versions[v];
       && y == x.(status := y.status, chunkCount := y.chunkCount)
       && VersionStatusLater(x.status, y.status)
       && (!x.status.Staged? ==> y.chunkCount == x.chunkCount && RowsOf(after, v) == RowsOf(db, v))
  }

  /** Indexed and cancelled attempts are final; a failed one can only become indexed. */
  ghost predicate AttemptLater(db: Db, after: Db, a: Uuid)
    requires a in db.attempts
  {
    && a in after.attempts
    && var x, y := db.attempts[a], after.attempts[a];
       && y == x.(status := y.status, stage := y.stage, error := y.error)
       && (x.status in {Indexed, Cancelled} ==> y == x)
       && (x.status.Failed? ==> y == x || y.status.Indexed?)
  }

  ghost predicate DocumentLater(db: Db, after: Db, d: Uuid)
    requires d in db.documents
  {
    && d in after.documents
    && after.documents[d].tenant == db.documents[d].tenant && after.documents[d].filename == db.documents[d].filename
    && (db.documents[d].status.DocDeleted? ==>
            after.documents[d].status.DocDeleted? && after.documents[d].active == db.documents[d].active)
  }

  ghost predicate Later(db: Db, after: Db) {
    && (forall v {:trigger VersionLater(db, after, v)} :: v in db.versions ==> VersionLater(db, after, v))
    && (forall a {:trigger AttemptLater(db, after, a)} :: a in db.attempts ==> AttemptLater(db, after, a))
    && (forall d {:trigger DocumentLater(db, after, d)} :: d in db.documents ==> DocumentLater(db, after, d))
  }

  lemma RegisterLater(db: Db, r: Tx)
    requires Inv(db) && r.Register? && AcceptsRegister(db, r)
    ensures Later(db, RegisterEffect(db, r))
  {
  }

  lemma FinishLater(db: Db, r: Tx)
    requires r.Finish? && AcceptsFinish(db, r)
    ensures Later(db, FinishEffect(db, r))
  {
    var after := FinishEffect(db, r);
    forall v | v in db.versions ensures VersionLater(db, after, v) {}
    forall a | a in db.attempts ensures AttemptLater(db, after, a) {}
    forall d | d in db.documents ensures DocumentLater(db, after, d) {}
  }

  lemma ActivateLater(db: Db, r: Tx)
    requires Inv(db) && r.Activate? && AcceptsActivate(db, r)
    ensures Later(db, ActivateEffect(db, r))
  {
    assert VersionOk(db, r.version);
  }

  lemma StageLater(db: Db, r: Tx)
    requires r.UpdateStage? && AcceptsStage(db, r)
    ensures Later(db, StageEffect(db, r))
  {
  }

  lemma PersistLater(db: Db, r: Tx)
    requires r.Persist? && AcceptsPersist(db, r)
    ensures Later(db, PersistEffect(db, r))
  {
  }

  lemma ReconcileLater(db: Db)
    ensures Later(db, ReconcileEffect(db))
  {
  }

  lemma BuryLater(db: Db, r: Tx)
    requires Inv(db) && r.Bury? && AcceptsBury(db, r)
    ensures Later(db, BuryEffect(db, r))
  {
  }

  lemma ApplyLater(db: Db, e: Event)
    requires Inv(db)
    ensures Later(db, Apply(db, e))
  {
    if !e.fault && Accepts(db, e.tx) {
      match e.tx
      case Register(_, _, _, _, _, _, _, _) => RegisterLater(db, e.tx);
      case Activate(_, _, _) => ActivateLater(db, e.tx);
      case Finish(_, _, _, _, _, _) => FinishLater(db, e.tx);
      case Bury(_, _, _) => BuryLater(db, e.tx);
      case UpdateStage(_, _, _, _) => StageLater(db, e.tx);
      case Persist(_, _, _, _, _) => PersistLater(db, e.tx);
      case MarkReconciled => ReconcileLater(db);
    }
  }

  lemma LaterComposes(x: Db, y: Db, z: Db)
    requires Later(x, y) && Later(y, z)
    ensures Later(x, z)
  {
    forall v | v in x.versions ensures VersionLater(x, z, v) { assert VersionLater(x, y, v) && VersionLater(y, z, v); }
    forall a | a in x.attempts ensures AttemptLater(x, z, a) { assert AttemptLater(x, y, a) && AttemptLater(y, z, a); }
    forall d | d in x.documents ensures DocumentLater(x, z, d) {
      assert DocumentLater(x, y, d) && DocumentLater(y, z, d);
    }
  }

  /** Between any two points of any run: versions only move forward, the rows of a version that
      left staging never change, finished attempts stay finished and deleted stays deleted. */
  lemma {:induction false} HistoryOnlyMovesForward(events: seq<Event>, i: nat, j: nat)
    requires i <= j <= |events|
    ensures Later(Run(events[..i]), Run(events[..j]))
    decreases j
  {
    if i == j {
      assert Later(Run(events[..i]), Run(events[..j]));
    } else {
      HistoryOnlyMovesForward(events, i, j - 1);
      EveryRunKeepsInvariant(events[..j - 1]);
      ApplyLater(Run(events[..j - 1]), events[j - 1]);
      assert events[..j][..|events[..j]| - 1] == events[..j - 1];
      LaterComposes(Run(events[..i]), Run(events[..j - 1]), Run(events[..j]));
    }
  }

  /** A failed attempt becomes indexed only by the reconciler, and only while a version of it
      is its document's active version. */
  lemma FailedBecomesIndexedOnlyByReconcile(db: Db, e: Event, a: Uuid)
    requires Inv(db) && a in db.attempts && db.attempts[a].status.Failed?
    requires a in Apply(db, e).attempts && Apply(db, e).attempts[a] != db.attempts[a]
    ensures e.tx.MarkReconciled? && Apply(db, e).attempts[a].status.Indexed? && Recoverable(db, a)
  {
    if !e.fault && Accepts(db, e.tx) && !e.tx.MarkReconciled? { FailedStaysOtherwise(db, e.tx, a); }
  }

  lemma FailedStaysOtherwise(db: Db, r: Tx, a: Uuid)
    requires Accepts(db, r) && !r.MarkReconciled? && a in db.attempts && db.attempts[a].status.Failed?
    ensures a in Effect(db, r).attempts && Effect(db, r).attempts[a] == db.attempts[a]
  {
  }

  // ---------------------------------------------------------------- repetition

  lemma RegisterTwice(db: Db, r: Tx)
    requires r.Register? && AcceptsRegister(db, r)
    ensures AcceptsRegister(RegisterEffect(db, r), r)
            && RegisterEffect(RegisterEffect(db, r), r) == RegisterEffect(db, r)
  {
    var once := RegisterEffect(db, r);
    if !WorkflowKnown(db.attempts, r.workflow) { assert once.attempts[r.attempt].workflow == r.workflow; }
    assert WorkflowKnown(once.attempts, r.workflow);
    assert RegisterEffect(once, r).documents == once.documents;
  }

  lemma StageTwice(db: Db, r: Tx)
    requires r.UpdateStage? && AcceptsStage(db, r)
    ensures AcceptsStage(StageEffect(db, r), r) && StageEffect(StageEffect(db, r), r) == StageEffect(db, r)
  {
  }

  lemma PersistTwice(db: Db, r: Tx)
    requires r.Persist? && AcceptsPersist(db, r)
    ensures AcceptsPersist(PersistEffect(db, r), r) && PersistEffect(PersistEffect(db, r), r) == PersistEffect(db, r)
  {
  }

  lemma ActivateTwice(db: Db, r: Tx)
    requires Inv(db) && r.Activate? && AcceptsActivate(db, r)
    ensures AcceptsActivate(ActivateEffect(db, r), r)
            && ActivateEffect(ActivateEffect(db, r), r) == ActivateEffect(db, r)
  {
  }

  lemma FinishTwice(db: Db, r: Tx)
    requires r.Finish? && AcceptsFinish(db, r)
    ensures AcceptsFinish(FinishEffect(db, r), r) && FinishEffect(FinishEffect(db, r), r) == FinishEffect(db, r)
  {
  }

  lemma BuryTwice(db: Db, r: Tx)
    requires r.Bury? && AcceptsBury(db, r)
    ensures AcceptsBury(BuryEffect(db, r), r) && BuryEffect(BuryEffect(db, r), r) == BuryEffect(db, r)
  {
  }

  lemma ReconcileTwice(db: Db)
    ensures ReconcileEffect(ReconcileEffect(db)) == ReconcileEffect(db)
  {
  }

  /** A retry after a lost acknowledgement commits again and changes nothing. */
  lemma RepeatingChangesNothing(db: Db, r: Tx)
    requires Inv(db) && Accepts(db, r)
    ensures Accepts(Effect(db, r), r) && Effect(Effect(db, r), r) == Effect(db, r)
  {
    match r
    case Register(_, _, _, _, _, _, _, _) => RegisterTwice(db, r);
    case UpdateStage(_, _, _, _) => StageTwice(db, r);
    case Persist(_, _, _, _, _) => PersistTwice(db, r);
    case Activate(_, _, _) => ActivateTwice(db, r);
    case Finish(_, _, _, _, _, _) => FinishTwice(db, r);
    case Bury(_, _, _) => BuryTwice(db, r);
    case MarkReconciled => ReconcileTwice(db);
  }

  // ---------------------------------------------------------------- non-disruption

  /** The active pointer of a document and the rows behind it. */
  ghost predicate SameView(db: Db, after: Db, d: Uuid)
    requires d in db.documents
  {
    && d in after.documents && after.documents[d].active == db.documents[d].active
    && (db.documents[d].active.Some? ==>
            RowsOf(after, db.documents[d].active.value) == RowsOf(db, db.documents[d].active.value))
  }

  /** Only an activation of the document or its deletion moves its pointer; everything else a
      workflow does, on any version and however it ends, leaves pointer and active rows alone. */
  lemma OnlyActivationMovesThePointer(db: Db, e: Event, d: Uuid)
    requires Inv(db) && d in db.documents
    requires !(e.tx.Activate? && e.tx.document == d) && !(e.tx.Bury? && e.tx.document == d)
    ensures SameView(db, Apply(db, e), d)
  {
    ApplyLater(db, e);
    assert DocumentOk(db, d);
    if db.documents[d].active.Some? { assert VersionLater(db, Apply(db, e), db.documents[d].active.value); }
    if !e.fault && Accepts(db, e.tx) { PointerFrame(db, e.tx, d); }
  }

  lemma PointerFrame(db: Db, r: Tx, d: Uuid)
    requires Accepts(db, r) && d in db.documents
    requires !(r.Activate? && r.document == d) && !(r.Bury? && r.document == d)
    ensures d in Effect(db, r).documents && Effect(db, r).documents[d].active == db.documents[d].active
  {
  }

  // ---------------------------------------------------------------- how an attempt ends

  /** An error code is recorded exactly when it is a short lower-case identifier, and dropped otherwise. */
  lemma SafeCodeKeeps(code: string)
    ensures SafeCode(Some(code)) in {Some(code), None} && SafeCode(None) == None
    ensures SafeCode(Some(code)) == Some(code) <==>
              1 <= |code| <= 64 && forall c :: c in code ==> 'a' <= c <= 'z' || '0' <= c <= '9' || c == '_'
  {
    assert forall i :: 0 <= i < |code| ==> code[i] in code;
  }

  /** The codes the workflow itself records are kept. */
  lemma WorkflowCodesAreKept()
    ensures SafeCode(Some("workflow_activity_failed")) == Some("workflow_activity_failed")
    ensures SafeCode(Some("workflow_cancelled")) == Some("workflow_cancelled")
  {
    SafeCodeKeeps("workflow_activity_failed");
    SafeCodeKeeps("workflow_cancelled");
  }

  /** A workflow that reports failure although its activation had committed: the attempt ends as failed, its
      live version stays the document's, and the next reconcile records that it did succeed. */
  lemma LostActivationIsRepaired(db: Db, r: Tx)
    requires Inv(db) && r.Finish? && r.status == Failed && r.error == Some("workflow_activity_failed")
    requires Accepts(db, r) && r.attempt in db.attempts && db.attempts[r.attempt].status in {Queued, Processing}
    requires PointsAt(db, r.document, r.tenant, r.version) && r.version in db.versions
    requires db.versions[r.version].attempt == r.attempt
    ensures var failed := Effect(db, r); var repaired := Effect(failed, MarkReconciled);
            && failed.documents == db.documents && failed.versions == db.versions
            && r.attempt in failed.attempts && failed.attempts[r.attempt].status == Failed
            && r.attempt in repaired.attempts && repaired.attempts[r.attempt].status == Indexed
            && repaired.attempts[r.attempt].error == None
  {
    WorkflowCodesAreKept();
    assert DocumentOk(db, r.document);
    var failed := Effect(db, r);
    assert failed.versions[r.version].attempt == r.attempt
           && PointsAt(failed, failed.versions[r.version].document, failed.versions[r.version].tenant, r.version);
  }

  /** A cancelled attempt is never counted as a success, however its version fared. */
  lemma CancelledStaysCancelled(events: seq<Event>, i: nat, j: nat, a: Uuid)
    requires i <= j <= |events| && a in Run(events[..i]).attempts
    requires Run(events[..i]).attempts[a].status in {Indexed, Cancelled}
    ensures a in Run(events[..j]).attempts && Run(events[..j]).attempts[a] == Run(events[..i]).attempts[a]
  {
    HistoryOnlyMovesForward(events, i, j);
    assert AttemptLater(Run(events[..i]), Run(events[..j]), a);
  }
}
