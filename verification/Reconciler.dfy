/**
 The reconciler: one pass of the vector store over every document row, then the repair of
 attempts.  A document that fails is skipped and fails the whole activity at the end.  What happens
 to each try is an argument.
 */
module Reconciler {
  import opened Common
  import opened IngestionStore
  import opened IngestionHistory
  import opened IngestionDatabase
  import opened VectorIndex
  import opened VectorStore
  import opened Visibility
  import opened IngestionWorkflow

  /** What happens to one try: where the update of each document breaks off, whether the lexical index is
      rebuilt, and what becomes of the repair of the attempts. */
  datatype PassFate = PassFate(cut: string -> Option<nat>, rebuilds: bool, repair: Try)

  ghost predicate CleanPass(f: PassFate) {
    (forall d :: f.cut(d).None?) && f.rebuilds && f.repair == Answered
  }

  class IndexReconciler {
    const db: Tables
    const store: Collection

    constructor (db: Tables, store: Collection)
      ensures this.db == db && this.store == store
    {
      this.db, this.store := db, store;
    }

    /** Lists every document's row. */
    method ListDocuments() returns (rows: seq<Row>)
      ensures Lists(rows, db.View())
      ensures forall d :: d in db.documents <==> exists i :: 0 <= i < |rows| && rows[i].document == d
      ensures forall i :: 0 <= i < |rows| ==>
        && rows[i].document in db.documents
        && var doc := db.documents[rows[i].document];
           && rows[i].tenant == doc.tenant && rows[i].filename == doc.filename && rows[i].active == doc.active
           && (rows[i].deleted <==> doc.status == DocDeleted) && (rows[i].deleteLegacy <==> doc.active != None)
    {
      rows := [];
      var rest := db.documents.Keys;
      while rest != {}
        invariant rest <= db.documents.Keys
        invariant forall i, j :: 0 <= i < j < |rows| ==> rows[i].document != rows[j].document
        invariant forall r :: r in rows <==>
                    r.document in db.documents && r.document !in rest && r == RowOf(db.View(), r.document)
        decreases rest
      {
        var d :| d in rest;
        var doc := db.documents[d];
        var row := Row(d, doc.tenant, doc.filename, doc.active, doc.status.DocDeleted?, doc.active.Some?);
        assert forall i :: 0 <= i < |rows| ==> rows[i] in rows;
        rows := rows + [row];
        rest := rest - {d};
      }
      forall d | d in db.documents ensures exists i :: 0 <= i < |rows| && rows[i].document == d {
        assert RowOf(db.View(), d) in rows;
      }
    }

    /** One try of the activity. It may fail after a document, at the lexical index, before the repair of
        the attempts commits - or after it, with the acknowledgement lost. */
    method ReconcileIndexes(f: PassFate) returns (ok: bool, ghost rows: seq<Row>)
      requires db.Valid() && store.Valid()
      modifies db, store
      ensures db.Valid() && store.Valid() && Lists(rows, old(db.View()))
      ensures Thinned(old(store.points), store.points)
      ensures ok ==> store.points == ReconcileAll(old(store.points), rows)
                     && db.View() == ReconcileEffect(old(db.View()))
      ensures !ok ==> db.View() in {old(db.View()), ReconcileEffect(old(db.View()))}
                      && Progress(old(store.points), rows, store.points)
      ensures CleanPass(f) ==> ok
    {
      var documents := ListDocuments();
      rows := documents;
      RowsAreDistinct(rows, db.View());
      var failures := ReconcileDocuments(documents, f);
      if failures > 0 || !f.rebuilds { return false, documents; }
      ok := Repair(f.repair);
    }

    /** The repair of the attempts is one transaction. */
    method Repair(fate: Try) returns (ok: bool)
      requires db.Valid()
      modifies db
      ensures db.Valid()
      ensures db.View() == if fate == Lost then old(db.View()) else ReconcileEffect(old(db.View()))
      ensures ok <==> fate == Answered
    {
      if fate != Lost { db.RepairAttempts(); }
      ok := fate == Answered;
    }

    method ReconcileDocuments(documents: seq<Row>, f: PassFate) returns (failures: nat)
      requires store.Valid() && DistinctDocuments(documents)
      modifies store
      ensures store.Valid() && Thinned(old(store.points), store.points)
      ensures Progress(old(store.points), documents, store.points)
      ensures failures == 0 ==> store.points == ReconcileAll(old(store.points), documents)
      ensures (forall d :: f.cut(d).None?) ==> failures == 0
    {
      failures := 0;
      var i := 0;
      while i < |documents|
        invariant 0 <= i <= |documents| && store.Valid()
        invariant Thinned(old(store.points), store.points)
        invariant Progress(old(store.points), documents, store.points)
        invariant failures == 0 ==> store.points == ReconcileAll(old(store.points), documents[..i])
        invariant (forall d :: f.cut(d).None?) ==> failures == 0
      {
        ghost var before := store.points;
        var done := store.ReconcileDocumentVersion(documents[i], f.cut(documents[i].document));
        DuringThins(before, documents[i], store.points);
        if !done { failures := failures + 1; }
        ProgressStep(old(store.points), documents, documents[i], before, store.points);
        assert documents[..i + 1][..i] == documents[..i];
        i := i + 1;
      }
      assert documents[..|documents|] == documents;
    }

    /** Reconcile as often as it takes: the first clean pass ends where a clean pass from the
        beginning would have ended, in both stores. */
    method RetryReconcile(tries: nat, fates: nat -> PassFate) returns (ok: bool, ghost rows: seq<Row>)
      requires db.Valid() && store.Valid()
      modifies db, store
      ensures db.Valid() && store.Valid() && Thinned(old(store.points), store.points)
      ensures db.View() in {old(db.View()), ReconcileEffect(old(db.View()))}
      ensures ok ==> Lists(rows, old(db.View())) && store.points == ReconcileAll(old(store.points), rows)
                     && db.View() == ReconcileEffect(old(db.View()))
      ensures (exists n: nat :: n < tries && CleanPass(fates(n))) ==> ok
    {
      ok := false;
      rows := [];
      var n := 0;
      ghost var start, tables := store.points, db.View();
      ReconcileTwice(tables);
      while n < tries && !ok
        invariant db.Valid() && store.Valid() && Thinned(start, store.points)
        invariant db.View() in {tables, ReconcileEffect(tables)}
        invariant !ok ==> store.points == start || (Lists(rows, tables) && Progress(start, rows, store.points))
        invariant ok ==>
          Lists(rows, tables) && store.points == ReconcileAll(start, rows) && db.View() == ReconcileEffect(tables)
        invariant n <= tries && (!ok ==> forall i: nat :: i < n ==> !CleanPass(fates(i)))
        decreases tries - n
      {
        ghost var before, earlier := store.points, rows;
        ok, rows := ReconcileIndexes(fates(n));
        assert Lists(rows, tables);
        RowsAreDistinct(rows, tables);
        if before != start {
          SameFates(earlier, rows, tables, start, before);
          if ok { ProgressSamePass(start, rows, before); } else { ProgressComposes(start, rows, before, store.points); }
        }
        n := n + 1;
      }
    }
  }

  lemma ProgressStep(points: Points, rows: seq<Row>, r: Row, before: Points, after: Points)
    requires Progress(points, rows, before) && r in rows && During(before, r, after)
    ensures Progress(points, rows, after)
  {
    DuringIsProgress(before, rows, r, after);
    ProgressComposes(points, rows, before, after);
  }

  /** Two listings of the same documents decide the same fates. */
  lemma SameFates(rows: seq<Row>, others: seq<Row>, db: Db, points: Points, x: Points)
    requires Lists(rows, db) && Lists(others, db)
    ensures Progress(points, rows, x) <==> Progress(points, others, x)
  {
    forall p: Point ensures Fate(rows, p) == Fate(others, p) {}
  }
}
