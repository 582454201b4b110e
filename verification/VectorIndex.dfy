/**
 The vector store's side of a document: which points exist and which of them a search may return.

 Reconciling a document is three filtered updates - expose the active version, hide every other
 point of the document, delete the legacy points of its filename - or, for a deleted document,
 two deletions.  None of them is atomic: the store may stop between any two points.
 */
module VectorIndex {
  import opened Common

  datatype Point = Point(
    tenant: string, filename: string, document: Option<string>, version: Option<string>,
    active: bool, page: int, index: nat, text: string)

  type Points = map<string, Point>

  /** A row of ingestion_documents as the reconciler hands it over. */
  datatype Row = Row(
    document: string, tenant: string, filename: string, active: Option<string>, deleted: bool, deleteLegacy: bool)

  /** The visibility filter of dense_search. */
  predicate Visible(p: Point) {
    p.version.None? || p.active
  }

  predicate InDocument(r: Row, p: Point) {
    p.tenant == r.tenant && p.document == Some(r.document)
  }

  predicate InActive(r: Row, p: Point) {
    InDocument(r, p) && r.active.Some? && p.version == r.active
  }

  predicate IsLegacy(r: Row, p: Point) {
    p.tenant == r.tenant && p.filename == r.filename && p.version.None?
  }

  /** What one document's reconciliation makes of a point. */
  function Settle(r: Row, p: Point): Option<Point> {
    if (r.deleted && InDocument(r, p)) || ((r.deleted || r.deleteLegacy) && IsLegacy(r, p)) then None
    else if InDocument(r, p) then Some(p.(active := InActive(r, p)))
    else Some(p)
  }

  function ReconcileRow(points: Points, r: Row): Points {
    map id | id in points && Settle(r, points[id]).Some? :: Settle(r, points[id]).value
  }

  function ReconcileAll(points: Points, rows: seq<Row>): Points {
    if rows == [] then points
    else ReconcileRow(ReconcileAll(points, rows[..|rows| - 1]), rows[|rows| - 1])
  }

  // ---------------------------------------------------------------- what a whole pass means

  predicate Removed(rows: seq<Row>, p: Point) {
    exists r :: r in rows && ((r.deleted && InDocument(r, p)) || ((r.deleted || r.deleteLegacy) && IsLegacy(r, p)))
  }

  predicate Owned(rows: seq<Row>, p: Point) {
    exists r :: r in rows && InDocument(r, p)
  }

  predicate Exposed(rows: seq<Row>, p: Point) {
    exists r :: r in rows && InActive(r, p)
  }

  /** The fate of a point under a set of rows, whatever their order. */
  function Fate(rows: seq<Row>, p: Point): Option<Point> {
    if Removed(rows, p) then None
    else if Owned(rows, p) then Some(p.(active := Exposed(rows, p)))
    else Some(p)
  }

  function Fated(points: Points, rows: seq<Row>): Points {
    map id | id in points && Fate(rows, points[id]).Some? :: Fate(rows, points[id]).value
  }

  /** Document ids are primary keys: no two rows own the same points. */
  predicate DistinctDocuments(rows: seq<Row>) {
    forall i, j :: 0 <= i < j < |rows| ==> (rows[i].tenant, rows[i].document) != (rows[j].tenant, rows[j].document)
  }

  lemma FateExtends(rows: seq<Row>, r: Row, p: Point)
    requires DistinctDocuments(rows + [r])
    ensures Fate(rows + [r], p) == if Fate(rows, p).None? then None else Settle(r, Fate(rows, p).value)
  {
    var all := rows + [r];
    assert all[|rows|] == r;
    forall q | q in rows ensures q in all { var i :| 0 <= i < |rows| && rows[i] == q; assert all[i] == q; }
    assert forall q :: q in all ==> q in rows || q == r;
    if Owned(rows, p) {
      var q :| q in rows && InDocument(q, p);
      var i :| 0 <= i < |rows| && rows[i] == q;
      assert (all[i].tenant, all[i].document) != (all[|rows|].tenant, all[|rows|].document);
    }
  }

  lemma {:induction false} PassIsFate(points: Points, rows: seq<Row>)
    requires DistinctDocuments(rows)
    ensures ReconcileAll(points, rows) == Fated(points, rows)
  {
    if rows == [] {
      assert Fated(points, rows) == points;
    } else {
      var init, last := rows[..|rows| - 1], rows[|rows| - 1];
      assert rows == init + [last];
      PassIsFate(points, init);
      forall id | id in points
        ensures Fate(rows, points[id]) ==
                if Fate(init, points[id]).None? then None else Settle(last, Fate(init, points[id]).value)
      {
        FateExtends(init, last, points[id]);
      }
    }
  }

  /** One pass, taken in any order of the documents, gives the same store. */
  lemma OrderDoesNotMatter(points: Points, rows: seq<Row>, others: seq<Row>)
    requires DistinctDocuments(rows) && DistinctDocuments(others)
    requires forall r :: r in rows <==> r in others
    ensures ReconcileAll(points, rows) == ReconcileAll(points, others)
  {
    PassIsFate(points, rows);
    PassIsFate(points, others);
    forall p: Point ensures Fate(rows, p) == Fate(others, p) {}
  }

  lemma FateIsFinal(rows: seq<Row>, p: Point)
    requires Fate(rows, p).Some?
    ensures Fate(rows, Fate(rows, p).value) == Fate(rows, p)
  {
    var q := Fate(rows, p).value;
    assert forall r :: InDocument(r, q) == InDocument(r, p) && IsLegacy(r, q) == IsLegacy(r, p)
            && InActive(r, q) == InActive(r, p);
    assert Removed(rows, q) == Removed(rows, p) && Owned(rows, q) == Owned(rows, p)
            && Exposed(rows, q) == Exposed(rows, p);
  }

  lemma PassTwiceIsOnce(points: Points, rows: seq<Row>)
    requires DistinctDocuments(rows)
    ensures ReconcileAll(ReconcileAll(points, rows), rows) == ReconcileAll(points, rows)
  {
    PassIsFate(points, rows);
    PassIsFate(Fated(points, rows), rows);
    forall id | id in Fated(points, rows)
      ensures Fate(rows, Fated(points, rows)[id]) == Some(Fated(points, rows)[id])
    {
      FateIsFinal(rows, points[id]);
    }
    assert Fated(Fated(points, rows), rows) == Fated(points, rows);
  }

  // ---------------------------------------------------------------- states in between

  function DocumentIds(points: Points, r: Row): set<string> {
    set id | id in points && InDocument(r, points[id])
  }

  function ActiveIds(points: Points, r: Row): set<string> {
    set id | id in points && InActive(r, points[id])
  }

  function OtherIds(points: Points, r: Row): set<string> {
    set id | id in points && InDocument(r, points[id]) && !InActive(r, points[id])
  }

  function LegacyIds(points: Points, r: Row): set<string> {
    set id | id in points && IsLegacy(r, points[id])
  }

  function Flag(points: Points, ids: set<string>, on: bool): Points {
    map id | id in points :: if id in ids then points[id].(active := on) else points[id]
  }

  /** Every store that point-by-point application can pass through while one row is reconciled:
      some of a step's points done, all of the earlier steps', none of the later ones'. */
  ghost predicate During(points: Points, r: Row, x: Points) {
    if r.deleted then
      || (exists s {:trigger points - s} :: s <= DocumentIds(points, r) && x == points - s)
      || (exists s {:trigger points - DocumentIds(points, r) - s} ::
            s <= LegacyIds(points, r) && x == points - DocumentIds(points, r) - s)
    else
      || (exists s {:trigger Flag(points, s, true)} :: s <= ActiveIds(points, r) && x == Flag(points, s, true))
      || (exists s {:trigger Flag(Flag(points, ActiveIds(points, r), true), s, false)} ::
            s <= OtherIds(points, r) && x == Flag(Flag(points, ActiveIds(points, r), true), s, false))
      || (r.deleteLegacy && exists s {:trigger ReconcileFlags(points, r) - s} ::
            s <= LegacyIds(points, r) && x == ReconcileFlags(points, r) - s)
  }

  function ReconcileFlags(points: Points, r: Row): Points {
    Flag(Flag(points, ActiveIds(points, r), true), OtherIds(points, r), false)
  }

  lemma LiveRowInSteps(points: Points, r: Row)
    requires !r.deleted
    ensures var x := ReconcileFlags(points, r);
            && LegacyIds(x, r) == LegacyIds(points, r)
            && ReconcileRow(points, r) == if r.deleteLegacy then x - LegacyIds(x, r) else x
  {
  }

  lemma DeletedRowInSteps(points: Points, r: Row)
    requires r.deleted
    ensures var x := points - DocumentIds(points, r);
            LegacyIds(x, r) <= LegacyIds(points, r) && ReconcileRow(points, r) == x - LegacyIds(x, r)
  {
  }

  /** The versioned points of one document that a search may return. */
  function VisibleVersioned(points: Points, r: Row): set<string> {
    set id | id in points && InDocument(r, points[id]) && points[id].version.Some? && Visible(points[id])
  }

  function OfVersion(points: Points, r: Row, version: Option<string>): set<string> {
    set id | id in points && InDocument(r, points[id]) && points[id].version.Some? && points[id].version == version
  }

  /** The document's versioned points are the same points, up to their flags. */
  ghost predicate SameVersionedPoints(points: Points, x: Points, r: Row) {
    && (forall id :: id in points && InDocument(r, points[id]) && points[id].version.Some? ==>
          id in x && x[id] == points[id].(active := x[id].active))
    && (forall id :: id in x && InDocument(r, x[id]) && x[id].version.Some? ==>
          id in points && InDocument(r, points[id]) && points[id].version.Some?)
  }

  /** The previous version is completely visible, or the next one is; nothing but the two is. */
  ghost predicate OneIsComplete(x: Points, r: Row, previous: Option<string>) {
    && (OfVersion(x, r, previous) <= VisibleVersioned(x, r) || OfVersion(x, r, r.active) <= VisibleVersioned(x, r))
    && VisibleVersioned(x, r) <= OfVersion(x, r, previous) + OfVersion(x, r, r.active)
  }

  lemma DuringKeepsPoints(points: Points, r: Row, x: Points)
    requires !r.deleted && During(points, r, x)
    ensures SameVersionedPoints(points, x, r)
    ensures forall v :: OfVersion(x, r, v) == OfVersion(points, r, v)
  {
    assert SameVersionedPoints(points, x, r);
    forall v ensures OfVersion(x, r, v) == OfVersion(points, r, v) {}
  }

  /** Points are dropped and flags change; nothing else. */
  ghost predicate Thinned(points: Points, x: Points) {
    forall id :: id in x ==> id in points && x[id] == points[id].(active := x[id].active)
  }

  lemma DuringThins(points: Points, r: Row, x: Points)
    requires During(points, r, x)
    ensures Thinned(points, x)
  {
  }

  /** Whatever is done to one document, the others show what they showed. */
  lemma DuringElsewhere(points: Points, r: Row, x: Points, other: Row)
    requires During(points, r, x) && other.document != r.document
    ensures VisibleVersioned(x, other) == VisibleVersioned(points, other)
  {
    forall id | id in points && InDocument(other, points[id]) && points[id].version.Some?
      ensures id in x && x[id] == points[id]
    {
      assert !InDocument(r, points[id]);
    }
    DuringThins(points, r, x);
  }

  /** Replacing a version never hides both: from any state where one of the two is complete,
      through every intermediate state of the update, one of the two is complete - and so again
      when the update is interrupted and started over. */
  lemma ActivationNeverHidesBoth(points: Points, r: Row, previous: Option<string>, x: Points)
    requires !r.deleted && During(points, r, x) && OneIsComplete(points, r, previous)
    ensures OneIsComplete(x, r, previous)
  {
    DuringKeepsPoints(points, r, x);
    var was, next := OfVersion(points, r, previous), OfVersion(points, r, r.active);
    forall id | id in VisibleVersioned(x, r) && id !in next ensures id in was {
      assert id in VisibleVersioned(points, r);
    }
    if s :| s <= ActiveIds(points, r) && x == Flag(points, s, true) {
      forall id | id in VisibleVersioned(points, r) ensures id in VisibleVersioned(x, r) {}
    } else {
      forall id | id in next ensures id in VisibleVersioned(x, r) {}
    }
  }

  lemma RowEndsExactly(points: Points, r: Row)
    ensures var after := ReconcileRow(points, r);
            VisibleVersioned(after, r) == if r.deleted || r.active.None? then {} else OfVersion(points, r, r.active)
  {
    var after := ReconcileRow(points, r);
    forall id | id in points && InDocument(r, points[id]) && points[id].version.Some? && !r.deleted
      ensures id in after && after[id].active == InActive(r, points[id])
    {
    }
  }

  /** A store reached from another by work a pass would do anyway. */
  ghost predicate Progress(points: Points, rows: seq<Row>, x: Points) {
    && (forall id :: id in x ==> id in points && Fate(rows, x[id]) == Fate(rows, points[id]))
    && (forall id :: id in points && id !in x ==> Fate(rows, points[id]).None?)
  }

  lemma FateIgnoresFlag(rows: seq<Row>, p: Point, on: bool)
    requires Owned(rows, p)
    ensures Fate(rows, p.(active := on)) == Fate(rows, p)
  {
    var q := p.(active := on);
    assert forall r :: InDocument(r, q) == InDocument(r, p) && IsLegacy(r, q) == IsLegacy(r, p)
            && InActive(r, q) == InActive(r, p);
    assert Removed(rows, q) == Removed(rows, p) && Owned(rows, q) == Owned(rows, p)
            && Exposed(rows, q) == Exposed(rows, p);
  }

  lemma DuringIsProgress(points: Points, rows: seq<Row>, r: Row, x: Points)
    requires r in rows && During(points, r, x)
    ensures Progress(points, rows, x)
  {
    forall id | id in x ensures id in points && Fate(rows, x[id]) == Fate(rows, points[id]) {
      assert x[id] == points[id] || (InDocument(r, points[id]) && x[id] == points[id].(active := x[id].active));
      if x[id] != points[id] { FateIgnoresFlag(rows, points[id], x[id].active); }
    }
    forall id | id in points && id !in x ensures Fate(rows, points[id]).None? {
      assert (r.deleted && InDocument(r, points[id])) || ((r.deleted || r.deleteLegacy) && IsLegacy(r, points[id]));
    }
  }

  lemma ProgressSamePass(points: Points, rows: seq<Row>, x: Points)
    requires DistinctDocuments(rows) && Progress(points, rows, x)
    ensures ReconcileAll(x, rows) == ReconcileAll(points, rows)
  {
    PassIsFate(x, rows);
    PassIsFate(points, rows);
  }

  lemma PrefixIsProgress(points: Points, rows: seq<Row>, k: nat)
    requires DistinctDocuments(rows) && k <= |rows|
    ensures Progress(points, rows, ReconcileAll(points, rows[..k]))
  {
    var done := rows[..k];
    PassIsFate(points, done);
    forall p: Point ensures Fate(done, p).None? ==> Fate(rows, p).None?
    {
    }
    forall id | id in Fated(points, done) ensures Fate(rows, Fated(points, done)[id]) == Fate(rows, points[id]) {
      var p := points[id];
      if Owned(done, p) { assert Owned(rows, p); FateIgnoresFlag(rows, p, Exposed(done, p)); }
    }
  }

  lemma ProgressComposes(points: Points, rows: seq<Row>, x: Points, y: Points)
    requires Progress(points, rows, x) && Progress(x, rows, y)
    ensures Progress(points, rows, y)
  {
  }

  /** Stopping anywhere inside any row of a pass and starting the pass again gives the store one
      clean pass would have given. */
  lemma CrashAndRerun(points: Points, rows: seq<Row>, k: nat, x: Points)
    requires DistinctDocuments(rows) && k < |rows|
    requires During(ReconcileAll(points, rows[..k]), rows[k], x)
    ensures ReconcileAll(x, rows) == ReconcileAll(points, rows)
  {
    var before := ReconcileAll(points, rows[..k]);
    PrefixIsProgress(points, rows, k);
    DuringIsProgress(before, rows, rows[k], x);
    ProgressComposes(points, rows, before, x);
    ProgressSamePass(points, rows, x);
  }

  /** After a pass a listed document shows exactly its active version (nothing once deleted), and
      the versioned points of documents that are not listed are what they were. */
  lemma PassEndsExactly(points: Points, rows: seq<Row>, r: Row)
    requires DistinctDocuments(rows) && r in rows
    ensures var after := ReconcileAll(points, rows);
            VisibleVersioned(after, r) == if r.deleted || r.active.None? then {} else OfVersion(points, r, r.active)
  {
    PassIsFate(points, rows);
    var after := Fated(points, rows);
    forall q, p: Point | q in rows && InDocument(q, p) && InDocument(r, p) ensures q == r {
      var i :| 0 <= i < |rows| && rows[i] == q;
      var j :| 0 <= j < |rows| && rows[j] == r;
    }
    forall id | id in points && InDocument(r, points[id]) && points[id].version.Some?
      ensures id in after <==> !r.deleted
      ensures id in after ==> after[id] == points[id].(active := InActive(r, points[id]))
    {
      var p := points[id];
      assert Owned(rows, p);
      assert Removed(rows, p) <==> r.deleted;
      assert Exposed(rows, p) <==> InActive(r, p);
    }
  }

  /** A legacy point - one without document or version - is deleted exactly when a listed row of its tenant
      and filename is deleted or clears legacy points, and is otherwise left as it was, for searches to find. */
  lemma LegacyIsCleared(points: Points, rows: seq<Row>, id: string)
    requires DistinctDocuments(rows) && id in points
    requires points[id].version == None && points[id].document == None
    ensures id in ReconcileAll(points, rows) <==>
              forall i :: 0 <= i < |rows| ==>
                !(rows[i].tenant == points[id].tenant && rows[i].filename == points[id].filename
                  && (rows[i].deleted || rows[i].deleteLegacy))
    ensures id in ReconcileAll(points, rows) ==> ReconcileAll(points, rows)[id] == points[id] && Visible(points[id])
  {
    PassIsFate(points, rows);
    assert forall i :: 0 <= i < |rows| ==> rows[i] in rows;
  }

  lemma OthersUntouched(points: Points, rows: seq<Row>, id: string)
    requires DistinctDocuments(rows) && id in points && points[id].version.Some? && !Owned(rows, points[id])
    ensures id in ReconcileAll(points, rows) && ReconcileAll(points, rows)[id] == points[id]
  {
    PassIsFate(points, rows);
    assert !Removed(rows, points[id]);
  }
}
