/**
 The two stores together: what indexing a staged version may show (nothing), and what a clean
 reconcile makes of dense and lexical search (the same chunks).
 */
module Visibility {
  import opened Common
  import opened ChunkIdentity
  import opened IngestionStore
  import opened IngestionSafety
  import opened IngestionHistory
  import opened VectorIndex
  import opened VectorStore

  // ---------------------------------------------------------------- indexing a staged version

  function PointId(p: Point): string {
    Identity(p.tenant, p.filename, p.page, p.index, p.version)
  }

  predicate KeyedRight(id: string, p: Point) {
    id == PointId(p) && IsUuid(p.tenant) && (p.version.Some? ==> IsUuid(p.version.value))
  }

  /** Every point sits under the id made from its own payload. */
  ghost predicate WellKeyed(points: Points) {
    forall id :: id in points ==> KeyedRight(id, points[id])
  }

  function VisiblePoints(points: Points): Points {
    map id | id in points && Visible(points[id]) :: points[id]
  }

  function ChunkPoint(tenant: string, document: string, version: string, filename: string, chunk: Chunk,
                      index: nat): Point {
    Point(tenant, filename, Some(document), Some(version), false, chunk.page, index, chunk.text)
  }

  function ChunkPoints(tenant: string, document: string, version: string, filename: string,
                       chunks: seq<Chunk>): (items: seq<Point>)
    ensures |items| == |chunks|
  {
    seq(|chunks|, i requires 0 <= i < |chunks| => ChunkPoint(tenant, document, version, filename, chunks[i], i))
  }

  function PointIds(items: seq<Point>): (ids: seq<string>)
    ensures |ids| == |items|
  {
    seq(|items|, i requires 0 <= i < |items| => PointId(items[i]))
  }

  /** No search can return a point of this version. */
  ghost predicate NotShown(points: Points, tenant: string, version: string) {
    forall id :: id in points && points[id].tenant == tenant && points[id].version == Some(version) ==>
            !points[id].active
  }

  /** However far an upsert of a version that is not shown has got, searches see exactly what
      they saw before it started. */
  lemma {:induction false} StagedUpsertIsInvisible(points: Points, tenant: string, version: string, items: seq<Point>,
                                                   k: nat)
    requires WellKeyed(points) && NotShown(points, tenant, version) && k <= |items|
    requires IsUuid(tenant) && IsUuid(version)
    requires forall i :: 0 <= i < |items| ==>
               items[i].tenant == tenant && items[i].version == Some(version) && !items[i].active
    ensures var x := Upserted(points, PointIds(items)[..k], items[..k]);
            WellKeyed(x) && NotShown(x, tenant, version) && VisiblePoints(x) == VisiblePoints(points)
  {
    var ids := PointIds(items);
    if k > 0 {
      StagedUpsertIsInvisible(points, tenant, version, items, k - 1);
      assert ids[..k][..k - 1] == ids[..k - 1] && items[..k][..k - 1] == items[..k - 1];
      OneUpsertIsInvisible(Upserted(points, ids[..k - 1], items[..k - 1]), tenant, version, items[k - 1]);
    }
  }

  lemma PutHides(points: Points, id: string, p: Point)
    requires p.version.Some? && !p.active
    ensures VisiblePoints(points[id := p]) == VisiblePoints(points) - {id}
  {
  }

  /** A point of a version that is not shown overwrites nothing that is: its id is its own. */
  lemma OverwritesNothingShown(points: Points, tenant: string, version: string, p: Point)
    requires WellKeyed(points) && NotShown(points, tenant, version)
    requires IsUuid(tenant) && IsUuid(version)
    requires p.tenant == tenant && p.version == Some(version)
    ensures PointId(p) !in VisiblePoints(points)
  {
    if PointId(p) in points {
      var q := points[PointId(p)];
      assert KeyedRight(PointId(p), q);
      IdentityInjective(p.tenant, p.filename, p.page, p.index, p.version, q.tenant, q.filename, q.page, q.index,
              q.version);
    }
  }

  lemma OneUpsertIsInvisible(points: Points, tenant: string, version: string, p: Point)
    requires WellKeyed(points) && NotShown(points, tenant, version)
    requires IsUuid(tenant) && IsUuid(version)
    requires p.tenant == tenant && p.version == Some(version) && !p.active
    ensures var x := points[PointId(p) := p];
            WellKeyed(x) && NotShown(x, tenant, version) && VisiblePoints(x) == VisiblePoints(points)
  {
    var x := points[PointId(p) := p];
    OverwritesNothingShown(points, tenant, version, p);
    PutHides(points, PointId(p), p);
    assert VisiblePoints(points) - {PointId(p)} == VisiblePoints(points);
    forall id | id in x ensures KeyedRight(id, x[id]) { assert id in points ==> KeyedRight(id, points[id]); }
  }

  function IdSet(ids: seq<string>): set<string> {
    set i | 0 <= i < |ids| :: ids[i]
  }

  /** An upsert of hidden points takes exactly the points it overwrites out of sight. */
  lemma {:induction false} UpsertHides(points: Points, ids: seq<string>, items: seq<Point>)
    requires |ids| == |items| && forall i :: 0 <= i < |items| ==> items[i].version.Some? && !items[i].active
    ensures VisiblePoints(Upserted(points, ids, items)) == VisiblePoints(points) - IdSet(ids)
  {
    var n := |ids| - 1;
    if ids == [] {
      assert IdSet(ids) == {};
    } else {
      var before := Upserted(points, ids[..n], items[..n]);
      UpsertHides(points, ids[..n], items[..n]);
      PutHides(before, ids[n], items[n]);
      assert IdSet(ids) == IdSet(ids[..n]) + {ids[n]} by {
        forall i | 0 <= i < n ensures ids[i] in IdSet(ids[..n]) { assert ids[..n][i] == ids[i]; }
      }
    }
  }

  /** Running the upsert of a version again leaves what searches see unchanged exactly when none of the
      points it would overwrite is visible. */
  lemma UpsertHidesWhatItOverwrites(points: Points, items: seq<Point>)
    requires forall i :: 0 <= i < |items| ==> items[i].version.Some? && !items[i].active
    ensures VisiblePoints(Upserted(points, PointIds(items), items)) == VisiblePoints(points)
            <==> forall i :: 0 <= i < |items| ==> PointIds(items)[i] !in VisiblePoints(points)
  {
    var ids, shown := PointIds(items), VisiblePoints(points);
    UpsertHides(points, ids, items);
    if i :| 0 <= i < |items| && ids[i] in shown {
      assert ids[i] in shown && ids[i] !in shown - IdSet(ids);
    } else {
      assert shown - IdSet(ids) == shown;
    }
  }

  /** The input: a version with one chunk is active and shown, and a late retry of its indexing hides it. */
  lemma LateRetryHidesShownVersion(p: Point)
    requires p.version.Some? && p.active
    ensures var points := map[PointId(p) := p];
            var retried := Upserted(points, PointIds([p.(active := false)]), [p.(active := false)]);
            VisiblePoints(points) == points && VisiblePoints(retried) == map[]
  {
    var items := [p.(active := false)];
    assert PointIds(items)[0] == PointId(p);
    UpsertHides(map[PointId(p) := p], PointIds(items), items);
    assert PointId(p) in IdSet(PointIds(items));
  }

  // ---------------------------------------------------------------- a clean reconcile

  function RowOf(db: Db, d: Uuid): Row
    requires d in db.documents
  {
    var doc := db.documents[d];
    Row(d, doc.tenant, doc.filename, doc.active, doc.status.DocDeleted?, doc.active.Some?)
  }

  /** The rows are the documents, each once, in any order. */
  ghost predicate Lists(rows: seq<Row>, db: Db) {
    && (forall i, j :: 0 <= i < j < |rows| ==> rows[i].document != rows[j].document)
    && (forall r :: r in rows <==> r.document in db.documents && r == RowOf(db, r.document))
  }

  function RowIds(db: Db, v: Uuid): set<string> {
    if v !in db.versions then {}
    else
      set i | 0 <= i < |RowsOf(db, v)| ::
        var c := RowsOf(db, v)[i]; Identity(db.versions[v].tenant, c.filename, c.page, c.index, Some(v))
  }

  /** The versioned half of the corpus query: rows of versions whose status is active. */
  ghost function LexicalIds(db: Db): set<string> {
    set v, id | v in db.versions && db.versions[v].status.Active? && id in RowIds(db, v) :: id
  }

  /** The versioned points that dense search may return. */
  function DenseIds(points: Points): set<string> {
    set id | id in points && points[id].version.Some? && Visible(points[id])
  }

  /** The point of a version belongs to that version of the tables, in its document and tenant. */
  ghost predicate HomedAt(db: Db, points: Points, id: string)
    requires id in points
  {
    points[id].version.Some? ==>
      points[id].document.Some?
              && OwnsVersion(db, points[id].version.value, points[id].document.value, points[id].tenant)
  }

  /** The point shows the text, page and filename of the row with its version and index. */
  predicate Cites(db: Db, p: Point) {
    && p.version.Some? && p.version.value in db.chunks && p.index < |db.chunks[p.version.value]|
    && var row := db.chunks[p.version.value][p.index];
       row.filename == p.filename && row.page == p.page && row.index == p.index && row.text == p.text
  }

  ghost predicate AllCite(db: Db, points: Points) {
    forall id :: id in points && points[id].version.Some? ==> Cites(db, points[id])
  }

  /** A search by meaning shows the row: its point is visible and carries the row's text and page. */
  predicate ShowsRow(points: Points, tenant: string, version: string, row: ChunkRow) {
    var id := Identity(tenant, row.filename, row.page, row.index, Some(version));
    && id in points && Visible(points[id]) && points[id].version == Some(version)
    && points[id].text == row.text && points[id].page == row.page && points[id].filename == row.filename
  }

  /** No versioned point comes from anywhere but the ingestion of a registered version. */
  ghost predicate Homed(db: Db, points: Points) {
    forall id {:trigger HomedAt(db, points, id)} :: id in points ==> HomedAt(db, points, id)
  }

  lemma ThinnedHomed(db: Db, points: Points, x: Points)
    requires Homed(db, points) && Thinned(points, x)
    ensures Homed(db, x)
  {
    forall id | id in x ensures HomedAt(db, x, id) { assert HomedAt(db, points, id); }
  }

  /** The active version's points are the points of its rows. */
  ghost predicate FullyIndexed(db: Db, points: Points) {
    forall d :: d in db.documents && db.documents[d].active.Some? ==>
      OfVersion(points, RowOf(db, d), db.documents[d].active) == RowIds(db, db.documents[d].active.value)
  }

  lemma RowsAreDistinct(rows: seq<Row>, db: Db)
    requires Lists(rows, db)
    ensures DistinctDocuments(rows)
  {
  }

  /** What one document shows after a pass over all documents. */
  lemma DocumentAgrees(db: Db, points: Points, rows: seq<Row>, d: Uuid)
    requires Inv(db) && Lists(rows, db) && FullyIndexed(db, points) && d in db.documents
    ensures VisibleVersioned(ReconcileAll(points, rows), RowOf(db, d))
            == if db.documents[d].active.Some? then RowIds(db, db.documents[d].active.value) else {}
  {
    RowsAreDistinct(rows, db);
    var r := RowOf(db, d);
    assert r in rows;
    assert DocumentOk(db, d);
    PassEndsExactly(points, rows, r);
  }

  lemma {:induction false} PassThins(points: Points, rows: seq<Row>)
    ensures Thinned(points, ReconcileAll(points, rows))
  {
    if rows != [] { PassThins(points, rows[..|rows| - 1]); }
  }

  /** After a clean reconcile dense and lexical search hold the same versioned chunks - all of them. */
  lemma DenseAgreesWithLexical(db: Db, points: Points, rows: seq<Row>)
    requires Inv(db) && Homed(db, points) && Lists(rows, db) && FullyIndexed(db, points)
    ensures DenseIds(ReconcileAll(points, rows)) == LexicalIds(db)
  {
    var after := ReconcileAll(points, rows);
    PassThins(points, rows);
    ThinnedHomed(db, points, after);
    forall id | id in DenseIds(after) ensures id in LexicalIds(db) {
      assert HomedAt(db, after, id);
      var d := after[id].document.value;
      assert VersionOk(db, after[id].version.value);
      DocumentAgrees(db, points, rows, d);
      assert id in VisibleVersioned(after, RowOf(db, d));
      assert DocumentOk(db, d);
      var v := db.documents[d].active.value;
      assert v in db.versions && db.versions[v].status.Active? && id in RowIds(db, v);
    }
    forall id | id in LexicalIds(db) ensures id in DenseIds(after) {
      var v :| v in db.versions && db.versions[v].status.Active? && id in RowIds(db, v);
      assert VersionOk(db, v);
      var d := db.versions[v].document;
      DocumentAgrees(db, points, rows, d);
      assert id in VisibleVersioned(after, RowOf(db, d));
    }
  }

  lemma ThinnedCites(db: Db, points: Points, x: Points)
    requires AllCite(db, points) && Thinned(points, x)
    ensures AllCite(db, x)
  {
    forall id | id in x && x[id].version.Some? ensures Cites(db, x[id]) { assert Cites(db, points[id]); }
  }

  /** The id of a point is made from its payload, so the payload of the point with a row's id is the row's. */
  lemma CitingShows(db: Db, points: Points, v: Uuid, i: nat)
    requires WellKeyed(points) && AllCite(db, points) && Inv(db) && v in db.versions && i < |RowsOf(db, v)|
    requires IsUuid(db.versions[v].tenant) && IsUuid(v) && RowsOf(db, v)[i].index == i
    requires var row := RowsOf(db, v)[i];
             Identity(db.versions[v].tenant, row.filename, row.page, row.index, Some(v)) in DenseIds(points)
    ensures ShowsRow(points, db.versions[v].tenant, v, RowsOf(db, v)[i])
  {
    var row := RowsOf(db, v)[i];
    var id := Identity(db.versions[v].tenant, row.filename, row.page, row.index, Some(v));
    var p := points[id];
    assert KeyedRight(id, p) && Cites(db, p);
    IdentityInjective(db.versions[v].tenant, row.filename, row.page, row.index, Some(v), p.tenant, p.filename, p.page,
      p.index, p.version);
  }
}
