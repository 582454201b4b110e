/**
 Many ingestion workflows at once: transactions of any of them, and point updates one by one, in any
 order. What a search sees of a document is the business of that document's own workflow alone.
 */
module Interleaving {
  import opened Common
  import opened ChunkIdentity
  import opened IngestionStore
  import opened IngestionSafety
  import opened IngestionHistory
  import opened VectorIndex
  import opened Visibility
  import opened IngestionWorkflow

  datatype System = System(db: Db, points: Points)

  /** One atomic move of some workflow or of the reconciler. */
  datatype Move =
    | Commit(event: IngestionStore.Event)  // a transaction, or one that fails
    | Put(p: Point)                        // one point of the upsert of a registered version
    | Expose(id: string, row: Row)         // one point of an activation: shown,
    | Hide(id: string, row: Row)           // hidden,
    | Drop(id: string, row: Row)           // or deleted

  ghost predicate Enabled(s: System, m: Move) {
    match m
    case Commit(_) => true
    case Put(p) =>
      && p.document.Some? && p.version.Some? && !p.active && IsUuid(p.tenant) && IsUuid(p.version.value)
      && OwnsVersion(s.db, p.version.value, p.document.value, p.tenant)
    case Expose(id, r) => !r.deleted && id in ActiveIds(s.points, r)
    case Hide(id, r) => !r.deleted && id in OtherIds(s.points, r)
    case Drop(id, r) =>
      id in s.points && (IsLegacy(r, s.points[id]) || (r.deleted && InDocument(r, s.points[id])))
  }

  ghost function Step(s: System, m: Move): System
    requires Enabled(s, m)
  {
    match m
    case Commit(e) => s.(db := IngestionStore.Apply(s.db, e))
    case Put(p) => s.(points := s.points[PointId(p) := p])
    case Expose(id, _) => s.(points := s.points[id := s.points[id].(active := true)])
    case Hide(id, _) => s.(points := s.points[id := s.points[id].(active := false)])
    case Drop(id, _) => s.(points := s.points - {id})
  }

  // ---------------------------------------------------------------- what every move keeps

  ghost predicate Sound(s: System) {
    Inv(s.db) && WellKeyed(s.points) && Homed(s.db, s.points)
  }

  lemma CommitKeepsSound(s: System, e: IngestionStore.Event)
    requires Sound(s)
    ensures Sound(Step(s, Commit(e)))
  {
    var after := IngestionStore.Apply(s.db, e);
    if !e.fault && Accepts(s.db, e.tx) { EffectKeepsInv(s.db, e.tx); }
    ApplyLater(s.db, e);
    forall id | id in s.points ensures HomedAt(after, s.points, id) {
      assert HomedAt(s.db, s.points, id);
      if s.points[id].version.Some? { assert VersionLater(s.db, after, s.points[id].version.value); }
    }
  }

  lemma MoveKeepsSound(s: System, m: Move)
    requires Sound(s) && Enabled(s, m)
    ensures Sound(Step(s, m))
  {
    match m
    case Commit(e) => CommitKeepsSound(s, e);
    case Put(p) =>
      var x := Step(s, m).points;
      forall id | id in x ensures KeyedRight(id, x[id]) && HomedAt(s.db, x, id) {
        assert id in s.points ==> KeyedRight(id, s.points[id]) && HomedAt(s.db, s.points, id);
      }
    case _ =>
      var x := Step(s, m).points;
      assert Thinned(s.points, x);
      ThinnedWellKeyed(s.points, x);
      ThinnedHomed(s.db, s.points, x);
  }

  // ---------------------------------------------------------------- other documents

  /** A move that is not made for the given document. */
  predicate Foreign(m: Move, document: string) {
    match m
    case Commit(e) => !(e.tx.Activate? && e.tx.document == document) && !(e.tx.Bury? && e.tx.document == document)
    case Put(p) => p.document != Some(document)
    case Expose(_, r) => r.document != document
    case Hide(_, r) => r.document != document
    case Drop(_, r) => r.document != document
  }

  ghost predicate IsPointOf(points: Points, id: string, r: Row) {
    id in points && InDocument(r, points[id]) && points[id].version.Some?
  }

  /** Two stores hold the same versioned points of a document, with the same flags. */
  ghost predicate SamePoints(points: Points, x: Points, r: Row) {
    && VisibleVersioned(x, r) == VisibleVersioned(points, r)
    && (forall v {:trigger OfVersion(x, r, v)} :: OfVersion(x, r, v) == OfVersion(points, r, v))
  }

  lemma OutsideChange(points: Points, x: Points, id: string, r: Row)
    requires points - {id} == x - {id} && !IsPointOf(points, id, r) && !IsPointOf(x, id, r)
    ensures SamePoints(points, x, r)
  {
    forall o ensures IsPointOf(points, o, r) <==> IsPointOf(x, o, r)
      ensures IsPointOf(points, o, r) ==> x[o] == points[o]
    {
      assert o != id ==> (o in points <==> o in points - {id}) && (o in x <==> o in x - {id});
      assert o != id && o in points ==> points[o] == (points - {id})[o] == (x - {id})[o] == x[o];
    }
    forall o ensures o in VisibleVersioned(x, r) <==> o in VisibleVersioned(points, r) {
      assert o in VisibleVersioned(points, r) <==> IsPointOf(points, o, r) && Visible(points[o]);
      assert o in VisibleVersioned(x, r) <==> IsPointOf(x, o, r) && Visible(x[o]);
    }
    forall v ensures OfVersion(x, r, v) == OfVersion(points, r, v) {
      forall o ensures o in OfVersion(x, r, v) <==> o in OfVersion(points, r, v) {
        assert o in OfVersion(points, r, v) <==> IsPointOf(points, o, r) && points[o].version == v;
        assert o in OfVersion(x, r, v) <==> IsPointOf(x, o, r) && x[o].version == v;
      }
    }
  }

  /** The point that an upsert overwrites is of the same version, and so of the same document. */
  lemma PutOverwritesItsOwn(s: System, p: Point)
    requires Sound(s) && Enabled(s, Put(p)) && PointId(p) in s.points
    ensures s.points[PointId(p)].version == p.version && s.points[PointId(p)].document == p.document
    ensures s.points[PointId(p)].tenant == p.tenant
  {
    var q := s.points[PointId(p)];
    assert KeyedRight(PointId(p), q) && HomedAt(s.db, s.points, PointId(p));
    IdentityInjective(p.tenant, p.filename, p.page, p.index, p.version, q.tenant, q.filename, q.page, q.index,
            q.version);
  }

  /** What one foreign move leaves: pointer, rows and versioned points of the document. */
  lemma ForeignMoveIsUnseen(s: System, m: Move, r: Row)
    requires Sound(s) && Enabled(s, m) && Foreign(m, r.document) && r.document in s.db.documents
    ensures Undisturbed(s.db, Step(s, m).db, r.document) && r.document in Step(s, m).db.documents
    ensures SamePoints(s.points, Step(s, m).points, r)
  {
    match m
    case Commit(e) =>
      OnlyActivationMovesThePointer(s.db, e, r.document);
    case Put(p) =>
      if PointId(p) in s.points { PutOverwritesItsOwn(s, p); }
      assert s.points[PointId(p) := p] - {PointId(p)} == s.points - {PointId(p)};
      OutsideChange(s.points, Step(s, m).points, PointId(p), r);
    case Expose(id, _) =>
      assert Step(s, m).points - {id} == s.points - {id};
      OutsideChange(s.points, Step(s, m).points, id, r);
    case Hide(id, _) =>
      assert Step(s, m).points - {id} == s.points - {id};
      OutsideChange(s.points, Step(s, m).points, id, r);
    case Drop(id, _) =>
      assert Step(s, m).points - {id} == s.points - {id};
      OutsideChange(s.points, Step(s, m).points, id, r);
  }

  // ---------------------------------------------------------------- runs of others' moves

  ghost predicate Runs(s: System, moves: seq<Move>)
    decreases |moves|
  {
    moves == [] || (Enabled(s, moves[0]) && Runs(Step(s, moves[0]), moves[1..]))
  }

  ghost function Run(s: System, moves: seq<Move>): System
    requires Runs(s, moves)
    decreases |moves|
  {
    if moves == [] then s else Run(Step(s, moves[0]), moves[1..])
  }

  /** A run with no move made for the document changes nothing a search or the pointer shows of it. */
  lemma {:induction false} OthersAreUnseen(s: System, moves: seq<Move>, r: Row)
    requires Sound(s) && r.document in s.db.documents && Runs(s, moves)
    requires forall i :: 0 <= i < |moves| ==> Foreign(moves[i], r.document)
    ensures var t := Run(s, moves);
            && Sound(t) && Undisturbed(s.db, t.db, r.document)
            && VisibleVersioned(t.points, r) == VisibleVersioned(s.points, r)
    decreases |moves|
  {
    if moves != [] {
      var next := Step(s, moves[0]);
      ForeignMoveIsUnseen(s, moves[0], r);
      MoveKeepsSound(s, moves[0]);
      OthersAreUnseen(next, moves[1..], r);
    }
  }
}
