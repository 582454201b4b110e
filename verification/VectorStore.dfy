/**
 The vector store updated point by point.  A call may break off after any number of points (its
 budget; without one it goes through).  The ghost trace is every content the store ever has - its
 last entry is what the store holds, and one entry differs from the next in one point at most - so
 that what a search could see in the middle of an update can be stated.
 */
module VectorStore {
  import opened Common
  import opened VectorIndex

  /** The two differ in one point at most. */
  ghost predicate OneApart(x: Points, y: Points) {
    exists id {:trigger x - {id}} :: x - {id} == y - {id}
  }

  /** A gapless record of how the store came to hold these points. */
  ghost predicate Records(trace: seq<Points>, points: Points) {
    && trace != [] && trace[|trace| - 1] == points
    && (forall i :: 0 <= i < |trace| - 1 ==> OneApart(trace[i], trace[i + 1]))
  }

  lemma RecordsNext(trace: seq<Points>, points: Points, next: Points, id: string)
    requires Records(trace, points) && points - {id} == next - {id}
    ensures Records(trace + [next], next)
  {
    var longer := trace + [next];
    forall i | 0 <= i < |longer| - 1 ensures OneApart(longer[i], longer[i + 1]) {
      assert i < |trace| - 1 ==> OneApart(trace[i], trace[i + 1]);
    }
  }

  /** One point less to go; a call without a budget never breaks off. */
  function Spent(left: Option<nat>): Option<nat>
    requires left != Some(0)
  {
    if left.Some? then Some(left.value - 1) else None
  }

  /** What is left of a budget after so many points. */
  predicate Remains(budget: Option<nat>, left: Option<nat>, spent: int) {
    if budget.Some? then left.Some? && left.value + spent == budget.value else left.None?
  }

  /** The budget is enough for so many points. */
  predicate Covers(budget: Option<nat>, n: nat) {
    budget.Some? ==> n <= budget.value
  }

  /** Some of the points have the flag, and nothing else has changed. */
  ghost predicate PartlyFlagged(points: Points, ids: set<string>, on: bool, x: Points) {
    exists s {:trigger Flag(points, s, on)} :: s <= ids && x == Flag(points, s, on)
  }

  ghost predicate PartlyGone(points: Points, ids: set<string>, x: Points) {
    exists s {:trigger points - s} :: s <= ids && x == points - s
  }

  /** Everything but the rest has the flag, and every content on the way was somewhere in between. */
  ghost predicate Flagging(was: seq<Points>, trace: seq<Points>, base: Points, ids: set<string>, rest: set<string>,
                           on: bool, points: Points) {
    && rest <= ids && points == Flag(base, ids - rest, on)
    && was <= trace
    && (forall i :: |was| <= i < |trace| ==> PartlyFlagged(base, ids, on, trace[i]))
  }

  ghost predicate Dropping(was: seq<Points>, trace: seq<Points>, base: Points, ids: set<string>, rest: set<string>,
                           points: Points) {
    && rest <= ids && points == base - (ids - rest)
    && was <= trace
    && (forall i :: |was| <= i < |trace| ==> PartlyGone(base, ids, trace[i]))
  }

  lemma FlagOneMore(points: Points, touched: set<string>, id: string, on: bool)
    requires id in points && id !in touched
    ensures Flag(points, touched, on)[id := Flag(points, touched, on)[id].(active := on)]
         == Flag(points, touched + {id}, on)
  {
  }

  class Collection {
    var points: Points
    ghost var trace: seq<Points>

    ghost predicate Valid()
      reads this
    {
      Records(trace, points)
    }

    constructor ()
      ensures Valid() && points == map[] && trace == [map[]]
    {
      points, trace := map[], [map[]];
    }

    /** One of the points that are left to flag. */
    method FlagPoint(id: string, on: bool, ghost was: seq<Points>, ghost base: Points, ghost ids: set<string>,
                     ghost rest: set<string>)
      requires Valid() && ids <= base.Keys && id in rest && Flagging(was, trace, base, ids, rest, on, points)
      modifies this
      ensures Valid() && Flagging(was, trace, base, ids, rest - {id}, on, points)
    {
      var next := points[id := points[id].(active := on)];
      RecordsNext(trace, points, next, id);
      FlagOneMore(base, ids - rest, id, on);
      assert ids - rest + {id} == ids - (rest - {id});
      assert PartlyFlagged(base, ids, on, next);
      points, trace := next, trace + [next];
    }

    /** set_payload({"is_active": on}) on the selected points, in no particular order. */
    method SetActive(ids: set<string>, on: bool, budget: Option<nat>) returns (done: bool, left: Option<nat>)
      requires Valid() && ids <= points.Keys
      modifies this
      ensures Valid()
      ensures done <==> Covers(budget, |ids|)
      ensures left == if budget.None? then None else Some(if done then budget.value - |ids| else 0)
      ensures done ==> points == Flag(old(points), ids, on)
      ensures PartlyFlagged(old(points), ids, on, points)
      ensures old(trace) <= trace
      ensures forall i :: |old(trace)| <= i < |trace| ==> PartlyFlagged(old(points), ids, on, trace[i])
    {
      var rest := ids;
      left := budget;
      assert ids - ids == {} && Flag(points, {}, on) == points;
      while rest != {} && left != Some(0)
        invariant Valid() && Flagging(old(trace), trace, old(points), ids, rest, on, points)
        invariant Remains(budget, left, |ids| - |rest|)
        decreases rest
      {
        var id :| id in rest;
        FlagPoint(id, on, old(trace), old(points), ids, rest);
        rest, left := rest - {id}, Spent(left);
      }
      done := rest == {};
      assert ids - {} == ids;
    }

    /** One of the points that are left to delete. */
    method DropPoint(id: string, ghost was: seq<Points>, ghost base: Points, ghost ids: set<string>,
                     ghost rest: set<string>)
      requires Valid() && id in rest && Dropping(was, trace, base, ids, rest, points)
      modifies this
      ensures Valid() && Dropping(was, trace, base, ids, rest - {id}, points)
    {
      RecordsNext(trace, points, points - {id}, id);
      assert ids - rest + {id} == ids - (rest - {id});
      assert points - {id} == base - (ids - (rest - {id}));
      assert PartlyGone(base, ids, points - {id});
      points, trace := points - {id}, trace + [points - {id}];
    }

    method Delete(ids: set<string>, budget: Option<nat>) returns (done: bool, left: Option<nat>)
      requires Valid() && ids <= points.Keys
      modifies this
      ensures Valid()
      ensures done <==> Covers(budget, |ids|)
      ensures left == if budget.None? then None else Some(if done then budget.value - |ids| else 0)
      ensures done ==> points == old(points) - ids
      ensures PartlyGone(old(points), ids, points)
      ensures old(trace) <= trace
      ensures forall i :: |old(trace)| <= i < |trace| ==> PartlyGone(old(points), ids, trace[i])
    {
      var rest := ids;
      left := budget;
      assert ids - ids == {};
      while rest != {} && left != Some(0)
        invariant Valid() && Dropping(old(trace), trace, old(points), ids, rest, points)
        invariant Remains(budget, left, |ids| - |rest|)
        decreases rest
      {
        var id :| id in rest;
        DropPoint(id, old(trace), old(points), ids, rest);
        rest, left := rest - {id}, Spent(left);
      }
      done := rest == {};
      assert ids - {} == ids;
    }

    /** Expose the active version, hide the document's other points, delete legacy points - or
        delete both for a deleted document. */
    method ReconcileDocumentVersion(r: Row, budget: Option<nat>) returns (done: bool)
      requires Valid()
      modifies this
      ensures Valid()
      ensures budget.None? ==> done
      ensures done ==> points == ReconcileRow(old(points), r)
      ensures done ==> points.Keys <= old(points).Keys && forall id :: id in old(points) ==>
        var p := old(points)[id];
        var ours := p.tenant == r.tenant && p.document == Some(r.document);
        var legacy := p.tenant == r.tenant && p.filename == r.filename && p.version == None;
        && (id in points <==> if r.deleted then !ours && !legacy else !(r.deleteLegacy && legacy))
        && (id in points ==>
              (points[id] == if ours then p.(active := r.active.Some? && p.version == r.active) else p))
      ensures During(old(points), r, points)
      ensures old(trace) <= trace
      ensures forall i :: |old(trace)| <= i < |trace| ==> During(old(points), r, trace[i])
    {
      if r.deleted {
        done := DeleteDocument(r, budget);
      } else {
        var left: Option<nat>;
        LiveRowInSteps(points, r);
        done, left := ExposeThenHide(r, budget);
        if done && r.deleteLegacy {
          done, left := Delete(LegacyIds(points, r), left);
        }
      }
    }

    method DeleteDocument(r: Row, budget: Option<nat>) returns (done: bool)
      requires Valid() && r.deleted
      modifies this
      ensures Valid()
      ensures budget.None? ==> done
      ensures done ==> points == ReconcileRow(old(points), r)
      ensures During(old(points), r, points)
      ensures old(trace) <= trace
      ensures forall i :: |old(trace)| <= i < |trace| ==> During(old(points), r, trace[i])
    {
      var left: Option<nat>;
      done, left := Delete(DocumentIds(points, r), budget);
      if !done { return; }
      DeletedRowInSteps(old(points), r);
      done, left := Delete(LegacyIds(points, r), left);
    }

    method ExposeThenHide(r: Row, budget: Option<nat>) returns (done: bool, left: Option<nat>)
      requires Valid() && !r.deleted
      modifies this
      ensures Valid()
      ensures budget.None? ==> done && left.None?
      ensures done ==> points == ReconcileFlags(old(points), r)
      ensures During(old(points), r, points)
      ensures old(trace) <= trace
      ensures forall i :: |old(trace)| <= i < |trace| ==> During(old(points), r, trace[i])
    {
      done, left := true, budget;
      if r.active.Some? {
        done, left := SetActive(ActiveIds(points, r), true, budget);
        if !done { return; }
      } else {
        assert Flag(points, ActiveIds(points, r), true) == points;
      }
      assert OtherIds(points, r) == OtherIds(old(points), r);
      done, left := SetActive(OtherIds(points, r), false, left);
    }

    /** index_chunks: one upsert of prepared points. */
    method Upsert(ids: seq<string>, items: seq<Point>, budget: Option<nat>) returns (done: bool)
      requires Valid() && |ids| == |items|
      modifies this
      ensures Valid()
      ensures done <==> Covers(budget, |ids|)
      ensures done ==> points == Upserted(old(points), ids, items)
      ensures !done ==> points == Upserted(old(points), ids[..budget.value], items[..budget.value])
      ensures old(trace) <= trace
      ensures forall i :: |old(trace)| <= i < |trace| ==>
                exists k: nat :: k <= |ids| && trace[i] == Upserted(old(points), ids[..k], items[..k])
    {
      var k: nat := 0;
      while k < |ids| && budget != Some(k)
        invariant k <= |ids| && (budget.Some? ==> k <= budget.value)
        invariant points == Upserted(old(points), ids[..k], items[..k])
        invariant Valid() && old(trace) <= trace
        invariant forall i :: |old(trace)| <= i < |trace| ==>
                    exists k: nat :: k <= |ids| && trace[i] == Upserted(old(points), ids[..k], items[..k])
      {
        var next := points[ids[k] := items[k]];
        RecordsNext(trace, points, next, ids[k]);
        points, trace := next, trace + [next];
        assert ids[..k + 1][..k] == ids[..k] && items[..k + 1][..k] == items[..k];
        k := k + 1;
      }
      done := k == |ids|;
      assert done ==> ids[..k] == ids && items[..k] == items;
    }
  }

  function Upserted(points: Points, ids: seq<string>, items: seq<Point>): Points
    requires |ids| == |items|
  {
    if ids == [] then points
    else Upserted(points, ids[..|ids| - 1], items[..|ids| - 1])[ids[|ids| - 1] := items[|ids| - 1]]
  }
}
