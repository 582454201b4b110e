/**
 One version taking over its document while every other workflow goes on.

 The workflow is a program that knows only its own progress: persist the rows, upsert the points,
 commit the pointer, expose the new points, hide the others, clear the legacy ones.  It never looks at
 what the stores show; that its order is enough is the theorem.
 */
module Takeover {
  import opened Common
  import opened ChunkIdentity
  import opened IngestionStore
  import opened IngestionSafety
  import opened IngestionHistory
  import opened VectorIndex
  import opened Visibility
  import opened IngestionWorkflow
  import opened Interleaving

  // ---------------------------------------------------------------- the program

  /** The version a workflow is to publish, and the chunks it has made of it. */
  datatype Job = Job(u: Upload, chunks: seq<Chunk>) {
    function Row(): VectorIndex.Row { u.Row() }

    function Version(): Option<string> { Some(u.version) }

    function After(): set<string> { ChunkIds(u, chunks) }

    function Item(i: nat): Point
      requires i < |chunks|
    {
      ChunkPoint(u.tenant, u.document, u.version, u.filename, chunks[i], i)
    }

    function Saving(): Tx { u.Saving(chunks) }

    function Switching(): Tx { u.Switching() }
  }

  /** How far the workflow has come.  A filtered update works off the points its filter matched. */
  datatype Phase =
    | Persisting
    | Indexing(put: set<string>)   // the points this try has put
    | Activating
    | Exposing(todo: set<string>)
    | Hiding(todo: set<string>)
    | Clearing(todo: set<string>)

  datatype Action =
    | Save(fault: bool, acknowledged: bool)
    | PutChunk(i: nat)
    | Reindex
    | AllPut
    | Switch(fault: bool)
    | Show(id: string)
    | Shown
    | Conceal(id: string)
    | Concealed
    | Clear(id: string)
    | Again

  /** The order of the program, by its own bookkeeping alone; indexing and activation may start over. */
  predicate Permitted(phase: Phase, job: Job, a: Action) {
    match a
    case Save(_, _) => phase.Persisting?
    case PutChunk(i) => phase.Indexing? && i < |job.chunks|
    case Reindex => phase.Indexing?
    case AllPut => phase.Indexing? && phase.put == job.After()
    case Switch(_) => phase.Activating?
    case Show(id) => phase.Exposing? && id in phase.todo
    case Shown => phase.Exposing? && phase.todo == {}
    case Conceal(id) => phase.Hiding? && id in phase.todo
    case Concealed => phase.Hiding? && phase.todo == {}
    case Clear(id) => phase.Clearing? && id in phase.todo
    case Again => phase.Exposing? || phase.Hiding? || phase.Clearing?
  }

  ghost predicate Commits(s: System, tx: Tx, fault: bool) {
    !fault && Accepts(s.db, tx)
  }

  ghost function Next(s: System, phase: Phase, job: Job, a: Action): Phase
    requires Permitted(phase, job, a)
  {
    match a
    case Save(fault, acknowledged) =>
      if acknowledged && Commits(s, job.Saving(), fault) then Indexing({}) else Persisting
    case PutChunk(i) => Indexing(phase.put + {PointId(job.Item(i))})
    case Reindex => Indexing({})
    case AllPut => Activating
    case Switch(fault) =>
      if Commits(s, job.Switching(), fault) then Exposing(ActiveIds(s.points, job.Row())) else Activating
    case Show(id) => Exposing(phase.todo - {id})
    case Shown => Hiding(OtherIds(s.points, job.Row()))
    case Conceal(id) => Hiding(phase.todo - {id})
    case Concealed => Clearing(LegacyIds(s.points, job.Row()))
    case Clear(id) => Clearing(phase.todo - {id})
    case Again => Activating
  }

  predicate Possible(job: Job, a: Action) {
    a.PutChunk? ==> a.i < |job.chunks|
  }

  /** What the action does to the stores; a point that is gone or no longer matches is passed over. */
  ghost function Effected(s: System, job: Job, a: Action): Option<Move>
    requires Possible(job, a)
  {
    match a
    case Save(fault, _) => Some(Commit(IngestionStore.Event(job.Saving(), fault)))
    case PutChunk(i) => Some(Put(job.Item(i)))
    case Switch(fault) => Some(Commit(IngestionStore.Event(job.Switching(), fault)))
    case Show(id) => if id in ActiveIds(s.points, job.Row()) then Some(Expose(id, job.Row())) else None
    case Conceal(id) => if id in OtherIds(s.points, job.Row()) then Some(Hide(id, job.Row())) else None
    case Clear(id) => if id in LegacyIds(s.points, job.Row()) then Some(Drop(id, job.Row())) else None
    case _ => None
  }

  /** The version is registered for its document, under the ids it claims. */
  ghost predicate Registered(s: System, job: Job) {
    && IsUuid(job.u.tenant) && IsUuid(job.u.version)
    && OwnsVersion(s.db, job.u.version, job.u.document, job.u.tenant)
  }

  lemma EffectedIsEnabled(s: System, job: Job, a: Action)
    requires Registered(s, job) && Possible(job, a)
    ensures Effected(s, job, a).Some? ==> Enabled(s, Effected(s, job, a).value)
  {
  }

  ghost function Performed(s: System, job: Job, a: Action): System
    requires Registered(s, job) && Possible(job, a)
  {
    EffectedIsEnabled(s, job, a);
    if Effected(s, job, a).Some? then Step(s, Effected(s, job, a).value) else s
  }

  // ---------------------------------------------------------------- runs

  datatype Running = Running(system: System, phase: Phase)

  /** The workflow's own next action, or a move of anybody else. */
  datatype Turn = Own(action: Action) | Others(move: Move)

  ghost predicate MayTurn(r: Running, turn: Turn, job: Job) {
    match turn
    case Own(a) => Registered(r.system, job) && Permitted(r.phase, job, a)
    case Others(m) => Enabled(r.system, m) && Foreign(m, job.u.document)
  }

  ghost function Turned(r: Running, turn: Turn, job: Job): Running
    requires MayTurn(r, turn, job)
  {
    match turn
    case Own(a) => Running(Performed(r.system, job, a), Next(r.system, r.phase, job, a))
    case Others(m) => r.(system := Step(r.system, m))
  }

  ghost predicate MayRun(r: Running, turns: seq<Turn>, job: Job)
    decreases |turns|
  {
    turns == [] || (MayTurn(r, turns[0], job) && MayRun(Turned(r, turns[0], job), turns[1..], job))
  }

  ghost function Ran(r: Running, turns: seq<Turn>, job: Job): Running
    requires MayRun(r, turns, job)
    decreases |turns|
  {
    if turns == [] then r else Ran(Turned(r, turns[0], job), turns[1..], job)
  }

  // ---------------------------------------------------------------- what each phase knows

  /** A takeover: who is to take over, from which version, and the rows and points that one has. */
  datatype Plan = Plan(job: Job, previous: Option<string>, rows: seq<ChunkRow>, before: set<string>)

  function Shows(s: System, plan: Plan): set<string> {
    VisibleVersioned(s.points, plan.job.Row())
  }

  function NewPoints(s: System, plan: Plan): set<string> {
    OfVersion(s.points, plan.job.Row(), plan.job.Version())
  }

  function Pointer(s: System, plan: Plan): Option<string> {
    PointerOf(s.db, plan.job.u.document)
  }

  ghost predicate Underway(s: System, plan: Plan) {
    && Sound(s) && Registered(s, plan.job) && plan.job.u.document in s.db.documents
    && plan.previous != plan.job.Version()
    && OfVersion(s.points, plan.job.Row(), plan.previous) == plan.before
    && NewPoints(s, plan) <= plan.job.After()
  }

  ghost predicate OldStands(s: System, plan: Plan) {
    && Pointer(s, plan) == plan.previous && ActiveRows(s.db, plan.job.u.document) == plan.rows
    && Shows(s, plan) == plan.before
  }

  ghost predicate NewStands(s: System, plan: Plan) {
    && Pointer(s, plan) == plan.job.Version() && NewPoints(s, plan) == plan.job.After()
    && SeesOldOrNew(s.points, plan.job.Row(), plan.before, plan.job.After())
  }

  ghost predicate PhaseHolds(s: System, phase: Phase, plan: Plan) {
    match phase
    case Persisting => OldStands(s, plan)
    case Indexing(put) => OldStands(s, plan) && put <= NewPoints(s, plan)
    case Activating => NewPoints(s, plan) == plan.job.After() && (OldStands(s, plan) || NewStands(s, plan))
    case Exposing(todo) => NewStands(s, plan) && plan.job.After() - todo <= Shows(s, plan)
    case Hiding(todo) =>
      NewStands(s, plan) && plan.job.After() <= Shows(s, plan) && Shows(s, plan) <= plan.job.After() + todo
    case Clearing(_) => NewStands(s, plan) && Shows(s, plan) == plan.job.After()
  }

  ghost predicate Holds(r: Running, plan: Plan) {
    Underway(r.system, plan) && PhaseHolds(r.system, r.phase, plan)
  }

  // ---------------------------------------------------------------- moves of others

  lemma OthersKeepRegistered(s: System, m: Move, job: Job)
    requires Sound(s) && Enabled(s, m) && Registered(s, job)
    ensures Registered(Step(s, m), job)
  {
    if m.Commit? {
      ApplyLater(s.db, m.event);
      assert VersionLater(s.db, Step(s, m).db, job.u.version);
    }
  }

  lemma OthersKeep(r: Running, m: Move, plan: Plan)
    requires Holds(r, plan) && MayTurn(r, Others(m), plan.job)
    ensures Holds(Turned(r, Others(m), plan.job), plan)
  {
    var s, t := r.system, Step(r.system, m);
    ForeignMoveIsUnseen(s, m, plan.job.Row());
    MoveKeepsSound(s, m);
    OthersKeepRegistered(s, m, plan.job);
    assert OfVersion(t.points, plan.job.Row(), plan.previous) == OfVersion(s.points, plan.job.Row(), plan.previous);
    assert NewPoints(t, plan) == NewPoints(s, plan) && Shows(t, plan) == Shows(s, plan);
    assert Pointer(t, plan) == Pointer(s, plan);
  }

  // ---------------------------------------------------------------- the workflow's own actions

  lemma SaveKeeps(r: Running, a: Action, plan: Plan)
    requires Holds(r, plan) && a.Save? && MayTurn(r, Own(a), plan.job)
    ensures Holds(Turned(r, Own(a), plan.job), plan)
  {
    var m := Effected(r.system, plan.job, a).value;
    EffectedIsEnabled(r.system, plan.job, a);
    OthersKeep(r, m, plan);
  }

  /** Putting a chunk adds its point to the version's and changes nothing else of the document. */
  lemma PutAdds(s: System, i: nat, plan: Plan)
    requires Underway(s, plan) && i < |plan.job.chunks| && Shows(s, plan) == plan.before
    ensures var t, id := Step(s, Put(plan.job.Item(i))), PointId(plan.job.Item(i));
            && id in plan.job.After() && NewPoints(t, plan) == NewPoints(s, plan) + {id}
            && OfVersion(t.points, plan.job.Row(), plan.previous) == plan.before && Shows(t, plan) == Shows(s, plan)
  {
    var job, p := plan.job, plan.job.Item(i);
    var t, id := Step(s, Put(p)), PointId(p);
    if id in s.points { PutOverwritesItsOwn(s, p); }
    assert id in job.After();
    assert id !in OfVersion(s.points, job.Row(), plan.previous);
    assert OfVersion(t.points, job.Row(), plan.previous) == OfVersion(s.points, job.Row(), plan.previous);
    assert NewPoints(t, plan) == NewPoints(s, plan) + {id};
    assert Shows(t, plan) == Shows(s, plan);
  }

  lemma PutKeeps(r: Running, i: nat, plan: Plan)
    requires Holds(r, plan) && MayTurn(r, Own(PutChunk(i)), plan.job)
    ensures Holds(Turned(r, Own(PutChunk(i)), plan.job), plan)
  {
    var m := Put(plan.job.Item(i));
    MoveKeepsSound(r.system, m);
    OthersKeepRegistered(r.system, m, plan.job);
    PutAdds(r.system, i, plan);
  }

  lemma SwitchKeeps(r: Running, a: Action, plan: Plan)
    requires Holds(r, plan) && a.Switch? && MayTurn(r, Own(a), plan.job)
    ensures Holds(Turned(r, Own(a), plan.job), plan)
  {
    var s, job := r.system, plan.job;
    var m := Effected(s, job, a).value;
    var t := Step(s, m);
    MoveKeepsSound(s, m);
    OthersKeepRegistered(s, m, job);
    if Commits(s, job.Switching(), a.fault) {
      assert t.db.documents[job.u.document].active == job.Version();
      assert ActiveIds(s.points, job.Row()) == NewPoints(s, plan);
    } else {
      assert t == s;
    }
  }

  lemma FlagKeepsVersions(points: Points, id: string, on: bool, r: Row, v: Option<string>)
    requires id in points
    ensures OfVersion(points[id := points[id].(active := on)], r, v) == OfVersion(points, r, v)
  {
    var x := points[id := points[id].(active := on)];
    forall o ensures o in OfVersion(x, r, v) <==> o in OfVersion(points, r, v) { }
  }

  lemma FlaggedKeepsUnderway(s: System, m: Move, plan: Plan)
    requires Underway(s, plan) && Enabled(s, m) && (m.Expose? || m.Hide?)
    ensures Underway(Step(s, m), plan) && NewPoints(Step(s, m), plan) == NewPoints(s, plan)
  {
    MoveKeepsSound(s, m);
    FlagKeepsVersions(s.points, m.id, m.Expose?, plan.job.Row(), plan.previous);
    FlagKeepsVersions(s.points, m.id, m.Expose?, plan.job.Row(), plan.job.Version());
  }

  lemma ShowKeeps(r: Running, id: string, plan: Plan)
    requires Holds(r, plan) && MayTurn(r, Own(Show(id)), plan.job)
    ensures Holds(Turned(r, Own(Show(id)), plan.job), plan)
  {
    var s, job := r.system, plan.job;
    if id in ActiveIds(s.points, job.Row()) {
      var t := Step(s, Expose(id, job.Row()));
      FlaggedKeepsUnderway(s, Expose(id, job.Row()), plan);
      assert id in NewPoints(s, plan);
      assert Shows(t, plan) == Shows(s, plan) + {id};
    } else {
      assert id !in NewPoints(s, plan);
    }
  }

  lemma ConcealKeeps(r: Running, id: string, plan: Plan)
    requires Holds(r, plan) && MayTurn(r, Own(Conceal(id)), plan.job)
    ensures Holds(Turned(r, Own(Conceal(id)), plan.job), plan)
  {
    var s, job := r.system, plan.job;
    if id in OtherIds(s.points, job.Row()) {
      var t := Step(s, Hide(id, job.Row()));
      FlaggedKeepsUnderway(s, Hide(id, job.Row()), plan);
      assert id !in NewPoints(s, plan);
      HiddenShows(s, id, plan);
    } else {
      forall o | o in Shows(s, plan) && o !in plan.job.After() ensures o in OtherIds(s.points, job.Row()) {
        assert o !in NewPoints(s, plan);
      }
    }
  }

  lemma HiddenShows(s: System, id: string, plan: Plan)
    requires id in OtherIds(s.points, plan.job.Row())
    ensures var t := Step(s, Hide(id, plan.job.Row()));
            Shows(t, plan) == if s.points[id].version.Some? then Shows(s, plan) - {id} else Shows(s, plan)
  {
    var t := Step(s, Hide(id, plan.job.Row()));
    forall o ensures o in Shows(t, plan) <==> o in Shows(s, plan) && (o != id || s.points[id].version.None?) { }
  }

  lemma ClearKeeps(r: Running, id: string, plan: Plan)
    requires Holds(r, plan) && MayTurn(r, Own(Clear(id)), plan.job)
    ensures Holds(Turned(r, Own(Clear(id)), plan.job), plan)
  {
    var s, row := r.system, plan.job.Row();
    if id in LegacyIds(s.points, row) {
      var t := Step(s, Drop(id, row));
      MoveKeepsSound(s, Drop(id, row));
      assert t.points - {id} == s.points - {id};
      OutsideChange(s.points, t.points, id, row);
      assert OfVersion(t.points, row, plan.previous) == OfVersion(s.points, row, plan.previous);
      assert NewPoints(t, plan) == NewPoints(s, plan) && Shows(t, plan) == Shows(s, plan);
    }
  }

  lemma BookkeepingKeeps(r: Running, a: Action, plan: Plan)
    requires Holds(r, plan) && MayTurn(r, Own(a), plan.job) && a in {Reindex, AllPut, Shown, Concealed, Again}
    ensures Holds(Turned(r, Own(a), plan.job), plan)
  {
    var s, row := r.system, plan.job.Row();
    if a.Shown? {
      forall o | o in Shows(s, plan) && o !in plan.job.After() ensures o in OtherIds(s.points, row) {
        assert o !in NewPoints(s, plan);
      }
    }
  }

  lemma TurnKeeps(r: Running, turn: Turn, plan: Plan)
    requires Holds(r, plan) && MayTurn(r, turn, plan.job)
    ensures Holds(Turned(r, turn, plan.job), plan)
  {
    match turn
    case Others(m) => OthersKeep(r, m, plan);
    case Own(a) =>
      match a
      case Save(_, _) => SaveKeeps(r, a, plan);
      case PutChunk(i) => PutKeeps(r, i, plan);
      case Switch(_) => SwitchKeeps(r, a, plan);
      case Show(id) => ShowKeeps(r, id, plan);
      case Conceal(id) => ConcealKeeps(r, id, plan);
      case Clear(id) => ClearKeeps(r, id, plan);
      case _ => BookkeepingKeeps(r, a, plan);
  }

  // ---------------------------------------------------------------- every run

  /** The document shows exactly its previous version; of the new one nothing but its own points is there. */
  ghost predicate Starts(r: Running, plan: Plan) {
    && r.phase.Persisting? && Sound(r.system) && Registered(r.system, plan.job)
    && plan.job.u.document in r.system.db.documents && plan.previous != plan.job.Version()
    && NewPoints(r.system, plan) <= plan.job.After() && OldStands(r.system, plan)
    && OfVersion(r.system.points, plan.job.Row(), plan.previous) == plan.before
  }

  lemma {:induction false} EveryRunHolds(r: Running, turns: seq<Turn>, plan: Plan)
    requires Holds(r, plan) && MayRun(r, turns, plan.job)
    ensures Holds(Ran(r, turns, plan.job), plan)
    decreases |turns|
  {
    if turns != [] {
      TurnKeeps(r, turns[0], plan);
      EveryRunHolds(Turned(r, turns[0], plan.job), turns[1..], plan);
    }
  }

  lemma StartHolds(r: Running, plan: Plan)
    requires Starts(r, plan)
    ensures Holds(r, plan)
  {
  }

  lemma HoldingShows(r: Running, plan: Plan)
    requires Holds(r, plan)
    ensures SeesOldOrNew(r.system.points, plan.job.Row(), plan.before, plan.job.After())
    ensures Pointer(r.system, plan) in {plan.previous, plan.job.Version()}
    ensures Pointer(r.system, plan) == plan.previous ==> OldStands(r.system, plan)
    ensures r.phase == Hiding({}) || r.phase.Clearing? ==>
              Pointer(r.system, plan) == plan.job.Version() && Shows(r.system, plan) == plan.job.After()
  {
  }

  /** However the moves of all others fall between the workflow's own actions, and however often it starts
      its indexing or its activation over: the document always shows the old version completely or the new
      one, and nothing else; until the pointer moves its rows and
      what it shows are exactly the old ones; and the workflow that has
      hidden the last point leaves the pointer on the new version and exactly its points shown. */
  lemma TakeoverUnderInterleaving(r: Running, turns: seq<Turn>, plan: Plan)
    requires Starts(r, plan) && MayRun(r, turns, plan.job)
    ensures var t := Ran(r, turns, plan.job);
            && Sound(t.system)
            && SeesOldOrNew(t.system.points, plan.job.Row(), plan.before, plan.job.After())
            && Pointer(t.system, plan) in {plan.previous, plan.job.Version()}
            && (Pointer(t.system, plan) == plan.previous ==> OldStands(t.system, plan))
            && (t.phase == Hiding({}) || t.phase.Clearing? ==>
                  Pointer(t.system, plan) == plan.job.Version() && Shows(t.system, plan) == plan.job.After())
  {
    StartHolds(r, plan);
    EveryRunHolds(r, turns, plan);
    HoldingShows(Ran(r, turns, plan.job), plan);
  }

  // ---------------------------------------------------------------- the program gets there

  /** The transactions of the workflow will be accepted. */
  ghost predicate Accepted(s: System, phase: Phase, job: Job) {
    var u := job.u;
    && Registered(s, job) && OwnsDocument(s.db, u.document, u.tenant) && !s.db.documents[u.document].status.DocDeleted?
    && (if phase.Persisting? then s.db.versions[u.version].status.Staged? && Accepts(s.db, job.Saving())
        else s.db.versions[u.version].status in {Staged, Active})
    && (phase.Indexing? ==> phase.put <= job.After())
  }

  function Rank(phase: Phase): nat {
    match phase
    case Persisting => 5
    case Indexing(_) => 4
    case Activating => 3
    case Exposing(_) => 2
    case Hiding(_) => 1
    case Clearing(_) => 0
  }

  function Left(phase: Phase, job: Job): set<string> {
    match phase
    case Indexing(put) => job.After() - put
    case Exposing(todo) => todo
    case Hiding(todo) => todo
    case Clearing(todo) => todo
    case _ => {}
  }

  lemma AfterAreItems(job: Job, id: string) returns (i: nat)
    requires id in job.After()
    ensures i < |job.chunks| && PointId(job.Item(i)) == id
  {
    var u, chunks := job.u, job.chunks;
    i :| 0 <= i < |chunks| && Identity(u.tenant, u.filename, chunks[i].page, i, Some(u.version)) == id;
  }

  lemma NextChunk(put: set<string>, job: Job) returns (i: nat)
    requires put < job.After()
    ensures i < |job.chunks| && PointId(job.Item(i)) in job.After() - put
  {
    var id := Missing(put, job.After());
    i := AfterAreItems(job, id);
  }

  lemma Missing(small: set<string>, big: set<string>) returns (id: string)
    requires small < big
    ensures id in big - small
  {
    assert (forall o :: o in big ==> o in small) ==> big <= small;
    id :| id in big && id !in small;
  }

  /** The action that comes next when nothing fails. */
  lemma NextAction(phase: Phase, job: Job) returns (a: Action)
    requires phase != Clearing({}) && (phase.Indexing? ==> phase.put <= job.After())
    ensures Permitted(phase, job, a) && a !in {Reindex, Again}
    ensures a.Save? ==> a == Save(false, true)
    ensures a.Switch? ==> a == Switch(false)
    ensures a.PutChunk? ==> PointId(job.Item(a.i)) in Left(phase, job)
  {
    match phase
    case Persisting => a := Save(false, true);
    case Activating => a := Switch(false);
    case Indexing(put) =>
      if put == job.After() { a := AllPut; } else { var i := NextChunk(put, job); a := PutChunk(i); }
    case Exposing(todo) => if todo == {} { a := Shown; } else { var id :| id in todo; a := Show(id); }
    case Hiding(todo) => if todo == {} { a := Concealed; } else { var id :| id in todo; a := Conceal(id); }
    case Clearing(todo) => var id :| id in todo; a := Clear(id);
  }

  lemma ActionStaysAccepted(s: System, phase: Phase, job: Job, a: Action)
    requires Accepted(s, phase, job) && Permitted(phase, job, a) && a !in {Reindex, Again}
    requires (a.Save? ==> a == Save(false, true)) && (a.Switch? ==> a == Switch(false))
    ensures Accepted(Performed(s, job, a), Next(s, phase, job, a), job)
    ensures a.Save? || a.Switch? ==> Rank(Next(s, phase, job, a)) < Rank(phase)
  {
  }

  /** From anywhere in the program, with nothing failing and nobody interfering, some run completes it. */
  lemma {:induction false} CanComplete(r: Running, job: Job) returns (turns: seq<Turn>)
    requires Accepted(r.system, r.phase, job)
    ensures forall i :: 0 <= i < |turns| ==> turns[i].Own?
    ensures MayRun(r, turns, job) && Ran(r, turns, job).phase == Clearing({})
    decreases Rank(r.phase), |Left(r.phase, job)|
  {
    if r.phase == Clearing({}) { return []; }
    var a := NextAction(r.phase, job);
    ActionStaysAccepted(r.system, r.phase, job, a);
    var next := Turned(r, Own(a), job);
    assert Rank(next.phase) < Rank(r.phase) || Left(next.phase, job) < Left(r.phase, job);
    if Rank(next.phase) == Rank(r.phase) { SmallerLeft(Left(next.phase, job), Left(r.phase, job)); }
    var rest := CanComplete(next, job);
    turns := [Own(a)] + rest;
    assert turns[1..] == rest;
  }

  lemma SmallerLeft(small: set<string>, big: set<string>)
    requires small < big
    ensures |small| < |big|
  {
    SubsetSmaller(small, big);
    assert big == small + (big - small);
  }
}
