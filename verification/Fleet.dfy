/**
 All ingestion workflows, deletions and reconciles at once, from an empty installation: any number of
 workflows, several of them on one document if need be, threads of tries that were given up on, reconciles
 that work from rows read long ago, everything interleaved point by point.  Whatever version is active was
 indexed completely - so a clean reconcile makes dense and lexical search agree without further assumptions.
 */
module Fleet {
  import opened Common
  import opened ChunkIdentity
  import opened IngestionStore
  import opened IngestionSafety
  import opened IngestionHistory
  import opened VectorIndex
  import opened Visibility
  import opened IngestionWorkflow
  import opened Interleaving
  import opened Takeover

  datatype Flow = Flow(job: Job, phase: Phase)

  /** The stores, the workflows by the version each publishes, and every document row that a deletion or
      a reconcile has read so far. */
  datatype Fleet = Fleet(system: System, flows: map<Uuid, Flow>, read: set<Row>)

  datatype Deed =
    | Launch(job: Job, fault: bool)          // a workflow registers a version of its own
    | Work(version: Uuid, action: Action)    // its program goes on
    | Straggle(version: Uuid, action: Action)  // a try that was given up on goes on in its thread
    | Record(event: IngestionStore.Event)    // any other transaction
    | Read(document: Uuid)                   // a reconcile or deletion reads a document's row
    | Mend(move: Move)                       // and updates a point by a row read some time before

  /** What a thread may still do of a try that the workflow has stopped waiting for. */
  predicate MayStraggle(phase: Phase, job: Job, a: Action) {
    match a
    case Save(_, _) => true
    case PutChunk(i) => !phase.Persisting? && i < |job.chunks|
    case Switch(_) => !phase.Persisting? && !phase.Indexing?
    case Show(_) => !phase.Persisting? && !phase.Indexing?
    case Conceal(_) => !phase.Persisting? && !phase.Indexing?
    case Clear(_) => !phase.Persisting? && !phase.Indexing?
    case _ => false
  }

  ghost predicate CanDo(f: Fleet, a: Deed) {
    match a
    case Launch(job, _) => job.u.version !in f.flows && IsUuid(job.u.tenant) && IsUuid(job.u.version)
    case Work(v, action) =>
      v in f.flows && Registered(f.system, f.flows[v].job) && Permitted(f.flows[v].phase, f.flows[v].job, action)
    case Straggle(v, action) =>
      v in f.flows && Registered(f.system, f.flows[v].job) && MayStraggle(f.flows[v].phase, f.flows[v].job, action)
    case Record(e) => !e.tx.Persist? && !e.tx.Activate?
    case Read(d) => d in f.system.db.documents
    case Mend(m) => (m.Expose? || m.Hide? || m.Drop?) && m.row in f.read && Enabled(f.system, m)
  }

  ghost function Launched(f: Fleet, job: Job, fault: bool): Fleet {
    var system := Step(f.system, Commit(IngestionStore.Event(job.u.Registering(), fault)));
    if Commits(f.system, job.u.Registering(), fault)
    then f.(system := system, flows := f.flows[job.u.version := Flow(job, Persisting)])
    else f
  }

  ghost function Worked(f: Fleet, v: Uuid, action: Action): Fleet
    requires CanDo(f, Work(v, action))
  {
    var flow := f.flows[v];
    f.(system := Performed(f.system, flow.job, action),
       flows := f.flows[v := flow.(phase := Next(f.system, flow.phase, flow.job, action))])
  }

  ghost function Do(f: Fleet, a: Deed): Fleet
    requires CanDo(f, a)
  {
    match a
    case Launch(job, fault) => Launched(f, job, fault)
    case Work(v, action) => Worked(f, v, action)
    case Straggle(v, action) => f.(system := Performed(f.system, f.flows[v].job, action))
    case Record(e) => f.(system := Step(f.system, Commit(e)))
    case Read(d) => f.(read := f.read + {RowOf(f.system.db, d)})
    case Mend(m) => f.(system := Step(f.system, m))
  }

  ghost predicate CanRun(f: Fleet, deeds: seq<Deed>)
    decreases |deeds|
  {
    deeds == [] || (CanDo(f, deeds[0]) && CanRun(Do(f, deeds[0]), deeds[1..]))
  }

  ghost function After(f: Fleet, deeds: seq<Deed>): Fleet
    requires CanRun(f, deeds)
    decreases |deeds|
  {
    if deeds == [] then f else After(Do(f, deeds[0]), deeds[1..])
  }

  /** An installation before its first versioned ingestion: no rows, and at most legacy points. */
  ghost predicate Fresh(f: Fleet) {
    && f.system.db == EMPTY && f.flows == map[] && f.read == {} && WellKeyed(f.system.points)
    && forall id :: id in f.system.points ==> f.system.points[id].version.None?
  }

  // ---------------------------------------------------------------- the invariant

  predicate Gone(db: Db, d: Uuid) {
    d in db.documents && db.documents[d].status.DocDeleted?
  }

  /** The points the workflow relies on having put. */
  function Promised(flow: Flow): set<string> {
    match flow.phase
    case Persisting => {}
    case Indexing(put) => put
    case _ => flow.job.After()
  }

  predicate Named(db: Db, u: Upload) {
    OwnsDocument(db, u.document, u.tenant) && db.documents[u.document].filename == u.filename
  }

  ghost predicate FlowOk(f: Fleet, v: Uuid)
    requires v in f.flows
  {
    var job, s := f.flows[v].job, f.system;
    && job.u.version == v && Registered(s, job) && Named(s.db, job.u)
    && (!f.flows[v].phase.Persisting? ==> RowsReady(s.db, job.u, job.chunks))
    && (!Gone(s.db, job.u.document) ==> Promised(f.flows[v]) <= OfVersion(s.points, job.Row(), job.Version()))
  }

  /** A versioned point was put by the workflow of its version, from its chunks, once their rows were saved. */
  ghost predicate PointOk(f: Fleet, id: string)
    requires id in f.system.points
  {
    var p := f.system.points[id];
    p.version.Some? ==>
      && p.version.value in f.flows
      && var job := f.flows[p.version.value].job;
         id in job.After() && Quotes(job.u, job.chunks, p) && !f.flows[p.version.value].phase.Persisting?
  }

  /** A pointer was moved by the workflow of its version, after indexing. */
  ghost predicate PointerOk(f: Fleet, d: Uuid)
    requires d in f.system.db.documents
  {
    var active := f.system.db.documents[d].active;
    active.Some? ==>
      && active.value in f.flows && f.flows[active.value].job.u.document == d
      && !f.flows[active.value].phase.Persisting? && !f.flows[active.value].phase.Indexing?
  }

  /** A row read as deleted is still one: deletion is for good. */
  ghost predicate ReadOk(f: Fleet, r: Row) {
    r.deleted ==> Gone(f.system.db, r.document)
  }

  ghost predicate Consistent(f: Fleet) {
    && Sound(f.system)
    && (forall v {:trigger FlowOk(f, v)} :: v in f.flows ==> FlowOk(f, v))
    && (forall id {:trigger PointOk(f, id)} :: id in f.system.points ==> PointOk(f, id))
    && (forall d {:trigger PointerOk(f, d)} :: d in f.system.db.documents ==> PointerOk(f, d))
    && (forall r {:trigger ReadOk(f, r)} :: r in f.read ==> ReadOk(f, r))
  }

  // ---------------------------------------------------------------- transactions

  /** Rows of a version change only when that version is persisted. */
  lemma RowsFrame(db: Db, e: IngestionStore.Event, v: Uuid)
    requires !(e.tx.Persist? && e.tx.version == v)
    ensures RowsOf(IngestionStore.Apply(db, e), v) == RowsOf(db, v)
  {
  }

  lemma PointerFrameOrGone(db: Db, e: IngestionStore.Event, d: Uuid)
    requires Inv(db) && !e.tx.Activate? && d in IngestionStore.Apply(db, e).documents
    requires IngestionStore.Apply(db, e).documents[d].active.Some?
    ensures PointerOf(db, d) == IngestionStore.Apply(db, e).documents[d].active
  {
    if !e.fault && Accepts(db, e.tx) && !e.tx.Bury? {
      if d in db.documents { PointerFrame(db, e.tx, d); } else { NewDocumentHasNoPointer(db, e.tx, d); }
    }
  }

  lemma DocumentsStay(db: Db, e: IngestionStore.Event, d: Uuid)
    requires Inv(db) && d in db.documents
    ensures d in IngestionStore.Apply(db, e).documents
    ensures IngestionStore.Apply(db, e).documents[d].filename == db.documents[d].filename
    ensures IngestionStore.Apply(db, e).documents[d].tenant == db.documents[d].tenant
    ensures Gone(db, d) ==> Gone(IngestionStore.Apply(db, e), d)
  {
    ApplyLater(db, e);
    assert DocumentLater(db, IngestionStore.Apply(db, e), d);
  }

  /** A transaction persists a version only with the chunks of its workflow. */
  predicate SavesOwn(f: Fleet, e: IngestionStore.Event, v: Uuid)
    requires v in f.flows
  {
    e.tx.Persist? && e.tx.version == v ==> f.flows[v].phase.Persisting? || e.tx == f.flows[v].job.Saving()
  }

  lemma RowsStayReady(db: Db, e: IngestionStore.Event, job: Job)
    requires RowsReady(db, job.u, job.chunks)
    requires e.tx.Persist? && e.tx.version == job.u.version ==> e.tx == job.Saving()
    ensures RowsOf(IngestionStore.Apply(db, e), job.u.version) == Rows(job.chunks, job.u.filename)
  {
    if !(e.tx.Persist? && e.tx.version == job.u.version) { RowsFrame(db, e, job.u.version); }
  }

  /** What a transaction leaves of a workflow. */
  lemma CommitKeepsFlow(f: Fleet, e: IngestionStore.Event, v: Uuid)
    requires Sound(f.system) && v in f.flows && FlowOk(f, v)
    requires SavesOwn(f, e, v)
    ensures FlowOk(f.(system := Step(f.system, Commit(e))), v)
  {
    var job := f.flows[v].job;
    OthersKeepRegistered(f.system, Commit(e), job);
    assert VersionOk(f.system.db, v);
    DocumentsStay(f.system.db, e, job.u.document);
    if !f.flows[v].phase.Persisting? { RowsStayReady(f.system.db, e, job); }
  }

  lemma CommitKeeps(f: Fleet, e: IngestionStore.Event)
    requires Consistent(f) && !e.tx.Activate?
    requires forall v :: v in f.flows ==> SavesOwn(f, e, v)
    ensures Consistent(f.(system := Step(f.system, Commit(e))))
  {
    var g := f.(system := Step(f.system, Commit(e)));
    MoveKeepsSound(f.system, Commit(e));
    forall v | v in g.flows ensures FlowOk(g, v) { assert FlowOk(f, v); CommitKeepsFlow(f, e, v); }
    forall id | id in g.system.points ensures PointOk(g, id) { assert PointOk(f, id); }
    forall d | d in g.system.db.documents ensures PointerOk(g, d) {
      if g.system.db.documents[d].active.Some? {
        PointerFrameOrGone(f.system.db, e, d);
        assert PointerOk(f, d);
      }
    }
    forall r | r in g.read ensures ReadOk(g, r) {
      assert ReadOk(f, r);
      if r.deleted { DocumentsStay(f.system.db, e, r.document); }
    }
  }

  // ---------------------------------------------------------------- deeds one by one

  lemma RegisteringNames(f: Fleet, job: Job)
    requires Sound(f.system) && IsUuid(job.u.tenant) && IsUuid(job.u.version)
    requires Accepts(f.system.db, job.u.Registering())
    ensures var t := Step(f.system, Commit(IngestionStore.Event(job.u.Registering(), false)));
            Registered(t, job) && Named(t.db, job.u)
  {
  }

  /** One workflow more. */
  lemma JoinKeeps(f: Fleet, job: Job)
    requires Consistent(f) && job.u.version !in f.flows && Registered(f.system, job) && Named(f.system.db, job.u)
    ensures Consistent(f.(flows := f.flows[job.u.version := Flow(job, Persisting)]))
  {
    var g := f.(flows := f.flows[job.u.version := Flow(job, Persisting)]);
    forall v | v in g.flows ensures FlowOk(g, v) { assert v in f.flows ==> FlowOk(f, v); }
    forall id | id in g.system.points ensures PointOk(g, id) { assert PointOk(f, id); }
    forall d | d in g.system.db.documents ensures PointerOk(g, d) { assert PointerOk(f, d); }
    forall r | r in g.read ensures ReadOk(g, r) { assert ReadOk(f, r); }
  }

  lemma LaunchKeeps(f: Fleet, job: Job, fault: bool)
    requires Consistent(f) && CanDo(f, Launch(job, fault))
    ensures Consistent(Do(f, Launch(job, fault)))
  {
    var e := IngestionStore.Event(job.u.Registering(), fault);
    CommitKeeps(f, e);
    if Commits(f.system, job.u.Registering(), fault) {
      RegisteringNames(f, job);
      JoinKeeps(f.(system := Step(f.system, Commit(e))), job);
    }
  }

  lemma ReadKeeps(f: Fleet, d: Uuid)
    requires Consistent(f) && CanDo(f, Read(d))
    ensures Consistent(Do(f, Read(d)))
  {
    var g := Do(f, Read(d));
    forall v | v in g.flows ensures FlowOk(g, v) { assert FlowOk(f, v); }
    forall id | id in g.system.points ensures PointOk(g, id) { assert PointOk(f, id); }
    forall x | x in g.system.db.documents ensures PointerOk(g, x) { assert PointerOk(f, x); }
    forall r | r in g.read ensures ReadOk(g, r) { assert r in f.read ==> ReadOk(f, r); }
  }

  /** A flag changed, or a point dropped that is legacy or of a deleted document. */
  ghost predicate Harmless(f: Fleet, m: Move) {
    && Enabled(f.system, m)
    && (m.Expose? || m.Hide? || (m.Drop? && (m.row.deleted ==> Gone(f.system.db, m.row.document))))
  }

  lemma HarmlessKeepsFlow(f: Fleet, m: Move, v: Uuid)
    requires Sound(f.system) && v in f.flows && FlowOk(f, v) && Harmless(f, m)
    ensures FlowOk(f.(system := Step(f.system, m)), v)
  {
    var job, s, t := f.flows[v].job, f.system, Step(f.system, m);
    forall id | id in OfVersion(s.points, job.Row(), job.Version()) && !Gone(s.db, job.u.document)
      ensures id in OfVersion(t.points, job.Row(), job.Version())
    {
    }
  }

  lemma HarmlessKeeps(f: Fleet, m: Move)
    requires Consistent(f) && Harmless(f, m)
    ensures Consistent(f.(system := Step(f.system, m)))
  {
    var g := f.(system := Step(f.system, m));
    MoveKeepsSound(f.system, m);
    forall v | v in g.flows ensures FlowOk(g, v) { assert FlowOk(f, v); HarmlessKeepsFlow(f, m, v); }
    forall id | id in g.system.points ensures PointOk(g, id) { assert PointOk(f, id); }
    forall d | d in g.system.db.documents ensures PointerOk(g, d) { assert PointerOk(f, d); }
    forall r | r in g.read ensures ReadOk(g, r) { assert ReadOk(f, r); }
  }

  lemma MendKeeps(f: Fleet, m: Move)
    requires Consistent(f) && CanDo(f, Mend(m))
    ensures Consistent(Do(f, Mend(m)))
  {
    assert ReadOk(f, m.row);
    HarmlessKeeps(f, m);
  }

  // ---------------------------------------------------------------- a workflow's own work

  /** Progress of one workflow, with the stores as they are. */
  lemma PhaseKeeps(f: Fleet, v: Uuid, phase: Phase)
    requires Consistent(f) && v in f.flows
    requires FlowOk(f.(flows := f.flows[v := f.flows[v].(phase := phase)]), v)
    requires phase.Persisting? || phase.Indexing? ==> f.flows[v].phase.Persisting? || f.flows[v].phase.Indexing?
    requires phase.Persisting? ==> f.flows[v].phase.Persisting?
    ensures Consistent(f.(flows := f.flows[v := f.flows[v].(phase := phase)]))
  {
    var g := f.(flows := f.flows[v := f.flows[v].(phase := phase)]);
    forall w | w in g.flows ensures FlowOk(g, w) { assert FlowOk(f, w); }
    forall id | id in g.system.points ensures PointOk(g, id) { assert PointOk(f, id); }
    forall d | d in g.system.db.documents ensures PointerOk(g, d) { assert PointerOk(f, d); }
    forall r | r in g.read ensures ReadOk(g, r) { assert ReadOk(f, r); }
  }

  lemma SaveKeepsFleet(f: Fleet, v: Uuid, a: Action)
    requires Consistent(f) && a.Save? && CanDo(f, Work(v, a))
    ensures Consistent(Do(f, Work(v, a)))
  {
    var job, e := f.flows[v].job, IngestionStore.Event(f.flows[v].job.Saving(), a.fault);
    var g := f.(system := Step(f.system, Commit(e)));
    assert FlowOk(f, v);
    CommitKeeps(f, e);
    assert FlowOk(g, v);
    if Next(f.system, f.flows[v].phase, job, a).Indexing? { SavedIsReady(f, v, a); }
    PhaseKeeps(g, v, Next(f.system, f.flows[v].phase, job, a));
  }

  lemma SavedIsReady(f: Fleet, v: Uuid, a: Action)
    requires Consistent(f) && a.Save? && CanDo(f, Work(v, a)) && Commits(f.system, f.flows[v].job.Saving(), a.fault)
    ensures RowsReady(Effect(f.system.db, f.flows[v].job.Saving()), f.flows[v].job.u, f.flows[v].job.chunks)
  {
    assert FlowOk(f, v);
  }

  lemma PutKeepsFlow(f: Fleet, p: Point, v: Uuid)
    requires Sound(f.system) && Enabled(f.system, Put(p)) && v in f.flows && FlowOk(f, v)
    ensures FlowOk(f.(system := Step(f.system, Put(p))), v)
  {
    var job, s, t := f.flows[v].job, f.system, Step(f.system, Put(p));
    if PointId(p) in s.points { PutOverwritesItsOwn(s, p); }
    forall id | id in OfVersion(s.points, job.Row(), job.Version())
      ensures id in OfVersion(t.points, job.Row(), job.Version())
    {
    }
  }

  /** Putting a chunk of one's own, whoever does it and whenever. */
  lemma PutKeepsConsistent(f: Fleet, v: Uuid, i: nat)
    requires Consistent(f) && v in f.flows && i < |f.flows[v].job.chunks| && Registered(f.system, f.flows[v].job)
    requires !f.flows[v].phase.Persisting?
    ensures var job, g := f.flows[v].job, f.(system := Step(f.system, Put(f.flows[v].job.Item(i))));
            Consistent(g) && PointId(job.Item(i)) in OfVersion(g.system.points, job.Row(), job.Version())
  {
    assert FlowOk(f, v);
    var job, m := f.flows[v].job, Put(f.flows[v].job.Item(i));
    var g, id := f.(system := Step(f.system, m)), PointId(job.Item(i));
    assert id in job.After();
    MoveKeepsSound(f.system, m);
    forall w | w in g.flows ensures FlowOk(g, w) { assert FlowOk(f, w); PutKeepsFlow(f, job.Item(i), w); }
    forall o | o in g.system.points ensures PointOk(g, o) { assert o != id ==> PointOk(f, o); }
    forall d | d in g.system.db.documents ensures PointerOk(g, d) { assert PointerOk(f, d); }
    forall r | r in g.read ensures ReadOk(g, r) { assert ReadOk(f, r); }
  }

  lemma PutKeepsFleet(f: Fleet, v: Uuid, i: nat)
    requires Consistent(f) && CanDo(f, Work(v, PutChunk(i)))
    ensures Consistent(Do(f, Work(v, PutChunk(i))))
  {
    PutKeepsConsistent(f, v, i);
    var g := f.(system := Step(f.system, Put(f.flows[v].job.Item(i))));
    assert FlowOk(g, v);
    PhaseKeeps(g, v, Next(f.system, f.flows[v].phase, f.flows[v].job, PutChunk(i)));
  }

  lemma ActivationKeeps(f: Fleet, e: IngestionStore.Event)
    requires Consistent(f) && e.tx.Activate?
    requires Commits(f.system, e.tx, e.fault) ==>
               && e.tx.version in f.flows && f.flows[e.tx.version].job.u.document == e.tx.document
               && !f.flows[e.tx.version].phase.Persisting? && !f.flows[e.tx.version].phase.Indexing?
    ensures Consistent(f.(system := Step(f.system, Commit(e))))
  {
    var g := f.(system := Step(f.system, Commit(e)));
    MoveKeepsSound(f.system, Commit(e));
    forall v | v in g.flows ensures FlowOk(g, v) { assert FlowOk(f, v); CommitKeepsFlow(f, e, v); }
    forall id | id in g.system.points ensures PointOk(g, id) { assert PointOk(f, id); }
    forall d | d in g.system.db.documents ensures PointerOk(g, d) {
      assert d in f.system.db.documents ==> PointerOk(f, d);
    }
    forall r | r in g.read ensures ReadOk(g, r) {
      assert ReadOk(f, r);
      if r.deleted { DocumentsStay(f.system.db, e, r.document); }
    }
  }

  lemma SwitchKeepsFleet(f: Fleet, v: Uuid, a: Action)
    requires Consistent(f) && a.Switch? && CanDo(f, Work(v, a))
    ensures Consistent(Do(f, Work(v, a)))
  {
    assert FlowOk(f, v);
    var phase := Next(f.system, f.flows[v].phase, f.flows[v].job, a);
    var g := f.(flows := f.flows[v := f.flows[v].(phase := phase)]);
    PhaseKeeps(f, v, phase);
    ActivationKeeps(g, IngestionStore.Event(f.flows[v].job.Switching(), a.fault));
  }

  /** A point update of the activation, whoever does it and whenever. */
  lemma UpdateKeepsConsistent(f: Fleet, v: Uuid, a: Action)
    requires Consistent(f) && v in f.flows && !a.Save? && !a.PutChunk? && !a.Switch?
    requires Registered(f.system, f.flows[v].job)
    ensures Consistent(f.(system := Performed(f.system, f.flows[v].job, a)))
  {
    var job := f.flows[v].job;
    var m := Effected(f.system, job, a);
    if m.Some? {
      EffectedIsEnabled(f.system, job, a);
      HarmlessKeeps(f, m.value);
    }
  }

  lemma UpdateKeepsFleet(f: Fleet, v: Uuid, a: Action)
    requires Consistent(f) && CanDo(f, Work(v, a)) && !a.Save? && !a.PutChunk? && !a.Switch?
    ensures Consistent(Do(f, Work(v, a)))
  {
    assert FlowOk(f, v);
    var flow := f.flows[v];
    var g := f.(system := Performed(f.system, flow.job, a));
    UpdateKeepsConsistent(f, v, a);
    assert FlowOk(g, v);
    PhaseKeeps(g, v, Next(f.system, flow.phase, flow.job, a));
  }

  lemma StraggleKeeps(f: Fleet, v: Uuid, a: Action)
    requires Consistent(f) && CanDo(f, Straggle(v, a))
    ensures Consistent(Do(f, Straggle(v, a)))
  {
    assert FlowOk(f, v);
    var job := f.flows[v].job;
    match a
    case Save(fault, _) => CommitKeeps(f, IngestionStore.Event(job.Saving(), fault));
    case PutChunk(i) => PutKeepsConsistent(f, v, i);
    case Switch(fault) => ActivationKeeps(f, IngestionStore.Event(job.Switching(), fault));
    case _ => UpdateKeepsConsistent(f, v, a);
  }

  lemma DeedKeeps(f: Fleet, a: Deed)
    requires Consistent(f) && CanDo(f, a)
    ensures Consistent(Do(f, a))
  {
    match a
    case Launch(job, fault) => LaunchKeeps(f, job, fault);
    case Record(e) => CommitKeeps(f, e);
    case Read(d) => ReadKeeps(f, d);
    case Mend(m) => MendKeeps(f, m);
    case Straggle(v, action) => StraggleKeeps(f, v, action);
    case Work(v, action) =>
      match action
      case Save(_, _) => SaveKeepsFleet(f, v, action);
      case PutChunk(i) => PutKeepsFleet(f, v, i);
      case Switch(_) => SwitchKeepsFleet(f, v, action);
      case _ => UpdateKeepsFleet(f, v, action);
  }

  // ---------------------------------------------------------------- every run

  lemma FreshIsConsistent(f: Fleet)
    requires Fresh(f)
    ensures Consistent(f)
  {
    EveryRunKeepsInvariant([]);
    forall id | id in f.system.points ensures HomedAt(f.system.db, f.system.points, id) { }
  }

  lemma {:induction false} EveryRunKeepsConsistent(f: Fleet, deeds: seq<Deed>)
    requires Consistent(f) && CanRun(f, deeds)
    ensures Consistent(After(f, deeds))
    decreases |deeds|
  {
    if deeds != [] {
      DeedKeeps(f, deeds[0]);
      EveryRunKeepsConsistent(Do(f, deeds[0]), deeds[1..]);
    }
  }

  /** The points of an active version are exactly the points of its rows. */
  lemma ActiveIsIndexed(f: Fleet)
    requires Consistent(f)
    ensures FullyIndexed(f.system.db, f.system.points)
  {
    var db, points := f.system.db, f.system.points;
    forall d | d in db.documents && db.documents[d].active.Some?
      ensures OfVersion(points, RowOf(db, d), db.documents[d].active) == RowIds(db, db.documents[d].active.value)
    {
      var v := db.documents[d].active.value;
      assert PointerOk(f, d) && FlowOk(f, v) && DocumentOk(db, d);
      var job := f.flows[v].job;
      RowIdsAreChunkIds(db, job.u, job.chunks);
      assert OfVersion(points, RowOf(db, d), Some(v)) == OfVersion(points, job.Row(), Some(v));
      forall id | id in OfVersion(points, job.Row(), Some(v)) ensures id in job.After() { assert PointOk(f, id); }
    }
  }

  /** At every moment of every run every versioned point carries the text, page and filename of its row. */
  lemma EveryPointCitesItsRow(f: Fleet, deeds: seq<Deed>)
    requires Fresh(f) && CanRun(f, deeds)
    ensures AllCite(After(f, deeds).system.db, After(f, deeds).system.points)
  {
    FreshIsConsistent(f);
    EveryRunKeepsConsistent(f, deeds);
    ConsistentCites(After(f, deeds));
  }

  lemma ConsistentCites(f: Fleet)
    requires Consistent(f)
    ensures AllCite(f.system.db, f.system.points)
  {
    var db, points := f.system.db, f.system.points;
    forall id | id in points && points[id].version.Some? ensures Cites(db, points[id]) {
      assert PointOk(f, id) && FlowOk(f, points[id].version.value);
      var job := f.flows[points[id].version.value].job;
      QuotesAreCited(db, job.u, job.chunks, points[id]);
    }
  }

  /** Whatever ingestions, deletions, failures, retries and reconciles an installation has been through: a
      clean reconcile makes the versioned chunks of dense and lexical search the same: every point that may be
      returned carries the text of its row, and every row of an active version has such a point. */
  lemma CleanReconcileAgrees(f: Fleet, deeds: seq<Deed>, rows: seq<Row>)
    requires Fresh(f) && CanRun(f, deeds) && Lists(rows, After(f, deeds).system.db)
    ensures var s := After(f, deeds).system;
            var after := ReconcileAll(s.points, rows);
            && FullyIndexed(s.db, s.points) && DenseIds(after) == LexicalIds(s.db)
            && (forall id :: id in DenseIds(after) ==> Cites(s.db, after[id]))
            && (forall v, i {:trigger RowsOf(s.db, v)[i]} ::
                  v in s.db.versions && s.db.versions[v].status.Active? && 0 <= i < |RowsOf(s.db, v)| ==>
                    ShowsRow(after, s.db.versions[v].tenant, v, RowsOf(s.db, v)[i]))
  {
    FreshIsConsistent(f);
    EveryRunKeepsConsistent(f, deeds);
    ActiveIsIndexed(After(f, deeds));
    var s := After(f, deeds).system;
    var after := ReconcileAll(s.points, rows);
    DenseAgreesWithLexical(s.db, s.points, rows);
    ConsistentCites(After(f, deeds));
    PassThins(s.points, rows);
    ThinnedCites(s.db, s.points, after);
    ThinnedWellKeyed(s.points, after);
    forall v, i | v in s.db.versions && s.db.versions[v].status.Active? && 0 <= i < |RowsOf(s.db, v)|
      ensures ShowsRow(after, s.db.versions[v].tenant, v, RowsOf(s.db, v)[i])
    {
      ActiveRowShows(After(f, deeds), after, v, i);
    }
  }

  lemma ActiveRowShows(f: Fleet, x: Points, v: Uuid, i: nat)
    requires Consistent(f) && v in f.system.db.versions && f.system.db.versions[v].status.Active?
    requires i < |RowsOf(f.system.db, v)| && WellKeyed(x) && AllCite(f.system.db, x)
    requires DenseIds(x) == LexicalIds(f.system.db)
    ensures ShowsRow(x, f.system.db.versions[v].tenant, v, RowsOf(f.system.db, v)[i])
  {
    var db := f.system.db;
    assert VersionOk(db, v) && PointerOk(f, db.versions[v].document) && FlowOk(f, v);
    var row := RowsOf(db, v)[i];
    assert Identity(db.versions[v].tenant, row.filename, row.page, row.index, Some(v)) in RowIds(db, v);
    CitingShows(db, x, v, i);
  }

  // ---------------------------------------------------------------- one document among all

  /** The deed leaves the document to the workflow of the given version. */
  predicate LeavesAlone(f: Fleet, a: Deed, v: Uuid, d: Uuid) {
    match a
    case Work(w, _) => w == v || (w in f.flows ==> f.flows[w].job.u.document != d)
    case Straggle(w, _) => w in f.flows ==> f.flows[w].job.u.document != d
    case Record(e) => !(e.tx.Bury? && e.tx.document == d)
    case Mend(m) => m.Commit? || m.Put? || m.row.document != d
    case _ => true
  }

  ghost predicate AllLeaveAlone(f: Fleet, deeds: seq<Deed>, v: Uuid, d: Uuid)
    requires CanRun(f, deeds)
    decreases |deeds|
  {
    deeds == [] || (LeavesAlone(f, deeds[0], v, d) && AllLeaveAlone(Do(f, deeds[0]), deeds[1..], v, d))
  }

  /** The takeover as the workflow of the version sees it. */
  ghost function SeenBy(f: Fleet, v: Uuid): Running
    requires v in f.flows
  {
    Running(f.system, f.flows[v].phase)
  }

  /** Where the document stands when its workflow sets out. */
  ghost function PlanOf(f: Fleet, v: Uuid): Plan
    requires v in f.flows
  {
    var job := f.flows[v].job;
    Plan(job, PointerOf(f.system.db, job.u.document), ActiveRows(f.system.db, job.u.document),
         VisibleVersioned(f.system.points, job.Row()))
  }

  /** A search sees exactly the version the document points at. */
  ghost predicate Settled(s: System, r: Row) {
    VisibleVersioned(s.points, r) == OfVersion(s.points, r, PointerOf(s.db, r.document))
  }

  lemma PersistingStarts(f: Fleet, v: Uuid)
    requires Consistent(f) && v in f.flows && f.flows[v].phase.Persisting? && Settled(f.system, f.flows[v].job.Row())
    ensures Starts(SeenBy(f, v), PlanOf(f, v))
  {
    assert FlowOk(f, v);
    var job := f.flows[v].job;
    assert PointerOk(f, job.u.document);
    forall id ensures id !in OfVersion(f.system.points, job.Row(), job.Version()) {
      assert id in f.system.points ==> PointOk(f, id);
    }
  }

  /** The move of the stores behind somebody else's deed, if there is one. */
  ghost function MoveOf(f: Fleet, a: Deed): Option<Move>
    requires CanDo(f, a)
  {
    match a
    case Launch(job, fault) => Some(Commit(IngestionStore.Event(job.u.Registering(), fault)))
    case Work(w, action) => Effected(f.system, f.flows[w].job, action)
    case Straggle(w, action) => Effected(f.system, f.flows[w].job, action)
    case Record(e) => Some(Commit(e))
    case Read(_) => None
    case Mend(m) => Some(m)
  }

  lemma OthersMove(f: Fleet, a: Deed, v: Uuid, d: Uuid)
    requires Consistent(f) && CanDo(f, a) && LeavesAlone(f, a, v, d)
    requires a.Work? ==> a.version != v
    ensures var m := MoveOf(f, a);
            if m.None? then Do(f, a).system == f.system
            else Enabled(f.system, m.value) && Foreign(m.value, d) && Do(f, a).system == Step(f.system, m.value)
  {
    if a.Work? || a.Straggle? {
      assert FlowOk(f, a.version);
      EffectedIsEnabled(f.system, f.flows[a.version].job, a.action);
    }
  }

  lemma DeedKeepsTakeover(f: Fleet, a: Deed, v: Uuid, plan: Plan)
    requires Consistent(f) && CanDo(f, a) && v in f.flows && f.flows[v].job == plan.job
    requires LeavesAlone(f, a, v, plan.job.u.document) && Holds(SeenBy(f, v), plan)
    ensures v in Do(f, a).flows && Do(f, a).flows[v].job == plan.job && Holds(SeenBy(Do(f, a), v), plan)
  {
    assert FlowOk(f, v);
    if a.Work? && a.version == v {
      TurnKeeps(SeenBy(f, v), Own(a.action), plan);
    } else {
      OthersMove(f, a, v, plan.job.u.document);
      if MoveOf(f, a).Some? { TurnKeeps(SeenBy(f, v), Others(MoveOf(f, a).value), plan); }
    }
  }

  lemma {:induction false} RunKeepsTakeover(f: Fleet, deeds: seq<Deed>, v: Uuid, plan: Plan)
    requires Consistent(f) && CanRun(f, deeds) && v in f.flows && f.flows[v].job == plan.job
    requires AllLeaveAlone(f, deeds, v, plan.job.u.document) && Holds(SeenBy(f, v), plan)
    ensures v in After(f, deeds).flows && After(f, deeds).flows[v].job == plan.job
    ensures Holds(SeenBy(After(f, deeds), v), plan)
    decreases |deeds|
  {
    if deeds != [] {
      DeedKeeps(f, deeds[0]);
      DeedKeepsTakeover(f, deeds[0], v, plan);
      RunKeepsTakeover(Do(f, deeds[0]), deeds[1..], v, plan);
    }
  }

  /** After any history, a workflow that sets out on a settled document and is left alone on it takes over
      without disruption, whatever goes on elsewhere: old or new completely and nothing else; rows and
      points of the old one untouched until the pointer moves; and at the end the document is settled
      again, on the new version, showing exactly the points of its rows. */
  lemma WorkflowTakesOver(start: Fleet, past: seq<Deed>, v: Uuid, deeds: seq<Deed>)
    requires Fresh(start) && CanRun(start, past)
    requires var f := After(start, past);
             && v in f.flows && f.flows[v].phase.Persisting? && Settled(f.system, f.flows[v].job.Row())
             && CanRun(f, deeds) && AllLeaveAlone(f, deeds, v, f.flows[v].job.u.document)
    ensures var f := After(start, past); var plan, t := PlanOf(f, v), After(f, deeds);
            && SeesOldOrNew(t.system.points, plan.job.Row(), plan.before, plan.job.After())
            && Pointer(t.system, plan) in {plan.previous, plan.job.Version()}
            && (Pointer(t.system, plan) == plan.previous ==> OldStands(t.system, plan))
            && v in t.flows
            && (t.flows[v].phase.Clearing? ==> StandsAlone(t.system, plan))
  {
    var f := After(start, past);
    var plan, t := PlanOf(f, v), After(f, deeds);
    FreshIsConsistent(start);
    EveryRunKeepsConsistent(start, past);
    EveryRunKeepsConsistent(f, deeds);
    PersistingStarts(f, v);
    StartHolds(SeenBy(f, v), plan);
    RunKeepsTakeover(f, deeds, v, plan);
    HoldingShows(SeenBy(t, v), plan);
    if t.flows[v].phase.Clearing? { ClearingStands(t, v, plan); }
  }

  /** The new version is the document's: its pointer, its rows, and exactly their points in sight. */
  ghost predicate StandsAlone(s: System, plan: Plan) {
    var u := plan.job.u;
    && PointerOf(s.db, u.document) == Some(u.version) && RowsOf(s.db, u.version) == Rows(plan.job.chunks, u.filename)
    && VisibleVersioned(s.points, u.Row()) == RowIds(s.db, u.version) && Settled(s, u.Row())
    && (forall id :: id in VisibleVersioned(s.points, u.Row()) ==> Cites(s.db, s.points[id]))
  }

  lemma ClearingStands(f: Fleet, v: Uuid, plan: Plan)
    requires Consistent(f) && v in f.flows && f.flows[v].job == plan.job && f.flows[v].phase.Clearing?
    requires Holds(SeenBy(f, v), plan)
    ensures StandsAlone(f.system, plan)
  {
    assert FlowOk(f, v);
    RowIdsAreChunkIds(f.system.db, plan.job.u, plan.job.chunks);
    ConsistentCites(f);
  }

  // ---------------------------------------------------------------- a workflow can always get there

  lemma {:induction false} OwnTurnsAreDeeds(f: Fleet, v: Uuid, turns: seq<Turn>) returns (deeds: seq<Deed>)
    requires v in f.flows && MayRun(SeenBy(f, v), turns, f.flows[v].job)
    requires forall i :: 0 <= i < |turns| ==> turns[i].Own?
    ensures CanRun(f, deeds) && AllLeaveAlone(f, deeds, v, f.flows[v].job.u.document)
    ensures v in After(f, deeds).flows
    ensures SeenBy(After(f, deeds), v) == Ran(SeenBy(f, v), turns, f.flows[v].job)
    decreases |turns|
  {
    if turns == [] { return []; }
    var a := Work(v, turns[0].action);
    assert SeenBy(Do(f, a), v) == Turned(SeenBy(f, v), turns[0], f.flows[v].job);
    var rest := OwnTurnsAreDeeds(Do(f, a), v, turns[1..]);
    deeds := [a] + rest;
    assert deeds[1..] == rest;
  }

  /** After any history, a workflow on a settled document whose transactions the tables accept can still
      complete, and when nothing fails it does: its version is the document's, with exactly its rows' points
      in sight. */
  lemma WorkflowCanPublish(start: Fleet, past: seq<Deed>, v: Uuid) returns (deeds: seq<Deed>)
    requires Fresh(start) && CanRun(start, past)
    requires var f := After(start, past);
             && v in f.flows && f.flows[v].phase.Persisting? && Settled(f.system, f.flows[v].job.Row())
             && Accepted(f.system, f.flows[v].phase, f.flows[v].job)
    ensures CanRun(After(start, past), deeds)
    ensures StandsAlone(After(After(start, past), deeds).system, PlanOf(After(start, past), v))
  {
    var f := After(start, past);
    var turns := CanComplete(SeenBy(f, v), f.flows[v].job);
    deeds := OwnTurnsAreDeeds(f, v, turns);
    WorkflowTakesOver(start, past, v, deeds);
  }
}
