/**
 The PostgreSQL side of document ingestion: the rows of documents, attempts, versions, version
 chunks and tombstones, and what each ingestion transaction does to them.

 A transaction either commits its whole effect or leaves every row as it was.
 */
module IngestionStore {
  import opened Common

  type Uuid = string

  datatype DocumentStatus = DocQueued | DocProcessing | DocIndexed | DocFailed | DocDeleted
  datatype AttemptStatus = Queued | Processing | Indexed | Failed | Cancelled
  datatype VersionStatus = Staged | Active | Superseded | Rejected

  datatype Document = Document(
    tenant: Uuid, filename: string, storage: string, sha: string, status: DocumentStatus, active: Option<Uuid>)
  datatype Attempt = Attempt(
    document: Uuid, tenant: Uuid, workflow: string, number: nat,
    status: AttemptStatus, stage: Option<string>, error: Option<string>)
  datatype Version = Version(
    document: Uuid, tenant: Uuid, attempt: Uuid, number: nat,
    sha: string, storage: string, status: VersionStatus, chunkCount: nat)
  datatype ChunkRow = ChunkRow(filename: string, page: int, index: nat, text: string)
  datatype Tombstone = Tombstone(tenant: Uuid, reason: string)
  datatype Chunk = Chunk(page: int, text: string)

  datatype Db = Db(
    documents: map<Uuid, Document>,
    attempts: map<Uuid, Attempt>,
    versions: map<Uuid, Version>,
    chunks: map<Uuid, seq<ChunkRow>>,
    tombstones: map<Uuid, Tombstone>)

  const EMPTY: Db := Db(map[], map[], map[], map[], map[])

  datatype Tx =
    | Register(document: Uuid, attempt: Uuid, version: Uuid, storage: string, sha: string,
               filename: string, tenant: Uuid, workflow: string)
    | UpdateStage(document: Uuid, attempt: Uuid, tenant: Uuid, stage: string)
    | Persist(chunks: seq<Chunk>, filename: string, tenant: Uuid, document: Uuid, version: Uuid)
    | Activate(document: Uuid, version: Uuid, tenant: Uuid)
    | Finish(document: Uuid, attempt: Uuid, version: Uuid, tenant: Uuid, status: AttemptStatus, error: Option<string>)
    | Bury(document: Uuid, tenant: Uuid, reason: string)
    | MarkReconciled

  const STAGES: set<string> := {"detecting", "extracting", "chunking", "persisting", "indexing"}
  const RECOVERABLE_ERROR := "workflow_activity_failed"

  // ---------------------------------------------------------------- row numbers

  ghost function MaxOf(numbers: set<nat>): (m: nat)
    ensures forall k :: k in numbers ==> k <= m
    ensures if numbers == {} then m == 0 else m in numbers
  {
    if numbers == {} then 0
    else
      var k :| k in numbers;
      var m := MaxOf(numbers - {k});
      assert numbers == numbers - {k} + {k};
      if k > m then k else m
  }

  function AttemptNumbers(attempts: map<Uuid, Attempt>, document: Uuid): set<nat> {
    set a | a in attempts && attempts[a].document == document :: attempts[a].number
  }

  function VersionNumbers(versions: map<Uuid, Version>, document: Uuid): set<nat> {
    set v | v in versions && versions[v].document == document :: versions[v].number
  }

  // ---------------------------------------------------------------- who may do what

  predicate OwnsDocument(db: Db, document: Uuid, tenant: Uuid) {
    document in db.documents && db.documents[document].tenant == tenant
  }

  predicate OwnsAttempt(db: Db, attempt: Uuid, document: Uuid, tenant: Uuid) {
    attempt in db.attempts && db.attempts[attempt].document == document && db.attempts[attempt].tenant == tenant
  }

  predicate OwnsVersion(db: Db, version: Uuid, document: Uuid, tenant: Uuid) {
    version in db.versions && db.versions[version].document == document && db.versions[version].tenant == tenant
  }

  predicate WorkflowKnown(attempts: map<Uuid, Attempt>, workflow: string) {
    exists a :: a in attempts && attempts[a].workflow == workflow
  }

  predicate DocumentCompatible(documents: map<Uuid, Document>, r: Tx)
    requires r.Register?
  {
    r.document in documents ==>
      var d := documents[r.document];
      d.tenant == r.tenant && d.filename == r.filename && !d.status.DocDeleted?
  }

  predicate AttemptCompatible(attempts: map<Uuid, Attempt>, r: Tx)
    requires r.Register?
  {
    if WorkflowKnown(attempts, r.workflow)
    then r.attempt in attempts && attempts[r.attempt].document == r.document && attempts[r.attempt].tenant == r.tenant
         && attempts[r.attempt].workflow == r.workflow
    else r.attempt !in attempts
  }

  predicate VersionCompatible(versions: map<Uuid, Version>, r: Tx)
    requires r.Register?
  {
    r.version in versions ==>
      var v := versions[r.version];
      && v.document == r.document && v.tenant == r.tenant && v.attempt == r.attempt
      && v.sha == r.sha && v.storage == r.storage
  }

  predicate AcceptsRegister(db: Db, r: Tx)
    requires r.Register?
  {
    DocumentCompatible(db.documents, r) && AttemptCompatible(db.attempts, r) && VersionCompatible(db.versions, r)
  }

  predicate AcceptsStage(db: Db, r: Tx)
    requires r.UpdateStage?
  {
    && r.stage in STAGES
    && OwnsAttempt(db, r.attempt, r.document, r.tenant) && db.attempts[r.attempt].status in {Queued, Processing}
    && OwnsDocument(db, r.document, r.tenant) && db.documents[r.document].status in {DocQueued, DocProcessing}
  }

  predicate AcceptsPersist(db: Db, r: Tx)
    requires r.Persist?
  {
    && OwnsVersion(db, r.version, r.document, r.tenant) && db.versions[r.version].status.Staged?
    && forall i :: 0 <= i < |r.chunks| ==> r.chunks[i].page > 0
  }

  predicate AcceptsActivate(db: Db, r: Tx)
    requires r.Activate?
  {
    && OwnsDocument(db, r.document, r.tenant) && !db.documents[r.document].status.DocDeleted?
    && OwnsVersion(db, r.version, r.document, r.tenant) && db.versions[r.version].status in {Staged, Active}
  }

  /** Error codes that are not short lower-case identifiers are dropped. */
  function SafeCode(error: Option<string>): Option<string> {
    if error.Some? && 1 <= |error.value| <= 64
       && forall i :: 0 <= i < |error.value| ==>
            (var c := error.value[i]; 'a' <= c <= 'z' || '0' <= c <= '9' || c == '_')
    then error else None
  }

  /** The attempt already ended exactly like this: the call is a repetition. */
  predicate AlreadyFinished(db: Db, r: Tx)
    requires r.Finish?
  {
    && OwnsAttempt(db, r.attempt, r.document, r.tenant)
    && db.attempts[r.attempt].status == r.status && db.attempts[r.attempt].error == SafeCode(r.error)
  }

  predicate StillRunning(db: Db, r: Tx)
    requires r.Finish?
  {
    OwnsAttempt(db, r.attempt, r.document, r.tenant) && db.attempts[r.attempt].status in {Queued, Processing}
  }

  predicate FailsStagedVersion(db: Db, r: Tx)
    requires r.Finish?
  {
    r.status in {Failed, Cancelled} && OwnsVersion(db, r.version, r.document, r.tenant)
            && db.versions[r.version].status.Staged?
  }

  predicate PointsAt(db: Db, document: Uuid, tenant: Uuid, version: Uuid) {
    OwnsDocument(db, document, tenant) && db.documents[document].active == Some(version)
  }

  predicate AcceptsFinish(db: Db, r: Tx)
    requires r.Finish?
  {
    && r.status in {Indexed, Failed, Cancelled}
    && if !StillRunning(db, r) then AlreadyFinished(db, r)
       else if r.status.Indexed? then true
       else if FailsStagedVersion(db, r) then
         OwnsDocument(db, r.document, r.tenant) && db.documents[r.document].status.DocProcessing?
       else
         && PointsAt(db, r.document, r.tenant, r.version)
         && OwnsVersion(db, r.version, r.document, r.tenant) && db.versions[r.version].status.Active?
  }

  predicate AcceptsBury(db: Db, r: Tx)
    requires r.Bury?
  {
    && OwnsDocument(db, r.document, r.tenant)
    && (r.document in db.tombstones ==> db.tombstones[r.document].tenant == r.tenant)
  }

  predicate Accepts(db: Db, r: Tx) {
    match r
    case Register(_, _, _, _, _, _, _, _) => AcceptsRegister(db, r)
    case UpdateStage(_, _, _, _) => AcceptsStage(db, r)
    case Persist(_, _, _, _, _) => AcceptsPersist(db, r)
    case Activate(_, _, _) => AcceptsActivate(db, r)
    case Finish(_, _, _, _, _, _) => AcceptsFinish(db, r)
    case Bury(_, _, _) => AcceptsBury(db, r)
    case MarkReconciled => true
  }

  // ---------------------------------------------------------------- what is committed

  function Requeued(status: DocumentStatus): DocumentStatus {
    if status in {DocIndexed, DocFailed} then DocQueued else status
  }

  function RegisteredDocument(documents: map<Uuid, Document>, r: Tx): Document
    requires r.Register?
  {
    if r.document in documents
    then documents[r.document].(storage := r.storage, sha := r.sha, status := Requeued(documents[r.document].status))
    else Document(r.tenant, r.filename, r.storage, r.sha, DocQueued, None)
  }

  ghost function RegisteredAttempts(attempts: map<Uuid, Attempt>, r: Tx): map<Uuid, Attempt>
    requires r.Register?
  {
    if r.attempt in attempts then attempts
    else attempts[r.attempt := Attempt(r.document, r.tenant, r.workflow,
                                       MaxOf(AttemptNumbers(attempts, r.document)) + 1, Queued, None, None)]
  }

  ghost function RegisteredVersions(versions: map<Uuid, Version>, r: Tx): map<Uuid, Version>
    requires r.Register?
  {
    if r.version in versions then versions
    else versions[r.version := Version(r.document, r.tenant, r.attempt,
                                       MaxOf(VersionNumbers(versions, r.document)) + 1, r.sha, r.storage, Staged, 0)]
  }

  ghost function RegisterEffect(db: Db, r: Tx): Db
    requires r.Register?
  {
    db.(documents := db.documents[r.document := RegisteredDocument(db.documents, r)],
        attempts := RegisteredAttempts(db.attempts, r),
        versions := RegisteredVersions(db.versions, r))
  }

  function StageEffect(db: Db, r: Tx): Db
    requires r.UpdateStage? && AcceptsStage(db, r)
  {
    db.(
      attempts := db.attempts[r.attempt := db.attempts[r.attempt].(status := Processing, stage := Some(r.stage))],
      documents := db.documents[r.document := db.documents[r.document].(status := DocProcessing)])
  }

  function Rows(chunks: seq<Chunk>, filename: string): (rows: seq<ChunkRow>)
  {
    seq(|chunks|, i requires 0 <= i < |chunks| => ChunkRow(filename, chunks[i].page, i, chunks[i].text))
  }

  function PersistEffect(db: Db, r: Tx): Db
    requires r.Persist? && AcceptsPersist(db, r)
  {
    db.(
      chunks := db.chunks[r.version := Rows(r.chunks, r.filename)],
      versions := db.versions[r.version := db.versions[r.version].(chunkCount := |r.chunks|)])
  }

  /** The version a document pointed at steps down. */
  function Retired(db: Db, document: Uuid, tenant: Uuid): map<Uuid, Version>
    requires document in db.documents
  {
    var previous := db.documents[document].active;
    if previous.Some? && OwnsVersion(db, previous.value, document, tenant) && db.versions[previous.value].status.Active?
    then db.versions[previous.value := db.versions[previous.value].(status := Superseded)]
    else db.versions
  }

  function ActivateEffect(db: Db, r: Tx): Db
    requires r.Activate? && AcceptsActivate(db, r)
  {
    if db.documents[r.document].active == Some(r.version) then db
    else db.(
      versions := Retired(db, r.document, r.tenant)
                    [r.version := db.versions[r.version].(status := Active)],
      documents := db.documents[r.document :=
        db.documents[r.document].(active := Some(r.version), status := DocIndexed)])
  }

  function StageName(status: AttemptStatus): string {
    match status
    case Indexed => "indexed"
    case Failed => "failed"
    case Cancelled => "cancelled"
    case _ => ""
  }

  function FinishEffect(db: Db, r: Tx): Db
    requires r.Finish? && AcceptsFinish(db, r)
  {
    if !StillRunning(db, r) then db
    else
      var ended := db.(attempts := db.attempts[r.attempt := db.attempts[r.attempt].(
                         status := r.status, error := SafeCode(r.error), stage := Some(StageName(r.status)))]);
      if FailsStagedVersion(db, r) then ended.(
        versions := db.versions[r.version := db.versions[r.version].(status := Rejected)],
        documents := db.documents[r.document := db.documents[r.document].(
          status := if r.status.Failed? then DocFailed else DocQueued)])
      else ended
  }

  function BuryEffect(db: Db, r: Tx): Db
    requires r.Bury? && AcceptsBury(db, r)
  {
    var buried := db.(tombstones := db.tombstones[r.document := Tombstone(r.tenant, r.reason)]);
    if db.documents[r.document].status.DocDeleted? then buried
    else buried.(
      versions := map v | v in db.versions ::
        if OwnsVersion(db, v, r.document, r.tenant) && db.versions[v].status.Active?
        then db.versions[v].(status := Superseded) else db.versions[v],
      documents := db.documents[r.document := db.documents[r.document].(status := DocDeleted, active := None)])
  }

  predicate Recoverable(db: Db, attempt: Uuid)
    requires attempt in db.attempts
  {
    && db.attempts[attempt].status in {Processing, Failed}
    && db.attempts[attempt].error in {None, Some(RECOVERABLE_ERROR)}
    && exists v :: v in db.versions && db.versions[v].attempt == attempt && db.versions[v].status.Active?
         && PointsAt(db, db.versions[v].document, db.versions[v].tenant, v)
  }

  function ReconcileEffect(db: Db): Db {
    db.(attempts := map a | a in db.attempts ::
      if Recoverable(db, a)
      then db.attempts[a].(status := Indexed, stage := Some("indexed"), error := None) else db.attempts[a])
  }

  ghost function Effect(db: Db, r: Tx): Db
    requires Accepts(db, r)
  {
    match r
    case Register(_, _, _, _, _, _, _, _) => RegisterEffect(db, r)
    case UpdateStage(_, _, _, _) => StageEffect(db, r)
    case Persist(_, _, _, _, _) => PersistEffect(db, r)
    case Activate(_, _, _) => ActivateEffect(db, r)
    case Finish(_, _, _, _, _, _) => FinishEffect(db, r)
    case Bury(_, _, _) => BuryEffect(db, r)
    case MarkReconciled => ReconcileEffect(db)
  }

  /** A transaction of any caller; connections, constraints and crashes may also roll it back. */
  datatype Event = Event(tx: Tx, fault: bool)

  ghost function Apply(db: Db, e: Event): Db {
    if !e.fault && Accepts(db, e.tx) then Effect(db, e.tx) else db
  }

  ghost function Run(events: seq<Event>): Db {
    if events == [] then EMPTY else Apply(Run(events[..|events| - 1]), events[|events| - 1])
  }
}
