/**
 The ingestion transactions as the worker runs them: statement after statement against the
 tables, rolling every table back when a statement finds that the transaction must not commit.
 Each one commits exactly when IngestionStore accepts it and then has exactly that effect.
 */
module IngestionDatabase {
  import opened Common
  import opened IngestionStore
  import opened IngestionSafety

  lemma MaxOfIs(numbers: set<nat>, m: nat)
    requires forall k :: k in numbers ==> k <= m
    requires if numbers == {} then m == 0 else m in numbers
    ensures m == MaxOf(numbers)
  {
  }

  /** One more than the largest number, or 1 where there is none. */
  ghost predicate OneMore(n: nat, numbers: set<nat>) {
    && (forall k :: k in numbers ==> k < n)
    && (if numbers == {} then n == 1 else n >= 1 && n - 1 in numbers)
  }

  lemma SameTenants(db: Db, document: Uuid, tenant: Uuid)
    requires Inv(db) && (document in db.documents ==> db.documents[document].tenant == tenant)
    ensures forall a :: a in db.attempts && db.attempts[a].document == document ==> db.attempts[a].tenant == tenant
    ensures forall v :: v in db.versions && db.versions[v].document == document ==> db.versions[v].tenant == tenant
  {
    forall a | a in db.attempts && db.attempts[a].document == document ensures db.attempts[a].tenant == tenant {
      assert AttemptOk(db, a);
    }
    forall v | v in db.versions && db.versions[v].document == document ensures db.versions[v].tenant == tenant {
      assert VersionOk(db, v);
    }
  }

  /** Pointed at and active are the same thing. */
  ghost predicate PointedIsActive(db: Db) {
    && (forall d :: d in db.documents && db.documents[d].active.Some? ==>
          && db.documents[d].active.value in db.versions
          && var v := db.versions[db.documents[d].active.value];
             v.document == d && v.tenant == db.documents[d].tenant && v.status == Active)
    && (forall v :: v in db.versions && db.versions[v].status == Active ==>
          && db.versions[v].document in db.documents
          && db.documents[db.versions[v].document].tenant == db.versions[v].tenant
          && db.documents[db.versions[v].document].active == Some(v))
  }

  lemma InvPoints(db: Db)
    requires Inv(db)
    ensures PointedIsActive(db)
  {
    forall d | d in db.documents && db.documents[d].active.Some?
      ensures OwnsVersion(db, db.documents[d].active.value, d, db.documents[d].tenant)
      ensures db.versions[db.documents[d].active.value].status == Active
    {
      assert DocumentOk(db, d);
    }
    forall v | v in db.versions && db.versions[v].status == Active
      ensures OwnsDocument(db, db.versions[v].document, db.versions[v].tenant)
      ensures db.documents[db.versions[v].document].active == Some(v)
    {
      assert VersionOk(db, v);
    }
  }

  lemma TombstoneOwner(db: Db, d: Uuid)
    requires Inv(db) && d in db.tombstones
    ensures d in db.documents && db.documents[d].tenant == db.tombstones[d].tenant
  {
    assert TombstoneOk(db, d);
  }

  class Tables {
    var documents: map<Uuid, Document>
    var attempts: map<Uuid, Attempt>
    var versions: map<Uuid, Version>
    var chunks: map<Uuid, seq<ChunkRow>>
    var tombstones: map<Uuid, Tombstone>

    function View(): Db
      reads this
    {
      Db(documents, attempts, versions, chunks, tombstones)
    }

    ghost predicate Valid()
      reads this
    {
      Inv(View())
    }

    constructor ()
      ensures View() == EMPTY && Valid()
    {
      documents, attempts, versions, chunks, tombstones := map[], map[], map[], map[], map[];
      new;
      EveryRunKeepsInvariant([]);
    }

    method Rollback(saved: Db)
      modifies this
      ensures View() == saved
    {
      documents, attempts, versions, chunks, tombstones :=
        saved.documents, saved.attempts, saved.versions, saved.chunks, saved.tombstones;
    }

    method FindByWorkflow(workflow: string) returns (found: Option<Uuid>)
      ensures found.Some? ==> found.value in attempts && attempts[found.value].workflow == workflow
      ensures found.None? ==> !WorkflowKnown(attempts, workflow)
    {
      var rest := attempts.Keys;
      while rest != {}
        invariant rest <= attempts.Keys
        invariant forall a :: a in attempts && a !in rest ==> attempts[a].workflow != workflow
        decreases rest
      {
        var a :| a in rest;
        if attempts[a].workflow == workflow { return Some(a); }
        rest := rest - {a};
      }
      found := None;
    }

    /** The next attempt number: one more than the document's largest. */
    method NextAttemptNumber(document: Uuid, tenant: Uuid) returns (next: nat)
      requires forall a :: a in attempts && attempts[a].document == document ==> attempts[a].tenant == tenant
      ensures next == MaxOf(AttemptNumbers(attempts, document)) + 1
      ensures OneMore(next, AttemptNumbers(attempts, document))
    {
      var max: nat := 0;
      var rest := attempts.Keys;
      ghost var seen: set<nat> := {};
      while rest != {}
        invariant rest <= attempts.Keys
        invariant seen == set a | a in attempts && a !in rest && attempts[a].document == document :: attempts[a].number
        invariant forall k :: k in seen ==> k <= max
        invariant if seen == {} then max == 0 else max in seen
        decreases rest
      {
        var a :| a in rest;
        if attempts[a].document == document && attempts[a].tenant == tenant {
          if attempts[a].number > max { max := attempts[a].number; }
          seen := seen + {attempts[a].number};
        }
        rest := rest - {a};
      }
      assert seen == AttemptNumbers(attempts, document);
      MaxOfIs(seen, max);
      next := max + 1;
    }

    /** The next version number: one more than the document's largest. */
    method NextVersionNumber(document: Uuid, tenant: Uuid) returns (next: nat)
      requires forall v :: v in versions && versions[v].document == document ==> versions[v].tenant == tenant
      ensures next == MaxOf(VersionNumbers(versions, document)) + 1
      ensures OneMore(next, VersionNumbers(versions, document))
    {
      var max: nat := 0;
      var rest := versions.Keys;
      ghost var seen: set<nat> := {};
      while rest != {}
        invariant rest <= versions.Keys
        invariant seen == set v | v in versions && v !in rest && versions[v].document == document :: versions[v].number
        invariant forall k :: k in seen ==> k <= max
        invariant if seen == {} then max == 0 else max in seen
        decreases rest
      {
        var v :| v in rest;
        if versions[v].document == document && versions[v].tenant == tenant {
          if versions[v].number > max { max := versions[v].number; }
          seen := seen + {versions[v].number};
        }
        rest := rest - {v};
      }
      assert seen == VersionNumbers(versions, document);
      MaxOfIs(seen, max);
      next := max + 1;
    }

    /** Inserts the document or updates its row, unless the row is another one's or deleted. */
    method UpsertDocument(ghost tx: Tx, document: Uuid, storage: string, sha: string, filename: string, tenant: Uuid)
      returns (returned: bool)
      requires tx.Register? && tx.document == document && tx.storage == storage && tx.sha == sha
               && tx.filename == filename && tx.tenant == tenant
      modifies this`documents
      ensures returned == DocumentCompatible(old(documents), tx)
      ensures documents == if returned then old(documents)[document := RegisteredDocument(old(documents), tx)]
              else old(documents)
      ensures returned <==>
        (document in old(documents) ==>
           && old(documents)[document].tenant == tenant && old(documents)[document].filename == filename
           && old(documents)[document].status != DocDeleted)
      ensures returned ==> documents == old(documents)[document :=
        if document !in old(documents) then Document(tenant, filename, storage, sha, DocQueued, None)
        else old(documents)[document].(
               storage := storage, sha := sha,
               status := if old(documents)[document].status == DocProcessing then DocProcessing else DocQueued)]
    {
      if document in documents {
        var d := documents[document];
        if d.tenant != tenant || d.filename != filename || d.status.DocDeleted? { return false; }
        var status := if d.status in {DocIndexed, DocFailed} then DocQueued else d.status;
        documents := documents[document := d.(storage := storage, sha := sha, status := status)];
      } else {
        documents := documents[document := Document(tenant, filename, storage, sha, DocQueued, None)];
      }
      returned := true;
    }

    /** Find the workflow's attempt, or allocate the next attempt number for it. */
    method EnsureAttempt(ghost tx: Tx, document: Uuid, attempt: Uuid, tenant: Uuid, workflow: string) returns (ok: bool)
      requires tx.Register? && tx.document == document && tx.attempt == attempt && tx.tenant == tenant
              && tx.workflow == workflow
      requires forall a, b :: a in attempts && b in attempts && attempts[a].workflow == attempts[b].workflow ==> a == b
      requires forall a :: a in attempts && attempts[a].document == document ==> attempts[a].tenant == tenant
      modifies this`attempts
      ensures ok == AttemptCompatible(old(attempts), tx)
      ensures ok <==>
        if exists a :: a in old(attempts) && old(attempts)[a].workflow == workflow then
          && attempt in old(attempts) && old(attempts)[attempt].workflow == workflow
          && old(attempts)[attempt].document == document && old(attempts)[attempt].tenant == tenant
        else attempt !in old(attempts)
      ensures ok ==> attempts == RegisteredAttempts(old(attempts), tx)
      ensures ok && attempt !in old(attempts) ==>
        && attempt in attempts
        && attempts == old(attempts)[attempt :=
             Attempt(document, tenant, workflow, attempts[attempt].number, Queued, None, None)]
        && OneMore(attempts[attempt].number, AttemptNumbers(old(attempts), document))
    {
      var existing := FindByWorkflow(workflow);
      if existing.Some? {
        var a := existing.value;
        ok := a == attempt && attempts[a].document == document && attempts[a].tenant == tenant;
      } else {
        if attempt in attempts { return false; }
        var number := NextAttemptNumber(document, tenant);
        attempts := attempts[attempt := Attempt(document, tenant, workflow, number, Queued, None, None)];
        ok := true;
      }
    }

    method EnsureVersion(ghost tx: Tx, document: Uuid, attempt: Uuid, version: Uuid, storage: string, sha: string,
                         tenant: Uuid)
      returns (ok: bool)
      requires tx.Register? && tx.document == document && tx.attempt == attempt && tx.version == version
               && tx.storage == storage && tx.sha == sha && tx.tenant == tenant
      requires forall v :: v in versions && versions[v].document == document ==> versions[v].tenant == tenant
      modifies this`versions
      ensures ok == VersionCompatible(old(versions), tx)
      ensures ok <==>
        (version in old(versions) ==>
           && old(versions)[version].document == document && old(versions)[version].tenant == tenant
           && old(versions)[version].attempt == attempt
           && old(versions)[version].sha == sha && old(versions)[version].storage == storage)
      ensures ok ==> versions == RegisteredVersions(old(versions), tx)
      ensures ok && version !in old(versions) ==>
        && version in versions
        && versions == old(versions)[version :=
             Version(document, tenant, attempt, versions[version].number, sha, storage, Staged, 0)]
        && OneMore(versions[version].number, VersionNumbers(old(versions), document))
    {
      if version in versions {
        var v := versions[version];
        ok := (v.document, v.tenant, v.attempt, v.sha, v.storage) == (document, tenant, attempt, sha, storage);
      } else {
        var number := NextVersionNumber(document, tenant);
        versions := versions[version := Version(document, tenant, attempt, number, sha, storage, Staged, 0)];
        ok := true;
      }
    }

    method RegisterIngestion(document: Uuid, attempt: Uuid, version: Uuid, storage: string, sha: string,
                             filename: string, tenant: Uuid, workflow: string) returns (committed: bool)
      requires Valid()
      modifies this
      ensures Valid()
      ensures var tx := Register(document, attempt, version, storage, sha, filename, tenant, workflow);
              committed == Accepts(old(View()), tx) && View() == Apply(old(View()), Event(tx, false))
      ensures !committed ==> View() == old(View())
      ensures committed <==>
        && (document in old(documents) ==>
              && old(documents)[document].tenant == tenant && old(documents)[document].filename == filename
              && old(documents)[document].status != DocDeleted)
        && (if exists a :: a in old(attempts) && old(attempts)[a].workflow == workflow then
              && attempt in old(attempts) && old(attempts)[attempt].workflow == workflow
              && old(attempts)[attempt].document == document && old(attempts)[attempt].tenant == tenant
            else attempt !in old(attempts))
        && (version in old(versions) ==>
              && old(versions)[version].document == document && old(versions)[version].tenant == tenant
              && old(versions)[version].attempt == attempt
              && old(versions)[version].sha == sha && old(versions)[version].storage == storage)
      ensures committed ==> documents == old(documents)[document :=
        if document !in old(documents) then Document(tenant, filename, storage, sha, DocQueued, None)
        else old(documents)[document].(
               storage := storage, sha := sha,
               status := if old(documents)[document].status == DocProcessing then DocProcessing else DocQueued)]
      ensures committed && attempt in old(attempts) ==> attempts == old(attempts)
      ensures committed && attempt !in old(attempts) ==>
        && attempt in attempts
        && attempts == old(attempts)[attempt :=
             Attempt(document, tenant, workflow, attempts[attempt].number, Queued, None, None)]
        && OneMore(attempts[attempt].number, AttemptNumbers(old(attempts), document))
      ensures committed && version in old(versions) ==> versions == old(versions)
      ensures committed && version !in old(versions) ==>
        && version in versions
        && versions == old(versions)[version :=
             Version(document, tenant, attempt, versions[version].number, sha, storage, Staged, 0)]
        && OneMore(versions[version].number, VersionNumbers(old(versions), document))
      ensures chunks == old(chunks) && tombstones == old(tombstones)
    {
      ghost var tx := Register(document, attempt, version, storage, sha, filename, tenant, workflow);
      if Accepts(View(), tx) { EffectKeepsInv(View(), tx); }
      var saved := View();
      var ok := UpsertDocument(tx, document, storage, sha, filename, tenant);
      if !ok { return false; }
      SameTenants(saved, document, tenant);
      ok := EnsureAttempt(tx, document, attempt, tenant, workflow);
      if ok { ok := EnsureVersion(tx, document, attempt, version, storage, sha, tenant); }
      if !ok { Rollback(saved); }
      committed := ok;
    }

    method UpdateIngestionStage(document: Uuid, attempt: Uuid, tenant: Uuid, stage: string) returns (committed: bool)
      requires Valid()
      modifies this
      ensures Valid()
      ensures var tx := UpdateStage(document, attempt, tenant, stage);
              committed == Accepts(old(View()), tx) && View() == Apply(old(View()), Event(tx, false))
      ensures !committed ==> View() == old(View())
      ensures committed <==>
        && stage in {"detecting", "extracting", "chunking", "persisting", "indexing"}
        && attempt in old(attempts) && old(attempts)[attempt].status in {Queued, Processing}
        && old(attempts)[attempt].document == document && old(attempts)[attempt].tenant == tenant
        && document in old(documents) && old(documents)[document].tenant == tenant
        && old(documents)[document].status in {DocQueued, DocProcessing}
      ensures committed ==> View() == old(View()).(
        attempts := old(attempts)[attempt := old(attempts)[attempt].(status := Processing, stage := Some(stage))],
        documents := old(documents)[document := old(documents)[document].(status := DocProcessing)])
    {
      ghost var tx := UpdateStage(document, attempt, tenant, stage);
      if Accepts(View(), tx) { EffectKeepsInv(View(), tx); }
      if stage !in STAGES { return false; }
      var saved := View();
      if !OwnsAttempt(saved, attempt, document, tenant) || attempts[attempt].status !in {Queued, Processing} {
        return false;
      }
      attempts := attempts[attempt := attempts[attempt].(status := Processing, stage := Some(stage))];
      if !OwnsDocument(saved, document, tenant) || documents[document].status !in {DocQueued, DocProcessing} {
        Rollback(saved);
        return false;
      }
      documents := documents[document := documents[document].(status := DocProcessing)];
      committed := true;
    }

    method PersistChunks(items: seq<Chunk>, filename: string, tenant: Uuid, document: Uuid, version: Uuid)
      returns (committed: bool)
      requires Valid()
      modifies this
      ensures Valid()
      ensures var tx := Persist(items, filename, tenant, document, version);
              committed == Accepts(old(View()), tx) && View() == Apply(old(View()), Event(tx, false))
      ensures !committed ==> View() == old(View())
      ensures committed <==>
        && version in old(versions) && old(versions)[version].status == Staged
        && old(versions)[version].document == document && old(versions)[version].tenant == tenant
        && forall i :: 0 <= i < |items| ==> items[i].page > 0
      ensures committed ==>
        && version in chunks && |chunks[version]| == |items|
        && (forall i :: 0 <= i < |items| ==>
              && chunks[version][i].filename == filename && chunks[version][i].page == items[i].page
              && chunks[version][i].index == i && chunks[version][i].text == items[i].text)
      ensures committed ==> View() == old(View()).(
        chunks := old(chunks)[version := chunks[version]],
        versions := old(versions)[version := old(versions)[version].(chunkCount := |items|)])
    {
      ghost var tx := Persist(items, filename, tenant, document, version);
      if Accepts(View(), tx) { EffectKeepsInv(View(), tx); }
      var saved := View();
      if !OwnsVersion(saved, version, document, tenant) { return false; }
      chunks := chunks[version := []];
      var i := 0;
      while i < |items|
        invariant 0 <= i <= |items|
        invariant chunks == saved.chunks[version := Rows(items, filename)[..i]]
        invariant forall k :: 0 <= k < i ==> items[k].page > 0
        invariant View() == saved.(chunks := chunks)
      {
        if items[i].page <= 0 { Rollback(saved); return false; }
        assert Rows(items, filename)[..i + 1] == Rows(items, filename)[..i] + [Rows(items, filename)[i]];
        chunks := chunks[version := chunks[version] + [ChunkRow(filename, items[i].page, i, items[i].text)]];
        i := i + 1;
      }
      assert Rows(items, filename)[..|items|] == Rows(items, filename);
      if !versions[version].status.Staged? { Rollback(saved); return false; }
      versions := versions[version := versions[version].(chunkCount := |items|)];
      committed := true;
    }

    /** The activation transaction; the vector store is told after it has committed. */
    method ActivateVersion(document: Uuid, version: Uuid, tenant: Uuid) returns (committed: bool)
      requires Valid()
      modifies this
      ensures Valid()
      ensures var tx := Activate(document, version, tenant);
              committed == Accepts(old(View()), tx) && View() == Apply(old(View()), Event(tx, false))
      ensures committed <==>
        && document in old(documents) && old(documents)[document].tenant == tenant
        && old(documents)[document].status != DocDeleted
        && version in old(versions) && old(versions)[version].status in {Staged, Active}
        && old(versions)[version].document == document && old(versions)[version].tenant == tenant
      ensures !committed ==> View() == old(View())
      ensures committed && old(documents)[document].active == Some(version) ==> View() == old(View())
      ensures committed && old(documents)[document].active != Some(version) ==>
        && View() == old(View()).(versions := versions, documents := old(documents)[document :=
             old(documents)[document].(active := Some(version), status := DocIndexed)])
        && versions.Keys == old(versions).Keys
        && (forall v :: v in versions ==>
              (versions[v] == if v == version then old(versions)[v].(status := Active)
                              else if old(documents)[document].active == Some(v)
                              then old(versions)[v].(status := Superseded) else old(versions)[v]))
    {
      ghost var tx := Activate(document, version, tenant);
      InvPoints(View());
      if Accepts(View(), tx) { EffectKeepsInv(View(), tx); }
      if !OwnsDocument(View(), document, tenant) || documents[document].status.DocDeleted? { return false; }
      if !OwnsVersion(View(), version, document, tenant) || versions[version].status !in {Staged, Active} {
        return false;
      }
      var previous := documents[document].active;
      if previous != Some(version) {
        if previous.Some? {
          if OwnsVersion(View(), previous.value, document, tenant) && versions[previous.value].status.Active? {
            versions := versions[previous.value := versions[previous.value].(status := Superseded)];
          }
        }
        versions := versions[version := versions[version].(status := Active)];
        documents := documents[document := documents[document].(active := Some(version), status := DocIndexed)];
      }
      committed := true;
    }

    method FinishAttempt(document: Uuid, attempt: Uuid, version: Uuid, tenant: Uuid, status: AttemptStatus,
                         error: Option<string>)
      returns (committed: bool)
      requires Valid()
      modifies this
      ensures Valid()
      ensures var tx := Finish(document, attempt, version, tenant, status, error);
              committed == Accepts(old(View()), tx) && View() == Apply(old(View()), Event(tx, false))
      ensures !committed ==> View() == old(View())
      ensures committed <==>
        && status in {Indexed, Failed, Cancelled} && attempt in old(attempts)
        && old(attempts)[attempt].document == document && old(attempts)[attempt].tenant == tenant
        && if old(attempts)[attempt].status !in {Queued, Processing} then
             old(attempts)[attempt].status == status && old(attempts)[attempt].error == SafeCode(error)
           else
             || status == Indexed
             || (version in old(versions) && old(versions)[version].status == Staged
                 && old(versions)[version].document == document && old(versions)[version].tenant == tenant
                 && document in old(documents) && old(documents)[document].tenant == tenant
                 && old(documents)[document].status == DocProcessing)
             || (document in old(documents) && old(documents)[document].tenant == tenant
                 && old(documents)[document].active == Some(version))
      ensures committed && old(attempts)[attempt].status !in {Queued, Processing} ==> View() == old(View())
      ensures committed && old(attempts)[attempt].status in {Queued, Processing} ==>
        && attempts == old(attempts)[attempt := old(attempts)[attempt].(
             status := status, error := SafeCode(error),
             stage := Some(if status == Indexed then "indexed" else if status == Failed then "failed"
                           else "cancelled"))]
        && (if status != Indexed && version in old(versions) && old(versions)[version].status == Staged
               && old(versions)[version].document == document && old(versions)[version].tenant == tenant
            then
              && versions == old(versions)[version := old(versions)[version].(status := Rejected)]
              && documents == old(documents)[document := old(documents)[document].(
                   status := if status == Failed then DocFailed else DocQueued)]
            else versions == old(versions) && documents == old(documents))
        && chunks == old(chunks) && tombstones == old(tombstones)
    {
      ghost var tx := Finish(document, attempt, version, tenant, status, error);
      InvPoints(View());
      if Accepts(View(), tx) { EffectKeepsInv(View(), tx); }
      if status !in {Indexed, Failed, Cancelled} { return false; }
      var code := SafeCode(error);
      var saved := View();
      if !OwnsAttempt(saved, attempt, document, tenant) { return false; }
      if attempts[attempt].status !in {Queued, Processing} {
        committed := attempts[attempt].status == status && attempts[attempt].error == code;
        return;
      }
      attempts := attempts[attempt := attempts[attempt].(status := status, error := code,
              stage := Some(StageName(status)))];
      if status in {Failed, Cancelled} {
        if OwnsVersion(saved, version, document, tenant) && versions[version].status.Staged? {
          versions := versions[version := versions[version].(status := Rejected)];
          if !OwnsDocument(saved, document, tenant) || !documents[document].status.DocProcessing? {
            Rollback(saved);
            return false;
          }
          documents := documents[document := documents[document].(
            status := if status.Failed? then DocFailed else DocQueued)];
        } else if !(PointsAt(saved, document, tenant, version)
                    && OwnsVersion(saved, version, document, tenant) && versions[version].status.Active?) {
          Rollback(saved);
          return false;
        }
      }
      committed := true;
    }

    /** Supersedes the document's active versions. */
    method SupersedeActive(document: Uuid, tenant: Uuid)
      modifies this`versions
      ensures versions.Keys == old(versions).Keys
      ensures forall v :: v in versions ==> (versions[v] ==
                if OwnsVersion(old(View()), v, document, tenant) && old(versions)[v].status.Active?
                then old(versions)[v].(status := Superseded) else old(versions)[v])
    {
      var rest := versions.Keys;
      while rest != {}
        invariant rest <= versions.Keys && versions.Keys == old(versions).Keys
        invariant forall v :: v in versions ==> (versions[v] ==
                    if v !in rest && OwnsVersion(old(View()), v, document, tenant) && old(versions)[v].status.Active?
                    then old(versions)[v].(status := Superseded) else old(versions)[v])
        decreases rest
      {
        var v :| v in rest;
        if versions[v].document == document && versions[v].tenant == tenant && versions[v].status.Active? {
          versions := versions[v := versions[v].(status := Superseded)];
        }
        rest := rest - {v};
      }
    }

    method TombstoneDocument(document: Uuid, tenant: Uuid, reason: string) returns (committed: bool)
      requires Valid()
      modifies this
      ensures Valid()
      ensures var tx := Bury(document, tenant, reason);
              committed == Accepts(old(View()), tx) && View() == Apply(old(View()), Event(tx, false))
      ensures !committed ==> View() == old(View())
      ensures committed <==> document in old(documents) && old(documents)[document].tenant == tenant
      ensures committed && old(documents)[document].status == DocDeleted ==>
        View() == old(View()).(tombstones := old(tombstones)[document := Tombstone(tenant, reason)])
      ensures committed && old(documents)[document].status != DocDeleted ==>
        && View() == old(View()).(
             versions := versions,
             documents := old(documents)[document :=
               old(documents)[document].(status := DocDeleted, active := None)],
             tombstones := old(tombstones)[document := Tombstone(tenant, reason)])
        && versions.Keys == old(versions).Keys
        && (forall v :: v in versions ==>
              (versions[v] == if old(documents)[document].active == Some(v)
                              then old(versions)[v].(status := Superseded) else old(versions)[v]))
    {
      ghost var tx := Bury(document, tenant, reason);
      InvPoints(View());
      if Accepts(View(), tx) { EffectKeepsInv(View(), tx); }
      var saved := View();
      if !OwnsDocument(saved, document, tenant) { return false; }
      assert DocumentOk(saved, document);
      if !documents[document].status.DocDeleted? {
        SupersedeActive(document, tenant);
        documents := documents[document := documents[document].(status := DocDeleted, active := None)];
      }
      if document in tombstones && tombstones[document].tenant != tenant {
        Rollback(saved);
        committed := false;
        TombstoneOwner(saved, document);
        return;
      }
      tombstones := tombstones[document := Tombstone(tenant, reason)];
      committed := true;
      assert versions == Apply(saved, Event(tx, false)).versions;
    }

    /** The reconciler's last statement: attempts whose version is live did succeed. */
    method RepairAttempts()
      requires Valid()
      modifies this
      ensures Valid() && View() == Apply(old(View()), Event(MarkReconciled, false))
      ensures View() == old(View()).(attempts := attempts) && attempts.Keys == old(attempts).Keys
      ensures forall a :: a in attempts ==>
        if && old(attempts)[a].status in {Processing, Failed}
           && old(attempts)[a].error in {None, Some("workflow_activity_failed")}
           && exists v :: v in versions && versions[v].attempt == a && versions[v].document in documents
                && documents[versions[v].document].active == Some(v)
        then attempts[a] == old(attempts)[a].(status := Indexed, stage := Some("indexed"), error := None)
        else attempts[a] == old(attempts)[a]
    {
      EffectKeepsInv(View(), MarkReconciled);
      InvPoints(View());
      var saved := View();
      var rest := attempts.Keys;
      while rest != {}
        invariant rest <= attempts.Keys && attempts.Keys == saved.attempts.Keys
        invariant forall a :: a in attempts ==>
                    attempts[a] == if a !in rest then ReconcileEffect(saved).attempts[a] else saved.attempts[a]
        invariant View() == saved.(attempts := attempts)
        decreases rest
      {
        var a :| a in rest;
        if Recoverable(saved, a) {
          attempts := attempts[a := attempts[a].(status := Indexed, stage := Some("indexed"), error := None)];
        }
        rest := rest - {a};
      }
      assert attempts == ReconcileEffect(saved).attempts;
    }
  }
}
