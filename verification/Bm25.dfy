/**
 The debounced rebuild of the lexical index (services/retrieval/bm25_index.py:125-249): a pickled
 copy of the corpus, a timestamp beside it, and a marker file that says the copy may be behind.

 A rebuild can be cut short, `Cut` says where, and writing the marker can fail. Requests run one
 after the other, except in the last section, which shows what a writer that runs inside a rebuild
 can lose.
 */
module Bm25 {
  import opened Common

  datatype Doc = Doc(id: string, text: string)

  /** PostgreSQL's corpus, the saved index, the metadata file and the dirty marker. */
  datatype Files = Files(corpus: seq<Doc>, index: Option<seq<Doc>>, last: Option<real>, dirty: bool)

  /** How far a rebuild gets: to its end, or until it fails before one of its writes. */
  datatype Cut = Complete | BeforeSave | BeforeRecord | BeforeUnlink

  /** One call, with its clock readings: at the debounce check, and when a rebuild is recorded. `marks`
      says whether a skipped request gets its marker written. A change replaces the corpus and is
      followed by a request. */
  datatype Call =
    | Change(corpus: seq<Doc>, force: bool, now: real, done: real, cut: Cut, marks: bool)
    | Request(force: bool, now: real, done: real, cut: Cut, marks: bool)
    | Flush(now: real, done: real, cut: Cut)

  /** The corpus a search sees: nothing before the first build. */
  function Indexed(f: Files): seq<Doc> {
    match f.index case Some(docs) => docs case None => []
  }

  predicate Stale(f: Files) {
    Indexed(f) != f.corpus
  }

  /** What the debounce relies on: an index that is behind is marked. */
  predicate Marked(f: Files) {
    Stale(f) ==> f.dirty
  }

  function LastRebuildAt(f: Files): real {
    match f.last case Some(at) => at case None => 0.0
  }

  function Rebuilt(f: Files, done: real, cut: Cut): Files {
    match cut
    case BeforeSave => f
    case BeforeRecord => f.(index := Some(f.corpus))
    case BeforeUnlink => f.(index := Some(f.corpus), last := Some(done))
    case Complete => f.(index := Some(f.corpus), last := Some(done), dirty := false)
  }

  predicate Skips(f: Files, force: bool, now: real, interval: real) {
    !force && now - LastRebuildAt(f) < interval
  }

  function Requested(f: Files, force: bool, now: real, done: real, cut: Cut, marks: bool, interval: real): Files {
    if Skips(f, force, now, interval) then f.(dirty := f.dirty || marks) else Rebuilt(f, done, cut)
  }

  function Step(f: Files, call: Call, interval: real): Files {
    match call
    case Change(corpus, force, now, done, cut, marks) =>
      Requested(f.(corpus := corpus), force, now, done, cut, marks, interval)
    case Request(force, now, done, cut, marks) => Requested(f, force, now, done, cut, marks, interval)
    case Flush(_, done, cut) => if f.dirty then Rebuilt(f, done, cut) else f
  }

  function Run(f: Files, calls: seq<Call>, interval: real): Files {
    if calls == [] then f else Step(Run(f, calls[..|calls| - 1], interval), calls[|calls| - 1], interval)
  }

  // ---------------------------------------------------------------- the functions of the program

  class RebuildState {
    const minInterval: real
    var corpus: seq<Doc>
    var index: Option<seq<Doc>>
    var lastRebuildAt: Option<real>
    var dirty: bool

    constructor (minInterval: real)
      ensures View() == Files([], None, None, false) && this.minInterval == minInterval
    {
      this.minInterval := minInterval;
      corpus, index, lastRebuildAt, dirty := [], None, None, false;
    }

    function View(): Files
      reads this
    {
      Files(corpus, index, lastRebuildAt, dirty)
    }

    method RebuildNow(done: real, cut: Cut) returns (built: Option<seq<Doc>>)
      modifies this
      ensures View() == Rebuilt(old(View()), done, cut)
      ensures built == if cut == Complete then Some(corpus) else None
    {
      var docs := corpus;
      if cut == BeforeSave {
        return None;
      }
      index := Some(docs);
      if cut == BeforeRecord {
        return None;
      }
      lastRebuildAt := Some(done);
      if cut == BeforeUnlink {
        return None;
      }
      dirty := false;
      return Some(docs);
    }

    /** Forced calls always try; unforced ones only when the debounce window is over, and otherwise
        leave the marker - unless writing it raises. */
    method RebuildIndex(force: bool, now: real, done: real, cut: Cut, marks: bool) returns (built: Option<seq<Doc>>)
      modifies this
      ensures View() == Step(old(View()), Request(force, now, done, cut, marks), minInterval)
      ensures built.Some? ==> built.value == corpus == Indexed(View()) && !dirty
      ensures built.None? ==> cut != Complete || (!force && index == old(index) && (marks ==> dirty))
      ensures corpus == old(corpus)
      ensures !force && now - (if old(lastRebuildAt).Some? then old(lastRebuildAt).value else 0.0) < minInterval ==>
        && built == None && index == old(index) && lastRebuildAt == old(lastRebuildAt)
        && dirty == (old(dirty) || marks)
      ensures force || now - (if old(lastRebuildAt).Some? then old(lastRebuildAt).value else 0.0) >= minInterval ==>
        && built == (if cut == Complete then Some(corpus) else None)
        && index == (if cut == BeforeSave then old(index) else Some(corpus))
        && lastRebuildAt == (if cut == BeforeSave || cut == BeforeRecord then old(lastRebuildAt) else Some(done))
        && dirty == (if cut == Complete then false else old(dirty))
    {
      var last := if lastRebuildAt.Some? then lastRebuildAt.value else 0.0;
      if !force && now - last < minInterval {
        if marks {
          dirty := true;
        }
        return None;
      }
      built := RebuildNow(done, cut);
    }

    method FlushIfDirty(now: real, done: real, cut: Cut) returns (built: Option<seq<Doc>>)
      modifies this
      ensures View() == Step(old(View()), Flush(now, done, cut), minInterval)
      ensures built.Some? <==> old(dirty) && cut == Complete
      ensures built.Some? ==> built.value == corpus
      ensures corpus == old(corpus)
      ensures !old(dirty) ==> View() == old(View())
      ensures old(dirty) ==>
        && index == (if cut == BeforeSave then old(index) else Some(corpus))
        && lastRebuildAt == (if cut == BeforeSave || cut == BeforeRecord then old(lastRebuildAt) else Some(done))
        && dirty == (cut != Complete)
    {
      if dirty {
        built := RebuildNow(done, cut);
      } else {
        built := None;
      }
    }
  }

  // ---------------------------------------------------------------- an index that is behind is marked

  /** A request that gives up: it neither saves an index nor leaves a marker. */
  predicate GivesUp(f: Files, call: Call, interval: real) {
    && !call.Flush?
    && (if Skips(f, call.force, call.now, interval) then !call.marks else call.cut == BeforeSave)
  }

  /** How a stale index loses its marker: the request after a change gives up, and found no marker from
      before. */
  predicate Loses(f: Files, call: Call, interval: real) {
    call.Change? && GivesUp(f, call, interval) && !f.dirty && Indexed(f) != call.corpus
  }

  /** The marker discipline survives a call exactly when the call does not lose. */
  lemma StepKeepsMarkIff(f: Files, call: Call, interval: real)
    requires Marked(f)
    ensures Marked(Step(f, call, interval)) <==> !Loses(f, call, interval)
  {
  }

  /** No call before the n-th loses. */
  ghost predicate LosesNothing(f: Files, calls: seq<Call>, interval: real) {
    forall n {:trigger calls[..n]} :: 0 <= n < |calls| ==> !Loses(Run(f, calls[..n], interval), calls[n], interval)
  }

  /** Whole runs: wherever nothing was lost, a stale index is marked. */
  lemma {:induction false} StaleIsMarked(f: Files, calls: seq<Call>, interval: real)
    requires Marked(f) && LosesNothing(f, calls, interval)
    ensures Marked(Run(f, calls, interval))
  {
    if calls != [] {
      var init := calls[..|calls| - 1];
      forall n {:trigger init[..n]} | 0 <= n < |init| ensures !Loses(Run(f, init[..n], interval), init[n], interval) {
        assert init[..n] == calls[..n];
      }
      StaleIsMarked(f, init, interval);
      StepKeepsMarkIff(Run(f, init, interval), calls[|calls| - 1], interval);
      assert !Loses(Run(f, calls[..|calls| - 1], interval), calls[|calls| - 1], interval);
    }
  }

  /** A loss is real: the first document, with the database gone before the index is written. */
  lemma FailedRebuildLosesTheMark(doc: Doc, interval: real)
    requires 0.0 <= interval
    ensures var f := Files([], None, None, false);
            var f' := Step(f, Change([doc], false, interval, interval, BeforeSave, true), interval);
            && Marked(f) && Stale(f') && !f'.dirty
            && Step(f', Flush(interval, interval, Complete), interval) == f'
  {
  }

  /** And so is the other one: a document added inside the debounce window, with the marker's directory
      not writable. */
  lemma FailedMarkerLosesTheMark(doc: Doc, interval: real)
    requires 0.0 < interval
    ensures var f := Files([], Some([]), Some(interval), false);
            var f' := Step(f, Change([doc], false, interval, interval, Complete, false), interval);
            && Marked(f) && Stale(f') && !f'.dirty
            && Step(f', Flush(interval, interval, Complete), interval) == f'
  {
  }

  /** Any later request that does not itself give up makes up for it, from any state - which is what the
      retry of the indexing activity does. */
  lemma NextRequestRepairs(f: Files, call: Call, interval: real)
    requires call.Request? && !GivesUp(f, call, interval)
    ensures Marked(Step(f, call, interval))
    ensures call.force ==> !Stale(Step(f, call, interval))
  {
  }

  /** Every request that gives up is followed by another one. */
  ghost predicate Retried(f: Files, calls: seq<Call>, interval: real) {
    forall n {:trigger calls[..n]} :: 0 <= n < |calls| && GivesUp(Run(f, calls[..n], interval), calls[n], interval) ==>
      n + 1 < |calls| && calls[n + 1].Request?
  }

  /** With that retry, every run leaves the marker discipline intact at its end. */
  lemma {:induction false} RetriedRunsAreMarked(f: Files, calls: seq<Call>, interval: real)
    requires Marked(f) && Retried(f, calls, interval)
    ensures Marked(Run(f, calls, interval))
  {
    if calls != [] {
      var init, last := calls[..|calls| - 1], calls[|calls| - 1];
      var before := Run(f, init, interval);
      assert !GivesUp(before, last, interval) by { assert init == calls[..|init|]; }
      if last.Request? {
        NextRequestRepairs(before, last, interval);
      } else {
        forall n {:trigger init[..n]} | 0 <= n < |init| && GivesUp(Run(f, init[..n], interval), init[n], interval)
          ensures n + 1 < |init| && init[n + 1].Request?
        {
          assert init[..n] == calls[..n];
        }
        RetriedRunsAreMarked(f, init, interval);
        StepKeepsMarkIff(before, last, interval);
      }
    }
  }

  /** A complete flush after any such run leaves the index equal to the corpus, and clean. */
  lemma FlushCatchesUp(f: Files, calls: seq<Call>, now: real, done: real, interval: real)
    requires Marked(f) && LosesNothing(f, calls, interval)
    ensures var g := Run(f, calls, interval);
            var h := Step(g, Flush(now, done, Complete), interval);
            Indexed(h) == h.corpus == g.corpus && !h.dirty
  {
    StaleIsMarked(f, calls, interval);
  }

  // ---------------------------------------------------------------- how often it rebuilds

  /** The clock never goes back: readings within a call, and from call to call. */
  ghost predicate Clocked(calls: seq<Call>) {
    && (forall i :: 0 <= i < |calls| ==> calls[i].now <= calls[i].done)
    && (forall i :: 0 < i < |calls| ==> calls[i - 1].done <= calls[i].now)
  }

  /** An unforced rebuild starts, however far it gets. */
  predicate Attempts(f: Files, call: Call, interval: real) {
    !call.Flush? && !call.force && !Skips(f, false, call.now, interval)
  }

  /** The rebuild gets as far as its timestamp. */
  predicate Records(call: Call) {
    call.cut == Complete || call.cut == BeforeUnlink
  }

  predicate Rebuilds(f: Files, call: Call, interval: real) {
    Attempts(f, call, interval) && Records(call)
  }

  /** When the unforced rebuilds of a run started, of those that recorded their timestamp. */
  function Starts(f: Files, calls: seq<Call>, interval: real): seq<real> {
    if calls == [] then []
    else
      var init, last := calls[..|calls| - 1], calls[|calls| - 1];
      var earlier := Starts(f, init, interval);
      if Rebuilds(Run(f, init, interval), last, interval) then earlier + [last.now] else earlier
  }

  ghost predicate Spaced(starts: seq<real>, interval: real) {
    forall i, j {:trigger starts[i], starts[j]} :: 0 <= i < j < |starts| ==>
            starts[j] - starts[i] >= (j - i) as real * interval
  }

  lemma OneMoreInterval(m: int, interval: real)
    ensures (m + 1) as real * interval == m as real * interval + interval
  {
  }

  /** The new start is far enough from the i-th. */
  lemma SpacedAt(starts: seq<real>, next: real, interval: real, i: nat)
    requires Spaced(starts, interval) && i < |starts| && next >= starts[|starts| - 1] + interval
    ensures next - starts[i] >= (|starts| - i) as real * interval
  {
    var n := |starts|;
    OneMoreInterval(n - 1 - i, interval);
    assert i < n - 1 ==> starts[n - 1] - starts[i] >= (n - 1 - i) as real * interval;
  }

  lemma SpacedExtends(starts: seq<real>, next: real, interval: real)
    requires Spaced(starts, interval)
    requires starts != [] ==> next >= starts[|starts| - 1] + interval
    ensures Spaced(starts + [next], interval)
  {
    var all, n := starts + [next], |starts|;
    forall i, j | 0 <= i < j < |all| ensures all[j] - all[i] >= (j - i) as real * interval {
      if j == n { SpacedAt(starts, next, interval, i); }
    }
  }

  /** The starts so far are spaced, and the timestamp is no earlier than the last of them. */
  ghost predicate Paced(g: Files, starts: seq<real>, clock: real, interval: real) {
    && Spaced(starts, interval)
    && (starts != [] ==> g.last.Some? && starts[|starts| - 1] <= g.last.value)
    && (g.last.Some? ==> g.last.value <= clock)
  }

  lemma StepPaced(g: Files, starts: seq<real>, clock: real, call: Call, interval: real)
    requires Paced(g, starts, clock, interval) && 0.0 < interval
    requires clock <= call.now <= call.done
    ensures Paced(Step(g, call, interval), if Rebuilds(g, call, interval) then starts + [call.now] else starts,
                  call.done, interval)
  {
    if Rebuilds(g, call, interval) { SpacedExtends(starts, call.now, interval); }
  }

  lemma {:induction false} StartsArePaced(f: Files, calls: seq<Call>, interval: real)
    requires Clocked(calls) && 0.0 < interval && calls != []
    requires f.last.Some? ==> f.last.value <= calls[0].now
    ensures Paced(Run(f, calls, interval), Starts(f, calls, interval), calls[|calls| - 1].done, interval)
  {
    var init, last := calls[..|calls| - 1], calls[|calls| - 1];
    if init != [] {
      StartsArePaced(f, init, interval);
      StepPaced(Run(f, init, interval), Starts(f, init, interval), init[|init| - 1].done, last, interval);
    } else {
      StepPaced(f, [], last.now, last, interval);
    }
  }

  /** Whatever else is forced, flushed or cut short, the unforced rebuilds that start within T seconds
      and record their timestamp number at most floor(T / interval) + 1. */
  lemma RebuildsAreRare(f: Files, calls: seq<Call>, interval: real, T: real, i: nat, j: nat)
    requires Clocked(calls) && 0.0 < interval
    requires f.last.Some? && calls != [] ==> f.last.value <= calls[0].now
    requires i <= j < |Starts(f, calls, interval)|
    requires Starts(f, calls, interval)[j] - Starts(f, calls, interval)[i] <= T
    ensures j - i + 1 <= (T / interval).Floor + 1
  {
    StartsArePaced(f, calls, interval);
    SpacedCount(Starts(f, calls, interval), interval, T, i, j);
  }

  lemma SpacedCount(starts: seq<real>, interval: real, T: real, i: nat, j: nat)
    requires Spaced(starts, interval) && 0.0 < interval
    requires i <= j < |starts| && starts[j] - starts[i] <= T
    ensures j - i + 1 <= (T / interval).Floor + 1
  {
    if i == j {
      QuotientAtLeast(T, interval, 0);
    } else {
      assert starts[j] - starts[i] >= (j - i) as real * interval;
      QuotientAtLeast(T, interval, j - i);
    }
  }

  lemma QuotientAtLeast(T: real, interval: real, n: nat)
    requires 0.0 < interval && T >= n as real * interval
    ensures n <= (T / interval).Floor
  {
    var q := T / interval;
    assert q * interval == T;
    assert q < n as real ==> q * interval < n as real * interval;
  }

  /** The timestamp is exactly what spaces rebuilds: after an attempt, the unforced calls of the next
      interval are skipped if and only if the attempt recorded its timestamp. */
  lemma SpacedIffRecorded(f: Files, call: Call, later: real, interval: real)
    requires Attempts(f, call, interval) && 0.0 < interval
    requires call.now <= call.done <= later < call.done + interval
    ensures Skips(Step(f, call, interval), false, later, interval) <==> Records(call)
  {
  }

  /** When any unforced rebuild of a run started, recorded or not. */
  function AttemptStarts(f: Files, calls: seq<Call>, interval: real): seq<real> {
    if calls == [] then []
    else
      var init, last := calls[..|calls| - 1], calls[|calls| - 1];
      var earlier := AttemptStarts(f, init, interval);
      if Attempts(Run(f, init, interval), last, interval) then earlier + [last.now] else earlier
  }

  function Repeated(call: Call, n: nat): seq<Call> {
    if n == 0 then [] else Repeated(call, n - 1) + [call]
  }

  lemma OneMore(f: Files, calls: seq<Call>, call: Call, interval: real)
    requires Run(f, calls, interval) == f && Step(f, call, interval) == f && Attempts(f, call, interval)
    ensures Run(f, calls + [call], interval) == f
    ensures AttemptStarts(f, calls + [call], interval) == AttemptStarts(f, calls, interval) + [call.now]
  {
    assert (calls + [call])[..|calls|] == calls;
  }

  function Instants(now: real, n: nat): seq<real> {
    seq(n, i => now)
  }

  /** Rebuilds that fail before their timestamp are not debounced at all: any number of them can start
      at one instant. */
  lemma {:induction false} CutRebuildsPileUp(f: Files, now: real, interval: real, n: nat)
    requires now - LastRebuildAt(f) >= interval
    ensures var calls := Repeated(Request(false, now, now, BeforeSave, true), n);
            && |calls| == n && Clocked(calls)
            && Run(f, calls, interval) == f && AttemptStarts(f, calls, interval) == Instants(now, n)
  {
    var call := Request(false, now, now, BeforeSave, true);
    SameInstant(call, n);
    if n > 0 {
      CutRebuildsPileUp(f, now, interval, n - 1);
      OneMore(f, Repeated(call, n - 1), call, interval);
      assert Instants(now, n) == Instants(now, n - 1) + [now];
    }
  }

  lemma {:induction false} SameInstant(call: Call, n: nat)
    requires call.now == call.done
    ensures |Repeated(call, n)| == n && Clocked(Repeated(call, n))
    ensures forall i :: 0 <= i < n ==> Repeated(call, n)[i] == call
  {
    if n > 0 { SameInstant(call, n - 1); }
  }

  /** Where every attempt records its timestamp, the bound is one on all unforced rebuilds. */
  lemma {:induction false} RecordedAttemptsAreStarts(f: Files, calls: seq<Call>, interval: real)
    requires forall n {:trigger calls[..n]} ::
               0 <= n < |calls| && Attempts(Run(f, calls[..n], interval), calls[n], interval) ==> Records(calls[n])
    ensures AttemptStarts(f, calls, interval) == Starts(f, calls, interval)
  {
    if calls != [] {
      var init, last := calls[..|calls| - 1], calls[|calls| - 1];
      forall n {:trigger init[..n]} | 0 <= n < |init| && Attempts(Run(f, init[..n], interval), init[n], interval)
        ensures Records(init[n])
      {
        assert init[..n] == calls[..n];
      }
      RecordedAttemptsAreStarts(f, init, interval);
      assert init == calls[..|init|];
    }
  }

  // ---------------------------------------------------------------- writers inside a rebuild

  /** A writer's own steps: its commit, and the marker its skipped request leaves. */
  datatype Write = Commit(corpus: seq<Doc>) | Mark

  function Writes(f: Files, writes: seq<Write>): Files {
    if writes == [] then f
    else
      var g := Writes(f, writes[..|writes| - 1]);
      match writes[|writes| - 1] case Commit(c) => g.(corpus := c) case Mark => g.(dirty := true)
  }

  /** A rebuild with writers inside it: the corpus is read, some writers run, the copy is saved and the
      marker removed, other writers run. */
  function Raced(f: Files, during: seq<Write>, done: real, after: seq<Write>): Files {
    var g := Writes(f, during);
    Writes(g.(index := Some(f.corpus), last := Some(done), dirty := false), after)
  }

  lemma {:induction false} WritesLeave(f: Files, writes: seq<Write>)
    ensures Writes(f, writes).index == f.index && Writes(f, writes).last == f.last
    ensures Writes(f, writes).dirty <==> f.dirty || Mark in writes
  {
    if writes != [] {
      WritesLeave(f, writes[..|writes| - 1]);
      assert writes == writes[..|writes| - 1] + [writes[|writes| - 1]];
    }
  }

  /** What the last commit of some writes leaves, if there is one. */
  function LastCommit(writes: seq<Write>): Option<seq<Doc>> {
    if writes == [] then None
    else
      match writes[|writes| - 1]
      case Commit(corpus) => Some(corpus)
      case Mark => LastCommit(writes[..|writes| - 1])
  }

  lemma {:induction false} WritesCommit(f: Files, writes: seq<Write>)
    ensures Writes(f, writes).corpus == match LastCommit(writes) case Some(corpus) => corpus case None => f.corpus
  {
    if writes != [] { WritesCommit(f, writes[..|writes| - 1]); }
  }

  lemma {:induction false} LastOfBoth(during: seq<Write>, after: seq<Write>)
    ensures LastCommit(during + after) == if LastCommit(after).Some? then LastCommit(after) else LastCommit(during)
  {
    if after == [] {
      assert during + after == during;
    } else {
      assert (during + after)[..|during + after| - 1] == during + after[..|after| - 1];
      LastOfBoth(during, after[..|after| - 1]);
    }
  }

  /** A marker set while the rebuild runs is lost: only one set after the unlink counts. The discipline
      survives a race exactly when the writers' last commit, if there is one, commits the corpus the
      rebuild had read, or such a late marker exists. */
  lemma RaceKeepsMarkIff(f: Files, during: seq<Write>, done: real, after: seq<Write>)
    ensures Marked(Raced(f, during, done, after)) <==>
              LastCommit(during + after) in {None, Some(f.corpus)} || Mark in after
  {
    var g := Writes(f, during);
    var h := g.(index := Some(f.corpus), last := Some(done), dirty := false);
    WritesLeave(h, after);
    WritesCommit(f, during);
    WritesCommit(h, after);
    LastOfBoth(during, after);
  }

  /** The concrete loss: commit, mark, and the marker is gone. */
  lemma MarkedWriterLost(f: Files, doc: Doc, done: real)
    ensures var g := Raced(f, [Commit(f.corpus + [doc]), Mark], done, []);
            Stale(g) && !g.dirty
  {
    var writes := [Commit(f.corpus + [doc]), Mark];
    assert writes[..1] == [Commit(f.corpus + [doc])] && writes[..1][..0] == [];
    assert Writes(f, writes[..1]).corpus == f.corpus + [doc];
    assert Writes(f, writes).corpus == f.corpus + [doc] != f.corpus;
  }
}
