/**
 The bounded output loop of the shell runner (local_agent/shell_runner.py): two pipes read a little at
 a time, the tails of what was read, and how a run ends.

 Windows is an oracle: what bytes arrive before each look at a pipe, whether a call fails, how much a
 read returns, when the command is cancelled, out of time or has exited.
 */
module Shell {
  import opened Common

  type Byte = bv8

  const TAIL_BYTES: nat := 4000
  const READ_BYTES: nat := 8192
  const ROUNDS: nat := 4

  datatype Outcome = Exited | TimedOut | Cancelled | OutputLimit | StartupFailed | RuntimeError

  /** One look at a pipe. `arrives` came in before it; an empty pipe ends the pass, whether its writers
      are gone or not; a read of what is there returns at most `take` bytes. */
  datatype IO =
    | Look(arrives: seq<Byte>, take: nat)
    | PeekFails(arrives: seq<Byte>, code: int)
    | ReadFails(arrives: seq<Byte>, code: int)

  datatype Pass = Pass(out: nat -> IO, err: nat -> IO)

  datatype Wait = StillRunning | Finished(exitCode: int) | NoExitCode(code: int) | WaitFails(code: int)

  /** One turn of the observation loop. */
  datatype Tick = Tick(cancelled: bool, expired: bool, pass: Pass, wait: Wait)

  /** How far starting the process got. */
  datatype Launch =
    | SetupFails(code: int)                // some call up to and including the creation failed
    | StoppedBefore(cancelled: bool)       // cancelled or out of time before the creation
    | StoppedSuspended(cancelled: bool)    // the same, between creation and resumption
    | ResumeFails(code: int)
    | Running

  datatype ShellResult = ShellResult(
    outcome: Outcome, returncode: Option<int>, stdout: seq<Byte>, stderr: seq<Byte>,
    stdoutObserved: nat, stderrObserved: nat, truncated: bool, started: bool, cleanup: bool, errorCode: Option<int>)

  function LastBytes(s: seq<Byte>): seq<Byte> {
    if |s| > TAIL_BYTES then s[|s| - TAIL_BYTES..] else s
  }

  /** The last 4000 bytes of all, or all of fewer. */
  lemma LastBytesAreTheLast(all: seq<Byte>)
    ensures |LastBytes(all)| == if |all| < 4000 then |all| else 4000
    ensures forall k :: 0 <= k < |LastBytes(all)| ==> LastBytes(all)[k] == all[|all| - |LastBytes(all)| + k]
  {
  }

  /** Cutting to the last bytes along the way does not change the last bytes of the whole. */
  lemma LastBytesAppend(a: seq<Byte>, b: seq<Byte>)
    ensures LastBytes(LastBytes(a) + b) == LastBytes(a + b)
  {
    if |a| > TAIL_BYTES {
      var k := |a| - TAIL_BYTES;
      assert (a + b)[k..] == a[k..] + b;
      assert (a + b)[|a + b| - TAIL_BYTES..] == (a + b)[k..][|b|..];
    }
  }

  class Tail {
    var data: seq<Byte>
    var observed: nat
    ghost var read: seq<Byte>

    ghost predicate Valid()
      reads this
    {
      observed == |read| && data == LastBytes(read)
    }

    constructor ()
      ensures Valid() && read == []
    {
      data, observed, read := [], 0, [];
    }

    method Append(bytes: seq<Byte>)
      requires Valid()
      modifies this
      ensures Valid() && read == old(read) + bytes
      ensures observed == |old(read)| + |bytes| && |data| == if observed < 4000 then observed else 4000
    {
      observed := observed + |bytes|;
      LastBytesAppend(read, bytes);
      data := data + bytes;
      if |data| > TAIL_BYTES {
        data := data[|data| - TAIL_BYTES..];
      }
      read := read + bytes;
    }
  }

  /** The kernel's side of a pipe: all the command wrote is either read or still buffered. */
  class Pipe {
    var buffered: seq<Byte>
    ghost var written: seq<Byte>

    constructor ()
      ensures buffered == [] && written == []
    {
      buffered, written := [], [];
    }

    method Arrive(bytes: seq<Byte>)
      modifies this
      ensures buffered == old(buffered) + bytes && written == old(written) + bytes
    {
      buffered, written := buffered + bytes, written + bytes;
    }

    method Take(n: nat) returns (bytes: seq<Byte>)
      requires n <= |buffered|
      modifies this`buffered
      ensures |bytes| == n && old(buffered) == bytes + buffered
    {
      bytes := buffered[..n];
      buffered := buffered[n..];
    }
  }

  /** What a tail has read is the front of what was written to its pipe; the rest is buffered. */
  ghost predicate Follows(tail: Tail, pipe: Pipe)
    reads tail, pipe
  {
    tail.Valid() && pipe.written == tail.read + pipe.buffered
  }

  function Min3(a: int, b: int, c: int): int {
    if a <= b && a <= c then a else if b <= c then b else c
  }

  /** One of the calls of a pass failed with this code. */
  ghost predicate FailsWith(io: nat -> IO, code: int) {
    exists i: nat :: i < 4 && !io(i).Look? && io(i).code == code
  }

  ghost predicate PassFails(pass: Pass, code: int) {
    FailsWith(pass.out, code) || FailsWith(pass.err, code)
  }

  /** Before turn t nothing ended the run: no cancellation, time left, and the process still there. */
  ghost predicate Uneventful(ticks: nat -> Tick, t: nat) {
    forall i: nat :: i < t ==> !ticks(i).cancelled && !ticks(i).expired && ticks(i).wait == StillRunning
  }

  ghost predicate CancelledAt(ticks: nat -> Tick, t: nat) {
    Uneventful(ticks, t) && ticks(t).cancelled
  }

  ghost predicate ExpiredAt(ticks: nat -> Tick, t: nat) {
    Uneventful(ticks, t) && !ticks(t).cancelled && ticks(t).expired
  }

  /** The turn went as far as its look at the pipes. */
  ghost predicate ReachedAt(ticks: nat -> Tick, t: nat) {
    Uneventful(ticks, t) && !ticks(t).cancelled && !ticks(t).expired
  }

  ghost predicate ExitedAt(ticks: nat -> Tick, t: nat, exitCode: int) {
    ReachedAt(ticks, t) && ticks(t).wait == Finished(exitCode)
  }

  /** The turn ended the run with an error: a pipe call, the wait or the query of the exit code failed. */
  ghost predicate FailedAt(ticks: nat -> Tick, t: nat, code: int) {
    && ReachedAt(ticks, t)
    && (PassFails(ticks(t).pass, code) || ticks(t).wait in {NoExitCode(code), WaitFails(code)})
  }

  ghost predicate SawExit(ticks: nat -> Tick, expiry: nat, exitCode: int) {
    exists t: nat :: t < expiry && ExitedAt(ticks, t, exitCode)
  }

  ghost predicate SawFailure(ticks: nat -> Tick, expiry: nat, code: int) {
    exists t: nat :: t < expiry && FailedAt(ticks, t, code)
  }

  ghost predicate SawStop(ticks: nat -> Tick, expiry: nat, cancelled: bool) {
    if cancelled then exists t: nat :: t <= expiry && CancelledAt(ticks, t)
    else exists t: nat :: t <= expiry && ExpiredAt(ticks, t)
  }

  ghost predicate LookedAtPipes(ticks: nat -> Tick, expiry: nat) {
    exists t: nat :: t < expiry && ReachedAt(ticks, t)
  }

  ghost predicate ResidueFails(passes: nat -> Pass, code: int) {
    exists n: nat :: PassFails(passes(n), code)
  }

  /** Cancelled or, if not, out of time: before the process was created or resumed, or at a turn of the loop. */
  ghost predicate WasStopped(launch: Launch, ticks: nat -> Tick, expiry: nat, cancelled: bool) {
    match launch
    case StoppedBefore(c) => c == cancelled
    case StoppedSuspended(c) => c == cancelled
    case Running => SawStop(ticks, expiry, cancelled)
    case _ => false
  }

  /** Reads of available bytes make progress. */
  ghost predicate Prompt(io: nat -> IO) {
    forall i: nat :: io(i).Look? ==> io(i).take > 0
  }

  ghost predicate AllPrompt(passes: nat -> Pass) {
    forall n: nat :: Prompt(passes(n).out) && Prompt(passes(n).err)
  }

  /** One look at a pipe, and the read of what it shows. Nothing at all read means nothing was there. */
  method LookOnce(pipe: Pipe, tail: Tail, room: nat, io: IO) returns (r: Result<nat, int>)
    requires Follows(tail, pipe) && room > 0
    modifies pipe, tail
    ensures Follows(tail, pipe)
    ensures r.Err? ==> tail.read == old(tail.read) && !io.Look? && r.error == io.code
    ensures r.Err? <==> io.PeekFails? || (io.ReadFails? && old(pipe.buffered) + io.arrives != [])
    ensures pipe.written == old(pipe.written) + io.arrives
    ensures r.Ok? && io.Look? ==>
      var available := |old(pipe.buffered)| + |io.arrives|;
      && r.value <= available && r.value <= room && r.value <= 8192 && r.value <= io.take
      && r.value in {available, room, 8192, io.take}
    ensures r.Ok? ==> old(tail.read) <= tail.read && |tail.read| == |old(tail.read)| + r.value
    ensures r.Ok? ==> r.value <= room && r.value <= READ_BYTES
    ensures r == Ok(0) && (io.Look? ==> io.take > 0) ==> pipe.buffered == []
  {
    pipe.Arrive(io.arrives);
    Assoc(tail.read, old(pipe.buffered), io.arrives);
    if io.PeekFails? {
      return Err(io.code);
    }
    if pipe.buffered == [] {
      return Ok(0);
    }
    if io.ReadFails? {
      return Err(io.code);
    }
    var size := Min3(READ_BYTES, |pipe.buffered|, room);
    var bytes := pipe.Take(if io.take < size then io.take else size);
    Assoc(tail.read, bytes, pipe.buffered);
    tail.Append(bytes);
    return Ok(|bytes|);
  }

  /** What has come in by the n-th look of a pass. */
  ghost function Arrivals(io: nat -> IO, n: nat): seq<Byte> {
    if n == 0 then [] else Arrivals(io, n - 1) + io(n - 1).arrives
  }

  /** Up to four reads from one pipe, never more than the allowance. A read that returns nothing leaves
      the next one to be tried; an empty pipe ends the pass. */
  method Drain(pipe: Pipe, tail: Tail, allowance: nat, io: nat -> IO)
    returns (r: Result<nat, int>, ghost looks: nat)
    requires Follows(tail, pipe)
    modifies pipe, tail
    ensures Follows(tail, pipe)
    ensures old(tail.read) <= tail.read && |tail.read| <= |old(tail.read)| + allowance
    ensures |tail.read| <= |old(tail.read)| + 4 * 8192
    ensures looks <= 4 && pipe.written == old(pipe.written) + Arrivals(io, looks)
    ensures r.Ok? && looks < 4 ==> r.value == allowance || pipe.buffered == []
    ensures r.Ok? ==> |tail.read| == |old(tail.read)| + r.value
    ensures r.Err? ==> FailsWith(io, r.error)
    ensures r == Ok(0) && allowance > 0 && Prompt(io) ==> pipe.buffered == []
  {
    var count := 0;
    looks := 0;
    assert pipe.written + [] == pipe.written;
    for i := 0 to ROUNDS
      invariant looks == i && pipe.written == old(pipe.written) + Arrivals(io, looks)
      invariant Follows(tail, pipe)
      invariant old(tail.read) <= tail.read && |tail.read| == |old(tail.read)| + count
      invariant count <= allowance && count <= i * READ_BYTES
      invariant i > 0 && Prompt(io) ==> count > 0 || pipe.buffered == []
    {
      if count >= allowance {
        break;
      }
      Assoc(old(pipe.written), Arrivals(io, looks), io(i).arrives);
      looks := looks + 1;
      var looked := LookOnce(pipe, tail, allowance - count, io(i));
      if looked.Err? {
        return looked, looks;
      }
      if pipe.buffered == [] && looked.value == 0 {
        break;
      }
      count := count + looked.value;
    }
    return Ok(count), looks;
  }

  class Runner {
    const limit: nat
    const outPipe: Pipe
    const errPipe: Pipe
    const stdout: Tail
    const stderr: Tail

    var outcome: Outcome
    var returncode: Option<int>
    var started: bool
    var cleanup: bool

    /** How much had been read when the observation ended. */
    ghost var watched: nat

    /** The total so far is at most one more than the limit; the four objects are distinct and in step. */
    ghost predicate Valid()
      reads this, outPipe, errPipe, stdout, stderr
    {
      && outPipe != errPipe && stdout != stderr
      && Follows(stdout, outPipe) && Follows(stderr, errPipe)
      && Observed() <= limit + 1
    }

    ghost function Observed(): nat
      reads stdout, stderr
    {
      |stdout.read| + |stderr.read|
    }

    constructor (limit: nat)
      requires 1 <= limit
      ensures Valid() && this.limit == limit && Observed() == 0
      ensures fresh(outPipe) && fresh(errPipe) && fresh(stdout) && fresh(stderr)
      ensures outcome == StartupFailed && returncode == None && !started && cleanup
    {
      this.limit := limit;
      outPipe := new Pipe();
      errPipe := new Pipe();
      stdout := new Tail();
      stderr := new Tail();
      outcome, returncode, started, cleanup, watched := StartupFailed, None, false, true, 0;
    }

    /** One pass over both pipes. */
    method DrainBoth(pass: Pass) returns (r: Result<nat, int>)
      requires Valid()
      modifies outPipe, errPipe, stdout, stderr
      ensures Valid()
      ensures old(stdout.read) <= stdout.read && old(stderr.read) <= stderr.read
      ensures r.Ok? ==> Observed() == old(Observed()) + r.value
      ensures r.Err? ==> PassFails(pass, r.error)
      ensures r == Ok(0) && Observed() <= limit && Prompt(pass.out) && Prompt(pass.err) ==>
                outPipe.buffered == [] && errPipe.buffered == []
    {
      var first, _ := Drain(outPipe, stdout, limit + 1 - stdout.observed - stderr.observed, pass.out);
      if first.Err? {
        return first;
      }
      var second, _ := Drain(errPipe, stderr, limit + 1 - stdout.observed - stderr.observed, pass.err);
      if second.Err? {
        return second;
      }
      return Ok(first.value + second.value);
    }

    /** Watches the resumed process until it is cancelled, out of time, over the limit or gone. The clock
        passes the deadline at some turn. */
    method Observe(ticks: nat -> Tick, expiry: nat) returns (r: Result<(), int>)
      requires Valid() && returncode.None? && Observed() <= limit
      requires ticks(expiry).expired
      modifies this`outcome, this`returncode, this`watched, outPipe, errPipe, stdout, stderr
      ensures Valid() && watched == Observed()
      ensures r.Ok? ==>
        match outcome
        case OutputLimit => watched == limit + 1 && returncode.None? && LookedAtPipes(ticks, expiry)
        case Exited =>
          watched <= limit && returncode.Some? && SawExit(ticks, expiry, returncode.value)
        case TimedOut =>
          watched <= limit && returncode.None? && SawStop(ticks, expiry, false)
        case Cancelled =>
          watched <= limit && returncode.None? && SawStop(ticks, expiry, true)
        case _ => false
      ensures r.Err? ==>
        && returncode.None? && outcome == old(outcome)
        && SawFailure(ticks, expiry, r.error)
    {
      var t := 0;
      watched := Observed();
      while true
        invariant Valid() && returncode.None? && t <= expiry && Observed() <= limit
        invariant watched == Observed() && outcome == old(outcome) && Uneventful(ticks, t)
        decreases expiry - t
      {
        if ticks(t).cancelled {
          assert CancelledAt(ticks, t);
          outcome := Cancelled;
          return Ok(());
        }
        if ticks(t).expired {
          assert ExpiredAt(ticks, t);
          outcome := TimedOut;
          return Ok(());
        }
        assert ReachedAt(ticks, t);
        var drained := DrainBoth(ticks(t).pass);
        watched := Observed();
        if drained.Err? {
          assert FailedAt(ticks, t, drained.error);
          return Err(drained.error);
        }
        if stdout.observed + stderr.observed > limit {
          outcome := OutputLimit;
          return Ok(());
        }
        match ticks(t).wait {
          case Finished(exitCode) =>
            assert ExitedAt(ticks, t, exitCode);
            outcome, returncode := Exited, Some(exitCode);
            return Ok(());
          case NoExitCode(code) =>
            assert FailedAt(ticks, t, code);
            return Err(code);
          case WaitFails(code) =>
            assert FailedAt(ticks, t, code);
            return Err(code);
          case StillRunning => t := t + 1;
        }
      }
    }

    /** Reads what is left after every writer is gone. Each turn but the last reads something, so the
        distance to the limit bounds the turns. */
    method DrainResidue(passes: nat -> Pass) returns (r: Result<(), int>)
      requires Valid()
      requires outcome == OutputLimit ==> Observed() == limit + 1
      modifies this`outcome, outPipe, errPipe, stdout, stderr
      ensures Valid() && old(stdout.read) <= stdout.read && old(stderr.read) <= stderr.read
      ensures outcome == old(outcome) || (old(outcome) == Exited && outcome == OutputLimit)
      ensures r.Ok? && outcome == OutputLimit ==> Observed() == limit + 1
      ensures r.Err? ==> outcome == old(outcome) && ResidueFails(passes, r.error)
      ensures r.Ok? && outcome == Exited ==> Observed() <= limit
      ensures r.Ok? && Observed() <= limit && AllPrompt(passes) ==>
                outPipe.buffered == [] && errPipe.buffered == []
    {
      var n := 0;
      while true
        invariant Valid() && old(stdout.read) <= stdout.read && old(stderr.read) <= stderr.read
        invariant outcome == old(outcome)
        invariant outcome == OutputLimit ==> Observed() == limit + 1
        decreases limit + 1 - Observed()
      {
        var count := DrainBoth(passes(n));
        if count.Err? {
          return Err(count.error);
        }
        if stdout.observed + stderr.observed > limit {
          if outcome == Exited {
            outcome := OutputLimit;
          }
          return Ok(());
        }
        if count.value == 0 {
          return Ok(());
        }
        n := n + 1;
      }
    }

    /** A whole run, from the attempt to start to the result. */
    method Run(launch: Launch, ticks: nat -> Tick, expiry: nat, confirmed: bool, passes: nat -> Pass)
      returns (r: ShellResult)
      requires Valid() && Observed() == 0 && outcome == StartupFailed && returncode == None && !started && cleanup
      requires ticks(expiry).expired
      modifies this, outPipe, errPipe, stdout, stderr
      ensures Valid()
      ensures r.stdout == LastBytes(stdout.read) && r.stdoutObserved == |stdout.read|
      ensures r.stderr == LastBytes(stderr.read) && r.stderrObserved == |stderr.read|
      ensures r.stdoutObserved + r.stderrObserved <= limit + 1
      ensures r.outcome == OutputLimit ==> r.stdoutObserved + r.stderrObserved == limit + 1 && r.truncated
      ensures r.outcome == Exited ==>
        && r.started && r.returncode.Some? && r.stdoutObserved + r.stderrObserved <= limit
        && (AllPrompt(passes) ==>
              stdout.read == outPipe.written && stderr.read == errPipe.written)
      ensures !r.truncated ==> r.stdout == stdout.read && r.stderr == stderr.read
      ensures r.returncode.Some? ==>
        launch.Running? && watched <= limit && SawExit(ticks, expiry, r.returncode.value)
      ensures r.outcome == OutputLimit && r.returncode.None? ==>
        watched == limit + 1 && LookedAtPipes(ticks, expiry)
      ensures r.outcome == TimedOut ==> r.returncode.None? && WasStopped(launch, ticks, expiry, false)
      ensures r.outcome == Cancelled ==> r.returncode.None? && WasStopped(launch, ticks, expiry, true)
      ensures r.errorCode.Some? ==>
        || launch == SetupFails(r.errorCode.value) || launch == ResumeFails(r.errorCode.value)
        || (launch.Running? && SawFailure(ticks, expiry, r.errorCode.value))
        || (!launch.SetupFails? && !launch.StoppedBefore? && !launch.ResumeFails?
            && ResidueFails(passes, r.errorCode.value))
      ensures launch.SetupFails? || launch.ResumeFails? ==> r.errorCode == Some(launch.code)
      ensures r.truncated <==> r.outcome == OutputLimit || |stdout.read| > 4000 || |stderr.read| > 4000
      ensures r.started <==> launch == Running
      ensures r.errorCode.Some? <==> r.outcome in {RuntimeError, StartupFailed}
      ensures r.outcome == StartupFailed ==> !r.started
      ensures r.outcome == RuntimeError ==> r.started
      ensures !r.started ==> r.returncode.None? && r.outcome !in {Exited, OutputLimit}
      ensures launch.SetupFails? || launch.StoppedBefore? ==> r.cleanup && r.stdoutObserved + r.stderrObserved == 0
      ensures launch.ResumeFails? || launch.StoppedSuspended? || launch.Running? ==> r.cleanup == confirmed
    {
      var failure := Start(launch, ticks, expiry, confirmed, passes);
      if failure.Some? {
        outcome := if started then RuntimeError else StartupFailed;
      }
      return ShellResult(
          outcome, returncode, stdout.data, stderr.data, stdout.observed, stderr.observed,
          stdout.observed > TAIL_BYTES || stderr.observed > TAIL_BYTES || outcome == OutputLimit,
          started, cleanup, failure);
    }

    /** The body of the try block; the result is the code of the error that ended it, if one did. */
    method Start(launch: Launch, ticks: nat -> Tick, expiry: nat, confirmed: bool, passes: nat -> Pass)
      returns (failure: Option<int>)
      requires Valid() && Observed() == 0 && outcome == StartupFailed && returncode == None && !started && cleanup
      requires ticks(expiry).expired
      modifies this, outPipe, errPipe, stdout, stderr
      ensures Valid()
      ensures failure.None? ==>
        match outcome
        case OutputLimit => started && Observed() == limit + 1
        case Exited =>
          && started && returncode.Some? && Observed() <= limit
          && (AllPrompt(passes) ==>
                outPipe.buffered == [] && errPipe.buffered == [])
        case TimedOut => WasStopped(launch, ticks, expiry, false) && returncode.None?
        case Cancelled => WasStopped(launch, ticks, expiry, true) && returncode.None?
        case _ => false
      ensures returncode.Some? ==>
        launch.Running? && watched <= limit && SawExit(ticks, expiry, returncode.value)
      ensures failure.None? && outcome == OutputLimit && returncode.None? ==>
        watched == limit + 1 && LookedAtPipes(ticks, expiry)
      ensures failure.Some? ==>
        || launch == SetupFails(failure.value) || launch == ResumeFails(failure.value)
        || (launch.Running? && SawFailure(ticks, expiry, failure.value))
        || (!launch.SetupFails? && !launch.StoppedBefore? && !launch.ResumeFails?
            && ResidueFails(passes, failure.value))
      ensures launch.SetupFails? || launch.ResumeFails? ==> failure == Some(launch.code)
      ensures started <==> launch == Running
      ensures !started ==> returncode.None? && (failure.None? ==> outcome in {TimedOut, Cancelled})
      ensures launch.SetupFails? || launch.StoppedBefore? ==> cleanup && Observed() == 0
      ensures launch.ResumeFails? || launch.StoppedSuspended? || launch.Running? ==> cleanup == confirmed
    {
      match launch {
        case SetupFails(code) =>
          return Some(code);
        case StoppedBefore(cancelled) =>
          outcome := if cancelled then Cancelled else TimedOut;
          return None;
        case StoppedSuspended(cancelled) =>
          outcome := if cancelled then Cancelled else TimedOut;
          cleanup := confirmed;
        case ResumeFails(code) =>
          cleanup := confirmed;
          return Some(code);
        case Running =>
          started := true;
          var observed := Observe(ticks, expiry);
          cleanup := confirmed;
          if observed.Err? {
            return Some(observed.error);
          }
      }
      var drained := DrainResidue(passes);
      return if drained.Err? then Some(drained.error) else None;
    }
  }
}
