/** `execCommand`: one command exchange with the board under the lock
    file, as the sequence of resource events it performs and the result it
    returns. The port, the lock file and the deadline race are abstract
    outcomes supplied by a `Device`. */
module Executor {
  import opened Results
  import opened Framing

  const LockFilePath := "/var/tmp/boardctl.lock"

  /** What `flock.Lock` did. */
  datatype LockAttempt = Granted | Refused(reason: string)

  /** What the port creator's `Create` did. */
  datatype PortAttempt = Opened | OpenFailed(reason: string)

  /** What the worker's `port.Write` did before the deadline: returned
      successfully, returned an error, or had not returned when the 5-second
      deadline fired. */
  datatype WriteAttempt = Written | WriteFailed(reason: string) | WriteStalled

  /** Everything the outside world decides during one exchange. `trace` holds
      the reads that complete before the deadline; `unlockError` and
      `removeError` are the answers of `flock.Unlock` and `os.Remove`. */
  datatype Device = Device(
    lock: LockAttempt,
    port: PortAttempt,
    write: WriteAttempt,
    trace: seq<ReadResult>,
    unlockError: Option<string>,
    removeError: Option<string>)

  /** Resource events, in the order they happen. `ReleaseLock(ok)` is the
      deferred `unlock` call, `ok` recording whether `flock.Unlock` succeeded. */
  datatype Event =
    | AcquireLock
    | OpenPort
    | Write(bytes: string)
    | ClosePort
    | ReleaseLock(ok: bool)
    | RemoveLockFile

  /** Which resources the executor holds. */
  datatype Holding = Holding(lock: bool, port: bool)

  const Idle := Holding(false, false)

  /** The effect of one event, or `None` when the event is not allowed in
      state `h`: the port opens only under the lock, I/O needs both, and the
      lock is released only once the port is closed. A release that
      `flock.Unlock` refused leaves the lock held; the lock file is removed
      only once nothing is held. */
  function Apply(h: Holding, e: Event): Option<Holding>
  {
    match e
    case AcquireLock => if !h.lock && !h.port then Some(Holding(true, false)) else None
    case OpenPort => if h.lock && !h.port then Some(Holding(true, true)) else None
    case Write(_) => if h.lock && h.port then Some(h) else None
    case ClosePort => if h.port then Some(Holding(h.lock, false)) else None
    case ReleaseLock(ok) => if h.lock && !h.port then Some(if ok then Idle else h) else None
    case RemoveLockFile => if h == Idle then Some(Idle) else None
  }

  function Replay(h: Holding, events: seq<Event>): Option<Holding>
    decreases |events|
  {
    if |events| == 0 then Some(h)
    else match Apply(h, events[0])
      case None => None
      case Some(h') => Replay(h', events[1..])
  }

  /** Every event is allowed when it happens. */
  predicate Disciplined(events: seq<Event>)
  {
    Replay(Idle, events).Some?
  }

  /** Nothing is held at the end. */
  predicate Released(events: seq<Event>)
  {
    Replay(Idle, events) == Some(Idle)
  }

  /** The bytes written to the port, one entry per write. */
  function Writes(events: seq<Event>): seq<string>
  {
    if |events| == 0 then []
    else (if events[0].Write? then [events[0].bytes] else []) + Writes(events[1..])
  }

  /** The outcome of the deferred `unlock`. */
  datatype Release = Release(events: seq<Event>, error: Option<string>)

  /** `unlock`: the lock file is removed only when `flock.Unlock` succeeded,
      and the first error met is returned. */
  function Unlock(unlockError: Option<string>, removeError: Option<string>): (r: Release)
    ensures |r.events| >= 1 && r.events[0] == ReleaseLock(unlockError.None?)
    ensures RemoveLockFile in r.events <==> unlockError.None?
    ensures r.error.None? <==> unlockError.None? && removeError.None?
    ensures unlockError.Some? ==> r.error == unlockError
    ensures unlockError.None? ==> r.error == removeError
    ensures |r.events| == if unlockError.None? then 2 else 1
  {
    match unlockError
    case Some(e) => Release([ReleaseLock(false)], Some(e))
    case None => Release([ReleaseLock(true), RemoveLockFile], removeError)
  }

  /** Message of the lock error, including the one `lock` itself wraps in. */
  function LockFailure(reason: string): string
  {
    "Failed to lock: Failed to lock the lock file " + LockFilePath + ": " + reason
  }

  function TimeoutFailure(cmd: string): string
  {
    "Command timeout: " + cmd
  }

  /** The `select` over the worker's reply, the worker's write error and the
      deadline; on a reply, the body extraction (a panic when the reply has
      a single line). */
  function Settle(write: WriteAttempt, trace: seq<ReadResult>, cmd: string): (r: Result<string, Fault>)
    ensures write.WriteFailed? ==> r == Err(Error("Failed to write to port: " + write.reason))
    ensures (write.WriteStalled? || (write.Written? && !CompletesFrom(trace, 0))) ==>
      r == Err(Error(TimeoutFailure(cmd)))
    ensures r.Ok? <==>
      write.Written? && exists k :: FirstCompletion(trace, k) && '\n' in Received(trace[..k + 1])
    ensures r.Ok? ==> exists k :: (FirstCompletion(trace, k)
      && '\n' in Received(trace[..k + 1])
      && r.value == ExtractBody(Received(trace[..k + 1])))
    ensures r == Err(Panic) <==>
      write.Written? && exists k :: FirstCompletion(trace, k) && '\n' !in Received(trace[..k + 1])
  {
    FirstCompletionUnique(trace);
    match write
    case WriteFailed(e) => Err(Error("Failed to write to port: " + e))
    case WriteStalled => Err(Error(TimeoutFailure(cmd)))
    case Written =>
      match Frame(trace)
      case Unframed => Err(Error(TimeoutFailure(cmd)))
      case Framed(text, _) => if '\n' in text then Ok(ExtractBody(text)) else Err(Panic)
  }

  /** One exchange: its resource events and its result. */
  datatype Exchange = Exchange(events: seq<Event>, result: Result<string, Fault>)

  /** `execCommand(portCreator, cmd)`: the lock error, the port error, or
      the outcome of the exchange; the deferred close and unlock run on
      every path that took the lock (see `ExecCommandEvents`). */
  function ExecCommand(d: Device, cmd: string): (r: Exchange)
    ensures d.lock.Refused? ==> r.result == Err(Error(LockFailure(d.lock.reason)))
    ensures d.lock.Granted? && d.port.OpenFailed? ==>
      r.result == Err(Error("Failed to open port: " + d.port.reason))
    ensures d.lock.Granted? && d.port.Opened? ==> r.result == Settle(d.write, d.trace, cmd)
  {
    match d.lock
    case Refused(reason) => Exchange([], Err(Error(LockFailure(reason))))
    case Granted =>
      var release := Unlock(d.unlockError, d.removeError).events;
      match d.port
      case OpenFailed(reason) =>
        Exchange([AcquireLock] + release, Err(Error("Failed to open port: " + reason)))
      case Opened =>
        Exchange([AcquireLock, OpenPort, Write(cmd + "\n"), ClosePort] + release, Settle(d.write, d.trace, cmd))
  }

  /** The resource discipline of `execCommand`: the port is opened only
      under the lock, written exactly once with the command line, and every
      path that took the lock closes the port and then releases the lock;
      nothing stays held unless `flock.Unlock` refused. */
  lemma ExecCommandEvents(d: Device, cmd: string)
    ensures var r := ExecCommand(d, cmd);
      && Disciplined(r.events)
      && (Released(r.events) <==> d.lock.Refused? || d.unlockError.None?)
      && (r.events == [] <==> d.lock.Refused?)
      && (r.events != [] ==> r.events[0] == AcquireLock)
      && (r.events != [] ==> r.events[|r.events| - 1] in {ReleaseLock(false), RemoveLockFile})
      && (OpenPort in r.events <==> d.lock.Granted? && d.port.Opened?)
      && Writes(r.events) == (if d.lock.Granted? && d.port.Opened? then [cmd + "\n"] else [])
  {
    if d.lock.Granted? {
      var events := ExecCommand(d, cmd).events;
      var release := Unlock(d.unlockError, d.removeError).events;
      ReleaseFromLocked(d.unlockError, d.removeError);
      if d.port.OpenFailed? {
        assert events == [AcquireLock] + release;
        ReplayConcat(Idle, [AcquireLock], release);
        assert Replay(Idle, events) == Replay(Holding(true, false), release);
        WritesConcat([AcquireLock], release);
      } else {
        var exchange := [AcquireLock, OpenPort, Write(cmd + "\n"), ClosePort];
        assert events == exchange + release;
        ExchangeUnderLock(cmd);
        ReplayConcat(Idle, exchange, release);
        assert Replay(Idle, events) == Replay(Holding(true, false), release);
        WritesConcat(exchange, release);
      }
    }
  }

  /** At most one read is the first to complete the reply. */
  lemma FirstCompletionUnique(trace: seq<ReadResult>)
    ensures forall j, k :: FirstCompletion(trace, j) && FirstCompletion(trace, k) ==> j == k
  {
  }

  lemma {:induction false} ReplayConcat(h: Holding, a: seq<Event>, b: seq<Event>)
    ensures Replay(h, a + b) ==
      match Replay(h, a)
      case None => None
      case Some(h') => Replay(h', b)
    decreases |a|
  {
    if |a| > 0 {
      assert (a + b)[1..] == a[1..] + b;
      match Apply(h, a[0])
      case None =>
      case Some(h') => ReplayConcat(h', a[1..], b);
    } else {
      assert a + b == b;
    }
  }

  lemma {:induction false} WritesConcat(a: seq<Event>, b: seq<Event>)
    ensures Writes(a + b) == Writes(a) + Writes(b)
    decreases |a|
  {
    if |a| > 0 {
      assert (a + b)[1..] == a[1..] + b;
      WritesConcat(a[1..], b);
    } else {
      assert a + b == b;
    }
  }

  /** Taking the lock, opening, writing once and closing leaves only the
      lock held, and writes exactly the command line. */
  lemma ExchangeUnderLock(cmd: string)
    ensures Replay(Idle, [AcquireLock, OpenPort, Write(cmd + "\n"), ClosePort]) == Some(Holding(true, false))
    ensures Writes([AcquireLock, OpenPort, Write(cmd + "\n"), ClosePort]) == [cmd + "\n"]
  {
    var w := Write(cmd + "\n");
    var e := [AcquireLock, OpenPort, w, ClosePort];
    var locked := Holding(true, false);
    var both := Holding(true, true);
    assert e[1..] == [OpenPort, w, ClosePort];
    assert [OpenPort, w, ClosePort][1..] == [w, ClosePort];
    assert [w, ClosePort][1..] == [ClosePort];
    assert [ClosePort][1..] == [];
    assert Replay(both, [ClosePort]) == Replay(locked, []);
    assert Replay(both, [w, ClosePort]) == Replay(both, [ClosePort]);
    assert Replay(locked, [OpenPort, w, ClosePort]) == Replay(both, [w, ClosePort]);
    assert Replay(Idle, e) == Replay(locked, [OpenPort, w, ClosePort]);
    assert Writes([ClosePort]) == [];
    assert Writes([w, ClosePort]) == [cmd + "\n"];
    assert Writes([OpenPort, w, ClosePort]) == [cmd + "\n"];
  }

  /** The deferred `unlock` takes a locked executor with a closed port back
      to holding nothing when `flock.Unlock` succeeds, leaves it locked
      otherwise, and writes nothing. */
  lemma ReleaseFromLocked(unlockError: Option<string>, removeError: Option<string>)
    ensures Replay(Holding(true, false), Unlock(unlockError, removeError).events)
         == Some(if unlockError.None? then Idle else Holding(true, false))
    ensures Writes(Unlock(unlockError, removeError).events) == []
  {
  }

  /** The answers of `flock.Unlock` and `os.Remove` never change what
      `execCommand` returns. */
  lemma UnlockDiscarded(d: Device, unlockError: Option<string>, removeError: Option<string>, cmd: string)
    ensures ExecCommand(d.(unlockError := unlockError, removeError := removeError), cmd).result
         == ExecCommand(d, cmd).result
  {
  }
}
