/**
 The lifecycle code in its own form: `acquire` (src/lock.rs), `bind` (src/endpoint.rs), `start` and
 `is_running` (src/lib.rs) and the drops at the end of `run` (src/main.rs). Between any two of its
 system calls other processes run as they please. Whatever they do, every call is a step of the
 machine of Lifecycle.dfy, so its theorems hold of this code.
 */
module Daemon {
  import opened Wrappers
  import opened Automaton
  import opened Lifecycle

  datatype LockOutcome = Acquired | AlreadyHeld

  datatype Started = Running(socket: nat) | FoundRunning

  /**
   What a process's own calls met: the sockets it made, what the socket path named whenever it dropped a
   listener, and whether some process held the lock whenever it tried the lock.
   */
  datatype Seen = Seen(bound: seq<nat>, unlinked: seq<Option<nat>>, held: seq<bool>)

  ghost function SeenBy(seen: Seen, host: Host, a: Action): Seen {
    match a
    case BindSocket(_) => seen.(bound := seen.bound + [host.unused])
    case DropListener(_) => seen.(unlinked := seen.unlinked + [host.socket])
    case TryLock(_) => seen.(held := seen.held + [LockIsHeld(host)])
    case _ => seen
  }

  /** The operating system, as one process sees it: a host that others act on between its calls. */
  class System {
    const first: Host
    const others: nat -> seq<Action>
    const fails: nat -> bool
    var host: Host
    var clock: nat
    ghost var log: seq<Action>
    ghost var calls: seq<Action>
    ghost var seen: Seen

    constructor (first: Host, others: nat -> seq<Action>, fails: nat -> bool)
      requires Initial(first)
      ensures Valid() && host == first && this.first == first && this.fails == fails && clock == 0
      ensures calls == [] && seen == Seen([], [], [])
    {
      this.first, this.others, this.fails, this.host := first, others, fails, first;
      this.clock, this.log, this.calls, this.seen := 0, [], [], Seen([], [], []);
    }

    /**
     Everything that has happened is a run of the machine. `calls` is this process's part in it, and
     `seen` what those calls met.
     */
    ghost predicate Valid()
      reads this
    {
      Initial(first) && LeadsTo(Take, first, log, host)
    }

    lemma Consistent()
      requires Valid()
      ensures Reachable(host) && Invariant(host)
    {
      assert Exec(Take, first, log) == Some(host);
      ReachableInvariant(host);
    }

    ghost function PhaseOf(pid: Pid): Option<Phase>
      reads this
    {
      if pid in host.procs then Some(host.procs[pid]) else None
    }

    /** A call of the process itself. */
    method Call(a: Action)
      requires Valid() && Enabled(host, a)
      modifies this`host, this`log, this`calls, this`seen
      ensures Valid() && host == Do(old(host), a) && calls == old(calls) + [a]
      ensures seen == SeenBy(old(seen), old(host), a)
    {
      seen := SeenBy(seen, host, a);
      Act(a);
      calls := calls + [a];
    }

    method Act(a: Action)
      requires Valid() && Enabled(host, a)
      modifies this`host, this`log
      ensures Valid() && host == Do(old(host), a)
    {
      LeadsFurther(Take, first, log, host, a);
      host := Do(host, a);
      log := log + [a];
    }

    /** Others run before the next call of this process, which then fails or does not. */
    method Yield(pid: Pid) returns (failed: bool)
      requires Valid()
      modifies this`host, this`log, this`clock
      ensures Valid() && PhaseOf(pid) == old(PhaseOf(pid))
      ensures WentOn(fails, old(clock), clock, failed) && clock == old(clock) + 1
    {
      var run := others(clock);
      for i := 0 to |run|
        invariant Valid() && PhaseOf(pid) == old(PhaseOf(pid)) && clock == old(clock)
      {
        if run[i].pid != pid && Enabled(host, run[i]) {
          Act(run[i]);
        }
      }
      failed := fails(clock);
      WentOnce(fails, clock);
      clock := clock + 1;
    }
  }

  /** The lock was tried, and was held by some process or by none. */
  function Tried(seen: Seen, held: bool): Seen {
    seen.(held := seen.held + [held])
  }

  /** On its way to serving: where an error is the end of it. */
  predicate InStart(phase: Phase) {
    phase.Launched? || phase.Opened? || phase.Locked? || phase.Cleared? || phase.Bound?
  }

  function LockCalls(pid: Pid): seq<Action> {
    [OpenLockFile(pid), TryLock(pid)]
  }

  function BindCalls(pid: Pid): seq<Action> {
    [RemoveSocket(pid), BindSocket(pid), RestrictSocket(pid)]
  }

  /** Opens the lock file, and makes it if there is none. */
  method OpenLock(system: System, pid: Pid, ghost kind: Kind) returns (failed: bool)
    requires system.Valid() && system.PhaseOf(pid) == Some(Launched(kind))
    modifies system
    ensures system.Valid() && system.PhaseOf(pid).Some?
    ensures WentOn(system.fails, old(system.clock), system.clock, failed)
    ensures system.clock == old(system.clock) + 1
    ensures system.calls == old(system.calls) + LockCalls(pid)[..if failed then 0 else 1]
    ensures system.seen == old(system.seen)
    ensures if failed then system.PhaseOf(pid) == Some(Launched(kind))
            else system.PhaseOf(pid).value.Opened? && system.PhaseOf(pid).value.kind == kind
  {
    failed := system.Yield(pid);
    if !failed {
      system.Call(OpenLockFile(pid));
      assert LockCalls(pid)[..1] == [OpenLockFile(pid)];
    }
  }

  /** Tries the lock of the file that was just opened. */
  method TryOnce(system: System, pid: Pid, ghost kind: Kind, ghost before: seq<Action>)
    returns (r: Result<LockOutcome, ()>)
    requires system.Valid() && system.PhaseOf(pid).Some? && system.calls == before + LockCalls(pid)[..1]
    requires system.PhaseOf(pid).value.Opened? && system.PhaseOf(pid).value.kind == kind
    modifies system
    ensures system.Valid() && system.PhaseOf(pid).Some?
    ensures WentOn(system.fails, old(system.clock), system.clock, r.Err?)
    ensures system.clock == old(system.clock) + 1
    ensures system.calls == before + LockCalls(pid)[..if r.Err? then 1 else 2]
    ensures if r.Ok? then system.seen == Tried(old(system.seen), r.value.AlreadyHeld?)
            else system.seen == old(system.seen)
    ensures match r
            case Ok(Acquired) =>
              if kind.Start? then system.PhaseOf(pid).value.Locked? else system.PhaseOf(pid).value.Probing?
            case Ok(AlreadyHeld) => system.PhaseOf(pid) == Some(Done(AlreadyRunning))
            case Err(_) => InStart(system.PhaseOf(pid).value)
  {
    var failed := system.Yield(pid);
    if failed {
      return Err(());
    }
    system.Consistent();
    AlreadyRunningExactly(system.host, pid);
    system.Call(TryLock(pid));
    assert before + LockCalls(pid)[..1] + [TryLock(pid)] == before + LockCalls(pid)[..2];
    r := Ok(if system.host.procs[pid].Done? then AlreadyHeld else Acquired);
  }

  /** Opens the lock file and tries it once. That somebody else has it is an answer, and no failure. */
  method Acquire(system: System, pid: Pid, kind: Kind) returns (r: Result<LockOutcome, ()>, ghost made: nat)
    requires system.Valid() && system.PhaseOf(pid) == Some(Launched(kind))
    modifies system
    ensures system.Valid()
    ensures WentOn(system.fails, old(system.clock), system.clock, r.Err?)
    ensures system.clock == old(system.clock) + made + if r.Err? then 1 else 0
    ensures made <= 2 && (r.Ok? <==> made == 2)
    ensures system.calls == old(system.calls) + LockCalls(pid)[..made]
    ensures if r.Ok? then system.seen == Tried(old(system.seen), r.value.AlreadyHeld?)
            else system.seen == old(system.seen)
    ensures match r
            case Ok(Acquired) =>
              && system.PhaseOf(pid).Some?
              && (if kind.Start? then system.PhaseOf(pid).value.Locked? else system.PhaseOf(pid).value.Probing?)
            case Ok(AlreadyHeld) => system.PhaseOf(pid) == Some(Done(AlreadyRunning))
            case Err(_) => system.PhaseOf(pid).Some? && InStart(system.PhaseOf(pid).value)
  {
    ghost var before, from := system.calls, system.clock;
    var failed := OpenLock(system, pid, kind);
    if failed {
      return Err(()), 0;
    }
    r := TryOnce(system, pid, kind, before);
    WentFurther(system.fails, from, from + 1, from + 2, r.Err?);
    made := if r.Err? then 1 else 2;
  }

  /** Removes whatever is left at the socket path. */
  method Clear(system: System, pid: Pid) returns (failed: bool)
    requires system.Valid() && system.PhaseOf(pid).Some? && system.PhaseOf(pid).value.Locked?
    modifies system
    ensures system.Valid() && system.PhaseOf(pid).Some?
    ensures WentOn(system.fails, old(system.clock), system.clock, failed)
    ensures system.clock == old(system.clock) + 1
    ensures system.calls == old(system.calls) + BindCalls(pid)[..if failed then 0 else 1]
    ensures system.seen == old(system.seen)
    ensures if failed then system.PhaseOf(pid).value.Locked? else system.PhaseOf(pid).value.Cleared?
  {
    failed := system.Yield(pid);
    if !failed {
      system.Call(RemoveSocket(pid));
      assert BindCalls(pid)[..1] == [RemoveSocket(pid)];
    }
  }

  /** Binds the path that was just cleared. */
  method BindCleared(system: System, pid: Pid, ghost before: seq<Action>) returns (failed: bool)
    requires system.Valid() && system.PhaseOf(pid).Some? && system.PhaseOf(pid).value.Cleared?
    requires system.calls == before + BindCalls(pid)[..1]
    modifies system
    ensures system.Valid() && system.PhaseOf(pid).Some?
    ensures if failed then system.PhaseOf(pid).value.Cleared? else system.PhaseOf(pid).value.Bound?
    ensures if failed then system.seen == old(system.seen)
            else system.seen == old(system.seen).(
                   bound := old(system.seen).bound + [system.PhaseOf(pid).value.socket])
    ensures WentOn(system.fails, old(system.clock), system.clock, failed)
    ensures system.clock == old(system.clock) + 1
    ensures system.calls == before + BindCalls(pid)[..if failed then 1 else 2]
  {
    failed := system.Yield(pid);
    if !failed {
      system.Consistent();
      system.Call(BindSocket(pid));
      assert before + BindCalls(pid)[..1] + [BindSocket(pid)] == before + BindCalls(pid)[..2];
    }
  }

  /** Binds the path that was just cleared, and narrows the socket's permissions. */
  method Listen(system: System, pid: Pid, ghost before: seq<Action>) returns (failed: bool, ghost made: nat)
    requires system.Valid() && system.PhaseOf(pid).Some? && system.PhaseOf(pid).value.Cleared?
    requires system.calls == before + BindCalls(pid)[..1]
    modifies system
    ensures system.Valid() && system.PhaseOf(pid).Some?
    ensures if failed then system.PhaseOf(pid).value.Cleared? || system.PhaseOf(pid).value.Bound?
            else system.PhaseOf(pid).value.Serving?
    ensures system.seen.unlinked == old(system.seen).unlinked && system.seen.held == old(system.seen).held
    ensures !failed ==> system.seen.bound == old(system.seen).bound + [system.PhaseOf(pid).value.socket]
    ensures WentOn(system.fails, old(system.clock), system.clock, failed)
    ensures 1 <= made <= 3 && (failed <==> made < 3)
    ensures system.clock + 1 == old(system.clock) + made + if failed then 1 else 0
    ensures system.calls == before + BindCalls(pid)[..made]
  {
    ghost var from := system.clock;
    failed := BindCleared(system, pid, before);
    if failed {
      return true, 1;
    }
    failed := system.Yield(pid);
    WentFurther(system.fails, from, from + 1, from + 2, failed);
    if failed {
      return true, 2;
    }
    system.Call(RestrictSocket(pid));
    assert before + BindCalls(pid)[..2] + [RestrictSocket(pid)] == before + BindCalls(pid)[..3];
    return false, 3;
  }

  /**
   Clears the socket path and takes it. The caller holds the lock, which is why the bind itself never
   finds the path taken again. An error leaves the guard to the caller to drop,
   and may leave a socket file behind.
   */
  method Bind(system: System, pid: Pid) returns (r: Result<nat, ()>, ghost made: nat)
    requires system.Valid() && system.PhaseOf(pid).Some? && system.PhaseOf(pid).value.Locked?
    modifies system
    ensures system.Valid() && system.PhaseOf(pid).Some?
    ensures r.Ok? ==> system.PhaseOf(pid).value.Serving? && system.PhaseOf(pid).value.socket == r.value
    ensures r.Ok? ==> system.seen.bound == old(system.seen).bound + [r.value]
    ensures system.seen.unlinked == old(system.seen).unlinked && system.seen.held == old(system.seen).held
    ensures WentOn(system.fails, old(system.clock), system.clock, r.Err?)
    ensures system.clock == old(system.clock) + made + if r.Err? then 1 else 0
    ensures made <= 3 && (r.Ok? <==> made == 3)
    ensures system.calls == old(system.calls) + BindCalls(pid)[..made]
    ensures r.Err? ==> InStart(system.PhaseOf(pid).value)
  {
    ghost var before, from := system.calls, system.clock;
    var failed := Clear(system, pid);
    if failed {
      return Err(()), 0;
    }
    failed, made := Listen(system, pid, before);
    WentFurther(system.fails, from, from + 1, system.clock, failed);
    r := if failed then Err(()) else Ok(system.host.procs[pid].socket);
  }

  /** The one process that holds the lock, and whose socket the path names. */
  ghost predicate IsDaemon(host: Host, pid: Pid, socket: nat) {
    && pid in host.procs && host.procs[pid].Serving? && host.procs[pid].socket == socket
    && host.socket == Some(socket)
    && forall q :: q in host.procs && HoldsLock(host.procs[q]) ==> q == pid
  }

  lemma ServingIsDaemon(host: Host, pid: Pid)
    requires Invariant(host) && pid in host.procs && host.procs[pid].Serving?
    ensures IsDaemon(host, pid, host.procs[pid].socket)
  {
  }

  function StartCalls(pid: Pid): seq<Action> {
    LockCalls(pid) + BindCalls(pid)
  }

  lemma ScriptsJoin(before: seq<Action>, pid: Pid, made: nat, last: seq<Action>)
    requires made <= 3
    ensures before + LockCalls(pid) + BindCalls(pid)[..made] + last == before + StartCalls(pid)[..2 + made] + last
    ensures StartCalls(pid)[..5] == StartCalls(pid) && StartCalls(pid)[..2] == LockCalls(pid)
    ensures made < 2 ==> StartCalls(pid)[..made] == LockCalls(pid)[..made]
  {
    assert StartCalls(pid)[..2 + made] == LockCalls(pid) + BindCalls(pid)[..made];
  }

  /** Takes the socket under the guard, which an error drops. */
  method TakeSocket(system: System, pid: Pid) returns (r: Result<nat, ()>, ghost made: nat)
    requires system.Valid() && system.PhaseOf(pid).Some? && system.PhaseOf(pid).value.Locked?
    modifies system
    ensures system.Valid()
    ensures system.seen.unlinked == old(system.seen).unlinked && system.seen.held == old(system.seen).held
    ensures WentOn(system.fails, old(system.clock), system.clock, r.Err?)
    ensures system.clock == old(system.clock) + made + if r.Err? then 1 else 0
    ensures made <= 3 && (r.Ok? <==> made == 3)
    ensures match r
            case Ok(socket) =>
              && IsDaemon(system.host, pid, socket) && system.seen.bound == old(system.seen).bound + [socket]
              && system.calls == old(system.calls) + BindCalls(pid)
            case Err(_) =>
              && system.PhaseOf(pid) == Some(Done(Failed))
              && system.calls == old(system.calls) + BindCalls(pid)[..made] + [Fail(pid)]
  {
    r, made := Bind(system, pid);
    if r.Err? {
      system.Call(Fail(pid));
    } else {
      system.Consistent();
      ServingIsDaemon(system.host, pid);
      assert BindCalls(pid)[..3] == BindCalls(pid);
    }
  }

  /**
   First the lock, then the socket. An error drops the guard, if there is one, on the way out, and is
   that of the first call that failed. If none fails this process is the daemon, unless some process
   held the lock when it tried it.
   */
  method Start(system: System, pid: Pid) returns (r: Result<Started, ()>, ghost made: nat)
    requires system.Valid() && system.PhaseOf(pid) == Some(Launched(Kind.Start))
    modifies system
    ensures system.Valid() && system.seen.unlinked == old(system.seen).unlinked
    ensures WentOn(system.fails, old(system.clock), system.clock, r.Err?)
    ensures system.clock == old(system.clock) + made + if r.Err? then 1 else 0
    ensures match r
            case Ok(Running(socket)) =>
              && IsDaemon(system.host, pid, socket) && system.seen.bound == old(system.seen).bound + [socket]
              && system.seen.held == old(system.seen).held + [false]
              && made == 5 && system.calls == old(system.calls) + StartCalls(pid)
            case Ok(FoundRunning) =>
              && system.PhaseOf(pid) == Some(Done(AlreadyRunning))
              && system.seen.held == old(system.seen).held + [true]
              && made == 2 && system.calls == old(system.calls) + LockCalls(pid)
            case Err(_) =>
              && system.PhaseOf(pid) == Some(Done(Failed))
              && system.seen.held == old(system.seen).held + (if made < 2 then [] else [false])
              && made < 5 && system.calls == old(system.calls) + StartCalls(pid)[..made] + [Fail(pid)]
  {
    ghost var before, from := system.calls, system.clock;
    var lock;
    lock, made := Acquire(system, pid, Kind.Start);
    ScriptsJoin(before, pid, 0, []);
    match lock {
      case Err(_) =>
        ScriptsJoin(before, pid, made, []);
        system.Call(Fail(pid));
        return Err(()), made;
      case Ok(AlreadyHeld) => return Ok(FoundRunning), made;
      case Ok(Acquired) =>
    }
    ghost var now := system.clock;
    var listener;
    listener, made := TakeSocket(system, pid);
    WentFurther(system.fails, from, now, system.clock, listener.Err?);
    ScriptsJoin(before, pid, made, if listener.Err? then [Fail(pid)] else []);
    match listener {
      case Err(_) => return Err(()), 2 + made;
      case Ok(socket) => return Ok(Running(socket)), 5;
    }
  }

  /** Tells from the lock alone whether there is a daemon, and lets go of it again. */
  method IsRunning(system: System, pid: Pid) returns (r: Result<bool, ()>, ghost made: nat)
    requires system.Valid() && system.PhaseOf(pid) == Some(Launched(Probe))
    modifies system
    ensures system.Valid()
    ensures WentOn(system.fails, old(system.clock), old(system.clock) + made + (if r.Err? then 1 else 0), r.Err?)
    ensures match r
            case Ok(running) =>
              && made == 2 && system.seen.held == old(system.seen).held + [running]
              && system.PhaseOf(pid) == Some(Done(if running then AlreadyRunning else NotRunning))
              && system.calls == old(system.calls) + LockCalls(pid) + if running then [] else [Unlock(pid)]
            case Err(_) =>
              && system.PhaseOf(pid) == Some(Done(Failed)) && system.seen.held == old(system.seen).held
              && made < 2 && system.calls == old(system.calls) + LockCalls(pid)[..made] + [Fail(pid)]
  {
    var lock;
    lock, made := Acquire(system, pid, Probe);
    match lock {
      case Err(_) =>
        system.Call(Fail(pid));
        r := Err(());
      case Ok(AlreadyHeld) => r := Ok(true);
      case Ok(Acquired) =>
        var _ := system.Yield(pid);
        system.Call(Unlock(pid));
        r := Ok(false);
    }
  }

  /** First the listener, whose socket is still the one the path names, and then the guard. */
  method Stop(system: System, pid: Pid, ghost socket: nat)
    requires system.Valid() && system.PhaseOf(pid).Some?
    requires system.PhaseOf(pid).value.Serving? && system.PhaseOf(pid).value.socket == socket
    modifies system
    ensures system.Valid() && system.PhaseOf(pid) == Some(Done(Stopped))
    ensures system.calls == old(system.calls) + [DropListener(pid), DropGuard(pid)]
    ensures system.seen == old(system.seen).(unlinked := old(system.seen).unlinked + [Some(socket)])
  {
    var _ := system.Yield(pid);
    system.Consistent();
    system.Call(DropListener(pid));
    var _ := system.Yield(pid);
    system.Call(DropGuard(pid));
  }

  /**
   The daemon's whole life. It ends by dropping the listener, which unlinks a socket that is still
   its own, and only then the guard.
   */
  method RunDaemon(system: System, pid: Pid) returns (outcome: Outcome)
    requires system.Valid() && system.PhaseOf(pid) == Some(Launched(Kind.Start))
    modifies system
    ensures system.Valid() && system.PhaseOf(pid) == Some(Done(outcome))
    ensures outcome != NotRunning
    ensures outcome.Failed? ==> !Unfailing(system.fails, old(system.clock), old(system.clock) + 5)
    ensures outcome.AlreadyRunning? ==> Unfailing(system.fails, old(system.clock), old(system.clock) + 2)
    ensures outcome.Stopped? ==> Unfailing(system.fails, old(system.clock), old(system.clock) + 5)
    ensures !outcome.Failed? ==> system.seen.held == old(system.seen).held + [outcome.AlreadyRunning?]
    ensures outcome.AlreadyRunning? ==> system.calls == old(system.calls) + LockCalls(pid)
    ensures outcome.Stopped? ==>
              && system.calls ==
                 old(system.calls) + StartCalls(pid) + [DropListener(pid), DropGuard(pid)]
              && exists socket ::
                   && system.seen.bound == old(system.seen).bound + [socket]
                   && system.seen.unlinked == old(system.seen).unlinked + [Some(socket)]
  {
    var started, _ := Start(system, pid);
    match started {
      case Err(_) => return Failed;
      case Ok(FoundRunning) => return AlreadyRunning;
      case Ok(Running(socket)) =>
        Stop(system, pid, socket);
        outcome := Stopped;
    }
  }
}
