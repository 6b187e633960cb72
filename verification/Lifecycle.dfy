/**
 The daemon's lifecycle across processes (src/lib.rs, src/lock.rs, src/endpoint.rs): any number of
 processes start, probe, serve, shut down, fail and crash, one system call at a time, in any order.

 The lock file and the socket are numbered, as inodes are, so that opening the lock file before
 somebody replaces it, and unlinking a socket that is not one's own, are both expressible.
 */
module Lifecycle {
  import opened Wrappers
  import opened Automaton

  type Pid = nat

  /** What a process set out to do: to become the daemon, or to ask whether one is running. */
  datatype Kind = Start | Probe

  /** What came of it. */
  datatype Outcome = AlreadyRunning | NotRunning | Stopped | Failed

  /**
   Where a process is. `Opened` has the lock file open and has yet to try it; `Probing` and
   everything from `Locked` to `Leaving` hold it.
   */
  datatype Phase =
    | Launched(kind: Kind)
    | Opened(kind: Kind, lock: nat)
    | Probing(lock: nat)
    | Locked(lock: nat)
    | Cleared(lock: nat)
    | Bound(lock: nat, socket: nat)
    | Serving(lock: nat, socket: nat)
    | Leaving(lock: nat)
    | Done(outcome: Outcome)

  /**
   `lockFile` and `socket` are what the two paths name, `holders` who holds the lock of which file,
   and `unused` a number no file has had.
   */
  datatype Host = Host(
    procs: map<Pid, Phase>,
    lockFile: Option<nat>,
    holders: map<nat, Pid>,
    socket: Option<nat>,
    unused: nat
  )

  datatype Action =
    | Launch(pid: Pid, kind: Kind)
    | OpenLockFile(pid: Pid)
    | TryLock(pid: Pid)
    | Unlock(pid: Pid)
    | RemoveSocket(pid: Pid)
    | BindSocket(pid: Pid)
    | RestrictSocket(pid: Pid)
    | DropListener(pid: Pid)
    | DropGuard(pid: Pid)
    | Fail(pid: Pid)
    | Crash(pid: Pid)

  predicate HoldsLock(phase: Phase) {
    phase.Probing? || phase.Locked? || phase.Cleared? || phase.Bound? || phase.Serving? || phase.Leaving?
  }

  predicate Enabled(s: Host, a: Action) {
    match a
    case Launch(pid, _) => pid !in s.procs
    case OpenLockFile(pid) => pid in s.procs && s.procs[pid].Launched?
    case TryLock(pid) => pid in s.procs && s.procs[pid].Opened?
    case Unlock(pid) => pid in s.procs && s.procs[pid].Probing?
    case RemoveSocket(pid) => pid in s.procs && s.procs[pid].Locked?
    case BindSocket(pid) => pid in s.procs && s.procs[pid].Cleared? && s.socket == None
    case RestrictSocket(pid) => pid in s.procs && s.procs[pid].Bound?
    case DropListener(pid) => pid in s.procs && s.procs[pid].Serving?
    case DropGuard(pid) => pid in s.procs && s.procs[pid].Leaving?
    case Fail(pid) =>
      && pid in s.procs && !s.procs[pid].Done?
      && !s.procs[pid].Serving? && !s.procs[pid].Leaving? && !s.procs[pid].Probing?
    case Crash(pid) => pid in s.procs && !s.procs[pid].Done?
  }

  function Moved(s: Host, pid: Pid, phase: Phase): Host {
    s.(procs := s.procs[pid := phase])
  }

  /** The lock a process holds goes with it, however it ends. Its files stay where they are. */
  function Released(s: Host, pid: Pid): map<nat, Pid>
    requires pid in s.procs
  {
    if HoldsLock(s.procs[pid]) then s.holders - {s.procs[pid].lock} else s.holders
  }

  function Do(s: Host, a: Action): Host
    requires Enabled(s, a)
  {
    match a
    case Launch(pid, kind) => Moved(s, pid, Launched(kind))
    case OpenLockFile(pid) =>
      // The file is created if it is missing, never truncated and never removed.
      if s.lockFile.Some? then Moved(s, pid, Opened(s.procs[pid].kind, s.lockFile.value))
      else Moved(s, pid, Opened(s.procs[pid].kind, s.unused)).(lockFile := Some(s.unused), unused := s.unused + 1)
    case TryLock(pid) =>
      var lock := s.procs[pid].lock;
      if lock in s.holders then Moved(s, pid, Done(AlreadyRunning))
      else
        Moved(s, pid, if s.procs[pid].kind.Start? then Locked(lock) else Probing(lock))
          .(holders := s.holders[lock := pid])
    case Unlock(pid) => Moved(s, pid, Done(NotRunning)).(holders := Released(s, pid))
    case RemoveSocket(pid) => Moved(s, pid, Cleared(s.procs[pid].lock)).(socket := None)
    case BindSocket(pid) =>
      Moved(s, pid, Bound(s.procs[pid].lock, s.unused)).(socket := Some(s.unused), unused := s.unused + 1)
    case RestrictSocket(pid) => Moved(s, pid, Serving(s.procs[pid].lock, s.procs[pid].socket))
    case DropListener(pid) => Moved(s, pid, Leaving(s.procs[pid].lock)).(socket := None)
    case DropGuard(pid) => Moved(s, pid, Done(Stopped)).(holders := Released(s, pid))
    case Fail(pid) => Moved(s, pid, Done(Failed)).(holders := Released(s, pid))
    case Crash(pid) => s.(procs := s.procs - {pid}, holders := Released(s, pid))
  }

  function Take(s: Host, a: Action): Option<Host> {
    if Enabled(s, a) then Some(Do(s, a)) else None
  }

  /** A machine before anything ran, apart from files an earlier run left behind. */
  predicate Initial(s: Host) {
    && s.procs == map[] && s.holders == map[]
    && (s.lockFile.Some? ==> s.lockFile.value < s.unused)
    && (s.socket.Some? ==> s.socket.value < s.unused)
  }

  ghost predicate Reachable(s: Host) {
    exists first, run :: Initial(first) && Exec(Take, first, run) == Some(s)
  }

  // ---------------------------------------------------------------------------------------------
  // The invariant

  predicate LockConsistent(s: Host) {
    && (s.lockFile.Some? ==> s.lockFile.value < s.unused)
    && (forall pid :: pid in s.procs && (s.procs[pid].Opened? || HoldsLock(s.procs[pid])) ==>
          s.lockFile == Some(s.procs[pid].lock))
    && (forall pid :: pid in s.procs && HoldsLock(s.procs[pid]) ==>
          s.procs[pid].lock in s.holders && s.holders[s.procs[pid].lock] == pid)
    && (forall lock :: lock in s.holders ==>
          && s.holders[lock] in s.procs && HoldsLock(s.procs[s.holders[lock]])
          && s.procs[s.holders[lock]].lock == lock)
  }

  predicate SocketConsistent(s: Host) {
    && (s.socket.Some? ==> s.socket.value < s.unused)
    && (forall pid :: pid in s.procs && s.procs[pid].Cleared? ==> s.socket == None)
    && (forall pid :: pid in s.procs && (s.procs[pid].Bound? || s.procs[pid].Serving?) ==>
          s.socket == Some(s.procs[pid].socket))
  }

  predicate Invariant(s: Host) {
    LockConsistent(s) && SocketConsistent(s)
  }

  /** At most one process holds the lock: every open lock file is the one file there ever was. */
  lemma OneHolder(s: Host, p: Pid, q: Pid)
    requires LockConsistent(s)
    requires p in s.procs && HoldsLock(s.procs[p]) && q in s.procs && HoldsLock(s.procs[q])
    ensures p == q
  {
  }

  lemma LockStep(s: Host, a: Action)
    requires LockConsistent(s) && Enabled(s, a)
    ensures LockConsistent(Do(s, a))
  {
    match a
    case Launch(_, _) =>
    case OpenLockFile(_) =>
    case TryLock(_) =>
    case _ =>
  }

  lemma SocketStep(s: Host, a: Action)
    requires Invariant(s) && Enabled(s, a)
    ensures SocketConsistent(Do(s, a))
  {
  }

  lemma RunKeepsInvariant(s: Host, run: seq<Action>)
    requires Invariant(s) && Exec(Take, s, run).Some?
    ensures Invariant(Exec(Take, s, run).value)
  {
    forall s', a ensures Keeps(Take, Invariant, s', a) {
      if Invariant(s') && Enabled(s', a) {
        LockStep(s', a);
        SocketStep(s', a);
      }
    }
    ExecKeeps(Take, Invariant, s, run);
  }

  lemma ReachableInvariant(s: Host)
    requires Reachable(s)
    ensures Invariant(s)
  {
    var first, run :| Initial(first) && Exec(Take, first, run) == Some(s);
    RunKeepsInvariant(first, run);
  }

  // ---------------------------------------------------------------------------------------------
  // Single instance

  /** Over all interleavings: one holder at most, and so at most one process that is the daemon. */
  lemma SingleInstance(s: Host, p: Pid, q: Pid)
    requires Reachable(s)
    requires p in s.procs && HoldsLock(s.procs[p]) && q in s.procs && HoldsLock(s.procs[q])
    ensures p == q
  {
    ReachableInvariant(s);
    OneHolder(s, p, q);
  }

  /** Only the holder ever unlinks or binds the socket. */
  lemma OnlyHolderTouchesSocket(s: Host, a: Action)
    requires Reachable(s) && Enabled(s, a) && Do(s, a).socket != s.socket
    ensures a.pid in s.procs && HoldsLock(s.procs[a.pid])
    ensures forall q :: q in s.procs && HoldsLock(s.procs[q]) ==> q == a.pid
  {
    forall q | q in s.procs && HoldsLock(s.procs[q]) ensures q == a.pid {
      SingleInstance(s, q, a.pid);
    }
  }

  lemma ReachableRuns(s: Host, run: seq<Action>)
    requires Reachable(s) && Exec(Take, s, run).Some?
    ensures Reachable(Exec(Take, s, run).value)
  {
    var first, before :| Initial(first) && Exec(Take, first, before) == Some(s);
    ExecConcat(Take, first, before, run);
  }

  /**
   A live daemon's socket file is never removed or replaced by another process: whatever the other
   processes do, while it serves the path names the very socket it bound, and it stays the one holder.
   */
  lemma {:induction false} LiveSocketIsKept(s: Host, run: seq<Action>, p: Pid)
    requires Reachable(s) && p in s.procs && s.procs[p].Serving?
    requires Exec(Take, s, run).Some? && forall i :: 0 <= i < |run| ==> run[i].pid != p
    ensures var s' := Exec(Take, s, run).value;
            && p in s'.procs && s'.procs[p] == s.procs[p]
            && s'.socket == Some(s.procs[p].socket)
            && forall q :: q in s'.procs && HoldsLock(s'.procs[q]) ==> q == p
    decreases |run|
  {
    if run == [] {
      ReachableInvariant(s);
      forall q | q in s.procs && HoldsLock(s.procs[q]) ensures q == p {
        OneHolder(s, q, p);
      }
    } else {
      var s' := Do(s, run[0]);
      assert Exec(Take, s, [run[0]]) == Some(s') by {
        assert [run[0]][1..] == [];
      }
      ReachableRuns(s, [run[0]]);
      assert forall i :: 0 <= i < |run[1..]| ==> run[1..][i] == run[i + 1];
      LiveSocketIsKept(s', run[1..], p);
    }
  }

  // ---------------------------------------------------------------------------------------------
  // Leftovers never block a start

  /** The calls of a start that nothing goes wrong for. */
  function StartRun(p: Pid): seq<Action> {
    [Launch(p, Start), OpenLockFile(p), TryLock(p), RemoveSocket(p), BindSocket(p), RestrictSocket(p)]
  }

  function Execs(s: Host, a: Action, b: Action): Option<Host> {
    if Enabled(s, a) && Enabled(Do(s, a), b) then Some(Do(Do(s, a), b)) else None
  }

  lemma ExecTwo(s: Host, a: Action, b: Action, more: seq<Action>)
    requires Execs(s, a, b).Some?
    ensures Exec(Take, s, [a, b] + more) == Exec(Take, Execs(s, a, b).value, more)
  {
  }

  /** The lock file that a process opening the path now would get. */
  function LockToOpen(s: Host): nat {
    if s.lockFile.Some? then s.lockFile.value else s.unused
  }

  lemma StartLocks(s: Host, p: Pid)
    requires p !in s.procs && LockToOpen(s) !in s.holders
    ensures var s' := Exec(Take, s, [Launch(p, Start), OpenLockFile(p), TryLock(p)]);
            && s'.Some? && s'.value.procs == s.procs[p := Locked(LockToOpen(s))]
            && s'.value.unused >= s.unused
  {
    ExecTwo(s, Launch(p, Start), OpenLockFile(p), [TryLock(p)]);
    assert [Launch(p, Start), OpenLockFile(p)] + [TryLock(p)] == [Launch(p, Start), OpenLockFile(p), TryLock(p)];
  }

  lemma StartBinds(s: Host, p: Pid)
    requires p in s.procs && s.procs[p].Locked?
    ensures var s' := Exec(Take, s, [RemoveSocket(p), BindSocket(p), RestrictSocket(p)]);
            && s'.Some? && s'.value.procs == s.procs[p := Serving(s.procs[p].lock, s.unused)]
            && s'.value.socket == Some(s.unused)
  {
    ExecTwo(s, RemoveSocket(p), BindSocket(p), [RestrictSocket(p)]);
    var bind := [RemoveSocket(p), BindSocket(p)];
    assert bind + [RestrictSocket(p)] == [RemoveSocket(p), BindSocket(p), RestrictSocket(p)];
  }

  lemma StartServes(s: Host, p: Pid)
    requires p !in s.procs && LockToOpen(s) !in s.holders
    ensures var s' := Exec(Take, s, StartRun(p));
            && s'.Some? && p in s'.value.procs && s'.value.procs[p].Serving?
            && s'.value.procs == s.procs[p := s'.value.procs[p]]
            && s'.value.socket == Some(s'.value.procs[p].socket)
            && s'.value.procs[p].socket >= s.unused
  {
    var lock := [Launch(p, Start), OpenLockFile(p), TryLock(p)];
    var bind := [RemoveSocket(p), BindSocket(p), RestrictSocket(p)];
    StartLocks(s, p);
    StartBinds(Exec(Take, s, lock).value, p);
    ExecConcat(Take, s, lock, bind);
    assert StartRun(p) == lock + bind;
  }

  /**
   A leftover lock file or socket never blocks a later start: wherever no process holds the lock,
   whatever files are lying about, a new process that is left to run becomes the daemon.
   */
  lemma LeftoversNeverBlock(s: Host, p: Pid)
    requires Reachable(s) && p !in s.procs
    requires forall q :: q in s.procs ==> !HoldsLock(s.procs[q])
    ensures Exec(Take, s, StartRun(p)).Some?
    ensures var s' := Exec(Take, s, StartRun(p)).value;
            p in s'.procs && s'.procs[p].Serving? && s'.socket == Some(s'.procs[p].socket)
  {
    ReachableInvariant(s);
    StartServes(s, p);
  }

  // ---------------------------------------------------------------------------------------------
  // What "already running" shows

  /** Some process holds the lock. */
  ghost predicate LockIsHeld(s: Host) {
    exists q :: q in s.procs && HoldsLock(s.procs[q])
  }

  /** A start or a probe reports a running daemon exactly when some process holds the lock. */
  lemma AlreadyRunningExactly(s: Host, p: Pid)
    requires Reachable(s) && Enabled(s, TryLock(p))
    ensures Do(s, TryLock(p)).procs[p] == Done(AlreadyRunning) <==> LockIsHeld(s)
  {
    ReachableInvariant(s);
    var lock := s.procs[p].lock;
    if lock in s.holders {
      assert HoldsLock(s.procs[s.holders[lock]]);
    }
  }

  lemma ProbeLocks(s: Host, p: Pid)
    requires p !in s.procs && LockToOpen(s) !in s.holders
    ensures var s' := Exec(Take, s, [Launch(p, Probe), OpenLockFile(p), TryLock(p)]);
            && s'.Some? && s'.value.procs == s.procs[p := Probing(LockToOpen(s))]
            && s'.value.lockFile == Some(LockToOpen(s)) && LockToOpen(s) in s'.value.holders
  {
    ExecTwo(s, Launch(p, Probe), OpenLockFile(p), [TryLock(p)]);
    assert [Launch(p, Probe), OpenLockFile(p)] + [TryLock(p)] == [Launch(p, Probe), OpenLockFile(p), TryLock(p)];
  }

  /**
   That process need not be a daemon. A probe takes the lock to ask its question, so a start that
   meets it reports a daemon where none has ever been.
   */
  lemma ProbeLooksLikeADaemon(s: Host, probe: Pid, start: Pid)
    requires Initial(s) && probe != start
    ensures var run := [Launch(probe, Probe), OpenLockFile(probe), TryLock(probe),
                        Launch(start, Start), OpenLockFile(start), TryLock(start)];
            && Exec(Take, s, run).Some?
            && Exec(Take, s, run).value.procs.Keys == {probe, start}
            && Exec(Take, s, run).value.procs[probe].Probing?
            && Exec(Take, s, run).value.procs[start] == Done(AlreadyRunning)
  {
    var asks := [Launch(probe, Probe), OpenLockFile(probe), TryLock(probe)];
    var starts := [Launch(start, Start), OpenLockFile(start), TryLock(start)];
    ProbeLocks(s, probe);
    var s' := Exec(Take, s, asks).value;
    ExecTwo(s', Launch(start, Start), OpenLockFile(start), [TryLock(start)]);
    assert [Launch(start, Start), OpenLockFile(start)] + [TryLock(start)] == starts;
    ExecConcat(Take, s, asks, starts);
    assert asks + starts == [Launch(probe, Probe), OpenLockFile(probe), TryLock(probe),
                             Launch(start, Start), OpenLockFile(start), TryLock(start)];
  }

  /**
   All of this rests on the lock file never being removed. Were it unlinked under a live daemon, a
   new process would lock a file of its own, and take the socket path away from the first.
   */
  lemma RemovedLockFileBreaksIt(s: Host, p: Pid, q: Pid)
    requires Reachable(s) && p in s.procs && s.procs[p].Serving? && q !in s.procs
    ensures var s' := Exec(Take, s.(lockFile := None), StartRun(q));
            && s'.Some? && p in s'.value.procs && q in s'.value.procs
            && s'.value.procs[p] == s.procs[p] && s'.value.procs[q].Serving?
            && s'.value.socket != Some(s.procs[p].socket)
  {
    ReachableInvariant(s);
    assert s.unused !in s.holders;
    StartServes(s.(lockFile := None), q);
  }

  /** What a process leaves of the host if it gives up its lock while it still has its listener. */
  function GuardFirst(s: Host, p: Pid): Host
    requires p in s.procs
  {
    s.(holders := Released(s, p))
  }

  /**
   And on the listener going before the guard. Were it the other way round, a new process could start
   in between, and the old one would then unlink the socket of the new daemon.
   */
  lemma GuardFirstBreaksIt(s: Host, p: Pid, q: Pid)
    requires Reachable(s) && p in s.procs && s.procs[p].Serving? && q !in s.procs
    ensures var s' := Exec(Take, GuardFirst(s, p), StartRun(q));
            && s'.Some? && q in s'.value.procs && s'.value.procs[q].Serving?
            && s'.value.socket == Some(s'.value.procs[q].socket)
            && Enabled(s'.value, DropListener(p))
            && Do(s'.value, DropListener(p)).procs[q] == s'.value.procs[q]
            && Do(s'.value, DropListener(p)).socket == None
  {
    ReachableInvariant(s);
    StartServes(GuardFirst(s, p), q);
  }
}
