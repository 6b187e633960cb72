/**
 Stopping the accept loop (src/lib.rs). The loop is blocked in `accept` and learns of a shutdown
 only from a flag it reads when a connection arrives; the thread that sets the flag then connects
 once, to make one arrive. Threads and clients interleave freely here, one step at a time.

 Connecting to a bound listener is assumed to enqueue a connection.
 */
module Shutdown {
  import opened Wrappers
  import opened Automaton

  /** Where the loop is. A connection that arrived, or an error, is looked at after the flag is. */
  datatype Acceptor = Waiting | Arrived(ok: bool) | Checked | Over(failed: bool)

  /** Where a connection's thread is: `Asked` has yet to set the flag, `Waking` to connect. */
  datatype Worker = Serving | Asked | Waking | Gone

  /** `late` counts the connections that were given a thread after the flag was set. */
  datatype Daemon = Daemon(acceptor: Acceptor, stopping: bool, backlog: nat, workers: seq<Worker>, late: nat)

  datatype Action =
    | Connect
    | Accept(ok: bool)
    | Check
    | Spawn
    | EndServing(worker: nat, shutdown: bool)
    | SetFlag(worker: nat)
    | Wake(worker: nat)

  const STARTED := Daemon(Waiting, false, 0, [], 0)

  predicate At(d: Daemon, worker: nat, where: Worker) {
    worker < |d.workers| && d.workers[worker] == where
  }

  predicate Enabled(d: Daemon, a: Action) {
    match a
    case Connect => true
    case Accept(ok) => d.acceptor.Waiting? && (ok ==> d.backlog > 0)
    case Check => d.acceptor.Arrived?
    case Spawn => d.acceptor.Checked?
    case EndServing(worker, _) => At(d, worker, Serving)
    case SetFlag(worker) => At(d, worker, Asked)
    case Wake(worker) => At(d, worker, Waking)
  }

  function Queued(d: Daemon): nat {
    if d.acceptor.Over? then d.backlog else d.backlog + 1
  }

  function Do(d: Daemon, a: Action): Daemon
    requires Enabled(d, a)
  {
    match a
    case Connect => d.(backlog := Queued(d))
    case Accept(ok) => d.(acceptor := Arrived(ok), backlog := if ok then d.backlog - 1 else d.backlog)
    case Check =>
      if d.stopping then d.(acceptor := Over(false))
      else if !d.acceptor.ok then d.(acceptor := Over(true))
      else d.(acceptor := Checked)
    case Spawn =>
      d.(acceptor := Waiting, workers := d.workers + [Serving], late := if d.stopping then d.late + 1 else d.late)
    case EndServing(worker, shutdown) => d.(workers := d.workers[worker := if shutdown then Asked else Gone])
    case SetFlag(worker) => d.(stopping := true, workers := d.workers[worker := Waking])
    case Wake(worker) => d.(backlog := Queued(d), workers := d.workers[worker := Gone])
  }

  function Take(d: Daemon, a: Action): Option<Daemon> {
    if Enabled(d, a) then Some(Do(d, a)) else None
  }

  ghost predicate Reachable(d: Daemon) {
    exists run :: Exec(Take, STARTED, run) == Some(d)
  }

  // ---------------------------------------------------------------------------------------------
  // The wakeup is never lost

  /** If the loop is to stop and has not, something will still make it look at the flag. */
  ghost predicate WillNotice(d: Daemon) {
    d.stopping ==>
      d.acceptor.Over? || d.acceptor.Arrived? || d.backlog > 0 || exists worker :: At(d, worker, Waking)
  }

  predicate FewLate(d: Daemon) {
    if d.stopping then d.late + (if d.acceptor.Checked? then 1 else 0) <= 1 else d.late == 0
  }

  ghost predicate Invariant(d: Daemon) {
    WillNotice(d) && FewLate(d)
  }

  lemma StepKeepsInvariant(d: Daemon, a: Action)
    requires Invariant(d) && Enabled(d, a)
    ensures Invariant(Do(d, a))
  {
    var d' := Do(d, a);
    if a.SetFlag? {
      assert At(d', a.worker, Waking);
    } else if d.stopping && exists worker :: At(d, worker, Waking) {
      var worker :| At(d, worker, Waking);
      assert a == Wake(worker) || At(d', worker, Waking);
    }
  }

  /**
   No lost wakeup: in every reachable state with the flag set, the loop has ended, or is about to
   read the flag, or has a connection to accept, or some thread has yet to make its wake connection.
   And at most one connection that was already past the check is served after the flag is set.
   */
  lemma NoLostWakeup(d: Daemon)
    requires Reachable(d)
    ensures WillNotice(d) && d.late <= 1
  {
    var run :| Exec(Take, STARTED, run) == Some(d);
    forall d', a ensures Keeps(Take, Invariant, d', a) {
      if Invariant(d') && Enabled(d', a) {
        StepKeepsInvariant(d', a);
      }
    }
    ExecKeeps(Take, Invariant, STARTED, run);
  }

  predicate OfAcceptor(a: Action) {
    a.Accept? || a.Check? || a.Spawn?
  }

  /** How many steps the loop has left once the flag is set. */
  function Remaining(d: Daemon): nat {
    match d.acceptor
    case Checked => 3
    case Waiting => 2
    case Arrived(_) => 1
    case Over(_) => 0
  }

  function AcceptorSteps(run: seq<Action>): nat
    decreases |run|
  {
    if run == [] then 0 else (if OfAcceptor(run[0]) then 1 else 0) + AcceptorSteps(run[1..])
  }

  /** Once the flag is set the loop takes at most three more steps, whatever else happens. */
  lemma {:induction false} LoopWindsDown(d: Daemon, run: seq<Action>)
    requires d.stopping && Exec(Take, d, run).Some?
    ensures AcceptorSteps(run) + Remaining(Exec(Take, d, run).value) <= Remaining(d)
    decreases |run|
  {
    if run == [] {
    } else {
      LoopWindsDown(Do(d, run[0]), run[1..]);
    }
  }

  /**
   And it is never stuck: until it has ended, either the loop itself can take one of those steps, or
   a thread can make its wake connection, after which the loop can.
   */
  lemma LoopIsNotStuck(d: Daemon)
    requires Reachable(d) && d.stopping && !d.acceptor.Over?
    ensures exists a :: (OfAcceptor(a) && Enabled(d, a) && Remaining(Do(d, a)) < Remaining(d))
                     || (a.Wake? && Enabled(d, a) && Enabled(Do(d, a), Accept(true)))
  {
    NoLostWakeup(d);
    match d.acceptor
    case Arrived(_) => assert Enabled(d, Check) && Remaining(Do(d, Check)) < Remaining(d);
    case Checked => assert Enabled(d, Spawn) && Remaining(Do(d, Spawn)) < Remaining(d);
    case Waiting =>
      if d.backlog > 0 {
        assert Enabled(d, Accept(true)) && Remaining(Do(d, Accept(true))) < Remaining(d);
      } else {
        var worker :| At(d, worker, Waking);
        assert Enabled(d, Wake(worker)) && Enabled(Do(d, Wake(worker)), Accept(true));
      }
  }

  /** How many steps are left to the end, with a wake connection among them if the loop has to wait for one. */
  function Left(d: Daemon): nat {
    Remaining(d) + if (d.acceptor.Waiting? || d.acceptor.Checked?) && d.backlog == 0 then 1 else 0
  }

  /** The next of them. */
  lemma NextToTheEnd(d: Daemon) returns (a: Action)
    requires Reachable(d) && d.stopping && !d.acceptor.Over?
    ensures (OfAcceptor(a) || a.Wake?) && Enabled(d, a)
    ensures Do(d, a).stopping && Left(Do(d, a)) == Left(d) - 1
  {
    NoLostWakeup(d);
    match d.acceptor
    case Arrived(_) => a := Check;
    case Checked => a := Spawn;
    case Waiting =>
      if d.backlog > 0 {
        a := Accept(true);
      } else {
        var worker :| At(d, worker, Waking);
        a := Wake(worker);
      }
  }

  lemma StaysReachable(d: Daemon, a: Action)
    requires Reachable(d) && Enabled(d, a)
    ensures Reachable(Do(d, a))
  {
    var run :| Exec(Take, STARTED, run) == Some(d);
    ExecAppend(Take, STARTED, run, a);
  }

  /**
   From every reachable state with the flag set the loop can be brought to its end, by its own steps and
   at most one wake connection, four steps in all.
   */
  lemma {:induction false} LoopCanEnd(d: Daemon) returns (run: seq<Action>)
    requires Reachable(d) && d.stopping
    ensures |run| == Left(d) <= 4
    ensures forall i :: 0 <= i < |run| ==> OfAcceptor(run[i]) || run[i].Wake?
    ensures Exec(Take, d, run).Some? && Exec(Take, d, run).value.acceptor.Over?
    decreases Left(d)
  {
    if d.acceptor.Over? {
      run := [];
    } else {
      var a := NextToTheEnd(d);
      StaysReachable(d, a);
      var later := LoopCanEnd(Do(d, a));
      run := [a] + later;
      assert run[1..] == later;
    }
  }

  // ---------------------------------------------------------------------------------------------
  // The loop itself

  datatype LoopEnd = StoppedAsAsked | AcceptFailed | StillWaiting

  /** The loop's surroundings: clients and threads that run between any two of its own steps. */
  class Listener {
    const others: seq<seq<Action>>
    const accepts: nat -> bool
    var state: Daemon
    var turn: nat
    ghost var log: seq<Action>
    ghost var waits: nat

    constructor (others: seq<seq<Action>>, accepts: nat -> bool)
      ensures Valid() && state == STARTED && turn == 0 && waits == 0
      ensures this.others == others && this.accepts == accepts
    {
      this.others, this.accepts, this.state, this.turn, this.log := others, accepts, STARTED, 0, [];
      this.waits := 0;
    }

    /** `waits` is how often `accept` was still blocked after everybody else's turn. */
    ghost predicate Valid()
      reads this
    {
      turn <= |others| && LeadsTo(Take, STARTED, log, state)
    }

    lemma WakesUp()
      requires Valid()
      ensures WillNotice(state) && state.late <= 1
    {
      assert Exec(Take, STARTED, log) == Some(state);
      NoLostWakeup(state);
    }

    method Act(a: Action)
      requires Valid() && Enabled(state, a)
      modifies this`state, this`log
      ensures Valid() && state == Do(old(state), a)
    {
      LeadsFurther(Take, STARTED, log, state, a);
      state := Do(state, a);
      log := log + [a];
    }

    /** Everybody else's next turn. */
    method Yield()
      requires Valid() && turn < |others|
      modifies this`state, this`log, this`turn
      ensures Valid() && turn == old(turn) + 1
      ensures state.acceptor == old(state.acceptor) && state.backlog >= old(state.backlog)
      ensures old(state.stopping) ==> state.stopping
      ensures state.late == old(state.late) && |state.workers| == |old(state.workers)|
    {
      var run := others[turn];
      for i := 0 to |run|
        invariant Valid() && turn == old(turn)
        invariant state.acceptor == old(state.acceptor) && state.backlog >= old(state.backlog)
        invariant old(state.stopping) ==> state.stopping
        invariant state.late == old(state.late) && |state.workers| == |old(state.workers)|
      {
        if !OfAcceptor(run[i]) && Enabled(state, run[i]) {
          Act(run[i]);
        }
      }
      turn := turn + 1;
    }

    /**
     One more turn inside `accept`. It goes on waiting only if there is still no connection, unless it
     fails, which it may do whether there is one or not.
     */
    method Await() returns (arrived: bool)
      requires Valid() && turn < |others| && state.acceptor.Waiting?
      modifies this
      ensures Valid() && turn == old(turn) + 1 && waits == old(waits) + if arrived then 0 else 1
      ensures |state.workers| == |old(state.workers)|
      ensures if arrived then state.acceptor == Arrived(accepts(turn))
              else state.acceptor.Waiting? && state.backlog == 0 && accepts(turn)
    {
      Yield();
      var ok := accepts(turn);
      arrived := !ok || state.backlog > 0;
      if arrived {
        Act(Accept(ok));
      } else {
        waits := waits + 1;
      }
    }
  }

  /**
   Gives each connection a thread until the flag is found set. It does nothing else: every turn of
   everybody else's is one it spent blocked in `accept`, or one of the three it takes to give a connection
   its thread, or one of the two in which it ends. A finite schedule may end while the loop is still
   blocked; if it does with the flag set, some thread has yet to wake it.
   */
  method AcceptUntilShutdown(listener: Listener) returns (end: LoopEnd)
    requires listener.Valid() && listener.state.acceptor.Waiting?
    modifies listener
    ensures listener.Valid() && listener.state.late <= 1
    ensures listener.turn == old(listener.turn) + (listener.waits - old(listener.waits))
              + 3 * (|listener.state.workers| - |old(listener.state.workers)|) + if end.StillWaiting? then 0 else 2
    ensures match end
            case StoppedAsAsked => listener.state.stopping && listener.state.acceptor == Over(false)
            case AcceptFailed =>
              && !listener.state.stopping && listener.state.acceptor == Over(true)
              && listener.turn > 0 && !listener.accepts(listener.turn - 1)
            case StillWaiting =>
              && |listener.others| <= listener.turn + 2 && listener.state.acceptor.Waiting?
              && (listener.state.stopping && listener.state.backlog == 0 ==>
                    exists worker :: At(listener.state, worker, Waking))
  {
    while listener.turn + 2 < |listener.others|
      invariant listener.Valid() && listener.state.acceptor.Waiting?
      invariant listener.turn == old(listener.turn) + (listener.waits - old(listener.waits))
                  + 3 * (|listener.state.workers| - |old(listener.state.workers)|)
      decreases |listener.others| - listener.turn
    {
      var arrived := listener.Await();
      if !arrived {
        continue;
      }
      listener.Yield();
      listener.Act(Check);
      if listener.state.acceptor.Over? {
        listener.WakesUp();
        return if listener.state.acceptor.failed then AcceptFailed else StoppedAsAsked;
      }
      listener.Yield();
      listener.Act(Spawn);
    }
    listener.WakesUp();
    end := StillWaiting;
  }
}
