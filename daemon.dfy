/**
 * The daemon controller: the supervisor's bookkeeping (live worker PIDs, the
 * SIGTERM flag), its main loop, the signal handler, the bounded cleanup, and
 * the start and stop commands, with fork, signals, /proc, the PID file and
 * the task queue entering as inputs.
 */
module Daemon {
  import opened Wrappers
  import PidFile
  import Reaping
  import Worker
  import opened Supervisor

  /** The outcomes of the start command. */
  datatype StartOutcome =
    | AlreadyRunning(pid: int)
    | InitialForkFailed
    | Daemonized(child: int)
    | DaemonRan(exit: RunExit, consumed: nat)

  /** The outcomes of the stop command. */
  datatype StopOutcome = NotRunning | Signalled(pid: int) | SignalFailed(pid: int)

  lemma NonEmptyHasMember(s: set<int>)
    requires s != {}
    ensures exists x :: x in s
  {
    assert (forall x :: x !in s) ==> s == {};
  }

  class Controller {
    /** The concurrency cap (config `max`). */
    const max: nat
    const keepCompleted: bool
    const keepFailed: bool

    /** Live worker PID to the time it was forked. */
    var pids: map<int, int>
    /** Set by the SIGTERM handler; the main loop runs while it is false. */
    var sigterm: bool
    /** The PID file: absent, or the number it holds. */
    var pidFile: Option<int>
    /** The deletions and updates made to the task queue, oldest first. */
    ghost var queueOps: seq<QueueOp>

    /** The concurrency cap holds. */
    ghost predicate Valid()
      reads this
    {
      |pids| <= max
    }

    /** The supervisor's bookkeeping as a value. */
    ghost function State(): Books
      reads this
    {
      Books(pids, sigterm, queueOps)
    }

    function Cfg(): Config
    {
      Config(max, keepCompleted, keepFailed)
    }

    constructor (max: nat, keepCompleted: bool, keepFailed: bool, pidFile: Option<int>)
      ensures Valid()
      ensures this.max == max && this.keepCompleted == keepCompleted && this.keepFailed == keepFailed
      ensures pids == map[] && !sigterm && this.pidFile == pidFile && queueOps == []
    {
      this.max := max;
      this.keepCompleted := keepCompleted;
      this.keepFailed := keepFailed;
      pids := map[];
      sigterm := false;
      this.pidFile := pidFile;
      queueOps := [];
    }

    /** One pass of the main loop (see Supervisor.Iteration). */
    method Iterate(item: QueueItem, fork: ForkOutcome, now: int, success: bool) returns (o: StepOutcome)
      requires Valid()
      modifies this`pids, this`queueOps
      ensures Valid()
      ensures Step(o, State()) == Iteration(Cfg(), old(State()), item, fork, now, success)
    {
      if |pids| < max {
        match item
        case NoTask =>
          o := QueueEmpty;
        case Fetched(id, valid) =>
          if !valid {
            queueOps := queueOps + [Deleted(id)];
            o := Discarded(id);
          } else {
            match fork
            case ForkFailed =>
              o := SpawnFailed;
            case ForkParent(child) =>
              pids := pids[child := now];
              o := Spawned(child);
            case ForkChild =>
              var result := Worker.Finish(success, keepCompleted, keepFailed);
              queueOps := queueOps + [WorkerOp(id, result)];
              o := WorkerExited(result);
          }
      } else {
        o := PoolFull;
      }
    }

    /**
     * The SIGCHLD branch of the signal handler: reaps, without blocking,
     * every child that has terminated and removes exactly those PIDs,
     * leaving every other entry as it was.
     */
    method Reap(waits: seq<int>)
      requires Valid()
      modifies this`pids
      ensures Valid()
      ensures pids == old(pids) - Reaping.ReapedSet(waits)
    {
      ghost var reaped := Reaping.Reaped(waits);
      var i := 0;
      while i < |waits| && waits[i] > 0
        invariant i <= |reaped|
        invariant pids == old(pids) - Reaping.Elements(reaped[..i])
        decreases |waits| - i
      {
        Reaping.ReapedNext(waits, i);
        Reaping.ReapOneMore(old(pids), reaped[..i], waits[i]);
        assert reaped[..i + 1] == reaped[..i] + [waits[i]];
        pids := pids - {waits[i]};
        i := i + 1;
      }
      Reaping.ReapedDone(waits, i);
      assert reaped[..i] == reaped;
      Reaping.RemovalShrinks(old(pids), Reaping.ReapedSet(waits));
    }

    /** The signal handler (see Supervisor.Handle): SIGCHLD reaps; SIGTERM only raises the flag. */
    method SigHandler(signal: Signal)
      requires Valid()
      modifies this`pids, this`sigterm
      ensures Valid()
      ensures State() == Handle(old(State()), signal)
    {
      match signal
      case SigChld(waits) =>
        Reap(waits);
      case SigTerm =>
        sigterm := true;
    }

    /** Sends SIGTERM to every live worker, once each; the map itself is left alone. */
    method KillAll() returns (signalled: seq<int>, allGone: bool)
      ensures |signalled| == |pids|
      ensures forall p :: p in signalled <==> p in pids
      ensures forall i, j :: 0 <= i < j < |signalled| ==> signalled[i] != signalled[j]
      ensures allGone <==> |pids| == 0
    {
      signalled := [];
      var rest := pids.Keys;
      while rest != {}
        invariant rest <= pids.Keys
        invariant forall p :: p in signalled <==> p in pids && p !in rest
        invariant |signalled| + |rest| == |pids|
        invariant forall i, j :: 0 <= i < j < |signalled| ==> signalled[i] != signalled[j]
        decreases |rest|
      {
        NonEmptyHasMember(rest);
        var p :| p in rest;
        signalled := signalled + [p];
        rest := rest - {p};
      }
      allGone := |pids| == 0;
    }

    /** Deletes the PID file. */
    method UnlinkPid()
      modifies this`pidFile
      ensures pidFile == None
    {
      pidFile := None;
    }

    /**
     * Cleanup after SIGTERM: kill rounds while workers are live, at most
     * five, each followed by the reaping done during its sleep; an error is
     * reported when workers survive; the PID file is removed in every case.
     */
    method Clean(reaps: seq<seq<int>>) returns (rounds: nat, gaveUp: bool)
      requires Valid()
      modifies this`pids, this`pidFile
      ensures Valid()
      ensures rounds == Reaping.CleanRounds(old(pids), reaps)
      ensures rounds <= Reaping.MAX_KILL_ROUNDS
      ensures pids == Reaping.Survivors(old(pids), reaps, rounds)
      ensures gaveUp <==> |pids| > 0
      ensures pidFile == None
    {
      rounds := KillRounds(reaps);
      gaveUp := |pids| > 0;
      UnlinkPid();
    }

    /**
     * The kill loop of cleanup: rounds go on while workers are live (the
     * map is non-empty exactly when its count is nonzero), at most five.
     */
    method KillRounds(reaps: seq<seq<int>>) returns (rounds: nat)
      requires Valid()
      modifies this`pids
      ensures Valid()
      ensures rounds == Reaping.CleanRounds(old(pids), reaps)
      ensures pids == Reaping.Survivors(old(pids), reaps, rounds)
    {
      ghost var start := pids;
      rounds := 0;
      while rounds < Reaping.MAX_KILL_ROUNDS && pids != map[]
        invariant rounds <= Reaping.MAX_KILL_ROUNDS
        invariant pids == Reaping.Survivors(start, reaps, rounds)
        invariant Reaping.RoundsFrom(start, reaps, rounds) == Reaping.CleanRounds(start, reaps)
        invariant Valid()
      {
        Reaping.RoundsGoOn(start, reaps, rounds);
        KillRound(start, reaps, rounds);
        rounds := rounds + 1;
      }
      Reaping.RoundsStop(start, reaps, rounds);
    }

    /** One kill round of cleanup: SIGTERM to every live worker, then the reaping done during the sleep. */
    method KillRound(ghost start: map<int, int>, reaps: seq<seq<int>>, k: nat)
      requires Valid() && pids == Reaping.Survivors(start, reaps, k)
      modifies this`pids
      ensures Valid() && pids == Reaping.Survivors(start, reaps, k + 1)
    {
      var signalled, allGone := KillAll();
      Reap(Reaping.Round(reaps, k));
      Reaping.SurvivorsStep(start, reaps, k);
    }

    /**
     * The while loop of daemon() over the given events (see Supervisor.Loop).
     * `consumed` is the number of events taken.
     */
    method MainLoop(events: seq<Event>) returns (exit: RunExit, consumed: nat)
      requires Valid()
      modifies this`pids, this`sigterm, this`queueOps
      ensures Valid()
      ensures LoopEnd(State(), exit, consumed) == Loop(Cfg(), old(State()), events)
    {
      ghost var whole := Loop(Cfg(), State(), events);
      exit := StillRunning;
      consumed := 0;
      while consumed < |events| && !sigterm
        decreases |events| - consumed
        invariant consumed <= |events|
        invariant Valid()
        invariant exit.StillRunning?
        invariant whole == Shifted(Loop(Cfg(), State(), events[consumed..]), consumed)
      {
        assert events[consumed..][1..] == events[consumed + 1..];
        ghost var taken := Loop(Cfg(), State(), events[consumed..]);
        exit := TakeEvent(events[consumed..]);
        consumed := consumed + 1;
        if !exit.StillRunning? {
          assert taken == LoopEnd(State(), exit, 1);
          return;
        }
      }
      LoopDone(Cfg(), State(), events[consumed..]);
    }

    /**
     * One turn of the main loop, on the first of the remaining events: a
     * signal is handled, or a pass runs. The loop goes on with the rest
     * unless the pass stopped it.
     */
    method TakeEvent(events: seq<Event>) returns (exit: RunExit)
      requires Valid() && !sigterm && events != []
      modifies this`pids, this`sigterm, this`queueOps
      ensures Valid()
      ensures exit.StillRunning? ==>
        Loop(Cfg(), old(State()), events) == Shifted(Loop(Cfg(), State(), events[1..]), 1)
      ensures !exit.StillRunning? ==> Loop(Cfg(), old(State()), events) == LoopEnd(State(), exit, 1)
    {
      exit := StillRunning;
      match events[0] {
        case Deliver(signal) =>
          LoopDeliver(Cfg(), State(), events);
          SigHandler(signal);
        case Tick(item, fork, now, success) =>
          LoopTick(Cfg(), State(), events);
          var o := Iterate(item, fork, now, success);
          if o.SpawnFailed? {
            exit := SpawnAborted;
          } else if o.WorkerExited? {
            exit := WorkerDone(o.result);
          }
      }
    }

    /**
     * daemon(): the main loop; once it stops because SIGTERM was received,
     * cleanup runs with the reaping given by `reaps`.
     */
    method Run(events: seq<Event>, reaps: seq<seq<int>>) returns (exit: RunExit, consumed: nat)
      requires Valid()
      modifies this
      ensures Valid()
      ensures var end := Loop(Cfg(), old(State()), events);
        && consumed == end.consumed
        && (!end.books.sigterm ==> exit == end.exit && State() == end.books && pidFile == old(pidFile))
        && (end.books.sigterm ==>
              && exit == Shutdown(Reaping.CleanRounds(end.books.pids, reaps), |pids| > 0)
              && pids == Reaping.Survivors(end.books.pids, reaps, exit.rounds)
              && sigterm && queueOps == end.books.queueOps && pidFile == None)
    {
      exit, consumed := MainLoop(events);
      if sigterm {
        var rounds, gaveUp := Clean(reaps);
        exit := Shutdown(rounds, gaveUp);
      }
    }

    /**
     * status(): the PID in the file when that process is running; a file
     * whose process is gone is deleted.
     */
    method Status(running: set<int>) returns (pid: Option<int>)
      modifies this`pidFile
      ensures pid == PidFile.Status(old(pidFile), running).pid
      ensures pidFile == PidFile.Status(old(pidFile), running).file
    {
      var found := pidFile;
      var run := PidFile.IsRunning(found, running);
      if PidFile.Truthy(found) && !run {
        UnlinkPid();
      }
      pid := if run then found else None;
    }

    /**
     * The start command: nothing is forked when status() finds the daemon
     * running; otherwise the initial fork either fails (nothing written),
     * returns in the parent (which writes the child's PID to the file), or
     * returns in the child, which runs the daemon.
     */
    method ActionIndex(running: set<int>, fork: ForkOutcome, events: seq<Event>, reaps: seq<seq<int>>)
      returns (o: StartOutcome)
      requires Valid()
      modifies this
      ensures Valid()
      ensures var st := PidFile.Status(old(pidFile), running);
        && (o.AlreadyRunning? <==> st.pid.Some?)
        && (o.AlreadyRunning? ==>
              o.pid == st.pid.value && pidFile == st.file && pids == old(pids) && sigterm == old(sigterm)
              && queueOps == old(queueOps))
        && (o.InitialForkFailed? <==> st.pid.None? && fork.ForkFailed?)
        && (o.InitialForkFailed? ==>
              pidFile == st.file && pids == old(pids) && sigterm == old(sigterm)
              && queueOps == old(queueOps))
        && (o.Daemonized? <==> st.pid.None? && fork.ForkParent?)
        && (o.Daemonized? ==>
              o.child == fork.child && pidFile == Some(o.child) && pids == old(pids) && sigterm == old(sigterm)
              && queueOps == old(queueOps))
        && (o.DaemonRan? <==> st.pid.None? && fork.ForkChild?)
      ensures o.DaemonRan? && o.exit.Shutdown? ==> pidFile == None
    {
      var pid := Status(running);
      if pid.Some? {
        o := AlreadyRunning(pid.value);
        return;
      }
      match fork
      case ForkFailed =>
        o := InitialForkFailed;
      case ForkParent(child) =>
        pidFile := Some(child);
        o := Daemonized(child);
      case ForkChild =>
        var exit, consumed := Run(events, reaps);
        o := DaemonRan(exit, consumed);
    }

    /**
     * The stop command: when status() finds the daemon running, SIGTERM is
     * sent to it; if delivery reports an error the PID file is removed.
     */
    method ActionExit(running: set<int>, delivered: bool) returns (o: StopOutcome)
      modifies this`pidFile
      ensures var st := PidFile.Status(old(pidFile), running);
        && (st.pid.None? ==> o == NotRunning && pidFile == st.file)
        && (st.pid.Some? && delivered ==> o == Signalled(st.pid.value) && pidFile == st.file)
        && (st.pid.Some? && !delivered ==> o == SignalFailed(st.pid.value) && pidFile == None)
    {
      var pid := Status(running);
      if pid.Some? {
        if delivered {
          o := Signalled(pid.value);
        } else {
          o := SignalFailed(pid.value);
          UnlinkPid();
        }
      } else {
        o := NotRunning;
      }
    }
  }
}
