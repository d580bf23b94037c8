/**
 * Concrete runs of the daemon's rules, replayed on the supervisor's functions and
 * on the status and cleanup functions.
 */
module Scenarios {
  import opened Wrappers
  import PidFile
  import Worker
  import Reaping
  import opened Supervisor

  /**
   * Three valid tasks and a cap of two: two workers are forked at once; the
   * third pass finds the pool full and forks nothing, and the third task is
   * forked only after SIGCHLD has reaped one of the first two workers.
   */
  lemma ThreeTasksCapTwo()
    ensures Loop(CapTwo(), Books(map[], false, []), ThreeTasks())
      == LoopEnd(Books(map[102 := 11, 103 := 13], false, []), StillRunning, 5)
  {
    var e := ThreeTasks();
    var b1 := Books(map[101 := 10], false, []);
    assert Iteration(CapTwo(), Books(map[], false, []), Fetched(1, true), ForkParent(101), 10, true) == Step(Spawned(101), b1);
    SecondFork();
  }

  /** The scenario after its first fork: the second task fills the pool. */
  lemma SecondFork()
    ensures Loop(CapTwo(), Books(map[101 := 10], false, []), ThreeTasks()[1..])
      == LoopEnd(Books(map[102 := 11, 103 := 13], false, []), StillRunning, 4)
  {
    var e := ThreeTasks();
    var b1 := Books(map[101 := 10], false, []);
    var b2 := Books(map[101 := 10, 102 := 11], false, []);
    assert Iteration(CapTwo(), b1, Fetched(2, true), ForkParent(102), 11, true) == Step(Spawned(102), b2);
    assert e[1..][1..] == e[2..];
    PoolFullUntilReaped();
  }

  function CapTwo(): Config
  {
    Config(2, false, false)
  }

  function ThreeTasks(): seq<Event>
  {
    [ Tick(Fetched(1, true), ForkParent(101), 10, true),
      Tick(Fetched(2, true), ForkParent(102), 11, true),
      Tick(Fetched(3, true), ForkParent(103), 12, true),
      Deliver(SigChld([101, 0])),
      Tick(Fetched(3, true), ForkParent(103), 13, true) ]
  }

  /** The last three events of the scenario, from a full pool. */
  lemma PoolFullUntilReaped()
    ensures Loop(CapTwo(), Books(map[101 := 10, 102 := 11], false, []), ThreeTasks()[2..])
      == LoopEnd(Books(map[102 := 11, 103 := 13], false, []), StillRunning, 3)
  {
    var e := ThreeTasks();
    var b2 := Books(map[101 := 10, 102 := 11], false, []);
    assert |b2.pids| == 2;
    assert Iteration(CapTwo(), b2, Fetched(3, true), ForkParent(103), 12, true) == Step(PoolFull, b2);
    assert e[2..][1..] == e[3..];
    ReapThenFork();
  }

  lemma ReapThenFork()
    ensures Loop(CapTwo(), Books(map[101 := 10, 102 := 11], false, []), ThreeTasks()[3..])
      == LoopEnd(Books(map[102 := 11, 103 := 13], false, []), StillRunning, 2)
  {
    var e := ThreeTasks();
    assert e[3..][0] == Deliver(SigChld([101, 0]));
    assert e[3..][1..] == e[4..];
    FirstWorkerReaped();
    ForkAfterReaping();
  }

  /** SIGCHLD with worker 101 terminated reaps it and leaves 102. */
  lemma FirstWorkerReaped()
    ensures Handle(Books(map[101 := 10, 102 := 11], false, []), SigChld([101, 0]))
      == Books(map[102 := 11], false, [])
  {
    assert Reaping.Reaped([101, 0]) == [101];
    assert Reaping.ReapedSet([101, 0]) == {101};
  }

  /** With a slot free again, the third task is forked. */
  lemma ForkAfterReaping()
    ensures Loop(CapTwo(), Books(map[102 := 11], false, []), ThreeTasks()[4..])
      == LoopEnd(Books(map[102 := 11, 103 := 13], false, []), StillRunning, 1)
  {
    var e := ThreeTasks();
    assert e[4..] == [Tick(Fetched(3, true), ForkParent(103), 13, true)];
    assert Iteration(CapTwo(), Books(map[102 := 11], false, []), Fetched(3, true), ForkParent(103), 13, true)
      == Step(Spawned(103), Books(map[102 := 11, 103 := 13], false, []));
  }

  /** A worker that runs its task successfully with keep_completed off deletes the task and exits. */
  lemma CompletedTaskDeleted()
    ensures var r := Loop(Config(2, false, false), Books(map[], false, []),
        [Tick(Fetched(1, true), ForkChild, 10, true), Tick(Fetched(2, true), ForkChild, 11, true)]);
      r == LoopEnd(Books(map[], false, [Deleted(1)]), WorkerDone(Worker.Finish(true, false, false)), 1)
  {
  }

  /** An invalid task is deleted and no worker is forked for it, and the loop goes on. */
  lemma InvalidTaskDiscarded()
    ensures var r := Loop(Config(2, true, true), Books(map[], false, []),
        [Tick(Fetched(9, false), ForkParent(101), 10, true)]);
      r == LoopEnd(Books(map[], false, [Deleted(9)]), StillRunning, 1)
  {
  }

  /** A PID file naming process 4242, which does not exist: status() reports an unclean shutdown, deletes the file and reports not running. */
  lemma StaleFileCleared()
    ensures PidFile.Status(Some(4242), {}) == PidFile.Report(None, None, true)
  {
  }

  /** SIGTERM arrives: the loop stops right after the signal and takes no further pass. */
  lemma NoPassAfterSigterm()
    ensures Loop(CapTwo(), Books(map[101 := 10, 102 := 11], false, []),
        [Deliver(SigTerm), Tick(Fetched(3, true), ForkParent(103), 12, true)])
      == LoopEnd(Books(map[101 := 10, 102 := 11], true, []), StillRunning, 1)
  {
  }

  /**
   * SIGTERM with two live workers that both exit during the first sleep:
   * cleanup makes exactly one kill round and leaves no worker.
   */
  lemma ShutdownAfterOneRound()
    ensures Reaping.CleanRounds(map[101 := 10, 102 := 11], [[101, 102, 0]]) == 1
    ensures Reaping.Survivors(map[101 := 10, 102 := 11], [[101, 102, 0]], 1) == map[]
  {
    var pids := map[101 := 10, 102 := 11];
    assert Reaping.Reaped([101, 102, 0]) == [101, 102];
    assert pids.Keys <= Reaping.ReapedSet(Reaping.Round([[101, 102, 0]], 0));
    Reaping.AllReapedInFirstRound(pids, [[101, 102, 0]]);
  }

  /**
   * SIGTERM with one worker that never exits: cleanup makes all five kill
   * rounds and ends with the worker still live, which is reported.
   */
  lemma ShutdownWithUnresponsiveWorker()
    ensures Reaping.CleanRounds(map[101 := 10], []) == Reaping.MAX_KILL_ROUNDS
    ensures 101 in Reaping.Survivors(map[101 := 10], [], Reaping.MAX_KILL_ROUNDS)
  {
    Reaping.UnresponsiveSurvives(map[101 := 10], [], 101);
  }
}
