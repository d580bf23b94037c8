# MangoQueue task daemon — a verified model of its supervisor

The daemon controller (`Controller_Daemon`) runs a supervisor process that
polls the task queue and forks one worker per valid task. It never runs more
than `max` workers at once. It reaps terminated workers on SIGCHLD, and on
SIGTERM it stops polling and kills its workers in at most five rounds. It
keeps its own PID in a PID file. The start command (`action_index`) and the
stop command (`action_exit`) consult that file through `status()`, which also
detects and removes the file an unclean shutdown leaves behind.

This project models that bookkeeping in Dafny and proves its rules:

- `wrappers.dfy`: `Option`.
- `pid_file.dfy`, module `PidFile`: `status()` with `get_pid()` and
  `is_running()`, as a function over the PID file (`None` when it is absent,
  `Some(n)` when it holds the number n) and the set of PIDs that have a
  `/proc` entry.
- `worker.dfy`, module `Worker`: the worker branch. It sets the task status
  from the result of `execute()`, logs a failure, and deletes or updates the
  task according to `keep_completed` / `keep_failed`.
- `reaping.dfy`, module `Reaping`:
  - the PIDs one SIGCHLD delivery reaps, taken from the values that
    successive `pcntl_wait()` calls return;
  - the number of kill rounds `clean()` makes, and the workers left after
    each round.
- `supervisor.dfy`, module `Supervisor`: the specification functions.
  - One pass of the main loop of `daemon()`.
  - The signal handler.
  - The loop itself, run over a finite sequence of events.
  - Lemmas about the loop: the cap, and why it stops.
- `daemon.dfy`, module `Daemon`: the class `Controller`.
  - Its fields are `pids` (live worker PID to start time), `sigterm` and
    `pidFile`, plus the constants `max`, `keepCompleted` and `keepFailed`.
  - Its methods are imperative counterparts of `daemon()`, `clean()`,
    `kill_all()`, `sig_handler()`, `status()`, `unlink_pid()`,
    `action_index()` and `action_exit()`.
  - Each method is proved against the functions above.
  - A ghost field `queueOps` logs the deletions and updates made to the task
    queue.
- `scenarios.dfy`, module `Scenarios`: concrete runs, proved on the
  specification functions:
  - two workers with a cap of two;
  - reaping one worker frees a slot;
  - an invalid task;
  - a stale PID file;
  - a shutdown that reaps everything in one round;
  - a shutdown with a worker that never exits.

The environment enters as inputs:

- the queue item `get_next()` yields and whether `valid()` accepts it;
- the outcome of `fork()` (the parent always receives a positive child PID);
- the clock;
- whether `execute()` succeeds;
- the signals and where they arrive between loop passes;
- what `pcntl_wait()` returns;
- the set of running PIDs;
- whether `posix_kill()` delivered its signal.

## Model

| member | source | states |
|---|---|---|
| PidFile.Status | classes/controller/daemon.php:172-219 | status() returns the PID exactly when the file holds a nonzero PID whose process runs, and then leaves the file alone. It reports an unclean shutdown exactly when the file holds a nonzero PID whose process is gone, and then deletes the file and returns nothing. Without a file it returns nothing and deletes nothing. |
| PidFile.WriteThenStatus | classes/controller/daemon.php:88-96 | Once the parent of the initial fork has written a running child's PID, status() returns that PID and keeps the file. |
| PidFile.StatusSettles | classes/controller/daemon.php:172-188 | A second status() after a first one never finds a stale file. It agrees with the first and changes nothing. |
| Worker.Finish | classes/controller/daemon.php:264-283 | The status is completed iff execute() succeeded. The task is deleted iff (completed and not keep_completed) or (failed and not keep_failed), and updated in exactly the other cases, so never both. An error is logged iff the task failed. The error message is cleared iff the task failed and keep_failed is off, and such a task is then deleted. |
| Worker.KeptFailureKeepsMessage | classes/controller/daemon.php:268-283 | A failed task under keep_failed is updated, logged, and keeps its error message. |
| Reaping.Reaped | classes/controller/daemon.php:354-358 | The reaped PIDs are the longest prefix of pcntl_wait()'s results that are all positive. The loop stops at the first result that is not positive. |
| Reaping.RoundsFrom | classes/controller/daemon.php:312-318 | From round k, the kill loop runs to a round between k and five. If it stops before five, no worker survives at that round. |
| Reaping.RoundsFromMinimal | classes/controller/daemon.php:314 | From round k, workers are still live after every round before the one where the loop stops. |
| Reaping.CleanRounds | classes/controller/daemon.php:312-318 | clean() makes at most five kill rounds, and none exactly when no worker is live. If it stops before five, no worker survives. |
| Reaping.CleanRoundsMinimal | classes/controller/daemon.php:314 | clean() never stops early: after every round before the last one, workers are still live. |
| Reaping.CleanRoundsUnique | classes/controller/daemon.php:312-318 | The kill-round count is the one and only count that satisfies the loop's stop rule. |
| Reaping.ReapedByPositive | classes/controller/daemon.php:354 | Only positive pcntl_wait() results are ever removed from the worker map. |
| Reaping.ReapedByGrows | classes/controller/daemon.php:314-318 | Every PID reaped by some round stays among those reaped by every later round. |
| Reaping.SurvivorsShrink | classes/controller/daemon.php:314-318 | The workers live after a later round are a subset of those live after an earlier one, each with its original start time. |
| Reaping.UnresponsiveSurvives | classes/controller/daemon.php:314-323 | A worker that is never reaped forces all five rounds and is still live at the end, so the error is logged. |
| Reaping.AllReapedInFirstRound | classes/controller/daemon.php:314-318 | If the first sleep reaps every live worker, cleanup makes exactly one round and none survive. |
| Supervisor.Iteration | classes/controller/daemon.php:229-299 | One pass, case by case. At or above the cap, nothing changes. With an empty queue, nothing changes. An invalid task is deleted and nothing is forked. A failed fork changes nothing. The parent records the child with its time. The child applies Worker.Finish to the task. Only the parent branch touches `pids`, and only with a single insertion. A fork happens only below the cap and for a valid task. The cap is preserved. The SIGTERM flag is never touched. |
| Supervisor.Handle | classes/controller/daemon.php:348-366 | SIGCHLD removes exactly the reaped PIDs and keeps every other entry and its start time. It leaves the flag alone and never grows the map. SIGTERM sets the flag and changes nothing else. |
| Supervisor.Loop | classes/controller/daemon.php:227-300 | The loop never takes more events than it is given. It does not start when the flag is already up. It never ends in a shutdown by itself: cleanup is a separate step. |
| Supervisor.LoopKeepsCap | classes/controller/daemon.php:227-261 | The concurrency cap holds at every point of the loop. |
| Supervisor.LoopRunsOut | classes/controller/daemon.php:227 | With the flag down and no pass that ended the process, every event is taken. |
| Supervisor.LoopStopsAtSigterm | classes/controller/daemon.php:227-303 | Once the flag is raised, the last event taken is SIGTERM and no pass runs after it. |
| Supervisor.LoopStopsAtPass | classes/controller/daemon.php:250-286 | A loop ended by a pass stops right after it, and the flag is still down. |
| Daemon.Controller.constructor | classes/controller/daemon.php:19-27 | The daemon starts with no workers, the flag down, and its configuration. |
| Daemon.Controller.Iterate | classes/controller/daemon.php:229-299 | The new state and the outcome are exactly those of Supervisor.Iteration, and the cap is kept. |
| Daemon.Controller.Reap | classes/controller/daemon.php:352-358 | The unset loop removes exactly Reaping.Reaped's PIDs from `pids` and keeps the cap. |
| Daemon.Controller.SigHandler | classes/controller/daemon.php:348-366 | The new state is exactly Supervisor.Handle of the old one. |
| Daemon.Controller.KillAll | classes/controller/daemon.php:334-343 | Every live worker is signalled, no PID twice, and nothing else is. It cannot modify `pids`, since it has no modifies clause. It returns true iff no worker is live. |
| Daemon.Controller.UnlinkPid | classes/controller/daemon.php:193-196 | The PID file is gone. |
| Daemon.Controller.KillRound | classes/controller/daemon.php:316-317 | One kill round takes the live workers from round k to round k + 1. |
| Daemon.Controller.KillRounds | classes/controller/daemon.php:312-318 | The loop makes Reaping.CleanRounds rounds and leaves the survivors of that round. |
| Daemon.Controller.Clean | classes/controller/daemon.php:310-329 | At most five rounds, as counted by Reaping.CleanRounds, leaving the survivors of that round. The error is reported iff workers are left. The PID file is removed in every case. The cap is kept. |
| Daemon.Controller.TakeEvent | classes/controller/daemon.php:227-300 | One event taken by the loop is exactly one unfolding of Supervisor.Loop. |
| Daemon.Controller.MainLoop | classes/controller/daemon.php:227-300 | The final state, the exit and the number of events taken are exactly those of Supervisor.Loop. |
| Daemon.Controller.Run | classes/controller/daemon.php:225-304 | If the loop ends with the flag down, state and exit are those of Supervisor.Loop. Otherwise cleanup runs on the loop's final workers: the exit records the round count and whether workers were left, and the PID file is removed. |
| Daemon.Controller.Status | classes/controller/daemon.php:172-188 | The returned PID and the PID file left behind are exactly those of PidFile.Status. |
| Daemon.Controller.ActionIndex | classes/controller/daemon.php:67-113 | Nothing is forked, written or changed (workers, flag, task queue) iff status() finds a running PID. A failed initial fork writes nothing. The parent writes the child's PID to the file. The child runs the daemon, and after a shutdown the PID file is gone. |
| Daemon.Controller.ActionExit | classes/controller/daemon.php:120-147 | It reports not running when status() finds no running PID, and otherwise signals that PID. The PID file is deleted when delivery fails, and left as status() left it otherwise. |
| Scenarios.ThreeTasksCapTwo | classes/controller/daemon.php:227-261 | Three tasks with a cap of two: two are forked, the third waits, and it is forked after SIGCHLD reaps a worker. |
| Scenarios.SecondFork | classes/controller/daemon.php:250-261 | The second task fills the pool. |
| Scenarios.PoolFullUntilReaped | classes/controller/daemon.php:295-299 | A full pool only sleeps. |
| Scenarios.ReapThenFork | classes/controller/daemon.php:352-358 | SIGCHLD frees a slot, and the next pass forks the waiting task. |
| Scenarios.FirstWorkerReaped | classes/controller/daemon.php:352-358 | SIGCHLD for one terminated worker removes exactly that worker. |
| Scenarios.ForkAfterReaping | classes/controller/daemon.php:250-261 | With a free slot, the waiting task is forked. |
| Scenarios.CompletedTaskDeleted | classes/controller/daemon.php:264-285 | A successful worker without keep_completed deletes its task and exits. |
| Scenarios.InvalidTaskDiscarded | classes/controller/daemon.php:234-244 | An invalid task is deleted and nothing is forked. |
| Scenarios.StaleFileCleared | classes/controller/daemon.php:177-187 | A PID file naming a dead process is reported as unclean and removed. |
| Scenarios.NoPassAfterSigterm | classes/controller/daemon.php:227 | After SIGTERM, no further pass runs. |
| Scenarios.ShutdownAfterOneRound | classes/controller/daemon.php:310-318 | If both workers exit during the first sleep, cleanup makes one round and none survive. |
| Scenarios.ShutdownWithUnresponsiveWorker | classes/controller/daemon.php:314-323 | A worker that never exits forces five rounds and survives them. |

## Left out

- Fork, signal installation (`pcntl_signal`, `declare(ticks = 1)`) and asynchronous delivery: signals are handled only between two loop passes, and the child's `exit` ends its branch of the model. What the child does after the fork is a separate run of the model.
- The main loop does not terminate on its own. It is modelled over a finite sequence of events, so each property speaks about any finite prefix of a run.
- `posix_kill()` and `posix_get_last_error()`: delivery success is an input of `action_exit`. The kill rounds of `clean()` do not read the kill results, and who dies is given by the reaping input.
- The order in which `kill_all()` signals the workers: the model walks a set, so the order is arbitrary. Its `usleep` calls are left out too.
- The filesystem and `/proc`: the PID file is the field `pidFile`, and `/proc` is the set `running`. Only numeric file contents are modelled. A file holding `0` is falsy under PHP, so it is neither running nor stale.
- `sleep`/`usleep` are steps that change nothing. `time()` is the `now` input of each pass.
- Logging, echo output, config loading and `before()` (the `pid_path` name, `ini_set`, `set_time_limit`): these are framework I/O. The worker's error log appears only as a flag in `Worker.Result`.
- Mango calls (`get_next`, `valid`, `execute`, `delete`, `update`, `disconnect`): they are inputs, or entries in the ghost queue log.
- `action_status()`: its answer is `status()`, which is modelled. Its task count is a database query and is left out.
- The `WNOHANG || WUNTRACED` argument of `pcntl_wait()`: the model reaps already-terminated children without blocking.
- The config `max` is a `nat`. A negative value would only mean "never fork".
- A fork failure inside the loop exits the process without cleanup. The model ends the run with `SpawnAborted` and leaves the workers and the PID file as they were. A later `status()` then reports the unclean shutdown.
- Daemon.Controller.ActionIndex: for the branch where the child runs the daemon, it states only that the PID file is gone after a shutdown. The rest of that run is stated by Daemon.Controller.Run.
- Daemon.Controller.KillRound: it states the effect of one round on the workers, not which signals were sent. KillAll states that.
