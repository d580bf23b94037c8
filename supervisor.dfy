/**
 * The supervisor's rules as functions over its bookkeeping: one pass of the
 * main loop of daemon(), the signal handler, and the loop itself, run over a
 * finite sequence of events. Fork, the task queue, the clock and signal
 * delivery enter as inputs.
 */
module Supervisor {
  import Worker
  import Reaping

  /** What get_next() yields: no loaded task, or a task and whether valid() accepts it. */
  datatype QueueItem = NoTask | Fetched(id: int, valid: bool)

  /** The three outcomes of fork(): failure (-1), the parent with the child's PID, or the child (0). */
  datatype ForkOutcome = ForkFailed | ForkParent(child: Pid) | ForkChild

  /** A process ID as fork() returns it to the parent: always positive. */
  type Pid = p: int | p > 0 witness 1

  /** The two signals the handler is installed for; SIGCHLD carries what pcntl_wait() then returns. */
  datatype Signal = SigChld(waits: seq<int>) | SigTerm

  /**
   * One step of the environment seen by the main loop: either a loop pass
   * (the queue's next item, the fork outcome, the clock, and whether the
   * task would succeed if executed) or a signal delivered between passes.
   */
  datatype Event = Tick(item: QueueItem, fork: ForkOutcome, now: int, success: bool) | Deliver(signal: Signal)

  /** A change made to the task queue. */
  datatype QueueOp = Deleted(id: int) | Updated(id: int, status: Worker.TaskStatus)

  /** The configuration values the rules read. */
  datatype Config = Config(max: nat, keepCompleted: bool, keepFailed: bool)

  /**
   * The supervisor's state: live worker PID to its start time, the SIGTERM
   * flag, and the changes made to the task queue so far.
   */
  datatype Books = Books(pids: map<int, int>, sigterm: bool, queueOps: seq<QueueOp>)

  /** What one pass of the main loop did. */
  datatype StepOutcome =
    | PoolFull
    | QueueEmpty
    | Discarded(id: int)
    | Spawned(child: int)
    | SpawnFailed
    | WorkerExited(result: Worker.Result)

  datatype Step = Step(outcome: StepOutcome, after: Books)

  /** How the process running the loop ends, or that it is still running. */
  datatype RunExit =
    | StillRunning
    | SpawnAborted
    | WorkerDone(result: Worker.Result)
    | Shutdown(rounds: nat, gaveUp: bool)

  /** Where the loop stopped: the state, why, and how many events it took. */
  datatype LoopEnd = LoopEnd(books: Books, exit: RunExit, consumed: nat)

  /** The queue change a worker makes for task `id`. */
  function WorkerOp(id: int, r: Worker.Result): QueueOp
  {
    if r.disposal == Worker.Delete then Deleted(id) else Updated(id, r.status)
  }

  /**
   * One pass of the main loop. Below the cap it fetches the next task: none
   * means sleep; an invalid one is deleted and never forked; a valid one is
   * forked, and the parent records the child with its start time, while the
   * child runs the task and exits. At the cap it only sleeps. A pass never
   * touches the SIGTERM flag.
   */
  function Iteration(c: Config, b: Books, item: QueueItem, fork: ForkOutcome, now: int, success: bool): (r: Step)
    ensures r.after.sigterm == b.sigterm
    ensures |b.pids| <= c.max ==> |r.after.pids| <= c.max
    ensures r.outcome.Spawned? || r.outcome.SpawnFailed? || r.outcome.WorkerExited? ==>
      |b.pids| < c.max && item.Fetched? && item.valid
    ensures r.after.pids != b.pids ==> r.outcome.Spawned? && |r.after.pids| <= |b.pids| + 1
    ensures |b.pids| >= c.max ==> r == Step(PoolFull, b)
    ensures |b.pids| < c.max && item.NoTask? ==> r == Step(QueueEmpty, b)
    ensures |b.pids| < c.max && item.Fetched? && !item.valid ==>
      r == Step(Discarded(item.id), b.(queueOps := b.queueOps + [Deleted(item.id)]))
    ensures |b.pids| < c.max && item.Fetched? && item.valid && fork.ForkFailed? ==>
      r == Step(SpawnFailed, b)
    ensures |b.pids| < c.max && item.Fetched? && item.valid && fork.ForkParent? ==>
      r == Step(Spawned(fork.child), b.(pids := b.pids[fork.child := now]))
    ensures |b.pids| < c.max && item.Fetched? && item.valid && fork.ForkChild? ==>
      var w := Worker.Finish(success, c.keepCompleted, c.keepFailed);
      r == Step(WorkerExited(w), b.(queueOps := b.queueOps + [WorkerOp(item.id, w)]))
  {
    if |b.pids| < c.max then
      match item
      case NoTask => Step(QueueEmpty, b)
      case Fetched(id, valid) =>
        if !valid then Step(Discarded(id), b.(queueOps := b.queueOps + [Deleted(id)]))
        else
          match fork
          case ForkFailed => Step(SpawnFailed, b)
          case ForkParent(child) => Step(Spawned(child), b.(pids := b.pids[child := now]))
          case ForkChild =>
            var w := Worker.Finish(success, c.keepCompleted, c.keepFailed);
            Step(WorkerExited(w), b.(queueOps := b.queueOps + [WorkerOp(id, w)]))
    else
      Step(PoolFull, b)
  }

  /**
   * The signal handler. SIGCHLD removes exactly the PIDs it reaps and keeps
   * every other entry with its start time; SIGTERM raises the flag and
   * changes nothing else.
   */
  function Handle(b: Books, signal: Signal): (r: Books)
    ensures r.queueOps == b.queueOps
    ensures |r.pids| <= |b.pids|
    ensures signal.SigChld? ==>
      && r.sigterm == b.sigterm
      && r.pids.Keys == b.pids.Keys - Reaping.ReapedSet(signal.waits)
      && (forall p :: p in r.pids ==> r.pids[p] == b.pids[p])
    ensures signal.SigTerm? ==> r.sigterm && r.pids == b.pids
  {
    match signal
    case SigChld(waits) =>
      Reaping.RemovalShrinks(b.pids, Reaping.ReapedSet(waits));
      b.(pids := b.pids - Reaping.ReapedSet(waits))
    case SigTerm => b.(sigterm := true)
  }

  /**
   * The main loop of daemon() over a finite sequence of events: passes and
   * signals in the order given, while the SIGTERM flag is down. A failed
   * fork ends the process, and so does the end of a worker's task.
   */
  function Loop(c: Config, b: Books, events: seq<Event>): (r: LoopEnd)
    decreases |events|
    ensures r.consumed <= |events|
    ensures !r.exit.Shutdown?
    ensures b.sigterm ==> r == LoopEnd(b, StillRunning, 0)
  {
    if b.sigterm || events == [] then LoopEnd(b, StillRunning, 0)
    else
      match events[0]
      case Deliver(signal) =>
        var rest := Loop(c, Handle(b, signal), events[1..]);
        LoopEnd(rest.books, rest.exit, rest.consumed + 1)
      case Tick(item, fork, now, success) =>
        var s := Iteration(c, b, item, fork, now, success);
        if s.outcome.SpawnFailed? then LoopEnd(s.after, SpawnAborted, 1)
        else if s.outcome.WorkerExited? then LoopEnd(s.after, WorkerDone(s.outcome.result), 1)
        else
          var rest := Loop(c, s.after, events[1..]);
          LoopEnd(rest.books, rest.exit, rest.consumed + 1)
  }

  /** The loop has stopped: its flag is up or no events are left. */
  lemma LoopDone(c: Config, b: Books, events: seq<Event>)
    requires b.sigterm || events == []
    ensures Loop(c, b, events) == LoopEnd(b, StillRunning, 0)
  {
  }

  /** Where a loop run ends when `n` events were taken before it started. */
  function Shifted(r: LoopEnd, n: nat): LoopEnd
  {
    LoopEnd(r.books, r.exit, r.consumed + n)
  }

  /** The loop's first event, when it is a signal: handle it, then go on with the rest. */
  lemma LoopDeliver(c: Config, b: Books, events: seq<Event>)
    requires !b.sigterm && events != [] && events[0].Deliver?
    ensures var rest := Loop(c, Handle(b, events[0].signal), events[1..]);
      Loop(c, b, events) == LoopEnd(rest.books, rest.exit, rest.consumed + 1)
  {
  }

  /** The loop's first event, when it is a pass: run it, then stop or go on with the rest. */
  lemma LoopTick(c: Config, b: Books, events: seq<Event>)
    requires !b.sigterm && events != [] && events[0].Tick?
    ensures var e := events[0];
      var s := Iteration(c, b, e.item, e.fork, e.now, e.success);
      var rest := Loop(c, s.after, events[1..]);
      Loop(c, b, events) ==
        if s.outcome.SpawnFailed? then LoopEnd(s.after, SpawnAborted, 1)
        else if s.outcome.WorkerExited? then LoopEnd(s.after, WorkerDone(s.outcome.result), 1)
        else LoopEnd(rest.books, rest.exit, rest.consumed + 1)
  {
  }

  /** The concurrency cap holds at every point of the loop, so it holds when the loop stops. */
  lemma {:induction false} LoopKeepsCap(c: Config, b: Books, events: seq<Event>)
    requires |b.pids| <= c.max
    ensures |Loop(c, b, events).books.pids| <= c.max
    decreases |events|
  {
    if !b.sigterm && events != [] {
      match events[0]
      case Deliver(signal) =>
        LoopKeepsCap(c, Handle(b, signal), events[1..]);
      case Tick(item, fork, now, success) =>
        LoopKeepsCap(c, Iteration(c, b, item, fork, now, success).after, events[1..]);
    }
  }

  /** The loop that neither received SIGTERM nor stopped on a pass has taken every event. */
  lemma {:induction false} LoopRunsOut(c: Config, b: Books, events: seq<Event>)
    requires !b.sigterm
    ensures var r := Loop(c, b, events);
      r.exit.StillRunning? && !r.books.sigterm ==> r.consumed == |events|
    decreases |events|
  {
    if events != [] {
      match events[0]
      case Deliver(signal) =>
        var h := Handle(b, signal);
        if !h.sigterm {
          LoopRunsOut(c, h, events[1..]);
        }
      case Tick(item, fork, now, success) =>
        var s := Iteration(c, b, item, fork, now, success);
        if !s.outcome.SpawnFailed? && !s.outcome.WorkerExited? {
          LoopRunsOut(c, s.after, events[1..]);
        }
    }
  }

  /**
   * Once SIGTERM is received the loop stops at once: the last event it took
   * is that signal, and no pass runs after it.
   */
  lemma {:induction false} LoopStopsAtSigterm(c: Config, b: Books, events: seq<Event>)
    requires !b.sigterm
    ensures var r := Loop(c, b, events);
      r.books.sigterm ==> r.exit.StillRunning? && r.consumed > 0 && events[r.consumed - 1] == Deliver(SigTerm)
    decreases |events|
  {
    if events != [] {
      match events[0]
      case Deliver(signal) =>
        LoopDeliver(c, b, events);
        var h := Handle(b, signal);
        if !h.sigterm {
          LoopStopsAtSigterm(c, h, events[1..]);
          var rest := Loop(c, h, events[1..]);
          assert rest.consumed > 0 ==> events[rest.consumed] == events[1..][rest.consumed - 1];
        }
      case Tick(item, fork, now, success) =>
        LoopTick(c, b, events);
        var s := Iteration(c, b, item, fork, now, success);
        if !s.outcome.SpawnFailed? && !s.outcome.WorkerExited? {
          LoopStopsAtSigterm(c, s.after, events[1..]);
          var rest := Loop(c, s.after, events[1..]);
          assert rest.consumed > 0 ==> events[rest.consumed] == events[1..][rest.consumed - 1];
        }
    }
  }

  /**
   * A loop that stops on a pass (the fork failed, or the pass ran a worker)
   * stops right after that pass, with the flag still down.
   */
  lemma {:induction false} LoopStopsAtPass(c: Config, b: Books, events: seq<Event>)
    requires !b.sigterm
    ensures var r := Loop(c, b, events);
      !r.exit.StillRunning? ==> !r.books.sigterm && r.consumed > 0 && events[r.consumed - 1].Tick?
    decreases |events|
  {
    if events != [] {
      match events[0]
      case Deliver(signal) =>
        LoopDeliver(c, b, events);
        var h := Handle(b, signal);
        if !h.sigterm {
          LoopStopsAtPass(c, h, events[1..]);
          var rest := Loop(c, h, events[1..]);
          assert rest.consumed > 0 ==> events[rest.consumed] == events[1..][rest.consumed - 1];
        }
      case Tick(item, fork, now, success) =>
        LoopTick(c, b, events);
        var s := Iteration(c, b, item, fork, now, success);
        if !s.outcome.SpawnFailed? && !s.outcome.WorkerExited? {
          LoopStopsAtPass(c, s.after, events[1..]);
          var rest := Loop(c, s.after, events[1..]);
          assert rest.consumed > 0 ==> events[rest.consumed] == events[1..][rest.consumed - 1];
        }
    }
  }

}
