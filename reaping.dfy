/**
 * Reaping of terminated workers and the bounded cleanup that runs at shutdown.
 *
 * One SIGCHLD delivery calls pcntl_wait() without blocking until it returns
 * a value that is not a PID (0 when no child is left to reap, -1 on error);
 * `waits` is the sequence of values those calls return. Cleanup sends
 * SIGTERM to every live worker, sleeps, and repeats at most five times;
 * `reaps[k]` is what the SIGCHLD delivered during the k-th sleep reaps (a
 * round beyond the end of `reaps` reaps nothing).
 */
module Reaping {

  /** The number of kill rounds cleanup attempts before it gives up. */
  const MAX_KILL_ROUNDS: nat := 5

  /**
   * The PIDs one SIGCHLD delivery reaps: the values pcntl_wait() returns
   * while they are positive, in order, stopping at the first that is not.
   */
  function Reaped(waits: seq<int>): (r: seq<int>)
    ensures |r| <= |waits| && r == waits[..|r|]
    ensures forall j :: 0 <= j < |r| ==> r[j] > 0
    ensures |r| < |waits| ==> waits[|r|] <= 0
  {
    if waits == [] || waits[0] <= 0 then [] else [waits[0]] + Reaped(waits[1..])
  }

  /** A positive value at position i of `waits`, with all before it reaped, is reaped too. */
  lemma ReapedNext(waits: seq<int>, i: nat)
    requires i <= |Reaped(waits)| && i < |waits| && waits[i] > 0
    ensures i < |Reaped(waits)| && Reaped(waits)[i] == waits[i]
  {
    var r := Reaped(waits);
    assert r == waits[..|r|];
  }

  /** Reaping stops at the first value that is not a PID, or at the end of `waits`. */
  lemma ReapedDone(waits: seq<int>, i: nat)
    requires i <= |Reaped(waits)| && (i == |waits| || (i < |waits| && waits[i] <= 0))
    ensures i == |Reaped(waits)|
  {
  }

  /** The values of a sequence, as a set. */
  function Elements(s: seq<int>): set<int>
  {
    if s == [] then {} else Elements(s[..|s| - 1]) + {s[|s| - 1]}
  }

  /** A value is among the elements of a sequence exactly when it occurs in it. */
  lemma {:induction false} ElementsAreMembers(s: seq<int>, p: int)
    ensures p in Elements(s) <==> p in s
  {
    if s != [] {
      ElementsAreMembers(s[..|s| - 1], p);
      assert s == s[..|s| - 1] + [s[|s| - 1]];
    }
  }

  /** The PIDs one SIGCHLD delivery reaps, as a set. */
  function ReapedSet(waits: seq<int>): set<int>
  {
    Elements(Reaped(waits))
  }

  /** Reaping one more PID removes it from what is left. */
  lemma ReapOneMore(m: map<int, int>, s: seq<int>, x: int)
    ensures (m - Elements(s)) - {x} == m - Elements(s + [x])
  {
    assert (s + [x])[..|s|] == s;
  }

  /** Removing reaped PIDs never grows the live-worker map. */
  lemma RemovalShrinks(m: map<int, int>, s: set<int>)
    ensures |m - s| <= |m|
  {
    assert (m - s).Keys <= m.Keys;
  }

  /** What the SIGCHLD of cleanup round k returns from pcntl_wait(). */
  function Round(reaps: seq<seq<int>>, k: nat): seq<int>
  {
    if k < |reaps| then reaps[k] else []
  }

  /** Every PID reaped during the first n cleanup rounds. */
  function ReapedBy(reaps: seq<seq<int>>, n: nat): set<int>
  {
    if n == 0 then {} else ReapedBy(reaps, n - 1) + ReapedSet(Round(reaps, n - 1))
  }

  /** The live workers left after n cleanup rounds. */
  function Survivors(pids: map<int, int>, reaps: seq<seq<int>>, n: nat): map<int, int>
  {
    pids - ReapedBy(reaps, n)
  }

  /** One more round removes exactly the PIDs its SIGCHLD reaps. */
  lemma SurvivorsStep(pids: map<int, int>, reaps: seq<seq<int>>, n: nat)
    ensures Survivors(pids, reaps, n + 1) == Survivors(pids, reaps, n) - ReapedSet(Round(reaps, n))
  {
    assert ReapedBy(reaps, n + 1) == ReapedBy(reaps, n) + ReapedSet(Round(reaps, n));
  }

  /**
   * The number of kill rounds clean() performs when it starts from round k:
   * it goes on while fewer than five rounds were made and workers survive.
   */
  function RoundsFrom(pids: map<int, int>, reaps: seq<seq<int>>, k: nat): (n: nat)
    requires k <= MAX_KILL_ROUNDS
    decreases MAX_KILL_ROUNDS - k
    ensures k <= n <= MAX_KILL_ROUNDS
    ensures n < MAX_KILL_ROUNDS ==> Survivors(pids, reaps, n) == map[]
  {
    if k == MAX_KILL_ROUNDS || Survivors(pids, reaps, k) == map[] then k
    else RoundsFrom(pids, reaps, k + 1)
  }

  /** Starting from round k, every round before the last one leaves workers live. */
  lemma {:induction false} RoundsFromMinimal(pids: map<int, int>, reaps: seq<seq<int>>, k: nat, j: nat)
    requires k <= MAX_KILL_ROUNDS && k <= j < RoundsFrom(pids, reaps, k)
    ensures Survivors(pids, reaps, j) != map[]
    decreases MAX_KILL_ROUNDS - k
  {
    if k < j {
      RoundsFromMinimal(pids, reaps, k + 1, j);
    }
  }

  /**
   * The number of kill rounds clean() performs: at most five, none when no
   * worker is live, and it stops once no worker survives.
   */
  function CleanRounds(pids: map<int, int>, reaps: seq<seq<int>>): (n: nat)
    ensures n <= MAX_KILL_ROUNDS
    ensures n == 0 <==> |pids| == 0
    ensures n < MAX_KILL_ROUNDS ==> Survivors(pids, reaps, n) == map[]
  {
    assert Survivors(pids, reaps, 0) == pids;
    RoundsFrom(pids, reaps, 0)
  }

  /** Cleanup does not stop early: after every round before the last, workers are still live. */
  lemma CleanRoundsMinimal(pids: map<int, int>, reaps: seq<seq<int>>, j: nat)
    requires j < CleanRounds(pids, reaps)
    ensures Survivors(pids, reaps, j) != map[]
  {
    RoundsFromMinimal(pids, reaps, 0, j);
  }

  /** Cleanup goes on past round k while workers survive and fewer than five rounds were made. */
  lemma RoundsGoOn(pids: map<int, int>, reaps: seq<seq<int>>, k: nat)
    requires k < MAX_KILL_ROUNDS && Survivors(pids, reaps, k) != map[]
    ensures RoundsFrom(pids, reaps, k) == RoundsFrom(pids, reaps, k + 1)
  {
  }

  /** Cleanup stops at round k once no worker survives it or five rounds were made. */
  lemma RoundsStop(pids: map<int, int>, reaps: seq<seq<int>>, k: nat)
    requires k <= MAX_KILL_ROUNDS
    requires k == MAX_KILL_ROUNDS || Survivors(pids, reaps, k) == map[]
    ensures RoundsFrom(pids, reaps, k) == k
  {
  }

  /** The kill-round count is the only one that stops exactly when the rules of clean() say so. */
  lemma CleanRoundsUnique(pids: map<int, int>, reaps: seq<seq<int>>, n: nat)
    requires n <= MAX_KILL_ROUNDS
    requires n < MAX_KILL_ROUNDS ==> Survivors(pids, reaps, n) == map[]
    requires forall j :: 0 <= j < n ==> Survivors(pids, reaps, j) != map[]
    ensures n == CleanRounds(pids, reaps)
  {
    var m := CleanRounds(pids, reaps);
    if n < m {
      CleanRoundsMinimal(pids, reaps, n);
    }
  }

  /** Only positive values returned by pcntl_wait() are ever reaped. */
  lemma {:induction false} ReapedByPositive(reaps: seq<seq<int>>, n: nat, p: int)
    requires p in ReapedBy(reaps, n)
    ensures p > 0
  {
    assert ReapedBy(reaps, n) == ReapedBy(reaps, n - 1) + ReapedSet(Round(reaps, n - 1));
    if p !in ReapedSet(Round(reaps, n - 1)) {
      ReapedByPositive(reaps, n - 1, p);
    } else {
      ElementsAreMembers(Reaped(Round(reaps, n - 1)), p);
    }
  }

  /** A PID reaped in an earlier round stays reaped in every later one. */
  lemma {:induction false} ReapedByGrows(reaps: seq<seq<int>>, i: nat, j: nat)
    requires i <= j
    ensures ReapedBy(reaps, i) <= ReapedBy(reaps, j)
    decreases j - i
  {
    if i < j {
      ReapedByGrows(reaps, i, j - 1);
    }
  }

  /** Later rounds only remove workers: the survivors of round j are among those of any earlier round i. */
  lemma SurvivorsShrink(pids: map<int, int>, reaps: seq<seq<int>>, i: nat, j: nat)
    requires i <= j
    ensures Survivors(pids, reaps, j).Keys <= Survivors(pids, reaps, i).Keys
    ensures forall p :: p in Survivors(pids, reaps, j) ==> Survivors(pids, reaps, j)[p] == pids[p]
  {
    ReapedByGrows(reaps, i, j);
  }

  /**
   * A worker that is never reaped (it ignores SIGTERM) survives every round,
   * so cleanup makes all five rounds and ends with it still live.
   */
  lemma {:induction false} UnresponsiveSurvives(pids: map<int, int>, reaps: seq<seq<int>>, p: int)
    requires p in pids
    requires forall k :: 0 <= k < MAX_KILL_ROUNDS ==> p !in Reaped(Round(reaps, k))
    ensures CleanRounds(pids, reaps) == MAX_KILL_ROUNDS
    ensures p in Survivors(pids, reaps, MAX_KILL_ROUNDS)
  {
    NeverReaped(reaps, MAX_KILL_ROUNDS, p);
    var n := CleanRounds(pids, reaps);
    NeverReaped(reaps, n, p);
    assert p in Survivors(pids, reaps, n);
  }

  lemma {:induction false} NeverReaped(reaps: seq<seq<int>>, n: nat, p: int)
    requires n <= MAX_KILL_ROUNDS
    requires forall k :: 0 <= k < MAX_KILL_ROUNDS ==> p !in Reaped(Round(reaps, k))
    ensures p !in ReapedBy(reaps, n)
  {
    if n > 0 {
      NeverReaped(reaps, n - 1, p);
      ElementsAreMembers(Reaped(Round(reaps, n - 1)), p);
    }
  }

  /** When the first round's SIGCHLD reaps every live worker, cleanup ends after exactly one round with none left. */
  lemma AllReapedInFirstRound(pids: map<int, int>, reaps: seq<seq<int>>)
    requires |pids| > 0
    requires pids.Keys <= ReapedSet(Round(reaps, 0))
    ensures CleanRounds(pids, reaps) == 1
    ensures Survivors(pids, reaps, 1) == map[]
  {
    assert ReapedBy(reaps, 1) == ReapedSet(Round(reaps, 0));
    assert Survivors(pids, reaps, 1).Keys == {};
    CleanRoundsUnique(pids, reaps, 1);
  }
}
