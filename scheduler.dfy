/**
 * The batch scheduler (`main`): run the notebooks one after another and stop
 * the whole batch, with exit status 1, at the first one that fails.
 */
module Scheduler {
  import opened Controller
  import opened Paths

  /** The batch run when no notebook paths are given on the command line. */
  const DEFAULT_NOTEBOOKS: seq<string> := ["notebooks/test_nb_1.ipynb", "notebooks/test_nb_2.ipynb"]

  /** The batch: the paths given, in the order given, or the default list when none are. */
  function BatchQueue(args: seq<string>): (queue: seq<string>)
    ensures |queue| > 0
    ensures args != [] ==> queue == args
    ensures args == [] ==> queue == DEFAULT_NOTEBOOKS
  {
    if |args| > 0 then args else DEFAULT_NOTEBOOKS
  }

  /** What the clock and the outside world do during one notebook's run. */
  datatype RunEnv = RunEnv(timestamp: string, io: NotebookIO)

  predicate Passes(path: string, env: RunEnv) {
    Verdict(path, env.io).Succeeded?
  }

  /**
   * The first position from `i` on whose run fails, or |queue| when every
   * run from `i` on passes; `world(k)` is what the k-th run meets.
   */
  function FirstFailureFrom(queue: seq<string>, world: nat -> RunEnv, i: nat): (k: nat)
    requires i <= |queue|
    ensures i <= k <= |queue|
    ensures forall j :: i <= j < k ==> Passes(queue[j], world(j))
    ensures k < |queue| ==> !Passes(queue[k], world(k))
    decreases |queue| - i
  {
    if i == |queue| || !Passes(queue[i], world(i)) then i else FirstFailureFrom(queue, world, i + 1)
  }

  /** The first failing position of the batch, or |queue| when none fails. */
  function FirstFailure(queue: seq<string>, world: nat -> RunEnv): (k: nat)
    ensures k <= |queue|
    ensures forall j :: 0 <= j < k ==> Passes(queue[j], world(j))
    ensures k < |queue| ==> !Passes(queue[k], world(k))
  {
    FirstFailureFrom(queue, world, 0)
  }

  /** The positions 0, 1, ..., n - 1 in order. */
  function Positions(n: nat): (s: seq<nat>)
    ensures |s| == n && forall j :: 0 <= j < n ==> s[j] == j
  {
    if n == 0 then [] else Positions(n - 1) + [n - 1]
  }

  /**
   * One step of the batch: run the controller on `path` in the world `env`
   * meets, and keep only its verdict (the log it wrote is the controller's).
   */
  method RunStep(path: string, env: RunEnv) returns (success: bool)
    ensures success <==> Passes(path, env)
  {
    var rec;
    success, rec := RunNotebook(path, env.timestamp, env.io);
  }

  /**
   * Runs the notebooks of `notebooks` in order and stops at the first one that
   * fails. Returns the exit status and the positions the controller was run
   * on, in the order it was run on them: every run up to and including the
   * first failing one happens and none after it, with status 1; when none
   * fails, every notebook runs, in order, and the status is 0.
   */
  method RunBatch(notebooks: seq<string>, world: nat -> RunEnv) returns (exitCode: int, ghost trace: seq<nat>)
    ensures exitCode == (if FirstFailure(notebooks, world) < |notebooks| then 1 else 0)
    ensures exitCode == 1 ==> trace == Positions(FirstFailure(notebooks, world) + 1)
    ensures exitCode == 0 ==> trace == Positions(|notebooks|)
  {
    trace := [];
    var i := 0;
    while i < |notebooks|
      invariant i <= |notebooks|
      invariant trace == Positions(i)
      invariant i <= FirstFailure(notebooks, world)
    {
      var success := RunStep(notebooks[i], world(i));
      trace := trace + [i];
      if !success {
        assert !Passes(notebooks[i], world(i));
        assert FirstFailure(notebooks, world) == i;
        exitCode := 1;
        return;
      }
      i := i + 1;
    }
    exitCode := 0;
  }

  /**
   * The scheduler's entry point: the batch is the command-line arguments
   * `args`, or the default list when there are none.
   */
  method Schedule(args: seq<string>, world: nat -> RunEnv) returns (exitCode: int, ghost trace: seq<nat>)
    ensures var queue := BatchQueue(args);
      exitCode == (if FirstFailure(queue, world) < |queue| then 1 else 0)
    ensures var queue := BatchQueue(args);
      exitCode == 1 ==> trace == Positions(FirstFailure(queue, world) + 1)
    ensures exitCode == 0 ==> trace == Positions(|BatchQueue(args)|)
  {
    var notebooks := if |args| > 0 then args else DEFAULT_NOTEBOOKS;
    exitCode, trace := RunBatch(notebooks, world);
  }

  /**
   * The first failing position is the only position before which every run
   * passes and at which the run fails (or the queue ends).
   */
  lemma FirstFailureIsUnique(queue: seq<string>, world: nat -> RunEnv, k: nat)
    requires k <= |queue|
    requires forall j :: 0 <= j < k ==> Passes(queue[j], world(j))
    requires k < |queue| ==> !Passes(queue[k], world(k))
    ensures FirstFailure(queue, world) == k
  {
  }

  /**
   * A batch whose first two runs both pass (scenario: two healthy notebooks)
   * runs both default notebooks and exits 0; one whose first run fails exits
   * 1 after that run alone.
   */
  lemma DefaultBatchOutcomes(world: nat -> RunEnv)
    ensures Passes(DEFAULT_NOTEBOOKS[0], world(0)) && Passes(DEFAULT_NOTEBOOKS[1], world(1)) ==>
      FirstFailure(BatchQueue([]), world) == 2
    ensures !Passes(DEFAULT_NOTEBOOKS[0], world(0)) ==> FirstFailure(BatchQueue([]), world) == 0
  {
  }
}
