/**
 * work_queue_model/worker.go: the worker count. The autoscaler raises it one worker at a time while workers
 * started elsewhere raise it and closed channels lower it; every change is one atomic operation.
 */
module Autoscaler {
  import opened Common

  /** Two's-complement reduction of an int32. */
  function Int32(x: int): int {
    (x + 0x8000_0000) % 0x1_0000_0000 - 0x8000_0000
  }

  /** It is the one int32 that is congruent to x modulo 2^32, and x itself if that is an int32. */
  lemma Int32Exact(x: int)
    ensures -2147483648 <= Int32(x) <= 2147483647 && (Int32(x) - x) % 4294967296 == 0
    ensures -2147483648 <= x <= 2147483647 ==> Int32(x) == x
  {
  }

  lemma Int32Next(x: int)
    requires -2147483648 <= x <= 2147483647
    ensures Int32(x + 1) == if x == 2147483647 then -2147483648 else x + 1
    ensures Int32(x - 1) == if x == -2147483648 then 2147483647 else x - 1
  {
  }

  lemma Int32Add(x: int, d: int)
    ensures Int32(Int32(x) + d) == Int32(x + d)
  {
  }

  datatype Step =
    | Started                            // a worker is started outside the autoscaler
    | Closed                             // a worker's delivery channel closes
    | Inspected(depth: Option<int>)      // the autoscaler looks at a queue; None if that fails
    | Spawned                            // the autoscaler starts one worker of a burst

  predicate ByOthers(step: Step) {
    step.Started? || step.Closed?
  }

  /** The counter, and the workers the autoscaler has yet to start for the queue it inspected last. */
  datatype Pool = Pool(count: int, pending: nat)

  predicate TooDeep(depth: Option<int>, threshold: int) {
    depth.Some? && depth.value > threshold
  }

  /** The autoscaler is one goroutine: it finishes a burst before it looks at the next queue. */
  predicate Can(p: Pool, step: Step) {
    match step
    case Inspected(_) => p.pending == 0
    case Spawned => p.pending > 0
    case _ => true
  }

  function Act(p: Pool, step: Step, threshold: int, burst: nat): Pool
    requires Can(p, step)
  {
    match step
    case Started => p.(count := Int32(p.count + 1))
    case Closed => p.(count := Int32(p.count - 1))
    case Inspected(depth) => p.(pending := if TooDeep(depth, threshold) then burst else 0)
    case Spawned => Pool(Int32(p.count + 1), p.pending - 1)
  }

  /** The pool after any interleaving of steps, or None if it is not one the goroutines can produce. */
  function PoolAfter(steps: seq<Step>, threshold: int, burst: nat): Option<Pool> {
    if steps == [] then Some(Pool(0, 0))
    else
      var n := |steps| - 1;
      var p := PoolAfter(steps[..n], threshold, burst);
      if p.Some? && Can(p.value, steps[n]) then Some(Act(p.value, steps[n], threshold, burst)) else None
  }

  function Starts(steps: seq<Step>): nat {
    if steps == [] then 0 else Starts(steps[..|steps| - 1]) + if steps[|steps| - 1].Started? then 1 else 0
  }

  function Closes(steps: seq<Step>): nat {
    if steps == [] then 0 else Closes(steps[..|steps| - 1]) + if steps[|steps| - 1].Closed? then 1 else 0
  }

  /** How many inspections found a queue deeper than the threshold. */
  function DeepSeen(steps: seq<Step>, threshold: int): nat {
    if steps == [] then 0
    else
      var last := steps[|steps| - 1];
      DeepSeen(steps[..|steps| - 1], threshold) + if last.Inspected? && TooDeep(last.depth, threshold) then 1 else 0
  }

  /** The workers there are: those started, less the closed ones. A burst in progress counts as far as it has come. */
  ghost function Workers(steps: seq<Step>, threshold: int, burst: nat): int
    requires PoolAfter(steps, threshold, burst).Some?
  {
    Starts(steps) + burst * DeepSeen(steps, threshold) -
    PoolAfter(steps, threshold, burst).value.pending - Closes(steps)
  }

  lemma {:induction false} CountModulo(steps: seq<Step>, threshold: int, burst: nat)
    requires PoolAfter(steps, threshold, burst).Some?
    ensures PoolAfter(steps, threshold, burst).value.pending <= burst
    ensures PoolAfter(steps, threshold, burst).value.count == Int32(Workers(steps, threshold, burst))
  {
    if steps != [] {
      var n := |steps| - 1;
      var front := steps[..n];
      CountModulo(front, threshold, burst);
      Int32Add(Workers(front, threshold, burst), 1);
      Int32Add(Workers(front, threshold, burst), -1);
      assert burst * (DeepSeen(front, threshold) + 1) == burst * DeepSeen(front, threshold) + burst;
      hide Int32;
    }
  }

  /**
   * At every moment of every interleaving, WorkerCount is the workers started elsewhere, plus one burst per queue
   * found too deep, less the rest of the burst in progress, less the closed channels: exactly so if that is an int32,
   * and modulo 2^32 in any case.
   */
  lemma CountLedger(steps: seq<Step>, threshold: int, burst: nat)
    requires PoolAfter(steps, threshold, burst).Some?
    ensures var p := PoolAfter(steps, threshold, burst).value;
      var workers := Starts(steps) + burst * DeepSeen(steps, threshold) - p.pending - Closes(steps);
      && p.pending <= burst
      && -2147483648 <= p.count <= 2147483647 && (p.count - workers) % 4294967296 == 0
      && (-2147483648 <= workers <= 2147483647 ==> p.count == workers)
  {
    CountModulo(steps, threshold, burst);
    Int32Exact(Workers(steps, threshold, burst));
    hide Int32, PoolAfter, Starts, Closes, DeepSeen;
  }

  // ---- the goroutines -----------------------------------------------------------------------

  /** The autoscaler's part of an interleaving. */
  function Own(steps: seq<Step>): seq<Step> {
    if steps == [] then []
    else
      var n := |steps| - 1;
      Own(steps[..n]) + if ByOthers(steps[n]) then [] else [steps[n]]
  }

  function Spawns(n: nat): seq<Step> {
    if n == 0 then [] else Spawns(n - 1) + [Spawned]
  }

  /** All that a tick does of its own: each queue is inspected, and followed by a burst if it is too deep. */
  function TickSteps(depths: seq<Option<int>>, threshold: int, burst: nat): seq<Step> {
    if depths == [] then []
    else
      var n := |depths| - 1;
      TickSteps(depths[..n], threshold, burst) + [Inspected(depths[n])] +
      Spawns(if TooDeep(depths[n], threshold) then burst else 0)
  }

  class WorkerPool {
    const threshold: int
    const burst: nat
    var workerCount: int
    ghost var steps: seq<Step>

    /** The counter is what the steps so far have made of it. */
    ghost predicate Valid()
      reads this
    {
      var p := PoolAfter(steps, threshold, burst);
      p.Some? && workerCount == p.value.count
    }

    ghost function Pending(): nat
      reads this
      requires Valid()
    {
      PoolAfter(steps, threshold, burst).value.pending
    }

    constructor (threshold: int, burst: nat)
      ensures Valid() && steps == [] && this.threshold == threshold && this.burst == burst
    {
      this.threshold, this.burst := threshold, burst;
      workerCount := 0;
      steps := [];
    }

    /** The atomic increment at the top of StartTaskQueueWorker, called by the autoscaler or by others. */
    method StartTaskQueueWorker(ghost step: Step)
      requires Valid() && (step.Started? || (step.Spawned? && Pending() > 0))
      modifies this`workerCount, this`steps
      ensures steps == old(steps) + [step] && Valid()
      ensures Pending() == old(Pending()) - if step.Spawned? then 1 else 0
      ensures workerCount == if old(workerCount) == 2147483647 then -2147483648 else old(workerCount) + 1
    {
      hide Int32;
      CountLedger(steps, threshold, burst);
      Int32Next(workerCount);
      workerCount := Int32(workerCount + 1);
      steps := steps + [step];
      assert steps[..|steps| - 1] == old(steps);
    }

    /** The delivery loop of a worker ends. */
    method ChannelClosed()
      requires Valid()
      modifies this`workerCount, this`steps
      ensures steps == old(steps) + [Closed] && Valid() && Pending() == old(Pending())
      ensures workerCount == if old(workerCount) == -2147483648 then 2147483647 else old(workerCount) - 1
    {
      hide Int32;
      CountLedger(steps, threshold, burst);
      Int32Next(workerCount);
      workerCount := Int32(workerCount - 1);
      steps := steps + [Closed];
      assert steps[..|steps| - 1] == old(steps);
    }

    /** Other goroutines start workers and see channels close. */
    method Others(what: seq<Step>)
      requires Valid() && forall i :: 0 <= i < |what| ==> ByOthers(what[i])
      modifies this`workerCount, this`steps
      ensures Valid() && steps == old(steps) + what && Pending() == old(Pending())
    {
      for i := 0 to |what|
        invariant Valid() && steps == old(steps) + what[..i] && Pending() == old(Pending())
      {
        if what[i].Started? { StartTaskQueueWorker(Started); } else { ChannelClosed(); }
        assert what[..i + 1] == what[..i] + [what[i]];
      }
      assert what[..|what|] == what;
    }

    /**
     * One tick, with anything that others do in between: others(i, 0) before the inspection of queue i, others(i, j)
     * before the j-th worker of its burst. A tick's own steps are exactly TickSteps.
     */
    method Tick(depths: seq<Option<int>>, others: (nat, nat) -> seq<Step>)
      requires Valid() && Pending() == 0
      requires forall i, j, k :: 0 <= k < |others(i, j)| ==> ByOthers(others(i, j)[k])
      modifies this`workerCount, this`steps
      ensures Valid() && Pending() == 0
      ensures Own(steps) == Own(old(steps)) + TickSteps(depths, threshold, burst)
    {
      hide Own, TickSteps, Spawns, TooDeep;
      TickBegins(Own(steps), threshold, burst);
      for k := 0 to |depths|
        invariant Valid() && Pending() == 0
        invariant Own(steps) == Own(old(steps)) + TickSteps(depths[..k], threshold, burst)
      {
        Interlude(others(k, 0));
        var deep := depths[k].Some? && depths[k].value > threshold;
        Inspect(depths[k]);
        ghost var base := Own(steps);
        SpawnsStep(base, 0);
        TickStep(depths, k, threshold, burst);
        assert deep == TooDeep(depths[k], threshold) by { IsTooDeep(depths[k], threshold); }
        if deep {
          for i := 0 to burst
            invariant Valid() && Pending() == burst - i && Own(steps) == base + Spawns(i)
          {
            Interlude(others(k, i + 1));
            ghost var before := steps;
            StartTaskQueueWorker(Spawned);
            OwnStep(before, Spawned);
            SpawnsStep(base, i);
          }
        }
      }
      assert depths[..|depths|] == depths;
    }

    method Interlude(what: seq<Step>)
      requires Valid() && forall i :: 0 <= i < |what| ==> ByOthers(what[i])
      modifies this`workerCount, this`steps
      ensures Valid() && Own(steps) == Own(old(steps)) && Pending() == old(Pending())
    {
      Others(what);
      OwnOthers(old(steps), what);
    }

    method Inspect(depth: Option<int>)
      requires Valid() && Pending() == 0
      modifies this`steps
      ensures Valid() && Own(steps) == Own(old(steps)) + [Inspected(depth)]
      ensures Pending() == if TooDeep(depth, threshold) then burst else 0
    {
      steps := steps + [Inspected(depth)];
      assert steps[..|steps| - 1] == old(steps);
    }
  }

  lemma IsTooDeep(depth: Option<int>, threshold: int)
    ensures TooDeep(depth, threshold) <==> depth.Some? && depth.value > threshold
  {
  }

  lemma OwnStep(steps: seq<Step>, step: Step)
    ensures Own(steps + [step]) == if ByOthers(step) then Own(steps) else Own(steps) + [step]
  {
    assert (steps + [step])[..|steps|] == steps;
  }

  lemma {:induction false} OwnOthers(steps: seq<Step>, what: seq<Step>)
    requires forall i :: 0 <= i < |what| ==> ByOthers(what[i])
    ensures Own(steps + what) == Own(steps)
  {
    hide Own;
    if what == [] {
      assert steps + what == steps;
    } else {
      var n := |what| - 1;
      assert steps + what == steps + what[..n] + [what[n]];
      OwnOthers(steps, what[..n]);
      OwnStep(steps + what[..n], what[n]);
    }
  }

  lemma SpawnsStep(base: seq<Step>, i: nat)
    ensures base + Spawns(0) == base
    ensures base + Spawns(i) + [Spawned] == base + Spawns(i + 1)
  {
  }

  lemma TickBegins(base: seq<Step>, threshold: int, burst: nat)
    ensures base + TickSteps([], threshold, burst) == base
  {
  }

  lemma TickStep(depths: seq<Option<int>>, k: nat, threshold: int, burst: nat)
    requires k < |depths|
    ensures TickSteps(depths[..k + 1], threshold, burst) == TickSteps(depths[..k], threshold, burst) +
              [Inspected(depths[k])] + Spawns(if TooDeep(depths[k], threshold) then burst else 0)
  {
    assert depths[..k + 1][..k] == depths[..k];
  }
}
