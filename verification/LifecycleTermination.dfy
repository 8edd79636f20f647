/**
 * Runs end: a measure over the whole broker state strictly decreases with every crash-free step that is not
 * a submission, and where no step is left every accepted task has its complete transcript.
 */
module LifecycleTermination {
  import opened Common
  import opened ShardHash
  import opened Messages
  import opened Gateway
  import opened Lifecycle
  import opened LifecycleSafety
  import opened LifecycleIsolation
  import opened LifecycleExact
  import opened LifecycleTheorems
  import opened LifecycleRouted

  /** The copy that an operation puts into a queue, if it does. */
  function Spawned(c: Copy, op: Op): Option<Copy> {
    match op
    case Republish(m) => Some(Copy(c.queue, m, Ready))
    case Nack => Some(Copy(DeadLetterTarget(c.queue), c.msg, Ready))
    case Forward(m) => Some(Copy(DeadLetterQueue, m, Ready))
    case _ => None
  }

  /** A sum over all copies, after one operation of one handler. */
  lemma ExecSum(s: State, id: nat, f: Copy -> int)
    requires Inv(s) && Enabled(s, Exec(id))
    requires s.copies[id].place.pc + 1 == |ScriptOf(s.copies[id])| ==> f(Moved(s.copies[id])) == 0
    ensures var c := s.copies[id];
      var spawned := Spawned(c, ScriptOf(c)[c.place.pc]);
      Sum(Apply(s, Exec(id)).copies, f) ==
      Sum(s.copies, f) - f(c) + f(Moved(c)) + if spawned.Some? then f(spawned.value) else 0
  {
    var c := s.copies[id];
    var op := ScriptOf(c)[c.place.pc];
    var spawned := Spawned(c, op);
    ExecState(s, id);
    SoloIdentity(s, id);
    ScriptShape(c, c.place.pc);
    hide Script, PathOf, Inv, Apply, SettleAt, HandoverAt;
    var m := if spawned.Some? then s.copies[s.nextId := spawned.value] else s.copies;
    if spawned.Some? { SumUpdate(s.copies, f, s.nextId, spawned.value); }
    if c.place.pc + 1 < |ScriptOf(c)| {
      SumUpdate(m, f, id, Moved(c));
    } else {
      SumSplit(m, f, id);
    }
  }

  lemma SoloIdentity(s: State, id: nat)
    requires Inv(s) && id in s.copies
    ensures FreshIds(s) && s.copies[id].msg.replyTo in s.tasks && s.copies[id].msg.replyTo != ""
    ensures Fits(s.tasks[s.copies[id].msg.replyTo], s.copies[id])
  {
  }

  // ---- the measure ---------------------------------------------------------------------

  /** The most steps a ready message can still cause: retry > shard, resilient > dead letters, and so on. */
  function ReadyCost(q: Queue, m: Message): nat {
    match q
    case ShardQueue(_) => 8
    case DeadLetterQueue => 6
    case ExchangeQueue(_) => 6
    case ResilientQueue(_) => 9
    case ReturnChannel => 14
    case RetryQueue(_) => 9 + 7 * (if RetryCount(m) < RETRY_LIMIT then RETRY_LIMIT - RetryCount(m) else 0)
  }

  /** What the handler of a copy still has to put into a queue. */
  function Pending(c: Copy): nat
    requires c.place.Held?
  {
    if Retries(c) then
      if c.place.choice.publishOk then ReadyCost(c.queue, c.msg) - 7 else ReadyCost(DeadLetterTarget(c.queue), c.msg)
    else if c.queue.ResilientQueue? && Verdict(c) == DeadLettered then ReadyCost(DeadLetterQueue, c.msg)
    else if c.queue.ReturnChannel? then ReadyCost(DeadLetterQueue, c.msg)
    else 0
  }

  /** The remaining operations of the handler, and all that its spawned copy can cause. */
  function Cost(c: Copy): int {
    if c.place.Ready? then ReadyCost(c.queue, c.msg)
    else |ScriptOf(c)| - c.place.pc + if c.place.pc <= HandoverAt(c) then Pending(c) else 0
  }

  ghost function Measure(s: State): int {
    Sum(s.copies, Cost)
  }

  lemma DeliverCost(c: Copy, choice: Choice)
    requires c.place.Ready? && c.msg.replyTo != ""
    ensures Cost(c.(place := Held(choice, 0))) < Cost(c)
  {
  }

  /** One operation of a script pays for itself and for what it spawns. */
  lemma ExecCost(c: Copy)
    requires c.place.Held? && c.msg.replyTo != "" && c.place.pc < |ScriptOf(c)|
    ensures var spawned := Spawned(c, ScriptOf(c)[c.place.pc]);
      Cost(Moved(c)) + (if spawned.Some? then Cost(spawned.value) else 0) < Cost(c)
    ensures c.place.pc + 1 == |ScriptOf(c)| ==> Cost(Moved(c)) == 0
  {
    hide Script;
    ScriptShape(c, c.place.pc);
  }

  lemma MeasureNonNegative(s: State)
    requires Inv(s)
    ensures Measure(s) >= 0
  {
    hide PathOf, Fits, FitsReply, Answered, Script;
    forall id | id in s.copies ensures Cost(s.copies[id]) >= 0 {
      assert CopyOk(s, s.copies[id]);
    }
    SumNonNegative(s.copies, Cost);
  }

  lemma StepTerminates(s: State, e: Event)
    requires Inv(s) && Enabled(s, e) && !e.Submit? && !e.Crash?
    ensures Measure(Apply(s, e)) < Measure(s)
  {
    hide Script, PathOf, Inv, Cost;
    match e
    case Deliver(id, choice) =>
      SoloIdentity(s, id);
      DeliverCost(s.copies[id], choice);
      SumUpdate(s.copies, Cost, id, s.copies[id].(place := Held(choice, 0)));
    case Expire(id) =>
      var c := s.copies[id];
      ExpireCost(c);
      SumUpdate(s.copies, Cost, id, c.(queue := DeadLetterTarget(c.queue)));
    case Exec(id) =>
      SoloIdentity(s, id);
      ExecCost(s.copies[id]);
      ExecSum(s, id, Cost);
  }

  lemma ExpireCost(c: Copy)
    requires c.place.Ready? && c.queue.RetryQueue?
    ensures Cost(c.(queue := DeadLetterTarget(c.queue))) < Cost(c)
  {
  }

  /** Nothing but submissions and crashes is left to happen. */
  ghost predicate Quiet(s: State) {
    forall e: Event :: Enabled(s, e) ==> e.Submit? || e.Crash?
  }

  /** Every copy has a next step. */
  lemma NextStep(s: State, id: nat) returns (e: Event)
    requires Inv(s) && id in s.copies
    ensures Enabled(s, e) && !e.Submit? && !e.Crash? && !e.Expire? && e.id == id
  {
    hide PathOf, Fits, FitsReply, Answered, Script;
    assert CopyOk(s, s.copies[id]);
    e := if s.copies[id].place.Ready? then Deliver(id, Choice("worker", false, true)) else Exec(id);
  }

  lemma QuietIsEmpty(s: State)
    requires Inv(s) && Quiet(s)
    ensures s.copies == map[]
  {
    hide Inv, Enabled;
    if id :| id in s.copies {
      var e := NextStep(s, id);
    }
  }

  /** The most that a death can add: all that a first retry message can still cause. */
  const REQUEUE_COST := 30

  lemma CrashCost(t: Task, c: Copy)
    requires c.place.Held? && c.place.pc < |ScriptOf(c)| && Fits(t, c)
    ensures 0 <= Cost(c) && Cost(c.(place := Ready)) <= REQUEUE_COST
  {
    hide Script, PickShard;
  }

  /** A death gives back what its handler had done, and that is bounded. */
  lemma CrashMeasure(s: State, id: nat)
    requires Inv(s) && Enabled(s, Crash(id))
    ensures Measure(Apply(s, Crash(id))) <= Measure(s) + REQUEUE_COST
  {
    hide Script, PathOf, Fits, FitsReply, Answered, Cost;
    var c := s.copies[id];
    assert CopyOk(s, c);
    ReadyIsPositive(c);
    if c.place.Held? { CrashCost(s.tasks[c.msg.replyTo], c); }
    if id in Apply(s, Crash(id)).copies {
      SumUpdate(s.copies, Cost, id, c.(place := Ready));
    } else {
      SumSplit(s.copies, Cost, id);
    }
  }

  lemma ReadyIsPositive(c: Copy)
    ensures c.place.Ready? ==> Cost(c) > 0
  {
  }

  /**
   * Once submissions stop, a system in which k handlers die takes at most Measure(s) + 31 * k more steps, their
   * deaths included.
   */
  lemma {:induction false} BoundedRuns(s: State, es: seq<Event>)
    requires Inv(s) && Runs(s, es)
    requires forall i :: 0 <= i < |es| ==> !es[i].Submit?
    ensures |es| + Measure(After(s, es)) <= Measure(s) + (REQUEUE_COST + 1) * Crashes(es)
    ensures Measure(After(s, es)) >= 0
    decreases |es|
  {
    hide Inv, Apply, Enabled, Measure;
    if es != [] {
      if es[0].Crash? { CrashMeasure(s, es[0].id); } else { StepTerminates(s, es[0]); }
      StepInv(s, es[0]);
      BoundedRuns(Apply(s, es[0]), es[1..]);
    } else {
      MeasureNonNegative(s);
    }
  }

  /**
   * Where a run can go no further, deaths or not, no message is left anywhere and every accepted task has been
   * answered, a routed one once for each of its queues that was not lost; a task none of whose own handlers died
   * has exactly its complete transcript.
   */
  lemma Quiescence(es: seq<Event>, r: string)
    requires Runs(START, es) && Quiet(After(START, es)) && r in After(START, es).tasks
    ensures var s := After(START, es);
      && s.copies == map[] && r in s.replies
      && (Routed(s.tasks[r]) ==> |s.replies[r]| == s.tasks[r].routes - Lost(START, es, r))
      && (Answered(s.replies[r]) <==> !Routed(s.tasks[r]) || Lost(START, es, r) < s.tasks[r].routes)
    ensures Unharmed(START, es, r) ==>
      var s := After(START, es);
      if Single(s.tasks[r]) then Done(s.tasks[r], s.replies[r]) else |s.replies[r]| == s.tasks[r].routes
  {
    var s := After(START, es);
    StartInv();
    RunInv(START, es);
    QuietIsEmpty(s);
    if Routed(s.tasks[r]) {
      RoutedExact(es, r);
      assert Waiting(s, r) == {};
      AnsweredIff(s.replies[r]);
    }
    hide Runs, After, PathOf, Script, Answered, Done, Transcript, FitsReply, Fits, Lost, Waiting;
    assert Kept(s, r);
    assert forall id :: !Carries(s, r, id);
    if Unharmed(START, es, r) {
      ReachableExact(es, r);
      assert Project(s, r).copies == map[];
      assert Unanswered(Project(s, r)) == {};
    }
  }

  lemma AnsweredIff(reps: seq<Reply>)
    requires forall i :: 0 <= i < |reps| ==> reps[i].status == Succeeded
    ensures Answered(reps) <==> |reps| > 0
  {
    if |reps| > 0 { assert Terminal(reps[0]); }
  }
}
