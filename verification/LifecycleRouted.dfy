/**
 * Tasks that an exchange routes to the queues of its consumers. Those queues are exclusive and vanish with their
 * consumers, so here, unlike anywhere else, a death can lose a message; this module says exactly when it matters.
 */
module LifecycleRouted {
  import opened Common
  import opened ShardHash
  import opened Messages
  import opened Gateway
  import opened Lifecycle
  import opened LifecycleSafety
  import opened LifecycleIsolation
  import opened LifecycleExact

  /** A copy whose handler has not answered, or that has no handler yet. */
  predicate Waits(c: Copy) {
    c.place.Held? ==> c.place.pc == 0
  }

  /** A consumer of an exchange dies before it has answered a copy of request r. */
  predicate Loses(s: State, e: Event, r: string)
    requires Enabled(s, e)
  {
    e.Crash? && s.copies[e.id].msg.replyTo == r && s.copies[e.id].queue.ExchangeQueue? && Waits(s.copies[e.id])
  }

  /** How many copies of request r the deaths of a run have taken before they were answered. */
  ghost function Lost(s: State, es: seq<Event>, r: string): nat
    requires Runs(s, es)
    decreases |es|
  {
    if es == [] then 0 else (if Loses(s, es[0], r) then 1 else 0) + Lost(Apply(s, es[0]), es[1..], r)
  }

  /** The copies of request r that are still to be answered. */
  ghost function Waiting(s: State, r: string): set<nat> {
    set id | id in s.copies && s.copies[id].msg.replyTo == r && Waits(s.copies[id])
  }

  ghost predicate RoutedCounted(p: State, r: string, lost: nat) {
    r in p.tasks && (Routed(p.tasks[r]) ==> Counted(p, r, lost))
  }

  lemma CountedCrash(p: State, r: string, id: nat, lost: nat)
    requires Solo(p, r) && Routed(p.tasks[r]) && Counted(p, r, lost) && Enabled(p, Crash(id))
    ensures Counted(Apply(p, Crash(id)), r, lost + if Loses(p, Crash(id), r) then 1 else 0)
  {
    hide Script, PickShard, Inv;
    SoloFacts(p, r, id);
    var p' := Apply(p, Crash(id));
    assert p.copies[id].queue.ExchangeQueue?;
    assert p'.copies.Keys == p.copies.Keys - {id};
    if Waits(p.copies[id]) {
      assert Unanswered(p') == Unanswered(p) - {id};
    } else {
      assert Unanswered(p') == Unanswered(p);
    }
  }

  lemma OwnStep(p: State, r: string, e: Event, lost: nat)
    requires Solo(p, r) && RoutedCounted(p, r, lost) && Enabled(p, e) && !e.Submit?
    ensures RoutedCounted(Apply(p, e), r, lost + if Loses(p, e, r) then 1 else 0)
  {
    hide Counted, PathOf, Script, Effect;
    if e.Exec? { ExecState(p, e.id); }
    if Routed(p.tasks[r]) {
      match e
      case Deliver(id, choice) => CountedDeliver(p, r, id, choice, lost);
      case Exec(id) => CountedExec(p, r, id, lost);
      case Crash(id) => CountedCrash(p, r, id, lost);
      case Expire(id) =>
        NotExpiring(p, r, id);
    }
  }

  lemma NotExpiring(p: State, r: string, id: nat)
    requires Solo(p, r) && Routed(p.tasks[r]) && id in p.copies
    ensures !p.copies[id].queue.RetryQueue?
  {
    hide Script, PickShard, Inv;
    SoloFacts(p, r, id);
  }

  lemma OwnSubmit(p: State, r: string, e: Event)
    requires p.copies == map[] && e.Submit? && e.replyTo == r && Enabled(p, e)
    ensures RoutedCounted(Apply(p, e), r, 0)
  {
    hide TaskExact;
    SubmitExact(p, r, e.task);
    AddCopiesFrame(Register(p, r, e.task), FirstQueue(e.task),
                   FirstMessage(e.task.form, r, e.task.corrId), FirstCopies(e.task));
    assert TaskExact(Apply(p, e), r);
    hide Counted, PathOf;
    ExactOrCounted(Apply(p, e), r);
  }

  lemma ExactOrCounted(p: State, r: string)
    requires TaskExact(p, r)
    ensures RoutedCounted(p, r, 0)
  {
    hide Exact, Counted;
  }

  lemma SameTasksCounted(p: State, p': State, r: string, lost: nat)
    requires SameTasks(p, p') && RoutedCounted(p, r, lost)
    ensures RoutedCounted(p', r, lost)
  {
    assert Unanswered(p') == Unanswered(p);
  }

  lemma StepRouted(s: State, e: Event, r: string, lost: nat)
    requires Inv(s) && Enabled(s, e) && if r in s.tasks then RoutedCounted(Project(s, r), r, lost) else lost == 0
    ensures var lost' := lost + if Loses(s, e, r) then 1 else 0;
      if r in Apply(s, e).tasks then RoutedCounted(Project(Apply(s, e), r), r, lost') else lost' == 0
  {
    hide RoutedCounted, Inv, Script, PathOf, Effect, Advance, Apply, Enabled;
    StepIsolated(s, e, r);
    TasksGrow(s, e);
    OwnerKnown(s, e);
    var p := Project(s, r);
    if r in Apply(s, e).tasks {
      if Owner(s, e) != r {
        SameTasksCounted(p, Project(Apply(s, e), r), r, lost);
      } else if e.Submit? {
        NothingBefore(s, r);
        OwnSubmit(p, r, e);
      } else {
        ProjectSolo(s, r);
        OwnStep(p, r, e, lost);
        SameLoss(s, e, r);
      }
    }
  }

  lemma SameLoss(s: State, e: Event, r: string)
    requires Enabled(s, e) && Enabled(Project(s, r), e) && Owner(s, e) == r
    ensures Loses(Project(s, r), e, r) == Loses(s, e, r)
  {
  }

  /** A step is taken for the request named, and that is a known one. */
  lemma OwnerKnown(s: State, e: Event)
    requires Inv(s) && Enabled(s, e)
    ensures !e.Submit? ==> Owner(s, e) in s.tasks && Owner(s, e) in Apply(s, e).tasks
    ensures forall r :: Loses(s, e, r) ==> Owner(s, e) == r && !e.Submit?
    ensures e.Submit? ==> e.replyTo !in s.tasks && Owner(s, e) == e.replyTo
    ensures forall r :: r in s.tasks ==> r in Apply(s, e).tasks
  {
    hide Script, PathOf, Fits, FitsReply, Answered, AddCopies;
    assert !e.Submit? ==> CopyOk(s, s.copies[e.id]);
    match e
    case Submit(r, t) =>
      AddCopiesFrame(Register(s, r, t), FirstQueue(t), FirstMessage(t.form, r, t.corrId), FirstCopies(t));
    case Exec(id) => ExecState(s, id);
    case _ =>
  }

  lemma {:induction false} RunRouted(s: State, es: seq<Event>, r: string, lost: nat)
    requires Inv(s) && Runs(s, es) && if r in s.tasks then RoutedCounted(Project(s, r), r, lost) else lost == 0
    ensures var lost' := lost + Lost(s, es, r);
      if r in After(s, es).tasks then RoutedCounted(Project(After(s, es), r), r, lost') else lost' == 0
    decreases |es|
  {
    hide Inv, RoutedCounted, Apply, Enabled, Project, Loses;
    if es != [] {
      StepInv(s, es[0]);
      StepRouted(s, es[0], r, lost);
      RunRouted(Apply(s, es[0]), es[1..], r, lost + if Loses(s, es[0], r) then 1 else 0);
    }
  }

  /**
   * Every copy of a routed task is waiting, answered or lost, and nothing is both, in every run, deaths included;
   * every answer is a success.
   */
  lemma RoutedExact(es: seq<Event>, r: string)
    requires Runs(START, es) && r in After(START, es).tasks && Routed(After(START, es).tasks[r])
    ensures var s := After(START, es);
      && r in s.replies && |Waiting(s, r)| + |s.replies[r]| + Lost(START, es, r) == s.tasks[r].routes
      && forall i :: 0 <= i < |s.replies[r]| ==> s.replies[r][i].status == Succeeded
  {
    var s := After(START, es);
    StartInv();
    RunRouted(START, es, r, 0);
    hide *;
    ReachableInv(es);
    RepliesSucceed(s, r);
    CountWaiting(s, r, Lost(START, es, r));
  }

  lemma CountWaiting(s: State, r: string, lost: nat)
    requires r in s.tasks && r in s.replies && Routed(s.tasks[r]) && RoutedCounted(Project(s, r), r, lost)
    ensures |Waiting(s, r)| + |s.replies[r]| + lost == s.tasks[r].routes
  {
    hide Routed;
    WaitingIsUnanswered(s, r);
    assert Counted(Project(s, r), r, lost);
  }

  lemma WaitingIsUnanswered(s: State, r: string)
    ensures Waiting(s, r) == Unanswered(Project(s, r))
  {
  }

  lemma RepliesSucceed(s: State, r: string)
    requires Inv(s) && r in s.tasks && Routed(s.tasks[r])
    ensures r in s.replies && forall i :: 0 <= i < |s.replies[r]| ==> s.replies[r][i].status == Succeeded
  {
    hide Script, PickShard, Kept, CopyOk;
    assert RepliesOk(s.tasks[r], s.replies[r]);
  }

  /**
   * A routed task has been answered or still has a live copy iff fewer consumers died on it, before they answered,
   * than there were queues it was routed to.
   */
  lemma RoutedIff(es: seq<Event>, r: string)
    requires Runs(START, es) && r in After(START, es).tasks && Routed(After(START, es).tasks[r])
    ensures Delivered(After(START, es), r) <==> Lost(START, es, r) < After(START, es).tasks[r].routes
  {
    var s := After(START, es);
    RoutedExact(es, r);
    hide Lost, Runs, After;
    ReachableInv(es);
    DeliveredIff(s, r);
  }

  lemma DeliveredIff(s: State, r: string)
    requires Inv(s) && r in s.tasks && r in s.replies && Routed(s.tasks[r])
    requires forall i :: 0 <= i < |s.replies[r]| ==> s.replies[r][i].status == Succeeded
    ensures Delivered(s, r) <==> |Waiting(s, r)| + |s.replies[r]| > 0
  {
    hide Script, PickShard, Kept, FitsReply;
    if s.replies[r] != [] {
      assert Terminal(s.replies[r][0]);
    } else if id :| id in Waiting(s, r) {
      assert Carries(s, r, id) && Live(s.copies[id]);
    } else {
      assert Waiting(s, r) == {};
      forall id | id in s.copies ensures s.copies[id].msg.replyTo != r {
        assert CopyOk(s, s.copies[id]) && id !in Waiting(s, r);
      }
    }
  }

  // ---- the losing runs ---------------------------------------------------------------------

  /** All copies there are wait in exchange queues, ready for request r. */
  ghost predicate AllReady(s: State, r: string) {
    forall id :: id in s.copies ==>
      s.copies[id].queue.ExchangeQueue? && s.copies[id].place.Ready? && s.copies[id].msg.replyTo == r
  }

  /** Each copy is delivered, and its consumer dies before it answers. */
  lemma {:induction false} LoseAll(s: State, r: string) returns (es: seq<Event>)
    requires AllReady(s, r)
    ensures Runs(s, es) && |es| == 2 * |s.copies|
    ensures After(s, es) == s.(copies := map[])
    decreases |s.copies|
  {
    hide Script;
    if s.copies == map[] {
      es := [];
    } else {
      var id :| id in s.copies;
      var choice := Choice("worker", false, true);
      var s1 := Apply(s, Deliver(id, choice));
      var s2 := Apply(s1, Crash(id));
      assert s2.copies == s.copies - {id};
      assert s2 == s.(copies := s.copies - {id});
      var rest := LoseAll(s2, r);
      es := [Deliver(id, choice), Crash(id)] + rest;
      assert es[1..] == [Crash(id)] + rest && es[1..][1..] == rest;
    }
  }

  lemma {:induction false} AddCopiesReady(s: State, q: Queue, m: Message, n: nat)
    requires q.ExchangeQueue? && s.copies == map[]
    ensures AllReady(AddCopies(s, q, m, n), m.replyTo)
  {
    if n > 0 { AddCopiesReady(s, q, m, n - 1); }
  }

  /** Any task that an exchange routes can be accepted, delivered to every queue, and never be answered. */
  lemma RoutedTaskLost(r: string, task: Task) returns (es: seq<Event>)
    requires r != "" && Routed(task)
    ensures Runs(START, es) && |es| == 1 + 2 * task.routes
    ensures var s := After(START, es);
      r in s.tasks && s.tasks[r] == task && !Delivered(s, r) && Lost(START, es, r) == task.routes
  {
    var p0, q, m := Register(START, r, task), FirstQueue(task), FirstMessage(task.form, r, task.corrId);
    var s1 := Apply(START, Submit(r, task));
    AddCopiesReady(p0, q, m, task.routes);
    AddCopiesFrame(p0, q, m, task.routes);
    FreshCounted(p0, q, m, task.routes);
    var rest := LoseAll(s1, r);
    es := [Submit(r, task)] + rest;
    assert es[1..] == rest;
    var s := After(START, es);
    assert s.copies == map[] && s.replies[r] == [];
    RoutedExact(es, r);
    assert Waiting(s, r) == {};
  }
}
