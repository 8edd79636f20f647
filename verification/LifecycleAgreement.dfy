/**
 * When all final replies of a retrying task agree although its handlers may die: exactly as long as no handler
 * of it dies in a window between handing the task over, or answering it for good, and its ack.
 */
module LifecycleAgreement {
  import opened Common
  import opened ShardHash
  import opened Messages
  import opened Gateway
  import opened Lifecycle
  import opened LifecycleSafety
  import opened LifecycleIsolation
  import opened LifecycleExact

  /** A retry handler that is done with the task, but has not told the broker so. */
  predicate Exposed(c: Copy) {
    && c.queue.RetryQueue? && c.place.Held? && Live(c)
    && if Retries(c) then c.place.choice.publishOk && c.place.pc > 1 else c.place.pc > 0
  }

  /** No handler of request r dies while it is exposed; at any other moment it may. */
  ghost predicate Sheltered(s: State, es: seq<Event>, r: string)
    requires Runs(s, es)
    decreases |es|
  {
    es == [] || (
      && (es[0].Crash? && Owner(s, es[0]) == r ==> !Exposed(s.copies[es[0].id]))
      && Sheltered(Apply(s, es[0]), es[1..], r))
  }

  ghost predicate OneVerdict(reps: seq<Reply>) {
    forall i, j :: 0 <= i < |reps| && 0 <= j < |reps| && Terminal(reps[i]) && Terminal(reps[j]) ==>
      reps[i].status == reps[j].status
  }

  /** The only final status a task can have been told while its carrier is at c. */
  function ToldAt(c: Copy): Option<Status> {
    if !c.queue.RetryQueue? then Some(Succeeded)
    else if c.place.Held? && !Retries(c) && c.place.pc > 0 then Some(DeadLettered)
    else None
  }

  ghost predicate FinalsAre(reps: seq<Reply>, verdict: Option<Status>) {
    forall i :: 0 <= i < |reps| && Terminal(reps[i]) ==> verdict == Some(reps[i].status)
  }

  /** One carrier at most, and final replies that agree with each other and with its position. */
  ghost predicate Agreeing(p: State, r: string) {
    && r in p.tasks && r in p.replies
    && OneVerdict(p.replies[r])
    && (forall i, j :: i in p.copies && j in p.copies && Carrier(p.copies[i]) && Carrier(p.copies[j]) ==> i == j)
    && (forall j :: j in p.copies && Carrier(p.copies[j]) ==> FinalsAre(p.replies[r], ToldAt(p.copies[j])))
  }

  /** A copy changes without becoming a carrier anew; if it goes on carrying, the replies go with it. */
  lemma AgreeMove(p: State, p': State, r: string, id: nat, c: Copy)
    requires Agreeing(p, r) && id in p.copies && (Carrier(c) ==> Carrier(p.copies[id]))
    requires p'.tasks == p.tasks && p'.copies == p.copies[id := c] && r in p'.replies
    requires if Carrier(c) then FinalsAre(p'.replies[r], ToldAt(c)) else p'.replies == p.replies
    ensures Agreeing(p', r)
  {
  }

  /** The carrier is gone, or carries no more, and a new copy takes its place. */
  lemma AgreePassOn(p: State, p': State, r: string, id: nat, c: Copy)
    requires Agreeing(p, r) && FreshIds(p) && id in p.copies && Carrier(p.copies[id])
    requires p'.tasks == p.tasks && p'.replies == p.replies && FinalsAre(p.replies[r], ToldAt(c))
    requires p'.copies == p.copies[p.nextId := c] - {id} ||
             (id in p'.copies && !Carrier(p'.copies[id]) && p'.copies == p.copies[p.nextId := c][id := p'.copies[id]])
    ensures Agreeing(p', r)
  {
  }

  lemma AgreeRemove(p: State, p': State, r: string, id: nat)
    requires Agreeing(p, r) && p'.tasks == p.tasks && p'.replies == p.replies && p'.copies == p.copies - {id}
    ensures Agreeing(p', r)
  {
  }

  /** The final reply of a carrier is the one its position calls for. */
  lemma AnswerAgrees(c: Copy, reps: seq<Reply>, reply: Reply)
    requires c.queue.RetryQueue? || c.queue.ShardQueue?
    requires c.place.Held? && c.place.pc == 0 && FinalsAre(reps, ToldAt(c)) && reply.status == Verdict(c)
    ensures FinalsAre(reps + [reply], ToldAt(Moved(c)))
  {
  }

  lemma ExecAgrees(p: State, r: string, id: nat)
    requires Solo(p, r) && PathOf(p.tasks[r].form).RetryPath? && Agreeing(p, r) && Enabled(p, Exec(id))
    ensures Agreeing(Apply(p, Exec(id)), r)
  {
    hide Script, PathOf, Inv, Agreeing, Effect, Advance, FinalsAre;
    var c := p.copies[id];
    var op := ScriptOf(c)[c.place.pc];
    var p' := Apply(p, Exec(id));
    ExecState(p, id);
    SoloFacts(p, r, id);
    ScriptShape(c, c.place.pc);
    hide Fits, Apply;
    if Carrier(c) { CarrierTold(p, r, id); }
    if op.Answer? {
      AnswerAgrees(c, p.replies[r], op.reply);
      AgreeMove(p, p', r, id, Moved(c));
    } else if op.Republish? {
      AgreePassOn(p, p', r, id, Copy(c.queue, op.msg, Ready));
    } else if op.Nack? {
      NoneYet(p.replies[r], Some(Succeeded));
      AgreePassOn(p, p', r, id, Copy(DeadLetterTarget(c.queue), c.msg, Ready));
    } else if c.place.pc + 1 < |ScriptOf(c)| {
      AgreeMove(p, p', r, id, Moved(c));
    } else {
      AgreeRemove(p, p', r, id);
    }
  }

  lemma CarrierTold(p: State, r: string, id: nat)
    requires Agreeing(p, r) && id in p.copies && Carrier(p.copies[id])
    ensures FinalsAre(p.replies[r], ToldAt(p.copies[id]))
  {
  }

  lemma NoneYet(reps: seq<Reply>, verdict: Option<Status>)
    requires FinalsAre(reps, None)
    ensures FinalsAre(reps, verdict)
  {
  }

  /** A delivery, an expiry, or a crash outside the window. */
  lemma OtherAgrees(p: State, r: string, e: Event)
    requires Solo(p, r) && PathOf(p.tasks[r].form).RetryPath? && Agreeing(p, r) && Enabled(p, e)
    requires e.Deliver? || e.Expire? || (e.Crash? && !Exposed(p.copies[e.id]))
    ensures Agreeing(Apply(p, e), r)
  {
    hide Script, PathOf, Inv, Agreeing, FinalsAre;
    var c := p.copies[e.id];
    SoloFacts(p, r, e.id);
    if Carrier(c) { CarrierTold(p, r, e.id); }
    if e.Deliver? {
      ScriptNonempty(c.(place := Held(e.choice, 0)));
      AgreeMove(p, Apply(p, e), r, e.id, c.(place := Held(e.choice, 0)));
    } else if e.Expire? {
      NoneYet(p.replies[r], Some(Succeeded));
      AgreeMove(p, Apply(p, e), r, e.id, c.(queue := DeadLetterTarget(c.queue)));
    } else if Live(c) {
      AgreeMove(p, Apply(p, e), r, e.id, c.(place := Ready));
    } else {
      AgreeRemove(p, Apply(p, e), r, e.id);
    }
  }

  lemma SubmitAgrees(p: State, r: string, t: Task)
    requires p.copies == map[] && Enabled(p, Submit(r, t)) && PathOf(t.form).RetryPath?
    ensures Agreeing(Apply(p, Submit(r, t)), r)
  {
    hide PickShard, Script;
    var p0 := Register(p, r, t);
    var q, m := FirstQueue(t), FirstMessage(t.form, r, t.corrId);
    assert AddCopies(p0, q, m, 1) == AddCopy(AddCopies(p0, q, m, 0), q, m) == AddCopy(p0, q, m);
  }

  ghost predicate RetryAgreeing(p: State, r: string) {
    r in p.tasks && (PathOf(p.tasks[r].form).RetryPath? ==> Agreeing(p, r))
  }

  lemma SameTasksAgree(p: State, p': State, r: string)
    requires SameTasks(p, p') && RetryAgreeing(p, r)
    ensures RetryAgreeing(p', r)
  {
  }

  lemma StepAgrees(s: State, e: Event, r: string)
    requires Inv(s) && Enabled(s, e) && (r in s.tasks ==> RetryAgreeing(Project(s, r), r))
    requires e.Crash? && Owner(s, e) == r ==> !Exposed(s.copies[e.id])
    ensures r in Apply(s, e).tasks ==> RetryAgreeing(Project(Apply(s, e), r), r)
  {
    hide RetryAgreeing, Inv, Script, PathOf, Effect, Advance, Exposed;
    if r in Apply(s, e).tasks {
      StepIsolated(s, e, r);
      TasksGrow(s, e);
      var p := Project(s, r);
      if Owner(s, e) != r {
        SameTasksAgree(p, Project(Apply(s, e), r), r);
      } else if e.Submit? {
        NothingBefore(s, r);
        OwnSubmitAgrees(p, e, r);
      } else {
        ProjectSolo(s, r);
        assert e.Crash? ==> p.copies[e.id] == s.copies[e.id];
        hide Project;
        OwnStepAgrees(p, e, r);
      }
    }
  }

  lemma OwnSubmitAgrees(p: State, e: Event, r: string)
    requires p.copies == map[] && e.Submit? && e.replyTo == r && Enabled(p, e)
    ensures RetryAgreeing(Apply(p, e), r)
  {
    hide Agreeing, PathOf;
    AddCopiesFrame(Register(p, r, e.task), FirstQueue(e.task),
                   FirstMessage(e.task.form, r, e.task.corrId), FirstCopies(e.task));
    if PathOf(e.task.form).RetryPath? { SubmitAgrees(p, r, e.task); }
  }

  lemma OwnStepAgrees(p: State, e: Event, r: string)
    requires Solo(p, r) && RetryAgreeing(p, r) && Enabled(p, e) && !e.Submit?
    requires e.Crash? ==> !Exposed(p.copies[e.id])
    ensures RetryAgreeing(Apply(p, e), r)
  {
    hide Agreeing, PathOf, Exposed, Script, Effect;
    if e.Exec? {
      ExecState(p, e.id);
      if PathOf(p.tasks[r].form).RetryPath? { ExecAgrees(p, r, e.id); }
    } else if PathOf(p.tasks[r].form).RetryPath? {
      OtherAgrees(p, r, e);
    }
  }

  lemma {:induction false} RunAgrees(s: State, es: seq<Event>, r: string)
    requires Inv(s) && Runs(s, es) && Sheltered(s, es, r) && (r in s.tasks ==> RetryAgreeing(Project(s, r), r))
    ensures r in After(s, es).tasks ==> RetryAgreeing(Project(After(s, es), r), r)
    decreases |es|
  {
    hide Inv, RetryAgreeing, Apply, Enabled, Project, Exposed;
    if es != [] {
      StepInv(s, es[0]);
      StepAgrees(s, es[0], r);
      RunAgrees(Apply(s, es[0]), es[1..], r);
    }
  }

  /**
   * Whatever the interleaving and however many handlers die outside the window, all final replies that any
   * request ever gets have one status, the one the client is told.
   */
  lemma FinalsAgree(es: seq<Event>, r: string)
    requires Runs(START, es) && Sheltered(START, es, r) && r in After(START, es).tasks
    ensures r in After(START, es).replies && OneVerdict(After(START, es).replies[r])
  {
    var s := After(START, es);
    StartInv();
    RunAgrees(START, es, r);
    hide *;
    ReachableInv(es);
    VerdictOf(es, s, r);
  }

  lemma VerdictOf(es: seq<Event>, s: State, r: string)
    requires Runs(START, es) && s == After(START, es) && Inv(s) && r in s.tasks && RetryAgreeing(Project(s, r), r)
    ensures r in s.replies && OneVerdict(s.replies[r])
  {
  }
}
