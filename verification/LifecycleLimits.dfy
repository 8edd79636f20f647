/**
 * Where the guarantees end. One crash of an exposed retry handler leaves two carriers of the same task, and they
 * can answer it both ways.
 */
module LifecycleLimits {
  import opened Common
  import opened ShardHash
  import opened Messages
  import opened Gateway
  import opened Lifecycle
  import opened LifecycleSafety
  import opened LifecycleIsolation
  import opened LifecycleExact
  import opened LifecycleTermination
  import opened LifecycleAgreement

  lemma {:induction false} CrashesOn(es: seq<Event>, e: Event)
    ensures Crashes(es + [e]) == Crashes(es) + if e.Crash? then 1 else 0
  {
    if es != [] {
      CrashesOn(es[1..], e);
      assert (es + [e])[1..] == es[1..] + [e];
    }
  }

  lemma {:induction false} RunsOn(s: State, es: seq<Event>, e: Event)
    requires Runs(s, es) && Enabled(After(s, es), e)
    ensures Runs(s, es + [e]) && After(s, es + [e]) == Apply(After(s, es), e)
    decreases |es|
  {
    hide Apply, Enabled;
    if es != [] {
      RunsOn(Apply(s, es[0]), es[1..], e);
      assert (es + [e])[1..] == es[1..] + [e];
    }
  }

  /** A run from the start, with the state it leads to. */
  datatype Trace = Trace(es: seq<Event>, s: State)

  ghost predicate Valid(t: Trace) {
    Runs(START, t.es) && t.s == After(START, t.es) && Inv(t.s)
  }

  lemma ValidNext(t: Trace, e: Event)
    requires Valid(t) && Enabled(t.s, e)
    ensures Valid(Trace(t.es + [e], Apply(t.s, e)))
    ensures Crashes(t.es + [e]) == Crashes(t.es) + if e.Crash? then 1 else 0
  {
    CrashesOn(t.es, e);
    hide Runs, After, Inv, Apply, Enabled;
    RunsOn(START, t.es, e);
    StepInv(t.s, e);
  }

  /** t' is t continued without any crash. */
  ghost predicate Calmly(t: Trace, t': Trace) {
    Valid(t') && t.es <= t'.es && Crashes(t'.es) == Crashes(t.es)
  }

  lemma CalmlyOn(t: Trace, t1: Trace, t2: Trace)
    requires Calmly(t, t1) && Calmly(t1, t2)
    ensures Calmly(t, t2)
  {
  }

  ghost function Next(t: Trace, e: Event): (t': Trace)
    requires Valid(t) && Enabled(t.s, e)
    ensures Valid(t') && t'.s == Apply(t.s, e) && t'.es == t.es + [e]
    ensures Crashes(t'.es) == Crashes(t.es) + if e.Crash? then 1 else 0
    ensures !e.Crash? ==> Calmly(t, t')
  {
    hide Runs, After, Inv, Apply, Enabled, Crashes;
    ValidNext(t, e);
    Trace(t.es + [e], Apply(t.s, e))
  }

  const CALM := Choice("worker", false, true)

  /** A ready copy of task r in a retry or shard queue. */
  ghost predicate ReadyAt(s: State, r: string, id: nat, q: Queue, n: int) {
    id in s.copies && s.copies[id].place.Ready? && s.copies[id].queue == q &&
    s.copies[id].msg.replyTo == r && RetryCount(s.copies[id].msg) == n
  }

  /** Deliver a copy and let its handler answer. */
  lemma Answering(t: Trace, r: string, id: nat, q: Queue, n: int) returns (t': Trace, reply: Reply)
    requires Valid(t) && ReadyAt(t.s, r, id, q, n) && (q.RetryQueue? || q.ShardQueue?)
    ensures Calmly(t, t') && t'.es == t.es + [Deliver(id, CALM), Exec(id)]
    ensures r in t.s.replies && t'.s.replies == t.s.replies[r := t.s.replies[r] + [reply]]
    ensures t'.s.copies == t.s.copies[id := t.s.copies[id].(place := Held(CALM, 1))] && t'.s.nextId == t.s.nextId
    ensures reply.status == if q.ShardQueue? then Succeeded else if n < RETRY_LIMIT then Retrying else DeadLettered
  {
    hide Script, PathOf, Inv, Valid, Calmly;
    ValidInv(t);
    SoloFactsOf(t.s, id);
    var t1 := Next(t, Deliver(id, CALM));
    assert t1.s == t.s.(copies := t.s.copies[id := t.s.copies[id].(place := Held(CALM, 0))]);
    ValidInv(t1);
    AnswerStep(t1.s, id);
    t' := Next(t1, Exec(id));
    CalmlyOn(t, t1, t');
    hide Apply, Enabled;
    reply := t'.s.replies[r][|t.s.replies[r]|];
  }

  lemma ValidRuns(t: Trace)
    requires Valid(t)
    ensures Runs(START, t.es) && t.s == After(START, t.es)
  {
  }

  lemma CalmlyRuns(t: Trace, t': Trace)
    requires Calmly(t, t')
    ensures Valid(t') && Crashes(t'.es) == Crashes(t.es)
  {
  }

  lemma ValidInv(t: Trace)
    requires Valid(t)
    ensures Inv(t.s)
  {
  }

  /** The first step of a handler in a retry or shard queue. */
  lemma AnswerStep(s: State, id: nat)
    requires Inv(s) && id in s.copies && s.copies[id].place == Held(CALM, 0)
    requires s.copies[id].queue.RetryQueue? || s.copies[id].queue.ShardQueue?
    ensures Enabled(s, Exec(id)) && s.copies[id].msg.replyTo in s.replies
    ensures var c, s' := s.copies[id], Apply(s, Exec(id));
      var r := c.msg.replyTo;
      && s'.nextId == s.nextId && s'.copies == s.copies[id := c.(place := Held(CALM, 1))]
      && s'.replies == s.replies[r := s.replies[r] +
           [Reply(c.msg.corrId, Verdict(c), if Retries(c) then RetryCount(c.msg) + 1 else 0)]]
  {
    hide Script, PathOf, Inv;
    var c := s.copies[id];
    SoloFactsOf(s, id);
    ScriptNonempty(c);
    ScriptShape(c, 0);
    hide Verdict, Retries;
  }

  lemma SoloFactsOf(s: State, id: nat)
    requires Inv(s) && id in s.copies
    ensures id < s.nextId && s.copies[id].msg.replyTo in s.replies && s.copies[id].msg.replyTo != ""
  {
  }

  /** Deliver a retry copy; its handler answers and republishes, and has yet to ack. */
  lemma Republishing(t: Trace, r: string, id: nat, q: Queue, n: int) returns (t': Trace, reply: Reply)
    requires Valid(t) && ReadyAt(t.s, r, id, q, n) && q.RetryQueue? && n < RETRY_LIMIT
    ensures Calmly(t, t') && t'.es == t.es + [Deliver(id, CALM), Exec(id), Exec(id)]
    ensures r in t.s.replies && t'.s.replies == t.s.replies[r := t.s.replies[r] + [reply]] && t.s.nextId != id
    ensures ReadyAt(t'.s, r, t.s.nextId, q, n + 1)
    ensures OneMore(t.s, t'.s, id) && Exposed(t'.s.copies[id])
  {
    ValidInv(t);
    SoloFactsOf(t.s, id);
    var t1;
    t1, reply := Answering(t, r, id, q, n);
    CalmlyRuns(t, t1);
    ValidInv(t1);
    assert Retries(t1.s.copies[id]);
    hide *;
    RepublishStep(t1.s, id);
    t' := Next(t1, Exec(id));
    CalmlyOn(t, t1, t');
    Republished(t.s, t1.s, t'.s, r, id, q, n);
  }

  /** A copy is added; of the others, only the given one has changed, and that only in its place. */
  ghost predicate OneMore(s: State, s': State, id: nat) {
    && s'.nextId == s.nextId + 1
    && (forall k :: k in s'.copies <==> k in s.copies || k == s.nextId)
    && (forall k :: k in s.copies && k in s'.copies && k != id && k != s.nextId ==> s'.copies[k] == s.copies[k])
    && id in s.copies && id in s'.copies && s'.copies[id] == s.copies[id].(place := Held(CALM, 2))
  }

  /** What Exec does to the copies when a handler republishes. */
  ghost predicate RepublishEffect(s: State, s': State, id: nat) {
    && s'.replies == s.replies && s'.nextId == s.nextId + 1 && id in s.copies
    && var c := s.copies[id];
       var m := c.msg.(retryHeader := Some(RetryCount(c.msg) + 1), forceFail := false);
       s'.copies == s.copies[s.nextId := Copy(c.queue, m, Ready)][id := c.(place := Held(CALM, 2))]
  }

  /** One step of a retry handler that has answered and is about to republish. */
  lemma RepublishStep(s: State, id: nat)
    requires Inv(s) && id in s.copies && s.copies[id].place == Held(CALM, 1) && Retries(s.copies[id])
    ensures Enabled(s, Exec(id)) && RepublishEffect(s, Apply(s, Exec(id)), id)
  {
    hide Script, PathOf, Inv;
    var c := s.copies[id];
    SoloFactsOf(s, id);
    ScriptNonempty(c);
    ScriptShape(c, 1);
    hide HandoverAt, SettleAt, Verdict, AnswerAt;
  }

  lemma Republished(s: State, s1: State, s': State, r: string, id: nat, q: Queue, n: int)
    requires ReadyAt(s, r, id, q, n) && q.RetryQueue? && n < RETRY_LIMIT &&
             id < s.nextId && s.copies[id].msg.replyTo != ""
    requires s1.copies == s.copies[id := s.copies[id].(place := Held(CALM, 1))] && s1.nextId == s.nextId
    requires RepublishEffect(s1, s', id)
    ensures ReadyAt(s', r, s.nextId, q, n + 1) && OneMore(s, s', id) &&
            Exposed(s'.copies[id]) && s'.replies == s1.replies
  {
  }

  /** Some reply of the queue has the status. */
  ghost predicate Told(replies: seq<Reply>, status: Status) {
    exists i :: 0 <= i < |replies| && replies[i].status == status
  }

  lemma ToldGrows(replies: seq<Reply>, reply: Reply)
    ensures Told(replies + [reply], reply.status)
    ensures forall status :: Told(replies, status) ==> Told(replies + [reply], status)
  {
    assert (replies + [reply])[|replies|] == reply;
    forall status | Told(replies, status) ensures Told(replies + [reply], status) {
      var i :| 0 <= i < |replies| && replies[i].status == status;
      assert (replies + [reply])[i].status == status;
    }
  }

  /** A retrying task with a ready copy can still be answered dlq. */
  lemma {:induction false} CanGiveUp(t: Trace, r: string, id: nat, q: Queue, n: nat) returns (t': Trace)
    requires Valid(t) && ReadyAt(t.s, r, id, q, n) && q.RetryQueue? && n <= RETRY_LIMIT
    ensures Calmly(t, t')
    ensures r in t.s.replies && r in t'.s.replies && Told(t'.s.replies[r], DeadLettered)
    ensures forall status :: Told(t.s.replies[r], status) ==> Told(t'.s.replies[r], status)
    decreases RETRY_LIMIT - n
  {
    hide Valid, Told, Next;
    var reply;
    if n == RETRY_LIMIT {
      t', reply := Answering(t, r, id, q, n);
      ToldGrows(t.s.replies[r], reply);
    } else {
      var t1;
      t1, reply := Republishing(t, r, id, q, n);
      ToldGrows(t.s.replies[r], reply);
      t' := CanGiveUp(t1, r, t.s.nextId, q, n + 1);
    }
  }

  // ---- the window in which a crash is not survived ---------------------------------------------

  lemma Untouched(s: State, e: Event, id: nat)
    requires Inv(s) && Enabled(s, e) && (e.Deliver? || e.Exec?) && id in s.copies && e.id != id
    ensures id in Apply(s, e).copies && Apply(s, e).copies[id] == s.copies[id]
  {
    SoloFactsOf(s, id);
    if e.Exec? { ExecState(s, e.id); }
    hide Script, Inv;
  }

  lemma ExposedNotCarrying(s: State, r: string, id: nat)
    requires Inv(s) && id in s.copies && s.copies[id].msg.replyTo == r && Exposed(s.copies[id])
    ensures r in s.tasks && r in s.replies
    ensures 0 <= RetryCount(s.copies[id].msg) <= RETRY_LIMIT
    ensures !Answered(s.replies[r]) ==> exists k :: k != id && Carries(s, r, k)
  {
    hide Script, PickShard, FitsReply, Answered;
    assert CopyOk(s, s.copies[id]);
    assert Kept(s, r);
    if !Answered(s.replies[r]) {
      var k :| Carries(s, r, k);
    }
  }

  /** While a task is not answered, the step of a carrier leaves a carrier: itself, or the copy it puts in a queue. */
  lemma NextCarrier(s: State, k: nat, r: string)
    requires Inv(s) && Enabled(s, Exec(k)) && Carries(s, r, k) && r in s.replies && !Answered(s.replies[r])
    ensures var s' := Apply(s, Exec(k));
      r in s'.replies && (Answered(s'.replies[r]) || Carries(s', r, k) || Carries(s', r, s.nextId))
  {
    hide Script, PathOf, Fits, FitsReply, RepliesOk, Kept;
    var c := s.copies[k];
    assert CopyOk(s, c);
    ScriptShape(c, c.place.pc);
    OpSound(s, k);
    ExecState(s, k);
    if ScriptOf(c)[c.place.pc].Answer? { AnsweredGrows(s.replies[r], ScriptOf(c)[c.place.pc].reply); }
    hide Apply, Inv, CopyOk, Answered;
  }

  /** A copy can be kept waiting until another carrier of its task has had the task answered for good. */
  lemma {:induction false} SettleOther(t: Trace, r: string, k: nat, id: nat) returns (t': Trace)
    requires Valid(t) && id in t.s.copies && k != id && Carries(t.s, r, k)
    ensures Calmly(t, t')
    ensures id in t'.s.copies && t'.s.copies[id] == t.s.copies[id]
    ensures r in t'.s.replies && Answered(t'.s.replies[r])
    decreases Measure(t.s)
  {
    hide Script, PathOf, Inv, Apply, Measure, Answered, Enabled;
    ValidInv(t);
    SoloFactsOf(t.s, k);
    SoloFactsOf(t.s, id);
    if Answered(t.s.replies[r]) {
      t' := t;
    } else {
      var e := NextStep(t.s, k);
      Untouched(t.s, e, id);
      StepTerminates(t.s, e);
      MeasureNonNegative(t.s);
      var t1 := Next(t, e);
      if e.Deliver? { DeliveredCarries(t.s, k, e.choice, r); } else { NextCarrier(t.s, k, r); }
      if Answered(t1.s.replies[r]) {
        t' := t1;
      } else {
        t' := SettleOther(t1, r, if Carries(t1.s, r, k) then k else t.s.nextId, id);
      }
      CalmlyOn(t, t1, t');
    }
  }

  lemma DeliveredCarries(s: State, k: nat, choice: Choice, r: string)
    requires Inv(s) && Enabled(s, Deliver(k, choice)) && Carries(s, r, k)
    ensures Carries(Apply(s, Deliver(k, choice)), r, k) && Apply(s, Deliver(k, choice)).replies == s.replies
  {
    hide Script, Inv;
  }

  /**
   * The other half of FinalsAgree: in every reachable state with an exposed handler, however many handlers died
   * before, that handler may die next, and from then on final replies that contradict each other may follow
   * without any further death.
   */
  lemma ExposedContradicts(t: Trace, r: string, id: nat) returns (t': Trace)
    requires Valid(t) && id in t.s.copies && t.s.copies[id].msg.replyTo == r && Exposed(t.s.copies[id])
    ensures Valid(t') && t.es + [Crash(id)] <= t'.es && Crashes(t'.es) == Crashes(t.es) + 1
    ensures r in t'.s.replies && !OneVerdict(t'.s.replies[r])
  {
    ValidInv(t);
    ExposedNotCarrying(t.s, r, id);
    var q, n := t.s.copies[id].queue, RetryCount(t.s.copies[id].msg);
    BackInQueue(t.s, r, id);
    var t1 := Next(t, Crash(id));
    hide Script, PathOf, Inv, Answered, OneVerdict, Told, Valid, Apply, Exposed, Enabled;
    var t2 := t1;
    if !Answered(t1.s.replies[r]) {
      var k :| k != id && Carries(t1.s, r, k);
      t2 := SettleOther(t1, r, k, id);
    } else {
      CalmlySame(t1);
    }
    assert ReadyAt(t2.s, r, id, q, n);
    CalmlyRuns(t1, t2);
    if Told(t2.s.replies[r], Succeeded) {
      t' := CanGiveUp(t2, r, id, q, n);
    } else {
      AnsweredIsTold(t2.s.replies[r]);
      t' := CanSucceed(t2, r, id, q, n);
    }
    CalmlyOn(t1, t2, t');
    CalmlyRuns(t1, t');
    ToldBoth(t'.s.replies[r]);
  }

  lemma CalmlySame(t: Trace)
    requires Valid(t)
    ensures Calmly(t, t)
  {
  }

  /** The delivery of an exposed handler that dies is ready again, and its task is no worse off. */
  lemma BackInQueue(s: State, r: string, id: nat)
    requires Inv(s) && id in s.copies && s.copies[id].msg.replyTo == r && Exposed(s.copies[id]) && r in s.replies
    requires !Answered(s.replies[r]) ==> exists k :: k != id && Carries(s, r, k)
    ensures Enabled(s, Crash(id))
    ensures var c, s' := s.copies[id], Apply(s, Crash(id));
      && c.queue.RetryQueue? && ReadyAt(s', r, id, c.queue, RetryCount(c.msg)) && s'.replies == s.replies
      && (!Answered(s'.replies[r]) ==> exists k :: k != id && Carries(s', r, k))
  {
    hide Inv, Script, Answered;
    if !Answered(s.replies[r]) {
      var k :| k != id && Carries(s, r, k);
      assert Carries(Apply(s, Crash(id)), r, k);
    }
  }

  lemma AnsweredIsTold(reps: seq<Reply>)
    requires Answered(reps)
    ensures Told(reps, Succeeded) || Told(reps, DeadLettered)
  {
  }

  lemma ToldBoth(reps: seq<Reply>)
    requires Told(reps, Succeeded) && Told(reps, DeadLettered)
    ensures !OneVerdict(reps)
  {
  }

  /** A retrying task with a ready copy can still be answered success: its TTL may run out. */
  lemma CanSucceed(t: Trace, r: string, id: nat, q: Queue, n: int) returns (t': Trace)
    requires Valid(t) && ReadyAt(t.s, r, id, q, n) && q.RetryQueue?
    ensures Calmly(t, t')
    ensures r in t.s.replies && r in t'.s.replies && Told(t'.s.replies[r], Succeeded)
    ensures forall status :: Told(t.s.replies[r], status) ==> Told(t'.s.replies[r], status)
  {
    hide Told, Inv;
    var t1 := Next(t, Expire(id));
    assert ReadyAt(t1.s, r, id, DeadLetterTarget(q), n);
    var reply;
    t', reply := Answering(t1, r, id, DeadLetterTarget(q), n);
    ToldGrows(t1.s.replies[r], reply);
  }

  /** The state after one retrying task was accepted. */
  lemma Accepting(r: string, task: Task) returns (t: Trace, q: Queue)
    requires r != "" && PathOf(task.form).RetryPath?
    ensures Valid(t) && Crashes(t.es) == 0 && |t.es| == 1
    ensures q.RetryQueue? && ReadyAt(t.s, r, 0, q, 0) && t.s.tasks == map[r := task]
    ensures (forall k :: k in t.s.copies <==> k == 0) && t.s.nextId == 1
  {
    hide PickShard, Script;
    StartInv();
    t := Next(Trace([], START), Submit(r, task));
    var m := FirstMessage(task.form, r, task.corrId);
    q := FirstQueue(task);
    var s0 := Register(START, r, task);
    assert AddCopies(s0, q, m, 1) == AddCopy(AddCopies(s0, q, m, 0), q, m) == AddCopy(s0, q, m);
  }

  /**
   * Such a state is one acceptance and one delivery away for every retrying task: the handler dies after its
   * republish, and the task is answered both success and dlq.
   */
  lemma OneCrashCanContradict(r: string, task: Task) returns (es: seq<Event>)
    requires r != "" && PathOf(task.form).RetryPath?
    ensures Runs(START, es) && Crashes(es) == 1
    ensures r in After(START, es).replies && !OneVerdict(After(START, es).replies[r])
  {
    var t, q := Accepting(r, task);
    assert 0 in t.s.copies && t.s.copies[0].msg.replyTo == r;
    hide *;
    var t1, _ := Republishing(t, r, 0, q, 0);
    CalmlyRuns(t, t1);
    var t2 := ExposedContradicts(t1, r, 0);
    es := t2.es;
    ValidRuns(t2);
  }
}
