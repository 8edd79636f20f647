/**
 * What holds in every reachable state of the task protocol even when handlers die between any two of their
 * steps: messages and replies stay with the request that owns them, statuses are the ones the submitted form
 * determines, retry counts stay within the limit, and no accepted task is ever dropped.
 */
module LifecycleSafety {
  import opened Common
  import opened ShardHash
  import opened Messages
  import opened Gateway
  import opened Lifecycle

  // ---- the shape of scripts --------------------------------------------------------

  /** The position of the reply in the script of a copy that names a reply queue. */
  function AnswerAt(c: Copy): nat {
    if c.queue.ReturnChannel? then 2 else 0
  }

  predicate Retries(c: Copy) {
    c.queue.RetryQueue? && RetryCount(c.msg) < RETRY_LIMIT
  }

  /** The status that handling a copy reports. */
  function Verdict(c: Copy): Status
    requires c.place.Held?
  {
    if Retries(c) then Retrying
    else if c.queue.RetryQueue? || c.queue.DeadLetterQueue? || c.queue.ReturnChannel? then DeadLettered
    else if c.queue.ResilientQueue? && (c.msg.forceFail || c.place.choice.coinFails) then DeadLettered
    else Succeeded
  }

  /** The position at which the handler passes the task on: its republish if it makes one, else its settlement. */
  function HandoverAt(c: Copy): nat
    requires c.place.Held?
  {
    if Retries(c) && c.place.choice.publishOk then 1 else SettleAt(c)
  }

  /** The i-th operation of a script that answers first, hands over later, settles last, and keeps the identity. */
  ghost predicate Shaped(c: Copy, i: nat)
    requires c.place.Held? && i < |ScriptOf(c)|
  {
    var op := ScriptOf(c)[i];
    && AnswerAt(c) < HandoverAt(c) <= SettleAt(c) < |ScriptOf(c)| <= 7
    && (op.Answer? <==> i == AnswerAt(c))
    && (op.Answer? ==>
          op == Answer(c.msg.replyTo, Reply(c.msg.corrId, Verdict(c), if Retries(c) then RetryCount(c.msg) + 1 else 0)))
    && (op.Republish? <==> Retries(c) && c.place.choice.publishOk && i == 1)
    && (op.Republish? ==> op.msg == c.msg.(retryHeader := Some(RetryCount(c.msg) + 1), forceFail := false))
    && (op.Ack? || op.Nack? || op.Forward? <==> i == SettleAt(c))
    && (op.Nack? <==> (i == SettleAt(c) &&
          ((c.queue.ResilientQueue? && Verdict(c) == DeadLettered) || (Retries(c) && !c.place.choice.publishOk))))
    && (op.Forward? <==> i == SettleAt(c) && c.queue.ReturnChannel?)
    && (op.Forward? ==> op.msg == c.msg.(retryHeader := None, forceFail := false))
    && (op.Nack? || op.Forward? ==> i + 1 == |ScriptOf(c)|)
  }

  lemma RetryShape(c: Copy, i: nat)
    requires c.queue.RetryQueue? && c.place.Held? && c.msg.replyTo != "" && i < |ScriptOf(c)|
    ensures Shaped(c, i)
  {
  }

  lemma WorkerShape(c: Copy, i: nat)
    requires c.queue.ShardQueue? || c.queue.ExchangeQueue?
    requires c.place.Held? && c.msg.replyTo != "" && i < |ScriptOf(c)|
    ensures Shaped(c, i)
  {
  }

  lemma DeadShape(c: Copy, i: nat)
    requires c.queue.ResilientQueue? || c.queue.DeadLetterQueue?
    requires c.place.Held? && c.msg.replyTo != "" && i < |ScriptOf(c)|
    ensures Shaped(c, i)
  {
  }

  lemma ReturnShape(c: Copy, i: nat)
    requires c.queue.ReturnChannel? && c.place.Held? && c.msg.replyTo != "" && i < |ScriptOf(c)|
    ensures Shaped(c, i)
  {
  }

  /** Every script answers first, hands over later, settles last, and keeps the message's identity. */
  lemma ScriptShape(c: Copy, i: nat)
    requires c.place.Held? && c.msg.replyTo != "" && i < |ScriptOf(c)|
    ensures Shaped(c, i)
  {
    hide Shaped, Script;
    match c.queue
    case RetryQueue(_) => RetryShape(c, i);
    case ShardQueue(_) => WorkerShape(c, i);
    case ResilientQueue(_) => DeadShape(c, i);
    case DeadLetterQueue => DeadShape(c, i);
    case ExchangeQueue(_) => WorkerShape(c, i);
    case ReturnChannel => ReturnShape(c, i);
  }

  // ---- the invariant ---------------------------------------------------------------

  /** Where a copy of a task can be, and what it carries there. */
  ghost predicate Fits(t: Task, c: Copy) {
    && c.msg.corrId == t.corrId
    && c.msg.body == t.form.task
    && match PathOf(t.form)
       case RetryPath(s) =>
         (c.queue == RetryQueue(s) || c.queue == ShardQueue(s)) && 0 <= RetryCount(c.msg) <= RETRY_LIMIT
       case ResilientPath(s) => (c.queue == ResilientQueue(s) && c.msg.forceFail) || c.queue == DeadLetterQueue
       case ShardPath(s) => c.queue == ShardQueue(s)
       case ExchangePath(x) =>
         && c.msg.retryHeader == None
         && if t.routes > 0 then c.queue == ExchangeQueue(x) else c.queue == ReturnChannel || c.queue == DeadLetterQueue
  }

  /** The sequential oracle: the final status of a task that does not retry, read off its form. */
  function Oracle(t: Task): Status {
    match PathOf(t.form)
    case RetryPath(_) => DeadLettered
    case ResilientPath(_) => DeadLettered
    case ShardPath(_) => Succeeded
    case ExchangePath(_) => if t.routes > 0 then Succeeded else DeadLettered
  }

  /** The oracle by the fields of the form: success, unless asked to fail or retry, or sent where no queue listens. */
  lemma OracleExact(t: Task)
    ensures var f := t.form;
      Oracle(t) == Succeeded <==>
        && f.retry != "1" && f.fail != "1"
        && (t.routes > 0 || (f.headersJSON == "" && f.routingKey == "" && f.broadcast != "yes"))
    ensures Oracle(t) == Succeeded || Oracle(t) == DeadLettered
  {
    hide PickShard;
  }

  /** The replies a task can get. */
  ghost predicate FitsReply(t: Task, reply: Reply) {
    && reply.corrId == t.corrId
    && (PathOf(t.form).RetryPath? || reply.status == Oracle(t))
    && (reply.status == Retrying ==> 1 <= reply.attempt <= RETRY_LIMIT)
  }

  ghost predicate Answered(replies: seq<Reply>) {
    exists i :: 0 <= i < |replies| && Terminal(replies[i])
  }

  /** The copy still carries its task: nothing has taken the task over from it. */
  ghost predicate Carrier(c: Copy) {
    c.place.Held? ==> c.place.pc <= HandoverAt(c)
  }

  ghost predicate Carries(s: State, r: string, id: nat) {
    id in s.copies && s.copies[id].msg.replyTo == r && Carrier(s.copies[id])
  }

  /** An accepted task that no exchange routed has been answered for good, or some live copy still carries it. */
  ghost predicate Kept(s: State, r: string)
    requires r in s.tasks && r in s.replies
  {
    Routed(s.tasks[r]) || Answered(s.replies[r]) || exists id :: Carries(s, r, id)
  }

  ghost predicate CopyOk(s: State, c: Copy) {
    && c.msg.replyTo in s.tasks && c.msg.replyTo in s.replies
    && Fits(s.tasks[c.msg.replyTo], c)
    && (c.place.Held? ==>
          && c.place.pc < |ScriptOf(c)|
          && (c.place.pc > AnswerAt(c) && !Retries(c) ==> Answered(s.replies[c.msg.replyTo])))
  }

  ghost predicate RepliesOk(t: Task, replies: seq<Reply>) {
    forall i :: 0 <= i < |replies| ==> FitsReply(t, replies[i])
  }

  ghost predicate Inv(s: State) {
    && s.tasks.Keys == s.replies.Keys
    && "" !in s.tasks
    && (forall id :: id in s.copies ==> id < s.nextId && CopyOk(s, s.copies[id]))
    && (forall r :: r in s.tasks ==> RepliesOk(s.tasks[r], s.replies[r]) && Kept(s, r))
  }

  lemma StartInv()
    ensures Inv(START)
  {
  }

  /** Appending to a reply queue keeps answered tasks answered. */
  lemma AnsweredGrows(replies: seq<Reply>, reply: Reply)
    ensures Answered(replies) ==> Answered(replies + [reply])
    ensures Terminal(reply) ==> Answered(replies + [reply])
  {
    if Answered(replies) {
      var i :| 0 <= i < |replies| && Terminal(replies[i]);
      assert Terminal((replies + [reply])[i]);
    }
    assert (replies + [reply])[|replies|] == reply;
  }

  // ---- preservation, event by event --------------------------------------------------

  lemma FirstCopyFits(t: Task, r: string)
    ensures Fits(t, Copy(FirstQueue(t), FirstMessage(t.form, r, t.corrId), Ready))
    ensures FirstMessage(t.form, r, t.corrId).replyTo == r
  {
  }

  /** A copy of a known task enters a queue; it may be the first to carry that task. */
  lemma AddCopyInv(s: State, q: Queue, m: Message)
    requires s.tasks.Keys == s.replies.Keys && "" !in s.tasks
    requires forall id :: id in s.copies ==> id < s.nextId && CopyOk(s, s.copies[id])
    requires forall r :: r in s.tasks ==> RepliesOk(s.tasks[r], s.replies[r])
    requires forall r :: r in s.tasks ==> Kept(s, r) || r == m.replyTo
    requires m.replyTo in s.tasks && Fits(s.tasks[m.replyTo], Copy(q, m, Ready))
    ensures Inv(AddCopy(s, q, m)) && Carries(AddCopy(s, q, m), m.replyTo, s.nextId)
  {
    hide PathOf, Fits, FitsReply, Answered, Script, RepliesOk;
    var b := AddCopy(s, q, m);
    assert CopyOk(b, b.copies[s.nextId]);
    assert forall id :: id in s.copies ==>
      b.copies[id] == s.copies[id] && (CopyOk(s, s.copies[id]) ==> CopyOk(b, s.copies[id]));
    assert Carries(b, m.replyTo, s.nextId);
    hide CopyOk;
    forall r | r in b.tasks ensures Kept(b, r) {
      if r != m.replyTo && !Routed(s.tasks[r]) && !Answered(s.replies[r]) {
        var id :| Carries(s, r, id);
        assert Carries(b, r, id);
      }
    }
  }

  lemma {:induction false} AddCopiesInv(s: State, q: Queue, m: Message, n: nat)
    requires s.tasks.Keys == s.replies.Keys && "" !in s.tasks
    requires forall id :: id in s.copies ==> id < s.nextId && CopyOk(s, s.copies[id])
    requires forall r :: r in s.tasks ==> RepliesOk(s.tasks[r], s.replies[r])
    requires forall r :: r in s.tasks ==> Kept(s, r) || (n > 0 && r == m.replyTo)
    requires m.replyTo in s.tasks && Fits(s.tasks[m.replyTo], Copy(q, m, Ready))
    ensures Inv(AddCopies(s, q, m, n))
    ensures AddCopies(s, q, m, n).tasks == s.tasks && AddCopies(s, q, m, n).replies == s.replies
  {
    hide Fits, RepliesOk, Kept, CopyOk;
    if n > 0 {
      if n > 1 { AddCopiesInv(s, q, m, n - 1); }
      AddCopyInv(AddCopies(s, q, m, n - 1), q, m);
    }
  }

  lemma SubmitInv(s: State, r: string, t: Task)
    requires Inv(s) && Enabled(s, Submit(r, t))
    ensures Inv(Apply(s, Submit(r, t)))
  {
    hide PathOf, Fits, FitsReply, Answered, FirstQueue, FirstMessage;
    FirstCopyFits(t, r);
    var s0 := s.(tasks := s.tasks[r := t], replies := s.replies[r := []]);
    forall r' | r' in s.tasks ensures Kept(s0, r') {
      if !Routed(s.tasks[r']) && !Answered(s.replies[r']) {
        var id :| Carries(s, r', id);
        assert Carries(s0, r', id);
      }
    }
    AddCopiesInv(s0, FirstQueue(t), FirstMessage(t.form, r, t.corrId), FirstCopies(t));
  }

  /** One copy is replaced by another of the same task that carries it at least as well. */
  lemma ReplaceInv(s: State, id: nat, c: Copy)
    requires Inv(s) && id in s.copies && CopyOk(s, c)
    requires c.msg.replyTo == s.copies[id].msg.replyTo && (Carrier(s.copies[id]) ==> Carrier(c))
    ensures Inv(s.(copies := s.copies[id := c]))
  {
    hide PathOf, Fits, FitsReply, Answered, Script;
    var s' := s.(copies := s.copies[id := c]);
    forall r | r in s.tasks ensures Kept(s', r) {
      if !Routed(s.tasks[r]) && !Answered(s.replies[r]) {
        var k :| Carries(s, r, k);
        assert Carries(s', r, k);
      }
    }
  }

  lemma FitsAnywhere(t: Task, c: Copy, place: Place)
    requires Fits(t, c)
    ensures Fits(t, c.(place := place))
  {
  }

  /** A handler that has done what its operation was for may move past it. */
  lemma AdvanceInv(s: State, id: nat)
    requires Inv(s) && id in s.copies && s.copies[id].place.Held?
    requires var c := s.copies[id];
      c.place.pc == AnswerAt(c) && !Retries(c) ==> Answered(s.replies[c.msg.replyTo])
    requires var c := s.copies[id];
      c.place.pc == HandoverAt(c) ==>
        Answered(s.replies[c.msg.replyTo]) || exists k :: k != id && Carries(s, c.msg.replyTo, k)
    ensures Inv(Advance(s, id))
  {
    hide PathOf, Fits, FitsReply, Answered, Script;
    var s' := Advance(s, id);
    var c := s.copies[id];
    ScriptShape(c, c.place.pc);
    FitsAnywhere(s.tasks[c.msg.replyTo], c, Held(c.place.choice, c.place.pc + 1));
    forall r | r in s.tasks ensures Kept(s', r) {
      if !Routed(s.tasks[r]) && !Answered(s.replies[r]) {
        var k :| Carries(s, r, k) && (r == c.msg.replyTo && c.place.pc == HandoverAt(c) ==> k != id);
        assert Carries(s', r, k);
      }
    }
  }

  lemma AnswerInv(s: State, r: string, reply: Reply)
    requires Inv(s) && r in s.tasks && FitsReply(s.tasks[r], reply)
    ensures Inv(s.(replies := s.replies[r := s.replies[r] + [reply]]))
  {
    hide PathOf, Fits, FitsReply, Answered, Script;
    var s' := s.(replies := s.replies[r := s.replies[r] + [reply]]);
    AnsweredGrows(s.replies[r], reply);
    forall r' | r' in s'.tasks ensures Kept(s', r') {
      if !Routed(s.tasks[r']) && !Answered(s.replies[r']) {
        var k :| Carries(s, r', k);
        assert Carries(s', r', k);
      }
    }
  }

  /** The verdict of a copy that fits its task is a reply that fits it. */
  lemma VerdictFits(t: Task, c: Copy)
    requires Fits(t, c) && c.place.Held?
    ensures FitsReply(t, Reply(c.msg.corrId, Verdict(c), if Retries(c) then RetryCount(c.msg) + 1 else 0))
  {
  }

  /** What a handler publishes in place of its delivery fits the task again. */
  lemma SuccessorFits(t: Task, c: Copy, op: Op)
    requires Fits(t, c) && c.place.Held? && c.msg.replyTo != "" && c.place.pc < |ScriptOf(c)|
    requires op == ScriptOf(c)[c.place.pc]
    ensures op.Republish? ==> Fits(t, Copy(c.queue, op.msg, Ready)) && op.msg.replyTo == c.msg.replyTo
    ensures op.Nack? ==> Fits(t, Copy(DeadLetterTarget(c.queue), c.msg, Ready))
    ensures op.Forward? ==> Fits(t, Copy(DeadLetterQueue, op.msg, Ready)) && op.msg.replyTo == c.msg.replyTo
  {
    hide PathOf, Script;
    ScriptShape(c, c.place.pc);
  }

  /** What the next operation of a handler means for its copy. */
  ghost predicate Sound(s: State, c: Copy, op: Op) {
    && c.msg.replyTo in s.replies && s.nextId !in s.copies
    && (op.Answer? ==> op.to == c.msg.replyTo)
    && (op.Republish? || op.Forward? ==> op.msg.replyTo == c.msg.replyTo)
  }

  lemma OpSound(s: State, id: nat)
    requires Inv(s) && Enabled(s, Exec(id))
    ensures var c := s.copies[id];
      var op := ScriptOf(c)[c.place.pc];
      && Sound(s, c, op)
      && (op.Republish? ==> c.place.pc + 1 < |ScriptOf(c)|)
      && (op.Nack? || op.Forward? ==> c.place.pc + 1 == |ScriptOf(c)|)
  {
    hide Script, PathOf, Fits, FitsReply, Answered, Kept, RepliesOk;
    var c := s.copies[id];
    assert CopyOk(s, c);
    ScriptShape(c, c.place.pc);
  }

  lemma ExecInv(s: State, id: nat)
    requires Inv(s) && Enabled(s, Exec(id))
    ensures Inv(Apply(s, Exec(id)))
  {
    hide PathOf, Fits, FitsReply, Answered, Script;
    var c := s.copies[id];
    var r := c.msg.replyTo;
    var op := ScriptOf(c)[c.place.pc];
    var s1 := Effect(s, c, op);
    ScriptShape(c, c.place.pc);
    VerdictFits(s.tasks[r], c);
    SuccessorFits(s.tasks[r], c, op);
    match op {
      case Answer(_, reply) =>
        AnswerInv(s, r, reply);
        AnsweredGrows(s.replies[r], reply);
      case Republish(m) => AddCopyInv(s, c.queue, m);
      case Nack => AddCopyInv(s, DeadLetterTarget(c.queue), c.msg);
      case Forward(m) => AddCopyInv(s, DeadLetterQueue, m);
      case _ => MetricsInv(s, s1);
    }
    AdvanceInv(s1, id);
  }

  lemma MetricsInv(s: State, s': State)
    requires Inv(s) && s' == s.(metrics := s'.metrics)
    ensures Inv(s')
    ensures forall r, k :: Carries(s, r, k) ==> Carries(s', r, k)
  {
    hide PathOf, Fits, FitsReply, Answered, Script;
    forall r | r in s.tasks ensures Kept(s', r) {
      if !Routed(s.tasks[r]) && !Answered(s.replies[r]) {
        var k :| Carries(s, r, k);
        assert Carries(s', r, k);
      }
    }
  }

  lemma DeliverInv(s: State, id: nat, choice: Choice)
    requires Inv(s) && Enabled(s, Deliver(id, choice))
    ensures Inv(Apply(s, Deliver(id, choice)))
  {
    hide PathOf, Fits, FitsReply, Answered, Script;
    var c := s.copies[id];
    FitsAnywhere(s.tasks[c.msg.replyTo], c, Held(choice, 0));
    ScriptNonempty(c.(place := Held(choice, 0)));
    ReplaceInv(s, id, c.(place := Held(choice, 0)));
  }

  lemma ScriptNonempty(c: Copy)
    requires c.place.Held?
    ensures |ScriptOf(c)| > 0
    ensures c.msg.replyTo != "" ==> |ScriptOf(c)| > HandoverAt(c)
  {
  }

  lemma ExpireInv(s: State, id: nat)
    requires Inv(s) && Enabled(s, Expire(id))
    ensures Inv(Apply(s, Expire(id)))
  {
    hide PathOf, FitsReply, Answered, Script;
    var c := s.copies[id];
    ReplaceInv(s, id, c.(queue := DeadLetterTarget(c.queue)));
  }

  lemma InExchangeQueue(t: Task, c: Copy)
    requires Fits(t, c) && c.queue.ExchangeQueue?
    ensures Routed(t)
  {
  }

  lemma CrashInv(s: State, id: nat)
    requires Inv(s) && Enabled(s, Crash(id))
    ensures Inv(Apply(s, Crash(id)))
  {
    hide PathOf, Fits, FitsReply, Answered, Script;
    var c := s.copies[id];
    FitsAnywhere(s.tasks[c.msg.replyTo], c, Ready);
    if c.place.Held? { ScriptShape(c, c.place.pc); }
    if Live(c) && !c.queue.ExchangeQueue? {
      ReplaceInv(s, id, c.(place := Ready));
    } else {
      var s' := s.(copies := s.copies - {id});
      if c.queue.ExchangeQueue? { InExchangeQueue(s.tasks[c.msg.replyTo], c); }
      forall r | r in s.tasks ensures Kept(s', r) {
        if !Routed(s.tasks[r]) && !Answered(s.replies[r]) {
          var k :| Carries(s, r, k);
          assert Carries(s', r, k);
        }
      }
    }
  }

  lemma StepInv(s: State, e: Event)
    requires Inv(s) && Enabled(s, e)
    ensures Inv(Apply(s, e))
  {
    hide *;
    match e
    case Submit(r, t) => SubmitInv(s, r, t);
    case Deliver(id, c) => DeliverInv(s, id, c);
    case Exec(id) => ExecInv(s, id);
    case Expire(id) => ExpireInv(s, id);
    case Crash(id) => CrashInv(s, id);
  }

  lemma {:induction false} RunInv(s: State, es: seq<Event>)
    requires Inv(s) && Runs(s, es)
    ensures Inv(After(s, es))
    decreases |es|
  {
    hide Inv, Apply, Enabled;
    if es != [] {
      StepInv(s, es[0]);
      RunInv(Apply(s, es[0]), es[1..]);
    }
  }

  // ---- the theorems ------------------------------------------------------------------

  lemma ReachableInv(es: seq<Event>)
    requires Runs(START, es)
    ensures Inv(After(START, es))
  {
    hide *;
    StartInv();
    RunInv(START, es);
  }

  /** An accepted task has had a final reply, or a copy of it rests in a queue or is unsettled in a handler. */
  ghost predicate Delivered(s: State, r: string) {
    r in s.replies && (Answered(s.replies[r]) || exists id :: Carries(s, r, id) && Live(s.copies[id]))
  }

  ghost predicate CountsInRange(s: State) {
    forall id :: id in s.copies && s.copies[id].queue.RetryQueue? ==> 0 <= RetryCount(s.copies[id].msg) <= RETRY_LIMIT
  }

  /**
   * At-least-once, crashes included: after any run, every accepted task but those an exchange routed has been
   * answered for good or still has a live copy, and no copy in a retry queue carries a count outside 0..3, however
   * often it was duplicated. LifecycleRouted.RoutedIff says when the same holds of a routed task.
   */
  lemma AtLeastOnce(es: seq<Event>)
    requires Runs(START, es)
    ensures var s := After(START, es);
      forall r :: r in s.tasks && !Routed(s.tasks[r]) ==> Delivered(s, r)
    ensures CountsInRange(After(START, es))
  {
    hide *;
    ReachableInv(es);
    InvDelivers(After(START, es));
  }

  lemma InvDelivers(s: State)
    requires Inv(s)
    ensures forall r :: r in s.tasks && !Routed(s.tasks[r]) ==> Delivered(s, r)
    ensures CountsInRange(s)
  {
    hide Script, PickShard, FitsReply, Answered;
    forall r | r in s.tasks && !Routed(s.tasks[r]) ensures Delivered(s, r) {
      assert Kept(s, r);
      if !Answered(s.replies[r]) {
        var id :| Carries(s, r, id);
        CarrierIsLive(s.copies[id]);
      }
    }
    forall id | id in s.copies
      ensures s.copies[id].queue.RetryQueue? ==> 0 <= RetryCount(s.copies[id].msg) <= RETRY_LIMIT
    {
      assert CopyOk(s, s.copies[id]);
    }
  }

  lemma CarrierIsLive(c: Copy)
    requires Carrier(c)
    ensures Live(c)
  {
  }

  /** Reply queues and copies carry the identity of the request that owns them, and of no other. */
  ghost predicate Owned(s: State, r: string)
    requires r in s.tasks
  {
    && r in s.replies
    && (forall i :: 0 <= i < |s.replies[r]| ==> s.replies[r][i].corrId == s.tasks[r].corrId)
    && (forall id :: id in s.copies && s.copies[id].msg.replyTo == r ==>
          s.copies[id].msg.corrId == s.tasks[r].corrId && s.copies[id].msg.body == s.tasks[r].form.task)
  }

  /** The first element of a reply queue that is not interim, whatever its correlation ID. */
  function FirstFinal(queue: seq<Reply>): Option<Reply> {
    if queue == [] then None else if Terminal(queue[0]) then Some(queue[0]) else FirstFinal(queue[1..])
  }

  lemma {:induction false} SameCorrelation(queue: seq<Reply>, corrId: string)
    requires forall i :: 0 <= i < |queue| ==> queue[i].corrId == corrId
    ensures Feedback(queue, corrId) == FirstFinal(queue)
    ensures Answered(queue) <==> FirstFinal(queue).Some?
  {
    if queue != [] {
      SameCorrelation(queue[1..], corrId);
      if Answered(queue) && !Terminal(queue[0]) {
        var i :| 0 <= i < |queue| && Terminal(queue[i]);
        assert Terminal(queue[1..][i - 1]);
      }
      if Answered(queue[1..]) {
        var i :| 0 <= i < |queue[1..]| && Terminal(queue[1..][i]);
        assert Terminal(queue[i + 1]);
      }
    }
  }

  /**
   * Correlation isolation, crashes included: every message ever in a reply queue belongs to the request that
   * owns the queue, every copy of a task keeps its identity and its body, and so the wait loop returns exactly
   * the first non-interim element of its queue, even when correlation IDs of different requests collide.
   */
  lemma CorrelationIsolation(es: seq<Event>, r: string)
    requires Runs(START, es) && r in After(START, es).tasks
    ensures Owned(After(START, es), r)
    ensures var s := After(START, es);
      Feedback(s.replies[r], s.tasks[r].corrId) == FirstFinal(s.replies[r])
  {
    hide *;
    ReachableInv(es);
    InvOwned(After(START, es), r);
  }

  lemma InvOwned(s: State, r: string)
    requires Inv(s) && r in s.tasks
    ensures Owned(s, r) && Feedback(s.replies[r], s.tasks[r].corrId) == FirstFinal(s.replies[r])
  {
    hide Script, PathOf, Answered, Kept, Feedback, FirstFinal;
    assert forall i :: 0 <= i < |s.replies[r]| ==> FitsReply(s.tasks[r], s.replies[r][i]);
    forall id | id in s.copies && s.copies[id].msg.replyTo == r
      ensures s.copies[id].msg.corrId == s.tasks[r].corrId && s.copies[id].msg.body == s.tasks[r].form.task
    {
      assert CopyOk(s, s.copies[id]);
    }
    SameCorrelation(s.replies[r], s.tasks[r].corrId);
  }

  /** The client is told the oracle's status, if anything, and no reply contradicts it. */
  ghost predicate Refined(s: State, r: string)
    requires r in s.tasks
  {
    && r in s.replies
    && (forall i :: 0 <= i < |s.replies[r]| ==> s.replies[r][i].status == Oracle(s.tasks[r]))
    && var told := Feedback(s.replies[r], s.tasks[r].corrId);
       if s.replies[r] == [] then told == None else told.Some? && told.value.status == Oracle(s.tasks[r])
  }

  /**
   * The asynchronous system refines the oracle: whatever the interleaving and whoever crashes, the client of a
   * task that does not retry is told nothing but the status its form determines, and all its replies agree.
   */
  lemma RefinesOracle(es: seq<Event>, r: string)
    requires Runs(START, es) && r in After(START, es).tasks && !PathOf(After(START, es).tasks[r].form).RetryPath?
    ensures Refined(After(START, es), r)
  {
    hide *;
    ReachableInv(es);
    InvRefines(After(START, es), r);
  }

  lemma InvRefines(s: State, r: string)
    requires Inv(s) && r in s.tasks && !PathOf(s.tasks[r].form).RetryPath?
    ensures Refined(s, r)
  {
  }
}
