/**
 * The delivery loops. Each method walks its deliveries the way the goroutine does, branch by branch, on a
 * channel that records every broker and metrics operation. The record grows by exactly the scripts the lifecycle
 * model interleaves, and whatever those are: a delivery is settled exactly once, after the only reply it causes.
 */
module Workers {
  import opened Common
  import opened ShardHash
  import opened Messages

  class Channel {
    var log: seq<Op>

    constructor ()
      ensures log == []
    {
      log := [];
    }

    method Perform(op: Op)
      modifies this
      ensures log == old(log) + [op]
    {
      log := log + [op];
    }
  }

  lemma ScriptsStep(q: Queue, msgs: seq<Message>, choices: seq<Choice>, i: nat)
    requires i < |msgs| == |choices|
    ensures Scripts(q, msgs[..i + 1], choices[..i + 1]) ==
            Scripts(q, msgs[..i], choices[..i]) + Script(q, msgs[i], choices[i])
  {
    assert msgs[..i + 1][..i] == msgs[..i];
    assert choices[..i + 1][..i] == choices[..i];
  }

  // ---- what every handler owes its delivery --------------------------------------------------

  predicate Settles(op: Op) {
    op.Ack? || op.Nack? || op.Forward?
  }

  predicate Replies(op: Op) {
    op.Answer?
  }

  function Count<T>(s: seq<T>, p: T -> bool): nat {
    if s == [] then 0 else Count(s[..|s| - 1], p) + if p(s[|s| - 1]) then 1 else 0
  }

  lemma {:induction false} CountConcat<T>(a: seq<T>, b: seq<T>, p: T -> bool)
    ensures Count(a + b, p) == Count(a, p) + Count(b, p)
  {
    if b == [] {
      assert a + b == a;
    } else {
      var n := |b| - 1;
      CountConcat(a, b[..n], p);
      assert (a + b)[..|a| + n] == a + b[..n];
    }
  }

  predicate Asks(m: Message) {
    m.replyTo != ""
  }

  /** A delivery is settled once; it is answered once if it asks for that, to the queue it names, and first. */
  ghost predicate Handled(ops: seq<Op>, m: Message) {
    && Count(ops, Settles) == 1
    && Count(ops, Replies) == (if Asks(m) then 1 else 0)
    && (forall i :: 0 <= i < |ops| && Replies(ops[i]) ==> ops[i].to == m.replyTo && ops[i].reply.corrId == m.corrId)
    && forall i, j :: 0 <= i < |ops| && 0 <= j < |ops| && Replies(ops[i]) && Settles(ops[j]) ==> i < j
  }

  /** A loop settles each of its deliveries once, and answers each that asks for it once. */
  ghost predicate HandledAll(before: seq<Op>, after: seq<Op>, msgs: seq<Message>) {
    && Count(after, Settles) == Count(before, Settles) + |msgs|
    && Count(after, Replies) == Count(before, Replies) + Count(msgs, Asks)
  }

  lemma {:induction false} CountOne<T>(s: seq<T>, p: T -> bool, t: int)
    requires forall i :: 0 <= i < |s| ==> (p(s[i]) <==> i == t)
    ensures Count(s, p) == if 0 <= t < |s| then 1 else 0
  {
    if s != [] { CountOne(s[..|s| - 1], p, t); }
  }

  /** The reply, if any, is at position a, and the settlement at t after it. */
  ghost predicate Positioned(ops: seq<Op>, m: Message, a: int, t: int) {
    && a < t && 0 <= t < |ops|
    && (forall i :: 0 <= i < |ops| ==> (Settles(ops[i]) <==> i == t) && (Replies(ops[i]) <==> i == a))
    && (Asks(m) ==> 0 <= a && ops[a].Answer? && ops[a].to == m.replyTo && ops[a].reply.corrId == m.corrId)
    && (!Asks(m) ==> a < 0)
  }

  lemma PositionedHandled(ops: seq<Op>, m: Message, a: int, t: int)
    requires Positioned(ops, m, a, t)
    ensures Handled(ops, m)
  {
    CountOne(ops, Settles, t);
    CountOne(ops, Replies, a);
  }

  lemma RetryPositioned(q: Queue, m: Message, c: Choice)
    requires q.RetryQueue?
    ensures Positioned(Script(q, m, c), m, if Asks(m) then 0 else -1,
                       (if Asks(m) then 1 else 0) + if RetryCount(m) >= RETRY_LIMIT then 0 else 1)
  {
  }

  lemma WorkerPositioned(q: Queue, m: Message, c: Choice)
    requires q.ShardQueue? || q.ExchangeQueue?
    ensures Positioned(Script(q, m, c), m, if Asks(m) then 0 else -1,
                       if !Asks(m) then 0 else if q.ShardQueue? then 2 else 1)
  {
  }

  lemma DeadPositioned(q: Queue, m: Message, c: Choice)
    requires q.ResilientQueue? || q.DeadLetterQueue?
    ensures Positioned(Script(q, m, c), m, if Asks(m) then 0 else -1,
                       (if Asks(m) then 1 else 0) + if q.ResilientQueue? && (m.forceFail || c.coinFails) then 0 else 3)
  {
  }

  lemma ReturnPositioned(m: Message, c: Choice)
    ensures Positioned(Script(ReturnChannel, m, c), m, if Asks(m) then 2 else -1, if Asks(m) then 6 else 4)
  {
  }

  lemma ScriptHandled(q: Queue, m: Message, c: Choice)
    ensures Handled(Script(q, m, c), m)
  {
    hide Script, Positioned, Handled;
    var ops, a := Script(q, m, c), if Asks(m) then 0 else -1;
    match q
    case RetryQueue(_) =>
      RetryPositioned(q, m, c);
      PositionedHandled(ops, m, a, (if Asks(m) then 1 else 0) + if RetryCount(m) >= RETRY_LIMIT then 0 else 1);
    case ResilientQueue(_) =>
      DeadPositioned(q, m, c);
      PositionedHandled(ops, m, a, (if Asks(m) then 1 else 0) + if m.forceFail || c.coinFails then 0 else 3);
    case DeadLetterQueue =>
      DeadPositioned(q, m, c);
      PositionedHandled(ops, m, a, if Asks(m) then 4 else 3);
    case ReturnChannel =>
      ReturnPositioned(m, c);
      PositionedHandled(ops, m, if Asks(m) then 2 else -1, if Asks(m) then 6 else 4);
    case _ =>
      WorkerPositioned(q, m, c);
      PositionedHandled(ops, m, a, if !Asks(m) then 0 else if q.ShardQueue? then 2 else 1);
  }

  lemma {:induction false} ScriptsHandled(before: seq<Op>, q: Queue, msgs: seq<Message>, choices: seq<Choice>)
    requires |msgs| == |choices|
    ensures HandledAll(before, before + Scripts(q, msgs, choices), msgs)
  {
    hide Script;
    if msgs == [] {
      assert before + [] == before;
    } else {
      var n := |msgs| - 1;
      var front, last := Scripts(q, msgs[..n], choices[..n]), Script(q, msgs[n], choices[n]);
      ScriptsHandled(before, q, msgs[..n], choices[..n]);
      ScriptHandled(q, msgs[n], choices[n]);
      assert before + (front + last) == before + front + last;
      CountConcat(before + front, last, Settles);
      CountConcat(before + front, last, Replies);
    }
  }

  // ---- what a delivery calls for ----------------------------------------------------------------

  /** The handler gives the delivery up: its republish is refused, or it fails, forced or by the coin. */
  predicate GivesUp(q: Queue, m: Message, c: Choice) {
    || (q.RetryQueue? && Attempt(m) < 3 && !c.publishOk)
    || (q.ResilientQueue? && (m.forceFail || c.coinFails))
  }

  /** The attempts that lie behind a message; without the header, none. */
  function Attempt(m: Message): int {
    match m.retryHeader
    case None => 0
    case Some(n) => n
  }

  /** What the caller is told: retries count up from one, and the third is the last. */
  function Told(q: Queue, m: Message, c: Choice): Reply {
    if q.RetryQueue? && Attempt(m) < 3 then Reply(m.corrId, Retrying, Attempt(m) + 1)
    else if q.ShardQueue? || q.ExchangeQueue? || (q.ResilientQueue? && !GivesUp(q, m, c)) then
      Reply(m.corrId, Succeeded, 0)
    else Reply(m.corrId, DeadLettered, 0)
  }

  /**
   * The operations a delivery calls for. One that is given up is nacked and moves no metric. Any other counts under
   * the label of its handler and observes a latency, and is acked and counted as acked, unless it is a returned
   * message, which is no delivery of the broker and goes on to the dead letters.
   */
  predicate Due(op: Op, q: Queue, m: Message, c: Choice) {
    match op
    case Answer(to, reply) => Asks(m) && to == m.replyTo && reply == Told(q, m, c)
    case Republish(msg) =>
      && q.RetryQueue? && Attempt(m) < 3 && c.publishOk
      && msg == Message(m.body, m.replyTo, m.corrId, Some(Attempt(m) + 1), false)
    case RepublishFailed => q.RetryQueue? && GivesUp(q, m, c)
    case Nack => GivesUp(q, m, c)
    case Ack => !q.ReturnChannel? && !GivesUp(q, m, c)
    case CountAcked => !q.ReturnChannel? && !GivesUp(q, m, c)
    case CountThroughput(worker) =>
      && !GivesUp(q, m, c)
      && worker == (if q.DeadLetterQueue? then "dlq" else if q.ReturnChannel? then "dlx_handler" else c.worker)
    case ObserveLatency => !GivesUp(q, m, c)
    case CountWorkerAck => q.ShardQueue?
    case CountPublished => q.ShardQueue? && Asks(m)
    case CountReturned => q.ReturnChannel?
    case CountReturnReply => q.ReturnChannel? && Asks(m)
    case CountReturn => q.ReturnChannel?
    case Forward(msg) => q.ReturnChannel? && msg == Message(m.body, m.replyTo, m.corrId, None, false)
  }

  /** The phase of a handler an operation belongs to: resilient and dead-letter handlers settle last, others earlier. */
  function Phase(q: Queue, op: Op): nat {
    match op
    case CountReturned => 0
    case CountReturnReply => 1
    case Answer(_, _) => 2
    case CountPublished => 3
    case Republish(_) => 4
    case RepublishFailed => 4
    case CountReturn => 4
    case Ack => if q.ResilientQueue? || q.DeadLetterQueue? then 10 else 5
    case CountAcked => 6
    case CountThroughput(_) => 7
    case ObserveLatency => 8
    case CountWorkerAck => 9
    case Nack => 10
    case Forward(_) => 10
  }

  /** No phase is entered twice, and none after a later one. */
  ghost predicate InPhase(ops: seq<Op>, q: Queue) {
    forall i :: 0 < i < |ops| ==> Phase(q, ops[i - 1]) < Phase(q, ops[i])
  }

  ghost predicate AllDue(ops: seq<Op>, q: Queue, m: Message, c: Choice) {
    forall op :: op in ops <==> Due(op, q, m, c)
  }

  /** The handler does all that its delivery calls for, each once and nothing else, in the order of the phases. */
  ghost predicate Exact(ops: seq<Op>, q: Queue, m: Message, c: Choice) {
    AllDue(ops, q, m, c) && InPhase(ops, q)
  }

  lemma LastRetryDue(op: Op, q: Queue, m: Message, c: Choice)
    requires q.RetryQueue? && Attempt(m) >= 3
    ensures op in Script(q, m, c) <==> Due(op, q, m, c)
  {
    if Asks(m) { } else { }
  }

  lemma RetryDue(op: Op, q: Queue, m: Message, c: Choice)
    requires q.RetryQueue? && Attempt(m) < 3
    ensures op in Script(q, m, c) <==> Due(op, q, m, c)
  {
    if Asks(m) { if c.publishOk { } else { } } else { if c.publishOk { } else { } }
  }

  lemma ShardDue(op: Op, q: Queue, m: Message, c: Choice)
    requires q.ShardQueue?
    ensures op in Script(q, m, c) <==> Due(op, q, m, c)
  {
    if Asks(m) { } else { }
  }

  lemma ExchangeDue(op: Op, q: Queue, m: Message, c: Choice)
    requires q.ExchangeQueue?
    ensures op in Script(q, m, c) <==> Due(op, q, m, c)
  {
  }

  lemma ResilientDue(op: Op, q: Queue, m: Message, c: Choice)
    requires q.ResilientQueue?
    ensures op in Script(q, m, c) <==> Due(op, q, m, c)
  {
    if GivesUp(q, m, c) { } else { }
  }

  lemma DeadLetterDue(op: Op, q: Queue, m: Message, c: Choice)
    requires q.DeadLetterQueue?
    ensures op in Script(q, m, c) <==> Due(op, q, m, c)
  {
  }

  lemma ReturnDue(op: Op, q: Queue, m: Message, c: Choice)
    requires q.ReturnChannel?
    ensures op in Script(q, m, c) <==> Due(op, q, m, c)
  {
    if Asks(m) { } else { }
  }

  lemma LastRetryPhased(q: Queue, m: Message, c: Choice)
    requires q.RetryQueue? && Attempt(m) >= 3
    ensures InPhase(Script(q, m, c), q)
  {
    if Asks(m) { } else { }
  }

  lemma RetryPhased(q: Queue, m: Message, c: Choice)
    requires q.RetryQueue? && Attempt(m) < 3
    ensures InPhase(Script(q, m, c), q)
  {
    if Asks(m) { if c.publishOk { } else { } } else { if c.publishOk { } else { } }
  }

  lemma ShardPhased(q: Queue, m: Message, c: Choice)
    requires q.ShardQueue?
    ensures InPhase(Script(q, m, c), q)
  {
    if Asks(m) { } else { }
  }

  lemma ExchangePhased(q: Queue, m: Message, c: Choice)
    requires q.ExchangeQueue?
    ensures InPhase(Script(q, m, c), q)
  {
  }

  lemma ResilientPhased(q: Queue, m: Message, c: Choice)
    requires q.ResilientQueue?
    ensures InPhase(Script(q, m, c), q)
  {
    if GivesUp(q, m, c) { } else { }
  }

  lemma DeadLetterPhased(q: Queue, m: Message, c: Choice)
    requires q.DeadLetterQueue?
    ensures InPhase(Script(q, m, c), q)
  {
  }

  lemma ReturnPhased(q: Queue, m: Message, c: Choice)
    requires q.ReturnChannel?
    ensures InPhase(Script(q, m, c), q)
  {
    if Asks(m) { } else { }
  }

  /** Every handler performs exactly what its delivery calls for. */
  lemma ScriptExact(q: Queue, m: Message, c: Choice)
    ensures Exact(Script(q, m, c), q, m, c)
  {
    forall op ensures op in Script(q, m, c) <==> Due(op, q, m, c) {
      OpDue(op, q, m, c);
    }
    hide Script, Due, InPhase;
    match q
    case RetryQueue(_) => if Attempt(m) >= 3 { LastRetryPhased(q, m, c); } else { RetryPhased(q, m, c); }
    case ResilientQueue(_) => ResilientPhased(q, m, c);
    case DeadLetterQueue => DeadLetterPhased(q, m, c);
    case ReturnChannel => ReturnPhased(q, m, c);
    case ShardQueue(_) => ShardPhased(q, m, c);
    case ExchangeQueue(_) => ExchangePhased(q, m, c);
  }

  lemma OpDue(op: Op, q: Queue, m: Message, c: Choice)
    ensures op in Script(q, m, c) <==> Due(op, q, m, c)
  {
    hide Script, Due;
    match q
    case RetryQueue(_) => if Attempt(m) >= 3 { LastRetryDue(op, q, m, c); } else { RetryDue(op, q, m, c); }
    case ResilientQueue(_) => ResilientDue(op, q, m, c);
    case DeadLetterQueue => DeadLetterDue(op, q, m, c);
    case ReturnChannel => ReturnDue(op, q, m, c);
    case ShardQueue(_) => ShardDue(op, q, m, c);
    case ExchangeQueue(_) => ExchangeDue(op, q, m, c);
  }

  /** An operation occurs once or not at all. */
  lemma {:induction false} PhaseOnce(ops: seq<Op>, q: Queue, op: Op)
    requires InPhase(ops, q)
    ensures multiset(ops)[op] == if op in ops then 1 else 0
    ensures op in ops ==> Phase(q, op) <= Phase(q, ops[|ops| - 1])
  {
    hide Phase;
    if ops != [] {
      var front, last := ops[..|ops| - 1], ops[|ops| - 1];
      assert ops == front + [last];
      PhaseOnce(front, q, op);
    }
  }

  /** So a handler performs an operation once if the delivery calls for it, and never otherwise. */
  lemma PerformedOnce(op: Op, q: Queue, m: Message, c: Choice)
    ensures multiset(Script(q, m, c))[op] == if Due(op, q, m, c) then 1 else 0
  {
    ScriptExact(q, m, c);
    hide Script, Due, InPhase;
    PhaseOnce(Script(q, m, c), q, op);
  }

  /** How many of the deliveries call for an operation. */
  function Dues(op: Op, q: Queue, msgs: seq<Message>, choices: seq<Choice>): nat
    requires |msgs| == |choices|
  {
    if msgs == [] then 0
    else
      var n := |msgs| - 1;
      Dues(op, q, msgs[..n], choices[..n]) + if Due(op, q, msgs[n], choices[n]) then 1 else 0
  }

  /** A loop performs every operation as often as its deliveries call for it. */
  ghost predicate PerformedAll(before: seq<Op>, after: seq<Op>, q: Queue, msgs: seq<Message>, choices: seq<Choice>)
    requires |msgs| == |choices|
  {
    forall op :: multiset(after)[op] == multiset(before)[op] + Dues(op, q, msgs, choices)
  }

  lemma {:induction false} ScriptsExact(before: seq<Op>, q: Queue, msgs: seq<Message>, choices: seq<Choice>, op: Op)
    requires |msgs| == |choices|
    ensures multiset(before + Scripts(q, msgs, choices))[op] == multiset(before)[op] + Dues(op, q, msgs, choices)
  {
    hide Script, Due;
    if msgs == [] {
      assert before + [] == before;
    } else {
      var n := |msgs| - 1;
      var front, last := Scripts(q, msgs[..n], choices[..n]), Script(q, msgs[n], choices[n]);
      ScriptsExact(before, q, msgs[..n], choices[..n], op);
      PerformedOnce(op, q, msgs[n], choices[n]);
      assert before + (front + last) == before + front + last;
    }
  }

  /** The acknowledgement, with the three metrics that follow it. */
  method AckAndCount(ch: Channel, worker: string)
    modifies ch
    ensures ch.log == old(ch.log) + [Ack, CountAcked, CountThroughput(worker), ObserveLatency]
  {
    ch.Perform(Ack);
    ch.Perform(CountAcked);
    ch.Perform(CountThroughput(worker));
    ch.Perform(ObserveLatency);
  }

  /** dead_letter_queues/delay_retry_worker.go: count, interim reply, republish, then ack or nack. */
  method RetryDelivery(ch: Channel, shard: Shard, workerId: string, d: Message, env: Choice)
    requires env.worker == workerId
    modifies ch
    ensures ch.log == old(ch.log) + Script(RetryQueue(shard), d, env)
    ensures Handled(ch.log[|old(ch.log)|..], d)
    ensures Exact(ch.log[|old(ch.log)|..], RetryQueue(shard), d, env)
  {
    hide Handled, Exact;
    ScriptHandled(RetryQueue(shard), d, env);
    ScriptExact(RetryQueue(shard), d, env);
    var retryCount := 0;
    if d.retryHeader.Some? {
      retryCount := d.retryHeader.value;
    }
    if retryCount < 3 {
      retryCount := retryCount + 1;
      if d.replyTo != "" {
        ch.Perform(Answer(d.replyTo, Reply(d.corrId, Retrying, retryCount)));
      }
      if !env.publishOk {
        ch.Perform(RepublishFailed);
        ch.Perform(Nack);
      } else {
        ch.Perform(Republish(Message(d.body, d.replyTo, d.corrId, Some(retryCount), false)));
        ch.Perform(Ack);
        ch.Perform(CountAcked);
        ch.Perform(CountThroughput(workerId));
        ch.Perform(ObserveLatency);
      }
    } else {
      if d.replyTo != "" {
        ch.Perform(Answer(d.replyTo, Reply(d.corrId, DeadLettered, 0)));
      }
      AckAndCount(ch, workerId);
    }
  }

  method DelayRetryWorker(ch: Channel, shard: Shard, workerId: string, msgs: seq<Message>, env: seq<Choice>)
    requires |env| == |msgs|
    requires forall i :: 0 <= i < |env| ==> env[i].worker == workerId
    modifies ch
    ensures ch.log == old(ch.log) + Scripts(RetryQueue(shard), msgs, env)
    ensures HandledAll(old(ch.log), ch.log, msgs)
    ensures PerformedAll(old(ch.log), ch.log, RetryQueue(shard), msgs, env)
  {
    hide Script;
    for i := 0 to |msgs|
      invariant ch.log == old(ch.log) + Scripts(RetryQueue(shard), msgs[..i], env[..i])
    {
      RetryDelivery(ch, shard, workerId, msgs[i], env[i]);
      ScriptsStep(RetryQueue(shard), msgs, env, i);
    }
    assert msgs[..|msgs|] == msgs && env[..|msgs|] == env;
    ScriptsHandled(old(ch.log), RetryQueue(shard), msgs, env);
    forall op { ScriptsExact(old(ch.log), RetryQueue(shard), msgs, env, op); }
  }

  /** dead_letter_queues/dlq_worker.go: a forced or random failure replies and nacks; success replies and acks. */
  method ResilientDelivery(ch: Channel, shard: Shard, workerId: string, d: Message, env: Choice)
    requires env.worker == workerId
    modifies ch
    ensures ch.log == old(ch.log) + Script(ResilientQueue(shard), d, env)
    ensures Handled(ch.log[|old(ch.log)|..], d)
    ensures Exact(ch.log[|old(ch.log)|..], ResilientQueue(shard), d, env)
  {
    hide Handled, Exact;
    ScriptHandled(ResilientQueue(shard), d, env);
    ScriptExact(ResilientQueue(shard), d, env);
    var shouldFail := d.forceFail || env.coinFails;
    if shouldFail {
      if d.replyTo != "" {
        ch.Perform(Answer(d.replyTo, Reply(d.corrId, DeadLettered, 0)));
      }
      ch.Perform(Nack);
    } else {
      if d.replyTo != "" {
        ch.Perform(Answer(d.replyTo, Reply(d.corrId, Succeeded, 0)));
      }
      ch.Perform(CountAcked);
      ch.Perform(CountThroughput(workerId));
      ch.Perform(ObserveLatency);
      ch.Perform(Ack);
    }
  }

  method ResilientWorker(ch: Channel, shard: Shard, workerId: string, msgs: seq<Message>, env: seq<Choice>)
    requires |env| == |msgs|
    requires forall i :: 0 <= i < |env| ==> env[i].worker == workerId
    modifies ch
    ensures ch.log == old(ch.log) + Scripts(ResilientQueue(shard), msgs, env)
    ensures HandledAll(old(ch.log), ch.log, msgs)
    ensures PerformedAll(old(ch.log), ch.log, ResilientQueue(shard), msgs, env)
  {
    hide Script;
    for i := 0 to |msgs|
      invariant ch.log == old(ch.log) + Scripts(ResilientQueue(shard), msgs[..i], env[..i])
    {
      ResilientDelivery(ch, shard, workerId, msgs[i], env[i]);
      ScriptsStep(ResilientQueue(shard), msgs, env, i);
    }
    assert msgs[..|msgs|] == msgs && env[..|msgs|] == env;
    ScriptsHandled(old(ch.log), ResilientQueue(shard), msgs, env);
    forall op { ScriptsExact(old(ch.log), ResilientQueue(shard), msgs, env, op); }
  }

  /** work_queue_model/worker.go: reply, count the reply, ack, then the metrics. */
  method TaskDelivery(ch: Channel, shard: Shard, id: string, d: Message, env: Choice)
    requires env.worker == id
    modifies ch
    ensures ch.log == old(ch.log) + Script(ShardQueue(shard), d, env)
    ensures Handled(ch.log[|old(ch.log)|..], d)
    ensures Exact(ch.log[|old(ch.log)|..], ShardQueue(shard), d, env)
  {
    hide Handled, Exact;
    ScriptHandled(ShardQueue(shard), d, env);
    ScriptExact(ShardQueue(shard), d, env);
    if d.replyTo != "" {
      ch.Perform(Answer(d.replyTo, Reply(d.corrId, Succeeded, 0)));
      ch.Perform(CountPublished);
    }
    AckAndCount(ch, id);
    ch.Perform(CountWorkerAck);
  }

  method TaskQueueWorker(ch: Channel, shard: Shard, id: string, msgs: seq<Message>, env: seq<Choice>)
    requires |env| == |msgs|
    requires forall i :: 0 <= i < |env| ==> env[i].worker == id
    modifies ch
    ensures ch.log == old(ch.log) + Scripts(ShardQueue(shard), msgs, env)
    ensures HandledAll(old(ch.log), ch.log, msgs)
    ensures PerformedAll(old(ch.log), ch.log, ShardQueue(shard), msgs, env)
  {
    hide Script;
    for i := 0 to |msgs|
      invariant ch.log == old(ch.log) + Scripts(ShardQueue(shard), msgs[..i], env[..i])
    {
      TaskDelivery(ch, shard, id, msgs[i], env[i]);
      ScriptsStep(ShardQueue(shard), msgs, env, i);
    }
    assert msgs[..|msgs|] == msgs && env[..|msgs|] == env;
    ScriptsHandled(old(ch.log), ShardQueue(shard), msgs, env);
    forall op { ScriptsExact(old(ch.log), ShardQueue(shard), msgs, env, op); }
  }

  /** dead_letter_queues/dlq_consumer.go: reply, the metrics, and only then the ack. */
  method DeadLetterDelivery(ch: Channel, d: Message, env: Choice)
    modifies ch
    ensures ch.log == old(ch.log) + Script(DeadLetterQueue, d, env)
    ensures Handled(ch.log[|old(ch.log)|..], d)
    ensures Exact(ch.log[|old(ch.log)|..], DeadLetterQueue, d, env)
  {
    hide Handled, Exact;
    ScriptHandled(DeadLetterQueue, d, env);
    ScriptExact(DeadLetterQueue, d, env);
    if d.replyTo != "" {
      ch.Perform(Answer(d.replyTo, Reply(d.corrId, DeadLettered, 0)));
    }
    ch.Perform(CountAcked);
    ch.Perform(CountThroughput("dlq"));
    ch.Perform(ObserveLatency);
    ch.Perform(Ack);
  }

  method DlqConsumer(ch: Channel, msgs: seq<Message>, env: seq<Choice>)
    requires |env| == |msgs|
    modifies ch
    ensures ch.log == old(ch.log) + Scripts(DeadLetterQueue, msgs, env)
    ensures HandledAll(old(ch.log), ch.log, msgs)
    ensures PerformedAll(old(ch.log), ch.log, DeadLetterQueue, msgs, env)
  {
    hide Script;
    for i := 0 to |msgs|
      invariant ch.log == old(ch.log) + Scripts(DeadLetterQueue, msgs[..i], env[..i])
    {
      DeadLetterDelivery(ch, msgs[i], env[i]);
      ScriptsStep(DeadLetterQueue, msgs, env, i);
    }
    assert msgs[..|msgs|] == msgs && env[..|msgs|] == env;
    ScriptsHandled(old(ch.log), DeadLetterQueue, msgs, env);
    forall op { ScriptsExact(old(ch.log), DeadLetterQueue, msgs, env, op); }
  }

  /** The direct, topic, headers and fanout consumers: reply, ack, metrics. */
  method ExchangeDelivery(ch: Channel, exchange: Exchange, worker: string, d: Message, env: Choice)
    requires env.worker == worker
    modifies ch
    ensures ch.log == old(ch.log) + Script(ExchangeQueue(exchange), d, env)
    ensures Handled(ch.log[|old(ch.log)|..], d)
    ensures Exact(ch.log[|old(ch.log)|..], ExchangeQueue(exchange), d, env)
  {
    hide Handled, Exact;
    ScriptHandled(ExchangeQueue(exchange), d, env);
    ScriptExact(ExchangeQueue(exchange), d, env);
    if d.replyTo != "" {
      ch.Perform(Answer(d.replyTo, Reply(d.corrId, Succeeded, 0)));
    }
    AckAndCount(ch, worker);
  }

  method ExchangeConsumer(ch: Channel, exchange: Exchange, worker: string, msgs: seq<Message>, env: seq<Choice>)
    requires |env| == |msgs|
    requires forall i :: 0 <= i < |env| ==> env[i].worker == worker
    modifies ch
    ensures ch.log == old(ch.log) + Scripts(ExchangeQueue(exchange), msgs, env)
    ensures HandledAll(old(ch.log), ch.log, msgs)
    ensures PerformedAll(old(ch.log), ch.log, ExchangeQueue(exchange), msgs, env)
  {
    hide Script;
    for i := 0 to |msgs|
      invariant ch.log == old(ch.log) + Scripts(ExchangeQueue(exchange), msgs[..i], env[..i])
    {
      ExchangeDelivery(ch, exchange, worker, msgs[i], env[i]);
      ScriptsStep(ExchangeQueue(exchange), msgs, env, i);
    }
    assert msgs[..|msgs|] == msgs && env[..|msgs|] == env;
    ScriptsHandled(old(ch.log), ExchangeQueue(exchange), msgs, env);
    forall op { ScriptsExact(old(ch.log), ExchangeQueue(exchange), msgs, env, op); }
  }

  /** gateway/server.go, the goroutine over NotifyReturn: tell the caller, count, forward to the dead letters. */
  method ReturnedMessage(ch: Channel, d: Message, env: Choice)
    modifies ch
    ensures ch.log == old(ch.log) + Script(ReturnChannel, d, env)
    ensures Handled(ch.log[|old(ch.log)|..], d)
    ensures Exact(ch.log[|old(ch.log)|..], ReturnChannel, d, env)
  {
    hide Handled, Exact;
    ScriptHandled(ReturnChannel, d, env);
    ScriptExact(ReturnChannel, d, env);
    ch.Perform(CountReturned);
    if d.replyTo != "" {
      ch.Perform(CountReturnReply);
      ch.Perform(Answer(d.replyTo, Reply(d.corrId, DeadLettered, 0)));
    }
    ch.Perform(CountReturn);
    ch.Perform(CountThroughput("dlx_handler"));
    ch.Perform(ObserveLatency);
    ch.Perform(Forward(Message(d.body, d.replyTo, d.corrId, None, false)));
  }

  method ReturnHandler(ch: Channel, msgs: seq<Message>, env: seq<Choice>)
    requires |env| == |msgs|
    modifies ch
    ensures ch.log == old(ch.log) + Scripts(ReturnChannel, msgs, env)
    ensures HandledAll(old(ch.log), ch.log, msgs)
    ensures PerformedAll(old(ch.log), ch.log, ReturnChannel, msgs, env)
  {
    hide Script;
    for i := 0 to |msgs|
      invariant ch.log == old(ch.log) + Scripts(ReturnChannel, msgs[..i], env[..i])
    {
      ReturnedMessage(ch, msgs[i], env[i]);
      ScriptsStep(ReturnChannel, msgs, env, i);
    }
    assert msgs[..|msgs|] == msgs && env[..|msgs|] == env;
    ScriptsHandled(old(ch.log), ReturnChannel, msgs, env);
    forall op { ScriptsExact(old(ch.log), ReturnChannel, msgs, env, op); }
  }
}
