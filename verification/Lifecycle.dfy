/**
 * The task protocol as a state machine. Copies of messages rest in queues or are held by a handler that has
 * performed some of its script; every operation of every handler is one atomic step, so any number of
 * handlers and tasks interleave freely. Any ready copy of a queue may be delivered next, which covers the
 * broker's order and every order redelivery can produce.
 */
module Lifecycle {
  import opened Common
  import opened ShardHash
  import opened Messages
  import opened Gateway

  /** A held copy has performed the first pc operations of its script. */
  datatype Place = Ready | Held(choice: Choice, pc: nat)

  datatype Copy = Copy(queue: Queue, msg: Message, place: Place)

  function ScriptOf(c: Copy): seq<Op>
    requires c.place.Held?
  {
    Script(c.queue, c.msg, c.place.choice)
  }

  /** An accepted request: its form, its correlation ID, and how many queues its exchange routed it to. */
  datatype Task = Task(form: Form, corrId: string, routes: nat)

  datatype Metrics = Metrics(
    msgsPublished: nat, msgsAcked: nat, throughput: nat, returnThroughput: nat,
    latencies: nat, workerAcks: nat, returned: nat, gatewayPublished: nat)

  /** Reply queues are named by the server, so their names identify the requests that own them. */
  datatype State = State(
    copies: map<nat, Copy>, nextId: nat, tasks: map<string, Task>, replies: map<string, seq<Reply>>, metrics: Metrics)

  datatype Event =
    | Submit(replyTo: string, task: Task)
    | Deliver(id: nat, choice: Choice)
    | Exec(id: nat)      // the handler holding the copy performs its next operation
    | Expire(id: nat)    // the 5 s TTL of a ready message in a retry queue runs out
    | Crash(id: nat)     // the handler dies; an unsettled delivery is requeued, or lost with the handler's queue

  const START := State(map[], 0, map[], map[], Metrics(0, 0, 0, 0, 0, 0, 0, 0))

  /** How many copies a submission puts into the broker, and where. */
  function FirstQueue(t: Task): Queue {
    match PathOf(t.form)
    case RetryPath(s) => RetryQueue(s)
    case ResilientPath(s) => ResilientQueue(s)
    case ShardPath(s) => ShardQueue(s)
    case ExchangePath(x) => if t.routes == 0 then ReturnChannel else ExchangeQueue(x)
  }

  function FirstCopies(t: Task): nat {
    if Routed(t) then t.routes else 1
  }

  /** An exchange routed the task to queues of its consumers. */
  predicate Routed(t: Task) {
    PathOf(t.form).ExchangePath? && t.routes > 0
  }

  /**
   * The queue of an exchange consumer is exclusive and deleted with its consumer, with all that is in it; a death
   * of such a consumer is a crash of each copy it held or had waiting. All other queues outlive their consumers.
   */
  predicate Enabled(s: State, e: Event) {
    match e
    case Submit(r, t) => r != "" && r !in s.tasks
    case Deliver(id, c) => id in s.copies && s.copies[id].place.Ready? && c.worker != RETURN_LABEL
    case Exec(id) =>
      id in s.copies && id < s.nextId && s.copies[id].place.Held? && s.copies[id].place.pc < |ScriptOf(s.copies[id])|
    case Expire(id) => id in s.copies && s.copies[id].place.Ready? && s.copies[id].queue.RetryQueue?
    case Crash(id) =>
      id in s.copies && !s.copies[id].queue.ReturnChannel? &&
      (s.copies[id].place.Held? || s.copies[id].queue.ExchangeQueue?)
  }

  /** The position of the operation that gives the delivery back to the broker. */
  function SettleAt(c: Copy): nat
    requires c.place.Held?
  {
    var g := if c.msg.replyTo == "" then 0 else 1;
    match c.queue
    case RetryQueue(_) =>
      if RetryCount(c.msg) >= RETRY_LIMIT then g else g + 1
    case ShardQueue(_) => 2 * g
    case ResilientQueue(_) => if c.msg.forceFail || c.place.choice.coinFails then g else g + 3
    case DeadLetterQueue => g + 3
    case ExchangeQueue(_) => g
    case ReturnChannel => 2 * g + 4
  }

  /** The broker still owes this copy to someone: it is ready, or its handler has not settled it yet. */
  predicate Live(c: Copy) {
    c.place.Held? ==> c.place.pc <= SettleAt(c)
  }

  function AddCopy(s: State, q: Queue, m: Message): State {
    s.(copies := s.copies[s.nextId := Copy(q, m, Ready)], nextId := s.nextId + 1)
  }

  /** The broker routes a publish to n queues. */
  function AddCopies(s: State, q: Queue, m: Message, n: nat): State {
    if n == 0 then s else AddCopy(AddCopies(s, q, m, n - 1), q, m)
  }

  /** What one operation of a handler does to the broker and the registry. */
  function Effect(s: State, c: Copy, op: Op): (s': State)
    ensures forall id :: id in s.copies && id != s.nextId ==> id in s'.copies && s'.copies[id] == s.copies[id]
  {
    var k := s.metrics;
    match op
    case Answer(to, reply) => if to in s.replies then s.(replies := s.replies[to := s.replies[to] + [reply]]) else s
    case Republish(m) => AddCopy(s, c.queue, m)
    case Nack => AddCopy(s, DeadLetterTarget(c.queue), c.msg)
    case Forward(m) => AddCopy(s, DeadLetterQueue, m)
    case Ack => s
    case RepublishFailed => s
    case CountPublished => s.(metrics := k.(msgsPublished := k.msgsPublished + 1))
    case CountAcked => s.(metrics := k.(msgsAcked := k.msgsAcked + 1))
    case CountThroughput(w) =>
      if w == RETURN_LABEL then s.(metrics := k.(returnThroughput := k.returnThroughput + 1))
      else s.(metrics := k.(throughput := k.throughput + 1))
    case ObserveLatency => s.(metrics := k.(latencies := k.latencies + 1))
    case CountWorkerAck => s.(metrics := k.(workerAcks := k.workerAcks + 1))
    case CountReturned => s.(metrics := k.(returned := k.returned + 1))
    case CountReturnReply => s.(metrics := k.(gatewayPublished := k.gatewayPublished + 1))
    case CountReturn => s.(metrics := k.(gatewayPublished := k.gatewayPublished + 1))
  }

  /** The handler of a copy moves past one operation, and is gone after its last. */
  function Advance(s: State, id: nat): State
    requires id in s.copies && s.copies[id].place.Held?
  {
    var c := s.copies[id];
    if c.place.pc + 1 < |ScriptOf(c)| then
      s.(copies := s.copies[id := c.(place := Held(c.place.choice, c.place.pc + 1))])
    else s.(copies := s.copies - {id})
  }

  function Apply(s: State, e: Event): State
    requires Enabled(s, e)
  {
    match e
    case Submit(r, t) =>
      AddCopies(s.(tasks := s.tasks[r := t], replies := s.replies[r := []]),
                FirstQueue(t), FirstMessage(t.form, r, t.corrId), FirstCopies(t))
    case Deliver(id, c) => s.(copies := s.copies[id := s.copies[id].(place := Held(c, 0))])
    case Exec(id) => Advance(Effect(s, s.copies[id], ScriptOf(s.copies[id])[s.copies[id].place.pc]), id)
    case Expire(id) =>
      var c := s.copies[id];
      s.(copies := s.copies[id := c.(queue := DeadLetterTarget(c.queue))])
    case Crash(id) =>
      if Live(s.copies[id]) && !s.copies[id].queue.ExchangeQueue? then
        s.(copies := s.copies[id := s.copies[id].(place := Ready)])
      else s.(copies := s.copies - {id})
  }

  /** Where a task starts, and in how many copies, by the fields of its form. */
  lemma StartExact(t: Task)
    ensures var f, shard := t.form, PickShard(t.form.task);
      var exchange := if f.headersJSON != "" then Headers
                      else if '*' in f.routingKey || '#' in f.routingKey then Topic
                      else if f.routingKey != "" then Direct else Fanout;
      if f.retry == "1" then FirstQueue(t) == RetryQueue(shard) && FirstCopies(t) == 1
      else if f.fail == "1" then FirstQueue(t) == ResilientQueue(shard) && FirstCopies(t) == 1
      else if exchange == Fanout && f.broadcast != "yes" then FirstQueue(t) == ShardQueue(shard) && FirstCopies(t) == 1
      else if t.routes > 0 then FirstQueue(t) == ExchangeQueue(exchange) && FirstCopies(t) == t.routes
      else FirstQueue(t) == ReturnChannel && FirstCopies(t) == 1
  {
    hide PickShard;
  }

  /**
   * The environment is not restrained: any request with a fresh reply queue, any delivery of any ready copy with any
   * coin and any answer of the broker, any expiry in a retry queue, and any death of a worker or exchange queue.
   */
  lemma Unrestrained(s: State, r: string, t: Task, id: nat, choice: Choice)
    ensures r != "" && r !in s.tasks ==> Enabled(s, Submit(r, t))
    ensures id in s.copies && s.copies[id].place.Ready? ==>
      && (choice.worker != "dlx_handler" ==> Enabled(s, Deliver(id, choice)))
      && (Enabled(s, Expire(id)) <==> s.copies[id].queue.RetryQueue?)
      && (s.copies[id].queue.ExchangeQueue? ==> Enabled(s, Crash(id)))
    ensures id in s.copies && s.copies[id].place.Held? && !s.copies[id].queue.ReturnChannel? ==> Enabled(s, Crash(id))
  {
  }

  /**
   * A death gives the delivery back to its queue, unchanged, unless its handler had settled it or the queue was
   * exclusive to the handler; it touches nothing else.
   */
  lemma DeathExact(s: State, id: nat)
    requires Enabled(s, Crash(id)) && s.copies[id].msg.replyTo != ""
    ensures var c, s' := s.copies[id], Apply(s, Crash(id));
      var settled := c.place.Held? && exists i :: 0 <= i < c.place.pc && i < |ScriptOf(c)| &&
                                                  (ScriptOf(c)[i].Ack? || ScriptOf(c)[i].Nack?);
      && s' == s.(copies := s'.copies)
      && s'.copies == if settled || c.queue.ExchangeQueue? then s.copies - {id}
                      else s.copies[id := Copy(c.queue, c.msg, Ready)]
  {
    var c := s.copies[id];
    if c.place.Held? {
      SettledAt(c);
      hide Script, SettleAt;
      if !Live(c) { assert ScriptOf(c)[SettleAt(c)].Ack? || ScriptOf(c)[SettleAt(c)].Nack?; }
    }
  }

  lemma SettledAt(c: Copy)
    requires c.place.Held? && c.msg.replyTo != "" && !c.queue.ReturnChannel?
    ensures SettleAt(c) < |ScriptOf(c)|
    ensures forall i :: 0 <= i < |ScriptOf(c)| ==> (ScriptOf(c)[i].Ack? || ScriptOf(c)[i].Nack? <==> i == SettleAt(c))
  {
  }

  /** The events can happen one after the other, starting from s. */
  predicate Runs(s: State, es: seq<Event>)
    decreases |es|
  {
    es == [] || (Enabled(s, es[0]) && Runs(Apply(s, es[0]), es[1..]))
  }

  function After(s: State, es: seq<Event>): State
    requires Runs(s, es)
    decreases |es|
  {
    if es == [] then s else After(Apply(s, es[0]), es[1..])
  }

  /** How many handlers die. */
  function Crashes(es: seq<Event>): nat {
    if es == [] then 0 else (if es[0].Crash? then 1 else 0) + Crashes(es[1..])
  }

  predicate CrashFree(es: seq<Event>) {
    forall i :: 0 <= i < |es| ==> !es[i].Crash?
  }
}
