/**
 * The vocabulary of the task protocol: messages and the queues they rest in, the atomic operations a
 * handler performs against the broker and the metrics registry, and, per kind of queue, the script of
 * operations one delivery causes.
 */
module Messages {
  import opened Common
  import opened ShardHash

  datatype Status = Retrying | Succeeded | DeadLettered

  /** The JSON feedback a worker publishes to the caller's reply queue. */
  datatype Reply = Reply(corrId: string, status: Status, attempt: int)

  predicate Terminal(reply: Reply) {
    reply.status != Retrying
  }

  /** A task message; retryHeader is x-retry-count, forceFail is x-force-fail. */
  datatype Message = Message(body: Bytes, replyTo: string, corrId: string, retryHeader: Option<int>, forceFail: bool)

  function RetryCount(m: Message): int {
    if m.retryHeader.Some? then m.retryHeader.value else 0
  }

  datatype Exchange = Headers | Topic | Direct | Fanout

  /** ReturnChannel is the NotifyReturn channel on which the broker hands back unroutable messages. */
  datatype Queue =
    | ShardQueue(shard: Shard)
    | RetryQueue(shard: Shard)
    | ResilientQueue(shard: Shard)
    | DeadLetterQueue
    | ExchangeQueue(exchange: Exchange)
    | ReturnChannel

  /** Where a message goes when its consumer nacks it without requeue, or its TTL runs out. */
  function DeadLetterTarget(q: Queue): Queue {
    if q.RetryQueue? then ShardQueue(q.shard) else DeadLetterQueue
  }

  const RETRY_LIMIT := 3

  const RETURN_LABEL := "dlx_handler"

  datatype Op =
    | Answer(to: string, reply: Reply)    // publish to the reply queue through the default exchange
    | Republish(msg: Message)             // accepted publish to retry_exchange, back into the same queue
    | RepublishFailed                     // the same publish, refused with an error
    | Ack
    | Nack                                // d.Nack(false, false): the broker dead-letters the message
    | Forward(msg: Message)               // publish to dlx_exchange under dead_task
    | CountPublished                      // MsgsPublished
    | CountAcked                          // MsgsAcked
    | CountThroughput(worker: string)     // WorkerThroughput[worker]
    | ObserveLatency                      // TaskLatency
    | CountWorkerAck                      // AckCount
    | CountReturned                       // DLXMessages
    | CountReturnReply                    // publishedCount, for the reply of the return handler
    | CountReturn                         // publishedCount, for the forwarded message

  /** What the environment decides about one delivery: who handles it, the coin, and the republish. */
  datatype Choice = Choice(worker: string, coinFails: bool, publishOk: bool)

  /** The part of a handler under `if d.ReplyTo != ""`. */
  function Guarded(m: Message, ops: seq<Op>): seq<Op> {
    if m.replyTo == "" then [] else ops
  }

  /** The operations that handling m, delivered from q, performs, in order. */
  function Script(q: Queue, m: Message, c: Choice): seq<Op> {
    match q
    case RetryQueue(_) =>
      var n := RetryCount(m);
      if n >= RETRY_LIMIT then
        Guarded(m, [Answer(m.replyTo, Reply(m.corrId, DeadLettered, 0))]) +
        [Ack, CountAcked, CountThroughput(c.worker), ObserveLatency]
      else if c.publishOk then
        Guarded(m, [Answer(m.replyTo, Reply(m.corrId, Retrying, n + 1))]) +
        [Republish(m.(retryHeader := Some(n + 1), forceFail := false)),
         Ack, CountAcked, CountThroughput(c.worker), ObserveLatency]
      else
        Guarded(m, [Answer(m.replyTo, Reply(m.corrId, Retrying, n + 1))]) + [RepublishFailed, Nack]
    case ShardQueue(_) =>
      Guarded(m, [Answer(m.replyTo, Reply(m.corrId, Succeeded, 0)), CountPublished]) +
      [Ack, CountAcked, CountThroughput(c.worker), ObserveLatency, CountWorkerAck]
    case ResilientQueue(_) =>
      if m.forceFail || c.coinFails then
        Guarded(m, [Answer(m.replyTo, Reply(m.corrId, DeadLettered, 0))]) + [Nack]
      else
        Guarded(m, [Answer(m.replyTo, Reply(m.corrId, Succeeded, 0))]) +
        [CountAcked, CountThroughput(c.worker), ObserveLatency, Ack]
    case DeadLetterQueue =>
      Guarded(m, [Answer(m.replyTo, Reply(m.corrId, DeadLettered, 0))]) +
      [CountAcked, CountThroughput("dlq"), ObserveLatency, Ack]
    case ExchangeQueue(_) =>
      Guarded(m, [Answer(m.replyTo, Reply(m.corrId, Succeeded, 0))]) +
      [Ack, CountAcked, CountThroughput(c.worker), ObserveLatency]
    case ReturnChannel =>
      [CountReturned] +
      Guarded(m, [CountReturnReply, Answer(m.replyTo, Reply(m.corrId, DeadLettered, 0))]) +
      [CountReturn, CountThroughput(RETURN_LABEL), ObserveLatency,
       Forward(Message(m.body, m.replyTo, m.corrId, None, false))]
  }

  /** The scripts of a run of deliveries from one queue, one after the other. */
  function Scripts(q: Queue, msgs: seq<Message>, choices: seq<Choice>): seq<Op>
    requires |msgs| == |choices|
  {
    if msgs == [] then []
    else
      var n := |msgs| - 1;
      Scripts(q, msgs[..n], choices[..n]) + Script(q, msgs[n], choices[n])
  }
}
