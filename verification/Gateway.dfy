/** gateway/server.go: how a submission is routed, published and answered. */
module Gateway {
  import opened Common
  import opened ShardHash
  import opened Messages

  /** The form fields of POST /submit-task that routing looks at. */
  datatype Form = Form(task: Bytes, routingKey: string, headersJSON: string,
                       fail: string, retry: string, broadcast: string)

  datatype Path =
    | RetryPath(shard: Shard)
    | ResilientPath(shard: Shard)
    | ExchangePath(exchange: Exchange)
    | ShardPath(shard: Shard)

  function PathOf(f: Form): Path {
    if f.retry == "1" then RetryPath(PickShard(f.task))
    else if f.fail == "1" then ResilientPath(PickShard(f.task))
    else if f.headersJSON != "" then ExchangePath(Headers)
    else if '*' in f.routingKey || '#' in f.routingKey then ExchangePath(Topic)
    else if f.routingKey != "" then ExchangePath(Direct)
    else if f.broadcast != "yes" then ShardPath(PickShard(f.task))
    else ExchangePath(Fanout)
  }

  /** The first message of a task, as its producer builds it. */
  function FirstMessage(f: Form, replyTo: string, corrId: string): Message {
    match PathOf(f)
    case RetryPath(_) => Message(f.task, replyTo, corrId, Some(0), false)
    case ResilientPath(_) => Message(f.task, replyTo, corrId, None, true)
    case _ => Message(f.task, replyTo, corrId, None, false)
  }

  // ---- names on the wire ---------------------------------------------------------

  const RING: seq<string> := ["task_shard_0", "task_shard_1", "task_shard_2", "task_shard_3"]

  function RetryName(shard: string): string { shard + "_retry_5s" }

  function ResilientName(shard: string): string { "resilient_" + shard }

  function ExchangeName(x: Exchange): string {
    match x
    case Headers => "headers_logs"
    case Topic => "topic_exchange_suyash"
    case Direct => "direct_logs"
    case Fanout => "logs"
  }

  datatype Publish = Publish(exchange: string, routingKey: string, mandatory: bool, msg: Message)

  /** The one publish that carries a task into the broker. */
  function Launch(f: Form, replyTo: string, corrId: string): Publish {
    var m := FirstMessage(f, replyTo, corrId);
    match PathOf(f)
    case RetryPath(s) => Publish("retry_exchange", RetryName(RING[s]), false, m)
    case ResilientPath(s) => Publish("", ResilientName(RING[s]), false, m)
    case ShardPath(s) => Publish("", RING[s], false, m)
    case ExchangePath(x) => Publish(ExchangeName(x), if x == Topic || x == Direct then f.routingKey else "", true, m)
  }

  /**
   * What is published for a form, branch by branch: the first field in the order retry, fail, headersJSON,
   * routingKey, broadcast that asks for something decides.
   */
  lemma LaunchExact(f: Form, replyTo: string, corrId: string)
    ensures var p := Launch(f, replyTo, corrId);
      var shard := ["task_shard_0", "task_shard_1", "task_shard_2", "task_shard_3"][PickShard(f.task)];
      var plain := Message(f.task, replyTo, corrId, None, false);
      if f.retry == "1" then
        p == Publish("retry_exchange", shard + "_retry_5s", false, Message(f.task, replyTo, corrId, Some(0), false))
      else if f.fail == "1" then
        p == Publish("", "resilient_" + shard, false, Message(f.task, replyTo, corrId, None, true))
      else if f.headersJSON != "" then p == Publish("headers_logs", "", true, plain)
      else if '*' in f.routingKey || '#' in f.routingKey then
        p == Publish("topic_exchange_suyash", f.routingKey, true, plain)
      else if f.routingKey != "" then p == Publish("direct_logs", f.routingKey, true, plain)
      else if f.broadcast == "yes" then p == Publish("logs", "", true, plain)
      else p == Publish("", shard, false, plain)
  {
    hide PickShard;
  }

  /** It is published unless the broker refuses it or the headers it needs do not decode. */
  lemma SentExact(f: Form, headersOk: bool, brokerOk: bool)
    ensures Sent(f, headersOk, brokerOk) <==>
      brokerOk && (f.retry == "1" || f.fail == "1" || f.headersJSON == "" || headersOk)
  {
    hide PickShard;
  }

  /** The gateway's producers: what they have published, and the counters they bump. */
  class Producer {
    var published: seq<Publish>
    var msgsPublished: nat
    var retryMessages: nat
    var failureMessages: nat

    constructor ()
      ensures published == [] && msgsPublished == retryMessages == failureMessages == 0
    {
      published := [];
      msgsPublished, retryMessages, failureMessages := 0, 0, 0;
    }

    /** ch.Publish, with or without an error. */
    method Send(p: Publish, brokerOk: bool) returns (ok: bool)
      modifies this`published
      ensures ok == brokerOk
      ensures published == if ok then old(published) + [p] else old(published)
    {
      ok := brokerOk;
      if ok { published := published + [p]; }
    }

    method SendToRetryQueue(shard: string, task: Bytes, replyTo: string, corrId: string, brokerOk: bool)
      returns (ok: bool)
      modifies this`published, this`retryMessages
      ensures ok == brokerOk
      ensures published == old(published) +
        if ok then
          [Publish("retry_exchange", RetryName(shard), false, Message(task, replyTo, corrId, Some(0), false))] else []
      ensures retryMessages == old(retryMessages) + if ok then 1 else 0
    {
      ok := Send(Publish("retry_exchange", shard + "_retry_5s", false,
                 Message(task, replyTo, corrId, Some(0), false)), brokerOk);
      if !ok { return; }
      retryMessages := retryMessages + 1;
    }

    method PublishToResilientQueue(shard: string, task: Bytes, replyTo: string, corrId: string, brokerOk: bool)
      returns (ok: bool)
      modifies this`published, this`failureMessages
      ensures ok == brokerOk
      ensures published == old(published) +
        if ok then [Publish("", ResilientName(shard), false, Message(task, replyTo, corrId, None, true))] else []
      ensures failureMessages == old(failureMessages) + 1
    {
      failureMessages := failureMessages + 1;
      ok := Send(Publish("", "resilient_" + shard, false, Message(task, replyTo, corrId, None, true)), brokerOk);
    }

    /** The headers, topic, direct and fanout producers: one mandatory publish to the exchange. */
    method PublishToExchange(x: Exchange, routingKey: string, msg: Message, brokerOk: bool) returns (ok: bool)
      modifies this`published
      ensures ok == brokerOk
      ensures published == old(published) + if ok then [Publish(ExchangeName(x), routingKey, true, msg)] else []
    {
      var exchange := match x
        case Headers => "headers_logs"
        case Topic => "topic_exchange_suyash"
        case Direct => "direct_logs"
        case Fanout => "logs";
      ok := Send(Publish(exchange, routingKey, true, msg), brokerOk);
    }

    /**
     * The branches of autoDetectAndPublish. brokerOk says whether the broker takes the publish, headersOk
     * whether headersJSON decodes. The error of the retry producer is dropped, as in the source.
     */
    method AutoDetectAndPublish(f: Form, replyTo: string, corrId: string, headersOk: bool, brokerOk: bool)
      returns (ok: bool)
      modifies this
      ensures published == old(published) + if Sent(f, headersOk, brokerOk) then [Launch(f, replyTo, corrId)] else []
      ensures ok == (f.retry == "1" || Sent(f, headersOk, brokerOk))
      ensures msgsPublished == old(msgsPublished) + if ok then 1 else 0
      ensures retryMessages == old(retryMessages) + if f.retry == "1" && brokerOk then 1 else 0
      ensures failureMessages == old(failureMessages) + if f.retry != "1" && f.fail == "1" then 1 else 0
    {
      var shard := RING[PickShard(f.task)];
      LaunchExact(f, replyTo, corrId);
      hide PickShard, Launch;
      if f.retry == "1" {
        var _ := SendToRetryQueue(shard, f.task, replyTo, corrId, brokerOk);
        msgsPublished := msgsPublished + 1;
        return true;
      }
      if f.fail == "1" {
        ok := PublishToResilientQueue(shard, f.task, replyTo, corrId, brokerOk);
        if ok { msgsPublished := msgsPublished + 1; }
        return;
      }
      var plain := Message(f.task, replyTo, corrId, None, false);
      if f.headersJSON != "" {
        if !headersOk { return false; }
        ok := PublishToExchange(Headers, "", plain, brokerOk);
        if ok { msgsPublished := msgsPublished + 1; }
        return;
      }
      if '*' in f.routingKey || '#' in f.routingKey {
        ok := PublishToExchange(Topic, f.routingKey, plain, brokerOk);
        if ok { msgsPublished := msgsPublished + 1; }
        return;
      }
      if f.routingKey != "" {
        ok := PublishToExchange(Direct, f.routingKey, plain, brokerOk);
        if ok { msgsPublished := msgsPublished + 1; }
        return;
      }
      if f.broadcast != "yes" {
        ok := Send(Publish("", shard, false, plain), brokerOk);
        if ok { msgsPublished := msgsPublished + 1; }
        return;
      } else {
        ok := PublishToExchange(Fanout, "", plain, brokerOk);
        if ok { msgsPublished := msgsPublished + 1; }
        return;
      }
    }
  }

  /** Whether a submission's message reaches the broker at all. */
  predicate Sent(f: Form, headersOk: bool, brokerOk: bool) {
    brokerOk && (PathOf(f) == ExchangePath(Headers) ==> headersOk)
  }

  // ---- waiting for the answer ------------------------------------------------------

  /** What the wait loop acts on: the caller's own correlation ID, and not an interim status. */
  predicate Answers(reply: Reply, corrId: string) {
    reply.corrId == corrId && Terminal(reply)
  }

  /** The first element of a reply queue that the wait loop returns to the client. */
  function Feedback(queue: seq<Reply>, corrId: string): (r: Option<Reply>)
    ensures r.None? ==> forall i :: 0 <= i < |queue| ==> queue[i].corrId != corrId || queue[i].status == Retrying
    ensures r.Some? ==> r.value.corrId == corrId && (r.value.status == Succeeded || r.value.status == DeadLettered)
    ensures r.Some? ==> exists i :: 0 <= i < |queue| && queue[i] == r.value && Answers(queue[i], corrId) &&
                                    forall j :: 0 <= j < i ==> !Answers(queue[j], corrId)
  {
    if queue == [] then None
    else if Answers(queue[0], corrId) then Some(queue[0])
    else
      var r := Feedback(queue[1..], corrId);
      assert forall i :: 1 <= i < |queue| ==> queue[i] == queue[1..][i - 1];
      assert r.Some? ==> exists i :: 0 <= i < |queue| && queue[i] == r.value && Answers(queue[i], corrId) &&
                                     forall j :: 0 <= j < i ==> !Answers(queue[j], corrId) by {
        if r.Some? {
          var k :| 0 <= k < |queue[1..]| && queue[1..][k] == r.value && Answers(queue[1..][k], corrId) &&
                   forall j :: 0 <= j < k ==> !Answers(queue[1..][j], corrId);
          assert queue[k + 1] == r.value;
          forall j | 0 <= j < k + 1 ensures !Answers(queue[j], corrId) {
            if j > 0 { assert queue[j] == queue[1..][j - 1]; }
          }
        }
      }
      r
  }

  /** The wait loop of handleSubmitTask; None is the 504 after the reply channel closes. */
  method AwaitFeedback(queue: seq<Reply>, corrId: string) returns (r: Option<Reply>)
    ensures r == Feedback(queue, corrId)
  {
    assert queue[0..] == queue;
    for i := 0 to |queue|
      invariant Feedback(queue, corrId) == Feedback(queue[i..], corrId)
    {
      var d := queue[i];
      assert queue[i..][1..] == queue[i + 1..];
      if d.corrId != corrId { continue; }
      if d.status == Retrying { continue; }
      return Some(d);
    }
    return None;
  }

  /** Later replies never change what the client was told. */
  lemma {:induction false} FeedbackStable(queue: seq<Reply>, more: seq<Reply>, corrId: string)
    requires Feedback(queue, corrId).Some?
    ensures Feedback(queue + more, corrId) == Feedback(queue, corrId)
  {
    if !Answers(queue[0], corrId) {
      FeedbackStable(queue[1..], more, corrId);
      assert (queue + more)[1..] == queue[1..] + more;
    }
  }
}
