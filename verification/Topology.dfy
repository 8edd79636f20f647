/**
 * The queues, exchanges and bindings that start-up declares on the broker, and what they make of a publish, a
 * nack and an expiry. The edges of the lifecycle model are shown to be the ones declared here.
 */
module Topology {
  import opened Common
  import opened ShardHash
  import opened Messages
  import opened Gateway
  import opened Lifecycle

  /** Arguments of a queue declaration: time to live in ms, dead-letter exchange and routing key. */
  datatype QueueArgs =
    QueueArgs(quorum: bool, ttl: Option<int>, deadLetterExchange: Option<string>, deadLetterKey: string)

  datatype Declaration = Declaration(name: string, args: QueueArgs)

  datatype Binding = Binding(queue: string, routingKey: string, exchange: string)

  type Queues = map<string, QueueArgs>

  const QUORUM_ARGS := QueueArgs(true, None, Some("dlx_exchange"), "dead_task")

  const PLAIN_ARGS := QueueArgs(false, None, None, "")

  function ShardDeclaration(shard: string): Declaration {
    Declaration(shard, QUORUM_ARGS)
  }

  function RetryDeclaration(shard: string): Declaration {
    Declaration(RetryName(shard), QueueArgs(false, Some(5000), Some(""), shard))
  }

  function ResilientDeclaration(shard: string): Declaration {
    Declaration(ResilientName(shard), QUORUM_ARGS)
  }

  function RetryBinding(shard: string): Binding {
    Binding(RetryName(shard), RetryName(shard), "retry_exchange")
  }

  const DLQ_DECLARATION := Declaration("dead_letter_queue", PLAIN_ARGS)

  const DLQ_BINDING := Binding("dead_letter_queue", "dead_task", "dlx_exchange")

  function Each<T>(ring: seq<string>, f: string -> T): seq<T> {
    seq(|ring|, i requires 0 <= i < |ring| => f(ring[i]))
  }

  // ---- declaring ------------------------------------------------------------------------

  /** A declaration succeeds iff the queue is new or was declared with the same arguments. */
  predicate Accepts(queues: Queues, d: Declaration) {
    d.name in queues ==> queues[d.name] == d.args
  }

  /** The queue table after a run of declarations, or None from the first one that the broker refuses. */
  function DeclareAll(queues: Queues, ds: seq<Declaration>): Option<Queues> {
    if ds == [] then Some(queues)
    else
      var n := |ds| - 1;
      var sofar := DeclareAll(queues, ds[..n]);
      if sofar.Some? && Accepts(sofar.value, ds[n]) then Some(sofar.value[ds[n].name := ds[n].args]) else None
  }

  lemma {:induction false} DeclareStep(queues: Queues, ds: seq<Declaration>, i: nat)
    requires i < |ds|
    ensures var sofar := DeclareAll(queues, ds[..i]);
      DeclareAll(queues, ds[..i + 1]) ==
      if sofar.Some? && Accepts(sofar.value, ds[i]) then Some(sofar.value[ds[i].name := ds[i].args]) else None
  {
    assert ds[..i + 1][..i] == ds[..i];
  }

  /** Once refused, start-up is over. */
  lemma {:induction false} RefusedForGood(queues: Queues, ds: seq<Declaration>, i: nat)
    requires i <= |ds| && DeclareAll(queues, ds[..i]) == None
    ensures DeclareAll(queues, ds) == None
    decreases |ds| - i
  {
    if i < |ds| {
      DeclareStep(queues, ds, i);
      RefusedForGood(queues, ds, i + 1);
    } else {
      assert ds[..i] == ds;
    }
  }

  class Broker {
    var queues: Queues
    var bindings: set<Binding>

    constructor ()
      ensures queues == map[] && bindings == {}
    {
      queues, bindings := map[], {};
    }

    method QueueDeclare(name: string, args: QueueArgs) returns (ok: bool)
      modifies this`queues
      ensures ok == Accepts(old(queues), Declaration(name, args))
      ensures queues == if ok then old(queues)[name := args] else old(queues)
    {
      ok := name !in queues || queues[name] == args;
      if ok { queues := queues[name := args]; }
    }

    /** gateway/server.go, start of main: one quorum queue per shard, dead-lettering to dlx_exchange. */
    method DeclareShards(ring: seq<string>) returns (ok: bool)
      modifies this`queues
      ensures if ok then DeclareAll(old(queues), Each(ring, ShardDeclaration)) == Some(queues)
              else DeclareAll(old(queues), Each(ring, ShardDeclaration)) == None
    {
      ghost var ds := Each(ring, ShardDeclaration);
      for i := 0 to |ring|
        invariant DeclareAll(old(queues), ds[..i]) == Some(queues)
      {
        DeclareStep(old(queues), ds, i);
        ok := QueueDeclare(ring[i], QUORUM_ARGS);
        if !ok {
          RefusedForGood(old(queues), ds, i + 1);
          return;
        }
      }
      assert ds[..|ring|] == ds;
      ok := true;
    }

    /** dlq_worker.go, one worker per shard: the resilient queue, with the same arguments. */
    method DeclareResilient(ring: seq<string>) returns (ok: bool)
      modifies this`queues
      ensures if ok then DeclareAll(old(queues), Each(ring, ResilientDeclaration)) == Some(queues)
              else DeclareAll(old(queues), Each(ring, ResilientDeclaration)) == None
    {
      ghost var ds := Each(ring, ResilientDeclaration);
      for i := 0 to |ring|
        invariant DeclareAll(old(queues), ds[..i]) == Some(queues)
      {
        DeclareStep(old(queues), ds, i);
        ok := QueueDeclare("resilient_" + ring[i], QUORUM_ARGS);
        if !ok {
          RefusedForGood(old(queues), ds, i + 1);
          return;
        }
      }
      assert ds[..|ring|] == ds;
      ok := true;
    }

    /** delay_setup.go: per shard a queue whose messages expire back to the shard, bound to retry_exchange. */
    method SetupRetryQueues(ring: seq<string>) returns (ok: bool)
      modifies this
      ensures if ok then DeclareAll(old(queues), Each(ring, RetryDeclaration)) == Some(queues)
              else DeclareAll(old(queues), Each(ring, RetryDeclaration)) == None
      ensures ok ==> bindings == old(bindings) + set i | 0 <= i < |ring| :: RetryBinding(ring[i])
    {
      ghost var ds := Each(ring, RetryDeclaration);
      for i := 0 to |ring|
        invariant DeclareAll(old(queues), ds[..i]) == Some(queues)
        invariant bindings == old(bindings) + set j | 0 <= j < i :: RetryBinding(ring[j])
      {
        var shard := ring[i];
        var deltaQueue := shard + "_retry_5s";
        assert deltaQueue == RetryName(shard) && ds[i] == RetryDeclaration(shard);
        hide RetryName;
        DeclareStep(old(queues), ds, i);
        ok := QueueDeclare(deltaQueue, QueueArgs(false, Some(5000), Some(""), shard));
        if !ok {
          RefusedForGood(old(queues), ds, i + 1);
          return;
        }
        bindings := bindings + {Binding(deltaQueue, deltaQueue, "retry_exchange")};
        assert (set j | 0 <= j < i + 1 :: RetryBinding(ring[j])) ==
               (set j | 0 <= j < i :: RetryBinding(ring[j])) + {RetryBinding(shard)};
      }
      assert ds[..|ring|] == ds;
      ok := true;
    }

    /** dlq_consumer.go: the dead-letter queue and its binding to dlx_exchange. */
    method SetupDeadLetters() returns (ok: bool)
      modifies this
      ensures if ok then DeclareAll(old(queues), [DLQ_DECLARATION]) == Some(queues)
              else DeclareAll(old(queues), [DLQ_DECLARATION]) == None
      ensures ok ==> bindings == old(bindings) + {DLQ_BINDING}
    {
      ghost var ds := [DLQ_DECLARATION];
      assert ds[..0] == [] && ds[..1] == ds;
      DeclareStep(old(queues), ds, 0);
      ok := QueueDeclare("dead_letter_queue", PLAIN_ARGS);
      if !ok { return; }
      bindings := bindings + {Binding("dead_letter_queue", "dead_task", "dlx_exchange")};
    }

    /**
     * The direct, topic, fanout and headers consumers: each has the broker make up the name of an exclusive queue,
     * and binds it to its exchange.
     */
    method DeclareConsumers(names: seq<string>)
      requires |names| == |CONSUMERS| && NoDuplicates(names) && forall i :: 0 <= i < |names| ==> names[i] !in queues
      modifies this
      ensures queues == old(queues) + ConsumerQueues(names)
      ensures bindings == old(bindings) + ConsumerBindings(names)
    {
      hide ExchangeName, BindingKey, ConsumerQueues, ConsumerBinding, NoDuplicates;
      NoConsumers(queues);
      for i := 0 to |CONSUMERS|
        invariant queues == old(queues) + ConsumerQueues(names[..i])
        invariant bindings == old(bindings) + set j | 0 <= j < i :: ConsumerBinding(names, j)
      {
        OneMoreConsumer(old(queues), names, i);
        var _ := QueueDeclare(names[i], PLAIN_ARGS);
        bindings := bindings + {Binding(names[i], BindingKey(CONSUMERS[i]), ExchangeName(CONSUMERS[i]))};
        BindsConsumer(names, i);
        assert (set j | 0 <= j < i + 1 :: ConsumerBinding(names, j)) ==
               (set j | 0 <= j < i :: ConsumerBinding(names, j)) + {ConsumerBinding(names, i)};
      }
      assert names[..|names|] == names;
    }

    /** The queues with names of their own, but the dead-letter queue. */
    method DeclareNamed() returns (ok: bool)
      modifies this
      ensures if ok then DeclareAll(old(queues), NAMED) == Some(queues) else DeclareAll(old(queues), NAMED) == None
      ensures ok ==> bindings == old(bindings) + set i | 0 <= i < |RING| :: RetryBinding(RING[i])
    {
      DeclareConcat(queues, Each(RING, ShardDeclaration), AFTER_SHARDS);
      ok := DeclareShards(RING);
      if !ok { return; }
      DeclareConcat(queues, Each(RING, RetryDeclaration), AFTER_RETRY);
      ok := SetupRetryQueues(RING);
      if !ok { return; }
      DeclareConcat(queues, Each(RING, ShardDeclaration), Each(RING, ResilientDeclaration));
      ok := DeclareShards(RING);
      if !ok { return; }
      ok := DeclareResilient(RING);
    }

    /**
     * main: shards, retry queues, the shard workers' own declarations, resilient queues, the consumers of the
     * exchanges, dead letters. names are the ones the broker makes up.
     */
    method StartUp(names: seq<string>) returns (ok: bool)
      requires MadeUp(queues, names)
      modifies this
      ensures ok <==> DeclareAll(old(queues), STARTUP).Some?
      ensures ok ==> queues == Running(old(queues), names)
      ensures ok ==> bindings == old(bindings) + AllBindings(names)
    {
      hide ConsumerQueues, Each;
      DeclareConcat(queues, NAMED, [DLQ_DECLARATION]);
      ok := DeclareNamed();
      if !ok { return; }
      ghost var named := queues;
      NamesStayFree(old(queues), names, named);
      DeclareConsumers(names);
      LateDeclare(named, ConsumerQueues(names), DLQ_DECLARATION);
      ok := SetupDeadLetters();
    }
  }

  // ---- the queues the broker names ------------------------------------------------------------

  /** The exchanges with a consumer, in the order in which main starts them. */
  const CONSUMERS: seq<Exchange> := [Direct, Topic, Fanout, Headers]

  /** The binding key of each consumer; the fanout and headers exchanges do not look at it. */
  function BindingKey(x: Exchange): string {
    match x
    case Direct => "info"
    case Topic => "app.*"
    case Fanout => ""
    case Headers => ""
  }

  function ConsumerBinding(names: seq<string>, i: nat): Binding
    requires i < |names| == |CONSUMERS|
  {
    Binding(names[i], BindingKey(CONSUMERS[i]), ExchangeName(CONSUMERS[i]))
  }

  function ConsumerQueues(names: seq<string>): Queues {
    map name | name in names :: PLAIN_ARGS
  }

  function ConsumerBindings(names: seq<string>): set<Binding>
    requires |names| == |CONSUMERS|
  {
    set i | 0 <= i < |names| :: ConsumerBinding(names, i)
  }

  /** Four different names that no queue has, and that none of the named queues of start-up will have. */
  ghost predicate MadeUp(queues: Queues, names: seq<string>) {
    && |names| == |CONSUMERS| && NoDuplicates(names)
    && forall i :: 0 <= i < |names| ==>
         names[i] !in queues && forall k :: 0 <= k < |STARTUP| ==> names[i] != STARTUP[k].name
  }

  /** The queues of a broker after start-up. */
  ghost function Running(before: Queues, names: seq<string>): Queues
    requires DeclareAll(before, STARTUP).Some?
  {
    DeclareAll(before, STARTUP).value + ConsumerQueues(names)
  }

  function AllBindings(names: seq<string>): set<Binding>
    requires |names| == |CONSUMERS|
  {
    StartupBindings() + ConsumerBindings(names)
  }

  /** Declarations add no name but their own. */
  lemma {:induction false} OnlyDeclared(queues: Queues, ds: seq<Declaration>, name: string)
    requires DeclareAll(queues, ds).Some? && name !in queues && forall i :: 0 <= i < |ds| ==> name != ds[i].name
    ensures name !in DeclareAll(queues, ds).value
  {
    if ds != [] { OnlyDeclared(queues, ds[..|ds| - 1], name); }
  }

  lemma NamesStayFree(before: Queues, names: seq<string>, after: Queues)
    requires MadeUp(before, names) && DeclareAll(before, NAMED) == Some(after)
    ensures forall i :: 0 <= i < |names| ==> names[i] !in after
    ensures DLQ_DECLARATION.name !in ConsumerQueues(names)
  {
    hide DeclareAll;
    assert forall k :: 0 <= k < |NAMED| ==> NAMED[k] == STARTUP[k];
    assert STARTUP[|NAMED|] == DLQ_DECLARATION;
    forall i | 0 <= i < |names| ensures names[i] !in after {
      OnlyDeclared(before, NAMED, names[i]);
    }
  }

  lemma NoConsumers(queues: Queues)
    ensures forall names: seq<string> :: queues == queues + ConsumerQueues(names[..0])
  {
  }

  lemma OneMoreConsumer(queues: Queues, names: seq<string>, i: nat)
    requires i < |names| && NoDuplicates(names) && names[i] !in queues
    ensures names[i] !in queues + ConsumerQueues(names[..i])
    ensures (queues + ConsumerQueues(names[..i]))[names[i] := PLAIN_ARGS] == queues + ConsumerQueues(names[..i + 1])
  {
    assert names[..i + 1] == names[..i] + [names[i]];
    assert names[i] !in names[..i];
  }

  lemma BindsConsumer(names: seq<string>, i: nat)
    requires i < |names| == |CONSUMERS|
    ensures ConsumerBinding(names, i) == Binding(names[i], BindingKey(CONSUMERS[i]), ExchangeName(CONSUMERS[i]))
  {
  }

  /** A declaration does not mind queues of other names. */
  lemma LateDeclare(queues: Queues, more: Queues, d: Declaration)
    requires d.name !in more
    ensures DeclareAll(queues + more, [d]).Some? <==> DeclareAll(queues, [d]).Some?
    ensures DeclareAll(queues, [d]).Some? ==>
      DeclareAll(queues + more, [d]).value == DeclareAll(queues, [d]).value + more
  {
    assert [d][..0] == [];
    assert DeclareAll(queues + more, []) == Some(queues + more);
    assert (queues + more)[d.name := d.args] == queues[d.name := d.args] + more;
  }

  /** The declarations of named queues, in order; the shard workers declare the shard queues a second time. */
  const AFTER_RETRY: seq<Declaration> := Each(RING, ShardDeclaration) + Each(RING, ResilientDeclaration)
  const AFTER_SHARDS: seq<Declaration> := Each(RING, RetryDeclaration) + AFTER_RETRY
  const NAMED: seq<Declaration> := Each(RING, ShardDeclaration) + AFTER_SHARDS
  const STARTUP: seq<Declaration> := NAMED + [DLQ_DECLARATION]

  function StartupBindings(): set<Binding> {
    (set i | 0 <= i < |RING| :: RetryBinding(RING[i])) + {DLQ_BINDING}
  }

  lemma {:induction false} DeclareConcat(queues: Queues, a: seq<Declaration>, b: seq<Declaration>)
    ensures DeclareAll(queues, a + b) ==
            if DeclareAll(queues, a).Some? then DeclareAll(DeclareAll(queues, a).value, b) else None
  {
    if b == [] {
      assert a + b == a;
    } else {
      var n := |b| - 1;
      DeclareConcat(queues, a, b[..n]);
      assert (a + b)[..|a| + n] == a + b[..n];
    }
  }

  // ---- what start-up leaves behind --------------------------------------------------------

  /** Every declared queue has its arguments, and nothing that was there has changed. */
  lemma {:induction false} DeclaredStays(queues: Queues, ds: seq<Declaration>, i: nat)
    requires DeclareAll(queues, ds).Some? && i < |ds|
    ensures var q := DeclareAll(queues, ds).value; ds[i].name in q && q[ds[i].name] == ds[i].args
  {
    var n := |ds| - 1;
    if i < n {
      DeclaredStays(queues, ds[..n], i);
    }
  }

  /** No two declarations give one name different arguments. */
  ghost predicate Consistent(ds: seq<Declaration>) {
    forall i, j :: 0 <= i < |ds| && 0 <= j < |ds| && ds[i].name == ds[j].name ==> ds[i].args == ds[j].args
  }

  /** Consistent declarations are refused iff the broker already holds one of the queues with other arguments. */
  lemma {:induction false} AcceptedIff(queues: Queues, ds: seq<Declaration>)
    requires Consistent(ds)
    ensures DeclareAll(queues, ds).Some? <==>
      forall i :: 0 <= i < |ds| && ds[i].name in queues ==> queues[ds[i].name] == ds[i].args
    ensures DeclareAll(queues, ds).Some? ==> forall q :: q in DeclareAll(queues, ds).value ==>
              || (q in queues && DeclareAll(queues, ds).value[q] == queues[q])
              || exists i :: 0 <= i < |ds| && ds[i].name == q && ds[i].args == DeclareAll(queues, ds).value[q]
    ensures DeclareAll(queues, ds).Some? ==> queues.Keys <= DeclareAll(queues, ds).value.Keys
  {
    if ds != [] {
      var n := |ds| - 1;
      assert forall i :: 0 <= i < n ==> ds[..n][i] == ds[i];
      AcceptedIff(queues, ds[..n]);
      var sofar := DeclareAll(queues, ds[..n]);
      if sofar.Some? {
        if Accepts(queues, ds[n]) {
          assert Accepts(sofar.value, ds[n]);
        }
      }
    }
  }

  /** Every declaration of start-up is one of these. */
  ghost predicate IsStartup(d: Declaration) {
    d == DLQ_DECLARATION ||
    exists k :: 0 <= k < |RING| &&
      (d == ShardDeclaration(RING[k]) || d == RetryDeclaration(RING[k]) || d == ResilientDeclaration(RING[k]))
  }

  lemma StartupMembers()
    ensures forall i :: 0 <= i < |STARTUP| ==> IsStartup(STARTUP[i])
    ensures forall k :: 0 <= k < 4 ==>
      && STARTUP[k] == ShardDeclaration(RING[k])
      && STARTUP[4 + k] == RetryDeclaration(RING[k])
      && STARTUP[12 + k] == ResilientDeclaration(RING[k])
    ensures |STARTUP| == 17 && STARTUP[16] == DLQ_DECLARATION
  {
  }

  lemma RetryNameInjective(a: string, b: string)
    requires RetryName(a) == RetryName(b)
    ensures a == b
  {
    assert a == RetryName(a)[..|RetryName(a)| - 9];
    assert b == RetryName(b)[..|RetryName(b)| - 9];
  }

  lemma RingLengths(k: int)
    requires 0 <= k < |RING|
    ensures |RING[k]| == 12 && |RetryName(RING[k])| == 21 && |ResilientName(RING[k])| == 22
  {
  }

  lemma StartupConsistent()
    ensures Consistent(STARTUP)
  {
    StartupMembers();
    hide RetryName, ResilientName;
    forall i, j | 0 <= i < |STARTUP| && 0 <= j < |STARTUP| && STARTUP[i].name == STARTUP[j].name
      ensures STARTUP[i].args == STARTUP[j].args
    {
      SameNameSameArgs(STARTUP[i], STARTUP[j]);
    }
  }

  lemma SameNameSameArgs(d: Declaration, e: Declaration)
    requires IsStartup(d) && IsStartup(e) && d.name == e.name
    ensures d.args == e.args
  {
    hide RetryName, ResilientName;
    forall k | 0 <= k < |RING| ensures |RING[k]| == 12 && |RetryName(RING[k])| == 21 && |ResilientName(RING[k])| == 22 {
      RingLengths(k);
    }
    forall k, l | 0 <= k < |RING| && 0 <= l < |RING| && RetryName(RING[k]) == RetryName(RING[l])
      ensures RING[k] == RING[l]
    {
      RetryNameInjective(RING[k], RING[l]);
    }
    assert |DLQ_DECLARATION.name| == 17;
  }

  /**
   * Start-up is refused iff the broker holds one of its queues with other arguments; in particular the three
   * places that declare shard and resilient queues agree, and a second gateway can start on the same broker.
   */
  lemma StartupAccepted(queues: Queues)
    ensures DeclareAll(queues, STARTUP).Some? <==> forall i :: 0 <= i < |STARTUP| ==> Accepts(queues, STARTUP[i])
    ensures DeclareAll(queues, STARTUP).Some? ==>
      DeclareAll(DeclareAll(queues, STARTUP).value, STARTUP).Some?
  {
    hide DeclareAll;
    StartupConsistent();
    AcceptedIff(queues, STARTUP);
    if DeclareAll(queues, STARTUP).Some? {
      forall i | 0 <= i < |STARTUP| ensures Accepts(DeclareAll(queues, STARTUP).value, STARTUP[i]) {
        DeclaredStays(queues, STARTUP, i);
      }
      AcceptedIff(DeclareAll(queues, STARTUP).value, STARTUP);
    }
  }

  /** The queue is there, with these arguments. */
  ghost predicate Has(queues: Queues, name: string, args: QueueArgs) {
    name in queues && queues[name] == args
  }

  /**
   * What start-up leaves on the broker: shard and resilient queues are quorum queues that dead-letter to dlx_exchange,
   * retry queues expire back to their shard after five seconds, and the dead-letter queue and the consumers' queues
   * neither expire nor dead-letter. Every other queue is as it was.
   */
  lemma QueuesExact(before: Queues, names: seq<string>, k: nat)
    requires DeclareAll(before, STARTUP).Some? && MadeUp(before, names) && k < 4
    ensures var queues := Running(before, names);
      var shard := ["task_shard_0", "task_shard_1", "task_shard_2", "task_shard_3"][k];
      && Has(queues, shard, QueueArgs(true, None, Some("dlx_exchange"), "dead_task"))
      && Has(queues, shard + "_retry_5s", QueueArgs(false, Some(5000), Some(""), shard))
      && Has(queues, "resilient_" + shard, QueueArgs(true, None, Some("dlx_exchange"), "dead_task"))
      && Has(queues, "dead_letter_queue", QueueArgs(false, None, None, ""))
      && Has(queues, names[k], QueueArgs(false, None, None, ""))
  {
    DeclaredQueues(before, names, k);
    StartupMembers();
    hide DeclareAll, IsStartup, ShardDeclaration, RetryName, ResilientName, RetryDeclaration, ResilientDeclaration;
    DeclaredStays(before, STARTUP, 16);
    assert STARTUP[16].name !in names;
    hide STARTUP;
  }

  lemma OthersUntouched(before: Queues, names: seq<string>, q: string)
    requires DeclareAll(before, STARTUP).Some? && MadeUp(before, names) && q in Running(before, names)
    requires q !in names && forall i :: 0 <= i < |STARTUP| ==> STARTUP[i].name != q
    ensures q in before && Running(before, names)[q] == before[q]
  {
    StartupConsistent();
    AcceptedIff(before, STARTUP);
    hide DeclareAll;
  }

  /** The bindings of start-up: four of retry queues, one of the dead-letter queue, one per exchange consumer. */
  lemma BindingsExact(names: seq<string>, b: Binding)
    requires |names| == |CONSUMERS|
    ensures b in AllBindings(names) <==>
      || b == Binding("task_shard_0_retry_5s", "task_shard_0_retry_5s", "retry_exchange")
      || b == Binding("task_shard_1_retry_5s", "task_shard_1_retry_5s", "retry_exchange")
      || b == Binding("task_shard_2_retry_5s", "task_shard_2_retry_5s", "retry_exchange")
      || b == Binding("task_shard_3_retry_5s", "task_shard_3_retry_5s", "retry_exchange")
      || b == Binding("dead_letter_queue", "dead_task", "dlx_exchange")
      || b == Binding(names[0], "info", "direct_logs") || b == Binding(names[1], "app.*", "topic_exchange_suyash")
      || b == Binding(names[2], "", "logs") || b == Binding(names[3], "", "headers_logs")
  {
    RetryBindingsExact(b);
    ConsumerBindingsExact(names, b);
    hide ConsumerBindings;
  }

  lemma RetryBindingsExact(b: Binding)
    ensures b in (set i | 0 <= i < |RING| :: RetryBinding(RING[i])) <==>
      || b == Binding("task_shard_0_retry_5s", "task_shard_0_retry_5s", "retry_exchange")
      || b == Binding("task_shard_1_retry_5s", "task_shard_1_retry_5s", "retry_exchange")
      || b == Binding("task_shard_2_retry_5s", "task_shard_2_retry_5s", "retry_exchange")
      || b == Binding("task_shard_3_retry_5s", "task_shard_3_retry_5s", "retry_exchange")
  {
    assert RetryBinding(RING[0]) == Binding("task_shard_0_retry_5s", "task_shard_0_retry_5s", "retry_exchange");
    assert RetryBinding(RING[1]) == Binding("task_shard_1_retry_5s", "task_shard_1_retry_5s", "retry_exchange");
    assert RetryBinding(RING[2]) == Binding("task_shard_2_retry_5s", "task_shard_2_retry_5s", "retry_exchange");
    assert RetryBinding(RING[3]) == Binding("task_shard_3_retry_5s", "task_shard_3_retry_5s", "retry_exchange");
    hide RetryBinding;
  }

  lemma ConsumerBindingsExact(names: seq<string>, b: Binding)
    requires |names| == |CONSUMERS|
    ensures b in ConsumerBindings(names) <==>
      || b == Binding(names[0], "info", "direct_logs") || b == Binding(names[1], "app.*", "topic_exchange_suyash")
      || b == Binding(names[2], "", "logs") || b == Binding(names[3], "", "headers_logs")
  {
    assert ConsumerBinding(names, 0) == Binding(names[0], "info", "direct_logs");
    assert ConsumerBinding(names, 1) == Binding(names[1], "app.*", "topic_exchange_suyash");
    assert ConsumerBinding(names, 2) == Binding(names[2], "", "logs");
    assert ConsumerBinding(names, 3) == Binding(names[3], "", "headers_logs");
    hide ConsumerBinding;
  }

  // ---- routing --------------------------------------------------------------------------

  /** The queues a publish reaches through the default exchange or a direct exchange. */
  ghost function Route(queues: Queues, bindings: set<Binding>, exchange: string, routingKey: string): set<string> {
    if exchange == "" then (if routingKey in queues then {routingKey} else {})
    else set b | b in bindings && b.exchange == exchange && b.routingKey == routingKey :: b.queue
  }

  /** Where a queue's messages go when nacked without requeue or expired. */
  ghost function DeadLetterRoute(queues: Queues, bindings: set<Binding>, queue: string): set<string> {
    if queue in queues && queues[queue].deadLetterExchange.Some?
    then Route(queues, bindings, queues[queue].deadLetterExchange.value, queues[queue].deadLetterKey)
    else {}
  }

  /** The broker's name for a queue of the lifecycle model. */
  function QueueName(q: Queue): string {
    match q
    case ShardQueue(s) => RING[s]
    case RetryQueue(s) => RetryName(RING[s])
    case ResilientQueue(s) => ResilientName(RING[s])
    case DeadLetterQueue => "dead_letter_queue"
    case _ => ""
  }

  lemma RetryRoute(queues: Queues, s: Shard)
    ensures Route(queues, StartupBindings(), "retry_exchange", RetryName(RING[s])) == {RetryName(RING[s])}
  {
  }

  lemma DeadRoute(queues: Queues)
    ensures Route(queues, StartupBindings(), "dlx_exchange", "dead_task") == {"dead_letter_queue"}
  {
  }

  /** The consumers' bindings add nothing to the two exchanges of the lifecycle. */
  lemma RouteIgnores(queues: Queues, names: seq<string>, exchange: string, key: string)
    requires |names| == |CONSUMERS| && (exchange == "retry_exchange" || exchange == "dlx_exchange")
    ensures Route(queues, AllBindings(names), exchange, key) == Route(queues, StartupBindings(), exchange, key)
  {
    forall i | 0 <= i < |names| ensures ConsumerBinding(names, i).exchange != exchange {
      OtherExchange(CONSUMERS[i]);
    }
    assert |exchange| > 0;
    hide StartupBindings, ExchangeName, BindingKey;
  }

  lemma OtherExchange(x: Exchange)
    ensures ExchangeName(x) != "retry_exchange" && ExchangeName(x) != "dlx_exchange"
  {
    assert |"retry_exchange"| == 14 && |"dlx_exchange"| == 12;
    assert "headers_logs"[0] == 'h';
  }

  /** Where a queue dead-letters, whether it expires, and where a republish under its name arrives. */
  ghost predicate Edges(queues: Queues, bindings: set<Binding>, q: Queue) {
    && DeadLetterRoute(queues, bindings, QueueName(q)) == {QueueName(DeadLetterTarget(q))}
    && QueueName(q) in queues && queues[QueueName(q)].ttl == (if q.RetryQueue? then Some(5000) else None)
    && (q.RetryQueue? ==> Route(queues, bindings, "retry_exchange", QueueName(q)) == {QueueName(q)})
  }

  lemma QuorumEdges(queues: Queues, names: seq<string>, q: Queue)
    requires (q.ShardQueue? || q.ResilientQueue?) && |names| == |CONSUMERS|
    requires QueueName(q) in queues && queues[QueueName(q)] == QUORUM_ARGS
    ensures Edges(queues, AllBindings(names), q)
  {
    RouteIgnores(queues, names, "dlx_exchange", "dead_task");
    DeadRoute(queues);
    hide StartupBindings, Route, AllBindings;
  }

  lemma RetryEdges(queues: Queues, names: seq<string>, s: Shard)
    requires RING[s] in queues && RetryName(RING[s]) in queues && |names| == |CONSUMERS|
    requires queues[RetryName(RING[s])] == RetryDeclaration(RING[s]).args
    ensures Edges(queues, AllBindings(names), RetryQueue(s))
  {
    RouteIgnores(queues, names, "retry_exchange", RetryName(RING[s]));
    RetryRoute(queues, s);
    DefaultRoute(queues, AllBindings(names), RING[s]);
    hide StartupBindings, Route, RetryName, AllBindings;
  }

  lemma DeclaredQueues(before: Queues, names: seq<string>, s: Shard)
    requires DeclareAll(before, STARTUP).Some? && MadeUp(before, names)
    ensures var queues := Running(before, names);
      && RING[s] in queues && queues[RING[s]] == QUORUM_ARGS
      && RetryName(RING[s]) in queues && queues[RetryName(RING[s])] == RetryDeclaration(RING[s]).args
      && ResilientName(RING[s]) in queues && queues[ResilientName(RING[s])] == QUORUM_ARGS
  {
    hide DeclareAll, IsStartup, RetryName, ResilientName;
    StartupMembers();
    DeclaredStays(before, STARTUP, s);
    DeclaredStays(before, STARTUP, 4 + s);
    DeclaredStays(before, STARTUP, 12 + s);
    assert STARTUP[s].name !in names && STARTUP[4 + s].name !in names && STARTUP[12 + s].name !in names;
  }

  /**
   * After start-up, a nack or an expiry takes a message exactly where the lifecycle model says, only retry
   * queues have a TTL, and a republish to retry_exchange comes back to the same queue.
   */
  lemma StartupEdges(before: Queues, names: seq<string>, q: Queue)
    requires DeclareAll(before, STARTUP).Some? && MadeUp(before, names)
    requires q.ShardQueue? || q.RetryQueue? || q.ResilientQueue?
    ensures Edges(Running(before, names), AllBindings(names), q)
  {
    var queues := Running(before, names);
    DeclaredQueues(before, names, q.shard);
    assert |names| == |CONSUMERS|;
    hide DeclareAll, Edges, RetryName, ResilientName, Running, AllBindings, MadeUp;
    if q.RetryQueue? { RetryEdges(queues, names, q.shard); } else { QuorumEdges(queues, names, q); }
  }

  lemma DefaultRoute(queues: Queues, bindings: set<Binding>, name: string)
    requires name in queues
    ensures Route(queues, bindings, "", name) == {name}
  {
  }

  /** After start-up, the first publish of a retrying, failing or sharded task reaches the queue it starts in. */
  lemma LaunchArrives(before: Queues, names: seq<string>, t: Task, r: string)
    requires DeclareAll(before, STARTUP).Some? && MadeUp(before, names) && !PathOf(t.form).ExchangePath?
    ensures var p := Launch(t.form, r, t.corrId);
      Route(Running(before, names), AllBindings(names), p.exchange, p.routingKey) == {QueueName(FirstQueue(t))}
  {
    hide DeclareAll, StartupBindings, Route, PickShard;
    var shard := PickShard(t.form.task);
    DeclaredQueues(before, names, shard);
    var queues := Running(before, names);
    assert |names| == |CONSUMERS|;
    hide Running, AllBindings, MadeUp;
    RouteIgnores(queues, names, "retry_exchange", RetryName(RING[shard]));
    RetryRoute(queues, shard);
    DefaultRoute(queues, AllBindings(names), RING[shard]);
    DefaultRoute(queues, AllBindings(names), ResilientName(RING[shard]));
  }
}
