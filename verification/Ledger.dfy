/**
 * The Prometheus ledger of the task protocol: what each counter counts, and when it is exact. A handler bumps its
 * counters one at a time, so they are only exact between deliveries; what every state keeps is that the books balance
 * once the operations still owed by handlers in the middle of a delivery, and by handlers that died in one, are
 * counted in.
 */
module Ledger {
  import opened Common
  import opened ShardHash
  import opened Messages
  import opened Gateway
  import opened Lifecycle
  import opened LifecycleSafety
  import opened LifecycleIsolation
  import opened LifecycleExact
  import opened LifecycleTermination

  /** The counters; Throughput is over all labels but the return handler's, which is ReturnThroughput. */
  datatype Counter =
    | MsgsPublished | MsgsAcked | Throughput | ReturnThroughput | Latencies | WorkerAcks | Returned | GatewayPublished

  function Reading(k: Metrics, x: Counter): nat {
    match x
    case MsgsPublished => k.msgsPublished
    case MsgsAcked => k.msgsAcked
    case Throughput => k.throughput
    case ReturnThroughput => k.returnThroughput
    case Latencies => k.latencies
    case WorkerAcks => k.workerAcks
    case Returned => k.returned
    case GatewayPublished => k.gatewayPublished
  }

  /**
   * What can be counted along a run: deliveries acked, those of shard queues acked and answered, returned messages
   * forwarded, deliveries that end without a nack, the publishes of the return handler, and the bumps of a counter.
   */
  datatype Deed = Acks | ShardAcks | ShardAnswers | Forwards | Ends | ReturnPublishes | Bumps(x: Counter)

  /** How often an operation is to be counted, given the queue its delivery came from. */
  function Weight(d: Deed, q: Queue, op: Op): int {
    match d
    case Acks => if op.Ack? then 1 else 0
    case ShardAcks => if q.ShardQueue? && op.Ack? then 1 else 0
    case ShardAnswers => if q.ShardQueue? && op.Answer? then 1 else 0
    case Forwards => if op.Forward? then 1 else 0
    case Ends => if op.Ack? || op.Forward? then 1 else 0
    case ReturnPublishes => if op.Forward? then 2 else 0    // the reply, and the message itself
    case Bumps(x) => if Moves(x, op) then 1 else 0
  }

  predicate Moves(x: Counter, op: Op) {
    match x
    case MsgsPublished => op.CountPublished?
    case MsgsAcked => op.CountAcked?
    case Throughput => op.CountThroughput? && op.worker != "dlx_handler"
    case ReturnThroughput => op == CountThroughput("dlx_handler")
    case Latencies => op.ObserveLatency?
    case WorkerAcks => op.CountWorkerAck?
    case Returned => op.CountReturned?
    case GatewayPublished => op.CountReturnReply? || op.CountReturn?
  }

  /** What a counter stands for. */
  function Meaning(x: Counter): Deed {
    match x
    case MsgsPublished => ShardAnswers
    case MsgsAcked => Acks
    case Throughput => Acks
    case ReturnThroughput => Forwards
    case Latencies => Ends
    case WorkerAcks => ShardAcks
    case Returned => Forwards
    case GatewayPublished => ReturnPublishes
  }

  // ---- what handlers owe -------------------------------------------------------------------

  function Net(d: Deed, e: Deed, q: Queue, op: Op): int {
    Weight(d, q, op) - Weight(e, q, op)
  }

  /** How much more the rest of a script does of d than of e. */
  function Owed(q: Queue, ops: seq<Op>, pc: nat, d: Deed, e: Deed): int
    decreases |ops| - pc
  {
    if pc >= |ops| then 0 else Net(d, e, q, ops[pc]) + Owed(q, ops, pc + 1, d, e)
  }

  /** Whole deliveries, from whichever queue, do as much of d as of e. */
  ghost predicate Fair(d: Deed, e: Deed) {
    forall q: Queue, m: Message, c: Choice ::
      m.replyTo != "" && c.worker != RETURN_LABEL ==> Owed(q, Script(q, m, c), 0, d, e) == 0
  }

  /** Unfold a sum over at most seven operations. */
  lemma OwedUnfold(q: Queue, ops: seq<Op>, d: Deed, e: Deed)
    requires |ops| <= 7
    ensures Owed(q, ops, 0, d, e) ==
      (if |ops| > 0 then Net(d, e, q, ops[0]) else 0) +
      (if |ops| > 1 then Net(d, e, q, ops[1]) else 0) +
      (if |ops| > 2 then Net(d, e, q, ops[2]) else 0) +
      (if |ops| > 3 then Net(d, e, q, ops[3]) else 0) +
      (if |ops| > 4 then Net(d, e, q, ops[4]) else 0) +
      (if |ops| > 5 then Net(d, e, q, ops[5]) else 0) +
      (if |ops| > 6 then Net(d, e, q, ops[6]) else 0)
  {
    hide Net, Owed;
    OwedNext(q, ops, 0, d, e);
    OwedNext(q, ops, 1, d, e);
    OwedNext(q, ops, 2, d, e);
    OwedNext(q, ops, 3, d, e);
    OwedNext(q, ops, 4, d, e);
    OwedNext(q, ops, 5, d, e);
    OwedNext(q, ops, 6, d, e);
    OwedNext(q, ops, 7, d, e);
  }

  lemma OwedNext(q: Queue, ops: seq<Op>, pc: nat, d: Deed, e: Deed)
    ensures Owed(q, ops, pc, d, e) == if pc >= |ops| then 0 else Net(d, e, q, ops[pc]) + Owed(q, ops, pc + 1, d, e)
  {
  }

  lemma LastRetryBalances(q: Queue, m: Message, c: Choice, x: Counter)
    requires q.RetryQueue? && m.replyTo != "" && c.worker != RETURN_LABEL && RetryCount(m) >= RETRY_LIMIT
    ensures Owed(q, Script(q, m, c), 0, Meaning(x), Bumps(x)) == 0
  {
    OwedUnfold(q, Script(q, m, c), Meaning(x), Bumps(x));
  }

  lemma RetryBalances(q: Queue, m: Message, c: Choice, x: Counter)
    requires q.RetryQueue? && m.replyTo != "" && c.worker != RETURN_LABEL && RetryCount(m) < RETRY_LIMIT
    ensures Owed(q, Script(q, m, c), 0, Meaning(x), Bumps(x)) == 0
  {
    OwedUnfold(q, Script(q, m, c), Meaning(x), Bumps(x));
  }

  lemma WorkerBalances(q: Queue, m: Message, c: Choice, x: Counter)
    requires (q.ShardQueue? || q.ExchangeQueue?) && m.replyTo != "" && c.worker != RETURN_LABEL
    ensures Owed(q, Script(q, m, c), 0, Meaning(x), Bumps(x)) == 0
  {
    OwedUnfold(q, Script(q, m, c), Meaning(x), Bumps(x));
  }

  lemma ResilientBalances(q: Queue, m: Message, c: Choice, x: Counter)
    requires q.ResilientQueue? && m.replyTo != "" && c.worker != RETURN_LABEL
    ensures Owed(q, Script(q, m, c), 0, Meaning(x), Bumps(x)) == 0
  {
    OwedUnfold(q, Script(q, m, c), Meaning(x), Bumps(x));
  }

  lemma DeadBalances(q: Queue, m: Message, c: Choice, x: Counter)
    requires q.DeadLetterQueue? && m.replyTo != "" && c.worker != RETURN_LABEL
    ensures Owed(q, Script(q, m, c), 0, Meaning(x), Bumps(x)) == 0
  {
    OwedUnfold(q, Script(q, m, c), Meaning(x), Bumps(x));
  }

  lemma ReturnBalances(q: Queue, m: Message, c: Choice, x: Counter)
    requires q.ReturnChannel? && m.replyTo != "" && c.worker != RETURN_LABEL
    ensures Owed(q, Script(q, m, c), 0, Meaning(x), Bumps(x)) == 0
  {
    OwedUnfold(q, Script(q, m, c), Meaning(x), Bumps(x));
  }

  /** Each handler as a whole moves every counter by what the counter stands for. */
  lemma ScriptBalances(q: Queue, m: Message, c: Choice, x: Counter)
    requires m.replyTo != "" && c.worker != RETURN_LABEL
    ensures Owed(q, Script(q, m, c), 0, Meaning(x), Bumps(x)) == 0
  {
    hide Owed, Script, Meaning;
    match q
    case RetryQueue(_) =>
      if RetryCount(m) >= RETRY_LIMIT { LastRetryBalances(q, m, c, x); } else { RetryBalances(q, m, c, x); }
    case ResilientQueue(_) => ResilientBalances(q, m, c, x);
    case DeadLetterQueue => DeadBalances(q, m, c, x);
    case ReturnChannel => ReturnBalances(q, m, c, x);
    case _ => WorkerBalances(q, m, c, x);
  }

  lemma ShardBalances(q: Queue, m: Message, c: Choice)
    requires m.replyTo != "" && c.worker != RETURN_LABEL
    ensures Owed(q, Script(q, m, c), 0, ShardAnswers, ShardAcks) == 0
  {
    OwedUnfold(q, Script(q, m, c), ShardAnswers, ShardAcks);
  }

  /** The pairs of deeds that whole deliveries balance. */
  predicate IsLaw(d: Deed, e: Deed) {
    (e.Bumps? && d == Meaning(e.x)) || (d == ShardAnswers && e == ShardAcks)
  }

  lemma LawIsFair(d: Deed, e: Deed)
    requires IsLaw(d, e)
    ensures Fair(d, e)
  {
    hide Owed, Script, Meaning;
    forall q: Queue, m: Message, c: Choice | m.replyTo != "" && c.worker != RETURN_LABEL
      ensures Owed(q, Script(q, m, c), 0, d, e) == 0
    {
      if e.Bumps? { ScriptBalances(q, m, c, e.x); } else { ShardBalances(q, m, c); }
    }
  }

  // ---- the books, event by event -----------------------------------------------------------

  function CopyOwed(c: Copy, d: Deed, e: Deed): int {
    if c.place.Held? then Owed(c.queue, ScriptOf(c), c.place.pc, d, e) else 0
  }

  function OwedBy(d: Deed, e: Deed): Copy -> int {
    (c: Copy) => CopyOwed(c, d, e)
  }

  /** What all handlers at work still owe to the balance of d and e. */
  ghost function Outstanding(s: State, d: Deed, e: Deed): int {
    Sum(s.copies, OwedBy(d, e))
  }

  /** How often an event does d. */
  function Done(s: State, ev: Event, d: Deed): int
    requires Enabled(s, ev)
  {
    if ev.Exec? then
      var c := s.copies[ev.id];
      Weight(d, c.queue, ScriptOf(c)[c.place.pc])
    else 0
  }

  /** A handler that dies takes what it still owes with it. */
  function Forfeit(s: State, ev: Event, d: Deed, e: Deed): int
    requires Enabled(s, ev)
  {
    if ev.Crash? then CopyOwed(s.copies[ev.id], d, e) else 0
  }

  /** How often d is done along a run. */
  function Tally(s: State, es: seq<Event>, d: Deed): int
    requires Runs(s, es)
    decreases |es|
  {
    if es == [] then 0 else Done(s, es[0], d) + Tally(Apply(s, es[0]), es[1..], d)
  }

  /** What all handlers that died along a run owed. */
  function Debts(s: State, es: seq<Event>, d: Deed, e: Deed): int
    requires Runs(s, es)
    decreases |es|
  {
    if es == [] then 0 else Forfeit(s, es[0], d, e) + Debts(Apply(s, es[0]), es[1..], d, e)
  }

  /** Handlers at work do not count under the label of the return handler. */
  ghost predicate Labelled(s: State) {
    forall id :: id in s.copies && s.copies[id].place.Held? ==> s.copies[id].place.choice.worker != RETURN_LABEL
  }

  lemma OwedStep(c: Copy, d: Deed, e: Deed)
    requires c.place.Held? && c.place.pc < |ScriptOf(c)|
    ensures var op := ScriptOf(c)[c.place.pc];
      CopyOwed(c, d, e) == Weight(d, c.queue, op) - Weight(e, c.queue, op) + CopyOwed(Moved(c), d, e)
    ensures c.place.pc + 1 == |ScriptOf(c)| ==> CopyOwed(Moved(c), d, e) == 0
  {
    hide Script, Weight;
  }

  lemma ExecBalanced(s: State, id: nat, d: Deed, e: Deed)
    requires Inv(s) && Enabled(s, Exec(id))
    ensures Done(s, Exec(id), d) - Done(s, Exec(id), e) + Outstanding(Apply(s, Exec(id)), d, e) == Outstanding(s, d, e)
  {
    hide Inv, Script, Owed, Weight, Apply;
    OwedStep(s.copies[id], d, e);
    ExecSum(s, id, OwedBy(d, e));
  }

  lemma ExecWorkers(s: State, id: nat)
    requires Inv(s) && Enabled(s, Exec(id)) && Labelled(s)
    ensures Labelled(Apply(s, Exec(id)))
  {
    ExecState(s, id);
    SoloIdentity(s, id);
    ScriptShape(s.copies[id], s.copies[id].place.pc);
    hide Inv, Script, Apply;
  }

  lemma {:induction false} AddCopiesBalanced(s: State, q: Queue, m: Message, n: nat, d: Deed, e: Deed)
    requires Labelled(s) && FreshIds(s)
    ensures Outstanding(AddCopies(s, q, m, n), d, e) == Outstanding(s, d, e)
    ensures Labelled(AddCopies(s, q, m, n)) && FreshIds(AddCopies(s, q, m, n))
  {
    if n > 0 {
      AddCopiesBalanced(s, q, m, n - 1, d, e);
      var a := AddCopies(s, q, m, n - 1);
      SumUpdate(a.copies, OwedBy(d, e), a.nextId, Copy(q, m, Ready));
    }
  }

  /**
   * At every event, deaths included: what it does of d beyond e, with what handlers at work owe afterwards and what a
   * dying one takes with it, is what handlers at work owed before.
   */
  lemma StepBalanced(s: State, ev: Event, d: Deed, e: Deed)
    requires Inv(s) && Labelled(s) && Fair(d, e) && Enabled(s, ev)
    ensures Labelled(Apply(s, ev))
    ensures Done(s, ev, d) - Done(s, ev, e) + Outstanding(Apply(s, ev), d, e) + Forfeit(s, ev, d, e) ==
            Outstanding(s, d, e)
  {
    hide Inv, Script, PathOf, Owed, AddCopies, Effect, Advance, Weight, Fair;
    match ev
    case Submit(r, t) =>
      assert FreshIds(s) by { InvFresh(s); }
      AddCopiesBalanced(Register(s, r, t), FirstQueue(t), FirstMessage(t.form, r, t.corrId), FirstCopies(t), d, e);
    case Deliver(id, choice) => DeliverBalanced(s, id, choice, d, e);
    case Exec(id) =>
      ExecBalanced(s, id, d, e);
      ExecWorkers(s, id);
    case Expire(id) =>
      SumUpdate(s.copies, OwedBy(d, e), id, s.copies[id].(queue := DeadLetterTarget(s.copies[id].queue)));
    case Crash(id) => CrashBalanced(s, id, d, e);
  }

  lemma DeliverBalanced(s: State, id: nat, choice: Choice, d: Deed, e: Deed)
    requires Inv(s) && Labelled(s) && Fair(d, e) && Enabled(s, Deliver(id, choice))
    ensures Labelled(Apply(s, Deliver(id, choice)))
    ensures Outstanding(Apply(s, Deliver(id, choice)), d, e) == Outstanding(s, d, e)
  {
    hide Inv, Script, Owed;
    SoloIdentity(s, id);
    assert Owed(s.copies[id].queue, Script(s.copies[id].queue, s.copies[id].msg, choice), 0, d, e) == 0;
    SumUpdate(s.copies, OwedBy(d, e), id, s.copies[id].(place := Held(choice, 0)));
  }

  lemma CrashBalanced(s: State, id: nat, d: Deed, e: Deed)
    requires Labelled(s) && Enabled(s, Crash(id))
    ensures Labelled(Apply(s, Crash(id)))
    ensures Outstanding(Apply(s, Crash(id)), d, e) + CopyOwed(s.copies[id], d, e) == Outstanding(s, d, e)
  {
    hide Script, Owed, Live;
    SumUpdate(s.copies, OwedBy(d, e), id, s.copies[id].(place := Ready));
    SumSplit(s.copies, OwedBy(d, e), id);
  }

  lemma InvFresh(s: State)
    requires Inv(s)
    ensures FreshIds(s)
  {
  }

  lemma EffectReading(s: State, c: Copy, op: Op, x: Counter)
    ensures Reading(Effect(s, c, op).metrics, x) == Reading(s.metrics, x) + Weight(Bumps(x), c.queue, op)
  {
  }

  /** A counter moves with the operations that bump it, and with nothing else. */
  lemma ReadingStep(s: State, ev: Event, x: Counter)
    requires Enabled(s, ev)
    ensures Reading(Apply(s, ev).metrics, x) == Reading(s.metrics, x) + Done(s, ev, Bumps(x))
  {
    hide Script, PathOf, AddCopies, Effect, Reading, Weight;
    match ev
    case Submit(r, t) =>
      AddCopiesFrame(Register(s, r, t), FirstQueue(t), FirstMessage(t.form, r, t.corrId), FirstCopies(t));
    case Exec(id) =>
      var c := s.copies[id];
      EffectReading(s, c, ScriptOf(c)[c.place.pc], x);
    case _ =>
  }

  // ---- the books of a run ------------------------------------------------------------------

  lemma {:induction false} RunBalanced(s: State, es: seq<Event>, d: Deed, e: Deed)
    requires Inv(s) && Labelled(s) && Fair(d, e) && Runs(s, es)
    ensures Tally(s, es, d) - Tally(s, es, e) + Outstanding(After(s, es), d, e) + Debts(s, es, d, e) ==
            Outstanding(s, d, e)
    decreases |es|
  {
    hide Inv, Labelled, Fair, Outstanding, Apply, Enabled, Forfeit, Done;
    if es != [] {
      StepInv(s, es[0]);
      StepBalanced(s, es[0], d, e);
      RunBalanced(Apply(s, es[0]), es[1..], d, e);
    }
  }

  lemma {:induction false} RunReading(s: State, es: seq<Event>, x: Counter)
    requires Runs(s, es)
    ensures Reading(After(s, es).metrics, x) == Reading(s.metrics, x) + Tally(s, es, Bumps(x))
    decreases |es|
  {
    hide Apply, Enabled, Done, Reading;
    if es != [] {
      ReadingStep(s, es[0], x);
      RunReading(Apply(s, es[0]), es[1..], x);
    }
  }

  lemma TailFree(es: seq<Event>)
    requires es != [] && CrashFree(es)
    ensures CrashFree(es[1..]) && !es[0].Crash?
  {
    forall i | 0 <= i < |es[1..]| ensures !es[1..][i].Crash? { assert es[1..][i] == es[i + 1]; }
  }

  /** Nobody dies, nothing is lost. */
  lemma {:induction false} CrashFreeNoDebts(s: State, es: seq<Event>, d: Deed, e: Deed)
    requires Runs(s, es) && CrashFree(es)
    ensures Debts(s, es, d, e) == 0
    decreases |es|
  {
    hide Apply, Enabled, CopyOwed;
    if es != [] {
      TailFree(es);
      CrashFreeNoDebts(Apply(s, es[0]), es[1..], d, e);
    }
  }

  /** Acks and forwards are the ends of deliveries without a nack; a forward stands for two publishes. */
  lemma {:induction false} TallySplits(s: State, es: seq<Event>)
    requires Runs(s, es)
    ensures Tally(s, es, Ends) == Tally(s, es, Acks) + Tally(s, es, Forwards)
    ensures Tally(s, es, ReturnPublishes) == 2 * Tally(s, es, Forwards)
    decreases |es|
  {
    hide Apply, Enabled, Script;
    if es != [] { TallySplits(Apply(s, es[0]), es[1..]); }
  }

  /** No handler is in the middle of a delivery. */
  ghost predicate BetweenDeliveries(s: State) {
    forall id :: id in s.copies && s.copies[id].place.Held? ==> s.copies[id].place.pc == 0
  }

  lemma IdleOwesNothing(s: State, d: Deed, e: Deed)
    requires Inv(s) && Labelled(s) && Fair(d, e) && BetweenDeliveries(s)
    ensures Outstanding(s, d, e) == 0
  {
    hide Script, Owed, Inv;
    forall id | id in s.copies ensures CopyOwed(s.copies[id], d, e) == 0 {
      SoloIdentity(s, id);
    }
    SumZero(s.copies, OwedBy(d, e));
  }

  lemma {:induction false} RunLabelled(s: State, es: seq<Event>)
    requires Inv(s) && Labelled(s) && Runs(s, es)
    ensures Labelled(After(s, es))
    decreases |es|
  {
    hide Inv, Labelled, Apply, Enabled, Fair;
    if es != [] {
      StepInv(s, es[0]);
      LawIsFair(ShardAnswers, ShardAcks);
      StepBalanced(s, es[0], ShardAnswers, ShardAcks);
      RunLabelled(Apply(s, es[0]), es[1..]);
    }
  }

  // ---- the theorem -------------------------------------------------------------------------

  /** What dead handlers leave a counter behind, or ahead, of what it stands for. */
  ghost function Error(es: seq<Event>, x: Counter): int
    requires Runs(START, es)
  {
    Debts(START, es, Meaning(x), Bumps(x))
  }

  /**
   * In every reachable state with no handler in the middle of a delivery, every counter reads how often what it
   * stands for has been done, up to what handlers owed that died in a delivery.
   */
  lemma LedgerExact(es: seq<Event>, x: Counter)
    requires Runs(START, es) && BetweenDeliveries(After(START, es))
    ensures Reading(After(START, es).metrics, x) == Tally(START, es, Meaning(x)) + Error(es, x)
    ensures CrashFree(es) ==> Error(es, x) == 0
  {
    hide Tally, Debts, Runs, After, Fair, Inv, Meaning;
    LawIsFair(Meaning(x), Bumps(x));
    Settled(es, Meaning(x), Bumps(x));
    RunReading(START, es, x);
    if CrashFree(es) { CrashFreeNoDebts(START, es, Meaning(x), Bumps(x)); }
  }

  lemma Settled(es: seq<Event>, d: Deed, e: Deed)
    requires Runs(START, es) && BetweenDeliveries(After(START, es)) && Fair(d, e)
    ensures Tally(START, es, d) - Tally(START, es, e) + Debts(START, es, d, e) == 0
  {
    hide Tally, Debts, Runs, After, Fair, Inv, BetweenDeliveries;
    StartInv();
    RunBalanced(START, es, d, e);
    RunLabelled(START, es);
    ReachableInv(es);
    IdleOwesNothing(After(START, es), d, e);
  }

  /**
   * Spelled out: up to what handlers owed that died in a delivery, MsgsAcked is the number of acked deliveries, and
   * equals throughput over all labels but the return handler's; latency observations equal throughput over all
   * labels; publishedCount is twice the number of returned messages; and shard workers count every delivery they ack,
   * and as many replies. If nobody died, all this holds exactly.
   */
  lemma LedgerAgrees(es: seq<Event>)
    requires Runs(START, es) && BetweenDeliveries(After(START, es))
    ensures var k := After(START, es).metrics;
      && k.msgsAcked - Error(es, MsgsAcked) == k.throughput - Error(es, Throughput) == Tally(START, es, Acks)
      && k.returned - Error(es, Returned) == k.returnThroughput - Error(es, ReturnThroughput) ==
           Tally(START, es, Forwards)
      && k.latencies - Error(es, Latencies) == Tally(START, es, Acks) + Tally(START, es, Forwards)
      && k.gatewayPublished - Error(es, GatewayPublished) == 2 * Tally(START, es, Forwards)
      && k.workerAcks - Error(es, WorkerAcks) == Tally(START, es, ShardAcks)
      && k.msgsPublished - Error(es, MsgsPublished) == Tally(START, es, ShardAnswers) ==
           Tally(START, es, ShardAcks) - Debts(START, es, ShardAnswers, ShardAcks)
    ensures CrashFree(es) ==> Debts(START, es, ShardAnswers, ShardAcks) == 0 && forall x :: Error(es, x) == 0
  {
    forall x ensures Reading(After(START, es).metrics, x) == Tally(START, es, Meaning(x)) + Error(es, x)
      ensures CrashFree(es) ==> Error(es, x) == 0
    {
      LedgerExact(es, x);
    }
    TallySplits(START, es);
    LawIsFair(ShardAnswers, ShardAcks);
    Settled(es, ShardAnswers, ShardAcks);
    if CrashFree(es) { CrashFreeNoDebts(START, es, ShardAnswers, ShardAcks); }
    hide Tally, Debts, Runs, After, Fair, BetweenDeliveries, Error;
    ReadAll(es, After(START, es).metrics);
  }

  lemma ReadAll(es: seq<Event>, k: Metrics)
    requires Runs(START, es) && forall x :: Reading(k, x) == Tally(START, es, Meaning(x)) + Error(es, x)
    ensures k.msgsPublished - Error(es, MsgsPublished) == Tally(START, es, ShardAnswers)
    ensures k.workerAcks - Error(es, WorkerAcks) == Tally(START, es, ShardAcks)
    ensures k.msgsAcked - Error(es, MsgsAcked) == k.throughput - Error(es, Throughput) == Tally(START, es, Acks)
    ensures k.returned - Error(es, Returned) == k.returnThroughput - Error(es, ReturnThroughput) ==
            Tally(START, es, Forwards)
    ensures k.latencies - Error(es, Latencies) == Tally(START, es, Ends)
    ensures k.gatewayPublished - Error(es, GatewayPublished) == Tally(START, es, ReturnPublishes)
  {
    hide Tally, Runs, Error;
    assert Reading(k, MsgsPublished) == k.msgsPublished && Reading(k, WorkerAcks) == k.workerAcks;
    assert Reading(k, MsgsAcked) == k.msgsAcked && Reading(k, Throughput) == k.throughput;
    assert Reading(k, Returned) == k.returned && Reading(k, ReturnThroughput) == k.returnThroughput;
    assert Reading(k, Latencies) == k.latencies && Reading(k, GatewayPublished) == k.gatewayPublished;
  }
}
