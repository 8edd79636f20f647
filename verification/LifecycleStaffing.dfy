/**
 * How many live copies a retrying task can have, given how many workers each retry queue has: a worker holds one
 * delivery at a time, from its delivery to the end of its handler.
 */
module LifecycleStaffing {
  import opened Common
  import opened ShardHash
  import opened Messages
  import opened Gateway
  import opened Lifecycle
  import opened LifecycleSafety
  import opened LifecycleIsolation
  import opened LifecycleExact
  import opened LifecycleTheorems
  import opened LifecycleAgreement
  import opened LifecycleLimits

  /** The deliveries from the retry queue of a shard that workers hold. */
  ghost function Busy(s: State, shard: Shard): set<nat> {
    set id | id in s.copies && s.copies[id].queue == RetryQueue(shard) && s.copies[id].place.Held?
  }

  ghost predicate AtMostBusy(s: State, w: nat) {
    forall shard: Shard :: |Busy(s, shard)| <= w
  }

  /** A run with at most w workers on each retry queue. */
  ghost predicate Staffed(s: State, es: seq<Event>, w: nat)
    requires Runs(s, es)
    decreases |es|
  {
    AtMostBusy(s, w) && (es == [] || Staffed(Apply(s, es[0]), es[1..], w))
  }

  lemma {:induction false} StaffedAfter(s: State, es: seq<Event>, w: nat)
    requires Runs(s, es) && Staffed(s, es, w)
    ensures AtMostBusy(After(s, es), w)
    decreases |es|
  {
    hide AtMostBusy, Apply, Enabled;
    if es != [] { StaffedAfter(Apply(s, es[0]), es[1..], w); }
  }

  lemma {:induction false} StaffedMore(s: State, es: seq<Event>, w: nat, more: nat)
    requires Runs(s, es) && Staffed(s, es, w) && w <= more
    ensures Staffed(s, es, more)
    decreases |es|
  {
    hide Apply, Enabled, Busy;
    if es != [] { StaffedMore(Apply(s, es[0]), es[1..], w, more); }
  }

  // ---- the bound ---------------------------------------------------------------------------

  function Bound(w: nat): nat {
    1 + if w < RETRY_LIMIT then w else RETRY_LIMIT
  }

  lemma LeftBehindIsBusy(s: State, r: string)
    requires Inv(s) && r in s.tasks && PathOf(s.tasks[r].form).RetryPath?
    ensures LeftBehind(s, r) <= Busy(s, PathOf(s.tasks[r].form).shard)
  {
    hide Script, PathOf, FitsReply, Answered, Kept;
    forall id | id in LeftBehind(s, r) ensures id in Busy(s, PathOf(s.tasks[r].form).shard) {
      assert CopyOk(s, s.copies[id]);
    }
  }

  /** With w workers on each retry queue, an unharmed retrying task has at most 1 + min(w, 3) live copies. */
  lemma StaffedBound(es: seq<Event>, r: string, w: nat)
    requires Runs(START, es) && Unharmed(START, es, r) && Staffed(START, es, w)
    requires r in After(START, es).tasks && PathOf(After(START, es).tasks[r].form).RetryPath?
    ensures |LiveCopies(After(START, es), r)| <= Bound(w)
  {
    var s := After(START, es);
    assert Single(s.tasks[r]);
    hide *;
    CopyConservation(es, r);
    ReachableInv(es);
    StaffedAfter(START, es, w);
    BoundHolds(s, r, w);
  }

  lemma BoundHolds(s: State, r: string, w: nat)
    requires Inv(s) && r in s.tasks && r in s.replies && PathOf(s.tasks[r].form).RetryPath?
    requires Conserved(s, r) && AtMostBusy(s, w)
    ensures |LiveCopies(s, r)| <= Bound(w)
  {
    hide Inv, PathOf, Done, Carriers, LiveCopies, Busy, InRetryHands, LeftBehind;
    LeftBehindIsBusy(s, r);
    SubsetSize(LeftBehind(s, r), Busy(s, PathOf(s.tasks[r].form).shard));
  }

  // ---- staffing runs, step by step -----------------------------------------------------------------------

  lemma {:induction false} RunsSplit(s: State, es: seq<Event>, e: Event)
    requires Runs(s, es + [e])
    ensures Runs(s, es) && Enabled(After(s, es), e) && After(s, es + [e]) == Apply(After(s, es), e)
    decreases |es|
  {
    hide Apply, Enabled;
    if es == [] {
      assert (es + [e])[1..] == [];
    } else {
      assert (es + [e])[1..] == es[1..] + [e];
      RunsSplit(Apply(s, es[0]), es[1..], e);
    }
  }

  lemma {:induction false} StaffedOn(s: State, es: seq<Event>, e: Event, w: nat)
    requires Runs(s, es) && Runs(s, es + [e]) && Staffed(s, es, w) && AtMostBusy(After(s, es + [e]), w)
    ensures Staffed(s, es + [e], w)
    decreases |es|
  {
    hide AtMostBusy, Apply, Enabled;
    if es == [] {
      assert (es + [e])[1..] == [];
    } else {
      assert (es + [e])[1..] == es[1..] + [e];
      StaffedOn(Apply(s, es[0]), es[1..], e, w);
    }
  }

  /** Of the deliveries from retry queues, only some in b are held. */
  ghost predicate HeldIn(s: State, b: set<nat>) {
    forall id :: id in s.copies && s.copies[id].queue.RetryQueue? && s.copies[id].place.Held? ==> id in b
  }

  lemma HeldFew(s: State, b: set<nat>, w: nat)
    requires HeldIn(s, b) && |b| <= w
    ensures AtMostBusy(s, w)
  {
    forall shard: Shard ensures |Busy(s, shard)| <= w {
      SubsetSize(Busy(s, shard), b);
    }
  }

  /** Only a delivery from a retry queue puts one more into a worker's hands. */
  predicate Takes(s: State, e: Event) {
    e.Deliver? && e.id in s.copies && s.copies[e.id].queue.RetryQueue?
  }

  lemma HandlerKeepsHeld(s: State, e: Event, b: set<nat>)
    requires Inv(s) && Enabled(s, e) && !e.Submit? && (Takes(s, e) ==> e.id in b) && HeldIn(s, b)
    ensures HeldIn(Apply(s, e), b)
  {
    hide Script, Inv, Effect;
    if e.Exec? { ExecState(s, e.id); }
  }

  /** One step that leaves all the deliveries held in b. */
  lemma StaffedStep(es: seq<Event>, e: Event, b: set<nat>, w: nat)
    requires Runs(START, es) && Runs(START, es + [e]) && !e.Submit? && (Takes(After(START, es), e) ==> e.id in b)
    requires HeldIn(After(START, es), b) && |b| <= w && Staffed(START, es, w)
    ensures Staffed(START, es + [e], w) && HeldIn(After(START, es + [e]), b)
    ensures After(START, es + [e]).tasks == After(START, es).tasks
  {
    RunsSplit(START, es, e);
    ReachableInv(es);
    hide *;
    TasksGrow(After(START, es), e);
    HandlerKeepsHeld(After(START, es), e, b);
    HeldFew(After(START, es + [e]), b, w);
    StaffedOn(START, es, e, w);
  }

  /** The three steps in which a worker takes a delivery, answers and republishes. */
  lemma StaffedThrice(es: seq<Event>, es': seq<Event>, id: nat, b: set<nat>, w: nat)
    requires es' == es + [Deliver(id, CALM), Exec(id), Exec(id)] && Runs(START, es) && Runs(START, es')
    requires HeldIn(After(START, es), b) && |b + {id}| <= w && Staffed(START, es, w)
    ensures Staffed(START, es', w) && HeldIn(After(START, es'), b + {id})
    ensures After(START, es').tasks == After(START, es).tasks
  {
    var es1 := es + [Deliver(id, CALM)];
    var es2 := es1 + [Exec(id)];
    assert es2 + [Exec(id)] == es';
    assert HeldIn(After(START, es), b + {id});
    hide *;
    RunsSplit(START, es2, Exec(id));
    RunsSplit(START, es1, Exec(id));
    StaffedStep(es, Deliver(id, CALM), b + {id}, w);
    StaffedStep(es1, Exec(id), b + {id}, w);
    StaffedStep(es2, Exec(id), b + {id}, w);
  }

  lemma StartStaffed(t: Trace)
    requires Runs(START, t.es) && t.s == After(START, t.es) && |t.es| == 1
    requires forall id :: id in t.s.copies ==> t.s.copies[id].place.Ready?
    ensures Staffed(START, t.es, 0) && HeldIn(t.s, {})
  {
    hide Apply, Enabled;
    HeldFew(START, {}, 0);
    HeldFew(t.s, {}, 0);
    assert t.es == [] + [t.es[0]];
    StaffedOn(START, [], t.es[0], 0);
  }

  lemma StaffedNext(t: Trace, e: Event, b: set<nat>, w: nat)
    requires Valid(t) && Enabled(t.s, e) && !e.Submit? && (Takes(t.s, e) ==> e.id in b)
    requires HeldIn(t.s, b) && |b| <= w && Staffed(START, t.es, w)
    ensures Runs(START, Next(t, e).es) && Staffed(START, Next(t, e).es, w) && HeldIn(Next(t, e).s, b)
  {
    ValidRuns(t);
    ValidRuns(Next(t, e));
    hide *;
    StaffedStep(t.es, e, b, w);
  }

  // ---- one worker per queue, and one death ---------------------------------------------------

  /** A trace with one worker per retry queue, in which only deliveries in b are held. */
  ghost predicate Manned(t: Trace, b: set<nat>) {
    Valid(t) && Runs(START, t.es) && Staffed(START, t.es, 1) && HeldIn(t.s, b) && |b| <= 1
  }

  lemma MannedNext(t: Trace, e: Event, b: set<nat>) returns (t': Trace)
    requires Manned(t, b) && Enabled(t.s, e) && !e.Submit? && (Takes(t.s, e) ==> e.id in b)
    ensures Manned(t', b) && t'.s == Apply(t.s, e) && t'.es == t.es + [e]
    ensures Crashes(t'.es) == Crashes(t.es) + if e.Crash? then 1 else 0
  {
    hide Valid, Runs, Staffed, HeldIn, Apply, Enabled, Crashes, Takes, Calmly;
    t' := Next(t, e);
    StaffedNext(t, e, b, 1);
  }

  lemma MannedInv(t: Trace, b: set<nat>)
    requires Manned(t, b)
    ensures Inv(t.s) && Valid(t) && HeldIn(t.s, b)
  {
  }

  lemma MannedBy(t: Trace, b: set<nat>, b': set<nat>)
    requires Manned(t, b) && HeldIn(t.s, b') && |b'| <= 1
    ensures Manned(t, b')
  {
  }

  /** A free worker, or one of another queue, takes a delivery and answers. */
  lemma MannedAnswer(t: Trace, r: string, id: nat, q: Queue, n: int, b: set<nat>) returns (t': Trace, reply: Reply)
    requires Manned(t, {}) && ReadyAt(t.s, r, id, q, n) && (q.RetryQueue? || q.ShardQueue?)
    requires b == if q.RetryQueue? then {id} else {}
    ensures Manned(t', b) && Crashes(t'.es) == Crashes(t.es)
    ensures r in t.s.replies && t'.s.replies == t.s.replies[r := t.s.replies[r] + [reply]]
    ensures t'.s.copies == t.s.copies[id := t.s.copies[id].(place := Held(CALM, 1))] && t'.s.nextId == t.s.nextId
    ensures reply.status == if q.ShardQueue? then Succeeded else if n < RETRY_LIMIT then Retrying else DeadLettered
  {
    MannedInv(t, {});
    TakesOne(t.s, r, id, q, n, b);
    hide *;
    t', reply := Answering(t, r, id, q, n);
    CalmlyRuns(t, t');
    ValidRuns(t');
    MannedTwo(t, t', id, b);
  }

  lemma TakesOne(s: State, r: string, id: nat, q: Queue, n: int, b: set<nat>)
    requires HeldIn(s, {}) && ReadyAt(s, r, id, q, n) && b == if q.RetryQueue? then {id} else {}
    ensures HeldIn(s, b) && |b| <= 1 && (Takes(s, Deliver(id, CALM)) ==> id in b)
  {
  }

  lemma MannedTwo(t: Trace, t': Trace, id: nat, b: set<nat>)
    requires Manned(t, {}) && HeldIn(t.s, b) && |b| <= 1 && (Takes(t.s, Deliver(id, CALM)) ==> id in b)
    requires Valid(t') && Runs(START, t'.es) && t'.s == After(START, t'.es)
    requires t'.es == t.es + [Deliver(id, CALM), Exec(id)]
    ensures Manned(t', b)
  {
    assert t'.es == (t.es + [Deliver(id, CALM)]) + [Exec(id)];
    MannedStaffed(t, {});
    hide *;
    RunsSplit(START, t.es + [Deliver(id, CALM)], Exec(id));
    StaffedStep(t.es, Deliver(id, CALM), b, 1);
    NotTaking(After(START, t.es + [Deliver(id, CALM)]), Exec(id));
    StaffedStep(t.es + [Deliver(id, CALM)], Exec(id), b, 1);
    MannedIs(t', b);
  }

  lemma MannedStaffed(t: Trace, b: set<nat>)
    requires Manned(t, b)
    ensures Valid(t) && Runs(START, t.es) && t.s == After(START, t.es) && Staffed(START, t.es, 1)
  {
  }

  lemma NotTaking(s: State, e: Event)
    requires !e.Deliver?
    ensures !Takes(s, e)
  {
  }

  lemma MannedIs(t: Trace, b: set<nat>)
    requires Valid(t) && Runs(START, t.es) && Staffed(START, t.es, 1) && HeldIn(t.s, b) && |b| <= 1
    ensures Manned(t, b)
  {
  }

  /** A retry handler between its republish and the end of its delivery. */
  ghost predicate Finishing(s: State, id: nat) {
    && id in s.copies && Retries(s.copies[id]) && s.copies[id].place.Held? && s.copies[id].place.choice == CALM
    && 2 <= s.copies[id].place.pc < |ScriptOf(s.copies[id])|
  }

  lemma FinishStep(s: State, id: nat)
    requires Inv(s) && Finishing(s, id)
    ensures Enabled(s, Exec(id)) && !Takes(s, Exec(id))
    ensures var c, s' := s.copies[id], Apply(s, Exec(id));
      && s'.replies == s.replies
      && s'.copies == if c.place.pc + 1 < |ScriptOf(c)| then s.copies[id := Moved(c)] else s.copies - {id}
  {
    hide Script, PathOf, Inv;
    SoloFactsOf(s, id);
    ScriptShape(s.copies[id], s.copies[id].place.pc);
    ExecState(s, id);
    hide Apply;
  }

  /** The worker acks, counts, and is free again. */
  lemma {:induction false} Finish(t: Trace, id: nat) returns (t': Trace)
    requires Manned(t, {id}) && Finishing(t.s, id)
    ensures Manned(t', {}) && Crashes(t'.es) == Crashes(t.es)
    ensures t'.s.replies == t.s.replies && t'.s.copies == t.s.copies - {id}
    decreases |ScriptOf(t.s.copies[id])| - t.s.copies[id].place.pc
  {
    hide Script, Inv, Apply, Enabled, Manned, Crashes, HeldIn;
    MannedInv(t, {id});
    FinishStep(t.s, id);
    var t1 := MannedNext(t, Exec(id), {id});
    if id in t1.s.copies {
      t' := Finish(t1, id);
      assert t1.s.copies - {id} == t.s.copies - {id};
    } else {
      t' := t1;
      FreeAgain(t1, id);
    }
  }

  lemma FreeAgain(t: Trace, id: nat)
    requires Manned(t, {id}) && id !in t.s.copies
    ensures Manned(t, {})
  {
    assert HeldIn(t.s, {});
    hide HeldIn;
    MannedBy(t, {id}, {});
  }

  /** One worker takes a delivery, answers, republishes and acks. */
  lemma RetryAlone(t: Trace, r: string, id: nat, q: Queue, n: int) returns (t': Trace, reply: Reply)
    requires Manned(t, {}) && ReadyAt(t.s, r, id, q, n) && q.RetryQueue? && n < RETRY_LIMIT
    ensures Manned(t', {}) && Crashes(t'.es) == Crashes(t.es)
    ensures r in t.s.replies && t'.s.replies == t.s.replies[r := t.s.replies[r] + [reply]]
    ensures ReadyAt(t'.s, r, t.s.nextId, q, n + 1)
  {
    var t1;
    t1, reply := MannedRepublish(t, r, id, q, n);
    MannedInv(t1, {id});
    HeldAtTwo(t.s, t1.s, id);
    hide *;
    AfterRepublish(t1.s, id);
    t' := Finish(t1, id);
    StillReady(t1.s, t'.s, r, id, t.s.nextId, q, n + 1);
  }

  lemma HeldAtTwo(s: State, s': State, id: nat)
    requires OneMore(s, s', id)
    ensures id in s'.copies && s'.copies[id].place == Held(CALM, 2)
  {
  }

  lemma StillReady(s: State, s': State, r: string, id: nat, k: nat, q: Queue, n: int)
    requires ReadyAt(s, r, k, q, n) && k != id && s'.copies == s.copies - {id}
    ensures ReadyAt(s', r, k, q, n)
  {
  }

  lemma AfterRepublish(s: State, id: nat)
    requires Inv(s) && id in s.copies && s.copies[id].place == Held(CALM, 2) && Exposed(s.copies[id])
    ensures Finishing(s, id)
  {
    hide Script, Inv;
    SoloFactsOf(s, id);
    ScriptNonempty(s.copies[id]);
    ScriptShape(s.copies[id], 0);
  }

  lemma MannedRepublish(t: Trace, r: string, id: nat, q: Queue, n: int) returns (t': Trace, reply: Reply)
    requires Manned(t, {}) && ReadyAt(t.s, r, id, q, n) && q.RetryQueue? && n < RETRY_LIMIT
    ensures Manned(t', {id}) && Crashes(t'.es) == Crashes(t.es)
    ensures r in t.s.replies && t'.s.replies == t.s.replies[r := t.s.replies[r] + [reply]] && t.s.nextId != id
    ensures ReadyAt(t'.s, r, t.s.nextId, q, n + 1)
    ensures OneMore(t.s, t'.s, id) && Exposed(t'.s.copies[id])
  {
    MannedInv(t, {});
    t', reply := Republishing(t, r, id, q, n);
    CalmlyRuns(t, t');
    ValidRuns(t);
    ValidRuns(t');
    var none: set<nat>, one: set<nat> := {}, {id};
    assert none + {id} == one;
    assert Staffed(START, t.es, 1);
    hide *;
    StaffedThrice(t.es, t'.es, id, none, 1);
    MannedIs(t', one);
  }

  /** A single worker runs a retrying task into its limit. */
  lemma {:induction false} GiveUpAlone(t: Trace, r: string, id: nat, q: Queue, n: nat) returns (t': Trace)
    requires Manned(t, {}) && ReadyAt(t.s, r, id, q, n) && q.RetryQueue? && n <= RETRY_LIMIT
    ensures (exists b :: Manned(t', b)) && Crashes(t'.es) == Crashes(t.es)
    ensures r in t.s.replies && r in t'.s.replies && Told(t'.s.replies[r], DeadLettered)
    ensures forall status :: Told(t.s.replies[r], status) ==> Told(t'.s.replies[r], status)
    decreases RETRY_LIMIT - n
  {
    hide Manned, Told, Crashes;
    var reply;
    if n == RETRY_LIMIT {
      t', reply := MannedAnswer(t, r, id, q, n, {id});
      ToldGrows(t.s.replies[r], reply);
    } else {
      var t1;
      t1, reply := RetryAlone(t, r, id, q, n);
      ToldGrows(t.s.replies[r], reply);
      t' := GiveUpAlone(t1, r, t.s.nextId, q, n + 1);
    }
  }

  /** One task is accepted under one worker. */
  lemma MannedFirst(r: string, task: Task) returns (t: Trace, q: Queue)
    requires r != "" && PathOf(task.form).RetryPath?
    ensures Manned(t, {}) && Crashes(t.es) == 0 && q.RetryQueue? && ReadyAt(t.s, r, 0, q, 0) && t.s.nextId == 1
  {
    t, q := Accepting(r, task);
    ValidRuns(t);
    StartStaffed(t);
    hide Runs, After, Staffed, Valid, Crashes;
    StaffedMore(START, t.es, 0, 1);
    MannedIs(t, {});
  }

  /** The worker dies between republish and ack, and the task's delivery expires to the shard. */
  lemma DieAndExpire(t: Trace, r: string, q: Queue) returns (t': Trace)
    requires Manned(t, {0}) && 0 in t.s.copies && t.s.copies[0].place == Held(CALM, 2) && Exposed(t.s.copies[0])
    requires t.s.copies[0].queue == q && q.RetryQueue? && t.s.copies[0].msg.replyTo == r && ReadyAt(t.s, r, 1, q, 1)
    ensures Manned(t', {}) && Crashes(t'.es) == Crashes(t.es) + 1
    ensures ReadyAt(t'.s, r, 0, DeadLetterTarget(q), RetryCount(t.s.copies[0].msg)) && ReadyAt(t'.s, r, 1, q, 1)
  {
    hide Manned, Crashes, HeldIn, Script, PathOf;
    MannedInv(t, {0});
    var t1 := MannedNext(t, Crash(0), {0});
    assert t1.s == t.s.(copies := t.s.copies[0 := t.s.copies[0].(place := Ready)]);
    ReadyFree(t.s, t1, 0);
    t' := MannedNext(t1, Expire(0), {});
  }

  lemma ReadyFree(s: State, t: Trace, id: nat)
    requires Manned(t, {id}) && id in t.s.copies && t.s.copies[id].place.Ready?
    ensures Manned(t, {})
  {
    MannedInv(t, {id});
    assert HeldIn(t.s, {});
    hide HeldIn;
    MannedBy(t, {id}, {});
  }

  /**
   * One worker per retry queue, one task, one death: the worker dies after its republish, the delivery it held
   * expires to the shard and succeeds there, and the republished one runs into the limit.
   */
  lemma OneWorkerContradicts(r: string, task: Task) returns (es: seq<Event>)
    requires r != "" && PathOf(task.form).RetryPath?
    ensures Runs(START, es) && Staffed(START, es, 1) && Crashes(es) == 1
    ensures r in After(START, es).replies && !OneVerdict(After(START, es).replies[r])
  {
    var t, q := DyingAlone(r, task);
    hide *;
    es := AnsweredTwice(t, r, q);
  }

  lemma DyingAlone(r: string, task: Task) returns (t: Trace, q: Queue)
    requires r != "" && PathOf(task.form).RetryPath?
    ensures Manned(t, {}) && Crashes(t.es) == 1 && q.RetryQueue?
    ensures ReadyAt(t.s, r, 0, DeadLetterTarget(q), 0) && ReadyAt(t.s, r, 1, q, 1)
  {
    var t0;
    t0, q := MannedFirst(r, task);
    assert 0 < RETRY_LIMIT;
    var t1, _ := MannedRepublish(t0, r, 0, q, 0);
    assert t1.s.copies[0] == t0.s.copies[0].(place := Held(CALM, 2));
    hide Manned, Crashes, Exposed, PathOf, OneMore, DeadLetterTarget;
    t := DieAndExpire(t1, r, q);
  }

  lemma AnsweredTwice(t: Trace, r: string, q: Queue) returns (es: seq<Event>)
    requires Manned(t, {}) && Crashes(t.es) == 1 && q.RetryQueue?
    requires ReadyAt(t.s, r, 0, DeadLetterTarget(q), 0) && ReadyAt(t.s, r, 1, q, 1)
    ensures Runs(START, es) && Staffed(START, es, 1) && Crashes(es) == 1
    ensures r in After(START, es).replies && !OneVerdict(After(START, es).replies[r])
  {
    var t1, reply := MannedAnswer(t, r, 0, DeadLetterTarget(q), 0, {});
    ToldGrows(t.s.replies[r], reply);
    assert ReadyAt(t1.s, r, 1, q, 1) && Told(t1.s.replies[r], Succeeded) && 1 <= RETRY_LIMIT;
    hide *;
    var t2 := GiveUpAlone(t1, r, 1, q, 1);
    ToldBoth(t2.s.replies[r]);
    var b :| Manned(t2, b);
    es := t2.es;
    MannedStaffed(t2, b);
  }
}
