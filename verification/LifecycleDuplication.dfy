/**
 * The exact number of live copies of a retrying task, deaths included. A retry handler that dies between its
 * republish and its ack leaves the task with one more carrier; nothing else does.
 */
module LifecycleDuplication {
  import opened Common
  import opened ShardHash
  import opened Messages
  import opened Gateway
  import opened Lifecycle
  import opened LifecycleSafety
  import opened LifecycleIsolation
  import opened LifecycleExact
  import opened LifecycleTheorems
  import opened LifecycleTermination
  import opened LifecycleAgreement
  import opened LifecycleLimits
  import opened LifecycleStaffing

  /** A handler of request r dies after it has republished its delivery and before it has acked it. */
  predicate Duplicates(s: State, e: Event, r: string)
    requires Enabled(s, e)
  {
    e.Crash? && s.copies[e.id].msg.replyTo == r && BetweenRepublishAndAck(s.copies[e.id])
  }

  /** How many such deaths a run has. */
  ghost function Duplications(s: State, es: seq<Event>, r: string): nat
    requires Runs(s, es)
    decreases |es|
  {
    if es == [] then 0 else (if Duplicates(s, es[0], r) then 1 else 0) + Duplications(Apply(s, es[0]), es[1..], r)
  }

  // ---- two weights that only such deaths raise ---------------------------------------------

  /** One for each carrier of request r. */
  ghost function CarrierWeight(r: string): Copy -> int {
    (c: Copy) => if c.msg.replyTo == r && Carrier(c) then 1 else 0
  }

  /** The deliveries between republish and ack that a copy is, or can still lead to. */
  ghost function ChainWeight(r: string): Copy -> int {
    (c: Copy) =>
      if c.msg.replyTo != r || !c.queue.RetryQueue? then 0
      else if BetweenRepublishAndAck(c) then 1
      else if Carrier(c) && RetryCount(c.msg) < RETRY_LIMIT then RETRY_LIMIT - RetryCount(c.msg)
      else 0
  }

  lemma WeightsNonNegative(c: Copy, r: string)
    ensures CarrierWeight(r)(c) >= 0 && ChainWeight(r)(c) >= 0
  {
  }

  lemma ExecWeights(c: Copy, r: string)
    requires c.place.Held? && c.msg.replyTo != "" && c.place.pc < |ScriptOf(c)|
    ensures var spawned := Spawned(c, ScriptOf(c)[c.place.pc]);
      && CarrierWeight(r)(Moved(c)) + (if spawned.Some? then CarrierWeight(r)(spawned.value) else 0) <=
         CarrierWeight(r)(c)
      && ChainWeight(r)(Moved(c)) + (if spawned.Some? then ChainWeight(r)(spawned.value) else 0) <= ChainWeight(r)(c)
    ensures c.place.pc + 1 == |ScriptOf(c)| ==> CarrierWeight(r)(Moved(c)) == ChainWeight(r)(Moved(c)) == 0
  {
    hide Script;
    ScriptShape(c, c.place.pc);
  }

  lemma ReadyWeights(c: Copy, r: string, choice: Choice)
    requires c.place.Ready? && c.msg.replyTo != ""
    ensures CarrierWeight(r)(c.(place := Held(choice, 0))) == CarrierWeight(r)(c)
    ensures ChainWeight(r)(c.(place := Held(choice, 0))) == ChainWeight(r)(c)
    ensures CarrierWeight(r)(c.(queue := DeadLetterTarget(c.queue))) == CarrierWeight(r)(c)
    ensures c.queue.RetryQueue? ==> ChainWeight(r)(c.(queue := DeadLetterTarget(c.queue))) == 0
  {
  }

  lemma CrashWeights(c: Copy, r: string)
    requires c.place.Held? && c.msg.replyTo != "" && Live(c) && (c.queue.RetryQueue? ==> RetryCount(c.msg) >= 0)
    ensures var back := c.(place := Ready);
      var doubles := c.msg.replyTo == r && BetweenRepublishAndAck(c);
      && CarrierWeight(r)(back) <= CarrierWeight(r)(c) + (if doubles then 1 else 0)
      && ChainWeight(r)(back) <= ChainWeight(r)(c) + (if doubles then 2 else 0)
  {
  }

  /** At most one carrier more than deaths between republish and ack, and what they all can lead to. */
  ghost predicate Bounded(s: State, r: string, d: nat) {
    Sum(s.copies, CarrierWeight(r)) <= 1 + d && Sum(s.copies, ChainWeight(r)) <= RETRY_LIMIT + 2 * d
  }

  lemma ExecBounded(s: State, id: nat, r: string, d: nat)
    requires Inv(s) && Enabled(s, Exec(id)) && Bounded(s, r, d)
    ensures Bounded(Apply(s, Exec(id)), r, d)
  {
    SoloIdentity(s, id);
    hide Inv, Script, CarrierWeight, ChainWeight, Apply;
    ExecWeights(s.copies[id], r);
    ExecSum(s, id, CarrierWeight(r));
    ExecSum(s, id, ChainWeight(r));
  }

  lemma CrashBounded(s: State, id: nat, r: string, d: nat)
    requires Inv(s) && Enabled(s, Crash(id)) && Bounded(s, r, d)
    ensures Bounded(Apply(s, Crash(id)), r, d + if Duplicates(s, Crash(id), r) then 1 else 0)
  {
    SoloIdentity(s, id);
    var c := s.copies[id];
    RetryCountsNatural(s, id);
    WeightsNonNegative(c, r);
    hide Inv, Script, CarrierWeight, ChainWeight, BetweenRepublishAndAck, Live, RetryCount, ScriptOf;
    if Live(c) && !c.queue.ExchangeQueue? {
      CrashWeights(c, r);
      SumUpdate(s.copies, CarrierWeight(r), id, c.(place := Ready));
      SumUpdate(s.copies, ChainWeight(r), id, c.(place := Ready));
    } else {
      SumSplit(s.copies, CarrierWeight(r), id);
      SumSplit(s.copies, ChainWeight(r), id);
    }
  }

  lemma RetryCountsNatural(s: State, id: nat)
    requires Inv(s) && id in s.copies
    ensures s.copies[id].queue.RetryQueue? ==> 0 <= RetryCount(s.copies[id].msg) <= RETRY_LIMIT
  {
    hide Script, PickShard, FitsReply, Answered, Kept;
    assert CopyOk(s, s.copies[id]);
  }

  lemma ReadyBounded(s: State, e: Event, r: string, d: nat)
    requires Inv(s) && Enabled(s, e) && (e.Deliver? || e.Expire?) && Bounded(s, r, d)
    ensures Bounded(Apply(s, e), r, d)
  {
    SoloIdentity(s, e.id);
    var c := s.copies[e.id];
    ReadyWeights(c, r, if e.Deliver? then e.choice else CALM);
    WeightsNonNegative(c, r);
    hide Inv, CarrierWeight, ChainWeight;
    var c' := Apply(s, e).copies[e.id];
    SumUpdate(s.copies, CarrierWeight(r), e.id, c');
    SumUpdate(s.copies, ChainWeight(r), e.id, c');
  }

  lemma {:induction false} AddCopiesSum(s: State, q: Queue, m: Message, n: nat, f: Copy -> int)
    requires FreshIds(s) && f(Copy(q, m, Ready)) == 0
    ensures FreshIds(AddCopies(s, q, m, n)) && Sum(AddCopies(s, q, m, n).copies, f) == Sum(s.copies, f)
  {
    if n > 0 {
      AddCopiesSum(s, q, m, n - 1, f);
      var a := AddCopies(s, q, m, n - 1);
      SumUpdate(a.copies, f, a.nextId, Copy(q, m, Ready));
    }
  }

  lemma OtherSubmitBounded(s: State, r: string, t: Task, r': string, d: nat)
    requires Inv(s) && Enabled(s, Submit(r, t)) && r != r' && Bounded(s, r', d)
    ensures Bounded(Apply(s, Submit(r, t)), r', d)
  {
    FirstCopyFits(t, r);
    InvFreshIds(s);
    var s0, q, m := Register(s, r, t), FirstQueue(t), FirstMessage(t.form, r, t.corrId);
    OtherWeights(Copy(q, m, Ready), r');
    hide Inv, CarrierWeight, ChainWeight, FirstQueue, FirstMessage, FirstCopies;
    AddCopiesSum(s0, q, m, FirstCopies(t), CarrierWeight(r'));
    AddCopiesSum(s0, q, m, FirstCopies(t), ChainWeight(r'));
  }

  lemma OtherWeights(c: Copy, r: string)
    requires c.msg.replyTo != r
    ensures CarrierWeight(r)(c) == ChainWeight(r)(c) == 0
  {
  }

  lemma InvFreshIds(s: State)
    requires Inv(s)
    ensures FreshIds(s)
  {
  }

  lemma OwnSubmitBounded(s: State, r: string, t: Task)
    requires Inv(s) && Enabled(s, Submit(r, t)) && PathOf(t.form).RetryPath?
    ensures Bounded(Apply(s, Submit(r, t)), r, 0)
  {
    forall id | id in s.copies ensures CarrierWeight(r)(s.copies[id]) == ChainWeight(r)(s.copies[id]) == 0 {
      SoloIdentity(s, id);
    }
    var s0, c := Register(s, r, t), Copy(FirstQueue(t), FirstMessage(t.form, r, t.corrId), Ready);
    FirstWeights(t, r);
    assert AddCopies(s0, c.queue, c.msg, 1) == AddCopy(AddCopies(s0, c.queue, c.msg, 0), c.queue, c.msg);
    assert Apply(s, Submit(r, t)).copies == s.copies[s.nextId := c];
    hide Inv, CarrierWeight, ChainWeight;
    InvFreshIds(s);
    SumZero(s.copies, CarrierWeight(r));
    SumZero(s.copies, ChainWeight(r));
    SumUpdate(s.copies, CarrierWeight(r), s.nextId, c);
    SumUpdate(s.copies, ChainWeight(r), s.nextId, c);
  }

  lemma FirstWeights(t: Task, r: string)
    requires PathOf(t.form).RetryPath?
    ensures var c := Copy(FirstQueue(t), FirstMessage(t.form, r, t.corrId), Ready);
      CarrierWeight(r)(c) == 1 && ChainWeight(r)(c) == RETRY_LIMIT
    ensures FirstCopies(t) == 1
  {
    hide PathOf;
  }

  /** What is kept of request r: nothing before it is accepted, and the bounds if it is a retrying one. */
  ghost predicate Kempt(s: State, r: string, d: nat) {
    if r in s.tasks then PathOf(s.tasks[r].form).RetryPath? ==> Bounded(s, r, d) else d == 0
  }

  lemma StepKempt(s: State, e: Event, r: string, d: nat)
    requires Inv(s) && Enabled(s, e) && Kempt(s, r, d)
    ensures Kempt(Apply(s, e), r, d + if Duplicates(s, e, r) then 1 else 0)
  {
    hide Bounded, PathOf, Script, Effect, Advance;
    TasksGrow(s, e);
    if r in s.tasks { StepGrows(s, e, r); }
    if e.Submit? {
      if r in s.tasks && PathOf(s.tasks[r].form).RetryPath? {
        OtherSubmitBounded(s, e.replyTo, e.task, r, d);
      } else if e.replyTo == r && PathOf(e.task.form).RetryPath? {
        AddCopiesFrame(Register(s, r, e.task), FirstQueue(e.task),
                       FirstMessage(e.task.form, r, e.task.corrId), FirstCopies(e.task));
        OwnSubmitBounded(s, r, e.task);
      } else if e.replyTo == r {
        AddCopiesFrame(Register(s, r, e.task), FirstQueue(e.task),
                       FirstMessage(e.task.form, r, e.task.corrId), FirstCopies(e.task));
      }
    } else {
      SoloIdentity(s, e.id);
      if r in s.tasks && PathOf(s.tasks[r].form).RetryPath? { OwnStepBounded(s, e, r, d); }
    }
  }

  lemma OwnStepBounded(s: State, e: Event, r: string, d: nat)
    requires Inv(s) && Enabled(s, e) && !e.Submit? && Bounded(s, r, d)
    ensures Bounded(Apply(s, e), r, d + if Duplicates(s, e, r) then 1 else 0)
  {
    hide Bounded, Inv, Apply, Enabled;
    match e
    case Exec(id) => ExecBounded(s, id, r, d);
    case Crash(id) => CrashBounded(s, id, r, d);
    case _ => ReadyBounded(s, e, r, d);
  }

  lemma {:induction false} RunKempt(s: State, es: seq<Event>, r: string, d: nat)
    requires Inv(s) && Runs(s, es) && Kempt(s, r, d)
    ensures Kempt(After(s, es), r, d + Duplications(s, es, r))
    decreases |es|
  {
    hide Inv, Kempt, Apply, Enabled, Duplicates;
    if es != [] {
      StepInv(s, es[0]);
      StepKempt(s, es[0], r, d);
      RunKempt(Apply(s, es[0]), es[1..], r, d + if Duplicates(s, es[0], r) then 1 else 0);
    }
  }

  // ---- the bound ----------------------------------------------------------------------------

  /** The most live copies, with w workers on each retry queue and d deaths between republish and ack. */
  function Most(w: nat, d: nat): nat {
    if w == 0 then 1 else 1 + d + if w < RETRY_LIMIT + 2 * d then w else RETRY_LIMIT + 2 * d
  }

  lemma CarriersFew(s: State, r: string, d: nat)
    requires Bounded(s, r, d)
    ensures |Carriers(s, r)| <= 1 + d && |LeftBehind(s, r)| <= RETRY_LIMIT + 2 * d
  {
    forall id | id in s.copies ensures CarrierWeight(r)(s.copies[id]) >= 0 && ChainWeight(r)(s.copies[id]) >= 0 {
      WeightsNonNegative(s.copies[id], r);
    }
    SumAtLeast(s.copies, CarrierWeight(r), Carriers(s, r));
    SumAtLeast(s.copies, ChainWeight(r), LeftBehind(s, r));
  }

  /** A task none of whose handlers dies has no such death. */
  lemma {:induction false} UnharmedNeverDoubles(s: State, es: seq<Event>, r: string)
    requires Runs(s, es) && Unharmed(s, es, r)
    ensures Duplications(s, es, r) == 0
    decreases |es|
  {
    hide Apply;
    if es != [] { UnharmedNeverDoubles(Apply(s, es[0]), es[1..], r); }
  }

  /** With no worker there is no handler, and none dies. */
  lemma {:induction false} NobodyDies(s: State, es: seq<Event>, r: string)
    requires Runs(s, es) && Staffed(s, es, 0)
    ensures Duplications(s, es, r) == 0
    decreases |es|
  {
    hide Apply;
    if es != [] {
      if Duplicates(s, es[0], r) { Hired(s, es[0].id); }
      NobodyDies(Apply(s, es[0]), es[1..], r);
    }
  }

  lemma Hired(s: State, id: nat)
    requires id in s.copies && BetweenRepublishAndAck(s.copies[id])
    ensures !AtMostBusy(s, 0)
  {
    assert id in Busy(s, s.copies[id].queue.shard);
  }

  /** Every run, deaths included: at most Most(w, d) live copies of a retrying task. */
  lemma DuplicatedBound(es: seq<Event>, r: string, w: nat)
    requires Runs(START, es) && Staffed(START, es, w)
    requires r in After(START, es).tasks && PathOf(After(START, es).tasks[r].form).RetryPath?
    ensures |LiveCopies(After(START, es), r)| <= Most(w, Duplications(START, es, r))
  {
    var s := After(START, es);
    StartInv();
    RunKempt(START, es, r, 0);
    assert Bounded(s, r, Duplications(START, es, r));
    if w == 0 { NobodyDies(START, es, r); }
    hide *;
    ReachableInv(es);
    StaffedAfter(START, es, w);
    MostHolds(s, r, w, Duplications(START, es, r));
  }

  lemma MostHolds(s: State, r: string, w: nat, d: nat)
    requires Inv(s) && r in s.tasks && PathOf(s.tasks[r].form).RetryPath?
    requires Bounded(s, r, d) && AtMostBusy(s, w) && (w == 0 ==> d == 0)
    ensures |LiveCopies(s, r)| <= Most(w, d)
  {
    assert r in s.replies && Single(s.tasks[r]);
    CarriersFew(s, r, d);
    LeftBehindIsBusy(s, r);
    hide Inv, PathOf, Carriers, Busy, LeftBehind, Bounded, Single;
    SubsetSize(LeftBehind(s, r), Busy(s, PathOf(s.tasks[r].form).shard));
    forall id | id in LiveCopies(s, r) ensures id in Carriers(s, r) + LeftBehind(s, r) { LiveFits(s, r, id); }
    hide LiveCopies;
    SubsetSize(LiveCopies(s, r), Carriers(s, r) + LeftBehind(s, r));
    UnionFew(Carriers(s, r), LeftBehind(s, r));
  }

  lemma UnionFew(a: set<nat>, b: set<nat>)
    ensures |a + b| <= |a| + |b|
  {
    assert a + b == a + (b - a);
    assert |a + (b - a)| == |a| + |b - a|;
    SubsetSize(b - a, b);
  }

  // ---- the bound is met ------------------------------------------------------------------------

  lemma {:induction false} DuplicationsOn(s: State, es: seq<Event>, e: Event, r: string)
    requires Runs(s, es) && Runs(s, es + [e]) && Enabled(After(s, es), e)
    ensures Duplications(s, es + [e], r) == Duplications(s, es, r) + if Duplicates(After(s, es), e, r) then 1 else 0
    decreases |es|
  {
    hide Apply, Enabled, Duplicates;
    if es == [] {
      assert (es + [e])[1..] == [];
    } else {
      assert (es + [e])[1..] == es[1..] + [e];
      DuplicationsOn(Apply(s, es[0]), es[1..], e, r);
    }
  }

  lemma CalmKeeps(es: seq<Event>, e: Event, r: string)
    requires Runs(START, es + [e]) && !e.Crash?
    ensures Runs(START, es) && Duplications(START, es + [e], r) == Duplications(START, es, r)
  {
    hide Runs, After, Duplications, Apply;
    RunsSplit(START, es, e);
    DuplicationsOn(START, es, e, r);
  }

  lemma ThreeKeep(es: seq<Event>, es': seq<Event>, id: nat, r: string)
    requires es' == es + [Deliver(id, CALM), Exec(id), Exec(id)] && Runs(START, es) && Runs(START, es')
    ensures Duplications(START, es', r) == Duplications(START, es, r)
  {
    var es1 := es + [Deliver(id, CALM)];
    var es2 := es1 + [Exec(id)];
    assert es2 + [Exec(id)] == es';
    hide *;
    CalmKeeps(es2, Exec(id), r);
    CalmKeeps(es1, Exec(id), r);
    CalmKeeps(es, Deliver(id, CALM), r);
  }

  /** All copies belong to retrying task r, in its retry queue, and are ready or held between republish and ack. */
  ghost predicate Stock(s: State, r: string, q: Queue) {
    && q.RetryQueue? && r != ""
    && forall id :: id in s.copies ==>
         && s.copies[id].msg.replyTo == r && s.copies[id].queue == q && 0 <= RetryCount(s.copies[id].msg) <= RETRY_LIMIT
         && (s.copies[id].place.Ready? || (s.copies[id].place == Held(CALM, 2) && Exposed(s.copies[id])))
  }

  /** A worker takes one more delivery and republishes it. */
  ghost predicate OneHired(s: State, s': State, r: string, q: Queue, id: nat, n: int) {
    ReadyAt(s, r, id, q, n) && n < RETRY_LIMIT && OneMore(s, s', id) &&
    Exposed(s'.copies[id]) && ReadyAt(s', r, s.nextId, q, n + 1)
  }

  lemma StockGrows(s: State, s': State, r: string, q: Queue, id: nat, n: int)
    requires Stock(s, r, q) && FreshIds(s) && OneHired(s, s', r, q, id, n)
    ensures Stock(s', r, q) && |s'.copies| == |s.copies| + 1
  {
    hide Exposed;
    assert s'.copies.Keys == s.copies.Keys + {s.nextId};
  }

  lemma ChainWeightKept(s: State, s': State, r: string, q: Queue, id: nat, n: int)
    requires Stock(s, r, q) && FreshIds(s) && OneHired(s, s', r, q, id, n)
    ensures Sum(s'.copies, ChainWeight(r)) == Sum(s.copies, ChainWeight(r))
  {
    var held, next := s'.copies[id], s'.copies[s.nextId];
    HiredWeights(s.copies[id], held, next, r, q, n);
    assert s'.copies == s.copies[s.nextId := next][id := held];
    hide ChainWeight;
    SumUpdate(s.copies, ChainWeight(r), s.nextId, next);
    SumUpdate(s.copies[s.nextId := next], ChainWeight(r), id, held);
  }

  lemma HiredWeights(c: Copy, held: Copy, next: Copy, r: string, q: Queue, n: int)
    requires c.msg.replyTo == r && c.queue == q && q.RetryQueue?
    requires c.place.Ready? && RetryCount(c.msg) == n < RETRY_LIMIT
    requires held == c.(place := Held(CALM, 2))
    requires next.msg.replyTo == r && next.queue == q && next.place.Ready? && RetryCount(next.msg) == n + 1
    ensures ChainWeight(r)(held) == 1 && ChainWeight(r)(held) + ChainWeight(r)(next) == ChainWeight(r)(c)
  {
  }

  lemma StockWeight(c: Copy, r: string)
    requires (c.place.Ready? && RetryCount(c.msg) == RETRY_LIMIT) || BetweenRepublishAndAck(c)
    ensures ChainWeight(r)(c) <= if c.place.Held? then 1 else 0
  {
  }

  lemma ExposedShape(c: Copy)
    requires c.place == Held(CALM, 2) && Exposed(c)
    ensures Live(c) && BetweenRepublishAndAck(c) && !Carrier(c)
  {
  }

  /** As long as the weight is not used up, some ready copy can still be republished. */
  lemma Hireable(s: State, r: string, q: Queue, b: set<nat>) returns (id: nat)
    requires Stock(s, r, q) && HeldIn(s, b) && Sum(s.copies, ChainWeight(r)) > |b|
    ensures id in s.copies && ReadyAt(s, r, id, q, RetryCount(s.copies[id].msg))
    ensures RetryCount(s.copies[id].msg) < RETRY_LIMIT
  {
    if forall k :: k in s.copies && s.copies[k].place.Ready? ==> RetryCount(s.copies[k].msg) == RETRY_LIMIT {
      forall k | k in s.copies ensures ChainWeight(r)(s.copies[k]) <= if k in b then 1 else 0 {
        if s.copies[k].place.Held? { ExposedShape(s.copies[k]); }
        StockWeight(s.copies[k], r);
      }
      SumAtMost(s.copies, ChainWeight(r), b);
      assert false;
    }
    id :| id in s.copies && s.copies[id].place.Ready? && RetryCount(s.copies[id].msg) != RETRY_LIMIT;
  }

  /** What the two phases below have come to: h deliveries are held after d deaths, and more can be. */
  ghost predicate Bred(t: Trace, r: string, q: Queue, task: Task, w: nat, d: nat, b: set<nat>) {
    && Valid(t) && Runs(START, t.es) && t.s == After(START, t.es)
    && Crashes(t.es) == d && Duplications(START, t.es, r) == d && Staffed(START, t.es, w)
    && Stock(t.s, r, q) && FreshIds(t.s) && HeldIn(t.s, b)
    && Sum(t.s.copies, ChainWeight(r)) == RETRY_LIMIT + 2 * d
    && r in t.s.tasks && t.s.tasks[r] == task
  }

  lemma BredFirst(r: string, task: Task, w: nat) returns (t: Trace, q: Queue)
    requires r != "" && PathOf(task.form).RetryPath?
    ensures Bred(t, r, q, task, w, 0, {}) && ReadyAt(t.s, r, 0, q, 0) && |t.s.copies| == 1
  {
    t, q := Accepting(r, task);
    ValidRuns(t);
    StartStaffed(t);
    StaffedMore(START, t.es, 0, w);
    SubmitOnly(t, r);
    ValidInv(t);
    InvFreshIds(t.s);
    assert t.s.copies == map[0 := t.s.copies[0]];
    hide Valid, Runs, After, Staffed, Duplications, Crashes, PathOf, Inv;
    assert t.s.copies == map[][0 := t.s.copies[0]];
    SumUpdate(map[], ChainWeight(r), 0, t.s.copies[0]);
    assert ChainWeight(r)(t.s.copies[0]) == RETRY_LIMIT;
  }

  lemma SubmitOnly(t: Trace, r: string)
    requires Runs(START, t.es) && |t.es| == 1 && Crashes(t.es) == 0
    ensures Duplications(START, t.es, r) == 0
  {
    assert t.es[1..] == [];
    assert !t.es[0].Crash?;
  }

  /** One more delivery is republished and held. */
  lemma BredHire(t: Trace, r: string, q: Queue, task: Task, w: nat, d: nat, b: set<nat>, id: nat, n: int)
    returns (t': Trace)
    requires Bred(t, r, q, task, w, d, b) && ReadyAt(t.s, r, id, q, n) && n < RETRY_LIMIT && |b + {id}| <= w
    ensures Bred(t', r, q, task, w, d, b + {id}) && |t'.s.copies| == |t.s.copies| + 1
    ensures OneHired(t.s, t'.s, r, q, id, n)
  {
    hide Valid, Runs, After, Staffed, Duplications, Crashes, Stock, ReadyAt, OneMore, Exposed;
    StockQueue(t.s, r, q);
    var reply;
    t', reply := Republishing(t, r, id, q, n);
    CalmlyRuns(t, t');
    ValidRuns(t');
    ValidInv(t');
    InvFreshIds(t'.s);
    hide Inv, HeldIn, FreshIds;
    StaffedThrice(t.es, t'.es, id, b, w);
    ThreeKeep(t.es, t'.es, id, r);
    StockGrows(t.s, t'.s, r, q, id, n);
    ChainWeightKept(t.s, t'.s, r, q, id, n);
  }

  lemma StockQueue(s: State, r: string, q: Queue)
    requires Stock(s, r, q)
    ensures q.RetryQueue?
  {
  }

  /** The handler of copy 0 dies: it is ready again, beside its successor. */
  lemma BredCrash(t: Trace, t0: Trace, r: string, q: Queue, task: Task, w: nat, d: nat) returns (t': Trace)
    requires Bred(t0, r, q, task, w, d, {}) && Bred(t, r, q, task, w, d, {0}) && OneHired(t0.s, t.s, r, q, 0, 0)
    ensures Bred(t', r, q, task, w, d + 1, {}) && ReadyAt(t'.s, r, 0, q, 0) && |t'.s.copies| == |t.s.copies|
  {
    hide Valid, Runs, After, Staffed, Duplications, Duplicates, Crashes, Apply, Enabled;
    hide Stock, OneHired, HeldIn, ReadyAt;
    BackAgain(t0.s, t.s, r, q);
    t' := CrashTrace(t, r);
    AfterCrash(t0.s, t.s, t'.s, r, q);
    CrashStaffed(t, t', w);
    assert r in t'.s.tasks && t'.s.tasks[r] == task;
    hide *;
    BredAgain(t', r, q, task, w, d + 1);
  }

  lemma BredAgain(t: Trace, r: string, q: Queue, task: Task, w: nat, d: nat)
    requires Valid(t) && Runs(START, t.es) && t.s == After(START, t.es)
    requires Crashes(t.es) == d && Duplications(START, t.es, r) == d && Staffed(START, t.es, w)
    requires Stock(t.s, r, q) && HeldIn(t.s, {}) && Sum(t.s.copies, ChainWeight(r)) == RETRY_LIMIT + 2 * d
    requires r in t.s.tasks && t.s.tasks[r] == task
    ensures Bred(t, r, q, task, w, d, {})
  {
    ValidInv(t);
    InvFreshIds(t.s);
  }

  lemma CrashTrace(t: Trace, r: string) returns (t': Trace)
    requires Valid(t) && Runs(START, t.es) && Enabled(t.s, Crash(0)) && Duplicates(t.s, Crash(0), r)
    ensures Valid(t') && t'.es == t.es + [Crash(0)] && t'.s == Apply(t.s, Crash(0))
    ensures Runs(START, t'.es) && t'.s == After(START, t'.es)
    ensures Crashes(t'.es) == Crashes(t.es) + 1 && Duplications(START, t'.es, r) == Duplications(START, t.es, r) + 1
  {
    ValidRuns(t);
    hide *;
    t' := Next(t, Crash(0));
    ValidRuns(t');
    DuplicationsOn(START, t.es, Crash(0), r);
  }

  lemma CrashStaffed(t: Trace, t': Trace, w: nat)
    requires Runs(START, t.es) && Runs(START, t'.es) && t'.s == After(START, t'.es) && t'.es == t.es + [Crash(0)]
    requires Staffed(START, t.es, w) && HeldIn(t'.s, {})
    ensures Staffed(START, t'.es, w)
  {
    hide *;
    HeldFew(t'.s, {}, w);
    StaffedOn(START, t.es, Crash(0), w);
  }

  lemma BackAgain(s0: State, s: State, r: string, q: Queue)
    requires Stock(s, r, q) && OneHired(s0, s, r, q, 0, 0)
    ensures Enabled(s, Crash(0)) && Duplicates(s, Crash(0), r) && 0 in s.copies
    ensures Apply(s, Crash(0)) == s.(copies := s.copies[0 := s.copies[0].(place := Ready)])
  {
    ExposedShape(s.copies[0]);
    hide Exposed, Live;
  }

  lemma AfterCrash(s0: State, s: State, s': State, r: string, q: Queue)
    requires Stock(s0, r, q) && FreshIds(s0) && Stock(s, r, q) && HeldIn(s, {0}) && OneHired(s0, s, r, q, 0, 0)
    requires 0 in s.copies && s' == s.(copies := s.copies[0 := s.copies[0].(place := Ready)])
    ensures Stock(s', r, q) && HeldIn(s', {}) && ReadyAt(s', r, 0, q, 0) && |s'.copies| == |s.copies|
    ensures Sum(s'.copies, ChainWeight(r)) == Sum(s0.copies, ChainWeight(r)) + 2
  {
    OneMoreReady(s0, s, s', r, q);
    StockAgain(s, s', r, q);
    ReadyAgain(s0, s, r, q);
    hide Exposed, ChainWeight, Stock, HeldIn, OneMore;
  }

  lemma ReadyAgain(s0: State, s: State, r: string, q: Queue)
    requires OneHired(s0, s, r, q, 0, 0)
    ensures 0 in s.copies && s.copies[0].queue == q && s.copies[0].msg.replyTo == r && RetryCount(s.copies[0].msg) == 0
  {
  }

  lemma StockAgain(s: State, s': State, r: string, q: Queue)
    requires Stock(s, r, q) && HeldIn(s, {0})
    requires 0 in s.copies && s' == s.(copies := s.copies[0 := s.copies[0].(place := Ready)])
    ensures Stock(s', r, q) && HeldIn(s', {}) && |s'.copies| == |s.copies|
  {
    hide Exposed, RetryCount;
    assert s'.copies.Keys == s.copies.Keys;
  }

  lemma OneMoreReady(s0: State, s: State, s': State, r: string, q: Queue)
    requires FreshIds(s0) && q.RetryQueue? && OneHired(s0, s, r, q, 0, 0)
    requires 0 in s.copies && s' == s.(copies := s.copies[0 := s.copies[0].(place := Ready)])
    ensures Sum(s'.copies, ChainWeight(r)) == Sum(s0.copies, ChainWeight(r)) + 2
  {
    hide Exposed;
    var next := s.copies[s0.nextId];
    assert ChainWeight(r)(next) == 2;
    hide ChainWeight;
    assert s'.copies == s0.copies[s0.nextId := next];
    SumUpdate(s0.copies, ChainWeight(r), s0.nextId, next);
  }

  lemma BredHireFirst(t: Trace, r: string, q: Queue, task: Task, w: nat, d: nat) returns (t': Trace)
    requires Bred(t, r, q, task, w, d, {}) && ReadyAt(t.s, r, 0, q, 0) && w > 0
    ensures Bred(t', r, q, task, w, d, {0}) && |t'.s.copies| == |t.s.copies| + 1 && OneHired(t.s, t'.s, r, q, 0, 0)
  {
    assert 0 < RETRY_LIMIT;
    hide *;
    var none: set<nat>, one: set<nat> := {}, {0};
    assert none + one == one;
    t' := BredHire(t, r, q, task, w, d, none, 0, 0);
  }

  /** d handlers of copy 0 die, one after the other, with a single worker on the queue. */
  lemma {:induction false} Breeding(r: string, task: Task, w: nat, d: nat) returns (t: Trace, q: Queue)
    requires r != "" && PathOf(task.form).RetryPath? && (d > 0 ==> w > 0)
    ensures Bred(t, r, q, task, w, d, {}) && ReadyAt(t.s, r, 0, q, 0) && |t.s.copies| == 1 + d
  {
    assert 0 < RETRY_LIMIT;
    hide *;
    if d == 0 {
      t, q := BredFirst(r, task, w);
    } else {
      var t0, t1;
      t0, q := Breeding(r, task, w, d - 1);
      t1 := BredHireFirst(t0, r, q, task, w, d - 1);
      t := BredCrash(t1, t0, r, q, task, w, d - 1);
    }
  }

  /** After d deaths, h deliveries at once are held between their republish and their ack. */
  lemma {:induction false} Hiring(r: string, task: Task, w: nat, d: nat, h: nat)
    returns (t: Trace, q: Queue, b: set<nat>)
    requires r != "" && PathOf(task.form).RetryPath? && (d > 0 ==> w > 0) && h <= w && h <= RETRY_LIMIT + 2 * d
    ensures Bred(t, r, q, task, w, d, b) && |b| <= h && |t.s.copies| == 1 + d + h
  {
    hide *;
    if h == 0 {
      t, q := Breeding(r, task, w, d);
      b := {};
    } else {
      var t0, b0;
      t0, q, b0 := Hiring(r, task, w, d, h - 1);
      BredStock(t0, r, q, task, w, d, b0);
      var id := Hireable(t0.s, r, q, b0);
      b := b0 + {id};
      UnionFew(b0, {id});
      t := BredHire(t0, r, q, task, w, d, b0, id, RetryCount(t0.s.copies[id].msg));
    }
  }

  lemma BredStock(t: Trace, r: string, q: Queue, task: Task, w: nat, d: nat, b: set<nat>)
    requires Bred(t, r, q, task, w, d, b)
    ensures Stock(t.s, r, q) && HeldIn(t.s, b) && Sum(t.s.copies, ChainWeight(r)) == RETRY_LIMIT + 2 * d
  {
  }

  lemma StockIsLive(s: State, r: string, q: Queue)
    requires Stock(s, r, q)
    ensures LiveCopies(s, r) == s.copies.Keys && |LiveCopies(s, r)| == |s.copies|
  {
    forall id | id in s.copies ensures Live(s.copies[id]) {
      if s.copies[id].place.Held? { ExposedShape(s.copies[id]); }
    }
    hide Live, Exposed;
  }

  /** For every number of workers and of deaths, a run in which any retrying task has that many live copies. */
  lemma MostAttained(r: string, task: Task, w: nat, d: nat) returns (es: seq<Event>)
    requires r != "" && PathOf(task.form).RetryPath? && (d > 0 ==> w > 0)
    ensures Runs(START, es) && Crashes(es) == d && Duplications(START, es, r) == d && Staffed(START, es, w)
    ensures r in After(START, es).tasks && After(START, es).tasks[r] == task
    ensures |LiveCopies(After(START, es), r)| == Most(w, d)
  {
    var h := if w < RETRY_LIMIT + 2 * d then w else RETRY_LIMIT + 2 * d;
    var t, q, b := Hiring(r, task, w, d, h);
    es := t.es;
    hide Valid, Runs, After, Staffed, Duplications, Crashes, Stock, LiveCopies;
    StockIsLive(t.s, r, q);
  }

  /** In no run with w workers on each retry queue and d deaths has a retrying task more than m live copies. */
  ghost predicate NeverMore(w: nat, d: nat, m: nat) {
    forall es, r ::
      Runs(START, es) && Staffed(START, es, w) && Duplications(START, es, r) <= d &&
      r in After(START, es).tasks && PathOf(After(START, es).tasks[r].form).RetryPath? ==>
        |LiveCopies(After(START, es), r)| <= m
  }

  /**
   * The exact number, in all runs: with at most w workers on each retry queue, and at most d deaths of a task's
   * handlers between republish and ack, a retrying task has at most m live copies iff m is at least Most(w, d). So
   * two copies are guaranteed iff there is one worker and no such death, or no worker at all.
   */
  lemma NeverMoreIff(w: nat, d: nat, m: nat)
    ensures NeverMore(w, d, m) <==> Most(w, d) <= m
    ensures NeverMore(w, d, 2) <==> w == 0 || (w == 1 && d == 0)
  {
    NeverMoreThan(w, d, m);
    NeverMoreThan(w, d, 2);
  }

  lemma NeverMoreThan(w: nat, d: nat, m: nat)
    ensures NeverMore(w, d, m) <==> Most(w, d) <= m
  {
    if Most(w, d) <= m {
      forall es, r | Runs(START, es) && Staffed(START, es, w) && Duplications(START, es, r) <= d &&
                     r in After(START, es).tasks && PathOf(After(START, es).tasks[r].form).RetryPath?
        ensures |LiveCopies(After(START, es), r)| <= m
      {
        DuplicatedBound(es, r, w);
      }
    } else {
      var task := Task(Form([], "", "", "", "1", ""), "", 0);
      var es := MostAttained("reply", task, w, if w == 0 then 0 else d);
      hide Runs, After, Staffed, Duplications, LiveCopies;
    }
  }

  /** Without any death, three workers on its queue can leave a single retrying task with four live copies. */
  lemma FourLiveCopies(r: string, task: Task) returns (es: seq<Event>)
    requires r != "" && PathOf(task.form).RetryPath?
    ensures Runs(START, es) && Crashes(es) == 0 && Staffed(START, es, 3)
    ensures |LeftBehind(After(START, es), r)| == 3 && |LiveCopies(After(START, es), r)| == 4
  {
    es := MostAttained(r, task, 3, 0);
    CrashlessIsFree(es);
    CrashFreeUnharmed(START, es, r);
    hide Runs, After, Staffed, Duplications, LiveCopies, LeftBehind, Unharmed;
    assert Single(task);
    CopyConservation(es, r);
  }

  lemma {:induction false} CrashlessIsFree(es: seq<Event>)
    requires Crashes(es) == 0
    ensures CrashFree(es)
  {
    if es != [] { CrashlessIsFree(es[1..]); }
  }
}
