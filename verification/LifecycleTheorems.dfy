/** What a client and an operator can rely on for every task none of whose own handlers dies. */
module LifecycleTheorems {
  import opened Common
  import opened ShardHash
  import opened Messages
  import opened Gateway
  import opened Lifecycle
  import opened LifecycleSafety
  import opened LifecycleIsolation
  import opened LifecycleExact

  lemma ReachableExact(es: seq<Event>, r: string)
    requires Runs(START, es) && Unharmed(START, es, r) && r in After(START, es).tasks
    ensures Inv(After(START, es)) && Solo(Project(After(START, es), r), r) && TaskExact(Project(After(START, es), r), r)
  {
    hide Inv, Runs, After, TaskExact, Project, Unharmed, Solo;
    StartInv();
    RunExact(START, es, r);
    ReachableInv(es);
    ProjectSolo(After(START, es), r);
  }

  // ---- transcripts -------------------------------------------------------------------

  /** k interim replies, with at most one final reply after them, and a final dlq only after all the retries. */
  predicate RetryForm(corrId: string, k: int, reps: seq<Reply>) {
    && 0 <= k <= RETRY_LIMIT
    && (|| reps == Interim(corrId, k)
        || reps == Interim(corrId, k) + Final(corrId, Succeeded)
        || (k == RETRY_LIMIT && reps == Interim(corrId, k) + Final(corrId, DeadLettered)))
  }

  /**
   * The reply queue of a retrying task is retry(1), ..., retry(k), k <= 3, with at most one final reply after
   * it, and a final dlq only after all three retries. So all that the client can be told is settled by the
   * transcript, and nothing contradicts it.
   */
  lemma RetryTranscripts(es: seq<Event>, r: string)
    requires Runs(START, es) && Unharmed(START, es, r) && r in After(START, es).tasks
    requires PathOf(After(START, es).tasks[r].form).RetryPath?
    ensures var s := After(START, es);
      r in s.replies && exists k :: RetryForm(s.tasks[r].corrId, k, s.replies[r])
  {
    var s := After(START, es);
    hide *;
    ReachableExact(es, r);
    RetryFormHolds(s, r);
  }

  lemma CarrierForm(t: Task, c: Copy, reps: seq<Reply>)
    requires PathOf(t.form).RetryPath? && Fits(t, c) && Transcript(t, c, reps)
    ensures exists k :: RetryForm(t.corrId, k, reps)
  {
    hide Script, PathOf, Interim;
    var n := RetryCount(c.msg);
    assert forall k {:trigger Interim(t.corrId, k)} :: Interim(t.corrId, k) == Interim(t.corrId, k) + [];
    assert RetryForm(t.corrId, n, reps) || RetryForm(t.corrId, n + 1, reps);
  }

  lemma DoneForm(t: Task, reps: seq<Reply>)
    requires PathOf(t.form).RetryPath? && Done(t, reps)
    ensures exists k :: RetryForm(t.corrId, k, reps)
  {
    hide PathOf, Interim;
    if reps == Interim(t.corrId, RETRY_LIMIT) + Final(t.corrId, DeadLettered) {
      assert RetryForm(t.corrId, RETRY_LIMIT, reps);
    } else {
      var k {:trigger Interim(t.corrId, k)} :| 0 <= k <= RETRY_LIMIT &&
        reps == Interim(t.corrId, k) + Final(t.corrId, Succeeded);
      assert RetryForm(t.corrId, k, reps);
    }
  }

  lemma RetryFormHolds(s: State, r: string)
    requires r in s.tasks && PathOf(s.tasks[r].form).RetryPath?
    requires Solo(Project(s, r), r) && TaskExact(Project(s, r), r)
    ensures r in s.replies && exists k :: RetryForm(s.tasks[r].corrId, k, s.replies[r])
  {
    hide PathOf, Inv, Transcript, Done, Fits, RetryForm, Carrier;
    var p := Project(s, r);
    if j :| j in p.copies && Carrier(p.copies[j]) {
      SoloFacts(p, r, j);
      CarrierForm(p.tasks[r], p.copies[j], p.replies[r]);
    } else {
      DoneForm(p.tasks[r], p.replies[r]);
    }
  }

  /** No event of request r is a TTL expiry or meets a refused republish. */
  ghost predicate Smooth(s: State, es: seq<Event>, r: string)
    requires Runs(s, es)
    decreases |es|
  {
    es == [] || (
      && (Owner(s, es[0]) == r ==> !es[0].Expire? && (es[0].Deliver? ==> es[0].choice.publishOk))
      && Smooth(Apply(s, es[0]), es[1..], r))
  }

  /** Nothing has diverted retrying task r from its retry queue. */
  ghost predicate Undiverted(s: State, r: string) {
    r in s.tasks && r in s.replies && PathOf(s.tasks[r].form).RetryPath? ==>
      && (forall i :: 0 <= i < |s.replies[r]| ==> s.replies[r][i].status != Succeeded)
      && (forall id :: id in s.copies && s.copies[id].msg.replyTo == r ==>
            s.copies[id].queue.RetryQueue? && (s.copies[id].place.Held? ==> s.copies[id].place.choice.publishOk))
  }

  lemma UndivertedAlone(s: State, s': State, r: string)
    requires SameTasks(Project(s, r), Project(s', r)) && Undiverted(s, r)
    ensures Undiverted(s', r)
  {
    hide PathOf;
    var p, p' := Project(s, r), Project(s', r);
    if r in s'.tasks && r in s'.replies {
      assert r in p'.tasks && r in p'.replies;
      forall id | id in s'.copies && s'.copies[id].msg.replyTo == r
        ensures id in s.copies && s.copies[id] == s'.copies[id]
      {
        assert id in p'.copies && id in p.copies;
      }
    }
  }

  lemma SubmitUndiverted(s: State, r: string, t: Task)
    requires Inv(s) && Enabled(s, Submit(r, t))
    ensures Undiverted(Apply(s, Submit(r, t)), r)
  {
    hide Script, PickShard, Fits, FitsReply, Answered;
    var s0 := Register(s, r, t);
    var q, m := FirstQueue(t), FirstMessage(t.form, r, t.corrId);
    AddCopiesFrame(s0, q, m, FirstCopies(t));
    if PathOf(t.form).RetryPath? {
      assert AddCopies(s0, q, m, 1) == AddCopy(AddCopies(s0, q, m, 0), q, m) == AddCopy(s0, q, m);
      assert forall id :: id in s.copies ==> CopyOk(s, s.copies[id]);
    }
  }

  lemma ExecUndiverted(s: State, id: nat, r: string)
    requires Inv(s) && Enabled(s, Exec(id)) && Undiverted(s, r) && s.copies[id].msg.replyTo == r
    ensures Undiverted(Apply(s, Exec(id)), r)
  {
    hide Script, PathOf, Fits, FitsReply, Answered;
    ExecState(s, id);
    assert CopyOk(s, s.copies[id]);
    ScriptShape(s.copies[id], s.copies[id].place.pc);
    hide Apply, Inv;
  }

  lemma StepUndiverted(s: State, e: Event, r: string)
    requires Inv(s) && Enabled(s, e) && Undiverted(s, r)
    requires Owner(s, e) == r ==> !e.Expire? && (e.Deliver? ==> e.choice.publishOk)
    ensures Undiverted(Apply(s, e), r)
  {
    hide Script, PathOf, Inv, AddCopies;
    if Owner(s, e) != r {
      StepIsolated(s, e, r);
      UndivertedAlone(s, Apply(s, e), r);
    } else if e.Exec? {
      ExecUndiverted(s, e.id, r);
    } else if e.Submit? {
      SubmitUndiverted(s, r, e.task);
    }
  }

  lemma {:induction false} RunUndiverted(s: State, es: seq<Event>, r: string)
    requires Inv(s) && Runs(s, es) && Undiverted(s, r) && Smooth(s, es, r)
    ensures Undiverted(After(s, es), r)
    decreases |es|
  {
    hide Inv, Apply, Enabled, Undiverted;
    if es != [] {
      StepUndiverted(s, es[0], r);
      StepInv(s, es[0]);
      RunUndiverted(Apply(s, es[0]), es[1..], r);
    }
  }

  /**
   * When no TTL runs out and no republish is refused for it, a retrying task gets retry(1), retry(2), retry(3)
   * and then dlq, and nothing else, however the handlers interleave.
   */
  lemma SmoothRetry(es: seq<Event>, r: string)
    requires Runs(START, es) && Unharmed(START, es, r) && Smooth(START, es, r) && r in After(START, es).tasks
    requires PathOf(After(START, es).tasks[r].form).RetryPath?
    ensures var s := After(START, es);
      var corr := s.tasks[r].corrId;
      r in s.replies &&
        if Answered(s.replies[r]) then s.replies[r] == Interim(corr, 3) + Final(corr, DeadLettered)
        else exists k {:trigger Interim(corr, k)} :: 0 <= k <= 3 && s.replies[r] == Interim(corr, k)
  {
    var s := After(START, es);
    StartInv();
    RunUndiverted(START, es, r);
    RetryTranscripts(es, r);
    hide Runs, After, Unharmed, Smooth, PathOf;
    var corr := s.tasks[r].corrId;
    var k :| RetryForm(corr, k, s.replies[r]);
    InterimStatuses(corr, k);
    LastStatus(corr, k, Succeeded);
    LastStatus(corr, k, DeadLettered);
    assert forall i :: 0 <= i < |s.replies[r]| ==> s.replies[r][i].status != Succeeded;
  }

  lemma LastStatus(corrId: string, k: int, status: Status)
    ensures var reps := Interim(corrId, k) + Final(corrId, status);
      reps[|reps| - 1].status == status && (status != Retrying ==> Answered(reps))
  {
  }

  lemma {:induction false} InterimStatuses(corrId: string, n: int)
    ensures forall i :: 0 <= i < |Interim(corrId, n)| ==> !Terminal(Interim(corrId, n)[i])
  {
    if n > 0 { InterimStatuses(corrId, n - 1); }
  }

  // ---- conservation of copies ------------------------------------------------------------

  ghost function Carriers(s: State, r: string): set<nat> {
    set id | id in s.copies && Carries(s, r, id)
  }

  ghost function LiveCopies(s: State, r: string): set<nat> {
    set id | id in s.copies && s.copies[id].msg.replyTo == r && Live(s.copies[id])
  }

  /** A retry handler has republished and has not acked yet. */
  predicate BetweenRepublishAndAck(c: Copy) {
    Retries(c) && c.place.Held? && c.place.choice.publishOk && c.place.pc == 2
  }

  /** The live copies of a retrying task that are in the hands of a retry worker. */
  ghost function InRetryHands(s: State, r: string): set<nat> {
    set id | id in LiveCopies(s, r) && s.copies[id].queue.RetryQueue? && s.copies[id].place.Held?
  }

  /** The copies of a task whose handlers have republished it and not acked yet. */
  ghost function LeftBehind(s: State, r: string): set<nat> {
    set id | id in s.copies && s.copies[id].msg.replyTo == r && BetweenRepublishAndAck(s.copies[id])
  }

  ghost predicate Conserved(s: State, r: string)
    requires r in s.tasks && r in s.replies
  {
    && (if Carriers(s, r) == {} then Done(s.tasks[r], s.replies[r]) else |Carriers(s, r)| == 1)
    && LiveCopies(s, r) == Carriers(s, r) + LeftBehind(s, r)
    && |LiveCopies(s, r)| == |Carriers(s, r)| + |LeftBehind(s, r)|
    && |LeftBehind(s, r)| <= RETRY_LIMIT
    && LeftBehind(s, r) <= InRetryHands(s, r)
    && |LeftBehind(s, r)| <= |InRetryHands(s, r)|
  }

  /**
   * Nothing is lost and nothing is silently duplicated. A retrying, failing, sharded or returned task has one
   * carrier until it is settled and none after; its other live copies are exactly its retry deliveries between
   * republish and ack. There are at most as many of those as deliveries in the hands of retry workers, so at
   * most one with one worker per retry queue, and never more than three (LifecycleDuplication.NeverMoreIff).
   */
  lemma CopyConservation(es: seq<Event>, r: string)
    requires Runs(START, es) && Unharmed(START, es, r) && r in After(START, es).tasks &&
             Single(After(START, es).tasks[r])
    ensures r in After(START, es).tasks && r in After(START, es).replies && Conserved(After(START, es), r)
  {
    var s := After(START, es);
    ReachableExact(es, r);
    assert r in Project(s, r).tasks && r in s.tasks && r in s.replies && Exact(Project(s, r), r);
    hide *;
    ConservationHolds(s, r);
  }

  lemma ConservationHolds(s: State, r: string)
    requires Inv(s) && r in s.tasks && r in s.replies && Single(s.tasks[r]) && Exact(Project(s, r), r)
    ensures Conserved(s, r)
  {
    hide PathOf, Script, Fits, FitsReply, Answered, Exact, Project, Single, Carries, Live, Done, CopyOk, Kept;
    hide BetweenRepublishAndAck;
    ExactCarriers(s, r);
    ExactLive(s, r);
    LeftBehindNotCarrying(s, r);
    var live, carriers, left := LiveCopies(s, r), Carriers(s, r), LeftBehind(s, r);
    assert live == carriers + left;
    SubsetSize(left, InRetryHands(s, r));
  }

  /** A handler between republish and ack still holds a live copy, which carries nothing any more. */
  lemma LeftBehindNotCarrying(s: State, r: string)
    requires r != ""
    ensures LeftBehind(s, r) <= InRetryHands(s, r) && LeftBehind(s, r) !! Carriers(s, r)
  {
  }

  lemma ExactCarriers(s: State, r: string)
    requires r in s.tasks && r in s.replies && Exact(Project(s, r), r)
    ensures if Carriers(s, r) == {} then Done(s.tasks[r], s.replies[r]) else |Carriers(s, r)| == 1
    ensures Carriers(s, r) <= LiveCopies(s, r)
  {
    hide Transcript, Done, PathOf, SettleAt, HandoverAt, Script;
    var p := Project(s, r);
    forall id | id in Carriers(s, r) ensures id in LiveCopies(s, r) { CarrierIsLive(s.copies[id]); }
    if id :| id in Carriers(s, r) {
      forall j | j in Carriers(s, r) ensures j == id {
        assert p.copies[j] == s.copies[j] && p.copies[id] == s.copies[id];
        CarrierIsLive(p.copies[j]);
        CarrierIsLive(p.copies[id]);
      }
      assert Carriers(s, r) == {id};
    } else {
      forall j | j in p.copies ensures !Carrier(p.copies[j]) {
        assert j !in Carriers(s, r);
      }
    }
  }

  lemma LiveFits(s: State, r: string, id: nat)
    requires Inv(s) && r in s.tasks && r in s.replies && Single(s.tasks[r]) && id in LiveCopies(s, r)
    ensures id in Carriers(s, r) || id in LeftBehind(s, r)
    ensures id in LeftBehind(s, r) ==>
      PathOf(s.tasks[r].form).RetryPath? && 0 <= RetryCount(s.copies[id].msg) < RETRY_LIMIT
  {
    hide Script, PickShard, FitsReply, Answered, Kept, RepliesOk, ScriptOf;
    assert CopyOk(s, s.copies[id]);
  }

  lemma ExactLive(s: State, r: string)
    requires Inv(s) && r in s.tasks && r in s.replies && Single(s.tasks[r]) && Exact(Project(s, r), r)
    ensures LiveCopies(s, r) <= Carriers(s, r) + LeftBehind(s, r)
    ensures |LeftBehind(s, r)| <= RETRY_LIMIT
  {
    assert r != "";
    hide Inv, Single;
    forall id | id in LiveCopies(s, r) ensures id in Carriers(s, r) || id in LeftBehind(s, r) {
      LiveFits(s, r, id);
    }
    LeftDiffer(s, r);
    LeftBehindNotCarrying(s, r);
    forall id | id in LeftBehind(s, r) ensures 0 <= RetryCount(s.copies[id].msg) < RETRY_LIMIT {
      LiveFits(s, r, id);
    }
    hide Exact, Project, LiveCopies, Carriers, InRetryHands;
    DistinctCounts(s, LeftBehind(s, r), RETRY_LIMIT);
  }

  lemma LeftDiffer(s: State, r: string)
    requires r != "" && Exact(Project(s, r), r)
    ensures forall i, j :: i in LeftBehind(s, r) && j in LeftBehind(s, r) && i != j ==>
      RetryCount(s.copies[i].msg) != RetryCount(s.copies[j].msg)
  {
    hide Transcript, Done, Carrier;
    LeftBehindNotCarrying(s, r);
    var p := Project(s, r);
    forall i, j | i in LeftBehind(s, r) && j in LeftBehind(s, r) && i != j
      ensures RetryCount(s.copies[i].msg) != RetryCount(s.copies[j].msg)
    {
      assert p.copies[i] == s.copies[i] && p.copies[j] == s.copies[j] && Live(p.copies[i]) && Live(p.copies[j]);
    }
  }

  /** At most n copies can have different counts below n. */
  lemma {:induction false} DistinctCounts(s: State, ids: set<nat>, n: nat)
    requires forall id :: id in ids ==> id in s.copies && 0 <= RetryCount(s.copies[id].msg) < n
    requires forall i, j :: i in ids && j in ids && i != j ==>
      RetryCount(s.copies[i].msg) != RetryCount(s.copies[j].msg)
    ensures |ids| <= n
  {
    if n == 0 {
      assert ids == {};
    } else if id :| id in ids && RetryCount(s.copies[id].msg) == n - 1 {
      DistinctCounts(s, ids - {id}, n - 1);
    } else {
      DistinctCounts(s, ids, n - 1);
    }
  }

  // ---- answers are final -------------------------------------------------------------------

  /** Tasks and replies are never taken back. */
  lemma StepGrows(s: State, e: Event, r: string)
    requires Inv(s) && Enabled(s, e) && r in s.tasks
    ensures var s' := Apply(s, e);
      r in s'.tasks && s'.tasks[r] == s.tasks[r] && r in s.replies && r in s'.replies && s.replies[r] <= s'.replies[r]
  {
    hide Script, PathOf, Fits, FitsReply, Answered, AddCopies;
    match e
    case Submit(r', t) =>
      AddCopiesFrame(Register(s, r', t), FirstQueue(t), FirstMessage(t.form, r', t.corrId), FirstCopies(t));
    case Exec(id) => ExecState(s, id);
    case _ =>
  }

  lemma {:induction false} RunGrows(s: State, es: seq<Event>, r: string)
    requires Inv(s) && Runs(s, es) && r in s.tasks
    ensures var s' := After(s, es);
      r in s'.tasks && s'.tasks[r] == s.tasks[r] && r in s.replies && r in s'.replies && s.replies[r] <= s'.replies[r]
    decreases |es|
  {
    hide Apply, Enabled;
    if es != [] {
      StepInv(s, es[0]);
      StepGrows(s, es[0], r);
      RunGrows(Apply(s, es[0]), es[1..], r);
    }
    hide Fits, FitsReply, CopyOk, Kept, RepliesOk;
  }

  /** What a client has been told stays what it would be told, whatever happens afterwards, crashes included. */
  lemma AnswerIsFinal(es: seq<Event>, more: seq<Event>, r: string)
    requires Runs(START, es) && Runs(After(START, es), more) &&
             r in After(START, es).tasks && r in After(START, es).replies
    requires Feedback(After(START, es).replies[r], After(START, es).tasks[r].corrId).Some?
    ensures var s, s' := After(START, es), After(After(START, es), more);
      r in s'.tasks && r in s'.replies &&
      Feedback(s'.replies[r], s'.tasks[r].corrId) == Feedback(s.replies[r], s.tasks[r].corrId)
  {
    hide *;
    var s := After(START, es);
    ReachableInv(es);
    RunGrows(s, more, r);
    var old', new' := s.replies[r], After(s, more).replies[r];
    assert new' == old' + new'[|old'|..];
    FeedbackStable(old', new'[|old'|..], s.tasks[r].corrId);
  }
}
