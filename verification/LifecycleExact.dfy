/**
 * What holds for every task none of whose own handlers dies, whatever happens to the others: it has at most one
 * carrier, its reply queue holds exactly the transcript its carrier's position calls for, and its copies are
 * neither lost nor silently duplicated.
 */
module LifecycleExact {
  import opened Common
  import opened ShardHash
  import opened Messages
  import opened Gateway
  import opened Lifecycle
  import opened LifecycleSafety
  import opened LifecycleIsolation

  /** A state in which only request r has anything: what Project yields. */
  ghost predicate Solo(p: State, r: string) {
    && Inv(p)
    && r in p.tasks && r in p.replies
    && (forall id :: id in p.copies ==> p.copies[id].msg.replyTo == r)
  }

  lemma ProjectSolo(s: State, r: string)
    requires Inv(s) && r in s.tasks
    ensures Solo(Project(s, r), r)
  {
    hide PathOf, Fits, FitsReply, Answered, Script;
    var p := Project(s, r);
    forall id | id in p.copies ensures CopyOk(p, p.copies[id]) {
      assert CopyOk(s, s.copies[id]);
    }
    if !Routed(s.tasks[r]) && !Answered(s.replies[r]) {
      var id :| Carries(s, r, id);
      assert Carries(p, r, id);
    }
  }

  function Moved(c: Copy): Copy {
    if c.place.Held? then c.(place := Held(c.place.choice, c.place.pc + 1)) else c
  }

  /** The effect of one operation on copies and replies, spelled out. */
  lemma ExecState(s: State, id: nat)
    requires Inv(s) && Enabled(s, Exec(id))
    ensures var c := s.copies[id];
      var op := ScriptOf(c)[c.place.pc];
      var s' := Apply(s, Exec(id));
      && s'.tasks == s.tasks
      && (!op.Answer? ==> s'.replies == s.replies)
      && (op.Answer? ==> s'.replies == s.replies[c.msg.replyTo := s.replies[c.msg.replyTo] + [op.reply]])
      && (op.Republish? ==> s'.copies == s.copies[s.nextId := Copy(c.queue, op.msg, Ready)][id := Moved(c)])
      && (op.Nack? ==> s'.copies == s.copies[s.nextId := Copy(DeadLetterTarget(c.queue), c.msg, Ready)] - {id})
      && (op.Forward? ==> s'.copies == s.copies[s.nextId := Copy(DeadLetterQueue, op.msg, Ready)] - {id})
      && (!op.Republish? && !op.Nack? && !op.Forward? ==>
            s'.copies == if c.place.pc + 1 < |ScriptOf(c)| then s.copies[id := Moved(c)] else s.copies - {id})
  {
    hide Script, Inv;
    OpSound(s, id);
  }

  lemma SoloFacts(p: State, r: string, id: nat)
    requires Solo(p, r) && id in p.copies
    ensures FreshIds(p) && r != "" && Fits(p.tasks[r], p.copies[id]) && p.copies[id].msg.replyTo == r
    ensures p.copies[id].place.Held? ==> p.copies[id].place.pc < |ScriptOf(p.copies[id])|
  {
  }

  // ---- transcripts -------------------------------------------------------------------

  /** retry(1), ..., retry(n). */
  function Interim(corrId: string, n: int): seq<Reply> {
    if n <= 0 then [] else Interim(corrId, n - 1) + [Reply(corrId, Retrying, n)]
  }

  function Final(corrId: string, status: Status): seq<Reply> {
    [Reply(corrId, status, 0)]
  }

  /** Tasks of which the broker gets one copy: all but those an exchange routes to its queues. */
  predicate Single(t: Task) {
    !Routed(t)
  }

  /** The completed transcripts of a single-copy task. */
  predicate Done(t: Task, reps: seq<Reply>) {
    match PathOf(t.form)
    case RetryPath(_) =>
      || reps == Interim(t.corrId, RETRY_LIMIT) + Final(t.corrId, DeadLettered)
      || (exists k {:trigger Interim(t.corrId, k)} ::
            0 <= k <= RETRY_LIMIT && reps == Interim(t.corrId, k) + Final(t.corrId, Succeeded))
    case ShardPath(_) => reps == Final(t.corrId, Succeeded)
    case _ => reps == Final(t.corrId, DeadLettered) + Final(t.corrId, DeadLettered)
  }

  /** The replies so far, given where the carrier of a single-copy task is. */
  predicate Transcript(t: Task, c: Copy, reps: seq<Reply>) {
    var n := RetryCount(c.msg);
    var answered := c.place.Held? && c.place.pc > AnswerAt(c);
    var dead := Final(t.corrId, DeadLettered);
    match PathOf(t.form)
    case RetryPath(_) =>
      if c.queue.RetryQueue? then
        if !answered then reps == Interim(t.corrId, n)
        else if n < RETRY_LIMIT then reps == Interim(t.corrId, n + 1)
        else reps == Interim(t.corrId, n) + dead
      else
        // moved to the shard by the TTL, or by the nack after a refused republish
        var tail := if answered then Final(t.corrId, Succeeded) else [];
        reps == Interim(t.corrId, n) + tail || (n < RETRY_LIMIT && reps == Interim(t.corrId, n + 1) + tail)
    case ShardPath(_) => reps == if answered then Final(t.corrId, Succeeded) else []
    case _ =>
      // the resilient worker or the return handler answers, and then the dead-letter consumer once more
      if c.queue.DeadLetterQueue? then reps == dead + if answered then dead else []
      else reps == if answered then dead else []
  }

  /** Live copies have different counts, and the carrier has the highest. */
  ghost predicate Apart(p: State) {
    && (forall i, j :: i in p.copies && j in p.copies && i != j && Live(p.copies[i]) && Live(p.copies[j]) ==>
          RetryCount(p.copies[i].msg) != RetryCount(p.copies[j].msg))
    && (forall i, j :: i in p.copies && j in p.copies && i != j && Live(p.copies[i]) && Carrier(p.copies[j]) ==>
          RetryCount(p.copies[i].msg) < RetryCount(p.copies[j].msg))
  }

  ghost predicate Exact(p: State, r: string) {
    && r in p.tasks && r in p.replies
    && Apart(p)
    && (forall j :: j in p.copies && Carrier(p.copies[j]) ==> Transcript(p.tasks[r], p.copies[j], p.replies[r]))
    && ((forall j :: j in p.copies ==> !Carrier(p.copies[j])) ==> Done(p.tasks[r], p.replies[r]))
  }

  /** The carrier changes place, and possibly the transcript grows with it. */
  lemma ExactMove(p: State, p': State, r: string, id: nat, c: Copy)
    requires Exact(p, r) && id in p.copies
    requires c.msg == p.copies[id].msg && Carrier(c) && Live(c) && Carrier(p.copies[id]) && Live(p.copies[id])
    requires p'.tasks == p.tasks && p'.copies == p.copies[id := c] && r in p'.replies
    requires Transcript(p.tasks[r], c, p'.replies[r])
    ensures Exact(p', r)
  {
    hide Script, Transcript, Done;
    assert Carrier(p'.copies[id]);
    forall j | j in p'.copies && Carrier(p'.copies[j]) ensures j == id {
      CarrierIsLive(p'.copies[j]);
    }
  }

  /** A copy that is not the carrier changes without becoming live, or is gone. */
  lemma ExactDrop(p: State, p': State, r: string, id: nat)
    requires Exact(p, r) && id in p.copies
    requires p'.tasks == p.tasks && p'.replies == p.replies
    requires p'.copies == p.copies - {id} ||
             (id in p'.copies && p'.copies == p.copies[id := p'.copies[id]] && !Live(p'.copies[id]))
    requires Carrier(p.copies[id]) ==> Done(p.tasks[r], p.replies[r])
    ensures Exact(p', r)
  {
    hide Transcript, Done, Carrier, Live, Apart;
    if id in p'.copies && Carrier(p'.copies[id]) {
      CarrierIsLive(p'.copies[id]);
    }
    DropApart(p, p', id);
    if forall j :: j in p'.copies ==> !Carrier(p'.copies[j]) {
      if !Carrier(p.copies[id]) {
        assert forall j :: j in p.copies && j != id ==> p'.copies[j] == p.copies[j];
      }
    }
  }

  lemma DropApart(p: State, p': State, id: nat)
    requires Apart(p) && id in p.copies
    requires forall j :: j in p'.copies && j != id ==> j in p.copies && p'.copies[j] == p.copies[j]
    requires id in p'.copies ==> !Live(p'.copies[id]) && !Carrier(p'.copies[id])
    ensures Apart(p')
  {
    hide Carrier, Live, RetryCount;
  }

  /** The carrier hands over to a new copy with the next count and stays behind, unsettled. */
  lemma ExactHandOver(p: State, p': State, r: string, id: nat, c: Copy, old': Copy)
    requires Exact(p, r) && FreshIds(p) && id in p.copies && Carrier(p.copies[id]) && Live(p.copies[id])
    requires Carrier(c) && !Carrier(old') && Transcript(p.tasks[r], c, p.replies[r])
    requires old'.msg == p.copies[id].msg && RetryCount(c.msg) == RetryCount(old'.msg) + 1
    requires p'.tasks == p.tasks && p'.replies == p.replies && p'.copies == p.copies[p.nextId := c][id := old']
    ensures Exact(p', r)
  {
    hide Transcript, Done, Live;
    OnlyCarrier(p, id);
    HandOverApart(p, p', id, c, old');
    hide Carrier, Apart;
    assert p'.copies[p.nextId] == c;
  }

  lemma OnlyCarrier(p: State, id: nat)
    requires Apart(p) && id in p.copies && Carrier(p.copies[id])
    ensures forall j :: j in p.copies && Carrier(p.copies[j]) ==> j == id
  {
    hide Carrier, Live;
    forall j | j in p.copies && Carrier(p.copies[j]) ensures j == id {
      CarrierIsLive(p.copies[j]);
      CarrierIsLive(p.copies[id]);
    }
  }

  lemma HandOverApart(p: State, p': State, id: nat, c: Copy, old': Copy)
    requires Apart(p) && FreshIds(p) && id in p.copies && Carrier(p.copies[id]) && Live(p.copies[id]) && !Carrier(old')
    requires old'.msg == p.copies[id].msg && RetryCount(c.msg) == RetryCount(old'.msg) + 1
    requires p'.copies == p.copies[p.nextId := c][id := old']
    ensures Apart(p')
  {
    hide Carrier, Live, RetryCount;
    OnlyCarrier(p, id);
    forall i | i in p'.copies && i != id && i != p.nextId
      ensures p'.copies[i] == p.copies[i] && !Carrier(p.copies[i])
    {}
  }

  /** The carrier is replaced by a new copy with the same count. */
  lemma ExactPassOn(p: State, p': State, r: string, id: nat, c: Copy)
    requires Exact(p, r) && FreshIds(p) && id in p.copies && Carrier(p.copies[id]) && Live(p.copies[id])
    requires Carrier(c) && Transcript(p.tasks[r], c, p.replies[r])
    requires RetryCount(c.msg) == RetryCount(p.copies[id].msg)
    requires p'.tasks == p.tasks && p'.replies == p.replies && p'.copies == p.copies[p.nextId := c] - {id}
    ensures Exact(p', r)
  {
    hide Script, Transcript, Done, SettleAt, HandoverAt;
    assert p'.copies[p.nextId] == c;
    forall j | j in p'.copies && Carrier(p'.copies[j]) ensures j == p.nextId {
      if j != p.nextId { CarrierIsLive(p.copies[j]); }
    }
  }

  lemma ExactDeliver(p: State, r: string, id: nat, choice: Choice)
    requires Solo(p, r) && Single(p.tasks[r]) && Exact(p, r) && Enabled(p, Deliver(id, choice))
    ensures Exact(Apply(p, Deliver(id, choice)), r)
  {
    hide Script, PathOf, Fits, FitsReply, Answered, Done, Interim;
    var c := p.copies[id];
    assert Transcript(p.tasks[r], c, p.replies[r]);
    ScriptNonempty(c.(place := Held(choice, 0)));
    ExactMove(p, Apply(p, Deliver(id, choice)), r, id, c.(place := Held(choice, 0)));
  }

  lemma ExactExpire(p: State, r: string, id: nat)
    requires Solo(p, r) && Single(p.tasks[r]) && Exact(p, r) && Enabled(p, Expire(id))
    ensures Exact(Apply(p, Expire(id)), r)
  {
    hide Script, PathOf, Fits, FitsReply, Answered, Done;
    var c := p.copies[id];
    assert Transcript(p.tasks[r], c, p.replies[r]);
    ExactMove(p, Apply(p, Expire(id)), r, id, c.(queue := DeadLetterTarget(c.queue)));
  }

  lemma ExactExec(p: State, r: string, id: nat)
    requires Solo(p, r) && Single(p.tasks[r]) && Exact(p, r) && Enabled(p, Exec(id))
    ensures Exact(Apply(p, Exec(id)), r)
  {
    hide Script, PathOf, Inv, Exact, Transcript, Done, Effect, Advance;
    var c := p.copies[id];
    var op := ScriptOf(c)[c.place.pc];
    var p' := Apply(p, Exec(id));
    ExecState(p, id);
    SoloFacts(p, r, id);
    ScriptShape(c, c.place.pc);
    if Carrier(c) { TranscriptAdvances(p, r, id); }
    hide Fits, Apply;
    if op.Answer? {
      ExactMove(p, p', r, id, Moved(c));
    } else if op.Republish? {
      ExactHandOver(p, p', r, id, Copy(c.queue, op.msg, Ready), Moved(c));
    } else if op.Nack? {
      ExactPassOn(p, p', r, id, Copy(DeadLetterTarget(c.queue), c.msg, Ready));
    } else if op.Forward? {
      ExactPassOn(p, p', r, id, Copy(DeadLetterQueue, op.msg, Ready));
    } else if c.place.pc < SettleAt(c) {
      ExactMove(p, p', r, id, Moved(c));
    } else {
      ExactDrop(p, p', r, id);
    }
  }

  /** The transcript the carrier of a task has after its next operation, for each kind of operation. */
  ghost predicate Advances(t: Task, c: Copy, reps: seq<Reply>)
    requires c.place.Held? && c.place.pc < |ScriptOf(c)|
  {
    var op := ScriptOf(c)[c.place.pc];
    match op
    case Answer(_, reply) => Transcript(t, Moved(c), reps + [reply])
    case Republish(m) => Transcript(t, Copy(c.queue, m, Ready), reps)
    case Nack => Transcript(t, Copy(DeadLetterTarget(c.queue), c.msg, Ready), reps)
    case Forward(m) => Transcript(t, Copy(DeadLetterQueue, m, Ready), reps) && RetryCount(m) == RetryCount(c.msg)
    case Ack => Done(t, reps)
    case _ => c.place.pc < SettleAt(c) ==> Transcript(t, Moved(c), reps)
  }

  lemma RetryAdvances(t: Task, c: Copy, reps: seq<Reply>)
    requires PathOf(t.form).RetryPath? && Fits(t, c) && c.msg.replyTo != "" && c.place.Held? && Carrier(c)
    requires c.place.pc < |ScriptOf(c)| && Transcript(t, c, reps)
    ensures Advances(t, c, reps)
  {
    hide Script, PathOf, Advances, Carrier, Transcript;
    if c.queue.RetryQueue? { AdvancesAtRetry(t, c, reps); } else { AdvancesAtShard(t, c, reps); }
  }

  lemma AdvancesAtRetry(t: Task, c: Copy, reps: seq<Reply>)
    requires PathOf(t.form).RetryPath? && Fits(t, c) && c.msg.replyTo != "" && c.place.Held? && Carrier(c)
    requires c.queue.RetryQueue? && c.place.pc < |ScriptOf(c)| && Transcript(t, c, reps)
    ensures Advances(t, c, reps)
  {
    ScriptShape(c, c.place.pc);
    hide Script, PathOf, Final;
    assert Interim(t.corrId, RetryCount(c.msg) + 1) ==
           Interim(t.corrId, RetryCount(c.msg)) + [Reply(t.corrId, Retrying, RetryCount(c.msg) + 1)];
    hide Interim;
    assert Final(t.corrId, DeadLettered) == [Reply(t.corrId, DeadLettered, 0)] by { FinalIs(t.corrId, DeadLettered); }
  }

  lemma FinalIs(corrId: string, status: Status)
    ensures Final(corrId, status) == [Reply(corrId, status, 0)]
  {
  }

  lemma AdvancesAtShard(t: Task, c: Copy, reps: seq<Reply>)
    requires PathOf(t.form).RetryPath? && Fits(t, c) && c.msg.replyTo != "" && c.place.Held? && Carrier(c)
    requires c.queue.ShardQueue? && c.place.pc < |ScriptOf(c)| && Transcript(t, c, reps)
    ensures Advances(t, c, reps)
  {
    hide Script, PathOf, Interim;
    ScriptShape(c, c.place.pc);
  }

  lemma OtherAdvances(t: Task, c: Copy, reps: seq<Reply>)
    requires !PathOf(t.form).RetryPath? && Single(t) && Fits(t, c) && c.msg.replyTo != "" && c.place.Held? && Carrier(c)
    requires c.place.pc < |ScriptOf(c)| && Transcript(t, c, reps)
    ensures Advances(t, c, reps)
  {
    hide Script, PathOf, Interim;
    ScriptShape(c, c.place.pc);
  }

  lemma TranscriptAdvances(p: State, r: string, id: nat)
    requires Solo(p, r) && Single(p.tasks[r]) && Exact(p, r)
    requires id in p.copies && p.copies[id].place.Held? && Carrier(p.copies[id])
    ensures p.copies[id].place.pc < |ScriptOf(p.copies[id])| && Advances(p.tasks[r], p.copies[id], p.replies[r])
  {
    SoloFacts(p, r, id);
    hide Script, PathOf, Inv, Fits, Transcript, Advances, Done;
    if PathOf(p.tasks[r].form).RetryPath? {
      RetryAdvances(p.tasks[r], p.copies[id], p.replies[r]);
    } else {
      OtherAdvances(p.tasks[r], p.copies[id], p.replies[r]);
    }
  }

  // ---- tasks an exchange routes to several queues --------------------------------------

  ghost function Unanswered(p: State): set<nat> {
    set id | id in p.copies && !(p.copies[id].place.Held? && p.copies[id].place.pc > 0)
  }

  /** Each of the routed copies is answered exactly once, unless it is one of those lost with their queues. */
  ghost predicate Counted(p: State, r: string, lost: nat) {
    && r in p.tasks && r in p.replies
    && |Unanswered(p)| + |p.replies[r]| + lost == p.tasks[r].routes
    && |p.copies| <= p.tasks[r].routes
  }

  lemma CountedDeliver(p: State, r: string, id: nat, choice: Choice, lost: nat)
    requires Solo(p, r) && !Single(p.tasks[r]) && Counted(p, r, lost) && Enabled(p, Deliver(id, choice))
    ensures Counted(Apply(p, Deliver(id, choice)), r, lost)
  {
    hide Script, PathOf, Inv;
    var p' := Apply(p, Deliver(id, choice));
    assert Unanswered(p') == Unanswered(p);
    assert p'.copies.Keys == p.copies.Keys;
  }

  /** The consumer of an exchange answers first, and hands nothing on. */
  lemma ConsumerStep(t: Task, c: Copy)
    requires Routed(t) && Fits(t, c) && c.msg.replyTo != "" && c.place.Held? && c.place.pc < |ScriptOf(c)|
    ensures var op := ScriptOf(c)[c.place.pc];
      && (op.Answer? <==> c.place.pc == 0)
      && (op.Answer? ==> op.to == c.msg.replyTo && c.place.pc + 1 < |ScriptOf(c)|)
      && !op.Republish? && !op.Nack? && !op.Forward?
  {
    hide Script, PathOf;
    ScriptShape(c, c.place.pc);
  }

  lemma CountedExec(p: State, r: string, id: nat, lost: nat)
    requires Solo(p, r) && !Single(p.tasks[r]) && Counted(p, r, lost) && Enabled(p, Exec(id))
    ensures Counted(Apply(p, Exec(id)), r, lost)
  {
    hide Script, PathOf, Inv, Effect, Advance;
    var c := p.copies[id];
    var op := ScriptOf(c)[c.place.pc];
    var p' := Apply(p, Exec(id));
    ExecState(p, id);
    SoloFacts(p, r, id);
    ConsumerStep(p.tasks[r], c);
    hide Apply, Fits, Unanswered;
    UnansweredMoves(p, p', id);
  }

  lemma UnansweredMoves(p: State, p': State, id: nat)
    requires id in p.copies && p.copies[id].place.Held?
    requires p'.copies == p.copies[id := Moved(p.copies[id])] ||
             (p.copies[id].place.pc > 0 && p'.copies == p.copies - {id})
    ensures |Unanswered(p')| == |Unanswered(p)| - if p.copies[id].place.pc == 0 then 1 else 0
    ensures |p'.copies| <= |p.copies|
  {
    assert p'.copies.Keys == p.copies.Keys || p'.copies.Keys == p.copies.Keys - {id};
    if p.copies[id].place.pc == 0 {
      assert Unanswered(p') == Unanswered(p) - {id};
    } else {
      assert Unanswered(p') == Unanswered(p);
    }
  }

  // ---- every unharmed task of every run ------------------------------------------------

  ghost predicate TaskExact(p: State, r: string) {
    r in p.tasks && if Single(p.tasks[r]) then Exact(p, r) else Counted(p, r, 0)
  }

  lemma {:induction false} FreshCounted(p: State, q: Queue, m: Message, n: nat)
    requires p.copies == map[]
    ensures |Unanswered(AddCopies(p, q, m, n))| == n && |AddCopies(p, q, m, n).copies| == n
    ensures FreshIds(AddCopies(p, q, m, n))
  {
    if n > 0 {
      FreshCounted(p, q, m, n - 1);
      OneMoreUnanswered(AddCopies(p, q, m, n - 1), q, m);
    }
  }

  lemma OneMoreUnanswered(a: State, q: Queue, m: Message)
    requires FreshIds(a)
    ensures var b := AddCopy(a, q, m);
      FreshIds(b) && |Unanswered(b)| == |Unanswered(a)| + 1 && |b.copies| == |a.copies| + 1
  {
    assert Unanswered(AddCopy(a, q, m)) == Unanswered(a) + {a.nextId};
  }

  lemma SubmitExact(p: State, r: string, t: Task)
    requires p.copies == map[] && Enabled(p, Submit(r, t))
    ensures TaskExact(Apply(p, Submit(r, t)), r)
  {
    hide PickShard, Script;
    var p0 := Register(p, r, t);
    var q, m := FirstQueue(t), FirstMessage(t.form, r, t.corrId);
    if Single(t) {
      assert AddCopies(p0, q, m, 1) == AddCopy(AddCopies(p0, q, m, 0), q, m) == AddCopy(p0, q, m);
      assert FirstCopies(t) == 1;
      var c := Copy(q, m, Ready);
      assert Apply(p, Submit(r, t)).copies == map[p.nextId := c];
      assert Carrier(c) && Apply(p, Submit(r, t)).copies[p.nextId] == c;
      assert Transcript(t, c, []);
    } else {
      FreshCounted(p0, q, m, FirstCopies(t));
      AddCopiesFrame(p0, q, m, FirstCopies(t));
    }
  }

  lemma {:induction false} AddCopiesFrame(s: State, q: Queue, m: Message, n: nat)
    ensures AddCopies(s, q, m, n).tasks == s.tasks && AddCopies(s, q, m, n).replies == s.replies
    ensures AddCopies(s, q, m, n).metrics == s.metrics
  {
    if n > 0 { AddCopiesFrame(s, q, m, n - 1); }
  }

  /** A step of the one request that has anything. */
  lemma SoloStep(p: State, r: string, e: Event)
    requires Solo(p, r) && TaskExact(p, r) && Enabled(p, e) && !e.Submit? && !e.Crash?
    ensures TaskExact(Apply(p, e), r)
  {
    match e
    case Deliver(id, choice) =>
      if Single(p.tasks[r]) { ExactDeliver(p, r, id, choice); } else { CountedDeliver(p, r, id, choice, 0); }
    case Exec(id) =>
      ExecState(p, id);
      if Single(p.tasks[r]) { ExactExec(p, r, id); } else { CountedExec(p, r, id, 0); }
    case Expire(id) =>
      SoloFacts(p, r, id);
      ExactExpire(p, r, id);
  }

  /** The exact view of r survives every event but a crash of one of r's own handlers. */
  lemma StepExact(s: State, e: Event, r: string)
    requires Inv(s) && Enabled(s, e) && (r in s.tasks ==> TaskExact(Project(s, r), r))
    requires e.Crash? ==> Owner(s, e) != r
    ensures r in Apply(s, e).tasks ==> TaskExact(Project(Apply(s, e), r), r)
  {
    hide TaskExact, Project, Inv, Script, PathOf, Effect, Advance;
    if r in Apply(s, e).tasks {
      StepIsolated(s, e, r);
      TasksGrow(s, e);
      if Owner(s, e) != r {
        SameTasksExact(Project(s, r), Project(Apply(s, e), r), r);
      } else if e.Submit? {
        NothingBefore(s, r);
        SubmitExact(Project(s, r), r, e.task);
      } else {
        ProjectSolo(s, r);
        SoloStep(Project(s, r), r, e);
      }
    }
  }

  lemma NothingBefore(s: State, r: string)
    requires Inv(s) && r !in s.tasks
    ensures Project(s, r).copies == map[]
  {
  }

  lemma TasksGrow(s: State, e: Event)
    requires Inv(s) && Enabled(s, e)
    ensures forall r :: r in Apply(s, e).tasks ==> r in s.tasks || (e.Submit? && r == e.replyTo)
    ensures !e.Submit? ==> Apply(s, e).tasks == s.tasks
  {
    hide PathOf, Fits, FitsReply, Answered, Script, AddCopies;
    match e
    case Submit(r, t) =>
      AddCopiesFrame(Register(s, r, t), FirstQueue(t), FirstMessage(t.form, r, t.corrId), FirstCopies(t));
    case Exec(id) => ExecState(s, id);
    case _ =>
  }

  lemma SameTasksExact(p: State, p': State, r: string)
    requires SameTasks(p, p') && TaskExact(p, r)
    ensures TaskExact(p', r)
  {
  }

  /** No handler dies while it holds a delivery of request r; others may. */
  ghost predicate Unharmed(s: State, es: seq<Event>, r: string)
    requires Runs(s, es)
    decreases |es|
  {
    es == [] || ((es[0].Crash? ==> Owner(s, es[0]) != r) && Unharmed(Apply(s, es[0]), es[1..], r))
  }

  lemma {:induction false} RunExact(s: State, es: seq<Event>, r: string)
    requires Inv(s) && (r in s.tasks ==> TaskExact(Project(s, r), r)) && Runs(s, es) && Unharmed(s, es, r)
    ensures r in After(s, es).tasks ==> TaskExact(Project(After(s, es), r), r)
    decreases |es|
  {
    hide Inv, TaskExact, Apply, Enabled;
    if es != [] {
      StepInv(s, es[0]);
      StepExact(s, es[0], r);
      RunExact(Apply(s, es[0]), es[1..], r);
    }
  }

  lemma {:induction false} CrashFreeUnharmed(s: State, es: seq<Event>, r: string)
    requires Runs(s, es) && CrashFree(es)
    ensures Unharmed(s, es, r)
    decreases |es|
  {
    hide Apply, Enabled;
    if es != [] {
      assert forall i :: 0 <= i < |es[1..]| ==> es[1..][i] == es[i + 1];
      CrashFreeUnharmed(Apply(s, es[0]), es[1..], r);
    }
  }
}
