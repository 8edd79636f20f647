/**
 * Tasks do not interfere: seen from one request, the whole system is the system that serves only that request.
 */
module LifecycleIsolation {
  import opened Common
  import opened ShardHash
  import opened Messages
  import opened Gateway
  import opened Lifecycle
  import opened LifecycleSafety

  /** What request r can see of the state: its own copies, its task and its reply queue. */
  ghost function Project(s: State, r: string): State {
    s.(copies := map id | id in s.copies && s.copies[id].msg.replyTo == r :: s.copies[id],
       tasks := map k | k in s.tasks && k == r :: s.tasks[k],
       replies := map k | k in s.replies && k == r :: s.replies[k])
  }

  /** The request an event acts for. */
  function Owner(s: State, e: Event): string
    requires Enabled(s, e)
  {
    match e
    case Submit(r, _) => r
    case Deliver(id, _) => s.copies[id].msg.replyTo
    case Exec(id) => s.copies[id].msg.replyTo
    case Expire(id) => s.copies[id].msg.replyTo
    case Crash(id) => s.copies[id].msg.replyTo
  }

  ghost predicate FreshIds(s: State) {
    forall id :: id in s.copies ==> id < s.nextId
  }

  lemma ProjectAddCopy(s: State, q: Queue, m: Message, r: string)
    requires FreshIds(s)
    ensures Project(AddCopy(s, q, m), r) ==
            if m.replyTo == r then AddCopy(Project(s, r), q, m) else Project(s, r).(nextId := s.nextId + 1)
  {
  }

  lemma {:induction false} ProjectAddCopies(s: State, q: Queue, m: Message, n: nat, r: string)
    requires FreshIds(s)
    ensures FreshIds(AddCopies(s, q, m, n)) && AddCopies(s, q, m, n).nextId == s.nextId + n
    ensures Project(AddCopies(s, q, m, n), r) ==
            if m.replyTo == r then AddCopies(Project(s, r), q, m, n) else Project(s, r).(nextId := s.nextId + n)
  {
    if n > 0 {
      ProjectAddCopies(s, q, m, n - 1, r);
      ProjectAddCopy(AddCopies(s, q, m, n - 1), q, m, r);
    }
  }

  /** Two states that differ only in counters no task can observe. */
  predicate SameTasks(a: State, b: State) {
    a.copies == b.copies && a.tasks == b.tasks && a.replies == b.replies
  }

  /** A request is recorded, before its message is published. */
  function Register(s: State, r: string, t: Task): State {
    s.(tasks := s.tasks[r := t], replies := s.replies[r := []])
  }

  lemma ProjectRegister(s: State, r: string, t: Task, r': string)
    ensures Project(Register(s, r, t), r') == if r' == r then Register(Project(s, r), r, t) else Project(s, r')
  {
  }

  lemma ProjectSubmit(s: State, r: string, t: Task, r': string)
    requires FreshIds(s) && Enabled(s, Submit(r, t))
    ensures var s' := Apply(s, Submit(r, t));
      if r' == r then Enabled(Project(s, r), Submit(r, t)) && Project(s', r) == Apply(Project(s, r), Submit(r, t))
      else SameTasks(Project(s', r'), Project(s, r'))
  {
    FirstCopyFits(t, r);
    hide PathOf, FirstMessage, FirstQueue, FirstCopies, AddCopies;
    ProjectAddCopies(Register(s, r, t), FirstQueue(t), FirstMessage(t.form, r, t.corrId), FirstCopies(t), r');
    ProjectRegister(s, r, t, r');
  }

  /** An operation that speaks for its copy's request changes what that request sees, and nothing else. */
  lemma ProjectOp(s: State, c: Copy, op: Op, r: string)
    requires FreshIds(s) && Sound(s, c, op)
    ensures if c.msg.replyTo == r then Project(Effect(s, c, op), r) == Effect(Project(s, r), c, op)
            else SameTasks(Project(Effect(s, c, op), r), Project(s, r))
  {
    hide Effect, Sound, FreshIds, Project, SameTasks;
    if op.Answer? {
      ProjectAnswer(s, c, op, r);
    } else if op.Republish? || op.Nack? || op.Forward? {
      ProjectSpawn(s, c, op, r);
    } else {
      ProjectCount(s, c, op, r);
    }
  }

  lemma ProjectSpawn(s: State, c: Copy, op: Op, r: string)
    requires FreshIds(s) && Sound(s, c, op) && (op.Republish? || op.Nack? || op.Forward?)
    ensures if c.msg.replyTo == r then Project(Effect(s, c, op), r) == Effect(Project(s, r), c, op)
            else SameTasks(Project(Effect(s, c, op), r), Project(s, r))
  {
    var q := if op.Republish? then c.queue else if op.Nack? then DeadLetterTarget(c.queue) else DeadLetterQueue;
    var m := if op.Nack? then c.msg else op.msg;
    assert Effect(s, c, op) == AddCopy(s, q, m) && Effect(Project(s, r), c, op) == AddCopy(Project(s, r), q, m);
    hide Effect, Project;
    ProjectAddCopy(s, q, m, r);
  }

  /** An operation that only counts. */
  lemma ProjectCount(s: State, c: Copy, op: Op, r: string)
    requires !op.Answer? && !op.Republish? && !op.Nack? && !op.Forward?
    ensures if c.msg.replyTo == r then Project(Effect(s, c, op), r) == Effect(Project(s, r), c, op)
            else SameTasks(Project(Effect(s, c, op), r), Project(s, r))
  {
    var k := Effect(s, c, op).metrics;
    assert Effect(s, c, op) == s.(metrics := k) && Effect(Project(s, r), c, op) == Project(s, r).(metrics := k);
    hide Effect;
  }

  lemma ProjectAnswer(s: State, c: Copy, op: Op, r: string)
    requires op.Answer? && Sound(s, c, op)
    ensures if c.msg.replyTo == r then Project(Effect(s, c, op), r) == Effect(Project(s, r), c, op)
            else SameTasks(Project(Effect(s, c, op), r), Project(s, r))
  {
    var after, before := Project(Effect(s, c, op), r).replies, Project(s, r).replies;
    assert after == if op.to == r then before[r := before[r] + [op.reply]] else before;
  }

  lemma ProjectEffect(s: State, id: nat, r: string)
    requires Inv(s) && Enabled(s, Exec(id))
    ensures var c := s.copies[id];
      var op := ScriptOf(c)[c.place.pc];
      if c.msg.replyTo == r then Project(Effect(s, c, op), r) == Effect(Project(s, r), c, op)
      else SameTasks(Project(Effect(s, c, op), r), Project(s, r))
  {
    OpSound(s, id);
    assert FreshIds(s);
    hide *;
    ProjectOp(s, s.copies[id], ScriptOf(s.copies[id])[s.copies[id].place.pc], r);
  }

  lemma ProjectAdvance(s: State, id: nat, r: string)
    requires id in s.copies && s.copies[id].place.Held?
    ensures if s.copies[id].msg.replyTo == r then Project(Advance(s, id), r) == Advance(Project(s, r), id)
            else Project(Advance(s, id), r) == Project(s, r)
  {
    hide Script;
    ProjectReplace(s, Advance(s, id), id, r);
  }

  /**
   * A request sees exactly the steps taken for it, as if it were alone, and nothing of any other step:
   * the system is the product of its tasks, whatever correlation IDs they chose.
   */
  lemma StepIsolated(s: State, e: Event, r: string)
    requires Inv(s) && Enabled(s, e)
    ensures if Owner(s, e) == r then Enabled(Project(s, r), e) && Project(Apply(s, e), r) == Apply(Project(s, r), e)
            else SameTasks(Project(Apply(s, e), r), Project(s, r))
  {
    hide PathOf, Fits, FitsReply, Answered, Script, CopyOk, FirstMessage, FirstQueue, AddCopies;
    match e {
      case Submit(r0, t) => ProjectSubmit(s, r0, t, r);
      case Exec(id) =>
        var c := s.copies[id];
        var op := ScriptOf(c)[c.place.pc];
        ProjectEffect(s, id, r);
        ProjectAdvance(Effect(s, c, op), id, r);
      case Deliver(id, _) => ProjectReplace(s, Apply(s, e), id, r);
      case Expire(id) => ProjectReplace(s, Apply(s, e), id, r);
      case Crash(id) => ProjectReplace(s, Apply(s, e), id, r);
    }
  }

  /** One copy changes place, or is gone. */
  lemma ProjectReplace(s: State, s': State, id: nat, r: string)
    requires id in s.copies && s' == s.(copies := s'.copies)
    requires s'.copies == s.copies - {id} ||
             (id in s'.copies && s'.copies == s.copies[id := s'.copies[id]] && s'.copies[id].msg == s.copies[id].msg)
    ensures if s.copies[id].msg.replyTo != r then Project(s', r) == Project(s, r)
            else if id in s'.copies then
              Project(s', r) == Project(s, r).(copies := Project(s, r).copies[id := s'.copies[id]])
            else Project(s', r) == Project(s, r).(copies := Project(s, r).copies - {id})
  {
  }
}
