/** quorum_recovery/handler.go: the poll loop, its detection passes, and what it does to a dead node. */
module QuorumRecovery {
  import opened Common

  // ---- node names --------------------------------------------------------------------------

  /** strings.Split on one character: always at least one part. */
  function Split(s: string, sep: char): (parts: seq<string>)
    ensures |parts| >= 1
  {
    if s == "" then [""]
    else
      var n := |s| - 1;
      var front := Split(s[..n], sep);
      if s[n] == sep then front + [""] else front[|front| - 1 := front[|front| - 1] + [s[n]]]
  }

  /** The container of "rabbit@container"; empty unless the name has exactly one '@'. */
  function ExtractContainer(node: string): string {
    var parts := Split(node, '@');
    if |parts| == 2 then parts[1] else ""
  }

  lemma {:induction false} SplitNone(s: string, sep: char)
    requires sep !in s
    ensures Split(s, sep) == [s]
  {
    if s != "" {
      SplitNone(s[..|s| - 1], sep);
      assert s == s[..|s| - 1] + [s[|s| - 1]];
    }
  }

  /** Splitting after one more separator. */
  lemma {:induction false} SplitAfter(a: string, b: string, sep: char)
    requires sep !in b
    ensures Split(a + [sep] + b, sep) == Split(a, sep) + [b]
  {
    var s := a + [sep] + b;
    if b == "" {
      assert s[..|s| - 1] == a;
    } else {
      var b' := b[..|b| - 1];
      SplitAfter(a, b', sep);
      assert s[..|s| - 1] == a + [sep] + b';
      assert b == b' + [b[|b| - 1]];
    }
  }

  /** A container is extracted exactly from names with a single '@': it is what follows. */
  lemma ExtractExact(host: string, container: string)
    requires '@' !in container
    ensures '@' !in host ==> ExtractContainer(host + "@" + container) == container
    ensures '@' in host ==> ExtractContainer(host + "@" + container) == ""
    ensures ExtractContainer(container) == ""
  {
    SplitNone(container, '@');
    SplitAfter(host, container, '@');
    assert host + "@" + container == host + ['@'] + container;
    if '@' !in host {
      SplitNone(host, '@');
    } else {
      SplitMany(host, '@');
    }
  }

  lemma {:induction false} SplitMany(s: string, sep: char)
    requires sep in s
    ensures |Split(s, sep)| >= 2
  {
    var n := |s| - 1;
    if s[n] != sep {
      assert s == s[..n] + [s[n]];
      SplitMany(s[..n], sep);
    }
  }

  // ---- one recovery ------------------------------------------------------------------------

  /** What the monitor does to the cluster, in order. */
  datatype Effect =
    | Stopped(container: string)
    | ForgetTried(node: string, attempt: int, ok: bool)
    | Slept(ms: int)
    | ContainerRemoved(container: string)
    | VolumeRemoved(volume: string)
    | Spawned(dead: string, replacement: string)

  /**
   * How the cluster answers: whether the given attempt to forget a node succeeds, the random part of the sleep
   * after it, and the name drawn for its replacement. A node is recovered at most once, so nothing more is needed.
   */
  datatype Cluster =
    Cluster(forgets: (string, int) -> bool, jitter: (string, int) -> int, replacement: string -> string)

  const MAX_RETRIES := 5

  /** The back-off loop from try i on; the last of m tries is not followed by a sleep. */
  function BackoffLog(node: string, env: Cluster, m: int, i: int, backoff: int): seq<Effect>
    decreases m - i
  {
    if env.forgets(node, i) || i >= m then [ForgetTried(node, i, env.forgets(node, i))]
    else [ForgetTried(node, i, false), Slept(backoff + env.jitter(node, i))] +
         BackoffLog(node, env, m, i + 1, 2 * backoff)
  }

  /** The try the loop ends with: the first that succeeds, or the last. */
  function LastTry(node: string, env: Cluster, m: int, i: int): int
    decreases m - i
  {
    if env.forgets(node, i) || i >= m then i else LastTry(node, env, m, i + 1)
  }

  /** Whether a recovery of node ends with the node forgotten by the cluster. */
  predicate Forgets(node: string, env: Cluster) {
    env.forgets(node, if ExtractContainer(node) == "" then 1 else LastTry(node, env, MAX_RETRIES, 1))
  }

  /** Everything one recovery does: the three exits of triggerRecovery. */
  function RecoveryLog(node: string, env: Cluster): seq<Effect> {
    var container := ExtractContainer(node);
    var spawn := [Spawned(node, env.replacement(node))];
    if container == "" then [ForgetTried(node, 1, env.forgets(node, 1))] + spawn
    else
      [Stopped(container)] + BackoffLog(node, env, MAX_RETRIES, 1, 1000) +
      (if Forgets(node, env) then [ContainerRemoved(container), VolumeRemoved(container + "-data")] else []) + spawn
  }

  // ---- the monitor's books ------------------------------------------------------------------

  datatype Book = Book(forgotten: set<string>, recoveries: nat, failures: nat, durations: nat, log: seq<Effect>)

  const EMPTY_BOOK := Book({}, 0, 0, 0, [])

  /** One call of triggerRecovery that does not panic. */
  function Trigger(b: Book, node: string, env: Cluster): Book {
    if node == "" || node in b.forgotten then b.(recoveries := b.recoveries + 1, durations := b.durations + 1)
    else
      Book(b.forgotten + {node}, b.recoveries + 1, b.failures + (if Forgets(node, env) then 0 else 1),
           b.durations + 1, b.log + RecoveryLog(node, env))
  }

  function TriggerAll(b: Book, nodes: seq<string>, env: Cluster): Book {
    if nodes == [] then b else Trigger(TriggerAll(b, nodes[..|nodes| - 1], env), nodes[|nodes| - 1], env)
  }

  // ---- one poll ----------------------------------------------------------------------------

  datatype Node = Node(name: string, running: bool)

  datatype ClusterQueue = ClusterQueue(name: string, kind: string, leader: string, members: seq<string>)

  predicate HasPrefix(s: string, prefix: string) {
    prefix <= s
  }

  /** The expected nodes: one per running container whose first name starts with /rabbit. */
  function Expected(containers: seq<string>): seq<string> {
    if containers == [] then []
    else
      var n := |containers| - 1;
      Expected(containers[..n]) +
      if HasPrefix(containers[n], "/rabbit") then ["rabbit@" + containers[n][1..]] else []
  }

  /** The liveness map after reading the reports in order. */
  function LiveMap(nodes: seq<Node>): map<string, bool> {
    if nodes == [] then map[] else LiveMap(nodes[..|nodes| - 1])[nodes[|nodes| - 1].name := nodes[|nodes| - 1].running]
  }

  predicate IsLive(live: map<string, bool>, name: string) {
    name in live && live[name]
  }

  function Down(nodes: seq<Node>): seq<string> {
    if nodes == [] then []
    else Down(nodes[..|nodes| - 1]) + if nodes[|nodes| - 1].running then [] else [nodes[|nodes| - 1].name]
  }

  /** The names that are not live, in order. */
  function Dead(names: seq<string>, live: map<string, bool>): seq<string> {
    if names == [] then []
    else Dead(names[..|names| - 1], live) + if IsLive(live, names[|names| - 1]) then [] else [names[|names| - 1]]
  }

  /** The recovery nodes that were expected before and are not any more. */
  function Vanished(previous: seq<string>, current: seq<string>): seq<string> {
    if previous == [] then []
    else
      var old' := previous[|previous| - 1];
      Vanished(previous[..|previous| - 1], current) +
      if old' !in current && HasPrefix(old', "rabbit@rabbit-recover") then [old'] else []
  }

  /** One queue's contribution: a dead leader if it has no members, and its dead members. */
  function QueueDead(q: ClusterQueue, live: map<string, bool>): seq<string> {
    if q.kind != "quorum" then []
    else (if q.members == [] then Dead([q.leader], live) else []) + Dead(q.members, live)
  }

  function QueuesDead(queues: seq<ClusterQueue>, live: map<string, bool>): seq<string> {
    if queues == [] then []
    else QueuesDead(queues[..|queues| - 1], live) + QueueDead(queues[|queues| - 1], live)
  }

  /** All calls of triggerRecovery in one poll, in order; None stands for a failed fetch or decode. */
  function PollTriggers(expected: seq<string>, previous: seq<string>,
                        nodes: Option<seq<Node>>, queues: Option<seq<ClusterQueue>>): seq<string>
  {
    if nodes == None then []
    else
      var live := LiveMap(nodes.value);
      Down(nodes.value) + Dead(expected, live) + Vanished(previous, expected) +
      if queues == None then [] else QueuesDead(queues.value, live)
  }

  // ---- runs of the poll loop ---------------------------------------------------------------

  /** What one turn of the loop learns from Docker and from the management API; None is a failed request. */
  datatype Poll = Poll(containers: Option<seq<string>>, nodes: Option<seq<Node>>, queues: Option<seq<ClusterQueue>>)

  /** What the monitor keeps from one turn to the next. */
  datatype MonitorState = MonitorState(book: Book, expected: seq<string>)

  function Turn(s: MonitorState, p: Poll, env: Cluster): MonitorState {
    var expected := Listed(p.containers);
    MonitorState(TriggerAll(s.book, PollTriggers(expected, s.expected, p.nodes, p.queues), env), expected)
  }

  function Turns(s: MonitorState, ps: seq<Poll>, env: Cluster): MonitorState
    decreases |ps|
  {
    if ps == [] then s else Turns(Turn(s, ps[0], env), ps[1..], env)
  }

  // ---- the monitor -------------------------------------------------------------------------

  class Monitor {
    var forgotten: set<string>
    var expectedNodes: seq<string>
    var previousExpectedNodes: seq<string>
    var recoveriesTotal: nat
    var recoveriesFailed: nat
    var durations: nat
    var log: seq<Effect>

    constructor ()
      ensures CurrentBook() == EMPTY_BOOK && expectedNodes == previousExpectedNodes == []
    {
      forgotten, expectedNodes, previousExpectedNodes := {}, [], [];
      recoveriesTotal, recoveriesFailed, durations, log := 0, 0, 0, [];
    }

    function CurrentBook(): Book
      reads this
    {
      Book(forgotten, recoveriesTotal, recoveriesFailed, durations, log)
    }

    function State(): MonitorState
      reads this
    {
      MonitorState(CurrentBook(), expectedNodes)
    }

    /** The back-off loop, for any number of tries. */
    method ForgetWithBackoff(deadNode: string, maxRetries: int, env: Cluster) returns (ok: bool)
      requires maxRetries >= 1
      modifies this`log
      ensures log == old(log) + BackoffLog(deadNode, env, maxRetries, 1, 1000)
      ensures ok == env.forgets(deadNode, LastTry(deadNode, env, maxRetries, 1))
    {
      var backoff := 1000;
      var i := 1;
      while true
        invariant 1 <= i <= maxRetries
        invariant old(log) + BackoffLog(deadNode, env, maxRetries, 1, 1000) ==
                  log + BackoffLog(deadNode, env, maxRetries, i, backoff)
        invariant LastTry(deadNode, env, maxRetries, 1) == LastTry(deadNode, env, maxRetries, i)
        decreases maxRetries - i
      {
        ok := env.forgets(deadNode, i);
        log := log + [ForgetTried(deadNode, i, ok)];
        if ok { break; }
        if i == maxRetries { break; }
        var sleep := backoff + env.jitter(deadNode, i);
        log := log + [Slept(sleep)];
        backoff := backoff * 2;
        i := i + 1;
      }
    }

    method TriggerRecovery(deadNode: string, env: Cluster)
      modifies this
      ensures CurrentBook() == Trigger(old(CurrentBook()), deadNode, env)
      ensures expectedNodes == old(expectedNodes) && previousExpectedNodes == old(previousExpectedNodes)
    {
      hide ExtractContainer, BackoffLog, LastTry;
      recoveriesTotal := recoveriesTotal + 1;
      durations := durations + 1;
      if deadNode == "" || deadNode in forgotten { return; }
      forgotten := forgotten + {deadNode};
      var container := ExtractContainer(deadNode);
      if container == "" {
        var ok := env.forgets(deadNode, 1);
        log := log + [ForgetTried(deadNode, 1, ok)];
        if !ok { recoveriesFailed := recoveriesFailed + 1; }
        log := log + [Spawned(deadNode, env.replacement(deadNode))];
        assert log == old(log) + RecoveryLog(deadNode, env);
        return;
      }
      log := log + [Stopped(container)];
      var ok := ForgetWithBackoff(deadNode, 5, env);
      assert ok == Forgets(deadNode, env);
      if !ok {
        recoveriesFailed := recoveriesFailed + 1;
        log := log + [Spawned(deadNode, env.replacement(deadNode))];
        assert log == old(log) + RecoveryLog(deadNode, env);
        return;
      }
      log := log + [ContainerRemoved(container)];
      log := log + [VolumeRemoved(container + "-data")];
      log := log + [Spawned(deadNode, env.replacement(deadNode))];
      assert log == old(log) + RecoveryLog(deadNode, env);
    }

    /** None stands for a container listing that failed. */
    method UpdateExpectedNodes(containers: Option<seq<string>>)
      modifies this`expectedNodes, this`previousExpectedNodes
      ensures previousExpectedNodes == old(expectedNodes)
      ensures expectedNodes == Listed(containers)
    {
      previousExpectedNodes := expectedNodes;
      expectedNodes := [];
      if containers == None { return; }
      var cs := containers.value;
      for i := 0 to |cs|
        invariant expectedNodes == Expected(cs[..i])
        invariant previousExpectedNodes == old(expectedNodes)
      {
        assert cs[..i + 1][..i] == cs[..i];
        if HasPrefix(cs[i], "/rabbit") {
          var node := "rabbit@" + cs[i][1..];
          expectedNodes := expectedNodes + [node];
        }
      }
      assert cs[..|cs|] == cs;
    }

    /** Pass 1: read the node reports, and recover every node reported not running as its report is read. */
    method ReadNodes(raw: seq<Node>, env: Cluster) returns (live: map<string, bool>)
      modifies this
      ensures expectedNodes == old(expectedNodes) && previousExpectedNodes == old(previousExpectedNodes)
      ensures live == LiveMap(raw)
      ensures CurrentBook() == TriggerAll(old(CurrentBook()), Down(raw), env)
    {
      hide Trigger;
      live := map[];
      for i := 0 to |raw|
        invariant expectedNodes == old(expectedNodes) && previousExpectedNodes == old(previousExpectedNodes)
        invariant live == LiveMap(raw[..i])
        invariant CurrentBook() == TriggerAll(old(CurrentBook()), Down(raw[..i]), env)
      {
        assert raw[..i + 1][..i] == raw[..i];
        live := live[raw[i].name := raw[i].running];
        if raw[i].running {
          assert Down(raw[..i + 1]) == Down(raw[..i]);
        } else {
          TriggerOne(old(CurrentBook()), Down(raw[..i]), raw[i].name, env);
          TriggerRecovery(raw[i].name, env);
        }
      }
      assert raw[..|raw|] == raw;
    }

    /** Pass 2, and the loop over the members of a queue: recover every listed name that is not live. */
    method RecoverDead(names: seq<string>, live: map<string, bool>, env: Cluster)
      modifies this
      ensures expectedNodes == old(expectedNodes) && previousExpectedNodes == old(previousExpectedNodes)
      ensures CurrentBook() == TriggerAll(old(CurrentBook()), Dead(names, live), env)
    {
      hide Trigger;
      for i := 0 to |names|
        invariant expectedNodes == old(expectedNodes) && previousExpectedNodes == old(previousExpectedNodes)
        invariant CurrentBook() == TriggerAll(old(CurrentBook()), Dead(names[..i], live), env)
      {
        assert names[..i + 1][..i] == names[..i];
        if names[i] in live && live[names[i]] {
          assert Dead(names[..i + 1], live) == Dead(names[..i], live);
        } else {
          TriggerOne(old(CurrentBook()), Dead(names[..i], live), names[i], env);
          TriggerRecovery(names[i], env);
        }
      }
      assert names[..|names|] == names;
    }

    /** Pass 3: recover the recovery nodes whose containers are gone from the listing. */
    method RecoverVanished(env: Cluster)
      modifies this
      ensures expectedNodes == old(expectedNodes) && previousExpectedNodes == old(previousExpectedNodes)
      ensures CurrentBook() == TriggerAll(old(CurrentBook()), Vanished(previousExpectedNodes, expectedNodes), env)
    {
      hide Trigger;
      for i := 0 to |previousExpectedNodes|
        invariant expectedNodes == old(expectedNodes) && previousExpectedNodes == old(previousExpectedNodes)
        invariant CurrentBook() ==
                  TriggerAll(old(CurrentBook()), Vanished(previousExpectedNodes[..i], expectedNodes), env)
      {
        assert previousExpectedNodes[..i + 1][..i] == previousExpectedNodes[..i];
        var candidate := previousExpectedNodes[i];
        var found := false;
        for j := 0 to |expectedNodes|
          invariant !found && candidate !in expectedNodes[..j]
        {
          if candidate == expectedNodes[j] { found := true; break; }
        }
        assert expectedNodes[..|expectedNodes|] == expectedNodes;
        assert found <==> candidate in expectedNodes;
        if !found && HasPrefix(candidate, "rabbit@rabbit-recover") {
          TriggerOne(old(CurrentBook()), Vanished(previousExpectedNodes[..i], expectedNodes), candidate, env);
          TriggerRecovery(candidate, env);
        } else {
          assert Vanished(previousExpectedNodes[..i + 1], expectedNodes) ==
                 Vanished(previousExpectedNodes[..i], expectedNodes);
        }
      }
      assert previousExpectedNodes[..|previousExpectedNodes|] == previousExpectedNodes;
    }

    /** Pass 4: the quorum queues. */
    method CheckQueues(qs: seq<ClusterQueue>, live: map<string, bool>, env: Cluster)
      modifies this
      ensures expectedNodes == old(expectedNodes) && previousExpectedNodes == old(previousExpectedNodes)
      ensures CurrentBook() == TriggerAll(old(CurrentBook()), QueuesDead(qs, live), env)
    {
      hide Trigger, TriggerAll, QueueDead;
      TriggerNone(CurrentBook(), env);
      for i := 0 to |qs|
        invariant expectedNodes == old(expectedNodes) && previousExpectedNodes == old(previousExpectedNodes)
        invariant CurrentBook() == TriggerAll(old(CurrentBook()), QueuesDead(qs[..i], live), env)
      {
        assert qs[..i + 1][..i] == qs[..i];
        TriggerAllConcat(old(CurrentBook()), QueuesDead(qs[..i], live), QueueDead(qs[i], live), env);
        CheckQueue(qs[i], live, env);
      }
      assert qs[..|qs|] == qs;
    }

    /** The body of the loop over queues. */
    method CheckQueue(q: ClusterQueue, live: map<string, bool>, env: Cluster)
      modifies this
      ensures expectedNodes == old(expectedNodes) && previousExpectedNodes == old(previousExpectedNodes)
      ensures CurrentBook() == TriggerAll(old(CurrentBook()), QueueDead(q, live), env)
    {
      hide Trigger, TriggerAll;
      TriggerNone(CurrentBook(), env);
      if q.kind != "quorum" { return; }
      ghost var leader: seq<string> := [];
      if |q.members| == 0 {
        if !(q.leader in live && live[q.leader]) {
          TriggerOne(CurrentBook(), [], q.leader, env);
          TriggerRecovery(q.leader, env);
          leader := [] + [q.leader];
        }
        DeadOne(q.leader, live);
      }
      TriggerAllConcat(old(CurrentBook()), leader, Dead(q.members, live), env);
      RecoverDead(q.members, live, env);
    }

    method CheckQuorumStatus(nodes: Option<seq<Node>>, queues: Option<seq<ClusterQueue>>, env: Cluster)
      modifies this
      ensures expectedNodes == old(expectedNodes) && previousExpectedNodes == old(previousExpectedNodes)
      ensures CurrentBook() ==
              TriggerAll(old(CurrentBook()), PollTriggers(expectedNodes, previousExpectedNodes, nodes, queues), env)
    {
      hide Trigger, TriggerAll, Down, Dead, Vanished, QueuesDead, LiveMap;
      ghost var b0 := CurrentBook();
      TriggerNone(b0, env);
      if nodes == None { return; }
      var live := ReadNodes(nodes.value, env);
      ghost var done := Down(nodes.value);

      TriggerAllConcat(b0, done, Dead(expectedNodes, live), env);
      RecoverDead(expectedNodes, live, env);
      done := done + Dead(expectedNodes, live);

      TriggerAllConcat(b0, done, Vanished(previousExpectedNodes, expectedNodes), env);
      RecoverVanished(env);
      done := done + Vanished(previousExpectedNodes, expectedNodes);

      assert done + [] == done;
      if queues == None { return; }
      TriggerAllConcat(b0, done, QueuesDead(queues.value, live), env);
      CheckQueues(queues.value, live, env);
    }

    /** One turn of the poll loop. */
    method PollOnce(containers: Option<seq<string>>, nodes: Option<seq<Node>>, queues: Option<seq<ClusterQueue>>,
                    env: Cluster)
      modifies this
      ensures previousExpectedNodes == old(expectedNodes)
      ensures expectedNodes == Listed(containers)
      ensures CurrentBook() ==
              TriggerAll(old(CurrentBook()), PollTriggers(expectedNodes, previousExpectedNodes, nodes, queues), env)
    {
      UpdateExpectedNodes(containers);
      CheckQuorumStatus(nodes, queues, env);
    }

    /** The endless poll loop, as far as it has come. */
    method StartQuorumMonitor(polls: seq<Poll>, env: Cluster)
      modifies this
      ensures State() == Turns(old(State()), polls, env)
    {
      hide TriggerAll, PollTriggers, Listed;
      assert polls[0..] == polls;
      for i := 0 to |polls|
        invariant Turns(old(State()), polls, env) == Turns(State(), polls[i..], env)
      {
        assert polls[i..][1..] == polls[i + 1..];
        PollOnce(polls[i].containers, polls[i].nodes, polls[i].queues, env);
      }
    }
  }

  /** The expected nodes after a listing, or after a failed one. */
  function Listed(containers: Option<seq<string>>): seq<string> {
    if containers == None then [] else Expected(containers.value)
  }

  lemma DeadOne(name: string, live: map<string, bool>)
    ensures Dead([name], live) == if IsLive(live, name) then [] else [name]
  {
  }

  lemma TriggerNone(b: Book, env: Cluster)
    ensures TriggerAll(b, [], env) == b
  {
  }

  lemma TriggerOne(b: Book, nodes: seq<string>, node: string, env: Cluster)
    ensures TriggerAll(b, nodes + [node], env) == Trigger(TriggerAll(b, nodes, env), node, env)
  {
  }

  lemma {:induction false} TriggerAllConcat(b: Book, xs: seq<string>, ys: seq<string>, env: Cluster)
    ensures TriggerAll(b, xs + ys, env) == TriggerAll(TriggerAll(b, xs, env), ys, env)
  {
    hide Trigger;
    if ys == [] {
      assert xs + ys == xs;
    } else {
      var n := |ys| - 1;
      TriggerAllConcat(b, xs, ys[..n], env);
      assert (xs + ys)[..|xs| + n] == xs + ys[..n];
    }
  }
}
