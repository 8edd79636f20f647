/** What the quorum monitor guarantees, per poll and over whole runs. */
module QuorumTheorems {
  import opened Common
  import opened QuorumRecovery

  // ---- one poll: completeness and exactness ----------------------------------------------------

  /** A running container whose name starts with /rabbit stands for node x. */
  ghost predicate ListedAs(containers: seq<string>, x: string) {
    exists i :: 0 <= i < |containers| && "/rabbit" <= containers[i] && x == "rabbit@" + containers[i][1..]
  }

  /** A node is expected iff some rabbit container of the listing stands for it. */
  lemma {:induction false} InExpected(containers: seq<string>, x: string)
    ensures x in Expected(containers) <==> ListedAs(containers, x)
  {
    if containers != [] {
      var n := |containers| - 1;
      InExpected(containers[..n], x);
      if ListedAs(containers[..n], x) {
        var i :| 0 <= i < n && "/rabbit" <= containers[..n][i] && x == "rabbit@" + containers[..n][i][1..];
        assert containers[i] == containers[..n][i];
      }
      if ListedAs(containers, x) {
        var i :| 0 <= i < |containers| && "/rabbit" <= containers[i] && x == "rabbit@" + containers[i][1..];
        if i < n { assert containers[..n][i] == containers[i]; }
      }
    }
  }

  /**
   * A list of reports is read in order, and each container, node report, name or queue contributes for itself: its
   * name if the pass has grounds, once, and otherwise nothing.
   */
  lemma {:induction false} ListingParts(a: seq<string>, b: seq<string>, c: string)
    ensures Expected(a + b) == Expected(a) + Expected(b)
    ensures Expected([c]) == if "/rabbit" <= c then ["rabbit@" + c[1..]] else []
  {
    assert [c][..0] == [];
    if b == [] {
      assert a + b == a;
    } else {
      ListingParts(a, b[..|b| - 1], c);
      assert (a + b)[..|a + b| - 1] == a + b[..|b| - 1] && (a + b)[|a + b| - 1] == b[|b| - 1];
    }
  }

  lemma {:induction false} ReportParts(a: seq<Node>, b: seq<Node>, n: Node)
    ensures Down(a + b) == Down(a) + Down(b)
    ensures Down([n]) == if n.running then [] else [n.name]
  {
    assert [n][..0] == [];
    if b == [] {
      assert a + b == a;
    } else {
      ReportParts(a, b[..|b| - 1], n);
      assert (a + b)[..|a + b| - 1] == a + b[..|b| - 1] && (a + b)[|a + b| - 1] == b[|b| - 1];
    }
  }

  lemma {:induction false} NameParts(a: seq<string>, b: seq<string>, x: string, live: map<string, bool>)
    ensures Dead(a + b, live) == Dead(a, live) + Dead(b, live)
    ensures Dead([x], live) == if x in live && live[x] then [] else [x]
  {
    assert [x][..0] == [];
    if b == [] {
      assert a + b == a;
    } else {
      NameParts(a, b[..|b| - 1], x, live);
      assert (a + b)[..|a + b| - 1] == a + b[..|b| - 1] && (a + b)[|a + b| - 1] == b[|b| - 1];
    }
  }

  lemma {:induction false} VanishedParts(a: seq<string>, b: seq<string>, x: string, current: seq<string>)
    ensures Vanished(a + b, current) == Vanished(a, current) + Vanished(b, current)
    ensures Vanished([x], current) == if x !in current && "rabbit@rabbit-recover" <= x then [x] else []
  {
    assert [x][..0] == [];
    if b == [] {
      assert a + b == a;
    } else {
      VanishedParts(a, b[..|b| - 1], x, current);
      assert (a + b)[..|a + b| - 1] == a + b[..|b| - 1] && (a + b)[|a + b| - 1] == b[|b| - 1];
    }
  }

  lemma {:induction false} QueueParts(a: seq<ClusterQueue>, b: seq<ClusterQueue>, live: map<string, bool>)
    ensures QueuesDead(a + b, live) == QueuesDead(a, live) + QueuesDead(b, live)
  {
    hide QueueDead;
    if b == [] {
      assert a + b == a;
    } else {
      QueueParts(a, b[..|b| - 1], live);
      assert (a + b)[..|a + b| - 1] == a + b[..|b| - 1] && (a + b)[|a + b| - 1] == b[|b| - 1];
    }
  }

  /** A quorum queue contributes its dead members in order, or its dead leader if it has no members. */
  lemma QueuePart(q: ClusterQueue, live: map<string, bool>)
    ensures QueuesDead([q], live) ==
            if q.kind != "quorum" then [] else Dead(if q.members == [] then [q.leader] else q.members, live)
  {
    assert [q][..0] == [];
    assert q.members == [] ==> Dead(q.members, live) == [];
    hide Dead;
  }

  ghost predicate ReportedDown(nodes: seq<Node>, x: string) {
    exists i :: 0 <= i < |nodes| && nodes[i].name == x && !nodes[i].running
  }

  /** The last report of a node says that it runs. */
  ghost predicate LastReportedUp(nodes: seq<Node>, x: string) {
    exists i :: 0 <= i < |nodes| && nodes[i] == Node(x, true) && forall j :: i < j < |nodes| ==> nodes[j].name != x
  }

  /** A quorum queue depends on x and x is not live. */
  ghost predicate QueueMisses(queues: seq<ClusterQueue>, nodes: seq<Node>, x: string) {
    !LastReportedUp(nodes, x) &&
    exists i :: 0 <= i < |queues| && queues[i].kind == "quorum" &&
                if queues[i].members == [] then x == queues[i].leader else x in queues[i].members
  }

  /** The conditions under which a poll must take x for dead. */
  ghost predicate Detected(expected: seq<string>, previous: seq<string>,
                           nodes: Option<seq<Node>>, queues: Option<seq<ClusterQueue>>, x: string)
  {
    && x != "" && nodes.Some?
    && (|| ReportedDown(nodes.value, x)
        || (x in expected && !LastReportedUp(nodes.value, x))
        || (x in previous && x !in expected && "rabbit@rabbit-recover" <= x)
        || (queues.Some? && QueueMisses(queues.value, nodes.value, x)))
  }

  lemma {:induction false} LiveIsLastReport(nodes: seq<Node>, x: string)
    ensures IsLive(LiveMap(nodes), x) <==> LastReportedUp(nodes, x)
  {
    if nodes != [] {
      var n := |nodes| - 1;
      var front := nodes[..n];
      LiveIsLastReport(front, x);
      if nodes[n].name == x {
        if nodes[n].running { assert nodes[n] == Node(x, true); }
      } else if LastReportedUp(front, x) {
        var i :| 0 <= i < n && front[i] == Node(x, true) && forall j :: i < j < n ==> front[j].name != x;
        forall j | i < j < |nodes| ensures nodes[j].name != x { if j < n { assert nodes[j] == front[j]; } }
        assert nodes[i] == Node(x, true);
      }
    }
  }

  lemma {:induction false} InDown(nodes: seq<Node>, x: string)
    ensures x in Down(nodes) <==> ReportedDown(nodes, x)
  {
    if nodes != [] {
      var n := |nodes| - 1;
      InDown(nodes[..n], x);
      assert x in Down(nodes) <==> x in Down(nodes[..n]) || (nodes[n].name == x && !nodes[n].running);
      hide Down;
      if ReportedDown(nodes[..n], x) {
        var i :| 0 <= i < n && nodes[..n][i].name == x && !nodes[..n][i].running;
        assert nodes[i].name == x;
      }
      if ReportedDown(nodes, x) {
        var i :| 0 <= i < |nodes| && nodes[i].name == x && !nodes[i].running;
        if i < n {
          assert nodes[..n][i].name == x;
        }
      }
    }
  }

  lemma {:induction false} InDead(names: seq<string>, live: map<string, bool>, x: string)
    ensures x in Dead(names, live) <==> x in names && !IsLive(live, x)
  {
    if names != [] {
      var n := |names| - 1;
      InDead(names[..n], live, x);
      assert names == names[..n] + [names[n]];
    }
  }

  lemma {:induction false} InVanished(previous: seq<string>, current: seq<string>, x: string)
    ensures x in Vanished(previous, current) <==>
      x in previous && x !in current && "rabbit@rabbit-recover" <= x
  {
    if previous != [] {
      var n := |previous| - 1;
      InVanished(previous[..n], current, x);
      assert previous == previous[..n] + [previous[n]];
    }
  }

  lemma {:induction false} InQueuesDead(queues: seq<ClusterQueue>, nodes: seq<Node>, x: string)
    ensures x in QueuesDead(queues, LiveMap(nodes)) <==> QueueMisses(queues, nodes, x)
  {
    hide Dead, LiveMap;
    if queues != [] {
      var n := |queues| - 1;
      var q, live := queues[n], LiveMap(nodes);
      InQueuesDead(queues[..n], nodes, x);
      LiveIsLastReport(nodes, x);
      InDead([q.leader], live, x);
      InDead(q.members, live, x);
      hide LastReportedUp, IsLive;
      if QueueMisses(queues[..n], nodes, x) {
        var i :| 0 <= i < n && queues[..n][i].kind == "quorum" &&
                 if queues[..n][i].members == [] then x == queues[..n][i].leader else x in queues[..n][i].members;
        assert queues[i] == queues[..n][i];
      }
      if QueueMisses(queues, nodes, x) {
        var i :| 0 <= i < |queues| && queues[i].kind == "quorum" &&
                 if queues[i].members == [] then x == queues[i].leader else x in queues[i].members;
        if i < n { assert queues[i] == queues[..n][i]; }
      }
    }
  }

  /** Recovering a list of nodes forgets exactly the ones with a name, and counts every call. */
  lemma {:induction false} TriggersForget(b: Book, nodes: seq<string>, env: Cluster)
    ensures forall x :: x in TriggerAll(b, nodes, env).forgotten <==> x in b.forgotten || (x in nodes && x != "")
    ensures TriggerAll(b, nodes, env).recoveries == b.recoveries + |nodes|
  {
    if nodes != [] {
      var n := |nodes| - 1;
      TriggersForget(b, nodes[..n], env);
      assert nodes == nodes[..n] + [nodes[n]];
    }
  }

  /** After a poll, a node is forgotten iff it was before or the poll's reports call for it. */
  lemma PollExact(b: Book, expected: seq<string>, previous: seq<string>,
                  nodes: Option<seq<Node>>, queues: Option<seq<ClusterQueue>>, env: Cluster, x: string)
    ensures x in TriggerAll(b, PollTriggers(expected, previous, nodes, queues), env).forgotten <==>
            x in b.forgotten || Detected(expected, previous, nodes, queues, x)
  {
    hide TriggerAll, Down, Dead, Vanished, QueuesDead, LiveMap;
    TriggersForget(b, PollTriggers(expected, previous, nodes, queues), env);
    if nodes.Some? {
      LiveIsLastReport(nodes.value, x);
      InDown(nodes.value, x);
      InDead(expected, LiveMap(nodes.value), x);
      InVanished(previous, expected, x);
      if queues.Some? { InQueuesDead(queues.value, nodes.value, x); }
    }
  }

  /** The grounds a turn of the poll loop has against x, by the listing it started with. */
  ghost predicate Grounds(previous: seq<string>, p: Poll, x: string) {
    var listed := p.containers.Some? && ListedAs(p.containers.value, x);
    && x != "" && p.nodes.Some?
    && (|| ReportedDown(p.nodes.value, x)
        || (listed && !LastReportedUp(p.nodes.value, x))
        || (x in previous && !listed && "rabbit@rabbit-recover" <= x)
        || (p.queues.Some? && QueueMisses(p.queues.value, p.nodes.value, x)))
  }

  /** A whole turn, from the container listing on: what it forgets, and what the next one will take for expected. */
  lemma TurnExact(s: MonitorState, p: Poll, env: Cluster, x: string)
    ensures x in Turn(s, p, env).book.forgotten <==> x in s.book.forgotten || Grounds(s.expected, p, x)
    ensures x in Turn(s, p, env).expected <==> p.containers.Some? && ListedAs(p.containers.value, x)
  {
    var expected := Listed(p.containers);
    if p.containers.Some? { InExpected(p.containers.value, x); }
    PollExact(s.book, expected, s.expected, p.nodes, p.queues, env, x);
    hide TriggerAll, PollTriggers, ListedAs, LastReportedUp, ReportedDown, QueueMisses, Expected;
  }

  /** The polls are taken one after the other. */
  lemma {:induction false} TurnsConcat(s: MonitorState, ps: seq<Poll>, qs: seq<Poll>, env: Cluster)
    ensures Turns(s, ps + qs, env) == Turns(Turns(s, ps, env), qs, env)
    decreases |ps|
  {
    hide Turn;
    if ps == [] {
      assert ps + qs == qs;
    } else {
      TurnsConcat(Turn(s, ps[0], env), ps[1..], qs, env);
      assert (ps + qs)[1..] == ps[1..] + qs;
    }
  }

  /**
   * One failed container listing empties the expected list, so the next successful node poll takes every
   * recovery node it knew for gone and forgets it, even one whose last report says that it runs.
   */
  lemma FailedListingForgetsRecoveryNodes(b: Book, previous: seq<string>, nodes: seq<Node>,
                                          queues: Option<seq<ClusterQueue>>, env: Cluster, x: string)
    requires x in previous && "rabbit@rabbit-recover" <= x
    ensures x in TriggerAll(b, PollTriggers(Listed(None), previous, Some(nodes), queues), env).forgotten
  {
    PollExact(b, Listed(None), previous, Some(nodes), queues, env, x);
  }

  /** Polls that recover no live node: what they newly forget was not last reported up. */
  ghost predicate OnlyDead(b: Book, b': Book, nodes: seq<Node>) {
    forall x :: x in b'.forgotten && x !in b.forgotten ==> !LastReportedUp(nodes, x)
  }

  /**
   * A poll recovers only nodes that are not live iff no node that it has not forgotten yet, and that is last
   * reported up, is either reported down by an earlier report or a recovery node that has left the listing.
   */
  lemma OnlyDeadIff(b: Book, expected: seq<string>, previous: seq<string>, nodes: seq<Node>,
                    queues: Option<seq<ClusterQueue>>, env: Cluster)
    ensures OnlyDead(b, TriggerAll(b, PollTriggers(expected, previous, Some(nodes), queues), env), nodes) <==>
      forall x :: x != "" && x !in b.forgotten && LastReportedUp(nodes, x) ==>
        && !ReportedDown(nodes, x)
        && !(x in previous && x !in expected && "rabbit@rabbit-recover" <= x)
  {
    hide TriggerAll, PollTriggers, LastReportedUp, ReportedDown, HasPrefix, QueueMisses;
    var b' := TriggerAll(b, PollTriggers(expected, previous, Some(nodes), queues), env);
    forall x ensures x in b'.forgotten <==> x in b.forgotten || Detected(expected, previous, Some(nodes), queues, x) {
      PollExact(b, expected, previous, Some(nodes), queues, env, x);
    }
    forall qs: seq<ClusterQueue>, x | LastReportedUp(nodes, x) ensures !QueueMisses(qs, nodes, x) {
      LiveNotMissed(qs, nodes, x);
    }
  }

  lemma LiveNotMissed(queues: seq<ClusterQueue>, nodes: seq<Node>, x: string)
    requires LastReportedUp(nodes, x)
    ensures !QueueMisses(queues, nodes, x)
  {
  }

  // ---- whole runs -------------------------------------------------------------------------------

  /** The nodes a replacement was attempted for, in order. */
  function Spawns(log: seq<Effect>): seq<string> {
    if log == [] then []
    else Spawns(log[..|log| - 1]) + if log[|log| - 1].Spawned? then [log[|log| - 1].dead] else []
  }

  /** The recoveries of the given nodes, one after the other. */
  function Recoveries(nodes: seq<string>, env: Cluster): seq<Effect> {
    if nodes == [] then [] else Recoveries(nodes[..|nodes| - 1], env) + RecoveryLog(nodes[|nodes| - 1], env)
  }

  /** The forgotten nodes whom the cluster refused to forget. */
  ghost function Refused(b: Book, env: Cluster): set<string> {
    set x | x in b.forgotten && !Forgets(x, env)
  }

  /**
   * All that the monitor ever did to the cluster is one complete recovery for each forgotten node: one
   * replacement attempt each, through whichever exit; failures are the refused ones, and every call is counted.
   */
  ghost predicate BookOk(b: Book, env: Cluster) {
    && "" !in b.forgotten
    && b.log == Recoveries(Spawns(b.log), env)
    && NoDuplicates(Spawns(b.log))
    && (forall x :: x in b.forgotten <==> x in Spawns(b.log))
    && |Spawns(b.log)| == |b.forgotten|
    && b.failures == |Refused(b, env)| <= |b.forgotten| <= b.recoveries
    && b.durations == b.recoveries
  }

  lemma {:induction false} SpawnsConcat(a: seq<Effect>, c: seq<Effect>)
    ensures Spawns(a + c) == Spawns(a) + Spawns(c)
  {
    if c == [] {
      assert a + c == a;
    } else {
      var n := |c| - 1;
      SpawnsConcat(a, c[..n]);
      assert (a + c)[..|a| + n] == a + c[..n];
    }
  }

  lemma {:induction false} SpawnsNone(log: seq<Effect>)
    requires forall k :: 0 <= k < |log| ==> !log[k].Spawned?
    ensures Spawns(log) == []
  {
    if log != [] {
      SpawnsNone(log[..|log| - 1]);
    }
  }

  /** The back-off loop ends with its last try, and neither removes nor creates a container. */
  lemma {:induction false} BackoffEnd(node: string, env: Cluster, m: int, i: int, backoff: int)
    requires i <= m
    ensures var log := BackoffLog(node, env, m, i, backoff);
      var t := LastTry(node, env, m, i);
      log != [] && log[|log| - 1] == ForgetTried(node, t, env.forgets(node, t)) &&
      forall k :: 0 <= k < |log| ==> !log[k].ContainerRemoved? && !log[k].VolumeRemoved? && !log[k].Spawned?
    decreases m - i
  {
    if !env.forgets(node, i) && i < m {
      BackoffEnd(node, env, m, i + 1, 2 * backoff);
    }
  }

  /** Each recovery attempts exactly one replacement, as its last effect. */
  lemma RecoverySpawnsOnce(node: string, env: Cluster)
    ensures Spawns(RecoveryLog(node, env)) == [node]
  {
    BackoffEnd(node, env, MAX_RETRIES, 1, 1000);
    hide BackoffLog, Forgets, ExtractContainer, LastTry, Spawns;
    var log := RecoveryLog(node, env);
    var n := |log| - 1;
    assert log[n] == Spawned(node, env.replacement(node));
    SpawnsNone(log[..n]);
    SpawnsStep(log);
  }

  lemma SpawnsStep(log: seq<Effect>)
    requires log != []
    ensures Spawns(log) == Spawns(log[..|log| - 1]) + if log[|log| - 1].Spawned? then [log[|log| - 1].dead] else []
  {
  }

  lemma TriggerKeepsBook(b: Book, node: string, env: Cluster)
    requires BookOk(b, env)
    ensures BookOk(Trigger(b, node, env), env)
  {
    hide Forgets, RecoveryLog, Spawns, Recoveries, Refused, NoDuplicates;
    var b' := Trigger(b, node, env);
    if node != "" && node !in b.forgotten {
      RecoverySpawnsOnce(node, env);
      SpawnsConcat(b.log, RecoveryLog(node, env));
      RecoveriesStep(Spawns(b.log), node, env);
      RefusedGrows(b, b', node, env);
      RefusedFew(b', env);
      FreshNode(Spawns(b.log), b.forgotten, node);
    } else {
      RefusedSame(b, b', env);
    }
  }

  lemma RefusedSame(b: Book, b': Book, env: Cluster)
    requires b'.forgotten == b.forgotten
    ensures Refused(b', env) == Refused(b, env)
  {
  }

  /** A duplicate-free list of a set grows with the set. */
  lemma FreshNode(names: seq<string>, all: set<string>, node: string)
    requires NoDuplicates(names) && (forall x :: x in all <==> x in names) && |names| == |all| && node !in all
    ensures NoDuplicates(names + [node]) && (forall x :: x in all + {node} <==> x in names + [node])
    ensures |names + [node]| == |all + {node}|
  {
  }

  lemma RecoveriesStep(nodes: seq<string>, node: string, env: Cluster)
    ensures Recoveries(nodes + [node], env) == Recoveries(nodes, env) + RecoveryLog(node, env)
  {
  }

  lemma RefusedGrows(b: Book, b': Book, node: string, env: Cluster)
    requires node !in b.forgotten && b'.forgotten == b.forgotten + {node}
    ensures |Refused(b', env)| == |Refused(b, env)| + if Forgets(node, env) then 0 else 1
  {
    hide Forgets;
    assert Refused(b', env) == if Forgets(node, env) then Refused(b, env) else Refused(b, env) + {node};
  }

  lemma RefusedFew(b: Book, env: Cluster)
    ensures |Refused(b, env)| <= |b.forgotten|
  {
    assert b.forgotten == Refused(b, env) + (b.forgotten - Refused(b, env));
  }

  lemma {:induction false} TriggersKeepBook(b: Book, nodes: seq<string>, env: Cluster)
    requires BookOk(b, env)
    ensures BookOk(TriggerAll(b, nodes, env), env)
    ensures b.forgotten <= TriggerAll(b, nodes, env).forgotten && b.log <= TriggerAll(b, nodes, env).log
  {
    hide BookOk, RecoveryLog;
    if nodes != [] {
      TriggersKeepBook(b, nodes[..|nodes| - 1], env);
      TriggerKeepsBook(TriggerAll(b, nodes[..|nodes| - 1], env), nodes[|nodes| - 1], env);
    }
  }

  /** x was recovered before y. */
  ghost predicate RecoveredBefore(log: seq<Effect>, x: string, y: string) {
    exists i, j :: 0 <= i < j < |Spawns(log)| && Spawns(log)[i] == x && Spawns(log)[j] == y
  }

  lemma SpawnsGrow(log: seq<Effect>, log': seq<Effect>)
    requires log <= log'
    ensures Spawns(log) <= Spawns(log')
  {
    SpawnsConcat(log, log'[|log|..]);
    assert log' == log + log'[|log|..];
  }

  /** Of two nodes that are both new, the one whose turn comes first is recovered first. */
  lemma TriggerOrder(b: Book, xs: seq<string>, ys: seq<string>, env: Cluster, x: string, y: string)
    requires BookOk(b, env) && x in xs && x != "" && y !in b.forgotten && y !in xs && y in ys && y != ""
    ensures RecoveredBefore(TriggerAll(b, xs + ys, env).log, x, y)
  {
    var b1 := TriggerAll(b, xs, env);
    var b2 := TriggerAll(b1, ys, env);
    TriggerAllConcat(b, xs, ys, env);
    TriggersForget(b, xs, env);
    TriggersForget(b1, ys, env);
    TriggersKeepBook(b, xs, env);
    TriggersKeepBook(b1, ys, env);
    hide TriggerAll;
    BooksOrder(b1, b2, env, x, y);
  }

  lemma BooksOrder(b: Book, b': Book, env: Cluster, x: string, y: string)
    requires BookOk(b, env) && BookOk(b', env) && b.log <= b'.log
    requires x in b.forgotten && y !in b.forgotten && y in b'.forgotten
    ensures RecoveredBefore(b'.log, x, y)
  {
    hide Spawns, Recoveries, Refused, NoDuplicates;
    SpawnsGrow(b.log, b'.log);
    var before, after := Spawns(b.log), Spawns(b'.log);
    assert x in before && y !in before && y in after;
    var i :| 0 <= i < |before| && before[i] == x;
    var j :| 0 <= j < |after| && after[j] == y;
    assert forall k :: 0 <= k < |before| ==> after[k] == before[k];
  }

  /** The first pass of a poll that has grounds against x; 4 is the pass over the queues. */
  ghost function FirstPass(expected: seq<string>, previous: seq<string>, nodes: seq<Node>, x: string): nat {
    if ReportedDown(nodes, x) then 1
    else if x in expected && !LastReportedUp(nodes, x) then 2
    else if x in previous && x !in expected && "rabbit@rabbit-recover" <= x then 3
    else 4
  }

  /** Within a poll, a node that an earlier pass detects is recovered before one that only a later pass does. */
  lemma PassesInOrder(b: Book, expected: seq<string>, previous: seq<string>, nodes: seq<Node>,
                      queues: Option<seq<ClusterQueue>>, env: Cluster, x: string, y: string)
    requires BookOk(b, env) && x !in b.forgotten && y !in b.forgotten
    requires Detected(expected, previous, Some(nodes), queues, x)
    requires Detected(expected, previous, Some(nodes), queues, y)
    requires FirstPass(expected, previous, nodes, x) < FirstPass(expected, previous, nodes, y)
    ensures RecoveredBefore(TriggerAll(b, PollTriggers(expected, previous, Some(nodes), queues), env).log, x, y)
  {
    hide BookOk, RecoveredBefore, TriggerAll, LastReportedUp, ReportedDown, QueueMisses, PollTriggers;
    PassMembers(expected, previous, nodes, queues, x);
    PassMembers(expected, previous, nodes, queues, y);
    PassesJoin(expected, previous, nodes, queues);
    hide Pass;
    var first := FirstPass(expected, previous, nodes, x);
    var p1, p2 := Pass(expected, previous, nodes, queues, 1), Pass(expected, previous, nodes, queues, 2);
    var p3, p4 := Pass(expected, previous, nodes, queues, 3), Pass(expected, previous, nodes, queues, 4);
    if first == 1 {
      assert p1 + p2 + p3 + p4 == p1 + (p2 + p3 + p4);
      TriggerOrder(b, p1, p2 + p3 + p4, env, x, y);
    } else if first == 2 {
      assert p1 + p2 + p3 + p4 == (p1 + p2) + (p3 + p4);
      TriggerOrder(b, p1 + p2, p3 + p4, env, x, y);
    } else {
      TriggerOrder(b, p1 + p2 + p3, p4, env, x, y);
    }
  }

  /** The nodes that one pass of a poll goes after. */
  function Pass(expected: seq<string>, previous: seq<string>, nodes: seq<Node>, queues: Option<seq<ClusterQueue>>,
                k: nat): seq<string>
  {
    if k == 1 then Down(nodes)
    else if k == 2 then Dead(expected, LiveMap(nodes))
    else if k == 3 then Vanished(previous, expected)
    else if queues == None then []
    else QueuesDead(queues.value, LiveMap(nodes))
  }

  lemma PassMembers(expected: seq<string>, previous: seq<string>, nodes: seq<Node>,
                    queues: Option<seq<ClusterQueue>>, z: string)
    ensures z in Pass(expected, previous, nodes, queues, 1) <==> ReportedDown(nodes, z)
    ensures z in Pass(expected, previous, nodes, queues, 2) <==> z in expected && !LastReportedUp(nodes, z)
    ensures z in Pass(expected, previous, nodes, queues, 3) <==>
      z in previous && z !in expected && "rabbit@rabbit-recover" <= z
    ensures z in Pass(expected, previous, nodes, queues, 4) <==> queues.Some? && QueueMisses(queues.value, nodes, z)
  {
    hide Down, Dead, Vanished, QueuesDead, LiveMap, IsLive, LastReportedUp, ReportedDown, QueueMisses;
    InDown(nodes, z);
    LiveIsLastReport(nodes, z);
    InDead(expected, LiveMap(nodes), z);
    InVanished(previous, expected, z);
    if queues.Some? { InQueuesDead(queues.value, nodes, z); }
  }

  lemma PassesJoin(expected: seq<string>, previous: seq<string>, nodes: seq<Node>, queues: Option<seq<ClusterQueue>>)
    ensures PollTriggers(expected, previous, Some(nodes), queues) ==
            Pass(expected, previous, nodes, queues, 1) + Pass(expected, previous, nodes, queues, 2) +
            Pass(expected, previous, nodes, queues, 3) + Pass(expected, previous, nodes, queues, 4)
  {
    hide Down, Dead, Vanished, QueuesDead, LiveMap;
  }

  /**
   * Recover once, over whole runs: whatever the polls report and however the cluster answers, the set of
   * forgotten nodes and the record of effects only grow, and the books stay in order.
   */
  lemma {:induction false} RecoverOnce(s: MonitorState, ps: seq<Poll>, env: Cluster)
    requires BookOk(s.book, env)
    ensures var s' := Turns(s, ps, env);
      BookOk(s'.book, env) && s.book.forgotten <= s'.book.forgotten && s.book.log <= s'.book.log
    decreases |ps|
  {
    hide BookOk, PollTriggers, Listed, TriggerAll;
    if ps != [] {
      TriggersKeepBook(s.book, PollTriggers(Listed(ps[0].containers), s.expected, ps[0].nodes, ps[0].queues), env);
      RecoverOnce(Turn(s, ps[0], env), ps[1..], env);
    }
  }

  /**
   * A run in which a live node is recovered: its container is listed, and it is reported up; then one listing
   * fails, it is still reported up, and its container is stopped.
   */
  lemma FailedListingStopsLiveNode(name: string, queues: Option<seq<ClusterQueue>>, env: Cluster)
    requires HasPrefix(name, "rabbit-recover") && '@' !in name
    ensures var x := "rabbit@" + name;
      var up := Some([Node(x, true)]);
      var s := Turns(MonitorState(EMPTY_BOOK, []), [Poll(Some(["/" + name]), up, None)], env);
      var s' := Turns(s, [Poll(None, up, queues)], env);
      && LastReportedUp(up.value, x) && s.book == EMPTY_BOOK && x !in s.book.forgotten
      && x in s'.book.forgotten && Stopped(name) in s'.book.log
  {
    var x := "rabbit@" + name;
    var nodes := [Node(x, true)];
    var s0 := MonitorState(EMPTY_BOOK, []);
    var p1, p2 := Poll(Some(["/" + name]), Some(nodes), None), Poll(None, Some(nodes), queues);
    assert LastReportedUp(nodes, x) by { assert nodes[0] == Node(x, true); }
    FirstPollQuiet(name, env);
    var s1 := MonitorState(EMPTY_BOOK, [x]);
    TurnsOne(s0, p1, env);
    TurnsOne(s1, p2, env);
    ForgottenIsStopped(name, queues, env);
    hide *;
  }

  lemma PrefixInside(name: string)
    requires HasPrefix(name, "rabbit-recover")
    ensures HasPrefix("/" + name, "/rabbit") && HasPrefix("rabbit@" + name, "rabbit@rabbit-recover") && name != ""
  {
    assert name[..14] == "rabbit-recover";
    assert ("/" + name)[..7] == "/" + name[..6] == "/rabbit" by { assert name[..6] == name[..14][..6]; }
    assert ("rabbit@" + name)[..21] == "rabbit@" + name[..14];
  }

  lemma ExpectedOne(container: string)
    requires HasPrefix(container, "/rabbit")
    ensures Expected([container]) == ["rabbit@" + container[1..]]
  {
    assert [container][..0] == [];
  }

  lemma QuietNode(x: string)
    ensures Down([Node(x, true)]) == [] && Dead([x], LiveMap([Node(x, true)])) == []
  {
    var nodes := [Node(x, true)];
    assert nodes[..0] == [];
    assert IsLive(LiveMap(nodes), x);
    DeadOne(x, LiveMap(nodes));
  }

  /** The first poll lists the node, finds it up, and does nothing. */
  lemma FirstPollQuiet(name: string, env: Cluster)
    requires HasPrefix(name, "rabbit-recover")
    ensures var x := "rabbit@" + name;
      Turn(MonitorState(EMPTY_BOOK, []), Poll(Some(["/" + name]), Some([Node(x, true)]), None), env) ==
      MonitorState(EMPTY_BOOK, [x])
  {
    var x := "rabbit@" + name;
    PrefixInside(name);
    assert ("/" + name)[1..] == name;
    ExpectedOne("/" + name);
    QuietNode(x);
    hide Down, Dead, LiveMap, Expected, HasPrefix;
    TriggerNone(EMPTY_BOOK, env);
  }

  /** The second poll finds no containers, takes the node for gone, and stops its container. */
  lemma ForgottenIsStopped(name: string, queues: Option<seq<ClusterQueue>>, env: Cluster)
    requires HasPrefix(name, "rabbit-recover") && '@' !in name
    ensures var x := "rabbit@" + name;
      var b := Turn(MonitorState(EMPTY_BOOK, [x]), Poll(None, Some([Node(x, true)]), queues), env).book;
      x in b.forgotten && Stopped(name) in b.log
  {
    var x := "rabbit@" + name;
    var nodes := [Node(x, true)];
    PrefixInside(name);
    QuietNode(x);
    assert [x][..0] == [] && x !in [];
    assert Vanished([x], []) == [x];
    var rest := if queues == None then [] else QueuesDead(queues.value, LiveMap(nodes));
    assert PollTriggers([], [x], Some(nodes), queues) == [x] + rest;
    hide Down, Dead, LiveMap, Vanished, QueuesDead, HasPrefix, PollTriggers, TriggerAll;
    FirstStopped(name, env);
    TriggerAllConcat(EMPTY_BOOK, [x], rest, env);
    var b := TriggerAll(EMPTY_BOOK, [x], env);
    TriggersKeepBook(b, rest, env);
    assert b.log[0] == TriggerAll(b, rest, env).log[0];
  }

  lemma FirstStopped(name: string, env: Cluster)
    requires name != "" && '@' !in name
    ensures var x := "rabbit@" + name;
      var b := TriggerAll(EMPTY_BOOK, [x], env);
      BookOk(b, env) && x in b.forgotten && b.log != [] && b.log[0] == Stopped(name)
  {
    var x := "rabbit@" + name;
    assert x == "rabbit" + "@" + name;
    ExtractExact("rabbit", name);
    RecoveryStops(x, name, env);
    EmptyOk(env);
    TriggersKeepBook(EMPTY_BOOK, [x], env);
    hide BookOk, ExtractContainer, RecoveryLog, Forgets, TriggerAll;
    assert [x] == [] + [x];
    TriggerOne(EMPTY_BOOK, [], x, env);
    TriggerNone(EMPTY_BOOK, env);
  }

  lemma RecoveryStops(x: string, name: string, env: Cluster)
    requires ExtractContainer(x) == name != ""
    ensures RecoveryLog(x, env) != [] && RecoveryLog(x, env)[0] == Stopped(name)
  {
    hide ExtractContainer, BackoffLog, Forgets;
  }

  lemma EmptyOk(env: Cluster)
    ensures BookOk(EMPTY_BOOK, env)
  {
    assert Refused(EMPTY_BOOK, env) == {};
  }

  lemma TurnsOne(s: MonitorState, p: Poll, env: Cluster)
    ensures Turns(s, [p], env) == Turn(s, p, env)
  {
    hide Turn;
    assert [p][1..] == [];
    assert Turns(Turn(s, p, env), [], env) == Turn(s, p, env);
  }

  lemma RecoverOnceFromStart(ps: seq<Poll>, env: Cluster)
    ensures BookOk(Turns(MonitorState(EMPTY_BOOK, []), ps, env).book, env)
  {
    EmptyOk(env);
    RecoverOnce(MonitorState(EMPTY_BOOK, []), ps, env);
  }

  // ---- the back-off ----------------------------------------------------------------------------

  function Pow2(n: nat): nat {
    if n == 0 then 1 else 2 * Pow2(n - 1)
  }

  function SleepIn(log: seq<Effect>): int {
    if log == [] then 0 else (if log[0].Slept? then log[0].ms else 0) + SleepIn(log[1..])
  }

  function TriesIn(log: seq<Effect>): nat {
    if log == [] then 0 else (if log[0].ForgetTried? then 1 else 0) + TriesIn(log[1..])
  }

  /** The first try that succeeds ends the loop; without one it makes all m tries. */
  lemma {:induction false} LastTryExact(node: string, env: Cluster, m: int, i: int)
    requires i <= m
    ensures var t := LastTry(node, env, m, i);
      i <= t <= m && (forall j :: i <= j < t ==> !env.forgets(node, j)) && (env.forgets(node, t) || t == m)
    decreases m - i
  {
    if !env.forgets(node, i) && i < m {
      LastTryExact(node, env, m, i + 1);
    }
  }

  lemma SleptFirst(node: string, env: Cluster, m: int, i: int, backoff: int)
    requires !env.forgets(node, i) && i < m
    ensures var log, rest := BackoffLog(node, env, m, i, backoff), BackoffLog(node, env, m, i + 1, 2 * backoff);
      && TriesIn(log) == 1 + TriesIn(rest)
      && SleepIn(log) == backoff + env.jitter(node, i) + SleepIn(rest)
  {
    var rest := BackoffLog(node, env, m, i + 1, 2 * backoff);
    assert BackoffLog(node, env, m, i, backoff) ==
           [ForgetTried(node, i, false), Slept(backoff + env.jitter(node, i))] + rest;
    hide BackoffLog, TriesIn, SleepIn;
    LogCounts(i, node, backoff + env.jitter(node, i), rest);
  }

  lemma LogCounts(i: int, node: string, ms: int, rest: seq<Effect>)
    ensures var log := [ForgetTried(node, i, false), Slept(ms)] + rest;
      TriesIn(log) == 1 + TriesIn(rest) && SleepIn(log) == ms + SleepIn(rest)
  {
    var log := [ForgetTried(node, i, false), Slept(ms)] + rest;
    assert log[1..] == [Slept(ms)] + rest;
    assert log[1..][1..] == rest;
  }

  lemma LastLog(node: string, env: Cluster, m: int, i: int, backoff: int)
    requires env.forgets(node, i) || i >= m
    ensures TriesIn(BackoffLog(node, env, m, i, backoff)) == 1 && SleepIn(BackoffLog(node, env, m, i, backoff)) == 0
  {
    assert BackoffLog(node, env, m, i, backoff)[1..] == [];
  }

  /** From try i on, with the back-off at 2^(i-1) seconds: the tries, and the sleep between them. */
  lemma {:induction false} BackoffFrom(node: string, env: Cluster, m: int, i: int)
    requires 1 <= i <= m
    requires forall j :: 0 <= env.jitter(node, j) < 500
    ensures var log := BackoffLog(node, env, m, i, 1000 * Pow2(i - 1));
      var t := LastTry(node, env, m, i);
      && i <= t <= m
      && TriesIn(log) == 1 + t - i
      && 1000 * (Pow2(t - 1) - Pow2(i - 1)) <= SleepIn(log) <= 1000 * (Pow2(t - 1) - Pow2(i - 1)) + 499 * (t - i)
    decreases m - i
  {
    hide BackoffLog, TriesIn, SleepIn;
    if env.forgets(node, i) || i >= m {
      LastLog(node, env, m, i, 1000 * Pow2(i - 1));
    } else {
      BackoffFrom(node, env, m, i + 1);
      assert Pow2(i) == 2 * Pow2(i - 1);
      SleptFirst(node, env, m, i, 1000 * Pow2(i - 1));
      hide LastTry, Pow2;
    }
  }

  /**
   * For every pattern of failures and all jitters in [0, 500) ms, the loop over m tries makes t <= m of them,
   * t being the first success or m, and sleeps at least 2^(t-1) - 1 seconds and at most 499 ms more per sleep.
   */
  lemma BackoffBound(node: string, env: Cluster, m: int)
    requires m >= 1 && forall j :: 0 <= env.jitter(node, j) < 500
    ensures var log := BackoffLog(node, env, m, 1, 1000);
      var t := LastTry(node, env, m, 1);
      && 1 <= t <= m && (forall j :: 1 <= j < t ==> !env.forgets(node, j)) && (env.forgets(node, t) || t == m)
      && TriesIn(log) == t
      && 1000 * (Pow2(t - 1) - 1) <= SleepIn(log) <= 1000 * (Pow2(t - 1) - 1) + 499 * (t - 1)
  {
    LastTryExact(node, env, m, 1);
    BackoffFrom(node, env, m, 1);
  }

  /** With the source's five tries, a node that cannot be forgotten costs between 15 and 17 seconds of sleep. */
  lemma FiveFailures(node: string, env: Cluster)
    requires (forall j :: 0 <= env.jitter(node, j) < 500) && forall j :: 1 <= j <= 5 ==> !env.forgets(node, j)
    ensures var log := BackoffLog(node, env, MAX_RETRIES, 1, 1000);
      TriesIn(log) == 5 && 15_000 <= SleepIn(log) < 17_000
  {
    BackoffBound(node, env, MAX_RETRIES);
    assert Pow2(4) == 2 * Pow2(3) && Pow2(3) == 2 * Pow2(2) && Pow2(2) == 2 * Pow2(1) && Pow2(1) == 2 * Pow2(0);
  }

  // ---- one recovery, effect by effect ------------------------------------------------------------

  /** t is the try the loop over m tries ends with: the first that succeeds, or the last. */
  ghost predicate EndsAt(node: string, env: Cluster, m: int, t: int) {
    1 <= t <= m && (forall j :: 1 <= j < t ==> !env.forgets(node, j)) && (env.forgets(node, t) || t == m)
  }

  /** The tries from i to t, and after each but the last its doubled back-off with jitter. */
  ghost predicate Tries(log: seq<Effect>, node: string, env: Cluster, i: int, t: int)
    requires 1 <= i <= t
  {
    && |log| == 2 * (t - i) + 1
    && (forall j :: i <= j <= t ==> log[2 * (j - i)] == ForgetTried(node, j, env.forgets(node, j)))
    && (forall j :: i <= j < t ==> log[2 * (j - i) + 1] == Slept(1000 * Pow2(j - 1) + env.jitter(node, j)))
  }

  lemma TriesOneMore(rest: seq<Effect>, node: string, env: Cluster, i: int, t: int)
    requires 1 <= i < t && Tries(rest, node, env, i + 1, t)
    ensures Tries([ForgetTried(node, i, env.forgets(node, i)), Slept(1000 * Pow2(i - 1) + env.jitter(node, i))] + rest,
                  node, env, i, t)
  {
    hide Pow2;
    var log := [ForgetTried(node, i, env.forgets(node, i)), Slept(1000 * Pow2(i - 1) + env.jitter(node, i))] + rest;
    forall j | i <= j <= t ensures log[2 * (j - i)] == ForgetTried(node, j, env.forgets(node, j)) {
      if j > i { assert log[2 * (j - i)] == rest[2 * (j - (i + 1))]; }
    }
    forall j | i <= j < t ensures log[2 * (j - i) + 1] == Slept(1000 * Pow2(j - 1) + env.jitter(node, j)) {
      if j > i { assert log[2 * (j - i) + 1] == rest[2 * (j - (i + 1)) + 1]; }
    }
  }

  lemma {:induction false} BackoffExact(node: string, env: Cluster, m: int, t: int, i: int)
    requires EndsAt(node, env, m, t) && 1 <= i <= t
    ensures Tries(BackoffLog(node, env, m, i, 1000 * Pow2(i - 1)), node, env, i, t)
    decreases t - i
  {
    if i < t {
      assert Pow2(i) == 2 * Pow2(i - 1);
      BackoffExact(node, env, m, t, i + 1);
      hide Tries, Pow2;
      TriesOneMore(BackoffLog(node, env, m, i + 1, 1000 * Pow2(i)), node, env, i, t);
    }
  }

  /** A recovery forgets its node iff one of its tries succeeds: of five, or of the one it makes without a container. */
  lemma ForgetsIff(node: string, env: Cluster)
    ensures Forgets(node, env) <==>
      exists i :: 1 <= i <= (if ExtractContainer(node) == "" then 1 else 5) && env.forgets(node, i)
  {
    hide ExtractContainer;
    LastTryExact(node, env, MAX_RETRIES, 1);
  }

  /** All that the recovery of a node with a container does, and its order. */
  lemma RecoveryExact(host: string, container: string, env: Cluster, t: int)
    requires '@' !in host && '@' !in container && container != ""
    requires EndsAt(host + "@" + container, env, 5, t)
    ensures var node := host + "@" + container;
      var log := RecoveryLog(node, env);
      && |log| == 2 * t + (if env.forgets(node, t) then 3 else 1)
      && log[0] == Stopped(container)
      && Tries(log[1..2 * t], node, env, 1, t)
      && (env.forgets(node, t) ==>
            log[2 * t] == ContainerRemoved(container) && log[2 * t + 1] == VolumeRemoved(container + "-data"))
      && log[|log| - 1] == Spawned(node, env.replacement(node))
  {
    var node := host + "@" + container;
    ExtractExact(host, container);
    BackoffExact(node, env, 5, t, 1);
    ForgetsAtEnd(node, env, t);
    assert Pow2(0) == 1;
    var log, tries := RecoveryLog(node, env), BackoffLog(node, env, MAX_RETRIES, 1, 1000);
    assert log == [Stopped(container)] + tries +
      (if env.forgets(node, t) then [ContainerRemoved(container), VolumeRemoved(container + "-data")] else []) +
      [Spawned(node, env.replacement(node))];
    assert |tries| == 2 * t - 1;
    hide RecoveryLog, BackoffLog, EndsAt, Pow2, Tries;
    assert log[1..2 * t] == tries;
  }

  lemma ForgetsAtEnd(node: string, env: Cluster, t: int)
    requires EndsAt(node, env, 5, t) && ExtractContainer(node) != ""
    ensures Forgets(node, env) == env.forgets(node, t)
  {
    hide ExtractContainer;
    LastTryExact(node, env, MAX_RETRIES, 1);
  }

  /** A node without a container is tried once, and replaced all the same. */
  lemma UnnamedExact(node: string, env: Cluster)
    requires ExtractContainer(node) == ""
    ensures RecoveryLog(node, env) ==
            [ForgetTried(node, 1, env.forgets(node, 1)), Spawned(node, env.replacement(node))]
  {
  }

  // ---- removal only after a successful forget ---------------------------------------------------

  /** Every container removal directly follows a successful attempt to forget a node of that container. */
  ghost predicate RemovesSafely(log: seq<Effect>) {
    forall i :: 0 <= i < |log| && log[i].ContainerRemoved? ==>
      i > 0 && log[i - 1].ForgetTried? && log[i - 1].ok && ExtractContainer(log[i - 1].node) == log[i].container
  }

  lemma RecoveryRemovesSafely(node: string, env: Cluster)
    ensures RemovesSafely(RecoveryLog(node, env)) && RecoveryLog(node, env) != [] &&
            !RecoveryLog(node, env)[0].ContainerRemoved?
  {
    hide BackoffLog, LastTry, ExtractContainer;
    BackoffEnd(node, env, MAX_RETRIES, 1, 1000);
  }

  lemma {:induction false} RecoveriesRemoveSafely(nodes: seq<string>, env: Cluster)
    ensures RemovesSafely(Recoveries(nodes, env))
  {
    hide RecoveryLog;
    if nodes != [] {
      var n := |nodes| - 1;
      RecoveriesRemoveSafely(nodes[..n], env);
      RecoveryRemovesSafely(nodes[n], env);
      var a, b := Recoveries(nodes[..n], env), RecoveryLog(nodes[n], env);
      var all: seq<Effect> := a + b;
      forall i | 0 <= i < |all| && all[i].ContainerRemoved?
        ensures i > 0 && all[i - 1].ForgetTried? && all[i - 1].ok &&
                ExtractContainer(all[i - 1].node) == all[i].container
      {
        if i >= |a| {
          assert b[i - |a|].ContainerRemoved?;
          assert all[i - 1] == b[i - |a| - 1];
        } else {
          assert a[i].ContainerRemoved?;
        }
      }
    }
  }

  /** Over any run, a container is removed only right after its node was successfully forgotten. */
  lemma RunRemovesSafely(ps: seq<Poll>, env: Cluster)
    ensures RemovesSafely(Turns(MonitorState(EMPTY_BOOK, []), ps, env).book.log)
  {
    hide Turns, RemovesSafely;
    RecoverOnceFromStart(ps, env);
    RecoveriesRemoveSafely(Spawns(Turns(MonitorState(EMPTY_BOOK, []), ps, env).book.log), env);
  }

  /** Some try of the recovery of x, a node of the container, succeeds. */
  ghost predicate Forgettable(x: string, container: string, env: Cluster) {
    ExtractContainer(x) == container && exists i :: 1 <= i <= 5 && env.forgets(x, i)
  }

  lemma {:induction false} InRecoveries(nodes: seq<string>, env: Cluster, e: Effect)
    ensures e in Recoveries(nodes, env) <==> exists x :: x in nodes && e in RecoveryLog(x, env)
  {
    hide RecoveryLog;
    if nodes != [] {
      var n := |nodes| - 1;
      InRecoveries(nodes[..n], env, e);
      assert nodes == nodes[..n] + [nodes[n]];
    }
  }

  lemma NoRemovalInBackoff(node: string, env: Cluster, e: Effect)
    requires e.ContainerRemoved? || e.VolumeRemoved?
    ensures e !in BackoffLog(node, env, MAX_RETRIES, 1, 1000)
  {
    BackoffEnd(node, env, MAX_RETRIES, 1, 1000);
  }

  lemma SameContainer(a: string, b: string)
    requires a + "-data" == b + "-data"
    ensures a == b
  {
    assert a == (a + "-data")[..|a + "-data"| - 5];
    assert b == (b + "-data")[..|b + "-data"| - 5];
  }

  lemma RecoveryRemovesIff(x: string, container: string, env: Cluster)
    requires container != ""
    ensures ContainerRemoved(container) in RecoveryLog(x, env) <==> Forgettable(x, container, env)
    ensures VolumeRemoved(container + "-data") in RecoveryLog(x, env) <==> Forgettable(x, container, env)
  {
    ForgetsIff(x, env);
    NoRemovalInBackoff(x, env, ContainerRemoved(container));
    NoRemovalInBackoff(x, env, VolumeRemoved(container + "-data"));
    hide ExtractContainer, BackoffLog, Forgets;
    if VolumeRemoved(container + "-data") in RecoveryLog(x, env) {
      SameContainer(container, ExtractContainer(x));
    }
  }

  /**
   * Over every run: a container and its volume are removed iff a node of that container was recovered and one of the
   * five tries to forget it succeeded.
   */
  lemma RunRemovesIff(ps: seq<Poll>, env: Cluster, container: string)
    requires container != ""
    ensures var b := Turns(MonitorState(EMPTY_BOOK, []), ps, env).book;
      && (ContainerRemoved(container) in b.log <==> exists x :: x in b.forgotten && Forgettable(x, container, env))
      && (VolumeRemoved(container + "-data") in b.log <==>
            exists x :: x in b.forgotten && Forgettable(x, container, env))
  {
    var b := Turns(MonitorState(EMPTY_BOOK, []), ps, env).book;
    RecoverOnceFromStart(ps, env);
    hide Turns, Forgettable;
    InRecoveries(Spawns(b.log), env, ContainerRemoved(container));
    InRecoveries(Spawns(b.log), env, VolumeRemoved(container + "-data"));
    hide Recoveries, RecoveryLog, Refused, NoDuplicates;
    forall x
      ensures ContainerRemoved(container) in RecoveryLog(x, env) <==> Forgettable(x, container, env)
      ensures VolumeRemoved(container + "-data") in RecoveryLog(x, env) <==> Forgettable(x, container, env)
    {
      RecoveryRemovesIff(x, container, env);
    }
  }
}
