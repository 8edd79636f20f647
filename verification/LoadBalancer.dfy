/** load_balancer.go: the ticket counter, the backend list, and the retry loop of the proxy. */
module LoadBalancer {
  import opened Common

  /** The counter is a uint64. */
  const WRAP := 0x1_0000_0000_0000_0000

  /** The k-th ticket drawn after the counter stood at c. */
  function Ticket(c: nat, k: nat): nat {
    (c + k) % WRAP
  }

  /** A draw adds one, up to the largest uint64, after which the counter starts over. */
  lemma TicketExact(c: nat, k: nat)
    requires c <= 18446744073709551615
    ensures c + k <= 18446744073709551615 ==> Ticket(c, k) == c + k
    ensures c < 18446744073709551615 ==> Ticket(c, 1) == c + 1
    ensures Ticket(18446744073709551615, 1) == 0
  {
  }

  /** The elements that pass, in their order. */
  function Healthy(s: seq<string>, passes: string -> bool): seq<string> {
    if s == [] then []
    else
      var n := |s| - 1;
      Healthy(s[..n], passes) + if passes(s[n]) then [s[n]] else []
  }

  datatype Registration = MissingAddress | AlreadyRegistered | Registered

  datatype Response = NoGateways | UnreadableBody | Forwarded(target: string) | AllUnhealthy

  class Balancer {
    var backends: seq<string>
    var current: nat

    constructor ()
      ensures Valid() && backends == [] && current == 0
    {
      backends, current := [], 0;
    }

    ghost predicate Valid()
      reads this
    {
      current < WRAP && |backends| < WRAP && NoDuplicates(backends) && "" !in backends
    }

    /** An atomic increment picks the next backend; an empty list costs no ticket. */
    method GetNextBackend() returns (target: string)
      requires Valid()
      modifies this`current
      ensures Valid()
      ensures if backends == [] then target == "" && current == old(current)
              else current == (if old(current) == 18446744073709551615 then 0 else old(current) + 1) &&
                   current == Ticket(old(current), 1) && target == backends[current % |backends|]
    {
      if |backends| == 0 { return ""; }
      current := (current + 1) % WRAP;
      target := backends[current % |backends|];
    }

    /** Every address is listed at most once. The bound on the list is the machine's memory, not the source's. */
    method Register(address: string) returns (r: Registration)
      requires Valid() && |backends| + 1 < WRAP
      modifies this`backends
      ensures Valid()
      ensures r == if address == "" then MissingAddress
                   else if address in old(backends) then AlreadyRegistered else Registered
      ensures backends == if r == Registered then old(backends) + [address] else old(backends)
    {
      if address == "" { return MissingAddress; }
      for i := 0 to |backends|
        invariant address !in backends[..i]
      {
        if backends[i] == address { return AlreadyRegistered; }
      }
      assert backends[..|backends|] == backends;
      backends := backends + [address];
      return Registered;
    }

    /** One round of pruning under the write lock. */
    method Prune(healthCheck: string -> bool)
      requires Valid()
      modifies this`backends
      ensures Valid()
      ensures backends == Healthy(old(backends), healthCheck)
    {
      var newBackends: seq<string> := [];
      for i := 0 to |backends|
        invariant newBackends == Healthy(backends[..i], healthCheck)
      {
        assert backends[..i + 1][..i] == backends[..i];
        if healthCheck(backends[i]) {
          newBackends := newBackends + [backends[i]];
        }
      }
      assert backends[..|backends|] == backends;
      HealthyKeeps(backends, healthCheck);
      backends := newBackends;
    }

    /** Other requests, whose read locks do not exclude this one's, draw tickets. */
    method DrawByOthers(count: nat)
      requires Valid()
      modifies this`current
      ensures Valid() && current == Ticket(old(current), count)
    {
      current := (current + count) % WRAP;
    }

    /**
     * proxyHandler, among any other requests: draws[k] is the position of its (k + 1)st own draw in the order of
     * all draws after it took its read lock. usable says whether a backend passes its health check and takes the
     * forwarded request, bodyOk whether the request body can be read.
     */
    method Proxy(usable: string -> bool, bodyOk: bool, draws: seq<nat>) returns (r: Response)
      requires Valid() && Positions(draws, |backends|)
      modifies this`current
      ensures Valid()
      ensures if backends == [] then r == NoGateways && current == old(current)
              else if !bodyOk then r == UnreadableBody && current == old(current)
              else Served(backends, draws, old(current), usable, r, current)
    {
      hide Ticket;
      if |backends| == 0 { return NoGateways; }
      if !bodyOk { return UnreadableBody; }
      ghost var c := current;
      ghost var seen := Visited(backends, c, draws);
      var maxRetries := |backends|;
      var drawn := 0;
      TicketZero(c);
      for retries := 0 to maxRetries
        invariant Valid() && current == Ticket(c, drawn)
        invariant drawn == if retries == 0 then 0 else draws[retries - 1]
        invariant forall j :: 0 <= j < retries ==> !usable(seen[j])
      {
        DrawByOthers(draws[retries] - 1 - drawn);
        TicketSum(c, drawn, draws[retries] - 1 - drawn);
        var target := GetNextBackend();
        TicketSum(c, draws[retries] - 1, 1);
        drawn := draws[retries];
        assert target == seen[retries] && target in backends;
        if target == "" || !usable(target) { continue; }
        assert FirstUsable(seen, usable, retries);
        return Forwarded(target);
      }
      return AllUnhealthy;
    }
  }

  lemma TicketZero(c: nat)
    requires c < WRAP
    ensures Ticket(c, 0) == c
  {
  }

  lemma TicketSum(c: nat, a: nat, b: nat)
    ensures Ticket(Ticket(c, a), b) == Ticket(c, a + b) < WRAP
  {
  }

  // ---- what a request is served ------------------------------------------------------------

  /** The draws of one request, n at most, as increasing positions in the order of all draws. */
  predicate Positions(draws: seq<nat>, n: nat) {
    |draws| == n && (forall k :: 0 <= k < n ==> draws[k] >= 1) && forall j, k :: 0 <= j < k < n ==> draws[j] < draws[k]
  }

  /** The targets of the tickets of a request, in order, the counter having stood at c. */
  function Visited(backends: seq<string>, c: nat, draws: seq<nat>): (seen: seq<string>)
    requires backends != []
    ensures |seen| == |draws|
  {
    seq(|draws|, k requires 0 <= k < |draws| => backends[Ticket(c, draws[k]) % |backends|])
  }

  /** The k-th element is the first usable one. */
  predicate FirstUsable(s: seq<string>, usable: string -> bool, k: nat) {
    k < |s| && usable(s[k]) && forall j :: 0 <= j < k ==> !usable(s[j])
  }

  /** The request is forwarded to the first usable target it visits, or refused if it visits none. */
  ghost predicate Served(backends: seq<string>, draws: seq<nat>, c: nat, usable: string -> bool,
                         r: Response, after: nat)
    requires backends != [] && |draws| == |backends|
  {
    var seen := Visited(backends, c, draws);
    match r
    case Forwarded(target) =>
      exists k: nat :: FirstUsable(seen, usable, k) && target == seen[k] && after == Ticket(c, draws[k])
    case AllUnhealthy => (forall t :: t in seen ==> !usable(t)) && after == Ticket(c, draws[|draws| - 1])
    case _ => false
  }

  // ---- pruning ---------------------------------------------------------------------------

  /** Pruning keeps exactly the healthy backends, keeps their order, and introduces no duplicate. */
  lemma {:induction false} HealthyKeeps(s: seq<string>, passes: string -> bool)
    ensures forall x :: x in Healthy(s, passes) <==> x in s && passes(x)
    ensures |Healthy(s, passes)| <= |s|
    ensures NoDuplicates(s) ==> NoDuplicates(Healthy(s, passes))
  {
    if s != [] {
      var n := |s| - 1;
      HealthyKeeps(s[..n], passes);
      assert s == s[..n] + [s[n]];
      if NoDuplicates(s) {
        assert s[n] !in s[..n];
      }
    }
  }

  /** idx embeds t into s: same elements, in the same order. */
  ghost predicate Embeds(t: seq<string>, s: seq<string>, idx: seq<nat>) {
    && |idx| == |t|
    && (forall k :: 0 <= k < |t| ==> idx[k] < |s| && s[idx[k]] == t[k])
    && (forall k, l :: 0 <= k < l < |t| ==> idx[k] < idx[l])
  }

  lemma {:induction false} HealthyInOrder(s: seq<string>, passes: string -> bool) returns (idx: seq<nat>)
    ensures Embeds(Healthy(s, passes), s, idx)
  {
    if s == [] {
      idx := [];
    } else {
      var n := |s| - 1;
      idx := HealthyInOrder(s[..n], passes);
      assert forall i :: 0 <= i < n ==> s[..n][i] == s[i];
      if passes(s[n]) { idx := idx + [n]; }
    }
  }

  // ---- coverage --------------------------------------------------------------------------

  /** One of the tickets of a request stands for backend i of n. */
  ghost predicate Reaches(c: nat, draws: seq<nat>, n: nat, i: int)
    requires n > 0
  {
    exists k :: 0 <= k < |draws| && Ticket(c, draws[k]) % n == i
  }

  ghost predicate Covers(c: nat, draws: seq<nat>, n: nat)
    requires n > 0
  {
    forall i :: 0 <= i < n ==> Reaches(c, draws, n, i)
  }

  /** No two tickets of a request stand for the same backend. */
  ghost predicate NoCollision(c: nat, draws: seq<nat>, n: nat)
    requires n > 0
  {
    forall j, k :: 0 <= j < k < |draws| ==> Ticket(c, draws[j]) % n != Ticket(c, draws[k]) % n
  }

  function Residues(c: nat, draws: seq<nat>, n: nat): (rs: seq<nat>)
    requires n > 0
    ensures |rs| == |draws|
  {
    seq(|draws|, k requires 0 <= k < |draws| => Ticket(c, draws[k]) % n)
  }

  ghost function Elements(s: seq<nat>): set<nat> {
    set x | x in s
  }

  lemma NoDuplicatesStep(s: seq<nat>, x: nat)
    ensures NoDuplicates(s + [x]) <==> NoDuplicates(s) && x !in s
  {
    var all := s + [x];
    if NoDuplicates(all) {
      forall i, j | 0 <= i < j < |s| ensures s[i] != s[j] { assert all[i] != all[j]; }
      forall i | 0 <= i < |s| ensures s[i] != x { assert all[i] != all[|s|]; }
    }
  }

  lemma {:induction false} ElementsSize(s: seq<nat>)
    ensures |Elements(s)| <= |s| && (|Elements(s)| == |s| <==> NoDuplicates(s))
  {
    if s != [] {
      var front, last := s[..|s| - 1], s[|s| - 1];
      ElementsSize(front);
      assert s == front + [last];
      assert Elements(s) == Elements(front) + {last};
      NoDuplicatesStep(front, last);
      hide NoDuplicates;
    }
  }

  /** n numbers below n are all different iff every number below n is among them. */
  lemma Pigeonhole(s: seq<nat>, n: nat)
    requires |s| == n && forall x :: x in s ==> x < n
    ensures NoDuplicates(s) <==> forall i: nat :: i < n ==> i in s
  {
    ElementsSize(s);
    var all: set<nat> := Range(n);
    assert Elements(s) <= all;
    if NoDuplicates(s) {
      assert all == Elements(s) + (all - Elements(s));
      assert |all - Elements(s)| == 0;
      forall i: nat | i < n ensures i in s {
        assert i in all && i !in all - Elements(s);
      }
    }
    if forall i: nat :: i < n ==> i in s {
      assert all <= Elements(s);
      SubsetSize(all, Elements(s));
    }
  }

  /**
   * A request reaches every backend iff no two of its own tickets are congruent modulo the number of backends,
   * whatever other requests draw in between and wherever the 64-bit counter wraps.
   */
  lemma CoverageIff(c: nat, draws: seq<nat>, n: nat)
    requires |draws| == n > 0
    ensures Covers(c, draws, n) <==> NoCollision(c, draws, n)
  {
    hide Ticket, Covers;
    Pigeonhole(Residues(c, draws, n), n);
    ResiduesDiffer(c, draws, n);
    ResiduesReach(c, draws, n);
  }

  lemma ResiduesDiffer(c: nat, draws: seq<nat>, n: nat)
    requires n > 0
    ensures NoDuplicates(Residues(c, draws, n)) <==> NoCollision(c, draws, n)
  {
    hide Ticket;
    var rs := Residues(c, draws, n);
    assert forall k :: 0 <= k < |draws| ==> rs[k] == Ticket(c, draws[k]) % n;
    if NoDuplicates(rs) {
      forall j, k | 0 <= j < k < |draws| ensures Ticket(c, draws[j]) % n != Ticket(c, draws[k]) % n {
        assert rs[j] != rs[k];
      }
    }
  }

  lemma ResiduesReach(c: nat, draws: seq<nat>, n: nat)
    requires n > 0
    ensures (forall i: nat :: i < n ==> i in Residues(c, draws, n)) <==> Covers(c, draws, n)
  {
    hide Ticket;
    var rs := Residues(c, draws, n);
    forall i: nat | i < n ensures i in rs <==> Reaches(c, draws, n, i) {
      if i in rs {
        var k :| 0 <= k < |rs| && rs[k] == i;
        assert Ticket(c, draws[k]) % n == i;
      }
      if Reaches(c, draws, n, i) {
        var k :| 0 <= k < |draws| && Ticket(c, draws[k]) % n == i;
        assert rs[k] == i;
      }
    }
  }

  /** As long as the counter does not wrap, two draws collide iff n divides the number of draws between them. */
  lemma CollisionIff(c: nat, draws: seq<nat>, n: nat, j: nat, k: nat)
    requires n > 0 && j < k < |draws| && draws[j] <= draws[k] && c + draws[k] < WRAP
    ensures Ticket(c, draws[j]) % n == Ticket(c, draws[k]) % n <==> (draws[k] - draws[j]) % n == 0
  {
    var x, d := c + draws[j], draws[k] - draws[j];
    assert Ticket(c, draws[j]) == x && Ticket(c, draws[k]) == x + d;
    hide *;
    SameRemainder(x, d, n);
  }

  lemma SameRemainder(x: nat, d: nat, n: nat)
    requires n > 0
    ensures x % n == (x + d) % n <==> d % n == 0
  {
    var q, j := d / n, d % n;
    assert d == q * n + j;
    AddMultiple(x + j, q, n);
    RemainderAfter(x, n, j);
  }

  lemma AddMultiple(y: nat, q: nat, n: nat)
    requires n > 0
    ensures (y + q * n) % n == y % n
  {
    var p, r := y / n, y % n;
    assert y == p * n + r;
    assert y + q * n == (p + q) * n + r;
    DivOfSum(p + q, n, r);
  }

  // ---- requests that nobody disturbs -------------------------------------------------------

  /** The draws of a request that no other request interrupts. */
  function Undisturbed(n: nat): (draws: seq<nat>)
    ensures Positions(draws, n)
  {
    seq(n, k requires 0 <= k < n => k + 1)
  }

  /** What can be checked before the request: the counter does not wrap among its tickets. */
  predicate NoWrapInside(c: nat, n: nat) {
    c + n < WRAP || c + 1 == WRAP
  }

  lemma SmallMultiple(k: int, n: int)
    requires n >= 0 && -n < k * n < n
    ensures k == 0
  {
  }

  /** Quotient and remainder are unique. */
  lemma DivOfSum(q: int, n: int, x: int)
    requires 0 <= x < n
    ensures (q * n + x) / n == q && (q * n + x) % n == x
  {
    var y := q * n + x;
    assert y == y / n * n + y % n;
    assert (y / n - q) * n == x - y % n;
    SmallMultiple(y / n - q, n);
  }

  /** A run of n consecutive numbers meets every residue. */
  lemma Consecutive(start: nat, n: nat, i: int) returns (t: nat)
    requires 0 <= i < n
    ensures start <= t < start + n && t % n == i
  {
    var q, r := start / n, start % n;
    assert start == q * n + r;
    if i >= r {
      t := start + (i - r);
      assert t == q * n + i;
      DivOfSum(q, n, i);
    } else {
      t := start + (n + i - r);
      assert t == (q + 1) * n + i;
      DivOfSum(q + 1, n, i);
    }
  }

  lemma ModOfWrap(t: nat, n: nat)
    requires n > 0 && WRAP % n == 0 && t < 2 * WRAP
    ensures t % WRAP % n == t % n
  {
    if t >= WRAP {
      assert t % WRAP == t - WRAP;
      var m := WRAP / n;
      assert WRAP == m * n;
      assert t == (m + (t - WRAP) / n) * n + (t - WRAP) % n;
      DivOfSum(m + (t - WRAP) / n, n, (t - WRAP) % n);
    }
  }

  lemma CoversWhen(c: nat, n: nat)
    requires c < WRAP && 0 < n <= WRAP && (NoWrapInside(c, n) || WRAP % n == 0)
    ensures Covers(c, Undisturbed(n), n)
  {
    forall i | 0 <= i < n ensures Reaches(c, Undisturbed(n), n, i) {
      var k := ReachedAt(c, n, i);
      assert Undisturbed(n)[k - 1] == k;
    }
  }

  lemma ReachedAt(c: nat, n: nat, i: nat) returns (k: nat)
    requires c < WRAP && i < n <= WRAP && (NoWrapInside(c, n) || WRAP % n == 0)
    ensures 1 <= k <= n && Ticket(c, k) % n == i
  {
    if c + 1 == WRAP {
      var t := Consecutive(0, n, i);
      k := t + 1;
      assert c + k == WRAP + t;
    } else {
      var t := Consecutive(c + 1, n, i);
      k := t - c;
      if c + n >= WRAP { ModOfWrap(t, n); }
    }
  }

  /** When the counter wraps among the tickets and n does not divide 2^64, some backend is passed over. */
  lemma MissesWhen(c: nat, n: nat) returns (i: int)
    requires c < WRAP && 0 < n <= WRAP && !NoWrapInside(c, n) && WRAP % n != 0
    ensures 0 <= i < n && !Reaches(c, Undisturbed(n), n, i)
  {
    var q, r := WRAP / n, WRAP % n;
    var a := WRAP - 1 - c;
    var b := n - a;
    assert WRAP == q * n + r;
    i := if a <= r then n - 1 else if r > b then r else b;
    forall k | 1 <= k <= n ensures Ticket(c, k) % n != i {
      TicketResidue(c, n, k, q, r);
    }
  }

  /** The residue of each ticket around the wrap. */
  lemma TicketResidue(c: nat, n: nat, k: nat, q: nat, r: nat)
    requires c < WRAP && 0 < n <= WRAP && WRAP == q * n + r && 0 < r < n && 1 <= k <= n && c + n >= WRAP
    ensures var j := WRAP - c - k;
      Ticket(c, k) % n == if j <= 0 then -j else if j <= r then r - j else n + r - j
  {
    var j := WRAP - c - k;
    if j <= 0 {
      assert Ticket(c, k) == -j;
      DivOfSum(0, n, -j);
    } else {
      assert Ticket(c, k) == WRAP - j;
      ResidueBelow(WRAP, n, j, q, r);
    }
  }

  lemma ResidueBelow(w: int, n: nat, j: nat, q: int, r: nat)
    requires w == q * n + r && 0 < r < n && 0 < j < n
    ensures (w - j) % n == if j <= r then r - j else n + r - j
  {
    if j <= r {
      DivOfSum(q, n, r - j);
    } else {
      assert w - j == (q - 1) * n + (n + r - j);
      DivOfSum(q - 1, n, n + r - j);
    }
  }

  /**
   * The tickets of an undisturbed request do not collide iff the 64-bit counter does not wrap among them or the
   * number of backends divides 2^64.
   */
  lemma UndisturbedIff(c: nat, n: nat)
    requires c < WRAP && 0 < n <= WRAP
    ensures NoCollision(c, Undisturbed(n), n) <==> NoWrapInside(c, n) || WRAP % n == 0
  {
    CoverageIff(c, Undisturbed(n), n);
    hide Covers, NoCollision;
    if NoWrapInside(c, n) || WRAP % n == 0 {
      CoversWhen(c, n);
    } else {
      var i := MissesWhen(c, n);
      NotCovered(c, Undisturbed(n), n, i);
    }
  }

  lemma NotCovered(c: nat, draws: seq<nat>, n: nat, i: int)
    requires 0 <= i < n && !Reaches(c, draws, n, i)
    ensures !Covers(c, draws, n)
  {
  }

  // ---- what the proxy answers ----------------------------------------------------------------

  /** A request without colliding tickets visits every backend. */
  lemma VisitsAll(backends: seq<string>, c: nat, draws: seq<nat>, b: string)
    requires |draws| == |backends| > 0 && NoCollision(c, draws, |backends|) && b in backends
    ensures b in Visited(backends, c, draws)
  {
    CoverageIff(c, draws, |backends|);
    hide Ticket;
    var i :| 0 <= i < |backends| && backends[i] == b;
    assert Reaches(c, draws, |backends|, i);
    var k :| 0 <= k < |draws| && Ticket(c, draws[k]) % |backends| == i;
    assert Visited(backends, c, draws)[k] == b;
  }

  /**
   * A request is refused with 503 iff no backend it visits is usable; if its tickets do not collide, iff no
   * backend at all is usable.
   */
  lemma RefusedIff(backends: seq<string>, c: nat, draws: seq<nat>, usable: string -> bool, r: Response, after: nat)
    requires backends != [] && Positions(draws, |backends|) && Served(backends, draws, c, usable, r, after)
    ensures r == AllUnhealthy <==> forall t :: t in Visited(backends, c, draws) ==> !usable(t)
    ensures NoCollision(c, draws, |backends|) ==> (r == AllUnhealthy <==> forall b :: b in backends ==> !usable(b))
  {
    hide Ticket;
    var seen := Visited(backends, c, draws);
    if r.Forwarded? {
      var k: nat :| FirstUsable(seen, usable, k) && r.target == seen[k];
      assert seen[k] in seen && seen[k] in backends;
    } else if NoCollision(c, draws, |backends|) {
      forall b | b in backends ensures !usable(b) { VisitsAll(backends, c, draws, b); }
    }
  }

  /** Exactly one backend is usable. */
  function Only(b: string): string -> bool {
    x => x == b
  }

  /** Where two tickets collide, a request that exactly one backend of the list could serve is refused. */
  lemma CollisionRefuses(backends: seq<string>, c: nat, draws: seq<nat>) returns (b: string)
    requires backends != [] && Positions(draws, |backends|) && NoDuplicates(backends)
    requires !NoCollision(c, draws, |backends|)
    ensures b in backends
    ensures Served(backends, draws, c, Only(b), AllUnhealthy, Ticket(c, draws[|draws| - 1]))
    ensures forall r, after :: Served(backends, draws, c, Only(b), r, after) ==> r == AllUnhealthy
  {
    var n := |backends|;
    CoverageIff(c, draws, n);
    hide Ticket;
    var i :| 0 <= i < n && !Reaches(c, draws, n, i);
    b := backends[i];
    var seen := Visited(backends, c, draws);
    forall k | 0 <= k < n ensures seen[k] != b {
      assert seen[k] == backends[Ticket(c, draws[k]) % n];
    }
  }

  /** The draws of a request with one foreign draw after its k-th own one. */
  function Interrupted(n: nat, k: nat): (draws: seq<nat>)
    ensures Positions(draws, n)
  {
    seq(n, j requires 0 <= j < n => if j < k then j + 1 else j + 2)
  }

  /**
   * One foreign draw suffices, at any moment between the first and the last attempt, with any number of backends
   * but one, and without any wrap: a request that some backend could serve is refused.
   */
  lemma OneForeignDrawRefuses(backends: seq<string>, c: nat, k: nat) returns (b: string)
    requires NoDuplicates(backends) && 1 <= k < |backends| && c + |backends| + 1 < WRAP
    ensures NoWrapInside(c, |backends|) && b in backends
    ensures var draws := Interrupted(|backends|, k);
      forall r, after :: Served(backends, draws, c, Only(b), r, after) ==> r == AllUnhealthy
  {
    InterruptedCollides(c, |backends|, k);
    hide Ticket, Served, Interrupted, NoCollision, Only;
    b := CollisionRefuses(backends, c, Interrupted(|backends|, k));
  }

  /** The first ticket and the last are n draws apart. */
  lemma InterruptedCollides(c: nat, n: nat, k: nat)
    requires 1 <= k < n && c + n + 1 < WRAP
    ensures !NoCollision(c, Interrupted(n, k), n)
  {
    var draws := Interrupted(n, k);
    assert draws[0] == 1 && draws[n - 1] == n + 1;
    assert n % n == 0 by { DivOfSum(1, n, 0); }
    hide Ticket, Interrupted;
    CollisionIff(c, draws, n, 0, n - 1);
  }

  /**
   * An undisturbed request, under the condition of UndisturbedIff, visits the rotation of the list that starts
   * after the last ticket drawn.
   */
  lemma UndisturbedRotation(backends: seq<string>, c: nat)
    requires c < WRAP && 0 < |backends| <= WRAP && (NoWrapInside(c, |backends|) || WRAP % |backends| == 0)
    ensures Visited(backends, c, Undisturbed(|backends|)) == Rotation(backends, c)
    ensures forall b :: b in backends <==> b in Rotation(backends, c)
  {
    forall k | 0 <= k < |backends|
      ensures Visited(backends, c, Undisturbed(|backends|))[k] == Rotation(backends, c)[k]
    {
      RotationTarget(backends, c, k + 1);
    }
    hide Visited, Ticket;
    forall b ensures b in backends <==> b in Rotation(backends, c) {
      InRotation(backends, c, b);
    }
  }

  /**
   * So it is forwarded to the first usable backend in cyclic order, having drawn one ticket per attempt, and gets
   * 503 iff no backend is usable.
   */
  lemma ProxyAnswers(backends: seq<string>, usable: string -> bool, c: nat, r: Response, after: nat)
    requires c < WRAP && 0 < |backends| <= WRAP && (NoWrapInside(c, |backends|) || WRAP % |backends| == 0)
    requires Served(backends, Undisturbed(|backends|), c, usable, r, after)
    ensures var rotation := Rotation(backends, c);
      || (r == AllUnhealthy && after == Ticket(c, |backends|) && forall b :: b in backends ==> !usable(b))
      || (exists k: nat :: FirstUsable(rotation, usable, k) && r == Forwarded(rotation[k]) && after == Ticket(c, k + 1))
  {
    UndisturbedRotation(backends, c);
    var n := |backends|;
    assert forall k: nat :: k < n ==> Undisturbed(n)[k] == k + 1;
    hide Ticket, Visited, Rotation, Undisturbed;
    if r.Forwarded? {
      var k: nat :| FirstUsable(Rotation(backends, c), usable, k) && r.target == Rotation(backends, c)[k] &&
                    after == Ticket(c, Undisturbed(n)[k]);
      assert after == Ticket(c, k + 1);
    } else {
      hide FirstUsable;
      assert Undisturbed(n)[n - 1] == n;
    }
  }

  lemma InRotation(backends: seq<string>, c: nat, b: string)
    requires backends != []
    ensures b in backends <==> b in Rotation(backends, c)
  {
  }

  /** The list, rotated to start right after the counter. */
  function Rotation(backends: seq<string>, c: nat): (s: seq<string>)
    requires backends != []
    ensures |s| == |backends|
  {
    var start := Ticket(c, 1) % |backends|;
    backends[start..] + backends[..start]
  }

  lemma RotationTarget(backends: seq<string>, c: nat, k: nat)
    requires c < WRAP && 1 <= k <= |backends| <= WRAP && (NoWrapInside(c, |backends|) || WRAP % |backends| == 0)
    ensures backends[Ticket(c, k) % |backends|] == Rotation(backends, c)[k - 1]
  {
    TicketRotates(c, |backends|, k - 1);
    RotationAt(backends, c, k - 1);
    hide *;
  }

  lemma TicketRotates(c: nat, n: nat, j: nat)
    requires c < WRAP && j < n <= WRAP && (NoWrapInside(c, n) || WRAP % n == 0)
    ensures var start := Ticket(c, 1) % n;
      Ticket(c, j + 1) % n == if start + j < n then start + j else start + j - n
  {
    TicketAfterFirst(c, n, j + 1);
    hide *;
    RemainderAfter(Ticket(c, 1), n, j);
  }

  lemma RotationAt(backends: seq<string>, c: nat, k: nat)
    requires k < |backends|
    ensures var start := Ticket(c, 1) % |backends|;
      Rotation(backends, c)[k] == backends[if start + k < |backends| then start + k else start + k - |backends|]
  {
    hide Ticket;
    RotatedAt(backends, Ticket(c, 1) % |backends|, k);
  }

  lemma RotatedAt(s: seq<string>, start: nat, k: nat)
    requires start <= |s| && k < |s|
    ensures (s[start..] + s[..start])[k] == s[if start + k < |s| then start + k else start + k - |s|]
  {
  }

  lemma RemainderAfter(x: nat, n: nat, j: nat)
    requires j < n
    ensures (x + j) % n == if x % n + j < n then x % n + j else x % n + j - n
  {
    var q, r := x / n, x % n;
    assert x == q * n + r;
    if r + j < n {
      assert x + j == q * n + (r + j);
      DivOfSum(q, n, r + j);
    } else {
      assert x + j == (q + 1) * n + (r + j - n);
      DivOfSum(q + 1, n, r + j - n);
    }
  }

  lemma TicketAfterFirst(c: nat, n: nat, k: nat)
    requires c < WRAP && 1 <= k <= n <= WRAP && (NoWrapInside(c, n) || WRAP % n == 0)
    ensures Ticket(c, k) % n == (Ticket(c, 1) + (k - 1)) % n
  {
    if c + 1 == WRAP {
      assert Ticket(c, 1) == 0 && Ticket(c, k) == k - 1;
    } else if c + k < WRAP {
      assert Ticket(c, k) == c + k;
    } else {
      ModOfWrap(c + k, n);
    }
  }

  /** Where the condition of UndisturbedIff fails, even an undisturbed request is refused that a backend could serve. */
  lemma WrapRefuses(backends: seq<string>, c: nat) returns (b: string)
    requires c < WRAP && 0 < |backends| <= WRAP && NoDuplicates(backends)
    requires !NoWrapInside(c, |backends|) && WRAP % |backends| != 0
    ensures b in backends
    ensures forall r, after :: Served(backends, Undisturbed(|backends|), c, Only(b), r, after) ==> r == AllUnhealthy
  {
    UndisturbedIff(c, |backends|);
    b := CollisionRefuses(backends, c, Undisturbed(|backends|));
  }

  // ---- fairness --------------------------------------------------------------------------

  /** How many of the k tickets after c, drawn by whichever requests, stand for backend i of n. */
  function Chosen(c: nat, k: nat, n: nat, i: int): nat
    requires n > 0
  {
    if k == 0 then 0 else Chosen(c, k - 1, n, i) + if Ticket(c, k) % n == i then 1 else 0
  }

  lemma FloorStep(x: int, n: nat)
    requires n > 0
    ensures (x + 1) / n == x / n + if (x + 1) % n == 0 then 1 else 0
  {
    var q, r := x / n, x % n;
    assert x == q * n + r;
    if r + 1 < n {
      assert x + 1 == q * n + (r + 1);
      DivOfSum(q, n, r + 1);
    } else {
      assert x + 1 == (q + 1) * n + 0;
      DivOfSum(q + 1, n, 0);
    }
  }

  lemma ChosenStep(c: nat, k: nat, n: nat, i: int, t: nat)
    requires n > 0 && k > 0 && Ticket(c, k) == t
    ensures Chosen(c, k, n, i) == Chosen(c, k - 1, n, i) + if t % n == i then 1 else 0
  {
  }

  lemma {:induction false} ChosenIsFloors(c: nat, k: nat, n: nat, i: int)
    requires n > 0 && 0 <= i < n && c + k < WRAP
    ensures Chosen(c, k, n, i) == (c + k - i) / n - (c - i) / n
  {
    if k > 0 {
      var t := c + k;
      assert Ticket(c, k) == t;
      hide Ticket, Chosen;
      ChosenIsFloors(c, k - 1, n, i);
      assert c + (k - 1) - i == t - 1 - i && c + k - i == t - i;
      FloorStep(t - 1 - i, n);
      SameResidue(t, n, i);
      ChosenStep(c, k, n, i, t);
    }
  }

  lemma SameResidue(t: nat, n: nat, i: int)
    requires n > 0 && 0 <= i < n
    ensures (t - i) % n == 0 <==> t % n == i
  {
    var q, r := t / n, t % n;
    assert t == q * n + r;
    if r >= i {
      DivOfSum(q, n, r - i);
      assert t - i == q * n + (r - i);
    } else {
      DivOfSum(q - 1, n, n + r - i);
      assert t - i == (q - 1) * n + (n + r - i);
    }
  }

  /** Over any k draws without a wrap, by any requests, each backend is chosen floor or ceiling of k / n times. */
  lemma Fairness(c: nat, k: nat, n: nat, i: int)
    requires n > 0 && 0 <= i < n && c + k < WRAP
    ensures k / n <= Chosen(c, k, n, i) <= (k + n - 1) / n
  {
    ChosenIsFloors(c, k, n, i);
    FloorDifference(c - i, k, n);
  }

  lemma FloorDifference(x: int, k: nat, n: nat)
    requires n > 0
    ensures k / n <= (x + k) / n - x / n <= (k + n - 1) / n
  {
    FloorSum(x, k, n);
    Ceiling(k, n);
  }

  lemma FloorSum(x: int, k: nat, n: nat)
    requires n > 0
    ensures (x + k) / n == x / n + k / n + if x % n + k % n < n then 0 else 1
  {
    var q, r := x / n, x % n;
    var q', r' := k / n, k % n;
    assert x == q * n + r && k == q' * n + r';
    if r + r' < n {
      assert x + k == (q + q') * n + (r + r');
      DivOfSum(q + q', n, r + r');
    } else {
      assert x + k == (q + q' + 1) * n + (r + r' - n);
      DivOfSum(q + q' + 1, n, r + r' - n);
    }
  }

  lemma Ceiling(k: nat, n: nat)
    requires n > 0
    ensures (k + n - 1) / n == k / n + if k % n == 0 then 0 else 1
  {
    var q, r := k / n, k % n;
    assert k == q * n + r;
    if r == 0 {
      assert k + n - 1 == q * n + (n - 1);
      DivOfSum(q, n, n - 1);
    } else {
      assert k + n - 1 == (q + 1) * n + (r - 1);
      DivOfSum(q + 1, n, r - 1);
    }
  }
}
