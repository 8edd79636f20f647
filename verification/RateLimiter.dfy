/**
 * limiter/rate_limit.go: INCR and EXPIRE in one Redis transaction per call. The counter's TTL is renewed by
 * every call, denied ones included, so the limit is not "so many per window" but a bound on bursts.
 */
module RateLimiter {
  import opened Common

  /** A call for a key, at a time in milliseconds on the store's clock. */
  datatype Call = Call(key: string, time: int)

  /** A counter and when its TTL was last set. A key is gone once the whole window has passed since then. */
  datatype Entry = Entry(count: int, touched: int)

  /** The times of the calls for one key, in order. */
  function TimesOf(history: seq<Call>, key: string): seq<int> {
    if history == [] then []
    else
      var n := |history| - 1;
      TimesOf(history[..n], key) + if history[n].key == key then [history[n].time] else []
  }

  /** No two neighbours are a window or more apart. */
  predicate Tight(times: seq<int>, window: int) {
    forall i :: 0 < i < |times| ==> times[i] - times[i - 1] < window
  }

  /** The length of the run of calls that ends in the last one, each less than a window after the one before. */
  function RunLength(times: seq<int>, window: int): nat {
    var n := |times|;
    if n == 0 then 0
    else if n == 1 || times[n - 1] - times[n - 2] >= window then 1
    else 1 + RunLength(times[..n - 1], window)
  }

  /** What the store must hold for a key that was called at these times. */
  predicate Records(store: map<string, Entry>, key: string, times: seq<int>, window: int) {
    && (key in store <==> times != [])
    && (key in store && times != [] ==> store[key] == Entry(RunLength(times, window), times[|times| - 1]))
  }

  lemma TimesOfAppend(history: seq<Call>, call: Call, key: string)
    ensures TimesOf(history + [call], key) ==
            if call.key == key then TimesOf(history, key) + [call.time] else TimesOf(history, key)
  {
  }

  lemma RunLengthAppend(times: seq<int>, t: int, window: int)
    ensures RunLength(times + [t], window) ==
            if times != [] && t - times[|times| - 1] < window then RunLength(times, window) + 1 else 1
  {
  }

  /** The i-th call of a key is let through. */
  predicate Allowed(times: seq<int>, max: int, window: int, i: int)
    requires 0 <= i < |times|
  {
    RunLength(times[..i + 1], window) <= max
  }

  /** The answer to the j-th call of an interleaved history: that to the call's own place among those of its key. */
  predicate Answer(history: seq<Call>, max: int, window: int, j: nat)
    requires j < |history|
  {
    var times := TimesOf(history, history[j].key);
    var i := |TimesOf(history[..j], history[j].key)|;
    i < |times| && Allowed(times, max, window, i)
  }

  /** The calls of a key among the first ones are the first ones of the key. */
  lemma {:induction false} TimesOfPrefix(history: seq<Call>, key: string, j: nat)
    requires j <= |history|
    ensures TimesOf(history[..j], key) <= TimesOf(history, key)
    decreases |history|
  {
    if j < |history| {
      var n := |history| - 1;
      TimesOfPrefix(history[..n], key, j);
      assert history[..n][..j] == history[..j];
    } else {
      assert history[..j] == history;
    }
  }

  /** Later calls do not change the answer to an earlier one. */
  lemma AnswerExact(history: seq<Call>, max: int, window: int, j: nat)
    requires j < |history|
    ensures Answer(history, max, window, j) <==> RunLength(TimesOf(history[..j + 1], history[j].key), window) <= max
  {
    hide RunLength;
    var key := history[j].key;
    assert history[..j + 1] == history[..j] + [history[j]];
    TimesOfAppend(history[..j], history[j], key);
    TimesOfPrefix(history, key, j + 1);
    var i := |TimesOf(history[..j], key)|;
    assert TimesOf(history, key)[..i + 1] == TimesOf(history[..j + 1], key);
  }

  class RateLimiter {
    const maxRequests: int
    const window: int
    var store: map<string, Entry>
    ghost var history: seq<Call>

    constructor (maxRequests: int, window: int)
      ensures Valid() && history == []
      ensures this.maxRequests == maxRequests && this.window == window
    {
      this.maxRequests, this.window := maxRequests, window;
      store := map[];
      history := [];
    }

    /** The store holds, per key, the length of its last run and the time of its last call. */
    ghost predicate Valid()
      reads this
    {
      forall key :: Records(store, key, TimesOf(history, key), window)
    }

    /** One error-free call: increment, renew the TTL, compare. */
    method Allow(apiKey: string, now: int) returns (allowed: bool)
      requires Valid()
      modifies this
      ensures Valid() && history == old(history) + [Call(apiKey, now)]
      ensures allowed <==> RunLength(TimesOf(history, apiKey), window) <= maxRequests
      ensures forall key :: key != apiKey ==>
        (key in store <==> key in old(store)) && (key in store ==> store[key] == old(store)[key])
    {
      hide TimesOf, RunLength;
      var alive := apiKey in store && now - store[apiKey].touched < window;
      var count := if alive then store[apiKey].count + 1 else 1;
      assert Records(store, apiKey, TimesOf(history, apiKey), window);
      RunLengthAppend(TimesOf(history, apiKey), now, window);
      store := store[apiKey := Entry(count, now)];
      history := history + [Call(apiKey, now)];
      forall key ensures Records(store, key, TimesOf(history, key), window) {
        TimesOfAppend(old(history), Call(apiKey, now), key);
        assert Records(old(store), key, TimesOf(old(history), key), window);
      }
      if count > maxRequests {
        return false;
      }
      return true;
    }

    /** Any interleaving of error-free calls for any keys: each is answered as its own key's calls so far call for. */
    method Serve(calls: seq<Call>) returns (answers: seq<bool>)
      requires Valid()
      modifies this
      ensures Valid() && history == old(history) + calls && |answers| == |calls|
      ensures forall j :: 0 <= j < |calls| ==>
        (answers[j] <==> Answer(history, maxRequests, window, |old(history)| + j))
    {
      hide TimesOf, RunLength, Answer;
      answers := [];
      ghost var all := old(history) + calls;
      for j := 0 to |calls|
        invariant Valid() && history == old(history) + calls[..j] && |answers| == j
        invariant forall k :: 0 <= k < j ==> (answers[k] <==> Answer(all, maxRequests, window, |old(history)| + k))
      {
        var allowed := Allow(calls[j].key, calls[j].time);
        assert calls[..j + 1] == calls[..j] + [calls[j]];
        assert all[..|old(history)| + j + 1] == history && all[|old(history)| + j] == calls[j];
        AnswerExact(all, maxRequests, window, |old(history)| + j);
        answers := answers + [allowed];
      }
      assert calls[..|calls|] == calls;
    }
  }

  // ---- what the stored count means ---------------------------------------------------------

  lemma {:induction false} RunBounds(times: seq<int>, window: int)
    ensures RunLength(times, window) <= |times|
    ensures times != [] ==> RunLength(times, window) > 0
  {
    if |times| > 1 { RunBounds(times[..|times| - 1], window); }
  }

  /** A suffix is the suffix, one shorter, of all but the last time, and then the last time. */
  lemma SuffixSplit(times: seq<int>, k: nat)
    requires 2 <= k <= |times|
    ensures var n := |times|;
      var start := times[..n - 1][n - k..];
      times[n - k..] == start + [times[n - 1]] && start != [] && start[|start| - 1] == times[n - 2]
  {
    var n := |times|;
    var suffix, split := times[n - k..], times[..n - 1][n - k..] + [times[n - 1]];
    assert |suffix| == |split|;
    forall i | 0 <= i < k ensures suffix[i] == split[i] {
      assert suffix[i] == times[n - k + i];
    }
  }

  /** The count is the length of the longest suffix of the history with every gap below the window. */
  lemma {:induction false} RunIsMaximalSuffix(times: seq<int>, window: int, k: nat)
    requires k <= |times|
    ensures Tight(times[|times| - k..], window) <==> k <= RunLength(times, window)
  {
    var n := |times|;
    RunBounds(times, window);
    if k >= 2 {
      var front, suffix := times[..n - 1], times[n - k..];
      var start := front[|front| - (k - 1)..];
      RunIsMaximalSuffix(front, window, k - 1);
      RunBounds(front, window);
      SuffixSplit(times, k);
      TightAppend(start, times[n - 1], window);
    }
  }

  lemma TightAppend(times: seq<int>, t: int, window: int)
    requires times != []
    ensures Tight(times + [t], window) <==> Tight(times, window) && t - times[|times| - 1] < window
  {
    var all := times + [t];
    assert all[|times|] - all[|times| - 1] == t - times[|times| - 1];
    if Tight(all, window) {
      forall i | 0 < i < |times| ensures times[i] - times[i - 1] < window { assert all[i] - all[i - 1] < window; }
    }
  }

  // ---- the bound on bursts ---------------------------------------------------------------

  predicate Ordered(times: seq<int>) {
    forall i, j :: 0 <= i <= j < |times| ==> times[i] <= times[j]
  }

  /** The calls let through in the half-open time interval from lo to hi. */
  ghost function AllowedIn(times: seq<int>, max: nat, window: int, lo: int, hi: int): set<nat> {
    set i: nat | 0 <= i < |times| && lo <= times[i] < hi && Allowed(times, max, window, i)
  }

  /** Calls within one window belong to one run. */
  lemma {:induction false} RunAdvances(times: seq<int>, window: int, i: int, j: int)
    requires Ordered(times) && 0 <= i <= j < |times| && times[j] - times[i] < window
    ensures RunLength(times[..j + 1], window) >= 1 + j - i
    decreases j - i
  {
    RunBounds(times[..j + 1], window);
    if i < j {
      RunAdvances(times, window, i, j - 1);
      assert times[..j + 1][..j] == times[..j];
      assert times[j] - times[j - 1] <= times[j] - times[i];
    }
  }

  lemma {:induction false} IntervalSize(s: set<nat>, lo: int, n: nat)
    requires forall x :: x in s ==> lo <= x < lo + n
    ensures |s| <= n
  {
    if n > 0 {
      IntervalSize(s - (if lo + n - 1 >= 0 then {lo + n - 1} else {}), lo, n - 1);
    } else {
      assert s == {};
    }
  }

  lemma {:induction false} Least(s: set<nat>) returns (m: nat)
    requires s != {}
    ensures m in s && forall x :: x in s ==> m <= x
  {
    var x :| x in s;
    assert forall z :: z in s ==> z == x || z in s - {x};
    if s - {x} == {} {
      m := x;
    } else {
      var y := Least(s - {x});
      m := if x < y then x else y;
    }
  }

  lemma WindowSplit(times: seq<int>, max: nat, window: int, lo: int, mid: int, hi: int)
    ensures |AllowedIn(times, max, window, lo, hi)| <=
            |AllowedIn(times, max, window, lo, mid)| + |AllowedIn(times, max, window, mid, hi)|
  {
    var all := AllowedIn(times, max, window, lo, hi);
    var a, b := AllowedIn(times, max, window, lo, mid), AllowedIn(times, max, window, mid, hi);
    assert all <= a + b;
    SubsetSize(all, a + b);
  }

  /** Any window-long interval of time lets at most max calls of a key through. */
  lemma WindowBound(times: seq<int>, max: nat, window: int, lo: int)
    requires Ordered(times)
    ensures |AllowedIn(times, max, window, lo, lo + window)| <= max
  {
    var s := AllowedIn(times, max, window, lo, lo + window);
    if s != {} {
      var first := Least(s);
      forall j | j in s ensures first <= j < first + max {
        RunAdvances(times, window, first, j);
      }
      IntervalSize(s, first, max);
    }
  }

  lemma {:induction false} WindowsBound(times: seq<int>, max: nat, window: int, lo: int, n: nat)
    requires Ordered(times) && window > 0
    ensures |AllowedIn(times, max, window, lo, lo + n * window)| <= max * n
  {
    if n == 0 {
      assert lo + 0 * window == lo && AllowedIn(times, max, window, lo, lo) == {};
    } else {
      var mid := lo + (n - 1) * window;
      WindowsBound(times, max, window, lo, n - 1);
      WindowBound(times, max, window, mid);
      hide AllowedIn;
      WindowSplit(times, max, window, lo, mid, mid + window);
      assert n * window == (n - 1) * window + window;
      assert max * n == max * (n - 1) + max;
    }
  }

  /** Any span of time, both ends included, lets at most max * (span / window + 1) calls of a key through. */
  lemma SpanBound(times: seq<int>, max: nat, window: int, lo: int, span: nat)
    requires Ordered(times) && window > 0
    ensures |AllowedIn(times, max, window, lo, lo + span + 1)| <= max * (span / window + 1)
  {
    var n := span / window + 1;
    WindowsBound(times, max, window, lo, n);
    assert span < n * window by { assert span == span / window * window + span % window; }
    assert AllowedIn(times, max, window, lo, lo + span + 1) <= AllowedIn(times, max, window, lo, lo + n * window);
    SubsetSize(AllowedIn(times, max, window, lo, lo + span + 1), AllowedIn(times, max, window, lo, lo + n * window));
  }

  /** A client that never pauses for a whole window is let through max times in all, and then never again. */
  lemma {:induction false} NeverPausing(times: seq<int>, max: nat, window: int, i: int)
    requires Tight(times, window) && 0 <= i < |times|
    ensures Allowed(times, max, window, i) <==> i < max
  {
    var prefix := times[..i + 1];
    assert prefix[|prefix| - (i + 1)..] == prefix;
    assert Tight(prefix, window);
    RunIsMaximalSuffix(prefix, window, i + 1);
    RunBounds(prefix, window);
  }

  /** The calls of one key are in order when the whole interleaved history is. */
  lemma {:induction false} KeyOrdered(history: seq<Call>, key: string)
    requires forall i, j :: 0 <= i <= j < |history| ==> history[i].time <= history[j].time
    ensures Ordered(TimesOf(history, key))
    ensures history != [] ==>
      forall i :: 0 <= i < |TimesOf(history, key)| ==> TimesOf(history, key)[i] <= history[|history| - 1].time
  {
    if history != [] {
      var n := |history| - 1;
      KeyOrdered(history[..n], key);
      assert n > 0 ==> history[..n][n - 1].time <= history[n].time;
    }
  }

  /**
   * For every interleaving of the calls of all keys: the calls of one key that the limiter lets through in a
   * span of time, both ends included, are at most max * (span / window + 1).
   */
  lemma InterleavedBound(history: seq<Call>, key: string, max: nat, window: int, lo: int, span: nat)
    requires forall i, j :: 0 <= i <= j < |history| ==> history[i].time <= history[j].time
    requires window > 0
    ensures |AllowedIn(TimesOf(history, key), max, window, lo, lo + span + 1)| <= max * (span / window + 1)
  {
    KeyOrdered(history, key);
    SpanBound(TimesOf(history, key), max, window, lo, span);
  }
}
