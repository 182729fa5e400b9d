/** The fixed-window rate limiter: a counter per key, all counters cleared when the window ends. */
module RateLimiting {
  import opened Types
  import opened Sequences

  type Counts = map<string, int>

  function Count(counts: Counts, key: string): int {
    if key in counts then counts[key] else 0
  }

  /** One call, with the two clock readings it may take. */
  datatype Request = Request(keys: seq<string>, now: Time, later: Time)

  datatype State = State(counts: Counts, reset: Time)

  function Renew(window: Time, s: State, r: Request): State {
    if r.now > s.reset then State(map[], r.later + window) else s
  }

  predicate Admits(limit: int, counts: Counts, keys: seq<string>) {
    forall k :: k in keys ==> Count(counts, k) < limit
  }

  function Charge(counts: Counts, keys: seq<string>): Counts {
    if keys == [] then counts
    else
      var c, k := Charge(counts, keys[..|keys| - 1]), keys[|keys| - 1];
      c[k := Count(c, k) + 1]
  }

  function Step(limit: int, window: Time, s: State, r: Request): (State, bool) {
    var s' := Renew(window, s, r);
    if Admits(limit, s'.counts, r.keys) then (s'.(counts := Charge(s'.counts, r.keys)), true) else (s', false)
  }

  class RateLimiter {
    const limit: int
    const window: Time
    var counts: Counts
    var reset: Time

    constructor (limit: int, window: Time, now: Time)
      ensures this.limit == limit && this.window == window
      ensures counts == map[] && reset == now + window
    {
      this.limit, this.window := limit, window;
      counts, reset := map[], now + window;
    }

    method Allow(keys: seq<string>, now: Time, later: Time) returns (granted: bool)
      modifies this
      ensures (State(counts, reset), granted)
           == Step(limit, window, old(State(counts, reset)), Request(keys, now, later))
    {
      if now > reset {
        counts := map[];
        reset := later + window;
      }
      ghost var start := counts;
      for i := 0 to |keys|
        invariant forall j :: 0 <= j < i ==> Count(counts, keys[j]) < limit
      {
        if Count(counts, keys[i]) >= limit {
          return false;
        }
      }
      for i := 0 to |keys|
        invariant counts == Charge(start, keys[..i])
        invariant State(start, reset) == Renew(window, old(State(counts, reset)), Request(keys, now, later))
      {
        assert keys[..i + 1][..i] == keys[..i];
        counts := counts[keys[i] := Count(counts, keys[i]) + 1];
      }
      assert keys[..|keys|] == keys;
      return true;
    }
  }

  // ----- whole traces -----

  /** The state after a trace, and the decision on each of its calls. */
  function Run(limit: int, window: Time, s: State, trace: seq<Request>): (r: (State, seq<bool>))
    ensures |r.1| == |trace|
  {
    if trace == [] then (s, [])
    else
      var n := |trace| - 1;
      var before := Run(limit, window, s, trace[..n]);
      var after := Step(limit, window, before.0, trace[n]);
      (after.0, before.1 + [after.1])
  }

  function After(limit: int, window: Time, s: State, trace: seq<Request>): State {
    Run(limit, window, s, trace).0
  }

  /** The decision on the last call of a trace. */
  function Granted(limit: int, window: Time, s: State, trace: seq<Request>): bool
    requires trace != []
  {
    Step(limit, window, After(limit, window, s, trace[..|trace| - 1]), trace[|trace| - 1]).1
  }

  /** When the window current after the trace ends; decisions play no part in it. */
  function WindowEnd(window: Time, reset: Time, trace: seq<Request>): Time {
    if trace == [] then reset
    else
      var n := |trace| - 1;
      var end := WindowEnd(window, reset, trace[..n]);
      if trace[n].now > end then trace[n].later + window else end
  }

  /** The index of the call that opened the window current after the trace, or 0 if it is the first window. */
  function WindowStart(window: Time, reset: Time, trace: seq<Request>): (i: nat)
    ensures i <= |trace|
  {
    if trace == [] then 0
    else
      var n := |trace| - 1;
      if trace[n].now > WindowEnd(window, reset, trace[..n]) then n else WindowStart(window, reset, trace[..n])
  }

  /** How often granted calls from index `from` on named the key. */
  function Uses(limit: int, window: Time, s: State, trace: seq<Request>, key: string, from: nat): nat {
    if |trace| <= from then 0
    else
      var n := |trace| - 1;
      Uses(limit, window, s, trace[..n], key, from)
      + (if Granted(limit, window, s, trace) then multiset(trace[n].keys)[key] else 0)
  }

  lemma {:induction false} ChargeCounts(counts: Counts, keys: seq<string>, key: string)
    ensures Count(Charge(counts, keys), key) == Count(counts, key) + multiset(keys)[key]
  {
    if keys != [] {
      var n := |keys| - 1;
      ChargeCounts(counts, keys[..n], key);
      ChargeCounts(counts, keys[..n], keys[n]);
      assert keys == keys[..n] + [keys[n]];
    }
  }

  lemma {:induction false} ResetIsWindowEnd(limit: int, window: Time, s: State, trace: seq<Request>)
    ensures After(limit, window, s, trace).reset == WindowEnd(window, s.reset, trace)
  {
    if trace != [] { ResetIsWindowEnd(limit, window, s, trace[..|trace| - 1]); }
  }

  /** After every trace, each counter is the number of granted uses of its key in the current window. */
  lemma {:induction false} CountersAreExact(limit: int, window: Time, reset: Time, trace: seq<Request>, key: string)
    ensures Count(After(limit, window, State(map[], reset), trace).counts, key)
         == Uses(limit, window, State(map[], reset), trace, key, WindowStart(window, reset, trace))
  {
    if trace != [] {
      var s, n := State(map[], reset), |trace| - 1;
      var before := After(limit, window, s, trace[..n]);
      CountersAreExact(limit, window, reset, trace[..n], key);
      ResetIsWindowEnd(limit, window, s, trace[..n]);
      ChargeCounts(Renew(window, before, trace[n]).counts, trace[n].keys, key);
    }
  }

  /**
   A call is granted exactly when every key it names has been used fewer than `limit` times by
   the granted calls before it in its own window.
   */
  lemma GrantedIffUnderLimit(limit: int, window: Time, reset: Time, trace: seq<Request>)
    requires trace != []
    ensures var s, n := State(map[], reset), |trace| - 1;
            Granted(limit, window, s, trace) <==>
            forall k :: k in trace[n].keys ==>
              Uses(limit, window, s, trace[..n], k, WindowStart(window, reset, trace)) < limit
  {
    var s, n := State(map[], reset), |trace| - 1;
    var before := After(limit, window, s, trace[..n]);
    ResetIsWindowEnd(limit, window, s, trace[..n]);
    forall k: string ensures Count(Renew(window, before, trace[n]).counts, k)
                          == Uses(limit, window, s, trace[..n], k, WindowStart(window, reset, trace))
    {
      CountersAreExact(limit, window, reset, trace[..n], k);
    }
  }

  // ----- the limit -----

  predicate Distinct(keys: seq<string>) {
    forall i, j :: 0 <= i < j < |keys| ==> keys[i] != keys[j]
  }

  lemma {:induction false} DistinctOnce(keys: seq<string>, key: string)
    requires Distinct(keys)
    ensures multiset(keys)[key] == if key in keys then 1 else 0
  {
    if keys != [] {
      var n := |keys| - 1;
      DistinctOnce(keys[..n], key);
      assert keys == keys[..n] + [keys[n]];
    }
  }

  /** The two keys of a login are always distinct. */
  lemma LoginKeysDistinct(ip: string, username: string)
    ensures Distinct(["ip:" + ip, "user:" + username])
  {
    assert ("ip:" + ip)[0] == 'i' && ("user:" + username)[0] == 'u';
  }

  ghost predicate DistinctKeys(trace: seq<Request>) {
    forall i :: 0 <= i < |trace| ==> Distinct(trace[i].keys)
  }

  /** With distinct keys per call no counter exceeds the limit. */
  lemma {:induction false} CountersWithinLimit(limit: int, window: Time, s: State, trace: seq<Request>, key: string)
    requires DistinctKeys(trace) && limit >= 0 && 0 <= Count(s.counts, key) <= limit
    ensures 0 <= Count(After(limit, window, s, trace).counts, key) <= limit
  {
    if trace != [] {
      var n := |trace| - 1;
      CountersWithinLimit(limit, window, s, trace[..n], key);
      var renewed := Renew(window, After(limit, window, s, trace[..n]), trace[n]);
      ChargeCounts(renewed.counts, trace[n].keys, key);
      DistinctOnce(trace[n].keys, key);
    }
  }

  ghost predicate InLimit(limit: int, counts: Counts) {
    forall k :: 0 <= Count(counts, k) <= limit
  }

  /** Charging an admitted call keeps the counters within the limit exactly when the call names no key twice. */
  lemma LimitKeptIffDistinct(limit: int, keys: seq<string>)
    requires limit >= 1
    ensures Distinct(keys) <==>
            forall counts: Counts :: InLimit(limit, counts) && Admits(limit, counts, keys) ==>
                InLimit(limit, Charge(counts, keys))
  {
    if Distinct(keys) {
      forall counts: Counts, k | InLimit(limit, counts) && Admits(limit, counts, keys)
        ensures 0 <= Count(Charge(counts, keys), k) <= limit
      {
        ChargeCounts(counts, keys, k);
        DistinctOnce(keys, k);
      }
    } else {
      var i, j :| 0 <= i < j < |keys| && keys[i] == keys[j];
      var counts: Counts := map[keys[i] := limit - 1];
      RepeatedTwice(keys, i, j);
      ChargeCounts(counts, keys, keys[i]);
      assert InLimit(limit, counts) && Admits(limit, counts, keys);
    }
  }

  // ----- any time interval -----

  ghost predicate Monotone(trace: seq<Request>) {
    && (forall i :: 0 <= i < |trace| ==> trace[i].now <= trace[i].later)
    && (forall i, j :: 0 <= i < j < |trace| ==> trace[i].later <= trace[j].now)
  }

  predicate Within(r: Request, a: Time, b: Time) { a <= r.now <= b }

  /** Granted calls naming the key at instants from `a` to `b`. */
  function Grants(limit: int, window: Time, s: State, trace: seq<Request>, key: string, a: Time, b: Time): nat {
    if trace == [] then 0
    else
      var n := |trace| - 1;
      Grants(limit, window, s, trace[..n], key, a, b)
      + (if Granted(limit, window, s, trace) && key in trace[n].keys && Within(trace[n], a, b) then 1 else 0)
  }

  /** Windows opened at instants from `a` to `b`. */
  function Openings(limit: int, window: Time, s: State, trace: seq<Request>, a: Time, b: Time): nat {
    if trace == [] then 0
    else
      var n := |trace| - 1;
      Openings(limit, window, s, trace[..n], a, b)
      + (if trace[n].now > After(limit, window, s, trace[..n]).reset && Within(trace[n], a, b) then 1 else 0)
  }

  lemma {:induction false} NothingBefore(limit: int, window: Time, s: State, trace: seq<Request>,
                                         key: string, a: Time, b: Time)
    requires forall i :: 0 <= i < |trace| ==> trace[i].now < a
    ensures Grants(limit, window, s, trace, key, a, b) == 0 && Openings(limit, window, s, trace, a, b) == 0
  {
    if trace != [] { NothingBefore(limit, window, s, trace[..|trace| - 1], key, a, b); }
  }

  /** What one call does to one counter. */
  lemma LastCallCounts(limit: int, window: Time, s: State, trace: seq<Request>, key: string)
    requires trace != [] && DistinctKeys(trace)
    ensures var n := |trace| - 1;
            var before := After(limit, window, s, trace[..n]);
            Count(After(limit, window, s, trace).counts, key) ==
              (if trace[n].now > before.reset then 0 else Count(before.counts, key))
              + (if Granted(limit, window, s, trace) && key in trace[n].keys then 1 else 0)
  {
    var n := |trace| - 1;
    var before := After(limit, window, s, trace[..n]);
    ChargeCounts(Renew(window, before, trace[n]).counts, trace[n].keys, key);
    DistinctOnce(trace[n].keys, key);
  }

  /** Every window opened in the interval, and the one open before it, grants the key at most `limit` times. */
  lemma {:induction false} GrantsPerWindow(limit: int, window: Time, s: State, trace: seq<Request>,
                                           key: string, a: Time, b: Time)
    requires limit >= 0 && s.counts == map[] && DistinctKeys(trace) && Monotone(trace)
    requires forall i :: 0 <= i < |trace| ==> trace[i].now <= b
    ensures Grants(limit, window, s, trace, key, a, b)
         <= Openings(limit, window, s, trace, a, b) * limit + Count(After(limit, window, s, trace).counts, key)
  {
    hide After, Granted;
    CountersWithinLimit(limit, window, s, trace, key);
    if trace == [] {
    } else if trace[|trace| - 1].now < a {
      NothingBefore(limit, window, s, trace, key, a, b);
    } else {
      var n := |trace| - 1;
      var m := Openings(limit, window, s, trace[..n], a, b);
      GrantsPerWindow(limit, window, s, trace[..n], key, a, b);
      CountersWithinLimit(limit, window, s, trace[..n], key);
      LastCallCounts(limit, window, s, trace, key);
      assert (m + 1) * limit == m * limit + limit;
    }
  }

  lemma LastCallReset(limit: int, window: Time, s: State, trace: seq<Request>)
    requires trace != []
    ensures var n := |trace| - 1;
            var before := After(limit, window, s, trace[..n]);
            After(limit, window, s, trace).reset
                == if trace[n].now > before.reset then trace[n].later + window else before.reset
  {
  }

  /** Windows open more than one window length apart. */
  lemma {:induction false} OpeningsSpaced(limit: int, window: Time, s: State, trace: seq<Request>, a: Time, b: Time)
    requires window > 0 && forall i :: 0 <= i < |trace| ==> trace[i].now <= trace[i].later
    ensures var m := Openings(limit, window, s, trace, a, b);
            && (m >= 1 ==> After(limit, window, s, trace).reset >= a + m * window)
            && (m >= 2 ==> (m - 1) * window < b - a)
  {
    hide After;
    if trace != [] {
      var n := |trace| - 1;
      var m := Openings(limit, window, s, trace[..n], a, b);
      OpeningsSpaced(limit, window, s, trace[..n], a, b);
      LastCallReset(limit, window, s, trace);
      assert (m + 1) * window == m * window + window;
    }
  }

  function CeilDiv(x: int, y: int): (r: int)
    requires x > 0 && y > 0
    ensures (r - 1) * y < x <= r * y
  {
    (x - 1) / y + 1
  }

  lemma OpeningsBounded(m: nat, window: Time, length: Time)
    requires window > 0 && length > 0 && (m >= 2 ==> (m - 1) * window < length)
    ensures m <= CeilDiv(length, window)
  {
  }

  lemma WindowsTimesLimit(grants: int, m: int, count: int, limit: int, bound: int)
    requires grants <= m * limit + count && count <= limit && 0 <= limit && m <= bound
    ensures grants <= (bound + 1) * limit
  {
  }

  /**
   Over every call trace with distinct keys per call and a monotone clock, an interval of length
   L > 0 grants a key at most (ceil(L / window) + 1) * limit calls.
   */
  lemma {:induction false} IntervalBound(limit: int, window: Time, s: State, trace: seq<Request>,
                                         key: string, a: Time, b: Time)
    requires limit >= 0 && window > 0 && s.counts == map[] && DistinctKeys(trace) && Monotone(trace) && a < b
    ensures Grants(limit, window, s, trace, key, a, b) <= (CeilDiv(b - a, window) + 1) * limit
  {
    hide After, Granted, CeilDiv, Openings;
    if trace == [] {
      OpeningsBounded(0, window, b - a);
      WindowsTimesLimit(0, 0, 0, limit, CeilDiv(b - a, window));
    } else if trace[|trace| - 1].now > b {
      IntervalBound(limit, window, s, trace[..|trace| - 1], key, a, b);
    } else {
      var m := Openings(limit, window, s, trace, a, b);
      GrantsPerWindow(limit, window, s, trace, key, a, b);
      CountersWithinLimit(limit, window, s, trace, key);
      OpeningsSpaced(limit, window, s, trace, a, b);
      OpeningsBounded(m, window, b - a);
      var grants := Grants(limit, window, s, trace, key, a, b);
      var count := Count(After(limit, window, s, trace).counts, key);
      WindowsTimesLimit(grants, m, count, limit, CeilDiv(b - a, window));
    }
  }

  /** In particular, at most twice the limit in any interval one window long. */
  lemma OneWindowBound(limit: int, window: Time, s: State, trace: seq<Request>, key: string, a: Time)
    requires limit >= 0 && window > 0 && s.counts == map[] && DistinctKeys(trace) && Monotone(trace)
    ensures Grants(limit, window, s, trace, key, a, a + window) <= 2 * limit
  {
    IntervalBound(limit, window, s, trace, key, a, a + window);
    assert CeilDiv(window, window) == 1;
  }

  // ----- the bound is reached -----

  function Copies(r: Request, n: nat): seq<Request> {
    if n == 0 then [] else Copies(r, n - 1) + [r]
  }

  lemma {:induction false} CopiesOf(r: Request, n: nat)
    ensures |Copies(r, n)| == n && forall i :: 0 <= i < n ==> Copies(r, n)[i] == r
  {
    if n > 0 { CopiesOf(r, n - 1); }
  }

  /** A burst of equal calls is granted in full while it fits into the limit. */
  lemma {:induction false} BurstGranted(limit: int, window: Time, s: State, pre: seq<Request>,
                                        r: Request, n: nat, a: Time, b: Time)
    requires |r.keys| == 1 && window > 0 && r.now <= r.later && Within(r, a, b)
    requires n >= 1 && Count(Renew(window, After(limit, window, s, pre), r).counts, r.keys[0]) + n <= limit
    ensures var key, renewed, trace := r.keys[0], Renew(window, After(limit, window, s, pre), r), pre + Copies(r, n);
            && After(limit, window, s, trace).reset == renewed.reset
            && Count(After(limit, window, s, trace).counts, key) == Count(renewed.counts, key) + n
            && Grants(limit, window, s, trace, key, a, b) == Grants(limit, window, s, pre, key, a, b) + n
    decreases n
  {
    hide After, Granted;
    var trace := pre + Copies(r, n);
    var m := |trace| - 1;
    assert trace[..m] == pre + Copies(r, n - 1) && trace[m] == r;
    if n == 1 {
      assert trace[..m] == pre;
    } else {
      BurstGranted(limit, window, s, pre, r, n - 1, a, b);
    }
    BurstStep(limit, window, s, trace, r);
  }

  lemma BurstStep(limit: int, window: Time, s: State, trace: seq<Request>, r: Request)
    requires trace != [] && trace[|trace| - 1] == r && |r.keys| == 1
    requires Count(Renew(window, After(limit, window, s, trace[..|trace| - 1]), r).counts, r.keys[0]) < limit
    ensures var renewed := Renew(window, After(limit, window, s, trace[..|trace| - 1]), r);
            && Granted(limit, window, s, trace) && After(limit, window, s, trace).reset == renewed.reset
            && Count(After(limit, window, s, trace).counts, r.keys[0]) == Count(renewed.counts, r.keys[0]) + 1
  {
    var renewed := Renew(window, After(limit, window, s, trace[..|trace| - 1]), r);
    ChargeCounts(renewed.counts, r.keys, r.keys[0]);
    assert r.keys == [r.keys[0]];
  }

  lemma OneKeyDistinct(key: string)
    ensures Distinct([key])
  {
  }

  lemma TwoBursts(first: Request, second: Request, n: nat)
    requires first.now == first.later <= second.now == second.later && Distinct(first.keys) && Distinct(second.keys)
    ensures Monotone(Copies(first, n) + Copies(second, n)) && DistinctKeys(Copies(first, n) + Copies(second, n))
  {
    CopiesOf(first, n);
    CopiesOf(second, n);
  }

  /** Whatever the limit and the window, twice the limit is granted within one window's length by some trace. */
  lemma OneWindowBoundIsReached(limit: int, window: Time, key: string) returns (trace: seq<Request>)
    requires limit >= 1 && window > 0
    ensures Monotone(trace) && DistinctKeys(trace)
    ensures Grants(limit, window, State(map[], 0), trace, key, 0, window) == 2 * limit
  {
    hide Monotone, DistinctKeys, Distinct;
    var s, first, second := State(map[], 0), Request([key], 0, 0), Request([key], 1, 1);
    BurstGranted(limit, window, s, [], first, limit, 0, window);
    assert [] + Copies(first, limit) == Copies(first, limit);
    BurstGranted(limit, window, s, Copies(first, limit), second, limit, 0, window);
    OneKeyDistinct(key);
    TwoBursts(first, second, limit);
    trace := Copies(first, limit) + Copies(second, limit);
  }
}
