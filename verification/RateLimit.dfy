/** The fixed-window rate limiter, over real time. */
module RateLimit {

  const WINDOW: real := 60.0

  /** Start of the aligned window that holds `now`: `now - now % 60`. */
  function WindowStart(now: real): real { (now / WINDOW).Floor as real * WINDOW }

  lemma InWindow(now: real)
    ensures WindowStart(now) <= now < WindowStart(now) + WINDOW
  {
  }

  predicate Aligned(t: real) { WindowStart(t) == t }

  /** Aligned windows that overlap are the same. */
  lemma OneWindow(start: real, now: real)
    requires Aligned(start) && start <= now < start + WINDOW
    ensures WindowStart(now) == start
  {
    var n, m := (start / WINDOW).Floor, (now / WINDOW).Floor;
    assert start == n as real * WINDOW;
    assert start / WINDOW <= now / WINDOW < start / WINDOW + 1.0;
    assert n as real <= now / WINDOW < (n + 1) as real;
    assert m == n;
  }

  lemma StartAligned(now: real)
    ensures Aligned(WindowStart(now)) && Aligned(WindowStart(now) + WINDOW)
  {
    var n := (now / WINDOW).Floor;
    assert WindowStart(now) / WINDOW == n as real;
    assert (WindowStart(now) + WINDOW) / WINDOW == (n + 1) as real;
  }

  type Windows = map<string, (real, nat)>

  datatype Verdict = Verdict(allowed: bool, retryAfter: int)

  /** The count that applies to a key at a time. */
  function CountAt(windows: Windows, key: string, now: real): nat {
    if key in windows && windows[key].0 == WindowStart(now) then windows[key].1 else 0
  }

  function Retry(now: real): int { if (WindowStart(now) + WINDOW - now).Floor + 1 > 1 then (WindowStart(now) + WINDOW - now).Floor + 1 else 1 }

  class RateLimiter {
    const limit: nat
    var windows: Windows

    constructor (perMinute: int)
      ensures limit == (if perMinute > 1 then perMinute else 1) && windows == map[]
    {
      limit := if perMinute > 1 then perMinute else 1;
      windows := map[];
    }

    method Allow(key: string, now: real) returns (v: Verdict)
      modifies this
      ensures v.allowed <==> CountAt(old(windows), key, now) < limit
      ensures windows == After(limit, old(windows), key, now)
      ensures v.retryAfter == if v.allowed then 0 else Retry(now)
    {
      var windowStart := WindowStart(now);
      var start, count := windowStart, 0;
      if key in windows { start, count := windows[key].0, windows[key].1; }
      if start != windowStart { start, count := windowStart, 0; }
      if count >= limit {
        var whole := (start + WINDOW - now).Floor;
        return Verdict(false, if whole + 1 > 1 then whole + 1 else 1);
      }
      windows := windows[key := (start, count + 1)];
      return Verdict(true, 0);
    }
  }

  function After(limit: nat, windows: Windows, key: string, now: real): Windows {
    var count := CountAt(windows, key, now);
    if count < limit then windows[key := (WindowStart(now), count + 1)] else windows
  }

  /** Waiting the returned time always lands in exactly the next window. */
  lemma RetryLandsInNextWindow(now: real)
    ensures Retry(now) >= 1 && WindowStart(now + Retry(now) as real) == WindowStart(now) + WINDOW
  {
    InWindow(now);
    StartAligned(now);
    var next := WindowStart(now) + WINDOW;
    var left := next - now;
    assert left.Floor as real <= left < left.Floor as real + 1.0;
    assert next <= now + Retry(now) as real < next + WINDOW;
    OneWindow(next, now + Retry(now) as real);
  }

  // ---------------------------------------------------------------- runs

  datatype Call = Call(key: string, now: real)

  predicate ClockNeverGoesBack(calls: seq<Call>) {
    forall i, j :: 0 <= i < j < |calls| ==> calls[i].now <= calls[j].now
  }

  function Run(limit: nat, calls: seq<Call>): Windows {
    if calls == [] then map[]
    else After(limit, Run(limit, calls[..|calls| - 1]), calls[|calls| - 1].key, calls[|calls| - 1].now)
  }

  /** How many calls for `key` at times in `[from, to)` were allowed. */
  function Admitted(limit: nat, calls: seq<Call>, key: string, from: real, to: real): nat {
    if calls == [] then 0
    else
      var init, last := calls[..|calls| - 1], calls[|calls| - 1];
      Admitted(limit, init, key, from, to)
      + if last.key == key && from <= last.now < to && CountAt(Run(limit, init), key, last.now) < limit then 1 else 0
  }

  /** The stored count of a key is the number of its calls admitted in the stored window. */
  ghost predicate Tracks(limit: nat, calls: seq<Call>, key: string) {
    var windows := Run(limit, calls);
    if key in windows then
      var (start, count) := windows[key];
      Aligned(start) && count <= limit && count == Admitted(limit, calls, key, start, start + WINDOW)
      && exists i :: 0 <= i < |calls| && start <= calls[i].now
    else forall from: real, to: real :: Admitted(limit, calls, key, from, to) == 0
  }

  lemma StartMonotone(a: real, b: real)
    requires a <= b
    ensures WindowStart(a) <= WindowStart(b)
  {
    InWindow(a);
    InWindow(b);
    var n, m := (a / WINDOW).Floor, (b / WINDOW).Floor;
    assert n <= m by {
      assert n > m ==> n as real * WINDOW >= (m as real + 1.0) * WINDOW;
    }
  }

  /** No call for the key has yet been admitted in a window newer than the stored one. */
  ghost predicate Newest(limit: nat, calls: seq<Call>, key: string) {
    var windows := Run(limit, calls);
    key in windows ==>
      forall w: real, to: real :: w >= windows[key].0 + WINDOW ==> Admitted(limit, calls, key, w, to) == 0
  }

  lemma {:induction false} RunTracks(limit: nat, calls: seq<Call>, key: string)
    requires ClockNeverGoesBack(calls)
    ensures Tracks(limit, calls, key) && Newest(limit, calls, key)
    ensures forall w: real :: Aligned(w) ==> Admitted(limit, calls, key, w, w + WINDOW) <= limit
  {
    if calls != [] {
      var init, last := calls[..|calls| - 1], calls[|calls| - 1];
      RunTracks(limit, init, key);
      TrackNext(limit, init, last, key);
      assert calls == init + [last];
    }
  }

  lemma AdmittedNext(limit: nat, init: seq<Call>, last: Call, key: string, from: real, to: real)
    ensures Admitted(limit, init + [last], key, from, to)
            == Admitted(limit, init, key, from, to)
               + if last.key == key && from <= last.now < to && CountAt(Run(limit, init), key, last.now) < limit then 1 else 0
    ensures Run(limit, init + [last]) == After(limit, Run(limit, init), last.key, last.now)
  {
    assert (init + [last])[..|init|] == init;
  }

  lemma TrackNext(limit: nat, init: seq<Call>, last: Call, key: string)
    requires ClockNeverGoesBack(init + [last])
    requires Tracks(limit, init, key) && Newest(limit, init, key)
    requires forall w: real :: Aligned(w) ==> Admitted(limit, init, key, w, w + WINDOW) <= limit
    ensures Tracks(limit, init + [last], key) && Newest(limit, init + [last], key)
    ensures forall w: real :: Aligned(w) ==> Admitted(limit, init + [last], key, w, w + WINDOW) <= limit
  {
    hide Run;
    hide Admitted;
    hide WindowStart;
    var calls := init + [last];
    var windows := Run(limit, init);
    var start := WindowStart(last.now);
    forall from: real, to: real
      ensures Admitted(limit, calls, key, from, to)
              == Admitted(limit, init, key, from, to)
                 + if last.key == key && from <= last.now < to && CountAt(windows, key, last.now) < limit then 1 else 0
    {
      AdmittedNext(limit, init, last, key, from, to);
    }
    AdmittedNext(limit, init, last, key, 0.0, 0.0);
    InWindow(last.now);
    StartAligned(last.now);
    assert calls[|init|] == last;
    forall i | 0 <= i < |init|
      ensures calls[i] == init[i] && init[i].now <= last.now
    {
      assert calls[i].now <= calls[|init|].now;
    }
    if last.key == key && CountAt(windows, key, last.now) < limit {
      if key in windows {
        var i :| 0 <= i < |init| && windows[key].0 <= init[i].now;
        assert windows[key].0 <= last.now;
        StartMonotone(windows[key].0, last.now);
        if windows[key].0 != start { Apart(windows[key].0, last.now); }
      }
      forall w: real | Aligned(w) && w <= last.now < w + WINDOW
        ensures w == start
      {
        OneWindow(w, last.now);
      }
    }
  }

  lemma Apart(w: real, now: real)
    requires Aligned(w) && w <= now && WindowStart(now) != w
    ensures WindowStart(now) >= w + WINDOW
  {
    if now < w + WINDOW { OneWindow(w, now); }
    StartAligned(w);
    StartMonotone(w + WINDOW, now);
  }

  lemma {:induction false} AdmittedSplits(limit: nat, calls: seq<Call>, key: string, from: real, to: real, a: real, m: real, b: real)
    requires a <= from && to <= b && a <= m <= b
    ensures Admitted(limit, calls, key, from, to) <= Admitted(limit, calls, key, a, m) + Admitted(limit, calls, key, m, b)
  {
    if calls != [] { AdmittedSplits(limit, calls[..|calls| - 1], key, from, to, a, m, b); }
  }

  /** With a clock that never goes back, an aligned window admits at most the limit per key,
      and any half-open interval of one window's length at most twice the limit. */
  lemma AdmissionBounds(limit: nat, calls: seq<Call>, key: string, t: real)
    requires ClockNeverGoesBack(calls)
    ensures Aligned(t) ==> Admitted(limit, calls, key, t, t + WINDOW) <= limit
    ensures Admitted(limit, calls, key, t, t + WINDOW) <= 2 * limit
  {
    RunTracks(limit, calls, key);
    InWindow(t);
    StartAligned(t);
    var w := WindowStart(t);
    AdmittedSplits(limit, calls, key, t, t + WINDOW, w, w + WINDOW, w + WINDOW + WINDOW);
  }

  /** A call is allowed exactly when its key has not yet used up the limit in the aligned
      window the call falls into. */
  lemma AllowedExactly(limit: nat, calls: seq<Call>, key: string, now: real)
    requires ClockNeverGoesBack(calls + [Call(key, now)])
    ensures CountAt(Run(limit, calls), key, now) == Admitted(limit, calls, key, WindowStart(now), WindowStart(now) + WINDOW)
  {
    var all := calls + [Call(key, now)];
    assert all[|calls|].now == now;
    forall i | 0 <= i < |calls|
      ensures all[i] == calls[i] && calls[i].now <= now
    {
    }
    assert ClockNeverGoesBack(calls);
    RunTracks(limit, calls, key);
    var windows := Run(limit, calls);
    if key in windows && windows[key].0 != WindowStart(now) { Apart(windows[key].0, now); }
  }

  lemma TwoCalls(a: Call, b: Call, key: string, from: real, to: real)
    ensures Admitted(1, [a, b], key, from, to) == Admitted(1, [a], key, from, to)
            + if b.key == key && from <= b.now < to && CountAt(Run(1, [a]), key, b.now) < 1 then 1 else 0
    ensures Admitted(1, [a], key, from, to) == if a.key == key && from <= a.now < to then 1 else 0
    ensures Run(1, [a]) == map[a.key := (WindowStart(a.now), 1)]
    ensures Run(1, [a, b]) == After(1, map[a.key := (WindowStart(a.now), 1)], b.key, b.now)
  {
    assert [a][..0] == [] && [a, b][..1] == [a];
    assert Run(1, []) == map[];
    assert CountAt(map[], key, a.now) == 0;
  }

  /** Twice the limit is reached: the end of one window and the start of the next. */
  lemma TwiceTheLimit()
    ensures Admitted(1, [Call("k", 59.0), Call("k", 60.0)], "k", 59.0, 119.0) == 2
  {
    TwoCalls(Call("k", 59.0), Call("k", 60.0), "k", 59.0, 119.0);
    assert WindowStart(59.0) == 0.0 && WindowStart(60.0) == 60.0;
  }

  /** A clock that goes back forgets what a window has admitted. */
  lemma GoingBackForgets()
    ensures Admitted(1, [Call("k", 0.0), Call("k", 60.0), Call("k", 0.0)], "k", 0.0, 60.0) == 2
  {
    var a, b := Call("k", 0.0), Call("k", 60.0);
    TwoCalls(a, b, "k", 0.0, 60.0);
    assert WindowStart(0.0) == 0.0 && WindowStart(60.0) == 60.0;
    AdmittedNext(1, [a, b], a, "k", 0.0, 60.0);
    assert [a, b] + [a] == [a, b, a];
  }
}
