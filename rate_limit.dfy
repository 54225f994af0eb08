/** The in-memory sliding-window limiter of `lib/rateLimit.js`: per IP, the
    timestamps of the calls it let through; a call is allowed while fewer than
    five of them fall in the last minute. The clock read is a parameter
    (`now`, in milliseconds). */
module RateLimit {
  const WindowMs: int := 60000
  const MaxRequests: int := 5

  /** `ts.filter((t) => t > windowStart)`. */
  function Recent(ts: seq<int>, windowStart: int): (r: seq<int>)
    ensures |r| <= |ts|
    ensures forall t :: t in r <==> t in ts && t > windowStart
    decreases |ts|
  {
    if ts == [] then []
    else
      var n := |ts| - 1;
      assert forall t :: t in ts <==> t in ts[..n] || t == ts[n];
      Recent(ts[..n], windowStart) + (if ts[n] > windowStart then [ts[n]] else [])
  }

  /** `store.get(ip) || []`. */
  function Stored(store: map<string, seq<int>>, ip: string): seq<int> {
    if ip in store then store[ip] else []
  }

  /** What `rateLimit` returns. */
  datatype Verdict = Verdict(allowed: bool, remaining: int)

  /** One call of `rateLimit(ip)` at time `now`: the verdict and the new store. */
  function Step(store: map<string, seq<int>>, ip: string, now: int): (map<string, seq<int>>, Verdict) {
    var timestamps := Recent(Stored(store, ip), now - WindowMs);
    if |timestamps| >= MaxRequests then (store, Verdict(false, 0))
    else
      var kept := timestamps + [now];
      (store[ip := kept], Verdict(true, MaxRequests - |kept|))
  }

  /** The limiter, with its module-level `store` map as a field. */
  class RateLimiter {
    var store: map<string, seq<int>>

    constructor()
      ensures store == map[]
    {
      store := map[];
    }

    /** `rateLimit(ip)` at time `now`. */
    method Check(ip: string, now: int) returns (v: Verdict)
      modifies this
      ensures (store, v) == Step(old(store), ip, now)
      ensures v.allowed <==> |Recent(Stored(old(store), ip), now - WindowMs)| < MaxRequests
    {
      var timestamps := Recent(Stored(store, ip), now - WindowMs);
      if |timestamps| >= MaxRequests {
        return Verdict(false, 0);
      }
      timestamps := timestamps + [now];
      store := store[ip := timestamps];
      v := Verdict(true, MaxRequests - |timestamps|);
    }
  }

  // ------------------------------------------------------- one call

  /** A call is allowed iff fewer than five stored timestamps for the IP lie
      strictly after `now - 60000`; a denied call returns 0 and keeps the
      store. */
  lemma StepDecision(store: map<string, seq<int>>, ip: string, now: int)
    ensures var (s, v) := Step(store, ip, now);
      (v.allowed <==> |Recent(Stored(store, ip), now - WindowMs)| < MaxRequests)
      && (!v.allowed ==> v.remaining == 0 && s == store)
  {
  }

  /** An allowed call stores the pruned list followed by `now` for that IP,
      returns five minus the new length, which is in [0, 4], and leaves at
      most five timestamps, all within the last minute. */
  lemma StepAllowed(store: map<string, seq<int>>, ip: string, now: int)
    ensures var (s, v) := Step(store, ip, now);
      v.allowed ==>
        ip in s && s[ip] == Recent(Stored(store, ip), now - WindowMs) + [now]
        && v.remaining == MaxRequests - |s[ip]| && 0 <= v.remaining <= 4
        && |s[ip]| <= MaxRequests
        && (forall t :: t in s[ip] ==> t > now - WindowMs)
  {
  }

  /** The entries of other IPs are never touched. */
  lemma StepOtherIps(store: map<string, seq<int>>, ip: string, now: int, other: string)
    requires other != ip
    ensures var s := Step(store, ip, now).0;
      (other in s <==> other in store) && Stored(s, other) == Stored(store, other)
  {
  }

  // ------------------------------------------------------- traces

  /** A call of `rateLimit(ip)` at time `now`. */
  datatype Call = Call(ip: string, now: int)

  /** The calls of `calls` in order, from an empty store: the final store and
      the calls that were allowed, in order. */
  function Run(calls: seq<Call>): (map<string, seq<int>>, seq<Call>)
    decreases |calls|
  {
    if calls == [] then (map[], [])
    else
      var n := |calls| - 1;
      var (store, granted) := Run(calls[..n]);
      var (s, v) := Step(store, calls[n].ip, calls[n].now);
      (s, granted + (if v.allowed then [calls[n]] else []))
  }

  /** The times of the calls of `ip` in `calls`, in order. */
  function TimesOf(calls: seq<Call>, ip: string): (ts: seq<int>)
    ensures |ts| <= |calls|
    decreases |calls|
  {
    if calls == [] then []
    else
      var n := |calls| - 1;
      TimesOf(calls[..n], ip) + (if calls[n].ip == ip then [calls[n].now] else [])
  }

  /** How many of `ts` fall in the minute ending at `t`, that is in
      (`t - 60000`, `t`]. */
  function Window(ts: seq<int>, t: int): (c: nat)
    ensures c <= |ts|
    decreases |ts|
  {
    if ts == [] then 0
    else
      var n := |ts| - 1;
      Window(ts[..n], t) + (if t - WindowMs < ts[n] <= t then 1 else 0)
  }

  predicate NonDecreasing(calls: seq<Call>) {
    forall i, j :: 0 <= i < j < |calls| ==> calls[i].now <= calls[j].now
  }

  /** No IP has more than five allowed calls in any minute. */
  ghost predicate WindowBounded(granted: seq<Call>) {
    forall ip, t :: Window(TimesOf(granted, ip), t) <= MaxRequests
  }

  /** The stored lists agree with the allowed calls on every window that
      starts no earlier than a minute before `last`. */
  ghost predicate Tracks(store: map<string, seq<int>>, granted: seq<Call>, last: int) {
    forall ip, w :: w >= last - WindowMs ==> Recent(Stored(store, ip), w) == Recent(TimesOf(granted, ip), w)
  }

  predicate NotAfter(ts: seq<int>, last: int) {
    forall k :: 0 <= k < |ts| ==> ts[k] <= last
  }

  lemma {:induction false} RecentTwice(ts: seq<int>, a: int, b: int)
    requires a <= b
    ensures Recent(Recent(ts, a), b) == Recent(ts, b)
    decreases |ts|
  {
    if ts != [] {
      var n := |ts| - 1;
      RecentTwice(ts[..n], a, b);
      var r := Recent(ts[..n], a);
      assert Recent(ts, b) == Recent(ts[..n], b) + (if ts[n] > b then [ts[n]] else []);
      if ts[n] > a {
        assert Recent(ts, a) == r + [ts[n]];
        RecentSnoc(r, ts[n], b);
      } else {
        assert Recent(ts, a) == r + [];
        assert r + [] == r;
      }
    }
  }

  lemma {:induction false} RecentShrinks(ts: seq<int>, a: int, b: int)
    requires a <= b
    ensures |Recent(ts, b)| <= |Recent(ts, a)|
    decreases |ts|
  {
    if ts != [] {
      RecentShrinks(ts[..|ts| - 1], a, b);
    }
  }

  /** When nothing in `ts` is after `t`, the minute ending at `t` counts the
      entries after `t - 60000`. */
  lemma {:induction false} WindowOfPast(ts: seq<int>, t: int)
    requires NotAfter(ts, t)
    ensures Window(ts, t) == |Recent(ts, t - WindowMs)|
    decreases |ts|
  {
    if ts != [] {
      var n := |ts| - 1;
      assert NotAfter(ts[..n], t) by {
        forall k | 0 <= k < n
          ensures ts[..n][k] <= t
        {
          assert ts[..n][k] == ts[k];
        }
      }
      WindowOfPast(ts[..n], t);
    }
  }

  lemma TimesOfSnoc(calls: seq<Call>, c: Call, ip: string)
    ensures c.ip == ip ==> TimesOf(calls + [c], ip) == TimesOf(calls, ip) + [c.now]
    ensures c.ip != ip ==> TimesOf(calls + [c], ip) == TimesOf(calls, ip)
  {
    assert (calls + [c])[..|calls|] == calls;
    assert TimesOf(calls, ip) + [] == TimesOf(calls, ip);
  }

  lemma {:induction false} TimesOfNotAfter(calls: seq<Call>, ip: string, last: int)
    requires forall k :: 0 <= k < |calls| ==> calls[k].now <= last
    ensures NotAfter(TimesOf(calls, ip), last)
    decreases |calls|
  {
    if calls != [] {
      var n := |calls| - 1;
      TimesOfNotAfter(calls[..n], ip, last);
    }
  }

  lemma RecentSnoc(ts: seq<int>, t: int, w: int)
    ensures Recent(ts + [t], w) == Recent(ts, w) + (if t > w then [t] else [])
  {
    assert (ts + [t])[..|ts|] == ts;
  }

  lemma WindowSnoc(ts: seq<int>, x: int, t: int)
    ensures Window(ts + [x], t) == Window(ts, t) + (if t - WindowMs < x <= t then 1 else 0)
  {
    assert (ts + [x])[..|ts|] == ts;
  }

  /** The agreement on later windows follows from the agreement on earlier
      ones. */
  lemma TracksLater(store: map<string, seq<int>>, granted: seq<Call>, last: int, later: int)
    requires Tracks(store, granted, last) && later >= last
    ensures Tracks(store, granted, later)
  {
  }

  /** The agreement for the calling IP on one window, after an allowed call. */
  lemma AllowedTracksAt(store: map<string, seq<int>>, granted: seq<Call>, c: Call, w: int)
    requires w >= c.now - WindowMs
    requires Recent(Stored(store, c.ip), w) == Recent(TimesOf(granted, c.ip), w)
    ensures var pruned := Recent(Stored(store, c.ip), c.now - WindowMs);
      Recent(pruned + [c.now], w) == Recent(TimesOf(granted + [c], c.ip), w)
  {
    var pruned := Recent(Stored(store, c.ip), c.now - WindowMs);
    TimesOfSnoc(granted, c, c.ip);
    RecentSnoc(pruned, c.now, w);
    RecentSnoc(TimesOf(granted, c.ip), c.now, w);
    RecentTwice(Stored(store, c.ip), c.now - WindowMs, w);
  }

  /** An allowed call keeps the stored lists in agreement with the allowed
      calls. */
  lemma AllowedKeepsTracks(store: map<string, seq<int>>, granted: seq<Call>, last: int, c: Call)
    requires Tracks(store, granted, last) && c.now >= last
    ensures Tracks(store[c.ip := Recent(Stored(store, c.ip), c.now - WindowMs) + [c.now]], granted + [c], c.now)
  {
    var pruned := Recent(Stored(store, c.ip), c.now - WindowMs);
    var s := store[c.ip := pruned + [c.now]];
    forall ip, w | w >= c.now - WindowMs
      ensures Recent(Stored(s, ip), w) == Recent(TimesOf(granted + [c], ip), w)
    {
      assert Recent(Stored(store, ip), w) == Recent(TimesOf(granted, ip), w);
      if ip == c.ip {
        assert Stored(s, ip) == pruned + [c.now];
        AllowedTracksAt(store, granted, c, w);
      } else {
        assert Stored(s, ip) == Stored(store, ip);
        TimesOfSnoc(granted, c, ip);
      }
    }
  }

  /** An allowed call of `c.ip` at a time no earlier than any allowed call so
      far, where fewer than five stored entries lie in the last minute, keeps
      the bound for that IP. */
  lemma AllowedKeepsBound(store: map<string, seq<int>>, granted: seq<Call>, last: int, c: Call, t: int)
    requires Tracks(store, granted, last) && WindowBounded(granted) && c.now >= last
    requires forall k :: 0 <= k < |granted| ==> granted[k].now <= last
    requires |Recent(Stored(store, c.ip), c.now - WindowMs)| < MaxRequests
    ensures Window(TimesOf(granted + [c], c.ip), t) <= MaxRequests
  {
    TimesOfSnoc(granted, c, c.ip);
    var ts := TimesOf(granted, c.ip);
    WindowSnoc(ts, c.now, t);
    assert Window(ts, t) <= MaxRequests;
    if t - WindowMs < c.now <= t {
      TimesOfNotAfter(granted, c.ip, last);
      assert NotAfter(ts, t);
      WindowOfPast(ts, t);
      RecentShrinks(ts, c.now - WindowMs, t - WindowMs);
      assert Recent(ts, c.now - WindowMs) == Recent(Stored(store, c.ip), c.now - WindowMs);
    }
  }

  /** An allowed call keeps every IP within the bound. */
  lemma AllowedKeepsWindow(store: map<string, seq<int>>, granted: seq<Call>, last: int, c: Call)
    requires Tracks(store, granted, last) && WindowBounded(granted) && c.now >= last
    requires forall k :: 0 <= k < |granted| ==> granted[k].now <= last
    requires |Recent(Stored(store, c.ip), c.now - WindowMs)| < MaxRequests
    ensures WindowBounded(granted + [c])
  {
    forall ip, t
      ensures Window(TimesOf(granted + [c], ip), t) <= MaxRequests
    {
      if ip == c.ip {
        AllowedKeepsBound(store, granted, last, c, t);
      } else {
        TimesOfSnoc(granted, c, ip);
        assert Window(TimesOf(granted, ip), t) <= MaxRequests;
      }
    }
  }

  /** One call at a time no earlier than `last` keeps the agreement and the
      bound. */
  lemma StepKeeps(store: map<string, seq<int>>, granted: seq<Call>, last: int, c: Call)
    requires Tracks(store, granted, last) && WindowBounded(granted) && c.now >= last
    requires forall k :: 0 <= k < |granted| ==> granted[k].now <= last
    ensures var g := granted + (if Step(store, c.ip, c.now).1.allowed then [c] else []);
      Tracks(Step(store, c.ip, c.now).0, g, c.now) && WindowBounded(g)
      && (forall k :: 0 <= k < |g| ==> g[k].now <= c.now)
  {
    var pruned := Recent(Stored(store, c.ip), c.now - WindowMs);
    if |pruned| >= MaxRequests {
      TracksLater(store, granted, last, c.now);
      assert granted + [] == granted;
    } else {
      AllowedKeepsTracks(store, granted, last, c);
      AllowedKeepsWindow(store, granted, last, c);
    }
  }

  /** With non-decreasing times, starting from an empty store, no IP gets
      more than five calls through in any minute. */
  lemma {:induction false} RunWindowBounded(calls: seq<Call>)
    requires NonDecreasing(calls)
    ensures WindowBounded(Run(calls).1)
    ensures calls != [] ==>
      Tracks(Run(calls).0, Run(calls).1, calls[|calls| - 1].now)
      && (forall k :: 0 <= k < |Run(calls).1| ==> Run(calls).1[k].now <= calls[|calls| - 1].now)
    decreases |calls|
  {
    if calls != [] {
      var n := |calls| - 1;
      var prev := calls[..n];
      assert NonDecreasing(prev) by {
        forall i, j | 0 <= i < j < |prev|
          ensures prev[i].now <= prev[j].now
        {
          assert prev[i] == calls[i] && prev[j] == calls[j];
        }
      }
      RunWindowBounded(prev);
      var (store, granted) := Run(prev);
      if n == 0 {
        StepKeeps(store, granted, calls[n].now, calls[n]);
      } else {
        assert prev[n - 1] == calls[n - 1];
        StepKeeps(store, granted, prev[n - 1].now, calls[n]);
      }
    }
  }

  /** The header comment's promise: five requests per minute per IP. */
  lemma FivePerMinute(calls: seq<Call>, ip: string, t: int)
    requires NonDecreasing(calls)
    ensures Window(TimesOf(Run(calls).1, ip), t) <= 5
  {
    RunWindowBounded(calls);
  }
}
