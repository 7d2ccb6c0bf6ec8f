/** The gateway's sliding-window rate limiter. */
module RateLimiter {
  import opened Text
  import opened Instants

  /** Elapsed time, never negative. */
  function Since(t: int, now: int): (d: nat) { if now >= t then now - t else 0 }

  /** The timestamps younger than one second. */
  function Recent(ts: seq<int>, now: int): (r: seq<int>)
  {
    if ts == [] then []
    else
      var rest := Recent(ts[..|ts| - 1], now);
      if Since(ts[|ts| - 1], now) < SECOND then rest + [ts[|ts| - 1]] else rest
  }

  datatype Limits = Limits(perSecond: nat, burst: nat)

  /** One check: the verdict and the timestamps kept afterwards. */
  function Step(l: Limits, ts: seq<int>, now: int): (r: (bool, seq<int>))
  {
    var kept := Recent(ts, now);
    if |kept| >= l.burst then (false, kept)
    else if |kept| >= l.perSecond then (false, kept)
    else (true, kept + [now])
  }

  class RateLimiter {
    const limits: Limits
    var timestamps: seq<int>

    constructor (perSecond: nat, burst: nat)
      ensures limits == Limits(perSecond, burst) && timestamps == []
    {
      limits := Limits(perSecond, burst);
      timestamps := [];
    }

    method Check(now: int) returns (ok: bool)
      modifies this
      ensures (ok, timestamps) == Step(limits, old(timestamps), now)
    {
      timestamps := Recent(timestamps, now);
      if |timestamps| >= limits.burst { return false; }
      if |timestamps| >= limits.perSecond { return false; }
      timestamps := timestamps + [now];
      return true;
    }
  }

  // ---- Runs in clock order ---------------------------------------------------------

  predicate Ordered(times: seq<int>)
  {
    forall i, j :: 0 <= i <= j < |times| ==> times[i] <= times[j]
  }

  /** The timestamps held after checks at the first `n` times. */
  function Held(l: Limits, times: seq<int>, n: nat): (ts: seq<int>)
    requires n <= |times|
  {
    if n == 0 then [] else Step(l, Held(l, times, n - 1), times[n - 1]).1
  }

  predicate Accepted(l: Limits, times: seq<int>, i: nat)
    requires i < |times|
  {
    Step(l, Held(l, times, i), times[i]).0
  }

  /** Checks before the `n`th that were accepted less than a second before `now`. */
  function Window(l: Limits, times: seq<int>, n: nat, now: int): (w: set<nat>)
    requires n <= |times|
  {
    set i: nat | i < n && Accepted(l, times, i) && now - times[i] < SECOND
  }

  lemma {:induction false} RecentSnoc(ts: seq<int>, t: int, now: int)
    ensures Recent(ts + [t], now) == if Since(t, now) < SECOND then Recent(ts, now) + [t] else Recent(ts, now)
  {
    assert (ts + [t])[..|ts|] == ts;
  }

  /** Dropping the old ones earlier makes no difference later. */
  lemma {:induction false} RecentTwice(ts: seq<int>, earlier: int, now: int)
    requires earlier <= now
    ensures Recent(Recent(ts, earlier), now) == Recent(ts, now)
  {
    if ts != [] {
      var n := |ts| - 1;
      RecentTwice(ts[..n], earlier, now);
      if Since(ts[n], earlier) < SECOND { RecentSnoc(Recent(ts[..n], earlier), ts[n], now); }
    }
  }

  lemma WindowGrows(l: Limits, times: seq<int>, n: nat, now: int)
    requires n < |times|
    ensures
      var w := Window(l, times, n, now);
      |Window(l, times, n + 1, now)|
      == if Accepted(l, times, n) && now - times[n] < SECOND then |w| + 1 else |w|
  {
    hide Accepted;
    var w := Window(l, times, n, now);
    if Accepted(l, times, n) && now - times[n] < SECOND {
      assert Window(l, times, n + 1, now) == w + {n};
    } else {
      assert Window(l, times, n + 1, now) == w;
    }
  }

  lemma HeldGrows(l: Limits, times: seq<int>, n: nat, now: int)
    requires n < |times| && times[n] <= now
    ensures
      var held := Recent(Held(l, times, n), now);
      |Recent(Held(l, times, n + 1), now)|
      == if Accepted(l, times, n) && now - times[n] < SECOND then |held| + 1 else |held|
  {
    hide Recent;
    var before := Held(l, times, n);
    RecentTwice(before, times[n], now);
    RecentSnoc(Recent(before, times[n]), times[n], now);
  }

  /** What the limiter holds is exactly the accepted checks of the last second. */
  lemma {:induction false} HeldIsWindow(l: Limits, times: seq<int>, n: nat, now: int)
    requires Ordered(times) && n <= |times| && (n > 0 ==> times[n - 1] <= now)
    ensures |Recent(Held(l, times, n), now)| == |Window(l, times, n, now)|
  {
    hide Accepted, Since;
    if n == 0 {
      assert Window(l, times, 0, now) == {};
    } else {
      assert n > 1 ==> times[n - 2] <= times[n - 1];
      HeldIsWindow(l, times, n - 1, now);
      HeldGrows(l, times, n - 1, now);
      WindowGrows(l, times, n - 1, now);
    }
  }

  /** A check is refused exactly when the bound was already reached within the preceding second. */
  lemma RefusedExactly(l: Limits, times: seq<int>, i: nat)
    requires Ordered(times) && i < |times|
    ensures
      var n := |Window(l, times, i, times[i])|;
      !Accepted(l, times, i) <==> n >= l.perSecond || n >= l.burst
  {
    HeldIsWindow(l, times, i, times[i]);
  }

  lemma {:induction false} Latest(s: set<nat>) returns (m: nat)
    requires s != {}
    ensures m in s && forall i :: i in s ==> i <= m
  {
    m :| m in s;
    var rest := s - {m};
    assert forall i :: i in s ==> i == m || i in rest;
    if rest != {} {
      var k := Latest(rest);
      if m < k { m := k; }
    }
  }

  /** Any set of accepted checks that spans less than a second is within the bound. */
  lemma AtMostBound(l: Limits, times: seq<int>, s: set<nat>)
    requires Ordered(times)
    requires forall i :: i in s ==> i < |times| && Accepted(l, times, i)
    requires forall i, j :: i in s && j in s ==> times[j] - times[i] < SECOND
    ensures |s| <= l.perSecond && |s| <= l.burst
  {
    if s != {} {
      var m := Latest(s);
      var others := s - {m};
      assert others <= Window(l, times, m, times[m]);
      SubsetIsSmaller(others, Window(l, times, m, times[m]));
      RefusedExactly(l, times, m);
    }
  }
}
