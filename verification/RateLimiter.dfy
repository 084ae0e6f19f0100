/** The dashboard's sliding-window rate limiter (`RateLimiter` in `app.py`). */
module RateLimiter {
  import opened Common

  /** Calls in time order: who called, and when. */
  datatype Call = Call(key: string, now: real)

  /** Admissions that still count at a moment: those at most `window` old. */
  function Recent(admitted: seq<real>, now: real, window: real): seq<real> {
    if admitted == [] then []
    else Recent(admitted[..|admitted| - 1], now, window)
         + if now - admitted[|admitted| - 1] <= window then [admitted[|admitted| - 1]] else []
  }

  /** The rule: admitted exactly when fewer than `limit` admissions still count. */
  function Admits(admitted: seq<real>, now: real, limit: nat, window: real): bool {
    |Recent(admitted, now, window)| < limit
  }

  /** All admissions of one key over a run of calls, by the rule. */
  function Admitted(calls: seq<Call>, key: string, limit: nat, window: real): seq<real> {
    if calls == [] then []
    else
      var before, c := Admitted(calls[..|calls| - 1], key, limit, window), calls[|calls| - 1];
      if c.key == key && Admits(before, c.now, limit, window) then before + [c.now] else before
  }

  ghost predicate Sorted(ts: seq<real>) {
    forall i, j | 0 <= i < j < |ts| :: ts[i] <= ts[j]
  }

  ghost predicate InOrder(calls: seq<Call>) {
    forall i, j | 0 <= i < j < |calls| :: calls[i].now <= calls[j].now
  }

  // ---------------------------------------------------------------- windows of sorted times

  lemma {:induction false} RecentSnoc(ts: seq<real>, t: real, now: real, window: real)
    ensures Recent(ts + [t], now, window) == Recent(ts, now, window) + if now - t <= window then [t] else []
  {
    assert (ts + [t])[..|ts|] == ts;
  }

  /** The admissions that count are a suffix; they are found by dropping old ones from the front. */
  lemma {:induction false} RecentIsSuffix(ts: seq<real>, now: real, window: real, n: nat)
    requires Sorted(ts) && n <= |ts|
    requires forall i | 0 <= i < n :: now - ts[i] > window
    requires n < |ts| ==> now - ts[n] <= window
    ensures Recent(ts, now, window) == ts[n..]
    decreases |ts|
  {
    if ts != [] {
      var m := |ts| - 1;
      if n == |ts| {
        RecentIsSuffix(ts[..m], now, window, m);
      } else if n == m {
        RecentIsSuffix(ts[..m], now, window, m);
      } else {
        RecentIsSuffix(ts[..m], now, window, n);
        assert now - ts[m] <= now - ts[n];
        assert ts[n..] == ts[..m][n..] + [ts[m]];
      }
    }
  }

  /** What counts later is part of what counts now. */
  lemma {:induction false} RecentOfRecent(ts: seq<real>, now: real, later: real, window: real)
    requires now <= later
    ensures Recent(Recent(ts, now, window), later, window) == Recent(ts, later, window)
    decreases |ts|
  {
    if ts != [] {
      var m := |ts| - 1;
      RecentOfRecent(ts[..m], now, later, window);
      if now - ts[m] <= window {
        RecentSnoc(Recent(ts[..m], now, window), ts[m], later, window);
      } else {
        assert Recent(ts[..m], now, window) + [] == Recent(ts[..m], now, window);
        assert later - ts[m] > window;
      }
    }
  }

  lemma {:induction false} RecentSorted(ts: seq<real>, now: real, window: real)
    requires Sorted(ts)
    ensures Sorted(Recent(ts, now, window))
    ensures forall t | t in Recent(ts, now, window) :: t in ts
    decreases |ts|
  {
    if ts != [] {
      var m := |ts| - 1;
      RecentSorted(ts[..m], now, window);
      forall t | t in Recent(ts[..m], now, window) ensures t <= ts[m] {
        var i :| 0 <= i < m && ts[..m][i] == t;
        assert ts[i] == t;
      }
      var r := Recent(ts[..m], now, window);
      assert forall i | 0 <= i < |r| :: r[i] in r;
    }
  }

  // ---------------------------------------------------------------- the bound over whole runs

  lemma {:induction false} AdmittedInOrder(calls: seq<Call>, key: string, limit: nat, window: real)
    requires InOrder(calls)
    ensures var a := Admitted(calls, key, limit, window);
            Sorted(a) && forall i | 0 <= i < |a| :: calls != [] && a[i] <= calls[|calls| - 1].now
    decreases |calls|
  {
    if calls != [] {
      AdmittedInOrder(calls[..|calls| - 1], key, limit, window);
    }
  }

  /** Any `limit` + 1 consecutive admissions of one key span more than the window. */
  lemma {:induction false} WindowBound(calls: seq<Call>, key: string, limit: nat, window: real, i: nat)
    requires InOrder(calls)
    requires i + limit < |Admitted(calls, key, limit, window)|
    ensures var a := Admitted(calls, key, limit, window); a[i + limit] - a[i] > window
    decreases |calls|
  {
    var n := |calls| - 1;
    var before, c := Admitted(calls[..n], key, limit, window), calls[n];
    if i + limit < |before| {
      WindowBound(calls[..n], key, limit, window, i);
    } else {
      AdmittedInOrder(calls[..n], key, limit, window);
      NewestBound(before, c.now, limit, window);
    }
  }

  /** If a new admission is allowed, the `limit`-th most recent one is already out of the window. */
  lemma {:induction false} NewestBound(ts: seq<real>, now: real, limit: nat, window: real)
    requires Sorted(ts) && Admits(ts, now, limit, window) && |ts| >= limit
    ensures limit > 0 ==> now - ts[|ts| - limit] > window
  {
    if limit > 0 && now - ts[|ts| - limit] <= window {
      var n := 0;
      while n < |ts| - limit && now - ts[n] > window
        invariant n <= |ts| - limit
        invariant forall i | 0 <= i < n :: now - ts[i] > window
      {
        n := n + 1;
      }
      RecentIsSuffix(ts, now, window, n);
    }
  }

  lemma {:induction false} FirstRecent(ts: seq<real>, now: real, window: real) returns (n: nat)
    requires Sorted(ts)
    ensures n <= |ts| && Recent(ts, now, window) == ts[n..] && (n < |ts| ==> now - ts[n] <= window)
  {
    n := 0;
    while n < |ts| && now - ts[n] > window
      invariant n <= |ts|
      invariant forall i | 0 <= i < n :: now - ts[i] > window
    {
      n := n + 1;
    }
    RecentIsSuffix(ts, now, window, n);
  }

  /** Never do more than `limit` admissions of a key lie within the last window. */
  lemma {:induction false} NeverOverfull(calls: seq<Call>, key: string, limit: nat, window: real, now: real)
    requires InOrder(calls) && (calls != [] ==> calls[|calls| - 1].now <= now)
    ensures |Recent(Admitted(calls, key, limit, window), now, window)| <= limit
  {
    var a := Admitted(calls, key, limit, window);
    AdmittedInOrder(calls, key, limit, window);
    var n := FirstRecent(a, now, window);
    if |a| - n > limit {
      WindowBound(calls, key, limit, window, n);
    }
  }

  /** A call is refused exactly when `limit` admissions of its key lie within the last window, and calls for
      other keys change nothing. */
  lemma {:induction false} RefusedExactlyWhenFull(calls: seq<Call>, c: Call, key: string, limit: nat, window: real)
    requires InOrder(calls + [c])
    ensures var before, after := Admitted(calls, key, limit, window), Admitted(calls + [c], key, limit, window);
            after == if c.key != key || |Recent(before, c.now, window)| == limit then before else before + [c.now]
  {
    var all := calls + [c];
    assert all[..|calls|] == calls;
    assert forall i | 0 <= i < |calls| :: all[i] == calls[i];
    assert InOrder(calls) && (calls != [] ==> all[|calls| - 1].now <= all[|calls|].now);
    NeverOverfull(calls, key, limit, window, c.now);
  }

  // ---------------------------------------------------------------- the class

  class RateLimiter {
    const limit: nat
    const window: real
    var hits: map<string, seq<real>>
    ghost var calls: seq<Call>

    ghost predicate Valid()
      reads this
    {
      BucketsStand(hits, calls, limit, window)
    }

    constructor (limit: nat, window: real)
      ensures Valid() && calls == [] && this.limit == limit && this.window == window
    {
      this.limit := limit;
      this.window := window;
      hits := map[];
      calls := [];
    }

    /** `allow`, with the clock as a parameter. */
    method Allow(key: string, now: real) returns (ok: bool)
      requires Valid()
      requires calls != [] ==> calls[|calls| - 1].now <= now
      modifies this
      ensures Valid() && calls == old(calls) + [Call(key, now)]
      ensures ok == Admits(Admitted(old(calls), key, limit, window), now, limit, window)
    {
      var bucket := if key in hits then hits[key] else [];
      assert Stands(BucketOf(hits, key), Admitted(calls, key, limit, window), calls, window);
      bucket := DropOld(bucket, now, window);
      ok := |bucket| < limit;
      if ok {
        bucket := bucket + [now];
      }
      AllowKeepsBuckets(hits, calls, Call(key, now), bucket, limit, window);
      hits := hits[key := bucket];
      calls := calls + [Call(key, now)];
    }
  }

  function BucketOf(hits: map<string, seq<real>>, k: string): seq<real> {
    if k in hits then hits[k] else []
  }

  /** Each bucket stands for the full list of admissions: from the last call on, both have the same
      entries that still count. */
  ghost predicate BucketsStand(hits: map<string, seq<real>>, calls: seq<Call>, limit: nat, window: real) {
    InOrder(calls) && forall k :: Stands(BucketOf(hits, k), Admitted(calls, k, limit, window), calls, window)
  }

  /** `bucket` and `admitted` agree on every moment from the last call on. */
  ghost predicate Stands(bucket: seq<real>, admitted: seq<real>, calls: seq<Call>, window: real) {
    && Sorted(bucket)
    && forall later: real | calls == [] || calls[|calls| - 1].now <= later ::
         Recent(bucket, later, window) == Recent(admitted, later, window)
  }

  lemma {:induction false} AllowKeepsBuckets(hits: map<string, seq<real>>, calls: seq<Call>, c: Call, bucket: seq<real>,
                                             limit: nat, window: real)
    requires BucketsStand(hits, calls, limit, window)
    requires calls != [] ==> calls[|calls| - 1].now <= c.now
    requires var r := Recent(Admitted(calls, c.key, limit, window), c.now, window);
             bucket == if |r| < limit then r + [c.now] else r
    ensures BucketsStand(hits[c.key := bucket], calls + [c], limit, window)
  {
    OrderSnoc(calls, c);
    forall k
      ensures Stands(BucketOf(hits[c.key := bucket], k), Admitted(calls + [c], k, limit, window), calls + [c], window)
    {
      assert Stands(BucketOf(hits, k), Admitted(calls, k, limit, window), calls, window);
      if k == c.key {
        CallerStands(calls, c, bucket, limit, window);
      } else {
        OthersStand(BucketOf(hits, k), k, calls, c, limit, window);
      }
    }
  }

  lemma {:induction false} OrderSnoc(calls: seq<Call>, c: Call)
    requires InOrder(calls) && (calls != [] ==> calls[|calls| - 1].now <= c.now)
    ensures InOrder(calls + [c])
  {
    var calls' := calls + [c];
    forall i, j | 0 <= i < j < |calls'| ensures calls'[i].now <= calls'[j].now {
      if j == |calls| { assert calls[i].now <= calls[|calls| - 1].now; }
    }
  }

  lemma {:induction false} CallerStands(calls: seq<Call>, c: Call, bucket: seq<real>, limit: nat, window: real)
    requires InOrder(calls + [c])
    requires var r := Recent(Admitted(calls, c.key, limit, window), c.now, window);
             bucket == if |r| < limit then r + [c.now] else r
    ensures Stands(bucket, Admitted(calls + [c], c.key, limit, window), calls + [c], window)
  {
    var a := Admitted(calls, c.key, limit, window);
    var r := Recent(a, c.now, window);
    assert InOrder(calls) by {
      assert forall i | 0 <= i < |calls| :: (calls + [c])[i] == calls[i];
    }
    StandsAfter(calls, c, a, |r| < limit, limit, window);
    assert r + [] == r;
  }

  lemma {:induction false} OthersStand(bucket: seq<real>, k: string, calls: seq<Call>, c: Call, limit: nat,
                                       window: real)
    requires k != c.key && InOrder(calls + [c])
    requires Stands(bucket, Admitted(calls, k, limit, window), calls, window)
    ensures Stands(bucket, Admitted(calls + [c], k, limit, window), calls + [c], window)
  {
    RefusedExactlyWhenFull(calls, c, k, limit, window);
    var calls' := calls + [c];
    assert calls != [] ==> calls'[|calls| - 1].now <= calls'[|calls|].now;
  }

  lemma {:induction false} AdmittedSnoc(calls: seq<Call>, c: Call, limit: nat, window: real)
    ensures var before := Admitted(calls, c.key, limit, window);
            Admitted(calls + [c], c.key, limit, window)
            == before + if Admits(before, c.now, limit, window) then [c.now] else []
  {
    assert (calls + [c])[..|calls|] == calls;
    var before := Admitted(calls, c.key, limit, window);
    assert before + [] == before;
  }

  lemma {:induction false} BucketSorted(calls: seq<Call>, c: Call, a: seq<real>, ok: bool, limit: nat, window: real)
    requires InOrder(calls + [c]) && a == Admitted(calls, c.key, limit, window)
    ensures Sorted(Recent(a, c.now, window) + if ok then [c.now] else [])
  {
    var all := calls + [c];
    assert forall i | 0 <= i < |calls| :: calls[i] == all[i];
    AdmittedInOrder(calls, c.key, limit, window);
    RecentSorted(a, c.now, window);
    var r := Recent(a, c.now, window);
    forall t | t in r ensures t <= c.now {
      var i :| 0 <= i < |a| && a[i] == t;
      assert all[|calls| - 1].now <= all[|calls|].now;
    }
    assert forall i | 0 <= i < |r| :: r[i] in r;
  }

  lemma {:induction false} StandsLater(a: seq<real>, now: real, ok: bool, later: real, window: real)
    requires now <= later
    ensures Recent(Recent(a, now, window) + if ok then [now] else [], later, window)
         == Recent(a + if ok then [now] else [], later, window)
  {
    RecentOfRecent(a, now, later, window);
    var r := Recent(a, now, window);
    if ok {
      RecentSnoc(r, now, later, window);
      RecentSnoc(a, now, later, window);
    } else {
      assert r + [] == r && a + [] == a;
    }
  }

  lemma {:induction false} StandsAfter(calls: seq<Call>, c: Call, a: seq<real>, ok: bool, limit: nat, window: real)
    requires InOrder(calls + [c]) && a == Admitted(calls, c.key, limit, window)
    requires ok == (|Recent(a, c.now, window)| < limit)
    ensures Stands(Recent(a, c.now, window) + if ok then [c.now] else [],
                   Admitted(calls + [c], c.key, limit, window), calls + [c], window)
  {
    BucketSorted(calls, c, a, ok, limit, window);
    AdmittedSnoc(calls, c, limit, window);
    var bucket := Recent(a, c.now, window) + if ok then [c.now] else [];
    forall later: real | c.now <= later
      ensures Recent(bucket, later, window) == Recent(Admitted(calls + [c], c.key, limit, window), later, window)
    {
      StandsLater(a, c.now, ok, later, window);
    }
  }

  /** The front-popping loop. */
  method DropOld(ts: seq<real>, now: real, window: real) returns (bucket: seq<real>)
    requires Sorted(ts)
    ensures bucket == Recent(ts, now, window)
  {
    bucket := ts;
    ghost var n := 0;
    while bucket != [] && now - bucket[0] > window
      invariant n <= |ts| && bucket == ts[n..]
      invariant forall i | 0 <= i < n :: now - ts[i] > window
      decreases |bucket|
    {
      bucket := bucket[1..];
      n := n + 1;
    }
    RecentIsSuffix(ts, now, window, n);
  }
}
