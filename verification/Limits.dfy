/** The two limiters of `src/limits/mod.rs`: a per-socket ring of call times and a per-address
    queue of connection times. Times are milliseconds; the clock is an argument. */
module Limits {

  const WINDOW_MS := 1000

  // ----- What "too many in a window" means, independently of any ring -----

  /** Times never run backwards. */
  ghost predicate Sorted(times: seq<int>) {
    forall i, j :: 0 <= i <= j < |times| ==> times[i] <= times[j]
  }

  /** Positions whose time lies in the closed window that starts at `t`. */
  ghost function InWindow(times: seq<int>, t: int): set<nat> {
    set k: nat | k < |times| && t <= times[k] <= t + WINDOW_MS
  }

  /** No window of WINDOW_MS, wherever it starts, holds more than `n` of the times. */
  ghost predicate WindowsHoldAtMost(times: seq<int>, n: nat) {
    forall t :: |InWindow(times, t)| <= n
  }

  /** Times `n` places apart are more than one window apart. */
  ghost predicate Spaced(times: seq<int>, n: nat) {
    forall i :: 0 <= i && i + n < |times| ==> times[i + n] - times[i] > WINDOW_MS
  }

  /** The `n` positions from `i` on. */
  lemma {:induction false} Positions(i: nat, n: nat) returns (s: set<nat>)
    ensures |s| == n && forall k :: k in s <==> i <= k < i + n
  {
    if n == 0 {
      s := {};
    } else {
      s := Positions(i, n - 1);
      s := s + {i + n - 1};
    }
  }

  lemma {:induction false} RangeSize(s: set<nat>, lo: nat, hi: nat)
    requires forall k :: k in s ==> lo <= k < hi
    requires lo <= hi
    ensures |s| <= hi - lo
    decreases hi - lo
  {
    if lo == hi {
      assert s == {};
    } else {
      var rest := s - {hi - 1};
      RangeSize(rest, lo, hi - 1);
      if hi - 1 in s {
        assert |s| == |rest| + 1;
      } else {
        assert rest == s;
      }
    }
  }

  /** A sorted list of times is spaced exactly when no window holds more than `n` of them. */
  lemma SpacedIffWindows(times: seq<int>, n: nat)
    requires Sorted(times)
    ensures Spaced(times, n) <==> WindowsHoldAtMost(times, n)
  {
    if Spaced(times, n) {
      forall t ensures |InWindow(times, t)| <= n {
        SpacedBoundsWindow(times, n, t);
      }
    }
    if WindowsHoldAtMost(times, n) {
      forall i | 0 <= i && i + n < |times| ensures times[i + n] - times[i] > WINDOW_MS {
        var run := Positions(i, n + 1);
        if times[i + n] - times[i] <= WINDOW_MS {
          SubsetSize(run, InWindow(times, times[i]));
        }
      }
    }
  }

  lemma {:induction false} SubsetSize(a: set<nat>, b: set<nat>)
    requires a <= b
    ensures |a| <= |b|
  {
    assert b == a + (b - a);
  }

  /** The positions in a window form a run no longer than `n`. */
  lemma SpacedBoundsWindow(times: seq<int>, n: nat, t: int)
    requires Sorted(times) && Spaced(times, n)
    ensures |InWindow(times, t)| <= n
  {
    var s := InWindow(times, t);
    if s != {} {
      var lo := First(s);
      assert lo + n < |times| ==> times[lo + n] - times[lo] > WINDOW_MS;
      assert forall k :: k in s && k >= lo + n ==> times[lo + n] <= times[k];
      RangeSize(s, lo, lo + n);
    }
  }

  lemma {:induction false} First(s: set<nat>) returns (lo: nat)
    requires s != {}
    ensures lo in s && forall k :: k in s ==> lo <= k
    decreases |s|
  {
    var x :| x in s;
    var rest := s - {x};
    if rest == {} {
      lo := x;
      assert s == {x};
    } else {
      var y := First(rest);
      lo := if x < y then x else y;
      forall k | k in s ensures lo <= k {
        assert k == x || k in rest;
      }
    }
  }

  // ----- Message rate -----

  /** The verdict the source promises on a call at `now` after `calls`: the call `limit` places
      earlier (or the epoch, when there were fewer) lies at most one window back. */
  predicate TooSoon(limit: nat, calls: seq<int>, now: int) {
    && limit > 0
    && now - (if |calls| >= limit then calls[|calls| - limit] else 0) <= WINDOW_MS
  }

  /** A run of calls none of which was rejected. */
  ghost predicate Accepted(limit: nat, calls: seq<int>) {
    forall i :: 0 <= i < |calls| ==> !TooSoon(limit, calls[..i], calls[i])
  }

  /** The limiter is an exact sliding window: with a clock past the first second, the runs it never
      rejects are exactly those in which every closed second holds at most `limit` calls. */
  lemma AcceptedIffWindows(limit: nat, calls: seq<int>)
    requires limit > 0 && Sorted(calls)
    requires forall k :: 0 <= k < |calls| ==> calls[k] > WINDOW_MS
    ensures Accepted(limit, calls) <==> WindowsHoldAtMost(calls, limit)
  {
    SpacedIffWindows(calls, limit);
    if Accepted(limit, calls) {
      forall i | 0 <= i && i + limit < |calls| ensures calls[i + limit] - calls[i] > WINDOW_MS {
        assert !TooSoon(limit, calls[..i + limit], calls[i + limit]);
      }
    }
    if Spaced(calls, limit) {
      forall i | 0 <= i < |calls| ensures !TooSoon(limit, calls[..i], calls[i]) {
        if i >= limit {
          assert calls[(i - limit) + limit] - calls[i - limit] > WINDOW_MS;
        }
      }
    }
  }

  /** A limit of zero switches the limiter off, whatever the clock does. */
  lemma ZeroLimitAcceptsAll(calls: seq<int>)
    ensures Accepted(0, calls)
  {
  }

  class MessageRateLimiter {
    var bucket: seq<int>
    const limit: nat
    ghost var calls: seq<int>

    /** The ring holds the last `limit` call times, with zeros for calls not yet made. */
    ghost predicate Valid()
      reads this
    {
      limit > 0 ==>
        && |bucket| == limit
        && forall k :: 0 <= k < limit ==>
          bucket[k] == if |calls| + k >= limit then calls[|calls| + k - limit] else 0
    }

    constructor (limit: nat)
      ensures Valid() && this.limit == limit && calls == []
    {
      this.limit := limit;
      this.calls := [];
      this.bucket := [];
      new;
      var i := 0;
      while i < limit
        invariant 0 <= i <= limit && |bucket| == i && calls == []
        invariant forall k :: 0 <= k < i ==> bucket[k] == 0
      {
        bucket := bucket + [0];
        i := i + 1;
      }
    }

    method Check(now: int) returns (over: bool)
      requires Valid()
      modifies this
      ensures Valid() && calls == old(calls) + [now]
      ensures over <==> TooSoon(limit, old(calls), now)
    {
      var last := 0;
      if bucket != [] {
        last, bucket := bucket[0], bucket[1..];
      }
      bucket := bucket + [now];
      over := now - last <= WINDOW_MS && limit > 0;
      calls := calls + [now];
    }
  }

  // ----- Connections per address -----

  /** The connection times kept for one address. */
  ghost predicate BucketOk(bucket: seq<int>, connectionLimit: nat, rateLimit: nat) {
    && Sorted(bucket)
    && |bucket| <= connectionLimit
    && (rateLimit > 0 ==> Spaced(bucket, rateLimit))
  }

  ghost predicate NotAfter(times: seq<int>, now: int) {
    forall i :: 0 <= i < |times| ==> times[i] <= now
  }

  predicate OverRate(bucket: seq<int>, rateLimit: nat, now: int) {
    |bucket| >= rateLimit > 0 && now - bucket[|bucket| - rateLimit] <= WINDOW_MS
  }

  predicate Admits(bucket: seq<int>, connectionLimit: nat, rateLimit: nat, now: int) {
    |bucket| < connectionLimit && !OverRate(bucket, rateLimit, now)
  }

  /** A connection that both limits admit may join the queue. */
  lemma AdmitKeepsBucket(bucket: seq<int>, connectionLimit: nat, rateLimit: nat, now: int)
    requires BucketOk(bucket, connectionLimit, rateLimit)
    requires Admits(bucket, connectionLimit, rateLimit, now) && NotAfter(bucket, now)
    ensures BucketOk(bucket + [now], connectionLimit, rateLimit)
  {
  }

  /** A connection is refused exactly when the queue is full, or when with it more than `rateLimit` of the stored
      times would lie in the second that ends now. */
  lemma RefusedIffTooMany(bucket: seq<int>, connectionLimit: nat, rateLimit: nat, now: int)
    requires Sorted(bucket) && NotAfter(bucket, now)
    ensures !Admits(bucket, connectionLimit, rateLimit, now) <==>
      || |bucket| >= connectionLimit
      || (rateLimit > 0 && |set k: nat | k <= |bucket| && now - 1000 <= (bucket + [now])[k] <= now| > rateLimit)
  {
    var n, times := |bucket|, bucket + [now];
    var recent := set k: nat | k <= n && now - 1000 <= times[k] <= now;
    if rateLimit > 0 && n >= rateLimit {
      if now - bucket[n - rateLimit] <= WINDOW_MS {
        var last := Positions(n - rateLimit, rateLimit + 1);
        assert forall k :: k in last ==> bucket[n - rateLimit] <= times[k];
        SubsetSize(last, recent);
      } else {
        assert forall k :: 0 <= k <= n - rateLimit ==> times[k] <= bucket[n - rateLimit];
        RangeSize(recent, n - rateLimit + 1, n + 1);
      }
    } else {
      RangeSize(recent, 0, n + 1);
    }
  }

  // ----- Connections admitted over a run -----

  /** What one address does. */
  datatype Visit = Connect(now: int) | Disconnect

  /** The queue after a connection, stored if admitted, or a disconnect, which drops the oldest time. */
  function Next(bucket: seq<int>, v: Visit, connectionLimit: nat, rateLimit: nat): seq<int> {
    match v
    case Connect(now) => if Admits(bucket, connectionLimit, rateLimit, now) then bucket + [now] else bucket
    case Disconnect => if bucket == [] then [] else bucket[1..]
  }

  function QueueAfter(visits: seq<Visit>, connectionLimit: nat, rateLimit: nat): seq<int> {
    if visits == [] then []
    else
      var n := |visits| - 1;
      Next(QueueAfter(visits[..n], connectionLimit, rateLimit), visits[n], connectionLimit, rateLimit)
  }

  /** The times of all connections admitted. */
  function Admitted(visits: seq<Visit>, connectionLimit: nat, rateLimit: nat): seq<int> {
    if visits == [] then []
    else
      var n := |visits| - 1;
      var before := Admitted(visits[..n], connectionLimit, rateLimit);
      var queue := QueueAfter(visits[..n], connectionLimit, rateLimit);
      if visits[n].Connect? && Admits(queue, connectionLimit, rateLimit, visits[n].now)
      then before + [visits[n].now] else before
  }

  /** How many times disconnects have dropped from the queue. */
  function Dropped(visits: seq<Visit>, connectionLimit: nat, rateLimit: nat): nat {
    if visits == [] then 0
    else
      var n := |visits| - 1;
      var before := Dropped(visits[..n], connectionLimit, rateLimit);
      if visits[n].Disconnect? && QueueAfter(visits[..n], connectionLimit, rateLimit) != [] then before + 1 else before
  }

  ghost predicate InOrder(visits: seq<Visit>) {
    forall i, j :: 0 <= i <= j < |visits| && visits[i].Connect? && visits[j].Connect? ==> visits[i].now <= visits[j].now
  }

  /** The queue is what has been admitted without the oldest times, one for each that was dropped. */
  lemma {:induction false} QueueIsSuffix(visits: seq<Visit>, connectionLimit: nat, rateLimit: nat)
    ensures
      var admitted, d := Admitted(visits, connectionLimit, rateLimit), Dropped(visits, connectionLimit, rateLimit);
      d <= |admitted| && QueueAfter(visits, connectionLimit, rateLimit) == admitted[d..]
    ensures |QueueAfter(visits, connectionLimit, rateLimit)| <= connectionLimit
    decreases |visits|
  {
    if visits != [] {
      QueueIsSuffix(visits[..|visits| - 1], connectionLimit, rateLimit);
    }
  }

  lemma SortedSnoc(times: seq<int>, now: int)
    requires Sorted(times) && forall t :: t in times ==> t <= now
    ensures Sorted(times + [now])
  {
    assert forall i :: 0 <= i < |times| ==> times[i] in times;
  }

  lemma {:induction false} AdmittedInOrder(visits: seq<Visit>, connectionLimit: nat, rateLimit: nat)
    requires InOrder(visits)
    ensures Sorted(Admitted(visits, connectionLimit, rateLimit))
    ensures forall t :: t in Admitted(visits, connectionLimit, rateLimit) ==> Connect(t) in visits
    decreases |visits|
  {
    hide Admits;
    if visits != [] {
      var front, last := visits[..|visits| - 1], visits[|visits| - 1];
      AdmittedInOrder(front, connectionLimit, rateLimit);
      assert visits == front + [last];
      if last.Connect? {
        forall t | t in Admitted(front, connectionLimit, rateLimit) ensures t <= last.now {
          var i :| 0 <= i < |front| && front[i] == Connect(t);
          assert visits[i] == Connect(t);
        }
        SortedSnoc(Admitted(front, connectionLimit, rateLimit), last.now);
      }
    }
  }

  lemma {:induction false} AdmittedSpaced(visits: seq<Visit>, connectionLimit: nat, rateLimit: nat)
    requires rateLimit > 0 && InOrder(visits)
    ensures
      Spaced(Admitted(visits, connectionLimit, rateLimit), rateLimit + Dropped(visits, connectionLimit, rateLimit))
    decreases |visits|
  {
    hide Sorted, Admits, QueueAfter;
    if visits != [] {
      var front, last := visits[..|visits| - 1], visits[|visits| - 1];
      AdmittedSpaced(front, connectionLimit, rateLimit);
      QueueIsSuffix(front, connectionLimit, rateLimit);
      AdmittedInOrder(front, connectionLimit, rateLimit);
      AdmittedInOrder(visits, connectionLimit, rateLimit);
      var before, d := Admitted(front, connectionLimit, rateLimit), Dropped(front, connectionLimit, rateLimit);
      var queue := QueueAfter(front, connectionLimit, rateLimit);
      if last.Connect? {
        if Admits(queue, connectionLimit, rateLimit, last.now) {
          SpacedSnoc(before, d, connectionLimit, rateLimit, last.now);
        }
      } else {
        SpacedWider(before, rateLimit + d);
      }
    }
  }

  lemma SpacedSnoc(times: seq<int>, d: nat, connectionLimit: nat, rateLimit: nat, now: int)
    requires rateLimit > 0 && d <= |times| && Sorted(times + [now]) && Spaced(times, rateLimit + d)
    requires Admits(times[d..], connectionLimit, rateLimit, now)
    ensures Spaced(times + [now], rateLimit + d)
  {
    var i, all := |times| - rateLimit - d, times + [now];
    if i >= 0 {
      assert times[d..][|times[d..]| - rateLimit] == all[i + d];
      assert all[i] <= all[i + d];
    }
  }

  lemma SpacedWider(times: seq<int>, n: nat)
    requires Sorted(times) && Spaced(times, n)
    ensures Spaced(times, n + 1)
  {
    forall i | 0 <= i && i + (n + 1) < |times| ensures times[i + (n + 1)] - times[i] > WINDOW_MS {
      assert times[i + n] - times[i] > WINDOW_MS;
    }
  }

  /** Each second holds at most `rateLimit` admitted connections of an address, and one more for each time that
      its disconnects dropped from the queue. */
  lemma AdmittedPerSecond(visits: seq<Visit>, connectionLimit: nat, rateLimit: nat)
    requires rateLimit > 0 && InOrder(visits)
    ensures
      WindowsHoldAtMost(Admitted(visits, connectionLimit, rateLimit),
                        rateLimit + Dropped(visits, connectionLimit, rateLimit))
  {
    AdmittedSpaced(visits, connectionLimit, rateLimit);
    AdmittedInOrder(visits, connectionLimit, rateLimit);
    SpacedIffWindows(Admitted(visits, connectionLimit, rateLimit),
                     rateLimit + Dropped(visits, connectionLimit, rateLimit));
  }

  /** A number bounds the connections admitted in a second. */
  ghost predicate BoundsAdmitted(n: nat, d: nat, connectionLimit: nat, rateLimit: nat) {
    forall visits :: InOrder(visits) && Dropped(visits, connectionLimit, rateLimit) == d ==>
      WindowsHoldAtMost(Admitted(visits, connectionLimit, rateLimit), n)
  }

  /** There is no better bound, so the rate limit itself holds exactly when nothing is dropped. */
  lemma BoundIsExact(n: nat, d: nat, connectionLimit: nat, rateLimit: nat)
    requires 0 < rateLimit <= connectionLimit
    ensures BoundsAdmitted(n, d, connectionLimit, rateLimit) <==> n >= rateLimit + d
  {
    hide Dropped, Admitted, InOrder;
    if n >= rateLimit + d {
      forall visits | InOrder(visits) && Dropped(visits, connectionLimit, rateLimit) == d
        ensures WindowsHoldAtMost(Admitted(visits, connectionLimit, rateLimit), n)
      {
        AdmittedPerSecond(visits, connectionLimit, rateLimit);
        assert forall t ::
          |InWindow(Admitted(visits, connectionLimit, rateLimit), t)| <= rateLimit + d;
      }
    } else {
      var visits := Reconnecting(rateLimit, d, connectionLimit, rateLimit);
      var times := Admitted(visits, connectionLimit, rateLimit);
      var all := Positions(0, rateLimit + d);
      forall k | k in all ensures k in InWindow(times, 0) {
        assert times[k] in times;
      }
      SubsetSize(all, InWindow(times, 0));
      assert !WindowsHoldAtMost(times, n);
    }
  }

  /** `k` connections, and then `d` times a disconnect with another connection, all at once and all admitted. */
  lemma {:induction false} Reconnecting(k: nat, d: nat, connectionLimit: nat, rateLimit: nat)
    returns (visits: seq<Visit>)
    requires k <= rateLimit <= connectionLimit && (d > 0 ==> k > 0)
    ensures InOrder(visits) && Dropped(visits, connectionLimit, rateLimit) == d
    ensures |Admitted(visits, connectionLimit, rateLimit)| == k + d
    ensures |QueueAfter(visits, connectionLimit, rateLimit)| == k
    ensures forall v :: v in visits && v.Connect? ==> v.now == 0
    ensures forall t :: t in Admitted(visits, connectionLimit, rateLimit) ==> t == 0
    decreases k + d
  {
    if k + d == 0 {
      visits := [];
    } else if d == 0 {
      var before := Reconnecting(k - 1, 0, connectionLimit, rateLimit);
      visits := before + [Connect(0)];
      assert visits[..|before|] == before;
    } else {
      var before := Reconnecting(k, d - 1, connectionLimit, rateLimit);
      var parted := before + [Disconnect];
      visits := parted + [Connect(0)];
      assert parted[..|before|] == before && visits[..|parted|] == parted;
    }
  }

  class IpConnections {
    var buckets: map<string, seq<int>>
    const connectionLimit: nat
    const rateLimit: nat

    ghost predicate Valid()
      reads this
    {
      forall ip :: ip in buckets ==> BucketOk(buckets[ip], connectionLimit, rateLimit)
    }

    function Bucket(ip: string): seq<int>
      reads this
    {
      if ip in buckets then buckets[ip] else []
    }

    constructor (connectionLimit: nat, rateLimit: nat)
      ensures Valid() && buckets == map[]
      ensures this.connectionLimit == connectionLimit && this.rateLimit == rateLimit
    {
      this.connectionLimit := connectionLimit;
      this.rateLimit := rateLimit;
      buckets := map[];
    }

    /** Rejects a connection that would exceed either limit; otherwise records its time. A rejected
        address keeps its times, though its queue may come to exist, empty. */
    method CheckIpConnectionLimit(ip: string, now: int) returns (rejected: bool)
      requires Valid()
      requires NotAfter(Bucket(ip), now)
      modifies this`buckets
      ensures Valid()
      ensures rejected <==>
        |old(Bucket(ip))| >= connectionLimit || OverRate(old(Bucket(ip)), rateLimit, now)
      ensures Bucket(ip) == Next(old(Bucket(ip)), Connect(now), connectionLimit, rateLimit)
      ensures rejected ==> buckets == old(buckets)[ip := old(Bucket(ip))]
      ensures !rejected ==> buckets == old(buckets)[ip := old(Bucket(ip)) + [now]]
    {
      if ip !in buckets {
        buckets := buckets[ip := []];
      }
      var bucket := buckets[ip];
      var at := if |bucket| >= rateLimit then |bucket| - rateLimit else 0;
      var overRate := |bucket| >= rateLimit && at < |bucket| && now - bucket[at] <= WINDOW_MS;
      var overConcurrency := |bucket| >= connectionLimit;
      if overConcurrency || overRate {
        return true;
      }
      AdmitKeepsBucket(bucket, connectionLimit, rateLimit, now);
      buckets := buckets[ip := bucket + [now]];
      rejected := false;
    }

    method OnIpDisconnect(ip: string)
      requires Valid()
      modifies this`buckets
      ensures Valid()
      ensures Bucket(ip) == Next(old(Bucket(ip)), Disconnect, connectionLimit, rateLimit)
      ensures Bucket(ip) == [] ==> ip !in buckets
      ensures forall other :: other != ip ==>
        (other in buckets <==> other in old(buckets)) && Bucket(other) == old(Bucket(other))
    {
      if ip in buckets {
        if |buckets[ip]| <= 1 {
          buckets := buckets - {ip};
        } else {
          buckets := buckets[ip := buckets[ip][1..]];
        }
      }
    }
  }

  /** What a stored queue guarantees: whatever connects and disconnects made it, no second holds
      more than `rateLimit` of the times it keeps. */
  lemma StoredTimesPerSecond(bucket: seq<int>, connectionLimit: nat, rateLimit: nat)
    requires BucketOk(bucket, connectionLimit, rateLimit) && rateLimit > 0
    ensures WindowsHoldAtMost(bucket, rateLimit)
  {
    SpacedIffWindows(bucket, rateLimit);
  }
}
