/** The fixed-window rate limiter: one bucket per key, replenished when its window has passed. */
module RateLimiter {
  import opened Arithmetic
  import opened Bytes

  const MAX_BUCKETS := 10_000

  datatype Bucket = Bucket(remaining: u32, resetAt: int)

  /** A parsed request and the clock reading at which it is served. */
  datatype Request = Request(key: string, limit: u32, window: nat, now: int)

  type Table = map<string, Bucket>

  datatype Reply = BucketLimitReached | Decision(allowed: bool, remaining: u32)

  predicate Refused(t: Table, r: Request) {
    r.key !in t && |t| >= MAX_BUCKETS
  }

  /** The bucket a request finds: fresh for a new key or a passed window, else the stored one. */
  function Found(t: Table, r: Request): Bucket {
    if r.key !in t || r.now >= t[r.key].resetAt then Bucket(r.limit, r.now + r.window) else t[r.key]
  }

  function Serve(t: Table, r: Request): (Table, Reply) {
    if Refused(t, r) then (t, BucketLimitReached)
    else
      var b := Found(t, r);
      if b.remaining > 0 then
        (t[r.key := b.(remaining := b.remaining - 1)], Decision(true, b.remaining - 1))
      else
        (t[r.key := b], Decision(false, 0))
  }

  predicate Allows(t: Table, r: Request) {
    Serve(t, r).1.Decision? && Serve(t, r).1.allowed
  }

  class Limiters {
    var buckets: Table

    constructor ()
      ensures buckets == map[]
    {
      buckets := map[];
    }

    /** `allow_api`: look up or insert, replenish if due, then take one. */
    method Allow(r: Request) returns (reply: Reply)
      modifies this
      ensures (buckets, reply) == Serve(old(buckets), r)
    {
      if r.key !in buckets && |buckets| >= MAX_BUCKETS {
        return BucketLimitReached;
      }
      if r.key !in buckets {
        buckets := buckets[r.key := Bucket(r.limit, r.now + r.window)];
      }
      var bucket := buckets[r.key];
      if r.now >= bucket.resetAt {
        bucket := bucket.(remaining := r.limit);
        bucket := bucket.(resetAt := r.now + r.window);
      }
      var allowed := bucket.remaining > 0;
      if allowed {
        bucket := bucket.(remaining := bucket.remaining - 1);
      }
      buckets := buckets[r.key := bucket];
      assert buckets == old(buckets)[r.key := bucket];
      reply := Decision(allowed, bucket.remaining);
    }

    method Reset()
      modifies this
      ensures buckets == map[]
    {
      buckets := map[];
    }
  }

  // ---- Runs --------------------------------------------------------------------------

  function TableAfter(t: Table, rs: seq<Request>): Table
    decreases rs
  {
    if rs == [] then t else TableAfter(Serve(t, rs[0]).0, rs[1..])
  }

  /** How many requests for `key` are allowed with a clock reading in `[lo, lo + w)`. */
  function Allowed(t: Table, rs: seq<Request>, key: string, lo: int, w: nat): nat
    decreases rs
  {
    if rs == [] then 0
    else
      (if Allows(t, rs[0]) && rs[0].key == key && lo <= rs[0].now < lo + w then 1 else 0)
      + Allowed(Serve(t, rs[0]).0, rs[1..], key, lo, w)
  }

  ghost predicate ClockMonotone(last: int, rs: seq<Request>)
    decreases rs
  {
    rs == [] || (last <= rs[0].now && ClockMonotone(rs[0].now, rs[1..]))
  }

  ghost predicate ConstantLimit(rs: seq<Request>, key: string, limit: u32, window: nat) {
    forall r | r in rs && r.key == key :: r.limit == limit && r.window == window
  }

  function Bound(limit: u32): nat {
    if limit == 0 then 0 else 2 * limit - 1
  }

  /** What is known of `key` after `c` allowed requests in `[lo, lo + w)` and a last clock reading
      of `last`: a window opens with an allowed request, and a window that opened before `lo` is
      the only one that can precede another inside the interval. */
  ghost predicate Tracked(t: Table, key: string, limit: u32, w: nat, lo: int, c: nat, last: int) {
    && (last < lo ==> c == 0)
    && (limit == 0 ==> c == 0)
    && (key !in t ==> c == 0)
    && (key in t ==>
          var start, used := t[key].resetAt - w, limit - t[key].remaining;
          && start <= last
          && 0 <= used
          && (limit > 0 ==>
                && used >= 1
                && (start < lo ==> c <= used - 1)
                && (lo <= start < lo + w ==> c <= limit - 1 + used)
                && (lo + w <= start ==> c <= 2 * limit - 1)))
  }

  lemma TrackedStep(t: Table, r: Request, key: string, limit: u32, w: nat, lo: int, c: nat, last: int)
    requires Tracked(t, key, limit, w, lo, c, last) && last <= r.now
    requires r.key == key ==> r.limit == limit && r.window == w
    ensures var hit := if Allows(t, r) && r.key == key && lo <= r.now < lo + w then 1 else 0;
            Tracked(Serve(t, r).0, key, limit, w, lo, c + hit, r.now)
  {
  }

  lemma {:induction false} TrackedRun(t: Table, rs: seq<Request>, key: string, limit: u32, w: nat,
                                      lo: int, c: nat, last: int)
    requires Tracked(t, key, limit, w, lo, c, last)
    requires ClockMonotone(last, rs) && ConstantLimit(rs, key, limit, w)
    ensures c + Allowed(t, rs, key, lo, w) <= Bound(limit)
    decreases rs
  {
    if rs != [] {
      TrackedStep(t, rs[0], key, limit, w, lo, c, last);
      var hit := if Allows(t, rs[0]) && rs[0].key == key && lo <= rs[0].now < lo + w then 1 else 0;
      TrackedRun(Serve(t, rs[0]).0, rs[1..], key, limit, w, lo, c + hit, rs[0].now);
    }
  }

  /** Over any run, no half-open interval as long as the window holds more than twice the limit,
      less one, of allowed requests for a key, whatever other keys are served in between. */
  lemma AtMostTwiceLessOne(rs: seq<Request>, key: string, limit: u32, w: nat, lo: int, first: int)
    requires ClockMonotone(first, rs) && ConstantLimit(rs, key, limit, w)
    ensures Allowed(map[], rs, key, lo, w) <= Bound(limit)
  {
    TrackedRun(map[], rs, key, limit, w, lo, 0, first);
  }

  // ---- Readings out of order --------------------------------------------------------------
  // The clock is read before the lock is taken, so a request can be served after a later reading.

  /** No reading is more than `skew` behind the latest one served before it. */
  ghost predicate ClockSkewed(latest: int, skew: nat, rs: seq<Request>)
    decreases rs
  {
    rs == [] || (latest - skew <= rs[0].now && ClockSkewed(Later(latest, rs[0].now), skew, rs[1..]))
  }

  function Later(a: int, b: int): int {
    if a > b then a else b
  }

  /** How many windows can have started after `lo - w` and up to `start`, one window apart at least. */
  function Starts(lo: int, w: nat, start: int): nat
    requires w > 0
  {
    if start <= lo - w then 0 else (start - (lo - w) - 1) / w + 1
  }

  /** How many windows can serve requests with readings in `[lo, lo + w)`. */
  function Windows(w: nat, skew: nat): nat
    requires w > 0
  {
    (2 * w + skew - 2) / w + 1
  }

  lemma NextWindow(lo: int, w: nat, start: int, next: int)
    requires w > 0 && next >= start + w
    ensures next > lo - w ==> Starts(lo, w, next) >= Starts(lo, w, start) + 1
  {
    if start > lo - w {
      QuotientStep(start - (lo - w) - 1, next - (lo - w) - 1, w);
    } else if next > lo - w {
      Quotient(next - (lo - w) - 1, w, 0);
    }
  }

  lemma StartsBounded(lo: int, w: nat, skew: nat, start: int)
    requires w > 0 && start < lo + w + skew
    ensures Starts(lo, w, start) <= Windows(w, skew)
  {
    if start > lo - w {
      var m, n := start - (lo - w) - 1, 2 * w + skew - 2;
      assert 0 <= m <= n;
      QuotientMonotone(m, n, w);
      assert Starts(lo, w, start) == m / w + 1 && Windows(w, skew) == n / w + 1;
    }
  }

  /** What is known of `key` when readings may be late: every window but the current one is charged in full. */
  ghost predicate Charged(t: Table, key: string, limit: u32, w: nat, skew: nat, lo: int, c: nat, latest: int)
    requires w > 0
  {
    && c <= limit * Windows(w, skew)
    && (key !in t ==> c == 0)
    && (key in t ==>
          var start, used := t[key].resetAt - w, limit - t[key].remaining;
          && start <= latest && 0 <= used
          && (start <= lo - w ==> c == 0)
          && (lo - w < start ==> c <= limit * (Starts(lo, w, start) - 1) + used))
  }

  /** A request served from the window under way. */
  lemma ChargedInside(t: Table, r: Request, key: string, limit: u32, w: nat, skew: nat, lo: int, c: nat,
                      latest: int)
    requires w > 0 && Charged(t, key, limit, w, skew, lo, c, latest) && latest - skew <= r.now
    requires r.key == key && key in t && r.now < t[key].resetAt
    ensures var hit := if Allows(t, r) && lo <= r.now < lo + w then 1 else 0;
            Charged(Serve(t, r).0, key, limit, w, skew, lo, c + hit, Later(latest, r.now))
  {
    var start, used := t[key].resetAt - w, limit - t[key].remaining;
    if Allows(t, r) && lo <= r.now < lo + w {
      StartsBounded(lo, w, skew, start);
      Product(limit, Starts(lo, w, start), Windows(w, skew));
    }
  }

  /** Before a window opens at `next`, all that was allowed is charged to the windows before it. */
  lemma ChargedBefore(t: Table, key: string, limit: u32, w: nat, skew: nat, lo: int, c: nat, latest: int, next: int)
    requires w > 0 && Charged(t, key, limit, w, skew, lo, c, latest)
    requires lo - w < next && (key in t ==> t[key].resetAt <= next)
    ensures Starts(lo, w, next) >= 1 && c <= limit * (Starts(lo, w, next) - 1)
  {
    Quotient(next - (lo - w) - 1, w, 0);
    if key in t && lo - w < t[key].resetAt - w {
      NextWindow(lo, w, t[key].resetAt - w, next);
      Product(limit, Starts(lo, w, t[key].resetAt - w), Starts(lo, w, next) - 1);
    } else {
      Product(limit, 1, Starts(lo, w, next));
    }
  }

  /** A window that opens early enough to serve a reading below `lo + w` has room in the bound. */
  lemma RoomForOne(limit: u32, w: nat, skew: nat, lo: int, c: nat, next: int)
    requires w > 0 && limit > 0 && lo - w < next < lo + w && Starts(lo, w, next) >= 1
    requires c <= limit * (Starts(lo, w, next) - 1)
    ensures c + 1 <= limit * Windows(w, skew)
  {
    StartsBounded(lo, w, skew, next);
    Product(limit, Starts(lo, w, next), Windows(w, skew));
  }

  /** A request that opens a window. */
  lemma ChargedOpening(t: Table, r: Request, key: string, limit: u32, w: nat, skew: nat, lo: int, c: nat,
                       latest: int)
    requires w > 0 && Charged(t, key, limit, w, skew, lo, c, latest)
    requires r.key == key && r.limit == limit && r.window == w && !Refused(t, r)
    requires key in t ==> r.now >= t[key].resetAt
    ensures var hit := if Allows(t, r) && lo <= r.now < lo + w then 1 else 0;
            Charged(Serve(t, r).0, key, limit, w, skew, lo, c + hit, Later(latest, r.now))
  {
    OpensWith(t, r);
    if lo - w < r.now {
      ChargedBefore(t, key, limit, w, skew, lo, c, latest, r.now);
      if limit > 0 && r.now < lo + w {
        RoomForOne(limit, w, skew, lo, c, r.now);
      }
    }
  }

  lemma OpensWith(t: Table, r: Request)
    requires !Refused(t, r) && (r.key in t ==> r.now >= t[r.key].resetAt)
    ensures Allows(t, r) <==> r.limit > 0
    ensures r.key in Serve(t, r).0
    ensures Serve(t, r).0[r.key] == Bucket(if r.limit > 0 then r.limit - 1 else 0, r.now + r.window)
  {
  }

  lemma {:induction false} ChargedRun(t: Table, rs: seq<Request>, key: string, limit: u32, w: nat, skew: nat,
                                      lo: int, c: nat, latest: int)
    requires w > 0 && Charged(t, key, limit, w, skew, lo, c, latest)
    requires ClockSkewed(latest, skew, rs) && ConstantLimit(rs, key, limit, w)
    ensures c + Allowed(t, rs, key, lo, w) <= limit * Windows(w, skew)
    decreases rs
  {
    if rs != [] {
      var r, u := rs[0], Serve(t, rs[0]).0;
      if r.key == key && !Refused(t, r) {
        if key in t && r.now < t[key].resetAt {
          ChargedInside(t, r, key, limit, w, skew, lo, c, latest);
        } else {
          ChargedOpening(t, r, key, limit, w, skew, lo, c, latest);
        }
      }
      var hit := if Allows(t, r) && r.key == key && lo <= r.now < lo + w then 1 else 0;
      ChargedRun(u, rs[1..], key, limit, w, skew, lo, c + hit, Later(latest, r.now));
    }
  }

  /** When readings can be up to `skew` late, one more window can matter for every window length of
      skew: at most `limit` allowed requests for each. */
  lemma AtMostPerWindow(rs: seq<Request>, key: string, limit: u32, w: nat, skew: nat, lo: int, first: int)
    requires w > 0 && ClockSkewed(first, skew, rs) && ConstantLimit(rs, key, limit, w)
    ensures Allowed(map[], rs, key, lo, w) <= limit * Windows(w, skew)
  {
    ChargedRun(map[], rs, key, limit, w, skew, lo, 0, first);
  }

  // ---- The bound is attained ------------------------------------------------------------

  function Burst(key: string, limit: u32, w: nat, now: int, n: nat): (rs: seq<Request>)
    ensures |rs| == n
  {
    seq(n, _ => Request(key, limit, w, now))
  }

  lemma {:induction false} BurstAllowed(t: Table, rest: seq<Request>, key: string, limit: u32, w: nat,
                                        now: int, n: nat, lo: int)
    requires key in t && now < t[key].resetAt && n <= t[key].remaining && lo <= now < lo + w
    ensures Allowed(t, Burst(key, limit, w, now, n) + rest, key, lo, w)
         == n + Allowed(t[key := t[key].(remaining := t[key].remaining - n)], rest, key, lo, w)
  {
    var rs := Burst(key, limit, w, now, n) + rest;
    if n == 0 {
      assert rs == rest && t == t[key := t[key]];
    } else {
      assert rs[1..] == Burst(key, limit, w, now, n - 1) + rest;
      var u := Serve(t, rs[0]).0;
      BurstAllowed(u, rest, key, limit, w, now, n - 1, lo);
      assert u[key := u[key].(remaining := u[key].remaining - (n - 1))]
          == t[key := t[key].(remaining := t[key].remaining - n)];
    }
  }

  /** One request opens a window, the rest of it is spent at its very end, and a full window follows. */
  function WorstCase(key: string, limit: u32, w: nat): seq<Request>
    requires limit > 0
  {
    [Request(key, limit, w, 0)] + (Burst(key, limit, w, w - 1, limit - 1) + Burst(key, limit, w, w, limit))
  }

  /** A full window right after one that is spent. */
  lemma SecondWindow(t: Table, key: string, limit: u32, w: nat)
    requires limit > 0 && w >= 2 && key in t && t[key] == Bucket(0, w)
    ensures Allowed(t, Burst(key, limit, w, w, limit), key, 1, w) == limit
  {
    var rs, u := Burst(key, limit, w, w, limit), t[key := Bucket(limit - 1, w + w)];
    var rest := Burst(key, limit, w, w, limit - 1);
    assert rs[1..] == rest && rest + [] == rest;
    assert Serve(t, rs[0]).0 == u;
    BurstAllowed(u, [], key, limit, w, w, limit - 1, 1);
  }

  lemma BoundAttained(key: string, limit: u32, w: nat)
    requires limit > 0 && w >= 2
    ensures Allowed(map[], WorstCase(key, limit, w), key, 1, w) == Bound(limit)
  {
    var rs := WorstCase(key, limit, w);
    var second := Burst(key, limit, w, w, limit);
    var t := map[key := Bucket(limit - 1, w)];
    assert rs[1..] == Burst(key, limit, w, w - 1, limit - 1) + second;
    assert Serve(map[], rs[0]).0 == t;
    BurstAllowed(t, second, key, limit, w, w - 1, limit - 1, 1);
    SecondWindow(t[key := Bucket(0, w)], key, limit, w);
  }

  // ---- Bounded memory ---------------------------------------------------------------------

  lemma {:induction false} BoundedKeys(t: Table, rs: seq<Request>)
    requires |t| <= MAX_BUCKETS
    ensures |TableAfter(t, rs)| <= MAX_BUCKETS
    decreases rs
  {
    if rs != [] {
      var u := Serve(t, rs[0]).0;
      assert u.Keys == t.Keys || u.Keys == t.Keys + {rs[0].key};
      assert |u.Keys| == |u| && |t.Keys| == |t|;
      BoundedKeys(u, rs[1..]);
    }
  }

  // ---- Who is let through -----------------------------------------------------------------

  /** A new key below the cap, and a key whose window has passed, is allowed its whole limit again. */
  lemma FreshAllowed(t: Table, r: Request)
    requires if r.key in t then r.now >= t[r.key].resetAt else |t| < 10_000
    requires r.limit > 0
    ensures Serve(t, r).1 == Decision(true, r.limit - 1)
    ensures r.key in Serve(t, r).0 && Serve(t, r).0[r.key] == Bucket(r.limit - 1, r.now + r.window)
  {
  }

  /** Within its window a key is allowed exactly as many requests as remain, whatever limit they name. */
  lemma WindowAllows(t: Table, r: Request)
    requires r.key in t && r.now < t[r.key].resetAt
    ensures var left := t[r.key].remaining;
            && Serve(t, r).1 == (if left > 0 then Decision(true, left - 1) else Decision(false, 0))
            && Serve(t, r).0 == t[r.key := t[r.key].(remaining := if left > 0 then left - 1 else 0)]
  {
  }

  /** The replies to the requests for `key`. */
  function Replies(t: Table, rs: seq<Request>, key: string): seq<Reply>
    decreases rs
  {
    if rs == [] then []
    else (if rs[0].key == key then [Serve(t, rs[0]).1] else []) + Replies(Serve(t, rs[0]).0, rs[1..], key)
  }

  function Only(rs: seq<Request>, key: string): seq<Request> {
    if rs == [] then [] else (if rs[0].key == key then [rs[0]] else []) + Only(rs[1..], key)
  }

  /** The table as if there were no other keys. */
  function Alone(t: Table, key: string): Table {
    if key in t then map[key := t[key]] else map[]
  }

  lemma AloneStep(t: Table, r: Request, key: string)
    requires r.key == key ==> !Refused(t, r)
    ensures r.key == key ==>
              && !Refused(Alone(t, key), r)
              && Serve(Alone(t, key), r) == (Alone(Serve(t, r).0, key), Serve(t, r).1)
    ensures r.key != key ==> Alone(Serve(t, r).0, key) == Alone(t, key)
  {
    var alone := Alone(t, key);
    assert key !in t ==> alone == map[];
    if r.key == key {
      assert !Refused(alone, r) && Found(alone, r) == Found(t, r);
      assert Serve(alone, r).0 == Alone(Serve(t, r).0, key);
    }
  }

  lemma {:induction false} SameAlone(t: Table, rs: seq<Request>, key: string)
    requires BucketLimitReached !in Replies(t, rs, key)
    ensures Replies(t, rs, key) == Replies(Alone(t, key), Only(rs, key), key)
    decreases rs
  {
    if rs != [] {
      var r, u := rs[0], Serve(t, rs[0]).0;
      AloneStep(t, r, key);
      SameAlone(u, rs[1..], key);
      if r.key == key {
        assert Only(rs, key)[1..] == Only(rs[1..], key);
      } else {
        assert [] + Only(rs[1..], key) == Only(rs[1..], key);
        assert [] + Replies(u, rs[1..], key) == Replies(u, rs[1..], key);
      }
    }
  }

  lemma {:induction false} NeverRefusedAlone(t: Table, rs: seq<Request>, key: string)
    requires t.Keys <= {key} && forall r :: r in rs ==> r.key == key
    ensures BucketLimitReached !in Replies(t, rs, key)
    decreases rs
  {
    if rs != [] {
      var u := Serve(t, rs[0]).0;
      OneKey(t, rs[0], key);
      NeverRefusedAlone(u, rs[1..], key);
    }
  }

  lemma OneKey(t: Table, r: Request, key: string)
    requires t.Keys <= {key} && r.key == key
    ensures !Refused(t, r) && Serve(t, r).0.Keys <= {key}
  {
    assert key !in t ==> t == map[];
  }

  lemma {:induction false} OnlyKey(rs: seq<Request>, key: string)
    ensures forall r :: r in Only(rs, key) ==> r.key == key
  {
    if rs != [] {
      OnlyKey(rs[1..], key);
    }
  }

  /** A key gets the replies it would get if no other key existed, exactly when none of its requests
      meets the cap on keys. */
  lemma OtherKeysMatterExactly(t: Table, rs: seq<Request>, key: string)
    ensures Replies(t, rs, key) == Replies(Alone(t, key), Only(rs, key), key) <==>
            BucketLimitReached !in Replies(t, rs, key)
  {
    if BucketLimitReached !in Replies(t, rs, key) {
      SameAlone(t, rs, key);
    } else {
      OnlyKey(rs, key);
      NeverRefusedAlone(Alone(t, key), Only(rs, key), key);
    }
  }
}
