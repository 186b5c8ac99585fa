/**
 * The fixed-window limiter in front of the PIN logins: a bucket per contour,
 * tenant and login key.
 */
module PinLimiter {
  import opened Wrappers

  datatype Config = Config(maxAttempts: int, windowMs: int)

  datatype Bucket = Bucket(count: nat, windowStart: int)

  datatype Verdict = Admitted | TooMany(retryAfterSeconds: int)

  datatype Contour = Staff | Courier | Kitchen | Cook

  datatype Op = Attempt(key: string, at: int) | Reset(key: string)

  /** The number of whole seconds that covers so many milliseconds. */
  function CeilSeconds(ms: int): int {
    (ms + 999) / 1000
  }

  predicate OpensWindow(bucket: Option<Bucket>, now: int, config: Config) {
    bucket.None? || now - bucket.value.windowStart >= config.windowMs
  }

  /** One attempt on a bucket: the bucket afterwards ... */
  function Counted(bucket: Option<Bucket>, now: int, config: Config): Bucket {
    if OpensWindow(bucket, now, config) then Bucket(1, now) else bucket.value.(count := bucket.value.count + 1)
  }

  /** ... and whether it is let through. */
  function Judged(bucket: Option<Bucket>, now: int, config: Config): Verdict {
    if OpensWindow(bucket, now, config) || bucket.value.count + 1 <= config.maxAttempts then Admitted
    else TooMany(CeilSeconds(bucket.value.windowStart + config.windowMs - now))
  }

  // ----- one bucket over a trace of attempts -----

  /** The bucket after a trace of attempts, given by their times. */
  function After(times: seq<int>, config: Config): Option<Bucket> {
    if times == [] then None
    else Some(Counted(After(times[..|times| - 1], config), times[|times| - 1], config))
  }

  predicate Ordered(times: seq<int>) {
    forall i, j :: 0 <= i < j < |times| ==> times[i] <= times[j]
  }

  /** How many attempts of the trace with a time in [from, from + length) were admitted. */
  function AdmittedBetween(times: seq<int>, config: Config, from: int, length: int): nat {
    if times == [] then 0
    else
      var before, last := times[..|times| - 1], times[|times| - 1];
      AdmittedBetween(before, config, from, length)
      + if from <= last < from + length && Judged(After(before, config), last, config).Admitted? then 1 else 0
  }

  /** How many attempts of the window that is open after the trace were admitted. */
  function AdmittedInWindow(times: seq<int>, config: Config): nat {
    if times == [] then 0
    else
      var before, last := times[..|times| - 1], times[|times| - 1];
      if OpensWindow(After(before, config), last, config) then 1
      else AdmittedInWindow(before, config) + if Judged(After(before, config), last, config).Admitted? then 1 else 0
  }

  /** The budget of a window; a limit below one still admits the first attempt. */
  function Budget(config: Config): int {
    Max(1, config.maxAttempts)
  }

  /** Every window admits exactly its attempts up to the budget, and no more. */
  lemma {:induction false} WindowAdmitsTheBudget(times: seq<int>, config: Config)
    requires times != []
    ensures After(times, config).value.count >= 1
    ensures AdmittedInWindow(times, config) == Min(After(times, config).value.count, Budget(config))
    decreases |times|
  {
    var before := times[..|times| - 1];
    if before != [] {
      WindowAdmitsTheBudget(before, config);
    }
  }

  lemma {:induction false} WindowStarts(times: seq<int>, config: Config)
    requires times != [] && Ordered(times)
    ensures After(times, config).value.windowStart <= times[|times| - 1]
    decreases |times|
  {
    var before := times[..|times| - 1];
    if before != [] {
      WindowStarts(before, config);
    }
  }

  lemma {:induction false} NothingBeforeTheInterval(times: seq<int>, config: Config, from: int, length: int)
    requires Ordered(times) && (times != [] ==> times[|times| - 1] < from)
    ensures AdmittedBetween(times, config, from, length) == 0
    decreases |times|
  {
    if times != [] {
      NothingBeforeTheInterval(times[..|times| - 1], config, from, length);
    }
  }

  /** An interval as long as a window meets at most two windows. */
  lemma {:induction false} TwoWindows(times: seq<int>, config: Config, from: int)
    requires times != [] && Ordered(times)
    ensures var bucket, admitted := After(times, config).value, AdmittedBetween(times, config, from, config.windowMs);
            && bucket.count >= 1
            && (bucket.windowStart < from ==> admitted <= Min(bucket.count, Budget(config)) - 1)
            && (from <= bucket.windowStart < from + config.windowMs ==>
                admitted <= Budget(config) - 1 + Min(bucket.count, Budget(config)))
            && admitted <= 2 * Budget(config) - 1
    decreases |times|
  {
    var before, last := times[..|times| - 1], times[|times| - 1];
    if before != [] {
      TwoWindows(before, config, from);
      WindowStarts(before, config);
      if last < from {
        NothingBeforeTheInterval(times, config, from, config.windowMs);
      }
    }
  }

  /** In any interval as long as a window, one less than twice the budget gets through at most. */
  lemma FewerThanTwiceTheBudget(times: seq<int>, config: Config, from: int)
    requires Ordered(times)
    ensures AdmittedBetween(times, config, from, config.windowMs) < 2 * Budget(config)
  {
    if times != [] {
      TwoWindows(times, config, from);
    }
  }

  // ----- the bound is reached -----

  function Repeated(t: int, n: nat): seq<int> {
    if n == 0 then [] else Repeated(t, n - 1) + [t]
  }

  /** One attempt at time 0, the rest of the budget late in its window, and the whole next budget at its end. */
  function Bursts(config: Config, late: nat, next: nat): seq<int> {
    [0] + Repeated(config.windowMs - 1, late) + Repeated(config.windowMs, next)
  }

  lemma RepeatedMembers(t: int, n: nat)
    ensures |Repeated(t, n)| == n && forall i :: 0 <= i < n ==> Repeated(t, n)[i] == t
  {
    if n > 0 {
      RepeatedMembers(t, n - 1);
    }
  }

  lemma BurstsAreOrdered(config: Config, late: nat, next: nat)
    requires config.windowMs >= 1
    ensures Ordered(Bursts(config, late, next))
  {
    RepeatedMembers(config.windowMs - 1, late);
    RepeatedMembers(config.windowMs, next);
  }

  lemma OneMoreAttempt(times: seq<int>, t: int, config: Config, from: int, length: int)
    ensures After(times + [t], config) == Some(Counted(After(times, config), t, config))
    ensures AdmittedBetween(times + [t], config, from, length) ==
              AdmittedBetween(times, config, from, length)
              + if from <= t < from + length && Judged(After(times, config), t, config).Admitted? then 1 else 0
  {
    assert (times + [t])[..|times|] == times;
  }

  lemma NoAttempts(config: Config, from: int, length: int)
    ensures After([], config) == None && AdmittedBetween([], config, from, length) == 0
  {
  }

  lemma OneLater(config: Config, late: nat)
    ensures Bursts(config, 0, 0) == [] + [0]
    ensures Bursts(config, late + 1, 0) == Bursts(config, late, 0) + [config.windowMs - 1]
  {
  }

  lemma OneMoreNext(config: Config, late: nat, next: nat)
    ensures Bursts(config, late, next + 1) == Bursts(config, late, next) + [config.windowMs]
  {
  }

  lemma {:induction false} LateBurst(config: Config, late: nat)
    requires config.windowMs >= 2 && late < Budget(config)
    ensures After(Bursts(config, late, 0), config) == Some(Bucket(1 + late, 0))
    ensures AdmittedBetween(Bursts(config, late, 0), config, 1, config.windowMs) == late
    decreases late
  {
    hide After, AdmittedBetween, Bursts;
    if late == 0 {
      OneLater(config, 0);
      NoAttempts(config, 1, config.windowMs);
      OneMoreAttempt([], 0, config, 1, config.windowMs);
    } else {
      LateBurst(config, late - 1);
      OneLater(config, late - 1);
      OneMoreAttempt(Bursts(config, late - 1, 0), config.windowMs - 1, config, 1, config.windowMs);
    }
  }

  lemma {:induction false} NextBurst(config: Config, next: nat)
    requires config.windowMs >= 2 && 1 <= next <= Budget(config)
    ensures After(Bursts(config, Budget(config) - 1, next), config) == Some(Bucket(next, config.windowMs))
    ensures AdmittedBetween(Bursts(config, Budget(config) - 1, next), config, 1, config.windowMs) ==
        Budget(config) - 1 + next
    decreases next
  {
    hide After, AdmittedBetween, Bursts;
    var late, t := Budget(config) - 1, config.windowMs;
    OneMoreNext(config, late, next - 1);
    if next == 1 {
      LateBurst(config, late);
    } else {
      NextBurst(config, next - 1);
    }
    OneMoreAttempt(Bursts(config, late, next - 1), t, config, 1, config.windowMs);
  }

  /** With a window of one millisecond an interval of that length meets one window only. */
  lemma {:induction false} OneMillisecond(times: seq<int>, config: Config, from: int)
    requires times != [] && Ordered(times) && config.windowMs == 1
    ensures var bucket, admitted, last := After(times, config).value, AdmittedBetween(times, config, from, 1),
        times[|times| - 1];
            && bucket.windowStart == last && bucket.count >= 1
            && (last < from ==> admitted == 0)
            && (last == from ==> admitted <= Min(bucket.count, Budget(config)))
            && admitted <= Budget(config)
    decreases |times|
  {
    var before := times[..|times| - 1];
    if before != [] {
      OneMillisecond(before, config, from);
    }
  }

  lemma {:induction false} NoTimeNoAttempts(times: seq<int>, config: Config, from: int)
    requires config.windowMs <= 0
    ensures AdmittedBetween(times, config, from, config.windowMs) == 0
    decreases |times|
  {
    if times != [] {
      NoTimeNoAttempts(times[..|times| - 1], config, from);
    }
  }

  /** Some trace gets one less than twice the budget through in some interval as long as a window. */
  ghost predicate BoundIsReached(config: Config) {
    exists times, from :: Ordered(times)
        && AdmittedBetween(times, config, from, config.windowMs) == 2 * Budget(config) - 1
  }

  /** The bound is reached for every budget and window, windows of less than two milliseconds apart. */
  lemma BoundIsReachedExactly(config: Config)
    ensures BoundIsReached(config) <==> config.windowMs >= 2 || (config.windowMs == 1 && Budget(config) == 1)
  {
    if config.windowMs >= 2 {
      BurstsAreOrdered(config, Budget(config) - 1, Budget(config));
      NextBurst(config, Budget(config));
    } else if config.windowMs == 1 && Budget(config) == 1 {
      OneMoreAttempt([], 0, config, 0, 1);
      assert [] + [0] == [0];
      assert Ordered([0]) && AdmittedBetween([0], config, 0, config.windowMs) == 2 * Budget(config) - 1;
    } else if BoundIsReached(config) {
      var times, from :|
        Ordered(times) && AdmittedBetween(times, config, from, config.windowMs) == 2 * Budget(config) - 1;
      if config.windowMs == 1 {
        OneMillisecond(times, config, from);
      } else {
        NoTimeNoAttempts(times, config, from);
      }
    }
  }

  /** A rejected attempt leaves the window where it is. */
  lemma RejectionNeverExtends(bucket: Option<Bucket>, now: int, config: Config)
    requires Judged(bucket, now, config).TooMany?
    ensures bucket.Some? && Counted(bucket, now, config).windowStart == bucket.value.windowStart
    ensures now < bucket.value.windowStart + config.windowMs
  {
  }

  /**
   * After a rejection at `now`, with no attempt in between, the next one is
   * admitted exactly from the end of the window on; Retry-After is the number
   * of whole seconds that reaches it, and never a second too long.
   */
  lemma RetryAfterIsExact(bucket: Option<Bucket>, now: int, later: int, config: Config)
    requires Judged(bucket, now, config).TooMany? && later >= now
    ensures var wait := Judged(bucket, now, config).retryAfterSeconds;
            var next := Judged(Some(Counted(bucket, now, config)), later, config);
            && wait >= 1
            && (later >= now + 1000 * wait ==> next.Admitted?)
            && (later <= now + 1000 * (wait - 1) ==> next.TooMany?)
            && (next.Admitted? <==> later >= bucket.value.windowStart + config.windowMs)
  {
  }

  // ----- all buckets -----

  type Buckets = map<string, Bucket>

  function Find(buckets: Buckets, id: string): Option<Bucket> {
    if id in buckets then Some(buckets[id]) else None
  }

  function Next(buckets: Buckets, op: Op, config: Config): Buckets {
    match op
    case Attempt(id, at) => buckets[id := Counted(Find(buckets, id), at, config)]
    case Reset(id) => buckets - {id}
  }

  function Exec(buckets: Buckets, ops: seq<Op>, config: Config): Buckets {
    if ops == [] then buckets else Next(Exec(buckets, ops[..|ops| - 1], config), ops[|ops| - 1], config)
  }

  function Only(ops: seq<Op>, id: string): seq<Op> {
    if ops == [] then []
    else Only(ops[..|ops| - 1], id) + if ops[|ops| - 1].key == id then [ops[|ops| - 1]] else []
  }

  lemma OneMoreOp(buckets: Buckets, ops: seq<Op>, op: Op, config: Config)
    ensures Exec(buckets, ops + [op], config) == Next(Exec(buckets, ops, config), op, config)
  {
    assert (ops + [op])[..|ops|] == ops;
  }

  /** A bucket sees only its own attempts and resets: the others might as well not have happened. */
  lemma {:induction false} BucketsAreIndependent(buckets: Buckets, ops: seq<Op>, id: string, config: Config)
    ensures Find(Exec(buckets, ops, config), id) == Find(Exec(buckets, Only(ops, id), config), id)
    decreases |ops|
  {
    if ops != [] {
      var before, last := ops[..|ops| - 1], ops[|ops| - 1];
      BucketsAreIndependent(buckets, before, id, config);
      if last.key == id {
        OneMoreOp(buckets, Only(before, id), last, config);
      } else {
        assert Only(ops, id) == Only(before, id);
      }
    }
  }

  function Attempts(times: seq<int>, id: string): seq<Op> {
    if times == [] then [] else Attempts(times[..|times| - 1], id) + [Attempt(id, times[|times| - 1])]
  }

  /** A bucket without resets is the bucket of its trace. */
  lemma {:induction false} TraceIsTheBucket(times: seq<int>, id: string, config: Config)
    ensures Find(Exec(map[], Attempts(times, id), config), id) == After(times, config)
    decreases |times|
  {
    if times != [] {
      var before := times[..|times| - 1];
      TraceIsTheBucket(before, id, config);
      OneMoreOp(map[], Attempts(before, id), Attempt(id, times[|times| - 1]), config);
    }
  }

  // ----- bucket names -----

  function ContourName(contour: Contour): string {
    match contour
    case Staff => "staff"
    case Courier => "courier"
    case Kitchen => "kitchen"
    case Cook => "cook"
  }

  function TenantName(tenant: Option<string>): string {
    if tenant.Some? then tenant.value else "default"
  }

  function BucketId(contour: Contour, tenant: Option<string>, key: string): string {
    ContourName(contour) + ":" + TenantName(tenant) + ":" + key
  }

  lemma ContourNamesDiffer(a: Contour, b: Contour)
    ensures ':' !in ContourName(a)
    ensures ContourName(a) == ContourName(b) ==> a == b
  {
    assert ContourName(Staff)[0] == 's' && ContourName(Kitchen)[0] == 'k';
    assert |ContourName(Courier)| == 7 && |ContourName(Cook)| == 4;
  }

  lemma ThreeParts(a: string, m: string, j: string, b: string, n: string, k: string)
    requires ':' !in a && ':' !in b && ':' !in m && ':' !in n
    requires a + ":" + m + ":" + j == b + ":" + n + ":" + k
    ensures a == b && m == n && j == k
  {
    assert a + ":" + m + ":" + j == a + ":" + (m + ":" + j);
    assert b + ":" + n + ":" + k == b + ":" + (n + ":" + k);
    SplitAtColon(a, m + ":" + j, b, n + ":" + k);
    SplitAtColon(m, j, n, k);
  }

  lemma NoColonInDefault(tenant: Option<string>)
    requires tenant.Some? ==> ':' !in tenant.value
    ensures ':' !in TenantName(tenant)
  {
  }

  /**
   * With tenant codes free of colons, two logins share a bucket exactly if they
   * agree in contour, tenant and key; no declared tenant is the tenant "default".
   */
  lemma BucketIdsAreDistinct(a: Contour, s: Option<string>, j: string, b: Contour, t: Option<string>, k: string)
    requires s.Some? ==> ':' !in s.value
    requires t.Some? ==> ':' !in t.value
    ensures BucketId(a, s, j) == BucketId(b, t, k) <==> a == b && TenantName(s) == TenantName(t) && j == k
  {
    if BucketId(a, s, j) == BucketId(b, t, k) {
      ContourNamesDiffer(a, b);
      ContourNamesDiffer(b, a);
      NoColonInDefault(s);
      NoColonInDefault(t);
      ThreeParts(ContourName(a), TenantName(s), j, ContourName(b), TenantName(t), k);
    }
  }

  /** The module-level map and the two functions that change it. */
  class Limiter {
    const config: Config
    var buckets: Buckets

    constructor (settings: Config)
      ensures config == settings && buckets == map[]
    {
      config, buckets := settings, map[];
    }

    method Consume(contour: Contour, tenant: Option<string>, key: string, now: int) returns (verdict: Verdict)
      modifies this
      ensures var id := BucketId(contour, tenant, key);
              && buckets == Next(old(buckets), Attempt(id, now), config)
              && verdict == Judged(Find(old(buckets), id), now, config)
    {
      var id := BucketId(contour, tenant, key);
      if id !in buckets || now - buckets[id].windowStart >= config.windowMs {
        buckets := buckets[id := Bucket(1, now)];
        return Admitted;
      }
      var bucket := buckets[id];
      var count := bucket.count + 1;
      buckets := buckets[id := bucket.(count := count)];
      if count > config.maxAttempts {
        return TooMany(CeilSeconds(bucket.windowStart + config.windowMs - now));
      }
      return Admitted;
    }

    method Reset(contour: Contour, tenant: Option<string>, key: string)
      modifies this
      ensures buckets == Next(old(buckets), Op.Reset(BucketId(contour, tenant, key)), config)
      ensures forall id :: id != BucketId(contour, tenant, key) ==> Find(buckets, id) == Find(old(buckets), id)
    {
      buckets := buckets - {BucketId(contour, tenant, key)};
    }
  }
}
