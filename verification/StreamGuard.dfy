/**
 * The guard that ends a tenant's event stream: one read of the tenant row per
 * tick, skipping ticks while a read is still running, and a fold over what the
 * reads said.
 */
module StreamGuard {
  import opened Wrappers

  const CHECK_TIMEOUT_MS := 5_000
  const MAX_UNCONFIRMED_TICKS := 3

  datatype TenantRow = TenantRow(status: string, deleted: bool)

  /** What a read comes to: the row or its absence, a failure, or no answer in time. */
  datatype Reading = Found(row: TenantRow) | Missing | Failed | TimedOut

  datatype Tick = Tick(confirmed: bool, closes: bool)

  datatype GuardState = GuardState(unconfirmed: nat, closes: bool)

  predicate IsUnhealthy(reading: Reading)
    requires reading.Found? || reading.Missing?
  {
    reading.Missing? || reading.row.status != "ACTIVE" || reading.row.deleted
  }

  function TickOf(reading: Reading): Tick {
    if reading.Found? || reading.Missing? then Tick(true, IsUnhealthy(reading)) else Tick(false, false)
  }

  // ----- the fold -----

  function Step(state: GuardState, tick: Tick): GuardState {
    GuardState(if tick.confirmed then 0 else state.unconfirmed + 1, tick.closes)
  }

  predicate Passes(state: GuardState) {
    state.closes || state.unconfirmed >= MAX_UNCONFIRMED_TICKS
  }

  /** The states a scan emits, one for each reading. */
  function Scan(readings: seq<Reading>): (states: seq<GuardState>)
    ensures |states| == |readings|
  {
    if readings == [] then []
    else
      var before := Scan(readings[..|readings| - 1]);
      var last := if before == [] then GuardState(0, false) else before[|before| - 1];
      before + [Step(last, TickOf(readings[|readings| - 1]))]
  }

  /** The first state that passes the filter, by its index. */
  function FirstPassing(states: seq<GuardState>): Option<nat> {
    if states == [] then None
    else
      var earlier := FirstPassing(states[..|states| - 1]);
      if earlier.Some? then earlier
      else if Passes(states[|states| - 1]) then Some(|states| - 1)
      else None
  }

  /** When the guard fires: scan, filter, take one. */
  function FiresAt(readings: seq<Reading>): Option<nat> {
    FirstPassing(Scan(readings))
  }

  // ----- when it ought to fire -----

  predicate ConfirmsUnhealthy(reading: Reading) {
    (reading.Found? || reading.Missing?) && IsUnhealthy(reading)
  }

  predicate Unconfirmed(reading: Reading) {
    reading.Failed? || reading.TimedOut?
  }

  /** The i-th reading confirms an unhealthy tenant or is the third in a row that confirms nothing. */
  predicate Due(readings: seq<Reading>, i: nat)
    requires i < |readings|
  {
    || ConfirmsUnhealthy(readings[i])
    || (i >= 2 && Unconfirmed(readings[i - 2]) && Unconfirmed(readings[i - 1]) && Unconfirmed(readings[i]))
  }

  /** The number of readings at the end that confirmed nothing. */
  function Trailing(readings: seq<Reading>): nat {
    if readings == [] || !Unconfirmed(readings[|readings| - 1]) then 0 else Trailing(readings[..|readings| - 1]) + 1
  }

  lemma {:induction false} ScanCountsTrailing(readings: seq<Reading>)
    requires readings != []
    ensures Scan(readings)[|readings| - 1] ==
        GuardState(Trailing(readings), ConfirmsUnhealthy(readings[|readings| - 1]))
    decreases |readings|
  {
    var before := readings[..|readings| - 1];
    if before != [] {
      ScanCountsTrailing(before);
    }
  }

  lemma {:induction false} ScanOfPrefix(readings: seq<Reading>, n: nat)
    requires n <= |readings|
    ensures Scan(readings)[..n] == Scan(readings[..n])
    decreases |readings|
  {
    if n < |readings| {
      var before := readings[..|readings| - 1];
      ScanOfPrefix(before, n);
      assert before[..n] == readings[..n];
      assert Scan(readings)[..n] == Scan(before)[..n];
    } else {
      assert readings[..n] == readings;
    }
  }

  lemma ThreeTrailing(readings: seq<Reading>)
    ensures Trailing(readings) >= 3 <==>
      |readings| >= 3 && Unconfirmed(readings[|readings| - 1]) && Unconfirmed(readings[|readings| - 2])
          && Unconfirmed(readings[|readings| - 3])
  {
    if |readings| >= 1 {
      var one := readings[..|readings| - 1];
      if |one| >= 1 {
        var two := one[..|one| - 1];
        assert one[|one| - 1] == readings[|readings| - 2];
        if |two| >= 1 {
          assert two[|two| - 1] == readings[|readings| - 3];
        }
      }
    }
  }

  lemma PassesWhenDue(readings: seq<Reading>, i: nat)
    requires i < |readings|
    ensures Passes(Scan(readings)[i]) <==> Due(readings, i)
  {
    var prefix := readings[..i + 1];
    ScanOfPrefix(readings, i + 1);
    assert Scan(readings)[i] == Scan(readings)[..i + 1][i];
    ScanCountsTrailing(prefix);
    ThreeTrailing(prefix);
  }

  lemma {:induction false} FirstIsFirst(states: seq<GuardState>)
    ensures var first := FirstPassing(states);
            && (first.None? <==> forall i :: 0 <= i < |states| ==> !Passes(states[i]))
            && (first.Some? ==> first.value < |states| && Passes(states[first.value]) && forall i ::
                0 <= i < first.value ==> !Passes(states[i]))
    decreases |states|
  {
    if states != [] {
      var before := states[..|states| - 1];
      FirstIsFirst(before);
      assert forall i :: 0 <= i < |before| ==> before[i] == states[i];
    }
  }

  /** The guard fires at the first reading that is due, and at no other. */
  lemma FiresExactlyWhenDue(readings: seq<Reading>, i: nat)
    ensures FiresAt(readings) == Some(i) <==> i < |readings| && Due(readings, i) && forall j: nat :: j < i ==>
        !Due(readings, j)
    ensures FiresAt(readings).None? <==> forall j: nat :: j < |readings| ==> !Due(readings, j)
  {
    FirstIsFirst(Scan(readings));
    forall j: nat | j < |readings|
      ensures Passes(Scan(readings)[j]) <==> Due(readings, j)
    {
      PassesWhenDue(readings, j);
    }
  }

  // ----- in time -----

  /**
   * A read that was started: how long it ran and what came of it. `late` says
   * that it ended on a tick too late for that tick to start the next one.
   */
  datatype Check = Check(duration: nat, reading: Reading, late: bool)

  /** No read outlives the timeout, and one that reaches it has no answer. */
  predicate InTime(check: Check) {
    check.duration <= CHECK_TIMEOUT_MS && (check.reading.TimedOut? ==> check.duration == CHECK_TIMEOUT_MS)
  }

  /**
   * The first tick that can start a read once the one from `start` has ended;
   * ticks come every `cadence` from `since`.
   */
  function NextTick(since: int, cadence: int, start: int, check: Check): int
    requires cadence > 0
  {
    var end := start + check.duration;
    if (end - since) % cadence == 0 && end > start && !check.late then end
    else since + ((end - since) / cadence + 1) * cadence
  }

  /** When the i-th read starts: ticks during a read are skipped. */
  function StartOf(since: int, cadence: int, checks: seq<Check>, i: nat): int
    requires cadence > 0 && i <= |checks|
    decreases i
  {
    if i == 0 then since + cadence else NextTick(since, cadence, StartOf(since, cadence, checks, i - 1), checks[i - 1])
  }

  function EndOf(since: int, cadence: int, checks: seq<Check>, i: nat): int
    requires cadence > 0 && i < |checks|
  {
    StartOf(since, cadence, checks, i) + checks[i].duration
  }

  lemma FloorBounds(n: int, k: int)
    requires k > 0
    ensures n < (n / k + 1) * k <= n + k
  {
    assert n == n / k * k + n % k;
    assert (n / k + 1) * k == n / k * k + k;
  }

  /** The next read starts after the last one ended, at most one cadence later. */
  lemma NextReadIsSoon(since: int, cadence: int, checks: seq<Check>, i: nat)
    requires cadence > 0 && i < |checks|
    ensures EndOf(since, cadence, checks, i) <= StartOf(since, cadence, checks, i + 1) <= EndOf(since, cadence, checks,
        i) + cadence
  {
    FloorBounds(EndOf(since, cadence, checks, i) - since, cadence);
  }

  /** From `when` on the tenant is unhealthy: no read started since says otherwise. */
  predicate UnhealthySince(since: int, cadence: int, checks: seq<Check>, when: int)
    requires cadence > 0
  {
    forall i :: 0 <= i < |checks| && StartOf(since, cadence, checks, i) >= when ==>
      ConfirmsUnhealthy(checks[i].reading) || Unconfirmed(checks[i].reading)
  }

  function Readings(checks: seq<Check>): (readings: seq<Reading>)
    ensures |readings| == |checks|
    ensures forall i :: 0 <= i < |checks| ==> readings[i] == checks[i].reading
  {
    if checks == [] then [] else Readings(checks[..|checks| - 1]) + [checks[|checks| - 1].reading]
  }

  lemma {:induction false} StartsClimb(since: int, cadence: int, checks: seq<Check>, i: nat, j: nat)
    requires cadence > 0 && i <= j <= |checks|
    ensures StartOf(since, cadence, checks, i) <= StartOf(since, cadence, checks, j)
    decreases j - i
  {
    if i < j {
      NextReadIsSoon(since, cadence, checks, j - 1);
      StartsClimb(since, cadence, checks, i, j - 1);
    }
  }

  /** The first read after `when` starts within a timeout and a cadence. */
  lemma FirstReadAfter(since: int, cadence: int, checks: seq<Check>, when: int, k: nat)
    requires cadence > 0 && k < |checks| && when >= since
    requires forall i :: 0 <= i < |checks| ==> InTime(checks[i])
    requires StartOf(since, cadence, checks, k) >= when && (k > 0 ==> StartOf(since, cadence, checks, k - 1) < when)
    ensures StartOf(since, cadence, checks, k) <= when + CHECK_TIMEOUT_MS + cadence
  {
    if k > 0 {
      NextReadIsSoon(since, cadence, checks, k - 1);
    }
  }

  lemma ThreeReadsTakeSoLong(since: int, cadence: int, checks: seq<Check>, k: nat)
    requires cadence > 0 && k + 2 < |checks|
    requires forall i :: 0 <= i < |checks| ==> InTime(checks[i])
    ensures EndOf(since, cadence, checks, k) <= EndOf(since, cadence, checks, k + 1) <= EndOf(since, cadence, checks,
        k + 2)
    ensures EndOf(since, cadence, checks, k + 2) <= StartOf(since, cadence, checks, k) + 3 * CHECK_TIMEOUT_MS +
        2 * cadence
  {
    NextReadIsSoon(since, cadence, checks, k);
    NextReadIsSoon(since, cadence, checks, k + 1);
  }

  lemma {:induction false} EndsClimb(since: int, cadence: int, checks: seq<Check>, i: nat, j: nat)
    requires cadence > 0 && i <= j < |checks|
    ensures EndOf(since, cadence, checks, i) <= EndOf(since, cadence, checks, j)
    decreases j - i
  {
    if i < j {
      NextReadIsSoon(since, cadence, checks, j - 1);
      EndsClimb(since, cadence, checks, i, j - 1);
    }
  }

  lemma ThirdReadEnds(since: int, cadence: int, checks: seq<Check>, when: int, k: nat, i: nat)
    requires cadence > 0 && k + 2 < |checks| && when >= since && i <= k + 2
    requires forall j :: 0 <= j < |checks| ==> InTime(checks[j])
    requires StartOf(since, cadence, checks, k) >= when && (k > 0 ==> StartOf(since, cadence, checks, k - 1) < when)
    ensures EndOf(since, cadence, checks, i) <= when + 3 * cadence + 4 * CHECK_TIMEOUT_MS
  {
    EndsClimb(since, cadence, checks, i, k + 2);
    ThreeReadsTakeSoLong(since, cadence, checks, k);
    FirstReadAfter(since, cadence, checks, when, k);
  }

  lemma NoHealthyReads(since: int, cadence: int, checks: seq<Check>, when: int, k: nat, i: nat)
    requires cadence > 0 && k <= i < |checks| && StartOf(since, cadence, checks, k) >= when
    requires UnhealthySince(since, cadence, checks, when)
    ensures ConfirmsUnhealthy(checks[i].reading) || Unconfirmed(checks[i].reading)
  {
    StartsClimb(since, cadence, checks, k, i);
  }

  /** Three readings in a row without a healthy one are enough. */
  lemma FiresWithinThree(readings: seq<Reading>, k: nat)
    requires k + 2 < |readings|
    requires ConfirmsUnhealthy(readings[k]) || Unconfirmed(readings[k])
    requires ConfirmsUnhealthy(readings[k + 1]) || Unconfirmed(readings[k + 1])
    requires ConfirmsUnhealthy(readings[k + 2]) || Unconfirmed(readings[k + 2])
    ensures FiresAt(readings).Some? && FiresAt(readings).value <= k + 2
  {
    var i := if ConfirmsUnhealthy(readings[k]) then k else if ConfirmsUnhealthy(readings[k + 1]) then k + 1 else k + 2;
    assert Due(readings, i);
    FirstIsFirst(Scan(readings));
    PassesWhenDue(readings, i);
  }

  /**
   * A tenant that is unhealthy from some moment on loses its stream with the
   * third read that starts after that moment at the latest, and so within
   * three cadences and four timeouts.
   */
  lemma UnhealthyStreamsClose(since: int, cadence: int, checks: seq<Check>, when: int, k: nat)
    requires cadence > 0 && k + 2 < |checks| && when >= since
    requires forall i :: 0 <= i < |checks| ==> InTime(checks[i])
    requires StartOf(since, cadence, checks, k) >= when && (k > 0 ==> StartOf(since, cadence, checks, k - 1) < when)
    requires UnhealthySince(since, cadence, checks, when)
    ensures var fired := FiresAt(Readings(checks));
            && fired.Some? && fired.value <= k + 2
            && EndOf(since, cadence, checks, fired.value) <= when + 3 * cadence + 4 * CHECK_TIMEOUT_MS
            && 3 * cadence + 4 * CHECK_TIMEOUT_MS <= 4 * (cadence + CHECK_TIMEOUT_MS)
  {
    NoHealthyReads(since, cadence, checks, when, k, k);
    NoHealthyReads(since, cadence, checks, when, k, k + 1);
    NoHealthyReads(since, cadence, checks, when, k, k + 2);
    var readings := Readings(checks);
    assert readings[k] == checks[k].reading && readings[k + 1] == checks[k + 1].reading
        && readings[k + 2] == checks[k + 2].reading;
    FiresWithinThree(readings, k);
    ThirdReadEnds(since, cadence, checks, when, k, FiresAt(readings).value);
  }
}
