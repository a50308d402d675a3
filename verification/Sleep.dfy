/**
  `mySleep`, `timespec2ms` and `timeInterval` of time/sleep/main.c. Times are nanoseconds of the monotonic
  clock. The clock has a tick of `tick` nanoseconds: an absolute expiry is rounded up to a tick, and a relative
  interval is rounded up to a whole number of ticks, counted from the call.
 */
module Sleep {
  import opened Options

  const NS_PER_SEC: int := 1_000_000_000
  const NS_PER_MS: int := 1_000_000

  datatype Timespec = Timespec(sec: int, nsec: int)

  function Ns(t: Timespec): int {
    t.sec * NS_PER_SEC + t.nsec
  }

  predicate Normalised(t: Timespec) {
    0 <= t.nsec < NS_PER_SEC
  }

  /** A normalised timespec is determined by the time it denotes. */
  lemma NormalisedUnique(t: Timespec, u: Timespec)
    requires Normalised(t) && Normalised(u) && Ns(t) == Ns(u)
    ensures t == u
  {
    assert (t.sec - u.sec) * NS_PER_SEC == u.nsec - t.nsec;
  }

  function FromNs(ns: int): (t: Timespec)
    ensures Normalised(t) && Ns(t) == ns
  {
    Timespec(ns / NS_PER_SEC, ns % NS_PER_SEC)
  }

  // ---- rounding to the clock ----

  function RoundUp(x: int, tick: int): int
    requires 0 < tick
  {
    if x % tick == 0 then x else x + tick - x % tick
  }

  lemma ModUnique(x: int, tick: int, q: int, m: int)
    requires 0 <= m < tick && x == tick * q + m
    ensures x % tick == m
  {
    var d := x / tick - q;
    assert tick * d == m - x % tick;
    assert -tick < tick * d < tick;
    assert d >= 1 ==> tick * d >= tick;
    assert d <= -1 ==> tick * d <= -tick;
  }

  /** RoundUp is the multiple of the tick in [x, x + tick). */
  lemma RoundUpIs(x: int, tick: int)
    requires 0 < tick
    ensures x <= RoundUp(x, tick) < x + tick
    ensures RoundUp(x, tick) % tick == 0
  {
    var q := x / tick + if x % tick == 0 then 0 else 1;
    assert RoundUp(x, tick) == tick * q + 0;
    ModUnique(RoundUp(x, tick), tick, q, 0);
  }

  /** One nanosecond above a multiple of the tick costs almost a whole tick. */
  lemma RoundUpJustAbove(c: int, tick: int)
    requires 2 <= tick && c % tick == 0
    ensures RoundUp(c - (tick - 1), tick) == c
  {
    assert c == tick * (c / tick);
    ModUnique(c - (tick - 1), tick, c / tick - 1, 1);
  }

  // ---- the absolute branch ----

  /** The deadline of SleepType_posixClock_abs: the carry keeps it normalised and it is now + ms exactly. */
  method Deadline(now: Timespec, ms: nat) returns (request: Timespec)
    requires Normalised(now)
    ensures Normalised(request)
    ensures Ns(request) == Ns(now) + ms * NS_PER_MS
  {
    var sec, nsec := now.sec, now.nsec;
    sec := sec + ms / 1000;
    nsec := nsec + (ms % 1000) * NS_PER_MS;
    if nsec >= NS_PER_SEC {
      sec := sec + 1;
      nsec := nsec - NS_PER_SEC;
    }
    request := Timespec(sec, nsec);
    assert ms == 1000 * (ms / 1000) + ms % 1000;
  }

  /** A signal `after` nanoseconds into a call; the handler and the loop body take `delay` until the next call. */
  datatype Interruption = Interruption(after: nat, delay: nat)

  /** The next interruption comes before the call expires. */
  predicate Interrupts(signals: seq<Interruption>, remaining: int) {
    signals != [] && signals[0].after < remaining
  }

  /** When an absolute sleep called at t ends if nothing interrupts it: at once if it is called too late. */
  function AbsExpiry(t: int, deadline: int, tick: int): int
    requires 0 < tick
  {
    var e := RoundUp(deadline, tick);
    if e < t then t else e
  }

  /** The time of the call that is not interrupted any more. */
  function LastCall(t: int, deadline: int, signals: seq<Interruption>, tick: int): int
    requires 0 < tick
    decreases |signals|
  {
    if Interrupts(signals, AbsExpiry(t, deadline, tick) - t)
    then LastCall(t + signals[0].after + signals[0].delay, deadline, signals[1..], tick)
    else t
  }

  /** The time that the first k signals and what follows each of them take. */
  function Spent(signals: seq<Interruption>, k: nat): nat
    requires k <= |signals|
  {
    if k == 0 then 0 else Spent(signals, k - 1) + signals[k - 1].after + signals[k - 1].delay
  }

  lemma {:induction false} SpentTail(signals: seq<Interruption>, k: nat)
    requires 1 <= k <= |signals|
    ensures Spent(signals, k) == signals[0].after + signals[0].delay + Spent(signals[1..], k - 1)
  {
    if k > 1 {
      SpentTail(signals, k - 1);
    }
  }

  /** When signal i comes if all signals before it have interrupted a sleep first called at t. */
  function Comes(t: int, signals: seq<Interruption>, i: nat): int
    requires i < |signals|
  {
    t + Spent(signals, i) + signals[i].after
  }

  lemma ComesTail(t: int, signals: seq<Interruption>, i: nat)
    requires 1 <= i < |signals|
    ensures Comes(t, signals, i) == Comes(t + signals[0].after + signals[0].delay, signals[1..], i - 1)
  {
    SpentTail(signals, i);
  }

  /** Exactly k signals interrupt a sleep that is due at `due`: each comes before `due`, and the next one does not. */
  ghost predicate InterruptedBy(t: int, due: int, signals: seq<Interruption>, k: nat) {
    && k <= |signals|
    && (forall i :: 0 <= i < k ==> Comes(t, signals, i) < due)
    && (k < |signals| ==> due <= Comes(t, signals, k))
  }

  lemma InterruptedByCons(t: int, due: int, signals: seq<Interruption>, k: nat)
    requires signals != [] && t + signals[0].after < due
    requires InterruptedBy(t + signals[0].after + signals[0].delay, due, signals[1..], k)
    ensures InterruptedBy(t, due, signals, k + 1)
  {
    var t' := t + signals[0].after + signals[0].delay;
    assert Comes(t, signals, 0) < due;
    forall i | 1 <= i < |signals|
      ensures Comes(t, signals, i) == Comes(t', signals[1..], i - 1)
    {
      ComesTail(t, signals, i);
    }
  }

  function Later(a: int, b: int): int {
    if a < b then b else a
  }

  /** The last call, without recursion: exactly one k fits, and it comes when k signals have had their time. */
  lemma {:induction false} LastCallIs(t: int, deadline: int, signals: seq<Interruption>, tick: int) returns (k: nat)
    requires 0 < tick
    ensures InterruptedBy(t, RoundUp(deadline, tick), signals, k)
    ensures forall j :: InterruptedBy(t, RoundUp(deadline, tick), signals, j) ==> j == k
    ensures LastCall(t, deadline, signals, tick) == t + Spent(signals, k)
    decreases |signals|
  {
    k := 0;
    if Interrupts(signals, AbsExpiry(t, deadline, tick) - t) {
      var t' := t + signals[0].after + signals[0].delay;
      k := LastCallIs(t', deadline, signals[1..], tick);
      InterruptedByCons(t, RoundUp(deadline, tick), signals, k);
      SpentTail(signals, k + 1);
      k := k + 1;
    }
  }

  /**
    Lines 126-142: it ends at the deadline's tick, or at its last call if that is later, and the last call is when
    the k signals that interrupt it and the time after each of them are over.
   */
  method SleepAbsolute(now: Timespec, ms: nat, setup: nat, signals: seq<Interruption>, tick: int)
    returns (finish: int)
    requires Normalised(now) && 0 < tick
    ensures var deadline := Ns(now) + ms * NS_PER_MS;
            var last := LastCall(Ns(now) + setup, deadline, signals, tick);
            finish == if last <= RoundUp(deadline, tick) then RoundUp(deadline, tick) else last
    ensures var first, due := Ns(now) + setup, RoundUp(Ns(now) + ms * 1_000_000, tick);
            exists k ::
              && InterruptedBy(first, due, signals, k)
              && (forall j :: InterruptedBy(first, due, signals, j) ==> j == k)
              && finish == Later(due, first + Spent(signals, k))
    ensures Ns(now) + ms * NS_PER_MS <= finish
  {
    var request := Deadline(now, ms);
    RoundUpIs(Ns(request), tick);
    var t, rest := Ns(now) + setup, signals;
    while Interrupts(rest, AbsExpiry(t, Ns(request), tick) - t)
      invariant LastCall(t, Ns(request), rest, tick) == LastCall(Ns(now) + setup, Ns(request), signals, tick)
      decreases |rest|
    {
      t, rest := t + rest[0].after + rest[0].delay, rest[1..];
    }
    finish := AbsExpiry(t, Ns(request), tick);
    ghost var k := LastCallIs(Ns(now) + setup, Ns(request), signals, tick);
  }

  /**
    Interruptions do not add up: if each costs at most d, the last call is at most d late, whatever their
    number. With d == 0 and a first call in time the sleep therefore ends exactly at the deadline's tick.
   */
  lemma {:induction false} AbsoluteBounds(t: int, deadline: int, signals: seq<Interruption>, tick: int, d: nat)
    requires 0 < tick
    requires forall k :: 0 <= k < |signals| ==> signals[k].delay <= d
    ensures t <= LastCall(t, deadline, signals, tick)
    ensures LastCall(t, deadline, signals, tick) <= AbsExpiry(t, deadline, tick) + d
    decreases |signals|
  {
    if Interrupts(signals, AbsExpiry(t, deadline, tick) - t) {
      var t', rest := t + signals[0].after + signals[0].delay, signals[1..];
      AbsoluteBounds(t', deadline, rest, tick, d);
      if RoundUp(deadline, tick) <= t' {
        assert LastCall(t', deadline, rest, tick) == t';
      }
    }
  }

  // ---- the relative branches ----

  /** When a restarted relative sleep ends: each restart passes on what was left, rounded up again. */
  function RelFinish(t: int, request: int, signals: seq<Interruption>, tick: int): int
    requires 0 < tick
    decreases |signals|
  {
    var span := RoundUp(request, tick);
    if Interrupts(signals, span)
    then RelFinish(t + signals[0].after + signals[0].delay, span - signals[0].after, signals[1..], tick)
    else t + span
  }

  /** How many of the signals come before the sleep is over. */
  function Interruptions(request: int, signals: seq<Interruption>, tick: int): nat
    requires 0 < tick
    decreases |signals|
  {
    var span := RoundUp(request, tick);
    if Interrupts(signals, span) then 1 + Interruptions(span - signals[0].after, signals[1..], tick) else 0
  }

  /** The time spent in their handlers and before the restarts. */
  function Delays(request: int, signals: seq<Interruption>, tick: int): nat
    requires 0 < tick
    decreases |signals|
  {
    var span := RoundUp(request, tick);
    if Interrupts(signals, span) then signals[0].delay + Delays(span - signals[0].after, signals[1..], tick) else 0
  }

  /** All delays add up, and each call adds at most one tick less one nanosecond; the sleep is never too short. */
  lemma {:induction false} RelativeBounds(t: int, request: int, signals: seq<Interruption>, tick: int)
    requires 0 < tick
    ensures var low := t + request + Delays(request, signals, tick);
            low <= RelFinish(t, request, signals, tick)
                <= low + (tick - 1) * (1 + Interruptions(request, signals, tick))
    decreases |signals|
  {
    RoundUpIs(request, tick);
    var span := RoundUp(request, tick);
    if Interrupts(signals, span) {
      var left, rest := span - signals[0].after, signals[1..];
      RelativeBounds(t + signals[0].after + signals[0].delay, left, rest, tick);
      var k := Interruptions(left, rest, tick);
      assert (tick - 1) * (1 + (1 + k)) == (tick - 1) * (1 + k) + (tick - 1);
    }
  }

  /** The bound is reached: k badly timed interruptions cost k * (tick - 1) beside the first rounding and the delays. */
  lemma {:induction false} DriftIsReal(t: int, request: int, k: nat, d: nat, tick: int)
    requires 2 <= tick && 0 < request
    ensures var signals := seq(k, i => Interruption(tick - 1, d));
            && Interruptions(request, signals, tick) == k
            && RelFinish(t, request, signals, tick) == t + RoundUp(request, tick) + k * (tick - 1) + k * d
    decreases k
  {
    var signals := seq(k, i => Interruption(tick - 1, d));
    var span := RoundUp(request, tick);
    RoundUpIs(request, tick);
    assert span >= tick by {
      assert span == tick * (span / tick);
      assert span / tick >= 1;
    }
    if k > 0 {
      RoundUpJustAbove(span, tick);
      assert signals[1..] == seq(k - 1, i => Interruption(tick - 1, d));
      DriftIsReal(t + (tick - 1) + d, span - (tick - 1), k - 1, d, tick);
      assert k * (tick - 1) == (k - 1) * (tick - 1) + (tick - 1);
      assert k * d == (k - 1) * d + d;
    }
  }

  /** What is left to sleep when call i is made, each call before it having been interrupted. */
  function Left(request: int, signals: seq<Interruption>, i: nat, tick: int): int
    requires 0 < tick && i <= |signals|
  {
    if i == 0 then request else RoundUp(Left(request, signals, i - 1, tick), tick) - signals[i - 1].after
  }

  lemma {:induction false} LeftTail(request: int, signals: seq<Interruption>, i: nat, tick: int)
    requires 0 < tick && 1 <= i <= |signals|
    ensures Left(request, signals, i, tick)
            == Left(RoundUp(request, tick) - signals[0].after, signals[1..], i - 1, tick)
  {
    if i > 1 {
      LeftTail(request, signals, i - 1, tick);
    }
  }

  /** Signal i comes before call i is over. */
  ghost predicate CutsShort(request: int, signals: seq<Interruption>, i: nat, tick: int)
    requires 0 < tick && i < |signals|
  {
    signals[i].after < RoundUp(Left(request, signals, i, tick), tick)
  }

  /** Exactly k signals restart the sleep: each cuts its call short, and the next one does not. */
  ghost predicate RestartedBy(request: int, signals: seq<Interruption>, k: nat, tick: int)
    requires 0 < tick
  {
    && k <= |signals|
    && (forall i :: 0 <= i < k ==> CutsShort(request, signals, i, tick))
    && (k < |signals| ==> !CutsShort(request, signals, k, tick))
  }

  lemma RestartedByCons(request: int, signals: seq<Interruption>, k: nat, tick: int)
    requires 0 < tick && signals != [] && signals[0].after < RoundUp(request, tick)
    requires RestartedBy(RoundUp(request, tick) - signals[0].after, signals[1..], k, tick)
    ensures RestartedBy(request, signals, k + 1, tick)
  {
    var left := RoundUp(request, tick) - signals[0].after;
    assert CutsShort(request, signals, 0, tick);
    forall i | 1 <= i < |signals|
      ensures CutsShort(request, signals, i, tick) == CutsShort(left, signals[1..], i - 1, tick)
    {
      LeftTail(request, signals, i, tick);
    }
  }

  /** The end of a relative sleep, without recursion: k signals have had their time, the last call runs out. */
  lemma {:induction false} RelFinishIs(t: int, request: int, signals: seq<Interruption>, tick: int) returns (k: nat)
    requires 0 < tick
    ensures RestartedBy(request, signals, k, tick)
    ensures forall j :: RestartedBy(request, signals, j, tick) ==> j == k
    ensures RelFinish(t, request, signals, tick)
            == t + Spent(signals, k) + RoundUp(Left(request, signals, k, tick), tick)
    ensures Interruptions(request, signals, tick) == k
    decreases |signals|
  {
    k := 0;
    if Interrupts(signals, RoundUp(request, tick)) {
      var left := RoundUp(request, tick) - signals[0].after;
      k := RelFinishIs(t + signals[0].after + signals[0].delay, left, signals[1..], tick);
      RestartedByCons(request, signals, k, tick);
      SpentTail(signals, k + 1);
      LeftTail(request, signals, k + 1, tick);
      k := k + 1;
    }
  }

  /** Lines 143-154, and 92-106 for nanosleep: the kernel writes the remainder into the request. */
  method SleepRelative(start: int, ms: nat, signals: seq<Interruption>, tick: int) returns (finish: int)
    requires 0 < tick
    ensures finish == RelFinish(start, ms * NS_PER_MS, signals, tick)
    ensures exists k ::
              && RestartedBy(ms * 1_000_000, signals, k, tick)
              && (forall j :: RestartedBy(ms * 1_000_000, signals, j, tick) ==> j == k)
              && finish == start + Spent(signals, k) + RoundUp(Left(ms * 1_000_000, signals, k, tick), tick)
    ensures start + ms * NS_PER_MS <= finish
  {
    var request := Timespec(ms / 1000, (ms % 1000) * NS_PER_MS);
    assert Ns(request) == ms * NS_PER_MS by { assert ms == 1000 * (ms / 1000) + ms % 1000; }
    var t, rest := start, signals;
    while Interrupts(rest, RoundUp(Ns(request), tick))
      invariant Normalised(request)
      invariant RelFinish(t, Ns(request), rest, tick) == RelFinish(start, ms * NS_PER_MS, signals, tick)
      decreases |rest|
    {
      var left := RoundUp(Ns(request), tick) - rest[0].after;
      request := FromNs(left);
      t, rest := t + rest[0].after + rest[0].delay, rest[1..];
    }
    finish := t + RoundUp(Ns(request), tick);
    RelativeBounds(start, ms * NS_PER_MS, signals, tick);
    ghost var k := RelFinishIs(start, ms * NS_PER_MS, signals, tick);
  }

  // ---- milliseconds ----

  const UINT64: int := 0x1_0000_0000_0000_0000

  /** Nearest millisecond, halves up. */
  function NearestMs(ns: int): (ms: int)
    ensures -NS_PER_MS < 2 * (ms * NS_PER_MS - ns) <= NS_PER_MS
  {
    (ns + NS_PER_MS / 2) / NS_PER_MS
  }

  /** The conversion of a double to uint64: towards zero, and undefined below -1 (section 6.3.1.4 of C11). */
  function ToUint64(x: real): Option<int> {
    if x <= -1.0 then None else if x < 0.0 then Some(0) else Some(x.Floor)
  }

  function Timespec2Ms(t: Timespec): Option<int> {
    var frac := ToUint64(t.nsec as real / 1000000.0 + 0.5);
    if frac == None then None else Some((t.sec * 1000 + frac.value) % UINT64)
  }

  function TimeInterval(start: Timespec, end: Timespec): Option<int> {
    var frac := ToUint64((end.nsec - start.nsec) as real / 1000000.0 + 0.5);
    if frac == None then None else Some(((end.sec - start.sec) * 1000 + frac.value) % UINT64)
  }

  lemma FloorIsNearest(ns: int)
    ensures (ns as real / 1000000.0 + 0.5).Floor == NearestMs(ns)
  {
    var q, m := (ns + 500000) / 1000000, (ns + 500000) % 1000000;
    assert (ns + 500000) as real == q as real * 1000000.0 + m as real;
    assert ns as real / 1000000.0 + 0.5 == q as real + m as real / 1000000.0;
  }

  lemma NearestMsOfSum(sec: int, nsec: int)
    ensures NearestMs(sec * NS_PER_SEC + nsec) == sec * 1000 + NearestMs(nsec)
  {
  }

  /** `timespec2ms` is the nearest millisecond of any normalised time in range. */
  lemma Timespec2MsIsNearest(t: Timespec)
    requires Normalised(t) && 0 <= t.sec && t.sec * 1000 + 1000 < 18_446_744_073_709_551_616
    ensures Timespec2Ms(t) == Some(NearestMs(Ns(t)))
  {
    FloorIsNearest(t.nsec);
    NearestMsOfSum(t.sec, t.nsec);
  }

  /**
    `timeInterval` converts the difference of the nanosecond fields by itself. It is defined exactly if that
    difference is above -1.5 ms, and then right exactly if it is not below -0.5 ms.
   */
  lemma TimeIntervalIff(start: Timespec, end: Timespec)
    requires Normalised(start) && Normalised(end)
    requires start.sec <= end.sec && (end.sec - start.sec) * 1000 + 1000 < 18_446_744_073_709_551_616
    ensures TimeInterval(start, end).Some? <==> end.nsec - start.nsec > -1_500_000
    ensures Ns(start) <= Ns(end) ==>
              (TimeInterval(start, end) == Some(NearestMs(Ns(end) - Ns(start))) <==> end.nsec - start.nsec >= -500_000)
  {
    var d := end.nsec - start.nsec;
    FloorIsNearest(d);
    NearestMsOfSum(end.sec - start.sec, d);
    assert Ns(end) - Ns(start) == (end.sec - start.sec) * NS_PER_SEC + d;
  }

  /** A sleep of 200 ms that crosses a full second is reported through an undefined conversion. */
  lemma TimeIntervalFails()
    ensures TimeInterval(Timespec(0, 900_000_000), Timespec(1, 100_000_000)) == None
  {
    TimeIntervalIff(Timespec(0, 900_000_000), Timespec(1, 100_000_000));
  }
}
