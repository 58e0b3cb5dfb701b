/** The frame throttle: how long a frame lasts. Times are in nanoseconds. */
module Throttle {
  import opened Wrappers

  const NS_PER_MS: int := 1_000_000

  /** C++ conversion of a floating-point value to an integer: towards zero. */
  function Trunc(x: real): int {
    if x >= 0.0 then x.Floor else -((-x).Floor)
  }

  predicate FitsInt(n: int) {
    -0x8000_0000 <= n < 0x8000_0000
  }

  /** The period of a frame rate; the vehicle's default is 10 frames a second. */
  function PeriodNs(fps: real): real
    requires fps > 0.0
  {
    1.0 / fps * 1_000_000_000.0
  }

  /** The milliseconds the frame sleeps. The difference is cast to int before it is
      divided; None when it does not fit, where the cast is undefined. */
  function SleepMs(period: real, duration: int): Option<nat> {
    var spare := Trunc(period - duration as real);
    if !FitsInt(spare) then None
    else
      var ms := Trunc(spare as real / NS_PER_MS as real);
      Some(if ms > 0 then ms else 0)
  }

  /** How long a frame lasts whose work takes duration, when sleeps are exact. */
  function FrameNs(period: real, duration: int): Option<int> {
    match SleepMs(period, duration)
    case None => None
    case Some(ms) => Some(duration + ms * NS_PER_MS)
  }

  /** So many periods are a second; ten frames a second, the default, are 100 ms each. */
  lemma PeriodExact(fps: real)
    requires fps > 0.0
    ensures fps * PeriodNs(fps) == 1_000_000_000.0
    ensures PeriodNs(10.0) == 100_000_000.0
  {
    assert fps * (1.0 / fps) == 1.0;
    assert fps * (1.0 / fps * 1_000_000_000.0) == fps * (1.0 / fps) * 1_000_000_000.0;
  }

  /** Towards zero: never further from it than x, and by less than one nearer. */
  lemma TruncExactly(x: real)
    ensures x >= 0.0 ==> x - 1.0 < Trunc(x) as real <= x
    ensures x <= 0.0 ==> x <= Trunc(x) as real < x + 1.0
  {
  }

  /** Integer and real division of whole milliseconds agree. */
  lemma WholeMs(spare: int)
    requires spare >= 0
    ensures Trunc(spare as real / NS_PER_MS as real) == spare / NS_PER_MS
  {
    var q, r := spare / NS_PER_MS, spare % NS_PER_MS;
    var x := spare as real / NS_PER_MS as real;
    assert spare == q * NS_PER_MS + r;
    assert x == q as real + r as real / NS_PER_MS as real;
    assert 0.0 <= r as real / NS_PER_MS as real < 1.0;
  }

  lemma NoSleep(period: real, duration: int)
    requires FitsInt(Trunc(period - duration as real)) && period < duration as real
    ensures FrameNs(period, duration) == Some(duration)
  {
    var spare := Trunc(period - duration as real);
    assert spare <= 0;
    assert spare as real / NS_PER_MS as real <= 0.0;
  }

  /** The cast of the difference is defined exactly when it fits a 32-bit int. Then a frame
      never outlasts the period by throttling and falls short of it by less than a
      millisecond, exactly when its work is done within the period; otherwise it lasts as
      long as its work. */
  lemma FrameBound(period: real, duration: int)
    ensures FrameNs(period, duration).Some? <==> -2147483648 <= Trunc(period - duration as real) <= 2147483647
    ensures FrameNs(period, duration).Some? ==>
      var length := FrameNs(period, duration).value as real;
      && (period - 1_000_000.0 < length <= period <==> duration as real <= period)
      && (duration as real > period ==> length == duration as real)
  {
    if FrameNs(period, duration).Some? {
      if duration as real > period {
        NoSleep(period, duration);
      } else {
        Sleeps(period, duration);
      }
    }
  }

  lemma Sleeps(period: real, duration: int)
    requires FitsInt(Trunc(period - duration as real)) && period >= duration as real
    ensures FrameNs(period, duration).Some?
    ensures period - 1_000_000.0 < FrameNs(period, duration).value as real <= period
  {
    var spare := Trunc(period - duration as real);
    assert 0 <= spare && spare as real <= period - duration as real < spare as real + 1.0;
    WholeMs(spare);
    assert spare - NS_PER_MS < spare / NS_PER_MS * NS_PER_MS <= spare;
  }

  /** Successive frames: their work, and how long they last together. */
  function TotalNs(period: real, work: seq<int>): Option<int> {
    if work == [] then Some(0)
    else
      match (FrameNs(period, work[0]), TotalNs(period, work[1..]))
      case (Some(a), Some(b)) => Some(a + b)
      case _ => None
  }

  lemma OneMore(n: real, first: real, rest: real, low: real, high: real)
    requires low < first <= high && n * low <= rest <= n * high
    ensures (1.0 + n) * low < first + rest <= (1.0 + n) * high
  {
    assert (1.0 + n) * low == low + n * low;
    assert (1.0 + n) * high == high + n * high;
  }

  /** Between n times low (or more, when there is a frame) and n times high. */
  predicate Within(total: real, n: nat, low: real, high: real) {
    n as real * low <= total <= n as real * high && (n > 0 ==> n as real * low < total)
  }

  lemma OneMoreFrame(n: nat, first: real, rest: real, low: real, high: real)
    requires low < first <= high && Within(rest, n, low, high)
    ensures Within(first + rest, n + 1, low, high)
  {
    OneMore(n as real, first, rest, low, high);
    assert (n + 1) as real == 1.0 + n as real;
  }

  predicate OnTime(period: real, duration: int) {
    duration as real <= period && Trunc(period - duration as real) <= 2147483647
  }

  /** K frames on time last more than K times the period less a millisecond, and at most
      K periods. */
  lemma {:induction false} FramesBound(period: real, work: seq<int>)
    requires forall k :: 0 <= k < |work| ==> OnTime(period, work[k])
    ensures TotalNs(period, work).Some?
    ensures Within(TotalNs(period, work).value as real, |work|, period - 1_000_000.0, period)
  {
    if work != [] {
      FrameBound(period, work[0]);
      FramesBound(period, work[1..]);
      OneMoreFrame(|work[1..]|, FrameNs(period, work[0]).value as real, TotalNs(period, work[1..]).value as real,
                   period - 1_000_000.0, period);
    }
  }
}
