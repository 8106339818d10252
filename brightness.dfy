/** The time-of-day brightness signal of each transit line: a 24-entry
    ridership table indexed by hour, interpolated linearly by minute toward
    the next hour's entry. The wall clock is not read here: hour and minute
    are parameters, in the ranges that `Date.getHours` and `Date.getMinutes`
    deliver. */
module Brightness {

  const Brightness123: seq<int> := [34, 16, 9, 6, 7, 25, 60, 114, 161, 126, 99, 102, 112, 124, 144, 182, 216, 255, 202, 137, 106, 100, 96, 59]
  const Brightness456: seq<int> := [21, 9, 5, 4, 6, 16, 35, 70, 95, 71, 60, 66, 76, 87, 106, 139, 162, 193, 148, 97, 71, 56, 48, 35]
  const BrightnessNQR: seq<int> := [32, 16, 9, 6, 7, 19, 43, 78, 110, 93, 78, 86, 97, 110, 132, 170, 201, 241, 191, 132, 104, 95, 86, 56]

  predicate IsHour(h: int) { 0 <= h < 24 }
  predicate IsMinute(m: int) { 0 <= m < 60 }

  /** Every entry of a table is a colour channel value. */
  predicate ByteValued(t: seq<int>) {
    forall i :: 0 <= i < |t| ==> 0 <= t[i] <= 255
  }

  /** The table of a line: '123' and '456' have their own, every other
      identifier falls back to the N/Q/R table. */
  function LineTable(lineId: string): (t: seq<int>)
    ensures |t| == 24 && ByteValued(t)
    ensures lineId == "123" ==> t == Brightness123
    ensures lineId == "456" ==> t == Brightness456
    ensures lineId != "123" && lineId != "456" ==> t == BrightnessNQR
  {
    if lineId == "123" then Table123Bytes(); Brightness123
    else if lineId == "456" then Table456Bytes(); Brightness456
    else TableNQRBytes(); BrightnessNQR
  }

  lemma Table123Bytes()
    ensures |Brightness123| == 24 && ByteValued(Brightness123)
  {
    assert forall x | x in Brightness123 :: 0 <= x <= 255;
  }

  lemma Table456Bytes()
    ensures |Brightness456| == 24 && ByteValued(Brightness456)
  {
    assert forall x | x in Brightness456 :: 0 <= x <= 255;
  }

  lemma TableNQRBytes()
    ensures |BrightnessNQR| == 24 && ByteValued(BrightnessNQR)
  {
    assert forall x | x in BrightnessNQR :: 0 <= x <= 255;
  }

  /** The hour the interpolation heads for; 23 wraps to 0. */
  function NextHour(h: int): (n: int)
    requires IsHour(h)
    ensures IsHour(n)
    ensures h < 23 ==> n == h + 1
    ensures h == 23 ==> n == 0
  {
    (h + 1) % 24
  }

  /** getRidershipBrightness(lineId) at the given time of day: always a
      colour channel value, and on the hour exactly the hour's entry. */
  function RidershipBrightness(lineId: string, hour: int, minute: int): (r: real)
    requires IsHour(hour) && IsMinute(minute)
    ensures 0.0 <= r <= 255.0
    ensures minute == 0 ==> r == LineTable(lineId)[hour] as real
  {
    HourlyInterpolation(LineTable(lineId), hour, minute)
  }

  /** The entry of the hour, moved toward the next hour's entry by the
      fraction of the hour elapsed; it never leaves the range between the
      two entries. */
  function HourlyInterpolation(arr: seq<int>, hour: int, minute: int): (r: real)
    requires |arr| == 24 && IsHour(hour) && IsMinute(minute)
    ensures var b, n := arr[hour] as real, arr[NextHour(hour)] as real;
            (b <= n ==> b <= r <= n) && (n <= b ==> n <= r <= b)
  {
    var b := arr[hour] as real;
    var next := arr[NextHour(hour)] as real;
    var t := MinuteFraction(minute);
    Between(b, next, t, b + (next - b) * t);
    b + (next - b) * t
  }

  /** The fraction of the hour elapsed at a minute: m / 60, in [0, 1). */
  function MinuteFraction(m: int): (t: real)
    requires IsMinute(m)
    ensures 0.0 <= t < 1.0 && (t == 0.0 <==> m == 0)
  {
    m as real / 60.0
  }

  /** Within the hour the signal lies between the hour's entry and the next
      one, equals the hour's entry only at minute 0 (or when both entries are
      equal), and never reaches the next entry unless both are equal. */
  lemma BetweenEntries(lineId: string, hour: int, minute: int)
    requires IsHour(hour) && IsMinute(minute)
    ensures var b := LineTable(lineId)[hour] as real;
            var n := LineTable(lineId)[NextHour(hour)] as real;
            var r := RidershipBrightness(lineId, hour, minute);
            (b <= n ==> b <= r <= n) &&
            (n <= b ==> n <= r <= b) &&
            (r == b <==> (minute == 0 || b == n)) &&
            (b != n ==> r != n)
  {
    InterpolationBetween(LineTable(lineId), hour, minute);
  }

  lemma InterpolationBetween(arr: seq<int>, hour: int, minute: int)
    requires |arr| == 24 && IsHour(hour) && IsMinute(minute)
    ensures var b := arr[hour] as real;
            var n := arr[NextHour(hour)] as real;
            var r := HourlyInterpolation(arr, hour, minute);
            (b <= n ==> b <= r <= n) &&
            (n <= b ==> n <= r <= b) &&
            (r == b <==> (minute == 0 || b == n)) &&
            (b != n ==> r != n)
  {
    Between(arr[hour] as real, arr[NextHour(hour)] as real, MinuteFraction(minute),
            HourlyInterpolation(arr, hour, minute));
  }

  /** Linear interpolation r from b toward n with a parameter in [0, 1). */
  lemma Between(b: real, n: real, t: real, r: real)
    requires 0.0 <= t < 1.0
    requires r == b + (n - b) * t
    ensures (b <= n ==> b <= r <= n) && (n <= b ==> n <= r <= b)
    ensures (r == b <==> (t == 0.0 || b == n)) && (b != n ==> r != n)
  {
    if b < n {
      var p := ScaleBelow(n - b, t);
      assert (n - b) * t == p;
      assert r == b + p && b <= r < n;
    } else if n < b {
      var p := ScaleBelow(b - n, t);
      assert (n - b) * t == -p;
      assert r == b - p && n < r <= b;
    }
  }

  /** A positive step d scaled by t in [0, 1) gives p: non-negative, zero
      only for t = 0, and smaller than d. */
  lemma ScaleBelow(d: real, t: real) returns (p: real)
    requires d > 0.0 && 0.0 <= t < 1.0
    ensures p == d * t
    ensures 0.0 <= p < d && (p == 0.0 <==> t == 0.0)
  {
    p := d * t;
    MulPositive(d, 1.0 - t);
    assert d * (1.0 - t) == d - p;
    LessByPositiveGap(p, d, d * (1.0 - t));
    if t > 0.0 {
      MulPositive(d, t);
    }
  }

  lemma LessByPositiveGap(a: real, b: real, gap: real)
    requires gap > 0.0 && gap == b - a
    ensures a < b
  {
  }

  lemma MulPositive(a: real, b: real)
    requires a > 0.0 && b > 0.0
    ensures a * b > 0.0
  {
  }

  /** As the minutes pass, the signal moves monotonically toward the next
      hour's entry. */
  lemma TowardNextHour(lineId: string, hour: int, m1: int, m2: int)
    requires IsHour(hour) && IsMinute(m1) && IsMinute(m2) && m1 <= m2
    ensures var n := LineTable(lineId)[NextHour(hour)] as real;
            var b := LineTable(lineId)[hour] as real;
            var r1 := RidershipBrightness(lineId, hour, m1);
            var r2 := RidershipBrightness(lineId, hour, m2);
            (b <= n ==> r1 <= r2) && (n <= b ==> r2 <= r1)
  {
    InterpolationMonotone(LineTable(lineId), hour, m1, m2);
  }

  lemma InterpolationMonotone(arr: seq<int>, hour: int, m1: int, m2: int)
    requires |arr| == 24 && IsHour(hour) && IsMinute(m1) && IsMinute(m2) && m1 <= m2
    ensures var n := arr[NextHour(hour)] as real;
            var b := arr[hour] as real;
            var r1 := HourlyInterpolation(arr, hour, m1);
            var r2 := HourlyInterpolation(arr, hour, m2);
            (b <= n ==> r1 <= r2) && (n <= b ==> r2 <= r1)
  {
    var n := arr[NextHour(hour)] as real;
    var b := arr[hour] as real;
    var t1, t2 := MinuteFraction(m1), MinuteFraction(m2);
    var p1, p2 := ScaleMonotone(n - b, t1, t2);
    assert HourlyInterpolation(arr, hour, m1) == b + (n - b) * t1 == b + p1;
    assert HourlyInterpolation(arr, hour, m2) == b + (n - b) * t2 == b + p2;
  }

  /** Scaling a fixed step d by a larger parameter moves further in its
      direction. */
  lemma ScaleMonotone(d: real, t1: real, t2: real) returns (p1: real, p2: real)
    requires t1 <= t2
    ensures p1 == d * t1 && p2 == d * t2
    ensures d >= 0.0 ==> p1 <= p2
    ensures d <= 0.0 ==> p2 <= p1
  {
    p1, p2 := d * t1, d * t2;
    assert p2 - p1 == d * (t2 - t1);
    if d >= 0.0 {
      assert d * (t2 - t1) >= 0.0;
    } else {
      assert (-d) * (t2 - t1) >= 0.0;
    }
  }

  /** At 17:00 the 1/2/3 line is at its peak of 255. */
  lemma PeakOf123()
    ensures RidershipBrightness("123", 17, 0) == 255.0
  {
  }
}
