// MongoDate: seconds and microseconds against the wire's milliseconds.
module Dates {
  import opened Bytes
  import opened Document
  import opened Bson

  // Floor division, the calendar meaning of "the second d falls in".
  lemma TruncIsFloor(a: int)
    ensures TruncDiv(a, 1000) - (if a < 0 && TruncRem(a, 1000) != 0 then 1 else 0) == a / 1000
    ensures TruncRem(a, 1000) == (if a < 0 && a % 1000 != 0 then a % 1000 - 1000 else a % 1000)
  {
  }

  lemma MicrosOfMillis(d: int)
    ensures (TruncRem(d * 1000, 1_000_000) + 1_000_000) % 1_000_000 == d % 1000 * 1000
  {
    var r := TruncRem(d * 1000, 1_000_000);
    if d < 0 {
      MicrosNonNegative(-d);
      ModOfNegative(-d);
      assert r == -(-d % 1000 * 1000);
    } else {
      MicrosNonNegative(d);
      assert r == d % 1000 * 1000;
    }
    hide TruncRem;
    WrapMicros(r);
  }

  lemma ModOfNegative(d: nat)
    ensures (0 - d) % 1000 == if d % 1000 == 0 then 0 else 1000 - d % 1000
  {
  }

  lemma WrapMicros(r: int)
    requires -1_000_000 < r < 1_000_000
    ensures (r + 1_000_000) % 1_000_000 == if r < 0 then r + 1_000_000 else r
  {
  }

  lemma MicrosNonNegative(d: nat)
    ensures d * 1000 % 1_000_000 == d % 1000 * 1000
  {
    assert d == d / 1000 * 1000 + d % 1000;
    assert d * 1000 == d / 1000 * 1_000_000 + d % 1000 * 1000;
  }

  // A count of milliseconds whose thousandfold fits 64 bits decodes to the
  // second it falls in, rounding towards the past, and the microseconds after
  // that second. Encoding the date gives the count back.
  lemma DateRoundTrip(d: Int64)
    requires -0x8000_0000_0000_0000 <= d * 1000 < 0x8000_0000_0000_0000
    ensures DateOfMillis(d) == Date(d / 1000, d % 1000 * 1000)
    ensures DateMillis(d / 1000, d % 1000 * 1000) == d
  {
    hide TruncRem, TruncDiv;
    MicrosOfMillis(d);
    TruncIsFloor(d);
    assert ToInt64(d * 1000) == d * 1000;
    Remultiply(d);
  }

  lemma Remultiply(d: Int64)
    ensures d / 1000 * 1000 + TruncDiv(d % 1000 * 1000, 1000) == d
  {
  }

  // The millisecond count of the date, times 1000, fits 64 bits.
  predicate DateInRange(sec: Int64, usec: Int64) {
    -0x8000_0000_0000_0000 <= (sec * 1000 + TruncDiv(usec, 1000)) * 1000 < 0x8000_0000_0000_0000
  }

  // A date within range survives the trip exactly when its microseconds are
  // normalised and whole milliseconds, before the epoch as well.
  lemma DateSurvivesIff(sec: Int64, usec: Int64)
    requires DateInRange(sec, usec)
    ensures DateOfMillis(DateMillis(sec, usec)) == Date(sec, usec)
       <==> 0 <= usec < 1_000_000 && usec % 1000 == 0
  {
    hide DateOfMillis;
    var m := sec * 1000 + TruncDiv(usec, 1000);
    DateRoundTrip(m);
    assert DateMillis(sec, usec) == m;
    WholeMillis(sec, usec);
  }

  lemma WholeMillis(sec: int, usec: int)
    ensures var m := sec * 1000 + TruncDiv(usec, 1000);
            (m / 1000 == sec && m % 1000 * 1000 == usec) <==> (0 <= usec < 1_000_000 && usec % 1000 == 0)
  {
  }
}
