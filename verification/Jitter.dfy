/**
 internal/config/duration_range.go: a random delay drawn with 64-bit arithmetic
 that is allowed to wrap, and the range validation of validate.go.
 */
module Jitter {
  import opened Wrappers

  const TWO64: int := 0x1_0000_0000_0000_0000
  const MAX64: int := 0x7FFF_FFFF_FFFF_FFFF
  const MIN64: int := -0x8000_0000_0000_0000

  /** A time.Duration: nanoseconds in an int64. */
  type Duration = d: int | MIN64 <= d <= MAX64

  const MINUTE: Duration := 60_000_000_000

  datatype DurationRange = DurationRange(min: Duration, max: Duration)

  /** The int64 that x wraps around to. */
  function Wrap64(x: int): Duration
  {
    var m := x % TWO64;
    if m <= MAX64 then m else m - TWO64
  }

  /** uint64(x). */
  function ToUint64(x: Duration): nat { x % TWO64 }

  /** rand.Uint64N(n) as a function of the random source. */
  function Uint64N(n: nat, draw: nat): (r: nat)
    requires n > 0
    ensures r < n
    ensures draw < n ==> r == draw
  {
    draw % n
  }

  /** DurationRange.Random; None is the panic of Uint64N(0). */
  function Random(r: DurationRange, draw: nat): Option<Duration>
  {
    if r.max <= r.min then Some(r.min)
    else
      var span := Wrap64(Wrap64(r.max - r.min) + 1);
      var n := ToUint64(span);
      if n == 0 then None else Some(Wrap64(r.min + Wrap64(Uint64N(n, draw))))
  }

  lemma WrapSame(x: int, y: int, k: int)
    requires x == y + k * TWO64
    ensures Wrap64(x) == Wrap64(y)
  {
    assert x % TWO64 == y % TWO64;
  }

  lemma WrapIsClose(x: int) returns (k: int)
    ensures Wrap64(x) == x + k * TWO64
  {
    k := -(x / TWO64);
    if x % TWO64 > MAX64 {
      k := k - 1;
    }
  }

  /** The number of values the draw ranges over, wrapping included. */
  lemma SpanIs(r: DurationRange)
    requires r.min < r.max
    ensures ToUint64(Wrap64(Wrap64(r.max - r.min) + 1)) == (r.max - r.min + 1) % TWO64
  {
    var k := WrapIsClose(r.max - r.min);
    WrapSame(Wrap64(r.max - r.min) + 1, r.max - r.min + 1, k);
    var j := WrapIsClose(r.max - r.min + 1);
    assert ToUint64(Wrap64(r.max - r.min + 1)) == (r.max - r.min + 1) % TWO64;
  }

  /** min plus an offset that stays within the range, in wrapped arithmetic. */
  lemma OffsetExact(r: DurationRange, offset: nat)
    requires r.min + offset <= r.max
    ensures Wrap64(r.min + Wrap64(offset)) == r.min + offset
  {
    var k := WrapIsClose(offset);
    WrapSame(r.min + Wrap64(offset), r.min + offset, k);
  }

  /**
   Every delay lies in [min, max] even where the span overflows; the only range
   the draw cannot serve is the whole of int64.
   */
  lemma RandomInRange(r: DurationRange, draw: nat)
    requires r.min <= r.max
    ensures Random(r, draw) == None <==> r.min == MIN64 && r.max == MAX64
    ensures Random(r, draw).Some? ==> r.min <= Random(r, draw).value <= r.max
  {
    hide Wrap64, ToUint64, Uint64N;
    if r.min < r.max {
      SpanIs(r);
      var n := r.max - r.min + 1;
      if n < TWO64 {
        assert n % TWO64 == n;
        OffsetExact(r, Uint64N(n, draw));
      } else {
        assert n == TWO64;
        assert n % TWO64 == 0;
      }
    }
  }

  /** Every delay of the range can be drawn. */
  lemma RandomReaches(r: DurationRange, d: Duration) returns (draw: nat)
    requires r.min <= d <= r.max && !(r.min == MIN64 && r.max == MAX64)
    ensures Random(r, draw) == Some(d)
  {
    hide Wrap64, ToUint64, Uint64N;
    draw := d - r.min;
    if r.min < r.max {
      SpanIs(r);
      var n := r.max - r.min + 1;
      assert n % TWO64 == n;
      OffsetExact(r, draw);
    }
  }

  datatype RangeError = MinNegative | MaxNegative | MinAboveMax | MinTooSmall | MaxTooSmall

  function ValidateDurationRange(r: DurationRange, floor: Duration): Outcome
  {
    if r.min < 0 then Rejected(MinNegative)
    else if r.max < 0 then Rejected(MaxNegative)
    else if r.min > r.max then Rejected(MinAboveMax)
    else if r.min < floor then Rejected(MinTooSmall)
    else if r.max < floor then Rejected(MaxTooSmall)
    else Accepted
  }

  datatype Outcome = Accepted | Rejected(e: RangeError)

  /** A validated range always yields a delay, at least the floor and within the range. */
  lemma ValidRangeDelays(r: DurationRange, floor: Duration, draw: nat)
    requires ValidateDurationRange(r, floor) == Accepted
    ensures Random(r, draw).Some?
    ensures r.min <= Random(r, draw).value <= r.max && Random(r, draw).value >= floor && Random(r, draw).value >= 0
  {
    RandomInRange(r, draw);
  }

  /** Exactly which ranges are accepted, and which complaint is made first; that max is too small is never one. */
  lemma RangeExactly(r: DurationRange, floor: Duration)
    ensures ValidateDurationRange(r, floor) == Accepted <==> 0 <= r.min && floor <= r.min <= r.max
    ensures ValidateDurationRange(r, floor) == Rejected(MinNegative) <==> r.min < 0
    ensures ValidateDurationRange(r, floor) == Rejected(MaxNegative) <==> r.max < 0 <= r.min
    ensures ValidateDurationRange(r, floor) == Rejected(MinAboveMax) <==> 0 <= r.max < r.min
    ensures ValidateDurationRange(r, floor) == Rejected(MinTooSmall) <==> 0 <= r.min <= r.max && r.min < floor
    ensures ValidateDurationRange(r, floor) != Rejected(MaxTooSmall)
  {
  }
}
