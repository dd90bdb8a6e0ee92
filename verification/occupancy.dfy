/** The occupancy computations of api/main.py: `full_type` (crowd state from a percentage) and
    `to_summary` (a `Lot` extended with its percent-full and crowd state). */
module Occupancy {
  import opened LotModel

  /** A lot whose percent-full can be computed: `current / total_capacity` raises
      ZeroDivisionError for a capacity of 0, and for no other value. */
  type RatedLot = l: Lot | l.totalCapacity != 0 witness Lot(0, "", 1, 0, "", "")

  /** Python's `int(a / b)`: the quotient truncated toward zero. */
  function TruncDiv(a: int, b: int): (q: int)
    requires b != 0
    ensures a >= 0 && b > 0 ==> q == a / b
    ensures a < 0 && b > 0 ==> q == -((-a) / b)
    ensures a >= 0 && b < 0 ==> q == -(a / (-b))
    ensures a < 0 && b < 0 ==> q == (-a) / (-b)
  {
    var m := (if a < 0 then -a else a) / (if b < 0 then -b else b);
    if (a < 0) != (b < 0) then -m else m
  }

  /** `int((current / total_capacity) * 100)`, computed exactly rather than in floating point. */
  function PercentFull(current: int, capacity: int): (p: int)
    requires capacity != 0
    ensures capacity > 0 && current >= 0 ==> p * capacity <= current * 100 < (p + 1) * capacity
    ensures capacity > 0 && 0 <= current <= capacity ==> 0 <= p <= 100
  {
    var p := TruncDiv(current * 100, capacity);
    QuotientBounds(current, capacity, p);
    p
  }

  lemma QuotientBounds(current: int, capacity: int, p: int)
    requires capacity > 0 && current >= 0 ==> p == (current * 100) / capacity
    ensures capacity > 0 && current >= 0 ==> p * capacity <= current * 100 < (p + 1) * capacity
    ensures capacity > 0 && 0 <= current <= capacity ==> 0 <= p <= 100
  {
    if capacity > 0 && 0 <= current <= capacity {
      MulMonotone(current, capacity, 100);
      if p >= 101 { MulMonotone(101, p, capacity); }
      if p < 0 { MulMonotone(p + 1, 0, capacity); }
    }
  }

  /** `full_type(p)`: 0 is EMPTY; below 40 (negatives included) LIGHT; [40, 70) MEDIUM;
      [70, 90) HEAVY; 90 and above FULL. */
  function FullType(p: real): (s: CrowdState)
    ensures s == EMPTY <==> p == 0.0
    ensures s == LIGHT <==> p != 0.0 && p < 40.0
    ensures s == MEDIUM <==> 40.0 <= p < 70.0
    ensures s == HEAVY <==> 70.0 <= p < 90.0
    ensures s == FULL <==> 90.0 <= p
  {
    if p == 0.0 then EMPTY
    else if p < 40.0 then LIGHT
    else if p < 70.0 then MEDIUM
    else if p < 90.0 then HEAVY
    else FULL
  }

  /** The crowd states from lightest to heaviest. */
  function Rank(s: CrowdState): nat
  {
    match s
    case EMPTY => 0
    case LIGHT => 1
    case MEDIUM => 2
    case HEAVY => 3
    case FULL => 4
  }

  /** Over non-negative percentages a fuller lot is never reported as lighter. */
  lemma FullTypeMonotone(p: real, q: real)
    requires 0.0 <= p <= q
    ensures Rank(FullType(p)) <= Rank(FullType(q))
  {
  }

  /** `to_summary(obj)`. */
  function ToSummary(l: RatedLot): (s: LotSummary)
    ensures SummaryLot(s) == l
    ensures s.percentFull == PercentFull(l.current, l.totalCapacity)
    ensures s.state == FullType(s.percentFull as real)
  {
    var pf := PercentFull(l.current, l.totalCapacity);
    LotSummary(l.lotId, l.lotName, l.totalCapacity, l.current, pf, FullType(pf as real), l.lotType, l.hours)
  }

  /** The stored fields of a summary. */
  function SummaryLot(s: LotSummary): Lot
  {
    Lot(s.lotId, s.lotName, s.totalCapacity, s.current, s.lotType, s.hours)
  }

  /** Because the percentage is truncated before it is classified, a lot is reported EMPTY
      exactly when it is less than 1% occupied, not only when it holds no car. */
  lemma EmptyMeansUnderOnePercent(l: RatedLot)
    requires l.totalCapacity > 0 && l.current >= 0
    ensures ToSummary(l).state == EMPTY <==> l.current * 100 < l.totalCapacity
  {
    var p := PercentFull(l.current, l.totalCapacity);
    assert ToSummary(l).state == EMPTY <==> p == 0;
    if p != 0 {
      MulMonotone(1, p, l.totalCapacity);
    }
  }

  /** A lot is reported FULL exactly when at least 90% of its spaces are taken. */
  lemma FullMeansNinetyPercent(l: RatedLot)
    requires l.totalCapacity > 0 && l.current >= 0
    ensures ToSummary(l).state == FULL <==> l.current * 100 >= 90 * l.totalCapacity
  {
    var p := PercentFull(l.current, l.totalCapacity);
    assert ToSummary(l).state == FULL <==> p >= 90;
    if p >= 90 {
      MulMonotone(90, p, l.totalCapacity);
    } else {
      MulMonotone(p + 1, 90, l.totalCapacity);
    }
  }

  lemma MulMonotone(a: int, b: int, k: int)
    requires a <= b && k >= 0
    ensures a * k <= b * k
  {
    assert b * k - a * k == (b - a) * k;
  }
}
