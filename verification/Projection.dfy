/** The meter projection policy: unit counts from dwell time and weight, in scaled integers with nested floors. */
module Projection {
  import opened Prelude
  import opened Decimal

  datatype Policy = PerSecond | PerMinute | PerImpression | Unknown

  function PolicyOf(unitType: string): Policy {
    if unitType == "DWELL_SECONDS" || unitType == "ATTENTION_SECONDS" || unitType == "OCCUPANCY_WEIGHTED_EXPOSURE" then PerSecond
    else if unitType == "IMPRESSION_IN_PLACE" then PerImpression
    else if unitType == "COMPLIANT_DELIVERY_MINUTE" then PerMinute
    else Unknown
  }

  /** Dwell in units of msPerUnit milliseconds at six places, floored, times weight, floored again. */
  function ScaledUnits(dwellMs: int, weightScaled: int, msPerUnit: int): int
    requires msPerUnit > 0
  {
    var dwellScaled := dwellMs * FACTOR / msPerUnit;
    dwellScaled * weightScaled / FACTOR
  }

  function ProjectUnitCount(dwellMs: int, weightScaled: int, unitType: string): Option<int> {
    match PolicyOf(unitType)
    case PerSecond => Some(ScaledUnits(dwellMs, weightScaled, 1000))
    case PerImpression => Some(weightScaled)
    case PerMinute => Some(ScaledUnits(dwellMs, weightScaled, 60000))
    case Unknown => None
  }

  lemma Floor(n: int, d: int)
    requires d > 0
    ensures n / d * d <= n < n / d * d + d
  {}

  /** For seconds the inner floor loses nothing: the count is floor(dwell * weight / 1000), for all signs. */
  lemma SecondsAreExact(dwellMs: int, w: int, unitType: string)
    requires PolicyOf(unitType) == PerSecond
    ensures ProjectUnitCount(dwellMs, w, unitType) == Some(dwellMs * w / 1000)
  {
    hide PolicyOf;
    var x := dwellMs * w;
    assert dwellMs * FACTOR / 1000 == dwellMs * 1000;
    assert dwellMs * 1000 * w == x * 1000;
    Floor(x, 1000);
    QuotientIs(x * 1000, FACTOR, x / 1000);
  }

  /** The two floors, as bounds on products. */
  lemma UnitBounds(dwellMs: int, w: int, k: int) returns (d: int)
    requires k > 0 && w >= 0
    ensures d == dwellMs * FACTOR / k
    ensures d * k <= dwellMs * FACTOR < d * k + k
    ensures var m := ScaledUnits(dwellMs, w, k); m * FACTOR <= d * w < m * FACTOR + FACTOR
    ensures k * (d * w) <= FACTOR * (dwellMs * w) <= k * (d * w) + k * w
  {
    d := dwellMs * FACTOR / k;
    Floor(dwellMs * FACTOR, k);
    Floor(d * w, FACTOR);
    Scale(d * k, dwellMs * FACTOR, d * k + k, w);
    Regroup(d, k, w);
    Regroup(dwellMs, FACTOR, w);
    assert (d * k + k) * w == d * k * w + k * w;
  }

  lemma Scale(low: int, x: int, high: int, w: int)
    requires low <= x < high && w >= 0
    ensures low * w <= x * w <= high * w
  {
    MulMonotone(low, x, w);
    MulMonotone(x, high, w);
  }

  lemma Regroup(a: int, b: int, c: int)
    ensures a * b * c == b * (a * c)
  {}

  /**
   Minutes never exceed dwell * weight / 60000, and fall short of it by less than 1 + weight / 10^6
   scaled units.
   */
  lemma MinutesAreClose(dwellMs: int, w: int, unitType: string)
    requires PolicyOf(unitType) == PerMinute && w >= 0
    ensures ProjectUnitCount(dwellMs, w, unitType).Some?
    ensures var m := ProjectUnitCount(dwellMs, w, unitType).value;
            m * 60000 <= dwellMs * w && FACTOR * (dwellMs * w - m * 60000) < 60000 * (FACTOR + w)
  {
    hide PolicyOf;
    var d := UnitBounds(dwellMs, w, 60000);
  }

  /** Longer dwell or larger weight never projects to fewer units. */
  lemma UnitsAreMonotone(dwell1: nat, w1: nat, dwell2: nat, w2: nat, k: int)
    requires dwell1 <= dwell2 && w1 <= w2 && k > 0
    ensures ScaledUnits(dwell1, w1, k) <= ScaledUnits(dwell2, w2, k)
  {
    var d1, d2 := dwell1 * FACTOR / k, dwell2 * FACTOR / k;
    QuotientMonotone(dwell1 * FACTOR, dwell2 * FACTOR, k);
    QuotientMonotone(0, dwell1 * FACTOR, k);
    MulMonotone(d1, d2, w1);
    MulMonotone(w1, w2, d2);
    QuotientMonotone(d1 * w1, d2 * w2, FACTOR);
  }

  lemma QuotientMonotone(a: int, b: int, k: int)
    requires k > 0 && a <= b
    ensures a / k <= b / k && 0 / k == 0
  {
    Floor(a, k);
    Floor(b, k);
    if a / k > b / k {
      MulMonotone(b / k + 1, a / k, k);
    }
  }

  /** Splitting a dwell in two never raises the total and loses less than 2 + weight / 10^6 scaled units. */
  lemma SplitDwellLosesLittle(a: int, b: int, w: nat, k: int)
    requires k > 0
    ensures var whole, parts := ScaledUnits(a + b, w, k), ScaledUnits(a, w, k) + ScaledUnits(b, w, k);
            parts <= whole && FACTOR * (whole - parts) < 2 * FACTOR + w
  {
    var da := UnitBounds(a, w, k);
    var db := UnitBounds(b, w, k);
    var dab := UnitBounds(a + b, w, k);
    FloorsOfSum(a * FACTOR, b * FACTOR, k);
    assert dab == da + db || dab == da + db + 1;
    Distribute(da, db, w);
    PartsAndWhole(da * w, db * w, dab * w, w);
  }

  lemma Distribute(a: int, b: int, w: int)
    ensures (a + b) * w == a * w + b * w && (a + b + 1) * w == a * w + b * w + w
  {}

  lemma PartsAndWhole(p: int, q: int, r: int, w: nat)
    requires r == p + q || r == p + q + w
    ensures p / FACTOR + q / FACTOR <= r / FACTOR
    ensures FACTOR * (r / FACTOR - (p / FACTOR + q / FACTOR)) < 2 * FACTOR + w
  {
    Floor(p, FACTOR);
    Floor(q, FACTOR);
    Floor(r, FACTOR);
  }

  lemma FloorsOfSum(x: int, y: int, k: int)
    requires k > 0
    ensures (x + y) / k == x / k + y / k || (x + y) / k == x / k + y / k + 1
  {
    Floor(x, k);
    Floor(y, k);
    var q := x / k + y / k;
    assert q * k == x / k * k + y / k * k;
    if x + y < q * k + k {
      QuotientIs(x + y, k, q);
    } else {
      QuotientIs(x + y, k, q + 1);
    }
  }

  // --------------------------------------------------------- written out

  /** The policy table, by the unit types' own names: what is counted for a dwell and a weight in millionths. */
  lemma UnitsWrittenOut(dwellMs: int, w: int, unitType: string)
    ensures unitType in {"DWELL_SECONDS", "ATTENTION_SECONDS", "OCCUPANCY_WEIGHTED_EXPOSURE"} ==>
              ProjectUnitCount(dwellMs, w, unitType) == Some(dwellMs * w / 1000)
    ensures unitType == "IMPRESSION_IN_PLACE" ==> ProjectUnitCount(dwellMs, w, unitType) == Some(w)
    ensures unitType == "COMPLIANT_DELIVERY_MINUTE" ==>
              ProjectUnitCount(dwellMs, w, unitType) == Some((dwellMs * 1000000 / 60000) * w / 1000000)
    ensures ProjectUnitCount(dwellMs, w, unitType).None?
            <==> unitType !in {"DWELL_SECONDS", "ATTENTION_SECONDS", "OCCUPANCY_WEIGHTED_EXPOSURE", "IMPRESSION_IN_PLACE", "COMPLIANT_DELIVERY_MINUTE"}
  {
    NamesDiffer();
    if unitType in {"DWELL_SECONDS", "ATTENTION_SECONDS", "OCCUPANCY_WEIGHTED_EXPOSURE"} {
      SecondsAreExact(dwellMs, w, unitType);
    }
  }

  lemma NamesDiffer()
    ensures "IMPRESSION_IN_PLACE" !in {"DWELL_SECONDS", "ATTENTION_SECONDS", "OCCUPANCY_WEIGHTED_EXPOSURE"}
    ensures "COMPLIANT_DELIVERY_MINUTE" !in {"DWELL_SECONDS", "ATTENTION_SECONDS", "OCCUPANCY_WEIGHTED_EXPOSURE", "IMPRESSION_IN_PLACE"}
  {
    assert |"DWELL_SECONDS"| == 13 && |"ATTENTION_SECONDS"| == 17 && |"OCCUPANCY_WEIGHTED_EXPOSURE"| == 27;
    assert |"IMPRESSION_IN_PLACE"| == 19 && |"COMPLIANT_DELIVERY_MINUTE"| == 25;
  }

  /** Delivery minutes never exceed dwell * weight / 60000 and fall short by less than 1 + weight / 10^6 scaled units. */
  lemma DeliveryMinutesAreClose(dwellMs: int, w: nat)
    ensures var m := ProjectUnitCount(dwellMs, w, "COMPLIANT_DELIVERY_MINUTE");
            m.Some? && m.value * 60000 <= dwellMs * w && 1000000 * (dwellMs * w - m.value * 60000) < 60000 * (1000000 + w)
  {
    NamesDiffer();
    MinutesAreClose(dwellMs, w, "COMPLIANT_DELIVERY_MINUTE");
  }
}
