/**
 * Athlete pricing helpers: the IPO price from per-game statistics weighted
 * by position, the injury multiplier, and the five-tier hotness multiplier.
 * Every constant is a decimal literal, so `real` holds it exactly.
 */
module AthleteData {
  import opened Collections

  /** Per-game statistics; an absent entry (or a zero) reads as 0 through `|| 0`. */
  datatype AthleteStats = AthleteStats(ppg: Option<real>, rpg: Option<real>, apg: Option<real>)

  function OrZero(v: Option<real>): real
  {
    match v
    case Some(x) => x
    case None => 0.0
  }

  /** One row of the position table; only ppg, rpg and apg take part in the score. */
  datatype Multipliers = Multipliers(ppg: real, rpg: real, apg: real, stl: real, blk: real, threes: real)

  const PG := Multipliers(1.26, 3.08, 2.73, 10.0, 25.0, 15.0)
  const SG := Multipliers(0.901, 3.448, 4.0, 11.111, 33.333, 11.111)
  const SF := Multipliers(0.917, 2.326, 5.263, 12.5, 25.0, 14.286)
  const PF := Multipliers(1.0204, 1.6949, 6.667, 14.286, 16.667, 25.0)
  const C := Multipliers(1.0989, 1.5625, 7.692, 20.0, 10.0, 8.33)

  /** The table's own entries. */
  function PositionEntry(position: string): Option<Multipliers>
  {
    if position == "PG" then Some(PG)
    else if position == "SG" then Some(SG)
    else if position == "SF" then Some(SF)
    else if position == "PF" then Some(PF)
    else if position == "C" then Some(C)
    else None
  }

  /** The multipliers used for a position: its table row, or SF's for any other position. */
  function MultipliersFor(position: string): (m: Multipliers)
    ensures PositionEntry(position).Some? ==> m == PositionEntry(position).value
    ensures PositionEntry(position).None? ==> m == SF
    ensures m.ppg > 0.0 && m.rpg > 0.0 && m.apg > 0.0
  {
    match PositionEntry(position)
    case Some(row) => row
    case None => SF
  }

  function Score(stats: AthleteStats, m: Multipliers): real
  {
    OrZero(stats.ppg) * m.ppg + OrZero(stats.rpg) * m.rpg + OrZero(stats.apg) * m.apg
  }

  /**
   * `max(score / 10, 10)`: the IPO price, never below 10. This is the
   * intended behaviour for every position string; see `IpoPriceAsWritten`
   * for what the table lookup does with names inherited by every JavaScript
   * object.
   */
  function CalculateIPOPrice(stats: AthleteStats, position: string): (price: real)
    ensures price >= 10.0
    ensures price * 10.0 >= Score(stats, MultipliersFor(position))
    ensures price == 10.0 || price * 10.0 == Score(stats, MultipliersFor(position))
  {
    var score := Score(stats, MultipliersFor(position));
    if score / 10.0 >= 10.0 then score / 10.0 else 10.0
  }

  /** A position outside the table is priced exactly as a small forward (SF). */
  lemma UnknownPositionPricedAsSF(stats: AthleteStats, position: string)
    requires PositionEntry(position).None?
    ensures CalculateIPOPrice(stats, position) == CalculateIPOPrice(stats, "SF")
  {
  }

  /** The stl, blk and threes multipliers play no part in the score. */
  lemma OnlyCountingStatsMatter(stats: AthleteStats, m1: Multipliers, m2: Multipliers)
    requires m1.ppg == m2.ppg && m1.rpg == m2.rpg && m1.apg == m2.apg
    ensures Score(stats, m1) == Score(stats, m2)
  {
  }

  /** A missing statistic is priced as a zero one. */
  lemma MissingStatIsZero(stats: AthleteStats, position: string)
    ensures CalculateIPOPrice(stats.(ppg := None), position) == CalculateIPOPrice(stats.(ppg := Some(0.0)), position)
    ensures CalculateIPOPrice(stats.(rpg := None), position) == CalculateIPOPrice(stats.(rpg := Some(0.0)), position)
    ensures CalculateIPOPrice(stats.(apg := None), position) == CalculateIPOPrice(stats.(apg := Some(0.0)), position)
  {
  }

  function StatsLeq(a: AthleteStats, b: AthleteStats): bool
  {
    OrZero(a.ppg) <= OrZero(b.ppg) && OrZero(a.rpg) <= OrZero(b.rpg) && OrZero(a.apg) <= OrZero(b.apg)
  }

  /** Better points, rebounds or assists never lower the IPO price: every multiplier is positive. */
  lemma IPOPriceMonotone(a: AthleteStats, b: AthleteStats, position: string)
    requires StatsLeq(a, b)
    ensures CalculateIPOPrice(a, position) <= CalculateIPOPrice(b, position)
  {
    var m := MultipliersFor(position);
    assert OrZero(a.ppg) * m.ppg <= OrZero(b.ppg) * m.ppg;
    assert OrZero(a.rpg) * m.rpg <= OrZero(b.rpg) * m.rpg;
    assert OrZero(a.apg) * m.apg <= OrZero(b.apg) * m.apg;
    assert Score(a, m) <= Score(b, m);
  }

  /** The injury table's own entries. */
  function InjuryEntry(injuryStatus: string): Option<real>
  {
    if injuryStatus == "healthy" then Some(1.0)
    else if injuryStatus == "minor" then Some(0.85)
    else if injuryStatus == "moderate" then Some(0.65)
    else if injuryStatus == "major" then Some(0.25)
    else if injuryStatus == "out" then Some(0.1)
    else None
  }

  /**
   * The injury multiplier: the table's weight, or 1.0 for any other status
   * (the intended behaviour; see `InjuryImpactAsWritten`). Always in (0, 1].
   */
  function CalculateInjuryImpact(injuryStatus: string): (w: real)
    ensures 0.0 < w <= 1.0
    ensures InjuryEntry(injuryStatus).None? ==> w == 1.0
    ensures InjuryEntry(injuryStatus).Some? ==> w == InjuryEntry(injuryStatus).value
  {
    match InjuryEntry(injuryStatus)
    case Some(weight) => weight
    case None => 1.0
  }

  /** The table itself: severity never raises the multiplier. */
  lemma InjuryTable()
    ensures CalculateInjuryImpact("healthy") == 1.0
    ensures CalculateInjuryImpact("minor") == 0.85
    ensures CalculateInjuryImpact("moderate") == 0.65
    ensures CalculateInjuryImpact("major") == 0.25
    ensures CalculateInjuryImpact("out") == 0.1
    ensures CalculateInjuryImpact("day-to-day") == 1.0
  {
  }

  /** The hotness tiers on the volume ratio, with strict comparisons. */
  function HotnessTier(ratio: real): real
  {
    if ratio > 2.0 then 1.15
    else if ratio > 1.5 then 1.08
    else if ratio > 0.8 then 1.0
    else if ratio > 0.5 then 0.95
    else 0.9
  }

  /** Trading volume relative to the average; a non-positive average counts as ratio 1. */
  function VolumeRatio(tradingVolume: real, avgVolume: real): real
  {
    if avgVolume > 0.0 then tradingVolume / avgVolume else 1.0
  }

  function CalculateHotnessMultiplier(tradingVolume: real, avgVolume: real): (h: real)
    ensures h in {0.9, 0.95, 1.0, 1.08, 1.15}
    ensures avgVolume <= 0.0 ==> h == 1.0
  {
    HotnessTier(VolumeRatio(tradingVolume, avgVolume))
  }

  /** A higher ratio never yields a lower multiplier. */
  lemma HotnessMonotone(r1: real, r2: real)
    requires r1 <= r2
    ensures HotnessTier(r1) <= HotnessTier(r2)
  {
  }

  /** Each threshold belongs to the tier below it. */
  lemma HotnessBoundaries()
    ensures HotnessTier(2.0) == 1.08 && HotnessTier(2.01) == 1.15
    ensures HotnessTier(1.5) == 1.0 && HotnessTier(1.51) == 1.08
    ensures HotnessTier(0.8) == 0.95 && HotnessTier(0.81) == 1.0
    ensures HotnessTier(0.5) == 0.9 && HotnessTier(0.51) == 0.95
    ensures CalculateHotnessMultiplier(300.0, 100.0) == 1.15
    ensures CalculateHotnessMultiplier(200.0, 100.0) == 1.08
  {
    assert VolumeRatio(300.0, 100.0) == 3.0;
    assert VolumeRatio(200.0, 100.0) == 2.0;
  }

  // What the two table lookups do as written. A JavaScript object literal
  // also answers the names it inherits from Object.prototype, and those
  // answers (a function or an object) are truthy, so the `|| fallback`
  // does not apply to them.

  /** The property names every object literal inherits from Object.prototype. */
  const InheritedNames: set<string> := {
    "constructor", "hasOwnProperty", "isPrototypeOf", "propertyIsEnumerable",
    "toString", "toLocaleString", "valueOf", "__proto__",
    "__defineGetter__", "__defineSetter__", "__lookupGetter__", "__lookupSetter__"}

  /**
   * `calculateIPOPrice` as written: for an inherited name the "multipliers"
   * are a function or object without a `ppg` field, the score is NaN, and
   * `Math.max(NaN, 10)` is NaN (here `None`).
   */
  function IpoPriceAsWritten(stats: AthleteStats, position: string): (r: Option<real>)
    ensures PositionEntry(position).Some? || position !in InheritedNames ==> r == Some(CalculateIPOPrice(stats, position))
  {
    if PositionEntry(position).None? && position in InheritedNames then None
    else Some(CalculateIPOPrice(stats, position))
  }

  datatype JsValue = Number(n: real) | NonNumber

  /** `calculateInjuryImpact` as written: an inherited name returns that property, not a number. */
  function InjuryImpactAsWritten(injuryStatus: string): (r: JsValue)
    ensures InjuryEntry(injuryStatus).Some? || injuryStatus !in InheritedNames ==> r == Number(CalculateInjuryImpact(injuryStatus))
  {
    if InjuryEntry(injuryStatus).None? && injuryStatus in InheritedNames then NonNumber
    else Number(CalculateInjuryImpact(injuryStatus))
  }

  /** The inputs that break the promised floor of 10 and the promised fallback to 1.0. */
  lemma InheritedNameDefeatsFallback(stats: AthleteStats)
    ensures IpoPriceAsWritten(stats, "constructor") == None
    ensures IpoPriceAsWritten(stats, "toString") == None
    ensures InjuryImpactAsWritten("constructor") == NonNumber
    ensures InjuryImpactAsWritten("valueOf") == NonNumber
    ensures CalculateIPOPrice(stats, "constructor") >= 10.0
    ensures CalculateInjuryImpact("constructor") == 1.0
  {
    assert "constructor" in InheritedNames;
    assert "toString" in InheritedNames;
    assert "valueOf" in InheritedNames;
  }
}
