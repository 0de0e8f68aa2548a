/**
 * The stat bars of intel: five horizontal gauges drawn on the snapshot
 * frame, each from x = 0 to x = int(50 * ratio). Only the arithmetic that
 * picks each bar's end is modelled; the drawing itself is not.
 */
module Intel {
  import opened Game

  /** Length in pixels of a full bar. */
  const LineMax: int := 50
  /** Minerals or vespene that fill their bar. */
  const ResourceFull: nat := 1500
  /** The most supply a player can have. */
  const SupplyMax: real := 200.0

  /** The library's answers intel reads. */
  datatype Resources = Resources(
    minerals: nat,
    vespene: nat,
    supplyLeft: int,   // supply_left
    supplyCap: int,    // supply_cap
    voidRays: nat      // len(self.units(VOIDRAY)), unready ones included
  )

  /** The end column of each bar, top to bottom as drawn before the flip. */
  datatype Bars = Bars(military: int, plausibleSupply: int, population: int, vespene: int, mineral: int)

  /** Python's int() on a float: drops the fraction, rounding toward zero. */
  function Trunc(v: real): (r: int)
    ensures v >= 0.0 ==> r as real <= v < r as real + 1.0
    ensures v < 0.0 ==> r as real - 1.0 < v <= r as real
  {
    if v >= 0.0 then v.Floor else -((-v).Floor)
  }

  /** The clamp every ratio except the plausible supply gets: anything over 1.0 becomes 1.0. */
  function AtMostOne(ratio: real): (r: real)
    ensures r <= 1.0
    ensures ratio <= 1.0 ==> r == ratio
    ensures ratio >= 1.0 ==> r == 1.0
  {
    if ratio > 1.0 then 1.0 else ratio
  }

  /** A bar's end column for a ratio: int(50 * ratio). */
  function BarEnd(ratio: real): (r: int)
    ensures ratio <= 1.0 ==> r <= LineMax
    ensures ratio >= 0.0 ==> r >= 0
    ensures ratio == 1.0 ==> r == LineMax
  {
    Trunc(LineMax as real * ratio)
  }

  /** Minerals or vespene as a fraction of 1500, capped at 1.0. */
  function ResourceRatio(amount: nat): (r: real)
    ensures 0.0 <= r <= 1.0
    ensures r == 1.0 <==> amount >= ResourceFull
    ensures amount < ResourceFull ==> r * ResourceFull as real == amount as real
  {
    AtMostOne(amount as real / ResourceFull as real)
  }

  /** Supply left as a fraction of the supply cap, capped at 1.0; the cap must not be zero. */
  function PopulationRatio(supplyLeft: int, supplyCap: int): (r: real)
    requires supplyCap != 0
    ensures r <= 1.0
    ensures 0 <= supplyLeft <= supplyCap ==> 0.0 <= r && r * supplyCap as real == supplyLeft as real
    // over-used supply (a negative supply_left) gives the exact negative ratio
    ensures 0 < supplyCap && supplyLeft <= supplyCap ==> r * supplyCap as real == supplyLeft as real
  {
    AtMostOne(supplyLeft as real / supplyCap as real)
  }

  /** The supply cap as a fraction of 200; not capped. */
  function PlausibleSupply(supplyCap: int): (r: real)
    ensures r * SupplyMax == supplyCap as real
  {
    supplyCap as real / SupplyMax
  }

  /**
   * Void rays per unit of supply in use, capped at 1.0; taken as 1.0 when no
   * supply is in use, so there is no division by zero.
   */
  function MilitaryWeight(voidRays: nat, supplyCap: int, supplyLeft: int): (r: real)
    ensures r <= 1.0
    ensures supplyCap == supplyLeft ==> r == 1.0
    ensures supplyCap - supplyLeft > 0 ==> 0.0 <= r
    ensures supplyCap - supplyLeft > 0 ==> (r == 1.0 <==> voidRays >= supplyCap - supplyLeft)
    // below the clamp, the weight is void rays over the supply in use
    ensures supplyCap - supplyLeft > 0 && voidRays < supplyCap - supplyLeft ==>
      r * (supplyCap - supplyLeft) as real == voidRays as real
    ensures supplyCap - supplyLeft < 0 ==> r * (supplyCap - supplyLeft) as real == voidRays as real
  {
    var supplyDiff := supplyCap - supplyLeft;
    var weight := if supplyDiff == 0 then 1.0 else voidRays as real / supplyDiff as real;
    AtMostOne(weight)
  }

  /**
   * The five bar ends intel draws, or None when the supply cap is zero, where
   * the population ratio divides by zero and intel raises.
   */
  function StatBars(s: Resources): (r: Option<Bars>)
    ensures r.None? <==> s.supplyCap == 0
    ensures r.Some? ==> 0 <= r.value.mineral <= LineMax && 0 <= r.value.vespene <= LineMax
    ensures r.Some? ==> r.value.population <= LineMax && r.value.military <= LineMax
    ensures r.Some? && 0 <= s.supplyLeft <= s.supplyCap ==> 0 <= r.value.population
    ensures r.Some? && s.supplyLeft <= s.supplyCap ==> 0 <= r.value.military
  {
    if s.supplyCap == 0 then None
    else
      Some(Bars(
        military := BarEnd(MilitaryWeight(s.voidRays, s.supplyCap, s.supplyLeft)),
        plausibleSupply := BarEnd(PlausibleSupply(s.supplyCap)),
        population := BarEnd(PopulationRatio(s.supplyLeft, s.supplyCap)),
        vespene := BarEnd(ResourceRatio(s.vespene)),
        mineral := BarEnd(ResourceRatio(s.minerals))))
  }

  /** For a whole number n and d > 0, the floor of n / d is n's integer quotient. */
  lemma FloorOfQuotient(n: nat, d: nat)
    requires d > 0
    ensures (n as real / d as real).Floor == n / d
  {
    var q, m := n / d, n % d;
    assert n == d * q + m;
    assert n as real / d as real == q as real + m as real / d as real;
    assert 0.0 <= m as real / d as real < 1.0;
  }

  /**
   * The mineral and vespene bars in whole numbers: one pixel per 30 units,
   * full (50) from 1500 on.
   */
  lemma ResourceBarFormula(amount: nat)
    ensures BarEnd(ResourceRatio(amount)) == if amount >= ResourceFull then LineMax else amount / 30
  {
    if amount < ResourceFull {
      var v := LineMax as real * ResourceRatio(amount);
      assert v == amount as real / 30.0;
      FloorOfQuotient(amount, 30);
    }
  }

  /**
   * The plausible-supply bar in whole numbers: the cap divided by 4. It is
   * not clamped, so it runs past the 50-pixel bar once the cap reaches 204.
   */
  lemma PlausibleBarFormula(supplyCap: nat)
    ensures BarEnd(PlausibleSupply(supplyCap)) == supplyCap / 4
    ensures BarEnd(PlausibleSupply(supplyCap)) > LineMax <==> supplyCap >= 204
  {
    var v := LineMax as real * PlausibleSupply(supplyCap);
    assert v == supplyCap as real / 4.0;
    FloorOfQuotient(supplyCap, 4);
  }
}
