/**
 * The owner dashboard: figures summed over the owner's locations and, per
 * location, the free count, the occupancy percentage and the colour of its
 * occupancy bar. The list is fixed once rendered.
 */
module OwnerDashboard {
  import opened Wrappers
  import opened JsBuiltins

  /** One location as the dashboard lists it; revenue in whole rupees. */
  datatype DashSpot = DashSpot(
    id: string,
    name: string,
    address: string,
    totalSpots: nat,
    occupiedSpots: nat,
    pricePerHour: int,
    todayRevenue: int)

  /** A location never has more cars than spaces. */
  predicate Consistent(spots: seq<DashSpot>) {
    forall i :: 0 <= i < |spots| ==> spots[i].occupiedSpots <= spots[i].totalSpots
  }

  // ------------------------------------------------------------ sums

  function TotalSpots(spots: seq<DashSpot>): nat {
    if spots == [] then 0 else spots[0].totalSpots + TotalSpots(spots[1..])
  }

  function OccupiedSpots(spots: seq<DashSpot>): nat {
    if spots == [] then 0 else spots[0].occupiedSpots + OccupiedSpots(spots[1..])
  }

  function TodayRevenue(spots: seq<DashSpot>): int {
    if spots == [] then 0 else spots[0].todayRevenue + TodayRevenue(spots[1..])
  }

  /** The free count shown on a location's card. */
  function AvailableSpots(s: DashSpot): int {
    s.totalSpots - s.occupiedSpots
  }

  function TotalAvailable(spots: seq<DashSpot>): int {
    if spots == [] then 0 else AvailableSpots(spots[0]) + TotalAvailable(spots[1..])
  }

  /**
   * Each sum is a fold from the left with 0: summing two lists one after
   * the other is summing their concatenation.
   */
  lemma {:induction false} SumsSplit(a: seq<DashSpot>, b: seq<DashSpot>)
    ensures TotalSpots(a + b) == TotalSpots(a) + TotalSpots(b)
    ensures OccupiedSpots(a + b) == OccupiedSpots(a) + OccupiedSpots(b)
    ensures TodayRevenue(a + b) == TodayRevenue(a) + TodayRevenue(b)
  {
    if a != [] {
      SumsSplit(a[1..], b);
      assert (a + b)[1..] == a[1..] + b;
    } else {
      assert a + b == b;
    }
  }

  /**
   * The cards' free counts add up to the difference of the two totals at
   * the top, and with consistent locations the occupied total stays within
   * the spaces.
   */
  lemma {:induction false} AvailableAddsUp(spots: seq<DashSpot>)
    ensures TotalAvailable(spots) == TotalSpots(spots) - OccupiedSpots(spots)
    ensures Consistent(spots) ==> OccupiedSpots(spots) <= TotalSpots(spots)
  {
    if spots != [] {
      AvailableAddsUp(spots[1..]);
      assert Consistent(spots) ==> Consistent(spots[1..]);
    }
  }

  /** The "Locations" badge. */
  function Locations(spots: seq<DashSpot>): nat {
    |spots|
  }

  // ------------------------------------------------------- occupancy

  /**
   * A number `Math.round(x / t * 100)` can produce: a whole percentage, or,
   * when `t` is 0, `NaN` (for `0 / 0`) or `Infinity` (for a positive `x`).
   */
  datatype Rate = Percent(value: int) | NaN | Infinity

  /** A location's occupancy, `Math.round(occupied / total * 100)`. */
  function OccupancyRate(s: DashSpot): (r: Rate)
    ensures r.NaN? <==> s.totalSpots == 0 && s.occupiedSpots == 0
    ensures r.Infinity? <==> s.totalSpots == 0 && s.occupiedSpots > 0
    ensures r.Percent? && s.occupiedSpots <= s.totalSpots ==> 0 <= r.value <= 100
    ensures r.Percent? && s.occupiedSpots == s.totalSpots ==> r.value == 100
    ensures r.Percent? && s.occupiedSpots == 0 ==> r.value == 0
  {
    if s.totalSpots == 0 then
      if s.occupiedSpots == 0 then NaN else Infinity
    else
      RoundPercentEnds(s.totalSpots);
      if s.occupiedSpots <= s.totalSpots then
        RoundPercentRange(s.occupiedSpots, s.totalSpots);
        Percent(RoundPercent(s.occupiedSpots, s.totalSpots).value)
      else Percent(RoundPercent(s.occupiedSpots, s.totalSpots).value)
  }

  /** The occupancy card at the top, over all locations. */
  function OverallOccupancy(spots: seq<DashSpot>): (r: Option<int>)
    requires Consistent(spots)
    ensures r.None? <==> TotalSpots(spots) == 0
    ensures r.Some? ==> 0 <= r.value <= 100
  {
    AvailableAddsUp(spots);
    RoundPercentRange(OccupiedSpots(spots), TotalSpots(spots));
    RoundPercent(OccupiedSpots(spots), TotalSpots(spots))
  }

  datatype BarColor = Red | Amber | Green {
    function ClassName(): string {
      match this
      case Red => "bg-red-500"
      case Amber => "bg-amber-500"
      case Green => "bg-emerald-500"
    }
  }

  /** The bar is red above 85 per cent, amber above 60, green otherwise. */
  function Bar(rate: int): (c: BarColor)
    ensures c == Red <==> rate > 85
    ensures c == Amber <==> 60 < rate <= 85
    ensures c == Green <==> rate <= 60
  {
    if rate > 85 then Red else if rate > 60 then Amber else Green
  }

  /**
   * The bar's colour for a location. Every comparison with `NaN` is false,
   * so a location with no spaces and no cars has a green bar, while
   * `Infinity` exceeds 85, so one with no spaces but cars has a red bar.
   */
  function BarOf(s: DashSpot): (c: BarColor)
    ensures s.totalSpots == 0 && s.occupiedSpots == 0 ==> c == Green
    ensures s.totalSpots == 0 && s.occupiedSpots > 0 ==> c == Red
    ensures s.totalSpots > 0 ==> c == Bar(OccupancyRate(s).value)
  {
    match OccupancyRate(s)
    case NaN => Green
    case Infinity => Red
    case Percent(r) => Bar(r)
  }

  /** Scaling both sides of `a <= b` by a non-negative `t`. */
  lemma Scale(a: int, b: int, t: nat)
    requires a <= b
    ensures a * t <= b * t
  {
  }

  /**
   * Stated on the counts themselves: red exactly when at least 85.5 per
   * cent of the spaces are taken, green exactly when less than 60.5 per
   * cent are, since the rate is the rounded percentage.
   */
  lemma BarByCounts(s: DashSpot)
    requires s.totalSpots > 0
    ensures BarOf(s) == Red <==> 200 * s.occupiedSpots >= 171 * s.totalSpots
    ensures BarOf(s) == Green <==> 200 * s.occupiedSpots < 121 * s.totalSpots
  {
    var r := OccupancyRate(s).value;
    var t := s.totalSpots;
    assert (2 * r - 1) * t <= 200 * s.occupiedSpots < (2 * r + 1) * t;
    if r > 85 { Scale(171, 2 * r - 1, t); } else { Scale(2 * r + 1, 171, t); }
    if r <= 60 { Scale(2 * r + 1, 121, t); } else { Scale(121, 2 * r - 1, t); }
  }
}
