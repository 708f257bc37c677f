/**
 * The owner's "Manage Spots" page: a list of the owner's parking locations
 * whose free-space counts are edited in place (one step at a time, through
 * the exact-count dialog, or all at once), the availability badge, the
 * "last updated" text and the summary totals.
 */
module ManageSpots {
  import opened Wrappers
  import opened JsBuiltins

  /** One row of the page. `lastUpdated` is a time in milliseconds. */
  datatype OwnerSpot = OwnerSpot(
    id: string,
    name: string,
    address: string,
    totalSpots: nat,
    availableSpots: int,
    pricePerHour: int,
    operatingHours: string,
    lastUpdated: int)

  /** A row whose free count lies between none and all of its spaces. */
  predicate InRange(s: OwnerSpot) {
    0 <= s.availableSpots <= s.totalSpots
  }

  predicate AllInRange(spots: seq<OwnerSpot>) {
    forall i :: 0 <= i < |spots| ==> InRange(spots[i])
  }

  /** Each location is listed once (the ids are the list's React keys). */
  predicate UniqueIds(spots: seq<OwnerSpot>) {
    forall i, j :: 0 <= i < j < |spots| ==> spots[i].id != spots[j].id
  }

  // ------------------------------------------------------------ badges

  datatype Band = High | Medium | Low {
    function Label(): string {
      match this
      case High => "High"
      case Medium => "Medium"
      case Low => "Low"
    }
  }

  /**
   * The badge for `available` of `total`: more than 30 per cent free is
   * High, more than 10 per cent Medium, anything else Low. With no spaces
   * at all the quotient is infinite (High) when something is free and `NaN`
   * (Low) otherwise; the cross-multiplied comparison gives the same.
   */
  function AvailabilityBand(available: int, total: nat): (b: Band)
    ensures total > 0 ==> (b == High <==> available * 100 > 30 * total)
    ensures total > 0 ==> (b == Low <==> available * 100 <= 10 * total)
    ensures total == 0 ==> (b == High <==> available > 0) && b != Medium
  {
    if available * 100 > 30 * total then High
    else if available * 100 > 10 * total then Medium
    else Low
  }

  /** More free spaces never lower the badge. */
  lemma BandMonotone(a: int, b: int, total: nat)
    requires a <= b
    ensures AvailabilityBand(a, total) == High ==> AvailabilityBand(b, total) == High
    ensures AvailabilityBand(b, total) == Low ==> AvailabilityBand(a, total) == Low
  {
  }

  /** The "Low Availability Alert": some row has less than a tenth of its spaces free. */
  predicate LowAlert(spots: seq<OwnerSpot>) {
    exists i :: 0 <= i < |spots| && spots[i].availableSpots * 10 < spots[i].totalSpots
  }

  /** Every row that raises the alert shows a Low badge. */
  lemma LowAlertShowsLow(spots: seq<OwnerSpot>)
    requires LowAlert(spots)
    ensures exists i :: 0 <= i < |spots| && AvailabilityBand(spots[i].availableSpots, spots[i].totalSpots) == Low
  {
    var i :| 0 <= i < |spots| && spots[i].availableSpots * 10 < spots[i].totalSpots;
    assert AvailabilityBand(spots[i].availableSpots, spots[i].totalSpots) == Low;
  }

  // ------------------------------------------------------- last updated

  datatype Age = JustNow | MinutesAgo(minutes: nat) | HoursAgo(hours: nat) | OnDate {
    /** The text shown; a date is printed by the browser's locale and is not modelled. */
    function Text(): Option<string> {
      match this
      case JustNow => Some("Just now")
      case MinutesAgo(m) => Some(Decimal(m) + " min ago")
      case HoursAgo(h) => Some(Decimal(h) + " hr ago")
      case OnDate => None
    }
  }

  const MinuteMs: nat := 60000
  const HourMs: nat := 3600000
  const DayMs: nat := 86400000

  /** How long ago `diffMs` milliseconds is, in whole minutes or whole hours rounded down. */
  function LastUpdated(diffMs: int): (a: Age)
    ensures a == JustNow <==> diffMs < MinuteMs
    ensures a.MinutesAgo? <==> MinuteMs <= diffMs < HourMs
    ensures a.MinutesAgo? ==> a.minutes * MinuteMs <= diffMs < (a.minutes + 1) * MinuteMs
    ensures a.HoursAgo? <==> HourMs <= diffMs < DayMs
    ensures a.HoursAgo? ==> 1 <= a.hours < 24 && a.hours * HourMs <= diffMs < (a.hours + 1) * HourMs
  {
    var minutes := diffMs / 60000;
    if minutes < 1 then JustNow
    else if minutes < 60 then MinutesAgo(minutes)
    else
      var hours := minutes / 60;
      FloorTwice(diffMs);
      if hours < 24 then HoursAgo(hours) else OnDate
  }

  /** Whole hours counted from whole minutes are whole hours counted from milliseconds. */
  lemma FloorTwice(ms: int)
    ensures (ms / 60000) / 60 == ms / 3600000
  {
    var m, h := ms / 60000, ms / 3600000;
    assert m * 60000 <= ms < m * 60000 + 60000;
    assert h * 3600000 <= ms < h * 3600000 + 3600000;
    assert h * 60 <= m < h * 60 + 60;
  }

  // ------------------------------------------------------------ totals

  function TotalAvailable(spots: seq<OwnerSpot>): int {
    if spots == [] then 0 else spots[0].availableSpots + TotalAvailable(spots[1..])
  }

  function TotalSpots(spots: seq<OwnerSpot>): nat {
    if spots == [] then 0 else spots[0].totalSpots + TotalSpots(spots[1..])
  }

  /** Rows in range make the summary "available / total" a fraction between none and all. */
  lemma {:induction false} TotalsInRange(spots: seq<OwnerSpot>)
    requires AllInRange(spots)
    ensures 0 <= TotalAvailable(spots) <= TotalSpots(spots)
  {
    if spots != [] {
      TotalsInRange(spots[1..]);
    }
  }

  /** The summary's occupancy rate: occupied = total - available, as a rounded percentage. */
  function OccupancyRate(spots: seq<OwnerSpot>): (r: Option<int>)
    requires AllInRange(spots)
    ensures r.None? <==> TotalSpots(spots) == 0
    ensures r.Some? ==> 0 <= r.value <= 100
  {
    TotalsInRange(spots);
    var t := TotalSpots(spots);
    RoundPercentRange(t - TotalAvailable(spots), t);
    RoundPercent(t - TotalAvailable(spots), t)
  }

  /** A row's "Occupied" figure and its "Capacity Usage" percentage. */
  function Usage(s: OwnerSpot): (r: (int, Option<int>))
    requires InRange(s)
    ensures r.0 + s.availableSpots == s.totalSpots && 0 <= r.0
    ensures r.1.Some? ==> 0 <= r.1.value <= 100
  {
    var occupied := s.totalSpots - s.availableSpots;
    RoundPercentRange(occupied, s.totalSpots);
    (occupied, RoundPercent(occupied, s.totalSpots))
  }

  // -------------------------------------------------------- list updates

  /** The rows with id `id` get `available` free spaces and the time `now`; every other row is kept. */
  function SetAvailable(spots: seq<OwnerSpot>, id: string, available: OwnerSpot -> int, now: int): (r: seq<OwnerSpot>)
    ensures |r| == |spots|
    ensures forall i :: 0 <= i < |spots| ==>
      r[i] == if spots[i].id == id then spots[i].(availableSpots := available(spots[i]), lastUpdated := now) else spots[i]
  {
    if spots == [] then []
    else [if spots[0].id == id then spots[0].(availableSpots := available(spots[0]), lastUpdated := now) else spots[0]]
         + SetAvailable(spots[1..], id, available, now)
  }

  /** With unique ids, two rows with the same id are the same row. */
  lemma SameIdSameRow(spots: seq<OwnerSpot>, i: nat, k: nat)
    requires UniqueIds(spots) && i < |spots| && k < |spots| && spots[i].id == spots[k].id
    ensures i == k
  {
  }

  /** Setting in-range counts keeps the rows' ids, their spaces, their ranges and the ids' uniqueness. */
  lemma SetAvailableValid(spots: seq<OwnerSpot>, id: string, available: OwnerSpot -> int, now: int)
    requires UniqueIds(spots) && AllInRange(spots)
    requires forall k :: 0 <= k < |spots| && spots[k].id == id ==> 0 <= available(spots[k]) <= spots[k].totalSpots
    ensures var r := SetAvailable(spots, id, available, now);
      && UniqueIds(r) && AllInRange(r)
      && forall k :: 0 <= k < |r| ==> r[k].id == spots[k].id && r[k].totalSpots == spots[k].totalSpots
  {
  }

  /**
   * The summary count moves by exactly what the edited row moved: updating
   * one row changes the total free count by its change and no more.
   */
  lemma {:induction false} SetAvailableTotal(spots: seq<OwnerSpot>, id: string, available: OwnerSpot -> int, now: int, k: nat)
    requires k < |spots| && spots[k].id == id
    requires forall i :: 0 <= i < |spots| && i != k ==> spots[i].id != id
    ensures TotalAvailable(SetAvailable(spots, id, available, now))
         == TotalAvailable(spots) - spots[k].availableSpots + available(spots[k])
    ensures TotalSpots(SetAvailable(spots, id, available, now)) == TotalSpots(spots)
  {
    var r := SetAvailable(spots, id, available, now);
    if k == 0 {
      Unchanged(spots[1..], id, available, now);
      assert r[1..] == SetAvailable(spots[1..], id, available, now);
    } else {
      SetAvailableTotal(spots[1..], id, available, now, k - 1);
    }
  }

  /** Rows none of which has the id are left as they are. */
  lemma {:induction false} Unchanged(spots: seq<OwnerSpot>, id: string, available: OwnerSpot -> int, now: int)
    requires forall i :: 0 <= i < |spots| ==> spots[i].id != id
    ensures SetAvailable(spots, id, available, now) == spots
  {
    if spots != [] {
      Unchanged(spots[1..], id, available, now);
      assert spots == [spots[0]] + spots[1..];
    }
  }

  /** The new count of a row after `+1`/`-1`: `max(0, min(total, available + change))`. */
  function Stepped(change: int): OwnerSpot -> int {
    (s: OwnerSpot) => Clamp(s.availableSpots + change, s.totalSpots)
  }

  /** A step never leaves a row out of range, and moves it by `change` whenever the result fits. */
  lemma SteppedInRange(s: OwnerSpot, change: int)
    ensures InRange(s.(availableSpots := Stepped(change)(s)))
    ensures 0 <= s.availableSpots + change <= s.totalSpots ==> Stepped(change)(s) == s.availableSpots + change
  {
  }

  /**
   * The four "Quick Presets" buttons. The count entered is of free spaces, so
   * "Full" (the lot is full) sets none free and "Empty" sets every space free;
   * "25%" and "50%" set that share of the spaces free.
   */
  datatype Preset = Full | Quarter | Half | Empty

  /** The free count a preset enters: 0, `Math.round(total * 0.25)`, `Math.round(total * 0.5)` or `total`. */
  function PresetValue(p: Preset, total: nat): (v: nat)
    ensures v <= total
    ensures p == Full ==> v == 0
    ensures p == Empty ==> v == total
    ensures p == Quarter ==> 4 * v - 2 <= total < 4 * v + 2
    ensures p == Half ==> 2 * v - 1 <= total < 2 * v + 1
  {
    match p
    case Full => 0
    case Quarter => (total + 2) / 4
    case Half => (total + 1) / 2
    case Empty => total
  }

  /** The page's state. */
  class ManageSpotsPage {
    var parkingSpots: seq<OwnerSpot>
    var editingSpot: Option<OwnerSpot>
    var tempAvailable: int
    var showSuccess: bool
    var savedSpotName: string

    /**
     * Rows have distinct ids and are in range; while the dialog is open the count being
     * entered is within the edited location's spaces, and the rows with that
     * id still have that many spaces.
     */
    predicate Valid()
      reads this
    {
      && UniqueIds(parkingSpots)
      && AllInRange(parkingSpots)
      && (editingSpot.Some? ==>
            && 0 <= tempAvailable <= editingSpot.value.totalSpots
            && forall i :: 0 <= i < |parkingSpots| && parkingSpots[i].id == editingSpot.value.id ==>
                 parkingSpots[i].totalSpots == editingSpot.value.totalSpots)
    }

    constructor (initial: seq<OwnerSpot>)
      requires UniqueIds(initial) && AllInRange(initial)
      ensures Valid()
      ensures parkingSpots == initial && editingSpot == None && tempAvailable == 0
      ensures !showSuccess && savedSpotName == ""
    {
      parkingSpots, editingSpot, tempAvailable := initial, None, 0;
      showSuccess, savedSpotName := false, "";
    }

    /** "Set Exact Count" on row `i`: the dialog opens on that row with its current count. */
    method EditSpot(i: nat)
      requires Valid() && i < |parkingSpots|
      modifies this
      ensures Valid()
      ensures editingSpot == Some(old(parkingSpots[i])) && tempAvailable == old(parkingSpots[i].availableSpots)
      ensures parkingSpots == old(parkingSpots) && showSuccess == old(showSuccess) && savedSpotName == old(savedSpotName)
    {
      editingSpot := Some(parkingSpots[i]);
      tempAvailable := parkingSpots[i].availableSpots;
    }

    /** The `+`/`-` buttons: `handleQuickUpdate(id, change)`. */
    method QuickUpdate(id: string, change: int, now: int)
      requires Valid()
      modifies this
      ensures Valid()
      ensures parkingSpots == SetAvailable(old(parkingSpots), id, Stepped(change), now)
      ensures editingSpot == old(editingSpot) && tempAvailable == old(tempAvailable)
      ensures showSuccess == old(showSuccess) && savedSpotName == old(savedSpotName)
    {
      forall k | 0 <= k < |parkingSpots| && parkingSpots[k].id == id
        ensures 0 <= Stepped(change)(parkingSpots[k]) <= parkingSpots[k].totalSpots
      {
        SteppedInRange(parkingSpots[k], change);
      }
      SetAvailableValid(parkingSpots, id, Stepped(change), now);
      parkingSpots := SetAvailable(parkingSpots, id, Stepped(change), now);
    }

    /** "Save Changes": the edited rows take the entered count, the dialog closes and the toast shows. */
    method SaveSpot(now: int)
      requires Valid()
      modifies this
      ensures Valid()
      ensures old(editingSpot).None? ==>
        && parkingSpots == old(parkingSpots) && editingSpot == None
        && showSuccess == old(showSuccess) && savedSpotName == old(savedSpotName)
      ensures old(editingSpot).Some? ==>
        && parkingSpots == SetAvailable(old(parkingSpots), old(editingSpot).value.id, _ => old(tempAvailable), now)
        && editingSpot == None && showSuccess && savedSpotName == old(editingSpot).value.name
      ensures tempAvailable == old(tempAvailable)
    {
      if editingSpot.None? {
        return;
      }
      var spot := editingSpot.value;
      var value := tempAvailable;
      SetAvailableValid(parkingSpots, spot.id, _ => value, now);
      parkingSpots := SetAvailable(parkingSpots, spot.id, _ => value, now);
      savedSpotName := spot.name;
      editingSpot := None;
      showSuccess := true;
    }

    /** "Mark All Available" on row `i`: the rows with its id become completely free. */
    method MarkAllAvailable(i: nat, now: int)
      requires Valid() && i < |parkingSpots|
      modifies this
      ensures Valid()
      ensures var clicked := old(parkingSpots[i]);
        parkingSpots == SetAvailable(old(parkingSpots), clicked.id, _ => clicked.totalSpots, now)
      ensures showSuccess && savedSpotName == old(parkingSpots[i].name)
      ensures editingSpot == old(editingSpot) && tempAvailable == old(tempAvailable)
    {
      var spot := parkingSpots[i];
      forall k | 0 <= k < |parkingSpots| && parkingSpots[k].id == spot.id
        ensures 0 <= spot.totalSpots <= parkingSpots[k].totalSpots
      {
        SameIdSameRow(parkingSpots, i, k);
      }
      SetAvailableValid(parkingSpots, spot.id, _ => spot.totalSpots, now);
      parkingSpots := SetAvailable(parkingSpots, spot.id, _ => spot.totalSpots, now);
      savedSpotName := spot.name;
      showSuccess := true;
    }

    /** The dialog's number field: `parseInt(value) || 0`, then clamped to the edited location's spaces. */
    method ManualInput(raw: string)
      requires Valid() && editingSpot.Some?
      modifies this
      ensures Valid()
      ensures parkingSpots == old(parkingSpots) && editingSpot == old(editingSpot)
      ensures tempAvailable == Clamp(ParseInt(raw).GetOr(0), editingSpot.value.totalSpots)
      ensures ParseInt(raw).None? ==> tempAvailable == 0
      ensures showSuccess == old(showSuccess) && savedSpotName == old(savedSpotName)
    {
      var parsed := ParseInt(raw);
      var value := if parsed.None? || parsed.value == 0 then 0 else parsed.value;
      tempAvailable := Clamp(value, editingSpot.value.totalSpots);
    }

    /** The slider, whose range is `0..totalSpots` of the edited location. */
    method SliderChange(value: int)
      requires Valid() && editingSpot.Some? && 0 <= value <= editingSpot.value.totalSpots
      modifies this
      ensures Valid()
      ensures parkingSpots == old(parkingSpots) && editingSpot == old(editingSpot)
      ensures tempAvailable == value
      ensures showSuccess == old(showSuccess) && savedSpotName == old(savedSpotName)
    {
      tempAvailable := value;
    }

    /** The preset buttons, in the order shown: Full, 25%, 50%, Empty. */
    method ChoosePreset(p: Preset)
      requires Valid() && editingSpot.Some?
      modifies this
      ensures Valid()
      ensures parkingSpots == old(parkingSpots) && editingSpot == old(editingSpot)
      ensures tempAvailable == PresetValue(p, editingSpot.value.totalSpots)
      ensures showSuccess == old(showSuccess) && savedSpotName == old(savedSpotName)
    {
      tempAvailable := PresetValue(p, editingSpot.value.totalSpots);
    }

    /** Closing the dialog without saving. */
    method CloseDialog()
      requires Valid()
      modifies this
      ensures Valid()
      ensures editingSpot == None && parkingSpots == old(parkingSpots) && tempAvailable == old(tempAvailable)
      ensures showSuccess == old(showSuccess) && savedSpotName == old(savedSpotName)
    {
      editingSpot := None;
    }

    /** The toast's timer running out. */
    method HideToast()
      requires Valid()
      modifies this
      ensures Valid()
      ensures !showSuccess && parkingSpots == old(parkingSpots) && editingSpot == old(editingSpot)
      ensures tempAvailable == old(tempAvailable) && savedSpotName == old(savedSpotName)
    {
      showSuccess := false;
    }
  }
}
