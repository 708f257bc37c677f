/**
 * The `ParkingSpot` document of the backend: its paths, the `status` enum and
 * its default, the `createdAt` default, the `trim` setter on `name`, and the
 * validation Mongoose runs before a document is saved. The `2dsphere` index
 * adds one more condition on what can be stored: a well-formed GeoJSON point.
 */
module SpotSchema {
  import opened Wrappers
  import opened JsBuiltins

  /** A MongoDB ObjectId, kept opaque. */
  type SpotId = nat
  /** The string form of a user's ObjectId, as `req.user.id` carries it. */
  type UserId = string

  /** The three values the `status` enum admits. */
  datatype Status = Available | Limited | Full {
    function Text(): (t: string)
      ensures IsStatus(t)
    {
      match this
      case Available => "available"
      case Limited => "limited"
      case Full => "full"
    }
  }

  predicate IsStatus(s: string) {
    s == "available" || s == "limited" || s == "full"
  }

  /** Reads a stored status string back as an enum value; `None` for a string outside the enum. */
  function ParseStatus(s: string): (r: Option<Status>)
    ensures r.Some? <==> IsStatus(s)
    ensures r.Some? ==> r.value.Text() == s
  {
    if s == "available" then Some(Available)
    else if s == "limited" then Some(Limited)
    else if s == "full" then Some(Full)
    else None
  }

  /** Every enum value survives the trip to its string and back. */
  lemma StatusRoundTrip(st: Status)
    ensures ParseStatus(st.Text()) == Some(st)
  {
  }

  /** `location`: a GeoJSON geometry of type `Point`; `coordinates` is `[longitude, latitude]`. */
  datatype Location = Location(kind: string, coordinates: seq<real>, address: Option<string>)

  /** A stored document. `status` is kept as the string MongoDB holds. */
  datatype Spot = Spot(
    id: SpotId,
    owner: UserId,
    name: string,
    description: Option<string>,
    location: Location,
    capacity: int,
    pricePerHour: int,
    status: string,
    createdAt: int)

  /** The schema's validators and setters, as every saved document satisfies them. */
  predicate Valid(s: Spot) {
    && s.name != [] && Trimmed(s.name)          // required, stored trimmed
    && s.location.kind == "Point"               // enum: ['Point']
    && s.capacity >= 0                          // required, min 0
    && s.pricePerHour >= 0                      // required, min 0
    && IsStatus(s.status)                       // enum of three
  }

  /** What the `2dsphere` index accepts: a point of exactly two coordinates, longitude then latitude, in range. */
  predicate Indexable(loc: Location) {
    && |loc.coordinates| == 2
    && -180.0 <= loc.coordinates[0] <= 180.0
    && -90.0 <= loc.coordinates[1] <= 90.0
  }

  /** A document the collection can hold. */
  predicate Storable(s: Spot) {
    Valid(s) && Indexable(s.location)
  }

  /**
   * The paths handed to `new ParkingSpot({...})`. `None` is a path left
   * undefined; a `None` coordinate is a `NaN` that the Number cast refuses.
   */
  datatype Draft = Draft(
    owner: UserId,
    name: Option<string>,
    description: Option<string>,
    kind: string,
    coordinates: seq<Option<real>>,
    address: Option<string>,
    capacity: Option<int>,
    pricePerHour: Option<int>,
    status: Option<string>,
    createdAt: Option<int>)

  predicate AllCast(cs: seq<Option<real>>) {
    forall i :: 0 <= i < |cs| ==> cs[i].Some?
  }

  function CastAll(cs: seq<Option<real>>): (r: seq<real>)
    requires AllCast(cs)
    ensures |r| == |cs| && forall i :: 0 <= i < |cs| ==> r[i] == cs[i].value
  {
    if cs == [] then [] else [cs[0].value] + CastAll(cs[1..])
  }

  /**
   * `new ParkingSpot(draft)` followed by `save()`: the `trim` setter and the
   * defaults are applied, then the casts and validators run. `None` is the
   * cast or validation error that makes `save()` reject.
   */
  function Construct(id: SpotId, d: Draft, now: int): (r: Option<Spot>)
    ensures r.Some? <==>
      && d.name.Some? && Trim(d.name.value) != []
      && d.kind == "Point"
      && AllCast(d.coordinates)
      && d.capacity.Some? && d.capacity.value >= 0
      && d.pricePerHour.Some? && d.pricePerHour.value >= 0
      && (d.status.None? || IsStatus(d.status.value))
    ensures r.Some? ==> Valid(r.value)
    ensures r.Some? ==> r.value.id == id && r.value.owner == d.owner
    ensures r.Some? ==> r.value.name == Trim(d.name.value)
    ensures r.Some? ==> r.value.status == d.status.GetOr("available")
    ensures r.Some? ==> r.value.createdAt == d.createdAt.GetOr(now)
    ensures r.Some? ==> r.value.location.coordinates == CastAll(d.coordinates)
    ensures r.Some? ==> r.value.capacity == d.capacity.value && r.value.pricePerHour == d.pricePerHour.value
    ensures r.Some? ==> r.value.description == d.description
    ensures r.Some? ==> r.value.location.kind == d.kind && r.value.location.address == d.address
  {
    if !AllCast(d.coordinates) || d.capacity.None? || d.pricePerHour.None? || d.name.None? then None
    else
      var s := Spot(
        id, d.owner, Trim(d.name.value), d.description,
        Location(d.kind, CastAll(d.coordinates), d.address),
        d.capacity.value, d.pricePerHour.value,
        d.status.GetOr("available"), d.createdAt.GetOr(now));
      if Valid(s) then Some(s) else None
  }
}
