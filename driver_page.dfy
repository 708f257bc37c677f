/**
 * The driver's home page (`ParkEasePage`): where the device is, the
 * locations generated around it, the search box that narrows them and the
 * location whose sheet is open.
 */
module DriverPage {
  import opened Wrappers
  import opened JsBuiltins
  import opened DriverTypes

  // ------------------------------------------------------------- search

  /**
   * The search predicate: the lower-cased name or the lower-cased address
   * contains the lower-cased query. The query is not trimmed here.
   */
  predicate Matches(spot: DriverSpot, query: string) {
    Includes(Lower(spot.name), Lower(query)) || Includes(Lower(spot.address), Lower(query))
  }

  /**
   * The filter effect: a query that trims to nothing shows every location,
   * any other query keeps the matching ones.
   */
  function FilterSpots(spots: seq<DriverSpot>, query: string): seq<DriverSpot> {
    if Trim(query) == [] then spots else Filter(spots, (s: DriverSpot) => Matches(s, query))
  }

  /** A query of white space only, the empty one included, shows the full list, in its order. */
  lemma BlankQueryShowsAll(spots: seq<DriverSpot>, query: string)
    requires AllSpace(query)
    ensures FilterSpots(spots, query) == spots
  {
    TrimBlank(query);
  }

  /** What the search shows is always the full list with some locations dropped, the rest in their order. */
  lemma SearchKeepsOrder(spots: seq<DriverSpot>, query: string)
    ensures IsSubsequence(FilterSpots(spots, query), spots)
  {
    if Trim(query) == [] {
      FilterAll(spots, (s: DriverSpot) => true);
      FilterIsSubsequence(spots, (s: DriverSpot) => true);
    } else {
      FilterIsSubsequence(spots, (s: DriverSpot) => Matches(s, query));
    }
  }

  /**
   * For a query that does not trim to nothing, a location is shown exactly
   * when it matches, and as often as it is listed.
   */
  lemma SearchKeepsMatches(spots: seq<DriverSpot>, query: string)
    requires Trim(query) != []
    ensures forall x ::
      multiset(FilterSpots(spots, query))[x] == if Matches(x, query) then multiset(spots)[x] else 0
    ensures forall x ::
      x in FilterSpots(spots, query) <==> x in spots && Matches(x, query)
  {
    var r := Filter(spots, (s: DriverSpot) => Matches(s, query));
    assert FilterSpots(spots, query) == r;
    forall x ensures x in r <==> x in spots && Matches(x, query) {
      assert x in r <==> multiset(r)[x] > 0;
      assert x in spots <==> multiset(spots)[x] > 0;
    }
  }

  /** The search ignores case: only the lower-cased query matters. */
  lemma SearchIgnoresCase(spot: DriverSpot, query: string)
    ensures Matches(spot, Lower(query)) <==> Matches(spot, query)
    ensures Matches(spot, Upper(query)) <==> Matches(spot, Lower(Upper(query)))
  {
    LowerIdempotent(query);
    LowerIdempotent(Upper(query));
  }

  /** A query longer than both name and address matches nothing. */
  lemma LongQueryMatchesNothing(spot: DriverSpot, query: string)
    requires |query| > |spot.name| && |query| > |spot.address|
    ensures !Matches(spot, query)
  {
    IncludesAt(Lower(spot.name), Lower(query));
    IncludesAt(Lower(spot.address), Lower(query));
  }

  /**
   * The trailing space of "mall " is kept when matching: the query is not
   * blank, yet a location named "Mall" with no address is not shown,
   * although the trimmed query would match it.
   */
  lemma UntrimmedQueryMisses(spot: DriverSpot)
    requires spot.name == "Mall" && spot.address == ""
    ensures Trim("mall ") == "mall"
    ensures Matches(spot, "mall")
    ensures FilterSpots([spot], "mall ") == []
  {
    assert TrimStart("mall ") == "mall ";
    assert TrimEnd("mall ") == "mall";
    assert Lower("Mall") == "mall";
    assert StartsWith(Lower(spot.name), "mall");
    LongQueryMatchesNothing(spot, "mall ");
  }

  // ----------------------------------------------------------- location

  /** What the geolocation request reports. */
  datatype Fix = Unsupported | Failed | Position(lat: real, lng: real)

  /** Bangalore, used when the device gives no position. */
  const DefaultLocation := UserLocation(12.9716, 77.5946)

  /** The location the page settles on once the request answers. */
  function Located(fix: Fix): (loc: UserLocation)
    ensures fix.Position? ==> loc == UserLocation(fix.lat, fix.lng)
    ensures !fix.Position? ==> loc == DefaultLocation
  {
    match fix
    case Position(lat, lng) => UserLocation(lat, lng)
    case _ => DefaultLocation
  }

  /** The page's state. */
  class ParkEasePage {
    var selectedSpot: Option<DriverSpot>
    var userLocation: Option<UserLocation>
    var isLoading: bool
    var searchQuery: string
    var parkingSpots: seq<DriverSpot>
    var allSpots: seq<DriverSpot>

    /** Once the effects have run, the list on the map is the search over all locations. */
    ghost predicate Valid()
      reads this
    {
      parkingSpots == FilterSpots(allSpots, searchQuery)
    }

    /** "Live location active" is shown once a location is known and loading is over. */
    predicate LiveBadge()
      reads this
    {
      userLocation.Some? && !isLoading
    }

    /** The first render: loading, nothing located, nothing listed, nothing selected. */
    constructor ()
      ensures Valid()
      ensures selectedSpot.None? && userLocation.None? && isLoading
      ensures searchQuery == [] && parkingSpots == [] && allSpots == []
    {
      selectedSpot, userLocation, isLoading := None, None, true;
      searchQuery, parkingSpots, allSpots := [], [], [];
    }

    /**
     * A new location, followed by the effects it triggers: the locations
     * generated around it replace the list, and the search is applied to
     * them again.
     */
    method MoveTo(loc: UserLocation, generate: UserLocation -> seq<DriverSpot>)
      modifies this
      ensures userLocation == Some(loc)
      ensures allSpots == generate(loc)
      ensures parkingSpots == FilterSpots(allSpots, searchQuery)
      ensures Valid()
      ensures isLoading == old(isLoading) && selectedSpot == old(selectedSpot)
      ensures searchQuery == old(searchQuery)
    {
      userLocation := Some(loc);
      allSpots := generate(loc);
      parkingSpots := FilterSpots(allSpots, searchQuery);
    }

    /**
     * The delayed first location request: the reported position, or the
     * default when the device refuses or cannot locate; loading ends.
     */
    method LocateUser(fix: Fix, generate: UserLocation -> seq<DriverSpot>)
      modifies this
      ensures userLocation == Some(Located(fix)) && !isLoading
      ensures allSpots == generate(Located(fix))
      ensures Valid() && LiveBadge()
      ensures selectedSpot == old(selectedSpot) && searchQuery == old(searchQuery)
    {
      MoveTo(Located(fix), generate);
      isLoading := false;
    }

    /** A position from `watchPosition`; watch errors are ignored. */
    method WatchPosition(lat: real, lng: real, generate: UserLocation -> seq<DriverSpot>)
      modifies this
      ensures userLocation == Some(UserLocation(lat, lng))
      ensures allSpots == generate(UserLocation(lat, lng))
      ensures Valid()
      ensures isLoading == old(isLoading) && selectedSpot == old(selectedSpot)
      ensures searchQuery == old(searchQuery)
    {
      MoveTo(UserLocation(lat, lng), generate);
    }

    /** Typing in the search box; the filter effect follows. */
    method SetSearchQuery(query: string)
      modifies this
      ensures searchQuery == query && parkingSpots == FilterSpots(allSpots, query)
      ensures Valid()
      ensures allSpots == old(allSpots) && selectedSpot == old(selectedSpot)
      ensures userLocation == old(userLocation) && isLoading == old(isLoading)
    {
      var shown := FilterSpots(allSpots, query);
      searchQuery, parkingSpots := query, shown;
    }

    /** `handleSpotSelect`: a marker click selects its location, a map click selects nothing. */
    method SelectSpot(spot: Option<DriverSpot>)
      modifies this
      ensures selectedSpot == spot
      ensures searchQuery == old(searchQuery) && parkingSpots == old(parkingSpots)
      ensures allSpots == old(allSpots)
      ensures userLocation == old(userLocation) && isLoading == old(isLoading)
    {
      selectedSpot := spot;
    }

    /** `handleCloseSheet`: nothing is selected any more. */
    method CloseSheet()
      modifies this
      ensures selectedSpot.None?
      ensures searchQuery == old(searchQuery) && parkingSpots == old(parkingSpots)
      ensures allSpots == old(allSpots)
      ensures userLocation == old(userLocation) && isLoading == old(isLoading)
    {
      selectedSpot := None;
    }
  }
}
