/**
 * The driver's map (`ParkingMap`): the markers kept in a dictionary keyed by
 * location id, reconciled against the current list whenever the list or the
 * selection changes, the device marker and the recenter button. Leaflet is
 * reduced to what the component keeps: a marker's identity, position, icon
 * and the location its click selects.
 */
module ParkingMap {
  import opened Wrappers
  import opened DriverTypes

  /** The marker colour for a location's availability. */
  function StatusColor(a: Availability): (c: string)
    ensures c == "#10b981" <==> a == High
    ensures c == "#f59e0b" <==> a == Medium
    ensures c == "#ef4444" <==> a == Low
  {
    assert "#10b981"[1] != "#f59e0b"[1] && "#10b981"[1] != "#ef4444"[1] && "#f59e0b"[1] != "#ef4444"[1];
    match a
    case High => "#10b981"
    case Medium => "#f59e0b"
    case Low => "#ef4444"
  }

  /** What a location marker's HTML depends on. */
  datatype Icon = Icon(color: string, selected: bool, name: string, spotsAvailable: int)

  /**
   * A location marker. `serial` stands for the Leaflet object's identity;
   * `onClick` is the location captured by its click handler when it was made.
   */
  datatype Marker = Marker(serial: nat, lat: real, lng: real, icon: Icon, onClick: DriverSpot)

  /** The icon drawn for `spot` when `selected` is the selected location. */
  function IconFor(spot: DriverSpot, selected: Option<DriverSpot>): (i: Icon)
    ensures i.selected <==> selected.Some? && selected.value.id == spot.id
    ensures i.color == StatusColor(spot.availability)
    ensures i.name == spot.name && i.spotsAvailable == spot.spotsAvailable
  {
    Icon(StatusColor(spot.availability), selected.Some? && selected.value.id == spot.id,
         spot.name, spot.spotsAvailable)
  }

  /** The ids of the listed locations. */
  function Ids(spots: seq<DriverSpot>): set<string> {
    set i | 0 <= i < |spots| :: spots[i].id
  }

  /** Marker identities are below the next one to hand out, and no two markers share one. */
  ghost predicate Fresh(markers: map<string, Marker>, nextSerial: nat) {
    && (forall k :: k in markers ==> markers[k].serial < nextSerial)
    && (forall a, b :: a in markers && b in markers && a != b ==> markers[a].serial != markers[b].serial)
  }

  // ------------------------------------------------------ reconciliation

  /** The first loop: the markers whose id is still listed. */
  function Pruned(markers: map<string, Marker>, spots: seq<DriverSpot>): (r: map<string, Marker>)
    ensures r.Keys == markers.Keys * Ids(spots)
    ensures forall k :: k in r ==> r[k] == markers[k]
  {
    map k | k in markers && k in Ids(spots) :: markers[k]
  }

  /** One step of the second loop: re-icon an existing marker, or make a new one at the location. */
  function Place(markers: map<string, Marker>, spot: DriverSpot, selected: Option<DriverSpot>, nextSerial: nat)
    : (map<string, Marker>, nat)
  {
    if spot.id in markers then
      (markers[spot.id := markers[spot.id].(icon := IconFor(spot, selected))], nextSerial)
    else
      (markers[spot.id := Marker(nextSerial, spot.lat, spot.lng, IconFor(spot, selected), spot)], nextSerial + 1)
  }

  /** The second loop over the listed locations, in order. */
  function Placed(markers: map<string, Marker>, spots: seq<DriverSpot>, selected: Option<DriverSpot>, nextSerial: nat)
    : (map<string, Marker>, nat)
    decreases |spots|
  {
    if spots == [] then (markers, nextSerial)
    else
      var p := Place(markers, spots[0], selected, nextSerial);
      Placed(p.0, spots[1..], selected, p.1)
  }

  /** The second loop after its `i`-th step is the loop over the rest from the stepped state. */
  lemma PlacedStep(m: map<string, Marker>, spots: seq<DriverSpot>, i: nat, sel: Option<DriverSpot>, n: nat)
    requires i < |spots|
    ensures var p := Place(m, spots[i], sel, n);
      Placed(m, spots[i..], sel, n) == Placed(p.0, spots[i + 1..], sel, p.1)
  {
    assert spots[i..][0] == spots[i] && spots[i..][1..] == spots[i + 1..];
  }

  /** Both loops of the marker effect. */
  function Reconciled(markers: map<string, Marker>, spots: seq<DriverSpot>, selected: Option<DriverSpot>, nextSerial: nat)
    : (map<string, Marker>, nat)
  {
    Placed(Pruned(markers, spots), spots, selected, nextSerial)
  }

  /** The second loop adds exactly the listed ids and hands out identities from `nextSerial` upwards. */
  lemma {:induction false} PlacedKeys(m: map<string, Marker>, spots: seq<DriverSpot>, sel: Option<DriverSpot>, n: nat)
    ensures Placed(m, spots, sel, n).0.Keys == m.Keys + Ids(spots)
    ensures n <= Placed(m, spots, sel, n).1
    ensures forall k :: k in Placed(m, spots, sel, n).0 && k !in m ==>
      n <= Placed(m, spots, sel, n).0[k].serial < Placed(m, spots, sel, n).1
    decreases |spots|
  {
    if spots != [] {
      var p := Place(m, spots[0], sel, n);
      PlacedKeys(p.0, spots[1..], sel, p.1);
      PlacedKeeps(p.0, spots[1..], sel, p.1);
      IdsSplit(spots);
    }
  }

  lemma IdsSplit(spots: seq<DriverSpot>)
    requires spots != []
    ensures Ids(spots) == {spots[0].id} + Ids(spots[1..])
  {
    forall x | x in Ids(spots) ensures x in {spots[0].id} + Ids(spots[1..]) {
      var i :| 0 <= i < |spots| && spots[i].id == x;
      if i > 0 { assert spots[1..][i - 1].id == x; }
    }
  }

  /**
   * The second loop leaves the identity, position and click target of every
   * marker that was already there, and does not touch a marker whose id is
   * not listed at all.
   */
  lemma {:induction false} PlacedKeeps(m: map<string, Marker>, spots: seq<DriverSpot>, sel: Option<DriverSpot>, n: nat)
    ensures var r := Placed(m, spots, sel, n).0;
      && (forall k :: k in m ==> k in r && r[k] == m[k].(icon := r[k].icon))
      && (forall k :: k in m && k !in Ids(spots) ==> r[k] == m[k])
    decreases |spots|
  {
    if spots != [] {
      var p := Place(m, spots[0], sel, n);
      PlacedKeeps(p.0, spots[1..], sel, p.1);
      IdsSplit(spots);
    }
  }

  /** The second loop keeps marker identities fresh and distinct. */
  lemma {:induction false} PlacedFresh(m: map<string, Marker>, spots: seq<DriverSpot>, sel: Option<DriverSpot>, n: nat)
    requires Fresh(m, n)
    ensures var (r, n') := Placed(m, spots, sel, n); Fresh(r, n')
    decreases |spots|
  {
    if spots != [] {
      var p := Place(m, spots[0], sel, n);
      assert Fresh(p.0, p.1);
      PlacedFresh(p.0, spots[1..], sel, p.1);
    }
  }

  /**
   * A new marker stands at the position of the first listed location with
   * its id and selects that location when clicked.
   */
  lemma {:induction false} PlacedNewAtFirst(m: map<string, Marker>, spots: seq<DriverSpot>, sel: Option<DriverSpot>, n: nat, i: nat)
    requires i < |spots| && spots[i].id !in m
    requires forall j :: 0 <= j < i ==> spots[j].id != spots[i].id
    ensures var r := Placed(m, spots, sel, n).0;
      spots[i].id in r && r[spots[i].id].lat == spots[i].lat && r[spots[i].id].lng == spots[i].lng
      && r[spots[i].id].onClick == spots[i]
    decreases |spots|
  {
    var p := Place(m, spots[0], sel, n);
    PlacedKeeps(p.0, spots[1..], sel, p.1);
    PlacedKeys(p.0, spots[1..], sel, p.1);
    if i > 0 {
      PlacedNewAtFirst(p.0, spots[1..], sel, p.1, i - 1);
    }
  }

  /** Every marker carries the icon of the last listed location with its id. */
  lemma {:induction false} PlacedIconOfLast(m: map<string, Marker>, spots: seq<DriverSpot>, sel: Option<DriverSpot>, n: nat, i: nat)
    requires i < |spots|
    requires forall j :: i < j < |spots| ==> spots[j].id != spots[i].id
    ensures var r := Placed(m, spots, sel, n).0;
      spots[i].id in r && r[spots[i].id].icon == IconFor(spots[i], sel)
    decreases |spots|
  {
    var p := Place(m, spots[0], sel, n);
    PlacedKeeps(p.0, spots[1..], sel, p.1);
    PlacedKeys(p.0, spots[1..], sel, p.1);
    if i > 0 {
      PlacedIconOfLast(p.0, spots[1..], sel, p.1, i - 1);
    } else {
      var r := Placed(p.0, spots[1..], sel, p.1).0;
      assert spots[0].id !in Ids(spots[1..]);
      assert r[spots[0].id] == p.0[spots[0].id];
    }
  }

  /**
   * What the marker effect leaves: exactly one marker per listed id, none
   * for an id no longer listed; a marker that stays keeps its identity, its
   * position and its click target, whatever the location now says; a new
   * marker gets an identity never used before; and every marker shows the
   * icon of its location as now listed.
   */
  lemma Reconciliation(markers: map<string, Marker>, spots: seq<DriverSpot>, sel: Option<DriverSpot>, n: nat)
    requires Fresh(markers, n)
    ensures var (r, n') := Reconciled(markers, spots, sel, n);
      && r.Keys == Ids(spots)
      && Fresh(r, n')
      && (forall k :: k in markers && k in r ==> r[k] == markers[k].(icon := r[k].icon))
      && (forall k :: k in r && k !in markers ==> n <= r[k].serial < n')
      && (forall i :: 0 <= i < |spots| && (forall j :: i < j < |spots| ==> spots[j].id != spots[i].id)
            ==> r[spots[i].id].icon == IconFor(spots[i], sel))
  {
    var p := Pruned(markers, spots);
    PlacedKeys(p, spots, sel, n);
    PlacedKeeps(p, spots, sel, n);
    PlacedFresh(p, spots, sel, n);
    forall i | 0 <= i < |spots| && (forall j :: i < j < |spots| ==> spots[j].id != spots[i].id)
      ensures Reconciled(markers, spots, sel, n).0[spots[i].id].icon == IconFor(spots[i], sel)
    {
      PlacedIconOfLast(p, spots, sel, n, i);
    }
  }

  /** A new marker for a listed id stands where the first location with that id is. */
  lemma NewMarkerPosition(markers: map<string, Marker>, spots: seq<DriverSpot>, sel: Option<DriverSpot>, n: nat, i: nat)
    requires i < |spots| && spots[i].id !in markers
    requires forall j :: 0 <= j < i ==> spots[j].id != spots[i].id
    ensures var r := Reconciled(markers, spots, sel, n).0;
      spots[i].id in r && r[spots[i].id].lat == spots[i].lat && r[spots[i].id].lng == spots[i].lng
      && r[spots[i].id].onClick == spots[i]
  {
    PlacedNewAtFirst(Pruned(markers, spots), spots, sel, n, i);
  }

  // ---------------------------------------------------------- component

  /** The first loop of the marker effect: every marker whose id is not among the listed ones is removed. */
  method PruneMarkers(markers: map<string, Marker>, spots: seq<DriverSpot>) returns (m: map<string, Marker>)
    ensures m == Pruned(markers, spots)
  {
    var ids := Ids(spots);
    m := markers;
    var keys := m.Keys;
    while keys != {}
      invariant keys <= markers.Keys
      invariant forall k :: k in m <==> k in markers && (k in keys || k in ids)
      invariant forall k :: k in m ==> m[k] == markers[k]
      decreases |keys|
    {
      var id :| id in keys;
      if id !in ids {
        m := m - {id};
      }
      keys := keys - {id};
    }
    assert m.Keys == Pruned(markers, spots).Keys;
  }

  /** The second loop: each listed location's marker is re-iconed, or made when missing. */
  method PlaceMarkers(markers: map<string, Marker>, spots: seq<DriverSpot>, selected: Option<DriverSpot>, nextSerial: nat)
    returns (m: map<string, Marker>, n: nat)
    ensures (m, n) == Placed(markers, spots, selected, nextSerial)
  {
    m, n := markers, nextSerial;
    var i := 0;
    while i < |spots|
      invariant 0 <= i <= |spots|
      invariant Placed(m, spots[i..], selected, n) == Placed(markers, spots, selected, nextSerial)
    {
      var spot := spots[i];
      ghost var step := Place(m, spot, selected, n);
      PlacedStep(m, spots, i, selected, n);
      var icon := IconFor(spot, selected);
      if spot.id in m {
        m := m[spot.id := m[spot.id].(icon := icon)];
      } else {
        m := m[spot.id := Marker(n, spot.lat, spot.lng, icon, spot)];
        n := n + 1;
      }
      assert (m, n) == step;
      i := i + 1;
    }
    assert spots[i..] == [];
  }

  /** Bangalore, the centre when the map is made before the device is located. */
  const DefaultCenter := UserLocation(12.9716, 77.5946)

  /** The refs and state of the map component. */
  class ParkingMapView {
    var mapLoaded: bool
    var hasMap: bool
    var center: UserLocation
    var zoom: int
    var markers: map<string, Marker>
    var nextSerial: nat
    var userMarker: Option<UserLocation>

    ghost predicate Valid()
      reads this
    {
      Fresh(markers, nextSerial)
    }

    constructor ()
      ensures Valid()
      ensures !mapLoaded && !hasMap && markers == map[] && userMarker.None?
    {
      mapLoaded, hasMap := false, false;
      center, zoom := DefaultCenter, 15;
      markers, nextSerial, userMarker := map[], 0, None;
    }

    /** The Leaflet script has loaded (or was already there). */
    method LeafletLoaded()
      modifies this
      ensures mapLoaded && hasMap == old(hasMap) && markers == old(markers)
      ensures nextSerial == old(nextSerial) && userMarker == old(userMarker)
      ensures center == old(center) && zoom == old(zoom)
    {
      mapLoaded := true;
    }

    /** The init effect: once loaded and with no map yet, a map centred on the device (or the default) at zoom 15. */
    method InitMap(userLocation: Option<UserLocation>)
      modifies this
      ensures mapLoaded && !old(hasMap) ==>
        hasMap && center == userLocation.GetOr(DefaultCenter) && zoom == 15
      ensures !(mapLoaded && !old(hasMap)) ==>
        hasMap == old(hasMap) && center == old(center) && zoom == old(zoom)
      ensures mapLoaded == old(mapLoaded) && markers == old(markers)
      ensures nextSerial == old(nextSerial) && userMarker == old(userMarker)
    {
      if !mapLoaded || hasMap {
        return;
      }
      hasMap := true;
      center := userLocation.GetOr(DefaultCenter);
      zoom := 15;
    }

    /** The init effect's cleanup: the map is removed; the marker dictionary is not cleared. */
    method RemoveMap()
      modifies this
      ensures !hasMap && mapLoaded == old(mapLoaded) && markers == old(markers)
      ensures nextSerial == old(nextSerial) && userMarker == old(userMarker)
      ensures center == old(center) && zoom == old(zoom)
    {
      hasMap := false;
    }

    /** The device marker effect: moved if it exists, created otherwise; nothing without a map or a location. */
    method UpdateUserMarker(userLocation: Option<UserLocation>)
      modifies this
      ensures mapLoaded && hasMap && userLocation.Some? ==> userMarker == userLocation
      ensures !(mapLoaded && hasMap && userLocation.Some?) ==> userMarker == old(userMarker)
      ensures mapLoaded == old(mapLoaded) && hasMap == old(hasMap) && markers == old(markers)
      ensures nextSerial == old(nextSerial) && center == old(center) && zoom == old(zoom)
    {
      if !mapLoaded || !hasMap || userLocation.None? {
        return;
      }
      // An existing marker is moved there (`setLatLng`), otherwise one is created there.
      userMarker := userLocation;
    }

    /**
     * The marker effect: drop the markers whose id is no longer listed,
     * then re-icon or create one marker per listed location. Nothing
     * happens before the map exists.
     */
    method Reconcile(spots: seq<DriverSpot>, selected: Option<DriverSpot>)
      requires Valid()
      modifies this
      ensures Valid()
      ensures mapLoaded && hasMap ==>
        (markers, nextSerial) == Reconciled(old(markers), spots, selected, old(nextSerial))
      ensures !(mapLoaded && hasMap) ==> markers == old(markers) && nextSerial == old(nextSerial)
      ensures mapLoaded == old(mapLoaded) && hasMap == old(hasMap) && userMarker == old(userMarker)
      ensures center == old(center) && zoom == old(zoom)
    {
      if !mapLoaded || !hasMap {
        return;
      }
      var pruned := PruneMarkers(markers, spots);
      PlacedFresh(pruned, spots, selected, nextSerial);
      var m, n := PlaceMarkers(pruned, spots, selected, nextSerial);
      markers, nextSerial := m, n;
    }

    /** The recenter button: back to the device at zoom 15; nothing without a map or a location. */
    method Recenter(userLocation: Option<UserLocation>)
      modifies this
      ensures hasMap && userLocation.Some? ==> center == userLocation.value && zoom == 15
      ensures !(hasMap && userLocation.Some?) ==> center == old(center) && zoom == old(zoom)
      ensures mapLoaded == old(mapLoaded) && hasMap == old(hasMap) && markers == old(markers)
      ensures nextSerial == old(nextSerial) && userMarker == old(userMarker)
    {
      if !hasMap {
        return;
      }
      if userLocation.Some? {
        center, zoom := userLocation.value, 15;
      }
    }

    /** The selection effect: pan to the selected location, keeping the zoom. */
    method PanToSelected(selected: Option<DriverSpot>)
      modifies this
      ensures hasMap && selected.Some? ==> center == UserLocation(selected.value.lat, selected.value.lng)
      ensures !(hasMap && selected.Some?) ==> center == old(center)
      ensures zoom == old(zoom) && mapLoaded == old(mapLoaded) && hasMap == old(hasMap)
      ensures markers == old(markers) && nextSerial == old(nextSerial) && userMarker == old(userMarker)
    {
      if !hasMap || selected.None? {
        return;
      }
      center := UserLocation(selected.value.lat, selected.value.lng);
    }
  }
}
