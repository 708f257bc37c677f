/**
 * The `useParkingSpots(lat, lng)` hook of the dashboard client: the list of
 * spots it keeps, the initial `/parking/nearby` fetch and the merge of each
 * `statusUpdate` broadcast into that list.
 */
module UseParking {
  import ParkingRoutes
  import SpotSchema

  /** A spot as the client receives it: `status` is whatever string arrived. */
  datatype ClientSpot = ClientSpot(
    id: string,
    name: string,
    coordinates: seq<real>,
    address: string,
    status: string,
    capacity: int,
    pricePerHour: int)

  /** The payload of a `statusUpdate` message. */
  datatype StatusMessage = StatusMessage(id: string, status: string)

  /** `prev.map(spot => spot._id === id ? { ...spot, status } : spot)`. */
  function ApplyStatus(spots: seq<ClientSpot>, ev: StatusMessage): (r: seq<ClientSpot>)
    ensures |r| == |spots|
    ensures forall i :: 0 <= i < |spots| ==>
      r[i] == if spots[i].id == ev.id then spots[i].(status := ev.status) else spots[i]
  {
    if spots == [] then []
    else [if spots[0].id == ev.id then spots[0].(status := ev.status) else spots[0]] + ApplyStatus(spots[1..], ev)
  }

  /**
   * The list keeps its length and order: position `i` still holds the spot
   * with the same id, and every field but `status` is unchanged. The
   * matching spots take the event's status as sent, whether or not it is
   * one of the three the schema admits; the other spots are untouched.
   */
  lemma ApplyStatusTargets(spots: seq<ClientSpot>, ev: StatusMessage, i: int)
    requires 0 <= i < |spots|
    ensures var r := ApplyStatus(spots, ev);
      && r[i].id == spots[i].id
      && r[i].(status := spots[i].status) == spots[i]
      && (spots[i].id == ev.id ==> r[i].status == ev.status)
      && (spots[i].id != ev.id ==> r[i] == spots[i])
  {
  }

  /** An event for an id that is not in the list leaves the list identical. */
  lemma {:induction false} ApplyStatusAbsent(spots: seq<ClientSpot>, ev: StatusMessage)
    requires forall i :: 0 <= i < |spots| ==> spots[i].id != ev.id
    ensures ApplyStatus(spots, ev) == spots
  {
    if spots != [] {
      ApplyStatusAbsent(spots[1..], ev);
      assert spots == [spots[0]] + spots[1..];
    }
  }

  /** Receiving the same event twice is receiving it once. */
  lemma ApplyStatusIdempotent(spots: seq<ClientSpot>, ev: StatusMessage)
    ensures ApplyStatus(ApplyStatus(spots, ev), ev) == ApplyStatus(spots, ev)
  {
  }

  /** A later event for an id overrides an earlier one. */
  lemma ApplyStatusLatestWins(spots: seq<ClientSpot>, id: string, first: string, second: string)
    ensures ApplyStatus(ApplyStatus(spots, StatusMessage(id, first)), StatusMessage(id, second))
         == ApplyStatus(spots, StatusMessage(id, second))
  {
  }

  /** Events for different ids can arrive in either order. */
  lemma ApplyStatusCommutes(spots: seq<ClientSpot>, a: StatusMessage, b: StatusMessage)
    requires a.id != b.id
    ensures ApplyStatus(ApplyStatus(spots, a), b) == ApplyStatus(ApplyStatus(spots, b), a)
  {
  }

  /** The hook's initial fetch runs only when `lat && lng`: both non-zero. */
  predicate FetchesOnMount(lat: real, lng: real) {
    lat != 0.0 && lng != 0.0
  }

  /** How the server's document reaches the client; ids travel as text. */
  function FromServer(s: SpotSchema.Spot, idText: SpotSchema.SpotId -> string): ClientSpot {
    ClientSpot(idText(s.id), s.name, s.location.coordinates, s.location.address.GetOr(""),
               s.status, s.capacity, s.pricePerHour)
  }

  /**
   * A client that saw a spot and then receives the broadcast of a
   * successful PATCH on it holds exactly the spot the server now stores.
   */
  lemma PatchReachesClient(db: ParkingRoutes.Db, caller: ParkingRoutes.Caller, id: SpotSchema.SpotId,
                           status: string, idText: SpotSchema.SpotId -> string)
    requires ParkingRoutes.DbValid(db)
    requires ParkingRoutes.PatchSpec(db, caller, id, status).code == 200
    ensures var o := ParkingRoutes.PatchSpec(db, caller, id, status);
      var ev := o.db.events[|o.db.events| - 1];
      ApplyStatus([FromServer(db.spots[id], idText)], StatusMessage(idText(ev.id), ev.status))
        == [FromServer(o.db.spots[id], idText)]
  {
    ParkingRoutes.PatchStoresThenBroadcasts(db, caller, id, status);
  }

  /** The hook's state: the list it renders and whether its socket handler is attached. */
  class SpotFeed {
    var spots: seq<ClientSpot>
    var subscribed: bool

    /** The first render: an empty list, nothing attached yet. */
    constructor ()
      ensures spots == [] && !subscribed
    {
      spots, subscribed := [], false;
    }

    /**
     * The effect for `(lat, lng)`: the socket handler is attached, and the
     * result says whether the initial fetch is sent.
     */
    method Mount(lat: real, lng: real) returns (fetches: bool)
      modifies this
      ensures fetches <==> FetchesOnMount(lat, lng)
      ensures subscribed && spots == old(spots)
    {
      fetches := lat != 0.0 && lng != 0.0;
      subscribed := true;
    }

    /** `setSpots(data)` once the fetch resolves. */
    method FetchResolved(data: seq<ClientSpot>)
      modifies this
      ensures spots == data && subscribed == old(subscribed)
    {
      spots := data;
    }

    /** A `statusUpdate` message; heard only while the handler is attached. */
    method OnStatusUpdate(ev: StatusMessage)
      modifies this
      ensures spots == (if old(subscribed) then ApplyStatus(old(spots), ev) else old(spots))
      ensures subscribed == old(subscribed)
    {
      if subscribed {
        spots := ApplyStatus(spots, ev);
      }
    }

    /** The effect's cleanup: `socket.off('statusUpdate')` and disconnect. */
    method Unmount()
      modifies this
      ensures !subscribed && spots == old(spots)
    {
      subscribed := false;
    }
  }
}
