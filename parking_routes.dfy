/**
 * The parking REST handlers of the backend: POST `/`, GET `/mine`, PUT `/:id`,
 * PATCH `/:id/availability` and GET `/nearby`. The collection is a map from
 * spot id to document; ids are handed out in increasing order, so the
 * collection's natural (insertion) order is ascending id. Every
 * `io.emit('statusUpdate', ...)` is an append to an event log. Each handler is
 * specified by a function over the whole backend state (`Db`), and the
 * `SpotStore` methods are proved to do what those functions say.
 */
module ParkingRoutes {
  import opened Wrappers
  import opened JsBuiltins
  import opened SpotSchema

  /** `req.user` as the authentication middleware leaves it. */
  datatype Caller = Caller(id: UserId, role: string)

  /** The payload of one `statusUpdate` broadcast. */
  datatype StatusEvent = StatusEvent(id: SpotId, status: string)

  /** The whole backend state: the collection and the broadcasts so far, oldest first. */
  datatype Db = Db(spots: map<SpotId, Spot>, events: seq<StatusEvent>, nextId: SpotId)

  /** A handler's effect: the new state, the HTTP status and, on 200, the document sent back. */
  datatype Outcome = Outcome(db: Db, code: int, body: Option<Spot>)

  /** Every document is stored under its own id, below the next id to hand out, and can be stored at all. */
  ghost predicate DbValid(db: Db) {
    && (forall id :: id in db.spots ==> db.spots[id].id == id && Storable(db.spots[id]) && id < db.nextId)
  }

  // ---------------------------------------------------------- JS truthiness

  /** A string body value that passes `if (value)`: present and not empty. */
  predicate TruthyText(v: Option<string>) {
    v.Some? && v.value != ""
  }

  /** A number body value that passes `if (value)`: present and not zero. */
  predicate TruthyNumber(v: Option<int>) {
    v.Some? && v.value != 0
  }

  // ------------------------------------------------------------ permissions

  /** The role check of POST `/`. */
  predicate MayCreate(c: Caller) {
    c.role == "owner" || c.role == "admin"
  }

  /** The ownership check of PUT and PATCH. */
  predicate MayWrite(c: Caller, s: Spot) {
    s.owner == c.id || c.role == "admin"
  }

  // ------------------------------------------------------------ POST /

  /** The body of POST `/`; latitude and longitude as the text `parseFloat` reads. */
  datatype CreateBody = CreateBody(
    name: Option<string>,
    description: Option<string>,
    latitude: Option<string>,
    longitude: Option<string>,
    address: Option<string>,
    capacity: Option<int>,
    pricePerHour: Option<int>)

  /** `parseFloat(v)`; `parseFloat(undefined)` is `NaN`. */
  function Coordinate(v: Option<string>): Option<real> {
    if v.None? then None else ParseFloat(v.value)
  }

  /**
   * The document POST `/` asks Mongoose to build: owned by the caller, a
   * `Point` at `[lng, lat]`, the two numbers `parseFloat` made of the body.
   */
  function CreateDraft(caller: Caller, b: CreateBody, lng: Option<real>, lat: Option<real>): Draft {
    Draft(caller.id, b.name, b.description, "Point", [lng, lat], b.address,
          b.capacity, b.pricePerHour, None, None)
  }

  /** POST `/` once the coordinates are parsed. */
  function CreateWith(db: Db, caller: Caller, b: CreateBody, lng: Option<real>, lat: Option<real>, now: int): Outcome {
    if !MayCreate(caller) then Outcome(db, 403, None)
    else match Construct(db.nextId, CreateDraft(caller, b, lng, lat), now)
      case None => Outcome(db, 500, None)
      case Some(s) =>
        if !Indexable(s.location) then Outcome(db, 500, None)
        else Outcome(db.(spots := db.spots[s.id := s], nextId := db.nextId + 1), 200, Some(s))
  }

  function CreateSpec(db: Db, caller: Caller, b: CreateBody, now: int): Outcome {
    CreateWith(db, caller, b, Coordinate(b.longitude), Coordinate(b.latitude), now)
  }

  /** A caller who is neither owner nor admin gets 403 and the store is untouched. */
  lemma CreateRequiresOwner(db: Db, caller: Caller, b: CreateBody, now: int)
    requires !MayCreate(caller)
    ensures CreateSpec(db, caller, b, now) == Outcome(db, 403, None)
  {
  }

  /**
   * A created spot is new, belongs to the caller, carries the body's name
   * (trimmed), description, address, capacity and price, sits at
   * `[longitude, latitude]` as parsed from the body, starts `available`, is dated `now`,
   * takes the next id (so it comes last in natural order), and nothing is
   * broadcast.
   */
  lemma CreateStoresCaller(db: Db, caller: Caller, b: CreateBody, lng: Option<real>, lat: Option<real>, now: int)
    requires DbValid(db)
    requires CreateWith(db, caller, b, lng, lat, now).code == 200
    ensures var o := CreateWith(db, caller, b, lng, lat, now);
      && o.body.Some? && lng.Some? && lat.Some?
      && var s := o.body.value;
      && s.id !in db.spots
      && s.owner == caller.id
      && s.location.coordinates == [lng.value, lat.value]
      && s.status == Available.Text()
      && s.createdAt == now
      && b.name.Some? && s.name == Trim(b.name.value)
      && b.capacity.Some? && s.capacity == b.capacity.value
      && b.pricePerHour.Some? && s.pricePerHour == b.pricePerHour.value
      && s.description == b.description
      && s.location.kind == "Point" && s.location.address == b.address
      && o.db.spots == db.spots[s.id := s]
      && s.id == db.nextId && o.db.nextId == db.nextId + 1
      && o.db.events == db.events
  {
    var d := CreateDraft(caller, b, lng, lat);
    var r := Construct(db.nextId, d, now);
    assert r.Some? && CreateWith(db, caller, b, lng, lat, now).body == r;
    assert d.coordinates[0] == lng && d.coordinates[1] == lat;
    var cs := CastAll(d.coordinates);
    assert cs == [lng.value, lat.value];
  }

  /** The three ways POST `/` can end, in the order the handler tries them. */
  lemma CreateSteps(db: Db, caller: Caller, b: CreateBody, lng: Option<real>, lat: Option<real>, now: int)
    ensures !MayCreate(caller) ==> CreateWith(db, caller, b, lng, lat, now) == Outcome(db, 403, None)
    ensures var doc := Construct(db.nextId, CreateDraft(caller, b, lng, lat), now);
      MayCreate(caller) && (doc.None? || !Indexable(doc.value.location)) ==>
        CreateWith(db, caller, b, lng, lat, now) == Outcome(db, 500, None)
    ensures var doc := Construct(db.nextId, CreateDraft(caller, b, lng, lat), now);
      MayCreate(caller) && doc.Some? && Indexable(doc.value.location) ==>
        CreateWith(db, caller, b, lng, lat, now) ==
          Outcome(db.(spots := db.spots[db.nextId := doc.value], nextId := db.nextId + 1), 200, doc)
  {
  }

  /** POST `/` keeps the store consistent. */
  lemma CreateKeepsStore(db: Db, caller: Caller, b: CreateBody, lng: Option<real>, lat: Option<real>, now: int)
    requires DbValid(db)
    ensures DbValid(CreateWith(db, caller, b, lng, lat, now).db)
  {
    var o := CreateWith(db, caller, b, lng, lat, now);
    if o.code == 200 {
      var s := o.body.value;
      assert s.id == db.nextId;
    }
  }

  // ------------------------------------------------------- PUT /:id

  /** The body of PUT `/:id`. */
  datatype UpdateBody = UpdateBody(
    name: Option<string>,
    description: Option<string>,
    capacity: Option<int>,
    pricePerHour: Option<int>,
    status: Option<string>)

  /**
   * `findByIdAndUpdate(id, { $set: spotFields })` as written: each field is
   * set only when the body value is truthy, the `trim` setter still runs on
   * `name`, and no validator runs (Mongoose's `runValidators` is off).
   */
  function PutAsWritten(s: Spot, b: UpdateBody): (t: Spot)
    ensures t.id == s.id && t.owner == s.owner && t.location == s.location && t.createdAt == s.createdAt
  {
    s.(name := if TruthyText(b.name) then Trim(b.name.value) else s.name,
       description := if TruthyText(b.description) then b.description else s.description,
       capacity := if TruthyNumber(b.capacity) then b.capacity.value else s.capacity,
       pricePerHour := if TruthyNumber(b.pricePerHour) then b.pricePerHour.value else s.pricePerHour,
       status := if TruthyText(b.status) then b.status.value else s.status)
  }

  /**
   * As written, PUT stores what the schema forbids: a status outside the
   * enum, a negative capacity or price, a name that trims to nothing.
   */
  lemma PutAsWrittenBreaksSchema(s: Spot, b: UpdateBody)
    requires Storable(s)
    requires (TruthyText(b.status) && !IsStatus(b.status.value))
          || (TruthyNumber(b.capacity) && b.capacity.value < 0)
          || (TruthyNumber(b.pricePerHour) && b.pricePerHour.value < 0)
          || (TruthyText(b.name) && AllSpace(b.name.value))
    ensures !Valid(PutAsWritten(s, b))
  {
    if TruthyText(b.name) && AllSpace(b.name.value) {
      TrimBlank(b.name.value);
    }
  }

  /** The same update with the schema's validators run on it: `None` is the validation error. */
  function PutValidated(s: Spot, b: UpdateBody): (r: Option<Spot>)
    requires Storable(s)
    ensures r.Some? ==> Storable(r.value) && r.value == PutAsWritten(s, b)
    ensures r.None? <==> !Valid(PutAsWritten(s, b))
  {
    var t := PutAsWritten(s, b);
    if Valid(t) then Some(t) else None
  }

  /**
   * PUT changes exactly the fields whose body values are truthy (a zero
   * capacity or price, an empty name, description or status is ignored) and
   * nothing else; a name is stored trimmed.
   */
  lemma PutChangesTruthyFieldsOnly(s: Spot, b: UpdateBody)
    requires Storable(s) && PutValidated(s, b).Some?
    ensures var t := PutValidated(s, b).value;
      && t.id == s.id && t.owner == s.owner && t.location == s.location && t.createdAt == s.createdAt
      && t.name == (if TruthyText(b.name) then Trim(b.name.value) else s.name)
      && t.description == (if TruthyText(b.description) then b.description else s.description)
      && t.capacity == (if TruthyNumber(b.capacity) then b.capacity.value else s.capacity)
      && t.pricePerHour == (if TruthyNumber(b.pricePerHour) then b.pricePerHour.value else s.pricePerHour)
      && t.status == (if TruthyText(b.status) then b.status.value else s.status)
  {
  }

  function PutSpec(db: Db, caller: Caller, id: SpotId, b: UpdateBody): Outcome
    requires DbValid(db)
  {
    if id !in db.spots then Outcome(db, 404, None)
    else if !MayWrite(caller, db.spots[id]) then Outcome(db, 401, None)
    else match PutValidated(db.spots[id], b)
      case None => Outcome(db, 500, None)
      case Some(t) =>
        var events := if TruthyText(b.status) then db.events + [StatusEvent(id, t.status)] else db.events;
        Outcome(db.(spots := db.spots[id := t], events := events), 200, Some(t))
  }

  /**
   * PUT `/:id` as the handler is written: after the lookup and the ownership
   * check the unvalidated update is stored and answered with 200, and a
   * truthy status in the body is broadcast as stored. `PutSpec` is the
   * same handler with the update validated.
   */
  function PutAsWrittenSpec(db: Db, caller: Caller, id: SpotId, b: UpdateBody): Outcome {
    if id !in db.spots then Outcome(db, 404, None)
    else if !MayWrite(caller, db.spots[id]) then Outcome(db, 401, None)
    else
      var t := PutAsWritten(db.spots[id], b);
      var events := if TruthyText(b.status) then db.events + [StatusEvent(id, t.status)] else db.events;
      Outcome(db.(spots := db.spots[id := t], events := events), 200, Some(t))
  }

  /**
   * As written, the owner's PUT with a status outside the enum, a negative
   * capacity or price, or a blank name is answered with 200, the document
   * is stored, a given status is broadcast, and the store no longer
   * satisfies the schema.
   */
  lemma PutAsWrittenStoresInvalid(db: Db, caller: Caller, id: SpotId, b: UpdateBody)
    requires DbValid(db) && id in db.spots && MayWrite(caller, db.spots[id])
    requires (TruthyText(b.status) && !IsStatus(b.status.value))
          || (TruthyNumber(b.capacity) && b.capacity.value < 0)
          || (TruthyNumber(b.pricePerHour) && b.pricePerHour.value < 0)
          || (TruthyText(b.name) && AllSpace(b.name.value))
    ensures var o := PutAsWrittenSpec(db, caller, id, b);
      && o.code == 200
      && o.body == Some(PutAsWritten(db.spots[id], b))
      && o.db.spots == db.spots[id := o.body.value]
      && (TruthyText(b.status) ==> o.db.events == db.events + [StatusEvent(id, b.status.value)])
      && !DbValid(o.db)
  {
    PutAsWrittenBreaksSchema(db.spots[id], b);
    var o := PutAsWrittenSpec(db, caller, id, b);
    assert !Storable(o.db.spots[id]);
  }

  /** The owner's `{ "status": "closed" }`: 200, "closed" stored and broadcast, and the store broken. */
  lemma PutClosedIsAccepted(db: Db, caller: Caller, id: SpotId)
    requires DbValid(db) && id in db.spots && MayWrite(caller, db.spots[id])
    ensures var o := PutAsWrittenSpec(db, caller, id, UpdateBody(None, None, None, None, Some("closed")));
      && o.code == 200
      && o.db.spots[id].status == "closed"
      && o.db.events == db.events + [StatusEvent(id, "closed")]
      && !DbValid(o.db)
  {
    PutAsWrittenStoresInvalid(db, caller, id, UpdateBody(None, None, None, None, Some("closed")));
  }

  /**
   * The validated PUT differs from the handler as written only where the
   * update breaks the schema: there it answers 500 and changes nothing, so
   * the store keeps satisfying the schema.
   */
  lemma PutCorrectedAgrees(db: Db, caller: Caller, id: SpotId, b: UpdateBody)
    requires DbValid(db)
    ensures id in db.spots && MayWrite(caller, db.spots[id]) && !Valid(PutAsWritten(db.spots[id], b)) ==>
      PutSpec(db, caller, id, b) == Outcome(db, 500, None)
    ensures !(id in db.spots && MayWrite(caller, db.spots[id]) && !Valid(PutAsWritten(db.spots[id], b))) ==>
      PutSpec(db, caller, id, b) == PutAsWrittenSpec(db, caller, id, b)
    ensures DbValid(PutSpec(db, caller, id, b).db)
  {
    WritesKeepStore(db, caller, id, b, "");
  }

  // ---------------------------------------------- PATCH /:id/availability

  function PatchSpec(db: Db, caller: Caller, id: SpotId, status: string): Outcome
    requires DbValid(db)
  {
    if id !in db.spots then Outcome(db, 404, None)
    else if !MayWrite(caller, db.spots[id]) then Outcome(db, 401, None)
    else
      var t := db.spots[id].(status := status);
      if !Valid(t) then Outcome(db, 500, None)
      else Outcome(db.(spots := db.spots[id := t], events := db.events + [StatusEvent(id, status)]), 200, Some(t))
  }

  /** An unknown id is 404 for PUT and PATCH whoever asks: the lookup comes before the ownership check. */
  lemma WriteUnknownIsNotFound(db: Db, caller: Caller, id: SpotId, b: UpdateBody, status: string)
    requires DbValid(db) && id !in db.spots
    ensures PutSpec(db, caller, id, b) == Outcome(db, 404, None)
    ensures PatchSpec(db, caller, id, status) == Outcome(db, 404, None)
  {
  }

  /** A caller who neither owns the spot nor is admin gets 401, and nothing is stored or broadcast. */
  lemma WriteByStrangerIsUnauthorized(db: Db, caller: Caller, id: SpotId, b: UpdateBody, status: string)
    requires DbValid(db) && id in db.spots && !MayWrite(caller, db.spots[id])
    ensures PutSpec(db, caller, id, b) == Outcome(db, 401, None)
    ensures PatchSpec(db, caller, id, status) == Outcome(db, 401, None)
  {
  }

  /**
   * PUT broadcasts exactly one `{id, status}` with the stored status when
   * the body carries a status and the update succeeds; otherwise the log is
   * unchanged. Every other document is left as it was.
   */
  lemma PutBroadcastsStatusOnly(db: Db, caller: Caller, id: SpotId, b: UpdateBody)
    requires DbValid(db)
    ensures var o := PutSpec(db, caller, id, b);
      && (o.code == 200 <==> id in db.spots && MayWrite(caller, db.spots[id]) && Valid(PutAsWritten(db.spots[id], b)))
      && (o.code == 200 && TruthyText(b.status) ==>
            o.db.events == db.events + [StatusEvent(id, b.status.value)] && o.db.spots[id].status == b.status.value)
      && (o.code != 200 || !TruthyText(b.status) ==> o.db.events == db.events)
      && (forall k :: k in db.spots && k != id ==> k in o.db.spots && o.db.spots[k] == db.spots[k])
      && o.db.spots.Keys == db.spots.Keys && o.db.nextId == db.nextId
  {
  }

  /**
   * A successful PATCH stores the new status and appends exactly one event
   * with that id and status; a status outside the enum fails validation (500)
   * and nothing is stored or broadcast.
   */
  lemma PatchStoresThenBroadcasts(db: Db, caller: Caller, id: SpotId, status: string)
    requires DbValid(db)
    ensures var o := PatchSpec(db, caller, id, status);
      && (o.code == 200 <==> id in db.spots && MayWrite(caller, db.spots[id]) && IsStatus(status))
      && (o.code == 200 ==>
            && o.db.spots == db.spots[id := db.spots[id].(status := status)]
            && o.db.events == db.events + [StatusEvent(id, status)]
            && o.body == Some(o.db.spots[id]))
      && (o.code != 200 ==> o.db == db)
  {
    if id in db.spots && MayWrite(caller, db.spots[id]) && IsStatus(status) {
      assert Valid(db.spots[id]);
    }
  }

  /** PUT and PATCH keep the store consistent (the validated PUT; see `PutAsWrittenBreaksSchema` for the other). */
  lemma WritesKeepStore(db: Db, caller: Caller, id: SpotId, b: UpdateBody, status: string)
    requires DbValid(db)
    ensures DbValid(PutSpec(db, caller, id, b).db)
    ensures DbValid(PatchSpec(db, caller, id, status).db)
  {
    var o := PatchSpec(db, caller, id, status);
    if o.code == 200 {
      assert Indexable(db.spots[id].location);
    }
  }

  // --------------------------------------------------------- queries

  /** Ascending by `key`. */
  ghost predicate SortedBy<T>(s: seq<T>, key: T -> real) {
    forall i, j :: 0 <= i < j < |s| ==> key(s[i]) <= key(s[j])
  }

  /** An element no larger than the head of a sorted list can go in front of it. */
  lemma SortedCons<T>(h: T, t: seq<T>, key: T -> real)
    requires SortedBy(t, key)
    requires t == [] || key(h) <= key(t[0])
    ensures SortedBy([h] + t, key)
  {
    var r := [h] + t;
    forall i, j | 0 <= i < j < |r| ensures key(r[i]) <= key(r[j]) {
      if i == 0 {
        assert r[j] == t[j - 1];
        if j > 1 {
          assert key(t[0]) <= key(t[j - 1]);
        }
      } else {
        assert r[i] == t[i - 1] && r[j] == t[j - 1];
      }
    }
  }

  /** Inserts `x` into `s` before the first element whose key is not smaller. */
  function InsertBy<T>(x: T, s: seq<T>, key: T -> real): (r: seq<T>)
    requires SortedBy(s, key)
    ensures multiset(r) == multiset(s) + multiset{x}
    ensures SortedBy(r, key)
    ensures r[0] == x || (s != [] && r[0] == s[0])
  {
    if s == [] then [x]
    else if key(x) <= key(s[0]) then
      SortedCons(x, s, key);
      [x] + s
    else
      var t := InsertBy(x, s[1..], key);
      assert s == [s[0]] + s[1..];
      assert s[1..] != [] ==> key(s[0]) <= key(s[1..][0]);
      SortedCons(s[0], t, key);
      [s[0]] + t
  }

  /** The query engine's `sort`: a permutation of `s`, ascending by `key`. */
  function SortBy<T>(s: seq<T>, key: T -> real): (r: seq<T>)
    ensures multiset(r) == multiset(s)
    ensures SortedBy(r, key)
  {
    if s == [] then []
    else
      assert s == [s[0]] + s[1..];
      InsertBy(s[0], SortBy(s[1..], key), key)
  }

  /** The stored documents with ids in `[lo, hi)`, in natural order. */
  function Records(spots: map<SpotId, Spot>, lo: nat, hi: nat): (r: seq<Spot>)
    decreases hi - lo
  {
    if lo >= hi then []
    else (if lo in spots then [spots[lo]] else []) + Records(spots, lo + 1, hi)
  }

  /** Each stored document with an id in `[lo, hi)` is listed exactly once, and nothing else is. */
  lemma {:induction false} RecordsOnce(spots: map<SpotId, Spot>, lo: nat, hi: nat, x: Spot)
    requires forall id :: id in spots ==> spots[id].id == id
    ensures multiset(Records(spots, lo, hi))[x] ==
      if lo <= x.id < hi && x.id in spots && spots[x.id] == x then 1 else 0
    decreases hi - lo
  {
    if lo < hi {
      RecordsOnce(spots, lo + 1, hi, x);
    }
  }

  /** In natural order each stored document appears exactly once. */
  lemma StoredOnce(db: Db, x: Spot)
    requires DbValid(db)
    ensures multiset(Records(db.spots, 0, db.nextId))[x] == if x in db.spots.Values then 1 else 0
  {
    RecordsOnce(db.spots, 0, db.nextId, x);
  }

  /** GET `/mine`: the caller's documents, newest `createdAt` first. */
  function MineSpec(db: Db, caller: Caller): seq<Spot>
    requires DbValid(db)
  {
    SortBy(Filter(Records(db.spots, 0, db.nextId), (s: Spot) => s.owner == caller.id), (s: Spot) => -(s.createdAt as real))
  }

  /** GET `/mine` lists each of the caller's spots exactly once, no other spot, newest first. */
  lemma MineIsCallersSpots(db: Db, caller: Caller)
    requires DbValid(db)
    ensures var r := MineSpec(db, caller);
      && (forall x :: multiset(r)[x] == if x in db.spots.Values && x.owner == caller.id then 1 else 0)
      && (forall i, j :: 0 <= i < j < |r| ==> r[i].createdAt >= r[j].createdAt)
  {
    var r := MineSpec(db, caller);
    forall x ensures multiset(r)[x] == if x in db.spots.Values && x.owner == caller.id then 1 else 0 {
      StoredOnce(db, x);
    }
    forall i, j | 0 <= i < j < |r| ensures r[i].createdAt >= r[j].createdAt {
      assert -(r[i].createdAt as real) <= -(r[j].createdAt as real);
    }
  }

  /** What GET `/nearby` makes of its query string before asking the store. */
  datatype NearRequest = BadRequest | StoreError | Near(point: seq<real>, maxDistance: int)

  /** The query string of GET `/nearby`, each parameter as text or missing. */
  datatype NearbyQuery = NearbyQuery(lat: Option<string>, lng: Option<string>, radius: Option<string>)

  /**
   * 400 unless `lat` and `lng` are present and non-empty; the radius defaults
   * to 5000 m; the point is `[parseFloat(lng), parseFloat(lat)]`. A `NaN` or
   * negative `$maxDistance`, or a point the store cannot read as GeoJSON,
   * makes the query fail.
   */
  function NearRequestOf(q: NearbyQuery): NearRequest {
    if !TruthyText(q.lat) || !TruthyText(q.lng) then BadRequest
    else
      var maxDistance := if TruthyText(q.radius) then ParseInt(q.radius.value) else Some(5000);
      var lng, lat := ParseFloat(q.lng.value), ParseFloat(q.lat.value);
      if maxDistance.None? || maxDistance.value < 0 || lng.None? || lat.None? then StoreError
      else if !Indexable(Location("Point", [lng.value, lat.value], None)) then StoreError
      else Near([lng.value, lat.value], maxDistance.value)
  }

  /**
   * Missing coordinates are a 400 before anything else; without a radius the
   * search reaches 5000 m; the point handed to `$near` is longitude first.
   */
  lemma NearbyDefaults(q: NearbyQuery)
    ensures !TruthyText(q.lat) || !TruthyText(q.lng) ==> NearRequestOf(q) == BadRequest
    ensures NearRequestOf(q).Near? ==>
      && NearRequestOf(q).point == [ParseFloat(q.lng.value).value, ParseFloat(q.lat.value).value]
      && (!TruthyText(q.radius) ==> NearRequestOf(q).maxDistance == 5000)
      && (TruthyText(q.radius) ==> Some(NearRequestOf(q).maxDistance) == ParseInt(q.radius.value))
  {
  }

  /**
   * GET `/nearby`. `$near` itself is the store's: `distance` stands for its
   * spherical distance in metres between two `[lng, lat]` points.
   */
  function NearbySpec(db: Db, q: NearbyQuery, distance: (seq<real>, seq<real>) -> real): (int, seq<Spot>)
    requires DbValid(db)
  {
    match NearRequestOf(q)
    case BadRequest => (400, [])
    case StoreError => (500, [])
    case Near(p, m) =>
      (200, SortBy(Filter(Records(db.spots, 0, db.nextId), (s: Spot) => distance(s.location.coordinates, p) <= m as real),
                   (s: Spot) => distance(s.location.coordinates, p)))
  }

  /** GET `/nearby` lists each spot within the radius exactly once, nearest first. */
  lemma NearbyIsWithinRadius(db: Db, q: NearbyQuery, distance: (seq<real>, seq<real>) -> real)
    requires DbValid(db) && NearRequestOf(q).Near?
    ensures var (code, r) := NearbySpec(db, q, distance);
      var p, m := NearRequestOf(q).point, NearRequestOf(q).maxDistance;
      && code == 200
      && (forall x :: multiset(r)[x] ==
            if x in db.spots.Values && distance(x.location.coordinates, p) <= m as real then 1 else 0)
      && (forall i, j :: 0 <= i < j < |r| ==>
            distance(r[i].location.coordinates, p) <= distance(r[j].location.coordinates, p))
  {
    var (code, r) := NearbySpec(db, q, distance);
    forall x ensures multiset(r)[x] == if x in db.spots.Values && distance(x.location.coordinates, NearRequestOf(q).point) <= NearRequestOf(q).maxDistance as real then 1 else 0 {
      StoredOnce(db, x);
    }
  }

  // ------------------------------------------------------------ the store

  /** The backend as one object: the collection and the broadcast log, updated in place. */
  class SpotStore {
    var spots: map<SpotId, Spot>
    var events: seq<StatusEvent>
    var nextId: SpotId

    function Snapshot(): Db
      reads this
    {
      Db(spots, events, nextId)
    }

    ghost predicate Valid()
      reads this
    {
      DbValid(Snapshot())
    }

    constructor ()
      ensures Valid() && spots == map[] && events == []
    {
      spots, events, nextId := map[], [], 0;
    }

    /** POST `/`. */
    method Create(caller: Caller, b: CreateBody, now: int) returns (code: int, created: Option<Spot>)
      requires Valid()
      modifies this
      ensures Valid()
      ensures CreateSpec(old(Snapshot()), caller, b, now) == Outcome(Snapshot(), code, created)
    {
      var lng, lat := Coordinate(b.longitude), Coordinate(b.latitude);
      ghost var db0 := Snapshot();
      ghost var o := CreateWith(db0, caller, b, lng, lat, now);
      assert CreateSpec(db0, caller, b, now) == o;
      CreateKeepsStore(db0, caller, b, lng, lat, now);
      CreateSteps(db0, caller, b, lng, lat, now);
      if caller.role != "owner" && caller.role != "admin" {
        return 403, None;
      }
      var draft := CreateDraft(caller, b, lng, lat);
      var doc := Construct(nextId, draft, now);
      if doc.None? || !Indexable(doc.value.location) {
        return 500, None;
      }
      assert o.db.spots == spots[nextId := doc.value];
      spots := spots[nextId := doc.value];
      nextId := nextId + 1;
      return 200, doc;
    }

    /** GET `/mine`. */
    function Mine(caller: Caller): (r: seq<Spot>)
      reads this
      requires Valid()
      ensures forall x :: multiset(r)[x] == if x in spots.Values && x.owner == caller.id then 1 else 0
      ensures forall i, j :: 0 <= i < j < |r| ==> r[i].createdAt >= r[j].createdAt
    {
      MineIsCallersSpots(Snapshot(), caller);
      MineSpec(Snapshot(), caller)
    }

    /** PUT `/:id`. */
    method Put(caller: Caller, id: SpotId, b: UpdateBody) returns (code: int, updated: Option<Spot>)
      requires Valid()
      modifies this
      ensures Valid()
      ensures PutSpec(old(Snapshot()), caller, id, b) == Outcome(Snapshot(), code, updated)
    {
      WritesKeepStore(Snapshot(), caller, id, b, "");
      if id !in spots {
        return 404, None;
      }
      var spot := spots[id];
      if spot.owner != caller.id && caller.role != "admin" {
        return 401, None;
      }
      var result := PutValidated(spot, b);
      if result.None? {
        return 500, None;
      }
      spots := spots[id := result.value];
      if TruthyText(b.status) {
        events := events + [StatusEvent(id, result.value.status)];
      }
      return 200, result;
    }

    /** PATCH `/:id/availability`. */
    method Patch(caller: Caller, id: SpotId, status: string) returns (code: int, updated: Option<Spot>)
      requires Valid()
      modifies this
      ensures Valid()
      ensures PatchSpec(old(Snapshot()), caller, id, status) == Outcome(Snapshot(), code, updated)
    {
      WritesKeepStore(Snapshot(), caller, id, UpdateBody(None, None, None, None, None), status);
      if id !in spots {
        return 404, None;
      }
      var spot := spots[id];
      if spot.owner != caller.id && caller.role != "admin" {
        return 401, None;
      }
      spot := spot.(status := status);
      if !SpotSchema.Valid(spot) {
        return 500, None;
      }
      spots := spots[id := spot];
      events := events + [StatusEvent(id, spot.status)];
      return 200, Some(spot);
    }

    /** GET `/nearby`. */
    function Nearby(q: NearbyQuery, distance: (seq<real>, seq<real>) -> real): (r: (int, seq<Spot>))
      reads this
      requires Valid()
      ensures r.0 == 400 <==> !TruthyText(q.lat) || !TruthyText(q.lng)
      ensures r.0 == 200 <==> NearRequestOf(q).Near?
      ensures r.0 != 200 ==> r.1 == []
      ensures NearRequestOf(q).Near? ==>
        var p, m := NearRequestOf(q).point, NearRequestOf(q).maxDistance;
        && (forall x :: multiset(r.1)[x] ==
              if x in spots.Values && distance(x.location.coordinates, p) <= m as real then 1 else 0)
        && (forall i, j :: 0 <= i < j < |r.1| ==>
              distance(r.1[i].location.coordinates, p) <= distance(r.1[j].location.coordinates, p))
    {
      if NearRequestOf(q).Near? then NearbyIsWithinRadius(Snapshot(), q, distance); NearbySpec(Snapshot(), q, distance)
      else NearbySpec(Snapshot(), q, distance)
    }
  }
}
