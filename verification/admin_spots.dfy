/** The admin surf-spot endpoint (app/api/admin/spots/route.ts): the
    `spotSchema` check, the admin gate, and the spot collection it lists
    newest first and appends to. Coordinates and the other numbers are
    compared as exact reals. */
module AdminSpots {
  import opened Common
  import opened Query

  /** A create request as JSON delivers it. A missing string is "", a
      missing number None; `createdBy` is whatever the client sent, which
      the schema strips. */
  datatype SpotRequest = SpotRequest(
    name: string,
    description: string,
    locationType: string,
    coordinates: seq<real>,
    difficulty: Option<real>,
    waveType: string,
    bestSeason: string,
    imageUrl: Option<string>,
    averageWaveHeight: Option<real>,
    windDirection: Option<string>,
    waterTemperature: Option<real>,
    createdBy: Option<UserId>)

  /** A `[latitude, longitude]` pair in range. */
  predicate CoordinatesOk(c: seq<real>) {
    |c| == 2 && -90.0 <= c[0] <= 90.0 && -180.0 <= c[1] <= 180.0
  }

  /** What `spotSchema` accepts; the four trailing fields are optional and
      unconstrained. */
  predicate SpotOk(req: SpotRequest) {
    |req.name| >= 1 && |req.description| >= 1 &&
    req.locationType == "Point" && CoordinatesOk(req.coordinates) &&
    req.difficulty.Some? && 1.0 <= req.difficulty.value <= 5.0 &&
    |req.waveType| >= 1 && |req.bestSeason| >= 1
  }

  datatype Spot = Spot(
    name: string,
    description: string,
    coordinates: seq<real>,
    difficulty: real,
    waveType: string,
    bestSeason: string,
    imageUrl: Option<string>,
    averageWaveHeight: Option<real>,
    windDirection: Option<string>,
    waterTemperature: Option<real>,
    createdBy: UserId,
    createdAt: nat)

  /** A stored spot meets every rule of the schema. */
  predicate StoredSpotOk(s: Spot) {
    |s.name| >= 1 && |s.description| >= 1 && CoordinatesOk(s.coordinates) &&
    1.0 <= s.difficulty <= 5.0 && |s.waveType| >= 1 && |s.bestSeason| >= 1
  }

  /** The document built from a validated request: its fields, then
      `createdBy` from the session. */
  function NewSpot(req: SpotRequest, admin: UserId, now: nat): (s: Spot)
    requires SpotOk(req)
    ensures StoredSpotOk(s) && s.createdBy == admin && s.createdAt == now
    ensures s.name == req.name && s.coordinates == req.coordinates && s.difficulty == req.difficulty.value
    ensures s.description == req.description && s.waveType == req.waveType && s.bestSeason == req.bestSeason
    ensures s.imageUrl == req.imageUrl && s.averageWaveHeight == req.averageWaveHeight
    ensures s.windDirection == req.windDirection && s.waterTemperature == req.waterTemperature
  {
    Spot(req.name, req.description, req.coordinates, req.difficulty.value, req.waveType, req.bestSeason,
         req.imageUrl, req.averageWaveHeight, req.windDirection, req.waterTemperature, admin, now)
  }

  /** The stored spot never depends on the `createdBy` the client sent. */
  lemma NewSpotIgnoresBodyCreator(req: SpotRequest, other: Option<UserId>, admin: UserId, now: nat)
    requires SpotOk(req)
    ensures SpotOk(req.(createdBy := other))
    ensures NewSpot(req.(createdBy := other), admin, now) == NewSpot(req, admin, now)
  {
  }

  function SpotCreated(s: Spot): nat { s.createdAt }

  class SpotStore {
    var spots: seq<Spot>

    ghost predicate Valid()
      reads this
    {
      forall i :: 0 <= i < |spots| ==> StoredSpotOk(spots[i])
    }

    constructor ()
      ensures Valid() && spots == []
    {
      spots := [];
    }

    /** GET: every spot, newest first, for an admin. */
    function List(session: Option<Session>): (r: Response<seq<Spot>>)
      reads this
      ensures !IsAdmin(session) <==> r == Fail(401, "Unauthorized")
      ensures r.Ok? ==> r.status == 200 && multiset(r.body) == multiset(spots)
      ensures r.Ok? ==> forall i, j :: 0 <= i < j < |r.body| ==> r.body[i].createdAt >= r.body[j].createdAt
    {
      if !IsAdmin(session) then Fail(401, "Unauthorized") else Ok(200, NewestFirst(spots, SpotCreated))
    }

    /** POST: validate, then append the new spot. */
    method Create(session: Option<Session>, req: SpotRequest, now: nat) returns (r: Response<Spot>)
      requires Valid()
      modifies this
      ensures Valid()
      ensures !IsAdmin(session) ==> r == Fail(401, "Unauthorized")
      ensures IsAdmin(session) && !SpotOk(req) ==> r == Fail(400, "Validation error")
      ensures r.Fail? ==> spots == old(spots)
      ensures r.Ok? <==> IsAdmin(session) && SpotOk(req)
      ensures r.Ok? ==> r.status == 201 && r.body.createdBy == session.value.id
      ensures r.Ok? ==> spots == old(spots) + [r.body] && r.body == NewSpot(req, session.value.id, now)
    {
      if !IsAdmin(session) {
        return Fail(401, "Unauthorized");
      }
      if !SpotOk(req) {
        return Fail(400, "Validation error");
      }
      var spot := NewSpot(req, session.value.id, now);
      spots := spots + [spot];
      r := Ok(201, spot);
    }
  }
}
