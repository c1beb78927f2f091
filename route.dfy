/** The isochrone endpoint (app/api/isochrone/route.ts): request checks,
    dispatch on mode, and the sixteen-probe sampling of driving reach with
    its fallback to the heuristic engine. */
module IsochroneRoute {
  import opened JsNumber
  import opened Geo
  import Bmad
  import Validation

  /** `SPEED_M_PER_MIN`; it agrees with the heuristic engine's speeds */
  function SpeedMPerMin(mode: Mode): (r: real)
    ensures r == Bmad.Speed(mode)
  {
    match mode
    case Walking => 80.0
    case Transit => 600.0
    case Driving => 800.0
  }

  /** `isValidLatLng`: finite and inside the inclusive WGS84 bounds */
  function IsValidLatLng(lat: Num, lng: Num): (ok: bool)
    ensures ok <==> lat.Fin? && lng.Fin? && -90.0 <= lat.v <= 90.0 && -180.0 <= lng.v <= 180.0
  {
    IsFinite(lat) && IsFinite(lng) && AtLeast(lat, -90.0) && AtMost(lat, 90.0)
    && AtLeast(lng, -180.0) && AtMost(lng, 180.0)
  }

  /** On finite numbers the route's check and `validateCoordinates` agree;
      on NaN only the route's check refuses. */
  lemma IsValidLatLngVersusValidateCoordinates(lat: Num, lng: Num)
    ensures lat.Fin? && lng.Fin? ==> (IsValidLatLng(lat, lng) <==> Validation.ValidateCoordinates(lat, lng))
    ensures IsValidLatLng(lat, lng) ==> Validation.ValidateCoordinates(lat, lng)
    ensures !IsValidLatLng(NaN, lng) && (Validation.ValidateCoordinates(Fin(0.0), lng) ==> Validation.ValidateCoordinates(NaN, lng))
  {
  }

  // ---------------------------------------------------------------------
  // Flat-Earth offsets, 111320 m per degree

  const MetersPerDegree: real := 111320.0

  function MetersToLat(m: real): real
  {
    m / MetersPerDegree
  }

  /** `m / (111320 * cos(lat))`, infinite or NaN where the cosine is zero */
  function MetersToLng(trig: Trig, m: real, lat: real): Num
  {
    Divide(m, MetersPerDegree * trig.cos(lat * Pi / 180.0))
  }

  /** `destinationFrom`: the sine of the bearing moves the latitude and its
      cosine the longitude. The latitude is always finite; the longitude is
      finite exactly when the cosine of the centre's latitude is not zero. */
  function DestinationFrom(trig: Trig, center: Center, bearingDeg: real, distanceM: real): (p: Position)
    ensures IsFinite(p.lat)
    ensures p.lat.v == center.lat + distanceM * trig.sin(bearingDeg * Pi / 180.0) / MetersPerDegree
    ensures IsFinite(p.lng) <==> trig.cos(center.lat * Pi / 180.0) != 0.0
    ensures IsFinite(p.lng) ==>
      p.lng.v == center.lng + distanceM * trig.cos(bearingDeg * Pi / 180.0)
                             / (MetersPerDegree * trig.cos(center.lat * Pi / 180.0))
  {
    var rad := bearingDeg * Pi / 180.0;
    var dLat := MetersToLat(distanceM * trig.sin(rad));
    var dLng := MetersToLng(trig, distanceM * trig.cos(rad), center.lat);
    Position(Plus(dLng, center.lng), Fin(center.lat + dLat))
  }

  // ---------------------------------------------------------------------
  // Closing a ring

  /** `toGeoJSONPolygon`: appends `coords[0]` unless the last position is
      strictly equal to it, coordinate by coordinate. */
  function ToGeoJSONPolygon(coords: seq<Position>): (closed: seq<Position>)
    ensures coords == [] ==> closed == []
    ensures |coords| <= |closed| <= |coords| + 1 && closed[..|coords|] == coords
    ensures |closed| == |coords| + 1 ==> closed[|coords|] == coords[0]
    ensures coords != [] ==> closed[0] == closed[|closed| - 1]
    ensures coords != [] && !HasNaN(coords[0]) && coords[0] == coords[|coords| - 1] ==> closed == coords
  {
    if |coords| > 0
       && (!StrictEquals(coords[0].lng, coords[|coords| - 1].lng)
           || !StrictEquals(coords[0].lat, coords[|coords| - 1].lat))
    then coords + [coords[0]]
    else coords
  }

  predicate HasNaN(p: Position) {
    p.lng.NaN? || p.lat.NaN?
  }

  /** Closing is idempotent once the first position holds no NaN; a NaN in
      it defeats the strict equality test, so each call appends again. */
  lemma ToGeoJSONPolygonIdempotent(coords: seq<Position>)
    ensures coords == [] || !HasNaN(coords[0]) ==> ToGeoJSONPolygon(ToGeoJSONPolygon(coords)) == ToGeoJSONPolygon(coords)
    ensures coords != [] && HasNaN(coords[0]) ==> |ToGeoJSONPolygon(ToGeoJSONPolygon(coords))| == |coords| + 2
  {
  }

  // ---------------------------------------------------------------------
  // The request

  /** A field of the parsed JSON body */
  datatype JsValue = Undefined | Number(n: Num) | Str(s: string) | OtherValue

  /** `body.center`: a missing, falsy or non-object centre has no `lat` or
      `lng` number and fails like `NoCenter` */
  datatype CenterValue = NoCenter | CenterObject(lat: JsValue, lng: JsValue)

  datatype Body = Body(center: CenterValue, time: JsValue, mode: JsValue)

  /** `req.json()` either yields a body or throws. A body of `null` also
      lands in `Unparsable`: reading `body.center` off it throws a TypeError,
      which the handler's `catch` turns into a 500 with that error's message. */
  datatype Request = Unparsable(message: string) | Json(body: Body)

  /** A request that passed every check */
  datatype Query = Query(center: Center, time: real, mode: Mode)

  datatype Checked = Accepted(query: Query) | Rejected(message: string)

  const CenterRequired: string := "center(lat,lng)가 필요합니다."
  const InvalidCoordinates: string := "유효하지 않은 좌표입니다."
  const TimeOutOfRange: string := "time은 1~120(분)이어야 합니다."
  const UnknownMode: string := "mode는 walking|driving|transit 이어야 합니다."

  predicate HasNumberCenter(body: Body) {
    body.center.CenterObject? && body.center.lat.Number? && body.center.lng.Number?
  }

  predicate HasValidCenter(body: Body) {
    HasNumberCenter(body) && IsValidLatLng(body.center.lat.n, body.center.lng.n)
  }

  predicate HasValidTime(body: Body) {
    body.time.Number? && IsFinite(body.time.n) && !Below(body.time.n, 1.0) && !Above(body.time.n, 120.0)
  }

  function ModeOf(name: string): Option<Mode> {
    if name == "walking" then Some(Walking)
    else if name == "driving" then Some(Driving)
    else if name == "transit" then Some(Transit)
    else None
  }

  predicate HasValidMode(body: Body) {
    body.mode.Str? && ModeOf(body.mode.s).Some?
  }

  /** The four checks, in order; the first that fails names the answer */
  function CheckRequest(body: Body): (c: Checked)
    ensures c.Accepted? <==> HasValidCenter(body) && HasValidTime(body) && HasValidMode(body)
    ensures c.Accepted? ==>
      && -90.0 <= c.query.center.lat <= 90.0 && -180.0 <= c.query.center.lng <= 180.0
      && 1.0 <= c.query.time <= 120.0
      && body.center.lat == Number(Fin(c.query.center.lat))
      && body.center.lng == Number(Fin(c.query.center.lng))
      && body.time == Number(Fin(c.query.time))
      && ModeOf(body.mode.s) == Some(c.query.mode)
    ensures c.Rejected? ==> c.message in {CenterRequired, InvalidCoordinates, TimeOutOfRange, UnknownMode}
  {
    if !HasNumberCenter(body) then Rejected(CenterRequired)
    else if !IsValidLatLng(body.center.lat.n, body.center.lng.n) then Rejected(InvalidCoordinates)
    else if !(body.time.Number? && IsFinite(body.time.n)) || Below(body.time.n, 1.0) || Above(body.time.n, 120.0)
    then Rejected(TimeOutOfRange)
    else if !(body.mode.Str? && body.mode.s in {"walking", "driving", "transit"}) then Rejected(UnknownMode)
    else Accepted(Query(Center(body.center.lat.n.v, body.center.lng.n.v), body.time.n.v, ModeOf(body.mode.s).value))
  }

  /** A failed check wins over every later one, whatever the later fields hold. */
  lemma CheckOrder(body: Body)
    ensures !HasNumberCenter(body) ==> CheckRequest(body) == Rejected(CenterRequired)
    ensures HasNumberCenter(body) && !HasValidCenter(body) ==> CheckRequest(body) == Rejected(InvalidCoordinates)
    ensures HasValidCenter(body) && !HasValidTime(body) ==> CheckRequest(body) == Rejected(TimeOutOfRange)
    ensures HasValidCenter(body) && HasValidTime(body) && !HasValidMode(body) ==> CheckRequest(body) == Rejected(UnknownMode)
  {
  }

  // ---------------------------------------------------------------------
  // The routing provider

  /** What the Directions call yields, seen from the route: it throws
      (missing credentials, a non-OK answer) or answers with an optional
      summary whose fields may be absent */
  datatype Summary = Summary(distance: Option<real>, duration: Option<real>, tollFare: Option<real>, fuelPrice: Option<real>)
  datatype Reply = Failed(message: string) | Answered(summary: Option<Summary>)

  /** `fetchNaverDrivingRoute`'s result: throws, `null`, or a route */
  datatype Outcome =
    | Throws(message: string)
    | NoRoute
    | Route(distance: real, duration: real, tollFare: Option<real>, fuelPrice: Option<real>)

  /** A summary field that JavaScript reads as true: present and not zero */
  predicate Truthy(x: Option<real>) {
    x.Some? && x.value != 0.0
  }

  /** `fetchNaverDrivingRoute`, after the HTTP exchange: `null` unless both
      the duration and the distance are present and non-zero */
  function FetchNaverDrivingRoute(reply: Reply): (o: Outcome)
    ensures o.Throws? <==> reply.Failed?
    ensures o.Route? <==> reply.Answered? && reply.summary.Some?
                          && Truthy(reply.summary.value.duration) && Truthy(reply.summary.value.distance)
    ensures o.Route? ==> o.duration != 0.0 && o.distance != 0.0
    ensures o.Route? ==> Some(o.duration) == reply.summary.value.duration && Some(o.distance) == reply.summary.value.distance
    ensures o.Route? ==> o.tollFare == reply.summary.value.tollFare && o.fuelPrice == reply.summary.value.fuelPrice
    ensures reply.Failed? ==> o == Throws(reply.message)
  {
    match reply
    case Failed(m) => Throws(m)
    case Answered(summary) =>
      if summary.None? || !Truthy(summary.value.duration) || !Truthy(summary.value.distance) then NoRoute
      else Route(summary.value.distance.value, summary.value.duration.value, summary.value.tollFare, summary.value.fuelPrice)
  }

  /** The provider, as a function of the start and the goal */
  type Provider = (Center, Position) -> Reply

  // ---------------------------------------------------------------------
  // Sampling

  const BearingCount: int := 16
  const Quorum: int := 6
  const ProbeFloorMeters: real := 200.0

  /** `Math.max(200, time * SPEED_M_PER_MIN.driving)` */
  function BaseRadius(time: real): (r: real)
    ensures r >= ProbeFloorMeters && r >= time * 800.0
    ensures r == ProbeFloorMeters || r == time * 800.0
  {
    var reach := time * SpeedMPerMin(Driving);
    if reach > ProbeFloorMeters then reach else ProbeFloorMeters
  }

  /** `Array.from({ length: 16 }, (_, i) => i * 22.5)` */
  function Bearings(): (b: seq<real>)
    ensures |b| == BearingCount
    ensures forall i :: 0 <= i < |b| ==> b[i] == i as real * 22.5
  {
    seq(BearingCount, i requires 0 <= i < BearingCount => i as real * 22.5)
  }

  /** The bearings rise strictly and stay inside [0, 360). */
  lemma BearingsIncreasing()
    ensures forall i, j :: 0 <= i < j < |Bearings()| ==> Bearings()[i] < Bearings()[j]
    ensures forall i :: 0 <= i < |Bearings()| ==> 0.0 <= Bearings()[i] < 360.0
  {
  }

  /** `Math.max(0.2, Math.min(1.2, time * 60000 / etaMs))`; a JSON duration
      is finite and the provider only hands on non-zero ones */
  function Scale(time: real, etaMs: real): (s: real)
    requires etaMs != 0.0
    ensures 0.2 <= s <= 1.2
    ensures 0.2 <= time * 60000.0 / etaMs <= 1.2 ==> s == time * 60000.0 / etaMs
    ensures time * 60000.0 / etaMs < 0.2 ==> s == 0.2
    ensures time * 60000.0 / etaMs > 1.2 ==> s == 1.2
  {
    var ratio := time * 60000.0 / etaMs;
    var capped := if ratio < 1.2 then ratio else 1.2;
    if capped > 0.2 then capped else 0.2
  }

  /** `Math.max(100, distanceM * scale)` */
  function AdjustedDistance(time: real, distanceM: real, etaMs: real): (d: real)
    requires etaMs != 0.0
    ensures d >= 100.0 && d >= distanceM * Scale(time, etaMs)
    ensures d == 100.0 || d == distanceM * Scale(time, etaMs)
  {
    var stretched := distanceM * Scale(time, etaMs);
    if stretched > 100.0 then stretched else 100.0
  }

  /** One entry of `samples`: without a route `etaMs` and `distanceM` are null */
  datatype Sample =
    | Unrouted(bearing: real, point: Position)
    | Routed(bearing: real, point: Position, etaMs: real, distanceM: real, tollFare: real, fuelPrice: real)

  /** The probe goal at the base radius along `bearing` */
  function ProbeGoal(trig: Trig, q: Query, bearing: real): Position
  {
    DestinationFrom(trig, q.center, bearing, BaseRadius(q.time))
  }

  /** What the provider says about the probe along `bearing` */
  function ProbeOutcome(trig: Trig, q: Query, provider: Provider, bearing: real): Outcome
  {
    FetchNaverDrivingRoute(provider(q.center, ProbeGoal(trig, q, bearing)))
  }

  /** The sample of one probe that did not throw */
  function SampleOf(trig: Trig, q: Query, bearing: real, outcome: Outcome): (s: Sample)
    requires !outcome.Throws?
    requires outcome.Route? ==> outcome.duration != 0.0
    ensures s.bearing == bearing
    ensures outcome.NoRoute? ==> s == Unrouted(bearing, ProbeGoal(trig, q, bearing))
    ensures outcome.Route? ==>
      s.Routed? && s.etaMs == outcome.duration && s.distanceM == outcome.distance
      && s.point == DestinationFrom(trig, q.center, bearing, AdjustedDistance(q.time, outcome.distance, outcome.duration))
    ensures outcome.Route? ==> s.tollFare == outcome.tollFare.GetOr(0.0) && s.fuelPrice == outcome.fuelPrice.GetOr(0.0)
  {
    match outcome
    case NoRoute => Unrouted(bearing, ProbeGoal(trig, q, bearing))
    case Route(distanceM, etaMs, tollFare, fuelPrice) =>
      var adjusted := AdjustedDistance(q.time, distanceM, etaMs);
      Routed(bearing, DestinationFrom(trig, q.center, bearing, adjusted), etaMs, distanceM,
             tollFare.GetOr(0.0), fuelPrice.GetOr(0.0))
  }

  /** `Promise.all` over the bearings, as an order-preserving map that stops
      at the first probe that throws */
  datatype Probed = Thrown(message: string) | Samples(samples: seq<Sample>)

  function ProbeAll(trig: Trig, q: Query, provider: Provider, bearings: seq<real>): (r: Probed)
    ensures r.Thrown? <==> exists i :: 0 <= i < |bearings| && ProbeOutcome(trig, q, provider, bearings[i]).Throws?
    ensures r.Samples? ==>
      && |r.samples| == |bearings|
      && forall i :: 0 <= i < |bearings| ==>
           r.samples[i] == SampleOf(trig, q, bearings[i], ProbeOutcome(trig, q, provider, bearings[i]))
  {
    if bearings == [] then Samples([])
    else
      var outcome := ProbeOutcome(trig, q, provider, bearings[0]);
      if outcome.Throws? then Thrown(outcome.message)
      else
        match ProbeAll(trig, q, provider, bearings[1..])
        case Thrown(m) => Thrown(m)
        case Samples(rest) => Samples([SampleOf(trig, q, bearings[0], outcome)] + rest)
  }

  /** `Number.isFinite` on both coordinates of the sample's point */
  predicate IsValidSample(s: Sample) {
    IsFinite(s.point.lng) && IsFinite(s.point.lat)
  }

  predicate BearingOrdered(samples: seq<Sample>) {
    forall i, j :: 0 <= i < j < |samples| ==> samples[i].bearing < samples[j].bearing
  }

  /** `sampledPoints.filter(...)`: the valid samples, in their order */
  function ValidSamples(samples: seq<Sample>): (valid: seq<Sample>)
    ensures |valid| <= |samples|
    ensures forall s :: s in valid ==> s in samples && IsValidSample(s)
    ensures forall s :: s in samples && IsValidSample(s) ==> s in valid
    ensures BearingOrdered(samples) ==> BearingOrdered(valid)
  {
    if samples == [] then []
    else
      var rest := ValidSamples(samples[1..]);
      assert forall s :: s in rest ==> s in samples[1..];
      if IsValidSample(samples[0]) then
        if BearingOrdered(samples) then
          assert forall s :: s in samples[1..] ==> samples[0].bearing < s.bearing;
          OrderedCons(samples[0], rest);
          [samples[0]] + rest
        else [samples[0]] + rest
      else rest
  }

  lemma OrderedCons(first: Sample, rest: seq<Sample>)
    requires BearingOrdered(rest)
    requires forall s :: s in rest ==> first.bearing < s.bearing
    ensures BearingOrdered([first] + rest)
  {
  }

  /** `validPoints.map(p => p.point)` */
  function PointsOf(samples: seq<Sample>): (points: seq<Position>)
    ensures |points| == |samples|
    ensures forall i :: 0 <= i < |samples| ==> points[i] == samples[i].point
  {
    seq(|samples|, i requires 0 <= i < |samples| => samples[i].point)
  }

  /** `Math.min(1, valid / bearings.length)` */
  function Confidence(valid: nat, total: nat): (c: real)
    requires total > 0
    ensures 0.0 <= c <= 1.0
    ensures valid <= total ==> c == valid as real / total as real
  {
    var ratio := valid as real / total as real;
    if ratio < 1.0 then ratio else 1.0
  }

  // ---------------------------------------------------------------------
  // The endpoint

  const NonDrivingReason: string := "네이버 Directions는 자동차 경로 기반이므로 walking/transit은 폴백 처리"
  const ScarceSamplesReason: string := "유효한 Directions 샘플 부족"
  const FallbackEngine: string := "bmad-fallback"
  const SamplingEngine: string := "naver-directions-sampling"
  const RouteOption: string := "trafast"

  datatype Response =
    | Failure(status: int, error: string)
      /** the heuristic result, its properties extended by `engine` and `reason` */
    | Fallback(heuristicRing: seq<Bmad.RingEntry>, properties: Bmad.Properties, engine: string, reason: string)
    | Sampled(ring: seq<Position>, center: Center, timeMinutes: real, mode: Mode,
              engine: string, option: string, samples: seq<Sample>, confidence: real)

  function HeuristicResponse(trig: Trig, q: Query, reason: string): (r: Response)
    ensures r.Fallback? && r.engine == FallbackEngine && r.reason == reason
  {
    var f := Bmad.HeuristicIsochrone(trig, q.center, q.time, q.mode, None);
    Fallback(f.ring, f.properties, FallbackEngine, reason)
  }

  /** Driving mode: probe, filter, and either keep the sampled ring or fall back */
  function SampleDriving(trig: Trig, q: Query, provider: Provider): (r: Response)
    ensures r.Failure? <==> ProbeAll(trig, q, provider, Bearings()).Thrown?
    ensures r.Failure? ==> r.status == 500
    ensures r.Fallback? ==> r.engine == FallbackEngine
    ensures r.Sampled? ==> r.mode == q.mode && 6.0 / 16.0 <= r.confidence <= 1.0 && |r.samples| == BearingCount
    ensures r.Sampled? <==>
      && ProbeAll(trig, q, provider, Bearings()).Samples?
      && |ValidSamples(ProbeAll(trig, q, provider, Bearings()).samples)| >= Quorum
  {
    var bearings := Bearings();
    match ProbeAll(trig, q, provider, bearings)
    case Thrown(m) => Failure(500, m)
    case Samples(samples) =>
      var valid := ValidSamples(samples);
      if |valid| < Quorum then HeuristicResponse(trig, q, ScarceSamplesReason)
      else
        Sampled(ToGeoJSONPolygon(PointsOf(valid)), q.center, q.time, q.mode,
                SamplingEngine, RouteOption, samples, Confidence(|valid|, |bearings|))
  }

  /** `POST /api/isochrone` */
  function Post(req: Request, trig: Trig, provider: Provider): (r: Response)
    ensures req.Unparsable? ==> r == Failure(500, req.message)
    ensures r.Failure? ==> r.status == 400 || r.status == 500
    ensures r.Failure? && r.status == 400 <==> req.Json? && CheckRequest(req.body).Rejected?
    ensures r.Failure? && r.status == 500 <==>
      || req.Unparsable?
      || (&& req.Json? && CheckRequest(req.body).Accepted? && CheckRequest(req.body).query.mode == Driving
          && ProbeAll(trig, CheckRequest(req.body).query, provider, Bearings()).Thrown?)
    ensures r.Fallback? ==> req.Json? && CheckRequest(req.body).Accepted? && r.engine == FallbackEngine
    ensures r.Sampled? ==> req.Json? && CheckRequest(req.body).Accepted? && r.mode == Driving
                           && 6.0 / 16.0 <= r.confidence <= 1.0 && |r.samples| == BearingCount
  {
    match req
    case Unparsable(m) => Failure(500, m)
    case Json(body) =>
      match CheckRequest(body)
      case Rejected(m) => Failure(400, m)
      case Accepted(q) =>
        if q.mode != Driving then HeuristicResponse(trig, q, NonDrivingReason)
        else SampleDriving(trig, q, provider)
  }

  // ---------------------------------------------------------------------
  // What the endpoint promises

  /** A request that fails a check gets a 400 with that check's message,
      and neither the heuristic nor the provider is consulted. */
  lemma RejectedRequest(body: Body, trig: Trig, trig': Trig, provider: Provider, provider': Provider)
    requires CheckRequest(body).Rejected?
    ensures Post(Json(body), trig, provider) == Failure(400, CheckRequest(body).message)
    ensures Post(Json(body), trig, provider) == Post(Json(body), trig', provider')
  {
  }

  /** The end-to-end case of an unknown mode: 400, naming the allowed modes. */
  lemma UnknownModeRejected(trig: Trig, provider: Provider)
    ensures
      var body := Body(CenterObject(Number(Fin(37.5665)), Number(Fin(126.9784))), Number(Fin(15.0)), Str("bicycle"));
      Post(Json(body), trig, provider) == Failure(400, UnknownMode)
  {
  }

  /** Walking and transit get the heuristic result unchanged, with the
      engine and the reason added; the provider is not consulted. */
  lemma NonDrivingUsesHeuristic(body: Body, trig: Trig, provider: Provider, provider': Provider)
    requires CheckRequest(body).Accepted? && CheckRequest(body).query.mode != Driving
    ensures
      var q := CheckRequest(body).query;
      var f := Bmad.HeuristicIsochrone(trig, q.center, q.time, q.mode, None);
      && Post(Json(body), trig, provider) == Fallback(f.ring, f.properties, "bmad-fallback", NonDrivingReason)
      && Post(Json(body), trig, provider) == Post(Json(body), trig, provider')
  {
  }

  /** One probe that throws turns the whole driving request into a 500
      carrying the message of the lowest-indexed probe that threw; no
      polygon is returned. */
  lemma ThrowingProbeFailsRequest(body: Body, trig: Trig, provider: Provider, k: int)
    requires CheckRequest(body).Accepted? && CheckRequest(body).query.mode == Driving
    requires 0 <= k < BearingCount
    requires ProbeOutcome(trig, CheckRequest(body).query, provider, Bearings()[k]).Throws?
    ensures
      var q := CheckRequest(body).query;
      var r := Post(Json(body), trig, provider);
      && r.Failure? && r.status == 500
      && exists i :: 0 <= i < BearingCount && ProbeOutcome(trig, q, provider, Bearings()[i]) == Throws(r.error)
                     && forall j :: 0 <= j < i ==> !ProbeOutcome(trig, q, provider, Bearings()[j]).Throws?
  {
    var q := CheckRequest(body).query;
    ProbeAllThrowsFirst(trig, q, provider, Bearings());
  }

  /** The message of a thrown `ProbeAll` is the one of the first throwing
      probe: every probe before it succeeded. */
  lemma {:induction false} ProbeAllThrowsFirst(trig: Trig, q: Query, provider: Provider, bearings: seq<real>)
    ensures ProbeAll(trig, q, provider, bearings).Thrown? ==>
      exists i :: 0 <= i < |bearings| && ProbeOutcome(trig, q, provider, bearings[i]) == Throws(ProbeAll(trig, q, provider, bearings).message)
                  && forall j :: 0 <= j < i ==> !ProbeOutcome(trig, q, provider, bearings[j]).Throws?
  {
    if bearings != [] && !ProbeOutcome(trig, q, provider, bearings[0]).Throws? {
      ProbeAllThrowsFirst(trig, q, provider, bearings[1..]);
      var r := ProbeAll(trig, q, provider, bearings[1..]);
      if r.Thrown? {
        var i :| 0 <= i < |bearings[1..]| && ProbeOutcome(trig, q, provider, bearings[1..][i]) == Throws(r.message)
                 && forall j :: 0 <= j < i ==> !ProbeOutcome(trig, q, provider, bearings[1..][j]).Throws?;
        assert bearings[1..][i] == bearings[i + 1];
        forall j | 0 <= j < i + 1 ensures !ProbeOutcome(trig, q, provider, bearings[j]).Throws? {
          if j > 0 { assert bearings[j] == bearings[1..][j - 1]; }
        }
      }
    }
  }

  /** With no throw but fewer than six valid samples, the driving request
      falls back to the heuristic result. */
  lemma ScarceSamplesFallBack(body: Body, trig: Trig, provider: Provider)
    requires CheckRequest(body).Accepted? && CheckRequest(body).query.mode == Driving
    requires
      var probed := ProbeAll(trig, CheckRequest(body).query, provider, Bearings());
      probed.Samples? && |ValidSamples(probed.samples)| < Quorum
    ensures
      var q := CheckRequest(body).query;
      var f := Bmad.HeuristicIsochrone(trig, q.center, q.time, q.mode, None);
      Post(Json(body), trig, provider) == Fallback(f.ring, f.properties, "bmad-fallback", ScarceSamplesReason)
  {
  }

  /** With no throw and at least six valid samples, the driving request is
      answered by the sampled ring: the closure of the valid points, all
      sixteen samples, and the valid fraction as confidence. */
  lemma QuorumAnswersSampled(body: Body, trig: Trig, provider: Provider)
    requires CheckRequest(body).Accepted? && CheckRequest(body).query.mode == Driving
    requires
      var probed := ProbeAll(trig, CheckRequest(body).query, provider, Bearings());
      probed.Samples? && |ValidSamples(probed.samples)| >= Quorum
    ensures
      var q := CheckRequest(body).query;
      var samples := ProbeAll(trig, q, provider, Bearings()).samples;
      var valid := ValidSamples(samples);
      Post(Json(body), trig, provider)
        == Sampled(ToGeoJSONPolygon(PointsOf(valid)), q.center, q.time, q.mode,
                   "naver-directions-sampling", "trafast", samples, |valid| as real / 16.0)
  {
  }

  /** A sampled answer closes the ring of the valid probe points in bearing
      order, all of them finite; it keeps all sixteen samples in bearing
      order, and its confidence is the valid fraction, at least 6/16. */
  lemma SampledAnswer(body: Body, trig: Trig, provider: Provider)
    requires Post(Json(body), trig, provider).Sampled?
    ensures
      var r := Post(Json(body), trig, provider);
      var valid := ValidSamples(r.samples);
      && CheckRequest(body).Accepted? && CheckRequest(body).query.mode == Driving
      && r.center == CheckRequest(body).query.center && r.timeMinutes == CheckRequest(body).query.time
      && r.engine == "naver-directions-sampling" && r.option == "trafast"
      && |r.samples| == 16
      && (forall i :: 0 <= i < 16 ==> r.samples[i].bearing == i as real * 22.5)
      && Quorum <= |valid| <= 16 && BearingOrdered(valid)
      && |valid| <= |r.ring| <= |valid| + 1
      && (forall i :: 0 <= i < |valid| ==> r.ring[i] == valid[i].point)
      && r.ring[0] == r.ring[|r.ring| - 1]
      && (forall i :: 0 <= i < |r.ring| ==> IsFinite(r.ring[i].lng) && IsFinite(r.ring[i].lat))
      && r.confidence == |valid| as real / 16.0 && 6.0 / 16.0 <= r.confidence <= 1.0
  {
    var q := CheckRequest(body).query;
    var probed := ProbeAll(trig, q, provider, Bearings());
    assert probed.Samples? && |ValidSamples(probed.samples)| >= Quorum by {
      assert Post(Json(body), trig, provider) == SampleDriving(trig, q, provider);
    }
    QuorumAnswersSampled(body, trig, provider);
    ProbedInBearingOrder(trig, q, provider);
    ClosedRingFinite(ValidSamples(probed.samples));
  }

  /** `Promise.all` keeps the samples in the order of the bearings probed. */
  lemma ProbedInBearingOrder(trig: Trig, q: Query, provider: Provider)
    requires ProbeAll(trig, q, provider, Bearings()).Samples?
    ensures
      var samples := ProbeAll(trig, q, provider, Bearings()).samples;
      && |samples| == BearingCount
      && (forall i :: 0 <= i < BearingCount ==> samples[i].bearing == i as real * 22.5)
      && BearingOrdered(samples)
  {
    var samples := ProbeAll(trig, q, provider, Bearings()).samples;
    BearingsIncreasing();
    forall i, j | 0 <= i < j < |samples| ensures samples[i].bearing < samples[j].bearing {
      assert samples[i].bearing == Bearings()[i] && samples[j].bearing == Bearings()[j];
    }
  }

  /** Closing the ring of valid samples adds no non-finite point. */
  lemma ClosedRingFinite(valid: seq<Sample>)
    requires forall s :: s in valid ==> IsValidSample(s)
    ensures
      var ring := ToGeoJSONPolygon(PointsOf(valid));
      forall i :: 0 <= i < |ring| ==> IsFinite(ring[i].lng) && IsFinite(ring[i].lat)
  {
    var ring := ToGeoJSONPolygon(PointsOf(valid));
    forall i | 0 <= i < |ring| ensures IsFinite(ring[i].lng) && IsFinite(ring[i].lat) {
      var k := if i < |valid| then i else 0;
      assert ring[i] == valid[k].point;
      assert valid[k] in valid;
    }
  }
}
