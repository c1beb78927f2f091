# Isochrone geometry of find-my-home, in Dafny

The application draws a "reachable area" polygon (an isochrone) around a point
on a Naver map, for a travel time in minutes and a travel mode (walking,
driving or transit). This project models and proves the logic behind that
polygon:

- `validation.dfy` (module `Validation`): WGS84 and Korean-box coordinate checks, and
  `normalizeCoordinates`, whose two `while` loops wrap the longitude. The loops are
  proved against a closed-form reference `WrapLng`.
- `bmad.dfy` (module `Bmad`): the heuristic circular isochrone. It has the speed table,
  the 50 m radius floor and the ring-building `for` loop. The loop is proved against
  the reference ring `HeuristicRing`.
- `route.dfy` (module `IsochroneRoute`): the `POST /api/isochrone` endpoint. It covers the
  ordered request checks, the dispatch on mode and the sixteen driving probes (base
  radius, bearings, scale clamp, minimum distance). It also covers the validity
  filter, the quorum of six with its fallback, the confidence, and `toGeoJSONPolygon`.
- `naver_map.dfy` (module `NaverMap`): the pure helpers of the map component. These are
  `mask`, the colour table, the default search and the `[lng, lat]` to `LatLng` swap.
- `js_number.dfy` (module `JsNumber`) and `geo.dfy` (module `Geo`): shared definitions.
  A JavaScript number is `Fin(real) | NaN | PosInf | NegInf`. Comparisons with NaN are
  false, and dividing a finite number by zero gives an infinity or NaN. Shared types
  are the mode, centre, position and trigonometry parameter.

Decisions that follow the code rather than a tidier design:

- The probes are not isolated from each other. If the provider throws for any bearing
  (missing credentials, a non-OK response), the whole request answers 500. A more
  robust design would catch each probe's error locally; the code does not.
- The engine names are "bmad-fallback" and "naver-directions-sampling", and the reasons
  are the Korean strings of the code. `confidence` is `min(1, valid / 16)`.
- The route converts metres at 111320 m per degree. The heuristic engine uses a
  6378137 m Earth radius. The two conversions are kept apart, as in the code.
- `destinationFrom` moves the latitude by the sine of the bearing and the longitude by
  its cosine.
- `validateCoordinates` accepts NaN, because both of its range tests are `<`/`>`
  comparisons (`Validation.ValidateAcceptsNaN`). The route's own `isValidLatLng` tests
  finiteness first and refuses NaN.
- `toGeoJSONPolygon` compares with `!==`. A NaN in the first position therefore makes
  it append again on every call, so it is idempotent only for NaN-free first positions.
- With `points <= 0`, `computeIsochroneBMAD` pushes `coords[0]` of an empty array. The
  model returns the one-entry ring `[Undefined]`.

`Math.sin` and `Math.cos` are the `Trig` parameter, and `Math.PI` is its literal
value. The Directions HTTP call is the `Provider` parameter, a function from start and
goal to a reply: it throws, or it answers with an optional summary.

## Model

| member | source | states |
|---|---|---|
| `Validation.ValidateCoordinates` | lib/utils/validation.ts:12-26 | true exactly when lat is in [-90, 90] and lng in [-180, 180], bounds inclusive, with NaN passing both tests |
| `Validation.IsKoreanCoordinate` | lib/utils/validation.ts:35-47 | true exactly when both values are finite with 33 <= lat <= 43 and 124 <= lng <= 132 |
| `Validation.KoreanIsValid` | lib/utils/validation.ts:12-47 | every coordinate in the Korean box also passes `validateCoordinates` |
| `Validation.ValidateAcceptsNaN` | lib/utils/validation.ts:14-23 | replacing either value of an accepted pair by NaN keeps it accepted |
| `Validation.ClampLat` | lib/utils/validation.ts:69 | the clamped latitude lies in [-90, 90] and equals an in-range input. Above 90 (or +Infinity) it is 90, below -90 (or -Infinity) it is -90, and it is NaN exactly for NaN |
| `Validation.WrapLngProperties` | lib/utils/validation.ts:60-66 | the wrapped longitude lies in [-180, 180] and differs from the input by a whole number of 360-degree turns. Inputs above 180 land in (-180, 180], inputs below -180 in [-180, 180), and inputs in range are unchanged |
| `Validation.WrapLngIdempotent` | lib/utils/validation.ts:60-66 | wrapping twice equals wrapping once |
| `Validation.WrapLngExamples` | lib/utils/validation.ts:61-66 | 190 -> -170, -190 -> 170, 540 -> 180, -540 -> -180, 721 -> 1, -721 -> -1, and 180 and -180 stay |
| `Validation.NormalizeCoordinates` | lib/utils/validation.ts:55-72 | the two wrap loops terminate, with a measure counting the remaining 360-steps. The result is the clamped latitude and the wrapped longitude, NaN passing through |
| `Validation.NormalizedIsValid` | lib/utils/validation.ts:55-72 | a normalised finite coordinate passes `validateCoordinates`, and normalising it again changes nothing |
| `Bmad.RadiusMeters` | lib/bmad.ts:23-24 | the radius is at least 50 and at least time times speed, and equals one of the two |
| `Bmad.RadiusFloorAndExample` | lib/bmad.ts:24 | a zero or negative time gives exactly 50 m; 15 minutes walking gives 1200 m |
| `Bmad.RadiusMonotone` | lib/bmad.ts:24 | for a fixed mode the radius is non-decreasing in time, and strictly increasing once the later time's reach is above the floor |
| `Bmad.RadiusModeOrder` | lib/bmad.ts:23-24 | for time >= 1, walking radius < transit radius < driving radius |
| `Bmad.ComputeIsochroneBmad` | lib/bmad.ts:14-48 | the loop builds exactly the reference ring (vertex i at fraction i/points, in increasing i), then pushes `coords[0]`. The properties echo centre, time and mode, with method 'bmad-placeholder' and the radius |
| `Bmad.HeuristicRingShape` | lib/bmad.ts:26-38 | for points >= 1 the ring has points + 1 entries, all vertices, ends on its first entry, and entry i is the vertex at i/points. For points <= 0 it is the single entry undefined |
| `Bmad.VertexByFraction` | lib/bmad.ts:28-36 | a vertex depends on its index only through i/points: vertex i of an n-gon equals vertex j of an m-gon when i*m == j*n |
| `Bmad.HeuristicIsochroneDefaults` | lib/bmad.ts:20-47 | by default the ring has 65 entries and is closed, with 16 points it has 17, and the properties echo the inputs |
| `IsochroneRoute.SpeedMPerMin` | app/api/isochrone/route.ts:23-27 | the route's speed table agrees with the heuristic engine's for every mode |
| `IsochroneRoute.IsValidLatLng` | app/api/isochrone/route.ts:29-31 | true exactly when both values are finite and within the inclusive WGS84 bounds |
| `IsochroneRoute.IsValidLatLngVersusValidateCoordinates` | app/api/isochrone/route.ts:29-31 | on finite values it agrees with `validateCoordinates`; it implies it always; it refuses NaN, which `validateCoordinates` lets through |
| `IsochroneRoute.DestinationFrom` | app/api/isochrone/route.ts:33-46 | the latitude is always finite: the centre's plus distance times sin(bearing) over 111320. The longitude is finite exactly when cos(centre latitude) is not zero, and then it is the centre's plus distance times cos(bearing) over 111320 times that cosine |
| `IsochroneRoute.ToGeoJSONPolygon` | app/api/isochrone/route.ts:48-51 | empty stays empty. The input is a prefix of the output and at most one entry, a copy of the first, is appended. A non-empty output starts and ends on the same position. An input already closed, with a NaN-free first position, comes back unchanged |
| `IsochroneRoute.ToGeoJSONPolygonIdempotent` | app/api/isochrone/route.ts:48-51 | closing twice equals closing once when the first position holds no NaN; with a NaN each call appends again |
| `IsochroneRoute.CheckRequest` | app/api/isochrone/route.ts:104-115 | a request is accepted exactly when its centre is two finite in-range numbers, time is finite in [1, 120] and mode is one of the three names. The accepted query carries those values; a rejection carries one of the four messages |
| `IsochroneRoute.CheckOrder` | app/api/isochrone/route.ts:104-115 | the first failing check (centre present, coordinate range, time, mode) decides the message, whatever the later fields hold |
| `IsochroneRoute.FetchNaverDrivingRoute` | app/api/isochrone/route.ts:62-95 | a failed call throws the provider's own error message. An answer is a route exactly when the summary has a non-zero duration and distance, and is null otherwise. A route carries the summary's duration, distance, toll fare and fuel price unchanged |
| `IsochroneRoute.BaseRadius` | app/api/isochrone/route.ts:131 | the probe radius is max(200, time * 800) |
| `IsochroneRoute.Bearings` | app/api/isochrone/route.ts:132 | sixteen bearings, the i-th being i * 22.5 |
| `IsochroneRoute.BearingsIncreasing` | app/api/isochrone/route.ts:132 | the bearings rise strictly and lie in [0, 360) |
| `IsochroneRoute.Scale` | app/api/isochrone/route.ts:146 | the scale is time*60000/eta clamped to [0.2, 1.2] |
| `IsochroneRoute.AdjustedDistance` | app/api/isochrone/route.ts:147 | the adjusted distance is max(100, distance * scale), so at least 100 |
| `IsochroneRoute.SampleOf` | app/api/isochrone/route.ts:135-158 | without a route the sample keeps the unscaled probe goal with null eta and distance. With a route the point is moved to the adjusted distance on the same bearing. Eta and distance are recorded, and toll fare and fuel price are kept, 0 when absent |
| `IsochroneRoute.ProbeAll` | app/api/isochrone/route.ts:134-159 | the probes throw exactly when some bearing's provider call throws. Otherwise there is one sample per bearing, in bearing order |
| `IsochroneRoute.ValidSamples` | app/api/isochrone/route.ts:161 | keeps exactly the samples with two finite coordinates, and keeps bearing order |
| `IsochroneRoute.PointsOf` | app/api/isochrone/route.ts:175 | the points of the valid samples, in order |
| `IsochroneRoute.Confidence` | app/api/isochrone/route.ts:176 | the confidence lies in [0, 1] and is the valid fraction whenever valid <= total |
| `IsochroneRoute.Post` | app/api/isochrone/route.ts:97-194 | a 400 answers exactly the requests that fail a check. An unparsable body gets a 500 carrying the parse error's message. A 500 answers exactly an unparsable body or an accepted driving request whose probing threw. A fallback follows an accepted request, and a sampled answer an accepted driving request, with sixteen samples and confidence in [6/16, 1] |
| `IsochroneRoute.RejectedRequest` | app/api/isochrone/route.ts:104-115 | a failed check answers 400 with its message, whatever the trigonometry and provider, so no engine runs |
| `IsochroneRoute.UnknownModeRejected` | app/api/isochrone/route.ts:113-114 | mode 'bicycle' with a valid centre and time answers 400 with the mode message |
| `IsochroneRoute.NonDrivingUsesHeuristic` | app/api/isochrone/route.ts:119-129 | walking and transit return the heuristic ring and properties unchanged, with engine 'bmad-fallback' and the non-driving reason, without consulting the provider |
| `IsochroneRoute.ThrowingProbeFailsRequest` | app/api/isochrone/route.ts:134-192 | one throwing probe makes a driving request answer 500 with the message of the lowest-indexed probe that threw, and no polygon |
| `IsochroneRoute.ProbeAllThrowsFirst` | app/api/isochrone/route.ts:134-159 | the message of a failed probing is that of a probe that threw, and every probe before it did not throw |
| `IsochroneRoute.ScarceSamplesFallBack` | app/api/isochrone/route.ts:161-173 | fewer than six valid samples give the heuristic result with engine 'bmad-fallback' and the scarce-samples reason |
| `IsochroneRoute.SampleDriving` | app/api/isochrone/route.ts:134-189 | a driving request fails with 500 exactly when probing threw. It is answered from the samples exactly when probing did not throw and at least six samples are valid, with sixteen samples and confidence in [6/16, 1]. Otherwise it falls back to the heuristic |
| `IsochroneRoute.ProbedInBearingOrder` | app/api/isochrone/route.ts:134-159 | the probe results come back one per bearing, the i-th with bearing i*22.5, so in strictly rising bearing order |
| `IsochroneRoute.ClosedRingFinite` | app/api/isochrone/route.ts:48-58 | closing the ring of valid sample points adds no point that is not finite |
| `IsochroneRoute.QuorumAnswersSampled` | app/api/isochrone/route.ts:163-189 | with no throw and at least six valid samples, the driving answer is the sampled one: the closure of the valid points, engine 'naver-directions-sampling', option 'trafast', all sixteen samples and confidence valid/16 |
| `IsochroneRoute.SampledAnswer` | app/api/isochrone/route.ts:175-189 | a sampled answer closes the ring of the valid points in bearing order, all finite. It keeps all sixteen samples with bearing i*22.5, has engine 'naver-directions-sampling' and confidence valid/16 in [6/16, 1] |
| `NaverMap.Mask` | app/NaverMap.tsx:39-43 | "" stays "". Up to eight characters, the length and the last min(4, len) characters are kept, and without line terminators every earlier character becomes '*'. Longer ids become first four + "..." + last four, 11 characters |
| `NaverMap.MaskKeepsShort` | app/NaverMap.tsx:41 | ids of at most four characters come back unchanged |
| `NaverMap.MaskExamples` | app/NaverMap.tsx:39-43 | "abcdefgh" -> "****efgh" and "abcdefghijkl" -> "abcd...ijkl" |
| `NaverMap.ColorFor` | app/NaverMap.tsx:201-206 | every fill and stroke is '#' followed by six hexadecimal digits, and a mode's fill differs from its stroke |
| `NaverMap.ColorsDistinguishModes` | app/NaverMap.tsx:201-205 | different modes get different fills and strokes |
| `NaverMap.SearchParams` | app/NaverMap.tsx:159-163 | given parameters are used as they are; absent ones default to centre (37.5665, 126.978), 15 minutes, walking |
| `NaverMap.DefaultSearchAnswered` | app/NaverMap.tsx:159-184 | the default centre is in the Korean box. The default request passes the endpoint's checks and gets the heuristic answer: radius 1200 m and a closed 65-entry ring |
| `NaverMap.ToPath` | app/NaverMap.tsx:198 | each [lng, lat] becomes LatLng(lat, lng), keeping order and length |
| `NaverMap.PathRoundTrip` | app/NaverMap.tsx:196-198 | swapping back gives the original ring, and a closed ring stays closed |

## Left out

- Validation.ValidateCoordinates: the `console.warn` logged on each rejected latitude or longitude is not modelled, because logging has no effect on the result.
- Floating point: numbers are exact reals plus NaN and the two infinities. Rounding, overflow to infinity and signed zero are not modelled.
- `Math.sin`, `Math.cos`: they are an uninterpreted `Trig` parameter. So nothing is proved about where vertices lie, for instance that heuristic vertices stay within WGS84 ranges.
- The Directions HTTP call, its URL, its headers and the environment variables holding the credentials are left out. The call is the `Provider` parameter; its error text is an abstract message.
- IsochroneRoute.ProbeAll: `Promise.all` runs the sixteen probes concurrently and rejects with the first error in time. The model maps the bearings in order, so the 500 carries the lowest throwing bearing's message.
- IsochroneRoute.FetchNaverDrivingRoute: JSON summaries are taken as finite numbers or absent. Other JSON types in the summary fields are not modelled.
- IsochroneRoute.Post: the JavaScript values that fail the centre check (missing, null, falsy, a primitive, or an object without number fields) are folded into `NoCenter` and non-number field values, and other request fields are ignored. A JSON body of `null` makes reading `body.center` throw a TypeError, which the handler answers with 500; the model counts it as `Unparsable`.
- Bmad.ComputeIsochroneBmad: a non-integer `points` (for example 2.5 runs the loop three times) is not modelled; points is an integer. A NaN or infinite time is not modelled either; the endpoint only passes finite times.
- Validation.NormalizeCoordinates: for an infinite longitude the source loops for ever, so the model requires a finite or NaN longitude. The model also terminates on every finite longitude, but the source does not: above about 2^62 in magnitude, subtracting or adding 360 rounds back to the same double and the loop never ends. Well below that size the loops still run about |lng|/360 times.
- NaverMap.Mask: JavaScript counts length in UTF-16 code units, and the model counts characters. They differ only for characters outside the Basic Multilingual Plane.
- NaverMap: script loading, retries with timers, refs, event listeners, the `fetch` to the endpoint and the `alert` calls are UI and timing code and are not modelled. JSON serialisation of the response, where an infinite coordinate becomes null, is not modelled either.
- app/SearchForm.tsx, app/page.tsx, lib/env-utils.ts and app/api/client-id/route.ts are not part of this model. They are UI state and environment reads.
