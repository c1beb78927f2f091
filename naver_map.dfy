/** The pure helpers of the map component (app/NaverMap.tsx): masking the
    client id for logs, the polygon colours per mode, the default search,
    and turning GeoJSON positions into map coordinates. */
module NaverMap {
  import opened JsNumber
  import opened Geo
  import Validation
  import Bmad
  import IsochroneRoute

  // ---------------------------------------------------------------------
  // mask

  /** The characters the regular expression `.` does not match */
  predicate IsLineTerminator(c: char) {
    c == '\n' || c == '\r' || c == '\U{2028}' || c == '\U{2029}'
  }

  predicate NoLineTerminator(s: string) {
    forall i :: 0 <= i < |s| ==> !IsLineTerminator(s[i])
  }

  /** `/.(?=.{4})/g` matches at `i`: `.` takes `s[i]` and the look-ahead
      needs four more such characters after it */
  predicate StarredAt(s: string, i: int)
    requires 0 <= i < |s|
  {
    i + 4 < |s| && forall k :: i <= k <= i + 4 ==> !IsLineTerminator(s[k])
  }

  /** `mask`: empty stays empty; up to eight characters, every character
      with four more after it becomes `*`; longer ids keep their first and
      last four around `...`. */
  function Mask(s: string): (r: string)
    ensures s == [] ==> r == []
    ensures 1 <= |s| <= 8 ==> |r| == |s| && r[|s| - Min(4, |s|)..] == s[|s| - Min(4, |s|)..]
    ensures 1 <= |s| <= 8 && NoLineTerminator(s) ==>
      forall i :: 0 <= i < |s| - 4 ==> r[i] == '*'
    ensures |s| > 8 ==> |r| == 11 && r[..4] == s[..4] && r[4..7] == "..." && r[7..] == s[|s| - 4..]
  {
    if s == [] then ""
    else if |s| <= 8 then seq(|s|, i requires 0 <= i < |s| => if StarredAt(s, i) then '*' else s[i])
    else s[..4] + "..." + s[|s| - 4..]
  }

  function Min(a: int, b: int): int {
    if a < b then a else b
  }

  /** Ids of at most four characters are shown whole. */
  lemma MaskKeepsShort(s: string)
    requires |s| <= 4
    ensures Mask(s) == s
  {
  }

  /** Two worked examples. */
  lemma MaskExamples()
    ensures Mask("abcdefgh") == "****efgh"
    ensures Mask("abcdefghijkl") == "abcd...ijkl"
  {
  }

  // ---------------------------------------------------------------------
  // colours

  datatype Colors = Colors(fill: string, stroke: string)

  predicate IsHexDigit(c: char) {
    '0' <= c <= '9' || 'a' <= c <= 'f' || 'A' <= c <= 'F'
  }

  /** `#` followed by six hexadecimal digits */
  predicate IsHexColor(s: string) {
    |s| == 7 && s[0] == '#' && forall i :: 1 <= i < 7 ==> IsHexDigit(s[i])
  }

  /** `colorMap[mode]` */
  function ColorFor(mode: Mode): (c: Colors)
    ensures IsHexColor(c.fill) && IsHexColor(c.stroke)
    ensures c.fill != c.stroke
  {
    match mode
    case Walking => Colors("#ff7f50", "#ff4500")
    case Driving => Colors("#1e90ff", "#00008b")
    case Transit => Colors("#50c878", "#228b22")
  }

  /** Each mode is drawn in its own colours. */
  lemma ColorsDistinguishModes(a: Mode, b: Mode)
    requires a != b
    ensures ColorFor(a).fill != ColorFor(b).fill && ColorFor(a).stroke != ColorFor(b).stroke
  {
  }

  // ---------------------------------------------------------------------
  // the search to draw

  datatype IsochroneParams = IsochroneParams(center: Center, time: real, mode: Mode)

  const DefaultParams: IsochroneParams := IsochroneParams(Center(37.5665, 126.978), 15.0, Walking)

  /** `params || { center: Seoul City Hall, time: 15, mode: "walking" }` */
  function SearchParams(params: Option<IsochroneParams>): (p: IsochroneParams)
    ensures params.Some? ==> p == params.value
    ensures params.None? ==> p.center == Center(37.5665, 126.978) && p.time == 15.0 && p.mode == Walking
  {
    params.GetOr(DefaultParams)
  }

  function ModeName(mode: Mode): string {
    match mode
    case Walking => "walking"
    case Driving => "driving"
    case Transit => "transit"
  }

  /** The JSON body the component posts for a search */
  function RequestOf(p: IsochroneParams): IsochroneRoute.Request
  {
    IsochroneRoute.Json(IsochroneRoute.Body(
      IsochroneRoute.CenterObject(IsochroneRoute.Number(Fin(p.center.lat)), IsochroneRoute.Number(Fin(p.center.lng))),
      IsochroneRoute.Number(Fin(p.time)),
      IsochroneRoute.Str(ModeName(p.mode))))
  }

  /** The default search lies in Korea, passes the endpoint's checks, and is
      answered by the heuristic: a closed 65-entry ring of radius 1200 m. */
  lemma DefaultSearchAnswered(trig: Trig, provider: IsochroneRoute.Provider)
    ensures Validation.IsKoreanCoordinate(Fin(DefaultParams.center.lat), Fin(DefaultParams.center.lng))
    ensures
      var r := IsochroneRoute.Post(RequestOf(SearchParams(None)), trig, provider);
      && r.Fallback? && r.engine == "bmad-fallback"
      && r.properties.radiusMeters == 1200.0
      && |r.heuristicRing| == 65 && r.heuristicRing[0] == r.heuristicRing[64]
  {
  }

  // ---------------------------------------------------------------------
  // ring to path

  /** `naver.maps.LatLng(lat, lng)` */
  datatype LatLng = LatLng(lat: Num, lng: Num)

  /** `coords.map(c => new LatLng(c[1], c[0]))` */
  function ToPath(coords: seq<Position>): (path: seq<LatLng>)
    ensures |path| == |coords|
    ensures forall i :: 0 <= i < |coords| ==> path[i] == LatLng(coords[i].lat, coords[i].lng)
  {
    seq(|coords|, i requires 0 <= i < |coords| => LatLng(coords[i].lat, coords[i].lng))
  }

  /** Back from map coordinates to GeoJSON order */
  function FromPath(path: seq<LatLng>): (coords: seq<Position>)
    ensures |coords| == |path|
  {
    seq(|path|, i requires 0 <= i < |path| => Position(path[i].lng, path[i].lat))
  }

  /** Swapping to `LatLng` loses nothing and keeps the ring closed. */
  lemma PathRoundTrip(coords: seq<Position>)
    ensures FromPath(ToPath(coords)) == coords
    ensures |coords| > 0 && coords[0] == coords[|coords| - 1] ==> ToPath(coords)[0] == ToPath(coords)[|coords| - 1]
  {
  }
}
