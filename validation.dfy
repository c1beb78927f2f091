/** Coordinate validation and normalisation (lib/utils/validation.ts). */
module Validation {
  import opened JsNumber

  /** `validateCoordinates`: rejects a latitude outside [-90, 90], then a
      longitude outside [-180, 180]. Both tests are `<`/`>` comparisons, so a
      NaN slips through each of them. */
  function ValidateCoordinates(lat: Num, lng: Num): (ok: bool)
    ensures ok <==>
      && (lat.NaN? || (lat.Fin? && -90.0 <= lat.v <= 90.0))
      && (lng.NaN? || (lng.Fin? && -180.0 <= lng.v <= 180.0))
  {
    if Below(lat, -90.0) || Above(lat, 90.0) then false
    else if Below(lng, -180.0) || Above(lng, 180.0) then false
    else true
  }

  const KoreaLatMin: real := 33.0
  const KoreaLatMax: real := 43.0
  const KoreaLngMin: real := 124.0
  const KoreaLngMax: real := 132.0

  /** `isKoreanCoordinate`: inside the rough bounding box of Korea */
  function IsKoreanCoordinate(lat: Num, lng: Num): (ok: bool)
    ensures ok <==> lat.Fin? && lng.Fin? && 33.0 <= lat.v <= 43.0 && 124.0 <= lng.v <= 132.0
  {
    AtLeast(lat, KoreaLatMin) && AtMost(lat, KoreaLatMax)
    && AtLeast(lng, KoreaLngMin) && AtMost(lng, KoreaLngMax)
  }

  /** Every point of the Korean box is a valid WGS84 coordinate. */
  lemma KoreanIsValid(lat: Num, lng: Num)
    requires IsKoreanCoordinate(lat, lng)
    ensures ValidateCoordinates(lat, lng)
  {
  }

  /** As written, `validateCoordinates` accepts NaN in either position. */
  lemma ValidateAcceptsNaN(lat: Num, lng: Num)
    requires ValidateCoordinates(lat, lng)
    ensures ValidateCoordinates(NaN, lng) && ValidateCoordinates(lat, NaN)
  {
  }

  // ---------------------------------------------------------------------
  // Longitude wrapping

  /** The least integer not below `y` */
  function Ceil(y: real): (n: int)
    ensures y <= n as real < y + 1.0
  {
    -((-y).Floor)
  }

  /** How many times the first loop subtracts 360 from `x` */
  function StepsDown(x: real): (n: nat)
  {
    if x > 180.0 then Ceil((x - 180.0) / 360.0) else 0
  }

  /** How many times the second loop adds 360 to `x` */
  function StepsUp(x: real): (n: nat)
  {
    if x < -180.0 then Ceil((-180.0 - x) / 360.0) else 0
  }

  /** Reference definition of the wrapped longitude, in closed form */
  function WrapLng(x: real): (r: real)
  {
    if x > 180.0 then x - 360.0 * StepsDown(x) as real
    else if x < -180.0 then x + 360.0 * StepsUp(x) as real
    else x
  }

  /** The wrapped longitude is in range and differs from the input by a
      whole number of turns; inputs above 180 land in (-180, 180], inputs
      below -180 in [-180, 180), and inputs in range are untouched. */
  lemma WrapLngProperties(x: real)
    ensures -180.0 <= WrapLng(x) <= 180.0
    ensures WrapLng(x) == x + 360.0 * (StepsUp(x) - StepsDown(x)) as real
    ensures x > 180.0 ==> -180.0 < WrapLng(x)
    ensures x < -180.0 ==> WrapLng(x) < 180.0
    ensures -180.0 <= x <= 180.0 ==> WrapLng(x) == x
  {
  }

  /** Wrapping a wrapped longitude changes nothing. */
  lemma WrapLngIdempotent(x: real)
    ensures WrapLng(WrapLng(x)) == WrapLng(x)
  {
  }

  /** The boundary cases of the longitude wrap. */
  lemma WrapLngExamples()
    ensures WrapLng(190.0) == -170.0 && WrapLng(-190.0) == 170.0
    ensures WrapLng(540.0) == 180.0 && WrapLng(-540.0) == -180.0
    ensures WrapLng(721.0) == 1.0 && WrapLng(-721.0) == -1.0
    ensures WrapLng(180.0) == 180.0 && WrapLng(-180.0) == -180.0
  {
  }

  // ---------------------------------------------------------------------
  // normalizeCoordinates

  datatype Coordinates = Coordinates(lat: Num, lng: Num)

  /** `Math.max(-90, Math.min(90, lat))` */
  function ClampLat(lat: Num): (r: Num)
    ensures lat.NaN? <==> r.NaN?
    ensures !lat.NaN? ==> r.Fin? && -90.0 <= r.v <= 90.0
    ensures lat.Fin? && -90.0 <= lat.v <= 90.0 ==> r == lat
    ensures lat.PosInf? || (lat.Fin? && lat.v > 90.0) ==> r == Fin(90.0)
    ensures lat.NegInf? || (lat.Fin? && lat.v < -90.0) ==> r == Fin(-90.0)
  {
    MaxWith(-90.0, MinWith(90.0, lat))
  }

  /** The longitude as the two loops leave it: NaN passes both guards */
  function WrapNum(lng: Num): Num
    requires !lng.PosInf? && !lng.NegInf?
  {
    match lng
    case Fin(x) => Fin(WrapLng(x))
    case _ => lng
  }

  /** Reference result of `normalizeCoordinates` */
  function Normalized(lat: Num, lng: Num): Coordinates
    requires !lng.PosInf? && !lng.NegInf?
  {
    Coordinates(ClampLat(lat), WrapNum(lng))
  }

  /** `normalizeCoordinates`. An infinite longitude keeps the first or the
      second loop running for ever, so the source can return only for
      finite or NaN longitudes. */
  method NormalizeCoordinates(lat: Num, lng: Num) returns (r: Coordinates)
    requires !lng.PosInf? && !lng.NegInf?
    ensures r == Normalized(lat, lng)
  {
    var normalizedLng := lng;
    ghost var down: nat := 0;
    while Above(normalizedLng, 180.0)
      invariant lng.NaN? ==> normalizedLng.NaN?
      invariant lng.Fin? ==> down <= StepsDown(lng.v) && normalizedLng == Fin(lng.v - 360.0 * down as real)
      decreases if lng.Fin? then StepsDown(lng.v) - down else 0
    {
      normalizedLng := Plus(normalizedLng, -360.0);
      down := down + 1;
    }
    ghost var up: nat := 0;
    while Below(normalizedLng, -180.0)
      invariant lng.NaN? ==> normalizedLng.NaN?
      invariant lng.Fin? ==> down == StepsDown(lng.v) && up <= StepsUp(lng.v)
      invariant lng.Fin? ==> normalizedLng == Fin(lng.v - 360.0 * down as real + 360.0 * up as real)
      decreases if lng.Fin? then StepsUp(lng.v) - up else 0
    {
      normalizedLng := Plus(normalizedLng, 360.0);
      up := up + 1;
    }
    r := Coordinates(ClampLat(lat), normalizedLng);
  }

  /** A normalised finite coordinate always passes `validateCoordinates`,
      and normalising it again changes nothing. */
  lemma NormalizedIsValid(lat: Num, lng: Num)
    requires lat.Fin? && lng.Fin?
    ensures ValidateCoordinates(Normalized(lat, lng).lat, Normalized(lat, lng).lng)
    ensures Normalized(Normalized(lat, lng).lat, Normalized(lat, lng).lng) == Normalized(lat, lng)
  {
  }
}
