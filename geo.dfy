/** Values shared by the heuristic engine, the sampling route and the map. */
module Geo {
  import opened JsNumber

  datatype Option<T> = None | Some(value: T) {
    /** `x ?? d` */
    function GetOr(d: T): T {
      match this
      case Some(v) => v
      case None => d
    }
  }

  /** The three travel modes, `'walking' | 'driving' | 'transit'` */
  datatype Mode = Walking | Driving | Transit

  /** A centre that has passed validation: finite degrees */
  datatype Center = Center(lat: real, lng: real)

  /** One GeoJSON position, longitude first */
  datatype Position = Position(lng: Num, lat: Num)

  /** `Math.sin` and `Math.cos`, which the model does not compute */
  datatype Trig = Trig(sin: real -> real, cos: real -> real)

  /** `Math.PI` */
  const Pi: real := 3.141592653589793
}
