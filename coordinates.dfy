/**
 * The coordinate helpers of the frontend (frontend/src/utils/coordinates.ts). A JavaScript
 * number is a finite real or one of NaN, +Infinity and -Infinity; comparisons with NaN are
 * false, as in JavaScript.
 */
module Coordinates {
  import opened Wrappers

  datatype Num = Finite(value: real) | NaN | PosInf | NegInf

  predicate IsNaN(x: Num) {
    x.NaN?
  }

  predicate IsFinite(x: Num) {
    x.Finite?
  }

  /** `x >= bound` for a finite bound. */
  predicate AtLeast(x: Num, bound: real) {
    match x
    case Finite(v) => v >= bound
    case PosInf => true
    case _ => false
  }

  /** `x <= bound` for a finite bound. */
  predicate AtMost(x: Num, bound: real) {
    match x
    case Finite(v) => v <= bound
    case NegInf => true
    case _ => false
  }

  /** validateLatitude: a finite number in [-90, 90]. */
  function ValidateLatitude(lat: Num): (r: bool)
    ensures r <==> lat.Finite? && -90.0 <= lat.value <= 90.0
  {
    !IsNaN(lat) && IsFinite(lat) && AtLeast(lat, -90.0) && AtMost(lat, 90.0)
  }

  /** validateLongitude: a finite number in [-180, 180]. */
  function ValidateLongitude(lng: Num): (r: bool)
    ensures r <==> lng.Finite? && -180.0 <= lng.value <= 180.0
  {
    !IsNaN(lng) && IsFinite(lng) && AtLeast(lng, -180.0) && AtMost(lng, 180.0)
  }

  /** validateCoordinates: both halves finite and inside their ranges. */
  function ValidateCoordinates(lat: Num, lng: Num): (r: bool)
    ensures r <==> lat.Finite? && lng.Finite? && -90.0 <= lat.value <= 90.0 && -180.0 <= lng.value <= 180.0
  {
    ValidateLatitude(lat) && ValidateLongitude(lng)
  }

  /** isValidJapanCoordinate: a valid pair inside the box lat 24..46, lng 123..146. */
  function IsValidJapanCoordinate(lat: Num, lng: Num): (r: bool)
    ensures r ==> ValidateCoordinates(lat, lng)
    ensures r <==> lat.Finite? && lng.Finite? && 24.0 <= lat.value <= 46.0 && 123.0 <= lng.value <= 146.0
  {
    if !ValidateCoordinates(lat, lng) then false
    else AtLeast(lat, 24.0) && AtMost(lat, 46.0) && AtLeast(lng, 123.0) && AtMost(lng, 146.0)
  }

  /** The argument of normalizeCoordinates: which of the four keys are present, with their values. */
  datatype CoordObject = CoordObject(lat: Option<Num>, lng: Option<Num>, latitude: Option<Num>, longitude: Option<Num>)

  /** The two errors normalizeCoordinates throws. */
  datatype NormalizeError = InvalidObject | InvalidCoordinates(badLat: Num, badLng: Num)

  /** normalizeCoordinates: [lat, lng] from either key form, lat/lng first; invalid values throw. */
  function NormalizeCoordinates(coords: CoordObject): (r: Result<(Num, Num), NormalizeError>)
    ensures coords.lat.Some? && coords.lng.Some? ==>
      r == if ValidateCoordinates(coords.lat.value, coords.lng.value) then Success((coords.lat.value, coords.lng.value))
           else Failure(InvalidCoordinates(coords.lat.value, coords.lng.value))
    ensures !(coords.lat.Some? && coords.lng.Some?) && coords.latitude.Some? && coords.longitude.Some? ==>
      r == if ValidateCoordinates(coords.latitude.value, coords.longitude.value) then Success((coords.latitude.value, coords.longitude.value))
           else Failure(InvalidCoordinates(coords.latitude.value, coords.longitude.value))
    ensures r == Failure(InvalidObject) <==>
      !(coords.lat.Some? && coords.lng.Some?) && !(coords.latitude.Some? && coords.longitude.Some?)
    ensures r.Success? ==> ValidateCoordinates(r.value.0, r.value.1)
  {
    var pair :=
      if coords.lat.Some? && coords.lng.Some? then Some((coords.lat.value, coords.lng.value))
      else if coords.latitude.Some? && coords.longitude.Some? then Some((coords.latitude.value, coords.longitude.value))
      else None;
    match pair
    case None => Failure(InvalidObject)
    case Some(p) =>
      if !ValidateCoordinates(p.0, p.1) then Failure(InvalidCoordinates(p.0, p.1))
      else Success(p)
  }

  /** The boundary cases of the unit tests: ±90 and ±180 accepted, 91, 181, NaN and Infinity rejected. */
  lemma RangeBoundaries()
    ensures ValidateLatitude(Finite(90.0)) && ValidateLatitude(Finite(-90.0)) && ValidateLatitude(Finite(34.6775))
    ensures !ValidateLatitude(Finite(91.0)) && !ValidateLatitude(Finite(-91.0)) && !ValidateLatitude(NaN) && !ValidateLatitude(PosInf)
    ensures ValidateLongitude(Finite(180.0)) && ValidateLongitude(Finite(-180.0)) && ValidateLongitude(Finite(135.8328))
    ensures !ValidateLongitude(Finite(181.0)) && !ValidateLongitude(Finite(-181.0)) && !ValidateLongitude(NaN) && !ValidateLongitude(PosInf)
  {
  }

  /**
   * Nara's coordinates are accepted in order and rejected when swapped; Japan's box holds
   * Nara, Tokyo and Sapporo but not Null Island or New York.
   */
  lemma NaraExamples()
    ensures ValidateCoordinates(Finite(34.6775), Finite(135.8328))
    ensures !ValidateCoordinates(Finite(135.8328), Finite(34.6775))
    ensures ValidateCoordinates(Finite(0.0), Finite(0.0))
    ensures IsValidJapanCoordinate(Finite(34.6775), Finite(135.8328))
    ensures IsValidJapanCoordinate(Finite(35.6762), Finite(139.6503))
    ensures IsValidJapanCoordinate(Finite(43.0642), Finite(141.3469))
    ensures !IsValidJapanCoordinate(Finite(0.0), Finite(0.0))
    ensures !IsValidJapanCoordinate(Finite(40.7128), Finite(-74.0060))
  {
  }

  /** Both key forms give [lat, lng]; the lat/lng form wins when both are present. */
  lemma NormalizeKeyForms(lat: Num, lng: Num, otherLat: Num, otherLng: Num)
    requires ValidateCoordinates(lat, lng)
    ensures NormalizeCoordinates(CoordObject(Some(lat), Some(lng), None, None)) == Success((lat, lng))
    ensures NormalizeCoordinates(CoordObject(None, None, Some(lat), Some(lng))) == Success((lat, lng))
    ensures NormalizeCoordinates(CoordObject(Some(lat), Some(lng), Some(otherLat), Some(otherLng))) == Success((lat, lng))
  {
  }

  /** Out-of-range values throw, and so does an object with neither key pair. */
  lemma NormalizeRejects(value: Num)
    ensures NormalizeCoordinates(CoordObject(Some(Finite(91.0)), Some(Finite(135.8328)), None, None)) ==
      Failure(InvalidCoordinates(Finite(91.0), Finite(135.8328)))
    ensures NormalizeCoordinates(CoordObject(Some(Finite(34.6775)), Some(Finite(181.0)), None, None)) ==
      Failure(InvalidCoordinates(Finite(34.6775), Finite(181.0)))
    ensures NormalizeCoordinates(CoordObject(Some(value), None, None, Some(value))) == Failure(InvalidObject)
  {
  }
}
