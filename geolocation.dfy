/**
 * The location-update logic of the useGeolocation hook, in its current version
 * (frontend/src/hooks/useGeolocation.ts) and its legacy version
 * (frontend-old/src/hooks/useGeolocation.ts). The hook's React state and its refs are the
 * fields of one object. The browser's clock, its geolocation callbacks and the Haversine
 * distance are parameters.
 */
module Geolocation {
  import opened Wrappers

  datatype Version = Current | Legacy

  datatype LatLng = LatLng(lat: real, lng: real)

  /** The parts of a GeolocationPosition the hook reads. */
  datatype Position = Position(latitude: real, longitude: real, accuracy: real)

  /** The distance in metres between (lat1, lng1) and (lat2, lng2); left uninterpreted. */
  type Distance = (real, real, real, real) -> real

  /** The minimum time between two accepted updates, in milliseconds. */
  const MinInterval: int := 5000

  /** The default `distanceThreshold` option, in metres. */
  const DefaultDistanceThreshold: real := 10.0

  /** The worst accuracy, in metres, a gated position may have. */
  function MaxAccuracy(version: Version): real {
    match version
    case Current => 1000.0
    case Legacy => 100.0
  }

  function NewLocation(position: Position): LatLng {
    LatLng(position.latitude, position.longitude)
  }

  /** The distance between the last accepted location and a new position. */
  function Moved(distance: Distance, last: LatLng, position: Position): real {
    distance(last.lat, last.lng, position.latitude, position.longitude)
  }

  /** shouldUpdateLocation: whether a position reported by the browser is accepted. */
  function ShouldUpdate(version: Version, last: Option<LatLng>, lastUpdateTime: int, now: int,
                        position: Position, distance: Distance, threshold: real): (r: bool)
    ensures r ==> last.None? || now - lastUpdateTime >= MinInterval
    ensures r && last.Some? ==> position.accuracy <= MaxAccuracy(version) && Moved(distance, last.value, position) >= threshold
  {
    match version
    case Current =>
      if last.None? then true
      else if now - lastUpdateTime < MinInterval then false
      else if position.accuracy > MaxAccuracy(version) then false
      else if Moved(distance, last.value, position) < threshold then false
      else true
    case Legacy =>
      if now - lastUpdateTime < MinInterval then false
      else if position.accuracy > MaxAccuracy(version) then false
      else if last.Some? && Moved(distance, last.value, position) < threshold then false
      else true
  }

  /** The gate of the current hook, as one condition: a first fix always passes, later ones pass every check. */
  lemma CurrentGate(last: Option<LatLng>, lastUpdateTime: int, now: int, position: Position, distance: Distance, threshold: real)
    ensures ShouldUpdate(Current, last, lastUpdateTime, now, position, distance, threshold) <==>
      last.None? ||
      (now - lastUpdateTime >= 5000 && position.accuracy <= 1000.0 && Moved(distance, last.value, position) >= threshold)
  {
  }

  /** The gate of the legacy hook: time and accuracy always apply, the distance only after a first fix. */
  lemma LegacyGate(last: Option<LatLng>, lastUpdateTime: int, now: int, position: Position, distance: Distance, threshold: real)
    ensures ShouldUpdate(Legacy, last, lastUpdateTime, now, position, distance, threshold) <==>
      now - lastUpdateTime >= 5000 && position.accuracy <= 100.0 &&
      (last.Some? ==> Moved(distance, last.value, position) >= threshold)
  {
  }

  /**
   * The two versions treat a first fix differently. Well past the 5000 ms interval, a
   * 500 m-accurate first position is accepted by the current hook and rejected by the
   * legacy one for its accuracy alone, while a 50 m-accurate one is accepted by both.
   */
  lemma FirstFixDiffers(distance: Distance, threshold: real)
    ensures ShouldUpdate(Current, None, 0, 10000, Position(34.6775, 135.8328, 500.0), distance, threshold)
    ensures !ShouldUpdate(Legacy, None, 0, 10000, Position(34.6775, 135.8328, 500.0), distance, threshold)
    ensures ShouldUpdate(Legacy, None, 0, 10000, Position(34.6775, 135.8328, 50.0), distance, threshold)
  {
  }

  /** Once a position is accepted at time `now`, no later position is accepted for 5000 ms. */
  lemma AcceptedThenQuiet(version: Version, accepted: Position, now: int, later: int,
                          position: Position, distance: Distance, threshold: real)
    requires later - now < MinInterval
    ensures !ShouldUpdate(version, Some(NewLocation(accepted)), now, later, position, distance, threshold)
  {
  }

  const GenericFailure := "位置情報の取得に失敗しました"
  const PermissionDenied := "位置情報の使用が拒否されました。" + "ブラウザの設定を確認してください。"
  const Unavailable := "位置情報が利用できません。"
  const UnavailableHint := Unavailable + "GPS信号を確認してください。"
  const TimedOut := "位置情報の取得がタイムアウトしました。"
  const TimedOutHint := TimedOut + "もう一度お試しください。"
  const Unsupported := "この環境では位置情報がサポートされていません"

  /** handleLocationError: the message shown for a GeolocationPositionError code. */
  function ErrorMessage(version: Version, code: int): (r: string)
    ensures code == 1 ==> r == PermissionDenied
    ensures code == 2 ==> r == (if version == Current then UnavailableHint else Unavailable)
    ensures code == 3 ==> r == (if version == Current then TimedOutHint else TimedOut)
    ensures code !in {1, 2, 3} ==> r == GenericFailure
  {
    if code == 1 then PermissionDenied
    else if code == 2 then (match version case Current => UnavailableHint case Legacy => Unavailable)
    else if code == 3 then (match version case Current => TimedOutHint case Legacy => TimedOut)
    else GenericFailure
  }

  lemma {:induction false} MessagesDiffer()
    ensures GenericFailure != PermissionDenied && GenericFailure != Unavailable && GenericFailure != TimedOut
    ensures PermissionDenied != Unavailable && PermissionDenied != TimedOut && Unavailable != TimedOut
    ensures UnavailableHint != Unavailable && TimedOutHint != TimedOut
    ensures UnavailableHint != GenericFailure && UnavailableHint != PermissionDenied && UnavailableHint != TimedOutHint
    ensures TimedOutHint != GenericFailure && TimedOutHint != PermissionDenied
  {
    assert GenericFailure[4] == 'の' && PermissionDenied[4] == 'の' && Unavailable[4] == 'が' && TimedOut[4] == 'の';
    assert GenericFailure[5] == '取' && PermissionDenied[5] == '使' && TimedOut[5] == '取';
    assert |GenericFailure| == 14 && |TimedOut| == 19;
    assert |Unavailable| < |UnavailableHint| && |TimedOut| < |TimedOutHint|;
    assert UnavailableHint[4] == 'が' && TimedOutHint[4] == 'の' && TimedOutHint[5] == '取';
  }

  /** Each error code of a given version has its own message. */
  lemma ErrorMessagesDistinct(version: Version, code1: int, code2: int)
    requires code1 in {1, 2, 3} || code2 in {1, 2, 3}
    requires code1 != code2
    ensures ErrorMessage(version, code1) != ErrorMessage(version, code2)
  {
    MessagesDiffer();
  }

  /** What centerOnLocation does. */
  datatype CenterAction = Refresh | Nothing

  class GeolocationHook {
    const version: Version
    const distanceThreshold: real
    /** React state. */
    var location: Option<LatLng>
    var error: Option<string>
    var isLoading: bool
    var accuracy: Option<real>
    var lastUpdated: Option<int>
    /** lastLocationRef and lastUpdateTimeRef. */
    var lastLocation: Option<LatLng>
    var lastUpdateTime: int

    /** Every handler sets the location state and the refs together, from one clock value. */
    ghost predicate Valid()
      reads this
    {
      lastLocation == location &&
      (location.Some? <==> accuracy.Some?) &&
      lastUpdated == (if location.Some? then Some(lastUpdateTime) else None) &&
      (location.None? ==> lastUpdateTime == 0)
    }

    /** The hook's initial state; `distanceThreshold` defaults to 10 metres. */
    constructor (version: Version, distanceThreshold: real)
      ensures Valid()
      ensures this.version == version && this.distanceThreshold == distanceThreshold
      ensures location == None && error == None && isLoading && accuracy == None && lastUpdated == None
      ensures lastLocation == None && lastUpdateTime == 0
    {
      this.version := version;
      this.distanceThreshold := distanceThreshold;
      location := None;
      error := None;
      isLoading := true;
      accuracy := None;
      lastUpdated := None;
      lastLocation := None;
      lastUpdateTime := 0;
    }

    /** The state change of an accepted or refreshed position. */
    method Accept(position: Position, now: int)
      modifies this
      ensures location == Some(NewLocation(position)) && accuracy == Some(position.accuracy)
      ensures lastUpdated == Some(now) && error == None && !isLoading
      ensures lastLocation == Some(NewLocation(position)) && lastUpdateTime == now
      ensures Valid()
    {
      location := Some(NewLocation(position));
      accuracy := Some(position.accuracy);
      lastUpdated := Some(now);
      error := None;
      isLoading := false;
      lastLocation := location;
      lastUpdateTime := now;
    }

    /** handleLocationUpdate: a gated position; a rejected one changes nothing. */
    method HandleLocationUpdate(position: Position, now: int, distance: Distance) returns (accepted: bool)
      requires Valid()
      modifies this
      ensures Valid()
      ensures accepted == ShouldUpdate(version, old(lastLocation), old(lastUpdateTime), now, position, distance, distanceThreshold)
      ensures !accepted ==> unchanged(this)
      ensures accepted ==> location == Some(NewLocation(position)) && accuracy == Some(position.accuracy) &&
                           lastUpdated == Some(now) && error == None && !isLoading &&
                           lastLocation == location && lastUpdateTime == now
    {
      accepted := ShouldUpdate(version, lastLocation, lastUpdateTime, now, position, distance, distanceThreshold);
      if accepted {
        Accept(position, now);
      }
    }

    /** handleLocationError: the message for `code` is shown and loading stops. */
    method HandleLocationError(code: int)
      requires Valid()
      modifies this
      ensures Valid()
      ensures error == Some(ErrorMessage(version, code)) && !isLoading
      ensures location == old(location) && accuracy == old(accuracy) && lastUpdated == old(lastUpdated)
      ensures lastLocation == old(lastLocation) && lastUpdateTime == old(lastUpdateTime)
    {
      error := Some(ErrorMessage(version, code));
      isLoading := false;
    }

    /**
     * startLocationTracking, up to the browser calls: without geolocation support it shows
     * an error; otherwise it starts loading, and the browser later calls
     * HandleLocationUpdate or HandleLocationError.
     */
    method StartLocationTracking(available: bool)
      requires Valid()
      modifies this
      ensures Valid()
      ensures !available ==> error == Some(Unsupported) && !isLoading
      ensures available ==> error == None && isLoading
      ensures location == old(location) && accuracy == old(accuracy) && lastUpdated == old(lastUpdated)
      ensures lastLocation == old(lastLocation) && lastUpdateTime == old(lastUpdateTime)
    {
      if !available {
        error := Some(Unsupported);
        isLoading := false;
      } else {
        isLoading := true;
        error := None;
      }
    }

    /**
     * refreshLocation: a fresh position bypasses the gate; a failure goes to
     * HandleLocationError; without geolocation support nothing happens.
     */
    method RefreshLocation(available: bool, outcome: Result<Position, int>, now: int)
      requires Valid()
      modifies this
      ensures Valid()
      ensures !available ==> unchanged(this)
      ensures available && outcome.Success? ==>
        location == Some(NewLocation(outcome.value)) && accuracy == Some(outcome.value.accuracy) &&
        lastUpdated == Some(now) && error == None && !isLoading &&
        lastLocation == location && lastUpdateTime == now
      ensures available && outcome.Failure? ==>
        error == Some(ErrorMessage(version, outcome.error)) && !isLoading &&
        location == old(location) && accuracy == old(accuracy) && lastUpdated == old(lastUpdated) &&
        lastLocation == old(lastLocation) && lastUpdateTime == old(lastUpdateTime)
    {
      if !available {
        return;
      }
      isLoading := true;
      match outcome
      case Success(position) =>
        Accept(position, now);
      case Failure(code) =>
        HandleLocationError(code);
    }

    /**
     * centerOnLocation. The hook never assigns onLocationCenterRef, so the handler branch
     * cannot be taken and is not modelled: with a location nothing happens, without one the
     * location is refreshed.
     */
    method CenterOnLocation(available: bool, outcome: Result<Position, int>, now: int) returns (action: CenterAction)
      requires Valid()
      modifies this
      ensures Valid()
      ensures action == (if old(location).Some? then Nothing else Refresh)
      ensures action == Nothing ==> unchanged(this)
      ensures action == Refresh && !available ==> unchanged(this)
      ensures action == Refresh && available && outcome.Success? ==>
        location == Some(NewLocation(outcome.value)) && accuracy == Some(outcome.value.accuracy) &&
        lastUpdated == Some(now) && error == None && !isLoading &&
        lastLocation == location && lastUpdateTime == now
      ensures action == Refresh && available && outcome.Failure? ==>
        error == Some(ErrorMessage(version, outcome.error)) && !isLoading &&
        location == None && accuracy == old(accuracy) && lastUpdated == old(lastUpdated) &&
        lastLocation == old(lastLocation) && lastUpdateTime == old(lastUpdateTime)
    {
      if location.None? {
        action := Refresh;
        RefreshLocation(available, outcome, now);
      } else {
        action := Nothing;
      }
    }
  }
}
