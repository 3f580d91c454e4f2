/**
 The driver service: driver profiles with an availability flag and a last
 known position. Position updates are republished as location events for
 the delivery service.
 */
module DriverService {
  import opened Wrappers
  import opened Events

  datatype DriverProfile = DriverProfile(
    driverId: Id,
    vehicleDetails: string,
    currentLatitude: Option<Coordinate>,
    currentLongitude: Option<Coordinate>,
    lastLocationUpdate: Option<Timestamp>,
    available: bool,
    availabilityLastUpdated: Option<Timestamp>)

  /** The profile table and the location events published so far. */
  datatype DriverStore = DriverStore(
    profiles: map<Id, DriverProfile>,
    outbox: seq<DriverLocationUpdatedEvent>)

  datatype DriverError =
    | DriverNotFound(driverId: Id)   // EntityNotFoundException, answered with 404
    | MissingCoordinates             // IllegalArgumentException, answered with 400

  /** Every profile sits under its own driver id. */
  ghost predicate Valid(s: DriverStore) {
    forall id :: id in s.profiles ==> s.profiles[id].driverId == id
  }

  /**
   `updateAvailability`: set the availability flag of an existing driver
   and stamp the time; position and everything else are untouched.
   */
  function UpdateAvailability(s: DriverStore, driverId: Id, available: bool, now: Timestamp)
    : (r: Result<DriverStore, DriverError>)
    ensures driverId !in s.profiles <==> r == Err(DriverNotFound(driverId))
    ensures r.Ok? ==>
              && r.value.outbox == s.outbox
              && r.value.profiles.Keys == s.profiles.Keys
              && r.value.profiles[driverId].available == available
              && r.value.profiles[driverId] ==
                   s.profiles[driverId].(available := available, availabilityLastUpdated := Some(now))
              && forall id :: id in s.profiles && id != driverId ==> r.value.profiles[id] == s.profiles[id]
  {
    if driverId !in s.profiles then
      Err(DriverNotFound(driverId))
    else
      var profile := s.profiles[driverId];
      Ok(s.(profiles := s.profiles[driverId := profile.(available := available, availabilityLastUpdated := Some(now))]))
  }

  /** Setting the same availability twice gives the same flag as setting it once. */
  lemma UpdateAvailabilityIdempotent(s: DriverStore, driverId: Id, available: bool, t1: Timestamp, t2: Timestamp)
    requires UpdateAvailability(s, driverId, available, t1).Ok?
    ensures var once := UpdateAvailability(s, driverId, available, t1).value;
            var twice := UpdateAvailability(once, driverId, available, t2);
            && twice.Ok?
            && twice.value.profiles[driverId] == once.profiles[driverId].(availabilityLastUpdated := Some(t2))
            && twice.value.profiles[driverId].available == available
  {
  }

  /**
   `updateLocation`: reject a missing coordinate before looking the driver
   up; reject an unknown driver; otherwise store the position and time and
   publish one location event carrying them.
   */
  function UpdateLocation(s: DriverStore, driverId: Id, latitude: Option<Coordinate>, longitude: Option<Coordinate>,
                          now: Timestamp)
    : (r: Result<DriverStore, DriverError>)
    ensures latitude.None? || longitude.None? ==> r == Err(MissingCoordinates)
    ensures latitude.Some? && longitude.Some? && driverId !in s.profiles ==> r == Err(DriverNotFound(driverId))
    ensures r.Ok? <==> latitude.Some? && longitude.Some? && driverId in s.profiles
    ensures r.Ok? ==> r.value.profiles.Keys == s.profiles.Keys
    ensures r.Ok? ==>
              var p := r.value.profiles[driverId];
              && p == s.profiles[driverId].(currentLatitude := latitude, currentLongitude := longitude,
                                            lastLocationUpdate := Some(now))
              && p.available == s.profiles[driverId].available
              && (forall id :: id in s.profiles && id != driverId ==> r.value.profiles[id] == s.profiles[id])
              && r.value.outbox == s.outbox + [DriverLocationUpdatedEvent(driverId, latitude.value, longitude.value, now)]
  {
    if latitude.None? || longitude.None? then
      Err(MissingCoordinates)
    else if driverId !in s.profiles then
      Err(DriverNotFound(driverId))
    else
      var profile := s.profiles[driverId];
      var moved := profile.(currentLatitude := latitude, currentLongitude := longitude, lastLocationUpdate := Some(now));
      Ok(s.(profiles := s.profiles[driverId := moved],
            outbox := s.outbox + [DriverLocationUpdatedEvent(driverId, latitude.value, longitude.value, now)]))
  }

  /**
   `createDriverProfile`: a new driver starts offline with no position,
   its availability time stamped on first save; an existing profile is
   left exactly as it is.
   */
  function CreateDriverProfile(s: DriverStore, driverId: Id, vehicleDetails: string, now: Timestamp)
    : (r: DriverStore)
    ensures r.outbox == s.outbox
    ensures r.profiles.Keys == s.profiles.Keys + {driverId}
    ensures driverId in s.profiles ==> r == s
    ensures driverId !in s.profiles ==>
              && r.profiles[driverId].driverId == driverId
              && r.profiles[driverId].vehicleDetails == vehicleDetails
              && !r.profiles[driverId].available
              && r.profiles[driverId].currentLatitude.None?
              && r.profiles[driverId].currentLongitude.None?
              && r.profiles[driverId].lastLocationUpdate.None?
              && r.profiles[driverId].availabilityLastUpdated == Some(now)
              && forall id :: id in s.profiles ==> r.profiles[id] == s.profiles[id]
  {
    if driverId in s.profiles then
      s
    else
      var profile := DriverProfile(driverId, vehicleDetails, None, None, None, false, Some(now));
      s.(profiles := s.profiles[driverId := profile])
  }

  /** Creating the same profile twice is the same as creating it once. */
  lemma CreateDriverProfileIdempotent(s: DriverStore, driverId: Id, vehicleDetails: string, other: string,
                                      t1: Timestamp, t2: Timestamp)
    ensures var once := CreateDriverProfile(s, driverId, vehicleDetails, t1);
            CreateDriverProfile(once, driverId, other, t2) == once
  {
  }

  /** The ids of the drivers currently marked available. */
  function AvailableIds(s: DriverStore): set<Id> {
    set id | id in s.profiles && s.profiles[id].available
  }

  /** The driver ids a list of profiles mentions. */
  function IdsOf(drivers: seq<DriverProfile>): set<Id> {
    set d | d in drivers :: d.driverId
  }

  /**
   `findAvailableDrivers`: list every available profile once, in whatever
   order the repository yields them, and no other profile.
   */
  method FindAvailableDrivers(s: DriverStore) returns (drivers: seq<DriverProfile>)
    requires Valid(s)
    ensures IdsOf(drivers) == AvailableIds(s)
    ensures forall i :: 0 <= i < |drivers| ==> drivers[i].driverId in s.profiles
                                               && s.profiles[drivers[i].driverId] == drivers[i]
    ensures forall i, j :: 0 <= i < j < |drivers| ==> drivers[i].driverId != drivers[j].driverId
  {
    drivers := [];
    var remaining := s.profiles.Keys;
    while remaining != {}
      invariant remaining <= s.profiles.Keys
      invariant IdsOf(drivers) == AvailableIds(s) - remaining
      invariant forall i :: 0 <= i < |drivers| ==> drivers[i].driverId in s.profiles
                                                   && s.profiles[drivers[i].driverId] == drivers[i]
      invariant forall i, j :: 0 <= i < j < |drivers| ==> drivers[i].driverId != drivers[j].driverId
      decreases remaining
    {
      NonEmptyHasElement(remaining);
      var id :| id in remaining;
      if s.profiles[id].available {
        IdsOfAppend(drivers, s.profiles[id]);
        drivers := drivers + [s.profiles[id]];
      }
      remaining := remaining - {id};
    }
  }

  /**
   How each operation changes the set of drivers the available-driver
   query lists: setting availability adds or removes exactly that driver,
   while a location update or a new (offline) profile leaves the set as it
   was.
   */
  lemma AvailabilityDecidesListing(s: DriverStore, driverId: Id, available: bool, vehicleDetails: string,
                                   latitude: Option<Coordinate>, longitude: Option<Coordinate>, now: Timestamp)
    ensures var r := UpdateAvailability(s, driverId, available, now);
            r.Ok? ==> AvailableIds(r.value) == if available then AvailableIds(s) + {driverId}
                                               else AvailableIds(s) - {driverId}
    ensures var r := UpdateLocation(s, driverId, latitude, longitude, now);
            r.Ok? ==> AvailableIds(r.value) == AvailableIds(s)
    ensures AvailableIds(CreateDriverProfile(s, driverId, vehicleDetails, now)) == AvailableIds(s)
  {
  }

  /** Every operation keeps each profile under its own driver id. */
  lemma OperationsPreserveValid(s: DriverStore, driverId: Id, available: bool, vehicleDetails: string,
                                latitude: Option<Coordinate>, longitude: Option<Coordinate>, now: Timestamp)
    requires Valid(s)
    ensures var r := UpdateAvailability(s, driverId, available, now);
            r.Ok? ==> Valid(r.value)
    ensures var r := UpdateLocation(s, driverId, latitude, longitude, now);
            r.Ok? ==> Valid(r.value)
    ensures Valid(CreateDriverProfile(s, driverId, vehicleDetails, now))
  {
  }

  lemma NonEmptyHasElement(ids: set<Id>)
    requires ids != {}
    ensures exists id :: id in ids
  {
    if forall id :: id !in ids {
      assert false;
    }
  }

  lemma IdsOfAppend(drivers: seq<DriverProfile>, d: DriverProfile)
    ensures IdsOf(drivers + [d]) == IdsOf(drivers) + {d.driverId}
  {
  }
}
