/**
 The delivery service: driver assignment, the live-location cache, and
 delivery progress.

 A ready-for-pickup event assigns a randomly chosen available driver once
 per order. Location events from a driver with an active assignment are
 written to a cache entry keyed by that order; reaching a final delivery
 status removes the entry. Status updates follow a small transition table
 and publish pickup and delivered events for the order service.
 */
module DeliveryService {
  import opened Wrappers
  import opened Events
  import Text

  /** The assignment status strings, one constructor per string. */
  datatype DeliveryStatus =
    | Assigned        // "ASSIGNED"
    | PickedUp        // "PICKED_UP"
    | Delivered       // "DELIVERED"
    | FailedDelivery  // "FAILED_DELIVERY"

  datatype DeliveryAssignment = DeliveryAssignment(
    id: Id,
    orderId: Id,
    driverId: Id,
    status: DeliveryStatus,
    assignedAt: Timestamp,
    pickedUpAt: Option<Timestamp>,
    deliveredAt: Option<Timestamp>)

  /** The fields of a location cache entry and the expiry it was last given. */
  datatype CachedLocation = CachedLocation(
    latitude: Coordinate,
    longitude: Coordinate,
    timestamp: Timestamp,
    ttlSeconds: nat)

  /**
   What the service publishes. The fields of the pickup and delivered
   events are elided in the source, so only their kind is recorded.
   */
  datatype DeliveryOutcome =
    | DriverAssigned(event: DriverAssignedEvent)
    | OrderPickedUp
    | OrderDelivered

  /**
   The assignment table, the next identity value, the location cache
   (key to entry) and the events published so far.
   */
  datatype DeliveryStore = DeliveryStore(
    assignments: map<Id, DeliveryAssignment>,
    nextId: Id,
    cache: map<string, CachedLocation>,
    outbox: seq<DeliveryOutcome>)

  /** The answer of the driver service to "which drivers are available?". */
  datatype DriverLookup =
    | LookupFailed                     // the remote call threw
    | AvailableDrivers(driverIds: seq<Id>)

  datatype DeliveryError =
    | AssignmentNotFound(assignmentId: Id)      // EntityNotFoundException, answered with 404
    | DuplicateAssignment(orderId: Id)          // DataIntegrityViolationException: the unique order id column rejects a second row
    | NonUniqueActiveAssignment(driverId: Id)   // IncorrectResultSizeDataAccessException: the single-result driver query found several rows

  const LocationCachePrefix := "location:"

  /** Five minutes. */
  const LocationCacheTtlSeconds: nat := 300

  /** The cache key of an order's location entry. */
  function LocationKey(orderId: Id): string {
    LocationCachePrefix + Text.IntToString(orderId)
  }

  /** Distinct orders never share a cache entry. */
  lemma LocationKeyInjective(a: Id, b: Id)
    ensures LocationKey(a) == LocationKey(b) ==> a == b
  {
    Text.PrefixedIntInjective(LocationCachePrefix, a, b);
  }

  /** `assignmentRepository.findByOrderId(orderId).isPresent()`. */
  predicate HasAssignmentFor(s: DeliveryStore, orderId: Id) {
    exists id :: id in s.assignments && s.assignments[id].orderId == orderId
  }

  /** An assignment whose driver is still on the way. */
  predicate IsActive(a: DeliveryAssignment) {
    a.status == Assigned || a.status == PickedUp
  }

  /** `key` is the cache key of an order with an active assignment. */
  predicate KeyOfActiveOrder(s: DeliveryStore, key: string) {
    exists id :: id in s.assignments && IsActive(s.assignments[id]) && LocationKey(s.assignments[id].orderId) == key
  }

  /** How many driver-assigned events in `log` name `orderId`. */
  function CountAssigned(log: seq<DeliveryOutcome>, orderId: Id): nat
    decreases |log|
  {
    if |log| == 0 then 0
    else
      var last := log[|log| - 1];
      CountAssigned(log[..|log| - 1], orderId) + (if last.DriverAssigned? && last.event.orderId == orderId then 1 else 0)
  }

  /**
   The store invariant: rows sit under their own ids below the next
   identity value; at most one assignment per order; an order has had
   exactly one driver-assigned event if it has an assignment and none
   otherwise; and every cache entry belongs to an order whose assignment
   is still active.
   */
  ghost predicate Valid(s: DeliveryStore) {
    && (forall id :: id in s.assignments ==> s.assignments[id].id == id && id < s.nextId)
    && (forall a, b :: a in s.assignments && b in s.assignments && a != b ==>
          s.assignments[a].orderId != s.assignments[b].orderId)
    && (forall o :: CountAssigned(s.outbox, o) == if HasAssignmentFor(s, o) then 1 else 0)
    && (forall key :: key in s.cache ==> KeyOfActiveOrder(s, key))
  }

  // ---------------------------------------------------------------------
  // Driver assignment
  // ---------------------------------------------------------------------

  /** The random index into a non-empty driver list is in range. */
  predicate PickInRange(lookup: DriverLookup, pick: nat) {
    lookup.AvailableDrivers? && |lookup.driverIds| > 0 ==> pick < |lookup.driverIds|
  }

  predicate FoundDrivers(lookup: DriverLookup) {
    lookup.AvailableDrivers? && |lookup.driverIds| > 0
  }

  /**
   `assignDriverToOrder`: when the driver service answers with at least
   one driver, save one ASSIGNED row for the order with the driver at
   index `pick` and publish one driver-assigned event naming that driver.
   A failed or empty lookup does nothing. Saving a second row for the
   same order violates the unique order id and fails before publishing.
   */
  function AssignDriverToOrder(s: DeliveryStore, orderId: Id, lookup: DriverLookup, pick: nat, now: Timestamp)
    : (r: Result<DeliveryStore, DeliveryError>)
    requires PickInRange(lookup, pick)
    ensures !FoundDrivers(lookup) ==> r == Ok(s)
    ensures FoundDrivers(lookup) && HasAssignmentFor(s, orderId) ==> r == Err(DuplicateAssignment(orderId))
    ensures FoundDrivers(lookup) && !HasAssignmentFor(s, orderId) ==> r.Ok? && s.nextId in r.value.assignments
    ensures FoundDrivers(lookup) && !HasAssignmentFor(s, orderId) ==>
              var s' := r.value;
                 var a := s'.assignments[s.nextId];
                 && s'.assignments.Keys == s.assignments.Keys + {s.nextId}
                 && (forall id :: id in s.assignments && id != s.nextId ==> s'.assignments[id] == s.assignments[id])
                 && a == DeliveryAssignment(s.nextId, orderId, a.driverId, Assigned, now, None, None)
                 && a.driverId in lookup.driverIds
                 && s'.nextId == s.nextId + 1
                 && s'.cache == s.cache
                 && s'.outbox == s.outbox + [DriverAssigned(DriverAssignedEvent(orderId, a.driverId))]
  {
    if !FoundDrivers(lookup) then
      Ok(s)
    else if HasAssignmentFor(s, orderId) then
      Err(DuplicateAssignment(orderId))
    else
      var driverId := lookup.driverIds[pick];
      var assignment := DeliveryAssignment(s.nextId, orderId, driverId, Assigned, now, None, None);
      Ok(s.(assignments := s.assignments[s.nextId := assignment],
            nextId := s.nextId + 1,
            outbox := s.outbox + [DriverAssigned(DriverAssignedEvent(orderId, driverId))]))
  }

  /**
   `orderReadyConsumer`: ignore the event when the order already has an
   assignment, otherwise try to assign a driver.
   */
  function OrderReadyConsumer(s: DeliveryStore, e: OrderReadyForPickupEvent, lookup: DriverLookup, pick: nat,
                              now: Timestamp)
    : (r: DeliveryStore)
    requires PickInRange(lookup, pick)
    ensures HasAssignmentFor(s, e.orderId) || !FoundDrivers(lookup) ==> r == s
    ensures HasAssignmentFor(r, e.orderId) <==> HasAssignmentFor(s, e.orderId) || FoundDrivers(lookup)
    ensures !HasAssignmentFor(s, e.orderId) && FoundDrivers(lookup) ==>
              r == AssignDriverToOrder(s, e.orderId, lookup, pick, now).value
  {
    if HasAssignmentFor(s, e.orderId) then
      s
    else
      var r := AssignDriverToOrder(s, e.orderId, lookup, pick, now).value;
      assert FoundDrivers(lookup) ==> r.assignments[s.nextId].orderId == e.orderId;
      r
  }

  /** Assignment keeps the store invariant. */
  lemma AssignPreservesValid(s: DeliveryStore, orderId: Id, lookup: DriverLookup, pick: nat, now: Timestamp)
    requires Valid(s) && PickInRange(lookup, pick)
    ensures var r := AssignDriverToOrder(s, orderId, lookup, pick, now);
            r.Ok? ==> Valid(r.value)
  {
  }

  /** The ready consumer keeps the store invariant. */
  lemma OrderReadyPreservesValid(s: DeliveryStore, e: OrderReadyForPickupEvent, lookup: DriverLookup, pick: nat,
                                 now: Timestamp)
    requires Valid(s) && PickInRange(lookup, pick)
    ensures Valid(OrderReadyConsumer(s, e, lookup, pick, now))
  {
  }

  /**
   However often the ready event for an order is delivered, and whatever
   the driver service answers each time, the order gets at most one
   assignment and at most one driver-assigned event; once it has one,
   further deliveries change nothing.
   */
  lemma RepeatedReadyAssignsOnce(s: DeliveryStore, e: OrderReadyForPickupEvent,
                                 l1: DriverLookup, p1: nat, t1: Timestamp,
                                 l2: DriverLookup, p2: nat, t2: Timestamp)
    requires Valid(s) && PickInRange(l1, p1) && PickInRange(l2, p2)
    ensures var once := OrderReadyConsumer(s, e, l1, p1, t1);
            var twice := OrderReadyConsumer(once, e, l2, p2, t2);
            && (HasAssignmentFor(once, e.orderId) ==> twice == once)
            && CountAssigned(twice.outbox, e.orderId) <= 1
            && forall a, b ::
                 (a in twice.assignments && b in twice.assignments &&
                  twice.assignments[a].orderId == e.orderId && twice.assignments[b].orderId == e.orderId) ==> a == b
  {
  }

  // ---------------------------------------------------------------------
  // Location cache
  // ---------------------------------------------------------------------

  /** The ids of the driver's active assignments (`findByDriverIdAndStatusIn`). */
  function ActiveAssignmentsOf(s: DeliveryStore, driverId: Id): set<Id> {
    set id | id in s.assignments && s.assignments[id].driverId == driverId && IsActive(s.assignments[id])
  }

  lemma SingletonHasOneElement(ids: set<Id>)
    requires |ids| == 1
    ensures exists id :: id in ids
    ensures forall a, b :: a in ids && b in ids ==> a == b
  {
    if forall id :: id !in ids {
      assert false;
    }
    forall a, b | a in ids && b in ids
      ensures a == b
    {
      if a != b {
        assert {a, b} <= ids;
        assert |{a, b}| == 2;
        SubsetCardinality({a, b}, ids);
        assert false;
      }
    }
  }

  lemma SubsetCardinality(small: set<Id>, big: set<Id>)
    requires small <= big
    ensures |small| <= |big|
  {
    assert big == small + (big - small);
  }

  /**
   `driverLocationConsumer`: when the driver has one active assignment,
   write the reported position and time under that order's cache key with
   a five-minute expiry; with no active assignment nothing is cached.
   Several active assignments make the single-result query throw.
   */
  function DriverLocationConsumer(s: DeliveryStore, e: DriverLocationUpdatedEvent)
    : (r: Result<DeliveryStore, DeliveryError>)
    ensures ActiveAssignmentsOf(s, e.driverId) == {} ==> r == Ok(s)
    ensures |ActiveAssignmentsOf(s, e.driverId)| > 1 <==> r == Err(NonUniqueActiveAssignment(e.driverId))
    ensures r.Ok? ==>
              && r.value.assignments == s.assignments
              && r.value.nextId == s.nextId
              && r.value.outbox == s.outbox
    ensures |ActiveAssignmentsOf(s, e.driverId)| == 1 ==>
              exists id :: id in ActiveAssignmentsOf(s, e.driverId) &&
                r == Ok(s.(cache := s.cache[LocationKey(s.assignments[id].orderId) :=
                           CachedLocation(e.latitude, e.longitude, e.timestamp, LocationCacheTtlSeconds)]))
  {
    var active := ActiveAssignmentsOf(s, e.driverId);
    if active == {} then
      Ok(s)
    else if |active| > 1 then
      Err(NonUniqueActiveAssignment(e.driverId))
    else
      SingletonHasOneElement(active);
      var id :| id in active;
      var key := LocationKey(s.assignments[id].orderId);
      Ok(s.(cache := s.cache[key := CachedLocation(e.latitude, e.longitude, e.timestamp, LocationCacheTtlSeconds)]))
  }

  /** Location updates keep the store invariant. */
  lemma LocationPreservesValid(s: DeliveryStore, e: DriverLocationUpdatedEvent)
    requires Valid(s)
    ensures var r := DriverLocationConsumer(s, e);
            r.Ok? ==> Valid(r.value)
  {
  }

  /** `getCachedLocationForOrder`: the cached entry of the order, if its key is present. */
  function GetCachedLocationForOrder(s: DeliveryStore, orderId: Id): (r: Option<CachedLocation>)
    ensures r.Some? <==> LocationKey(orderId) in s.cache
    ensures r.Some? ==> r.value == s.cache[LocationKey(orderId)]
  {
    var key := LocationKey(orderId);
    if key in s.cache then Some(s.cache[key]) else None
  }

  /** In a valid store a location is only ever served for an order whose delivery is under way. */
  lemma CachedLocationOnlyWhileActive(s: DeliveryStore, orderId: Id)
    requires Valid(s)
    requires GetCachedLocationForOrder(s, orderId).Some?
    ensures exists id :: id in s.assignments && s.assignments[id].orderId == orderId && IsActive(s.assignments[id])
  {
    var id :| id in s.assignments && IsActive(s.assignments[id])
              && LocationKey(s.assignments[id].orderId) == LocationKey(orderId);
    LocationKeyInjective(s.assignments[id].orderId, orderId);
  }

  /**
   A location written for a driver's only active delivery is what the
   order's location query then returns, with the five-minute expiry.
   */
  lemma LocationWriteThenRead(s: DeliveryStore, e: DriverLocationUpdatedEvent, assignmentId: Id)
    requires assignmentId in s.assignments
    requires ActiveAssignmentsOf(s, e.driverId) == {assignmentId}
    ensures var r := DriverLocationConsumer(s, e);
            && r.Ok?
            && GetCachedLocationForOrder(r.value, s.assignments[assignmentId].orderId)
                 == Some(CachedLocation(e.latitude, e.longitude, e.timestamp, LocationCacheTtlSeconds))
  {
  }

  // ---------------------------------------------------------------------
  // Delivery progress
  // ---------------------------------------------------------------------

  predicate RequestsPickedUp(newStatus: string) {
    Text.EqualsIgnoreCase("PICKED_UP", newStatus)
  }

  predicate RequestsDelivered(newStatus: string) {
    Text.EqualsIgnoreCase("DELIVERED", newStatus)
  }

  predicate RequestsFailedDelivery(newStatus: string) {
    Text.EqualsIgnoreCase("FAILED_DELIVERY", newStatus)
  }

  /** A requested status string names at most one of the three statuses. */
  lemma RequestsAreExclusive(newStatus: string)
    ensures RequestsPickedUp(newStatus) ==> !RequestsDelivered(newStatus) && !RequestsFailedDelivery(newStatus)
    ensures RequestsDelivered(newStatus) ==> !RequestsFailedDelivery(newStatus)
  {
    if RequestsPickedUp(newStatus) {
      assert Text.ToUpperAscii(newStatus[0]) == 'P';
    }
  }

  /**
   The delivery transition table as the code implements it: PICKED_UP
   from ASSIGNED, DELIVERED from PICKED_UP, and FAILED_DELIVERY from any
   status, including the final ones.
   */
  predicate DeliveryStepAllowed(from: DeliveryStatus, to: DeliveryStatus) {
    || from == to
    || (from == Assigned && to == PickedUp)
    || (from == PickedUp && to == Delivered)
    || to == FailedDelivery
  }

  /**
   `updateDeliveryStatus`: an unknown assignment is an error. A pickup
   request is accepted only from ASSIGNED and publishes a pickup event; a
   delivered request only from PICKED_UP, publishing a delivered event
   and dropping the order's cache entry; a failed-delivery request from
   any status, publishing nothing and dropping the cache entry. Any other
   request succeeds without changing anything.
   */
  function UpdateDeliveryStatus(s: DeliveryStore, assignmentId: Id, newStatus: string, now: Timestamp)
    : (r: Result<DeliveryStore, DeliveryError>)
    ensures assignmentId !in s.assignments <==> r.Err?
    ensures r.Err? ==> r.error == AssignmentNotFound(assignmentId)
    ensures r.Ok? ==> assignmentId in r.value.assignments
    ensures r.Ok? ==>
              var a := s.assignments[assignmentId];
              var a' := r.value.assignments[assignmentId];
              var key := LocationKey(a.orderId);
              && r.value.assignments.Keys == s.assignments.Keys
              && (forall id :: id in s.assignments && id != assignmentId ==> r.value.assignments[id] == s.assignments[id])
              && r.value.nextId == s.nextId
              && a'.orderId == a.orderId && a'.driverId == a.driverId && a'.assignedAt == a.assignedAt
              && DeliveryStepAllowed(a.status, a'.status)
              && (if RequestsPickedUp(newStatus) && a.status == Assigned then
                    && a' == a.(status := PickedUp, pickedUpAt := Some(now))
                    && r.value.outbox == s.outbox + [OrderPickedUp]
                    && r.value.cache == s.cache
                  else if RequestsDelivered(newStatus) && a.status == PickedUp then
                    && a' == a.(status := Delivered, deliveredAt := Some(now))
                    && r.value.outbox == s.outbox + [OrderDelivered]
                    && r.value.cache == s.cache - {key}
                  else if RequestsFailedDelivery(newStatus) then
                    && a' == a.(status := FailedDelivery)
                    && r.value.outbox == s.outbox
                    && r.value.cache == s.cache - {key}
                  else
                    r.value == s)
  {
    if assignmentId !in s.assignments then
      Err(AssignmentNotFound(assignmentId))
    else
      var a := s.assignments[assignmentId];
      var key := LocationKey(a.orderId);
      if RequestsPickedUp(newStatus) && a.status == Assigned then
        Ok(s.(assignments := s.assignments[assignmentId := a.(status := PickedUp, pickedUpAt := Some(now))],
              outbox := s.outbox + [OrderPickedUp]))
      else if RequestsDelivered(newStatus) && a.status == PickedUp then
        Ok(s.(assignments := s.assignments[assignmentId := a.(status := Delivered, deliveredAt := Some(now))],
              outbox := s.outbox + [OrderDelivered],
              cache := s.cache - {key}))
      else if RequestsFailedDelivery(newStatus) then
        Ok(s.(assignments := s.assignments[assignmentId := a.(status := FailedDelivery)],
              cache := s.cache - {key}))
      else
        Ok(s)
  }

  /** Status updates keep the store invariant; in particular a final status leaves no cache entry behind. */
  lemma UpdateStatusPreservesValid(s: DeliveryStore, assignmentId: Id, newStatus: string, now: Timestamp)
    requires Valid(s)
    ensures var r := UpdateDeliveryStatus(s, assignmentId, newStatus, now);
            r.Ok? ==> Valid(r.value)
  {
  }

  /**
   Asking to deliver an order that was never picked up, or to pick up one
   already past pickup, in any spelling the case-insensitive test accepts,
   is neither an error nor a change: the request succeeds and nothing
   happens. So is a request naming none of the three statuses.
   */
  lemma OutOfOrderRequestIsSilentNoOp(s: DeliveryStore, assignmentId: Id, newStatus: string, now: Timestamp)
    requires assignmentId in s.assignments
    ensures RequestsDelivered(newStatus) && s.assignments[assignmentId].status != PickedUp ==>
              UpdateDeliveryStatus(s, assignmentId, newStatus, now) == Ok(s)
    ensures RequestsPickedUp(newStatus) && s.assignments[assignmentId].status != Assigned ==>
              UpdateDeliveryStatus(s, assignmentId, newStatus, now) == Ok(s)
    ensures !RequestsPickedUp(newStatus) && !RequestsDelivered(newStatus) && !RequestsFailedDelivery(newStatus) ==>
              UpdateDeliveryStatus(s, assignmentId, newStatus, now) == Ok(s)
  {
    RequestsAreExclusive(newStatus);
  }

  /**
   After a delivery reaches a final status no location is served for its
   order, and so after every FAILED_DELIVERY request, repeated ones
   included, and every DELIVERED request made after pickup.
   */
  lemma FinalStatusClearsLocation(s: DeliveryStore, assignmentId: Id, newStatus: string, now: Timestamp)
    requires assignmentId in s.assignments
    ensures var r := UpdateDeliveryStatus(s, assignmentId, newStatus, now);
            var orderId := s.assignments[assignmentId].orderId;
            var st := r.value.assignments[assignmentId].status;
            st != s.assignments[assignmentId].status && (st == Delivered || st == FailedDelivery) ==>
              GetCachedLocationForOrder(r.value, orderId).None?
    ensures var r := UpdateDeliveryStatus(s, assignmentId, newStatus, now);
            var orderId := s.assignments[assignmentId].orderId;
            RequestsFailedDelivery(newStatus) || (RequestsDelivered(newStatus) && s.assignments[assignmentId].status == PickedUp) ==>
              && r.value.assignments[assignmentId].status in {Delivered, FailedDelivery}
              && GetCachedLocationForOrder(r.value, orderId).None?
  {
    RequestsAreExclusive(newStatus);
  }
}
