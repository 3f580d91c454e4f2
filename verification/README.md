# Food-delivery order fulfilment, modelled in Dafny

This project models the core of a microservice food-delivery system, an
order-fulfilment saga split over five services that exchange events:

- **Order service**: creates orders from a request and the restaurant's
  menu items. It moves an order's status through
  RECEIVED → PREPARING / PAYMENT_FAILED → ASSIGNED → OUT_FOR_DELIVERY → DELIVERED
  as payment and delivery events arrive. On a successful payment it
  announces the order as ready for pickup.
- **Payment service**: a mock provider. It allows at most one transaction per
  order, and a transaction is confirmed once as SUCCESSFUL or FAILED.
  Confirming publishes the payment outcome.
- **Delivery service**: assigns a random available driver once per ready order.
  It caches the driver's live location under `location:<orderId>` with a
  five-minute expiry while the delivery is active, and it tracks delivery
  progress: ASSIGNED → PICKED_UP → DELIVERED, or FAILED_DELIVERY.
- **Driver service**: driver profiles with an availability flag and a last
  position. Position updates are republished as location events.
- **API gateway authentication filter**: forwards public paths. For every
  other path it requires `Authorization: Bearer <token>` with a valid token.

Each service's persistent state is an immutable store datatype holding its
tables as maps and an outbox of the events the service has published, in
order. The order, payment and delivery stores key their rows by database id
and keep the next IDENTITY value; the driver store keys profiles by the
supplied driver id and has no counter; the delivery store also holds the
location cache, keyed by the cache key string. Every operation is a pure function or method. An
operation that can throw returns a `Result`: the new store (or, for
`OrderService.CreateOrder`, the created order beside the new store) on
success, and an `Err` naming the exception, with the store unchanged, on
failure. Consumers that cannot throw, and queries, return the new store
or the value directly; `DeliveryService.DriverLocationConsumer` returns a
`Result` because its single-result repository query can throw. The
gateway filter returns its decision: forward, or reject with a status.

Module layout:

| file | module | what |
|---|---|---|
| wrappers.dfy | Wrappers | `Option`, `Result` |
| text.dfy | Text | `startsWith`, ASCII `equalsIgnoreCase`, `Long.toString` with its inverse |
| events.dfy | Events | the event records shared between services |
| order_service.dfy | OrderService | order creation, the status machine, the four consumers |
| payment_service.dfy | PaymentService | initiation and confirmation |
| delivery_service.dfy | DeliveryService | assignment, location cache, delivery progress |
| driver_service.dfy | DriverService | profiles, availability, location, available-driver query |
| auth_filter.dfy | AuthenticationFilter | the gateway's forward/reject decision |
| saga.dfy | Saga | lemmas that chain the services through their events |

What it shows:

- **Order status.** An order's status only moves forward, whatever events
  arrive, in whatever order, however often. PAYMENT_FAILED and DELIVERED are
  never left. Every consumer is idempotent, and an order is announced as
  ready at most once.
- **Payments and delivery.** Each order has at most one payment transaction
  and at most one delivery assignment. A settled payment is never
  rewritten, and there is exactly one driver-assigned event per assigned
  order.
- **Location cache.** The cache only ever holds locations of orders whose
  delivery is active, and a final delivery status removes the entry.
- **Gateway.** The filter forwards a non-public request exactly when the
  first Authorization value is "Bearer " followed by a token the validator
  accepts.
- **End to end.** One lemma takes an order from payment confirmation to
  DELIVERED, given pickup and delivered events that carry the delivery's
  order id, driver and time (their fields are elided in the source).

## Model

| member | source | states |
|---|---|---|
| OrderService.UpdateOrderStatus | order-service/src/main/java/com/food/delivery/orderservice/service/OrderServiceImpl.java:90-110 | the order gets `newStatus` exactly when it exists and its status is one of the expected ones; otherwise the store is unchanged; other orders, ids and the outbox never change |
| OrderService.DriverAssignedConsumer | order-service/src/main/java/com/food/delivery/orderservice/service/OrderServiceImpl.java:63-71 | only the named order moves, and only PREPARING → ASSIGNED; nothing else changes |
| OrderService.OrderPickedUpConsumer | order-service/src/main/java/com/food/delivery/orderservice/service/OrderServiceImpl.java:73-79 | only the named order moves, and only ASSIGNED → OUT_FOR_DELIVERY |
| OrderService.OrderDeliveredConsumer | order-service/src/main/java/com/food/delivery/orderservice/service/OrderServiceImpl.java:81-87 | only the named order moves, and only OUT_FOR_DELIVERY → DELIVERED |
| OrderService.UpdateOrderStatusBasedOnPayment | order-service/src/main/java/com/food/delivery/orderservice/service/OrderServiceImpl.java:112-143 | outside RECEIVED/PENDING_PAYMENT the order is returned as is with no event; on a case-insensitive "SUCCESSFUL" it becomes PREPARING with exactly one ready event carrying its id and restaurant; any other outcome gives PAYMENT_FAILED and no event; only the status changes, along a table edge |
| OrderService.PaymentOutcomeConsumer | order-service/src/main/java/com/food/delivery/orderservice/service/OrderServiceImpl.java:216-244 | an event for an unknown order, or for one no longer awaiting payment, changes nothing; otherwise the outcome is applied to that order alone and the ready event, if any, is appended |
| OrderService.Consume | order-service/src/main/java/com/food/delivery/orderservice/service/OrderServiceImpl.java:63-87 | any consumed event changes at most the status of the order it names, along an edge of the transition table, and publishes at most one event; an unknown order id changes nothing |
| OrderService.ReachesStartsWithAllowedStep | order-service/src/main/java/com/food/delivery/orderservice/service/OrderServiceImpl.java:63-143 | every forward move the rank order admits begins with an edge the consumers implement, so the rank relation is no coarser than the transition table's closure |
| OrderService.ConsumeAllMovesForward | order-service/src/main/java/com/food/delivery/orderservice/service/OrderServiceImpl.java:63-143 | under any sequence of events every order stays, keeps all fields but status, and its status rank never decreases; a terminal status never changes |
| OrderService.TerminalIsFinal | order-service/src/main/java/com/food/delivery/orderservice/service/OrderServiceImpl.java:90-143 | a PAYMENT_FAILED or DELIVERED order is identical after any sequence of events |
| OrderService.ConsumeIdempotent | order-service/src/main/java/com/food/delivery/orderservice/service/OrderServiceImpl.java:97-121 | delivering the same event twice gives the same store as delivering it once, so no second ready event |
| OrderService.ConsumePreservesReadyAnnouncedOnce | order-service/src/main/java/com/food/delivery/orderservice/service/OrderServiceImpl.java:126-135 | one event keeps "announced ready exactly once iff past payment" true for every order |
| OrderService.ConsumeAllAnnouncesReadyAtMostOnce | order-service/src/main/java/com/food/delivery/orderservice/service/OrderServiceImpl.java:112-143 | after any sequence of events each order has been announced ready at most once |
| OrderService.FindMenuItem | order-service/src/main/java/com/food/delivery/orderservice/service/OrderServiceImpl.java:163-178 | the lookup finds an item exactly when its id is among the returned menu items, and returns an item with that id |
| OrderService.CreateOrder | order-service/src/main/java/com/food/delivery/orderservice/service/OrderServiceImpl.java:147-203 | succeeds iff the menu size matches the distinct requested ids, the menu ids are distinct, and every item is found with positive quantity; a size mismatch reports the missing ids, a repeated menu id is a duplicate error, and otherwise the first rejected item decides the error: not validated when its id is missing from the menu (checked first), non-positive quantity when it is present; every failure saves nothing; on success: a RECEIVED order for user 1 under the next id, one line per request entry with the menu's name and price, total = sum of price × quantity |
| OrderService.SaveNewOrderPreservesInvariants | order-service/src/main/java/com/food/delivery/orderservice/service/OrderServiceImpl.java:167-200 | saving a freshly created RECEIVED order keeps the store invariants and the announcement count |
| PaymentService.InitiatePayment | payment-service/src/main/java/com/food/delivery/paymentservice/service/PaymentService.java:30-55 | fails iff the order already has a transaction; otherwise adds exactly one PENDING transaction with the request's order, amount and currency under the next id and advances the id counter by one, publishes nothing, and echoes these with a gateway URL under the mock prefix |
| PaymentService.ConfirmPayment | payment-service/src/main/java/com/food/delivery/paymentservice/service/PaymentService.java:57-84 | unknown id or non-PENDING transaction fails with the matching error; otherwise the status becomes SUCCESSFUL iff `success` else FAILED, and exactly one event is published and returned, carrying the transaction's order, id and amount, the new status name, and a failure reason exactly when not successful |
| PaymentService.InitiatePreservesValid | payment-service/src/main/java/com/food/delivery/paymentservice/service/PaymentService.java:32-44 | initiation keeps at most one transaction per order and leaves existing transactions unchanged |
| PaymentService.ConfirmPreservesValid | payment-service/src/main/java/com/food/delivery/paymentservice/service/PaymentService.java:63-69 | confirmation keeps the invariant and every status moves only PENDING → settled |
| PaymentService.SecondConfirmFails | payment-service/src/main/java/com/food/delivery/paymentservice/service/PaymentService.java:63-65 | confirming an already confirmed transaction always fails with its settled status |
| PaymentService.SettledIsFinal | payment-service/src/main/java/com/food/delivery/paymentservice/service/PaymentService.java:36-69 | neither operation rewrites a settled transaction |
| DriverService.UpdateAvailability | driver-service/src/main/java/com/food/delivery/driverservice/service/DriverService.java:26-36 | unknown driver fails with not-found; otherwise only that driver's flag and availability time change |
| DriverService.UpdateAvailabilityIdempotent | driver-service/src/main/java/com/food/delivery/driverservice/service/DriverService.java:31-33 | setting the same availability twice leaves the same flag, only the time moves |
| DriverService.UpdateLocation | driver-service/src/main/java/com/food/delivery/driverservice/service/DriverService.java:39-67 | a missing coordinate fails before the lookup, even for an unknown driver; an unknown driver fails with not-found; otherwise position and time are stored, availability is kept, and exactly one event with the same driver, coordinates and time is published |
| DriverService.CreateDriverProfile | driver-service/src/main/java/com/food/delivery/driverservice/service/DriverService.java:71-83 | an existing profile is left untouched; a new one is offline with no position and no location time, has the given vehicle, and its availability time is the creation time |
| DriverService.CreateDriverProfileIdempotent | driver-service/src/main/java/com/food/delivery/driverservice/service/DriverService.java:72-74 | creating a profile twice is the same as creating it once |
| DriverService.FindAvailableDrivers | driver-service/src/main/java/com/food/delivery/driverservice/service/DriverService.java:85-92 | returns exactly the available profiles, each as stored and each once |
| DriverService.OperationsPreserveValid | driver-service/src/main/java/com/food/delivery/driverservice/service/DriverService.java:26-83 | availability updates, location updates and profile creation keep every profile stored under its own driver id |
| DriverService.AvailabilityDecidesListing | driver-service/src/main/java/com/food/delivery/driverservice/service/DriverService.java:26-92 | setting availability adds or removes exactly that driver from the set the available-driver query lists; location updates and new profiles leave that set unchanged |
| DeliveryService.LocationKeyInjective | delivery-service/src/main/java/com/food/delivery/deliveryservice/service/DeliveryService.java:119 | distinct orders have distinct `location:` cache keys |
| DeliveryService.AssignDriverToOrder | delivery-service/src/main/java/com/food/delivery/deliveryservice/service/DeliveryService.java:64-102 | a failed or empty driver lookup changes nothing; a second assignment for the order is refused; otherwise exactly one ASSIGNED row for the order is added under the next id with a driver from the list, and exactly one driver-assigned event naming that driver is published |
| DeliveryService.OrderReadyConsumer | delivery-service/src/main/java/com/food/delivery/deliveryservice/service/DeliveryService.java:51-62 | an order that already has an assignment is ignored; afterwards the order has an assignment iff it had one or drivers were found |
| DeliveryService.AssignPreservesValid | delivery-service/src/main/java/com/food/delivery/deliveryservice/service/DeliveryService.java:84-101 | assignment keeps one row per order, one driver-assigned event per assigned order, and cache entries only for active deliveries |
| DeliveryService.OrderReadyPreservesValid | delivery-service/src/main/java/com/food/delivery/deliveryservice/service/DeliveryService.java:51-62 | the ready consumer keeps the delivery store invariant |
| DeliveryService.RepeatedReadyAssignsOnce | delivery-service/src/main/java/com/food/delivery/deliveryservice/service/DeliveryService.java:56-59 | a redelivered ready event changes nothing once the order is assigned; at most one assignment row and one driver-assigned event per order |
| DeliveryService.DriverLocationConsumer | delivery-service/src/main/java/com/food/delivery/deliveryservice/service/DeliveryService.java:104-148 | no active assignment leaves the store unchanged; exactly one active assignment writes the event's position and time under that order's key with a 300-second expiry; several make the lookup fail; assignments and events never change |
| DeliveryService.LocationPreservesValid | delivery-service/src/main/java/com/food/delivery/deliveryservice/service/DeliveryService.java:113-140 | a location write only creates entries for orders with an active delivery |
| DeliveryService.GetCachedLocationForOrder | delivery-service/src/main/java/com/food/delivery/deliveryservice/service/DeliveryService.java:203-210 | present exactly when the order's key is cached, and then it is that entry |
| DeliveryService.LocationWriteThenRead | delivery-service/src/main/java/com/food/delivery/deliveryservice/service/DeliveryService.java:104-210 | after a location event from a driver whose only active delivery is for an order, the order's location query returns that position and time with the 300-second expiry |
| DeliveryService.CachedLocationOnlyWhileActive | delivery-service/src/main/java/com/food/delivery/deliveryservice/service/DeliveryService.java:113-197 | in a valid store a location is served only for an order with an ASSIGNED or PICKED_UP assignment |
| DeliveryService.RequestsAreExclusive | delivery-service/src/main/java/com/food/delivery/deliveryservice/service/DeliveryService.java:160-177 | no requested status string matches two of PICKED_UP, DELIVERED, FAILED_DELIVERY ignoring case |
| DeliveryService.UpdateDeliveryStatus | delivery-service/src/main/java/com/food/delivery/deliveryservice/service/DeliveryService.java:149-201 | unknown id is the only error; PICKED_UP accepted only from ASSIGNED (stamps pickup, publishes pickup, cache kept); DELIVERED only from PICKED_UP (stamps delivery, publishes delivered, drops the key); FAILED_DELIVERY from any status (no event, drops the key); anything else succeeds with no change; every change follows the delivery transition table and touches only that assignment |
| DeliveryService.UpdateStatusPreservesValid | delivery-service/src/main/java/com/food/delivery/deliveryservice/service/DeliveryService.java:186-197 | status updates keep the invariant: a delivery leaving the active statuses leaves no cache entry |
| DeliveryService.OutOfOrderRequestIsSilentNoOp | delivery-service/src/main/java/com/food/delivery/deliveryservice/service/DeliveryService.java:160-200 | for every status string: one naming DELIVERED (in any case) before pickup, one naming PICKED_UP after it, or one naming none of the three statuses succeeds and changes nothing |
| DeliveryService.FinalStatusClearsLocation | delivery-service/src/main/java/com/food/delivery/deliveryservice/service/DeliveryService.java:168-197 | once a delivery moves to DELIVERED or FAILED_DELIVERY no location is served for its order; every FAILED_DELIVERY request, repeated ones included, and a DELIVERED request after pickup leave the delivery final with no location served |
| AuthenticationFilter.Filter | api-gateway/src/main/java/com/food/delivery/apigateway/filter/AuthenticationFilter.java:35-77 | public paths are forwarded; a missing header gives 401; a non-public request is forwarded iff the first value is "Bearer " + a token the validator accepts, and gets 500 iff the validator throws on that token |
| AuthenticationFilter.BearerTokenUnique | api-gateway/src/main/java/com/food/delivery/apigateway/filter/AuthenticationFilter.java:57-62 | the token cut from a header after "Bearer " is determined by the header |
| AuthenticationFilter.PublicIffListedPrefix | api-gateway/src/main/java/com/food/delivery/apigateway/filter/AuthenticationFilter.java:24-42 | a path is public exactly when it starts with one of the three listed endpoints; the "/actuator/" test adds nothing |
| AuthenticationFilter.DecisionIsOneOfThree | api-gateway/src/main/java/com/food/delivery/apigateway/filter/AuthenticationFilter.java:45-75 | every request is forwarded or answered with 401 or 500, nothing else |
| AuthenticationFilter.PublicIgnoresCredentials | api-gateway/src/main/java/com/food/delivery/apigateway/filter/AuthenticationFilter.java:45-48 | for a public path neither the headers nor the validator matter |
| AuthenticationFilter.OnlyFirstValueCounts | api-gateway/src/main/java/com/food/delivery/apigateway/filter/AuthenticationFilter.java:56 | Authorization values after the first never change the decision |
| Saga.SuccessfulNameIsSuccessful | order-service/src/main/java/com/food/delivery/orderservice/service/OrderServiceImpl.java:126 | the status string the payment service publishes on success is recognised as success by the order service |
| Saga.FailedNameIsNotSuccessful | order-service/src/main/java/com/food/delivery/orderservice/service/OrderServiceImpl.java:137-138 | the status string published on failure is treated as a failure |
| Saga.ConfirmationDecidesOrder | order-service/src/main/java/com/food/delivery/orderservice/service/OrderServiceImpl.java:216-244 | a confirmed payment, handed to the order service, makes an awaiting order PREPARING with one ready event naming its restaurant, or PAYMENT_FAILED with none |
| Saga.AssignedDriverWasAvailable | delivery-service/src/main/java/com/food/delivery/deliveryservice/service/DeliveryService.java:68-93 | when the lookup lists only available drivers, the assigned driver is marked available; an empty list assigns nobody |
| Saga.HappyPath | order-service/src/main/java/com/food/delivery/orderservice/service/OrderServiceImpl.java:63-244 | from a received order with a pending payment: confirm, ready, assign, pick up, deliver, each event handed on, ends with the order DELIVERED, exactly three delivery events, and no cached location |

## Left out

- Message transport: the stream bindings, their names and delivery guarantees. Each service's outbox is the sequence of events it hands to the transport; a consumer is a function applied to one event.
- Databases and repositories become maps. The IDENTITY columns become a `nextId` counter. The `@PrePersist` and `@PreUpdate` timestamps `createdAt` and `updatedAt` are not modelled. The entities' other timestamps come from a `now` parameter.
- Concurrency and transactions: every operation is atomic. The race in which two ready events for one order both pass the existence check is outside the model. The unique order-id column still refuses the second row (`DeliveryService.AssignDriverToOrder` returns `DuplicateAssignment`).
- Randomness. The driver index `ThreadLocalRandom.nextInt(size)` is a `pick` parameter below the list length. The payment UUID is a `providerReference` parameter.
- Remote calls. The restaurant service's menu lookup is the `menu` parameter of `OrderService.CreateOrder`, and its failures are not modelled. The driver-service call is the `DriverLookup` parameter, where a thrown exception is `LookupFailed`.
- Token validation. `JwtUtil`, the user service and the rest of the gateway configuration are not part of this model; `validateToken` is the `validate` parameter with three outcomes: valid, invalid, threw.
- The REST controllers and their mapping of exceptions to HTTP status codes. The comment on each error constructor names the exception it stands for and, where a controller answers it, the status. For order creation, `MissingMenuItems` and `NonPositiveQuantity` are `IllegalArgumentException` (400), while `DuplicateMenuItem` and `ItemNotValidated` are `IllegalStateException` (500).
- Logging and the gateway filter's error-message strings. The strings are never sent to the client.
- Order.java and PaymentTransaction.java are not part of this model. The order and transaction records have the fields the services read and write.
- Money is whole cents (`int`) rather than `BigDecimal`. Coordinates are `real` and no arithmetic is done on them. A field becomes `Option` where the code leaves it unset or sets it to null, and a header value becomes `Option` where it may be absent; a null the code never produces is not represented.
- DeliveryService.DriverLocationConsumer: the cache stores the position as strings in a Redis hash; the model keeps the values and the expiry in a record. Expiry as time passes is not modelled, so `GetCachedLocationForOrder` does not see entries vanish after five minutes. A thrown cache write is swallowed in the source; the model assumes the write succeeds.
- DeliveryService.UpdateDeliveryStatus: the source elides the fields of the pickup and delivered events it builds (`builder()/*...*/.build()`), so the model records only their kind. The requested status is matched with ASCII-only case folding, as described for `OrderService.UpdateOrderStatusBasedOnPayment` below.
- Saga.HappyPath: assumes the elided fields of the pickup and delivered events carry the assignment's order id, its driver and the time of the step, and hands the order service events built from those. Were the fields left unset, the order service's lookup of a null order id would throw and the order would stay ASSIGNED.
- OrderService.UpdateOrderStatusBasedOnPayment: `equalsIgnoreCase` is modelled with ASCII case folding only. Java also folds some non-ASCII characters (for instance U+017F to 'S'), so a status string using them may count as success in Java and as failure here. `DeliveryService.UpdateDeliveryStatus` uses the same folding for the requested status.
- AuthenticationFilter.Filter: the Authorization header is looked up by name ignoring case in the source; the model receives the header's values, or their absence, directly.
- PaymentService.InitiatePayment: the contract does not state the wording of the response message or the text after the gateway URL prefix.
- The read-only queries `getOrderById` and `getOrdersByUserId`, and the response mapping, lie outside the fulfilment core.

## Where the code departs from the intended lifecycle

The intended rules, stated here, are the lifecycle the services are built around. The model follows the code where the two differ:

- Intended: a delivery can fail only while still in progress, that is from ASSIGNED or PICKED_UP. Code: FAILED_DELIVERY is accepted from any delivery status, including DELIVERED and FAILED_DELIVERY.
- Intended, ambiguously: a delivery status request that skips a step, such as DELIVERED while still ASSIGNED, is described both as refused with an invalid-state error and as a no-op reported as "no change". Code: it succeeds and changes nothing, the second reading.
- Intended: a payment outcome is either SUCCESSFUL or FAILED. Code: any status other than a case-insensitive "SUCCESSFUL", including a misspelling, fails the order.
- Intended: a pending-payment status is accepted by the payment consumer where present, without saying when an order enters it. Code: no path sets PENDING_PAYMENT. It is kept in the model because the payment consumer accepts it.
- Intended: a driver has at most one active delivery. Code: nothing enforces this, and several active assignments for one driver make the single-result repository query throw. `DeliveryService.DriverLocationConsumer` models this as an error that changes nothing.
