/**
 Identifiers, scalar values and the event records the services exchange
 over the message bus. Each record has the fields of its event class.
 The payment, order and driver services set every field they publish;
 where the delivery service builds the pickup and delivered events, the
 source elides the fields it sets.
 */
module Events {
  import opened Wrappers

  /** Database identifiers (`Long`). */
  type Id = int

  /** Monetary amounts (`BigDecimal`) in the smallest currency unit. */
  type Money = int

  /** Latitude or longitude (`Double`); the services store and forward them without arithmetic. */
  type Coordinate = real

  /** A `LocalDateTime` reading, supplied by the caller in place of the clock. */
  type Timestamp = int

  /** Order service to delivery service: payment succeeded, the kitchen is preparing. */
  datatype OrderReadyForPickupEvent = OrderReadyForPickupEvent(orderId: Id, restaurantId: Id)

  /** Payment service to order service: the outcome of confirming a transaction. */
  datatype PaymentOutcomeEvent = PaymentOutcomeEvent(
    orderId: Id,
    status: string,
    transactionId: Id,
    amount: Money,
    failureReason: Option<string>)

  /** Delivery service to order service: a driver was assigned to the order. */
  datatype DriverAssignedEvent = DriverAssignedEvent(orderId: Id, driverId: Id)

  /** The pickup notification as the order service reads it; the publisher's field values are elided in the source. */
  datatype OrderPickedUpEvent = OrderPickedUpEvent(orderId: Id, driverId: Id, timestamp: Timestamp)

  /** The delivered notification as the order service reads it; the publisher's field values are elided in the source. */
  datatype OrderDeliveredEvent = OrderDeliveredEvent(orderId: Id, driverId: Id, timestamp: Timestamp)

  /** Driver service to delivery service: a driver reported a new position. */
  datatype DriverLocationUpdatedEvent = DriverLocationUpdatedEvent(
    driverId: Id,
    latitude: Coordinate,
    longitude: Coordinate,
    timestamp: Timestamp)
}
