/**
 The order-fulfilment saga across services: how the outcome of one
 service's operation, delivered as an event, drives the next one.

 Payment confirmation feeds the order service; the order's ready event
 feeds driver assignment; driver assignment and delivery progress feed
 the order service back. The source elides the fields of the pickup and
 delivered events; here they are given the order id, driver and time of
 the delivery step that published them.
 */
module Saga {
  import opened Events
  import OrderService
  import PaymentService
  import DeliveryService
  import DriverService

  lemma SuccessfulNameIsSuccessful()
    ensures OrderService.IsSuccessfulOutcome(PaymentService.StatusName(PaymentService.Successful))
  {
  }

  lemma FailedNameIsNotSuccessful()
    ensures !OrderService.IsSuccessfulOutcome(PaymentService.StatusName(PaymentService.Failed))
  {
  }

  /**
   Confirming the payment of an order that is still awaiting it decides
   the order: a successful confirmation starts preparation and announces
   the order, with its restaurant, as ready for pickup; a failed one fails
   the order and announces nothing.
   */
  lemma ConfirmationDecidesOrder(ps: PaymentService.PaymentStore, os: OrderService.OrderStore,
                                 transactionId: Id, success: bool)
    requires PaymentService.ConfirmPayment(ps, transactionId, success).Ok?
    requires ps.transactions[transactionId].orderId in os.orders
    requires os.orders[ps.transactions[transactionId].orderId].status in OrderService.ProcessableForPayment
    ensures var event := PaymentService.ConfirmPayment(ps, transactionId, success).value.1;
            var order := os.orders[event.orderId];
            var os' := OrderService.PaymentOutcomeConsumer(os, event);
            && event.orderId == ps.transactions[transactionId].orderId
            && (success ==>
                  && os'.orders[event.orderId].status == OrderService.Preparing
                  && os'.outbox == os.outbox + [OrderReadyForPickupEvent(order.id, order.restaurantId)])
            && (!success ==>
                  && os'.orders[event.orderId].status == OrderService.PaymentFailed
                  && os'.outbox == os.outbox)
  {
  }

  /** The driver ids of a profile list, in list order, as the driver client hands them on. */
  function ListedIds(list: seq<DriverService.DriverProfile>): (ids: seq<Id>)
    ensures |ids| == |list|
    ensures forall i :: 0 <= i < |list| ==> ids[i] == list[i].driverId
  {
    seq(|list|, i requires 0 <= i < |list| => list[i].driverId)
  }

  /**
   The driver a ready event assigns comes from the driver service's list
   of available drivers, so it is a driver marked available; with no
   driver listed, the ready event leaves the delivery store as it was.
   The list is any one the available-driver query may answer: exactly the
   available drivers.
   */
  lemma AssignedDriverWasAvailable(ds: DeliveryService.DeliveryStore, drivers: DriverService.DriverStore,
                                   e: OrderReadyForPickupEvent, list: seq<DriverService.DriverProfile>,
                                   pick: nat, now: Timestamp)
    requires DriverService.IdsOf(list) == DriverService.AvailableIds(drivers)
    requires |list| > 0 ==> pick < |list|
    requires !DeliveryService.HasAssignmentFor(ds, e.orderId)
    ensures var ds' := DeliveryService.OrderReadyConsumer(ds, e, DeliveryService.AvailableDrivers(ListedIds(list)), pick, now);
            |list| > 0 ==>
              && ds.nextId in ds'.assignments
              && var driverId := ds'.assignments[ds.nextId].driverId;
                 && driverId in drivers.profiles
                 && drivers.profiles[driverId].available
    ensures |list| == 0 ==>
              DeliveryService.OrderReadyConsumer(ds, e, DeliveryService.AvailableDrivers(ListedIds(list)), pick, now) == ds
  {
    if |list| > 0 {
      assert list[pick] in list;
      assert ListedIds(list)[pick] in DriverService.IdsOf(list);
    }
  }

  /**
   The whole saga for one order, from a pending payment to delivery.
   Starting from a received order, its pending transaction, and a
   delivery store without an assignment for it: confirm the payment, hand
   the outcome to the order service, hand the ready event to the delivery
   service (which finds at least one driver), hand the driver assignment
   back, then mark the delivery picked up and delivered, handing each
   event back in turn. The order ends DELIVERED, the delivery service has
   published exactly assignment, pickup and delivery, and no location is
   served for the order any more.
   */
  lemma HappyPath(ps: PaymentService.PaymentStore, os: OrderService.OrderStore, ds: DeliveryService.DeliveryStore,
                  transactionId: Id, driverIds: seq<Id>, pick: nat, t1: Timestamp, t2: Timestamp, t3: Timestamp)
    requires OrderService.Valid(os)
    requires transactionId in ps.transactions && ps.transactions[transactionId].status == PaymentService.Pending
    requires ps.transactions[transactionId].orderId in os.orders
    requires os.orders[ps.transactions[transactionId].orderId].status == OrderService.Received
    requires !DeliveryService.HasAssignmentFor(ds, ps.transactions[transactionId].orderId)
    requires pick < |driverIds|
    ensures
      var paid := PaymentService.ConfirmPayment(ps, transactionId, true).value.1;
      var os1 := OrderService.PaymentOutcomeConsumer(os, paid);
      var ds1 := DeliveryService.OrderReadyConsumer(ds, os1.outbox[|os1.outbox| - 1],
                                                    DeliveryService.AvailableDrivers(driverIds), pick, t1);
      |os1.outbox| > 0 && ds.nextId in ds1.assignments
    ensures
      var orderId := ps.transactions[transactionId].orderId;
      var paid := PaymentService.ConfirmPayment(ps, transactionId, true).value.1;
      var os1 := OrderService.PaymentOutcomeConsumer(os, paid);
      var ready := os1.outbox[|os1.outbox| - 1];
      var ds1 := DeliveryService.OrderReadyConsumer(ds, ready, DeliveryService.AvailableDrivers(driverIds), pick, t1);
      var assignment := ds1.assignments[ds.nextId];
      var os2 := OrderService.DriverAssignedConsumer(os1, DriverAssignedEvent(orderId, assignment.driverId));
      var ds2 := DeliveryService.UpdateDeliveryStatus(ds1, ds.nextId, "PICKED_UP", t2).value;
      var os3 := OrderService.OrderPickedUpConsumer(os2, OrderPickedUpEvent(orderId, assignment.driverId, t2));
      var ds3 := DeliveryService.UpdateDeliveryStatus(ds2, ds.nextId, "DELIVERED", t3).value;
      var os4 := OrderService.OrderDeliveredConsumer(os3, OrderDeliveredEvent(orderId, assignment.driverId, t3));
      && ready == OrderReadyForPickupEvent(orderId, os.orders[orderId].restaurantId)
      && assignment.orderId == orderId
      && assignment.driverId in driverIds
      && os4.orders[orderId] == os.orders[orderId].(status := OrderService.Delivered)
      && ds3.outbox == ds.outbox + [DeliveryService.DriverAssigned(DriverAssignedEvent(orderId, assignment.driverId)),
                                    DeliveryService.OrderPickedUp, DeliveryService.OrderDelivered]
      && ds3.assignments[ds.nextId].status == DeliveryService.Delivered
      && DeliveryService.GetCachedLocationForOrder(ds3, orderId).None?
  {
  }
}
