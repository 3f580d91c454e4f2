/**
 The order service: order creation and the order side of the fulfilment saga.

 Orders live in a store keyed by id. Four event consumers move an order's
 status forward through a guarded compare-and-set; the payment-outcome
 consumer additionally announces that the order is ready for pickup.
 Every consumer drops events for unknown orders and events that arrive in
 the wrong status, so duplicates and stale events change nothing.
 */
module OrderService {
  import opened Wrappers
  import opened Events
  import Text

  /** The status strings the service writes, one constructor per string. */
  datatype OrderStatus =
    | Received        // "RECEIVED"
    | PendingPayment  // "PENDING_PAYMENT"
    | Preparing       // "PREPARING"
    | PaymentFailed   // "PAYMENT_FAILED"
    | Assigned        // "ASSIGNED"
    | OutForDelivery  // "OUT_FOR_DELIVERY"
    | Delivered       // "DELIVERED"

  /** One order line: the menu item's name and unit price are snapshots taken at creation. */
  datatype OrderItem = OrderItem(menuItemId: Id, itemName: string, quantity: int, pricePerItem: Money)

  datatype Order = Order(
    id: Id,
    userId: Id,
    restaurantId: Id,
    items: seq<OrderItem>,
    totalAmount: Money,
    deliveryAddressSnapshot: string,
    status: OrderStatus)

  /**
   The order table, the next identity value the database hands out, and
   the ready-for-pickup events published so far.
   */
  datatype OrderStore = OrderStore(
    orders: map<Id, Order>,
    nextId: Id,
    outbox: seq<OrderReadyForPickupEvent>)

  /** Every stored order sits under its own id, below the next identity value. */
  ghost predicate Valid(s: OrderStore) {
    forall id :: id in s.orders ==> s.orders[id].id == id && id < s.nextId
  }

  /** The events the order service consumes. */
  datatype InboundEvent =
    | PaymentOutcome(payment: PaymentOutcomeEvent)
    | DriverAssigned(assignment: DriverAssignedEvent)
    | OrderPickedUp(pickedUp: OrderPickedUpEvent)
    | OrderDelivered(delivered: OrderDeliveredEvent)
  {
    function OrderId(): Id {
      match this
      case PaymentOutcome(e) => e.orderId
      case DriverAssigned(e) => e.orderId
      case OrderPickedUp(e) => e.orderId
      case OrderDelivered(e) => e.orderId
    }
  }

  // ---------------------------------------------------------------------
  // The status machine
  // ---------------------------------------------------------------------

  /** Position along the fulfilment chain. */
  function Rank(st: OrderStatus): nat {
    match st
    case Received => 0
    case PendingPayment => 0
    case Preparing => 1
    case PaymentFailed => 1
    case Assigned => 2
    case OutForDelivery => 3
    case Delivered => 4
  }

  predicate Terminal(st: OrderStatus) {
    st == PaymentFailed || st == Delivered
  }

  /** The transition table: one consumed event moves a status along one of these edges or not at all. */
  predicate Allowed(from: OrderStatus, to: OrderStatus) {
    || from == to
    || ((from == Received || from == PendingPayment) && (to == Preparing || to == PaymentFailed))
    || (from == Preparing && to == Assigned)
    || (from == Assigned && to == OutForDelivery)
    || (from == OutForDelivery && to == Delivered)
  }

  /**
   Where a status can end up after any number of events: it stays put, or
   it is not terminal and moves strictly up the chain.
   */
  predicate Reaches(from: OrderStatus, to: OrderStatus) {
    from == to || (!Terminal(from) && Rank(from) < Rank(to))
  }

  lemma AllowedReaches(a: OrderStatus, b: OrderStatus)
    requires Allowed(a, b)
    ensures Reaches(a, b)
  {
  }

  lemma ReachesTransitive(a: OrderStatus, b: OrderStatus, c: OrderStatus)
    requires Reaches(a, b) && Reaches(b, c)
    ensures Reaches(a, c)
  {
  }

  /**
   `Reaches` is no larger than the reflexive-transitive closure of the
   table: every move it admits starts with an edge of the table.
   */
  lemma ReachesStartsWithAllowedStep(a: OrderStatus, b: OrderStatus)
    requires Reaches(a, b) && a != b
    ensures exists c :: a != c && Allowed(a, c) && Reaches(c, b)
  {
    match a
    case Received =>
      if b == PaymentFailed { assert Allowed(a, PaymentFailed) && Reaches(PaymentFailed, b); }
      else { assert Allowed(a, Preparing) && Reaches(Preparing, b); }
    case PendingPayment =>
      if b == PaymentFailed { assert Allowed(a, PaymentFailed) && Reaches(PaymentFailed, b); }
      else { assert Allowed(a, Preparing) && Reaches(Preparing, b); }
    case Preparing => assert Allowed(a, Assigned) && Reaches(Assigned, b);
    case Assigned => assert Allowed(a, OutForDelivery) && Reaches(OutForDelivery, b);
    case OutForDelivery => assert Allowed(a, Delivered) && Reaches(Delivered, b);
  }

  // ---------------------------------------------------------------------
  // Guarded status update shared by the delivery-event consumers
  // ---------------------------------------------------------------------

  /**
   `updateOrderStatus`: set the status of `orderId` to `newStatus` when the
   order exists and its current status is one of `expected`; otherwise
   leave the store as it is (an unknown id is only logged).
   */
  function UpdateOrderStatus(s: OrderStore, orderId: Id, newStatus: OrderStatus, expected: seq<OrderStatus>): (r: OrderStore)
    ensures r.outbox == s.outbox && r.nextId == s.nextId && r.orders.Keys == s.orders.Keys
    ensures forall id :: id in s.orders && id != orderId ==> r.orders[id] == s.orders[id]
    ensures orderId in s.orders && s.orders[orderId].status in expected ==>
              r.orders[orderId] == s.orders[orderId].(status := newStatus)
    ensures !(orderId in s.orders && s.orders[orderId].status in expected) ==> r == s
  {
    if orderId in s.orders && s.orders[orderId].status in expected then
      s.(orders := s.orders[orderId := s.orders[orderId].(status := newStatus)])
    else
      s
  }

  /**
   `r` is `s` with order `orderId` moved from `from` to `to` when it was in
   `from`; no other order, no other field and no outbox entry changes.
   */
  predicate MovesOnly(s: OrderStore, r: OrderStore, orderId: Id, from: OrderStatus, to: OrderStatus) {
    && r.outbox == s.outbox && r.nextId == s.nextId && r.orders.Keys == s.orders.Keys
    && forall id :: id in s.orders ==>
         r.orders[id] == if id == orderId && s.orders[id].status == from then s.orders[id].(status := to) else s.orders[id]
  }

  /** `driverAssignedConsumer`: PREPARING becomes ASSIGNED. */
  function DriverAssignedConsumer(s: OrderStore, e: DriverAssignedEvent): (r: OrderStore)
    ensures MovesOnly(s, r, e.orderId, Preparing, Assigned)
  {
    UpdateOrderStatus(s, e.orderId, Assigned, [Preparing])
  }

  /** `orderPickedUpConsumer`: ASSIGNED becomes OUT_FOR_DELIVERY. */
  function OrderPickedUpConsumer(s: OrderStore, e: OrderPickedUpEvent): (r: OrderStore)
    ensures MovesOnly(s, r, e.orderId, Assigned, OutForDelivery)
  {
    UpdateOrderStatus(s, e.orderId, OutForDelivery, [Assigned])
  }

  /** `orderDeliveredConsumer`: OUT_FOR_DELIVERY becomes DELIVERED. */
  function OrderDeliveredConsumer(s: OrderStore, e: OrderDeliveredEvent): (r: OrderStore)
    ensures MovesOnly(s, r, e.orderId, OutForDelivery, Delivered)
  {
    UpdateOrderStatus(s, e.orderId, Delivered, [OutForDelivery])
  }

  // ---------------------------------------------------------------------
  // Payment outcome
  // ---------------------------------------------------------------------

  /** The statuses in which a payment outcome is still relevant. */
  const ProcessableForPayment: seq<OrderStatus> := [PendingPayment, Received]

  /** `"SUCCESSFUL".equalsIgnoreCase(status)`; every other status string counts as a failure. */
  predicate IsSuccessfulOutcome(status: string) {
    Text.EqualsIgnoreCase("SUCCESSFUL", status)
  }

  /**
   `updateOrderStatusBasedOnPayment`: for an order still awaiting payment,
   a successful outcome starts preparation and announces the order as
   ready for pickup; any other outcome fails the order. An order in any
   other status is returned unchanged with nothing to publish.
   */
  function UpdateOrderStatusBasedOnPayment(order: Order, e: PaymentOutcomeEvent): (r: (Order, seq<OrderReadyForPickupEvent>))
    ensures r.0 == order.(status := r.0.status)
    ensures Allowed(order.status, r.0.status)
    ensures |r.1| <= 1
    ensures |r.1| == 1 <==> order.status in ProcessableForPayment && IsSuccessfulOutcome(e.status)
    ensures |r.1| == 1 ==> r.1[0] == OrderReadyForPickupEvent(order.id, order.restaurantId) && r.0.status == Preparing
    ensures order.status in ProcessableForPayment && !IsSuccessfulOutcome(e.status) ==> r.0.status == PaymentFailed
    ensures order.status !in ProcessableForPayment ==> r.0 == order
  {
    if order.status !in ProcessableForPayment then
      (order, [])
    else if IsSuccessfulOutcome(e.status) then
      (order.(status := Preparing), [OrderReadyForPickupEvent(order.id, order.restaurantId)])
    else
      (order.(status := PaymentFailed), [])
  }

  /**
   `paymentOutcomeConsumer`: drop the event when the order is unknown or no
   longer awaiting payment, otherwise apply the outcome and publish what it
   produces.
   */
  function PaymentOutcomeConsumer(s: OrderStore, e: PaymentOutcomeEvent): (r: OrderStore)
    ensures r.nextId == s.nextId && r.orders.Keys == s.orders.Keys
    ensures forall id :: id in s.orders && id != e.orderId ==> r.orders[id] == s.orders[id]
    ensures !(e.orderId in s.orders && s.orders[e.orderId].status in ProcessableForPayment) ==> r == s
    ensures e.orderId in s.orders && s.orders[e.orderId].status in ProcessableForPayment ==>
              var order := s.orders[e.orderId];
              if IsSuccessfulOutcome(e.status) then
                && r.orders[e.orderId] == order.(status := Preparing)
                && r.outbox == s.outbox + [OrderReadyForPickupEvent(order.id, order.restaurantId)]
              else
                && r.orders[e.orderId] == order.(status := PaymentFailed)
                && r.outbox == s.outbox
  {
    if e.orderId in s.orders && s.orders[e.orderId].status in ProcessableForPayment then
      var (updated, emitted) := UpdateOrderStatusBasedOnPayment(s.orders[e.orderId], e);
      s.(orders := s.orders[e.orderId := updated], outbox := s.outbox + emitted)
    else
      s
  }

  // ---------------------------------------------------------------------
  // Dispatch and sequences of events
  // ---------------------------------------------------------------------

  /** Hand an inbound event to its consumer. */
  function Consume(s: OrderStore, e: InboundEvent): (r: OrderStore)
    ensures r.nextId == s.nextId && r.orders.Keys == s.orders.Keys
    ensures forall id :: id in s.orders ==>
              && r.orders[id] == s.orders[id].(status := r.orders[id].status)
              && Allowed(s.orders[id].status, r.orders[id].status)
    ensures forall id :: id in s.orders && id != e.OrderId() ==> r.orders[id] == s.orders[id]
    ensures e.OrderId() !in s.orders ==> r == s
    ensures |s.outbox| <= |r.outbox| <= |s.outbox| + 1 && r.outbox[..|s.outbox|] == s.outbox
  {
    match e
    case PaymentOutcome(p) => PaymentOutcomeConsumer(s, p)
    case DriverAssigned(a) => DriverAssignedConsumer(s, a)
    case OrderPickedUp(p) => OrderPickedUpConsumer(s, p)
    case OrderDelivered(d) => OrderDeliveredConsumer(s, d)
  }

  /** Consume a sequence of events in order. */
  function ConsumeAll(s: OrderStore, es: seq<InboundEvent>): OrderStore
    decreases |es|
  {
    if |es| == 0 then s else ConsumeAll(Consume(s, es[0]), es[1..])
  }

  /**
   Whatever events arrive, in whatever order and however often, every
   existing order stays in the store with its other fields intact and its
   status only moves forward along the chain; PAYMENT_FAILED and
   DELIVERED are never left.
   */
  lemma {:induction false} ConsumeAllMovesForward(s: OrderStore, es: seq<InboundEvent>)
    ensures var r := ConsumeAll(s, es);
            && r.orders.Keys == s.orders.Keys
            && forall id :: id in s.orders ==>
                 && r.orders[id] == s.orders[id].(status := r.orders[id].status)
                 && Reaches(s.orders[id].status, r.orders[id].status)
    decreases |es|
  {
    if |es| > 0 {
      var mid := Consume(s, es[0]);
      ConsumeAllMovesForward(mid, es[1..]);
      var r := ConsumeAll(s, es);
      forall id | id in s.orders
        ensures Reaches(s.orders[id].status, r.orders[id].status)
      {
        AllowedReaches(s.orders[id].status, mid.orders[id].status);
        ReachesTransitive(s.orders[id].status, mid.orders[id].status, r.orders[id].status);
      }
    }
  }

  /** A terminal order is never changed again by any sequence of events. */
  lemma TerminalIsFinal(s: OrderStore, es: seq<InboundEvent>, id: Id)
    requires id in s.orders && Terminal(s.orders[id].status)
    ensures id in ConsumeAll(s, es).orders && ConsumeAll(s, es).orders[id] == s.orders[id]
  {
    ConsumeAllMovesForward(s, es);
  }

  /**
   Every consumer is idempotent: delivering the same event a second time
   changes no order and publishes nothing more.
   */
  lemma ConsumeIdempotent(s: OrderStore, e: InboundEvent)
    ensures Consume(Consume(s, e), e) == Consume(s, e)
  {
  }

  // ---------------------------------------------------------------------
  // At most one ready-for-pickup announcement per order
  // ---------------------------------------------------------------------

  /** How many ready-for-pickup events in `log` name `orderId`. */
  function CountReady(log: seq<OrderReadyForPickupEvent>, orderId: Id): nat
    decreases |log|
  {
    if |log| == 0 then 0
    else CountReady(log[..|log| - 1], orderId) + (if log[|log| - 1].orderId == orderId then 1 else 0)
  }

  /** Past the payment step and not failed. */
  predicate PastPayment(st: OrderStatus) {
    st == Preparing || st == Assigned || st == OutForDelivery || st == Delivered
  }

  /**
   The outbox agrees with the order table: an order has been announced as
   ready exactly once if it got past payment, and never otherwise.
   */
  ghost predicate ReadyAnnouncedOnce(s: OrderStore) {
    forall id :: CountReady(s.outbox, id) == (if id in s.orders && PastPayment(s.orders[id].status) then 1 else 0)
  }

  lemma ConsumePreservesReadyAnnouncedOnce(s: OrderStore, e: InboundEvent)
    requires Valid(s) && ReadyAnnouncedOnce(s)
    ensures Valid(Consume(s, e)) && ReadyAnnouncedOnce(Consume(s, e))
  {
  }

  /** Any sequence of events announces each order as ready at most once. */
  lemma {:induction false} ConsumeAllAnnouncesReadyAtMostOnce(s: OrderStore, es: seq<InboundEvent>)
    requires Valid(s) && ReadyAnnouncedOnce(s)
    ensures Valid(ConsumeAll(s, es)) && ReadyAnnouncedOnce(ConsumeAll(s, es))
    ensures forall id :: CountReady(ConsumeAll(s, es).outbox, id) <= 1
    decreases |es|
  {
    if |es| > 0 {
      ConsumePreservesReadyAnnouncedOnce(s, es[0]);
      ConsumeAllAnnouncesReadyAtMostOnce(Consume(s, es[0]), es[1..]);
    }
    var r := ConsumeAll(s, es);
    forall id | true
      ensures CountReady(r.outbox, id) <= 1
    {
    }
  }

  // ---------------------------------------------------------------------
  // Order creation
  // ---------------------------------------------------------------------

  datatype OrderItemRequest = OrderItemRequest(menuItemId: Id, quantity: int)

  datatype OrderRequest = OrderRequest(restaurantId: Id, items: seq<OrderItemRequest>, deliveryAddress: string)

  /** A menu item as the restaurant service returns it. */
  datatype MenuItem = MenuItem(id: Id, name: string, price: Money)

  datatype CreateOrderError =
    | MissingMenuItems(missing: set<Id>)     // IllegalArgumentException, answered with 400: fewer (or more) menu items than distinct ids
    | DuplicateMenuItem                      // IllegalStateException from the duplicate map key, answered with 500
    | ItemNotValidated(menuItemId: Id)       // IllegalStateException, answered with 500: a requested id is not on the menu
    | NonPositiveQuantity(menuItemId: Id)    // IllegalArgumentException, answered with 400: a quantity of zero or less

  /** The user every order is created for. */
  const PlaceholderUserId: Id := 1

  function RequestedIds(items: seq<OrderItemRequest>): set<Id> {
    set it | it in items :: it.menuItemId
  }

  function MenuIds(menu: seq<MenuItem>): set<Id> {
    set m | m in menu :: m.id
  }

  predicate DistinctMenuIds(menu: seq<MenuItem>) {
    forall i, j :: 0 <= i < j < |menu| ==> menu[i].id != menu[j].id
  }

  /** The menu item carrying `id`, if any was returned. */
  function FindMenuItem(menu: seq<MenuItem>, id: Id): (r: Option<MenuItem>)
    ensures r.Some? <==> id in MenuIds(menu)
    ensures r.Some? ==> r.value in menu && r.value.id == id
    decreases |menu|
  {
    if |menu| == 0 then None
    else if menu[0].id == id then Some(menu[0])
    else
      var rest := FindMenuItem(menu[1..], id);
      assert MenuIds(menu) == {menu[0].id} + MenuIds(menu[1..]) by {
        assert menu == [menu[0]] + menu[1..];
      }
      rest
  }

  /** An item line passes the per-item checks of the creation loop. */
  predicate ItemAccepted(it: OrderItemRequest, menu: seq<MenuItem>) {
    FindMenuItem(menu, it.menuItemId).Some? && it.quantity > 0
  }

  /** Every check of order creation passes. */
  predicate ValidRequest(request: OrderRequest, menu: seq<MenuItem>) {
    && |menu| == |RequestedIds(request.items)|
    && DistinctMenuIds(menu)
    && forall k :: 0 <= k < |request.items| ==> ItemAccepted(request.items[k], menu)
  }

  /** Item `k` is the first one the creation loop rejects. */
  predicate FirstRejected(items: seq<OrderItemRequest>, menu: seq<MenuItem>, k: int) {
    && 0 <= k < |items|
    && !ItemAccepted(items[k], menu)
    && forall j :: 0 <= j < k ==> ItemAccepted(items[j], menu)
  }

  /** `line` records the requested quantity with the menu's name and price for that id. */
  predicate LineSnapshots(line: OrderItem, it: OrderItemRequest, menu: seq<MenuItem>) {
    exists m :: m in menu && m.id == it.menuItemId && line == OrderItem(m.id, m.name, it.quantity, m.price)
  }

  /** The sum over the lines of unit price times quantity. */
  function LineTotal(lines: seq<OrderItem>): Money
    decreases |lines|
  {
    if |lines| == 0 then 0
    else LineTotal(lines[..|lines| - 1]) + lines[|lines| - 1].pricePerItem * lines[|lines| - 1].quantity
  }

  lemma LineTotalAppend(lines: seq<OrderItem>, line: OrderItem)
    ensures LineTotal(lines + [line]) == LineTotal(lines) + line.pricePerItem * line.quantity
  {
  }

  /**
   `createOrder`: check the requested items against the menu items the
   restaurant service returned, then save a RECEIVED order with one line
   per requested item and the total of the lines.
   */
  method CreateOrder(s: OrderStore, request: OrderRequest, menu: seq<MenuItem>)
    returns (result: Result<Order, CreateOrderError>, s': OrderStore)
    ensures result.Ok? <==> ValidRequest(request, menu)
    ensures result.Err? ==> s' == s
    ensures |menu| != |RequestedIds(request.items)| ==>
              result == Err(MissingMenuItems(RequestedIds(request.items) - MenuIds(menu)))
    ensures |menu| == |RequestedIds(request.items)| && !DistinctMenuIds(menu) ==> result == Err(DuplicateMenuItem)
    ensures result.Err? && result.error.ItemNotValidated? ==>
              exists k :: FirstRejected(request.items, menu, k)
                && request.items[k].menuItemId == result.error.menuItemId
                && result.error.menuItemId !in MenuIds(menu)
    ensures result.Err? && result.error.NonPositiveQuantity? ==>
              exists k :: FirstRejected(request.items, menu, k)
                && request.items[k].menuItemId == result.error.menuItemId
                && request.items[k].menuItemId in MenuIds(menu)
                && request.items[k].quantity <= 0
    ensures |menu| == |RequestedIds(request.items)| && DistinctMenuIds(menu) && result.Err? ==>
              result.error.ItemNotValidated? || result.error.NonPositiveQuantity?
    ensures |menu| == |RequestedIds(request.items)| && DistinctMenuIds(menu) ==>
              forall k :: FirstRejected(request.items, menu, k) ==>
                var id := request.items[k].menuItemId;
                result == Err(if id in MenuIds(menu) then NonPositiveQuantity(id) else ItemNotValidated(id))
    ensures result.Ok? ==>
              var order := result.value;
              && order.id == s.nextId
              && order.userId == PlaceholderUserId
              && order.restaurantId == request.restaurantId
              && order.deliveryAddressSnapshot == request.deliveryAddress
              && order.status == Received
              && |order.items| == |request.items|
              && (forall k :: 0 <= k < |order.items| ==> LineSnapshots(order.items[k], request.items[k], menu))
              && order.totalAmount == LineTotal(order.items)
              && s' == s.(orders := s.orders[s.nextId := order], nextId := s.nextId + 1)
  {
    var requested := RequestedIds(request.items);
    if |menu| != |requested| {
      return Err(MissingMenuItems(requested - MenuIds(menu))), s;
    }
    if !DistinctMenuIds(menu) {
      return Err(DuplicateMenuItem), s;
    }
    var lines: seq<OrderItem> := [];
    var total: Money := 0;
    var i := 0;
    while i < |request.items|
      invariant 0 <= i <= |request.items|
      invariant |lines| == i
      invariant forall k :: 0 <= k < i ==> ItemAccepted(request.items[k], menu)
      invariant forall k :: 0 <= k < i ==> LineSnapshots(lines[k], request.items[k], menu)
      invariant total == LineTotal(lines)
    {
      var it := request.items[i];
      var found := FindMenuItem(menu, it.menuItemId);
      if found.None? {
        assert FirstRejected(request.items, menu, i);
        return Err(ItemNotValidated(it.menuItemId)), s;
      }
      if it.quantity <= 0 {
        assert FirstRejected(request.items, menu, i);
        return Err(NonPositiveQuantity(it.menuItemId)), s;
      }
      var m := found.value;
      var line := OrderItem(m.id, m.name, it.quantity, m.price);
      LineTotalAppend(lines, line);
      lines := lines + [line];
      total := total + m.price * it.quantity;
      i := i + 1;
    }
    var order := Order(s.nextId, PlaceholderUserId, request.restaurantId, lines, total, request.deliveryAddress, Received);
    return Ok(order), s.(orders := s.orders[s.nextId := order], nextId := s.nextId + 1);
  }

  /**
   Saving a new order keeps the store valid and the announcements
   consistent: the new order is RECEIVED and has never been announced.
   */
  lemma SaveNewOrderPreservesInvariants(s: OrderStore, order: Order)
    requires Valid(s) && ReadyAnnouncedOnce(s)
    requires order.id == s.nextId && order.status == Received
    ensures var s' := s.(orders := s.orders[s.nextId := order], nextId := s.nextId + 1);
            Valid(s') && ReadyAnnouncedOnce(s')
  {
  }
}
