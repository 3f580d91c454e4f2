/**
 The payment service: a mock payment provider with one transaction per
 order. Initiation creates a PENDING transaction; confirmation settles it
 as SUCCESSFUL or FAILED exactly once and publishes the outcome.
 */
module PaymentService {
  import opened Wrappers
  import opened Events
  import Text

  datatype PaymentStatus = Pending | Successful | Failed

  /** The status string stored and published for each status. */
  function StatusName(st: PaymentStatus): string {
    match st
    case Pending => "PENDING"
    case Successful => "SUCCESSFUL"
    case Failed => "FAILED"
  }

  datatype PaymentTransaction = PaymentTransaction(
    id: Id,
    orderId: Id,
    amount: Money,
    currency: string,
    status: PaymentStatus,
    provider: string,
    providerTransactionId: string)

  datatype PaymentRequest = PaymentRequest(orderId: Id, amount: Money, currency: string)

  datatype PaymentResponse = PaymentResponse(
    transactionId: Id,
    orderId: Id,
    status: string,
    amount: Money,
    currency: string,
    message: string,
    paymentGatewayUrl: string)

  datatype PaymentError =
    | AlreadyInitiated(orderId: Id)          // IllegalStateException, answered with 409
    | TransactionNotFound(transactionId: Id) // IllegalArgumentException, answered with 404
    | NotPending(current: PaymentStatus)     // IllegalStateException, answered with 400

  /** The transaction table, the next identity value, and the outcome events published so far. */
  datatype PaymentStore = PaymentStore(
    transactions: map<Id, PaymentTransaction>,
    nextId: Id,
    outbox: seq<PaymentOutcomeEvent>)

  const MockProvider := "MOCK"
  const MockFailureReason := "Mock payment failure simulation"
  const GatewayUrlPrefix := "http://mock-payment-gateway.com/pay?txn="

  /** `paymentRepository.findByOrderId(orderId).isPresent()`. */
  predicate HasTransactionFor(s: PaymentStore, orderId: Id) {
    exists id :: id in s.transactions && s.transactions[id].orderId == orderId
  }

  /**
   Every transaction sits under its own id below the next identity value,
   and no two transactions belong to the same order.
   */
  ghost predicate Valid(s: PaymentStore) {
    && (forall id :: id in s.transactions ==> s.transactions[id].id == id && id < s.nextId)
    && (forall a, b :: a in s.transactions && b in s.transactions && a != b ==>
          s.transactions[a].orderId != s.transactions[b].orderId)
  }

  /** The instructions returned with a new transaction. */
  function InitiatedMessage(transactionId: Id): string {
    "Payment initiated. Use PUT /api/payments/confirm/" + Text.IntToString(transactionId)
      + "?success=true (or false) to simulate completion."
  }

  /**
   `initiatePayment`: refuse a second payment for the same order; otherwise
   save a PENDING transaction for the request and echo it back with a
   redirect to the mock gateway. `providerReference` stands for the random
   UUID the source generates.
   */
  function InitiatePayment(s: PaymentStore, request: PaymentRequest, providerReference: string)
    : (r: Result<(PaymentStore, PaymentResponse), PaymentError>)
    ensures HasTransactionFor(s, request.orderId) <==> r.Err?
    ensures r.Err? ==> r.error == AlreadyInitiated(request.orderId)
    ensures r.Ok? ==>
              var (s', response) := r.value;
              && s'.transactions.Keys == s.transactions.Keys + {s.nextId}
              && s'.nextId == s.nextId + 1
              && (forall id :: id in s.transactions ==> id != s.nextId ==> s'.transactions[id] == s.transactions[id])
              && s'.transactions[s.nextId].orderId == request.orderId
              && s'.transactions[s.nextId].amount == request.amount
              && s'.transactions[s.nextId].currency == request.currency
              && s'.transactions[s.nextId].status == Pending
              && s'.outbox == s.outbox
              && response.transactionId == s.nextId
              && response.orderId == request.orderId
              && response.amount == request.amount
              && response.currency == request.currency
              && response.status == "PENDING"
              && Text.StartsWith(response.paymentGatewayUrl, GatewayUrlPrefix)
  {
    if HasTransactionFor(s, request.orderId) then
      Err(AlreadyInitiated(request.orderId))
    else
      var txn := PaymentTransaction(s.nextId, request.orderId, request.amount, request.currency,
                                    Pending, MockProvider, providerReference);
      var s' := s.(transactions := s.transactions[s.nextId := txn], nextId := s.nextId + 1);
      var response := PaymentResponse(txn.id, txn.orderId, StatusName(txn.status), txn.amount, txn.currency,
                                      InitiatedMessage(txn.id), GatewayUrlPrefix + txn.providerTransactionId);
      assert Text.StartsWith(response.paymentGatewayUrl, GatewayUrlPrefix) by {
        assert response.paymentGatewayUrl[..|GatewayUrlPrefix|] == GatewayUrlPrefix;
      }
      Ok((s', response))
  }

  /**
   `confirmPayment`: settle a PENDING transaction as SUCCESSFUL or FAILED
   according to `success`, and publish and return exactly one outcome
   event built from the transaction. An unknown id or a transaction that
   is already settled is an error and changes nothing.
   */
  function ConfirmPayment(s: PaymentStore, transactionId: Id, success: bool)
    : (r: Result<(PaymentStore, PaymentOutcomeEvent), PaymentError>)
    ensures transactionId !in s.transactions <==> r == Err(TransactionNotFound(transactionId))
    ensures transactionId in s.transactions && s.transactions[transactionId].status != Pending ==>
              r == Err(NotPending(s.transactions[transactionId].status))
    ensures r.Ok? <==> transactionId in s.transactions && s.transactions[transactionId].status == Pending
    ensures r.Ok? ==>
              var (s', event) := r.value;
              var txn := s.transactions[transactionId];
              && s'.transactions == s.transactions[transactionId := txn.(status := if success then Successful else Failed)]
              && s'.nextId == s.nextId
              && s'.outbox == s.outbox + [event]
              && event.orderId == txn.orderId
              && event.transactionId == txn.id
              && event.amount == txn.amount
              && event.status == StatusName(s'.transactions[transactionId].status)
              && (event.failureReason.None? <==> success)
              && (!success ==> event.failureReason == Some(MockFailureReason))
  {
    if transactionId !in s.transactions then
      Err(TransactionNotFound(transactionId))
    else
      var txn := s.transactions[transactionId];
      if txn.status != Pending then
        Err(NotPending(txn.status))
      else
        var newStatus := if success then Successful else Failed;
        var settled := txn.(status := newStatus);
        var event := PaymentOutcomeEvent(settled.orderId, StatusName(newStatus), settled.id, settled.amount,
                                         if success then None else Some(MockFailureReason));
        Ok((s.(transactions := s.transactions[transactionId := settled], outbox := s.outbox + [event]), event))
  }

  /** A status only ever moves from PENDING to a settled one; settled statuses are final. */
  predicate PaymentAdvance(from: PaymentStatus, to: PaymentStatus) {
    from == to || (from == Pending && to != Pending)
  }

  /** Initiation keeps the store valid: still at most one transaction per order. */
  lemma InitiatePreservesValid(s: PaymentStore, request: PaymentRequest, providerReference: string)
    requires Valid(s)
    ensures var r := InitiatePayment(s, request, providerReference);
            && (r.Ok? ==> Valid(r.value.0))
            && (r.Ok? ==> forall id :: id in s.transactions ==> s.transactions[id] == r.value.0.transactions[id])
  {
  }

  /** Confirmation keeps the store valid and only settles a pending transaction. */
  lemma ConfirmPreservesValid(s: PaymentStore, transactionId: Id, success: bool)
    requires Valid(s)
    ensures var r := ConfirmPayment(s, transactionId, success);
            r.Ok? ==>
              && Valid(r.value.0)
              && r.value.0.transactions.Keys == s.transactions.Keys
              && forall id :: id in s.transactions ==>
                   PaymentAdvance(s.transactions[id].status, r.value.0.transactions[id].status)
  {
  }

  /** A transaction can be confirmed once: a second confirmation always fails and publishes nothing. */
  lemma SecondConfirmFails(s: PaymentStore, transactionId: Id, first: bool, second: bool)
    requires ConfirmPayment(s, transactionId, first).Ok?
    ensures var s' := ConfirmPayment(s, transactionId, first).value.0;
            ConfirmPayment(s', transactionId, second) ==
              Err(NotPending(if first then Successful else Failed))
  {
  }

  /** Neither operation ever rewrites a settled transaction. */
  lemma SettledIsFinal(s: PaymentStore, id: Id, request: PaymentRequest, providerReference: string,
                       transactionId: Id, success: bool)
    requires Valid(s)
    requires id in s.transactions && s.transactions[id].status != Pending
    ensures var r := InitiatePayment(s, request, providerReference);
            r.Ok? ==> r.value.0.transactions[id] == s.transactions[id]
    ensures var r := ConfirmPayment(s, transactionId, success);
            r.Ok? ==> r.value.0.transactions[id] == s.transactions[id]
  {
  }
}
