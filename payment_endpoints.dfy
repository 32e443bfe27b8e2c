/** The payment endpoints of `main.py`: payment initiation with its guard chain,
    the status check with its result-code mapping, the legacy order-based
    callback, and the provider's callback endpoint. */
module PaymentEndpoints {
  import opened Wrappers
  import opened Http
  import opened Text
  import opened Gateway
  import opened TransactionModel
  import opened PydanticModel
  import opened Shop
  import opened Daraja
  import Ledger
  import LnmoRepository

  // ---------------------------------------------------------------- initiate_payment

  /** The order checks, in the endpoint's order: the caller's order exists, is not
      delivered, is not cancelled, and the amount is its total. */
  function OrderGuard(orders: map<int, Order>, user: User, req: InitiatePaymentRequest): (r: Option<HttpError>)
    ensures r.None? <==>
      (req.orderId in orders && orders[req.orderId].userId == user.id
       && orders[req.orderId].status != OrderStatus.Delivered && orders[req.orderId].status != OrderStatus.Cancelled
       && req.amount == orders[req.orderId].total)
    ensures !(req.orderId in orders && orders[req.orderId].userId == user.id) ==> r == Some(HttpError(NotFound, "Order not found"))
    ensures r.Some? && r.value.status != NotFound ==> r.value.status == BadRequest
    ensures req.orderId in orders && orders[req.orderId].userId == user.id && orders[req.orderId].status == OrderStatus.Delivered ==>
      r == Some(HttpError(BadRequest, "Order is already completed"))
    ensures req.orderId in orders && orders[req.orderId].userId == user.id && orders[req.orderId].status == OrderStatus.Cancelled ==>
      r == Some(HttpError(BadRequest, "Cannot pay for cancelled order"))
  {
    if !(req.orderId in orders && orders[req.orderId].userId == user.id) then Some(HttpError(NotFound, "Order not found"))
    else if orders[req.orderId].status == OrderStatus.Delivered then Some(HttpError(BadRequest, "Order is already completed"))
    else if orders[req.orderId].status == OrderStatus.Cancelled then Some(HttpError(BadRequest, "Cannot pay for cancelled order"))
    else if req.amount != orders[req.orderId].total then Some(HttpError(BadRequest, "Invalid payment amount"))
    else None
  }

  /** A row of order `orderId` that is still waiting or already paid. */
  predicate InFlightRow(t: Transaction, orderId: int) {
    t.orderId == Some(orderId) && (t.status == Status.Pending || t.status == Status.Accepted)
  }

  predicate InFlight(rows: map<nat, Transaction>, orderId: int) {
    exists k :: k in rows && InFlightRow(rows[k], orderId)
  }

  /** No order has two attempts in flight. */
  predicate AtMostOneInFlight(rows: map<nat, Transaction>) {
    forall i, j ::
      (i in rows && j in rows && rows[i].orderId.Some? && InFlightRow(rows[i], rows[i].orderId.value)
       && InFlightRow(rows[j], rows[i].orderId.value)) ==> i == j
  }

  function AccountReference(orderId: int): string {
    "ORDER-" + IntToString(orderId)
  }

  /** The unique pid: the account reference and the time of the request. */
  function PaymentPid(orderId: int, stamp: string): (r: string)
    ensures StartsWith(r, AccountReference(orderId) + "-")
  {
    StartsWithConcat(AccountReference(orderId) + "-", stamp);
    AccountReference(orderId) + "-" + stamp
  }

  /** Different orders get different account references. */
  lemma AccountReferenceInjective(m: int, n: int)
    requires AccountReference(m) == AccountReference(n)
    ensures m == n
  {
    assert AccountReference(m)[6..] == IntToString(m);
    assert AccountReference(n)[6..] == IntToString(n);
    IntToStringInjective(m, n);
  }

  /** The data handed to `transact`. */
  function TransactDataFor(user: User, req: InitiatePaymentRequest, stamp: string): TransactData {
    TransactData(req.amount, req.phoneNumber, AccountReference(req.orderId), Some(PaymentPid(req.orderId, stamp)),
                 Some(req.orderId), Some(user.id))
  }

  const AlreadyInitiated := "Payment already initiated for this order. Transaction ID: "

  /** The row a successful initiation records under `id`. */
  function PaymentRow(user: User, req: InitiatePaymentRequest, stamp: string, shortCode: string, body: PushBody,
                      now: int, id: nat): Transaction {
    NewRow(TransactDataFor(user, req, stamp), shortCode, body, LnmoRepository.WholeUnits(req.amount) * 100, now).(id := id)
  }

  /** The recorded row names the order, the caller and the checkout id, carries
      the pid and the account reference built from the order id, and is pending. */
  lemma PaymentRowFields(user: User, req: InitiatePaymentRequest, stamp: string, shortCode: string, body: PushBody,
                         now: int, id: nat)
    ensures var row := PaymentRow(user, req, stamp, shortCode, body, now, id);
      && row.id == id
      && row.pid == PaymentPid(req.orderId, stamp) && StartsWith(row.pid, AccountReference(req.orderId) + "-")
      && row.accountReference == AccountReference(req.orderId)
      && row.details == "Payment for order " + AccountReference(req.orderId)
      && row.orderId == Some(req.orderId) && row.userId == Some(user.id)
      && row.status == Status.Pending && row.transactionId == body.checkoutRequestId
      && InFlightRow(row, req.orderId)
  {
    NewRowFields(TransactDataFor(user, req, stamp), shortCode, body, LnmoRepository.WholeUnits(req.amount) * 100, now);
  }

  /** The checks of `initiate_payment` before the gateway is involved: the order
      checks, then no attempt of the order may be pending or accepted. */
  method CheckInitiation(db: Tables, ledger: Ledger.Store, user: User, req: InitiatePaymentRequest) returns (e: Option<HttpError>)
    ensures e.None? <==> OrderGuard(db.orders, user, req).None? && !InFlight(ledger.rows, req.orderId)
    ensures OrderGuard(db.orders, user, req).Some? ==> e == OrderGuard(db.orders, user, req)
    ensures OrderGuard(db.orders, user, req).None? && InFlight(ledger.rows, req.orderId) ==>
      exists k :: k in ledger.rows && InFlightRow(ledger.rows[k], req.orderId)
        && e == Some(HttpError(BadRequest, AlreadyInitiated + ledger.rows[k].transactionId.GetOr("None")))
  {
    var guard := OrderGuard(db.orders, user, req);
    if guard.Some? {
      return guard;
    }
    var existing := ledger.FindByOrder(req.orderId, {Status.Pending, Status.Accepted});
    if existing.Some? {
      var id := ledger.rows[existing.value].transactionId.GetOr("None");
      return Some(HttpError(BadRequest, AlreadyInitiated + id));
    }
    e := None;
  }

  /** `initiate_payment`. Nothing is sent and nothing is written unless every
      check passes; on success the order keeps the checkout id as its payment
      reference, and the checkout id is returned. `stamp` is the microsecond
      timestamp of the pid and `timestamp` the one of the push password. */
  method InitiatePayment(db: Tables, ledger: Ledger.Store, user: User, req: InitiatePaymentRequest, config: Config,
                         stamp: string, timestamp: string, now: int, tokenReply: TokenReply, reply: PushReply)
    returns (r: Result<Option<string>, HttpError>, calls: seq<Call>)
    requires db.Valid() && ledger.Valid()
    modifies db, ledger
    ensures db.Valid() && ledger.Valid()
    ensures db.products == old(db.products) && db.addresses == old(db.addresses)
    ensures db.details == old(db.details) && db.nextOrderId == old(db.nextOrderId)
    ensures OrderGuard(old(db.orders), user, req).Some? ==>
      r == Failure(OrderGuard(old(db.orders), user, req).value) && calls == []
    ensures OrderGuard(old(db.orders), user, req).None? && InFlight(old(ledger.rows), req.orderId) ==>
      && calls == []
      && exists k :: k in old(ledger.rows) && InFlightRow(old(ledger.rows)[k], req.orderId)
           && r == Failure(HttpError(BadRequest, AlreadyInitiated + old(ledger.rows)[k].transactionId.GetOr("None")))
    ensures OrderGuard(old(db.orders), user, req).None? && !InFlight(old(ledger.rows), req.orderId) && !Complete(config) ==>
      r == Failure(HttpError(ServerError, NewRepository(config).error)) && calls == []
    ensures r.Failure? ==> db.orders == old(db.orders) && ledger.rows == old(ledger.rows)
    ensures r.Success? ==>
      && OrderGuard(old(db.orders), user, req).None? && !InFlight(old(ledger.rows), req.orderId) && Complete(config)
      && PushOutcome(reply).Success? && r.value == PushOutcome(reply).value.checkoutRequestId
      && ledger.rows == old(ledger.rows)[old(ledger.nextId) :=
           PaymentRow(user, req, stamp, config.shortCode, PushOutcome(reply).value, now, old(ledger.nextId))]
      && db.orders == old(db.orders)[req.orderId := old(db.orders)[req.orderId].(paymentReference := r.value)]
    ensures AtMostOneInFlight(old(ledger.rows)) ==> AtMostOneInFlight(ledger.rows)
  {
    calls := [];
    var refusal := CheckInitiation(db, ledger, user, req);
    if refusal.Some? {
      return Failure(refusal.value), calls;
    }
    var repo := NewRepository(config);
    if repo.Failure? {
      return Failure(HttpError(ServerError, repo.error)), calls;
    }
    r, calls := SendPayment(db, ledger, user, req, repo.value, stamp, timestamp, now, tokenReply, reply);
  }

  /** The part of `initiate_payment` after its checks: `transact`, then the
      payment reference on the order. */
  method SendPayment(db: Tables, ledger: Ledger.Store, user: User, req: InitiatePaymentRequest, repo: Repository,
                     stamp: string, timestamp: string, now: int, tokenReply: TokenReply, reply: PushReply)
    returns (r: Result<Option<string>, HttpError>, calls: seq<Call>)
    requires db.Valid() && ledger.Valid()
    requires OrderGuard(db.orders, user, req).None? && !InFlight(ledger.rows, req.orderId)
    modifies db, ledger
    ensures db.Valid() && ledger.Valid()
    ensures db.products == old(db.products) && db.addresses == old(db.addresses)
    ensures db.details == old(db.details) && db.nextOrderId == old(db.nextOrderId)
    ensures r.Failure? ==> db.orders == old(db.orders) && ledger.rows == old(ledger.rows)
    ensures r.Success? ==>
      && PushOutcome(reply).Success? && r.value == PushOutcome(reply).value.checkoutRequestId
      && ledger.rows == old(ledger.rows)[old(ledger.nextId) :=
           PaymentRow(user, req, stamp, repo.shortCode, PushOutcome(reply).value, now, old(ledger.nextId))]
      && db.orders == old(db.orders)[req.orderId := old(db.orders)[req.orderId].(paymentReference := r.value)]
    ensures AtMostOneInFlight(old(ledger.rows)) ==> AtMostOneInFlight(ledger.rows)
  {
    var outcome;
    outcome, calls := RecordAttempt(ledger, user, req, repo, stamp, timestamp, now, tokenReply, reply);
    if outcome.Failure? {
      var detail := if outcome.error.GatewayError? then outcome.error.message else "database integrity error";
      return Failure(HttpError(ServerError, detail)), calls;
    }
    var order := db.orders[req.orderId];
    db.orders := db.orders[req.orderId := order.(paymentReference := outcome.value.checkoutRequestId)];
    r := Success(outcome.value.checkoutRequestId);
  }

  /** `transact` for an order with nothing in flight: the pending row it adds
      keeps every order at one attempt in flight at most. */
  method RecordAttempt(ledger: Ledger.Store, user: User, req: InitiatePaymentRequest, repo: Repository,
                       stamp: string, timestamp: string, now: int, tokenReply: TokenReply, reply: PushReply)
    returns (r: Result<PushBody, TransactError>, calls: seq<Call>)
    requires ledger.Valid() && !InFlight(ledger.rows, req.orderId)
    modifies ledger
    ensures ledger.Valid()
    ensures r.Failure? ==> ledger.rows == old(ledger.rows)
    ensures r.Success? ==>
      && PushOutcome(reply).Success? && r.value == PushOutcome(reply).value
      && ledger.rows == old(ledger.rows)[old(ledger.nextId) :=
           PaymentRow(user, req, stamp, repo.shortCode, PushOutcome(reply).value, now, old(ledger.nextId))]
    ensures AtMostOneInFlight(old(ledger.rows)) ==> AtMostOneInFlight(ledger.rows)
  {
    r, calls := LnmoRepository.Transact(repo, TransactDataFor(user, req, stamp), tokenReply, timestamp, now, reply, ledger);
    if r.Success? && AtMostOneInFlight(old(ledger.rows)) {
      var row := PaymentRow(user, req, stamp, repo.shortCode, r.value, now, old(ledger.nextId));
      PaymentRowFields(user, req, stamp, repo.shortCode, r.value, now, old(ledger.nextId));
      PendingRowKeepsSingleFlight(old(ledger.rows), old(ledger.nextId), row);
    }
  }

  /** Adding a pending row for an order with nothing in flight keeps every order
      at one attempt in flight at most. */
  lemma PendingRowKeepsSingleFlight(rows: map<nat, Transaction>, k: nat, t: Transaction)
    requires AtMostOneInFlight(rows)
    requires k !in rows
    requires t.orderId.Some? && !InFlight(rows, t.orderId.value)
    ensures AtMostOneInFlight(rows[k := t])
  {
    var rows' := rows[k := t];
    forall i, j | i in rows' && j in rows' && rows'[i].orderId.Some? && InFlightRow(rows'[i], rows'[i].orderId.value)
      && InFlightRow(rows'[j], rows'[i].orderId.value)
      ensures i == j
    {
    }
  }

  /** A rejected attempt does not block a retry; a pending or accepted one does. */
  lemma RejectedAttemptAllowsRetry(t: Transaction, orderId: int)
    requires t.orderId == Some(orderId)
    ensures InFlight(map[t.id := t.(status := Status.Rejected)], orderId) == false
    ensures InFlight(map[t.id := t.(status := Status.Pending)], orderId)
    ensures InFlight(map[t.id := t.(status := Status.Accepted)], orderId)
  {
    var m := map[t.id := t.(status := Status.Pending)];
    assert InFlightRow(m[t.id], orderId);
    var a := map[t.id := t.(status := Status.Accepted)];
    assert InFlightRow(a[t.id], orderId);
  }

  /** The guard is not kept by callbacks: a success callback for an attempt that
      had been rejected, arriving after the retry was initiated, leaves the order
      with two attempts in flight. */
  lemma LateAcceptanceBreaksSingleFlight(t1: Transaction, t2: Transaction, orderId: int)
    requires t1.id == 1 && t2.id == 2
    requires t1.orderId == Some(orderId) && t2.orderId == Some(orderId)
    requires t1.status == Status.Rejected && t2.status == Status.Pending
    ensures var rows := map[1 := t1, 2 := t2];
      var p := CallbackPayload(t1.transactionId, Some(JInt(0)), []);
      AtMostOneInFlight(rows) && !AtMostOneInFlight(rows[1 := Reconcile(rows[1], p)])
  {
    var rows := map[1 := t1, 2 := t2];
    var p := CallbackPayload(t1.transactionId, Some(JInt(0)), []);
    var rows' := rows[1 := Reconcile(rows[1], p)];
    forall i, j | i in rows && j in rows && rows[i].orderId.Some? && InFlightRow(rows[i], rows[i].orderId.value)
      && InFlightRow(rows[j], rows[i].orderId.value)
      ensures i == j
    {
    }
    assert InFlightRow(rows'[1], orderId) && InFlightRow(rows'[2], orderId);
  }

  // ---------------------------------------------------------------- check_payment_status

  /** The frontend status for the `ResultCode` of a status query; the code is
      compared as text. */
  function QueryStatusName(resultCode: Option<Json>): (r: string)
    ensures r == "ACCEPTED" <==> resultCode == Some(JStr("0"))
    ensures r == "CANCELED" <==> resultCode == Some(JStr("1032"))
    ensures r == "REJECTED" <==> !(resultCode == Some(JStr("0")) || resultCode == Some(JStr("1032")))
  {
    if resultCode == Some(JStr("0")) then "ACCEPTED"
    else if resultCode == Some(JStr("1032")) then "CANCELED"
    else "REJECTED"
  }

  /** The query and the callback read result codes differently: a numeric 0 is a
      success for the callback but REJECTED for the query, and CANCELED is not a
      transaction status name. */
  lemma QueryAndCallbackDisagree()
    ensures QueryStatusName(Some(JInt(0))) == "REJECTED"
    ensures Succeeded(CallbackPayload(None, Some(JInt(0)), []))
    ensures QueryStatusName(None) == "REJECTED"
    ensures ParseStatusName(QueryStatusName(Some(JStr("1032")))).None?
    ensures ParseStatusName(QueryStatusName(Some(JStr("0")))) == Some(Status.Accepted)
  {
  }

  /** `check_payment_status`: the caller's order, some transaction of the order,
      then the mapped result code of the status query. Nothing changes. */
  method CheckPaymentStatus(db: Tables, ledger: Ledger.Store, user: User, orderId: int, config: Config, query: QueryReply)
    returns (r: Result<string, HttpError>)
    ensures !(orderId in db.orders && db.orders[orderId].userId == user.id) ==> r == Failure(HttpError(NotFound, "Order not found"))
    ensures (orderId in db.orders && db.orders[orderId].userId == user.id
             && forall k :: k in ledger.rows ==> ledger.rows[k].orderId != Some(orderId)) ==>
      r == Failure(HttpError(NotFound, "Transaction not found"))
    ensures r.Success? <==>
      (orderId in db.orders && db.orders[orderId].userId == user.id
       && (exists k :: k in ledger.rows && ledger.rows[k].orderId == Some(orderId))
       && Complete(config) && query.QueryAnswered?)
    ensures r.Success? ==> r.value == QueryStatusName(query.resultCode)
    ensures r.Failure? && r.error.status != NotFound ==> r.error == HttpError(ServerError, "Error checking payment status")
  {
    if !(orderId in db.orders && db.orders[orderId].userId == user.id) {
      return Failure(HttpError(NotFound, "Order not found"));
    }
    if !exists k :: k in ledger.rows && ledger.rows[k].orderId == Some(orderId) {
      return Failure(HttpError(NotFound, "Transaction not found"));
    }
    if !Complete(config) || query.QueryFailed? {
      return Failure(HttpError(ServerError, "Error checking payment status"));
    }
    r := Success(QueryStatusName(query.resultCode));
  }

  // ---------------------------------------------------------------- the callbacks

  const AckProcessed := "Callback processed successfully"
  const AckError := "Error processing callback"

  /** An order whose payment reference is `reference`. */
  predicate HasReference(orders: map<int, Order>, o: int, reference: string) {
    o in orders && orders[o].paymentReference == Some(reference)
  }

  /** The legacy `payment_callback`: it acknowledges every call; `payload` is None
      when the body is not a JSON object. It finds an order by payment reference
      and marks it PAID (and pending) on a zero result code, FAILED otherwise. */
  method LegacyPaymentCallback(db: Tables, payload: Option<CallbackPayload>) returns (message: string)
    requires db.Valid()
    modifies db
    ensures db.Valid()
    ensures db.products == old(db.products) && db.addresses == old(db.addresses)
    ensures db.details == old(db.details) && db.nextOrderId == old(db.nextOrderId)
    ensures payload.None? ==> message == AckError && db.orders == old(db.orders)
    ensures payload.Some? && Blank(payload.value.checkoutRequestId) ==>
      message == "Invalid callback data" && db.orders == old(db.orders)
    ensures (payload.Some? && !Blank(payload.value.checkoutRequestId)
             && forall o :: !HasReference(old(db.orders), o, payload.value.checkoutRequestId.value)) ==>
      message == "Order not found" && db.orders == old(db.orders)
    ensures message == AckProcessed ==>
      && payload.Some? && !Blank(payload.value.checkoutRequestId)
      && (exists o :: HasReference(old(db.orders), o, payload.value.checkoutRequestId.value)
            && db.orders == old(db.orders)[o := LegacyOutcome(old(db.orders)[o], payload.value.resultCode)])
    ensures message != AckProcessed ==> db.orders == old(db.orders)
  {
    if payload.None? {
      return AckError;
    }
    var p := payload.value;
    if Blank(p.checkoutRequestId) {
      return "Invalid callback data";
    }
    var reference := p.checkoutRequestId.value;
    if !exists o :: o in db.orders && db.orders[o].paymentReference == Some(reference) {
      assert forall o :: !HasReference(db.orders, o, reference);
      return "Order not found";
    }
    var o :| o in db.orders && db.orders[o].paymentReference == Some(reference);
    assert HasReference(db.orders, o, reference);
    var order := db.orders[o];
    if p.resultCode.Some? && EqualsZero(p.resultCode.value) {
      order := order.(status := OrderStatus.Pending, paymentStatus := Some("PAID"));
    } else {
      order := order.(paymentStatus := Some("FAILED"));
    }
    db.orders := db.orders[o := order];
    message := AckProcessed;
  }

  /** The order after a legacy callback with `resultCode`. */
  function LegacyOutcome(order: Order, resultCode: Option<Json>): (r: Order)
    ensures r.paymentStatus == Some(if resultCode.Some? && EqualsZero(resultCode.value) then "PAID" else "FAILED")
    ensures r.status == (if resultCode.Some? && EqualsZero(resultCode.value) then OrderStatus.Pending else order.status)
    ensures r.(status := order.status, paymentStatus := order.paymentStatus) == order
  {
    if resultCode.Some? && EqualsZero(resultCode.value) then order.(status := OrderStatus.Pending, paymentStatus := Some("PAID"))
    else order.(paymentStatus := Some("FAILED"))
  }

  /** A legacy callback outcome depends on the result code only, so a repeated
      delivery changes nothing more. A paid order goes back to pending even when
      it had been delivered. */
  lemma LegacyOutcomeIdempotent(order: Order, resultCode: Option<Json>)
    ensures LegacyOutcome(LegacyOutcome(order, resultCode), resultCode) == LegacyOutcome(order, resultCode)
    ensures order.status == OrderStatus.Delivered ==> LegacyOutcome(order, Some(JInt(0))).status == OrderStatus.Pending
  {
  }

  /** The provider's callback endpoint: it acknowledges every call, and reports
      success exactly when the repository's callback went through. */
  method LnmoCallbackEndpoint(config: Config, host: string, payload: Option<CallbackPayload>, ledger: Ledger.Store, db: Tables)
    returns (message: string)
    requires ledger.Valid() && db.Valid()
    modifies ledger, db
    ensures ledger.Valid() && db.Valid()
    ensures ledger.nextId == old(ledger.nextId)
    ensures db.products == old(db.products) && db.addresses == old(db.addresses)
    ensures db.details == old(db.details) && db.nextOrderId == old(db.nextOrderId)
    ensures message == AckProcessed || message == AckError
    ensures message == AckError ==> ledger.rows == old(ledger.rows) && db.orders == old(db.orders)
    ensures message == AckProcessed <==>
      && payload.Some? && Complete(config)
      && !(config.environment == "production" && !LnmoRepository.AllowedOrigin(config.environment, host))
      && CallbackApplies(old(ledger.rows), payload.value)
    ensures message == AckProcessed ==>
      (payload.value.resultCode.Some?
       && exists k :: Reconciled(old(ledger.rows), old(db.orders), k, payload.value, OrderStatus.Delivered, ledger.rows, db.orders))
  {
    if payload.None? {
      return AckError;
    }
    var repo := NewRepository(config);
    if repo.Failure? {
      return AckError;
    }
    var r := LnmoRepository.Callback(repo.value, host, payload.value, ledger, db);
    message := if r.Success? then AckProcessed else AckError;
  }
}
