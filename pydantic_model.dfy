/** The request models and string enumerations of the HTTP layer (`pydantic_model.py`). */
module PydanticModel {
  import opened Wrappers
  import opened Http
  import TransactionModel

  /** `Role`: the value carried in the caller's `role` claim. */
  datatype Role = Admin | Customer

  function RoleValue(r: Role): (v: string)
    ensures ParseRole(v) == Some(r)
  {
    match r
    case Admin => "admin"
    case Customer => "customer"
  }

  function ParseRole(v: string): (r: Option<Role>)
    ensures r.Some? <==> v == "admin" || v == "customer"
  {
    if v == "admin" then Some(Admin) else if v == "customer" then Some(Customer) else None
  }

  /** `OrderStatus`: exactly three values; there is no "processing". */
  datatype OrderStatus = Pending | Delivered | Cancelled

  function OrderStatusValue(s: OrderStatus): (v: string)
    ensures ParseOrderStatus(v) == Some(s)
  {
    match s
    case Pending => "pending"
    case Delivered => "delivered"
    case Cancelled => "cancelled"
  }

  function ParseOrderStatus(v: string): (r: Option<OrderStatus>)
    ensures r.Some? <==> v == "pending" || v == "delivered" || v == "cancelled"
  {
    if v == "pending" then Some(OrderStatus.Pending)
    else if v == "delivered" then Some(OrderStatus.Delivered)
    else if v == "cancelled" then Some(OrderStatus.Cancelled)
    else None
  }

  /** `TransactionStatus`: the upper-case name of each ledger status. */
  function StatusName(s: TransactionModel.Status): (v: string)
    ensures ParseStatusName(v) == Some(s)
  {
    match s
    case Pending => "PENDING"
    case Processing => "PROCESSING"
    case Processed => "PROCESSED"
    case Rejected => "REJECTED"
    case Accepted => "ACCEPTED"
  }

  function ParseStatusName(v: string): (r: Option<TransactionModel.Status>)
    ensures r.Some? <==> v == "PENDING" || v == "PROCESSING" || v == "PROCESSED" || v == "REJECTED" || v == "ACCEPTED"
  {
    if v == "PENDING" then Some(TransactionModel.Status.Pending)
    else if v == "PROCESSING" then Some(TransactionModel.Status.Processing)
    else if v == "PROCESSED" then Some(TransactionModel.Status.Processed)
    else if v == "REJECTED" then Some(TransactionModel.Status.Rejected)
    else if v == "ACCEPTED" then Some(TransactionModel.Status.Accepted)
    else None
  }

  /** The names and the stored integer codes describe the same five statuses. */
  lemma NameAndCodeAgree(v: string)
    requires ParseStatusName(v).Some?
    ensures TransactionModel.StatusOfCode(TransactionModel.StatusCode(ParseStatusName(v).value)) == ParseStatusName(v)
    ensures StatusName(TransactionModel.StatusOfCode(TransactionModel.StatusCode(ParseStatusName(v).value)).value) == v
  {
  }

  /** Body of a payment initiation; `amount` in cents. */
  datatype InitiatePaymentRequest = InitiatePaymentRequest(orderId: int, phoneNumber: string, amount: int)

  /** Builds the request model, refusing a non-positive amount with 422. */
  function ValidateInitiatePayment(orderId: int, phoneNumber: string, amount: int): (r: Result<InitiatePaymentRequest, HttpError>)
    ensures r.Success? <==> amount > 0
    ensures r.Success? ==> r.value.orderId == orderId && r.value.phoneNumber == phoneNumber && r.value.amount == amount
    ensures r.Failure? ==> r.error.status == Unprocessable
  {
    if amount > 0 then Success(InitiatePaymentRequest(orderId, phoneNumber, amount))
    else Failure(HttpError(Unprocessable, "Amount must be greater than 0"))
  }

  /** One cart line: a product id and a quantity. */
  datatype CartItem = CartItem(id: int, quantity: int)

  /** An order request; the optional fields take their declared defaults when not sent. */
  datatype CartPayload = CartPayload(
    cart: seq<CartItem>,
    addressId: Option<int> := None,
    deliveryFee: int := 0,
    transactionId: Option<int> := None)

  lemma CartPayloadDefaults(cart: seq<CartItem>)
    ensures CartPayload(cart).addressId.None?
    ensures CartPayload(cart).deliveryFee == 0
    ensures CartPayload(cart).transactionId.None?
  {
  }
}
