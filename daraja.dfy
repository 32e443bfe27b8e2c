/** What the two `LNMORepository` variants share: the configuration they read,
    the credentials and the push request they send, the reading of the push
    reply, the row a successful push records, and the way a callback payload
    turns a ledger row into its final state. */
module Daraja {
  import opened Wrappers
  import opened Text
  import opened Gateway
  import opened TransactionModel
  import Base64
  import Utf8
  import PydanticModel
  import Shop
  import Ledger

  // ---------------------------------------------------------------- configuration

  /** The class attributes, each read once from the environment; an unset
      variable without a default is `None`. */
  datatype Config = Config(
    consumerKey: Option<string>,
    consumerSecret: Option<string>,
    environment: string,
    passKey: Option<string>,
    shortCode: string,
    callbackUrl: string)

  /** `os.getenv(name)`. */
  function Getenv(env: map<string, string>, name: string): Option<string> {
    if name in env then Some(env[name]) else None
  }

  /** `os.getenv(name, default)`. */
  function GetenvOr(env: map<string, string>, name: string, default: string): (r: string)
    ensures name in env ==> r == env[name]
    ensures name !in env ==> r == default
  {
    Getenv(env, name).GetOr(default)
  }

  /** Python's `not value` for a value that is a string or `None`. */
  predicate Blank(v: Option<string>) {
    v.None? || v.value == ""
  }

  /** All four values the constructor insists on are present and non-empty. */
  predicate Complete(c: Config) {
    !Blank(c.consumerKey) && !Blank(c.consumerSecret) && !Blank(c.passKey) && c.callbackUrl != ""
  }

  const ConsumerKeyVar := "MPESA_LNMO_CONSUMER_KEY"
  const ConsumerSecretVar := "MPESA_LNMO_CONSUMER_SECRET"
  const PassKeyVar := "MPESA_LNMO_PASS_KEY"
  const CallbackUrlName := "MPESA_LNMO_CALLBACK_URL"

  /** The names of the required values that are blank, in the constructor's order. */
  function MissingVariables(c: Config): (r: seq<string>)
    ensures ConsumerKeyVar in r <==> Blank(c.consumerKey)
    ensures ConsumerSecretVar in r <==> Blank(c.consumerSecret)
    ensures PassKeyVar in r <==> Blank(c.passKey)
    ensures CallbackUrlName in r <==> c.callbackUrl == ""
    ensures r == [] <==> Complete(c)
  {
    (if Blank(c.consumerKey) then [ConsumerKeyVar] else [])
    + (if Blank(c.consumerSecret) then [ConsumerSecretVar] else [])
    + (if Blank(c.passKey) then [PassKeyVar] else [])
    + (if c.callbackUrl == "" then [CallbackUrlName] else [])
  }

  /** The message lists only required names, each at most once and in the
      constructor's order. */
  lemma MissingVariablesListed(c: Config)
    ensures var r := MissingVariables(c);
      forall i :: 0 <= i < |r| ==> r[i] in RequiredVariables
    ensures var r := MissingVariables(c);
      forall i, j :: 0 <= i < j < |r| ==> Rank(r[i]) < Rank(r[j])
  {
    RanksInOrder();
  }

  /** Each required name has its own rank. */
  lemma RanksInOrder()
    ensures Rank(ConsumerKeyVar) == 0 && Rank(ConsumerSecretVar) == 1
    ensures Rank(PassKeyVar) == 2 && Rank(CallbackUrlName) == 3
  {
    assert |ConsumerKeyVar| == 23 && |ConsumerSecretVar| == 26 && |PassKeyVar| == 19;
    assert ConsumerKeyVar[12] == 'O' && CallbackUrlName[12] == 'A';
  }

  const RequiredVariables := [ConsumerKeyVar, ConsumerSecretVar, PassKeyVar, CallbackUrlName]

  /** The position of a required name in the constructor's list. */
  function Rank(name: string): nat {
    if name == ConsumerKeyVar then 0
    else if name == ConsumerSecretVar then 1
    else if name == PassKeyVar then 2
    else 3
  }

  /** A configuration the constructor accepted. */
  type Repository = c: Config | Complete(c)
    witness Config(Some("key"), Some("secret"), "sandbox", Some("passkey"), "174379", "https://example.invalid/callback")

  /** `LNMORepository()`: the repository, or the `ValueError` text naming every missing value. */
  function NewRepository(c: Config): (r: Result<Repository, string>)
    ensures r.Success? <==> Complete(c)
    ensures r.Success? ==> r.value == c
    ensures r.Failure? ==> r.error == MissingMessage(MissingVariables(c))
  {
    if Complete(c) then Success(c)
    else Failure(MissingMessage(MissingVariables(c)))
  }

  /** The `ValueError` text: the missing names joined by commas. */
  function MissingMessage(names: seq<string>): string {
    "Missing required environment variables: " + Join(names, ", ")
  }

  /** An address of the provider for the configured environment. */
  function Endpoint(repo: Repository, path: string): string {
    "https://" + repo.environment + ".safaricom.co.ke" + path
  }

  // ---------------------------------------------------------------- credentials

  /** The Basic credential of the token request: Base64 of `key:secret`. */
  function BasicCredential(repo: Repository): string {
    Base64.EncodeText(repo.consumerKey.value + ":" + repo.consumerSecret.value)
  }

  /** The credential decodes to `key:secret`, and when the key has no colon the
      provider can split it back into the key and the secret. */
  lemma BasicCredentialDecodes(repo: Repository)
    ensures Base64.Decode(BasicCredential(repo)).Some?
    ensures Utf8.Decode(Base64.Decode(BasicCredential(repo)).value)
            == Some(repo.consumerKey.value + ":" + repo.consumerSecret.value)
    ensures var key, text := repo.consumerKey.value, repo.consumerKey.value + ":" + repo.consumerSecret.value;
      ':' !in key ==> SplitHead(text, ':') == key && text[|key| + 1..] == repo.consumerSecret.value
  {
    var key, secret := repo.consumerKey.value, repo.consumerSecret.value;
    Base64.DecodeEncodeText(key + ":" + secret);
    if ':' !in key {
      SplitHeadAt(key, ':', secret);
      assert key + ":" + secret == key + [':'] + secret;
    }
  }

  /** The push password: Base64 of the short code, the pass key and the timestamp, concatenated. */
  function Password(shortCode: string, passKey: string, timestamp: string): string {
    Base64.EncodeText(shortCode + passKey + timestamp)
  }

  /** The password decodes to the concatenation, whose last characters are the timestamp. */
  lemma PasswordDecodes(shortCode: string, passKey: string, timestamp: string)
    ensures Base64.Decode(Password(shortCode, passKey, timestamp)).Some?
    ensures Utf8.Decode(Base64.Decode(Password(shortCode, passKey, timestamp)).value)
            == Some(shortCode + passKey + timestamp)
    ensures var text := shortCode + passKey + timestamp;
      text[|text| - |timestamp|..] == timestamp && text[..|shortCode|] == shortCode
  {
    Base64.DecodeEncodeText(shortCode + passKey + timestamp);
    var text := shortCode + passKey + timestamp;
    assert text[|text| - |timestamp|..] == timestamp;
    assert text[..|shortCode|] == shortCode;
  }

  /** Different timestamps give different passwords, for the same short code and pass key. */
  lemma PasswordOfTimestampInjective(shortCode: string, passKey: string, t1: string, t2: string)
    requires |t1| == |t2|
    requires Password(shortCode, passKey, t1) == Password(shortCode, passKey, t2)
    ensures t1 == t2
  {
    PasswordDecodes(shortCode, passKey, t1);
    PasswordDecodes(shortCode, passKey, t2);
    var a, b := shortCode + passKey + t1, shortCode + passKey + t2;
    assert a[|a| - |t1|..] == t1;
    assert b[|b| - |t2|..] == t2;
  }

  // ---------------------------------------------------------------- the push request

  /** How the amount travels: a whole number of shillings, or the text of the amount. */
  datatype PushAmount = Units(n: int) | AmountText(s: string)

  /** The body and the bearer header of the push (processrequest) call. */
  datatype PushRequest = PushRequest(
    endpoint: string,
    authorization: string,
    businessShortCode: string,
    password: string,
    timestamp: string,
    transactionType: string,
    amount: PushAmount,
    partyA: string,
    partyB: string,
    phoneNumber: string,
    callBackUrl: string,
    accountReference: string,
    transactionDesc: string)

  /** An outbound call to the provider, recorded in the order it is made. */
  datatype Call = TokenCall(endpoint: string, authorization: string) | PushCall(request: PushRequest)

  /** The `transact` argument: the amount in cents and the optional `pid`, `order_id`, `user_id`. */
  datatype TransactData = TransactData(
    amount: int,
    phoneNumber: string,
    accountReference: string,
    pid: Option<string>,
    orderId: Option<int>,
    userId: Option<int>)

  function Description(accountReference: string): string {
    "Payment for order " + accountReference
  }

  /** The token request, with the Basic credential. */
  function TokenCallFor(repo: Repository): Call {
    TokenCall(Endpoint(repo, "/oauth/v1/generate?grant_type=client_credentials"), "Basic " + BasicCredential(repo))
  }

  /** The push request for `data`, sent with `token` at `timestamp`. */
  function PushRequestFor(repo: Repository, data: TransactData, token: string, timestamp: string, amount: PushAmount): (r: PushRequest)
    ensures r.partyA == r.phoneNumber == data.phoneNumber
    ensures r.partyB == r.businessShortCode == repo.shortCode
    ensures r.timestamp == timestamp && r.amount == amount && r.callBackUrl == repo.callbackUrl
  {
    PushRequest(
      Endpoint(repo, "/mpesa/stkpush/v1/processrequest"),
      "Bearer " + token,
      repo.shortCode,
      Password(repo.shortCode, repo.passKey.value, timestamp),
      timestamp,
      "CustomerPayBillOnline",
      amount,
      data.phoneNumber,
      repo.shortCode,
      data.phoneNumber,
      repo.callbackUrl,
      data.accountReference,
      Description(data.accountReference))
  }

  /** The password of a push request decodes to the short code, the pass key
      and the very timestamp the request carries, so the provider can check it. */
  lemma PushRequestPassword(repo: Repository, data: TransactData, token: string, timestamp: string, amount: PushAmount)
    ensures var r := PushRequestFor(repo, data, token, timestamp, amount);
      && Base64.Decode(r.password).Some?
      && Utf8.Decode(Base64.Decode(r.password).value) == Some(repo.shortCode + repo.passKey.value + r.timestamp)
  {
    PasswordDecodes(repo.shortCode, repo.passKey.value, timestamp);
  }

  /** The push reply read as the code reads it: the decoded body when the status
      is 200 and the body carries no `errorCode`, otherwise the exception text. */
  function PushOutcome(reply: PushReply): (r: Result<PushBody, string>)
    ensures r.Success? <==> reply.PushAnswered? && reply.status == 200 && reply.body.Some? && !reply.body.value.hasErrorCode
    ensures r.Success? ==> r.value == reply.body.value
    ensures reply.PushAnswered? && reply.status != 200 ==> r == Failure("HTTP " + IntToString(reply.status) + ": " + reply.text)
    ensures reply.PushAnswered? && reply.status == 200 && reply.body.Some? && reply.body.value.hasErrorCode ==>
      r == Failure("M-Pesa API error: " + reply.body.value.errorMessage.GetOr("None"))
  {
    match reply
    case PushUnanswered => Failure("connection error")
    case PushAnswered(status, text, body) =>
      if status != 200 then Failure("HTTP " + IntToString(status) + ": " + text)
      else if body.None? then Failure("response is not JSON")
      else if body.value.hasErrorCode then Failure("M-Pesa API error: " + body.value.errorMessage.GetOr("None"))
      else Success(body.value)
  }

  /** Why `transact` raised: the gateway said no, or the new row broke a column constraint. */
  datatype TransactError = GatewayError(message: string) | RowRefused(violation: Ledger.Violation)

  /** The row a successful push records, before the store gives it its id. */
  function NewRow(data: TransactData, shortCode: string, body: PushBody, stored: int, now: int): Transaction {
    Transaction(
      0,
      data.pid.GetOr(data.accountReference),
      data.phoneNumber,
      shortCode,
      data.accountReference,
      PurchaseOrder,
      Credit,
      Lnmo,
      MpesaKe,
      body.checkoutRequestId,
      stored,
      None,
      now,
      Description(data.accountReference),
      PushFeedback(body),
      DefaultStatus,
      data.orderId,
      data.userId)
  }

  /** Sends the push request and, only when the reply is a 200 without `errorCode`,
      adds the pending row to the ledger. `stored` is the amount the row keeps. */
  method RecordPush(repo: Repository, data: TransactData, token: string, amount: PushAmount, stored: int,
                    timestamp: string, now: int, reply: PushReply, ledger: Ledger.Store)
    returns (r: Result<PushBody, TransactError>, call: Call)
    requires ledger.Valid()
    modifies ledger
    ensures ledger.Valid()
    ensures call == PushCall(PushRequestFor(repo, data, token, timestamp, amount))
    ensures PushOutcome(reply).Failure? ==>
      r == Failure(GatewayError(PushOutcome(reply).error)) && ledger.rows == old(ledger.rows) && ledger.nextId == old(ledger.nextId)
    ensures PushOutcome(reply).Success? ==>
      var row := NewRow(data, repo.shortCode, PushOutcome(reply).value, stored, now).(id := old(ledger.nextId));
      match Ledger.Conflict(old(ledger.rows), old(ledger.nextId), row)
      case Some(v) => r == Failure(RowRefused(v)) && ledger.rows == old(ledger.rows) && ledger.nextId == old(ledger.nextId)
      case None =>
        && r == Success(PushOutcome(reply).value)
        && ledger.rows == old(ledger.rows)[old(ledger.nextId) := row]
        && ledger.nextId == old(ledger.nextId) + 1
  {
    call := PushCall(PushRequestFor(repo, data, token, timestamp, amount));
    var outcome := PushOutcome(reply);
    if outcome.Failure? {
      return Failure(GatewayError(outcome.error)), call;
    }
    var inserted := ledger.Insert(NewRow(data, repo.shortCode, outcome.value, stored, now));
    match inserted
    case Failure(v) => r := Failure(RowRefused(v));
    case Success(_) => r := Success(outcome.value);
  }

  /** A recorded row is pending, keyed by the checkout id of the reply, with the
      data's pid (else the account reference), the short code as party B, no
      receipt yet, and the reply as its feedback. */
  lemma NewRowFields(data: TransactData, shortCode: string, body: PushBody, stored: int, now: int)
    ensures var row := NewRow(data, shortCode, body, stored, now);
      && row.status == Status.Pending
      && StatusCode(row.status) == 0
      && row.transactionId == body.checkoutRequestId
      && row.pid == (if data.pid.Some? then data.pid.value else data.accountReference)
      && row.partyA == data.phoneNumber && row.partyB == shortCode
      && row.code == None
      && row.feedback == PushFeedback(body)
      && row.amount == stored
      && CategoryCode(row.category) == 0 && TxTypeCode(row.txType) == 1
      && ChannelCode(row.channel) == 1 && AggregatorCode(row.aggregator) == 0
  {
  }

  // ---------------------------------------------------------------- the callback

  /** An `Item` that names the receipt number and has a value. */
  predicate IsReceipt(item: Item) {
    item.name == Some("MpesaReceiptNumber") && item.value.Some?
  }

  /** The value of the first receipt item, if any. */
  function FirstReceipt(items: seq<Item>): (r: Option<string>)
    decreases |items|
  {
    if items == [] then None
    else if IsReceipt(items[0]) then items[0].value
    else FirstReceipt(items[1..])
  }

  /** `FirstReceipt` finds a receipt exactly when there is one, and returns the
      value of the earliest. */
  lemma {:induction false} FirstReceiptCharacterized(items: seq<Item>)
    ensures FirstReceipt(items).Some? <==> exists k :: 0 <= k < |items| && IsReceipt(items[k])
    ensures forall k :: 0 <= k < |items| && IsReceipt(items[k]) && (forall j :: 0 <= j < k ==> !IsReceipt(items[j])) ==>
      FirstReceipt(items) == items[k].value
    decreases |items|
  {
    if items != [] && !IsReceipt(items[0]) {
      FirstReceiptCharacterized(items[1..]);
      assert forall k :: 1 <= k < |items| ==> items[k] == items[1..][k - 1];
      if FirstReceipt(items).Some? {
        var k :| 0 <= k < |items[1..]| && IsReceipt(items[1..][k]);
        assert IsReceipt(items[k + 1]);
      }
    }
  }

  /** The `for item in items` loop that stops at the first receipt item. */
  method FindReceipt(items: seq<Item>) returns (r: Option<string>)
    ensures r == FirstReceipt(items)
  {
    r := None;
    var i := 0;
    while i < |items|
      invariant 0 <= i <= |items|
      invariant FirstReceipt(items) == FirstReceipt(items[i..])
    {
      if IsReceipt(items[i]) {
        r := items[i].value;
        break;
      }
      assert items[i..][1..] == items[i + 1..];
      i := i + 1;
    }
  }

  /** Whether the payload's result code means success (Python's `== 0`). */
  predicate Succeeded(p: CallbackPayload)
    requires p.resultCode.Some?
  {
    EqualsZero(p.resultCode.value)
  }

  /** The row after the callback: the payload as feedback; ACCEPTED with the
      receipt (when the payload has one) on success, REJECTED otherwise. */
  function Reconcile(t: Transaction, p: CallbackPayload): (r: Transaction)
    requires p.resultCode.Some?
    ensures r.feedback == CallbackFeedback(p)
    ensures r.status == (if Succeeded(p) then Status.Accepted else Status.Rejected)
    ensures r.code == (if Succeeded(p) && FirstReceipt(p.items).Some? then FirstReceipt(p.items) else t.code)
    ensures r.(feedback := t.feedback, status := t.status, code := t.code) == t
  {
    var t1 := t.(feedback := CallbackFeedback(p));
    if Succeeded(p) then
      t1.(status := Status.Accepted, code := if FirstReceipt(p.items).Some? then FirstReceipt(p.items) else t.code)
    else t1.(status := Status.Rejected)
  }

  /** The outcome depends on the payload alone, not on the status the row had. */
  lemma ReconcileIgnoresPriorState(t: Transaction, s: Status, p: CallbackPayload)
    requires p.resultCode.Some?
    ensures Reconcile(t.(status := s), p) == Reconcile(t, p)
    ensures Reconcile(t.(feedback := PushFeedback(PushBody(None, false, None))), p) == Reconcile(t, p)
  {
  }

  /** Delivering the same callback twice has the effect of delivering it once. */
  lemma ReconcileIdempotent(t: Transaction, p: CallbackPayload)
    requires p.resultCode.Some?
    ensures Reconcile(Reconcile(t, p), p) == Reconcile(t, p)
  {
  }

  /** Nothing keeps a row in a final state: a failed callback after an accepted
      one turns it REJECTED, keeping the receipt it had. */
  lemma ReconcileLeavesAccepted(t: Transaction)
    requires t.status == Status.Accepted
    ensures var p := CallbackPayload(t.transactionId, Some(JInt(1032)), []);
      Reconcile(t, p).status == Status.Rejected && Reconcile(t, p).code == t.code
  {
  }

  /** The linked order, when there is one, with its status set to `target`; no
      other order and no other field changes. */
  function CascadeOrder(orders: map<int, Shop.Order>, orderId: Option<int>, target: PydanticModel.OrderStatus): (r: map<int, Shop.Order>)
    ensures r.Keys == orders.Keys
    ensures forall o :: o in orders && Some(o) != orderId ==> r[o] == orders[o]
    ensures orderId.Some? && orderId.value in orders ==> r[orderId.value] == orders[orderId.value].(status := target)
  {
    if orderId.Some? && orderId.value in orders then orders[orderId.value := orders[orderId.value].(status := target)]
    else orders
  }

  /** Why a callback raised. */
  datatype CallbackError =
    | ForbiddenOrigin
    | MissingCheckoutRequestId
    | TransactionNotFound
    | MissingResultCode
    | UpdateRefused(violation: Ledger.Violation)

  /** The effect of a callback on the ledger row `k` and the orders. */
  ghost predicate Reconciled(rows0: map<nat, Transaction>, orders0: map<int, Shop.Order>, k: nat, p: CallbackPayload,
                             target: PydanticModel.OrderStatus, rows1: map<nat, Transaction>, orders1: map<int, Shop.Order>)
    requires p.resultCode.Some?
  {
    && k in rows0
    && rows0[k].transactionId == p.checkoutRequestId
    && rows1 == rows0[k := Reconcile(rows0[k], p)]
    && orders1 == (if Succeeded(p) then CascadeOrder(orders0, rows0[k].orderId, target) else orders0)
  }

  /** The payload names a row of the ledger, carries a result code, and the
      reconciled row breaks no column constraint. */
  ghost predicate CallbackApplies(rows: map<nat, Transaction>, p: CallbackPayload) {
    && p.checkoutRequestId.Some? && p.resultCode.Some?
    && exists k :: k in rows && rows[k].transactionId == p.checkoutRequestId
         && Ledger.Conflict(rows, k, Reconcile(rows[k], p)).None?
  }

  /** The callback after its origin check: find the row by checkout id, reconcile
      it, move a linked order to `target` on success, and commit both together. */
  method ApplyCallback(p: CallbackPayload, target: PydanticModel.OrderStatus, ledger: Ledger.Store, db: Shop.Tables)
    returns (r: Result<CallbackPayload, CallbackError>)
    requires ledger.Valid() && db.Valid()
    modifies ledger, db
    ensures ledger.Valid() && db.Valid()
    ensures ledger.nextId == old(ledger.nextId)
    ensures db.products == old(db.products) && db.addresses == old(db.addresses)
    ensures db.details == old(db.details) && db.nextOrderId == old(db.nextOrderId)
    ensures r.Failure? ==> ledger.rows == old(ledger.rows) && db.orders == old(db.orders)
    ensures r.Failure? ==> r.error != ForbiddenOrigin
    ensures p.checkoutRequestId.None? ==> r == Failure(MissingCheckoutRequestId)
    ensures p.checkoutRequestId.Some? && (forall k :: k in old(ledger.rows) ==> old(ledger.rows)[k].transactionId != p.checkoutRequestId)
      ==> r == Failure(TransactionNotFound)
    ensures r.Success? <==> CallbackApplies(old(ledger.rows), p)
    ensures r.Success? ==>
      (r.value == p && p.resultCode.Some?
       && exists k :: Reconciled(old(ledger.rows), old(db.orders), k, p, target, ledger.rows, db.orders))
  {
    if p.checkoutRequestId.None? {
      return Failure(MissingCheckoutRequestId);
    }
    var found := ledger.FindByTransactionId(p.checkoutRequestId.value);
    if found.None? {
      return Failure(TransactionNotFound);
    }
    var k := found.value;
    if p.resultCode.None? {
      return Failure(MissingResultCode);
    }
    var t := ledger.rows[k];
    var code := FindReceipt(p.items);
    var t1 := t.(feedback := CallbackFeedback(p));
    if EqualsZero(p.resultCode.value) {
      t1 := t1.(status := Status.Accepted);
      if code.Some? {
        t1 := t1.(code := code);
      }
    } else {
      t1 := t1.(status := Status.Rejected);
    }
    assert t1 == Reconcile(t, p);
    var refused := ledger.Update(t1);
    if refused.Some? {
      return Failure(UpdateRefused(refused.value));
    }
    if EqualsZero(p.resultCode.value) {
      db.orders := CascadeOrder(db.orders, t.orderId, target);
    }
    r := Success(p);
    assert Reconciled(old(ledger.rows), old(db.orders), k, p, target, ledger.rows, db.orders);
  }
}
