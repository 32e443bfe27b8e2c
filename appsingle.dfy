/** `appsingle.py`, the earlier single-file variant of the repository: a
    different callback variable, an exact-match origin check applied in every
    environment, a lenient token check, the amount sent as text, and a cascade
    to a PROCESSING order status. */
module AppSingle {
  import opened Wrappers
  import opened Text
  import opened Gateway
  import opened TransactionModel
  import opened Daraja
  import PydanticModel
  import Shop
  import Ledger

  const DefaultCallbackUrl := "https://d270-197-237-26-50.ngrok-free.app/ipn/daraja/lnmo/callback"
  const MpesaIps: seq<string> := ["196.201.214.0/24"]

  /** The class attributes as read from `env`; the callback URL comes from
      `MPESA_LNMO_CALLBACK_URL`, the name the missing-variable message uses. */
  function LoadConfig(env: map<string, string>): (c: Config)
    ensures c.consumerKey == Getenv(env, ConsumerKeyVar) && c.consumerSecret == Getenv(env, ConsumerSecretVar)
    ensures c.passKey == Getenv(env, PassKeyVar)
    ensures c.environment == GetenvOr(env, "MPESA_LNMO_ENVIRONMENT", "sandbox")
    ensures c.shortCode == GetenvOr(env, "MPESA_LNMO_SHORT_CODE", "174379")
    ensures c.callbackUrl == GetenvOr(env, CallbackUrlName, DefaultCallbackUrl)
  {
    Config(
      Getenv(env, ConsumerKeyVar),
      Getenv(env, ConsumerSecretVar),
      GetenvOr(env, "MPESA_LNMO_ENVIRONMENT", "sandbox"),
      Getenv(env, PassKeyVar),
      GetenvOr(env, "MPESA_LNMO_SHORT_CODE", "174379"),
      GetenvOr(env, CallbackUrlName, DefaultCallbackUrl))
  }

  /** Construction fails exactly when a credential is blank or the callback
      variable is set to the empty string; the message names what is missing. */
  lemma ConstructionChecksConfig(env: map<string, string>)
    ensures NewRepository(LoadConfig(env)).Success? <==>
      (!Blank(Getenv(env, ConsumerKeyVar)) && !Blank(Getenv(env, ConsumerSecretVar)) && !Blank(Getenv(env, PassKeyVar))
       && !(CallbackUrlName in env && env[CallbackUrlName] == ""))
  {
  }

  /** `verify_callback`: the host string is one of the list's entries. */
  predicate AllowedOrigin(host: string) {
    host in MpesaIps
  }

  /** Only the literal text of the range passes; no address inside it does. */
  lemma OriginIsExactMatch(host: string)
    ensures AllowedOrigin(host) <==> host == "196.201.214.0/24"
    ensures !AllowedOrigin("196.201.214.5") && !AllowedOrigin("196.201.214.0")
  {
    assert "196.201.214.0" != "196.201.214.0/24" by {
      assert |"196.201.214.0"| != |"196.201.214.0/24"|;
    }
  }

  /** `generate_access_token`: only a non-200 reply is an error; the token field
      is returned whether or not it is present. */
  function AccessToken(reply: TokenReply): (r: Result<Option<string>, string>)
    ensures r.Success? <==> reply.TokenAnswered? && reply.status == 200 && reply.json
    ensures r.Success? ==> r.value == reply.accessToken
    ensures reply.TokenAnswered? && reply.status != 200 ==> r == Failure("HTTP " + IntToString(reply.status) + ": " + reply.text)
  {
    match reply
    case TokenUnanswered => Failure("connection error")
    case TokenAnswered(status, text, json, token) =>
      if status != 200 then Failure("HTTP " + IntToString(status) + ": " + text)
      else if !json then Failure("response is not JSON")
      else Success(token)
  }

  /** The token text the bearer header is formatted with: `None` prints as "None". */
  function TokenText(token: Option<string>): string {
    token.GetOr("None")
  }

  /** A 200 reply without a token still lets the push go out, as "Bearer None". */
  lemma MissingTokenStillPushes(repo: Repository, data: TransactData, timestamp: string)
    ensures AccessToken(TokenAnswered(200, "{}", true, None)) == Success(None)
    ensures PushRequestFor(repo, data, TokenText(None), timestamp, Units(0)).authorization == "Bearer None"
  {
  }

  // ---------------------------------------------------------------- the amount as text

  /** The fraction digits of `str(float)` for a whole number of cents below 100:
      trailing zeros dropped, but at least one digit. */
  function FractionText(f: nat): (r: string)
    requires f < 100
    ensures 1 <= |r| <= 2 && AllDigits(r)
  {
    if f % 10 == 0 then [DigitChar(f / 10)] else [DigitChar(f / 10), DigitChar(f % 10)]
  }

  /** `str(data["Amount"])` for an amount of `cents` cents: "150.0", "150.5", "150.25", "-0.5". */
  function AmountText(cents: int): string {
    if cents < 0 then "-" + UnsignedAmountText(-cents) else UnsignedAmountText(cents)
  }

  function UnsignedAmountText(cents: nat): string {
    NatToString(cents / 100) + "." + FractionText(cents % 100)
  }

  /** The number of cents a decimal text of at most two fraction digits stands for. */
  function ParseUnsignedAmount(s: string): (r: Option<nat>) {
    var whole := SplitHead(s, '.');
    if |whole| == |s| || whole == [] || !AllDigits(whole) then None
    else
      var frac := s[|whole| + 1..];
      if !AllDigits(frac) || !(1 <= |frac| <= 2) then None
      else Some(DigitsValue(whole) * 100 + DigitValue(frac[0]) * 10 + (if |frac| == 2 then DigitValue(frac[1]) else 0))
  }

  /** Reads back a text `AmountText` produces, with an optional leading minus. */
  function ParseAmountText(s: string): Option<int> {
    var negative := s != [] && s[0] == '-';
    match ParseUnsignedAmount(if negative then s[1..] else s)
    case Some(n) => var v: int := n; Some(if negative then -v else v)
    case None => None
  }

  /** The part before the first separator, when the separator does not occur in it. */
  lemma SplitHeadOfDigits(a: string, b: string)
    requires AllDigits(a)
    ensures SplitHead(a + ['.'] + b, '.') == a
  {
    SplitHeadAt(a, '.', b);
  }

  lemma UnsignedRoundTrip(cents: nat)
    ensures ParseUnsignedAmount(UnsignedAmountText(cents)) == Some(cents)
  {
    var whole, frac := NatToString(cents / 100), FractionText(cents % 100);
    var s := UnsignedAmountText(cents);
    assert s == whole + ['.'] + frac;
    SplitHeadOfDigits(whole, frac);
    assert s[|whole| + 1..] == frac;
    NatToStringValue(cents / 100);
  }

  /** The text sent for an amount reads back as the same number of cents. */
  lemma AmountTextRoundTrip(cents: int)
    ensures ParseAmountText(AmountText(cents)) == Some(cents)
  {
    var n: nat := if cents < 0 then -cents else cents;
    var u := UnsignedAmountText(n);
    UnsignedRoundTrip(n);
    assert u[0] == NatToString(n / 100)[0];
    if cents < 0 {
      assert AmountText(cents) == "-" + u;
      assert ("-" + u)[1..] == u;
    } else {
      assert AmountText(cents) == u;
      assert u[0] != '-';
    }
  }

  /** Renderings of whole and half amounts, as Python prints the float. */
  lemma AmountTextExamples()
    ensures AmountText(15000) == "150.0" && AmountText(15050) == "150.5"
  {
    assert NatToString(150) == "150";
  }

  /** Two fraction digits are kept when the second is not zero; a negative
      amount is printed with its sign before the whole part. */
  lemma AmountTextFractionExamples()
    ensures AmountText(15025) == "150.25" && AmountText(-50) == "-0.5"
  {
    assert NatToString(150) == "150";
    assert NatToString(0) == "0";
  }

  // ---------------------------------------------------------------- transact and callback

  /** `transact`: fetch the token, send the amount as its text, and record a
      pending row only after a 200 reply without `errorCode`. The row keeps the
      amount unconverted. */
  method Transact(repo: Repository, data: TransactData, tokenReply: TokenReply, timestamp: string, now: int,
                  reply: PushReply, ledger: Ledger.Store)
    returns (r: Result<PushBody, TransactError>, calls: seq<Call>)
    requires ledger.Valid()
    modifies ledger
    ensures ledger.Valid()
    ensures r.Failure? ==> ledger.rows == old(ledger.rows) && ledger.nextId == old(ledger.nextId)
    ensures AccessToken(tokenReply).Failure? ==>
      r == Failure(GatewayError(AccessToken(tokenReply).error)) && calls == [TokenCallFor(repo)]
    ensures AccessToken(tokenReply).Success? ==>
      calls == [TokenCallFor(repo),
                PushCall(PushRequestFor(repo, data, TokenText(AccessToken(tokenReply).value), timestamp, PushAmount.AmountText(AmountText(data.amount))))]
    ensures AccessToken(tokenReply).Success? && PushOutcome(reply).Failure? ==> r == Failure(GatewayError(PushOutcome(reply).error))
    ensures r.Success? ==>
      && AccessToken(tokenReply).Success? && PushOutcome(reply).Success? && r.value == PushOutcome(reply).value
      && ledger.rows == old(ledger.rows)[old(ledger.nextId) :=
           NewRow(data, repo.shortCode, r.value, data.amount, now).(id := old(ledger.nextId))]
    ensures AccessToken(tokenReply).Success? && PushOutcome(reply).Success? ==>
      (r.Success? <==> Ledger.Conflict(old(ledger.rows), old(ledger.nextId),
         NewRow(data, repo.shortCode, PushOutcome(reply).value, data.amount, now).(id := old(ledger.nextId))).None?)
  {
    var token := AccessToken(tokenReply);
    calls := [TokenCallFor(repo)];
    if token.Failure? {
      return Failure(GatewayError(token.error)), calls;
    }
    var call;
    r, call := RecordPush(repo, data, TokenText(token.value), PushAmount.AmountText(AmountText(data.amount)), data.amount,
                          timestamp, now, reply, ledger);
    calls := calls + [call];
  }

  /** `callback`: the origin check in every environment, then the reconciliation,
      with a linked order moved to `cascade` on success. The source names a
      PROCESSING order status that the order status enumeration does not have,
      so the target is a parameter. */
  method Callback(host: string, p: CallbackPayload, cascade: PydanticModel.OrderStatus, ledger: Ledger.Store, db: Shop.Tables)
    returns (r: Result<CallbackPayload, CallbackError>)
    requires ledger.Valid() && db.Valid()
    modifies ledger, db
    ensures ledger.Valid() && db.Valid()
    ensures ledger.nextId == old(ledger.nextId)
    ensures db.products == old(db.products) && db.addresses == old(db.addresses)
    ensures db.details == old(db.details) && db.nextOrderId == old(db.nextOrderId)
    ensures r.Failure? ==> ledger.rows == old(ledger.rows) && db.orders == old(db.orders)
    ensures r == Failure(ForbiddenOrigin) <==> !AllowedOrigin(host)
    ensures r.Success? <==> AllowedOrigin(host) && CallbackApplies(old(ledger.rows), p)
    ensures r.Success? ==>
      (r.value == p && p.resultCode.Some?
       && exists k :: Reconciled(old(ledger.rows), old(db.orders), k, p, cascade, ledger.rows, db.orders))
  {
    if !AllowedOrigin(host) {
      return Failure(ForbiddenOrigin);
    }
    r := ApplyCallback(p, cascade, ledger, db);
  }
}
