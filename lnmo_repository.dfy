/** `repositories/lnmo_repository.py`, the repository the payment endpoints use:
    its configuration, origin check, token check, `transact` and `callback`. */
module LnmoRepository {
  import opened Wrappers
  import opened Text
  import opened Gateway
  import opened TransactionModel
  import opened Daraja
  import PydanticModel
  import Shop
  import Ledger

  /** This variant reads the callback URL from `MPESA_CALLBACK_URL`. */
  const CallbackUrlVar := "MPESA_CALLBACK_URL"
  const DefaultCallbackUrl := "https://b458-102-213-49-27.ngrok-free.app/ipn/daraja/lnmo/callback"
  const MpesaIps: seq<string> := ["196.201.214.0/24", "196.201.214.200"]

  /** The class attributes as read from `env`, with their defaults. */
  function LoadConfig(env: map<string, string>): (c: Config)
    ensures c.consumerKey == Getenv(env, ConsumerKeyVar) && c.consumerSecret == Getenv(env, ConsumerSecretVar)
    ensures c.passKey == Getenv(env, PassKeyVar)
    ensures c.environment == GetenvOr(env, "MPESA_LNMO_ENVIRONMENT", "sandbox")
    ensures c.shortCode == GetenvOr(env, "MPESA_LNMO_SHORT_CODE", "174379")
    ensures c.callbackUrl == GetenvOr(env, CallbackUrlVar, DefaultCallbackUrl)
  {
    Config(
      Getenv(env, ConsumerKeyVar),
      Getenv(env, ConsumerSecretVar),
      GetenvOr(env, "MPESA_LNMO_ENVIRONMENT", "sandbox"),
      Getenv(env, PassKeyVar),
      GetenvOr(env, "MPESA_LNMO_SHORT_CODE", "174379"),
      GetenvOr(env, CallbackUrlVar, DefaultCallbackUrl))
  }

  /** With the three credentials set and non-empty, construction fails only when
      `MPESA_CALLBACK_URL` is set to the empty string, and the message then names
      `MPESA_LNMO_CALLBACK_URL`, a variable this variant never reads. */
  lemma ConstructionNeedsCredentials(env: map<string, string>)
    requires !Blank(Getenv(env, ConsumerKeyVar)) && !Blank(Getenv(env, ConsumerSecretVar)) && !Blank(Getenv(env, PassKeyVar))
    ensures NewRepository(LoadConfig(env)).Failure? <==> CallbackUrlVar in env && env[CallbackUrlVar] == ""
    ensures NewRepository(LoadConfig(env)).Failure? ==>
      NewRepository(LoadConfig(env)).error == "Missing required environment variables: MPESA_LNMO_CALLBACK_URL"
  {
    var c := LoadConfig(env);
    if !Complete(c) {
      assert MissingVariables(c) == [CallbackUrlName];
    }
  }

  /** `verify_callback`: any host in sandbox; otherwise a host that starts with
      the address part of some entry of the allow list. */
  predicate AllowedOrigin(environment: string, host: string) {
    environment == "sandbox" || exists j :: 0 <= j < |MpesaIps| && StartsWith(host, SplitHead(MpesaIps[j], '/'))
  }

  /** The loop of `verify_callback`, returning at the first matching entry. */
  method VerifyCallback(repo: Repository, host: string) returns (ok: bool)
    ensures ok == AllowedOrigin(repo.environment, host)
  {
    if repo.environment == "sandbox" {
      return true;
    }
    for j := 0 to |MpesaIps|
      invariant forall i :: 0 <= i < j ==> !StartsWith(host, SplitHead(MpesaIps[i], '/'))
    {
      if StartsWith(host, SplitHead(MpesaIps[j], '/')) {
        return true;
      }
    }
    return false;
  }

  /** The address parts of the allow list. */
  lemma AllowListAddresses()
    ensures SplitHead(MpesaIps[0], '/') == "196.201.214.0"
    ensures SplitHead(MpesaIps[1], '/') == "196.201.214.200"
  {
    SplitHeadAt("196.201.214.0", '/', "24");
    assert MpesaIps[0] == "196.201.214.0" + ['/'] + "24";
  }

  /** An entry of the allow list whose address is not a prefix of the host. */
  lemma EntryRefuses(host: string, j: nat)
    requires j < |MpesaIps|
    requires !StartsWith(host, "196.201.214.0")
    requires !StartsWith(host, "196.201.214.200")
    ensures !StartsWith(host, SplitHead(MpesaIps[j], '/'))
  {
    AllowListAddresses();
    if j != 0 {
      assert j == 1;
    }
  }

  /** Outside sandbox a host is refused when neither entry is a prefix of it. */
  lemma RefusedByBothEntries(host: string)
    requires !StartsWith(host, "196.201.214.0")
    requires !StartsWith(host, "196.201.214.200")
    ensures !AllowedOrigin("production", host)
  {
    forall j | 0 <= j < |MpesaIps|
      ensures !StartsWith(host, SplitHead(MpesaIps[j], '/'))
    {
      EntryRefuses(host, j);
    }
  }

  /** Outside sandbox another address of the 196.201.214.0/24 range is refused. */
  lemma OriginRangeNotExpanded()
    ensures !AllowedOrigin("production", "196.201.214.5")
  {
    var host := "196.201.214.5";
    NotPrefixAt(host, "196.201.214.0", 12);
    NotPrefixAt(host, "196.201.214.200", 13);
    RefusedByBothEntries(host);
  }

  /** Outside sandbox the listed addresses pass. */
  lemma OriginListedPasses()
    ensures AllowedOrigin("production", "196.201.214.200")
    ensures AllowedOrigin("production", "196.201.214.0")
  {
    AllowListAddresses();
    StartsWithConcat("196.201.214.200", "");
    assert "196.201.214.200" + "" == "196.201.214.200";
    StartsWithConcat("196.201.214.0", "");
    assert "196.201.214.0" + "" == "196.201.214.0";
  }

  /** A string that merely starts with a listed address passes too: the test is
      textual, not a comparison of addresses. */
  lemma OriginIsPrefixTest()
    ensures AllowedOrigin("production", "196.201.214.2001")
  {
    AllowListAddresses();
    StartsWithConcat("196.201.214.200", "1");
    assert "196.201.214.200" + "1" == "196.201.214.2001";
  }

  /** `generate_access_token`: the token, or the exception text. An absent or
      empty token is an error. */
  function AccessToken(reply: TokenReply): (r: Result<string, string>)
    ensures r.Success? <==>
      (reply.TokenAnswered? && reply.status == 200 && reply.json && reply.accessToken.Some? && reply.accessToken.value != "")
    ensures r.Success? ==> r.value == reply.accessToken.value
    ensures reply.TokenAnswered? && reply.status != 200 ==> r == Failure("HTTP " + IntToString(reply.status) + ": " + reply.text)
    ensures reply.TokenAnswered? && reply.status == 200 && reply.json && Blank(reply.accessToken) ==>
      r == Failure("Access token not found in response")
  {
    match reply
    case TokenUnanswered => Failure("connection error")
    case TokenAnswered(status, text, json, token) =>
      if status != 200 then Failure("HTTP " + IntToString(status) + ": " + text)
      else if !json then Failure("response is not JSON")
      else if Blank(token) then Failure("Access token not found in response")
      else Success(token.value)
  }

  /** `int(float(amount))`: whole shillings, truncated toward zero, of an amount in cents. */
  function WholeUnits(cents: int): int {
    if cents >= 0 then cents / 100 else -((-cents) / 100)
  }

  /** Truncation drops less than one shilling, toward zero, and loses nothing
      exactly when the amount is a whole number of shillings. */
  lemma WholeUnitsTruncates(cents: int)
    ensures cents >= 0 ==> 0 <= cents - WholeUnits(cents) * 100 < 100
    ensures cents < 0 ==> 0 <= WholeUnits(cents) * 100 - cents < 100
    ensures WholeUnits(cents) * 100 == cents <==> cents % 100 == 0
  {
  }

  /** Truncation examples: 150.75 becomes 150 and -0.5 becomes 0. */
  lemma WholeUnitsExamples()
    ensures WholeUnits(15075) == 150 && WholeUnits(-50) == 0 && WholeUnits(20000) == 200
  {
  }

  /** `transact`: fetch the token, send the push with the truncated amount, and
      record a pending row only after a 200 reply without `errorCode`. The row
      keeps the truncated amount (as cents). */
  method Transact(repo: Repository, data: TransactData, tokenReply: TokenReply, timestamp: string, now: int,
                  reply: PushReply, ledger: Ledger.Store)
    returns (r: Result<PushBody, TransactError>, calls: seq<Call>)
    requires ledger.Valid()
    modifies ledger
    ensures ledger.Valid()
    ensures r.Failure? ==> ledger.rows == old(ledger.rows) && ledger.nextId == old(ledger.nextId)
    ensures AccessToken(tokenReply).Failure? ==>
      r == Failure(GatewayError(AccessToken(tokenReply).error)) && calls == [TokenCallFor(repo)]
    ensures AccessToken(tokenReply).Success? ==>
      calls == [TokenCallFor(repo),
                PushCall(PushRequestFor(repo, data, AccessToken(tokenReply).value, timestamp, Units(WholeUnits(data.amount))))]
    ensures AccessToken(tokenReply).Success? && PushOutcome(reply).Failure? ==> r == Failure(GatewayError(PushOutcome(reply).error))
    ensures r.Success? ==>
      && AccessToken(tokenReply).Success? && PushOutcome(reply).Success? && r.value == PushOutcome(reply).value
      && ledger.rows == old(ledger.rows)[old(ledger.nextId) :=
           NewRow(data, repo.shortCode, r.value, WholeUnits(data.amount) * 100, now).(id := old(ledger.nextId))]
    ensures AccessToken(tokenReply).Success? && PushOutcome(reply).Success? ==>
      (r.Success? <==> Ledger.Conflict(old(ledger.rows), old(ledger.nextId),
         NewRow(data, repo.shortCode, PushOutcome(reply).value, WholeUnits(data.amount) * 100, now).(id := old(ledger.nextId))).None?)
  {
    var token := AccessToken(tokenReply);
    calls := [TokenCallFor(repo)];
    if token.Failure? {
      return Failure(GatewayError(token.error)), calls;
    }
    var units := WholeUnits(data.amount);
    var call;
    r, call := RecordPush(repo, data, token.value, Units(units), units * 100, timestamp, now, reply, ledger);
    calls := calls + [call];
  }

  /** `callback`: the origin check only in production, then the reconciliation,
      with a linked order moved to DELIVERED on success. */
  method Callback(repo: Repository, host: string, p: CallbackPayload, ledger: Ledger.Store, db: Shop.Tables)
    returns (r: Result<CallbackPayload, CallbackError>)
    requires ledger.Valid() && db.Valid()
    modifies ledger, db
    ensures ledger.Valid() && db.Valid()
    ensures ledger.nextId == old(ledger.nextId)
    ensures db.products == old(db.products) && db.addresses == old(db.addresses)
    ensures db.details == old(db.details) && db.nextOrderId == old(db.nextOrderId)
    ensures r.Failure? ==> ledger.rows == old(ledger.rows) && db.orders == old(db.orders)
    ensures r == Failure(ForbiddenOrigin) <==> repo.environment == "production" && !AllowedOrigin(repo.environment, host)
    ensures r.Success? <==>
      (!(repo.environment == "production" && !AllowedOrigin(repo.environment, host)) && CallbackApplies(old(ledger.rows), p))
    ensures r.Success? ==>
      (r.value == p && p.resultCode.Some?
       && exists k :: Reconciled(old(ledger.rows), old(db.orders), k, p, PydanticModel.OrderStatus.Delivered, ledger.rows, db.orders))
  {
    if repo.environment == "production" {
      var ok := VerifyCallback(repo, host);
      if !ok {
        return Failure(ForbiddenOrigin);
      }
    }
    r := ApplyCallback(p, PydanticModel.OrderStatus.Delivered, ledger, db);
  }
}
