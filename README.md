# M-Pesa STK push payments and order bookkeeping, modelled in Dafny

This project models the payment core of a small FastAPI shop that takes
payments through Safaricom's M-Pesa "Lipa na M-Pesa Online" (LNMO) STK push,
together with the order bookkeeping around it.

- **Ledger.** The `transactions` table (`Ledger.Store`) holds one row per
  payment attempt. The integrity rules of its columns are stated as
  predicates, and every write keeps them: unique `_pid`, and unique
  `transaction_id` and `transaction_code` where set.
- **Repository and its earlier variant.** The model covers the two versions
  of the gateway repository, `LNMORepository` and the single-file variant.
  For each it models four things:
  - the configuration check;
  - the Basic credential and the push password, which are built with Base64
    (section 4 of RFC 4648) over UTF-8;
  - `transact`, which records a pending row only after a 200 reply without
    `errorCode`;
  - `callback`: the origin check, the lookup by checkout id, the transition
    to ACCEPTED or REJECTED, the receipt number, and the cascade to the
    linked order.
- **HTTP endpoints.** The model covers:
  - the guard chain of payment initiation;
  - the status-query mapping;
  - both callback endpoints;
  - order creation with its stock checks;
  - order status updates;
  - pagination;
  - the two delete guards;
  - the checks of image upload.
- **Enumerations and validators.** The model covers the closed
  enumerations, and the request validators of the two transaction schema
  files.

How the model stands in for the source:

- **Money and time.** Money is integer cents and quantities are integers.
  Timestamps are parameters.
- **The provider.** Its replies are abstract values (`Gateway`). Calls to it
  are returned as a `seq<Call>`, so a contract can say that nothing was sent.
- **Database commit.** A commit is the point where a method's changes to
  `Ledger.Store` and `Shop.Tables` take effect. A failed path leaves both
  unchanged.
- **How the methods are checked.** Each state-changing method is proved
  against specification functions, such as the functions below:
  - `Daraja.Reconcile` and `Daraja.CascadeOrder`;
  - `OrderEndpoints.CartError`, `OrderEndpoints.StockAfter` and
    `OrderEndpoints.DetailsFor`;
  - `PaymentEndpoints.OrderGuard`.

  The properties the code promises are then lemmas about those functions.

Three behaviours of the code a reader might not expect, which the model keeps:

- **Callback URL variable.** `LNMORepository` reads its callback URL from
  `MPESA_CALLBACK_URL`, but its constructor checks `MPESA_LNMO_CALLBACK_URL`
  (`LnmoRepository.ConstructionNeedsCredentials`).
- **Origin check.** The origin check is a string-prefix test
  (`LnmoRepository.OriginIsPrefixTest`).
- **Status query.** The status query compares the result code as text, so
  it disagrees with the callback on a numeric 0
  (`PaymentEndpoints.QueryAndCallbackDisagree`).

Modules: `Wrappers`, `Http`, `Text`, `Utf8`, `Base64`, `Gateway`,
`TransactionModel`, `Ledger`, `PydanticModel`, `Shop`, `Daraja` (what both
repositories share), `LnmoRepository`, `AppSingle`, `TransactionSchemas`,
`TransactionSchema`, `OrderEndpoints`, `PaymentEndpoints`.

## Model

| member | source | states |
|---|---|---|
| TransactionModel.StatusCode | models/transaction.py:11-15 | each status has a code in 0..4 that reads back as that status |
| TransactionModel.StatusOfCode | models/transaction.py:11-15 | a stored integer is a status exactly when it is one of 0..4 |
| TransactionModel.StatusOfCodeInverse | models/transaction.py:11-15 | reading a valid code and writing it back gives the same code |
| TransactionModel.StatusCodesDistinct | models/transaction.py:11-15 | the five status codes are pairwise distinct |
| TransactionModel.CategoryCode | models/transaction.py:18-19 | PURCHASE_ORDER and PAYOUT have codes in 0..1 that read back as themselves |
| TransactionModel.CategoryOfCode | models/transaction.py:18-19 | the categories are a closed set: only 0 and 1 read back |
| TransactionModel.TxTypeCode | models/transaction.py:22-23 | DEBIT and CREDIT have codes in 0..1 that read back as themselves |
| TransactionModel.TxTypeOfCode | models/transaction.py:22-23 | the transaction types are a closed set: only 0 and 1 read back |
| TransactionModel.ChannelCode | models/transaction.py:26-29 | C2B, LNMO, B2C and B2B have codes in 0..3 that read back as themselves |
| TransactionModel.ChannelOfCode | models/transaction.py:26-29 | the channels are a closed set: only 0..3 read back |
| TransactionModel.AggregatorCode | models/transaction.py:32-33 | MPESA_KE and PAYPAL_USD have codes in 0..1 that read back as themselves |
| TransactionModel.AggregatorOfCode | models/transaction.py:32-33 | the aggregators are a closed set: only 0 and 1 read back |
| Ledger.ConflictIffInvalid | models/transaction.py:36-50 | a write is refused exactly when the table would break a uniqueness or `Numeric(10, 2)` constraint |
| Ledger.Store.constructor | models/transaction.py:35-52 | an empty table satisfies every column constraint |
| Ledger.Store.Insert | models/transaction.py:35-52 | a new row gets the next id and is stored unless it breaks a constraint; the table stays valid |
| Ledger.Store.Update | models/transaction.py:35-52 | a row is replaced unless the change breaks a constraint; nothing else changes and the table stays valid |
| Ledger.Store.FindByTransactionId | repositories/lnmo_repository.py:139-141 | returns the only row with that checkout id, or none when no row has it |
| Ledger.Store.FindByOrder | main.py:696-703 | returns a row of the order with one of the given statuses, or none when no such row exists |
| PydanticModel.RoleValue | pydantic_model.py:7-9 | each role's text parses back to the role |
| PydanticModel.ParseRole | pydantic_model.py:7-9 | a role is exactly "admin" or "customer" |
| PydanticModel.OrderStatusValue | pydantic_model.py:11-14 | each order status text parses back to the status |
| PydanticModel.ParseOrderStatus | pydantic_model.py:11-14 | an order status is exactly one of "pending", "delivered" or "cancelled"; there is no "processing" |
| PydanticModel.StatusName | pydantic_model.py:16-21 | each ledger status has an upper-case name that parses back to it |
| PydanticModel.ParseStatusName | pydantic_model.py:16-21 | a transaction status name is exactly one of the five upper-case names |
| PydanticModel.NameAndCodeAgree | pydantic_model.py:16-21 | the names and the integer codes describe the same five statuses, both ways round |
| PydanticModel.ValidateInitiatePayment | pydantic_model.py:160-163 | a payment request is accepted exactly when its amount is above zero, with the fields unchanged; otherwise 422 |
| PydanticModel.CartPayloadDefaults | pydantic_model.py:67-71 | an order request without the optional fields has no address, delivery fee 0 and no transaction id |
| TransactionSchemas.PhonePattern | schemas/transaction_schemas.py:9 | the phone pattern is thirteen one-character atoms |
| TransactionSchemas.MatchesCharacterized | schemas/transaction_schemas.py:9 | an anchored match takes one character per atom, with at most one newline after them |
| TransactionSchemas.PhoneValidCharacterized | schemas/transaction_schemas.py:9 | a phone number is accepted exactly when it is "+254" and nine digits, with at most one newline after them |
| TransactionSchemas.InternationalAccepted | schemas/transaction_schemas.py:9 | "+254" followed by any nine digits is accepted |
| TransactionSchemas.PhoneAcceptsInternational | schemas/transaction_schemas.py:9 | "+254712345678" is accepted |
| TransactionSchemas.PhoneRefusesOthers | schemas/transaction_schemas.py:9 | the local format "0712345678", and a number one digit short, are refused |
| TransactionSchemas.FieldErrors | schemas/transaction_schemas.py:7-10 | a field is listed exactly when its constraint fails: amount above zero, the phone pattern, and a reference of 1 to 100 characters |
| TransactionSchemas.Validate | schemas/transaction_schemas.py:7-10 | a request is accepted exactly when all three field constraints hold, with the fields unchanged; otherwise 422 |
| TransactionSchemas.QueryTransactionId | schemas/transaction_schemas.py:12-13 | a string value is taken as it is; a missing or null `transaction_id` is refused with 422 |
| TransactionSchemas.ToResponse | schemas/transaction_schemas.py:20-33 | the response copies the row's id, pid, parties, account reference, amount, checkout id and receipt, and gives its status as a TransactionStatus name that parses back to the row's status |
| TransactionSchema.Validate | schemas/transaction.py:7-10 | a request is accepted exactly when the amount is above zero, the phone has 10 to 15 characters and the reference has 1 to 100 |
| TransactionSchema.StrictImpliesLenient | schemas/transaction.py:9 | every request the strict schema accepts, the lenient one accepts too, with the same value |
| TransactionSchema.LenientAcceptsMore | schemas/transaction.py:9 | the local format and arbitrary text pass the lenient schema but not the strict one |
| TransactionSchema.ResponseStatus | schemas/transaction.py:29 | the integer `_status` of a response reads back as the row's status |
| Text.NotPrefixAt | repositories/lnmo_repository.py:187 | a string that ends, or differs, at some position of a prefix does not start with it |
| Text.StartsWithConcat | repositories/lnmo_repository.py:187 | a string starts with each of its prefixes |
| Text.SplitHead | repositories/lnmo_repository.py:187 | `split(sep)[0]` is a prefix of the string that contains no separator and is followed by one when shorter |
| Text.SplitHeadAt | repositories/lnmo_repository.py:187 | splitting `a + sep + b` at the first separator gives back `a` when `a` has none |
| Text.LastSegment | main.py:79 | `split(sep)[-1]` is a suffix of the string that contains no separator |
| Text.LowerAscii | main.py:79 | lower-casing keeps the length and maps each letter to its lower case |
| Text.NatToString | repositories/lnmo_repository.py:202 | the decimal rendering of a number is a non-empty string of digits, with a leading zero only for 0 |
| Text.IntToString | repositories/lnmo_repository.py:202 | the rendering of an integer is its digits, with a minus sign exactly when it is negative |
| Text.NatToStringValue | repositories/lnmo_repository.py:202 | reading a number's rendering back gives the number |
| Text.NatToStringInjective | main.py:719 | different numbers have different renderings |
| Text.IntToStringInjective | main.py:719 | different integers have different renderings |
| Text.Join | repositories/lnmo_repository.py:41 | joining an empty list gives "", a single name gives that name, and the result starts with the first name |
| Text.JoinAppend | repositories/lnmo_repository.py:41 | joining one more name adds the separator and then that name at the end, so the names appear in order with one separator between each two |
| Text.JoinLength | repositories/lnmo_repository.py:41 | the joined text is as long as all the names together plus one separator for each two neighbours |
| Utf8.EncodeChar | repositories/lnmo_repository.py:195 | a character encodes to one to four bytes, to one byte exactly when it is ASCII |
| Utf8.Encode | repositories/lnmo_repository.py:195 | the encoding is never shorter than the text |
| Utf8.DecodeFirst | repositories/lnmo_repository.py:195 | reading one character consumes at least one byte and no more bytes than are present |
| Utf8.EncodeConcat | repositories/lnmo_repository.py:195 | encoding a concatenation concatenates the encodings |
| Utf8.EncodeConcat3 | repositories/lnmo_repository.py:217-218 | encoding three concatenated texts concatenates their encodings |
| Utf8.DecodeFirstOfEncodeChar | repositories/lnmo_repository.py:195 | the first character read from an encoding is the character encoded, with its length |
| Utf8.DecodeTwo | repositories/lnmo_repository.py:195 | two-byte sequences decode back to their character |
| Utf8.DecodeThree | repositories/lnmo_repository.py:195 | three-byte sequences decode back to their character |
| Utf8.DecodeFour | repositories/lnmo_repository.py:195 | four-byte sequences decode back to their character |
| Utf8.DecodeEncode | repositories/lnmo_repository.py:195 | decoding the UTF-8 encoding of a text gives the text back |
| Utf8.EncodeInjective | repositories/lnmo_repository.py:195 | different texts have different encodings |
| Base64.SextetValue | repositories/lnmo_repository.py:195 | a character that has a 6-bit value is the alphabet character of that value |
| Base64.SextetRoundTrip | repositories/lnmo_repository.py:195 | the character for a 6-bit value reads back as that value |
| Base64.EncodeBlock | repositories/lnmo_repository.py:195 | three bytes become four alphabet characters |
| Base64.Encode | repositories/lnmo_repository.py:195 | n bytes become 4 * ceil(n / 3) characters |
| Base64.EncodeAlphabet | repositories/lnmo_repository.py:195 | an encoding holds alphabet characters, with '=' padding only at its end |
| Base64.DecodeQuad | repositories/lnmo_repository.py:195 | a valid quantum decodes to one, two or three bytes |
| Base64.BlockRoundTrip | repositories/lnmo_repository.py:195 | a full quantum decodes to the three bytes it encodes |
| Base64.OneByteRoundTrip | repositories/lnmo_repository.py:195 | a quantum with two padding characters decodes to its single byte |
| Base64.TwoByteRoundTrip | repositories/lnmo_repository.py:195 | a quantum with one padding character decodes to its two bytes |
| Base64.DecodeFullQuantum | repositories/lnmo_repository.py:195 | a full quantum followed by more text decodes quantum by quantum |
| Base64.EncodeFullBlock | repositories/lnmo_repository.py:195 | encoding three or more bytes starts with the encoding of the first three |
| Base64.DecodeBlockThenRest | repositories/lnmo_repository.py:195 | decoding the encoding of 3+k bytes gives the first three, then the decoding of the rest |
| Base64.DecodeEncode | repositories/lnmo_repository.py:195 | decoding an encoding gives the bytes back |
| Base64.EncodeInjective | repositories/lnmo_repository.py:195 | different byte strings have different encodings |
| Base64.EncodeText | repositories/lnmo_repository.py:195 | the Base64 of a UTF-8 text has 4 * ceil(n / 3) characters for its n bytes |
| Base64.DecodeEncodeText | repositories/lnmo_repository.py:195 | decoding Base64 and then UTF-8 gives the text back |
| Daraja.GetenvOr | repositories/lnmo_repository.py:17-22 | a set variable gives its value, an unset one the default |
| Daraja.MissingVariables | repositories/lnmo_repository.py:27-38 | each of the three credentials and the callback URL is listed exactly when it is missing or empty; the list is empty exactly when all four are set |
| Daraja.MissingVariablesListed | repositories/lnmo_repository.py:27-38 | only required names are listed, each at most once, in the constructor's order |
| Daraja.RanksInOrder | repositories/lnmo_repository.py:27-32 | the constructor checks the four names in a fixed order |
| Daraja.NewRepository | repositories/lnmo_repository.py:25-41 | construction succeeds exactly when the configuration is complete; otherwise the ValueError text names every missing variable |
| Daraja.BasicCredentialDecodes | repositories/lnmo_repository.py:194-195 | the Basic credential decodes to `key:secret`, and splits back into the key and the secret when the key has no colon |
| Daraja.PasswordDecodes | repositories/lnmo_repository.py:216-220 | the password decodes to short code, pass key and timestamp concatenated, with the timestamp at the end |
| Daraja.PasswordOfTimestampInjective | repositories/lnmo_repository.py:216-220 | two timestamps of the same length give the same password only when they are equal |
| Daraja.PushRequestFor | repositories/lnmo_repository.py:54-66 | the push carries the phone as party A and phone number, the short code as party B and business code, the timestamp, the amount and the callback URL |
| Daraja.PushRequestPassword | repositories/lnmo_repository.py:54-66 | the password of a push decodes to the short code, the pass key and the push's own timestamp |
| Daraja.PushOutcome | repositories/lnmo_repository.py:68-77 | a reply is accepted exactly when it is a 200 with a JSON body without `errorCode`; a non-200 gives "HTTP status: text" and an `errorCode` gives the API error text |
| Daraja.RecordPush | repositories/lnmo_repository.py:68-104 | a push is always sent; a row is added only after an accepted reply, and only when the row breaks no constraint; otherwise the ledger is unchanged |
| Daraja.NewRowFields | repositories/lnmo_repository.py:80-98 | the new row is pending (code 0), keyed by the checkout id, with pid (else the account reference), phone and short code as parties, no receipt, the reply as feedback, and purchase-order / credit / LNMO / M-Pesa KE codes |
| Daraja.FirstReceiptCharacterized | repositories/lnmo_repository.py:158-164 | a receipt is found exactly when some item names `MpesaReceiptNumber` and has a value, and it is the value of the first such item |
| Daraja.FindReceipt | repositories/lnmo_repository.py:158-164 | the loop that stops at the first receipt item returns that item's value |
| Daraja.Reconcile | repositories/lnmo_repository.py:148-166 | the callback always overwrites feedback; result 0 gives ACCEPTED and the first receipt (the code is kept when there is none); any other result gives REJECTED; nothing else changes |
| Daraja.ReconcileIgnoresPriorState | repositories/lnmo_repository.py:148-166 | the reconciled row does not depend on the status or feedback the row had |
| Daraja.ReconcileIdempotent | repositories/lnmo_repository.py:148-166 | delivering the same callback twice has the effect of delivering it once |
| Daraja.ReconcileLeavesAccepted | repositories/lnmo_repository.py:148-166 | an ACCEPTED row becomes REJECTED on a later failed callback, keeping its receipt: no state is final |
| Daraja.CascadeOrder | repositories/lnmo_repository.py:154-155 | only the linked order changes, and only its status, to the target; a missing order leaves all orders alone |
| Daraja.ApplyCallback | repositories/lnmo_repository.py:139-168 | a missing or unknown checkout id changes nothing; otherwise the row is reconciled and, on success, the linked order is moved to the target, both in one commit |
| LnmoRepository.LoadConfig | repositories/lnmo_repository.py:17-23 | the configuration is read from the environment with the sandbox, short-code and callback-URL defaults, the URL from `MPESA_CALLBACK_URL` |
| LnmoRepository.ConstructionNeedsCredentials | repositories/lnmo_repository.py:22-41 | with the three credentials set, construction fails exactly when `MPESA_CALLBACK_URL` is set to "", and the message then names `MPESA_LNMO_CALLBACK_URL` |
| LnmoRepository.VerifyCallback | repositories/lnmo_repository.py:177-189 | the loop returns true exactly when the host passes: any host in sandbox, else a host starting with an entry's address |
| LnmoRepository.AllowListAddresses | repositories/lnmo_repository.py:23 | the address parts of the two entries are "196.201.214.0" and "196.201.214.200" |
| LnmoRepository.EntryRefuses | repositories/lnmo_repository.py:186-188 | an entry whose address is not a prefix of the host does not let it through |
| LnmoRepository.RefusedByBothEntries | repositories/lnmo_repository.py:177-189 | outside sandbox a host is refused when neither address is a prefix of it |
| LnmoRepository.OriginRangeNotExpanded | repositories/lnmo_repository.py:177-189 | outside sandbox, 196.201.214.5, an address inside the listed /24 range, is refused |
| LnmoRepository.OriginListedPasses | repositories/lnmo_repository.py:177-189 | outside sandbox the two listed addresses pass |
| LnmoRepository.OriginIsPrefixTest | repositories/lnmo_repository.py:177-189 | "196.201.214.2001", which only starts with a listed address, passes too |
| LnmoRepository.AccessToken | repositories/lnmo_repository.py:191-214 | the token is returned exactly when the reply is a 200 JSON body with a non-empty token; a non-200 gives "HTTP status: text", a blank token its own error |
| LnmoRepository.WholeUnitsTruncates | repositories/lnmo_repository.py:46 | the amount sent is truncated toward zero, drops less than one shilling, and is exact only for whole shillings |
| LnmoRepository.WholeUnitsExamples | repositories/lnmo_repository.py:46 | 150.75 becomes 150, -0.5 becomes 0 and 200.00 stays 200 |
| LnmoRepository.Transact | repositories/lnmo_repository.py:43-108 | a failed token request sends nothing; otherwise one push with the truncated amount is sent; a row holding the truncated amount is added exactly when the reply is accepted and the row fits; any failure leaves the ledger unchanged |
| LnmoRepository.Callback | repositories/lnmo_repository.py:132-175 | 403 exactly in production with a refused origin; success exactly when the payload names a row that can be reconciled, with the linked order moved to DELIVERED |
| AppSingle.LoadConfig | appsingle.py:15-21 | the configuration is read from the environment with its defaults, the callback URL from `MPESA_LNMO_CALLBACK_URL` |
| AppSingle.ConstructionChecksConfig | appsingle.py:23-39 | construction succeeds exactly when the three credentials are set and non-empty and the callback URL variable is not set to "" |
| AppSingle.OriginIsExactMatch | appsingle.py:137-138 | a host passes exactly when it is the literal text "196.201.214.0/24"; no address of the range passes |
| AppSingle.AccessToken | appsingle.py:140-152 | any 200 JSON reply succeeds with the token field, even when absent; a non-200 gives "HTTP status: text" |
| AppSingle.MissingTokenStillPushes | appsingle.py:147-149 | a 200 reply without a token is a success, and the push then goes out with "Bearer None" |
| AppSingle.FractionText | appsingle.py:54 | the fraction digits of `str(float)` are one or two digits |
| AppSingle.SplitHeadOfDigits | appsingle.py:54 | the part before the decimal point of a rendered amount is its whole-number digits |
| AppSingle.UnsignedRoundTrip | appsingle.py:54 | the text of a non-negative amount reads back as the same number of cents |
| AppSingle.AmountTextRoundTrip | appsingle.py:54 | the amount text sent reads back as the same number of cents, so nothing is truncated |
| AppSingle.AmountTextExamples | appsingle.py:54 | 150.00 renders as "150.0" and 150.50 as "150.5" |
| AppSingle.AmountTextFractionExamples | appsingle.py:54 | 150.25 renders as "150.25" and -0.50 as "-0.5" |
| AppSingle.Transact | appsingle.py:41-96 | as `LnmoRepository.Transact`, but the push carries the amount text, and the row keeps the amount unconverted |
| AppSingle.Callback | appsingle.py:98-135 | 403 exactly when the host is not listed, in every environment; otherwise as the reconciliation, with the linked order moved to the cascade target |
| OrderEndpoints.RequireAdmin | main.py:59-62 | a caller passes exactly when their role claim is "admin"; otherwise 403 |
| OrderEndpoints.AddressError | main.py:261-272 | an unset or zero address id passes; a set one passes exactly when it names an address of the caller; otherwise 400 |
| OrderEndpoints.LineError | main.py:283-292 | a cart line passes exactly when its product exists and its quantity is at most that product's original stock |
| OrderEndpoints.CartError | main.py:283-292 | the cart passes exactly when every line passes on its own, checked against the original stock |
| OrderEndpoints.CartErrorSticks | main.py:283-292 | once a prefix of the cart fails, the whole cart fails with that first error |
| OrderEndpoints.CartErrorStep | main.py:283-292 | one more line does not change an error already found |
| OrderEndpoints.ValidateCart | main.py:283-292 | the validation loop returns the first failing line's error, or none |
| OrderEndpoints.DetailsFor | main.py:313-333 | one order line per cart line |
| OrderEndpoints.StockAfter | main.py:313-333 | taking the cart off the stock keeps the same products |
| OrderEndpoints.StockAfterKeepsProduct | main.py:313-333 | only the stock of a product changes |
| OrderEndpoints.StockAfterSubtracts | main.py:313-333 | each product loses exactly the total quantity of its cart lines |
| OrderEndpoints.QuantityOfDistinct | main.py:313-333 | with distinct ids, the quantity asked of a line's product is that line's quantity |
| OrderEndpoints.QuantityOfAbsent | main.py:313-333 | a product the cart does not name loses nothing |
| OrderEndpoints.DistinctCartKeepsStock | main.py:283-333 | when each product appears once, an accepted cart leaves no stock negative |
| OrderEndpoints.DuplicateLinesOversell | main.py:283-333 | two lines of 3 for a product with stock 5 are accepted and leave stock -1 |
| OrderEndpoints.AggregateCartError | main.py:283-292 | the intended check: a cart passes exactly when every product exists and covers the total quantity asked of it |
| OrderEndpoints.AggregateLinesError | main.py:283-292 | the intended check on the lines from an index on |
| OrderEndpoints.AggregateCheckKeepsStock | main.py:283-333 | a cart the intended check accepts never leaves a stock below zero, duplicates or not |
| OrderEndpoints.ChecksAgreeOnDistinctCarts | main.py:283-292 | on carts with distinct products the two checks accept the same carts |
| OrderEndpoints.ApplyCart | main.py:313-336 | the loop leaves the stock as `StockAfter`, writes the lines of `DetailsFor`, and sums their totals |
| OrderEndpoints.PlaceOrder | main.py:299-336 | a new order under the next id, with total = lines + delivery fee, its lines appended and the stock decremented |
| OrderEndpoints.CreateOrder | main.py:255-363 | fails exactly when the address or a cart line fails, and then with that error and nothing written; otherwise places the order, and keeps orders pointing at existing addresses |
| OrderEndpoints.StatusUpdateError | main.py:617-625 | the intended answers: 403 exactly for a non-admin, 404 exactly for an admin naming a missing order |
| OrderEndpoints.CompletedAtAfter | main.py:638-641 | `completed_at` is set, to the time of the change, exactly when the new status is delivered |
| OrderEndpoints.UpdateOrderStatus | main.py:610-659 | as written: a refused update is answered 500 and changes nothing; otherwise the order gets the status and its completion time |
| OrderEndpoints.StatusUpdateMakesConsistent | main.py:629-641 | after any update an order is delivered exactly when it carries a completion time |
| OrderEndpoints.FloorDiv | main.py:109 | `//` rounds down, for either sign of divisor |
| OrderEndpoints.CeilDiv | main.py:393-394 | `ceil(a / b)` rounds up for a positive divisor |
| OrderEndpoints.ProductPage | main.py:94-109 | the offset is `(page - 1) * limit` and the page count covers the total exactly; a zero limit fails |
| OrderEndpoints.OrderPage | main.py:366-394 | `skip >= 0` and `1 <= limit <= 100` or 422; the page is the one containing `skip` and the page count covers the total |
| OrderEndpoints.PaginationsAgree | main.py:94-109 | the offset of a product page, used as the skip of an order listing, gives back the same page and page count |
| OrderEndpoints.PageUnique | main.py:393-394 | an offset lies on only one page |
| OrderEndpoints.SkipWithinTotalIsOnAPage | main.py:393-394 | an offset inside the results lands on a page between 1 and the page count |
| OrderEndpoints.DeleteProduct | main.py:227-252 | 403 for a non-admin, 404 unless it is the caller's product, 400 while an order line names it; otherwise only that product is removed, and order lines keep pointing at products |
| OrderEndpoints.DeleteAddress | main.py:524-551 | 404 unless it is the caller's address, 400 while an order names it; otherwise only that address is removed, and orders keep pointing at addresses |
| OrderEndpoints.UploadCheck | main.py:73-81 | the intended checks: an `image/` type, at most 5 MiB and a jpg/jpeg/png/gif extension in any case pass; otherwise 400 |
| OrderEndpoints.UploadImage | main.py:69-91 | as written: 403 for a non-admin; a failed check is answered 500; success gives the URL /uploads/{name}.{ext}, where ext is the upload's own lower-cased extension, one of the allowed four |
| OrderEndpoints.UploadAcceptsImage | main.py:73-88 | an admin's "Photo.PNG" of type image/png is accepted |
| OrderEndpoints.UploadMasksRefusal | main.py:72-91 | a text/plain upload is answered 500 "Error uploading image" where the check means 400 |
| PaymentEndpoints.OrderGuard | main.py:670-693 | passes exactly when the caller's order exists, is neither delivered nor cancelled, and the amount is its total; 404 comes first, then the two 400s in that order |
| PaymentEndpoints.PaymentPid | main.py:715 | the pid starts with "ORDER-{id}-" |
| PaymentEndpoints.AccountReferenceInjective | main.py:719 | different orders get different account references |
| PaymentEndpoints.PaymentRowFields | main.py:715-726 | the recorded row is pending, names the order, the caller, the pid and the checkout id, and keeps the amount in whole units |
| PaymentEndpoints.CheckInitiation | main.py:670-709 | passes exactly when the order guard passes and no PENDING or ACCEPTED attempt exists; that failure is a 400 whose detail ends with the transaction id of such an attempt ("None" when it has none) |
| PaymentEndpoints.InitiatePayment | main.py:663-743 | any failed check sends nothing and writes nothing; on success one pending row is added, the order's payment reference is the checkout id, which is returned; at most one attempt per order stays in flight |
| PaymentEndpoints.SendPayment | main.py:712-736 | after the checks: one row and the payment reference on success, nothing written on failure |
| PaymentEndpoints.RecordAttempt | main.py:726 | the row `transact` adds keeps at most one attempt in flight per order |
| PaymentEndpoints.PendingRowKeepsSingleFlight | main.py:696-709 | adding a pending row for an order with nothing in flight keeps at most one attempt in flight per order |
| PaymentEndpoints.RejectedAttemptAllowsRetry | main.py:696-709 | a REJECTED attempt does not block a retry; a PENDING or ACCEPTED one does |
| PaymentEndpoints.LateAcceptanceBreaksSingleFlight | main.py:696-709 | a late success callback for a rejected attempt, after a retry, leaves two attempts in flight |
| PaymentEndpoints.QueryStatusName | main.py:839-844 | "0" gives ACCEPTED, "1032" CANCELED, anything else, absent included, REJECTED |
| PaymentEndpoints.QueryAndCallbackDisagree | main.py:839-844 | a numeric 0 is REJECTED by the query but a success for the callback, and CANCELED is no TransactionStatus |
| PaymentEndpoints.CheckPaymentStatus | main.py:807-852 | 404 for another's or a missing order, 404 without a transaction, the mapped code when the query answers, 500 otherwise; nothing changes |
| PaymentEndpoints.LegacyPaymentCallback | main.py:747-787 | always acknowledged; a blank checkout id or an unknown payment reference changes nothing; otherwise only that order gets the outcome |
| PaymentEndpoints.LegacyOutcome | main.py:773-779 | result 0 gives "PAID" and status pending, anything else "FAILED" with the status kept; nothing else changes |
| PaymentEndpoints.LegacyOutcomeIdempotent | main.py:773-779 | a repeated legacy callback changes nothing more, and a delivered order is put back to pending by a zero result |
| PaymentEndpoints.LnmoCallbackEndpoint | main.py:790-805 | the provider always gets an acknowledgement; success exactly when the repository's callback went through, moving the linked order to DELIVERED |

## Left out

- Outbound HTTP to the provider is not modelled. Token, push and query
  replies are abstract input values, and a call is a returned `Call` value.
- Database sessions are not modelled. This covers queries, `flush`,
  `refresh` and `rollback`. Lookups are map searches, and commit is the point
  where changes take effect.
- `LNMORepository.query` (repositories/lnmo_repository.py:110-130) is not
  modelled: it is a pass-through to the network. The status query's reply
  is an input of `CheckPaymentStatus`.
- routers/lnmo_router.py is not part of this model. Its calls do not match
  the repository's signatures.
- Floating point is not modelled, and amounts are exact cents. This covers:
  - the amount comparison at main.py:691;
  - `int(float(...))` at repositories/lnmo_repository.py:46, modelled as
    truncation of cents;
  - `str(float)` at appsingle.py:54, modelled as the shortest rendering
    with up to two decimals;
  - the `float()` calls of the dashboard.
- Unicode case folding is not modelled. `lower()` is modelled for ASCII
  letters only.
- TransactionSchemas.PhoneValidCharacterized: `\d` is taken as the ASCII
  digits 0-9. Python's `re` with a text pattern also accepts every other
  Unicode decimal digit, such as the Arabic-Indic digits U+0660 to U+0669.
  So a number written with those digits is refused here but accepted by
  the source.
- TransactionSchemas.FieldErrors: flags the phone field for the non-ASCII
  decimal digits above, which the source accepts.
- TransactionSchemas.Validate: refuses a request whose phone number uses the
  non-ASCII decimal digits above, which the source accepts.
- TransactionSchemas.ToResponse: the response carries `_pid` and `_status`,
  as the field annotations evidently mean (schemas/transaction_schemas.py:22,
  29). Pydantic makes no field of a name that starts with an underscore, so
  the real response carries neither.
- TransactionSchema.ResponseStatus: the same holds for the integer
  `_status` of schemas/transaction.py:29.
- A `ResultCode` that is a non-integer JSON number, such as `0.0`, cannot be
  represented. Python's `== 0` takes it as success (at
  repositories/lnmo_repository.py:151, appsingle.py:115 and main.py:773).
- A legacy callback whose `Body` is JSON null is not modelled. Its chained
  `.get` fails there (main.py:756-757), and the endpoint answers "Error
  processing callback", as it does for the `None` payload.
- The dashboard aggregates and the `ilike` search filters are not modelled.
  Their behaviour lives in the database.
- The file write and the `uuid4` name of `upload_image` are not modelled.
  The generated name is a parameter.
- Concurrency is not modelled, such as racing callbacks or racing
  initiations: the code has no locking to model.
- FastAPI routing, CORS, static files, `lifespan`, logging, and the `auth`
  and `database` modules are not modelled.
- `main.py:699` compares the integer `_status` column against enum texts.
  The model uses one status enumeration throughout, so the guard works as
  intended.
- `appsingle.py:118` cascades to `OrderStatus.PROCESSING`. That value does
  not exist and is not imported. `AppSingle.Callback` takes the cascade
  target as a parameter.
- repositories/lnmo_repository.py:7 imports `TransactionStatus`,
  `TransactionCategory`, `TransactionType`, `TransactionChannel` and
  `TransactionAggregator` from `models.transaction`, which defines none of
  them: it has only class constants such as `Transaction.PENDING`. As
  written, that import raises ImportError, and so main.py cannot load the
  repository at its import (main.py:27). The model uses the enumerations
  the import evidently means.
- The `Transaction` model (models/transaction.py:35-52) declares neither
  `order_id` nor `user_id`, nor an `order` relationship, yet both
  repositories and main.py use all three. The model gives rows an
  `orderId` and a `userId` and lets a row reach its order through
  `orderId`, as the code intends. With the class as written:
  - `hasattr(transaction, 'order')` at repositories/lnmo_repository.py:154
    is false, so no order is ever cascaded;
  - `transaction.order` at appsingle.py:117 raises AttributeError, so every
    success callback of the variant is rolled back;
  - `models.Transaction.order_id` at main.py:697 and main.py:825 raises
    AttributeError, so initiation and the status check answer 500;
  - `Transaction(order_id=...)` at repositories/lnmo_repository.py:96-97
    raises TypeError after the push has already been sent.

  `Daraja.CascadeOrder`, `Daraja.ApplyCallback`, `LnmoRepository.Callback`,
  `AppSingle.Callback` and `PaymentEndpoints.LnmoCallbackEndpoint` move the
  linked order as intended, which none of these lines does as written.
- Failure texts that the source takes from an exception's message are
  modelled as fixed placeholder texts: "connection error", "response is not
  JSON" and "database integrity error". The model does not reproduce the
  library's wording.
- A JSON null `CheckoutRequestID` is treated as absent. The `IS NULL`
  lookup it would cause is not modelled.
- A metadata item whose `Value` is not a string is not modelled.
- The `/payment_status/{order_id}` route (main.py:856-879) is not modelled.
  It reads order fields back and changes nothing.
- A legacy-callback commit failure is not modelled: the model has no
  failing commit.
- A new order is created with status pending, the database's default; that
  default is assumed rather than modelled.
- The `Invalid status` branch of `update_order_status` (main.py:633-636) is
  not modelled. It cannot be reached, because the request's status is
  already an `OrderStatus`.
- The legacy callback's `request.json()` failure is modelled as a `None`
  payload.
- Uploads without a content type or a filename are not modelled. For them,
  `UploadCheck` states only whether the upload succeeds, not which code it
  is refused with.
- Pydantic's validation messages are not modelled. The schema validators
  state only their 422 status and which fields fail.

## Findings

Each endpoint method above models the code as written. The corrected
definition beside it has the intended property proved, and the other
members build on it where they state an intent.

| source | as written | input that shows it | evidently intended | confidence | as-written member | corrected member |
|---|---|---|---|---|---|---|
| main.py:283-292 | each cart line is checked on its own against the original stock, then every line is subtracted | a cart with two lines of 3 for a product with stock 5 is accepted, and the stock becomes -1 | the stock must cover the total quantity asked of each product | not executed | OrderEndpoints.DuplicateLinesOversell | OrderEndpoints.AggregateCheckKeepsStock |
| main.py:617-659 | the 403 for a non-admin and the 404 for a missing order are raised inside `try` and caught by `except Exception`, which answers 500 | a customer updating any order gets 500 instead of 403 | 403 for a non-admin and 404 for a missing order | not executed | OrderEndpoints.UpdateOrderStatus | OrderEndpoints.StatusUpdateError |
| main.py:72-91 | the 400 answers of the upload checks are raised inside `try` and caught by `except Exception`, which answers 500 | an admin uploading a text/plain file gets 500 "Error uploading image" | 400 "Only image files are allowed" | not executed | OrderEndpoints.UploadMasksRefusal | OrderEndpoints.UploadCheck |
