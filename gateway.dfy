/** What the payment provider sends back, as values. The HTTP calls themselves
    are not modelled: each reply is an input to the operation that receives it. */
module Gateway {
  import opened Wrappers

  /** The JSON scalars a result code can arrive as. */
  datatype Json = JNull | JBool(b: bool) | JInt(i: int) | JStr(s: string)

  /** Python's `value == 0` on a decoded JSON value: true for the number 0 and
      also for `false`, because `False == 0` holds in Python. */
  predicate EqualsZero(v: Json) {
    v == JInt(0) || v == JBool(false)
  }

  /** The decoded body of a push (processrequest) reply, reduced to the keys the code reads. */
  datatype PushBody = PushBody(
    checkoutRequestId: Option<string>,  // response_data.get("CheckoutRequestID")
    hasErrorCode: bool,                 // "errorCode" in response_data
    errorMessage: Option<string>)       // response_data.get("errorMessage")

  /** The reply to the push request: none at all (connection failure or timeout),
      or a status code, the raw text and the body when the text is JSON. */
  datatype PushReply =
    | PushUnanswered
    | PushAnswered(status: int, text: string, body: Option<PushBody>)

  /** The reply to the token request; `accessToken` is `.get("access_token")`. */
  datatype TokenReply =
    | TokenUnanswered
    | TokenAnswered(status: int, text: string, json: bool, accessToken: Option<string>)

  /** The reply to a status query: a failed call, or the body's `ResultCode` (absent is `None`). */
  datatype QueryReply =
    | QueryFailed
    | QueryAnswered(resultCode: Option<Json>)

  /** One entry of `CallbackMetadata.Item`: its `Name` and, when the key is present, its `Value`. */
  datatype Item = Item(name: Option<string>, value: Option<string>)

  /** `Body.stkCallback` of a callback. `items` is empty when `CallbackMetadata`
      is absent, empty, or has no `Item` list. */
  datatype CallbackPayload = CallbackPayload(
    checkoutRequestId: Option<string>,
    resultCode: Option<Json>,
    items: seq<Item>)

  /** The payload a ledger row keeps as `_feedback`. */
  datatype Feedback = PushFeedback(push: PushBody) | CallbackFeedback(callback: CallbackPayload)
}
