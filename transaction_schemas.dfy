/** The strict request and response schemas (`schemas/transaction_schemas.py`).
    The phone pattern is modelled as a sequence of pattern atoms matched at the
    start of the input, with `$` also matching before one final newline, as
    Python's `re.match` does. */
module TransactionSchemas {
  import opened Wrappers
  import opened Http
  import opened Text
  import opened Gateway
  import TransactionModel
  import PydanticModel

  /** A payment request as the schema accepts it; `amount` in cents. */
  datatype TransactionRequest = TransactionRequest(amount: int, phoneNumber: string, accountReference: string)

  /** An atom of an anchored regular expression: a literal character or `\d`. */
  datatype Atom = Lit(c: char) | Digit

  predicate AtomMatches(a: Atom, c: char) {
    match a
    case Lit(x) => c == x
    case Digit => IsDigit(c)
  }

  /** The pattern `^\+254\d{9}$` as atoms. */
  function PhonePattern(): (p: seq<Atom>)
    ensures |p| == 13
  {
    [Lit('+'), Lit('2'), Lit('5'), Lit('4')] + seq(9, _ => Digit)
  }

  /** `re.match` of the atoms followed by `$`: each atom takes one character,
      and then the input ends, or only a newline is left. */
  predicate Matches(p: seq<Atom>, s: string)
    decreases p
  {
    if p == [] then s == [] || s == "\n"
    else |s| > 0 && AtomMatches(p[0], s[0]) && Matches(p[1..], s[1..])
  }

  /** A match consumes one character per atom, plus at most one final newline. */
  lemma {:induction false} MatchesCharacterized(p: seq<Atom>, s: string)
    ensures Matches(p, s) <==>
      && (|s| == |p| || (|s| == |p| + 1 && s[|p|] == '\n'))
      && forall k :: 0 <= k < |p| ==> AtomMatches(p[k], s[k])
    decreases p
  {
    if p != [] && |s| > 0 {
      MatchesCharacterized(p[1..], s[1..]);
      if |s| == |p| || (|s| == |p| + 1 && s[|p|] == '\n') {
        assert |s[1..]| == |p[1..]| || (|s[1..]| == |p[1..]| + 1 && s[1..][|p[1..]|] == '\n');
        if forall k :: 0 <= k < |p| ==> AtomMatches(p[k], s[k]) {
          assert AtomMatches(p[0], s[0]);
          forall k | 0 <= k < |p[1..]|
            ensures AtomMatches(p[1..][k], s[1..][k])
          {
            assert AtomMatches(p[k + 1], s[k + 1]);
          }
        } else {
          var k :| 0 <= k < |p| && !AtomMatches(p[k], s[k]);
          if k > 0 {
            assert !AtomMatches(p[1..][k - 1], s[1..][k - 1]);
          }
        }
      }
    }
  }

  predicate PhoneValid(phone: string) {
    Matches(PhonePattern(), phone)
  }

  /** The phone field accepts exactly "+254" and nine digits, optionally followed by one newline. */
  lemma PhoneValidCharacterized(phone: string)
    ensures PhoneValid(phone) <==>
      && (|phone| == 13 || (|phone| == 14 && phone[13] == '\n'))
      && phone[..4] == "+254"
      && AllDigits(phone[4..13])
  {
    var p := PhonePattern();
    MatchesCharacterized(p, phone);
    if |phone| >= 13 {
      if forall k :: 0 <= k < 13 ==> AtomMatches(p[k], phone[k]) {
        assert phone[..4] == [phone[0], phone[1], phone[2], phone[3]];
        assert phone[0] == '+' && phone[1] == '2' && phone[2] == '5' && phone[3] == '4' by {
          assert AtomMatches(p[0], phone[0]) && AtomMatches(p[1], phone[1]);
          assert AtomMatches(p[2], phone[2]) && AtomMatches(p[3], phone[3]);
        }
        forall k | 0 <= k < 9
          ensures IsDigit(phone[4..13][k])
        {
          assert AtomMatches(p[k + 4], phone[k + 4]);
        }
      }
      if phone[..4] == "+254" && AllDigits(phone[4..13]) {
        forall k | 0 <= k < 13
          ensures AtomMatches(p[k], phone[k])
        {
          if k < 4 {
            assert phone[k] == phone[..4][k];
          } else {
            assert phone[k] == phone[4..13][k - 4];
          }
        }
      }
    }
  }

  /** "+254" followed by nine digits is accepted. */
  lemma InternationalAccepted(digits: string)
    requires |digits| == 9 && AllDigits(digits)
    ensures PhoneValid("+254" + digits)
  {
    var phone := "+254" + digits;
    PhoneValidCharacterized(phone);
    assert phone[..4] == "+254";
    assert phone[4..13] == digits;
  }

  /** The international format is accepted. */
  lemma PhoneAcceptsInternational()
    ensures PhoneValid("+254712345678")
  {
    var digits := "712345678";
    assert AllDigits(digits) by {
      forall k | 0 <= k < |digits|
        ensures IsDigit(digits[k])
      {
      }
    }
    InternationalAccepted(digits);
    assert "+254" + digits == "+254712345678";
  }

  /** The local format, and a number one digit short, are refused. */
  lemma PhoneRefusesOthers()
    ensures !PhoneValid("0712345678")
    ensures !PhoneValid("+25471234567")
  {
    PhoneValidCharacterized("0712345678");
    PhoneValidCharacterized("+25471234567");
  }

  predicate ReferenceValid(reference: string) {
    1 <= |reference| <= 100
  }

  /** The names of the fields that fail their constraint, in declaration order. */
  function FieldErrors(amount: int, phoneNumber: string, accountReference: string): (r: seq<string>)
    ensures "Amount" in r <==> amount <= 0
    ensures "PhoneNumber" in r <==> !PhoneValid(phoneNumber)
    ensures "AccountReference" in r <==> !ReferenceValid(accountReference)
    ensures r == [] <==> amount > 0 && PhoneValid(phoneNumber) && ReferenceValid(accountReference)
  {
    (if amount > 0 then [] else ["Amount"])
    + (if PhoneValid(phoneNumber) then [] else ["PhoneNumber"])
    + (if ReferenceValid(accountReference) then [] else ["AccountReference"])
  }

  /** Builds the request, or refuses it with 422 naming the failing fields. */
  function Validate(amount: int, phoneNumber: string, accountReference: string): (r: Result<TransactionRequest, HttpError>)
    ensures r.Success? <==> amount > 0 && PhoneValid(phoneNumber) && ReferenceValid(accountReference)
    ensures r.Success? ==> r.value == TransactionRequest(amount, phoneNumber, accountReference)
    ensures r.Failure? ==> r.error.status == Unprocessable
  {
    var errors := FieldErrors(amount, phoneNumber, accountReference);
    if errors == [] then Success(TransactionRequest(amount, phoneNumber, accountReference))
    else Failure(HttpError(Unprocessable, Join(errors, ", ")))
  }

  /** `QueryRequest.transaction_id`: a required string field; a number is turned
      into its decimal text, a boolean into "True" or "False". */
  function QueryTransactionId(v: Option<Json>): (r: Result<string, HttpError>)
    ensures v.Some? && v.value.JStr? ==> r == Success(v.value.s)
    ensures r.Failure? <==> v.None? || v.value.JNull?
    ensures r.Failure? ==> r.error.status == Unprocessable
  {
    match v
    case None => Failure(HttpError(Unprocessable, "field required"))
    case Some(JNull) => Failure(HttpError(Unprocessable, "none is not an allowed value"))
    case Some(JStr(s)) => Success(s)
    case Some(JInt(i)) => Success(IntToString(i))
    case Some(JBool(b)) => Success(if b then "True" else "False")
  }

  /** The fields `TransactionResponse` reads from a ledger row; the status is
      given by its enumeration name. */
  datatype TransactionResponse = TransactionResponse(
    id: nat,
    pid: string,
    partyA: string,
    partyB: string,
    accountReference: string,
    amount: int,
    transactionId: Option<string>,
    code: Option<string>,
    status: string)

  function ToResponse(t: TransactionModel.Transaction): (r: TransactionResponse)
    ensures PydanticModel.ParseStatusName(r.status) == Some(t.status)
    ensures r.id == t.id && r.pid == t.pid && r.amount == t.amount
    ensures r.transactionId == t.transactionId && r.code == t.code
    ensures r.partyA == t.partyA && r.partyB == t.partyB && r.accountReference == t.accountReference
  {
    TransactionResponse(t.id, t.pid, t.partyA, t.partyB, t.accountReference, t.amount,
      t.transactionId, t.code, PydanticModel.StatusName(t.status))
  }
}
