/** The lenient request schema (`schemas/transaction.py`): the phone number is
    constrained by length only, and a response carries the stored status code. */
module TransactionSchema {
  import opened Wrappers
  import opened Http
  import opened Text
  import TransactionModel
  import TransactionSchemas

  /** Any text of 10 to 15 characters is a phone number here. */
  predicate PhoneValid(phone: string) {
    10 <= |phone| <= 15
  }

  function Validate(amount: int, phoneNumber: string, accountReference: string): (r: Result<TransactionSchemas.TransactionRequest, HttpError>)
    ensures r.Success? <==> amount > 0 && PhoneValid(phoneNumber) && TransactionSchemas.ReferenceValid(accountReference)
    ensures r.Success? ==> r.value == TransactionSchemas.TransactionRequest(amount, phoneNumber, accountReference)
    ensures r.Failure? ==> r.error.status == Unprocessable
  {
    var errors :=
      (if amount > 0 then [] else ["Amount"])
      + (if PhoneValid(phoneNumber) then [] else ["PhoneNumber"])
      + (if TransactionSchemas.ReferenceValid(accountReference) then [] else ["AccountReference"]);
    if errors == [] then Success(TransactionSchemas.TransactionRequest(amount, phoneNumber, accountReference))
    else Failure(HttpError(Unprocessable, Join(errors, ", ")))
  }

  /** Every request the strict schema accepts, this one accepts too. */
  lemma StrictImpliesLenient(amount: int, phoneNumber: string, accountReference: string)
    requires TransactionSchemas.Validate(amount, phoneNumber, accountReference).Success?
    ensures Validate(amount, phoneNumber, accountReference) == TransactionSchemas.Validate(amount, phoneNumber, accountReference)
  {
    TransactionSchemas.PhoneValidCharacterized(phoneNumber);
  }

  /** The converse fails: the local format and arbitrary text pass here but not there. */
  lemma LenientAcceptsMore()
    ensures PhoneValid("0712345678") && !TransactionSchemas.PhoneValid("0712345678")
    ensures PhoneValid("not a number") && !TransactionSchemas.PhoneValid("not a number")
  {
    TransactionSchemas.PhoneRefusesOthers();
    TransactionSchemas.PhoneValidCharacterized("not a number");
  }

  /** `_status` in a response is the integer code stored in the row; every
      such code reads back as one of the five statuses. */
  function ResponseStatus(t: TransactionModel.Transaction): (c: int)
    ensures TransactionModel.StatusOfCode(c) == Some(t.status)
  {
    TransactionModel.StatusCode(t.status)
  }
}
