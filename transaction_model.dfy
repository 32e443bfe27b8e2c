/** The ledger record (`models/transaction.py`): the integer codes of its closed
    enumerations, the record itself, and the column constraints a set of rows
    must satisfy. */
module TransactionModel {
  import opened Wrappers
  import opened Gateway

  /** Lifecycle state of a payment attempt; stored as an integer code. */
  datatype Status = Pending | Processing | Processed | Rejected | Accepted

  function StatusCode(s: Status): (c: int)
    ensures 0 <= c < 5
    ensures StatusOfCode(c) == Some(s)
  {
    match s
    case Pending => 0
    case Processing => 1
    case Processed => 2
    case Rejected => 3
    case Accepted => 4
  }

  /** Reads a stored integer back as a status; only the five codes are statuses. */
  function StatusOfCode(c: int): (r: Option<Status>)
    ensures r.Some? <==> 0 <= c < 5
  {
    if c == 0 then Some(Status.Pending)
    else if c == 1 then Some(Status.Processing)
    else if c == 2 then Some(Status.Processed)
    else if c == 3 then Some(Status.Rejected)
    else if c == 4 then Some(Status.Accepted)
    else None
  }

  lemma StatusOfCodeInverse(c: int)
    requires StatusOfCode(c).Some?
    ensures StatusCode(StatusOfCode(c).value) == c
  {
  }

  lemma StatusCodesDistinct(s: Status, t: Status)
    requires StatusCode(s) == StatusCode(t)
    ensures s == t
  {
    assert StatusOfCode(StatusCode(s)) == Some(s);
  }

  /** `_status` takes this value when the row is created without one. */
  const DefaultStatus: Status := Status.Pending

  datatype Category = PurchaseOrder | Payout
  datatype TxType = Debit | Credit
  datatype Channel = C2B | Lnmo | B2C | B2B
  datatype Aggregator = MpesaKe | PaypalUsd

  function CategoryCode(c: Category): (r: int)
    ensures 0 <= r < 2
    ensures CategoryOfCode(r) == Some(c)
  {
    match c
    case PurchaseOrder => 0
    case Payout => 1
  }

  function CategoryOfCode(r: int): (c: Option<Category>)
    ensures c.Some? <==> 0 <= r < 2
  {
    if r == 0 then Some(PurchaseOrder) else if r == 1 then Some(Payout) else None
  }

  function TxTypeCode(t: TxType): (r: int)
    ensures 0 <= r < 2
    ensures TxTypeOfCode(r) == Some(t)
  {
    match t
    case Debit => 0
    case Credit => 1
  }

  function TxTypeOfCode(r: int): (t: Option<TxType>)
    ensures t.Some? <==> 0 <= r < 2
  {
    if r == 0 then Some(Debit) else if r == 1 then Some(Credit) else None
  }

  function ChannelCode(c: Channel): (r: int)
    ensures 0 <= r < 4
    ensures ChannelOfCode(r) == Some(c)
  {
    match c
    case C2B => 0
    case Lnmo => 1
    case B2C => 2
    case B2B => 3
  }

  function ChannelOfCode(r: int): (c: Option<Channel>)
    ensures c.Some? <==> 0 <= r < 4
  {
    if r == 0 then Some(C2B) else if r == 1 then Some(Lnmo)
    else if r == 2 then Some(B2C) else if r == 3 then Some(B2B) else None
  }

  function AggregatorCode(a: Aggregator): (r: int)
    ensures 0 <= r < 2
    ensures AggregatorOfCode(r) == Some(a)
  {
    match a
    case MpesaKe => 0
    case PaypalUsd => 1
  }

  function AggregatorOfCode(r: int): (a: Option<Aggregator>)
    ensures a.Some? <==> 0 <= r < 2
  {
    if r == 0 then Some(MpesaKe) else if r == 1 then Some(PaypalUsd) else None
  }

  /** One row of the `transactions` table. Amounts are in cents. The nullable
      columns (`transaction_id`, `transaction_code`, and the links to an order
      and a user) are options; the others always hold a value. */
  datatype Transaction = Transaction(
    id: nat,
    pid: string,
    partyA: string,
    partyB: string,
    accountReference: string,
    category: Category,
    txType: TxType,
    channel: Channel,
    aggregator: Aggregator,
    transactionId: Option<string>,
    amount: int,
    code: Option<string>,
    timestamp: int,
    details: string,
    feedback: Feedback,
    status: Status,
    orderId: Option<int>,
    userId: Option<int>)

  /** `Numeric(10, 2)`: ten digits of which two are decimals, so in cents the absolute value stays below 10^10. */
  const AmountBound: int := 10_000_000_000

  predicate AmountFits(cents: int) {
    -AmountBound < cents < AmountBound
  }

  /** `_pid` is unique. */
  predicate PidsUnique(rows: map<nat, Transaction>) {
    forall i, j :: i in rows && j in rows && i != j ==> rows[i].pid != rows[j].pid
  }

  /** `transaction_id` is unique among the rows where it is not null. */
  predicate TransactionIdsUnique(rows: map<nat, Transaction>) {
    forall i, j :: i in rows && j in rows && i != j && rows[i].transactionId.Some? ==>
      rows[i].transactionId != rows[j].transactionId
  }

  /** `transaction_code` is unique among the rows where it is not null. */
  predicate CodesUnique(rows: map<nat, Transaction>) {
    forall i, j :: i in rows && j in rows && i != j && rows[i].code.Some? ==>
      rows[i].code != rows[j].code
  }

  /** Everything the table's schema enforces on its rows, with each row stored under its own id. */
  predicate RowsValid(rows: map<nat, Transaction>) {
    && (forall k :: k in rows ==> rows[k].id == k && AmountFits(rows[k].amount))
    && PidsUnique(rows)
    && TransactionIdsUnique(rows)
    && CodesUnique(rows)
  }
}
