/** The `transactions` table as a store that the repositories add rows to and
    update in place. A write that would break a column constraint is refused
    and leaves the table as it was, as a failed commit does. */
module Ledger {
  import opened Wrappers
  import opened TransactionModel

  /** The constraint a refused write would have broken. */
  datatype Violation = DuplicatePid | DuplicateTransactionId | DuplicateCode | AmountOutOfRange

  /** The constraint that storing `t` under `id` would break, given the other rows. */
  function Conflict(rows: map<nat, Transaction>, id: nat, t: Transaction): Option<Violation> {
    if !AmountFits(t.amount) then Some(AmountOutOfRange)
    else if exists k :: k in rows && k != id && rows[k].pid == t.pid then Some(DuplicatePid)
    else if t.transactionId.Some? && exists k :: k in rows && k != id && rows[k].transactionId == t.transactionId then
      Some(DuplicateTransactionId)
    else if t.code.Some? && exists k :: k in rows && k != id && rows[k].code == t.code then Some(DuplicateCode)
    else None
  }

  /** A write is refused exactly when the table would no longer satisfy its schema. */
  lemma ConflictIffInvalid(rows: map<nat, Transaction>, id: nat, t: Transaction)
    requires RowsValid(rows)
    requires t.id == id
    ensures Conflict(rows, id, t).None? <==> RowsValid(rows[id := t])
  {
    var rows' := rows[id := t];
    if Conflict(rows, id, t).None? {
      forall i, j | i in rows' && j in rows' && i != j
        ensures rows'[i].pid != rows'[j].pid
        ensures rows'[i].transactionId.Some? ==> rows'[i].transactionId != rows'[j].transactionId
        ensures rows'[i].code.Some? ==> rows'[i].code != rows'[j].code
      {
        if i == id {
          assert j in rows && j != id;
        } else if j == id {
          assert i in rows && i != id;
        }
      }
    } else {
      match Conflict(rows, id, t).value
      case AmountOutOfRange =>
        assert !AmountFits(rows'[id].amount);
      case DuplicatePid =>
        var k :| k in rows && k != id && rows[k].pid == t.pid;
        assert rows'[k].pid == rows'[id].pid;
      case DuplicateTransactionId =>
        var k :| k in rows && k != id && rows[k].transactionId == t.transactionId;
        assert rows'[id].transactionId.Some? && rows'[k].transactionId == rows'[id].transactionId;
      case DuplicateCode =>
        var k :| k in rows && k != id && rows[k].code == t.code;
        assert rows'[id].code.Some? && rows'[k].code == rows'[id].code;
    }
  }

  class Store {
    var rows: map<nat, Transaction>
    var nextId: nat

    ghost predicate Valid()
      reads this
    {
      RowsValid(rows) && forall k :: k in rows ==> k < nextId
    }

    constructor()
      ensures Valid() && rows == map[] && nextId == 1
    {
      rows := map[];
      nextId := 1;
    }

    /** Adds `t` as a new row under the next id, unless a constraint forbids it. */
    method Insert(t: Transaction) returns (r: Result<nat, Violation>)
      requires Valid()
      modifies this
      ensures Valid()
      ensures var row := t.(id := old(nextId));
        match Conflict(old(rows), old(nextId), row)
        case Some(v) => r == Failure(v) && rows == old(rows) && nextId == old(nextId)
        case None => r == Success(old(nextId)) && rows == old(rows)[old(nextId) := row] && nextId == old(nextId) + 1
    {
      var row := t.(id := nextId);
      var c := Conflict(rows, nextId, row);
      ConflictIffInvalid(rows, nextId, row);
      if c.Some? {
        return Failure(c.value);
      }
      rows := rows[nextId := row];
      r := Success(nextId);
      nextId := nextId + 1;
    }

    /** Replaces the row stored under `t.id`, unless a constraint forbids it. */
    method Update(t: Transaction) returns (r: Option<Violation>)
      requires Valid() && t.id in rows
      modifies this
      ensures Valid()
      ensures r == Conflict(old(rows), t.id, t)
      ensures nextId == old(nextId)
      ensures r.None? ==> rows == old(rows)[t.id := t]
      ensures r.Some? ==> rows == old(rows)
    {
      r := Conflict(rows, t.id, t);
      ConflictIffInvalid(rows, t.id, t);
      if r.None? {
        rows := rows[t.id := t];
      }
    }

    /** The row whose gateway checkout id is `checkoutId`; at most one row has it. */
    method FindByTransactionId(checkoutId: string) returns (r: Option<nat>)
      requires Valid()
      ensures r.Some? ==> r.value in rows && rows[r.value].transactionId == Some(checkoutId)
      ensures r.Some? ==> forall k :: k in rows && rows[k].transactionId == Some(checkoutId) ==> k == r.value
      ensures r.None? ==> forall k :: k in rows ==> rows[k].transactionId != Some(checkoutId)
    {
      if exists k :: k in rows && rows[k].transactionId == Some(checkoutId) {
        var k :| k in rows && rows[k].transactionId == Some(checkoutId);
        r := Some(k);
      } else {
        r := None;
      }
    }

    /** Some row linked to order `orderId` whose status is one of `statuses`, if any. */
    method FindByOrder(orderId: int, statuses: set<Status>) returns (r: Option<nat>)
      ensures r.Some? ==> r.value in rows && rows[r.value].orderId == Some(orderId) && rows[r.value].status in statuses
      ensures r.None? ==> forall k :: k in rows && rows[k].orderId == Some(orderId) ==> rows[k].status !in statuses
    {
      if exists k :: k in rows && rows[k].orderId == Some(orderId) && rows[k].status in statuses {
        var k :| k in rows && rows[k].orderId == Some(orderId) && rows[k].status in statuses;
        r := Some(k);
      } else {
        r := None;
      }
    }
  }
}
