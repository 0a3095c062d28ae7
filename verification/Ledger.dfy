/**
  The transactions table and sums over it.

  Ids are handed out in increasing order and rows are never deleted, so a table
  is the sequence of its rows and the id of a row is its index.
 */
module Ledger {
  import opened Wrappers

  datatype TxType = Incoming | Outgoing

  datatype TxState = Pending | Accepted | Settled | Failed

  datatype Row = Row(
    appId: Option<nat>,
    kind: TxType,
    state: TxState,
    amountMsat: nat,
    feeMsat: nat,
    feeReserveMsat: nat,
    paymentRequest: string,
    paymentHash: string,
    preimage: Option<string>,
    createdAt: int,
    settledAt: Option<int>,
    selfPayment: bool,
    hold: bool)

  type Table = seq<Row>

  // An outgoing row weighs on balances and budgets while pending and once settled.
  predicate IsSpend(r: Row) {
    r.kind == Outgoing && (r.state == Settled || r.state == Pending)
  }

  predicate IsReceipt(r: Row) {
    r.kind == Incoming && r.state == Settled
  }

  // The expression amount_msat + fee_msat + fee_reserve_msat of the queries.
  function Spent(r: Row): nat {
    r.amountMsat + r.feeMsat + r.feeReserveMsat
  }

  // SELECT SUM(weight) over the whole table; a WHERE clause is a weight of zero.
  function Sum(rows: Table, weight: Row -> int): int {
    if rows == [] then 0
    else Sum(rows[..|rows| - 1], weight) + weight(rows[|rows| - 1])
  }

  lemma SumAppend(rows: Table, r: Row, weight: Row -> int)
    ensures Sum(rows + [r], weight) == Sum(rows, weight) + weight(r)
  {
    assert (rows + [r])[..|rows|] == rows;
  }

  lemma {:induction false} SumUpdate(rows: Table, id: nat, r: Row, weight: Row -> int)
    requires id < |rows|
    ensures Sum(rows[id := r], weight) == Sum(rows, weight) - weight(rows[id]) + weight(r)
  {
    var last := |rows| - 1;
    if id == last {
      assert rows[id := r][..last] == rows[..last];
    } else {
      assert rows[id := r][..last] == rows[..last][id := r];
      SumUpdate(rows[..last], id, r, weight);
    }
  }

  lemma {:induction false} SumLeq(rows: Table, a: Row -> int, b: Row -> int)
    requires forall id :: 0 <= id < |rows| ==> a(rows[id]) <= b(rows[id])
    ensures Sum(rows, a) <= Sum(rows, b)
  {
    if rows == [] {
    } else {
      SumLeq(rows[..|rows| - 1], a, b);
    }
  }

  lemma {:induction false} SumDifference(rows: Table, a: Row -> int, b: Row -> int, c: Row -> int)
    requires forall r :: c(r) == a(r) - b(r)
    ensures Sum(rows, c) == Sum(rows, a) - Sum(rows, b)
  {
    if rows == [] {
    } else {
      SumDifference(rows[..|rows| - 1], a, b, c);
    }
  }
}
