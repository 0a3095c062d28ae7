/**
  Balances and budgets, which are never stored: each is a query over the table.
 */
module Queries {
  import opened Wrappers
  import opened Ledger
  import opened BudgetWindows

  // ---------------------------------------------------------------- isolated balance

  function ReceivedBy(app: nat): Row -> int {
    (r: Row) => if r.appId == Some(app) && IsReceipt(r) then r.amountMsat else 0
  }

  function SpentBy(app: nat): Row -> int {
    (r: Row) => if r.appId == Some(app) && IsSpend(r) then Spent(r) else 0
  }

  function IsolatedBalanceMsat(rows: Table, app: nat): int {
    Sum(rows, ReceivedBy(app)) - Sum(rows, SpentBy(app))
  }

  // ---------------------------------------------------------------- budget usage

  function SpentSince(app: nat, start: Instant): Row -> int {
    (r: Row) => if r.appId == Some(app) && IsSpend(r) && r.createdAt > start then Spent(r) else 0
  }

  function BudgetUsageMsat(rows: Table, app: nat, start: Instant): (usage: nat)
  {
    SumNonNegative(rows, SpentSince(app, start));
    Sum(rows, SpentSince(app, start))
  }

  lemma {:induction false} SumNonNegative(rows: Table, weight: Row -> int)
    requires forall r :: weight(r) >= 0
    ensures Sum(rows, weight) >= 0
  {
    if rows == [] {
    } else {
      SumNonNegative(rows[..|rows| - 1], weight);
    }
  }

  /**
    A payment counts in full exactly when it was made after the window's start; one made in that very instant is free.
   */
  lemma UsageCountsIff(rows: Table, app: nat, start: Instant, r: Row)
    requires r.appId == Some(app) && IsSpend(r) && Spent(r) > 0
    ensures BudgetUsageMsat(rows + [r], app, start) == BudgetUsageMsat(rows, app, start) + Spent(r)
            <==> r.createdAt > start
    ensures BudgetUsageMsat(rows + [r], app, start) == BudgetUsageMsat(rows, app, start) <==> r.createdAt <= start
  {
    SumAppend(rows, r, SpentSince(app, start));
  }

  // ---------------------------------------------------------------- sub-wallet total

  datatype App = App(isolated: bool, appStoreAppId: string)

  const SUBWALLET_APPSTORE_APP_ID := "uncle-jim"

  // The ids the sub-query selects.
  function SubwalletIds(apps: map<nat, App>): set<nat> {
    set id | id in apps && apps[id].appStoreAppId == SUBWALLET_APPSTORE_APP_ID
  }

  function ReceivedByAny(ids: set<nat>): Row -> int {
    (r: Row) => if r.appId.Some? && r.appId.value in ids && IsReceipt(r) then r.amountMsat else 0
  }

  function SpentByAny(ids: set<nat>): Row -> int {
    (r: Row) => if r.appId.Some? && r.appId.value in ids && IsSpend(r) then Spent(r) else 0
  }

  function TotalSubwalletBalanceMsat(rows: Table, apps: map<nat, App>): int {
    Sum(rows, ReceivedByAny(SubwalletIds(apps))) - Sum(rows, SpentByAny(SubwalletIds(apps)))
  }

  // The balances of a set of apps, one query for each.
  ghost function SumOfBalances(rows: Table, ids: set<nat>): int {
    if ids == {} then 0
    else
      var id :| id in ids;
      IsolatedBalanceMsat(rows, id) + SumOfBalances(rows, ids - {id})
  }

  lemma {:induction false} AnyIsSumOfBalances(rows: Table, ids: set<nat>)
    ensures Sum(rows, ReceivedByAny(ids)) - Sum(rows, SpentByAny(ids)) == SumOfBalances(rows, ids)
    decreases ids
  {
    if ids == {} {
      SumDifference(rows, ReceivedByAny(ids), ReceivedByAny(ids), ReceivedByAny(ids));
      SumDifference(rows, SpentByAny(ids), SpentByAny(ids), SpentByAny(ids));
    } else {
      var id :| id in ids && SumOfBalances(rows, ids) == IsolatedBalanceMsat(rows, id) + SumOfBalances(rows, ids - {id});
      AnyIsSumOfBalances(rows, ids - {id});
      SumDifference(rows, ReceivedByAny(ids), ReceivedByAny(ids - {id}), ReceivedBy(id));
      SumDifference(rows, SpentByAny(ids), SpentByAny(ids - {id}), SpentBy(id));
      assert SumOfBalances(rows, ids) == IsolatedBalanceMsat(rows, id) + SumOfBalances(rows, ids - {id});
    }
  }

  /** The single query over all sub-wallets is the sum of the per-app balances of exactly the sub-wallet apps. */
  lemma SubwalletTotalIsSumOfBalances(rows: Table, apps: map<nat, App>)
    ensures TotalSubwalletBalanceMsat(rows, apps)
            == SumOfBalances(rows, set id | id in apps && apps[id].appStoreAppId == "uncle-jim")
  {
    AnyIsSumOfBalances(rows, SubwalletIds(apps));
  }
}
