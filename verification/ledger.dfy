/**
 The ledger: every bank account's balance, keyed by account id.

 In the C++ classes, `User` points to its `BankAccount` and `BankAccount`
 points to its `Bank`; here an account is named by its id and its balance
 lives in one immutable map. Balances are exact reals, not floating point.
 */
module Ledger {

  type AccountId = string

  /** Balance of every account, by account id. */
  type Ledger = map<AccountId, real>

  /** Sum of all balances in the ledger. */
  ghost function Total(m: Ledger): real
    decreases |m|
  {
    if m == map[] then 0.0
    else
      var k :| k in m;
      assert |m.Keys - {k}| == |m.Keys| - 1;
      m[k] + Total(m - {k})
  }

  /** Every balance is non-negative. */
  ghost predicate NonNegative(m: Ledger)
  {
    forall a :: a in m ==> m[a] >= 0.0
  }

  /** `after` holds the same accounts as `before`, and only `acc` may differ. */
  ghost predicate SameExcept(before: Ledger, after: Ledger, acc: AccountId)
  {
    && after.Keys == before.Keys
    && forall a :: a in before && a != acc ==> after[a] == before[a]
  }

  /** `after` is `before` with `amount` added to account `acc` and nothing else changed. */
  ghost predicate Raised(before: Ledger, after: Ledger, acc: AccountId, amount: real)
  {
    && SameExcept(before, after, acc)
    && acc in after
    && after[acc] == before[acc] + amount
  }

  /**
   `after` is `before` with `amount` taken from `from` and given to `to`.
   When `from == to` the two adjustments cancel and nothing changes.
   */
  ghost predicate Moved(before: Ledger, after: Ledger, from: AccountId, to: AccountId, amount: real)
  {
    && after.Keys == before.Keys
    && forall a :: a in before ==>
         after[a] == before[a] - (if a == from then amount else 0.0) + (if a == to then amount else 0.0)
  }

  /** The total does not depend on which account `Total` happens to pick first. */
  lemma {:induction false} TotalRemove(m: Ledger, k: AccountId)
    requires k in m
    ensures Total(m) == m[k] + Total(m - {k})
    decreases |m|
  {
    var j :| j in m && Total(m) == m[j] + Total(m - {j});
    if j != k {
      assert |m.Keys - {j}| == |m.Keys| - 1;
      assert |m.Keys - {k}| == |m.Keys| - 1;
      TotalRemove(m - {j}, k);
      TotalRemove(m - {k}, j);
      assert (m - {j}) - {k} == (m - {k}) - {j};
    }
  }

  /** Replacing one balance changes the total by exactly the difference. */
  lemma {:induction false} TotalUpdate(m: Ledger, k: AccountId, v: real)
    requires k in m
    ensures Total(m[k := v]) == Total(m) - m[k] + v
  {
    TotalRemove(m, k);
    TotalRemove(m[k := v], k);
    assert m[k := v] - {k} == m - {k};
  }

  /** A move keeps the total of the whole ledger: no money is created or destroyed. */
  lemma MovedKeepsTotal(before: Ledger, after: Ledger, from: AccountId, to: AccountId, amount: real)
    requires from in before && to in before
    requires Moved(before, after, from, to, amount)
    ensures Total(after) == Total(before)
  {
    if from == to {
      assert after == before;
    } else {
      var mid := before[from := before[from] - amount];
      TotalUpdate(before, from, before[from] - amount);
      TotalUpdate(mid, to, before[to] + amount);
      assert after == mid[to := before[to] + amount];
    }
  }

  /** Raising one account raises the total of the whole ledger by the same amount. */
  lemma RaisedAddsToTotal(before: Ledger, after: Ledger, acc: AccountId, amount: real)
    requires acc in before
    requires Raised(before, after, acc, amount)
    ensures Total(after) == Total(before) + amount
  {
    TotalUpdate(before, acc, before[acc] + amount);
    assert after == before[acc := before[acc] + amount];
  }
}
