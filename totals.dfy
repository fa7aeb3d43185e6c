// The sum of the balances held by a list of accounts, and how a change to
// one account moves it. Taking the list to be every account id, each once,
// gives the total money held in the account table.

module Totals {
  import opened Models

  ghost predicate Distinct(ids: seq<int>) {
    forall i, j :: 0 <= i < j < |ids| ==> ids[i] != ids[j]
  }

  /** Every account of the table is listed, and none twice. */
  ghost predicate ListsAllAccounts(accounts: map<int, Account>, ids: seq<int>) {
    Distinct(ids) && forall k :: k in accounts ==> k in ids
  }

  /** The balances of the listed accounts, added up; an id with no account adds 0. */
  function SumOver(accounts: map<int, Account>, ids: seq<int>): int {
    if ids == [] then 0
    else (if ids[0] in accounts then accounts[ids[0]].balance else 0) + SumOver(accounts, ids[1..])
  }

  /** Replacing one account moves the sum by its change of balance when it is
      listed, and not at all when it is not. */
  lemma {:induction false} SumOverUpdate(accounts: map<int, Account>, ids: seq<int>, k: int, a: Account)
    requires k in accounts
    requires Distinct(ids)
    ensures SumOver(accounts[k := a], ids) ==
            SumOver(accounts, ids) + (if k in ids then a.balance - accounts[k].balance else 0)
  {
    if ids != [] {
      assert Distinct(ids[1..]);
      SumOverUpdate(accounts, ids[1..], k, a);
      assert k in ids <==> ids[0] == k || k in ids[1..];
      if ids[0] == k {
        assert k !in ids[1..] by {
          forall i | 0 <= i < |ids[1..]| ensures ids[1..][i] != k {
            assert ids[1..][i] == ids[i + 1];
          }
        }
      }
    }
  }
}
