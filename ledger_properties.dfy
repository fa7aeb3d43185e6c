// Properties of the transaction processor that relate several steps or
// the whole account table: money is only created by deposits and only
// destroyed by withdrawals, balances never go negative, a batch keeps one
// ledger entry per request that succeeded, and the batch of the service's
// own unit test ends with the balances it expects.

module LedgerProperties {
  import opened Models
  import opened AccountStore
  import opened TransactionStore
  import opened Totals
  import opened TransactionProcessing

  /** What one processed request adds to the money held by all accounts. */
  function Inflow(req: Request, resp: Response): int {
    if !resp.success then 0
    else if KindOf(req) == Some("deposit") then req.amount
    else if KindOf(req) == Some("withdrawal") then -req.amount
    else 0
  }

  /** The money a run of requests brought in, net of what it paid out. */
  function NetInflow(reqs: seq<Request>, responses: seq<Response>): int
    requires |reqs| == |responses|
    decreases |reqs|
  {
    if reqs == [] then 0
    else NetInflow(reqs[..|reqs| - 1], responses[..|responses| - 1]) +
         Inflow(reqs[|reqs| - 1], responses[|responses| - 1])
  }

  function CountSucceeded(responses: seq<Response>): nat {
    if responses == [] then 0
    else CountSucceeded(responses[..|responses| - 1]) + (if responses[|responses| - 1].success then 1 else 0)
  }

  /** A transfer leaves the total of all balances unchanged. */
  lemma TransferConservesTotal(l: Ledger, req: Request, now: int, ids: seq<int>)
    requires ListsAllAccounts(l.accounts, ids)
    ensures SumOver(Transfer(l, req, now).ledger.accounts, ids) == SumOver(l.accounts, ids)
  {
    var r := Transfer(l, req, now);
    if r.response.success {
      var f, t := req.fromAccount.value, req.toAccount.value;
      var debited := l.accounts[f := l.accounts[f].(balance := l.accounts[f].balance - req.amount)];
      SumOverUpdate(l.accounts, ids, f, l.accounts[f].(balance := l.accounts[f].balance - req.amount));
      SumOverUpdate(debited, ids, t, l.accounts[t].(balance := l.accounts[t].balance + req.amount));
    }
  }

  /** A deposit adds exactly its amount to the total when it succeeds. */
  lemma DepositAddsToTotal(l: Ledger, req: Request, now: int, ids: seq<int>)
    requires req.amount > 0 ==> req.toAccount.Some?
    requires ListsAllAccounts(l.accounts, ids)
    ensures var r := Deposit(l, req, now);
      SumOver(r.ledger.accounts, ids) == SumOver(l.accounts, ids) + (if r.response.success then req.amount else 0)
  {
    var r := Deposit(l, req, now);
    if r.response.success {
      var t := req.toAccount.value;
      SumOverUpdate(l.accounts, ids, t, l.accounts[t].(balance := l.accounts[t].balance + req.amount));
    }
  }

  /** A withdrawal takes exactly its amount from the total when it succeeds. */
  lemma WithdrawalTakesFromTotal(l: Ledger, req: Request, now: int, ids: seq<int>)
    requires req.amount > 0 ==> req.fromAccount.Some?
    requires ListsAllAccounts(l.accounts, ids)
    ensures var r := Withdrawal(l, req, now);
      SumOver(r.ledger.accounts, ids) == SumOver(l.accounts, ids) - (if r.response.success then req.amount else 0)
  {
    var r := Withdrawal(l, req, now);
    if r.response.success {
      var f := req.fromAccount.value;
      SumOverUpdate(l.accounts, ids, f, l.accounts[f].(balance := l.accounts[f].balance - req.amount));
    }
  }

  lemma DispatchMovesTotalByInflow(l: Ledger, req: Request, now: int, ids: seq<int>)
    requires Dispatchable(req)
    requires ListsAllAccounts(l.accounts, ids)
    ensures var r := Dispatch(l, req, now);
      SumOver(r.ledger.accounts, ids) == SumOver(l.accounts, ids) + Inflow(req, r.response)
  {
    var kind := KindOf(req);
    if kind == Some("transfer") {
      TransferConservesTotal(l, req, now, ids);
    } else if kind == Some("deposit") {
      DepositAddsToTotal(l, req, now, ids);
    } else if kind == Some("withdrawal") {
      WithdrawalTakesFromTotal(l, req, now, ids);
    }
  }

  /** Over a whole batch the total of all balances moves by exactly the
      deposits that succeeded minus the withdrawals that succeeded. */
  lemma {:induction false} BatchMovesTotalByNetInflow(l: Ledger, reqs: seq<Request>, now: int, ids: seq<int>)
    requires forall i :: 0 <= i < |reqs| ==> Dispatchable(reqs[i])
    requires ListsAllAccounts(l.accounts, ids)
    ensures var r := Batch(l, reqs, now);
      SumOver(r.ledger.accounts, ids) == SumOver(l.accounts, ids) + NetInflow(reqs, r.responses)
    decreases |reqs|
  {
    if reqs != [] {
      var init := reqs[..|reqs| - 1];
      var before := Batch(l, init, now);
      BatchMovesTotalByNetInflow(l, init, now, ids);
      DispatchMovesTotalByInflow(before.ledger, reqs[|reqs| - 1], now, ids);
      var r := Batch(l, reqs, now);
      assert r.responses[..|r.responses| - 1] == before.responses;
    }
  }

  /** A batch made only of transfers keeps the total of all balances. */
  lemma {:induction false} TransfersOnlyConserveTotal(l: Ledger, reqs: seq<Request>, now: int, ids: seq<int>)
    requires forall i :: 0 <= i < |reqs| ==> KindOf(reqs[i]) == Some("transfer")
    requires ListsAllAccounts(l.accounts, ids)
    ensures SumOver(Batch(l, reqs, now).ledger.accounts, ids) == SumOver(l.accounts, ids)
  {
    BatchMovesTotalByNetInflow(l, reqs, now, ids);
    NoInflowFromTransfers(reqs, Batch(l, reqs, now).responses);
  }

  lemma {:induction false} NoInflowFromTransfers(reqs: seq<Request>, responses: seq<Response>)
    requires |reqs| == |responses|
    requires forall i :: 0 <= i < |reqs| ==> KindOf(reqs[i]) == Some("transfer")
    ensures NetInflow(reqs, responses) == 0
    decreases |reqs|
  {
    if reqs != [] {
      NoInflowFromTransfers(reqs[..|reqs| - 1], responses[..|responses| - 1]);
    }
  }

  /** No account is ever driven below zero by a batch. */
  lemma {:induction false} BatchKeepsBalancesNonNegative(l: Ledger, reqs: seq<Request>, now: int)
    requires forall i :: 0 <= i < |reqs| ==> Dispatchable(reqs[i])
    requires NonNegativeBalances(l.accounts)
    ensures NonNegativeBalances(Batch(l, reqs, now).ledger.accounts)
    decreases |reqs|
  {
    if reqs != [] {
      BatchKeepsBalancesNonNegative(l, reqs[..|reqs| - 1], now);
    }
  }

  /** A batch appends one ledger entry per request that succeeded and keeps
      every earlier entry: nothing a successful request did is undone. */
  lemma {:induction false} BatchRecordsEachSuccess(l: Ledger, reqs: seq<Request>, now: int)
    requires forall i :: 0 <= i < |reqs| ==> Dispatchable(reqs[i])
    ensures var r := Batch(l, reqs, now);
      && |r.ledger.transactions| == |l.transactions| + CountSucceeded(r.responses)
      && r.ledger.transactions[..|l.transactions|] == l.transactions
    decreases |reqs|
  {
    if reqs != [] {
      var init := reqs[..|reqs| - 1];
      var before := Batch(l, init, now);
      BatchRecordsEachSuccess(l, init, now);
      var r := Batch(l, reqs, now);
      assert r.responses[..|r.responses| - 1] == before.responses;
      var n := |l.transactions|;
      if r.responses[|r.responses| - 1].success {
        assert r.ledger.transactions[..n] == r.ledger.transactions[..|before.ledger.transactions|][..n];
      }
    }
  }

  function Seeded(): Ledger {
    Ledger(map[1 := Account(1, "TEST001", 100000, "Checking", 0, true),
               2 := Account(2, "TEST002", 50000, "Savings", 0, true),
               3 := Account(3, "TEST003", 0, "Checking", 0, true)], [], [])
  }

  function TransferRequest(from: int, to: int, amount: int): Request {
    Request(Some(from), Some(to), amount, Some("Transfer"), None)
  }

  lemma {:induction false} TransferTypeIsRecognised(from: int, to: int, amount: int)
    ensures KindOf(TransferRequest(from, to, amount)) == Some("transfer")
  {
    var s, t := "Transfer", "transfer";
    assert |Lower(s)| == |t|;
    forall i | 0 <= i < |s|
      ensures Lower(s)[i] == t[i]
    {
    }
    assert Lower(s) == t;
  }

  /** One successful transfer step, seen through the batch dispatcher, at
      one account `k`. */
  lemma DispatchedTransfer(l: Ledger, from: int, to: int, amount: int, now: int, k: int)
    requires from != to && amount > 0
    requires from in l.accounts && to in l.accounts && l.accounts[from].active && l.accounts[to].active
    requires l.accounts[from].balance >= amount
    requires k in l.accounts
    ensures var r := Dispatch(l, TransferRequest(from, to, amount), now);
      && r.response.success
      && k in r.ledger.accounts
      && r.ledger.accounts[k].active == l.accounts[k].active
      && r.ledger.accounts[k].balance ==
         l.accounts[k].balance + (if k == from then -amount else if k == to then amount else 0)
  {
    TransferTypeIsRecognised(from, to, amount);
  }

  /** Running one more request extends the batch by exactly that step. */
  lemma BatchSnoc(l: Ledger, reqs: seq<Request>, req: Request, now: int)
    requires forall i :: 0 <= i < |reqs| ==> Dispatchable(reqs[i])
    requires Dispatchable(req)
    ensures var before := Batch(l, reqs, now);
            var last := Dispatch(before.ledger, req, now);
            Batch(l, reqs + [req], now) == BatchOutcome(last.ledger, before.responses + [last.response])
  {
    assert (reqs + [req])[..|reqs|] == reqs;
  }

  /** A batch of three requests is the three dispatches in a row. */
  lemma BatchOfThree(l: Ledger, r1: Request, r2: Request, r3: Request, now: int)
    requires Dispatchable(r1) && Dispatchable(r2) && Dispatchable(r3)
    ensures var o1 := Dispatch(l, r1, now);
            var o2 := Dispatch(o1.ledger, r2, now);
            var o3 := Dispatch(o2.ledger, r3, now);
            Batch(l, [r1, r2, r3], now) == BatchOutcome(o3.ledger, [o1.response, o2.response, o3.response])
  {
    BatchSnoc(l, [], r1, now);
    BatchSnoc(l, [r1], r2, now);
    BatchSnoc(l, [r1, r2], r3, now);
    assert [] + [r1] == [r1] && [r1] + [r2] == [r1, r2] && [r1, r2] + [r3] == [r1, r2, r3];
  }

  /** The batch of three transfers from the service's unit test, over its
      three seeded accounts (amounts in cents): 1 -> 2 of 100, 1 -> 3 of
      150, 2 -> 3 of 50 all succeed and leave 750, 550 and 200. */
  lemma BatchOfThreeTransfers(l: Ledger, now: int)
    requires 1 in l.accounts && 2 in l.accounts && 3 in l.accounts
    requires l.accounts[1].active && l.accounts[2].active && l.accounts[3].active
    requires l.accounts[1].balance == 100000 && l.accounts[2].balance == 50000
    requires l.accounts[3].balance == 0
    ensures var r := Batch(l, [TransferRequest(1, 2, 10000), TransferRequest(1, 3, 15000),
                               TransferRequest(2, 3, 5000)], now);
            && AllSucceeded(r.responses)
            && r.ledger.accounts[1].balance == 75000
            && r.ledger.accounts[2].balance == 55000
            && r.ledger.accounts[3].balance == 20000
  {
    var r1, r2, r3 := TransferRequest(1, 2, 10000), TransferRequest(1, 3, 15000), TransferRequest(2, 3, 5000);
    var o1 := Dispatch(l, r1, now);
    assert 1 in o1.ledger.accounts && 2 in o1.ledger.accounts && 3 in o1.ledger.accounts
      && o1.ledger.accounts[1].active && o1.ledger.accounts[2].active && o1.ledger.accounts[3].active
      && o1.ledger.accounts[1].balance == 90000 && o1.ledger.accounts[2].balance == 60000
      && o1.ledger.accounts[3].balance == 0 && o1.response.success
    by {
      DispatchedTransfer(l, 1, 2, 10000, now, 1);
      DispatchedTransfer(l, 1, 2, 10000, now, 2);
      DispatchedTransfer(l, 1, 2, 10000, now, 3);
    }
    var o2 := Dispatch(o1.ledger, r2, now);
    assert 1 in o2.ledger.accounts && 2 in o2.ledger.accounts && 3 in o2.ledger.accounts
      && o2.ledger.accounts[2].active && o2.ledger.accounts[3].active
      && o2.ledger.accounts[1].balance == 75000 && o2.ledger.accounts[2].balance == 60000
      && o2.ledger.accounts[3].balance == 15000 && o2.response.success
    by {
      DispatchedTransfer(o1.ledger, 1, 3, 15000, now, 1);
      DispatchedTransfer(o1.ledger, 1, 3, 15000, now, 2);
      DispatchedTransfer(o1.ledger, 1, 3, 15000, now, 3);
    }
    var o3 := Dispatch(o2.ledger, r3, now);
    assert o3.ledger.accounts[1].balance == 75000 && o3.ledger.accounts[2].balance == 55000
      && o3.ledger.accounts[3].balance == 20000 && o3.response.success
    by {
      DispatchedTransfer(o2.ledger, 2, 3, 5000, now, 1);
      DispatchedTransfer(o2.ledger, 2, 3, 5000, now, 2);
      DispatchedTransfer(o2.ledger, 2, 3, 5000, now, 3);
    }
    assert Dispatchable(r1) && Dispatchable(r2) && Dispatchable(r3) by {
      TransferTypeIsRecognised(1, 2, 10000);
      TransferTypeIsRecognised(1, 3, 15000);
      TransferTypeIsRecognised(2, 3, 5000);
    }
    BatchOfThree(l, r1, r2, r3, now);
    assert AllSucceeded([o1.response, o2.response, o3.response]);
  }

  /** The accounts the unit test seeds satisfy the premises of the example
      and of the counter-example below. */
  lemma SeededFitsExample()
    ensures var l := Seeded();
      && l.accounts.Keys == {1, 2, 3}
      && 1 in l.accounts && 2 in l.accounts && 3 in l.accounts
      && l.accounts[1].active && l.accounts[2].active && l.accounts[3].active
      && l.accounts[1].balance == 100000 && l.accounts[2].balance == 50000
      && l.accounts[3].balance == 0
  {
  }

  /** The batch of the service's unit test, in cents: every request is a
      transfer the dispatcher recognises. */
  function TestBatch(): (reqs: seq<Request>)
    ensures |reqs| == 3
    ensures forall i :: 0 <= i < |reqs| ==> KindOf(reqs[i]) == Some("transfer") && Dispatchable(reqs[i])
  {
    TransferTypeIsRecognised(1, 2, 10000);
    TransferTypeIsRecognised(1, 3, 15000);
    TransferTypeIsRecognised(2, 3, 5000);
    [TransferRequest(1, 2, 10000), TransferRequest(1, 3, 15000), TransferRequest(2, 3, 5000)]
  }

  /** Over the unit test's own seeded table, its batch succeeds in full and
      ends at 750, 550 and 200. */
  lemma SeededBatchOutcome(now: int)
    ensures var r := Batch(Seeded(), TestBatch(), now);
            && r.ledger.accounts.Keys == {1, 2, 3}
            && AllSucceeded(r.responses)
            && r.ledger.accounts[1].balance == 75000
            && r.ledger.accounts[2].balance == 55000
            && r.ledger.accounts[3].balance == 20000
  {
    SeededFitsExample();
    BatchOfThreeTransfers(Seeded(), now);
  }

  /** The unit test expects 450 in account 2 after that batch. No run of the
      batch can end there: the three transfers keep the 1500 the three
      accounts hold, and 750 + 450 + 200 is only 1400. */
  lemma {:induction false} TestExpectationContradictsConservation(l: Ledger, now: int)
    requires l.accounts.Keys == {1, 2, 3}
    requires l.accounts[1].balance == 100000 && l.accounts[2].balance == 50000
    requires l.accounts[3].balance == 0
    ensures var r := Batch(l, [TransferRequest(1, 2, 10000), TransferRequest(1, 3, 15000),
                               TransferRequest(2, 3, 5000)], now);
            !(r.ledger.accounts[1].balance == 75000 &&
              r.ledger.accounts[2].balance == 45000 &&
              r.ledger.accounts[3].balance == 20000)
  {
    var reqs := [TransferRequest(1, 2, 10000), TransferRequest(1, 3, 15000), TransferRequest(2, 3, 5000)];
    var ids := [1, 2, 3];
    assert ListsAllAccounts(l.accounts, ids);
    TransferTypeIsRecognised(1, 2, 10000);
    TransferTypeIsRecognised(1, 3, 15000);
    TransferTypeIsRecognised(2, 3, 5000);
    TransfersOnlyConserveTotal(l, reqs, now, ids);
    var r := Batch(l, reqs, now);
    SumOverThree(l.accounts);
    SumOverThree(r.ledger.accounts);
  }

  lemma SumOverThree(accounts: map<int, Account>)
    requires 1 in accounts && 2 in accounts && 3 in accounts
    ensures SumOver(accounts, [1, 2, 3]) ==
            accounts[1].balance + accounts[2].balance + accounts[3].balance
  {
    var ids: seq<int> := [1, 2, 3];
    assert ids[1..] == [2, 3] && ids[1..][1..] == [3] && ids[1..][1..][1..] == [];
    assert SumOver(accounts, ids[1..][1..][1..]) == 0;
    assert SumOver(accounts, ids[1..][1..]) == accounts[3].balance;
    assert SumOver(accounts, ids[1..]) == accounts[2].balance + accounts[3].balance;
  }
}
