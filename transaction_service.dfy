// The transaction processor. Each operation runs as one atomic step over
// the store: it checks its rules in a fixed order, and either reports the
// first rule broken and changes nothing, or moves the money, appends one
// ledger entry (and, for a transfer, one audit entry) and reports success.
// A batch applies its requests one after another; a failed request does not
// undo the ones before it.
//
// The functions Transfer, Deposit, Withdrawal, Dispatch and Batch state
// what each operation does to the whole ledger; the methods of
// TransactionService perform it in place and are proved to agree.

module TransactionProcessing {
  import opened Models
  import opened Storage
  import opened AccountStore
  import opened TransactionStore
  import opened Totals

  const SameAccount := "Cannot transfer to the same account"
  const NotPositive := "Amount must be greater than zero"
  const SourceNotFound := "Source account not found"
  const DestinationNotFound := "Destination account not found"
  const InsufficientFunds := "Insufficient funds"
  const AccountNotFound := "Account not found"
  const InvalidType := "Invalid transaction type"
  const TransferDone := "Transfer completed successfully"
  const DepositDone := "Deposit completed successfully"
  const WithdrawalDone := "Withdrawal completed successfully"

  datatype Outcome = Outcome(ledger: Ledger, response: Response)

  datatype BatchOutcome = BatchOutcome(ledger: Ledger, responses: seq<Response>)

  /** The active account under an id that may be absent: an absent id
      matches no row. */
  function ActiveByOptionalId(accounts: map<int, Account>, id: Option<int>): Option<Account> {
    if id.None? then None else ActiveById(accounts, id.value)
  }

  /** The message of the first transfer rule the request breaks, if any. */
  function TransferRejection(accounts: map<int, Account>, req: Request): (r: Option<string>)
    ensures r == Some(SameAccount) <==> req.fromAccount == req.toAccount
    ensures r == Some(NotPositive) <==> req.fromAccount != req.toAccount && req.amount <= 0
    ensures r == Some(SourceNotFound) <==>
      req.fromAccount != req.toAccount && req.amount > 0 &&
      ActiveByOptionalId(accounts, req.fromAccount).None?
    ensures r == Some(DestinationNotFound) <==>
      req.fromAccount != req.toAccount && req.amount > 0 &&
      ActiveByOptionalId(accounts, req.fromAccount).Some? &&
      ActiveByOptionalId(accounts, req.toAccount).None?
    ensures r == Some(InsufficientFunds) <==>
      req.fromAccount != req.toAccount && req.amount > 0 &&
      ActiveByOptionalId(accounts, req.fromAccount).Some? &&
      ActiveByOptionalId(accounts, req.toAccount).Some? &&
      accounts[req.fromAccount.value].balance < req.amount
    ensures r.None? <==>
      req.fromAccount != req.toAccount && req.amount > 0 &&
      req.fromAccount.Some? && req.toAccount.Some? &&
      req.fromAccount.value in accounts && accounts[req.fromAccount.value].active &&
      req.toAccount.value in accounts && accounts[req.toAccount.value].active &&
      accounts[req.fromAccount.value].balance >= req.amount
  {
    if req.fromAccount == req.toAccount then Some(SameAccount)
    else if req.amount <= 0 then Some(NotPositive)
    else if ActiveByOptionalId(accounts, req.fromAccount).None? then Some(SourceNotFound)
    else if ActiveByOptionalId(accounts, req.toAccount).None? then Some(DestinationNotFound)
    else if accounts[req.fromAccount.value].balance < req.amount then Some(InsufficientFunds)
    else None
  }

  /** A transfer between two active accounts. */
  function Transfer(l: Ledger, req: Request, now: int): (r: Outcome)
    ensures r.response.success <==> TransferRejection(l.accounts, req).None?
    ensures !r.response.success ==>
      r.ledger == l && r.response == Failed(TransferRejection(l.accounts, req).value)
    ensures r.response.success ==>
      var f, t := req.fromAccount.value, req.toAccount.value;
      && f != t && f in l.accounts && t in l.accounts
      && r.ledger.accounts == l.accounts[f := l.accounts[f].(balance := l.accounts[f].balance - req.amount)]
                                        [t := l.accounts[t].(balance := l.accounts[t].balance + req.amount)]
      && r.ledger.accounts[f].balance >= 0
      && r.ledger.accounts[f].balance + r.ledger.accounts[t].balance ==
         l.accounts[f].balance + l.accounts[t].balance
      && r.ledger.transactions == l.transactions +
           [Transaction(|l.transactions| + 1, req.fromAccount, req.toAccount, req.amount, "Transfer",
                        now, Completed, DescriptionOr(req.description, "Transfer between accounts"))]
      && r.ledger.auditLogs == l.auditLogs +
           [AuditEntry("Transactions", "INSERT", req.amount, l.accounts[f].number, l.accounts[t].number, now)]
      && r.response == Response(true, Some(|l.transactions| + 1), TransferDone, r.ledger.accounts[f].balance)
    ensures forall k :: k in l.accounts && Some(k) != req.fromAccount && Some(k) != req.toAccount ==>
      k in r.ledger.accounts && r.ledger.accounts[k] == l.accounts[k]
    ensures r.ledger.accounts.Keys == l.accounts.Keys
    ensures WellFormed(l) ==> WellFormed(r.ledger)
    ensures NonNegativeBalances(l.accounts) ==> NonNegativeBalances(r.ledger.accounts)
  {
    var rejection := TransferRejection(l.accounts, req);
    if rejection.Some? then Outcome(l, Failed(rejection.value))
    else
      var f, t := req.fromAccount.value, req.toAccount.value;
      var source := l.accounts[f].(balance := l.accounts[f].balance - req.amount);
      var destination := l.accounts[t].(balance := l.accounts[t].balance + req.amount);
      var record := Transaction(|l.transactions| + 1, req.fromAccount, req.toAccount, req.amount,
                                "Transfer", now, Completed,
                                DescriptionOr(req.description, "Transfer between accounts"));
      var audit := AuditEntry("Transactions", "INSERT", req.amount,
                              l.accounts[f].number, l.accounts[t].number, now);
      Outcome(Ledger(l.accounts[f := source][t := destination],
                     l.transactions + [record], l.auditLogs + [audit]),
              Response(true, Some(record.id), TransferDone, source.balance))
  }

  /** A deposit into an active account. The source reads the account id
      without checking it for absence once the amount is positive. */
  function Deposit(l: Ledger, req: Request, now: int): (r: Outcome)
    requires req.amount > 0 ==> req.toAccount.Some?
    ensures req.amount <= 0 ==> r == Outcome(l, Failed(NotPositive))
    ensures req.amount > 0 && ActiveById(l.accounts, req.toAccount.value).None? ==>
      r == Outcome(l, Failed(AccountNotFound))
    ensures r.response.success <==> req.amount > 0 && ActiveById(l.accounts, req.toAccount.value).Some?
    ensures r.response.success ==>
      var t := req.toAccount.value;
      && r.ledger.accounts == l.accounts[t := l.accounts[t].(balance := l.accounts[t].balance + req.amount)]
      && r.ledger.transactions == l.transactions +
           [Transaction(|l.transactions| + 1, None, req.toAccount, req.amount, "Deposit",
                        now, Completed, DescriptionOr(req.description, "Account deposit"))]
      && r.ledger.auditLogs == l.auditLogs
      && r.response == Response(true, Some(|l.transactions| + 1), DepositDone, r.ledger.accounts[t].balance)
    ensures r.ledger.accounts.Keys == l.accounts.Keys
    ensures WellFormed(l) ==> WellFormed(r.ledger)
    ensures NonNegativeBalances(l.accounts) ==> NonNegativeBalances(r.ledger.accounts)
  {
    if req.amount <= 0 then Outcome(l, Failed(NotPositive))
    else
      var t := req.toAccount.value;
      var account := ActiveById(l.accounts, t);
      if account.None? then Outcome(l, Failed(AccountNotFound))
      else
        var updated := account.value.(balance := account.value.balance + req.amount);
        var record := Transaction(|l.transactions| + 1, None, req.toAccount, req.amount, "Deposit",
                                  now, Completed, DescriptionOr(req.description, "Account deposit"));
        Outcome(Ledger(l.accounts[t := updated], l.transactions + [record], l.auditLogs),
                Response(true, Some(record.id), DepositDone, updated.balance))
  }

  /** A withdrawal from an active account that holds at least the amount. */
  function Withdrawal(l: Ledger, req: Request, now: int): (r: Outcome)
    requires req.amount > 0 ==> req.fromAccount.Some?
    ensures req.amount <= 0 ==> r == Outcome(l, Failed(NotPositive))
    ensures req.amount > 0 && ActiveById(l.accounts, req.fromAccount.value).None? ==>
      r == Outcome(l, Failed(AccountNotFound))
    ensures req.amount > 0 && ActiveById(l.accounts, req.fromAccount.value).Some? &&
            l.accounts[req.fromAccount.value].balance < req.amount ==>
      r == Outcome(l, Failed(InsufficientFunds))
    ensures r.response.success <==>
      req.amount > 0 && ActiveById(l.accounts, req.fromAccount.value).Some? &&
      l.accounts[req.fromAccount.value].balance >= req.amount
    ensures r.response.success ==>
      var f := req.fromAccount.value;
      && r.ledger.accounts == l.accounts[f := l.accounts[f].(balance := l.accounts[f].balance - req.amount)]
      && r.ledger.accounts[f].balance >= 0
      && r.ledger.transactions == l.transactions +
           [Transaction(|l.transactions| + 1, req.fromAccount, None, req.amount, "Withdrawal",
                        now, Completed, DescriptionOr(req.description, "Account withdrawal"))]
      && r.ledger.auditLogs == l.auditLogs
      && r.response == Response(true, Some(|l.transactions| + 1), WithdrawalDone, r.ledger.accounts[f].balance)
    ensures r.ledger.accounts.Keys == l.accounts.Keys
    ensures WellFormed(l) ==> WellFormed(r.ledger)
    ensures NonNegativeBalances(l.accounts) ==> NonNegativeBalances(r.ledger.accounts)
  {
    if req.amount <= 0 then Outcome(l, Failed(NotPositive))
    else
      var f := req.fromAccount.value;
      var account := ActiveById(l.accounts, f);
      if account.None? then Outcome(l, Failed(AccountNotFound))
      else if account.value.balance < req.amount then Outcome(l, Failed(InsufficientFunds))
      else
        var updated := account.value.(balance := account.value.balance - req.amount);
        var record := Transaction(|l.transactions| + 1, req.fromAccount, None, req.amount, "Withdrawal",
                                  now, Completed, DescriptionOr(req.description, "Account withdrawal"));
        Outcome(Ledger(l.accounts[f := updated], l.transactions + [record], l.auditLogs),
                Response(true, Some(record.id), WithdrawalDone, updated.balance))
  }

  function LowerChar(c: char): char {
    if 'A' <= c <= 'Z' then (c as int - 'A' as int + 'a' as int) as char else c
  }

  /** Lower-casing of the letters A to Z. */
  function Lower(s: string): (r: string)
    ensures |r| == |s| && forall i :: 0 <= i < |s| ==> r[i] == LowerChar(s[i])
  {
    if s == [] then [] else [LowerChar(s[0])] + Lower(s[1..])
  }

  /** The request's type, lower-cased; absent when the request has none. */
  function KindOf(req: Request): Option<string> {
    if req.kind.None? then None else Some(Lower(req.kind.value))
  }

  /** The request can be dispatched without reading an absent account id. */
  predicate Dispatchable(req: Request) {
    && (KindOf(req) == Some("deposit") && req.amount > 0 ==> req.toAccount.Some?)
    && (KindOf(req) == Some("withdrawal") && req.amount > 0 ==> req.fromAccount.Some?)
  }

  /** One request of a batch, routed by its lower-cased type. */
  function Dispatch(l: Ledger, req: Request, now: int): (r: Outcome)
    requires Dispatchable(req)
    ensures KindOf(req) == Some("transfer") ==> r == Transfer(l, req, now)
    ensures KindOf(req) == Some("deposit") ==> r == Deposit(l, req, now)
    ensures KindOf(req) == Some("withdrawal") ==> r == Withdrawal(l, req, now)
    ensures KindOf(req) !in {Some("transfer"), Some("deposit"), Some("withdrawal")} ==>
      r == Outcome(l, Failed(InvalidType))
    ensures !r.response.success ==> r.ledger == l
    ensures r.response.success ==>
      && |r.ledger.transactions| == |l.transactions| + 1
      && r.ledger.transactions[..|l.transactions|] == l.transactions
    ensures r.ledger.accounts.Keys == l.accounts.Keys
    ensures WellFormed(l) ==> WellFormed(r.ledger)
    ensures NonNegativeBalances(l.accounts) ==> NonNegativeBalances(r.ledger.accounts)
  {
    match KindOf(req)
    case Some("transfer") => Transfer(l, req, now)
    case Some("deposit") => Deposit(l, req, now)
    case Some("withdrawal") => Withdrawal(l, req, now)
    case _ => Outcome(l, Failed(InvalidType))
  }

  /** The requests applied one after another, each to the ledger the
      previous ones left. */
  function Batch(l: Ledger, reqs: seq<Request>, now: int): (r: BatchOutcome)
    requires forall i :: 0 <= i < |reqs| ==> Dispatchable(reqs[i])
    ensures |r.responses| == |reqs|
    ensures r.ledger.accounts.Keys == l.accounts.Keys
    ensures WellFormed(l) ==> WellFormed(r.ledger)
    decreases |reqs|
  {
    if reqs == [] then BatchOutcome(l, [])
    else
      var before := Batch(l, reqs[..|reqs| - 1], now);
      var last := Dispatch(before.ledger, reqs[|reqs| - 1], now);
      BatchOutcome(last.ledger, before.responses + [last.response])
  }

  /** `results.All(r => r.Success)` */
  function AllSucceeded(results: seq<Response>): (b: bool)
    ensures b <==> forall i :: 0 <= i < |results| ==> results[i].success
  {
    if results == [] then true
    else
      var rest := AllSucceeded(results[1..]);
      assert forall i :: 1 <= i < |results| ==> results[i] == results[1..][i - 1];
      results[0].success && rest
  }

  class TransactionService {
    const db: Database
    const accountRepository: AccountRepository
    const transactionRepository: TransactionRepository

    ghost predicate Valid()
      reads db
    {
      accountRepository.db == db && transactionRepository.db == db && db.Valid()
    }

    constructor (db: Database, accountRepository: AccountRepository,
                 transactionRepository: TransactionRepository)
      requires accountRepository.db == db && transactionRepository.db == db
      ensures this.db == db && this.accountRepository == accountRepository
      ensures this.transactionRepository == transactionRepository
    {
      this.db := db;
      this.accountRepository := accountRepository;
      this.transactionRepository := transactionRepository;
    }

    method ProcessTransfer(req: Request, now: int) returns (resp: Response)
      requires Valid()
      modifies db
      ensures Valid()
      ensures Outcome(db.State(), resp) == Transfer(old(db.State()), req, now)
      ensures db.nextAccountId == old(db.nextAccountId)
    {
      if req.fromAccount == req.toAccount {
        return Failed(SameAccount);
      }
      if req.amount <= 0 {
        return Failed(NotPositive);
      }
      var fromAccount := ActiveByOptionalId(db.accounts, req.fromAccount);
      var toAccount := ActiveByOptionalId(db.accounts, req.toAccount);
      if fromAccount.None? {
        return Failed(SourceNotFound);
      }
      if toAccount.None? {
        return Failed(DestinationNotFound);
      }
      if fromAccount.value.balance < req.amount {
        return Failed(InsufficientFunds);
      }
      var source := fromAccount.value.(balance := fromAccount.value.balance - req.amount);
      var destination := toAccount.value.(balance := toAccount.value.balance + req.amount);
      db.accounts := db.accounts[source.id := source][destination.id := destination];
      var record := Transaction(|db.transactions| + 1, req.fromAccount, req.toAccount, req.amount,
                                "Transfer", now, Completed,
                                DescriptionOr(req.description, "Transfer between accounts"));
      db.transactions := db.transactions + [record];
      db.auditLogs := db.auditLogs + [AuditEntry("Transactions", "INSERT", req.amount,
                                                 fromAccount.value.number, toAccount.value.number, now)];
      resp := Response(true, Some(record.id), TransferDone, source.balance);
    }

    method ProcessDeposit(req: Request, now: int) returns (resp: Response)
      requires Valid()
      requires req.amount > 0 ==> req.toAccount.Some?
      modifies db
      ensures Valid()
      ensures Outcome(db.State(), resp) == Deposit(old(db.State()), req, now)
      ensures db.nextAccountId == old(db.nextAccountId)
    {
      if req.amount <= 0 {
        return Failed(NotPositive);
      }
      var account := ActiveById(db.accounts, req.toAccount.value);
      if account.None? {
        return Failed(AccountNotFound);
      }
      var updated := account.value.(balance := account.value.balance + req.amount);
      accountRepository.Update(updated);
      var stored := transactionRepository.Create(
        Transaction(0, None, req.toAccount, req.amount, "Deposit", now, Completed,
                    DescriptionOr(req.description, "Account deposit")), now);
      resp := Response(true, Some(stored.id), DepositDone, updated.balance);
    }

    method ProcessWithdrawal(req: Request, now: int) returns (resp: Response)
      requires Valid()
      requires req.amount > 0 ==> req.fromAccount.Some?
      modifies db
      ensures Valid()
      ensures Outcome(db.State(), resp) == Withdrawal(old(db.State()), req, now)
      ensures db.nextAccountId == old(db.nextAccountId)
    {
      if req.amount <= 0 {
        return Failed(NotPositive);
      }
      var account := ActiveById(db.accounts, req.fromAccount.value);
      if account.None? {
        return Failed(AccountNotFound);
      }
      if account.value.balance < req.amount {
        return Failed(InsufficientFunds);
      }
      var updated := account.value.(balance := account.value.balance - req.amount);
      accountRepository.Update(updated);
      var stored := transactionRepository.Create(
        Transaction(0, req.fromAccount, None, req.amount, "Withdrawal", now, Completed,
                    DescriptionOr(req.description, "Account withdrawal")), now);
      resp := Response(true, Some(stored.id), WithdrawalDone, updated.balance);
    }

    /** The balance view of an active account; none for an unknown or
        inactive id. */
    function GetAccountBalance(accountId: int): (r: Option<AccountBalance>)
      reads db
      ensures r.Some? <==> accountId in db.accounts && db.accounts[accountId].active
      ensures r.Some? ==>
        var a := db.accounts[accountId];
        r.value == AccountBalance(a.id, a.number, a.balance, a.accountType)
    {
      var account := ActiveById(db.accounts, accountId);
      if account.None? then None
      else Some(AccountBalance(account.value.id, account.value.number,
                               account.value.balance, account.value.accountType))
    }

    /** The history of an account, newest first. */
    function GetAccountTransactions(accountId: int): (r: seq<Transaction>)
      reads db
      ensures NewestFirst(r)
      ensures forall t :: t in r <==> t in db.transactions && Involves(t, accountId)
    {
      HistoryOf(db.transactions, accountId)
    }

    /** One request of a batch, routed by its lower-cased type. */
    method ProcessTyped(req: Request, now: int) returns (resp: Response)
      requires Valid()
      requires Dispatchable(req)
      modifies db
      ensures Valid()
      ensures Outcome(db.State(), resp) == Dispatch(old(db.State()), req, now)
      ensures db.nextAccountId == old(db.nextAccountId)
    {
      var kind := KindOf(req);
      if kind == Some("transfer") {
        resp := ProcessTransfer(req, now);
      } else if kind == Some("deposit") {
        resp := ProcessDeposit(req, now);
      } else if kind == Some("withdrawal") {
        resp := ProcessWithdrawal(req, now);
      } else {
        resp := Failed(InvalidType);
      }
    }

    /** Applies the requests in order and reports whether all succeeded;
        the ones that succeeded stay applied whatever happens later. */
    method ProcessMultipleTransactions(reqs: seq<Request>, now: int) returns (allSucceeded: bool)
      requires Valid()
      requires forall i :: 0 <= i < |reqs| ==> Dispatchable(reqs[i])
      modifies db
      ensures Valid()
      ensures db.State() == Batch(old(db.State()), reqs, now).ledger
      ensures allSucceeded == AllSucceeded(Batch(old(db.State()), reqs, now).responses)
    {
      var results: seq<Response> := [];
      for i := 0 to |reqs|
        invariant Valid()
        invariant Batch(old(db.State()), reqs[..i], now) == BatchOutcome(db.State(), results)
      {
        var resp := ProcessTyped(reqs[i], now);
        assert reqs[..i + 1][..i] == reqs[..i];
        results := results + [resp];
      }
      assert reqs[..|reqs|] == reqs;
      allSucceeded := AllSucceeded(results);
    }
  }
}
