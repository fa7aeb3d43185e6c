// Records of the banking ledger: accounts, transaction records, audit
// entries, the requests the transaction service accepts and the responses
// it returns. Money is counted in cents: the store keeps every amount as a
// decimal with two fractional digits, so whole cents represent it exactly.

module Models {

  datatype Option<T> = None | Some(value: T)

  /** An account row. `id` is the store's key, `number` its unique
      secondary key; `createdAt` is a clock reading. */
  datatype Account = Account(
    id: int,
    number: string,
    balance: int,
    accountType: string,
    createdAt: int,
    active: bool)

  /** A ledger entry. A deposit has no source, a withdrawal no destination. */
  datatype Transaction = Transaction(
    id: int,
    fromAccount: Option<int>,
    toAccount: Option<int>,
    amount: int,
    kind: string,
    date: int,
    status: string,
    description: string)

  /** An audit entry. The free-text description of the change is kept as
      its parts: the amount and the two account numbers it names. */
  datatype AuditEntry = AuditEntry(
    tableName: string,
    operation: string,
    amount: int,
    fromNumber: string,
    toNumber: string,
    timestamp: int)

  /** A request to move money; every field may be absent, as in the wire form. */
  datatype Request = Request(
    fromAccount: Option<int>,
    toAccount: Option<int>,
    amount: int,
    kind: Option<string>,
    description: Option<string>)

  /** The outcome reported to callers; `newBalance` is 0 on a failure. */
  datatype Response = Response(
    success: bool,
    transactionId: Option<int>,
    message: string,
    newBalance: int)

  datatype AccountBalance = AccountBalance(
    accountId: int,
    number: string,
    balance: int,
    accountType: string)

  /** The whole persisted state as one value. */
  datatype Ledger = Ledger(
    accounts: map<int, Account>,
    transactions: seq<Transaction>,
    auditLogs: seq<AuditEntry>)

  function Failed(message: string): Response {
    Response(false, None, message, 0)
  }

  /** `description ?? fallback` */
  function DescriptionOr(description: Option<string>, fallback: string): string {
    if description.Some? then description.value else fallback
  }

  /** Every account sits under its own id, and no two share a number
      (the unique index on the account number). */
  ghost predicate WellFormedAccounts(accounts: map<int, Account>) {
    && (forall id :: id in accounts ==> accounts[id].id == id)
    && (forall i, j :: i in accounts && j in accounts && i != j ==>
          accounts[i].number != accounts[j].number)
  }

  /** The store numbers transaction records 1, 2, 3, ... in insertion order. */
  ghost predicate NumberedInOrder(transactions: seq<Transaction>) {
    forall i :: 0 <= i < |transactions| ==> transactions[i].id == i + 1
  }

  ghost predicate WellFormed(l: Ledger) {
    WellFormedAccounts(l.accounts) && NumberedInOrder(l.transactions)
  }

  ghost predicate NonNegativeBalances(accounts: map<int, Account>) {
    forall id :: id in accounts ==> accounts[id].balance >= 0
  }
}
