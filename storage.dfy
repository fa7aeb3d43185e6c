// The shared store that the repositories and the transaction service
// update in place: the account, transaction and audit tables, and the
// counter from which the store draws fresh account ids.

module Storage {
  import opened Models

  class Database {
    var accounts: map<int, Account>
    var transactions: seq<Transaction>
    var auditLogs: seq<AuditEntry>
    var nextAccountId: int

    ghost predicate Valid()
      reads this
    {
      && WellFormed(State())
      && 1 <= nextAccountId
      && (forall id :: id in accounts ==> id < nextAccountId)
    }

    function State(): Ledger
      reads this
    {
      Ledger(accounts, transactions, auditLogs)
    }

    constructor ()
      ensures Valid()
      ensures State() == Ledger(map[], [], [])
    {
      accounts := map[];
      transactions := [];
      auditLogs := [];
      nextAccountId := 1;
    }
  }
}
