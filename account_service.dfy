// The account service: opens accounts with a zero balance, looks them up
// through the active-only queries, and deactivates them by soft delete.

module AccountManagement {
  import opened Models
  import opened Storage
  import opened AccountStore

  class AccountService {
    const accountRepository: AccountRepository

    constructor (accountRepository: AccountRepository)
      ensures this.accountRepository == accountRepository
    {
      this.accountRepository := accountRepository;
    }

    /** Opens an account of the given type: balance 0, active, numbered with
        `number` (which the store refuses when another account has it). */
    method CreateAccount(accountType: string, number: string, now: int) returns (r: Option<Account>)
      requires accountRepository.db.Valid()
      modifies accountRepository.db
      ensures accountRepository.db.Valid()
      ensures r.None? <==> NumberTaken(old(accountRepository.db.accounts), number)
      ensures r.None? ==> accountRepository.db.accounts == old(accountRepository.db.accounts)
      ensures r.Some? ==>
        && r.value.balance == 0 && r.value.active && r.value.accountType == accountType
        && r.value.number == number && r.value.createdAt == now
        && r.value.id !in old(accountRepository.db.accounts)
        && accountRepository.db.accounts == old(accountRepository.db.accounts)[r.value.id := r.value]
      ensures accountRepository.db.transactions == old(accountRepository.db.transactions)
      ensures accountRepository.db.auditLogs == old(accountRepository.db.auditLogs)
    {
      var account := Account(0, "", 0, accountType, now, true);
      r := accountRepository.Create(account, number, now);
    }

    /** The account with this id, only while it is active. */
    function GetAccount(accountId: int): (r: Option<Account>)
      reads accountRepository.db
      ensures r.Some? <==> accountId in accountRepository.db.accounts &&
                           accountRepository.db.accounts[accountId].active
      ensures r.Some? ==> r.value == accountRepository.db.accounts[accountId]
    {
      ActiveById(accountRepository.db.accounts, accountId)
    }

    /** All active accounts, and only those. */
    function GetAllAccounts(): (r: map<int, Account>)
      reads accountRepository.db
      ensures forall id :: id in r <==> id in accountRepository.db.accounts &&
                                        accountRepository.db.accounts[id].active
      ensures forall id :: id in r ==> r[id] == accountRepository.db.accounts[id]
    {
      ActiveAccounts(accountRepository.db.accounts)
    }

    /** Soft-deletes the account: true exactly when an active account was
        deactivated; it then no longer shows in the lookups. */
    method DeactivateAccount(accountId: int) returns (deactivated: bool)
      requires accountRepository.db.Valid()
      modifies accountRepository.db
      ensures accountRepository.db.Valid()
      ensures deactivated <==> old(GetAccount(accountId)).Some?
      ensures deactivated ==>
        accountRepository.db.accounts ==
          old(accountRepository.db.accounts)[accountId := old(accountRepository.db.accounts[accountId]).(active := false)]
      ensures !deactivated ==> accountRepository.db.accounts == old(accountRepository.db.accounts)
      ensures GetAccount(accountId).None? && accountId !in GetAllAccounts()
      ensures accountRepository.db.transactions == old(accountRepository.db.transactions)
      ensures accountRepository.db.auditLogs == old(accountRepository.db.auditLogs)
    {
      deactivated := accountRepository.Delete(accountId);
    }
  }
}
