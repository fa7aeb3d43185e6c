// The account repository: queries that see only active accounts, creation
// with a store-assigned id and number, replacement of a stored row, and
// soft delete (the row stays, marked inactive).

module AccountStore {
  import opened Models
  import opened Storage

  /** The active account with this id, if there is one: the row filter
      "id matches and active", which in a well-formed table hits the row
      stored under that id. */
  function ActiveById(accounts: map<int, Account>, id: int): (r: Option<Account>)
    ensures r.Some? ==> id in accounts && r.value == accounts[id] && r.value.active
    ensures WellFormedAccounts(accounts) ==>
      (r.Some? <==> exists k :: k in accounts && accounts[k].id == id && accounts[k].active)
    ensures WellFormedAccounts(accounts) && r.Some? ==> r.value.id == id
  {
    if id in accounts && accounts[id].active then Some(accounts[id]) else None
  }

  /** Some account, active or not, already carries this number. */
  ghost predicate NumberTaken(accounts: map<int, Account>, number: string) {
    exists id :: id in accounts && accounts[id].number == number
  }

  /** The active account with this number, if there is one. */
  ghost function ActiveByNumber(accounts: map<int, Account>, number: string): (r: Option<Account>)
    ensures r.Some? <==>
      exists k :: k in accounts && accounts[k].number == number && accounts[k].active
    ensures r.Some? ==>
      exists k :: k in accounts && accounts[k] == r.value && r.value.number == number && r.value.active
    ensures WellFormedAccounts(accounts) ==>
      forall k :: k in accounts && accounts[k].number == number && accounts[k].active ==>
        r == Some(accounts[k])
  {
    if exists k :: k in accounts && accounts[k].number == number && accounts[k].active then
      var k :| k in accounts && accounts[k].number == number && accounts[k].active;
      Some(accounts[k])
    else
      None
  }

  /** Exactly the active accounts, none missing and none inactive. */
  function ActiveAccounts(accounts: map<int, Account>): (r: map<int, Account>)
    ensures forall id :: id in r <==> id in accounts && accounts[id].active
    ensures forall id :: id in r ==> r[id] == accounts[id]
  {
    map id | id in accounts && accounts[id].active :: accounts[id]
  }

  class AccountRepository {
    const db: Database

    constructor (db: Database)
      ensures this.db == db
    {
      this.db := db;
    }

    /** Stores a new account under a fresh id with the given number, its
        creation time and the active flag; the unique index on the number
        refuses the insert when the number is already taken. */
    method Create(account: Account, number: string, now: int) returns (r: Option<Account>)
      requires db.Valid()
      modifies db
      ensures db.Valid()
      ensures db.transactions == old(db.transactions) && db.auditLogs == old(db.auditLogs)
      ensures r.None? <==> NumberTaken(old(db.accounts), number)
      ensures r.None? ==> db.accounts == old(db.accounts)
      ensures r.Some? ==>
        && r.value == account.(id := old(db.nextAccountId), number := number,
                               createdAt := now, active := true)
        && r.value.id !in old(db.accounts)
        && db.accounts == old(db.accounts)[r.value.id := r.value]
      ensures db.nextAccountId >= old(db.nextAccountId)
    {
      if exists id :: id in db.accounts && db.accounts[id].number == number {
        return None;
      }
      var stored := account.(id := db.nextAccountId, number := number,
                             createdAt := now, active := true);
      db.accounts := db.accounts[stored.id := stored];
      db.nextAccountId := db.nextAccountId + 1;
      r := Some(stored);
    }

    /** Replaces the stored row that has this account's id. The store
        rejects a row it does not hold and a number another row carries. */
    method Update(account: Account)
      requires db.Valid()
      requires account.id in db.accounts
      requires forall id :: id in db.accounts && id != account.id ==>
                 db.accounts[id].number != account.number
      modifies db
      ensures db.Valid()
      ensures db.accounts == old(db.accounts)[account.id := account]
      ensures db.transactions == old(db.transactions) && db.auditLogs == old(db.auditLogs)
      ensures db.nextAccountId == old(db.nextAccountId)
      ensures forall id :: id in old(db.accounts) && id != account.id ==>
                id in db.accounts && db.accounts[id] == old(db.accounts[id])
    {
      db.accounts := db.accounts[account.id := account];
    }

    /** Soft delete: an active account is marked inactive and kept;
        a missing or already inactive id changes nothing. */
    method Delete(id: int) returns (deleted: bool)
      requires db.Valid()
      modifies db
      ensures db.Valid()
      ensures deleted <==> old(ActiveById(db.accounts, id)).Some?
      ensures deleted ==> db.accounts == old(db.accounts)[id := old(db.accounts[id]).(active := false)]
      ensures !deleted ==> db.accounts == old(db.accounts)
      ensures db.transactions == old(db.transactions) && db.auditLogs == old(db.auditLogs)
      ensures db.nextAccountId == old(db.nextAccountId)
      ensures ActiveById(db.accounts, id).None? && id !in ActiveAccounts(db.accounts)
    {
      var account := ActiveById(db.accounts, id);
      if account.Some? {
        Update(account.value.(active := false));
        return true;
      }
      return false;
    }
  }
}
