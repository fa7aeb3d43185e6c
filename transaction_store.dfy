// The transaction repository: an append-only log of ledger entries. The
// store stamps each appended entry with its date and the status
// "Completed", and numbers it; the queries filter by account and list
// entries newest first.

module TransactionStore {
  import opened Models
  import opened Storage

  const Completed := "Completed"

  /** The entry names this account as its source or its destination. */
  predicate Involves(t: Transaction, accountId: int) {
    t.fromAccount == Some(accountId) || t.toAccount == Some(accountId)
  }

  /** The entries that involve the account, each as often as in the log. */
  function InvolvingAccount(log: seq<Transaction>, accountId: int): (r: seq<Transaction>)
    ensures forall i :: 0 <= i < |r| ==> Involves(r[i], accountId)
    ensures forall t :: multiset(r)[t] == if Involves(t, accountId) then multiset(log)[t] else 0
  {
    if log == [] then []
    else
      var rest := InvolvingAccount(log[1..], accountId);
      assert log == [log[0]] + log[1..];
      if Involves(log[0], accountId) then [log[0]] + rest else rest
  }

  ghost predicate NewestFirst(s: seq<Transaction>) {
    forall i, j :: 0 <= i < j < |s| ==> s[i].date >= s[j].date
  }

  /** Places `t` before the first entry that is not newer than it. */
  function InsertByDate(t: Transaction, s: seq<Transaction>): (r: seq<Transaction>)
    requires NewestFirst(s)
    ensures NewestFirst(r)
    ensures multiset(r) == multiset(s) + multiset{t}
    ensures |r| == |s| + 1 && (r[0] == t || (s != [] && r[0] == s[0]))
  {
    if s == [] || t.date >= s[0].date then [t] + s
    else
      var rest := InsertByDate(t, s[1..]);
      assert s == [s[0]] + s[1..];
      assert s[0].date >= rest[0].date;
      [s[0]] + rest
  }

  /** The entries ordered by date, newest first. */
  function SortNewestFirst(s: seq<Transaction>): (r: seq<Transaction>)
    ensures NewestFirst(r)
    ensures multiset(r) == multiset(s)
  {
    if s == [] then []
    else
      assert s == [s[0]] + s[1..];
      InsertByDate(s[0], SortNewestFirst(s[1..]))
  }

  /** The history of an account: every entry that names it as source or
      destination, each exactly once per occurrence, newest first. */
  function HistoryOf(log: seq<Transaction>, accountId: int): (r: seq<Transaction>)
    ensures NewestFirst(r)
    ensures forall t :: t in r <==> t in log && Involves(t, accountId)
    ensures forall t :: multiset(r)[t] == if Involves(t, accountId) then multiset(log)[t] else 0
  {
    var r := SortNewestFirst(InvolvingAccount(log, accountId));
    assert forall t :: t in r <==> multiset(r)[t] > 0;
    assert forall t :: t in log <==> multiset(log)[t] > 0;
    r
  }

  /** The first entry carrying this id; in a log numbered 1, 2, 3, ... that
      is the entry at position id - 1, and there is none outside 1..|log|. */
  function FindById(log: seq<Transaction>, id: int): (r: Option<Transaction>)
    ensures r.None? <==> forall i :: 0 <= i < |log| ==> log[i].id != id
    ensures r.Some? ==> exists i :: 0 <= i < |log| && log[i] == r.value && r.value.id == id &&
                                    forall j :: 0 <= j < i ==> log[j].id != id
    ensures NumberedInOrder(log) ==>
      (r.Some? <==> 1 <= id <= |log|) && (r.Some? ==> r.value == log[id - 1])
  {
    if log == [] then None
    else if log[0].id == id then Some(log[0])
    else
      var r := FindById(log[1..], id);
      assert forall i :: 1 <= i < |log| ==> log[i] == log[1..][i - 1];
      assert NumberedInOrder(log) && 1 <= id <= |log| ==> log[id - 1].id == id;
      r
  }

  class TransactionRepository {
    const db: Database

    constructor (db: Database)
      ensures this.db == db
    {
      this.db := db;
    }

    /** Appends the entry, overwriting its date and setting its status to
        "Completed" whatever the caller passed; the store numbers it. */
    method Create(t: Transaction, now: int) returns (stored: Transaction)
      requires db.Valid()
      modifies db
      ensures db.Valid()
      ensures stored == t.(id := |old(db.transactions)| + 1, date := now, status := Completed)
      ensures db.transactions == old(db.transactions) + [stored]
      ensures db.accounts == old(db.accounts) && db.auditLogs == old(db.auditLogs)
      ensures db.nextAccountId == old(db.nextAccountId)
    {
      stored := t.(id := |db.transactions| + 1, date := now, status := Completed);
      db.transactions := db.transactions + [stored];
    }
  }
}
