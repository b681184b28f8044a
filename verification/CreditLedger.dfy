/** credit/repo.go and credits.sql.go: an append-only ledger, and beside it one cached balance
    per user. Amounts are mathematical integers. */
module CreditLedger {
  import opened Wrappers

  // An idempotency key.
  datatype Key = Key(text: string)

  datatype Entry = Entry(user: UserId, delta: int, reason: string, instance: Option<InstanceId>, key: Key)

  datatype Books = Books(entries: seq<Entry>, balances: map<UserId, int>)

  const NO_BOOKS := Books([], map[])

  // GetCredits; no row reads as zero.
  function BalanceOf(b: Books, u: UserId): int {
    if u in b.balances then b.balances[u] else 0
  }

  // The unique index on idempotency_key.
  ghost predicate KeyUsed(entries: seq<Entry>, key: Key) {
    exists i :: 0 <= i < |entries| && entries[i].key == key
  }

  // InsertCreditLedgerEntry and UpsertCredits, committed together.
  function Posted(b: Books, e: Entry): Books {
    Books(b.entries + [e], b.balances[e.user := BalanceOf(b, e.user) + e.delta])
  }

  // ---- what the books mean ----

  // The sum of the user's deltas among the first n entries.
  function Sum(entries: seq<Entry>, n: nat, u: UserId): int
    requires n <= |entries|
  {
    if n == 0 then 0 else Sum(entries, n - 1, u) + if entries[n - 1].user == u then entries[n - 1].delta else 0
  }

  ghost predicate HasEntry(entries: seq<Entry>, u: UserId) {
    exists i :: 0 <= i < |entries| && entries[i].user == u
  }

  /** Every cached balance is the sum of that user's ledger, a user has a row exactly when the
      ledger knows the user, and no key occurs twice. */
  ghost predicate Balanced(b: Books) {
    && (forall u :: BalanceOf(b, u) == Sum(b.entries, |b.entries|, u))
    && (forall u :: u in b.balances <==> HasEntry(b.entries, u))
    && forall i, j :: 0 <= i < j < |b.entries| ==> b.entries[i].key != b.entries[j].key
  }

  lemma {:induction false} SumAppend(entries: seq<Entry>, e: Entry, n: nat, u: UserId)
    requires n <= |entries|
    ensures Sum(entries + [e], n, u) == Sum(entries, n, u)
  {
    if n > 0 {
      SumAppend(entries, e, n - 1, u);
      assert (entries + [e])[n - 1] == entries[n - 1];
    }
  }

  lemma KeyUsedAppend(entries: seq<Entry>, e: Entry, key: Key)
    ensures KeyUsed(entries + [e], key) <==> KeyUsed(entries, key) || e.key == key
  {
    var more := entries + [e];
    assert more[|entries|] == e;
    if KeyUsed(entries, key) {
      var i :| 0 <= i < |entries| && entries[i].key == key;
      assert more[i] == entries[i];
    }
  }

  lemma HasEntryAppend(entries: seq<Entry>, e: Entry, u: UserId)
    ensures HasEntry(entries + [e], u) <==> HasEntry(entries, u) || e.user == u
  {
    var more := entries + [e];
    assert more[|entries|] == e;
    if HasEntry(entries, u) {
      var i :| 0 <= i < |entries| && entries[i].user == u;
      assert more[i] == entries[i];
    }
  }

  lemma PostedKeeps(b: Books, e: Entry)
    requires Balanced(b) && !KeyUsed(b.entries, e.key)
    ensures Balanced(Posted(b, e))
  {
    var b' := Posted(b, e);
    assert b'.entries[|b.entries|] == e;
    forall u ensures BalanceOf(b', u) == Sum(b'.entries, |b'.entries|, u) {
      SumAppend(b.entries, e, |b.entries|, u);
    }
    forall u ensures u in b'.balances <==> HasEntry(b'.entries, u) {
      HasEntryAppend(b.entries, e, u);
    }
    assert forall i :: 0 <= i < |b.entries| ==> b'.entries[i] == b.entries[i];
  }

  // ---- runs of posts ----

  // A call of Post. The database serves only the first `fault` statements: begin, insert,
  // upsert, commit.
  datatype Request = Request(entry: Entry, fault: nat)

  // The call commits, if nobody has taken its key.
  predicate Lands(r: Request, users: set<UserId>) {
    r.entry.key.text != "" && r.entry.user in users && r.fault >= 4
  }

  ghost function AfterPost(b: Books, r: Request, users: set<UserId>): Books {
    if Lands(r, users) && !KeyUsed(b.entries, r.entry.key) then Posted(b, r.entry) else b
  }

  // Concurrent calls are serialized by the unique index, so every run is a sequence of calls.
  ghost function After(posts: seq<Request>, n: nat, users: set<UserId>): Books
    requires n <= |posts|
  {
    if n == 0 then NO_BOOKS else AfterPost(After(posts, n - 1, users), posts[n - 1], users)
  }

  lemma AfterPostKeeps(b: Books, r: Request, users: set<UserId>)
    requires Balanced(b)
    ensures Balanced(AfterPost(b, r, users))
  {
    if Lands(r, users) && !KeyUsed(b.entries, r.entry.key) {
      PostedKeeps(b, r.entry);
    }
  }

  /** Conservation, in every reachable state. */
  lemma {:induction false} RunsBalance(posts: seq<Request>, n: nat, users: set<UserId>)
    requires n <= |posts|
    ensures Balanced(After(posts, n, users))
  {
    if n > 0 {
      RunsBalance(posts, n - 1, users);
      AfterPostKeeps(After(posts, n - 1, users), posts[n - 1], users);
    }
  }

  // The first call under the key, among the first n, that commits.
  function First(posts: seq<Request>, n: nat, users: set<UserId>, key: Key): Option<Entry>
    requires n <= |posts|
  {
    if n == 0 then None
    else if First(posts, n - 1, users, key).Some? then First(posts, n - 1, users, key)
    else if Lands(posts[n - 1], users) && posts[n - 1].entry.key == key then Some(posts[n - 1].entry)
    else None
  }

  lemma {:induction false} FirstIsPosted(posts: seq<Request>, n: nat, users: set<UserId>, key: Key) returns (i: nat)
    requires n <= |posts| && First(posts, n, users, key).Some?
    ensures i < n && First(posts, n, users, key) == Some(posts[i].entry) && posts[i].entry.key == key
  {
    if First(posts, n - 1, users, key).Some? {
      i := FirstIsPosted(posts, n - 1, users, key);
    } else {
      i := n - 1;
    }
  }

  /** A key belongs to whoever posts it first: the ledger holds that call's entry and no other
      under the key, whatever is retried later and in whatever order. */
  lemma {:induction false} FirstWins(posts: seq<Request>, n: nat, users: set<UserId>, key: Key)
    requires n <= |posts|
    ensures KeyUsed(After(posts, n, users).entries, key) <==> First(posts, n, users, key).Some?
    ensures forall i :: 0 <= i < |After(posts, n, users).entries| && After(posts, n, users).entries[i].key == key ==>
                          First(posts, n, users, key) == Some(After(posts, n, users).entries[i])
  {
    if n > 0 {
      FirstWins(posts, n - 1, users, key);
      KeyUsedAppend(After(posts, n - 1, users).entries, posts[n - 1].entry, key);
    }
  }

  lemma {:induction false} KeysStay(posts: seq<Request>, m: nat, n: nat, users: set<UserId>, key: Key)
    requires m <= n <= |posts| && KeyUsed(After(posts, m, users).entries, key)
    ensures KeyUsed(After(posts, n, users).entries, key)
  {
    if m < n {
      KeysStay(posts, m, n - 1, users, key);
      KeyUsedAppend(After(posts, n - 1, users).entries, posts[n - 1].entry, key);
    }
  }

  /** Repeating a call that had the chance to commit changes nothing, however much later. */
  lemma RetryChangesNothing(posts: seq<Request>, m: nat, n: nat, users: set<UserId>)
    requires m < n < |posts| && posts[n].entry == posts[m].entry && posts[m].fault >= 4
    ensures After(posts, n + 1, users) == After(posts, n, users)
  {
    var r := posts[m];
    if Lands(r, users) {
      KeyUsedAppend(After(posts, m, users).entries, r.entry, r.entry.key);
      KeysStay(posts, m + 1, n, users, r.entry.key);
    }
  }

  // ---- the repository ----

  datatype PostError = EmptyKey | Duplicate | DbDown

  class CreditRepo {
    var books: Books
    const users: set<UserId>   // the users table; credit_ledger and credits refer to it

    constructor (users: set<UserId>)
      ensures Balanced(books) && books == NO_BOOKS && this.users == users
    {
      books := NO_BOOKS;
      this.users := users;
    }

    /** Commits the entry and the balance together, or changes nothing and says why. */
    method Post(e: Entry, fault: nat) returns (r: Result<Entry, PostError>)
      modifies this`books
      ensures Balanced(old(books)) ==> Balanced(books)
      ensures books == AfterPost(old(books), Request(e, fault), users)
      ensures r.Ok? <==> Lands(Request(e, fault), users) && !KeyUsed(old(books).entries, e.key)
      ensures r.Ok? ==> r.value == e && BalanceOf(books, e.user) == BalanceOf(old(books), e.user) + e.delta
      ensures r == Err(EmptyKey) <==> e.key.text == ""
      ensures r == Err(Duplicate) <==> e.key.text != "" && fault >= 2 && KeyUsed(old(books).entries, e.key)
      ensures r.Err? ==> books == old(books)
    {
      if e.key.text == "" { return Err(EmptyKey); }
      if fault < 2 { return Err(DbDown); }
      var taken := Taken(books.entries, e.key);
      if taken { return Err(Duplicate); }
      if e.user !in users { return Err(DbDown); }
      var entries := books.entries + [e];
      if fault == 2 { return Err(DbDown); }
      var balances := books.balances[e.user := if e.user in books.balances then books.balances[e.user] + e.delta else e.delta];
      if fault == 3 { return Err(DbDown); }
      if Balanced(books) { PostedKeeps(books, e); }
      books := Books(entries, balances);
      return Ok(e);
    }

    // The look-up the unique index does.
    static method Taken(entries: seq<Entry>, key: Key) returns (taken: bool)
      ensures taken <==> KeyUsed(entries, key)
    {
      for i := 0 to |entries|
        invariant forall j :: 0 <= j < i ==> entries[j].key != key
      {
        if entries[i].key == key { return true; }
      }
      return false;
    }

    /** The cached balance is the ledger's sum. */
    method Balance(u: UserId, fault: nat) returns (r: Result<int, PostError>)
      requires Balanced(books)
      ensures r == if fault == 0 then Err(DbDown) else Ok(Sum(books.entries, |books.entries|, u))
    {
      if fault == 0 { return Err(DbDown); }
      if u !in books.balances {
        assert BalanceOf(books, u) == Sum(books.entries, |books.entries|, u);
        return Ok(0);
      }
      assert BalanceOf(books, u) == Sum(books.entries, |books.entries|, u);
      return Ok(books.balances[u]);
    }

    // UsersWithNegativeBalance
    method Bankrupt(fault: nat) returns (r: Result<set<UserId>, PostError>)
      requires Balanced(books)
      ensures fault == 0 <==> r.Err?
      ensures r.Ok? ==> forall u :: u in r.value <==>
                HasEntry(books.entries, u) && Sum(books.entries, |books.entries|, u) <= 0
    {
      if fault == 0 { return Err(DbDown); }
      assert forall u :: BalanceOf(books, u) == Sum(books.entries, |books.entries|, u);
      return Ok(set u | u in books.balances && books.balances[u] <= 0);
    }
  }
}
