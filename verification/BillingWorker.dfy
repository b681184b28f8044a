/** billing/worker.go: the worker's loops over rows and users, one tick at a time. */
module BillingWorker {
  import opened Wrappers
  import opened CreditLedger
  import opened BillingKey
  import opened Billing
  import opened Lifecycle
  import I = InstanceTable

  // The books after the first n rows of a tick.
  ghost function AfterCharges(b: Books, rows: seq<Billable>, n: nat, now: int, faults: seq<nat>, m: Meter): Books
    requires n <= |rows| == |faults|
  {
    if n == 0 then b
    else AfterPost(AfterCharges(b, rows, n - 1, now, faults, m), ChargeRequest(rows[n - 1], m, now, faults[n - 1]), m.users)
  }

  lemma {:induction false} ChargesKeep(b: Books, rows: seq<Billable>, n: nat, now: int, faults: seq<nat>, m: Meter)
    requires n <= |rows| == |faults| && Balanced(b)
    ensures Balanced(AfterCharges(b, rows, n, now, faults, m))
  {
    if n > 0 {
      ChargesKeep(b, rows, n - 1, now, faults, m);
      AfterPostKeeps(AfterCharges(b, rows, n - 1, now, faults, m), ChargeRequest(rows[n - 1], m, now, faults[n - 1]), m.users);
    }
  }

  // The steps from n on are the rows of one tick.
  ghost predicate TickAt(steps: seq<Step>, n: nat, rows: seq<Billable>, now: int, faults: seq<nat>) {
    && |rows| == |faults| && n + |rows| <= |steps|
    && forall j :: 0 <= j < |rows| ==> steps[n + j] == Charge(rows[j], now, faults[j])
  }

  /** A tick is a stretch of a run, so all that holds of runs holds of ticks. */
  lemma {:induction false} TickIsRun(steps: seq<Step>, n: nat, rows: seq<Billable>, k: nat, now: int, faults: seq<nat>, m: Meter)
    requires TickAt(steps, n, rows, now, faults) && k <= |rows|
    ensures After(Posts(steps, m), n + k, m.users)
         == AfterCharges(After(Posts(steps, m), n, m.users), rows, k, now, faults, m)
  {
    if k > 0 {
      TickIsRun(steps, n, rows, k - 1, now, faults, m);
      assert steps[n + (k - 1)] == Charge(rows[k - 1], now, faults[k - 1]);
    }
  }

  // sweepBankrupt's pick among a user's instances.
  predicate Live(r: I.Row) {
    r.state.Running? || r.state.Provisioning?
  }

  function Targets(instances: map<InstanceId, I.Row>, u: UserId): set<InstanceId> {
    set i | i in instances && Live(instances[i]) && instances[i].owner == Some(u)
  }

  // The users ListUsersWithNegativeBalance returns: those the ledger knows and whose deltas
  // sum to zero or less.
  ghost predicate OutOfCredit(b: Books, u: UserId) {
    HasEntry(b.entries, u) && Sum(b.entries, |b.entries|, u) <= 0
  }

  // A DestroyInstance message handed to the dispatcher.
  datatype Destroy = Destroy(node: NodeId, instance: InstanceId)

  function Message(instances: map<InstanceId, I.Row>, i: InstanceId): Destroy
    requires i in instances
  {
    Destroy(instances[i].node, i)
  }

  // One message per target and nothing else.
  ghost predicate Covers(sent: seq<Destroy>, targets: set<InstanceId>, instances: map<InstanceId, I.Row>) {
    multiset(sent) == multiset(set i | i in targets && i in instances :: Message(instances, i))
  }

  lemma CoversMore(sent: seq<Destroy>, targets: set<InstanceId>, more: seq<Destroy>, others: set<InstanceId>, instances: map<InstanceId, I.Row>)
    requires Covers(sent, targets, instances) && Covers(more, others, instances) && targets !! others
    ensures Covers(sent + more, targets + others, instances)
  {
    var a := set i | i in targets && i in instances :: Message(instances, i);
    var b := set i | i in others && i in instances :: Message(instances, i);
    var c := set i | i in targets + others && i in instances :: Message(instances, i);
    assert a + b == c;
    assert a !! b;
    assert multiset(a) + multiset(b) == multiset(c);
  }

  lemma CoversOne(i: InstanceId, instances: map<InstanceId, I.Row>)
    requires i in instances
    ensures Covers([Message(instances, i)], {i}, instances)
  {
    assert (set k | k in {i} && k in instances :: Message(instances, k)) == {Message(instances, i)};
  }

  class Worker {
    const credits: CreditRepo
    const rates: Rates
    const dispatches: bool     // a dispatcher is configured

    constructor (credits: CreditRepo, rates: Rates, dispatches: bool)
      ensures this.credits == credits && this.rates == rates && this.dispatches == dispatches
    {
      this.credits, this.rates, this.dispatches := credits, rates, dispatches;
    }

    // One round of the charging loop.
    method ChargeRow(row: Billable, bucket: int, ghost now: int, fault: nat)
      requires bucket == Bucket(now)
      modifies credits`books
      ensures credits.books == AfterPost(old(credits.books), ChargeRequest(row, Printed(rates, credits.users), now, fault), credits.users)
      ensures row.owner.None? || rates.None? || row.gpus !in rates.value || rates.value[row.gpus] == 0 ==>
                credits.books == old(credits.books)
      ensures credits.books.entries != old(credits.books.entries) ==>
                && row.owner.Some? && rates.Some? && row.gpus in rates.value
                && exists minute: int ::
                     && (now >= 0 ==> 60 * minute <= now < 60 * minute + 60)
                     && credits.books.entries == old(credits.books.entries)
                        + [Entry(row.owner.value, -rates.value[row.gpus], "running_minute", Some(row.id),
                                 Key("billing:" + UuidText(row.id) + ":" + Decimal(minute)))]
    {
      BucketIs(now);
      var rate := Rate(rates, row.gpus);
      if row.owner.Some? && rate != 0 {
        var e := Entry(row.owner.value, -rate, "running_minute", Some(row.id), BillKey(row.id, bucket));
        assert e == ChargeEntry(row, Printed(rates, credits.users), now);
        var _ := credits.Post(e, fault);
      }
    }

    // The charging loop.
    method ChargeRows(rows: seq<Billable>, now: int, faults: seq<nat>)
      requires |faults| == |rows|
      modifies credits`books
      ensures credits.books == AfterCharges(old(credits.books), rows, |faults|, now, faults, Printed(rates, credits.users))
    {
      var bucket := Bucket(now);
      ghost var m := Printed(rates, credits.users);
      for i := 0 to |rows|
        invariant credits.books == AfterCharges(old(credits.books), rows, i, now, faults, m)
      {
        ChargeRow(rows[i], bucket, now, faults[i]);
      }
    }

    /** Posts every row's charge for the current minute; a row without owner or price is
        skipped, and a call that fails leaves the books as they are and does not stop the
        loop. `rows` is None when the listing query failed. */
    method Charge(rows: Option<seq<Billable>>, now: int, faults: seq<nat>) returns (ok: bool)
      requires Balanced(credits.books) && (rows.Some? ==> |faults| == |rows.value|)
      modifies credits`books
      ensures Balanced(credits.books) && ok == rows.Some?
      ensures credits.books == if ok
                then AfterCharges(old(credits.books), rows.value, |faults|, now, faults, Printed(rates, credits.users))
                else old(credits.books)
    {
      if rows.None? { return false; }
      ChargesKeep(credits.books, rows.value, |faults|, now, faults, Printed(rates, credits.users));
      ChargeRows(rows.value, now, faults);
      return true;
    }

    // The instances of one user.
    method SweepUser(u: UserId, instances: map<InstanceId, I.Row>) returns (sent: seq<Destroy>)
      ensures Covers(sent, Targets(instances, u), instances)
      ensures forall x :: multiset(sent)[x]
                == if x.instance in instances && x.node == instances[x.instance].node && instances[x.instance].owner == Some(u)
                      && instances[x.instance].state in {Running, Provisioning} then 1 else 0
    {
      sent := [];
      var todo := instances.Keys;
      ghost var done := {};
      while todo != {}
        invariant todo <= instances.Keys && Covers(sent, done, instances)
        invariant done == Targets(instances, u) - todo
        decreases todo
      {
        var i :| i in todo;
        todo := todo - {i};
        if Live(instances[i]) && instances[i].owner == Some(u) {
          CoversOne(i, instances);
          CoversMore(sent, done, [Message(instances, i)], {i}, instances);
          sent, done := sent + [Message(instances, i)], done + {i};
        }
      }
      forall x { OnceInBatch(sent, u, instances, x); }
    }

    // The loop over the users; swept is the order in which it went through them.
    method SweepUsers(bankrupt: set<UserId>, listing: UserId -> Option<map<InstanceId, I.Row>>)
      returns (sent: seq<Destroy>, swept: seq<UserId>)
      ensures InBatches(sent, swept, listing) && NoRepeats(swept)
      ensures forall u :: u in swept <==> u in bankrupt && listing(u).Some?
    {
      sent, swept := [], [];
      var users := bankrupt;
      while users != {}
        invariant InBatches(sent, swept, listing) && NoRepeats(swept)
        invariant users <= bankrupt
        invariant forall u :: u in swept <==> u in bankrupt && u !in users && listing(u).Some?
        decreases users
      {
        var u :| u in users;
        users := users - {u};
        var listed := listing(u);
        if listed.Some? {
          var more := SweepUser(u, listed.value);
          NextBatch(sent, swept, more, u, listing);
          sent, swept := sent + more, swept + [u];
        }
      }
    }

    /** User by user: the destroys of one user are exactly one for each instance that was
        running or provisioning when that user's instances were listed. Swept are the users
        out of credit whose listing worked, each once. */
    method SweepBankrupt(listing: UserId -> Option<map<InstanceId, I.Row>>, fault: nat)
      returns (ok: bool, sent: seq<Destroy>, swept: seq<UserId>)
      requires Balanced(credits.books)
      ensures ok <==> !dispatches || fault > 0
      ensures InBatches(sent, swept, listing) && NoRepeats(swept)
      ensures forall u :: u in swept <==> dispatches && fault > 0 && listing(u).Some? && OutOfCredit(credits.books, u)
    {
      if !dispatches { return true, [], []; }
      var bankrupt := credits.Bankrupt(fault);
      if bankrupt.Err? { return false, [], []; }
      sent, swept := SweepUsers(bankrupt.value, listing);
      ok := true;
    }

    /** One tick: the minute's charges first, so a user they leave with nothing is swept in the
        same tick. */
    method RunOnce(rows: Option<seq<Billable>>, now: int, faults: seq<nat>,
                   listing: UserId -> Option<map<InstanceId, I.Row>>, fault: nat)
      returns (ok: bool, sent: seq<Destroy>, swept: seq<UserId>)
      requires Balanced(credits.books) && (rows.Some? ==> |faults| == |rows.value|)
      modifies credits`books
      ensures Balanced(credits.books) && (ok <==> rows.Some? && (!dispatches || fault > 0))
      ensures credits.books == if rows.Some?
                then AfterCharges(old(credits.books), rows.value, |faults|, now, faults, Printed(rates, credits.users))
                else old(credits.books)
      ensures InBatches(sent, swept, listing) && NoRepeats(swept)
      ensures forall u :: u in swept <==> ok && dispatches && listing(u).Some? && OutOfCredit(credits.books, u)
    {
      var charged := Charge(rows, now, faults);
      if !charged { return false, [], []; }
      ok, sent, swept := SweepBankrupt(listing, fault);
    }
  }

  // The users' batches one after the other, each covering what that user's listing showed.
  ghost predicate InBatches(sent: seq<Destroy>, users: seq<UserId>, listing: UserId -> Option<map<InstanceId, I.Row>>)
    decreases |users|
  {
    if users == [] then sent == []
    else
      var u := users[|users| - 1];
      && listing(u).Some?
      && exists n | 0 <= n <= |sent| ::
           && InBatches(sent[..n], users[..|users| - 1], listing)
           && Covers(sent[n..], Targets(listing(u).value, u), listing(u).value)
  }

  predicate NoRepeats(users: seq<UserId>) {
    forall a, b :: 0 <= a < b < |users| ==> users[a] != users[b]
  }

  lemma NextBatch(sent: seq<Destroy>, users: seq<UserId>, more: seq<Destroy>, u: UserId,
                  listing: UserId -> Option<map<InstanceId, I.Row>>)
    requires InBatches(sent, users, listing) && listing(u).Some?
    requires Covers(more, Targets(listing(u).value, u), listing(u).value)
    ensures InBatches(sent + more, users + [u], listing)
  {
    var sent', users', n := sent + more, users + [u], |sent|;
    assert sent'[..n] == sent && sent'[n..] == more && users'[..|users'| - 1] == users;
  }

  // x is for a live instance of u.
  predicate Due(x: Destroy, rows: map<InstanceId, I.Row>, u: UserId) {
    x.instance in Targets(rows, u) && x == Message(rows, x.instance)
  }

  lemma OnceInBatch(batch: seq<Destroy>, u: UserId, rows: map<InstanceId, I.Row>, x: Destroy)
    requires Covers(batch, Targets(rows, u), rows)
    ensures multiset(batch)[x] == if Due(x, rows, u) then 1 else 0
    ensures Due(x, rows, u) <==> x.instance in rows && x.node == rows[x.instance].node
                                 && rows[x.instance].owner == Some(u) && rows[x.instance].state in {Running, Provisioning}
  {
  }

  // x is for a live instance of one of the users.
  predicate DueToAny(x: Destroy, rows: map<InstanceId, I.Row>, users: seq<UserId>) {
    && x.instance in rows && rows[x.instance].owner.Some?
    && rows[x.instance].owner.value in users && Due(x, rows, rows[x.instance].owner.value)
  }

  lemma CountSplit(sent: seq<Destroy>, n: nat, x: Destroy)
    requires n <= |sent|
    ensures multiset(sent)[x] == multiset(sent[..n])[x] + multiset(sent[n..])[x]
  {
    assert sent == sent[..n] + sent[n..];
  }

  lemma DueToLast(x: Destroy, rows: map<InstanceId, I.Row>, users: seq<UserId>, u: UserId)
    requires u !in users
    ensures DueToAny(x, rows, users + [u]) <==> DueToAny(x, rows, users) || Due(x, rows, u)
    ensures !(DueToAny(x, rows, users) && Due(x, rows, u))
  {
  }

  lemma WithoutLast(users: seq<UserId>) returns (others: seq<UserId>, u: UserId)
    requires users != [] && NoRepeats(users)
    ensures others == users[..|users| - 1] && u == users[|users| - 1] && users == others + [u]
    ensures u !in others && NoRepeats(others) && forall v :: v in others ==> v in users
  {
    others, u := users[..|users| - 1], users[|users| - 1];
  }

  /** When the instances do not change meanwhile, every live instance of the swept users gets
      exactly one destroy and no other instance gets any. */
  lemma {:induction false} EachOnce(sent: seq<Destroy>, users: seq<UserId>, listing: UserId -> Option<map<InstanceId, I.Row>>,
                                    rows: map<InstanceId, I.Row>, x: Destroy)
    requires InBatches(sent, users, listing) && NoRepeats(users)
    requires forall u :: u in users ==> listing(u) == Some(rows)
    ensures multiset(sent)[x] == if DueToAny(x, rows, users) then 1 else 0
    ensures DueToAny(x, rows, users) <==>
            x.instance in rows && x.node == rows[x.instance].node && rows[x.instance].state in {Running, Provisioning}
            && rows[x.instance].owner.Some? && rows[x.instance].owner.value in users
    decreases |users|
  {
    if users != [] {
      var others, u := WithoutLast(users);
      var n :| 0 <= n <= |sent| && InBatches(sent[..n], others, listing) && Covers(sent[n..], Targets(rows, u), rows);
      EachOnce(sent[..n], others, listing, rows, x);
      OnceInBatch(sent[n..], u, rows, x);
      CountSplit(sent, n, x);
      DueToLast(x, rows, others, u);
    }
  }
}
