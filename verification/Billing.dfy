/** billing/worker.go: one ledger entry per running instance and minute bucket. Times are whole
    seconds since 1970. */
module Billing {
  import opened Wrappers
  import opened CreditLedger
  import opened BillingKey

  // ---- charges ----

  // A row of ListBillableRunningInstances.
  datatype Billable = Billable(id: Uuid, owner: Option<UserId>, gpus: int)

  type Rates = Option<map<int, int>>

  // MilliPerMinute: no table and no entry both read as zero.
  function Rate(rates: Rates, gpus: int): int {
    if rates.Some? && gpus in rates.value then rates.value[gpus] else 0
  }

  // Unix() / 60 on int64, which truncates toward zero.
  function Bucket(now: int): int {
    if now >= 0 then now / 60 else -(-now / 60)
  }

  /** The truncation: for a time since 1970 the minute it falls in, for an earlier one the minute
      it falls in counted down from zero. */
  lemma BucketIs(now: int)
    ensures now >= 0 ==> 60 * Bucket(now) <= now < 60 * Bucket(now) + 60
    ensures now < 0 ==> 60 * Bucket(now) - 60 < now <= 60 * Bucket(now)
  {}

  // The prices, the users table, and how the key of a charge is printed.
  datatype Meter = Meter(rates: Rates, users: set<UserId>, name: (Uuid, int) -> Key)

  // The meter the worker uses.
  ghost function Printed(rates: Rates, users: set<UserId>): Meter {
    Meter(rates, users, (id: Uuid, bucket: int) => BillKey(id, bucket))
  }

  // Different charges have different keys. PrintedIsInjective says the worker's have.
  ghost predicate Injective(m: Meter) {
    forall a, p, b, q :: m.name(a, p) == m.name(b, q) ==> a == b && p == q
  }

  lemma PrintedIsInjective(rates: Rates, users: set<UserId>)
    ensures Injective(Printed(rates, users))
  {
    var m := Printed(rates, users);
    forall a, p, b, q | m.name(a, p) == m.name(b, q) ensures a == b && p == q {
      BillKeyInjective(a, p, b, q);
    }
  }

  function ChargeEntry(row: Billable, m: Meter, now: int): Entry {
    Entry(if row.owner.Some? then row.owner.value else 0, -Rate(m.rates, row.gpus), "running_minute", Some(row.id),
          m.name(row.id, Bucket(now)))
  }

  /** Two charges of one instance share a key if and only if they fall in the same minute. */
  lemma SharesKeyIff(row: Billable, again: Billable, m: Meter, a: nat, b: nat)
    requires Injective(m) && again.id == row.id
    ensures ChargeEntry(row, m, a).key == ChargeEntry(again, m, b).key <==>
            exists k: nat :: 60 * k <= a < 60 * k + 60 && 60 * k <= b < 60 * k + 60
  {
    BucketIs(a);
    BucketIs(b);
    if ChargeEntry(row, m, a).key == ChargeEntry(again, m, b).key {
      assert m.name(row.id, Bucket(a)) == m.name(row.id, Bucket(b));
      var k: nat := Bucket(a);
      assert 60 * k <= b < 60 * k + 60;
    }
  }

  // What the worker asks of the ledger for one row. A row it skips is a call that is never
  // made, so a call of which the database serves nothing.
  function ChargeRequest(row: Billable, m: Meter, now: int, fault: nat): Request {
    Request(ChargeEntry(row, m, now), if row.owner.None? || Rate(m.rates, row.gpus) == 0 then 0 else fault)
  }

  // ---- runs of ticks, overlapping ticks, restarts and recharges ----

  // One call on the ledger: a worker's for one row, or the recharge endpoint's.
  datatype Step =
    | Charge(row: Billable, now: int, fault: nat)
    | Recharge(user: UserId, delta: int, reason: string, key: Key, fault: nat)

  function RequestOf(s: Step, m: Meter): Request {
    match s
    case Charge(row, now, fault) => ChargeRequest(row, m, now, fault)
    case Recharge(user, delta, reason, key, fault) => Request(Entry(user, delta, reason, None, key), fault)
  }

  function Posts(steps: seq<Step>, m: Meter): (posts: seq<Request>)
    ensures |posts| == |steps| && forall i :: 0 <= i < |steps| ==> posts[i] == RequestOf(steps[i], m)
  {
    seq(|steps|, i requires 0 <= i < |steps| => RequestOf(steps[i], m))
  }

  // The step charges the instance and the database would commit it.
  predicate Bills(s: Step, id: Uuid, m: Meter) {
    s.Charge? && s.row.id == id && Lands(RequestOf(s, m), m.users)
  }

  // The minutes in which the instance was seen and charged, successfully or as a repeat.
  function Seen(steps: seq<Step>, n: nat, id: Uuid, m: Meter): set<int>
    requires n <= |steps|
  {
    if n == 0 then {}
    else if Bills(steps[n - 1], id, m)
    then Seen(steps, n - 1, id, m) + {Bucket(steps[n - 1].now)}
    else Seen(steps, n - 1, id, m)
  }

  // The step charges the instance, and nobody before it took its key.
  predicate Wins(steps: seq<Step>, i: nat, id: Uuid, m: Meter)
    requires i < |steps|
  {
    && Bills(steps[i], id, m)
    && First(Posts(steps, m), i, m.users, RequestOf(steps[i], m).entry.key).None?
  }

  // The minutes whose key the worker was the first to post.
  function Won(steps: seq<Step>, n: nat, id: Uuid, m: Meter): set<int>
    requires n <= |steps|
  {
    if n == 0 then {}
    else if Wins(steps, n - 1, id, m)
    then Won(steps, n - 1, id, m) + {Bucket(steps[n - 1].now)}
    else Won(steps, n - 1, id, m)
  }

  // What the ledger has taken for the instance, among its first n entries.
  function TakenFor(entries: seq<Entry>, n: nat, id: Uuid): int
    requires n <= |entries|
  {
    if n == 0 then 0
    else TakenFor(entries, n - 1, id) + if entries[n - 1].instance == Some(id) then entries[n - 1].delta else 0
  }

  lemma {:induction false} TakenForAppend(entries: seq<Entry>, e: Entry, n: nat, id: Uuid)
    requires n <= |entries|
    ensures TakenFor(entries + [e], n, id) == TakenFor(entries, n, id)
  {
    if n > 0 {
      TakenForAppend(entries, e, n - 1, id);
      assert (entries + [e])[n - 1] == entries[n - 1];
    }
  }

  lemma StepKey(s: Step, id: Uuid, bucket: int, m: Meter)
    requires Injective(m)
    ensures var e := RequestOf(s, m).entry;
            e.key == m.name(id, bucket) && e.instance == Some(id) <==> s.Charge? && s.row.id == id && Bucket(s.now) == bucket
  {
    if s.Charge? {
      assert RequestOf(s, m).entry.key == m.name(s.row.id, Bucket(s.now));
    }
  }

  /** A minute is charged exactly when a worker, and not a recharge, posted its key first. */
  lemma {:induction false} WonIff(steps: seq<Step>, n: nat, id: Uuid, m: Meter, bucket: int)
    requires Injective(m) && n <= |steps|
    ensures var first := First(Posts(steps, m), n, m.users, m.name(id, bucket));
            bucket in Won(steps, n, id, m) <==> first.Some? && first.value.instance == Some(id)
  {
    if n > 0 {
      var posts := Posts(steps, m);
      WonIff(steps, n - 1, id, m, bucket);
      StepKey(steps[n - 1], id, bucket, m);
      var r, key := posts[n - 1], m.name(id, bucket);
      if Lands(r, m.users) && r.entry.key == key && First(posts, n - 1, m.users, key).None? {
        assert First(posts, n, m.users, key) == Some(r.entry);
      } else {
        assert First(posts, n, m.users, key) == First(posts, n - 1, m.users, key);
        assert bucket in Won(steps, n, id, m) <==> bucket in Won(steps, n - 1, id, m);
      }
    }
  }

  // An instance's GPU count is set when its row is inserted and never updated.
  ghost predicate Steady(steps: seq<Step>, id: Uuid, gpus: int) {
    forall i :: 0 <= i < |steps| && steps[i].Charge? && steps[i].row.id == id ==> steps[i].row.gpus == gpus
  }

  ghost function Taken(steps: seq<Step>, n: nat, id: Uuid, m: Meter): int
    requires n <= |steps|
  {
    var entries := After(Posts(steps, m), n, m.users).entries;
    TakenFor(entries, |entries|, id)
  }

  // One step takes the rate for the instance if it wins and nothing otherwise.
  lemma StepTakes(steps: seq<Step>, i: nat, id: Uuid, m: Meter)
    requires i < |steps|
    ensures Taken(steps, i + 1, id, m) == Taken(steps, i, id, m)
              + if Wins(steps, i, id, m) then -Rate(m.rates, steps[i].row.gpus) else 0
  {
    var posts := Posts(steps, m);
    var entries, r := After(posts, i, m.users).entries, posts[i];
    FirstWins(posts, i, m.users, r.entry.key);
    TakenForAppend(entries, r.entry, |entries|, id);
    assert (entries + [r.entry])[|entries|] == r.entry;
  }

  lemma WonGrows(steps: seq<Step>, i: nat, id: Uuid, m: Meter)
    requires Injective(m) && i < |steps|
    ensures |Won(steps, i + 1, id, m)| == |Won(steps, i, id, m)|
              + if Wins(steps, i, id, m) then 1 else 0
  {
    if Wins(steps, i, id, m) {
      WonIff(steps, i, id, m, Bucket(steps[i].now));
    }
  }

  // The books of one step: as many more rates as minutes.
  lemma StepCharges(steps: seq<Step>, i: nat, id: Uuid, gpus: int, m: Meter)
    requires Injective(m) && i < |steps| && Steady(steps, id, gpus)
    requires Taken(steps, i, id, m) == -Rate(m.rates, gpus) * |Won(steps, i, id, m)|
    ensures Taken(steps, i + 1, id, m) == -Rate(m.rates, gpus) * |Won(steps, i + 1, id, m)|
  {
    var wins := Wins(steps, i, id, m);
    StepTakes(steps, i, id, m);
    WonGrows(steps, i, id, m);
    assert wins ==> steps[i].row.gpus == gpus;
    OneMore(-Rate(m.rates, gpus), |Won(steps, i, id, m)|, |Won(steps, i + 1, id, m)|,
            Taken(steps, i, id, m), Taken(steps, i + 1, id, m));
  }

  /** Exactly once: however ticks overlap, repeat and restart, the ledger has taken the rate
      once for every minute the worker was first to post. */
  lemma {:induction false} ChargedOnce(steps: seq<Step>, n: nat, id: Uuid, gpus: int, m: Meter)
    requires Injective(m) && n <= |steps| && Steady(steps, id, gpus)
    ensures Taken(steps, n, id, m) == -Rate(m.rates, gpus) * |Won(steps, n, id, m)|
  {
    if n > 0 {
      ChargedOnce(steps, n - 1, id, gpus, m);
      StepCharges(steps, n - 1, id, gpus, m);
    }
  }

  lemma OneMore(rate: int, before: int, after: int, t: int, t': int)
    requires t == rate * before
    requires (after == before && t' == t) || (after == before + 1 && t' == t + rate)
    ensures t' == rate * after
  {}

  // No recharge takes a key of the instance.
  ghost predicate Unshadowed(steps: seq<Step>, id: Uuid, m: Meter) {
    forall i, bucket :: 0 <= i < |steps| && steps[i].Recharge? ==> steps[i].key != m.name(id, bucket)
  }

  lemma FirstIsWorkers(steps: seq<Step>, n: nat, id: Uuid, m: Meter, bucket: int)
    requires Injective(m) && n <= |steps| && Unshadowed(steps, id, m) && First(Posts(steps, m), n, m.users, m.name(id, bucket)).Some?
    ensures First(Posts(steps, m), n, m.users, m.name(id, bucket)).value.instance == Some(id)
  {
    var i := FirstIsPosted(Posts(steps, m), n, m.users, m.name(id, bucket));
    var s := steps[i];
    assert s.Charge? && m.name(s.row.id, Bucket(s.now)) == m.name(id, bucket);
  }

  // A worker's post that comes second repeats a minute already won.
  lemma RepeatIsWon(steps: seq<Step>, i: nat, id: Uuid, m: Meter)
    requires Injective(m) && i < |steps| && Unshadowed(steps, id, m) && Bills(steps[i], id, m) && !Wins(steps, i, id, m)
    ensures Bucket(steps[i].now) in Won(steps, i, id, m)
  {
    FirstIsWorkers(steps, i, id, m, Bucket(steps[i].now));
    WonIff(steps, i, id, m, Bucket(steps[i].now));
  }

  lemma {:induction false} UnshadowedWins(steps: seq<Step>, n: nat, id: Uuid, m: Meter)
    requires Injective(m) && n <= |steps| && Unshadowed(steps, id, m)
    ensures Won(steps, n, id, m) == Seen(steps, n, id, m)
  {
    if n > 0 {
      UnshadowedWins(steps, n - 1, id, m);
      var bills, wins := Bills(steps[n - 1], id, m), Wins(steps, n - 1, id, m);
      if bills && !wins {
        RepeatIsWon(steps, n - 1, id, m);
      }
    }
  }

  /** The recharge endpoint takes keys of any form, so one that guesses a minute's key keeps
      that minute from being charged: the worker's own post is then the duplicate. */
  lemma RechargeCanShadow(id: Uuid, bucket: int, m: Meter)
    requires Injective(m) && 1 in m.users && m.name(id, bucket).text != "" && Rate(m.rates, 1) != 0 && bucket >= 0
    ensures var steps := [Recharge(1, 100, "gift", m.name(id, bucket), 4), Charge(Billable(id, Some(1), 1), 60 * bucket, 4)];
            Seen(steps, 2, id, m) == {bucket} && Won(steps, 2, id, m) == {} && Taken(steps, 2, id, m) == 0
  {
    var steps := [Recharge(1, 100, "gift", m.name(id, bucket), 4), Charge(Billable(id, Some(1), 1), 60 * bucket, 4)];
    assert !Bills(steps[0], id, m) && !Wins(steps, 0, id, m);
    assert Seen(steps, 0, id, m) == {} && Won(steps, 0, id, m) == {};
    assert Seen(steps, 1, id, m) == {} && Won(steps, 1, id, m) == {};
    assert First(Posts(steps, m), 0, m.users, m.name(id, bucket)) == None;
    assert First(Posts(steps, m), 1, m.users, m.name(id, bucket)).Some?;
    ChargedOnce(steps, 2, id, 1, m);
  }

  // ---- no gaps ----

  // The times at which the instance was seen and charged.
  function Times(steps: seq<Step>, n: nat, id: Uuid, m: Meter): seq<int>
    requires n <= |steps|
  {
    if n == 0 then []
    else if Bills(steps[n - 1], id, m)
    then Times(steps, n - 1, id, m) + [steps[n - 1].now]
    else Times(steps, n - 1, id, m)
  }

  // Consecutive ticks are at most a minute apart.
  ghost predicate Steps60(ts: seq<int>) {
    forall i :: 0 < i < |ts| ==> ts[i - 1] <= ts[i] <= ts[i - 1] + 60
  }

  function Minutes(lo: int, hi: int): (ms: set<int>)
    requires lo <= hi + 1
    ensures |ms| == hi - lo + 1 && forall m :: m in ms <==> lo <= m <= hi
    decreases hi - lo + 1
  {
    if lo > hi then {} else Minutes(lo, hi - 1) + {hi}
  }

  lemma BucketStep(a: int, b: int)
    requires a <= b <= a + 60
    ensures Bucket(a) <= Bucket(b) <= Bucket(a) + 1
  {}

  // The minutes of the first n times.
  function BucketsOf(ts: seq<int>, n: nat): set<int>
    requires n <= |ts|
  {
    if n == 0 then {} else BucketsOf(ts, n - 1) + {Bucket(ts[n - 1])}
  }

  lemma {:induction false} BucketsAppend(ts: seq<int>, t: int, n: nat)
    requires n <= |ts|
    ensures BucketsOf(ts + [t], n) == BucketsOf(ts, n)
  {
    if n > 0 {
      BucketsAppend(ts, t, n - 1);
      assert (ts + [t])[n - 1] == ts[n - 1];
    }
  }

  lemma BucketsOneMore(ts: seq<int>, t: int)
    ensures BucketsOf(ts + [t], |ts| + 1) == BucketsOf(ts, |ts|) + {Bucket(t)}
  {
    BucketsAppend(ts, t, |ts|);
    assert (ts + [t])[|ts|] == t;
  }

  lemma {:induction false} SeenIsBuckets(steps: seq<Step>, n: nat, id: Uuid, m: Meter)
    requires n <= |steps|
    ensures Seen(steps, n, id, m)
         == BucketsOf(Times(steps, n, id, m), |Times(steps, n, id, m)|)
  {
    if n > 0 {
      SeenIsBuckets(steps, n - 1, id, m);
      var bills := Bills(steps[n - 1], id, m);
      if bills {
        BucketsOneMore(Times(steps, n - 1, id, m), steps[n - 1].now);
      }
    }
  }

  lemma {:induction false} NoGaps(ts: seq<int>, n: nat)
    requires 0 < n <= |ts| && Steps60(ts)
    ensures Bucket(ts[0]) <= Bucket(ts[n - 1]) && BucketsOf(ts, n) == Minutes(Bucket(ts[0]), Bucket(ts[n - 1]))
    ensures ts[0] >= 0 ==> ts[0] <= ts[n - 1] && BucketsOf(ts, n) == Minutes(ts[0] / 60, ts[n - 1] / 60)
  {
    if n == 1 {
      assert BucketsOf(ts, 1) == {} + {Bucket(ts[0])};
    } else {
      NoGaps(ts, n - 1);
      BucketStep(ts[n - 2], ts[n - 1]);
    }
  }

  lemma FirstToLast(ts: seq<int>)
    requires ts != [] && Steps60(ts)
    ensures |BucketsOf(ts, |ts|)| == Bucket(ts[|ts| - 1]) - Bucket(ts[0]) + 1
    ensures ts[0] >= 0 ==> |BucketsOf(ts, |ts|)| == ts[|ts| - 1] / 60 - ts[0] / 60 + 1
  {
    NoGaps(ts, |ts|);
  }

  /** Gap-free: with ticks at most a minute apart, an instance billed from tick a to tick b has
      paid the rate for every minute from a's to b's, both included, and for no other. */
  lemma ChargedEveryMinute(steps: seq<Step>, n: nat, id: Uuid, gpus: int, m: Meter)
    requires Injective(m) && n <= |steps| && Steady(steps, id, gpus) && Unshadowed(steps, id, m)
    requires Times(steps, n, id, m) != [] && Steps60(Times(steps, n, id, m))
    ensures var ts := Times(steps, n, id, m);
            Taken(steps, n, id, m) == -Rate(m.rates, gpus) * (Bucket(ts[|ts| - 1]) - Bucket(ts[0]) + 1)
    ensures var ts := Times(steps, n, id, m);
            var price := if m.rates.Some? && gpus in m.rates.value then m.rates.value[gpus] else 0;
            ts[0] >= 0 ==> Taken(steps, n, id, m) == -price * (ts[|ts| - 1] / 60 - ts[0] / 60 + 1)
  {
    var ts := Times(steps, n, id, m);
    ChargedOnce(steps, n, id, gpus, m);
    UnshadowedWins(steps, n, id, m);
    SeenIsBuckets(steps, n, id, m);
    FirstToLast(ts);
  }

  /** The same for the keys the worker prints. */
  lemma WorkerChargesEveryMinute(steps: seq<Step>, n: nat, id: Uuid, gpus: int, m: Meter)
    requires m == Printed(m.rates, m.users) && n <= |steps| && Steady(steps, id, gpus) && Unshadowed(steps, id, m)
    requires Times(steps, n, id, m) != [] && Steps60(Times(steps, n, id, m))
    ensures var ts := Times(steps, n, id, m);
            Taken(steps, n, id, m) == -Rate(m.rates, gpus) * (Bucket(ts[|ts| - 1]) - Bucket(ts[0]) + 1)
    ensures var ts := Times(steps, n, id, m);
            var price := if m.rates.Some? && gpus in m.rates.value then m.rates.value[gpus] else 0;
            ts[0] >= 0 ==> Taken(steps, n, id, m) == -price * (ts[|ts| - 1] / 60 - ts[0] / 60 + 1)
  {
    PrintedIsInjective(m.rates, m.users);
    ChargedEveryMinute(steps, n, id, gpus, m);
  }

  // ---- who pays ----

  // An instance's owner is set when its row is inserted and never updated.
  ghost predicate Owned(steps: seq<Step>, id: Uuid, u: UserId) {
    forall i :: 0 <= i < |steps| && steps[i].Charge? && steps[i].row.id == id ==> steps[i].row.owner == Some(u)
  }

  // What the ledger says of the user apart from the instance, among its first n entries.
  function Otherwise(entries: seq<Entry>, n: nat, u: UserId, id: Uuid): int
    requires n <= |entries|
  {
    if n == 0 then 0
    else Otherwise(entries, n - 1, u, id)
         + if entries[n - 1].user == u && entries[n - 1].instance != Some(id) then entries[n - 1].delta else 0
  }

  lemma {:induction false} SumSplits(entries: seq<Entry>, n: nat, u: UserId, id: Uuid)
    requires n <= |entries| && forall i :: 0 <= i < n && entries[i].instance == Some(id) ==> entries[i].user == u
    ensures Sum(entries, n, u) == TakenFor(entries, n, id) + Otherwise(entries, n, u, id)
  {
    if n > 0 {
      SumSplits(entries, n - 1, u, id);
    }
  }

  lemma {:induction false} EntriesAreOwners(steps: seq<Step>, n: nat, id: Uuid, u: UserId, m: Meter)
    requires n <= |steps| && Owned(steps, id, u)
    ensures forall i :: 0 <= i < |After(Posts(steps, m), n, m.users).entries| ==>
              var e := After(Posts(steps, m), n, m.users).entries[i];
              e.instance == Some(id) ==> e.user == u && e.reason == "running_minute"
  {
    if n > 0 {
      EntriesAreOwners(steps, n - 1, id, u, m);
      assert Posts(steps, m)[n - 1] == RequestOf(steps[n - 1], m);
    }
  }

  /** What is taken for an instance is taken from its owner: it is a part of the owner's balance,
      and the rest of that balance has nothing to do with the instance. */
  lemma OwnerPays(steps: seq<Step>, n: nat, id: Uuid, u: UserId, m: Meter)
    requires n <= |steps| && Owned(steps, id, u)
    ensures var b := After(Posts(steps, m), n, m.users);
            && (forall i :: 0 <= i < |b.entries| && b.entries[i].instance == Some(id) ==>
                  b.entries[i].user == u && b.entries[i].reason == "running_minute")
            && BalanceOf(b, u) == Taken(steps, n, id, m) + Otherwise(b.entries, |b.entries|, u, id)
  {
    var b := After(Posts(steps, m), n, m.users);
    EntriesAreOwners(steps, n, id, u, m);
    SumSplits(b.entries, |b.entries|, u, id);
    RunsBalance(Posts(steps, m), n, m.users);
  }
}
