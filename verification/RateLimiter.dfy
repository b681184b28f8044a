/** auth/ratelimit.go: a sliding-window limiter that compacts each key's hits in place and
    reclaims idle keys lazily, against a limiter that remembers every allowed hit. Times are
    integers (nanoseconds); the clock does not go back. */
module RateLimiter {
  import opened Wrappers

  // ---- the limiter with full history ----

  datatype Key = Key(text: string)

  type History = map<Key, seq<int>>

  function Hits(h: History, key: Key): seq<int> {
    if key in h then h[key] else []
  }

  // Of the first n hits those strictly after the cutoff, oldest first.
  function RecentOf(ts: seq<int>, n: nat, cutoff: int): seq<int>
    requires n <= |ts|
  {
    if n == 0 then []
    else RecentOf(ts, n - 1, cutoff) + if ts[n - 1] > cutoff then [ts[n - 1]] else []
  }

  function Recent(ts: seq<int>, cutoff: int): seq<int> {
    RecentOf(ts, |ts|, cutoff)
  }

  predicate Allows(h: History, key: Key, now: int, limit: int, window: int) {
    |Recent(Hits(h, key), now - window)| < limit
  }

  function Record(h: History, key: Key, now: int, limit: int, window: int): History {
    if Allows(h, key, now, limit, window) then h[key := Hits(h, key) + [now]] else h
  }

  lemma {:induction false} RecentOfAppend(ts: seq<int>, t: int, n: nat, cutoff: int)
    requires n <= |ts|
    ensures RecentOf(ts + [t], n, cutoff) == RecentOf(ts, n, cutoff)
  {
    if n > 0 {
      RecentOfAppend(ts, t, n - 1, cutoff);
      assert (ts + [t])[n - 1] == ts[n - 1];
    }
  }

  lemma RecentAppend(ts: seq<int>, t: int, cutoff: int)
    ensures Recent(ts + [t], cutoff) == Recent(ts, cutoff) + if t > cutoff then [t] else []
  {
    RecentOfAppend(ts, t, |ts|, cutoff);
    assert (ts + [t])[|ts|] == t;
  }

  lemma {:induction false} RecentOfRecentOf(ts: seq<int>, n: nat, c: int, d: int)
    requires c <= d && n <= |ts|
    ensures Recent(RecentOf(ts, n, c), d) == RecentOf(ts, n, d)
  {
    if n > 0 {
      RecentOfRecentOf(ts, n - 1, c, d);
      if ts[n - 1] > c {
        RecentAppend(RecentOf(ts, n - 1, c), ts[n - 1], d);
      } else {
        assert RecentOf(ts, n, c) == RecentOf(ts, n - 1, c);
      }
    }
  }

  lemma RecentOfRecent(ts: seq<int>, c: int, d: int)
    requires c <= d
    ensures Recent(Recent(ts, c), d) == Recent(ts, d)
  {
    RecentOfRecentOf(ts, |ts|, c, d);
  }

  lemma {:induction false} RecentOfMembers(ts: seq<int>, n: nat, c: int)
    requires n <= |ts|
    ensures |RecentOf(ts, n, c)| <= n
    ensures forall t :: t in RecentOf(ts, n, c) ==> t in ts && t > c
    ensures forall i :: 0 <= i < n && ts[i] > c ==> ts[i] in RecentOf(ts, n, c)
  {
    if n > 0 {
      RecentOfMembers(ts, n - 1, c);
    }
  }

  lemma RecentMembers(ts: seq<int>, c: int)
    ensures |Recent(ts, c)| <= |ts|
    ensures forall t :: t in Recent(ts, c) <==> t in ts && t > c
  {
    RecentOfMembers(ts, |ts|, c);
  }

  // ---- what the full-history limiter promises ----

  ghost predicate Past(ts: seq<int>, clock: int) {
    forall t :: t in ts ==> t <= clock
  }

  lemma PastAppend(ts: seq<int>, now: int)
    requires Past(ts, now)
    ensures Past(ts + [now], now)
  {}

  ghost predicate Sorted(ts: seq<int>) {
    forall i, j :: 0 <= i < j < |ts| ==> ts[i] <= ts[j]
  }

  // Hits that are `limit` or more places apart are at least a window apart.
  ghost predicate Spaced(ts: seq<int>, limit: int, window: int) {
    && (limit <= 0 ==> ts == [])
    && forall i, j :: 0 <= i < j < |ts| && i + limit <= j ==> ts[j] - ts[i] >= window
  }

  lemma {:induction false} RecentTail(ts: seq<int>, n: nat, c: int, m: nat)
    requires Sorted(ts) && m <= n <= |ts| && (m > 0 ==> ts[n - m] > c)
    ensures |RecentOf(ts, n, c)| >= m
  {
    if m > 0 {
      RecentTail(ts, n - 1, c, m - 1);
    }
  }

  // A history that takes one more hit because it is allowed.
  lemma SpacedExtended(all: seq<int>, now: int, limit: int, window: int)
    requires Sorted(all) && Spaced(all, limit, window) && Past(all, now)
    requires |Recent(all, now - window)| < limit
    ensures Sorted(all + [now]) && Spaced(all + [now], limit, window)
  {
    if |all| >= limit && all[|all| - limit] > now - window {
      RecentTail(all, |all|, now - window, limit);
    }
    forall i | 0 <= i < |all| ensures all[i] <= now {
      assert all[i] in all;
    }
  }

  // One call keeps every key's history in order, spaced and in the past.
  lemma RecordKeepsSpacing(h: History, key: Key, now: int, limit: int, window: int, k: Key)
    requires Sorted(Hits(h, k)) && Spaced(Hits(h, k), limit, window) && Past(Hits(h, k), now)
    ensures var all := Hits(Record(h, key, now, limit, window), k);
            Sorted(all) && Spaced(all, limit, window) && Past(all, now)
  {
    if k == key && Allows(h, key, now, limit, window) {
      SpacedExtended(Hits(h, k), now, limit, window);
      PastAppend(Hits(h, k), now);
    }
  }

  // How many of the first n hits fall in a half-open window.
  function Between(ts: seq<int>, n: nat, lo: int, hi: int): nat
    requires n <= |ts|
  {
    if n == 0 then 0 else Between(ts, n - 1, lo, hi) + if lo < ts[n - 1] <= hi then 1 else 0
  }

  lemma {:induction false} BetweenAtMost(ts: seq<int>, n: nat, lo: int, hi: int, early: nat)
    requires early <= n <= |ts| && forall i :: 0 <= i < early ==> ts[i] <= lo
    ensures Between(ts, n, lo, hi) <= n - early
  {
    if n > 0 {
      BetweenAtMost(ts, n - 1, lo, hi, if early < n then early else n - 1);
    }
  }

  /** No window of length W, wherever it starts, holds more than `limit` allowed hits. */
  lemma {:induction false} WindowBound(ts: seq<int>, n: nat, limit: int, window: int, lo: int)
    requires Sorted(ts) && Spaced(ts, limit, window) && limit >= 0 && n <= |ts|
    ensures Between(ts, n, lo, lo + window) <= limit
  {
    if n > 0 {
      if ts[n - 1] > lo + window {
        WindowBound(ts, n - 1, limit, window, lo);
      } else if n > limit {
        assert limit > 0 ==> ts[n - 1] - ts[n - 1 - limit] >= window;
        BetweenAtMost(ts, n, lo, lo + window, n - limit);
      } else {
        BetweenAtMost(ts, n, lo, lo + window, 0);
      }
    }
  }

  // ---- what the implementation keeps ----

  /** One key's kept hits against its full history: they decide every later call alike, and
      they are few. */
  ghost predicate Fits(kept: seq<int>, all: seq<int>, clock: int, limit: int, window: int) {
    && Recent(kept, clock - window) == Recent(all, clock - window)
    && |kept| <= (if limit > 0 then limit else 0)
    && Past(kept, clock)
  }

  // Some kept hit is younger than the cutoff.
  ghost predicate Survives(kept: seq<int>, cutoff: int) {
    exists t :: t in kept && t > cutoff
  }

  // Time passes for a key nobody touches.
  lemma FitsLater(kept: seq<int>, all: seq<int>, clock: int, now: int, limit: int, window: int)
    requires Fits(kept, all, clock, limit, window) && clock <= now
    ensures Fits(kept, all, now, limit, window)
  {
    RecentOfRecent(kept, clock - window, now - window);
    RecentOfRecent(all, clock - window, now - window);
  }

  lemma SurvivesIff(kept: seq<int>, cutoff: int)
    ensures Survives(kept, cutoff) <==> Recent(kept, cutoff) != []
  {
    RecentMembers(kept, cutoff);
    if Recent(kept, cutoff) != [] {
      var t := Recent(kept, cutoff)[0];
      assert t in Recent(kept, cutoff);
      assert t in kept && t > cutoff;
    }
  }

  // The touched key, compacted.
  lemma FitsCompacted(kept: seq<int>, all: seq<int>, now: int, limit: int, window: int)
    requires Fits(kept, all, now, limit, window)
    ensures Fits(Recent(kept, now - window), all, now, limit, window)
  {
    RecentOfRecent(kept, now - window, now - window);
    assert |Recent(kept, now - window)| <= |kept| && Past(Recent(kept, now - window), now) by {
      RecentMembers(kept, now - window);
    }
  }

  // The touched key, extended because the call is allowed.
  lemma FitsExtended(kept: seq<int>, all: seq<int>, now: int, limit: int, window: int)
    requires Fits(kept, all, now, limit, window) && |kept| < limit
    ensures Fits(kept + [now], all + [now], now, limit, window)
  {
    assert Recent(kept + [now], now - window) == Recent(all + [now], now - window) by {
      RecentAppend(kept, now, now - window);
      RecentAppend(all, now, now - window);
    }
    PastAppend(kept, now);
  }

  // What Allow leaves of the touched key.
  function Touched(kept: seq<int>, now: int, limit: int, window: int): seq<int> {
    var recent := Recent(kept, now - window);
    if |recent| < limit then recent + [now] else recent
  }

  /** Both limiters give the same answer, and the kept hits still fit the new history. */
  lemma FitsTouched(kept: seq<int>, h: History, key: Key, now: int, limit: int, window: int)
    requires Fits(kept, Hits(h, key), now, limit, window)
    ensures |Recent(kept, now - window)| < limit <==> Allows(h, key, now, limit, window)
    ensures Fits(Touched(kept, now, limit, window), Hits(Record(h, key, now, limit, window), key), now, limit, window)
  {
    FitsCompacted(kept, Hits(h, key), now, limit, window);
    if |Recent(kept, now - window)| < limit {
      FitsExtended(Recent(kept, now - window), Hits(h, key), now, limit, window);
      assert Hits(Record(h, key, now, limit, window), key) == Hits(h, key) + [now];
    }
  }

  // A touched key that is kept at all is young.
  lemma TouchedSurvives(kept: seq<int>, now: int, limit: int, window: int, cutoff: int)
    requires window > 0 && cutoff <= now - window && Touched(kept, now, limit, window) != []
    ensures Survives(Touched(kept, now, limit, window), cutoff)
  {
    var recent := Recent(kept, now - window);
    RecentMembers(kept, now - window);
    var t := if |recent| < limit then now else recent[0];
    assert t in Touched(kept, now, limit, window) && t > cutoff;
  }

  // A key the sweep drops had nothing left to say.
  lemma FitsSwept(kept: seq<int>, all: seq<int>, now: int, limit: int, window: int)
    requires Fits(kept, all, now, limit, window) && !Survives(kept, now - window)
    ensures Fits([], all, now, limit, window)
  {
    SurvivesIff(kept, now - window);
  }

  // ---- the kept hits of all keys ----

  // delete(r.hits, key) or r.hits[key] = fresh
  function Store(v: History, key: Key, ts: seq<int>): History {
    if ts == [] then v - {key} else v[key := ts]
  }

  function Touch(v: History, key: Key, now: int, limit: int, window: int): History {
    Store(v, key, Touched(Hits(v, key), now, limit, window))
  }

  ghost function Swept(v: History, cutoff: int): History {
    SweptBut(v, {}, cutoff)
  }

  // A sweep that has not come to the keys in todo.
  ghost function SweptBut(v: History, todo: set<Key>, cutoff: int): History {
    map k | k in v && (k in todo || Survives(v[k], cutoff)) :: v[k]
  }

  ghost function SweptOne(v: History, key: Key, cutoff: int): History {
    if key in v && !Survives(v[key], cutoff) then v - {key} else v
  }

  lemma SweptStep(v: History, todo: set<Key>, key: Key, cutoff: int)
    requires key in v && key in todo
    ensures SweptOne(SweptBut(v, todo, cutoff), key, cutoff) == SweptBut(v, todo - {key}, cutoff)
  {}

  ghost predicate AllFit(v: History, h: History, now: int, limit: int, window: int) {
    forall k :: Fits(Hits(v, k), Hits(h, k), now, limit, window)
  }

  // Every key that is kept has a hit younger than the cutoff.
  ghost predicate AllYoung(v: History, cutoff: int) {
    forall k :: k in v ==> Survives(v[k], cutoff)
  }

  // A sweep is due: the first call of all, or a window after the last sweep.
  predicate Due(last: Option<int>, now: int, window: int) {
    last.None? || now - last.value >= window
  }

  /** The state between calls against the full history. */
  ghost predicate Keeps(v: History, h: History, last: Option<int>, clock: Option<int>, limit: int, window: int) {
    && (clock.None? ==> v == map[] && h == map[] && last.None?)
    && (clock.Some? ==>
          && last.Some? && last.value <= clock.value
          && (last.value == clock.value || !Due(last, clock.value, window))
          && AllFit(v, h, clock.value, limit, window) && AllYoung(v, last.value - window))
  }

  lemma AllFitLater(v: History, h: History, clock: int, now: int, limit: int, window: int)
    requires AllFit(v, h, clock, limit, window) && clock <= now
    ensures AllFit(v, h, now, limit, window)
  {
    forall k ensures Fits(Hits(v, k), Hits(h, k), now, limit, window) {
      FitsLater(Hits(v, k), Hits(h, k), clock, now, limit, window);
    }
  }

  lemma TouchFits(v: History, h: History, key: Key, now: int, limit: int, window: int)
    requires AllFit(v, h, now, limit, window)
    ensures AllFit(Touch(v, key, now, limit, window), Record(h, key, now, limit, window), now, limit, window)
  {
    var v', h' := Touch(v, key, now, limit, window), Record(h, key, now, limit, window);
    FitsTouched(Hits(v, key), h, key, now, limit, window);
    forall k ensures Fits(Hits(v', k), Hits(h', k), now, limit, window) {
      if k != key {
        assert Hits(v', k) == Hits(v, k) && Hits(h', k) == Hits(h, k);
      }
    }
  }

  lemma TouchYoung(v: History, key: Key, now: int, limit: int, window: int, cutoff: int)
    requires AllYoung(v, cutoff) && window > 0 && cutoff <= now - window
    ensures AllYoung(Touch(v, key, now, limit, window), cutoff)
  {
    var v' := Touch(v, key, now, limit, window);
    if key in v' {
      TouchedSurvives(Hits(v, key), now, limit, window, cutoff);
    }
  }

  lemma SweptFits(v: History, h: History, now: int, limit: int, window: int)
    requires AllFit(v, h, now, limit, window)
    ensures AllFit(Swept(v, now - window), h, now, limit, window)
  {
    forall k ensures Fits(Hits(Swept(v, now - window), k), Hits(h, k), now, limit, window) {
      if !Survives(Hits(v, k), now - window) {
        FitsSwept(Hits(v, k), Hits(h, k), now, limit, window);
      }
    }
  }

  // What Allow leaves of the kept hits.
  ghost function AllowNext(v: History, last: Option<int>, key: Key, now: int, limit: int, window: int): History {
    var v' := Touch(v, key, now, limit, window);
    if Due(last, now, window) then Swept(v', now - window) else v'
  }

  lemma DueKeeps(v: History, h: History, key: Key, now: int, limit: int, window: int)
    requires AllFit(v, h, now, limit, window)
    ensures Keeps(Swept(Touch(v, key, now, limit, window), now - window), Record(h, key, now, limit, window),
                  Some(now), Some(now), limit, window)
  {
    var v', h' := Touch(v, key, now, limit, window), Record(h, key, now, limit, window);
    TouchFits(v, h, key, now, limit, window);
    SweptFits(v', h', now, limit, window);
    assert AllYoung(Swept(v', now - window), now - window);
  }

  lemma NotDueKeeps(v: History, h: History, last: int, key: Key, now: int, limit: int, window: int)
    requires AllFit(v, h, now, limit, window) && AllYoung(v, last - window) && last <= now && now - last < window
    ensures Keeps(Touch(v, key, now, limit, window), Record(h, key, now, limit, window),
                  Some(last), Some(now), limit, window)
  {
    TouchFits(v, h, key, now, limit, window);
    TouchYoung(v, key, now, limit, window, last - window);
  }

  lemma FitNow(v: History, h: History, last: Option<int>, clock: Option<int>, now: int, limit: int, window: int)
    requires Keeps(v, h, last, clock, limit, window) && (clock.Some? ==> clock.value <= now)
    ensures AllFit(v, h, now, limit, window)
  {
    if clock.Some? {
      AllFitLater(v, h, clock.value, now, limit, window);
    }
  }

  // One call on a clock that does not go back.
  lemma AllowKeeps(v: History, h: History, last: Option<int>, clock: Option<int>, key: Key, now: int, limit: int, window: int)
    requires Keeps(v, h, last, clock, limit, window) && (clock.Some? ==> clock.value <= now)
    ensures Keeps(AllowNext(v, last, key, now, limit, window), Record(h, key, now, limit, window),
                  if Due(last, now, window) then Some(now) else last, Some(now), limit, window)
  {
    FitNow(v, h, last, clock, now, limit, window);
    if Due(last, now, window) {
      DueKeeps(v, h, key, now, limit, window);
    } else {
      NotDueKeeps(v, h, last.value, key, now, limit, window);
    }
  }

  // ---- whole runs ----

  datatype Call = Call(key: Key, now: int)

  // The full-history limiter after the first n calls of a run.
  function HistoryAfter(calls: seq<Call>, n: nat, limit: int, window: int): History
    requires n <= |calls|
  {
    if n == 0 then map[]
    else Record(HistoryAfter(calls, n - 1, limit, window), calls[n - 1].key, calls[n - 1].now, limit, window)
  }

  // The implementation after the same calls: what it keeps and when it last swept.
  ghost function StateAfter(calls: seq<Call>, n: nat, limit: int, window: int): (History, Option<int>)
    requires n <= |calls|
  {
    if n == 0 then (map[], None)
    else
      var c, s := calls[n - 1], StateAfter(calls, n - 1, limit, window);
      (AllowNext(s.0, s.1, c.key, c.now, limit, window), if Due(s.1, c.now, window) then Some(c.now) else s.1)
  }

  ghost predicate InOrder(calls: seq<Call>) {
    forall i, j :: 0 <= i < j < |calls| ==> calls[i].now <= calls[j].now
  }

  // The time of the last of the first n calls.
  function ClockAfter(calls: seq<Call>, n: nat): Option<int>
    requires n <= |calls|
  {
    if n == 0 then None else Some(calls[n - 1].now)
  }

  lemma {:induction false} RunKeeps(calls: seq<Call>, n: nat, limit: int, window: int)
    requires InOrder(calls) && n <= |calls|
    ensures Keeps(StateAfter(calls, n, limit, window).0, HistoryAfter(calls, n, limit, window),
                  StateAfter(calls, n, limit, window).1, ClockAfter(calls, n), limit, window)
  {
    if n > 0 {
      RunKeeps(calls, n - 1, limit, window);
      AllowKeeps(StateAfter(calls, n - 1, limit, window).0, HistoryAfter(calls, n - 1, limit, window),
                 StateAfter(calls, n - 1, limit, window).1, ClockAfter(calls, n - 1),
                 calls[n - 1].key, calls[n - 1].now, limit, window);
    }
  }

  lemma RunFits(calls: seq<Call>, n: nat, key: Key, limit: int, window: int)
    requires InOrder(calls) && 0 < n <= |calls|
    ensures Fits(Hits(StateAfter(calls, n, limit, window).0, key), Hits(HistoryAfter(calls, n, limit, window), key),
                 calls[n - 1].now, limit, window)
  {
    RunKeeps(calls, n, limit, window);
  }

  lemma RunFitsLater(calls: seq<Call>, n: nat, key: Key, now: int, limit: int, window: int)
    requires InOrder(calls) && n <= |calls| && (n > 0 ==> calls[n - 1].now <= now)
    ensures Fits(Hits(StateAfter(calls, n, limit, window).0, key), Hits(HistoryAfter(calls, n, limit, window), key), now, limit, window)
  {
    if n > 0 {
      RunFits(calls, n, key, limit, window);
      FitsLater(Hits(StateAfter(calls, n, limit, window).0, key), Hits(HistoryAfter(calls, n, limit, window), key),
                calls[n - 1].now, now, limit, window);
    }
  }

  lemma FitsAgree(kept: seq<int>, h: History, key: Key, now: int, limit: int, window: int)
    requires Fits(kept, Hits(h, key), now, limit, window)
    ensures |Recent(kept, now - window)| < limit <==> Allows(h, key, now, limit, window)
  {
  }

  /** After any run the next call, for any key, is answered as the full history answers it:
      neither the compaction nor the lazy sweep changes an answer. */
  lemma RunsAgree(calls: seq<Call>, n: nat, next: Call, limit: int, window: int)
    requires InOrder(calls) && n <= |calls| && (n > 0 ==> calls[n - 1].now <= next.now)
    ensures |Recent(Hits(StateAfter(calls, n, limit, window).0, next.key), next.now - window)| < limit
       <==> Allows(HistoryAfter(calls, n, limit, window), next.key, next.now, limit, window)
  {
    RunFitsLater(calls, n, next.key, next.now, limit, window);
    FitsAgree(Hits(StateAfter(calls, n, limit, window).0, next.key), HistoryAfter(calls, n, limit, window), next.key, next.now,
              limit, window);
  }

  lemma {:induction false} HistoryIsSpaced(calls: seq<Call>, n: nat, key: Key, limit: int, window: int)
    requires InOrder(calls) && n <= |calls|
    ensures var all := Hits(HistoryAfter(calls, n, limit, window), key);
            Sorted(all) && Spaced(all, limit, window) && (n == 0 ==> all == []) && (n > 0 ==> Past(all, calls[n - 1].now))
  {
    if n > 0 {
      HistoryIsSpaced(calls, n - 1, key, limit, window);
      RecordKeepsSpacing(HistoryAfter(calls, n - 1, limit, window), calls[n - 1].key, calls[n - 1].now, limit, window, key);
    }
  }

  // ---- the answers themselves ----

  // The implementation's answer to call n of the run.
  ghost predicate Answer(calls: seq<Call>, n: nat, limit: int, window: int)
    requires n < |calls|
  {
    |Recent(Hits(StateAfter(calls, n, limit, window).0, calls[n].key), calls[n].now - window)| < limit
  }

  ghost predicate IsAnswer(calls: seq<Call>, n: nat, answer: bool, limit: int, window: int)
    requires n < |calls|
  {
    answer == Answer(calls, n, limit, window)
  }

  ghost predicate AreAnswers(calls: seq<Call>, answers: seq<bool>, limit: int, window: int) {
    |answers| == |calls| && forall n: nat {:trigger IsAnswer(calls, n, answers[n], limit, window)} ::
      n < |calls| ==> IsAnswer(calls, n, answers[n], limit, window)
  }

  // So does the limiter with full history answer.
  predicate IsAllowed(calls: seq<Call>, n: nat, answer: bool, limit: int, window: int)
    requires n < |calls|
  {
    answer == Allows(HistoryAfter(calls, n, limit, window), calls[n].key, calls[n].now, limit, window)
  }

  ghost predicate AreAllowed(calls: seq<Call>, answers: seq<bool>, limit: int, window: int) {
    |answers| == |calls| && forall n: nat {:trigger IsAllowed(calls, n, answers[n], limit, window)} ::
      n < |calls| ==> IsAllowed(calls, n, answers[n], limit, window)
  }

  // How many of the first n calls were for the key, allowed, and later than lo, up to hi.
  function Allowed(calls: seq<Call>, answers: seq<bool>, n: nat, key: Key, lo: int, hi: int): nat
    requires n <= |calls| == |answers|
  {
    if n == 0 then 0
    else Allowed(calls, answers, n - 1, key, lo, hi)
         + if calls[n - 1].key == key && lo < calls[n - 1].now <= hi && answers[n - 1] then 1 else 0
  }

  // The hits of the key in that window.
  function InWindow(h: History, key: Key, lo: int, hi: int): nat {
    Between(Hits(h, key), |Hits(h, key)|, lo, hi)
  }

  lemma {:induction false} BetweenAppend(ts: seq<int>, t: int, n: nat, lo: int, hi: int)
    requires n <= |ts|
    ensures Between(ts + [t], n, lo, hi) == Between(ts, n, lo, hi)
  {
    if n > 0 {
      BetweenAppend(ts, t, n - 1, lo, hi);
      assert (ts + [t])[n - 1] == ts[n - 1];
    }
  }

  lemma {:induction false} BetweenIsRecent(ts: seq<int>, n: nat, lo: int, hi: int)
    requires n <= |ts| && Past(ts, hi)
    ensures Between(ts, n, lo, hi) == |RecentOf(ts, n, lo)|
  {
    if n > 0 {
      BetweenIsRecent(ts, n - 1, lo, hi);
      assert ts[n - 1] in ts;
    }
  }

  lemma AnswersAreAllowed(calls: seq<Call>, answers: seq<bool>, limit: int, window: int)
    requires InOrder(calls) && AreAnswers(calls, answers, limit, window)
    ensures AreAllowed(calls, answers, limit, window)
  {
    forall n: nat | n < |calls| ensures IsAllowed(calls, n, answers[n], limit, window) {
      assert IsAnswer(calls, n, answers[n], limit, window);
      RunsAgree(calls, n, calls[n], limit, window);
    }
  }

  lemma RecordCounts(h: History, c: Call, key: Key, lo: int, hi: int, limit: int, window: int)
    ensures InWindow(Record(h, c.key, c.now, limit, window), key, lo, hi) == InWindow(h, key, lo, hi)
              + if c.key == key && lo < c.now <= hi && Allows(h, c.key, c.now, limit, window) then 1 else 0
  {
    var all := Hits(h, key);
    if c.key == key && Allows(h, c.key, c.now, limit, window) {
      BetweenAppend(all, c.now, |all|, lo, hi);
      assert Hits(Record(h, c.key, c.now, limit, window), key) == all + [c.now];
    }
  }

  // The history is that of the allowed calls.
  lemma {:induction false} HistoryIsAllowed(calls: seq<Call>, answers: seq<bool>, n: nat, key: Key, lo: int, hi: int, limit: int, window: int)
    requires AreAllowed(calls, answers, limit, window) && n <= |calls|
    ensures Allowed(calls, answers, n, key, lo, hi) == InWindow(HistoryAfter(calls, n, limit, window), key, lo, hi)
  {
    if n > 0 {
      HistoryIsAllowed(calls, answers, n - 1, key, lo, hi, limit, window);
      assert IsAllowed(calls, n - 1, answers[n - 1], limit, window);
      RecordCounts(HistoryAfter(calls, n - 1, limit, window), calls[n - 1], key, lo, hi, limit, window);
    }
  }

  lemma AllowsIff(h: History, key: Key, now: int, limit: int, window: int)
    requires Past(Hits(h, key), now)
    ensures Allows(h, key, now, limit, window) <==> InWindow(h, key, now - window, now) < limit
  {
    BetweenIsRecent(Hits(h, key), |Hits(h, key)|, now - window, now);
  }

  lemma HistoryIsPast(calls: seq<Call>, n: nat, key: Key, limit: int, window: int)
    requires InOrder(calls) && n < |calls|
    ensures Past(Hits(HistoryAfter(calls, n, limit, window), key), calls[n].now)
  {
    HistoryIsSpaced(calls, n, key, limit, window);
    assert n > 0 ==> calls[n - 1].now <= calls[n].now;
  }

  /** A call is allowed if and only if fewer than `limit` calls for its key were allowed in the
      window that ends with it. */
  lemma AnswerIff(calls: seq<Call>, answers: seq<bool>, n: nat, limit: int, window: int)
    requires InOrder(calls) && AreAnswers(calls, answers, limit, window) && n < |calls|
    ensures answers[n] <==> Allowed(calls, answers, n, calls[n].key, calls[n].now - window, calls[n].now) < limit
  {
    AnswersAreAllowed(calls, answers, limit, window);
    HistoryIsPast(calls, n, calls[n].key, limit, window);
    AllowedIff(calls, answers, n, limit, window);
  }

  lemma AllowedIff(calls: seq<Call>, answers: seq<bool>, n: nat, limit: int, window: int)
    requires AreAllowed(calls, answers, limit, window) && n < |calls|
    requires Past(Hits(HistoryAfter(calls, n, limit, window), calls[n].key), calls[n].now)
    ensures answers[n] <==> Allowed(calls, answers, n, calls[n].key, calls[n].now - window, calls[n].now) < limit
  {
    assert IsAllowed(calls, n, answers[n], limit, window);
    AllowsIff(HistoryAfter(calls, n, limit, window), calls[n].key, calls[n].now, limit, window);
    HistoryIsAllowed(calls, answers, n, calls[n].key, calls[n].now - window, calls[n].now, limit, window);
  }

  /** In any run, no window of length W holds more than `limit` allowed calls for a key. */
  lemma RunsAreLimited(calls: seq<Call>, answers: seq<bool>, key: Key, limit: int, window: int, lo: int)
    requires InOrder(calls) && AreAnswers(calls, answers, limit, window) && limit >= 0
    ensures Allowed(calls, answers, |calls|, key, lo, lo + window) <= limit
  {
    AnswersAreAllowed(calls, answers, limit, window);
    HistoryIsSpaced(calls, |calls|, key, limit, window);
    HistoryIsAllowed(calls, answers, |calls|, key, lo, lo + window, limit, window);
    var all := Hits(HistoryAfter(calls, |calls|, limit, window), key);
    WindowBound(all, |all|, limit, window, lo);
  }

  /** What is kept stays small: after any run at most `limit` hits per key, one of them less
      than two windows older than the last call. */
  lemma RunsStaySmall(calls: seq<Call>, n: nat, key: Key, limit: int, window: int)
    requires InOrder(calls) && n <= |calls| && key in StateAfter(calls, n, limit, window).0
    ensures n > 0 && 0 < |StateAfter(calls, n, limit, window).0[key]| <= limit
    ensures exists t :: t in StateAfter(calls, n, limit, window).0[key] && t > calls[n - 1].now - 2 * window
  {
    RunKeeps(calls, n, limit, window);
    RunFits(calls, n, key, limit, window);
    var (v, last) := StateAfter(calls, n, limit, window);
    var t :| t in v[key] && t > last.value - window;
    assert t <= calls[n - 1].now;
  }

  // ---- the implementation ----

  // A Go slice: the first len elements of its backing array.
  datatype Slice = Slice(arr: array<int>, len: nat)

  class RateLimiter {
    var hits: map<Key, Slice>
    const limit: int
    const window: int
    var lastSweep: Option<int>   // None is the zero time, long before any clock reading
    ghost var kept: History      // the hits kept for every key
    ghost var repr: set<array<int>>

    constructor (limit: int, window: int)
      ensures Valid() && repr == {} && kept == map[] && lastSweep == None
      ensures this.limit == limit && this.window == window
    {
      this.limit, this.window := limit, window;
      hits, lastSweep := map[], None;
      kept, repr := map[], {};
    }

    // The key's slice is not empty and holds exactly its kept hits.
    ghost predicate Sound(k: Key)
      requires k in hits && k in kept
      reads this`hits, this`kept, this`repr, repr
    {
      && hits[k].arr in repr && 0 < hits[k].len <= hits[k].arr.Length
      && hits[k].arr[..hits[k].len] == kept[k]
    }

    // So it is for every key but one, and no two keys share a backing array.
    ghost predicate SoundBut(key: Option<Key>)
      reads this`hits, this`kept, this`repr, repr
    {
      && hits.Keys == kept.Keys
      && (forall k :: k in hits && key != Some(k) ==> Sound(k))
      && forall j, k :: j in hits && k in hits && j != k ==> hits[j].arr != hits[k].arr
    }

    ghost predicate Valid()
      reads this`hits, this`kept, this`repr, repr
    {
      SoundBut(None)
    }

    /** fresh := old[:0] followed by appends: keeps the recent hits at the front of the same
        backing array. */
    method Compact(s: Slice, cutoff: int) returns (m: nat)
      requires s.len <= s.arr.Length
      modifies s.arr
      ensures m <= s.len && s.arr[..m] == Recent(old(s.arr[..s.len]), cutoff)
    {
      m := 0;
      ghost var was := s.arr[..s.len];
      for i := 0 to s.len
        invariant m <= i && forall j :: i <= j < s.len ==> s.arr[j] == was[j]
        invariant s.arr[..m] == RecentOf(was, i, cutoff)
      {
        assert s.arr[i] == was[i];
        if s.arr[i] > cutoff {
          s.arr[m] := s.arr[i];
          m := m + 1;
        }
      }
    }

    /** append(fresh, now): in place while there is room, else into a bigger array. */
    method Append(arr: array<int>, m: nat, now: int) returns (s: Slice)
      requires m <= arr.Length
      modifies arr
      ensures s.len == m + 1 <= s.arr.Length && s.arr[..m + 1] == old(arr[..m]) + [now]
      ensures s.arr == arr || fresh(s.arr)
    {
      if m < arr.Length {
        arr[m] := now;
        return Slice(arr, m + 1);
      }
      var bigger := new int[2 * m + 1];
      for i := 0 to m
        invariant bigger[..i] == arr[..i] && arr[..m] == old(arr[..m])
      {
        bigger[i] := arr[i];
      }
      bigger[m] := now;
      assert bigger[..m + 1] == bigger[..m] + [now] && bigger[..m] == old(arr[..m]);
      return Slice(bigger, m + 1);
    }

    // The key's hits after the call: the recent ones, and this one when it is allowed.
    method Refresh(s: Slice, now: int) returns (s': Slice, allowed: bool)
      requires s.len <= s.arr.Length
      modifies s.arr
      ensures s'.len <= s'.arr.Length && (s'.arr == s.arr || fresh(s'.arr))
      ensures s'.arr[..s'.len] == Touched(old(s.arr[..s.len]), now, limit, window)
      ensures allowed == (|Recent(old(s.arr[..s.len]), now - window)| < limit)
    {
      var m := Compact(s, now - window);
      allowed := m < limit;
      if allowed {
        s' := Append(s.arr, m, now);
      } else {
        s' := Slice(s.arr, m);
      }
    }

    // sweepLocked's inner loop.
    method Stale(s: Slice, cutoff: int) returns (stale: bool)
      requires s.len <= s.arr.Length
      ensures stale == !Survives(s.arr[..s.len], cutoff)
    {
      for i := 0 to s.len
        invariant forall t :: t in s.arr[..i] ==> t <= cutoff
      {
        if s.arr[i] > cutoff {
          assert s.arr[i] in s.arr[..s.len];
          return false;
        }
        assert s.arr[..i + 1] == s.arr[..i] + [s.arr[i]];
      }
      return true;
    }

    // delete(r.hits, key)
    method Drop(key: Key)
      requires SoundBut(Some(key))
      modifies this`hits, this`kept
      ensures Valid() && hits == old(hits) - {key} && kept == old(kept) - {key}
    {
      hits, kept := hits - {key}, kept - {key};
      forall k | k in hits && k != key ensures Sound(k) {
        assert old(Sound(k));
      }
    }

    // r.hits[key] = fresh
    method Put(key: Key, s: Slice)
      requires SoundBut(Some(key)) && 0 < s.len <= s.arr.Length
      requires forall k :: k in hits && k != key ==> hits[k].arr != s.arr
      modifies this`hits, this`kept, this`repr
      ensures Valid() && kept == old(kept)[key := s.arr[..s.len]] && repr == old(repr) + {s.arr}
    {
      hits, kept, repr := hits[key := s], kept[key := s.arr[..s.len]], repr + {s.arr};
      forall k | k in hits && k != key ensures Sound(k) {
        assert old(Sound(k));
      }
    }

    // Allow up to the point where the key's hits are stored or deleted.
    method TouchKey(key: Key, now: int) returns (allowed: bool)
      requires Valid()
      modifies this`hits, this`kept, this`repr, repr
      ensures Valid() && fresh(repr - old(repr))
      ensures allowed == (|Recent(Hits(old(kept), key), now - window)| < limit)
      ensures kept == Touch(old(kept), key, now, limit, window)
    {
      var none := new int[0];
      var s := Slice(none, 0);
      if key in hits {
        assert Sound(key);
        s := hits[key];
      }
      assert s.arr[..s.len] == Hits(kept, key);
      s, allowed := Refresh(s, now);
      assert SoundBut(Some(key)) by {
        forall k | k in hits && k != key ensures Sound(k) {
          assert old(Sound(k));
        }
      }
      if s.len == 0 {
        Drop(key);
      } else {
        Put(key, s);
      }
    }

    // One round of sweepLocked's loop.
    method SweepKey(key: Key, cutoff: int)
      requires Valid() && key in kept
      modifies this`hits, this`kept
      ensures Valid() && kept == SweptOne(old(kept), key, cutoff)
    {
      assert Sound(key);
      var stale := Stale(hits[key], cutoff);
      if stale {
        Drop(key);
      }
    }

    // sweepLocked
    method Sweep(cutoff: int)
      requires Valid()
      modifies this`hits, this`kept
      ensures Valid() && kept == Swept(old(kept), cutoff)
    {
      var todo := hits.Keys;
      while todo != {}
        invariant todo <= kept.Keys && Valid()
        invariant todo <= old(kept).Keys && kept == SweptBut(old(kept), todo, cutoff)
        decreases todo
      {
        var k :| k in todo;
        SweptStep(old(kept), todo, k, cutoff);
        SweepKey(k, cutoff);
        todo := todo - {k};
      }
    }

    /** One call changes the kept hits, the sweep time and the answer as AllowNext, Due and
        Recent say; RunsAgree says what that amounts to over a run. */
    method Allow(key: Key, now: int) returns (allowed: bool)
      requires Valid()
      modifies this, repr
      ensures Valid() && fresh(repr - old(repr))
      ensures allowed == (|Recent(Hits(old(kept), key), now - window)| < limit)
      ensures kept == AllowNext(old(kept), old(lastSweep), key, now, limit, window)
      ensures lastSweep == if Due(old(lastSweep), now, window) then Some(now) else old(lastSweep)
      ensures old(lastSweep).Some? && now - old(lastSweep).value < window ==> lastSweep == old(lastSweep)
      ensures old(lastSweep).None? || now - old(lastSweep).value >= window ==> lastSweep == Some(now)
    {
      allowed := TouchKey(key, now);
      if Due(lastSweep, now, window) {
        Sweep(now - window);
        lastSweep := Some(now);
      }
    }
  }
}
