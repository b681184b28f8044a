/** What holds of every run of the two caches. */
module AuthCacheRuns {
  import opened AuthCache

  ghost predicate Step(c: Config, s: State, a: Action, s': State) {
    Enabled(c, s, a) && s' == Apply(c, s, a)
  }

  // Both processes start with empty caches; the tables and the clock may be anything.
  ghost predicate Fresh(s: State) {
    s.inner == map[] && s.outer == map[] && s.reqs == map[] && s.facts == {}
  }

  ghost predicate Run(c: Config, ss: seq<State>, acts: seq<Action>) {
    && |ss| == |acts| + 1 && Fresh(ss[0])
    && forall k :: 0 <= k < |acts| ==> Step(c, ss[k], acts[k], ss[k + 1])
  }

  lemma {:induction false} RunKeeps(c: Config, ss: seq<State>, acts: seq<Action>, k: nat)
    requires Run(c, ss, acts) && k < |ss|
    ensures Inv(c, ss[k])
  {
    if k > 0 {
      RunKeeps(c, ss, acts, k - 1);
      assert Step(c, ss[k - 1], acts[k - 1], ss[k]);
      StepKeeps(c, ss[k - 1], acts[k - 1]);
    }
  }

  // The fact holds of the tables in this state.
  predicate Holds(s: State, f: Fact) {
    match f
    case Valid(key, at) => s.now == at && key in s.active
    case Invalid(key, at) => s.now == at && key !in s.active
    case Shows(node, view, at) => s.now == at && node in s.views && s.views[node] == view
    case Missing(node, at) => s.now == at && node !in s.views
  }

  lemma LearntIs(s: State, g: Fact, f: Fact, tid: Tid, pc: Pc)
    requires tid in s.reqs && f in Goto(Learn(s, g), tid, pc).facts && f !in s.facts
    ensures f == g
  {}

  lemma ReadTokensLearnsTruth(c: Config, s: State, tid: Tid, f: Fact)
    requires Enabled(c, s, ReadTokens(tid)) && f in Apply(c, s, ReadTokens(tid)).facts && f !in s.facts
    ensures Holds(s, f)
  {
    var key := s.reqs[tid].key;
    if key in s.active {
      LearntIs(s, Valid(key, s.now), f, tid, Matched(s.now));
    } else {
      LearntIs(s, Invalid(key, s.now), f, tid, Refused(NoMatch(s.now)));
    }
  }

  lemma ReadViewLearnsTruth(c: Config, s: State, tid: Tid, f: Fact)
    requires Enabled(c, s, ReadView(tid)) && f in Apply(c, s, ReadView(tid)).facts && f !in s.facts
    ensures Holds(s, f)
  {
    var node := s.reqs[tid].key.node;
    if node in s.views {
      LearntIs(s, Shows(node, s.views[node], s.now), f, tid, Viewed(s.views[node], Stamp(s.reqs[tid].pc.matched, s.now)));
    } else {
      LearntIs(s, Missing(node, s.now), f, tid, Refused(NoNode(s.now)));
    }
  }

  lemma StepLearnsTruth(c: Config, s: State, a: Action, f: Fact)
    requires Enabled(c, s, a) && f in Apply(c, s, a).facts && f !in s.facts
    ensures Holds(s, f)
  {
    match a
    case ReadTokens(tid) => ReadTokensLearnsTruth(c, s, tid, f);
    case ReadView(tid) => ReadViewLearnsTruth(c, s, tid, f);
    case Tick(_) =>
    case SetTokens(_) =>
    case SetViews(_) =>
    case Begin(_, _) =>
    case CheckOuter(_) =>
    case CheckInner(_) =>
    case StoreInner(_) =>
    case StoreOuter(_) =>
    case GiveUp(_) =>
  }

  // Whatever a request has read was so at some earlier instant of the run.
  lemma {:induction false} FactsAreTrue(c: Config, ss: seq<State>, acts: seq<Action>, k: nat, f: Fact) returns (i: nat)
    requires Run(c, ss, acts) && k < |ss| && f in ss[k].facts
    ensures i <= k && Holds(ss[i], f)
  {
    assert Step(c, ss[k - 1], acts[k - 1], ss[k]);
    if f in ss[k - 1].facts {
      i := FactsAreTrue(c, ss, acts, k - 1, f);
    } else {
      StepLearnsTruth(c, ss[k - 1], acts[k - 1], f);
      i := k - 1;
    }
  }

  // ---- how stale an accepted token can be ----

  /** Bounded staleness: a token accepted at time `at` was active at an instant at most
      Staleness ticks before, and the view handed out was the node's view at an instant in
      between. StalestRun attains the bound. */
  lemma AcceptedWasActive(c: Config, ss: seq<State>, acts: seq<Action>, k: nat, tid: Tid) returns (i: nat, j: nat)
    requires Run(c, ss, acts) && k < |ss| && tid in ss[k].reqs && ss[k].reqs[tid].pc.Accepted?
    ensures i <= k && j <= k
    ensures var r := ss[k].reqs[tid];
            && r.key.token.text != "" && r.key in ss[i].active && r.key.node in ss[j].views && ss[j].views[r.key.node] == r.pc.view
            && ss[i].now <= ss[j].now <= r.pc.at && r.pc.at - ss[i].now <= Staleness(c)
  {
    RunKeeps(c, ss, acts, k);
    var r := ss[k].reqs[tid];
    assert ReqOk(c, ss[k], r);
    i := FactsAreTrue(c, ss, acts, k, Valid(r.key, r.pc.stamp.matched));
    j := FactsAreTrue(c, ss, acts, k, Shows(r.key.node, r.pc.view, r.pc.stamp.read));
  }

  /** With both caches off and no time spent in flight, the token is active when accepted. */
  lemma AcceptedIsActive(c: Config, ss: seq<State>, acts: seq<Action>, k: nat, tid: Tid) returns (i: nat)
    requires Run(c, ss, acts) && k < |ss| && tid in ss[k].reqs && ss[k].reqs[tid].pc.Accepted?
    requires c.inner <= 0 && c.outer <= 0 && c.innerLag == 0 && c.outerLag == 0
    ensures i <= k && ss[k].reqs[tid].key in ss[i].active && ss[i].now == ss[k].reqs[tid].pc.at
  {
    var j;
    i, j := AcceptedWasActive(c, ss, acts, k, tid);
  }

  // A run in which the key is active at time zero and never later.
  ghost predicate OnlyAtZero(c: Config, ss: seq<State>, acts: seq<Action>, key: CacheKey) {
    Run(c, ss, acts) && forall i :: 0 <= i < |ss| && key in ss[i].active ==> ss[i].now == 0
  }

  lemma Extend(c: Config, ss: seq<State>, acts: seq<Action>, key: CacheKey, a: Action) returns (ss': seq<State>, acts': seq<Action>)
    requires OnlyAtZero(c, ss, acts, key) && Enabled(c, ss[|acts|], a)
    requires key in Apply(c, ss[|acts|], a).active ==> Apply(c, ss[|acts|], a).now == 0
    ensures OnlyAtZero(c, ss', acts', key) && ss'[|acts'|] == Apply(c, ss[|acts|], a)
  {
    ss', acts' := ss + [Apply(c, ss[|acts|], a)], acts + [a];
    forall k | 0 <= k < |acts'| ensures Step(c, ss'[k], acts'[k], ss'[k + 1]) {
      if k < |acts| {
        assert Step(c, ss[k], acts[k], ss[k + 1]);
      }
    }
  }

  lemma StaleMatch(c: Config, key: CacheKey, view: View) returns (ss: seq<State>, acts: seq<Action>)
    requires key.token.text != ""
    ensures OnlyAtZero(c, ss, acts, key)
    ensures var s := ss[|acts|];
            && s.now == 0 && s.inner == map[] && s.outer == map[] && s.views == map[key.node := view]
            && s.reqs == map[0 := Request(key, 0, Matched(0))]
  {
    ss, acts := [State(0, {key}, map[key.node := view], map[], map[], map[], map[], map[], {})], [];
    ss, acts := Extend(c, ss, acts, key, Begin(0, key));
    ss, acts := Extend(c, ss, acts, key, CheckOuter(0));
    ss, acts := Extend(c, ss, acts, key, CheckInner(0));
    ss, acts := Extend(c, ss, acts, key, ReadTokens(0));
  }

  // Request 0 matches and reads its view at time zero; then the token is revoked.
  lemma StaleView(c: Config, key: CacheKey, view: View) returns (ss: seq<State>, acts: seq<Action>)
    requires key.token.text != ""
    ensures OnlyAtZero(c, ss, acts, key)
    ensures var s := ss[|acts|];
            && s.now == 0 && s.active == {} && s.inner == map[] && s.outer == map[]
            && s.reqs == map[0 := Request(key, 0, Viewed(view, Stamp(0, 0)))]
  {
    ss, acts := StaleMatch(c, key, view);
    ss, acts := Extend(c, ss, acts, key, ReadView(0));
    assert ss[|acts|].reqs == map[0 := Request(key, 0, Viewed(view, Stamp(0, 0)))];
    ss, acts := Extend(c, ss, acts, key, SetTokens({}));
  }

  // main-api answers it, and stores the view, as late as its lag allows.
  lemma StaleStored(c: Config, key: CacheKey, view: View) returns (ss: seq<State>, acts: seq<Action>)
    requires key.token.text != ""
    ensures OnlyAtZero(c, ss, acts, key)
    ensures var s := ss[|acts|];
            && s.now == c.innerLag && s.active == {} && s.outer == map[]
            && s.reqs == map[0 := Request(key, 0, Replied(view, Stamp(0, 0), c.innerLag))]
            && (c.inner > 0 ==> key in s.inner && s.inner[key] == Entry(view, c.innerLag + c.inner)
                                && Since(s.innerSince, key) == Stamp(0, 0))
  {
    ss, acts := StaleView(c, key, view);
    ss, acts := Extend(c, ss, acts, key, Tick(c.innerLag));
    ss, acts := Extend(c, ss, acts, key, StoreInner(0));
  }

  // The reply to that request, or to a later one that hits the inner cache in its last tick.
  lemma StaleReply(c: Config, key: CacheKey, view: View) returns (ss: seq<State>, acts: seq<Action>, tid: Tid)
    requires key.token.text != ""
    ensures OnlyAtZero(c, ss, acts, key) && tid < 2
    ensures var s := ss[|acts|];
            && s.now == c.innerLag + Spare(c.inner) && s.active == {} && s.outer == map[]
            && s.reqs.Keys <= {0, 1} && tid in s.reqs
            && s.reqs[tid].key == key && s.reqs[tid].pc == Replied(view, Stamp(0, 0), s.now)
  {
    ss, acts := StaleStored(c, key, view);
    tid := 0;
    if c.inner > 0 {
      tid := 1;
      ss, acts := Extend(c, ss, acts, key, Tick(Spare(c.inner)));
      ss, acts := Extend(c, ss, acts, key, Begin(1, key));
      ss, acts := Extend(c, ss, acts, key, CheckOuter(1));
      ss, acts := Extend(c, ss, acts, key, CheckInner(1));
    }
  }

  // The proxy accepts it, and stores the view, as late as its lag allows.
  lemma StaleAccepted(c: Config, key: CacheKey, view: View) returns (ss: seq<State>, acts: seq<Action>, tid: Tid)
    requires key.token.text != ""
    ensures OnlyAtZero(c, ss, acts, key)
    ensures var s := ss[|acts|]; var at := c.innerLag + Spare(c.inner) + c.outerLag;
            && s.now == at && s.active == {} && s.reqs.Keys <= {0, 1}
            && tid in s.reqs && s.reqs[tid].key == key && s.reqs[tid].pc == Accepted(view, Stamp(0, 0), at)
            && (c.outer > 0 ==> key in s.outer && s.outer[key] == Entry(view, at + c.outer)
                                && Since(s.outerSince, key) == Stamp(0, 0))
  {
    ss, acts, tid := StaleReply(c, key, view);
    ss, acts := Extend(c, ss, acts, key, Tick(c.outerLag));
    ss, acts := Extend(c, ss, acts, key, StoreOuter(tid));
  }

  /** The bound is attained, whatever the ttls and the lags: a run in which the key is active
      at time zero only and is accepted Staleness ticks later, in the last tick of each cache
      that is on. */
  lemma StalestRun(c: Config, key: CacheKey, view: View) returns (ss: seq<State>, acts: seq<Action>, tid: Tid)
    requires key.token.text != ""
    ensures OnlyAtZero(c, ss, acts, key)
    ensures var s := ss[|acts|];
            && tid in s.reqs && s.reqs[tid].key == key
            && s.reqs[tid].pc == Accepted(view, Stamp(0, 0), Staleness(c))
  {
    ss, acts, tid := StaleAccepted(c, key, view);
    if c.outer > 0 {
      tid := 2;
      ss, acts := Extend(c, ss, acts, key, Tick(Spare(c.outer)));
      ss, acts := Extend(c, ss, acts, key, Begin(2, key));
      ss, acts := Extend(c, ss, acts, key, CheckOuter(2));
    }
  }

  function Pos(ttl: int): nat {
    if ttl > 0 then ttl else 0
  }

  // The key was active within the two ttls before its acceptance, at the very instant of it
  // when both caches are off.
  ghost predicate InTtls(c: Config, ss: seq<State>, k: nat, key: CacheKey, at: int)
    requires k < |ss|
  {
    exists i :: 0 <= i <= k && key in ss[i].active
                && (if Pos(c.inner) + Pos(c.outer) == 0 then ss[i].now == at else at - Pos(c.inner) - Pos(c.outer) < ss[i].now <= at)
  }

  ghost predicate AcceptedAt(ss: seq<State>, k: nat, tid: Tid) {
    k < |ss| && tid in ss[k].reqs && ss[k].reqs[tid].pc.Accepted?
  }

  // The revocation budget, counted in ttls alone.
  ghost predicate TtlsSuffice(c: Config) {
    forall ss: seq<State>, acts: seq<Action>, k: nat, tid: Tid :: Run(c, ss, acts) && AcceptedAt(ss, k, tid) ==>
      InTtls(c, ss, k, ss[k].reqs[tid].key, ss[k].reqs[tid].pc.at)
  }

  /** The exact condition: the ttls alone bound the staleness of every run if and only if
      requests spend no time in flight, or, with both caches on, at most one tick of it. */
  lemma TtlsSufficeIff(c: Config)
    ensures TtlsSuffice(c) <==> c.innerLag + c.outerLag < if c.inner > 0 && c.outer > 0 then 2 else 1
  {
    if c.innerLag + c.outerLag < if c.inner > 0 && c.outer > 0 then 2 else 1 {
      forall ss: seq<State>, acts: seq<Action>, k: nat, tid: Tid | Run(c, ss, acts) && AcceptedAt(ss, k, tid)
        ensures InTtls(c, ss, k, ss[k].reqs[tid].key, ss[k].reqs[tid].pc.at)
      {
        var i, j := AcceptedWasActive(c, ss, acts, k, tid);
      }
    } else {
      var key := CacheKey(0, Token("t"));
      var ss, acts, tid := StalestRun(c, key, 0);
      assert AcceptedAt(ss, |acts|, tid);
      assert !InTtls(c, ss, |acts|, key, Staleness(c));
    }
  }

  // ---- refusals ----

  /** Failures are never cached: a refusal is the request's own doing. The token was inactive,
      or the node missing, at an instant since the request began; or the token is empty; or a
      query or the call failed. */
  lemma RefusedForCause(c: Config, ss: seq<State>, acts: seq<Action>, k: nat, tid: Tid) returns (i: nat)
    requires Run(c, ss, acts) && k < |ss| && tid in ss[k].reqs && ss[k].reqs[tid].pc.Refused?
    ensures i <= k
    ensures var r := ss[k].reqs[tid];
            match r.pc.why
            case EmptyToken => r.key.token.text == ""
            case NoMatch(at) => r.begun <= ss[i].now == at && r.key !in ss[i].active
            case NoNode(at) => r.begun <= ss[i].now == at && r.key.node !in ss[i].views
            case Fault => true
  {
    RunKeeps(c, ss, acts, k);
    var r := ss[k].reqs[tid];
    assert ReqOk(c, ss[k], r);
    i := 0;
    match r.pc.why
    case EmptyToken =>
    case NoMatch(at) => i := FactsAreTrue(c, ss, acts, k, Invalid(r.key, at));
    case NoNode(at) => i := FactsAreTrue(c, ss, acts, k, Missing(r.key.node, at));
    case Fault =>
  }

  /** A token that is active, for a node that exists, ever since the request began is refused
      only because something failed. */
  lemma ActiveIsRefusedOnlyByFault(c: Config, ss: seq<State>, acts: seq<Action>, k: nat, tid: Tid)
    requires Run(c, ss, acts) && k < |ss| && tid in ss[k].reqs && ss[k].reqs[tid].key.token.text != ""
    requires forall i :: 0 <= i <= k && ss[k].reqs[tid].begun <= ss[i].now ==>
               ss[k].reqs[tid].key in ss[i].active && ss[k].reqs[tid].key.node in ss[i].views
    ensures ss[k].reqs[tid].pc.Refused? ==> ss[k].reqs[tid].pc.why == Fault
  {
    if ss[k].reqs[tid].pc.Refused? {
      var i := RefusedForCause(c, ss, acts, k, tid);
    }
  }
}
