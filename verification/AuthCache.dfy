/** Two positive caches in a row: main-api's agent-auth lookup (agentauth/agentauth.go) and the
    ssh-proxy's verifier in front of it (muxserver/auth.go). One clock, in whole ticks. */
module AuthCache {
  import opened Wrappers

  // The token is wrapped so that only its equality and emptiness matter.
  datatype Token = Token(text: string)

  datatype CacheKey = CacheKey(node: NodeId, token: Token)

  type View = int   // access policy, owner team and agent version of a node

  datatype Entry = Entry(view: View, expires: int)

  type Cache = map<CacheKey, Entry>

  // The first critical section: a ttl of zero or less never hits.
  function Hit(c: Cache, ttl: int, key: CacheKey, now: int): Option<View> {
    if ttl > 0 && key in c && now < c[key].expires then Some(c[key].view) else None
  }

  // The second critical section.
  function Put(c: Cache, ttl: int, key: CacheKey, view: View, now: int): Cache {
    if ttl > 0 then c[key := Entry(view, now + ttl)] else c
  }

  // ---- agentauth.Handler ----

  datatype Hash = Hash(text: string)

  class Handler {
    const ttl: int
    var cache: Cache

    constructor (ttl: int)
      ensures this.ttl == ttl && cache == map[]
    {
      this.ttl := ttl;
      cache := map[];
    }

    // Whether bcrypt accepts the token for one of the hashes.
    method Matches(tokens: seq<Hash>, token: Token, accepts: (Hash, Token) -> bool) returns (matched: bool)
      ensures matched <==> exists i :: 0 <= i < |tokens| && accepts(tokens[i], token)
    {
      for i := 0 to |tokens|
        invariant forall j :: 0 <= j < i ==> !accepts(tokens[j], token)
      {
        if accepts(tokens[i], token) { return true; }
      }
      return false;
    }

    /** lookup, alone: `checked` and `stored` are the clock at the two critical sections,
        `tokens` and `view` what the two queries return. Only a success is remembered, and
        for as long as the ttl says. */
    method Lookup(key: CacheKey, checked: int, tokens: Option<seq<Hash>>, accepts: (Hash, Token) -> bool,
                  view: Option<View>, stored: int)
      returns (r: Option<View>)
      modifies this`cache
      ensures Hit(old(cache), ttl, key, checked).Some? ==> r == Hit(old(cache), ttl, key, checked) && cache == old(cache)
      ensures Hit(old(cache), ttl, key, checked).None? ==>
                r == if tokens.Some? && (exists i :: 0 <= i < |tokens.value| && accepts(tokens.value[i], key.token)) then view else None
      ensures Hit(old(cache), ttl, key, checked).None? ==>
                cache == if r.Some? then Put(old(cache), ttl, key, r.value, stored) else old(cache)
    {
      if ttl > 0 && key in cache && checked < cache[key].expires {
        return Some(cache[key].view);
      }
      if tokens.None? || |tokens.value| == 0 { return None; }
      var matched := Matches(tokens.value, key.token, accepts);
      if !matched || view.None? { return None; }
      if ttl > 0 {
        cache := cache[key := Entry(view.value, stored + ttl)];
      }
      return view;
    }
  }

  // ---- muxserver.HTTPVerifier ----

  // The HTTP call: the view of a 200 with ok, a 401 or a 200 without ok, or anything else.
  datatype Reply = Ok200(view: View) | Unauthenticated | Broken

  datatype VerifyError = ErrUnauthenticated | ErrCall

  class HttpVerifier {
    const ttl: int
    var cache: Cache

    constructor (ttl: int)
      ensures this.ttl == (if ttl < 0 then 0 else ttl) && cache == map[]
    {
      this.ttl := if ttl < 0 then 0 else ttl;
      cache := map[];
    }

    /** Verify, alone. */
    method Verify(key: CacheKey, checked: int, reply: Reply, stored: int) returns (r: Result<View, VerifyError>)
      modifies this`cache
      ensures Hit(old(cache), ttl, key, checked).Some? ==> r == Ok(Hit(old(cache), ttl, key, checked).value) && cache == old(cache)
      ensures Hit(old(cache), ttl, key, checked).None? ==>
                && (r.Ok? <==> reply.Ok200?) && (r.Ok? ==> r.value == reply.view)
                && (r == Err(ErrUnauthenticated) <==> reply.Unauthenticated?)
      ensures Hit(old(cache), ttl, key, checked).None? ==>
                cache == if r.Ok? then Put(old(cache), ttl, key, r.value, stored) else old(cache)
    {
      if ttl > 0 && key in cache && checked < cache[key].expires {
        return Ok(cache[key].view);
      }
      match reply {
        case Ok200(view) =>
          if ttl > 0 {
            cache := cache[key := Entry(view, stored + ttl)];
          }
          return Ok(view);
        case Unauthenticated => return Err(ErrUnauthenticated);
        case Broken => return Err(ErrCall);
      }
    }
  }

  // ---- both, with any number of requests in flight ----

  type Tid = nat

  // When the token matched and when the view was read; what the caches themselves forget.
  datatype Stamp = Stamp(matched: int, read: int)

  datatype Refusal = EmptyToken | NoMatch(at: int) | NoNode(at: int) | Fault

  // What was true of the tables at an instant of the run.
  datatype Fact =
    | Valid(key: CacheKey, at: int)          // a row was active for the pair
    | Invalid(key: CacheKey, at: int)
    | Shows(node: NodeId, view: View, at: int)   // the node's row read as this
    | Missing(node: NodeId, at: int)

  // Where a request stands. The dots between Calling and Replied are main-api's.
  datatype Pc =
    | Started
    | Calling
    | Looking
    | Matched(matched: int)
    | Viewed(view: View, stamp: Stamp)
    | Replied(view: View, stamp: Stamp, at: int)
    | Accepted(view: View, stamp: Stamp, at: int)
    | Refused(why: Refusal)

  datatype Request = Request(key: CacheKey, begun: int, pc: Pc)

  datatype State = State(
    now: int,
    active: set<CacheKey>,             // pairs for which an active row's hash accepts the token
    views: map<NodeId, View>,          // the nodes table
    inner: Cache, innerSince: map<CacheKey, Stamp>,
    outer: Cache, outerSince: map<CacheKey, Stamp>,
    reqs: map<Tid, Request>,
    facts: set<Fact>)                  // what the requests have read so far

  // inner and outer are the two ttls. A request that spends more than innerLag between the
  // match and main-api's answer, or more than outerLag between that answer and its own end,
  // is cut off by a timeout.
  datatype Config = Config(inner: int, outer: int, innerLag: nat, outerLag: nat)

  datatype Action =
    | Tick(d: nat)
    | SetTokens(active: set<CacheKey>)
    | SetViews(views: map<NodeId, View>)
    | Begin(tid: Tid, key: CacheKey)
    | CheckOuter(tid: Tid)
    | CheckInner(tid: Tid)
    | ReadTokens(tid: Tid)
    | ReadView(tid: Tid)
    | StoreInner(tid: Tid)
    | StoreOuter(tid: Tid)
    | GiveUp(tid: Tid)

  predicate Enabled(c: Config, s: State, a: Action) {
    match a
    case Tick(_) | SetTokens(_) | SetViews(_) => true
    case Begin(tid, _) => tid !in s.reqs
    case CheckOuter(tid) => tid in s.reqs && s.reqs[tid].pc.Started?
    case CheckInner(tid) => tid in s.reqs && s.reqs[tid].pc.Calling?
    case ReadTokens(tid) => tid in s.reqs && s.reqs[tid].pc.Looking?
    case ReadView(tid) => tid in s.reqs && s.reqs[tid].pc.Matched?
    case StoreInner(tid) => tid in s.reqs && s.reqs[tid].pc.Viewed? && s.now - s.reqs[tid].pc.stamp.matched <= c.innerLag
    case StoreOuter(tid) => tid in s.reqs && s.reqs[tid].pc.Replied? && s.now - s.reqs[tid].pc.at <= c.outerLag
    case GiveUp(tid) => tid in s.reqs && !s.reqs[tid].pc.Accepted? && !s.reqs[tid].pc.Refused?
  }

  function Learn(s: State, f: Fact): State {
    s.(facts := s.facts + {f})
  }

  function Goto(s: State, tid: Tid, pc: Pc): State
    requires tid in s.reqs
  {
    s.(reqs := s.reqs[tid := s.reqs[tid].(pc := pc)])
  }

  function Apply(c: Config, s: State, a: Action): State
    requires Enabled(c, s, a)
  {
    match a
    case Tick(d) => s.(now := s.now + d)
    case SetTokens(active) => s.(active := active)
    case SetViews(views) => s.(views := views)
    case Begin(tid, key) => s.(reqs := s.reqs[tid := Request(key, s.now, Started)])
    case CheckOuter(tid) =>
      var key := s.reqs[tid].key;
      var hit := Hit(s.outer, c.outer, key, s.now);
      Goto(s, tid, if hit.Some? then Accepted(hit.value, Since(s.outerSince, key), s.now) else Calling)
    case CheckInner(tid) =>
      var key := s.reqs[tid].key;
      var hit := Hit(s.inner, c.inner, key, s.now);
      Goto(s, tid, if key.token.text == "" then Refused(EmptyToken)
                   else if hit.Some? then Replied(hit.value, Since(s.innerSince, key), s.now)
                   else Looking)
    case ReadTokens(tid) =>
      var key := s.reqs[tid].key;
      if key in s.active then Goto(Learn(s, Valid(key, s.now)), tid, Matched(s.now))
      else Goto(Learn(s, Invalid(key, s.now)), tid, Refused(NoMatch(s.now)))
    case ReadView(tid) =>
      var node := s.reqs[tid].key.node;
      if node in s.views
      then Goto(Learn(s, Shows(node, s.views[node], s.now)), tid, Viewed(s.views[node], Stamp(s.reqs[tid].pc.matched, s.now)))
      else Goto(Learn(s, Missing(node, s.now)), tid, Refused(NoNode(s.now)))
    case StoreInner(tid) =>
      var r := s.reqs[tid];
      Goto(s, tid, Replied(r.pc.view, r.pc.stamp, s.now)).(
        inner := Put(s.inner, c.inner, r.key, r.pc.view, s.now),
        innerSince := if c.inner > 0 then s.innerSince[r.key := r.pc.stamp] else s.innerSince)
    case StoreOuter(tid) =>
      var r := s.reqs[tid];
      Goto(s, tid, Accepted(r.pc.view, r.pc.stamp, s.now)).(
        outer := Put(s.outer, c.outer, r.key, r.pc.view, s.now),
        outerSince := if c.outer > 0 then s.outerSince[r.key := r.pc.stamp] else s.outerSince)
    case GiveUp(tid) => Goto(s, tid, Refused(Fault))
  }

  function Since(m: map<CacheKey, Stamp>, key: CacheKey): Stamp {
    if key in m then m[key] else Stamp(0, 0)
  }

  // ---- the invariant ----

  // The oldest an entry can be when it still hits: it expires exactly ttl ticks after it was
  // stored, and a ttl of zero or less stores nothing.
  function Spare(ttl: int): nat {
    if ttl > 0 then ttl - 1 else 0
  }

  // How long ago a token accepted now can have been active.
  function Staleness(c: Config): nat {
    c.innerLag + c.outerLag + Spare(c.inner) + Spare(c.outer)
  }

  // There is a token, and the stamp is backed by facts.
  predicate Backed(s: State, key: CacheKey, view: View, stamp: Stamp) {
    && key.token.text != ""
    && Valid(key, stamp.matched) in s.facts && Shows(key.node, view, stamp.read) in s.facts
    && stamp.matched <= stamp.read
  }

  predicate InnerOk(c: Config, s: State, key: CacheKey) {
    key in s.inner ==>
      var stored := s.inner[key].expires - c.inner;
      && Backed(s, key, s.inner[key].view, Since(s.innerSince, key))
      && Since(s.innerSince, key).read <= stored <= s.now
      && stored - Since(s.innerSince, key).matched <= c.innerLag
  }

  predicate OuterOk(c: Config, s: State, key: CacheKey) {
    key in s.outer ==>
      var stored := s.outer[key].expires - c.outer;
      && Backed(s, key, s.outer[key].view, Since(s.outerSince, key))
      && Since(s.outerSince, key).read <= stored <= s.now
      && stored - Since(s.outerSince, key).matched <= c.innerLag + c.outerLag + Spare(c.inner)
  }

  predicate ReqOk(c: Config, s: State, r: Request) {
    && r.begun <= s.now
    && match r.pc
       case Started | Calling => true
       case Looking => r.key.token.text != ""
       case Matched(m) => r.key.token.text != "" && r.begun <= m <= s.now && Valid(r.key, m) in s.facts
       case Viewed(view, stamp) => Backed(s, r.key, view, stamp) && stamp.read <= s.now
       case Replied(view, stamp, at) =>
         && Backed(s, r.key, view, stamp) && stamp.read <= at <= s.now && r.begun <= at
         && at - stamp.matched <= c.innerLag + Spare(c.inner)
       case Accepted(view, stamp, at) =>
         && Backed(s, r.key, view, stamp) && stamp.read <= at <= s.now && r.begun <= at
         && at - stamp.matched <= Staleness(c)
       case Refused(EmptyToken) => r.key.token.text == ""
       case Refused(NoMatch(at)) => r.begun <= at <= s.now && Invalid(r.key, at) in s.facts
       case Refused(NoNode(at)) => r.begun <= at <= s.now && Missing(r.key.node, at) in s.facts
       case Refused(Fault) => true
  }

  ghost predicate Inv(c: Config, s: State) {
    && (forall key :: InnerOk(c, s, key))
    && (forall key :: OuterOk(c, s, key))
    && forall tid :: tid in s.reqs ==> ReqOk(c, s, s.reqs[tid])
  }

  // Later, with more read, everything that was in order still is.
  predicate Later(s: State, s': State) {
    s.now <= s'.now && s.facts <= s'.facts
  }

  lemma ReqLater(c: Config, s: State, s': State, r: Request)
    requires Later(s, s') && ReqOk(c, s, r)
    ensures ReqOk(c, s', r)
  {}

  lemma InnerLater(c: Config, s: State, s': State, key: CacheKey)
    requires Later(s, s') && InnerOk(c, s, key)
    requires key in s'.inner ==> (key in s.inner && s'.inner[key] == s.inner[key] && Since(s'.innerSince, key) == Since(s.innerSince, key))
    ensures InnerOk(c, s', key)
  {}

  lemma OuterLater(c: Config, s: State, s': State, key: CacheKey)
    requires Later(s, s') && OuterOk(c, s, key)
    requires key in s'.outer ==> (key in s.outer && s'.outer[key] == s.outer[key] && Since(s'.outerSince, key) == Since(s.outerSince, key))
    ensures OuterOk(c, s', key)
  {}

  // A step that moves one request at most and leaves the caches alone.
  lemma MoveKeeps(c: Config, s: State, s': State, moved: set<Tid>)
    requires Inv(c, s) && Later(s, s')
    requires s'.inner == s.inner && s'.innerSince == s.innerSince && s'.outer == s.outer && s'.outerSince == s.outerSince
    requires forall tid :: tid in s'.reqs && tid !in moved ==> tid in s.reqs && s'.reqs[tid] == s.reqs[tid]
    requires forall tid :: tid in s'.reqs && tid in moved ==> ReqOk(c, s', s'.reqs[tid])
    ensures Inv(c, s')
  {
    forall key ensures InnerOk(c, s', key) && OuterOk(c, s', key) {
      InnerLater(c, s, s', key);
      OuterLater(c, s, s', key);
    }
    forall tid | tid in s'.reqs ensures ReqOk(c, s', s'.reqs[tid]) {
      if tid !in moved { ReqLater(c, s, s', s.reqs[tid]); }
    }
  }

  lemma StoreInnerKeeps(c: Config, s: State, tid: Tid)
    requires Inv(c, s) && Enabled(c, s, StoreInner(tid))
    ensures Inv(c, Apply(c, s, StoreInner(tid)))
  {
    var s' := Apply(c, s, StoreInner(tid));
    assert ReqOk(c, s, s.reqs[tid]);
    forall key ensures InnerOk(c, s', key) && OuterOk(c, s', key) {
      OuterLater(c, s, s', key);
      if s.reqs[tid].key != key || c.inner <= 0 { InnerLater(c, s, s', key); }
    }
    forall t | t in s'.reqs && t != tid ensures ReqOk(c, s', s'.reqs[t]) {
      ReqLater(c, s, s', s.reqs[t]);
    }
  }

  lemma StoreOuterKeeps(c: Config, s: State, tid: Tid)
    requires Inv(c, s) && Enabled(c, s, StoreOuter(tid))
    ensures Inv(c, Apply(c, s, StoreOuter(tid)))
  {
    var s' := Apply(c, s, StoreOuter(tid));
    assert ReqOk(c, s, s.reqs[tid]);
    forall key ensures InnerOk(c, s', key) && OuterOk(c, s', key) {
      InnerLater(c, s, s', key);
      if s.reqs[tid].key != key || c.outer <= 0 { OuterLater(c, s, s', key); }
    }
    forall t | t in s'.reqs && t != tid ensures ReqOk(c, s', s'.reqs[t]) {
      ReqLater(c, s, s', s.reqs[t]);
    }
  }

  // A request moves, on facts already known.
  lemma GotoKeeps(c: Config, s: State, tid: Tid, pc: Pc)
    requires Inv(c, s) && tid in s.reqs && ReqOk(c, s, s.reqs[tid].(pc := pc))
    ensures Inv(c, Goto(s, tid, pc))
  {
    MoveKeeps(c, s, Goto(s, tid, pc), {tid});
  }

  lemma LearnKeeps(c: Config, s: State, f: Fact)
    requires Inv(c, s)
    ensures Inv(c, Learn(s, f))
  {
    MoveKeeps(c, s, Learn(s, f), {});
  }

  lemma CheckOuterKeeps(c: Config, s: State, tid: Tid)
    requires Inv(c, s) && Enabled(c, s, CheckOuter(tid))
    ensures Inv(c, Apply(c, s, CheckOuter(tid)))
  {
    var key := s.reqs[tid].key;
    var hit := Hit(s.outer, c.outer, key, s.now);
    assert ReqOk(c, s, s.reqs[tid]) && OuterOk(c, s, key);
    GotoKeeps(c, s, tid, if hit.Some? then Accepted(hit.value, Since(s.outerSince, key), s.now) else Calling);
  }

  lemma CheckInnerKeeps(c: Config, s: State, tid: Tid)
    requires Inv(c, s) && Enabled(c, s, CheckInner(tid))
    ensures Inv(c, Apply(c, s, CheckInner(tid)))
  {
    var key := s.reqs[tid].key;
    var hit := Hit(s.inner, c.inner, key, s.now);
    assert ReqOk(c, s, s.reqs[tid]) && InnerOk(c, s, key);
    GotoKeeps(c, s, tid, if key.token.text == "" then Refused(EmptyToken)
                         else if hit.Some? then Replied(hit.value, Since(s.innerSince, key), s.now)
                         else Looking);
  }

  lemma ReadTokensKeeps(c: Config, s: State, tid: Tid)
    requires Inv(c, s) && Enabled(c, s, ReadTokens(tid))
    ensures Inv(c, Apply(c, s, ReadTokens(tid)))
  {
    var key := s.reqs[tid].key;
    assert ReqOk(c, s, s.reqs[tid]);
    if key in s.active {
      LearnKeeps(c, s, Valid(key, s.now));
      GotoKeeps(c, Learn(s, Valid(key, s.now)), tid, Matched(s.now));
    } else {
      LearnKeeps(c, s, Invalid(key, s.now));
      GotoKeeps(c, Learn(s, Invalid(key, s.now)), tid, Refused(NoMatch(s.now)));
    }
  }

  lemma ReadViewKeeps(c: Config, s: State, tid: Tid)
    requires Inv(c, s) && Enabled(c, s, ReadView(tid))
    ensures Inv(c, Apply(c, s, ReadView(tid)))
  {
    var node := s.reqs[tid].key.node;
    assert ReqOk(c, s, s.reqs[tid]);
    if node in s.views {
      var f := Shows(node, s.views[node], s.now);
      LearnKeeps(c, s, f);
      GotoKeeps(c, Learn(s, f), tid, Viewed(s.views[node], Stamp(s.reqs[tid].pc.matched, s.now)));
    } else {
      LearnKeeps(c, s, Missing(node, s.now));
      GotoKeeps(c, Learn(s, Missing(node, s.now)), tid, Refused(NoNode(s.now)));
    }
  }

  lemma StepKeeps(c: Config, s: State, a: Action)
    requires Inv(c, s) && Enabled(c, s, a)
    ensures Inv(c, Apply(c, s, a))
  {
    match a
    case Tick(_) => MoveKeeps(c, s, Apply(c, s, a), {});
    case SetTokens(_) => MoveKeeps(c, s, Apply(c, s, a), {});
    case SetViews(_) => MoveKeeps(c, s, Apply(c, s, a), {});
    case Begin(tid, _) => MoveKeeps(c, s, Apply(c, s, a), {tid});
    case CheckOuter(tid) => CheckOuterKeeps(c, s, tid);
    case CheckInner(tid) => CheckInnerKeeps(c, s, tid);
    case ReadTokens(tid) => ReadTokensKeeps(c, s, tid);
    case ReadView(tid) => ReadViewKeeps(c, s, tid);
    case StoreInner(tid) => StoreInnerKeeps(c, s, tid);
    case StoreOuter(tid) => StoreOuterKeeps(c, s, tid);
    case GiveUp(tid) => GotoKeeps(c, s, tid, Refused(Fault));
  }
}
