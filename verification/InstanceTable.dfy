/** The instances table and its audit log (instance/repo.go, dbstore/instances.sql.go). */
module InstanceTable {
  import opened Wrappers
  import opened Lifecycle

  datatype Row = Row(
    node: NodeId,
    owner: Option<UserId>,
    gpuCount: int,
    slotIndices: seq<int>,
    state: State,
    ip: Option<string>,
    errorMessage: string)

  // instance_events; from is null for the row's creation.
  datatype Event = Event(inst: InstanceId, from: Option<State>, to: State, reason: string)

  datatype Tables = Tables(rows: map<InstanceId, Row>, events: seq<Event>)

  datatype Input = Input(owner: Option<UserId>, node: NodeId, gpuCount: int, slotIndices: seq<int>)

  datatype Options = Options(reason: string, errorMessage: string, ip: Option<string>, skipIdempotent: bool)

  datatype Outcome = Updated | NotFound | Rejected

  // ---- transactions ----

  function Create(d: Tables, id: InstanceId, in_: Input): Tables {
    Tables(
      d.rows[id := Row(in_.node, in_.owner, in_.gpuCount, in_.slotIndices, Pending, None, "")],
      d.events + [Event(id, None, Pending, "created")])
  }

  // UPDATE ... coalesce($3, error_message), coalesce($4, vm_internal_ip)
  function Touched(r: Row, to: State, opts: Options): Row {
    r.(state := to,
       errorMessage := if opts.errorMessage != "" then opts.errorMessage else r.errorMessage,
       ip := if opts.ip.Some? then opts.ip else r.ip)
  }

  function Verdict(d: Tables, id: InstanceId, to: State, opts: Options): Outcome {
    if id !in d.rows then NotFound
    else if d.rows[id].state == to && opts.skipIdempotent then Rejected
    else if !CanTransition(d.rows[id].state, to) then Rejected
    else Updated
  }

  function Transition(d: Tables, id: InstanceId, to: State, opts: Options): Tables {
    if !Verdict(d, id, to, opts).Updated? then d
    else Tables(
      d.rows[id := Touched(d.rows[id], to, opts)],
      d.events + [Event(id, Some(d.rows[id].state), to, opts.reason)])
  }

  // instance_events.instance_id is ON DELETE CASCADE.
  function Delete(d: Tables, id: InstanceId): Tables {
    Tables(d.rows - {id}, Without(d.events, id))
  }

  function Without(es: seq<Event>, id: InstanceId): seq<Event> {
    if es == [] then []
    else Without(es[..|es| - 1], id) + if es[|es| - 1].inst == id then [] else [es[|es| - 1]]
  }

  // ---- the audit log ----

  function Log(es: seq<Event>, id: InstanceId): seq<Event> {
    if es == [] then []
    else Log(es[..|es| - 1], id) + if es[|es| - 1].inst == id then [es[|es| - 1]] else []
  }

  ghost predicate Chain(h: seq<Event>) {
    && |h| > 0
    && h[0].from == None && h[0].to == Pending
    && forall k :: 0 < k < |h| ==> h[k].from == Some(h[k - 1].to) && CanTransition(h[k - 1].to, h[k].to)
  }

  // What the log must say about one id.
  ghost predicate ReplaysAt(d: Tables, i: InstanceId) {
    var h := Log(d.events, i);
    if i in d.rows then Chain(h) && h[|h| - 1].to == d.rows[i].state else h == []
  }

  /** The log replays to the table: a row's events form a chain from its creation to its
      present state, and an id without a row has no events. */
  ghost predicate Replays(d: Tables) {
    forall i :: ReplaysAt(d, i)
  }

  lemma LogAppend(es: seq<Event>, e: Event, i: InstanceId)
    ensures Log(es + [e], i) == if e.inst == i then Log(es, i) + [e] else Log(es, i)
  {
    assert (es + [e])[..|es|] == es;
  }

  lemma {:induction false} LogWithout(es: seq<Event>, id: InstanceId, i: InstanceId)
    ensures Log(Without(es, id), i) == if i == id then [] else Log(es, i)
  {
    if es != [] {
      var p, e := es[..|es| - 1], es[|es| - 1];
      LogWithout(p, id, i);
      if e.inst != id {
        LogAppend(Without(p, id), e, i);
      } else {
        assert Without(es, id) == Without(p, id);
      }
    }
  }

  lemma ChainAppend(h: seq<Event>, e: Event)
    requires Chain(h) && e.from == Some(h[|h| - 1].to) && CanTransition(h[|h| - 1].to, e.to)
    ensures Chain(h + [e])
  {
    var g := h + [e];
    forall k | 0 < k < |g| ensures g[k].from == Some(g[k - 1].to) && CanTransition(g[k - 1].to, g[k].to) {
      if k < |h| {
        assert g[k] == h[k] && g[k - 1] == h[k - 1];
      }
    }
  }

  lemma ReplaysSame(d: Tables, d': Tables, i: InstanceId)
    requires ReplaysAt(d, i) && Log(d'.events, i) == Log(d.events, i)
    requires if i in d.rows then i in d'.rows && d'.rows[i].state == d.rows[i].state else i !in d'.rows
    ensures ReplaysAt(d', i)
  {}

  lemma ReplaysFirst(d: Tables, e: Event)
    requires Log(d.events, e.inst) == [e] && e.from == None && e.to == Pending
    requires e.inst in d.rows && d.rows[e.inst].state == Pending
    ensures ReplaysAt(d, e.inst)
  {
    assert Chain([e]);
  }

  lemma CreateReplaysAt(d: Tables, id: InstanceId, in_: Input, i: InstanceId)
    requires ReplaysAt(d, i) && id !in d.rows
    ensures ReplaysAt(Create(d, id, in_), i)
  {
    var e := Event(id, None, Pending, "created");
    LogAppend(d.events, e, i);
    if i == id {
      assert Log(d.events, i) + [e] == [e];
      ReplaysFirst(Create(d, id, in_), e);
    } else {
      ReplaysSame(d, Create(d, id, in_), i);
    }
  }

  lemma CreateReplays(d: Tables, id: InstanceId, in_: Input)
    requires Replays(d) && id !in d.rows
    ensures Replays(Create(d, id, in_))
  {
    forall i ensures ReplaysAt(Create(d, id, in_), i) {
      assert ReplaysAt(d, i);
      CreateReplaysAt(d, id, in_, i);
    }
  }

  lemma TransitionReplays(d: Tables, id: InstanceId, to: State, opts: Options)
    requires Replays(d)
    ensures Replays(Transition(d, id, to, opts))
  {
    var d' := Transition(d, id, to, opts);
    if Verdict(d, id, to, opts).Updated? {
      var e := Event(id, Some(d.rows[id].state), to, opts.reason);
      forall i ensures ReplaysAt(d', i) {
        assert ReplaysAt(d, i);
        LogAppend(d.events, e, i);
        if i == id {
          ChainAppend(Log(d.events, id), e);
        }
      }
    }
  }

  lemma DeleteReplays(d: Tables, id: InstanceId)
    requires Replays(d)
    ensures Replays(Delete(d, id))
  {
    forall i ensures ReplaysAt(Delete(d, id), i) {
      assert ReplaysAt(d, i);
      LogWithout(d.events, id, i);
    }
  }

  // The states a log visits, oldest first.
  function Visited(l: seq<Event>): (h: seq<State>)
    ensures |h| == |l| && forall k :: 0 <= k < |l| ==> h[k] == l[k].to
  {
    seq(|l|, k requires 0 <= k < |l| => l[k].to)
  }

  /** What the log says about a row: read as a history it is legal, it starts at pending,
      ends at the row's state, and holds at most four real changes. */
  lemma AuditBound(d: Tables, id: InstanceId)
    requires Replays(d) && id in d.rows
    ensures var h := Visited(Log(d.events, id));
            && h != [] && h[0] == Pending && h[|h| - 1] == d.rows[id].state
            && Legal(h) && Changes(h) <= Rank(d.rows[id].state)
            && Changes(h) <= 4
  {
    assert ReplaysAt(d, id);
    AtMostFourChanges(Visited(Log(d.events, id)));
  }

  // ---- how a row may evolve ----

  /** What no step undoes: progress, finality, a recorded address, a recorded error, and
      the columns fixed at creation. */
  ghost predicate Evolves(r: Row, r': Row) {
    && Rank(r.state) <= Rank(r'.state)
    && (IsTerminal(r.state) ==> r'.state == r.state)
    && (r.ip.Some? ==> r'.ip.Some?)
    && (r.errorMessage != "" ==> r'.errorMessage != "")
    && r'.node == r.node && r'.owner == r.owner
    && r'.gpuCount == r.gpuCount && r'.slotIndices == r.slotIndices
  }

  /** One transition evolves exactly one row and appends exactly one event, or does
      nothing; it is rejected exactly when the machine forbids the step (or the retry). */
  lemma TransitionEvolves(d: Tables, id: InstanceId, to: State, opts: Options)
    ensures var d' := Transition(d, id, to, opts);
            && d'.rows.Keys == d.rows.Keys
            && (forall i :: i in d.rows ==> Evolves(d.rows[i], d'.rows[i]))
            && (forall i :: i in d.rows && i != id ==> d'.rows[i] == d.rows[i])
            && (Verdict(d, id, to, opts).Updated? ==> d'.rows[id].state == to && |d'.events| == |d.events| + 1)
            && (!Verdict(d, id, to, opts).Updated? ==> d' == d)
  {
    if id in d.rows {
      StepsClimb(d.rows[id].state, to);
    }
  }
}
