/** muxregistry/registry.go: one live yamux session per node. Register, Deregister and Close
    calls and one health watcher per entry run concurrently; every critical section, cancel,
    session close, wait and channel close is one step. */
module MuxRegistry {

  type Node = string

  // A watcher's life. Exited means its done channel is closed.
  datatype Watch =
    | Unstarted       // Register has inserted the entry but not yet run `go watchHealth`
    | Watching
    | Dying           // ping failed or session closed: about to lock in handleDeath
    | Burying         // handleDeath has left the lock: about to close the session
    | Reporting       // about to report the node degraded
    | Exiting         // about to close(done)
    | Exited

  datatype Remover = Nobody | ByCall(c: nat) | ByWatcher

  // cancelled: its context. removedBy is history: who took it out of the map.
  datatype Entry = Entry(node: Node, registrar: nat, sessionClosed: bool, cancelled: bool, watch: Watch, removedBy: Remover)

  datatype Call =
    // Register
    | Registering(node: Node)          // about to lock
    | Rejecting                        // registry closed: about to close the offered session
    | CancelPrev(e: nat, prev: nat)
    | ClosePrev(e: nat, prev: nat)
    | AwaitPrev(e: nat, prev: nat)     // blocked on <-prev.done
    | Spawning(e: nat)                 // about to `go watchHealth`
    // Deregister
    | Deregistering(node: Node)
    | CancelGone(e: nat)
    | CloseGone(e: nat)
    // Close
    | Shutting
    | SweepCancel(todo: seq<nat>, all: seq<nat>)   // about to cancel todo[0]
    | SweepClose(todo: seq<nat>, all: seq<nat>)    // about to close todo[0]'s session
    | Draining(rest: seq<nat>)                     // waiting for rest[0].done
    | Returned

  datatype Registry = Registry(entries: seq<Entry>, sessions: map<Node, nat>, closed: bool, calls: seq<Call>)

  datatype Action =
    | Invoke(call: Call)             // a new Register, Deregister or Close call
    | Advance(c: nat)                // the next step of call c
    | Shut(c: nat, all: seq<nat>)    // Close's locked region; all is the order the map was walked in
    | Cancelled(e: nat)              // watcher e sees ctx.Done()
    | Unhealthy(e: nat)              // watcher e sees a closed session, a ping error or a timeout
    | Bury(e: nat)                   // the next step of watcher e's handleDeath, or its exit
    | PeerDrop(e: nat)               // the peer drops the connection

  // ---- the object, one method per critical section ----

  // The entries in the map.
  function Listed(sessions: map<Node, nat>): set<nat> {
    set n | n in sessions :: sessions[n]
  }

  // The locked region of Register, of Deregister and of handleDeath, as they change the map.
  function Enlist(closed: bool, sessions: map<Node, nat>, node: Node, e: nat): map<Node, nat> {
    if closed then sessions else sessions[node := e]
  }

  function Delist(sessions: map<Node, nat>, node: Node): map<Node, nat> {
    sessions - {node}
  }

  function Unlist(sessions: map<Node, nat>, node: Node, e: nat): map<Node, nat> {
    if node in sessions && sessions[node] == e then sessions - {node} else sessions
  }

  class Sessions {
    var sessions: map<Node, nat>
    var closed: bool

    constructor ()
      ensures sessions == map[] && !closed
    {
      sessions, closed := map[], false;
    }

    // Register: e is the new entry's identity.
    method Insert(node: Node, e: nat) returns (ok: bool, prev: int)
      modifies this`sessions
      ensures ok <==> !closed
      ensures prev == if !closed && node in old(sessions) then old(sessions)[node] else -1
      ensures sessions == Enlist(closed, old(sessions), node, e)
      ensures sessions == if closed then old(sessions) else old(sessions)[node := e]
    {
      if closed { return false, -1; }
      prev := if node in sessions then sessions[node] else -1;
      sessions := sessions[node := e];
      ok := true;
    }

    // Deregister
    method Take(node: Node) returns (e: int)
      modifies this`sessions
      ensures e == if node in old(sessions) then old(sessions)[node] else -1
      ensures sessions == Delist(old(sessions), node)
      ensures sessions.Keys == old(sessions).Keys - {node} && forall n :: n in sessions ==> sessions[n] == old(sessions)[n]
    {
      e := -1;
      if node in sessions {
        e := sessions[node];
        sessions := sessions - {node};
      }
    }

    // handleDeath: only the entry itself may remove itself.
    method TakeIf(node: Node, e: nat) returns (taken: bool)
      modifies this`sessions
      ensures taken <==> node in old(sessions) && old(sessions)[node] == e
      ensures sessions == Unlist(old(sessions), node, e)
      ensures !taken ==> sessions == old(sessions)
      ensures taken ==> sessions.Keys == old(sessions).Keys - {node} && forall n :: n in sessions ==> sessions[n] == old(sessions)[n]
    {
      taken := node in sessions && sessions[node] == e;
      if taken {
        sessions := sessions - {node};
      }
    }

    // Close
    method TakeAll() returns (all: seq<nat>)
      requires forall n, m :: n in sessions && m in sessions && n != m ==> sessions[n] != sessions[m]
      modifies this
      ensures closed && sessions == map[]
      ensures IsListing(all, old(sessions))
    {
      closed := true;
      all := [];
      var todo := sessions.Keys;
      while todo != {}
        invariant todo <= sessions.Keys
        invariant IsListing(all, map n | n in sessions && n !in todo :: sessions[n])
        invariant closed && sessions == old(sessions)
        decreases todo
      {
        var n :| n in todo;
        ghost var seen := map m | m in sessions && m !in todo :: sessions[m];
        todo := todo - {n};
        all := all + [sessions[n]];
        assert (map m | m in sessions && m !in todo :: sessions[m]) == seen[n := sessions[n]];
        ListingGrows(all[..|all| - 1], seen, n, sessions[n]);
      }
      assert sessions == map n | n in sessions && n !in todo :: sessions[n];
      sessions := map[];
    }
  }

  // all lists the map's entries, each once, in some order.
  ghost predicate IsListing(all: seq<nat>, sessions: map<Node, nat>) {
    && (forall j, k :: 0 <= j < k < |all| ==> all[j] != all[k])
    && forall e :: e in all <==> e in Listed(sessions)
  }

  lemma ListingGrows(all: seq<nat>, sessions: map<Node, nat>, n: Node, e: nat)
    requires IsListing(all, sessions) && n !in sessions
    requires forall m :: m in sessions ==> sessions[m] != e
    ensures IsListing(all + [e], sessions[n := e])
  {
    var more := sessions[n := e];
    var longer := all + [e];
    assert e !in Listed(sessions);
    forall x ensures x in longer <==> x in all || x == e {
      if x in all {
        var k :| 0 <= k < |all| && all[k] == x;
        assert longer[k] == x;
      }
      assert longer[|all|] == e;
    }
    forall x ensures x in Listed(more) <==> x in Listed(sessions) || x == e {
      if x in Listed(sessions) {
        var m :| m in sessions && sessions[m] == x;
        assert m in more && more[m] == x;
      }
      assert more[n] == e;
    }
  }

  // ---- steps ----

  predicate IsStart(c: Call) {
    c.Registering? || c.Deregistering? || c.Shutting?
  }

  // Blocked on a channel that is still open.
  predicate Blocked(r: Registry, c: Call) {
    match c
    case AwaitPrev(_, prev) => prev < |r.entries| && !r.entries[prev].watch.Exited?
    case Draining(rest) => rest != [] && rest[0] < |r.entries| && !r.entries[rest[0]].watch.Exited?
    case _ => false
  }

  // The entries a step looks at exist; always so in a reachable state.
  predicate Named(r: Registry, c: Call) {
    match c
    case Registering(n) => n in r.sessions ==> r.sessions[n] < |r.entries|
    case Rejecting => true
    case CancelPrev(_, prev) => prev < |r.entries|
    case ClosePrev(_, prev) => prev < |r.entries|
    case AwaitPrev(_, prev) => prev < |r.entries|
    case Spawning(e) => e < |r.entries|
    case Deregistering(n) => n in r.sessions ==> r.sessions[n] < |r.entries|
    case CancelGone(e) => e < |r.entries|
    case CloseGone(e) => e < |r.entries|
    case Shutting => false
    case SweepCancel(todo, _) => todo != [] && todo[0] < |r.entries|
    case SweepClose(todo, _) => todo != [] && todo[0] < |r.entries|
    case Draining(rest) => rest != []
    case Returned => false
  }

  ghost predicate Enabled(r: Registry, x: Action) {
    match x
    case Invoke(call) => IsStart(call)
    case Advance(c) => c < |r.calls| && Named(r, r.calls[c]) && !Blocked(r, r.calls[c])
    case Shut(c, all) => c < |r.calls| && r.calls[c].Shutting? && IsListing(all, r.sessions)
    case Cancelled(e) => e < |r.entries| && r.entries[e].watch.Watching? && r.entries[e].cancelled
    case Unhealthy(e) => e < |r.entries| && r.entries[e].watch.Watching?
    case Bury(e) =>
      e < |r.entries| && (r.entries[e].watch.Dying? || r.entries[e].watch.Burying? || r.entries[e].watch.Reporting? || r.entries[e].watch.Exiting?)
    case PeerDrop(e) => e < |r.entries| && !r.entries[e].sessionClosed
  }

  function Set(r: Registry, e: nat, x: Entry): Registry
    requires e < |r.entries|
  {
    r.(entries := r.entries[e := x])
  }

  function Cancel(r: Registry, e: nat): Registry
    requires e < |r.entries|
  {
    Set(r, e, r.entries[e].(cancelled := true))
  }

  function CloseSession(r: Registry, e: nat): Registry
    requires e < |r.entries|
  {
    Set(r, e, r.entries[e].(sessionClosed := true))
  }

  function Mark(r: Registry, e: nat, remover: Remover): Registry
    requires e < |r.entries|
  {
    Set(r, e, r.entries[e].(removedBy := remover))
  }

  function MarkAll(entries: seq<Entry>, gone: seq<nat>, remover: Remover): (out: seq<Entry>)
    ensures |out| == |entries|
    ensures forall e :: 0 <= e < |entries| ==> out[e] == if e in gone then entries[e].(removedBy := remover) else entries[e]
  {
    seq(|entries|, e requires 0 <= e < |entries| => if e in gone then entries[e].(removedBy := remover) else entries[e])
  }

  function Goto(r: Registry, c: nat, call: Call): Registry
    requires c < |r.calls|
  {
    r.(calls := r.calls[c := call])
  }

  function NextSweep(todo: seq<nat>, all: seq<nat>): Call {
    if todo != [] then SweepCancel(todo, all) else NextDrain(all)
  }

  function NextDrain(rest: seq<nat>): Call {
    if rest != [] then Draining(rest) else Returned
  }

  // The locked region of Register for call c: the entry e is the newest one.
  function Admit(r: Registry, c: nat, n: Node): Registry
    requires c < |r.calls| && (n in r.sessions ==> r.sessions[n] < |r.entries|)
  {
    var e := |r.entries|;
    var r' := r.(sessions := Enlist(r.closed, r.sessions, n, e));
    var born := [Entry(n, c, false, false, Unstarted, Nobody)];
    if n in r.sessions then
      var prev := r.sessions[n];
      Goto(r'.(entries := Mark(r, prev, ByCall(c)).entries + born), c, CancelPrev(e, prev))
    else Goto(r'.(entries := r.entries + born), c, Spawning(e))
  }

  function Advanced(r: Registry, c: nat): Registry
    requires c < |r.calls| && Named(r, r.calls[c])
  {
    match r.calls[c]
    case Registering(n) => if r.closed then Goto(r, c, Rejecting) else Admit(r, c, n)
    case Rejecting => Goto(r, c, Returned)
    case CancelPrev(e, prev) => Goto(Cancel(r, prev), c, ClosePrev(e, prev))
    case ClosePrev(e, prev) => Goto(CloseSession(r, prev), c, AwaitPrev(e, prev))
    case AwaitPrev(e, prev) => Goto(r, c, Spawning(e))
    case Spawning(e) => Goto(Set(r, e, r.entries[e].(watch := Watching)), c, Returned)
    case Deregistering(n) =>
      if n in r.sessions
      then Goto(Mark(r, r.sessions[n], ByCall(c)), c, CancelGone(r.sessions[n])).(sessions := Delist(r.sessions, n))
      else Goto(r, c, Returned)
    case CancelGone(e) => Goto(Cancel(r, e), c, CloseGone(e))
    case CloseGone(e) => Goto(CloseSession(r, e), c, Returned)
    case SweepCancel(todo, all) => Goto(Cancel(r, todo[0]), c, SweepClose(todo, all))
    case SweepClose(todo, all) => Goto(CloseSession(r, todo[0]), c, NextSweep(todo[1..], all))
    case Draining(rest) => Goto(r, c, NextDrain(rest[1..]))
  }

  // handleDeath and the exit of a watcher.
  function Buried(r: Registry, e: nat): Registry
    requires e < |r.entries|
  {
    var x := r.entries[e];
    match x.watch
    case Dying =>
      if x.node in r.sessions && r.sessions[x.node] == e
      then Set(r, e, x.(watch := Burying, removedBy := ByWatcher)).(sessions := Unlist(r.sessions, x.node, e))
      else Set(r, e, x.(watch := Burying))
    case Burying => Set(r, e, x.(watch := Reporting, sessionClosed := true))
    case Reporting => Set(r, e, x.(watch := Exiting))
    case _ => Set(r, e, x.(watch := Exited))
  }

  ghost function Apply(r: Registry, x: Action): Registry
    requires Enabled(r, x)
  {
    match x
    case Invoke(call) => r.(calls := r.calls + [call])
    case Advance(c) => Advanced(r, c)
    case Shut(c, all) =>
      Goto(r, c, NextSweep(all, all)).(entries := MarkAll(r.entries, all, ByCall(c)), sessions := map[], closed := true)
    case Cancelled(e) => Set(r, e, r.entries[e].(watch := Exiting))
    case Unhealthy(e) => Set(r, e, r.entries[e].(watch := Dying))
    case Bury(e) => Buried(r, e)
    case PeerDrop(e) => CloseSession(r, e)
  }

  // ---- the invariant ----

  predicate Current(r: Registry, e: nat)
    requires e < |r.entries|
  {
    r.entries[e].node in r.sessions && r.sessions[r.entries[e].node] == e
  }

  // The call still has to close e's session.
  predicate Owes(c: Call, e: nat) {
    match c
    case CancelPrev(_, prev) => prev == e
    case ClosePrev(_, prev) => prev == e
    case CancelGone(g) => g == e
    case CloseGone(g) => g == e
    case SweepCancel(todo, _) => e in todo
    case SweepClose(todo, _) => e in todo
    case _ => false
  }

  // The call is a Register that has inserted e and not yet started its watcher.
  predicate Raising(c: Call, e: nat) {
    match c
    case CancelPrev(own, _) => own == e
    case ClosePrev(own, _) => own == e
    case AwaitPrev(own, _) => own == e
    case Spawning(own) => own == e
    case _ => false
  }

  ghost predicate EntryOk(r: Registry, e: nat)
    requires e < |r.entries|
  {
    var x := r.entries[e];
    && (x.removedBy.Nobody? <==> Current(r, e))
    && (Current(r, e) ==> !x.cancelled && (x.watch.Unstarted? || x.watch.Watching? || x.watch.Dying?))
    && x.registrar < |r.calls|
    && (x.watch.Unstarted? ==> Raising(r.calls[x.registrar], e))
    && (x.removedBy.ByCall? ==> x.removedBy.c < |r.calls| && (x.sessionClosed || Owes(r.calls[x.removedBy.c], e)))
    && (x.removedBy.ByWatcher? ==> x.watch.Burying? || (x.sessionClosed && (x.watch.Reporting? || x.watch.Exiting? || x.watch.Exited?)))
  }

  ghost predicate CallOk(r: Registry, c: nat)
    requires c < |r.calls|
  {
    var k := r.calls[c];
    && (forall e: nat :: Raising(k, e) ==> e < |r.entries| && r.entries[e].registrar == c && r.entries[e].watch.Unstarted?)
    && (forall e: nat :: Owes(k, e) ==> e < |r.entries| && r.entries[e].removedBy == ByCall(c))
    && (match k
        case CancelPrev(e, prev) => prev < e
        case ClosePrev(e, prev) => prev < e < |r.entries| && r.entries[prev].cancelled
        case AwaitPrev(e, prev) => prev < e < |r.entries| && r.entries[prev].cancelled
        case SweepCancel(todo, all) => todo != [] && forall e :: e in all ==> e < |r.entries| && (e in todo || r.entries[e].cancelled)
        case SweepClose(todo, all) => todo != [] && forall e :: e in all ==> e < |r.entries| && (e in todo[1..] || r.entries[e].cancelled)
        case Draining(rest) => rest != [] && forall e :: e in rest ==> e < |r.entries| && r.entries[e].cancelled
        case _ => true)
  }

  ghost predicate Inv(r: Registry) {
    && (forall n :: n in r.sessions ==> r.sessions[n] < |r.entries| && r.entries[r.sessions[n]].node == n)
    && (r.closed ==> r.sessions == map[])
    && (forall e :: 0 <= e < |r.entries| ==> EntryOk(r, e))
    && (forall c :: 0 <= c < |r.calls| ==> CallOk(r, c))
  }

  // ---- every step keeps it ----

  lemma InvokeKeeps(r: Registry, x: Action)
    requires Inv(r) && Enabled(r, x) && x.Invoke?
    ensures Inv(Apply(r, x))
  {
    var s := Apply(r, x);
    forall e | 0 <= e < |s.entries| ensures EntryOk(s, e) {
      assert EntryOk(r, e);
    }
    forall c | 0 <= c < |s.calls| ensures CallOk(s, c) {
      if c < |r.calls| {
        assert CallOk(r, c);
      }
    }
  }

  // What a step may do to the entries a waiting call cares about.
  ghost predicate Spares(r: Registry, s: Registry, c: nat)
    requires c < |r.calls|
  {
    && c < |s.calls| && s.calls[c] == r.calls[c] && |r.entries| <= |s.entries|
    && forall e :: 0 <= e < |r.entries| ==>
         && s.entries[e].registrar == r.entries[e].registrar
         && (r.entries[e].cancelled ==> s.entries[e].cancelled)
         && (Raising(r.calls[c], e) ==> s.entries[e].watch == r.entries[e].watch)
         && (Owes(r.calls[c], e) ==> s.entries[e].removedBy == r.entries[e].removedBy)
  }

  lemma OtherCall(r: Registry, s: Registry, c: nat)
    requires c < |r.calls| && CallOk(r, c) && Spares(r, s, c)
    ensures CallOk(s, c)
  {
  }

  lemma WatcherKeepsEntry(r: Registry, x: Action, e: nat)
    requires Inv(r) && Enabled(r, x) && (x.Cancelled? || x.Unhealthy? || x.Bury? || x.PeerDrop?) && e < |r.entries|
    ensures EntryOk(Apply(r, x), e)
  {
    assert EntryOk(r, x.e) && EntryOk(r, e);
    if e != x.e {
      assert Apply(r, x).entries[e] == r.entries[e];
    }
  }

  lemma WatcherKeepsEntries(r: Registry, x: Action)
    requires Inv(r) && Enabled(r, x) && (x.Cancelled? || x.Unhealthy? || x.Bury? || x.PeerDrop?)
    ensures forall e :: 0 <= e < |r.entries| ==> EntryOk(Apply(r, x), e)
  {
    forall e | 0 <= e < |r.entries| ensures EntryOk(Apply(r, x), e) {
      WatcherKeepsEntry(r, x, e);
    }
  }

  lemma WatcherKeeps(r: Registry, x: Action)
    requires Inv(r) && Enabled(r, x) && (x.Cancelled? || x.Unhealthy? || x.Bury? || x.PeerDrop?)
    ensures Inv(Apply(r, x))
  {
    var s := Apply(r, x);
    WatcherKeepsEntries(r, x);
    assert EntryOk(r, x.e);
    forall c | 0 <= c < |s.calls| ensures CallOk(s, c) {
      assert CallOk(r, c);
      OtherCall(r, s, c);
    }
  }

  lemma ShutKeeps(r: Registry, x: Action)
    requires Inv(r) && Enabled(r, x) && x.Shut?
    ensures Inv(Apply(r, x))
  {
    var s := Apply(r, x);
    assert CallOk(r, x.c);
    forall e | 0 <= e < |r.entries| ensures e in x.all <==> Current(r, e) {
      assert EntryOk(r, e);
      if e in Listed(r.sessions) {
        var n :| n in r.sessions && r.sessions[n] == e;
      }
      if Current(r, e) {
        assert r.sessions[r.entries[e].node] == e;
      }
    }
    forall e | e in x.all ensures e < |r.entries| {
      var n :| n in r.sessions && r.sessions[n] == e;
    }
    ShutKeepsEntries(r, x);
    ShutKeepsCalls(r, x);
  }

  // Close owes a close to each entry it took; the others were out of the map already.
  lemma ShutKeepsEntry(r: Registry, c: nat, all: seq<nat>, e: nat)
    requires Inv(r) && Enabled(r, Shut(c, all)) && e < |r.entries| && (e in all <==> Current(r, e))
    ensures EntryOk(Apply(r, Shut(c, all)), e)
  {
    assert CallOk(r, c) && EntryOk(r, e);
    var s := Apply(r, Shut(c, all));
    if e in all {
      assert s.entries[e] == r.entries[e].(removedBy := ByCall(c)) && Owes(s.calls[c], e);
    } else {
      assert s.entries[e] == r.entries[e];
    }
  }

  lemma ShutKeepsEntries(r: Registry, x: Action)
    requires Inv(r) && Enabled(r, x) && x.Shut?
    requires forall e :: 0 <= e < |r.entries| ==> (e in x.all <==> Current(r, e))
    ensures forall e :: 0 <= e < |r.entries| ==> EntryOk(Apply(r, x), e)
  {
    forall e | 0 <= e < |r.entries| ensures EntryOk(Apply(r, x), e) {
      ShutKeepsEntry(r, x.c, x.all, e);
    }
  }

  lemma ShutKeepsCalls(r: Registry, x: Action)
    requires Inv(r) && Enabled(r, x) && x.Shut?
    requires forall e :: 0 <= e < |r.entries| ==> (e in x.all <==> Current(r, e))
    requires forall e :: e in x.all ==> e < |r.entries|
    ensures forall c :: 0 <= c < |r.calls| ==> CallOk(Apply(r, x), c)
  {
    var s := Apply(r, x);
    forall c | 0 <= c < |s.calls| ensures CallOk(s, c) {
      assert CallOk(r, c);
      forall e: nat | Owes(r.calls[c], e) ensures e !in x.all {
        assert EntryOk(r, e);
      }
    }
  }

  // Register's locked region.
  lemma AdmitKeepsEntries(r: Registry, x: Action)
    requires Inv(r) && Enabled(r, x) && x.Advance? && r.calls[x.c].Registering?
    ensures forall e :: 0 <= e < |Apply(r, x).entries| ==> EntryOk(Apply(r, x), e)
  {
    var s := Apply(r, x);
    var n := r.calls[x.c].node;
    assert CallOk(r, x.c);
    if n in r.sessions {
      assert EntryOk(r, r.sessions[n]);
    }
    forall e | 0 <= e < |s.entries| ensures EntryOk(s, e) {
      if e < |r.entries| {
        assert EntryOk(r, e);
      }
    }
  }

  lemma AdmitKeeps(r: Registry, x: Action)
    requires Inv(r) && Enabled(r, x) && x.Advance? && r.calls[x.c].Registering?
    ensures Inv(Apply(r, x))
  {
    var s := Apply(r, x);
    var n := r.calls[x.c].node;
    AdmitKeepsEntries(r, x);
    assert CallOk(r, x.c);
    if n in r.sessions {
      assert EntryOk(r, r.sessions[n]);
    }
    forall c | 0 <= c < |s.calls| ensures CallOk(s, c) {
      assert CallOk(r, c);
      if c != x.c {
        OtherCall(r, s, c);
      }
    }
  }

  lemma DeregisterKeepsEntry(r: Registry, c: nat, e: nat)
    requires Inv(r) && Enabled(r, Advance(c)) && r.calls[c].Deregistering? && e < |r.entries|
    ensures EntryOk(Apply(r, Advance(c)), e)
  {
    var n := r.calls[c].node;
    assert EntryOk(r, e) && CallOk(r, c);
    if n in r.sessions {
      assert EntryOk(r, r.sessions[n]);
    }
  }

  lemma DeregisterKeeps(r: Registry, c: nat)
    requires Inv(r) && Enabled(r, Advance(c)) && r.calls[c].Deregistering?
    ensures Inv(Apply(r, Advance(c)))
  {
    var s := Apply(r, Advance(c));
    var n := r.calls[c].node;
    assert CallOk(r, c);
    if n in r.sessions {
      assert EntryOk(r, r.sessions[n]);
    }
    forall e | 0 <= e < |s.entries| ensures EntryOk(s, e) {
      DeregisterKeepsEntry(r, c, e);
    }
    forall d | 0 <= d < |s.calls| ensures CallOk(s, d) {
      assert CallOk(r, d);
      if d != c {
        OtherCall(r, s, d);
      }
    }
  }

  // A call moves on without touching an entry or the map, and without dropping what it owes.
  lemma GotoKeeps(r: Registry, c: nat, call: Call)
    requires Inv(r) && c < |r.calls| && CallOk(Goto(r, c, call), c)
    requires forall e: nat :: Raising(r.calls[c], e) ==> Raising(call, e)
    requires forall e: nat :: Owes(r.calls[c], e) ==> Owes(call, e)
    ensures Inv(Goto(r, c, call))
  {
    var s := Goto(r, c, call);
    forall e | 0 <= e < |s.entries| ensures EntryOk(s, e) {
      assert EntryOk(r, e);
    }
    forall d | 0 <= d < |s.calls| ensures CallOk(s, d) {
      if d != c { assert CallOk(r, d); }
    }
  }

  // A call cancels an entry it has removed, and still owes the close.
  lemma CancelGotoKeeps(r: Registry, e: nat, c: nat, call: Call)
    requires Inv(r) && c < |r.calls| && e < |r.entries| && r.entries[e].removedBy == ByCall(c)
    requires CallOk(Goto(Cancel(r, e), c, call), c)
    requires forall g: nat :: Raising(r.calls[c], g) ==> Raising(call, g)
    requires forall g: nat :: Owes(r.calls[c], g) ==> Owes(call, g)
    ensures Inv(Goto(Cancel(r, e), c, call))
  {
    var s := Goto(Cancel(r, e), c, call);
    forall g | 0 <= g < |s.entries| ensures EntryOk(s, g) {
      assert EntryOk(r, g);
    }
    forall d | 0 <= d < |s.calls| && d != c ensures CallOk(s, d) {
      assert CallOk(r, d);
      OtherCall(r, s, d);
    }
  }

  // A call closes the session of an entry, and owes that close no more.
  lemma CloseGotoKeeps(r: Registry, e: nat, c: nat, call: Call)
    requires Inv(r) && c < |r.calls| && e < |r.entries|
    requires CallOk(Goto(CloseSession(r, e), c, call), c)
    requires forall g: nat :: Raising(r.calls[c], g) ==> Raising(call, g)
    requires forall g: nat :: Owes(r.calls[c], g) && g != e ==> Owes(call, g)
    ensures Inv(Goto(CloseSession(r, e), c, call))
  {
    var s := Goto(CloseSession(r, e), c, call);
    forall g | 0 <= g < |s.entries| ensures EntryOk(s, g) {
      assert EntryOk(r, g);
    }
    forall d | 0 <= d < |s.calls| && d != c ensures CallOk(s, d) {
      assert CallOk(r, d);
      OtherCall(r, s, d);
    }
  }

  // Register with the entry it has replaced, Deregister with the one it took.
  lemma PrevKeeps(r: Registry, c: nat)
    requires Inv(r) && Enabled(r, Advance(c)) && (r.calls[c].CancelPrev? || r.calls[c].ClosePrev?)
    ensures Inv(Apply(r, Advance(c)))
  {
    assert CallOk(r, c);
    var k := r.calls[c];
    assert Owes(k, k.prev) && Raising(k, k.e);
    match k
    case CancelPrev(e, prev) => CancelGotoKeeps(r, prev, c, ClosePrev(e, prev));
    case ClosePrev(e, prev) => CloseGotoKeeps(r, prev, c, AwaitPrev(e, prev));
  }

  lemma GoneKeeps(r: Registry, c: nat)
    requires Inv(r) && Enabled(r, Advance(c)) && (r.calls[c].CancelGone? || r.calls[c].CloseGone?)
    ensures Inv(Apply(r, Advance(c)))
  {
    assert CallOk(r, c);
    assert Owes(r.calls[c], r.calls[c].e);
    match r.calls[c]
    case CancelGone(e) => CancelGotoKeeps(r, e, c, CloseGone(e));
    case CloseGone(e) => CloseGotoKeeps(r, e, c, Returned);
  }

  lemma InTail(xs: seq<nat>)
    requires xs != []
    ensures forall x :: x in xs <==> x == xs[0] || x in xs[1..]
  {
    assert xs == [xs[0]] + xs[1..];
  }

  // Close with the entries it took.
  lemma SweepKeeps(r: Registry, c: nat)
    requires Inv(r) && Enabled(r, Advance(c)) && (r.calls[c].SweepCancel? || r.calls[c].SweepClose?)
    ensures Inv(Apply(r, Advance(c)))
  {
    assert CallOk(r, c);
    var todo, all := r.calls[c].todo, r.calls[c].all;
    InTail(todo);
    assert Owes(r.calls[c], todo[0]);
    if r.calls[c].SweepCancel? {
      forall g: nat | Owes(SweepClose(todo, all), g) ensures Owes(r.calls[c], g) {}
      CancelGotoKeeps(r, todo[0], c, SweepClose(todo, all));
    } else {
      forall g: nat | Owes(NextSweep(todo[1..], all), g) ensures Owes(r.calls[c], g) {}
      CloseGotoKeeps(r, todo[0], c, NextSweep(todo[1..], all));
    }
  }

  lemma WaitKeeps(r: Registry, c: nat)
    requires Inv(r) && Enabled(r, Advance(c)) && (r.calls[c].Rejecting? || r.calls[c].AwaitPrev? || r.calls[c].Draining?)
    ensures Inv(Apply(r, Advance(c)))
  {
    assert CallOk(r, c);
    match r.calls[c]
    case Rejecting => GotoKeeps(r, c, Returned);
    case AwaitPrev(e, _) => GotoKeeps(r, c, Spawning(e));
    case Draining(rest) =>
      InTail(rest);
      GotoKeeps(r, c, NextDrain(rest[1..]));
  }

  // `go watchHealth`
  lemma SpawnKeeps(r: Registry, c: nat)
    requires Inv(r) && Enabled(r, Advance(c)) && r.calls[c].Spawning?
    ensures Inv(Apply(r, Advance(c)))
  {
    var s := Apply(r, Advance(c));
    assert CallOk(r, c);
    forall e | 0 <= e < |s.entries| ensures EntryOk(s, e) {
      assert EntryOk(r, e);
    }
    forall d | 0 <= d < |s.calls| ensures CallOk(s, d) {
      if d != c {
        assert CallOk(r, d);
        OtherCall(r, s, d);
      }
    }
  }

  /** Every step keeps the invariant. */
  lemma StepKeeps(r: Registry, x: Action)
    requires Inv(r) && Enabled(r, x)
    ensures Inv(Apply(r, x))
  {
    match x
    case Invoke(_) => InvokeKeeps(r, x);
    case Shut(_, _) => ShutKeeps(r, x);
    case Advance(c) =>
      match r.calls[c] {
       case Registering(_) => AdmitKeeps(r, x);
       case Deregistering(_) => DeregisterKeeps(r, c);
       case SweepCancel(_, _) => SweepKeeps(r, c);
       case SweepClose(_, _) => SweepKeeps(r, c);
       case Rejecting => WaitKeeps(r, c);
       case AwaitPrev(_, _) => WaitKeeps(r, c);
       case Spawning(_) => SpawnKeeps(r, c);
       case Draining(_) => WaitKeeps(r, c);
       case CancelPrev(_, _) => PrevKeeps(r, c);
       case ClosePrev(_, _) => PrevKeeps(r, c);
       case CancelGone(_) => GoneKeeps(r, c);
       case CloseGone(_) => GoneKeeps(r, c);
      }
    case _ => WatcherKeeps(r, x);
  }
}
