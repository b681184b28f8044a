/** What holds of every run of the mux registry. */
module MuxRegistryRuns {
  import opened Wrappers
  import opened MuxRegistry

  const INIT := Registry([], map[], false, [])

  ghost predicate Step(r: Registry, x: Action, s: Registry) {
    Enabled(r, x) && s == Apply(r, x)
  }

  ghost predicate Run(rs: seq<Registry>, acts: seq<Action>) {
    && |rs| == |acts| + 1
    && forall k :: 0 <= k < |acts| ==> Step(rs[k], acts[k], rs[k + 1])
  }

  ghost predicate Reaches(rs: seq<Registry>, acts: seq<Action>, r: Registry) {
    Run(rs, acts) && rs[0] == INIT && rs[|acts|] == r
  }

  ghost predicate Reachable(r: Registry) {
    exists rs, acts :: Reaches(rs, acts, r)
  }

  lemma {:induction false} RunKeeps(rs: seq<Registry>, acts: seq<Action>, k: nat)
    requires Run(rs, acts) && Inv(rs[0]) && k < |rs|
    ensures Inv(rs[k])
  {
    if k > 0 {
      RunKeeps(rs, acts, k - 1);
      assert Step(rs[k - 1], acts[k - 1], rs[k]);
      StepKeeps(rs[k - 1], acts[k - 1]);
    }
  }

  lemma ReachableInv(r: Registry)
    requires Reachable(r)
    ensures Inv(r)
  {
    var rs, acts :| Reaches(rs, acts, r);
    RunKeeps(rs, acts, |acts|);
  }

  // ---- no ghost sessions ----

  /** An admitted session is its node's current entry, or closed, or owed a close by exactly
      the thread that took it out of the map. */
  lemma EverySessionAccounted(r: Registry, e: nat)
    requires Reachable(r) && e < |r.entries|
    ensures match r.entries[e].removedBy
            case Nobody => Current(r, e)
            case ByCall(c) => !Current(r, e) && c < |r.calls| && (r.entries[e].sessionClosed || Owes(r.calls[c], e))
            case ByWatcher => !Current(r, e) && (r.entries[e].sessionClosed || r.entries[e].watch.Burying?)
    ensures forall c :: 0 <= c < |r.calls| && Owes(r.calls[c], e) ==> r.entries[e].removedBy == ByCall(c)
  {
    ReachableInv(r);
    assert EntryOk(r, e);
    forall c | 0 <= c < |r.calls| && Owes(r.calls[c], e) ensures r.entries[e].removedBy == ByCall(c) {
      assert CallOk(r, c);
    }
  }

  /** An entry is taken out of the map once, by one thread, for good. */
  lemma RemovedOnce(r: Registry, x: Action, e: nat)
    requires Inv(r) && Enabled(r, x) && e < |r.entries| && !r.entries[e].removedBy.Nobody?
    ensures e < |Apply(r, x).entries| && Apply(r, x).entries[e].removedBy == r.entries[e].removedBy
  {
    assert EntryOk(r, e);
    forall n | n in r.sessions ensures r.sessions[n] != e {}
    if x.Advance? {
      UnlistedStays(r, x.c, e);
    } else {
      UnlistedStaysAside(r, x, e);
    }
  }

  lemma UnlistedStays(r: Registry, c: nat, e: nat)
    requires Enabled(r, Advance(c)) && e < |r.entries| && forall n :: n in r.sessions ==> r.sessions[n] != e
    ensures e < |Advanced(r, c).entries| && Advanced(r, c).entries[e].removedBy == r.entries[e].removedBy
  {
  }

  lemma UnlistedStaysAside(r: Registry, x: Action, e: nat)
    requires Enabled(r, x) && !x.Advance? && e < |r.entries| && forall n :: n in r.sessions ==> r.sessions[n] != e
    ensures e < |Apply(r, x).entries| && Apply(r, x).entries[e].removedBy == r.entries[e].removedBy
  {
    assert x.Shut? ==> forall g :: g in x.all ==> g in Listed(r.sessions);
  }

  // The call still has to cancel e's context.
  predicate OwesCancel(k: Call, e: nat) {
    match k
    case CancelPrev(_, prev) => prev == e
    case CancelGone(g) => g == e
    case SweepCancel(todo, _) => e in todo
    case SweepClose(todo, _) => todo != [] && e in todo[1..]
    case _ => false
  }

  ghost predicate CancelOk(r: Registry, e: nat)
    requires e < |r.entries|
  {
    var x := r.entries[e];
    x.removedBy.ByCall? ==> x.cancelled || (x.removedBy.c < |r.calls| && OwesCancel(r.calls[x.removedBy.c], e))
  }

  ghost predicate CancelInv(r: Registry) {
    forall e :: 0 <= e < |r.entries| ==> CancelOk(r, e)
  }

  lemma TakeCancels(r: Registry, c: nat, e: nat)
    requires c < |r.calls| && Named(r, r.calls[c]) && (r.calls[c].Registering? || r.calls[c].Deregistering?)
    requires e < |Advanced(r, c).entries| && (e < |r.entries| ==> CancelOk(r, e))
    ensures CancelOk(Advanced(r, c), e)
  {
  }

  lemma CallCancels(r: Registry, c: nat, e: nat)
    requires c < |r.calls| && Named(r, r.calls[c]) && !r.calls[c].Registering? && !r.calls[c].Deregistering?
    requires !r.calls[c].SweepCancel? && !r.calls[c].SweepClose? && e < |r.entries| && CancelOk(r, e)
    ensures |Advanced(r, c).entries| == |r.entries| && CancelOk(Advanced(r, c), e)
  {
  }

  lemma SweepCancels(r: Registry, c: nat, e: nat)
    requires c < |r.calls| && Named(r, r.calls[c]) && (r.calls[c].SweepCancel? || r.calls[c].SweepClose?)
    requires e < |r.entries| && CancelOk(r, e)
    ensures |Advanced(r, c).entries| == |r.entries| && CancelOk(Advanced(r, c), e)
  {
    InTail(r.calls[c].todo);
  }

  lemma OtherCancels(r: Registry, x: Action, e: nat)
    requires Enabled(r, x) && !x.Advance? && e < |r.entries| && CancelOk(r, e)
    ensures |Apply(r, x).entries| == |r.entries| && CancelOk(Apply(r, x), e)
  {
  }

  lemma CancelKept(r: Registry, x: Action)
    requires Inv(r) && CancelInv(r) && Enabled(r, x)
    ensures CancelInv(Apply(r, x))
  {
    forall e | 0 <= e < |Apply(r, x).entries| ensures CancelOk(Apply(r, x), e) {
      if x.Advance? {
        if r.calls[x.c].SweepCancel? || r.calls[x.c].SweepClose? {
          SweepCancels(r, x.c, e);
        } else if r.calls[x.c].Registering? || r.calls[x.c].Deregistering? {
          TakeCancels(r, x.c, e);
        } else {
          CallCancels(r, x.c, e);
        }
      } else {
        OtherCancels(r, x, e);
      }
    }
  }

  lemma {:induction false} RunCancels(rs: seq<Registry>, acts: seq<Action>, k: nat)
    requires Run(rs, acts) && rs[0] == INIT && k < |rs|
    ensures CancelInv(rs[k])
  {
    if k > 0 {
      RunCancels(rs, acts, k - 1);
      RunKeeps(rs, acts, k - 1);
      assert Step(rs[k - 1], acts[k - 1], rs[k]);
      CancelKept(rs[k - 1], acts[k - 1]);
    }
  }

  /** Once a call has returned, every entry it took out of the map has been cancelled, so its
      watcher is told to end, and its session is closed. */
  lemma TakenIsCancelled(rs: seq<Registry>, acts: seq<Action>, k: nat, e: nat)
    requires Run(rs, acts) && rs[0] == INIT && k < |rs| && e < |rs[k].entries|
    requires var x := rs[k].entries[e]; x.removedBy.ByCall? && x.removedBy.c < |rs[k].calls| && rs[k].calls[x.removedBy.c].Returned?
    ensures rs[k].entries[e].cancelled && rs[k].entries[e].sessionClosed
  {
    RunCancels(rs, acts, k);
    RunKeeps(rs, acts, k);
    assert CancelOk(rs[k], e) && EntryOk(rs[k], e);
  }

  /** The death of one entry never takes another entry out of the map. */
  lemma DeathSparesSuccessors(r: Registry, e: nat, n: Node)
    requires Inv(r) && Enabled(r, Bury(e)) && n in r.sessions && r.sessions[n] != e
    ensures n in Apply(r, Bury(e)).sessions && Apply(r, Bury(e)).sessions[n] == r.sessions[n]
  {
  }

  // No call in progress and no watcher in the middle of a death.
  predicate Quiescent(r: Registry) {
    && (forall c :: 0 <= c < |r.calls| ==> r.calls[c].Returned?)
    && forall e :: 0 <= e < |r.entries| ==> r.entries[e].watch.Watching? || r.entries[e].watch.Exited?
  }

  /** At rest at most one session per node is open, it is the one in the map, and it is
      being watched; and once Close has run none is open. */
  lemma NoGhosts(r: Registry, e: nat)
    requires Reachable(r) && Quiescent(r) && e < |r.entries| && !r.entries[e].sessionClosed
    ensures Current(r, e) && r.entries[e].watch.Watching? && !r.closed
    ensures forall f :: 0 <= f < |r.entries| && r.entries[f].node == r.entries[e].node && !r.entries[f].sessionClosed ==> f == e
  {
    ReachableInv(r);
    assert EntryOk(r, e);
    forall f | 0 <= f < |r.entries| && r.entries[f].node == r.entries[e].node && !r.entries[f].sessionClosed ensures f == e {
      assert EntryOk(r, f);
    }
  }

  // ---- no deadlock ----

  /** A Register waits only for an entry inserted strictly before its own, already
      cancelled; and while that entry has no watcher, the Register that inserted it is
      still on its way to start one. */
  lemma WaitsGoBack(r: Registry, c: nat)
    requires Reachable(r) && c < |r.calls| && r.calls[c].AwaitPrev?
    ensures var p := r.calls[c].prev;
            && p < r.calls[c].e < |r.entries| && r.entries[p].cancelled
            && (r.entries[p].watch.Unstarted? ==> r.entries[p].registrar < |r.calls| && Raising(r.calls[r.entries[p].registrar], p))
  {
    ReachableInv(r);
    assert CallOk(r, c);
    assert EntryOk(r, r.calls[c].prev);
  }

  // A step of a thread already there, as opposed to a new call.
  predicate Inner(x: Action) {
    !x.Invoke?
  }

  // The threads: the goroutine of a call and the watcher of an entry.
  datatype Thread = OfCall(c: nat) | OfWatcher(e: nat)

  predicate Moves(x: Action, t: Thread) {
    match x
    case Advance(c) => t == OfCall(c)
    case Shut(c, _) => t == OfCall(c)
    case Cancelled(e) => t == OfWatcher(e)
    case Unhealthy(e) => t == OfWatcher(e)
    case Bury(e) => t == OfWatcher(e)
    case _ => false
  }

  // The thread has a step to take; that a session turns out unhealthy is not one.
  predicate CanMove(r: Registry, t: Thread) {
    match t
    case OfCall(c) => c < |r.calls| && !r.calls[c].Returned? && !Blocked(r, r.calls[c])
    case OfWatcher(e) =>
      e < |r.entries|
      && match r.entries[e].watch {
        case Unstarted => false
        case Watching => r.entries[e].cancelled
        case Exited => false
        case _ => true
      }
  }

  // Who brings entry p nearer to the close of its done channel: its watcher, or the Register
  // that is to start it, or whoever that one waits for.
  function Unblocker(r: Registry, p: nat): Thread {
    if p < |r.entries| && r.entries[p].watch.Unstarted? then
      var c := r.entries[p].registrar;
      if c < |r.calls| && r.calls[c].AwaitPrev? && r.calls[c].prev < p && Blocked(r, r.calls[c])
      then Unblocker(r, r.calls[c].prev) else OfCall(c)
    else OfWatcher(p)
  }

  // Who brings call c nearer to its return.
  function Helper(r: Registry, c: nat): Thread
    requires c < |r.calls|
  {
    var k := r.calls[c];
    if Blocked(r, k) then Unblocker(r, if k.AwaitPrev? then k.prev else k.rest[0]) else OfCall(c)
  }

  lemma MoveOf(r: Registry, t: Thread) returns (x: Action)
    requires Inv(r) && CanMove(r, t)
    ensures Inner(x) && Enabled(r, x) && Moves(x, t)
  {
    match t
    case OfWatcher(e) => x := if r.entries[e].watch.Watching? then Cancelled(e) else Bury(e);
    case OfCall(c) =>
      var k := r.calls[c];
      assert CallOk(r, c);
      if k.Shutting? {
        var all := ListAll(r.sessions);
        x := Shut(c, all);
      } else {
        assert k.CancelPrev? || k.ClosePrev? ==> Owes(k, k.prev);
        assert k.CancelGone? || k.CloseGone? ==> Owes(k, k.e);
        assert k.Spawning? ==> Raising(k, k.e);
        assert k.SweepCancel? || k.SweepClose? ==> Owes(k, k.todo[0]);
        x := Advance(c);
      }
  }

  // By induction on insertion order: something can always bring a cancelled entry nearer to
  // the close of its done channel.
  lemma {:induction false} Unblock(r: Registry, p: nat)
    requires Inv(r) && p < |r.entries| && r.entries[p].cancelled && !r.entries[p].watch.Exited?
    ensures CanMove(r, Unblocker(r, p))
  {
    assert EntryOk(r, p);
    if r.entries[p].watch.Unstarted? {
      var c := r.entries[p].registrar;
      assert CallOk(r, c);
      if Blocked(r, r.calls[c]) {
        Unblock(r, r.calls[c].prev);
      }
    }
  }

  lemma HelperCanMove(r: Registry, c: nat)
    requires Inv(r) && c < |r.calls| && !r.calls[c].Returned?
    ensures CanMove(r, Helper(r, c))
  {
    assert CallOk(r, c);
    var k := r.calls[c];
    if Blocked(r, k) {
      Unblock(r, if k.AwaitPrev? then k.prev else k.rest[0]);
    }
  }

  /** While some call has not returned, some thread can move: Register, Deregister and Close
      never deadlock, however many of them overlap. */
  lemma NoDeadlock(r: Registry, c: nat) returns (x: Action)
    requires Inv(r) && c < |r.calls| && !r.calls[c].Returned?
    ensures Inner(x) && Enabled(r, x) && Moves(x, Helper(r, c))
  {
    HelperCanMove(r, c);
    x := MoveOf(r, Helper(r, c));
  }

  // Every map can be listed.
  lemma {:induction false} ListAll(sessions: map<Node, nat>) returns (all: seq<nat>)
    ensures IsListing(all, sessions)
    decreases |sessions|
  {
    all := [];
    if sessions != map[] {
      var n :| n in sessions;
      var rest := sessions - {n};
      assert sessions == rest[n := sessions[n]];
      all := ListAll(rest);
      if sessions[n] in Listed(rest) {
        assert Listed(sessions) == Listed(rest) by {
          forall e | e in Listed(rest) ensures e in Listed(sessions) {
            var m :| m in rest && rest[m] == e;
            assert sessions[m] == e;
          }
          forall e | e in Listed(sessions) ensures e in Listed(rest) {
            var m :| m in sessions && sessions[m] == e;
            if m != n {
              assert rest[m] == e;
            }
          }
        }
      } else {
        forall m | m in rest ensures rest[m] != sessions[n] {}
        ListingGrows(all, rest, n, sessions[n]);
        all := all + [sessions[n]];
      }
    }
  }

  // ---- every call returns ----

  function Pending(r: Registry, n: nat): nat
    requires n <= |r.calls|
  {
    if n == 0 then 0 else Pending(r, n - 1) + if r.calls[n - 1].Registering? then 1 else 0
  }

  // An upper bound on the entries there can ever be without a new call.
  function Population(r: Registry): nat {
    |r.entries| + Pending(r, |r.calls|)
  }

  function CallWeight(r: Registry, c: nat): nat
    requires c < |r.calls|
  {
    match r.calls[c]
    case Registering(_) => 20
    case Rejecting => 2
    case CancelPrev(_, _) => 6
    case ClosePrev(_, _) => 5
    case AwaitPrev(_, _) => 4
    case Spawning(_) => 3
    case Deregistering(_) => 4
    case CancelGone(_) => 3
    case CloseGone(_) => 2
    case Shutting => 3 * Population(r) + 2
    case SweepCancel(todo, all) => 2 * |todo| + |all| + 1
    case SweepClose(todo, all) => 2 * |todo| + |all|
    case Draining(rest) => |rest|
    case Returned => 0
  }

  function EntryWeight(x: Entry): nat {
    (if x.sessionClosed then 0 else 1) +
    match x.watch
    case Unstarted => 7
    case Watching => 6
    case Dying => 5
    case Burying => 4
    case Reporting => 3
    case Exiting => 2
    case Exited => 0
  }

  function CallTotal(r: Registry, n: nat): nat
    requires n <= |r.calls|
  {
    if n == 0 then 0 else CallTotal(r, n - 1) + CallWeight(r, n - 1)
  }

  function EntryTotal(xs: seq<Entry>, n: nat): nat
    requires n <= |xs|
  {
    if n == 0 then 0 else EntryTotal(xs, n - 1) + EntryWeight(xs[n - 1])
  }

  function Measure(r: Registry): nat {
    CallTotal(r, |r.calls|) + EntryTotal(r.entries, |r.entries|)
  }

  // Call c moves on, the others stand still, and the population does not grow.
  lemma {:induction false} CallTotalDrops(r: Registry, s: Registry, n: nat, c: nat)
    requires n <= |r.calls| == |s.calls| && c < |r.calls| && Population(s) <= Population(r)
    requires forall k :: 0 <= k < |r.calls| && k != c ==> s.calls[k] == r.calls[k]
    ensures CallTotal(s, n) <= CallTotal(r, n) + if c < n then CallWeight(s, c) - CallWeight(r, c) else 0
  {
    if n > 0 {
      CallTotalDrops(r, s, n - 1, c);
    }
  }

  lemma {:induction false} EntryTotalSet(xs: seq<Entry>, n: nat, e: nat, x: Entry)
    requires n <= |xs| && e < |xs|
    ensures EntryTotal(xs[e := x], n) == EntryTotal(xs, n) + if e < n then EntryWeight(x) - EntryWeight(xs[e]) else 0
  {
    if n > 0 {
      EntryTotalSet(xs, n - 1, e, x);
    }
  }

  lemma {:induction false} EntryTotalSame(xs: seq<Entry>, ys: seq<Entry>, n: nat)
    requires n <= |xs| && n <= |ys| && forall e :: 0 <= e < n ==> EntryWeight(xs[e]) == EntryWeight(ys[e])
    ensures EntryTotal(xs, n) == EntryTotal(ys, n)
  {
    if n > 0 {
      EntryTotalSame(xs, ys, n - 1);
    }
  }

  lemma {:induction false} PendingSet(r: Registry, s: Registry, n: nat, c: nat)
    requires n <= |r.calls| == |s.calls| && c < |r.calls|
    requires forall k :: 0 <= k < |r.calls| && k != c ==> s.calls[k] == r.calls[k]
    requires !s.calls[c].Registering?
    ensures Pending(s, n) == Pending(r, n) - if c < n && r.calls[c].Registering? then 1 else 0
  {
    if n > 0 {
      PendingSet(r, s, n - 1, c);
    }
  }

  lemma {:induction false} DistinctBelow(all: seq<nat>, n: nat)
    requires forall j, k :: 0 <= j < k < |all| ==> all[j] != all[k]
    requires forall j :: 0 <= j < |all| ==> all[j] < n
    ensures |all| <= n
  {
    assert |all| > 0 ==> all[0] < n;
    if n > 0 {
      if k :| 0 <= k < |all| && all[k] == n - 1 {
        DistinctBelow(all[..k] + all[k + 1..], n - 1);
      } else {
        DistinctBelow(all, n - 1);
      }
    }
  }

  lemma OwnWeight(r: Registry, c: nat)
    requires c < |r.calls| && Named(r, r.calls[c])
    ensures CallWeight(Advanced(r, c), c) + (if r.calls[c].Registering? then 8 else 0) < CallWeight(r, c)
    ensures |Advanced(r, c).calls| == |r.calls| && !Advanced(r, c).calls[c].Registering?
    ensures forall k :: 0 <= k < |r.calls| && k != c ==> Advanced(r, c).calls[k] == r.calls[k]
    ensures |Advanced(r, c).entries| <= |r.entries| + if r.calls[c].Registering? then 1 else 0
  {
  }

  // A call's own step.
  lemma AdvanceDrops(r: Registry, x: Action)
    requires Inv(r) && Enabled(r, x) && x.Advance?
    ensures Measure(Apply(r, x)) < Measure(r)
  {
    var s := Apply(r, x);
    OwnWeight(r, x.c);
    PendingSet(r, s, |r.calls|, x.c);
    CallTotalDrops(r, s, |r.calls|, x.c);
    EntriesAfter(r, x.c);
  }

  lemma AdmitAdds(r: Registry, c: nat, n: Node)
    requires c < |r.calls| && (n in r.sessions ==> r.sessions[n] < |r.entries|)
    ensures var xs := Admit(r, c, n).entries;
            |xs| == |r.entries| + 1 && EntryTotal(xs, |xs|) == EntryTotal(r.entries, |r.entries|) + 8
  {
    EntryTotalSame(r.entries, Admit(r, c, n).entries, |r.entries|);
  }

  // The entry a call's step touches, if it touches one.
  function Touches(c: Call): Option<nat> {
    match c
    case CancelPrev(_, p) => Some(p)
    case ClosePrev(_, p) => Some(p)
    case Spawning(e) => Some(e)
    case CancelGone(e) => Some(e)
    case CloseGone(e) => Some(e)
    case SweepCancel(todo, _) => if todo != [] then Some(todo[0]) else None
    case SweepClose(todo, _) => if todo != [] then Some(todo[0]) else None
    case _ => None
  }

  lemma TouchedEntry(r: Registry, c: nat)
    requires Inv(r) && Enabled(r, Advance(c)) && Touches(r.calls[c]).Some?
    ensures var e, xs := Touches(r.calls[c]).value, Apply(r, Advance(c)).entries;
            e < |r.entries| && |xs| == |r.entries| && xs == r.entries[e := xs[e]] && EntryWeight(xs[e]) <= EntryWeight(r.entries[e])
  {
    assert CallOk(r, c);
    if r.calls[c].Spawning? {
      assert Raising(r.calls[c], r.calls[c].e);
    }
  }

  // How much a call's step adds to the entries: only an admission adds anything.
  lemma EntriesAfter(r: Registry, c: nat)
    requires Inv(r) && Enabled(r, Advance(c))
    ensures var xs := Apply(r, Advance(c)).entries;
            EntryTotal(xs, |xs|) <= EntryTotal(r.entries, |r.entries|) + if r.calls[c].Registering? then 8 else 0
  {
    var xs, k := Apply(r, Advance(c)).entries, r.calls[c];
    if k.Registering? {
      if !r.closed {
        AdmitAdds(r, c, k.node);
      }
    } else if k.Deregistering? {
      EntryTotalSame(r.entries, xs, |xs|);
    } else if Touches(k).Some? {
      TouchedEntry(r, c);
      EntryTotalSet(r.entries, |xs|, Touches(k).value, xs[Touches(k).value]);
    }
  }

  // Close takes at most as many sessions as there are.
  lemma TakenFit(r: Registry, x: Action)
    requires Inv(r) && Enabled(r, x) && x.Shut?
    ensures |x.all| <= |r.entries|
  {
    forall j | 0 <= j < |x.all| ensures x.all[j] < |r.entries| {
      assert x.all[j] in x.all;
      var n :| n in r.sessions && r.sessions[n] == x.all[j];
    }
    DistinctBelow(x.all, |r.entries|);
  }

  lemma ShutMoves(r: Registry, c: nat, all: seq<nat>)
    requires Enabled(r, Shut(c, all))
    ensures c < |r.calls| && r.calls[c].Shutting?
    ensures Apply(r, Shut(c, all)).calls == r.calls[c := NextSweep(all, all)]
    ensures Apply(r, Shut(c, all)).entries == MarkAll(r.entries, all, ByCall(c))
  {
  }

  // Marking an entry as taken does not weigh.
  lemma MarkAllWeighs(xs: seq<Entry>, all: seq<nat>, remover: Remover)
    ensures |MarkAll(xs, all, remover)| == |xs|
    ensures forall e :: 0 <= e < |xs| ==> EntryWeight(xs[e]) == EntryWeight(MarkAll(xs, all, remover)[e])
  {
  }

  lemma SweepWeighs(r: Registry, s: Registry, c: nat, all: seq<nat>)
    requires c < |r.calls| && r.calls[c].Shutting? && s.calls == r.calls[c := NextSweep(all, all)]
    requires |all| <= |r.entries|
    ensures CallWeight(s, c) < CallWeight(r, c)
  {
  }

  lemma ShutTotals(r: Registry, s: Registry, c: nat)
    requires c < |r.calls| == |s.calls| && !r.calls[c].Registering? && !s.calls[c].Registering?
    requires forall k :: 0 <= k < |r.calls| && k != c ==> s.calls[k] == r.calls[k]
    requires CallWeight(s, c) < CallWeight(r, c) && |s.entries| == |r.entries|
    requires forall e :: 0 <= e < |r.entries| ==> EntryWeight(r.entries[e]) == EntryWeight(s.entries[e])
    ensures Measure(s) < Measure(r)
  {
    PendingSet(r, s, |r.calls|, c);
    CallTotalDrops(r, s, |r.calls|, c);
    EntryTotalSame(r.entries, s.entries, |r.entries|);
  }

  lemma ShutDrops(r: Registry, x: Action)
    requires Inv(r) && Enabled(r, x) && x.Shut?
    ensures Measure(Apply(r, x)) < Measure(r)
  {
    TakenFit(r, x);
    ShutMoves(r, x.c, x.all);
    MarkAllWeighs(r.entries, x.all, ByCall(x.c));
    SweepWeighs(r, Apply(r, x), x.c, x.all);
    ShutTotals(r, Apply(r, x), x.c);
  }

  lemma {:induction false} CallTotalSame(r: Registry, s: Registry, n: nat)
    requires n <= |r.calls| && s.calls == r.calls && |s.entries| == |r.entries|
    ensures Pending(s, n) == Pending(r, n)
    ensures Pending(s, |r.calls|) == Pending(r, |r.calls|) ==> CallTotal(s, n) == CallTotal(r, n)
  {
    if n > 0 {
      CallTotalSame(r, s, n - 1);
    }
  }

  lemma WatcherDrops(r: Registry, x: Action)
    requires Inv(r) && Enabled(r, x) && (x.Cancelled? || x.Unhealthy? || x.Bury? || x.PeerDrop?)
    ensures Measure(Apply(r, x)) < Measure(r)
  {
    var s := Apply(r, x);
    CallTotalSame(r, s, |r.calls|);
    EntryTotalSet(r.entries, |r.entries|, x.e, s.entries[x.e]);
  }

  /** Every step of a thread, of a watcher or of the network brings the end nearer. */
  lemma StepDrops(r: Registry, x: Action)
    requires Inv(r) && Enabled(r, x) && Inner(x)
    ensures Measure(Apply(r, x)) < Measure(r)
  {
    if x.Advance? {
      AdvanceDrops(r, x);
    } else if x.Shut? {
      ShutDrops(r, x);
    } else {
      WatcherDrops(r, x);
    }
  }

  /** So without new calls every run is finite under every scheduler; by NoDeadlock a run
      that cannot be continued has every call returned. */
  lemma {:induction false} RunsAreBounded(rs: seq<Registry>, acts: seq<Action>)
    requires Run(rs, acts) && Inv(rs[0]) && forall k :: 0 <= k < |acts| ==> Inner(acts[k])
    ensures |acts| <= Measure(rs[0])
  {
    if |acts| > 0 {
      assert Step(rs[0], acts[0], rs[1]);
      StepKeeps(rs[0], acts[0]);
      StepDrops(rs[0], acts[0]);
      forall k | 0 <= k < |acts[1..]| ensures Step(rs[1..][k], acts[1..][k], rs[1..][k + 1]) && Inner(acts[1..][k]) {
        assert Step(rs[k + 1], acts[k + 1], rs[k + 2]);
      }
      RunsAreBounded(rs[1..], acts[1..]);
    }
  }
}
