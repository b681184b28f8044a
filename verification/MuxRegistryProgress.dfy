/** Every call of the mux registry returns, however many new calls keep arriving: a wait reaches
    back to earlier entries only, so nobody who comes later can prolong it. */
module MuxRegistryProgress {
  import opened Wrappers
  import opened MuxRegistry
  import opened MuxRegistryRuns

  // ---- how far an entry is from closing its done channel ----

  function WatchStage(w: Watch): nat {
    match w
    case Unstarted => 6
    case Watching => 5
    case Dying => 4
    case Burying => 3
    case Reporting => 2
    case Exiting => 1
    case Exited => 0
  }

  // A Register past its locked region: its own steps to the start of its watcher, and the
  // entry it waits for on the way.
  function Stage(k: Call): nat {
    match k
    case CancelPrev(_, _) => 3
    case ClosePrev(_, _) => 2
    case AwaitPrev(_, _) => 1
    case _ => 0
  }

  function Behind(k: Call): Option<nat> {
    match k
    case CancelPrev(_, prev) => Some(prev)
    case ClosePrev(_, prev) => Some(prev)
    case AwaitPrev(_, prev) => Some(prev)
    case _ => None
  }

  // The watch, and while there is none the Register that is to start it, and the chain of
  // entries that one waits for.
  function Chain(r: Registry, p: nat): nat {
    if p >= |r.entries| then 0
    else
      var x := r.entries[p];
      WatchStage(x.watch)
      + if x.watch.Unstarted? && x.registrar < |r.calls| then
          var k := r.calls[x.registrar];
          Stage(k) + if Behind(k).Some? && Behind(k).value < p then Chain(r, Behind(k).value) else 0
        else 0
  }

  // ---- no step raises it ----

  // What any step does to entry p and to the Register that is to start its watcher.
  predicate OnwardAt(r: Registry, s: Registry, p: nat) {
    && p < |r.entries| && p < |s.entries|
    && var x, y := r.entries[p], s.entries[p];
       && y.registrar == x.registrar
       && (y.watch == x.watch || WatchStage(y.watch) < WatchStage(x.watch))
       && (x.watch.Unstarted? && y.watch.Unstarted? ==>
             && x.registrar < |r.calls| && x.registrar < |s.calls|
             && CallOnward(r.calls[x.registrar], s.calls[x.registrar]))
  }

  predicate CallOnward(k: Call, l: Call) {
    l == k || (Stage(l) < Stage(k) && (Behind(l) == Behind(k) || Behind(l) == None))
  }

  ghost predicate Onward(r: Registry, s: Registry) {
    && |r.entries| <= |s.entries|
    && forall p: nat :: p < |r.entries| ==> OnwardAt(r, s, p)
  }

  lemma {:induction false} ChainFalls(r: Registry, s: Registry, p: nat)
    requires Onward(r, s) && p < |r.entries|
    ensures Chain(s, p) <= Chain(r, p)
  {
    assert OnwardAt(r, s, p);
    var x := r.entries[p];
    if x.watch.Unstarted? && s.entries[p].watch.Unstarted? {
      var k := r.calls[x.registrar];
      if Behind(k).Some? && Behind(k).value < p {
        ChainFalls(r, s, Behind(k).value);
      }
    }
  }

  // The thread stands where it stood.
  predicate Unmoved(r: Registry, s: Registry, t: Thread) {
    match t
    case OfCall(c) => c < |r.calls| && c < |s.calls| && s.calls[c] == r.calls[c]
    case OfWatcher(e) => e < |r.entries| && e < |s.entries| && s.entries[e].watch == r.entries[e].watch
  }

  lemma {:induction false} ChainStays(r: Registry, s: Registry, p: nat)
    requires Onward(r, s) && p < |r.entries| && Chain(s, p) == Chain(r, p)
    ensures Unblocker(s, p) == Unblocker(r, p) && Unmoved(r, s, Unblocker(r, p))
    ensures s.entries[p].watch == r.entries[p].watch
  {
    assert OnwardAt(r, s, p);
    var x := r.entries[p];
    if x.watch.Unstarted? && s.entries[p].watch.Unstarted? {
      var k := r.calls[x.registrar];
      if Behind(k).Some? && Behind(k).value < p {
        ChainFalls(r, s, Behind(k).value);
        if Chain(s, Behind(k).value) == Chain(r, Behind(k).value) {
          ChainStays(r, s, Behind(k).value);
        }
      }
    }
  }

  // Only its own registrar raises an entry without a watcher, and only onward.
  lemma AdvanceOnward(r: Registry, c: nat, p: nat)
    requires Enabled(r, Advance(c)) && p < |r.entries| && EntryOk(r, p) && CallOk(r, c)
    ensures OnwardAt(r, Apply(r, Advance(c)), p)
  {
    assert r.calls[c].Spawning? ==> Raising(r.calls[c], r.calls[c].e);
  }

  lemma WatcherOnward(r: Registry, x: Action, p: nat)
    requires Enabled(r, x) && !x.Advance? && p < |r.entries| && EntryOk(r, p)
    ensures OnwardAt(r, Apply(r, x), p)
  {
  }

  lemma StepOnward(r: Registry, x: Action)
    requires Inv(r) && Enabled(r, x)
    ensures Onward(r, Apply(r, x))
  {
    var s := Apply(r, x);
    assert |r.entries| <= |s.entries|;
    forall p: nat | p < |r.entries| ensures OnwardAt(r, s, p) {
      assert EntryOk(r, p);
      if x.Advance? {
        assert CallOk(r, x.c);
        AdvanceOnward(r, x.c, p);
      } else {
        WatcherOnward(r, x, p);
      }
    }
  }

  // ---- how far a call is from its return ----

  function Drain(r: Registry, rest: seq<nat>): nat {
    if rest == [] then 0 else 1 + Chain(r, rest[0]) + Drain(r, rest[1..])
  }

  // Of a call that has been in its locked region: the entries it will wait for, and its other
  // steps.
  function Awaited(k: Call): seq<nat> {
    match k
    case SweepCancel(_, all) => all
    case SweepClose(_, all) => all
    case Draining(rest) => rest
    case _ => if Behind(k).Some? then [Behind(k).value] else []
  }

  function OwnSteps(k: Call): nat {
    match k
    case Rejecting => 1
    case CancelPrev(_, _) => 3
    case ClosePrev(_, _) => 2
    case AwaitPrev(_, _) => 1
    case Spawning(_) => 1
    case CancelGone(_) => 2
    case CloseGone(_) => 1
    case SweepCancel(todo, _) => 2 * |todo| + 1
    case SweepClose(todo, _) => 2 * |todo|
    case _ => 0
  }

  function Distance(r: Registry, k: Call): nat {
    OwnSteps(k) + Drain(r, Awaited(k))
  }

  ghost predicate AllKnown(r: Registry, es: seq<nat>) {
    forall e :: e in es ==> e < |r.entries|
  }

  lemma AwaitedKnown(r: Registry, c: nat)
    requires Inv(r) && c < |r.calls|
    ensures AllKnown(r, Awaited(r.calls[c]))
  {
    assert CallOk(r, c);
    var k := r.calls[c];
    assert k.CancelPrev? ==> Owes(k, k.prev);
  }

  lemma {:induction false} DrainFalls(r: Registry, s: Registry, es: seq<nat>)
    requires Onward(r, s) && AllKnown(r, es)
    ensures Drain(s, es) <= Drain(r, es)
    ensures es != [] && Drain(s, es) == Drain(r, es) ==> Chain(s, es[0]) == Chain(r, es[0])
  {
    if es != [] {
      assert es[0] in es;
      ChainFalls(r, s, es[0]);
      InTail(es);
      DrainFalls(r, s, es[1..]);
    }
  }

  /** A call that stands still is brought nearer, or left with the same helper, who has not
      moved. */
  lemma DistanceFalls(r: Registry, s: Registry, c: nat)
    requires Onward(r, s) && c < |r.calls| && c < |s.calls| && s.calls[c] == r.calls[c]
    requires AllKnown(r, Awaited(r.calls[c]))
    ensures Distance(s, r.calls[c]) <= Distance(r, r.calls[c])
    ensures Distance(s, r.calls[c]) == Distance(r, r.calls[c]) ==>
              Helper(s, c) == Helper(r, c) && Unmoved(r, s, Helper(r, c))
  {
    var es := Awaited(r.calls[c]);
    DrainFalls(r, s, es);
    if es != [] && Drain(s, es) == Drain(r, es) {
      assert es[0] in es;
      ChainStays(r, s, es[0]);
    }
  }

  // A call's own step brings it nearer.
  lemma OwnStepNearer(r: Registry, c: nat)
    requires Enabled(r, Advance(c)) && Onward(r, Apply(r, Advance(c))) && !IsStart(r.calls[c])
    requires AllKnown(r, Awaited(r.calls[c]))
    ensures var s := Apply(r, Advance(c));
            |s.calls| == |r.calls| && !IsStart(s.calls[c]) && Distance(s, s.calls[c]) < Distance(r, r.calls[c])
  {
    DrainFalls(r, Apply(r, Advance(c)), Awaited(r.calls[c]));
  }

  // The call has been in its locked region.
  predicate Past(r: Registry, c: nat) {
    c < |r.calls| && !IsStart(r.calls[c])
  }

  function Left(r: Registry, c: nat): nat
    requires c < |r.calls|
  {
    Distance(r, r.calls[c])
  }

  lemma MoveMoves(r: Registry, x: Action, t: Thread)
    requires Enabled(r, x) && Moves(x, t)
    ensures !Unmoved(r, Apply(r, x), t)
  {
  }

  // The step from r to s takes call c no further from its return, and nearer if its helper
  // took it.
  ghost predicate Nears(r: Registry, x: Action, s: Registry, c: nat) {
    Past(r, c) ==>
      && Past(s, c) && Left(s, c) <= Left(r, c)
      && (Left(s, c) == Left(r, c) ==> s.calls[c] == r.calls[c] && Helper(s, c) == Helper(r, c) && !Moves(x, Helper(r, c)))
  }

  /** No step of anyone, a new call included, takes a call further from its return; and a step
      of its helper brings it nearer. */
  lemma StepNears(r: Registry, x: Action, c: nat)
    requires Inv(r) && Enabled(r, x)
    ensures Nears(r, x, Apply(r, x), c)
  {
    if Past(r, c) {
      StepOnward(r, x);
      AwaitedKnown(r, c);
      if x == Advance(c) {
        OwnStepNearer(r, c);
      } else {
        DistanceFalls(r, Apply(r, x), c);
        if Moves(x, Helper(r, c)) {
          MoveMoves(r, x, Helper(r, c));
        }
      }
    }
  }

  lemma NoneLeft(r: Registry, c: nat)
    requires Inv(r) && Past(r, c)
    ensures Left(r, c) == 0 <==> r.calls[c].Returned?
  {
    assert CallOk(r, c);
  }

  // ---- fair runs ----

  // Between j and k the thread takes a step, or has none to take at some moment.
  predicate Served(rs: seq<Registry>, acts: seq<Action>, j: nat, k: nat, t: Thread)
    requires j <= k <= |acts| < |rs|
  {
    exists i :: j <= i < k && (Moves(acts[i], t) || !CanMove(rs[i], t))
  }

  // A stretch of a run in which every thread that can move throughout does move.
  ghost predicate Round(rs: seq<Registry>, acts: seq<Action>, j: nat, k: nat) {
    && j <= k <= |acts| < |rs|
    && forall t: Thread :: CanMove(rs[j], t) ==> Served(rs, acts, j, k, t)
  }

  lemma NearsInRun(rs: seq<Registry>, acts: seq<Action>, i: nat, c: nat)
    requires Run(rs, acts) && Inv(rs[0]) && i < |acts|
    ensures Nears(rs[i], acts[i], rs[i + 1], c)
  {
    RunKeeps(rs, acts, i);
    assert Step(rs[i], acts[i], rs[i + 1]);
    StepNears(rs[i], acts[i], c);
  }

  lemma {:induction false} StretchNears(rs: seq<Registry>, acts: seq<Action>, j: nat, i: nat, c: nat)
    requires j <= i <= |acts| < |rs| && Past(rs[j], c)
    requires forall n :: 0 <= n < |acts| ==> Nears(rs[n], acts[n], rs[n + 1], c)
    ensures Past(rs[i], c) && Left(rs[i], c) <= Left(rs[j], c)
    ensures Left(rs[i], c) == Left(rs[j], c) ==> rs[i].calls[c] == rs[j].calls[c] && Helper(rs[i], c) == Helper(rs[j], c)
  {
    if j < i {
      StretchNears(rs, acts, j, i - 1, c);
      assert Nears(rs[i - 1], acts[i - 1], rs[i], c);
    }
  }

  lemma AllNear(rs: seq<Registry>, acts: seq<Action>, c: nat)
    requires Run(rs, acts) && Inv(rs[0])
    ensures forall n :: 0 <= n < |acts| ==> Nears(rs[n], acts[n], rs[n + 1], c)
  {
    forall n | 0 <= n < |acts| ensures Nears(rs[n], acts[n], rs[n + 1], c) {
      NearsInRun(rs, acts, n, c);
    }
  }

  lemma RoundNears(rs: seq<Registry>, acts: seq<Action>, j: nat, k: nat, c: nat)
    requires Run(rs, acts) && Inv(rs[0]) && Round(rs, acts, j, k) && Past(rs[j], c) && !rs[j].calls[c].Returned?
    ensures Past(rs[k], c) && Left(rs[k], c) < Left(rs[j], c)
  {
    AllNear(rs, acts, c);
    var t := Helper(rs[j], c);
    RunKeeps(rs, acts, j);
    HelperCanMove(rs[j], c);
    assert Served(rs, acts, j, k, t);
    var i :| j <= i < k && (Moves(acts[i], t) || !CanMove(rs[i], t));
    StretchNears(rs, acts, j, i, c);
    if Left(rs[i], c) == Left(rs[j], c) {
      RunKeeps(rs, acts, i);
      HelperCanMove(rs[i], c);
      assert Nears(rs[i], acts[i], rs[i + 1], c);
    }
    StretchNears(rs, acts, i, i + 1, c);
    StretchNears(rs, acts, i + 1, k, c);
  }

  // The marks cut a stretch of the run into rounds.
  ghost predicate Rounds(rs: seq<Registry>, acts: seq<Action>, marks: seq<nat>) {
    && |marks| > 0 && (forall n :: 0 <= n < |marks| ==> marks[n] < |rs|)
    && forall n :: 0 <= n < |marks| - 1 ==> Round(rs, acts, marks[n], marks[n + 1])
  }

  lemma {:induction false} LeftAfter(rs: seq<Registry>, acts: seq<Action>, marks: seq<nat>, n: nat, c: nat)
    requires Run(rs, acts) && Inv(rs[0]) && Rounds(rs, acts, marks) && n < |marks| && Past(rs[marks[0]], c)
    ensures marks[n] < |rs| && Past(rs[marks[n]], c)
    ensures Left(rs[marks[n]], c) == 0 || Left(rs[marks[n]], c) + n <= Left(rs[marks[0]], c)
  {
    if n > 0 {
      LeftAfter(rs, acts, marks, n - 1, c);
      assert Round(rs, acts, marks[n - 1], marks[n]);
      RunKeeps(rs, acts, marks[n - 1]);
      NoneLeft(rs[marks[n - 1]], c);
      if rs[marks[n - 1]].calls[c].Returned? {
        AllNear(rs, acts, c);
        StretchNears(rs, acts, marks[n - 1], marks[n], c);
      } else {
        RoundNears(rs, acts, marks[n - 1], marks[n], c);
      }
    }
  }

  /** Every call past its locked region returns within as many rounds as it has steps left,
      whatever new calls arrive and whatever fails meanwhile. */
  lemma CallReturns(rs: seq<Registry>, acts: seq<Action>, marks: seq<nat>, c: nat)
    requires Run(rs, acts) && rs[0] == INIT && Rounds(rs, acts, marks) && Past(rs[marks[0]], c)
    requires |marks| > Left(rs[marks[0]], c)
    ensures var r := rs[marks[|marks| - 1]]; c < |r.calls| && r.calls[c].Returned?
  {
    LeftAfter(rs, acts, marks, |marks| - 1, c);
    RunKeeps(rs, acts, marks[|marks| - 1]);
    NoneLeft(rs[marks[|marks| - 1]], c);
  }

  // ---- and every call gets into its locked region, in one round ----

  lemma AdvanceStarts(r: Registry, d: nat)
    requires d < |r.calls| && Named(r, r.calls[d])
    ensures var s := Advanced(r, d); |s.calls| == |r.calls| && s.calls == r.calls[d := s.calls[d]] && !IsStart(s.calls[d])
  {
  }

  // The step from r to s leaves call c waiting for the lock only if it is not c's.
  predicate Starts(r: Registry, x: Action, s: Registry, c: nat) {
    c < |r.calls| ==> c < |s.calls| && (IsStart(s.calls[c]) ==> s.calls[c] == r.calls[c] && !Moves(x, OfCall(c)))
  }

  lemma StartStays(r: Registry, x: Action, c: nat)
    requires Enabled(r, x)
    ensures Starts(r, x, Apply(r, x), c)
  {
    if x.Advance? {
      AdvanceStarts(r, x.c);
    }
  }

  lemma {:induction false} StretchStarts(rs: seq<Registry>, acts: seq<Action>, j: nat, k: nat, c: nat)
    requires j <= k <= |acts| < |rs| && c < |rs[j].calls|
    requires forall n :: 0 <= n < |acts| ==> Starts(rs[n], acts[n], rs[n + 1], c)
    ensures c < |rs[k].calls| && (IsStart(rs[k].calls[c]) ==> rs[k].calls[c] == rs[j].calls[c])
  {
    if j < k {
      StretchStarts(rs, acts, j, k - 1, c);
      assert Starts(rs[k - 1], acts[k - 1], rs[k], c);
    }
  }

  /** A call that waits for the lock gets it within a round. */
  lemma RoundEnters(rs: seq<Registry>, acts: seq<Action>, j: nat, k: nat, c: nat)
    requires Run(rs, acts) && Round(rs, acts, j, k) && c < |rs[j].calls|
    ensures Past(rs[k], c)
  {
    forall n | 0 <= n < |acts| ensures Starts(rs[n], acts[n], rs[n + 1], c) {
      assert Step(rs[n], acts[n], rs[n + 1]);
      StartStays(rs[n], acts[n], c);
    }
    StretchStarts(rs, acts, j, k, c);
    if IsStart(rs[k].calls[c]) {
      assert CanMove(rs[j], OfCall(c));
      assert Served(rs, acts, j, k, OfCall(c));
      var i :| j <= i < k && (Moves(acts[i], OfCall(c)) || !CanMove(rs[i], OfCall(c)));
      StretchStarts(rs, acts, j, i, c);
      StretchStarts(rs, acts, i, k, c);
      assert Starts(rs[i], acts[i], rs[i + 1], c);
      StretchStarts(rs, acts, i, i + 1, c);
      StretchStarts(rs, acts, i + 1, k, c);
    }
  }

  // ---- how many rounds ----

  lemma {:induction false} ChainBound(r: Registry, p: nat)
    ensures Chain(r, p) <= 9 * (p + 1)
  {
    if p < |r.entries| && r.entries[p].watch.Unstarted? && r.entries[p].registrar < |r.calls| {
      var k := r.calls[r.entries[p].registrar];
      if Behind(k).Some? && Behind(k).value < p {
        ChainBound(r, Behind(k).value);
      }
    }
  }

  /** A Register that has inserted entry e has at most 9 e + 4 rounds to go. */
  lemma RegisterBound(r: Registry, c: nat)
    requires Inv(r) && c < |r.calls| && Behind(r.calls[c]).Some?
    ensures Left(r, c) <= 9 * r.calls[c].e + 4
  {
    assert CallOk(r, c);
    var k := r.calls[c];
    var q := Behind(k).value;
    assert Drain(r, [q]) == 1 + Chain(r, q) + Drain(r, [q][1..]) == 1 + Chain(r, q);
    ChainBound(r, q);
  }
}
