/** vm/handler.go: the per-instance operation protocol of the compute agent. Goroutines are
    threads with a program counter; each critical section, each close(done) and each send is
    one step. What a thread does between two steps (qemu-img, libvirt) is left open: its
    outcome is the choice of the next step. */
module OpProtocol {
  import opened Wrappers

  datatype Kind = Create | Destroy

  // opSlot, plus the thread that made it.
  datatype OpSlot = OpSlot(kind: Kind, id: InstanceId, cancelled: bool, closed: bool, maker: nat)

  datatype Stage = Fresh | Working | Told

  datatype Pc =
    | Entering                      // about to lock in acquireOp
    | Cancelling(s: nat)            // destroy found a create in flight, lock dropped, about to cancel it
    | Waiting(s: nat)               // blocked on <-done
    | Owning(s: nat, stage: Stage)  // acquireOp returned true
    | Closing(s: nat, ok: bool)     // release removed the map entry, close(done) still to come
    | Announcing                    // create succeeded and released; RUNNING still to be sent
    | Polling                       // detectAndPublishIP
    | Finished
    | Dropped

  datatype Thread = Thread(id: InstanceId, kind: Kind, session: nat, pc: Pc, awaited: set<nat>)

  datatype Word = SayProvisioning | SayRunning | SayStopping | SayStopped | SayFailed

  datatype Report = Report(id: InstanceId, word: Word)

  // log is what has been handed to the stream and not lost, oldest first.
  datatype Agent = Agent(
    threads: seq<Thread>,
    slots: seq<OpSlot>,
    inFlight: map<InstanceId, nat>,
    session: nat,
    log: seq<Report>)

  const INIT := Agent([], [], map[], 0, [])

  // ---- the handler's own object: inFlight and the slots ----

  datatype Verdict = Acquired | Drop | Preempt(s: nat)

  /** The locked region of acquireOp. */
  function Enter(inFlight: map<InstanceId, nat>, slots: seq<OpSlot>, id: InstanceId, kind: Kind): Verdict
    requires id in inFlight ==> inFlight[id] < |slots|
  {
    if id !in inFlight then Acquired
    else if slots[inFlight[id]].kind == kind || kind != Destroy || slots[inFlight[id]].kind != Create then Drop
    else Preempt(inFlight[id])
  }

  /** The locked region of release. */
  function Unlist(inFlight: map<InstanceId, nat>, id: InstanceId, s: nat): map<InstanceId, nat> {
    if id in inFlight && inFlight[id] == s then inFlight - {id} else inFlight
  }

  // slot.cancel()
  function Cancelled(slots: seq<OpSlot>, s: nat): seq<OpSlot>
    requires s < |slots|
  {
    slots[s := slots[s].(cancelled := true)]
  }

  // close(slot.done)
  function Closed(slots: seq<OpSlot>, s: nat): seq<OpSlot>
    requires s < |slots|
  {
    slots[s := slots[s].(closed := true)]
  }

  class Handler {
    var inFlight: map<InstanceId, nat>
    var slots: seq<OpSlot>

    constructor ()
      ensures inFlight == map[] && slots == [] && Valid()
    {
      inFlight, slots := map[], [];
    }

    // The map names each instance's own slot, one whose done is open; only creates are
    // cancelled.
    ghost predicate Valid()
      reads this
    {
      && (forall i :: i in inFlight ==>
            inFlight[i] < |slots| && slots[inFlight[i]].id == i && !slots[inFlight[i]].closed)
      && forall s :: 0 <= s < |slots| && slots[s].cancelled ==> slots[s].kind.Create?
    }

    /** The locked region of acquireOp. What it tells a destroy to preempt is a create of
        the same instance that can still be waited for. */
    method TryAcquire(id: InstanceId, kind: Kind, maker: nat) returns (v: Verdict)
      requires Valid()
      modifies this
      ensures v == Enter(old(inFlight), old(slots), id, kind)
      ensures inFlight == if v.Acquired? then old(inFlight)[id := |old(slots)|] else old(inFlight)
      ensures slots == if v.Acquired? then old(slots) + [OpSlot(kind, id, false, false, maker)] else old(slots)
      ensures v.Preempt? ==> (
                v.s < |slots| && slots[v.s].kind.Create? && slots[v.s].id == id && !slots[v.s].closed && kind.Destroy?)
      ensures Valid()
    {
      if id !in inFlight {
        inFlight := inFlight[id := |slots|];
        slots := slots + [OpSlot(kind, id, false, false, maker)];
        return Acquired;
      }
      var existing := slots[inFlight[id]];
      if existing.kind == kind || kind != Destroy || existing.kind != Create { return Drop; }
      return Preempt(inFlight[id]);
    }

    // preempted.cancel()
    method Cancel(s: nat)
      requires Valid() && s < |slots| && slots[s].kind.Create?
      modifies this`slots
      ensures slots == Cancelled(old(slots), s) && Valid()
    {
      slots := slots[s := slots[s].(cancelled := true)];
    }

    /** release: the map entry goes first, and only if it is this slot; then done closes, so
        whoever it wakes finds the slot out of the map. */
    method Release(id: InstanceId, s: nat)
      requires Valid() && s < |slots| && slots[s].id == id && !slots[s].closed
      modifies this
      ensures inFlight == Unlist(old(inFlight), id, s) && slots == Closed(old(slots), s)
      ensures forall i :: i in inFlight ==> inFlight[i] != s
      ensures Valid()
    {
      Remove(id, s);
      CloseDone(s);
    }

    // The locked region of release.
    method Remove(id: InstanceId, s: nat)
      requires Valid()
      modifies this`inFlight
      ensures inFlight == Unlist(old(inFlight), id, s) && Valid()
    {
      if id in inFlight && inFlight[id] == s {
        inFlight := inFlight - {id};
      }
    }

    // close(done) panics on a closed channel; CloseKeeps shows it is never called on one.
    method CloseDone(s: nat)
      requires Valid() && s < |slots| && !slots[s].closed && forall i :: i in inFlight ==> inFlight[i] != s
      modifies this`slots
      ensures slots == Closed(old(slots), s) && Valid()
    {
      slots := slots[s := slots[s].(closed := true)];
    }
  }

  // ---- steps ----

  datatype Action =
    | Arrive(id: InstanceId, kind: Kind)   // OnControl starts a goroutine
    | Lock(t: nat)                         // acquireOp's critical section
    | DoCancel(t: nat)                     // preempted.cancel()
    | Wake(t: nat)                         // <-done returns; the loop starts over
    | Begin(t: nat)                        // first status: PROVISIONING or STOPPING
    | Fail(t: nat)                         // FAILED
    | Stop(t: nat)                         // destroy done: STOPPED
    | Release(t: nat)                      // release's critical section
    | CloseDone(t: nat)                    // close(slot.done)
    | Announce(t: nat)                     // RUNNING, after the release
    | Publish(t: nat, found: bool)         // RUNNING with the address, or giving up
    | Disconnect(kept: nat)                // the session breaks: what was not yet delivered is lost
    | Restart(kept: nat)                   // the process dies with its goroutines and comes back empty

  predicate Valid(a: Agent) {
    forall i :: i in a.inFlight ==> a.inFlight[i] < |a.slots|
  }

  predicate Is(a: Agent, t: nat, pc: Pc) {
    t < |a.threads| && a.threads[t].pc == pc
  }

  predicate Has(a: Agent, t: nat, stage: Stage) {
    t < |a.threads| && a.threads[t].pc.Owning? && a.threads[t].pc.stage == stage
  }

  predicate Enabled(a: Agent, x: Action) {
    match x
    case Arrive(_, _) => true
    case Lock(t) => Is(a, t, Entering) && Valid(a)
    case DoCancel(t) => t < |a.threads| && a.threads[t].pc.Cancelling? && a.threads[t].pc.s < |a.slots|
    case Wake(t) => t < |a.threads| && a.threads[t].pc.Waiting? && a.threads[t].pc.s < |a.slots| && a.slots[a.threads[t].pc.s].closed
    case Begin(t) => Has(a, t, Fresh)
    case Fail(t) => Has(a, t, Working)
    case Stop(t) => Has(a, t, Working) && a.threads[t].kind.Destroy?
    // A create that succeeded releases while Working; every other path has told its outcome.
    case Release(t) => Has(a, t, Told) || (Has(a, t, Working) && a.threads[t].kind.Create?)
    case CloseDone(t) => t < |a.threads| && a.threads[t].pc.Closing? && a.threads[t].pc.s < |a.slots|
    case Announce(t) => Is(a, t, Announcing)
    case Publish(t, _) => Is(a, t, Polling)
    case Disconnect(kept) => kept <= |a.log|
    case Restart(kept) => kept <= |a.log|
  }

  function Goto(a: Agent, t: nat, pc: Pc): Agent
    requires t < |a.threads|
  {
    a.(threads := a.threads[t := a.threads[t].(pc := pc)])
  }

  // sendFn: a message of an older session goes nowhere.
  function Say(a: Agent, t: nat, w: Word): Agent
    requires t < |a.threads|
  {
    if a.threads[t].session == a.session then a.(log := a.log + [Report(a.threads[t].id, w)]) else a
  }

  function Apply(a: Agent, x: Action): Agent
    requires Enabled(a, x)
  {
    match x
    case Arrive(id, kind) => a.(threads := a.threads + [Thread(id, kind, a.session, Entering, {})])
    case Lock(t) =>
      var th := a.threads[t];
      match Enter(a.inFlight, a.slots, th.id, th.kind) {
        case Acquired =>
          Goto(a, t, Owning(|a.slots|, Fresh)).(
            slots := a.slots + [OpSlot(th.kind, th.id, false, false, t)],
            inFlight := a.inFlight[th.id := |a.slots|])
        case Drop => Goto(a, t, Dropped)
        case Preempt(s) =>
          a.(threads := a.threads[t := th.(pc := Cancelling(s), awaited := th.awaited + {s})])
      }
    case DoCancel(t) =>
      var s := a.threads[t].pc.s;
      Goto(a, t, Waiting(s)).(slots := Cancelled(a.slots, s))
    case Wake(t) => Goto(a, t, Entering)
    case Begin(t) =>
      Say(Goto(a, t, Owning(a.threads[t].pc.s, Working)), t, if a.threads[t].kind.Create? then SayProvisioning else SayStopping)
    case Fail(t) => Say(Goto(a, t, Owning(a.threads[t].pc.s, Told)), t, SayFailed)
    case Stop(t) => Say(Goto(a, t, Owning(a.threads[t].pc.s, Told)), t, SayStopped)
    case Release(t) =>
      var pc := a.threads[t].pc;
      Goto(a, t, Closing(pc.s, pc.stage.Working?)).(inFlight := Unlist(a.inFlight, a.threads[t].id, pc.s))
    case CloseDone(t) =>
      var pc := a.threads[t].pc;
      Goto(a, t, if pc.ok then Announcing else Finished).(slots := Closed(a.slots, pc.s))
    case Announce(t) => Say(Goto(a, t, Polling), t, SayRunning)
    case Publish(t, found) => if found then Say(Goto(a, t, Finished), t, SayRunning) else Goto(a, t, Finished)
    case Disconnect(kept) => a.(session := a.session + 1, log := a.log[..kept])
    case Restart(kept) => Agent([], [], map[], a.session + 1, a.log[..kept])
  }

  // ---- the invariant ----

  // The thread holds slot s: it was granted it and has not closed it yet.
  predicate Holds(th: Thread, s: nat) {
    (th.pc.Owning? && th.pc.s == s) || (th.pc.Closing? && th.pc.s == s)
  }

  ghost predicate SlotOk(a: Agent, s: nat)
    requires s < |a.slots|
  {
    var o := a.slots[s];
    && o.maker < |a.threads|
    && a.threads[o.maker].id == o.id && a.threads[o.maker].kind == o.kind
    && (o.cancelled ==> o.kind.Create?)
    && (o.closed <==> !Holds(a.threads[o.maker], s))
  }

  ghost predicate ThreadOk(a: Agent, t: nat)
    requires t < |a.threads|
  {
    var th := a.threads[t];
    && (th.pc.Owning? ==> th.id in a.inFlight && a.inFlight[th.id] == th.pc.s)
    && (th.pc.Owning? || th.pc.Closing? ==> th.pc.s < |a.slots| && a.slots[th.pc.s].maker == t)
    && (th.pc.Closing? ==> !(th.id in a.inFlight && a.inFlight[th.id] == th.pc.s))
    && (th.pc.Closing? && th.pc.ok ==> th.kind.Create?)
    && (th.pc.Announcing? || th.pc.Polling? ==> th.kind.Create?)
    && (th.pc.Cancelling? || th.pc.Waiting? ==> th.kind.Destroy? && th.pc.s in th.awaited)
    && (th.pc.Waiting? ==> th.pc.s < |a.slots| && a.slots[th.pc.s].cancelled)
    && (forall s :: s in th.awaited ==> s < |a.slots| && a.slots[s].kind.Create? && a.slots[s].id == th.id)
    && (forall s :: s in th.awaited && !((th.pc.Cancelling? || th.pc.Waiting?) && th.pc.s == s) ==> a.slots[s].closed)
    && th.session <= a.session
  }

  // Still in acquireOp, or turned away by it: the thread has made no slot.
  predicate Slotless(th: Thread) {
    th.pc.Entering? || th.pc.Cancelling? || th.pc.Waiting? || th.pc.Dropped?
  }

  // A thread makes at most one slot, and none before it leaves acquireOp.
  ghost predicate MakersOk(a: Agent) {
    && (forall s :: 0 <= s < |a.slots| ==> a.slots[s].maker < |a.threads| && !Slotless(a.threads[a.slots[s].maker]))
    && forall s, r :: 0 <= s < r < |a.slots| ==> a.slots[s].maker != a.slots[r].maker
  }

  ghost predicate InFlightOk(a: Agent) {
    forall i :: i in a.inFlight ==>
      && a.inFlight[i] < |a.slots| && a.slots[a.inFlight[i]].id == i
      && a.slots[a.inFlight[i]].maker < |a.threads|
      && a.threads[a.slots[a.inFlight[i]].maker].pc.Owning?
      && a.threads[a.slots[a.inFlight[i]].maker].pc.s == a.inFlight[i]
  }

  ghost predicate AgentInv(a: Agent) {
    && (forall s :: 0 <= s < |a.slots| ==> SlotOk(a, s))
    && (forall t :: 0 <= t < |a.threads| ==> ThreadOk(a, t))
    && MakersOk(a) && InFlightOk(a)
  }

  // ---- every step keeps it ----

  // acquireOp grants the slot: the new slot is the last one, made by x.t.
  lemma GrantKeepsSlots(a: Agent, x: Action)
    requires AgentInv(a) && Enabled(a, x) && x.Lock? && a.threads[x.t].id !in a.inFlight
    ensures forall s :: 0 <= s < |Apply(a, x).slots| ==> SlotOk(Apply(a, x), s)
    ensures forall s :: 0 <= s < |a.slots| ==> a.slots[s].maker != x.t
  {
    var a' := Apply(a, x);
    var n := |a.slots|;
    assert a'.slots[n] == OpSlot(a.threads[x.t].kind, a.threads[x.t].id, false, false, x.t);
    forall s | 0 <= s < n ensures SlotOk(a', s) && a.slots[s].maker != x.t {
      assert SlotOk(a, s);
    }
  }

  lemma GrantKeepsThread(a: Agent, x: Action, t: nat)
    requires AgentInv(a) && Enabled(a, x) && x.Lock? && a.threads[x.t].id !in a.inFlight && t < |a.threads|
    ensures ThreadOk(Apply(a, x), t)
  {
    assert ThreadOk(a, t);
    var a' := Apply(a, x);
    assert forall s :: 0 <= s < |a.slots| ==> a'.slots[s] == a.slots[s];
    if t != x.t {
      assert a'.threads[t] == a.threads[t];
    }
  }

  lemma GrantKeeps(a: Agent, x: Action)
    requires AgentInv(a) && Enabled(a, x) && x.Lock? && a.threads[x.t].id !in a.inFlight
    ensures AgentInv(Apply(a, x))
  {
    GrantKeepsSlots(a, x);
    forall t | 0 <= t < |a.threads| ensures ThreadOk(Apply(a, x), t) {
      GrantKeepsThread(a, x, t);
    }
    assert MakersOk(Apply(a, x));
    assert InFlightOk(Apply(a, x));
  }

  // Steps that change one thread (and perhaps the log) but no slot and no map entry.
  lemma ThreadMoves(a: Agent, t: nat, th: Thread, log: seq<Report>)
    requires AgentInv(a) && t < |a.threads|
    requires th.id == a.threads[t].id && th.kind == a.threads[t].kind
    requires Slotless(th) ==> Slotless(a.threads[t])
    requires th.pc.Owning? == a.threads[t].pc.Owning? && th.pc.Closing? == a.threads[t].pc.Closing?
    requires th.pc.Owning? ==> th.pc.s == a.threads[t].pc.s
    requires th.pc.Closing? ==> th.pc == a.threads[t].pc
    requires ThreadOk(a.(threads := a.threads[t := th], log := log), t)
    ensures AgentInv(a.(threads := a.threads[t := th], log := log))
  {
    var a' := a.(threads := a.threads[t := th], log := log);
    forall s | 0 <= s < |a'.slots| ensures SlotOk(a', s) {
      assert SlotOk(a, s);
    }
    forall u | 0 <= u < |a'.threads| ensures ThreadOk(a', u) {
      assert ThreadOk(a, u);
    }
  }

  lemma CloseKeepsThread(a: Agent, x: Action, t: nat)
    requires AgentInv(a) && Enabled(a, x) && x.CloseDone? && t < |a.threads|
    ensures ThreadOk(Apply(a, x), t)
  {
    assert ThreadOk(a, t) && ThreadOk(a, x.t);
  }

  lemma CloseKeeps(a: Agent, x: Action)
    requires AgentInv(a) && Enabled(a, x) && x.CloseDone?
    ensures AgentInv(Apply(a, x))
    ensures !a.slots[a.threads[x.t].pc.s].closed
  {
    var a' := Apply(a, x);
    assert ThreadOk(a, x.t);
    assert SlotOk(a, a.threads[x.t].pc.s);
    forall s | 0 <= s < |a'.slots| ensures SlotOk(a', s) {
      assert SlotOk(a, s);
    }
    forall t | 0 <= t < |a'.threads| ensures ThreadOk(a', t) {
      CloseKeepsThread(a, x, t);
    }
  }

  lemma ReleaseKeeps(a: Agent, x: Action)
    requires AgentInv(a) && Enabled(a, x) && x.Release?
    ensures AgentInv(Apply(a, x))
  {
    var a' := Apply(a, x);
    assert ThreadOk(a, x.t);
    forall s | 0 <= s < |a'.slots| ensures SlotOk(a', s) {
      assert SlotOk(a, s);
    }
    forall t | 0 <= t < |a'.threads| ensures ThreadOk(a', t) {
      assert ThreadOk(a, t);
    }
  }

  // acquireOp's critical section finds the instance busy.
  lemma RefuseKeeps(a: Agent, x: Action)
    requires AgentInv(a) && Enabled(a, x) && x.Lock? && a.threads[x.t].id in a.inFlight
    ensures AgentInv(Apply(a, x))
  {
    var a' := Apply(a, x);
    assert ThreadOk(a, x.t);
    assert SlotOk(a, a.inFlight[a.threads[x.t].id]);
    ThreadMoves(a, x.t, a'.threads[x.t], a.log);
  }

  lemma MoveKeeps(a: Agent, x: Action)
    requires AgentInv(a) && Enabled(a, x)
    requires x.Wake? || x.Begin? || x.Fail? || x.Stop? || x.Announce? || x.Publish?
    ensures AgentInv(Apply(a, x))
  {
    var a' := Apply(a, x);
    assert ThreadOk(a, x.t);
    ThreadMoves(a, x.t, a'.threads[x.t], a'.log);
  }

  lemma CancelKeeps(a: Agent, x: Action)
    requires AgentInv(a) && Enabled(a, x) && x.DoCancel?
    ensures AgentInv(Apply(a, x))
  {
    var a' := Apply(a, x);
    assert ThreadOk(a, x.t);
    forall s | 0 <= s < |a'.slots| ensures SlotOk(a', s) {
      assert SlotOk(a, s);
    }
    forall t | 0 <= t < |a'.threads| ensures ThreadOk(a', t) {
      assert ThreadOk(a, t);
    }
  }

  lemma OutsideKeeps(a: Agent, x: Action)
    requires AgentInv(a) && Enabled(a, x) && (x.Arrive? || x.Disconnect? || x.Restart?)
    ensures AgentInv(Apply(a, x))
  {
    var a' := Apply(a, x);
    forall s | 0 <= s < |a'.slots| ensures SlotOk(a', s) {
      assert SlotOk(a, s);
    }
    forall t | 0 <= t < |a'.threads| ensures ThreadOk(a', t) {
      if t < |a.threads| {
        assert ThreadOk(a, t);
      }
    }
  }

  /** Every step keeps the invariant. */
  lemma StepKeeps(a: Agent, x: Action)
    requires AgentInv(a) && Enabled(a, x)
    ensures AgentInv(Apply(a, x))
  {
    if x.Lock? && a.threads[x.t].id !in a.inFlight {
      GrantKeeps(a, x);
    } else if x.Lock? {
      RefuseKeeps(a, x);
    } else if x.CloseDone? {
      CloseKeeps(a, x);
    } else if x.Release? {
      ReleaseKeeps(a, x);
    } else if x.DoCancel? {
      CancelKeeps(a, x);
    } else if x.Arrive? || x.Disconnect? || x.Restart? {
      OutsideKeeps(a, x);
    } else {
      MoveKeeps(a, x);
    }
  }
}
