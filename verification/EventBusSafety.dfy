/** In every interleaving no delivery sends on a closed channel and nothing is closed twice. */
module EventBusSafety {
  import opened Basics
  import opened EventBus

  /** Deliveries the WaitGroup counts. */
  function InFlight(s: State): set<TaskId> {
    set t | t in s.tasks && !s.tasks[t].Counted?
  }

  /** The lock is held as the phases say, and writers exclude everybody else. */
  predicate LockInv(s: State) {
    && s.readers == (set t | t in s.tasks && s.tasks[t].ReadLocked())
    && s.writer == (set o | o in s.ops && s.ops[o].WriteLocked())
    && (forall o, o' | o in s.writer && o' in s.writer :: o == o')
    && (s.writer != {} ==> s.readers == {})
  }

  /** A registered subscription is open, and nobody is taking it down. */
  predicate RegistryInv(s: State) {
    && s.registry <= s.subs.Keys
    && (forall id | id in s.registry :: !s.subs[id].cancelClosed && !s.subs[id].chClosed)
    && (forall o | o in s.ops && s.ops[o].SubHeld? :: s.ops[o].id !in s.subs)
  }

  predicate RemovingOk(s: State, o: OpId, id: SubId)
    requires o in s.ops
  {
    && id in s.subs && id !in s.registry && !s.subs[id].chClosed
    && (s.subs[id].cancelClosed <==> s.ops[o].Waiting? || s.ops[o].Waited?)
  }

  /** Each removed subscription has one Unsubscribe responsible for closing it. */
  ghost predicate UnsubInv(s: State) {
    && (forall o, id | o in s.ops && s.ops[o].Removing(id) :: RemovingOk(s, o, id))
    && (forall o, o', id | o in s.ops && o' in s.ops && s.ops[o].Removing(id) && s.ops[o'].Removing(id) :: o == o')
  }

  /** The channel is open, and no Unsubscribe of it has come back from Wait. */
  predicate Sendable(s: State, id: SubId) {
    id in s.subs && !s.subs[id].chClosed && forall o | o in s.ops :: s.ops[o] != Waited(id)
  }

  /** Whatever a delivery still holds in its snapshot is safe to send to. */
  predicate SnapshotInv(s: State) {
    forall t, id | t in s.tasks && id in s.tasks[t].Todo() :: Sendable(s, id)
  }

  ghost predicate Safe(s: State) {
    && LockInv(s) && RegistryInv(s) && UnsubInv(s) && SnapshotInv(s)
    && s.wg == |InFlight(s)|
    && (forall t | t in s.tasks :: t in s.events)
    && !s.panicked
  }

  lemma InitSafe(capacity: nat)
    ensures Safe(Init(capacity))
  {
  }

  // ----- deliveries and consumers -----

  /** Deliveries and consumers leave the operations, the registry and every open/closed flag alone. */
  ghost predicate SameFlags(s: State, s': State) {
    && s'.ops == s.ops && s'.registry == s.registry && s'.writer == s.writer && s'.subs.Keys == s.subs.Keys
    && forall id | id in s.subs ::
         s'.subs[id].cancelClosed == s.subs[id].cancelClosed && s'.subs[id].chClosed == s.subs[id].chClosed
  }

  lemma SelectFrame(s: State, t: TaskId, c: Choice)
    requires TaskEnabled(s, t, Select(c))
    ensures SameFlags(s, DoSelect(s, t, c))
    ensures DoSelect(s, t, c).tasks.Keys == s.tasks.Keys
    ensures forall u | u in s.tasks && u != t :: DoSelect(s, t, c).tasks[u] == s.tasks[u]
  {
  }

  lemma SelectEffect(s: State, t: TaskId, c: Choice)
    requires TaskEnabled(s, t, Select(c))
    ensures var s' := DoSelect(s, t, c);
      && s'.readers == s.readers && s'.wg == s.wg && s'.events == s.events
      && t in s'.tasks && s'.tasks[t].Delivering? && s'.tasks[t].rest == s.tasks[t].rest[1..]
  {
  }

  lemma TaskFrame(s: State, t: TaskId, step: TaskStep)
    requires TaskEnabled(s, t, step)
    ensures SameFlags(s, DoTask(s, t, step))
    ensures DoTask(s, t, step).tasks.Keys == if step.WgDone? then s.tasks.Keys - {t} else s.tasks.Keys + {t}
    ensures forall u | u in s.tasks && u != t :: DoTask(s, t, step).tasks[u] == s.tasks[u]
  {
    hide DoSelect;
    if step.Select? { SelectFrame(s, t, step.choice); }
  }

  lemma FlagsKeepRest(s: State, s': State)
    requires RegistryInv(s) && UnsubInv(s) && SameFlags(s, s')
    ensures RegistryInv(s') && UnsubInv(s')
    ensures forall id | Sendable(s, id) :: Sendable(s', id)
  {
    forall o, id | o in s'.ops && s'.ops[o].Removing(id) ensures RemovingOk(s', o, id) {
      assert RemovingOk(s, o, id);
    }
  }

  /** A snapshot only ever shrinks, except when it is taken from the registry. */
  lemma TodoFrom(s: State, t: TaskId, step: TaskStep, id: SubId)
    requires TaskEnabled(s, t, step) && t in DoTask(s, t, step).tasks && id in DoTask(s, t, step).tasks[t].Todo()
    ensures (t in s.tasks && id in s.tasks[t].Todo()) || id in s.registry
  {
    hide DoSelect;
    if step.Select? { SelectEffect(s, t, step.choice); }
    if step.Copy? { assert id in Elems(step.order); }
  }

  lemma RegisteredIsSendable(s: State, id: SubId)
    requires RegistryInv(s) && UnsubInv(s) && id in s.registry
    ensures Sendable(s, id)
  {
    forall o | o in s.ops ensures s.ops[o] != Waited(id) {
      if s.ops[o] == Waited(id) { assert s.ops[o].Removing(id); }
    }
  }

  lemma TaskSnapshotKept(s: State, t: TaskId, step: TaskStep)
    requires Safe(s) && TaskEnabled(s, t, step)
    ensures SnapshotInv(DoTask(s, t, step))
  {
    hide DoTask, LockInv, RegistryInv, UnsubInv, Sendable;
    var s' := DoTask(s, t, step);
    TaskFrame(s, t, step);
    FlagsKeepRest(s, s');
    forall u, id | u in s'.tasks && id in s'.tasks[u].Todo() ensures Sendable(s', id) {
      if u == t {
        TodoFrom(s, t, step, id);
        if id in s.registry { RegisteredIsSendable(s, id); }
      }
    }
  }

  lemma TaskReaders(s: State, t: TaskId, step: TaskStep)
    requires LockInv(s) && TaskEnabled(s, t, step) && (forall u | u in s.tasks :: u in s.events)
    ensures var s' := DoTask(s, t, step);
      && (forall u | u != t :: u in s'.readers <==> u in s.readers)
      && (t in s'.readers <==> t in s'.tasks && s'.tasks[t].ReadLocked())
      && (s.writer != {} ==> s'.readers <= s.readers)
  {
    hide DoSelect;
    if step.Select? { SelectEffect(s, t, step.choice); }
  }

  lemma TaskLockKept(s: State, t: TaskId, step: TaskStep)
    requires Safe(s) && TaskEnabled(s, t, step)
    ensures LockInv(DoTask(s, t, step))
  {
    hide RegistryInv, UnsubInv, SnapshotInv, DoTask, TaskEnabled;
    var s' := DoTask(s, t, step);
    TaskFrame(s, t, step);
    TaskReaders(s, t, step);
    assert s'.readers == (set u | u in s'.tasks && s'.tasks[u].ReadLocked());
  }

  lemma TaskCounts(s: State, t: TaskId, step: TaskStep)
    requires TaskEnabled(s, t, step)
    ensures var s' := DoTask(s, t, step);
      && s'.wg == s.wg + (if step.WgAdd? then 1 else if step.WgDone? then -1 else 0)
      && s'.events.Keys == (if step.Publish? then s.events.Keys + {t} else s.events.Keys)
      && (if step.Publish? then t !in s.events else t in s.tasks)
      && (t in s'.tasks <==> !step.WgDone?)
      && (step.Publish? || step.WgAdd? ==> s'.tasks[t].Counted? == step.Publish?)
      && (!step.Publish? && !step.WgAdd? ==> !s.tasks[t].Counted? && (t in s'.tasks ==> !s'.tasks[t].Counted?))
      && (step.WgAdd? ==> s.tasks[t].Counted?)
  {
    hide DoSelect;
    if step.Select? { SelectEffect(s, t, step.choice); }
  }

  lemma InFlightAfter(s: State, t: TaskId, step: TaskStep)
    requires TaskEnabled(s, t, step) && s.tasks.Keys <= s.events.Keys
    ensures InFlight(DoTask(s, t, step)) ==
      if step.WgAdd? then InFlight(s) + {t} else if step.WgDone? then InFlight(s) - {t} else InFlight(s)
    ensures (step.WgAdd? ==> t !in InFlight(s)) && (step.WgDone? ==> t in InFlight(s))
  {
    hide DoTask, TaskEnabled, SameFlags;
    TaskFrame(s, t, step);
    TaskCounts(s, t, step);
    var s' := DoTask(s, t, step);
    forall u | u != t ensures u in InFlight(s') <==> u in InFlight(s) {
      assert u in s'.tasks.Keys <==> u in s.tasks.Keys;
    }
  }

  lemma TaskCountKept(s: State, t: TaskId, step: TaskStep)
    requires Safe(s) && TaskEnabled(s, t, step)
    ensures var s' := DoTask(s, t, step); s'.wg == |InFlight(s')| && forall u | u in s'.tasks :: u in s'.events
  {
    hide LockInv, RegistryInv, UnsubInv, SnapshotInv, SameFlags, DoTask, TaskEnabled, InFlight;
    var s' := DoTask(s, t, step);
    TaskFrame(s, t, step);
    TaskCounts(s, t, step);
    InFlightAfter(s, t, step);
    assert s'.tasks.Keys <= s'.events.Keys;
  }

  /** The send finds its channel open. */
  lemma SendsDoNotPanic(s: State, t: TaskId, step: TaskStep)
    requires Safe(s) && TaskEnabled(s, t, step)
    ensures !DoTask(s, t, step).panicked
  {
    hide LockInv, RegistryInv, UnsubInv;
    if step.Select? {
      assert s.tasks[t].rest[0] in s.tasks[t].Todo();
      assert Sendable(s, s.tasks[t].rest[0]);
    }
  }

  lemma TaskKeepsSafe(s: State, t: TaskId, step: TaskStep)
    requires Safe(s) && TaskEnabled(s, t, step)
    ensures Safe(DoTask(s, t, step))
  {
    hide DoTask, TaskEnabled, LockInv, RegistryInv, UnsubInv, SnapshotInv;
    TaskFrame(s, t, step);
    FlagsKeepRest(s, DoTask(s, t, step));
    TaskSnapshotKept(s, t, step);
    TaskLockKept(s, t, step);
    TaskCountKept(s, t, step);
    SendsDoNotPanic(s, t, step);
  }

  lemma ReceiveKeepsSafe(s: State, id: SubId)
    requires Safe(s) && Enabled(s, Receive(id))
    ensures Safe(DoReceive(s, id))
  {
    hide UnsubInv, RegistryInv;
    var s' := DoReceive(s, id);
    FlagsKeepRest(s, s');
    assert InFlight(s') == InFlight(s);
  }

  // ----- Subscribe and Unsubscribe -----

  lemma OpFrame(s: State, o: OpId, step: OpStep)
    requires OpEnabled(s, o, step)
    ensures var s' := DoOp(s, o, step);
      && s'.tasks == s.tasks && s'.readers == s.readers
      && (forall p | p != o :: (p in s'.ops <==> p in s.ops) && (p in s.ops ==> s'.ops[p] == s.ops[p]))
  {
  }

  /** A call takes the write lock when nobody holds it, and gives it up itself. */
  lemma OpWriter(s: State, o: OpId, step: OpStep)
    requires LockInv(s) && OpEnabled(s, o, step)
    ensures var s' := DoOp(s, o, step); var locked := o in s'.ops && s'.ops[o].WriteLocked();
      && (o in s'.writer <==> locked)
      && (s'.writer == s.writer || s'.writer == {} || (s'.writer == {o} && s.writer == {} && s.readers == {}))
      && (s'.writer != s.writer && s'.writer == {} ==> o in s.writer)
  {
  }

  lemma OpLockKept(s: State, o: OpId, step: OpStep)
    requires Safe(s) && OpEnabled(s, o, step)
    ensures LockInv(DoOp(s, o, step))
  {
    hide RegistryInv, UnsubInv, SnapshotInv, DoOp, OpEnabled;
    var s' := DoOp(s, o, step);
    OpFrame(s, o, step);
    OpWriter(s, o, step);
    forall p ensures p in s'.writer <==> p in s'.ops && s'.ops[p].WriteLocked() {
      assert p != o ==> (p in s.writer <==> p in s.ops && s.ops[p].WriteLocked());
    }
    assert s'.writer == (set p | p in s'.ops && s'.ops[p].WriteLocked());
    assert s'.readers == (set u | u in s'.tasks && s'.tasks[u].ReadLocked());
  }

  lemma OpRegistryKept(s: State, o: OpId, step: OpStep)
    requires Safe(s) && OpEnabled(s, o, step)
    ensures RegistryInv(DoOp(s, o, step))
  {
    hide SnapshotInv;
    if o in s.ops {
      var op := s.ops[o];
      if op.Cancelling? || op.Waited? { assert op.Removing(op.id) && RemovingOk(s, o, op.id); }
      if op.SubHeld? {
        assert o in s.writer;
        forall p | p in s.ops && s.ops[p].SubHeld? ensures p == o { assert p in s.writer; }
      }
    }
  }

  /** What a call is removing it was removing before, or has just found registered. */
  lemma RemovingFrom(s: State, o: OpId, step: OpStep, p: OpId, id: SubId)
    requires OpEnabled(s, o, step) && p in DoOp(s, o, step).ops && DoOp(s, o, step).ops[p].Removing(id)
    ensures p in s.ops && (s.ops[p].Removing(id) || (p == o && id in s.registry))
  {
  }

  lemma RemovingKept(s: State, o: OpId, step: OpStep, p: OpId, id: SubId)
    requires RegistryInv(s) && UnsubInv(s) && OpEnabled(s, o, step)
    requires p in DoOp(s, o, step).ops && DoOp(s, o, step).ops[p].Removing(id)
    ensures RemovingOk(DoOp(s, o, step), p, id)
  {
    if p in s.ops && s.ops[p].Removing(id) { assert RemovingOk(s, p, id); }
    if o in s.ops && (s.ops[o].Waited? || s.ops[o].Cancelling?) { assert s.ops[o].Removing(s.ops[o].id); }
  }

  lemma OpUnsubKept(s: State, o: OpId, step: OpStep)
    requires Safe(s) && OpEnabled(s, o, step)
    ensures UnsubInv(DoOp(s, o, step))
  {
    hide SnapshotInv, LockInv, DoOp, OpEnabled;
    var s' := DoOp(s, o, step);
    forall p, id | p in s'.ops && s'.ops[p].Removing(id)
      ensures RemovingOk(s', p, id)
      ensures p in s.ops && (s.ops[p].Removing(id) || (p == o && id in s.registry))
    {
      RemovingFrom(s, o, step, p, id);
      RemovingKept(s, o, step, p, id);
    }
    forall p, q, id | p in s'.ops && q in s'.ops && s'.ops[p].Removing(id) && s'.ops[q].Removing(id) ensures p == q {
      RemovingFrom(s, o, step, p, id);
      RemovingFrom(s, o, step, q, id);
      assert s.ops[p].Removing(id) ==> RemovingOk(s, p, id);
      assert s.ops[q].Removing(id) ==> RemovingOk(s, q, id);
    }
  }

  /** Closing the channel is safe: any delivery that could still hold it was counted before the
      subscription was removed, so Wait has outlasted it. */
  lemma OpSnapshotKept(s: State, o: OpId, step: OpStep)
    requires Safe(s) && OpEnabled(s, o, step)
    ensures SnapshotInv(DoOp(s, o, step))
  {
    hide LockInv, RegistryInv, UnsubInv;
    var s' := DoOp(s, o, step);
    assert s'.tasks == s.tasks;
    assert step.WaitReturns? ==> InFlight(s) == {};
    forall t, id | t in s.tasks && id in s.tasks[t].Todo() ensures Sendable(s', id) {
      assert Sendable(s, id) && t in InFlight(s);
    }
  }

  lemma ClosesDoNotPanic(s: State, o: OpId, step: OpStep)
    requires Safe(s) && OpEnabled(s, o, step)
    ensures !DoOp(s, o, step).panicked
  {
    hide LockInv, RegistryInv, SnapshotInv;
    if step.CloseCancel? || step.CloseChannel? {
      assert s.ops[o].Removing(s.ops[o].id);
    }
  }

  lemma OpKeepsSafe(s: State, o: OpId, step: OpStep)
    requires Safe(s) && OpEnabled(s, o, step)
    ensures Safe(DoOp(s, o, step))
  {
    hide LockInv, RegistryInv, UnsubInv, SnapshotInv;
    OpLockKept(s, o, step);
    OpRegistryKept(s, o, step);
    OpUnsubKept(s, o, step);
    OpSnapshotKept(s, o, step);
    ClosesDoNotPanic(s, o, step);
    assert InFlight(DoOp(s, o, step)) == InFlight(s);
  }

  lemma StepKeepsSafe(s: State, a: Action)
    requires Safe(s) && Enabled(s, a)
    ensures Safe(Do(s, a))
  {
    hide Safe, DoTask, DoOp, DoReceive;
    match a
    case TaskAct(t, step) => TaskKeepsSafe(s, t, step);
    case OpAct(o, step) => OpKeepsSafe(s, o, step);
    case Receive(id) => ReceiveKeepsSafe(s, id);
  }

  /** Main theorem: whatever the interleaving, nothing ever panics. */
  lemma {:induction false} RunsAreSafe(capacity: nat, actions: seq<Action>)
    requires Exec(capacity, actions).Some?
    ensures Safe(Exec(capacity, actions).value)
  {
    hide Safe, Enabled, Do;
    if actions == [] {
      InitSafe(capacity);
    } else {
      var init, a := actions[..|actions| - 1], actions[|actions| - 1];
      RunsAreSafe(capacity, init);
      StepKeepsSafe(Exec(capacity, init).value, a);
    }
  }
}
