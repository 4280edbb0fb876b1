/** Who gets an event: every subscriber it was to reach has it enqueued, dropped for want of room, or
    has unsubscribed; and nobody else gets it. */
module EventBusDelivery {
  import opened Basics
  import opened EventBus
  import opened EventBusSafety
  import opened EventBusAccounting

  /** The subscriber lists that the deliveries of a run have copied. */
  type Snapshots = map<TaskId, seq<SubId>>

  function Taken(m: Snapshots, a: Action): Snapshots {
    if a.TaskAct? && a.task.Copy? then m[a.t := a.task.order] else m
  }

  function SnapshotsOf(actions: seq<Action>): Snapshots {
    if actions == [] then map[]
    else Taken(SnapshotsOf(actions[..|actions| - 1]), actions[|actions| - 1])
  }

  /** The task has not yet copied the subscriber list. */
  predicate NoSnapshot(t: Task) { t.Counted? || t.Added? || t.Reading? }

  ghost predicate SnapshotsInv(s: State, m: Snapshots) {
    && (forall t | t in s.events :: t in m <==> !(t in s.tasks && NoSnapshot(s.tasks[t])))
    && (forall t | t in m :: t in s.events)
  }

  /** Nothing is sent to, or still to be sent to, a subscriber outside the snapshot. */
  ghost predicate InsideInv(s: State, m: Snapshots) {
    && (forall x | x in s.sent + s.drops :: x.0 in m && x.1 in m[x.0])
    && (forall t, id | t in s.tasks && id in s.tasks[t].Todo() :: t in m && id in m[t])
  }

  /** Subscriber id is to come, has the event or its drop, does not want it, or has left. */
  predicate Served(s: State, t: TaskId, id: SubId)
    requires t in s.events && id in s.subs
  {
    || (t in s.tasks && id in s.tasks[t].Todo())
    || (t, id) in s.sent + s.drops
    || !Matches(s.events[t], s.subs[id].filters)
    || s.subs[id].cancelClosed
  }

  predicate Covered(s: State, t: TaskId, id: SubId) {
    t in s.events && id in s.subs && Served(s, t, id)
  }

  ghost predicate CoverInv(s: State, m: Snapshots) {
    forall t, id | t in m && id in m[t] :: Covered(s, t, id)
  }

  ghost predicate Delivery(s: State, m: Snapshots) { SnapshotsInv(s, m) && InsideInv(s, m) && CoverInv(s, m) }

  lemma InitDelivery(capacity: nat)
    ensures Delivery(Init(capacity), map[])
  {
  }

  // ----- what no step takes back -----

  ghost predicate Grows(s: State, s': State) {
    && (forall t | t in s.events :: t in s'.events && s'.events[t] == s.events[t])
    && (forall i | i in s.subs :: i in s'.subs && s'.subs[i].filters == s.subs[i].filters
          && (s.subs[i].cancelClosed ==> s'.subs[i].cancelClosed))
    && (forall x | x in s.sent + s.drops :: x in s'.sent + s'.drops)
  }

  lemma TaskGrows(s: State, t: TaskId, step: TaskStep)
    requires Safe(s) && TaskEnabled(s, t, step)
    ensures Grows(s, DoTask(s, t, step))
  {
    if step.Select? { SelectGrows(s, t, step.choice); } else { OtherGrows(s, t, step); }
  }

  lemma SelectGrows(s: State, t: TaskId, c: Choice)
    requires Safe(s) && TaskEnabled(s, t, Select(c))
    ensures Grows(s, DoSelect(s, t, c))
  {
    hide Safe, DoSelect, Ready;
    SelectOutcome(s, t, c);
    SelectFrame(s, t, c);
  }

  lemma OtherGrows(s: State, t: TaskId, step: TaskStep)
    requires TaskEnabled(s, t, step) && !step.Select?
    ensures Grows(s, DoTask(s, t, step))
  {
    hide DoTask, TaskEnabled;
    TaskOutcome(s, t, step);
  }

  lemma OpGrows(s: State, o: OpId, step: OpStep)
    requires Safe(s) && OpEnabled(s, o, step)
    ensures Grows(s, DoOp(s, o, step))
    ensures var s' := DoOp(s, o, step);
      && s'.tasks == s.tasks && s'.events == s.events
      && s'.sent == s.sent && s'.drops == s.drops
  {
    hide LockInv, UnsubInv, SnapshotInv;
  }

  lemma GrownServed(s: State, s': State, t: TaskId, id: SubId)
    requires t in s.events && id in s.subs && Served(s, t, id) && Grows(s, s')
    requires t in s.tasks && id in s.tasks[t].Todo() ==> t in s'.tasks && id in s'.tasks[t].Todo()
    ensures Served(s', t, id)
  {
    hide Matches;
  }

  lemma QuietKeepsDelivery(s: State, s': State, m: Snapshots)
    requires Delivery(s, m) && Grows(s, s')
    requires s'.tasks == s.tasks && s'.events == s.events && s'.sent == s.sent && s'.drops == s.drops
    ensures Delivery(s', m)
  {
    hide Grows, Served;
    forall t, id | t in m && id in m[t]
      ensures Covered(s', t, id)
    {
      assert Covered(s, t, id);
      assert id in s'.subs by { GrownSubs(s, s', t, id); }
      GrownServed(s, s', t, id);
    }
  }

  lemma GrownSubs(s: State, s': State, t: TaskId, id: SubId)
    requires Grows(s, s') && t in s.events && id in s.subs
    ensures t in s'.events && id in s'.subs
  {
  }

  // ----- the steps of a delivery -----

  /** The head of the list is served by the step that removes it. */
  lemma HeadServed(s: State, t: TaskId, step: TaskStep)
    requires Safe(s) && Books(s) && TaskEnabled(s, t, step) && (step.Check? || step.Select?)
    ensures var s', id := DoTask(s, t, step), s.tasks[t].rest[0]; id in s'.subs && t in s'.events && Served(s', t, id)
  {
    hide LockInv, RegistryInv, UnsubInv, Matches, LogInv, TasksInv, ChannelInv, TotalsInv, SubscriberInv;
    if step.Select? {
      assert s.tasks[t].rest[0] in s.tasks[t].Todo();
      assert Sendable(s, s.tasks[t].rest[0]);
    }
  }

  /** What the step makes of the task's own list. */
  ghost predicate TodoChange(s: State, s': State, t: TaskId, step: TaskStep)
    requires t in s.tasks
  {
    var before := s.tasks[t];
    if t !in s'.tasks then before.Todo() == [] && !NoSnapshot(before)
    else if step.Copy? then s'.tasks[t].Todo() == step.order && NoSnapshot(before) && !NoSnapshot(s'.tasks[t])
    else
      && NoSnapshot(s'.tasks[t]) == NoSnapshot(before)
      && (s'.tasks[t].Todo() == before.Todo() ||
          ((step.Check? || step.Select?) && before.Todo() != [] && s'.tasks[t].Todo() == before.Todo()[1..]))
  }

  lemma TodoAfter(s: State, t: TaskId, step: TaskStep)
    requires TaskEnabled(s, t, step) && !step.Publish?
    ensures TodoChange(s, DoTask(s, t, step), t, step)
    ensures DoTask(s, t, step).events == s.events
  {
    hide DoSelect, Matches, Ready;
    if step.Select? {
      SelectEffect(s, t, step.choice);
      SelectKeepsCounts(s, t, step.choice);
    }
  }

  lemma TaskSnapshots(s: State, m: Snapshots, t: TaskId, step: TaskStep)
    requires Safe(s) && Delivery(s, m) && TaskEnabled(s, t, step)
    ensures SnapshotsInv(DoTask(s, t, step), Taken(m, TaskAct(t, step)))
  {
    hide DoTask, TaskEnabled, LockInv, RegistryInv, UnsubInv, SnapshotInv, InsideInv, CoverInv, SameFlags;
    TaskFrame(s, t, step);
    TaskCounts(s, t, step);
    if step.Publish? { Published(s, t, step.e); } else { TodoAfter(s, t, step); }
    var s', m' := DoTask(s, t, step), Taken(m, TaskAct(t, step));
    forall u | u in s'.events ensures u in m' <==> !(u in s'.tasks && NoSnapshot(s'.tasks[u])) {
      assert u in s'.tasks.Keys <==> u in s'.tasks;
      assert u in s.tasks.Keys <==> u in s.tasks;
    }
  }

  lemma Published(s: State, t: TaskId, e: Event)
    requires TaskEnabled(s, t, Publish(e))
    ensures var s' := DoTask(s, t, Publish(e));
      s'.tasks == s.tasks[t := Counted] && s'.events == s.events[t := e]
      && s'.sent == s.sent && s'.drops == s.drops && s'.subs == s.subs
  {
  }

  /** Entries are added only for the head of the list. */
  lemma NewEntries(s: State, t: TaskId, step: TaskStep, x: (TaskId, SubId))
    requires Safe(s) && TaskEnabled(s, t, step)
    requires x in DoTask(s, t, step).sent + DoTask(s, t, step).drops && x !in s.sent + s.drops
    ensures t in s.tasks && x.0 == t && x.1 in s.tasks[t].Todo()
  {
    hide Safe, Matches, Ready, DoSelect;
    if step.Select? {
      SelectOutcome(s, t, step.choice);
      assert s.tasks[t].rest[0] in s.tasks[t].Todo();
    } else {
      TaskOutcome(s, t, step);
    }
  }

  lemma TaskInside(s: State, m: Snapshots, t: TaskId, step: TaskStep)
    requires Safe(s) && Delivery(s, m) && TaskEnabled(s, t, step)
    ensures InsideInv(DoTask(s, t, step), Taken(m, TaskAct(t, step)))
  {
    hide DoTask, TaskEnabled, Safe, CoverInv, SameFlags;
    var s', m' := DoTask(s, t, step), Taken(m, TaskAct(t, step));
    TaskFrame(s, t, step);
    TaskCounts(s, t, step);
    if step.Publish? { Published(s, t, step.e); } else { TodoAfter(s, t, step); }
    forall x | x in s'.sent + s'.drops ensures x.0 in m' && x.1 in m'[x.0] {
      if x !in s.sent + s.drops { NewEntries(s, t, step, x); }
      assert t in m ==> !step.Copy?;
    }
    forall u, id | u in s'.tasks && id in s'.tasks[u].Todo() ensures u in m' && id in m'[u] {
      if u != t {
        assert u in s.tasks.Keys && u in s.tasks && s'.tasks[u] == s.tasks[u];
      }
      if !(u == t && step.Copy?) {
        assert u == t ==> !step.Publish?;
        assert u in s.tasks && id in s.tasks[u].Todo() && u in m;
        assert t in m ==> !step.Copy?;
      }
    }
  }

  lemma TaskCover(s: State, m: Snapshots, t: TaskId, step: TaskStep)
    requires Safe(s) && Books(s) && Delivery(s, m) && TaskEnabled(s, t, step)
    ensures CoverInv(DoTask(s, t, step), Taken(m, TaskAct(t, step)))
  {
    hide DoTask, TaskEnabled, Safe, Books, InsideInv, SameFlags, Grows, Served;
    var s', m' := DoTask(s, t, step), Taken(m, TaskAct(t, step));
    TaskGrows(s, t, step);
    TaskCounts(s, t, step);
    if step.Publish? { Published(s, t, step.e); } else { TodoAfter(s, t, step); }
    forall u, id | u in m' && id in m'[u]
      ensures Covered(s', u, id)
    {
      if u == t && step.Copy? {
        JustCopied(s, t, step, id);
      } else {
        assert Covered(s, u, id);
        GrownSubs(s, s', u, id);
        StillServed(s, t, step, u, id);
      }
    }
  }

  lemma JustCopied(s: State, t: TaskId, step: TaskStep, id: SubId)
    requires Safe(s) && TaskEnabled(s, t, step) && step.Copy? && id in step.order
    ensures var s' := DoTask(s, t, step); t in s'.events && id in s'.subs && Served(s', t, id)
  {
    hide LockInv, UnsubInv, SnapshotInv, Matches;
    assert id in Elems(step.order);
  }

  lemma StillServed(s: State, t: TaskId, step: TaskStep, u: TaskId, id: SubId)
    requires Safe(s) && Books(s) && TaskEnabled(s, t, step) && !(u == t && step.Copy?) && !(u == t && step.Publish?)
    requires u in s.events && id in s.subs && Served(s, u, id)
    requires u in DoTask(s, t, step).events && id in DoTask(s, t, step).subs
    ensures Served(DoTask(s, t, step), u, id)
  {
    hide DoTask, TaskEnabled, Safe, Books, SameFlags, Grows, Served;
    var s' := DoTask(s, t, step);
    TaskFrame(s, t, step);
    TaskGrows(s, t, step);
    if u == t && t in s.tasks && id in s.tasks[t].Todo() && !(t in s'.tasks && id in s'.tasks[t].Todo()) {
      TodoAfter(s, t, step);
      HeadOf(s, t, step);
      HeadServed(s, t, step);
      assert id == s.tasks[t].Todo()[0];
    } else {
      assert u != t && u in s.tasks ==> u in s.tasks.Keys && u in s'.tasks.Keys;
      GrownServed(s, s', u, id);
    }
  }

  lemma HeadOf(s: State, t: TaskId, step: TaskStep)
    requires TaskEnabled(s, t, step) && (step.Check? || step.Select?)
    ensures s.tasks[t].Todo() != [] && s.tasks[t].Todo()[0] == s.tasks[t].rest[0]
  {
  }

  lemma StepKeepsDelivery(s: State, m: Snapshots, a: Action)
    requires Safe(s) && Books(s) && Delivery(s, m) && Enabled(s, a)
    ensures Delivery(Do(s, a), Taken(m, a))
  {
    hide Safe, Books, DoTask, DoOp, SnapshotsInv, InsideInv, CoverInv;
    match a
    case TaskAct(t, step) =>
      TaskSnapshots(s, m, t, step);
      TaskInside(s, m, t, step);
      TaskCover(s, m, t, step);
    case OpAct(o, step) =>
      OpGrows(s, o, step);
      QuietKeepsDelivery(s, DoOp(s, o, step), m);
    case Receive(id) =>
      QuietKeepsDelivery(s, DoReceive(s, id), m);
  }

  lemma {:induction false} RunsDeliver(capacity: nat, actions: seq<Action>)
    requires Exec(capacity, actions).Some?
    ensures Delivery(Exec(capacity, actions).value, SnapshotsOf(actions))
  {
    hide Safe, Books, Delivery, Enabled, Do;
    if actions == [] {
      InitDelivery(capacity);
    } else {
      var init, a := actions[..|actions| - 1], actions[|actions| - 1];
      RunsDeliver(capacity, init);
      RunsAreSafe(capacity, init);
      RunsBalance(capacity, init);
      StepKeepsDelivery(Exec(capacity, init).value, SnapshotsOf(init), a);
    }
  }

  /** Main theorem: once a publication has finished, every subscriber of its snapshot whose filters the
      event passes has it enqueued or dropped, unless it unsubscribed; and nobody else has. */
  lemma FinishedIsServed(capacity: nat, actions: seq<Action>, t: TaskId)
    requires Exec(capacity, actions).Some?
    requires var s := Exec(capacity, actions).value; t in s.events && t !in s.tasks
    ensures var s, m := Exec(capacity, actions).value, SnapshotsOf(actions);
      && t in m && (forall id | id in m[t] :: id in s.subs)
      && (forall id | id in m[t] && Matches(s.events[t], s.subs[id].filters) && !s.subs[id].cancelClosed ::
            (t, id) in s.sent + s.drops)
      && (forall id | (t, id) in s.sent + s.drops :: id in m[t] && Matches(s.events[t], s.subs[id].filters))
  {
    hide Enabled, Do, Matches, Safe;
    var s, m := Exec(capacity, actions).value, SnapshotsOf(actions);
    RunsDeliver(capacity, actions);
    RunsBalance(capacity, actions);
    forall id | id in m[t] ensures Covered(s, t, id) {}
    forall id | (t, id) in s.sent + s.drops ensures Matches(s.events[t], s.subs[id].filters) {
      assert EntryOk(s, (t, id));
    }
  }

  // ----- subscribers who stay -----

  /** Nobody unsubscribes id. */
  predicate NeverLeaves(actions: seq<Action>, id: SubId) {
    forall a | a in actions :: !(a.OpAct? && a.op == UnsubLock(id))
  }

  predicate Stays(s: State, id: SubId) {
    && (forall o | o in s.ops :: s.ops[o] != UnsubHeld(id) && !s.ops[o].Removing(id))
    && (id in s.subs ==> id in s.registry && !s.subs[id].cancelClosed)
  }

  lemma TaskStays(s: State, t: TaskId, step: TaskStep, id: SubId)
    requires Stays(s, id) && TaskEnabled(s, t, step)
    ensures Stays(DoTask(s, t, step), id)
  {
    hide DoTask, TaskEnabled;
    TaskFrame(s, t, step);
    assert id in DoTask(s, t, step).subs ==> id in s.subs.Keys;
  }

  lemma OpStays(s: State, o: OpId, step: OpStep, id: SubId)
    requires Stays(s, id) && OpEnabled(s, o, step) && step != UnsubLock(id)
    ensures Stays(DoOp(s, o, step), id)
  {
    hide DoOp, OpEnabled, Stays;
    OpsStay(s, o, step, id);
    SubStays(s, o, step, id);
    assert Stays(DoOp(s, o, step), id) by { JoinStays(DoOp(s, o, step), id); }
  }

  predicate NotRemoving(s: State, id: SubId) {
    forall o | o in s.ops :: s.ops[o] != UnsubHeld(id) && !s.ops[o].Removing(id)
  }

  lemma JoinStays(s: State, id: SubId)
    requires NotRemoving(s, id) && (id in s.subs ==> id in s.registry && !s.subs[id].cancelClosed)
    ensures Stays(s, id)
  {
  }

  lemma OpsStay(s: State, o: OpId, step: OpStep, id: SubId)
    requires Stays(s, id) && OpEnabled(s, o, step) && step != UnsubLock(id)
    ensures NotRemoving(DoOp(s, o, step), id)
  {
    hide DoOp;
    OpFrame(s, o, step);
    OwnOp(s, o, step, id);
  }

  lemma OwnOp(s: State, o: OpId, step: OpStep, id: SubId)
    requires OpEnabled(s, o, step) && step != UnsubLock(id)
    requires o in s.ops ==> s.ops[o] != UnsubHeld(id) && !s.ops[o].Removing(id)
    ensures var s' := DoOp(s, o, step); o in s'.ops ==> s'.ops[o] != UnsubHeld(id) && !s'.ops[o].Removing(id)
  {
  }

  lemma SubStays(s: State, o: OpId, step: OpStep, id: SubId)
    requires Stays(s, id) && OpEnabled(s, o, step)
    ensures var s' := DoOp(s, o, step); id in s'.subs ==> id in s'.registry && !s'.subs[id].cancelClosed
  {
  }

  lemma {:induction false} StaysInRun(capacity: nat, actions: seq<Action>, id: SubId)
    requires Exec(capacity, actions).Some? && NeverLeaves(actions, id)
    ensures Stays(Exec(capacity, actions).value, id)
  {
    hide DoTask, DoOp, TaskEnabled, OpEnabled;
    if actions == [] {
      InitStays(capacity, id);
    } else {
      var init, a := actions[..|actions| - 1], actions[|actions| - 1];
      assert a in actions && forall x | x in init :: x in actions;
      StaysInRun(capacity, init, id);
      match a
      case TaskAct(t, step) => TaskStays(Exec(capacity, init).value, t, step, id);
      case OpAct(o, step) => OpStays(Exec(capacity, init).value, o, step, id);
      case Receive(i) =>
    }
  }

  lemma InitStays(capacity: nat, id: SubId)
    ensures Stays(Init(capacity), id)
  {
  }

  /** For a subscriber who stays: an outcome exactly when it was in the snapshot and the filters pass. */
  lemma StayingIsServed(capacity: nat, actions: seq<Action>, t: TaskId, id: SubId)
    requires Exec(capacity, actions).Some? && NeverLeaves(actions, id)
    requires var s := Exec(capacity, actions).value; t in s.events && t !in s.tasks
    ensures var s, m := Exec(capacity, actions).value, SnapshotsOf(actions);
      t in m && ((t, id) in s.sent + s.drops <==>
                 id in m[t] && id in s.subs && Matches(s.events[t], s.subs[id].filters))
  {
    hide Exec, SnapshotsOf, Matches;
    FinishedIsServed(capacity, actions, t);
    StaysInRun(capacity, actions, id);
  }

  // ----- which subscribers a snapshot holds -----

  /** A snapshot is the registry of the moment, and is never taken again. */
  lemma SnapshotStep(s: State, m: Snapshots, a: Action, t: TaskId)
    requires Delivery(s, m) && Enabled(s, a) && t in Taken(m, a)
    ensures if t in m then Taken(m, a)[t] == m[t]
      else t in s.tasks && Distinct(Taken(m, a)[t]) && Elems(Taken(m, a)[t]) == s.registry
  {
    hide InsideInv, CoverInv, Matches, Ready;
  }

  /** A subscriber who is there before the event is published, and stays, is in its snapshot. */
  lemma {:induction false} EarlySubscribers(capacity: nat, actions: seq<Action>, n: nat, t: TaskId, id: SubId)
    requires Exec(capacity, actions).Some? && n <= |actions| && Exec(capacity, actions[..n]).Some?
    requires NeverLeaves(actions, id)
    requires var s := Exec(capacity, actions[..n]).value; id in s.subs && t !in s.events
    ensures id in Exec(capacity, actions).value.subs
    ensures t in SnapshotsOf(actions) ==> id in SnapshotsOf(actions)[t]
  {
    hide Safe, Delivery, Stays, Do, Enabled, Grows, Taken;
    if n == |actions| {
      assert actions[..n] == actions;
      RunsDeliver(capacity, actions);
      DeliverySnapshots(Exec(capacity, actions).value, SnapshotsOf(actions));
    } else {
      var init, a := actions[..|actions| - 1], actions[|actions| - 1];
      assert init[..n] == actions[..n] && forall x | x in init :: x in actions;
      EarlySubscribers(capacity, init, n, t, id);
      RunsAreSafe(capacity, init);
      RunsDeliver(capacity, init);
      StaysInRun(capacity, init, id);
      EarlyStep(Exec(capacity, init).value, SnapshotsOf(init), a, t, id);
    }
  }

  lemma DeliverySnapshots(s: State, m: Snapshots)
    requires Delivery(s, m)
    ensures SnapshotsInv(s, m)
  {
  }

  lemma EarlyStep(s: State, m: Snapshots, a: Action, t: TaskId, id: SubId)
    requires Safe(s) && Delivery(s, m) && Enabled(s, a) && Stays(s, id)
    requires id in s.subs && (t in m ==> id in m[t])
    ensures id in Do(s, a).subs && (t in Taken(m, a) ==> id in Taken(m, a)[t])
  {
    hide Safe, Delivery, Do, Enabled, Taken;
    StepGrows(s, a);
    if t in Taken(m, a) {
      SnapshotStep(s, m, a, t);
      if t !in m { assert id in Elems(Taken(m, a)[t]); }
    }
  }

  lemma StepGrows(s: State, a: Action)
    requires Safe(s) && Enabled(s, a)
    ensures Grows(s, Do(s, a))
  {
    hide Safe, DoTask, DoOp;
    match a
    case TaskAct(t, step) => TaskGrows(s, t, step);
    case OpAct(o, step) => OpGrows(s, o, step);
    case Receive(id) =>
  }

  /** Whoever subscribed before the event was published and stays gets every event that passes its
      filters, as soon as the publication has finished: enqueued or, at worst, dropped. */
  lemma EarlySubscribersAreServed(capacity: nat, actions: seq<Action>, n: nat, t: TaskId, id: SubId)
    requires Exec(capacity, actions).Some? && n <= |actions| && Exec(capacity, actions[..n]).Some?
    requires NeverLeaves(actions, id)
    requires var s := Exec(capacity, actions[..n]).value; id in s.subs && t !in s.events
    requires var s := Exec(capacity, actions).value; t in s.events && t !in s.tasks
    ensures var s := Exec(capacity, actions).value;
      id in s.subs && ((t, id) in s.sent + s.drops <==> Matches(s.events[t], s.subs[id].filters))
  {
    hide Exec, SnapshotsOf, Matches;
    EarlySubscribers(capacity, actions, n, t, id);
    StayingIsServed(capacity, actions, t, id);
  }

  /** Whoever subscribes after the publication has finished gets nothing of it. */
  lemma {:induction false} LateSubscribersGetNothing(capacity: nat, actions: seq<Action>, n: nat, t: TaskId, id: SubId)
    requires Exec(capacity, actions).Some? && n <= |actions| && Exec(capacity, actions[..n]).Some?
    requires var s := Exec(capacity, actions[..n]).value; t in s.events && t !in s.tasks && id !in s.subs
    ensures t in SnapshotsOf(actions) && id !in SnapshotsOf(actions)[t]
    ensures var s := Exec(capacity, actions).value; (t, id) !in s.sent + s.drops
  {
    hide Safe, Books, Delivery, Do, Enabled;
    RunsDeliver(capacity, actions);
    if n == |actions| {
      assert actions[..n] == actions;
      FinishedIsServed(capacity, actions, t);
    } else {
      var init, a := actions[..|actions| - 1], actions[|actions| - 1];
      assert init[..n] == actions[..n];
      LateSubscribersGetNothing(capacity, init, n, t, id);
      RunsDeliver(capacity, init);
      SnapshotStep(Exec(capacity, init).value, SnapshotsOf(init), a, t);
    }
    var s := Exec(capacity, actions).value;
    if (t, id) in s.sent + s.drops { EntryInside(s, SnapshotsOf(actions), t, id); }
  }

  lemma EntryInside(s: State, m: Snapshots, t: TaskId, id: SubId)
    requires Delivery(s, m) && (t, id) in s.sent + s.drops
    ensures t in m && id in m[t]
  {
    hide SnapshotsInv, CoverInv;
    var x := (t, id);
    assert x in s.sent + s.drops;
  }

  // ----- why an event is dropped -----

  /** Only a select adds to the logs. */
  lemma OnlySelectLogs(s: State, a: Action)
    requires Safe(s) && Enabled(s, a) && !(a.TaskAct? && a.task.Select?)
    ensures Do(s, a).sent == s.sent && Do(s, a).drops == s.drops
  {
    hide Safe, DoTask, DoOp, TaskEnabled, OpEnabled;
    match a
    case TaskAct(t, step) => TaskOutcome(s, t, step);
    case OpAct(o, step) => OpOutcome(s, o, step);
    case Receive(id) =>
  }

  /** The delivery gives up on a subscriber whose channel is full and open. */
  predicate Full(s: State, id: SubId) {
    id in s.subs && |s.subs[id].buffer| == s.capacity && !s.subs[id].cancelClosed
  }

  /** There is room in its buffer, or the buffer is empty and a receiver waits. */
  predicate Room(s: State, id: SubId) {
    id in s.subs && (|s.subs[id].buffer| < s.capacity || s.subs[id].buffer == [])
  }

  lemma DropStep(s: State, a: Action, x: (TaskId, SubId))
    requires Safe(s) && Books(s) && Enabled(s, a)
    ensures x in Do(s, a).drops && x !in s.drops ==> a == TaskAct(x.0, Select(DropFull)) && Full(s, x.1)
    ensures x in Do(s, a).sent && x !in s.sent ==> a.TaskAct? && a.t == x.0 && Room(s, x.1)
  {
    hide Safe, DoSelect, LogInv, TasksInv, TotalsInv, SubscriberInv, Matches, Project, DoOp, OpEnabled;
    if a.TaskAct? && a.task.Select? {
      SelectOutcome(s, a.t, a.task.choice);
      OpenHead(s, a.t, a.task.choice);
    } else {
      OnlySelectLogs(s, a);
    }
  }

  lemma OpenHead(s: State, t: TaskId, c: Choice)
    requires Safe(s) && TaskEnabled(s, t, Select(c))
    ensures !s.subs[s.tasks[t].rest[0]].chClosed
  {
    hide LockInv, RegistryInv, UnsubInv;
    assert s.tasks[t].rest[0] in s.tasks[t].Todo();
    assert Sendable(s, s.tasks[t].rest[0]);
  }

  /** After n actions the next one is the select that drops x, and the channel is full. */
  ghost predicate DroppedAt(capacity: nat, actions: seq<Action>, n: nat, x: (TaskId, SubId)) {
    && n < |actions| && Exec(capacity, actions[..n]).Some?
    && actions[n] == TaskAct(x.0, Select(DropFull)) && Full(Exec(capacity, actions[..n]).value, x.1)
  }

  ghost predicate SentAt(capacity: nat, actions: seq<Action>, n: nat, x: (TaskId, SubId)) {
    && n < |actions| && Exec(capacity, actions[..n]).Some?
    && actions[n].TaskAct? && actions[n].t == x.0 && Room(Exec(capacity, actions[..n]).value, x.1)
  }

  /** An event is dropped only for a full channel, and enqueued only where there is room. */
  lemma {:induction false} DropsMeanFull(capacity: nat, actions: seq<Action>, x: (TaskId, SubId))
    requires Exec(capacity, actions).Some?
    ensures x in Exec(capacity, actions).value.drops ==> exists n :: DroppedAt(capacity, actions, n, x)
    ensures x in Exec(capacity, actions).value.sent ==> exists n :: SentAt(capacity, actions, n, x)
  {
    hide Safe, Books, Full, Room, Do, Enabled;
    if actions != [] {
      var m := |actions| - 1;
      var init := actions[..m];
      DropsMeanFull(capacity, init, x);
      RunsAreSafe(capacity, init);
      RunsBalance(capacity, init);
      var before, after := Exec(capacity, init).value, Exec(capacity, actions).value;
      DropStep(before, actions[m], x);
      if x in after.drops {
        if x in before.drops {
          var n: nat :| DroppedAt(capacity, init, n, x);
          assert init[..n] == actions[..n];
          assert DroppedAt(capacity, actions, n, x);
        } else {
          assert DroppedAt(capacity, actions, m, x);
        }
      }
      if x in after.sent {
        if x in before.sent {
          var n: nat :| SentAt(capacity, init, n, x);
          assert init[..n] == actions[..n];
          assert SentAt(capacity, actions, n, x);
        } else {
          assert SentAt(capacity, actions, m, x);
        }
      }
    }
  }

  // ----- nothing gets stuck -----

  lemma {:induction false} Enumerate(ids: set<SubId>) returns (order: seq<SubId>)
    ensures Distinct(order) && Elems(order) == ids
  {
    if ids == {} {
      order := [];
    } else {
      var id :| id in ids;
      var rest := Enumerate(ids - {id});
      assert id !in Elems(rest);
      order := rest + [id];
      ElemsSnoc(rest, id);
    }
  }

  /** A delivery waits for the write lock and for nothing else. */
  lemma NeverStuck(capacity: nat, actions: seq<Action>, t: TaskId) returns (step: TaskStep)
    requires Exec(capacity, actions).Some?
    requires var s := Exec(capacity, actions).value; t in s.tasks && (s.tasks[t].Added? ==> s.writer == {})
    ensures TaskEnabled(Exec(capacity, actions).value, t, step) && !step.Publish?
  {
    hide Safe, Do, Enabled, Matches;
    var s := Exec(capacity, actions).value;
    RunsAreSafe(capacity, actions);
    RunsBalance(capacity, actions);
    assert TaskOk(s, t);
    match s.tasks[t]
    case Counted => step := WgAdd;
    case Added => step := RLock;
    case Reading =>
      var order := Enumerate(s.registry);
      step := Copy(order);
    case Copied(_) => step := RUnlock;
    case Delivering(rest, _, _) =>
      step := if rest == [] then AddDelivered else Check;
      if rest != [] { assert rest[0] in s.tasks[t].Todo(); }
    case Sending(rest, _, _) =>
      var sub := s.subs[rest[0]];
      step := Select(if sub.chClosed || |sub.buffer| < s.capacity then Enqueue
                     else if sub.cancelClosed then SkipCancelled else DropFull);
    case FlushedDelivered(_) => step := AddDropped;
    case Finishing => step := WgDone;
  }

  /** Exactly the events with an identifier, a kind, a resource and a time are published. */
  lemma {:induction false} OnlyValidEvents(capacity: nat, actions: seq<Action>, t: TaskId, e: Event)
    requires Exec(capacity, actions).Some?
    ensures var s := Exec(capacity, actions).value;
      && (t in s.events ==> var e := s.events[t]; e.id != "" && e.kind != 0 && e.resource != "" && e.timestamp != 0)
      && (t !in s.events ==> (Enabled(s, TaskAct(t, Publish(e))) <==>
                              e.id != "" && e.kind != 0 && e.resource != "" && e.timestamp != 0))
  {
    if actions != [] {
      var init, a := actions[..|actions| - 1], actions[|actions| - 1];
      OnlyValidEvents(capacity, init, t, e);
      NewEvent(Exec(capacity, init).value, a, t);
    }
  }

  lemma NewEvent(s: State, a: Action, t: TaskId)
    requires Enabled(s, a)
    ensures var s' := Do(s, a);
      t in s'.events && (t !in s.events || s'.events[t] != s.events[t]) ==> ValidEvent(s'.events[t])
  {
    hide DoSelect, DoCheck, Matches;
    if a.TaskAct? && a.task.Select? { SelectKeepsCounts(s, a.t, a.task.choice); }
    if a.TaskAct? && a.task.Check? { CheckKeepsEvents(s, a.t); }
  }

  lemma CheckKeepsEvents(s: State, t: TaskId)
    requires TaskEnabled(s, t, Check)
    ensures DoCheck(s, t).events == s.events
  {
  }

  // ----- cancelled subscriptions -----

  /** The subscription is cancelled, and task t has neither sent to it nor passed its cancel check. */
  predicate CutOff(s: State, t: TaskId, id: SubId) {
    && id in s.subs && s.subs[id].cancelClosed && (t, id) !in s.sent + s.drops
    && !(t in s.tasks && s.tasks[t].Sending? && s.tasks[t].rest != [] && s.tasks[t].rest[0] == id)
  }

  lemma CutOffTask(s: State, t: TaskId, id: SubId, u: TaskId, step: TaskStep)
    requires Safe(s) && CutOff(s, t, id) && TaskEnabled(s, u, step)
    ensures CutOff(DoTask(s, u, step), t, id)
  {
    hide Safe, DoTask, TaskEnabled, DoSelect;
    var s' := DoTask(s, u, step);
    TaskFrame(s, u, step);
    assert id in s'.subs.Keys && id in s'.subs;
    assert (t, id) !in s'.sent + s'.drops by { CutOffLogs(s, t, id, u, step); }
    if u == t {
      CutOffHead(s, t, id, step);
    } else {
      assert t in s'.tasks ==> t in s'.tasks.Keys && t in s.tasks.Keys;
    }
  }

  lemma CutOffLogs(s: State, t: TaskId, id: SubId, u: TaskId, step: TaskStep)
    requires Safe(s) && CutOff(s, t, id) && TaskEnabled(s, u, step)
    ensures (t, id) !in DoTask(s, u, step).sent + DoTask(s, u, step).drops
  {
    hide Safe, DoSelect, Matches, Ready;
    if step.Select? { SelectOutcome(s, u, step.choice); } else { TaskOutcome(s, u, step); }
  }

  lemma CutOffHead(s: State, t: TaskId, id: SubId, step: TaskStep)
    requires CutOff(s, t, id) && TaskEnabled(s, t, step)
    ensures var s' := DoTask(s, t, step);
      !(t in s'.tasks && s'.tasks[t].Sending? && s'.tasks[t].rest != [] && s'.tasks[t].rest[0] == id)
  {
    hide DoSelect, Matches, Ready;
    if step.Select? { SelectEffect(s, t, step.choice); }
  }

  lemma CutOffStep(s: State, t: TaskId, id: SubId, a: Action)
    requires Safe(s) && CutOff(s, t, id) && Enabled(s, a)
    ensures CutOff(Do(s, a), t, id)
  {
    hide Safe, DoTask, DoOp, TaskEnabled, OpEnabled;
    match a
    case TaskAct(u, step) => CutOffTask(s, t, id, u, step);
    case OpAct(o, step) => OpGrows(s, o, step);
    case Receive(i) =>
  }

  /** Once the cancel channel is closed, a delivery that has not yet passed its check skips the
      subscriber for good. */
  lemma {:induction false} CancelledIsSkipped(capacity: nat, actions: seq<Action>, n: nat, t: TaskId, id: SubId)
    requires Exec(capacity, actions).Some? && n <= |actions| && Exec(capacity, actions[..n]).Some?
    requires CutOff(Exec(capacity, actions[..n]).value, t, id)
    ensures CutOff(Exec(capacity, actions).value, t, id)
  {
    hide Safe, CutOff, Do, Enabled;
    if n == |actions| {
      assert actions[..n] == actions;
    } else {
      var init := actions[..|actions| - 1];
      assert init[..n] == actions[..n];
      CancelledIsSkipped(capacity, init, n, t, id);
      RunsAreSafe(capacity, init);
      CutOffStep(Exec(capacity, init).value, t, id, actions[|actions| - 1]);
    }
  }

  // ----- subscribing and unsubscribing -----

  /** Some call subscribed id with a request that asks for exactly what the filters pass. */
  ghost predicate Requested(actions: seq<Action>, id: SubId, filters: seq<Filter>) {
    exists o, req :: OpAct(o, SubLock(id, req)) in actions && forall e :: Matches(e, filters) <==> Asked(req, e)
  }

  ghost predicate FiltersInv(s: State, actions: seq<Action>) {
    && (forall id | id in s.subs :: Requested(actions, id, s.subs[id].filters))
    && (forall o | o in s.ops && s.ops[o].SubHeld? :: Requested(actions, s.ops[o].id, s.ops[o].filters))
  }

  lemma RequestedMore(actions: seq<Action>, a: Action, id: SubId, filters: seq<Filter>)
    requires Requested(actions, id, filters)
    ensures Requested(actions + [a], id, filters)
  {
    hide Matches, Asked;
    var o, req :| OpAct(o, SubLock(id, req)) in actions && forall e :: Matches(e, filters) <==> Asked(req, e);
    assert OpAct(o, SubLock(id, req)) in actions + [a];
  }

  lemma RequestedNow(actions: seq<Action>, o: OpId, id: SubId, req: Request)
    ensures Requested(actions + [OpAct(o, SubLock(id, req))], id, BuildFilters(req))
  {
    hide Matches, Asked, BuildFilters;
    var all := actions + [OpAct(o, SubLock(id, req))];
    assert OpAct(o, SubLock(id, req)) == all[|actions|];
    forall e ensures Matches(e, BuildFilters(req)) <==> Asked(req, e) { FiltersMeanRequest(e, req); }
  }

  /** What a step of a call does to the filters it holds and the subscriptions. */
  lemma FiltersAfter(s: State, o: OpId, step: OpStep)
    requires OpEnabled(s, o, step)
    ensures var s' := DoOp(s, o, step);
      && (o in s'.ops && s'.ops[o].SubHeld? ==> step.SubLock? && s'.ops[o] == SubHeld(step.id, BuildFilters(step.req)))
      && (forall i | i in s'.subs ::
            || (i in s.subs && s'.subs[i].filters == s.subs[i].filters)
            || (o in s.ops && s.ops[o].SubHeld? && s.ops[o].id == i && s'.subs[i].filters == s.ops[o].filters))
  {
  }

  lemma OpFilters(s: State, o: OpId, step: OpStep, actions: seq<Action>)
    requires FiltersInv(s, actions) && OpEnabled(s, o, step)
    ensures FiltersInv(DoOp(s, o, step), actions + [OpAct(o, step)])
  {
    hide DoOp, OpEnabled, Requested, BuildFilters;
    var s' := DoOp(s, o, step);
    OpFrame(s, o, step);
    FiltersAfter(s, o, step);
    forall i | i in s'.subs ensures Requested(actions + [OpAct(o, step)], i, s'.subs[i].filters) {
      RequestedMore(actions, OpAct(o, step), i, s'.subs[i].filters);
    }
    forall p | p in s'.ops && s'.ops[p].SubHeld?
      ensures Requested(actions + [OpAct(o, step)], s'.ops[p].id, s'.ops[p].filters)
    {
      if p == o {
        RequestedNow(actions, o, step.id, step.req);
      } else {
        RequestedMore(actions, OpAct(o, step), s'.ops[p].id, s'.ops[p].filters);
      }
    }
  }

  lemma SameFilters(s: State, s': State, actions: seq<Action>, a: Action)
    requires FiltersInv(s, actions) && s'.ops == s.ops && s'.subs.Keys == s.subs.Keys
    requires forall i | i in s.subs :: s'.subs[i].filters == s.subs[i].filters
    ensures FiltersInv(s', actions + [a])
  {
    hide Requested;
    forall i | i in s'.subs ensures Requested(actions + [a], i, s'.subs[i].filters) {
      assert i in s.subs.Keys;
      RequestedMore(actions, a, i, s.subs[i].filters);
    }
    forall o | o in s'.ops && s'.ops[o].SubHeld? ensures Requested(actions + [a], s'.ops[o].id, s'.ops[o].filters) {
      RequestedMore(actions, a, s.ops[o].id, s.ops[o].filters);
    }
  }

  /** Every subscription filters as the request it was made with asks. */
  lemma {:induction false} FiltersAreRequested(capacity: nat, actions: seq<Action>)
    requires Exec(capacity, actions).Some?
    ensures FiltersInv(Exec(capacity, actions).value, actions)
  {
    hide Safe, FiltersInv, DoTask, DoOp, TaskEnabled, OpEnabled, SameFlags;
    if actions == [] {
      NoFilters(capacity);
    } else {
      var init, a := actions[..|actions| - 1], actions[|actions| - 1];
      assert actions == init + [a];
      FiltersAreRequested(capacity, init);
      RunsAreSafe(capacity, init);
      var s := Exec(capacity, init).value;
      match a
      case TaskAct(t, step) =>
        TaskFilters(s, t, step);
        SameFilters(s, DoTask(s, t, step), init, a);
      case OpAct(o, step) => OpFilters(s, o, step, init);
      case Receive(id) => SameFilters(s, DoReceive(s, id), init, a);
    }
  }

  lemma NoFilters(capacity: nat)
    ensures FiltersInv(Init(capacity), [])
  {
  }

  lemma TaskFilters(s: State, t: TaskId, step: TaskStep)
    requires Safe(s) && TaskEnabled(s, t, step)
    ensures var s' := DoTask(s, t, step);
      && s'.ops == s.ops && s'.subs.Keys == s.subs.Keys
      && (forall i | i in s.subs :: s'.subs[i].filters == s.subs[i].filters)
  {
    hide Safe, DoTask, TaskEnabled;
    TaskFrame(s, t, step);
    TaskGrows(s, t, step);
  }

  /** A subscription is registered, or some call is taking it down, or its channel is closed. */
  ghost predicate Accounted(s: State, id: SubId) {
    id in s.subs ==> id in s.registry || s.subs[id].chClosed || exists o | o in s.ops :: s.ops[o].Removing(id)
  }

  lemma OpAccounted(s: State, o: OpId, step: OpStep, id: SubId)
    requires Accounted(s, id) && OpEnabled(s, o, step)
    ensures Accounted(DoOp(s, o, step), id)
  {
    hide DoOp, OpEnabled;
    var s' := DoOp(s, o, step);
    OpFrame(s, o, step);
    OwnRemoval(s, o, step, id);
    if p :| p in s.ops && s.ops[p].Removing(id) && p != o { assert p in s'.ops && s'.ops[p].Removing(id); }
  }

  lemma OwnRemoval(s: State, o: OpId, step: OpStep, id: SubId)
    requires OpEnabled(s, o, step)
    ensures var s' := DoOp(s, o, step);
      && (id in s'.subs && id !in s.subs ==> id in s'.registry)
      && (id in s.registry && id !in s'.registry ==> o in s'.ops && s'.ops[o].Removing(id))
      && (id in s.subs && s.subs[id].chClosed ==> (id in s'.subs && s'.subs[id].chClosed) || id in s'.registry)
      && (o in s.ops && s.ops[o].Removing(id) ==>
            (o in s'.ops && s'.ops[o].Removing(id)) || (id in s'.subs && s'.subs[id].chClosed))
  {
  }

  /** Unsubscribing always ends with the channel closed. */
  lemma {:induction false} GoneIsClosed(capacity: nat, actions: seq<Action>, id: SubId)
    requires Exec(capacity, actions).Some?
    ensures Accounted(Exec(capacity, actions).value, id)
  {
    hide Safe, DoTask, DoOp, TaskEnabled, OpEnabled, Accounted, SameFlags;
    if actions == [] {
      NobodyYet(capacity, id);
    } else {
      var init := actions[..|actions| - 1];
      GoneIsClosed(capacity, init, id);
      var s := Exec(capacity, init).value;
      match actions[|actions| - 1]
      case TaskAct(t, step) =>
        TaskFrame(s, t, step);
        SameAccount(s, DoTask(s, t, step), id);
      case OpAct(o, step) => OpAccounted(s, o, step, id);
      case Receive(i) =>
        ReceiveFlags(s, i);
        SameAccount(s, DoReceive(s, i), id);
    }
  }

  lemma NobodyYet(capacity: nat, id: SubId)
    ensures Accounted(Init(capacity), id)
  {
  }

  lemma ReceiveFlags(s: State, i: SubId)
    requires Enabled(s, Receive(i))
    ensures SameFlags(s, DoReceive(s, i))
  {
  }

  lemma SameAccount(s: State, s': State, id: SubId)
    requires Accounted(s, id) && SameFlags(s, s')
    ensures Accounted(s', id)
  {
    assert id in s'.subs ==> id in s.subs.Keys;
  }
}
