/** Delivery is conserved: what was enqueued, dropped, received and counted always adds up. */
module EventBusAccounting {
  import opened Basics
  import opened EventBus
  import opened EventBusSafety

  type Log = seq<(TaskId, SubId)>

  /** How many entries of the log belong to these tasks. */
  function CountIn(log: Log, ts: set<TaskId>): nat {
    if log == [] then 0
    else CountIn(log[..|log| - 1], ts) + if log[|log| - 1].0 in ts then 1 else 0
  }

  /** Those whose events went to one subscriber, in order. */
  function Project(log: Log, id: SubId): seq<TaskId> {
    if log == [] then []
    else Project(log[..|log| - 1], id) + if log[|log| - 1].1 == id then [log[|log| - 1].0] else []
  }

  lemma Snoc(log: Log, t: TaskId, id: SubId)
    ensures forall ts :: CountIn(log + [(t, id)], ts) == CountIn(log, ts) + if t in ts then 1 else 0
    ensures forall i :: Project(log + [(t, id)], i) == Project(log, i) + if i == id then [t] else []
  {
    assert (log + [(t, id)])[..|log|] == log;
  }

  lemma {:induction false} CountSplit(log: Log, ts: set<TaskId>, t: TaskId)
    requires t in ts
    ensures CountIn(log, ts) == CountIn(log, ts - {t}) + CountIn(log, {t})
  {
    if log != [] { CountSplit(log[..|log| - 1], ts, t); }
  }

  lemma {:induction false} CountNone(log: Log, ts: set<TaskId>, t: TaskId)
    requires forall x | x in log :: x.0 != t
    ensures CountIn(log, {t}) == 0 && CountIn(log, ts + {t}) == CountIn(log, ts)
  {
    if log != [] { CountNone(log[..|log| - 1], ts, t); }
  }

  lemma {:induction false} ProjectNone(log: Log, id: SubId)
    requires forall x | x in log :: x.1 != id
    ensures Project(log, id) == []
  {
    if log != [] { ProjectNone(log[..|log| - 1], id); }
  }

  // ----- the books -----

  /** Deliveries that have not yet added their delivered (dropped) count to the totals. */
  function OwesDelivered(s: State): set<TaskId> {
    set t | t in s.tasks && !s.tasks[t].FlushedDelivered? && !s.tasks[t].Finishing?
  }

  function OwesDropped(s: State): set<TaskId> {
    set t | t in s.tasks && !s.tasks[t].Finishing?
  }

  predicate Early(t: Task) { t.Counted? || t.Added? || t.Reading? || t.Copied? }

  /** One log entry: the event passed the subscriber's filters, and its task is done with it. */
  ghost predicate EntryOk(s: State, x: (TaskId, SubId)) {
    && x.0 in s.events && x.1 in s.subs && Matches(s.events[x.0], s.subs[x.1].filters)
    && (x.0 in s.tasks ==> !Early(s.tasks[x.0]) && x.1 !in s.tasks[x.0].Todo())
  }

  ghost predicate LogInv(s: State) {
    (forall x | x in s.sent + s.drops :: EntryOk(s, x)) && Distinct(s.sent + s.drops)
  }

  ghost predicate TaskOk(s: State, t: TaskId)
    requires t in s.tasks
  {
    var task := s.tasks[t];
    && t in s.events && Distinct(task.Todo()) && (forall id | id in task.Todo() :: id in s.subs)
    && (task.Sending? ==> task.rest != [] && task.rest[0] in s.subs
                          && Matches(s.events[t], s.subs[task.rest[0]].filters))
    && (t in OwesDelivered(s) ==> task.Delivered() == CountIn(s.sent, {t}))
    && (t in OwesDropped(s) ==> task.Dropped() == CountIn(s.drops, {t}))
  }

  ghost predicate TasksInv(s: State) {
    forall t | t in s.tasks :: TaskOk(s, t)
  }

  /** Channels are first in, first out, bounded, and lose nothing. */
  ghost predicate ChannelInv(s: State) {
    forall id | id in s.subs ::
      |s.subs[id].buffer| <= s.capacity && s.subs[id].received + s.subs[id].buffer == Project(s.sent, id)
  }

  ghost predicate TotalsInv(s: State) {
    && s.deliveredTotal + CountIn(s.sent, OwesDelivered(s)) == |s.sent|
    && s.droppedTotal + CountIn(s.drops, OwesDropped(s)) == |s.drops|
  }

  /** Calls that changed the map but not yet the counter. */
  function Deleting(s: State): set<OpId> { set o | o in s.ops && s.ops[o].UnsubDeleted? }
  function Inserting(s: State): set<OpId> { set o | o in s.ops && s.ops[o].SubInserted? }

  ghost predicate SubscriberInv(s: State) {
    s.subscribersTotal == |s.registry| + |Deleting(s)| - |Inserting(s)|
  }

  ghost predicate Books(s: State) {
    LogInv(s) && TasksInv(s) && ChannelInv(s) && TotalsInv(s) && SubscriberInv(s) && s.published == |s.events|
  }

  lemma InitBooks(capacity: nat)
    ensures Books(Init(capacity))
  {
  }

  // ----- a delivery that records an outcome -----

  /** What Select does, without saying how: the head leaves the snapshot with one outcome. */
  lemma SelectOutcome(s: State, t: TaskId, c: Choice)
    requires Safe(s) && TaskEnabled(s, t, Select(c))
    ensures var s', task := DoSelect(s, t, c), s.tasks[t]; var id := task.rest[0];
      && s'.sent == s.sent + (if c.Enqueue? || c.Handoff? then [(t, id)] else [])
      && s'.drops == s.drops + (if c.DropFull? then [(t, id)] else [])
      && s'.tasks == s.tasks[t := Delivering(task.rest[1..],
           task.delivered + (if c.Enqueue? || c.Handoff? then 1 else 0), task.dropped + if c.DropFull? then 1 else 0)]
      && s'.subs.Keys == s.subs.Keys && (forall i | i in s.subs :: s'.subs[i].filters == s.subs[i].filters)
      && s'.deliveredTotal == s.deliveredTotal && s'.droppedTotal == s.droppedTotal && s'.events == s.events
      && s'.capacity == s.capacity && (forall i | i in s.subs && i != id :: s'.subs[i] == s.subs[i])
      && s'.subs[id].received + s'.subs[id].buffer ==
         s.subs[id].received + s.subs[id].buffer + (if c.Enqueue? || c.Handoff? then [t] else [])
      && (|s.subs[id].buffer| <= s.capacity ==> |s'.subs[id].buffer| <= s'.capacity)
  {
    hide LockInv, RegistryInv, UnsubInv;
    assert s.tasks[t].rest[0] in s.tasks[t].Todo();
    assert Sendable(s, s.tasks[t].rest[0]);
  }

  lemma SelectLog(s: State, t: TaskId, c: Choice)
    requires Safe(s) && Books(s) && TaskEnabled(s, t, Select(c))
    ensures LogInv(DoSelect(s, t, c))
  {
    hide Safe, DoSelect, ChannelInv, TotalsInv, SubscriberInv, CountIn, Matches, Ready;
    var s', id := DoSelect(s, t, c), s.tasks[t].rest[0];
    SelectOutcome(s, t, c);
    assert TaskOk(s, t);
    HeadLeaves(s.tasks[t].rest);
    forall x | x in s'.sent + s'.drops ensures EntryOk(s', x) {
      if x in s.sent + s.drops { assert EntryOk(s, x); }
    }
    forall x | x in s.sent + s.drops ensures x != (t, id) {
      assert EntryOk(s, x) && id in s.tasks[t].Todo();
    }
    DistinctInsert(s.sent, s.drops, (t, id));
  }

  lemma HeadLeaves<T>(xs: seq<T>)
    requires xs != [] && Distinct(xs)
    ensures xs[0] !in xs[1..] && Distinct(xs[1..]) && forall x | x in xs[1..] :: x in xs
  {
  }

  lemma DistinctInsert<T>(a: seq<T>, b: seq<T>, x: T)
    requires Distinct(a + b) && x !in a + b
    ensures Distinct(a + [x] + b) && Distinct(a + (b + [x])) && Distinct(a + [] + (b + []))
    ensures Distinct(a + [x] + (b + []))
    ensures Distinct(a + [] + (b + [x]))
  {
    assert a + (b + [x]) == (a + b) + [x];
    var c := a + [x] + b;
    forall i, j | 0 <= i < j < |c| ensures c[i] != c[j] {
      var i' := if i < |a| then i else i - 1;
      var j' := if j < |a| then j else j - 1;
      if i != |a| { assert c[i] == (a + b)[i']; }
      if j != |a| { assert c[j] == (a + b)[j']; }
    }
    assert a + [] + (b + []) == a + b;
    assert a + [x] + (b + []) == a + [x] + b;
    assert a + [] + (b + [x]) == a + (b + [x]);
  }

  lemma SelectTasks(s: State, t: TaskId, c: Choice)
    requires Safe(s) && Books(s) && TaskEnabled(s, t, Select(c))
    ensures TasksInv(DoSelect(s, t, c))
  {
    hide Safe, DoSelect, ChannelInv, TotalsInv, SubscriberInv, Matches, Ready, LogInv, CountIn, Project;
    var s', id := DoSelect(s, t, c), s.tasks[t].rest[0];
    SelectOutcome(s, t, c);
    Snoc(s.sent, t, id);
    Snoc(s.drops, t, id);
    assert s.sent + [] == s.sent && s.drops + [] == s.drops;
    forall u | u in s'.tasks ensures TaskOk(s', u) {
      assert TaskOk(s, u);
      if u == t { HeadLeaves(s.tasks[t].rest); }
    }
  }

  lemma SelectTotals(s: State, t: TaskId, c: Choice)
    requires Safe(s) && Books(s) && TaskEnabled(s, t, Select(c))
    ensures TotalsInv(DoSelect(s, t, c)) && ChannelInv(DoSelect(s, t, c))
  {
    hide Safe, DoSelect, SubscriberInv, Matches, Ready, LogInv, CountIn, TasksInv, Project;
    var s', id := DoSelect(s, t, c), s.tasks[t].rest[0];
    SelectOutcome(s, t, c);
    Snoc(s.sent, t, id);
    Snoc(s.drops, t, id);
    assert s.sent + [] == s.sent && s.drops + [] == s.drops;
    assert OwesDelivered(s') == OwesDelivered(s) && OwesDropped(s') == OwesDropped(s);
  }

  // ----- every other step of a delivery -----

  lemma TaskOutcome(s: State, t: TaskId, step: TaskStep)
    requires TaskEnabled(s, t, step) && !step.Select?
    ensures var s' := DoTask(s, t, step);
      && s'.sent == s.sent && s'.drops == s.drops && s'.subs == s.subs && s'.capacity == s.capacity
      && s'.ops == s.ops && s'.registry == s.registry && s'.subscribersTotal == s.subscribersTotal
      && (forall u | u in s.tasks && u != t :: u in s'.tasks && s'.tasks[u] == s.tasks[u])
      && (forall u | u in s'.tasks :: u in s.tasks || u == t)
      && (forall u | u in s.events :: u in s'.events && s'.events[u] == s.events[u])
  {
  }

  /** Tasks that have not released the read lock, and tasks yet to start, have no log entries. */
  lemma NoEntriesYet(s: State, t: TaskId)
    requires LogInv(s) && (t !in s.events || (t in s.tasks && Early(s.tasks[t])))
    ensures forall x | x in s.sent :: x.0 != t
    ensures forall x | x in s.drops :: x.0 != t
  {
    forall x | x in s.sent ensures x.0 != t { assert x in s.sent + s.drops && EntryOk(s, x); }
    forall x | x in s.drops ensures x.0 != t { assert x in s.sent + s.drops && EntryOk(s, x); }
  }

  lemma TaskLog(s: State, t: TaskId, step: TaskStep)
    requires Safe(s) && Books(s) && TaskEnabled(s, t, step) && !step.Select?
    ensures LogInv(DoTask(s, t, step))
  {
    hide Safe, ChannelInv, TotalsInv, SubscriberInv, CountIn, Matches, DoSelect;
    var s' := DoTask(s, t, step);
    TaskOutcome(s, t, step);
    if t !in s.events || (t in s.tasks && Early(s.tasks[t])) { NoEntriesYet(s, t); }
    forall x | x in s'.sent + s'.drops ensures EntryOk(s', x) {
      assert EntryOk(s, x);
    }
  }

  lemma TaskOthers(s: State, t: TaskId, step: TaskStep, u: TaskId)
    requires Safe(s) && Books(s) && TaskEnabled(s, t, step) && !step.Select? && u in DoTask(s, t, step).tasks && u != t
    ensures TaskOk(DoTask(s, t, step), u)
  {
    hide Safe, ChannelInv, TotalsInv, SubscriberInv, CountIn, Matches, DoTask, TaskEnabled;
    TaskOutcome(s, t, step);
    assert TaskOk(s, u);
  }

  lemma TaskSelf(s: State, t: TaskId, step: TaskStep)
    requires Safe(s) && Books(s) && TaskEnabled(s, t, step) && !step.Select? && t in DoTask(s, t, step).tasks
    ensures TaskOk(DoTask(s, t, step), t)
  {
    hide LockInv, UnsubInv, SnapshotInv, ChannelInv, TotalsInv, SubscriberInv, CountIn, Matches, DoSelect;
    if step.Publish? {
      NoEntriesYet(s, t);
      CountNone(s.sent, {}, t);
      CountNone(s.drops, {}, t);
    } else {
      assert TaskOk(s, t);
      if step.Check? { HeadLeaves(s.tasks[t].rest); }
      if step.Copy? { assert forall id | id in step.order :: id in Elems(step.order); }
    }
  }

  lemma OwesAfter(s: State, t: TaskId, step: TaskStep)
    requires TaskEnabled(s, t, step) && !step.Select?
    ensures OwesDelivered(DoTask(s, t, step)) ==
      if step.Publish? then OwesDelivered(s) + {t}
      else if step.AddDelivered? then OwesDelivered(s) - {t} else OwesDelivered(s)
    ensures OwesDropped(DoTask(s, t, step)) ==
      if step.Publish? then OwesDropped(s) + {t}
      else if step.AddDropped? then OwesDropped(s) - {t} else OwesDropped(s)
  {
    hide DoSelect, Matches;
  }

  lemma TotalsAfter(s: State, t: TaskId, step: TaskStep)
    requires TaskEnabled(s, t, step) && !step.Select?
    ensures var s' := DoTask(s, t, step);
      && s'.deliveredTotal == s.deliveredTotal + (if step.AddDelivered? then s.tasks[t].Delivered() else 0)
      && s'.droppedTotal == s.droppedTotal + (if step.AddDropped? then s.tasks[t].Dropped() else 0)
      && (step.AddDelivered? ==> t in OwesDelivered(s)) && (step.AddDropped? ==> t in OwesDropped(s))
  {
    hide DoSelect, Matches;
  }

  lemma TaskTotals(s: State, t: TaskId, step: TaskStep)
    requires Safe(s) && Books(s) && TaskEnabled(s, t, step) && !step.Select?
    ensures TotalsInv(DoTask(s, t, step))
  {
    hide Safe, ChannelInv, SubscriberInv, CountIn, DoTask, OwesDelivered, OwesDropped;
    TaskOutcome(s, t, step);
    OwesAfter(s, t, step);
    TotalsAfter(s, t, step);
    if step.Publish? {
      NoEntriesYet(s, t);
      CountNone(s.sent, OwesDelivered(s), t);
      CountNone(s.drops, OwesDropped(s), t);
    } else {
      assert TaskOk(s, t);
      if step.AddDelivered? { CountSplit(s.sent, OwesDelivered(s), t); }
      if step.AddDropped? { CountSplit(s.drops, OwesDropped(s), t); }
    }
  }

  lemma TaskKeepsBooks(s: State, t: TaskId, step: TaskStep)
    requires Safe(s) && Books(s) && TaskEnabled(s, t, step)
    ensures Books(DoTask(s, t, step))
  {
    hide Safe, LogInv, TotalsInv, CountIn, Matches, DoSelect, TaskOk, Project;
    if step.Select? {
      SelectOutcome(s, t, step.choice);
      SelectLog(s, t, step.choice);
      SelectTasks(s, t, step.choice);
      SelectTotals(s, t, step.choice);
      SelectKeepsCounts(s, t, step.choice);
    } else {
      TaskOutcome(s, t, step);
      TaskLog(s, t, step);
      TaskTotals(s, t, step);
      forall u | u in DoTask(s, t, step).tasks ensures TaskOk(DoTask(s, t, step), u) {
        if u == t { TaskSelf(s, t, step); } else { TaskOthers(s, t, step, u); }
      }
    }
  }

  lemma SelectKeepsCounts(s: State, t: TaskId, c: Choice)
    requires TaskEnabled(s, t, Select(c))
    ensures var s' := DoSelect(s, t, c);
      s'.ops == s.ops && s'.registry == s.registry && s'.subscribersTotal == s.subscribersTotal
      && s'.published == s.published && s'.events == s.events && s'.capacity == s.capacity
  {
  }

  // ----- subscribers -----

  lemma ReceiveKeepsBooks(s: State, id: SubId)
    requires Books(s) && Enabled(s, Receive(id))
    ensures Books(DoReceive(s, id))
  {
    hide CountIn, Matches, Project;
    var s', sub := DoReceive(s, id), s.subs[id];
    assert sub.received + [sub.buffer[0]] + sub.buffer[1..] == sub.received + sub.buffer;
    assert OwesDelivered(s') == OwesDelivered(s) && OwesDropped(s') == OwesDropped(s);
    forall x | x in s'.sent + s'.drops ensures EntryOk(s', x) { assert EntryOk(s, x); }
    forall t | t in s'.tasks ensures TaskOk(s', t) { assert TaskOk(s, t); }
  }

  /** Subscribe and Unsubscribe add subscriptions and close them; they record no outcome. */
  lemma OpOutcome(s: State, o: OpId, step: OpStep)
    requires Safe(s) && OpEnabled(s, o, step)
    ensures var s' := DoOp(s, o, step);
      && s'.sent == s.sent && s'.drops == s.drops && s'.tasks == s.tasks && s'.events == s.events
      && s'.capacity == s.capacity && s'.deliveredTotal == s.deliveredTotal && s'.droppedTotal == s.droppedTotal
      && s'.published == s.published
      && (forall i | i in s.subs :: i in s'.subs && s'.subs[i].filters == s.subs[i].filters
            && s'.subs[i].buffer == s.subs[i].buffer && s'.subs[i].received == s.subs[i].received)
      && (forall i | i in s'.subs && i !in s.subs :: s'.subs[i].buffer == [] && s'.subs[i].received == [])
  {
    hide LockInv, UnsubInv, SnapshotInv;
  }

  lemma OpChannels(s: State, o: OpId, step: OpStep)
    requires Safe(s) && Books(s) && OpEnabled(s, o, step)
    ensures LogInv(DoOp(s, o, step)) && TasksInv(DoOp(s, o, step)) && ChannelInv(DoOp(s, o, step))
            && TotalsInv(DoOp(s, o, step))
  {
    hide Safe, DoOp, OpEnabled, CountIn, Matches, Project;
    var s' := DoOp(s, o, step);
    OpOutcome(s, o, step);
    assert OwesDelivered(s') == OwesDelivered(s) && OwesDropped(s') == OwesDropped(s);
    forall x | x in s'.sent + s'.drops ensures EntryOk(s', x) { assert EntryOk(s, x); }
    forall t | t in s'.tasks ensures TaskOk(s', t) { assert TaskOk(s, t); }
    forall i | i in s'.subs && i !in s.subs ensures Project(s.sent, i) == [] {
      forall x | x in s.sent ensures x.1 != i { assert x in s.sent + s.drops && EntryOk(s, x); }
      ProjectNone(s.sent, i);
    }
  }

  lemma DeletingAfter(s: State, o: OpId, step: OpStep)
    requires OpEnabled(s, o, step)
    ensures Deleting(DoOp(s, o, step)) ==
      if step.UnsubDelete? && s.ops[o].id in s.registry then Deleting(s) + {o}
      else if step.UnsubCount? then Deleting(s) - {o} else Deleting(s)
  {
  }

  lemma InsertingAfter(s: State, o: OpId, step: OpStep)
    requires OpEnabled(s, o, step)
    ensures Inserting(DoOp(s, o, step)) ==
      if step.SubInsert? then Inserting(s) + {o} else if step.SubCount? then Inserting(s) - {o} else Inserting(s)
  {
  }

  lemma RegistryAfter(s: State, o: OpId, step: OpStep)
    requires OpEnabled(s, o, step)
    ensures var s' := DoOp(s, o, step);
      && s'.registry == (if step.SubInsert? then s.registry + {s.ops[o].id}
                         else if step.UnsubDelete? then s.registry - {s.ops[o].id} else s.registry)
      && s'.subscribersTotal == s.subscribersTotal
           + (if step.SubCount? then 1 else if step.UnsubCount? then -1 else 0)
      && (step.SubInsert? ==> s.ops[o].SubHeld?) && (step.SubCount? ==> s.ops[o].SubInserted?)
      && (step.UnsubDelete? ==> s.ops[o].UnsubHeld?) && (step.UnsubCount? ==> s.ops[o].UnsubDeleted?)
  {
  }

  lemma OpSubscribers(s: State, o: OpId, step: OpStep)
    requires Safe(s) && Books(s) && OpEnabled(s, o, step)
    ensures SubscriberInv(DoOp(s, o, step))
  {
    hide LockInv, UnsubInv, SnapshotInv, LogInv, TasksInv, ChannelInv, TotalsInv, Deleting, Inserting, DoOp;
    RegistryAfter(s, o, step);
    DeletingAfter(s, o, step);
    InsertingAfter(s, o, step);
    if o in s.ops { Membership(s, o); }
  }

  lemma Membership(s: State, o: OpId)
    requires RegistryInv(s) && o in s.ops
    ensures o in Deleting(s) <==> s.ops[o].UnsubDeleted?
    ensures o in Inserting(s) <==> s.ops[o].SubInserted?
    ensures s.ops[o].SubHeld? ==> s.ops[o].id !in s.registry
  {
  }

  lemma StepKeepsBooks(s: State, a: Action)
    requires Safe(s) && Books(s) && Enabled(s, a)
    ensures Books(Do(s, a))
  {
    hide Safe, DoTask, DoOp, DoReceive, LogInv, TasksInv, ChannelInv, TotalsInv, SubscriberInv;
    match a
    case TaskAct(t, step) => TaskKeepsBooks(s, t, step);
    case OpAct(o, step) =>
      OpOutcome(s, o, step);
      OpChannels(s, o, step);
      OpSubscribers(s, o, step);
    case Receive(id) => ReceiveKeepsBooks(s, id);
  }

  /** Main theorem: the books balance in every reachable state. */
  lemma {:induction false} RunsBalance(capacity: nat, actions: seq<Action>)
    requires Exec(capacity, actions).Some?
    ensures Books(Exec(capacity, actions).value)
  {
    hide Safe, Books, Enabled, Do;
    if actions == [] {
      InitBooks(capacity);
    } else {
      var init, a := actions[..|actions| - 1], actions[|actions| - 1];
      RunsBalance(capacity, init);
      RunsAreSafe(capacity, init);
      StepKeepsBooks(Exec(capacity, init).value, a);
    }
  }

  /** Read off: at most one delivery per event and subscriber, only past its filters; exact totals
      whenever the WaitGroup is at zero; and an exact subscriber count whenever the write lock is free. */
  lemma DeliveryGuarantees(capacity: nat, actions: seq<Action>)
    requires Exec(capacity, actions).Some?
    ensures var s := Exec(capacity, actions).value;
      && Distinct(s.sent)
      && (forall x | x in s.sent :: x.0 in s.events && x.1 in s.subs && Matches(s.events[x.0], s.subs[x.1].filters))
      && (forall id | id in s.subs :: |s.subs[id].buffer| <= capacity)
      && (s.wg == 0 ==> s.deliveredTotal == |s.sent| && s.droppedTotal == |s.drops|)
      && (s.writer == {} ==> s.subscribersTotal == |s.registry|)
  {
    hide Enabled, Do, Matches, UnsubInv, SnapshotInv, RegistryInv;
    var s := Exec(capacity, actions).value;
    RunsBalance(capacity, actions);
    RunsAreSafe(capacity, actions);
    SameCapacity(capacity, actions);
    forall x | x in s.sent
      ensures x.0 in s.events && x.1 in s.subs && Matches(s.events[x.0], s.subs[x.1].filters)
    {
      assert x in s.sent + s.drops && EntryOk(s, x);
    }
    assert forall i | 0 <= i < |s.sent| :: s.sent[i] == (s.sent + s.drops)[i];
    if s.wg == 0 { IdleTotals(s); }
    if s.writer == {} {
      assert Deleting(s) <= s.writer && Inserting(s) <= s.writer;
    }
  }

  lemma {:induction false} CountNobody(log: Log, ts: set<TaskId>)
    requires forall x | x in log :: x.0 !in ts
    ensures CountIn(log, ts) == 0
  {
    if log != [] { CountNobody(log[..|log| - 1], ts); }
  }

  /** At zero no delivery is under way, and publications yet to start one have no entries. */
  lemma IdleTotals(s: State)
    requires Safe(s) && Books(s) && s.wg == 0
    ensures s.deliveredTotal == |s.sent| && s.droppedTotal == |s.drops|
  {
    hide LockInv, RegistryInv, UnsubInv, SnapshotInv, ChannelInv, TasksInv, SubscriberInv, CountIn;
    assert InFlight(s) == {};
    forall t | t in s.tasks
      ensures (forall x | x in s.sent :: x.0 != t) && (forall x | x in s.drops :: x.0 != t)
    {
      assert t !in InFlight(s);
      NoEntriesYet(s, t);
    }
    CountNobody(s.sent, OwesDelivered(s));
    CountNobody(s.drops, OwesDropped(s));
  }

  lemma {:induction false} SameCapacity(capacity: nat, actions: seq<Action>)
    requires Exec(capacity, actions).Some?
    ensures Exec(capacity, actions).value.capacity == capacity
  {
    hide Do, Enabled;
    if actions != [] {
      SameCapacity(capacity, actions[..|actions| - 1]);
      StepKeepsCapacity(Exec(capacity, actions[..|actions| - 1]).value, actions[|actions| - 1]);
    }
  }

  lemma StepKeepsCapacity(s: State, a: Action)
    requires Enabled(s, a)
    ensures Do(s, a).capacity == s.capacity
  {
    hide DoSelect, DoCheck;
    if a.TaskAct? && a.task.Select? { SelectKeepsCounts(s, a.t, a.task.choice); }
    if a.TaskAct? && a.task.Check? { CheckKeepsCapacity(s, a.t); }
  }

  lemma CheckKeepsCapacity(s: State, t: TaskId)
    requires TaskEnabled(s, t, Check)
    ensures DoCheck(s, t).capacity == s.capacity
  {
  }
}
