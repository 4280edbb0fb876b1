/** The event bus (server/events/bus.go, filters.go) as an interleaved protocol.
    Every action is one atomic step of a Publish call and its background delivery, of a
    Subscribe or Unsubscribe call, or of a consumer; a run is any interleaving of them. */
module EventBus {
  import opened Basics

  // ----- events and filters -----

  datatype Event = Event(id: string, kind: int, resource: string, labels: seq<string>,
                         metadata: map<string, string>, timestamp: int)

  /** Event.Validate: kind 0 is unspecified, time 0 is the zero time. */
  predicate ValidEvent(e: Event) {
    e.id != "" && e.kind != 0 && e.resource != "" && e.timestamp != 0
  }

  datatype Filter = ByType(kinds: seq<int>) | ByCid(cids: seq<string>) | ByLabel(parts: seq<string>)

  predicate Contains(s: string, part: string) {
    exists i | 0 <= i <= |s| :: part <= s[i..]
  }

  lemma ContainsIsInside(s: string, part: string)
    ensures Contains(s, part) <==> exists a, b :: s == a + part + b
  {
    if i :| 0 <= i <= |s| && part <= s[i..] {
      assert s == s[..i] + part + s[i + |part|..];
    }
    if a, b :| s == a + part + b {
      assert s[|a|..] == part + b;
    }
  }

  predicate Passes(e: Event, f: Filter) {
    match f
    case ByType(kinds) => e.kind in kinds
    case ByCid(cids) => e.resource in cids
    case ByLabel(parts) => exists p, l | p in parts && l in e.labels :: Contains(l, p)
  }

  predicate Matches(e: Event, filters: seq<Filter>) {
    forall f | f in filters :: Passes(e, f)
  }

  datatype Request = Request(kinds: seq<int>, cids: seq<string>, labels: seq<string>)

  function BuildFilters(r: Request): seq<Filter> {
    (if r.kinds == [] then [] else [ByType(r.kinds)])
    + (if r.cids == [] then [] else [ByCid(r.cids)])
    + (if r.labels == [] then [] else [ByLabel(r.labels)])
  }

  /** Criteria of different kinds are all needed; within one kind any value will do. */
  predicate Asked(r: Request, e: Event) {
    && (r.kinds == [] || e.kind in r.kinds)
    && (r.cids == [] || e.resource in r.cids)
    && (r.labels == [] || exists p, l | p in r.labels && l in e.labels :: Contains(l, p))
  }

  lemma FiltersMeanRequest(e: Event, r: Request)
    ensures Matches(e, BuildFilters(r)) <==> Asked(r, e)
  {
    hide Contains;
    var fs := BuildFilters(r);
    assert r.kinds != [] ==> ByType(r.kinds) in fs;
    assert r.cids != [] ==> ByCid(r.cids) in fs;
    assert r.labels != [] ==> ByLabel(r.labels) in fs;
    assert forall f | f in fs :: f in {ByType(r.kinds), ByCid(r.cids), ByLabel(r.labels)};
  }

  // ----- the state -----

  type TaskId = nat
  type SubId = nat
  type OpId = nat

  datatype Subscription = Subscription(filters: seq<Filter>, buffer: seq<TaskId>, received: seq<TaskId>,
                                       cancelClosed: bool, chClosed: bool)

  /** One Publish call and the goroutine it starts. */
  datatype Task =
    | Counted                                                  // PublishedTotal bumped
    | Added                                                    // wg.Add(1) done, goroutine may start
    | Reading                                                  // holds the read lock
    | Copied(snapshot: seq<SubId>)                             // still holds the read lock
    | Delivering(rest: seq<SubId>, delivered: nat, dropped: nat)  // next: check the head's cancel
    | Sending(rest: seq<SubId>, delivered: nat, dropped: nat)     // next: select on the head's channel
    | FlushedDelivered(dropped: nat)
    | Finishing                                                // next: wg.Done
  {
    /** The subscriptions this task may still send to. */
    function Todo(): seq<SubId> {
      match this
      case Copied(snapshot) => snapshot
      case Delivering(rest, _, _) => rest
      case Sending(rest, _, _) => rest
      case _ => []
    }

    predicate ReadLocked() { Reading? || Copied? }

    function Delivered(): nat {
      match this
      case Delivering(_, d, _) => d
      case Sending(_, d, _) => d
      case _ => 0
    }

    function Dropped(): nat {
      match this
      case Delivering(_, _, x) => x
      case Sending(_, _, x) => x
      case FlushedDelivered(x) => x
      case _ => 0
    }
  }

  /** One Subscribe or Unsubscribe call. */
  datatype Op =
    | SubHeld(id: SubId, filters: seq<Filter>) | SubInserted | SubCounted
    | UnsubHeld(id: SubId) | UnsubMiss | UnsubDeleted(id: SubId) | UnsubCounted(id: SubId)
    | Cancelling(id: SubId) | Waiting(id: SubId) | Waited(id: SubId)
  {
    predicate WriteLocked() { !Cancelling? && !Waiting? && !Waited? }

    /** It has taken this subscription out of the map and not yet closed its channel. */
    predicate Removing(i: SubId) {
      (UnsubDeleted? || UnsubCounted? || Cancelling? || Waiting? || Waited?) && id == i
    }
  }

  datatype State = State(
    capacity: nat,
    writer: set<OpId>, readers: set<TaskId>,
    registry: set<SubId>, subs: map<SubId, Subscription>,
    tasks: map<TaskId, Task>, ops: map<OpId, Op>, wg: int,
    published: nat, deliveredTotal: nat, droppedTotal: nat, subscribersTotal: int,
    // history: which events were published, enqueued and dropped, and whether anything panicked
    events: map<TaskId, Event>, sent: seq<(TaskId, SubId)>, drops: seq<(TaskId, SubId)>, panicked: bool)

  function Init(capacity: nat): State {
    State(capacity, {}, {}, {}, map[], map[], map[], 0, 0, 0, 0, 0, map[], [], [], false)
  }

  datatype Choice = Enqueue | Handoff | SkipCancelled | DropFull

  /** What one Publish call and its delivery do next. */
  datatype TaskStep =
    | Publish(e: Event) | WgAdd | RLock | Copy(order: seq<SubId>) | RUnlock
    | Check | Select(choice: Choice) | AddDelivered | AddDropped | WgDone

  /** What one Subscribe or Unsubscribe call does next. */
  datatype OpStep =
    | SubLock(id: SubId, req: Request) | SubInsert | SubCount | SubUnlock
    | UnsubLock(id: SubId) | UnsubDelete | UnsubCount | UnsubUnlock
    | CloseCancel | WaitReturns | CloseChannel

  datatype Action = TaskAct(t: TaskId, task: TaskStep) | OpAct(o: OpId, op: OpStep) | Receive(id: SubId)

  /** Which cases of the delivery select are ready; a send on a closed channel is ready, and panics. */
  predicate Ready(s: State, sub: Subscription, c: Choice) {
    match c
    case Enqueue => sub.chClosed || |sub.buffer| < s.capacity
    case Handoff => !sub.chClosed && sub.buffer == []   // straight to a waiting receiver
    case SkipCancelled => sub.cancelClosed
    case DropFull => !sub.chClosed && |sub.buffer| >= s.capacity && !sub.cancelClosed
  }

  predicate TaskEnabled(s: State, t: TaskId, step: TaskStep) {
    if step.Publish? then t !in s.events && ValidEvent(step.e)
    else t in s.tasks && var task := s.tasks[t];
      match step
      case WgAdd => task.Counted?
      case RLock => task.Added? && s.writer == {}
      case Copy(order) => task.Reading? && Distinct(order) && Elems(order) == s.registry
      case RUnlock => task.Copied?
      case Check => task.Delivering? && task.rest != [] && task.rest[0] in s.subs && t in s.events
      case Select(c) => task.Sending? && task.rest != [] && task.rest[0] in s.subs && Ready(s, s.subs[task.rest[0]], c)
      case AddDelivered => task.Delivering? && task.rest == []
      case AddDropped => task.FlushedDelivered?
      case WgDone => task.Finishing?
  }

  predicate OpEnabled(s: State, o: OpId, step: OpStep) {
    if step.SubLock? || step.UnsubLock? then
      o !in s.ops && s.writer == {} && s.readers == {} && (step.SubLock? ==> step.id !in s.subs)
    else o in s.ops && var op := s.ops[o];
      match step
      case SubInsert => op.SubHeld?
      case SubCount => op.SubInserted?
      case SubUnlock => op.SubCounted?
      case UnsubDelete => op.UnsubHeld?
      case UnsubCount => op.UnsubDeleted?
      case UnsubUnlock => op.UnsubMiss? || op.UnsubCounted?
      case CloseCancel => op.Cancelling? && op.id in s.subs
      case WaitReturns => op.Waiting? && s.wg == 0
      case CloseChannel => op.Waited? && op.id in s.subs
  }

  predicate Enabled(s: State, a: Action) {
    match a
    case TaskAct(t, step) => TaskEnabled(s, t, step)
    case OpAct(o, step) => OpEnabled(s, o, step)
    case Receive(id) => id in s.subs && s.subs[id].buffer != []
  }

  /** The cancel check and the filters, for the head of the snapshot. */
  function DoCheck(s: State, t: TaskId): State
    requires TaskEnabled(s, t, Check)
  {
    var task := s.tasks[t];
    var sub := s.subs[task.rest[0]];
    s.(tasks := s.tasks[t := if !sub.cancelClosed && Matches(s.events[t], sub.filters)
                             then Sending(task.rest, task.delivered, task.dropped)
                             else Delivering(task.rest[1..], task.delivered, task.dropped)])
  }

  function DoSelect(s: State, t: TaskId, c: Choice): State
    requires TaskEnabled(s, t, Select(c))
  {
    var task := s.tasks[t];
    var id := task.rest[0];
    var sub := s.subs[id];
    var skipped := s.(tasks := s.tasks[t := Delivering(task.rest[1..], task.delivered, task.dropped)]);
    var done := s.(tasks := s.tasks[t := Delivering(task.rest[1..], task.delivered + 1, task.dropped)],
                   sent := s.sent + [(t, id)]);
    match c
    case SkipCancelled => skipped
    case DropFull => s.(tasks := s.tasks[t := Delivering(task.rest[1..], task.delivered, task.dropped + 1)],
                        drops := s.drops + [(t, id)])
    case Enqueue =>
      if sub.chClosed then skipped.(panicked := true)  // recovered, but it did happen
      else done.(subs := s.subs[id := sub.(buffer := sub.buffer + [t])])
    case Handoff => done.(subs := s.subs[id := sub.(received := sub.received + [t])])
  }

  function DoTask(s: State, t: TaskId, step: TaskStep): State
    requires TaskEnabled(s, t, step)
  {
    match step
    case Publish(e) => s.(tasks := s.tasks[t := Counted], events := s.events[t := e], published := s.published + 1)
    case WgAdd => s.(tasks := s.tasks[t := Added], wg := s.wg + 1)
    case RLock => s.(tasks := s.tasks[t := Reading], readers := s.readers + {t})
    case Copy(order) => s.(tasks := s.tasks[t := Copied(order)])
    case RUnlock => s.(tasks := s.tasks[t := Delivering(s.tasks[t].snapshot, 0, 0)], readers := s.readers - {t})
    case Check => DoCheck(s, t)
    case Select(c) => DoSelect(s, t, c)
    case AddDelivered => s.(tasks := s.tasks[t := FlushedDelivered(s.tasks[t].dropped)],
                            deliveredTotal := s.deliveredTotal + s.tasks[t].delivered)
    case AddDropped => s.(tasks := s.tasks[t := Finishing], droppedTotal := s.droppedTotal + s.tasks[t].dropped)
    case WgDone => s.(tasks := s.tasks - {t}, wg := s.wg - 1)
  }

  function DoOp(s: State, o: OpId, step: OpStep): State
    requires OpEnabled(s, o, step)
  {
    match step
    case SubLock(id, req) => s.(writer := {o}, ops := s.ops[o := SubHeld(id, BuildFilters(req))])
    case SubInsert =>
      s.(ops := s.ops[o := SubInserted], registry := s.registry + {s.ops[o].id},
         subs := s.subs[s.ops[o].id := Subscription(s.ops[o].filters, [], [], false, false)])
    case SubCount => s.(ops := s.ops[o := SubCounted], subscribersTotal := s.subscribersTotal + 1)
    case SubUnlock => s.(ops := s.ops - {o}, writer := {})
    case UnsubLock(id) => s.(writer := {o}, ops := s.ops[o := UnsubHeld(id)])
    case UnsubDelete =>
      var id := s.ops[o].id;
      if id !in s.registry then s.(ops := s.ops[o := UnsubMiss])
      else s.(ops := s.ops[o := UnsubDeleted(id)], registry := s.registry - {id})
    case UnsubCount => s.(ops := s.ops[o := UnsubCounted(s.ops[o].id)], subscribersTotal := s.subscribersTotal - 1)
    case UnsubUnlock =>
      if s.ops[o].UnsubMiss? then s.(ops := s.ops - {o}, writer := {})
      else s.(ops := s.ops[o := Cancelling(s.ops[o].id)], writer := {})
    case CloseCancel =>
      var id := s.ops[o].id;
      s.(ops := s.ops[o := Waiting(id)], panicked := s.panicked || s.subs[id].cancelClosed,
         subs := s.subs[id := s.subs[id].(cancelClosed := true)])
    case WaitReturns => s.(ops := s.ops[o := Waited(s.ops[o].id)])
    case CloseChannel =>
      var id := s.ops[o].id;
      s.(ops := s.ops - {o}, panicked := s.panicked || s.subs[id].chClosed,
         subs := s.subs[id := s.subs[id].(chClosed := true)])
  }

  /** A consumer takes the oldest buffered event. */
  function DoReceive(s: State, id: SubId): State
    requires Enabled(s, Receive(id))
  {
    var sub := s.subs[id];
    s.(subs := s.subs[id := sub.(buffer := sub.buffer[1..], received := sub.received + [sub.buffer[0]])])
  }

  function Do(s: State, a: Action): State
    requires Enabled(s, a)
  {
    match a
    case TaskAct(t, step) => DoTask(s, t, step)
    case OpAct(o, step) => DoOp(s, o, step)
    case Receive(id) => DoReceive(s, id)
  }

  /** A run: actions that are each enabled in turn; None if one is not. */
  function Exec(capacity: nat, actions: seq<Action>): Option<State> {
    if actions == [] then Some(Init(capacity))
    else
      var before, a := Exec(capacity, actions[..|actions| - 1]), actions[|actions| - 1];
      if before.Some? && Enabled(before.value, a) then Some(Do(before.value, a)) else None
  }
}
