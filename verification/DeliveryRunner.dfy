/**
  The runner's bookkeeping of outbound deliveries on its event loop: at most one task and one timer per delivery.
 */
module Scheduling {
  import opened Options

  type Id = string

  type Handle = nat

  /** A task as the event loop knows it, until its done callback has run; `ended` is the tick its coroutine ended at. */
  datatype LoopTask = LoopTask(id: Id, ended: Option<nat>)

  datatype Purpose = Outbound(id: Id) | Inbound

  /** `tasks`, `timers` and `outbound` are `_tasks`, `_scheduled_timers` and `_scheduled_outbound_timers`. `loop` and
      `live` are the event loop's own view: the tasks whose done callback has not run, and the timers neither
      cancelled nor fired. Tasks and handles are drawn from `tick`, which also stamps the end of a task, so that
      their order is known. `picked` is history: the deliveries handed to the scheduler since the runner started. */
  datatype Schedule = Schedule(
    tasks: map<Id, nat>, loop: map<nat, LoopTask>, live: map<Handle, Purpose>, timers: set<Handle>,
    outbound: map<Id, Handle>, tick: nat, picked: set<Id>)

  const Empty := Schedule(map[], map[], map[], {}, map[], 0, {})

  /** `_schedule_outbound_delivery`. */
  function ScheduleNow(s: Schedule, id: Id): Schedule {
    if id in s.tasks then s.(picked := s.picked + {id})
    else s.(tasks := s.tasks[id := s.tick], loop := s.loop[s.tick := LoopTask(id, None)], tick := s.tick + 1,
            picked := s.picked + {id})
  }

  /** The live timers once the existing timer of a delivery has been cancelled. */
  function LiveWithout(s: Schedule, id: Id): map<Handle, Purpose> {
    if id in s.outbound then s.live - {s.outbound[id]} else s.live
  }

  /** `_schedule_outbound_delivery_later`: cancels the delivery's timer, if any, and sets a new one. */
  function ScheduleLater(s: Schedule, id: Id): Schedule {
    s.(live := LiveWithout(s, id)[s.tick := Outbound(id)],
       timers := (if id in s.outbound then s.timers - {s.outbound[id]} else s.timers) + {s.tick},
       outbound := s.outbound[id := s.tick],
       tick := s.tick + 1,
       picked := s.picked + {id})
  }

  /** `_schedule_inbound_later`. */
  function ScheduleInbound(s: Schedule): Schedule {
    s.(live := s.live[s.tick := Inbound], timers := s.timers + {s.tick}, tick := s.tick + 1)
  }

  /** asyncio runs the callbacks that are ready before timers that became due later: a timer set at or after the end
      of a task never fires before that task's done callback. */
  predicate MayFire(s: Schedule, h: Handle) {
    h in s.live && forall n :: n in s.loop && s.loop[n].ended.Some? ==> h < s.loop[n].ended.value
  }

  /** The timer callbacks. */
  function Fire(s: Schedule, h: Handle): Schedule
    requires h in s.live
  {
    var s1 := s.(live := s.live - {h}, timers := s.timers - {h});
    match s.live[h]
    case Inbound => s1
    case Outbound(id) => ScheduleNow(s1.(outbound := s.outbound - {id}), id)
  }

  /** The last step of a task; with a retry delay it sets the delivery's timer as it ends. */
  function EndTask(s: Schedule, n: nat, retry: bool): Schedule
    requires n in s.loop
  {
    var ended := s.(loop := s.loop[n := s.loop[n].(ended := Some(s.tick))], tick := s.tick + 1);
    if retry then ScheduleLater(ended, s.loop[n].id) else ended
  }

  /** The done callback. It removes whatever task `_tasks` holds for the delivery. */
  function PopTask(s: Schedule, n: nat): Schedule
    requires n in s.loop
  {
    s.(tasks := s.tasks - {s.loop[n].id}, loop := s.loop - {n})
  }

  function ScheduleAll(s: Schedule, ids: seq<Id>): Schedule
    decreases |ids|
  {
    if ids == [] then s else ScheduleNow(ScheduleAll(s, ids[..|ids| - 1]), ids[|ids| - 1])
  }

  /** A row of the recovery scan; a retrying delivery is re-enqueued with a delay, a pending one at once. */
  datatype Found = Found(id: Id, retrying: bool)

  function Reenqueue(s: Schedule, found: seq<Found>): Schedule
    decreases |found|
  {
    if found == [] then s else
    var before := Reenqueue(s, found[..|found| - 1]);
    var last := found[|found| - 1];
    if last.retrying then ScheduleLater(before, last.id) else ScheduleNow(before, last.id)
  }
}

/** The runner object. Its methods are the callbacks and task endings of the event loop, each run to completion. */
module Runners {
  import opened Options
  import opened Scheduling
  import NotifyPayload

  class DeliveryRunner {
    var tasks: map<Id, nat>
    var loopTasks: map<nat, LoopTask>
    var liveTimers: map<Handle, Purpose>
    var scheduledTimers: set<Handle>
    var scheduledOutboundTimers: map<Id, Handle>
    var tick: nat
    ghost var picked: set<Id>

    ghost function View(): Schedule
      reads this
    {
      Schedule(tasks, loopTasks, liveTimers, scheduledTimers, scheduledOutboundTimers, tick, picked)
    }

    constructor ()
      ensures View() == Empty
    {
      tasks, loopTasks, liveTimers, scheduledTimers, scheduledOutboundTimers := map[], map[], map[], {}, map[];
      tick := 0;
      picked := {};
    }

    method ScheduleOutboundDelivery(id: Id)
      modifies this
      ensures View() == ScheduleNow(old(View()), id)
    {
      picked := picked + {id};
      if id in tasks {
        return;
      }
      var task := tick;
      tick := tick + 1;
      loopTasks := loopTasks[task := LoopTask(id, None)];
      tasks := tasks[id := task];
    }

    method ScheduleOutboundDeliveryLater(id: Id)
      modifies this
      ensures View() == ScheduleLater(old(View()), id)
    {
      if id in scheduledOutboundTimers {
        var existing := scheduledOutboundTimers[id];
        liveTimers := liveTimers - {existing};
        scheduledTimers := scheduledTimers - {existing};
      }
      var handle := tick;
      tick := tick + 1;
      liveTimers := liveTimers[handle := Outbound(id)];
      scheduledTimers := scheduledTimers + {handle};
      scheduledOutboundTimers := scheduledOutboundTimers[id := handle];
      picked := picked + {id};
    }

    method OnTimer(handle: Handle)
      requires handle in liveTimers
      modifies this
      ensures View() == Fire(old(View()), handle)
    {
      var purpose := liveTimers[handle];
      liveTimers := liveTimers - {handle};
      scheduledTimers := scheduledTimers - {handle};
      if purpose.Outbound? {
        scheduledOutboundTimers := scheduledOutboundTimers - {purpose.id};
        ScheduleOutboundDelivery(purpose.id);
      }
    }

    method OnDeliveryNotify(payload: string)
      modifies this
      ensures View() == ScheduleAll(old(View()), NotifyPayload.Ids(payload))
    {
      var parts := NotifyPayload.Split(payload);
      assert NotifyPayload.NonEmpty(parts[..0]) == [];
      for i := 0 to |parts|
        invariant View() == ScheduleAll(old(View()), NotifyPayload.NonEmpty(parts[..i]))
      {
        NonEmptyStep(parts, i);
        ghost var ids := NotifyPayload.NonEmpty(parts[..i]);
        assert (ids + [parts[i]])[..|ids|] == ids && ids + [] == ids;
        if parts[i] != "" {
          ScheduleOutboundDelivery(parts[i]);
        }
      }
      assert parts[..|parts|] == parts;
    }

    method Recover(found: seq<Found>)
      modifies this
      ensures View() == Reenqueue(old(View()), found)
    {
      for i := 0 to |found|
        invariant View() == Reenqueue(old(View()), found[..i])
      {
        assert found[..i + 1][..i] == found[..i];
        if found[i].retrying {
          ScheduleOutboundDeliveryLater(found[i].id);
        } else {
          ScheduleOutboundDelivery(found[i].id);
        }
      }
      assert found[..|found|] == found;
    }

    /** The end of `_process_outbound_delivery`. */
    method FinishTask(task: nat, retry: bool)
      requires task in loopTasks
      modifies this
      ensures View() == EndTask(old(View()), task, retry)
    {
      var id := loopTasks[task].id;
      loopTasks := loopTasks[task := LoopTask(id, Some(tick))];
      tick := tick + 1;
      if retry {
        ScheduleOutboundDeliveryLater(id);
      }
    }

    /** The done callback of a task. */
    method OnTaskDone(task: nat)
      requires task in loopTasks
      modifies this
      ensures View() == PopTask(old(View()), task)
    {
      tasks := tasks - {loopTasks[task].id};
      loopTasks := loopTasks - {task};
    }
  }

  lemma {:induction false} NonEmptyStep(parts: seq<string>, i: nat)
    requires i < |parts|
    ensures NotifyPayload.NonEmpty(parts[..i + 1]) ==
            NotifyPayload.NonEmpty(parts[..i]) + if parts[i] == "" then [] else [parts[i]]
  {
    if i == 0 {
      assert parts[..1][1..] == [];
    } else {
      NonEmptyStep(parts[1..], i - 1);
      assert parts[..i + 1][1..] == parts[1..][..i];
      assert parts[..i][1..] == parts[1..][..i - 1];
    }
  }
}

/** The runner, its listening connection, the notifications queued on it and the committed delivery rows, under every
    interleaving of committing senders, lost connections, reconnects, scans, timers and task endings. */
module DeliveryProtocol {
  import opened Options
  import opened Scheduling
  import opened Lifecycle
  import opened NotifyPayload

  datatype Link =
    | Down
    | Listening                     // LISTEN registered, no successful scan yet
    | Scanning(found: seq<Found>)   // the scan has read its rows, not yet re-enqueued them
    | Scanned

  /** `handed` is history: the deliveries handed to the scheduler since the last LISTEN. */
  datatype System = System(schedule: Schedule, link: Link, inbox: seq<string>, rows: map<Id, Status>, handed: set<Id>)

  datatype Outcome =
    | Retry               // committed as RETRYING, with a delay
    | Settle(to: Status)  // committed as ACCEPTED or DEAD_LETTER
    | Abort               // exception, or the row was locked or gone: nothing committed, no delay

  datatype Action =
    | Commit(ids: seq<Id>)
    | Backend(id: Id, status: Status)
    | Delete(id: Id)
    | Connect
    | Lose
    | Dispatch
    | ScanRead(found: seq<Found>)
    | ScanFail
    | ScanSchedule
    | End(task: nat, outcome: Outcome)
    | Popped(task: nat)
    | Timer(handle: Handle)
    | InboundLater
    | Restart

  predicate NeedsWork(rows: map<Id, Status>, id: Id) { id in rows && Recoverable(rows[id]) }

  /** Delivery ids are serial numbers, never reused. */
  predicate Unused(s: System, id: Id) {
    id !in s.rows && id !in s.schedule.tasks && id !in s.schedule.outbound && id !in s.schedule.picked
  }

  /** The scan returns each delivery whose latest record is PENDING or RETRYING. */
  ghost predicate IsScan(rows: map<Id, Status>, found: seq<Found>) {
    && (forall f :: f in found ==> NeedsWork(rows, f.id) && f.retrying == (rows[f.id] == Retrying))
    && (forall id :: NeedsWork(rows, id) ==> Found(id, rows[id] == Retrying) in found)
  }

  predicate RunningTask(s: Schedule, n: nat) { n in s.loop && s.loop[n].ended.None? }

  ghost predicate Enabled(s: System, a: Action) {
    match a
    case Commit(ids) => forall id :: id in ids ==> IsId(id) && Unused(s, id)
    case Backend(id, status) => id in s.rows && BackendStatus(status)
    case Delete(id) => true
    case Connect => s.link.Down?
    case Lose => !s.link.Down?
    case Dispatch => !s.link.Down? && s.inbox != []
    case ScanRead(found) => s.link.Listening? && IsScan(s.rows, found)
    case ScanFail => s.link.Scanning?
    case ScanSchedule => s.link.Scanning?
    case End(n, outcome) =>
      && RunningTask(s.schedule, n)
      && (!outcome.Abort? ==> s.schedule.loop[n].id in s.rows)
      && (outcome.Settle? ==> outcome.to == Accepted || outcome.to == DeadLetter)
    case Popped(n) => n in s.schedule.loop && s.schedule.loop[n].ended.Some?
    case Timer(h) => MayFire(s.schedule, h)
    case InboundLater => true
    case Restart => true
  }

  /** What a step needs in order to be meaningful at all. */
  predicate Refers(s: System, a: Action) {
    && (a.Timer? ==> a.handle in s.schedule.live)
    && (a.End? || a.Popped? ==> a.task in s.schedule.loop)
  }

  function ScheduleAfter(s: System, a: Action): Schedule
    requires Refers(s, a)
  {
    match a
    case Dispatch => if s.inbox == [] then s.schedule else ScheduleAll(s.schedule, Ids(s.inbox[0]))
    case ScanSchedule => if s.link.Scanning? then Reenqueue(s.schedule, s.link.found) else s.schedule
    case End(n, outcome) => EndTask(s.schedule, n, outcome.Retry?)
    case Popped(n) => PopTask(s.schedule, n)
    case Timer(h) => Fire(s.schedule, h)
    case InboundLater => ScheduleInbound(s.schedule)
    case Restart => Empty
    case _ => s.schedule
  }

  function LinkAfter(s: System, a: Action): Link {
    match a
    case Connect => Listening
    case Lose => Down
    case ScanRead(found) => Scanning(found)
    case ScanFail => Listening
    case ScanSchedule => Scanned
    case Restart => Down
    case _ => s.link
  }

  /** PostgreSQL queues a notification at commit on every session that is listening. */
  function InboxAfter(s: System, a: Action): seq<string> {
    match a
    case Commit(ids) => if s.link.Down? then s.inbox else s.inbox + [Join(ids)]
    case Dispatch => if s.inbox == [] then [] else s.inbox[1..]
    case Connect => []
    case Lose => []
    case Restart => []
    case _ => s.inbox
  }

  function RowsAfter(s: System, a: Action): map<Id, Status>
    requires Refers(s, a)
  {
    match a
    case Commit(ids) => s.rows + map id | id in ids :: Pending
    case Backend(id, status) => s.rows[id := status]
    case Delete(id) => s.rows - {id}
    case End(n, Retry) => s.rows[s.schedule.loop[n].id := Retrying]
    case End(n, Settle(to)) => s.rows[s.schedule.loop[n].id := to]
    case _ => s.rows
  }

  function FoundIds(found: seq<Found>): set<Id> { set f | f in found :: f.id }

  function HandedAfter(s: System, a: Action): set<Id>
    requires Refers(s, a)
  {
    match a
    case Connect => {}
    case Dispatch => if s.inbox == [] then s.handed else s.handed + set id | id in Ids(s.inbox[0])
    case ScanSchedule => if s.link.Scanning? then s.handed + FoundIds(s.link.found) else s.handed
    case End(n, Retry) => s.handed + {s.schedule.loop[n].id}
    case Timer(h) => if s.schedule.live[h].Outbound? then s.handed + {s.schedule.live[h].id} else s.handed
    case Restart => {}
    case _ => s.handed
  }

  function Apply(s: System, a: Action): System
    requires Refers(s, a)
  {
    System(ScheduleAfter(s, a), LinkAfter(s, a), InboxAfter(s, a), RowsAfter(s, a), HandedAfter(s, a))
  }

  ghost predicate Init(s: System) { s.schedule == Empty && s.link.Down? && s.inbox == [] && s.handed == {} }

  ghost predicate IsRun(states: seq<System>, actions: seq<Action>) {
    && |states| == |actions| + 1
    && Init(states[0])
    && forall i :: 0 <= i < |actions| ==>
        Enabled(states[i], actions[i]) && states[i + 1] == Apply(states[i], actions[i])
  }

  // ---- bookkeeping ----

  /** The event loop's live timers are those of `_scheduled_timers`, and a delivery's live timer is its own entry. */
  ghost predicate HandleOk(s: Schedule, h: Handle) {
    && (h in s.live <==> h in s.timers)
    && (h in s.live ==> h < s.tick)
    && (h in s.live && s.live[h].Outbound? ==> s.live[h].id in s.outbound && s.outbound[s.live[h].id] == h)
  }

  /** A task of the event loop is the one that `_tasks` holds for its delivery. */
  ghost predicate LoopOk(s: Schedule, n: nat) {
    n in s.loop ==>
      && n < s.tick && s.loop[n].id in s.tasks && s.tasks[s.loop[n].id] == n
      && (s.loop[n].ended.Some? ==> s.loop[n].ended.value < s.tick)
  }

  ghost predicate EntryOk(s: Schedule, id: Id) {
    && (id in s.outbound ==> id in s.picked && s.outbound[id] in s.live && s.live[s.outbound[id]] == Outbound(id))
    && (id in s.tasks ==> id in s.picked && s.tasks[id] in s.loop && s.loop[s.tasks[id]].id == id)
  }

  ghost predicate Tidy(s: Schedule) {
    (forall h :: HandleOk(s, h)) && (forall n :: LoopOk(s, n)) && (forall id :: EntryOk(s, id))
  }

  predicate Running(s: Schedule, id: Id) { id in s.tasks && RunningTask(s, s.tasks[id]) }

  /** Its task has ended, and the done callback that clears `_tasks` has not run yet. */
  predicate Ended(s: Schedule, id: Id) {
    id in s.tasks && s.tasks[id] in s.loop && s.loop[s.tasks[id]].ended.Some?
  }

  /** Somebody is still going to work on the delivery. */
  predicate Anchored(s: Schedule, id: Id) { Running(s, id) || id in s.outbound }

  /** Its timer, if it depends on one, was not set before the end of a task whose done callback is still to run:
      such a timer may fire first, find the ended task and do nothing. */
  predicate Secure(s: Schedule, id: Id) {
    Running(s, id) || (id in s.outbound && (Ended(s, id) ==> s.outbound[id] >= s.loop[s.tasks[id]].ended.value))
  }

  ghost predicate AnchorOk(s: Schedule, rows: map<Id, Status>, id: Id) {
    NeedsWork(rows, id) && id in s.picked ==> Secure(s, id)
  }

  lemma NowKeeps(s: Schedule, id: Id)
    requires Tidy(s)
    ensures Tidy(ScheduleNow(s, id))
    ensures forall x :: Secure(s, x) ==> Secure(ScheduleNow(s, id), x)
    ensures Secure(ScheduleNow(s, id), id) <==> !Ended(s, id) || Secure(s, id)
  {
    var s1 := ScheduleNow(s, id);
    assert EntryOk(s, id);
    forall h ensures HandleOk(s1, h) { assert HandleOk(s, h); }
    forall n ensures LoopOk(s1, n) { assert LoopOk(s, n); }
    forall x ensures EntryOk(s1, x) { assert EntryOk(s, x); assert LoopOk(s, s.tick); }
    forall x | Secure(s, x) ensures Secure(s1, x) { assert EntryOk(s, x); assert LoopOk(s, s.tick); }
  }

  lemma LaterKeeps(s: Schedule, id: Id)
    requires Tidy(s)
    ensures Tidy(ScheduleLater(s, id)) && Secure(ScheduleLater(s, id), id)
    ensures forall x :: Secure(s, x) ==> Secure(ScheduleLater(s, id), x)
  {
    var s1 := ScheduleLater(s, id);
    assert EntryOk(s, id);
    forall h ensures HandleOk(s1, h) { assert HandleOk(s, h); }
    forall n ensures LoopOk(s1, n) { assert LoopOk(s, n); }
    forall x ensures EntryOk(s1, x) {
      assert EntryOk(s, x);
      if x in s.outbound { assert HandleOk(s, s.outbound[x]); }
    }
    if id in s.tasks { assert LoopOk(s, s.tasks[id]); }
  }

  lemma FireKeeps(s: Schedule, h: Handle)
    requires Tidy(s) && MayFire(s, h)
    ensures Tidy(Fire(s, h))
    ensures forall x :: Secure(s, x) ==> Secure(Fire(s, h), x)
  {
    assert HandleOk(s, h);
    var s1 := s.(live := s.live - {h}, timers := s.timers - {h});
    var s2 := if s.live[h].Outbound? then s1.(outbound := s.outbound - {s.live[h].id}) else s1;
    forall g ensures HandleOk(s2, g) { assert HandleOk(s, g); }
    forall n ensures LoopOk(s2, n) { assert LoopOk(s, n); }
    forall x ensures EntryOk(s2, x) { assert EntryOk(s, x); }
    if s.live[h].Outbound? {
      var id := s.live[h].id;
      NowKeeps(s2, id);
      forall x | Secure(s, x) ensures Secure(Fire(s, h), x) { assert x != id ==> Secure(s2, x); }
    }
  }

  lemma EndKeeps(s: Schedule, n: nat, retry: bool)
    requires Tidy(s) && RunningTask(s, n)
    ensures Tidy(EndTask(s, n, retry))
    ensures forall x :: Secure(s, x) && (x != s.loop[n].id || retry) ==> Secure(EndTask(s, n, retry), x)
    ensures retry ==> Secure(EndTask(s, n, retry), s.loop[n].id)
  {
    var id := s.loop[n].id;
    var ended := s.(loop := s.loop[n := s.loop[n].(ended := Some(s.tick))], tick := s.tick + 1);
    assert LoopOk(s, n);
    forall h ensures HandleOk(ended, h) { assert HandleOk(s, h); }
    forall m ensures LoopOk(ended, m) { assert LoopOk(s, m); }
    forall x ensures EntryOk(ended, x) { assert EntryOk(s, x); }
    forall x | Secure(s, x) && x != id ensures Secure(ended, x) { assert EntryOk(s, x); }
    if retry { LaterKeeps(ended, id); }
  }

  lemma PopKeeps(s: Schedule, n: nat)
    requires Tidy(s) && n in s.loop && s.loop[n].ended.Some?
    ensures Tidy(PopTask(s, n))
    ensures forall x :: Secure(s, x) ==> Secure(PopTask(s, n), x)
  {
    var s1 := PopTask(s, n);
    assert LoopOk(s, n);
    forall h ensures HandleOk(s1, h) { assert HandleOk(s, h); }
    forall m ensures LoopOk(s1, m) { assert LoopOk(s, m); }
    forall x ensures EntryOk(s1, x) { assert EntryOk(s, x); }
    forall x | Secure(s, x) ensures Secure(s1, x) { assert EntryOk(s, x); }
  }

  lemma InboundKeeps(s: Schedule)
    requires Tidy(s)
    ensures Tidy(ScheduleInbound(s))
    ensures forall x :: Secure(s, x) ==> Secure(ScheduleInbound(s), x)
  {
    var s1 := ScheduleInbound(s);
    forall h ensures HandleOk(s1, h) { assert HandleOk(s, h); }
    forall n ensures LoopOk(s1, n) { assert LoopOk(s, n); }
    forall x ensures EntryOk(s1, x) {
      assert EntryOk(s, x);
      if x in s.outbound { assert HandleOk(s, s.outbound[x]); }
    }
  }

  /** A delivery that is handed over for the first time becomes secure. */
  lemma {:induction false} AllKeeps(s: Schedule, ids: seq<Id>)
    requires Tidy(s)
    ensures Tidy(ScheduleAll(s, ids))
    ensures forall x :: Secure(s, x) || (x in ids && x !in s.picked) ==> Secure(ScheduleAll(s, ids), x)
    ensures forall x :: x in ScheduleAll(s, ids).picked <==> x in s.picked || x in ids
    decreases |ids|
  {
    if ids != [] {
      var before, last := ids[..|ids| - 1], ids[|ids| - 1];
      assert ids == before + [last];
      AllKeeps(s, before);
      var s1 := ScheduleAll(s, before);
      assert EntryOk(s1, last);
      NowKeeps(s1, last);
    }
  }

  // ---- what a scan does to one delivery ----

  /** Nothing that concerns the delivery changed. */
  ghost predicate SameFor(s: Schedule, s1: Schedule, id: Id) {
    && (id in s.tasks <==> id in s1.tasks)
    && (id in s.tasks ==>
          s1.tasks[id] == s.tasks[id] && s.tasks[id] in s.loop && s.tasks[id] in s1.loop
          && s1.loop[s.tasks[id]] == s.loop[s.tasks[id]])
    && (id in s.outbound <==> id in s1.outbound)
    && (id in s.outbound ==> s1.outbound[id] == s.outbound[id])
  }

  /** A scan finds each delivery in one status. */
  ghost predicate OneStatus(found: seq<Found>) {
    forall f, g :: f in found && g in found && f.id == g.id ==> f == g
  }

  lemma {:induction false} ReenqueueKeeps(s: Schedule, found: seq<Found>)
    requires Tidy(s)
    ensures Tidy(Reenqueue(s, found))
    ensures forall x :: Secure(s, x) ==> Secure(Reenqueue(s, found), x)
    ensures forall x :: x in Reenqueue(s, found).picked <==> x in s.picked || x in FoundIds(found)
    decreases |found|
  {
    if found != [] {
      var before, last := found[..|found| - 1], found[|found| - 1];
      assert found == before + [last];
      assert FoundIds(found) == FoundIds(before) + {last.id} by {
        assert last in found && forall f :: f in before ==> f in found;
      }
      ReenqueueKeeps(s, before);
      if last.retrying {
        LaterKeeps(Reenqueue(s, before), last.id);
      } else {
        NowKeeps(Reenqueue(s, before), last.id);
      }
    }
  }

  lemma NowElsewhere(s: Schedule, x: Id, id: Id)
    requires Tidy(s)
    ensures x != id || id in s.tasks ==> SameFor(s, ScheduleNow(s, x), id)
    ensures x == id && id !in s.tasks ==> Running(ScheduleNow(s, x), id)
  {
    assert EntryOk(s, id) && LoopOk(s, s.tick);
  }

  lemma LaterElsewhere(s: Schedule, x: Id, id: Id)
    requires Tidy(s) && x != id
    ensures SameFor(s, ScheduleLater(s, x), id)
  {
    assert EntryOk(s, id);
  }

  lemma {:induction false} ReenqueueOne(s: Schedule, found: seq<Found>, id: Id)
    requires Tidy(s) && OneStatus(found)
    ensures id !in FoundIds(found) ==> SameFor(s, Reenqueue(s, found), id)
    ensures Found(id, true) in found ==> Secure(Reenqueue(s, found), id)
    ensures Found(id, false) in found && id in s.tasks ==> SameFor(s, Reenqueue(s, found), id)
    ensures Found(id, false) in found && id !in s.tasks ==> Running(Reenqueue(s, found), id)
    decreases |found|
  {
    if found == [] {
      assert EntryOk(s, id);
    } else {
      var before, last := found[..|found| - 1], found[|found| - 1];
      assert found == before + [last];
      assert last in found && forall f :: f in before ==> f in found;
      assert Found(id, true) in found <==> Found(id, true) in before || last == Found(id, true);
      assert Found(id, false) in found <==> Found(id, false) in before || last == Found(id, false);
      ReenqueueOne(s, before, id);
      ReenqueueKeeps(s, before);
      FoundEither(before, id);
      var s1 := Reenqueue(s, before);
      hide Secure, Running, Tidy, FoundIds;
      if last.id == id && last.retrying {
        LaterKeeps(s1, id);
      } else if last.retrying {
        LaterKeeps(s1, last.id);
        LaterElsewhere(s1, last.id, id);
      } else {
        NowKeeps(s1, last.id);
        NowElsewhere(s1, last.id, id);
      }
      FoundEither(found, id);
    }
  }

  lemma FoundEither(found: seq<Found>, id: Id)
    ensures id in FoundIds(found) <==> Found(id, true) in found || Found(id, false) in found
  {
    if id in FoundIds(found) {
      var f :| f in found && f.id == id;
      assert f == Found(id, f.retrying);
    }
    if Found(id, true) in found { assert Found(id, true).id in FoundIds(found); }
    if Found(id, false) in found { assert Found(id, false).id in FoundIds(found); }
  }

  /** A row that the scan found is anchored by it if and only if it is retrying, or has no ended task whose done
      callback is still to run, or has a timer already; and is secure if and only if, in the last case, the timer was
      set after that task ended. */
  lemma ScanAnchorsExactlyWhen(s: System, f: Found)
    requires Tidy(s.schedule) && s.link.Scanning? && OneStatus(s.link.found) && f in s.link.found
    ensures
      var after := Apply(s, ScanSchedule).schedule;
      && (Anchored(after, f.id) <==> f.retrying || !Ended(s.schedule, f.id) || f.id in s.schedule.outbound)
      && (Secure(after, f.id) <==> f.retrying || !Ended(s.schedule, f.id) || Secure(s.schedule, f.id))
  {
    assert f == Found(f.id, f.retrying) && EntryOk(s.schedule, f.id);
    ReenqueueOne(s.schedule, s.link.found, f.id);
  }

  // ---- runs ----

  predicate Queued(s: System, id: Id) { exists i :: 0 <= i < |s.inbox| && id in Ids(s.inbox[i]) }

  /** Once the scan has read its rows, a delivery that needs work was handed over since the LISTEN, or its notification
      is queued, or it is among the rows read. */
  ghost predicate Traced(s: System, id: Id) {
    NeedsWork(s.rows, id) ==>
      match s.link
      case Down => true
      case Listening => true
      case Scanning(found) => id in s.handed || Queued(s, id) || id in FoundIds(found)
      case Scanned => id in s.handed || Queued(s, id)
  }

  ghost predicate Inv(s: System) {
    && Tidy(s.schedule) && (s.link.Scanning? ==> OneStatus(s.link.found))
    && forall id :: Traced(s, id)
  }

  lemma TidyKept(s: System, a: Action)
    requires Tidy(s.schedule) && Enabled(s, a)
    ensures Tidy(Apply(s, a).schedule)
  {
    match a
    case Dispatch => AllKeeps(s.schedule, Ids(s.inbox[0]));
    case ScanSchedule => ReenqueueKeeps(s.schedule, s.link.found);
    case End(n, outcome) => EndKeeps(s.schedule, n, outcome.Retry?);
    case Popped(n) => PopKeeps(s.schedule, n);
    case Timer(h) => FireKeeps(s.schedule, h);
    case InboundLater => InboundKeeps(s.schedule);
    case _ =>
  }

  /** The delivery's own task aborts. */
  predicate OwnAbort(s: System, a: Action, id: Id) {
    a.End? && a.outcome.Abort? && a.task in s.schedule.loop && s.schedule.loop[a.task].id == id
  }

  predicate OwnEnd(s: System, a: Action, id: Id) {
    a.End? && a.task in s.schedule.loop && s.schedule.loop[a.task].id == id
  }

  /** Only the end of its own task, or the end of the runner, makes a delivery insecure. */
  lemma SecureStays(s: System, a: Action, id: Id)
    requires Tidy(s.schedule) && Enabled(s, a) && Secure(s.schedule, id)
    requires !a.Restart? && (OwnEnd(s, a, id) ==> a.outcome.Retry?)
    ensures Secure(Apply(s, a).schedule, id)
  {
    match a
    case Dispatch => AllKeeps(s.schedule, Ids(s.inbox[0]));
    case ScanSchedule => ReenqueueKeeps(s.schedule, s.link.found);
    case End(n, outcome) => EndKeeps(s.schedule, n, outcome.Retry?);
    case Popped(n) => PopKeeps(s.schedule, n);
    case Timer(h) => FireKeeps(s.schedule, h);
    case InboundLater => InboundKeeps(s.schedule);
    case _ =>
  }

  /** The deliveries a step picks up. */
  lemma PickedAfter(s: System, a: Action, id: Id)
    requires Tidy(s.schedule) && Enabled(s, a) && !a.Restart?
    ensures id in Apply(s, a).schedule.picked <==>
              || id in s.schedule.picked
              || (a.Dispatch? && id in Ids(s.inbox[0])) || (a.ScanSchedule? && id in FoundIds(s.link.found))
  {
    match a
    case Dispatch => AllKeeps(s.schedule, Ids(s.inbox[0]));
    case ScanSchedule => ReenqueueKeeps(s.schedule, s.link.found);
    case End(n, outcome) =>
      assert LoopOk(s.schedule, n) && EntryOk(s.schedule, s.schedule.loop[n].id);
    case Timer(h) =>
      assert HandleOk(s.schedule, h);
      if s.schedule.live[h].Outbound? { assert EntryOk(s.schedule, s.schedule.live[h].id); }
    case _ =>
  }

  lemma AnchorKept(s: System, a: Action, id: Id)
    requires Inv(s) && Enabled(s, a) && AnchorOk(s.schedule, s.rows, id) && !OwnAbort(s, a, id)
    ensures AnchorOk(Apply(s, a).schedule, Apply(s, a).rows, id)
  {
    if !a.Restart? && NeedsWork(Apply(s, a).rows, id) {
      PickedAfter(s, a, id);
      assert EntryOk(s.schedule, id);
      if OwnEnd(s, a, id) && a.outcome.Retry? {
        EndKeeps(s.schedule, a.task, true);
      } else if id in s.schedule.picked && NeedsWork(s.rows, id) {
        SecureStays(s, a, id);
      } else if a.Dispatch? {
        AllKeeps(s.schedule, Ids(s.inbox[0]));
      } else if a.ScanSchedule? && id in FoundIds(s.link.found) {
        var f :| f in s.link.found && f.id == id;
        ScanAnchorsExactlyWhen(s, f);
      }
    }
  }

  lemma TraceKept(s: System, a: Action, id: Id)
    requires Inv(s) && Enabled(s, a)
    ensures Traced(Apply(s, a), id)
  {
    var s1 := Apply(s, a);
    assert Traced(s, id);
    if NeedsWork(s1.rows, id) {
      match a
      case Commit(ids) =>
        IdsOfJoin(ids);
        if !s.link.Down? {
          assert s1.inbox[|s.inbox|] == Join(ids);
          QueuedStays(s, s1, id);
        }
      case Dispatch => OthersQueued(s, s1, id);
      case ScanRead(found) =>
        assert Found(id, s.rows[id] == Retrying) in found;
      case _ =>
    }
  }

  lemma QueuedStays(s: System, s1: System, id: Id)
    requires s.inbox <= s1.inbox
    ensures Queued(s, id) ==> Queued(s1, id)
  {
  }

  lemma OthersQueued(s: System, s1: System, id: Id)
    requires s.inbox != [] && s1.inbox == s.inbox[1..]
    ensures Queued(s, id) && id !in Ids(s.inbox[0]) ==> Queued(s1, id)
  {
    if Queued(s, id) && id !in Ids(s.inbox[0]) {
      var i :| 0 <= i < |s.inbox| && id in Ids(s.inbox[i]);
      assert s1.inbox[i - 1] == s.inbox[i];
    }
  }

  lemma {:induction false} RunInv(states: seq<System>, actions: seq<Action>, i: nat)
    requires IsRun(states, actions) && i < |states|
    ensures Inv(states[i])
  {
    if i > 0 {
      RunInv(states, actions, i - 1);
      TidyKept(states[i - 1], actions[i - 1]);
      forall id ensures Traced(states[i], id) { TraceKept(states[i - 1], actions[i - 1], id); }
    }
  }

  // ---- the main results ----

  /** In every run a delivery has at most one task in the event loop, counting one that has ended until its done
      callback has run, so that callback never clears the entry of another task. */
  lemma OneTaskPerDelivery(states: seq<System>, actions: seq<Action>, i: nat, m: nat, n: nat)
    requires IsRun(states, actions) && i < |states|
    ensures
      var s := states[i].schedule;
      && s.tasks.Values == s.loop.Keys
      && (m in s.loop && n in s.loop && s.loop[m].id == s.loop[n].id ==> m == n)
  {
    RunInv(states, actions, i);
    var s := states[i].schedule;
    assert LoopOk(s, m) && LoopOk(s, n);
    forall x ensures x in s.tasks.Values <==> x in s.loop.Keys {
      assert LoopOk(s, x);
      if x in s.tasks.Values {
        var id :| id in s.tasks && s.tasks[id] == x;
        assert EntryOk(s, id);
      }
    }
  }

  /** In every run a delivery has at most one live timer, the outbound timers are among `_scheduled_timers`, and
      those are exactly the event loop's live ones. */
  lemma OneTimerPerDelivery(states: seq<System>, actions: seq<Action>, i: nat, g: Handle, h: Handle)
    requires IsRun(states, actions) && i < |states|
    ensures
      var s := states[i].schedule;
      && s.outbound.Values <= s.timers && s.timers == s.live.Keys
      && (g in s.live && h in s.live && s.live[g].Outbound? && s.live[g] == s.live[h] ==> g == h)
  {
    RunInv(states, actions, i);
    var s := states[i].schedule;
    assert HandleOk(s, g) && HandleOk(s, h);
    forall x ensures x in s.timers <==> x in s.live { assert HandleOk(s, x); }
    forall x | x in s.outbound.Values ensures x in s.timers {
      var id :| id in s.outbound && s.outbound[id] == x;
      assert EntryOk(s, id) && HandleOk(s, x);
    }
  }

  // ---- what timers do ----

  /** A timer that fires is gone; that of a delivery leaves its book and starts the delivery's task, unless one is
      booked. */
  lemma TimerStartsItsTask(states: seq<System>, actions: seq<Action>, i: nat, h: Handle)
    requires IsRun(states, actions) && i < |actions| && actions[i] == Timer(h)
    ensures h in states[i].schedule.live
    ensures
      var s, s1 := states[i].schedule, states[i + 1].schedule;
      && h !in s1.live && h !in s1.timers
      && match s.live[h]
         case Inbound => s1.tasks == s.tasks && s1.loop == s.loop && s1.outbound == s.outbound
         case Outbound(id) =>
           && id !in s1.outbound && id in s1.tasks
           && (id in s.tasks ==> s1.tasks == s.tasks && s1.loop == s.loop)
           && (id !in s.tasks ==> Running(s1, id) && s1.tasks[id] !in s.loop)
  {
    RunInv(states, actions, i);
    RunInv(states, actions, i + 1);
    var s, s1 := states[i].schedule, states[i + 1].schedule;
    assert HandleOk(s, h) && HandleOk(s1, h) && LoopOk(s, s.tick);
    hide IsRun, Inv;
  }

  /** A live timer of an inbound event. */
  predicate WaitsInbound(s: Schedule, h: Handle) { h in s.live && s.live[h].Inbound? && h in s.timers }

  lemma LaterKeepsInbound(s: Schedule, id: Id, h: Handle)
    requires Tidy(s) && WaitsInbound(s, h)
    ensures WaitsInbound(ScheduleLater(s, id), h)
  {
    assert EntryOk(s, id) && HandleOk(s, h);
  }

  lemma {:induction false} AllKeepsInbound(s: Schedule, ids: seq<Id>, h: Handle)
    requires WaitsInbound(s, h)
    ensures WaitsInbound(ScheduleAll(s, ids), h)
    decreases |ids|
  {
    if ids != [] { AllKeepsInbound(s, ids[..|ids| - 1], h); }
  }

  lemma {:induction false} ReenqueueKeepsInbound(s: Schedule, found: seq<Found>, h: Handle)
    requires Tidy(s) && WaitsInbound(s, h)
    ensures WaitsInbound(Reenqueue(s, found), h)
    decreases |found|
  {
    if found != [] {
      var before := found[..|found| - 1];
      ReenqueueKeepsInbound(s, before, h);
      ReenqueueKeeps(s, before);
      hide Tidy;
      if found[|found| - 1].retrying { LaterKeepsInbound(Reenqueue(s, before), found[|found| - 1].id, h); }
    }
  }

  /** The retry of an inbound event gets a live timer of its own, which nothing but its firing takes away while the
      runner runs. */
  lemma InboundRetryWaits(states: seq<System>, actions: seq<Action>, i: nat)
    requires IsRun(states, actions) && i < |actions|
    ensures actions[i].InboundLater? ==>
              exists h: Handle :: h !in states[i].schedule.live && WaitsInbound(states[i + 1].schedule, h)
    ensures !actions[i].Restart? ==>
              forall h: Handle :: WaitsInbound(states[i].schedule, h) && actions[i] != Timer(h) ==>
                WaitsInbound(states[i + 1].schedule, h)
  {
    RunInv(states, actions, i);
    var s, a := states[i].schedule, actions[i];
    assert Enabled(states[i], a) && states[i + 1] == Apply(states[i], a);
    hide IsRun, Inv;
    if a.InboundLater? {
      assert HandleOk(s, s.tick);
      assert WaitsInbound(states[i + 1].schedule, s.tick);
    }
    forall h: Handle | WaitsInbound(s, h) && a != Timer(h) && !a.Restart?
      ensures WaitsInbound(states[i + 1].schedule, h)
    {
      InboundKept(states[i], a, h);
    }
  }

  lemma InboundKept(s: System, a: Action, h: Handle)
    requires Tidy(s.schedule) && Enabled(s, a) && WaitsInbound(s.schedule, h) && a != Timer(h) && !a.Restart?
    ensures WaitsInbound(Apply(s, a).schedule, h)
  {
    match a
    case Dispatch => AllKeepsInbound(s.schedule, Ids(s.inbox[0]), h);
    case ScanSchedule => ReenqueueKeepsInbound(s.schedule, s.link.found, h);
    case End(n, outcome) =>
      if outcome.Retry? {
        EndKeeps(s.schedule, n, false);
        LaterKeepsInbound(EndTask(s.schedule, n, false), s.schedule.loop[n].id, h);
      }
    case InboundLater => assert HandleOk(s.schedule, h);
    case _ =>
  }

  /** No missed delivery, in every run, aborts included: after a successful scan each committed delivery that is
      PENDING or RETRYING was handed to the scheduler since this LISTEN, or has its notification queued on the live
      connection. */
  lemma NoMissedDelivery(states: seq<System>, actions: seq<Action>, i: nat, id: Id)
    requires IsRun(states, actions) && i < |states|
    requires states[i].link.Scanned? && NeedsWork(states[i].rows, id)
    ensures id in states[i].handed || Queued(states[i], id)
  {
    RunInv(states, actions, i);
    assert Traced(states[i], id);
  }

  ghost predicate NoOwnAbort(states: seq<System>, actions: seq<Action>, m: nat, i: nat, id: Id)
    requires m <= i <= |actions| <= |states|
  {
    forall n :: m <= n < i ==> !OwnAbort(states[n], actions[n], id)
  }

  /** From any moment at which a delivery is secure, or not picked up, or settled: as long as none of its own tasks
      aborts after that moment, whenever it is picked up and still PENDING or RETRYING it has a running task or a live
      timer, even when a timer fires while its task is in flight. What happened before does not matter. */
  lemma {:induction false} PickedUpIsAnchored(states: seq<System>, actions: seq<Action>, m: nat, i: nat, id: Id)
    requires IsRun(states, actions) && m <= i < |states| && NoOwnAbort(states, actions, m, i, id)
    requires AnchorOk(states[m].schedule, states[m].rows, id)
    ensures AnchorOk(states[i].schedule, states[i].rows, id)
    ensures NeedsWork(states[i].rows, id) && id in states[i].schedule.picked ==> Anchored(states[i].schedule, id)
  {
    if m < i {
      PickedUpIsAnchored(states, actions, m, i - 1, id);
      RunInv(states, actions, i - 1);
      AnchorKept(states[i - 1], actions[i - 1], id);
    }
  }

  /** The scan leaves the delivery insecure: it is pending, an ended task of it is still booked, and it has no timer
      set since that end. */
  predicate SkippedByScan(s: System, id: Id) {
    s.link.Scanning? && Found(id, false) in s.link.found && Ended(s.schedule, id) && !Secure(s.schedule, id)
  }

  /** A delivery that a scan re-enqueues stays anchored while it needs work and none of its tasks aborts after that
      scan, whatever aborted before, unless the scan skipped it. */
  lemma ReenqueuedStaysAnchored(states: seq<System>, actions: seq<Action>, k: nat, i: nat, f: Found)
    requires IsRun(states, actions) && k < i < |states| && actions[k] == ScanSchedule && f in states[k].link.found
    requires NoOwnAbort(states, actions, k + 1, i, f.id) && !SkippedByScan(states[k], f.id)
    requires NeedsWork(states[i].rows, f.id) && forall n :: k < n < i ==> !actions[n].Restart?
    ensures Anchored(states[i].schedule, f.id)
  {
    RunInv(states, actions, k);
    assert f == Found(f.id, f.retrying);
    ScanAnchorsExactlyWhen(states[k], f);
    PickedUpIsAnchored(states, actions, k + 1, i, f.id);
    PickedAfter(states[k], actions[k], f.id);
    PickedStays(states, actions, k + 1, i, f.id);
  }

  lemma {:induction false} PickedStays(states: seq<System>, actions: seq<Action>, m: nat, i: nat, id: Id)
    requires IsRun(states, actions) && m <= i < |states| && id in states[m].schedule.picked
    requires forall n :: m <= n < i ==> !actions[n].Restart?
    ensures id in states[i].schedule.picked
  {
    if m < i {
      PickedStays(states, actions, m, i - 1, id);
      RunInv(states, actions, i - 1);
      PickedAfter(states[i - 1], actions[i - 1], id);
    }
  }

  /** From the reading of the rows on: found, or committed since and not yet notified, or secure. */
  ghost predicate Remembered(s: System, id: Id) {
    NeedsWork(s.rows, id) ==>
      match s.link
      case Down => true
      case Listening => true
      case Scanning(found) =>
        id in FoundIds(found) || (Queued(s, id) && id !in s.schedule.picked) || Secure(s.schedule, id)
      case Scanned => (Queued(s, id) && id !in s.schedule.picked) || Secure(s.schedule, id)
  }

  lemma RememberedKept(s: System, a: Action, id: Id)
    requires Inv(s) && Enabled(s, a) && Remembered(s, id) && !OwnAbort(s, a, id)
    requires a.ScanSchedule? ==> !SkippedByScan(s, id)
    ensures Remembered(Apply(s, a), id)
  {
    var s1 := Apply(s, a);
    if NeedsWork(s1.rows, id) && (s1.link.Scanning? || s1.link.Scanned?) {
      PickedAfter(s, a, id);
      if OwnEnd(s, a, id) && a.outcome.Retry? {
        EndKeeps(s.schedule, a.task, true);
      } else if a.Commit? {
        IdsOfJoin(a.ids);
        assert s1.inbox[|s.inbox|] == Join(a.ids);
        QueuedStays(s, s1, id);
        if Secure(s.schedule, id) && NeedsWork(s.rows, id) { SecureStays(s, a, id); }
      } else if a.ScanRead? {
        assert Found(id, s.rows[id] == Retrying) in a.found;
      } else if Secure(s.schedule, id) {
        SecureStays(s, a, id);
      } else if a.Dispatch? {
        AllKeeps(s.schedule, Ids(s.inbox[0]));
        OthersQueued(s, s1, id);
      } else if a.ScanSchedule? && id in FoundIds(s.link.found) {
        var f :| f in s.link.found && f.id == id;
        assert f == Found(id, f.retrying);
        ScanAnchorsExactlyWhen(s, f);
      }
    }
  }

  /** No committed delivery is forgotten. From any moment before a scan has read its rows: after that scan, a delivery
      that needs work has a running task, a live timer or a queued notification, unless since that moment one of its
      tasks aborted or a scan skipped it. */
  lemma NothingForgotten(states: seq<System>, actions: seq<Action>, r: nat, i: nat, id: Id)
    requires IsRun(states, actions) && r <= i < |states| && (states[r].link.Listening? || states[r].link.Down?)
    requires NoOwnAbort(states, actions, r, i, id)
    requires forall n :: r <= n < i && actions[n] == ScanSchedule ==> !SkippedByScan(states[n], id)
    requires states[i].link.Scanned? && NeedsWork(states[i].rows, id)
    ensures Anchored(states[i].schedule, id) || Queued(states[i], id)
  {
    RememberedSince(states, actions, r, i, id);
  }

  lemma {:induction false} RememberedSince(states: seq<System>, actions: seq<Action>, r: nat, i: nat, id: Id)
    requires IsRun(states, actions) && r <= i < |states| && (states[r].link.Listening? || states[r].link.Down?)
    requires NoOwnAbort(states, actions, r, i, id)
    requires forall n :: r <= n < i && actions[n] == ScanSchedule ==> !SkippedByScan(states[n], id)
    ensures Remembered(states[i], id)
  {
    if r < i {
      RememberedSince(states, actions, r, i - 1, id);
      RunInv(states, actions, i - 1);
      RememberedKept(states[i - 1], actions[i - 1], id);
    }
  }

  // ---- aborts ----

  /** An abort leaves a delivery a task or timer exactly when it had a timer, and never a secure one. */
  lemma AbortKeepsAnchorExactlyWhen(s: System, n: nat)
    requires Tidy(s.schedule) && Enabled(s, End(n, Abort))
    ensures
      var id, after := s.schedule.loop[n].id, Apply(s, End(n, Abort));
      && (Anchored(after.schedule, id) <==> id in s.schedule.outbound)
      && !Secure(after.schedule, id) && after.rows == s.rows
  {
    var id := s.schedule.loop[n].id;
    assert LoopOk(s.schedule, n) && EntryOk(s.schedule, id);
    if id in s.schedule.outbound {
      assert HandleOk(s.schedule, s.schedule.outbound[id]);
    }
  }

  predicate Fired(actions: seq<Action>, m: nat, j: nat, h: Handle)
    requires m < j <= |actions|
  {
    exists x :: m < x < j && actions[x] == Timer(h)
  }

  /** Between its abort at `m` and its done callback at `p` no scan hands the delivery over. */
  ghost predicate LeftAlone(states: seq<System>, actions: seq<Action>, m: nat, p: nat, n: nat, id: Id)
    requires m < p < |actions| < |states|
  {
    forall j :: m < j < p ==>
      && actions[j] != Popped(n) && !actions[j].Restart?
      && (actions[j].ScanSchedule? && states[j].link.Scanning? ==> id !in FoundIds(states[j].link.found))
  }

  /** What the abort of a delivery comes to, once the done callback has run: it is anchored if and only if it had a
      timer and that timer did not fire before the callback. Notifications in between make no difference. */
  lemma AbortForgetsExactlyWhen(states: seq<System>, actions: seq<Action>, m: nat, p: nat, n: nat, id: Id)
    requires IsRun(states, actions) && m < p < |actions|
    requires actions[m] == End(n, Abort) && states[m].schedule.loop[n].id == id && actions[p] == Popped(n)
    requires LeftAlone(states, actions, m, p, n, id)
    ensures
      var before := states[m].schedule.outbound;
      Anchored(states[p + 1].schedule, id) <==>
        id in before && !Fired(actions, m, p, before[id])
  {
    RunInv(states, actions, m);
    assert LoopOk(states[m].schedule, n);
    AfterAbort(states, actions, m, p, p, n, id);
  }

  /** What is left of a delivery whose task `n` has ended: the entry of the task, and the timer it had, if any. */
  ghost predicate Leftover(s: Schedule, id: Id, n: nat, timer: Option<Handle>) {
    && id in s.tasks && s.tasks[id] == n && n in s.loop && s.loop[n].ended.Some?
    && (id in s.outbound <==> timer.Some?)
    && (id in s.outbound ==> timer == Some(s.outbound[id]))
  }

  lemma LeftoverAfter(s: System, a: Action, id: Id, n: nat, timer: Option<Handle>)
    requires Inv(s) && Enabled(s, a) && Leftover(s.schedule, id, n, timer)
    requires a != Popped(n) && !a.Restart? && (a.ScanSchedule? ==> id !in FoundIds(s.link.found))
    ensures Leftover(Apply(s, a).schedule, id, n, if timer.Some? && a == Timer(timer.value) then None else timer)
  {
    assert EntryOk(s.schedule, id);
    match a
    case Dispatch => AllElsewhere(s.schedule, Ids(s.inbox[0]), id);
    case ScanSchedule => ReenqueueOne(s.schedule, s.link.found, id);
    case End(k, outcome) =>
      assert LoopOk(s.schedule, k);
      EndElsewhere(s.schedule, k, outcome.Retry?, id);
    case Popped(k) => assert LoopOk(s.schedule, k);
    case Timer(h) => FireElsewhere(s.schedule, h, id);
    case _ =>
  }

  lemma {:induction false} AfterAbort(states: seq<System>, actions: seq<Action>, m: nat, j: nat, p: nat, n: nat, id: Id)
    requires IsRun(states, actions) && m < j <= p < |actions|
    requires actions[m] == End(n, Abort) && LeftAlone(states, actions, m, p, n, id)
    requires n in states[m].schedule.loop && states[m].schedule.loop[n].id == id && Tidy(states[m].schedule)
    ensures
      var before := states[m].schedule.outbound;
      Leftover(states[j].schedule, id, n,
               if id in before && !Fired(actions, m, j, before[id]) then Some(before[id]) else None)
  {
    if j == m + 1 {
      assert LoopOk(states[m].schedule, n);
    } else {
      AfterAbort(states, actions, m, j - 1, p, n, id);
      RunInv(states, actions, j - 1);
      var before := states[m].schedule.outbound;
      if id in before {
        assert Fired(actions, m, j, before[id]) <==>
            Fired(actions, m, j - 1, before[id]) || actions[j - 1] == Timer(before[id]);
      }
      hide Inv, Leftover, Fired, Apply, Enabled;
      LeftoverAfter(states[j - 1], actions[j - 1], id, n,
                    if id in before && !Fired(actions, m, j - 1, before[id]) then Some(before[id]) else None);
    }
  }

  lemma {:induction false} AllElsewhere(s: Schedule, ids: seq<Id>, id: Id)
    requires Tidy(s) && id in s.tasks
    ensures SameFor(s, ScheduleAll(s, ids), id)
    decreases |ids|
  {
    assert EntryOk(s, id);
    if ids != [] {
      AllElsewhere(s, ids[..|ids| - 1], id);
      AllKeeps(s, ids[..|ids| - 1]);
      NowElsewhere(ScheduleAll(s, ids[..|ids| - 1]), ids[|ids| - 1], id);
    }
  }

  lemma EndElsewhere(s: Schedule, n: nat, retry: bool, id: Id)
    requires Tidy(s) && RunningTask(s, n) && s.loop[n].id != id
    ensures SameFor(s, EndTask(s, n, retry), id)
  {
    assert EntryOk(s, id) && LoopOk(s, n);
  }

  lemma FireElsewhere(s: Schedule, h: Handle, id: Id)
    requires Tidy(s) && h in s.live && id in s.tasks
    ensures
      var s1 := Fire(s, h);
      && id in s1.tasks && s1.tasks[id] == s.tasks[id] && s.tasks[id] in s.loop && s.tasks[id] in s1.loop
      && s1.loop[s.tasks[id]] == s.loop[s.tasks[id]]
      && (id in s1.outbound <==> id in s.outbound && h != s.outbound[id])
      && (id in s1.outbound ==> s1.outbound[id] == s.outbound[id])
  {
    assert EntryOk(s, id) && HandleOk(s, h) && LoopOk(s, s.tick);
  }

  /** When the task of a pending row aborts between the reading of the rows and their re-enqueueing, and has no timer,
      the scan finds the ended task still booked and leaves the delivery without task or timer. */
  lemma AbortDuringScanForgets(s: System, n: nat)
    requires Inv(s) && s.link.Scanning? && RunningTask(s.schedule, n)
    requires Found(s.schedule.loop[n].id, false) in s.link.found && s.schedule.loop[n].id !in s.schedule.outbound
    ensures
      var id, aborted := s.schedule.loop[n].id, Apply(s, End(n, Abort));
      var after := Apply(aborted, ScanSchedule);
      && Enabled(s, End(n, Abort)) && Enabled(aborted, ScanSchedule) && SkippedByScan(aborted, id)
      && after.link.Scanned? && after.rows == s.rows && after.inbox == s.inbox && !Anchored(after.schedule, id)
  {
    var id := s.schedule.loop[n].id;
    assert LoopOk(s.schedule, n) && EntryOk(s.schedule, id);
    AbortKeepsAnchorExactlyWhen(s, n);
    TidyKept(s, End(n, Abort));
    hide Secure, Anchored;
    ScanAnchorsExactlyWhen(Apply(s, End(n, Abort)), Found(id, false));
  }

  /** The states of a run in which the connection is lost while a task is in flight, and the task aborts during the
      next scan. */
  function ForgottenState(id: Id, n: nat): System {
    var rows, found := map[id := Pending], [Found(id, false)];
    var busy := Schedule(map[id := 0], map[0 := LoopTask(id, None)], map[], {}, map[], 1, {id});
    var ended := Schedule(map[id := 0], map[0 := LoopTask(id, Some(1))], map[], {}, map[], 2, {id});
    match n
    case 0 => System(Empty, Down, [], rows, {})
    case 1 => System(Empty, Listening, [], rows, {})
    case 2 => System(Empty, Scanning(found), [], rows, {})
    case 3 => System(busy, Scanned, [], rows, {id})
    case 4 => System(busy, Down, [], rows, {id})
    case 5 => System(busy, Listening, [], rows, {})
    case 6 => System(busy, Scanning(found), [], rows, {})
    case 7 => System(ended, Scanning(found), [], rows, {})
    case _ => System(ended, Scanned, [], rows, {id})
  }

  function ForgottenActions(id: Id): seq<Action> {
    var read := ScanRead([Found(id, false)]);
    [Connect, read, ScanSchedule, Lose, Connect, read, End(0, Abort), ScanSchedule]
  }

  lemma ForgottenStep(id: Id, n: nat)
    requires n < 8
    ensures
      var s, a := ForgottenState(id, n), ForgottenActions(id)[n];
      Enabled(s, a) && Apply(s, a) == ForgottenState(id, n + 1)
  {
    var found := [Found(id, false)];
    if n == 2 || n == 7 {
      assert found[..0] == [];
      assert FoundIds(found) == {id} by { assert Found(id, false) in found; }
      var s := ForgottenState(id, n).schedule;
      assert Reenqueue(s, found) == ScheduleNow(Reenqueue(s, []), id);
    }
  }

  /** Such a run, and what it ends in: the delivery is still pending after the scan, with no task, timer or
      notification. */
  lemma ForgottenInARun(id: Id)
    ensures IsRun(seq(9, n requires 0 <= n => ForgottenState(id, n)), ForgottenActions(id))
    ensures
      var s := ForgottenState(id, 8);
      s.link.Scanned? && NeedsWork(s.rows, id) && !Anchored(s.schedule, id) && !Queued(s, id)
  {
    forall n | 0 <= n < 8
      ensures
        var s, a := ForgottenState(id, n), ForgottenActions(id)[n];
        Enabled(s, a) && Apply(s, a) == ForgottenState(id, n + 1)
    {
      ForgottenStep(id, n);
    }
    hide Enabled, Apply;
  }
}
