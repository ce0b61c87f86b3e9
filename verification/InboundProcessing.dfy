/**
  Inbound messages and status updates: the dispatcher's tasks, their retries after storage failures, and the
  partial unique index on (external_id, backend) that stored deliveries share.
 */
module InboundProcessing {
  import opened Options

  datatype Event =
    | Message(externalId: string, backend: string)
    | StatusUpdate(externalId: string, backend: string, status: string)

  datatype Fate =
    | Stored      // written (for a status update: its record)
    | Duplicate   // refused by the unique index
    | Dropped     // nothing to do: unknown recipient or delivery, echo, seen idempotency key, already delivered
    | Skipped     // a task with the same key was booked
    | GaveUp      // an exception ended the task

  datatype Phase = Queued | Running | Closed(fate: Fate)

  /** One enqueued event and the number of the attempt it is at. */
  datatype Ticket = Ticket(event: Event, attempt: nat, phase: Phase)

  /** An entry of the unique index; inbound ones name the ticket that wrote them. */
  datatype Row = Row(externalId: string, backend: string, ticket: Option<nat>)

  /** The key under which `_tasks` files a task, from its start until its done callback has run. */
  datatype TaskKey = TaskKey(event: Event, attempt: nat)

  /** `tasks` is the inbound part of `_tasks`, with the ticket each task works on; `written` is history: all rows there
      ever were, `rows` those not deleted since. */
  datatype System = System(tickets: seq<Ticket>, tasks: map<TaskKey, nat>, rows: seq<Row>, written: seq<Row>)

  /** What an attempt meets. */
  datatype Meets = Nothing | StorageFailure | OtherException | SeenKey | Storage

  datatype Action =
    | Receive(event: Event)
    | Start(t: nat)
    | End(t: nat, meets: Meets)
    | Popped(key: TaskKey)  // the done callback of a task that has ended
    | AcceptOutbound(externalId: string, backend: string)
    | Delete(r: nat)        // its message's room is deleted, or an outbound delivery gets another external id

  const INBOUND_RETRY_DELAYS: seq<real> := [2.0, 5.0, 10.0]
  const INBOUND_MAX_RETRIES: nat := |INBOUND_RETRY_DELAYS|

  /** `_db_persist_or_delay` after a storage failure: the delay, or nothing when the exception is raised again. */
  function DelayAfterFailure(attempt: nat): (delay: Option<real>)
    ensures delay.None? <==> attempt >= INBOUND_MAX_RETRIES
    ensures delay.Some? ==> 2.0 <= delay.value <= 10.0
  {
    if attempt >= INBOUND_MAX_RETRIES then None else Some(INBOUND_RETRY_DELAYS[attempt])
  }

  predicate Indexed(rows: seq<Row>, externalId: string, backend: string) {
    exists i :: 0 <= i < |rows| && rows[i].externalId == externalId && rows[i].backend == backend
  }

  function KeyOf(ticket: Ticket): TaskKey { TaskKey(ticket.event, ticket.attempt) }

  /** The task booked under a key has not ended. */
  predicate Working(s: System, key: TaskKey)
    requires key in s.tasks
  {
    var t := s.tasks[key];
    t < |s.tickets| && s.tickets[t].phase.Running? && KeyOf(s.tickets[t]) == key
  }

  predicate Enabled(s: System, a: Action) {
    match a
    case Receive(_) => true
    case Start(t) => t < |s.tickets| && s.tickets[t].phase.Queued?
    case End(t, meets) =>
      t < |s.tickets| && s.tickets[t].phase.Running? && (meets.SeenKey? ==> s.tickets[t].attempt == 0)
    case Popped(key) => key in s.tasks && !Working(s, key)
    case AcceptOutbound(externalId, backend) => !Indexed(s.rows, externalId, backend)
    case Delete(r) => r < |s.rows|
  }

  /** The ticket once its attempt is over. */
  function Ended(s: System, ticket: Ticket, meets: Meets): Ticket {
    match meets
    case Nothing => ticket.(phase := Closed(Dropped))
    case SeenKey => ticket.(phase := Closed(Dropped))
    case OtherException => ticket.(phase := Closed(GaveUp))
    case StorageFailure =>
      if DelayAfterFailure(ticket.attempt).None? then ticket.(phase := Closed(GaveUp))
      else ticket.(phase := Queued, attempt := ticket.attempt + 1)
    case Storage => ticket.(phase := Closed(if Refused(s, ticket.event) then Duplicate else Stored))
  }

  predicate Refused(s: System, event: Event) {
    event.Message? && Indexed(s.rows, event.externalId, event.backend)
  }

  function TicketsAfter(s: System, a: Action): seq<Ticket>
    requires Enabled(s, a)
  {
    match a
    case Receive(event) => s.tickets + [Ticket(event, 0, Queued)]
    case Start(t) =>
      s.tickets[t := s.tickets[t].(phase := if KeyOf(s.tickets[t]) in s.tasks then Closed(Skipped) else Running)]
    case End(t, meets) => s.tickets[t := Ended(s, s.tickets[t], meets)]
    case _ => s.tickets
  }

  function TasksAfter(s: System, a: Action): map<TaskKey, nat>
    requires Enabled(s, a)
  {
    match a
    case Start(t) => if KeyOf(s.tickets[t]) in s.tasks then s.tasks else s.tasks[KeyOf(s.tickets[t]) := t]
    case Popped(key) => s.tasks - {key}
    case _ => s.tasks
  }

  /** The row a step writes. */
  function Writes(s: System, a: Action): seq<Row>
    requires Enabled(s, a)
  {
    match a
    case End(t, Storage) =>
      var event := s.tickets[t].event;
      if event.Message? && !Refused(s, event) then [Row(event.externalId, event.backend, Some(t))] else []
    case AcceptOutbound(externalId, backend) => [Row(externalId, backend, None)]
    case _ => []
  }

  function RowsAfter(s: System, a: Action): seq<Row>
    requires Enabled(s, a)
  {
    if a.Delete? then s.rows[..a.r] + s.rows[a.r + 1..] else s.rows + Writes(s, a)
  }

  function Apply(s: System, a: Action): System
    requires Enabled(s, a)
  {
    System(TicketsAfter(s, a), TasksAfter(s, a), RowsAfter(s, a), s.written + Writes(s, a))
  }

  ghost predicate IsRun(states: seq<System>, actions: seq<Action>) {
    && |states| == |actions| + 1
    && states[0] == System([], map[], [], [])
    && forall i :: 0 <= i < |actions| ==>
        Enabled(states[i], actions[i]) && states[i + 1] == Apply(states[i], actions[i])
  }

  // ---- what holds in every run ----

  /** The retry limit is respected, a running ticket is booked, and a closed ticket says truly what became of its
      event. */
  ghost predicate TicketOk(s: System, t: nat)
    requires t < |s.tickets|
  {
    var ticket := s.tickets[t];
    && ticket.attempt <= INBOUND_MAX_RETRIES
    && (ticket.phase.Running? ==> KeyOf(ticket) in s.tasks && s.tasks[KeyOf(ticket)] == t)
    && (ticket.event.Message? ==>
          && (ticket.phase == Closed(Stored) <==>
                Row(ticket.event.externalId, ticket.event.backend, Some(t)) in s.written)
          && (ticket.phase == Closed(Duplicate) ==>
                Indexed(s.written, ticket.event.externalId, ticket.event.backend)))
    && (ticket.event.StatusUpdate? ==> ticket.phase != Closed(Duplicate))
  }

  /** The unique index holds for the rows there are. */
  ghost predicate RowsOk(s: System) {
    && (forall i, j :: 0 <= i < j < |s.rows| ==>
          !(s.rows[i].externalId == s.rows[j].externalId && s.rows[i].backend == s.rows[j].backend))
    && (forall i :: 0 <= i < |s.rows| ==> s.rows[i] in s.written)
  }

  /** Every inbound row was written by a ticket. */
  ghost predicate WrittenOk(s: System) {
    forall i :: 0 <= i < |s.written| && s.written[i].ticket.Some? ==>
      var t := s.written[i].ticket.value;
      t < |s.tickets| && s.tickets[t].event == Message(s.written[i].externalId, s.written[i].backend)
  }

  ghost predicate Inv(s: System) {
    RowsOk(s) && WrittenOk(s) && forall t :: 0 <= t < |s.tickets| ==> TicketOk(s, t)
  }

  lemma TicketKept(s: System, a: Action, t: nat)
    requires RowsOk(s) && WrittenOk(s) && Enabled(s, a) && t < |s.tickets| && TicketOk(s, t)
    ensures t < |Apply(s, a).tickets| && TicketOk(Apply(s, a), t)
  {
    var s1, e := Apply(s, a), s.tickets[t].event;
    IndexGrows(s.written, s1.written, e.externalId, e.backend);
    if e.Message? && Indexed(s.rows, e.externalId, e.backend) {
      var r :| 0 <= r < |s.rows| && s.rows[r].externalId == e.externalId && s.rows[r].backend == e.backend;
      assert s.rows[r] in s.written;
    }
  }

  lemma NewTicketOk(s: System, event: Event)
    requires WrittenOk(s)
    ensures TicketOk(Apply(s, Receive(event)), |s.tickets|)
  {
  }

  lemma RowsKept(s: System, a: Action)
    requires RowsOk(s) && Enabled(s, a)
    ensures RowsOk(Apply(s, a))
  {
    var s1 := Apply(s, a);
    hide TicketsAfter, TasksAfter;
    forall i | 0 <= i < |s1.rows| ensures s1.rows[i] in s1.written {
      if a.Delete? {
        assert s1.rows[i] == s.rows[if i < a.r then i else i + 1];
      }
    }
  }

  lemma InvHolds(s: System, a: Action)
    requires Inv(s) && Enabled(s, a)
    ensures Inv(Apply(s, a))
  {
    var s1 := Apply(s, a);
    RowsKept(s, a);
    forall t | 0 <= t < |s1.tickets| ensures TicketOk(s1, t) {
      if t < |s.tickets| {
        TicketKept(s, a, t);
      } else {
        NewTicketOk(s, a.event);
      }
    }
    hide TicketOk, RowsOk, TasksAfter, RowsAfter;
    assert WrittenOk(s1);
  }

  lemma IndexGrows(rows: seq<Row>, rows1: seq<Row>, externalId: string, backend: string)
    requires rows <= rows1
    ensures Indexed(rows, externalId, backend) ==> Indexed(rows1, externalId, backend)
  {
    if Indexed(rows, externalId, backend) {
      var i :| 0 <= i < |rows| && rows[i].externalId == externalId && rows[i].backend == backend;
      assert rows1[i] == rows[i];
    }
  }

  lemma {:induction false} RunInv(states: seq<System>, actions: seq<Action>, i: nat)
    requires IsRun(states, actions) && i < |states|
    ensures Inv(states[i])
  {
    if i > 0 {
      RunInv(states, actions, i - 1);
      InvHolds(states[i - 1], actions[i - 1]);
    }
  }

  /** How many attempts of ticket `t` have begun in the first `n` steps of a run. */
  function Attempts(states: seq<System>, actions: seq<Action>, t: nat, n: nat): nat
    requires n <= |actions| && |states| == |actions| + 1
  {
    if n == 0 then 0
    else Attempts(states, actions, t, n - 1)
         + if actions[n - 1] == Start(t) && t < |states[n].tickets| && states[n].tickets[t].phase.Running? then 1 else 0
  }

  /** The attempts that a ticket says were begun. */
  function Begun(ticket: Ticket): nat {
    match ticket.phase
    case Queued => ticket.attempt
    case Closed(Skipped) => ticket.attempt
    case _ => ticket.attempt + 1
  }

  lemma BegunAfter(s: System, a: Action, t: nat)
    requires Enabled(s, a) && t < |s.tickets|
    ensures
      var ticket := Apply(s, a).tickets[t];
      Begun(ticket) == Begun(s.tickets[t]) + if a == Start(t) && ticket.phase.Running? then 1 else 0
  {
    hide Refused, Indexed, RowsAfter, Writes;
  }

  lemma {:induction false} AttemptsCounted(states: seq<System>, actions: seq<Action>, t: nat, i: nat)
    requires IsRun(states, actions) && i < |states|
    ensures t >= |states[i].tickets| ==> Attempts(states, actions, t, i) == 0
    ensures t < |states[i].tickets| ==> Attempts(states, actions, t, i) == Begun(states[i].tickets[t])
  {
    if i > 0 {
      AttemptsCounted(states, actions, t, i - 1);
      var s, a := states[i - 1], actions[i - 1];
      assert Enabled(s, a) && states[i] == Apply(s, a);
      if t < |s.tickets| {
        hide Enabled, Apply, Begun, IsRun;
        BegunAfter(s, a, t);
      }
    }
  }

  /** Every event is attempted at most four times, and the delay table is never indexed out of range: an attempt
      that fails in storage is retried after its entry of the table, the fourth is the last. */
  lemma AtMostFourAttempts(states: seq<System>, actions: seq<Action>, t: nat, i: nat)
    requires IsRun(states, actions) && i < |states| && t < |states[i].tickets|
    ensures Attempts(states, actions, t, i) <= 4 && states[i].tickets[t].attempt <= 3
    ensures states[i].tickets[t].phase.Running? ==>
              var attempt := states[i].tickets[t].attempt;
              && DelayAfterFailure(attempt) == (if attempt == 3 then None else Some([2.0, 5.0, 10.0][attempt]))
              && (attempt == 3 <==> Attempts(states, actions, t, i) == 4)
  {
    RunInv(states, actions, i);
    AttemptsCounted(states, actions, t, i);
    assert TicketOk(states[i], t);
  }

  /** The delays that ticket `t` was given in the first `n` steps of a run. */
  function Waited(states: seq<System>, actions: seq<Action>, t: nat, n: nat): real
    requires n <= |actions| && |states| == |actions| + 1
  {
    if n == 0 then 0.0 else
    Waited(states, actions, t, n - 1)
    + if actions[n - 1] == End(t, StorageFailure) && t < |states[n - 1].tickets|
         && DelayAfterFailure(states[n - 1].tickets[t].attempt).Some?
      then DelayAfterFailure(states[n - 1].tickets[t].attempt).value else 0.0
  }

  /** What the delays of a ticket at a given attempt come to. */
  function WaitedBy(attempt: nat): real {
    if attempt == 0 then 0.0 else if attempt == 1 then 2.0 else if attempt == 2 then 7.0 else 17.0
  }

  lemma WaitedAfter(s: System, a: Action, t: nat)
    requires Enabled(s, a) && t < |s.tickets|
    ensures
      var attempt := s.tickets[t].attempt;
      var again := a == End(t, StorageFailure) && DelayAfterFailure(attempt).Some?;
      && Apply(s, a).tickets[t].attempt == (if again then attempt + 1 else attempt)
      && (again ==> WaitedBy(attempt + 1) == WaitedBy(attempt) + DelayAfterFailure(attempt).value)
  {
    hide Refused, Indexed, RowsAfter, Writes;
  }

  /** The retries of one event wait 2, 5 and 10 seconds, in this order, and so 17 seconds at most in all. */
  lemma {:induction false} WaitsAsTabled(states: seq<System>, actions: seq<Action>, t: nat, i: nat)
    requires IsRun(states, actions) && i < |states|
    ensures t >= |states[i].tickets| ==> Waited(states, actions, t, i) == 0.0
    ensures t < |states[i].tickets| ==>
              Waited(states, actions, t, i) == WaitedBy(states[i].tickets[t].attempt) <= 17.0
  {
    if i > 0 {
      WaitsAsTabled(states, actions, t, i - 1);
      var s, a := states[i - 1], actions[i - 1];
      assert Enabled(s, a) && states[i] == Apply(s, a);
      if t < |s.tickets| {
        hide Enabled, Apply, IsRun;
        WaitedAfter(s, a, t);
      }
    }
  }

  /** Two tasks never work on one event at the same attempt. */
  lemma OneTaskPerKey(states: seq<System>, actions: seq<Action>, i: nat, t: nat, u: nat)
    requires IsRun(states, actions) && i < |states| && t < |states[i].tickets| && u < |states[i].tickets|
    requires states[i].tickets[t].phase.Running? && states[i].tickets[u].phase.Running?
    requires KeyOf(states[i].tickets[t]) == KeyOf(states[i].tickets[u])
    ensures t == u
  {
    RunInv(states, actions, i);
    assert TicketOk(states[i], t) && TicketOk(states[i], u);
  }

  /** At most one message is stored per (external_id, backend) at any time; so of two events that stored the same
      message the row of one has been deleted, and while nothing is deleted only one event stores it. */
  lemma AtMostOneMessagePerKey(states: seq<System>, actions: seq<Action>, i: nat, t: nat, u: nat)
    requires IsRun(states, actions) && i < |states| && t < |states[i].tickets| && u < |states[i].tickets|
    requires states[i].tickets[t].event.Message? && states[i].tickets[t].event == states[i].tickets[u].event
    requires states[i].tickets[t].phase == Closed(Stored) && states[i].tickets[u].phase == Closed(Stored)
    ensures
      var s := states[i];
      var e := s.tickets[t].event;
      t == u || Row(e.externalId, e.backend, Some(t)) !in s.rows || Row(e.externalId, e.backend, Some(u)) !in s.rows
    ensures (forall n :: 0 <= n < i ==> !actions[n].Delete?) ==> t == u
  {
    var s := states[i];
    RunInv(states, actions, i);
    assert TicketOk(s, t) && TicketOk(s, u);
    var e := s.tickets[t].event;
    var mine, other := Row(e.externalId, e.backend, Some(t)), Row(e.externalId, e.backend, Some(u));
    if mine in s.rows && other in s.rows {
      var m :| 0 <= m < |s.rows| && s.rows[m] == mine;
      var n :| 0 <= n < |s.rows| && s.rows[n] == other;
    }
    if forall n :: 0 <= n < i ==> !actions[n].Delete? {
      NothingDeleted(states, actions, i);
    }
  }

  lemma {:induction false} NothingDeleted(states: seq<System>, actions: seq<Action>, i: nat)
    requires IsRun(states, actions) && i < |states| && forall n :: 0 <= n < i ==> !actions[n].Delete?
    ensures states[i].rows == states[i].written
  {
    if i > 0 {
      NothingDeleted(states, actions, i - 1);
      assert states[i] == Apply(states[i - 1], actions[i - 1]);
      hide Writes, Enabled;
    }
  }

  /** A message is refused as a duplicate only if that very message was stored before, by another event, or an outbound
      delivery had its key; it counts as stored if and only if its row was written. Status updates are never refused. */
  lemma RefusedOnlyWhenTaken(states: seq<System>, actions: seq<Action>, i: nat, t: nat)
    requires IsRun(states, actions) && i < |states| && t < |states[i].tickets|
    ensures
      var s := states[i];
      var e := s.tickets[t].event;
      && (s.tickets[t].phase == Closed(Duplicate) ==>
            || Row(e.externalId, e.backend, None) in s.written
            || exists u :: 0 <= u < |s.tickets| && u != t && s.tickets[u].event == e
                && s.tickets[u].phase == Closed(Stored))
      && (e.Message? ==>
            (s.tickets[t].phase == Closed(Stored) <==> Row(e.externalId, e.backend, Some(t)) in s.written))
      && (e.StatusUpdate? ==> s.tickets[t].phase != Closed(Duplicate))
  {
    var s := states[i];
    RunInv(states, actions, i);
    assert TicketOk(s, t);
    var e := s.tickets[t].event;
    if s.tickets[t].phase == Closed(Duplicate) {
      var r :| 0 <= r < |s.written| && s.written[r].externalId == e.externalId && s.written[r].backend == e.backend;
      if s.written[r].ticket.Some? {
        var u := s.written[r].ticket.value;
        assert TicketOk(s, u) && s.written[r] == Row(e.externalId, e.backend, Some(u));
      } else {
        assert s.written[r] == Row(e.externalId, e.backend, None);
      }
    }
  }

  // ---- what becomes of an event ----

  predicate HasKey(row: Row, event: Event) {
    row.externalId == event.externalId && row.backend == event.backend
  }

  /** The table holds one row of the event's key, at index `r`. */
  ghost predicate OnlyRow(rows: seq<Row>, event: Event, r: nat) {
    r < |rows| && HasKey(rows[r], event) && forall n :: 0 <= n < |rows| && HasKey(rows[n], event) ==> n == r
  }

  /** A message whose write reaches the database is in the table afterwards, once: as this ticket's row, which closes it
      as stored, exactly if the table had no row of its key; otherwise nothing is written and it is a duplicate. A
      status update is stored. */
  lemma WriteStores(states: seq<System>, actions: seq<Action>, i: nat, t: nat)
    requires IsRun(states, actions) && i < |actions| && actions[i] == End(t, Storage)
    ensures t < |states[i].tickets| == |states[i + 1].tickets|
    ensures
      var rows, rows1 := states[i].rows, states[i + 1].rows;
      var e, phase := states[i].tickets[t].event, states[i + 1].tickets[t].phase;
      && (e.Message? ==>
            && (exists r :: OnlyRow(rows1, e, r))
            && if exists r :: r in rows && HasKey(r, e) then phase == Closed(Duplicate) && rows1 == rows
               else phase == Closed(Stored) && rows1 == rows + [Row(e.externalId, e.backend, Some(t))])
      && (e.StatusUpdate? ==> phase == Closed(Stored) && rows1 == rows)
  {
    RunInv(states, actions, i);
    RunInv(states, actions, i + 1);
    var s, s1, e := states[i], states[i + 1], states[i].tickets[t].event;
    if e.Message? {
      if Indexed(s.rows, e.externalId, e.backend) {
        var r :| 0 <= r < |s.rows| && s.rows[r].externalId == e.externalId && s.rows[r].backend == e.backend;
        assert s.rows[r] in s.rows && HasKey(s.rows[r], e);
        assert OnlyRow(s1.rows, e, r);
      } else {
        assert s1.rows[|s.rows|] == Row(e.externalId, e.backend, Some(t));
        assert OnlyRow(s1.rows, e, |s.rows|);
      }
    }
  }

  /** Nothing else touches the table, but for outbound deliveries that get an external id and deletions. */
  lemma TableChanges(states: seq<System>, actions: seq<Action>, i: nat)
    requires IsRun(states, actions) && i < |actions|
    ensures
      var rows, rows1 := states[i].rows, states[i + 1].rows;
      match actions[i]
      case End(_, Storage) => true
      case AcceptOutbound(externalId, backend) =>
        && rows1 == rows + [Row(externalId, backend, None)]
        && forall r :: r in rows ==> !(r.externalId == externalId && r.backend == backend)
      case Delete(r) => r < |rows| && rows1 == rows[..r] + rows[r + 1..]
      case _ => rows1 == rows
  {
  }

  /** An event that is received waits for its first attempt; a ticket is started as a task of its own unless one is
      booked for the same event and attempt; a storage failure leads to the next attempt, the fourth ends the ticket;
      and nobody touches another's ticket. */
  lemma TicketGoesOn(states: seq<System>, actions: seq<Action>, i: nat, t: nat)
    requires IsRun(states, actions) && i < |actions| && t < |states[i + 1].tickets|
    ensures |states[i + 1].tickets| == |states[i].tickets| + if actions[i].Receive? then 1 else 0
    ensures
      var s, s1, now := states[i], states[i + 1], states[i + 1].tickets[t];
      if t >= |s.tickets| then t == |s.tickets| && actions[i].Receive? && now == Ticket(actions[i].event, 0, Queued)
      else
        var was := s.tickets[t];
        && (now == was || actions[i] == Start(t) || exists meets :: actions[i] == End(t, meets))
        && (actions[i] == Start(t) ==>
              if TaskKey(was.event, was.attempt) in s.tasks
              then now == was.(phase := Closed(Skipped)) && s1.tasks == s.tasks
              else now == was.(phase := Running) && s1.tasks == s.tasks[TaskKey(was.event, was.attempt) := t])
        && (actions[i] == End(t, StorageFailure) ==>
              now == if was.attempt < 3 then Ticket(was.event, was.attempt + 1, Queued)
                     else was.(phase := Closed(GaveUp)))
  {
    hide RowsAfter, Writes, Refused;
    if t < |states[i].tickets| && states[i + 1].tickets[t] != states[i].tickets[t] && actions[i] != Start(t) {
      assert actions[i].End? && actions[i] == End(t, actions[i].meets);
    }
  }

  /** A key is booked from the start of its task until the done callback, which comes only once that task has ended. */
  lemma BookedFromStartToCallback(states: seq<System>, actions: seq<Action>, i: nat, key: TaskKey)
    requires IsRun(states, actions) && i < |actions|
    ensures
      var s, s1 := states[i], states[i + 1];
      && (key in s1.tasks <==>
            || (key in s.tasks && actions[i] != Popped(key))
            || (exists t: nat :: actions[i] == Start(t) && t < |s.tickets|
                  && key == TaskKey(s.tickets[t].event, s.tickets[t].attempt)))
      && (actions[i] == Popped(key) ==>
            forall t :: 0 <= t < |s.tickets| && s.tickets[t].phase.Running? ==>
              key != TaskKey(s.tickets[t].event, s.tickets[t].attempt))
  {
    RunInv(states, actions, i);
    var s := states[i];
    forall t | 0 <= t < |s.tickets| && s.tickets[t].phase.Running? && actions[i] == Popped(key)
      ensures key != TaskKey(s.tickets[t].event, s.tickets[t].attempt)
    {
      assert TicketOk(s, t);
    }
    hide TicketsAfter, RowsAfter, Writes, Inv;
    if actions[i].Start? {
      assert actions[i] == Start(actions[i].t);
    }
  }

  /** What it takes for a ticket to end as it did, at the event that ended it. */
  ghost predicate Explains(s: System, a: Action, t: nat, fate: Fate)
    requires t < |s.tickets|
  {
    var ticket := s.tickets[t];
    var taken := exists r :: r in s.rows && HasKey(r, ticket.event);
    match fate
    case Stored => a == End(t, Storage) && (ticket.event.Message? ==> !taken)
    case Duplicate => a == End(t, Storage) && ticket.event.Message? && taken
    case Dropped => a == End(t, Nothing) || a == End(t, SeenKey)
    case Skipped => a == Start(t) && TaskKey(ticket.event, ticket.attempt) in s.tasks
    case GaveUp => a == End(t, OtherException) || (a == End(t, StorageFailure) && ticket.attempt == 3)
  }

  /** A ticket closes for good, with a fate, exactly at an event that explains that fate. */
  lemma ClosesExactlyWhen(states: seq<System>, actions: seq<Action>, i: nat, t: nat, fate: Fate)
    requires IsRun(states, actions) && i < |actions| && t < |states[i].tickets|
    ensures t < |states[i + 1].tickets|
    ensures states[i + 1].tickets[t].phase == Closed(fate) <==>
              states[i].tickets[t].phase == Closed(fate) || Explains(states[i], actions[i], t, fate)
  {
    var s, a := states[i], actions[i];
    assert Enabled(s, a) && states[i + 1] == Apply(s, a);
    RunInv(states, actions, i);
    assert TicketOk(s, t);
    hide RowsAfter, Writes, TicketOk, IsRun, TasksAfter;
    TakenMeansIndexed(s, s.tickets[t].event);
  }

  lemma TakenMeansIndexed(s: System, event: Event)
    ensures (exists r :: r in s.rows && HasKey(r, event)) <==> Indexed(s.rows, event.externalId, event.backend)
  {
    if Indexed(s.rows, event.externalId, event.backend) {
      var i :| 0 <= i < |s.rows| && s.rows[i].externalId == event.externalId && s.rows[i].backend == event.backend;
      assert HasKey(s.rows[i], event);
    }
    if r :| r in s.rows && HasKey(r, event) {
      var i :| 0 <= i < |s.rows| && s.rows[i] == r;
    }
  }

  /** So every closed ticket of a run was closed by such an event, and a ticket closes only by a write, by finding
      nothing to do, by another exception, by a key already booked, or by its fourth storage failure. */
  lemma {:induction false} ClosedBecause(states: seq<System>, actions: seq<Action>, i: nat, t: nat) returns (j: nat)
    requires IsRun(states, actions) && i < |states| && t < |states[i].tickets| && states[i].tickets[t].phase.Closed?
    ensures j < i && t < |states[j].tickets| && !states[j].tickets[t].phase.Closed?
    ensures Explains(states[j], actions[j], t, states[i].tickets[t].phase.fate)
  {
    hide Explains, Enabled, Apply;
    TicketGoesOn(states, actions, i - 1, t);
    if t < |states[i - 1].tickets| && states[i - 1].tickets[t].phase.Closed? {
      j := ClosedBecause(states, actions, i - 1, t);
      ClosesExactlyWhen(states, actions, i - 1, t, states[i - 1].tickets[t].phase.fate);
    } else {
      j := i - 1;
      ClosesExactlyWhen(states, actions, i - 1, t, states[i].tickets[t].phase.fate);
    }
  }
}
