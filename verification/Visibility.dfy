/**
  Who is told of a message and who may list it: the two notifiers, the visibility filter of the message queries,
  and every history of one message.
 */
module Visibility {
  import opened Options
  import opened Lifecycle

  /** A room member; an external one has an identity instead of a Wazo user. */
  datatype Participant = Participant(uuid: string, identity: Option<string>)

  /** `meta` is absent for an internal message, otherwise the record statuses of each delivery, oldest first. */
  datatype Message = Message(sender: string, meta: Option<seq<seq<Status>>>)

  /** `_filter_visible_messages` for one message. */
  predicate Visible(m: Message, viewer: string) {
    || viewer == m.sender
    || m.meta.None?
    || exists d :: 0 <= d < |m.meta.value| && Delivered in m.meta.value[d]
  }

  predicate LatestIs(records: seq<Status>, status: Status) {
    records != [] && records[|records| - 1] == status
  }

  datatype Selection = Everyone | Internal | InternalSender(sender: string) | InternalOthers(sender: string)

  predicate Chosen(p: Participant, which: Selection) {
    match which
    case Everyone => true
    case Internal => p.identity.None?
    case InternalSender(sender) => p.identity.None? && p.uuid == sender
    case InternalOthers(sender) => p.identity.None? && p.uuid != sender
  }

  /** The members chosen, in room order. */
  function Select(room: seq<Participant>, which: Selection): seq<string> {
    if room == [] then []
    else Select(room[..|room| - 1], which) + if Chosen(room[|room| - 1], which) then [room[|room| - 1].uuid] else []
  }

  /** `RoomNotifier.message_created`. */
  function CreationSelection(m: Message): Selection {
    if m.meta.Some? && !exists d :: 0 <= d < |m.meta.value| && LatestIs(m.meta.value[d], Delivered)
    then InternalSender(m.sender)
    else Internal
  }

  /** The bus, as the list of users that were sent the message's created event. */
  class Notifiers {
    var published: seq<string>

    constructor ()
      ensures published == []
    {
      published := [];
    }

    method PublishTo(room: seq<Participant>, which: Selection)
      modifies this
      ensures published == old(published) + Select(room, which)
    {
      for i := 0 to |room|
        invariant published == old(published) + Select(room[..i], which)
      {
        assert room[..i + 1][..i] == room[..i];
        if Chosen(room[i], which) {
          published := published + [room[i].uuid];
        }
      }
      assert room[..|room|] == room;
    }

    /** The synchronous notifier, for internal and outbound messages. */
    method RoomMessageCreated(room: seq<Participant>, m: Message)
      modifies this
      ensures published == old(published) + Select(room, CreationSelection(m))
    {
      var recipients := Internal;
      if m.meta.Some? {
        var delivered := false;
        for d := 0 to |m.meta.value|
          invariant delivered <==> exists e :: 0 <= e < d && LatestIs(m.meta.value[e], Delivered)
        {
          if LatestIs(m.meta.value[d], Delivered) {
            delivered := true;
          }
        }
        if !delivered {
          recipients := InternalSender(m.sender);
        }
      }
      PublishTo(room, recipients);
    }

    /** The asynchronous notifier, for inbound messages. */
    method AsyncMessageCreated(room: seq<Participant>)
      modifies this
      ensures published == old(published) + Select(room, Everyone)
    {
      PublishTo(room, Everyone);
    }

    method DeliveryStatusUpdated(room: seq<Participant>, m: Message, status: Status)
      modifies this
      ensures published == old(published) + if status == Delivered then Select(room, InternalOthers(m.sender)) else []
    {
      if status == Delivered {
        PublishTo(room, InternalOthers(m.sender));
      }
    }
  }

  // ---- histories of one message ----

  datatype State = State(message: Message, published: seq<string>)

  datatype Origin = InternalMessage | OutboundMessage(deliveries: nat) | InboundMessage

  datatype Event =
    | Write(d: nat, status: Status)   // a send attempt's record
    | Update(d: nat, status: Status)  // a backend update or an echo, ignored once delivered

  function Created(room: seq<Participant>, sender: string, origin: Origin): State {
    match origin
    case InternalMessage => var m := Message(sender, None); State(m, Select(room, CreationSelection(m)))
    case OutboundMessage(n) =>
      var m := Message(sender, Some(seq(n, _ => [Pending])));
      State(m, Select(room, CreationSelection(m)))
    case InboundMessage => State(Message(sender, Some([[Delivered]])), Select(room, Everyone))
  }

  function AddRecord(room: seq<Participant>, s: State, d: nat, status: Status): State
    requires s.message.meta.Some? && d < |s.message.meta.value|
  {
    var deliveries := s.message.meta.value;
    State(s.message.(meta := Some(deliveries[d := deliveries[d] + [status]])),
          s.published + if status == Delivered then Select(room, InternalOthers(s.message.sender)) else [])
  }

  function Apply(room: seq<Participant>, s: State, e: Event): State {
    if s.message.meta.None? || e.d >= |s.message.meta.value| then s
    else if e.Update? && LatestIs(s.message.meta.value[e.d], Delivered) then s
    else AddRecord(room, s, e.d, e.status)
  }

  function Play(room: seq<Participant>, sender: string, origin: Origin, events: seq<Event>): State
    decreases |events|
  {
    if events == [] then Created(room, sender, origin)
    else Apply(room, Play(room, sender, origin, events[..|events| - 1]), events[|events| - 1])
  }

  lemma {:induction false} SelectMembers(room: seq<Participant>, which: Selection, uuid: string)
    ensures uuid in Select(room, which) <==>
        exists i :: 0 <= i < |room| && room[i].uuid == uuid && Chosen(room[i], which)
  {
    if room != [] {
      var before := room[..|room| - 1];
      SelectMembers(before, which, uuid);
      assert forall i :: 0 <= i < |before| ==> before[i] == room[i];
    }
  }

  lemma DeliveredGrows(m: Message, d: nat, status: Status, viewer: string)
    requires m.meta.Some? && d < |m.meta.value|
    ensures
      var m1 := m.(meta := Some(m.meta.value[d := m.meta.value[d] + [status]]));
      Visible(m1, viewer) <==> Visible(m, viewer) || status == Delivered
  {
    var m1 := m.(meta := Some(m.meta.value[d := m.meta.value[d] + [status]]));
    assert m1.meta.value[d][|m.meta.value[d]|] == status;
    if exists e :: 0 <= e < |m.meta.value| && Delivered in m.meta.value[e] {
      var e :| 0 <= e < |m.meta.value| && Delivered in m.meta.value[e];
      assert Delivered in m1.meta.value[e];
    }
    if exists e :: 0 <= e < |m1.meta.value| && Delivered in m1.meta.value[e] {
      var e :| 0 <= e < |m1.meta.value| && Delivered in m1.meta.value[e];
      assert e != d ==> Delivered in m.meta.value[e];
    }
  }

  /** Notified equals visible: in every history of an internal, outbound or inbound message the internal members
      who were sent its created event are exactly those who may list it. */
  lemma {:induction false} NotifiedIffVisible(
    room: seq<Participant>, sender: string, origin: Origin, events: seq<Event>, i: nat)
    requires i < |room| && room[i].identity.None?
    ensures
      var s := Play(room, sender, origin, events);
      s.message.sender == sender && (room[i].uuid in s.published <==> Visible(s.message, room[i].uuid))
    decreases |events|
  {
    var uuid := room[i].uuid;
    if events == [] {
      var s := Created(room, sender, origin);
      SelectMembers(room, if origin.InboundMessage? then Everyone else CreationSelection(s.message), uuid);
      if origin.InboundMessage? {
        assert Delivered in s.message.meta.value[0];
      }
    } else {
      var before, e := Play(room, sender, origin, events[..|events| - 1]), events[|events| - 1];
      NotifiedIffVisible(room, sender, origin, events[..|events| - 1], i);
      SelectMembers(room, InternalOthers(sender), uuid);
      if before.message.meta.Some? && e.d < |before.message.meta.value| {
        DeliveredGrows(before.message, e.d, e.status, uuid);
      }
    }
  }

  /** Some event reported one of the message's deliveries as delivered. */
  ghost predicate ReportedDelivered(origin: Origin, events: seq<Event>) {
    origin.OutboundMessage? &&
    exists k :: 0 <= k < |events| && events[k].status == Delivered && events[k].d < origin.deliveries
  }

  ghost predicate HasDelivered(m: Message) {
    m.meta.Some? && exists d :: 0 <= d < |m.meta.value| && Delivered in m.meta.value[d]
  }

  lemma {:induction false} DeliveredAsReported(
    room: seq<Participant>, sender: string, n: nat, events: seq<Event>)
    ensures
      var m := Play(room, sender, OutboundMessage(n), events).message;
      && m.sender == sender && m.meta.Some? && |m.meta.value| == n
      && (HasDelivered(m) <==> ReportedDelivered(OutboundMessage(n), events))
    decreases |events|
  {
    if events != [] {
      var before, e := events[..|events| - 1], events[|events| - 1];
      DeliveredAsReported(room, sender, n, before);
      var s := Play(room, sender, OutboundMessage(n), before);
      assert events == before + [e];
      assert ReportedDelivered(OutboundMessage(n), events) <==>
               ReportedDelivered(OutboundMessage(n), before) || (e.status == Delivered && e.d < n) by {
        ReportedStep(OutboundMessage(n), before, e);
      }
      hide ReportedDelivered;
      if e.d < n {
        RecordAdded(s.message, e.d, e.status);
        if LatestIs(s.message.meta.value[e.d], Delivered) {
          assert HasDelivered(s.message);
        }
      }
    }
  }

  lemma ReportedStep(origin: Origin, before: seq<Event>, e: Event)
    requires origin.OutboundMessage?
    ensures ReportedDelivered(origin, before + [e]) <==>
              ReportedDelivered(origin, before) || (e.status == Delivered && e.d < origin.deliveries)
  {
    var events := before + [e];
    if k :| 0 <= k < |before| && before[k].status == Delivered && before[k].d < origin.deliveries {
      assert events[k] == before[k];
    }
    assert events[|before|] == e;
  }

  lemma RecordAdded(m: Message, d: nat, status: Status)
    requires m.meta.Some? && d < |m.meta.value|
    ensures
      var m1 := m.(meta := Some(m.meta.value[d := m.meta.value[d] + [status]]));
      HasDelivered(m1) <==> HasDelivered(m) || status == Delivered
  {
    var m1 := m.(meta := Some(m.meta.value[d := m.meta.value[d] + [status]]));
    assert m1.meta.value[d][|m.meta.value[d]|] == status;
    if e :| 0 <= e < |m.meta.value| && Delivered in m.meta.value[e] {
      assert Delivered in m1.meta.value[e];
    }
    if e :| 0 <= e < |m1.meta.value| && Delivered in m1.meta.value[e] {
      assert e != d ==> Delivered in m.meta.value[e];
    }
  }

  /** Who is sent a message and may list it: every internal member, if it is an internal or an inbound message; of an
      outbound one its sender at once, and the others exactly when some delivery has been reported as delivered. */
  lemma InternalMembersTold(room: seq<Participant>, sender: string, origin: Origin, events: seq<Event>, i: nat)
    requires i < |room| && room[i].identity.None?
    ensures
      var s := Play(room, sender, origin, events);
      var told := origin.InternalMessage? || origin.InboundMessage? || room[i].uuid == sender
                  || ReportedDelivered(origin, events);
      (room[i].uuid in s.published <==> told) && (Visible(s.message, room[i].uuid) <==> told)
  {
    NotifiedIffVisible(room, sender, origin, events, i);
    match origin
    case OutboundMessage(n) =>
      DeliveredAsReported(room, sender, n, events);
    case _ =>
      CreatedVisible(room, sender, origin, events, room[i].uuid);
  }

  lemma {:induction false} CreatedVisible(
    room: seq<Participant>, sender: string, origin: Origin, events: seq<Event>, viewer: string)
    requires !origin.OutboundMessage?
    ensures Visible(Play(room, sender, origin, events).message, viewer)
    decreases |events|
  {
    if events == [] {
      if origin.InboundMessage? {
        assert Delivered in Created(room, sender, origin).message.meta.value[0];
      }
    } else {
      CreatedVisible(room, sender, origin, events[..|events| - 1], viewer);
      var before, e := events[..|events| - 1], events[|events| - 1];
      assert events == before + [e];
      NotifiedAndVisibleGrow(room, sender, origin, before, e, viewer);
    }
  }

  /** An external member is sent inbound messages only. */
  lemma {:induction false} ExternalMembersTold(
    room: seq<Participant>, sender: string, origin: Origin, events: seq<Event>, i: nat)
    requires DistinctUuids(room) && i < |room| && room[i].identity.Some?
    ensures
      var s := Play(room, sender, origin, events);
      s.message.sender == sender && (room[i].uuid in s.published <==> origin.InboundMessage?)
    decreases |events|
  {
    if events == [] {
      var s := Created(room, sender, origin);
      SelectMembers(room, if origin.InboundMessage? then Everyone else CreationSelection(s.message), room[i].uuid);
    } else {
      ExternalMembersTold(room, sender, origin, events[..|events| - 1], i);
      SelectMembers(room, InternalOthers(sender), room[i].uuid);
    }
  }

  /** Nobody is ever un-notified and nothing visible is ever hidden again. */
  lemma NotifiedAndVisibleGrow(
    room: seq<Participant>, sender: string, origin: Origin, events: seq<Event>, e: Event, viewer: string)
    ensures
      var s, s1 := Play(room, sender, origin, events), Play(room, sender, origin, events + [e]);
      s.published <= s1.published && (Visible(s.message, viewer) ==> Visible(s1.message, viewer))
  {
    assert (events + [e])[..|events|] == events;
    var s := Play(room, sender, origin, events);
    if s.message.meta.Some? && e.d < |s.message.meta.value| {
      DeliveredGrows(s.message, e.d, e.status, viewer);
    }
  }

  // ---- how often ----

  ghost predicate DistinctUuids(room: seq<Participant>) {
    forall i, j :: 0 <= i < j < |room| ==> room[i].uuid != room[j].uuid
  }

  /** How often `x` occurs in `xs`. */
  function Times<T(==)>(xs: seq<T>, x: T): nat {
    if xs == [] then 0 else Times(xs[..|xs| - 1], x) + if xs[|xs| - 1] == x then 1 else 0
  }

  lemma {:induction false} TimesAppend<T>(xs: seq<T>, ys: seq<T>, x: T)
    ensures Times(xs + ys, x) == Times(xs, x) + Times(ys, x)
  {
    if ys == [] {
      assert xs + ys == xs;
    } else {
      assert (xs + ys)[..|xs + ys| - 1] == xs + ys[..|ys| - 1];
      TimesAppend(xs, ys[..|ys| - 1], x);
    }
  }

  lemma {:induction false} SelectTimes(room: seq<Participant>, which: Selection, uuid: string)
    requires DistinctUuids(room)
    ensures Times(Select(room, which), uuid) ==
            if exists i :: 0 <= i < |room| && room[i].uuid == uuid && Chosen(room[i], which) then 1 else 0
  {
    if room != [] {
      var before, last := room[..|room| - 1], room[|room| - 1];
      SelectTimes(before, which, uuid);
      TimesAppend(Select(before, which), if Chosen(last, which) then [last.uuid] else [], uuid);
      assert forall i :: 0 <= i < |before| ==> before[i] == room[i];
      assert Times([last.uuid], uuid) == if last.uuid == uuid then 1 else 0;
    }
  }

  /** The DELIVERED records written by a history. */
  function DeliveredCount(deliveries: seq<seq<Status>>): nat {
    if deliveries == [] then 0
    else DeliveredCount(deliveries[..|deliveries| - 1]) + Times(deliveries[|deliveries| - 1], Delivered)
  }

  lemma {:induction false} DeliveredCountAppend(deliveries: seq<seq<Status>>, d: nat, status: Status)
    requires d < |deliveries|
    ensures DeliveredCount(deliveries[d := deliveries[d] + [status]]) ==
            DeliveredCount(deliveries) + if status == Delivered then 1 else 0
  {
    var n := |deliveries| - 1;
    var after := deliveries[d := deliveries[d] + [status]];
    if d == n {
      assert after[..n] == deliveries[..n];
      TimesAppend(deliveries[n], [status], Delivered);
    } else {
      assert after[..n] == deliveries[..n][d := deliveries[..n][d] + [status]];
      DeliveredCountAppend(deliveries[..n], d, status);
    }
  }

  lemma {:induction false} NoneDelivered(n: nat)
    ensures DeliveredCount(seq(n, _ => [Pending])) == 0
  {
    if n > 0 {
      NoneDelivered(n - 1);
      assert seq(n, _ => [Pending])[..n - 1] == seq(n - 1, _ => [Pending]);
    }
  }

  /** An outbound message reaches its sender's event stream once, and every other internal member's once for each
      DELIVERED record. */
  lemma {:induction false} OutboundEventCount(
    room: seq<Participant>, sender: string, n: nat, events: seq<Event>, i: nat)
    requires DistinctUuids(room) && i < |room| && room[i].identity.None?
    ensures
      var s := Play(room, sender, OutboundMessage(n), events);
      && s.message.sender == sender && s.message.meta.Some?
      && Times(s.published, room[i].uuid) ==
           if room[i].uuid == sender then 1 else DeliveredCount(s.message.meta.value)
    decreases |events|
  {
    var uuid := room[i].uuid;
    if events == [] {
      NoneDelivered(n);
      SelectTimes(room, InternalSender(sender), uuid);
    } else {
      OutboundEventCount(room, sender, n, events[..|events| - 1], i);
      var before, e := Play(room, sender, OutboundMessage(n), events[..|events| - 1]), events[|events| - 1];
      if e.d < |before.message.meta.value| {
        AddRecordCounts(room, before, e.d, e.status, i);
      }
    }
  }

  lemma AddRecordCounts(room: seq<Participant>, s: State, d: nat, status: Status, i: nat)
    requires DistinctUuids(room) && i < |room| && room[i].identity.None?
    requires s.message.meta.Some? && d < |s.message.meta.value|
    ensures
      var s1 := AddRecord(room, s, d, status);
      var added := if status == Delivered then 1 else 0;
      && DeliveredCount(s1.message.meta.value) == DeliveredCount(s.message.meta.value) + added
      && Times(s1.published, room[i].uuid) ==
           Times(s.published, room[i].uuid) + if room[i].uuid == s.message.sender then 0 else added
  {
    DeliveredCountAppend(s.message.meta.value, d, status);
    SelectTimes(room, InternalOthers(s.message.sender), room[i].uuid);
    var sent := if status == Delivered then Select(room, InternalOthers(s.message.sender)) else [];
    TimesAppend(s.published, sent, room[i].uuid);
  }
}
