/**
  The outbound retry machine of the executor on one delivery row. A step is one committed transaction; a
  transaction that is rolled back changes nothing.
 */
module OutboundRetry {
  import opened Options
  import opened Lifecycle

  /** Why a record was written; only the reasons that tell two writers of one status apart are kept. */
  datatype Reason = NoReason | SendFailure | MaxRetries | NoSender | NoBackend

  datatype Record = Record(status: Status, reason: Reason)

  datatype Delivery = Delivery(retryCount: nat, records: seq<Record>, externalId: Option<string>)

  /** What an attempt of `route_outbound_delivery` meets, the network included. */
  datatype Attempt =
    | RowUnavailable                    // locked by another transaction, or deleted
    | RoomGone
    | NoSenderIdentity
    | AuthUnavailable
    | BackendUnavailable
    | SendAccepted(externalId: string)
    | RateLimited(retryAfter: real)
    | SendError

  const OUTBOUND_RETRY_DELAYS: seq<real> := [30.0, 120.0, 300.0]
  const OUTBOUND_MAX_RETRIES: nat := |OUTBOUND_RETRY_DELAYS|
  const MAX_RETRY_AFTER: real := 3600.0

  function RetryDelay(retryCount: int): real {
    var last := |OUTBOUND_RETRY_DELAYS| - 1;
    var bounded := if retryCount - 1 <= last then retryCount - 1 else last;
    OUTBOUND_RETRY_DELAYS[if bounded >= 0 then bounded else 0]
  }

  function Persist(d: Delivery, status: Status, reason: Reason): Delivery {
    d.(records := d.records + [Record(status, reason)])
  }

  function RecordFailure(d: Delivery, retryAfter: Option<real>): (Delivery, Option<real>) {
    var d1 := d.(retryCount := d.retryCount + 1);
    if d1.retryCount > OUTBOUND_MAX_RETRIES then (Persist(d1, DeadLetter, MaxRetries), None)
    else (Persist(d1, Retrying, SendFailure),
          Some(match retryAfter
               case Some(seconds) => if seconds <= MAX_RETRY_AFTER then seconds else MAX_RETRY_AFTER
               case None => RetryDelay(d1.retryCount)))
  }

  /** `route_outbound_delivery`. It does not look at the current status. */
  function Route(d: Delivery, attempt: Attempt): (Delivery, Option<real>) {
    match attempt
    case RowUnavailable => (d, None)
    case RoomGone => (d, None)
    case NoSenderIdentity => (Persist(d, DeadLetter, NoSender), None)
    case AuthUnavailable => RecordFailure(d, None)
    case BackendUnavailable => (Persist(d, DeadLetter, NoBackend), None)
    case SendAccepted(externalId) => (Persist(d.(externalId := Some(externalId)), Accepted, NoReason), None)
    case RateLimited(retryAfter) => RecordFailure(d, Some(retryAfter))
    case SendError => RecordFailure(d, None)
  }

  function Latest(d: Delivery): Option<Status> {
    if d.records == [] then None else Some(d.records[|d.records| - 1].status)
  }

  /** A mapped status update from the backend, or (with DELIVERED) the echo of the message coming back. */
  function Update(d: Delivery, status: Status): Delivery {
    if Latest(d) == Some(Delivered) then d else Persist(d, status, NoReason)
  }

  /** What the recovery scan re-enqueues the delivery with. */
  function RecoveryDelay(d: Delivery): Option<real> {
    if Latest(d) == Some(Retrying) then Some(RetryDelay(d.retryCount))
    else if Latest(d) == Some(Pending) then Some(0.0)
    else None
  }

  /** A delivery as `prepare_pending_delivery` writes it. */
  const Fresh := Delivery(0, [Record(Pending, NoReason)], None)

  /** The delivery row as the executor updates it in place. */
  class MessageDelivery {
    var retryCount: nat
    var records: seq<Record>
    var externalId: Option<string>

    ghost function View(): Delivery
      reads this
    {
      Delivery(retryCount, records, externalId)
    }

    constructor ()
      ensures View() == Fresh
    {
      retryCount, records, externalId := 0, [Record(Pending, NoReason)], None;
    }

    method PersistStatus(status: Status, reason: Reason, newExternalId: Option<string>)
      modifies this
      ensures View() ==
              Persist(old(View()).(externalId := if newExternalId.Some? then newExternalId else old(externalId)),
                  status, reason)
    {
      if newExternalId.Some? {
        externalId := newExternalId;
      }
      records := records + [Record(status, reason)];
    }

    method RecordSendFailure(retryAfter: Option<real>) returns (delay: Option<real>)
      modifies this
      ensures (View(), delay) == RecordFailure(old(View()), retryAfter)
    {
      retryCount := retryCount + 1;
      if retryCount > OUTBOUND_MAX_RETRIES {
        PersistStatus(DeadLetter, MaxRetries, None);
        return None;
      }
      PersistStatus(Retrying, SendFailure, None);
      if retryAfter.Some? {
        return Some(if retryAfter.value <= MAX_RETRY_AFTER then retryAfter.value else MAX_RETRY_AFTER);
      }
      delay := Some(RetryDelay(retryCount));
    }

    method RouteOutbound(attempt: Attempt) returns (delay: Option<real>)
      modifies this
      ensures (View(), delay) == Route(old(View()), attempt)
    {
      delay := None;
      match attempt
      case RowUnavailable =>
      case RoomGone =>
      case NoSenderIdentity => PersistStatus(DeadLetter, NoSender, None);
      case AuthUnavailable => delay := RecordSendFailure(None);
      case BackendUnavailable => PersistStatus(DeadLetter, NoBackend, None);
      case SendAccepted(id) => PersistStatus(Accepted, NoReason, Some(id));
      case RateLimited(retryAfter) => delay := RecordSendFailure(Some(retryAfter));
      case SendError => delay := RecordSendFailure(None);
    }

    method ApplyUpdate(status: Status)
      modifies this
      ensures View() == Update(old(View()), status)
    {
      if records != [] && records[|records| - 1].status == Delivered {
        return;
      }
      PersistStatus(status, NoReason, None);
    }
  }

  // ---- every committed state ----

  datatype Event = Attempted(attempt: Attempt) | Updated(status: Status)

  function Step(d: Delivery, e: Event): Delivery {
    match e
    case Attempted(attempt) => Route(d, attempt).0
    case Updated(status) => Update(d, status)
  }

  function Play(events: seq<Event>): Delivery {
    if events == [] then Fresh else Step(Play(events[..|events| - 1]), events[|events| - 1])
  }

  /** The backends report only the statuses documented for them. */
  ghost predicate Legal(events: seq<Event>) {
    forall e :: e in events && e.Updated? ==> BackendStatus(e.status)
  }

  function Count(records: seq<Record>, status: Status, reason: Reason): nat {
    if records == [] then 0
    else Count(records[..|records| - 1], status, reason)
         + if records[|records| - 1] == Record(status, reason) then 1 else 0
  }

  function CountStatus(records: seq<Record>, status: Status): nat {
    if records == [] then 0
    else CountStatus(records[..|records| - 1], status) + if records[|records| - 1].status == status then 1 else 0
  }

  lemma CountAppend(records: seq<Record>, r: Record, status: Status, reason: Reason)
    ensures Count(records + [r], status, reason) ==
            Count(records, status, reason) + if r == Record(status, reason) then 1 else 0
    ensures CountStatus(records + [r], status) == CountStatus(records, status) + if r.status == status then 1 else 0
  {
    assert (records + [r])[..|records|] == records;
  }

  ghost predicate Booked(d: Delivery) {
    var retries := CountStatus(d.records, Retrying);
    && d.records != []
    && d.retryCount == retries + Count(d.records, DeadLetter, MaxRetries)
    && retries == (if d.retryCount <= OUTBOUND_MAX_RETRIES then d.retryCount else OUTBOUND_MAX_RETRIES)
  }

  lemma StepKeepsBooks(d: Delivery, e: Event)
    requires Booked(d) && (e.Updated? ==> BackendStatus(e.status))
    ensures Booked(Step(d, e))
  {
    hide Count, CountStatus;
    var d1 := Step(d, e);
    if d1.records != d.records {
      var r := d1.records[|d.records|];
      CountAppend(d.records, r, Retrying, NoReason);
      CountAppend(d.records, r, DeadLetter, MaxRetries);
    }
  }

  /** In every committed state the retry count is the number of RETRYING records plus the number of max-retries
      DEAD_LETTER records, and there are never more than three RETRYING records. */
  lemma {:induction false} RetryCountCounts(events: seq<Event>)
    requires Legal(events)
    ensures
      var d := Play(events);
      && d.retryCount == CountStatus(d.records, Retrying) + Count(d.records, DeadLetter, MaxRetries)
      && CountStatus(d.records, Retrying) <= OUTBOUND_MAX_RETRIES
      && Booked(d)
  {
    if events != [] {
      var before := events[..|events| - 1];
      RetryCountCounts(before);
      StepKeepsBooks(Play(before), events[|events| - 1]);
    } else {
      assert Fresh.records[..0] == [];
    }
  }

  /** How many of the committed attempts asked to be tried again. */
  function DelaysGiven(events: seq<Event>): nat {
    if events == [] then 0 else
    var before, last := events[..|events| - 1], events[|events| - 1];
    DelaysGiven(before) + if last.Attempted? && Route(Play(before), last.attempt).1.Some? then 1 else 0
  }

  /** Whatever duplicates, updates of any status and re-enqueueing happen, at most three attempts in the life of a
      delivery ask to be tried again: as many as the retry count says, up to three. */
  lemma {:induction false} AtMostThreeDelays(events: seq<Event>)
    ensures
      var count := Play(events).retryCount;
      && DelaysGiven(events) == (if count <= OUTBOUND_MAX_RETRIES then count else OUTBOUND_MAX_RETRIES)
      && DelaysGiven(events) <= 3
  {
    if events != [] {
      AtMostThreeDelays(events[..|events| - 1]);
    }
  }

  /** With the statuses documented for backends, each of them left one RETRYING record, and nothing else did. */
  lemma {:induction false} OneRecordPerDelay(events: seq<Event>)
    requires Legal(events)
    ensures DelaysGiven(events) == CountStatus(Play(events).records, Retrying)
  {
    if events != [] {
      OneRecordPerDelay(events[..|events| - 1]);
      DelayWritesRetrying(Play(events[..|events| - 1]), events[|events| - 1]);
    } else {
      assert Fresh.records[..0] == [];
    }
  }

  lemma DelayWritesRetrying(d: Delivery, e: Event)
    requires e.Updated? ==> BackendStatus(e.status)
    ensures CountStatus(Step(d, e).records, Retrying) ==
            CountStatus(d.records, Retrying) + if e.Attempted? && Route(d, e.attempt).1.Some? then 1 else 0
  {
    hide CountStatus;
    if Step(d, e).records != d.records {
      CountAppend(d.records, Step(d, e).records[|d.records|], Retrying, NoReason);
    }
  }

  // ---- one delivery driven by its delays ----

  /** Backend updates that commit while the delay runs, then the next attempt. */
  datatype Round = Round(updates: seq<Status>, attempt: Attempt)

  function UpdateAll(d: Delivery, updates: seq<Status>): Delivery
    decreases |updates|
  {
    if updates == [] then d else UpdateAll(Update(d, updates[0]), updates[1..])
  }

  datatype Driven = Driven(delivery: Delivery, attempts: nat, last: Option<Attempt>, waiting: bool)

  /** Attempts the delivery until an attempt returns no delay or the rounds run out. */
  function Drive(d: Delivery, rounds: seq<Round>): Driven
    decreases |rounds|
  {
    if rounds == [] then Driven(d, 0, None, true) else
    var (d1, delay) := Route(UpdateAll(d, rounds[0].updates), rounds[0].attempt);
    if delay.None? then Driven(d1, 1, Some(rounds[0].attempt), false) else
    var rest := Drive(d1, rounds[1..]);
    rest.(attempts := rest.attempts + 1, last := if rest.last.None? then Some(rounds[0].attempt) else rest.last)
  }

  lemma UpdatesKeepCount(d: Delivery, updates: seq<Status>)
    ensures UpdateAll(d, updates).retryCount == d.retryCount
    decreases |updates|
  {
    if updates != [] { UpdatesKeepCount(Update(d, updates[0]), updates[1..]); }
  }

  /** The row or the room was gone. */
  predicate FoundNothing(attempt: Attempt) { attempt.RowUnavailable? || attempt.RoomGone? }

  /** The attempt failed in a way that may pass. */
  predicate FailedForNow(attempt: Attempt) { attempt.AuthUnavailable? || attempt.RateLimited? || attempt.SendError? }

  /** Which end is reached: accepted, under the id the provider gave, exactly if the provider took the message, dead
      letter exactly if there was no sender identity, no backend, or one failure too many, and otherwise whatever it
      was, because the last attempt found nothing. */
  lemma {:induction false} DriveEnds(d: Delivery, rounds: seq<Round>)
    requires d.retryCount <= OUTBOUND_MAX_RETRIES && |rounds| >= 4 - d.retryCount
    ensures
      var end := Drive(d, rounds);
      && !end.waiting && 1 <= end.attempts <= 4 - d.retryCount && end.last.Some?
      && var last := end.last.value;
      !FoundNothing(last) ==>
        && Latest(end.delivery) in {Some(Accepted), Some(DeadLetter)}
        && (Latest(end.delivery) == Some(Accepted) <==> last.SendAccepted?)
        && (last.SendAccepted? ==> end.delivery.externalId == Some(last.externalId))
        && (Latest(end.delivery) == Some(DeadLetter) <==>
              last.NoSenderIdentity? || last.BackendUnavailable?
              || (FailedForNow(last) && end.attempts == 4 - d.retryCount))
    decreases |rounds|
  {
    UpdatesKeepCount(d, rounds[0].updates);
    var (d1, delay) := Route(UpdateAll(d, rounds[0].updates), rounds[0].attempt);
    if delay.Some? {
      DriveEnds(d1, rounds[1..]);
    }
  }

  /** Before it every attempt failed. */
  lemma {:induction false} EveryRoundButTheLastFails(d: Delivery, rounds: seq<Round>)
    requires d.retryCount <= OUTBOUND_MAX_RETRIES && |rounds| >= 4 - d.retryCount
    ensures
      var end := Drive(d, rounds);
      && 1 <= end.attempts <= |rounds| && end.last == Some(rounds[end.attempts - 1].attempt)
      && forall i :: 0 <= i < end.attempts - 1 ==> FailedForNow(rounds[i].attempt)
    decreases |rounds|
  {
    UpdatesKeepCount(d, rounds[0].updates);
    var (d1, delay) := Route(UpdateAll(d, rounds[0].updates), rounds[0].attempt);
    if delay.Some? {
      EveryRoundButTheLastFails(d1, rounds[1..]);
      forall i | 0 <= i < Drive(d, rounds).attempts - 1 ensures FailedForNow(rounds[i].attempt) {
        if i > 0 { assert rounds[i] == rounds[1..][i - 1]; }
      }
    }
  }

  /** And left one RETRYING record, which nothing else does if the backend reports documented statuses. */
  lemma {:induction false} EveryRoundButTheLastRetries(d: Delivery, rounds: seq<Round>)
    requires d.retryCount <= OUTBOUND_MAX_RETRIES && |rounds| >= 4 - d.retryCount
    requires forall r, s :: r in rounds && s in r.updates ==> BackendStatus(s)
    ensures
      var end := Drive(d, rounds);
      CountStatus(end.delivery.records, Retrying) == CountStatus(d.records, Retrying) + end.attempts - 1
    decreases |rounds|
  {
    hide CountStatus;
    var d0 := UpdateAll(d, rounds[0].updates);
    UpdatesKeepCount(d, rounds[0].updates);
    assert rounds[0] in rounds;
    UpdatesDoNotRetry(d, rounds[0].updates);
    DelayWritesRetrying(d0, Attempted(rounds[0].attempt));
    if Route(d0, rounds[0].attempt).1.Some? {
      EveryRoundButTheLastRetries(Route(d0, rounds[0].attempt).0, rounds[1..]);
    }
  }

  lemma {:induction false} UpdatesDoNotRetry(d: Delivery, updates: seq<Status>)
    requires forall s :: s in updates ==> BackendStatus(s)
    ensures CountStatus(UpdateAll(d, updates).records, Retrying) == CountStatus(d.records, Retrying)
    decreases |updates|
  {
    hide CountStatus;
    if updates != [] {
      assert updates[0] in updates;
      DelayWritesRetrying(d, Updated(updates[0]));
      UpdatesDoNotRetry(Update(d, updates[0]), updates[1..]);
    }
  }

  /** A fresh delivery is attempted at most four times. Unless its last attempt found the row or the room gone, it ends
      accepted, with the id the provider gave, exactly if that attempt was accepted, and dead-lettered exactly if that
      attempt had no sender identity or no backend, or was the fourth and failed; whatever the backend reports in
      between. With documented reports it then has as many RETRYING records as attempts went before the last, so the
      fourth failure is one after three of them. */
  lemma FreshDeliveryEnds(rounds: seq<Round>)
    requires |rounds| >= 4
    ensures
      var end := Drive(Fresh, rounds);
      && !end.waiting && 1 <= end.attempts <= 4 && end.last == Some(rounds[end.attempts - 1].attempt)
      && (var last, status := end.last.value, Latest(end.delivery);
          !FoundNothing(last) ==>
            && status in {Some(Accepted), Some(DeadLetter)}
            && (status == Some(Accepted) <==> last.SendAccepted?)
            && (last.SendAccepted? ==> end.delivery.externalId == Some(last.externalId))
            && (status == Some(DeadLetter) <==>
                  last.NoSenderIdentity? || last.BackendUnavailable? || (FailedForNow(last) && end.attempts == 4)))
      && ((forall r, s :: r in rounds && s in r.updates ==> BackendStatus(s)) ==>
            CountStatus(end.delivery.records, Retrying) == end.attempts - 1)
  {
    DriveEnds(Fresh, rounds);
    EveryRoundButTheLastFails(Fresh, rounds);
    if forall r, s :: r in rounds && s in r.updates ==> BackendStatus(s) {
      EveryRoundButTheLastRetries(Fresh, rounds);
      assert Fresh.records[..0] == [];
    }
  }

  /** The external id is the one of the last send that was accepted. */
  lemma {:induction false} ExternalIdOfLastAccepted(events: seq<Event>, i: nat)
    requires i < |events| && events[i].Attempted? && events[i].attempt.SendAccepted?
    requires forall j :: i < j < |events| ==> !(events[j].Attempted? && events[j].attempt.SendAccepted?)
    ensures Play(events).externalId == Some(events[i].attempt.externalId)
    decreases |events|
  {
    if i < |events| - 1 {
      ExternalIdOfLastAccepted(events[..|events| - 1], i);
    }
  }

  lemma {:induction false} NoExternalIdUnlessAccepted(events: seq<Event>)
    requires forall j :: 0 <= j < |events| ==> !(events[j].Attempted? && events[j].attempt.SendAccepted?)
    ensures Play(events).externalId == None
  {
    if events != [] {
      NoExternalIdUnlessAccepted(events[..|events| - 1]);
    }
  }

  /** Records are only ever appended, one by each event that writes: an attempt unless it found nothing, an update
      unless the delivery was DELIVERED, and then the status it reported. */
  lemma EventsOnlyAppend(d: Delivery, e: Event)
    ensures
      var d1 := Step(d, e);
      var writes := if e.Attempted? then !FoundNothing(e.attempt) else Latest(d) != Some(Delivered);
      && (!writes ==> d1 == d)
      && (writes ==>
            && |d1.records| == |d.records| + 1 && d1.records[..|d.records|] == d.records
            && (e.Updated? ==> Latest(d1) == Some(e.status) && d1 == d.(records := d1.records))
            && (e.Attempted? ==> Latest(d1) in {Some(Accepted), Some(Retrying), Some(DeadLetter)})
            && d1.retryCount == d.retryCount + if e.Attempted? && FailedForNow(e.attempt) then 1 else 0)
  {
    assert Step(d, e).records != d.records ==> Step(d, e).records[..|d.records|] == d.records;
  }

  // ---- delays and recovery ----

  /** A delay is the requested one, at most an hour, when the provider rate-limited the call; otherwise it is the
      entry of the table for the number of RETRYING records there are now. */
  lemma DelayMeaning(events: seq<Event>, attempt: Attempt)
    requires Legal(events) && Route(Play(events), attempt).1.Some?
    ensures
      var (d1, delay) := Route(Play(events), attempt);
      var retries := CountStatus(d1.records, Retrying);
      && 1 <= retries <= 3
      && match attempt
         case RateLimited(seconds) => delay.value == if seconds <= 3600.0 then seconds else 3600.0
         case _ => delay.value == [30.0, 120.0, 300.0][retries - 1]
  {
    RetryCountCounts(events);
    StepKeepsBooks(Play(events), Attempted(attempt));
    var d := Play(events);
    CountAppend(d.records, Record(Retrying, SendFailure), Retrying, NoReason);
  }

  /** Recovery re-enqueues a RETRYING delivery with the entry of the table for the number of its RETRYING records, a
      PENDING one at once, and no other. */
  lemma RecoveryDelayMeaning(events: seq<Event>)
    requires Legal(events)
    ensures
      var d := Play(events);
      var retries := CountStatus(d.records, Retrying);
      && (Latest(d) == Some(Retrying) ==>
            1 <= retries <= 3 && RecoveryDelay(d) == Some([30.0, 120.0, 300.0][retries - 1]))
      && (Latest(d) == Some(Pending) ==> RecoveryDelay(d) == Some(0.0))
      && (RecoveryDelay(d).Some? ==> Latest(d) in {Some(Retrying), Some(Pending)})
  {
    RetryCountCounts(events);
  }

  /** After a crash right behind a commit, recovery re-enqueues the delivery exactly as the running process would
      have, unless the attempt was rate-limited (then the table replaces the requested delay) or found nothing
      (then the row is as it was before). */
  lemma RecoveryRepeatsDelay(d: Delivery, attempt: Attempt)
    ensures
      var (d1, delay) := Route(d, attempt);
      RecoveryDelay(d1) == delay <==>
        match attempt
        case RateLimited(seconds) =>
          d.retryCount >= OUTBOUND_MAX_RETRIES
          || RetryDelay(d.retryCount + 1) == (if seconds <= MAX_RETRY_AFTER then seconds else MAX_RETRY_AFTER)
        case RowUnavailable => Latest(d) !in {Some(Pending), Some(Retrying)}
        case RoomGone => Latest(d) !in {Some(Pending), Some(Retrying)}
        case _ => true
  {
  }

  // ---- DELIVERED ----

  /** The records went on by the statuses reported, up to the first DELIVERED among them. */
  ghost predicate WentOnBy(before: seq<Record>, after: seq<Record>, updates: seq<Status>) {
    var n := |after| - |before|;
    && 0 <= n <= |updates| && before <= after
    && (forall i :: 0 <= i < n ==> after[|before| + i].status == updates[i])
    && (forall i :: 0 <= i < n - 1 ==> updates[i] != Delivered)
    && (n < |updates| ==> n > 0 && updates[n - 1] == Delivered)
  }

  lemma WentOnByOneMore(before: seq<Record>, r: Record, after: seq<Record>, updates: seq<Status>)
    requires updates != [] && r.status == updates[0] != Delivered && WentOnBy(before + [r], after, updates[1..])
    ensures WentOnBy(before, after, updates)
  {
    var n := |after| - |before|;
    assert before <= before + [r] && after[|before|] == (before + [r])[|before|];
    forall i | 0 <= i < n ensures after[|before| + i].status == updates[i] {
      if i > 0 { assert after[|before + [r]| + (i - 1)].status == updates[1..][i - 1]; }
    }
    forall i | 0 <= i < n - 1 ensures updates[i] != Delivered {
      if i > 0 { assert updates[i] == updates[1..][i - 1]; }
    }
    if n < |updates| && n > 1 { assert updates[n - 1] == updates[1..][n - 2]; }
  }

  /** Updates are recorded in their order, each with the status reported, up to the first DELIVERED. */
  lemma {:induction false} UpdatesRecorded(d: Delivery, updates: seq<Status>)
    requires Latest(d) != Some(Delivered)
    ensures WentOnBy(d.records, UpdateAll(d, updates).records, updates)
    decreases |updates|
  {
    if updates != [] {
      var d1 := Update(d, updates[0]);
      if updates[0] == Delivered {
        DeliveredIsFinalForUpdates(d1, updates[1..], RoomGone);
      } else {
        UpdatesRecorded(d1, updates[1..]);
        hide WentOnBy;
        WentOnByOneMore(d.records, Record(updates[0], NoReason), UpdateAll(d, updates).records, updates);
      }
    }
  }

  /** DELIVERED is final for backend updates and echoes, but not for a late send attempt: the row changes exactly
      when such an attempt writes a record. */
  lemma DeliveredIsFinalForUpdates(d: Delivery, updates: seq<Status>, attempt: Attempt)
    requires Latest(d) == Some(Delivered)
    ensures UpdateAll(d, updates) == d
    ensures Latest(Route(d, attempt).0) == Some(Delivered) <==> FoundNothing(attempt)
    decreases |updates|
  {
    if updates != [] { DeliveredIsFinalForUpdates(d, updates[1..], attempt); }
  }
}
