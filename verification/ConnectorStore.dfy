/**
  The connector store: a TTL cache with single-flight fetching and epoch-based invalidation, shared by many
  threads. Every `with self._fetch_lock` block is one atomic step, and so is every unlocked dictionary read.
 */
module StoreBlocks {
  import opened Options

  datatype CacheKey = CacheKey(tenant: string, backend: string)

  datatype Error = NotConfigured | AuthUnavailable | OtherError

  /** A connector object, tagged with the step at which the thread that built it read its epoch (which is
      before that thread read the configuration). */
  datatype Instance = Instance(serial: nat, readAt: nat)

  datatype Outcome = Built(instance: Instance) | Raised(error: Error)

  /** Identity of a `concurrent.futures.Future`. */
  type Future = nat

  /** The four dictionaries that `_fetch_lock` guards. */
  datatype Shared = Shared(
    cache: map<CacheKey, Instance>,
    expiresAt: map<CacheKey, real>,
    epochs: map<CacheKey, nat>,
    pending: map<CacheKey, Future>)

  datatype Entry = Hit(instance: Instance) | Follow(future: Future) | Lead

  function EpochOf(s: Shared, key: CacheKey): nat {
    if key in s.epochs then s.epochs[key] else 0
  }

  function ExpiryOf(s: Shared, key: CacheKey): real {
    if key in s.expiresAt then s.expiresAt[key] else 0.0
  }

  function Cached(s: Shared, key: CacheKey, now: real): Option<Instance> {
    if now > ExpiryOf(s, key) || key !in s.cache then None else Some(s.cache[key])
  }

  /** Removes the cached instance; shared by `drop` and by the HTTP error path of `_do_fetch`. */
  function ForgetBlock(s: Shared, key: CacheKey): Shared {
    s.(cache := s.cache - {key}, expiresAt := s.expiresAt - {key})
  }

  function DropBlock(s: Shared, key: CacheKey): Shared {
    var forgotten := ForgetBlock(s, key);
    if key in s.pending then forgotten.(epochs := s.epochs[key := EpochOf(s, key) + 1]) else forgotten
  }

  function EnterBlock(s: Shared, key: CacheKey, now: real, created: Future): (Shared, Entry) {
    match Cached(s, key, now)
    case Some(instance) => (s, Hit(instance))
    case None =>
      if key in s.pending then (s, Follow(s.pending[key]))
      else (s.(pending := s.pending[key := created]), Lead)
  }

  function PublishBlock(s: Shared, key: CacheKey, instance: Instance, epochBefore: nat, expiry: real): Shared {
    if EpochOf(s, key) == epochBefore
    then s.(cache := s.cache[key := instance], expiresAt := s.expiresAt[key := expiry])
    else s
  }

  function LeaveBlock(s: Shared, key: CacheKey): Shared {
    s.(pending := s.pending - {key}, epochs := s.epochs - {key})
  }

  /** The store object. Each method is one critical section, `GetCached` its lock-free read. */
  class ConnectorStore {
    var cache: map<CacheKey, Instance>
    var expiresAt: map<CacheKey, real>
    var cacheEpoch: map<CacheKey, nat>
    var pendingFetches: map<CacheKey, Future>
    const cacheTtl: real

    ghost function View(): Shared
      reads this
    {
      Shared(cache, expiresAt, cacheEpoch, pendingFetches)
    }

    constructor (ttl: real)
      ensures View() == Shared(map[], map[], map[], map[]) && cacheTtl == ttl
    {
      cache, expiresAt, cacheEpoch, pendingFetches := map[], map[], map[], map[];
      cacheTtl := ttl;
    }

    method GetCached(key: CacheKey, now: real) returns (instance: Option<Instance>)
      ensures instance == Cached(View(), key, now)
      ensures instance.Some? <==> key in cache && now <= if key in expiresAt then expiresAt[key] else 0.0
      ensures instance.Some? ==> instance.value == cache[key]
    {
      var expiry := if key in expiresAt then expiresAt[key] else 0.0;
      if now > expiry {
        return None;
      }
      instance := if key in cache then Some(cache[key]) else None;
    }

    method Drop(key: CacheKey)
      modifies this
      ensures View() == DropBlock(old(View()), key)
    {
      cache := cache - {key};
      expiresAt := expiresAt - {key};
      if key in pendingFetches {
        cacheEpoch := cacheEpoch[key := (if key in cacheEpoch then cacheEpoch[key] else 0) + 1];
      }
    }

    method EnterFetch(key: CacheKey, now: real, created: Future) returns (entry: Entry)
      modifies this
      ensures (View(), entry) == EnterBlock(old(View()), key, now, created)
    {
      var cached := GetCached(key, now);
      if cached.Some? {
        return Hit(cached.value);
      }
      if key in pendingFetches {
        return Follow(pendingFetches[key]);
      }
      pendingFetches := pendingFetches[key := created];
      entry := Lead;
    }

    method ReadEpoch(key: CacheKey) returns (epochBefore: nat)
      ensures epochBefore == EpochOf(View(), key)
    {
      epochBefore := if key in cacheEpoch then cacheEpoch[key] else 0;
    }

    method ForgetOnHttpError(key: CacheKey)
      modifies this
      ensures View() == ForgetBlock(old(View()), key)
    {
      cache := cache - {key};
      expiresAt := expiresAt - {key};
    }

    /** `jitter` is the sample drawn from [1 - TTL_JITTER, 1 + TTL_JITTER]. */
    method Publish(key: CacheKey, instance: Instance, epochBefore: nat, now: real, jitter: real)
      returns (cached: bool)
      modifies this
      ensures View() == PublishBlock(old(View()), key, instance, epochBefore, now + cacheTtl * jitter)
      ensures cached <==> EpochOf(old(View()), key) == epochBefore
    {
      cached := (if key in cacheEpoch then cacheEpoch[key] else 0) == epochBefore;
      if cached {
        cache := cache[key := instance];
        expiresAt := expiresAt[key := now + cacheTtl * jitter];
      }
    }

    method LeaveFetch(key: CacheKey)
      modifies this
      ensures View() == LeaveBlock(old(View()), key)
    {
      pendingFetches := pendingFetches - {key};
      cacheEpoch := cacheEpoch - {key};
    }
  }
}

/** Every interleaving of any number of threads that run `get`, `_fetch`, `_do_fetch` and `drop`. */
module StoreProtocol {
  import opened Options
  import opened StoreBlocks

  datatype Phase =
    | Idle
    | Looking      // expiry checked, cache read next
    | Entering     // cache missed, about to take the lock in `_fetch`
    | Following    // waiting in `future.result()`
    | Registered | EpochRead | Configured | Refused | Settling | Leaving  // leading a fetch
    | FromCache | FromLeader | OwnFetch  // returned, by the way it got its outcome

  /** A caller. `at` is a step number: of the last drop of the key when the call began, or, for a thread that leads a
      fetch and has read its epoch, of that reading. `stale` is history: whether it joined as `JoinsStale` says. */
  datatype Thread = Thread(
    phase: Phase, key: CacheKey, future: Future, epoch: nat, at: nat, stale: bool, outcome: Outcome)
  {
    predicate Returned() { phase == FromCache || phase == FromLeader || phase == OwnFetch }

    predicate HoldsEpoch() { phase == EpochRead || phase == Configured }

    /** The thread is answerable for an entry of `_pending_fetches`. */
    predicate Leads() {
      phase == Registered || HoldsEpoch() || phase == Refused || phase == Settling || phase == Leaving
    }
  }

  /** A future of `_fetch`, the thread that created it and the key it stands for. */
  datatype Flight = Flight(leader: nat, key: CacheKey, result: Option<Outcome>)

  /** `lastDrop` is history: the step of the last `drop` of each key. Futures are numbered in creation order. */
  datatype System = System(
    shared: Shared, threads: seq<Thread>, flights: seq<Flight>, lastDrop: map<CacheKey, nat>, step: nat)

  datatype Action =
    | Start(key: CacheKey, now: real)
    | ReadCache
    | Enter(now: real)
    | Await
    | ReadEpoch
    | ReadConfig
    | HttpError
    | Forget(error: Error)
    | Interrupt(error: Error)
    | Publish(serial: nat, expiry: real)
    | Settle
    | Leave
    | Drop(key: CacheKey)

  function DropOf(s: System, key: CacheKey): nat {
    if key in s.lastDrop then s.lastDrop[key] else 0
  }

  predicate Enabled(s: System, t: nat, a: Action) {
    t < |s.threads| &&
    var th := s.threads[t];
    match a
    case Start(_, _) => th.phase == Idle || th.Returned()
    case ReadCache => th.phase == Looking
    case Enter(_) => th.phase == Entering
    case Await => th.phase == Following && th.future < |s.flights| && s.flights[th.future].result.Some?
    case ReadEpoch => th.phase == Registered
    case ReadConfig => th.phase == EpochRead
    case HttpError => th.phase == EpochRead
    case Forget(_) => th.phase == Refused
    case Interrupt(_) => th.phase == Registered || th.HoldsEpoch()
    case Publish(_, _) => th.phase == Configured
    case Settle => th.phase == Settling && th.future < |s.flights|
    case Leave => th.phase == Leaving
    case Drop(_) => th.phase == Idle || th.Returned()
  }

  /** Joining a pending fetch whose leader has read its epoch, and did so before a given drop. */
  predicate JoinsStale(s: System, drop: nat, future: Future) {
    future < |s.flights| && s.flights[future].leader < |s.threads| &&
    var leader := s.threads[s.flights[future].leader];
    leader.phase != Registered && leader.at <= drop
  }

  function SharedAfter(s: System, t: nat, a: Action): Shared
    requires Enabled(s, t, a)
  {
    var th := s.threads[t];
    match a
    case Enter(now) => EnterBlock(s.shared, th.key, now, |s.flights|).0
    case Forget(_) => ForgetBlock(s.shared, th.key)
    case Publish(serial, expiry) => PublishBlock(s.shared, th.key, Instance(serial, th.at), th.epoch, expiry)
    case Leave => LeaveBlock(s.shared, th.key)
    case Drop(key) => DropBlock(s.shared, key)
    case _ => s.shared
  }

  function FlightsAfter(s: System, t: nat, a: Action): seq<Flight>
    requires Enabled(s, t, a)
  {
    var th := s.threads[t];
    match a
    case Enter(now) =>
      if EnterBlock(s.shared, th.key, now, |s.flights|).1.Lead?
      then s.flights + [Flight(t, th.key, None)] else s.flights
    case Settle => s.flights[th.future := s.flights[th.future].(result := Some(th.outcome))]
    case _ => s.flights
  }

  function ThreadAfter(s: System, t: nat, a: Action): Thread
    requires Enabled(s, t, a)
  {
    var th := s.threads[t];
    match a
    case Start(key, now) =>
      th.(phase := if now > ExpiryOf(s.shared, key) then Entering else Looking, key := key, at := DropOf(s, key))
    case ReadCache =>
      if th.key in s.shared.cache then th.(phase := FromCache, outcome := Built(s.shared.cache[th.key]))
      else th.(phase := Entering)
    case Enter(now) => ThreadAfterEnter(s, th, now)
    case Await => th.(phase := FromLeader, outcome := s.flights[th.future].result.value)
    case ReadEpoch => th.(phase := EpochRead, epoch := EpochOf(s.shared, th.key), at := s.step)
    case ReadConfig => th.(phase := Configured)
    case HttpError => th.(phase := Refused)
    case Forget(error) => th.(phase := Settling, outcome := Raised(error))
    case Interrupt(error) => th.(phase := Settling, outcome := Raised(error))
    case Publish(serial, _) => th.(phase := Settling, outcome := Built(Instance(serial, th.at)))
    case Settle => th.(phase := Leaving)
    case Leave => th.(phase := OwnFetch)
    case Drop(_) => th
  }

  function ThreadAfterEnter(s: System, th: Thread, now: real): Thread {
    match EnterBlock(s.shared, th.key, now, |s.flights|).1
    case Hit(instance) => th.(phase := FromCache, outcome := Built(instance))
    case Follow(future) =>
      th.(phase := Following, future := future, stale := JoinsStale(s, th.at, future))
    case Lead => th.(phase := Registered, future := |s.flights|)
  }

  function Apply(s: System, t: nat, a: Action): System
    requires Enabled(s, t, a)
  {
    System(
      SharedAfter(s, t, a),
      s.threads[t := ThreadAfter(s, t, a)],
      FlightsAfter(s, t, a),
      if a.Drop? then s.lastDrop[a.key := s.step] else s.lastDrop,
      s.step + 1)
  }

  ghost predicate Init(s: System) {
    && s.shared == Shared(map[], map[], map[], map[])
    && (forall t :: 0 <= t < |s.threads| ==> s.threads[t].phase == Idle)
    && s.flights == [] && s.lastDrop == map[] && s.step == 1
  }

  datatype Event = Event(thread: nat, action: Action)

  ghost predicate IsRun(states: seq<System>, events: seq<Event>) {
    && |states| == |events| + 1
    && Init(states[0])
    && forall i :: 0 <= i < |events| ==>
         && Enabled(states[i], events[i].thread, events[i].action)
         && states[i + 1] == Apply(states[i], events[i].thread, events[i].action)
  }

  // ---- the invariant ----

  ghost predicate KeyOk(s: System, key: CacheKey) { KeyFresh(s, key) && KeyLed(s, key) }

  /** Cache and expiry agree, only a pending fetch has an epoch, and what is cached was built from an epoch read
      after the last drop. */
  ghost predicate KeyFresh(s: System, key: CacheKey) {
    && (key in s.shared.cache <==> key in s.shared.expiresAt)
    && (key in s.shared.epochs ==> key in s.shared.pending)
    && (key in s.shared.cache ==> s.shared.cache[key].readAt > DropOf(s, key))
    && DropOf(s, key) < s.step
  }

  /** A pending fetch has its leader. */
  ghost predicate KeyLed(s: System, key: CacheKey) {
    key in s.shared.pending ==>
      s.shared.pending[key] < |s.flights|
      && s.flights[s.shared.pending[key]].key == key
      && HasLeader(s, s.shared.pending[key])
  }

  ghost predicate HasLeader(s: System, f: Future)
    requires f < |s.flights|
  {
    var t := s.flights[f].leader;
    t < |s.threads| && s.threads[t].Leads() && s.threads[t].future == f
  }

  ghost predicate FlightOk(s: System, f: Future)
    requires f < |s.flights|
  {
    s.flights[f].result.None? ==> HasLeader(s, f) && s.threads[s.flights[f].leader].phase != Leaving
  }

  ghost predicate LeaderOk(s: System, t: nat, th: Thread) {
    && th.future < |s.flights|
    && s.flights[th.future] == Flight(t, th.key, if th.phase == Leaving then Some(th.outcome) else None)
    && th.key in s.shared.pending && s.shared.pending[th.key] == th.future
    && ((th.phase == Settling || th.phase == Leaving) && th.outcome.Built? ==>
          1 <= th.at && th.outcome.instance.readAt == th.at)
    && (th.HoldsEpoch() ==>
          && 1 <= th.at < s.step
          && th.epoch <= EpochOf(s.shared, th.key)
          && (th.epoch == EpochOf(s.shared, th.key) <==> th.at > DropOf(s, th.key)))
  }

  /** What the `stale` flag of a follower foretells about the instance it will be handed. */
  ghost predicate Foretold(s: System, f: Future, drop: nat, stale: bool)
    requires f < |s.flights|
  {
    match s.flights[f].result
    case Some(outcome) =>
      outcome.Built? ==> 1 <= outcome.instance.readAt && (stale <==> outcome.instance.readAt <= drop)
    case None =>
      s.flights[f].leader < |s.threads| &&
      var leader := s.threads[s.flights[f].leader];
      && (leader.phase == Registered ==> !stale)
      && (leader.HoldsEpoch() ==> (stale <==> leader.at <= drop))
      && (leader.phase == Settling && leader.outcome.Built? ==>
            (stale <==> leader.outcome.instance.readAt <= drop))
  }

  ghost predicate ThreadOk(s: System, t: nat)
    requires t < |s.threads|
  {
    var th := s.threads[t];
    && (th.Leads() ==> LeaderOk(s, t, th))
    && (th.phase == Looking || th.phase == Entering ==> th.at <= DropOf(s, th.key))
    && (th.phase == Following ==>
          && th.future < |s.flights| && s.flights[th.future].key == th.key && th.at < s.step
          && Foretold(s, th.future, th.at, th.stale))
    && (th.phase == FromCache ==> th.outcome.Built? && th.outcome.instance.readAt > th.at)
    && (th.phase == FromLeader || th.phase == OwnFetch ==>
          && th.future < |s.flights| && s.flights[th.future].result == Some(th.outcome)
          && s.flights[th.future].key == th.key)
    && (th.phase == FromLeader && th.outcome.Built? ==>
          1 <= th.outcome.instance.readAt && (th.stale <==> th.outcome.instance.readAt <= th.at))
  }

  ghost predicate Inv(s: System) {
    && s.step >= 1
    && (forall key :: KeyOk(s, key))
    && (forall t :: 0 <= t < |s.threads| ==> ThreadOk(s, t))
    && (forall f :: 0 <= f < |s.flights| ==> FlightOk(s, f))
  }

  /** The facts about one thread that a step of another can touch: its own, its key's and, if it follows, those
      of the future it waits for and of that future's leader. */
  ghost predicate Around(s: System, t: nat)
    requires t < |s.threads|
  {
    && s.step >= 1 && ThreadOk(s, t) && KeyOk(s, s.threads[t].key)
    && (s.threads[t].phase == Following ==>
          var f := s.threads[t].future;
          FlightOk(s, f) && (s.flights[f].result.None? ==> ThreadOk(s, s.flights[f].leader)))
  }

  lemma StepKeepsKeyFresh(s: System, t: nat, a: Action, key: CacheKey)
    requires Enabled(s, t, a) && Around(s, t) && KeyFresh(s, key)
    ensures KeyFresh(Apply(s, t, a), key)
  {
  }

  lemma StepKeepsKeyLed(s: System, t: nat, a: Action, key: CacheKey)
    requires Enabled(s, t, a) && Around(s, t) && KeyLed(s, key)
    ensures KeyLed(Apply(s, t, a), key)
  {
    hide Around, Apply, KeyLed;
    if a.Enter? { EnterKeepsKeyLed(s, t, a.now, key); } else { LaterStepKeepsKeyLed(s, t, a, key); }
  }

  lemma EnterKeepsKeyLed(s: System, t: nat, now: real, key: CacheKey)
    requires Enabled(s, t, Enter(now)) && Around(s, t) && KeyLed(s, key)
    ensures KeyLed(Apply(s, t, Enter(now)), key)
  {
  }

  lemma LaterStepKeepsKeyLed(s: System, t: nat, a: Action, key: CacheKey)
    requires Enabled(s, t, a) && !a.Enter? && Around(s, t) && KeyLed(s, key)
    ensures KeyLed(Apply(s, t, a), key)
  {
  }

  lemma StepKeepsFlight(s: System, t: nat, a: Action, f: Future)
    requires Enabled(s, t, a) && Around(s, t) && (f < |s.flights| ==> FlightOk(s, f))
    requires f < |FlightsAfter(s, t, a)|
    ensures FlightOk(Apply(s, t, a), f)
  {
  }

  lemma OwnStepKeepsThread(s: System, t: nat, a: Action)
    requires Enabled(s, t, a) && Around(s, t) && !a.Enter?
    ensures ThreadOk(Apply(s, t, a), t)
  {
    if s.threads[t].Leads() {
      LeaderStepKeepsItself(s, t, a);
    } else {
      CallerStepKeepsItself(s, t, a);
    }
  }

  lemma LeaderStepKeepsItself(s: System, t: nat, a: Action)
    requires Enabled(s, t, a) && Around(s, t) && s.threads[t].Leads()
    ensures ThreadOk(Apply(s, t, a), t)
  {
  }

  lemma CallerStepKeepsItself(s: System, t: nat, a: Action)
    requires Enabled(s, t, a) && Around(s, t) && !s.threads[t].Leads() && !a.Enter?
    ensures ThreadOk(Apply(s, t, a), t)
  {
  }

  lemma EnterKeepsThread(s: System, t: nat, now: real)
    requires Enabled(s, t, Enter(now)) && Around(s, t)
    requires s.threads[t].key in s.shared.pending ==>
               ThreadOk(s, s.flights[s.shared.pending[s.threads[t].key]].leader)
    ensures ThreadOk(Apply(s, t, Enter(now)), t)
  {
  }

  lemma OtherStepKeepsLeader(s: System, t: nat, a: Action, u: nat)
    requires Enabled(s, t, a) && Around(s, t) && u < |s.threads| && u != t && Around(s, u)
    requires s.threads[u].Leads()
    ensures ThreadOk(Apply(s, t, a), u)
  {
    hide Around, Apply, ThreadOk;
    if a.Drop? { DropKeepsLeader(s, t, a.key, u); } else { QuietStepKeepsLeader(s, t, a, u); }
  }

  lemma DropKeepsLeader(s: System, t: nat, key: CacheKey, u: nat)
    requires Enabled(s, t, Drop(key)) && u < |s.threads| && u != t && Around(s, u) && s.threads[u].Leads()
    ensures ThreadOk(Apply(s, t, Drop(key)), u)
  {
  }

  lemma QuietStepKeepsLeader(s: System, t: nat, a: Action, u: nat)
    requires Enabled(s, t, a) && !a.Drop? && Around(s, t) && u < |s.threads| && u != t && Around(s, u)
    requires s.threads[u].Leads()
    ensures ThreadOk(Apply(s, t, a), u)
  {
  }

  lemma OtherStepKeepsCaller(s: System, t: nat, a: Action, u: nat)
    requires Enabled(s, t, a) && Around(s, t) && u < |s.threads| && u != t && Around(s, u)
    requires s.threads[u].phase != Following && !s.threads[u].Leads()
    ensures ThreadOk(Apply(s, t, a), u)
  {
  }

  lemma LeaderStepKeepsFollower(s: System, t: nat, a: Action, u: nat)
    requires Enabled(s, t, a) && Around(s, t) && u < |s.threads| && u != t && Around(s, u)
    requires s.threads[u].phase == Following
    requires s.flights[s.threads[u].future].result.None? && s.flights[s.threads[u].future].leader == t
    ensures ThreadOk(Apply(s, t, a), u)
  {
  }

  lemma OtherStepKeepsFollower(s: System, t: nat, a: Action, u: nat)
    requires Enabled(s, t, a) && Around(s, t) && u < |s.threads| && u != t && Around(s, u)
    requires s.threads[u].phase == Following
    requires s.flights[s.threads[u].future].result.Some? || s.flights[s.threads[u].future].leader != t
    ensures ThreadOk(Apply(s, t, a), u)
  {
  }

  lemma StepKeepsOther(s: System, t: nat, a: Action, u: nat)
    requires Enabled(s, t, a) && Around(s, t) && u < |s.threads| && u != t && Around(s, u)
    ensures ThreadOk(Apply(s, t, a), u)
  {
    if s.threads[u].Leads() {
      OtherStepKeepsLeader(s, t, a, u);
    } else if s.threads[u].phase != Following {
      OtherStepKeepsCaller(s, t, a, u);
    } else if s.flights[s.threads[u].future].result.None? && s.flights[s.threads[u].future].leader == t {
      LeaderStepKeepsFollower(s, t, a, u);
    } else {
      OtherStepKeepsFollower(s, t, a, u);
    }
  }

  lemma InvHolds(s: System, t: nat, a: Action)
    requires Inv(s) && Enabled(s, t, a)
    ensures Inv(Apply(s, t, a))
  {
    var s1 := Apply(s, t, a);
    AllAround(s);
    forall key ensures KeyOk(s1, key) {
      assert KeyOk(s, key);
      StepKeepsKeyFresh(s, t, a, key);
      StepKeepsKeyLed(s, t, a, key);
    }
    forall f | 0 <= f < |s1.flights| ensures FlightOk(s1, f) {
      StepKeepsFlight(s, t, a, f);
    }
    forall u | 0 <= u < |s1.threads| ensures ThreadOk(s1, u) {
      if u != t {
        StepKeepsOther(s, t, a, u);
      } else if a.Enter? {
        assert KeyOk(s, s.threads[t].key);
        EnterKeepsThread(s, t, a.now);
      } else {
        OwnStepKeepsThread(s, t, a);
      }
    }
  }

  lemma AllAround(s: System)
    requires Inv(s)
    ensures forall t :: 0 <= t < |s.threads| ==> Around(s, t)
  {
    forall t | 0 <= t < |s.threads| ensures Around(s, t) {
      assert ThreadOk(s, t) && KeyOk(s, s.threads[t].key);
      if s.threads[t].phase == Following {
        assert FlightOk(s, s.threads[t].future);
      }
    }
  }

  lemma {:induction false} RunInv(states: seq<System>, events: seq<Event>, i: nat)
    requires IsRun(states, events) && i < |states|
    ensures Inv(states[i]) && states[i].step == i + 1 && |states[i].threads| == |states[0].threads|
  {
    if i > 0 {
      RunInv(states, events, i - 1);
      InvHolds(states[i - 1], events[i - 1].thread, events[i - 1].action);
    }
  }

  // ---- freshness ----

  /** The recorded last drop is not earlier than any drop in the run so far. */
  lemma {:induction false} DropsRecorded(states: seq<System>, events: seq<Event>, j: nat, i: nat)
    requires IsRun(states, events) && j < i < |states| && events[j].action.Drop?
    ensures DropOf(states[i], events[j].action.key) >= j + 1
  {
    RunInv(states, events, i - 1);
    if j < i - 1 {
      DropsRecorded(states, events, j, i - 1);
      assert KeyOk(states[i - 1], events[j].action.key);
    }
  }

  /** In any run, a cached instance was built by a leader that read its epoch after every drop of the key
      (the event at index j happens at step j + 1). */
  lemma CachedAfterEveryDrop(states: seq<System>, events: seq<Event>, j: nat, i: nat)
    requires IsRun(states, events) && j < i < |states| && events[j].action.Drop?
    requires events[j].action.key in states[i].shared.cache
    ensures states[i].shared.cache[events[j].action.key].readAt > j + 1
  {
    RunInv(states, events, i);
    DropsRecorded(states, events, j, i);
    assert KeyOk(states[i], events[j].action.key);
  }

  /** Thread `t` begins `get(key)` at event `m` and begins no other call before state `i`. */
  ghost predicate InCall(states: seq<System>, events: seq<Event>, t: nat, key: CacheKey, m: nat, i: nat) {
    && IsRun(states, events) && m < i < |states|
    && events[m].thread == t && events[m].action.Start? && events[m].action.key == key
    && forall n :: m < n < i ==> !(events[n].thread == t && events[n].action.Start?)
  }

  lemma {:induction false} CallKeepsItsStart(
    states: seq<System>, events: seq<Event>, t: nat, key: CacheKey, m: nat, i: nat)
    requires InCall(states, events, t, key, m, i)
    ensures t < |states[i].threads| && states[i].threads[t].key == key
    ensures states[i].threads[t].phase in {Looking, Entering, FromCache, Following, FromLeader} ==>
              states[i].threads[t].at == DropOf(states[m], key)
    ensures states[i].threads[t].phase != Idle
  {
    if i > m + 1 {
      CallKeepsItsStart(states, events, t, key, m, i - 1);
    }
  }

  /** What the thread builds or has built is from an epoch read after a given drop. */
  predicate OwnEpochAfter(th: Thread, drop: nat) {
    && (th.HoldsEpoch() ==> th.at > drop)
    && (th.phase in {Settling, Leaving, OwnFetch} && th.outcome.Built? ==> th.outcome.instance.readAt > drop)
  }

  lemma OwnEpochStep(s: System, u: nat, a: Action, t: nat, drop: nat)
    requires Enabled(s, u, a) && t < |s.threads| && OwnEpochAfter(s.threads[t], drop) && drop < s.step
    ensures t < |Apply(s, u, a).threads| && OwnEpochAfter(Apply(s, u, a).threads[t], drop)
  {
    var th := ThreadAfter(s, u, a);
    assert Apply(s, u, a).threads == s.threads[u := th];
  }

  lemma DropsAreEarlier(states: seq<System>, events: seq<Event>, key: CacheKey, m: nat, i: nat)
    requires IsRun(states, events) && m <= i < |states|
    ensures DropOf(states[m], key) < states[i].step
  {
    RunInv(states, events, m);
    RunInv(states, events, i);
    assert KeyOk(states[m], key);
  }

  /** A call that leads its own fetch reads the epoch after it began. */
  lemma {:induction false} OwnEpochIsLater(
    states: seq<System>, events: seq<Event>, t: nat, key: CacheKey, m: nat, i: nat)
    requires InCall(states, events, t, key, m, i)
    ensures t < |states[i].threads| && OwnEpochAfter(states[i].threads[t], DropOf(states[m], key))
  {
    hide Inv, KeyOk, Enabled, Apply;
    if i > m + 1 {
      DropsAreEarlier(states, events, key, m, i - 1);
      OwnEpochIsLater(states, events, t, key, m, i - 1);
      var s, e := states[i - 1], events[i - 1];
      assert Enabled(s, e.thread, e.action) && states[i] == Apply(s, e.thread, e.action);
      OwnEpochStep(s, e.thread, e.action, t, DropOf(states[m], key));
      SameThreads(s, e.thread, e.action);
    } else {
      CallKeepsItsStart(states, events, t, key, m, i);
      JustStarted(states, events, t, key, m);
    }
  }

  lemma SameThreads(s: System, t: nat, a: Action)
    requires Enabled(s, t, a)
    ensures |Apply(s, t, a).threads| == |s.threads|
  {
  }

  /** A `get` that starts after a drop and is served from the cache never returns a pre-drop instance, however
      the two reads of `_get_cached` interleave with everything else. */
  lemma CacheHitAfterDropIsFresh(
    states: seq<System>, events: seq<Event>, t: nat, j: nat, m: nat, i: nat)
    requires IsRun(states, events) && j < m < i < |states| && events[j].action.Drop?
    requires InCall(states, events, t, events[j].action.key, m, i)
    requires t < |states[i].threads| && states[i].threads[t].phase == FromCache
    ensures states[i].threads[t].outcome.Built? && states[i].threads[t].outcome.instance.readAt > j + 1
  {
    RunInv(states, events, i);
    DropsRecorded(states, events, j, m);
    CallKeepsItsStart(states, events, t, events[j].action.key, m, i);
    assert ThreadOk(states[i], t);
  }

  /** At event `m` thread `t` joins a pending fetch that its leader entered with an epoch read before the given drop. */
  ghost predicate JoinsStaleAt(states: seq<System>, events: seq<Event>, t: nat, m: nat, drop: nat)
    requires m < |events| < |states|
  {
    && events[m].thread == t && events[m].action.Enter?
    && t < |states[m + 1].threads| && states[m + 1].threads[t].phase == Following
    && JoinsStale(states[m], drop, states[m + 1].threads[t].future)
  }

  predicate Follows(th: Thread) { th.phase == Following || th.phase == FromLeader }

  /** One event and the flag of a thread that does not begin a call with it. */
  lemma FlagStep(states: seq<System>, events: seq<Event>, t: nat, drop: nat, n: nat)
    requires IsRun(states, events) && n < |events| && t < |states[n].threads| == |states[n + 1].threads|
    requires states[n].threads[t].phase in {Looking, Entering} ==> states[n].threads[t].at == drop
    requires !(events[n].thread == t && events[n].action.Start?)
    ensures
      var th, after, joins := states[n].threads[t], states[n + 1].threads[t], JoinsStaleAt(states, events, t, n, drop);
      if Follows(th) then Follows(after) && after.stale == th.stale && !joins
      else if Follows(after) then after.stale <==> joins
      else !joins
  {
    var s, u, a := states[n], events[n].thread, events[n].action;
    assert Enabled(s, u, a) && states[n + 1] == Apply(s, u, a);
    assert states[n + 1].threads == s.threads[u := ThreadAfter(s, u, a)];
    hide IsRun, JoinsStale, Apply, EnterBlock;
    if u == t && a.Enter? {
      assert ThreadAfter(s, u, a) == ThreadAfterEnter(s, s.threads[t], a.now);
    }
  }

  /** Some event of the call is such a join. */
  ghost predicate JoinedStale(states: seq<System>, events: seq<Event>, t: nat, m: nat, i: nat, drop: nat)
    requires i <= |events| < |states|
  {
    exists n :: m < n < i && JoinsStaleAt(states, events, t, n, drop)
  }

  lemma JoinedStep(states: seq<System>, events: seq<Event>, t: nat, m: nat, i: nat, drop: nat)
    requires m < i < |events| < |states|
    ensures JoinedStale(states, events, t, m, i + 1, drop) <==>
              JoinedStale(states, events, t, m, i, drop) || JoinsStaleAt(states, events, t, i, drop)
  {
    hide JoinsStaleAt;
    if n :| m < n < i + 1 && JoinsStaleAt(states, events, t, n, drop) {
      assert n < i || n == i;
    }
  }

  /** The flag of a follower tells how it joined. */
  lemma {:induction false} FlagTellsTheJoin(
    states: seq<System>, events: seq<Event>, t: nat, key: CacheKey, m: nat, i: nat)
    requires InCall(states, events, t, key, m, i)
    ensures t < |states[i].threads|
    ensures JoinedStale(states, events, t, m, i, DropOf(states[m], key)) <==>
              Follows(states[i].threads[t]) && states[i].threads[t].stale
  {
    CallKeepsItsStart(states, events, t, key, m, i);
    if i > m + 1 {
      var drop := DropOf(states[m], key);
      CallKeepsItsStart(states, events, t, key, m, i - 1);
      FlagTellsTheJoin(states, events, t, key, m, i - 1);
      RunInv(states, events, i - 1);
      RunInv(states, events, i);
      FlagStep(states, events, t, drop, i - 1);
      JoinedStep(states, events, t, m, i - 1, drop);
    } else {
      JustStarted(states, events, t, key, m);
    }
  }

  lemma JustStarted(states: seq<System>, events: seq<Event>, t: nat, key: CacheKey, m: nat)
    requires InCall(states, events, t, key, m, m + 1) && t < |states[m + 1].threads|
    ensures states[m + 1].threads[t].phase in {Looking, Entering}
  {
  }

  /** The recorded last drop is a drop of the run. */
  lemma {:induction false} LastDropHappened(states: seq<System>, events: seq<Event>, key: CacheKey, i: nat)
      returns (j: nat)
    requires IsRun(states, events) && i < |states| && DropOf(states[i], key) > 0
    ensures j < i && events[j].action == Drop(key) && DropOf(states[i], key) == j + 1
  {
    RunInv(states, events, i - 1);
    if events[i - 1].action == Drop(key) {
      j := i - 1;
    } else {
      j := LastDropHappened(states, events, key, i - 1);
    }
  }

  /** The outcome of a call that began at event `m` is older than some drop that preceded the call. */
  ghost predicate PreDrop(events: seq<Event>, key: CacheKey, m: nat, outcome: Outcome)
    requires m < |events|
  {
    outcome.Built? && exists j :: 0 <= j < m && events[j].action == Drop(key) && outcome.instance.readAt <= j + 1
  }

  /** The exact condition under which a `get` that starts after a drop returns a pre-drop instance, however it returns:
      it joined a pending fetch whose leader had by then read its epoch, and had read it before the last drop that
      preceded the call. Drops during the call make no difference. */
  lemma GetIsStaleExactlyWhen(states: seq<System>, events: seq<Event>, t: nat, key: CacheKey, m: nat, i: nat)
    requires InCall(states, events, t, key, m, i)
    requires t < |states[i].threads| && states[i].threads[t].Returned() && states[i].threads[t].outcome.Built?
    ensures PreDrop(events, key, m, states[i].threads[t].outcome) <==>
              JoinedStale(states, events, t, m, i, DropOf(states[m], key))
  {
    RunInv(states, events, i);
    CallKeepsItsStart(states, events, t, key, m, i);
    OwnEpochIsLater(states, events, t, key, m, i);
    FlagTellsTheJoin(states, events, t, key, m, i);
    var outcome, drop := states[i].threads[t].outcome, DropOf(states[m], key);
    assert ThreadOk(states[i], t);
    hide JoinedStale, KeyOk, FlightOk, IsRun, PreDrop;
    PreDropMeans(states, events, key, m, outcome);
  }

  lemma PreDropMeans(states: seq<System>, events: seq<Event>, key: CacheKey, m: nat, outcome: Outcome)
    requires IsRun(states, events) && m < |events| && outcome.Built?
    ensures PreDrop(events, key, m, outcome) ==> outcome.instance.readAt <= DropOf(states[m], key)
    ensures 1 <= outcome.instance.readAt <= DropOf(states[m], key) ==> PreDrop(events, key, m, outcome)
  {
    if j :| 0 <= j < m && events[j].action == Drop(key) && outcome.instance.readAt <= j + 1 {
      DropsRecorded(states, events, j, m);
    }
    if 1 <= outcome.instance.readAt <= DropOf(states[m], key) {
      var j := LastDropHappened(states, events, key, m);
    }
  }

  /** For a call that joined at a known event: it gets an instance older than a drop that preceded it exactly when, as
      it joined, its leader had read its epoch before the last such drop. */
  lemma FollowerStaleExactlyWhen(
    states: seq<System>, events: seq<Event>, t: nat, key: CacheKey, m: nat, n: nat, i: nat)
    requires InCall(states, events, t, key, m, i) && m < n < i
    requires events[n].thread == t && t < |states[n + 1].threads| && t < |states[i].threads|
    requires events[n].action.Enter? && states[n + 1].threads[t].phase == Following
    requires states[i].threads[t].phase == FromLeader && states[i].threads[t].outcome.Built?
    ensures PreDrop(events, key, m, states[i].threads[t].outcome) <==>
              JoinsStale(states[n], DropOf(states[m], key), states[i].threads[t].future)
  {
    GetIsStaleExactlyWhen(states, events, t, key, m, i);
    OneJoin(states, events, t, key, m, n, i);
    NoEnterYet(states, events, t, key, m, n);
    hide JoinsStale, InCall, PreDrop;
    assert JoinsStaleAt(states, events, t, n, DropOf(states[m], key)) <==>
             JoinsStale(states[n], DropOf(states[m], key), states[i].threads[t].future);
  }

  /** A call that has joined does not enter again. */
  lemma {:induction false} OneJoin(
    states: seq<System>, events: seq<Event>, t: nat, key: CacheKey, m: nat, n: nat, i: nat)
    requires InCall(states, events, t, key, m, i) && m < n < i
    requires events[n].thread == t && t < |states[n + 1].threads|
    requires events[n].action.Enter? && states[n + 1].threads[t].phase == Following
    ensures t < |states[i].threads| && states[i].threads[t].phase in {Following, FromLeader}
    ensures states[i].threads[t].future == states[n + 1].threads[t].future
    ensures forall x :: n < x < i ==> !(events[x].thread == t && events[x].action.Enter?)
  {
    if i > n + 1 {
      OneJoin(states, events, t, key, m, n, i - 1);
      var s, e := states[i - 1], events[i - 1];
      assert Enabled(s, e.thread, e.action) && states[i] == Apply(s, e.thread, e.action);
      FollowerStep(s, e.thread, e.action, t);
      hide Enabled, Apply, IsRun;
    }
  }

  lemma FollowerStep(s: System, u: nat, a: Action, t: nat)
    requires Enabled(s, u, a) && t < |s.threads| && s.threads[t].phase in {Following, FromLeader}
    requires !(u == t && a.Start?)
    ensures !(u == t && a.Enter?)
    ensures t < |Apply(s, u, a).threads| && Apply(s, u, a).threads[t].phase in {Following, FromLeader}
    ensures Apply(s, u, a).threads[t].future == s.threads[t].future
  {
  }

  /** While a call is about to enter `_fetch` it has not entered before. */
  lemma {:induction false} NoEnterYet(states: seq<System>, events: seq<Event>, t: nat, key: CacheKey, m: nat, n: nat)
    requires InCall(states, events, t, key, m, n)
    ensures t < |states[n].threads|
    ensures states[n].threads[t].phase in {Looking, Entering} ==>
              forall x :: m < x < n ==> !(events[x].thread == t && events[x].action.Enter?)
  {
    if n > m + 1 {
      NoEnterYet(states, events, t, key, m, n - 1);
      CallKeepsItsStart(states, events, t, key, m, n - 1);
    }
  }

  /** The states of a run in which thread 1 drops a key while thread 0 fetches it, then joins that fetch. */
  function StaleState(key: CacheKey, n: nat): System {
    var raised, built := Raised(OtherError), Built(Instance(7, 3));
    var idle := Thread(Idle, key, 0, 0, 0, false, raised);
    var empty := Shared(map[], map[], map[], map[]);
    var led := empty.(pending := map[key := 0]);
    var dropped := led.(epochs := map[key := 1]);
    var holds := idle.(phase := EpochRead, at := 3);
    var joined := idle.(phase := Following, at := 4, stale := true);
    var flight, gone := [Flight(0, key, None)], map[key := 4];
    match n
    case 0 => System(empty, [idle, idle], [], map[], 1)
    case 1 => System(empty, [idle.(phase := Entering), idle], [], map[], 2)
    case 2 => System(led, [idle.(phase := Registered), idle], flight, map[], 3)
    case 3 => System(led, [holds, idle], flight, map[], 4)
    case 4 => System(dropped, [holds, idle], flight, gone, 5)
    case 5 => System(dropped, [holds, idle.(phase := Entering, at := 4)], flight, gone, 6)
    case 6 => System(dropped, [holds, joined], flight, gone, 7)
    case 7 => System(dropped, [holds.(phase := Configured), joined], flight, gone, 8)
    case 8 => System(dropped, [holds.(phase := Settling, outcome := built), joined], flight, gone, 9)
    case _ =>
      var leaving, done := holds.(phase := Leaving, outcome := built), [Flight(0, key, Some(built))];
      if n == 9 then System(dropped, [leaving, joined], done, gone, 10)
      else System(dropped, [leaving, joined.(phase := FromLeader, outcome := built)], done, gone, 11)
  }

  function StaleEvents(key: CacheKey): seq<Event> {
    [Event(0, Start(key, 1.0)), Event(0, Enter(1.0)), Event(0, ReadEpoch), Event(1, Drop(key)),
     Event(1, Start(key, 1.0)), Event(1, Enter(1.0)), Event(0, ReadConfig), Event(0, Publish(7, 9.0)),
     Event(0, Settle), Event(1, Await)]
  }

  lemma StaleStep(key: CacheKey, n: nat)
    requires n < 10
    ensures
      var e := StaleEvents(key)[n];
      Enabled(StaleState(key, n), e.thread, e.action)
      && Apply(StaleState(key, n), e.thread, e.action) == StaleState(key, n + 1)
  {
    hide Enabled, Apply;
    if n < 3 {
      StaleStepToLead(key, n);
    } else if n < 6 {
      StaleStepToJoin(key, n);
    } else {
      StaleStepAfterJoin(key, n);
    }
  }

  lemma StaleStepToLead(key: CacheKey, n: nat)
    requires n < 3
    ensures
      var e := StaleEvents(key)[n];
      Enabled(StaleState(key, n), e.thread, e.action)
      && Apply(StaleState(key, n), e.thread, e.action) == StaleState(key, n + 1)
  {
  }

  lemma StaleStepToJoin(key: CacheKey, n: nat)
    requires 3 <= n < 6
    ensures
      var e := StaleEvents(key)[n];
      Enabled(StaleState(key, n), e.thread, e.action)
      && Apply(StaleState(key, n), e.thread, e.action) == StaleState(key, n + 1)
  {
  }

  lemma StaleStepAfterJoin(key: CacheKey, n: nat)
    requires 6 <= n < 10
    ensures
      var e := StaleEvents(key)[n];
      Enabled(StaleState(key, n), e.thread, e.action)
      && Apply(StaleState(key, n), e.thread, e.action) == StaleState(key, n + 1)
  {
  }

  lemma StaleStatesAreARun(key: CacheKey)
    ensures IsRun(seq(11, n requires 0 <= n => StaleState(key, n)), StaleEvents(key))
  {
    var states := seq(11, n requires 0 <= n => StaleState(key, n));
    forall n: nat | n < 10
      ensures
        var e := StaleEvents(key)[n];
        Enabled(states[n], e.thread, e.action) && states[n + 1] == Apply(states[n], e.thread, e.action)
    {
      StaleStep(key, n);
    }
    hide Enabled, Apply;
  }

  /** A run in which a call that starts after a drop does return a pre-drop instance. */
  lemma StaleFollowerRun(key: CacheKey)
    ensures IsRun(seq(11, n requires 0 <= n => StaleState(key, n)), StaleEvents(key))
    ensures StaleEvents(key)[3] == Event(1, Drop(key)) && StaleEvents(key)[4] == Event(1, Start(key, 1.0))
    ensures
      var th := StaleState(key, 10).threads[1];
      th.phase == FromLeader && PreDrop(StaleEvents(key), key, 4, th.outcome)
  {
    StaleStatesAreARun(key);
    hide IsRun;
    var e := StaleEvents(key)[3];
    assert e.action == Drop(key);
  }

  // ---- single flight, no orphans ----

  lemma OneLeaderPerKey(states: seq<System>, events: seq<Event>, i: nat, t: nat, u: nat)
    requires IsRun(states, events) && i < |states| && t < |states[i].threads| && u < |states[i].threads|
    requires states[i].threads[t].Leads() && states[i].threads[u].Leads()
    requires states[i].threads[t].key == states[i].threads[u].key
    ensures t == u
  {
    RunInv(states, events, i);
    assert ThreadOk(states[i], t) && ThreadOk(states[i], u);
  }

  /** Cache and expiry always have equal domains, and every epoch belongs to a pending fetch. */
  lemma DomainsAgree(states: seq<System>, events: seq<Event>, i: nat)
    requires IsRun(states, events) && i < |states|
    ensures states[i].shared.cache.Keys == states[i].shared.expiresAt.Keys
    ensures states[i].shared.epochs.Keys <= states[i].shared.pending.Keys
  {
    RunInv(states, events, i);
    forall key ensures KeyOk(states[i], key) {}
    assert forall key :: key in states[i].shared.cache <==> key in states[i].shared.expiresAt by {
      forall key ensures key in states[i].shared.cache <==> key in states[i].shared.expiresAt {
        assert KeyOk(states[i], key);
      }
    }
    forall key | key in states[i].shared.epochs ensures key in states[i].shared.pending {
      assert KeyOk(states[i], key);
    }
  }

  /** How many of its own steps a leader is from returning. */
  function Remaining(phase: Phase): nat {
    match phase
    case Registered => 5
    case EpochRead => 4
    case Configured => 3
    case Refused => 3
    case Settling => 2
    case Leaving => 1
    case _ => 0
  }

  lemma LeaderComesNearer(s: System, l: nat, a: Action)
    requires l < |s.threads| && ThreadOk(s, l)
        && s.threads[l].phase in {Registered, EpochRead, Configured, Refused, Settling}
    requires Enabled(s, l, a)
    ensures Remaining(Apply(s, l, a).threads[l].phase) < Remaining(s.threads[l].phase)
  {
  }

  /** A leader always has a step to take, and each of its steps brings it nearer to returning. */
  lemma LeaderAdvances(s: System, l: nat)
    requires l < |s.threads| && ThreadOk(s, l)
        && s.threads[l].phase in {Registered, EpochRead, Configured, Refused, Settling}
    ensures exists a :: Enabled(s, l, a)
    ensures forall a :: Enabled(s, l, a) ==> Remaining(Apply(s, l, a).threads[l].phase) < Remaining(s.threads[l].phase)
  {
    forall a | Enabled(s, l, a) ensures Remaining(Apply(s, l, a).threads[l].phase) < Remaining(s.threads[l].phase) {
      LeaderComesNearer(s, l, a);
    }
    hide Apply;
    match s.threads[l].phase
    case Registered => assert Enabled(s, l, ReadEpoch);
    case EpochRead => assert Enabled(s, l, ReadConfig);
    case Configured => assert Enabled(s, l, Publish(0, 0.0));
    case Refused => assert Enabled(s, l, Forget(AuthUnavailable));
    case Settling => assert Enabled(s, l, Settle);
  }

  /** A waiting follower is either able to return or has a leader that is still on its way to `set_result`; that
      leader always has a step to take, and each of its steps brings it nearer. */
  lemma FollowerHasHope(states: seq<System>, events: seq<Event>, i: nat, t: nat)
    requires IsRun(states, events) && i < |states| && t < |states[i].threads|
    requires states[i].threads[t].phase == Following
    ensures
      var s := states[i];
      Enabled(s, t, Await) ||
      var f := s.threads[t].future;
      f < |s.flights| && HasLeader(s, f) && Remaining(s.threads[s.flights[f].leader].phase) >= 2
      && s.threads[s.flights[f].leader].key == s.threads[t].key
      && (exists a :: Enabled(s, s.flights[f].leader, a))
      && (forall a :: Enabled(s, s.flights[f].leader, a) ==>
            Remaining(Apply(s, s.flights[f].leader, a).threads[s.flights[f].leader].phase)
              < Remaining(s.threads[s.flights[f].leader].phase))
  {
    var s := states[i];
    RunInv(states, events, i);
    assert ThreadOk(s, t);
    var f := s.threads[t].future;
    assert FlightOk(s, f);
    if s.flights[f].result.None? {
      var l := s.flights[f].leader;
      assert ThreadOk(s, l);
      hide ThreadOk, FlightOk, Apply, Enabled, IsRun;
      LeaderAdvances(s, l);
    }
  }

  /** Whoever returned through the same future, its leader included, returned the same outcome. */
  lemma SharedOutcome(states: seq<System>, events: seq<Event>, i: nat, t: nat, u: nat)
    requires IsRun(states, events) && i < |states| && t < |states[i].threads| && u < |states[i].threads|
    requires states[i].threads[t].phase in {FromLeader, OwnFetch}
        && states[i].threads[u].phase in {FromLeader, OwnFetch}
    requires states[i].threads[t].future == states[i].threads[u].future
    ensures states[i].threads[t].outcome == states[i].threads[u].outcome
    ensures states[i].threads[t].key == states[i].threads[u].key
  {
    RunInv(states, events, i);
    assert ThreadOk(states[i], t) && ThreadOk(states[i], u);
  }

  /** What it is: the instance that the leader built, cached or not, and tagged with the step at which it had read its
      epoch, or the error it met; the leader leaves neither pending fetch nor epoch behind. */
  lemma OutcomeIsTheLeaders(states: seq<System>, events: seq<Event>, i: nat)
    requires IsRun(states, events) && i < |events|
    ensures events[i].thread < |states[i].threads| == |states[i + 1].threads|
    ensures
      var a, th, th1 := events[i].action, states[i].threads[events[i].thread], states[i + 1].threads[events[i].thread];
      match a
      case ReadEpoch => th1.at == i + 1
      case Publish(serial, _) => th1.outcome == Built(Instance(serial, th.at)) && th1.phase == Settling
      case Forget(error) => th1.outcome == Raised(error) && th1.phase == Settling
      case Interrupt(error) => th1.outcome == Raised(error) && th1.phase == Settling
      case Settle =>
        th.future < |states[i + 1].flights| && states[i + 1].flights[th.future].result == Some(th.outcome)
        && th1.outcome == th.outcome
      case Leave =>
        th1.phase == OwnFetch && th1.outcome == th.outcome
        && th.key !in states[i + 1].shared.pending && th.key !in states[i + 1].shared.epochs
      case Await =>
        th.future < |states[i].flights| && states[i].flights[th.future].result == Some(th1.outcome)
        && th1.phase == FromLeader
      case _ => true
  {
    RunInv(states, events, i);
    assert Enabled(states[i], events[i].thread, events[i].action);
    hide Inv, EnterBlock, DropBlock, PublishBlock;
  }
}
