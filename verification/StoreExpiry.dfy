/**
  The time to live over whole runs of the store: what is served from the cache was published for that key, and was not
  expired when the caller looked at the clock.
 */
module StoreExpiry {
  import opened Options
  import opened StoreBlocks
  import opened StoreProtocol

  /** At event `j` the leader of a fetch of `key` has built `instance` and comes with an expiry for it. */
  ghost predicate Publishes(
    states: seq<System>, events: seq<Event>, j: nat, key: CacheKey, instance: Instance, expiry: real)
    requires j < |events| < |states|
  {
    var t := events[j].thread;
    && events[j].action == Publish(instance.serial, expiry)
    && t < |states[j].threads| && states[j].threads[t].key == key
    && t < |states[j + 1].threads| && states[j + 1].threads[t].outcome == Built(instance)
  }

  /** No drop of the key among the first `i` events comes at or after step `at` (the event at index j happens at step
      j + 1). */
  ghost predicate NoDropSince(events: seq<Event>, key: CacheKey, at: nat, i: nat)
    requires i <= |events|
  {
    forall j :: 0 <= j < i && events[j].action == Drop(key) ==> j + 1 < at
  }

  /** The entries that two states have for a key, instance and expiry, are the same. */
  predicate SameEntry(s: Shared, s1: Shared, key: CacheKey) {
    && (key in s1.cache <==> key in s.cache) && (key in s.cache ==> s1.cache[key] == s.cache[key])
    && (key in s1.expiresAt <==> key in s.expiresAt)
    && (key in s.expiresAt ==> s1.expiresAt[key] == s.expiresAt[key])
  }

  /** What one event does to the entry of a key: a drop, or an HTTP error met by a fetch of the key, removes it; a
      fetch of the key replaces it if the key was not dropped since the fetch read its epoch; nothing else touches
      it. */
  lemma EntryChanges(states: seq<System>, events: seq<Event>, i: nat, key: CacheKey)
    requires IsRun(states, events) && i < |events|
    ensures events[i].thread < |states[i].threads|
    ensures
      var a, th, s1 := events[i].action, states[i].threads[events[i].thread], states[i + 1].shared;
      if a == Drop(key) || (a.Forget? && th.key == key) then key !in s1.cache && key !in s1.expiresAt
      else if a.Publish? && th.key == key && NoDropSince(events, key, th.at, i) then
        && key in s1.cache && s1.cache[key] == Instance(a.serial, th.at)
        && key in s1.expiresAt && s1.expiresAt[key] == a.expiry
      else SameEntry(states[i].shared, s1, key)
  {
    var a, t := events[i].action, events[i].thread;
    RunInv(states, events, i);
    assert Enabled(states[i], t, a) && states[i + 1] == Apply(states[i], t, a);
    if a.Publish? {
      assert ThreadOk(states[i], t);
      assert KeyOk(states[i], key);
      NoDropMeans(states, events, key, states[i].threads[t].at, i);
      hide IsRun, Enabled, Inv, NoDropSince, ThreadOk, KeyOk;
      PublishCachesExactlyWhen(states[i], t, a.serial, a.expiry, key);
    } else {
      hide IsRun, Inv, ThreadOk, KeyOk, NoDropSince, EpochOf, ExpiryOf;
    }
  }

  lemma NoDropMeans(states: seq<System>, events: seq<Event>, key: CacheKey, at: nat, i: nat)
    requires IsRun(states, events) && i <= |events| && at >= 1
    ensures NoDropSince(events, key, at, i) <==> at > DropOf(states[i], key)
  {
    hide Enabled, Apply;
    forall j | 0 <= j < i && events[j].action == Drop(key) ensures j + 1 <= DropOf(states[i], key) {
      DropsRecorded(states, events, j, i);
    }
    if DropOf(states[i], key) > 0 {
      var j := LastDropHappened(states, events, key, i);
    }
  }

  lemma PublishCachesExactlyWhen(s: System, t: nat, serial: nat, expiry: real, key: CacheKey)
    requires Enabled(s, t, Publish(serial, expiry)) && ThreadOk(s, t)
    ensures
      var th, s1 := s.threads[t], Apply(s, t, Publish(serial, expiry)).shared;
      && th.at >= 1
      && if th.key == key && th.at > DropOf(s, key) then
           && key in s1.cache && s1.cache[key] == Instance(serial, th.at)
           && key in s1.expiresAt && s1.expiresAt[key] == expiry
         else SameEntry(s.shared, s1, key)
  {
  }

  /** Whatever is cached was built and published for its key, and expires when the publisher said; and the key has not
      been dropped, nor met an HTTP error, since then. */
  lemma {:induction false} CachedWasPublished(states: seq<System>, events: seq<Event>, key: CacheKey, i: nat)
    returns (j: nat)
    requires IsRun(states, events) && i < |states|
    requires key in states[i].shared.cache || key in states[i].shared.expiresAt
    ensures j < i && key in states[i].shared.cache && key in states[i].shared.expiresAt
    ensures Publishes(states, events, j, key, states[i].shared.cache[key], states[i].shared.expiresAt[key])
    ensures forall n :: j < n < i ==> events[n].action != Drop(key)
    ensures forall n :: j < n < i && events[n].action.Forget? && events[n].thread < |states[n].threads| ==>
              states[n].threads[events[n].thread].key != key
  {
    hide Enabled, Apply, NoDropSince, Publishes, EpochOf, ExpiryOf;
    EntryChanges(states, events, i - 1, key);
    if PublishesEntry(states, events, i - 1, key) {
      j := i - 1;
      EntryPublished(states, events, j, key);
    } else {
      j := CachedWasPublished(states, events, key, i - 1);
    }
  }

  ghost predicate PublishesEntry(states: seq<System>, events: seq<Event>, j: nat, key: CacheKey)
    requires j < |events| < |states|
  {
    var t := events[j].thread;
    events[j].action.Publish? && t < |states[j].threads| && states[j].threads[t].key == key
    && NoDropSince(events, key, states[j].threads[t].at, j)
  }

  lemma EntryPublished(states: seq<System>, events: seq<Event>, j: nat, key: CacheKey)
    requires IsRun(states, events) && j < |events| && PublishesEntry(states, events, j, key)
    ensures
      var a, th := events[j].action, states[j].threads[events[j].thread];
      Publishes(states, events, j, key, Instance(a.serial, th.at), a.expiry)
  {
    var a, t := events[j].action, events[j].thread;
    assert Enabled(states[j], t, a) && states[j + 1] == Apply(states[j], t, a);
    hide IsRun, EpochOf, ExpiryOf, NoDropSince;
  }

  // ---- the look under the lock ----

  /** The entry of a key is there and has not expired. */
  predicate Unexpired(s: Shared, key: CacheKey, now: real) {
    key in s.cache && key in s.expiresAt && now <= s.expiresAt[key]
  }

  /** Under the lock, an entry that is there and has not expired is served, without a fetch; otherwise the caller joins
      the pending fetch of the key or, if there is none, starts one. */
  lemma EnterServesExactlyWhen(states: seq<System>, events: seq<Event>, i: nat)
    requires IsRun(states, events) && i < |events| && events[i].action.Enter?
    ensures events[i].thread < |states[i].threads| == |states[i + 1].threads|
    ensures
      var s, s1, t, now := states[i], states[i + 1], events[i].thread, events[i].action.now;
      var key, th1 := s.threads[t].key, s1.threads[t];
      && th1.key == key
      && (if Unexpired(s.shared, key, now) then
            th1.phase == FromCache && th1.outcome == Built(s.shared.cache[key]) && s1.shared == s.shared
          else if key in s.shared.pending then
            th1.phase == Following && th1.future == s.shared.pending[key] && s1.shared == s.shared
          else
            th1.phase == Registered && th1.future == |s.flights| && s1.flights == s.flights + [Flight(t, key, None)]
            && s1.shared == s.shared.(pending := s.shared.pending[key := |s.flights|]))
      && (key in s.shared.pending || Unexpired(s.shared, key, now) ==> s1.flights == s.flights)
  {
    var s, t, a := states[i], events[i].thread, events[i].action;
    RunInv(states, events, i);
    assert Enabled(s, t, a) && states[i + 1] == Apply(s, t, a);
    assert KeyOk(s, s.threads[t].key);
    hide IsRun, Inv, KeyLed;
  }

  /** Hence what is served under the lock was published before for that key, with an expiry that has not passed. */
  lemma ServedUnderLock(states: seq<System>, events: seq<Event>, i: nat) returns (j: nat)
    requires IsRun(states, events) && i < |events| && events[i].action.Enter?
    requires events[i].thread < |states[i + 1].threads| && states[i + 1].threads[events[i].thread].phase == FromCache
    ensures j < i && events[j].action.Publish? && events[i].action.now <= events[j].action.expiry
    ensures
      var th1 := states[i + 1].threads[events[i].thread];
      && th1.outcome.Built?
      && Publishes(states, events, j, th1.key, th1.outcome.instance, events[j].action.expiry)
  {
    EnterServesExactlyWhen(states, events, i);
    hide Enabled, Apply;
    j := CachedWasPublished(states, events, states[i].threads[events[i].thread].key, i);
  }

  // ---- the look without the lock ----

  /** Without the lock the expiry is looked at as the call begins (a missing one counts as zero), and the cache later:
      then whatever is cached by then is served, and otherwise the caller goes for the lock. */
  lemma LookServesExactlyWhen(states: seq<System>, events: seq<Event>, i: nat)
    requires IsRun(states, events) && i < |events|
    ensures events[i].thread < |states[i].threads| == |states[i + 1].threads|
    ensures
      var s, s1, a := states[i], states[i + 1], events[i].action;
      var th, th1 := s.threads[events[i].thread], s1.threads[events[i].thread];
      && (a.Start? ==>
            && th1.key == a.key && s1.shared == s.shared
            && th1.phase == if (a.key in s.shared.expiresAt && a.now <= s.shared.expiresAt[a.key])
                               || (a.key !in s.shared.expiresAt && a.now <= 0.0) then Looking else Entering)
      && (a.ReadCache? ==>
            && th.phase == Looking && th1.key == th.key && s1.shared == s.shared
            && if th.key in s.shared.cache
               then th1.phase == FromCache && th1.outcome == Built(s.shared.cache[th.key])
               else th1.phase == Entering)
  {
    var s, t, a := states[i], events[i].thread, events[i].action;
    assert Enabled(s, t, a) && states[i + 1] == Apply(s, t, a);
    hide IsRun;
  }

  /** A call begins to look at the cache only with an expiry that was published before for the key and has not passed
      (or at a clock that has not reached zero). */
  lemma LooksOnlyUnexpired(states: seq<System>, events: seq<Event>, m: nat)
    requires IsRun(states, events) && m < |events| && events[m].action.Start? && events[m].action.now > 0.0
    requires events[m].thread < |states[m + 1].threads| && states[m + 1].threads[events[m].thread].phase == Looking
    ensures exists j, instance, expiry :: 0 <= j < m && events[m].action.now <= expiry
              && Publishes(states, events, j, events[m].action.key, instance, expiry)
  {
    LookServesExactlyWhen(states, events, m);
    var key := events[m].action.key;
    hide Enabled, Apply, Publishes;
    var j := CachedWasPublished(states, events, key, m);
    assert Publishes(states, events, j, key, states[m].shared.cache[key], states[m].shared.expiresAt[key]);
  }

  // ---- whole calls ----

  /** A call that is still looking has looked since it began. */
  lemma {:induction false} LooksSinceItBegan(
    states: seq<System>, events: seq<Event>, t: nat, key: CacheKey, m: nat, i: nat)
    requires InCall(states, events, t, key, m, i)
    ensures t < |states[i].threads| == |states[m + 1].threads|
    ensures states[i].threads[t].phase == Looking ==> states[m + 1].threads[t].phase == Looking
  {
    RunInv(states, events, m + 1);
    RunInv(states, events, i);
    CallKeepsItsStart(states, events, t, key, m, i);
    if i > m + 1 {
      LooksSinceItBegan(states, events, t, key, m, i - 1);
      var s, e := states[i - 1], events[i - 1];
      assert Enabled(s, e.thread, e.action) && states[i] == Apply(s, e.thread, e.action);
      hide Inv, IsRun;
      LookingStep(s, e.thread, e.action, t);
    }
  }

  lemma LookingStep(s: System, u: nat, a: Action, t: nat)
    requires Enabled(s, u, a) && t < |s.threads| && !(u == t && a.Start?)
    ensures
      var s1 := Apply(s, u, a);
      && t < |s1.threads|
      && (s1.threads[t].phase == Looking ==> s.threads[t].phase == Looking)
      && (s1.threads[t].phase == FromCache && !(u == t && (a.Enter? || a.ReadCache?)) ==>
            s.threads[t].phase == FromCache && s1.threads[t].outcome == s.threads[t].outcome)
  {
  }

  /** A call that was served from the cache got an instance that was published for its key, and looked at the clock
      before it had expired: under the lock, at its expiry; otherwise as the call began, at an expiry published for the
      key before that (which is the instance's own unless it was replaced in between). */
  lemma {:induction false} ServedInTime(
    states: seq<System>, events: seq<Event>, t: nat, key: CacheKey, m: nat, i: nat) returns (n: nat, j: nat)
    requires InCall(states, events, t, key, m, i) && events[m].action.now > 0.0
    requires t < |states[i].threads| && states[i].threads[t].phase == FromCache
    ensures j < n && m < n < i && events[n].thread == t && events[j].action.Publish?
    ensures states[i].threads[t].outcome.Built?
    ensures Publishes(states, events, j, key, states[i].threads[t].outcome.instance, events[j].action.expiry)
    ensures
      || (events[n].action.Enter? && events[n].action.now <= events[j].action.expiry)
      || (events[n].action.ReadCache?
          && exists k, other, expiry :: 0 <= k < m && events[m].action.now <= expiry
               && Publishes(states, events, k, key, other, expiry))
  {
    hide Apply, Enabled, Publishes, InCall;
    CallSoFar(states, events, t, key, m, i);
    n := i - 1;
    if events[n].thread == t && events[n].action.Enter? {
      j := ServedUnderLock(states, events, n);
    } else if events[n].thread == t && events[n].action.ReadCache? {
      j := ServedByLook(states, events, t, key, m, n);
    } else {
      n, j := ServedInTime(states, events, t, key, m, i - 1);
    }
  }

  /** The event before a call is seen as served from the cache either served it or found it served. */
  lemma CallSoFar(states: seq<System>, events: seq<Event>, t: nat, key: CacheKey, m: nat, i: nat)
    requires InCall(states, events, t, key, m, i)
    requires t < |states[i].threads| && states[i].threads[t].phase == FromCache
    ensures i > m + 1 && InCall(states, events, t, key, m, i - 1) && IsRun(states, events)
    ensures i <= |events| && states[i].threads[t].key == key
    ensures (events[i - 1].thread == t && (events[i - 1].action.Enter? || events[i - 1].action.ReadCache?))
            || (t < |states[i - 1].threads| && states[i - 1].threads[t].phase == FromCache
                && states[i - 1].threads[t].outcome == states[i].threads[t].outcome)
  {
    CallKeepsItsStart(states, events, t, key, m, i);
    JustBegun(states, events, t, key, m);
    CallKeepsItsStart(states, events, t, key, m, i - 1);
    var s, e := states[i - 1], events[i - 1];
    assert Enabled(s, e.thread, e.action) && states[i] == Apply(s, e.thread, e.action);
    hide Apply, Enabled;
    LookingStep(s, e.thread, e.action, t);
  }

  lemma ServedByLook(states: seq<System>, events: seq<Event>, t: nat, key: CacheKey, m: nat, n: nat)
    returns (j: nat)
    requires InCall(states, events, t, key, m, n) && events[m].action.now > 0.0
    requires n < |events| && events[n] == Event(t, ReadCache)
    requires t < |states[n + 1].threads| && states[n + 1].threads[t].phase == FromCache
    ensures j < n && events[j].action.Publish? && states[n + 1].threads[t].outcome.Built?
    ensures Publishes(states, events, j, key, states[n + 1].threads[t].outcome.instance, events[j].action.expiry)
    ensures exists k, other, expiry :: 0 <= k < m && events[m].action.now <= expiry
              && Publishes(states, events, k, key, other, expiry)
  {
    CallKeepsItsStart(states, events, t, key, m, n);
    LookServesExactlyWhen(states, events, n);
    LooksSinceItBegan(states, events, t, key, m, n);
    hide Apply, Enabled;
    j := CachedWasPublished(states, events, key, n);
    hide Publishes;
    LooksOnlyUnexpired(states, events, m);
  }

  lemma JustBegun(states: seq<System>, events: seq<Event>, t: nat, key: CacheKey, m: nat)
    requires IsRun(states, events) && m < |events| && events[m].thread == t && events[m].action.Start?
    ensures t < |states[m + 1].threads| && states[m + 1].threads[t].phase in {Looking, Entering}
  {
  }
}
