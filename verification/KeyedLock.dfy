/**
  The self-cleaning map of asyncio locks. A coroutine runs without interruption between two `await`s, so each
  step below is the code from one suspension to the next. `Lock` is the lock of the asyncio library: a flag and
  the futures of its waiters, which are resolved (or cancelled) some time before their coroutines resume.
 */
module LockSteps {
  import opened Options

  type Key = string

  datatype Wakeup = Pending | Resolved | Cancelled

  /** `cancelled`: the task was cancelled and will see CancelledError when it resumes. */
  datatype Coroutine =
    | Outside
    | Waiting(key: Key, lock: nat, future: Wakeup, cancelled: bool)
    | Inside(key: Key, lock: nat)

  /** Waiters are coroutine numbers, in queueing order. `key` and `holder` are history. */
  datatype Lock = Lock(locked: bool, waiters: seq<nat>, key: Key, holder: Option<nat>)

  /** `locks` is the map of the source; lock objects are numbered in creation order. */
  datatype System = System(locks: map<Key, nat>, objects: seq<Lock>, coroutines: seq<Coroutine>)

  datatype Step = Enter(c: nat, key: Key) | Resume(c: nat) | Cancel(c: nat) | ResumeCancelled(c: nat) | Exit(c: nat)

  predicate IsWaiting(s: System, c: nat) {
    c < |s.coroutines| && s.coroutines[c].Waiting? && s.coroutines[c].lock < |s.objects|
  }

  predicate Enabled(s: System, step: Step) {
    step.c < |s.coroutines| &&
    var co := s.coroutines[step.c];
    match step
    case Enter(_, key) => co.Outside? && (key in s.locks ==> s.locks[key] < |s.objects|)
    case Resume(c) => IsWaiting(s, c) && co.future.Resolved? && !co.cancelled
    case Cancel(c) => IsWaiting(s, c) && !co.cancelled
    case ResumeCancelled(c) => IsWaiting(s, c) && co.cancelled
    case Exit(c) => co.Inside? && co.lock < |s.objects|
  }

  /** The waiters after `remove(c)`, which takes out the first occurrence. */
  function Without(ws: seq<nat>, c: nat): (r: seq<nat>)
    ensures forall w :: w in r ==> w in ws
    ensures forall w :: w in ws && w != c ==> w in r
    ensures ws != [] && ws[0] != c ==> r != [] && r[0] == ws[0]
    ensures ws != [] && ws[0] == c ==> r == ws[1..]
    ensures c !in ws ==> r == ws
  {
    if ws == [] then [] else if ws[0] == c then ws[1..] else [ws[0]] + Without(ws[1..], c)
  }

  /** Whether the lock's future of coroutine `c` was cancelled. */
  predicate FutureCancelled(coroutines: seq<Coroutine>, c: nat) {
    c < |coroutines| && coroutines[c].Waiting? && coroutines[c].future.Cancelled?
  }

  /** `_wake_up_first`: resolves the first waiter's future unless it is already done. */
  function WakeFirst(coroutines: seq<Coroutine>, waiters: seq<nat>): (r: seq<Coroutine>)
    ensures |r| == |coroutines|
  {
    if waiters != [] && waiters[0] < |coroutines| && coroutines[waiters[0]].Waiting?
        && coroutines[waiters[0]].future.Pending?
    then coroutines[waiters[0] := coroutines[waiters[0]].(future := Resolved)]
    else coroutines
  }

  /** `_get`: the lock of a key, created on demand. */
  function Get(s: System, key: Key): (System, nat) {
    if key in s.locks then (s, s.locks[key])
    else (s.(locks := s.locks[key := |s.objects|], objects := s.objects + [Lock(false, [], key, None)]), |s.objects|)
  }

  /** `_maybe_drop`. */
  function MaybeDrop(s: System, key: Key): System {
    if key in s.locks && s.locks[key] < |s.objects| && Unused(s, key) then s.(locks := s.locks - {key}) else s
  }

  /** An entry with neither a holder nor a waiter. */
  predicate Unused(s: System, key: Key) {
    key in s.locks && s.locks[key] < |s.objects| && !s.objects[s.locks[key]].locked
        && s.objects[s.locks[key]].waiters == []
  }

  function ApplyEnter(s: System, c: nat, key: Key): System
    requires Enabled(s, Enter(c, key))
  {
    var (s1, l) := Get(s, key);
    var lock := s1.objects[l];
    if !lock.locked && forall w :: w in lock.waiters ==> FutureCancelled(s.coroutines, w) then
      s1.(objects := s1.objects[l := lock.(locked := true, holder := Some(c))],
          coroutines := s.coroutines[c := Inside(key, l)])
    else
      s1.(objects := s1.objects[l := lock.(waiters := lock.waiters + [c])],
          coroutines := s.coroutines[c := Waiting(key, l, Pending, false)])
  }

  function ApplyResume(s: System, c: nat): System
    requires Enabled(s, Resume(c))
  {
    var co := s.coroutines[c];
    var lock := s.objects[co.lock];
    s.(objects := s.objects[co.lock := lock.(locked := true, waiters := Without(lock.waiters, c), holder := Some(c))],
       coroutines := s.coroutines[c := Inside(co.key, co.lock)])
  }

  function ApplyResumeCancelled(s: System, c: nat): System
    requires Enabled(s, ResumeCancelled(c))
  {
    var co := s.coroutines[c];
    var lock := s.objects[co.lock];
    var waiters := Without(lock.waiters, c);
    var coroutines := s.coroutines[c := Outside];
    s.(objects := s.objects[co.lock := lock.(waiters := waiters)],
       coroutines := if lock.locked then coroutines else WakeFirst(coroutines, waiters))
  }

  /** `release`, then `_maybe_drop`. */
  function Release(s: System, c: nat): System
    requires Enabled(s, Exit(c))
  {
    var l := s.coroutines[c].lock;
    var lock := s.objects[l];
    s.(objects := s.objects[l := lock.(locked := false, holder := None)],
       coroutines := WakeFirst(s.coroutines[c := Outside], lock.waiters))
  }

  function Apply(s: System, step: Step): System
    requires Enabled(s, step)
  {
    match step
    case Enter(c, key) => ApplyEnter(s, c, key)
    case Resume(c) => ApplyResume(s, c)
    case Cancel(c) =>
      var co := s.coroutines[c];
      s.(coroutines := s.coroutines[c :=
          co.(cancelled := true, future := if co.future.Pending? then Cancelled else co.future)])
    case ResumeCancelled(c) => ApplyResumeCancelled(s, c)
    case Exit(c) => MaybeDrop(Release(s, c), s.coroutines[c].key)
  }

  ghost predicate Init(s: System) {
    s.locks == map[] && s.objects == [] && forall c :: 0 <= c < |s.coroutines| ==> s.coroutines[c].Outside?
  }

  ghost predicate IsRun(states: seq<System>, steps: seq<Step>) {
    && |states| == |steps| + 1
    && Init(states[0])
    && forall i :: 0 <= i < |steps| ==> Enabled(states[i], steps[i]) && states[i + 1] == Apply(states[i], steps[i])
  }
}

/** The map object and the parts of the asyncio lock that it drives. */
module KeyedLocks {
  import opened Options
  import opened LockSteps

  class KeyedLock {
    var locks: map<Key, nat>
    var objects: seq<Lock>
    var coroutines: seq<Coroutine>

    ghost function View(): System
      reads this
    {
      System(locks, objects, coroutines)
    }

    constructor (coroutineCount: nat)
      ensures Init(View()) && |coroutines| == coroutineCount
    {
      locks, objects := map[], [];
      coroutines := seq(coroutineCount, _ => Outside);
    }

    method GetLock(key: Key) returns (l: nat)
      modifies this
      ensures (View(), l) == Get(old(View()), key)
    {
      if key in locks {
        return locks[key];
      }
      l := |objects|;
      objects := objects + [Lock(false, [], key, None)];
      locks := locks[key := l];
    }

    method DropIfUnused(key: Key)
      modifies this
      ensures View() == MaybeDrop(old(View()), key)
    {
      if key in locks && locks[key] < |objects| {
        var lock := objects[locks[key]];
        if !lock.locked && lock.waiters == [] {
          locks := locks - {key};
        }
      }
    }

    /** `__aenter__` up to its suspension: takes the lock at once, or queues behind the other waiters. */
    method AEnter(c: nat, key: Key) returns (entered: bool)
      requires Enabled(View(), Enter(c, key))
      modifies this
      ensures View() == Apply(old(View()), Enter(c, key))
      ensures entered <==> coroutines[c].Inside?
    {
      var l := GetLock(key);
      var lock := objects[l];
      var allCancelled := true;
      for i := 0 to |lock.waiters|
        invariant allCancelled <==> forall w :: w in lock.waiters[..i] ==> FutureCancelled(coroutines, w)
      {
        var w := lock.waiters[i];
        assert lock.waiters[..i + 1] == lock.waiters[..i] + [w];
        assert w in lock.waiters[..i + 1];
        if !(w < |coroutines| && coroutines[w].Waiting? && coroutines[w].future.Cancelled?) {
          allCancelled := false;
        }
      }
      assert lock.waiters[..|lock.waiters|] == lock.waiters;
      entered := !lock.locked && allCancelled;
      if entered {
        objects := objects[l := lock.(locked := true, holder := Some(c))];
        coroutines := coroutines[c := Inside(key, l)];
      } else {
        objects := objects[l := lock.(waiters := lock.waiters + [c])];
        coroutines := coroutines[c := Waiting(key, l, Pending, false)];
      }
    }

    method WakeUpFirst(l: nat)
      requires l < |objects|
      modifies this
      ensures View() == old(View()).(coroutines := WakeFirst(old(coroutines), old(objects)[l].waiters))
    {
      if objects[l].waiters != [] {
        var w := objects[l].waiters[0];
        if w < |coroutines| && coroutines[w].Waiting? && coroutines[w].future.Pending? {
          coroutines := coroutines[w := coroutines[w].(future := Resolved)];
        }
      }
    }

    /** `__aexit__`: releases, wakes the first waiter and drops the entry if nobody wants it. */
    method AExit(c: nat)
      requires Enabled(View(), Exit(c))
      modifies this
      ensures View() == Apply(old(View()), Exit(c))
    {
      var key, l := coroutines[c].key, coroutines[c].lock;
      coroutines := coroutines[c := Outside];
      objects := objects[l := objects[l].(locked := false, holder := None)];
      WakeUpFirst(l);
      DropIfUnused(key);
    }
  }
}

module LockProofs {
  import opened Options
  import opened LockSteps

  ghost predicate Distinct(ws: seq<nat>) {
    forall i, j :: 0 <= i < j < |ws| ==> ws[i] != ws[j]
  }

  /** A lock is locked while it has a holder, only its first waiter may have been woken and only while it is free,
      and a free lock never leaves its first waiter asleep. */
  ghost predicate LockOk(s: System, l: nat)
    requires l < |s.objects|
  {
    var lock := s.objects[l];
    && Distinct(lock.waiters)
    && (lock.locked <==> lock.holder.Some?)
    && (forall w :: w in lock.waiters ==>
          && w < |s.coroutines| && s.coroutines[w].Waiting? && s.coroutines[w].lock == l
          && (s.coroutines[w].future.Resolved? ==> !lock.locked && w == lock.waiters[0]))
    && (!lock.locked && lock.waiters != [] ==>
          lock.waiters[0] < |s.coroutines| && s.coroutines[lock.waiters[0]].Waiting?
          && !s.coroutines[lock.waiters[0]].future.Pending?)
  }

  /** A holder or waiter uses the lock object that is in the map now. */
  ghost predicate CoroutineOk(s: System, c: nat)
    requires c < |s.coroutines|
  {
    match s.coroutines[c]
    case Outside => true
    case Waiting(key, l, future, cancelled) =>
      && key in s.locks && s.locks[key] == l && l < |s.objects| && c in s.objects[l].waiters
      && (future.Pending? ==> !cancelled) && (future.Cancelled? ==> cancelled)
    case Inside(key, l) =>
      key in s.locks && s.locks[key] == l && l < |s.objects| && s.objects[l].holder == Some(c)
  }

  ghost predicate KeyOk(s: System, key: Key) {
    key in s.locks ==> s.locks[key] < |s.objects| && s.objects[s.locks[key]].key == key
  }

  ghost predicate Inv(s: System) {
    && (forall l :: 0 <= l < |s.objects| ==> LockOk(s, l))
    && (forall c :: 0 <= c < |s.coroutines| ==> CoroutineOk(s, c))
    && (forall key :: KeyOk(s, key))
  }

  lemma WithoutDistinct(ws: seq<nat>, c: nat)
    requires Distinct(ws)
    ensures Distinct(Without(ws, c)) && c !in Without(ws, c)
  {
    if ws != [] {
      assert ws[0] !in ws[1..];
      if ws[0] != c {
        WithoutDistinct(ws[1..], c);
      }
    }
  }

  lemma EnterHolds(s: System, c: nat, key: Key)
    requires Inv(s) && Enabled(s, Enter(c, key))
    ensures Inv(Apply(s, Enter(c, key)))
  {
    var s1 := Apply(s, Enter(c, key));
    assert KeyOk(s, key) && (key in s.locks ==> LockOk(s, s.locks[key]));
    forall l | 0 <= l < |s1.objects| ensures LockOk(s1, l) {
      if l < |s.objects| { assert LockOk(s, l); }
    }
    forall d | 0 <= d < |s1.coroutines| ensures CoroutineOk(s1, d) { assert CoroutineOk(s, d); }
    forall k ensures KeyOk(s1, k) { assert KeyOk(s, k); }
  }

  lemma ResumeHolds(s: System, c: nat)
    requires Inv(s) && Enabled(s, Resume(c))
    ensures Inv(Apply(s, Resume(c)))
  {
    var s1 := Apply(s, Resume(c));
    var l0 := s.coroutines[c].lock;
    assert CoroutineOk(s, c) && LockOk(s, l0);
    WithoutDistinct(s.objects[l0].waiters, c);
    forall l | 0 <= l < |s1.objects| ensures LockOk(s1, l) { assert LockOk(s, l); }
    forall d | 0 <= d < |s1.coroutines| ensures CoroutineOk(s1, d) { assert CoroutineOk(s, d); }
    forall k ensures KeyOk(s1, k) { assert KeyOk(s, k); }
  }

  lemma CancelHolds(s: System, c: nat)
    requires Inv(s) && Enabled(s, Cancel(c))
    ensures Inv(Apply(s, Cancel(c)))
  {
    var s1 := Apply(s, Cancel(c));
    forall l | 0 <= l < |s1.objects| ensures LockOk(s1, l) { assert LockOk(s, l); }
    forall d | 0 <= d < |s1.coroutines| ensures CoroutineOk(s1, d) { assert CoroutineOk(s, d); }
    forall k ensures KeyOk(s1, k) { assert KeyOk(s, k); }
  }

  lemma ResumeCancelledKeepsLock(s: System, c: nat, l: nat)
    requires Enabled(s, ResumeCancelled(c)) && CoroutineOk(s, c) && l < |s.objects| && LockOk(s, l)
    requires LockOk(s, s.coroutines[c].lock)
    ensures LockOk(Apply(s, ResumeCancelled(c)), l)
  {
    var lock, s1 := s.objects[l], Apply(s, ResumeCancelled(c));
    if s.coroutines[c].lock == l {
      WithoutDistinct(lock.waiters, c);
      var waiters := s1.objects[l].waiters;
      assert forall w :: w in waiters ==> w in lock.waiters && w != c;
      assert waiters != [] ==> waiters[0] in waiters;
    } else {
      assert c !in lock.waiters;
      var others := s1.objects[s.coroutines[c].lock].waiters;
      assert others != [] ==> others[0] in s.objects[s.coroutines[c].lock].waiters;
    }
  }

  lemma ResumeCancelledHolds(s: System, c: nat)
    requires Inv(s) && Enabled(s, ResumeCancelled(c))
    ensures Inv(Apply(s, ResumeCancelled(c)))
  {
    var s1 := Apply(s, ResumeCancelled(c));
    assert CoroutineOk(s, c) && LockOk(s, s.coroutines[c].lock);
    forall l | 0 <= l < |s1.objects| ensures LockOk(s1, l) {
      assert LockOk(s, l);
      ResumeCancelledKeepsLock(s, c, l);
    }
    forall d | 0 <= d < |s1.coroutines| ensures CoroutineOk(s1, d) { assert CoroutineOk(s, d); }
    forall k ensures KeyOk(s1, k) { assert KeyOk(s, k); }
  }

  lemma ExitHolds(s: System, c: nat)
    requires Inv(s) && Enabled(s, Exit(c))
    ensures Inv(Apply(s, Exit(c)))
  {
    var s1 := Apply(s, Exit(c));
    var l0 := s.coroutines[c].lock;
    assert CoroutineOk(s, c) && LockOk(s, l0);
    assert |s1.objects| == |s.objects| && |s1.coroutines| == |s.coroutines|;
    forall l | 0 <= l < |s1.objects| ensures LockOk(s1, l) {
      assert LockOk(s, l);
      ExitKeepsLock(s, c, l);
    }
    forall d | 0 <= d < |s1.coroutines| ensures CoroutineOk(s1, d) {
      assert CoroutineOk(s, d);
      ExitKeepsCoroutine(s, c, d);
    }
    forall k ensures KeyOk(s1, k) { assert KeyOk(s, k); }
  }

  lemma ExitKeepsLock(s: System, c: nat, l: nat)
    requires Enabled(s, Exit(c)) && CoroutineOk(s, c) && l < |s.objects| && LockOk(s, l)
    requires LockOk(s, s.coroutines[c].lock)
    ensures l < |Apply(s, Exit(c)).objects| && LockOk(Apply(s, Exit(c)), l)
  {
  }

  lemma ExitKeepsCoroutine(s: System, c: nat, d: nat)
    requires Enabled(s, Exit(c)) && CoroutineOk(s, c) && d < |s.coroutines| && CoroutineOk(s, d)
    requires LockOk(s, s.coroutines[c].lock)
    ensures d < |Apply(s, Exit(c)).coroutines| && CoroutineOk(Apply(s, Exit(c)), d)
  {
  }

  lemma InvHolds(s: System, step: Step)
    requires Inv(s) && Enabled(s, step)
    ensures Inv(Apply(s, step))
  {
    match step
    case Enter(c, key) => EnterHolds(s, c, key);
    case Resume(c) => ResumeHolds(s, c);
    case Cancel(c) => CancelHolds(s, c);
    case ResumeCancelled(c) => ResumeCancelledHolds(s, c);
    case Exit(c) => ExitHolds(s, c);
  }

  lemma {:induction false} RunInv(states: seq<System>, steps: seq<Step>, i: nat)
    requires IsRun(states, steps) && i < |states|
    ensures Inv(states[i])
  {
    if i == 0 {
      forall k ensures KeyOk(states[0], k) {}
    } else {
      RunInv(states, steps, i - 1);
      InvHolds(states[i - 1], steps[i - 1]);
    }
  }

  /** Mutual exclusion: in every state of every run, cancellations included, at most one coroutine is in the
      guarded body of a key. */
  lemma MutualExclusion(states: seq<System>, steps: seq<Step>, i: nat, c: nat, d: nat)
    requires IsRun(states, steps) && i < |states| && c < |states[i].coroutines| && d < |states[i].coroutines|
    requires states[i].coroutines[c].Inside? && states[i].coroutines[d].Inside?
    requires states[i].coroutines[c].key == states[i].coroutines[d].key
    ensures c == d
  {
    RunInv(states, steps, i);
    assert CoroutineOk(states[i], c) && CoroutineOk(states[i], d);
  }

  /** Despite drops and re-creations, everybody who holds or waits for a key does so on the lock now in the map. */
  lemma SameLockObject(states: seq<System>, steps: seq<Step>, i: nat, c: nat)
    requires IsRun(states, steps) && i < |states| && c < |states[i].coroutines| && !states[i].coroutines[c].Outside?
    ensures
      var co := states[i].coroutines[c];
      co.key in states[i].locks && states[i].locks[co.key] == co.lock
  {
    RunInv(states, steps, i);
    assert CoroutineOk(states[i], c);
  }

  /** `release` never finds the lock unlocked, so it never raises. */
  lemma ReleaseFindsItLocked(states: seq<System>, steps: seq<Step>, i: nat, c: nat)
    requires IsRun(states, steps) && i < |states| && Enabled(states[i], Exit(c))
    ensures states[i].objects[states[i].coroutines[c].lock].locked
  {
    RunInv(states, steps, i);
    assert CoroutineOk(states[i], c) && LockOk(states[i], states[i].coroutines[c].lock);
  }

  lemma {:induction false} HolderIsInside(states: seq<System>, steps: seq<Step>, i: nat, l: nat)
    requires IsRun(states, steps) && i < |states| && l < |states[i].objects|
    ensures
      var holder := states[i].objects[l].holder;
      holder.Some? ==> holder.value < |states[i].coroutines| && states[i].coroutines[holder.value].Inside?
                       && states[i].coroutines[holder.value].lock == l
  {
    if i > 0 {
      RunInv(states, steps, i - 1);
      var s := states[i - 1];
      if l < |s.objects| {
        HolderIsInside(states, steps, i - 1, l);
        assert LockOk(s, l);
      }
      assert steps[i - 1].c < |s.coroutines| && CoroutineOk(s, steps[i - 1].c);
    }
  }

  // ---- waiting in turn ----

  /** How many waiters stand before `c`. */
  function Position(ws: seq<nat>, c: nat): nat {
    if ws == [] || ws[0] == c then 0 else 1 + Position(ws[1..], c)
  }

  lemma {:induction false} PositionAppended(ws: seq<nat>, c: nat, x: nat)
    requires c in ws
    ensures Position(ws + [x], c) == Position(ws, c)
  {
    if ws[0] != c {
      assert (ws + [x])[1..] == ws[1..] + [x];
      PositionAppended(ws[1..], c, x);
    }
  }

  lemma {:induction false} PositionWithout(ws: seq<nat>, c: nat, x: nat)
    requires c in ws && x != c
    ensures Position(Without(ws, x), c) <= Position(ws, c)
    ensures x == ws[0] ==> Position(Without(ws, x), c) == Position(ws, c) - 1
  {
    if ws[0] != c && ws[0] != x {
      PositionWithout(ws[1..], c, x);
    }
  }

  /** Two for each waiter in front, one for the holder. */
  function Distance(s: System, c: nat): nat
    requires IsWaiting(s, c)
  {
    var lock := s.objects[s.coroutines[c].lock];
    2 * Position(lock.waiters, c) + if lock.locked then 1 else 0
  }

  /** The holder of the lock, or its first waiter if it is free, takes the step it is there for. */
  predicate MovesOn(s: System, step: Step, l: nat)
    requires l < |s.objects|
  {
    if s.objects[l].locked
    then step.Exit? && step.c < |s.coroutines| && s.coroutines[step.c] == Inside(s.objects[l].key, l)
    else s.objects[l].waiters != [] && step.c == s.objects[l].waiters[0] && (step.Resume? || step.ResumeCancelled?)
  }

  /** What a step makes of a waiter that is not cancelled. */
  ghost predicate Nearer(s: System, step: Step, c: nat)
    requires Enabled(s, step) && IsWaiting(s, c)
  {
    var l, s1 := s.coroutines[c].lock, Apply(s, step);
    if step == Resume(c) then s1.coroutines[c] == Inside(s.coroutines[c].key, l)
    else
      && IsWaiting(s1, c) && s1.coroutines[c].lock == l && !s1.coroutines[c].cancelled
      && Distance(s1, c) <= Distance(s, c)
      && (MovesOn(s, step, l) ==> Distance(s1, c) < Distance(s, c))
  }

  lemma EnterKeepsTurn(s: System, e: nat, key: Key, c: nat)
    requires Inv(s) && Enabled(s, Enter(e, key)) && IsWaiting(s, c) && !s.coroutines[c].cancelled
    ensures Nearer(s, Enter(e, key), c)
  {
    assert CoroutineOk(s, c);
    var l := s.coroutines[c].lock;
    assert LockOk(s, l) && KeyOk(s, key) && KeyOk(s, s.coroutines[c].key);
    PositionAppended(s.objects[l].waiters, c, e);
  }

  lemma ResumeKeepsTurn(s: System, w: nat, c: nat)
    requires Inv(s) && Enabled(s, Resume(w)) && IsWaiting(s, c) && !s.coroutines[c].cancelled
    ensures Nearer(s, Resume(w), c)
  {
    assert CoroutineOk(s, c) && CoroutineOk(s, w);
    var l := s.coroutines[c].lock;
    assert LockOk(s, l) && LockOk(s, s.coroutines[w].lock);
    if w != c && s.coroutines[w].lock == l {
      PositionWithout(s.objects[l].waiters, c, w);
    }
  }

  lemma GivingUpKeepsTurn(s: System, w: nat, c: nat)
    requires Inv(s) && Enabled(s, ResumeCancelled(w)) && IsWaiting(s, c) && !s.coroutines[c].cancelled
    ensures Nearer(s, ResumeCancelled(w), c)
  {
    assert CoroutineOk(s, c) && CoroutineOk(s, w);
    var l := s.coroutines[c].lock;
    assert LockOk(s, l) && LockOk(s, s.coroutines[w].lock);
    if s.coroutines[w].lock == l {
      PositionWithout(s.objects[l].waiters, c, w);
    }
  }

  lemma ExitKeepsTurn(s: System, h: nat, c: nat)
    requires Inv(s) && Enabled(s, Exit(h)) && IsWaiting(s, c) && !s.coroutines[c].cancelled
    ensures Nearer(s, Exit(h), c)
  {
    assert CoroutineOk(s, c) && CoroutineOk(s, h);
    var l := s.coroutines[c].lock;
    assert LockOk(s, l) && LockOk(s, s.coroutines[h].lock);
    var s1 := Apply(s, Exit(h));
    assert s1.objects == Release(s, h).objects && s1.coroutines == Release(s, h).coroutines;
    assert s1.objects[l].waiters == s.objects[l].waiters;
  }

  /** Waiters enter in turn. No step of anybody puts a waiter back, as long as it is not cancelled itself; some step of
      the holder, or of the first waiter of a free lock, is possible, and every such step brings the waiter nearer, or
      lets it enter. So after at most `Distance` of them it has entered. */
  lemma WaiterEntersInTurn(states: seq<System>, steps: seq<Step>, i: nat, c: nat)
    requires IsRun(states, steps) && i < |states| && IsWaiting(states[i], c) && !states[i].coroutines[c].cancelled
    ensures
      var s := states[i];
      && (exists step :: Enabled(s, step) && MovesOn(s, step, s.coroutines[c].lock))
      && (forall step :: Enabled(s, step) && step != Cancel(c) ==> Nearer(s, step, c))
  {
    var s := states[i];
    RunInv(states, steps, i);
    var step := SomebodyMovesOn(states, steps, i, c);
    hide Nearer, MovesOn, Inv, Apply;
    forall step | Enabled(s, step) && step != Cancel(c) ensures Nearer(s, step, c) {
      match step
      case Enter(e, key) => EnterKeepsTurn(s, e, key, c);
      case Resume(w) => ResumeKeepsTurn(s, w, c);
      case Cancel(w) => CancelKeepsTurn(s, w, c);
      case ResumeCancelled(w) => GivingUpKeepsTurn(s, w, c);
      case Exit(h) => ExitKeepsTurn(s, h, c);
    }
  }

  lemma CancelKeepsTurn(s: System, w: nat, c: nat)
    requires Enabled(s, Cancel(w)) && w != c && IsWaiting(s, c) && !s.coroutines[c].cancelled
    ensures Nearer(s, Cancel(w), c)
  {
  }

  lemma SomebodyMovesOn(states: seq<System>, steps: seq<Step>, i: nat, c: nat) returns (step: Step)
    requires IsRun(states, steps) && i < |states| && IsWaiting(states[i], c)
    ensures Enabled(states[i], step) && MovesOn(states[i], step, states[i].coroutines[c].lock)
  {
    var s := states[i];
    RunInv(states, steps, i);
    assert CoroutineOk(s, c);
    var l := s.coroutines[c].lock;
    assert LockOk(s, l);
    HolderIsInside(states, steps, i, l);
    if s.objects[l].locked {
      var h := s.objects[l].holder.value;
      assert CoroutineOk(s, h) && KeyOk(s, s.coroutines[h].key);
      step := Exit(h);
    } else {
      var w := s.objects[l].waiters[0];
      assert w in s.objects[l].waiters && CoroutineOk(s, w);
      step := if s.coroutines[w].cancelled then ResumeCancelled(w) else Resume(w);
    }
  }

  // ---- cleaning up ----

  /** The only step that leaves an unused entry behind: the last waiter of a free lock resumes with its
      cancellation. */
  predicate LeavesUnused(s: System, step: Step, key: Key) {
    step.ResumeCancelled? && IsWaiting(s, step.c) && s.coroutines[step.c].key == key &&
    var lock := s.objects[s.coroutines[step.c].lock];
    !lock.locked && lock.waiters == [step.c]
  }

  /** An entry in use becomes an unused entry by exactly that step. */
  lemma UnusedExactlyWhen(states: seq<System>, steps: seq<Step>, i: nat, key: Key)
    requires IsRun(states, steps) && i < |steps| && !Unused(states[i], key)
    ensures Unused(states[i + 1], key) <==> LeavesUnused(states[i], steps[i], key)
  {
    var s, step := states[i], steps[i];
    RunInv(states, steps, i);
    assert KeyOk(s, key) && CoroutineOk(s, step.c);
    if !step.Enter? && !s.coroutines[step.c].Outside? {
      assert KeyOk(s, s.coroutines[step.c].key);
      WithoutAll(s.objects[s.coroutines[step.c].lock].waiters, step.c);
    }
  }

  lemma WithoutAll(ws: seq<nat>, c: nat)
    ensures c in ws ==> (Without(ws, c) == [] <==> ws == [c])
  {
  }

  /** Without cancellations the map holds exactly the keys in use. */
  lemma {:induction false} EntriesAreInUse(states: seq<System>, steps: seq<Step>, i: nat, key: Key)
    requires IsRun(states, steps) && i < |states|
    requires forall n :: 0 <= n < |steps| ==> !steps[n].Cancel?
    ensures !Unused(states[i], key)
    ensures forall c :: 0 <= c < |states[i].coroutines| && states[i].coroutines[c].Waiting? ==>
                          !states[i].coroutines[c].cancelled
    ensures key in states[i].locks <==>
            exists c :: 0 <= c < |states[i].coroutines| && !states[i].coroutines[c].Outside?
                && states[i].coroutines[c].key == key
  {
    if i > 0 {
      EntriesAreInUse(states, steps, i - 1, key);
      UnusedExactlyWhen(states, steps, i - 1, key);
    }
    EntryHasUser(states, steps, i, key);
  }

  lemma EntryHasUser(states: seq<System>, steps: seq<Step>, i: nat, key: Key)
    requires IsRun(states, steps) && i < |states| && !Unused(states[i], key)
    ensures key in states[i].locks <==>
            exists c :: 0 <= c < |states[i].coroutines| && !states[i].coroutines[c].Outside?
                && states[i].coroutines[c].key == key
  {
    var s := states[i];
    RunInv(states, steps, i);
    assert KeyOk(s, key);
    if key in s.locks {
      var l := s.locks[key];
      assert LockOk(s, l);
      HolderIsInside(states, steps, i, l);
      var c := if s.objects[l].locked then s.objects[l].holder.value else s.objects[l].waiters[0];
      assert !s.objects[l].locked ==> c in s.objects[l].waiters;
      assert CoroutineOk(s, c) && KeyOk(s, s.coroutines[c].key);
    }
    forall c | 0 <= c < |s.coroutines| && !s.coroutines[c].Outside? && s.coroutines[c].key == key
      ensures key in s.locks
    {
      assert CoroutineOk(s, c);
    }
  }

  /** The states of a run in which the only waiter is cancelled after it was woken. */
  function LeftoverState(key: Key, n: nat): System {
    var lock := Lock(true, [], key, Some(0));
    var free := Lock(false, [1], key, None);
    match n
    case 0 => System(map[], [], [Outside, Outside])
    case 1 => System(map[key := 0], [lock], [Inside(key, 0), Outside])
    case 2 => System(map[key := 0], [lock.(waiters := [1])], [Inside(key, 0), Waiting(key, 0, Pending, false)])
    case 3 => System(map[key := 0], [free], [Outside, Waiting(key, 0, Resolved, false)])
    case 4 => System(map[key := 0], [free], [Outside, Waiting(key, 0, Resolved, true)])
    case _ => System(map[key := 0], [free.(waiters := [])], [Outside, Outside])
  }

  function LeftoverSteps(key: Key): seq<Step> {
    [Enter(0, key), Enter(1, key), Exit(0), Cancel(1), ResumeCancelled(1)]
  }

  lemma LeftoverStep(key: Key, n: nat)
    requires n < 5
    ensures
      var s, step := LeftoverState(key, n), LeftoverSteps(key)[n];
      Enabled(s, step) && Apply(s, step) == LeftoverState(key, n + 1)
  {
    if n == 1 {
      assert [] + [1] == [1];
    }
  }

  /** A run that leaves an unused entry. */
  lemma CancelledWaiterLeavesEntry(key: Key)
    ensures exists states, steps :: IsRun(states, steps) && |states| == 6 && Unused(states[5], key)
  {
    var states, steps := seq(6, n requires 0 <= n => LeftoverState(key, n)), LeftoverSteps(key);
    forall n | 0 <= n < 5 ensures Enabled(states[n], steps[n]) && states[n + 1] == Apply(states[n], steps[n]) {
      LeftoverStep(key, n);
    }
    hide Enabled, Apply;
    assert IsRun(states, steps) && Unused(states[5], key);
  }
}
