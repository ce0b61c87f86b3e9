/**
  The multi-producer, single-consumer queue. Producers hold no lock: an append checks the length, pushes, reads
  the wake future, tests it and resolves it as five separate steps, and the consumer publishes a wake future and
  looks again before it waits. Every interleaving of those steps is a run of `QueueProtocol`.
 */
module QueueProtocol {
  import opened Options

  /** `done` covers a resolved and a cancelled future alike: `set_result` on either is swallowed. */
  type Future = nat

  datatype Producer<T> =
    | Ready
    | Checked(item: T)         // found the queue below its maximum
    | Pushed                   // item appended, wake not read yet
    | Read(wake: Future)       // wake read, not tested yet
    | Resolving(wake: Future)  // wake seen not done, about to set its result

  datatype Consumer =
    | Away                     // not inside `__anext__`
    | Testing                  // at the loop condition
    | Arming(wake: Future)     // created a future, not published yet
    | Armed(wake: Future)      // published, about to look again
    | Waiting(wake: Future)
    | Popping

  /** `appended` and `consumed` are history. Futures are numbered in creation order. */
  datatype Queue<T> = Queue(
    items: seq<T>, wake: Option<Future>, done: set<Future>, created: nat,
    producers: seq<Producer<T>>, consumer: Consumer,
    appended: seq<T>, consumed: seq<T>, maxsize: nat)

  datatype Step<T> =
    | Check(p: nat, item: T) | Push(p: nat) | ReadWake(p: nat) | TestWake(p: nat) | Resolve(p: nat)
    | Next | Test | Publish | LookAgain | Wake | Pop
    | CancelConsumer | CancelFuture(future: Future) | Reset

  predicate ProducerAt<T>(q: Queue<T>, p: nat, phase: Producer<T> -> bool) {
    p < |q.producers| && phase(q.producers[p])
  }

  predicate Enabled<T>(q: Queue<T>, step: Step<T>) {
    match step
    case Check(p, _) => ProducerAt(q, p, (r: Producer<T>) => r.Ready?)
    case Push(p) => ProducerAt(q, p, (r: Producer<T>) => r.Checked?)
    case ReadWake(p) => ProducerAt(q, p, (r: Producer<T>) => r.Pushed?)
    case TestWake(p) => ProducerAt(q, p, (r: Producer<T>) => r.Read?)
    case Resolve(p) => ProducerAt(q, p, (r: Producer<T>) => r.Resolving?)
    case Next => q.consumer.Away?
    case Test => q.consumer.Testing?
    case Publish => q.consumer.Arming?
    case LookAgain => q.consumer.Armed?
    case Wake => q.consumer.Waiting? && q.consumer.wake in q.done
    case Pop => q.consumer.Popping? && q.items != []
    case CancelConsumer => q.consumer.Waiting?
    case CancelFuture(f) =>
      f < q.created && q.consumer != Waiting(f) && q.consumer != Arming(f) && q.consumer != Armed(f)
    case Reset => q.consumer.Away?
  }

  function Set<T>(q: Queue<T>, p: nat, r: Producer<T>): Queue<T>
    requires p < |q.producers|
  {
    q.(producers := q.producers[p := r])
  }

  function Apply<T>(q: Queue<T>, step: Step<T>): Queue<T>
    requires Enabled(q, step)
  {
    match step
    case Check(p, item) => if |q.items| >= q.maxsize then q else Set(q, p, Checked(item))
    case Push(p) =>
      var item := q.producers[p].item;
      Set(q, p, Pushed).(items := q.items + [item], appended := q.appended + [item])
    case ReadWake(p) => Set(q, p, if q.wake.None? then Ready else Read(q.wake.value))
    case TestWake(p) => Set(q, p, if q.producers[p].wake in q.done then Ready else Resolving(q.producers[p].wake))
    case Resolve(p) => Set(q, p, Ready).(done := q.done + {q.producers[p].wake})
    case Next => q.(consumer := Testing)
    case Test =>
      if q.items == [] then q.(consumer := Arming(q.created), created := q.created + 1) else q.(consumer := Popping)
    case Publish => q.(consumer := Armed(q.consumer.wake), wake := Some(q.consumer.wake))
    case LookAgain => q.(consumer := if q.items == [] then Waiting(q.consumer.wake) else Popping)
    case Wake => q.(consumer := Testing)
    case Pop => q.(consumer := Away, items := q.items[1..], consumed := q.consumed + [q.items[0]])
    case CancelConsumer => q.(consumer := Away)
    case CancelFuture(f) => q.(done := q.done + {f})
    case Reset => q.(wake := None)
  }

  ghost predicate Init<T>(q: Queue<T>) {
    && q.items == [] && q.wake.None? && q.done == {} && q.created == 0
    && (forall p :: 0 <= p < |q.producers| ==> q.producers[p].Ready?)
    && q.consumer.Away? && q.appended == [] && q.consumed == []
  }

  ghost predicate IsRun<T>(states: seq<Queue<T>>, steps: seq<Step<T>>) {
    && |states| == |steps| + 1
    && Init(states[0])
    && forall i :: 0 <= i < |steps| ==> Enabled(states[i], steps[i]) && states[i + 1] == Apply(states[i], steps[i])
  }

  // ---- no lost wake-up ----

  /** Producer `p` stands between its append and the `set_result` of future `f`: it will read `f`, has read it, or
      is about to resolve it. */
  predicate WillResolve<T>(q: Queue<T>, p: nat, f: Future) {
    p < |q.producers| &&
    match q.producers[p]
    case Pushed => q.wake == Some(f)
    case Read(wake) => wake == f
    case Resolving(wake) => wake == f
    case _ => false
  }

  ghost predicate NoLostWakeUp<T>(q: Queue<T>) {
    q.consumer.Waiting? && q.items != [] ==>
      q.consumer.wake in q.done || exists p :: WillResolve(q, p, q.consumer.wake)
  }

  /** The consumer waits on the future that producers see, and only an armed consumer pops an empty queue. */
  ghost predicate ConsumerOk<T>(q: Queue<T>) {
    && (q.consumer.Armed? || q.consumer.Waiting? ==> q.wake == Some(q.consumer.wake))
    && (q.consumer.Popping? ==> q.items != [])
  }

  ghost predicate Inv<T>(q: Queue<T>) { ConsumerOk(q) && NoLostWakeUp(q) && q.consumed + q.items == q.appended }

  lemma InvHolds<T>(q: Queue<T>, step: Step<T>)
    requires Inv(q) && Enabled(q, step)
    ensures Inv(Apply(q, step))
  {
    var q1 := Apply(q, step);
    match step
    case Push(p) =>
      assert q.consumer.Waiting? ==> WillResolve(q1, p, q.consumer.wake);
      assert q1.consumed + q1.items == q.consumed + q.items + [q.producers[p].item];
    case Pop => assert q.consumed + q.items == q1.consumed + q1.items;
    case Reset =>
    case _ => WitnessSurvives(q, step);
  }

  /** Whichever producer was going to resolve the consumer's future still is, or has. */
  lemma WitnessSurvives<T>(q: Queue<T>, step: Step<T>)
    requires Inv(q) && Enabled(q, step) && !step.Push? && !step.Pop? && !step.Reset?
    ensures NoLostWakeUp(Apply(q, step))
  {
    var q1 := Apply(q, step);
    if q1.consumer.Waiting? && q1.items != [] && q1.consumer.wake !in q1.done {
      assert q.consumer == q1.consumer && q.items != [] && q.consumer.wake !in q.done;
      var p :| WillResolve(q, p, q.consumer.wake);
      assert WillResolve(q1, p, q.consumer.wake);
    }
  }

  lemma {:induction false} RunInv<T>(states: seq<Queue<T>>, steps: seq<Step<T>>, i: nat)
    requires IsRun(states, steps) && i < |states|
    ensures Inv(states[i])
  {
    if i > 0 {
      RunInv(states, steps, i - 1);
      InvHolds(states[i - 1], steps[i - 1]);
    }
  }

  /** No lost wake-up: with an item in the queue a suspended consumer's future is done, or some producer is
      between its append and the `set_result` of that very future. */
  lemma SuspendedConsumerWillWake<T>(states: seq<Queue<T>>, steps: seq<Step<T>>, i: nat)
    requires IsRun(states, steps) && i < |states|
    requires states[i].consumer.Waiting? && states[i].items != []
    ensures Enabled(states[i], Wake) || exists p :: WillResolve(states[i], p, states[i].consumer.wake)
  {
    RunInv(states, steps, i);
  }

  /** And such a producer needs no help: within three of its own steps the future is done. */
  lemma ResolverResolves<T>(q: Queue<T>, p: nat, f: Future)
    requires WillResolve(q, p, f)
    ensures
      var step :=
        if q.producers[p].Pushed? then ReadWake(p) else if q.producers[p].Read? then TestWake(p) else Resolve(p);
      Enabled(q, step) &&
      var q1 := Apply(q, step);
      f in q1.done
      || (WillResolve(q1, p, f) && !q1.producers[p].Pushed? && (q.producers[p].Read? ==> q1.producers[p].Resolving?))
  {
  }

  /** Once producers are at rest, a waiting consumer whose future is not done faces an empty queue: nothing is
      stranded. */
  lemma NothingStranded<T>(states: seq<Queue<T>>, steps: seq<Step<T>>, i: nat)
    requires IsRun(states, steps) && i < |states|
    requires forall p :: 0 <= p < |states[i].producers| ==> states[i].producers[p].Ready?
    requires states[i].consumer.Waiting? && !Enabled(states[i], Wake)
    ensures states[i].items == [] && states[i].consumed == states[i].appended
  {
    RunInv(states, steps, i);
  }

  // ---- the consumer takes the item ----

  /** A step that the coroutine inside `__anext__` takes by itself. */
  predicate Own<T>(step: Step<T>) {
    step.Test? || step.Publish? || step.LookAgain? || step.Wake? || step.Pop?
  }

  predicate Stuck<T>(q: Queue<T>) { q.consumer.Waiting? && q.consumer.wake !in q.done }

  /** How many of its own steps the consumer is from having taken an item that is there. */
  function ToTake(c: Consumer): nat {
    match c
    case Away => 0
    case Popping => 1
    case Testing => 2
    case Armed(_) => 2
    case Arming(_) => 3
    case Waiting(_) => 3
  }

  /** How many of its own steps it is from waiting in an empty queue. */
  function ToWait(c: Consumer): nat {
    match c
    case Testing => 3
    case Arming(_) => 2
    case Armed(_) => 1
    case _ => 0
  }

  /** With an item in the queue a consumer inside `__anext__` that does not wait on an unfinished future can go on, and
      each step of its own brings it nearer to taking the oldest item, or takes it. */
  lemma ConsumerGoesOn<T>(states: seq<Queue<T>>, steps: seq<Step<T>>, i: nat)
    requires IsRun(states, steps) && i < |states|
    requires !states[i].consumer.Away? && states[i].items != [] && !Stuck(states[i])
    ensures exists step :: Own(step) && Enabled(states[i], step)
    ensures
      var q := states[i];
      i < |steps| && Own(steps[i]) ==>
        var q1 := states[i + 1];
        if steps[i].Pop?
        then q1.consumer.Away? && q1.consumed == q.consumed + [q.items[0]] && q1.items == q.items[1..]
        else !q1.consumer.Away? && !Stuck(q1) && ToTake(q1.consumer) < ToTake(q.consumer)
             && q1.items == q.items && q1.consumed == q.consumed
  {
    RunInv(states, steps, i);
    match states[i].consumer
    case Testing => assert Enabled(states[i], Test);
    case Arming(_) => assert Enabled(states[i], Publish);
    case Armed(_) => assert Enabled(states[i], LookAgain);
    case Waiting(_) => assert Enabled(states[i], Wake);
    case Popping => assert Enabled(states[i], Pop);
  }

  /** In an empty queue it goes on until it waits on a future that it has published; woken there for an item already
      taken, it starts again. */
  lemma ConsumerGoesOnToWait<T>(states: seq<Queue<T>>, steps: seq<Step<T>>, i: nat)
    requires IsRun(states, steps) && i < |states| && !states[i].consumer.Away? && states[i].items == []
    ensures Stuck(states[i]) || exists step :: Own(step) && Enabled(states[i], step)
    ensures i < |steps| && Own(steps[i]) ==>
              var c, c1 := states[i].consumer, states[i + 1].consumer;
              && (if c.Waiting? then c1.Testing? else !c1.Away? && !c1.Popping? && ToWait(c1) < ToWait(c))
              && (c1.Waiting? ==> states[i + 1].wake == Some(c1.wake))
  {
    RunInv(states, steps, i);
    match states[i].consumer
    case Testing => assert Enabled(states[i], Test);
    case Arming(_) => assert Enabled(states[i], Publish);
    case Armed(_) => assert Enabled(states[i], LookAgain);
    case Waiting(_) => assert Stuck(states[i]) || Enabled(states[i], Wake);
  }

  /** Nobody else moves the consumer, except by cancelling it where it waits, and nobody else takes an item. */
  lemma OthersLeaveTheConsumer<T>(q: Queue<T>, step: Step<T>)
    requires Enabled(q, step) && !Own(step) && !step.Next?
    ensures
      var q1 := Apply(q, step);
      && q1.consumed == q.consumed && q.items <= q1.items && q.done <= q1.done
      && q1.consumer == if step.CancelConsumer? then Away else q.consumer
  {
  }

  /** How many steps of its own the consumer takes between two moments. */
  function OwnSteps<T>(steps: seq<Step<T>>, i: nat, j: nat): nat
    requires i <= j <= |steps|
  {
    if i == j then 0 else OwnSteps(steps, i, j - 1) + if Own(steps[j - 1]) then 1 else 0
  }

  /** From a moment at which an item is there and the consumer does not wait on an unfinished future, it has taken the
      oldest item as soon as it has taken three steps of its own, whatever happens in between, unless it is
      cancelled. */
  lemma {:induction false} TakenWithinThreeSteps<T>(states: seq<Queue<T>>, steps: seq<Step<T>>, i: nat, j: nat)
    requires IsRun(states, steps) && i <= j < |states|
    requires !states[i].consumer.Away? && states[i].items != [] && !Stuck(states[i])
    requires forall n :: i <= n < j ==> !steps[n].CancelConsumer?
    ensures
      || states[i].consumed + [states[i].items[0]] <= states[j].consumed
      || (&& states[j].consumed == states[i].consumed && states[i].items <= states[j].items
          && !states[j].consumer.Away? && !Stuck(states[j])
          && ToTake(states[j].consumer) + OwnSteps(steps, i, j) <= ToTake(states[i].consumer))
    ensures OwnSteps(steps, i, j) >= 3 ==> states[i].consumed + [states[i].items[0]] <= states[j].consumed
  {
    if i < j {
      TakenWithinThreeSteps(states, steps, i, j - 1);
      var q, q1 := states[j - 1], states[j];
      ConsumedGrows(q, steps[j - 1]);
      hide Apply, Enabled;
      assert q1 == Apply(q, steps[j - 1]);
      if !(states[i].consumed + [states[i].items[0]] <= q.consumed) {
        if Own(steps[j - 1]) {
          ConsumerGoesOn(states, steps, j - 1);
        } else {
          InsideAlready(q, steps[j - 1]);
          OthersLeaveTheConsumer(q, steps[j - 1]);
        }
      }
    }
  }

  lemma ConsumedGrows<T>(q: Queue<T>, step: Step<T>)
    requires Enabled(q, step)
    ensures q.consumed <= Apply(q, step).consumed
  {
  }

  lemma InsideAlready<T>(q: Queue<T>, step: Step<T>)
    requires Enabled(q, step) && !q.consumer.Away?
    ensures !step.Next?
  {
  }

  /** The consumer leaves `__anext__` only with an item or by being cancelled: it has entered as many times as items
      were taken and calls cancelled, and once more while it is inside. */
  lemma {:induction false} EveryCallTakesOneItem<T>(states: seq<Queue<T>>, steps: seq<Step<T>>, i: nat)
    requires IsRun(states, steps) && i < |states|
    ensures multiset(steps[..i])[Next] == |states[i].consumed| + multiset(steps[..i])[CancelConsumer]
                                          + if states[i].consumer.Away? then 0 else 1
  {
    if i > 0 {
      var q, step := states[i - 1], steps[i - 1];
      assert Enabled(q, step) && states[i] == Apply(q, step);
      hide Apply, Enabled, IsRun;
      EveryCallTakesOneItem(states, steps, i - 1);
      CallStep(q, step);
      OneMore(steps, i, Next);
      OneMore(steps, i, CancelConsumer);
    }
  }

  lemma OneMore<T>(steps: seq<Step<T>>, i: nat, step: Step<T>)
    requires 0 < i <= |steps|
    ensures multiset(steps[..i])[step] == multiset(steps[..i - 1])[step] + if steps[i - 1] == step then 1 else 0
  {
    assert steps[..i] == steps[..i - 1] + [steps[i - 1]];
  }

  lemma CallStep<T>(q: Queue<T>, step: Step<T>)
    requires Enabled(q, step)
    ensures
      var q1 := Apply(q, step);
      (if step == Next then 1 else 0) + |q.consumed| + (if q.consumer.Away? then 0 else 1)
      == |q1.consumed| + (if step == CancelConsumer then 1 else 0) + (if q1.consumer.Away? then 0 else 1)
  {
  }

  // ---- every wait has its own future ----

  ghost predicate Numbered<T>(q: Queue<T>) {
    && (forall f :: f in q.done ==> f < q.created)
    && (q.wake.Some? ==> q.wake.value < q.created)
    && (q.consumer.Arming? || q.consumer.Armed? || q.consumer.Waiting? ==> q.consumer.wake < q.created)
    && forall p :: 0 <= p < |q.producers| ==> Holds(q.producers[p], q.created)
  }

  /** The future a producer holds, if any, is among the first `created`. */
  predicate Holds<T>(r: Producer<T>, created: nat) { r.Read? || r.Resolving? ==> r.wake < created }

  lemma StaysNumbered<T>(q: Queue<T>, step: Step<T>)
    requires Enabled(q, step) && Numbered(q)
    ensures Numbered(Apply(q, step))
  {
    var q1 := Apply(q, step);
    assert q1.created >= q.created && |q1.producers| == |q.producers|;
    forall p | 0 <= p < |q1.producers| ensures Holds(q1.producers[p], q1.created) {
      assert Holds(q.producers[p], q.created);
    }
  }

  lemma {:induction false} RunIsNumbered<T>(states: seq<Queue<T>>, steps: seq<Step<T>>, i: nat)
    requires IsRun(states, steps) && i < |states|
    ensures Numbered(states[i])
  {
    if i > 0 {
      RunIsNumbered(states, steps, i - 1);
      hide Numbered;
      StaysNumbered(states[i - 1], steps[i - 1]);
    }
  }

  /** The future that a consumer creates is finished by nobody before it is published: it is new to everybody. */
  lemma CreatedFutureIsNew<T>(states: seq<Queue<T>>, steps: seq<Step<T>>, i: nat)
    requires IsRun(states, steps) && i < |steps| && states[i + 1].consumer.Arming? && !states[i].consumer.Arming?
    ensures
      var q, f := states[i], states[i + 1].consumer.wake;
      && f !in states[i + 1].done && q.wake != Some(f)
      && forall p :: 0 <= p < |q.producers| && (q.producers[p].Read? || q.producers[p].Resolving?) ==>
           q.producers[p].wake != f
  {
    RunIsNumbered(states, steps, i);
    var q, f := states[i], states[i + 1].consumer.wake;
    forall p | 0 <= p < |q.producers| && (q.producers[p].Read? || q.producers[p].Resolving?)
      ensures q.producers[p].wake != f
    {
      assert Holds(q.producers[p], q.created);
    }
  }

  // ---- conservation and bound ----

  /** First in, first out, nothing lost or duplicated, `reset` included. */
  lemma Conservation<T>(states: seq<Queue<T>>, steps: seq<Step<T>>, i: nat)
    requires IsRun(states, steps) && i < |states|
    ensures states[i].consumed + states[i].items == states[i].appended
    ensures i < |steps| && steps[i].Reset? ==> states[i + 1].items == states[i].items && states[i + 1].wake.None?
  {
    RunInv(states, steps, i);
  }

  /** How many producers have passed the length check and not yet pushed. */
  function Committed<T>(producers: seq<Producer<T>>): (n: nat)
    ensures n <= |producers|
  {
    if producers == [] then 0
    else Committed(producers[..|producers| - 1]) + if producers[|producers| - 1].Checked? then 1 else 0
  }

  lemma {:induction false} CommittedUpdate<T>(producers: seq<Producer<T>>, p: nat, r: Producer<T>)
    requires p < |producers|
    ensures Committed(producers[p := r]) ==
            Committed(producers) - (if producers[p].Checked? then 1 else 0) + (if r.Checked? then 1 else 0)
  {
    var n := |producers| - 1;
    if p == n {
      assert producers[p := r][..n] == producers[..n];
    } else {
      assert producers[p := r][..n] == producers[..n][p := r];
      CommittedUpdate(producers[..n], p, r);
    }
  }

  lemma {:induction false} NoneCommitted<T>(producers: seq<Producer<T>>)
    requires forall p :: 0 <= p < |producers| ==> producers[p].Ready?
    ensures Committed(producers) == 0
  {
    if producers != [] { NoneCommitted(producers[..|producers| - 1]); }
  }

  ghost predicate Bounded<T>(q: Queue<T>) {
    || |q.items| + Committed(q.producers) == 0
    || (q.maxsize > 0 && |q.items| + Committed(q.producers) <= q.maxsize + |q.producers| - 1)
  }

  lemma BoundKept<T>(q: Queue<T>, step: Step<T>)
    requires Bounded(q) && Enabled(q, step)
    ensures Bounded(Apply(q, step))
  {
    match step
    case Check(p, item) => CommittedUpdate(q.producers, p, Checked(item));
    case Push(p) => CommittedUpdate(q.producers, p, Pushed);
    case ReadWake(p) => CommittedUpdate(q.producers, p, Apply(q, step).producers[p]);
    case TestWake(p) => CommittedUpdate(q.producers, p, Apply(q, step).producers[p]);
    case Resolve(p) => CommittedUpdate(q.producers, p, Ready);
    case _ =>
  }

  /** With P producers the length never exceeds maxsize + P - 1, so a single producer never exceeds maxsize; a queue of
      maximum 0 stays empty. */
  lemma {:induction false} LengthBound<T>(states: seq<Queue<T>>, steps: seq<Step<T>>, i: nat)
    requires IsRun(states, steps) && i < |states|
    ensures Bounded(states[i])
    ensures |states[i].producers| == |states[0].producers| && states[i].maxsize == states[0].maxsize
    ensures states[i].items == [] ||
            (states[0].maxsize > 0 && |states[i].items| <= states[0].maxsize + |states[0].producers| - 1)
  {
    if i == 0 {
      NoneCommitted(states[0].producers);
    } else {
      LengthBound(states, steps, i - 1);
      BoundKept(states[i - 1], steps[i - 1]);
    }
  }

  // ---- the bound is sharp ----

  function Fresh<T>(producerCount: nat, maxsize: nat): Queue<T> {
    Queue([], None, {}, 0, seq(producerCount, _ => Ready), Away, [], [], maxsize)
  }

  /** Some run from the fresh queue ends in `q`. */
  ghost predicate Reachable<T(!new)>(producerCount: nat, maxsize: nat, q: Queue<T>) {
    exists states: seq<Queue<T>>, steps: seq<Step<T>> ::
      IsRun(states, steps) && states[0] == Fresh(producerCount, maxsize) && states[|states| - 1] == q
  }

  lemma FreshIsReachable<T(!new)>(producerCount: nat, maxsize: nat)
    ensures Reachable<T>(producerCount, maxsize, Fresh(producerCount, maxsize))
  {
    var states, steps: seq<Step<T>> := [Fresh<T>(producerCount, maxsize)], [];
    assert IsRun(states, steps);
  }

  lemma OneStepFurther<T(!new)>(producerCount: nat, maxsize: nat, q: Queue<T>, step: Step<T>)
    requires Reachable(producerCount, maxsize, q) && Enabled(q, step)
    ensures Reachable(producerCount, maxsize, Apply(q, step))
  {
    var states: seq<Queue<T>>, steps: seq<Step<T>> :|
      IsRun(states, steps) && states[0] == Fresh(producerCount, maxsize) && states[|states| - 1] == q;
    var longer, more := states + [Apply(q, step)], steps + [step];
    forall i | 0 <= i < |more| ensures Enabled(longer[i], more[i]) && longer[i + 1] == Apply(longer[i], more[i]) {
      if i < |steps| {
        assert longer[i] == states[i] && longer[i + 1] == states[i + 1] && more[i] == steps[i];
      }
    }
    assert IsRun(longer, more);
  }

  /** The queue with `n` equal items, nothing consumed and the producers in given phases. */
  function Holding<T>(maxsize: nat, producers: seq<Producer<T>>, item: T, n: nat): Queue<T> {
    Queue(seq(n, _ => item), None, {}, 0, producers, Away, seq(n, _ => item), [], maxsize)
  }

  /** `n` producers in one phase, the others in another. */
  function Split<T>(producerCount: nat, n: nat, first: Producer<T>, rest: Producer<T>): seq<Producer<T>> {
    seq(producerCount, p => if p < n then first else rest)
  }

  /** One producer fills the queue up to its maximum. */
  lemma {:induction false} FillReaches<T(!new)>(producerCount: nat, maxsize: nat, item: T, n: nat)
    requires producerCount > 0 && n <= maxsize
    ensures Reachable(producerCount, maxsize, Holding(maxsize, Split(producerCount, 0, Ready, Ready), item, n))
  {
    if n == 0 {
      FreshIsReachable<T>(producerCount, maxsize);
      assert Holding(maxsize, Split(producerCount, 0, Ready, Ready), item, 0) == Fresh(producerCount, maxsize);
    } else {
      FillReaches(producerCount, maxsize, item, n - 1);
      var q := Holding(maxsize, Split(producerCount, 0, Ready, Ready), item, n - 1);
      var q1, full := Apply(q, Check(0, item)), Holding(maxsize, Split(producerCount, 0, Ready, Ready), item, n);
      var q2 := Apply(q1, Push(0));
      assert q2.items == full.items && q2.appended == full.appended;
      assert Apply(q2, ReadWake(0)).producers == full.producers;
      OneStepFurther(producerCount, maxsize, q, Check(0, item));
      OneStepFurther(producerCount, maxsize, q1, Push(0));
      OneStepFurther(producerCount, maxsize, q2, ReadWake(0));
    }
  }

  /** With one place left every producer passes the check. */
  lemma {:induction false} ChecksReach<T(!new)>(producerCount: nat, maxsize: nat, item: T, n: nat)
    requires maxsize > 0 && 0 < producerCount && n <= producerCount
    ensures Reachable(producerCount, maxsize,
                      Holding(maxsize, Split(producerCount, n, Checked(item), Ready), item, maxsize - 1))
  {
    if n == 0 {
      FillReaches(producerCount, maxsize, item, maxsize - 1);
      assert Split<T>(producerCount, 0, Ready, Ready) == Split(producerCount, 0, Checked(item), Ready);
    } else {
      ChecksReach(producerCount, maxsize, item, n - 1);
      var q := Holding(maxsize, Split(producerCount, n - 1, Checked(item), Ready), item, maxsize - 1);
      OneStepFurther(producerCount, maxsize, q, Check(n - 1, item));
      assert Apply(q, Check(n - 1, item)).producers == Split(producerCount, n, Checked(item), Ready);
    }
  }

  /** And then every producer pushes. */
  lemma {:induction false} PushesReach<T(!new)>(producerCount: nat, maxsize: nat, item: T, n: nat)
    requires maxsize > 0 && 0 < producerCount && n <= producerCount
    ensures Reachable(producerCount, maxsize,
                      Holding(maxsize, Split(producerCount, n, Pushed, Checked(item)), item, maxsize - 1 + n))
  {
    if n == 0 {
      ChecksReach(producerCount, maxsize, item, producerCount);
      assert Split(producerCount, producerCount, Checked(item), Ready) ==
          Split(producerCount, 0, Pushed, Checked(item));
    } else {
      PushesReach(producerCount, maxsize, item, n - 1);
      var q := Holding(maxsize, Split(producerCount, n - 1, Pushed, Checked(item)), item, maxsize - 1 + (n - 1));
      var full := Holding(maxsize, Split(producerCount, n, Pushed, Checked(item)), item, maxsize - 1 + n);
      OneStepFurther(producerCount, maxsize, q, Push(n - 1));
      var q1 := Apply(q, Push(n - 1));
      assert q1.items == full.items && q1.appended == full.appended && q1.producers == full.producers;
    }
  }

  /** The bound is sharp for every number of producers and every positive maximum. */
  lemma BoundReached<T(!new)>(producerCount: nat, maxsize: nat, item: T)
    requires producerCount > 0 && maxsize > 0
    ensures exists q: Queue<T> :: Reachable(producerCount, maxsize, q) && |q.items| == maxsize + producerCount - 1
  {
    PushesReach(producerCount, maxsize, item, producerCount);
    var pushed := Split(producerCount, producerCount, Pushed, Checked(item));
    var q := Holding(maxsize, pushed, item, maxsize - 1 + producerCount);
    assert |q.items| == maxsize + producerCount - 1;
  }

  /** The maximum is respected in every run if and only if there is at most one producer, or nothing fits at all. */
  lemma MaximumKeptExactlyWhen<T(!new)>(producerCount: nat, maxsize: nat, item: T)
    ensures (forall q: Queue<T> :: Reachable(producerCount, maxsize, q) ==> |q.items| <= maxsize) <==>
              producerCount <= 1 || maxsize == 0
  {
    forall q: Queue<T> | Reachable(producerCount, maxsize, q) && (producerCount <= 1 || maxsize == 0)
      ensures |q.items| <= maxsize
    {
      var states: seq<Queue<T>>, steps: seq<Step<T>> :|
        IsRun(states, steps) && states[0] == Fresh(producerCount, maxsize) && states[|states| - 1] == q;
      LengthBound(states, steps, |states| - 1);
    }
    if producerCount > 1 && maxsize > 0 {
      BoundReached(producerCount, maxsize, item);
    }
  }

  /** The steps of one append, taken by producer `p` with nobody in between, in the order of the source. */
  function AppendAlone<T>(q: Queue<T>, p: nat, item: T): (r: Queue<T>)
    requires p < |q.producers| && q.producers[p].Ready?
    ensures r.items == if |q.items| >= q.maxsize then q.items else q.items + [item]
    ensures r.wake == q.wake && r.producers == q.producers && r.consumer == q.consumer
    ensures r.done == if |q.items| < q.maxsize && q.wake.Some? then q.done + {q.wake.value} else q.done
  {
    var q1 := Apply(q, Check(p, item));
    if q1.producers[p].Ready? then q1 else
    var q2 := Apply(q1, Push(p));
    var q3 := Apply(q2, ReadWake(p));
    if q3.producers[p].Ready? then q3 else
    var q4 := Apply(q3, TestWake(p));
    if q4.producers[p].Ready? then q4 else Apply(q4, Resolve(p))
  }
}

/** The queue object. Its methods are what the source's do when nothing interleaves. */
module AsyncQueues {
  import opened Options

  class Future {
    var finished: bool

    constructor ()
      ensures !finished
    {
      finished := false;
    }
  }

  class AsyncQueue<T> {
    var items: seq<T>
    var wake: Future?
    const maxsize: nat

    constructor (maxsize: nat)
      ensures items == [] && wake == null && this.maxsize == maxsize
    {
      items, wake := [], null;
      this.maxsize := maxsize;
    }

    /** `full` stands for the `QueueFull` exception. */
    method Append(item: T) returns (full: bool)
      modifies this, wake
      ensures full <==> |old(items)| >= maxsize
      ensures items == if full then old(items) else old(items) + [item]
      ensures wake == old(wake)
      ensures wake != null ==> wake.finished == (old(if wake == null then false else wake.finished) || !full)
    {
      if |items| >= maxsize {
        return true;
      }
      items := items + [item];
      if wake != null && !wake.finished {
        wake.finished := true;
      }
      full := false;
    }

    method Reset()
      modifies this
      ensures wake == null && items == old(items)
    {
      wake := null;
    }

    /** One pass of `__anext__`: until it returns an item or suspends (`None`) on a future it has just published.
        On waking the source runs the same pass again. */
    method Advance() returns (item: Option<T>)
      modifies this
      ensures old(items) != [] ==> item == Some(old(items)[0]) && items == old(items)[1..] && wake == old(wake)
      ensures old(items) == [] ==> item.None? && items == [] && wake != null && fresh(wake) && !wake.finished
    {
      if items == [] {
        var created := new Future();
        wake := created;
        if items == [] {
          return None;
        }
      }
      item := Some(items[0]);
      items := items[1..];
    }
  }
}
