/**
  The forward-Euler cadence of the connector pollers, over real numbers. `step` reads the clock twice (once for
  the elapsed time, once inside `effective_min`), so a step is given two readings.
 */
module Cadence {
  datatype Settings = Settings(pollMin: real, pollMax: real, tauSpeedup: real, tauSlowdown: real, rateLimitFloor: real)

  datatype State = State(interval: real, rateLimitUntil: real, lastStepTime: real)

  function Min(x: real, y: real): real { if x <= y then x else y }

  function Max(x: real, y: real): real { if x >= y then x else y }

  function EffectiveMin(c: Settings, s: State, now: real): real {
    if now < s.rateLimitUntil then Max(c.pollMin, c.rateLimitFloor) else c.pollMin
  }

  function Rate(dt: real, tau: real): real {
    if tau > 0.0 then Min(dt / tau, 1.0) else 1.0
  }

  function Tau(c: Settings, didWork: bool): real { if didWork then c.tauSpeedup else c.tauSlowdown }

  function Target(c: Settings, effMin: real, didWork: bool): real { if didWork then effMin else c.pollMax }

  function Clamp(c: Settings, effMin: real, x: real): real { Max(effMin, Min(c.pollMax, x)) }

  /** One Euler step of the interval under floor `effMin`. */
  function Euler(c: Settings, effMin: real, didWork: bool, interval: real, dt: real): real {
    Clamp(c, effMin, interval + Rate(dt, Tau(c, didWork)) * (Target(c, effMin, didWork) - interval))
  }

  function Stepped(c: Settings, s: State, didWork: bool, now: real, later: real): State {
    State(Euler(c, EffectiveMin(c, s, later), didWork, s.interval, now - s.lastStepTime), s.rateLimitUntil, now)
  }

  function NextInterval(c: Settings, s: State, now: real): real {
    Clamp(c, EffectiveMin(c, s, now), s.interval)
  }

  class PollerCadence {
    const settings: Settings
    var interval: real
    var rateLimitUntil: real
    var lastStepTime: real

    ghost function View(): State
      reads this
    {
      State(interval, rateLimitUntil, lastStepTime)
    }

    constructor (settings: Settings, now: real)
      ensures this.settings == settings && View() == State(settings.pollMin, 0.0, now)
    {
      this.settings := settings;
      interval, rateLimitUntil, lastStepTime := settings.pollMin, 0.0, now;
    }

    method ReadEffectiveMin(now: real) returns (r: real)
      ensures r == EffectiveMin(settings, View(), now)
    {
      if now < rateLimitUntil {
        return Max(settings.pollMin, settings.rateLimitFloor);
      }
      r := settings.pollMin;
    }

    method Penalize(now: real, duration: real)
      modifies this
      ensures View() == old(View()).(rateLimitUntil := now + duration)
    {
      rateLimitUntil := now + duration;
    }

    method ResetStepClock(now: real)
      modifies this
      ensures View() == old(View()).(lastStepTime := now)
    {
      lastStepTime := now;
    }

    method Step(didWork: bool, now: real, later: real)
      modifies this
      ensures View() == Stepped(settings, old(View()), didWork, now, later)
    {
      var dt := now - lastStepTime;
      lastStepTime := now;
      var effMin := ReadEffectiveMin(later);
      var target := if didWork then effMin else settings.pollMax;
      var tau := if didWork then settings.tauSpeedup else settings.tauSlowdown;
      var rate := if tau > 0.0 then Min(dt / tau, 1.0) else 1.0;
      assert target == Target(settings, effMin, didWork) && rate == Rate(dt, Tau(settings, didWork));
      hide Target, Rate, Tau, EffectiveMin;
      interval := interval + rate * (target - interval);
      interval := Max(effMin, Min(settings.pollMax, interval));
    }

    method ReadNextInterval(now: real) returns (r: real)
      ensures r == NextInterval(settings, View(), now)
    {
      var effMin := ReadEffectiveMin(now);
      r := Max(effMin, Min(settings.pollMax, interval));
    }
  }

  // ---- one step ----

  /** Where a step may at most arrive: the target, or the floor when the floor is above it. */
  function Goal(c: Settings, effMin: real, didWork: bool): real {
    Max(effMin, Target(c, effMin, didWork))
  }

  predicate Between(x: real, a: real, b: real) { a <= x <= b || b <= x <= a }

  lemma RateInUnit(dt: real, tau: real)
    requires dt >= 0.0
    ensures 0.0 <= Rate(dt, tau) <= 1.0
    ensures dt >= tau ==> Rate(dt, tau) == 1.0
  {
    if tau > 0.0 {
      assert dt / tau >= 0.0;
      if dt >= tau { assert dt / tau >= 1.0 by { assert (dt / tau) * tau == dt; } }
    }
  }

  lemma NonNeg(x: real, y: real)
    requires x >= 0.0 && y >= 0.0
    ensures x * y >= 0.0
  {
  }

  lemma Convex(x: real, y: real, r: real, z: real)
    requires 0.0 <= r <= 1.0 && z == x + r * (y - x)
    ensures Between(z, x, y)
    ensures y - z == (y - x) * (1.0 - r)
  {
    if x <= y {
      NonNeg(r, y - x);
      NonNeg(1.0 - r, y - x);
      assert (1.0 - r) * (y - x) == y - z;
    } else {
      NonNeg(r, x - y);
      NonNeg(1.0 - r, x - y);
      assert r * (x - y) == x - z;
      assert (1.0 - r) * (x - y) == z - y;
    }
  }

  /** From any interval whatever, a step moves toward its goal without passing it, and a step at least as long as
      its time constant arrives. */
  lemma NoOvershoot(c: Settings, effMin: real, didWork: bool, interval: real, dt: real)
    requires c.pollMin <= c.pollMax && c.pollMin <= effMin && dt >= 0.0
    ensures Between(Euler(c, effMin, didWork, interval, dt), interval, Goal(c, effMin, didWork))
    ensures dt >= Tau(c, didWork) ==> Euler(c, effMin, didWork, interval, dt) == Goal(c, effMin, didWork)
  {
    var target, rate := Target(c, effMin, didWork), Rate(dt, Tau(c, didWork));
    RateInUnit(dt, Tau(c, didWork));
    Convex(interval, target, rate, interval + rate * (target - interval));
  }

  // ---- whole runs ----

  datatype Call = Step(didWork: bool, now: real, later: real) | Penalize(now: real, duration: real) | Reset(now: real)

  function Perform(c: Settings, s: State, call: Call): State {
    match call
    case Step(didWork, now, later) => Stepped(c, s, didWork, now, later)
    case Penalize(now, duration) => s.(rateLimitUntil := now + duration)
    case Reset(now) => s.(lastStepTime := now)
  }

  /** The last clock reading of a run that starts at `start`. */
  function Latest(start: real, calls: seq<Call>): real {
    if calls == [] then start
    else var call := calls[|calls| - 1]; if call.Step? then call.later else call.now
  }

  /** The clock never runs backwards, within a call or from one call to the next. */
  ghost predicate Monotone(start: real, calls: seq<Call>) {
    calls != [] ==>
      && Monotone(start, calls[..|calls| - 1])
      && Latest(start, calls[..|calls| - 1]) <= calls[|calls| - 1].now <= Latest(start, calls)
  }

  function Play(c: Settings, start: real, calls: seq<Call>): State {
    if calls == [] then State(c.pollMin, 0.0, start)
    else Perform(c, Play(c, start, calls[..|calls| - 1]), calls[|calls| - 1])
  }

  /** After any sequence of calls the stored interval lies between the configured minimum and the larger of the
      configured maximum and the rate-limit floor, and the step clock is not ahead of the clock. */
  lemma {:induction false} IntervalStaysInRange(c: Settings, start: real, calls: seq<Call>)
    requires c.pollMin <= c.pollMax && Monotone(start, calls)
    ensures c.pollMin <= Play(c, start, calls).interval <= Max(c.pollMax, c.rateLimitFloor)
    ensures Play(c, start, calls).lastStepTime <= Latest(start, calls)
  {
    if calls != [] {
      var before := calls[..|calls| - 1];
      IntervalStaysInRange(c, start, before);
    }
  }

  /** Hence, in any run, every step moves the interval toward its goal without passing it. */
  lemma EveryStepApproaches(c: Settings, start: real, calls: seq<Call>)
    requires c.pollMin <= c.pollMax && Monotone(start, calls) && calls != [] && calls[|calls| - 1].Step?
    ensures
      var s, call := Play(c, start, calls[..|calls| - 1]), calls[|calls| - 1];
      Between(Play(c, start, calls).interval, s.interval, Goal(c, EffectiveMin(c, s, call.later), call.didWork))
  {
    var before := calls[..|calls| - 1];
    IntervalStaysInRange(c, start, before);
    var s, call := Play(c, start, before), calls[|calls| - 1];
    NoOvershoot(c, EffectiveMin(c, s, call.later), call.didWork, s.interval, call.now - s.lastStepTime);
  }

  /** What the poller sleeps for stays between the floor in force and the larger of the maximum and that floor,
      and equals the stored interval whenever the stored interval is in that range. */
  lemma NextIntervalBounds(c: Settings, start: real, calls: seq<Call>, now: real)
    requires c.pollMin <= c.pollMax && Monotone(start, calls)
    ensures
      var s := Play(c, start, calls);
      var floor := EffectiveMin(c, s, now);
      && c.pollMin <= floor <= NextInterval(c, s, now) <= Max(c.pollMax, floor)
      && (floor <= s.interval <= c.pollMax ==> NextInterval(c, s, now) == s.interval)
      && (s.interval < floor ==> NextInterval(c, s, now) == floor)
      && (s.interval > c.pollMax ==> NextInterval(c, s, now) == Max(c.pollMax, floor))
  {
    IntervalStaysInRange(c, start, calls);
  }

  /** What a step amounts to, by the settings it goes by. From an interval in range, and for `dt` seconds since the step
      clock, work takes off the part dt / tauSpeedup of what the interval is above the floor, and idleness adds the part
      dt / tauSlowdown of what it is below the maximum; all of it once that time has passed. */
  lemma StepBySettings(c: Settings, s: State, didWork: bool, now: real, later: real, floor: real)
    requires floor == EffectiveMin(c, s, later) && floor <= s.interval <= c.pollMax && s.lastStepTime <= now
    ensures
      var dt, next := now - s.lastStepTime, Stepped(c, s, didWork, now, later);
      && next.lastStepTime == now && next.rateLimitUntil == s.rateLimitUntil
      && next.interval ==
           if didWork then
             if dt < c.tauSpeedup then s.interval - dt / c.tauSpeedup * (s.interval - floor) else floor
           else
             if dt < c.tauSlowdown then s.interval + dt / c.tauSlowdown * (c.pollMax - s.interval) else c.pollMax
  {
    var dt, tau := now - s.lastStepTime, Tau(c, didWork);
    EulerInRange(c, floor, didWork, s.interval, dt);
    hide Euler, Rate;
    if dt < tau {
      PartOfTau(dt, tau);
      OtherWay(dt / tau, s.interval, floor);
    }
  }

  lemma EulerInRange(c: Settings, floor: real, didWork: bool, interval: real, dt: real)
    requires floor <= interval <= c.pollMax && dt >= 0.0
    ensures
      var target := Target(c, floor, didWork);
      Euler(c, floor, didWork, interval, dt) ==
        if dt < Tau(c, didWork) then interval + Rate(dt, Tau(c, didWork)) * (target - interval) else target
  {
    var rate, target := Rate(dt, Tau(c, didWork)), Target(c, floor, didWork);
    RateInUnit(dt, Tau(c, didWork));
    Convex(interval, target, rate, interval + rate * (target - interval));
  }

  lemma OtherWay(rate: real, x: real, y: real)
    ensures x + rate * (y - x) == x - rate * (x - y)
  {
  }

  lemma PartOfTau(dt: real, tau: real)
    requires 0.0 <= dt < tau
    ensures Rate(dt, tau) == dt / tau
  {
    assert (dt / tau) * tau == dt;
    assert dt / tau <= 1.0;
  }

  /** The floor in force: while the last penalty lasts the larger of minimum and rate-limit floor, otherwise the
      minimum. */
  lemma {:induction false} FloorOfLastPenalty(c: Settings, start: real, calls: seq<Call>, i: nat, now: real)
    requires i < |calls| && calls[i].Penalize? && forall j :: i < j < |calls| ==> !calls[j].Penalize?
    ensures EffectiveMin(c, Play(c, start, calls), now) ==
              if now < calls[i].now + calls[i].duration && c.rateLimitFloor > c.pollMin
              then c.rateLimitFloor else c.pollMin
  {
    var n := |calls| - 1;
    if i < n {
      FloorOfLastPenalty(c, start, calls[..n], i, now);
    }
  }

  lemma {:induction false} FloorWithoutPenalty(c: Settings, start: real, calls: seq<Call>, now: real)
    requires now >= 0.0 && forall j :: 0 <= j < |calls| ==> !calls[j].Penalize?
    ensures EffectiveMin(c, Play(c, start, calls), now) == c.pollMin
  {
    if calls != [] {
      FloorWithoutPenalty(c, start, calls[..|calls| - 1], now);
    }
  }

  /** The step clock shows the first clock reading of the last step, or the last reset. */
  lemma {:induction false} StepClockOfLastStep(c: Settings, start: real, calls: seq<Call>, i: nat)
    requires i < |calls| && !calls[i].Penalize? && forall j :: i < j < |calls| ==> calls[j].Penalize?
    ensures Play(c, start, calls).lastStepTime == calls[i].now
  {
    if i < |calls| - 1 {
      StepClockOfLastStep(c, start, calls[..|calls| - 1], i);
    }
  }

  // ---- many steps against one ----

  function EulerMany(c: Settings, effMin: real, didWork: bool, interval: real, dts: seq<real>): real {
    if dts == [] then interval
    else Euler(c, effMin, didWork, EulerMany(c, effMin, didWork, interval, dts[..|dts| - 1]), dts[|dts| - 1])
  }

  /** The product of (1 - rate) over the steps. */
  function Decay(tau: real, dts: seq<real>): real {
    if dts == [] then 1.0 else Decay(tau, dts[..|dts| - 1]) * (1.0 - Rate(dts[|dts| - 1], tau))
  }

  function Sum(dts: seq<real>): real {
    if dts == [] then 0.0 else Sum(dts[..|dts| - 1]) + dts[|dts| - 1]
  }

  ghost predicate NonNegative(dts: seq<real>) { forall i :: 0 <= i < |dts| ==> dts[i] >= 0.0 }

  /** With target and floor fixed and an interval in range, the gap that remains is the initial gap times the product
      of (1 - rate). */
  lemma {:induction false} GapDecays(c: Settings, effMin: real, didWork: bool, interval: real, dts: seq<real>)
    requires effMin <= interval <= c.pollMax && NonNegative(dts)
    ensures effMin <= EulerMany(c, effMin, didWork, interval, dts) <= c.pollMax
    ensures GapLaw(c, effMin, didWork, interval, dts)
  {
    hide Rate, Target, Tau, Euler;
    if dts != [] {
      var before, dt := dts[..|dts| - 1], dts[|dts| - 1];
      var target, tau := Target(c, effMin, didWork), Tau(c, didWork);
      GapDecays(c, effMin, didWork, interval, before);
      var x := EulerMany(c, effMin, didWork, interval, before);
      OneGap(c, effMin, didWork, x, dt);
      Combine(target - interval, Decay(tau, before), 1.0 - Rate(dt, tau), target - x,
              target - Euler(c, effMin, didWork, x, dt));
    }
  }

  ghost predicate GapLaw(c: Settings, effMin: real, didWork: bool, interval: real, dts: seq<real>) {
    var target := Target(c, effMin, didWork);
    target - EulerMany(c, effMin, didWork, interval, dts) == (target - interval) * Decay(Tau(c, didWork), dts)
  }

  lemma OneGap(c: Settings, effMin: real, didWork: bool, x: real, dt: real)
    requires effMin <= x <= c.pollMax && dt >= 0.0
    ensures effMin <= Euler(c, effMin, didWork, x, dt) <= c.pollMax
    ensures
      var target := Target(c, effMin, didWork);
      target - Euler(c, effMin, didWork, x, dt) == (target - x) * (1.0 - Rate(dt, Tau(c, didWork)))
  {
    var target, rate := Target(c, effMin, didWork), Rate(dt, Tau(c, didWork));
    RateInUnit(dt, Tau(c, didWork));
    Convex(x, target, rate, x + rate * (target - x));
  }

  lemma Combine(gap: real, before: real, last: real, gapBefore: real, gapAfter: real)
    requires gapBefore == gap * before && gapAfter == gapBefore * last
    ensures gapAfter == gap * (before * last)
  {
  }

  /** The product of (1 - x) is at least 1 minus the sum: splitting an elapsed time leaves at least as much gap. */
  lemma {:induction false} SplittingDecaysLess(tau: real, dts: seq<real>)
    requires NonNegative(dts)
    ensures 1.0 - Rate(Sum(dts), tau) <= Decay(tau, dts) <= 1.0 && Sum(dts) >= 0.0
  {
    if dts == [] {
      RateInUnit(0.0, tau);
      assert tau > 0.0 ==> 0.0 / tau == 0.0;
    } else {
      var before, dt := dts[..|dts| - 1], dts[|dts| - 1];
      SplittingDecaysLess(tau, before);
      RateInUnit(dt, tau);
      RateInUnit(Sum(before), tau);
      RateInUnit(Sum(dts), tau);
      Shrinks(Decay(tau, before), 1.0 - Rate(Sum(before), tau), Rate(dt, tau), Decay(tau, dts));
      RatesAdd(Sum(before), dt, tau);
    }
  }

  lemma RatesAdd(a: real, b: real, tau: real)
    requires a >= 0.0 && b >= 0.0
    ensures Rate(a + b, tau) == Min(Rate(a, tau) + Rate(b, tau), 1.0)
  {
    RateInUnit(a, tau);
    RateInUnit(b, tau);
    if tau > 0.0 {
      assert (a + b) / tau == a / tau + b / tau;
    }
  }

  /** If d is in [1 - a, 1] with a in [0, 1], then d * (1 - r) is in [max(0, 1 - a - r), 1]. */
  lemma Shrinks(d: real, low: real, r: real, e: real)
    requires 0.0 <= low <= d <= 1.0 && 0.0 <= r <= 1.0 && e == d * (1.0 - r)
    ensures 0.0 <= e <= 1.0 && e >= low - r
  {
    NonNeg(d, 1.0 - r);
    NonNeg(d, r);
    NonNeg(1.0 - d, r);
    assert (1.0 - d) * r == r - d * r;
    assert e == d - d * r;
  }

  /** The interval after many steps lies between the start and where one step over the whole time arrives. */
  ghost predicate NoFurther(c: Settings, effMin: real, didWork: bool, interval: real, dts: seq<real>) {
    Between(EulerMany(c, effMin, didWork, interval, dts), interval, Euler(c, effMin, didWork, interval, Sum(dts)))
  }

  /** From an interval in range, splitting an elapsed time into many steps never moves further than one step over the
      whole of it. */
  lemma SplittingMovesNoFurther(c: Settings, effMin: real, didWork: bool, interval: real, dts: seq<real>)
    requires effMin <= interval <= c.pollMax && NonNegative(dts)
    ensures NoFurther(c, effMin, didWork, interval, dts)
  {
    hide Rate, Target, Tau, Euler, EulerMany, Decay, Sum, NonNegative;
    GapDecays(c, effMin, didWork, interval, dts);
    SplittingDecaysLess(Tau(c, didWork), dts);
    OneGap(c, effMin, didWork, interval, Sum(dts));
    LargerShare(
      Target(c, effMin, didWork), interval,
      Euler(c, effMin, didWork, interval, Sum(dts)), EulerMany(c, effMin, didWork, interval, dts),
      1.0 - Rate(Sum(dts), Tau(c, didWork)), Decay(Tau(c, didWork), dts));
  }

  /** The larger the share of a gap that is left, the less of it was covered. */
  lemma LargerShare(target: real, start: real, one: real, many: real, shareOne: real, shareMany: real)
    requires target - one == (target - start) * shareOne && target - many == (target - start) * shareMany
    requires shareOne <= shareMany <= 1.0
    ensures Between(many, start, one)
  {
    if target >= start {
      NonNeg(target - start, shareMany - shareOne);
      NonNeg(target - start, 1.0 - shareMany);
      assert (target - start) * (shareMany - shareOne) == one - many;
      assert (target - start) * (1.0 - shareMany) == many - start;
    } else {
      NonNeg(start - target, shareMany - shareOne);
      NonNeg(start - target, 1.0 - shareMany);
      assert (start - target) * (shareMany - shareOne) == many - one;
      assert (start - target) * (1.0 - shareMany) == start - many;
    }
  }

  // ---- any interval ----

  /** Steps that all arrive at one place arrive there however the time is split. */
  lemma {:induction false} AllArrive(
    c: Settings, effMin: real, didWork: bool, interval: real, dts: seq<real>, place: real)
    requires NonNegative(dts) && dts != []
    requires forall dt :: dt >= 0.0 ==> Euler(c, effMin, didWork, interval, dt) == place
    requires forall dt :: dt >= 0.0 ==> Euler(c, effMin, didWork, place, dt) == place
    ensures EulerMany(c, effMin, didWork, interval, dts) == place
  {
    hide Euler;
    var before, dt := dts[..|dts| - 1], dts[|dts| - 1];
    if before == [] {
      assert EulerMany(c, effMin, didWork, interval, before) == interval;
    } else {
      AllArrive(c, effMin, didWork, interval, before, place);
    }
  }

  /** A step from the side of the range that faces its target, or with no range or no time constant, arrives at once. */
  lemma ArrivesAtOnce(c: Settings, effMin: real, didWork: bool, interval: real, dt: real)
    requires dt >= 0.0
    requires
      || effMin >= c.pollMax
      || Tau(c, didWork) <= 0.0
      || (if didWork then interval <= effMin else c.pollMax <= interval)
    ensures Euler(c, effMin, didWork, interval, dt) == Goal(c, effMin, didWork)
  {
    var target, rate := Target(c, effMin, didWork), Rate(dt, Tau(c, didWork));
    RateInUnit(dt, Tau(c, didWork));
    Convex(interval, target, rate, interval + rate * (target - interval));
  }

  /** Where splitting is harmless: the interval is not beyond the end of the range that its target is away from. */
  predicate SplitsSafely(c: Settings, effMin: real, didWork: bool, interval: real) {
    || effMin >= c.pollMax
    || Tau(c, didWork) <= 0.0
    || (if didWork then interval <= c.pollMax else effMin <= interval)
  }

  /** From any interval, splitting an elapsed time never moves further than one step, however it is split, if and only
      if the interval is not beyond the end of the range that its target is away from. A rate limit takes it there:
      it raises the floor above the interval, while an idle poller steps up. */
  lemma SplittingMovesNoFurtherExactlyWhen(c: Settings, effMin: real, didWork: bool, interval: real)
    ensures (forall dts :: NonNegative(dts) ==> NoFurther(c, effMin, didWork, interval, dts)) <==>
              SplitsSafely(c, effMin, didWork, interval)
  {
    if SplitsSafely(c, effMin, didWork, interval) {
      forall dts | NonNegative(dts) ensures NoFurther(c, effMin, didWork, interval, dts) {
        if dts != [] { SafeSplit(c, effMin, didWork, interval, dts); }
      }
    } else {
      UnsafeSplit(c, effMin, didWork, interval);
    }
  }

  lemma SafeSplit(c: Settings, effMin: real, didWork: bool, interval: real, dts: seq<real>)
    requires SplitsSafely(c, effMin, didWork, interval) && NonNegative(dts) && dts != []
    ensures NoFurther(c, effMin, didWork, interval, dts)
  {
    if effMin <= interval <= c.pollMax {
      SplittingMovesNoFurther(c, effMin, didWork, interval, dts);
    } else {
      var goal := Goal(c, effMin, didWork);
      forall dt | dt >= 0.0
        ensures Euler(c, effMin, didWork, interval, dt) == goal && Euler(c, effMin, didWork, goal, dt) == goal
      {
        ArrivesAtOnce(c, effMin, didWork, interval, dt);
        ArrivesAtOnce(c, effMin, didWork, goal, dt);
      }
      AllArrive(c, effMin, didWork, interval, dts, goal);
      SplittingDecaysLess(Tau(c, didWork), dts);
    }
  }

  /** A step of no time that only brings the interval into range, and then half a time constant. */
  function TwoSteps(tau: real): seq<real> { [0.0, tau / 2.0] }

  lemma UnsafeSplit(c: Settings, effMin: real, didWork: bool, interval: real)
    requires !SplitsSafely(c, effMin, didWork, interval)
    ensures NonNegative(TwoSteps(Tau(c, didWork)))
    ensures !NoFurther(c, effMin, didWork, interval, TwoSteps(Tau(c, didWork)))
  {
    var tau := Tau(c, didWork);
    var dts := TwoSteps(tau);
    var x := Clamp(c, effMin, interval);
    assert dts[..1] == [0.0] && dts[..1][..0] == [];
    HalfRate(tau);
    assert EulerMany(c, effMin, didWork, interval, dts[..1]) == x by {
      assert EulerMany(c, effMin, didWork, interval, []) == interval;
    }
    assert Sum(dts[..1]) == 0.0 && Sum(dts) == tau / 2.0;
    assert EulerMany(c, effMin, didWork, interval, dts) == Euler(c, effMin, didWork, x, tau / 2.0);
  }

  lemma HalfRate(tau: real)
    requires tau > 0.0
    ensures Rate(0.0, tau) == 0.0 && Rate(tau / 2.0, tau) == 0.5 && Rate(tau, tau) == 1.0
  {
    assert 0.0 / tau == 0.0 && (tau / 2.0) / tau == 0.5 && tau / tau == 1.0;
  }

  /** Where the product law holds from: no step is ever cut off by the range. */
  predicate GapLawHolds(c: Settings, effMin: real, didWork: bool, interval: real) {
    if Tau(c, didWork) <= 0.0 then didWork || effMin <= c.pollMax
    else effMin <= interval && (interval <= c.pollMax || (didWork && interval == effMin))
  }

  /** The remaining gap is the initial gap times the product of (1 - rate), however the time is split, if and only if
      the interval starts in range; two corner cases apart, in which every step arrives at its target. */
  lemma GapDecaysExactlyWhen(c: Settings, effMin: real, didWork: bool, interval: real)
    ensures (forall dts :: NonNegative(dts) ==> GapLaw(c, effMin, didWork, interval, dts)) <==>
              GapLawHolds(c, effMin, didWork, interval)
  {
    if GapLawHolds(c, effMin, didWork, interval) {
      forall dts | NonNegative(dts) ensures GapLaw(c, effMin, didWork, interval, dts) {
        LawfulGap(c, effMin, didWork, interval, dts);
      }
    } else {
      LawlessGap(c, effMin, didWork, interval);
    }
  }

  lemma LawfulGap(c: Settings, effMin: real, didWork: bool, interval: real, dts: seq<real>)
    requires GapLawHolds(c, effMin, didWork, interval) && NonNegative(dts)
    ensures GapLaw(c, effMin, didWork, interval, dts)
  {
    if effMin <= interval <= c.pollMax {
      GapDecays(c, effMin, didWork, interval, dts);
    } else if dts != [] {
      var goal, target := Goal(c, effMin, didWork), Target(c, effMin, didWork);
      forall dt | dt >= 0.0
        ensures Euler(c, effMin, didWork, interval, dt) == goal && Euler(c, effMin, didWork, goal, dt) == goal
      {
        ArrivesAtOnce(c, effMin, didWork, interval, dt);
        ArrivesAtOnce(c, effMin, didWork, goal, dt);
      }
      AllArrive(c, effMin, didWork, interval, dts, goal);
      assert goal == target;
      if Tau(c, didWork) <= 0.0 {
        assert Decay(Tau(c, didWork), dts) == 0.0;
      }
    }
  }

  lemma LawlessGap(c: Settings, effMin: real, didWork: bool, interval: real)
    requires !GapLawHolds(c, effMin, didWork, interval)
    ensures NonNegative([0.0]) && NonNegative([Max(Tau(c, didWork), 0.0)])
    ensures !GapLaw(c, effMin, didWork, interval, [0.0])
            || !GapLaw(c, effMin, didWork, interval, [Max(Tau(c, didWork), 0.0)])
  {
    var tau := Tau(c, didWork);
    OneStepOnly(c, effMin, didWork, interval, 0.0);
    OneStepOnly(c, effMin, didWork, interval, Max(tau, 0.0));
    if tau > 0.0 { HalfRate(tau); }
  }

  lemma OneStepOnly(c: Settings, effMin: real, didWork: bool, interval: real, dt: real)
    ensures EulerMany(c, effMin, didWork, interval, [dt]) == Euler(c, effMin, didWork, interval, dt)
    ensures Decay(Tau(c, didWork), [dt]) == 1.0 - Rate(dt, Tau(c, didWork))
  {
    assert [dt][..0] == [];
    assert EulerMany(c, effMin, didWork, interval, []) == interval && Decay(Tau(c, didWork), []) == 1.0;
  }

  /** From any interval the first step brings it into range, and from there on the product law holds. */
  lemma GapDecaysFromTheSecondStep(c: Settings, effMin: real, didWork: bool, interval: real, dt: real, dts: seq<real>)
    requires effMin <= c.pollMax && dt >= 0.0 && NonNegative(dts)
    ensures
      var first := Euler(c, effMin, didWork, interval, dt);
      && effMin <= first <= c.pollMax && GapLaw(c, effMin, didWork, first, dts)
      && EulerMany(c, effMin, didWork, interval, [dt] + dts) == EulerMany(c, effMin, didWork, first, dts)
  {
    GapDecays(c, effMin, didWork, Euler(c, effMin, didWork, interval, dt), dts);
    FirstStepFirst(c, effMin, didWork, interval, dt, dts);
  }

  lemma {:induction false} FirstStepFirst(
    c: Settings, effMin: real, didWork: bool, interval: real, dt: real, dts: seq<real>)
    ensures EulerMany(c, effMin, didWork, interval, [dt] + dts) ==
            EulerMany(c, effMin, didWork, Euler(c, effMin, didWork, interval, dt), dts)
  {
    hide Euler;
    var all := [dt] + dts;
    if dts == [] {
      assert all == [dt];
      OneStepOnly(c, effMin, didWork, interval, dt);
    } else {
      FirstStepFirst(c, effMin, didWork, interval, dt, dts[..|dts| - 1]);
      assert all[..|all| - 1] == [dt] + dts[..|dts| - 1];
    }
  }

  /** The rate limit in a run: a fresh poller is penalized and then idle. One step after half a time constant moves the
      interval up; with one more step at the beginning of that time it ends further up: two steps move further than
      one. */
  lemma RateLimitSpeedsUp(c: Settings, start: real, duration: real)
    requires c.pollMin < c.rateLimitFloor < c.pollMax && 0.0 < c.tauSlowdown / 2.0 < duration
    ensures
      var later := start + c.tauSlowdown / 2.0;
      var limited, idle := Penalize(start, duration), Step(false, later, later);
      var one, two := [limited, idle], [limited, Step(false, start, start), idle];
      && Monotone(start, one) && Monotone(start, two)
      && c.pollMin < Play(c, start, one).interval < Play(c, start, two).interval
  {
    var later := start + c.tauSlowdown / 2.0;
    var limited, idle := Penalize(start, duration), Step(false, later, later);
    var first, second := [limited], [limited, Step(false, start, start)];
    assert first[..0] == [] && second[..1] == first;
    assert [limited, idle][..1] == first && [limited, Step(false, start, start), idle][..2] == second;
    Limited(c, start, duration);
    HalfwayUp(c, State(c.pollMin, start + duration, start), start);
    HalfwayUp(c, State(c.rateLimitFloor, start + duration, start), start);
    hide Stepped, Euler;
    assert Monotone(start, []) && Monotone(start, first) && Monotone(start, second);
  }

  lemma Limited(c: Settings, start: real, duration: real)
    requires c.pollMin < c.rateLimitFloor < c.pollMax && 0.0 < c.tauSlowdown && 0.0 < duration
    ensures
      var limited := Penalize(start, duration);
      && Play(c, start, [limited]) == State(c.pollMin, start + duration, start)
      && Play(c, start, [limited, Step(false, start, start)]) == State(c.rateLimitFloor, start + duration, start)
  {
    var limited, s := Penalize(start, duration), State(c.pollMin, start + duration, start);
    assert [limited][..0] == [] && [limited, Step(false, start, start)][..1] == [limited];
    assert Play(c, start, []) == State(c.pollMin, 0.0, start);
    assert Play(c, start, [limited]) == s;
    HalfRate(c.tauSlowdown);
    assert Stepped(c, s, false, start, start) == State(c.rateLimitFloor, start + duration, start);
  }

  /** Half a time constant takes an idle poller under a rate limit half of the way up. */
  lemma HalfwayUp(c: Settings, s: State, start: real)
    requires c.pollMin < c.rateLimitFloor < c.pollMax && 0.0 < c.tauSlowdown && s.lastStepTime == start
    requires start + c.tauSlowdown / 2.0 < s.rateLimitUntil
    ensures
      var later := start + c.tauSlowdown / 2.0;
      Stepped(c, s, false, later, later).interval == Clamp(c, c.rateLimitFloor, (s.interval + c.pollMax) / 2.0)
  {
    HalfRate(c.tauSlowdown);
  }

  // ---- jitter ----

  /** `sample` is the draw from [-ratio, ratio]. */
  function ApplyJitter(value: real, ratio: real, sample: real): real {
    if !(0.0 < ratio < 1.0) then value else value * (1.0 + sample)
  }

  /** The jittered sleep stays within the ratio of the interval, and is positive if the minimum is. */
  lemma SleepBounds(c: Settings, start: real, calls: seq<Call>, now: real, ratio: real, sample: real)
    requires 0.0 < c.pollMin <= c.pollMax && Monotone(start, calls) && -ratio <= sample <= ratio
    ensures
      var s := Play(c, start, calls);
      var sleep := ApplyJitter(NextInterval(c, s, now), ratio, sample);
      && sleep > 0.0
      && (0.0 < ratio < 1.0 ==>
            NextInterval(c, s, now) * (1.0 - ratio) <= sleep <= NextInterval(c, s, now) * (1.0 + ratio))
  {
    hide Play, NextInterval, Monotone;
    NextIntervalBounds(c, start, calls, now);
    var value := NextInterval(c, Play(c, start, calls), now);
    if 0.0 < ratio < 1.0 {
      JitterBounds(value, ratio, sample, value * (1.0 - ratio), value * (1.0 + sample), value * (1.0 + ratio));
    }
  }

  lemma JitterBounds(value: real, ratio: real, sample: real, low: real, sleep: real, high: real)
    requires value > 0.0 && 0.0 < ratio < 1.0 && -ratio <= sample <= ratio
    requires low == value * (1.0 - ratio) && sleep == value * (1.0 + sample) && high == value * (1.0 + ratio)
    ensures 0.0 < low <= sleep <= high
  {
    NonNeg(value, sample + ratio);
    NonNeg(value, ratio - sample);
    assert value * (sample + ratio) == sleep - low;
    assert value * (ratio - sample) == high - sleep;
  }
}
