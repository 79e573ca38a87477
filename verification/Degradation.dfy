// Degrading the service by level: up at once, down one level per cool-down.
module Degradation {

  // NORMAL, NO_RERANK, LOWER_TOP_K and REJECT_WRITES.
  type Level = l: nat | l <= 3

  const NORMAL: Level := 0
  const REJECT_WRITES: Level := 3

  // The thresholds of level `l` are at index `l - 1`.
  datatype Settings = Settings(
    failureRate: seq<real>, saturation: seq<real>, minSamples: nat, window: nat, recoverAfter: real)
  {
    // With no minimum, an empty window would divide by zero.
    predicate Valid() {
      |failureRate| == 3 && |saturation| == 3 && minSamples > 0
    }
  }

  datatype State = State(
    outcomes: seq<bool>, saturation: real, level: Level, since: real, transitions: map<Level, nat>)

  function Initial(now: real): State {
    State([], 0.0, NORMAL, now, map[])
  }

  function Failures(outcomes: seq<bool>): (n: nat)
    ensures n <= |outcomes|
  {
    if |outcomes| == 0 then 0
    else Failures(outcomes[..|outcomes| - 1]) + if outcomes[|outcomes| - 1] then 0 else 1
  }

  // They are the calls that did not succeed.
  lemma {:induction false} FailuresAreFalse(outcomes: seq<bool>)
    ensures Failures(outcomes) == multiset(outcomes)[false]
  {
    if |outcomes| > 0 {
      FailuresAreFalse(outcomes[..|outcomes| - 1]);
      assert outcomes == outcomes[..|outcomes| - 1] + [outcomes[|outcomes| - 1]];
    }
  }

  // The share of failed calls, or nothing while there are too few calls.
  function FailedShare(outcomes: seq<bool>, minSamples: nat): real
    requires minSamples > 0
  {
    if |outcomes| < minSamples then 0.0 else multiset(outcomes)[false] as real / |outcomes| as real
  }

  // Appending to a queue of bounded length pushes the oldest entry out.
  function Push(outcomes: seq<bool>, window: nat, ok: bool): seq<bool> {
    if window == 0 then []
    else if |outcomes| < window then outcomes + [ok]
    else outcomes[|outcomes| - window + 1..] + [ok]
  }

  function Rate(outcomes: seq<bool>, minSamples: nat): (r: real)
    requires minSamples > 0
    ensures 0.0 <= r <= 1.0
  {
    if |outcomes| < minSamples then 0.0 else Failures(outcomes) as real / |outcomes| as real
  }

  function Saturation(waiting: int, limit: int): real {
    if limit == 0 then 0.0 else waiting as real / limit as real
  }

  predicate Met(cfg: Settings, rate: real, saturation: real, l: Level)
    requires cfg.Valid() && l > 0
  {
    rate >= cfg.failureRate[l - 1] || saturation >= cfg.saturation[l - 1]
  }

  // The highest level with a threshold that is met.
  function TargetOf(cfg: Settings, rate: real, saturation: real): (t: Level)
    requires cfg.Valid()
    ensures t > 0 ==> Met(cfg, rate, saturation, t)
    ensures forall l: Level :: l > t ==> !Met(cfg, rate, saturation, l)
  {
    if Met(cfg, rate, saturation, 3) then 3
    else if Met(cfg, rate, saturation, 2) then 2
    else if Met(cfg, rate, saturation, 1) then 1
    else 0
  }

  function Target(cfg: Settings, s: State): Level
    requires cfg.Valid()
  {
    TargetOf(cfg, Rate(s.outcomes, cfg.minSamples), s.saturation)
  }

  function Switched(s: State, to: Level, now: real): State {
    s.(level := to, since := now,
       transitions := s.transitions[to := (if to in s.transitions then s.transitions[to] else 0) + 1])
  }

  // One call of `level()`: the cool-down is tested at `now`, a switch is dated `later`.
  function Asked(cfg: Settings, s: State, now: real, later: real): State
    requires cfg.Valid()
  {
    var target := Target(cfg, s);
    if target > s.level then Switched(s, target, later)
    else if target < s.level && now - s.since >= cfg.recoverAfter then Switched(s, s.level - 1, later)
    else s
  }

  class DegradationController {
    const settings: Settings
    var outcomes: seq<bool>
    var currentLevel: Level
    var levelSince: real
    var saturation: real
    var transitions: map<Level, nat>

    ghost function View(): State
      reads this
    {
      State(outcomes, saturation, currentLevel, levelSince, transitions)
    }

    constructor (settings: Settings, now: real)
      ensures this.settings == settings && View() == Initial(now)
    {
      this.settings := settings;
      outcomes, currentLevel, levelSince, saturation, transitions := [], NORMAL, now, 0.0, map[];
    }

    method Record(ok: bool)
      requires |outcomes| <= settings.window
      modifies this`outcomes
      ensures View() == old(View()).(outcomes := Push(old(outcomes), settings.window, ok))
      ensures |outcomes| <= settings.window
    {
      outcomes := outcomes + [ok];
      if |outcomes| > settings.window {
        outcomes := outcomes[1..];
      }
    }

    method ObserveSaturation(waiting: int, limit: int)
      modifies this`saturation
      ensures View() == old(View()).(saturation := Saturation(waiting, limit))
    {
      saturation := if limit != 0 then waiting as real / limit as real else 0.0;
    }

    method FailureRate() returns (rate: real)
      requires settings.minSamples > 0
      ensures rate == Rate(outcomes, settings.minSamples)
      ensures rate == FailedShare(outcomes, settings.minSamples)
    {
      FailuresAreFalse(outcomes);
      if |outcomes| < settings.minSamples {
        return 0.0;
      }
      var failed := 0;
      for i := 0 to |outcomes|
        invariant failed == Failures(outcomes[..i])
      {
        assert outcomes[..i + 1][..i] == outcomes[..i];
        if !outcomes[i] {
          failed := failed + 1;
        }
      }
      assert outcomes[..|outcomes|] == outcomes;
      return failed as real / |outcomes| as real;
    }

    method TargetLevel() returns (target: Level)
      requires settings.Valid()
      ensures target == Target(settings, View())
    {
      var rate := FailureRate();
      var sat := saturation;
      target := REJECT_WRITES;
      while target > NORMAL
        invariant forall l: Level :: l > target ==> !Met(settings, rate, sat, l)
      {
        if rate >= settings.failureRate[target - 1] || sat >= settings.saturation[target - 1] {
          return;
        }
        target := target - 1;
      }
    }

    method Ask(now: real, later: real) returns (level: Level)
      requires settings.Valid()
      modifies this
      ensures View() == Asked(settings, old(View()), now, later) && level == currentLevel
    {
      var target := TargetLevel();
      if target > currentLevel {
        Switch(target, later);
      } else if target < currentLevel {
        if now - levelSince >= settings.recoverAfter {
          Switch(currentLevel - 1, later);
        }
      }
      return currentLevel;
    }

    method Switch(to: Level, now: real)
      modifies this
      ensures View() == Switched(old(View()), to, now)
    {
      currentLevel := to;
      levelSince := now;
      transitions := transitions[to := (if to in transitions then transitions[to] else 0) + 1];
    }
  }

  // ---- Runs ----

  datatype Step =
    | Record(ok: bool)
    | Observe(waiting: int, limit: int)
    | Ask(now: real, later: real)

  function Do(cfg: Settings, s: State, step: Step): State
    requires cfg.Valid()
  {
    match step
    case Record(ok) => s.(outcomes := Push(s.outcomes, cfg.window, ok))
    case Observe(waiting, limit) => s.(saturation := Saturation(waiting, limit))
    case Ask(now, later) => Asked(cfg, s, now, later)
  }

  function Run(cfg: Settings, start: real, steps: seq<Step>): State
    requires cfg.Valid()
  {
    if |steps| == 0 then Initial(start) else Do(cfg, Run(cfg, start, steps[..|steps| - 1]), steps[|steps| - 1])
  }

  // The last clock reading.
  function Clock(start: real, steps: seq<Step>): real {
    if |steps| == 0 then start
    else if steps[|steps| - 1].Ask? then steps[|steps| - 1].later
    else Clock(start, steps[..|steps| - 1])
  }

  // The clock never goes back.
  predicate Monotone(start: real, steps: seq<Step>) {
    forall i :: 0 <= i < |steps| && steps[i].Ask? ==> Clock(start, steps[..i]) <= steps[i].now <= steps[i].later
  }

  lemma OneMoreStep(cfg: Settings, start: real, steps: seq<Step>, k: nat)
    requires cfg.Valid() && k < |steps|
    ensures Run(cfg, start, steps[..k + 1]) == Do(cfg, Run(cfg, start, steps[..k]), steps[k])
    ensures Clock(start, steps[..k + 1]) == if steps[k].Ask? then steps[k].later else Clock(start, steps[..k])
  {
    assert steps[..k + 1][..k] == steps[..k];
  }

  // ---- The window ----

  function Recorded(steps: seq<Step>): seq<bool> {
    if |steps| == 0 then []
    else Recorded(steps[..|steps| - 1]) + if steps[|steps| - 1].Record? then [steps[|steps| - 1].ok] else []
  }

  function LastOf(outcomes: seq<bool>, n: nat): seq<bool> {
    if |outcomes| <= n then outcomes else outcomes[|outcomes| - n..]
  }

  lemma PushIsLast(all: seq<bool>, window: nat, ok: bool)
    ensures Push(LastOf(all, window), window, ok) == LastOf(all + [ok], window)
  {
  }

  // The rate that decides is the failure fraction of the last `window` outcomes of the
  // whole run, or zero while there are too few of them.
  lemma RateIsOfTheLastOutcomes(cfg: Settings, start: real, steps: seq<Step>)
    requires cfg.Valid()
    ensures Run(cfg, start, steps).outcomes == LastOf(Recorded(steps), cfg.window)
    ensures Target(cfg, Run(cfg, start, steps))
         == TargetOf(cfg, FailedShare(LastOf(Recorded(steps), cfg.window), cfg.minSamples), Run(cfg, start, steps).saturation)
  {
    WindowHoldsTheLast(cfg, start, steps);
    hide Run, LastOf, TargetOf;
    ShareIsRate(LastOf(Recorded(steps), cfg.window), cfg.minSamples);
  }

  lemma ShareIsRate(outcomes: seq<bool>, minSamples: nat)
    requires minSamples > 0
    ensures Rate(outcomes, minSamples) == FailedShare(outcomes, minSamples)
  {
    FailuresAreFalse(outcomes);
  }

  lemma {:induction false} WindowHoldsTheLast(cfg: Settings, start: real, steps: seq<Step>)
    requires cfg.Valid()
    ensures Run(cfg, start, steps).outcomes == LastOf(Recorded(steps), cfg.window)
  {
    if |steps| > 0 {
      var n := |steps| - 1;
      WindowHoldsTheLast(cfg, start, steps[..n]);
      hide LastOf, Push, TargetOf, Rate;
      if steps[n].Record? {
        PushIsLast(Recorded(steps[..n]), cfg.window, steps[n].ok);
      }
    }
  }

  // ---- Hysteresis ----

  // What one call may do: up to the target at once, down one level after the cool-down.
  lemma AskIsHysteretic(cfg: Settings, s: State, now: real, later: real)
    requires cfg.Valid()
    ensures var t := Asked(cfg, s, now, later);
      && t.level >= Target(cfg, t)
      && (t.level > s.level <==> Target(cfg, s) > s.level)
      && (t.level > s.level ==> t.level == Target(cfg, s) && t.since == later)
      && (t.level < s.level <==> Target(cfg, s) < s.level && now - s.since >= cfg.recoverAfter)
      && (t.level < s.level ==> t.level == s.level - 1 && t.since == later)
      && (t.level == s.level ==> t == s)
  {
  }

  // No call returns a level below what the current load calls for.
  lemma NeverBelowTarget(cfg: Settings, start: real, steps: seq<Step>, now: real, later: real)
    requires cfg.Valid()
    ensures var t := Run(cfg, start, steps + [Ask(now, later)]); t.level >= Target(cfg, t)
  {
    assert (steps + [Ask(now, later)])[..|steps|] == steps;
  }

  lemma {:induction false} SwitchIsPast(cfg: Settings, start: real, steps: seq<Step>)
    requires cfg.Valid() && Monotone(start, steps)
    ensures Run(cfg, start, steps).since <= Clock(start, steps)
  {
    if |steps| > 0 {
      var n := |steps| - 1;
      MonotonePrefix(start, steps, n);
      SwitchIsPast(cfg, start, steps[..n]);
    }
  }

  lemma MonotonePrefix(start: real, steps: seq<Step>, n: nat)
    requires Monotone(start, steps) && n <= |steps|
    ensures Monotone(start, steps[..n])
  {
    forall i | 0 <= i < n && steps[..n][i].Ask?
      ensures Clock(start, steps[..n][..i]) <= steps[..n][i].now <= steps[..n][i].later
    {
      assert steps[..n][..i] == steps[..i];
    }
  }

  // From `a` to `b` one cool-down went by for every level that was lost.
  predicate Slow(cfg: Settings, a: State, b: State) {
    b.since - a.since >= (a.level as real - b.level as real) * cfg.recoverAfter
  }

  lemma StepIsSlow(cfg: Settings, s: State, step: Step)
    requires cfg.Valid() && cfg.recoverAfter >= 0.0
    requires step.Ask? ==> s.since <= step.now <= step.later
    ensures Slow(cfg, s, Do(cfg, s, step))
  {
    var t := Do(cfg, s, step);
    if t.level < s.level {
      assert s.level as real - t.level as real == 1.0;
    } else {
      NotPositive(s.level as real - t.level as real, cfg.recoverAfter);
    }
  }

  lemma NotPositive(a: real, b: real)
    requires a <= 0.0 && b >= 0.0
    ensures a * b <= 0.0
  {
  }

  lemma SlowTransitive(cfg: Settings, a: State, b: State, c: State)
    requires Slow(cfg, a, b) && Slow(cfg, b, c)
    ensures Slow(cfg, a, c)
  {
    AddDrops(a.level as real, b.level as real, c.level as real, cfg.recoverAfter);
  }

  lemma AddDrops(a: real, b: real, c: real, r: real)
    ensures (a - b) * r + (b - c) * r == (a - c) * r
  {
  }

  lemma AskIsInTime(cfg: Settings, start: real, steps: seq<Step>, k: nat)
    requires cfg.Valid() && Monotone(start, steps) && k < |steps|
    ensures steps[k].Ask? ==> Run(cfg, start, steps[..k]).since <= steps[k].now <= steps[k].later
  {
    MonotonePrefix(start, steps, k);
    SwitchIsPast(cfg, start, steps[..k]);
  }

  // Between any two moments of a run the time from switch to switch is at least one
  // cool-down for every level that was lost, whatever happened in between.
  lemma {:induction false} RecoveryTakesTime(cfg: Settings, start: real, steps: seq<Step>, k: nat, n: nat)
    requires cfg.Valid() && cfg.recoverAfter >= 0.0 && Monotone(start, steps) && k <= n <= |steps|
    ensures Slow(cfg, Run(cfg, start, steps[..k]), Run(cfg, start, steps[..n]))
    decreases n - k
  {
    if k < n {
      hide Do, Run, Monotone, Clock, Slow;
      RecoveryTakesTime(cfg, start, steps, k, n - 1);
      OneMoreStep(cfg, start, steps, n - 1);
      AskIsInTime(cfg, start, steps, n - 1);
      StepIsSlow(cfg, Run(cfg, start, steps[..n - 1]), steps[n - 1]);
      SlowTransitive(
        cfg, Run(cfg, start, steps[..k]), Run(cfg, start, steps[..n - 1]), Run(cfg, start, steps[..n]));
    }
  }

  // From REJECT_WRITES back to NORMAL takes at least three cool-downs.
  lemma FullRecoveryTakesThree(cfg: Settings, start: real, steps: seq<Step>, k: nat, n: nat)
    requires cfg.Valid() && cfg.recoverAfter >= 0.0 && Monotone(start, steps) && k <= n <= |steps|
    requires Run(cfg, start, steps[..k]).level == REJECT_WRITES && Run(cfg, start, steps[..n]).level == NORMAL
    ensures Run(cfg, start, steps[..n]).since - Run(cfg, start, steps[..k]).since >= 3.0 * cfg.recoverAfter
  {
    hide Run;
    RecoveryTakesTime(cfg, start, steps, k, n);
  }

  // The bound is reached: with nothing wrong any more, each call after a cool-down
  // takes the level down by one until it is normal.
  lemma {:induction false} CalmServiceRecovers(cfg: Settings, s: State, t: real)
    requires cfg.Valid() && Target(cfg, s) == NORMAL && t == s.since && cfg.recoverAfter >= 0.0
    ensures Cooled(cfg, s, s.level, t).level == NORMAL
    ensures Cooled(cfg, s, s.level, t).since == t + s.level as real * cfg.recoverAfter
    decreases s.level
  {
    if s.level > 0 {
      var next := t + cfg.recoverAfter;
      CalmServiceRecovers(cfg, Asked(cfg, s, next, next), next);
    }
  }

  // `n` calls, one cool-down apart.
  function Cooled(cfg: Settings, s: State, n: nat, t: real): State
    requires cfg.Valid()
    decreases n
  {
    if n == 0 then s
    else
      var next := t + cfg.recoverAfter;
      Cooled(cfg, Asked(cfg, s, next, next), n - 1, next)
  }

  // ---- Counting switches ----

  // How many of the first steps switched to the level.
  function SwitchesTo(cfg: Settings, start: real, steps: seq<Step>, l: Level): nat
    requires cfg.Valid()
  {
    if |steps| == 0 then 0
    else
      var n := |steps| - 1;
      var a, b := Run(cfg, start, steps[..n]).level, Run(cfg, start, steps).level;
      SwitchesTo(cfg, start, steps[..n], l) + if a != b && b == l then 1 else 0
  }

  lemma {:induction false} TransitionsCountSwitches(cfg: Settings, start: real, steps: seq<Step>, l: Level)
    requires cfg.Valid()
    ensures var counts := Run(cfg, start, steps).transitions;
      (if l in counts then counts[l] else 0) == SwitchesTo(cfg, start, steps, l)
  {
    if |steps| > 0 {
      TransitionsCountSwitches(cfg, start, steps[..|steps| - 1], l);
    }
  }
}
