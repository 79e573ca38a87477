// What the controller makes of good and bad days: its observations and answers
// in terms of what happened and of the configured thresholds.
module DegradationRuns {
  import opened Degradation

  // The saturation that decides is the one observed last: waiters per permit, or nothing without a limit.
  lemma {:induction false} SaturationIsTheLastObserved(cfg: Settings, start: real, steps: seq<Step>, k: nat)
    requires cfg.Valid() && k < |steps| && steps[k].Observe?
    requires forall i :: k < i < |steps| ==> !steps[i].Observe?
    ensures var waiting, limit := steps[k].waiting, steps[k].limit;
      Run(cfg, start, steps).saturation == if limit == 0 then 0.0 else waiting as real / limit as real
    decreases |steps|
  {
    var n := |steps| - 1;
    if k < n {
      SaturationIsTheLastObserved(cfg, start, steps[..n], k);
    }
  }

  // ---- The target, read off the thresholds ----

  // The service is degraded to `l` or beyond exactly when a threshold of such a level is reached.
  lemma TargetReaches(cfg: Settings, rate: real, saturation: real, l: Level)
    requires cfg.Valid() && l > 0
    ensures TargetOf(cfg, rate, saturation) >= l <==>
      exists i :: l - 1 <= i < 3 && (rate >= cfg.failureRate[i] || saturation >= cfg.saturation[i])
  {
    var t := TargetOf(cfg, rate, saturation);
    if t >= l {
      assert Met(cfg, rate, saturation, t);
      assert rate >= cfg.failureRate[t - 1] || saturation >= cfg.saturation[t - 1];
    }
    if i :| l - 1 <= i < 3 && (rate >= cfg.failureRate[i] || saturation >= cfg.saturation[i]) {
      var m: Level := i + 1;
      assert Met(cfg, rate, saturation, m);
    }
  }

  // ---- Good and bad days ----

  predicate PositiveThresholds(cfg: Settings)
    requires cfg.Valid()
  {
    forall i :: 0 <= i < 3 ==> cfg.failureRate[i] > 0.0 && cfg.saturation[i] > 0.0
  }

  // Every call succeeds and nobody ever waits.
  predicate Healthy(steps: seq<Step>) {
    forall i :: 0 <= i < |steps| ==> (steps[i].Record? ==> steps[i].ok) && (steps[i].Observe? ==> steps[i].waiting == 0)
  }

  lemma NoFailures(outcomes: seq<bool>)
    requires forall i :: 0 <= i < |outcomes| ==> outcomes[i]
    ensures multiset(outcomes)[false] == 0
  {
    assert false !in outcomes;
  }

  lemma {:induction false} AllFailures(outcomes: seq<bool>)
    requires forall i :: 0 <= i < |outcomes| ==> !outcomes[i]
    ensures multiset(outcomes)[false] == |outcomes|
  {
    if |outcomes| > 0 {
      AllFailures(outcomes[..|outcomes| - 1]);
      assert outcomes == outcomes[..|outcomes| - 1] + [outcomes[|outcomes| - 1]];
    }
  }

  // A healthy service is never degraded.
  lemma {:induction false} HealthyStaysNormal(cfg: Settings, start: real, steps: seq<Step>)
    requires cfg.Valid() && PositiveThresholds(cfg) && Healthy(steps)
    ensures Calm(Run(cfg, start, steps))
  {
    if |steps| > 0 {
      var n := |steps| - 1;
      HealthyStaysNormal(cfg, start, steps[..n]);
      hide Run, Do;
      HealthyStep(cfg, Run(cfg, start, steps[..n]), steps[n]);
      OneMoreStep(cfg, start, steps, n);
      assert steps[..n + 1] == steps;
    }
  }

  predicate Calm(s: State) {
    s.level == NORMAL && s.saturation == 0.0 && forall i :: 0 <= i < |s.outcomes| ==> s.outcomes[i]
  }

  lemma HealthyStep(cfg: Settings, s: State, step: Step)
    requires cfg.Valid() && PositiveThresholds(cfg) && Calm(s)
    requires (step.Record? ==> step.ok) && (step.Observe? ==> step.waiting == 0)
    ensures Calm(Do(cfg, s, step))
  {
    NoFailures(s.outcomes);
    ShareIsRate(s.outcomes, cfg.minSamples);
    hide Rate;
    if step.Record? {
      hide TargetOf;
    }
  }

  // When the last calls all failed and there are enough of them, the next question is answered
  // with the highest level whose failure threshold is 1 or less, or with a higher one.
  lemma FailingIsDegraded(cfg: Settings, start: real, steps: seq<Step>, l: Level, now: real, later: real)
    requires cfg.Valid() && l > 0 && cfg.failureRate[l - 1] <= 1.0
    requires var last := LastOf(Recorded(steps), cfg.window);
      |last| >= cfg.minSamples && forall i :: 0 <= i < |last| ==> !last[i]
    ensures var s := Run(cfg, start, steps);
      FailedShare(s.outcomes, cfg.minSamples) == 1.0 && Asked(cfg, s, now, later).level >= l
  {
    var s := Run(cfg, start, steps);
    WindowHoldsTheLast(cfg, start, steps);
    hide Run, LastOf;
    FailingAsked(cfg, s, l, now, later);
  }

  lemma FailingAsked(cfg: Settings, s: State, l: Level, now: real, later: real)
    requires cfg.Valid() && l > 0 && cfg.failureRate[l - 1] <= 1.0
    requires |s.outcomes| >= cfg.minSamples && forall i :: 0 <= i < |s.outcomes| ==> !s.outcomes[i]
    ensures FailedShare(s.outcomes, cfg.minSamples) == 1.0 && Asked(cfg, s, now, later).level >= l
  {
    AllFailures(s.outcomes);
    ShareIsRate(s.outcomes, cfg.minSamples);
    TargetReaches(cfg, 1.0, s.saturation, l);
    hide Rate, TargetOf, FailedShare;
    assert 1.0 >= cfg.failureRate[l - 1];
    AskIsHysteretic(cfg, s, now, later);
  }
}
