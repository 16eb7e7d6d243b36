/**
 * Properties of the stuck-queue detector: what the stagnation and stuck tests
 * decide, the invariant one evaluation keeps, and what repeated evaluations of
 * one queue guarantee (alert spacing, alternating transitions, the reported
 * stuck duration), plus how one Analyze batch treats distinct queues.
 */
module AnalyzerProps {
  import opened Wrappers
  import Config
  import RabbitMQ
  import opened Analyzer

  // ---------------------------------------------------------------------------
  // The stagnation and stuck tests
  // ---------------------------------------------------------------------------

  /**
   * Reference reading of the stagnation test: over the recent window the ready count is not
   * (near) zero at both ends and it fell by fewer messages than checks spanned, or not at all.
   */
  lemma StagnantIffSlowDrain(h: seq<QueueSnapshot>, cfg: Config.DetectionConfig)
    requires |h| >= 2 && cfg.thresholdChecks >= 1
    ensures var w := RecentWindow(h, cfg.thresholdChecks);
      var first := w[0].messagesReady;
      var last := w[|w| - 1].messagesReady;
      IsMessageCountStagnant(h, cfg) <==>
        (first > 0 || last > 0) && (last >= first || first - last < |w| - 1)
  {
  }

  /** A count that drops by at least one between every two consecutive samples. */
  predicate SteadyDrain(h: seq<QueueSnapshot>) {
    forall j :: 0 <= j < |h| - 1 ==> h[j].messagesReady - h[j + 1].messagesReady >= 1
  }

  /** Telescoping: a steady drain loses at least one message per step overall. */
  lemma {:induction false} SteadyDrainTotal(h: seq<QueueSnapshot>)
    requires |h| >= 1 && SteadyDrain(h)
    ensures h[0].messagesReady - h[|h| - 1].messagesReady >= |h| - 1
  {
    if |h| > 1 {
      var t := h[1..];
      assert SteadyDrain(t) by {
        forall j | 0 <= j < |t| - 1
          ensures t[j].messagesReady - t[j + 1].messagesReady >= 1
        {
          assert t[j] == h[j + 1] && t[j + 1] == h[j + 2];
        }
      }
      SteadyDrainTotal(t);
      assert h[|h| - 1] == t[|t| - 1];
    }
  }

  /** The recent window of a steadily drained history is steadily drained. */
  lemma WindowKeepsDrain(h: seq<QueueSnapshot>, t: int)
    requires t >= 1 && SteadyDrain(h)
    ensures SteadyDrain(RecentWindow(h, t))
  {
    var w := RecentWindow(h, t);
    forall j | 0 <= j < |w| - 1
      ensures w[j].messagesReady - w[j + 1].messagesReady >= 1
    {
      var off := |h| - |w|;
      assert w[j] == h[off + j] && w[j + 1] == h[off + j + 1];
    }
  }

  /**
   * A queue that is drained by at least one message per check is never stagnant (once the window
   * spans two or more checks): slow-but-progressing consumers are not flagged.
   */
  lemma SteadyDrainNotStagnant(h: seq<QueueSnapshot>, cfg: Config.DetectionConfig)
    requires |h| >= 2 && cfg.thresholdChecks >= 2
    requires SteadyDrain(h)
    ensures !IsMessageCountStagnant(h, cfg)
  {
    var w := RecentWindow(h, cfg.thresholdChecks);
    WindowKeepsDrain(h, cfg.thresholdChecks);
    SteadyDrainTotal(w);
    assert w[0].messagesReady - w[|w| - 1].messagesReady >= |w| - 1;
  }

  /**
   * With a threshold of one check the window is the newest sample alone, so its two ends
   * coincide: every history of two or more samples whose newest count is positive is stagnant,
   * however fast the count falls.
   */
  lemma ThresholdOneAlwaysStagnant(h: seq<QueueSnapshot>, cfg: Config.DetectionConfig)
    requires |h| >= 2 && cfg.thresholdChecks == 1 && h[|h| - 1].messagesReady > 0
    ensures IsMessageCountStagnant(h, cfg)
  {
    assert RecentWindow(h, 1) == [h[|h| - 1]];
  }

  /** Ready counts 50 then 40 with a threshold of one check: reported stuck although draining. */
  lemma ThresholdOneFlagsDrainingQueue()
    ensures IsQueueStuck([Idle(50, 0), Idle(40, 1)], Config.DefaultDetection.(thresholdChecks := 1))
         == Verdict(true, ReasonNoConsumers)
  {
    ThresholdOneAlwaysStagnant([Idle(50, 0), Idle(40, 1)], Config.DefaultDetection.(thresholdChecks := 1));
  }

  /**
   * The stagnation test with a window of at least two samples, so that it always compares
   * across one check or more; the trimmed history keeps threshold + 1 samples for that purpose.
   * It agrees with the test as written from a threshold of two on.
   */
  function IsMessageCountStagnantCorrected(h: seq<QueueSnapshot>, cfg: Config.DetectionConfig): (r: bool)
    requires |h| < 2 || cfg.thresholdChecks >= 1
    ensures cfg.thresholdChecks >= 2 ==> r == IsMessageCountStagnant(h, cfg)
    ensures r ==> |h| >= 2
  {
    IsMessageCountStagnant(h, cfg.(thresholdChecks := if cfg.thresholdChecks >= 2 then cfg.thresholdChecks else 2))
  }

  /** Under the corrected test a steadily drained queue is never stagnant, for every valid threshold. */
  lemma CorrectedSteadyDrainNotStagnant(h: seq<QueueSnapshot>, cfg: Config.DetectionConfig)
    requires |h| >= 2 && cfg.thresholdChecks >= 1
    requires SteadyDrain(h)
    ensures !IsMessageCountStagnantCorrected(h, cfg)
  {
    SteadyDrainNotStagnant(h, cfg.(thresholdChecks := if cfg.thresholdChecks >= 2 then cfg.thresholdChecks else 2));
  }

  /** Under the corrected test, 50 then 40 with a threshold of one check is not stagnant. */
  lemma CorrectedThresholdOneDrainingHealthy()
    ensures !IsMessageCountStagnantCorrected([Idle(50, 0), Idle(40, 1)], Config.DefaultDetection.(thresholdChecks := 1))
  {
    CorrectedSteadyDrainNotStagnant([Idle(50, 0), Idle(40, 1)], Config.DefaultDetection.(thresholdChecks := 1));
  }

  /** A ready count that never moves (and is positive) is stagnant. */
  lemma ConstantCountIsStagnant(h: seq<QueueSnapshot>, cfg: Config.DetectionConfig, c: int)
    requires |h| >= 2 && cfg.thresholdChecks >= 1 && c > 0
    requires forall j :: 0 <= j < |h| ==> h[j].messagesReady == c
    ensures IsMessageCountStagnant(h, cfg)
  {
    var w := RecentWindow(h, cfg.thresholdChecks);
    var off := |h| - |w|;
    assert w[0] == h[off] && w[|w| - 1] == h[off + |w| - 1];
  }

  /** Two histories of equal length whose samples report the same ready counts. */
  predicate SameCounts(h1: seq<QueueSnapshot>, h2: seq<QueueSnapshot>) {
    |h1| == |h2| && forall j :: 0 <= j < |h1| ==> h1[j].messagesReady == h2[j].messagesReady
  }

  /** The stagnation test reads only the ready counts, never the rates or the consumer count. */
  lemma StagnationReadsOnlyCounts(h1: seq<QueueSnapshot>, h2: seq<QueueSnapshot>, cfg: Config.DetectionConfig)
    requires |h1| < 2 || cfg.thresholdChecks >= 1
    requires SameCounts(h1, h2)
    ensures IsMessageCountStagnant(h1, cfg) == IsMessageCountStagnant(h2, cfg)
  {
    if |h1| >= 2 {
      var w1 := RecentWindow(h1, cfg.thresholdChecks);
      var w2 := RecentWindow(h2, cfg.thresholdChecks);
      var off := |h1| - |w1|;
      assert w1[0].messagesReady == w2[0].messagesReady by {
        assert w1[0] == h1[off] && w2[0] == h2[off];
      }
      assert w1[|w1| - 1].messagesReady == w2[|w2| - 1].messagesReady by {
        assert w1[|w1| - 1] == h1[|h1| - 1] && w2[|w2| - 1] == h2[|h2| - 1];
      }
    }
  }

  /**
   * Whether a queue is stuck does not depend on its rates, its consumer count or the rate
   * threshold: the rate test only chooses the reason. Two histories with the same ready counts
   * under configurations that differ at most in the rate threshold get the same verdict.
   */
  lemma VerdictIgnoresRates(h1: seq<QueueSnapshot>, h2: seq<QueueSnapshot>,
                            cfg1: Config.DetectionConfig, cfg2: Config.DetectionConfig)
    requires cfg1.thresholdChecks >= 1
    requires cfg2 == cfg1.(minConsumeRate := cfg2.minConsumeRate)
    requires SameCounts(h1, h2)
    ensures IsQueueStuck(h1, cfg1).stuck == IsQueueStuck(h2, cfg2).stuck
  {
    StagnationReadsOnlyCounts(h1, h2, cfg1);
    assert IsMessageCountStagnant(h2, cfg1) == IsMessageCountStagnant(h2, cfg2);
  }

  /** With rate checking disabled (negative threshold) every stuck verdict is "no progress". */
  lemma RatesDisabledReason(h: seq<QueueSnapshot>, cfg: Config.DetectionConfig)
    requires cfg.thresholdChecks >= 1 && cfg.minConsumeRate < 0.0
    requires IsQueueStuck(h, cfg).stuck
    ensures IsQueueStuck(h, cfg).reason == ReasonNoProgress
  {
  }

  /** A sample with no consumers and no traffic. */
  function Idle(ready: int, now: int): QueueSnapshot {
    QueueSnapshot(now, ready, 0.0, 0.0, 0)
  }

  /** Ready counts 50, 50, 50 with no consumers under the defaults: stuck, for lack of consumers. */
  lemma ExampleStuckWithoutConsumers()
    ensures IsQueueStuck([Idle(50, 0), Idle(50, 1), Idle(50, 2)], Config.DefaultDetection)
         == Verdict(true, ReasonNoConsumers)
  {
    var h := [Idle(50, 0), Idle(50, 1), Idle(50, 2)];
    assert RecentWindow(h, 3) == h;
  }

  /** Ready counts 50, 40, 25 under the defaults: draining, hence healthy despite zero rates. */
  lemma ExampleDrainingIsHealthy()
    ensures IsQueueStuck([Idle(50, 0), Idle(40, 1), Idle(25, 2)], Config.DefaultDetection)
         == Verdict(false, "")
  {
    var h := [Idle(50, 0), Idle(40, 1), Idle(25, 2)];
    assert RecentWindow(h, 3) == h;
  }

  // ---------------------------------------------------------------------------
  // One evaluation
  // ---------------------------------------------------------------------------

  /** The verdict one evaluation reaches, on the history after the new snapshot is recorded. */
  function StepVerdict(st: QueueState, q: RabbitMQ.QueueInfo, cfg: Config.DetectionConfig, now: int): Verdict
    requires cfg.thresholdChecks >= 0
  {
    IsQueueStuck(RecordSnapshot(st, q, cfg, now).history, cfg)
  }

  /** One evaluation is the hysteresis step chosen by the verdict, on the state with the new history. */
  lemma StepUnfold(st: QueueState, q: RabbitMQ.QueueInfo, cfg: Config.DetectionConfig, now: int)
    requires cfg.thresholdChecks >= 0
    ensures var st1 := RecordSnapshot(st, q, cfg, now);
      var v := StepVerdict(st, q, cfg, now);
      && st1 == st.(history := st1.history)
      && Step(st, q, cfg, now) == if v.stuck then OnStuck(st1, q, cfg, now, v.reason) else OnHealthy(st1, q, now)
  {
  }

  /** One evaluation counts a stuck verdict and resets the streak on a healthy one. */
  lemma StepCounter(st: QueueState, q: RabbitMQ.QueueInfo, cfg: Config.DetectionConfig, now: int)
    requires cfg.thresholdChecks >= 0
    ensures Step(st, q, cfg, now).state.consecutiveStuck ==
      (if StepVerdict(st, q, cfg, now).stuck then st.consecutiveStuck + 1 else 0)
  {
    StepUnfold(st, q, cfg, now);
  }

  /**
   * The hysteresis machine: a queue enters "stuck" when a stuck verdict brings its streak to the
   * threshold while it is not already stuck, and leaves it on the first healthy verdict; nothing
   * else moves the state or the stuck-since time.
   */
  lemma StepTransition(st: QueueState, q: RabbitMQ.QueueInfo, cfg: Config.DetectionConfig, now: int)
    requires cfg.thresholdChecks >= 0
    ensures var v := StepVerdict(st, q, cfg, now);
      var r := Step(st, q, cfg, now);
      && ((r.transition.Some? && r.transition.value.toState == Stuck) <==>
            v.stuck && st.lastKnownState != Stuck && st.consecutiveStuck + 1 >= cfg.thresholdChecks)
      && ((r.transition.Some? && r.transition.value.toState == Healthy) <==>
            !v.stuck && st.lastKnownState == Stuck)
      && (r.transition.Some? ==>
            ((r.transition.value.fromState, r.transition.value.toState) == (Healthy, Stuck)
             || (r.transition.value.fromState, r.transition.value.toState) == (Stuck, Healthy))
            && r.transition.value.queueName == q.name && r.transition.value.timestamp == now)
      && r.state.lastKnownState == (if r.transition.Some? then r.transition.value.toState else st.lastKnownState)
      && r.state.stuckSince ==
           (if r.transition.Some? && r.transition.value.toState == Stuck then Some(now) else st.stuckSince)
  {
    StepUnfold(st, q, cfg, now);
  }

  /** A recovery reports the time since the stuck state was entered; an entry reports the verdict's reason. */
  lemma StepTransitionPayload(st: QueueState, q: RabbitMQ.QueueInfo, cfg: Config.DetectionConfig, now: int)
    requires cfg.thresholdChecks >= 0
    ensures var r := Step(st, q, cfg, now);
      && (r.transition.Some? && r.transition.value.toState == Healthy ==>
            r.transition.value.stuckDuration == Elapsed(now, st.stuckSince) && r.transition.value.reason == "")
      && (r.transition.Some? && r.transition.value.toState == Stuck ==>
            r.transition.value.reason == StepVerdict(st, q, cfg, now).reason)
  {
    StepUnfold(st, q, cfg, now);
  }

  /**
   * The alert throttle: an alert is raised exactly when the verdict is stuck, the streak has
   * reached the threshold and the previous alert is at least five minutes old (or there was none);
   * the alert time moves only when an alert is raised.
   */
  lemma StepAlert(st: QueueState, q: RabbitMQ.QueueInfo, cfg: Config.DetectionConfig, now: int)
    requires cfg.thresholdChecks >= 0
    ensures var v := StepVerdict(st, q, cfg, now);
      var r := Step(st, q, cfg, now);
      && (r.alert.Some? <==>
            v.stuck && st.consecutiveStuck + 1 >= cfg.thresholdChecks
            && Elapsed(now, st.lastAlertTime) >= AlertThrottle)
      && r.state.lastAlertTime == (if r.alert.Some? then Some(now) else st.lastAlertTime)
      && (r.alert.Some? ==>
            r.alert.value.queueName == q.name && r.alert.value.timestamp == now
            && r.alert.value.consecutiveStuck == st.consecutiveStuck + 1 && r.alert.value.reason == v.reason)
  {
    StepUnfold(st, q, cfg, now);
  }

  /**
   * The invariant of a queue's state under a fixed threshold of at least one: it is in the stuck
   * state exactly when its streak has reached the threshold, it then knows since when, and its
   * history holds at most threshold + 1 samples.
   */
  predicate Consistent(s: QueueState, cfg: Config.DetectionConfig) {
    && (s.lastKnownState == Stuck <==> s.consecutiveStuck >= cfg.thresholdChecks)
    && (s.lastKnownState == Stuck ==> s.stuckSince.Some?)
    && |s.history| <= cfg.thresholdChecks + 1
  }

  lemma NewStateConsistent(name: string, cfg: Config.DetectionConfig)
    requires cfg.thresholdChecks >= 1
    ensures Consistent(NewQueueState(name), cfg)
  {
  }

  lemma StepPreservesConsistent(st: QueueState, q: RabbitMQ.QueueInfo, cfg: Config.DetectionConfig, now: int)
    requires cfg.thresholdChecks >= 1
    requires Consistent(st, cfg)
    ensures Consistent(Step(st, q, cfg, now).state, cfg)
  {
    StepCounter(st, q, cfg, now);
    StepTransition(st, q, cfg, now);
  }

  // ---------------------------------------------------------------------------
  // Repeated evaluations of one queue
  // ---------------------------------------------------------------------------

  /** One poll of one queue: what the broker reported and when. */
  datatype Observation = Observation(info: RabbitMQ.QueueInfo, now: int)

  /** A per-poll evaluation function. */
  type Evaluator = (QueueState, Observation) -> StepResult

  /** The outcomes of evaluating a series of polls in order, each on the state the previous one left. */
  function Run(st: QueueState, obs: seq<Observation>, eval: Evaluator): (rs: seq<StepResult>)
    ensures |rs| == |obs|
    decreases |obs|
  {
    if obs == [] then []
    else
      var r := eval(st, obs[0]);
      [r] + Run(r.state, obs[1..], eval)
  }

  /** The state before poll k (k = |obs|: after the last poll). */
  function StateOf(st: QueueState, obs: seq<Observation>, eval: Evaluator, k: nat): QueueState
    requires k <= |obs|
  {
    if k == 0 then st else Run(st, obs, eval)[k - 1].state
  }

  /** Poll k evaluates the state the previous polls left. */
  lemma {:induction false} RunStep(st: QueueState, obs: seq<Observation>, eval: Evaluator, k: nat)
    requires k < |obs|
    ensures Run(st, obs, eval)[k] == eval(StateOf(st, obs, eval, k), obs[k])
    decreases k
  {
    if k > 0 {
      var r := eval(st, obs[0]);
      var rest := Run(r.state, obs[1..], eval);
      assert Run(st, obs, eval) == [r] + rest;
      RunStep(r.state, obs[1..], eval, k - 1);
      assert obs[1..][k - 1] == obs[k];
      if k > 1 {
        assert Run(st, obs, eval)[k - 1] == rest[k - 2];
      }
    }
  }

  /** What the alert throttle promises of every evaluation. */
  ghost predicate Throttles(eval: Evaluator) {
    forall s, o ::
      && eval(s, o).state.lastAlertTime == (if eval(s, o).alert.Some? then Some(o.now) else s.lastAlertTime)
      && (eval(s, o).alert.Some? ==> Elapsed(o.now, s.lastAlertTime) >= AlertThrottle)
  }

  /** What the hysteresis machine promises of every evaluation. */
  ghost predicate Hysteresis(eval: Evaluator) {
    forall s, o :: HysteresisStep(s, o, eval(s, o))
  }

  /** One evaluation of the hysteresis machine, from state `s` at observation `o` with outcome `r`. */
  predicate HysteresisStep(s: QueueState, o: Observation, r: StepResult) {
    && r.state.lastKnownState == (if r.transition.Some? then r.transition.value.toState else s.lastKnownState)
    && r.state.stuckSince ==
         (if r.transition.Some? && r.transition.value.toState == Stuck then Some(o.now) else s.stuckSince)
    && (r.transition.Some? ==>
          || (r.transition.value.fromState == Healthy && r.transition.value.toState == Stuck
              && s.lastKnownState != Stuck)
          || (r.transition.value.fromState == Stuck && r.transition.value.toState == Healthy
              && s.lastKnownState == Stuck
              && r.transition.value.stuckDuration == Elapsed(o.now, s.stuckSince)))
  }

  /** An evaluation that keeps every consistent state consistent under `cfg`. */
  ghost predicate KeepsConsistent(eval: Evaluator, cfg: Config.DetectionConfig) {
    forall s, o :: Consistent(s, cfg) ==> Consistent(eval(s, o).state, cfg)
  }

  /** The invariant holds before every poll of a series that starts in a consistent state. */
  lemma {:induction false} RunConsistent(st: QueueState, obs: seq<Observation>, eval: Evaluator,
                                         cfg: Config.DetectionConfig, k: nat)
    requires KeepsConsistent(eval, cfg) && Consistent(st, cfg)
    requires k <= |obs|
    ensures Consistent(StateOf(st, obs, eval, k), cfg)
  {
    if k > 0 {
      RunConsistent(st, obs, eval, cfg, k - 1);
      RunStep(st, obs, eval, k - 1);
    }
  }

  /** Without an alert in polls i .. j-1, the time of the last alert does not move. */
  lemma {:induction false} AlertMarkPersists(st: QueueState, obs: seq<Observation>, eval: Evaluator, i: nat, j: nat)
    requires Throttles(eval)
    requires i <= j <= |obs|
    requires forall m :: i <= m < j ==> Run(st, obs, eval)[m].alert.None?
    ensures StateOf(st, obs, eval, j).lastAlertTime == StateOf(st, obs, eval, i).lastAlertTime
  {
    if j > i {
      AlertMarkPersists(st, obs, eval, i, j - 1);
      RunStep(st, obs, eval, j - 1);
    }
  }

  /** Under a throttling evaluation, any two alerts are at least five minutes apart. */
  lemma AlertsApart(st: QueueState, obs: seq<Observation>, eval: Evaluator, i: nat, j: nat)
    requires Throttles(eval)
    requires i < j < |obs|
    requires Run(st, obs, eval)[i].alert.Some? && Run(st, obs, eval)[j].alert.Some?
    ensures obs[j].now - obs[i].now >= AlertThrottle
    decreases j - i
  {
    var rs := Run(st, obs, eval);
    if m :| i < m < j && rs[m].alert.Some? {
      AlertsApart(st, obs, eval, i, m);
      AlertsApart(st, obs, eval, m, j);
    } else {
      RunStep(st, obs, eval, i);
      AlertMarkPersists(st, obs, eval, i + 1, j);
      RunStep(st, obs, eval, j);
    }
  }

  /** Without a transition in polls i .. j-1, the hysteresis state and the stuck-since time do not move. */
  lemma {:induction false} QuietSteps(st: QueueState, obs: seq<Observation>, eval: Evaluator, i: nat, j: nat)
    requires Hysteresis(eval)
    requires i <= j <= |obs|
    requires forall m :: i <= m < j ==> Run(st, obs, eval)[m].transition.None?
    ensures StateOf(st, obs, eval, j).lastKnownState == StateOf(st, obs, eval, i).lastKnownState
    ensures StateOf(st, obs, eval, j).stuckSince == StateOf(st, obs, eval, i).stuckSince
  {
    if j > i {
      QuietSteps(st, obs, eval, i, j - 1);
      RunStep(st, obs, eval, j - 1);
      assert HysteresisStep(StateOf(st, obs, eval, j - 1), obs[j - 1], Run(st, obs, eval)[j - 1]);
    }
  }

  /** Under the hysteresis machine, consecutive transitions alternate. */
  lemma Alternation(st: QueueState, obs: seq<Observation>, eval: Evaluator, i: nat, j: nat)
    requires Hysteresis(eval)
    requires i < j < |obs|
    requires Run(st, obs, eval)[i].transition.Some? && Run(st, obs, eval)[j].transition.Some?
    requires forall m :: i < m < j ==> Run(st, obs, eval)[m].transition.None?
    ensures Run(st, obs, eval)[j].transition.value.fromState == Run(st, obs, eval)[i].transition.value.toState
    ensures Run(st, obs, eval)[j].transition.value.toState != Run(st, obs, eval)[i].transition.value.toState
  {
    RunStep(st, obs, eval, i);
    assert HysteresisStep(StateOf(st, obs, eval, i), obs[i], Run(st, obs, eval)[i]);
    QuietSteps(st, obs, eval, i + 1, j);
    RunStep(st, obs, eval, j);
    assert HysteresisStep(StateOf(st, obs, eval, j), obs[j], Run(st, obs, eval)[j]);
  }

  /** Under the hysteresis machine, the duration reported on recovery spans the stuck episode. */
  lemma EpisodeDuration(st: QueueState, obs: seq<Observation>, eval: Evaluator, i: nat, j: nat)
    requires Hysteresis(eval)
    requires i < j < |obs|
    requires Run(st, obs, eval)[i].transition.Some? && Run(st, obs, eval)[i].transition.value.toState == Stuck
    requires Run(st, obs, eval)[j].transition.Some? && Run(st, obs, eval)[j].transition.value.toState == Healthy
    requires forall m :: i < m < j ==> Run(st, obs, eval)[m].transition.None?
    ensures Run(st, obs, eval)[j].transition.value.stuckDuration == obs[j].now - obs[i].now
  {
    RunStep(st, obs, eval, i);
    assert HysteresisStep(StateOf(st, obs, eval, i), obs[i], Run(st, obs, eval)[i]);
    QuietSteps(st, obs, eval, i + 1, j);
    RunStep(st, obs, eval, j);
    assert HysteresisStep(StateOf(st, obs, eval, j), obs[j], Run(st, obs, eval)[j]);
  }

  /** The detector's evaluation of one queue under a fixed configuration. */
  function Detector(cfg: Config.DetectionConfig): Evaluator
    requires cfg.thresholdChecks >= 0
  {
    (s: QueueState, o: Observation) => Step(s, o.info, cfg, o.now)
  }

  /** The detector throttles its alerts. */
  lemma DetectorThrottles(cfg: Config.DetectionConfig)
    requires cfg.thresholdChecks >= 0
    ensures Throttles(Detector(cfg))
  {
    forall s, o
      ensures && Detector(cfg)(s, o).state.lastAlertTime ==
                 (if Detector(cfg)(s, o).alert.Some? then Some(o.now) else s.lastAlertTime)
              && (Detector(cfg)(s, o).alert.Some? ==> Elapsed(o.now, s.lastAlertTime) >= AlertThrottle)
    {
      StepAlert(s, o.info, cfg, o.now);
    }
  }

  /** The detector follows the hysteresis machine. */
  lemma DetectorHysteresis(cfg: Config.DetectionConfig)
    requires cfg.thresholdChecks >= 0
    ensures Hysteresis(Detector(cfg))
  {
    forall s, o
      ensures HysteresisStep(s, o, Detector(cfg)(s, o))
    {
      StepTransition(s, o.info, cfg, o.now);
      StepTransitionPayload(s, o.info, cfg, o.now);
    }
  }

  /** The detector keeps a queue's state consistent. */
  lemma DetectorKeepsConsistent(cfg: Config.DetectionConfig)
    requires cfg.thresholdChecks >= 1
    ensures KeepsConsistent(Detector(cfg), cfg)
  {
    forall s, o | Consistent(s, cfg)
      ensures Consistent(Detector(cfg)(s, o).state, cfg)
    {
      StepPreservesConsistent(s, o.info, cfg, o.now);
    }
  }

  /** The outcomes of the polls of one queue, in order. */
  function Results(st: QueueState, obs: seq<Observation>, cfg: Config.DetectionConfig): (rs: seq<StepResult>)
    requires cfg.thresholdChecks >= 0
    ensures |rs| == |obs|
  {
    Run(st, obs, Detector(cfg))
  }

  /** Poll k of a queue is one evaluation of the state the earlier polls left. */
  lemma DetectorStep(st: QueueState, obs: seq<Observation>, cfg: Config.DetectionConfig, k: nat)
    requires cfg.thresholdChecks >= 0
    requires k < |obs|
    ensures Results(st, obs, cfg)[k] == Step(StateOf(st, obs, Detector(cfg), k), obs[k].info, cfg, obs[k].now)
  {
    RunStep(st, obs, Detector(cfg), k);
  }

  /** A queue that starts consistent is consistent before every poll and after the last. */
  lemma TraceConsistent(st: QueueState, obs: seq<Observation>, cfg: Config.DetectionConfig, k: nat)
    requires cfg.thresholdChecks >= 1
    requires Consistent(st, cfg)
    requires k <= |obs|
    ensures Consistent(StateOf(st, obs, Detector(cfg), k), cfg)
  {
    DetectorKeepsConsistent(cfg);
    RunConsistent(st, obs, Detector(cfg), cfg, k);
  }

  /**
   * Any two alerts for one queue are at least five minutes apart, whatever the polling times.
   * No ordering of the clock readings is assumed.
   */
  lemma AlertsFiveMinutesApart(st: QueueState, obs: seq<Observation>, cfg: Config.DetectionConfig, i: nat, j: nat)
    requires cfg.thresholdChecks >= 0
    requires i < j < |obs|
    requires Results(st, obs, cfg)[i].alert.Some? && Results(st, obs, cfg)[j].alert.Some?
    ensures obs[j].now - obs[i].now >= AlertThrottle
  {
    DetectorThrottles(cfg);
    AlertsApart(st, obs, Detector(cfg), i, j);
  }

  /**
   * Consecutive transitions of one queue alternate: each leaves the state the previous one
   * entered, so "stuck" and "recovered" reports interleave.
   */
  lemma TransitionsAlternate(st: QueueState, obs: seq<Observation>, cfg: Config.DetectionConfig, i: nat, j: nat)
    requires cfg.thresholdChecks >= 0
    requires i < j < |obs|
    requires Results(st, obs, cfg)[i].transition.Some? && Results(st, obs, cfg)[j].transition.Some?
    requires forall m :: i < m < j ==> Results(st, obs, cfg)[m].transition.None?
    ensures Results(st, obs, cfg)[j].transition.value.fromState == Results(st, obs, cfg)[i].transition.value.toState
    ensures Results(st, obs, cfg)[j].transition.value.toState != Results(st, obs, cfg)[i].transition.value.toState
  {
    DetectorHysteresis(cfg);
    Alternation(st, obs, Detector(cfg), i, j);
  }

  /** Starting from a state that never changed, the first transition a queue reports is into "stuck". */
  lemma FirstTransitionEntersStuck(st: QueueState, obs: seq<Observation>, cfg: Config.DetectionConfig, j: nat)
    requires cfg.thresholdChecks >= 0
    requires st.lastKnownState == Unset
    requires j < |obs|
    requires Results(st, obs, cfg)[j].transition.Some?
    requires forall m :: 0 <= m < j ==> Results(st, obs, cfg)[m].transition.None?
    ensures Results(st, obs, cfg)[j].transition.value.toState == Stuck
  {
    var eval := Detector(cfg);
    DetectorHysteresis(cfg);
    QuietSteps(st, obs, eval, 0, j);
    RunStep(st, obs, eval, j);
    assert HysteresisStep(StateOf(st, obs, eval, j), obs[j], Run(st, obs, eval)[j]);
  }

  /** The duration reported on recovery is the time since the poll that entered the stuck state. */
  lemma StuckDurationSpansEpisode(st: QueueState, obs: seq<Observation>, cfg: Config.DetectionConfig, i: nat, j: nat)
    requires cfg.thresholdChecks >= 0
    requires i < j < |obs|
    requires Results(st, obs, cfg)[i].transition.Some? && Results(st, obs, cfg)[i].transition.value.toState == Stuck
    requires Results(st, obs, cfg)[j].transition.Some? && Results(st, obs, cfg)[j].transition.value.toState == Healthy
    requires forall m :: i < m < j ==> Results(st, obs, cfg)[m].transition.None?
    ensures Results(st, obs, cfg)[j].transition.value.stuckDuration == obs[j].now - obs[i].now
  {
    DetectorHysteresis(cfg);
    EpisodeDuration(st, obs, Detector(cfg), i, j);
  }

  // ---------------------------------------------------------------------------
  // One Analyze batch
  // ---------------------------------------------------------------------------

  predicate AllAnalyzable(configs: map<string, Config.DetectionConfig>, default: Config.DetectionConfig,
                          qs: seq<RabbitMQ.QueueInfo>) {
    forall i :: 0 <= i < |qs| ==> Analyzable(configs, default, qs[i])
  }

  /** A queue that is not in the batch keeps its state (or stays absent). */
  lemma {:induction false} BatchUntouched(b: Batch, configs: map<string, Config.DetectionConfig>, default: Config.DetectionConfig,
                                         qs: seq<RabbitMQ.QueueInfo>, now: int, name: string)
    requires AllAnalyzable(configs, default, qs)
    requires forall i :: 0 <= i < |qs| ==> qs[i].name != name
    ensures var s := AnalyzeBatch(b, configs, default, qs, now).states;
      (name in s <==> name in b.states) && (name in s ==> s[name] == b.states[name])
  {
    if qs != [] {
      BatchUntouched(b, configs, default, qs[..|qs| - 1], now, name);
    }
  }

  /** The batch only appends alerts and transitions, at most one of each per queue. */
  lemma {:induction false} BatchAppendsOnly(b: Batch, configs: map<string, Config.DetectionConfig>, default: Config.DetectionConfig,
                                            qs: seq<RabbitMQ.QueueInfo>, now: int)
    requires AllAnalyzable(configs, default, qs)
    ensures var r := AnalyzeBatch(b, configs, default, qs, now);
      && b.alerts <= r.alerts && |r.alerts| <= |b.alerts| + |qs|
      && b.transitions <= r.transitions && |r.transitions| <= |b.transitions| + |qs|
  {
    if qs != [] {
      BatchAppendsOnly(b, configs, default, qs[..|qs| - 1], now);
    }
  }

  /** The state table left by applying `next` to each queue in order, from its current (or fresh) state. */
  function Table(states: map<string, QueueState>, qs: seq<RabbitMQ.QueueInfo>,
                 next: (QueueState, RabbitMQ.QueueInfo) -> QueueState): (t: map<string, QueueState>)
    ensures forall j :: 0 <= j < |qs| ==> qs[j].name in t
  {
    if qs == [] then states
    else
      var q := qs[|qs| - 1];
      var prev := Table(states, qs[..|qs| - 1], next);
      assert forall j :: 0 <= j < |qs| - 1 ==> qs[..|qs| - 1][j] == qs[j];
      prev[q.name := next(StateOrNew(prev, q.name), q)]
  }

  /** With distinct names, each queue's entry is `next` applied once to its entry before the batch. */
  lemma {:induction false} TableStepsEachOnce(states: map<string, QueueState>, qs: seq<RabbitMQ.QueueInfo>,
                                              next: (QueueState, RabbitMQ.QueueInfo) -> QueueState, i: nat)
    requires RabbitMQ.DistinctNames(qs)
    requires i < |qs|
    ensures Table(states, qs, next)[qs[i].name] == next(StateOrNew(states, qs[i].name), qs[i])
  {
    var n := |qs| - 1;
    var init := qs[..n];
    assert forall j :: 0 <= j < n ==> init[j] == qs[j];
    if i == n {
      TableUntouched(states, init, next, qs[n].name);
    } else {
      assert init[i] == qs[i];
      TableStepsEachOnce(states, init, next, i);
    }
  }

  /** A name no queue of the batch carries keeps its entry. */
  lemma {:induction false} TableUntouched(states: map<string, QueueState>, qs: seq<RabbitMQ.QueueInfo>,
                                          next: (QueueState, RabbitMQ.QueueInfo) -> QueueState, name: string)
    requires forall j :: 0 <= j < |qs| ==> qs[j].name != name
    ensures StateOrNew(Table(states, qs, next), name) == StateOrNew(states, name)
  {
    if qs != [] {
      TableUntouched(states, qs[..|qs| - 1], next, name);
    }
  }

  /** One queue's evaluation in a batch, as a state-to-state function. */
  function Evolve(configs: map<string, Config.DetectionConfig>, default: Config.DetectionConfig, now: int)
    : (QueueState, RabbitMQ.QueueInfo) -> QueueState
  {
    (s: QueueState, q: RabbitMQ.QueueInfo) =>
      if Analyzable(configs, default, q) then Step(s, q, ConfigFor(configs, default, q.name), now).state else s
  }

  /** One queue's step of a batch updates the state table by Evolve. */
  lemma ProcessQueueStates(b: Batch, configs: map<string, Config.DetectionConfig>, default: Config.DetectionConfig,
                           q: RabbitMQ.QueueInfo, now: int)
    requires Analyzable(configs, default, q)
    ensures ProcessQueue(b, configs, default, q, now).states
         == b.states[q.name := Evolve(configs, default, now)(StateOrNew(b.states, q.name), q)]
  {
  }

  /** The states a batch leaves are the table of the detector's evaluations. */
  lemma {:induction false} BatchTable(b: Batch, configs: map<string, Config.DetectionConfig>, default: Config.DetectionConfig,
                                      qs: seq<RabbitMQ.QueueInfo>, now: int)
    requires AllAnalyzable(configs, default, qs)
    ensures AnalyzeBatch(b, configs, default, qs, now).states == Table(b.states, qs, Evolve(configs, default, now))
  {
    if qs != [] {
      var init := qs[..|qs| - 1];
      assert forall j :: 0 <= j < |init| ==> init[j] == qs[j];
      BatchTable(b, configs, default, init, now);
      ProcessQueueStates(AnalyzeBatch(b, configs, default, init, now), configs, default, qs[|qs| - 1], now);
    }
  }

  /**
   * When the queue names are distinct, each queue of the batch ends in the state of exactly one
   * evaluation of its previous (or fresh) state under its own configuration.
   */
  lemma BatchStepsEachOnce(b: Batch, configs: map<string, Config.DetectionConfig>, default: Config.DetectionConfig,
                           qs: seq<RabbitMQ.QueueInfo>, now: int, i: nat)
    requires AllAnalyzable(configs, default, qs)
    requires RabbitMQ.DistinctNames(qs)
    requires i < |qs|
    ensures var s := AnalyzeBatch(b, configs, default, qs, now).states;
      && qs[i].name in s
      && s[qs[i].name] == Step(StateOrNew(b.states, qs[i].name), qs[i], ConfigFor(configs, default, qs[i].name), now).state
  {
    BatchTable(b, configs, default, qs, now);
    TableStepsEachOnce(b.states, qs, Evolve(configs, default, now), i);
  }
}
