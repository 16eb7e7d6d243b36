/**
 * The stuck-queue detector: per-queue bounded history, the stagnation and
 * stuck tests, the two-state hysteresis machine with its alert throttle, and
 * the Analyzer object that owns the per-queue table.
 * Times and durations are integers in nanoseconds.
 */
module Analyzer {
  import opened Wrappers
  import Config
  import RabbitMQ
  import Durations

  /** Minimum spacing of two alerts for one queue. */
  const AlertThrottle: int := 5 * Durations.Minute
  /** The duration Go's Time.Sub returns when measuring from the zero time (it saturates). */
  const MaxDuration: int := 0x7fff_ffff_ffff_ffff

  const ReasonNoConsumers := "no active consumers and messages not being processed"
  const ReasonLowRate := "consume rate below threshold and messages not decreasing"
  const ReasonNoProgress := "messages not decreasing despite consumer activity"

  /** LastKnownState: the empty string before any transition, then "healthy" or "stuck". */
  datatype Health = Unset | Healthy | Stuck

  datatype QueueSnapshot = QueueSnapshot(
    timestamp: int, messagesReady: int, consumeRate: real, ackRate: real, consumers: int)

  /** Per-queue state; a zero time.Time is None. */
  datatype QueueState = QueueState(
    queueName: string,
    history: seq<QueueSnapshot>,
    consecutiveStuck: nat,
    lastAlertTime: Option<int>,
    lastSlackAlert: Option<int>,
    lastKnownState: Health,
    stuckSince: Option<int>)

  datatype StuckQueueAlert = StuckQueueAlert(
    queueName: string, timestamp: int, messagesReady: int, consumers: int,
    consumeRate: real, ackRate: real, consecutiveStuck: nat, reason: string,
    thresholdChecks: int, minMessageCount: int, minConsumeRate: real)

  datatype StateTransition = StateTransition(
    queueName: string, fromState: Health, toState: Health, timestamp: int,
    stuckDuration: int, queueInfo: RabbitMQ.QueueInfo, reason: string)

  datatype AnalysisResult = AnalysisResult(stuckAlerts: seq<StuckQueueAlert>, transitions: seq<StateTransition>)

  /** The (bool, string) pair returned by the stuck test. */
  datatype Verdict = Verdict(stuck: bool, reason: string)

  function NewQueueState(name: string): QueueState {
    QueueState(name, [], 0, None, None, Unset, None)
  }

  /** now.Sub(t), where an unset t is the zero time and the difference saturates. */
  function Elapsed(now: int, since: Option<int>): int {
    match since
    case Some(t) => now - t
    case None => MaxDuration
  }

  function Snapshot(q: RabbitMQ.QueueInfo, now: int): QueueSnapshot {
    QueueSnapshot(now, q.messagesReady, q.consumeRate, q.ackRate, q.consumers)
  }

  /** Keeps the newest `maxHistory` entries, dropping the oldest first. */
  function TrimHistory(h: seq<QueueSnapshot>, maxHistory: int): (r: seq<QueueSnapshot>)
    requires maxHistory >= 0
    ensures |r| == if |h| > maxHistory then maxHistory else |h|
  {
    if |h| > maxHistory then h[|h| - maxHistory..] else h
  }

  /** The last min(t, |h|) samples. */
  function RecentWindow(h: seq<QueueSnapshot>, t: int): (w: seq<QueueSnapshot>)
    requires t >= 1
    ensures |w| == if |h| > t then t else |h|
  {
    if |h| > t then h[|h| - t..] else h
  }

  /** The window is a suffix of the history: its newest samples, in order. */
  lemma RecentWindowIsSuffix(h: seq<QueueSnapshot>, t: int)
    requires t >= 1
    ensures RecentWindow(h, t) == h[|h| - |RecentWindow(h, t)|..]
  {
  }

  /**
   * Whether the ready count failed to fall by at least one message per check over the recent window.
   * Go indexes an empty window (and panics) when the history has two or more samples and the
   * threshold is below 1; the requires clause excludes exactly that.
   */
  function IsMessageCountStagnant(h: seq<QueueSnapshot>, cfg: Config.DetectionConfig): (r: bool)
    requires |h| < 2 || cfg.thresholdChecks >= 1
    ensures r ==> |h| >= 2
  {
    if |h| < 2 then false
    else
      var recent := RecentWindow(h, cfg.thresholdChecks);
      var first := recent[0].messagesReady;
      var last := recent[|recent| - 1].messagesReady;
      if first <= 0 && last <= 0 then false
      else if last > first then true
      else if last == first then true
      else
        var checksSpanned := |recent| - 1;
        var actualDecrease := first - last;
        actualDecrease < checksSpanned
  }

  /** Rate test: disabled by a negative threshold, else the consume or the ack rate must reach it. */
  predicate HasActivity(latest: QueueSnapshot, cfg: Config.DetectionConfig) {
    cfg.minConsumeRate < 0.0 || latest.consumeRate >= cfg.minConsumeRate || latest.ackRate >= cfg.minConsumeRate
  }

  /** The reason reported for a stuck verdict. */
  function StuckReason(latest: QueueSnapshot, cfg: Config.DetectionConfig): string {
    if !HasActivity(latest, cfg) then
      if latest.consumers == 0 then ReasonNoConsumers else ReasonLowRate
    else ReasonNoProgress
  }

  /**
   * The stuck test. Go panics on an empty history with a threshold below 1, and on two or more samples
   * with a threshold below 1; after trimming the history has exactly one sample in that case.
   */
  function IsQueueStuck(h: seq<QueueSnapshot>, cfg: Config.DetectionConfig): (r: Verdict)
    requires cfg.thresholdChecks >= 1 || |h| == 1
    ensures |h| < cfg.thresholdChecks ==> r == Verdict(false, "")
    ensures |h| >= 1 && h[|h| - 1].messagesReady <= cfg.minMessageCount ==> r == Verdict(false, "")
    ensures r.stuck <==>
      && |h| >= cfg.thresholdChecks && |h| >= 1
      && h[|h| - 1].messagesReady > cfg.minMessageCount
      && IsMessageCountStagnant(h, cfg)
    ensures r.stuck ==> r.reason == StuckReason(h[|h| - 1], cfg)
    ensures !r.stuck ==> r.reason == ""
  {
    if |h| < cfg.thresholdChecks then Verdict(false, "")
    else
      var latest := h[|h| - 1];
      if latest.messagesReady <= cfg.minMessageCount then Verdict(false, "")
      else
        var hasActivity := cfg.minConsumeRate < 0.0 || latest.consumeRate >= cfg.minConsumeRate || latest.ackRate >= cfg.minConsumeRate;
        if !hasActivity then
          if IsMessageCountStagnant(h, cfg) then
            if latest.consumers == 0 then Verdict(true, ReasonNoConsumers)
            else Verdict(true, ReasonLowRate)
          else Verdict(false, "")
        else if IsMessageCountStagnant(h, cfg) then Verdict(true, ReasonNoProgress)
        else Verdict(false, "")
  }

  /** The outcome of one evaluation of one queue. */
  datatype StepResult = StepResult(state: QueueState, alert: Option<StuckQueueAlert>, transition: Option<StateTransition>)

  /** Appends the snapshot and trims the history to at most threshold + 1 entries, oldest dropped first. */
  function RecordSnapshot(st: QueueState, q: RabbitMQ.QueueInfo, cfg: Config.DetectionConfig, now: int): (r: QueueState)
    requires cfg.thresholdChecks >= 0
    ensures r == st.(history := r.history)
    ensures |r.history| == if |st.history| + 1 > cfg.thresholdChecks + 1 then cfg.thresholdChecks + 1 else |st.history| + 1
    ensures r.history != [] && r.history[|r.history| - 1] == Snapshot(q, now)
  {
    st.(history := TrimHistory(st.history + [Snapshot(q, now)], cfg.thresholdChecks + 1))
  }

  /**
   * A stuck verdict: count it; enter the stuck state once the streak reaches the threshold; alert
   * when the streak is long enough and the last alert is at least five minutes old.
   */
  function OnStuck(st: QueueState, q: RabbitMQ.QueueInfo, cfg: Config.DetectionConfig, now: int, reason: string): (r: StepResult)
    ensures r.state.history == st.history && r.state.queueName == st.queueName
    ensures r.state.lastSlackAlert == st.lastSlackAlert
  {
    var st2 := st.(consecutiveStuck := st.consecutiveStuck + 1);
    var enters := st2.lastKnownState != Stuck && st2.consecutiveStuck >= cfg.thresholdChecks;
    var transition :=
      if enters then Some(StateTransition(q.name, Healthy, Stuck, now, 0, q, reason)) else None;
    var st3 := if enters then st2.(lastKnownState := Stuck, stuckSince := Some(now)) else st2;
    var fires := st3.consecutiveStuck >= cfg.thresholdChecks && Elapsed(now, st3.lastAlertTime) >= AlertThrottle;
    var alert :=
      if fires then
        Some(StuckQueueAlert(q.name, now, q.messagesReady, q.consumers, q.consumeRate, q.ackRate,
                             st3.consecutiveStuck, reason,
                             cfg.thresholdChecks, cfg.minMessageCount, cfg.minConsumeRate))
      else None;
    var st4 := if fires then st3.(lastAlertTime := Some(now)) else st3;
    StepResult(st4, alert, transition)
  }

  /** A healthy verdict: leave the stuck state (reporting how long it lasted) and reset the streak. */
  function OnHealthy(st: QueueState, q: RabbitMQ.QueueInfo, now: int): (r: StepResult)
    ensures r.state.history == st.history && r.state.queueName == st.queueName
    ensures r.state.lastSlackAlert == st.lastSlackAlert
  {
    if st.lastKnownState == Stuck then
      var transition := StateTransition(q.name, Stuck, Healthy, now, Elapsed(now, st.stuckSince), q, "");
      StepResult(st.(lastKnownState := Healthy, consecutiveStuck := 0), None, Some(transition))
    else
      StepResult(st.(consecutiveStuck := 0), None, None)
  }

  /**
   * One evaluation of one queue at time `now`: record the snapshot, decide, then run the hysteresis
   * machine and the alert throttle. A negative threshold makes Go panic, hence the requires clause.
   */
  function Step(st: QueueState, q: RabbitMQ.QueueInfo, cfg: Config.DetectionConfig, now: int): (r: StepResult)
    requires cfg.thresholdChecks >= 0
    ensures 1 <= |r.state.history| <= cfg.thresholdChecks + 1
    ensures r.state.queueName == st.queueName && r.state.lastSlackAlert == st.lastSlackAlert
  {
    var st1 := RecordSnapshot(st, q, cfg, now);
    var verdict := IsQueueStuck(st1.history, cfg);
    if verdict.stuck then OnStuck(st1, q, cfg, now, verdict.reason) else OnHealthy(st1, q, now)
  }

  /**
   * The history after one evaluation: the old history with the new snapshot appended, cut to its
   * newest threshold + 1 samples, oldest dropped first; nothing is dropped while there is room.
   */
  lemma StepHistory(st: QueueState, q: RabbitMQ.QueueInfo, cfg: Config.DetectionConfig, now: int)
    requires cfg.thresholdChecks >= 0
    ensures var h := Step(st, q, cfg, now).state.history;
      var full := st.history + [Snapshot(q, now)];
      && |h| == (if |full| > cfg.thresholdChecks + 1 then cfg.thresholdChecks + 1 else |full|)
      && h[|h| - 1] == Snapshot(q, now)
      && h == full[|full| - |h|..]
      && (|full| <= cfg.thresholdChecks + 1 ==> h == full)
  {
  }

  /** The resolved configuration of a queue: its own when set, else the default. */
  function ConfigFor(configs: map<string, Config.DetectionConfig>, default: Config.DetectionConfig, name: string): Config.DetectionConfig {
    if name in configs then configs[name] else default
  }

  /** Everything one Analyze call accumulates. */
  datatype Batch = Batch(states: map<string, QueueState>, alerts: seq<StuckQueueAlert>, transitions: seq<StateTransition>)

  function OptionToSeq<T>(o: Option<T>): seq<T> {
    if o.Some? then [o.value] else []
  }

  /**
   * A queue Go can analyze without panicking. A resolved threshold of -1 trims the history to
   * nothing and the stuck test then indexes its last sample; a threshold of -2 or less makes the
   * trimming slice itself out of range.
   */
  predicate Analyzable(configs: map<string, Config.DetectionConfig>, default: Config.DetectionConfig, q: RabbitMQ.QueueInfo) {
    ConfigFor(configs, default, q.name).thresholdChecks >= 0
  }

  function StateOrNew(states: map<string, QueueState>, name: string): QueueState {
    if name in states then states[name] else NewQueueState(name)
  }

  /**
   * The loop body of Analyze for one queue: it creates or replaces that queue's entry only, and
   * appends at most one alert and at most one transition.
   */
  function ProcessQueue(b: Batch, configs: map<string, Config.DetectionConfig>, default: Config.DetectionConfig,
                        q: RabbitMQ.QueueInfo, now: int): (r: Batch)
    requires Analyzable(configs, default, q)
    ensures r.states.Keys == b.states.Keys + {q.name}
    ensures forall n :: n in b.states && n != q.name ==> r.states[n] == b.states[n]
    ensures b.alerts <= r.alerts && |r.alerts| <= |b.alerts| + 1
    ensures b.transitions <= r.transitions && |r.transitions| <= |b.transitions| + 1
  {
    var r := Step(StateOrNew(b.states, q.name), q, ConfigFor(configs, default, q.name), now);
    Batch(b.states[q.name := r.state], b.alerts + OptionToSeq(r.alert), b.transitions + OptionToSeq(r.transition))
  }

  /** The names of a sequence of queues. */
  function QueueNames(qs: seq<RabbitMQ.QueueInfo>): set<string> {
    if qs == [] then {} else QueueNames(qs[..|qs| - 1]) + {qs[|qs| - 1].name}
  }

  /**
   * The queues processed in order, all at the same time `now`: afterwards the table has an entry
   * for every queue of the batch and keeps every entry it had, and no other.
   */
  function AnalyzeBatch(b: Batch, configs: map<string, Config.DetectionConfig>, default: Config.DetectionConfig,
                        qs: seq<RabbitMQ.QueueInfo>, now: int): (r: Batch)
    requires forall i :: 0 <= i < |qs| ==> Analyzable(configs, default, qs[i])
    ensures r.states.Keys == b.states.Keys + QueueNames(qs)
  {
    if qs == [] then b
    else ProcessQueue(AnalyzeBatch(b, configs, default, qs[..|qs| - 1], now), configs, default, qs[|qs| - 1], now)
  }

  /** Processing one more queue extends the batch by one ProcessQueue step. */
  lemma AnalyzeBatchSnoc(b: Batch, configs: map<string, Config.DetectionConfig>, default: Config.DetectionConfig,
                         qs: seq<RabbitMQ.QueueInfo>, i: nat, now: int)
    requires i < |qs|
    requires forall j :: 0 <= j <= i ==> Analyzable(configs, default, qs[j])
    ensures AnalyzeBatch(b, configs, default, qs[..i + 1], now)
         == ProcessQueue(AnalyzeBatch(b, configs, default, qs[..i], now), configs, default, qs[i], now)
  {
    assert qs[..i + 1][..i] == qs[..i];
  }

  /** How many queues Go processes before it reaches one whose threshold makes it panic. */
  function SafePrefixLength(qs: seq<RabbitMQ.QueueInfo>, configs: map<string, Config.DetectionConfig>,
                            default: Config.DetectionConfig): (k: nat)
    ensures k <= |qs|
    ensures forall i :: 0 <= i < k ==> Analyzable(configs, default, qs[i])
    ensures k < |qs| ==> !Analyzable(configs, default, qs[k])
  {
    if qs == [] || !Analyzable(configs, default, qs[0]) then 0
    else 1 + SafePrefixLength(qs[1..], configs, default)
  }

  /** The detector: default and per-queue configurations and the per-queue state table. */
  class Analyzer {
    var defaultConfig: Config.DetectionConfig
    var queueConfigs: map<string, Config.DetectionConfig>
    var states: map<string, QueueState>

    constructor (cfg: Config.DetectionConfig)
      ensures defaultConfig == cfg && queueConfigs == map[] && states == map[]
    {
      defaultConfig := cfg;
      queueConfigs := map[];
      states := map[];
    }

    method SetQueueConfig(queueName: string, cfg: Config.DetectionConfig)
      modifies this
      ensures queueConfigs == old(queueConfigs)[queueName := cfg]
      ensures defaultConfig == old(defaultConfig) && states == old(states)
    {
      queueConfigs := queueConfigs[queueName := cfg];
    }

    function GetConfigForQueue(queueName: string): (r: Config.DetectionConfig)
      reads this
      ensures queueName in queueConfigs ==> r == queueConfigs[queueName]
      ensures queueName !in queueConfigs ==> r == defaultConfig
    {
      if queueName in queueConfigs then queueConfigs[queueName] else defaultConfig
    }

    /**
     * Evaluates each queue in order at time `now`. When a queue's threshold is negative Go panics;
     * the model then stops there with `panicked` set.
     */
    method Analyze(queues: seq<RabbitMQ.QueueInfo>, now: int) returns (result: AnalysisResult, panicked: bool)
      modifies this
      ensures defaultConfig == old(defaultConfig) && queueConfigs == old(queueConfigs)
      ensures panicked <==> SafePrefixLength(queues, queueConfigs, defaultConfig) < |queues|
      ensures Batch(states, result.stuckAlerts, result.transitions)
        == AnalyzeBatch(Batch(old(states), [], []), queueConfigs, defaultConfig,
                        queues[..SafePrefixLength(queues, queueConfigs, defaultConfig)], now)
    {
      var configs, default := queueConfigs, defaultConfig;
      var k := SafePrefixLength(queues, configs, default);
      var alerts: seq<StuckQueueAlert> := [];
      var transitions: seq<StateTransition> := [];
      ghost var start := Batch(states, [], []);
      var i := 0;
      while i < |queues|
        invariant 0 <= i <= k
        invariant defaultConfig == default && queueConfigs == configs
        invariant Batch(states, alerts, transitions) == AnalyzeBatch(start, configs, default, queues[..i], now)
      {
        var queue := queues[i];
        var queueConfig := GetConfigForQueue(queue.name);
        if queueConfig.thresholdChecks < 0 {
          break;
        }
        assert Analyzable(configs, default, queues[i]);
        assert i < k;
        AnalyzeBatchSnoc(start, configs, default, queues, i, now);
        var b := ProcessQueue(Batch(states, alerts, transitions), configs, default, queue, now);
        states, alerts, transitions := b.states, b.alerts, b.transitions;
        i := i + 1;
      }
      assert i == k;
      result := AnalysisResult(alerts, transitions);
      panicked := i < |queues|;
    }

    method Reset()
      modifies this
      ensures states == map[]
      ensures defaultConfig == old(defaultConfig) && queueConfigs == old(queueConfigs)
    {
      states := map[];
    }

    /** The state of a queue, if it has ever been analyzed. */
    function GetState(queueName: string): (r: Option<QueueState>)
      reads this
      ensures r.Some? <==> queueName in states
      ensures r.Some? ==> r.value == states[queueName]
    {
      if queueName in states then Some(states[queueName]) else None
    }

    /**
     * The notifier's write through the shared state pointer: it records when it last sent a
     * notification for a queue whose state exists.
     */
    method RecordSlackAlert(queueName: string, now: int)
      modifies this
      ensures defaultConfig == old(defaultConfig) && queueConfigs == old(queueConfigs)
      ensures states == if queueName in old(states)
        then old(states)[queueName := old(states)[queueName].(lastSlackAlert := Some(now))]
        else old(states)
    {
      if queueName in states {
        states := states[queueName := states[queueName].(lastSlackAlert := Some(now))];
      }
    }
  }
}
