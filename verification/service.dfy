/**
 * The monitor service: which queues are due at a tick (boundaries anchored at the service start,
 * one interval per queue), the ticker period, the per-check step that feeds the due queues to
 * the detector, and the Slack notification gate with its cooldowns.
 * The broker fetch, the clock and each webhook's answer are parameters of the step.
 */
module Monitor {
  import opened Wrappers
  import opened Durations
  import Config
  import RabbitMQ
  import Analyzer
  import Slack
  import SlackClient
  import Sequences

  // ---------------------------------------------------------------------------
  // Scheduling
  // ---------------------------------------------------------------------------

  /** Every interval is positive: the global one and each per-queue one. */
  predicate Positive(intervals: map<string, int>, global: int) {
    global > 0 && forall name :: name in intervals ==> intervals[name] > 0
  }

  /** The interval of a queue: its own when it has one, else the global one. */
  function IntervalFor(intervals: map<string, int>, global: int, name: string): (iv: int)
    ensures Positive(intervals, global) ==> iv > 0
  {
    if name in intervals then intervals[name] else global
  }

  /**
   * The latest scheduled check time: the start plus a whole number of intervals, the number
   * being the elapsed time divided by the interval, truncated toward zero.
   */
  function Boundary(start: int, now: int, interval: int): (b: int)
    requires interval > 0
    ensures now >= start ==> start <= b <= now < b + interval
    ensures now < start ==> now <= b <= start
  {
    start + TruncDiv(now - start, interval) * interval
  }

  function LastCheck(times: map<string, int>, name: string): Option<int> {
    if name in times then Some(times[name]) else None
  }

  /**
   * Whether a queue is due: always when it has never been checked; otherwise when the latest
   * boundary has been reached and the last check came before it.
   */
  predicate IsDue(lastCheck: Option<int>, start: int, now: int, interval: int)
    requires interval > 0
    ensures lastCheck.None? ==> IsDue(lastCheck, start, now, interval)
    ensures IsDue(lastCheck, start, now, interval) && lastCheck.Some? ==> lastCheck.value < now
    ensures lastCheck.Some? && start <= lastCheck.value && lastCheck.value + interval <= now ==>
      IsDue(lastCheck, start, now, interval)
  {
    match lastCheck
    case None => true
    case Some(last) =>
      var b := Boundary(start, now, interval);
      now - b >= 0 && last < b
  }

  /** A positive multiple of a positive number is at least that number. */
  lemma PositiveMultiple(k: int, iv: int)
    requires iv > 0 && k * iv > 0
    ensures k * iv >= iv
  {
    if k > 0 {
      assert k * iv == iv + (k - 1) * iv;
      assert (k - 1) * iv >= 0;
    }
  }

  /** Two boundaries less than an interval apart are the same boundary. */
  lemma BoundariesCoincide(start: int, t: int, now: int, iv: int)
    requires iv > 0 && start <= t && start <= now
    requires Boundary(start, now, iv) - iv < Boundary(start, t, iv) < Boundary(start, now, iv) + iv
    ensures Boundary(start, t, iv) == Boundary(start, now, iv)
  {
    var q1, q2 := TruncDiv(t - start, iv), TruncDiv(now - start, iv);
    assert (q2 - q1) * iv == q2 * iv - q1 * iv;
    if q2 * iv > q1 * iv {
      PositiveMultiple(q2 - q1, iv);
    } else if q1 * iv > q2 * iv {
      assert (q1 - q2) * iv == q1 * iv - q2 * iv;
      PositiveMultiple(q1 - q2, iv);
    }
  }

  /**
   * A queue checked at time t is not due again before the next boundary after t: within one
   * interval period it is checked at most once.
   */
  lemma NotDueAgainInPeriod(start: int, t: int, now: int, iv: int)
    requires iv > 0 && start <= t <= now < Boundary(start, t, iv) + iv
    ensures !IsDue(Some(t), start, now, iv)
  {
    BoundariesCoincide(start, t, now, iv);
  }

  /** From the next boundary after its last check on, a queue is due again. */
  lemma DueAgainNextPeriod(start: int, t: int, now: int, iv: int)
    requires iv > 0 && start <= t && now >= Boundary(start, t, iv) + iv
    ensures IsDue(Some(t), start, now, iv)
    ensures Boundary(start, now, iv) >= Boundary(start, t, iv) + iv
  {
    var q1, q2 := TruncDiv(t - start, iv), TruncDiv(now - start, iv);
    assert (q2 - q1) * iv == q2 * iv - q1 * iv;
    PositiveMultiple(q2 - q1, iv);
  }

  /**
   * The ticker period: the smallest of the global interval and the per-queue ones. It is
   * positive, as creating the ticker requires, exactly when every interval is.
   */
  method TickerInterval(global: int, intervals: map<string, int>) returns (t: int)
    ensures t <= global && forall name :: name in intervals ==> t <= intervals[name]
    ensures t == global || exists name :: name in intervals && t == intervals[name]
    ensures t > 0 <==> Positive(intervals, global)
  {
    t := global;
    var rest := intervals.Keys;
    while rest != {}
      invariant rest <= intervals.Keys
      invariant t <= global && forall name :: name in intervals && name !in rest ==> t <= intervals[name]
      invariant t == global || exists name :: name in intervals && t == intervals[name]
      decreases |rest|
    {
      var name :| name in rest;
      if intervals[name] < t {
        t := intervals[name];
      }
      rest := rest - {name};
    }
  }

  /** The queues picked at one tick, and the last-check table afterwards. */
  datatype Selection = Selection(due: seq<RabbitMQ.QueueInfo>, lastCheckTimes: map<string, int>)

  /**
   * The due queues of one tick, in the order fetched; a queue is recorded as checked at `now`
   * as soon as it is picked, so a later queue of the same name sees that record.
   */
  function SelectDue(qs: seq<RabbitMQ.QueueInfo>, last: map<string, int>, intervals: map<string, int>,
                     global: int, start: int, now: int): (sel: Selection)
    requires Positive(intervals, global)
    ensures |sel.due| <= |qs|
  {
    if qs == [] then Selection([], last)
    else
      var prev := SelectDue(qs[..|qs| - 1], last, intervals, global, start, now);
      var q := qs[|qs| - 1];
      if IsDue(LastCheck(prev.lastCheckTimes, q.name), start, now, IntervalFor(intervals, global, q.name))
      then Selection(prev.due + [q], prev.lastCheckTimes[q.name := now])
      else prev
  }

  /** Whether some queue of `qs` has the name. */
  predicate Named(qs: seq<RabbitMQ.QueueInfo>, name: string) {
    exists k :: 0 <= k < |qs| && qs[k].name == name
  }

  /**
   * Only the picked queues' entries change, each to `now`; every other entry keeps its
   * value, and no entry disappears.
   */
  lemma {:induction false} SelectionFrame(qs: seq<RabbitMQ.QueueInfo>, last: map<string, int>, intervals: map<string, int>,
                                          global: int, start: int, now: int)
    requires Positive(intervals, global)
    ensures var sel := SelectDue(qs, last, intervals, global, start, now);
      && (forall name :: name in sel.lastCheckTimes <==> name in last || Named(sel.due, name))
      && (forall name :: name in last && !Named(sel.due, name) ==> sel.lastCheckTimes[name] == last[name])
      && (forall k :: 0 <= k < |sel.due| ==> sel.lastCheckTimes[sel.due[k].name] == now)
  {
    if qs != [] {
      var prev := SelectDue(qs[..|qs| - 1], last, intervals, global, start, now);
      SelectionFrame(qs[..|qs| - 1], last, intervals, global, start, now);
      var q := qs[|qs| - 1];
      var sel := SelectDue(qs, last, intervals, global, start, now);
      if sel != prev {
        assert sel.due == prev.due + [q];
        forall name | Named(prev.due, name) ensures Named(sel.due, name) {
          var k :| 0 <= k < |prev.due| && prev.due[k].name == name;
          assert sel.due[k] == prev.due[k];
        }
        forall name | Named(sel.due, name) && name != q.name ensures Named(prev.due, name) {
          var k :| 0 <= k < |sel.due| && sel.due[k].name == name;
          assert k < |prev.due| && prev.due[k] == sel.due[k];
        }
        assert sel.due[|prev.due|] == q;
      }
    }
  }

  /** The positions in `qs` of the picked queues, in increasing order. */
  function DueIndices(qs: seq<RabbitMQ.QueueInfo>, last: map<string, int>, intervals: map<string, int>,
                      global: int, start: int, now: int): seq<nat>
    requires Positive(intervals, global)
  {
    if qs == [] then []
    else
      var init := qs[..|qs| - 1];
      var prev := SelectDue(init, last, intervals, global, start, now);
      var q := qs[|qs| - 1];
      DueIndices(init, last, intervals, global, start, now)
        + (if IsDue(LastCheck(prev.lastCheckTimes, q.name), start, now, IntervalFor(intervals, global, q.name))
           then [|init|] else [])
  }

  /** The picked queues are the fetched ones with some left out and the rest in their order. */
  lemma {:induction false} DueIsSubsequence(qs: seq<RabbitMQ.QueueInfo>, last: map<string, int>, intervals: map<string, int>,
                                            global: int, start: int, now: int)
    requires Positive(intervals, global)
    ensures Sequences.IsEmbedding(DueIndices(qs, last, intervals, global, start, now),
                                  SelectDue(qs, last, intervals, global, start, now).due, qs)
  {
    if qs != [] {
      var init, q := qs[..|qs| - 1], qs[|qs| - 1];
      DueIsSubsequence(init, last, intervals, global, start, now);
      var prev := SelectDue(init, last, intervals, global, start, now);
      var kept := IsDue(LastCheck(prev.lastCheckTimes, q.name), start, now, IntervalFor(intervals, global, q.name));
      Sequences.ExtendEmbedding(DueIndices(init, last, intervals, global, start, now), prev.due, init, q, kept);
      assert init + [q] == qs;
    }
  }

  /** With distinct names, the queues picked before the last one never carry the last one's name. */
  lemma LastNotPickedBefore(qs: seq<RabbitMQ.QueueInfo>, last: map<string, int>, intervals: map<string, int>,
                            global: int, start: int, now: int)
    requires Positive(intervals, global) && RabbitMQ.DistinctNames(qs) && qs != []
    ensures !Named(SelectDue(qs[..|qs| - 1], last, intervals, global, start, now).due, qs[|qs| - 1].name)
  {
    var init, q := qs[..|qs| - 1], qs[|qs| - 1];
    DueIsSubsequence(init, last, intervals, global, start, now);
    var prev := SelectDue(init, last, intervals, global, start, now);
    var idx := DueIndices(init, last, intervals, global, start, now);
    forall k | 0 <= k < |prev.due| ensures prev.due[k].name != q.name {
      assert prev.due[k] == init[idx[k]] == qs[idx[k]];
    }
  }

  /**
   * One step of the selection with distinct names: the last queue is picked exactly when it is
   * due by the table as it was, and the earlier queues' membership is what it was before.
   */
  lemma SelectStep(qs: seq<RabbitMQ.QueueInfo>, last: map<string, int>, intervals: map<string, int>,
                   global: int, start: int, now: int)
    requires Positive(intervals, global) && RabbitMQ.DistinctNames(qs) && qs != []
    ensures var q, sel := qs[|qs| - 1], SelectDue(qs, last, intervals, global, start, now);
      q in sel.due <==> IsDue(LastCheck(last, q.name), start, now, IntervalFor(intervals, global, q.name))
    ensures var sel, prev := SelectDue(qs, last, intervals, global, start, now), SelectDue(qs[..|qs| - 1], last, intervals, global, start, now);
      forall i :: 0 <= i < |qs| - 1 ==> (qs[i] in sel.due <==> qs[i] in prev.due)
  {
    var init, q := qs[..|qs| - 1], qs[|qs| - 1];
    LastNotPickedBefore(qs, last, intervals, global, start, now);
    SelectionFrame(init, last, intervals, global, start, now);
    var prev := SelectDue(init, last, intervals, global, start, now);
    assert LastCheck(prev.lastCheckTimes, q.name) == LastCheck(last, q.name);
    assert forall k :: 0 <= k < |prev.due| ==> prev.due[k].name != q.name;
    assert q !in prev.due;
    forall i | 0 <= i < |qs| - 1
      ensures qs[i] != q
    {
      assert qs[i].name != q.name;
    }
  }

  /**
   * When the fetched queues have distinct names, each is picked exactly when it is due
   * according to the table as it was before the tick.
   */
  lemma {:induction false} DueIffScheduled(qs: seq<RabbitMQ.QueueInfo>, last: map<string, int>, intervals: map<string, int>,
                                           global: int, start: int, now: int)
    requires Positive(intervals, global) && RabbitMQ.DistinctNames(qs)
    ensures var sel := SelectDue(qs, last, intervals, global, start, now);
      forall i :: 0 <= i < |qs| ==>
        (qs[i] in sel.due <==> IsDue(LastCheck(last, qs[i].name), start, now, IntervalFor(intervals, global, qs[i].name)))
  {
    if qs != [] {
      var init := qs[..|qs| - 1];
      DueIffScheduled(init, last, intervals, global, start, now);
      SelectStep(qs, last, intervals, global, start, now);
      assert forall i :: 0 <= i < |init| ==> init[i] == qs[i];
    }
  }

  /**
   * Two fetched queues with the same name (say, in two virtual hosts) are not both picked at a
   * tick no earlier than the start: the first one's record makes the second not due.
   */
  lemma SameNameOncePerTick(qs: seq<RabbitMQ.QueueInfo>, last: map<string, int>, intervals: map<string, int>,
                            global: int, start: int, now: int, i: nat, j: nat)
    requires Positive(intervals, global) && now >= start
    requires i < j < |qs| && qs[i].name == qs[j].name
    requires qs[i] in SelectDue(qs[..j], last, intervals, global, start, now).due
    ensures SelectDue(qs[..j + 1], last, intervals, global, start, now).due
         == SelectDue(qs[..j], last, intervals, global, start, now).due
  {
    var prev := SelectDue(qs[..j], last, intervals, global, start, now);
    SelectionFrame(qs[..j], last, intervals, global, start, now);
    var k :| 0 <= k < |prev.due| && prev.due[k] == qs[i];
    assert prev.lastCheckTimes[qs[j].name] == now;
    assert qs[..j + 1][..j] == qs[..j];
  }

  // ---------------------------------------------------------------------------
  // The notification gate
  // ---------------------------------------------------------------------------

  /** The two kinds of notification. */
  datatype Kind = AlertKind | RecoveryKind

  /**
   * The alert type a kind is sent as. The constants the service names for the two kinds are
   * taken to be the two declared alert types, "alerting" and "not_alerting".
   */
  function AlertTypeOf(k: Kind): (t: Slack.AlertType)
    ensures t == Slack.AlertTypeAlerting <==> k == AlertKind
  {
    match k
    case AlertKind => Slack.AlertTypeAlerting
    case RecoveryKind => Slack.AlertTypeNotAlerting
  }

  /** The notification a transition calls for: an alert on entering stuck, a recovery on leaving it when enabled. */
  function KindOf(to: Analyzer.Health, cfg: SlackClient.SlackConfig): (k: Option<Kind>)
    ensures k == Some(AlertKind) <==> to == Analyzer.Stuck
    ensures k == Some(RecoveryKind) <==> to == Analyzer.Healthy && cfg.sendRecovery
  {
    if to == Analyzer.Stuck then Some(AlertKind)
    else if to == Analyzer.Healthy then (if cfg.sendRecovery then Some(RecoveryKind) else None)
    else None
  }

  function Cooldown(k: Kind, cfg: SlackClient.SlackConfig): int {
    match k
    case AlertKind => cfg.alertCooldown
    case RecoveryKind => cfg.recoveryCooldown
  }

  /** A notification is held back while the queue's last notification is more recent than the cooldown. */
  predicate Suppressed(lastSlackAlert: Option<int>, now: int, cooldown: int) {
    lastSlackAlert.Some? && now - lastSlackAlert.value < cooldown
  }

  /** The Slack alert for a transition, with the queue's current streak. */
  function AlertFor(k: Kind, t: Analyzer.StateTransition, st: Analyzer.QueueState): (a: Slack.QueueAlert)
    ensures a.queueName == t.queueName && a.timestamp == t.timestamp && a.stuckDuration == t.stuckDuration
    ensures a.alertType == AlertTypeOf(k)
  {
    Slack.QueueAlert(AlertTypeOf(k), t.queueName, t.queueInfo.vhost, t.queueInfo.messagesReady,
      t.queueInfo.consumers, t.queueInfo.consumeRate, t.queueInfo.ackRate, t.queueInfo.publishRate,
      st.consecutiveStuck, t.reason, t.timestamp, t.stuckDuration)
  }

  datatype NotifyError = StateNotFound(queueName: string) | SendFailed(cause: SlackClient.SendError)

  /** The outcome of handling one transition: an error, if any, and the state table afterwards. */
  datatype Handled = Handled(err: Option<NotifyError>, states: map<string, Analyzer.QueueState>)

  /** Whether handling a transition delivers a notification: it is called for, not held back, and the send succeeds. */
  predicate Delivers(states: map<string, Analyzer.QueueState>, t: Analyzer.StateTransition, now: int,
                     cfg: SlackClient.SlackConfig, client: SlackClient.Client, r: Slack.Renderers,
                     post: (nat, string, Slack.Message) -> SlackClient.WebhookOutcome)
  {
    && t.queueName in states
    && KindOf(t.toState, cfg).Some?
    && var k, st := KindOf(t.toState, cfg).value, states[t.queueName];
      && !Suppressed(st.lastSlackAlert, now, Cooldown(k, cfg))
      && SlackClient.SendResult(client, AlertFor(k, t, st), r, post).None?
  }

  /**
   * Handling one transition: a missing queue state is an error; a transition that calls for no
   * notification, or whose notification is held back, does nothing; otherwise the alert is
   * sent, and the queue's last notification time becomes `now` only if the send succeeded.
   */
  function Handle(states: map<string, Analyzer.QueueState>, t: Analyzer.StateTransition, now: int,
                  cfg: SlackClient.SlackConfig, client: SlackClient.Client, r: Slack.Renderers,
                  post: (nat, string, Slack.Message) -> SlackClient.WebhookOutcome): (h: Handled)
    ensures h.states.Keys == states.Keys
    ensures forall name :: name in states ==> h.states[name] == states[name].(lastSlackAlert := h.states[name].lastSlackAlert)
    ensures Delivers(states, t, now, cfg, client, r, post) ==> h.states[t.queueName].lastSlackAlert == Some(now)
    ensures !Delivers(states, t, now, cfg, client, r, post) ==> h.states == states
    ensures h.err.Some? <==>
      || t.queueName !in states
      || (&& KindOf(t.toState, cfg).Some?
          && !Suppressed(states[t.queueName].lastSlackAlert, now, Cooldown(KindOf(t.toState, cfg).value, cfg))
          && !Delivers(states, t, now, cfg, client, r, post))
  {
    if t.queueName !in states then Handled(Some(StateNotFound(t.queueName)), states)
    else
      var st := states[t.queueName];
      match KindOf(t.toState, cfg)
      case None => Handled(None, states)
      case Some(k) =>
        if Suppressed(st.lastSlackAlert, now, Cooldown(k, cfg)) then Handled(None, states)
        else
          match SlackClient.SendResult(client, AlertFor(k, t, st), r, post)
          case Some(e) => Handled(Some(SendFailed(e)), states)
          case None => Handled(None, states[t.queueName := st.(lastSlackAlert := Some(now))])
  }

  /**
   * A delivered notification respects its cooldown: the queue's previous notification, if any,
   * is at least the cooldown of the new one's kind in the past.
   */
  lemma DeliveredAfterCooldown(states: map<string, Analyzer.QueueState>, t: Analyzer.StateTransition, now: int,
                               cfg: SlackClient.SlackConfig, client: SlackClient.Client, r: Slack.Renderers,
                               post: (nat, string, Slack.Message) -> SlackClient.WebhookOutcome)
    requires Delivers(states, t, now, cfg, client, r, post)
    requires states[t.queueName].lastSlackAlert.Some?
    ensures now - states[t.queueName].lastSlackAlert.value >= Cooldown(KindOf(t.toState, cfg).value, cfg)
  {
  }

  /**
   * One last-notification time serves both kinds: after an alert is delivered at t1, a recovery
   * for the same queue less than the recovery cooldown later is held back, whatever the webhooks
   * would answer.
   */
  lemma AlertHoldsBackRecovery(states: map<string, Analyzer.QueueState>, ta: Analyzer.StateTransition, t1: int,
                               tb: Analyzer.StateTransition, now: int,
                               cfg: SlackClient.SlackConfig, client: SlackClient.Client, r: Slack.Renderers,
                               post: (nat, string, Slack.Message) -> SlackClient.WebhookOutcome)
    requires ta.toState == Analyzer.Stuck && Delivers(states, ta, t1, cfg, client, r, post)
    requires tb.queueName == ta.queueName && tb.toState == Analyzer.Healthy
    requires now - t1 < cfg.recoveryCooldown
    ensures var after := Handle(states, ta, t1, cfg, client, r, post).states;
      Handle(after, tb, now, cfg, client, r, post) == Handled(None, after)
  {
    var after := Handle(states, ta, t1, cfg, client, r, post).states;
    assert after[ta.queueName].lastSlackAlert == Some(t1);
  }

  /** The outcome of handling a check's transitions in order: the errors met and the final state table. */
  datatype Notified = Notified(errors: seq<NotifyError>, states: map<string, Analyzer.QueueState>)

  function NotifyAll(states: map<string, Analyzer.QueueState>, ts: seq<Analyzer.StateTransition>, now: int,
                     cfg: SlackClient.SlackConfig, client: SlackClient.Client, r: Slack.Renderers,
                     post: (nat, string, Slack.Message) -> SlackClient.WebhookOutcome): (n: Notified)
    ensures |n.errors| <= |ts|
  {
    if ts == [] then Notified([], states)
    else
      var prev := NotifyAll(states, ts[..|ts| - 1], now, cfg, client, r, post);
      var h := Handle(prev.states, ts[|ts| - 1], now, cfg, client, r, post);
      Notified(prev.errors + (if h.err.Some? then [h.err.value] else []), h.states)
  }

  /** Handling one more transition extends the outcome of handling the ones before it. */
  lemma NotifyAllStep(states: map<string, Analyzer.QueueState>, ts: seq<Analyzer.StateTransition>, i: nat, now: int,
                      cfg: SlackClient.SlackConfig, client: SlackClient.Client, r: Slack.Renderers,
                      post: (nat, string, Slack.Message) -> SlackClient.WebhookOutcome)
    requires i < |ts|
    ensures var prev := NotifyAll(states, ts[..i], now, cfg, client, r, post);
      var h := Handle(prev.states, ts[i], now, cfg, client, r, post);
      NotifyAll(states, ts[..i + 1], now, cfg, client, r, post)
        == Notified(prev.errors + (if h.err.Some? then [h.err.value] else []), h.states)
  {
    assert ts[..i + 1][..i] == ts[..i];
  }

  /** From `before` to `after` only last-notification times change, each either kept or set to `now`. */
  predicate OnlyAlertTimes(before: map<string, Analyzer.QueueState>, after: map<string, Analyzer.QueueState>, now: int) {
    && after.Keys == before.Keys
    && forall name :: name in before ==>
         && after[name] == before[name].(lastSlackAlert := after[name].lastSlackAlert)
         && (after[name].lastSlackAlert == before[name].lastSlackAlert || after[name].lastSlackAlert == Some(now))
  }

  lemma OnlyAlertTimesTrans(a: map<string, Analyzer.QueueState>, b: map<string, Analyzer.QueueState>,
                            c: map<string, Analyzer.QueueState>, now: int)
    requires OnlyAlertTimes(a, b, now) && OnlyAlertTimes(b, c, now)
    ensures OnlyAlertTimes(a, c, now)
  {
    forall name | name in a
      ensures c[name] == a[name].(lastSlackAlert := c[name].lastSlackAlert)
    {
      assert b[name] == a[name].(lastSlackAlert := b[name].lastSlackAlert);
    }
  }

  /** Handling one transition changes at most that queue's last-notification time, to `now`. */
  lemma HandleTouchesOneTime(states: map<string, Analyzer.QueueState>, t: Analyzer.StateTransition, now: int,
                             cfg: SlackClient.SlackConfig, client: SlackClient.Client, r: Slack.Renderers,
                             post: (nat, string, Slack.Message) -> SlackClient.WebhookOutcome)
    ensures var h := Handle(states, t, now, cfg, client, r, post);
      && OnlyAlertTimes(states, h.states, now)
      && forall name :: name in states && name != t.queueName ==> h.states[name] == states[name]
  {
  }

  /**
   * Handling a check's transitions touches nothing but last-notification times: no queue state
   * appears or disappears, each time either stays or becomes `now`, and a queue without a
   * transition keeps its state.
   */
  lemma {:induction false} NotifyAllFrame(states: map<string, Analyzer.QueueState>, ts: seq<Analyzer.StateTransition>, now: int,
                                          cfg: SlackClient.SlackConfig, client: SlackClient.Client, r: Slack.Renderers,
                                          post: (nat, string, Slack.Message) -> SlackClient.WebhookOutcome)
    ensures var n := NotifyAll(states, ts, now, cfg, client, r, post);
      && OnlyAlertTimes(states, n.states, now)
      && (forall name :: name in states && (forall k :: 0 <= k < |ts| ==> ts[k].queueName != name) ==>
            n.states[name] == states[name])
  {
    if ts != [] {
      var init := ts[..|ts| - 1];
      NotifyAllFrame(states, init, now, cfg, client, r, post);
      var prev := NotifyAll(states, init, now, cfg, client, r, post).states;
      HandleTouchesOneTime(prev, ts[|ts| - 1], now, cfg, client, r, post);
      var n := NotifyAll(states, ts, now, cfg, client, r, post).states;
      assert n == Handle(prev, ts[|ts| - 1], now, cfg, client, r, post).states;
      OnlyAlertTimesTrans(states, prev, n, now);
      assert forall k :: 0 <= k < |init| ==> init[k] == ts[k];
    }
  }

  // ---------------------------------------------------------------------------
  // Construction tables
  // ---------------------------------------------------------------------------

  /** The per-queue interval table built at startup; a later entry for a name replaces an earlier one. */
  function IntervalTable(qs: seq<Config.QueueConfig>, global: int): map<string, int> {
    if qs == [] then map[]
    else IntervalTable(qs[..|qs| - 1], global)[qs[|qs| - 1].name := Config.GetCheckInterval(qs[|qs| - 1], global)]
  }

  /** The per-queue detection table handed to the detector at startup. */
  function DetectionTable(qs: seq<Config.QueueConfig>, d: Config.DetectionConfig): map<string, Config.DetectionConfig> {
    if qs == [] then map[]
    else DetectionTable(qs[..|qs| - 1], d)[qs[|qs| - 1].name := Config.GetDetectionConfig(qs[|qs| - 1], d)]
  }

  /** Each table entry is the resolution of some configured queue of that name, and every configured name has one. */
  lemma {:induction false} TablesResolveConfiguredQueues(qs: seq<Config.QueueConfig>, global: int, d: Config.DetectionConfig)
    ensures forall name :: name in IntervalTable(qs, global) <==> exists i :: 0 <= i < |qs| && qs[i].name == name
    ensures forall name :: name in DetectionTable(qs, d) <==> name in IntervalTable(qs, global)
    ensures forall name :: name in IntervalTable(qs, global) ==>
      exists i :: 0 <= i < |qs| && qs[i].name == name
        && IntervalTable(qs, global)[name] == Config.GetCheckInterval(qs[i], global)
        && DetectionTable(qs, d)[name] == Config.GetDetectionConfig(qs[i], d)
  {
    if qs != [] {
      var init := qs[..|qs| - 1];
      TablesResolveConfiguredQueues(init, global, d);
      assert forall i :: 0 <= i < |init| ==> init[i] == qs[i];
    }
  }

  /**
   * Under the corrected validation the service can run: every interval of the table is
   * positive, and every per-queue detection threshold is at least 1, so the detector never
   * reaches its negative-threshold failure.
   */
  lemma StrictConfigSchedulable(cfg: Config.Config)
    requires Config.ValidateStrict(cfg) == None
    ensures Positive(IntervalTable(cfg.monitor.queues, cfg.monitor.interval), cfg.monitor.interval)
    ensures forall name :: name in DetectionTable(cfg.monitor.queues, cfg.monitor.detection) ==>
      DetectionTable(cfg.monitor.queues, cfg.monitor.detection)[name].thresholdChecks >= 1
  {
    var qs := cfg.monitor.queues;
    TablesResolveConfiguredQueues(qs, cfg.monitor.interval, cfg.monitor.detection);
    forall name | name in IntervalTable(qs, cfg.monitor.interval)
      ensures IntervalTable(qs, cfg.monitor.interval)[name] > 0
      ensures DetectionTable(qs, cfg.monitor.detection)[name].thresholdChecks >= 1
    {
      var i :| 0 <= i < |qs| && qs[i].name == name
        && IntervalTable(qs, cfg.monitor.interval)[name] == Config.GetCheckInterval(qs[i], cfg.monitor.interval)
        && DetectionTable(qs, cfg.monitor.detection)[name] == Config.GetDetectionConfig(qs[i], cfg.monitor.detection);
      Config.StrictConfigResolvesSafely(cfg, i);
    }
  }

  /**
   * The validation as written accepts a configuration whose interval table holds a zero
   * interval, so the ticker period is not positive and the service cannot start.
   */
  lemma ValidatedButUnschedulable()
    ensures var cfg := Config.DefaultConfig.(monitor := Config.DefaultConfig.monitor.(
              queues := [Config.QueueConfig("q", Some(0), Some(-1), None, None)]));
      && Config.Validate(cfg) == None
      && !Positive(IntervalTable(cfg.monitor.queues, cfg.monitor.interval), cfg.monitor.interval)
  {
    var q := Config.QueueConfig("q", Some(0), Some(-1), None, None);
    Config.ValidateIgnoresQueueOverrides();
    assert [q][..0] == [];
    assert IntervalTable([q], Config.DefaultInterval)["q"] == 0;
  }

  // ---------------------------------------------------------------------------
  // The service
  // ---------------------------------------------------------------------------

  /** What one check step ends in. */
  datatype CheckOutcome =
    | FetchFailed(cause: string)
    | NothingDue
    | Panicked
    | Checked(result: Analyzer.AnalysisResult, notifyErrors: seq<NotifyError>)

  class Service {
    const config: Config.Config
    const slack: SlackClient.SlackConfig
    const analyzer: Analyzer.Analyzer
    const slackClient: Option<SlackClient.Client>
    const queueIntervals: map<string, int>
    var lastCheckTimes: map<string, int>
    const startTime: int
    const verbosity: int

    /**
     * Builds the service at `startTime`: a detector with the global detection defaults and each
     * configured queue's resolved parameters, the per-queue interval table, an empty last-check
     * table, and a Slack client when notifications are enabled.
     */
    constructor (cfg: Config.Config, slack: SlackClient.SlackConfig, verbosity: int, startTime: int)
      ensures this.config == cfg && this.slack == slack && this.verbosity == verbosity && this.startTime == startTime
      ensures fresh(analyzer)
      ensures analyzer.defaultConfig == cfg.monitor.detection && analyzer.states == map[]
      ensures analyzer.queueConfigs == DetectionTable(cfg.monitor.queues, cfg.monitor.detection)
      ensures queueIntervals == IntervalTable(cfg.monitor.queues, cfg.monitor.interval)
      ensures lastCheckTimes == map[]
      ensures slackClient == if slack.enabled then Some(SlackClient.New(slack)) else None
    {
      var a := new Analyzer.Analyzer(cfg.monitor.detection);
      var qs := cfg.monitor.queues;
      var intervals: map<string, int> := map[];
      var i := 0;
      while i < |qs|
        invariant 0 <= i <= |qs|
        invariant a.defaultConfig == cfg.monitor.detection && a.states == map[]
        invariant a.queueConfigs == DetectionTable(qs[..i], cfg.monitor.detection)
        invariant intervals == IntervalTable(qs[..i], cfg.monitor.interval)
      {
        assert qs[..i + 1][..i] == qs[..i];
        var q := qs[i];
        a.SetQueueConfig(q.name, Config.GetDetectionConfig(q, cfg.monitor.detection));
        intervals := intervals[q.name := Config.GetCheckInterval(q, cfg.monitor.interval)];
        i := i + 1;
      }
      assert qs[..i] == qs;
      this.config := cfg;
      this.slack := slack;
      this.analyzer := a;
      this.slackClient := if slack.enabled then Some(SlackClient.New(slack)) else None;
      this.queueIntervals := intervals;
      this.lastCheckTimes := map[];
      this.startTime := startTime;
      this.verbosity := verbosity;
    }

    /** The service can run only when every interval is positive; otherwise its ticker fails at start. */
    predicate Schedulable()
      reads this
    {
      Positive(queueIntervals, config.monitor.interval)
    }

    /**
     * Handles one transition of the current check: the gate of `Handle`, with the send going
     * to this service's Slack client.
     */
    method HandleStateTransition(t: Analyzer.StateTransition, now: int, client: SlackClient.Client,
                                 r: Slack.Renderers, post: (nat, string, Slack.Message) -> SlackClient.WebhookOutcome)
      returns (err: Option<NotifyError>)
      modifies analyzer
      ensures analyzer.defaultConfig == old(analyzer.defaultConfig) && analyzer.queueConfigs == old(analyzer.queueConfigs)
      ensures Handled(err, analyzer.states) == Handle(old(analyzer.states), t, now, slack, client, r, post)
    {
      var state := analyzer.GetState(t.queueName);
      if state.None? {
        return Some(StateNotFound(t.queueName));
      }
      var st := state.value;
      var kind := KindOf(t.toState, slack);
      if kind.None? {
        return None;
      }
      var cooldown := Cooldown(kind.value, slack);
      if st.lastSlackAlert.Some? && now - st.lastSlackAlert.value < cooldown {
        return None;
      }
      var alert := AlertFor(kind.value, t, st);
      var sendErr := SlackClient.SendAlert(client, alert, r, post);
      if sendErr.Some? {
        return Some(SendFailed(sendErr.value));
      }
      analyzer.RecordSlackAlert(t.queueName, now);
      return None;
    }

    /** Handles every transition of a check in order, collecting the errors. */
    method NotifyTransitions(ts: seq<Analyzer.StateTransition>, now: int, client: SlackClient.Client,
                             r: Slack.Renderers, post: (nat, string, Slack.Message) -> SlackClient.WebhookOutcome)
      returns (errors: seq<NotifyError>)
      modifies analyzer
      ensures analyzer.defaultConfig == old(analyzer.defaultConfig) && analyzer.queueConfigs == old(analyzer.queueConfigs)
      ensures Notified(errors, analyzer.states) == NotifyAll(old(analyzer.states), ts, now, slack, client, r, post)
    {
      errors := [];
      ghost var initial := analyzer.states;
      var i := 0;
      while i < |ts|
        invariant 0 <= i <= |ts|
        invariant analyzer.defaultConfig == old(analyzer.defaultConfig) && analyzer.queueConfigs == old(analyzer.queueConfigs)
        invariant Notified(errors, analyzer.states) == NotifyAll(initial, ts[..i], now, slack, client, r, post)
      {
        NotifyAllStep(initial, ts, i, now, slack, client, r, post);
        var err := HandleStateTransition(ts[i], now, client, r, post);
        if err.Some? {
          errors := errors + [err.value];
        }
        i := i + 1;
      }
      assert ts[..i] == ts;
    }

    /** Picks the due queues in fetch order and records each as checked at `now`. */
    method SelectDueQueues(queues: seq<RabbitMQ.QueueInfo>, now: int) returns (due: seq<RabbitMQ.QueueInfo>)
      requires Schedulable()
      modifies this
      ensures Selection(due, lastCheckTimes)
        == SelectDue(queues, old(lastCheckTimes), queueIntervals, config.monitor.interval, startTime, now)
    {
      due := [];
      var i := 0;
      while i < |queues|
        invariant 0 <= i <= |queues|
        invariant Selection(due, lastCheckTimes)
          == SelectDue(queues[..i], old(lastCheckTimes), queueIntervals, config.monitor.interval, startTime, now)
      {
        assert queues[..i + 1][..i] == queues[..i];
        var queue := queues[i];
        var checkInterval := if queue.name in queueIntervals then queueIntervals[queue.name] else config.monitor.interval;
        var lastCheck := if queue.name in lastCheckTimes then Some(lastCheckTimes[queue.name]) else None;
        var shouldCheck := IsDue(lastCheck, startTime, now, checkInterval);
        if shouldCheck {
          due := due + [queue];
          lastCheckTimes := lastCheckTimes[queue.name := now];
        }
        i := i + 1;
      }
      assert queues[..i] == queues;
    }

    /**
     * One check on the broker's answer `fetch`: a failed fetch changes nothing; otherwise the
     * configured queues are kept, the due ones picked and recorded, and when some are due the
     * detector runs on them and, with Slack enabled, each transition is handled. The clock is read
     * twice: `now` before the fetch, for scheduling and the notification cooldowns, and
     * `analyzedAt` inside the detector after the fetch, for snapshots, transitions and alerts.
     */
    method PerformCheck(fetch: Result<seq<RabbitMQ.QueueInfo>, string>, now: int, analyzedAt: int,
                        r: Slack.Renderers, post: (nat, string, Slack.Message) -> SlackClient.WebhookOutcome)
      returns (outcome: CheckOutcome)
      requires Schedulable()
      requires now <= analyzedAt
      modifies this, analyzer
      ensures analyzer.defaultConfig == old(analyzer.defaultConfig) && analyzer.queueConfigs == old(analyzer.queueConfigs)
      ensures fetch.Err? ==>
        outcome == FetchFailed(fetch.error) && lastCheckTimes == old(lastCheckTimes) && analyzer.states == old(analyzer.states)
      ensures fetch.Ok? ==>
        var sel := SelectDue(RabbitMQ.Filtered(fetch.value, config.monitor.queues), old(lastCheckTimes),
                             queueIntervals, config.monitor.interval, startTime, now);
        && lastCheckTimes == sel.lastCheckTimes
        && (sel.due == [] ==> outcome == NothingDue && analyzer.states == old(analyzer.states))
        && (sel.due != [] ==>
              var k := Analyzer.SafePrefixLength(sel.due, analyzer.queueConfigs, analyzer.defaultConfig);
              var b := Analyzer.AnalyzeBatch(Analyzer.Batch(old(analyzer.states), [], []),
                                             analyzer.queueConfigs, analyzer.defaultConfig, sel.due[..k], analyzedAt);
              && (k < |sel.due| ==> outcome == Panicked && analyzer.states == b.states)
              && (k == |sel.due| && slackClient.None? ==>
                    outcome == Checked(Analyzer.AnalysisResult(b.alerts, b.transitions), [])
                    && analyzer.states == b.states)
              && (k == |sel.due| && slackClient.Some? ==>
                    var n := NotifyAll(b.states, b.transitions, now, slack, slackClient.value, r, post);
                    outcome == Checked(Analyzer.AnalysisResult(b.alerts, b.transitions), n.errors)
                    && analyzer.states == n.states))
    {
      if fetch.Err? {
        return FetchFailed(fetch.error);
      }
      var monitored := RabbitMQ.FilterQueues(fetch.value, config.monitor.queues);
      var due := SelectDueQueues(monitored, now);
      if |due| == 0 {
        return NothingDue;
      }
      var result, panicked := analyzer.Analyze(due, analyzedAt);
      if panicked {
        return Panicked;
      }
      var errors: seq<NotifyError> := [];
      if slackClient.Some? {
        errors := NotifyTransitions(result.transitions, now, slackClient.value, r, post);
      }
      return Checked(result, errors);
    }
  }
}
