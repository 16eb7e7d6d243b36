/**
 * The Slack webhook client: the timeout default applied when a client is built, and how the
 * outcomes of posting one alert to every configured webhook are folded into a single result.
 * The HTTP POST itself is a parameter: `post(i, url, message)` is what the i-th webhook
 * (0-based) answered.
 */
module SlackClient {
  import opened Wrappers
  import opened Durations
  import Slack

  const DefaultTimeout: int := 10 * Second
  const StatusOK: int := 200

  /** Slack settings: durations in nanoseconds. */
  datatype SlackConfig = SlackConfig(
    enabled: bool,
    webhookURLs: seq<string>,
    alertCooldown: int,
    sendRecovery: bool,
    recoveryCooldown: int,
    timeout: int)

  /** What one POST produced: an HTTP status, or a transport error with its cause. */
  datatype WebhookOutcome = Delivered(status: int) | TransportError(cause: string)

  /** Why a send failed; webhook indices are 1-based, as in the error text. */
  datatype SendError =
    | NoWebhooks
    | WebhookFailed(index: nat, cause: string)
    | WebhookStatus(index: nat, code: int)

  datatype Client = Client(config: SlackConfig)

  /** A client always has a non-zero timeout: zero is replaced by ten seconds, anything else kept. */
  function New(config: SlackConfig): (c: Client)
    ensures c.config.timeout != 0
    ensures config.timeout != 0 ==> c.config == config
    ensures config.timeout == 0 ==> c.config == config.(timeout := DefaultTimeout)
  {
    if config.timeout == 0 then Client(config.(timeout := DefaultTimeout)) else Client(config)
  }

  predicate Succeeded(o: WebhookOutcome) {
    o.Delivered? && o.status == StatusOK
  }

  /** The error recorded for a webhook that did not succeed. */
  function Failure(i: nat, o: WebhookOutcome): (e: SendError)
    requires !Succeeded(o)
    ensures !e.NoWebhooks? && e.index == i + 1
  {
    match o
    case TransportError(cause) => WebhookFailed(i + 1, cause)
    case Delivered(code) => WebhookStatus(i + 1, code)
  }

  // ---------------------------------------------------------------------------
  // What the send loop computes
  // ---------------------------------------------------------------------------

  predicate SucceededAt(urls: seq<string>, msg: Slack.Message, post: (nat, string, Slack.Message) -> WebhookOutcome, i: nat)
    requires i < |urls|
  {
    urls[i] != "" && Succeeded(post(i, urls[i], msg))
  }

  predicate FailedAt(urls: seq<string>, msg: Slack.Message, post: (nat, string, Slack.Message) -> WebhookOutcome, i: nat)
    requires i < |urls|
  {
    urls[i] != "" && !Succeeded(post(i, urls[i], msg))
  }

  /** The number of successes and the last failure among the first `n` webhooks; empty URLs are skipped. */
  function Tally(urls: seq<string>, msg: Slack.Message, post: (nat, string, Slack.Message) -> WebhookOutcome, n: nat): (t: (nat, Option<SendError>))
    requires n <= |urls|
  {
    if n == 0 then (0, None)
    else
      var prev := Tally(urls, msg, post, n - 1);
      var o := post(n - 1, urls[n - 1], msg);
      if urls[n - 1] == "" then prev
      else if Succeeded(o) then (prev.0 + 1, prev.1)
      else (prev.0, Some(Failure(n - 1, o)))
  }

  /** The result of delivering one message: None is success. */
  function DeliveryResult(config: SlackConfig, msg: Slack.Message, post: (nat, string, Slack.Message) -> WebhookOutcome): Option<SendError> {
    var urls := config.webhookURLs;
    if !config.enabled then None
    else if urls == [] then Some(NoWebhooks)
    else
      var t := Tally(urls, msg, post, |urls|);
      if t.0 == 0 && t.1.Some? then t.1 else None
  }

  /** The result of sending an alert, which is formatted once and delivered. */
  function SendResult(c: Client, alert: Slack.QueueAlert, r: Slack.Renderers, post: (nat, string, Slack.Message) -> WebhookOutcome): Option<SendError> {
    DeliveryResult(c.config, Slack.FormatAlert(alert, r), post)
  }

  /**
   * Posts the message to every non-empty webhook URL in order and reports the last failure
   * only when no webhook succeeded.
   */
  method Deliver(config: SlackConfig, message: Slack.Message, post: (nat, string, Slack.Message) -> WebhookOutcome)
    returns (err: Option<SendError>)
    ensures err == DeliveryResult(config, message, post)
    ensures !config.enabled ==> err == None
    ensures config.enabled && config.webhookURLs == [] ==> err == Some(NoWebhooks)
  {
    if !config.enabled {
      return None;
    }
    var urls := config.webhookURLs;
    if |urls| == 0 {
      return Some(NoWebhooks);
    }
    var lastError: Option<SendError> := None;
    var successCount: nat := 0;
    var i := 0;
    while i < |urls|
      invariant 0 <= i <= |urls|
      invariant (successCount, lastError) == Tally(urls, message, post, i)
    {
      if urls[i] != "" {
        var outcome := post(i, urls[i], message);
        if !Succeeded(outcome) {
          lastError := Some(Failure(i, outcome));
        } else {
          successCount := successCount + 1;
        }
      }
      i := i + 1;
    }
    if successCount == 0 && lastError.Some? {
      return lastError;
    }
    return None;
  }

  /** Formats the alert once and delivers it to every configured webhook. */
  method SendAlert(c: Client, alert: Slack.QueueAlert, r: Slack.Renderers, post: (nat, string, Slack.Message) -> WebhookOutcome)
    returns (err: Option<SendError>)
    ensures err == SendResult(c, alert, r, post)
    ensures !c.config.enabled ==> err == None
    ensures c.config.enabled && c.config.webhookURLs == [] ==> err == Some(NoWebhooks)
  {
    var message := Slack.FormatAlert(alert, r);
    err := Deliver(c.config, message, post);
  }

  // ---------------------------------------------------------------------------
  // What the result means
  // ---------------------------------------------------------------------------

  /**
   * Over the first `n` webhooks: no success is counted exactly when none of them succeeded; a
   * failure is remembered exactly when one of them failed, and it is the one with the highest
   * index.
   */
  lemma {:induction false} TallyMeaning(urls: seq<string>, msg: Slack.Message, post: (nat, string, Slack.Message) -> WebhookOutcome, n: nat)
    requires n <= |urls|
    ensures Tally(urls, msg, post, n).0 == 0 <==> forall i :: 0 <= i < n ==> !SucceededAt(urls, msg, post, i)
    ensures Tally(urls, msg, post, n).1.Some? <==> exists i :: 0 <= i < n && FailedAt(urls, msg, post, i)
    ensures Tally(urls, msg, post, n).1.Some? ==>
      exists j :: 0 <= j < n && FailedAt(urls, msg, post, j)
        && Tally(urls, msg, post, n).1 == Some(Failure(j, post(j, urls[j], msg)))
        && forall i :: j < i < n ==> !FailedAt(urls, msg, post, i)
  {
    if n > 0 {
      TallyMeaning(urls, msg, post, n - 1);
      var t, prev := Tally(urls, msg, post, n), Tally(urls, msg, post, n - 1);
      if SucceededAt(urls, msg, post, n - 1) {
        assert t.0 != 0;
      } else {
        assert t.0 == prev.0;
      }
      if FailedAt(urls, msg, post, n - 1) {
        assert t.1 == Some(Failure(n - 1, post(n - 1, urls[n - 1], msg)));
      } else {
        assert t.1 == prev.1;
        if t.1.Some? {
          var j :| 0 <= j < n - 1 && FailedAt(urls, msg, post, j)
            && prev.1 == Some(Failure(j, post(j, urls[j], msg)))
            && forall i :: j < i < n - 1 ==> !FailedAt(urls, msg, post, i);
          assert forall i :: j < i < n ==> !FailedAt(urls, msg, post, i);
        }
      }
    }
  }

  /**
   * With at least one URL configured, the send fails exactly when no non-empty webhook
   * succeeded and at least one failed; the error is then the last failing webhook's, tagged
   * with its 1-based position.
   */
  lemma SendFailsIff(c: Client, alert: Slack.QueueAlert, r: Slack.Renderers, post: (nat, string, Slack.Message) -> WebhookOutcome)
    requires c.config.enabled && c.config.webhookURLs != []
    ensures var urls, msg := c.config.webhookURLs, Slack.FormatAlert(alert, r);
      SendResult(c, alert, r, post).Some? <==>
        (forall i :: 0 <= i < |urls| ==> !SucceededAt(urls, msg, post, i))
        && (exists i :: 0 <= i < |urls| && FailedAt(urls, msg, post, i))
    ensures var urls, msg := c.config.webhookURLs, Slack.FormatAlert(alert, r);
      SendResult(c, alert, r, post).Some? ==>
        exists j :: 0 <= j < |urls| && FailedAt(urls, msg, post, j)
          && SendResult(c, alert, r, post) == Some(Failure(j, post(j, urls[j], msg)))
          && SendResult(c, alert, r, post).value.index == j + 1
          && forall i :: j < i < |urls| ==> !FailedAt(urls, msg, post, i)
  {
    var urls, msg := c.config.webhookURLs, Slack.FormatAlert(alert, r);
    TallyMeaning(urls, msg, post, |urls|);
  }

  /** One webhook that answers 200 makes the whole send succeed, whatever the others did. */
  lemma OneSuccessSuffices(c: Client, alert: Slack.QueueAlert, r: Slack.Renderers, post: (nat, string, Slack.Message) -> WebhookOutcome, k: nat)
    requires c.config.enabled && k < |c.config.webhookURLs|
    requires SucceededAt(c.config.webhookURLs, Slack.FormatAlert(alert, r), post, k)
    ensures SendResult(c, alert, r, post) == None
  {
    SendFailsIff(c, alert, r, post);
  }

  /** Empty URLs are skipped, so a list of nothing but empty URLs succeeds without a single POST. */
  lemma AllEmptySucceeds(c: Client, alert: Slack.QueueAlert, r: Slack.Renderers, post: (nat, string, Slack.Message) -> WebhookOutcome)
    requires c.config.enabled && c.config.webhookURLs != []
    requires forall i :: 0 <= i < |c.config.webhookURLs| ==> c.config.webhookURLs[i] == ""
    ensures SendResult(c, alert, r, post) == None
  {
    SendFailsIff(c, alert, r, post);
  }
}
