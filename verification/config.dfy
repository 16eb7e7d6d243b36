/**
 * Configuration of the monitor: the per-queue override merge, the interval
 * fallback, startup validation and the management-API URL.
 * Durations are integers in nanoseconds.
 */
module Config {
  import opened Wrappers
  import Decimal
  import Durations

  /** Detection parameters for one queue (a resolved configuration). */
  datatype DetectionConfig = DetectionConfig(thresholdChecks: int, minMessageCount: int, minConsumeRate: real)

  /** A monitored queue; every override is independently optional (a nil pointer is None). */
  datatype QueueConfig = QueueConfig(
    name: string,
    checkInterval: Option<int>,
    thresholdChecks: Option<int>,
    minMessageCount: Option<int>,
    minConsumeRate: Option<real>)

  datatype RabbitMQConfig = RabbitMQConfig(
    host: string, port: int, username: string, password: string, vhost: string, useTLS: bool)

  datatype MonitorConfig = MonitorConfig(interval: int, detection: DetectionConfig, queues: seq<QueueConfig>)

  datatype LoggingConfig = LoggingConfig(filePath: string, level: string, format: string)

  datatype Config = Config(rabbitMQ: RabbitMQConfig, monitor: MonitorConfig, logging: LoggingConfig)

  /** The values installed before the configuration file is read. */
  const DefaultRabbitMQ := RabbitMQConfig("localhost", 15672, "guest", "guest", "/", false)
  const DefaultInterval: int := Durations.Minute
  const DefaultDetection := DetectionConfig(3, 10, 0.1)
  const DefaultLogging := LoggingConfig("/var/log/rabbitmq-monitor/stuck-queues.log", "info", "json")
  const DefaultConfig := Config(DefaultRabbitMQ, MonitorConfig(DefaultInterval, DefaultDetection, []), DefaultLogging)

  /** The effective detection parameters of a queue: each present override replaces its default. */
  function GetDetectionConfig(q: QueueConfig, globalDefaults: DetectionConfig): (r: DetectionConfig)
    ensures r.thresholdChecks == q.thresholdChecks.GetOr(globalDefaults.thresholdChecks)
    ensures r.minMessageCount == q.minMessageCount.GetOr(globalDefaults.minMessageCount)
    ensures r.minConsumeRate == q.minConsumeRate.GetOr(globalDefaults.minConsumeRate)
  {
    var c := globalDefaults;
    var c := if q.thresholdChecks.Some? then c.(thresholdChecks := q.thresholdChecks.value) else c;
    var c := if q.minMessageCount.Some? then c.(minMessageCount := q.minMessageCount.value) else c;
    var c := if q.minConsumeRate.Some? then c.(minConsumeRate := q.minConsumeRate.value) else c;
    c
  }

  /** A queue without overrides gets the defaults unchanged. */
  lemma NoOverridesGivesDefaults(name: string, interval: Option<int>, d: DetectionConfig)
    ensures GetDetectionConfig(QueueConfig(name, interval, None, None, None), d) == d
  {
  }

  /** Each field is resolved independently: an override of one field never affects another. */
  lemma OverridesAreIndependent(q: QueueConfig, d: DetectionConfig, t: Option<int>)
    ensures GetDetectionConfig(q.(thresholdChecks := t), d).minMessageCount == GetDetectionConfig(q, d).minMessageCount
    ensures GetDetectionConfig(q.(thresholdChecks := t), d).minConsumeRate == GetDetectionConfig(q, d).minConsumeRate
  {
  }

  /** Resolving twice changes nothing: the result is a fixed point of the merge. */
  lemma ResolveIdempotent(q: QueueConfig, d: DetectionConfig)
    ensures GetDetectionConfig(q, GetDetectionConfig(q, d)) == GetDetectionConfig(q, d)
  {
  }

  /** The sampling interval of a queue: its override when present, else the global one. */
  function GetCheckInterval(q: QueueConfig, globalDefault: int): (r: int)
    ensures q.checkInterval.Some? ==> r == q.checkInterval.value
    ensures q.checkInterval.None? ==> r == globalDefault
  {
    if q.checkInterval.Some? then q.checkInterval.value else globalDefault
  }

  const ErrHost := "rabbitmq.host is required"
  const ErrPort := "rabbitmq.port must be between 1 and 65535"
  const ErrInterval := "monitor.interval must be positive"
  const ErrThreshold := "monitor.detection.threshold_checks must be at least 1"
  const ErrFilePath := "logging.file_path is required"

  predicate PortInRange(port: int) { 1 <= port <= 65535 }

  /** The global settings every check accepts. */
  predicate GloballyValid(cfg: Config) {
    && cfg.rabbitMQ.host != ""
    && PortInRange(cfg.rabbitMQ.port)
    && cfg.monitor.interval > 0
    && cfg.monitor.detection.thresholdChecks >= 1
    && cfg.logging.filePath != ""
  }

  /**
   * Startup validation as the program performs it: None when valid, otherwise the message of the
   * first failing check. Per-queue overrides are never looked at.
   */
  function Validate(cfg: Config): (r: Option<string>)
    ensures r.None? <==> GloballyValid(cfg)
    ensures r == Some(ErrHost) <==> cfg.rabbitMQ.host == ""
    ensures r == Some(ErrPort) <==> cfg.rabbitMQ.host != "" && !PortInRange(cfg.rabbitMQ.port)
    ensures r == Some(ErrInterval) <==>
      cfg.rabbitMQ.host != "" && PortInRange(cfg.rabbitMQ.port) && cfg.monitor.interval <= 0
    ensures r == Some(ErrThreshold) <==>
      cfg.rabbitMQ.host != "" && PortInRange(cfg.rabbitMQ.port) && cfg.monitor.interval > 0
      && cfg.monitor.detection.thresholdChecks < 1
    ensures r == Some(ErrFilePath) <==>
      cfg.rabbitMQ.host != "" && PortInRange(cfg.rabbitMQ.port) && cfg.monitor.interval > 0
      && cfg.monitor.detection.thresholdChecks >= 1 && cfg.logging.filePath == ""
  {
    if cfg.rabbitMQ.host == "" then Some(ErrHost)
    else if cfg.rabbitMQ.port <= 0 || cfg.rabbitMQ.port > 65535 then Some(ErrPort)
    else if cfg.monitor.interval <= 0 then Some(ErrInterval)
    else if cfg.monitor.detection.thresholdChecks < 1 then Some(ErrThreshold)
    else if cfg.logging.filePath == "" then Some(ErrFilePath)
    else None
  }

  lemma DefaultsAreValid()
    ensures Validate(DefaultConfig) == None
  {
  }

  /** Validation accepts a configuration whose only queue samples every 0 ns and never needs a stuck streak. */
  lemma ValidateIgnoresQueueOverrides()
    ensures var cfg := DefaultConfig.(monitor := DefaultConfig.monitor.(queues := [QueueConfig("q", Some(0), Some(-1), None, None)]));
      && Validate(cfg) == None
      && GetCheckInterval(cfg.monitor.queues[0], cfg.monitor.interval) == 0
      && GetDetectionConfig(cfg.monitor.queues[0], cfg.monitor.detection).thresholdChecks == -1
  {
  }

  const ErrQueueInterval := "monitor.queues[].check_interval must be positive"
  const ErrQueueThreshold := "monitor.queues[].threshold_checks must be at least 1"

  /** The per-queue overrides the global checks evidently intend to constrain as well. */
  predicate QueueOverridesValid(q: QueueConfig) {
    && (q.checkInterval.Some? ==> q.checkInterval.value > 0)
    && (q.thresholdChecks.Some? ==> q.thresholdChecks.value >= 1)
  }

  function FirstBadQueue(qs: seq<QueueConfig>): (r: Option<string>)
    ensures r.None? <==> forall i :: 0 <= i < |qs| ==> QueueOverridesValid(qs[i])
  {
    if qs == [] then None
    else if qs[0].checkInterval.Some? && qs[0].checkInterval.value <= 0 then Some(ErrQueueInterval)
    else if qs[0].thresholdChecks.Some? && qs[0].thresholdChecks.value < 1 then Some(ErrQueueThreshold)
    else FirstBadQueue(qs[1..])
  }

  /** Corrected validation: the global checks, then the same bounds on every per-queue override. */
  function ValidateStrict(cfg: Config): (r: Option<string>)
    ensures r.None? <==> GloballyValid(cfg) && forall i :: 0 <= i < |cfg.monitor.queues| ==> QueueOverridesValid(cfg.monitor.queues[i])
    ensures Validate(cfg).Some? ==> r == Validate(cfg)
  {
    if Validate(cfg).Some? then Validate(cfg) else FirstBadQueue(cfg.monitor.queues)
  }

  /** Under the corrected validation every resolved queue has a positive interval and a threshold of at least 1. */
  lemma StrictConfigResolvesSafely(cfg: Config, i: int)
    requires ValidateStrict(cfg) == None
    requires 0 <= i < |cfg.monitor.queues|
    ensures GetCheckInterval(cfg.monitor.queues[i], cfg.monitor.interval) > 0
    ensures GetDetectionConfig(cfg.monitor.queues[i], cfg.monitor.detection).thresholdChecks >= 1
  {
    assert QueueOverridesValid(cfg.monitor.queues[i]);
  }

  function Scheme(useTLS: bool): string {
    if useTLS then "https" else "http"
  }

  /**
   * The management API base URL: it starts with the scheme and "://", and its last colon is
   * followed by the decimal port, so a host holding colons cannot hide the port.
   */
  function GetRabbitMQURL(c: RabbitMQConfig): (url: string)
    ensures var pre := Scheme(c.useTLS) + "://"; |pre| <= |url| && url[..|pre|] == pre
    ensures var port := Decimal.IntToString(c.port);
      |url| > |port| && LastIndexOf(url, ':') == Some(|url| - |port| - 1) && url[|url| - |port|..] == port
  {
    var pre, port := Scheme(c.useTLS) + "://", Decimal.IntToString(c.port);
    IntToStringHasNoColon(c.port);
    LastColonIsSeparator(pre + c.host, port);
    var url := pre + c.host + ":" + port;
    assert url[..|pre|] == pre && url[|url| - |port|..] == port;
    url
  }

  function LastIndexOf(s: string, ch: char): (r: Option<nat>)
    ensures r.Some? ==> r.value < |s| && s[r.value] == ch && forall j :: r.value < j < |s| ==> s[j] != ch
    ensures r.None? ==> forall j :: 0 <= j < |s| ==> s[j] != ch
  {
    if s == [] then None
    else if s[|s| - 1] == ch then Some(|s| - 1)
    else LastIndexOf(s[..|s| - 1], ch)
  }

  function StripScheme(url: string): Option<(bool, string)> {
    if |url| >= 8 && url[..8] == "https://" then Some((true, url[8..]))
    else if |url| >= 7 && url[..7] == "http://" then Some((false, url[7..]))
    else None
  }

  function SplitHostPort(hp: string): Option<(string, int)> {
    var k := LastIndexOf(hp, ':');
    if k.None? then None
    else
      var port := Decimal.ParseInt(hp[k.value + 1..]);
      if port.None? then None else Some((hp[..k.value], port.value))
  }

  /** Splits a base URL back into (TLS, host, port); the port follows the last colon. */
  function ParseURL(url: string): Option<(bool, string, int)> {
    var rest := StripScheme(url);
    if rest.None? then None
    else
      var hp := SplitHostPort(rest.value.1);
      if hp.None? then None else Some((rest.value.0, hp.value.0, hp.value.1))
  }

  lemma IntToStringHasNoColon(n: int)
    ensures forall j :: 0 <= j < |Decimal.IntToString(n)| ==> Decimal.IntToString(n)[j] != ':'
  {
  }

  lemma {:induction false} LastColonIsSeparator(host: string, p: string)
    requires forall j :: 0 <= j < |p| ==> p[j] != ':'
    ensures LastIndexOf(host + ":" + p, ':') == Some(|host|)
    decreases |p|
  {
    var hp := host + ":" + p;
    if p != [] {
      assert hp[|hp| - 1] == p[|p| - 1];
      assert hp[..|hp| - 1] == host + ":" + p[..|p| - 1];
      LastColonIsSeparator(host, p[..|p| - 1]);
    }
  }

  lemma SchemeRoundTrip(tls: bool, rest: string)
    ensures StripScheme(Scheme(tls) + "://" + rest) == Some((tls, rest))
  {
    var url := Scheme(tls) + "://" + rest;
    if tls {
      assert url[..8] == "https://" && url[8..] == rest;
    } else {
      assert url[..7] == "http://" && url[7..] == rest;
      assert |url| >= 8 ==> url[..8] != "https://" by {
        if |url| >= 8 { assert url[4] == ':'; }
      }
    }
  }

  lemma HostPortRoundTrip(host: string, port: int)
    ensures SplitHostPort(host + ":" + Decimal.IntToString(port)) == Some((host, port))
  {
    var p := Decimal.IntToString(port);
    var hp := host + ":" + p;
    IntToStringHasNoColon(port);
    LastColonIsSeparator(host, p);
    assert hp[|host| + 1..] == p;
    assert hp[..|host|] == host;
    Decimal.ParseIntRoundTrip(port);
  }

  /** The URL determines the scheme, the host and the port it was built from, whatever the host holds. */
  lemma URLRoundTrip(c: RabbitMQConfig)
    ensures ParseURL(GetRabbitMQURL(c)) == Some((c.useTLS, c.host, c.port))
  {
    var p := Decimal.IntToString(c.port);
    var hp := c.host + ":" + p;
    assert GetRabbitMQURL(c) == Scheme(c.useTLS) + "://" + hp;
    SchemeRoundTrip(c.useTLS, hp);
    HostPortRoundTrip(c.host, c.port);
  }
}
