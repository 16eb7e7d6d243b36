/**
 * Slack message values and the formatter that turns a queue alert into a
 * message: the thousands separator, the human-readable duration and the
 * choice between the alerting and the recovery layout.
 */
module Slack {
  import opened Wrappers
  import Decimal
  import opened Durations

  /** The kind of a notification; any string, two of which are named. */
  type AlertType = string

  const AlertTypeAlerting: AlertType := "alerting"
  const AlertTypeNotAlerting: AlertType := "not_alerting"

  /** What a notification reports about one queue. Times and durations in nanoseconds. */
  datatype QueueAlert = QueueAlert(
    alertType: AlertType,
    queueName: string,
    vhost: string,
    messagesReady: int,
    consumers: int,
    consumeRate: real,
    ackRate: real,
    publishRate: real,
    consecutiveStuck: int,
    reason: string,
    timestamp: int,
    stuckDuration: int)

  datatype TextObject = TextObject(kind: string, text: string)

  /** A block of a message; an absent text object is None. */
  datatype Block = Block(kind: string, text: Option<TextObject>, fields: seq<TextObject>, elements: seq<TextObject>)

  datatype Message = Message(text: string, blocks: seq<Block>, channel: string)

  /**
   * The renderings the formatter borrows from Go's library: a rate with two decimals ("%.2f")
   * and a timestamp as "2006-01-02 15:04:05 UTC".
   */
  datatype Renderers = Renderers(rate: real -> string, time: int -> string)

  // ---------------------------------------------------------------------------
  // Numbers
  // ---------------------------------------------------------------------------

  /**
   * The decimal rendering with one separator before the last three digits from 1000 on: below
   * 1000 there is no comma; from 1000 on the last three characters are digits worth n % 1000
   * and the comma comes right before them.
   */
  function FormatNumber(n: int): (r: string)
    ensures n < 1000 ==> ',' !in r
    ensures n >= 1000 ==>
      && |r| >= 5 && r[|r| - 4] == ','
      && Decimal.AllDigits(r[|r| - 3..]) && Decimal.DigitsValue(r[|r| - 3..]) == n % 1000
  {
    if n < 1000 then
      var r := Decimal.IntToString(n);
      assert Decimal.AllDigits(if n < 0 then r[1..] else r);
      r
    else
      var lo := Decimal.Pad3(n % 1000);
      var r := Decimal.IntToString(n / 1000) + "," + lo;
      assert r[|r| - 3..] == lo;
      r
  }

  /** The characters of `s` other than commas. */
  function WithoutCommas(s: string): (r: string)
    ensures |r| <= |s|
  {
    if s == [] then []
    else WithoutCommas(s[..|s| - 1]) + (if s[|s| - 1] == ',' then [] else [s[|s| - 1]])
  }

  function CountChar(s: string, c: char): (k: nat)
    ensures k <= |s|
  {
    if s == [] then 0 else CountChar(s[..|s| - 1], c) + (if s[|s| - 1] == c then 1 else 0)
  }

  lemma {:induction false} WithoutCommasDigits(s: string)
    requires Decimal.AllDigits(s)
    ensures WithoutCommas(s) == s
    ensures CountChar(s, ',') == 0
  {
    if s != [] {
      WithoutCommasDigits(s[..|s| - 1]);
    }
  }

  lemma {:induction false} WithoutCommasAppend(a: string, b: string)
    ensures WithoutCommas(a + b) == WithoutCommas(a) + WithoutCommas(b)
    ensures CountChar(a + b, ',') == CountChar(a, ',') + CountChar(b, ',')
    decreases |b|
  {
    if b == [] {
      assert a + b == a;
    } else {
      assert (a + b)[..|a + b| - 1] == a + b[..|b| - 1];
      WithoutCommasAppend(a, b[..|b| - 1]);
    }
  }

  /** The digits of a number from 1000 on: those of its thousands, then three more. */
  function ThousandsDigits(n: int): string
    requires n >= 1000
  {
    Decimal.NatToString(n / 1000) + Decimal.Pad3(n % 1000)
  }

  lemma WithoutCommasNegative(m: nat)
    ensures WithoutCommas("-" + Decimal.NatToString(m)) == "-" + Decimal.NatToString(m)
  {
    var d := Decimal.NatToString(m);
    WithoutCommasAppend("-", d);
    WithoutCommasDigits(d);
    assert "-"[..0] == [];
    assert WithoutCommas("-") == "-";
  }

  lemma WithoutCommasThousands(hi: string, lo: string)
    requires Decimal.AllDigits(hi) && Decimal.AllDigits(lo)
    ensures WithoutCommas(hi + "," + lo) == hi + lo
  {
    WithoutCommasAppend(hi + ",", lo);
    WithoutCommasAppend(hi, ",");
    WithoutCommasDigits(hi);
    WithoutCommasDigits(lo);
    assert WithoutCommas(",") == WithoutCommas([]) + [];
  }

  /** Dropping the separator leaves the plain decimal rendering below 1000, the digits above. */
  lemma WithoutSeparator(n: int)
    ensures WithoutCommas(FormatNumber(n)) == if n < 1000 then Decimal.IntToString(n) else ThousandsDigits(n)
  {
    if n < 0 {
      WithoutCommasNegative(-n);
    } else if n < 1000 {
      WithoutCommasDigits(Decimal.NatToString(n));
    } else {
      var hi := Decimal.NatToString(n / 1000);
      assert Decimal.IntToString(n / 1000) == hi;
      WithoutCommasThousands(hi, Decimal.Pad3(n % 1000));
    }
  }

  lemma ThousandsValue(n: int)
    requires n >= 1000
    ensures Decimal.AllDigits(ThousandsDigits(n)) && Decimal.DigitsValue(ThousandsDigits(n)) == n
  {
    var q, r := n / 1000, n % 1000;
    var hi, lo := Decimal.NatToString(q), Decimal.Pad3(r);
    Decimal.NatToStringValue(q);
    Decimal.DigitsValueAppend(hi, lo);
    assert Decimal.Pow10(|lo|) == 1000 by {
      assert Decimal.Pow10(1) == 10;
      assert Decimal.Pow10(2) == 100;
    }
    assert Decimal.DigitsValue(hi + lo) == q * 1000 + r;
  }

  /**
   * Dropping the separator and reading the digits back gives the number: the separator is
   * cosmetic and no digit is lost or added.
   */
  lemma FormatNumberRoundTrip(n: int)
    ensures Decimal.ParseInt(WithoutCommas(FormatNumber(n))) == Some(n)
  {
    WithoutSeparator(n);
    if n < 1000 {
      Decimal.ParseIntRoundTrip(n);
    } else {
      var t := ThousandsDigits(n);
      ThousandsValue(n);
      assert Decimal.IsDigit(t[0]);
    }
  }

  /**
   * Only one separator is ever written, whatever the magnitude: numbers from 1000 on carry
   * exactly one comma (the one before the last three digits), and smaller numbers none.
   */
  lemma FormatNumberSeparators(n: int)
    ensures CountChar(FormatNumber(n), ',') == if n >= 1000 then 1 else 0
  {
    if n < 0 {
      var digits := Decimal.NatToString(-n);
      assert CountChar("-" + digits, ',') == 0 by {
        WithoutCommasAppend("-", digits);
        WithoutCommasDigits(digits);
        assert CountChar("-", ',') == 0;
      }
      assert FormatNumber(n) == "-" + digits;
    } else if n < 1000 {
      WithoutCommasDigits(Decimal.NatToString(n));
    } else {
      var hi := Decimal.NatToString(n / 1000);
      var lo := Decimal.Pad3(n % 1000);
      assert CountChar(hi + "," + lo, ',') == 1 by {
        WithoutCommasAppend(hi + ",", lo);
        WithoutCommasAppend(hi, ",");
        WithoutCommasDigits(hi);
        WithoutCommasDigits(lo);
        assert CountChar(",", ',') == 1;
      }
      assert FormatNumber(n) == hi + "," + lo;
    }
  }

  /** A seven-digit count keeps four digits before its only separator. */
  lemma FormatNumberMillion()
    ensures FormatNumber(1234567) == "1234,567"
  {
    assert 1234567 / 1000 == 1234 && 1234567 % 1000 == 567;
    assert Decimal.DigitChar(2) == '2' && Decimal.DigitChar(3) == '3' && Decimal.DigitChar(4) == '4';
    assert Decimal.NatToString(1) == "1";
    assert Decimal.NatToString(12) == "1" + "2";
    assert Decimal.NatToString(123) == "12" + "3";
    assert Decimal.NatToString(1234) == "123" + "4";
    assert Decimal.IntToString(1234) == "1234";
    assert Decimal.DigitChar(5) == '5' && Decimal.DigitChar(6) == '6' && Decimal.DigitChar(7) == '7';
    assert Decimal.Pad3(567) == "567";
    assert FormatNumber(1234567) == "1234" + "," + "567";
  }

  // ---------------------------------------------------------------------------
  // Durations
  // ---------------------------------------------------------------------------

  /** The units a duration is shown in: seconds; minutes and seconds; or hours and minutes. */
  datatype Span = Secs(seconds: int) | Mins(minutes: int, seconds: int) | Hrs(hours: int, minutes: int)

  /**
   * The units shown for a duration: under a minute, whole seconds truncated toward zero; under an
   * hour, whole minutes and the leftover whole seconds; from an hour on, whole hours and the
   * leftover whole minutes, the seconds dropped.
   */
  function DurationSpan(d: int): (sp: Span)
    ensures d < Minute ==> sp.Secs? && sp.seconds == TruncDiv(d, Second)
    ensures 0 <= d < Minute ==> 0 <= sp.seconds < 60 && sp.seconds * Second <= d < sp.seconds * Second + Second
    ensures Minute <= d < Hour ==>
      && sp.Mins? && 1 <= sp.minutes < 60 && 0 <= sp.seconds < 60
      && sp.minutes * Minute + sp.seconds * Second <= d < sp.minutes * Minute + (sp.seconds + 1) * Second
    ensures d >= Hour ==>
      && sp.Hrs? && sp.hours >= 1 && 0 <= sp.minutes < 60
      && sp.hours * Hour + sp.minutes * Minute <= d < sp.hours * Hour + (sp.minutes + 1) * Minute
  {
    if d < Minute then
      Secs(TruncDiv(d, Second))
    else if d < Hour then
      SplitMinutes(d);
      Mins(d / Minute, (d / Second) % 60)
    else
      SplitHours(d);
      Hrs(d / Hour, (d / Minute) % 60)
  }

  /** The count in the largest unit a span shows. */
  function LeadCount(sp: Span): int {
    match sp
    case Secs(s) => s
    case Mins(m, _) => m
    case Hrs(h, _) => h
  }

  /** The name of the largest unit a span shows, after a space. */
  function LeadUnit(sp: Span): string {
    match sp
    case Secs(_) => " seconds"
    case Mins(_, _) => " minutes"
    case Hrs(_, _) => " hours"
  }

  /** The name of the smaller unit a span shows, after a space. */
  function SmallUnit(sp: Span): string {
    match sp
    case Secs(_) => ""
    case Mins(_, _) => " seconds"
    case Hrs(_, _) => " minutes"
  }

  /** The count in the smaller unit a span shows; a seconds-only span has none. */
  function Remainder(sp: Span): int {
    match sp
    case Secs(_) => 0
    case Mins(_, s) => s
    case Hrs(_, m) => m
  }

  /**
   * The text of a span: the count in the largest unit and that unit's name first, and a second
   * part exactly when the smaller unit's count is not zero.
   */
  function RenderSpan(sp: Span): (r: string)
    ensures var lead := Decimal.IntToString(LeadCount(sp)) + LeadUnit(sp);
      && |lead| <= |r| && r[..|lead|] == lead
      && (|r| == |lead| <==> Remainder(sp) == 0)
  {
    var lead := Decimal.IntToString(LeadCount(sp)) + LeadUnit(sp);
    if Remainder(sp) == 0 then lead
    else
      var r := lead + " " + Decimal.IntToString(Remainder(sp)) + SmallUnit(sp);
      assert r[..|lead|] == lead;
      r
  }

  /**
   * A duration in words, in the largest unit that fits and at most one smaller unit: whole
   * seconds under a minute; whole minutes under an hour; whole hours from an hour on. The
   * smaller unit is the leftover seconds or minutes and is left out when it is zero.
   */
  function FormatDuration(d: int): (s: string)
    ensures 0 <= d < Minute ==> s == Decimal.IntToString(d / Second) + " seconds"
    ensures Minute <= d < Hour ==>
      var lead := Decimal.IntToString(d / Minute) + " minutes";
      |lead| <= |s| && s[..|lead|] == lead && (|s| == |lead| <==> (d / Second) % 60 == 0)
    ensures d >= Hour ==>
      var lead := Decimal.IntToString(d / Hour) + " hours";
      |lead| <= |s| && s[..|lead|] == lead && (|s| == |lead| <==> (d / Minute) % 60 == 0)
  {
    var sp := DurationSpan(d);
    if d < Minute then
      RenderSpan(sp)
    else if d < Hour then
      assert sp == Mins(d / Minute, (d / Second) % 60);
      RenderSpan(sp)
    else
      assert sp == Hrs(d / Hour, (d / Minute) % 60);
      RenderSpan(sp)
  }

  // ---------------------------------------------------------------------------
  // Messages
  // ---------------------------------------------------------------------------

  function Mrkdwn(text: string): TextObject {
    TextObject("mrkdwn", text)
  }

  function Section(fields: seq<TextObject>): Block {
    Block("section", None, fields, [])
  }

  /**
   * The alerting layout: a header, the identity and count section, the rate section, the
   * problem stating the reason, and the time of the alert.
   */
  function AlertingMessage(a: QueueAlert, r: Renderers): (m: Message)
    ensures |m.blocks| == 5 && |m.blocks[1].fields| == 4 && |m.blocks[2].fields| == 4
    ensures m.blocks[1].fields[2].text == "*Messages:*\n" + FormatNumber(a.messagesReady) + " \U{1F4CA}"
    ensures m.blocks[2].fields[3].text == "*Consecutive Stuck:*\n" + Decimal.IntToString(a.consecutiveStuck) + " checks"
    ensures m.blocks[3].text == Some(Mrkdwn("*Problem:* " + a.reason))
  {
    Message(
      "\U{1F6A8} Queue `" + a.queueName + "` is alerting!",
      [ Block("header", Some(TextObject("plain_text", "\U{1F6A8} Queue Alert")), [], []),
        Section([ Mrkdwn("*Queue:*\n`" + a.queueName + "`"),
                  Mrkdwn("*VHost:*\n`" + a.vhost + "`"),
                  Mrkdwn("*Messages:*\n" + FormatNumber(a.messagesReady) + " \U{1F4CA}"),
                  Mrkdwn("*Consumers:*\n" + Decimal.IntToString(a.consumers) + " \U{1F477}") ]),
        Section([ Mrkdwn("*Consume Rate:*\n" + r.rate(a.consumeRate) + " msg/s"),
                  Mrkdwn("*Ack Rate:*\n" + r.rate(a.ackRate) + " msg/s"),
                  Mrkdwn("*Publish Rate:*\n" + r.rate(a.publishRate) + " msg/s"),
                  Mrkdwn("*Consecutive Stuck:*\n" + Decimal.IntToString(a.consecutiveStuck) + " checks") ]),
        Block("section", Some(Mrkdwn("*Problem:* " + a.reason)), [], []),
        Block("context", None, [], [Mrkdwn("\U{1F552} Alerted at: " + r.time(a.timestamp))]) ],
      "")
  }

  /**
   * The recovery layout: a header, the identity section with how long the queue was alerting,
   * two sections of current counts and rates, and the time of the recovery.
   */
  function RecoveryMessage(a: QueueAlert, r: Renderers): (m: Message)
    ensures |m.blocks| == 5 && |m.blocks[1].fields| == 4 && |m.blocks[2].fields| == 4
    ensures m.blocks[1].fields[2].text == "*Was Alerting For:*\n" + FormatDuration(a.stuckDuration) + " \U{23F1}\U{FE0F}"
    ensures m.blocks[2].fields[0].text == "*Current Messages:*\n" + FormatNumber(a.messagesReady)
  {
    Message(
      "\U{2705} Queue `" + a.queueName + "` is no longer alerting!",
      [ Block("header", Some(TextObject("plain_text", "\U{2705} Queue No Longer Alerting")), [], []),
        Section([ Mrkdwn("*Queue:*\n`" + a.queueName + "`"),
                  Mrkdwn("*VHost:*\n`" + a.vhost + "`"),
                  Mrkdwn("*Was Alerting For:*\n" + FormatDuration(a.stuckDuration) + " \U{23F1}\U{FE0F}"),
                  Mrkdwn("*Status:*\n\U{1F7E2} Not Alerting") ]),
        Section([ Mrkdwn("*Current Messages:*\n" + FormatNumber(a.messagesReady)),
                  Mrkdwn("*Consumers:*\n" + Decimal.IntToString(a.consumers)),
                  Mrkdwn("*Consume Rate:*\n" + r.rate(a.consumeRate) + " msg/s"),
                  Mrkdwn("*Ack Rate:*\n" + r.rate(a.ackRate) + " msg/s") ]),
        Section([ Mrkdwn("*Publish Rate:*\n" + r.rate(a.publishRate) + " msg/s"),
                  Mrkdwn("*Status:*\n\U{1F7E2} Not Alerting") ]),
        Block("context", None, [], [Mrkdwn("\U{1F552} No longer alerting at: " + r.time(a.timestamp))]) ],
      "")
  }

  /**
   * The message for an alert: the alerting layout exactly for the "alerting" type, the recovery
   * layout for every other type. Both have five blocks, a header first and a context line last
   * that carries the time.
   */
  function FormatAlert(a: QueueAlert, r: Renderers): (m: Message)
    ensures m.text == if a.alertType == AlertTypeAlerting
      then "\U{1F6A8} Queue `" + a.queueName + "` is alerting!"
      else "\U{2705} Queue `" + a.queueName + "` is no longer alerting!"
    ensures |m.blocks| == 5 && m.blocks[0].kind == "header" && m.blocks[4].kind == "context"
    ensures forall i :: 1 <= i < 4 ==> m.blocks[i].kind == "section"
    ensures |m.blocks[1].fields| == 4 && m.blocks[1].fields[0].text == "*Queue:*\n`" + a.queueName + "`"
    ensures m.blocks[4].elements != [] &&
      var t, ts := m.blocks[4].elements[0].text, r.time(a.timestamp);
      |ts| <= |t| && t[|t| - |ts|..] == ts
    ensures m.channel == ""
  {
    if a.alertType == AlertTypeAlerting then AlertingMessage(a, r) else RecoveryMessage(a, r)
  }

  /** The two layouts never coincide: the header says which kind of notification it is. */
  lemma LayoutsDiffer(a: QueueAlert, b: QueueAlert, r: Renderers)
    requires a.alertType == AlertTypeAlerting && b.alertType != AlertTypeAlerting
    ensures FormatAlert(a, r).blocks[0] != FormatAlert(b, r).blocks[0]
  {
    var ha := FormatAlert(a, r).blocks[0].text.value.text;
    var hb := FormatAlert(b, r).blocks[0].text.value.text;
    assert ha[0] != hb[0];
  }
}
