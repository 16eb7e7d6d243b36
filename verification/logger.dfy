/**
 * The logger: four ordered severity levels with their names, the threshold below which an
 * entry is dropped, and the one-line text rendering of an entry. The log file and standard
 * output receive the same lines; the model keeps them as one sequence of written lines.
 */
module Logger {
  import opened Wrappers
  import Config

  /** A severity; the four named levels are ordered by their numbers. */
  type Level = int

  const LevelDebug: Level := 0
  const LevelInfo: Level := 1
  const LevelWarn: Level := 2
  const LevelError: Level := 3

  /** The level names, in increasing severity. */
  const LevelNames: seq<string> := ["debug", "info", "warn", "error"]

  /** The level a name stands for; any name other than the four means info. */
  function ParseLevel(s: string): (l: Level)
    ensures LevelDebug <= l <= LevelError
    ensures s !in LevelNames ==> l == LevelInfo
  {
    match s
    case "debug" => LevelDebug
    case "info" => LevelInfo
    case "warn" => LevelWarn
    case "error" => LevelError
    case _ => LevelInfo
  }

  /** The name of a level; a number outside the four levels is shown as info. */
  function LevelToString(l: Level): (s: string)
    ensures s in LevelNames
    ensures !(LevelDebug <= l <= LevelError) ==> s == "info"
  {
    if l == LevelDebug then "debug"
    else if l == LevelInfo then "info"
    else if l == LevelWarn then "warn"
    else if l == LevelError then "error"
    else "info"
  }

  /** The i-th name stands for level i both ways, so the names are ordered like the levels. */
  lemma NamesMatchLevels(i: int)
    requires 0 <= i < |LevelNames|
    ensures ParseLevel(LevelNames[i]) == i && LevelToString(i) == LevelNames[i]
  {
    assert LevelNames[0] == "debug" && LevelNames[1] == "info";
    assert LevelNames[2] == "warn" && LevelNames[3] == "error";
  }

  /** A name of one of the four levels survives parsing and printing back. */
  lemma NameRoundTrip(s: string)
    requires s in LevelNames
    ensures LevelToString(ParseLevel(s)) == s
  {
    var i :| 0 <= i < |LevelNames| && LevelNames[i] == s;
    NamesMatchLevels(i);
  }

  /** One of the four levels survives printing and parsing back. */
  lemma LevelRoundTrip(l: Level)
    requires LevelDebug <= l <= LevelError
    ensures ParseLevel(LevelToString(l)) == l
  {
    NamesMatchLevels(l);
  }

  /** An entry is written when its level is at least the configured one. */
  predicate ShouldLog(threshold: Level, level: Level) {
    level >= threshold
  }

  /** The extra fields of an entry: how many there are and their JSON encoding. */
  datatype Fields = Fields(count: nat, json: string)

  datatype LogEntry = LogEntry(timestamp: string, level: string, message: string, fields: Fields, error: string)

  /** The header of the text rendering: the bracketed time, the level name and the message. */
  function Header(e: LogEntry): string {
    "[" + e.timestamp + "] " + e.level + ": " + e.message
  }

  predicate NoNewline(s: string) {
    forall i :: 0 <= i < |s| ==> s[i] != '\n'
  }

  /** The fields' JSON after a space when there are fields, nothing otherwise. */
  function FieldsPart(f: Fields): string {
    if f.count > 0 then " " + f.json else ""
  }

  /** The error after " error=" when there is one, nothing otherwise. */
  function ErrorPart(err: string): string {
    if err != "" then " error=" + err else ""
  }

  /**
   * The text rendering of an entry: the header, the fields' JSON when there are fields, the
   * error when there is one, and a final newline.
   */
  function FormatText(e: LogEntry): (out: string)
    ensures |out| > |Header(e)| && out[..|Header(e)|] == Header(e)
    ensures out[|out| - 1] == '\n'
    ensures e.fields.count == 0 && e.error == "" ==> out == Header(e) + "\n"
  {
    var body := Header(e) + FieldsPart(e.fields) + ErrorPart(e.error);
    assert body[..|Header(e)|] == Header(e);
    body + "\n"
  }

  /** An entry with an error ends with that error, right before the newline. */
  lemma FormatTextEndsWithError(e: LogEntry)
    requires e.error != ""
    ensures var out, tail := FormatText(e), " error=" + e.error + "\n";
      |out| >= |tail| && out[|out| - |tail|..] == tail
  {
    var pre := Header(e) + FieldsPart(e.fields);
    assert FormatText(e) == pre + (" error=" + e.error + "\n");
  }

  /**
   * An entry with fields carries their JSON right after the header, separated by one space; the
   * error, when there is one, follows the fields.
   */
  lemma FormatTextWithFields(e: LogEntry)
    requires e.fields.count > 0
    ensures e.error == "" ==> FormatText(e) == Header(e) + " " + e.fields.json + "\n"
    ensures e.error != "" ==> FormatText(e) == Header(e) + " " + e.fields.json + " error=" + e.error + "\n"
  {
  }

  lemma NoNewlineConcat(a: string, b: string)
    requires NoNewline(a) && NoNewline(b)
    ensures NoNewline(a + b)
  {
    assert forall i :: 0 <= i < |a + b| ==> (a + b)[i] == if i < |a| then a[i] else b[i - |a|];
  }

  /** When none of its parts holds a newline, the rendering is one line: its only newline is the last character. */
  lemma FormatTextOneLine(e: LogEntry)
    requires NoNewline(Header(e)) && NoNewline(e.fields.json) && NoNewline(e.error)
    ensures var out := FormatText(e); NoNewline(out[..|out| - 1])
  {
    var fp, ep := FieldsPart(e.fields), ErrorPart(e.error);
    if e.fields.count > 0 { NoNewlineConcat(" ", e.fields.json); }
    if e.error != "" { NoNewlineConcat(" error=", e.error); }
    NoNewlineConcat(Header(e), fp);
    NoNewlineConcat(Header(e) + fp, ep);
    var out := FormatText(e);
    assert out[..|out| - 1] == Header(e) + fp + ep;
  }

  /** The line written for an entry: its JSON encoding in the "json" format, its text otherwise. */
  function Render(format: string, e: LogEntry, encode: LogEntry -> string): (line: string)
    ensures |line| > 0 && line[|line| - 1] == '\n'
  {
    if format == "json" then encode(e) + "\n" else FormatText(e)
  }

  /** Every written line is a whole line, ending in a newline. */
  predicate WholeLines(lines: seq<string>) {
    forall i :: 0 <= i < |lines| ==> |lines[i]| > 0 && lines[i][|lines[i]| - 1] == '\n'
  }

  class Logger {
    var level: Level
    var format: string
    var written: seq<string>

    predicate Valid()
      reads this
    {
      LevelDebug <= level <= LevelError && WholeLines(written)
    }

    /** A logger for the configured level name and format; an unknown level name means info. */
    constructor(cfg: Config.LoggingConfig)
      ensures Valid()
      ensures level == ParseLevel(cfg.level) && format == cfg.format && written == []
    {
      level := ParseLevel(cfg.level);
      format := cfg.format;
      written := [];
    }

    /**
     * Writes one entry, stamped with `timestamp`, when `lv` reaches the configured level, and
     * nothing otherwise. A missing error leaves the entry's error empty.
     */
    method Log(lv: Level, message: string, err: Option<string>, fields: Fields, timestamp: string, encode: LogEntry -> string)
      requires Valid()
      modifies this
      ensures Valid()
      ensures level == old(level) && format == old(format)
      ensures !ShouldLog(level, lv) ==> written == old(written)
      ensures ShouldLog(level, lv) ==>
        written == old(written) + [Render(format, LogEntry(timestamp, LevelToString(lv), message, fields, err.GetOr("")), encode)]
    {
      if lv < level {
        return;
      }
      var entry := LogEntry(timestamp, LevelToString(lv), message, fields, "");
      if err.Some? {
        entry := entry.(error := err.value);
      }
      var output := Render(format, entry, encode);
      written := written + [output];
    }
  }
}
