/**
 * The `monitor` command: how the verbosity count adjusts the configured log level, and how the
 * arguments of a background (daemon) re-execution are rewritten so that the child process does
 * not ask for daemon mode again.
 */
module Cli {
  import opened Wrappers
  import Config
  import Logger

  // ---------------------------------------------------------------------------
  // Verbosity
  // ---------------------------------------------------------------------------

  /** The logging settings after the `-v` count: three or more force debug, exactly two force info. */
  function AdjustLogging(logging: Config.LoggingConfig, verbose: int): (r: Config.LoggingConfig)
    ensures r.filePath == logging.filePath && r.format == logging.format
    ensures verbose >= 3 ==> Logger.ParseLevel(r.level) == Logger.LevelDebug
    ensures verbose == 2 ==> Logger.ParseLevel(r.level) == Logger.LevelInfo
    ensures verbose < 2 ==> r == logging
  {
    if verbose >= 3 then logging.(level := "debug")
    else if verbose == 2 then logging.(level := "info")
    else logging
  }

  /**
   * Two `-v` flags set the level to info whatever was configured, so a configured debug level
   * becomes less verbose.
   */
  lemma TwoFlagsOverrideDebug(logging: Config.LoggingConfig)
    requires logging.level == "debug"
    ensures Logger.ParseLevel(AdjustLogging(logging, 2).level) > Logger.ParseLevel(logging.level)
  {
  }

  // ---------------------------------------------------------------------------
  // The daemon re-execution arguments, as written
  // ---------------------------------------------------------------------------

  /** A short-flag argument, possibly several letters clustered: a dash not followed by a dash. */
  predicate IsShortCluster(arg: string) {
    |arg| > 1 && arg[0] == '-' && arg[1] != '-'
  }

  /** The characters of `s` other than 'd', in order. */
  function WithoutD(s: string): (r: string)
    ensures 'd' !in r && |r| <= |s|
  {
    if s == [] then [] else WithoutD(s[..|s| - 1]) + (if s[|s| - 1] == 'd' then [] else [s[|s| - 1]])
  }

  /** Only the letter 'd' is removed: every other character keeps its number of occurrences. */
  lemma {:induction false} WithoutDCounts(s: string)
    ensures multiset(WithoutD(s)) == multiset(s)['d' := 0]
  {
    if s != [] {
      var init, c := s[..|s| - 1], s[|s| - 1];
      assert s == init + [c];
      WithoutDCounts(init);
    }
  }

  /** A string without 'd' is its own rewriting. */
  lemma {:induction false} WithoutDKeeps(s: string)
    requires 'd' !in s
    ensures WithoutD(s) == s
  {
    if s != [] {
      WithoutDKeeps(s[..|s| - 1]);
    }
  }

  /** What becomes of one argument: dropped (None) or passed on, possibly rewritten. */
  function RewriteArg(arg: string): Option<string> {
    if arg == "--daemon" || arg == "-d" then None
    else if IsShortCluster(arg) && arg[1] == 'd' then
      var rest := WithoutD(arg[1..]);
      if |rest| > 0 then Some("-" + rest) else None
    else Some(arg)
  }

  /** The child's arguments: each argument rewritten, in order, the dropped ones left out. */
  function ChildArgs(args: seq<string>): (out: seq<string>)
    ensures |out| <= |args|
  {
    if args == [] then []
    else ChildArgs(args[..|args| - 1]) + OptionToSeq(RewriteArg(args[|args| - 1]))
  }

  function OptionToSeq(o: Option<string>): (s: seq<string>)
    ensures |s| <= 1
  {
    if o.Some? then [o.value] else []
  }

  /** Builds a cluster's letters without 'd', one character at a time. */
  method RemoveD(s: string) returns (remaining: string)
    ensures remaining == WithoutD(s)
  {
    remaining := "";
    var i := 0;
    while i < |s|
      invariant 0 <= i <= |s|
      invariant remaining == WithoutD(s[..i])
    {
      assert s[..i + 1][..i] == s[..i];
      if s[i] != 'd' {
        remaining := remaining + [s[i]];
      }
      i := i + 1;
    }
    assert s[..i] == s;
  }

  /** Rewrites the daemon's own arguments (without the program name) for the child process. */
  method StripDaemonArgs(argv: seq<string>) returns (args: seq<string>)
    ensures args == ChildArgs(argv)
  {
    args := [];
    var i := 0;
    while i < |argv|
      invariant 0 <= i <= |argv|
      invariant args == ChildArgs(argv[..i])
    {
      assert argv[..i + 1][..i] == argv[..i];
      var arg := argv[i];
      assert ChildArgs(argv[..i + 1]) == args + OptionToSeq(RewriteArg(arg));
      if arg == "--daemon" || arg == "-d" {
        i := i + 1;
        continue;
      }
      if |arg| > 1 && arg[0] == '-' && arg[1] != '-' && arg[1] == 'd' {
        var remaining := RemoveD(arg[1..]);
        if |remaining| > 0 {
          args := args + ["-" + remaining];
        }
        i := i + 1;
        continue;
      }
      args := args + [arg];
      i := i + 1;
    }
    assert argv[..i] == argv;
  }

  /** Rewriting a list rewrites its parts separately, so the surviving arguments keep their order. */
  lemma {:induction false} ChildArgsConcat(a: seq<string>, b: seq<string>)
    ensures ChildArgs(a + b) == ChildArgs(a) + ChildArgs(b)
    decreases |b|
  {
    if b == [] {
      assert a + b == a;
    } else {
      var init := b[..|b| - 1];
      assert (a + b)[..|a + b| - 1] == a + init;
      ChildArgsConcat(a, init);
    }
  }

  /** A single argument becomes at most one argument. */
  lemma ChildArgsSingle(arg: string)
    ensures ChildArgs([arg]) == OptionToSeq(RewriteArg(arg))
  {
    assert [arg][..0] == [];
  }

  /** The standalone daemon flags, in either spelling, are dropped. */
  lemma DaemonFlagsDropped(argv: seq<string>)
    ensures ChildArgs(argv + ["--daemon"]) == ChildArgs(argv)
    ensures ChildArgs(argv + ["-d"]) == ChildArgs(argv)
  {
    ChildArgsConcat(argv, ["--daemon"]);
    ChildArgsSingle("--daemon");
    ChildArgsConcat(argv, ["-d"]);
    ChildArgsSingle("-d");
  }

  /**
   * A cluster led by 'd' loses every 'd': what is left is passed on behind a dash when there is
   * something left, and the argument is dropped otherwise.
   */
  lemma LeadingDCluster(argv: seq<string>, arg: string)
    requires |arg| > 2 && arg[0] == '-' && arg[1] == 'd'
    ensures var rest := WithoutD(arg[1..]);
      ChildArgs(argv + [arg]) == ChildArgs(argv) + if |rest| > 0 then ["-" + rest] else []
  {
    ChildArgsConcat(argv, [arg]);
    ChildArgsSingle(arg);
  }

  /** "-dvvv" becomes "-vvv": the daemon letter goes, the verbosity letters stay. */
  lemma LeadingDKeepsRest()
    ensures RewriteArg("-dvvv") == Some("-vvv")
  {
    assert WithoutD("d") == [] by { assert "d"[..0] == []; }
    assert WithoutD("dv") == "v" by { assert "dv"[..1] == "d"; }
    assert WithoutD("dvv") == "vv" by { assert "dvv"[..2] == "dv"; }
    assert WithoutD("dvvv") == "vvv" by { assert "dvvv"[..3] == "dvv"; }
    assert "-dvvv"[1..] == "dvvv";
    assert "-" + "vvv" == "-vvv";
  }

  /** "-dd" holds nothing but daemon letters and is dropped. */
  lemma LeadingDOnlyDropped()
    ensures RewriteArg("-dd") == None
  {
    assert WithoutD("d") == [] by { assert "d"[..0] == []; }
    assert WithoutD("dd") == [] by { assert "dd"[..1] == "d"; }
    assert "-dd"[1..] == "dd";
  }

  /** Whether the rewrite leaves an argument as it is. */
  predicate Untouched(arg: string) {
    arg != "--daemon" && arg != "-d" && !(IsShortCluster(arg) && arg[1] == 'd')
  }

  /**
   * Arguments that are not the daemon flags and not a cluster led by 'd' pass through
   * unchanged and in order: long options, a lone dash, plain words and clusters such as "-vd".
   */
  lemma {:induction false} OthersPassThrough(argv: seq<string>)
    requires forall k :: 0 <= k < |argv| ==> Untouched(argv[k])
    ensures ChildArgs(argv) == argv
  {
    if argv != [] {
      OthersPassThrough(argv[..|argv| - 1]);
    }
  }

  /** No argument handed to the child is a standalone daemon flag. */
  lemma {:induction false} NoStandaloneDaemonFlag(argv: seq<string>)
    ensures forall k :: 0 <= k < |ChildArgs(argv)| ==> ChildArgs(argv)[k] != "-d" && ChildArgs(argv)[k] != "--daemon"
  {
    if argv != [] {
      var init, arg := argv[..|argv| - 1], argv[|argv| - 1];
      NoStandaloneDaemonFlag(init);
      var r := RewriteArg(arg);
      if r.Some? && r != Some(arg) {
        var rest := WithoutD(arg[1..]);
        assert r.value == "-" + rest && 'd' !in rest && |rest| > 0;
        assert r.value[1] == rest[0];
        assert "-d"[1] == 'd' && "--daemon"[2] == 'd';
        if |r.value| == |"--daemon"| {
          assert r.value[2] == rest[1];
        }
      }
    }
  }

  // ---------------------------------------------------------------------------
  // Which arguments still ask for daemon mode
  // ---------------------------------------------------------------------------

  /**
   * Whether an argument names the daemon flag when parsed: the long flag, with or without
   * a value, or a short cluster that has the letter 'd' anywhere in it.
   */
  predicate SetsDaemon(arg: string) {
    arg == "--daemon"
    || (|arg| >= 9 && arg[..9] == "--daemon=")
    || (IsShortCluster(arg) && 'd' in arg[1..])
  }

  /** A cluster with 'd' after its first letter reaches the child unchanged and still names the daemon flag. */
  lemma TrailingDSurvives()
    ensures ChildArgs(["-vd"]) == ["-vd"]
    ensures SetsDaemon("-vd")
  {
    ChildArgsSingle("-vd");
    assert "-vd"[1..][1] == 'd';
  }

  // ---------------------------------------------------------------------------
  // The daemon re-execution arguments, corrected
  // ---------------------------------------------------------------------------

  /**
   * The rewrite that removes every way of asking for daemon mode: the long flag with or
   * without a value is dropped, and every short cluster loses its 'd' letters.
   */
  function RewriteArgStrict(arg: string): Option<string> {
    if arg == "--daemon" || (|arg| >= 9 && arg[..9] == "--daemon=") then None
    else if IsShortCluster(arg) then
      var rest := WithoutD(arg[1..]);
      if |rest| > 0 then Some("-" + rest) else None
    else Some(arg)
  }

  /** A dash followed by letters other than 'd' does not ask for daemon mode. */
  lemma DashRestNotDaemon(rest: string)
    requires 'd' !in rest && |rest| > 0
    ensures !SetsDaemon("-" + rest)
  {
    var a := "-" + rest;
    assert a[1..] == rest;
    if |a| >= 3 {
      assert a[2] == rest[1] && "--daemon"[2] == 'd';
      if |a| >= 9 {
        assert a[..9][2] == a[2] && "--daemon="[2] == 'd';
      }
    }
  }

  /** Whatever the corrected rewrite passes on does not ask for daemon mode. */
  lemma RewriteStrictNeverDaemon(arg: string)
    ensures RewriteArgStrict(arg).Some? ==> !SetsDaemon(RewriteArgStrict(arg).value)
  {
    if IsShortCluster(arg) && arg != "--daemon" && !(|arg| >= 9 && arg[..9] == "--daemon=") {
      var rest := WithoutD(arg[1..]);
      if |rest| > 0 {
        DashRestNotDaemon(rest);
      }
    }
  }

  function ChildArgsStrict(args: seq<string>): (out: seq<string>)
    ensures |out| <= |args|
  {
    if args == [] then []
    else ChildArgsStrict(args[..|args| - 1]) + OptionToSeq(RewriteArgStrict(args[|args| - 1]))
  }

  /** No argument handed to the child by the corrected rewrite names the daemon flag. */
  lemma {:induction false} StrictChildNeverDaemon(argv: seq<string>)
    ensures forall k :: 0 <= k < |ChildArgsStrict(argv)| ==> !SetsDaemon(ChildArgsStrict(argv)[k])
  {
    if argv != [] {
      StrictChildNeverDaemon(argv[..|argv| - 1]);
      RewriteStrictNeverDaemon(argv[|argv| - 1]);
    }
  }

  /**
   * The corrected rewrite agrees with the original on every argument that does not ask for
   * daemon mode: those pass through unchanged.
   */
  lemma StrictKeepsOthers(arg: string)
    requires !SetsDaemon(arg)
    ensures RewriteArgStrict(arg) == Some(arg)
    ensures RewriteArg(arg) == Some(arg)
  {
    if IsShortCluster(arg) {
      WithoutDKeeps(arg[1..]);
      assert "-" + arg[1..] == arg;
    }
  }

  /** The corrected rewrite hands "-vd" on as "-v". */
  lemma StrictDropsTrailingD()
    ensures ChildArgsStrict(["-vd"]) == ["-v"]
  {
    assert ["-vd"][..0] == [];
    assert WithoutD("v") == "v" by { assert "v"[..0] == []; }
    assert WithoutD("vd") == "v" by { assert "vd"[..1] == "v"; }
    assert "-vd"[1..] == "vd";
    assert "-" + "v" == "-v";
    assert RewriteArgStrict("-vd") == Some("-v");
  }
}
