/** The command-line options read at the start of Engine.__init__:
    `--appname=`, `--prefdir=` and `--loglevel=`. */
module CommandLine {
  import opened Wrappers
  import opened Text

  datatype Flag = AppName | PrefDir | LogLevel

  function Prefix(f: Flag): (p: string)
    ensures |p| > 2 && p[..2] == "--"
  {
    match f
    case AppName => "--appname="
    case PrefDir => "--prefdir="
    case LogLevel => "--loglevel="
  }

  /** No argument begins with two of the prefixes, so the order of the
      if/elif chain never decides which option an argument sets. */
  lemma PrefixesExclusive(arg: string, f: Flag, g: Flag)
    requires StartsWith(arg, Prefix(f)) && StartsWith(arg, Prefix(g))
    ensures f == g
  {
    assert arg[2] == Prefix(f)[2] && arg[2] == Prefix(g)[2];
  }

  /** Each prefix ends in its only `=`, so it cannot overlap itself, and
      `Text.SplitUnique` applies: `arg.split(prefix)` is the only way to cut
      the argument at the prefix into pieces free of it. */
  lemma PrefixUnbordered(f: Flag)
    ensures Unbordered(Prefix(f))
  {
    var p := Prefix(f);
    assert forall k :: 0 <= k < |p| - 1 ==> p[k] != p[|p| - 1];
    EndMarkUnbordered(p);
  }

  /** The option an argument sets, tested in the order of the if/elif chain. */
  function FlagOf(arg: string): (f: Option<Flag>)
    ensures forall g :: f == Some(g) <==> StartsWith(arg, Prefix(g))
  {
    var f :=
      if StartsWith(arg, Prefix(AppName)) then Some(AppName)
      else if StartsWith(arg, Prefix(PrefDir)) then Some(PrefDir)
      else if StartsWith(arg, Prefix(LogLevel)) then Some(LogLevel)
      else None;
    assert forall g :: f.Some? && StartsWith(arg, Prefix(g)) ==> f == Some(g) by {
      forall g | f.Some? && StartsWith(arg, Prefix(g)) ensures f == Some(g) {
        PrefixesExclusive(arg, f.value, g);
      }
    }
    f
  }

  /** `arg.split(prefix)[1]`: what follows the prefix, up to any repeat of it. */
  function Value(arg: string, prefix: string): (v: string)
    requires |prefix| > 0 && StartsWith(arg, prefix)
    ensures StartsWith(arg[|prefix|..], v)
    ensures forall k :: 0 <= k < |v| ==> !OccursAt(arg[|prefix|..], prefix, k)
    ensures v == arg[|prefix|..] || OccursAt(arg[|prefix|..], prefix, |v|)
  {
    SplitAfterPrefix(arg, prefix);
    Split(arg, prefix)[1]
  }

  /** The three settings the options decide. */
  datatype Options = Options(appname: string, prefDir: Option<string>, logLevel: string)

  /** What holds before any argument is read: `pyvtt`, the directory the
      caller passed (None for Python's None) and `INFO`. */
  function Defaults(prefDir: Option<string>): Options {
    Options("pyvtt", prefDir, "INFO")
  }

  /** One pass of the loop body. */
  function Apply(o: Options, arg: string): Options {
    match FlagOf(arg)
    case None => o
    case Some(AppName) => o.(appname := Value(arg, Prefix(AppName)))
    case Some(PrefDir) => o.(prefDir := Some(Value(arg, Prefix(PrefDir))))
    case Some(LogLevel) => o.(logLevel := Value(arg, Prefix(LogLevel)))
  }

  /** The settings after reading every argument, from first to last. */
  function Parsed(argv: seq<string>, prefDir: Option<string>): Options {
    if argv == [] then Defaults(prefDir)
    else Apply(Parsed(argv[..|argv| - 1], prefDir), argv[|argv| - 1])
  }

  /** The setting an option decides, in a form shared by all three. */
  function Setting(o: Options, f: Flag): Option<string> {
    match f
    case AppName => Some(o.appname)
    case PrefDir => o.prefDir
    case LogLevel => Some(o.logLevel)
  }

  /** The argv loop of Engine.__init__. */
  method ParseCommandLine(argv: seq<string>, prefDir: Option<string>)
    returns (appname: string, prefDir': Option<string>, logLevel: string)
    ensures Options(appname, prefDir', logLevel) == Parsed(argv, prefDir)
  {
    appname, prefDir', logLevel := "pyvtt", prefDir, "INFO";
    var i := 0;
    while i < |argv|
      invariant 0 <= i <= |argv|
      invariant Options(appname, prefDir', logLevel) == Parsed(argv[..i], prefDir)
    {
      var arg := argv[i];
      if StartsWith(arg, "--appname=") {
        appname := Split(arg, "--appname=")[1];
      } else if StartsWith(arg, "--prefdir=") {
        prefDir' := Some(Split(arg, "--prefdir=")[1]);
      } else if StartsWith(arg, "--loglevel=") {
        logLevel := Split(arg, "--loglevel=")[1];
      }
      assert argv[..i + 1][..i] == argv[..i];
      i := i + 1;
    }
    assert argv[..i] == argv;
  }

  /** An argument that sets another option, or none, leaves this setting alone. */
  lemma ApplyOther(o: Options, arg: string, f: Flag)
    requires FlagOf(arg) != Some(f)
    ensures Setting(Apply(o, arg), f) == Setting(o, f)
  {
  }

  /** The last argument that sets an option decides its value. */
  lemma {:induction false} LastMatchWins(argv: seq<string>, prefDir: Option<string>, f: Flag, k: nat)
    requires k < |argv| && StartsWith(argv[k], Prefix(f))
    requires forall j :: k < j < |argv| ==> !StartsWith(argv[j], Prefix(f))
    ensures Setting(Parsed(argv, prefDir), f) == Some(Value(argv[k], Prefix(f)))
  {
    var front := argv[..|argv| - 1];
    if k < |argv| - 1 {
      LastMatchWins(front, prefDir, f, k);
      ApplyOther(Parsed(front, prefDir), argv[|argv| - 1], f);
    }
  }

  /** With no argument for an option, its setting stays at the default. */
  lemma {:induction false} UnsetKeepsDefault(argv: seq<string>, prefDir: Option<string>, f: Flag)
    requires forall j :: 0 <= j < |argv| ==> !StartsWith(argv[j], Prefix(f))
    ensures Setting(Parsed(argv, prefDir), f) == Setting(Defaults(prefDir), f)
  {
    if argv != [] {
      var front := argv[..|argv| - 1];
      UnsetKeepsDefault(front, prefDir, f);
      ApplyOther(Parsed(front, prefDir), argv[|argv| - 1], f);
    }
  }

  /** The arguments that set one of the three options, in order. */
  function OptionArgs(argv: seq<string>): (r: seq<string>)
    ensures forall j :: 0 <= j < |r| ==> FlagOf(r[j]).Some?
  {
    if argv == [] then []
    else
      var last := argv[|argv| - 1];
      OptionArgs(argv[..|argv| - 1]) + (if FlagOf(last).Some? then [last] else [])
  }

  /** Arguments that set none of the options do not change the outcome. */
  lemma {:induction false} OnlyOptionArgsMatter(argv: seq<string>, prefDir: Option<string>)
    ensures Parsed(OptionArgs(argv), prefDir) == Parsed(argv, prefDir)
  {
    if argv != [] {
      var front := argv[..|argv| - 1];
      var last := argv[|argv| - 1];
      OnlyOptionArgsMatter(front, prefDir);
      var r := OptionArgs(argv);
      if FlagOf(last).Some? {
        assert r == OptionArgs(front) + [last];
        assert r[..|r| - 1] == OptionArgs(front) && r[|r| - 1] == last;
        assert Parsed(r, prefDir) == Apply(Parsed(OptionArgs(front), prefDir), last);
      } else {
        assert r == OptionArgs(front) + [] == OptionArgs(front);
        assert Parsed(argv, prefDir) == Apply(Parsed(front, prefDir), last) == Parsed(front, prefDir);
      }
    }
  }
}
