/**
 * `main` (pylint_md.py:97-119) after `getopt` has run: the loop over the
 * parsed `(opt, arg)` pairs and the guard that decides whether a report is
 * built. Printing and the exit itself are not modelled; the exit status is.
 */
module Cli {
  import opened Wrappers

  /** One `(opt, arg)` pair as `getopt` returns it; `arg` is empty for `-h`. */
  datatype Opt = Opt(name: string, arg: string)

  /** What `getopt.getopt` produced: an error, or the options (positional arguments are unused). */
  datatype Getopt = GetoptError | Options(opts: seq<Opt>)

  datatype Action =
    | UsageError                                                   // lines 104-106
    | Help                                                         // lines 108-110
    | NoRun(location: Option<string>, outputFile: Option<string>)  // guard at line 118 fails
    | Convert(root: string, reportPath: string)                    // line 119

  /** The process exit status each outcome ends with (a completed run returns normally). */
  function ExitStatus(a: Action): nat {
    if a.UsageError? then 2 else 0
  }

  /** The names the branch tests compare against (lines 108, 111, 113). */
  const HelpFlag: string := "-h"
  const LocationFlags: seq<string> := ["-l", "--llocation"]
  const OutputFlags: seq<string> := ["-o", "--oooutput_file"]

  /** The long forms registered with getopt at line 103. */
  const RegisteredLocationLong: string := "--rlocation"
  const RegisteredOutputLong: string := "--ooutput_file"

  predicate Handled(name: string) {
    name == HelpFlag || name in LocationFlags || name in OutputFlags
  }

  datatype Scan = Stopped | Scanned(location: Option<string>, outputFile: Option<string>)

  /**
   * The `for opt, arg in opts` loop from a given state. It stops exactly when
   * some option is `-h`; otherwise a slot no option names keeps its value.
   */
  function ScanOptions(opts: seq<Opt>, location: Option<string>, outputFile: Option<string>): (s: Scan)
    ensures s.Stopped? <==> Mentions(opts, [HelpFlag])
    ensures s.Scanned? && !Mentions(opts, LocationFlags) ==> s.location == location
    ensures s.Scanned? && !Mentions(opts, OutputFlags) ==> s.outputFile == outputFile
    decreases |opts|
  {
    if |opts| == 0 then Scanned(location, outputFile)
    else
      MentionsCons(opts, [HelpFlag]);
      MentionsCons(opts, LocationFlags);
      MentionsCons(opts, OutputFlags);
      var o := opts[0];
      if o.name == HelpFlag then Stopped
      else if o.name in LocationFlags then ScanOptions(opts[1..], Some(o.arg), outputFile)
      else if o.name in OutputFlags then ScanOptions(opts[1..], location, Some(o.arg))
      else ScanOptions(opts[1..], location, outputFile)
  }

  /**
   * The outcome of `main` after getopt: a usage error exactly on a getopt
   * error; help whenever `-h` was given; otherwise a conversion exactly when
   * both `-l` and `-o` were given, with the argument of the last of each;
   * otherwise nothing runs, and each slot is set exactly when its option came.
   */
  function Dispatch(g: Getopt): (a: Action)
    ensures a.UsageError? <==> g.GetoptError?
    ensures g.Options? ==> (a == Help <==> Mentions(g.opts, [HelpFlag]))
    ensures g.Options? ==> (a.Convert? <==>
      !Mentions(g.opts, [HelpFlag]) && Mentions(g.opts, LocationFlags) && Mentions(g.opts, OutputFlags))
    ensures g.Options? && a.Convert? ==>
      LastValue(g.opts, LocationFlags, a.root) && LastValue(g.opts, OutputFlags, a.reportPath)
    ensures g.Options? && a.NoRun? ==>
      && (a.location.Some? <==> Mentions(g.opts, LocationFlags))
      && (a.outputFile.Some? <==> Mentions(g.opts, OutputFlags))
  {
    match g
    case GetoptError => UsageError
    case Options(opts) =>
      match ScanOptions(opts, None, None)
      case Stopped => Help
      case Scanned(location, outputFile) =>
        ScanLocation(opts, None, None);
        ScanOutput(opts, None, None);
        if location.Some? && outputFile.Some? then Convert(location.value, outputFile.value)
        else NoRun(location, outputFile)
  }

  // ---------------------------------------------------------------------
  // Reference description of the loop's outcome
  // ---------------------------------------------------------------------

  /** Some option carries one of `names`. */
  predicate Mentions(opts: seq<Opt>, names: seq<string>) {
    exists i :: 0 <= i < |opts| && opts[i].name in names
  }

  /** `v` is the argument of the last option that carries one of `names`. */
  predicate LastValue(opts: seq<Opt>, names: seq<string>, v: string) {
    exists i :: 0 <= i < |opts| && opts[i].name in names && opts[i].arg == v
      && forall j :: i < j < |opts| ==> opts[j].name !in names
  }

  lemma MentionsCons(opts: seq<Opt>, names: seq<string>)
    requires |opts| > 0
    ensures Mentions(opts, names) <==> opts[0].name in names || Mentions(opts[1..], names)
  {
    if Mentions(opts[1..], names) {
      var i :| 0 <= i < |opts[1..]| && opts[1..][i].name in names;
      assert opts[i + 1] == opts[1..][i];
    }
    if Mentions(opts, names) && opts[0].name !in names {
      var i :| 0 <= i < |opts| && opts[i].name in names;
      assert opts[1..][i - 1] == opts[i];
    }
  }

  lemma LastValueCons(opts: seq<Opt>, names: seq<string>, v: string)
    requires |opts| > 0
    requires if Mentions(opts[1..], names) then LastValue(opts[1..], names, v)
             else opts[0].name in names && opts[0].arg == v
    ensures LastValue(opts, names, v)
  {
    var rest := opts[1..];
    if Mentions(rest, names) {
      var i :| 0 <= i < |rest| && rest[i].name in names && rest[i].arg == v
        && forall j :: i < j < |rest| ==> rest[j].name !in names;
      assert opts[i + 1] == rest[i];
      forall j | i + 1 < j < |opts| ensures opts[j].name !in names {
        assert opts[j] == rest[j - 1];
      }
    } else {
      forall j | 0 < j < |opts| ensures opts[j].name !in names {
        assert opts[j] == rest[j - 1];
      }
    }
  }

  /** Once some `-l` came, the location slot holds the argument of the last one. */
  lemma {:induction false} ScanLocation(opts: seq<Opt>, location: Option<string>, outputFile: Option<string>)
    requires ScanOptions(opts, location, outputFile).Scanned?
    ensures var s := ScanOptions(opts, location, outputFile);
      Mentions(opts, LocationFlags) ==> s.location.Some? && LastValue(opts, LocationFlags, s.location.value)
    decreases |opts|
  {
    if |opts| > 0 {
      MentionsCons(opts, LocationFlags);
      var o := opts[0];
      var l := if o.name in LocationFlags then Some(o.arg) else location;
      var f := if o.name !in LocationFlags && o.name in OutputFlags then Some(o.arg) else outputFile;
      ScanLocation(opts[1..], l, f);
      var s := ScanOptions(opts, location, outputFile);
      if Mentions(opts, LocationFlags) {
        LastValueCons(opts, LocationFlags, s.location.value);
      }
    }
  }

  /** Likewise for `-o` and the output slot. */
  lemma {:induction false} ScanOutput(opts: seq<Opt>, location: Option<string>, outputFile: Option<string>)
    requires ScanOptions(opts, location, outputFile).Scanned?
    ensures var s := ScanOptions(opts, location, outputFile);
      Mentions(opts, OutputFlags) ==> s.outputFile.Some? && LastValue(opts, OutputFlags, s.outputFile.value)
    decreases |opts|
  {
    if |opts| > 0 {
      MentionsCons(opts, OutputFlags);
      var o := opts[0];
      var l := if o.name in LocationFlags then Some(o.arg) else location;
      var f := if o.name !in LocationFlags && o.name in OutputFlags then Some(o.arg) else outputFile;
      assert o.name in LocationFlags ==> o.name !in OutputFlags;
      ScanOutput(opts[1..], l, f);
      var s := ScanOptions(opts, location, outputFile);
      if Mentions(opts, OutputFlags) {
        LastValueCons(opts, OutputFlags, s.outputFile.value);
      }
    }
  }

  lemma {:induction false} ScanSkipsUnhandled(before: seq<Opt>, o: Opt, after: seq<Opt>, location: Option<string>, outputFile: Option<string>)
    requires !Handled(o.name)
    ensures ScanOptions(before + [o] + after, location, outputFile) == ScanOptions(before + after, location, outputFile)
    decreases |before|
  {
    if |before| == 0 {
      assert before + [o] + after == [o] + after;
      assert ([o] + after)[1..] == after;
      assert before + after == after;
    } else {
      var b := before[0];
      assert (before + [o] + after)[0] == b && (before + after)[0] == b;
      assert (before + [o] + after)[1..] == before[1..] + [o] + after;
      assert (before + after)[1..] == before[1..] + after;
      var l := if b.name in LocationFlags then Some(b.arg) else location;
      var f := if b.name !in LocationFlags && b.name in OutputFlags then Some(b.arg) else outputFile;
      if b.name != HelpFlag {
        ScanSkipsUnhandled(before[1..], o, after, l, f);
      }
    }
  }

  /** An option that no branch tests for changes nothing, wherever it appears. */
  lemma UnhandledOptionIgnored(before: seq<Opt>, o: Opt, after: seq<Opt>)
    requires !Handled(o.name)
    ensures Dispatch(Options(before + [o] + after)) == Dispatch(Options(before + after))
  {
    ScanSkipsUnhandled(before, o, after, None, None);
  }

  /**
   * The long forms registered with getopt never match a branch test, so
   * `--rlocation` and `--ooutput_file` are ignored: given only those, nothing runs.
   */
  lemma RegisteredLongFormsIgnored(before: seq<Opt>, arg: string, after: seq<Opt>)
    ensures Dispatch(Options(before + [Opt(RegisteredLocationLong, arg)] + after)) == Dispatch(Options(before + after))
    ensures Dispatch(Options(before + [Opt(RegisteredOutputLong, arg)] + after)) == Dispatch(Options(before + after))
    ensures Dispatch(Options([Opt(RegisteredLocationLong, arg), Opt(RegisteredOutputLong, arg)])) == NoRun(None, None)
  {
    assert !Handled(RegisteredLocationLong) && !Handled(RegisteredOutputLong);
    UnhandledOptionIgnored(before, Opt(RegisteredLocationLong, arg), after);
    UnhandledOptionIgnored(before, Opt(RegisteredOutputLong, arg), after);
    UnhandledOptionIgnored([], Opt(RegisteredLocationLong, arg), [Opt(RegisteredOutputLong, arg)]);
    UnhandledOptionIgnored([], Opt(RegisteredOutputLong, arg), []);
    assert [] + [Opt(RegisteredLocationLong, arg)] + [Opt(RegisteredOutputLong, arg)]
      == [Opt(RegisteredLocationLong, arg), Opt(RegisteredOutputLong, arg)];
    assert [] + [Opt(RegisteredOutputLong, arg)] + [] == [Opt(RegisteredOutputLong, arg)];
  }

  /** A later `-l` or `-o` overwrites an earlier one. */
  lemma LaterOptionWins(opts: seq<Opt>, location: string, outputFile: string)
    requires !Mentions(opts, [HelpFlag])
    ensures Dispatch(Options(opts + [Opt("-l", location), Opt("-o", outputFile)])) == Convert(location, outputFile)
  {
    var all := opts + [Opt("-l", location), Opt("-o", outputFile)];
    assert all[|opts|] == Opt("-l", location) && all[|opts| + 1] == Opt("-o", outputFile);
    assert !Mentions(all, [HelpFlag]) by {
      forall i | 0 <= i < |all| ensures all[i].name !in [HelpFlag] {
        if i < |opts| { assert all[i] == opts[i]; }
      }
    }
    var a := Dispatch(Options(all));
    var i :| 0 <= i < |all| && all[i].name in LocationFlags && all[i].arg == a.root
      && forall j :: i < j < |all| ==> all[j].name !in LocationFlags;
    assert i == |opts|;
    var k :| 0 <= k < |all| && all[k].name in OutputFlags && all[k].arg == a.reportPath
      && forall j :: k < j < |all| ==> all[j].name !in OutputFlags;
    assert k == |opts| + 1;
  }

  /** `-h` ends the loop before the guard, whatever came before it. */
  lemma HelpStopsEverything(before: seq<Opt>, after: seq<Opt>)
    ensures Dispatch(Options(before + [Opt(HelpFlag, "")] + after)) == Help
    ensures ExitStatus(Help) == 0 && ExitStatus(Dispatch(GetoptError)) == 2
  {
    var all := before + [Opt(HelpFlag, "")] + after;
    assert all[|before|].name in [HelpFlag];
  }
}
