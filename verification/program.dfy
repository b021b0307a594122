/**
 * The report-generating entry point end to end (pylint_md.py:10-22, 87,
 * 97-122), with discovery, the analyzer process and the JSON decoder as
 * parameters. `discover` stands for both `glob.glob` calls, which are assumed
 * to return the same list.
 */
module Program {
  import opened Wrappers
  import opened Findings
  import opened Markdown
  import opened Export
  import opened Cli

  /** What a run leaves behind. */
  datatype Effect =
    | Exited(status: nat)              // usage error or `-h`
    | NothingWritten                   // an option was missing
    | Aborted                          // `json.loads` raised for some file
    | Written(path: string, text: string)

  /** The file loop's analyzer calls in discovery order; one undecodable output ends the run. */
  function AnalyzeAll(paths: seq<string>, stdoutOf: string -> seq<byte>, decode: seq<byte> -> Option<seq<Finding>>): (r: Option<seq<FileAnalysis>>)
    ensures r.Some? ==> |r.value| == |paths|
    ensures r.Some? ==> forall i :: 0 <= i < |paths| ==>
      r.value[i].path == paths[i] && Classify(stdoutOf(paths[i]), decode) == Some(r.value[i].result)
    ensures r.None? <==> exists i :: 0 <= i < |paths| && Classify(stdoutOf(paths[i]), decode).None?
    decreases |paths|
  {
    if |paths| == 0 then Some([])
    else
      match Classify(stdoutOf(paths[0]), decode)
      case None => None
      case Some(first) =>
        match AnalyzeAll(paths[1..], stdoutOf, decode)
        case None => None
        case Some(rest) => Some([FileAnalysis(paths[0], first)] + rest)
  }

  /**
   * One invocation of the script. A getopt error and `-h` exit with their
   * status; a missing option writes nothing. Otherwise an output `json.loads`
   * cannot decode aborts the run before the file is opened, and a report is written
   * exactly when every discovered file's output could be decoded; it goes to
   * the `-o` path and holds the serialised report over the discovered files,
   * in order.
   */
  function Run(g: Getopt, discover: string -> seq<string>, stdoutOf: string -> seq<byte>,
               decode: seq<byte> -> Option<seq<Finding>>): (e: Effect)
    ensures Dispatch(g).UsageError? || Dispatch(g).Help? ==> e == Exited(ExitStatus(Dispatch(g)))
    ensures Dispatch(g).NoRun? ==> e == NothingWritten
    ensures e == Aborted <==>
      && Dispatch(g).Convert?
      && exists i :: 0 <= i < |discover(Dispatch(g).root)| &&
           Classify(stdoutOf(discover(Dispatch(g).root)[i]), decode).None?
    ensures e.Written? <==>
      && Dispatch(g).Convert?
      && forall i :: 0 <= i < |discover(Dispatch(g).root)| ==>
           Classify(stdoutOf(discover(Dispatch(g).root)[i]), decode).Some?
    ensures e.Written? ==>
      var root := Dispatch(g).root;
      var runs := AnalyzeAll(discover(root), stdoutOf, decode).value;
      && e.path == Dispatch(g).reportPath
      && e.text == Serialize(Report(root, runs))
      && |runs| == |discover(root)|
  {
    match Dispatch(g)
    case UsageError => Exited(2)
    case Help => Exited(0)
    case NoRun(_, _) => NothingWritten
    case Convert(root, reportPath) =>
      match AnalyzeAll(discover(root), stdoutOf, decode)
      case None => Aborted
      case Some(runs) => Written(reportPath, Serialize(Report(root, runs)))
  }
}
