/**
 * What the analyzer reports about one file (pylint_md.py:29-38 and
 * test_file_has_no_pylint_errors.py:16-24). Running pylint and decoding its
 * JSON are outside the model: the captured stdout and the decoder are inputs.
 */
module Findings {
  import opened Wrappers

  type byte = x: int | 0 <= x < 256

  /** One JSON record of `pylint -f json`; `kind` is the record's free-form `type` field. */
  datatype Finding = Finding(kind: string, line: int, message: string, messageId: string, moduleName: string)

  /**
   * The analyzer result for one file: `NoOutput` when stdout was empty or
   * whitespace-only, `Parsed` with the decoded records otherwise (possibly none).
   */
  datatype AnalyzerResult = NoOutput | Parsed(findings: seq<Finding>)

  /** One discovered path together with what the analyzer made of it. */
  datatype FileAnalysis = FileAnalysis(path: string, result: AnalyzerResult)

  /** The records of a result; blank output has none. */
  function FindingsOf(r: AnalyzerResult): seq<Finding> {
    match r
    case NoOutput => []
    case Parsed(fs) => fs
  }

  /** Every record of a run, file by file in discovery order, each file's in analyzer order. */
  function AllFindings(runs: seq<FileAnalysis>): seq<Finding>
    decreases |runs|
  {
    if |runs| == 0 then [] else FindingsOf(runs[0].result) + AllFindings(runs[1..])
  }

  lemma {:induction false} AllFindingsAppend(a: seq<FileAnalysis>, b: seq<FileAnalysis>)
    ensures AllFindings(a + b) == AllFindings(a) + AllFindings(b)
    decreases |a|
  {
    if |a| == 0 {
      assert a + b == b;
    } else {
      assert (a + b)[1..] == a[1..] + b;
      AllFindingsAppend(a[1..], b);
    }
  }

  /** Peeling the last file off a run, as the file loop's totals do. */
  lemma AllFindingsSnoc(runs: seq<FileAnalysis>)
    requires |runs| > 0
    ensures AllFindings(runs) == AllFindings(runs[..|runs| - 1]) + FindingsOf(runs[|runs| - 1].result)
  {
    var init, last := runs[..|runs| - 1], runs[|runs| - 1];
    assert runs == init + [last];
    AllFindingsAppend(init, [last]);
    assert AllFindings([last]) == FindingsOf(last.result) + AllFindings([]);
  }

  // ---------------------------------------------------------------------
  // Classifying captured stdout: `out and out.strip()`
  // ---------------------------------------------------------------------

  /** The bytes Python's `bytes.strip()` removes by default. */
  predicate IsAsciiWhitespace(b: byte) {
    b == 32 || 9 <= b <= 13
  }

  predicate IsBlank(out: seq<byte>) {
    forall i :: 0 <= i < |out| ==> IsAsciiWhitespace(out[i])
  }

  function TrimLeft(s: seq<byte>): seq<byte>
    decreases |s|
  {
    if |s| > 0 && IsAsciiWhitespace(s[0]) then TrimLeft(s[1..]) else s
  }

  function TrimRight(s: seq<byte>): seq<byte>
    decreases |s|
  {
    if |s| > 0 && IsAsciiWhitespace(s[|s| - 1]) then TrimRight(s[..|s| - 1]) else s
  }

  /** `bytes.strip()`. */
  function Strip(s: seq<byte>): seq<byte> {
    TrimRight(TrimLeft(s))
  }

  lemma {:induction false} TrimLeftEmptyIffBlank(s: seq<byte>)
    ensures TrimLeft(s) == [] <==> IsBlank(s)
    ensures TrimLeft(s) != [] ==> !IsAsciiWhitespace(TrimLeft(s)[0])
    decreases |s|
  {
    if |s| > 0 && IsAsciiWhitespace(s[0]) {
      TrimLeftEmptyIffBlank(s[1..]);
      if IsBlank(s[1..]) {
        forall i | 0 <= i < |s| ensures IsAsciiWhitespace(s[i]) {
          if i > 0 { assert s[i] == s[1..][i - 1]; }
        }
      }
    }
  }

  lemma {:induction false} TrimRightKeepsNonBlankStart(s: seq<byte>)
    requires |s| > 0 && !IsAsciiWhitespace(s[0])
    ensures |TrimRight(s)| > 0
    decreases |s|
  {
    if IsAsciiWhitespace(s[|s| - 1]) {
      TrimRightKeepsNonBlankStart(s[..|s| - 1]);
    }
  }

  /** Stripping leaves nothing exactly when every byte is whitespace. */
  lemma StripEmptyIffBlank(s: seq<byte>)
    ensures |Strip(s)| == 0 <==> IsBlank(s)
  {
    TrimLeftEmptyIffBlank(s);
    if TrimLeft(s) != [] {
      TrimRightKeepsNonBlankStart(TrimLeft(s));
    }
  }

  /**
   * pylint_md.py:36-37: blank stdout is `NoOutput`; anything else goes to the
   * JSON decoder, whose failure (`None`) is an exception that ends the run.
   */
  function Classify(out: seq<byte>, decode: seq<byte> -> Option<seq<Finding>>): (r: Option<AnalyzerResult>)
    ensures r == Some(NoOutput) <==> IsBlank(out)
    ensures !IsBlank(out) ==> (r.Some? <==> decode(out).Some?)
    ensures r.Some? && r.value.Parsed? ==> decode(out) == Some(r.value.findings)
  {
    StripEmptyIffBlank(out);
    if |out| > 0 && |Strip(out)| > 0 then
      match decode(out)
      case Some(fs) => Some(Parsed(fs))
      case None => None
    else
      Some(NoOutput)
  }
}
