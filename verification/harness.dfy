/**
 * The pytest wrapper (test_file_has_no_pylint_errors.py): one test case per
 * discovered path, passing exactly when the analyzer reported nothing at all.
 */
module Harness {
  import opened Wrappers
  import opened Findings
  import opened Tally

  /** How one test case ends: the assertion of line 26 holds, fails with the list length, or decoding raised. */
  datatype Verdict = Pass | Fail(found: nat) | Broken

  datatype TestCase = TestCase(path: string, verdict: Verdict)

  /** Line 26 on the list of line 24: every record counts, whatever its type. */
  function Judge(r: AnalyzerResult): (v: Verdict)
    ensures v == Pass <==> |FindingsOf(r)| == 0
    ensures v.Fail? ==> v.found == |FindingsOf(r)| > 0
    ensures v != Broken
  {
    var found := FindingsOf(r);
    if |found| == 0 then Pass else Fail(|found|)
  }

  /** Lines 16-26 for one file, from its captured stdout. */
  function TestOutcome(out: seq<byte>, decode: seq<byte> -> Option<seq<Finding>>): (v: Verdict)
    ensures IsBlank(out) ==> v == Pass
    ensures v == Broken <==> Classify(out, decode).None?
    ensures !IsBlank(out) && decode(out).Some? ==>
      (v == Pass <==> |decode(out).value| == 0)
  {
    match Classify(out, decode)
    case None => Broken
    case Some(r) => Judge(r)
  }

  /** Lines 10-12: the parametrised cases, one per discovered path and in that order. */
  function TestRun(paths: seq<string>, stdoutOf: string -> seq<byte>, decode: seq<byte> -> Option<seq<Finding>>): (cases: seq<TestCase>)
    ensures |cases| == |paths|
    ensures forall i :: 0 <= i < |paths| ==> cases[i].path == paths[i]
    ensures forall i :: 0 <= i < |paths| ==> cases[i].verdict == TestOutcome(stdoutOf(paths[i]), decode)
  {
    seq(|paths|, i requires 0 <= i < |paths| => TestCase(paths[i], TestOutcome(stdoutOf(paths[i]), decode)))
  }

  /** A case's verdict depends only on its own file's output: the other files cannot change it. */
  lemma CasesAreIndependent(paths: seq<string>, a: string -> seq<byte>, b: string -> seq<byte>,
                            decode: seq<byte> -> Option<seq<Finding>>, i: nat)
    requires i < |paths|
    requires a(paths[i]) == b(paths[i])
    ensures TestRun(paths, a, decode)[i] == TestRun(paths, b, decode)[i]
  {
  }

  /** A passing file shows all-zero rows in the report. */
  lemma PassMeansZeroTally(r: AnalyzerResult)
    requires Judge(r) == Pass
    ensures FileTally(r) == Zero
  {
    FileTallyCountsExactType(r, Error);
    FileTallyCountsExactType(r, Warning);
    FileTallyCountsExactType(r, Refactor);
    FileTallyCountsExactType(r, Convention);
  }

  /** The harness counts at least every record the report counts. */
  lemma FailureCountsEverything(r: AnalyzerResult)
    ensures Judge(r).Fail? ==> FileTally(r).Sum() <= Judge(r).found
    ensures FileTally(r).Sum() > 0 ==> Judge(r).Fail?
  {
    if r.Parsed? {
      TallySumIsKnownCount(r.findings);
    }
  }

  /**
   * The converse fails: a single record of an uncounted type (pylint's
   * "fatal" or "info") fails the test while the report's rows are all zero.
   */
  lemma UncountedRecordFailsHarness(f: Finding)
    requires !IsCounted(f.kind)
    ensures Judge(Parsed([f])) == Fail(1)
    ensures FileTally(Parsed([f])) == Zero
  {
    UncountedRecordChangesNothing([], f, []);
    assert [] + [f] + [] == [f];
  }

  /** Every case passes exactly when the whole run has no records at all. */
  lemma {:induction false} AllPassIffNoFindings(runs: seq<FileAnalysis>)
    ensures (forall i :: 0 <= i < |runs| ==> Judge(runs[i].result) == Pass) <==> |AllFindings(runs)| == 0
    decreases |runs|
  {
    if |runs| > 0 {
      AllPassIffNoFindings(runs[1..]);
      if forall i :: 0 <= i < |runs| ==> Judge(runs[i].result) == Pass {
        assert forall i :: 0 <= i < |runs[1..]| ==> Judge(runs[1..][i].result) == Pass by {
          forall i | 0 <= i < |runs[1..]| ensures Judge(runs[1..][i].result) == Pass {
            assert runs[1..][i] == runs[i + 1];
          }
        }
        assert Judge(runs[0].result) == Pass;
      }
      if |AllFindings(runs)| == 0 {
        forall i | 0 <= i < |runs| ensures Judge(runs[i].result) == Pass {
          if i > 0 { assert runs[i] == runs[1..][i - 1]; }
        }
      }
    }
  }
}
