/**
 * The four categories the report counts and the counting itself
 * (pylint_md.py:13, 26, 38, 44-47, 52-55): a per-file `Counter` over the
 * records' `type` field, and run-wide totals accumulated file by file.
 */
module Tally {
  import opened Findings

  datatype Category = Error | Warning | Refactor | Convention

  /** The exact `type` string a record must carry to be counted under a category. */
  function TypeName(c: Category): string {
    match c
    case Error => "error"
    case Warning => "warning"
    case Refactor => "refactor"
    case Convention => "convention"
  }

  /** The row a category occupies in both tables (after the files-processed row in the summary). */
  function Position(c: Category): (p: nat)
    ensures p < 4
  {
    match c
    case Error => 0
    case Warning => 1
    case Refactor => 2
    case Convention => 3
  }

  /** True of the `type` strings that some category counts; pylint also emits e.g. "fatal" and "info". */
  predicate IsCounted(kind: string) {
    kind == "error" || kind == "warning" || kind == "refactor" || kind == "convention"
  }

  datatype Tally = Tally(error: nat, warning: nat, refactor: nat, convention: nat) {

    function Get(c: Category): nat {
      match c
      case Error => error
      case Warning => warning
      case Refactor => refactor
      case Convention => convention
    }

    /** Element-wise addition, as lines 52-55 add a file's counts into the totals. */
    function Plus(t: Tally): (r: Tally)
      ensures forall c: Category :: r.Get(c) == Get(c) + t.Get(c)
    {
      Tally(error + t.error, warning + t.warning, refactor + t.refactor, convention + t.convention)
    }

    function Sum(): nat {
      error + warning + refactor + convention
    }
  }

  const Zero: Tally := Tally(0, 0, 0, 0)

  /** Two tallies that agree on every category are the same tally. */
  lemma SameCounts(a: Tally, b: Tally)
    requires forall c: Category :: a.Get(c) == b.Get(c)
    ensures a == b
  {
    assert a.Get(Error) == b.Get(Error) && a.Get(Warning) == b.Get(Warning);
    assert a.Get(Refactor) == b.Get(Refactor) && a.Get(Convention) == b.Get(Convention);
  }

  /** `Counter(...)[kind]`: how many records have exactly this `type`. */
  function Count(fs: seq<Finding>, kind: string): (n: nat)
    ensures n <= |fs|
    decreases |fs|
  {
    if |fs| == 0 then 0 else (if fs[0].kind == kind then 1 else 0) + Count(fs[1..], kind)
  }

  /** The `type` fields in record order: the sequence `Counter` is built from. */
  function Kinds(fs: seq<Finding>): (ks: seq<string>)
    ensures |ks| == |fs|
    ensures forall i :: 0 <= i < |fs| ==> ks[i] == fs[i].kind
  {
    seq(|fs|, i requires 0 <= i < |fs| => fs[i].kind)
  }

  /** The records whose type some category counts, in order. */
  function Known(fs: seq<Finding>): (ks: seq<Finding>)
    ensures |ks| <= |fs|
    ensures forall i :: 0 <= i < |ks| ==> IsCounted(ks[i].kind)
    decreases |fs|
  {
    if |fs| == 0 then []
    else if IsCounted(fs[0].kind) then [fs[0]] + Known(fs[1..])
    else Known(fs[1..])
  }

  /**
   * The counts of one file (lines 26 and 36-38): each category holds the
   * multiplicity of its exact type name among the records' types, and blank
   * output counts nothing.
   */
  function FileTally(r: AnalyzerResult): (t: Tally)
    ensures forall c: Category :: t.Get(c) == multiset(Kinds(FindingsOf(r)))[TypeName(c)]
    ensures r.NoOutput? ==> t == Zero
  {
    match r
    case NoOutput => Zero
    case Parsed(fs) =>
      CountIsMultiplicity(fs, "error");
      CountIsMultiplicity(fs, "warning");
      CountIsMultiplicity(fs, "refactor");
      CountIsMultiplicity(fs, "convention");
      Tally(Count(fs, "error"), Count(fs, "warning"), Count(fs, "refactor"), Count(fs, "convention"))
  }

  /** The running totals after the loop has seen `runs`, in order (lines 13, 22, 52-55). */
  function RunTotals(runs: seq<FileAnalysis>): Tally
    decreases |runs|
  {
    if |runs| == 0 then Zero
    else RunTotals(runs[..|runs| - 1]).Plus(FileTally(runs[|runs| - 1].result))
  }

  /** The sum, over files, of one category's per-file count. */
  function FileSum(runs: seq<FileAnalysis>, c: Category): nat
    decreases |runs|
  {
    if |runs| == 0 then 0 else FileTally(runs[0].result).Get(c) + FileSum(runs[1..], c)
  }

  // ---------------------------------------------------------------------
  // Counting facts
  // ---------------------------------------------------------------------

  lemma {:induction false} CountAppend(a: seq<Finding>, b: seq<Finding>, kind: string)
    ensures Count(a + b, kind) == Count(a, kind) + Count(b, kind)
    decreases |a|
  {
    if |a| == 0 {
      assert a + b == b;
    } else {
      assert (a + b)[1..] == a[1..] + b;
      CountAppend(a[1..], b, kind);
    }
  }

  /** A `Counter` is a multiset: the count of a type is its multiplicity among the records' types. */
  lemma {:induction false} CountIsMultiplicity(fs: seq<Finding>, kind: string)
    ensures Count(fs, kind) == multiset(Kinds(fs))[kind]
    decreases |fs|
  {
    if |fs| > 0 {
      assert Kinds(fs) == [fs[0].kind] + Kinds(fs[1..]);
      CountIsMultiplicity(fs[1..], kind);
    }
  }

  /** A file's row for a category counts exactly the records typed with that category's name. */
  lemma FileTallyCountsExactType(r: AnalyzerResult, c: Category)
    ensures FileTally(r).Get(c) == Count(FindingsOf(r), TypeName(c))
    ensures FileTally(r).Get(c) == multiset(Kinds(FindingsOf(r)))[TypeName(c)]
  {
    CountIsMultiplicity(FindingsOf(r), TypeName(c));
  }

  lemma {:induction false} CountIgnoresUncounted(fs: seq<Finding>, c: Category)
    ensures Count(fs, TypeName(c)) == Count(Known(fs), TypeName(c))
    decreases |fs|
  {
    if |fs| > 0 {
      CountIgnoresUncounted(fs[1..], c);
      if IsCounted(fs[0].kind) {
        CountAppend([fs[0]], Known(fs[1..]), TypeName(c));
      }
    }
  }

  /** Records with any other type contribute nothing: dropping them leaves every row unchanged. */
  lemma UncountedTypesIgnored(fs: seq<Finding>)
    ensures FileTally(Parsed(fs)) == FileTally(Parsed(Known(fs)))
  {
    CountIgnoresUncounted(fs, Error);
    CountIgnoresUncounted(fs, Warning);
    CountIgnoresUncounted(fs, Refactor);
    CountIgnoresUncounted(fs, Convention);
  }

  /** Inserting one record of an uncounted type anywhere changes no count. */
  lemma UncountedRecordChangesNothing(before: seq<Finding>, f: Finding, after: seq<Finding>)
    requires !IsCounted(f.kind)
    ensures FileTally(Parsed(before + [f] + after)) == FileTally(Parsed(before + after))
  {
    forall c: Category
      ensures Count(before + [f] + after, TypeName(c)) == Count(before + after, TypeName(c))
    {
      CountAppend(before + [f], after, TypeName(c));
      CountAppend(before, [f], TypeName(c));
      CountAppend(before, after, TypeName(c));
    }
    assert Count(before + [f] + after, TypeName(Error)) == Count(before + after, TypeName(Error));
    assert Count(before + [f] + after, TypeName(Warning)) == Count(before + after, TypeName(Warning));
    assert Count(before + [f] + after, TypeName(Refactor)) == Count(before + after, TypeName(Refactor));
    assert Count(before + [f] + after, TypeName(Convention)) == Count(before + after, TypeName(Convention));
  }

  /** The four rows of a file add up to the number of its records with a counted type. */
  lemma {:induction false} TallySumIsKnownCount(fs: seq<Finding>)
    ensures FileTally(Parsed(fs)).Sum() == |Known(fs)|
    ensures FileTally(Parsed(fs)).Sum() <= |fs|
    decreases |fs|
  {
    if |fs| > 0 {
      TallySumIsKnownCount(fs[1..]);
    }
  }

  // ---------------------------------------------------------------------
  // Run totals
  // ---------------------------------------------------------------------

  lemma {:induction false} FileSumAppend(a: seq<FileAnalysis>, b: seq<FileAnalysis>, c: Category)
    ensures FileSum(a + b, c) == FileSum(a, c) + FileSum(b, c)
    decreases |a|
  {
    if |a| == 0 {
      assert a + b == b;
    } else {
      assert (a + b)[1..] == a[1..] + b;
      FileSumAppend(a[1..], b, c);
    }
  }

  /** The running total of a category is the sum over files of that file's count. */
  lemma {:induction false} RunTotalsAreFileSums(runs: seq<FileAnalysis>, c: Category)
    ensures RunTotals(runs).Get(c) == FileSum(runs, c)
    decreases |runs|
  {
    if |runs| > 0 {
      var init, last := runs[..|runs| - 1], runs[|runs| - 1];
      RunTotalsAreFileSums(init, c);
      assert FileSum(runs, c) == FileSum(init, c) + FileSum([last], c) by {
        assert runs == init + [last];
        FileSumAppend(init, [last], c);
      }
      assert FileSum([last], c) == FileTally(last.result).Get(c) by {
        assert [last][1..] == [];
      }
    }
  }

  /**
   * The running total of a category is the number of records, over the whole
   * run, whose type is exactly that category's name.
   */
  lemma {:induction false} RunTotalsCountAllFindings(runs: seq<FileAnalysis>, c: Category)
    ensures RunTotals(runs).Get(c) == Count(AllFindings(runs), TypeName(c))
    ensures RunTotals(runs).Get(c) == multiset(Kinds(AllFindings(runs)))[TypeName(c)]
    decreases |runs|
  {
    if |runs| > 0 {
      var init := runs[..|runs| - 1];
      var last := runs[|runs| - 1];
      RunTotalsCountAllFindings(init, c);
      AllFindingsSnoc(runs);
      CountAppend(AllFindings(init), FindingsOf(last.result), TypeName(c));
      FileTallyCountsExactType(last.result, c);
    }
    CountIsMultiplicity(AllFindings(runs), TypeName(c));
  }

  /** Totals are additive over any split of the run. */
  lemma RunTotalsAppend(a: seq<FileAnalysis>, b: seq<FileAnalysis>)
    ensures RunTotals(a + b) == RunTotals(a).Plus(RunTotals(b))
  {
    forall c: Category ensures RunTotals(a + b).Get(c) == RunTotals(a).Get(c) + RunTotals(b).Get(c) {
      RunTotalsAreFileSums(a + b, c);
      RunTotalsAreFileSums(a, c);
      RunTotalsAreFileSums(b, c);
      FileSumAppend(a, b, c);
    }
    SameCounts(RunTotals(a + b), RunTotals(a).Plus(RunTotals(b)));
  }
}
