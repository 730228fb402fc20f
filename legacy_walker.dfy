/**
 * The first-generation syntax walker
 * (CSharpUnitTestLintCommandLineAnalyzer.Roslyn.CSharpUnitTestLintWalker). At
 * an xUnit Fact or Theory attribute it runs the three legacy searches on the
 * attribute's grandparent, appending to one list it never clears.
 */
module LegacyLintWalker {
  import opened Syntax
  import opened LegacyRules
  import LintWalker

  /** Only the xUnit markers; NUnit's Test, TestCase and TestCaseSource are not recognised. */
  predicate IsLegacyTestMarker(name: string)
  {
    name == "Theory" || name == "Fact"
  }

  predicate MarksLegacyTest(t: Tree, j: nat)
    requires j < |t|
  {
    t[j].kind == Attribute && IsLegacyTestMarker(t[j].name)
  }

  /**
   * The searches can run on the test method of every marker: the attribute's
   * grandparent is a method declaration and its literals, itself included,
   * have great-grandparents.
   */
  predicate LegacyAnalyzable(t: Tree)
    requires WellFormed(t)
  {
    forall j :: 0 <= j < |t| && MarksLegacyTest(t, j) ==>
      0 <= LintWalker.Grandparent(t, j) && t[LintWalker.Grandparent(t, j)].kind == MethodDeclaration &&
      LiteralsAnchored(t, LintWalker.Grandparent(t, j), true)
  }

  /** The walker's observable state: the found list and the two counters. */
  datatype LegacyState = LegacyState(found: seq<ReportedDiagnostic>, testsFound: int, testsWithIssues: int)

  /** The diagnostics one analysis appends: if, then foreach, then magic-number reports. */
  function TestReports(t: Tree, m: nat, file: string): seq<ReportedDiagnostic>
    requires WellFormed(t) && m < |t| && LiteralsAnchored(t, m, true)
  {
    IfReports(t, m, file) + ForEachReports(t, m, file) + MagicReports(t, m, file)
  }

  /** What one analysis does, given the reports the three searches append. */
  function AnalyzeWith(s: LegacyState, added: seq<ReportedDiagnostic>): LegacyState
  {
    LegacyState(s.found + added, s.testsFound + 1,
      if |s.found + added| != |s.found| then s.testsWithIssues + 1 else s.testsWithIssues)
  }

  /** What analysing test method m does to the state. */
  function AnalyzeStep(s: LegacyState, t: Tree, m: nat, file: string): LegacyState
    requires WellFormed(t) && m < |t| && LiteralsAnchored(t, m, true)
  {
    AnalyzeWith(s, TestReports(t, m, file))
  }

  /** What visiting nodes 0 .. n-1, in pre-order, does to the state. */
  function VisitUpTo(s: LegacyState, t: Tree, n: nat, file: string): LegacyState
    requires WellFormed(t) && LegacyAnalyzable(t) && n <= |t|
    decreases n
  {
    if n == 0 then s
    else
      var before := VisitUpTo(s, t, n - 1, file);
      if MarksLegacyTest(t, n - 1) then AnalyzeStep(before, t, LintWalker.Grandparent(t, n - 1), file)
      else before
  }

  lemma AppendThree<T>(x: seq<T>, a: seq<T>, b: seq<T>, c: seq<T>, r: seq<T>)
    requires r == x + a + b + c
    ensures |r| >= |x| && r[..|x|] == x && r[|x|..] == a + b + c
  {
    assert r == x + (a + b + c);
  }

  class CSharpUnitTestLintWalker {
    var numberOfTestsFound: int
    var numberOfTestsWithIssues: int
    const foundDiagnostics: DiagnosticList
    var currentSourceCodeFile: string

    function State(): LegacyState
      reads this, foundDiagnostics
    {
      LegacyState(foundDiagnostics.items, numberOfTestsFound, numberOfTestsWithIssues)
    }

    constructor(file: string)
      ensures State() == LegacyState([], 0, 0) && currentSourceCodeFile == file
      ensures fresh(foundDiagnostics)
    {
      numberOfTestsFound := 0;
      numberOfTestsWithIssues := 0;
      foundDiagnostics := new DiagnosticList();
      currentSourceCodeFile := file;
    }

    /**
     * AnalyzeTest: run the if, foreach and magic-number searches into the
     * found list, count the test, and count an issue when the list grew.
     */
    method AnalyzeTest(t: Tree, m: nat)
      requires WellFormed(t) && m < |t| && LiteralsAnchored(t, m, true)
      modifies this, foundDiagnostics
      ensures State() == AnalyzeWith(old(State()), TestReports(t, m, currentSourceCodeFile))
      ensures currentSourceCodeFile == old(currentSourceCodeFile)
    {
      var beforeCount := |foundDiagnostics.items|;
      ghost var before := foundDiagnostics.items;
      SearchForIfStatements(t, m, foundDiagnostics, currentSourceCodeFile);
      SearchForForEachStatements(t, m, foundDiagnostics, currentSourceCodeFile);
      SearchForMagicNumbers(t, m, foundDiagnostics, currentSourceCodeFile);
      AppendThree(before, IfReports(t, m, currentSourceCodeFile), ForEachReports(t, m, currentSourceCodeFile),
        MagicReports(t, m, currentSourceCodeFile), foundDiagnostics.items);
      CountAnalysis(beforeCount, before);
    }

    /** The counting at the end of AnalyzeTest. */
    method CountAnalysis(beforeCount: int, ghost before: seq<ReportedDiagnostic>)
      requires beforeCount == |before| && |foundDiagnostics.items| >= |before|
      requires foundDiagnostics.items[..|before|] == before
      modifies this
      ensures State() == AnalyzeWith(LegacyState(before, old(numberOfTestsFound), old(numberOfTestsWithIssues)),
                                     foundDiagnostics.items[|before|..])
      ensures currentSourceCodeFile == old(currentSourceCodeFile)
    {
      assert before + foundDiagnostics.items[|before|..] == foundDiagnostics.items;
      if |foundDiagnostics.items| != beforeCount {
        numberOfTestsWithIssues := numberOfTestsWithIssues + 1;
      }
      numberOfTestsFound := numberOfTestsFound + 1;
    }

    /** VisitAttribute: analyse the grandparent of a Theory or Fact attribute; ignore any other. */
    method VisitAttribute(t: Tree, j: nat)
      requires WellFormed(t) && LegacyAnalyzable(t) && j < |t| && t[j].kind == Attribute
      modifies this, foundDiagnostics
      ensures State() ==
        if MarksLegacyTest(t, j) then AnalyzeStep(old(State()), t, LintWalker.Grandparent(t, j), currentSourceCodeFile)
        else old(State())
      ensures currentSourceCodeFile == old(currentSourceCodeFile)
    {
      var attributeName := t[j].name;
      if IsLegacyTestMarker(attributeName) {
        var methodDeclaration := LintWalker.Grandparent(t, j);
        AnalyzeTest(t, methodDeclaration);
      }
    }

    /** Visit: walk the compilation unit in pre-order, dispatching every attribute to VisitAttribute. */
    method Visit(t: Tree)
      requires WellFormed(t) && LegacyAnalyzable(t)
      modifies this, foundDiagnostics
      ensures State() == VisitUpTo(old(State()), t, |t|, currentSourceCodeFile)
      ensures currentSourceCodeFile == old(currentSourceCodeFile)
    {
      for i := 0 to |t|
        invariant State() == VisitUpTo(old(State()), t, i, currentSourceCodeFile)
        invariant currentSourceCodeFile == old(currentSourceCodeFile)
      {
        if t[i].kind == Attribute {
          VisitAttribute(t, i);
        }
      }
    }
  }
}

/** What the first-generation walker's counters and list mean after a visit. */
module LegacyLintWalkerProperties {
  import opened Syntax
  import opened LegacyRules
  import opened LegacyLintWalker
  import LintWalker
  import opened Linq

  /** The number of Theory and Fact attributes among nodes 0 .. n-1. */
  function LegacyMarkerCount(t: Tree, n: nat): nat
    requires n <= |t|
  {
    if n == 0 then 0 else LegacyMarkerCount(t, n - 1) + (if MarksLegacyTest(t, n - 1) then 1 else 0)
  }

  /**
   * One analysis counts one test, keeps the list's old entries, and counts an
   * issue exactly when the searches appended something; so, unlike the newer
   * walker, a method marked twice with findings counts two issues.
   */
  lemma AnalyzeWithEffect(s: LegacyState, added: seq<ReportedDiagnostic>)
    ensures var r := AnalyzeWith(s, added);
      r.testsFound == s.testsFound + 1 &&
      r.found[..|s.found|] == s.found &&
      (r.testsWithIssues == s.testsWithIssues + 1 <==> added != []) &&
      (r.testsWithIssues == s.testsWithIssues <==> added == [])
  {
    assert (s.found + added)[..|s.found|] == s.found;
  }

  /**
   * A visit counts every Theory or Fact marker as a test, counts at most one
   * issue per marker, and keeps issues <= tests.
   */
  lemma {:induction false} VisitCounts(s: LegacyState, t: Tree, n: nat, file: string)
    requires WellFormed(t) && LegacyAnalyzable(t) && n <= |t|
    requires 0 <= s.testsWithIssues <= s.testsFound
    ensures var r := VisitUpTo(s, t, n, file);
      r.testsFound == s.testsFound + LegacyMarkerCount(t, n) &&
      s.testsWithIssues <= r.testsWithIssues <= s.testsWithIssues + LegacyMarkerCount(t, n) &&
      0 <= r.testsWithIssues <= r.testsFound
    decreases n
  {
    if n > 0 {
      VisitCounts(s, t, n - 1, file);
      var before := VisitUpTo(s, t, n - 1, file);
      if MarksLegacyTest(t, n - 1) {
        AnalyzeWithEffect(before, TestReports(t, LintWalker.Grandparent(t, n - 1), file));
      }
    }
  }

  /**
   * The found list is never cleared: a visit keeps every entry it started
   * with, so the list accumulates across visits.
   */
  lemma {:induction false} VisitOnlyAppends(s: LegacyState, t: Tree, n: nat, file: string)
    requires WellFormed(t) && LegacyAnalyzable(t) && n <= |t|
    ensures var r := VisitUpTo(s, t, n, file);
      |r.found| >= |s.found| && r.found[..|s.found|] == s.found
    decreases n
  {
    if n > 0 {
      VisitOnlyAppends(s, t, n - 1, file);
      var before := VisitUpTo(s, t, n - 1, file);
      if MarksLegacyTest(t, n - 1) {
        var added := TestReports(t, LintWalker.Grandparent(t, n - 1), file);
        PrefixOfAppend(s.found, before.found, added);
      }
    }
  }

  /** The NUnit Test marker starts an analysis in the newer walker and none in this one. */
  lemma TestMarkerOnlyInNewerWalker()
    ensures LintWalker.IsTestMarker("Test") && !IsLegacyTestMarker("Test")
    ensures forall name :: IsLegacyTestMarker(name) ==> LintWalker.IsTestMarker(name)
  {
    assert "Test" != "Theory" && "Test" != "Fact" by {
      assert |"Test"| != |"Theory"|;
      assert "Test"[0..4] != "Fact"[0..4] by { assert "Test"[0] != "Fact"[0]; }
    }
  }
}
