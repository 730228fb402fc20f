/**
 * The accumulation and reporting that the two command-line drivers share
 * (Program.Main of CSharpUnitTestLint.CommandLineAnalyzer and
 * SolutionDriver.Analyze of CSharpUnitTestLint.CommandLine): a fresh walker
 * per document, counters summed, findings concatenated, then the
 * summary figures and the two grouped tables.
 */
module LintDriver {
  import opened Syntax
  import opened Descriptors
  import opened LintWalker
  import opened Aggregation

  /** A document of a project: its file name and its parsed compilation unit. */
  datatype Document = Document(name: string, tree: Tree)

  datatype Project = Project(name: string, documents: seq<Document>)

  datatype Solution = Solution(projects: seq<Project>)

  /** Every document parses to a tree the walker can visit without failing. */
  predicate SolutionAnalyzable(sol: Solution)
  {
    forall i, j :: 0 <= i < |sol.projects| && 0 <= j < |sol.projects[i].documents| ==>
      WellFormed(sol.projects[i].documents[j].tree) && Analyzable(sol.projects[i].documents[j].tree)
  }

  /** The running totals of the accumulation loop. */
  datatype Totals = Totals(enhanced: seq<EnhancedDiagnostic>, testsFound: int, testsWithIssues: int)

  /** What a fresh walker for document d of project p holds after its visit. */
  function AnalyzeDocument(projectName: string, d: Document): WalkState
    requires WellFormed(d.tree) && Analyzable(d.tree)
  {
    VisitUpTo(WalkState([], [], 0, 0), d.tree, |d.tree|, projectName, d.name)
  }

  /**
   * Adding one walker's results. EnhancedDiagnostic is a reference type, so
   * Union with the walker's fresh objects drops none of them: it appends.
   */
  function Combine(acc: Totals, r: WalkState): Totals
  {
    Totals(acc.enhanced + r.enhanced, acc.testsFound + r.testsFound, acc.testsWithIssues + r.testsWithIssues)
  }

  predicate ProjectAnalyzable(p: Project)
  {
    forall j :: 0 <= j < |p.documents| ==> WellFormed(p.documents[j].tree) && Analyzable(p.documents[j].tree)
  }

  /** The totals after the first n documents of project p. */
  function AccumulateDocuments(acc: Totals, p: Project, n: nat): Totals
    requires ProjectAnalyzable(p) && n <= |p.documents|
  {
    if n == 0 then acc
    else Combine(AccumulateDocuments(acc, p, n - 1), AnalyzeDocument(p.name, p.documents[n - 1]))
  }

  /** The totals after the first n projects. */
  function AccumulateProjects(sol: Solution, n: nat): Totals
    requires SolutionAnalyzable(sol) && n <= |sol.projects|
  {
    if n == 0 then Totals([], 0, 0)
    else
      assert ProjectAnalyzable(sol.projects[n - 1]);
      AccumulateDocuments(AccumulateProjects(sol, n - 1), sol.projects[n - 1], |sol.projects[n - 1].documents|)
  }

  /** Analyse one document with a fresh walker and add its results. */
  method AnalyzeOneDocument(acc: Totals, projectName: string, d: Document) returns (next: Totals)
    requires WellFormed(d.tree) && Analyzable(d.tree)
    ensures next == Combine(acc, AnalyzeDocument(projectName, d))
  {
    var walker := new CSharpUnitTestLintWalker(projectName, d.name);
    walker.Visit(d.tree);
    next := Totals(acc.enhanced + walker.enhancedDiagnostics,
                   acc.testsFound + walker.numberOfTestsFound,
                   acc.testsWithIssues + walker.numberOfTestsWithIssues);
  }

  /** The nested project and document loops of the drivers. */
  method AccumulateSolution(sol: Solution) returns (totals: Totals)
    requires SolutionAnalyzable(sol)
    ensures totals == AccumulateProjects(sol, |sol.projects|)
  {
    totals := Totals([], 0, 0);
    for i := 0 to |sol.projects|
      invariant totals == AccumulateProjects(sol, i)
    {
      var project := sol.projects[i];
      assert ProjectAnalyzable(project);
      ghost var start := totals;
      for j := 0 to |project.documents|
        invariant totals == AccumulateDocuments(start, project, j)
      {
        totals := AnalyzeOneDocument(totals, project.name, project.documents[j]);
      }
    }
  }

  /** The GroupBy key of the rule-and-severity table: Diag.Id + " - " + Severity. */
  function IdAndSeverityKey(e: EnhancedDiagnostic): string
  {
    e.diag.Id() + " - " + e.severity
  }

  function IdAndSeverityKeys(enhanced: seq<EnhancedDiagnostic>): seq<string>
  {
    seq(|enhanced|, i requires 0 <= i < |enhanced| => IdAndSeverityKey(enhanced[i]))
  }

  function MethodNames(enhanced: seq<EnhancedDiagnostic>): seq<string>
  {
    seq(|enhanced|, i requires 0 <= i < |enhanced| => enhanced[i].methodName)
  }

  /** How many entries the "Top Ten Tests By Violations Count" table keeps. */
  const TopTestsCount := 10

  /**
   * The share of tests with issues in percent, rounded down, and 0 when no
   * test was found (the corrected form of the printed figure; see RawPercentage).
   */
  function IssuePercentage(testsWithIssues: nat, testsFound: nat): (r: nat)
    requires testsWithIssues <= testsFound
    ensures r <= 100
    ensures testsFound > 0 ==> r * testsFound <= 100 * testsWithIssues < (r + 1) * testsFound
    ensures r == 100 <==> testsFound > 0 && testsWithIssues == testsFound
  {
    if testsFound == 0 then 0
    else
      PercentageBounds(testsWithIssues, testsFound);
      100 * testsWithIssues / testsFound
  }

  lemma PercentageBounds(part: nat, whole: nat)
    requires 0 < whole && part <= whole
    ensures var q := 100 * part / whole;
      0 <= q <= 100 && q * whole <= 100 * part < (q + 1) * whole && (q == 100 <==> part == whole)
  {
    var a := 100 * part;
    var q := a / whole;
    assert a == q * whole + a % whole && 0 <= a % whole < whole;
    assert (q + 1) * whole == q * whole + whole;
    assert a < 101 * whole;
    SmallerFactor(q, 101, whole);
    if part == whole {
      SmallerFactor(99, q, whole);
    } else {
      assert a < 100 * whole;
      SmallerFactor(q, 100, whole);
    }
  }

  /** Comparing two multiples of the same positive number compares the factors. */
  lemma SmallerFactor(x: int, y: int, w: int)
    requires 0 < w && x * w < y * w
    ensures x < y
  {
    assert y * w - x * w == (y - x) * w;
  }

  datatype DivisionOutcome = Quotient(value: int) | DivideByZeroException

  /**
   * The figure the drivers print before "%": the int division
   * numberOfTestsWithIssues / numberOfTestsFound, which throws when no test
   * was found. Both operands are never negative, so C#'s truncating division
   * agrees with Dafny's.
   */
  function RawPercentage(testsWithIssues: nat, testsFound: nat): (r: DivisionOutcome)
    ensures r.DivideByZeroException? <==> testsFound == 0
    ensures r.Quotient? ==> r.value * testsFound <= testsWithIssues < (r.value + 1) * testsFound
  {
    if testsFound == 0 then DivideByZeroException else Quotient(testsWithIssues / testsFound)
  }

  /** What the drivers print: the three figures and the two tables, then every finding. */
  datatype Report = Report(
    testsFound: nat,
    issuesFound: nat,
    testsWithIssues: nat,
    percentage: nat,
    violationsByIdAndSeverity: seq<Group>,
    topTestsWithIssues: seq<Group>,
    details: seq<EnhancedDiagnostic>)

  /** The report printed from the accumulated totals. */
  function Summarize(totals: Totals): Report
    requires 0 <= totals.testsWithIssues <= totals.testsFound
  {
    Report(
      totals.testsFound,
      |totals.enhanced|,
      totals.testsWithIssues,
      IssuePercentage(totals.testsWithIssues, totals.testsFound),
      OrderByCountDescending(GroupBy(IdAndSeverityKeys(totals.enhanced))),
      Take(OrderByCountDescending(GroupBy(MethodNames(totals.enhanced))), TopTestsCount),
      totals.enhanced)
  }
}

/** What the accumulated totals and the report mean. */
module LintDriverProperties {
  import opened Syntax
  import opened Descriptors
  import opened Linq
  import opened LintWalker
  import opened LintWalkerProperties
  import opened Aggregation
  import opened AggregationProperties
  import opened LintDriver

  /** The number of test-marking attributes in the first n documents of p. */
  function ProjectMarkers(p: Project, n: nat): nat
    requires n <= |p.documents|
  {
    if n == 0 then 0 else ProjectMarkers(p, n - 1) + MarkerCount(p.documents[n - 1].tree, |p.documents[n - 1].tree|)
  }

  /** The number of test-marking attributes in the first n projects. */
  function SolutionMarkers(sol: Solution, n: nat): nat
    requires n <= |sol.projects|
  {
    if n == 0 then 0
    else SolutionMarkers(sol, n - 1) + ProjectMarkers(sol.projects[n - 1], |sol.projects[n - 1].documents|)
  }

  /** One document's walker counts its markers as tests and no more issues than tests. */
  lemma DocumentCounts(projectName: string, d: Document)
    requires WellFormed(d.tree) && Analyzable(d.tree)
    ensures var r := AnalyzeDocument(projectName, d);
      r.testsFound == MarkerCount(d.tree, |d.tree|) && 0 <= r.testsWithIssues <= r.testsFound
  {
    VisitCounts(WalkState([], [], 0, 0), d.tree, |d.tree|, projectName, d.name);
  }

  lemma {:induction false} DocumentsCounts(acc: Totals, p: Project, n: nat)
    requires ProjectAnalyzable(p) && n <= |p.documents|
    requires 0 <= acc.testsWithIssues <= acc.testsFound
    ensures var r := AccumulateDocuments(acc, p, n);
      r.testsFound == acc.testsFound + ProjectMarkers(p, n) &&
      acc.testsWithIssues <= r.testsWithIssues <= r.testsFound
    decreases n
  {
    if n > 0 {
      DocumentsCounts(acc, p, n - 1);
      DocumentCounts(p.name, p.documents[n - 1]);
    }
  }

  /** The findings of earlier documents stay in front: the accumulation only appends. */
  lemma {:induction false} DocumentsPrefix(acc: Totals, p: Project, n: nat)
    requires ProjectAnalyzable(p) && n <= |p.documents|
    ensures var r := AccumulateDocuments(acc, p, n);
      |r.enhanced| >= |acc.enhanced| && r.enhanced[..|acc.enhanced|] == acc.enhanced
    decreases n
  {
    if n > 0 {
      DocumentsPrefix(acc, p, n - 1);
      var before := AccumulateDocuments(acc, p, n - 1);
      assert (before.enhanced + AnalyzeDocument(p.name, p.documents[n - 1]).enhanced)[..|acc.enhanced|]
        == before.enhanced[..|acc.enhanced|];
    }
  }

  /**
   * The totals: the tests found are the test-marking attributes of every
   * document, and there are never more tests with issues than tests.
   */
  lemma {:induction false} SolutionCounts(sol: Solution, n: nat)
    requires SolutionAnalyzable(sol) && n <= |sol.projects|
    ensures var r := AccumulateProjects(sol, n);
      r.testsFound == SolutionMarkers(sol, n) && 0 <= r.testsWithIssues <= r.testsFound
    decreases n
  {
    if n > 0 {
      SolutionCounts(sol, n - 1);
      assert ProjectAnalyzable(sol.projects[n - 1]);
      DocumentsCounts(AccumulateProjects(sol, n - 1), sol.projects[n - 1], |sol.projects[n - 1].documents|);
    }
  }

  /**
   * Every finding of the totals was reported by the walker of some document,
   * and carries that document's project name and file name.
   */
  lemma {:induction false} DocumentsProvenance(acc: Totals, p: Project, n: nat, k: nat)
    requires ProjectAnalyzable(p) && n <= |p.documents|
    requires |acc.enhanced| <= k < |AccumulateDocuments(acc, p, n).enhanced|
    ensures var e := AccumulateDocuments(acc, p, n).enhanced[k];
      e.projectName == p.name && e.severity == "Error" &&
      exists j :: 0 <= j < n && e.sourceCodeFileName == p.documents[j].name
    decreases n
  {
    var before := AccumulateDocuments(acc, p, n - 1);
    var d := p.documents[n - 1];
    var r := AnalyzeDocument(p.name, d);
    DocumentsPrefix(acc, p, n - 1);
    if k >= |before.enhanced| {
      VisitEnhancedProvenance(WalkState([], [], 0, 0), d.tree, |d.tree|, p.name, d.name, k - |before.enhanced|);
      assert AccumulateDocuments(acc, p, n).enhanced[k] == r.enhanced[k - |before.enhanced|];
    } else {
      DocumentsProvenance(acc, p, n - 1, k);
      assert AccumulateDocuments(acc, p, n).enhanced[k] == before.enhanced[k];
    }
  }

  lemma {:induction false} SolutionProvenance(sol: Solution, n: nat, k: nat)
    requires SolutionAnalyzable(sol) && n <= |sol.projects|
    requires k < |AccumulateProjects(sol, n).enhanced|
    ensures var e := AccumulateProjects(sol, n).enhanced[k];
      e.severity == "Error" &&
      exists i, j :: 0 <= i < n && 0 <= j < |sol.projects[i].documents| &&
        e.projectName == sol.projects[i].name && e.sourceCodeFileName == sol.projects[i].documents[j].name
    decreases n
  {
    var before := AccumulateProjects(sol, n - 1);
    var p := sol.projects[n - 1];
    assert ProjectAnalyzable(p);
    DocumentsPrefix(before, p, |p.documents|);
    if k >= |before.enhanced| {
      DocumentsProvenance(before, p, |p.documents|, k);
    } else {
      SolutionProvenance(sol, n - 1, k);
    }
  }

  /**
   * The two tables of the report: the rule-and-severity groups have distinct
   * keys, counts of at least 1 that add up to the number of findings, and are
   * ordered by descending count; the top-tests table has at most ten method
   * names, ordered the same way, none with fewer findings than one left out.
   */
  lemma SummarizeTables(totals: Totals)
    requires 0 <= totals.testsWithIssues <= totals.testsFound
    ensures var r := Summarize(totals);
      Total(r.violationsByIdAndSeverity) == r.issuesFound == |r.details| &&
      (forall i :: 0 <= i < |r.violationsByIdAndSeverity| ==> r.violationsByIdAndSeverity[i].count >= 1) &&
      NoDuplicates(KeysOf(r.violationsByIdAndSeverity)) &&
      SortedDescending(r.violationsByIdAndSeverity) &&
      |r.topTestsWithIssues| <= 10 && SortedDescending(r.topTestsWithIssues)
  {
    var keys := IdAndSeverityKeys(totals.enhanced);
    var groups := GroupBy(keys);
    GroupByTotal(keys);
    GroupByKeys(keys);
    OrderByCountDescendingSorts(groups);
    OrderByCountDescendingKeepsGroups(groups);
    var sorted := OrderByCountDescending(groups);
    forall i | 0 <= i < |sorted| ensures sorted[i].count >= 1 {
      assert sorted[i] in multiset(sorted);
      var j :| 0 <= j < |groups| && groups[j] == sorted[i];
    }
    TopTen(GroupBy(MethodNames(totals.enhanced)));
  }

  /** The report the drivers print for a solution. */
  function SolutionSummary(sol: Solution): Report
    requires SolutionAnalyzable(sol)
  {
    SolutionCounts(sol, |sol.projects|);
    Summarize(AccumulateProjects(sol, |sol.projects|))
  }

  /**
   * The report of an analysable solution: its tests are the solution's
   * test-marking attributes, the tests with issues are among them, the
   * percentage is at most 100, the rule-and-severity counts add up to the
   * number of findings, and at most ten tests are listed.
   */
  lemma SolutionReport(sol: Solution)
    requires SolutionAnalyzable(sol)
    ensures var r := SolutionSummary(sol);
      r.testsFound == SolutionMarkers(sol, |sol.projects|) &&
      r.testsWithIssues <= r.testsFound && r.percentage <= 100 &&
      Total(r.violationsByIdAndSeverity) == r.issuesFound &&
      |r.topTestsWithIssues| <= 10
  {
    SolutionCounts(sol, |sol.projects|);
    SummarizeTables(AccumulateProjects(sol, |sol.projects|));
  }

  /**
   * The rule-and-severity table groups exactly by the pair: every rule id has
   * eleven characters, so two entries share a key iff they share the id and
   * the severity label.
   */
  lemma IdAndSeverityKeySeparates(e1: EnhancedDiagnostic, e2: EnhancedDiagnostic)
    ensures IdAndSeverityKey(e1) == IdAndSeverityKey(e2) <==>
      e1.diag.Id() == e2.diag.Id() && e1.severity == e2.severity
  {
    DescriptorShape(e1.diag.rule);
    DescriptorShape(e2.diag.rule);
    var k1, k2 := IdAndSeverityKey(e1), IdAndSeverityKey(e2);
    if k1 == k2 {
      assert e1.diag.Id() == k1[..11] == k2[..11] == e2.diag.Id();
      assert e1.severity == k1[14..] == k2[14..] == e2.severity;
    }
  }

  /** The top-tests table groups by method name alone: same-named tests of two files share a row. */
  lemma SameNamedTestsMerge(e1: EnhancedDiagnostic, e2: EnhancedDiagnostic)
    requires e1.methodName == e2.methodName && e1.sourceCodeFileName != e2.sourceCodeFileName
    ensures GroupBy(MethodNames([e1, e2])) == [Group(e1.methodName, 2)]
  {
    var names := MethodNames([e1, e2]);
    assert names == [e1.methodName, e1.methodName];
    assert names[..1] == [e1.methodName] && names[..1][..0] == [];
    assert GroupBy(names[..1]) == [Group(e1.methodName, 1)];
    assert AddKey([Group(e1.methodName, 1)], e1.methodName) == [Group(e1.methodName, 2)];
  }

  /**
   * As written, the printed percentage is the integer quotient of the two
   * counters: 0 unless every test has issues, and an exception when there
   * are no tests.
   */
  lemma RawPercentageIsZeroOrOne(testsWithIssues: nat, testsFound: nat)
    requires testsWithIssues <= testsFound
    ensures testsFound == 0 ==> RawPercentage(testsWithIssues, testsFound) == DivideByZeroException
    ensures testsFound > 0 ==>
      RawPercentage(testsWithIssues, testsFound) == Quotient(if testsWithIssues == testsFound then 1 else 0)
  {
  }

  /** One test with issues out of two prints 0% where 50% is meant; no tests at all throws. */
  lemma RawPercentageCounterexamples()
    ensures RawPercentage(1, 2) == Quotient(0) && IssuePercentage(1, 2) == 50
    ensures RawPercentage(0, 0) == DivideByZeroException && IssuePercentage(0, 0) == 0
  {
  }
}

/** Program.Main of CSharpUnitTestLint.CommandLineAnalyzer. */
module CommandLineProgram {
  import opened LintDriver
  import opened LintDriverProperties

  datatype Option<T> = None | Some(value: T)

  /** The solution analysed when the command line does not name exactly one. */
  const DefaultSolutionPath := @"..\..\..\CSharpUnitTestLint.sln"

  /** The solution to analyse: the only argument, or the default path otherwise. */
  function SolutionPath(args: seq<string>): (path: string)
    ensures |args| == 1 ==> path == args[0]
    ensures |args| != 1 ==> path == DefaultSolutionPath
  {
    if |args| == 1 then args[0] else DefaultSolutionPath
  }

  /**
   * Main: open the solution at SolutionPath(args), accumulate over its
   * documents and produce the report. The MSBuild workspace is the map from a
   * path to the solution loaded from it; a path it cannot open yields None.
   */
  method Run(args: seq<string>, workspace: map<string, Solution>) returns (outcome: Option<Report>)
    requires forall path :: path in workspace ==> SolutionAnalyzable(workspace[path])
    ensures SolutionPath(args) !in workspace ==> outcome == None
    ensures SolutionPath(args) in workspace ==>
      outcome == Some(SolutionSummary(workspace[SolutionPath(args)]))
  {
    var solutionPath := SolutionPath(args);
    if solutionPath !in workspace {
      return None;
    }
    var solutionToAnalyze := workspace[solutionPath];
    var totals := AccumulateSolution(solutionToAnalyze);
    SolutionCounts(solutionToAnalyze, |solutionToAnalyze.projects|);
    outcome := Some(Summarize(totals));
  }
}

/** SolutionDriver.Analyze of CSharpUnitTestLint.CommandLine. */
module SolutionDriver {
  import opened LintDriver
  import opened LintDriverProperties

  /**
   * Analyze: a first pass over the documents that only fetches each syntax
   * tree and keeps nothing, then the same accumulation and report as Program.Main.
   */
  method Analyze(theSolutionToAnalyze: Solution) returns (report: Report)
    requires SolutionAnalyzable(theSolutionToAnalyze)
    ensures report == SolutionSummary(theSolutionToAnalyze)
  {
    for i := 0 to |theSolutionToAnalyze.projects| {
      var project := theSolutionToAnalyze.projects[i];
      for j := 0 to |project.documents| {
        var currentSyntaxTree := project.documents[j].tree;
        var foo := 1;
      }
    }
    var totals := AccumulateSolution(theSolutionToAnalyze);
    SolutionCounts(theSolutionToAnalyze, |theSolutionToAnalyze.projects|);
    report := Summarize(totals);
  }
}
