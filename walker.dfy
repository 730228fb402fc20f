/**
 * The syntax walker of the command-line driver
 * (CSharpUnitTestLint.CommandLine.CSharpUnitTestLintWalker). It visits every
 * node of one compilation unit; at an attribute whose name marks a test, it
 * hands the attribute's grandparent, the test method, to the rule engine and
 * records what the engine found.
 */
module LintWalker {
  import opened Syntax
  import opened Descriptors
  import opened Linq
  import opened UnitTestViolations

  /**
   * An EnhancedDiagnostic: the engine's diagnostic with the reporting context.
   * In C# it is a class compared by reference, so no two of them are ever
   * merged by Union; here it is a plain record.
   */
  datatype EnhancedDiagnostic = EnhancedDiagnostic(
    diag: Diagnostic,
    projectName: string,
    sourceCodeFileName: string,
    methodName: string,
    severity: string,
    codeViolationSnippet: string)

  /** The severity switch of AnalyzeTestMethod: each severity by its own name. */
  function SeverityLabel(s: Severity): string
  {
    match s
    case Error => "Error"
    case Hidden => "Hidden"
    case Info => "Info"
    case Warning => "Warning"
  }

  /** No two severities share a label. */
  lemma SeverityLabelsDistinct(s1: Severity, s2: Severity)
    ensures SeverityLabel(s1) == SeverityLabel(s2) <==> s1 == s2
  {
    if s1 != s2 {
      assert |SeverityLabel(s1)| != |SeverityLabel(s2)|;
    }
  }

  /** The attribute names that mark a test (xUnit Fact/Theory, NUnit Test/TestCase/TestCaseSource). */
  predicate IsTestMarker(name: string)
  {
    name == "Fact" || name == "Test" || name == "TestCase" || name == "TestCaseSource" || name == "Theory"
  }

  /** Node j is an attribute that marks a test. */
  predicate MarksTest(t: Tree, j: nat)
    requires j < |t|
  {
    t[j].kind == Attribute && IsTestMarker(t[j].name)
  }

  /** node.Parent.Parent, or -1 when one of the two is missing. */
  function Grandparent(t: Tree, j: nat): (r: int)
    requires WellFormed(t) && j < |t|
    ensures r < j
  {
    var p := t[j].parent;
    if p < 0 then -1 else t[p].parent
  }

  /**
   * The rule engine can analyse the test method of every marker: the
   * attribute's grandparent is a method declaration (the `as` cast does not
   * yield null) and the method's literals have great-grandparents.
   */
  predicate Analyzable(t: Tree)
    requires WellFormed(t)
  {
    forall j :: 0 <= j < |t| && MarksTest(t, j) ==>
      0 <= Grandparent(t, j) && t[Grandparent(t, j)].kind == MethodDeclaration &&
      LiteralsAnchored(t, Grandparent(t, j), false)
  }

  /** The walker's observable state: its two lists and its two counters. */
  datatype WalkState = WalkState(
    enhanced: seq<EnhancedDiagnostic>,
    found: seq<Diagnostic>,
    testsFound: int,
    testsWithIssues: int)

  /** The enhanced diagnostics of one analysis: one per raw diagnostic, in order. */
  function Enhance(raw: seq<Diagnostic>, project: string, file: string, methodName: string, snippet: string)
    : (r: seq<EnhancedDiagnostic>)
    ensures |r| == |raw|
  {
    seq(|raw|, i requires 0 <= i < |raw| =>
      EnhancedDiagnostic(raw[i], project, file, methodName, SeverityLabel(raw[i].Severity()), snippet))
  }

  lemma EnhanceSnoc(raw: seq<Diagnostic>, d: Diagnostic, project: string, file: string, methodName: string, snippet: string)
    ensures Enhance(raw + [d], project, file, methodName, snippet) ==
      Enhance(raw, project, file, methodName, snippet)
      + [EnhancedDiagnostic(d, project, file, methodName, SeverityLabel(d.Severity()), snippet)]
  {
  }

  /**
   * The foreach of AnalyzeTestMethod: one EnhancedDiagnostic per raw
   * diagnostic, labelled with the severity switch, in order.
   */
  method EnhanceAll(rawDiagnostics: seq<Diagnostic>, project: string, file: string, methodName: string, snippet: string)
    returns (localEnhancedDiagnostics: seq<EnhancedDiagnostic>)
    ensures localEnhancedDiagnostics == Enhance(rawDiagnostics, project, file, methodName, snippet)
  {
    localEnhancedDiagnostics := [];
    for i := 0 to |rawDiagnostics|
      invariant localEnhancedDiagnostics == Enhance(rawDiagnostics[..i], project, file, methodName, snippet)
    {
      var diag := rawDiagnostics[i];
      var severity := SeverityLabel(diag.Severity());
      var enhancedDiag := EnhancedDiagnostic(diag, project, file, methodName, severity, snippet);
      EnhanceSnoc(rawDiagnostics[..i], diag, project, file, methodName, snippet);
      assert rawDiagnostics[..i + 1] == rawDiagnostics[..i] + [diag];
      localEnhancedDiagnostics := localEnhancedDiagnostics + [enhancedDiag];
    }
    assert rawDiagnostics[..|rawDiagnostics|] == rawDiagnostics;
  }

  /** What one analysis does to the state, given the engine's diagnostics for the method. */
  function AnalyzeWith(s: WalkState, raw: seq<Diagnostic>, methodName: string, snippet: string,
                       project: string, file: string): WalkState
  {
    var found := Union(s.found, raw);
    WalkState(
      s.enhanced + Enhance(raw, project, file, methodName, snippet),
      found,
      s.testsFound + 1,
      if |found| != |s.found| then s.testsWithIssues + 1 else s.testsWithIssues)
  }

  /** What analysing test method m does to the state. */
  function AnalyzeStep(s: WalkState, t: Tree, m: nat, project: string, file: string): WalkState
    requires WellFormed(t) && m < |t| && LiteralsAnchored(t, m, false)
  {
    AnalyzeWith(s, MethodFindings(t, m), t[m].name, t[m].text, project, file)
  }

  /** What visiting nodes 0 .. n-1, in pre-order, does to the state. */
  function VisitUpTo(s: WalkState, t: Tree, n: nat, project: string, file: string): WalkState
    requires WellFormed(t) && Analyzable(t) && n <= |t|
    decreases n
  {
    if n == 0 then s
    else
      var before := VisitUpTo(s, t, n - 1, project, file);
      if MarksTest(t, n - 1) then AnalyzeStep(before, t, Grandparent(t, n - 1), project, file)
      else before
  }

  class CSharpUnitTestLintWalker {
    var enhancedDiagnostics: seq<EnhancedDiagnostic>
    var foundDiagnostics: seq<Diagnostic>
    var numberOfTestsFound: int
    var numberOfTestsWithIssues: int
    var currentSourceCodeFileName: string
    var currentProject: string

    function State(): WalkState
      reads this
    {
      WalkState(enhancedDiagnostics, foundDiagnostics, numberOfTestsFound, numberOfTestsWithIssues)
    }

    /** A new walker with its project and file name set, as the drivers create it. */
    constructor(project: string, file: string)
      ensures State() == WalkState([], [], 0, 0)
      ensures currentProject == project && currentSourceCodeFileName == file
    {
      enhancedDiagnostics := [];
      foundDiagnostics := [];
      numberOfTestsFound := 0;
      numberOfTestsWithIssues := 0;
      currentSourceCodeFileName := file;
      currentProject := project;
    }

    /**
     * AnalyzeTestMethod: run the rule engine on the test method, then record
     * what it found. The source runs the engine a second time for the merge;
     * both runs return the same list.
     */
    method AnalyzeTestMethod(t: Tree, m: nat)
      requires WellFormed(t) && m < |t| && LiteralsAnchored(t, m, false)
      modifies this
      ensures State() == AnalyzeStep(old(State()), t, m, currentProject, currentSourceCodeFileName)
      ensures currentProject == old(currentProject)
      ensures currentSourceCodeFileName == old(currentSourceCodeFileName)
    {
      var rawDiagnostics := ProcessMethodDeclarationSyntax(t, m);
      var again := ProcessMethodDeclarationSyntax(t, m);
      RecordFindings(rawDiagnostics, again, t[m].name, t[m].text);
    }

    /**
     * The rest of AnalyzeTestMethod: wrap each diagnostic of the first run,
     * append the wrapped list, merge the second run into the found list, and
     * count the test, and the issue when the merge grew the list.
     */
    method RecordFindings(rawDiagnostics: seq<Diagnostic>, again: seq<Diagnostic>, methodName: string, snippet: string)
      requires again == rawDiagnostics
      modifies this
      ensures State() == AnalyzeWith(old(State()), rawDiagnostics, methodName, snippet, currentProject, currentSourceCodeFileName)
      ensures currentProject == old(currentProject)
      ensures currentSourceCodeFileName == old(currentSourceCodeFileName)
    {
      var beforeCount := |foundDiagnostics|;
      var localEnhancedDiagnostics :=
        EnhanceAll(rawDiagnostics, currentProject, currentSourceCodeFileName, methodName, snippet);
      enhancedDiagnostics := enhancedDiagnostics + localEnhancedDiagnostics;
      foundDiagnostics := Union(foundDiagnostics, again);
      if |foundDiagnostics| != beforeCount {
        numberOfTestsWithIssues := numberOfTestsWithIssues + 1;
      }
      numberOfTestsFound := numberOfTestsFound + 1;
    }

    /** VisitAttribute: analyse the grandparent of a test-marking attribute; ignore any other. */
    method VisitAttribute(t: Tree, j: nat)
      requires WellFormed(t) && Analyzable(t) && j < |t| && t[j].kind == Attribute
      modifies this
      ensures State() ==
        if MarksTest(t, j) then AnalyzeStep(old(State()), t, Grandparent(t, j), currentProject, currentSourceCodeFileName)
        else old(State())
      ensures currentProject == old(currentProject)
      ensures currentSourceCodeFileName == old(currentSourceCodeFileName)
    {
      var attributeName := t[j].name;
      if IsTestMarker(attributeName) {
        var methodDeclaration := Grandparent(t, j);
        AnalyzeTestMethod(t, methodDeclaration);
      }
    }

    /** Visit: walk the compilation unit in pre-order, dispatching every attribute to VisitAttribute. */
    method Visit(t: Tree)
      requires WellFormed(t) && Analyzable(t)
      modifies this
      ensures State() == VisitUpTo(old(State()), t, |t|, currentProject, currentSourceCodeFileName)
      ensures currentProject == old(currentProject)
      ensures currentSourceCodeFileName == old(currentSourceCodeFileName)
    {
      for i := 0 to |t|
        invariant State() == VisitUpTo(old(State()), t, i, currentProject, currentSourceCodeFileName)
        invariant currentProject == old(currentProject)
        invariant currentSourceCodeFileName == old(currentSourceCodeFileName)
      {
        if t[i].kind == Attribute {
          VisitAttribute(t, i);
        }
      }
    }
  }
}

/** What the walker's counters and lists mean after a visit. */
module LintWalkerProperties {
  import opened Syntax
  import opened Descriptors
  import opened Linq
  import opened UnitTestViolations
  import opened UnitTestViolationsProperties
  import opened LintWalker

  /** The walker invariant: no more tests with issues than tests, and a found list without repeats. */
  predicate Consistent(s: WalkState)
  {
    0 <= s.testsWithIssues <= s.testsFound && NoDuplicates(s.found)
  }

  /** The number of test-marking attributes among nodes 0 .. n-1. */
  function MarkerCount(t: Tree, n: nat): nat
    requires n <= |t|
  {
    if n == 0 then 0 else MarkerCount(t, n - 1) + (if MarksTest(t, n - 1) then 1 else 0)
  }

  /**
   * One analysis counts one test, appends one enhanced diagnostic per raw one,
   * keeps the found list's old entries in place, and counts an issue exactly
   * when the engine reported something not already found.
   */
  lemma AnalyzeWithEffect(s: WalkState, raw: seq<Diagnostic>, methodName: string, snippet: string,
                          project: string, file: string)
    requires Consistent(s)
    ensures var r := AnalyzeWith(s, raw, methodName, snippet, project, file);
      Consistent(r) &&
      r.testsFound == s.testsFound + 1 &&
      |r.enhanced| == |s.enhanced| + |raw| && r.enhanced[..|s.enhanced|] == s.enhanced &&
      |r.found| >= |s.found| && r.found[..|s.found|] == s.found &&
      (r.testsWithIssues == s.testsWithIssues + 1 <==> exists i :: 0 <= i < |raw| && raw[i] !in s.found) &&
      (r.testsWithIssues == s.testsWithIssues <==> forall i :: 0 <= i < |raw| ==> raw[i] in s.found)
  {
    UnionExtends(s.found, raw);
    var r := AnalyzeWith(s, raw, methodName, snippet, project, file);
    assert r.enhanced[..|s.enhanced|] == s.enhanced;
  }

  /** Every enhanced diagnostic of one analysis carries its context and the "Error" label. */
  lemma EnhanceCarriesContext(raw: seq<Diagnostic>, project: string, file: string, methodName: string,
                              snippet: string, k: nat)
    requires k < |raw|
    ensures var e := Enhance(raw, project, file, methodName, snippet);
      |e| == |raw| && e[k].diag == raw[k] &&
      e[k].projectName == project && e[k].sourceCodeFileName == file &&
      e[k].methodName == methodName && e[k].codeViolationSnippet == snippet &&
      e[k].severity == "Error"
  {
    DescriptorShape(raw[k].rule);
  }

  /**
   * A visit counts every marker as a test, counts at most one issue per
   * marker, and keeps the walker invariant.
   */
  lemma {:induction false} VisitCounts(s: WalkState, t: Tree, n: nat, project: string, file: string)
    requires WellFormed(t) && Analyzable(t) && n <= |t| && Consistent(s)
    ensures var r := VisitUpTo(s, t, n, project, file);
      Consistent(r) &&
      r.testsFound == s.testsFound + MarkerCount(t, n) &&
      s.testsWithIssues <= r.testsWithIssues <= s.testsWithIssues + MarkerCount(t, n)
    decreases n
  {
    if n > 0 {
      VisitCounts(s, t, n - 1, project, file);
      var before := VisitUpTo(s, t, n - 1, project, file);
      if MarksTest(t, n - 1) {
        var m := Grandparent(t, n - 1);
        AnalyzeWithEffect(before, MethodFindings(t, m), t[m].name, t[m].text, project, file);
      }
    }
  }

  /** The walker invariant holds of every walker the drivers use: issues <= tests. */
  lemma VisitKeepsIssuesBelowTests(s: WalkState, t: Tree, project: string, file: string)
    requires WellFormed(t) && Analyzable(t) && Consistent(s)
    ensures var r := VisitUpTo(s, t, |t|, project, file);
      0 <= r.testsWithIssues <= r.testsFound
  {
    VisitCounts(s, t, |t|, project, file);
  }

  /** The number of engine diagnostics over the test methods of the markers among nodes 0 .. n-1. */
  function FindingsTotal(t: Tree, n: nat): nat
    requires WellFormed(t) && Analyzable(t) && n <= |t|
  {
    if n == 0 then 0
    else FindingsTotal(t, n - 1) + (if MarksTest(t, n - 1) then |MethodFindings(t, Grandparent(t, n - 1))| else 0)
  }

  /** A visit appends one enhanced diagnostic per engine diagnostic of every marked method. */
  lemma {:induction false} VisitEnhancedCount(s: WalkState, t: Tree, n: nat, project: string, file: string)
    requires WellFormed(t) && Analyzable(t) && n <= |t|
    ensures |VisitUpTo(s, t, n, project, file).enhanced| == |s.enhanced| + FindingsTotal(t, n)
    decreases n
  {
    if n > 0 {
      VisitEnhancedCount(s, t, n - 1, project, file);
    }
  }

  /** A compilation unit without a test-marking attribute leaves the walker as it was. */
  lemma {:induction false} NoMarkersNoChange(s: WalkState, t: Tree, n: nat, project: string, file: string)
    requires WellFormed(t) && Analyzable(t) && n <= |t|
    requires forall j :: 0 <= j < n ==> !MarksTest(t, j)
    ensures VisitUpTo(s, t, n, project, file) == s
    decreases n
  {
    if n > 0 {
      NoMarkersNoChange(s, t, n - 1, project, file);
    }
  }

  /** The enhanced diagnostics one analysis appends wrap the engine's diagnostics and carry the context. */
  lemma AnalyzeWithProvenance(s: WalkState, raw: seq<Diagnostic>, methodName: string, snippet: string,
                              project: string, file: string, k: nat)
    requires |s.enhanced| <= k < |AnalyzeWith(s, raw, methodName, snippet, project, file).enhanced|
    ensures var e := AnalyzeWith(s, raw, methodName, snippet, project, file).enhanced[k];
      e.diag in raw && e.projectName == project && e.sourceCodeFileName == file &&
      e.severity == "Error" && e.methodName == methodName && e.codeViolationSnippet == snippet
  {
    var i := k - |s.enhanced|;
    EnhanceCarriesContext(raw, project, file, methodName, snippet, i);
    assert raw[i] in raw;
  }

  /** `e` wraps a diagnostic of the test method marked at node j and records that method's name and text. */
  predicate FromTestMethod(t: Tree, e: EnhancedDiagnostic, j: nat)
    requires WellFormed(t) && Analyzable(t)
  {
    j < |t| && MarksTest(t, j) &&
    e.diag in MethodFindings(t, Grandparent(t, j)) &&
    e.methodName == t[Grandparent(t, j)].name &&
    e.codeViolationSnippet == t[Grandparent(t, j)].text
  }

  /** The enhanced diagnostics that visiting node j appends. */
  function StepEnhanced(t: Tree, j: nat, project: string, file: string): seq<EnhancedDiagnostic>
    requires WellFormed(t) && Analyzable(t) && j < |t|
  {
    if MarksTest(t, j) then
      var m := Grandparent(t, j);
      Enhance(MethodFindings(t, m), project, file, t[m].name, t[m].text)
    else []
  }

  lemma VisitEnhancedStep(s: WalkState, t: Tree, n: nat, project: string, file: string)
    requires WellFormed(t) && Analyzable(t) && 0 < n <= |t|
    ensures VisitUpTo(s, t, n, project, file).enhanced ==
      VisitUpTo(s, t, n - 1, project, file).enhanced + StepEnhanced(t, n - 1, project, file)
  {
  }

  lemma StepProvenance(t: Tree, j: nat, project: string, file: string, i: nat)
    requires WellFormed(t) && Analyzable(t) && j < |t| && i < |StepEnhanced(t, j, project, file)|
    ensures var e := StepEnhanced(t, j, project, file)[i];
      e.projectName == project && e.sourceCodeFileName == file && e.severity == "Error" &&
      FromTestMethod(t, e, j)
  {
    var m := Grandparent(t, j);
    var raw := MethodFindings(t, m);
    EnhanceCarriesContext(raw, project, file, t[m].name, t[m].text, i);
    assert raw[i] in raw;
  }

  /** An entry appended at node j comes from the test method that node marks. */
  lemma AppendedProvenance(before: seq<EnhancedDiagnostic>, after: seq<EnhancedDiagnostic>, t: Tree, j: nat,
                           project: string, file: string, k: nat)
    requires WellFormed(t) && Analyzable(t) && j < |t|
    requires after == before + StepEnhanced(t, j, project, file) && |before| <= k < |after|
    ensures after[k].projectName == project && after[k].sourceCodeFileName == file &&
      after[k].severity == "Error" && FromTestMethod(t, after[k], j)
  {
    var added := StepEnhanced(t, j, project, file);
    var i := k - |before|;
    AppendedIndex(before, added, after, k);
    StepProvenance(t, j, project, file, i);
    var e := added[i];
    assert after[k] == e;
    assert e.severity == "Error";
    assert FromTestMethod(t, e, j);
  }

  lemma AppendedIndex<T>(before: seq<T>, added: seq<T>, after: seq<T>, k: nat)
    requires after == before + added && |before| <= k < |after|
    ensures after[k] == added[k - |before|]
  {
  }

  /** An entry that was there before the last visited node stays where it was. */
  lemma OldEntryKept(s: WalkState, t: Tree, n: nat, project: string, file: string, k: nat)
    requires WellFormed(t) && Analyzable(t) && 0 < n <= |t|
    requires k < |VisitUpTo(s, t, n - 1, project, file).enhanced|
    ensures k < |VisitUpTo(s, t, n, project, file).enhanced|
    ensures VisitUpTo(s, t, n, project, file).enhanced[k] == VisitUpTo(s, t, n - 1, project, file).enhanced[k]
  {
    VisitEnhancedStep(s, t, n, project, file);
  }

  /**
   * The enhanced diagnostics a visit appends: each carries the walker's
   * project and file and the "Error" label, and wraps an engine diagnostic of
   * a marked test method, whose name and text it records.
   */
  lemma {:induction false} VisitEnhancedProvenance(s: WalkState, t: Tree, n: nat, project: string, file: string, k: nat)
    requires WellFormed(t) && Analyzable(t) && n <= |t|
    requires |s.enhanced| <= k < |VisitUpTo(s, t, n, project, file).enhanced|
    ensures var e := VisitUpTo(s, t, n, project, file).enhanced[k];
      e.projectName == project && e.sourceCodeFileName == file && e.severity == "Error" &&
      exists j :: 0 <= j < n && FromTestMethod(t, e, j)
    decreases n
  {
    var e := VisitUpTo(s, t, n, project, file).enhanced[k];
    if k >= |VisitUpTo(s, t, n - 1, project, file).enhanced| {
      VisitEnhancedStep(s, t, n, project, file);
      AppendedProvenance(VisitUpTo(s, t, n - 1, project, file).enhanced, VisitUpTo(s, t, n, project, file).enhanced,
        t, n - 1, project, file, k);
    } else {
      OldEntryKept(s, t, n, project, file, k);
      VisitEnhancedProvenance(s, t, n - 1, project, file, k);
      var j :| 0 <= j < n - 1 && FromTestMethod(t, e, j);
    }
  }

  /** An analysis leaves the existing enhanced diagnostics where they are. */
  lemma AnalyzeKeepsEnhanced(s: WalkState, raw: seq<Diagnostic>, methodName: string, snippet: string,
                           project: string, file: string, k: nat)
    requires k < |s.enhanced|
    ensures AnalyzeWith(s, raw, methodName, snippet, project, file).enhanced[k] == s.enhanced[k]
  {
  }

  /** A visit only appends to the enhanced list. */
  lemma {:induction false} VisitPrefix(s: WalkState, t: Tree, n: nat, project: string, file: string)
    requires WellFormed(t) && Analyzable(t) && n <= |t|
    ensures var r := VisitUpTo(s, t, n, project, file);
      |r.enhanced| >= |s.enhanced| && r.enhanced[..|s.enhanced|] == s.enhanced
    decreases n
  {
    if n > 0 {
      VisitPrefix(s, t, n - 1, project, file);
      var before := VisitUpTo(s, t, n - 1, project, file);
      if MarksTest(t, n - 1) {
        var g := Grandparent(t, n - 1);
        PrefixOfAppend(s.enhanced, before.enhanced, Enhance(MethodFindings(t, g), project, file, t[g].name, t[g].text));
      }
    }
  }

  /**
   * A method with two test markers is analysed twice: the second analysis
   * counts a second test and appends the same enhanced diagnostics again, but
   * never a second issue, since its findings are already in the found list.
   */
  lemma RepeatedAnalysisAddsNoIssue(s: WalkState, raw: seq<Diagnostic>, methodName: string, snippet: string,
                                    project: string, file: string)
    requires Consistent(s)
    ensures var s1 := AnalyzeWith(s, raw, methodName, snippet, project, file);
      var s2 := AnalyzeWith(s1, raw, methodName, snippet, project, file);
      s2.testsFound == s1.testsFound + 1 &&
      s2.testsWithIssues == s1.testsWithIssues &&
      s2.found == s1.found &&
      s2.enhanced == s1.enhanced + Enhance(raw, project, file, methodName, snippet)
  {
    var s1 := AnalyzeWith(s, raw, methodName, snippet, project, file);
    AnalyzeWithEffect(s, raw, methodName, snippet, project, file);
    UnionContainsRight(s.found, raw);
    UnionAbsorbs(s1.found, raw);
  }

  lemma UnionContainsRight<T>(a: seq<T>, b: seq<T>)
    ensures forall i :: 0 <= i < |b| ==> b[i] in Union(a, b)
  {
    forall i | 0 <= i < |b| ensures b[i] in Union(a, b) {
      InDistinct(a + b, b[i]);
      assert (a + b)[|a| + i] == b[i];
    }
  }

  lemma UnionAbsorbs<T>(a: seq<T>, b: seq<T>)
    requires NoDuplicates(a) && forall i :: 0 <= i < |b| ==> b[i] in a
    ensures Union(a, b) == a
  {
    UnionExtends(a, b);
    assert Union(a, b) == Union(a, b)[..|a|];
  }

  /**
   * On a walker that has found nothing yet, analysing a test method counts an
   * issue exactly when some node of the method is flagged by the rules.
   */
  lemma FirstAnalysisIssueIffFlagged(t: Tree, m: nat, project: string, file: string)
    requires WellFormed(t) && m < |t| && LiteralsAnchored(t, m, false)
    ensures var r := AnalyzeStep(WalkState([], [], 0, 0), t, m, project, file);
      r.testsFound == 1 &&
      (r.testsWithIssues == 1 <==> exists j :: 0 <= j < |t| && Flagged(t, m, j))
  {
    FreshAnalysisIssueIffFindings(MethodFindings(t, m), t[m].name, t[m].text, project, file);
    NoFindingsIffNothingFlagged(t, m);
  }

  lemma FreshAnalysisIssueIffFindings(raw: seq<Diagnostic>, methodName: string, snippet: string,
                                      project: string, file: string)
    ensures var r := AnalyzeWith(WalkState([], [], 0, 0), raw, methodName, snippet, project, file);
      r.testsFound == 1 && (r.testsWithIssues == 1 <==> raw != [])
  {
    AnalyzeWithEffect(WalkState([], [], 0, 0), raw, methodName, snippet, project, file);
    if raw != [] {
      assert raw[0] !in [];
    }
  }

  /**
   * A literal inside an attribute argument, such as the 1 of InlineData(1), is
   * never a magic number: its great-grandparent is the attribute, not a call.
   */
  lemma AttributeArgumentLiteralNotFlagged(t: Tree, m: nat, j: nat)
    requires WellFormed(t) && m < |t| && j < |t| && LiteralsAnchored(t, m, false)
    requires t[j].kind == NumericLiteralExpression && GreatGrandparent(t, j) >= 0
    requires t[GreatGrandparent(t, j)].kind == Attribute
    ensures !Flagged(t, m, j)
  {
  }

  /**
   * A test method none of whose nodes is flagged (an empty test, or one whose
   * only literals are attribute arguments) adds a test and nothing else.
   */
  lemma UnflaggedTestAddsNothing(s: WalkState, t: Tree, m: nat, project: string, file: string)
    requires WellFormed(t) && m < |t| && LiteralsAnchored(t, m, false) && Consistent(s)
    requires forall j :: 0 <= j < |t| ==> !Flagged(t, m, j)
    ensures var r := AnalyzeStep(s, t, m, project, file);
      r.testsFound == s.testsFound + 1 &&
      r.testsWithIssues == s.testsWithIssues && r.enhanced == s.enhanced && r.found == s.found
  {
    NoFindingsIffNothingFlagged(t, m);
    AnalyzeWithEffect(s, [], t[m].name, t[m].text, project, file);
    assert s.found + [] == s.found;
    DistinctOfNoDuplicates(s.found);
  }
}
