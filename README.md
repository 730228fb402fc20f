# C# Unit Test Lint, modelled in Dafny

C# Unit Test Lint looks for logic and magic numbers inside C# unit tests.
It finds test methods by their attributes, e.g. `[Fact]`, `[Theory]` or `[Test]`.
In each test it flags:
- `if` statements, `for`, `foreach` and `while` loops, `try` statements and ternary operators;
- numeric literals passed as call arguments (magic numbers).

The command-line drivers run a syntax walker over every document of a solution.
They sum the walkers' counters and print the following:
- a summary;
- a table of violations per rule and severity;
- the ten tests with the most violations.

This project models the following parts in Dafny:

- **Syntax trees** (`syntax.dfy`).
  - A compilation unit is a sequence of nodes in pre-order. The model relies only on every parent preceding its children (`WellFormed`), which any pre-order listing satisfies; it does not require subtrees to be contiguous.
  - Each node stores its kind, span, parent index, name and text.
  - Tokens are not represented. No rule selects a token: a token's kind is never a numeric-literal expression.
- **LINQ `Union`/`Distinct`** (`linq.dfy`), under value equality.
- **The seven diagnostic descriptors** (`descriptors.dfy`).
- **The rule engine** `UnitTestViolations.ProcessMethodDeclarationSyntax` (`rules.dfy`).
  - Six structural passes and one magic-number pass, merged by repeated `Union`.
  - The engine is proved sound and complete with respect to the nodes it flags.
  - It is also proved ordered by pass and by source position.
- **The first-generation rules and walker** (`legacy_rules.dfy`, `legacy_walker.dfy`).
  - They append per-file, per-method diagnostics into one shared list.
  - That list is a class with a sequence field.
- **The newer walker** `CSharpUnitTestLintWalker` (`walker.dfy`).
  - It is a class whose fields the visit updates in place.
  - Its state after a visit is specified by a function over the tree.
- **The aggregation** `GroupBy`/`Count`, stable `OrderByDescending` and `Take` (`aggregation.dfy`).
- **The two command-line drivers** (`driver.dfy`).
  - Nested project/document loops build a fresh walker per document.
  - The report is built from the accumulated totals.
- **The semantic test recogniser** `Utilities.IsTheMethodAUnitTest` (`utilities.dfy`).

The magic-number rule dereferences `Parent.Parent.Parent` after an unchecked `Contract.Assume` (CSharpUnitTestLint.AnalyzerRules.org/UnitTestViolations.cs:157-160), and the first-generation rule does so with no check at all (AnalyzerRules/UnitTestViolations.cs:72). The model therefore requires that ancestor to exist (`LiteralsAnchored`).

## Model

| member | source | states |
|---|---|---|
| Syntax.IsAncestor | CSharpUnitTestLint.AnalyzerRules.org/UnitTestViolations.cs:227 | an ancestor of a node comes before it in pre-order |
| Syntax.GreatGrandparent | CSharpUnitTestLint.AnalyzerRules.org/UnitTestViolations.cs:157-160 | the node three levels up is earlier in pre-order than the literal, or -1 when an ancestor is missing |
| Syntax.CollectOfKind | CSharpUnitTestLint.AnalyzerRules.org/UnitTestViolations.cs:222-235 | lists exactly the nodes of one kind in the method's scope, strictly increasing (pre-order), none missing |
| Syntax.CallArguments | CSharpUnitTestLint.AnalyzerRules.org/UnitTestViolations.cs:155-164 | keeps exactly the listed literals whose great-grandparent is an invocation |
| Syntax.CallArgumentsIncreasing | CSharpUnitTestLint.AnalyzerRules.org/UnitTestViolations.cs:155-164 | filtering an increasing literal list keeps it increasing |
| Syntax.IncreasingNodesInSourceOrder | CSharpUnitTestLint.AnalyzerRules.org/UnitTestViolations.cs:227 | nodes listed in pre-order have non-decreasing span starts |
| Syntax.IncreasingUnique | CSharpUnitTestLint.AnalyzerRules.org/UnitTestViolations.cs:232 | two increasing node lists with the same members are equal, so an `OfType` list is determined by its members |
| Linq.Distinct | CSharpUnitTestLint.AnalyzerRules.org/UnitTestViolations.cs:101-115 | the result has no repeats and the same elements as the input |
| Linq.InDistinct | CSharpUnitTestLint.AnalyzerRules.org/UnitTestViolations.cs:101-115 | membership in the result is membership in the input |
| Linq.DistinctOfNoDuplicates | CSharpUnitTestLint.AnalyzerRules.org/UnitTestViolations.cs:101-115 | a list without repeats passes through unchanged |
| Linq.DistinctAppend | CSharpUnitTestLint.AnalyzerRules.org/UnitTestViolations.cs:101-115 | merging in steps equals merging once, so the chain of seven `Union`s is one `Distinct` of the concatenation |
| Linq.UnionExtends | CSharpUnitTestLint.CommandLine/CSharpUnitTestLintWalker.cs:179-183 | `Union` with a repeat-free list keeps that list as its prefix; the count is unchanged iff every new element was already present |
| Linq.UnionPrefix | CSharpUnitTestLint.AnalyzerRules.org/UnitTestViolations.cs:101-115 | `Union` onto a repeat-free list keeps it as a prefix, and adds nothing iff every new element was already there |
| Linq.DistinctKeepsOrder | CSharpUnitTestLint.AnalyzerRules.org/UnitTestViolations.cs:101-115 | a list sorted by a rank stays sorted after `Distinct` |
| Descriptors.DescriptorShape | CSharpUnitTestLint.AnalyzerRules.org/Descriptors.cs:45-107 | every descriptor is an enabled Error of category "Unit Testing" with id "SRLCSUTL00" plus the rule digit |
| Descriptors.DescriptorIdsDistinct | CSharpUnitTestLint.AnalyzerRules.org/Descriptors.cs:45-107 | two rules share an id iff they are the same rule |
| Descriptors.DescriptorsDistinct | CSharpUnitTestLint.AnalyzerRules.org/Descriptors.cs:45-107 | two rules share a descriptor iff they are the same rule |
| Descriptors.IfAndForeachShareTitle | CSharpUnitTestLint.AnalyzerRules.org/Descriptors.cs:45-57 | the if and foreach descriptors have the same title and different messages |
| UnitTestViolations.SupportedDescriptors | CSharpUnitTestLint.AnalyzerRules.org/UnitTestViolations.cs:52-60 | seven entries that include every rule's descriptor |
| UnitTestViolations.SupportedDescriptorsDistinct | CSharpUnitTestLint.AnalyzerRules.org/UnitTestViolations.cs:52-60 | no descriptor is listed twice |
| UnitTestViolations.TriggerRule | CSharpUnitTestLint.AnalyzerRules.org/UnitTestViolations.cs:65-76 | no trigger kind maps to the magic-number rule |
| UnitTestViolations.TriggerDescriptorsDistinct | CSharpUnitTestLint.AnalyzerRules.org/UnitTestViolations.cs:65-76 | the map is injective: two trigger kinds share a descriptor iff they are equal, and none maps to the magic-number descriptor |
| UnitTestViolations.GetListOfSyntaxNode | CSharpUnitTestLint.AnalyzerRules.org/UnitTestViolations.cs:222-235 | a node is listed iff it is a proper descendant of the method of the requested kind; the list is in pre-order |
| UnitTestViolations.SearchForViolationsBySyntaxKind | CSharpUnitTestLint.AnalyzerRules.org/UnitTestViolations.cs:187-206 | the loop returns one diagnostic per listed node, with the mapped descriptor and the node's span |
| UnitTestViolations.MagicNumberNodes | CSharpUnitTestLint.AnalyzerRules.org/UnitTestViolations.cs:146-164 | a node is listed iff it is a descendant numeric literal whose great-grandparent is an invocation; the list is increasing |
| UnitTestViolations.SearchForMagicNumbers | CSharpUnitTestLint.AnalyzerRules.org/UnitTestViolations.cs:137-168 | the loop returns one magic-number diagnostic per listed literal, in order |
| UnitTestViolations.MethodFindings | CSharpUnitTestLint.AnalyzerRules.org/UnitTestViolations.cs:94-118 | the value the method returns; MethodFindingsCharacterized states it holds exactly the findings of flagged nodes, MethodFindingsInPassOrder that it is ordered by pass |
| UnitTestViolations.ProcessMethodDeclarationSyntax | CSharpUnitTestLint.AnalyzerRules.org/UnitTestViolations.cs:94-118 | the method returns the seven passes (if, for, try, foreach, while, ternary, magic) merged by repeated `Union` |
| UnitTestViolationsProperties.StructuralSound | CSharpUnitTestLint.AnalyzerRules.org/UnitTestViolations.cs:187-206 | every structural diagnostic sits at a flagged node of its kind |
| UnitTestViolationsProperties.StructuralComplete | CSharpUnitTestLint.AnalyzerRules.org/UnitTestViolations.cs:187-206 | every flagged structural node has its diagnostic in its pass |
| UnitTestViolationsProperties.MagicSound | CSharpUnitTestLint.AnalyzerRules.org/UnitTestViolations.cs:155-164 | every magic-number diagnostic sits at a flagged literal |
| UnitTestViolationsProperties.MagicComplete | CSharpUnitTestLint.AnalyzerRules.org/UnitTestViolations.cs:155-164 | every flagged literal has its magic-number diagnostic |
| UnitTestViolationsProperties.StructuralInAll | CSharpUnitTestLint.AnalyzerRules.org/UnitTestViolations.cs:101-112 | each structural pass contributes to the concatenated passes |
| UnitTestViolationsProperties.MethodFindingsComplete | CSharpUnitTestLint.AnalyzerRules.org/UnitTestViolations.cs:94-118 | the diagnostic of every flagged node is in the result |
| UnitTestViolationsProperties.StructuralMemberSound | CSharpUnitTestLint.AnalyzerRules.org/UnitTestViolations.cs:187-206 | a structural diagnostic is the finding of some flagged node |
| UnitTestViolationsProperties.MethodFindingsSound | CSharpUnitTestLint.AnalyzerRules.org/UnitTestViolations.cs:94-118 | every diagnostic in the result is the finding of some flagged node |
| UnitTestViolationsProperties.MethodFindingsCharacterized | CSharpUnitTestLint.AnalyzerRules.org/UnitTestViolations.cs:94-118 | a diagnostic is reported iff some flagged node of the method carries it |
| UnitTestViolationsProperties.NoFindingsIffNothingFlagged | CSharpUnitTestLint.AnalyzerRules.org/UnitTestViolations.cs:94-118 | the result is empty iff no node of the method is flagged |
| UnitTestViolationsProperties.EmptyMethodNoFindings | CSharpUnitTestLint.AnalyzerRules.org/UnitTestViolations.cs:94-118 | a method with no descendants yields no diagnostics |
| UnitTestViolationsOrder.AppendPass | CSharpUnitTestLint.AnalyzerRules.org/UnitTestViolations.cs:101-115 | appending the next pass keeps the list ordered by pass, and repeat-free when both parts are |
| UnitTestViolationsOrder.AtNodesFromPass | CSharpUnitTestLint.AnalyzerRules.org/UnitTestViolations.cs:197-203 | every diagnostic of one pass carries that pass's rule |
| UnitTestViolationsOrder.AtNodesDistinct | CSharpUnitTestLint.AnalyzerRules.org/UnitTestViolations.cs:197-203 | one pass over increasing nodes of a reported kind yields distinct diagnostics, when such nodes never share a span |
| UnitTestViolationsOrder.StructuralPass | CSharpUnitTestLint.AnalyzerRules.org/UnitTestViolations.cs:187-206 | a structural pass reports only its own rule, on every tree |
| UnitTestViolationsOrder.StructuralPassDistinct | CSharpUnitTestLint.AnalyzerRules.org/UnitTestViolations.cs:187-206 | a structural pass repeats nothing when no two nodes of a reported kind share a span |
| UnitTestViolationsOrder.MagicPass | CSharpUnitTestLint.AnalyzerRules.org/UnitTestViolations.cs:137-168 | the magic-number diagnostics all belong to the last pass, on every tree |
| UnitTestViolationsOrder.MagicPassDistinct | CSharpUnitTestLint.AnalyzerRules.org/UnitTestViolations.cs:137-168 | the magic-number pass repeats nothing when no two literals share a span |
| UnitTestViolationsOrder.StructuralPassesInOrder | CSharpUnitTestLint.AnalyzerRules.org/UnitTestViolations.cs:101-112 | the six structural passes concatenate to a list ordered by pass, on every tree |
| UnitTestViolationsOrder.StructuralPassesDistinct | CSharpUnitTestLint.AnalyzerRules.org/UnitTestViolations.cs:101-112 | the six structural passes concatenate without repeats when no two nodes of a reported kind share a span |
| UnitTestViolationsOrder.SixPasses | CSharpUnitTestLint.AnalyzerRules.org/UnitTestViolations.cs:101-112 | six passes numbered 0 to 5 concatenate in pass order, without repeats when each pass has none |
| UnitTestViolationsOrder.AllFindingsInPassOrder | CSharpUnitTestLint.AnalyzerRules.org/UnitTestViolations.cs:101-115 | the seven passes, concatenated, are in run order on every tree |
| UnitTestViolationsOrder.AllFindingsDistinct | CSharpUnitTestLint.AnalyzerRules.org/UnitTestViolations.cs:101-115 | the seven passes, concatenated, are repeat-free when no two nodes of a reported kind share a span |
| UnitTestViolationsOrder.MethodFindingsInPassOrder | CSharpUnitTestLint.AnalyzerRules.org/UnitTestViolations.cs:94-118 | the result of every method is ordered by pass: if, for, try, foreach, while, ternary, magic number |
| UnitTestViolationsOrder.UnionDropsNothing | CSharpUnitTestLint.AnalyzerRules.org/UnitTestViolations.cs:94-118 | when no two nodes of a reported kind share a span, the chained Union drops nothing: the result is the plain concatenation |
| UnitTestViolationsOrder.StructuralInSourceOrder | CSharpUnitTestLint.AnalyzerRules.org/UnitTestViolations.cs:197-203 | within a structural pass the diagnostics follow the source text |
| UnitTestViolationsOrder.MagicInSourceOrder | CSharpUnitTestLint.AnalyzerRules.org/UnitTestViolations.cs:155-164 | within the magic-number pass the diagnostics follow the source text |
| LegacyRules.DiagnosticList.constructor | CSharpUnitTestLintCommandLineAnalyzer.Roslyn/CSharpUnitTestLintWalker.cs:17 | a new list is empty |
| LegacyRules.DiagnosticList.Add | AnalyzerRules/UnitTestViolations.cs:33 | the list grows by exactly the added diagnostic at its end |
| LegacyRules.IfMessageEmbedsNames | AnalyzerRules/UnitTestViolations.cs:25-27 | the if message contains the file name at offset 22 and the method name after it |
| LegacyRules.ForEachMessageEmbedsNames | AnalyzerRules/UnitTestViolations.cs:49-51 | the foreach message contains the file name at offset 27 and the method name after it |
| LegacyRules.MagicMessageEmbedsNames | AnalyzerRules/UnitTestViolations.cs:80-83 | the magic-number message contains the literal text, then the file name, then the method name |
| LegacyRules.LegacyMagicNodes | AnalyzerRules/UnitTestViolations.cs:65-72 | a node is listed iff it is a numeric literal in the method or the method itself, with an invocation as great-grandparent; the list is increasing |
| LegacyRules.IfReports | AnalyzerRules/UnitTestViolations.cs:15-36 | what the if search appends; SearchForIfStatements is proved to append it, and IfReportsMatchEngine states it reports at the engine's places with the engine's id and title |
| LegacyRules.ForEachReports | AnalyzerRules/UnitTestViolations.cs:39-60 | what the foreach search appends; SearchForForEachStatements is proved to append it, and ForEachReportsMatchEngine ties it to the engine's foreach pass |
| LegacyRules.MagicReports | AnalyzerRules/UnitTestViolations.cs:63-94 | what the magic-number search appends; SearchForMagicNumbers is proved to append it, and MagicReportsMatchEngine ties it to the engine's magic-number pass |
| LegacyRules.SearchForIfStatements | AnalyzerRules/UnitTestViolations.cs:15-36 | a non-null list gains the if reports of the method at its end; a null list is left alone |
| LegacyRules.SearchForForEachStatements | AnalyzerRules/UnitTestViolations.cs:39-60 | a non-null list gains the foreach reports of the method at its end; a null list is left alone |
| LegacyRules.SearchForMagicNumbers | AnalyzerRules/UnitTestViolations.cs:63-94 | a non-null list gains one report per literal call argument, in order, at its end |
| LegacyRules.ReportLiteral | AnalyzerRules/UnitTestViolations.cs:72-90 | one literal adds its report iff its great-grandparent is an invocation |
| LegacyRules.AllLiteralsReported | AnalyzerRules/UnitTestViolations.cs:65-72 | reporting every collected literal in turn yields the magic reports |
| LegacyRulesProperties.IfReportsMatchEngine | AnalyzerRules/UnitTestViolations.cs:15-36 | the legacy if search reports at the same places and with the same id and title as the engine's if pass; its message names the file |
| LegacyRulesProperties.ForEachReportsMatchEngine | AnalyzerRules/UnitTestViolations.cs:39-60 | the same for the foreach search and the engine's foreach pass |
| LegacyRulesProperties.MagicNodesMatchEngine | AnalyzerRules/UnitTestViolations.cs:65-72 | for a method (not itself a literal) the legacy and engine literal selections coincide |
| LegacyRulesProperties.MagicReportsMatchEngine | AnalyzerRules/UnitTestViolations.cs:63-94 | the legacy magic reports match the engine's magic pass place by place and id by id, and carry each literal's text |
| LegacyRulesProperties.MagicIdsAgree | AnalyzerRules/UnitTestViolations.cs:80 | a legacy magic report has the engine's magic-number id |
| LegacyRulesProperties.MagicTitlesDiffer | AnalyzerRules/UnitTestViolations.cs:80 | the legacy magic title differs from the engine's |
| LintWalker.SeverityLabelsDistinct | CSharpUnitTestLint.CommandLine/CSharpUnitTestLintWalker.cs:146-162 | the severity switch gives distinct severities distinct labels |
| LintWalker.Grandparent | CSharpUnitTestLint.CommandLine/CSharpUnitTestLintWalker.cs:113 | the attribute's grandparent precedes it in pre-order |
| LintWalker.Enhance | CSharpUnitTestLint.CommandLine/CSharpUnitTestLintWalker.cs:144-175 | one enhanced diagnostic per raw diagnostic; EnhanceCarriesContext states each entry's diagnostic, context and "Error" label |
| LintWalker.EnhanceAll | CSharpUnitTestLint.CommandLine/CSharpUnitTestLintWalker.cs:144-175 | the loop builds one enhanced diagnostic per raw one, in order, with the context and the severity label |
| LintWalker.CSharpUnitTestLintWalker.constructor | CSharpUnitTestLint.CommandLine/CSharpUnitTestLintWalker.cs:44-82 | a new walker has empty lists, zero counters and the given project and file |
| LintWalker.CSharpUnitTestLintWalker.AnalyzeTestMethod | CSharpUnitTestLint.CommandLine/CSharpUnitTestLintWalker.cs:136-189 | the new state is one analysis step on the old one: enhanced diagnostics appended, findings merged by `Union`, one more test, one more issue iff the found list grew |
| LintWalker.CSharpUnitTestLintWalker.RecordFindings | CSharpUnitTestLint.CommandLine/CSharpUnitTestLintWalker.cs:177-188 | the bookkeeping after the engine runs, as in AnalyzeTestMethod |
| LintWalker.CSharpUnitTestLintWalker.VisitAttribute | CSharpUnitTestLint.CommandLine/CSharpUnitTestLintWalker.cs:99-120 | a Fact, Test, TestCase, TestCaseSource or Theory attribute analyses its grandparent; any other attribute changes nothing |
| LintWalker.CSharpUnitTestLintWalker.Visit | CSharpUnitTestLint.CommandLine/CSharpUnitTestLintWalker.cs:99-120 | walking the compilation unit in pre-order leaves the state the visit function gives |
| LintWalkerProperties.AnalyzeWithEffect | CSharpUnitTestLint.CommandLine/CSharpUnitTestLintWalker.cs:136-189 | an analysis keeps issues <= tests and the found list repeat-free; it counts one test, appends one enhanced entry per raw diagnostic, and counts an issue iff some raw diagnostic was new |
| LintWalkerProperties.EnhanceCarriesContext | CSharpUnitTestLint.CommandLine/CSharpUnitTestLintWalker.cs:164-172 | each enhanced diagnostic holds its raw diagnostic, project, file, method name, snippet and the "Error" label |
| LintWalkerProperties.VisitCounts | CSharpUnitTestLint.CommandLine/CSharpUnitTestLintWalker.cs:99-189 | a visit counts one test per marker and at most one issue per marker, keeping issues <= tests |
| LintWalkerProperties.VisitKeepsIssuesBelowTests | CSharpUnitTestLint.CommandLine/CSharpUnitTestLintWalker.cs:183-188 | after a visit, 0 <= tests with issues <= tests found |
| LintWalkerProperties.VisitEnhancedCount | CSharpUnitTestLint.CommandLine/CSharpUnitTestLintWalker.cs:142-177 | a visit appends as many enhanced diagnostics as the engine reports over all marked methods |
| LintWalkerProperties.NoMarkersNoChange | CSharpUnitTestLint.CommandLine/CSharpUnitTestLintWalker.cs:103-117 | a file without test attributes leaves the walker unchanged |
| LintWalkerProperties.AnalyzeWithProvenance | CSharpUnitTestLint.CommandLine/CSharpUnitTestLintWalker.cs:164-177 | each entry an analysis appends wraps one of the engine's diagnostics and carries the context |
| LintWalkerProperties.VisitEnhancedProvenance | CSharpUnitTestLint.CommandLine/CSharpUnitTestLintWalker.cs:99-177 | every enhanced entry comes from an engine diagnostic of a marked test method, whose name and text it records |
| LintWalkerProperties.AnalyzeKeepsEnhanced | CSharpUnitTestLint.CommandLine/CSharpUnitTestLintWalker.cs:177 | an analysis leaves existing enhanced entries in place |
| LintWalkerProperties.VisitPrefix | CSharpUnitTestLint.CommandLine/CSharpUnitTestLintWalker.cs:177 | a visit only appends to the enhanced list |
| LintWalkerProperties.RepeatedAnalysisAddsNoIssue | CSharpUnitTestLint.CommandLine/CSharpUnitTestLintWalker.cs:177-188 | analysing a method a second time adds a test and duplicates its enhanced entries, but adds no issue and no finding |
| LintWalkerProperties.FirstAnalysisIssueIffFlagged | CSharpUnitTestLint.CommandLine/CSharpUnitTestLintWalker.cs:136-189 | on a fresh walker, a test counts as having issues iff some node of it is flagged |
| LintWalkerProperties.FreshAnalysisIssueIffFindings | CSharpUnitTestLint.CommandLine/CSharpUnitTestLintWalker.cs:179-188 | on a fresh walker, an issue is counted iff the engine reported anything |
| LintWalkerProperties.AttributeArgumentLiteralNotFlagged | CSharpUnitTestLint.AnalyzerRules.org/UnitTestViolations.cs:160 | a literal argument of an attribute such as `InlineData(1)` is not a magic number |
| LintWalkerProperties.UnflaggedTestAddsNothing | CSharpUnitTestLint.CommandLine/CSharpUnitTestLintWalker.cs:136-189 | a test with nothing flagged adds one test and changes nothing else |
| LegacyLintWalker.CSharpUnitTestLintWalker.constructor | CSharpUnitTestLintCommandLineAnalyzer.Roslyn/CSharpUnitTestLintWalker.cs:12-19 | a new walker has zero counters and an empty, fresh list |
| LegacyLintWalker.CSharpUnitTestLintWalker.AnalyzeTest | CSharpUnitTestLintCommandLineAnalyzer.Roslyn/CSharpUnitTestLintWalker.cs:41-57 | the new state is the old list plus the if, foreach and magic reports, one more test, and one more issue iff the list grew |
| LegacyLintWalker.CSharpUnitTestLintWalker.CountAnalysis | CSharpUnitTestLintCommandLineAnalyzer.Roslyn/CSharpUnitTestLintWalker.cs:51-56 | counts the test, and counts an issue iff the list grew |
| LegacyLintWalker.CSharpUnitTestLintWalker.VisitAttribute | CSharpUnitTestLintCommandLineAnalyzer.Roslyn/CSharpUnitTestLintWalker.cs:22-39 | a Theory or Fact attribute analyses its grandparent; any other attribute changes nothing |
| LegacyLintWalker.CSharpUnitTestLintWalker.Visit | CSharpUnitTestLintCommandLineAnalyzer.Roslyn/CSharpUnitTestLintWalker.cs:22-39 | walking the compilation unit leaves the state the visit function gives |
| LegacyLintWalkerProperties.AnalyzeWithEffect | CSharpUnitTestLintCommandLineAnalyzer.Roslyn/CSharpUnitTestLintWalker.cs:45-56 | an analysis counts one test, keeps the list's entries, and counts an issue iff something was appended |
| LegacyLintWalkerProperties.VisitCounts | CSharpUnitTestLintCommandLineAnalyzer.Roslyn/CSharpUnitTestLintWalker.cs:22-57 | a visit counts one test per Theory/Fact marker and at most one issue per marker, keeping issues <= tests |
| LegacyLintWalkerProperties.VisitOnlyAppends | CSharpUnitTestLintCommandLineAnalyzer.Roslyn/CSharpUnitTestLintWalker.cs:17 | the found list is never cleared; a visit keeps every earlier entry |
| LegacyLintWalkerProperties.TestMarkerOnlyInNewerWalker | CSharpUnitTestLintCommandLineAnalyzer.Roslyn/CSharpUnitTestLintWalker.cs:28-31 | NUnit's Test marks a test only for the newer walker; every legacy marker is also a newer marker |
| Aggregation.Take | CSharpUnitTestLint.CommandLineAnalyzer/Program.cs:96 | at most n elements, a prefix of the input, all of it when it is shorter |
| AggregationProperties.AddKeyKeys | CSharpUnitTestLint.CommandLineAnalyzer/Program.cs:79-80 | counting a key keeps the key order and appends a new key at the end |
| AggregationProperties.AddKeyAt | CSharpUnitTestLint.CommandLineAnalyzer/Program.cs:79-85 | counting a key adds one to its group and leaves other groups alone |
| AggregationProperties.AddKeyNew | CSharpUnitTestLint.CommandLineAnalyzer/Program.cs:79-85 | an unseen key opens a new group of count 1 at the end |
| AggregationProperties.TotalOfAddKey | CSharpUnitTestLint.CommandLineAnalyzer/Program.cs:81-85 | counting one key raises the total by one |
| Aggregation.GroupBy | CSharpUnitTestLint.CommandLineAnalyzer/Program.cs:79-85 | at most one group per key, and no groups iff no keys; GroupByKeys, GroupByCounts and GroupByTotal characterise it fully |
| Aggregation.InsertDescending | CSharpUnitTestLint.CommandLineAnalyzer/Program.cs:86 | one more element than the list it inserts into; InsertDescendingSorted, InsertDescendingPermutes and InsertDescendingStable characterise it fully |
| Aggregation.OrderByCountDescending | CSharpUnitTestLint.CommandLineAnalyzer/Program.cs:86 | as many groups out as in; OrderByCountDescendingSorts characterises it as the stable descending sort |
| AggregationProperties.GroupByKeys | CSharpUnitTestLint.CommandLineAnalyzer/Program.cs:79-80 | the group keys are the distinct input keys in order of first occurrence |
| AggregationProperties.GroupByCounts | CSharpUnitTestLint.CommandLineAnalyzer/Program.cs:81-85 | each group's count is the number of occurrences of its key |
| AggregationProperties.GroupByTotal | CSharpUnitTestLint.CommandLineAnalyzer/Program.cs:79-85 | counts are at least 1 and add up to the number of findings |
| AggregationProperties.InsertDescendingSorted | CSharpUnitTestLint.CommandLineAnalyzer/Program.cs:86 | inserting into a descending list keeps it descending |
| AggregationProperties.InsertDescendingPermutes | CSharpUnitTestLint.CommandLineAnalyzer/Program.cs:86 | insertion adds exactly the inserted group |
| AggregationProperties.InsertDescendingStable | CSharpUnitTestLint.CommandLineAnalyzer/Program.cs:86 | the inserted group goes before the others of its count |
| AggregationProperties.OrderByCountDescendingSorts | CSharpUnitTestLint.CommandLineAnalyzer/Program.cs:86 | the sort is descending by count, a permutation, and stable among equal counts |
| AggregationProperties.OrderByCountDescendingKeepsGroups | CSharpUnitTestLint.CommandLineAnalyzer/Program.cs:86 | the sort keeps the total, the key set and distinctness of keys |
| AggregationProperties.TopTen | CSharpUnitTestLint.CommandLineAnalyzer/Program.cs:88-96 | the top list has at most ten groups, is a sorted prefix, and no dropped group outranks a kept one |
| LintDriver.AnalyzeDocument | CSharpUnitTestLint.CommandLine/SolutionDriver.cs:74-92 | the state of a fresh walker for the document after its visit; DocumentCounts states its counters: the document's markers as tests, issues <= tests |
| LintDriver.AccumulateDocuments | CSharpUnitTestLint.CommandLine/SolutionDriver.cs:72-93 | the running totals over a project's documents; DocumentsCounts, DocumentsPrefix and DocumentsProvenance state that tests add up, that it only appends, and where each entry comes from |
| LintDriver.AccumulateProjects | CSharpUnitTestLint.CommandLine/SolutionDriver.cs:70-94 | the running totals over all projects; SolutionCounts and SolutionProvenance state that tests equal every document's markers and that each entry carries its project, file and "Error" label |
| LintDriver.IdAndSeverityKey | CSharpUnitTestLint.CommandLineAnalyzer/Program.cs:80 | the key of the rule-and-severity table; IdAndSeverityKeySeparates states that equal keys mean equal id and equal severity |
| LintDriver.MethodNames | CSharpUnitTestLint.CommandLineAnalyzer/Program.cs:89 | the key list of the top-tests table; SameNamedTestsMerge shows it merges same-named tests of different files |
| LintDriver.Summarize | CSharpUnitTestLint.CommandLineAnalyzer/Program.cs:79-115 | the report, with the corrected percentage `IssuePercentage` in place of the printed quotient; SummarizeTables and SolutionReport state its figures and the properties of both tables |
| LintDriver.AnalyzeOneDocument | CSharpUnitTestLint.CommandLine/SolutionDriver.cs:74-92 | a fresh walker for the document adds its findings and counters to the totals |
| LintDriver.AccumulateSolution | CSharpUnitTestLint.CommandLineAnalyzer/Program.cs:53-77 | the nested loops produce the totals of every project's documents in order |
| LintDriver.IssuePercentage | CSharpUnitTestLint.CommandLine/SolutionDriver.cs:131-132 | corrected: the floor of 100 * issues / tests, at most 100, exactly 100 iff every test has issues, 0 without tests |
| LintDriver.RawPercentage | CSharpUnitTestLint.CommandLineAnalyzer/Program.cs:114-115 | as written: throws iff no test was found; otherwise the floor of issues / tests |
| LintDriverProperties.DocumentCounts | CSharpUnitTestLint.CommandLine/SolutionDriver.cs:76-87 | one document's walker counts its markers and no more issues than tests |
| LintDriverProperties.DocumentsCounts | CSharpUnitTestLint.CommandLine/SolutionDriver.cs:72-93 | the tests of a project's documents add to the total, and issues stay below tests |
| LintDriverProperties.DocumentsPrefix | CSharpUnitTestLint.CommandLine/SolutionDriver.cs:89 | earlier findings stay in front: the accumulation only appends |
| LintDriverProperties.SolutionCounts | CSharpUnitTestLint.CommandLineAnalyzer/Program.cs:53-77 | the total tests are the test attributes of all documents, and 0 <= issues <= tests |
| LintDriverProperties.DocumentsProvenance | CSharpUnitTestLint.CommandLine/SolutionDriver.cs:76-89 | each finding of a project carries that project's name and the file name of one of its documents |
| LintDriverProperties.SolutionProvenance | CSharpUnitTestLint.CommandLineAnalyzer/Program.cs:53-77 | each finding carries the names of a project and of one of its documents, and the "Error" label |
| LintDriverProperties.SummarizeTables | CSharpUnitTestLint.CommandLineAnalyzer/Program.cs:79-96 | rule/severity groups have distinct keys, counts >= 1 summing to the number of findings, descending order; the top list has at most ten entries, descending |
| LintDriverProperties.SolutionReport | CSharpUnitTestLint.CommandLine/SolutionDriver.cs:96-132 | the report counts the solution's test attributes, issues <= tests, percentage <= 100, group counts sum to the findings, at most ten top tests |
| LintDriverProperties.IdAndSeverityKeySeparates | CSharpUnitTestLint.CommandLineAnalyzer/Program.cs:80 | two entries share a rule-and-severity key iff they share the rule id and the severity label |
| LintDriverProperties.SameNamedTestsMerge | CSharpUnitTestLint.CommandLine/SolutionDriver.cs:105-111 | findings of same-named tests in two files share one top-tests row |
| LintDriverProperties.RawPercentageIsZeroOrOne | CSharpUnitTestLint.CommandLine/SolutionDriver.cs:131-132 | as written the printed figure is 1 when every test has issues, 0 otherwise, and throws without tests |
| LintDriverProperties.RawPercentageCounterexamples | CSharpUnitTestLint.CommandLineAnalyzer/Program.cs:114-115 | one issue in two tests prints 0 where 50 is meant; no tests throws where 0 is meant |
| CommandLineProgram.SolutionPath | CSharpUnitTestLint.CommandLineAnalyzer/Program.cs:27-39 | the path is the only argument when exactly one is given, else the default solution |
| CommandLineProgram.Run | CSharpUnitTestLint.CommandLineAnalyzer/Program.cs:25-115 | opens the solution at that path (None if the workspace cannot) and yields the solution's report |
| SolutionDriver.Analyze | CSharpUnitTestLint.CommandLine/SolutionDriver.cs:33-132 | the first loop changes nothing; the result is the solution's report |
| Utilities.IsTheMethodAUnitTest | CSharpUnitTestLint.AnalyzerRules/Utilities.cs:44-59 | true iff some attribute class name is exactly "FactAttribute" |
| UtilitiesProperties.OnlyTheNamesMatter | CSharpUnitTestLint.AnalyzerRules/Utilities.cs:50-56 | the answer depends only on which names occur, not on their order or multiplicity |
| UtilitiesProperties.OnlyFactIsATest | CSharpUnitTestLint.AnalyzerRules/Utilities.cs:44-59 | no attributes, Theory only, NUnit Test only or the short name "Fact" give false; Theory plus FactAttribute gives true |
| UtilitiesProperties.MoreAttributesKeepATest | CSharpUnitTestLint.AnalyzerRules/Utilities.cs:50-56 | adding attributes on either side never turns a test into a non-test |

## Left out

- Parsing C# into syntax trees is not modelled. A tree is given as a value, along with node names and texts.
  - `DescendantNodesAndTokens` is modelled by nodes only.
- Opening the solution through MSBuild is not modelled. The workspace is a map from path to loaded solution.
  - `CommandLineProgram.Run` returns `None` for a path the map lacks.
- Console output is not modelled.
  - The `Report` datatype holds the printed figures, tables and details.
  - The hard-coded "Rules Used In Analysis" lines are not modelled, including their misspelt ids `SRLCDUTL00x`.
- The Visual Studio analyzer (`CSharpUnitTestLintVisualStudioAnalyzer.cs`) is not part of this model. Neither are the semantic model and symbol lookup.
  - `Utilities.IsTheMethodAUnitTest` takes the attribute class names directly.
- Counters are unbounded integers: the 32-bit overflow of `int` is not modelled.
- Null dereferences are modelled as `requires`: each marker's grandparent must be a method declaration (`Analyzable`, `LegacyAnalyzable`), and each literal must have a great-grandparent (`LiteralsAnchored`).
  - In the source these cases end the run with a `NullReferenceException`.
- The newer walker runs the rule engine twice per test method. The model assumes the second run returns what the first did.
  - The engine is a deterministic function of the tree.
- `EnhancedDiagnostic` compares by reference in C#, so the drivers' `Union` of fresh objects is modelled as concatenation.
- `LintDriver.Summarize`: its `percentage` field is the corrected `IssuePercentage`, not the printed quotient `numberOfTestsWithIssues / numberOfTestsFound`. That quotient is 0 or 1 and throws when no test is found; `RawPercentage` models it (see Findings).
- `CommandLineProgram.Run`: computes the corrected percentage `IssuePercentage`. The as-written quotient and its exception are modelled separately by `RawPercentage` (see Findings).
- `SolutionDriver.Analyze`: computes the corrected percentage `IssuePercentage`. The as-written quotient and its exception are modelled separately by `RawPercentage` (see Findings).
  - Its first project/document loop only fetches each tree, and is modelled as a loop that keeps nothing.
- `CSharpUnitTestLintCommandLineAnalyzer.Roslyn/Program.cs` is not part of this model, including its floating-point percentage. It is console glue around the first-generation walker.
- The legacy walker's public `FoundDiagnostics` field is modelled as a constant reference to a list object. Its contents change; the reference is never reassigned.
  - The source never reassigns that field.

## Findings

| source | as written | input that shows it | evidently intended | confidence | as-written member | corrected member |
|---|---|---|---|---|---|---|
| CSharpUnitTestLint.CommandLineAnalyzer/Program.cs:114-115 | the figure printed before "%" is `numberOfTestsWithIssues / numberOfTestsFound`, an integer division | 1 test with issues out of 2 tests prints "1 - 0%" | the percentage 100 * issues / tests, here 50 | high (not executed) | LintDriverProperties.RawPercentageCounterexamples | LintDriver.IssuePercentage |
| CSharpUnitTestLint.CommandLine/SolutionDriver.cs:131-132 | the same division, unguarded | a solution with no test methods: 0 / 0 throws `DivideByZeroException` before the tables are printed | a report with 0% when there are no tests | high (not executed) | LintDriverProperties.RawPercentageIsZeroOrOne | LintDriver.IssuePercentage |
