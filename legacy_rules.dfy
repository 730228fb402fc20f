/**
 * The first generation of rules (AnalyzerRules.UnitTestViolations): three
 * searches that append their diagnostics to a list the caller supplies. Their
 * descriptors are built per finding, with the file and method name (and, for a
 * magic number, the literal's text) written into the message.
 */
module LegacyRules {
  import opened Syntax
  import opened Descriptors
  import opened UnitTestViolations

  /** Which search built a diagnostic; a magic number also records the literal's text. */
  datatype LegacyRule = LegacyIf | LegacyForEach | LegacyMagic(literalText: string)

  /**
   * A diagnostic whose descriptor was built on the spot from the rule, the
   * file name and the method name; Descriptor() is that descriptor.
   */
  datatype ReportedDiagnostic = ReportedDiagnostic(rule: LegacyRule, file: string, methodName: string, location: Span)
  {
    function Descriptor(): Descriptor
    {
      match rule
      case LegacyIf => IfDescriptor(file, methodName)
      case LegacyForEach => ForEachDescriptor(file, methodName)
      case LegacyMagic(value) => MagicDescriptor(value, file, methodName)
    }
  }

  /** The list a caller hands in; Add appends at the end, as List<T>.Add does. */
  class DiagnosticList {
    var items: seq<ReportedDiagnostic>

    constructor()
      ensures items == []
    {
      items := [];
    }

    method Add(d: ReportedDiagnostic)
      modifies this
      ensures items == old(items) + [d]
    {
      items := items + [d];
    }
  }

  /** `s` holds `part` starting at position `at`. */
  predicate Embeds(s: string, part: string, at: nat)
  {
    at + |part| <= |s| && s[at..at + |part|] == part
  }

  function IfMessage(file: string, methodName: string): string
  {
    "Found If Statement in " + file + " - method " + methodName + ". Logic is not permitted in a unit test."
  }

  function ForEachMessage(file: string, methodName: string): string
  {
    "Found foreach Statement in " + file + " - method " + methodName + ". Logic is not permitted in a unit test."
  }

  function MagicMessage(value: string, file: string, methodName: string): string
  {
    "Found magic number '" + value + "' in " + file + " - method " + methodName + "."
    + " Magic numbers not permitted in a unit tests because their meaning is unclear."
  }

  function IfDescriptor(file: string, methodName: string): Descriptor
  {
    Descriptor("SRLCSUTL002", "Logic found in a test.", IfMessage(file, methodName),
      "Unit Testing", Error, true)
  }

  function ForEachDescriptor(file: string, methodName: string): Descriptor
  {
    Descriptor("SRLCSUTL003", "Logic found in a test.", ForEachMessage(file, methodName),
      "Unit Testing", Error, true)
  }

  function MagicDescriptor(value: string, file: string, methodName: string): Descriptor
  {
    Descriptor("SRLCSUTL004", "Magic number found in a test.", MagicMessage(value, file, methodName),
      "Unit Testing", Error, true)
  }

  /** The if message carries the file name and the method name. */
  lemma IfMessageEmbedsNames(file: string, methodName: string)
    ensures Embeds(IfMessage(file, methodName), file, 22)
    ensures Embeds(IfMessage(file, methodName), methodName, 22 + |file| + 10)
  {
    var msg := IfMessage(file, methodName);
    assert msg[22..22 + |file|] == file;
    assert msg[22 + |file| + 10..22 + |file| + 10 + |methodName|] == methodName;
  }

  /** The foreach message carries the file name and the method name. */
  lemma ForEachMessageEmbedsNames(file: string, methodName: string)
    ensures Embeds(ForEachMessage(file, methodName), file, 27)
    ensures Embeds(ForEachMessage(file, methodName), methodName, 27 + |file| + 10)
  {
    var msg := ForEachMessage(file, methodName);
    assert msg[27..27 + |file|] == file;
    assert msg[27 + |file| + 10..27 + |file| + 10 + |methodName|] == methodName;
  }

  /** The magic-number message carries the literal's text, the file name and the method name. */
  lemma MagicMessageEmbedsNames(value: string, file: string, methodName: string)
    ensures Embeds(MagicMessage(value, file, methodName), value, 20)
    ensures Embeds(MagicMessage(value, file, methodName), file, 20 + |value| + 5)
    ensures Embeds(MagicMessage(value, file, methodName), methodName, 20 + |value| + 5 + |file| + 10)
  {
    var msg := MagicMessage(value, file, methodName);
    assert msg[20..20 + |value|] == value;
    assert msg[20 + |value| + 5..20 + |value| + 5 + |file|] == file;
    assert msg[20 + |value| + 5 + |file| + 10..20 + |value| + 5 + |file| + 10 + |methodName|] == methodName;
  }

  /** What SearchForIfStatements appends: one SRLCSUTL002 diagnostic per if statement, in pre-order. */
  function IfReports(t: Tree, m: nat, file: string): seq<ReportedDiagnostic>
    requires WellFormed(t) && m < |t|
  {
    var nodes := GetListOfSyntaxNode(t, m, IfStatement);
    seq(|nodes|, i requires 0 <= i < |nodes| =>
      ReportedDiagnostic(LegacyIf, file, t[m].name, t[nodes[i]].span))
  }

  /** What SearchForForEachStatements appends: one SRLCSUTL003 diagnostic per foreach statement. */
  function ForEachReports(t: Tree, m: nat, file: string): seq<ReportedDiagnostic>
    requires WellFormed(t) && m < |t|
  {
    var nodes := GetListOfSyntaxNode(t, m, ForEachStatement);
    seq(|nodes|, i requires 0 <= i < |nodes| =>
      ReportedDiagnostic(LegacyForEach, file, t[m].name, t[nodes[i]].span))
  }

  /**
   * The literals SearchForMagicNumbers reports: numeric literals among the
   * method's descendants and itself whose great-grandparent is an invocation.
   */
  function LegacyMagicNodes(t: Tree, m: nat): (r: seq<nat>)
    requires WellFormed(t) && m < |t| && LiteralsAnchored(t, m, true)
    ensures StrictlyIncreasing(r)
    ensures forall j :: j in r <==>
      0 <= j < |t| && t[j].kind == NumericLiteralExpression && InScope(t, m, j, true) && IsCallArgument(t, j)
  {
    var lits := CollectOfKind(t, m, NumericLiteralExpression, true, |t|);
    LiteralsListAnchored(t, m, lits);
    CallArgumentsIncreasing(t, lits);
    CallArguments(t, lits)
  }

  lemma LiteralsListAnchored(t: Tree, m: nat, lits: seq<nat>)
    requires WellFormed(t) && m < |t| && LiteralsAnchored(t, m, true)
    requires lits == CollectOfKind(t, m, NumericLiteralExpression, true, |t|)
    ensures AllAnchored(t, lits)
  {
    forall i | 0 <= i < |lits| ensures lits[i] < |t| && GreatGrandparent(t, lits[i]) >= 0 {
      assert lits[i] in lits;
    }
  }

  /** What SearchForMagicNumbers appends: one SRLCSUTL004 diagnostic per reported literal, quoting its text. */
  function MagicReports(t: Tree, m: nat, file: string): seq<ReportedDiagnostic>
    requires WellFormed(t) && m < |t| && LiteralsAnchored(t, m, true)
  {
    MagicReportsAt(t, m, LegacyMagicNodes(t, m), file)
  }

  /** The reports of a list of literals, in order. */
  function MagicReportsAt(t: Tree, m: nat, nodes: seq<nat>, file: string): seq<ReportedDiagnostic>
    requires m < |t| && forall i :: 0 <= i < |nodes| ==> nodes[i] < |t|
  {
    seq(|nodes|, i requires 0 <= i < |nodes| =>
      ReportedDiagnostic(LegacyMagic(t[nodes[i]].text), file, t[m].name, t[nodes[i]].span))
  }

  /** SearchForIfStatements: appends to a non-null list, leaves its existing entries alone; a null list is skipped. */
  method SearchForIfStatements(t: Tree, m: nat, foundDiagnostics: DiagnosticList?, file: string)
    requires WellFormed(t) && m < |t|
    modifies foundDiagnostics
    ensures foundDiagnostics != null ==>
      foundDiagnostics.items == old(foundDiagnostics.items) + IfReports(t, m, file)
  {
    var ifStatements := GetListOfSyntaxNode(t, m, IfStatement);
    for i := 0 to |ifStatements|
      invariant foundDiagnostics != null ==>
        foundDiagnostics.items == old(foundDiagnostics.items) + IfReports(t, m, file)[..i]
    {
      if foundDiagnostics != null {
        foundDiagnostics.Add(ReportedDiagnostic(LegacyIf, file, t[m].name, t[ifStatements[i]].span));
        assert IfReports(t, m, file)[..i + 1] == IfReports(t, m, file)[..i] + [IfReports(t, m, file)[i]];
      }
    }
    assert IfReports(t, m, file)[..|ifStatements|] == IfReports(t, m, file);
  }

  /** SearchForForEachStatements: the same, for foreach statements. */
  method SearchForForEachStatements(t: Tree, m: nat, foundDiagnostics: DiagnosticList?, file: string)
    requires WellFormed(t) && m < |t|
    modifies foundDiagnostics
    ensures foundDiagnostics != null ==>
      foundDiagnostics.items == old(foundDiagnostics.items) + ForEachReports(t, m, file)
  {
    var forEachStatements := GetListOfSyntaxNode(t, m, ForEachStatement);
    for i := 0 to |forEachStatements|
      invariant foundDiagnostics != null ==>
        foundDiagnostics.items == old(foundDiagnostics.items) + ForEachReports(t, m, file)[..i]
    {
      if foundDiagnostics != null {
        foundDiagnostics.Add(ReportedDiagnostic(LegacyForEach, file, t[m].name, t[forEachStatements[i]].span));
        assert ForEachReports(t, m, file)[..i + 1] ==
          ForEachReports(t, m, file)[..i] + [ForEachReports(t, m, file)[i]];
      }
    }
    assert ForEachReports(t, m, file)[..|forEachStatements|] == ForEachReports(t, m, file);
  }

  /** The reports for the first i listed literals. */
  function ReportedPrefix(t: Tree, m: nat, lits: seq<nat>, i: nat, file: string): seq<ReportedDiagnostic>
    requires WellFormed(t) && m < |t| && AllAnchored(t, lits) && i <= |lits|
  {
    assert AllAnchored(t, lits[..i]) by {
      forall k | 0 <= k < i ensures lits[..i][k] < |t| && GreatGrandparent(t, lits[..i][k]) >= 0 {
        assert lits[..i][k] == lits[k];
      }
    }
    MagicReportsAt(t, m, CallArguments(t, lits[..i]), file)
  }

  /** One step of the legacy magic-number loop: the next literal is reported iff it is a call argument. */
  lemma LegacyMagicStep(t: Tree, m: nat, lits: seq<nat>, i: nat, file: string)
    requires WellFormed(t) && m < |t| && AllAnchored(t, lits) && i < |lits|
    ensures ReportedPrefix(t, m, lits, i + 1, file) ==
      ReportedPrefix(t, m, lits, i, file)
      + (if IsCallArgument(t, lits[i])
         then [ReportedDiagnostic(LegacyMagic(t[lits[i]].text), file, t[m].name, t[lits[i]].span)]
         else [])
  {
    assert lits[..i + 1] == lits[..i] + [lits[i]];
    assert AllAnchored(t, lits[..i]);
    CallArgumentsSnoc(t, lits[..i], lits[i]);
    if IsCallArgument(t, lits[i]) {
      MagicReportsAtSnoc(t, m, CallArguments(t, lits[..i]), lits[i], file);
    }
  }

  /** Once every listed literal is processed, the reports are MagicReports. */
  lemma AllLiteralsReported(t: Tree, m: nat, file: string)
    requires WellFormed(t) && m < |t| && LiteralsAnchored(t, m, true)
    ensures var lits := CollectOfKind(t, m, NumericLiteralExpression, true, |t|);
      AllAnchored(t, lits) && ReportedPrefix(t, m, lits, |lits|, file) == MagicReports(t, m, file)
  {
    var lits := CollectOfKind(t, m, NumericLiteralExpression, true, |t|);
    LiteralsListAnchored(t, m, lits);
    assert lits[..|lits|] == lits;
  }

  lemma MagicReportsAtSnoc(t: Tree, m: nat, nodes: seq<nat>, x: nat, file: string)
    requires m < |t| && x < |t| && forall i :: 0 <= i < |nodes| ==> nodes[i] < |t|
    ensures MagicReportsAt(t, m, nodes + [x], file) ==
      MagicReportsAt(t, m, nodes, file) + [ReportedDiagnostic(LegacyMagic(t[x].text), file, t[m].name, t[x].span)]
  {
  }

  /**
   * SearchForMagicNumbers: appends one diagnostic per numeric literal of the
   * method (itself included) whose great-grandparent is an invocation.
   */
  method SearchForMagicNumbers(t: Tree, m: nat, foundDiagnostics: DiagnosticList?, file: string)
    requires WellFormed(t) && m < |t| && LiteralsAnchored(t, m, true)
    modifies foundDiagnostics
    ensures foundDiagnostics != null ==>
      foundDiagnostics.items == old(foundDiagnostics.items) + MagicReports(t, m, file)
  {
    var magicNumberList := CollectOfKind(t, m, NumericLiteralExpression, true, |t|);
    AllLiteralsReported(t, m, file);
    ghost var start := if foundDiagnostics != null then foundDiagnostics.items else [];
    for i := 0 to |magicNumberList|
      invariant foundDiagnostics != null ==>
        foundDiagnostics.items == start + ReportedPrefix(t, m, magicNumberList, i, file)
    {
      ghost var before := if foundDiagnostics != null then foundDiagnostics.items else [];
      LegacyMagicStep(t, m, magicNumberList, i, file);
      ReportLiteral(t, m, magicNumberList[i], foundDiagnostics, file);
      if foundDiagnostics != null {
        AppendAssociates(start, ReportedPrefix(t, m, magicNumberList, i, file), before,
          foundDiagnostics.items, ReportedPrefix(t, m, magicNumberList, i + 1, file));
      }
    }
  }

  lemma AppendAssociates<T>(start: seq<T>, prefix: seq<T>, before: seq<T>, after: seq<T>, next: seq<T>)
    requires before == start + prefix
    requires |after| >= |before| && after[..|before|] == before
    requires next == prefix + after[|before|..]
    ensures after == start + next
  {
    assert after == after[..|before|] + after[|before|..];
  }

  /** The body of the magic-number loop: report the literal when it is a call argument. */
  method ReportLiteral(t: Tree, m: nat, literal: nat, foundDiagnostics: DiagnosticList?, file: string)
    requires WellFormed(t) && m < |t| && literal < |t| && GreatGrandparent(t, literal) >= 0
    modifies foundDiagnostics
    ensures foundDiagnostics != null ==>
      foundDiagnostics.items == old(foundDiagnostics.items)
        + (if IsCallArgument(t, literal)
           then [ReportedDiagnostic(LegacyMagic(t[literal].text), file, t[m].name, t[literal].span)]
           else [])
  {
    if IsCallArgument(t, literal) {
      var magicNumberValue := t[literal].text;
      if foundDiagnostics != null {
        foundDiagnostics.Add(ReportedDiagnostic(LegacyMagic(magicNumberValue), file, t[m].name, t[literal].span));
      }
    }
  }
}

/**
 * How the first-generation searches relate to the rule engine that replaced
 * them: the same nodes in the same order, the same ids, different messages.
 */
module LegacyRulesProperties {
  import opened Syntax
  import opened Descriptors
  import opened UnitTestViolations
  import opened LegacyRules

  /**
   * The legacy if search reports the engine's if findings: one per node, same
   * location, same id and title as IfStatementDescriptor, and a message that
   * names the file and the method.
   */
  lemma IfReportsMatchEngine(t: Tree, m: nat, file: string)
    requires WellFormed(t) && m < |t|
    ensures var legacy, engine := IfReports(t, m, file), StructuralFindings(t, m, IfStatement);
      |legacy| == |engine| &&
      forall i :: 0 <= i < |legacy| ==>
        legacy[i].location == engine[i].location &&
        legacy[i].Descriptor().id == engine[i].Id() &&
        legacy[i].Descriptor().title == engine[i].Descriptor().title &&
        Embeds(legacy[i].Descriptor().messageFormat, file, 22)
  {
    var legacy, engine := IfReports(t, m, file), StructuralFindings(t, m, IfStatement);
    var nodes := GetListOfSyntaxNode(t, m, IfStatement);
    var ld := IfDescriptor(file, t[m].name);
    IfMessageEmbedsNames(file, t[m].name);
    assert ld.id == IfStatementDescriptor.id && ld.title == IfStatementDescriptor.title;
    forall i | 0 <= i < |legacy|
      ensures legacy[i].location == engine[i].location
      ensures legacy[i].Descriptor().id == engine[i].Id()
      ensures legacy[i].Descriptor().title == engine[i].Descriptor().title
      ensures Embeds(legacy[i].Descriptor().messageFormat, file, 22)
    {
      assert legacy[i] == ReportedDiagnostic(LegacyIf, file, t[m].name, t[nodes[i]].span);
      assert legacy[i].Descriptor() == ld;
      assert engine[i] == Diagnostic(IfRule, t[nodes[i]].span);
      assert engine[i].Descriptor() == IfStatementDescriptor;
    }
  }

  /** The same for the foreach search and ForeachStatementDescriptor. */
  lemma ForEachReportsMatchEngine(t: Tree, m: nat, file: string)
    requires WellFormed(t) && m < |t|
    ensures var legacy, engine := ForEachReports(t, m, file), StructuralFindings(t, m, ForEachStatement);
      |legacy| == |engine| &&
      forall i :: 0 <= i < |legacy| ==>
        legacy[i].location == engine[i].location &&
        legacy[i].Descriptor().id == engine[i].Id() &&
        legacy[i].Descriptor().title == engine[i].Descriptor().title &&
        Embeds(legacy[i].Descriptor().messageFormat, file, 27)
  {
    var legacy, engine := ForEachReports(t, m, file), StructuralFindings(t, m, ForEachStatement);
    var nodes := GetListOfSyntaxNode(t, m, ForEachStatement);
    var ld := ForEachDescriptor(file, t[m].name);
    ForEachMessageEmbedsNames(file, t[m].name);
    assert ld.id == ForeachStatementDescriptor.id && ld.title == ForeachStatementDescriptor.title;
    forall i | 0 <= i < |legacy|
      ensures legacy[i].location == engine[i].location
      ensures legacy[i].Descriptor().id == engine[i].Id()
      ensures legacy[i].Descriptor().title == engine[i].Descriptor().title
      ensures Embeds(legacy[i].Descriptor().messageFormat, file, 27)
    {
      assert legacy[i] == ReportedDiagnostic(LegacyForEach, file, t[m].name, t[nodes[i]].span);
      assert legacy[i].Descriptor() == ld;
      assert engine[i] == Diagnostic(ForEachRule, t[nodes[i]].span);
      assert engine[i].Descriptor() == ForeachStatementDescriptor;
    }
  }

  /**
   * Searching the method itself as well as its descendants changes nothing
   * unless the searched node is itself a literal: the legacy and the engine
   * magic-number searches pick the same literals.
   */
  lemma MagicNodesMatchEngine(t: Tree, m: nat)
    requires WellFormed(t) && m < |t| && LiteralsAnchored(t, m, true)
    requires t[m].kind != NumericLiteralExpression
    ensures LiteralsAnchored(t, m, false)
    ensures LegacyMagicNodes(t, m) == MagicNumberNodes(t, m)
  {
    IncreasingUnique(LegacyMagicNodes(t, m), MagicNumberNodes(t, m));
  }

  /**
   * The legacy magic-number search reports the engine's magic findings, with
   * the same id, each recording the literal whose text its message quotes
   * (MagicMessageEmbedsNames).
   */
  lemma MagicReportsMatchEngine(t: Tree, m: nat, file: string)
    requires WellFormed(t) && m < |t| && LiteralsAnchored(t, m, true)
    requires t[m].kind != NumericLiteralExpression
    ensures LiteralsAnchored(t, m, false)
    ensures var legacy, engine := MagicReports(t, m, file), MagicNumberFindings(t, m);
      |legacy| == |engine| &&
      forall i :: 0 <= i < |legacy| ==>
        legacy[i].location == engine[i].location &&
        legacy[i].Descriptor().id == engine[i].Id() &&
        legacy[i].rule == LegacyMagic(t[MagicNumberNodes(t, m)[i]].text)
  {
    MagicNodesMatchEngine(t, m);
    var nodes := MagicNumberNodes(t, m);
    var legacy, engine := MagicReportsAt(t, m, nodes, file), AtNodes(t, nodes, MagicNumberRule);
    assert MagicReports(t, m, file) == legacy;
    assert MagicNumberFindings(t, m) == engine;
    forall i | 0 <= i < |legacy|
      ensures legacy[i].location == engine[i].location
      ensures legacy[i].Descriptor().id == engine[i].Id()
      ensures legacy[i].rule == LegacyMagic(t[nodes[i]].text)
    {
      MagicIdsAgree(legacy[i]);
    }
  }

  lemma MagicIdsAgree(d: ReportedDiagnostic)
    requires d.rule.LegacyMagic?
    ensures d.Descriptor().id == DescriptorFor(MagicNumberRule).id
  {
  }

  /** The legacy magic-number title is not the engine's. */
  lemma MagicTitlesDiffer(value: string, file: string, methodName: string)
    ensures MagicDescriptor(value, file, methodName).title != MagicNumberDescriptor.title
  {
    assert |MagicDescriptor(value, file, methodName).title| != |MagicNumberDescriptor.title|;
  }
}
