/**
 * The rule engine (CSharpUnitTestLint.AnalyzerRules.UnitTestViolations):
 * given one method declaration, the diagnostics for the logic and the magic
 * numbers found in it, merged with LINQ Union.
 */
module UnitTestViolations {
  import opened Syntax
  import opened Descriptors
  import opened Linq

  /** The descriptors the analyzer supports, in the order the class lists them. */
  function SupportedDescriptors(): (r: seq<Descriptor>)
    ensures |r| == 7
    ensures forall rule :: DescriptorFor(rule) in r
    ensures forall i :: 0 <= i < |r| ==> r[i] == DescriptorFor(SupportedRules[i])
  {
    [ForLoopStatementDescriptor, ForeachStatementDescriptor, IfStatementDescriptor,
     MagicNumberDescriptor, TernaryOperatorStatementDescriptor,
     TryCatchStatementDescriptor, WhileLoopStatementDescriptor]
  }

  /** The rules behind SupportedDescriptors, position by position. */
  const SupportedRules: seq<Rule> :=
    [ForLoopRule, ForEachRule, IfRule, MagicNumberRule, TernaryRule, TryCatchRule, WhileLoopRule]

  /** No descriptor is listed twice: exactly one entry per rule. */
  lemma SupportedDescriptorsDistinct()
    ensures NoDuplicates(SupportedDescriptors())
  {
    var r := SupportedDescriptors();
    forall i, j | 0 <= i < j < |r| ensures r[i] != r[j] {
      DescriptorIdsDistinct(SupportedRules[i], SupportedRules[j]);
    }
  }

  /**
   * The dictionary the constructor builds from trigger syntax kind to
   * descriptor, as a lookup: IsTrigger says which kinds are keys, TriggerRule
   * names the descriptor of a key by its rule.
   */
  predicate IsTrigger(k: SyntaxKind)
  {
    k == ForStatement || k == ForEachStatement || k == IfStatement ||
    k == ConditionalExpression || k == TryStatement || k == WhileStatement
  }

  function TriggerRule(k: SyntaxKind): (r: Rule)
    requires IsTrigger(k)
    ensures r != MagicNumberRule
  {
    if k == ForStatement then ForLoopRule
    else if k == ForEachStatement then ForEachRule
    else if k == IfStatement then IfRule
    else if k == ConditionalExpression then TernaryRule
    else if k == TryStatement then TryCatchRule
    else WhileLoopRule
  }

  /**
   * No two trigger kinds share a descriptor, and the magic-number descriptor,
   * which has no trigger kind, is the one rule left out.
   */
  lemma TriggerDescriptorsDistinct(k1: SyntaxKind, k2: SyntaxKind)
    requires IsTrigger(k1) && IsTrigger(k2)
    ensures DescriptorFor(TriggerRule(k1)) == DescriptorFor(TriggerRule(k2)) <==> k1 == k2
    ensures DescriptorFor(TriggerRule(k1)) != MagicNumberDescriptor
  {
    DescriptorsDistinct(TriggerRule(k1), TriggerRule(k2));
    DescriptorsDistinct(TriggerRule(k1), MagicNumberRule);
  }

  /** GetListOfSyntaxNode<T>: the descendants of kind k of method m, in pre-order. */
  function GetListOfSyntaxNode(t: Tree, m: nat, k: SyntaxKind): (r: seq<nat>)
    requires WellFormed(t) && m < |t|
    ensures StrictlyIncreasing(r)
    ensures forall j :: j in r <==> 0 <= j < |t| && t[j].kind == k && IsAncestor(t, m, j)
  {
    CollectOfKind(t, m, k, false, |t|)
  }

  /** One diagnostic of rule d per listed node, at the node's own span. */
  function AtNodes(t: Tree, nodes: seq<nat>, d: Rule): seq<Diagnostic>
    requires forall i :: 0 <= i < |nodes| ==> nodes[i] < |t|
  {
    seq(|nodes|, i requires 0 <= i < |nodes| => Diagnostic(d, t[nodes[i]].span))
  }

  lemma AtNodesSnoc(t: Tree, nodes: seq<nat>, x: nat, d: Rule)
    requires forall i :: 0 <= i < |nodes| ==> nodes[i] < |t|
    requires x < |t|
    ensures AtNodes(t, nodes + [x], d) == AtNodes(t, nodes, d) + [Diagnostic(d, t[x].span)]
  {
  }

  /** What one structural pass reports for trigger kind k. */
  function StructuralFindings(t: Tree, m: nat, k: SyntaxKind): seq<Diagnostic>
    requires WellFormed(t) && m < |t| && IsTrigger(k)
  {
    AtNodes(t, GetListOfSyntaxNode(t, m, k), TriggerRule(k))
  }

  /** SearchForViolationsByCSharpSyntaxNode<T>: one diagnostic per node of kind k, in pre-order. */
  method SearchForViolationsBySyntaxKind(t: Tree, m: nat, k: SyntaxKind) returns (found: seq<Diagnostic>)
    requires WellFormed(t) && m < |t| && IsTrigger(k)
    ensures found == StructuralFindings(t, m, k)
  {
    var nodes := GetListOfSyntaxNode(t, m, k);
    found := [];
    for i := 0 to |nodes|
      invariant found == AtNodes(t, nodes[..i], TriggerRule(k))
    {
      assert nodes[..i + 1] == nodes[..i] + [nodes[i]];
      AtNodesSnoc(t, nodes[..i], nodes[i], TriggerRule(k));
      found := found + [Diagnostic(TriggerRule(k), t[nodes[i]].span)];
    }
    assert nodes[..|nodes|] == nodes;
  }

  /** The numeric literals of method m whose great-grandparent is an invocation, in pre-order. */
  function MagicNumberNodes(t: Tree, m: nat): (r: seq<nat>)
    requires WellFormed(t) && m < |t| && LiteralsAnchored(t, m, false)
    ensures StrictlyIncreasing(r)
    ensures forall j :: j in r <==>
      0 <= j < |t| && t[j].kind == NumericLiteralExpression && IsAncestor(t, m, j) && IsCallArgument(t, j)
  {
    var lits := GetListOfSyntaxNode(t, m, NumericLiteralExpression);
    CallArgumentsIncreasing(t, lits);
    CallArguments(t, lits)
  }

  /** What the magic-number pass reports. */
  function MagicNumberFindings(t: Tree, m: nat): seq<Diagnostic>
    requires WellFormed(t) && m < |t| && LiteralsAnchored(t, m, false)
  {
    AtNodes(t, MagicNumberNodes(t, m), MagicNumberRule)
  }

  /** The literals the magic-number pass walks all have a great-grandparent. */
  lemma ListedLiteralsAnchored(t: Tree, m: nat)
    requires WellFormed(t) && m < |t| && LiteralsAnchored(t, m, false)
    ensures AllAnchored(t, GetListOfSyntaxNode(t, m, NumericLiteralExpression))
  {
    var lits := GetListOfSyntaxNode(t, m, NumericLiteralExpression);
    forall i | 0 <= i < |lits| ensures lits[i] < |t| && GreatGrandparent(t, lits[i]) >= 0 {
      assert lits[i] in lits;
    }
  }

  /** One step of the magic-number loop: the next literal is reported iff it is a call argument. */
  lemma MagicNumberStep(t: Tree, lits: seq<nat>, i: nat)
    requires WellFormed(t) && AllAnchored(t, lits) && i < |lits|
    ensures AllAnchored(t, lits[..i]) && AllAnchored(t, lits[..i + 1])
    ensures AtNodes(t, CallArguments(t, lits[..i + 1]), MagicNumberRule) ==
      AtNodes(t, CallArguments(t, lits[..i]), MagicNumberRule)
      + (if IsCallArgument(t, lits[i]) then [Diagnostic(MagicNumberRule, t[lits[i]].span)] else [])
  {
    assert lits[..i + 1] == lits[..i] + [lits[i]];
    CallArgumentsSnoc(t, lits[..i], lits[i]);
    if IsCallArgument(t, lits[i]) {
      AtNodesSnoc(t, CallArguments(t, lits[..i]), lits[i], MagicNumberRule);
    }
  }

  /** SearchForMagicNumbers: one MagicNumber diagnostic per literal passed as a call argument. */
  method SearchForMagicNumbers(t: Tree, m: nat) returns (found: seq<Diagnostic>)
    requires WellFormed(t) && m < |t| && LiteralsAnchored(t, m, false)
    ensures found == MagicNumberFindings(t, m)
  {
    var literals := GetListOfSyntaxNode(t, m, NumericLiteralExpression);
    ListedLiteralsAnchored(t, m);
    found := [];
    for i := 0 to |literals|
      invariant AllAnchored(t, literals[..i])
      invariant found == AtNodes(t, CallArguments(t, literals[..i]), MagicNumberRule)
    {
      MagicNumberStep(t, literals, i);
      if t[GreatGrandparent(t, literals[i])].kind == InvocationExpression {
        found := found + [Diagnostic(MagicNumberRule, t[literals[i]].span)];
      }
    }
    assert literals[..|literals|] == literals;
  }

  /** The seven passes concatenated, in the order the method runs them. */
  function AllFindings(t: Tree, m: nat): seq<Diagnostic>
    requires WellFormed(t) && m < |t| && LiteralsAnchored(t, m, false)
  {
    StructuralFindings(t, m, IfStatement)
    + StructuralFindings(t, m, ForStatement)
    + StructuralFindings(t, m, TryStatement)
    + StructuralFindings(t, m, ForEachStatement)
    + StructuralFindings(t, m, WhileStatement)
    + StructuralFindings(t, m, ConditionalExpression)
    + MagicNumberFindings(t, m)
  }

  /** The value ProcessMethodDeclarationSyntax returns: the passes merged by repeated Union. */
  function MethodFindings(t: Tree, m: nat): seq<Diagnostic>
    requires WellFormed(t) && m < |t| && LiteralsAnchored(t, m, false)
  {
    Distinct(AllFindings(t, m))
  }

  /** ProcessMethodDeclarationSyntax: six structural passes, then the magic-number pass. */
  method ProcessMethodDeclarationSyntax(t: Tree, m: nat) returns (found: seq<Diagnostic>)
    requires WellFormed(t) && m < |t| && LiteralsAnchored(t, m, false)
    ensures found == MethodFindings(t, m)
  {
    found := [];
    var ifs := SearchForViolationsBySyntaxKind(t, m, IfStatement);
    assert found + ifs == ifs;
    found := Union(found, ifs);
    var fors := SearchForViolationsBySyntaxKind(t, m, ForStatement);
    DistinctAppend(ifs, fors);
    found := Union(found, fors);
    var tries := SearchForViolationsBySyntaxKind(t, m, TryStatement);
    DistinctAppend(ifs + fors, tries);
    found := Union(found, tries);
    var foreaches := SearchForViolationsBySyntaxKind(t, m, ForEachStatement);
    DistinctAppend(ifs + fors + tries, foreaches);
    found := Union(found, foreaches);
    var whiles := SearchForViolationsBySyntaxKind(t, m, WhileStatement);
    DistinctAppend(ifs + fors + tries + foreaches, whiles);
    found := Union(found, whiles);
    var ternaries := SearchForViolationsBySyntaxKind(t, m, ConditionalExpression);
    DistinctAppend(ifs + fors + tries + foreaches + whiles, ternaries);
    found := Union(found, ternaries);
    var magic := SearchForMagicNumbers(t, m);
    DistinctAppend(ifs + fors + tries + foreaches + whiles + ternaries, magic);
    found := Union(found, magic);
  }
}

/** What the rule engine's result means, stated over the tree. */
module UnitTestViolationsProperties {
  import opened Syntax
  import opened Descriptors
  import opened Linq
  import opened UnitTestViolations

  /** Node j of method m is one the engine reports: a structural trigger, or a literal call argument. */
  predicate Flagged(t: Tree, m: nat, j: nat)
    requires WellFormed(t) && m < |t| && j < |t| && LiteralsAnchored(t, m, false)
  {
    IsAncestor(t, m, j) &&
    (IsTrigger(t[j].kind) || (t[j].kind == NumericLiteralExpression && IsCallArgument(t, j)))
  }

  /** The diagnostic the engine reports for a flagged node: its rule's descriptor, its own span. */
  function FindingAt(t: Tree, j: nat): Diagnostic
    requires j < |t|
  {
    var d := if IsTrigger(t[j].kind) then TriggerRule(t[j].kind) else MagicNumberRule;
    Diagnostic(d, t[j].span)
  }

  /** Every structural finding sits at a flagged node of its kind. */
  lemma StructuralSound(t: Tree, m: nat, k: SyntaxKind, i: nat)
    requires WellFormed(t) && m < |t| && IsTrigger(k) && LiteralsAnchored(t, m, false)
    requires i < |StructuralFindings(t, m, k)|
    ensures var j := GetListOfSyntaxNode(t, m, k)[i];
      j < |t| && Flagged(t, m, j) && t[j].kind == k && StructuralFindings(t, m, k)[i] == FindingAt(t, j)
  {
    var nodes := GetListOfSyntaxNode(t, m, k);
    assert nodes[i] in nodes;
  }

  /** Every flagged node of a structural kind has its finding in that pass. */
  lemma StructuralComplete(t: Tree, m: nat, j: nat)
    requires WellFormed(t) && m < |t| && j < |t| && LiteralsAnchored(t, m, false)
    requires Flagged(t, m, j) && IsTrigger(t[j].kind)
    ensures FindingAt(t, j) in StructuralFindings(t, m, t[j].kind)
  {
    var nodes := GetListOfSyntaxNode(t, m, t[j].kind);
    assert j in nodes;
    var i :| 0 <= i < |nodes| && nodes[i] == j;
    assert StructuralFindings(t, m, t[j].kind)[i] == FindingAt(t, j);
  }

  /** Every magic-number finding sits at a flagged literal. */
  lemma MagicSound(t: Tree, m: nat, i: nat)
    requires WellFormed(t) && m < |t| && LiteralsAnchored(t, m, false)
    requires i < |MagicNumberFindings(t, m)|
    ensures var j := MagicNumberNodes(t, m)[i];
      j < |t| && Flagged(t, m, j) && t[j].kind == NumericLiteralExpression
      && MagicNumberFindings(t, m)[i] == FindingAt(t, j)
  {
    var nodes := MagicNumberNodes(t, m);
    assert nodes[i] in nodes;
    assert !IsTrigger(NumericLiteralExpression);
  }

  /** Every flagged literal has its finding in the magic-number pass. */
  lemma MagicComplete(t: Tree, m: nat, j: nat)
    requires WellFormed(t) && m < |t| && j < |t| && LiteralsAnchored(t, m, false)
    requires Flagged(t, m, j) && t[j].kind == NumericLiteralExpression
    ensures FindingAt(t, j) in MagicNumberFindings(t, m)
  {
    var nodes := MagicNumberNodes(t, m);
    assert j in nodes;
    var i :| 0 <= i < |nodes| && nodes[i] == j;
    assert !IsTrigger(NumericLiteralExpression);
    assert MagicNumberFindings(t, m)[i] == FindingAt(t, j);
  }

  /** Each structural pass contributes to the concatenated passes. */
  lemma StructuralInAll(t: Tree, m: nat, k: SyntaxKind, x: Diagnostic)
    requires WellFormed(t) && m < |t| && LiteralsAnchored(t, m, false) && IsTrigger(k)
    requires x in StructuralFindings(t, m, k)
    ensures x in AllFindings(t, m)
  {
  }

  /** Completeness: the finding of every flagged node is in the method's result. */
  lemma MethodFindingsComplete(t: Tree, m: nat, j: nat)
    requires WellFormed(t) && m < |t| && j < |t| && LiteralsAnchored(t, m, false)
    requires Flagged(t, m, j)
    ensures FindingAt(t, j) in MethodFindings(t, m)
  {
    if IsTrigger(t[j].kind) {
      StructuralComplete(t, m, j);
      StructuralInAll(t, m, t[j].kind, FindingAt(t, j));
    } else {
      MagicComplete(t, m, j);
    }
    InDistinct(AllFindings(t, m), FindingAt(t, j));
  }

  /** A diagnostic of one structural pass is the finding of a flagged node. */
  lemma StructuralMemberSound(t: Tree, m: nat, k: SyntaxKind, x: Diagnostic)
    requires WellFormed(t) && m < |t| && IsTrigger(k) && LiteralsAnchored(t, m, false)
    requires x in StructuralFindings(t, m, k)
    ensures exists j :: 0 <= j < |t| && Flagged(t, m, j) && x == FindingAt(t, j)
  {
    var s := StructuralFindings(t, m, k);
    var i :| 0 <= i < |s| && s[i] == x;
    StructuralSound(t, m, k, i);
  }

  /** Soundness: every diagnostic in the method's result is the finding of a flagged node. */
  lemma MethodFindingsSound(t: Tree, m: nat, x: Diagnostic)
    requires WellFormed(t) && m < |t| && LiteralsAnchored(t, m, false)
    requires x in MethodFindings(t, m)
    ensures exists j :: 0 <= j < |t| && Flagged(t, m, j) && x == FindingAt(t, j)
  {
    InDistinct(AllFindings(t, m), x);
    if x in StructuralFindings(t, m, IfStatement) {
      StructuralMemberSound(t, m, IfStatement, x);
    } else if x in StructuralFindings(t, m, ForStatement) {
      StructuralMemberSound(t, m, ForStatement, x);
    } else if x in StructuralFindings(t, m, TryStatement) {
      StructuralMemberSound(t, m, TryStatement, x);
    } else if x in StructuralFindings(t, m, ForEachStatement) {
      StructuralMemberSound(t, m, ForEachStatement, x);
    } else if x in StructuralFindings(t, m, WhileStatement) {
      StructuralMemberSound(t, m, WhileStatement, x);
    } else if x in StructuralFindings(t, m, ConditionalExpression) {
      StructuralMemberSound(t, m, ConditionalExpression, x);
    } else {
      var s := MagicNumberFindings(t, m);
      var structural := StructuralFindings(t, m, IfStatement) + StructuralFindings(t, m, ForStatement)
        + StructuralFindings(t, m, TryStatement) + StructuralFindings(t, m, ForEachStatement)
        + StructuralFindings(t, m, WhileStatement) + StructuralFindings(t, m, ConditionalExpression);
      assert AllFindings(t, m) == structural + s;
      assert x !in structural;
      var i :| 0 <= i < |s| && s[i] == x;
      MagicSound(t, m, i);
    }
  }

  /**
   * Soundness and completeness of ProcessMethodDeclarationSyntax: a diagnostic
   * is reported exactly when some flagged node of the method carries it.
   */
  lemma MethodFindingsCharacterized(t: Tree, m: nat, x: Diagnostic)
    requires WellFormed(t) && m < |t| && LiteralsAnchored(t, m, false)
    ensures x in MethodFindings(t, m) <==> exists j :: 0 <= j < |t| && Flagged(t, m, j) && x == FindingAt(t, j)
  {
    if x in MethodFindings(t, m) {
      MethodFindingsSound(t, m, x);
    }
    if exists j :: 0 <= j < |t| && Flagged(t, m, j) && x == FindingAt(t, j) {
      var j :| 0 <= j < |t| && Flagged(t, m, j) && x == FindingAt(t, j);
      MethodFindingsComplete(t, m, j);
    }
  }

  /** The engine reports nothing exactly when no node of the method is flagged (an empty method, say). */
  lemma NoFindingsIffNothingFlagged(t: Tree, m: nat)
    requires WellFormed(t) && m < |t| && LiteralsAnchored(t, m, false)
    ensures MethodFindings(t, m) == [] <==> forall j :: 0 <= j < |t| ==> !Flagged(t, m, j)
  {
    if MethodFindings(t, m) != [] {
      MethodFindingsCharacterized(t, m, MethodFindings(t, m)[0]);
    }
    if exists j :: 0 <= j < |t| && Flagged(t, m, j) {
      var j :| 0 <= j < |t| && Flagged(t, m, j);
      MethodFindingsCharacterized(t, m, FindingAt(t, j));
    }
  }

  /** A method declaration with no descendant at all yields an empty list. */
  lemma EmptyMethodNoFindings(t: Tree, m: nat)
    requires WellFormed(t) && m < |t| && LiteralsAnchored(t, m, false)
    requires forall j :: 0 <= j < |t| ==> !IsAncestor(t, m, j)
    ensures MethodFindings(t, m) == []
  {
    NoFindingsIffNothingFlagged(t, m);
  }
}

/** The order of the rule engine's result, and when Union drops nothing. */
module UnitTestViolationsOrder {
  import opened Syntax
  import opened Descriptors
  import opened Linq
  import opened UnitTestViolations

  /** The position of a rule's pass in ProcessMethodDeclarationSyntax. */
  function RulePass(r: Rule): int
  {
    match r
    case IfRule => 0
    case ForLoopRule => 1
    case TryCatchRule => 2
    case ForEachRule => 3
    case WhileLoopRule => 4
    case TernaryRule => 5
    case MagicNumberRule => 6
  }

  function PassOf(d: Diagnostic): int
  {
    RulePass(d.rule)
  }

  /** All elements of s come from pass number p. */
  predicate FromPass(s: seq<Diagnostic>, p: int)
  {
    forall i :: 0 <= i < |s| ==> PassOf(s[i]) == p
  }

  /** All elements of s come from passes 0..p. */
  predicate UpToPass(s: seq<Diagnostic>, p: int)
  {
    forall i :: 0 <= i < |s| ==> PassOf(s[i]) <= p
  }

  /** The kinds some pass reports: the six structural triggers and numeric literals. */
  predicate ReportedKind(k: SyntaxKind)
  {
    IsTrigger(k) || k == NumericLiteralExpression
  }

  /**
   * Two distinct nodes of the same reported kind never share a span, as in a
   * parsed file: statements and literals of one kind cannot coincide. Other
   * kinds (a base type and its generic name, say) may share one.
   */
  predicate TriggerSpansDistinct(t: Tree)
  {
    forall i, j :: 0 <= i < j < |t| && ReportedKind(t[i].kind) && t[i].kind == t[j].kind ==>
      t[i].span != t[j].span
  }

  /**
   * Appending the next pass keeps the list ordered by pass, and free of
   * repeats when both parts are.
   */
  lemma AppendPass(a: seq<Diagnostic>, b: seq<Diagnostic>, p: int)
    requires SortedBy(a, PassOf) && UpToPass(a, p) && FromPass(b, p + 1)
    ensures SortedBy(a + b, PassOf) && UpToPass(a + b, p + 1)
    ensures NoDuplicates(a) && NoDuplicates(b) ==> NoDuplicates(a + b)
  {
    if NoDuplicates(a) && NoDuplicates(b) {
      forall i, j | 0 <= i < j < |a + b| ensures (a + b)[i] != (a + b)[j]
      {
        if j < |a| {
          assert (a + b)[i] == a[i] && (a + b)[j] == a[j];
        } else if i >= |a| {
          assert (a + b)[i] == b[i - |a|] && (a + b)[j] == b[j - |a|];
        } else {
          assert PassOf((a + b)[i]) <= p < PassOf((a + b)[j]);
        }
      }
    }
  }

  /** Every diagnostic of one pass carries the pass's rule. */
  lemma AtNodesFromPass(t: Tree, nodes: seq<nat>, r: Rule)
    requires forall i :: 0 <= i < |nodes| ==> nodes[i] < |t|
    ensures FromPass(AtNodes(t, nodes, r), RulePass(r))
  {
    var s := AtNodes(t, nodes, r);
    forall i | 0 <= i < |s| ensures PassOf(s[i]) == RulePass(r) {
      assert s[i].rule == r;
    }
  }

  /** One pass over distinct nodes of a reported kind lists each node once. */
  lemma AtNodesDistinct(t: Tree, nodes: seq<nat>, k: SyntaxKind, r: Rule)
    requires ReportedKind(k) && TriggerSpansDistinct(t) && StrictlyIncreasing(nodes)
    requires forall i :: 0 <= i < |nodes| ==> nodes[i] < |t| && t[nodes[i]].kind == k
    ensures NoDuplicates(AtNodes(t, nodes, r))
  {
    var s := AtNodes(t, nodes, r);
    forall i, j | 0 <= i < j < |s| ensures s[i] != s[j] {
      assert nodes[i] < nodes[j];
      assert t[nodes[i]].span != t[nodes[j]].span;
    }
  }

  /** A structural pass reports only its own rule. */
  lemma StructuralPass(t: Tree, m: nat, k: SyntaxKind)
    requires WellFormed(t) && m < |t| && IsTrigger(k)
    ensures FromPass(StructuralFindings(t, m, k), RulePass(TriggerRule(k)))
  {
    var nodes := GetListOfSyntaxNode(t, m, k);
    forall i | 0 <= i < |nodes| ensures nodes[i] < |t| {
      assert nodes[i] in nodes;
    }
    AtNodesFromPass(t, nodes, TriggerRule(k));
  }

  /** A structural pass repeats nothing when no two nodes of a reported kind share a span. */
  lemma StructuralPassDistinct(t: Tree, m: nat, k: SyntaxKind)
    requires WellFormed(t) && m < |t| && IsTrigger(k) && TriggerSpansDistinct(t)
    ensures NoDuplicates(StructuralFindings(t, m, k))
  {
    var nodes := GetListOfSyntaxNode(t, m, k);
    forall i | 0 <= i < |nodes| ensures nodes[i] < |t| && t[nodes[i]].kind == k {
      assert nodes[i] in nodes;
    }
    AtNodesDistinct(t, nodes, k, TriggerRule(k));
  }

  /** The magic-number pass, the seventh, reports only its own rule. */
  lemma MagicPass(t: Tree, m: nat)
    requires WellFormed(t) && m < |t| && LiteralsAnchored(t, m, false)
    ensures FromPass(MagicNumberFindings(t, m), 6)
  {
    var nodes := MagicNumberNodes(t, m);
    forall i | 0 <= i < |nodes| ensures nodes[i] < |t| {
      assert nodes[i] in nodes;
    }
    AtNodesFromPass(t, nodes, MagicNumberRule);
  }

  /** The magic-number pass repeats nothing when no two literals share a span. */
  lemma MagicPassDistinct(t: Tree, m: nat)
    requires WellFormed(t) && m < |t| && LiteralsAnchored(t, m, false) && TriggerSpansDistinct(t)
    ensures NoDuplicates(MagicNumberFindings(t, m))
  {
    var nodes := MagicNumberNodes(t, m);
    forall i | 0 <= i < |nodes| ensures nodes[i] < |t| && t[nodes[i]].kind == NumericLiteralExpression {
      assert nodes[i] in nodes;
    }
    AtNodesDistinct(t, nodes, NumericLiteralExpression, MagicNumberRule);
  }

  /** The six structural passes, concatenated, are grouped by pass in the order they run. */
  lemma StructuralPassesInOrder(t: Tree, m: nat)
    requires WellFormed(t) && m < |t|
    ensures var s := StructuralFindings(t, m, IfStatement) + StructuralFindings(t, m, ForStatement)
      + StructuralFindings(t, m, TryStatement) + StructuralFindings(t, m, ForEachStatement)
      + StructuralFindings(t, m, WhileStatement) + StructuralFindings(t, m, ConditionalExpression);
      SortedBy(s, PassOf) && UpToPass(s, 5)
  {
    StructuralPass(t, m, IfStatement);
    StructuralPass(t, m, ForStatement);
    StructuralPass(t, m, TryStatement);
    StructuralPass(t, m, ForEachStatement);
    StructuralPass(t, m, WhileStatement);
    StructuralPass(t, m, ConditionalExpression);
    SixPasses(StructuralFindings(t, m, IfStatement), StructuralFindings(t, m, ForStatement),
      StructuralFindings(t, m, TryStatement), StructuralFindings(t, m, ForEachStatement),
      StructuralFindings(t, m, WhileStatement), StructuralFindings(t, m, ConditionalExpression));
  }

  /** The six structural passes, concatenated, carry no repeats when no two nodes of a reported kind share a span. */
  lemma StructuralPassesDistinct(t: Tree, m: nat)
    requires WellFormed(t) && m < |t| && TriggerSpansDistinct(t)
    ensures NoDuplicates(StructuralFindings(t, m, IfStatement) + StructuralFindings(t, m, ForStatement)
      + StructuralFindings(t, m, TryStatement) + StructuralFindings(t, m, ForEachStatement)
      + StructuralFindings(t, m, WhileStatement) + StructuralFindings(t, m, ConditionalExpression))
  {
    var p0, p1, p2 := StructuralFindings(t, m, IfStatement), StructuralFindings(t, m, ForStatement),
      StructuralFindings(t, m, TryStatement);
    var p3, p4, p5 := StructuralFindings(t, m, ForEachStatement), StructuralFindings(t, m, WhileStatement),
      StructuralFindings(t, m, ConditionalExpression);
    StructuralPassDistinct(t, m, IfStatement);
    StructuralPassDistinct(t, m, ForStatement);
    StructuralPassDistinct(t, m, TryStatement);
    StructuralPassDistinct(t, m, ForEachStatement);
    StructuralPassDistinct(t, m, WhileStatement);
    StructuralPassDistinct(t, m, ConditionalExpression);
    StructuralPass(t, m, IfStatement);
    StructuralPass(t, m, ForStatement);
    StructuralPass(t, m, TryStatement);
    StructuralPass(t, m, ForEachStatement);
    StructuralPass(t, m, WhileStatement);
    StructuralPass(t, m, ConditionalExpression);
    SixPasses(p0, p1, p2, p3, p4, p5);
    assert NoDuplicates(p0) && NoDuplicates(p1) && NoDuplicates(p2);
    assert NoDuplicates(p3) && NoDuplicates(p4) && NoDuplicates(p5);
  }

  /**
   * Six passes numbered 0 to 5 concatenate to a list ordered by pass, free of
   * repeats when each pass is.
   */
  lemma SixPasses(p0: seq<Diagnostic>, p1: seq<Diagnostic>, p2: seq<Diagnostic>,
                  p3: seq<Diagnostic>, p4: seq<Diagnostic>, p5: seq<Diagnostic>)
    requires FromPass(p0, 0) && FromPass(p1, 1) && FromPass(p2, 2)
    requires FromPass(p3, 3) && FromPass(p4, 4) && FromPass(p5, 5)
    ensures var s := p0 + p1 + p2 + p3 + p4 + p5;
      SortedBy(s, PassOf) && UpToPass(s, 5) &&
      ((NoDuplicates(p0) && NoDuplicates(p1) && NoDuplicates(p2) &&
        NoDuplicates(p3) && NoDuplicates(p4) && NoDuplicates(p5)) ==> NoDuplicates(s))
  {
    AppendPass([], p0, -1);
    assert [] + p0 == p0;
    AppendPass(p0, p1, 0);
    AppendPass(p0 + p1, p2, 1);
    AppendPass(p0 + p1 + p2, p3, 2);
    AppendPass(p0 + p1 + p2 + p3, p4, 3);
    AppendPass(p0 + p1 + p2 + p3 + p4, p5, 4);
  }

  /**
   * The concatenated passes are grouped by pass in the order the method runs
   * them: if, for, try, foreach, while, ternary, magic number.
   */
  lemma AllFindingsInPassOrder(t: Tree, m: nat)
    requires WellFormed(t) && m < |t| && LiteralsAnchored(t, m, false)
    ensures SortedBy(AllFindings(t, m), PassOf)
  {
    StructuralPassesInOrder(t, m);
    MagicPass(t, m);
    AppendPass(StructuralFindings(t, m, IfStatement) + StructuralFindings(t, m, ForStatement)
      + StructuralFindings(t, m, TryStatement) + StructuralFindings(t, m, ForEachStatement)
      + StructuralFindings(t, m, WhileStatement) + StructuralFindings(t, m, ConditionalExpression),
      MagicNumberFindings(t, m), 5);
  }

  /** The concatenated passes carry no repeats when no two nodes of a reported kind share a span. */
  lemma AllFindingsDistinct(t: Tree, m: nat)
    requires WellFormed(t) && m < |t| && LiteralsAnchored(t, m, false) && TriggerSpansDistinct(t)
    ensures NoDuplicates(AllFindings(t, m))
  {
    var structural := StructuralFindings(t, m, IfStatement) + StructuralFindings(t, m, ForStatement)
      + StructuralFindings(t, m, TryStatement) + StructuralFindings(t, m, ForEachStatement)
      + StructuralFindings(t, m, WhileStatement) + StructuralFindings(t, m, ConditionalExpression);
    StructuralPassesInOrder(t, m);
    StructuralPassesDistinct(t, m);
    MagicPass(t, m);
    MagicPassDistinct(t, m);
    AppendPass(structural, MagicNumberFindings(t, m), 5);
  }

  /** What ProcessMethodDeclarationSyntax returns is ordered by pass, on every tree. */
  lemma MethodFindingsInPassOrder(t: Tree, m: nat)
    requires WellFormed(t) && m < |t| && LiteralsAnchored(t, m, false)
    ensures SortedBy(MethodFindings(t, m), PassOf)
  {
    AllFindingsInPassOrder(t, m);
    DistinctKeepsOrder(AllFindings(t, m), PassOf);
  }

  /**
   * When no two nodes of a reported kind share a span, Union drops nothing:
   * the result is the plain concatenation of the seven passes.
   */
  lemma UnionDropsNothing(t: Tree, m: nat)
    requires WellFormed(t) && m < |t| && LiteralsAnchored(t, m, false) && TriggerSpansDistinct(t)
    ensures MethodFindings(t, m) == AllFindings(t, m)
  {
    AllFindingsDistinct(t, m);
    DistinctOfNoDuplicates(AllFindings(t, m));
  }

  /** Within one structural pass the diagnostics follow the source text. */
  lemma StructuralInSourceOrder(t: Tree, m: nat, k: SyntaxKind)
    requires WellFormed(t) && SourceOrdered(t) && m < |t| && IsTrigger(k)
    ensures forall i, j :: 0 <= i < j < |StructuralFindings(t, m, k)| ==>
      StructuralFindings(t, m, k)[i].location.start <= StructuralFindings(t, m, k)[j].location.start
  {
    var nodes := GetListOfSyntaxNode(t, m, k);
    forall i, j | 0 <= i < j < |nodes| ensures t[nodes[i]].span.start <= t[nodes[j]].span.start {
      assert nodes[i] < nodes[j];
    }
  }

  /** Within the magic-number pass the diagnostics follow the source text. */
  lemma MagicInSourceOrder(t: Tree, m: nat)
    requires WellFormed(t) && SourceOrdered(t) && m < |t| && LiteralsAnchored(t, m, false)
    ensures forall i, j :: 0 <= i < j < |MagicNumberFindings(t, m)| ==>
      MagicNumberFindings(t, m)[i].location.start <= MagicNumberFindings(t, m)[j].location.start
  {
    var nodes := MagicNumberNodes(t, m);
    forall i, j | 0 <= i < j < |nodes| ensures t[nodes[i]].span.start <= t[nodes[j]].span.start {
      assert nodes[i] < nodes[j];
    }
  }
}
