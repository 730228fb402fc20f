/**
 * The part of the Roslyn syntax tree the lint reads, as a value.
 *
 * A compilation unit is a sequence of nodes in pre-order (the order of
 * CSharpSyntaxNode.DescendantNodes(), which is also source order). Every
 * node records the index of its parent, which always comes earlier; a
 * negative parent index means the node has no parent. Tokens are not
 * represented: no rule of the lint selects a token, because a token's kind is
 * never one of the expression or statement kinds the rules look for.
 */
module Syntax {

  /** The syntax kinds the lint distinguishes; every other kind is OtherKind. */
  datatype SyntaxKind =
    | CompilationUnit | ClassDeclaration | MethodDeclaration | LocalFunctionStatement
    | AttributeList | Attribute | AttributeArgumentList | AttributeArgument
    | Block | ExpressionStatement | LocalDeclarationStatement | VariableDeclaration
    | VariableDeclarator | EqualsValueClause
    | IfStatement | ForStatement | ForEachStatement | ForEachVariableStatement
    | WhileStatement | DoStatement | TryStatement | CatchClause
    | ConditionalExpression | NumericLiteralExpression | InvocationExpression
    | ArgumentList | Argument | SimpleMemberAccessExpression
    | ObjectCreationExpression | CollectionInitializerExpression | IdentifierName
    | OtherKind

  /** A TextSpan: the half-open range [start, end) of the node in the file. */
  datatype Span = Span(start: nat, end: nat)

  /**
   * One syntax node. `name` is the identifier text of a method declaration
   * (Identifier.Text) or the name text of an attribute (Name.GetText());
   * `text` is the node's full text (GetText()), trivia included.
   */
  datatype Node = Node(kind: SyntaxKind, span: Span, parent: int, name: string, text: string)

  type Tree = seq<Node>

  /**
   * Parents come before their children. Every pre-order array has this shape;
   * the model does not also demand that each subtree be contiguous, so what
   * it proves holds for any parent-before-child listing, pre-order among them.
   */
  predicate WellFormed(t: Tree)
  {
    forall i :: 0 <= i < |t| ==> t[i].parent < i
  }

  /** Spans start in pre-order, as Roslyn's do. */
  predicate SourceOrdered(t: Tree)
  {
    forall i, j :: 0 <= i < j < |t| ==> t[i].span.start <= t[j].span.start
  }

  /** Node `a` is a proper ancestor of node `j` (so `j` is one of a's DescendantNodes()). */
  predicate IsAncestor(t: Tree, a: nat, j: nat)
    requires WellFormed(t) && j < |t|
    ensures IsAncestor(t, a, j) ==> a < j
    decreases j
  {
    var p := t[j].parent;
    0 <= p && (p == a || IsAncestor(t, a, p))
  }

  /** node.Parent.Parent.Parent, or -1 when one of the three is missing. */
  function GreatGrandparent(t: Tree, j: nat): (r: int)
    requires WellFormed(t) && j < |t|
    ensures r < j
  {
    var p := t[j].parent;
    if p < 0 then -1
    else
      var g := t[p].parent;
      if g < 0 then -1 else t[g].parent
  }

  /**
   * Every numeric literal in the scope of `m` has a great-grandparent: the
   * rules dereference node.Parent.Parent.Parent without a null check.
   */
  predicate LiteralsAnchored(t: Tree, m: nat, withSelf: bool)
    requires WellFormed(t)
  {
    forall j :: 0 <= j < |t| && t[j].kind == NumericLiteralExpression && InScope(t, m, j, withSelf) ==>
      GreatGrandparent(t, j) >= 0
  }

  /**
   * The magic-number heuristic: a literal counts when its great-grandparent is
   * an invocation, i.e. it sits as literal -> Argument -> ArgumentList -> call.
   */
  predicate IsCallArgument(t: Tree, j: nat)
    requires WellFormed(t) && j < |t| && GreatGrandparent(t, j) >= 0
  {
    t[GreatGrandparent(t, j)].kind == InvocationExpression
  }

  /** Node `j` is in the scope searched below `m`: a descendant, or `m` itself when `withSelf`. */
  predicate InScope(t: Tree, m: nat, j: nat, withSelf: bool)
    requires WellFormed(t) && j < |t|
  {
    IsAncestor(t, m, j) || (withSelf && j == m)
  }

  predicate StrictlyIncreasing(s: seq<nat>)
  {
    forall i, j :: 0 <= i < j < |s| ==> s[i] < s[j]
  }

  /**
   * The indices below `hi` of the nodes of kind `k` in the scope of `m`, in
   * pre-order: DescendantNodes().OfType<T>() (or DescendantNodesAndSelf()).
   */
  function CollectOfKind(t: Tree, m: nat, k: SyntaxKind, withSelf: bool, hi: nat): (r: seq<nat>)
    requires WellFormed(t) && hi <= |t|
    ensures StrictlyIncreasing(r)
    ensures forall i :: 0 <= i < |r| ==> r[i] < hi && t[r[i]].kind == k && InScope(t, m, r[i], withSelf)
    ensures forall j :: 0 <= j < hi && t[j].kind == k && InScope(t, m, j, withSelf) ==> j in r
    decreases hi
  {
    if hi == 0 then []
    else
      var r := CollectOfKind(t, m, k, withSelf, hi - 1);
      if t[hi - 1].kind == k && InScope(t, m, hi - 1, withSelf) then r + [hi - 1] else r
  }

  /** Every listed node exists and has a great-grandparent. */
  predicate AllAnchored(t: Tree, nodes: seq<nat>)
    requires WellFormed(t)
  {
    forall i :: 0 <= i < |nodes| ==> nodes[i] < |t| && GreatGrandparent(t, nodes[i]) >= 0
  }

  /**
   * The listed literals that are call arguments, in their listed order:
   * the filter `if (token.Parent.Parent.Parent.Kind() == InvocationExpression)`.
   */
  function CallArguments(t: Tree, lits: seq<nat>): (r: seq<nat>)
    requires WellFormed(t) && AllAnchored(t, lits)
    ensures AllAnchored(t, r)
    ensures forall i :: 0 <= i < |r| ==> r[i] in lits && IsCallArgument(t, r[i])
    ensures forall i :: 0 <= i < |lits| && IsCallArgument(t, lits[i]) ==> lits[i] in r
    decreases |lits|
  {
    if lits == [] then []
    else
      var init := lits[..|lits| - 1];
      var last := lits[|lits| - 1];
      var r := CallArguments(t, init);
      if IsCallArgument(t, last) then r + [last] else r
  }

  lemma CallArgumentsSnoc(t: Tree, lits: seq<nat>, x: nat)
    requires WellFormed(t) && AllAnchored(t, lits) && x < |t| && GreatGrandparent(t, x) >= 0
    ensures AllAnchored(t, lits + [x])
    ensures CallArguments(t, lits + [x]) ==
      CallArguments(t, lits) + (if IsCallArgument(t, x) then [x] else [])
  {
    assert (lits + [x])[..|lits|] == lits;
  }

  /** Filtering keeps pre-order: the call arguments of an increasing list are increasing. */
  lemma {:induction false} CallArgumentsIncreasing(t: Tree, lits: seq<nat>)
    requires WellFormed(t) && AllAnchored(t, lits) && StrictlyIncreasing(lits)
    ensures StrictlyIncreasing(CallArguments(t, lits))
    decreases |lits|
  {
    if lits != [] {
      var init, last := lits[..|lits| - 1], lits[|lits| - 1];
      CallArgumentsIncreasing(t, init);
      var r := CallArguments(t, init);
      if IsCallArgument(t, last) {
        forall i | 0 <= i < |r| ensures r[i] < last {
          InInit(lits, r[i]);
        }
        IncreasingSnoc(r, last);
      }
    }
  }

  lemma IncreasingSnoc(r: seq<nat>, x: nat)
    requires StrictlyIncreasing(r) && forall i :: 0 <= i < |r| ==> r[i] < x
    ensures StrictlyIncreasing(r + [x])
  {
  }

  /** Nodes listed in increasing index order have non-decreasing span starts. */
  lemma IncreasingNodesInSourceOrder(t: Tree, nodes: seq<nat>, i: nat, j: nat)
    requires SourceOrdered(t) && StrictlyIncreasing(nodes)
    requires forall x :: 0 <= x < |nodes| ==> nodes[x] < |t|
    requires i < j < |nodes|
    ensures t[nodes[i]].span.start <= t[nodes[j]].span.start
  {
  }

  /** Every element of an increasing list other than its last lies in the list without its last. */
  lemma BelowLast(a: seq<nat>, z: nat)
    requires StrictlyIncreasing(a) && z in a
    ensures z <= a[|a| - 1]
    ensures z != a[|a| - 1] ==> z in a[..|a| - 1]
  {
    var i :| 0 <= i < |a| && a[i] == z;
    if i < |a| - 1 {
      assert a[..|a| - 1][i] == z;
    }
  }

  /** The list without its last element holds only smaller elements of the list. */
  lemma InInit(a: seq<nat>, z: nat)
    requires StrictlyIncreasing(a) && a != [] && z in a[..|a| - 1]
    ensures z in a && z < a[|a| - 1]
  {
    var i :| 0 <= i < |a| - 1 && a[..|a| - 1][i] == z;
    assert a[i] == z;
  }

  /** Two increasing lists with the same elements are the same list. */
  lemma {:induction false} IncreasingUnique(a: seq<nat>, b: seq<nat>)
    requires StrictlyIncreasing(a) && StrictlyIncreasing(b)
    requires forall x :: x in a <==> x in b
    ensures a == b
    decreases |a| + |b|
  {
    assert a != [] ==> a[0] in b;
    assert b != [] ==> b[0] in a;
    if a != [] && b != [] {
      var x, y := a[|a| - 1], b[|b| - 1];
      BelowLast(b, x);
      BelowLast(a, y);
      var a', b' := a[..|a| - 1], b[..|b| - 1];
      forall z ensures z in a' <==> z in b' {
        if z in a' {
          InInit(a, z);
          BelowLast(b, z);
        }
        if z in b' {
          InInit(b, z);
          BelowLast(a, z);
        }
      }
      IncreasingUnique(a', b');
      assert a == a' + [x] && b == b' + [y];
    }
  }
}
