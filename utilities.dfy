/**
 * The semantic test recogniser of the Visual Studio analyzer
 * (CSharpUnitTestLint.VisualStudio.Utilities). The method's symbol is
 * represented by the class names of its attributes, in declaration order.
 */
module Utilities {
  /** The attribute class an xUnit [Fact] resolves to. */
  const FactAttributeName := "FactAttribute"

  /** Some attribute of the method is exactly the xUnit Fact attribute. */
  predicate HasFactAttribute(attributeClassNames: seq<string>)
  {
    exists i :: 0 <= i < |attributeClassNames| && attributeClassNames[i] == FactAttributeName
  }

  /**
   * IsTheMethodAUnitTest: scan every attribute and set the flag on each Fact
   * attribute; the flag is never cleared.
   */
  method IsTheMethodAUnitTest(attributeClassNames: seq<string>) returns (returnValue: bool)
    ensures returnValue <==> HasFactAttribute(attributeClassNames)
  {
    returnValue := false;
    for i := 0 to |attributeClassNames|
      invariant returnValue <==> HasFactAttribute(attributeClassNames[..i])
    {
      if attributeClassNames[i] == FactAttributeName {
        returnValue := true;
      }
      assert attributeClassNames[..i + 1] == attributeClassNames[..i] + [attributeClassNames[i]];
    }
    assert attributeClassNames[..|attributeClassNames|] == attributeClassNames;
  }
}

/** What the recogniser accepts. */
module UtilitiesProperties {
  import opened Utilities

  /** Only the attribute class names matter, not their order or how often Fact occurs. */
  lemma OnlyTheNamesMatter(a: seq<string>, b: seq<string>)
    requires forall name :: name in a <==> name in b
    ensures HasFactAttribute(a) <==> HasFactAttribute(b)
  {
    if HasFactAttribute(a) {
      var i :| 0 <= i < |a| && a[i] == FactAttributeName;
      assert a[i] in b;
    }
    if HasFactAttribute(b) {
      var i :| 0 <= i < |b| && b[i] == FactAttributeName;
      assert b[i] in a;
    }
  }

  /**
   * A method without attributes is not a test, and neither is one marked only
   * with an xUnit Theory, an NUnit Test, or the short name "Fact".
   */
  lemma OnlyFactIsATest()
    ensures !HasFactAttribute([])
    ensures !HasFactAttribute(["TheoryAttribute"]) && !HasFactAttribute(["TestAttribute"])
    ensures !HasFactAttribute(["Fact"])
    ensures HasFactAttribute(["TheoryAttribute", FactAttributeName])
  {
    assert |"TheoryAttribute"| != |FactAttributeName|;
    assert "TestAttribute"[0] != FactAttributeName[0];
    assert |"Fact"| != |FactAttributeName|;
    assert ["TheoryAttribute", FactAttributeName][1] == FactAttributeName;
  }

  /** Adding attributes never turns a test into a non-test. */
  lemma MoreAttributesKeepATest(a: seq<string>, extra: seq<string>)
    requires HasFactAttribute(a)
    ensures HasFactAttribute(a + extra) && HasFactAttribute(extra + a)
  {
    var i :| 0 <= i < |a| && a[i] == FactAttributeName;
    assert (a + extra)[i] == FactAttributeName;
    assert (extra + a)[|extra| + i] == FactAttributeName;
  }
}
