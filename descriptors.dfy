/**
 * The rule catalogue: the seven diagnostic descriptors of the lint and the
 * diagnostics made from them (CSharpUnitTestLint.AnalyzerRules.Descriptors).
 */
module Descriptors {
  import opened Syntax

  /** Microsoft.CodeAnalysis.DiagnosticSeverity. */
  datatype Severity = Hidden | Info | Warning | Error

  /** A DiagnosticDescriptor; two descriptors are equal when all fields are. */
  datatype Descriptor = Descriptor(
    id: string,
    title: string,
    messageFormat: string,
    category: string,
    defaultSeverity: Severity,
    isEnabledByDefault: bool)

  /** The one category every descriptor reports. */
  const UnitTestingDiagnosticCategory := "Unit Testing"

  const IfStatementDescriptor := Descriptor(
    "SRLCSUTL002", "Logic found in a test.",
    "An 'If Statement' was found. Logic is not permitted in a unit test.",
    UnitTestingDiagnosticCategory, Error, true)

  const ForeachStatementDescriptor := Descriptor(
    "SRLCSUTL003", "Logic found in a test.",
    "A 'foreach Statement' was found. Logic is not permitted in a unit test.",
    UnitTestingDiagnosticCategory, Error, true)

  const MagicNumberDescriptor := Descriptor(
    "SRLCSUTL004", "A Magic number was found in a test.",
    "Magic numbers decrease readability of a unit test.",
    UnitTestingDiagnosticCategory, Error, true)

  const TryCatchStatementDescriptor := Descriptor(
    "SRLCSUTL005", "A 'try / catch' statement was found in a test.",
    "A try / catch statement is logic and is not permitted in a unit test.",
    UnitTestingDiagnosticCategory, Error, true)

  const ForLoopStatementDescriptor := Descriptor(
    "SRLCSUTL006", "A 'for loop' statement was found in a test.",
    "A 'for loop' statement is logic and is not permitted in a unit test.",
    UnitTestingDiagnosticCategory, Error, true)

  const WhileLoopStatementDescriptor := Descriptor(
    "SRLCSUTL007", "A 'while loop' statement was found in a test.",
    "A 'while loop' statement is logic and is not permitted in a unit test.",
    UnitTestingDiagnosticCategory, Error, true)

  const TernaryOperatorStatementDescriptor := Descriptor(
    "SRLCSUTL008", "A 'ternary operator' statement was found in a test.",
    "A 'ternary operator' statement is logic and is not permitted in a unit test.",
    UnitTestingDiagnosticCategory, Error, true)

  /** The seven rules, one per descriptor. */
  datatype Rule = IfRule | ForEachRule | MagicNumberRule | TryCatchRule | ForLoopRule | WhileLoopRule | TernaryRule

  /** The descriptor of each rule; the last digit of its id is the rule's number. */
  function DescriptorFor(r: Rule): Descriptor
  {
    match r
    case IfRule => IfStatementDescriptor
    case ForEachRule => ForeachStatementDescriptor
    case MagicNumberRule => MagicNumberDescriptor
    case TryCatchRule => TryCatchStatementDescriptor
    case ForLoopRule => ForLoopStatementDescriptor
    case WhileLoopRule => WhileLoopStatementDescriptor
    case TernaryRule => TernaryOperatorStatementDescriptor
  }

  /** The rule numbers 2 (if) to 8 (ternary) of the ids SRLCSUTL002..SRLCSUTL008. */
  function RuleDigit(r: Rule): char
  {
    match r
    case IfRule => '2'
    case ForEachRule => '3'
    case MagicNumberRule => '4'
    case TryCatchRule => '5'
    case ForLoopRule => '6'
    case WhileLoopRule => '7'
    case TernaryRule => '8'
  }

  /**
   * A Diagnostic made by Diagnostic.Create(descriptor, location) with no
   * message arguments, the descriptor named by its rule. Roslyn compares such
   * diagnostics by value (descriptor, location, severity); since distinct rules
   * have distinct descriptors (DescriptorIdsDistinct), this datatype's equality
   * is the same relation.
   */
  datatype Diagnostic = Diagnostic(rule: Rule, location: Span)
  {
    function Descriptor(): Descriptor { DescriptorFor(rule) }

    function Id(): string { DescriptorFor(rule).id }

    /** Diagnostic.Create gives a diagnostic its descriptor's default severity. */
    function Severity(): Severity { DescriptorFor(rule).defaultSeverity }
  }

  /**
   * Every descriptor is an enabled error of the "Unit Testing" category, and its
   * id is "SRLCSUTL00" followed by the rule's number.
   */
  lemma DescriptorShape(r: Rule)
    ensures DescriptorFor(r).category == UnitTestingDiagnosticCategory
    ensures DescriptorFor(r).defaultSeverity == Error && DescriptorFor(r).isEnabledByDefault
    ensures |DescriptorFor(r).id| == 11 && DescriptorFor(r).id[..10] == "SRLCSUTL00"
    ensures DescriptorFor(r).id[10] == RuleDigit(r)
  {
  }

  /** Distinct rules have distinct ids, hence distinct descriptors. */
  lemma DescriptorIdsDistinct(r1: Rule, r2: Rule)
    ensures DescriptorFor(r1).id == DescriptorFor(r2).id <==> r1 == r2
  {
    if DescriptorFor(r1).id == DescriptorFor(r2).id {
      DescriptorShape(r1);
      DescriptorShape(r2);
      assert RuleDigit(r1) == DescriptorFor(r1).id[10] == DescriptorFor(r2).id[10] == RuleDigit(r2);
    }
  }

  /** Distinct rules have distinct descriptors. */
  lemma DescriptorsDistinct(r1: Rule, r2: Rule)
    ensures DescriptorFor(r1) == DescriptorFor(r2) <==> r1 == r2
  {
    DescriptorIdsDistinct(r1, r2);
  }

  /** The if and foreach rules share their title and differ in their message. */
  lemma IfAndForeachShareTitle()
    ensures IfStatementDescriptor.title == ForeachStatementDescriptor.title
    ensures IfStatementDescriptor.messageFormat != ForeachStatementDescriptor.messageFormat
  {
    assert |IfStatementDescriptor.messageFormat| != |ForeachStatementDescriptor.messageFormat|;
  }
}
