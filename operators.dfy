/**
 * The closed set of condition operators (src/Operator.ts) and their string tags.
 * A condition carries its operator as the tag string, so `FromTag` is how the
 * evaluator's switch recognises an operator.
 */
module Operators {
  import opened Wrappers

  datatype Operator =
    | StrictEqual
    | StrictNotEqual
    | LooseEqual
    | LooseNotEqual
    | GreaterThan
    | LessThan
    | GreaterThanOrEqual
    | LessThanOrEqual
    | Contains
    | NotContains
    | StartsWith
    | EndsWith
    | RegexMatch
    | RegexNotMatch
    | ArrayContains
    | Each

  /** The enum member's string value. */
  function Tag(op: Operator): string {
    match op
    case StrictEqual => "strictEqual"
    case StrictNotEqual => "strictNotEqual"
    case LooseEqual => "looseEqual"
    case LooseNotEqual => "looseNotEqual"
    case GreaterThan => "greaterThan"
    case LessThan => "lessThan"
    case GreaterThanOrEqual => "greaterThanOrEqual"
    case LessThanOrEqual => "lessThanOrEqual"
    case Contains => "contains"
    case NotContains => "notContains"
    case StartsWith => "startsWith"
    case EndsWith => "endsWith"
    case RegexMatch => "regexMatch"
    case RegexNotMatch => "regexNotMatch"
    case ArrayContains => "arrayContains"
    case Each => "each"
  }

  /** The operator whose tag is `tag`, if any. */
  function FromTag(tag: string): (r: Option<Operator>)
    ensures r.Some? ==> Tag(r.value) == tag
  {
    if tag == "strictEqual" then Some(StrictEqual)
    else if tag == "strictNotEqual" then Some(StrictNotEqual)
    else if tag == "looseEqual" then Some(LooseEqual)
    else if tag == "looseNotEqual" then Some(LooseNotEqual)
    else if tag == "greaterThan" then Some(GreaterThan)
    else if tag == "lessThan" then Some(LessThan)
    else if tag == "greaterThanOrEqual" then Some(GreaterThanOrEqual)
    else if tag == "lessThanOrEqual" then Some(LessThanOrEqual)
    else if tag == "contains" then Some(Contains)
    else if tag == "notContains" then Some(NotContains)
    else if tag == "startsWith" then Some(StartsWith)
    else if tag == "endsWith" then Some(EndsWith)
    else if tag == "regexMatch" then Some(RegexMatch)
    else if tag == "regexNotMatch" then Some(RegexNotMatch)
    else if tag == "arrayContains" then Some(ArrayContains)
    else if tag == "each" then Some(Each)
    else None
  }

  lemma TagRoundTrip(op: Operator)
    ensures FromTag(Tag(op)) == Some(op)
  {
  }

  /** Distinct operators have distinct tags. */
  lemma TagInjective(a: Operator, b: Operator)
    ensures Tag(a) == Tag(b) ==> a == b
  {
    TagRoundTrip(a);
    TagRoundTrip(b);
  }

  /** Every member, in declaration order. */
  const AllOperators: seq<Operator> := [
    StrictEqual, StrictNotEqual, LooseEqual, LooseNotEqual,
    GreaterThan, LessThan, GreaterThanOrEqual, LessThanOrEqual,
    Contains, NotContains, StartsWith, EndsWith,
    RegexMatch, RegexNotMatch, ArrayContains, Each
  ]

  /** The enum has exactly sixteen members: the list holds all of them, each once. */
  lemma OperatorSetClosed(op: Operator)
    ensures op in AllOperators
    ensures |AllOperators| == 16
    ensures forall i, j :: 0 <= i < j < |AllOperators| ==> Tag(AllOperators[i]) != Tag(AllOperators[j])
  {
  }

  /** The operators the evaluator has a case for: the first twelve members. */
  predicate HasHandler(op: Operator) {
    !(op.RegexMatch? || op.RegexNotMatch? || op.ArrayContains? || op.Each?)
  }

  lemma HandledAreFirstTwelve(i: nat)
    requires i < |AllOperators|
    ensures HasHandler(AllOperators[i]) <==> i < 12
  {
  }

  /** The negation pairs named by the members' documentation. */
  function DocumentedNegation(op: Operator): (r: Option<Operator>)
    ensures r.Some? ==> r.value != op
  {
    match op
    case StrictEqual => Some(StrictNotEqual)
    case StrictNotEqual => Some(StrictEqual)
    case LooseEqual => Some(LooseNotEqual)
    case LooseNotEqual => Some(LooseEqual)
    case Contains => Some(NotContains)
    case NotContains => Some(Contains)
    case RegexMatch => Some(RegexNotMatch)
    case RegexNotMatch => Some(RegexMatch)
    case _ => None
  }

  lemma NegationIsInvolution(op: Operator)
    ensures DocumentedNegation(op).Some? ==> DocumentedNegation(DocumentedNegation(op).value) == Some(op)
  {
  }
}
