/**
 * Condition leaves and condition trees (src/ICondition.ts, src/IRule.ts) and the
 * pure part of the evaluator: `evaluateSingleCondition` and the `every`/`some`
 * combinations of src/RuleEngine.ts.
 */
module Conditions {
  import opened Wrappers
  import opened JsValues
  import opened Operators

  /**
   * A leaf. `operator` is the tag string as it arrives in a rule object; any
   * string may appear there, not only the enum's. `constant` is carried but
   * never read by this engine.
   */
  datatype Condition = Condition(constant: Option<JsVal>, fact: Option<string>, operator: string, value: JsVal)

  /** A rule's `conditions` object: either key may be absent. */
  datatype ConditionTree = ConditionTree(and: Option<seq<Condition>>, or: Option<seq<Condition>>)

  /** The property key `value[condition.fact]` reads: an absent fact is the key "undefined". */
  function FactKey(fact: Option<string>): string {
    if fact.Some? then fact.value else "undefined"
  }

  /** The left-hand operand of a leaf: one top-level property of the `before` result. */
  function FactValue(c: Condition, data: JsVal): JsVal {
    GetProperty(data, FactKey(c.fact))
  }

  /** Array.prototype.includes: some element is SameValueZero to the needle. */
  predicate ArrayIncludes(elems: seq<JsVal>, needle: JsVal) {
    exists i :: 0 <= i < |elems| && StrictEquals(elems[i], needle)
  }

  /** `needle` occurs in `s` starting at index `i`. */
  predicate OccursAt(s: string, needle: string, i: int) {
    0 <= i <= |s| - |needle| && s[i..i + |needle|] == needle
  }

  /** String.prototype.includes for a needle already converted to a string. */
  predicate StringIncludes(s: string, needle: string) {
    exists i | 0 <= i <= |s| - |needle| :: OccursAt(s, needle, i)
  }

  /** String.prototype.startsWith for a converted needle. */
  predicate StringStartsWith(s: string, prefix: string) {
    prefix <= s
  }

  /** String.prototype.endsWith for a converted needle. */
  predicate StringEndsWith(s: string, suffix: string) {
    |suffix| <= |s| && s[|s| - |suffix|..] == suffix
  }

  /** `evaluateSingleCondition(condition, value)`. */
  function EvaluateSingleCondition(c: Condition, data: JsVal): (r: bool)
    ensures !Truthy(data) ==> !r
    ensures r ==> FromTag(c.operator).Some? && HasHandler(FromTag(c.operator).value)
  {
    if !Truthy(data) then false
    else
      var fact := FactValue(c, data);
      match FromTag(c.operator)
      case None => false
      case Some(op) =>
        match op
        case LooseEqual => LooseEquals(fact, c.value)
        case StrictEqual => StrictEquals(fact, c.value)
        case LooseNotEqual => !LooseEquals(fact, c.value)
        case StrictNotEqual => !StrictEquals(fact, c.value)
        case GreaterThan => JsValues.GreaterThan(fact, c.value)
        case LessThan => JsValues.LessThan(fact, c.value)
        case GreaterThanOrEqual => JsValues.GreaterThanOrEqual(fact, c.value)
        case LessThanOrEqual => JsValues.LessThanOrEqual(fact, c.value)
        case Contains =>
          if fact.Arr? then ArrayIncludes(fact.elems, c.value)
          else if fact.Str? then StringIncludes(fact.s, ToString(c.value))
          else false
        case NotContains =>
          if fact.Arr? then !ArrayIncludes(fact.elems, c.value)
          else if fact.Str? then !StringIncludes(fact.s, ToString(c.value))
          else false
        case StartsWith =>
          if fact.Str? then StringStartsWith(fact.s, ToString(c.value)) else false
        case EndsWith =>
          if fact.Str? then StringEndsWith(fact.s, ToString(c.value)) else false
        case _ => false
  }

  /** `conditions.every(condition => evaluateSingleCondition(condition, value))`. */
  function Every(cs: seq<Condition>, data: JsVal): (r: bool)
    ensures r <==> forall i :: 0 <= i < |cs| ==> EvaluateSingleCondition(cs[i], data)
  {
    if cs == [] then true
    else EvaluateSingleCondition(cs[0], data) && Every(cs[1..], data)
  }

  /** `conditions.some(condition => evaluateSingleCondition(condition, value))`. */
  function Any(cs: seq<Condition>, data: JsVal): (r: bool)
    ensures r <==> exists i :: 0 <= i < |cs| && EvaluateSingleCondition(cs[i], data)
  {
    if cs == [] then false
    else EvaluateSingleCondition(cs[0], data) || Any(cs[1..], data)
  }

  /**
   * What a condition tree evaluates to: the `or` list decides whenever it is
   * present (it is assigned last); otherwise the `and` list; a tree with
   * neither key is false.
   */
  predicate ConditionsMet(t: ConditionTree, data: JsVal) {
    if t.or.Some? then exists i :: 0 <= i < |t.or.value| && EvaluateSingleCondition(t.or.value[i], data)
    else if t.and.Some? then forall i :: 0 <= i < |t.and.value| ==> EvaluateSingleCondition(t.and.value[i], data)
    else false
  }

  // ---------------------------------------------------------------------------
  // The shapes of a condition tree

  lemma AndOnly(cs: seq<Condition>, data: JsVal)
    ensures ConditionsMet(ConditionTree(Some(cs), None), data)
            <==> forall i :: 0 <= i < |cs| ==> EvaluateSingleCondition(cs[i], data)
  {
  }

  lemma OrOnly(cs: seq<Condition>, data: JsVal)
    ensures ConditionsMet(ConditionTree(None, Some(cs)), data)
            <==> exists i :: 0 <= i < |cs| && EvaluateSingleCondition(cs[i], data)
  {
  }

  /** With both keys present, the `and` list is evaluated and then overwritten. */
  lemma OrOverridesAnd(ands: seq<Condition>, ors: seq<Condition>, data: JsVal)
    ensures ConditionsMet(ConditionTree(Some(ands), Some(ors)), data) == ConditionsMet(ConditionTree(None, Some(ors)), data)
  {
  }

  /** The vacuous cases: an empty `and` holds whatever the data, an empty `or` and an empty tree never hold. */
  lemma VacuousTrees(data: JsVal)
    ensures ConditionsMet(ConditionTree(Some([]), None), data)
    ensures !ConditionsMet(ConditionTree(None, Some([])), data)
    ensures !ConditionsMet(ConditionTree(Some([]), Some([])), data)
    ensures !ConditionsMet(ConditionTree(None, None), data)
  {
  }

  /** A falsy `before` result fails every leaf, so only a lone empty `and` list can hold. */
  lemma FalsyDataFailsEveryLeaf(t: ConditionTree, data: JsVal)
    requires !Truthy(data)
    ensures ConditionsMet(t, data) <==> t.or.None? && t.and == Some([])
  {
    if t.or.None? && t.and.Some? && t.and.value != [] {
      assert !EvaluateSingleCondition(t.and.value[0], data);
    }
  }

  // ---------------------------------------------------------------------------
  // Operators

  /** A leaf whose tag is not one of the first twelve members is false. */
  lemma UnhandledOperatorIsFalse(c: Condition, data: JsVal)
    requires FromTag(c.operator).None? || !HasHandler(FromTag(c.operator).value)
    ensures !EvaluateSingleCondition(c, data)
  {
  }

  /** The four members declared without an evaluation case. */
  lemma DeclaredWithoutHandler(c: Condition, data: JsVal, op: Operator)
    requires op in {RegexMatch, RegexNotMatch, ArrayContains, Each}
    ensures !EvaluateSingleCondition(c.(operator := Tag(op)), data)
  {
    TagRoundTrip(op);
  }

  lemma StrictNotEqualNegates(c: Condition, data: JsVal)
    requires Truthy(data)
    ensures EvaluateSingleCondition(c.(operator := Tag(StrictNotEqual)), data)
            == !EvaluateSingleCondition(c.(operator := Tag(StrictEqual)), data)
  {
    TagRoundTrip(StrictNotEqual);
    TagRoundTrip(StrictEqual);
  }

  lemma LooseNotEqualNegates(c: Condition, data: JsVal)
    requires Truthy(data)
    ensures EvaluateSingleCondition(c.(operator := Tag(LooseNotEqual)), data)
            == !EvaluateSingleCondition(c.(operator := Tag(LooseEqual)), data)
  {
    TagRoundTrip(LooseNotEqual);
    TagRoundTrip(LooseEqual);
  }

  /** `notContains` negates `contains` on array and string facts; on any other fact both are false. */
  lemma NotContainsNegates(c: Condition, data: JsVal)
    ensures var fact := FactValue(c, data);
            var yes := EvaluateSingleCondition(c.(operator := Tag(Contains)), data);
            var no := EvaluateSingleCondition(c.(operator := Tag(NotContains)), data);
            if fact.Arr? || fact.Str? then no == !yes else !yes && !no
  {
    TagRoundTrip(Contains);
    TagRoundTrip(NotContains);
  }

  /**
   * Each documented pair that has evaluation cases is a true negation past the
   * truthiness guard (for contains/notContains, on array and string facts).
   */
  lemma DocumentedNegationEvaluates(c: Condition, data: JsVal, op: Operator)
    requires Truthy(data)
    requires DocumentedNegation(op).Some? && HasHandler(op)
    requires op in {Contains, NotContains} ==> FactValue(c, data).Arr? || FactValue(c, data).Str?
    ensures EvaluateSingleCondition(c.(operator := Tag(DocumentedNegation(op).value)), data)
            == !EvaluateSingleCondition(c.(operator := Tag(op)), data)
  {
    TagRoundTrip(op);
    TagRoundTrip(DocumentedNegation(op).value);
  }

  /** The regexMatch/regexNotMatch pair is documented as a negation but both are always false. */
  lemma RegexPairIsNotNegation(c: Condition, data: JsVal)
    ensures !EvaluateSingleCondition(c.(operator := Tag(RegexMatch)), data)
    ensures !EvaluateSingleCondition(c.(operator := Tag(RegexNotMatch)), data)
  {
    TagRoundTrip(RegexMatch);
    TagRoundTrip(RegexNotMatch);
  }

  /**
   * A `startsWith` or `endsWith` leaf that holds implies that the `contains`
   * leaf with the same fact and value holds: a prefix or a suffix occurs.
   */
  lemma AffixLeafImpliesContains(c: Condition, data: JsVal)
    ensures EvaluateSingleCondition(c.(operator := Tag(StartsWith)), data)
            ==> EvaluateSingleCondition(c.(operator := Tag(Contains)), data)
    ensures EvaluateSingleCondition(c.(operator := Tag(EndsWith)), data)
            ==> EvaluateSingleCondition(c.(operator := Tag(Contains)), data)
  {
    TagRoundTrip(StartsWith);
    TagRoundTrip(EndsWith);
    TagRoundTrip(Contains);
    var fact := FactValue(c, data);
    if Truthy(data) && fact.Str? {
      var needle := ToString(c.value);
      if StringStartsWith(fact.s, needle) {
        assert OccursAt(fact.s, needle, 0);
      }
      if StringEndsWith(fact.s, needle) {
        assert OccursAt(fact.s, needle, |fact.s| - |needle|);
      }
    }
  }

  lemma StartsEndsNeedString(c: Condition, data: JsVal)
    requires !FactValue(c, data).Str?
    ensures !EvaluateSingleCondition(c.(operator := Tag(StartsWith)), data)
    ensures !EvaluateSingleCondition(c.(operator := Tag(EndsWith)), data)
  {
    TagRoundTrip(StartsWith);
    TagRoundTrip(EndsWith);
  }

  /** On a number fact and a number value, the four ordered operators compare the integers. */
  lemma OrderedOperatorsOnNumbers(c: Condition, data: JsVal, x: int, y: int)
    requires Truthy(data) && FactValue(c, data) == Num(x) && c.value == Num(y)
    ensures EvaluateSingleCondition(c.(operator := Tag(Operators.GreaterThan)), data) <==> x > y
    ensures EvaluateSingleCondition(c.(operator := Tag(Operators.LessThan)), data) <==> x < y
    ensures EvaluateSingleCondition(c.(operator := Tag(Operators.GreaterThanOrEqual)), data) <==> x >= y
    ensures EvaluateSingleCondition(c.(operator := Tag(Operators.LessThanOrEqual)), data) <==> x <= y
  {
    TagRoundTrip(Operators.GreaterThan);
    TagRoundTrip(Operators.LessThan);
    TagRoundTrip(Operators.GreaterThanOrEqual);
    TagRoundTrip(Operators.LessThanOrEqual);
    NumberOrdering(x, y);
  }

  /** On an array fact, `contains` with a primitive value is membership. */
  lemma ContainsOnArray(c: Condition, data: JsVal)
    requires Truthy(data) && FactValue(c, data).Arr? && IsPrimitive(c.value)
    ensures EvaluateSingleCondition(c.(operator := Tag(Contains)), data) <==> c.value in FactValue(c, data).elems
  {
    TagRoundTrip(Contains);
    var elems := FactValue(c, data).elems;
    if c.value in elems {
      var i :| 0 <= i < |elems| && elems[i] == c.value;
      StrictEqualsIsPrimitiveIdentity(elems[i], c.value);
    }
    forall i | 0 <= i < |elems| && StrictEquals(elems[i], c.value)
      ensures c.value in elems
    {
      StrictEqualsIsPrimitiveIdentity(elems[i], c.value);
    }
  }

  /** On a string fact and a string value, `startsWith` and `endsWith` are the prefix and suffix tests. */
  lemma PrefixSuffixOnStrings(c: Condition, data: JsVal, s: string, p: string)
    requires Truthy(data) && FactValue(c, data) == Str(s) && c.value == Str(p)
    ensures EvaluateSingleCondition(c.(operator := Tag(StartsWith)), data) <==> |p| <= |s| && s[..|p|] == p
    ensures EvaluateSingleCondition(c.(operator := Tag(EndsWith)), data) <==> |p| <= |s| && s[|s| - |p|..] == p
  {
    TagRoundTrip(StartsWith);
    TagRoundTrip(EndsWith);
  }

  /** The `constant` property plays no part in this engine's evaluation. */
  lemma ConstantIsIgnored(c: Condition, k: Option<JsVal>, data: JsVal)
    ensures EvaluateSingleCondition(c.(constant := k), data) == EvaluateSingleCondition(c, data)
  {
  }

  /** The number 10 and the string "10": strictly unequal, loosely equal. */
  lemma NumberVersusNumericString(c: Condition, data: JsVal)
    requires data == Obj(map["factValue" := Num(10)])
    requires c.fact == Some("factValue") && c.value == Str("10")
    ensures !EvaluateSingleCondition(c.(operator := Tag(StrictEqual)), data)
    ensures EvaluateSingleCondition(c.(operator := Tag(StrictNotEqual)), data)
    ensures EvaluateSingleCondition(c.(operator := Tag(LooseEqual)), data)
    ensures !EvaluateSingleCondition(c.(operator := Tag(LooseNotEqual)), data)
  {
    TagRoundTrip(StrictEqual);
    TagRoundTrip(StrictNotEqual);
    TagRoundTrip(LooseEqual);
    TagRoundTrip(LooseNotEqual);
    NumberStringRoundTrip(10);
    assert NumberToString(10) == "10";
  }
}
