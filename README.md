# obey-the-rule: a verified model of the rule engine

This project models the `RuleEngine` class of obey-the-rule and the `Operator`
enum it switches over. A rule engine holds an append-only list of rules and an
object of named user functions. `obey` walks the rules in order. For each rule
it calls the `before` action by name, evaluates the rule's `and`/`or` list of
conditions against the result, and calls the `after` action with that result
only when the conditions hold. Each condition compares one top-level property
of the fetched data (`value[condition.fact]`) with `condition.value`, using one
of twelve operators.

Files:

- `wrappers.dfy`: `Option`.
- `js_values.dfy` (module `JsValues`): the JSON-like value type `JsVal`. It
  also holds the JavaScript semantics the operators rely on: truthiness,
  property access, `===`, `==` (IsLooselyEqual), the relational comparison
  (IsLessThan), ToString, ToPrimitive and ToNumber. The algorithms follow the
  ECMAScript Language Specification.
- `operators.dfy` (module `Operators`): the sixteen operators and their string
  tags (src/Operator.ts).
- `conditions.dfy` (module `Conditions`): conditions, condition trees,
  `evaluateSingleCondition`, and the `every`/`some` combinations.
- `rule_engine.dfy` (module `Engine`): actions, rules, `callFunction`, and the
  class `RuleEngine` with `addRule`, `evaluateConditions` and `obey`. It also
  has the properties of a run and the test scenarios.

Decisions:

- `obey` returns `Promise<void>` in the source. The model's `Obey` returns one
  boolean per rule. These booleans match the "rule succeeded" and "rule
  failed" console lines. `Obey` also returns the log of the `callFunction`
  dispatches it made, in order. A dispatch is a `before` call, or an `after`
  call with the data it was given.
- User functions are a map from name to a `Binding`. A binding is either a
  deterministic function of `(params, beforeResult)` that returns a value or
  throws, or a property that is not a function.
- A condition keeps its operator as the raw tag string, because the source
  switches on strings and a rule object can carry any string there.
  `Operators.FromTag` recognises the sixteen tags.
- An absent `fact` reads the property named `"undefined"`, since JavaScript
  converts the key `undefined` to that string. An absent `before` makes
  `callFunction` read `func` of `undefined`. That throws inside the `try`, so
  the result is `Undefined`.
- The tests (__tests__/RuleEngine.test.ts:209-223) expect `obey` to return a
  Result list, and the examples use `constant`, dotted and indexed fact paths
  and `EACH`. src/RuleEngine.ts implements none of these, and the model follows
  the code. When a tree has both `and` and `or`, `or` wins, because it is
  assigned last (`Conditions.OrOverridesAnd`). An unknown operator makes a
  leaf `false`. So does a fact of the wrong shape for `contains`,
  `notContains`, `startsWith` or `endsWith`: those cases return `false` unless
  the fact is an array or a string (src/RuleEngine.ts:95-122). The other cases
  compare with JavaScript's coercions, so a mismatch of types may still hold:
  `10 !== '10'` and `'10' > 5` are both true. A missing or failing function is
  logged and becomes `undefined`.

## Model

| member | source | states |
|---|---|---|
| `JsValues.Truthy` | src/RuleEngine.ts:74-76 | definition of `!value` negated (ToBoolean): false for undefined, null, false, 0 and the empty string, true for every other value, arrays and objects included |
| `JsValues.FalsyValues` | src/RuleEngine.ts:74-76 | `!value` holds exactly for undefined, null, false, 0 and the empty string |
| `JsValues.NatToDecimal` | src/RuleEngine.ts:98-99 | the decimal numeral of a natural number is non-empty, all digits and has no leading zero |
| `JsValues.DecimalRoundTrip` | src/RuleEngine.ts:98-99 | reading back the numeral of `n` gives `n` |
| `JsValues.StringToNumber` | src/RuleEngine.ts:79-80 | definition of the string-to-number conversion `==` applies: the empty string is 0, an optional sign and decimal digits are their value, anything else is NaN (`None`) |
| `JsValues.ToString` | src/RuleEngine.ts:98-122 | definition of String(value): `"undefined"`, `"null"`, `"true"`/`"false"`, the decimal numeral, the string itself, the comma-joined elements of an array, `"[object Object]"` |
| `JsValues.JoinFrom` | src/RuleEngine.ts:98-122 | definition of Array.prototype.join from element `i` on: elements separated by commas, undefined and null elements written as the empty string |
| `JsValues.ToNumber` | src/RuleEngine.ts:87-94 | definition of ToNumber: undefined is NaN, null and false are 0, true is 1, a string goes through StringToNumber, and an array or object through its string form |
| `JsValues.NumberToString` | src/RuleEngine.ts:98-99 | definition of Number.prototype.toString for an integer: a minus sign for negatives, then the decimal numeral of the magnitude; never empty |
| `JsValues.NumberStringRoundTrip` | src/RuleEngine.ts:79-80 | `Number(String(n)) == n` for every integer, the conversion `==` uses between numbers and strings |
| `JsValues.ToPrimitive` | src/RuleEngine.ts:87-94 | definition of ToPrimitive on the value domain: primitives stay, arrays and plain objects become their string form; the result is always primitive |
| `JsValues.ArrayIndex` | src/RuleEngine.ts:80 | a key that is accepted as an array index is exactly the canonical numeral of that index |
| `JsValues.CanonicalDecimal` | src/RuleEngine.ts:80 | a digit string with no leading zero is the numeral of its own value |
| `JsValues.GetProperty` | src/RuleEngine.ts:80 | definition of `value[key]`: an own property of a plain object, the length or an in-range indexed element of an array or a string, and undefined for everything else |
| `JsValues.ArrayElementAccess` | src/RuleEngine.ts:80 | `array[String(i)]` is element `i` for every index in range |
| `JsValues.StringIndexAccess` | src/RuleEngine.ts:80 | `string[String(i)]` is the one-character string at `i` for every index in range |
| `JsValues.OnlyIndexKeysRead` | src/RuleEngine.ts:80 | on an array or a string, a key other than `length` reads a value only when it is the canonical numeral of an index in range; every other key gives undefined |
| `JsValues.StrictEquals` | src/RuleEngine.ts:81-82 | definition of `===`: same type and same primitive value; arrays and objects are never strictly equal |
| `JsValues.LooseEquals` | src/RuleEngine.ts:79-80 | definition of `==` (IsLooselyEqual): same type compares strictly, undefined and null equal each other only, numbers against strings and booleans convert to numbers, arrays and objects convert to primitives |
| `JsValues.StrictEqualsIsPrimitiveIdentity` | src/RuleEngine.ts:81-82 | `===` holds exactly for identical primitive values; two objects or arrays are never strictly equal |
| `JsValues.StrictImpliesLoose` | src/RuleEngine.ts:79-82 | whatever is `===` is also `==` |
| `JsValues.LooseEqualsSymmetric` | src/RuleEngine.ts:79-80 | `a == b` and `b == a` agree for all values |
| `JsValues.LooseNumberString` | src/RuleEngine.ts:79-82 | a number is loosely equal to exactly the strings that convert to it, and is never strictly equal to a string |
| `JsValues.StringLess` | src/RuleEngine.ts:87-94 | definition of string `<`: lexicographic order on characters, a proper prefix sorting first |
| `JsValues.StringLessStrictTotal` | src/RuleEngine.ts:87-94 | string `<` is irreflexive, asymmetric and total on distinct strings |
| `JsValues.IsLessThan` | src/RuleEngine.ts:87-94 | the comparison is defined (not NaN) when both sides are strings or both convert to numbers |
| `JsValues.LessThan` | src/RuleEngine.ts:89-90 | definition of `a < b`: IsLessThan(a, b) is true; NaN gives false |
| `JsValues.GreaterThan` | src/RuleEngine.ts:87-88 | definition of `a > b`: IsLessThan(b, a) is true; NaN gives false |
| `JsValues.LessThanOrEqual` | src/RuleEngine.ts:93-94 | definition of `a <= b`: IsLessThan(b, a) is false, not NaN |
| `JsValues.GreaterThanOrEqual` | src/RuleEngine.ts:91-92 | definition of `a >= b`: IsLessThan(a, b) is false, not NaN |
| `JsValues.NumberOrdering` | src/RuleEngine.ts:87-94 | `>`, `<`, `>=`, `<=` on two numbers are the integer comparisons |
| `JsValues.StringOrdering` | src/RuleEngine.ts:87-94 | on two strings, `<` is the negation of `>=`, and `>=` is `>` or equality |
| `JsValues.UndefinedIsUnordered` | src/RuleEngine.ts:87-94 | a missing (undefined) fact makes all four ordered comparisons false |
| `Operators.Tag` | src/Operator.ts:10-55 | definition of each member's string value, as the enum assigns it |
| `Operators.FromTag` | src/Operator.ts:8-56 | a recognised tag is the tag of the operator it yields |
| `Operators.TagRoundTrip` | src/Operator.ts:10-55 | converting an operator to its tag and back gives the operator |
| `Operators.TagInjective` | src/Operator.ts:10-55 | distinct operators have distinct tags |
| `Operators.OperatorSetClosed` | src/Operator.ts:8-56 | the enum has exactly sixteen members, each listed once, with pairwise distinct tags |
| `Operators.HandledAreFirstTwelve` | src/Operator.ts:45-55 | of the sixteen members in declaration order, exactly the first twelve have an evaluation case |
| `Operators.DocumentedNegation` | src/Operator.ts:9-49 | the pairs the members' documentation describes as opposites (`===`/`!==`, `==`/`!=`, contains/does not contain, matches/does not match); an operator is never its own opposite |
| `Operators.NegationIsInvolution` | src/Operator.ts:33-49 | the documented pairs (strict and loose equality, contains, regex match) are symmetric |
| `Conditions.FactKey` | src/RuleEngine.ts:80 | definition of the key `condition.fact` converts to: the fact itself, or "undefined" when it is absent |
| `Conditions.FactValue` | src/RuleEngine.ts:80 | definition of `value[condition.fact]`: that property of the `before` result, the left operand of every case |
| `Conditions.ArrayIncludes` | src/RuleEngine.ts:97 | definition of Array.prototype.includes on the model's values: some element is strictly equal to the needle |
| `Conditions.StringIncludes` | src/RuleEngine.ts:98-99 | definition of String.prototype.includes: the needle occurs at some position |
| `Conditions.StringStartsWith` | src/RuleEngine.ts:111-116 | definition of String.prototype.startsWith: the needle is a prefix |
| `Conditions.StringEndsWith` | src/RuleEngine.ts:117-122 | definition of String.prototype.endsWith: the needle is a suffix |
| `Conditions.AffixLeafImpliesContains` | src/RuleEngine.ts:95-122 | a `startsWith` or `endsWith` leaf that holds implies that the `contains` leaf with the same fact and value holds |
| `Conditions.EvaluateSingleCondition` | src/RuleEngine.ts:73-126 | a falsy `before` result fails every leaf; a leaf can only hold when its tag names one of the twelve handled operators |
| `Conditions.Every` | src/RuleEngine.ts:57 | the `every` combination holds exactly when every leaf holds |
| `Conditions.Any` | src/RuleEngine.ts:61 | the `some` combination holds exactly when some leaf holds |
| `Conditions.ConditionsMet` | src/RuleEngine.ts:53-65 | definition of a tree's meaning: the `or` list decides when present, else the `and` list, else false |
| `Conditions.AndOnly` | src/RuleEngine.ts:56-58 | a tree with only `and` holds exactly when all its leaves hold |
| `Conditions.OrOnly` | src/RuleEngine.ts:60-62 | a tree with only `or` holds exactly when some leaf holds |
| `Conditions.OrOverridesAnd` | src/RuleEngine.ts:54-64 | with both keys present, the result is the `or` result alone |
| `Conditions.VacuousTrees` | src/RuleEngine.ts:54-64 | an empty `and` holds on any data; an empty `or`, both lists empty, and a tree with neither key are false |
| `Conditions.FalsyDataFailsEveryLeaf` | src/RuleEngine.ts:74-76 | on falsy data a tree holds exactly when it is a lone empty `and` list |
| `Conditions.UnhandledOperatorIsFalse` | src/RuleEngine.ts:123-124 | a leaf with an unknown tag or an unhandled operator is false |
| `Conditions.DeclaredWithoutHandler` | src/Operator.ts:45-55 | regexMatch, regexNotMatch, arrayContains and each always evaluate to false |
| `Conditions.StrictNotEqualNegates` | src/RuleEngine.ts:81-86 | on truthy data, `strictNotEqual` is the negation of `strictEqual` for the same fact and value |
| `Conditions.LooseNotEqualNegates` | src/RuleEngine.ts:79-84 | on truthy data, `looseNotEqual` is the negation of `looseEqual` |
| `Conditions.NotContainsNegates` | src/RuleEngine.ts:95-110 | on array or string facts, `notContains` negates `contains`; on any other fact both are false |
| `Conditions.DocumentedNegationEvaluates` | src/RuleEngine.ts:78-110 | on truthy data, each documented pair that has an evaluation case is a true negation: the opposite operator gives the negated result (for contains/notContains, on array and string facts) |
| `Conditions.RegexPairIsNotNegation` | src/Operator.ts:45-49 | regexMatch and regexNotMatch are documented as opposites but both evaluate to false on every input, so the negation does not hold for them |
| `Conditions.StartsEndsNeedString` | src/RuleEngine.ts:111-122 | `startsWith` and `endsWith` are false when the fact is not a string |
| `Conditions.OrderedOperatorsOnNumbers` | src/RuleEngine.ts:87-94 | on number facts and values, the four ordered operators are the integer comparisons |
| `Conditions.ContainsOnArray` | src/RuleEngine.ts:95-97 | on an array fact, `contains` with a primitive value is membership in the array |
| `Conditions.PrefixSuffixOnStrings` | src/RuleEngine.ts:111-122 | on string facts and values, `startsWith`/`endsWith` are the prefix and suffix tests |
| `Conditions.ConstantIsIgnored` | src/RuleEngine.ts:73-126 | a leaf's `constant` has no effect on its result |
| `Conditions.NumberVersusNumericString` | src/RuleEngine.ts:79-86 | fact 10 against '10': strictly unequal, loosely equal |
| `Engine.Invokes` | src/RuleEngine.ts:138 | definition of the guard of `callFunction`: the action exists, its name is a key of the functions object, and the binding is a function |
| `Engine.Invoke` | src/RuleEngine.ts:139 | definition of the call `functions[action.func](action.params, beforeResult)` and its outcome, a value or a throw |
| `Engine.CallFunction` | src/RuleEngine.ts:136-146 | the result is a value only if the named function exists, is a function and returned that value; a returned value always comes back |
| `Engine.BeforeResult` | src/RuleEngine.ts:36 | definition of `beforeResult`: `callFunction` of the rule's `before` with no context |
| `Engine.RuleSatisfied` | src/RuleEngine.ts:37 | definition of the loop's test: the rule's conditions hold on its `beforeResult` |
| `Engine.RuleDispatches` | src/RuleEngine.ts:35-44 | one iteration dispatches the rule's `before` first, then `after` with the fetched data exactly when the rule is satisfied, and nothing else |
| `Engine.DispatchLog` | src/RuleEngine.ts:35-44 | a run makes between one and two dispatches per rule, and starts with the first rule's `before` |
| `Engine.RuleEngine.constructor` | src/RuleEngine.ts:18-21 | a new engine has no rules and the given functions |
| `Engine.RuleEngine.AddRule` | src/RuleEngine.ts:27-29 | the rule is appended at the end; earlier rules and the functions are unchanged |
| `Engine.RuleEngine.EvaluateConditions` | src/RuleEngine.ts:53-65 | the status computed by the two successive assignments is the tree's meaning: `or` when present, else `and`, else false |
| `Engine.RuleEngine.Obey` | src/RuleEngine.ts:34-45 | one outcome per rule, in order, true exactly when the rule's conditions hold on its fetched data; the dispatch log is the run's log |
| `Engine.DispatchLogAppend` | src/RuleEngine.ts:35-44 | rules are independent: the log of `a + b` is the log of `a` followed by the log of `b` |
| `Engine.DispatchLogAfterAddRule` | src/RuleEngine.ts:27-29 | adding a rule extends the next run's log by that rule's dispatches only |
| `Engine.RuleBlock` | src/RuleEngine.ts:35-44 | rule `i`'s dispatches sit between those of the earlier and the later rules |
| `Engine.BeforesOfRule` | src/RuleEngine.ts:35-36 | one iteration makes exactly one `before` dispatch, for its own rule |
| `Engine.BeforeOncePerRule` | src/RuleEngine.ts:35-36 | there is exactly one `before` dispatch per rule, in list order |
| `Engine.AftersOfRule` | src/RuleEngine.ts:37-38 | one iteration makes one `after` dispatch when its rule is satisfied and none otherwise |
| `Engine.AfterOncePerSatisfiedRule` | src/RuleEngine.ts:37-38 | `after` is dispatched once per satisfied rule and for no other; the log has one entry per rule plus one per satisfied rule |
| `Engine.FailedFetch` | src/RuleEngine.ts:136-146 | a missing `before`, an unknown or non-function name, or a throw leaves only a lone empty `and` satisfiable |
| `Engine.RunOneRule` | __tests__/RuleEngine.test.ts:35-57 | a fresh engine with one added rule runs that rule alone |
| `Engine.ScenarioConditionsMet` | __tests__/RuleEngine.test.ts:35-45 | with `factValue` 10 and `greaterThanOrEqual` 10, the rule succeeds and `after` is called with the fetched data |
| `Engine.ScenarioConditionsNotMet` | __tests__/RuleEngine.test.ts:47-57 | with `lessThan` 10, the rule fails and only `before` is dispatched |
| `Engine.ScenarioFailedFetch` | __tests__/RuleEngine.test.ts:202-224 | a missing function and a throwing function both fail the rule, and `after` is never dispatched |

## Left out

- Console output and `JSON.stringify` of rules. The per-rule booleans and the dispatch log stand in for the log lines.
- `async`/`await`. Every call is one synchronous step, and there is no concurrency.
- The user functions of the tests, the examples and src/main.ts. They are abstract deterministic functions here. Their side effects are visible only as dispatches in the log.
- Floating point. Numbers are unbounded integers, so there are no fractions, no NaN value, no infinities, no `-0` and no precision loss above 2^53. Printing an integer never uses exponent notation.
- `JsValues.StringToNumber` reads only the empty string and an optional sign followed by decimal digits. Surrounding whitespace, fractions, exponents, hexadecimal/octal/binary forms and `Infinity` are read as NaN.
- `JsValues.StrictEquals`: object identity is not modelled. Two objects or arrays are never `===`, and `includes` never finds one, even when the source could share a reference.
- `JsValues.GetProperty`: `length` and index access on strings count Unicode scalar values, not UTF-16 code units. For example "😀" has length 1 here and 2 in JavaScript, and its index 0 reads the whole character instead of a lone surrogate.
- `JsValues.GetProperty`: inherited properties are not modelled. Methods such as `toString`, `constructor`, or the methods of strings and arrays, are functions and outside the value domain, so they read as undefined.
- `JsValues.StringLess` compares Dafny characters (Unicode scalar values), not UTF-16 code units. The two orders differ only for characters outside the Basic Multilingual Plane.
- `Engine.Invokes` looks the name up among the map's own keys. The source's `in` also sees inherited properties of the functions object, such as `toString`.
- Exceptions thrown by condition evaluation escape `obey`, because `evaluateConditions` is outside any `try`, and the run stops at that rule. The model's trees cannot express two such inputs: an `and` key bound to `undefined`, and `conditions` itself missing. The model's values can express a third, a plain object with an own `toString` property (see the next two lines); there the model evaluates the leaf, and `Obey` goes on returning one outcome per rule.
- `JsValues.ToString`: a plain object with an own `toString` property that is not a function is read as `"[object Object]"`. JavaScript's OrdinaryToPrimitive finds that property not callable, and the inherited `valueOf` returns the object itself, so the conversion throws a TypeError and `obey` rejects. This applies to a `contains`, `startsWith` or `endsWith` needle that is such an object, and to an array that holds one. An example is `before` returning `{a: {toString: 1}}` with the leaf `{fact: "a", operator: "looseEqual", value: "[object Object]"}`.
- `JsValues.ToPrimitive`: for the same reason, it returns `"[object Object]"` for a plain object with an own non-function `toString`, where JavaScript throws. The `==` and ordered comparisons (src/RuleEngine.ts:79-94) therefore give a result for such an object, where the source's run stops.
- A user function that adds rules to the engine during `obey` is not modelled.
- The features this version of the engine lacks, although the tests and examples use them: `constant`, dotted and indexed fact paths, `each`, `addRules`, and a returned Result list.
- src/main.ts and examples/* are demo drivers with console I/O. examples/read-from-outside-json/read-from-outside.ts reads files. src/index.ts only re-exports. src/IResult.ts is never produced by this engine. None of these are part of this model.
