/**
 * The rule engine of src/RuleEngine.ts: an append-only list of rules, a map of
 * named user functions, the name-based dispatcher `callFunction`, the condition
 * evaluator and the `obey` loop.
 *
 * User functions are deterministic and total: called with `(params, context)`
 * they either return a value or throw. Every call is a synchronous step. The
 * observable effect of a run is the sequence of dispatches the loop makes,
 * returned by `Obey` as a log beside one success flag per rule.
 */
module Engine {
  import opened Wrappers
  import opened JsValues
  import opened Conditions

  /** `{ func, params }`; an absent `params` is `Undefined`. */
  datatype Action = Action(func: string, params: JsVal)

  /** `{ before?, conditions, after }` */
  datatype Rule = Rule(before: Option<Action>, conditions: ConditionTree, after: Action)

  /** What one call of a user function does. */
  datatype Outcome = Returned(result: JsVal) | Threw

  /** A property of the `functions` object: a function, or some other value. */
  datatype Binding = Callable(invoke: (JsVal, JsVal) -> Outcome) | NotCallable(value: JsVal)

  type Functions = map<string, Binding>

  /** `callFunction` reaches a user function: the action exists and its name is bound to a function. */
  predicate Invokes(functions: Functions, action: Option<Action>) {
    action.Some? && action.value.func in functions && functions[action.value.func].Callable?
  }

  /** The outcome of calling the bound function with `(params, context)`. */
  function Invoke(functions: Functions, action: Option<Action>, context: JsVal): Outcome
    requires Invokes(functions, action)
  {
    functions[action.value.func].invoke(action.value.params, context)
  }

  /**
   * `callFunction(action, beforeResult)`. An absent action (reading `func` of
   * undefined throws inside the `try`), an unknown name, a name bound to a
   * non-function and a thrown error all come back as `Undefined`.
   */
  function CallFunction(functions: Functions, action: Option<Action>, context: JsVal): (r: JsVal)
    ensures r != Undefined ==> Invokes(functions, action) && Invoke(functions, action, context) == Returned(r)
    ensures Invokes(functions, action) && Invoke(functions, action, context).Returned?
            ==> r == Invoke(functions, action, context).result
  {
    if Invokes(functions, action) then
      match Invoke(functions, action, context)
      case Returned(v) => v
      case Threw => Undefined
    else Undefined
  }

  // ---------------------------------------------------------------------------
  // What one run does

  /** One step of the run: a `callFunction` for a rule's `before`, or for its `after` with the fetched data. */
  datatype Dispatch = BeforeCall(before: Option<Action>) | AfterCall(after: Action, context: JsVal)

  /** The data a rule's conditions are evaluated against. */
  function BeforeResult(functions: Functions, rule: Rule): JsVal {
    CallFunction(functions, rule.before, Undefined)
  }

  /** The rule's conditions hold on its fetched data (the "rule succeeded" line). */
  predicate RuleSatisfied(functions: Functions, rule: Rule) {
    ConditionsMet(rule.conditions, BeforeResult(functions, rule))
  }

  /** The dispatches one iteration of the loop makes. */
  function RuleDispatches(functions: Functions, rule: Rule): (r: seq<Dispatch>)
    ensures 1 <= |r| <= 2 && r[0] == BeforeCall(rule.before)
    ensures |r| == 2 <==> RuleSatisfied(functions, rule)
    ensures |r| == 2 ==> r[1] == AfterCall(rule.after, BeforeResult(functions, rule))
  {
    [BeforeCall(rule.before)]
    + if RuleSatisfied(functions, rule) then [AfterCall(rule.after, BeforeResult(functions, rule))] else []
  }

  /** The dispatches of a run over `rules`, in order. */
  function DispatchLog(functions: Functions, rules: seq<Rule>): (r: seq<Dispatch>)
    ensures |rules| <= |r| <= 2 * |rules|
    ensures rules != [] ==> r[0] == BeforeCall(rules[0].before)
    decreases |rules|
  {
    if rules == [] then []
    else DispatchLog(functions, rules[..|rules| - 1]) + RuleDispatches(functions, rules[|rules| - 1])
  }

  /** The `before` dispatches of a log, in order. */
  function Befores(log: seq<Dispatch>): seq<Option<Action>>
    decreases |log|
  {
    if log == [] then []
    else Befores(log[..|log| - 1]) + (if log[|log| - 1].BeforeCall? then [log[|log| - 1].before] else [])
  }

  /** How many `after` dispatches a log holds. */
  function AfterCount(log: seq<Dispatch>): nat
    decreases |log|
  {
    if log == [] then 0 else AfterCount(log[..|log| - 1]) + (if log[|log| - 1].AfterCall? then 1 else 0)
  }

  /** How many of the rules are satisfied. */
  function SatisfiedCount(functions: Functions, rules: seq<Rule>): nat
    decreases |rules|
  {
    if rules == [] then 0
    else SatisfiedCount(functions, rules[..|rules| - 1]) + (if RuleSatisfied(functions, rules[|rules| - 1]) then 1 else 0)
  }

  // ---------------------------------------------------------------------------
  // The engine object

  class RuleEngine {
    var rules: seq<Rule>
    var functions: Functions

    constructor (functions: Functions)
      ensures this.rules == [] && this.functions == functions
    {
      this.rules := [];
      this.functions := functions;
    }

    /** Appends `rule`; nothing else changes. */
    method AddRule(rule: Rule)
      modifies this
      ensures rules == old(rules) + [rule]
      ensures functions == old(functions)
    {
      rules := rules + [rule];
    }

    /** `and` is evaluated first and `or` after it, each assignment replacing `status`. */
    method EvaluateConditions(conditions: ConditionTree, value: JsVal) returns (status: bool)
      ensures status == ConditionsMet(conditions, value)
    {
      status := false;
      if conditions.and.Some? {
        status := Every(conditions.and.value, value);
      }
      if conditions.or.Some? {
        status := Any(conditions.or.value, value);
      }
    }

    /**
     * Runs every rule once, in list order: fetch with `before`, evaluate the
     * conditions on the result, and dispatch `after` with that result only when
     * they hold. `outcomes[i]` is the succeeded/failed line of rule `i`.
     */
    method Obey() returns (outcomes: seq<bool>, log: seq<Dispatch>)
      ensures |outcomes| == |rules|
      ensures forall i :: 0 <= i < |rules| ==> outcomes[i] == RuleSatisfied(functions, rules[i])
      ensures log == DispatchLog(functions, rules)
    {
      outcomes, log := [], [];
      for i := 0 to |rules|
        invariant |outcomes| == i
        invariant forall k :: 0 <= k < i ==> outcomes[k] == RuleSatisfied(functions, rules[k])
        invariant log == DispatchLog(functions, rules[..i])
      {
        var rule := rules[i];
        var beforeResult := CallFunction(functions, rule.before, Undefined);
        log := log + [BeforeCall(rule.before)];
        var met := EvaluateConditions(rule.conditions, beforeResult);
        if met {
          var _ := CallFunction(functions, Some(rule.after), beforeResult);
          log := log + [AfterCall(rule.after, beforeResult)];
        }
        outcomes := outcomes + [met];
        assert rules[..i + 1][..i] == rules[..i];
      }
      assert rules[..|rules|] == rules;
    }
  }

  // ---------------------------------------------------------------------------
  // Properties of a run

  /** Rules are independent: a run over `a + b` is a run over `a` followed by a run over `b`. */
  lemma {:induction false} DispatchLogAppend(functions: Functions, a: seq<Rule>, b: seq<Rule>)
    ensures DispatchLog(functions, a + b) == DispatchLog(functions, a) + DispatchLog(functions, b)
    decreases |b|
  {
    if b != [] {
      var front := b[..|b| - 1];
      assert (a + b)[..|a + b| - 1] == a + front;
      assert (a + b)[|a + b| - 1] == b[|b| - 1];
      DispatchLogAppend(functions, a, front);
    } else {
      assert a + b == a;
    }
  }

  /** Adding a rule extends the next run by exactly that rule's dispatches. */
  lemma DispatchLogAfterAddRule(functions: Functions, rules: seq<Rule>, rule: Rule)
    ensures DispatchLog(functions, rules + [rule]) == DispatchLog(functions, rules) + RuleDispatches(functions, rule)
  {
    assert (rules + [rule])[..|rules|] == rules;
  }

  /** The dispatches of rule `i` sit between those of the rules before and after it. */
  lemma RuleBlock(functions: Functions, rules: seq<Rule>, i: nat)
    requires i < |rules|
    ensures DispatchLog(functions, rules)
            == DispatchLog(functions, rules[..i]) + RuleDispatches(functions, rules[i]) + DispatchLog(functions, rules[i + 1..])
  {
    assert rules == rules[..i] + [rules[i]] + rules[i + 1..];
    DispatchLogAppend(functions, rules[..i] + [rules[i]], rules[i + 1..]);
    DispatchLogAfterAddRule(functions, rules[..i], rules[i]);
  }

  lemma {:induction false} BeforesAppend(a: seq<Dispatch>, b: seq<Dispatch>)
    ensures Befores(a + b) == Befores(a) + Befores(b)
    decreases |b|
  {
    if b == [] {
      assert a + b == a;
    } else {
      assert (a + b)[..|a + b| - 1] == a + b[..|b| - 1];
      BeforesAppend(a, b[..|b| - 1]);
    }
  }

  lemma {:induction false} AfterCountAppend(a: seq<Dispatch>, b: seq<Dispatch>)
    ensures AfterCount(a + b) == AfterCount(a) + AfterCount(b)
    decreases |b|
  {
    if b == [] {
      assert a + b == a;
    } else {
      assert (a + b)[..|a + b| - 1] == a + b[..|b| - 1];
      AfterCountAppend(a, b[..|b| - 1]);
    }
  }

  /** One iteration makes exactly one `before` dispatch, for its own rule. */
  lemma BeforesOfRule(functions: Functions, rule: Rule)
    ensures Befores(RuleDispatches(functions, rule)) == [rule.before]
  {
    var tail := RuleDispatches(functions, rule);
    var head := [BeforeCall(rule.before)];
    assert tail == head + tail[1..];
    BeforesAppend(head, tail[1..]);
    assert Befores(head) == [rule.before] by {
      assert head[..0] == [];
    }
    assert Befores(tail[1..]) == [] by {
      if tail[1..] != [] {
        assert tail[1..][..0] == [];
      }
    }
  }

  /** Every rule's `before` is dispatched exactly once, in list order. */
  lemma {:induction false} BeforeOncePerRule(functions: Functions, rules: seq<Rule>)
    ensures |Befores(DispatchLog(functions, rules))| == |rules|
    ensures forall i :: 0 <= i < |rules| ==> Befores(DispatchLog(functions, rules))[i] == rules[i].before
    decreases |rules|
  {
    if rules != [] {
      var front := rules[..|rules| - 1];
      var last := rules[|rules| - 1];
      BeforeOncePerRule(functions, front);
      var log, frontLog := DispatchLog(functions, rules), DispatchLog(functions, front);
      assert log == frontLog + RuleDispatches(functions, last);
      BeforesAppend(frontLog, RuleDispatches(functions, last));
      BeforesOfRule(functions, last);
      var bs := Befores(log);
      assert bs == Befores(frontLog) + [last.before];
      forall i | 0 <= i < |rules|
        ensures bs[i] == rules[i].before
      {
        if i < |front| {
          assert rules[i] == front[i];
        }
      }
    }
  }

  /** One iteration makes one `after` dispatch when its rule is satisfied, none otherwise. */
  lemma AftersOfRule(functions: Functions, rule: Rule)
    ensures AfterCount(RuleDispatches(functions, rule)) == if RuleSatisfied(functions, rule) then 1 else 0
  {
    var tail := RuleDispatches(functions, rule);
    var head := [BeforeCall(rule.before)];
    assert tail == head + tail[1..];
    AfterCountAppend(head, tail[1..]);
    assert AfterCount(head) == 0 by {
      assert head[..0] == [];
    }
    if RuleSatisfied(functions, rule) {
      assert tail[1..][..0] == [];
    }
  }

  /** `after` is dispatched once for each satisfied rule and never for another. */
  lemma {:induction false} AfterOncePerSatisfiedRule(functions: Functions, rules: seq<Rule>)
    ensures AfterCount(DispatchLog(functions, rules)) == SatisfiedCount(functions, rules)
    ensures |DispatchLog(functions, rules)| == |rules| + SatisfiedCount(functions, rules)
    decreases |rules|
  {
    if rules != [] {
      var front := rules[..|rules| - 1];
      var last := rules[|rules| - 1];
      AfterOncePerSatisfiedRule(functions, front);
      var frontLog, tail := DispatchLog(functions, front), RuleDispatches(functions, last);
      assert DispatchLog(functions, rules) == frontLog + tail;
      AfterCountAppend(frontLog, tail);
      AftersOfRule(functions, last);
    }
  }

  /**
   * A rule whose fetch yields nothing (no `before`, an unknown or non-function
   * name, or a thrown error) is satisfied exactly when its tree is a lone empty
   * `and` list.
   */
  lemma FailedFetch(functions: Functions, rule: Rule)
    requires !Invokes(functions, rule.before) || Invoke(functions, rule.before, Undefined).Threw?
    ensures RuleSatisfied(functions, rule) <==> rule.conditions.or.None? && rule.conditions.and == Some([])
  {
    FalsyDataFailsEveryLeaf(rule.conditions, BeforeResult(functions, rule));
  }

  // ---------------------------------------------------------------------------
  // The scenarios of __tests__/RuleEngine.test.ts, derived from the engine's contracts

  const TestData := Obj(map["factValue" := Num(10), "message" := Str("Hello"), "array" := Arr([Str("fact")])])

  const TestFunctions: Functions := map[
    "beforeFunction" := Callable((params, context) => Returned(TestData)),
    "afterFunction" := Callable((params, context) => Returned(Undefined)),
    "functionWithError" := Callable((params, context) => Threw)
  ]

  /** A one-rule run: fetch with `before`, then check `factValue` against 10 with `op`. */
  method RunOneRule(before: string, op: string) returns (outcomes: seq<bool>, log: seq<Dispatch>, rule: Rule)
    ensures rule == Rule(Some(Action(before, Undefined)),
                         ConditionTree(Some([Condition(None, Some("factValue"), op, Num(10))]), None),
                         Action("afterFunction", Undefined))
    ensures outcomes == [RuleSatisfied(TestFunctions, rule)]
    ensures log == RuleDispatches(TestFunctions, rule)
  {
    var engine := new RuleEngine(TestFunctions);
    rule := Rule(Some(Action(before, Undefined)),
                 ConditionTree(Some([Condition(None, Some("factValue"), op, Num(10))]), None),
                 Action("afterFunction", Undefined));
    engine.AddRule(rule);
    outcomes, log := engine.Obey();
    assert engine.rules == [] + [rule];
  }

  /** A satisfied rule: `before` is fetched, then `after` is called with the fetched data. */
  method ScenarioConditionsMet() returns (outcomes: seq<bool>, log: seq<Dispatch>)
    ensures outcomes == [true]
    ensures log == [BeforeCall(Some(Action("beforeFunction", Undefined))),
                    AfterCall(Action("afterFunction", Undefined), TestData)]
  {
    var rule;
    outcomes, log, rule := RunOneRule("beforeFunction", "greaterThanOrEqual");
    assert BeforeResult(TestFunctions, rule) == TestData;
    NumberOrdering(10, 10);
    assert EvaluateSingleCondition(rule.conditions.and.value[0], TestData);
  }

  /** An unsatisfied rule: only `before` is dispatched. */
  method ScenarioConditionsNotMet() returns (outcomes: seq<bool>, log: seq<Dispatch>)
    ensures outcomes == [false]
    ensures log == [BeforeCall(Some(Action("beforeFunction", Undefined)))]
  {
    var rule;
    outcomes, log, rule := RunOneRule("beforeFunction", "lessThan");
    assert BeforeResult(TestFunctions, rule) == TestData;
    NumberOrdering(10, 10);
    assert !EvaluateSingleCondition(rule.conditions.and.value[0], TestData);
  }

  /** A missing function and a throwing one both fail the rule, and `after` is never dispatched. */
  method ScenarioFailedFetch() returns (missing: seq<bool>, missingLog: seq<Dispatch>,
                                        thrown: seq<bool>, thrownLog: seq<Dispatch>)
    ensures missing == [false] && missingLog == [BeforeCall(Some(Action("nonExistentFunction", Undefined)))]
    ensures thrown == [false] && thrownLog == [BeforeCall(Some(Action("functionWithError", Undefined)))]
  {
    var rule;
    missing, missingLog, rule := RunOneRule("nonExistentFunction", "strictEqual");
    FailedFetch(TestFunctions, rule);
    thrown, thrownLog, rule := RunOneRule("functionWithError", "strictEqual");
    FailedFetch(TestFunctions, rule);
  }
}
