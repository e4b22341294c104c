/**
 * The JavaScript values a rule works on: what a `before` action returns, what a
 * condition compares against, and the parts of JavaScript's coercion rules that
 * the operators of src/RuleEngine.ts rely on (truthiness, property access,
 * `===`, `==`, `<` and friends, and string conversion).
 *
 * Numbers are integers (no fractions, no NaN value, no infinities); NaN only
 * appears as the `None` outcome of a numeric conversion.
 */
module JsValues {
  import opened Wrappers

  datatype JsVal =
    | Undefined
    | Null
    | Bool(b: bool)
    | Num(n: int)
    | Str(s: string)
    | Arr(elems: seq<JsVal>)
    | Obj(props: map<string, JsVal>)

  /** Neither an array nor a plain object. */
  predicate IsPrimitive(v: JsVal) {
    !v.Arr? && !v.Obj?
  }

  /** ToBoolean: the values for which `!value` is false. */
  predicate Truthy(v: JsVal) {
    match v
    case Undefined => false
    case Null => false
    case Bool(b) => b
    case Num(n) => n != 0
    case Str(s) => s != ""
    case Arr(_) => true
    case Obj(_) => true
  }

  lemma FalsyValues(v: JsVal)
    ensures !Truthy(v) <==> v in {Undefined, Null, Bool(false), Num(0), Str("")}
  {
  }

  // ---------------------------------------------------------------------------
  // Decimal digits

  predicate IsDigit(c: char) {
    '0' <= c <= '9'
  }

  predicate AllDigits(s: string) {
    forall i :: 0 <= i < |s| ==> IsDigit(s[i])
  }

  function DigitValue(c: char): nat
    requires IsDigit(c)
  {
    (c as int) - ('0' as int)
  }

  function DigitChar(d: nat): (c: char)
    requires d < 10
    ensures IsDigit(c) && DigitValue(c) == d
  {
    ('0' as int + d) as char
  }

  /** The number a string of decimal digits denotes (most significant digit first). */
  function DigitsValue(s: string): nat
    requires AllDigits(s)
  {
    if s == [] then 0 else DigitsValue(s[..|s| - 1]) * 10 + DigitValue(s[|s| - 1])
  }

  /** The shortest decimal numeral of `n`: digits only, non-empty, no leading zero. */
  function NatToDecimal(n: nat): (s: string)
    ensures s != [] && AllDigits(s)
    ensures |s| > 1 ==> s[0] != '0'
  {
    if n < 10 then [DigitChar(n)] else NatToDecimal(n / 10) + [DigitChar(n % 10)]
  }

  lemma {:induction false} DecimalRoundTrip(n: nat)
    ensures DigitsValue(NatToDecimal(n)) == n
  {
    if n >= 10 {
      var s := NatToDecimal(n);
      assert s[..|s| - 1] == NatToDecimal(n / 10);
      DecimalRoundTrip(n / 10);
    }
  }

  // ---------------------------------------------------------------------------
  // Number <-> string

  /**
   * `Number(s)` for a string: the empty string is 0 and an optional sign followed
   * by decimal digits is that integer; every other string is NaN (`None`).
   */
  function StringToNumber(s: string): Option<int>
  {
    if s == "" then Some(0)
    else if s[0] == '-' && |s| > 1 && AllDigits(s[1..]) then Some(-(DigitsValue(s[1..]) as int))
    else if s[0] == '+' && |s| > 1 && AllDigits(s[1..]) then Some(DigitsValue(s[1..]))
    else if AllDigits(s) then Some(DigitsValue(s))
    else None
  }

  /** Number.prototype.toString() for an integer. */
  function NumberToString(n: int): (s: string)
    ensures s != ""
  {
    if n < 0 then "-" + NatToDecimal(-n) else NatToDecimal(n)
  }

  lemma NumberStringRoundTrip(n: int)
    ensures StringToNumber(NumberToString(n)) == Some(n)
  {
    var m: nat := if n < 0 then -n else n;
    var d := NatToDecimal(m);
    DecimalRoundTrip(m);
    if n < 0 {
      assert NumberToString(n)[1..] == d;
    } else {
      assert IsDigit(d[0]);
    }
  }

  // ---------------------------------------------------------------------------
  // ToString and ToPrimitive

  /** ToString: what string concatenation and `String(v)` produce. */
  function ToString(v: JsVal): string
    decreases v, 1
  {
    match v
    case Undefined => "undefined"
    case Null => "null"
    case Bool(b) => if b then "true" else "false"
    case Num(n) => NumberToString(n)
    case Str(s) => s
    case Arr(elems) => JoinFrom(elems, 0)
    case Obj(_) => "[object Object]"
  }

  /**
   * `elems.slice(i).join(",")` preceded by a comma when `i > 0`: how
   * Array.prototype.toString writes an array, with null and undefined
   * elements written as the empty string.
   */
  function JoinFrom(elems: seq<JsVal>, i: nat): string
    requires i <= |elems|
    decreases Arr(elems), 0, |elems| - i
  {
    if i == |elems| then ""
    else
      var e := elems[i];
      assert e in elems;
      (if i > 0 then "," else "")
      + (if e.Undefined? || e.Null? then "" else ToString(e))
      + JoinFrom(elems, i + 1)
  }

  /** ToPrimitive: plain objects and arrays become their string form; primitives stay. */
  function ToPrimitive(v: JsVal): (p: JsVal)
    ensures IsPrimitive(p)
  {
    if IsPrimitive(v) then v else Str(ToString(v))
  }

  /** ToNumber; `None` stands for NaN. */
  function ToNumber(v: JsVal): Option<int>
  {
    match v
    case Undefined => None
    case Null => Some(0)
    case Bool(b) => Some(if b then 1 else 0)
    case Num(n) => Some(n)
    case Str(s) => StringToNumber(s)
    case Arr(_) => StringToNumber(ToString(v))
    case Obj(_) => StringToNumber(ToString(v))
  }

  // ---------------------------------------------------------------------------
  // Property access: value[key]

  /** A canonical array index: decimal digits with no leading zero. */
  function ArrayIndex(key: string): (r: Option<nat>)
    ensures r.Some? ==> NatToDecimal(r.value) == key
  {
    if key != "" && AllDigits(key) && (|key| == 1 || key[0] != '0') then
      CanonicalDecimal(key);
      Some(DigitsValue(key))
    else None
  }

  lemma {:induction false} CanonicalDecimal(key: string)
    requires key != "" && AllDigits(key) && (|key| == 1 || key[0] != '0')
    ensures NatToDecimal(DigitsValue(key)) == key
  {
    var n := DigitsValue(key);
    if |key| > 1 {
      var front := key[..|key| - 1];
      assert front[0] == key[0];
      assert AllDigits(front);
      CanonicalDecimal(front);
      assert front[0] != '0';
      PositiveWithoutLeadingZero(front);
      assert n / 10 == DigitsValue(front);
      assert n % 10 == DigitValue(key[|key| - 1]);
      assert NatToDecimal(n) == NatToDecimal(n / 10) + [DigitChar(n % 10)];
      assert key == front + [key[|key| - 1]];
    }
  }

  lemma PositiveWithoutLeadingZero(s: string)
    requires s != [] && AllDigits(s) && s[0] != '0'
    ensures DigitsValue(s) > 0
  {
    if |s| > 1 {
      PositiveWithoutLeadingZero(s[..|s| - 1]);
    }
  }

  /**
   * `value[key]` on a value that is not null or undefined: an own property of a
   * plain object, the length or an indexed element of an array or a string, and
   * undefined for anything else.
   */
  function GetProperty(v: JsVal, key: string): JsVal
  {
    match v
    case Obj(props) => if key in props then props[key] else Undefined
    case Arr(elems) =>
      if key == "length" then Num(|elems|)
      else if ArrayIndex(key).Some? && ArrayIndex(key).value < |elems| then elems[ArrayIndex(key).value]
      else Undefined
    case Str(s) =>
      if key == "length" then Num(|s|)
      else if ArrayIndex(key).Some? && ArrayIndex(key).value < |s| then Str([s[ArrayIndex(key).value]])
      else Undefined
    case _ => Undefined
  }

  lemma ArrayElementAccess(elems: seq<JsVal>, i: nat)
    requires i < |elems|
    ensures GetProperty(Arr(elems), NatToDecimal(i)) == elems[i]
  {
    var key := NatToDecimal(i);
    DecimalRoundTrip(i);
    assert key != "length" by {
      assert !IsDigit('l');
    }
    assert ArrayIndex(key) == Some(i);
  }

  lemma StringIndexAccess(s: string, i: nat)
    requires i < |s|
    ensures GetProperty(Str(s), NatToDecimal(i)) == Str([s[i]])
  {
    var key := NatToDecimal(i);
    DecimalRoundTrip(i);
    assert key != "length" by {
      assert !IsDigit('l');
    }
    assert ArrayIndex(key) == Some(i);
  }

  /**
   * On an array or a string, a key other than "length" reads something only
   * when it is the canonical numeral of an index in range.
   */
  lemma OnlyIndexKeysRead(v: JsVal, key: string)
    requires v.Arr? || v.Str?
    requires key != "length"
    ensures GetProperty(v, key) != Undefined
            ==> ArrayIndex(key).Some? && NatToDecimal(ArrayIndex(key).value) == key
                && ArrayIndex(key).value < (if v.Arr? then |v.elems| else |v.s|)
  {
  }

  // ---------------------------------------------------------------------------
  // Equality

  /** `a === b`. Two arrays or objects are distinct objects, never strictly equal. */
  predicate StrictEquals(a: JsVal, b: JsVal) {
    match (a, b)
    case (Undefined, Undefined) => true
    case (Null, Null) => true
    case (Bool(x), Bool(y)) => x == y
    case (Num(x), Num(y)) => x == y
    case (Str(x), Str(y)) => x == y
    case _ => false
  }

  lemma StrictEqualsIsPrimitiveIdentity(a: JsVal, b: JsVal)
    ensures StrictEquals(a, b) <==> a == b && IsPrimitive(a)
  {
  }

  /** Both values carry the same JavaScript type tag (arrays and plain objects are both objects). */
  predicate SameType(a: JsVal, b: JsVal) {
    (a.Undefined? && b.Undefined?) || (a.Null? && b.Null?) || (a.Bool? && b.Bool?)
    || (a.Num? && b.Num?) || (a.Str? && b.Str?) || (!IsPrimitive(a) && !IsPrimitive(b))
  }

  /** How many coercion steps `==` may still apply to a value. */
  function CoercionRank(v: JsVal): nat {
    if v.Bool? || !IsPrimitive(v) then 1 else 0
  }

  /** `a == b`: the IsLooselyEqual algorithm of the ECMAScript Language Specification. */
  predicate LooseEquals(a: JsVal, b: JsVal)
    decreases CoercionRank(a) + CoercionRank(b)
  {
    if SameType(a, b) then StrictEquals(a, b)
    else if (a.Undefined? || a.Null?) && (b.Undefined? || b.Null?) then true
    else if a.Num? && b.Str? then StringToNumber(b.s) == Some(a.n)
    else if a.Str? && b.Num? then StringToNumber(a.s) == Some(b.n)
    else if a.Bool? then LooseEquals(Num(if a.b then 1 else 0), b)
    else if b.Bool? then LooseEquals(a, Num(if b.b then 1 else 0))
    else if (a.Num? || a.Str?) && !IsPrimitive(b) then LooseEquals(a, ToPrimitive(b))
    else if !IsPrimitive(a) && (b.Num? || b.Str?) then LooseEquals(ToPrimitive(a), b)
    else false
  }

  lemma StrictImpliesLoose(a: JsVal, b: JsVal)
    ensures StrictEquals(a, b) ==> LooseEquals(a, b)
  {
  }

  lemma {:induction false} LooseEqualsSymmetric(a: JsVal, b: JsVal)
    ensures LooseEquals(a, b) == LooseEquals(b, a)
    decreases CoercionRank(a) + CoercionRank(b)
  {
    if SameType(a, b) {
    } else if (a.Undefined? || a.Null?) && (b.Undefined? || b.Null?) {
    } else if a.Bool? {
      LooseEqualsSymmetric(Num(if a.b then 1 else 0), b);
    } else if b.Bool? {
      LooseEqualsSymmetric(a, Num(if b.b then 1 else 0));
    } else if (a.Num? || a.Str?) && !IsPrimitive(b) {
      LooseEqualsSymmetric(a, ToPrimitive(b));
    } else if !IsPrimitive(a) && (b.Num? || b.Str?) {
      LooseEqualsSymmetric(ToPrimitive(a), b);
    }
  }

  /** A number equals, loosely, every string that converts to it, and no other. */
  lemma LooseNumberString(n: int, s: string)
    ensures LooseEquals(Num(n), Str(s)) <==> StringToNumber(s) == Some(n)
    ensures !StrictEquals(Num(n), Str(s))
  {
  }

  // ---------------------------------------------------------------------------
  // Ordering

  /** Lexicographic order of strings by character code. */
  predicate StringLess(a: string, b: string)
    decreases |a|
  {
    if b == [] then false
    else if a == [] then true
    else if a[0] != b[0] then a[0] < b[0]
    else StringLess(a[1..], b[1..])
  }

  lemma {:induction false} StringLessStrictTotal(a: string, b: string)
    ensures !(StringLess(a, b) && StringLess(b, a))
    ensures a != b ==> StringLess(a, b) || StringLess(b, a)
    ensures !StringLess(a, a)
    decreases |a|
  {
    if a != [] && b != [] && a[0] == b[0] {
      StringLessStrictTotal(a[1..], b[1..]);
      if a != b {
        assert a == [a[0]] + a[1..] && b == [b[0]] + b[1..];
      }
    } else if a != [] {
      StringLessStrictTotal(a[1..], a[1..]);
    }
  }

  /**
   * IsLessThan of the ECMAScript Language Specification: `Some(x < y)`, or `None`
   * (undefined) when an operand converts to NaN.
   */
  function IsLessThan(x: JsVal, y: JsVal): (r: Option<bool>)
    ensures ToPrimitive(x).Str? && ToPrimitive(y).Str? ==> r.Some?
    ensures ToNumber(ToPrimitive(x)).Some? && ToNumber(ToPrimitive(y)).Some? ==> r.Some?
  {
    var px, py := ToPrimitive(x), ToPrimitive(y);
    if px.Str? && py.Str? then Some(StringLess(px.s, py.s))
    else
      var nx, ny := ToNumber(px), ToNumber(py);
      if nx.None? || ny.None? then None else Some(nx.value < ny.value)
  }

  /** `a < b` */
  predicate LessThan(a: JsVal, b: JsVal) {
    IsLessThan(a, b) == Some(true)
  }

  /** `a > b` */
  predicate GreaterThan(a: JsVal, b: JsVal) {
    IsLessThan(b, a) == Some(true)
  }

  /** `a <= b` */
  predicate LessThanOrEqual(a: JsVal, b: JsVal) {
    IsLessThan(b, a) == Some(false)
  }

  /** `a >= b` */
  predicate GreaterThanOrEqual(a: JsVal, b: JsVal) {
    IsLessThan(a, b) == Some(false)
  }

  /** On two numbers, the four comparisons are integer comparisons. */
  lemma NumberOrdering(x: int, y: int)
    ensures LessThan(Num(x), Num(y)) <==> x < y
    ensures GreaterThan(Num(x), Num(y)) <==> x > y
    ensures LessThanOrEqual(Num(x), Num(y)) <==> x <= y
    ensures GreaterThanOrEqual(Num(x), Num(y)) <==> x >= y
  {
  }

  /** On two strings, `<` and `>=` are complementary, and `>=` is `>` or equal. */
  lemma StringOrdering(x: string, y: string)
    ensures LessThan(Str(x), Str(y)) <==> !GreaterThanOrEqual(Str(x), Str(y))
    ensures GreaterThanOrEqual(Str(x), Str(y)) <==> GreaterThan(Str(x), Str(y)) || x == y
  {
    StringLessStrictTotal(x, y);
  }

  /** An undefined fact compares false with everything (ToNumber(undefined) is NaN). */
  lemma UndefinedIsUnordered(b: JsVal)
    ensures !LessThan(Undefined, b) && !GreaterThan(Undefined, b)
    ensures !LessThanOrEqual(Undefined, b) && !GreaterThanOrEqual(Undefined, b)
  {
  }
}
