/** The JavaScript values a form record can hold, and the built-in operations
    the validators apply to them: truthiness, property access, `String(v)`,
    `Number(v)`, the relational operators and `String.prototype.trim`. */
module JsValues {

  /** A JavaScript value. Numbers are integers (no NaN, no fractions, no
      infinities); a plain object is a map from property names to values. */
  datatype JVal =
    | Undef
    | Null
    | Bool(b: bool)
    | Num(n: int)
    | Str(s: string)
    | Arr(items: seq<JVal>)
    | Obj(fields: map<string, JVal>)

  /** A form record: the plain object a page hands to a validator. */
  type Record = map<string, JVal>

  /** The result of an evaluation that may throw a TypeError. */
  datatype Outcome<+T> = Ok(value: T) | TypeError

  datatype Option<+T> = None | Some(value: T)

  /** `!!v`: `undefined`, `null`, `false`, `0` and `""` are falsy. */
  predicate Truthy(v: JVal) {
    match v
    case Undef => false
    case Null => false
    case Bool(b) => b
    case Num(n) => n != 0
    case Str(s) => s != ""
    case Arr(_) => true
    case Obj(_) => true
  }

  predicate Nullish(v: JVal) {
    v.Undef? || v.Null?
  }

  /** `d.key` on a record: an absent property reads as `undefined`. */
  function Get(d: Record, key: string): JVal {
    if key in d then d[key] else Undef
  }

  /** `v.key`, for a key that is neither an array index nor the name of a
      built-in method: throws on `undefined` and `null`; strings and arrays
      have only `length`; booleans and numbers have no such property. */
  function Prop(v: JVal, key: string): Outcome<JVal> {
    match v
    case Undef => TypeError
    case Null => TypeError
    case Str(s) => Ok(if key == "length" then Num(|s|) else Undef)
    case Arr(items) => Ok(if key == "length" then Num(|items|) else Undef)
    case Obj(m) => Ok(Get(m, key))
    case Bool(_) => Ok(Undef)
    case Num(_) => Ok(Undef)
  }

  /** `v?.key`: `undefined` when `v` is nullish, `v.key` otherwise. */
  function OptProp(v: JVal, key: string): (w: JVal)
    ensures Nullish(v) ==> w == Undef
    ensures Prop(v, key).Ok? ==> w == Prop(v, key).value
  {
    match Prop(v, key)
    case Ok(w) => w
    case TypeError => Undef
  }

  /** `!v || v.length === 0`: the "missing or empty list" test. */
  predicate MissingOrEmpty(v: JVal) {
    !Truthy(v) || OptProp(v, "length") == Num(0)
  }

  // ---------------------------------------------------------------- strings

  function DigitChar(d: nat): char
    requires d < 10
  {
    "0123456789"[d]
  }

  /** The decimal digits of `n`, most significant first. */
  function NatToString(n: nat): (s: string)
    ensures |s| > 0
    decreases n
  {
    if n < 10 then [DigitChar(n)] else NatToString(n / 10) + [DigitChar(n % 10)]
  }

  function IntToString(n: int): string {
    if n < 0 then "-" + NatToString(-n) else NatToString(n)
  }

  /** `String(v)`. */
  function ToStr(v: JVal): string
    decreases v
  {
    match v
    case Undef => "undefined"
    case Null => "null"
    case Bool(b) => if b then "true" else "false"
    case Num(n) => IntToString(n)
    case Str(s) => s
    case Arr(items) => Join(items)
    case Obj(_) => "[object Object]"
  }

  /** `items.join(",")`, which writes `undefined` and `null` elements as "". */
  function Join(items: seq<JVal>): string
    decreases items
  {
    if |items| == 0 then ""
    else
      var last := items[|items| - 1];
      var part := if Nullish(last) then "" else ToStr(last);
      if |items| == 1 then part else Join(items[..|items| - 1]) + "," + part
  }

  /** ToPrimitive with hint "number": arrays and plain objects become the
      string their `toString` gives; everything else is already primitive. */
  function ToPrimitive(v: JVal): (p: JVal)
    ensures !p.Arr? && !p.Obj?
  {
    match v
    case Arr(items) => Str(Join(items))
    case Obj(_) => Str("[object Object]")
    case _ => v
  }

  /** The white space and line terminators `trim()` removes. */
  predicate WhiteSpace(c: char) {
    || c == '\t' || c == '\n' || c == '\U{000B}' || c == '\U{000C}' || c == '\r'
    || c == ' ' || c == '\U{00A0}' || c == '\U{1680}'
    || ('\U{2000}' <= c <= '\U{200A}')
    || c == '\U{2028}' || c == '\U{2029}' || c == '\U{202F}' || c == '\U{205F}'
    || c == '\U{3000}' || c == '\U{FEFF}'
  }

  function TrimStart(s: string): string {
    if |s| > 0 && WhiteSpace(s[0]) then TrimStart(s[1..]) else s
  }

  function TrimEnd(s: string): string {
    if |s| > 0 && WhiteSpace(s[|s| - 1]) then TrimEnd(s[..|s| - 1]) else s
  }

  /** `s.trim()`. */
  function Trim(s: string): string {
    TrimEnd(TrimStart(s))
  }

  /** `trim()` leaves nothing exactly when every character is white space. */
  lemma {:induction false} TrimEmptyIff(s: string)
    ensures Trim(s) == "" <==> forall i | 0 <= i < |s| :: WhiteSpace(s[i])
  {
    TrimStartEmptyIff(s);
    var t := TrimStart(s);
    TrimStartSuffix(s);
    if t != "" {
      TrimStartFirst(s);
      TrimEndKeepsFirst(t);
    }
  }

  lemma {:induction false} TrimStartEmptyIff(s: string)
    ensures TrimStart(s) == "" <==> forall i | 0 <= i < |s| :: WhiteSpace(s[i])
    decreases |s|
  {
    if |s| > 0 && WhiteSpace(s[0]) {
      TrimStartEmptyIff(s[1..]);
      assert forall i | 1 <= i < |s| :: s[i] == s[1..][i - 1];
    }
  }

  lemma {:induction false} TrimStartSuffix(s: string)
    ensures |TrimStart(s)| <= |s| && TrimStart(s) == s[|s| - |TrimStart(s)|..]
    decreases |s|
  {
    if |s| > 0 && WhiteSpace(s[0]) {
      TrimStartSuffix(s[1..]);
    }
  }

  lemma {:induction false} TrimStartFirst(s: string)
    requires TrimStart(s) != ""
    ensures !WhiteSpace(TrimStart(s)[0])
    decreases |s|
  {
    if |s| > 0 && WhiteSpace(s[0]) {
      TrimStartFirst(s[1..]);
    }
  }

  lemma {:induction false} TrimEndKeepsFirst(t: string)
    requires t != "" && !WhiteSpace(t[0])
    ensures TrimEnd(t) != "" && TrimEnd(t)[0] == t[0]
    decreases |t|
  {
    if WhiteSpace(t[|t| - 1]) {
      TrimEndKeepsFirst(t[..|t| - 1]);
    }
  }

  /** String `<`: code-unit order, a proper prefix being smaller. */
  predicate StrLess(a: string, b: string) {
    if |a| == 0 then |b| > 0
    else if |b| == 0 then false
    else if a[0] != b[0] then a[0] < b[0]
    else StrLess(a[1..], b[1..])
  }

  lemma {:induction false} StrLessIrreflexive(a: string)
    ensures !StrLess(a, a)
    decreases |a|
  {
    if |a| > 0 {
      StrLessIrreflexive(a[1..]);
    }
  }

  /** Distinct strings are ordered one way or the other, never both. */
  lemma {:induction false} StrLessTrichotomy(a: string, b: string)
    ensures a == b || StrLess(a, b) || StrLess(b, a)
    ensures !(StrLess(a, b) && StrLess(b, a))
    decreases |a|
  {
    if |a| > 0 && |b| > 0 && a[0] == b[0] {
      StrLessTrichotomy(a[1..], b[1..]);
      if a[1..] == b[1..] {
        assert a == [a[0]] + a[1..] && b == [b[0]] + b[1..];
      }
    }
  }

  // ---------------------------------------------------------------- numbers

  /** A JavaScript number as far as this model distinguishes it. */
  datatype Numeric = NaN | Int(i: int)

  predicate IsDigit(c: char) {
    '0' <= c <= '9'
  }

  predicate AllDigits(s: string) {
    forall i | 0 <= i < |s| :: IsDigit(s[i])
  }

  function DigitsValue(s: string): nat
    requires AllDigits(s)
  {
    if |s| == 0 then 0
    else 10 * DigitsValue(s[..|s| - 1]) + (s[|s| - 1] as int - '0' as int)
  }

  /** `Number(s)` for a string: surrounding white space is ignored, the empty
      string is 0, an optionally signed run of decimal digits is its value;
      every other string counts as NaN here. */
  function StringToNumber(s: string): Numeric {
    var t := Trim(s);
    if t == "" then Int(0)
    else if AllDigits(t) then Int(DigitsValue(t))
    else if |t| > 1 && (t[0] == '-' || t[0] == '+') && AllDigits(t[1..]) then
      Int(if t[0] == '-' then -(DigitsValue(t[1..]) as int) else DigitsValue(t[1..]))
    else NaN
  }

  /** `Number(v)` for a primitive value. */
  function ToNumber(p: JVal): Numeric {
    match p
    case Undef => NaN
    case Null => Int(0)
    case Bool(b) => Int(if b then 1 else 0)
    case Num(n) => Int(n)
    case Str(s) => StringToNumber(s)
    case Arr(_) => NaN
    case Obj(_) => NaN
  }

  /** The outcome of the Abstract Relational Comparison: a truth value, or
      `undefined` when a NaN takes part. */
  datatype Comparison = Undefined | Holds(b: bool)

  /** IsLessThan(x, y): string order when both sides convert to strings,
      numeric order otherwise. */
  function LessThan(x: JVal, y: JVal): Comparison {
    var px, py := ToPrimitive(x), ToPrimitive(y);
    if px.Str? && py.Str? then Holds(StrLess(px.s, py.s))
    else
      match (ToNumber(px), ToNumber(py))
      case (Int(a), Int(b)) => Holds(a < b)
      case _ => Undefined
  }

  /** `x < y` */
  predicate Less(x: JVal, y: JVal) {
    LessThan(x, y) == Holds(true)
  }

  /** `x > y` */
  predicate Greater(x: JVal, y: JVal) {
    LessThan(y, x) == Holds(true)
  }

  /** `x <= y` */
  predicate LessEq(x: JVal, y: JVal) {
    LessThan(y, x) == Holds(false)
  }

  /** No value is less than itself, so `start > end` is false for equal
      dates. */
  lemma LessIrreflexive(v: JVal)
    ensures !Less(v, v)
  {
    var p := ToPrimitive(v);
    if p.Str? {
      StrLessIrreflexive(p.s);
    }
  }

  /** `v > 0` only holds of truthy values, and then `v <= 0` fails. */
  lemma PositiveIsTruthy(v: JVal)
    requires Greater(v, Num(0))
    ensures Truthy(v) && !LessEq(v, Num(0))
  {
  }
}
