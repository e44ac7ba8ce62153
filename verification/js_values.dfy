/** The slice of JavaScript value semantics the gateway's decisions depend on:
    truthiness, `||`, property reads, string conversion, `parseInt` and the
    number coercion behind `x > 0`. Numbers are integers only. */
module JsValues {

  datatype Option<+T> = None | Some(value: T)

  /** A JSON-shaped JavaScript value. */
  datatype JsValue =
    | Undefined
    | Null
    | Bool(b: bool)
    | Num(n: int)
    | Str(s: string)
    | Arr(elems: seq<JsValue>)
    | Obj(props: map<string, JsValue>)

  /** How a JavaScript call finished: with a value, or by throwing an Error
      whose `message` is given. */
  datatype Completion<+T> = Returned(value: T) | Threw(message: string)

  predicate Nullish(v: JsValue) {
    v.Undefined? || v.Null?
  }

  predicate Truthy(v: JsValue) {
    match v
    case Undefined => false
    case Null => false
    case Bool(b) => b
    case Num(n) => n != 0
    case Str(s) => s != ""
    case Arr(_) => true
    case Obj(_) => true
  }

  /** `a || b` */
  function Or(a: JsValue, b: JsValue): JsValue {
    if Truthy(a) then a else b
  }

  /** `v?.key`: an own property of an object; `undefined` for everything else.
      Built-in properties of strings and arrays are not modelled: no key the
      gateway reads names one. */
  function Lookup(v: JsValue, key: string): JsValue {
    match v
    case Obj(m) => if key in m then m[key] else Undefined
    case _ => Undefined
  }

  /** How a nullish value prints in an error message. */
  function NullishName(v: JsValue): string {
    if v.Null? then "null" else "undefined"
  }

  /** The TypeError message for `base.key` when `base` is nullish. */
  function ReadError(base: JsValue, key: string): string {
    "Cannot read properties of " + NullishName(base) + " (reading '" + key + "')"
  }

  /** The TypeError message for `const { prop } = name` when `name` is nullish. */
  function DestructureError(prop: string, name: string, base: JsValue): string {
    "Cannot destructure property '" + prop + "' of '" + name + "' as it is " + NullishName(base) + "."
  }

  /** The TypeError message for calling something that is not a function. */
  function NotAFunction(callee: string): string {
    callee + " is not a function"
  }

  // ---------------------------------------------------------------------------
  // Decimal digits

  function DigitChar(d: nat): char
    requires d < 10
  {
    (48 + d) as char
  }

  /** The value of `c` as a digit in any radix up to 36; 36 when `c` is no digit. */
  function DigitValue(c: char): nat {
    if '0' <= c <= '9' then c as int - 48
    else if 'a' <= c <= 'z' then c as int - 97 + 10
    else if 'A' <= c <= 'Z' then c as int - 65 + 10
    else 36
  }

  predicate AllDigits(s: string, radix: nat) {
    forall i :: 0 <= i < |s| ==> DigitValue(s[i]) < radix
  }

  /** The value of a digit string read most significant digit first. */
  function DigitsValue(s: string, radix: nat): nat {
    if |s| == 0 then 0
    else DigitsValue(s[..|s| - 1], radix) * radix + DigitValue(s[|s| - 1])
  }

  /** The length of the longest prefix of `s` made of digits of `radix`. */
  function LeadingDigits(s: string, radix: nat): (n: nat)
    ensures n <= |s|
    ensures AllDigits(s[..n], radix)
    ensures n < |s| ==> DigitValue(s[n]) >= radix
  {
    if |s| > 0 && DigitValue(s[0]) < radix then
      var rest := LeadingDigits(s[1..], radix);
      assert s[..1 + rest] == [s[0]] + s[1..][..rest];
      1 + rest
    else 0
  }

  /** The shortest decimal rendering of a natural number. */
  function NatToDecimal(n: nat): (s: string)
    ensures |s| > 0
    ensures AllDigits(s, 10)
    decreases n
  {
    if n < 10 then [DigitChar(n)] else NatToDecimal(n / 10) + [DigitChar(n % 10)]
  }

  /** 10^21: from this magnitude on, `String(n)` switches to exponent notation. */
  const ExponentThreshold: int := 1_000_000_000_000_000_000_000

  /** `s` without its trailing zeros, keeping the first character. */
  function StripZeros(s: string): (t: string)
    requires |s| > 0
    ensures 0 < |t| <= |s| && t[0] == s[0]
  {
    if |s| > 1 && s[|s| - 1] == '0' then StripZeros(s[..|s| - 1]) else s
  }

  /** The exponent form of the digit string `d`: `1e+21`, `1.5e+22`. */
  function Scientific(d: string): (u: string)
    requires |d| > 0
    ensures |u| >= 2 && u[0] == d[0] && (u[1] == '.' || u[1] == 'e')
  {
    var t := StripZeros(d);
    [d[0]] + (if |t| > 1 then "." + t[1..] else "") + "e+" + NatToDecimal(|d| - 1)
  }

  /** `String(m)` for a natural number: plain decimal below 10^21, exponent
      notation from there on. */
  function NatToString(m: nat): string {
    if m < ExponentThreshold then NatToDecimal(m) else Scientific(NatToDecimal(m))
  }

  /** `String(n)` for an integer `n`. */
  function NumberToString(n: int): string {
    if n < 0 then "-" + NatToString(-n) else NatToString(n)
  }

  /** The most significant decimal digit of `m`. */
  function FirstDigit(m: nat): (d: nat)
    ensures d < 10
    ensures m > 0 ==> d > 0
  {
    if m < 10 then m else FirstDigit(m / 10)
  }

  // ---------------------------------------------------------------------------
  // String conversion (ToString)

  /** `String(v)`, as template literals, `Array.prototype.join` and property
      keys use it. Objects are assumed not to override `toString`. */
  function JsString(v: JsValue): string
    decreases v, 1
  {
    match v
    case Undefined => "undefined"
    case Null => "null"
    case Bool(b) => if b then "true" else "false"
    case Num(n) => NumberToString(n)
    case Str(s) => s
    case Arr(_) => Join(v, 0)
    case Obj(_) => "[object Object]"
  }

  /** `a.join(",")` from element `i` on; nullish elements print as "". */
  function Join(a: JsValue, i: nat): string
    decreases a, 0, if a.Arr? && i <= |a.elems| then |a.elems| - i else 0
  {
    if !a.Arr? || i >= |a.elems| then ""
    else
      var e := a.elems[i];
      (if i == 0 then "" else ",") + (if Nullish(e) then "" else JsString(e)) + Join(a, i + 1)
  }

  // ---------------------------------------------------------------------------
  // parseInt

  /** The white space `parseInt` and `Number` skip (the Unicode space
      separators beyond U+00A0 are not listed). */
  predicate IsSpace(c: char) {
    c == ' ' || c == '\t' || c == '\n' || c == '\r' || c == '\U{000B}' || c == '\U{000C}'
    || c == '\U{00A0}' || c == '\U{FEFF}' || c == '\U{2028}' || c == '\U{2029}'
  }

  function TrimStart(s: string): (t: string)
    ensures |t| <= |s|
    ensures |t| > 0 ==> !IsSpace(t[0])
  {
    if |s| > 0 && IsSpace(s[0]) then TrimStart(s[1..]) else s
  }

  function TrimEnd(s: string): (t: string)
    ensures |t| <= |s|
  {
    if |s| > 0 && IsSpace(s[|s| - 1]) then TrimEnd(s[..|s| - 1]) else s
  }

  /** `parseInt(s)` with no radix: skip leading white space, take an optional
      sign, then read the magnitude; `None` stands for NaN. */
  function ParseInt(s: string): Option<int> {
    var t := TrimStart(s);
    if |t| > 0 && t[0] == '-' then
      match ParseMagnitude(t[1..])
      case None => None
      case Some(m) => Some(0 - m)
    else if |t| > 0 && t[0] == '+' then ParseMagnitude(t[1..])
    else ParseMagnitude(t)
  }

  /** The unsigned part of `parseInt`: hexadecimal after a `0x` prefix,
      decimal otherwise, stopping at the first non-digit. */
  function ParseMagnitude(u: string): Option<nat> {
    var hex := |u| >= 2 && u[0] == '0' && (u[1] == 'x' || u[1] == 'X');
    var radix := if hex then 16 else 10;
    var body := if hex then u[2..] else u;
    var n := LeadingDigits(body, radix);
    if n == 0 then None else Some(DigitsValue(body[..n], radix))
  }

  lemma {:induction false} DecimalDigitsValue(n: nat)
    ensures DigitsValue(NatToDecimal(n), 10) == n
    decreases n
  {
    if n >= 10 {
      var s := NatToDecimal(n);
      assert s[..|s| - 1] == NatToDecimal(n / 10);
      DecimalDigitsValue(n / 10);
    }
  }

  lemma {:induction false} AllDigitsLead(s: string, radix: nat)
    requires AllDigits(s, radix)
    ensures LeadingDigits(s, radix) == |s|
    decreases |s|
  {
    if |s| > 0 {
      AllDigitsLead(s[1..], radix);
    }
  }

  /** A decimal digit string is read as exactly its value. */
  lemma MagnitudeOfDigits(d: string)
    requires |d| > 0 && AllDigits(d, 10)
    ensures ParseMagnitude(d) == Some(DigitsValue(d, 10))
  {
    assert DigitValue(d[0]) < 10;
    if |d| >= 2 {
      assert DigitValue(d[1]) < 10;
      assert d[1] != 'x' && d[1] != 'X';
    }
    AllDigitsLead(d, 10);
    assert d[..|d|] == d;
  }

  /** The decimal rendering starts with the most significant digit. */
  lemma {:induction false} FirstDigitLeads(m: nat)
    ensures NatToDecimal(m)[0] == DigitChar(FirstDigit(m))
    decreases m
  {
    if m >= 10 {
      FirstDigitLeads(m / 10);
    }
  }

  /** `parseInt` stops at the `.` or `e` after the first digit of an exponent form. */
  lemma MagnitudeOfScientific(d: string)
    requires |d| > 0 && AllDigits(d, 10)
    ensures ParseMagnitude(Scientific(d)) == Some(DigitValue(d[0]))
  {
    var u := Scientific(d);
    assert DigitValue(d[0]) < 10;
    assert u[1] != 'x' && u[1] != 'X';
    assert u[1..][0] == u[1] && DigitValue(u[1]) >= 10;
    assert LeadingDigits(u[1..], 10) == 0;
    assert LeadingDigits(u, 10) == 1;
    assert u[..1] == [d[0]];
    assert DigitsValue([d[0]], 10) == DigitValue(d[0]) by {
      assert [d[0]][..0] == [];
    }
  }

  lemma DigitCharValue(n: nat)
    requires n < 10
    ensures DigitValue(DigitChar(n)) == n
  {
  }

  /** The magnitude `parseInt` reads from `String(m)`: `m` itself below 10^21,
      only the leading digit of the exponent form above. */
  lemma {:induction false} MagnitudeOfString(m: nat)
    ensures m < ExponentThreshold ==> ParseMagnitude(NatToString(m)) == Some(m)
    ensures m >= ExponentThreshold ==> ParseMagnitude(NatToString(m)) == Some(FirstDigit(m))
  {
    var d := NatToDecimal(m);
    if m < ExponentThreshold {
      MagnitudeOfDigits(d);
      DecimalDigitsValue(m);
    } else {
      MagnitudeOfScientific(d);
      FirstDigitLeads(m);
      DigitCharValue(FirstDigit(m));
    }
  }

  lemma LeadingDigitChar(m: nat)
    ensures |NatToString(m)| > 0 && DigitValue(NatToString(m)[0]) < 10
  {
    var d := NatToDecimal(m);
    assert DigitValue(d[0]) < 10;
  }

  /** Text that starts with a digit is read by `parseInt` as its magnitude. */
  lemma ParsePlain(t: string)
    requires |t| > 0 && DigitValue(t[0]) < 10
    ensures ParseInt(t) == ParseMagnitude(t)
  {
    assert TrimStart(t) == t;
  }

  /** A minus sign before a digit negates the magnitude. */
  lemma ParseNegated(t: string)
    requires |t| > 0 && DigitValue(t[0]) < 10 && ParseMagnitude(t).Some?
    ensures ParseInt("-" + t) == Some(0 - ParseMagnitude(t).value)
  {
    var u := "-" + t;
    assert TrimStart(u) == u;
    assert u[1..] == t;
  }

  /** `parseInt(String(n)) === n` below 10^21 in magnitude; from there on
      `String(n)` is in exponent notation and `parseInt` keeps only its
      leading digit, with the sign. */
  lemma ParseIntRoundTrip(n: int)
    ensures -ExponentThreshold < n < ExponentThreshold ==> ParseInt(NumberToString(n)) == Some(n)
    ensures n >= ExponentThreshold ==> ParseInt(NumberToString(n)) == Some(FirstDigit(n))
    ensures n <= -ExponentThreshold ==> ParseInt(NumberToString(n)) == Some(0 - FirstDigit(-n))
  {
    var m: nat := if n < 0 then -n else n;
    MagnitudeOfString(m);
    LeadingDigitChar(m);
    if n < 0 {
      assert NumberToString(n) == "-" + NatToString(m);
      ParseNegated(NatToString(m));
    } else {
      assert NumberToString(n) == NatToString(m);
      ParsePlain(NatToString(m));
    }
  }

  // ---------------------------------------------------------------------------
  // Number coercion for relational comparison

  /** The result of ToNumber, reduced to what integer-valued code can observe. */
  datatype Number = NaN | Finite(value: int) | Infinite(positive: bool)

  function RadixPrefix(c: char): nat {
    if c == 'x' || c == 'X' then 16
    else if c == 'o' || c == 'O' then 8
    else if c == 'b' || c == 'B' then 2
    else 0
  }

  /** `Number(s)` for the integer literal forms: empty or blank (0), signed
      decimal digits, `0x`/`0o`/`0b` literals and the Infinity spellings.
      Fractions and exponents read as NaN here. */
  function StringToNumber(s: string): Number {
    var t := TrimEnd(TrimStart(s));
    if t == "" then Finite(0)
    else if t == "Infinity" || t == "+Infinity" then Infinite(true)
    else if t == "-Infinity" then Infinite(false)
    else if |t| > 2 && t[0] == '0' && RadixPrefix(t[1]) > 0 && AllDigits(t[2..], RadixPrefix(t[1])) then
      Finite(DigitsValue(t[2..], RadixPrefix(t[1])))
    else if |t| > 1 && t[0] == '-' && AllDigits(t[1..], 10) then Finite(0 - DigitsValue(t[1..], 10))
    else if |t| > 1 && t[0] == '+' && AllDigits(t[1..], 10) then Finite(DigitsValue(t[1..], 10))
    else if AllDigits(t, 10) then Finite(DigitsValue(t, 10))
    else NaN
  }

  /** ToNumber(ToPrimitive(v)): arrays go through their joined string, plain
      objects through "[object Object]". */
  function ToNumber(v: JsValue): Number {
    match v
    case Undefined => NaN
    case Null => Finite(0)
    case Bool(b) => Finite(if b then 1 else 0)
    case Num(n) => Finite(n)
    case Str(s) => StringToNumber(s)
    case Arr(_) => StringToNumber(JsString(v))
    case Obj(_) => NaN
  }

  /** `v > 0` */
  predicate GreaterThanZero(v: JsValue) {
    match ToNumber(v)
    case NaN => false
    case Finite(n) => n > 0
    case Infinite(positive) => positive
  }
}
