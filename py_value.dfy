/**
 * The dynamically typed values that arrive from JSON and YAML documents
 * (the summary cache file, the configuration file), and the Python
 * conversions the repository applies to them: `bool(v)` and `int(v)`.
 */
module PyValue {
  import opened Wrappers
  import opened Text

  /** A parsed JSON/YAML value. Floats are exact reals (no NaN or infinity). */
  datatype Value =
    | Null
    | Bool(b: bool)
    | Int(i: int)
    | Float(x: real)
    | Str(s: string)
    | List(items: seq<Value>)
    | Object(fields: map<string, Value>)

  /** `bool(v)`: None, False, zero, and empty strings, lists and mappings are false. */
  predicate Truthy(v: Value) {
    match v
    case Null => false
    case Bool(b) => b
    case Int(i) => i != 0
    case Float(x) => x != 0.0
    case Str(s) => s != ""
    case List(items) => items != []
    case Object(fields) => fields != map[]
  }

  /** `int(x)` for a float: rounds toward zero. */
  function TruncateReal(x: real): (r: int)
    ensures x >= 0.0 ==> r as real <= x < r as real + 1.0
    ensures x < 0.0 ==> r as real - 1.0 < x <= r as real
  {
    if x >= 0.0 then x.Floor else -((-x).Floor)
  }

  predicate AllDigits(s: string) {
    forall i :: 0 <= i < |s| ==> IsDigit(s[i])
  }

  /** `int(s)` for a string: optional surrounding whitespace, an optional
      sign, then one or more decimal digits; anything else is a ValueError. */
  function ParseIntText(s: string): Result<int> {
    match ParseSigned(Strip(s))
    case Ok(n) => Ok(n)
    case Err(_) => Err("ValueError: invalid literal for int() with base 10: '" + s + "'")
  }

  function ParseSigned(t: string): Result<int> {
    var signed := |t| > 0 && (t[0] == '-' || t[0] == '+');
    var body := if signed then t[1..] else t;
    if body == [] || !AllDigits(body) then
      Err("ValueError: invalid literal for int() with base 10")
    else if signed && t[0] == '-' then Ok(-(DigitsValue(body) as int))
    else Ok(DigitsValue(body))
  }

  /** `int(str(i)) == i`: the decimal rendering of any integer parses back. */
  lemma ParseIntOfString(i: int)
    ensures ParseIntText(IntToString(i)) == Ok(i)
  {
    if i < 0 {
      var n: nat := -i;
      var digits := NatToString(n);
      var s := "-" + digits;
      assert IntToString(i) == s;
      assert IsDigit(digits[|digits| - 1]) && s[|s| - 1] == digits[|digits| - 1];
      TrimBothKeeps(s, IsSpace);
      ParseSignedDigits(digits);
      DigitsOfNat(n);
      assert ParseIntText(s) == ParseSigned(s);
    } else {
      var s := NatToString(i);
      assert IntToString(i) == s;
      assert IsDigit(s[0]) && IsDigit(s[|s| - 1]);
      TrimBothKeeps(s, IsSpace);
      ParseSignedDigits(s);
      DigitsOfNat(i);
      assert ParseIntText(s) == ParseSigned(s) == Ok(i);
    }
  }

  /** A run of digits, with or without a minus sign, parses to its value. */
  lemma ParseSignedDigits(d: string)
    requires d != [] && AllDigits(d)
    ensures ParseSigned(d) == Ok(DigitsValue(d))
    ensures ParseSigned("-" + d) == Ok(-(DigitsValue(d) as int))
  {
    assert IsDigit(d[0]);
    assert ("-" + d)[1..] == d;
  }

  /** `max(lo, x)` on integers: the clamps of the configuration and of the
      LLM client. */
  function AtLeast(lo: int, x: int): (r: int)
    ensures r >= lo && r >= x
    ensures r == lo || r == x
  {
    if x < lo then lo else x
  }

  /** `int(v)`: booleans become 0/1, floats are truncated, strings are
      parsed; None, lists and mappings raise TypeError. */
  function PyInt(v: Value): Result<int> {
    match v
    case Null => Err("TypeError: int() argument must be a string, a bytes-like object or a real number, not 'NoneType'")
    case Bool(b) => Ok(if b then 1 else 0)
    case Int(i) => Ok(i)
    case Float(x) => Ok(TruncateReal(x))
    case Str(s) => ParseIntText(s)
    case List(_) => Err("TypeError: int() argument must be a string, a bytes-like object or a real number, not 'list'")
    case Object(_) => Err("TypeError: int() argument must be a string, a bytes-like object or a real number, not 'dict'")
  }

  /** `str(v)` for the scalars the model renders itself; the textual form of
      floats, lists and mappings is supplied by `render`. */
  function PyStr(v: Value, render: Value -> string): string {
    match v
    case Null => "None"
    case Bool(b) => if b then "True" else "False"
    case Int(i) => IntToString(i)
    case Str(s) => s
    case _ => render(v)
  }
}
