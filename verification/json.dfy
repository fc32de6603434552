/**
 * Parsed JSON response bodies as the frontend sees them, with JavaScript's
 * truthiness, optional property access and conversion to a number.
 */
module Json {
  import opened Text
  /** A JavaScript value from a parsed response; JUndefined is a missing property. */
  datatype Value =
    | JUndefined
    | JNull
    | JBool(b: bool)
    | JNum(n: int)
    | JStr(s: string)
    | JArr(items: seq<Value>)
    | JObj(fields: map<string, Value>)

  /** JavaScript truthiness: undefined, null, false, 0 and "" are falsy; arrays and objects are truthy even when empty. */
  predicate Truthy(v: Value) {
    match v
    case JUndefined => false
    case JNull => false
    case JBool(b) => b
    case JNum(n) => n != 0
    case JStr(s) => s != ""
    case JArr(_) => true
    case JObj(_) => true
  }

  /** `v?.key`: the property of an object, undefined for a missing key and for every other kind of value. */
  function Get(v: Value, key: string): (r: Value)
    ensures !v.JObj? ==> r == JUndefined
    ensures v.JObj? && key !in v.fields ==> r == JUndefined
    ensures v.JObj? && key in v.fields ==> r == v.fields[key]
  {
    match v
    case JObj(fields) => if key in fields then fields[key] else JUndefined
    case _ => JUndefined
  }

  /**
   * `a || b`: the first operand when truthy, otherwise the second. The result
   * is always one of the operands, and it is truthy when either operand is.
   */
  function Or(a: Value, b: Value): (r: Value)
    ensures r == a || r == b
    ensures Truthy(r) <==> Truthy(a) || Truthy(b)
    ensures Truthy(a) ==> r == a
    ensures !Truthy(a) ==> r == b
  {
    if Truthy(a) then a else b
  }

  /**
   * A JavaScript number as a comparison with an integer sees it: NaN, an
   * infinity, or a finite value held by its floor (for a finite x and an
   * integer k, x >= k exactly when floor(x) >= k).
   */
  datatype Number = NaN | Infinite(positive: bool) | Finite(floor: int)

  predicate IsDecimalDigit(c: char) { '0' <= c <= '9' }

  predicate AllDigits(s: string) {
    forall i :: 0 <= i < |s| ==> IsDecimalDigit(s[i])
  }

  /** The value of a digit string, most significant digit first; "" is 0. */
  function DigitsValue(s: string): nat
    requires AllDigits(s)
  {
    if s == [] then 0 else DigitsValue(s[..|s| - 1]) * 10 + (s[|s| - 1] as int - '0' as int)
  }

  /** The length of the run of digits at the start of s. */
  function DigitRun(s: string): (k: nat)
    ensures k <= |s| && AllDigits(s[..k])
    ensures k < |s| ==> !IsDecimalDigit(s[k])
  {
    if s != [] && IsDecimalDigit(s[0]) then
      var k := 1 + DigitRun(s[1..]);
      assert forall i :: 1 <= i < k ==> s[..k][i] == s[1..][..k - 1][i - 1];
      k
    else 0
  }

  /**
   * An unsigned decimal literal without exponent: digits, then optionally a
   * point and more digits, with at least one digit in all. A negative value
   * with a non-zero fraction has the floor one below its integer part.
   */
  function UnsignedDecimal(body: string, negative: bool): Number {
    var k := DigitRun(body);
    var whole: int := DigitsValue(body[..k]);
    var rest := body[k..];
    if rest == [] then
      (if k == 0 then NaN else Finite(if negative then -whole else whole))
    else if rest[0] == '.' && AllDigits(rest[1..]) && (k > 0 || |rest| > 1) then
      var fraction := exists i :: 1 <= i < |rest| && rest[i] != '0';
      Finite(if !negative then whole else if fraction then -whole - 1 else -whole)
    else NaN
  }

  /** What follows an optional sign: Infinity or a decimal literal. */
  function SignedNumber(body: string, negative: bool): Number {
    if body == "Infinity" then Infinite(!negative) else UnsignedDecimal(body, negative)
  }

  /**
   * StringToNumber (section 7.1.4.1.1 of ECMAScript 2024): the string is
   * trimmed, an empty one is 0, then an optional sign and Infinity or a
   * decimal literal; anything else is NaN.
   */
  function StringNumber(s: string): Number {
    var t := JsTrim(s);
    if t == [] then Finite(0)
    else if t[0] == '+' || t[0] == '-' then SignedNumber(t[1..], t[0] == '-')
    else SignedNumber(t, false)
  }

  /** String(n) for an integer. */
  function IntToString(n: int): (r: string)
    ensures r != []
  {
    if n < 0 then "-" + NatToString(-n) else NatToString(n)
  }

  /**
   * How Array.prototype.join writes an element: undefined and null as the
   * empty string, an array as its own elements joined with commas, any other
   * object as "[object Object]". For arrays and objects this is also String(v).
   */
  function ElementText(v: Value): string
    decreases v, 1, 0
  {
    match v
    case JUndefined => ""
    case JNull => ""
    case JBool(b) => if b then "true" else "false"
    case JNum(n) => IntToString(n)
    case JStr(s) => s
    case JArr(_) => ItemsText(v, 0)
    case JObj(_) => "[object Object]"
  }

  /** The elements of an array from index j on, joined with commas. */
  function ItemsText(arr: Value, j: nat): string
    requires arr.JArr? && j <= |arr.items|
    decreases arr, 0, |arr.items| - j
  {
    if j == |arr.items| then ""
    else if j == |arr.items| - 1 then ElementText(arr.items[j])
    else ElementText(arr.items[j]) + "," + ItemsText(arr, j + 1)
  }

  /** Array.prototype.join with a given separator, each element written as ElementText writes it. */
  function JoinValues(items: seq<Value>, sep: string): string {
    if items == [] then ""
    else if |items| == 1 then ElementText(items[0])
    else ElementText(items[0]) + sep + JoinValues(items[1..], sep)
  }

  /** An array's own text is its elements joined with commas. */
  lemma {:induction false} ItemsTextIsJoin(arr: Value, j: nat)
    requires arr.JArr? && j <= |arr.items|
    ensures ItemsText(arr, j) == JoinValues(arr.items[j..], ",")
    decreases |arr.items| - j
  {
    if j < |arr.items| - 1 {
      ItemsTextIsJoin(arr, j + 1);
      assert arr.items[j..][1..] == arr.items[j + 1..];
    }
  }

  /** ToNumber (section 7.1.4 of ECMAScript 2024); an array or object converts through its string form. */
  function ToNumber(v: Value): Number {
    match v
    case JUndefined => NaN
    case JNull => Finite(0)
    case JBool(b) => Finite(if b then 1 else 0)
    case JNum(n) => Finite(n)
    case JStr(s) => StringNumber(s)
    case _ => StringNumber(ElementText(v))
  }

  /**
   * `v?.length`: arrays and strings carry their own length, an object only a
   * "length" member it holds, and every other value (null and undefined
   * through `?.`, numbers and booleans by their prototypes) none.
   */
  function LengthOf(v: Value): Value {
    match v
    case JArr(items) => JNum(|items|)
    case JStr(s) => JNum(|s|)
    case JObj(_) => Get(v, "length")
    case _ => JUndefined
  }

  /**
   * `v?.length > 0`: the length, converted by ToNumber, lies above zero. A
   * finite number is held by its floor, so it counts as positive from 1 on.
   */
  function PositiveLength(v: Value): (r: bool)
    ensures v.JArr? ==> (r <==> |v.items| > 0)
    ensures v.JStr? ==> (r <==> |v.s| > 0)
    ensures v.JObj? && "length" !in v.fields ==> !r
    ensures v.JObj? && "length" in v.fields && v.fields["length"].JNum? ==> (r <==> v.fields["length"].n > 0)
    ensures !v.JArr? && !v.JStr? && !v.JObj? ==> !r
  {
    match ToNumber(LengthOf(v))
    case Finite(f) => f >= 1
    case Infinite(positive) => positive
    case NaN => false
  }

  /** Every falsy value but undefined converts to 0. */
  lemma FalsyIsZero(v: Value)
    ensures !Truthy(v) && v != JUndefined ==> ToNumber(v) == Finite(0)
  {
    if v.JStr? && v.s == [] {
      assert v.s == [];
    }
  }

  /** The digits of a printed natural number read back as that number. */
  lemma {:induction false} DigitsValueOfNat(n: nat)
    ensures AllDigits(NatToString(n)) && DigitsValue(NatToString(n)) == n
  {
    var s := NatToString(n);
    if n >= 10 {
      DigitsValueOfNat(n / 10);
      assert s[..|s| - 1] == NatToString(n / 10);
    }
  }

  /** A string that starts and ends with a non-space trims to itself. */
  lemma TrimNoSpace(s: string)
    requires s != [] && !IsJsSpace(s[0]) && !IsJsSpace(s[|s| - 1])
    ensures JsTrim(s) == s
  {
  }

  /** The digits of a printed natural number, after an optional sign, read back as that number. */
  lemma DigitsReadBack(m: nat, negative: bool)
    ensures SignedNumber(NatToString(m), negative) == Finite(if negative then -(m as int) else m)
  {
    var d := NatToString(m);
    DigitsValueOfNat(m);
    assert d != "Infinity" by { assert d[0] != 'I'; }
    assert DigitRun(d) == |d|;
    assert d[..|d|] == d;
  }

  /** A printed integer converts back to that integer: String and ToNumber are inverse on integers. */
  lemma IntReadsBack(n: int)
    ensures StringNumber(IntToString(n)) == Finite(n)
  {
    var m: nat := if n < 0 then -n else n;
    var t := IntToString(n);
    TrimNoSpace(t);
    if n < 0 {
      assert t[1..] == NatToString(m);
      DigitsReadBack(m, true);
    } else {
      DigitsReadBack(m, false);
    }
  }

  /** A trimmed string keeps every character that is not whitespace. */
  lemma TrimKeepsNonSpace(s: string, i: int)
    requires 0 <= i < |s| && !IsJsSpace(s[i])
    ensures s[i] in JsTrim(s)
  {
    var t := TrimStart(s, IsJsSpace);
    TrimStartShape(s, IsJsSpace);
    var j := i - (|s| - |t|);
    assert 0 <= j < |t| && t[j] == s[i];
    TrimEndShape(t, IsJsSpace);
    assert j < |TrimEnd(t, IsJsSpace)|;
    assert JsTrim(s)[j] == s[i];
  }

  /** The leading digit run stops at or before any non-digit. */
  lemma {:induction false} DigitRunStops(s: string, i: int)
    requires 0 <= i < |s| && !IsDecimalDigit(s[i])
    ensures DigitRun(s) <= i
  {
    if IsDecimalDigit(s[0]) {
      assert s[1..][i - 1] == s[i];
      DigitRunStops(s[1..], i - 1);
    }
  }

  /** No literal after the sign holds a comma. */
  lemma CommaBodyIsNaN(body: string, negative: bool)
    requires ',' in body
    ensures SignedNumber(body, negative) == NaN
  {
    var i :| 0 <= i < |body| && body[i] == ',';
    DigitRunStops(body, i);
    var k := DigitRun(body);
    var rest := body[k..];
    assert rest[i - k] == ',';
    if rest[0] == '.' {
      assert rest[1..][i - k - 1] == ',';
    }
  }

  /** No numeric literal holds a comma, so a string with one converts to NaN. */
  lemma CommaIsNaN(s: string)
    requires ',' in s
    ensures StringNumber(s) == NaN
  {
    var i :| 0 <= i < |s| && s[i] == ',';
    TrimKeepsNonSpace(s, i);
    var t := JsTrim(s);
    if t[0] == '+' || t[0] == '-' {
      assert t == [t[0]] + t[1..];
      CommaBodyIsNaN(t[1..], t[0] == '-');
    } else {
      CommaBodyIsNaN(t, false);
    }
  }

  /** An array of two or more elements joins with a comma, so it converts to NaN. */
  lemma ManyItemsNaN(v: Value)
    requires v.JArr? && |v.items| >= 2
    ensures ToNumber(v) == NaN
  {
    var a := ElementText(v.items[0]);
    assert ElementText(v) == a + "," + ItemsText(v, 1);
    assert (a + "," + ItemsText(v, 1))[|a|] == ',';
    CommaIsNaN(ElementText(v));
  }
}
