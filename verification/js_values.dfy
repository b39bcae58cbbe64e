/** The JavaScript values the back end's route handlers inspect: request
    bodies, query parameters and Firestore documents. Numbers are integers
    (the handlers only compare, add and store them), plus `NaN`, which is
    what `parseInt` yields when no digits are found. */
module JsValues {
  import opened Common

  datatype JsValue =
    | Undefined
    | Null
    | Bool(b: bool)
    | Num(n: int)
    | NaN
    | Str(s: string)
    | Arr(elems: seq<JsValue>)
    | Obj(fields: map<string, JsValue>)

  /** JavaScript truthiness: `false`, `0`, `NaN`, `""`, `null` and `undefined` are falsy. */
  predicate Truthy(v: JsValue)
  {
    match v
    case Undefined => false
    case Null => false
    case Bool(b) => b
    case Num(n) => n != 0
    case NaN => false
    case Str(s) => s != ""
    case Arr(_) => true
    case Obj(_) => true
  }

  /** `a || b`. */
  function Or(a: JsValue, b: JsValue): (r: JsValue)
    ensures Truthy(a) ==> r == a
    ensures !Truthy(a) ==> r == b
  {
    if Truthy(a) then a else b
  }

  /** A property read on an object: a missing key reads as `undefined`. */
  function Get(fields: map<string, JsValue>, key: string): (r: JsValue)
    ensures key !in fields ==> r == Undefined
    ensures key in fields ==> r == fields[key]
  {
    if key in fields then fields[key] else Undefined
  }

  /** A destructuring default (`{ x = d } = obj`): applies only when the property is `undefined`. */
  function GetOr(fields: map<string, JsValue>, key: string, default: JsValue): (r: JsValue)
    ensures Get(fields, key) == Undefined ==> r == default
    ensures Get(fields, key) != Undefined ==> r == fields[key]
  {
    var v := Get(fields, key);
    if v == Undefined then default else v
  }

  /** The `n` characters of `s` from position `i`. */
  function Slice(s: string, i: int, n: int): string
    requires 0 <= i && 0 <= n && i + n <= |s|
  {
    s[i..i + n]
  }

  /** Whether `part` occurs in `s` as a contiguous substring. */
  predicate Contains(s: string, part: string)
  {
    exists i :: 0 <= i <= |s| - |part| && Slice(s, i, |part|) == part
  }

  /** `x.includes(y)` for a string `y`: membership (SameValueZero) on an
      array, substring search on a string, and a `TypeError` on anything else. */
  function Includes(x: JsValue, y: string): (r: Result<bool, string>)
    ensures x.Arr? ==> r == Ok(Str(y) in x.elems)
    ensures x.Str? ==> r == Ok(Contains(x.s, y))
    ensures !x.Arr? && !x.Str? <==> r.Err?
  {
    match x
    case Arr(elems) => Ok(Str(y) in elems)
    case Str(s) => Ok(Contains(s, y))
    case _ => Err("TypeError")
  }

  /** A string id held in an array is also found by substring search of any
      string that contains it, so a string in place of an id list admits
      every id that happens to be a piece of it. */
  lemma SubstringIncludes(list: string, id: string, i: int)
    requires 0 <= i <= |list| - |id| && list[i..i + |id|] == id
    ensures Includes(Str(list), id) == Ok(true)
  {
    assert Slice(list, i, |id|) == id;
  }

  /** The ECMAScript white space and line terminators that `parseInt` skips. */
  predicate IsJsWhitespace(c: char)
  {
    || c == '\t' || c == '\n' || c == '\U{B}' || c == '\U{C}' || c == '\r' || c == ' '
    || c == '\U{A0}' || c == '\U{1680}' || ('\U{2000}' <= c <= '\U{200A}')
    || c == '\U{2028}' || c == '\U{2029}' || c == '\U{202F}' || c == '\U{205F}'
    || c == '\U{3000}' || c == '\U{FEFF}'
  }

  function TrimStart(s: string): (r: string)
    ensures |r| <= |s| && r == s[|s| - |r|..]
    ensures r == [] || !IsJsWhitespace(r[0])
    ensures forall i :: 0 <= i < |s| - |r| ==> IsJsWhitespace(s[i])
  {
    if s != [] && IsJsWhitespace(s[0]) then
      var r := TrimStart(s[1..]);
      assert forall i :: 1 <= i < |s| - |r| ==> s[i] == s[1..][i - 1];
      r
    else s
  }

  /** The value of a character as a digit in base 16 (`-1` if it is none). */
  function HexDigitValue(c: char): int
  {
    if '0' <= c <= '9' then c as int - '0' as int
    else if 'a' <= c <= 'f' then c as int - 'a' as int + 10
    else if 'A' <= c <= 'F' then c as int - 'A' as int + 10
    else -1
  }

  predicate IsRadixDigit(c: char, radix: int)
  {
    0 <= HexDigitValue(c) < radix
  }

  /** Length of the longest prefix of `s` made of digits in `radix`. */
  function DigitRun(s: string, radix: int): (n: nat)
    ensures n <= |s|
    ensures forall i :: 0 <= i < n ==> IsRadixDigit(s[i], radix)
    ensures n < |s| ==> !IsRadixDigit(s[n], radix)
  {
    if s != [] && IsRadixDigit(s[0], radix) then
      var n := 1 + DigitRun(s[1..], radix);
      assert forall i :: 1 <= i < n ==> s[i] == s[1..][i - 1];
      n
    else 0
  }

  /** The value of a string of digits in `radix`, most significant first. */
  function RadixValue(s: string, radix: int): int
    requires forall i :: 0 <= i < |s| ==> IsRadixDigit(s[i], radix)
  {
    if s == [] then 0 else RadixValue(s[..|s| - 1], radix) * radix + HexDigitValue(s[|s| - 1])
  }

  /** Digits after the sign: `0x`/`0X` selects hexadecimal, otherwise
      decimal; the value of the longest digit prefix, `None` if it is empty. */
  function ParseUnsigned(u: string): (r: Option<nat>)
  {
    var hex := |u| >= 2 && u[0] == '0' && (u[1] == 'x' || u[1] == 'X');
    var radix := if hex then 16 else 10;
    var body := if hex then u[2..] else u;
    var n := DigitRun(body, radix);
    if n == 0 then None
    else
      var v := RadixValue(body[..n], radix);
      RadixValueNonNegative(body[..n], radix);
      Some(v)
  }

  lemma {:induction false} RadixValueNonNegative(s: string, radix: int)
    requires radix > 0 && forall i :: 0 <= i < |s| ==> IsRadixDigit(s[i], radix)
    ensures RadixValue(s, radix) >= 0
    decreases |s|
  {
    if s != [] {
      RadixValueNonNegative(s[..|s| - 1], radix);
    }
  }

  /** `parseInt(s)` with no radix: skip leading white space, take an optional
      sign, then read the digits; `None` stands for `NaN`. */
  function ParseInt(s: string): (r: Option<int>)
  {
    ParseSigned(TrimStart(s))
  }

  /** An optional sign, then the digits. */
  function ParseSigned(t: string): (r: Option<int>)
  {
    var negative := t != [] && t[0] == '-';
    var u := if t != [] && (t[0] == '-' || t[0] == '+') then t[1..] else t;
    match ParseUnsigned(u)
    case None => None
    case Some(v) => var x: int := v; Some(if negative then -x else x)
  }

  /** `undefined` has no digits. */
  lemma ParseUndefined()
    ensures ParseInt("undefined") == None
  {
    var s := "undefined";
    assert !IsJsWhitespace(s[0]);
    assert TrimStart(s) == s;
    assert !IsRadixDigit(s[0], 10);
    assert DigitRun(s, 10) == 0;
  }

  /** `parseInt(x)` where `x` is a query parameter: absent parameters are
      `undefined`, which reads as the text "undefined" and gives `NaN`. */
  function ParseQuery(x: Option<string>): (r: Option<int>)
    ensures x.None? ==> r.None?
    ensures x.Some? ==> r == ParseInt(x.value)
  {
    match x
    case None => ParseUndefined(); ParseInt("undefined")
    case Some(s) => ParseInt(s)
  }

  /** Decimal digits read in base 10 give back their decimal value, and are
      all taken by the digit run. */
  lemma {:induction false} RadixValueDecimal(s: string)
    requires forall i :: 0 <= i < |s| ==> IsDigit(s[i])
    ensures forall i :: 0 <= i < |s| ==> IsRadixDigit(s[i], 10)
    ensures DigitRun(s, 10) == |s|
    ensures RadixValue(s, 10) == DigitsValue(s)
    decreases |s|
  {
    if s != [] {
      RadixValueDecimal(s[..|s| - 1]);
      RadixDigitRun(s);
    }
  }

  lemma {:induction false} RadixDigitRun(s: string)
    requires forall i :: 0 <= i < |s| ==> IsDigit(s[i])
    ensures DigitRun(s, 10) == |s|
    decreases |s|
  {
    if s != [] {
      RadixDigitRun(s[1..]);
    }
  }

  /** Printed natural numbers read back unchanged. */
  lemma ParseUnsignedRoundTrip(n: nat)
    ensures ParseUnsigned(NatToString(n)) == Some(n)
  {
    var u := NatToString(n);
    RadixValueDecimal(u);
    NatToStringRoundTrip(n);
    assert !(u[0] == '0' && |u| >= 2 && (u[1] == 'x' || u[1] == 'X')) by {
      assert IsDigit(u[0]);
      if |u| >= 2 { assert IsDigit(u[1]); }
    }
    assert u[..|u|] == u;
  }

  /** `parseInt` reads back what integer printing writes. */
  lemma ParseIntRoundTrip(i: int)
    ensures ParseInt(IntToString(i)) == Some(i)
  {
    var s := IntToString(i);
    TrimStartNoop(s);
    if i < 0 {
      NegativeRoundTrip(i);
    } else {
      assert s == NatToString(i);
      ParseUnsignedRoundTrip(i);
      assert s[0] != '-' && s[0] != '+' by { assert IsDigit(s[0]); }
    }
  }

  lemma NegativeRoundTrip(i: int)
    requires i < 0
    ensures ParseSigned(IntToString(i)) == Some(i)
  {
    var u := NatToString(-i);
    ParseUnsignedRoundTrip(-i);
    ParseSignedMinus(u, -i);
    assert IntToString(i) == "-" + u;
  }

  /** A minus sign in front of digits that read as `n` reads as `-n`. */
  lemma ParseSignedMinus(u: string, n: nat)
    requires ParseUnsigned(u) == Some(n)
    ensures ParseSigned("-" + u) == Some(-(n as int))
  {
    var t := "-" + u;
    assert t[0] == '-' && t[1..] == u;
  }

  /** Printed integers start with a digit or `-`, so nothing is trimmed. */
  lemma TrimStartNoop(s: string)
    requires s != [] && (IsDigit(s[0]) || s[0] == '-')
    ensures TrimStart(s) == s
  {
  }
}
