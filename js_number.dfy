/**
 * JavaScript's `Number(v)` coercion on parsed JSON values, with integers for the
 * finite numbers. `NaN` stands for every non-finite result (NaN and the infinities).
 */
module JsNumber {
  import opened Wrappers
  import opened JsString
  import opened JsValue

  datatype JsNum = Num(n: int) | NaN

  /** `Number(s)` for a string: trimmed, empty is 0, an optionally signed run of decimal digits is its value. */
  function StringToNumber(s: string): JsNum {
    var t := Trim(s);
    if t == [] then Num(0)
    else if |t| > 1 && t[0] == '-' && AllDigits(t[1..]) then Num(-(DigitsValue(t[1..]) as int))
    else if |t| > 1 && t[0] == '+' && AllDigits(t[1..]) then Num(DigitsValue(t[1..]))
    else if AllDigits(t) then Num(DigitsValue(t))
    else NaN
  }

  /** `Number(v)`; `None` is `undefined`. */
  function ToNumber(v: Option<Json>): JsNum {
    match v
    case None => NaN
    case Some(j) => ValueToNumber(j)
  }

  /**
   * `Number(j)` for a parsed value. An array is converted through its string form:
   * `[]` and `[null]` give "", one element gives that element's string, and two or
   * more are joined with "," which no numeric literal contains.
   */
  function ValueToNumber(j: Json): JsNum {
    match j
    case JNull => Num(0)
    case JBool(b) => if b then Num(1) else Num(0)
    case JNumber(n) => Num(n)
    case JString(s) => StringToNumber(s)
    case JObject(_) => NaN
    case JArray(es) =>
      if |es| == 0 then Num(0)
      else if |es| > 1 then NaN
      else
        match es[0]
        case JNull => Num(0)
        case JBool(b) => StringToNumber(if b then "true" else "false")
        case JNumber(n) => StringToNumber(IntToString(n))
        case JString(s) => StringToNumber(s)
        case JObject(_) => NaN
        case JArray(_) => ValueToNumber(es[0])
  }

  /** A string of decimal digits is the number they denote. */
  lemma DigitsNumber(d: string)
    requires d != [] && AllDigits(d)
    ensures StringToNumber(d) == Num(DigitsValue(d))
  {
    assert Trim(d) == d by {
      assert !IsJsSpace(d[0]) && !IsJsSpace(d[|d| - 1]);
      TrimOfUnspaced(d);
    }
    assert IsDigit(d[0]);
  }

  /** A minus sign before decimal digits negates them. */
  lemma NegatedDigitsNumber(d: string)
    requires d != [] && AllDigits(d)
    ensures StringToNumber(['-'] + d) == Num(-(DigitsValue(d) as int))
  {
    SignedUnspaced('-', d);
    var s := ['-'] + d;
    assert s[1..] == d;
  }

  /** A sign character that is not white space, before digits, leaves nothing for `trim` to drop. */
  lemma SignedUnspaced(c: char, d: string)
    requires !IsJsSpace(c) && d != [] && AllDigits(d)
    ensures Trim([c] + d) == [c] + d
  {
    var s := [c] + d;
    assert s[0] == c && s[|s| - 1] == d[|d| - 1];
    TrimOfUnspaced(s);
  }

  /** `Number(String(n)) === n`: the string form of an integer reads back as that integer. */
  lemma StringOfIntRoundTrip(n: int)
    ensures StringToNumber(IntToString(n)) == Num(n)
  {
    var m: nat := if n < 0 then -n else n;
    DigitsOfNatToString(m);
    if n < 0 {
      assert IntToString(n) == ['-'] + NatToString(m);
      NegatedDigitsNumber(NatToString(m));
    } else {
      DigitsNumber(NatToString(m));
    }
  }

  /** A one-element array converts like its element, for numbers and strings alike. */
  lemma SingletonArrayNumber(e: Json)
    requires e.JNumber? || e.JString?
    ensures ToNumber(Some(JArray([e]))) == ToNumber(Some(e))
  {
    if e.JNumber? {
      StringOfIntRoundTrip(e.n);
    }
  }

  /** Strings such as "N/A" that are not numeric literals are NaN. */
  lemma NotApplicableIsNaN()
    ensures StringToNumber("N/A") == NaN
  {
    var s := "N/A";
    assert !IsJsSpace(s[0]) && !IsJsSpace(s[2]);
    TrimOfUnspaced(s);
    assert !IsDigit(s[0]);
  }

  /** A digit in base 10, or in base 16 when `hex` holds (`a`-`f` in either case). */
  predicate IsRadixDigit(c: char, hex: bool) {
    IsDigit(c) || (hex && (('a' <= c <= 'f') || ('A' <= c <= 'F')))
  }

  function HexDigitValue(c: char): nat {
    if IsDigit(c) then c as int - '0' as int
    else if 'a' <= c <= 'f' then c as int - 'a' as int + 10
    else if 'A' <= c <= 'F' then c as int - 'A' as int + 10
    else 0
  }

  /** The value of a string of hexadecimal digits, most significant first. */
  function HexValue(s: string): nat
    decreases |s|
  {
    if s == [] then 0 else HexValue(s[..|s| - 1]) * 16 + HexDigitValue(s[|s| - 1])
  }

  /** The length of the longest prefix of `s` made of digits. */
  function DigitRun(s: string, hex: bool): (n: nat)
    ensures n <= |s|
    ensures forall k :: 0 <= k < n ==> IsRadixDigit(s[k], hex)
    ensures n < |s| ==> !IsRadixDigit(s[n], hex)
    decreases |s|
  {
    if s != [] && IsRadixDigit(s[0], hex) then 1 + DigitRun(s[1..], hex) else 0
  }

  /** The number the longest leading run of digits of `s` denotes; no digits is NaN. */
  function ReadDigits(s: string, hex: bool): JsNum {
    var n := DigitRun(s, hex);
    if n == 0 then NaN
    else if hex then Num(HexValue(s[..n]))
    else Num(DigitsValue(s[..n]))
  }

  /** Digits after the sign: a `0x`/`0X` prefix selects base 16. */
  function ReadUnsigned(s: string): JsNum {
    if |s| >= 2 && s[0] == '0' && (s[1] == 'x' || s[1] == 'X') then ReadDigits(s[2..], true)
    else ReadDigits(s, false)
  }

  function Negate(v: JsNum): JsNum {
    match v
    case Num(n) => Num(-n)
    case NaN => NaN
  }

  /**
   * `parseInt(s)` without a radix: leading white space and one sign are skipped, a
   * `0x`/`0X` prefix selects base 16, and the longest run of digits after it is read;
   * no digits at all is NaN. Anything after the digits is ignored.
   */
  function ParseInt(input: string): JsNum {
    var s := TrimStart(input);
    if s != [] && s[0] == '-' then Negate(ReadUnsigned(s[1..]))
    else if s != [] && s[0] == '+' then ReadUnsigned(s[1..])
    else ReadUnsigned(s)
  }

  /** A run of digits followed by a non-digit (or by nothing) is exactly the run `DigitRun` finds. */
  lemma {:induction false} DigitRunOfDigits(d: string, rest: string, hex: bool)
    requires forall k :: 0 <= k < |d| ==> IsRadixDigit(d[k], hex)
    requires rest == [] || !IsRadixDigit(rest[0], hex)
    ensures DigitRun(d + rest, hex) == |d|
    decreases |d|
  {
    if d == [] {
      assert d + rest == rest;
    } else {
      assert (d + rest)[0] == d[0];
      assert (d + rest)[1..] == d[1..] + rest;
      DigitRunOfDigits(d[1..], rest, hex);
    }
  }

  /** Text that opens with a digit and no `0x` prefix is read in base 10 from its first character. */
  lemma ParseIntOfDecimalStart(s: string)
    requires s != [] && IsDigit(s[0])
    requires !(|s| >= 2 && s[0] == '0' && (s[1] == 'x' || s[1] == 'X'))
    ensures ParseInt(s) == ReadDigits(s, false)
  {
    assert !IsJsSpace(s[0]);
    TrimStartOfUnspaced(s);
    assert ReadUnsigned(s) == ReadDigits(s, false);
  }

  /** `parseInt` reads a run of decimal digits that does not open with `0x` back as its value. */
  lemma ParseIntOfDigits(d: string, rest: string)
    requires d != [] && AllDigits(d)
    requires rest == [] || (!IsDigit(rest[0]) && rest[0] != 'x' && rest[0] != 'X')
    requires |d| >= 2 ==> d[0] != '0'
    ensures ParseInt(d + rest) == Num(DigitsValue(d))
  {
    var s := d + rest;
    assert s[0] == d[0];
    assert |s| >= 2 ==> s[1] == if |d| >= 2 then d[1] else rest[0];
    ParseIntOfDecimalStart(s);
    DigitRunOfDigits(d, rest, false);
    assert s[..|d|] == d;
  }

  /**
   * `parseInt` reads the decimal form of a natural number back, also when other
   * text follows it, provided that text does not continue the digits (or, after a
   * lone `0`, turn it into a `0x` prefix).
   */
  lemma ParseIntReadsDecimal(n: nat, rest: string)
    requires rest == [] || (!IsDigit(rest[0]) && rest[0] != 'x' && rest[0] != 'X')
    ensures ParseInt(NatToString(n) + rest) == Num(n)
  {
    ParseIntOfDigits(NatToString(n), rest);
    DigitsOfNatToString(n);
  }

  /**
   * A `0x` or `0X` prefix switches to base 16: the hexadecimal digits after it are
   * read up to the first other character, so a key suffix "0x1f" reads as 31.
   */
  lemma ParseIntOfHex(s: string, h: string, rest: string)
    requires |s| >= 2 && s[0] == '0' && (s[1] == 'x' || s[1] == 'X') && s[2..] == h + rest
    requires h != [] && forall k :: 0 <= k < |h| ==> IsRadixDigit(h[k], true)
    requires rest == [] || !IsRadixDigit(rest[0], true)
    ensures ParseInt(s) == Num(HexValue(h))
  {
    var t := h + rest;
    calc {
      ParseInt(s);
      { TrimStartOfUnspaced(s); }
      ReadUnsigned(s);
      ReadDigits(t, true);
      { DigitRunOfDigits(h, rest, true); assert t[..|h|] == h; }
      Num(HexValue(h));
    }
  }

  /** A suffix that starts with no digit is NaN. */
  lemma ParseIntOfLetters(s: string)
    requires s != [] && !IsJsSpace(s[0]) && !IsDigit(s[0]) && s[0] != '-' && s[0] != '+'
    ensures ParseInt(s) == NaN
  {
    assert TrimStart(s) == s;
  }
}
