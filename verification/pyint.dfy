/**
 * Python's `int(s)` on a query-string value, as `get_results` uses it to read
 * `user_id`: surrounding whitespace is ignored, one optional sign, then decimal
 * digits where a single underscore may separate two digits.  Anything else is
 * a `ValueError`, here None.
 */
module PyInt {
  import opened Wrappers

  predicate IsDigit(c: char) {
    '0' <= c <= '9'
  }

  /** ASCII whitespace: space, tab, line feed, vertical tab, form feed, carriage return. */
  predicate IsSpace(c: char) {
    c == ' ' || '\t' <= c <= '\r'
  }

  function TrimLeft(s: string): (t: string)
    ensures |t| <= |s| && t == s[|s| - |t|..]
    ensures |t| > 0 ==> !IsSpace(t[0])
    ensures forall i :: 0 <= i < |s| - |t| ==> IsSpace(s[i])
  {
    if |s| > 0 && IsSpace(s[0]) then TrimLeft(s[1..]) else s
  }

  function TrimRight(s: string): (t: string)
    ensures |t| <= |s| && t == s[..|t|]
    ensures |t| > 0 ==> !IsSpace(t[|t| - 1])
    ensures forall i :: |t| <= i < |s| ==> IsSpace(s[i])
  {
    if |s| > 0 && IsSpace(s[|s| - 1]) then TrimRight(s[..|s| - 1]) else s
  }

  /** `str.strip()` restricted to ASCII whitespace. */
  function Trim(s: string): string {
    TrimRight(TrimLeft(s))
  }

  /** Digits, starting and ending with a digit, with no two underscores in a row. */
  predicate IsDigitGroup(s: string) {
    && |s| > 0
    && IsDigit(s[0])
    && IsDigit(s[|s| - 1])
    && (forall i :: 0 <= i < |s| ==> IsDigit(s[i]) || s[i] == '_')
    && (forall i :: 0 < i < |s| && s[i] == '_' ==> s[i - 1] != '_')
  }

  function DigitValue(c: char): nat
    requires IsDigit(c)
  {
    (c as int) - ('0' as int)
  }

  /** The value of a run of digits and underscores, the underscores ignored. */
  function DigitsValue(s: string): nat
    requires forall i :: 0 <= i < |s| ==> IsDigit(s[i]) || s[i] == '_'
  {
    if |s| == 0 then 0
    else if s[|s| - 1] == '_' then DigitsValue(s[..|s| - 1])
    else 10 * DigitsValue(s[..|s| - 1]) + DigitValue(s[|s| - 1])
  }

  /** `int(s)`, None where Python raises `ValueError`. */
  function ParseInt(s: string): Option<int> {
    ParseNumeral(Trim(s))
  }

  /** An optional sign followed by a digit group, with nothing around it. */
  function ParseNumeral(t: string): Option<int> {
    if |t| > 0 && (t[0] == '+' || t[0] == '-') then
      if IsDigitGroup(t[1..]) then
        var v: int := DigitsValue(t[1..]);
        Some(if t[0] == '-' then -v else v)
      else None
    else if IsDigitGroup(t) then Some(DigitsValue(t))
    else None
  }

  function DigitChar(d: nat): (c: char)
    requires d < 10
    ensures IsDigit(c) && DigitValue(c) == d
  {
    ('0' as int + d) as char
  }

  /** The decimal numeral of a natural number, as `str` writes it. */
  function ShowNat(n: nat): (s: string)
    ensures |s| > 0
    ensures forall i :: 0 <= i < |s| ==> IsDigit(s[i])
  {
    if n < 10 then [DigitChar(n)] else ShowNat(n / 10) + [DigitChar(n % 10)]
  }

  /** The decimal numeral of an integer, as `str` writes it. */
  function Show(n: int): string {
    if n < 0 then "-" + ShowNat(-n) else ShowNat(n)
  }

  lemma {:induction false} ShowNatValue(n: nat)
    ensures DigitsValue(ShowNat(n)) == n
  {
    if n >= 10 {
      var s := ShowNat(n);
      assert s[..|s| - 1] == ShowNat(n / 10);
      ShowNatValue(n / 10);
    }
  }

  lemma {:induction false} TrimLeftBlanks(blanks: string, x: string)
    requires forall i :: 0 <= i < |blanks| ==> IsSpace(blanks[i])
    requires |x| > 0 && !IsSpace(x[0])
    ensures TrimLeft(blanks + x) == x
  {
    if |blanks| == 0 {
      assert blanks + x == x;
    } else {
      assert (blanks + x)[1..] == blanks[1..] + x;
      TrimLeftBlanks(blanks[1..], x);
    }
  }

  lemma {:induction false} TrimRightBlanks(x: string, blanks: string)
    requires forall i :: 0 <= i < |blanks| ==> IsSpace(blanks[i])
    requires |x| > 0 && !IsSpace(x[|x| - 1])
    ensures TrimRight(x + blanks) == x
  {
    if |blanks| == 0 {
      assert x + blanks == x;
    } else {
      var s := x + blanks;
      assert s[..|s| - 1] == x + blanks[..|blanks| - 1];
      TrimRightBlanks(x, blanks[..|blanks| - 1]);
    }
  }

  /** Stripping removes exactly the blanks around a text that neither starts nor ends with one. */
  lemma TrimAround(before: string, t: string, after: string)
    requires forall i :: 0 <= i < |before| ==> IsSpace(before[i])
    requires forall i :: 0 <= i < |after| ==> IsSpace(after[i])
    requires |t| > 0 && !IsSpace(t[0]) && !IsSpace(t[|t| - 1])
    ensures Trim(before + t + after) == t
  {
    assert before + t + after == before + (t + after);
    assert (t + after)[0] == t[0];
    TrimLeftBlanks(before, t + after);
    TrimRightBlanks(t, after);
  }

  /** A sign and a digit group, with nothing around them, read as the signed value of the digits. */
  lemma NumeralValue(sign: string, digits: string)
    requires sign == "" || sign == "+" || sign == "-"
    requires IsDigitGroup(digits)
    ensures ParseNumeral(sign + digits)
            == Some(if sign == "-" then -(DigitsValue(digits) as int) else DigitsValue(digits))
  {
    if sign != "" {
      assert (sign + digits)[1..] == digits;
    } else {
      assert sign + digits == digits;
    }
  }

  /**
   * `int` accepts any digit group (leading zeros and single underscores
   * included) after an optional sign, with blanks on either side, and
   * returns its signed value.
   */
  lemma ParseAccepts(before: string, sign: string, digits: string, after: string)
    requires forall i :: 0 <= i < |before| ==> IsSpace(before[i])
    requires forall i :: 0 <= i < |after| ==> IsSpace(after[i])
    requires sign == "" || sign == "+" || sign == "-"
    requires IsDigitGroup(digits)
    ensures ParseInt(before + sign + digits + after)
            == Some(if sign == "-" then -(DigitsValue(digits) as int) else DigitsValue(digits))
  {
    var t := sign + digits;
    assert before + sign + digits + after == before + t + after;
    TrimAround(before, t, after);
    NumeralValue(sign, digits);
  }

  /** A suffix reached by dropping only blanks follows a prefix of blanks. */
  lemma BlankPrefix(s: string, t: string) returns (before: string)
    requires |t| <= |s| && t == s[|s| - |t|..]
    requires forall i :: 0 <= i < |s| - |t| ==> IsSpace(s[i])
    ensures forall i :: 0 <= i < |before| ==> IsSpace(before[i])
    ensures s == before + t
  {
    before := s[..|s| - |t|];
  }

  /** A prefix reached by dropping only blanks is followed by a suffix of blanks. */
  lemma BlankSuffix(t: string, m: string) returns (after: string)
    requires |m| <= |t| && m == t[..|m|]
    requires forall i :: |m| <= i < |t| ==> IsSpace(t[i])
    ensures forall i :: 0 <= i < |after| ==> IsSpace(after[i])
    ensures t == m + after
  {
    after := t[|m|..];
    forall i | 0 <= i < |after|
      ensures IsSpace(after[i])
    {
      assert after[i] == t[|m| + i];
    }
  }

  /** A string is its leading blanks, its stripped text and its trailing blanks. */
  lemma TrimSplit(s: string) returns (before: string, middle: string, after: string)
    ensures forall i :: 0 <= i < |before| ==> IsSpace(before[i])
    ensures forall i :: 0 <= i < |after| ==> IsSpace(after[i])
    ensures middle == Trim(s)
    ensures s == before + (middle + after)
  {
    var t := TrimLeft(s);
    before := BlankPrefix(s, t);
    middle := TrimRight(t);
    after := BlankSuffix(t, middle);
  }

  /** Concatenation regrouped. */
  lemma Regroup(a: string, b: string, c: string, d: string)
    ensures a + (b + c + d) == a + b + c + d
  {
  }

  /** What `ParseNumeral` accepts is an optional sign followed by a digit group. */
  lemma NumeralSplit(t: string) returns (sign: string, digits: string)
    requires ParseNumeral(t).Some?
    ensures sign == "" || sign == "+" || sign == "-"
    ensures IsDigitGroup(digits)
    ensures t == sign + digits
  {
    if |t| > 0 && (t[0] == '+' || t[0] == '-') {
      sign, digits := t[..1], t[1..];
    } else {
      sign, digits := "", t;
    }
  }

  /**
   * `int` accepts nothing else: every string it accepts splits into blanks, an
   * optional sign, a digit group and blanks, and its value is the signed value
   * of that digit group.  With `ParseAccepts` this is an if and only if.
   */
  lemma ParseOnlyNumerals(s: string) returns (before: string, sign: string, digits: string, after: string)
    requires ParseInt(s).Some?
    ensures forall i :: 0 <= i < |before| ==> IsSpace(before[i])
    ensures forall i :: 0 <= i < |after| ==> IsSpace(after[i])
    ensures sign == "" || sign == "+" || sign == "-"
    ensures IsDigitGroup(digits)
    ensures s == before + sign + digits + after
    ensures ParseInt(s).value == if sign == "-" then -(DigitsValue(digits) as int) else DigitsValue(digits)
  {
    var middle;
    before, middle, after := TrimSplit(s);
    sign, digits := NumeralSplit(middle);
    NumeralValue(sign, digits);
    Regroup(before, sign, digits, after);
  }

  /** The numeral of a natural number is a digit group. */
  lemma ShowNatIsDigitGroup(n: nat)
    ensures IsDigitGroup(ShowNat(n))
  {
  }

  /** The numeral of an integer has no blanks to strip. */
  lemma ShowTrimmed(n: int)
    ensures Trim(Show(n)) == Show(n)
  {
    var s := Show(n);
    assert "" + s + "" == s;
    TrimAround("", s, "");
  }

  /** `int` reads back every numeral `str` writes. */
  lemma ParseShow(n: int)
    ensures ParseInt(Show(n)) == Some(n)
  {
    var m := if n < 0 then -n else n;
    ShowNatValue(m);
    ShowNatIsDigitGroup(m);
    ShowTrimmed(n);
    if n < 0 {
      NumeralValue("-", ShowNat(m));
    } else {
      NumeralValue("", ShowNat(m));
      assert "" + ShowNat(m) == Show(n);
    }
  }

  /** The empty string and a string of blanks are not numbers. */
  lemma ParseBlank(s: string)
    requires forall i :: 0 <= i < |s| ==> IsSpace(s[i])
    ensures ParseInt(s) == None
  {
  }
}
