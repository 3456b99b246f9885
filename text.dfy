/** String helpers shared by the back end and the front end: single-character
    `split`/`join` (the same in Rust and JavaScript), decimal formatting of
    integers, and the decimal subset of Rust's `str::parse::<f64>`. */
module Text {
  import opened Wrappers

  /** `s.split(sep)`: the pieces between occurrences of `sep`; always at least one. */
  function Split(s: string, sep: char): (parts: seq<string>)
    ensures |parts| >= 1
    ensures forall p :: p in parts ==> sep !in p
    decreases |s|
  {
    if s == [] then [""]
    else
      var rest := Split(s[1..], sep);
      if s[0] == sep then [""] + rest
      else [[s[0]] + rest[0]] + rest[1..]
  }

  /** `parts.join(sep)`; the empty list joins to the empty string. */
  function Join(parts: seq<string>, sep: char): string
  {
    if |parts| == 0 then ""
    else if |parts| == 1 then parts[0]
    else parts[0] + [sep] + Join(parts[1..], sep)
  }

  /** A string without the separator splits into itself alone. */
  lemma {:induction false} SplitNoSep(a: string, sep: char)
    requires sep !in a
    ensures Split(a, sep) == [a]
    decreases |a|
  {
    if a != [] {
      SplitNoSep(a[1..], sep);
      assert [a[0]] + a[1..] == a;
    }
  }

  /** Splitting at the first separator peels off the piece before it. */
  lemma {:induction false} SplitAtFirst(a: string, b: string, sep: char)
    requires sep !in a
    ensures Split(a + [sep] + b, sep) == [a] + Split(b, sep)
    decreases |a|
  {
    if a == [] {
      assert a + [sep] + b == [sep] + b;
      assert ([sep] + b)[1..] == b;
    } else {
      SplitAtFirst(a[1..], b, sep);
      assert (a + [sep] + b)[1..] == a[1..] + [sep] + b;
      assert [a[0]] + a[1..] == a;
    }
  }

  /** Joining pieces free of the separator and splitting again gives the pieces back. */
  lemma {:induction false} SplitJoin(parts: seq<string>, sep: char)
    requires |parts| >= 1
    requires forall p :: p in parts ==> sep !in p
    ensures Split(Join(parts, sep), sep) == parts
    decreases |parts|
  {
    if |parts| == 1 {
      SplitNoSep(parts[0], sep);
    } else {
      assert parts[0] in parts;
      SplitJoin(parts[1..], sep);
      SplitAtFirst(parts[0], Join(parts[1..], sep), sep);
      assert [parts[0]] + parts[1..] == parts;
    }
  }

  /** A separator that occurs in no piece occurs in the joined string only if another
      separator is used, i.e. never when both are the same character excluded. */
  lemma {:induction false} JoinAvoids(parts: seq<string>, sep: char, c: char)
    requires c != sep
    requires forall p :: p in parts ==> c !in p
    ensures c !in Join(parts, sep)
    decreases |parts|
  {
    if |parts| > 1 {
      assert parts[0] in parts;
      JoinAvoids(parts[1..], sep, c);
    } else if |parts| == 1 {
      assert parts[0] in parts;
    }
  }

  // ---------------------------------------------------------------- decimals

  predicate IsDigit(c: char)
  {
    '0' <= c <= '9'
  }

  predicate AllDigits(s: string)
  {
    forall i :: 0 <= i < |s| ==> IsDigit(s[i])
  }

  function DigitChar(d: nat): (c: char)
    requires d < 10
    ensures IsDigit(c)
  {
    ('0' as int + d) as char
  }

  /** The value of a digit string, most significant digit first; "" is 0. */
  function DigitsValue(s: string): nat
    requires AllDigits(s)
    decreases |s|
  {
    if s == [] then 0
    else DigitsValue(s[..|s| - 1]) * 10 + (s[|s| - 1] as int - '0' as int)
  }

  /** The decimal numeral of `n` (Rust `to_string`, JavaScript `String(n)`). */
  function NatToString(n: nat): (s: string)
    ensures |s| >= 1 && AllDigits(s)
    decreases n
  {
    if n < 10 then [DigitChar(n)] else NatToString(n / 10) + [DigitChar(n % 10)]
  }

  /** Reading back a formatted natural number gives the number. */
  lemma {:induction false} NatToStringValue(n: nat)
    ensures DigitsValue(NatToString(n)) == n
    decreases n
  {
    if n >= 10 {
      NatToStringValue(n / 10);
      var s := NatToString(n);
      assert s[..|s| - 1] == NatToString(n / 10);
    }
  }

  /** The decimal numeral of an integer, with a leading '-' when negative. */
  function IntToString(i: int): (s: string)
    ensures |s| >= 1
  {
    if i < 0 then "-" + NatToString(-i) else NatToString(i)
  }

  function Pow10(k: nat): (p: nat)
    ensures p >= 1
  {
    if k == 0 then 1 else 10 * Pow10(k - 1)
  }

  /** A non-empty digit string as a natural number. */
  function ParseNat(s: string): (r: Option<nat>)
    ensures r.Some? <==> |s| > 0 && AllDigits(s)
  {
    if |s| > 0 && AllDigits(s) then Some(DigitsValue(s)) else None
  }

  /** An optionally '-'-signed digit string as an integer. */
  function ParseInt(s: string): Option<int>
  {
    if |s| > 0 && s[0] == '-' then
      match ParseNat(s[1..])
      case Some(v) => Some(-(v as int))
      case None => None
    else
      match ParseNat(s)
      case Some(v) => Some(v)
      case None => None
  }

  /** Formatting then parsing an integer is the identity. */
  lemma IntToStringRoundTrip(i: int)
    ensures ParseInt(IntToString(i)) == Some(i)
  {
    var s := IntToString(i);
    if i < 0 {
      NatToStringValue(-i);
      assert s[1..] == NatToString(-i);
      assert ParseNat(s[1..]) == Some(-i);
    } else {
      NatToStringValue(i);
      assert s[0] != '-' by { assert IsDigit(s[0]); }
      assert ParseNat(s) == Some(i);
    }
  }

  /** Numerals use none of the separators the model splits on. */
  lemma IntToStringAvoids(i: int, c: char)
    requires c != '-' && !IsDigit(c)
    ensures c !in IntToString(i)
  {
    var s := NatToString(if i < 0 then -i else i);
    assert c !in s;
  }

  /** `v` over ten to the `k`: the value of `k` digits after the decimal point. */
  function Fraction(v: nat, k: nat): (r: real)
    ensures r * (Pow10(k) as real) == v as real
  {
    if k == 0 then v as real
    else
      var f := Fraction(v, k - 1);
      var p := Pow10(k - 1) as real;
      assert Pow10(k) as real == 10.0 * p;
      assert (f / 10.0) * (10.0 * p) == f * p;
      f / 10.0
  }

  /** The digits-only forms accepted by Rust's `str::parse::<f64>` without a sign:
      "12", "12.5", "12." and ".5" (not ".", and no exponent, `inf` or `NaN`). */
  function ParseUnsignedDecimal(s: string): Option<real>
  {
    var parts := Split(s, '.');
    if |parts| == 1 then DecimalValue(parts[0], "")
    else if |parts| == 2 then DecimalValue(parts[0], parts[1])
    else None
  }

  /** The number with digits `whole` before the point and `frac` after it. */
  function DecimalValue(whole: string, frac: string): Option<real>
  {
    if AllDigits(whole) && AllDigits(frac) && |whole| + |frac| > 0 then
      Some(DigitsValue(whole) as real + Fraction(DigitsValue(frac), |frac|))
    else None
  }

  /** Rust's `str::parse::<f64>` on decimal literals with an optional '+' or '-'. */
  function ParseF64(s: string): (r: Option<real>)
    ensures s == [] ==> r == None
    ensures |s| > 0 && AllDigits(s) ==> r == Some(DigitsValue(s) as real)
    ensures |s| > 1 && s[0] == '-' && AllDigits(s[1..]) ==> r == Some(-(DigitsValue(s[1..]) as real))
  {
    DigitsParse(s);
    if |s| > 0 && (s[0] == '+' || s[0] == '-') then
      DigitsParse(s[1..]);
      match ParseUnsignedDecimal(s[1..])
      case Some(v) => Some(if s[0] == '-' then -v else v)
      case None => None
    else ParseUnsignedDecimal(s)
  }

  /** A non-empty digit string parses as its value; the empty string does not parse. */
  lemma DigitsParse(s: string)
    ensures s == [] ==> ParseUnsignedDecimal(s) == None
    ensures |s| > 0 && AllDigits(s) ==> ParseUnsignedDecimal(s) == Some(DigitsValue(s) as real)
  {
    if |s| > 0 && AllDigits(s) {
      ParseUnsignedDigits(s);
    }
  }

  /** A plain digit string parses as its value. */
  lemma ParseUnsignedDigits(digits: string)
    requires |digits| > 0 && AllDigits(digits)
    ensures ParseUnsignedDecimal(digits) == Some(DigitsValue(digits) as real)
  {
    DigitsAvoid(digits, '.');
    SplitNoSep(digits, '.');
    WholeOnly(digits);
  }

  /** A digit string contains no non-digit character. */
  lemma DigitsAvoid(digits: string, c: char)
    requires AllDigits(digits) && !IsDigit(c)
    ensures c !in digits
  {
  }

  /** Digits with nothing after the point are the whole number. */
  lemma WholeOnly(digits: string)
    requires |digits| > 0 && AllDigits(digits)
    ensures DecimalValue(digits, "") == Some(DigitsValue(digits) as real)
  {
    assert AllDigits("") && DigitsValue("") == 0;
    assert Fraction(0, 0) * 1.0 == 0.0;
  }

  /** Every integer numeral parses as that number. */
  lemma ParseF64IntToString(i: int)
    ensures ParseF64(IntToString(i)) == Some(i as real)
  {
    var n: nat := if i < 0 then -i else i;
    var digits := NatToString(n);
    ParseUnsignedDigits(digits);
    NatToStringValue(n);
    if i < 0 {
      assert IntToString(i)[1..] == digits;
    } else {
      assert IntToString(i) == digits;
      assert digits[0] != '+' && digits[0] != '-' by { assert IsDigit(digits[0]); }
    }
  }
}
