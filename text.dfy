/**
 * String building blocks the client relies on: PHP's decimal conversion of integers,
 * `implode`/`explode`, ASCII lower-casing and byte-wise string comparison.
 * PHP strings are byte strings; a `string` here holds one char per byte.
 */
module Text {
  import opened Common

  predicate IsDigit(c: char) { '0' <= c <= '9' }

  predicate AllDigits(s: string) { forall i :: 0 <= i < |s| ==> IsDigit(s[i]) }

  function DigitChar(d: int): (c: char)
    requires 0 <= d < 10
    ensures IsDigit(c)
  {
    ('0' as int + d) as char
  }

  function DigitValue(c: char): (d: int)
    requires IsDigit(c)
    ensures 0 <= d < 10
  {
    c as int - '0' as int
  }

  /** The decimal digits of `n`, most significant first, without leading zeros. */
  function NatToDecimal(n: nat): (s: string)
    ensures |s| > 0 && AllDigits(s)
    ensures |s| > 1 ==> s[0] != '0'
    decreases n
  {
    if n < 10 then [DigitChar(n)] else NatToDecimal(n / 10) + [DigitChar(n % 10)]
  }

  /** PHP's string conversion of an int (`$id . ','`, `'...: ' . $statusCode`). */
  function IntToDecimal(i: int): (s: string)
    ensures IsIntLiteral(s)
  {
    if i < 0 then "-" + NatToDecimal(-i) else NatToDecimal(i)
  }

  /** A decimal integer literal: optional minus sign, then at least one digit. */
  predicate IsIntLiteral(s: string)
  {
    (|s| > 0 && AllDigits(s)) || (|s| > 1 && s[0] == '-' && AllDigits(s[1..]))
  }

  function ParseNat(s: string): nat
    requires AllDigits(s)
    decreases |s|
  {
    if |s| == 0 then 0 else ParseNat(s[..|s| - 1]) * 10 + DigitValue(s[|s| - 1])
  }

  function ParseInt(s: string): int
    requires IsIntLiteral(s)
  {
    if |s| > 0 && AllDigits(s) then ParseNat(s) else -(ParseNat(s[1..]) as int)
  }

  lemma {:induction false} ParseNatOfDecimal(n: nat)
    ensures ParseNat(NatToDecimal(n)) == n
    decreases n
  {
    if n >= 10 {
      var s := NatToDecimal(n);
      assert s[..|s| - 1] == NatToDecimal(n / 10);
      ParseNatOfDecimal(n / 10);
    }
  }

  /** Reading back the decimal form of an integer gives the integer. */
  lemma ParseIntOfDecimal(i: int)
    ensures ParseInt(IntToDecimal(i)) == i
  {
    if i < 0 {
      var s := IntToDecimal(i);
      assert s[1..] == NatToDecimal(-i);
      assert !AllDigits(s) by { assert !IsDigit(s[0]); }
      ParseNatOfDecimal(-i);
    } else {
      ParseNatOfDecimal(i);
    }
  }

  /** A decimal literal never contains the separators the client joins with. */
  lemma DecimalHasNoSeparator(i: int, sep: char)
    requires sep != '-' && !IsDigit(sep)
    ensures sep !in IntToDecimal(i)
  {
    var s := IntToDecimal(i);
    forall k | 0 <= k < |s|
      ensures s[k] != sep
    {
      if k > 0 && !AllDigits(s) {
        assert s[k] == s[1..][k - 1];
      }
    }
  }

  /** Where each of four concatenated pieces sits in the result. */
  lemma FourPieces(a: string, b: string, c: string, d: string)
    ensures var u := a + b + c + d;
      && |u| == |a| + |b| + |c| + |d|
      && u[..|a|] == a
      && u[|a|..|a| + |b|] == b
      && u[|a| + |b|..|a| + |b| + |c|] == c
      && u[|a| + |b| + |c|..] == d
  {
  }

  /** PHP's `implode(sep, parts)`. */
  function Join(parts: seq<string>, sep: char): string
    decreases |parts|
  {
    if |parts| == 0 then ""
    else if |parts| == 1 then parts[0]
    else Join(parts[..|parts| - 1], sep) + [sep] + parts[|parts| - 1]
  }

  /** The string a loop `foreach ($parts as $p) { $acc .= $p . sep; }` accumulates. */
  function Terminated(parts: seq<string>, sep: char): string
    decreases |parts|
  {
    if |parts| == 0 then "" else Terminated(parts[..|parts| - 1], sep) + parts[|parts| - 1] + [sep]
  }

  /** Dropping the last character of the accumulated string leaves exactly the joined parts. */
  lemma {:induction false} TerminatedIsJoinPlusSeparator(parts: seq<string>, sep: char)
    requires |parts| > 0
    ensures Terminated(parts, sep) == Join(parts, sep) + [sep]
    decreases |parts|
  {
    if |parts| > 1 {
      var init := parts[..|parts| - 1];
      TerminatedIsJoinPlusSeparator(init, sep);
      assert init[..|init| - 1] == parts[..|parts| - 2];
      assert Terminated(init, sep) == Join(init, sep) + [sep];
    } else {
      assert parts[..0] == [];
    }
  }

  /** PHP's `explode(sep, s)`: the pieces between separators, at least one. */
  function Split(s: string, sep: char): (r: seq<string>)
    ensures |r| > 0
    decreases |s|
  {
    if |s| == 0 then [""]
    else
      var rest := Split(s[1..], sep);
      if s[0] == sep then [""] + rest else [[s[0]] + rest[0]] + rest[1..]
  }

  lemma {:induction false} SplitPiecesHaveNoSeparator(s: string, sep: char)
    ensures forall k :: 0 <= k < |Split(s, sep)| ==> sep !in Split(s, sep)[k]
    decreases |s|
  {
    if |s| > 0 {
      SplitPiecesHaveNoSeparator(s[1..], sep);
    }
  }

  lemma {:induction false} SplitWithoutSeparator(s: string, sep: char)
    requires sep !in s
    ensures Split(s, sep) == [s]
    decreases |s|
  {
    if |s| > 0 {
      SplitWithoutSeparator(s[1..], sep);
      assert [s[0]] + s[1..] == s;
    }
  }

  /** A string starting with a non-separator char extends the first piece of its tail. */
  lemma SplitCons(s: string, sep: char)
    requires |s| > 0 && s[0] != sep
    ensures Split(s, sep) == [[s[0]] + Split(s[1..], sep)[0]] + Split(s[1..], sep)[1..]
  {
  }

  /** Prepending pieces: the first piece grows, the rest are kept. */
  lemma ConsPieces(c: char, x: seq<string>, y: seq<string>)
    requires |x| > 0
    ensures [[c] + (x + y)[0]] + (x + y)[1..] == ([[c] + x[0]] + x[1..]) + y
  {
    assert (x + y)[1..] == x[1..] + y;
  }

  /** Splitting at a separator splits the two sides independently. */
  lemma {:induction false} SplitAtSeparator(a: string, b: string, sep: char)
    ensures Split(a + [sep] + b, sep) == Split(a, sep) + Split(b, sep)
    decreases |a|
  {
    var s := a + [sep] + b;
    if |a| == 0 {
      assert s[1..] == b;
    } else {
      var tail := a[1..] + [sep] + b;
      assert s[1..] == tail;
      SplitAtSeparator(a[1..], b, sep);
      if a[0] != sep {
        SplitCons(s, sep);
        SplitCons(a, sep);
        ConsPieces(a[0], Split(a[1..], sep), Split(b, sep));
      }
    }
  }

  /** `explode` undoes `implode` when no part contains the separator. */
  lemma {:induction false} SplitJoin(parts: seq<string>, sep: char)
    requires |parts| > 0
    requires forall k :: 0 <= k < |parts| ==> sep !in parts[k]
    ensures Split(Join(parts, sep), sep) == parts
    decreases |parts|
  {
    if |parts| == 1 {
      SplitWithoutSeparator(parts[0], sep);
    } else {
      var init := parts[..|parts| - 1];
      var last := parts[|parts| - 1];
      SplitJoin(init, sep);
      SplitAtSeparator(Join(init, sep), last, sep);
      SplitWithoutSeparator(last, sep);
      assert init + [last] == parts;
    }
  }

  /** `array_pop(explode('.', key))`: the segment after the last dot, or the whole key. */
  function LastSegment(key: string): (r: string)
    ensures '.' !in r
  {
    var parts := Split(key, '.');
    SplitPiecesHaveNoSeparator(key, '.');
    parts[|parts| - 1]
  }

  lemma LastSegmentOfDottedKey(prefix: string, segment: string)
    requires '.' !in segment
    ensures LastSegment(prefix + "." + segment) == segment
  {
    SplitAtSeparator(prefix, segment, '.');
    SplitWithoutSeparator(segment, '.');
  }

  lemma LastSegmentOfPlainKey(key: string)
    requires '.' !in key
    ensures LastSegment(key) == key
  {
    SplitWithoutSeparator(key, '.');
  }

  predicate IsUpper(c: char) { 'A' <= c <= 'Z' }

  /** An ASCII capital becomes its small letter; every other char is kept. */
  function LowerChar(c: char): (d: char)
    ensures !IsUpper(d)
    ensures !IsUpper(c) ==> d == c
    ensures IsUpper(c) ==> 'a' <= d <= 'z' && d as int == c as int + 32
  {
    if IsUpper(c) then (c as int + 32) as char else c
  }

  /** Lower-casing of the ASCII letters; every other char is kept. */
  function ToLowerAscii(s: string): (r: string)
    ensures |r| == |s|
    ensures forall i :: 0 <= i < |r| ==> !IsUpper(r[i])
    ensures forall i :: 0 <= i < |s| ==> !IsUpper(s[i]) ==> r[i] == s[i]
    ensures forall i :: 0 <= i < |s| ==> IsUpper(s[i]) ==> r[i] as int == s[i] as int + 32
  {
    seq(|s|, i requires 0 <= i < |s| => LowerChar(s[i]))
  }

  /** The whitespace PHP 8 allows around a numeric string: space, \t, \n, \r, \v and \f. */
  predicate IsNumericSpace(c: char)
  {
    c == ' ' || c == '\t' || c == '\n' || c == '\r' || c as int == 11 || c as int == 12
  }

  predicate AllNumericSpace(s: string) { forall i :: 0 <= i < |s| ==> IsNumericSpace(s[i]) }

  /** `s` without its leading whitespace. */
  function TrimLeading(s: string): (r: string)
    ensures |r| <= |s| && r == s[|s| - |r|..]
    ensures |r| > 0 ==> !IsNumericSpace(r[0])
    decreases |s|
  {
    if |s| > 0 && IsNumericSpace(s[0]) then TrimLeading(s[1..]) else s
  }

  /** `s` without its trailing whitespace. */
  function TrimTrailing(s: string): (r: string)
    ensures |r| <= |s| && r == s[..|r|]
    ensures |r| > 0 ==> !IsNumericSpace(r[|r| - 1])
    decreases |s|
  {
    if |s| > 0 && IsNumericSpace(s[|s| - 1]) then TrimTrailing(s[..|s| - 1]) else s
  }

  /** The number of digits at the front of `s`. */
  function DigitRun(s: string): (n: nat)
    ensures n <= |s| && AllDigits(s[..n])
    ensures n < |s| ==> !IsDigit(s[n])
    decreases |s|
  {
    if |s| == 0 || !IsDigit(s[0]) then 0
    else
      var n := 1 + DigitRun(s[1..]);
      assert forall i :: 1 <= i < n ==> s[..n][i] == s[1..][..n - 1][i - 1];
      n
  }

  /** A decimal number `mantissa * 10^exponent`, negated when `negative`. */
  datatype Decimal = Decimal(negative: bool, mantissa: nat, exponent: int)

  function Pow10(k: nat): (p: nat)
    ensures p >= 1
  {
    if k == 0 then 1 else 10 * Pow10(k - 1)
  }

  /** The number is above one. */
  predicate AboveOne(d: Decimal)
  {
    !d.negative &&
    if d.exponent >= 0 then d.mantissa * Pow10(d.exponent) > 1 else d.mantissa > Pow10(-d.exponent)
  }

  /** The exponent after `e`/`E`: an optional sign and at least one digit, up to the end. */
  function ParseExponent(s: string): (r: Option<int>)
  {
    if |s| > 1 && (s[0] == '+' || s[0] == '-') && AllDigits(s[1..]) then
      Some(if s[0] == '-' then -(ParseNat(s[1..]) as int) else ParseNat(s[1..]))
    else if |s| > 0 && AllDigits(s) then Some(ParseNat(s))
    else None
  }

  /** What may follow the digits: nothing (exponent 0), or `e`/`E` and an exponent. */
  function ExponentPart(tail: string): (r: Option<int>)
  {
    if |tail| == 0 then Some(0)
    else if tail[0] == 'e' || tail[0] == 'E' then ParseExponent(tail[1..])
    else None
  }

  /** The number with integer digits `whole`, fraction digits `fraction` and the exponent read. */
  function Scaled(whole: string, fraction: string, exponent: Option<int>): (r: Option<Decimal>)
    requires AllDigits(whole) && AllDigits(fraction)
  {
    if |whole| + |fraction| == 0 || exponent.None? then None
    else
      assert AllDigits(whole + fraction) by {
        assert forall i :: |whole| <= i < |whole| + |fraction| ==> (whole + fraction)[i] == fraction[i - |whole|];
      }
      Some(Decimal(false, ParseNat(whole + fraction), exponent.value - |fraction|))
  }

  /** After the integer digits: an optional `.` with fraction digits, then the exponent part. */
  function AfterWhole(whole: string, rest: string): (r: Option<Decimal>)
    requires AllDigits(whole)
  {
    if |rest| > 0 && rest[0] == '.' then
      var afterDot := rest[1..];
      var m := DigitRun(afterDot);
      Scaled(whole, afterDot[..m], ExponentPart(afterDot[m..]))
    else Scaled(whole, "", ExponentPart(rest))
  }

  /**
   * An unsigned number in PHP's grammar: digits with an optional `.` and fraction digits,
   * or `.` and at least one digit, then an optional exponent.
   */
  function ParseUnsigned(s: string): (r: Option<Decimal>)
  {
    var n := DigitRun(s);
    AfterWhole(s[..n], s[n..])
  }

  /** An optional sign, then an unsigned number. */
  function ParseSigned(t: string): (r: Option<Decimal>)
  {
    if |t| > 0 && (t[0] == '+' || t[0] == '-') then
      match ParseUnsigned(t[1..])
      case Some(d) => Some(d.(negative := t[0] == '-'))
      case None => None
    else ParseUnsigned(t)
  }

  /**
   * PHP 8's numeric strings (`is_numeric_string`): optional leading and trailing
   * whitespace around an optional sign and an unsigned number; anything else is not numeric.
   */
  function ParseNumeric(s: string): (r: Option<Decimal>)
  {
    ParseSigned(TrimTrailing(TrimLeading(s)))
  }

  lemma {:induction false} TrimLeadingPad(pad: string, s: string)
    requires AllNumericSpace(pad) && |s| > 0 && !IsNumericSpace(s[0])
    ensures TrimLeading(pad + s) == s
    decreases |pad|
  {
    if |pad| > 0 {
      assert (pad + s)[1..] == pad[1..] + s;
      TrimLeadingPad(pad[1..], s);
    }
  }

  lemma {:induction false} TrimTrailingPad(s: string, pad: string)
    requires AllNumericSpace(pad) && |s| > 0 && !IsNumericSpace(s[|s| - 1])
    ensures TrimTrailing(s + pad) == s
    decreases |pad|
  {
    if |pad| > 0 {
      assert (s + pad)[..|s + pad| - 1] == s + pad[..|pad| - 1];
      TrimTrailingPad(s, pad[..|pad| - 1]);
    } else {
      assert s + pad == s;
    }
  }

  /** Trimming removes exactly the whitespace around a text that starts and ends with something else. */
  lemma TrimPadded(before: string, s: string, after: string)
    requires AllNumericSpace(before) && AllNumericSpace(after)
    requires |s| > 0 && !IsNumericSpace(s[0]) && !IsNumericSpace(s[|s| - 1])
    ensures TrimTrailing(TrimLeading(before + s + after)) == s
  {
    assert before + s + after == before + (s + after);
    TrimLeadingPad(before, s + after);
    TrimTrailingPad(s, after);
  }

  lemma {:induction false} DigitRunOf(d: string, rest: string)
    requires AllDigits(d) && (|rest| == 0 || !IsDigit(rest[0]))
    ensures DigitRun(d + rest) == |d|
    decreases |d|
  {
    if |d| > 0 {
      assert (d + rest)[1..] == d[1..] + rest;
      DigitRunOf(d[1..], rest);
    } else {
      assert d + rest == rest;
    }
  }

  /** A text that starts with a digit and ends without whitespace is read as an unsigned number. */
  lemma NumericUnsignedText(s: string)
    requires |s| > 0 && IsDigit(s[0]) && !IsNumericSpace(s[|s| - 1])
    ensures ParseNumeric(s) == ParseUnsigned(s)
  {
    assert TrimLeading(s) == s by { assert !IsNumericSpace(s[0]); }
    assert TrimTrailing(s) == s;
    SignedWithoutSign(s);
  }

  /** A plain run of digits is an unsigned number with exponent 0. */
  lemma UnsignedDigits(d: string)
    requires |d| > 0 && AllDigits(d)
    ensures ParseUnsigned(d) == Some(Decimal(false, ParseNat(d), 0))
  {
    DigitRunOf(d, "");
    assert d + "" == d;
    assert d[..|d|] == d && d[|d|..] == "";
    assert d + "" == d;
  }

  /** Whitespace around a text starting and ending with something else is dropped before parsing. */
  lemma NumericPadded(before: string, t: string, after: string)
    requires AllNumericSpace(before) && AllNumericSpace(after)
    requires |t| > 0 && !IsNumericSpace(t[0]) && !IsNumericSpace(t[|t| - 1])
    ensures ParseNumeric(before + t + after) == ParseSigned(t)
  {
    TrimPadded(before, t, after);
  }

  /** Without a sign in front, the text is read as an unsigned number. */
  lemma SignedWithoutSign(t: string)
    requires |t| > 0 && IsDigit(t[0])
    ensures ParseSigned(t) == ParseUnsigned(t)
  {
  }

  lemma SignedNegative(d: string)
    requires |d| > 0 && AllDigits(d)
    ensures ParseSigned("-" + d) == Some(Decimal(true, ParseNat(d), 0))
  {
    assert ("-" + d)[1..] == d;
    UnsignedDigits(d);
  }

  /** The decimal form of an integer, with whitespace around it, is numeric with that value. */
  lemma NumericIntLiteral(before: string, lit: string, after: string, i: int)
    requires lit == IntToDecimal(i)
    requires AllNumericSpace(before) && AllNumericSpace(after)
    ensures ParseNumeric(before + lit + after) == Some(Decimal(i < 0, if i < 0 then -i else i, 0))
  {
    if i < 0 {
      var d := NatToDecimal(-i);
      assert lit == "-" + d;
      assert lit[|lit| - 1] == d[|d| - 1];
      NumericPadded(before, lit, after);
      SignedNegative(d);
      ParseNatOfDecimal(-i);
    } else {
      var d := NatToDecimal(i);
      assert lit == d;
      NumericPadded(before, d, after);
      SignedWithoutSign(d);
      UnsignedDigits(d);
      ParseNatOfDecimal(i);
    }
  }

  /** A leading `+` is accepted. */
  lemma NumericPlusLiteral(n: nat)
    ensures ParseNumeric("+" + NatToDecimal(n)) == Some(Decimal(false, n, 0))
  {
    var s := "+" + NatToDecimal(n);
    NumericPadded("", s, "");
    assert "" + s + "" == s;
    assert s[1..] == NatToDecimal(n);
    UnsignedDigits(NatToDecimal(n));
    ParseNatOfDecimal(n);
  }

  lemma ExponentOfDecimal(k: int)
    ensures ParseExponent(IntToDecimal(k)) == Some(k)
  {
    var s := IntToDecimal(k);
    if k < 0 {
      assert s[1..] == NatToDecimal(-k);
      ParseNatOfDecimal(-k);
    } else {
      ParseNatOfDecimal(k);
    }
  }

  /** Digits followed by `e` and an exponent: the digits scaled by the exponent. */
  lemma UnsignedWithExponent(d: string, x: string, k: int)
    requires |d| > 0 && AllDigits(d) && ParseExponent(x) == Some(k)
    ensures ParseUnsigned(d + "e" + x) == Some(Decimal(false, ParseNat(d), k))
  {
    var tail := "e" + x;
    assert d + "e" + x == d + tail;
    assert ParseUnsigned(d + tail) == AfterWhole(d, tail) by {
      DigitRunOf(d, tail);
      assert (d + tail)[..|d|] == d && (d + tail)[|d|..] == tail;
    }
    assert ExponentPart(tail) == Some(k) by {
      assert tail[1..] == x;
    }
    assert AfterWhole(d, tail) == Scaled(d, "", Some(k));
    assert d + "" == d;
  }

  /** Digits, `e` and a signed exponent: the mantissa scaled by the exponent. */
  lemma NumericExponentLiteral(m: nat, k: int)
    ensures ParseNumeric(NatToDecimal(m) + "e" + IntToDecimal(k)) == Some(Decimal(false, m, k))
  {
    var d := NatToDecimal(m);
    var x := IntToDecimal(k);
    var s := d + "e" + x;
    assert s[0] == d[0] && s[|s| - 1] == x[|x| - 1];
    assert IsDigit(x[|x| - 1]) by {
      if !AllDigits(x) { assert x[|x| - 1] == x[1..][|x| - 2]; }
    }
    NumericUnsignedText(s);
    ExponentOfDecimal(k);
    UnsignedWithExponent(d, x, k);
    ParseNatOfDecimal(m);
  }

  lemma FractionPart(w: string, f: string)
    requires |w| > 0 && AllDigits(w) && AllDigits(f)
    ensures AfterWhole(w, "." + f) == Some(Decimal(false, ParseNat(w + f), -|f|))
  {
    assert ("." + f)[1..] == f;
    DigitRunOf(f, "");
    assert f + "" == f;
    assert f[..|f|] == f && f[|f|..] == "";
  }

  /** Digits, `.` and fraction digits: all digits as the mantissa, scaled down by the fraction's length. */
  lemma UnsignedWithFraction(w: string, f: string)
    requires |w| > 0 && AllDigits(w) && AllDigits(f)
    ensures ParseUnsigned(w + "." + f) == Some(Decimal(false, ParseNat(w + f), -|f|))
  {
    var s := w + "." + f;
    assert s == w + ("." + f);
    DigitRunOf(w, "." + f);
    assert s[..|w|] == w && s[|w|..] == "." + f;
    FractionPart(w, f);
  }

  /** A number written with a fraction is numeric with that value. */
  lemma NumericFractionLiteral(w: nat, f: string)
    requires AllDigits(f)
    ensures ParseNumeric(NatToDecimal(w) + "." + f) == Some(Decimal(false, ParseNat(NatToDecimal(w) + f), -|f|))
  {
    var d := NatToDecimal(w);
    var s := d + "." + f;
    assert s[0] == d[0];
    assert !IsNumericSpace(s[|s| - 1]) by {
      if |f| == 0 { assert s[|s| - 1] == '.'; } else { assert s[|s| - 1] == f[|f| - 1]; }
    }
    NumericUnsignedText(s);
    UnsignedWithFraction(d, f);
  }

  /** Byte-wise comparison of PHP's non-numeric strings: `a` sorts after `b`. */
  predicate StringGreater(a: string, b: string)
    decreases |a|
  {
    if |a| == 0 then false
    else if |b| == 0 then true
    else if a[0] != b[0] then a[0] > b[0]
    else StringGreater(a[1..], b[1..])
  }
}
