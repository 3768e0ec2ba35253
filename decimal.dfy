/** The part of JavaScript's number <-> text conversions that the birth form
    relies on: printing an integer in a template literal, and the unary `+`
    applied to the text of the year field, restricted to integer literals. */
module Decimal {
  import opened LottoTypes

  predicate IsDigit(c: char) {
    '0' <= c <= '9'
  }

  predicate AllDigits(s: string) {
    forall i :: 0 <= i < |s| ==> IsDigit(s[i])
  }

  function DigitChar(d: nat): (c: char)
    requires d < 10
    ensures IsDigit(c) && DigitValue(c) == d
  {
    ('0' as int + d) as char
  }

  function DigitValue(c: char): nat
    requires IsDigit(c)
  {
    c as int - '0' as int
  }

  /** The shortest decimal text of `n`, as a number prints in a template literal. */
  function NatToString(n: nat): (s: string)
    ensures |s| >= 1 && AllDigits(s)
    ensures |s| > 1 ==> s[0] != '0'
    ensures n < 10 <==> |s| == 1
  {
    if n < 10 then [DigitChar(n)] else NatToString(n / 10) + [DigitChar(n % 10)]
  }

  /** The value of a run of decimal digits, leading zeros allowed. */
  function DigitsValue(s: string): nat
    requires AllDigits(s)
  {
    if s == [] then 0 else DigitsValue(s[..|s| - 1]) * 10 + DigitValue(s[|s| - 1])
  }

  /** Negative integers print with a leading minus sign, others without a sign. */
  function IntToString(n: int): (s: string)
    ensures |s| >= 1 && IsDigit(s[|s| - 1])
    ensures n >= 0 <==> IsDigit(s[0])
    ensures n < 0 <==> s[0] == '-'
  {
    if n < 0 then "-" + NatToString(-n) else NatToString(n)
  }

  /** A decimal integer literal with an optional sign; None for any other text. */
  function ParseInteger(s: string): Option<int> {
    if s != [] && AllDigits(s) then Some(DigitsValue(s))
    else if |s| >= 2 && s[0] == '-' && AllDigits(s[1..]) then Some(-(DigitsValue(s[1..]) as int))
    else if |s| >= 2 && s[0] == '+' && AllDigits(s[1..]) then Some(DigitsValue(s[1..]))
    else None
  }

  /** The white space and line terminators that the unary `+` trims from text. */
  predicate IsJsSpace(c: char) {
    c == '\t' || c == '\n' || c == '\U{B}' || c == '\U{C}' || c == '\r' || c == ' '
    || c == '\U{A0}' || c == '\U{1680}' || ('\U{2000}' <= c <= '\U{200A}')
    || c == '\U{2028}' || c == '\U{2029}' || c == '\U{202F}' || c == '\U{205F}'
    || c == '\U{3000}' || c == '\U{FEFF}'
  }

  predicate AllSpace(s: string) {
    forall k :: 0 <= k < |s| ==> IsJsSpace(s[k])
  }

  function TrimStart(s: string): (r: string)
    ensures |r| <= |s| && r == s[|s| - |r|..]
    ensures r != [] ==> !IsJsSpace(r[0])
    ensures forall k :: 0 <= k < |s| - |r| ==> IsJsSpace(s[k])
  {
    if s != [] && IsJsSpace(s[0]) then TrimStart(s[1..]) else s
  }

  function TrimEnd(s: string): (r: string)
    ensures |r| <= |s| && r == s[..|r|]
    ensures r != [] ==> !IsJsSpace(r[|r| - 1])
    ensures forall k :: |r| <= k < |s| ==> IsJsSpace(s[k])
  {
    if s != [] && IsJsSpace(s[|s| - 1]) then TrimEnd(s[..|s| - 1]) else s
  }

  /** The unary `+` on text: surrounding white space is ignored, blank text is 0,
      an integer literal is its value, and None stands for NaN. */
  function StringToNumber(s: string): (r: Option<int>)
    ensures AllSpace(s) ==> r == Some(0)
  {
    var t := TrimEnd(TrimStart(s));
    if t == [] then Some(0) else ParseInteger(t)
  }

  /** Reading back the digits of a printed natural number gives that number. */
  lemma {:induction false} NatToStringRoundTrip(n: nat)
    ensures DigitsValue(NatToString(n)) == n
  {
    var s := NatToString(n);
    if n >= 10 {
      var p := NatToString(n / 10);
      assert s == p + [DigitChar(n % 10)];
      assert s[..|s| - 1] == p;
      NatToStringRoundTrip(n / 10);
    } else {
      assert s[..|s| - 1] == [];
    }
  }

  /** A run of digits reads as its value. */
  lemma ParseDigits(t: string)
    requires t != [] && AllDigits(t)
    ensures ParseInteger(t) == Some(DigitsValue(t))
  {
  }

  /** A minus sign followed by digits reads as the negated value of the digits. */
  lemma ParseNegative(t: string)
    requires t != [] && AllDigits(t)
    ensures ParseInteger("-" + t) == Some(-(DigitsValue(t) as int))
  {
    var s := "-" + t;
    assert s[1..] == t;
    assert !IsDigit(s[0]);
  }

  /** Every printed integer parses back to itself. */
  lemma IntToStringRoundTrip(n: int)
    ensures ParseInteger(IntToString(n)) == Some(n)
  {
    if n < 0 {
      var t := NatToString(-n);
      assert IntToString(n) == "-" + t;
      ParseNegative(t);
      NatToStringRoundTrip(-n);
    } else {
      ParseDigits(NatToString(n));
      NatToStringRoundTrip(n);
    }
  }

  /** Leading white space does not change what is left after trimming the front. */
  lemma {:induction false} TrimStartSkipsSpace(w: string, s: string)
    requires AllSpace(w)
    ensures TrimStart(w + s) == TrimStart(s)
  {
    if w != [] {
      assert (w + s)[1..] == w[1..] + s;
      TrimStartSkipsSpace(w[1..], s);
    } else {
      assert w + s == s;
    }
  }

  /** Trailing white space does not change what is left after trimming the end. */
  lemma {:induction false} TrimEndSkipsSpace(s: string, w: string)
    requires AllSpace(w)
    ensures TrimEnd(s + w) == TrimEnd(s)
  {
    if w != [] {
      var w' := w[..|w| - 1];
      assert (s + w)[..|s + w| - 1] == s + w';
      TrimEndSkipsSpace(s, w');
    } else {
      assert s + w == s;
    }
  }

  /** A printed integer starts and ends with a character that is not white space. */
  lemma PrintedEndsNotSpace(n: int)
    ensures var s := IntToString(n); !IsJsSpace(s[0]) && !IsJsSpace(s[|s| - 1])
  {
  }

  /** An integer literal with white space around it converts to its value. */
  lemma PaddedIntegerText(before: string, n: int, after: string)
    requires AllSpace(before) && AllSpace(after)
    ensures StringToNumber(before + IntToString(n) + after) == Some(n)
  {
    var s := IntToString(n);
    var text := before + s + after;
    PrintedEndsNotSpace(n);
    assert text == before + (s + after);
    TrimStartSkipsSpace(before, s + after);
    assert (s + after)[0] == s[0];
    assert TrimStart(text) == s + after;
    TrimEndSkipsSpace(s, after);
    assert TrimEnd(s) == s;
    assert TrimEnd(TrimStart(text)) == s;
    IntToStringRoundTrip(n);
  }

  /** A character that is not white space survives trimming: it sits at some
      index `j` of the trimmed text. */
  lemma TrimKeeps(s: string, k: int) returns (j: int)
    requires 0 <= k < |s| && !IsJsSpace(s[k])
    ensures var t := TrimEnd(TrimStart(s)); 0 <= j < |t| && t[j] == s[k]
  {
    var t1 := TrimStart(s);
    j := k - (|s| - |t1|);
    assert 0 <= j < |t1| && t1[j] == s[k];
  }

  /** Text holding a character that is neither a digit nor a sign is no integer literal. */
  lemma ParseRejects(t: string, j: int)
    requires 0 <= j < |t| && !IsDigit(t[j]) && t[j] != '+' && t[j] != '-'
    ensures ParseInteger(t) == None
  {
    assert !AllDigits(t);
    if j > 0 {
      assert t[1..][j - 1] == t[j];
    }
  }

  /** Text holding a character that is neither a digit, a sign nor white space
      is not a number (NaN). */
  lemma NonLiteralIsNaN(s: string, k: int)
    requires 0 <= k < |s| && !IsDigit(s[k]) && s[k] != '+' && s[k] != '-' && !IsJsSpace(s[k])
    ensures StringToNumber(s).None?
  {
    var j := TrimKeeps(s, k);
    ParseRejects(TrimEnd(TrimStart(s)), j);
  }

  /** Typing the printed form of an integer into a numeric field yields that integer. */
  lemma StringToNumberOfIntToString(n: int)
    ensures StringToNumber(IntToString(n)) == Some(n)
  {
    var s := IntToString(n);
    PrintedEndsNotSpace(n);
    assert TrimStart(s) == s;
    assert TrimEnd(s) == s;
    IntToStringRoundTrip(n);
  }
}
