/** Cell values and Python's `float()` acceptance test.

    A value is what a caller passes as a transaction amount and what a CSV
    cell holds once read: a number, or text (a column that is not entirely
    numeric is read as text). Floating point is modelled by `real`. */
module Values {
  import opened Strings

  datatype Value = Num(num: real) | Str(str: string)

  predicate IsDigit(c: char) {
    '0' <= c <= '9'
  }

  /** `digitpart ::= digit (["_"] digit)*`: a non-empty run of digits where
      a single underscore may stand between two digits. */
  predicate IsDigitPart(s: string) {
    && |s| > 0
    && IsDigit(s[0])
    && IsDigit(s[|s| - 1])
    && forall i :: 0 <= i < |s| ==>
         IsDigit(s[i]) || (s[i] == '_' && 0 < i < |s| - 1 && IsDigit(s[i - 1]) && IsDigit(s[i + 1]))
  }

  /** `number ::= [digitpart] "." digitpart | digitpart ["."]` */
  predicate IsNumberPart(s: string) {
    || IsDigitPart(s)
    || (|s| > 0 && s[|s| - 1] == '.' && IsDigitPart(s[..|s| - 1]))
    || exists k :: 0 <= k < |s| && s[k] == '.' && (k == 0 || IsDigitPart(s[..k])) && IsDigitPart(s[k + 1..])
  }

  predicate IsSign(c: char) {
    c == '+' || c == '-'
  }

  /** `exponent` without its leading letter: `[sign] digitpart` */
  predicate IsExponentTail(s: string) {
    IsDigitPart(s) || (|s| > 0 && IsSign(s[0]) && IsDigitPart(s[1..]))
  }

  /** `floatnumber ::= number [exponent]` */
  predicate IsFloatNumber(s: string) {
    || IsNumberPart(s)
    || exists k :: 0 <= k < |s| && (s[k] == 'e' || s[k] == 'E') && IsNumberPart(s[..k]) && IsExponentTail(s[k + 1..])
  }

  function LowerAscii(s: string): (r: string)
    ensures |r| == |s|
  {
    if s == [] then []
    else [if 'A' <= s[0] <= 'Z' then (s[0] as int + 32) as char else s[0]] + LowerAscii(s[1..])
  }

  /** `absfloatvalue ::= floatnumber | "inf" | "infinity" | "nan"`, the
      three words in any letter case. */
  predicate IsAbsFloat(s: string) {
    IsFloatNumber(s) || LowerAscii(s) in {"inf", "infinity", "nan"}
  }

  /** The information separators U+001C..U+001F: `str.isspace` holds of them,
      but `float()` does not strip them, so no float text contains one. */
  predicate IsSeparator(c: char) {
    '\U{1C}' <= c <= '\U{1F}'
  }

  /** The text Python's `float(s)` accepts: surrounding whitespace other
      than the separators, an optional sign, then an unsigned float literal. */
  predicate IsFloatText(s: string) {
    var t := Strip(s);
    && !HasSeparator(s)
    && (IsAbsFloat(t) || (|t| > 0 && IsSign(t[0]) && IsAbsFloat(t[1..])))
  }

  /** Some character of `s` is a separator. */
  predicate HasSeparator(s: string) {
    s != [] && (IsSeparator(s[0]) || HasSeparator(s[1..]))
  }

  /** `HasSeparator` finds a separator exactly when one occurs. */
  lemma {:induction false} HasSeparatorIff(s: string)
    ensures HasSeparator(s) <==> exists k :: 0 <= k < |s| && IsSeparator(s[k])
  {
    if s != [] {
      HasSeparatorIff(s[1..]);
      if exists k :: 0 <= k < |s| && IsSeparator(s[k]) {
        var k :| 0 <= k < |s| && IsSeparator(s[k]);
        if k > 0 {
          assert s[1..][k - 1] == s[k];
        }
      }
      if HasSeparator(s[1..]) {
        var k :| 0 <= k < |s| - 1 && IsSeparator(s[1..][k]);
        assert s[k + 1] == s[1..][k];
      }
    }
  }

  /** `float(v)` returns rather than raising ValueError. */
  predicate ParsesAsFloat(v: Value) {
    match v
    case Num(_) => true
    case Str(s) => IsFloatText(s)
  }

  /** A numeral made of digits only is a float. */
  lemma DigitsParse(s: string)
    requires |s| > 0 && forall i :: 0 <= i < |s| ==> IsDigit(s[i])
    ensures IsFloatText(s)
  {
    StripKeeps(s);
    assert IsDigitPart(s);
    HasSeparatorIff(s);
  }

  /** A text with non-blank ends strips to itself. */
  lemma StripKeeps(s: string)
    requires s != [] && !IsSpace(s[0]) && !IsSpace(s[|s| - 1])
    ensures Strip(s) == s
  {
    assert TrimStart(s) == s;
  }

  /** A text without digits is not a float literal, only (possibly) one of the
      special words. */
  lemma NoDigitNoNumber(s: string)
    requires forall i :: 0 <= i < |s| ==> !IsDigit(s[i])
    ensures !IsFloatNumber(s)
  {
  }

  /** A non-empty run of digits is a digit part. */
  lemma DigitsArePart(s: string)
    requires |s| > 0 && forall i :: 0 <= i < |s| ==> IsDigit(s[i])
    ensures IsDigitPart(s)
  {
  }

  /** Digits, a point, digits form a number. */
  lemma DecimalIsNumber(whole: string, frac: string)
    requires |whole| > 0 && forall i :: 0 <= i < |whole| ==> IsDigit(whole[i])
    requires |frac| > 0 && forall i :: 0 <= i < |frac| ==> IsDigit(frac[i])
    ensures IsNumberPart(whole + "." + frac)
  {
    var s := whole + "." + frac;
    var k := |whole|;
    assert s[..k] == whole && s[k + 1..] == frac && s[k] == '.';
    DigitsArePart(whole);
    DigitsArePart(frac);
  }

  /** Digits, a point, digits: a decimal fraction such as `50.0` is a float. */
  lemma DecimalParses(whole: string, frac: string)
    requires |whole| > 0 && forall i :: 0 <= i < |whole| ==> IsDigit(whole[i])
    requires |frac| > 0 && forall i :: 0 <= i < |frac| ==> IsDigit(frac[i])
    ensures IsFloatText(whole + "." + frac)
  {
    var s := whole + "." + frac;
    DecimalIsNumber(whole, frac);
    assert IsDigit(s[0]) && IsDigit(s[|s| - 1]);
    StripKeeps(s);
    assert IsFloatNumber(s);
    assert forall k :: 0 <= k < |s| ==> !IsSeparator(s[k]) by {
      forall k | 0 <= k < |s| ensures !IsSeparator(s[k]) {
        if k < |whole| {
          assert s[k] == whole[k];
        } else if k > |whole| {
          assert s[k] == frac[k - |whole| - 1];
        }
      }
    }
    HasSeparatorIff(s);
  }

  /** A word without digits, without a leading sign and not one of the words
      "inf", "infinity" or "nan" in any letter case is not accepted by `float()`. */
  lemma WordIsNotAFloat(s: string)
    requires s != [] && !IsSpace(s[0]) && !IsSpace(s[|s| - 1]) && !IsSign(s[0])
    requires forall i :: 0 <= i < |s| ==> !IsDigit(s[i])
    requires LowerAscii(s) !in {"inf", "infinity", "nan"}
    ensures !IsFloatText(s)
  {
    StripKeeps(s);
    NoDigitNoNumber(s);
  }

  /** `float("fifty")` raises ValueError. */
  lemma FiftyIsNotANumber()
    ensures !ParsesAsFloat(Str("fifty"))
  {
    var s := "fifty";
    assert !IsSpace(s[0]) && !IsSpace(s[4]) && !IsSign(s[0]);
    assert forall i :: 0 <= i < |s| ==> !IsDigit(s[i]);
    assert |LowerAscii(s)| == 5;
    WordIsNotAFloat(s);
  }

  /** What `float()` accepts is never blank and holds no separator. */
  lemma FloatTextShape(s: string)
    ensures IsFloatText(s) ==> !IsBlank(s) && forall k :: 0 <= k < |s| ==> !IsSeparator(s[k])
  {
    if IsFloatText(s) {
      BlankIffStripsToEmpty(s);
      HasSeparatorIff(s);
    }
  }

  /** `float("\x1c1")` raises ValueError: a separator in front of the digits
      is not stripped, although `str.isspace` holds of it. */
  lemma SeparatorIsNotStripped()
    ensures IsDigitPart("1") && !ParsesAsFloat(Str(['\U{1C}', '1']))
  {
    var s := ['\U{1C}', '1'];
    assert IsSeparator(s[0]);
  }
}
