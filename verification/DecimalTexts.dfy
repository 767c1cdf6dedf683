/**
 The normal form of order sizes the review gate compares: leading zeros of the whole part and trailing
 zeros of the fraction dropped. On plain decimals it is canonical up to the sign of zero.
 */
module DecimalTexts {
  import opened Options
  import opened Texts

  predicate Digits(s: string) {
    forall n :: 0 <= n < |s| ==> IsDigit(s[n])
  }

  /** An optional sign, some digits, and perhaps a point with some digits after it. */
  datatype Plain = Plain(negative: bool, whole: string, fraction: string)

  predicate Valid(p: Plain) {
    p.whole != "" && Digits(p.whole) && Digits(p.fraction)
  }

  function Unsigned(whole: string, fraction: string): string {
    whole + if fraction == "" then "" else "." + fraction
  }

  function Spelling(p: Plain): string {
    if p.negative then "-" + Unsigned(p.whole, p.fraction) else Unsigned(p.whole, p.fraction)
  }

  /** The place of the first point, or the end. */
  function PointAt(s: string): (n: nat)
    ensures n <= |s| && (n < |s| ==> s[n] == '.') && forall m :: 0 <= m < n ==> s[m] != '.'
  {
    if s == "" || s[0] == '.' then 0 else 1 + PointAt(s[1..])
  }

  /** The parts of a text without a sign. */
  function ParseUnsigned(s: string): Option<(string, string)> {
    var point := PointAt(s);
    var whole := s[..point];
    if whole == "" || !Digits(whole) then None
    else if point == |s| then Some((whole, ""))
    else
      var fraction := s[point + 1..];
      if fraction == "" || !Digits(fraction) then None else Some((whole, fraction))
  }

  /** The parts of a text that is a plain decimal. */
  function Parse(s: string): Option<Plain> {
    var negative := s != "" && s[0] == '-';
    var parts := ParseUnsigned(if negative then s[1..] else s);
    if parts.None? then None else Some(Plain(negative, parts.value.0, parts.value.1))
  }

  /** Leading zeros go as long as a digit follows. */
  function WithoutLeading(s: string): string {
    if |s| > 1 && s[0] == '0' then WithoutLeading(s[1..]) else s
  }

  function WithoutTrailing(s: string): string {
    if s != "" && s[|s| - 1] == '0' then WithoutTrailing(s[..|s| - 1]) else s
  }

  function Normal(p: Plain): Plain {
    Plain(p.negative, WithoutLeading(p.whole), WithoutTrailing(p.fraction))
  }

  /** Nothing for a missing or empty value; plain decimals in normal form; any other text as it is. */
  function DecimalText(value: Option<string>): Option<string> {
    if value.None? || value.value == "" then None
    else
      var raw := Trim(value.value);
      var p := Parse(raw);
      if p.None? then Some(raw) else Some(Spelling(Normal(p.value)))
  }

  /** Missing and empty sizes are alike, and nothing else is missing. */
  lemma MissingIff(value: Option<string>)
    ensures DecimalText(value).None? <==> value.None? || value.value == ""
  {
  }

  // ------------------------------------------------------------------------------------- the values

  function DigitValue(c: char): int
    requires IsDigit(c)
  {
    c as int - '0' as int
  }

  function WholeValue(s: string): int
    requires Digits(s)
  {
    if s == "" then 0 else 10 * WholeValue(s[..|s| - 1]) + DigitValue(s[|s| - 1])
  }

  function FractionValue(s: string): real
    requires Digits(s)
  {
    if s == "" then 0.0 else (DigitValue(s[0]) as real + FractionValue(s[1..])) / 10.0
  }

  function Magnitude(p: Plain): real
    requires Valid(p)
  {
    WholeValue(p.whole) as real + FractionValue(p.fraction)
  }

  /** The number a plain decimal denotes. */
  function Value(p: Plain): real
    requires Valid(p)
  {
    if p.negative then -Magnitude(p) else Magnitude(p)
  }

  // --------------------------------------------------------------------------------------- spelling

  lemma {:induction false} PointOf(whole: string, rest: string)
    requires Digits(whole) && (rest == "" || rest[0] == '.')
    ensures PointAt(whole + rest) == |whole|
  {
    if whole == "" {
      assert whole + rest == rest;
    } else {
      PointOf(whole[1..], rest);
      assert (whole + rest)[1..] == whole[1..] + rest && (whole + rest)[0] == whole[0];
    }
  }

  lemma ParseOfUnsigned(whole: string, fraction: string)
    requires whole != "" && Digits(whole) && Digits(fraction)
    ensures ParseUnsigned(Unsigned(whole, fraction)) == Some((whole, fraction))
  {
    var rest := if fraction == "" then "" else "." + fraction;
    var s := Unsigned(whole, fraction);
    PointOf(whole, rest);
    assert s[..|whole|] == whole;
    if fraction != "" {
      assert s[|whole| + 1..] == fraction;
    }
  }

  lemma UnsignedOfParse(s: string)
    requires ParseUnsigned(s).Some?
    ensures var (whole, fraction) := ParseUnsigned(s).value;
            whole != "" && Digits(whole) && Digits(fraction) && Unsigned(whole, fraction) == s
  {
    var point := PointAt(s);
    if point < |s| {
      assert s == s[..point] + (["."[0]] + s[point + 1..]);
    } else {
      assert s[..point] == s;
    }
  }

  /** A plain decimal's spelling is read back as it is. */
  lemma ParseSpelling(p: Plain)
    requires Valid(p)
    ensures Parse(Spelling(p)) == Some(p)
  {
    ParseOfUnsigned(p.whole, p.fraction);
    var s := Unsigned(p.whole, p.fraction);
    assert s[0] == p.whole[0];
    assert ("-" + s)[1..] == s;
  }

  /** The gate reads no spelling as anything but what it says. */
  lemma SpellingOfParse(s: string)
    requires Parse(s).Some?
    ensures Valid(Parse(s).value) && Spelling(Parse(s).value) == s
  {
    if s != "" && s[0] == '-' {
      UnsignedOfParse(s[1..]);
      assert s == "-" + s[1..];
    } else {
      UnsignedOfParse(s);
    }
  }

  // -------------------------------------------------------------------------------------- canonical

  lemma {:induction false} LeadingKeeps(s: string)
    requires Digits(s) && s != ""
    ensures var t := WithoutLeading(s);
            t != "" && Digits(t) && WholeValue(t) == WholeValue(s) && (|t| > 1 ==> t[0] != '0')
    decreases |s|
  {
    if |s| > 1 && s[0] == '0' {
      LeadingKeeps(s[1..]);
      ZeroInFront(s);
    }
  }

  lemma {:induction false} ZeroInFront(s: string)
    requires Digits(s) && s != "" && s[0] == '0'
    ensures WholeValue(s[1..]) == WholeValue(s)
    decreases |s|
  {
    if |s| > 1 {
      var front := s[..|s| - 1];
      ZeroInFront(front);
      assert s[1..][..|s| - 2] == front[1..];
    }
  }

  lemma {:induction false} TrailingKeeps(s: string)
    requires Digits(s)
    ensures var t := WithoutTrailing(s);
            Digits(t) && FractionValue(t) == FractionValue(s) && (t != "" ==> t[|t| - 1] != '0')
    decreases |s|
  {
    if s != "" && s[|s| - 1] == '0' {
      TrailingKeeps(s[..|s| - 1]);
      ZeroAtEnd(s);
    }
  }

  lemma {:induction false} ZeroAtEnd(s: string)
    requires Digits(s) && s != "" && s[|s| - 1] == '0'
    ensures FractionValue(s[..|s| - 1]) == FractionValue(s)
    decreases |s|
  {
    if |s| > 1 {
      ZeroAtEnd(s[1..]);
      assert s[..|s| - 1][1..] == s[1..][..|s| - 2];
    }
  }

  /** The normal form denotes the same number. */
  lemma NormalKeepsValue(p: Plain)
    requires Valid(p)
    ensures Valid(Normal(p)) && Value(Normal(p)) == Value(p)
  {
    LeadingKeeps(p.whole);
    TrailingKeeps(p.fraction);
  }

  predicate IsNormal(p: Plain) {
    Valid(p) && (|p.whole| > 1 ==> p.whole[0] != '0') && (p.fraction != "" ==> p.fraction[|p.fraction| - 1] != '0')
  }

  lemma NormalIsNormal(p: Plain)
    requires Valid(p)
    ensures IsNormal(Normal(p)) && (IsNormal(p) ==> Normal(p) == p)
  {
    LeadingKeeps(p.whole);
    TrailingKeeps(p.fraction);
  }

  lemma {:induction false} WholeNonnegative(s: string)
    requires Digits(s)
    ensures WholeValue(s) >= 0 && (s != "" && s[0] != '0' ==> WholeValue(s) > 0)
  {
    if s != "" {
      WholeNonnegative(s[..|s| - 1]);
    }
  }

  /** Whole parts without leading zeros are told apart by their values. */
  lemma {:induction false} WholeUnique(s: string, t: string)
    requires Digits(s) && Digits(t) && s != "" && t != "" && WholeValue(s) == WholeValue(t)
    requires (|s| > 1 ==> s[0] != '0') && (|t| > 1 ==> t[0] != '0')
    ensures s == t
    decreases |s|
  {
    var a, b := s[..|s| - 1], t[..|t| - 1];
    WholeNonnegative(a);
    WholeNonnegative(b);
    assert WholeValue(a) == WholeValue(b) && s[|s| - 1] == t[|t| - 1];
    if a != "" && b != "" {
      WholeUnique(a, b);
    }
    assert s == a + [s[|s| - 1]] && t == b + [t[|t| - 1]];
  }

  lemma {:induction false} FractionBelowOne(s: string)
    requires Digits(s)
    ensures 0.0 <= FractionValue(s) < 1.0 && (s != "" && s[|s| - 1] != '0' ==> FractionValue(s) > 0.0)
  {
    if s != "" {
      FractionBelowOne(s[1..]);
    }
  }

  /** Fractions without trailing zeros are told apart by their values. */
  lemma {:induction false} FractionUnique(s: string, t: string)
    requires Digits(s) && Digits(t) && FractionValue(s) == FractionValue(t)
    requires (s != "" ==> s[|s| - 1] != '0') && (t != "" ==> t[|t| - 1] != '0')
    ensures s == t
    decreases |s|
  {
    FractionBelowOne(s);
    FractionBelowOne(t);
    if s != "" && t != "" {
      FractionBelowOne(s[1..]);
      FractionBelowOne(t[1..]);
      SameParts(DigitValue(s[0]), FractionValue(s[1..]), DigitValue(t[0]), FractionValue(t[1..]));
      FractionUnique(s[1..], t[1..]);
      assert s == [s[0]] + s[1..] && t == [t[0]] + t[1..];
    }
  }

  lemma SameParts(a: int, x: real, b: int, y: real)
    requires 0.0 <= x < 1.0 && 0.0 <= y < 1.0 && a as real + x == b as real + y
    ensures a == b && x == y
  {
  }

  /** Normal forms of one sign are the same exactly when their values are. */
  lemma NormalUnique(p: Plain, q: Plain)
    requires IsNormal(p) && IsNormal(q) && p.negative == q.negative && Value(p) == Value(q)
    ensures p == q
  {
    FractionBelowOne(p.fraction);
    FractionBelowOne(q.fraction);
    SameParts(WholeValue(p.whole), FractionValue(p.fraction), WholeValue(q.whole), FractionValue(q.fraction));
    WholeUnique(p.whole, q.whole);
    FractionUnique(p.fraction, q.fraction);
  }

  /** A text the gate takes for a plain decimal. */
  predicate PlainText(s: string) {
    s != "" && Trim(s) == s && Parse(s).Some?
  }

  lemma NormalText(s: string)
    requires PlainText(s)
    ensures Valid(Parse(s).value) && DecimalText(Some(s)) == Some(Spelling(Normal(Parse(s).value)))
    ensures PlainText(Spelling(Normal(Parse(s).value)))
    ensures Parse(Spelling(Normal(Parse(s).value))) == Some(Normal(Parse(s).value))
  {
    SpellingOfParse(s);
    var p := Parse(s).value;
    NormalKeepsValue(p);
    ParseSpelling(Normal(p));
    SpellingIsTrim(Normal(p));
  }

  lemma SpellingIsTrim(p: Plain)
    requires Valid(p)
    ensures Spelling(p) != "" && Trim(Spelling(p)) == Spelling(p)
  {
    var s := Spelling(p);
    assert s[0] == if p.negative then '-' else p.whole[0];
    assert s[|s| - 1] == if p.fraction == "" then p.whole[|p.whole| - 1] else p.fraction[|p.fraction| - 1];
  }

  /** On plain decimals the text is stable and denotes the same number. */
  lemma DecimalTextIsStable(s: string)
    requires PlainText(s)
    ensures DecimalText(Some(s)).Some? && DecimalText(DecimalText(Some(s))) == DecimalText(Some(s))
    ensures Parse(DecimalText(Some(s)).value).Some? && Valid(Parse(s).value)
            && Valid(Parse(DecimalText(Some(s)).value).value)
    ensures Value(Parse(DecimalText(Some(s)).value).value) == Value(Parse(s).value)
  {
    NormalText(s);
    var p := Parse(s).value;
    NormalKeepsValue(p);
    NormalIsNormal(p);
    NormalIsNormal(Normal(p));
    NormalText(Spelling(Normal(p)));
  }

  /** Two spellings have the same text exactly when they denote the same number and have the same sign. */
  lemma SameTextIff(s: string, t: string)
    requires PlainText(s) && PlainText(t)
    ensures Valid(Parse(s).value) && Valid(Parse(t).value)
    ensures DecimalText(Some(s)) == DecimalText(Some(t))
       <==> Value(Parse(s).value) == Value(Parse(t).value) && Parse(s).value.negative == Parse(t).value.negative
  {
    NormalText(s);
    NormalText(t);
    var p, q := Parse(s).value, Parse(t).value;
    NormalKeepsValue(p);
    NormalKeepsValue(q);
    NormalIsNormal(p);
    NormalIsNormal(q);
    if Value(p) == Value(q) && p.negative == q.negative {
      NormalUnique(Normal(p), Normal(q));
    }
  }

  /** So on unsigned decimals equal texts mean equal numbers; and only zero has two texts. */
  lemma SameTextUnlessZero(s: string, t: string)
    requires PlainText(s) && PlainText(t)
    ensures Valid(Parse(s).value) && Valid(Parse(t).value)
    ensures !Parse(s).value.negative && !Parse(t).value.negative ==>
              (DecimalText(Some(s)) == DecimalText(Some(t)) <==> Value(Parse(s).value) == Value(Parse(t).value))
    ensures Value(Parse(s).value) == Value(Parse(t).value) && DecimalText(Some(s)) != DecimalText(Some(t)) ==>
              Value(Parse(s).value) == 0.0
  {
    SameTextIff(s, t);
    var p, q := Parse(s).value, Parse(t).value;
    FractionBelowOne(p.fraction);
    FractionBelowOne(q.fraction);
    WholeNonnegative(p.whole);
    WholeNonnegative(q.whole);
  }

  /** Zero and negative zero denote the same number and differ as texts. */
  lemma NegativeZeroDiffers()
    ensures PlainText("0") && PlainText("-0") && DecimalText(Some("0")) != DecimalText(Some("-0"))
  {
    var zero, negative := Plain(false, "0", ""), Plain(true, "0", "");
    assert Spelling(zero) == "0" && Spelling(negative) == "-0";
    ParseSpelling(zero);
    ParseSpelling(negative);
    SpellingIsTrim(zero);
    SpellingIsTrim(negative);
    SameTextIff("0", "-0");
  }

  /** The gate's size comparison: every size the review authorised has the text of the requested one. */
  predicate SizesMatch(reviewed: seq<Option<string>>, requested: seq<Option<string>>) {
    |reviewed| == |requested| && forall n :: 0 <= n < |reviewed| ==>
                                               DecimalText(reviewed[n]) == DecimalText(requested[n])
  }

  predicate SameNumber(a: Option<string>, b: Option<string>) {
    (a.None? <==> b.None?) && (a.Some? && b.Some? && Parse(a.value).Some? && Parse(b.value).Some? ==>
                                 && Valid(Parse(a.value).value) && Valid(Parse(b.value).value)
                                 && Value(Parse(a.value).value) == Value(Parse(b.value).value))
  }

  predicate UnsignedText(value: Option<string>) {
    value.Some? ==> PlainText(value.value) && !Parse(value.value).value.negative
  }

  /** On sizes that are missing or unsigned plain decimals the gate's comparison is numeric equality. */
  lemma GateComparesNumbers(reviewed: seq<Option<string>>, requested: seq<Option<string>>)
    requires |reviewed| == |requested|
    requires forall n :: 0 <= n < |reviewed| ==> UnsignedText(reviewed[n]) && UnsignedText(requested[n])
    ensures SizesMatch(reviewed, requested)
            <==> forall n :: 0 <= n < |reviewed| ==> SameNumber(reviewed[n], requested[n])
  {
    forall n | 0 <= n < |reviewed|
      ensures DecimalText(reviewed[n]) == DecimalText(requested[n]) <==> SameNumber(reviewed[n], requested[n])
    {
      if reviewed[n].Some? && requested[n].Some? {
        SameTextIff(reviewed[n].value, requested[n].value);
      }
    }
  }
}
