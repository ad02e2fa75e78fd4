/**
 * The JavaScript string built-ins the marketplace page relies on:
 * `String.prototype.trim`, `String.prototype.slice` and the global `parseFloat`.
 */
module JsString {
  import opened Wrappers

  /** ECMAScript WhiteSpace and LineTerminator code points, which `trim` and `parseFloat` skip. */
  predicate IsWhitespace(c: char) {
    var n := c as int;
    n == 0x09 || n == 0x0A || n == 0x0B || n == 0x0C || n == 0x0D || n == 0x20 ||
    n == 0xA0 || n == 0x1680 || (0x2000 <= n <= 0x200A) || n == 0x2028 || n == 0x2029 ||
    n == 0x202F || n == 0x205F || n == 0x3000 || n == 0xFEFF
  }

  predicate AllWhitespace(s: string) {
    forall i :: 0 <= i < |s| ==> IsWhitespace(s[i])
  }

  /** Drops leading white space: the result is the suffix of `s` that starts at its first non-blank character. */
  function TrimStart(s: string): (r: string)
    ensures |r| <= |s| && r == s[|s| - |r|..]
    ensures AllWhitespace(s[..|s| - |r|])
    ensures r == [] || !IsWhitespace(r[0])
  {
    if s != [] && IsWhitespace(s[0]) then
      var r := TrimStart(s[1..]);
      assert s[..|s| - |r|] == [s[0]] + s[1..][..|s| - 1 - |r|];
      r
    else s
  }

  /** Drops trailing white space: the result is the prefix of `s` that ends at its last non-blank character. */
  function TrimEnd(s: string): (r: string)
    ensures |r| <= |s| && r == s[..|r|]
    ensures AllWhitespace(s[|r|..])
    ensures r == [] || !IsWhitespace(r[|r| - 1])
  {
    if s != [] && IsWhitespace(s[|s| - 1]) then
      var r := TrimEnd(s[..|s| - 1]);
      assert s[|r|..] == s[..|s| - 1][|r|..] + [s[|s| - 1]];
      r
    else s
  }

  /** JavaScript's `trim`: white space removed at both ends. */
  function Trim(s: string): string {
    TrimEnd(TrimStart(s))
  }

  /** Trimming gives the empty string exactly when every character of `s` is white space. */
  lemma TrimEmptyIff(s: string)
    ensures Trim(s) == "" <==> AllWhitespace(s)
  {
    var t := TrimStart(s);
    if Trim(s) == "" {
      assert AllWhitespace(t[0..]);
      assert t == [];
      assert s[..|s|] == s;
    } else {
      var r := Trim(s);
      assert t[..|r|] == r;
      assert r[0] == t[0];
      assert !IsWhitespace(t[0]);
      assert t[0] == s[|s| - |t|];
    }
  }

  /** The start or end index of `slice` after JavaScript's clamping: negative values count from the end. */
  function SliceIndex(len: nat, k: int): (i: nat)
    ensures i <= len
  {
    if k < 0 then (if len + k > 0 then len + k else 0)
    else if k < len then k else len
  }

  /** JavaScript's `slice`: the characters between the two clamped indices, or "" when they cross. */
  function Slice(s: string, start: int, end: int): (r: string)
    ensures |r| <= |s|
  {
    var from, to := SliceIndex(|s|, start), SliceIndex(|s|, end);
    if from < to then s[from..to] else ""
  }

  /** `slice(0, k)` is the first `k` characters, or the whole string when it is shorter. */
  lemma SlicePrefix(s: string, k: nat)
    ensures Slice(s, 0, k) == s[..if k < |s| then k else |s|]
  {
  }

  /**
   * `slice(-k)` is the last `k` characters, or the whole string when it is shorter. For `k = 0`
   * the start is `-0`, which is 0, and the whole string is returned instead.
   */
  lemma SliceSuffix(s: string, k: nat)
    requires k > 0
    ensures Slice(s, -(k as int), |s|) == s[|s| - (if k < |s| then k else |s|)..]
  {
    var m := if k < |s| then k else |s|;
    assert SliceIndex(|s|, -(k as int)) == |s| - m;
    assert SliceIndex(|s|, |s|) == |s|;
  }

  predicate IsDigit(c: char) {
    '0' <= c <= '9'
  }

  function DigitValue(c: char): nat
    requires IsDigit(c)
  {
    (c as int) - ('0' as int)
  }

  /** The length of the longest prefix of `s` made of decimal digits. */
  function LeadingDigits(s: string): (n: nat)
    ensures n <= |s|
    ensures forall i :: 0 <= i < n ==> IsDigit(s[i])
    ensures n < |s| ==> !IsDigit(s[n])
  {
    if s != [] && IsDigit(s[0]) then 1 + LeadingDigits(s[1..]) else 0
  }

  /** The value of a string of decimal digits, most significant first. */
  function DigitsValue(d: string): nat
    requires forall i :: 0 <= i < |d| ==> IsDigit(d[i])
  {
    if d == [] then 0 else 10 * DigitsValue(d[..|d| - 1]) + DigitValue(d[|d| - 1])
  }

  /**
   * The value of the digits after a decimal point, most significant first: each digit is worth a
   * tenth of the one before it.
   */
  function FractionValue(f: string): (v: real)
    requires forall i :: 0 <= i < |f| ==> IsDigit(f[i])
    ensures 0.0 <= v <= 1.0
  {
    if f == [] then 0.0 else (DigitValue(f[0]) as real + FractionValue(f[1..])) / 10.0
  }

  /**
   * The unsigned part of a `parseFloat` literal: the longest prefix of `u` of the form
   * `digits[.digits]`, which must hold at least one digit; what follows it is ignored.
   */
  function ParseUnsigned(u: string): Option<real> {
    var n := LeadingDigits(u);
    var frac := FractionDigits(u[n..]);
    if n == 0 && frac == [] then None
    else Some(DigitsValue(u[..n]) as real + FractionValue(frac))
  }

  /** The digits after a leading decimal point of `rest`, or "" when `rest` does not start with one. */
  function FractionDigits(rest: string): (f: string)
    ensures forall i :: 0 <= i < |f| ==> IsDigit(f[i])
    ensures rest == [] ==> f == []
  {
    if rest != [] && rest[0] == '.' then rest[1..][..LeadingDigits(rest[1..])] else ""
  }

  function Negate(p: Option<real>): Option<real> {
    match p
    case None => None
    case Some(m) => Some(-m)
  }

  /** JavaScript's `parseFloat`, with `None` for NaN: leading white space is skipped, then an optional sign. */
  function ParseFloat(s: string): Option<real> {
    var t := TrimStart(s);
    if t != [] && t[0] == '-' then Negate(ParseUnsigned(t[1..]))
    else if t != [] && t[0] == '+' then ParseUnsigned(t[1..])
    else ParseUnsigned(t)
  }

  /** An unsigned literal needs a digit. */
  lemma ParseUnsignedNoDigits(u: string)
    requires forall i :: 0 <= i < |u| ==> !IsDigit(u[i])
    ensures ParseUnsigned(u) == None
  {
    assert LeadingDigits(u) == 0;
    if u != [] && u[0] == '.' {
      assert LeadingDigits(u[1..]) == 0;
    }
    assert FractionDigits(u[0..]) == [];
  }

  /** A string without a single decimal digit parses to NaN. */
  lemma ParseFloatNoDigits(s: string)
    requires forall i :: 0 <= i < |s| ==> !IsDigit(s[i])
    ensures ParseFloat(s) == None
  {
    var t := TrimStart(s);
    assert forall i :: 0 <= i < |t| ==> t[i] == s[|s| - |t| + i];
    if t != [] && (t[0] == '-' || t[0] == '+') {
      ParseUnsignedNoDigits(t[1..]);
    } else {
      ParseUnsignedNoDigits(t);
    }
  }

  /** The decimal representation of a natural number, as `String(n)` produces it. */
  function NatString(n: nat): (d: string)
    ensures d != [] && forall i :: 0 <= i < |d| ==> IsDigit(d[i])
  {
    var last := ['0' + ((n % 10) as char)];
    if n < 10 then last else NatString(n / 10) + last
  }

  lemma {:induction false} NatStringValue(n: nat)
    ensures DigitsValue(NatString(n)) == n
  {
    var d := NatString(n);
    if n >= 10 {
      NatStringValue(n / 10);
      assert d[..|d| - 1] == NatString(n / 10);
    }
  }

  lemma {:induction false} LeadingDigitsAll(s: string)
    requires forall i :: 0 <= i < |s| ==> IsDigit(s[i])
    ensures LeadingDigits(s) == |s|
  {
    if s != [] {
      LeadingDigitsAll(s[1..]);
    }
  }

  /** A non-empty run of digits with nothing after it reads as its decimal value. */
  lemma ParseUnsignedDigits(d: string)
    requires d != [] && forall i :: 0 <= i < |d| ==> IsDigit(d[i])
    ensures ParseUnsigned(d) == Some(DigitsValue(d) as real)
  {
    LeadingDigitsAll(d);
    ParseUnsignedWhole(d);
    assert d[..|d|] == d;
  }

  lemma ParseUnsignedWhole(d: string)
    requires d != [] && forall i :: 0 <= i < |d| ==> IsDigit(d[i])
    ensures ParseUnsigned(d) == Some(DigitsValue(d[..LeadingDigits(d)]) as real)
  {
    LeadingDigitsAll(d);
    var frac := FractionDigits(d[|d|..]);
    assert frac == [];
    assert FractionValue(frac) == 0.0;
  }

  /** A string that starts with a digit is read by `parseFloat` as an unsigned literal. */
  lemma ParseFloatDigitStart(t: string)
    requires t != [] && IsDigit(t[0])
    ensures ParseFloat(t) == ParseUnsigned(t)
  {
    assert !IsWhitespace(t[0]);
    assert TrimStart(t) == t;
  }

  /** A non-empty run of digits parses to its decimal value. */
  lemma ParseFloatDigits(d: string)
    requires d != [] && forall i :: 0 <= i < |d| ==> IsDigit(d[i])
    ensures ParseFloat(d) == Some(DigitsValue(d) as real)
  {
    ParseFloatDigitStart(d);
    ParseUnsignedDigits(d);
  }

  /** `parseFloat` reads back the decimal representation of a natural number. */
  lemma ParseFloatNatString(m: nat)
    ensures ParseFloat(NatString(m)) == Some(m as real)
  {
    ParseFloatDigits(NatString(m));
    NatStringValue(m);
  }

  /** `parseFloat` reads back a minus sign followed by the decimal representation of a natural number. */
  lemma ParseFloatNegatedNatString(m: nat)
    ensures ParseFloat("-" + NatString(m)) == Some(-(m as real))
  {
    var d := NatString(m);
    var s := "-" + d;
    assert !IsWhitespace(s[0]);
    assert TrimStart(s) == s;
    assert s[1..] == d;
    NatStringValue(m);
    ParseUnsignedDigits(d);
  }

  /** Leading white space before a non-blank character is skipped whole. */
  lemma {:induction false} TrimStartSkips(w: string, t: string)
    requires AllWhitespace(w)
    requires t == [] || !IsWhitespace(t[0])
    ensures TrimStart(w + t) == t
  {
    if w != [] {
      assert (w + t)[0] == w[0];
      assert (w + t)[1..] == w[1..] + t;
      TrimStartSkips(w[1..], t);
    } else {
      assert w + t == t;
    }
  }

  /** A run of digits followed by a non-digit (or by nothing) is exactly the leading digit run. */
  lemma {:induction false} LeadingDigitsPrefix(a: string, x: string)
    requires forall i :: 0 <= i < |a| ==> IsDigit(a[i])
    requires x == [] || !IsDigit(x[0])
    ensures LeadingDigits(a + x) == |a|
  {
    if a != [] {
      assert (a + x)[1..] == a[1..] + x;
      LeadingDigitsPrefix(a[1..], x);
    } else {
      assert a + x == x;
    }
  }

  /** Digits `a` in front of text `x` that does not start with a digit: `a` is the leading run. */
  lemma {:induction false} SplitDigits(a: string, x: string)
    requires forall i :: 0 <= i < |a| ==> IsDigit(a[i])
    requires x == [] || !IsDigit(x[0])
    ensures LeadingDigits(a + x) == |a| && (a + x)[..|a|] == a && (a + x)[|a|..] == x
  {
    LeadingDigitsPrefix(a, x);
  }

  /** An unsigned literal whose integer digits are `a` and whose remaining text is `x`. */
  lemma {:induction false} ParseUnsignedAt(a: string, x: string)
    requires a != [] && forall i :: 0 <= i < |a| ==> IsDigit(a[i])
    requires x == [] || !IsDigit(x[0])
    ensures ParseUnsigned(a + x) == Some(DigitsValue(a) as real + FractionValue(FractionDigits(x)))
  {
    SplitDigits(a, x);
  }

  /** A point, digits `b`, then text that does not continue the digits: the fraction is `b`. */
  lemma {:induction false} FractionDigitsOf(b: string, rest: string)
    requires forall i :: 0 <= i < |b| ==> IsDigit(b[i])
    requires rest == [] || !IsDigit(rest[0])
    ensures FractionDigits("." + b + rest) == b
  {
    var x := "." + b + rest;
    assert x[0] == '.' && x[1..] == b + rest;
    SplitDigits(b, rest);
  }

  /** `digits.digits` followed by text that does not continue the fraction. */
  lemma {:induction false} ParseUnsignedDecimal(a: string, b: string, rest: string)
    requires a != [] && forall i :: 0 <= i < |a| ==> IsDigit(a[i])
    requires forall i :: 0 <= i < |b| ==> IsDigit(b[i])
    requires rest == [] || !IsDigit(rest[0])
    ensures ParseUnsigned(a + "." + b + rest) == Some(DigitsValue(a) as real + FractionValue(b))
  {
    var x := "." + b + rest;
    assert a + "." + b + rest == a + x;
    ParseUnsignedAt(a, x);
    FractionDigitsOf(b, rest);
  }

  /** Digits followed by text that starts neither a digit nor a fraction. */
  lemma {:induction false} ParseUnsignedInteger(a: string, rest: string)
    requires a != [] && forall i :: 0 <= i < |a| ==> IsDigit(a[i])
    requires rest == [] || (!IsDigit(rest[0]) && rest[0] != '.')
    ensures ParseUnsigned(a + rest) == Some(DigitsValue(a) as real)
  {
    ParseUnsignedAt(a, rest);
    assert FractionDigits(rest) == [];
  }

  /** White space in front of an unsigned literal that starts with a digit. */
  lemma {:induction false} ParseFloatUnsigned(w: string, u: string)
    requires AllWhitespace(w)
    requires u != [] && (IsDigit(u[0]) || u[0] == '.')
    ensures ParseFloat(w + u) == ParseUnsigned(u)
  {
    TrimStartSkips(w, u);
  }

  /** The optional sign in front of a number literal. */
  datatype Sign = NoSign | Plus | Minus

  /** The text of a sign. */
  function SignText(sg: Sign): (r: string)
    ensures |r| <= 1 && (r == [] <==> sg == NoSign)
    ensures r != [] ==> r[0] == (if sg == Minus then '-' else '+')
  {
    match sg
    case NoSign => ""
    case Plus => "+"
    case Minus => "-"
  }

  /** The value a sign gives to a magnitude `v`. */
  function Signed(sg: Sign, v: real): (r: real)
    ensures sg == Minus ==> r == -v
    ensures sg != Minus ==> r == v
  {
    if sg == Minus then -v else v
  }

  /** White space and `-` in front of an unsigned literal: the literal's value negated. */
  lemma {:induction false} ParseFloatMinusSign(w: string, u: string)
    requires AllWhitespace(w)
    requires u != [] && (IsDigit(u[0]) || u[0] == '.')
    ensures ParseFloat(w + (['-'] + u)) == Negate(ParseUnsigned(u))
  {
    var t := ['-'] + u;
    assert t[0] == '-' && t[1..] == u;
    TrimStartSkips(w, t);
  }

  /** Negating a present value. */
  lemma NegateSome(p: Option<real>, v: real)
    requires p == Some(v)
    ensures Negate(p) == Some(-v)
  {
  }

  /** White space and `-` in front of an unsigned literal with value `v`. */
  lemma {:induction false} ParseFloatMinus(w: string, u: string, v: real)
    requires AllWhitespace(w)
    requires u != [] && (IsDigit(u[0]) || u[0] == '.') && ParseUnsigned(u) == Some(v)
    ensures ParseFloat(w + (['-'] + u)) == Some(-v)
  {
    ParseFloatMinusSign(w, u);
    NegateSome(ParseUnsigned(u), v);
  }

  /** White space and `+` in front of an unsigned literal with value `v`. */
  lemma {:induction false} ParseFloatPlus(w: string, u: string, v: real)
    requires AllWhitespace(w)
    requires u != [] && (IsDigit(u[0]) || u[0] == '.') && ParseUnsigned(u) == Some(v)
    ensures ParseFloat(w + (['+'] + u)) == Some(v)
  {
    var t := ['+'] + u;
    assert t[0] == '+' && t[1..] == u;
    TrimStartSkips(w, t);
  }

  /** White space and an optional sign in front of an unsigned literal with value `v`. */
  lemma {:induction false} ParseFloatSigned(w: string, sg: Sign, u: string, v: real)
    requires AllWhitespace(w)
    requires u != [] && (IsDigit(u[0]) || u[0] == '.') && ParseUnsigned(u) == Some(v)
    ensures ParseFloat(w + SignText(sg) + u) == Some(Signed(sg, v))
  {
    match sg
    case NoSign =>
      assert w + SignText(sg) + u == w + u;
      ParseFloatUnsigned(w, u);
    case Plus =>
      assert w + SignText(sg) + u == w + (['+'] + u);
      ParseFloatPlus(w, u, v);
    case Minus =>
      assert w + SignText(sg) + u == w + (['-'] + u);
      ParseFloatMinus(w, u, v);
  }

  /**
   * The general decimal literal: white space, an optional sign, digits, a point and more digits,
   * and then any text that does not continue the number, which is ignored.
   */
  lemma {:induction false} ParseFloatDecimal(w: string, sg: Sign, a: string, b: string, rest: string)
    requires AllWhitespace(w)
    requires a != [] && forall i :: 0 <= i < |a| ==> IsDigit(a[i])
    requires forall i :: 0 <= i < |b| ==> IsDigit(b[i])
    requires rest == [] || !IsDigit(rest[0])
    ensures ParseFloat(w + SignText(sg) + (a + "." + b + rest)) ==
      Some(Signed(sg, DigitsValue(a) as real + FractionValue(b)))
  {
    var u := a + "." + b + rest;
    ParseUnsignedDecimal(a, b, rest);
    assert u[0] == a[0];
    ParseFloatSigned(w, sg, u, DigitsValue(a) as real + FractionValue(b));
  }

  /** The integer literal: white space, an optional sign, digits, then ignored text that does not continue the number. */
  lemma {:induction false} ParseFloatInteger(w: string, sg: Sign, a: string, rest: string)
    requires AllWhitespace(w)
    requires a != [] && forall i :: 0 <= i < |a| ==> IsDigit(a[i])
    requires rest == [] || (!IsDigit(rest[0]) && rest[0] != '.')
    ensures ParseFloat(w + SignText(sg) + (a + rest)) == Some(Signed(sg, DigitsValue(a) as real))
  {
    var u := a + rest;
    ParseUnsignedInteger(a, rest);
    assert u[0] == a[0];
    ParseFloatSigned(w, sg, u, DigitsValue(a) as real);
  }


  /** Text that an unsigned literal can start with: a digit, or a point followed by a digit. */
  predicate StartsLiteral(u: string) {
    (u != [] && IsDigit(u[0])) || (|u| >= 2 && u[0] == '.' && IsDigit(u[1]))
  }

  /** The text after one leading sign character, if there is one. */
  function Unsigned(t: string): (r: string)
    ensures r == t || (t != [] && (t[0] == '-' || t[0] == '+') && r == t[1..])
  {
    if t != [] && (t[0] == '-' || t[0] == '+') then t[1..] else t
  }

  /** An unsigned literal is NaN exactly when the text does not start like a number. */
  lemma ParseUnsignedNoneIff(u: string)
    ensures ParseUnsigned(u) == None <==> !StartsLiteral(u)
  {
    assert u[0..] == u;
  }

  /**
   * `parseFloat` is NaN exactly when, after the leading white space and one optional sign, the
   * text does not start with a digit or with a point and a digit.
   */
  lemma ParseFloatNoneIff(s: string)
    ensures ParseFloat(s) == None <==> !StartsLiteral(Unsigned(TrimStart(s)))
  {
    ParseUnsignedNoneIff(Unsigned(TrimStart(s)));
  }

  /** A point, digits `b`, then text that does not continue the digits: the value of the fraction `b`. */
  lemma {:induction false} ParseUnsignedPoint(b: string, rest: string)
    requires b != [] && forall i :: 0 <= i < |b| ==> IsDigit(b[i])
    requires rest == [] || !IsDigit(rest[0])
    ensures ParseUnsigned("." + b + rest) == Some(FractionValue(b))
  {
    var u := "." + b + rest;
    assert u[0] == '.';
    assert LeadingDigits(u) == 0;
    assert u[0..] == u && u[..0] == [];
    FractionDigitsOf(b, rest);
  }

  /**
   * A literal that starts with a point: white space, an optional sign, a point, digits `b`, then
   * text that does not start with a digit.
   */
  lemma {:induction false} ParseFloatPoint(w: string, sg: Sign, b: string, rest: string)
    requires AllWhitespace(w)
    requires b != [] && forall i :: 0 <= i < |b| ==> IsDigit(b[i])
    requires rest == [] || !IsDigit(rest[0])
    ensures ParseFloat(w + SignText(sg) + ("." + b + rest)) == Some(Signed(sg, FractionValue(b)))
  {
    var u := "." + b + rest;
    ParseUnsignedPoint(b, rest);
    assert u[0] == '.';
    ParseFloatSigned(w, sg, u, FractionValue(b));
  }
}
