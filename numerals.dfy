/** What Python's `int(token)` and `float(token)` accept, on tokens that
    `split()` produced (so without surrounding whitespace). Digits are the
    ASCII digits. `int` yields the integer; for `float` the model keeps the
    accepted token itself, since binary floating point is not modelled. */
module Numerals {
  import opened Errors

  predicate IsDigit(c: char) {
    '0' <= c <= '9'
  }

  /** Python's `digitpart ::= digit (["_"] digit)*`: digits, with single
      underscores allowed between two digits. */
  predicate IsDigitPart(s: string) {
    && |s| > 0 && IsDigit(s[0]) && IsDigit(s[|s| - 1])
    && (forall k :: 0 <= k < |s| ==> IsDigit(s[k]) || s[k] == '_')
    && (forall k :: 0 <= k < |s| - 1 ==> s[k] == '_' ==> IsDigit(s[k + 1]))
  }

  /** The text after an optional leading `+` or `-`. */
  function Unsigned(t: string): (b: string)
    ensures |b| <= |t| && b == t[|t| - |b|..]
  {
    if |t| > 0 && (t[0] == '+' || t[0] == '-') then t[1..] else t
  }

  function DigitValue(c: char): nat
    requires IsDigit(c)
  {
    c as int - '0' as int
  }

  /** The number a digit part denotes, underscores ignored. */
  function DigitsValue(s: string): nat
    requires forall k :: 0 <= k < |s| ==> IsDigit(s[k]) || s[k] == '_'
  {
    if s == [] then 0
    else if s[|s| - 1] == '_' then DigitsValue(s[..|s| - 1])
    else DigitsValue(s[..|s| - 1]) * 10 + DigitValue(s[|s| - 1])
  }

  // ---------------------------------------------------------------------
  // int()

  /** The tokens `int(token)` accepts: an optional sign and a digit part. */
  predicate IsIntText(t: string) {
    IsDigitPart(Unsigned(t))
  }

  /** `int(token)`: the integer the token denotes, or `ValueError`. */
  function ParseInt(t: string): (r: Result<int>)
    ensures r.Ok? <==> IsIntText(t)
    ensures r.Err? ==> r.error == ValueError
    ensures r.Ok? ==> (r.value < 0 ==> t[0] == '-')
  {
    if IsIntText(t) then
      var b := Unsigned(t);
      var n: int := DigitsValue(b);
      Ok(if |t| > 0 && t[0] == '-' then -n else n)
    else Err(ValueError)
  }

  /** `str(n)` for an integer: decimal digits, `-` before a negative one. */
  function DecimalText(n: int): string {
    if n < 0 then "-" + NatText(-n) else NatText(n)
  }

  function NatText(n: nat): (s: string)
    decreases n
  {
    var d := ['0' + (n % 10) as char];
    if n < 10 then d else NatText(n / 10) + d
  }

  lemma {:induction false} NatTextDigits(n: nat)
    ensures var s := NatText(n); IsDigitPart(s) && '_' !in s && DigitsValue(s) == n
    decreases n
  {
    var s := NatText(n);
    var d := ['0' + (n % 10) as char];
    if n >= 10 {
      var p := NatText(n / 10);
      NatTextDigits(n / 10);
      assert s == p + d;
      assert s[..|s| - 1] == p;
    } else {
      assert s[..|s| - 1] == [];
    }
  }

  /** `int(str(n)) == n`: `int` reads back every integer's decimal text. */
  lemma ParseIntDecimal(n: int)
    ensures ParseInt(DecimalText(n)) == Ok(n)
  {
    if n < 0 {
      var s := NatText(-n);
      NatTextDigits(-n);
      assert DecimalText(n) == "-" + s;
      assert ("-" + s)[1..] == s;
      assert Unsigned("-" + s) == s;
    } else {
      var s := NatText(n);
      NatTextDigits(n);
      assert s[0] != '+' && s[0] != '-';
      assert Unsigned(s) == s;
    }
  }

  /** A `+` sign leaves the value alone and a `-` sign negates it. */
  lemma ParseIntSigns(b: string)
    requires IsDigitPart(b)
    ensures ParseInt("+" + b) == ParseInt(b) && ParseInt(b).Ok?
    ensures ParseInt("-" + b) == Ok(-ParseInt(b).value)
  {
    ParseIntUnsigned(b);
    ParseIntSigned('+', b);
    ParseIntSigned('-', b);
  }

  lemma ParseIntUnsigned(b: string)
    requires IsDigitPart(b)
    ensures ParseInt(b) == Ok(DigitsValue(b) as int)
  {
    assert Unsigned(b) == b;
  }

  lemma ParseIntSigned(c: char, b: string)
    requires c == '+' || c == '-'
    requires IsDigitPart(b)
    ensures ParseInt([c] + b) == Ok(if c == '-' then -(DigitsValue(b) as int) else DigitsValue(b) as int)
  {
    var t := [c] + b;
    assert t[1..] == b;
    assert Unsigned(t) == b;
  }

  lemma {:induction false} DigitsValueLeadingZero(b: string)
    requires forall k :: 0 <= k < |b| ==> IsDigit(b[k]) || b[k] == '_'
    ensures DigitsValue("0" + b) == DigitsValue(b)
    decreases |b|
  {
    var z := "0" + b;
    if b == [] {
      assert z[..|z| - 1] == [];
    } else {
      DigitsValueLeadingZero(b[..|b| - 1]);
      assert z[..|z| - 1] == "0" + b[..|b| - 1];
      assert z[|z| - 1] == b[|b| - 1];
    }
  }

  /** A leading zero leaves the value alone: `int("007") == 7`. */
  lemma ParseIntLeadingZero(b: string)
    requires IsDigitPart(b)
    ensures ParseInt("0" + b) == ParseInt(b) && ParseInt(b).Ok?
  {
    var z := "0" + b;
    assert Unsigned(b) == b;
    assert forall k :: 1 <= k < |z| ==> z[k] == b[k - 1];
    assert IsDigitPart(z);
    assert Unsigned(z) == z;
    DigitsValueLeadingZero(b);
  }

  lemma {:induction false} DigitsValueUnderscore(x: string, y: string)
    requires forall k :: 0 <= k < |x| ==> IsDigit(x[k]) || x[k] == '_'
    requires forall k :: 0 <= k < |y| ==> IsDigit(y[k]) || y[k] == '_'
    ensures var u := x + "_" + y;
      (forall k :: 0 <= k < |u| ==> IsDigit(u[k]) || u[k] == '_')
      && DigitsValue(u) == DigitsValue(x + y)
    decreases |y|
  {
    var u, v := x + "_" + y, x + y;
    if y == [] {
      assert u[..|u| - 1] == x && v == x;
    } else {
      var y' := y[..|y| - 1];
      DigitsValueUnderscore(x, y');
      assert u[..|u| - 1] == x + "_" + y' && u[|u| - 1] == y[|y| - 1];
      assert v[..|v| - 1] == x + y' && v[|v| - 1] == y[|y| - 1];
    }
  }

  lemma DigitPartConcat(x: string, y: string)
    requires IsDigitPart(x) && IsDigitPart(y)
    ensures IsDigitPart(x + y)
  {
    var v := x + y;
    assert forall k :: 0 <= k < |x| ==> v[k] == x[k];
    assert forall k :: |x| <= k < |v| ==> v[k] == y[k - |x|];
  }

  lemma DigitPartUnderscore(x: string, y: string)
    requires IsDigitPart(x) && IsDigitPart(y)
    ensures IsDigitPart(x + "_" + y)
  {
    var u := x + "_" + y;
    assert forall k :: 0 <= k < |x| ==> u[k] == x[k];
    assert u[|x|] == '_';
    assert forall k :: |x| < k < |u| ==> u[k] == y[k - |x| - 1];
  }

  /** An underscore between two digit parts leaves the value alone:
      `int("1_000") == int("1000")`. */
  lemma ParseIntUnderscore(x: string, y: string)
    requires IsDigitPart(x) && IsDigitPart(y)
    ensures ParseInt(x + "_" + y) == ParseInt(x + y) && ParseInt(x + y).Ok?
  {
    var u, v := x + "_" + y, x + y;
    DigitsValueUnderscore(x, y);
    DigitPartConcat(x, y);
    DigitPartUnderscore(x, y);
    assert u[0] == x[0] && v[0] == x[0];
    assert Unsigned(u) == u && Unsigned(v) == v;
  }

  // ---------------------------------------------------------------------
  // float()

  /** Index of the first character of `s` that is in `cs`, or `|s|`. */
  function FirstOf(s: string, cs: set<char>): (i: nat)
    ensures i <= |s|
    ensures i < |s| ==> s[i] in cs
    ensures forall k :: 0 <= k < i ==> s[k] !in cs
  {
    if s == [] then 0
    else if s[0] in cs then 0
    else 1 + FirstOf(s[1..], cs)
  }

  function LowerAscii(c: char): char {
    if 'A' <= c <= 'Z' then c - 'A' + 'a' else c
  }

  /** `inf`, `infinity` or `nan`, in any mix of letter cases. */
  predicate IsSpecialFloat(b: string) {
    var l := LowerText(b);
    l == "inf" || l == "infinity" || l == "nan"
  }

  function LowerText(s: string): (l: string)
    ensures |l| == |s|
  {
    if s == [] then [] else [LowerAscii(s[0])] + LowerText(s[1..])
  }

  /** Python's `number ::= [digitpart] "." digitpart | digitpart ["."]`. */
  predicate IsNumber(m: string) {
    var d := FirstOf(m, {'.'});
    if d == |m| then IsDigitPart(m)
    else
      var whole, frac := m[..d], m[d + 1..];
      ((whole == [] || IsDigitPart(whole)) && IsDigitPart(frac))
      || (IsDigitPart(whole) && frac == [])
  }

  /** Python's `floatnumber ::= number [exponent]`, where
      `exponent ::= ("e" | "E") ["+" | "-"] digitpart`. */
  predicate IsFloatNumber(b: string) {
    var e := FirstOf(b, {'e', 'E'});
    if e == |b| then IsNumber(b)
    else IsNumber(b[..e]) && IsDigitPart(Unsigned(b[e + 1..]))
  }

  /** The tokens `float(token)` accepts:
      `[sign] (floatnumber | infinity | nan)`. */
  predicate IsFloatText(t: string) {
    var b := Unsigned(t);
    IsSpecialFloat(b) || IsFloatNumber(b)
  }

  /** `float(token)`, keeping the accepted token as the value. */
  function ParseFloat(t: string): (r: Result<string>)
    ensures r.Ok? <==> IsFloatText(t)
    ensures r.Ok? ==> r.value == t
    ensures r.Err? ==> r.error == ValueError
  {
    if IsFloatText(t) then Ok(t) else Err(ValueError)
  }

  /** Every token `int()` accepts, `float()` accepts too. */
  lemma IntTextIsFloatText(t: string)
    requires IsIntText(t)
    ensures IsFloatText(t)
  {
    var b := Unsigned(t);
    var e := FirstOf(b, {'e', 'E'});
  }

  /** A reading such as `-0.02` is accepted by `float()`. */
  lemma DecimalAccepted()
    ensures IsFloatText("-0.02")
  {
    var b := "0.02";
    assert Unsigned("-0.02") == b;
    var e := FirstOf(b, {'e', 'E'});
    assert e == 4 by {
      assert forall k :: 0 <= k < 4 ==> b[k] !in {'e', 'E'};
    }
    var d := FirstOf(b, {'.'});
    assert d == 1 by {
      assert b[0] != '.' && b[1] == '.';
    }
    assert b[..d] == "0" && b[d + 1..] == "02";
    assert IsDigitPart("0") && IsDigitPart("02");
  }

  /** `float()` accepts `inf` in any mix of letter cases, after a sign. */
  lemma InfinityAccepted()
    ensures IsFloatText("+InF")
  {
    assert Unsigned("+InF") == "InF";
    assert LowerText("InF") == "inf";
  }

  /** A reading with a unit attached is not accepted by `float()`. */
  lemma UnitRejected()
    ensures !IsFloatText("0.1cm")
  {
    var b := "0.1cm";
    assert Unsigned(b) == b;
    assert |LowerText(b)| == 5;
    var e := FirstOf(b, {'e', 'E'});
    assert e == 5 by {
      assert forall k :: 0 <= k < 5 ==> b[k] !in {'e', 'E'};
    }
    var d := FirstOf(b, {'.'});
    assert d == 1 by {
      assert b[0] != '.' && b[1] == '.';
    }
    assert b[d + 1..] == "1cm";
    assert !IsDigit("1cm"[2]);
  }

  /** A reading with two decimal points is not accepted by `float()`. */
  lemma DoublePointRejected()
    ensures !IsFloatText("1..2")
  {
    var b := "1..2";
    assert Unsigned(b) == b;
    assert |LowerText(b)| == 4;
    var e := FirstOf(b, {'e', 'E'});
    assert e == 4 by {
      assert forall k :: 0 <= k < 4 ==> b[k] !in {'e', 'E'};
    }
    var d := FirstOf(b, {'.'});
    assert d == 1 by {
      assert b[0] != '.' && b[1] == '.';
    }
    assert b[d + 1..] == ".2";
    assert !IsDigit(".2"[0]);
  }
}
