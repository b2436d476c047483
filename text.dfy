/** The JavaScript string and number primitives the calendar relies on:
    `String.prototype.trim`, `String(n)`, `padStart(2, '0')`, `split(':')`,
    `Array.prototype.join` and `Number(text)`. */
module Text {

  /** JavaScript's WhiteSpace and LineTerminator code points: what `trim` removes. */
  predicate IsJsSpace(c: char) {
    || '\t' <= c <= '\r' || c == ' ' || c == '\U{00A0}' || c == '\U{1680}'
    || '\U{2000}' <= c <= '\U{200A}' || c == '\U{2028}' || c == '\U{2029}'
    || c == '\U{202F}' || c == '\U{205F}' || c == '\U{3000}' || c == '\U{FEFF}'
  }

  predicate AllSpace(s: string) {
    forall i :: 0 <= i < |s| ==> IsJsSpace(s[i])
  }

  /** Drops leading white space. */
  function TrimStart(s: string): (r: string)
    ensures |r| <= |s| && r == s[|s| - |r|..]
    ensures r == [] || !IsJsSpace(r[0])
    ensures AllSpace(s[..|s| - |r|])
    decreases |s|
  {
    if s != [] && IsJsSpace(s[0]) then
      var r := TrimStart(s[1..]);
      assert s[..|s| - |r|] == [s[0]] + s[1..][..|s| - 1 - |r|];
      r
    else
      assert s[..0] == [];
      s
  }

  /** Drops trailing white space. */
  function TrimEnd(s: string): (r: string)
    ensures |r| <= |s| && r == s[..|r|]
    ensures r == [] || !IsJsSpace(r[|r| - 1])
    ensures AllSpace(s[|r|..])
    decreases |s|
  {
    if s != [] && IsJsSpace(s[|s| - 1]) then
      var p := s[..|s| - 1];
      var r := TrimEnd(p);
      assert s[|r|..] == p[|r|..] + [s[|s| - 1]];
      r
    else
      assert s[|s|..] == [];
      s
  }

  /** `r` is `s` with white space `s[..i]` cut off at the front and white
      space cut off at the back. */
  predicate CutFrom(s: string, r: string, i: int) {
    0 <= i <= |s| - |r| && r == s[i..i + |r|] && AllSpace(s[..i]) && AllSpace(s[i + |r|..])
  }

  /** `s.trim()`: the input with only white space cut off at either end,
      and no white space left at either end of what remains. */
  function Trim(s: string): (r: string)
    ensures |r| <= |s|
    ensures exists i :: CutFrom(s, r, i)
    ensures r == [] || (!IsJsSpace(r[0]) && !IsJsSpace(r[|r| - 1]))
  {
    var t := TrimStart(s);
    CutTwice(s, t, TrimEnd(t));
    TrimEnd(t)
  }

  /** A front cut `t` of `s` followed by a back cut `r` of `t` is a slice
      of `s` with white space on both sides. */
  lemma CutTwice(s: string, t: string, r: string)
    requires |t| <= |s| && t == s[|s| - |t|..] && AllSpace(s[..|s| - |t|])
    requires |r| <= |t| && r == t[..|r|] && AllSpace(t[|r|..])
    ensures CutFrom(s, r, |s| - |t|)
  {
    var i := |s| - |t|;
    assert r == s[i..i + |r|];
    assert s[i + |r|..] == t[|r|..];
  }

  /** A trimmed text is empty exactly when the input was white space only. */
  lemma TrimEmptyIff(s: string)
    ensures Trim(s) == [] <==> AllSpace(s)
  {
    var t := TrimStart(s);
    if Trim(s) == [] {
      assert t == [];
      assert s[..|s|] == s;
    } else {
      var r := Trim(s);
      assert r[0] == t[0] && t[0] == s[|s| - |t|];
    }
  }

  /** A text without white space at either end is its own trim. */
  lemma TrimKeepsTrimmed(s: string)
    requires s == [] || (!IsJsSpace(s[0]) && !IsJsSpace(s[|s| - 1]))
    ensures Trim(s) == s
  {
  }

  /** Trimming twice is trimming once. */
  lemma TrimIdempotent(s: string)
    ensures Trim(Trim(s)) == Trim(s)
  {
    TrimKeepsTrimmed(Trim(s));
  }

  // ----- decimal digits -----

  predicate IsDigit(c: char) { '0' <= c <= '9' }

  predicate AllDigits(s: string) {
    forall i :: 0 <= i < |s| ==> IsDigit(s[i])
  }

  function DigitChar(d: nat): (c: char)
    requires d < 10
    ensures IsDigit(c)
  {
    (48 + d) as char
  }

  function DigitValue(c: char): (d: nat)
    requires IsDigit(c)
    ensures d < 10 && DigitChar(d) == c
  {
    (c as int) - 48
  }

  /** The number a string of decimal digits denotes (leading zeros allowed). */
  function DigitsValue(s: string): nat
    requires AllDigits(s)
  {
    if s == [] then 0 else 10 * DigitsValue(s[..|s| - 1]) + DigitValue(s[|s| - 1])
  }

  /** `String(n)` for a non-negative integer: no leading zeros. */
  function NatToDecimal(n: nat): (r: string)
    ensures 1 <= |r| && AllDigits(r)
    ensures |r| == 1 <==> n < 10
    ensures r[0] == '0' ==> n == 0
  {
    if n < 10 then [DigitChar(n)] else NatToDecimal(n / 10) + [DigitChar(n % 10)]
  }

  /** `String(n)` for an integer. */
  function IntToString(n: int): string {
    if n < 0 then "-" + NatToDecimal(-n) else NatToDecimal(n)
  }

  lemma {:induction false} DecimalRoundTrip(n: nat)
    ensures DigitsValue(NatToDecimal(n)) == n
  {
    if n >= 10 {
      DecimalRoundTrip(n / 10);
      var s := NatToDecimal(n);
      assert s[..|s| - 1] == NatToDecimal(n / 10);
    }
  }

  /** Leading zeros do not change the value. */
  lemma {:induction false} LeadingZero(s: string)
    requires AllDigits(s)
    ensures AllDigits("0" + s) && DigitsValue("0" + s) == DigitsValue(s)
  {
    if s != [] {
      var z := "0" + s;
      assert z[..|z| - 1] == "0" + s[..|s| - 1];
      LeadingZero(s[..|s| - 1]);
    }
  }

  /** `String(n).padStart(2, '0')`. */
  function Pad2(n: int): (r: string)
    ensures |r| >= 2
    ensures 0 <= n < 100 ==> |r| == 2 && AllDigits(r) && DigitsValue(r) == n
  {
    var s := IntToString(n);
    if |s| < 2 then
      DecimalRoundTrip(n); LeadingZero(s); "0" + s
    else if 0 <= n then
      DecimalRoundTrip(n); s
    else
      s
  }

  /** Any non-negative number pads to a run of digits with the same value. */
  lemma Pad2Digits(n: nat)
    ensures AllDigits(Pad2(n)) && DigitsValue(Pad2(n)) == n
  {
    DecimalRoundTrip(n);
    if |NatToDecimal(n)| < 2 { LeadingZero(NatToDecimal(n)); }
  }

  /** Two digits below 24 or 60 print back as themselves. */
  lemma Pad2OfTwoDigits(s: string)
    requires |s| == 2 && AllDigits(s)
    ensures Pad2(DigitsValue(s)) == s
  {
    var a, b := DigitValue(s[0]), DigitValue(s[1]);
    assert s[..1] == [s[0]] && [s[0]][..0] == [];
    assert DigitsValue([s[0]]) == a;
    assert DigitsValue(s) == 10 * a + b;
    if a == 0 {
      assert NatToDecimal(b) == [DigitChar(b)];
    } else {
      var n := 10 * a + b;
      assert n / 10 == a && n % 10 == b;
      assert NatToDecimal(n) == [DigitChar(a)] + [DigitChar(b)];
    }
  }

  // ----- Number(text) -----

  /** A JavaScript number as far as the calendar uses it: an integer or NaN. */
  datatype Num = Finite(value: int) | NaN

  /** `Number(s)` for the texts a form can hold: white space around is
      ignored, an empty text is 0, a run of decimal digits is its value and
      anything else is NaN. */
  function JsNumber(s: string): (r: Num)
    ensures r.Finite? ==> r.value >= 0
    ensures AllSpace(s) ==> r == Finite(0)
    ensures r == NaN <==> !AllSpace(s) && !AllDigits(Trim(s))
  {
    var u := Trim(s);
    TrimEmptyIff(s);
    if u == [] then Finite(0)
    else if AllDigits(u) then Finite(DigitsValue(u))
    else NaN
  }

  /** A run of digits reads as its value. */
  lemma JsNumberOfDigits(s: string)
    requires s != [] && AllDigits(s)
    ensures JsNumber(s) == Finite(DigitsValue(s))
  {
    TrimKeepsTrimmed(s);
  }

  /** Leading white space makes no difference to `TrimStart`. */
  lemma {:induction false} TrimStartSkipsSpace(a: string, x: string)
    requires AllSpace(a)
    ensures TrimStart(a + x) == TrimStart(x)
  {
    if a == [] {
      assert a + x == x;
    } else {
      assert (a + x)[0] == a[0] && (a + x)[1..] == a[1..] + x;
      TrimStartSkipsSpace(a[1..], x);
    }
  }

  /** Trailing white space makes no difference to `TrimEnd`. */
  lemma {:induction false} TrimEndSkipsSpace(x: string, b: string)
    requires AllSpace(b)
    ensures TrimEnd(x + b) == TrimEnd(x)
  {
    if b == [] {
      assert x + b == x;
    } else {
      assert (x + b)[|x + b| - 1] == b[|b| - 1];
      assert (x + b)[..|x + b| - 1] == x + b[..|b| - 1];
      TrimEndSkipsSpace(x, b[..|b| - 1]);
    }
  }

  /** A run of digits with white space around it, as in " 12 ", reads as
      the value of the digits. */
  lemma JsNumberOfPaddedDigits(a: string, d: string, b: string)
    requires AllSpace(a) && AllSpace(b) && d != [] && AllDigits(d)
    ensures JsNumber(a + d + b) == Finite(DigitsValue(d))
  {
    TrimPadded(a, d, b);
  }

  /** Trimming a text with no white space at either end, padded with white
      space, gives back that text. */
  lemma TrimPadded(a: string, d: string, b: string)
    requires AllSpace(a) && AllSpace(b) && d != [] && !IsJsSpace(d[0]) && !IsJsSpace(d[|d| - 1])
    ensures Trim(a + d + b) == d
  {
    assert a + d + b == a + (d + b);
    TrimStartSkipsSpace(a, d + b);
    assert TrimStart(d + b) == d + b by { assert (d + b)[0] == d[0]; }
    TrimEndSkipsSpace(d, b);
    TrimKeepsTrimmed(d);
  }

  // ----- split and join -----

  /** `s.split(sep)` for a one-character separator. Its fields are pinned
      by `SplitNoSeparator` and `SplitAtFirst` below. */
  function Split(s: string, sep: char): (r: seq<string>)
    ensures |r| >= 1
    ensures forall i :: 0 <= i < |r| ==> sep !in r[i]
  {
    if s == [] then [""]
    else
      var rest := Split(s[1..], sep);
      if s[0] == sep then [""] + rest
      else [[s[0]] + rest[0]] + rest[1..]
  }

  /** A text without the separator is a single field. */
  lemma {:induction false} SplitNoSeparator(s: string, sep: char)
    requires sep !in s
    ensures Split(s, sep) == [s]
  {
    if s != [] {
      SplitNoSeparator(s[1..], sep);
      assert [s[0]] + s[1..] == s;
    }
  }

  /** Splitting at the first separator. */
  lemma {:induction false} SplitAtFirst(a: string, sep: char, b: string)
    requires sep !in a
    ensures Split(a + [sep] + b, sep) == [a] + Split(b, sep)
  {
    if a != [] {
      SplitAtFirst(a[1..], sep, b);
      assert (a + [sep] + b)[1..] == a[1..] + [sep] + b;
      assert [a[0]] + a[1..] == a;
    } else {
      assert (a + [sep] + b)[1..] == b;
    }
  }

  /** Two fields without the separator, joined by it, split back apart. */
  lemma SplitTwoFields(a: string, sep: char, b: string)
    requires sep !in a && sep !in b
    ensures Split(a + [sep] + b, sep) == [a, b]
  {
    SplitAtFirst(a, sep, b);
    SplitNoSeparator(b, sep);
  }

  /** `parts.join(sep)`. */
  function Join(parts: seq<string>, sep: string): string {
    if |parts| == 0 then ""
    else if |parts| == 1 then parts[0]
    else Join(parts[..|parts| - 1], sep) + sep + parts[|parts| - 1]
  }
}
