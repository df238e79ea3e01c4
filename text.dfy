/** The pieces of Ruby's string conversion that the limiter's messages use:
    `Integer#to_s`, `Float#to_s` for whole numbers of milliseconds,
    `String#inspect` for keys, and `Array#join`. */
module Text {

  predicate IsDigit(c: char) { '0' <= c <= '9' }

  predicate AllDigits(s: string) { forall i :: 0 <= i < |s| ==> IsDigit(s[i]) }

  function Digit(d: nat): (c: char)
    requires d < 10
    ensures IsDigit(c) && (c as int) - ('0' as int) == d
  {
    (('0' as int) + d) as char
  }

  /** Decimal digits of a natural number, without leading zeros. */
  function NatText(n: nat): (s: string)
    ensures |s| >= 1 && AllDigits(s)
    ensures (|s| > 1) == (n >= 10)
    decreases n
  {
    if n < 10 then [Digit(n)] else NatText(n / 10) + [Digit(n % 10)]
  }

  /** The value of a string of decimal digits. */
  function ParseNat(s: string): nat
    requires AllDigits(s)
  {
    if |s| == 0 then 0
    else ParseNat(s[..|s| - 1]) * 10 + ((s[|s| - 1] as int) - ('0' as int))
  }

  lemma {:induction false} ParseNatText(n: nat)
    ensures ParseNat(NatText(n)) == n
    decreases n
  {
    if n >= 10 {
      var s := NatText(n);
      assert s[..|s| - 1] == NatText(n / 10);
      ParseNatText(n / 10);
    }
  }

  /** `Integer#to_s` */
  function IntText(i: int): string
  {
    if i < 0 then "-" + NatText(-i) else NatText(i)
  }

  function ParseInt(s: string): int
    requires |s| >= 1 && (AllDigits(s) || (s[0] == '-' && AllDigits(s[1..])))
  {
    if s[0] == '-' then -(ParseNat(s[1..]) as int) else ParseNat(s)
  }

  lemma IntTextRoundTrip(i: int)
    ensures var s := IntText(i);
      |s| >= 1 && (AllDigits(s) || (s[0] == '-' && AllDigits(s[1..]))) && ParseInt(s) == i
  {
    if i < 0 {
      assert IntText(i)[1..] == NatText(-i);
      ParseNatText(-i);
    } else {
      ParseNatText(i);
    }
  }

  /** Drops trailing '0' characters. */
  function TrimZeros(s: string): (r: string)
    ensures |r| <= |s| && r == s[..|r|]
    ensures |r| > 0 ==> r[|r| - 1] != '0'
  {
    if |s| == 0 || s[|s| - 1] != '0' then s else TrimZeros(s[..|s| - 1])
  }

  /** The fractional digits Ruby prints for `f / 1000`, at least one digit. */
  function FractionText(f: nat): (s: string)
    requires f < 1000
  {
    if f == 0 then "0" else TrimZeros([Digit(f / 100), Digit(f / 10 % 10), Digit(f % 10)])
  }

  /** `Float#to_s` of `millis / 1000.0`: shortest decimal form, always with
      a fractional part. */
  function FloatText(millis: int): string
  {
    var a := if millis < 0 then -millis else millis;
    (if millis < 0 then "-" else "") + NatText(a / 1000) + "." + FractionText(a % 1000)
  }

  /** A Float that holds a whole number prints as that Integer followed by ".0". */
  lemma FloatTextWhole(k: int)
    ensures FloatText(1000 * k) == IntText(k) + ".0"
  {
    var a := if k < 0 then -1000 * k else 1000 * k;
    assert a / 1000 == (if k < 0 then -k else k) && a % 1000 == 0;
  }

  /** A `#` that `String#inspect` escapes: one that would start an
      interpolation, `#{`, `#$` or `#@`. */
  predicate Interpolates(s: string)
  {
    |s| >= 2 && s[0] == '#' && (s[1] == '{' || s[1] == '$' || s[1] == '@')
  }

  /** The backslash escapes `String#inspect` uses for '"', '\' and an
      interpolating '#'. */
  function Escape(s: string): string
  {
    if s == [] then []
    else (if s[0] == '"' || s[0] == '\\' || Interpolates(s) then ['\\', s[0]] else [s[0]]) + Escape(s[1..])
  }

  function Unescape(s: string): string
    decreases |s|
  {
    if |s| == 0 then []
    else if s[0] == '\\' && |s| >= 2 then [s[1]] + Unescape(s[2..])
    else [s[0]] + Unescape(s[1..])
  }

  lemma {:induction false} UnescapeEscape(s: string)
    ensures Unescape(Escape(s)) == s
  {
    if s != [] {
      var e := Escape(s);
      if s[0] == '"' || s[0] == '\\' || Interpolates(s) {
        assert e[0] == '\\' && e[1] == s[0] && e[2..] == Escape(s[1..]);
      } else {
        assert e[0] == s[0] && e[1..] == Escape(s[1..]);
      }
      UnescapeEscape(s[1..]);
    }
  }

  /** A key `String#inspect` prints unchanged between the quotes: no '"',
      no '\', no C0 or C1 control character nor DEL, and no '#' before '{',
      '$' or '@'. */
  predicate Plain(s: string)
  {
    forall i :: 0 <= i < |s| ==>
      && s[i] != '"' && s[i] != '\\' && ' ' <= s[i] && !('\U{7f}' <= s[i] <= '\U{9f}')
      && (s[i] == '#' && i + 1 < |s| ==> s[i + 1] != '{' && s[i + 1] != '$' && s[i + 1] != '@')
  }

  lemma {:induction false} EscapePlain(s: string)
    requires Plain(s)
    ensures Escape(s) == s
  {
    if s != [] {
      assert Plain(s[1..]);
      EscapePlain(s[1..]);
    }
  }

  /** `"a#{b".inspect` prints `"a\#{b"`, while a '#' before anything else is
      printed as it is. */
  lemma EscapeInterpolation()
    ensures Escape("a#{b") == "a\\#{b"
    ensures Escape("a#b") == "a#b"
  {
    assert Escape("{b") == "{b";
    assert Escape("#{b") == "\\#{b";
    assert Escape("#b") == "#b";
  }

  /** `String#inspect` */
  function Quote(s: string): string { "\"" + Escape(s) + "\"" }

  /** `Array#join(sep)` */
  function Join(parts: seq<string>, sep: string): string
  {
    if |parts| == 0 then ""
    else if |parts| == 1 then parts[0]
    else parts[0] + sep + Join(parts[1..], sep)
  }
}
