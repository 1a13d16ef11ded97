/**
 * The small helpers of the analyzers: reading a checked configuration
 * parameter, the 24-bit colour escape for the terminal, and the string
 * post-processing of the scientific tick formatter.
 */
module Utils {
  import opened Wrappers
  import opened PyErrors

  // ---------------------------------------------------------------- configuration

  /** `invalid_param`: the message is printed and the program exits with status 1. */
  const InvalidParam: PyError := SystemExit(1)

  /**
   * `read_config_param`: the converted value of `config[name]` when the key
   * is there and the validator accepts it; otherwise exit with status 1. The
   * converter runs first, so its exception is the one raised.
   */
  function ReadConfigParam<V, P>(config: map<string, V>, name: string,
                                 converter: V -> Result<P, PyError>, valid: P -> bool): (r: Result<P, PyError>)
    ensures r.Ok? <==> name in config && converter(config[name]).Ok? && valid(converter(config[name]).value)
    ensures r.Ok? ==> valid(r.value) && r.value == converter(config[name]).value
    ensures name !in config ==> r == Err(InvalidParam)
    ensures name in config && converter(config[name]).Err? ==> r == Err(converter(config[name]).error)
    ensures name in config && converter(config[name]).Ok? && !valid(converter(config[name]).value) ==> r == Err(InvalidParam)
  {
    if name in config then
      match converter(config[name])
      case Err(e) => Err(e)
      case Ok(param) => if valid(param) then Ok(param) else Err(InvalidParam)
    else
      Err(InvalidParam)
  }

  // ---------------------------------------------------------------- numbers as text

  predicate IsHexDigit(c: char)
  {
    '0' <= c <= '9' || 'a' <= c <= 'f' || 'A' <= c <= 'F'
  }

  function HexDigitValue(c: char): (v: int)
    requires IsHexDigit(c)
    ensures 0 <= v < 16
  {
    if '0' <= c <= '9' then c as int - '0' as int
    else if 'a' <= c <= 'f' then c as int - 'a' as int + 10
    else c as int - 'A' as int + 10
  }

  /** The lower-case hexadecimal digit of `v`. */
  function HexDigit(v: int): (c: char)
    requires 0 <= v < 16
    ensures IsHexDigit(c) && HexDigitValue(c) == v
  {
    if v < 10 then ('0' as int + v) as char else ('a' as int + v - 10) as char
  }

  /** The value of a string of hexadecimal digits, most significant first. */
  function HexValue(s: string): (v: int)
    requires forall k :: 0 <= k < |s| ==> IsHexDigit(s[k])
    ensures v >= 0
  {
    if s == [] then 0 else 16 * HexValue(s[..|s| - 1]) + HexDigitValue(s[|s| - 1])
  }

  /** The whitespace `int()` ignores around its argument. */
  predicate IsSpace(c: char)
  {
    c == ' ' || c == '\t' || c == '\n' || c == '\r' || c == '\U{000b}' || c == '\U{000c}'
  }

  function TrimSpace(s: string): (t: string)
    ensures |t| <= |s|
    ensures t != [] ==> !IsSpace(t[0]) && !IsSpace(t[|t| - 1])
    decreases |s|
  {
    if s != [] && IsSpace(s[0]) then TrimSpace(s[1..])
    else if s != [] && IsSpace(s[|s| - 1]) then TrimSpace(s[..|s| - 1])
    else s
  }

  /**
   * `int(s, 16)` on a slice of at most two characters: surrounding
   * whitespace is ignored, one sign is allowed, and the rest must be
   * hexadecimal digits; anything else raises ValueError.
   */
  function ParseHex(s: string): (r: Result<int, PyError>)
    ensures r.Err? ==> r.error == ValueError
    ensures (|s| > 0 && forall k :: 0 <= k < |s| ==> IsHexDigit(s[k])) ==> r == Ok(HexValue(s))
  {
    var t := TrimSpace(s);
    var negative := t != [] && t[0] == '-';
    var digits := if t != [] && (t[0] == '-' || t[0] == '+') then t[1..] else t;
    if digits != [] && forall k :: 0 <= k < |digits| ==> IsHexDigit(digits[k]) then
      Ok(if negative then -HexValue(digits) else HexValue(digits))
    else
      Err(ValueError)
  }

  function NatToString(n: nat): (s: string)
    ensures |s| > 0 && forall k :: 0 <= k < |s| ==> '0' <= s[k] <= '9'
  {
    if n < 10 then [('0' as int + n) as char]
    else NatToString(n / 10) + [('0' as int + n % 10) as char]
  }

  /** `str` of an int. */
  function IntToString(n: int): string
  {
    if n < 0 then "-" + NatToString(-n) else NatToString(n)
  }

  predicate IsDigits(s: string)
  {
    forall k :: 0 <= k < |s| ==> '0' <= s[k] <= '9'
  }

  /** The value of a string of decimal digits, most significant first. */
  function DecimalValue(s: string): (v: nat)
    requires IsDigits(s)
  {
    if s == [] then 0 else 10 * DecimalValue(s[..|s| - 1]) + (s[|s| - 1] as int - '0' as int)
  }

  /** `str` of a non-negative int reads back as the same number. */
  lemma {:induction false} NatToStringReadsBack(n: nat)
    ensures DecimalValue(NatToString(n)) == n
  {
    if n >= 10 {
      NatToStringReadsBack(n / 10);
      var s := NatToString(n);
      assert s[..|s| - 1] == NatToString(n / 10);
    }
  }

  // ---------------------------------------------------------------- colour escapes

  /** The slices `color_hex[i:i+2]` for i = 1, 3, 5, ... below the length. */
  function HexPairs(h: string, i: nat): (ps: seq<string>)
    requires i % 2 == 1
    ensures |ps| == if i < |h| then (|h| - i + 1) / 2 else 0
    ensures forall k :: 0 <= k < |ps| ==> 0 < |ps[k]| <= 2
    decreases |h| - i
  {
    if i >= |h| then []
    else [h[i..if i + 2 <= |h| then i + 2 else |h|]] + HexPairs(h, i + 2)
  }

  /** The list comprehension: each slice parsed in order; the first failure raises. */
  function ParsePairs(ps: seq<string>): (r: Result<seq<int>, PyError>)
    ensures r.Ok? <==> forall k :: 0 <= k < |ps| ==> ParseHex(ps[k]).Ok?
    ensures r.Ok? ==> |r.value| == |ps| && forall k :: 0 <= k < |ps| ==> r.value[k] == ParseHex(ps[k]).value
    ensures r.Err? ==> r.error == ValueError
  {
    if ps == [] then Ok([])
    else
      var v :- ParseHex(ps[0]);
      var rest :- ParsePairs(ps[1..]);
      Ok([v] + rest)
  }

  /**
   * The Select Graphic Rendition control sequence of ECMA-48 (section
   * 8.3.117) that sets a direct RGB colour: parameter 38 for the text, 48
   * for the background, then 2 and the three components.
   */
  function Escape(background: bool, r: int, g: int, b: int): string
  {
    "\U{001b}[" + (if background then "48" else "38") + ";2;"
    + IntToString(r) + ";" + IntToString(g) + ";" + IntToString(b) + "m"
  }

  /**
   * `get_color_escape`: every slice after the first character is parsed
   * before the first three are used, so an unparsable slice raises
   * ValueError even when fewer than three exist; otherwise fewer than
   * three slices raise IndexError.
   */
  function GetColorEscape(colorHex: string, background: bool): (r: Result<string, PyError>)
    ensures r.Ok? <==> |colorHex| >= 6 && ParsePairs(HexPairs(colorHex, 1)).Ok?
    ensures r.Err? ==> (r.error == ValueError <==> ParsePairs(HexPairs(colorHex, 1)).Err?)
    ensures r.Err? ==> r.error == ValueError || r.error == IndexError
  {
    var rgb :- ParsePairs(HexPairs(colorHex, 1));
    if |rgb| < 3 then Err(IndexError)
    else Ok(Escape(background, rgb[0], rgb[1], rgb[2]))
  }

  /** "#RRGGBB" in lower-case hexadecimal, two digits per component. */
  function HexColor(r: int, g: int, b: int): string
    requires 0 <= r < 256 && 0 <= g < 256 && 0 <= b < 256
  {
    "#" + [HexDigit(r / 16), HexDigit(r % 16), HexDigit(g / 16), HexDigit(g % 16), HexDigit(b / 16), HexDigit(b % 16)]
  }

  /** Two hexadecimal digits read back as the component they were written from. */
  lemma HexPairReadsBack(v: int)
    requires 0 <= v < 256
    ensures ParseHex(HexByte(v)) == Ok(v)
  {
    ParsesAsPair(HexDigit(v / 16), HexDigit(v % 16));
  }

  lemma ParsesAsPair(c0: char, c1: char)
    requires IsHexDigit(c0) && IsHexDigit(c1)
    ensures ParseHex([c0, c1]) == Ok(16 * HexDigitValue(c0) + HexDigitValue(c1))
  {
    HexValueOfPair(c0, c1);
  }

  lemma HexValueOfPair(c0: char, c1: char)
    requires IsHexDigit(c0) && IsHexDigit(c1)
    ensures HexValue([c0]) == HexDigitValue(c0)
    ensures HexValue([c0, c1]) == 16 * HexDigitValue(c0) + HexDigitValue(c1)
  {
    assert [c0][..0] == [];
    assert [c0, c1][..1] == [c0];
  }

  /** A colour written as "#RRGGBB" gives the escape of exactly its three components. */
  lemma ColorEscapeRoundTrip(r: int, g: int, b: int, background: bool)
    requires 0 <= r < 256 && 0 <= g < 256 && 0 <= b < 256
    ensures GetColorEscape(HexColor(r, g, b), background) == Ok(Escape(background, r, g, b))
  {
    HexColorSlices(r, g, b);
    ComponentsReadBack(r, g, b);
  }

  /** The two digits of one component. */
  function HexByte(v: int): string
    requires 0 <= v < 256
  {
    [HexDigit(v / 16), HexDigit(v % 16)]
  }

  lemma HexColorSlices(r: int, g: int, b: int)
    requires 0 <= r < 256 && 0 <= g < 256 && 0 <= b < 256
    ensures HexPairs(HexColor(r, g, b), 1) == [HexByte(r), HexByte(g), HexByte(b)]
  {
    var h := HexColor(r, g, b);
    assert HexPairs(h, 7) == [];
    assert HexPairs(h, 5) == [h[5..7]];
    assert HexPairs(h, 3) == [h[3..5], h[5..7]];
    assert HexPairs(h, 1) == [h[1..3], h[3..5], h[5..7]];
    assert h[1..3] == HexByte(r);
    assert h[3..5] == HexByte(g);
    assert h[5..7] == HexByte(b);
  }

  lemma ComponentsReadBack(r: int, g: int, b: int)
    requires 0 <= r < 256 && 0 <= g < 256 && 0 <= b < 256
    ensures ParsePairs([HexByte(r), HexByte(g), HexByte(b)]) == Ok([r, g, b])
  {
    HexPairReadsBack(r);
    HexPairReadsBack(g);
    HexPairReadsBack(b);
    ParseThree(HexByte(r), HexByte(g), HexByte(b), r, g, b);
  }

  lemma ParseThree(p0: string, p1: string, p2: string, v0: int, v1: int, v2: int)
    requires ParseHex(p0) == Ok(v0) && ParseHex(p1) == Ok(v1) && ParseHex(p2) == Ok(v2)
    ensures ParsePairs([p0, p1, p2]) == Ok([v0, v1, v2])
  {
    assert ParsePairs([]) == Ok([]);
    ParsePairsCons(p2, [], v2, []);
    assert [p2] + [] == [p2] && [v2] + [] == [v2];
    ParsePairsCons(p1, [p2], v1, [v2]);
    assert [p1] + [p2] == [p1, p2] && [v1] + [v2] == [v1, v2];
    ParsePairsCons(p0, [p1, p2], v0, [v1, v2]);
    assert [p0] + [p1, p2] == [p0, p1, p2] && [v0] + [v1, v2] == [v0, v1, v2];
  }

  lemma ParsePairsCons(p: string, rest: seq<string>, v: int, vs: seq<int>)
    requires ParseHex(p) == Ok(v) && ParsePairs(rest) == Ok(vs)
    ensures ParsePairs([p] + rest) == Ok([v] + vs)
  {
    assert ([p] + rest)[1..] == rest;
  }

  /** A string of hexadecimal digits after the first character gives components in 0..255. */
  lemma HexColorComponentsAreBytes(colorHex: string)
    requires |colorHex| >= 6
    requires forall k :: 1 <= k < |colorHex| ==> IsHexDigit(colorHex[k])
    ensures ParsePairs(HexPairs(colorHex, 1)).Ok?
    ensures forall k :: 0 <= k < |HexPairs(colorHex, 1)| ==> 0 <= ParsePairs(HexPairs(colorHex, 1)).value[k] < 256
  {
    HexPairsAreHex(colorHex, 1);
  }

  lemma {:induction false} HexPairsAreHex(h: string, i: nat)
    requires i % 2 == 1
    requires forall k :: 1 <= k < |h| ==> IsHexDigit(h[k])
    ensures forall k :: 0 <= k < |HexPairs(h, i)| ==>
      var p := HexPairs(h, i)[k];
      && (forall m :: 0 <= m < |p| ==> IsHexDigit(p[m]))
      && ParseHex(p).Ok? && 0 <= ParseHex(p).value < 256
    decreases |h| - i
  {
    if i < |h| {
      HexPairsAreHex(h, i + 2);
      var p := HexPairs(h, i)[0];
      assert forall m :: 0 <= m < |p| ==> IsHexDigit(p[m]);
      if |p| == 2 {
        HexValueOfPair(p[0], p[1]);
        assert p == [p[0], p[1]];
      } else {
        HexValueOfPair(p[0], p[0]);
        assert p == [p[0]];
      }
    }
  }

  // ---------------------------------------------------------------- the tick formatter

  /** `str.split(c)`: the pieces between occurrences of `c`, always at least one. */
  function Split(s: string, c: char): (parts: seq<string>)
    ensures |parts| >= 1
    ensures forall k :: 0 <= k < |parts| ==> c !in parts[k]
  {
    if s == [] then [[]]
    else
      var rest := Split(s[1..], c);
      if s[0] == c then [[]] + rest else [[s[0]] + rest[0]] + rest[1..]
  }

  /** The pieces joined with `c` between them. */
  function Join(parts: seq<string>, c: char): string
  {
    if |parts| <= 1 then (if parts == [] then [] else parts[0])
    else parts[0] + [c] + Join(parts[1..], c)
  }

  /** Splitting loses nothing: joining the pieces gives the string back. */
  lemma {:induction false} SplitJoin(s: string, c: char)
    ensures Join(Split(s, c), c) == s
  {
    if s != [] {
      SplitJoin(s[1..], c);
      var rest := Split(s[1..], c);
      if s[0] != c {
        if |rest| > 1 {
          assert ([[s[0]] + rest[0]] + rest[1..])[1..] == rest[1..];
        }
      }
    }
  }

  /** Text without `c` before the first `c` is the first piece; the rest is split on its own. */
  lemma {:induction false} SplitAtFirst(m: string, c: char, t: string)
    requires c !in m
    ensures Split(m + [c] + t, c) == [m] + Split(t, c)
  {
    if m != [] {
      SplitAtFirst(m[1..], c, t);
      assert (m + [c] + t)[1..] == m[1..] + [c] + t;
      assert (m + [c] + t)[0] == m[0];
      assert [m[0]] + m[1..] == m;
    }
  }

  /** Without `c` there is one piece, the whole string. */
  lemma {:induction false} SplitWithout(s: string, c: char)
    requires c !in s
    ensures Split(s, c) == [s]
  {
    if s != [] {
      SplitWithout(s[1..], c);
      assert [s[0]] + s[1..] == s;
    }
  }

  /** The first piece is empty exactly when the string is empty or starts with `c`. */
  lemma SplitFirstPieceEmpty(s: string, c: char)
    ensures Split(s, c)[0] == [] <==> s == [] || s[0] == c
  {
  }

  /** `rstrip(c)`: trailing occurrences of `c` removed. */
  function RStrip(s: string, c: char): (t: string)
    ensures |t| <= |s| && t == s[..|t|]
    ensures t != [] ==> t[|t| - 1] != c
    ensures forall k :: |t| <= k < |s| ==> s[k] == c
  {
    if s != [] && s[|s| - 1] == c then RStrip(s[..|s| - 1], c) else s
  }

  /** `lstrip(c)`: leading occurrences of `c` removed. */
  function LStrip(s: string, c: char): (t: string)
    ensures |t| <= |s| && t == s[|s| - |t|..]
    ensures t != [] ==> t[0] != c
    ensures forall k :: 0 <= k < |s| - |t| ==> s[k] == c
  {
    if s != [] && s[0] == c then LStrip(s[1..], c) else s
  }

  /** A leading zero does not change the value of a decimal numeral. */
  lemma {:induction false} LeadingZeroKeepsValue(t: string)
    requires IsDigits(t)
    ensures IsDigits("0" + t) && DecimalValue("0" + t) == DecimalValue(t)
  {
    if t != [] {
      LeadingZeroKeepsValue(t[..|t| - 1]);
      assert ("0" + t)[..|t|] == "0" + t[..|t| - 1];
    }
  }

  /** Dropping the leading zeros of a decimal numeral keeps its value. */
  lemma {:induction false} LStripZerosKeepsValue(s: string)
    requires IsDigits(s)
    ensures IsDigits(LStrip(s, '0')) && DecimalValue(LStrip(s, '0')) == DecimalValue(s)
  {
    if s != [] && s[0] == '0' {
      LStripZerosKeepsValue(s[1..]);
      LeadingZeroKeepsValue(s[1..]);
      assert s == "0" + s[1..];
    }
  }

  /**
   * The exponent of `MathTextSciFormatter.__call__`: leading zeros dropped,
   * and 0 when nothing is left.
   */
  function ExponentDigits(digits: string): (e: string)
    ensures e != [] && (e[0] == '0' ==> e == "0")
    ensures |e| <= |digits| || e == "0"
  {
    var t := LStrip(digits, '0');
    if t == [] then "0" else t
  }

  /** Without its leading zeros, and 0 when nothing is left, an exponent keeps its value. */
  lemma ExponentDigitsKeepValue(digits: string)
    requires IsDigits(digits)
    ensures IsDigits(ExponentDigits(digits)) && DecimalValue(ExponentDigits(digits)) == DecimalValue(digits)
  {
    LStripZerosKeepsValue(digits);
    if LStrip(digits, '0') == [] {
      assert DecimalValue("0") == 10 * DecimalValue([]) + 0;
    }
  }


  /** The TeX formula `$<significand>{\times}10^{<sign><exponent>}$`, without the product sign when the significand is empty. */
  function MathText(significand: string, sign: string, exponent: string): (m: string)
    ensures |m| >= 2 && m[0] == '$' && m[|m| - 1] == '$'
  {
    var power := "10^{" + sign + exponent + "}";
    "$" + (if significand != [] then significand + "{\\times}" + power else power) + "$"
  }

  /**
   * `MathTextSciFormatter.__call__` after `fmt % x`: the text before the
   * first 'e' with trailing '.' removed is the significand; the first
   * character after it is the sign, dropped when it is '+'; the rest with
   * leading zeros removed is the exponent, all put together by
   * `MathText`. No 'e', or nothing after it, raises IndexError.
   */
  function SciFormat(s: string): (r: Result<string, PyError>)
    ensures r.Ok? ==> |r.value| >= 2 && r.value[0] == '$' && r.value[|r.value| - 1] == '$'
    ensures r.Err? ==> r.error == IndexError
  {
    var tup := Split(s, 'e');
    if |tup| < 2 || tup[1] == [] then Err(IndexError)
    else
      var significand := RStrip(tup[0], '.');
      var sign := if tup[1][0] == '+' then "" else [tup[1][0]];
      Ok(MathText(significand, sign, ExponentDigits(tup[1][1..])))
  }

  /** Text without an 'e' (Python's "inf" and "nan") raises IndexError. */
  lemma SciFormatNeedsExponent(s: string)
    requires 'e' !in s
    ensures SciFormat(s) == Err(IndexError)
  {
    SplitWithout(s, 'e');
  }

  /**
   * On what `%e` produces, a mantissa, 'e', a sign and decimal digits, the
   * formula shows the mantissa without its trailing points, the product
   * sign exactly when that is not empty, the minus sign exactly when the
   * exponent is negative, and the exponent without its leading zeros
   * (which by `ExponentDigitsKeepValue` is a numeral of the same value).
   */
  lemma SciFormatOfExponentNotation(mantissa: string, sign: char, digits: string)
    requires 'e' !in mantissa && (sign == '+' || sign == '-') && IsDigits(digits)
    ensures SciFormat(mantissa + "e" + [sign] + digits).Ok?
    ensures SciFormat(mantissa + "e" + [sign] + digits).value
      == MathText(RStrip(mantissa, '.'), if sign == '-' then "-" else "", ExponentDigits(digits))
  {
    var t := [sign] + digits;
    var s := mantissa + "e" + [sign] + digits;
    assert s == mantissa + ['e'] + t;
    SplitAtFirst(mantissa, 'e', t);
    assert 'e' !in t by {
      forall k | 0 <= k < |t|
        ensures t[k] != 'e'
      {
        if k > 0 {
          assert t[k] == digits[k - 1];
        }
      }
    }
    SplitWithout(t, 'e');
    assert Split(s, 'e') == [mantissa, t];
    assert t[0] == sign && t[1..] == digits;
  }
}
