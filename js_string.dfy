/**
 * The JavaScript string and number primitives the application relies on:
 * `Number(s)`, `String(n)`, `split(':')`, `trim`, `toLowerCase`,
 * NFD folding followed by removal of combining marks, and `includes`.
 */
module JsString {

  /** A JavaScript number, restricted to what the application produces: an integer or NaN. */
  datatype JsNum = Int(v: int) | NaN

  /** `a <= b` on JavaScript numbers: false as soon as one side is NaN. */
  predicate NumLe(a: JsNum, b: JsNum)
  {
    a.Int? && b.Int? && a.v <= b.v
  }

  /** `a < b` on JavaScript numbers: false as soon as one side is NaN. */
  predicate NumLt(a: JsNum, b: JsNum)
  {
    a.Int? && b.Int? && a.v < b.v
  }

  // ---------------------------------------------------------------------------
  // Decimal digits

  predicate IsDigit(c: char)
  {
    '0' <= c <= '9'
  }

  predicate AllDigits(s: string)
  {
    forall i :: 0 <= i < |s| ==> IsDigit(s[i])
  }

  function DigitValue(c: char): nat
    requires IsDigit(c)
  {
    c as int - '0' as int
  }

  function DigitChar(d: nat): (c: char)
    requires d < 10
    ensures IsDigit(c) && DigitValue(c) == d
  {
    ('0' as int + d) as char
  }

  /** The value of a string of decimal digits, read left to right. */
  function DigitsValue(s: string): nat
    requires AllDigits(s)
  {
    if |s| == 0 then 0 else DigitsValue(s[..|s| - 1]) * 10 + DigitValue(s[|s| - 1])
  }

  /**
   * `Number(s)`: the empty string is 0 and a string of decimal digits is its value;
   * every other string is NaN in this model.
   */
  function ToNumber(s: string): (r: JsNum)
    ensures r.Int? ==> r.v >= 0
  {
    if AllDigits(s) then Int(DigitsValue(s)) else NaN
  }

  /** `String(n)` for a non-negative integer: its decimal digits, without leading zeros. */
  function NatStr(n: nat): string
  {
    if n < 10 then [DigitChar(n)] else NatStr(n / 10) + [DigitChar(n % 10)]
  }

  /** `String(n)` is a non-empty string of decimal digits. */
  lemma {:induction false} NatStrDigits(n: nat)
    ensures 1 <= |NatStr(n)| && AllDigits(NatStr(n))
  {
    if n >= 10 {
      NatStrDigits(n / 10);
    }
  }

  lemma DigitsValueSnoc(s: string, c: char)
    requires AllDigits(s) && IsDigit(c)
    ensures AllDigits(s + [c]) && DigitsValue(s + [c]) == DigitsValue(s) * 10 + DigitValue(c)
  {
    assert (s + [c])[..|s|] == s;
  }

  /** A two-digit string is worth ten times its first digit plus its second. */
  lemma TwoDigits(a: char, b: char)
    requires IsDigit(a) && IsDigit(b)
    ensures AllDigits([a, b]) && DigitsValue([a, b]) == 10 * DigitValue(a) + DigitValue(b)
  {
    DigitsValueSnoc([a], b);
    assert [a] + [b] == [a, b];
    assert [a][..0] == [];
  }

  /** Reading back the digits `String(n)` writes gives `n`. */
  lemma {:induction false} NatStrValue(n: nat)
    ensures AllDigits(NatStr(n)) && DigitsValue(NatStr(n)) == n
  {
    NatStrDigits(n);
    if n >= 10 {
      NatStrValue(n / 10);
      DigitsValueSnoc(NatStr(n / 10), DigitChar(n % 10));
    }
  }

  /** A leading zero does not change the value of a digit string. */
  lemma {:induction false} LeadingZero(s: string)
    requires AllDigits(s)
    ensures AllDigits("0" + s) && DigitsValue("0" + s) == DigitsValue(s)
  {
    if |s| > 0 {
      var init := s[..|s| - 1];
      LeadingZero(init);
      assert ("0" + s)[..|"0" + s| - 1] == "0" + init;
    }
  }

  /** The number of decimal digits `String(n)` uses. */
  lemma NatStrShort(n: nat)
    ensures n < 10 ==> |NatStr(n)| == 1
    ensures 10 <= n < 100 ==> |NatStr(n)| == 2
  {
  }

  // ---------------------------------------------------------------------------
  // split(':') — the part before the first separator and the rest after it

  /** The text before the first `c` (the whole string when there is none). */
  function Before(s: string, c: char): (r: string)
    ensures c !in r
    ensures |r| <= |s| && r == s[..|r|]
    ensures c !in s ==> r == s
  {
    if |s| == 0 then "" else if s[0] == c then "" else [s[0]] + Before(s[1..], c)
  }

  /** The text after the first `c`. */
  function After(s: string, c: char): string
    requires c in s
  {
    if s[0] == c then s[1..] else After(s[1..], c)
  }

  /** Splitting `a + c + b` where `a` has no `c` gives back `a` and `b`. */
  lemma {:induction false} SplitAt(a: string, c: char, b: string)
    requires c !in a
    ensures c in a + [c] + b
    ensures Before(a + [c] + b, c) == a && After(a + [c] + b, c) == b
  {
    if |a| > 0 {
      SplitAt(a[1..], c, b);
      assert (a + [c] + b)[1..] == a[1..] + [c] + b;
    } else {
      assert a + [c] + b == [c] + b;
    }
  }

  // ---------------------------------------------------------------------------
  // Whitespace and trim

  /** The characters JavaScript's `\s` and `String.prototype.trim` treat as white space. */
  predicate IsSpace(c: char)
  {
    var n := c as int;
    n == 0x09 || n == 0x0A || n == 0x0B || n == 0x0C || n == 0x0D || n == 0x20 ||
    n == 0xA0 || n == 0x1680 || (0x2000 <= n <= 0x200A) || n == 0x2028 || n == 0x2029 ||
    n == 0x202F || n == 0x205F || n == 0x3000 || n == 0xFEFF
  }

  function TrimStart(s: string): (r: string)
    ensures |r| <= |s|
    ensures r == s[|s| - |r|..]
    ensures r != "" ==> !IsSpace(r[0])
  {
    if |s| > 0 && IsSpace(s[0]) then TrimStart(s[1..]) else s
  }

  function TrimEnd(s: string): (r: string)
    ensures |r| <= |s|
    ensures r == s[..|r|]
    ensures r != "" ==> !IsSpace(r[|r| - 1])
  {
    if |s| > 0 && IsSpace(s[|s| - 1]) then TrimEnd(s[..|s| - 1]) else s
  }

  /** `s.trim()`: white space removed at both ends. */
  function Trim(s: string): (r: string)
    ensures r != "" ==> !IsSpace(r[0]) && !IsSpace(r[|r| - 1])
  {
    TrimEnd(TrimStart(s))
  }

  /** A string that is empty after `trim()`. */
  predicate IsBlank(s: string)
  {
    Trim(s) == ""
  }

  // ---------------------------------------------------------------------------
  // toLowerCase and accent folding (Latin-1 letters)

  /** `toLowerCase` on one character: ASCII and the Latin-1 capitals (not U+00D7). */
  function LowerChar(c: char): char
  {
    var n := c as int;
    if 'A' <= c <= 'Z' || (0xC0 <= n <= 0xDE && n != 0xD7) then (n + 32) as char else c
  }

  function Lower(s: string): (r: string)
    ensures |r| == |s|
    ensures forall i :: 0 <= i < |s| ==> r[i] == LowerChar(s[i])
  {
    if |s| == 0 then "" else [LowerChar(s[0])] + Lower(s[1..])
  }

  /** A combining mark, U+0300 to U+036F, which the application strips after NFD. */
  predicate IsCombiningMark(c: char)
  {
    0x300 <= c as int <= 0x36F
  }

  /** The base letter NFD leaves of a precomposed Latin-1 letter once its marks are gone. */
  function BaseLetter(c: char): char
  {
    var n := c as int;
    if 0xE0 <= n <= 0xE5 then 'a'
    else if n == 0xE7 then 'c'
    else if 0xE8 <= n <= 0xEB then 'e'
    else if 0xEC <= n <= 0xEF then 'i'
    else if n == 0xF1 then 'n'
    else if 0xF2 <= n <= 0xF6 then 'o'
    else if 0xF9 <= n <= 0xFC then 'u'
    else if n == 0xFD || n == 0xFF then 'y'
    else if 0xC0 <= n <= 0xC5 then 'A'
    else if n == 0xC7 then 'C'
    else if 0xC8 <= n <= 0xCB then 'E'
    else if 0xCC <= n <= 0xCF then 'I'
    else if n == 0xD1 then 'N'
    else if 0xD2 <= n <= 0xD6 then 'O'
    else if 0xD9 <= n <= 0xDC then 'U'
    else if n == 0xDD then 'Y'
    else c
  }

  /** `normalize('NFD').replace(/[̀-ͯ]/g, '')`. */
  function StripAccents(s: string): (r: string)
    ensures |r| <= |s|
    ensures forall i :: 0 <= i < |r| ==> !IsCombiningMark(r[i]) && r[i] == BaseLetter(r[i])
  {
    if |s| == 0 then ""
    else if IsCombiningMark(s[0]) then StripAccents(s[1..])
    else [BaseLetter(s[0])] + StripAccents(s[1..])
  }

  // ---------------------------------------------------------------------------
  // includes

  /** `s.includes(sub)`. */
  predicate Contains(s: string, sub: string)
  {
    exists i :: 0 <= i <= |s| - |sub| && sub <= s[i..]
  }

  lemma ContainsEmpty(s: string)
    ensures Contains(s, "")
  {
    assert "" <= s[0..];
  }

  /** `parts.join(sep)`: the parts in order with `sep` between neighbours. */
  function Join(parts: seq<string>, sep: string): string
  {
    if |parts| == 0 then ""
    else if |parts| == 1 then parts[0]
    else parts[0] + sep + Join(parts[1..], sep)
  }

  /** Joining one more part appends the separator and that part. */
  lemma {:induction false} JoinAppend(parts: seq<string>, p: string, sep: string)
    requires |parts| > 0
    ensures Join(parts + [p], sep) == Join(parts, sep) + sep + p
  {
    if |parts| > 1 {
      JoinAppend(parts[1..], p, sep);
      assert (parts + [p])[1..] == parts[1..] + [p];
    } else {
      assert (parts + [p])[1..] == [p];
    }
  }
}
