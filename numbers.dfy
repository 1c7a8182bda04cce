/**
 * `Number.parseInt(s)` without a radix, as section 19.2.5 of ECMAScript
 * 2024 defines it, over unbounded integers: leading white space is skipped,
 * one sign is read, a `0x`/`0X` prefix selects base 16, and the longest run
 * of digits of the base is read; no digit at all gives NaN, here `None`.
 */
module Numbers {
  import opened Optional
  import opened Text

  /** The value of a digit character in bases up to 36; 36 for any other character. */
  function DigitValue(c: char): (d: nat)
    ensures d <= 36
  {
    if '0' <= c <= '9' then (c - '0') as nat
    else if 'a' <= c <= 'z' then (c - 'a') as nat + 10
    else if 'A' <= c <= 'Z' then (c - 'A') as nat + 10
    else 36
  }

  /** The length of the run of base-`radix` digits at the start of `s`. */
  function DigitRun(s: string, radix: nat): (k: nat)
    ensures k <= |s|
    ensures forall i :: 0 <= i < k ==> DigitValue(s[i]) < radix
    ensures k < |s| ==> DigitValue(s[k]) >= radix
  {
    if s != [] && DigitValue(s[0]) < radix then 1 + DigitRun(s[1..], radix) else 0
  }

  /** The number the digits of `s` spell in base `radix`, most significant first. */
  function DigitsValue(s: string, radix: nat): nat {
    if s == [] then 0 else DigitsValue(s[..|s| - 1], radix) * radix + DigitValue(s[|s| - 1])
  }

  /** `S` after the optional sign, and whether that sign was `-`. */
  function Unsigned(t: string): (string, bool) {
    if t != [] && (t[0] == '-' || t[0] == '+') then (t[1..], t[0] == '-') else (t, false)
  }

  /** A `0x` or `0X` prefix. */
  predicate HexPrefixed(u: string) {
    |u| >= 2 && u[0] == '0' && (u[1] == 'x' || u[1] == 'X')
  }

  /**
   * `Number.parseInt(s)`: `None` for NaN. The result is `None` exactly when
   * no digit of the chosen base follows the white space, the sign and the
   * prefix.
   */
  function ParseInt(s: string): (r: Option<int>)
    ensures var (u, _) := Unsigned(TrimStart(s));
            var body := if HexPrefixed(u) then u[2..] else u;
            var radix := if HexPrefixed(u) then 16 else 10;
            r.None? <==> body == [] || DigitValue(body[0]) >= radix
  {
    var (u, negative) := Unsigned(TrimStart(s));
    var radix := if HexPrefixed(u) then 16 else 10;
    var body := if HexPrefixed(u) then u[2..] else u;
    var k := DigitRun(body, radix);
    if k == 0 then None
    else
      var n: int := DigitsValue(body[..k], radix);
      Some(if negative then -n else n)
  }

  /** The decimal digit for `d < 10`. */
  function DigitChar(d: nat): (c: char)
    requires d < 10
    ensures DigitValue(c) == d
  {
    ('0' as int + d) as char
  }

  /** `String(n)` for a natural number: its decimal digits, no sign, no leading zero. */
  function Show(n: nat): (s: string)
    ensures |s| >= 1
    ensures forall i :: 0 <= i < |s| ==> DigitValue(s[i]) < 10
    ensures s[0] == '0' ==> n == 0 && s == "0"
  {
    if n < 10 then [DigitChar(n)] else Show(n / 10) + [DigitChar(n % 10)]
  }

  /** Reading back the decimal digits of `n` gives `n`. */
  lemma {:induction false} ShowValue(n: nat)
    ensures DigitsValue(Show(n), 10) == n
  {
    if n >= 10 {
      var s := Show(n);
      assert s[..|s| - 1] == Show(n / 10);
      ShowValue(n / 10);
    }
  }

  /** A run of base-10 digits starting with a digit is not white space. */
  lemma DigitNotSpace(c: char)
    requires DigitValue(c) < 10
    ensures !IsSpace(c) && c != '-' && c != '+'
  {
  }

  /** The digit run of `Show(n) + tail` stops where the tail starts with a non-digit. */
  lemma DigitRunOfShow(n: nat, tail: string)
    requires tail == [] || DigitValue(tail[0]) >= 10
    ensures DigitRun(Show(n) + tail, 10) == |Show(n)|
    ensures (Show(n) + tail)[..|Show(n)|] == Show(n)
  {
    var s := Show(n) + tail;
    assert forall i :: 0 <= i < |Show(n)| ==> s[i] == Show(n)[i];
    assert |s| > |Show(n)| ==> s[|Show(n)|] == tail[0];
  }

  /**
   * `parseInt(String(n) + tail)` is `n` when the tail does not start with a
   * digit (nor with `x`, which after a lone `0` would select base 16):
   * parsing stops at the first non-digit.
   */
  lemma ParseShown(n: nat, tail: string)
    requires tail == [] || (DigitValue(tail[0]) >= 10 && tail[0] != 'x' && tail[0] != 'X')
    ensures ParseInt(Show(n) + tail) == Some(n)
  {
    var s := Show(n) + tail;
    DigitNotSpace(s[0]);
    assert TrimStart(s) == s;
    assert !HexPrefixed(s) by {
      if |s| >= 2 && s[0] == '0' {
        assert |Show(n)| == 1;
        assert s[1] == tail[0];
      }
    }
    DigitRunOfShow(n, tail);
    ShowValue(n);
  }

  /** The round trip: `parseInt(String(n)) == n`. */
  lemma ParseShow(n: nat)
    ensures ParseInt(Show(n)) == Some(n)
  {
    ParseShown(n, []);
    assert Show(n) + [] == Show(n);
  }

  /** `parseInt("-" + String(n)) == -n`. */
  lemma ParseNegativeShown(n: nat)
    ensures ParseInt("-" + Show(n)) == Some(-(n as int))
  {
    var s := "-" + Show(n);
    assert s[0] == '-' && !IsSpace(s[0]);
    assert LeadingSpaces(s) == 0;
    assert TrimStart(s) == s;
    assert s[1..] == Show(n);
    assert Unsigned(s) == (Show(n), true);
    DigitNotSpace(Show(n)[0]);
    assert !HexPrefixed(Show(n));
    DigitRunOfShow(n, []);
    assert Show(n) + [] == Show(n);
    ShowValue(n);
  }

  /** A decimal with no integer part, such as `.5`, parses to NaN: `.` is no digit. */
  lemma ParseLeadingPoint(s: string)
    requires s != [] && s[0] == '.'
    ensures ParseInt(s) == None
  {
    assert !IsSpace(s[0]);
    assert LeadingSpaces(s) == 0;
    assert TrimStart(s) == s;
    assert Unsigned(s) == (s, false);
  }

  /** A blank field parses to NaN. */
  lemma ParseBlank(s: string)
    requires AllSpace(s)
    ensures ParseInt(s) == None
  {
  }
}
