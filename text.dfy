/** String helpers with the meaning the browser gives them: prefix and
    suffix tests, substring search, decimal rendering of numbers and
    `parseInt` on a string. */
module Text {
  import opened Wrappers

  predicate StartsWith(s: string, p: string) {
    |p| <= |s| && s[..|p|] == p
  }

  predicate EndsWith(s: string, p: string) {
    |p| <= |s| && s[|s| - |p|..] == p
  }

  /** `s.includes(p)`. */
  predicate Contains(s: string, p: string)
    decreases |s|
  {
    StartsWith(s, p) || (|s| > 0 && Contains(s[1..], p))
  }

  /** `s.replace(/p$/, '')`: drops one trailing `p`, if there is one. */
  function DropSuffix(s: string, p: string): (r: string)
    ensures EndsWith(s, p) ==> r + p == s
    ensures !EndsWith(s, p) ==> r == s
  {
    if EndsWith(s, p) then s[..|s| - |p|] else s
  }

  /** `s.replace(/^p/, '')`: drops one leading `p`, if there is one. */
  function DropPrefix(s: string, p: string): (r: string)
    ensures StartsWith(s, p) ==> p + r == s
    ensures !StartsWith(s, p) ==> r == s
  {
    if StartsWith(s, p) then s[|p|..] else s
  }

  /** `s.replace(c, '')` with a one-character pattern: only the first occurrence goes. */
  function DropFirst(s: string, c: char): (r: string)
    ensures c !in s ==> r == s
    ensures c in s ==> |r| == |s| - 1
  {
    if s == [] then []
    else if s[0] == c then s[1..]
    else [s[0]] + DropFirst(s[1..], c)
  }

  /** `String(b)`, as a boolean is written into local storage. */
  function BoolString(b: bool): (s: string)
    ensures s == "true" <==> b
  {
    if b then "true" else "false"
  }

  // ---------------------------------------------------------------------
  // Numbers as text
  // ---------------------------------------------------------------------

  /** The lower-case digit for `d` in base 16 (or 10). */
  function DigitChar(d: nat): (c: char)
    requires d < 16
    ensures '0' <= c <= '9' || 'a' <= c <= 'f'
  {
    if d < 10 then ('0' as int + d) as char else ('a' as int + d - 10) as char
  }

  /** The value of `c` as a digit in `base` (10 or 16), if it is one. */
  function DigitValue(c: char, base: nat): (r: Option<nat>)
    ensures r.Some? ==> r.value < base
  {
    if '0' <= c <= '9' && (c as int - '0' as int) < base then Some(c as int - '0' as int)
    else if base == 16 && 'a' <= c <= 'f' then Some(c as int - 'a' as int + 10)
    else if base == 16 && 'A' <= c <= 'F' then Some(c as int - 'A' as int + 10)
    else None
  }

  lemma DigitCharValue(d: nat, base: nat)
    requires d < base && (base == 10 || base == 16)
    ensures DigitValue(DigitChar(d), base) == Some(d)
  {
  }

  /** `String(n)` for a natural number: its decimal digits. */
  function DecimalString(n: nat): (s: string)
    ensures |s| > 0
    ensures forall i :: 0 <= i < |s| ==> '0' <= s[i] <= '9'
    ensures n > 0 ==> s[0] != '0'
  {
    if n < 10 then [DigitChar(n)] else DecimalString(n / 10) + [DigitChar(n % 10)]
  }

  /** A string's `length` in JavaScript: the number of UTF-16 code units,
      two for a character outside the Basic Multilingual Plane. */
  function Utf16Length(s: string): (n: nat)
    ensures |s| <= n <= 2 * |s|
    ensures n == 0 <==> s == []
  {
    if s == [] then 0 else (if s[0] as int >= 0x1_0000 then 2 else 1) + Utf16Length(s[1..])
  }

  /** Lower-case hexadecimal digits of `n`, as `n.toString(16)`. */
  function HexString(n: nat): (s: string)
    ensures |s| > 0
  {
    if n < 16 then [DigitChar(n)] else HexString(n / 16) + [DigitChar(n % 16)]
  }

  /** The length of the longest prefix of `s` made of digits of `base`. */
  function DigitRun(s: string, base: nat): (k: nat)
    ensures k <= |s|
    ensures forall i :: 0 <= i < k ==> DigitValue(s[i], base).Some?
    ensures k < |s| ==> DigitValue(s[k], base).None?
  {
    if s == [] || DigitValue(s[0], base).None? then 0 else 1 + DigitRun(s[1..], base)
  }

  /** The value of a string of digits of `base`, most significant first. */
  function DigitsValue(s: string, base: nat): nat
    requires forall i :: 0 <= i < |s| ==> DigitValue(s[i], base).Some?
    decreases |s|
  {
    if s == [] then 0
    else DigitsValue(s[..|s| - 1], base) * base + DigitValue(s[|s| - 1], base).value
  }

  /** The white space and line terminators JavaScript's `parseInt` skips:
      tab, vertical tab, form feed, space, no-break space, the byte-order
      mark, the space separators of Unicode category Zs, line feed,
      carriage return and the line and paragraph separators. */
  predicate IsSpace(c: char) {
    || c == '\t' || c == '\U{000B}' || c == '\U{000C}' || c == ' ' || c == '\U{00A0}' || c == '\U{FEFF}'
    || c == '\U{1680}' || ('\U{2000}' <= c <= '\U{200A}') || c == '\U{202F}' || c == '\U{205F}' || c == '\U{3000}'
    || c == '\n' || c == '\r' || c == '\U{2028}' || c == '\U{2029}'
  }

  function SkipSpaces(s: string): (r: string)
    ensures |r| <= |s|
    ensures r != [] ==> !IsSpace(r[0])
  {
    if s != [] && IsSpace(s[0]) then SkipSpaces(s[1..]) else s
  }

  /** JavaScript's `parseInt(s)` (`hex` false) or `parseInt(s, 16)` (`hex` true):
      leading white space, an optional sign, an optional `0x`/`0X` (which
      switches `parseInt(s)` to base 16), then the longest run of digits;
      `None` stands for NaN, when that run is empty. */
  function ParseInt(s: string, hex: bool): (r: Option<int>)
  {
    var t := SkipSpaces(s);
    var negative := |t| > 0 && t[0] == '-';
    var u := if |t| > 0 && (t[0] == '-' || t[0] == '+') then t[1..] else t;
    var prefixed := |u| >= 2 && u[0] == '0' && (u[1] == 'x' || u[1] == 'X');
    var base := if hex || prefixed then 16 else 10;
    var w := if prefixed then u[2..] else u;
    var k := DigitRun(w, base);
    if k == 0 then None
    else
      var v: int := DigitsValue(w[..k], base);
      Some(if negative then -v else v)
  }

  lemma {:induction false} DigitRunAll(s: string, base: nat)
    requires forall i :: 0 <= i < |s| ==> DigitValue(s[i], base).Some?
    ensures DigitRun(s, base) == |s|
    decreases |s|
  {
    if s != [] {
      DigitRunAll(s[1..], base);
    }
  }

  lemma DigitsValueSnoc(a: string, c: char, base: nat)
    requires forall i :: 0 <= i < |a| ==> DigitValue(a[i], base).Some?
    requires DigitValue(c, base).Some?
    ensures forall i :: 0 <= i < |a + [c]| ==> DigitValue((a + [c])[i], base).Some?
    ensures DigitsValue(a + [c], base) == DigitsValue(a, base) * base + DigitValue(c, base).value
  {
    assert (a + [c])[..|a|] == a;
  }

  lemma {:induction false} DecimalValue(n: nat)
    ensures forall i :: 0 <= i < |DecimalString(n)| ==> DigitValue(DecimalString(n)[i], 10).Some?
    ensures DigitsValue(DecimalString(n), 10) == n
  {
    if n >= 10 {
      DecimalValue(n / 10);
      DigitCharValue(n % 10, 10);
      DigitsValueSnoc(DecimalString(n / 10), DigitChar(n % 10), 10);
    } else {
      DigitCharValue(n, 10);
    }
  }

  lemma {:induction false} HexDigitsValue(n: nat)
    ensures forall i :: 0 <= i < |HexString(n)| ==> DigitValue(HexString(n)[i], 16).Some?
    ensures DigitsValue(HexString(n), 16) == n
  {
    if n >= 16 {
      HexDigitsValue(n / 16);
      DigitCharValue(n % 16, 16);
      DigitsValueSnoc(HexString(n / 16), DigitChar(n % 16), 16);
    } else {
      DigitCharValue(n, 16);
    }
  }

  /** A non-empty string of decimal digits reads as its value. */
  lemma ParseDigits(s: string)
    requires |s| > 0 && forall i :: 0 <= i < |s| ==> '0' <= s[i] <= '9'
    ensures forall i :: 0 <= i < |s| ==> DigitValue(s[i], 10).Some?
    ensures ParseInt(s, false) == Some(DigitsValue(s, 10))
  {
    assert forall i :: 0 <= i < |s| ==> DigitValue(s[i], 10).Some?;
    ParsePlain(s, false);
    DigitRunAll(s, 10);
    assert s[..|s|] == s;
  }

  /** Reading back a number written in decimal gives the number. */
  lemma DecimalRoundTrip(n: nat)
    ensures ParseInt(DecimalString(n), false) == Some(n)
  {
    DecimalValue(n);
    ParseDigits(DecimalString(n));
  }

  /** `parseInt` of a string that starts with neither white space, a
      sign nor `0x`: the longest run of digits of the base. */
  lemma ParsePlain(s: string, hex: bool)
    requires s != [] && !IsSpace(s[0]) && s[0] != '-' && s[0] != '+'
    requires !(|s| >= 2 && s[0] == '0' && (s[1] == 'x' || s[1] == 'X'))
    ensures var base := if hex then 16 else 10;
      var k := DigitRun(s, base);
      ParseInt(s, hex) == if k == 0 then None else Some(DigitsValue(s[..k], base))
  {
    assert SkipSpaces(s) == s;
  }

  /** A non-empty string of hexadecimal digits reads, in base 16, as its value. */
  lemma ParseHexDigits(s: string)
    requires |s| > 0 && forall i :: 0 <= i < |s| ==> DigitValue(s[i], 16).Some?
    ensures ParseInt(s, true) == Some(DigitsValue(s, 16))
  {
    assert DigitValue(s[0], 16).Some?;
    assert |s| >= 2 ==> DigitValue(s[1], 16).Some?;
    ParsePlain(s, true);
    DigitRunAll(s, 16);
    assert s[..|s|] == s;
  }

  /** Reading back, with `parseInt(s, 16)`, a number written with
      `toString(16)` gives the number. */
  lemma HexRoundTrip(n: nat)
    ensures ParseInt(HexString(n), true) == Some(n)
  {
    HexDigitsValue(n);
    ParseHexDigits(HexString(n));
  }
}
