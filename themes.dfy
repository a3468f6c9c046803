/** The colour themes: the preset themes, a custom theme made of colour
    variables, the choice remembered in local storage, and `lightenColor`,
    which derives the secondary colours of a custom theme by moving each
    channel of a `#rrggbb` colour by the same amount. */
module Themes {
  import opened Wrappers
  import opened Text

  // ---------------------------------------------------------------------
  // lightenColor
  // ---------------------------------------------------------------------

  /** JavaScript's conversion of a number to a signed 32-bit integer, as
      the bitwise operators apply it. */
  function ToInt32(v: int): (r: int)
    ensures -0x8000_0000 <= r < 0x8000_0000
    ensures (r - v) % 0x1_0000_0000 == 0
    ensures 0 <= v < 0x8000_0000 ==> r == v
  {
    var m := v % 0x1_0000_0000;
    if m >= 0x8000_0000 then m - 0x1_0000_0000 else m
  }

  /** `Math.min(255, Math.max(0, x))`. */
  function Clamp(x: int): (r: int)
    ensures 0 <= r <= 255
    ensures 0 <= x <= 255 ==> r == x
    ensures x < 0 ==> r == 0
    ensures x > 255 ==> r == 255
  {
    if x < 0 then 0 else if x > 255 then 255 else x
  }

  /** The number a colour reads as: `parseInt` in base 16 of the colour
      without its first `#`, as a 32-bit integer; NaN counts as 0. */
  function ColourValue(hex: string): (v: int)
    ensures -0x8000_0000 <= v < 0x8000_0000
  {
    var n := ParseInt(DropFirst(hex, '#'), true);
    ToInt32(if n.None? then 0 else n.value)
  }

  datatype Rgb = Rgb(r: int, g: int, b: int)

  /** The three channels of a colour, each moved by `amt` and clamped:
      `num >> 16`, `num >> 8 & 0xFF` and `num & 0xFF`. */
  function Channels(hex: string, amt: int): (c: Rgb)
    ensures 0 <= c.r <= 255 && 0 <= c.g <= 255 && 0 <= c.b <= 255
  {
    Moved(ColourValue(hex), amt)
  }

  /** The channels of the number `v`, each moved by `amt` and clamped. */
  function Moved(v: int, amt: int): (c: Rgb)
    ensures 0 <= c.r <= 255 && 0 <= c.g <= 255 && 0 <= c.b <= 255
  {
    Rgb(Clamp(v / 0x10000 + amt), Clamp((v / 0x100) % 0x100 + amt), Clamp(v % 0x100 + amt))
  }

  /** `lightenColor(hex, percent)`, with `amt` the rounded amount
      `Math.round(2.55 * percent)`: the channels written back as six
      lower-case hex digits after a `#`. */
  function LightenColor(hex: string, amt: int): string {
    Written(Channels(hex, amt))
  }

  /** `"#" + (0x1000000 + (r << 16) + (g << 8) + b).toString(16).slice(1)`. */
  function Written(c: Rgb): string
    requires 0 <= c.r <= 255 && 0 <= c.g <= 255 && 0 <= c.b <= 255
  {
    "#" + HexString(0x1000000 + c.r * 0x10000 + c.g * 0x100 + c.b)[1..]
  }

  /** A channel as two lower-case hex digits. */
  function Hex2(n: nat): (s: string)
    requires n < 256
    ensures |s| == 2
    ensures ('0' <= s[0] <= '9' || 'a' <= s[0] <= 'f') && ('0' <= s[1] <= '9' || 'a' <= s[1] <= 'f')
  {
    [DigitChar(n / 16), DigitChar(n % 16)]
  }

  lemma HexSnoc(n: nat, a: nat, d: nat)
    requires a >= 1 && d < 16 && n == a * 16 + d
    ensures HexString(n) == HexString(a) + [DigitChar(d)]
  {
    assert n / 16 == a && n % 16 == d;
  }

  lemma HexAppendByte(n: nat, a: nat, c: nat)
    requires a >= 1 && c < 256 && n == a * 256 + c
    ensures HexString(n) == HexString(a) + Hex2(c)
  {
    var m := a * 16 + c / 16;
    HexSnoc(n, m, c % 16);
    HexSnoc(m, a, c / 16);
  }

  /** `(0x1000000 + r * 0x10000 + g * 0x100 + b).toString(16)`: a `1`
      and then each channel as two hex digits. */
  lemma HexOfChannels(n: nat, r: nat, g: nat, b: nat)
    requires r < 256 && g < 256 && b < 256 && n == 0x1000000 + r * 0x10000 + g * 0x100 + b
    ensures HexString(n) == "1" + Hex2(r) + Hex2(g) + Hex2(b)
  {
    var x := 256 + r;
    var y := x * 256 + g;
    assert HexString(x) == "1" + Hex2(r) by {
      HexAppendByte(x, 1, r);
      assert HexString(1) == "1";
    }
    HexAppendByte(y, x, g);
    HexAppendByte(n, y, b);
  }

  /** Channels written back are `#` and each channel as two hex digits,
      red first: always seven characters, the last six lower-case hex
      digits. */
  lemma WrittenFormat(c: Rgb)
    requires 0 <= c.r <= 255 && 0 <= c.g <= 255 && 0 <= c.b <= 255
    ensures Written(c) == "#" + Hex2(c.r) + Hex2(c.g) + Hex2(c.b)
    ensures |Written(c)| == 7 && Written(c)[0] == '#'
    ensures forall i :: 1 <= i < 7 ==> '0' <= Written(c)[i] <= '9' || 'a' <= Written(c)[i] <= 'f'
  {
    HexOfChannels(0x1000000 + c.r * 0x10000 + c.g * 0x100 + c.b, c.r, c.g, c.b);
    var s := "#" + Hex2(c.r) + Hex2(c.g) + Hex2(c.b);
    assert Written(c) == s;
    assert s[1] == Hex2(c.r)[0] && s[2] == Hex2(c.r)[1];
    assert s[3] == Hex2(c.g)[0] && s[4] == Hex2(c.g)[1];
    assert s[5] == Hex2(c.b)[0] && s[6] == Hex2(c.b)[1];
  }

  /** The colour written is `#` and each moved channel as two hex digits,
      red first: always seven characters, the last six lower-case hex
      digits. */
  lemma LightenColorFormat(hex: string, amt: int)
    ensures var c := Channels(hex, amt);
      LightenColor(hex, amt) == "#" + Hex2(c.r) + Hex2(c.g) + Hex2(c.b)
    ensures |LightenColor(hex, amt)| == 7 && LightenColor(hex, amt)[0] == '#'
    ensures forall i :: 1 <= i < 7 ==> '0' <= LightenColor(hex, amt)[i] <= '9' || 'a' <= LightenColor(hex, amt)[i] <= 'f'
  {
    WrittenFormat(Channels(hex, amt));
  }

  /** Moving by more never darkens: every channel is monotone in the
      amount, so a positive amount never lowers a channel and a negative
      one never raises it. */
  lemma ChannelsMonotone(hex: string, amt1: int, amt2: int)
    requires amt1 <= amt2
    ensures Channels(hex, amt1).r <= Channels(hex, amt2).r
    ensures Channels(hex, amt1).g <= Channels(hex, amt2).g
    ensures Channels(hex, amt1).b <= Channels(hex, amt2).b
  {
  }

  /** A `#rrggbb` colour with hex digits of either case. */
  predicate IsHexColour(hex: string) {
    |hex| == 7 && hex[0] == '#' && forall i :: 1 <= i < 7 ==> DigitValue(hex[i], 16).Some?
  }

  /** A hex digit in lower case. */
  function LowerHex(c: char): char {
    if 'A' <= c <= 'F' then (c as int - 'A' as int + 'a' as int) as char else c
  }

  function LowerHexString(s: string): (r: string)
    ensures |r| == |s|
  {
    seq(|s|, i requires 0 <= i < |s| => LowerHex(s[i]))
  }

  lemma DigitCharLower(c: char)
    requires DigitValue(c, 16).Some?
    ensures DigitChar(DigitValue(c, 16).value) == LowerHex(c)
  {
  }

  /** The value of a hex digit. */
  function HexValue(c: char): (v: nat)
    requires DigitValue(c, 16).Some?
    ensures v < 16
  {
    DigitValue(c, 16).value
  }

  /** Two hex digits read as a byte. */
  function Pair(c1: char, c2: char): (v: nat)
    requires DigitValue(c1, 16).Some? && DigitValue(c2, 16).Some?
    ensures v < 256
  {
    HexValue(c1) * 16 + HexValue(c2)
  }

  /** Two hex digits read as a channel and written back come out in lower case. */
  lemma Hex2Pair(c1: char, c2: char)
    requires DigitValue(c1, 16).Some? && DigitValue(c2, 16).Some?
    ensures Hex2(Pair(c1, c2)) == [LowerHex(c1), LowerHex(c2)]
  {
    var n := Pair(c1, c2);
    assert n / 16 == HexValue(c1) && n % 16 == HexValue(c2);
    DigitCharLower(c1);
    DigitCharLower(c2);
  }

  /** The value of six hex digits, a pair of digits per channel. */
  lemma SixDigitsValue(s: string)
    requires |s| == 6 && forall i :: 0 <= i < 6 ==> DigitValue(s[i], 16).Some?
    ensures DigitsValue(s, 16)
         == Pair(s[0], s[1]) * 0x10000
          + Pair(s[2], s[3]) * 0x100
          + Pair(s[4], s[5])
  {
    assert s[..6] == s;
    assert s[..6][..5] == s[..5];
    assert s[..5][..4] == s[..4];
    assert s[..4][..3] == s[..3];
    assert s[..3][..2] == s[..2];
    assert s[..2][..1] == s[..1];
    assert s[..1][..0] == [];
    assert DigitsValue(s[..1], 16) == HexValue(s[0]);
    assert DigitsValue(s[..2], 16) == DigitsValue(s[..1], 16) * 16 + HexValue(s[1]);
    assert DigitsValue(s[..3], 16) == DigitsValue(s[..2], 16) * 16 + HexValue(s[2]);
    assert DigitsValue(s[..4], 16) == DigitsValue(s[..3], 16) * 16 + HexValue(s[3]);
    assert DigitsValue(s[..5], 16) == DigitsValue(s[..4], 16) * 16 + HexValue(s[4]);
    assert DigitsValue(s, 16) == DigitsValue(s[..5], 16) * 16 + HexValue(s[5]);
  }

  /** The number a `#rrggbb` colour reads as: red, green and blue, a byte each. */
  lemma ColourValueOfHex(hex: string)
    requires IsHexColour(hex)
    ensures ColourValue(hex)
         == Pair(hex[1], hex[2]) * 0x10000
          + Pair(hex[3], hex[4]) * 0x100
          + Pair(hex[5], hex[6])
  {
    var s := hex[1..];
    assert DropFirst(hex, '#') == s;
    ParseHexDigits(s);
    SixDigitsValue(s);
  }

  /** The shifts and masks take a number of three bytes apart. */
  lemma Bytes(r: nat, g: nat, b: nat)
    requires r < 256 && g < 256 && b < 256
    ensures var v := r * 0x10000 + g * 0x100 + b;
      v / 0x10000 == r && (v / 0x100) % 0x100 == g && v % 0x100 == b
  {
    var v := r * 0x10000 + g * 0x100 + b;
    assert v == r * 0x10000 + (g * 0x100 + b) && 0 <= g * 0x100 + b < 0x10000;
    assert v == (r * 0x100 + g) * 0x100 + b;
    assert v / 0x100 == r * 0x100 + g;
  }

  /** The channels of a number made of three bytes are those bytes, each
      moved by the amount and clamped. */
  lemma MovedBytes(v: int, amt: int, r: nat, g: nat, b: nat)
    requires r < 256 && g < 256 && b < 256 && v == r * 0x10000 + g * 0x100 + b
    ensures Moved(v, amt) == Rgb(Clamp(r + amt), Clamp(g + amt), Clamp(b + amt))
  {
    Bytes(r, g, b);
  }

  /** Each channel of a `#rrggbb` colour is its pair of hex digits, moved
      by the amount and clamped to a byte. */
  lemma ChannelsOfHex(hex: string, amt: int)
    requires IsHexColour(hex)
    ensures Channels(hex, amt)
         == Rgb(Clamp(Pair(hex[1], hex[2]) + amt),
                Clamp(Pair(hex[3], hex[4]) + amt),
                Clamp(Pair(hex[5], hex[6]) + amt))
  {
    ColourValueOfHex(hex);
    MovedBytes(ColourValue(hex), amt, Pair(hex[1], hex[2]), Pair(hex[3], hex[4]), Pair(hex[5], hex[6]));
  }

  lemma LowerSix(hex: string)
    requires |hex| == 7
    ensures LowerHexString(hex[1..]) == [LowerHex(hex[1]), LowerHex(hex[2])] + [LowerHex(hex[3]), LowerHex(hex[4])] + [LowerHex(hex[5]), LowerHex(hex[6])]
  {
  }

  /** The channels read from a `#rrggbb` colour are written back as its
      own digits in lower case. */
  lemma WrittenPairs(hex: string)
    requires IsHexColour(hex)
    ensures Written(Rgb(Pair(hex[1], hex[2]), Pair(hex[3], hex[4]), Pair(hex[5], hex[6]))) == "#" + LowerHexString(hex[1..])
  {
    WrittenFormat(Rgb(Pair(hex[1], hex[2]), Pair(hex[3], hex[4]), Pair(hex[5], hex[6])));
    Hex2Pair(hex[1], hex[2]);
    Hex2Pair(hex[3], hex[4]);
    Hex2Pair(hex[5], hex[6]);
    LowerSix(hex);
  }

  /** Moving by nothing gives back the colour it was given, in lower case. */
  lemma LightenColorZero(hex: string)
    requires IsHexColour(hex)
    ensures LightenColor(hex, 0) == "#" + LowerHexString(hex[1..])
  {
    ChannelsOfHex(hex, 0);
    WrittenPairs(hex);
  }

  // ---------------------------------------------------------------------
  // Choosing a theme
  // ---------------------------------------------------------------------

  /** The keys of the preset themes. */
  const Presets: seq<string> := ["light", "dark", "sepia", "nord", "dracula", "solarized"]

  const ThemeKey: string := "theme"

  predicate IsPreset(name: string) {
    name in Presets
  }

  /** The colour variables of a custom theme, in order. */
  type CustomVars = seq<(string, string)>

  /** A character of a string as `JSON.stringify` writes it. */
  function EscapeChar(c: char): string {
    if c == '"' then "\\\""
    else if c == '\\' then "\\\\"
    else if c == '\n' then "\\n"
    else if c == '\r' then "\\r"
    else if c == '\t' then "\\t"
    else if c == '\U{0008}' then "\\b"
    else if c == '\U{000C}' then "\\f"
    else if (c as int) < 0x20 then "\\u00" + [DigitChar(c as int / 16), DigitChar(c as int % 16)]
    else [c]
  }

  /** A string as `JSON.stringify` writes it: quoted, with quotes,
      backslashes and control characters escaped. */
  function Quote(s: string): (q: string)
    ensures |q| >= 2 && q[0] == '"' && q[|q| - 1] == '"'
    ensures Unescaped(q[1..|q| - 1]) == s
  {
    UnescapedEscaped(s);
    assert ("\"" + Escaped(s) + "\"")[1..|Escaped(s)| + 1] == Escaped(s);
    "\"" + Escaped(s) + "\""
  }

  function Escaped(s: string): string {
    if s == [] then "" else EscapeChar(s[0]) + Escaped(s[1..])
  }

  /** The first character of an escaped string, as a JSON reader takes it
      back, with the number of characters its writing took. */
  function UnescapeFirst(s: string): (r: (char, nat))
    requires s != []
    ensures 1 <= r.1 <= |s|
  {
    if s[0] != '\\' || |s| < 2 then (s[0], 1)
    else if s[1] == 'n' then ('\n', 2)
    else if s[1] == 'r' then ('\r', 2)
    else if s[1] == 't' then ('\t', 2)
    else if s[1] == 'b' then ('\U{0008}', 2)
    else if s[1] == 'f' then ('\U{000C}', 2)
    else if s[1] == 'u' && |s| >= 6 && DigitValue(s[4], 16).Some? && DigitValue(s[5], 16).Some? then
      ((DigitValue(s[4], 16).value * 16 + DigitValue(s[5], 16).value) as char, 6)
    else (s[1], 2)
  }

  /** The characters an escaped string stands for. */
  function Unescaped(s: string): string
    decreases |s|
  {
    if s == [] then "" else [UnescapeFirst(s).0] + Unescaped(s[UnescapeFirst(s).1..])
  }

  /** Reading back the first escape of a written string gives its character. */
  lemma UnescapeEscapeChar(c: char, rest: string)
    ensures UnescapeFirst(EscapeChar(c) + rest) == (c, |EscapeChar(c)|)
  {
    var e := EscapeChar(c) + rest;
    if c != '"' && c != '\\' && c != '\n' && c != '\r' && c != '\t' && c != '\U{0008}' && c != '\U{000C}' && (c as int) < 0x20 {
      DigitCharValue(c as int / 16, 16);
      DigitCharValue(c as int % 16, 16);
      assert e[4] == DigitChar(c as int / 16) && e[5] == DigitChar(c as int % 16);
    }
  }

  /** Escaping loses nothing: a JSON reader gets every string back, so
      different strings are written differently. */
  lemma {:induction false} UnescapedEscaped(s: string)
    ensures Unescaped(Escaped(s)) == s
    decreases |s|
  {
    if s != [] {
      var e := Escaped(s);
      UnescapeEscapeChar(s[0], Escaped(s[1..]));
      assert e[|EscapeChar(s[0])|..] == Escaped(s[1..]);
      UnescapedEscaped(s[1..]);
    }
  }

  function Members(vars: CustomVars): string {
    if vars == [] then ""
    else (if |vars| > 1 then Members(vars[..|vars| - 1]) + "," else "")
         + Quote(vars[|vars| - 1].0) + ":" + Quote(vars[|vars| - 1].1)
  }

  /** `JSON.stringify` of an object of string-valued variables. */
  function Stringify(vars: CustomVars): (json: string)
    ensures |json| >= 2 && json[0] == '{' && json[|json| - 1] == '}'
  {
    "{" + Members(vars) + "}"
  }

  /** What `init` does with the saved choice. */
  datatype Choice = KeepDefault | ApplyPreset(name: string) | ApplyCustom(vars: CustomVars)

  /** Nothing saved keeps the default; a saved value starting with `{` is
      a custom theme, or `light` when it does not parse; a saved preset is
      applied; anything else keeps the default. `parse` is `JSON.parse`,
      `None` when it throws. */
  function InitChoice(saved: Option<string>, parse: string -> Option<CustomVars>): (c: Choice)
    ensures c.ApplyPreset? ==> IsPreset(c.name)
    ensures c.ApplyCustom? ==> saved.Some? && parse(saved.value) == Some(c.vars)
  {
    if saved.None? || saved.value == "" then KeepDefault
    else if StartsWith(saved.value, "{") then
      match parse(saved.value)
      case None => ApplyPreset("light")
      case Some(vars) => ApplyCustom(vars)
    else if IsPreset(saved.value) then ApplyPreset(saved.value)
    else KeepDefault
  }

  /** A preset that was applied, and so saved, is applied again on the
      next visit. */
  lemma PresetRestored(name: string, parse: string -> Option<CustomVars>)
    requires IsPreset(name)
    ensures InitChoice(Some(name), parse) == ApplyPreset(name)
  {
    assert !StartsWith(name, "{") by {
      assert name[0] != '{';
    }
  }

  /** A custom theme that was applied, and so saved as JSON, is applied
      again on the next visit when that JSON reads back as the variables. */
  lemma CustomRestored(vars: CustomVars, parse: string -> Option<CustomVars>)
    requires parse(Stringify(vars)) == Some(vars)
    ensures InitChoice(Some(Stringify(vars)), parse) == ApplyCustom(vars)
  {
    assert StartsWith(Stringify(vars), "{");
  }

  /** The theme in use and the browser's local storage. */
  class ThemeManager {
    var currentTheme: string
    var storage: map<string, string>

    constructor(storage: map<string, string>)
      ensures currentTheme == "light" && this.storage == storage
    {
      currentTheme := "light";
      this.storage := storage;
    }

    /** `applyTheme`: a preset becomes the current theme and is saved; any
        other name is ignored. */
    method ApplyTheme(name: string)
      modifies this
      ensures IsPreset(name) ==> currentTheme == name && storage == old(storage)[ThemeKey := name]
      ensures !IsPreset(name) ==> currentTheme == old(currentTheme) && storage == old(storage)
    {
      if !IsPreset(name) {
        return;
      }
      currentTheme := name;
      storage := storage[ThemeKey := name];
    }

    /** `applyCustomTheme`: the custom theme becomes current and its
        variables are saved as JSON. */
    method ApplyCustomTheme(vars: CustomVars)
      modifies this
      ensures currentTheme == "custom" && storage == old(storage)[ThemeKey := Stringify(vars)]
    {
      currentTheme := "custom";
      storage := storage[ThemeKey := Stringify(vars)];
    }

    /** `init`: applies what was saved, as `InitChoice` decides. */
    method Init(parse: string -> Option<CustomVars>)
      modifies this
      ensures var choice := InitChoice(if ThemeKey in old(storage) then Some(old(storage)[ThemeKey]) else None, parse);
        match choice
        case KeepDefault => currentTheme == old(currentTheme) && storage == old(storage)
        case ApplyPreset(name) => currentTheme == name && storage == old(storage)[ThemeKey := name]
        case ApplyCustom(vars) => currentTheme == "custom" && storage == old(storage)[ThemeKey := Stringify(vars)]
    {
      if ThemeKey in storage && storage[ThemeKey] != "" {
        var saved := storage[ThemeKey];
        if StartsWith(saved, "{") {
          match parse(saved) {
            case Some(vars) => ApplyCustomTheme(vars);
            case None => ApplyTheme("light");
          }
        } else if IsPreset(saved) {
          ApplyTheme(saved);
        }
      }
    }
  }
}
