/** Select Graphic Rendition: the parameter text of `CSI ... m` applied to a style. */
module Sgr {
  import opened Text

  /** Colours are "" (default) or "#rrggbb". */
  datatype Style = Style(foreground: string, background: string, bold: bool, faint: bool,
                         italic: bool, underline: bool, inverse: bool, strike: bool)

  const DEFAULT_STYLE := Style("", "", false, false, false, false, false, false)

  const SEMICOLON: byte := 0x3b
  const COLON: byte := 0x3a

  // ----- Colours

  predicate LowerHex(c: char) { '0' <= c <= '9' || 'a' <= c <= 'f' }

  function HexDigit(n: int): (c: char)
    requires 0 <= n < 16
    ensures LowerHex(c)
  {
    "0123456789abcdef"[n]
  }

  function Hex2(n: int): (s: string)
    requires 0 <= n <= 255
    ensures |s| == 2 && LowerHex(s[0]) && LowerHex(s[1])
  {
    [HexDigit(n / 16), HexDigit(n % 16)]
  }

  predicate ValidRgb(red: int, green: int, blue: int) {
    0 <= red <= 255 && 0 <= green <= 255 && 0 <= blue <= 255
  }

  function RgbColor(red: int, green: int, blue: int): (s: string)
    requires ValidRgb(red, green, blue)
    ensures HexColor(s)
  {
    "#" + Hex2(red) + Hex2(green) + Hex2(blue)
  }

  // ----- Colours read back

  /** The value of a base-16 digit, by its code: '0' is 48 and 'a' is 97. */
  function DigitValue(c: char): int { if c as int < 97 then c as int - 48 else c as int - 97 + 10 }

  /** The k-th channel of a colour: its digits 2k+1 and 2k+2 as a base-16 number. */
  function Shade(color: string, k: int): int
    requires HexColor(color) && 0 <= k < 3
  {
    16 * DigitValue(color[2 * k + 1]) + DigitValue(color[2 * k + 2])
  }

  predicate Spells(color: string, red: int, green: int, blue: int) {
    HexColor(color) && Shade(color, 0) == red && Shade(color, 1) == green && Shade(color, 2) == blue
  }

  lemma HexDigitValue(n: int)
    requires 0 <= n < 16
    ensures DigitValue(HexDigit(n)) == n
  {
  }

  lemma DigitBack(c: char)
    requires LowerHex(c)
    ensures 0 <= DigitValue(c) < 16 && HexDigit(DigitValue(c)) == c
  {
  }

  lemma RgbSpells(red: int, green: int, blue: int)
    requires ValidRgb(red, green, blue)
    ensures Spells(RgbColor(red, green, blue), red, green, blue)
  {
    HexDigitValue(red / 16);
    HexDigitValue(red % 16);
    HexDigitValue(green / 16);
    HexDigitValue(green % 16);
    HexDigitValue(blue / 16);
    HexDigitValue(blue % 16);
  }

  /** The channels determine the colour. */
  lemma SpellsOne(a: string, b: string, red: int, green: int, blue: int)
    requires Spells(a, red, green, blue) && Spells(b, red, green, blue)
    ensures a == b
  {
    forall i | 1 <= i < 7
      ensures a[i] == b[i]
    {
      var k := (i - 1) / 2;
      assert Shade(a, k) == Shade(b, k);
      assert i == 2 * k + 1 || i == 2 * k + 2;
      SamePair(a[2 * k + 1], a[2 * k + 2], b[2 * k + 1], b[2 * k + 2]);
    }
  }

  lemma SamePair(a: char, b: char, c: char, d: char)
    requires LowerHex(a) && LowerHex(b) && LowerHex(c) && LowerHex(d)
    requires 16 * DigitValue(a) + DigitValue(b) == 16 * DigitValue(c) + DigitValue(d)
    ensures a == c && b == d
  {
    hide DigitValue, HexDigit;
    DigitBack(a);
    DigitBack(b);
    DigitBack(c);
    DigitBack(d);
    SameDigits(DigitValue(a), DigitValue(b), DigitValue(c), DigitValue(d));
  }

  lemma SameDigits(a: int, b: int, c: int, d: int)
    requires 0 <= a < 16 && 0 <= b < 16 && 0 <= c < 16 && 0 <= d < 16 && 16 * a + b == 16 * c + d
    ensures a == c && b == d
  {
  }

  // ----- The palette

  const BASE_COLORS: seq<string> := [
    "#000000", "#cd0000", "#00cd00", "#cdcd00", "#0000ee", "#cd00cd", "#00cdcd", "#e5e5e5",
    "#7f7f7f", "#ff0000", "#00ff00", "#ffff00", "#5c5cff", "#ff00ff", "#00ffff", "#ffffff"]

  const LEVELS: seq<int> := [0, 95, 135, 175, 215, 255]

  function AnsiColor(index: int): (s: string)
    ensures 0 <= index <= 255 ==> HexColor(s)
    ensures !(0 <= index <= 255) ==> s == ""
  {
    if 0 <= index < 16 then BASE_COLORS[index]
    else if 16 <= index <= 231 then
      var value := index - 16;
      RgbColor(LEVELS[value / 36], LEVELS[value / 6 % 6], LEVELS[value % 6])
    else if 232 <= index <= 255 then
      var level := 8 + (index - 232) * 10;
      RgbColor(level, level, level)
    else ""
  }

  predicate HexColor(s: string) {
    |s| == 7 && s[0] == '#' && forall i :: 1 <= i < 7 ==> LowerHex(s[i])
  }

  predicate ColorsOk(style: Style) {
    && (style.foreground == "" || HexColor(style.foreground))
    && (style.background == "" || HexColor(style.background))
  }

  // ----- Numbers

  predicate IsDigit(b: byte) { 0x30 <= b <= 0x39 }

  function DigitsValue(s: seq<byte>): nat
    requires forall b :: b in s ==> IsDigit(b)
  {
    if s == [] then 0
    else
      assert IsDigit(s[|s| - 1]);
      DigitsValue(s[..|s| - 1]) * 10 + (s[|s| - 1] as int - 0x30)
  }

  /** strconv.Atoi: optional sign, at least one digit, 64-bit range. */
  function Atoi(s: seq<byte>): Option<int>
  {
    var signed := |s| > 0 && s[0] in {0x2b, 0x2d};
    var digits := if signed then s[1..] else s;
    if digits == [] || exists b :: b in digits && !IsDigit(b) then None
    else
      var value: int := if signed && s[0] == 0x2d then 0 - DigitsValue(digits) else DigitsValue(digits);
      if -0x8000_0000_0000_0000 <= value < 0x8000_0000_0000_0000 then Some(value) else None
  }

  // ----- Separator normalisation

  const P2: seq<byte> := [0x32]
  const P5: seq<byte> := [0x35]
  const P38: seq<byte> := [0x33, 0x38]
  const P48: seq<byte> := [0x34, 0x38]

  /** One semicolon-separated group, with its colon subparameters spread out or dropped. */
  function NormalizeGroup(group: seq<byte>): (parts: seq<seq<byte>>)
    ensures |parts| >= 1
  {
    var parts := Split(group, COLON);
    if |parts| == 1 then [group]
    else if parts[0] in {P38, P48} && |parts| >= 3 && parts[1] in {P2, P5} then
      var start := if parts[1] == P2 && |parts| >= 6 then 3 else 2;
      [parts[0], parts[1]] + parts[start..]
    else [parts[0]]
  }

  function NormalizeGroups(groups: seq<seq<byte>>): (parts: seq<seq<byte>>)
    ensures |parts| >= |groups|
  {
    if groups == [] then [] else NormalizeGroup(groups[0]) + NormalizeGroups(groups[1..])
  }

  function Normalize(raw: seq<byte>): seq<byte> {
    Join(NormalizeGroups(Split(raw, SEMICOLON)), SEMICOLON)
  }

  lemma OneGroup(group: seq<byte>)
    ensures NormalizeGroups([group]) == NormalizeGroup(group)
  {
    assert [group][1..] == [];
    assert NormalizeGroups([]) == [];
  }

  method NormalizeSGRSeparators(raw: seq<byte>) returns (text: seq<byte>)
    ensures text == Normalize(raw)
  {
    var groups := Split(raw, SEMICOLON);
    var normalized: seq<seq<byte>> := [];
    for i := 0 to |groups|
      invariant normalized == NormalizeGroups(groups[..i])
    {
      var parts := Split(groups[i], COLON);
      assert groups[..i + 1] == groups[..i] + [groups[i]];
      NormalizeGroupsConcat(groups[..i], [groups[i]]);
      OneGroup(groups[i]);
      if |parts| == 1 {
        normalized := normalized + [groups[i]];
      } else if (parts[0] == P38 || parts[0] == P48) && |parts| >= 3 && (parts[1] == P2 || parts[1] == P5) {
        var start := 2;
        if parts[1] == P2 && |parts| >= 6 {
          start := 3;
        }
        normalized := normalized + ([parts[0], parts[1]] + parts[start..]);
      } else {
        normalized := normalized + [parts[0]];
      }
    }
    assert groups[..|groups|] == groups;
    assert normalized == NormalizeGroups(groups);
    text := Join(normalized, SEMICOLON);
  }

  // ----- Applying the parameters

  function ApplyAttribute(style: Style, code: int): (r: Style)
    ensures r.foreground == style.foreground || r.foreground == ""
    ensures r.background == style.background || r.background == ""
  {
    if code == 0 then DEFAULT_STYLE
    else if code == 1 then style.(bold := true)
    else if code == 2 then style.(faint := true)
    else if code == 3 then style.(italic := true)
    else if code == 4 || code == 21 then style.(underline := true)
    else if code == 7 then style.(inverse := true)
    else if code == 9 then style.(strike := true)
    else if code == 22 then style.(bold := false, faint := false)
    else if code == 23 then style.(italic := false)
    else if code == 24 then style.(underline := false)
    else if code == 27 then style.(inverse := false)
    else if code == 29 then style.(strike := false)
    else if code == 39 then style.(foreground := "")
    else if code == 49 then style.(background := "")
    else style
  }

  function ApplyCode(style: Style, code: int): (r: Style)
    ensures ColorsOk(style) ==> ColorsOk(r)
  {
    if 30 <= code <= 37 then style.(foreground := AnsiColor(code - 30))
    else if 40 <= code <= 47 then style.(background := AnsiColor(code - 40))
    else if 90 <= code <= 97 then style.(foreground := AnsiColor(code - 90 + 8))
    else if 100 <= code <= 107 then style.(background := AnsiColor(code - 100 + 8))
    else ApplyAttribute(style, code)
  }

  datatype Extended = Extended(color: string, consumed: nat)

  function ParseExtendedColor(values: seq<int>): (r: Option<Extended>)
    ensures r.Some? ==> r.value.consumed <= |values| && HexColor(r.value.color)
  {
    if |values| >= 2 && values[0] == 5 && 0 <= values[1] <= 255 then
      Some(Extended(AnsiColor(values[1]), 2))
    else if |values| >= 4 && values[0] == 2 && ValidRgb(values[1], values[2], values[3]) then
      Some(Extended(RgbColor(values[1], values[2], values[3]), 4))
    else None
  }

  function Paint(style: Style, code: int, color: string): Style {
    if code == 38 then style.(foreground := color) else style.(background := color)
  }

  function ApplyCodes(style: Style, values: seq<int>): Style
    decreases |values|
  {
    if values == [] then style
    else
      var code, rest := values[0], values[1..];
      if code == 38 || code == 48 then
        match ParseExtendedColor(rest)
        case None => ApplyCodes(style, rest)
        case Some(e) => ApplyCodes(Paint(style, code, e.color), rest[e.consumed..])
      else ApplyCodes(ApplyCode(style, code), rest)
  }

  /** The numbers of the parameter parts; None when any part is malformed or negative. */
  function Values(parts: seq<seq<byte>>): (r: Option<seq<int>>)
  {
    if parts == [] then Some([])
    else
      var head := if parts[0] == [] then Some(0) else Atoi(parts[0]);
      if head.None? || head.value < 0 then None
      else
        var rest := Values(parts[1..]);
        if rest.None? then None else Some([head.value] + rest.value)
  }

  function Prepend(values: seq<int>, rest: Option<seq<int>>): Option<seq<int>> {
    if rest.None? then None else Some(values + rest.value)
  }

  lemma PrependLaws(values: seq<int>, x: int, rest: Option<seq<int>>)
    ensures Prepend([], rest) == rest
    ensures Prepend(values + [x], rest) == Prepend(values, Prepend([x], rest))
  {
    if rest.Some? {
      assert [] + rest.value == rest.value;
      assert values + [x] + rest.value == values + ([x] + rest.value);
    }
  }

  /** The parameters after normalisation. */
  function Parts(raw: seq<byte>): (parts: seq<seq<byte>>)
    ensures |parts| >= 1
  {
    NormalizeGroups(Split(raw, SEMICOLON))
  }

  function Select(style: Style, raw: seq<byte>): Style {
    match Values(Parts(raw))
    case None => style
    case Some(values) => ApplyCodes(style, values)
  }

  lemma {:induction false} PartsAreSeparatorFree(groups: seq<seq<byte>>)
    requires forall g :: g in groups ==> SEMICOLON !in g
    ensures forall p :: p in NormalizeGroups(groups) ==> SEMICOLON !in p && COLON !in p
  {
    if groups != [] {
      GroupPiecesSeparatorFree(groups[0]);
      PartsAreSeparatorFree(groups[1..]);
    }
  }

  lemma {:induction false} SplitKeepsOut<T>(s: seq<T>, sep: T, x: T)
    requires x !in s
    ensures forall p :: p in Split(s, sep) ==> x !in p
  {
    if s != [] { SplitKeepsOut(s[1..], sep, x); }
  }

  lemma GroupPiecesSeparatorFree(group: seq<byte>)
    requires SEMICOLON !in group
    ensures forall p :: p in NormalizeGroup(group) ==> SEMICOLON !in p && COLON !in p
  {
    SplitKeepsOut(group, COLON, SEMICOLON);
    JoinSplit(group, COLON);
  }

  method ParseValues(parts: seq<seq<byte>>) returns (r: Option<seq<int>>)
    ensures r == Values(parts)
  {
    var values: seq<int> := [];
    assert parts[0..] == parts;
    PrependLaws([], 0, Values(parts));
    for i := 0 to |parts|
      invariant Values(parts) == Prepend(values, Values(parts[i..]))
    {
      assert parts[i..][1..] == parts[i + 1..];
      var value := Some(0);
      if parts[i] != [] {
        value := Atoi(parts[i]);
      }
      if value.None? || value.value < 0 {
        return None;
      }
      PrependLaws(values, value.value, Values(parts[i + 1..]));
      values := values + [value.value];
    }
    assert values + [] == values;
    return Some(values);
  }

  method ApplyValues(style0: Style, values: seq<int>) returns (style: Style)
    ensures style == ApplyCodes(style0, values)
  {
    style := style0;
    assert values[0..] == values;
    var index := 0;
    while index < |values|
      invariant 0 <= index <= |values|
      invariant ApplyCodes(style0, values) == ApplyCodes(style, values[index..])
    {
      var code, rest := values[index], values[index + 1..];
      assert values[index..][1..] == rest;
      if code == 38 || code == 48 {
        var extended := ParseExtendedColor(rest);
        if extended.Some? {
          style := Paint(style, code, extended.value.color);
          index := index + extended.value.consumed;
          assert values[index + 1..] == rest[extended.value.consumed..];
        }
      } else {
        style := ApplyCode(style, code);
      }
      index := index + 1;
    }
  }

  method ApplySGR(style0: Style, raw0: seq<byte>) returns (style: Style)
    ensures style == Select(style0, raw0)
  {
    var raw := NormalizeSGRSeparators(raw0);
    ghost var pieces := Parts(raw0);
    PartsAreSeparatorFree(Split(raw0, SEMICOLON));
    SplitJoin(pieces, SEMICOLON);
    if raw == [] {
      raw := [0x30];
    }
    var parts := Split(raw, SEMICOLON);
    SameValues(pieces, parts);
    var values := ParseValues(parts);
    if values.None? {
      return style0;
    }
    style := ApplyValues(style0, values.value);
  }

  /** An empty parameter text is replaced by "0", which reads the same. */
  lemma SameValues(pieces: seq<seq<byte>>, parts: seq<seq<byte>>)
    requires pieces != [] && Split(Join(pieces, SEMICOLON), SEMICOLON) == pieces
    requires parts == Split(if Join(pieces, SEMICOLON) == [] then [0x30] else Join(pieces, SEMICOLON), SEMICOLON)
    ensures Values(parts) == Values(pieces)
  {
    if Join(pieces, SEMICOLON) == [] {
      SplitSeparatorFree<byte>([0x30], SEMICOLON);
      assert pieces == [[]] && parts == [[0x30]];
      assert DigitsValue([0x30]) == 0;
      assert Values([]) == Some([]);
      assert parts[1..] == [] && pieces[1..] == [];
    }
  }

  // ----- Properties

  lemma {:induction false} NormalizeGroupsConcat(a: seq<seq<byte>>, b: seq<seq<byte>>)
    ensures NormalizeGroups(a + b) == NormalizeGroups(a) + NormalizeGroups(b)
  {
    if a == [] {
      assert a + b == b;
    } else {
      assert (a + b)[1..] == a[1..] + b;
      NormalizeGroupsConcat(a[1..], b);
    }
  }

  /** Normalisation works group by group. */
  lemma NormalizeDistributes(a: seq<byte>, b: seq<byte>)
    ensures Normalize(a + [SEMICOLON] + b) == Normalize(a) + [SEMICOLON] + Normalize(b)
  {
    SplitConcat(a, SEMICOLON, b);
    NormalizeGroupsConcat(Split(a, SEMICOLON), Split(b, SEMICOLON));
    JoinConcat(NormalizeGroups(Split(a, SEMICOLON)), NormalizeGroups(Split(b, SEMICOLON)), SEMICOLON);
  }

  lemma {:induction false} ColonFreeGroups(groups: seq<seq<byte>>)
    requires forall g :: g in groups ==> COLON !in g
    ensures NormalizeGroups(groups) == groups
  {
    if groups != [] {
      SplitSeparatorFree(groups[0], COLON);
      ColonFreeGroups(groups[1..]);
    }
  }

  /** Text without colons is left alone, so normalising twice is normalising once. */
  lemma ColonFreeUnchanged(raw: seq<byte>)
    requires COLON !in raw
    ensures Normalize(raw) == raw
  {
    SplitKeepsOut(raw, SEMICOLON, COLON);
    ColonFreeGroups(Split(raw, SEMICOLON));
    JoinSplit(raw, SEMICOLON);
  }

  predicate Plain(p: seq<byte>) { SEMICOLON !in p && COLON !in p }

  lemma {:induction false} JoinKeepsOut<T>(parts: seq<seq<T>>, sep: T, x: T)
    requires x != sep && forall p :: p in parts ==> x !in p
    ensures x !in Join(parts, sep)
  {
    if |parts| > 1 { JoinKeepsOut(parts[1..], sep, x); }
  }

  lemma ColonGroupParts(parts: seq<seq<byte>>)
    requires parts != [] && forall p :: p in parts ==> Plain(p)
    ensures Parts(Join(parts, COLON)) == NormalizeGroup(Join(parts, COLON))
    ensures Split(Join(parts, COLON), COLON) == parts
  {
    JoinKeepsOut(parts, COLON, SEMICOLON);
    SplitSeparatorFree(Join(parts, COLON), SEMICOLON);
    OneGroup(Join(parts, COLON));
    SplitJoin(parts, COLON);
  }

  /** A direct colour with colons, with colons and a colour-space identifier, or with
      semicolons reduces to the same parameters. */
  lemma DirectColorParts(code: seq<byte>, space: seq<byte>, r: seq<byte>, g: seq<byte>, b: seq<byte>)
    requires code in {P38, P48} && Plain(space) && Plain(r) && Plain(g) && Plain(b)
    ensures Parts(Join([code, P2, r, g, b], COLON)) == [code, P2, r, g, b]
    ensures Parts(Join([code, P2, space, r, g, b], COLON)) == [code, P2, r, g, b]
    ensures Parts(Join([code, P2, r, g, b], SEMICOLON)) == [code, P2, r, g, b]
  {
    var parts := [code, P2, r, g, b];
    var spaced := [code, P2, space, r, g, b];
    ColonGroupParts(parts);
    assert [code, P2] + parts[2..] == parts;
    ColonGroupParts(spaced);
    assert [code, P2] + spaced[3..] == parts;
    SplitJoin(parts, SEMICOLON);
    ColonFreeGroups(parts);
  }

  lemma PartsConcat(a: seq<byte>, b: seq<byte>)
    ensures Parts(a + [SEMICOLON] + b) == Parts(a) + Parts(b)
  {
    SplitConcat(a, SEMICOLON, b);
    NormalizeGroupsConcat(Split(a, SEMICOLON), Split(b, SEMICOLON));
  }

  /** ... so in any surrounding parameters the three spellings select the same style. */
  lemma DirectColorSpellings(style: Style, before: seq<byte>, after: seq<byte>,
                             code: seq<byte>, space: seq<byte>, r: seq<byte>, g: seq<byte>, b: seq<byte>)
    requires code in {P38, P48} && Plain(space) && Plain(r) && Plain(g) && Plain(b)
    ensures var colons := Join([code, P2, r, g, b], COLON);
            var spaced := Join([code, P2, space, r, g, b], COLON);
            var semicolons := Join([code, P2, r, g, b], SEMICOLON);
            && Select(style, before + [SEMICOLON] + (colons + [SEMICOLON] + after))
            == Select(style, before + [SEMICOLON] + (spaced + [SEMICOLON] + after))
            == Select(style, before + [SEMICOLON] + (semicolons + [SEMICOLON] + after))
            && Select(style, colons) == Select(style, spaced) == Select(style, semicolons)
  {
    var colons := Join([code, P2, r, g, b], COLON);
    var spaced := Join([code, P2, space, r, g, b], COLON);
    var semicolons := Join([code, P2, r, g, b], SEMICOLON);
    DirectColorParts(code, space, r, g, b);
    PartsConcat(colons, after);
    PartsConcat(spaced, after);
    PartsConcat(semicolons, after);
    PartsConcat(before, colons + [SEMICOLON] + after);
    PartsConcat(before, spaced + [SEMICOLON] + after);
    PartsConcat(before, semicolons + [SEMICOLON] + after);
  }

  predicate Channel(p: seq<byte>) { Atoi(p).Some? && 0 <= Atoi(p).value <= 255 }

  lemma ValuesCons(p: seq<byte>, rest: seq<seq<byte>>, v: seq<int>, all: seq<seq<byte>>, vs: seq<int>)
    requires Atoi(p).Some? && Atoi(p).value >= 0 && Values(rest) == Some(v)
    requires all == [p] + rest && vs == [Atoi(p).value] + v
    ensures Values(all) == Some(vs)
  {
    assert all[1..] == rest;
  }

  /** ... namely the one whose channels, read back as base-16 numbers, are the parameters; all else
      stays as it was. */
  lemma DirectColorSelected(style: Style, code: seq<byte>, space: seq<byte>, r: seq<byte>, g: seq<byte>, b: seq<byte>, text: seq<byte>)
    requires code in {P38, P48} && Plain(space) && Plain(r) && Plain(g) && Plain(b)
    requires Channel(r) && Channel(g) && Channel(b)
    requires text in {Join([code, P2, space, r, g, b], COLON), Join([code, P2, r, g, b], COLON), Join([code, P2, r, g, b], SEMICOLON)}
    ensures var selected := Select(style, text);
            && (code == P38 ==> selected == style.(foreground := selected.foreground)
                                && Spells(selected.foreground, Atoi(r).value, Atoi(g).value, Atoi(b).value))
            && (code == P48 ==> selected == style.(background := selected.background)
                                && Spells(selected.background, Atoi(r).value, Atoi(g).value, Atoi(b).value))
  {
    hide Normalize, Join, Split;
    DirectColorParts(code, space, r, g, b);
    var n := if code == P38 then 38 else 48;
    KnownCodes();
    var red, green, blue := Atoi(r).value, Atoi(g).value, Atoi(b).value;
    DirectColorValues(code, n, r, g, b);
    DirectColorCodes(style, n, red, green, blue);
    RgbSpells(red, green, blue);
  }

  lemma DirectColorCodes(style: Style, n: int, red: int, green: int, blue: int)
    requires n in {38, 48} && ValidRgb(red, green, blue)
    ensures ApplyCodes(style, [n, 2, red, green, blue]) == Paint(style, n, RgbColor(red, green, blue))
  {
    var rest := [2, red, green, blue];
    assert [n, 2, red, green, blue][1..] == rest && rest[4..] == [];
    assert ParseExtendedColor(rest) == Some(Extended(RgbColor(red, green, blue), 4));
  }

  lemma KnownCodes()
    ensures Atoi(P38) == Some(38) && Atoi(P48) == Some(48) && Atoi(P2) == Some(2)
  {
    assert P38[..1] == [0x33] && P48[..1] == [0x34] && P2[..0] == [];
    assert DigitsValue([0x33]) == 3 && DigitsValue([0x34]) == 4 && DigitsValue(P2) == 2;
  }

  lemma DirectColorValues(code: seq<byte>, n: int, r: seq<byte>, g: seq<byte>, b: seq<byte>)
    requires Atoi(code) == Some(n) && n >= 0 && Atoi(P2) == Some(2)
    requires Channel(r) && Channel(g) && Channel(b)
    ensures Values([code, P2, r, g, b]) == Some([n, 2, Atoi(r).value, Atoi(g).value, Atoi(b).value])
  {
    var red, green, blue := Atoi(r).value, Atoi(g).value, Atoi(b).value;
    ValuesCons(b, [], [], [b], [blue]);
    ValuesCons(g, [b], [blue], [g, b], [green, blue]);
    ValuesCons(r, [g, b], [green, blue], [r, g, b], [red, green, blue]);
    ValuesCons(P2, [r, g, b], [red, green, blue], [P2, r, g, b], [2, red, green, blue]);
    ValuesCons(code, [P2, r, g, b], [2, red, green, blue], [code, P2, r, g, b], [n, 2, red, green, blue]);
  }

  /** One malformed or negative parameter, wherever it stands, and nothing is applied. */
  lemma {:induction false} MalformedValues(parts: seq<seq<byte>>, bad: seq<byte>)
    requires bad in parts && bad != [] && (Atoi(bad).None? || Atoi(bad).value < 0)
    ensures Values(parts).None?
  {
    if parts[0] != bad { MalformedValues(parts[1..], bad); }
  }

  lemma MalformedLeavesStyle(style: Style, before: seq<byte>, bad: seq<byte>, after: seq<byte>)
    requires Plain(bad) && bad != [] && (Atoi(bad).None? || Atoi(bad).value < 0)
    ensures Select(style, before + [SEMICOLON] + (bad + [SEMICOLON] + after)) == style
  {
    PartsConcat(bad, after);
    PartsConcat(before, bad + [SEMICOLON] + after);
    SplitSeparatorFree(bad, SEMICOLON);
    SplitSeparatorFree(bad, COLON);
    OneGroup(bad);
    var all := before + [SEMICOLON] + (bad + [SEMICOLON] + after);
    assert Parts(all)[|Parts(before)|] == bad;
    MalformedValues(Parts(all), bad);
  }

  lemma {:induction false} CodesKeepColors(style: Style, values: seq<int>)
    requires ColorsOk(style)
    ensures ColorsOk(ApplyCodes(style, values))
    decreases |values|
  {
    if values != [] {
      var code, rest := values[0], values[1..];
      if code == 38 || code == 48 {
        match ParseExtendedColor(rest)
        case None => CodesKeepColors(style, rest);
        case Some(e) => CodesKeepColors(Paint(style, code, e.color), rest[e.consumed..]);
      } else {
        CodesKeepColors(ApplyCode(style, code), rest);
      }
    }
  }

  /** Every colour any parameter text can set is empty or "#" and six lower-case digits. */
  lemma SelectKeepsColors(style: Style, raw: seq<byte>)
    requires ColorsOk(style)
    ensures ColorsOk(Select(style, raw))
  {
    var values := Values(Parts(raw));
    if values.Some? { CodesKeepColors(style, values.value); }
  }
}
