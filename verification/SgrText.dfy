/** Renditions written out and read back: what single parameters mean, which colours the palette
    holds, how numbers are read, and that the written form of a style selects that style. */
module SgrText {
  import opened Text
  import opened Sgr

  // ----- Numbers

  predicate AllDigits(s: seq<byte>) { forall i :: 0 <= i < |s| ==> 0x30 <= s[i] <= 0x39 }

  lemma DigitsOnly(s: seq<byte>)
    requires AllDigits(s)
    ensures forall b :: b in s ==> IsDigit(b)
  {
  }

  /** A number in decimal, without leading zeros. */
  function Decimal(n: nat): (s: seq<byte>)
    ensures s != [] && AllDigits(s)
  {
    if n < 10 then [0x30 + n] else Decimal(n / 10) + [0x30 + n % 10]
  }

  lemma {:induction false} DecimalValue(n: nat)
    ensures forall b :: b in Decimal(n) ==> IsDigit(b)
    ensures DigitsValue(Decimal(n)) == n
  {
    DigitsOnly(Decimal(n));
    if n < 10 {
      assert Decimal(n)[..0] == [];
    } else {
      DecimalValue(n / 10);
      assert Decimal(n)[..|Decimal(n)| - 1] == Decimal(n / 10);
    }
  }

  /** A number is read as what it says, with either sign, as far as 64 bits reach. */
  lemma NumberRead(n: nat)
    ensures Atoi(Decimal(n)) == Atoi([0x2b] + Decimal(n)) == if n < 0x8000_0000_0000_0000 then Some(n) else None
    ensures Atoi([0x2d] + Decimal(n)) == if n <= 0x8000_0000_0000_0000 then Some(0 - n as int) else None
  {
    DecimalValue(n);
    var digits := Decimal(n);
    assert 0x30 <= digits[0] <= 0x39;
    assert ([0x2b] + digits)[1..] == digits && ([0x2d] + digits)[1..] == digits;
  }

  /** Leading zeros do not count. */
  lemma {:induction false} LeadingZero(digits: seq<byte>)
    requires AllDigits(digits)
    ensures (forall b :: b in digits ==> IsDigit(b)) && forall b :: b in [0x30] + digits ==> IsDigit(b)
    ensures DigitsValue([0x30] + digits) == DigitsValue(digits)
  {
    DigitsOnly(digits);
    DigitsOnly([0x30] + digits);
    var all := [0x30] + digits;
    if digits == [] {
      assert all[..0] == [];
    } else {
      LeadingZero(digits[..|digits| - 1]);
      assert all[..|all| - 1] == [0x30] + digits[..|digits| - 1];
    }
  }

  /** Anything but digits after at most one sign is no number. */
  lemma NoNumber(s: seq<byte>, i: nat)
    requires s == [] || s in {[0x2b], [0x2d]} || (i < |s| && !(0x30 <= s[i] <= 0x39) && (i > 0 || s[0] !in {0x2b, 0x2d}))
    ensures Atoi(s).None?
  {
    var signed := |s| > 0 && (s[0] == 0x2b || s[0] == 0x2d);
    var digits := if signed then s[1..] else s;
    if digits != [] {
      var k := if signed then i - 1 else i;
      assert digits[k] == s[i] && digits[k] in digits && !IsDigit(digits[k]);
    }
  }

  /** ... so a negative number, wherever it stands, leaves the style as it was. */
  lemma NegativeLeavesStyle(style: Style, before: seq<byte>, n: nat, after: seq<byte>)
    requires 0 < n
    ensures Select(style, before + [SEMICOLON] + ([0x2d] + Decimal(n) + [SEMICOLON] + after)) == style
  {
    hide Atoi, Select;
    NumberRead(n);
    MalformedLeavesStyle(style, before, [0x2d] + Decimal(n), after);
  }

  // ----- The palette

  /** Whether the k-th of red, green and blue is in one of the first sixteen colours. */
  predicate Lit(index: int, k: int)
    requires 0 <= index < 16
  {
    if k == 0 then index % 2 == 1 else if k == 1 then index / 2 % 2 == 1 else index / 4 % 2 == 1
  }

  /** The k-th channel of a palette entry: eight dark and eight bright mixtures of red, green and
      blue, then a cube of six levels each, then greys. */
  function Level(index: int, k: int): int
    requires 0 <= index <= 255 && 0 <= k < 3
  {
    if index == 7 then 229
    else if index == 8 then 127
    else if index == 4 && k == 2 then 238
    else if index == 12 && k != 2 then 92
    else if index < 16 then (if !Lit(index, k) then 0 else if index < 8 then 205 else 255)
    else if index < 232 then
      var step := if k == 0 then (index - 16) / 36 else if k == 1 then (index - 16) % 36 / 6 else (index - 16) % 6;
      if step == 0 then 0 else 55 + 40 * step
    else 8 + 10 * (index - 232)
  }

  lemma PaletteSpells(index: int)
    requires 0 <= index <= 255
    ensures Spells(AnsiColor(index), Level(index, 0), Level(index, 1), Level(index, 2))
  {
    hide Spells, Level, AnsiColor;
    if index < 8 {
      DarkSpells(index);
    } else if index < 16 {
      BrightSpells(index);
    } else if index < 232 {
      CubeSpells(index);
    } else {
      GreySpells(index);
    }
  }

  lemma GreySpells(index: int)
    requires 232 <= index <= 255
    ensures Spells(AnsiColor(index), Level(index, 0), Level(index, 1), Level(index, 2))
  {
    hide Spells, RgbColor;
    var level := 8 + (index - 232) * 10;
    assert AnsiColor(index) == RgbColor(level, level, level);
    RgbSpells(level, level, level);
  }

  lemma DarkSpells(index: int)
    requires 0 <= index < 8
    ensures Spells(AnsiColor(index), Level(index, 0), Level(index, 1), Level(index, 2))
  {
    match index
    case 0 => assert AnsiColor(0) == "#000000";
    case 1 => assert AnsiColor(1) == "#cd0000";
    case 2 => assert AnsiColor(2) == "#00cd00";
    case 3 => assert AnsiColor(3) == "#cdcd00";
    case 4 => assert AnsiColor(4) == "#0000ee";
    case 5 => assert AnsiColor(5) == "#cd00cd";
    case 6 => assert AnsiColor(6) == "#00cdcd";
    case 7 => assert AnsiColor(7) == "#e5e5e5";
  }

  lemma BrightSpells(index: int)
    requires 8 <= index < 16
    ensures Spells(AnsiColor(index), Level(index, 0), Level(index, 1), Level(index, 2))
  {
    match index
    case 8 => assert AnsiColor(8) == "#7f7f7f";
    case 9 => assert AnsiColor(9) == "#ff0000";
    case 10 => assert AnsiColor(10) == "#00ff00";
    case 11 => assert AnsiColor(11) == "#ffff00";
    case 12 => assert AnsiColor(12) == "#5c5cff";
    case 13 => assert AnsiColor(13) == "#ff00ff";
    case 14 => assert AnsiColor(14) == "#00ffff";
    case 15 => assert AnsiColor(15) == "#ffffff";
  }

  lemma CubeSpells(index: int)
    requires 16 <= index < 232
    ensures Spells(AnsiColor(index), Level(index, 0), Level(index, 1), Level(index, 2))
  {
    hide Spells, RgbColor, Level;
    var red, green, blue := CubeSteps(index);
    LevelsAre(red);
    LevelsAre(green);
    LevelsAre(blue);
    RgbSpells(LEVELS[red], LEVELS[green], LEVELS[blue]);
  }

  lemma LevelsAre(step: int)
    requires 0 <= step < 6
    ensures LEVELS[step] == (if step == 0 then 0 else 55 + 40 * step) && 0 <= LEVELS[step] <= 255
  {
  }

  lemma CubeSteps(index: int) returns (red: int, green: int, blue: int)
    requires 16 <= index < 232
    ensures 0 <= red < 6 && 0 <= green < 6 && 0 <= blue < 6 && index == 16 + 36 * red + 6 * green + blue
    ensures Level(index, 0) == if red == 0 then 0 else 55 + 40 * red
    ensures Level(index, 1) == if green == 0 then 0 else 55 + 40 * green
    ensures Level(index, 2) == if blue == 0 then 0 else 55 + 40 * blue
    ensures (index - 16) / 36 == red && (index - 16) / 6 % 6 == green && (index - 16) % 6 == blue
  {
    red, green, blue := BaseSix(index - 16);
  }

  lemma BaseSix(value: int) returns (a: int, b: int, c: int)
    requires 0 <= value < 216
    ensures 0 <= a < 6 && 0 <= b < 6 && 0 <= c < 6 && value == 36 * a + 6 * b + c
    ensures a == value / 36 && b == value % 36 / 6 == value / 6 % 6 && c == value % 6
  {
    a, b, c := value / 36, value % 36 / 6, value % 6;
    var sixes := value / 6;
    assert value == 6 * sixes + c;
    assert sixes / 6 == a;
  }

  // ----- What one parameter means

  lemma OneValue(p: seq<byte>, n: int)
    requires Plain(p) && Atoi(p) == Some(n) && n >= 0
    ensures Values(Parts(p)) == Some([n])
  {
    SplitSeparatorFree(p, SEMICOLON);
    SplitSeparatorFree(p, COLON);
    OneGroup(p);
    ValuesCons(p, [], [], [p], [n]);
  }

  /** Field by field, which numbers switch it on and off. */
  ghost predicate Switched(style: Style, n: int, s: Style) { WeightSwitched(style, n, s) && LinesSwitched(style, n, s) }

  ghost predicate WeightSwitched(style: Style, n: int, s: Style) {
    && (s.bold <==> n == 1 || (style.bold && n != 0 && n != 22))
    && (s.faint <==> n == 2 || (style.faint && n != 0 && n != 22))
    && (s.italic <==> n == 3 || (style.italic && n != 0 && n != 23))
  }

  ghost predicate LinesSwitched(style: Style, n: int, s: Style) {
    && (s.underline <==> n == 4 || n == 21 || (style.underline && n != 0 && n != 24))
    && (s.inverse <==> n == 7 || (style.inverse && n != 0 && n != 27))
    && (s.strike <==> n == 9 || (style.strike && n != 0 && n != 29))
  }

  ghost predicate Coloured(before: string, n: int, dark: int, bright: int, color: string) {
    if n == 0 || n == dark + 9 then color == ""
    else if dark <= n <= dark + 7 then Spells(color, Level(n - dark, 0), Level(n - dark, 1), Level(n - dark, 2))
    else if bright <= n <= bright + 7 then
      Spells(color, Level(n - bright + 8, 0), Level(n - bright + 8, 1), Level(n - bright + 8, 2))
    else color == before
  }

  /** One number: what it switches, and which colour of the palette it selects, if any. */
  lemma CodeSelected(style: Style, p: seq<byte>, n: int)
    requires Plain(p) && Atoi(p) == Some(n) && n >= 0
    ensures Switched(style, n, Select(style, p))
    ensures Coloured(style.foreground, n, 30, 90, Select(style, p).foreground)
    ensures Coloured(style.background, n, 40, 100, Select(style, p).background)
  {
    hide ApplyCodes, Values, Parts, Atoi, Switched, Coloured, ApplyCode;
    OneValue(p, n);
    OneCode(style, n);
    CodeSwitches(style, n);
    CodeColours(style, n);
  }

  lemma CodeSwitches(style: Style, n: int)
    ensures Switched(style, n, if n == 38 || n == 48 then style else ApplyCode(style, n))
  {
    hide AnsiColor, ApplyAttribute, WeightSwitched, LinesSwitched;
    AttributeSwitches(style, n);
    if n >= 30 {
      SwitchesNothing(style, n, style);
      PaintsOnly(style, n);
      SwitchesNothing(style, n, ApplyCode(style, n));
    }
  }

  lemma PaintsOnly(style: Style, n: int)
    requires n >= 30
    ensures ColorsAside(style, ApplyCode(style, n))
  {
    hide AnsiColor, ApplyAttribute;
    AttributeAside(style, n);
  }

  lemma AttributeAside(style: Style, n: int)
    requires n >= 30
    ensures ColorsAside(style, ApplyAttribute(style, n))
  {
  }

  predicate ColorsAside(a: Style, b: Style) {
    && a.bold == b.bold && a.faint == b.faint && a.italic == b.italic
    && a.underline == b.underline && a.inverse == b.inverse && a.strike == b.strike
  }

  lemma SwitchesNothing(style: Style, n: int, s: Style)
    requires n >= 30 && ColorsAside(style, s)
    ensures Switched(style, n, s)
  {
  }

  lemma AttributeSwitches(style: Style, n: int)
    ensures Switched(style, n, ApplyAttribute(style, n))
  {
    hide ApplyAttribute;
    BoldSwitches(style, n);
    FaintSwitches(style, n);
    ItalicSwitches(style, n);
    UnderlineSwitches(style, n);
    InverseSwitches(style, n);
    StrikeSwitches(style, n);
  }

  lemma BoldSwitches(style: Style, n: int)
    ensures ApplyAttribute(style, n).bold <==> n == 1 || (style.bold && n != 0 && n != 22)
  {
  }

  lemma FaintSwitches(style: Style, n: int)
    ensures ApplyAttribute(style, n).faint <==> n == 2 || (style.faint && n != 0 && n != 22)
  {
  }

  lemma ItalicSwitches(style: Style, n: int)
    ensures ApplyAttribute(style, n).italic <==> n == 3 || (style.italic && n != 0 && n != 23)
  {
  }

  lemma UnderlineSwitches(style: Style, n: int)
    ensures ApplyAttribute(style, n).underline <==> n == 4 || n == 21 || (style.underline && n != 0 && n != 24)
  {
  }

  lemma InverseSwitches(style: Style, n: int)
    ensures ApplyAttribute(style, n).inverse <==> n == 7 || (style.inverse && n != 0 && n != 27)
  {
  }

  lemma StrikeSwitches(style: Style, n: int)
    ensures ApplyAttribute(style, n).strike <==> n == 9 || (style.strike && n != 0 && n != 29)
  {
  }

  lemma CodeColours(style: Style, n: int)
    ensures var s := if n == 38 || n == 48 then style else ApplyCode(style, n);
            Coloured(style.foreground, n, 30, 90, s.foreground) && Coloured(style.background, n, 40, 100, s.background)
  {
    hide Coloured;
    CodeForeground(style, n);
    CodeBackground(style, n);
  }

  lemma CodeForeground(style: Style, n: int)
    ensures var s := if n == 38 || n == 48 then style else ApplyCode(style, n); Coloured(style.foreground, n, 30, 90, s.foreground)
  {
    hide AnsiColor, Level, Spells;
    if 30 <= n <= 37 { PaletteSpells(n - 30); }
    if 90 <= n <= 97 { PaletteSpells(n - 82); }
  }

  lemma CodeBackground(style: Style, n: int)
    ensures var s := if n == 38 || n == 48 then style else ApplyCode(style, n); Coloured(style.background, n, 40, 100, s.background)
  {
    hide AnsiColor, Level, Spells;
    if 40 <= n <= 47 { PaletteSpells(n - 40); }
    if 100 <= n <= 107 { PaletteSpells(n - 92); }
  }

  lemma OneCode(style: Style, n: int)
    ensures ApplyCodes(style, [n]) == if n == 38 || n == 48 then style else ApplyCode(style, n)
  {
    assert [n][1..] == [];
    assert ApplyCodes(style, []) == style;
  }

  /** A colour picked by its index in the palette, in either spelling. */
  lemma IndexedColorSelected(style: Style, code: seq<byte>, p: seq<byte>, index: int, text: seq<byte>)
    requires code in {P38, P48} && Plain(p) && Atoi(p) == Some(index) && 0 <= index <= 255
    requires text in {Join([code, P5, p], COLON), Join([code, P5, p], SEMICOLON)}
    ensures var s := Select(style, text);
            && (code == P38 ==> s == style.(foreground := s.foreground)
                                && Spells(s.foreground, Level(index, 0), Level(index, 1), Level(index, 2)))
            && (code == P48 ==> s == style.(background := s.background)
                                && Spells(s.background, Level(index, 0), Level(index, 1), Level(index, 2)))
  {
    hide AnsiColor, Level, Spells;
    var n := if code == P38 then 38 else 48;
    KnownCodes();
    assert Atoi(P5) == Some(5) by { NumberRead(5); assert Decimal(5) == P5; }
    IndexedParts(code, p);
    ValuesCons(p, [], [], [p], [index]);
    ValuesCons(P5, [p], [index], [P5, p], [5, index]);
    ValuesCons(code, [P5, p], [5, index], [code, P5, p], [n, 5, index]);
    assert [n, 5, index][1..] == [5, index] && [5, index][2..] == [];
    assert ApplyCodes(Paint(style, n, AnsiColor(index)), []) == Paint(style, n, AnsiColor(index));
    PaletteSpells(index);
  }

  lemma IndexedParts(code: seq<byte>, p: seq<byte>)
    requires code in {P38, P48} && Plain(p)
    ensures Parts(Join([code, P5, p], COLON)) == Parts(Join([code, P5, p], SEMICOLON)) == [code, P5, p]
  {
    var parts := [code, P5, p];
    ColonGroupParts(parts);
    assert [code, P5] + parts[2..] == parts;
    SplitJoin(parts, SEMICOLON);
    ColonFreeGroups(parts);
  }

  // ----- Subparameters

  /** A colour's subparameters mean what they mean as parameters, but for a colour-space identifier
      before at least three channels, which is passed over. */
  lemma ColorSubparameters(style: Style, code: seq<byte>, model: seq<byte>, subs: seq<seq<byte>>)
    requires code in {P38, P48} && model in {P2, P5} && subs != [] && forall p :: p in subs ==> Plain(p)
    ensures var read := if model == P2 && |subs| >= 4 then subs[1..] else subs;
            Select(style, Join([code, model] + subs, COLON)) == Select(style, Join([code, model] + read, SEMICOLON))
  {
    hide Values, ApplyCodes, Join, Split, NormalizeGroups;
    var parts, read := [code, model] + subs, if model == P2 && |subs| >= 4 then subs[1..] else subs;
    var plain := [code, model] + read;
    assert parts[2..] == subs && parts[3..] == subs[1..];
    assert forall p :: p in plain ==> p in parts;
    ColonGroupParts(parts);
    SplitJoin(plain, SEMICOLON);
    ColonFreeGroups(plain);
  }

  /** Those of anything else are dropped. */
  lemma OtherSubparameters(style: Style, parts: seq<seq<byte>>)
    requires |parts| >= 2 && forall p :: p in parts ==> Plain(p)
    requires (parts[0] != P38 && parts[0] != P48) || |parts| == 2 || (parts[1] != P2 && parts[1] != P5)
    ensures Select(style, Join(parts, COLON)) == Select(style, parts[0])
  {
    hide Values, ApplyCodes, Join, Split, NormalizeGroups;
    ColonGroupParts(parts);
    assert parts[0] in parts;
    SplitSeparatorFree(parts[0], SEMICOLON);
    SplitSeparatorFree(parts[0], COLON);
    OneGroup(parts[0]);
    assert NormalizeGroup(Join(parts, COLON)) == [parts[0]];
  }

  // ----- One parameter after another

  /** Every 38 and 48 has its colour with it. */
  predicate Complete(values: seq<int>)
    decreases |values|
  {
    values == [] ||
    (if values[0] == 38 || values[0] == 48 then
       var color := ParseExtendedColor(values[1..]);
       color.Some? && Complete(values[1..][color.value.consumed..])
     else Complete(values[1..]))
  }

  lemma ColorAhead(values: seq<int>, more: seq<int>)
    requires ParseExtendedColor(values).Some?
    ensures ParseExtendedColor(values + more) == ParseExtendedColor(values)
  {
    assert (values + more)[..|values|] == values;
  }

  lemma {:induction false} CodesInTurn(style: Style, a: seq<int>, b: seq<int>)
    requires Complete(a)
    ensures ApplyCodes(style, a + b) == ApplyCodes(ApplyCodes(style, a), b)
    decreases |a|
  {
    if a == [] {
      assert a + b == b;
    } else {
      var rest := a[1..];
      assert (a + b)[0] == a[0] && (a + b)[1..] == rest + b;
      if a[0] == 38 || a[0] == 48 {
        ColorAhead(rest, b);
        var e := ParseExtendedColor(rest).value;
        assert (rest + b)[e.consumed..] == rest[e.consumed..] + b;
        CodesInTurn(Paint(style, a[0], e.color), rest[e.consumed..], b);
      } else {
        CodesInTurn(ApplyCode(style, a[0]), rest, b);
      }
    }
  }

  lemma {:induction false} ValuesConcat(a: seq<seq<byte>>, b: seq<seq<byte>>)
    requires Values(a).Some? && Values(b).Some?
    ensures Values(a + b) == Some(Values(a).value + Values(b).value)
  {
    if a == [] {
      assert a + b == b && [] + Values(b).value == Values(b).value;
    } else {
      var rest := a[1..];
      assert (a + b)[0] == a[0] && (a + b)[1..] == rest + b;
      ValuesConcat(rest, b);
      var head := if a[0] == [] then 0 else Atoi(a[0]).value;
      assert Values(a).value == [head] + Values(rest).value;
      assert [head] + (Values(rest).value + Values(b).value) == [head] + Values(rest).value + Values(b).value;
    }
  }

  /** Parameters take effect one after another. */
  lemma SelectInTurn(style: Style, a: seq<byte>, b: seq<byte>)
    requires Values(Parts(a)).Some? && Values(Parts(b)).Some? && Complete(Values(Parts(a)).value)
    ensures Select(style, a + [SEMICOLON] + b) == Select(Select(style, a), b)
  {
    PartsConcat(a, b);
    ValuesConcat(Parts(a), Parts(b));
    CodesInTurn(style, Values(Parts(a)).value, Values(Parts(b)).value);
  }

  // ----- A style written out

  function Flag(on: bool, code: int): seq<int> { if on then [code] else [] }

  predicate Bytes(values: seq<int>) { forall i :: 0 <= i < |values| ==> 0 <= values[i] <= 255 }

  function ColorCodes(code: int, color: string): seq<int>
    requires color == "" || HexColor(color)
  {
    if color == "" then [] else [code, 2, Shade(color, 0), Shade(color, 1), Shade(color, 2)]
  }

  /** The numbers that select exactly this style, whatever was selected before. */
  function StyleCodes(style: Style): seq<int>
    requires ColorsOk(style)
  {
    [0] + Weight(style) + Lines(style) + ColorCodes(38, style.foreground) + ColorCodes(48, style.background)
  }

  lemma ShadesValid(color: string)
    requires HexColor(color)
    ensures ValidRgb(Shade(color, 0), Shade(color, 1), Shade(color, 2))
    ensures RgbColor(Shade(color, 0), Shade(color, 1), Shade(color, 2)) == color
  {
    forall i | 1 <= i < 7
      ensures 0 <= DigitValue(color[i]) < 16
    {
      DigitBack(color[i]);
    }
    RgbSpells(Shade(color, 0), Shade(color, 1), Shade(color, 2));
    SpellsOne(RgbColor(Shade(color, 0), Shade(color, 1), Shade(color, 2)), color, Shade(color, 0), Shade(color, 1), Shade(color, 2));
  }

  lemma ColorCodesPaint(style: Style, code: int, color: string)
    requires (code == 38 || code == 48) && (color == "" || HexColor(color))
    ensures Complete(ColorCodes(code, color)) && Bytes(ColorCodes(code, color))
    ensures ApplyCodes(style, ColorCodes(code, color)) == if color == "" then style else Paint(style, code, color)
  {
    if color != "" {
      ShadesValid(color);
      DirectColorCodes(style, code, Shade(color, 0), Shade(color, 1), Shade(color, 2));
      var rest := ColorCodes(code, color)[1..];
      assert rest == [2, Shade(color, 0), Shade(color, 1), Shade(color, 2)] && rest[4..] == [];
      assert ParseExtendedColor(rest) == Some(Extended(color, 4));
    }
  }

  lemma {:induction false} PlainCodes(values: seq<int>)
    requires forall i :: 0 <= i < |values| ==> values[i] != 38 && values[i] != 48
    ensures Complete(values)
  {
    if values != [] { PlainCodes(values[1..]); }
  }

  lemma FlagApplies(style: Style, on: bool, code: int)
    requires code != 38 && code != 48
    ensures Complete(Flag(on, code)) && ApplyCodes(style, Flag(on, code)) == if on then ApplyCode(style, code) else style
  {
    OneCode(style, code);
    PlainCodes(Flag(on, code));
  }

  function Weight(style: Style): seq<int> { Flag(style.bold, 1) + Flag(style.faint, 2) + Flag(style.italic, 3) }

  function Lines(style: Style): seq<int> { Flag(style.underline, 4) + Flag(style.inverse, 7) + Flag(style.strike, 9) }

  lemma ThreeFlags(style: Style, a: seq<int>, b: seq<int>, c: seq<int>)
    requires Complete(a) && Complete(b) && Complete(c)
    ensures Complete(a + b + c) && ApplyCodes(style, a + b + c) == ApplyCodes(ApplyCodes(ApplyCodes(style, a), b), c)
  {
    hide Complete;
    CompleteConcat(a, b);
    CompleteConcat(a + b, c);
    CodesInTurn(style, a, b);
    CodesInTurn(style, a + b, c);
  }

  lemma WeightApplies(style: Style)
    ensures Complete(Weight(style))
    ensures ApplyCodes(DEFAULT_STYLE, Weight(style)) == DEFAULT_STYLE.(bold := style.bold, faint := style.faint, italic := style.italic)
  {
    hide ApplyCodes, Complete, Flag, AnsiColor;
    var s := DEFAULT_STYLE;
    FlagApplies(s, style.bold, 1);
    FlagApplies(s.(bold := style.bold), style.faint, 2);
    FlagApplies(s.(bold := style.bold, faint := style.faint), style.italic, 3);
    ThreeFlags(s, Flag(style.bold, 1), Flag(style.faint, 2), Flag(style.italic, 3));
  }

  lemma LinesApply(before: Style, style: Style)
    requires !before.underline && !before.inverse && !before.strike
    ensures Complete(Lines(style))
    ensures ApplyCodes(before, Lines(style)) == before.(underline := style.underline, inverse := style.inverse, strike := style.strike)
  {
    hide ApplyCodes, Complete, Flag, AnsiColor;
    FlagApplies(before, style.underline, 4);
    FlagApplies(before.(underline := style.underline), style.inverse, 7);
    FlagApplies(before.(underline := style.underline, inverse := style.inverse), style.strike, 9);
    ThreeFlags(before, Flag(style.underline, 4), Flag(style.inverse, 7), Flag(style.strike, 9));
  }

  lemma {:induction false} CompleteConcat(a: seq<int>, b: seq<int>)
    requires Complete(a) && Complete(b)
    ensures Complete(a + b)
    decreases |a|
  {
    if a == [] {
      assert a + b == b;
    } else {
      var rest := a[1..];
      assert (a + b)[0] == a[0] && (a + b)[1..] == rest + b;
      if a[0] == 38 || a[0] == 48 {
        ColorAhead(rest, b);
        var n := ParseExtendedColor(rest).value.consumed;
        assert (rest + b)[n..] == rest[n..] + b;
        CompleteConcat(rest[n..], b);
      } else {
        CompleteConcat(rest, b);
      }
    }
  }

  lemma AttributesApply(before: Style, style: Style)
    ensures Complete([0] + Weight(style) + Lines(style))
    ensures ApplyCodes(before, [0] + Weight(style) + Lines(style)) == style.(foreground := "", background := "")
  {
    hide ApplyCodes, Complete, Weight, Lines;
    OneCode(before, 0);
    PlainCodes([0]);
    WeightApplies(style);
    LinesApply(DEFAULT_STYLE.(bold := style.bold, faint := style.faint, italic := style.italic), style);
    ThreeFlags(before, [0], Weight(style), Lines(style));
  }

  lemma StyleCodesApply(before: Style, style: Style)
    requires ColorsOk(style)
    ensures ApplyCodes(before, StyleCodes(style)) == style
  {
    hide ApplyCodes, Complete, ColorCodes, Weight, Lines, HexColor;
    var fore, back := ColorCodes(38, style.foreground), ColorCodes(48, style.background);
    var plain := style.(foreground := "", background := "");
    AttributesApply(before, style);
    ColorCodesPaint(plain, 38, style.foreground);
    ColorCodesPaint(plain.(foreground := style.foreground), 48, style.background);
    ThreeFlags(before, [0] + Weight(style) + Lines(style), fore, back);
  }

  lemma BytesConcat(a: seq<int>, b: seq<int>)
    requires Bytes(a) && Bytes(b)
    ensures Bytes(a + b)
  {
  }

  lemma StyleCodesBytes(style: Style)
    requires ColorsOk(style)
    ensures StyleCodes(style) != [] && Bytes(StyleCodes(style))
  {
    hide ColorCodes, Bytes, Shade;
    var fore, back := ColorCodes(38, style.foreground), ColorCodes(48, style.background);
    ColorCodesPaint(style, 38, style.foreground);
    ColorCodesPaint(style, 48, style.background);
    WeightBytes(style);
    BytesConcat([0] + Weight(style), Lines(style));
    BytesConcat([0] + Weight(style) + Lines(style), fore);
    BytesConcat([0] + Weight(style) + Lines(style) + fore, back);
  }

  lemma WeightBytes(style: Style)
    ensures Bytes([0] + Weight(style)) && Bytes(Lines(style))
  {
  }

  function Decimals(values: seq<int>): (parts: seq<seq<byte>>)
    requires Bytes(values)
    ensures |parts| == |values| && forall k :: 0 <= k < |parts| ==> AllDigits(parts[k])
  {
    if values == [] then [] else [Decimal(values[0])] + Decimals(values[1..])
  }

  lemma {:induction false} DecimalsRead(values: seq<int>)
    requires Bytes(values)
    ensures Values(Decimals(values)) == Some(values)
  {
    if values != [] {
      DecimalsRead(values[1..]);
      NumberRead(values[0]);
      assert Decimals(values)[1..] == Decimals(values[1..]);
      assert values == [values[0]] + values[1..];
    }
  }

  /** The parameter text that selects a style. */
  function StyleText(style: Style): seq<byte>
    requires ColorsOk(style)
  {
    StyleCodesBytes(style);
    Join(Decimals(StyleCodes(style)), SEMICOLON)
  }

  /** Written out and read back, whatever was selected before, a style is the same style. */
  lemma StyleRoundTrip(before: Style, style: Style)
    requires ColorsOk(style)
    ensures Select(before, StyleText(style)) == style
  {
    StyleCodesApply(before, style);
    StyleCodesBytes(style);
    var values := StyleCodes(style);
    var parts := Decimals(values);
    SplitJoin(parts, SEMICOLON);
    ColonFreeGroups(parts);
    DecimalsRead(values);
  }

  lemma {:induction false} JoinedDigits(parts: seq<seq<byte>>)
    requires forall k :: 0 <= k < |parts| ==> AllDigits(parts[k]) && |parts[k]| <= 3
    ensures |Join(parts, SEMICOLON)| <= 4 * |parts|
    ensures forall k :: 0 <= k < |Join(parts, SEMICOLON)| ==> 0x30 <= Join(parts, SEMICOLON)[k] <= 0x3b
  {
    if |parts| > 1 { JoinedDigits(parts[1..]); }
  }

  lemma ShortDecimal(n: nat)
    requires n <= 255
    ensures |Decimal(n)| <= 3
  {
    assert n / 10 / 10 < 10;
    assert n >= 10 ==> Decimal(n) == Decimal(n / 10) + [0x30 + n % 10];
    assert n >= 100 ==> Decimal(n / 10) == Decimal(n / 10 / 10) + [0x30 + n / 10 % 10];
  }

  lemma {:induction false} ShortDecimals(values: seq<int>)
    requires Bytes(values)
    ensures forall k :: 0 <= k < |values| ==> |Decimals(values)[k]| <= 3
  {
    if values != [] {
      ShortDecimals(values[1..]);
      ShortDecimal(values[0]);
    }
  }

  /** The written form is short, and of digits and semicolons only. */
  lemma StyleTextShort(style: Style)
    requires ColorsOk(style)
    ensures |StyleText(style)| <= 68 && forall k :: 0 <= k < |StyleText(style)| ==> 0x30 <= StyleText(style)[k] <= 0x3b
  {
    hide ColorsOk, StyleCodes, Bytes, AllDigits;
    StyleCodesBytes(style);
    ShortDecimals(StyleCodes(style));
    JoinedDigits(Decimals(StyleCodes(style)));
    StyleCodesShort(style);
  }

  lemma StyleCodesShort(style: Style)
    requires ColorsOk(style)
    ensures |StyleCodes(style)| <= 17
  {
    hide HexColor;
    assert |Weight(style)| <= 3 && |Lines(style)| <= 3;
  }
}
