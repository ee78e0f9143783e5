/** The terminal-history parser: bytes with escape sequences in, styled lines out. */
module AnsiHistory {
  import opened Text
  import opened Sgr

  const MAX_SGR_BYTES := 4096
  const LINE_OVERHEAD := 32
  const RUN_OVERHEAD := 96

  // A run without a style carries the default one.
  datatype Run = Run(text: seq<byte>, style: Option<Style>)
  datatype Line = Line(runs: seq<Run>, bidiWarning: bool)
  datatype Limits = Limits(maxLineBytes: int, maxLines: int, maxRunsPerLine: int,
                           maxRunsPerSnapshot: int, maxStructuredBytes: int)
  datatype ParseResult = Parsed(lines: seq<Line>) | ResourceLimit

  // ----- UTF-8

  const RUNE_ERROR := 0xfffd

  predicate Between(input: seq<byte>, i: nat, lo: int, hi: int) { i < |input| && lo <= input[i] <= hi }

  function Tail(lead: int, continuation: int): int { lead * 0x40 + (continuation - 0x80) }

  /** The rune at position i and its length; a byte that starts no well-formed sequence
      is RUNE_ERROR of length one. */
  function DecodeRune(input: seq<byte>, i: nat): (r: (int, nat))
    requires i < |input|
    ensures 1 <= r.1 <= 4 && i + r.1 <= |input|
    ensures input[i] >= 0x80 ==> forall k :: i <= k < i + r.1 ==> input[k] >= 0x80
  {
    var b: int := input[i];
    if b < 0x80 then (b, 1)
    else if 0xc2 <= b <= 0xdf && Between(input, i + 1, 0x80, 0xbf) then
      (Tail(b - 0xc0, input[i + 1]), 2)
    else if 0xe0 <= b <= 0xef
         && Between(input, i + 1, if b == 0xe0 then 0xa0 else 0x80, if b == 0xed then 0x9f else 0xbf)
         && Between(input, i + 2, 0x80, 0xbf) then
      (Tail(Tail(b - 0xe0, input[i + 1]), input[i + 2]), 3)
    else if 0xf0 <= b <= 0xf4
         && Between(input, i + 1, if b == 0xf0 then 0x90 else 0x80, if b == 0xf4 then 0x8f else 0xbf)
         && Between(input, i + 2, 0x80, 0xbf) && Between(input, i + 3, 0x80, 0xbf) then
      (Tail(Tail(Tail(b - 0xf0, input[i + 1]), input[i + 2]), input[i + 3]), 4)
    else (RUNE_ERROR, 1)
  }

  // ----- Bidirectional controls are shown as labels

  predicate IsBidiControl(rune: int) {
    rune == 0x061c || rune == 0x200e || rune == 0x200f || 0x202a <= rune <= 0x202e || 0x2066 <= rune <= 0x2069
  }

  function UpperHex(n: int): (b: byte)
    requires 0 <= n < 16
    ensures b >= 0x30
  {
    if n < 10 then 0x30 + n else 0x41 + (n - 10)
  }

  /** "[BIDI U+XXXX]" */
  function BidiLabel(rune: int): (text: seq<byte>)
    requires IsBidiControl(rune)
    ensures text != [] && forall b :: b in text ==> Printable(b)
  {
    [0x5b, 0x42, 0x49, 0x44, 0x49, 0x20, 0x55, 0x2b,
     UpperHex(rune / 0x1000), UpperHex(rune / 0x100 % 16), UpperHex(rune / 0x10 % 16), UpperHex(rune % 16), 0x5d]
  }

  predicate Printable(b: byte) { b == 0x09 || (b >= 0x20 && b != 0x7f) }

  // ----- Reference: one token at a time

  predicate IsFinal(b: byte) { 0x40 <= b <= 0x7e }

  /** The final byte of a control sequence, or the end of the input. */
  function CsiEnd(input: seq<byte>, from: nat): (e: nat)
    requires from <= |input|
    ensures from <= e <= |input|
    ensures forall k :: from <= k < e ==> !IsFinal(input[k])
    ensures e < |input| ==> IsFinal(input[e])
    decreases |input| - from
  {
    if from == |input| || IsFinal(input[from]) then from else CsiEnd(input, from + 1)
  }

  predicate Terminates(input: seq<byte>, i: nat, bel: bool) {
    && i < |input|
    && (|| (bel && input[i] == 0x07)
        || (input[i] == 0x1b && i + 1 < |input| && input[i + 1] == 0x5c)
        || input[i] == 0x9c)
  }

  /** Past the terminator of a control string, or the end of the input. */
  function StringEnd(input: seq<byte>, from: nat, bel: bool): (next: nat)
    requires from <= |input|
    ensures from <= next <= |input|
    decreases |input| - from
  {
    if from == |input| then from
    else if Terminates(input, from, bel) then (if input[from] == 0x1b then from + 2 else from + 1)
    else StringEnd(input, from + 1, bel)
  }

  /** It goes past the first terminator, or to the end where there is none. */
  lemma {:induction false} StringEndsAtFirst(input: seq<byte>, from: nat, bel: bool, k: nat)
    requires from <= k <= |input| && (k == |input| || Terminates(input, k, bel))
    requires forall j: nat :: from <= j < k ==> !Terminates(input, j, bel)
    ensures StringEnd(input, from, bel) == if k == |input| then k else if input[k] == 0x1b then k + 2 else k + 1
    decreases k - from
  {
    if from < k { StringEndsAtFirst(input, from + 1, bel, k); }
  }

  datatype Token = NewLine | Segment(text: seq<byte>, bidi: bool) | Rendition(params: seq<byte>) | Ignored

  function LexCsi(input: seq<byte>, from: nat): (r: (Token, nat))
    requires from <= |input|
    ensures from <= r.1 <= |input|
  {
    var e := CsiEnd(input, from);
    if e == |input| then (Ignored, e)
    else if input[e] == 0x6d && e - from <= MAX_SGR_BYTES then (Rendition(input[from..e]), e + 1)
    else (Ignored, e + 1)
  }

  function LexEscape(input: seq<byte>, i: nat): (r: (Token, nat))
    requires i < |input|
    ensures i < r.1 <= |input|
  {
    if i + 1 == |input| then (Ignored, |input|)
    else if input[i + 1] == 0x5b then LexCsi(input, i + 2)
    else if input[i + 1] in {0x5d, 0x50, 0x5f, 0x5e} then (Ignored, StringEnd(input, i + 2, input[i + 1] == 0x5d))
    else (Ignored, i + 2)
  }

  function LexHigh(input: seq<byte>, i: nat): (r: (Token, nat))
    requires i < |input| && input[i] >= 0x80
    ensures i < r.1 <= |input|
  {
    var (rune, size) := DecodeRune(input, i);
    if rune == RUNE_ERROR && size == 1 && 0x90 <= input[i] <= 0x9f then
      if input[i] in {0x90, 0x9d, 0x9e, 0x9f} then (Ignored, StringEnd(input, i + 1, input[i] == 0x9d))
      else if input[i] == 0x9b then LexCsi(input, i + 1)
      else (Ignored, i + 1)
    else if IsBidiControl(rune) then (Segment(BidiLabel(rune), true), i + size)
    else (Segment(input[i..i + size], false), i + size)
  }

  function Lex(input: seq<byte>, i: nat): (r: (Token, nat))
    requires i < |input|
    ensures i < r.1 <= |input|
  {
    var b := input[i];
    if b >= 0x80 then LexHigh(input, i)
    else if b == 0x0a then (NewLine, i + 1)
    else if b == 0x1b then LexEscape(input, i)
    else if Printable(b) then (Segment([b], false), i + 1)
    else (Ignored, i + 1)
  }

  datatype Cell = Cell(b: byte, style: Style)
  datatype CellLine = CellLine(cells: seq<Cell>, bidi: bool)

  function Cells(text: seq<byte>, style: Style): (cells: seq<Cell>)
    ensures |cells| == |text|
  {
    seq(|text|, i requires 0 <= i < |text| => Cell(text[i], style))
  }

  const BLANK := CellLine([], false)

  /** The lines of styled bytes shown from position i on, with `line` begun and the style
      carried over line ends. */
  function Interpret(input: seq<byte>, i: nat, line: CellLine, style: Style): (lines: seq<CellLine>)
    requires i <= |input|
    ensures |lines| >= 1 && line.cells <= lines[0].cells
    decreases |input| - i
  {
    if i == |input| then [line]
    else
      var (token, next) := Lex(input, i);
      match token
      case NewLine => [line] + Interpret(input, next, BLANK, style)
      case Segment(text, bidi) =>
        Interpret(input, next, CellLine(line.cells + Cells(text, style), line.bidi || bidi), style)
      case Rendition(params) => Interpret(input, next, line, Select(style, params))
      case Ignored => Interpret(input, next, line, style)
  }

  // ----- Runs

  function RunStyle(style: Style): Option<Style> { if style == DEFAULT_STYLE then None else Some(style) }

  function Shown(style: Option<Style>): Style { style.GetOr(DEFAULT_STYLE) }

  predicate EqualStyle(existing: Option<Style>, current: Style) {
    if existing.None? then current == DEFAULT_STYLE else existing.value == current
  }

  function Extend(runs: seq<Run>, text: seq<byte>, style: Style): seq<Run> {
    if runs == [] || !EqualStyle(runs[|runs| - 1].style, style) then runs + [Run(text, RunStyle(style))]
    else
      var last := runs[|runs| - 1];
      runs[..|runs| - 1] + [Run(last.text + text, last.style)]
  }

  /** Maximal runs of equally styled cells. */
  function Group(cells: seq<Cell>): seq<Run> {
    if cells == [] then []
    else
      var last := cells[|cells| - 1];
      Extend(Group(cells[..|cells| - 1]), [last.b], last.style)
  }

  function Flatten(runs: seq<Run>): seq<Cell> {
    if runs == [] then []
    else
      var last := runs[|runs| - 1];
      Flatten(runs[..|runs| - 1]) + Cells(last.text, Shown(last.style))
  }

  /** No empty run, no run spelling out the default style, no equally styled neighbours. */
  predicate Canonical(runs: seq<Run>) {
    && (forall i :: 0 <= i < |runs| ==> runs[i].text != [] && runs[i].style != Some(DEFAULT_STYLE))
    && (forall i :: 0 < i < |runs| ==> runs[i - 1].style != runs[i].style)
  }

  lemma {:induction false} GroupExtend(cells: seq<Cell>, text: seq<byte>, style: Style)
    requires text != []
    ensures Group(cells + Cells(text, style)) == Extend(Group(cells), text, style)
  {
    var n := |text| - 1;
    var init, last := text[..n], text[n];
    assert init + [last] == text;
    assert cells + Cells(text, style) == (cells + Cells(init, style)) + [Cell(last, style)];
    GroupSnoc(cells + Cells(init, style), Cell(last, style));
    if n == 0 {
      assert cells + Cells(init, style) == cells;
    } else {
      GroupExtend(cells, init, style);
      ExtendTwice(Group(cells), init, [last], style);
    }
  }

  lemma GroupSnoc(cells: seq<Cell>, last: Cell)
    ensures Group(cells + [last]) == Extend(Group(cells), [last.b], last.style)
  {
    assert (cells + [last])[..|cells|] == cells;
  }

  lemma ExtendTwice(runs: seq<Run>, a: seq<byte>, b: seq<byte>, style: Style)
    ensures Extend(Extend(runs, a, style), b, style) == Extend(runs, a + b, style)
  {
    if runs != [] && EqualStyle(runs[|runs| - 1].style, style) {
      assert runs[|runs| - 1].text + a + b == runs[|runs| - 1].text + (a + b);
    }
  }

  /** Grouping loses nothing and leaves no empty run and no equal neighbours. */
  lemma {:induction false} GroupCanonical(cells: seq<Cell>)
    ensures Canonical(Group(cells)) && Flatten(Group(cells)) == cells
  {
    hide Extend;
    if cells != [] {
      var init, last := cells[..|cells| - 1], cells[|cells| - 1];
      hide Flatten, Canonical;
      GroupCanonical(init);
      ExtendCanonical(Group(init), [last.b], last.style);
      assert Cells([last.b], last.style) == [last];
    }
  }

  lemma ExtendCanonical(runs: seq<Run>, text: seq<byte>, style: Style)
    requires Canonical(runs) && text != []
    ensures Canonical(Extend(runs, text, style))
    ensures Flatten(Extend(runs, text, style)) == Flatten(runs) + Cells(text, style)
  {
    var result := Extend(runs, text, style);
    var n := |result| - 1;
    if runs == [] || !EqualStyle(runs[|runs| - 1].style, style) {
      assert result[..n] == runs;
    } else {
      var last := runs[|runs| - 1];
      assert result[..n] == runs[..n];
      assert Cells(last.text + text, style) == Cells(last.text, style) + Cells(text, style);
    }
  }

  /** ... and it is the only such grouping. */
  lemma {:induction false} GroupUnique(runs: seq<Run>)
    requires Canonical(runs)
    ensures Group(Flatten(runs)) == runs
  {
    if runs != [] {
      hide Group, Extend, Cells, Canonical;
      var init, last := runs[..|runs| - 1], runs[|runs| - 1];
      CanonicalEnds(runs);
      GroupUnique(init);
      GroupExtend(Flatten(init), last.text, Shown(last.style));
      NewRun(init, last);
      assert init + [last] == runs;
    }
  }

  lemma CanonicalEnds(runs: seq<Run>)
    requires Canonical(runs) && runs != []
    ensures var init, last := runs[..|runs| - 1], runs[|runs| - 1];
            && Canonical(init) && last.text != [] && last.style != Some(DEFAULT_STYLE)
            && (init != [] ==> init[|init| - 1].style != last.style && init[|init| - 1].style != Some(DEFAULT_STYLE))
  {
  }

  lemma NewRun(init: seq<Run>, last: Run)
    requires last.style != Some(DEFAULT_STYLE) && (init != [] ==> init[|init| - 1].style != last.style)
    requires init != [] ==> init[|init| - 1].style != Some(DEFAULT_STYLE)
    ensures Extend(init, last.text, Shown(last.style)) == init + [last]
  {
  }

  lemma {:induction false} GroupGrows(a: seq<Cell>, b: seq<Cell>)
    requires a <= b
    ensures |Group(a)| <= |Group(b)|
    decreases |b|
  {
    if a != b {
      assert a <= b[..|b| - 1];
      GroupGrows(a, b[..|b| - 1]);
    } 
  }

  function GroupLines(lines: seq<CellLine>): (grouped: seq<Line>)
    ensures |grouped| == |lines|
  {
    seq(|lines|, i requires 0 <= i < |lines| => Line(Group(lines[i].cells), lines[i].bidi))
  }

  /** What parsing without limits yields. */
  function Reference(input: seq<byte>): seq<Line> { GroupLines(Interpret(input, 0, BLANK, DEFAULT_STYLE)) }

  // ----- Limits

  function TextBytes(runs: seq<Run>): nat {
    if runs == [] then 0 else TextBytes(runs[..|runs| - 1]) + |runs[|runs| - 1].text|
  }

  function TotalRuns(lines: seq<Line>): nat {
    if lines == [] then 0 else TotalRuns(lines[..|lines| - 1]) + |lines[|lines| - 1].runs|
  }

  function LineCost(runs: seq<Run>): nat { LINE_OVERHEAD + RUN_OVERHEAD * |runs| + TextBytes(runs) }

  function StructuredBytes(lines: seq<Line>): nat {
    if lines == [] then 0 else StructuredBytes(lines[..|lines| - 1]) + LineCost(lines[|lines| - 1].runs)
  }

  predicate Positive(limits: Limits) {
    && limits.maxLineBytes > 0 && limits.maxLines > 0 && limits.maxRunsPerLine > 0
    && limits.maxRunsPerSnapshot > 0 && limits.maxStructuredBytes > 0
  }

  predicate LineFits(line: Line, limits: Limits) {
    TextBytes(line.runs) <= limits.maxLineBytes && |line.runs| <= limits.maxRunsPerLine
  }

  predicate Fits(lines: seq<Line>, limits: Limits) {
    && |lines| <= limits.maxLines
    && (forall i :: 0 <= i < |lines| ==> LineFits(lines[i], limits))
    && TotalRuns(lines) <= limits.maxRunsPerSnapshot
    && StructuredBytes(lines) <= limits.maxStructuredBytes
  }

  lemma {:induction false} TextBytesOfFlatten(runs: seq<Run>)
    ensures TextBytes(runs) == |Flatten(runs)|
  {
    if runs != [] { TextBytesOfFlatten(runs[..|runs| - 1]); }
  }

  lemma TextBytesOfGroup(cells: seq<Cell>)
    ensures TextBytes(Group(cells)) == |cells|
  {
    GroupCanonical(cells);
    TextBytesOfFlatten(Group(cells));
  }

  lemma {:induction false} CostsGrow(lines: seq<Line>, k: nat)
    requires k <= |lines|
    ensures TotalRuns(lines[..k]) <= TotalRuns(lines)
    ensures StructuredBytes(lines[..k]) <= StructuredBytes(lines)
    decreases |lines|
  {
    if k < |lines| {
      CostsGrow(lines[..|lines| - 1], k);
      assert lines[..|lines| - 1][..k] == lines[..k];
    } else {
      assert lines[..k] == lines;
    }
  }

  /** Text already collected that no completion can bring back within the limits. */
  ghost predicate Overfull(limits: Limits, finished: seq<CellLine>, cells: seq<Cell>) {
    || |cells| > limits.maxLineBytes
    || |Group(cells)| > limits.maxRunsPerLine
    || TotalRuns(GroupLines(finished)) + |Group(cells)| > limits.maxRunsPerSnapshot
    || |finished| + 1 > limits.maxLines
    || StructuredBytes(GroupLines(finished)) + LINE_OVERHEAD + RUN_OVERHEAD * |Group(cells)| + |cells| > limits.maxStructuredBytes
  }

  lemma OverfullNeverFits(limits: Limits, finished: seq<CellLine>, cells: seq<Cell>, more: seq<CellLine>)
    requires Overfull(limits, finished, cells)
    requires |more| >= 1 && cells <= more[0].cells
    ensures !Fits(GroupLines(finished + more), limits)
  {
    var lines := GroupLines(finished + more);
    var k := |finished|;
    var line := lines[k];
    GroupGrows(cells, more[0].cells);
    TextBytesOfGroup(more[0].cells);
    assert (finished + more)[k] == more[0];
    assert line.runs == Group(more[0].cells);
    CostsGrow(lines, k + 1);
    assert lines[..k + 1][..k] == lines[..k] == GroupLines(finished);
    assert Fits(lines, limits) ==> LineFits(line, limits);
  }

  // ----- The parser

  method ConsumeCSI(input: seq<byte>, paramsStart: nat) returns (next: nat, sgr: bool, params: seq<byte>)
    requires paramsStart <= |input|
    ensures next == LexCsi(input, paramsStart).1
    ensures LexCsi(input, paramsStart).0 == if sgr && |params| <= MAX_SGR_BYTES then Rendition(params) else Ignored
  {
    var index := paramsStart;
    while index < |input|
      invariant paramsStart <= index <= |input|
      invariant CsiEnd(input, paramsStart) == CsiEnd(input, index)
    {
      if 0x40 <= input[index] <= 0x7e {
        return index + 1, input[index] == 0x6d, input[paramsStart..index];
      }
      index := index + 1;
    }
    return |input|, false, [];
  }

  method ConsumeStringControl(input: seq<byte>, start: nat, allowBEL: bool) returns (next: nat)
    requires start <= |input|
    ensures next == StringEnd(input, start, allowBEL)
  {
    var index := start;
    while index < |input|
      invariant start <= index <= |input|
      invariant StringEnd(input, start, allowBEL) == StringEnd(input, index, allowBEL)
    {
      if allowBEL && input[index] == 0x07 {
        return index + 1;
      }
      if input[index] == 0x1b && index + 1 < |input| && input[index + 1] == 0x5c {
        return index + 2;
      }
      if input[index] == 0x9c {
        return index + 1;
      }
      index := index + 1;
    }
    return |input|;
  }

  method ConsumeEscapeSequence(input: seq<byte>, start: nat) returns (next: nat, sgr: bool, params: seq<byte>)
    requires start < |input|
    ensures next == LexEscape(input, start).1
    ensures LexEscape(input, start).0 == if sgr && |params| <= MAX_SGR_BYTES then Rendition(params) else Ignored
  {
    if start + 1 >= |input| {
      return |input|, false, [];
    }
    match input[start + 1]
    case 0x5b =>
      next, sgr, params := ConsumeCSI(input, start + 2);
    case 0x5d | 0x50 | 0x5f | 0x5e =>
      next := ConsumeStringControl(input, start + 2, input[start + 1] == 0x5d);
      sgr, params := false, [];
    case _ =>
      return start + 2, false, [];
  }

  lemma AddLine(finished: seq<CellLine>, line: CellLine, limits: Limits)
    requires Fits(GroupLines(finished), limits)
    ensures var before, after := GroupLines(finished), GroupLines(finished + [line]);
            && after == before + [Line(Group(line.cells), line.bidi)]
            && TotalRuns(after) == TotalRuns(before) + |Group(line.cells)|
            && StructuredBytes(after) == StructuredBytes(before) + LINE_OVERHEAD + RUN_OVERHEAD * |Group(line.cells)| + |line.cells|
            && (|| Fits(after, limits) || |line.cells| > limits.maxLineBytes || |Group(line.cells)| > limits.maxRunsPerLine
                || |after| > limits.maxLines || TotalRuns(after) > limits.maxRunsPerSnapshot
                || StructuredBytes(after) > limits.maxStructuredBytes)
  {
    var before, after := GroupLines(finished), GroupLines(finished + [line]);
    assert after[..|finished|] == before;
    TextBytesOfGroup(line.cells);
    assert LineFits(after[|finished|], limits)
        || |line.cells| > limits.maxLineBytes || |Group(line.cells)| > limits.maxRunsPerLine;
  }

  /** The local variables of the parser that its closures update. */
  datatype Builder = Builder(lines: seq<Line>, runs: seq<Run>, style: Style, lineBytes: nat, lineBidiWarning: bool,
                             totalRuns: nat, structuredBytes: nat)

  /** The counters count what has been collected, and it is within the limits. */
  ghost predicate Collected(b: Builder, limits: Limits, finished: seq<CellLine>, line: CellLine) {
    && b.lines == GroupLines(finished) && b.runs == Group(line.cells) && b.lineBidiWarning == line.bidi
    && b.lineBytes == |line.cells|
    && b.totalRuns == TotalRuns(b.lines) + |b.runs|
    && b.structuredBytes == StructuredBytes(b.lines) + RUN_OVERHEAD * |b.runs| + |line.cells|
    && Fits(b.lines, limits)
    && b.lineBytes <= limits.maxLineBytes && |b.runs| <= limits.maxRunsPerLine
    && b.totalRuns <= limits.maxRunsPerSnapshot && b.structuredBytes <= limits.maxStructuredBytes
  }

  method ReserveStructured(used: nat, bytes: nat, limits: Limits) returns (ok: bool, used': nat)
    ensures ok == (used + bytes <= limits.maxStructuredBytes)
    ensures used' == if ok then used + bytes else used
  {
    if bytes > limits.maxStructuredBytes - used {
      return false, used;
    }
    return true, used + bytes;
  }

  method FlushLine(b: Builder, limits: Limits, ghost finished: seq<CellLine>, ghost line: CellLine)
    returns (ok: bool, b': Builder)
    requires Collected(b, limits, finished, line)
    ensures b'.style == b.style
    ensures ok ==> Collected(b', limits, finished + [line], BLANK)
    ensures !ok ==> Overfull(limits, finished, line.cells)
  {
    AddLine(finished, line, limits);
    if |b.lines| >= limits.maxLines {
      return false, b;
    }
    var used;
    ok, used := ReserveStructured(b.structuredBytes, LINE_OVERHEAD, limits);
    if !ok {
      return false, b;
    }
    b' := b.(lines := b.lines + [Line(b.runs, b.lineBidiWarning)], runs := [], lineBytes := 0,
             lineBidiWarning := false, structuredBytes := used);
  }

  lemma ExtendLength(runs: seq<Run>, text: seq<byte>, style: Style)
    ensures |Extend(runs, text, style)| ==
            |runs| + if runs == [] || !EqualStyle(runs[|runs| - 1].style, style) then 1 else 0
  {
  }

  /** Adding text to the last run, a new empty one where the style changes, extends the runs. */
  lemma LastRunExtended(before: seq<Run>, runs: seq<Run>, value: seq<byte>, style: Style)
    requires if before == [] || !EqualStyle(before[|before| - 1].style, style) then runs == before + [Run([], RunStyle(style))] else runs == before
    ensures runs != [] && var last := runs[|runs| - 1];
            runs[..|runs| - 1] + [Run(last.text + value, last.style)] == Extend(before, value, style)
            && |Extend(before, value, style)| == |runs|
  {
    if before == [] || !EqualStyle(before[|before| - 1].style, style) {
      assert runs[..|runs| - 1] == before && [] + value == value;
    }
  }

  method AppendText(b: Builder, value: seq<byte>, limits: Limits, ghost finished: seq<CellLine>, ghost line: CellLine)
    returns (ok: bool, b': Builder)
    requires Collected(b, limits, finished, line) && value != []
    ensures b'.style == b.style
    ensures ok ==> Collected(b', limits, finished, line.(cells := line.cells + Cells(value, b.style)))
    ensures !ok ==> Overfull(limits, finished, line.cells + Cells(value, b.style))
  {
    hide Group, TotalRuns, StructuredBytes, GroupLines, Fits, Extend, Cells;
    assert |Cells(value, b.style)| == |value|;
    GroupExtend(line.cells, value, b.style);
    ExtendLength(b.runs, value, b.style);
    if |value| > limits.maxLineBytes - b.lineBytes {
      return false, b;
    }
    var used, runs, totalRuns := b.structuredBytes, b.runs, b.totalRuns;
    ok, used := ReserveStructured(used, |value|, limits);
    if !ok {
      return false, b;
    }
    if |runs| == 0 || !EqualStyle(runs[|runs| - 1].style, b.style) {
      if |runs| >= limits.maxRunsPerLine || totalRuns >= limits.maxRunsPerSnapshot {
        return false, b;
      }
      ok, used := ReserveStructured(used, RUN_OVERHEAD, limits);
      if !ok {
        return false, b;
      }
      runs := runs + [Run([], RunStyle(b.style))];
      totalRuns := totalRuns + 1;
    }
    LastRunExtended(b.runs, runs, value, b.style);
    var last := runs[|runs| - 1];
    runs := runs[..|runs| - 1] + [Run(last.text + value, last.style)];
    b' := b.(runs := runs, lineBytes := b.lineBytes + |value|, totalRuns := totalRuns, structuredBytes := used);
  }

  /** From position `index` with `line` begun, everything still to come in `style`. */
  ghost function Whole(input: seq<byte>, index: nat, finished: seq<CellLine>, line: CellLine, style: Style): seq<CellLine>
    requires index <= |input|
  {
    finished + Interpret(input, index, line, style)
  }

  lemma WholeNeverFits(input: seq<byte>, index: nat, limits: Limits, finished: seq<CellLine>, line: CellLine, style: Style)
    requires index <= |input| && Overfull(limits, finished, line.cells)
    ensures !Fits(GroupLines(Whole(input, index, finished, line, style)), limits)
  {
    OverfullNeverFits(limits, finished, line.cells, Interpret(input, index, line, style));
  }

  /** Appends a stretch of text that the interpreter shows between index and next. */
  method AppendSegment(input: seq<byte>, index: nat, next: nat, text: seq<byte>, bidi: bool, b: Builder, limits: Limits,
                       ghost finished: seq<CellLine>, ghost line: CellLine)
    returns (ok: bool, b': Builder, ghost line': CellLine)
    requires index <= next <= |input| && text != [] && Collected(b, limits, finished, line)
    requires Interpret(input, index, line, b.style)
          == Interpret(input, next, CellLine(line.cells + Cells(text, b.style), line.bidi || bidi), b.style)
    ensures ok ==> Collected(b', limits, finished, line')
    ensures ok ==> Whole(input, next, finished, line', b'.style) == Whole(input, index, finished, line, b.style)
    ensures !ok ==> !Fits(GroupLines(Whole(input, index, finished, line, b.style)), limits)
  {
    line' := CellLine(line.cells + Cells(text, b.style), line.bidi || bidi);
    ok, b' := AppendText(b, text, limits, finished, line);
    if bidi {
      b' := b'.(lineBidiWarning := true);
    }
    if !ok {
      WholeNeverFits(input, next, limits, finished, line', b.style);
    }
  }

  method ApplyRendition(b: Builder, sgr: bool, params: seq<byte>) returns (b': Builder)
    ensures b' == if sgr && |params| <= MAX_SGR_BYTES then b.(style := Select(b.style, params)) else b
  {
    b' := b;
    if sgr && |params| <= MAX_SGR_BYTES {
      var style := ApplySGR(b.style, params);
      b' := b.(style := style);
    }
  }

  predicate IsC1(input: seq<byte>, index: nat)
    requires index < |input|
  {
    DecodeRune(input, index) == (RUNE_ERROR, 1) && 0x90 <= input[index] <= 0x9f
  }

  method ParseC1(input: seq<byte>, index: nat, b: Builder, ghost line: CellLine) returns (next: nat, b': Builder)
    requires index < |input| && IsC1(input, index)
    ensures index < next <= |input| && b' == b.(style := b'.style)
    ensures Interpret(input, index, line, b.style) == Interpret(input, next, line, b'.style)
  {
    ghost var token := Lex(input, index);
    b' := b;
    match input[index]
    case 0x90 | 0x9d | 0x9e | 0x9f =>
      next := ConsumeStringControl(input, index + 1, input[index] == 0x9d);
      assert token == (Ignored, next);
    case 0x9b =>
      var sgr, params;
      next, sgr, params := ConsumeCSI(input, index + 1);
      assert token == LexCsi(input, index + 1);
      b' := ApplyRendition(b, sgr, params);
    case _ =>
      next := index + 1;
      assert token == (Ignored, next);
  }

  method ParseEscape(input: seq<byte>, index: nat, b: Builder, ghost line: CellLine) returns (next: nat, b': Builder)
    requires index < |input| && input[index] == 0x1b
    ensures index < next <= |input| && b' == b.(style := b'.style)
    ensures Interpret(input, index, line, b.style) == Interpret(input, next, line, b'.style)
  {
    var sgr, params;
    next, sgr, params := ConsumeEscapeSequence(input, index);
    assert Lex(input, index) == LexEscape(input, index);
    b' := ApplyRendition(b, sgr, params);
  }

  /** A byte from 0x80 up: a C1 control, a bidirectional control or text. */
  method ParseHigh(input: seq<byte>, index: nat, b: Builder, limits: Limits, ghost finished: seq<CellLine>, ghost line: CellLine)
    returns (ok: bool, next: nat, b': Builder, ghost line': CellLine)
    requires index < |input| && input[index] >= 0x80 && Collected(b, limits, finished, line)
    ensures ok ==> index < next <= |input| && Collected(b', limits, finished, line')
    ensures ok ==> Whole(input, next, finished, line', b'.style) == Whole(input, index, finished, line, b.style)
    ensures !ok ==> !Fits(GroupLines(Whole(input, index, finished, line, b.style)), limits)
  {
    if IsC1(input, index) {
      next, b' := ParseC1(input, index, b, line);
      return true, next, b', line;
    }
    var (rune, size) := DecodeRune(input, index);
    next := index + size;
    var text, bidi := input[index..next], false;
    if IsBidiControl(rune) {
      text, bidi := BidiLabel(rune), true;
    }
    assert Lex(input, index) == (Segment(text, bidi), next);
    ok, b', line' := AppendSegment(input, index, next, text, bidi, b, limits, finished, line);
  }

  /** The end of the printable stretch that starts at `start`. */
  method ScanText(input: seq<byte>, start: nat, ghost line: CellLine, ghost style: Style) returns (index: nat)
    requires start < |input| && 0x20 <= input[start] < 0x7f
    ensures start < index <= |input|
    ensures Interpret(input, start, line, style)
         == Interpret(input, index, line.(cells := line.cells + Cells(input[start..index], style)), style)
  {
    index := start;
    assert line.cells + Cells(input[start..start], style) == line.cells;
    while index < |input|
      invariant start <= index <= |input|
      invariant Interpret(input, start, line, style)
             == Interpret(input, index, line.(cells := line.cells + Cells(input[start..index], style)), style)
    {
      var candidate := input[index];
      if candidate >= 0x80 || candidate == 0x0a || candidate == 0x0d || candidate == 0x09 || candidate == 0x1b
         || candidate < 0x20 || candidate == 0x7f {
        break;
      }
      assert Lex(input, index) == (Segment([candidate], false), index + 1);
      assert line.cells + Cells(input[start..index], style) + Cells([candidate], style)
          == line.cells + Cells(input[start..index + 1], style);
      index := index + 1;
    }
  }

  method ParseLow(input: seq<byte>, index: nat, b: Builder, limits: Limits, ghost finished: seq<CellLine>, ghost line: CellLine)
    returns (ok: bool, next: nat, b': Builder, ghost finished': seq<CellLine>, ghost line': CellLine)
    requires index < |input| && input[index] < 0x80 && Collected(b, limits, finished, line)
    ensures ok ==> index < next <= |input| && Collected(b', limits, finished', line')
    ensures ok ==> Whole(input, next, finished', line', b'.style) == Whole(input, index, finished, line, b.style)
    ensures !ok ==> !Fits(GroupLines(Whole(input, index, finished, line, b.style)), limits)
  {
    ok, b', finished', line' := true, b, finished, line;
    var value := input[index];
    next := index + 1;
    match value
    case 0x0a =>
      finished', line' := finished + [line], BLANK;
      assert finished' + Interpret(input, next, BLANK, b.style) == finished + ([line] + Interpret(input, next, BLANK, b.style));
      ok, b' := FlushLine(b, limits, finished, line);
      if !ok {
        WholeNeverFits(input, index, limits, finished, line, b.style);
      }
    case 0x0d =>
      assert Lex(input, index) == (Ignored, next);
    case 0x09 =>
      assert Lex(input, index) == (Segment([0x09], false), next);
      ok, b', line' := AppendSegment(input, index, next, [0x09], false, b, limits, finished, line);
    case 0x1b =>
      next, b' := ParseEscape(input, index, b, line);
    case _ =>
      if value < 0x20 || value == 0x7f {
        assert Lex(input, index) == (Ignored, next);
        return;
      }
      next := ScanText(input, index, line, b.style);
      ok, b', line' := AppendSegment(input, index, next, input[index..next], false, b, limits, finished, line);
  }

  /** The bounded parse succeeds exactly when the unbounded result is within all five
      limits, and then it returns that result. */
  method Parse(input: seq<byte>, limits: Limits) returns (r: ParseResult)
    ensures r == if Positive(limits) && Fits(Reference(input), limits) then Parsed(Reference(input)) else ResourceLimit
  {
    if limits.maxLineBytes <= 0 || limits.maxLines <= 0 || limits.maxRunsPerLine <= 0
       || limits.maxRunsPerSnapshot <= 0 || limits.maxStructuredBytes <= 0 {
      return ResourceLimit;
    }
    var b := Builder([], [], DEFAULT_STYLE, 0, false, 0, 0);
    ghost var finished: seq<CellLine>, line := [], BLANK;
    ghost var all := Interpret(input, 0, BLANK, DEFAULT_STYLE);
    assert [] + all == all;
    var ok: bool;
    var index := 0;
    while index < |input|
      invariant index <= |input|
      invariant Collected(b, limits, finished, line)
      invariant Whole(input, index, finished, line, b.style) == all
    {
      if input[index] >= 0x80 {
        ok, index, b, line := ParseHigh(input, index, b, limits, finished, line);
      } else {
        ok, index, b, finished, line := ParseLow(input, index, b, limits, finished, line);
      }
      if !ok {
        return ResourceLimit;
      }
    }
    assert finished + [line] == all;
    ok, b := FlushLine(b, limits, finished, line);
    if !ok {
      WholeNeverFits(input, index, limits, finished, line, b.style);
      return ResourceLimit;
    }
    return Parsed(b.lines);
  }

  // ----- What every parse result looks like

  ghost predicate CleanCells(cells: seq<Cell>) {
    forall k :: 0 <= k < |cells| ==> Printable(cells[k].b) && ColorsOk(cells[k].style)
  }

  ghost predicate CleanRuns(runs: seq<Run>) {
    forall k :: 0 <= k < |runs| ==> ColorsOk(Shown(runs[k].style)) && forall b :: b in runs[k].text ==> Printable(b)
  }

  lemma SegmentsPrintable(input: seq<byte>, i: nat)
    requires i < |input|
    ensures var token := Lex(input, i).0; token.Segment? ==> token.text != [] && forall b :: b in token.text ==> Printable(b)
  {
  }

  lemma {:induction false} InterpretClean(input: seq<byte>, i: nat, line: CellLine, style: Style)
    requires i <= |input| && CleanCells(line.cells) && ColorsOk(style)
    ensures forall k :: 0 <= k < |Interpret(input, i, line, style)| ==> CleanCells(Interpret(input, i, line, style)[k].cells)
    decreases |input| - i
  {
    if i < |input| {
      var (token, next) := Lex(input, i);
      match token
      case NewLine => InterpretClean(input, next, BLANK, style);
      case Segment(text, bidi) =>
        SegmentsPrintable(input, i);
        InterpretClean(input, next, CellLine(line.cells + Cells(text, style), line.bidi || bidi), style);
      case Rendition(params) =>
        SelectKeepsColors(style, params);
        InterpretClean(input, next, line, Select(style, params));
      case Ignored => InterpretClean(input, next, line, style);
    }
  }

  lemma {:induction false} GroupClean(cells: seq<Cell>)
    requires CleanCells(cells)
    ensures CleanRuns(Group(cells))
  {
    if cells != [] {
      var init, last := cells[..|cells| - 1], cells[|cells| - 1];
      GroupClean(init);
      assert Printable(last.b) && ColorsOk(last.style);
      var runs := Group(init);
      if runs != [] && EqualStyle(runs[|runs| - 1].style, last.style) {
        var before := runs[|runs| - 1].text;
        var after := before + [last.b];
        assert forall b :: b in after ==> b in before || b == last.b;
      }
    }
  }

  /** Every line of a result is the one grouping without empty runs or equal neighbours
      of the cells the interpreter shows; its text holds no control byte but the tab, and
      its colours are well formed. */
  lemma ReferenceLines(input: seq<byte>, k: nat)
    requires k < |Reference(input)|
    ensures var shown, line := Interpret(input, 0, BLANK, DEFAULT_STYLE)[k], Reference(input)[k];
            && Canonical(line.runs) && Flatten(line.runs) == shown.cells && line.bidiWarning == shown.bidi
            && CleanRuns(line.runs)
            && forall runs :: Canonical(runs) && Flatten(runs) == shown.cells ==> runs == line.runs
  {
    var shown := Interpret(input, 0, BLANK, DEFAULT_STYLE)[k];
    InterpretClean(input, 0, BLANK, DEFAULT_STYLE);
    GroupCanonical(shown.cells);
    GroupClean(shown.cells);
    forall runs | Canonical(runs) && Flatten(runs) == shown.cells
      ensures runs == Group(shown.cells)
    {
      GroupUnique(runs);
    }
  }
}
