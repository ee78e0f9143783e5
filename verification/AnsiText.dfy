/** What the parser makes of text: UTF-8 read exactly, bidirectional controls known by their
    bytes, every form of control, and a document written out and read back. */
module AnsiText {
  import opened Text
  import opened Sgr
  import opened SgrText
  import opened AnsiHistory

  // ----- UTF-8 (section 3 of RFC 3629)

  predicate Scalar(rune: int) { 0 <= rune < 0xd800 || 0xe000 <= rune < 0x110000 }

  function Utf8(rune: int): (s: seq<byte>)
    requires Scalar(rune)
    ensures 1 <= |s| <= 4
  {
    if rune < 0x80 then [rune]
    else if rune < 0x800 then [0xc0 + rune / 0x40, 0x80 + rune % 0x40]
    else if rune < 0x10000 then [0xe0 + rune / 0x1000, 0x80 + rune / 0x40 % 0x40, 0x80 + rune % 0x40]
    else [0xf0 + rune / 0x40000, 0x80 + rune / 0x1000 % 0x40, 0x80 + rune / 0x40 % 0x40, 0x80 + rune % 0x40]
  }

  predicate BeginsWith(input: seq<byte>, i: nat, s: seq<byte>) {
    i + |s| <= |input| && forall k :: 0 <= k < |s| ==> input[i + k] == s[k]
  }

  /** Where a character is written out, it is read. */
  lemma DecodesCharacter(input: seq<byte>, i: nat, rune: int)
    requires Scalar(rune) && BeginsWith(input, i, Utf8(rune))
    ensures i < |input| && DecodeRune(input, i) == (rune, |Utf8(rune)|)
  {
    var s := Utf8(rune);
    assert input[i + 0] == s[0];
    if rune < 0x80 {
    } else if rune < 0x800 {
      assert input[i + 1] == s[1];
    } else if rune < 0x10000 {
      DecodesThree(input, i, rune);
    } else {
      DecodesFour(input, i, rune);
    }
  }

  lemma DecodesThree(input: seq<byte>, i: nat, rune: int)
    requires Scalar(rune) && 0x800 <= rune < 0x10000 && BeginsWith(input, i, Utf8(rune))
    ensures i < |input| && DecodeRune(input, i) == (rune, 3)
  {
    var s := Utf8(rune);
    assert input[i + 0] == s[0] && input[i + 1] == s[1] && input[i + 2] == s[2];
    Digits64(rune);
  }

  lemma DecodesFour(input: seq<byte>, i: nat, rune: int)
    requires Scalar(rune) && 0x10000 <= rune && BeginsWith(input, i, Utf8(rune))
    ensures i < |input| && DecodeRune(input, i) == (rune, 4)
  {
    var s := Utf8(rune);
    assert input[i + 0] == s[0] && input[i + 1] == s[1] && input[i + 2] == s[2] && input[i + 3] == s[3];
    Digits64(rune);
  }

  lemma Digits64(n: int)
    requires 0 <= n < 0x110000
    ensures n / 0x1000 == n / 0x40 / 0x40 && n / 0x40000 == n / 0x1000 / 0x40
    ensures n == (n / 0x40) * 0x40 + n % 0x40 && n / 0x40 == (n / 0x1000) * 0x40 + n / 0x40 % 0x40
    ensures n / 0x1000 == (n / 0x40000) * 0x40 + n / 0x1000 % 0x40 && n / 0x40000 <= 4
  {
  }

  lemma TailDigits(lead: int, continuation: int)
    requires lead >= 0 && 0x80 <= continuation < 0xc0
    ensures Tail(lead, continuation) / 0x40 == lead && Tail(lead, continuation) % 0x40 == continuation - 0x80
  {
  }

  /** ... and nothing else is read as one: whatever is not an error is a character written out. */
  lemma DecodesNothingElse(input: seq<byte>, i: nat)
    requires i < |input| && DecodeRune(input, i) != (RUNE_ERROR, 1)
    ensures var (rune, size) := DecodeRune(input, i); Scalar(rune) && size == |Utf8(rune)| && BeginsWith(input, i, Utf8(rune))
  {
    var size := DecodeRune(input, i).1;
    if size == 2 {
      TailDigits(input[i] - 0xc0, input[i + 1]);
    } else if size == 3 {
      DecodedThree(input, i);
    } else if size == 4 {
      DecodedFour(input, i);
    }
  }

  lemma DecodedThree(input: seq<byte>, i: nat)
    requires i < |input| && DecodeRune(input, i).1 == 3
    ensures var rune := DecodeRune(input, i).0; Scalar(rune) && |Utf8(rune)| == 3 && BeginsWith(input, i, Utf8(rune))
  {
    var top := Tail(input[i] - 0xe0, input[i + 1]);
    var rune := Tail(top, input[i + 2]);
    assert DecodeRune(input, i) == (rune, 3);
    TailDigits(input[i] - 0xe0, input[i + 1]);
    TailDigits(top, input[i + 2]);
    Digits64(rune);
    assert Utf8(rune) == [input[i], input[i + 1], input[i + 2]];
  }

  lemma DecodedFour(input: seq<byte>, i: nat)
    requires i < |input| && DecodeRune(input, i).1 == 4
    ensures var rune := DecodeRune(input, i).0; Scalar(rune) && |Utf8(rune)| == 4 && BeginsWith(input, i, Utf8(rune))
  {
    var top := Tail(input[i] - 0xf0, input[i + 1]);
    var middle := Tail(top, input[i + 2]);
    var rune := Tail(middle, input[i + 3]);
    assert DecodeRune(input, i) == (rune, 4);
    TailDigits(input[i] - 0xf0, input[i + 1]);
    TailDigits(top, input[i + 2]);
    TailDigits(middle, input[i + 3]);
    Digits64(rune);
    assert Utf8(rune) == [input[i], input[i + 1], input[i + 2], input[i + 3]];
  }

  /** So a byte is an error exactly where no character is written out. */
  lemma ErrorOnlyIf(input: seq<byte>, i: nat)
    requires i < |input|
    ensures DecodeRune(input, i) == (RUNE_ERROR, 1) <==> !exists rune :: Scalar(rune) && BeginsWith(input, i, Utf8(rune))
  {
    if DecodeRune(input, i) != (RUNE_ERROR, 1) {
      DecodesNothingElse(input, i);
      assert Scalar(DecodeRune(input, i).0);
    } else {
      forall rune | Scalar(rune) && BeginsWith(input, i, Utf8(rune))
        ensures false
      {
        DecodesCharacter(input, i, rune);
      }
    }
  }

  // ----- Bidirectional controls by their bytes

  /** The bytes of one of the twelve bidirectional controls stand at i. */
  predicate BidiAt(s: seq<byte>, i: nat) {
    || (i + 2 <= |s| && s[i] == 0xd8 && s[i + 1] == 0x9c)
    || (i + 3 <= |s| && s[i] == 0xe2
        && (|| (s[i + 1] == 0x80 && (s[i + 2] == 0x8e || s[i + 2] == 0x8f || 0xaa <= s[i + 2] <= 0xae))
            || (s[i + 1] == 0x81 && 0xa6 <= s[i + 2] <= 0xa9)))
  }

  lemma BidiByBytes(input: seq<byte>, i: nat)
    requires i < |input|
    ensures IsBidiControl(DecodeRune(input, i).0) <==> BidiAt(input, i)
  {
  }

  function UpperHexValue(b: byte): int { if b < 65 then b - 48 else b - 65 + 10 }

  /** "[BIDI U+", four upper-case base-16 digits of the control's number, "]". */
  predicate Names(text: seq<byte>, rune: int) {
    && |text| == 13 && text[..8] == Ascii("[BIDI U+") && text[12..] == Ascii("]")
    && (forall k :: 8 <= k < 12 ==> 48 <= text[k] <= 57 || 65 <= text[k] <= 70)
    && ((UpperHexValue(text[8]) * 16 + UpperHexValue(text[9])) * 16 + UpperHexValue(text[10])) * 16 + UpperHexValue(text[11]) == rune
  }

  function Ascii(s: string): seq<byte>
    requires forall k :: 0 <= k < |s| ==> s[k] as int < 128
  {
    seq(|s|, k requires 0 <= k < |s| => s[k] as int)
  }

  lemma LabelNames(rune: int)
    requires IsBidiControl(rune)
    ensures Names(BidiLabel(rune), rune)
  {
    hide UpperHex, UpperHexValue;
    var text := BidiLabel(rune);
    LabelSpelled(text[..8], text[12..]);
    UpperHexReads(rune / 0x1000);
    UpperHexReads(rune / 0x100 % 16);
    UpperHexReads(rune / 0x10 % 16);
    UpperHexReads(rune % 16);
    FourDigits(rune);
  }

  lemma UpperHexReads(n: int)
    requires 0 <= n < 16
    ensures UpperHexValue(UpperHex(n)) == n && (48 <= UpperHex(n) <= 57 || 65 <= UpperHex(n) <= 70)
  {
  }

  lemma FourDigits(n: int)
    requires 0 <= n < 0x10000
    ensures ((n / 0x1000 * 16 + n / 0x100 % 16) * 16 + n / 0x10 % 16) * 16 + n % 16 == n && n / 0x1000 < 16
  {
  }

  lemma LabelSpelled(front: seq<byte>, back: seq<byte>)
    requires front == [0x5b, 0x42, 0x49, 0x44, 0x49, 0x20, 0x55, 0x2b] && back == [0x5d]
    ensures front == Ascii("[BIDI U+") && back == Ascii("]")
  {
  }

  /** A segment marks its line exactly when a bidirectional control stands there, and then shows
      that control's number; any other is the input's own bytes and begins with no such control. */
  lemma SegmentHidesNoBidi(input: seq<byte>, i: nat)
    requires i < |input| && Lex(input, i).0.Segment?
    ensures var (token, next) := Lex(input, i);
            && (token.bidi <==> BidiAt(input, i)) && !BidiAt(token.text, 0)
            && (token.bidi ==> exists rune :: Scalar(rune) && input[i..next] == Utf8(rune) && Names(token.text, rune))
            && (!token.bidi ==> token.text == input[i..next])
  {
    BidiByBytes(input, i);
    var (token, next) := Lex(input, i);
    if token.bidi {
      var rune := DecodeRune(input, i).0;
      LabelNames(rune);
      DecodesNothingElse(input, i);
      assert input[i..next] == Utf8(rune);
      assert token.text[..8][0] == 0x5b;
    }
  }

  // ----- Every form of control

  /** A control string begins at i: OSC, DCS, APC or PM, in seven or in eight bits. */
  predicate StringOpens(input: seq<byte>, i: nat, from: nat, osc: bool) {
    i < |input| &&
    (|| (input[i] == 0x1b && from == i + 2 <= |input|
         && (input[i + 1] == 0x5d || input[i + 1] == 0x50 || input[i + 1] == 0x5f || input[i + 1] == 0x5e)
         && osc == (input[i + 1] == 0x5d))
     || (from == i + 1 && (input[i] == 0x9d || input[i] == 0x90 || input[i] == 0x9f || input[i] == 0x9e)
         && osc == (input[i] == 0x9d)))
  }

  /** ST in either form, or BEL where it is allowed. */
  predicate StringCloses(input: seq<byte>, k: nat, next: nat, osc: bool) {
    k < |input| &&
    (|| (input[k] == 0x1b && next == k + 2 <= |input| && input[k + 1] == 0x5c)
     || (input[k] == 0x9c && next == k + 1)
     || (osc && input[k] == 0x07 && next == k + 1))
  }

  /** A control string shows nothing and changes nothing, up to its first terminator, or to the
      end if it has none. */
  lemma ControlStringHidden(input: seq<byte>, i: nat, from: nat, osc: bool, k: nat, next: nat, line: CellLine, style: Style)
    requires StringOpens(input, i, from, osc) && from <= k <= |input|
    requires if k == |input| then next == k else StringCloses(input, k, next, osc)
    requires forall j, n :: from <= j < k ==> !StringCloses(input, j, n, osc)
    ensures Interpret(input, i, line, style) == Interpret(input, next, line, style)
  {
    forall j: nat | from <= j < k
      ensures !Terminates(input, j, osc)
    {
      assert !StringCloses(input, j, j + 1, osc) && !StringCloses(input, j, j + 2, osc);
    }
    StringEndsAtFirst(input, from, osc, k);
    assert Lex(input, i) == (Ignored, next);
  }

  /** A control sequence, in seven or in eight bits, shows nothing, and changes the style exactly if
      it ends in "m" and has no more than 4096 bytes of parameters. */
  lemma ControlSequenceRead(input: seq<byte>, i: nat, from: nat, k: nat, line: CellLine, style: Style)
    requires i < |input| && from <= k <= |input|
    requires || (input[i] == 0x1b && from == i + 2 && input[i + 1] == 0x5b)
             || (input[i] == 0x9b && from == i + 1)
    requires forall j :: from <= j < k ==> !(0x40 <= input[j] <= 0x7e)
    requires k < |input| ==> 0x40 <= input[k] <= 0x7e
    ensures Interpret(input, i, line, style) ==
            if k == |input| then [line]
            else Interpret(input, k + 1, line,
                           if input[k] == 0x6d && k - from <= 4096 then Select(style, input[from..k]) else style)
  {
    CsiEndsAtFirst(input, from, k);
    assert Lex(input, i) == LexCsi(input, from);
  }

  lemma {:induction false} CsiEndsAtFirst(input: seq<byte>, from: nat, k: nat)
    requires from <= k <= |input| && (k < |input| ==> IsFinal(input[k]))
    requires forall j :: from <= j < k ==> !IsFinal(input[j])
    ensures CsiEnd(input, from) == k
    decreases k - from
  {
    if from < k { CsiEndsAtFirst(input, from + 1, k); }
  }

  /** Every other escape takes the byte after it along. */
  lemma OtherEscapeHidden(input: seq<byte>, i: nat, line: CellLine, style: Style)
    requires i < |input| && input[i] == 0x1b
    requires i + 1 < |input| ==> input[i + 1] != 0x5b && input[i + 1] != 0x5d && input[i + 1] != 0x50
                                 && input[i + 1] != 0x5f && input[i + 1] != 0x5e
    ensures Interpret(input, i, line, style) == Interpret(input, if i + 2 <= |input| then i + 2 else |input|, line, style)
  {
  }

  /** Of the single bytes, a new line ends a line, tab and printable ones are shown, and all other
      controls are hidden, those of eight bits included that open nothing. */
  lemma SingleByteRead(input: seq<byte>, i: nat, line: CellLine, style: Style)
    requires i < |input|
    ensures input[i] == 0x0a ==> Interpret(input, i, line, style) == [line] + Interpret(input, i + 1, BLANK, style)
    ensures input[i] == 0x09 || 0x20 <= input[i] < 0x7f ==>
      Interpret(input, i, line, style) == Interpret(input, i + 1, line.(cells := line.cells + [Cell(input[i], style)]), style)
    ensures (input[i] < 0x20 && input[i] != 0x09 && input[i] != 0x0a && input[i] != 0x1b) || input[i] == 0x7f
            || (0x90 <= input[i] < 0xa0 && input[i] != 0x90 && input[i] != 0x9b && input[i] < 0x9d) ==>
      Interpret(input, i, line, style) == Interpret(input, i + 1, line, style)
  {
    assert Cells([input[i]], style) == [Cell(input[i], style)];
  }

  // ----- What a line shows

  /** A piece of a line: a label, a character, or a byte that belongs to none. */
  datatype Piece = Piece(text: seq<byte>, stray: bool)

  function Pieces(input: seq<byte>, i: nat, begun: seq<Piece>): (lines: seq<seq<Piece>>)
    requires i <= |input|
    ensures |lines| >= 1
    decreases |input| - i
  {
    if i == |input| then [begun]
    else
      var (token, next) := Lex(input, i);
      match token
      case NewLine => [begun] + Pieces(input, next, [])
      case Segment(text, _) => Pieces(input, next, begun + [Piece(text, DecodeRune(input, i) == (RUNE_ERROR, 1))])
      case _ => Pieces(input, next, begun)
  }

  function Spelled(pieces: seq<Piece>): seq<byte> {
    if pieces == [] then [] else pieces[0].text + Spelled(pieces[1..])
  }

  lemma {:induction false} SpelledSnoc(pieces: seq<Piece>, last: Piece)
    ensures Spelled(pieces + [last]) == Spelled(pieces) + last.text
  {
    if pieces == [] {
      assert [last][1..] == [] && pieces + [last] == [last];
    } else {
      assert (pieces + [last])[0] == pieces[0] && (pieces + [last])[1..] == pieces[1..] + [last];
      SpelledSnoc(pieces[1..], last);
      assert pieces[0].text + (Spelled(pieces[1..]) + last.text) == pieces[0].text + Spelled(pieces[1..]) + last.text;
    }
  }

  function Letters(cells: seq<Cell>): seq<byte> { seq(|cells|, k requires 0 <= k < |cells| => cells[k].b) }

  /** The pieces of a line spell what the line shows. */
  lemma {:induction false} PiecesShown(input: seq<byte>, i: nat, begun: seq<Piece>, line: CellLine, style: Style)
    requires i <= |input| && Letters(line.cells) == Spelled(begun)
    ensures |Pieces(input, i, begun)| == |Interpret(input, i, line, style)|
    ensures forall k :: 0 <= k < |Pieces(input, i, begun)| ==>
              Letters(Interpret(input, i, line, style)[k].cells) == Spelled(Pieces(input, i, begun)[k])
    decreases |input| - i
  {
    hide Lex, DecodeRune, Select;
    if i < |input| {
      var (token, next) := Lex(input, i);
      match token
      case NewLine => PiecesShown(input, next, [], BLANK, style);
      case Segment(text, bidi) =>
        var piece := Piece(text, DecodeRune(input, i) == (RUNE_ERROR, 1));
        SpelledSnoc(begun, piece);
        assert Letters(line.cells + Cells(text, style)) == Letters(line.cells) + text;
        PiecesShown(input, next, begun + [piece], CellLine(line.cells + Cells(text, style), line.bidi || bidi), style);
      case Rendition(params) => PiecesShown(input, next, begun, line, Select(style, params));
      case Ignored => PiecesShown(input, next, begun, line, style);
    }
  }

  /** A stray is one byte; any other piece is ASCII, or one character that is no bidirectional
      control. */
  ghost predicate PieceOk(p: Piece) {
    if p.stray then |p.text| == 1 && p.text[0] >= 0x80
    else
      && p.text != []
      && (|| (forall k :: 0 <= k < |p.text| ==> p.text[k] < 0x80)
          || exists rune :: Scalar(rune) && rune >= 0x80 && p.text == Utf8(rune) && !BidiAt(p.text, 0))
  }

  ghost predicate PiecesOk(pieces: seq<Piece>) { forall k :: 0 <= k < |pieces| ==> PieceOk(pieces[k]) }

  lemma SegmentOk(input: seq<byte>, i: nat)
    requires i < |input| && Lex(input, i).0.Segment?
    ensures PieceOk(Piece(Lex(input, i).0.text, DecodeRune(input, i) == (RUNE_ERROR, 1)))
  {
    hide Names, Utf8, BidiAt;
    SegmentHidesNoBidi(input, i);
    var (token, next) := Lex(input, i);
    if input[i] >= 0x80 && !token.bidi && DecodeRune(input, i) != (RUNE_ERROR, 1) {
      DecodesNothingElse(input, i);
      var rune := DecodeRune(input, i).0;
      assert token.text == Utf8(rune);
    }
  }

  lemma {:induction false} AllPiecesOk(input: seq<byte>, i: nat, begun: seq<Piece>)
    requires i <= |input| && PiecesOk(begun)
    ensures forall k :: 0 <= k < |Pieces(input, i, begun)| ==> PiecesOk(Pieces(input, i, begun)[k])
    decreases |input| - i
  {
    hide PieceOk;
    if i < |input| {
      var (token, next) := Lex(input, i);
      match token
      case NewLine => AllPiecesOk(input, next, []);
      case Segment(text, _) =>
        SegmentOk(input, i);
        AllPiecesOk(input, next, begun + [Piece(text, DecodeRune(input, i) == (RUNE_ERROR, 1))]);
      case _ => AllPiecesOk(input, next, begun);
    }
  }

  /** Strays one after another that spell a bidirectional control. */
  predicate StraysAt(pieces: seq<Piece>, q: nat, n: nat) {
    && q + n <= |pieces| && (forall k :: q <= k < q + n ==> pieces[k].stray)
    && BidiAt(Spelled(pieces[q..q + n]), 0)
  }

  lemma {:induction false} SpelledConcat(a: seq<Piece>, b: seq<Piece>)
    ensures Spelled(a + b) == Spelled(a) + Spelled(b)
  {
    if a == [] {
      assert a + b == b;
    } else {
      assert (a + b)[0] == a[0] && (a + b)[1..] == a[1..] + b;
      SpelledConcat(a[1..], b);
      var head, front, back := a[0].text, Spelled(a[1..]), Spelled(b);
      assert Spelled(a + b) == head + (front + back) && Spelled(a) == head + front;
      Assoc(head, front, back);
    }
  }

  lemma BidiInContext(a: seq<byte>, b: seq<byte>, c: seq<byte>)
    ensures BidiAt(b, 0) ==> BidiAt(a + b + c, |a|)
    ensures a == [] && |b| >= 3 ==> (BidiAt(b, 0) <==> BidiAt(b + c, 0))
  {
    var s := a + b + c;
    assert forall k :: 0 <= k < |b| ==> s[|a| + k] == b[k];
    assert |b| >= 1 ==> s[|a|] == b[0];
    assert |b| >= 2 ==> s[|a| + 1] == b[1];
    assert |b| >= 3 ==> s[|a| + 2] == b[2];
    assert a == [] ==> s == b + c;
  }

  /** Such strays show a control ... */
  lemma StraysShow(pieces: seq<Piece>, q: nat, n: nat)
    requires StraysAt(pieces, q, n)
    ensures BidiAt(Spelled(pieces), |Spelled(pieces[..q])|)
  {
    var a, b, c := pieces[..q], pieces[q..q + n], pieces[q + n..];
    assert pieces == a + b + c;
    SpelledConcat(a + b, c);
    SpelledConcat(a, b);
    BidiInContext(Spelled(a), Spelled(b), Spelled(c));
  }

  lemma ContinuesOnlyStray(p: Piece)
    requires PieceOk(p) && p.text != [] && 0x80 <= p.text[0] < 0xc0
    ensures p.stray
  {
  }

  /** A label or a character, whatever follows it, has no such control in it. */
  lemma WholePieceShowsNone(first: Piece, rest: seq<byte>, p: nat)
    requires PieceOk(first) && !first.stray && p < |first.text|
    ensures !BidiAt(first.text + rest, p)
  {
    var s := first.text + rest;
    assert s[p] == first.text[p];
    if p == 0 && first.text[0] >= 0x80 {
      var rune :| Scalar(rune) && rune >= 0x80 && first.text == Utf8(rune) && !BidiAt(first.text, 0);
      DecodesCharacter(s, 0, rune);
      DecodesCharacter(first.text, 0, rune);
      BidiByBytes(s, 0);
      BidiByBytes(first.text, 0);
    }
  }

  lemma FirstIsStray(first: Piece, rest: seq<byte>, p: nat)
    requires PieceOk(first) && p < |first.text| && BidiAt(first.text + rest, p)
    ensures first.stray && p == 0
  {
    hide BidiAt;
    if !first.stray { WholePieceShowsNone(first, rest, p); }
  }

  /** ... and nothing else does. */
  lemma {:induction false} OnlyStraysShow(pieces: seq<Piece>, p: nat) returns (q: nat, n: nat)
    requires PiecesOk(pieces) && BidiAt(Spelled(pieces), p)
    ensures StraysAt(pieces, q, n)
  {
    hide PieceOk;
    var first, rest := pieces[0], Spelled(pieces[1..]);
    if p >= |first.text| {
      var s := Spelled(pieces);
      assert forall k :: |first.text| <= k < |s| ==> s[k] == rest[k - |first.text|];
      q, n := OnlyStraysShow(pieces[1..], p - |first.text|);
      assert pieces[1..][q..q + n] == pieces[q + 1..q + 1 + n];
      q := q + 1;
    } else {
      FirstIsStray(first, rest, p);
      n := StraysFollow(pieces);
      q := 0;
    }
  }

  lemma StraysFollow(pieces: seq<Piece>) returns (n: nat)
    requires PiecesOk(pieces) && pieces != [] && pieces[0].stray && BidiAt(Spelled(pieces), 0)
    ensures StraysAt(pieces, 0, n)
  {
    var s := Spelled(pieces);
    n := if s[0] == 0xd8 then 2 else 3;
    NextIsStray(pieces);
    if n == 3 {
      NextIsStray(pieces[1..]);
      assert s[1..] == Spelled(pieces[1..]) && pieces[1..][1] == pieces[2];
    }
    var front := pieces[0..n];
    StraysSpelled(front);
    assert pieces == front + pieces[n..];
    SpelledConcat(front, pieces[n..]);
    assert Spelled(front) == s[..n];
  }

  lemma NextIsStray(pieces: seq<Piece>)
    requires PiecesOk(pieces) && pieces != [] && pieces[0].stray
    requires |Spelled(pieces)| >= 2 && 0x80 <= Spelled(pieces)[1] < 0xc0
    ensures |pieces| >= 2 && pieces[1].stray
  {
    assert PieceOk(pieces[0]) && Spelled(pieces)[1..] == Spelled(pieces[1..]);
    assert PieceOk(pieces[1]) && Spelled(pieces)[1] == pieces[1].text[0];
    ContinuesOnlyStray(pieces[1]);
  }

  lemma {:induction false} StraysSpelled(pieces: seq<Piece>)
    requires PiecesOk(pieces) && forall k :: 0 <= k < |pieces| ==> pieces[k].stray
    ensures |Spelled(pieces)| == |pieces|
  {
    if pieces != [] {
      assert PieceOk(pieces[0]);
      StraysSpelled(pieces[1..]);
    }
  }

  /** Exactly when a line shows the bytes of a bidirectional control instead of its label: strays of
      the line, whatever controls stood between them, spell it. */
  lemma HiddenExactly(input: seq<byte>, k: nat)
    requires k < |Interpret(input, 0, BLANK, DEFAULT_STYLE)|
    ensures k < |Pieces(input, 0, [])|
    ensures var pieces := Pieces(input, 0, [])[k];
            (exists p: nat :: BidiAt(Letters(Interpret(input, 0, BLANK, DEFAULT_STYLE)[k].cells), p))
            <==> (exists q, n :: StraysAt(pieces, q, n))
  {
    PiecesShown(input, 0, [], BLANK, DEFAULT_STYLE);
    AllPiecesOk(input, 0, []);
    var pieces := Pieces(input, 0, [])[k];
    if q, n :| StraysAt(pieces, q, n) {
      StraysShow(pieces, q, n);
    }
    if p: nat :| BidiAt(Spelled(pieces), p) {
      var q, n := OnlyStraysShow(pieces, p);
    }
  }

  /** An escape sequence in the middle of a character makes strays of its bytes, and the line then
      shows a control without a label and without a mark. */
  lemma SplitControl()
    ensures var input := [0xe2, 0x1b, 0x5b, 0x6d, 0x80, 0x8e];
            Reference(input) == [Line([Run([0xe2, 0x80, 0x8e], None)], false)] && BidiAt([0xe2, 0x80, 0x8e], 0)
  {
    hide Interpret, Select, Group;
    var input: seq<byte> := [0xe2, 0x1b, 0x5b, 0x6d, 0x80, 0x8e];
    var style := DEFAULT_STYLE;
    var a, b := CellLine([Cell(0xe2, style)], false), CellLine([Cell(0xe2, style), Cell(0x80, style)], false);
    var c := CellLine([Cell(0xe2, style), Cell(0x80, style), Cell(0x8e, style)], false);
    StrayShown(input, 0, BLANK, style, a);
    ControlSequenceRead(input, 1, 3, 3, a, style);
    assert input[3..3] == [];
    EmptyRendition();
    StrayShown(input, 4, a, style, b);
    StrayShown(input, 5, b, style, c);
    AtEnd(input, c, style);
    OneRun([0xe2, 0x80, 0x8e], c.cells);
  }

  lemma AtEnd(input: seq<byte>, line: CellLine, style: Style)
    ensures Interpret(input, |input|, line, style) == [line]
  {
  }

  lemma OneRun(text: seq<byte>, cells: seq<Cell>)
    requires text != [] && cells == Cells(text, DEFAULT_STYLE)
    ensures Group(cells) == [Run(text, None)]
  {
    GroupExtend([], text, DEFAULT_STYLE);
    assert [] + cells == cells;
  }

  /** A byte that belongs to no character, and is no control of eight bits, is shown as it is. */
  lemma StrayShown(input: seq<byte>, i: nat, line: CellLine, style: Style, line': CellLine)
    requires i < |input| && DecodeRune(input, i) == (RUNE_ERROR, 1) && !(0x90 <= input[i] < 0xa0)
    requires line' == line.(cells := line.cells + [Cell(input[i], style)])
    ensures Interpret(input, i, line, style) == Interpret(input, i + 1, line', style)
  {
    assert input[i] >= 0x80;
    assert input[i..i + 1] == [input[i]];
    assert Cells([input[i]], style) == [Cell(input[i], style)];
  }

  lemma EmptyRendition()
    ensures Select(DEFAULT_STYLE, []) == DEFAULT_STYLE
  {
    assert Split<byte>([], SEMICOLON) == [[]];
    OneGroup([]);
    SplitSeparatorFree<byte>([], COLON);
    var parts := Parts([]);
    assert parts == [[]] && parts[1..] == [];
    assert Values(parts[1..]) == Some([]);
    OneCode(DEFAULT_STYLE, 0);
  }

  /** Every byte continues a character or begins one. */
  predicate WellFormed(input: seq<byte>) {
    forall i :: 0 <= i < |input| ==> 0x80 <= input[i] < 0xc0 || DecodeRune(input, i) != (RUNE_ERROR, 1)
  }

  /** Characters written out one after another are such bytes. */
  lemma {:induction false} WrittenIsWellFormed(runes: seq<int>)
    requires forall k :: 0 <= k < |runes| ==> Scalar(runes[k])
    ensures WellFormed(Written(runes))
  {
    if runes != [] {
      var head, rest := Utf8(runes[0]), Written(runes[1..]);
      WrittenIsWellFormed(runes[1..]);
      var all := head + rest;
      forall i | 0 <= i < |all|
        ensures 0x80 <= all[i] < 0xc0 || DecodeRune(all, i) != (RUNE_ERROR, 1)
      {
        if i == 0 {
          DecodesCharacter(all, 0, runes[0]);
        } else if i < |head| {
          assert 0x80 <= head[i] < 0xc0;
        } else {
          DecodeShifted(head, rest, i - |head|);
        }
      }
    }
  }

  function Written(runes: seq<int>): seq<byte>
    requires forall k :: 0 <= k < |runes| ==> Scalar(runes[k])
  {
    if runes == [] then [] else Utf8(runes[0]) + Written(runes[1..])
  }

  lemma DecodeShifted(head: seq<byte>, rest: seq<byte>, i: nat)
    requires i < |rest|
    ensures DecodeRune(head + rest, |head| + i) == DecodeRune(rest, i)
  {
    var all, n := head + rest, |head|;
    assert forall k :: 0 <= k < |rest| ==> all[n + k] == rest[k];
    assert all[n + i] == rest[i];
    assert i + 1 < |rest| ==> all[n + i + 1] == rest[i + 1];
    assert i + 2 < |rest| ==> all[n + i + 2] == rest[i + 2];
    assert i + 3 < |rest| ==> all[n + i + 3] == rest[i + 3];
  }

  /** The strays are bytes that continue a character. */
  ghost predicate StraysContinue(pieces: seq<Piece>) {
    forall k :: 0 <= k < |pieces| && pieces[k].stray ==> pieces[k].text != [] && 0x80 <= pieces[k].text[0] < 0xc0
  }

  lemma {:induction false} StraysOfWellFormed(input: seq<byte>, i: nat, begun: seq<Piece>)
    requires i <= |input| && WellFormed(input) && StraysContinue(begun)
    ensures forall k :: 0 <= k < |Pieces(input, i, begun)| ==> StraysContinue(Pieces(input, i, begun)[k])
    decreases |input| - i
  {
    hide PieceOk;
    if i < |input| {
      var (token, next) := Lex(input, i);
      match token
      case NewLine => StraysOfWellFormed(input, next, []);
      case Segment(text, _) =>
        SegmentOk(input, i);
        StraysOfWellFormed(input, next, begun + [Piece(text, DecodeRune(input, i) == (RUNE_ERROR, 1))]);
      case _ => StraysOfWellFormed(input, next, begun);
    }
  }

  lemma SpellingLeads(pieces: seq<Piece>, q: nat, n: nat)
    requires PiecesOk(pieces) && StraysAt(pieces, q, n)
    ensures q < |pieces| && pieces[q].stray && |pieces[q].text| == 1 && pieces[q].text[0] >= 0xd8
  {
    assert PieceOk(pieces[q]) && pieces[q..q + n][0] == pieces[q];
  }

  /** ... so in well-formed text no line shows a bidirectional control. */
  lemma WellFormedHidesNone(input: seq<byte>, k: nat, p: nat)
    requires WellFormed(input) && k < |Interpret(input, 0, BLANK, DEFAULT_STYLE)|
    ensures !BidiAt(Letters(Interpret(input, 0, BLANK, DEFAULT_STYLE)[k].cells), p)
  {
    PiecesShown(input, 0, [], BLANK, DEFAULT_STYLE);
    AllPiecesOk(input, 0, []);
    StraysOfWellFormed(input, 0, []);
    var pieces := Pieces(input, 0, [])[k];
    if BidiAt(Spelled(pieces), p) {
      var q, n := OnlyStraysShow(pieces, p);
      SpellingLeads(pieces, q, n);
    }
  }

  // ----- A document written out

  datatype Glyph = Glyph(rune: int, style: Style)

  predicate Writable(g: Glyph) {
    Scalar(g.rune) && ColorsOk(g.style) && (g.rune == 0x09 || (g.rune >= 0x20 && g.rune != 0x7f))
  }

  /** A character with its rendition before it. */
  function GlyphBytes(g: Glyph): (s: seq<byte>)
    requires Writable(g)
    ensures |s| >= 4
  {
    [0x1b, 0x5b] + StyleText(g.style) + [0x6d] + Utf8(g.rune)
  }

  predicate AllWritable(glyphs: seq<Glyph>) { forall k :: 0 <= k < |glyphs| ==> Writable(glyphs[k]) }

  function LineBytes(glyphs: seq<Glyph>): seq<byte>
    requires AllWritable(glyphs)
  {
    if glyphs == [] then [] else GlyphBytes(glyphs[0]) + LineBytes(glyphs[1..])
  }

  predicate Document(lines: seq<seq<Glyph>>) { lines != [] && forall k :: 0 <= k < |lines| ==> AllWritable(lines[k]) }

  /** Lines with new lines between them. */
  function DocumentBytes(lines: seq<seq<Glyph>>): seq<byte>
    requires Document(lines)
  {
    LineBytes(lines[0]) + if |lines| == 1 then [] else [0x0a] + DocumentBytes(lines[1..])
  }

  predicate IsBidi(rune: int)
    requires Scalar(rune)
  {
    BidiAt(Utf8(rune), 0)
  }

  /** A character as it is shown: itself, or the label of a bidirectional control. */
  function ShownAs(rune: int): seq<byte>
    requires Scalar(rune)
  {
    if IsBidiControl(rune) then BidiLabel(rune) else Utf8(rune)
  }

  function WithGlyph(line: CellLine, g: Glyph): CellLine
    requires Writable(g)
  {
    CellLine(line.cells + Cells(ShownAs(g.rune), g.style), line.bidi || IsBidi(g.rune))
  }

  function WithGlyphs(line: CellLine, glyphs: seq<Glyph>): CellLine
    requires AllWritable(glyphs)
    decreases |glyphs|
  {
    if glyphs == [] then line else WithGlyphs(WithGlyph(line, glyphs[0]), glyphs[1..])
  }

  lemma BidiIsNamed(rune: int)
    requires Scalar(rune)
    ensures IsBidi(rune) <==> IsBidiControl(rune)
    ensures IsBidi(rune) ==> Names(ShownAs(rune), rune)
    ensures !IsBidi(rune) ==> ShownAs(rune) == Utf8(rune)
  {
    DecodesCharacter(Utf8(rune), 0, rune);
    BidiByBytes(Utf8(rune), 0);
    if IsBidiControl(rune) { LabelNames(rune); }
  }

  /** A character is read where it is written. */
  lemma CharacterShown(input: seq<byte>, i: nat, g: Glyph, line: CellLine)
    requires Writable(g) && BeginsWith(input, i, Utf8(g.rune))
    ensures i + |Utf8(g.rune)| <= |input|
    ensures Interpret(input, i, line, g.style) == Interpret(input, i + |Utf8(g.rune)|, WithGlyph(line, g), g.style)
  {
    hide Names, BidiAt, BidiLabel, IsBidiControl, Interpret, Lex;
    var s := Utf8(g.rune);
    if g.rune < 0x80 {
      assert input[i + 0] == s[0];
      AsciiIsNotBidi(g.rune);
      SingleByteRead(input, i, line, g.style);
      assert Cells(s, g.style) == [Cell(input[i], g.style)];
    } else {
      HighCharacterLexed(input, i, g.rune);
      SegmentShown(input, i, ShownAs(g.rune), IsBidi(g.rune), i + |s|, line, g.style);
    }
  }

  lemma SegmentShown(input: seq<byte>, i: nat, text: seq<byte>, bidi: bool, next: nat, line: CellLine, style: Style)
    requires i < |input| && Lex(input, i) == (Segment(text, bidi), next)
    ensures Interpret(input, i, line, style) == Interpret(input, next, CellLine(line.cells + Cells(text, style), line.bidi || bidi), style)
  {
    hide Lex;
  }

  lemma HighCharacterLexed(input: seq<byte>, i: nat, rune: int)
    requires Scalar(rune) && rune >= 0x80 && BeginsWith(input, i, Utf8(rune))
    ensures i < |input| && Lex(input, i) == (Segment(ShownAs(rune), IsBidi(rune)), i + |Utf8(rune)|)
  {
    hide Names, BidiAt, DecodeRune, BidiLabel, IsBidiControl;
    var s := Utf8(rune);
    DecodesCharacter(input, i, rune);
    assert input[i + 0] == s[0] >= 0x80;
    BidiIsNamed(rune);
    assert input[i..i + |s|] == s;
  }

  lemma AsciiIsNotBidi(rune: int)
    requires 0 <= rune < 0x80
    ensures !IsBidi(rune) && !IsBidiControl(rune)
  {
  }

  lemma {:induction false} BeginsWithParts(input: seq<byte>, i: nat, a: seq<byte>, b: seq<byte>)
    requires BeginsWith(input, i, a + b)
    ensures BeginsWith(input, i, a) && BeginsWith(input, i + |a|, b)
  {
    var all := a + b;
    forall k | 0 <= k < |a|
      ensures input[i + k] == a[k]
    {
      assert all[k] == a[k];
    }
    forall k | 0 <= k < |b|
      ensures input[i + |a| + k] == b[k]
    {
      assert all[|a| + k] == b[k] && input[i + (|a| + k)] == all[|a| + k];
    }
  }

  /** A rendition is read where it is written, whatever the style was. */
  lemma RenditionRead(input: seq<byte>, i: nat, style: Style, line: CellLine, before: Style)
    requires ColorsOk(style) && BeginsWith(input, i, [0x1b, 0x5b] + StyleText(style) + [0x6d])
    ensures i + |StyleText(style)| + 3 <= |input|
    ensures Interpret(input, i, line, before) == Interpret(input, i + |StyleText(style)| + 3, line, style)
  {
    hide Interpret, Select, StyleText, ColorsOk;
    var text := StyleText(style);
    var from, k := i + 2, i + 2 + |text|;
    StyleTextShort(style);
    StyleRoundTrip(before, style);
    var opening: seq<byte>, closing: seq<byte> := [0x1b, 0x5b], [0x6d];
    BeginsWithParts(input, i, opening + text, closing);
    BeginsWithParts(input, i, opening, text);
    assert input[i + 0] == opening[0] && input[i + 1] == opening[1] && input[k + 0] == closing[0];
    assert input[from..k] == text;
    assert forall j :: from <= j < k ==> input[j] == text[j - from];
    ControlSequenceRead(input, i, from, k, line, before);
  }

  lemma GlyphRead(input: seq<byte>, i: nat, g: Glyph, line: CellLine, before: Style)
    requires Writable(g) && BeginsWith(input, i, GlyphBytes(g))
    ensures i + |GlyphBytes(g)| <= |input|
    ensures Interpret(input, i, line, before) == Interpret(input, i + |GlyphBytes(g)|, WithGlyph(line, g), g.style)
  {
    hide Interpret, WithGlyph, Utf8, StyleText, Scalar, ColorsOk;
    BeginsWithParts(input, i, [0x1b, 0x5b] + StyleText(g.style) + [0x6d], Utf8(g.rune));
    RenditionRead(input, i, g.style, line, before);
    CharacterShown(input, i + |StyleText(g.style)| + 3, g, line);
  }

  lemma {:induction false} LineRead(input: seq<byte>, i: nat, glyphs: seq<Glyph>, line: CellLine, before: Style) returns (after: Style)
    requires AllWritable(glyphs) && i <= |input| && BeginsWith(input, i, LineBytes(glyphs))
    ensures i + |LineBytes(glyphs)| <= |input|
    ensures Interpret(input, i, line, before) == Interpret(input, i + |LineBytes(glyphs)|, WithGlyphs(line, glyphs), after)
    decreases |glyphs|
  {
    hide Interpret, WithGlyph, GlyphBytes;
    after := before;
    if glyphs != [] {
      var g := glyphs[0];
      BeginsWithParts(input, i, GlyphBytes(g), LineBytes(glyphs[1..]));
      GlyphRead(input, i, g, line, before);
      after := LineRead(input, i + |GlyphBytes(g)|, glyphs[1..], WithGlyph(line, g), g.style);
    }
  }

  function ShownLines(lines: seq<seq<Glyph>>): seq<CellLine>
    requires lines == [] || Document(lines)
  {
    if lines == [] then [] else [WithGlyphs(BLANK, lines[0])] + ShownLines(lines[1..])
  }

  /** A document written out is shown as it is: every character in its own style, every
      bidirectional control by its label, and exactly the lines with one marked. */
  lemma {:induction false} DocumentShown(input: seq<byte>, i: nat, lines: seq<seq<Glyph>>, before: Style)
    requires Document(lines) && i <= |input| && input[i..] == DocumentBytes(lines)
    ensures Interpret(input, i, BLANK, before) == ShownLines(lines)
    decreases |lines|
  {
    hide Interpret, WithGlyphs, LineBytes;
    var head, bytes := LineBytes(lines[0]), DocumentBytes(lines);
    assert forall k :: 0 <= k < |head| ==> input[i + k] == input[i..][k] == bytes[k] == head[k];
    var next := i + |head|;
    var style := LineRead(input, i, lines[0], BLANK, before);
    var shown := WithGlyphs(BLANK, lines[0]);
    if |lines| == 1 {
      AtEnd(input, shown, style);
      assert lines[1..] == [];
    } else {
      assert input[next] == input[i..][|head|] == bytes[|head|] == 0x0a;
      assert input[next + 1..] == bytes[|head| + 1..] == DocumentBytes(lines[1..]);
      SingleByteRead(input, next, shown, style);
      DocumentShown(input, next + 1, lines[1..], style);
    }
  }

  /** ... so what the parser returns for it has these cells and these marks, line by line. */
  lemma DocumentRoundTrip(lines: seq<seq<Glyph>>, k: nat)
    requires Document(lines) && k < |lines|
    ensures var result := Reference(DocumentBytes(lines));
            && |result| == |lines|
            && Flatten(result[k].runs) == WithGlyphs(BLANK, lines[k]).cells
            && (result[k].bidiWarning <==> exists j :: 0 <= j < |lines[k]| && IsBidi(lines[k][j].rune))
  {
    var input := DocumentBytes(lines);
    assert input[0..] == input;
    DocumentShown(input, 0, lines, DEFAULT_STYLE);
    ShownLine(lines, k);
    GroupCanonical(WithGlyphs(BLANK, lines[k]).cells);
    MarkedIf(BLANK, lines[k]);
  }

  lemma {:induction false} ShownLine(lines: seq<seq<Glyph>>, k: nat)
    requires Document(lines) && k < |lines|
    ensures |ShownLines(lines)| == |lines| && ShownLines(lines)[k] == WithGlyphs(BLANK, lines[k])
  {
    if |lines| > 1 {
      ShownLine(lines[1..], if k > 0 then k - 1 else 0);
    } else {
      assert lines[1..] == [];
    }
  }

  lemma {:induction false} MarkedIf(line: CellLine, glyphs: seq<Glyph>)
    requires AllWritable(glyphs)
    ensures WithGlyphs(line, glyphs).bidi <==> line.bidi || exists j :: 0 <= j < |glyphs| && IsBidi(glyphs[j].rune)
    decreases |glyphs|
  {
    if glyphs != [] {
      MarkedIf(WithGlyph(line, glyphs[0]), glyphs[1..]);
      if j :| 0 <= j < |glyphs| && IsBidi(glyphs[j].rune) && j > 0 {
        assert glyphs[1..][j - 1] == glyphs[j];
      }
      assert forall j :: 0 <= j < |glyphs[1..]| ==> glyphs[1..][j] == glyphs[j + 1];
    }
  }

  // ----- What lines cost

  function TextOf(lines: seq<Line>): nat {
    if lines == [] then 0 else TextOf(lines[..|lines| - 1]) + |Flatten(lines[|lines| - 1].runs)|
  }

  function AllRuns(lines: seq<Line>): seq<Run> {
    if lines == [] then [] else AllRuns(lines[..|lines| - 1]) + lines[|lines| - 1].runs
  }

  /** 32 bytes for each line, 96 for each run, and the text. */
  lemma {:induction false} CostsAre(lines: seq<Line>)
    ensures TotalRuns(lines) == |AllRuns(lines)|
    ensures StructuredBytes(lines) == 32 * |lines| + 96 * |AllRuns(lines)| + TextOf(lines)
  {
    if lines != [] {
      CostsAre(lines[..|lines| - 1]);
      TextBytesOfFlatten(lines[|lines| - 1].runs);
    }
  }

  /** The five limits: bytes and runs of a line, and lines, runs and cost of them all. */
  lemma FitsIs(lines: seq<Line>, limits: Limits)
    ensures Fits(lines, limits) <==>
      && (forall i :: 0 <= i < |lines| ==> |Flatten(lines[i].runs)| <= limits.maxLineBytes && |lines[i].runs| <= limits.maxRunsPerLine)
      && |lines| <= limits.maxLines && |AllRuns(lines)| <= limits.maxRunsPerSnapshot
      && 32 * |lines| + 96 * |AllRuns(lines)| + TextOf(lines) <= limits.maxStructuredBytes
  {
    hide StructuredBytes, TotalRuns, AllRuns, TextOf, Flatten, TextBytes;
    CostsAre(lines);
    forall i | 0 <= i < |lines|
      ensures TextBytes(lines[i].runs) == |Flatten(lines[i].runs)|
    {
      TextBytesOfFlatten(lines[i].runs);
    }
  }
}
