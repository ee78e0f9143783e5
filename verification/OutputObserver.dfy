/** The connection wrapper that counts WebSocket data payload bytes while they pass
    through Read, whatever the read boundaries are. */
module OutputObserver {
  import opened Text

  const HEADER_END: seq<byte> := [0x0d, 0x0a, 0x0d, 0x0a]

  // ----- Whole-stream reference (section 5.2 of RFC 6455)

  /** What follows the first CR LF CR LF of s; empty while there is none. */
  function StreamBody(s: seq<byte>): seq<byte>
  {
    if |s| < 4 then []
    else if s[..4] == HEADER_END then s[4..]
    else StreamBody(s[1..])
  }

  function HeaderSize(second: byte): (n: nat)
    ensures 2 <= n <= 14
  {
    var extended := if second % 128 == 126 then 2 else if second % 128 == 127 then 8 else 0;
    2 + extended + (if second >= 128 then 4 else 0)
  }

  predicate HasHeader(s: seq<byte>) { |s| >= 2 && |s| >= HeaderSize(s[1]) }

  function BigEndian(s: seq<byte>): nat
  {
    if s == [] then 0 else BigEndian(s[..|s| - 1]) * 256 + s[|s| - 1]
  }

  function PayloadLength(s: seq<byte>): nat
    requires HasHeader(s)
  {
    if s[1] % 128 == 126 then BigEndian(s[2..4])
    else if s[1] % 128 == 127 then BigEndian(s[2..10])
    else s[1] % 128
  }

  /** Continuation, text and binary frames; every other opcode is control or reserved. */
  predicate IsData(first: byte) { first % 16 in {0, 1, 2} }

  function Min(a: nat, b: nat): nat { if a < b then a else b }

  /** Payload bytes still owed to the current frame, then the frames after it. */
  function AfterHeader(payload: nat, data: bool, s: seq<byte>): nat
    decreases |s|, 1
  {
    var n := Min(payload, |s|);
    (if data then n else 0) + DataBytes(s[n..])
  }

  /** Data payload bytes in a sequence of frames, the last of which may be cut short. */
  function DataBytes(s: seq<byte>): nat
    decreases |s|, 0
  {
    if !HasHeader(s) then 0
    else AfterHeader(PayloadLength(s), IsData(s[0]), s[HeaderSize(s[1])..])
  }

  function DataPayload(stream: seq<byte>): nat { DataBytes(StreamBody(stream)) }

  // ----- Reference checked against an encoder

  /** The opcodes by name (section 11.8 of RFC 6455); the flags are FIN and the reserved bits. */
  datatype Opcode = Continuation | Text | Binary | Reserved(code: int) | Close | Ping | Pong
  datatype LengthForm = Short | Medium | Long
  datatype Frame = Frame(flags: int, opcode: Opcode, masked: bool, form: LengthForm, mask: seq<byte>, payload: seq<byte>)

  function Pow256(k: nat): nat { if k == 0 then 1 else 256 * Pow256(k - 1) }

  function CodeOf(o: Opcode): int {
    match o
    case Continuation => 0
    case Text => 1
    case Binary => 2
    case Reserved(code) => code
    case Close => 8
    case Ping => 9
    case Pong => 10
  }

  /** Only these carry application data. */
  predicate CarriesData(o: Opcode) { o.Continuation? || o.Text? || o.Binary? }

  ghost predicate WellFormed(f: Frame) {
    && 0 <= f.flags < 16 && (f.opcode.Reserved? ==> 3 <= f.opcode.code <= 7 || 11 <= f.opcode.code <= 15)
    && |f.mask| == (if f.masked then 4 else 0)
    && (match f.form
        case Short => |f.payload| < 126
        case Medium => |f.payload| < Pow256(2)
        case Long => |f.payload| < Pow256(8))
  }

  function ToBigEndian(n: nat, k: nat): (s: seq<byte>)
    ensures |s| == k
  {
    if k == 0 then [] else ToBigEndian(n / 256, k - 1) + [n % 256]
  }

  lemma {:induction false} BigEndianRoundTrip(n: nat, k: nat)
    requires n < Pow256(k)
    ensures BigEndian(ToBigEndian(n, k)) == n
  {
    if k > 0 {
      BigEndianRoundTrip(n / 256, k - 1);
      assert ToBigEndian(n, k)[..k - 1] == ToBigEndian(n / 256, k - 1);
    }
  }

  ghost function EncodeHeader(f: Frame): (h: seq<byte>)
    requires WellFormed(f)
    ensures HasHeader(h) && |h| == HeaderSize(h[1])
  {
    var flag := if f.masked then 128 else 0;
    var length := match f.form
      case Short => [flag + |f.payload|]
      case Medium => [flag + 126] + ToBigEndian(|f.payload|, 2)
      case Long => [flag + 127] + ToBigEndian(|f.payload|, 8);
    [f.flags * 16 + CodeOf(f.opcode)] + length + f.mask
  }

  ghost function EncodeFrames(frames: seq<Frame>): seq<byte>
    requires forall f :: f in frames ==> WellFormed(f)
  {
    if frames == [] then [] else EncodeHeader(frames[0]) + frames[0].payload + EncodeFrames(frames[1..])
  }

  ghost function SumData(frames: seq<Frame>): nat
  {
    if frames == [] then 0
    else (if CarriesData(frames[0].opcode) then |frames[0].payload| else 0) + SumData(frames[1..])
  }

  lemma EncodedHeader(f: Frame, rest: seq<byte>)
    requires WellFormed(f)
    ensures HasHeader(EncodeHeader(f) + rest)
    ensures PayloadLength(EncodeHeader(f) + rest) == |f.payload|
  {
    var s := EncodeHeader(f) + rest;
    match f.form
    case Short =>
    case Medium =>
      BigEndianRoundTrip(|f.payload|, 2);
      assert s[2..4] == ToBigEndian(|f.payload|, 2);
    case Long =>
      BigEndianRoundTrip(|f.payload|, 8);
      assert s[2..10] == ToBigEndian(|f.payload|, 8);
  }

  lemma OneFrame(f: Frame, rest: seq<byte>)
    requires WellFormed(f)
    ensures DataBytes(EncodeHeader(f) + rest) == AfterHeader(|f.payload|, CarriesData(f.opcode), rest)
  {
    EncodedHeader(f, rest);
    var s := EncodeHeader(f) + rest;
    assert s[0] % 16 == CodeOf(f.opcode);
    assert s[1] == EncodeHeader(f)[1];
    assert s[HeaderSize(s[1])..] == rest;
  }

  lemma WholeFrame(f: Frame, more: seq<byte>)
    requires WellFormed(f)
    ensures DataBytes(EncodeHeader(f) + (f.payload + more))
         == (if CarriesData(f.opcode) then |f.payload| else 0) + DataBytes(more)
  {
    OneFrame(f, f.payload + more);
    assert (f.payload + more)[|f.payload|..] == more;
  }

  /** Frames written out whole, then one whose payload is cut after `got` bytes: the
      reference counts every complete data payload and the part that has arrived. */
  lemma {:induction false} ReferenceCountsFrames(frames: seq<Frame>, last: Frame, got: nat)
    requires forall f :: f in frames ==> WellFormed(f)
    requires WellFormed(last) && got <= |last.payload|
    ensures DataBytes(EncodeFrames(frames) + (EncodeHeader(last) + last.payload[..got]))
         == SumData(frames) + (if CarriesData(last.opcode) then got else 0)
  {
    var tail := EncodeHeader(last) + last.payload[..got];
    if frames == [] {
      assert EncodeFrames(frames) + tail == tail;
      OneFrame(last, last.payload[..got]);
      assert last.payload[..got][got..] == [];
    } else {
      ReferenceCountsFrames(frames[1..], last, got);
      WholeFrame(frames[0], EncodeFrames(frames[1..]) + tail);
      FramesAssoc(EncodeHeader(frames[0]), frames[0].payload, EncodeFrames(frames[1..]), tail);
    }
  }

  lemma FramesAssoc(a: seq<byte>, b: seq<byte>, c: seq<byte>, d: seq<byte>)
    ensures (a + b + c) + d == a + (b + (c + d))
  {
  }

  /** CR LF CR LF stands at i. */
  predicate HeaderEndsAt(s: seq<byte>, i: nat) {
    i + 4 <= |s| && s[i] == 0x0d && s[i + 1] == 0x0a && s[i + 2] == 0x0d && s[i + 3] == 0x0a
  }

  /** The body starts right after the earliest CR LF CR LF. */
  lemma {:induction false} BodyAfterFirstHeaderEnd(s: seq<byte>, i: nat)
    requires HeaderEndsAt(s, i)
    requires forall j: nat :: j < i ==> !HeaderEndsAt(s, j)
    ensures StreamBody(s) == s[i + 4..]
  {
    if i > 0 {
      assert !HeaderEndsAt(s, 0);
      forall j: nat | j + 4 < |s|
        ensures HeaderEndsAt(s[1..], j) == HeaderEndsAt(s, j + 1)
      {
        var t := s[1..];
        assert j + 4 <= |t| ==> t[j] == s[j + 1] && t[j + 1] == s[j + 2] && t[j + 2] == s[j + 3] && t[j + 3] == s[j + 4];
      }
      assert HeaderEndsAt(s[1..], i - 1);
      BodyAfterFirstHeaderEnd(s[1..], i - 1);
      assert s[1..][i + 3..] == s[i + 4..];
    }
  }

  // ----- The incremental observer

  /** Data bytes that `rest` still contributes, given what the fields remember. */
  ghost function Owed(upgraded: bool, matched: nat, header: seq<byte>, payload: nat, data: bool,
                      rest: seq<byte>): nat
    requires matched <= 4
  {
    if !upgraded then DataBytes(StreamBody(HEADER_END[..matched] + rest))
    else if payload > 0 then AfterHeader(payload, data, rest)
    else DataBytes(header + rest)
  }

  function NextMatch(matched: nat, value: byte): (m: nat)
    requires matched < 4
    ensures m <= 4
  {
    if value == HEADER_END[matched] then matched + 1 else if value == HEADER_END[0] then 1 else 0
  }

  lemma SkipOne(s: seq<byte>, k: nat)
    requires k < 4 && k < |s| && s[k] != HEADER_END[k]
    ensures StreamBody(s) == StreamBody(s[1..])
  {
    if |s| >= 4 { assert s[..4][k] == s[k]; }
  }

  lemma TakeNext(s: seq<byte>, k: nat)
    requires k < |s|
    ensures s[..k] + [s[k]] == s[..k + 1]
  {
  }

  /** The four-state matcher forgets nothing that matters. */
  lemma MatchStep(matched: nat, value: byte, rest: seq<byte>)
    requires matched < 4
    ensures StreamBody(HEADER_END[..matched] + [value] + rest)
         == if NextMatch(matched, value) == 4 then rest else StreamBody(HEADER_END[..NextMatch(matched, value)] + rest)
  {
    var m := NextMatch(matched, value);
    var s := HEADER_END[..matched] + [value] + rest;
    if value == HEADER_END[matched] {
      TakeNext(HEADER_END, matched);
      if m == 4 { assert s[..4] == HEADER_END; assert s[4..] == rest; }
    } else {
      DropPrefix(matched, s);
      assert s[matched..] == [value] + rest;
      if m == 0 {
        SkipOne([value] + rest, 0);
        assert ([value] + rest)[1..] == rest == HEADER_END[..0] + rest;
      } else {
        assert [value] == HEADER_END[..1];
      }
    }
  }

  /** A stream that mismatches right after a partial match cannot match inside it. */
  lemma DropPrefix(matched: nat, s: seq<byte>)
    requires matched < 4 && |s| > matched
    requires s[..matched] == HEADER_END[..matched] && s[matched] != HEADER_END[matched]
    ensures StreamBody(s) == StreamBody(s[matched..])
  {
    assert forall k :: 0 <= k < matched ==> s[k] == s[..matched][k] == HEADER_END[k];
    if matched >= 1 {
      SkipOne(s, matched);
    }
    if matched >= 2 {
      SkipOne(s[1..], 0);
      assert s[1..][1..] == s[2..];
    }
    if matched >= 3 {
      SkipOne(s[2..], 1);
      assert s[2..][1..] == s[3..];
    }
  }

  /** A byte of the HTTP response only moves the matcher. */
  lemma OwedMatch(matched: nat, value: byte, rest: seq<byte>)
    requires matched < 4
    ensures Owed(false, matched, [], 0, false, [value] + rest)
         == Owed(NextMatch(matched, value) == 4, NextMatch(matched, value), [], 0, false, rest)
  {
    assert HEADER_END[..matched] + ([value] + rest) == HEADER_END[..matched] + [value] + rest;
    MatchStep(matched, value, rest);
    assert [] + rest == rest;
  }

  /** Payload bytes of a frame count if it is a data frame, and the frame's end starts
      a new header. */
  lemma OwedPayload(header: seq<byte>, payload: nat, data: bool, chunk: seq<byte>, rest: seq<byte>)
    requires payload > 0 && |chunk| <= payload
    ensures Owed(true, 4, header, payload, data, chunk + rest)
         == (if data then |chunk| else 0)
            + Owed(true, 4, if |chunk| == payload then [] else header, payload - |chunk|, data, rest)
  {
    var n, all := |chunk|, chunk + rest;
    var m := Min(payload, |all|);
    assert all[m..] == rest[m - n..];
    assert [] + rest == rest;
  }

  /** A completed header fixes the payload length and the kind of frame. */
  lemma OwedHeader(header: seq<byte>, data: bool, rest: seq<byte>)
    requires HasHeader(header) && |header| == HeaderSize(header[1])
    ensures var n := PayloadLength(header);
            Owed(true, 4, header, 0, data, rest) == Owed(true, 4, if n == 0 then [] else header, n, IsData(header[0]), rest)
  {
    var s := header + rest;
    assert s[HeaderSize(s[1])..] == rest;
    if s[1] % 128 == 126 { assert s[2..4] == header[2..4]; }
    else if s[1] % 128 == 127 { assert s[2..10] == header[2..10]; }
    assert rest[0..] == rest == [] + rest;
  }

  /** However the stream goes on, the whole-stream count is what has been observed plus
      what the rest will contribute from the remembered state. */
  ghost predicate Accounts(stream: seq<byte>, observed: nat, upgraded: bool, matched: nat,
                           header: seq<byte>, payload: nat, data: bool)
  {
    matched <= 4 && forall rest :: DataPayload(stream + rest) == observed + Owed(upgraded, matched, header, payload, data, rest)
  }

  lemma AccountsMatch(stream: seq<byte>, observed: nat, matched: nat, data: bool, value: byte)
    requires matched < 4 && Accounts(stream, observed, false, matched, [], 0, data)
    ensures var m := NextMatch(matched, value);
            Accounts(stream + [value], observed, m == 4, m, [], 0, data)
  {
    var m := NextMatch(matched, value);
    forall rest: seq<byte>
      ensures DataPayload(stream + [value] + rest) == observed + Owed(m == 4, m, [], 0, data, rest)
    {
      assert stream + [value] + rest == stream + ([value] + rest);
      OwedMatch(matched, value, rest);
    }
  }

  lemma AccountsPayload(stream: seq<byte>, observed: nat, m: nat, header: seq<byte>, payload: nat, data: bool, chunk: seq<byte>)
    requires Accounts(stream, observed, true, m, header, payload, data)
    requires payload > 0 && |chunk| <= payload
    ensures Accounts(stream + chunk, observed + (if data then |chunk| else 0), true, m,
                     if |chunk| == payload then [] else header, payload - |chunk|, data)
  {
    var observed' := observed + (if data then |chunk| else 0);
    var header' := if |chunk| == payload then [] else header;
    forall rest: seq<byte>
      ensures DataPayload(stream + chunk + rest) == observed' + Owed(true, m, header', payload - |chunk|, data, rest)
    {
      assert stream + chunk + rest == stream + (chunk + rest);
      OwedPayload(header, payload, data, chunk, rest);
    }
  }

  lemma AccountsHeaderBytes(stream: seq<byte>, observed: nat, m: nat, header: seq<byte>, data: bool, chunk: seq<byte>)
    requires Accounts(stream, observed, true, m, header, 0, data)
    ensures Accounts(stream + chunk, observed, true, m, header + chunk, 0, data)
  {
    forall rest: seq<byte>
      ensures DataPayload(stream + chunk + rest) == observed + Owed(true, m, header + chunk, 0, data, rest)
    {
      assert stream + chunk + rest == stream + (chunk + rest);
      assert header + chunk + rest == header + (chunk + rest);
    }
  }

  lemma AccountsBegin(stream: seq<byte>, observed: nat, m: nat, header: seq<byte>, data: bool)
    requires Accounts(stream, observed, true, m, header, 0, data)
    requires HasHeader(header) && |header| == HeaderSize(header[1])
    ensures var n := PayloadLength(header);
            Accounts(stream, observed, true, m, if n == 0 then [] else header, n, IsData(header[0]))
  {
    forall rest: seq<byte>
      ensures var n := PayloadLength(header);
              DataPayload(stream + rest) == observed + Owed(true, m, if n == 0 then [] else header, n, IsData(header[0]), rest)
    {
      OwedHeader(header, data, rest);
    }
  }

  lemma TakeDrop(a: seq<byte>, b: seq<byte>, i: nat)
    requires i <= |b|
    ensures (a + b[..i]) + b[i..] == a + b
  {
  }

  lemma SliceOfPrefix(a: array<byte>, n: nat, lo: nat, hi: nat)
    requires lo <= hi <= n <= a.Length
    ensures a[..n][lo..hi] == a[lo..hi]
  {
  }

  class OutputObservingConn {
    var httpHeaderMatch: nat
    var upgraded: bool
    const frameHeader: array<byte>
    var frameHeaderLen: nat
    var frameHeaderNeed: nat
    var payloadBytes: nat
    var dataFrame: bool
    var observed: nat             // the sum of all arguments passed to observe
    ghost var stream: seq<byte>   // every byte read so far

    ghost predicate Accounted()
      reads this, frameHeader
    {
      && frameHeader.Length == 14
      && frameHeaderLen <= frameHeaderNeed <= 14
      && Accounts(stream, observed, upgraded, httpHeaderMatch, frameHeader[..frameHeaderLen], payloadBytes, dataFrame)
    }

    /** Why each turn of the frame loop consumes input: between frames nothing is needed
        yet, inside a header more is needed than is held, and a need beyond two bytes is
        the one announced by the second byte. */
    ghost predicate HeaderIncomplete()
      requires frameHeader.Length == 14
      reads this, frameHeader
    {
      || (frameHeaderLen == 0 && frameHeaderNeed == 0)
      || (frameHeaderLen < 2 && frameHeaderNeed == 2)
      || (2 <= frameHeaderLen < frameHeaderNeed && frameHeaderNeed == HeaderSize(frameHeader[1]))
    }

    ghost predicate Valid()
      reads this, frameHeader
    {
      && Accounted()
      && (payloadBytes == 0 ==> HeaderIncomplete())
      && (!upgraded ==> httpHeaderMatch < 4 && payloadBytes == 0 && frameHeaderLen == 0 && frameHeaderNeed == 0)
    }

    constructor ()
      ensures Valid() && fresh(frameHeader)
      ensures stream == [] && observed == 0
    {
      httpHeaderMatch, upgraded := 0, false;
      frameHeader := new byte[14];
      frameHeaderLen, frameHeaderNeed, payloadBytes, dataFrame := 0, 0, 0, false;
      observed, stream := 0, [];
      new;
      forall rest: seq<byte>
        ensures DataPayload([] + rest) == 0 + Owed(false, 0, [], 0, false, rest)
      {
        assert [] + rest == rest == HEADER_END[..0] + rest;
      }
    }

    /** After any reads at all, what was observed is the whole-stream count. */
    lemma ObservedIsDataPayload()
      requires Valid()
      ensures observed == DataPayload(stream)
    {
      var header := frameHeader[..frameHeaderLen];
      assert DataPayload(stream + []) == observed + Owed(upgraded, httpHeaderMatch, header, payloadBytes, dataFrame, []);
      assert stream + [] == stream;
      assert header + [] == header;
      assert HEADER_END[..httpHeaderMatch] + [] == HEADER_END[..httpHeaderMatch];
    }

    method Inspect(data: seq<byte>)
      requires Valid()
      modifies this, frameHeader
      ensures Valid() && stream == old(stream) + data
      ensures observed == DataPayload(stream)
    {
      if !upgraded {
        var index := MatchHeader(data);
        TakeDrop(old(stream), data, index);
        if upgraded {
          InspectFrames(data[index..]);
        }
      } else {
        InspectFrames(data);
      }
      ObservedIsDataPayload();
    }

    /** Looks for the end of the HTTP response header, and stops right after it. */
    method MatchHeader(data: seq<byte>) returns (index: nat)
      requires Valid() && !upgraded
      modifies this
      ensures Valid() && index <= |data| && stream == old(stream) + data[..index]
      ensures upgraded || index == |data|
    {
      index := 0;
      while index < |data|
        invariant index <= |data|
        invariant Valid() && !upgraded
        invariant stream == old(stream) + data[..index]
      {
        MatchByte(data[index]);
        assert data[..index + 1] == data[..index] + [data[index]];
        index := index + 1;
        if upgraded {
          return;
        }
      }
    }

    /** One byte of the HTTP response header. */
    method MatchByte(value: byte)
      requires Valid() && !upgraded
      modifies this`httpHeaderMatch, this`upgraded, this`stream
      ensures Valid() && stream == old(stream) + [value]
    {
      AccountsMatch(stream, observed, httpHeaderMatch, dataFrame, value);
      httpHeaderMatch := NextMatch(httpHeaderMatch, value);
      if httpHeaderMatch == |HEADER_END| {
        upgraded := true;
      }
      stream := stream + [value];
    }

    method InspectFrames(input: seq<byte>)
      requires Valid() && upgraded
      modifies this, frameHeader
      ensures Valid() && upgraded && stream == old(stream) + input
    {
      var data := input;
      while |data| > 0
        invariant Valid() && upgraded
        invariant stream + data == old(stream) + input
      {
        if payloadBytes > 0 {
          data := TakePayload(data);
          continue;
        }
        if frameHeaderNeed == 0 {
          frameHeaderNeed := 2;
        }
        data := TakeHeader(data);
        if frameHeaderLen < frameHeaderNeed {
          continue;
        }
        if frameHeaderNeed == 2 {
          frameHeaderNeed := HeaderSize(frameHeader[1]);
          if frameHeaderLen < frameHeaderNeed {
            continue;
          }
        }
        BeginFrame();
      }
      assert stream + data == stream;
    }

    /** One turn inside a payload. */
    method TakePayload(data: seq<byte>) returns (left: seq<byte>)
      requires Valid() && upgraded && payloadBytes > 0 && |data| > 0
      modifies this`observed, this`payloadBytes, this`stream, this`frameHeaderLen, this`frameHeaderNeed
      ensures Valid() && upgraded
      ensures |left| < |data| && stream + left == old(stream) + data
    {
      var consumed := Min(payloadBytes, |data|);
      ghost var header := frameHeader[..frameHeaderLen];
      AccountsPayload(stream, observed, httpHeaderMatch, header, payloadBytes, dataFrame, data[..consumed]);
      TakeDrop(stream, data, consumed);
      if dataFrame {
        observed := observed + consumed;
      }
      payloadBytes := payloadBytes - consumed;
      left := data[consumed..];
      stream := stream + data[..consumed];
      if payloadBytes == 0 {
        frameHeaderLen := 0;
        frameHeaderNeed := 0;
        assert frameHeader[..0] == [];
      } else {
        assert frameHeader[..frameHeaderLen] == header;
      }
    }

    /** One turn inside a frame header; stops exactly when the need is met or data ends. */
    method TakeHeader(data: seq<byte>) returns (left: seq<byte>)
      requires Accounted() && upgraded && payloadBytes == 0
      requires frameHeaderLen < frameHeaderNeed && |data| > 0
      modifies this`frameHeaderLen, this`stream, frameHeader
      ensures Accounted() && frameHeaderLen > old(frameHeaderLen)
      ensures frameHeaderLen == frameHeaderNeed || left == []
      ensures old(frameHeaderLen) >= 2 ==> frameHeader[1] == old(frameHeader[1])
      ensures |left| < |data| && stream + left == old(stream) + data
    {
      var needed := Min(frameHeaderNeed - frameHeaderLen, |data|);
      ghost var held := frameHeader[..frameHeaderLen];
      AccountsHeaderBytes(stream, observed, httpHeaderMatch, held, dataFrame, data[..needed]);
      forall i | 0 <= i < needed {
        frameHeader[frameHeaderLen + i] := data[i];
      }
      frameHeaderLen := frameHeaderLen + needed;
      left := data[needed..];
      TakeDrop(stream, data, needed);
      stream := stream + data[..needed];
      assert frameHeader[..frameHeaderLen] == held + data[..needed];
    }

    method BeginFrame()
      requires Accounted() && upgraded && payloadBytes == 0
      requires frameHeaderLen == frameHeaderNeed == HeaderSize(frameHeader[1])
      modifies this
      ensures Valid() && upgraded && stream == old(stream)
    {
      ghost var header := frameHeader[..frameHeaderLen];
      AccountsBegin(stream, observed, httpHeaderMatch, header, dataFrame);
      var code := frameHeader[1] % 128;
      if code == 126 {
        payloadBytes := BigEndian(frameHeader[2..4]);
        SliceOfPrefix(frameHeader, frameHeaderLen, 2, 4);
      } else if code == 127 {
        payloadBytes := BigEndian(frameHeader[2..10]);
        SliceOfPrefix(frameHeader, frameHeaderLen, 2, 10);
      } else {
        payloadBytes := code;
      }
      var opcode := frameHeader[0] % 16;
      dataFrame := opcode == 0 || opcode == 1 || opcode == 2;
      if payloadBytes == 0 {
        frameHeaderLen := 0;
        frameHeaderNeed := 0;
        assert frameHeader[..0] == [];
      }
    }
  }

  function Concat(chunks: seq<seq<byte>>): seq<byte>
  {
    if chunks == [] then [] else Concat(chunks[..|chunks| - 1]) + chunks[|chunks| - 1]
  }

  /** Any cutting of a stream into reads: the total observed is the whole-stream count. */
  method ObserveReads(chunks: seq<seq<byte>>) returns (total: nat)
    ensures total == DataPayload(Concat(chunks))
  {
    var conn := new OutputObservingConn();
    var i := 0;
    while i < |chunks|
      invariant 0 <= i <= |chunks|
      invariant conn.Valid() && fresh(conn) && fresh(conn.frameHeader)
      invariant conn.stream == Concat(chunks[..i])
    {
      assert chunks[..i + 1][..i] == chunks[..i];
      conn.Inspect(chunks[i]);
      i := i + 1;
    }
    assert chunks[..i] == chunks;
    conn.ObservedIsDataPayload();
    total := conn.observed;
  }
}
