/** httpconnection.c: web socket frames, as in section 4.2 of
    draft-hixie-thewebsocketprotocol-75: the senders, and the decoder that is fed
    the stream in buffers of any size. */
module WebSocket {
  import opened Bytes
  import opened Utf8

  // What the handler is given: the frames with payload, put together from the
  // pieces that it is called with.
  datatype Message = Message(kind: Byte, bytes: seq<Byte>)

  /** Where in a frame the stream is. */
  datatype Phase =
    | Header
    | Length(kind: Byte, n: nat)
    | Binary(kind: Byte, left: nat, first: bool)
    | Text(kind: Byte, first: bool)
    | Failed

  datatype Decoding = Decoding(phase: Phase, messages: seq<Message>)

  /** A piece of payload: the first one of a frame starts a message, any other one
      continues the last. */
  function Deliver(messages: seq<Message>, start: bool, kind: Byte, piece: seq<Byte>): seq<Message> {
    if piece == [] then messages
    else if start || messages == [] then messages + [Message(kind, piece)]
    else
      var last := messages[|messages| - 1];
      messages[|messages| - 1 := last.(bytes := last.bytes + piece)]
  }

  // The largest length that another seven bits can be read into.
  const MAX_PREFIX: nat := 0xFF_FFFF

  // Another seven bits of a length.
  function ReadLength(kind: Byte, n: nat, b: Byte): Phase {
    if n > MAX_PREFIX then Failed
    else
      var m := 128 * n + b % 128;
      if b >= 128 then Length(kind, m) else if m == 0 then Header else Binary(kind, m, true)
  }

  /** The decoder, one byte at a time. */
  function Step(d: Decoding, b: Byte): Decoding {
    match d.phase
    case Header => d.(phase := if b >= 0x80 then Length(b, 0) else Text(b, true))
    case Length(kind, n) => d.(phase := ReadLength(kind, n, b))
    case Binary(kind, left, first) =>
      Decoding(if left <= 1 then Header else Binary(kind, left - 1, false), Deliver(d.messages, first, kind, [b]))
    case Text(kind, first) =>
      if b == 0xFF then d.(phase := Header)
      else Decoding(Text(kind, false), Deliver(d.messages, first, kind, [b]))
    case Failed => d
  }

  function Decode(d: Decoding, s: seq<Byte>): Decoding {
    if s == [] then d else Step(Decode(d, s[..|s| - 1]), s[|s| - 1])
  }

  /** The stream may be cut anywhere. */
  lemma {:induction false} DecodeConcat(d: Decoding, a: seq<Byte>, b: seq<Byte>)
    ensures Decode(d, a + b) == Decode(Decode(d, a), b)
  {
    hide Step;
    if b == [] {
      assert a + b == a;
    } else {
      DecodeConcat(d, a, b[..|b| - 1]);
      assert (a + b)[..|a + b| - 1] == a + b[..|b| - 1];
    }
  }

  lemma DecodeNext(d: Decoding, s: seq<Byte>, i: nat)
    requires i < |s|
    ensures Decode(d, s[..i + 1]) == Step(Decode(d, s[..i]), s[i])
  {
    assert s[..i + 1][..i] == s[..i];
  }

  lemma DecodeSlices(d: Decoding, s: seq<Byte>, i: nat, j: nat)
    requires i <= j <= |s|
    ensures Decode(Decode(d, s[..i]), s[i..j]) == Decode(d, s[..j])
  {
    DecodeConcat(d, s[..i], s[i..j]);
    assert s[..i] + s[i..j] == s[..j];
  }

  lemma DeliverMore(messages: seq<Message>, start: bool, kind: Byte, a: seq<Byte>, b: seq<Byte>)
    ensures Deliver(Deliver(messages, start, kind, a), start && a == [], kind, b) == Deliver(messages, start, kind, a + b)
  {
    if a == [] {
      assert a + b == b;
    } else if b == [] {
      assert a + b == a;
    } else if !start && messages != [] {
      assert messages[|messages| - 1].bytes + a + b == messages[|messages| - 1].bytes + (a + b);
    }
  }

  lemma {:induction false} FailedStays(d: Decoding, s: seq<Byte>)
    requires d.phase == Failed
    ensures Decode(d, s) == d
  {
    if s != [] {
      FailedStays(d, s[..|s| - 1]);
    }
  }

  // A run of payload bytes of a binary frame.
  lemma {:induction false} BinaryRun(kind: Byte, left: nat, first: bool, messages: seq<Message>, s: seq<Byte>)
    requires |s| <= left
    ensures Decode(Decoding(Binary(kind, left, first), messages), s)
      == Decoding(if s == [] then Binary(kind, left, first)
                  else if |s| == left then Header else Binary(kind, left - |s|, false),
                  Deliver(messages, first, kind, s))
  {
    if s != [] {
      var s1 := s[..|s| - 1];
      BinaryRun(kind, left, first, messages, s1);
      DeliverMore(messages, first, kind, s1, [s[|s| - 1]]);
      assert s1 + [s[|s| - 1]] == s;
    }
  }

  // A run of payload bytes of a text frame.
  lemma {:induction false} TextRun(kind: Byte, first: bool, messages: seq<Message>, s: seq<Byte>)
    requires 0xFF !in s
    ensures Decode(Decoding(Text(kind, first), messages), s)
      == Decoding(Text(kind, first && s == []), Deliver(messages, first, kind, s))
  {
    if s != [] {
      var s1 := s[..|s| - 1];
      assert s1 + [s[|s| - 1]] == s;
      TextRun(kind, first, messages, s1);
      DeliverMore(messages, first, kind, s1, [s[|s| - 1]]);
    }
  }

  lemma TextEnds(d: Decoding)
    requires d.phase.Text?
    ensures Decode(d, [0xFF]) == d.(phase := Header)
  {
    DecodeOne(d, 0xFF);
  }

  lemma DecodeNothing(d: Decoding)
    ensures Decode(d, []) == d
  {
  }

  lemma DecodeOne(d: Decoding, b: Byte)
    ensures Decode(d, [b]) == Step(d, b)
  {
    assert [b][..0] == [];
  }

  // ---- The decoder of the connection ----

  // http->websocketType: its flags and its low byte.
  datatype FrameType = FrameType(undefined: bool, start: bool, end: bool, low: Byte)

  const WS_UNDEFINED := FrameType(true, false, false, 0)

  class Connection {
    var websocketType: FrameType
    var expecting: int
    ghost var failed: bool
    ghost var messages: seq<Message>    // what the handler was called with

    ghost predicate Valid()
      reads this
    {
      && -1 <= expecting <= 0x7FFF_FFFF
      && (websocketType.undefined && websocketType.low != 0 ==>
            expecting >= 0 && websocketType.low >= 0x80 && websocketType.start)
      && (!websocketType.undefined && websocketType.low >= 0x80 ==> expecting >= 0)
    }

    /** The state that the fields stand for. */
    ghost function Abs(): Decoding
      reads this
    {
      var w := websocketType;
      var phase :=
        if failed then Failed
        else if w.undefined then (if w.low == 0 || expecting < 0 then Header else Length(w.low, expecting))
        else if w.low < 0x80 then Text(w.low, w.start)
        else if expecting <= 0 then Header
        else Binary(w.low, expecting, w.start);
      Decoding(phase, messages)
    }

    constructor ()
      ensures Valid() && Abs() == Decoding(Header, [])
    {
      websocketType, expecting, failed, messages := WS_UNDEFINED, 0, false, [];
    }

    // The websocket handler of the application.
    ghost method Handle(kind: FrameType, piece: seq<Byte>)
      modifies `messages
      ensures messages == Deliver(old(messages), kind.start, kind.low, piece)
    {
      messages := Deliver(messages, kind.start, kind.low, piece);
    }

    // A byte of a frame's header.
    method ReadHeader(ch: Byte) returns (ok: bool)
      requires Valid() && websocketType.undefined && !failed
      modifies this
      ensures Valid() && Abs() == Step(old(Abs()), ch) && ok == !failed
    {
      if websocketType.low != 0 {
        if expecting > 0xFF_FFFF {
          failed := true;
          return false;
        }
        expecting := 128 * expecting + ch % 128;
        if ch < 0x80 {
          websocketType := websocketType.(undefined := false);
        }
      } else {
        websocketType := FrameType(false, true, false, ch);
        if ch >= 0x80 {
          websocketType := websocketType.(undefined := true);
          expecting := 0;
        }
      }
      return true;
    }

    // Some bytes of payload: `len` of them are handed to the handler.  The end of
    // a text frame is consumed with them.
    method HandleBuffered(buf: seq<Byte>, offset: nat, ch: Byte) returns (next: nat)
      requires Valid() && !failed && !websocketType.undefined && offset < |buf|
      requires websocketType.low >= 0x80 ==> expecting > 0 && ch != 0xFF
      requires websocketType.low < 0x80 ==>
        && 0 <= expecting <= |buf| - offset && 0xFF !in buf[offset..offset + expecting]
        && (if ch == 0xFF then offset + expecting < |buf| && buf[offset + expecting] == 0xFF
            else expecting == |buf| - offset)
      modifies this
      ensures Valid() && !failed && offset < next <= |buf|
      ensures Abs() == Decode(old(Abs()), buf[offset..next])
      ensures websocketType.undefined || websocketType.low == old(websocketType.low)
    {
      hide Step, Decode;
      ghost var d := Abs();
      var len: int := |buf| - offset;
      if len >= expecting {
        len := expecting;
        websocketType := websocketType.(end := true);
      }
      var piece := buf[offset..offset + len];
      if len != 0 {
        Handle(websocketType, piece);
      }
      if websocketType.low >= 0x80 {
        BinaryRun(websocketType.low, expecting, websocketType.start, d.messages, piece);
      } else {
        TextRun(websocketType.low, websocketType.start, d.messages, piece);
      }
      if ch == 0xFF {
        assert buf[offset..offset + len + 1] == piece + [buf[offset + len]];
        DecodeConcat(d, piece, [buf[offset + len]]);
        TextEnds(Decode(d, piece));
        len := len + 1;
        websocketType := WS_UNDEFINED;
      }
      next := offset + len;
      assert ch == 0xFF || buf[offset..next] == piece;
      expecting := expecting - len;
      websocketType := websocketType.(start := false, end := false);
    }

    // Looks for the end of a text frame.
    method FindEnd(buf: seq<Byte>, offset: nat) returns (ch: Byte, i: nat)
      requires offset < |buf|
      ensures offset < i <= |buf| && ch == buf[i - 1] && 0xFF !in buf[offset..if ch == 0xFF then i - 1 else i]
      ensures ch == 0xFF || i == |buf|
    {
      i := offset;
      while true
        invariant offset <= i < |buf| && 0xFF !in buf[offset..i]
        decreases |buf| - i
      {
        ch := buf[i];
        i := i + 1;
        if ch == 0xFF || i == |buf| {
          return;
        }
      }
    }

    /** One buffer of the stream, of any length that an `int` can hold. */
    method HandleWebSocket(buf: seq<Byte>) returns (ok: bool)
      requires Valid() && !failed && |buf| <= 0x7FFF_FFFF
      modifies this
      ensures Valid() && ok == !failed
      ensures ok ==> Abs() == Decode(old(Abs()), buf)
      ensures !ok ==> Decode(old(Abs()), buf).phase == Failed && messages == Decode(old(Abs()), buf).messages
    {
      hide Step, Decode;
      ghost var d := Abs();
      assert Decode(d, buf[..0]) == d by {
        DecodeNothing(d);
      }
      var offset, ch: Byte := 0, 0;
      while offset < |buf|
        invariant offset <= |buf| && Valid() && !failed
        invariant Abs() == Decode(old(Abs()), buf[..offset])
        invariant !websocketType.undefined && websocketType.low >= 0x80 ==> ch != 0xFF
        decreases |buf| - offset, !websocketType.undefined
      {
        if websocketType.undefined {
          ch := buf[offset];
          ok := ReadHeader(ch);
          DecodeNext(d, buf, offset);
          offset := offset + 1;
          if !ok {
            DecodeConcat(d, buf[..offset], buf[offset..]);
            assert buf == buf[..offset] + buf[offset..];
            FailedStays(Decode(d, buf[..offset]), buf[offset..]);
            return;
          }
          if !websocketType.undefined && websocketType.low >= 0x80 {
            ch := 0;
          }
        } else if websocketType.low >= 0x80 {
          if expecting != 0 {
            ghost var done := offset;
            offset := HandleBuffered(buf, offset, ch);
            DecodeSlices(d, buf, done, offset);
          } else {
            websocketType := WS_UNDEFINED;
          }
        } else {
          var i;
          ch, i := FindEnd(buf, offset);
          expecting := i - offset - (if ch == 0xFF then 1 else 0);
          assert buf[offset..offset + expecting] == buf[offset..if ch == 0xFF then i - 1 else i];
          ghost var done := offset;
          offset := HandleBuffered(buf, offset, ch);
          DecodeSlices(d, buf, done, offset);
        }
      }
      assert buf[..offset] == buf;
      return true;
    }
  }

  // ---- The senders ----

  /** Latin-1 text in UTF-8. */
  function Utf8Text(s: seq<Byte>): (r: seq<Byte>)
    ensures 0xFF !in r
    ensures s != [] ==> r != []
  {
    if s == [] then [] else Utf8Text(s[..|s| - 1]) + Encode(s[|s| - 1])
  }

  lemma Utf8Next(s: seq<Byte>, i: nat)
    requires i < |s|
    ensures Utf8Text(s[..i + 1]) == Utf8Text(s[..i]) + Encode(s[i])
  {
    assert s[..i + 1][..i] == s[..i];
  }

  // The size of the encoded text, its type byte and its end.
  method MeasureText(buf: seq<Byte>) returns (utf8Len: nat)
    ensures utf8Len == |Utf8Text(buf)| + 2
  {
    utf8Len := |buf| + 2;
    for i := 0 to |buf|
      invariant utf8Len == |buf| - i + |Utf8Text(buf[..i])| + 2
    {
      Utf8Next(buf, i);
      if buf[i] >= 0x80 {
        utf8Len := utf8Len + 1;
      }
    }
    assert buf[..|buf|] == buf;
  }

  method EncodeByte(utf8: array<Byte>, j0: nat, ch: Byte) returns (j: nat)
    requires j0 + |Encode(ch)| <= utf8.Length
    modifies utf8
    ensures j == j0 + |Encode(ch)| && utf8[..j] == old(utf8[..j0]) + Encode(ch)
  {
    j := j0;
    if ch >= 0x80 {
      utf8[j] := 0xC0 + ch / 64;
      utf8[j + 1] := 0x80 + ch % 64;
      j := j + 2;
    } else {
      utf8[j] := ch;
      j := j + 1;
    }
  }

  // A text message without its end.
  ghost function OpenText(kind: Byte, s: seq<Byte>): seq<Byte> {
    [kind] + Utf8Text(s)
  }

  lemma OpenTextNext(kind: Byte, s: seq<Byte>, i: nat)
    requires i < |s|
    ensures OpenText(kind, s[..i + 1]) == OpenText(kind, s[..i]) + Encode(s[i])
    ensures |OpenText(kind, s[..i + 1])| <= |OpenText(kind, s)|
  {
    hide Utf8Text, Encode;
    Utf8Next(s, i);
    Utf8Grows(s, i + 1);
  }

  /** httpSendWebSocketTextMsg: measures the text, then encodes it in one buffer,
      which it never overruns. */
  method SendText(kind: Byte, buf: seq<Byte>) returns (utf8: array<Byte>)
    requires kind <= 0x7F && |buf| < 0x6000_0000
    ensures fresh(utf8) && utf8[..] == [kind] + Utf8Text(buf) + [0xFF]
  {
    var utf8Len := MeasureText(buf);
    utf8 := new Byte[utf8Len];
    utf8[0] := kind;
    var j := 1;
    assert utf8[..1] == OpenText(kind, buf[..0]);
    for i := 0 to |buf|
      invariant 0 <= j < utf8Len && utf8[..j] == OpenText(kind, buf[..i])
    {
      hide OpenText, Encode;
      OpenTextNext(kind, buf, i);
      j := EncodeByte(utf8, j, buf[i]);
    }
    assert buf[..|buf|] == buf;
    utf8[utf8Len - 1] := 0xFF;
    assert utf8[..] == utf8[..j] + [0xFF];
  }

  lemma {:induction false} Utf8Grows(s: seq<Byte>, i: nat)
    requires i <= |s|
    ensures |Utf8Text(s[..i])| <= |Utf8Text(s)|
    decreases |s| - i
  {
    if i == |s| {
      assert s[..i] == s;
    } else {
      Utf8Next(s, i);
      Utf8Grows(s, i + 1);
    }
  }

  /** The base-128 digits of a number, the least significant one first. */
  function Digits(n: nat): (d: seq<Byte>)
    ensures |d| > 0 && forall i :: 0 <= i < |d| ==> d[i] < 128
  {
    if n < 128 then [n] else [n % 128] + Digits(n / 128)
  }

  function Reversed(s: seq<Byte>): (r: seq<Byte>)
    ensures |r| == |s|
    ensures forall i :: 0 <= i < |s| ==> r[i] == s[|s| - 1 - i]
  {
    if s == [] then [] else Reversed(s[1..]) + [s[0]]
  }

  // The digits as the sender marks them before it reverses them: the mark is on
  // all but the most significant one.
  function Marked(n: nat): (r: seq<Byte>)
    ensures |r| == |Digits(n)|
  {
    if n < 128 then [n] else [n % 128 + 128] + Marked(n / 128)
  }

  function BinaryWire(m: Message): seq<Byte> {
    [m.kind] + Reversed(Marked(|m.bytes|)) + m.bytes
  }

  function Power128(k: nat): nat {
    if k == 0 then 1 else 128 * Power128(k - 1)
  }

  lemma {:induction false} DigitsAtMost(n: nat, k: nat)
    requires n < Power128(k) && k > 0
    ensures |Digits(n)| <= k
  {
    if n >= 128 {
      DigitsAtMost(n / 128, k - 1);
    }
  }

  // The lengths that the sender accepts take at most five bytes.
  lemma FiveDigits(n: nat)
    requires n < 0x7FFF_FFF0
    ensures |Digits(n)| <= 5
  {
    assert Power128(2) == 128 * 128;
    assert Power128(5) == 0x8_0000_0000;
    DigitsAtMost(n, 5);
  }

  // The digits of n from the i-th on are those of what is left of n.
  ghost predicate DigitsSoFar(n: nat, data: seq<Byte>, l: nat) {
    && |data| <= |Digits(n)|
    && (forall k :: 0 <= k < |data| ==> data[k] == Digits(n)[k] + 128)
    && (if l == 0 then |data| == |Digits(n)| else Digits(n)[|data|..] == Digits(l))
  }

  lemma FirstDigit(n: nat)
    ensures DigitsSoFar(n, [128 + n % 128], n / 128)
  {
  }

  lemma NextDigit(n: nat, data: seq<Byte>, l: nat)
    requires DigitsSoFar(n, data, l) && l > 0
    ensures |data| < |Digits(n)| && DigitsSoFar(n, data + [128 + l % 128], l / 128)
  {
    assert Digits(n)[|data|] == Digits(l)[0];
    if l >= 128 {
      assert Digits(n)[|data| + 1..] == Digits(l)[1..];
    }
  }

  lemma {:induction false} MarkedDigits(n: nat)
    ensures forall k :: 0 <= k < |Digits(n)| ==>
      Marked(n)[k] == Digits(n)[k] + (if k < |Digits(n)| - 1 then 128 else 0)
  {
    if n >= 128 {
      MarkedDigits(n / 128);
    }
  }

  /** Converts a length to base 128 behind the type byte. */
  method PutDigits(data: array<Byte>, len: nat) returns (i: nat)
    requires |Digits(len)| < data.Length
    modifies data
    ensures i == |Digits(len)| && data[0] == old(data[0]) && data[1..i + 1] == Marked(len)
  {
    hide Digits, Marked;
    var l: nat := len / 128;
    i := 1;
    data[i] := 0x80 + len % 128;
    FirstDigit(len);
    assert data[1..2] == [0x80 + len % 128];
    while l != 0
      invariant 1 <= i < data.Length && data[0] == old(data[0])
      invariant DigitsSoFar(len, data[1..i + 1], l)
    {
      NextDigit(len, data[1..i + 1], l);
      ghost var done := data[1..i + 1];
      i := i + 1;
      data[i] := 0x80 + l % 128;
      assert data[1..i + 1] == done + [128 + l % 128];
      l := l / 128;
    }
    ghost var all := data[1..i + 1];
    data[i] := data[i] % 128;
    assert data[1..i + 1] == all[i - 1 := all[i - 1] % 128];
    UnmarkLast(len, all);
  }

  lemma UnmarkLast(n: nat, all: seq<Byte>)
    requires |all| == |Digits(n)| && forall k :: 0 <= k < |all| ==> all[k] == Digits(n)[k] + 128
    ensures all[|all| - 1 := all[|all| - 1] % 128] == Marked(n)
  {
    MarkedDigits(n);
    assert Digits(n)[|all| - 1] < 128;
  }

  /** Reverses the digits in place. */
  method ReverseDigits(data: array<Byte>, i: nat)
    requires i < data.Length
    modifies data
    ensures data[0] == old(data[0]) && data[1..i + 1] == Reversed(old(data[1..i + 1]))
  {
    var j := 0;
    while j < i / 2
      invariant j <= i / 2 && data[0] == old(data[0])
      invariant forall k :: 1 <= k <= j || i - j < k <= i ==> data[k] == old(data[i + 1 - k])
      invariant forall k :: j < k <= i - j ==> data[k] == old(data[k])
    {
      var ch := data[1 + j];
      data[1 + j] := data[i - j];
      data[i - j] := ch;
      j := j + 1;
    }
    ghost var was := old(data[1..i + 1]);
    forall k | 0 <= k < i
      ensures data[1..i + 1][k] == Reversed(was)[k]
    {
      assert data[1 + k] == old(data[i - k]);
    }
  }

  // memmove
  method CopyTo(data: array<Byte>, start: nat, buf: seq<Byte>)
    requires start + |buf| <= data.Length
    modifies data
    ensures data[..start] == old(data[..start]) && data[start..start + |buf|] == buf
  {
    for k := 0 to |buf|
      invariant data[..start] == old(data[..start]) && data[start..start + k] == buf[..k]
    {
      data[start + k] := buf[k];
    }
  }

  /** httpSendWebSocketBinaryMsg: the header fits in front of the payload. */
  method SendBinary(kind: Byte, buf: seq<Byte>) returns (sent: seq<Byte>)
    requires kind >= 0x80 && 0 < |buf| < 0x7FFF_FFF0
    ensures sent == BinaryWire(Message(kind, buf))
  {
    hide Digits, Marked, Reversed;
    var data := new Byte[|buf| + 6];
    data[0] := kind;
    FiveDigits(|buf|);
    var i := PutDigits(data, |buf|);
    ReverseDigits(data, i);
    assert data[..i + 1] == [data[0]] + data[1..i + 1];
    CopyTo(data, i + 1, buf);
    sent := data[..|buf| + i + 1];
    assert sent == data[..i + 1] + data[i + 1..i + 1 + |buf|];
  }

  // ---- Round trips ----

  // A number's digits, the most significant one first and all of them marked.
  function Front(n: nat): seq<Byte> {
    if n == 0 then [] else Front(n / 128) + [n % 128 + 128]
  }

  /** A length as the standard has it: the mark is on all digits but the last. */
  function LengthWire(n: nat): seq<Byte> {
    Front(n / 128) + [n % 128]
  }

  lemma FrontDigits(n: nat)
    ensures Front(n) == if n == 0 then [] else Front(n / 128) + [n % 128 + 128]
  {
  }

  lemma {:induction false} ReadFront(kind: Byte, messages: seq<Message>, n: nat)
    ensures Decode(Decoding(Length(kind, 0), messages), Front(n))
            == Decoding(if n / 128 <= MAX_PREFIX then Length(kind, n) else Failed, messages)
  {
    FrontDigits(n);
    SevenBits(n);
    hide Front, Decode, Deliver;
    var d := Decoding(Length(kind, 0), messages);
    if n == 0 {
      DecodeNothing(d);
    } else {
      ReadFront(kind, messages, n / 128);
      DecodeSnoc(d, Front(n / 128), n % 128 + 128);
    }
  }

  /** The decoder reads back exactly the lengths that an `int` can hold, and fails
      on all others. */
  lemma LengthReads(kind: Byte, messages: seq<Message>, n: nat)
    ensures Decode(Decoding(Length(kind, 0), messages), LengthWire(n)).phase
            == (if n > 0x7FFF_FFFF then Failed else if n == 0 then Header else Binary(kind, n, true))
  {
    hide Decode, Front;
    var d := Decoding(Length(kind, 0), messages);
    ReadFront(kind, messages, n / 128);
    DecodeSnoc(d, Front(n / 128), n % 128);
    SevenBits(n);
  }

  lemma SevenBits(n: nat)
    ensures 128 * (n / 128) + n % 128 == n && (n / 128 <= MAX_PREFIX <==> n <= 0x7FFF_FFFF)
    ensures n / 128 / 128 > MAX_PREFIX ==> n > 0x7FFF_FFFF
    ensures (n % 128 + 128) % 128 == n % 128
  {
  }

  lemma DecodeSnoc(d: Decoding, s: seq<Byte>, b: Byte)
    ensures Decode(d, s + [b]) == Step(Decode(d, s), b)
  {
    assert (s + [b])[..|s|] == s;
  }

  lemma {:induction false} TopDigit(n: nat)
    requires n > 0
    ensures var d := Marked(n); 0 < d[|d| - 1] < 128 && |d| > 0 && (n >= 128 ==> |d| > 1)
  {
    if n >= 128 {
      TopDigit(n / 128);
    }
  }

  // What starts with a whole binary frame.
  lemma ReadFrame(d: Decoding, kind: Byte, n: Byte, rest: seq<Byte>)
    requires d.phase == Header && kind >= 0x80 && 0 < n < 128 && n <= |rest|
    ensures Decode(d, [kind, n] + rest)
            == Decode(Decoding(Header, d.messages + [Message(kind, rest[..n])]), rest[n..])
  {
    hide Deliver, Step, Decode;
    ReadStart(d, kind, n);
    DecodeConcat(d, [kind, n], rest);
    assert rest == rest[..n] + rest[n..];
    DecodeConcat(Decode(d, [kind, n]), rest[..n], rest[n..]);
    BinaryRun(kind, n, true, d.messages, rest[..n]);
    DeliverStarts(d.messages, kind, rest[..n]);
  }

  lemma ReadStart(d: Decoding, kind: Byte, n: Byte)
    requires d.phase == Header && kind >= 0x80 && 0 < n < 128
    ensures Decode(d, [kind, n]) == Decoding(Binary(kind, n, true), d.messages)
  {
    hide Decode, Deliver;
    assert [kind] + [n] == [kind, n];
    DecodeOne(d, kind);
    DecodeSnoc(d, [kind], n);
  }

  lemma DeliverStarts(messages: seq<Message>, kind: Byte, piece: seq<Byte>)
    requires piece != []
    ensures Deliver(messages, true, kind, piece) == messages + [Message(kind, piece)]
  {
  }

  // Messages that are complete, and stay as they are.
  predicate Finished(d: Decoding, done: seq<Message>) {
    && done <= d.messages
    && ((d.phase.Binary? || d.phase.Text?) && !d.phase.first ==> |done| < |d.messages|)
  }

  lemma {:induction false} FinishedStay(d: Decoding, done: seq<Message>, s: seq<Byte>)
    requires Finished(d, done)
    ensures Finished(Decode(d, s), done)
  {
    if s != [] {
      FinishedStay(d, done, s[..|s| - 1]);
    }
  }

  /** The decoder gets back a binary message that was sent exactly if its length
      takes one digit: of several, the sender leaves the first one unmarked, and
      the decoder takes it for the whole length. */
  lemma BinaryRoundTrip(d: Decoding, m: Message)
    requires d.phase == Header && m.kind >= 0x80 && |m.bytes| > 0
    ensures Decode(d, BinaryWire(m)) == Decoding(Header, d.messages + [m]) <==> |m.bytes| < 128
  {
    var n := |m.bytes|;
    var digits := Reversed(Marked(n));
    TopDigit(n);
    var rest := digits[1..] + m.bytes;
    assert BinaryWire(m) == [m.kind, digits[0]] + rest;
    ReadFrame(d, m.kind, digits[0], rest);
    hide Decode;
    if n < 128 {
      assert digits[0] == n && rest == m.bytes && rest[..n] == rest && rest[n..] == [];
      DecodeNothing(Decoding(Header, d.messages + [m]));
    } else {
      var first := Message(m.kind, rest[..digits[0]]);
      var d1 := Decoding(Header, d.messages + [first]);
      FinishedStay(d1, d1.messages, rest[digits[0]..]);
      assert Decode(d, BinaryWire(m)).messages[|d.messages|] == first;
      assert first != m;
    }
  }

  /** A text message comes back in UTF-8; an empty one is not delivered at all. */
  lemma TextRoundTrip(d: Decoding, kind: Byte, text: seq<Byte>)
    requires d.phase == Header && kind < 0x80
    ensures Decode(d, [kind] + Utf8Text(text) + [0xFF])
      == Decoding(Header, d.messages + if text == [] then [] else [Message(kind, Utf8Text(text))])
  {
    hide Deliver;
    var s := Utf8Text(text);
    DecodeOne(d, kind);
    DecodeConcat(d, [kind], s);
    TextRun(kind, true, d.messages, s);
    DecodeConcat(d, [kind] + s, [0xFF]);
    TextEnds(Decode(d, [kind] + s));
    if text != [] {
      DeliverStarts(d.messages, kind, s);
    } else {
      assert Deliver(d.messages, true, kind, s) == d.messages by { DeliverNothing(d.messages, kind); }
    }
  }

  lemma DeliverNothing(messages: seq<Message>, kind: Byte)
    ensures Deliver(messages, true, kind, []) == messages
  {
  }

  // The frame of a message, and what the other side makes of it.
  function Wire(m: Message): seq<Byte> {
    if m.kind >= 0x80 then BinaryWire(m) else [m.kind] + Utf8Text(m.bytes) + [0xFF]
  }

  function Received(m: Message): seq<Message> {
    if m.kind >= 0x80 then [m] else if m.bytes == [] then [] else [Message(m.kind, Utf8Text(m.bytes))]
  }

  function WireAll(ms: seq<Message>): seq<Byte> {
    if ms == [] then [] else WireAll(ms[..|ms| - 1]) + Wire(ms[|ms| - 1])
  }

  function ReceivedAll(ms: seq<Message>): seq<Message> {
    if ms == [] then [] else ReceivedAll(ms[..|ms| - 1]) + Received(ms[|ms| - 1])
  }

  /** A stream of any messages, none of them binary and long, arrives message by
      message. */
  lemma {:induction false} StreamRoundTrip(d: Decoding, ms: seq<Message>)
    requires d.phase == Header
    requires forall i :: 0 <= i < |ms| && ms[i].kind >= 0x80 ==> 0 < |ms[i].bytes| < 128
    ensures Decode(d, WireAll(ms)) == Decoding(Header, d.messages + ReceivedAll(ms))
    decreases |ms|
  {
    hide Decode, BinaryWire, Utf8Text;
    if ms == [] {
      DecodeNothing(d);
    } else {
      var before, m := ms[..|ms| - 1], ms[|ms| - 1];
      StreamRoundTrip(d, before);
      var d1 := Decode(d, WireAll(before));
      DecodeConcat(d, WireAll(before), Wire(m));
      if m.kind >= 0x80 {
        BinaryRoundTrip(d1, m);
      } else {
        TextRoundTrip(d1, m.kind, m.bytes);
      }
    }
  }
}
