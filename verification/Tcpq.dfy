/** The relay framing, and the two decoders of it. */
module Tcpq {
  import opened Bytes
  import opened Wire
  import opened Streams

  const PUBLISH: u32 := 1
  const SUBSCRIBE: u32 := 2
  const UNSUBSCRIBE: u32 := 3

  const CHANNEL_READ_MAX: nat := 1024

  /** The type of a frame, and the length of its first field. */
  const HEAD: nat := 8

  /** The largest frame a reader holds. */
  const FRAME_MAX: nat := 4 + 4 + CHANNEL_READ_MAX + 4 + MAX_MESSAGE_LEN

  datatype Request = Publish(frame: Frame) | Subscribe(pattern: str) | Unsubscribe(pattern: str)

  // ---- Writing -------------------------------------------------------------

  function LengthPrefixed(s: bytes): bytes {
    BigEndian(|s|, 4) + s
  }

  function EncodePattern(kind: u32, pattern: str): bytes {
    BigEndian(kind, 4) + LengthPrefixed(pattern)
  }

  function EncodePublish(frame: Frame): Result<bytes> {
    var _ :- CheckChannel(frame.channel, MAX_CHANNEL_LEN);
    if |frame.payload| > MAX_MESSAGE_LEN then Err(MessageTooLarge(|frame.payload|))
    else Ok(BigEndian(PUBLISH, 4) + LengthPrefixed(frame.channel) + LengthPrefixed(frame.payload))
  }

  /** The bytes of a request, where there are any. */
  function Encode(q: Request): Result<bytes> {
    match q
    case Publish(frame) => EncodePublish(frame)
    case Subscribe(pattern) => Ok(EncodePattern(SUBSCRIBE, pattern))
    case Unsubscribe(pattern) => Ok(EncodePattern(UNSUBSCRIBE, pattern))
  }

  // ---- Reading -------------------------------------------------------------

  /** The rest of a publish frame, behind a head whose name has `named` bytes. */
  function DecodeBody(data: bytes, named: nat): Result<Decoded<Frame>>
    requires |data| >= HEAD
  {
    var head := HEAD + named + 4;
    if |data| < head then Ok(Need(head))
    else
      var length := UintAt(data, HEAD + named, 4);
      if length > MAX_MESSAGE_LEN then Err(MessageTooLarge(length))
      else
        var frame := head + length;
        var channel := data[HEAD..HEAD + named];
        if |data| < frame then Ok(Need(frame))
        else if !IsUtf8(channel) then Ok(Skip(frame))
        else if CheckChannel(channel, MAX_CHANNEL_LEN).Err? then Ok(Skip(frame))
        else Ok(Item(Frame(channel, data[head..frame]), frame))
  }

  /** One frame, as a client reads it. */
  function Decode(data: bytes): Result<Decoded<Frame>> {
    if |data| < HEAD then Ok(Need(HEAD))
    else
      var kind, named := UintAt(data, 0, 4), UintAt(data, 4, 4);
      if kind != PUBLISH then Err(UnknownFrameType(kind))
      else if named > CHANNEL_READ_MAX then Err(ChannelTooLong(named))
      else DecodeBody(data, named)
  }

  function Published(r: Result<Decoded<Frame>>): Result<Decoded<Request>> {
    match r
    case Ok(Item(frame, n)) => Ok(Item(Publish(frame), n))
    case Ok(Need(n)) => Ok(Need(n))
    case Ok(Skip(n)) => Ok(Skip(n))
    case Err(e) => Err(e)
  }

  /** The front of what a client sent: a request, or why there is none yet. */
  function DecodeRequest(data: bytes): Result<Decoded<Request>> {
    if |data| < HEAD then Ok(Need(HEAD))
    else
      var kind, named := UintAt(data, 0, 4), UintAt(data, 4, 4);
      if kind != PUBLISH && kind != SUBSCRIBE && kind != UNSUBSCRIBE then Err(UnknownFrameType(kind))
      else if named > CHANNEL_READ_MAX then Err(ChannelTooLong(named))
      else if kind == PUBLISH then Published(DecodeBody(data, named))
      else
        var frame := HEAD + named;
        if |data| < frame then Ok(Need(frame))
        else
          var pattern := data[HEAD..frame];
          if !IsUtf8(pattern) then Ok(Skip(frame))
          else if kind == SUBSCRIBE then Ok(Item(Subscribe(pattern), frame))
          else Ok(Item(Unsubscribe(pattern), frame))
  }

  // ---- Bytes behind do not matter ------------------------------------------

  lemma UintStays(data: bytes, more: bytes, at: nat, n: nat)
    requires at + n <= |data|
    ensures UintAt(data + more, at, n) == UintAt(data, at, n)
  {
    assert (data + more)[at..at + n] == data[at..at + n];
  }

  ghost predicate StableBody(data: bytes, more: bytes, named: nat)
    requires |data| >= HEAD
  {
    var r := DecodeBody(data + more, named);
    match DecodeBody(data, named)
    case Err(e) => r == Err(e)
    case Ok(Item(x, n)) => 0 < n <= |data| && r == Ok(Item(x, n))
    case Ok(Skip(n)) => 0 < n <= |data| && r == Ok(Skip(n))
    case Ok(Need(n)) => |data| < n <= FRAME_MAX && (|data + more| < n ==> r == Ok(Need(n)))
  }

  lemma BodyIsStable(data: bytes, more: bytes, named: nat)
    requires |data| >= HEAD && named <= CHANNEL_READ_MAX
    ensures StableBody(data, more, named)
  {
    hide IsUtf8, CheckChannel, UintAt;
    var head := HEAD + named + 4;
    if |data| >= head {
      UintStays(data, more, HEAD + named, 4);
      assert (data + more)[HEAD..HEAD + named] == data[HEAD..HEAD + named];
      var length := UintAt(data, HEAD + named, 4);
      if head + length <= |data| {
        assert (data + more)[head..head + length] == data[head..head + length];
      }
    }
  }

  lemma DecodeIsStable()
    ensures Stable(Decode, FRAME_MAX)
  {
    forall data, more
      ensures StableAt(Decode, FRAME_MAX, data, more)
    {
      if |data| >= HEAD {
        hide IsUtf8, CheckChannel, UintAt, DecodeBody;
        UintStays(data, more, 0, 4);
        UintStays(data, more, 4, 4);
        if UintAt(data, 4, 4) <= CHANNEL_READ_MAX {
          BodyIsStable(data, more, UintAt(data, 4, 4));
        }
      }
    }
  }

  /** A subscription is all there, or more bytes do not say less. */
  lemma PatternIsStable(data: bytes, more: bytes)
    requires |data| >= HEAD && UintAt(data, 0, 4) != PUBLISH
    requires UintAt(data + more, 0, 4) == UintAt(data, 0, 4) && UintAt(data + more, 4, 4) == UintAt(data, 4, 4)
    ensures StableAt(DecodeRequest, FRAME_MAX, data, more)
  {
    hide IsUtf8, CheckChannel, UintAt, DecodeBody;
    var named := UintAt(data, 4, 4);
    if HEAD + named <= |data| {
      assert (data + more)[HEAD..HEAD + named] == data[HEAD..HEAD + named];
    }
  }

  lemma PublishIsStable(data: bytes, more: bytes)
    requires |data| >= HEAD && UintAt(data, 0, 4) == PUBLISH
    requires UintAt(data + more, 0, 4) == UintAt(data, 0, 4) && UintAt(data + more, 4, 4) == UintAt(data, 4, 4)
    ensures StableAt(DecodeRequest, FRAME_MAX, data, more)
  {
    hide IsUtf8, CheckChannel, UintAt, DecodeBody;
    if UintAt(data, 4, 4) <= CHANNEL_READ_MAX {
      BodyIsStable(data, more, UintAt(data, 4, 4));
    }
  }

  lemma LessIsStable(data: bytes, more: bytes)
    requires |data| < HEAD
    ensures StableAt(DecodeRequest, FRAME_MAX, data, more)
  {
  }

  lemma DecodeRequestIsStable()
    ensures Stable(DecodeRequest, FRAME_MAX)
  {
    hide DecodeRequest, UintAt;
    forall data, more
      ensures StableAt(DecodeRequest, FRAME_MAX, data, more)
    {
      if |data| >= HEAD {
        UintStays(data, more, 0, 4);
        UintStays(data, more, 4, 4);
        if UintAt(data, 0, 4) == PUBLISH {
          PublishIsStable(data, more);
        } else {
          PatternIsStable(data, more);
        }
      } else {
        LessIsStable(data, more);
      }
    }
  }

  // ---- There and back ------------------------------------------------------

  /** A text a relay reads, and a message a client may send. */
  predicate Fits(q: Request) {
    match q
    case Publish(frame) => EncodePublish(frame).Ok?
    case Subscribe(pattern) => |pattern| <= CHANNEL_READ_MAX
    case Unsubscribe(pattern) => |pattern| <= CHANNEL_READ_MAX
  }

  lemma HeadBack(kind: u32, named: bytes, behind: bytes)
    requires |named| < 0x1_0000_0000
    ensures var data := BigEndian(kind, 4) + LengthPrefixed(named) + behind;
      && UintAt(data, 0, 4) == kind && UintAt(data, 4, 4) == |named|
      && data[HEAD..HEAD + |named|] == named && data[HEAD + |named|..] == behind
  {
    hide BigEndian, FromBigEndian;
    Widths();
    var data := BigEndian(kind, 4) + LengthPrefixed(named) + behind;
    assert data[0..4] == BigEndian(kind, 4);
    assert data[4..8] == BigEndian(|named|, 4);
    BigEndianRoundTrip(kind, 4);
    BigEndianRoundTrip(|named|, 4);
  }

  lemma BodyBack(kind: u32, frame: Frame, more: bytes)
    requires EncodePublish(frame).Ok?
    ensures var front := BigEndian(kind, 4) + LengthPrefixed(frame.channel) + LengthPrefixed(frame.payload);
      DecodeBody(front + more, |frame.channel|) == Ok(Item(frame, |front|))
  {
    hide BigEndian, FromBigEndian, IsUtf8;
    var channel, payload := frame.channel, frame.payload;
    var front := BigEndian(kind, 4) + LengthPrefixed(channel) + LengthPrefixed(payload);
    var data := front + more;
    var head := HEAD + |channel| + 4;
    assert data[HEAD + |channel|..head] == BigEndian(|payload|, 4);
    Widths();
    BigEndianRoundTrip(|payload|, 4);
    assert data[HEAD..HEAD + |channel|] == channel;
    assert data[head..head + |payload|] == payload;
  }

  /** A message published is the message a client of a relay reads. */
  lemma PublishRoundTrip(frame: Frame, more: bytes)
    requires EncodePublish(frame).Ok?
    ensures Decode(EncodePublish(frame).value + more) == Ok(Item(frame, |EncodePublish(frame).value|))
    ensures DecodeRequest(EncodePublish(frame).value + more) == Ok(Item(Publish(frame), |EncodePublish(frame).value|))
  {
    hide BigEndian, FromBigEndian, IsUtf8, DecodeBody, UintAt;
    HeadBack(PUBLISH, frame.channel, LengthPrefixed(frame.payload) + more);
    assert BigEndian(PUBLISH, 4) + LengthPrefixed(frame.channel) + (LengthPrefixed(frame.payload) + more)
        == EncodePublish(frame).value + more;
    BodyBack(PUBLISH, frame, more);
  }

  /** The length field of a text of 4 GiB does not say its length. */
  lemma TooLongToCount(kind: u32, pattern: str, more: bytes)
    requires |pattern| >= 0x1_0000_0000
    ensures UintAt(EncodePattern(kind, pattern) + more, 4, 4) < |pattern|
  {
    hide IsUtf8;
    UintAtWidth(EncodePattern(kind, pattern) + more, 4, 4);
  }

  /** A subscription is read as it was written exactly where its text is one a
      relay reads; a longer one ends the stream, or is read as another. */
  lemma PatternRoundTrip(kind: u32, pattern: str, more: bytes)
    requires kind == SUBSCRIBE || kind == UNSUBSCRIBE
    ensures var data := EncodePattern(kind, pattern);
      var q := if kind == SUBSCRIBE then Subscribe(pattern) else Unsubscribe(pattern);
      DecodeRequest(data + more) == Ok(Item(q, |data|)) <==> |pattern| <= CHANNEL_READ_MAX
  {
    hide BigEndian, FromBigEndian, IsUtf8, DecodeBody, UintAt;
    var data := EncodePattern(kind, pattern);
    assert data + more == BigEndian(kind, 4) + LengthPrefixed(pattern) + more;
    if |pattern| < 0x1_0000_0000 {
      HeadBack(kind, pattern, more);
    } else {
      TooLongToCount(kind, pattern, more);
    }
  }

  lemma RequestRoundTrip(q: Request, more: bytes)
    requires Fits(q)
    ensures Encode(q).Ok? && DecodeRequest(Encode(q).value + more) == Ok(Item(q, |Encode(q).value|))
  {
    hide DecodeRequest, EncodePublish, EncodePattern;
    match q
    case Publish(frame) => PublishRoundTrip(frame, more);
    case Subscribe(pattern) => PatternRoundTrip(SUBSCRIBE, pattern, more);
    case Unsubscribe(pattern) => PatternRoundTrip(UNSUBSCRIBE, pattern, more);
  }

  /** A part of a request asks for no more than the rest of it. */
  lemma PartialRequest(q: Request, n: nat)
    requires Fits(q) && Encode(q).Ok? && n < |Encode(q).value|
    ensures var r := DecodeRequest(Encode(q).value[..n]);
      r.Ok? && r.value.Need? && n < r.value.needed <= |Encode(q).value|
  {
    hide DecodeRequest, Encode, Fits;
    var data := Encode(q).value;
    DecodeRequestIsStable();
    RequestRoundTrip(q, []);
    assert data + [] == data && data[..n] + data[n..] == data;
    assert StableAt(DecodeRequest, FRAME_MAX, data[..n], data[n..]);
  }

  // ---- A frame and its bytes -----------------------------------------------

  /** A name a client writes in a message. */
  predicate ShortName(name: bytes) {
    IsUtf8(name) && 1 <= |name| <= 63 && 0 !in name
  }

  /** A message frame, byte by byte, whatever stands for the name. */
  function MessageBytes(name: bytes, payload: bytes): bytes {
    [0, 0, 0, 1] + BigEndian(|name|, 4) + name + BigEndian(|payload|, 4) + payload
  }

  function PatternBytes(kind: byte, text: bytes): bytes {
    [0, 0, 0, kind] + BigEndian(|text|, 4) + text
  }

  lemma Kinds()
    ensures BigEndian(PUBLISH, 4) == [0, 0, 0, 1]
    ensures BigEndian(SUBSCRIBE, 4) == [0, 0, 0, 2] && BigEndian(UNSUBSCRIBE, 4) == [0, 0, 0, 3]
  {
    hide BigEndian;
    FourBytes(0, 0, 0, 1);
    FourBytes(0, 0, 0, 2);
    FourBytes(0, 0, 0, 3);
  }

  /** A message is written byte by byte, where its name is short and it has no
      more than 2^28 bytes. */
  lemma MessageWrittenExactly(frame: Frame)
    ensures EncodePublish(frame).Ok? <==> ShortName(frame.channel) && |frame.payload| <= 0x1000_0000
    ensures EncodePublish(frame).Ok? ==> EncodePublish(frame).value == MessageBytes(frame.channel, frame.payload)
  {
    hide BigEndian, IsUtf8;
    Kinds();
    if EncodePublish(frame).Ok? {
      var a, b := BigEndian(|frame.channel|, 4) + frame.channel, BigEndian(|frame.payload|, 4) + frame.payload;
      assert EncodePublish(frame).value == [0, 0, 0, 1] + a + b;
      assert MessageBytes(frame.channel, frame.payload) == [0, 0, 0, 1] + a + b;
    }
  }

  /** And any subscription, and the end of one. */
  lemma PatternWrittenExactly(pattern: str)
    ensures EncodePattern(SUBSCRIBE, pattern) == PatternBytes(2, pattern)
    ensures EncodePattern(UNSUBSCRIBE, pattern) == PatternBytes(3, pattern)
  {
    hide BigEndian, IsUtf8;
    Kinds();
  }

  lemma ReadIsBytes(data: bytes, at: nat)
    requires at + 4 <= |data|
    ensures BigEndian(UintAt(data, at, 4), 4) == data[at..at + 4]
  {
    BigEndianInverse(data[at..at + 4]);
  }

  /** The kind a head gives is one of the three exactly where it is written so. */
  lemma KindIsBytes(data: bytes)
    requires |data| >= HEAD
    ensures UintAt(data, 0, 4) == PUBLISH <==> data[..4] == [0, 0, 0, 1]
    ensures UintAt(data, 0, 4) == SUBSCRIBE <==> data[..4] == [0, 0, 0, 2]
    ensures UintAt(data, 0, 4) == UNSUBSCRIBE <==> data[..4] == [0, 0, 0, 3]
  {
    hide BigEndian, FromBigEndian;
    Widths();
    Kinds();
    ReadIsBytes(data, 0);
    assert data[0..4] == data[..4];
    BigEndianRoundTrip(PUBLISH, 4);
    BigEndianRoundTrip(SUBSCRIBE, 4);
    BigEndianRoundTrip(UNSUBSCRIBE, 4);
  }

  lemma Joins(data: bytes, a: nat, b: nat)
    requires a <= b <= |data|
    ensures data[..a] + data[a..b] == data[..b]
  {
  }

  lemma BodyPieces(data: bytes, named: nat, length: nat)
    requires 12 + named + length <= |data| && data[..4] == [0, 0, 0, 1]
    requires data[4..8] == BigEndian(named, 4) && data[8 + named..12 + named] == BigEndian(length, 4)
    ensures data[..12 + named + length]
         == MessageBytes(data[8..8 + named], data[12 + named..12 + named + length])
  {
    hide BigEndian;
    var name, payload := data[8..8 + named], data[12 + named..12 + named + length];
    Joins(data, 4, 8);
    Joins(data, 8, 8 + named);
    Joins(data, 8 + named, 12 + named);
    Joins(data, 12 + named, 12 + named + length);
  }

  lemma BodyIsItsBytes(data: bytes, named: nat)
    requires |data| >= HEAD && data[..4] == [0, 0, 0, 1] && named == UintAt(data, 4, 4)
    requires DecodeBody(data, named).Ok? && !DecodeBody(data, named).value.Need?
    ensures var n := match DecodeBody(data, named).value case Item(_, n) => n case Skip(n) => n case Need(n) => n;
      var head := HEAD + named + 4;
      && head <= n <= |data| && n - head <= 0x1000_0000
      && data[..n] == MessageBytes(data[HEAD..HEAD + named], data[head..n])
  {
    hide BigEndian, FromBigEndian, IsUtf8, CheckChannel, UintAt, MessageBytes;
    var length := UintAt(data, HEAD + named, 4);
    ReadIsBytes(data, 4);
    ReadIsBytes(data, HEAD + named);
    BodyPieces(data, named, length);
  }

  lemma BodyNames(data: bytes, named: nat, frame: Frame, n: nat)
    requires |data| >= HEAD && DecodeBody(data, named) == Ok(Item(frame, n))
    ensures ShortName(frame.channel) && HEAD + named + 4 <= n <= |data|
    ensures frame == Frame(data[HEAD..HEAD + named], data[HEAD + named + 4..n])
  {
    hide UintAt;
  }

  /** What is read as a message is that message, byte by byte, and nothing else. */
  lemma MessageExactly(data: bytes, frame: Frame, n: nat)
    ensures Decode(data) == Ok(Item(frame, n)) <==>
      && ShortName(frame.channel) && |frame.payload| <= 0x1000_0000
      && n <= |data| && data[..n] == MessageBytes(frame.channel, frame.payload)
  {
    hide BigEndian, FromBigEndian, IsUtf8, UintAt, DecodeBody, EncodePublish, MessageBytes;
    MessageWrittenExactly(frame);
    if Decode(data) == Ok(Item(frame, n)) {
      KindIsBytes(data);
      BodyIsItsBytes(data, UintAt(data, 4, 4));
      BodyNames(data, UintAt(data, 4, 4), frame, n);
    }
    if EncodePublish(frame).Ok? && n <= |data| && data[..n] == MessageBytes(frame.channel, frame.payload) {
      assert data == data[..n] + data[n..];
      PublishRoundTrip(frame, data[n..]);
    }
  }

  /** A message frame under a name no client writes. */
  ghost predicate BadlyNamed(data: bytes, name: bytes, payload: bytes) {
    && |name| <= 1024 && !ShortName(name) && |payload| <= 0x1000_0000
    && data == MessageBytes(name, payload)
  }

  lemma BodyIsBadlyNamed(data: bytes, named: nat, n: nat)
    requires |data| >= HEAD && DecodeBody(data, named) == Ok(Skip(n))
    ensures HEAD + named + 4 <= n <= |data| && !ShortName(data[HEAD..HEAD + named])
  {
    hide UintAt;
  }

  lemma BadBody(name: bytes, payload: bytes, more: bytes)
    requires |name| <= 1024 && !ShortName(name) && |payload| <= 0x1000_0000
    ensures var front := MessageBytes(name, payload);
      DecodeBody(front + more, |name|) == Ok(Skip(|front|))
  {
    hide BigEndian, FromBigEndian, IsUtf8;
    var data := MessageBytes(name, payload) + more;
    var head := HEAD + |name| + 4;
    assert data[HEAD + |name|..head] == BigEndian(|payload|, 4);
    Widths();
    BigEndianRoundTrip(|payload|, 4);
    assert data[HEAD..HEAD + |name|] == name;
  }

  lemma BadlyNamedIsSkipped(name: bytes, payload: bytes, more: bytes)
    requires |name| <= 1024 && !ShortName(name) && |payload| <= 0x1000_0000
    ensures var front := MessageBytes(name, payload);
      Decode(front + more) == Ok(Skip(|front|)) && DecodeRequest(front + more) == Ok(Skip(|front|))
  {
    hide BigEndian, FromBigEndian, IsUtf8, DecodeBody, UintAt;
    Kinds();
    var front := MessageBytes(name, payload);
    assert front + more == BigEndian(PUBLISH, 4) + LengthPrefixed(name) + (LengthPrefixed(payload) + more);
    HeadBack(PUBLISH, name, LengthPrefixed(payload) + more);
    BadBody(name, payload, more);
  }

  /** A frame that is stepped over is a message frame, with a name no client
      writes, or one that is no text: it costs itself and nothing behind it. */
  lemma SkippedExactly(data: bytes, n: nat)
    ensures Decode(data) == Ok(Skip(n)) <==> n <= |data| && exists name, payload :: BadlyNamed(data[..n], name, payload)
  {
    hide BigEndian, FromBigEndian, IsUtf8, UintAt, DecodeBody, MessageBytes;
    if Decode(data) == Ok(Skip(n)) {
      KindIsBytes(data);
      var named := UintAt(data, 4, 4);
      BodyIsItsBytes(data, named);
      BodyIsBadlyNamed(data, named, n);
      assert BadlyNamed(data[..n], data[HEAD..HEAD + named], data[HEAD + named + 4..n]);
    }
    if n <= |data| && exists name, payload :: BadlyNamed(data[..n], name, payload) {
      var name, payload :| BadlyNamed(data[..n], name, payload);
      assert data == data[..n] + data[n..];
      BadlyNamedIsSkipped(name, payload, data[n..]);
    }
  }

  /** The bytes of a request that a relay reads. */
  ghost predicate IsRequest(data: bytes, q: Request) {
    match q
    case Publish(frame) =>
      ShortName(frame.channel) && |frame.payload| <= 0x1000_0000 && data == MessageBytes(frame.channel, frame.payload)
    case Subscribe(pattern) => |pattern| <= 1024 && data == PatternBytes(2, pattern)
    case Unsubscribe(pattern) => |pattern| <= 1024 && data == PatternBytes(3, pattern)
  }

  /** A relay reads a message as a client does. */
  lemma MessageIsRequest(data: bytes)
    requires |data| >= HEAD && data[..4] == [0, 0, 0, 1]
    ensures DecodeRequest(data) == Published(Decode(data))
  {
    hide BigEndian, FromBigEndian, IsUtf8, UintAt, DecodeBody;
    KindIsBytes(data);
  }

  lemma MessageHead(data: bytes, n: nat, name: bytes, payload: bytes)
    requires n <= |data| && data[..n] == MessageBytes(name, payload)
    ensures |data| >= HEAD && data[..4] == [0, 0, 0, 1]
  {
    hide BigEndian;
    assert data[..4] == data[..n][..4];
  }

  lemma PublishExactly(data: bytes, frame: Frame, n: nat)
    ensures DecodeRequest(data) == Ok(Item(Publish(frame), n)) <==> n <= |data| && IsRequest(data[..n], Publish(frame))
  {
    hide BigEndian, FromBigEndian, IsUtf8, UintAt, DecodeBody, Decode, MessageBytes;
    MessageExactly(data, frame, n);
    if DecodeRequest(data) == Ok(Item(Publish(frame), n)) {
      KindIsBytes(data);
      MessageIsRequest(data);
    }
    if n <= |data| && IsRequest(data[..n], Publish(frame)) {
      MessageHead(data, n, frame.channel, frame.payload);
      MessageIsRequest(data);
    }
  }

  /** The number that says which of the two. */
  function KindOf(q: Request): byte
    requires !q.Publish?
  {
    if q.Subscribe? then 2 else 3
  }

  lemma PatternIsItsBytes(data: bytes, q: Request, n: nat)
    requires !q.Publish? && DecodeRequest(data) == Ok(Item(q, n))
    ensures n <= |data| && |q.pattern| <= 1024 && data[..n] == PatternBytes(KindOf(q), q.pattern)
  {
    hide BigEndian, FromBigEndian, IsUtf8, UintAt, DecodeBody;
    KindIsBytes(data);
    ReadIsBytes(data, 4);
    assert data[..n] == data[..4] + data[4..8] + data[HEAD..n];
  }

  lemma PatternIsRead(q: Request, more: bytes)
    requires !q.Publish? && |q.pattern| <= 1024
    ensures var front := PatternBytes(KindOf(q), q.pattern);
      DecodeRequest(front + more) == Ok(Item(q, |front|))
  {
    hide BigEndian, IsUtf8, DecodeRequest, EncodePublish;
    PatternWrittenExactly(q.pattern);
    RequestRoundTrip(q, more);
  }

  /** What is read as a request is that request, byte by byte, with a text of up
      to 1024 bytes, and nothing else is. */
  lemma RequestExactly(data: bytes, q: Request, n: nat)
    ensures DecodeRequest(data) == Ok(Item(q, n)) <==> n <= |data| && IsRequest(data[..n], q)
  {
    hide BigEndian, IsUtf8, DecodeRequest, PatternBytes, MessageBytes, ShortName;
    if q.Publish? {
      PublishExactly(data, q.frame, n);
    } else {
      if DecodeRequest(data) == Ok(Item(q, n)) {
        PatternIsItsBytes(data, q, n);
      }
      if n <= |data| && IsRequest(data[..n], q) {
        assert data == data[..n] + data[n..];
        PatternIsRead(q, data[n..]);
      }
    }
  }

  /** A client gives up on a stream for a head that is no message's, a name above
      1024 bytes or a message above 2^28, as soon as it sees one. */
  lemma RefusedExactly(data: bytes)
    ensures var named := if |data| >= 8 then UintAt(data, 4, 4) else 0;
      Decode(data).Err? <==>
        && |data| >= 8
        && (data[..4] != [0, 0, 0, 1] || named > 1024
            || (|data| >= 12 + named && UintAt(data, 8 + named, 4) > 0x1000_0000))
  {
    hide BigEndian, FromBigEndian, IsUtf8, UintAt, CheckChannel;
    if |data| >= HEAD {
      KindIsBytes(data);
    }
  }

  /** A relay gives up on one for a head that is no request's, and for the same
      lengths. */
  lemma RequestRefusedExactly(data: bytes)
    ensures var named := if |data| >= 8 then UintAt(data, 4, 4) else 0;
      DecodeRequest(data).Err? <==>
        && |data| >= 8
        && (data[..4] !in {[0, 0, 0, 1], [0, 0, 0, 2], [0, 0, 0, 3]} || named > 1024
            || (data[..4] == [0, 0, 0, 1] && |data| >= 12 + named && UintAt(data, 8 + named, 4) > 0x1000_0000))
  {
    hide BigEndian, FromBigEndian, IsUtf8, UintAt, CheckChannel;
    if |data| >= HEAD {
      KindIsBytes(data);
    }
  }

  /** A subscription or an end of one, whose text is not UTF-8. */
  ghost predicate NoText(data: bytes) {
    && 8 <= |data| <= 1032 && (data[..4] == [0, 0, 0, 2] || data[..4] == [0, 0, 0, 3])
    && data[4..8] == BigEndian(|data| - 8, 4) && !IsUtf8(data[8..])
  }

  lemma NoTextIsNoMessage(data: bytes, n: nat)
    requires |data| >= HEAD && data[..4] == [0, 0, 0, 1] && n <= |data|
    ensures !NoText(data[..n])
  {
    hide IsUtf8, BigEndian;
    if n >= 8 {
      assert data[..n][..4] == data[..4];
      assert data[..4][3] == 1;
    }
  }

  lemma ReadIs(data: bytes, at: nat, v: nat)
    requires at + 4 <= |data| && v < 0x1_0000_0000 && data[at..at + 4] == BigEndian(v, 4)
    ensures UintAt(data, at, 4) == v
  {
    Widths();
    BigEndianRoundTrip(v, 4);
  }

  lemma PatternSkippedExactly(data: bytes, n: nat)
    requires !(|data| >= HEAD && data[..4] == [0, 0, 0, 1])
    ensures DecodeRequest(data) == Ok(Skip(n)) <==> n <= |data| && NoText(data[..n])
  {
    hide BigEndian, FromBigEndian, IsUtf8, UintAt, DecodeBody;
    if |data| >= HEAD {
      KindIsBytes(data);
      ReadIsBytes(data, 4);
      var named := UintAt(data, 4, 4);
      if 8 <= n <= |data| {
        assert data[..n][..4] == data[..4] && data[..n][4..8] == data[4..8] && data[..n][8..] == data[8..n];
        if data[4..8] == BigEndian(n - 8, 4) && n <= 1032 {
          Widths();
          BigEndianRoundTrip(n - 8, 4);
          ReadIs(data, 4, n - 8);
        }
      }
    }
  }

  /** A relay steps over a message under a name no client writes, and over a
      subscription that is no text. */
  lemma RequestSkippedExactly(data: bytes, n: nat)
    ensures DecodeRequest(data) == Ok(Skip(n)) <==>
      n <= |data| && ((exists name, payload :: BadlyNamed(data[..n], name, payload)) || NoText(data[..n]))
  {
    hide BigEndian, FromBigEndian, IsUtf8, UintAt, DecodeBody, MessageBytes, Decode, DecodeRequest, NoText;
    SkippedExactly(data, n);
    if |data| >= HEAD && data[..4] == [0, 0, 0, 1] {
      MessageIsRequest(data);
      if n <= |data| {
        NoTextIsNoMessage(data, n);
      }
    } else {
      PatternSkippedExactly(data, n);
      if n <= |data| && exists name, payload :: BadlyNamed(data[..n], name, payload) {
        var name, payload :| BadlyNamed(data[..n], name, payload);
        MessageHead(data, n, name, payload);
      }
    }
  }

  // ---- A stream as a client reads it ---------------------------------------

  /** A message on a stream, under whatever stands for its name. */
  datatype Sent = Sent(name: bytes, payload: bytes)

  predicate Framed(sent: seq<Sent>) {
    forall i :: 0 <= i < |sent| ==> |sent[i].name| <= 1024 && |sent[i].payload| <= 0x1000_0000
  }

  function StreamOf(sent: seq<Sent>): bytes {
    if sent == [] then [] else MessageBytes(sent[0].name, sent[0].payload) + StreamOf(sent[1..])
  }

  /** What a client makes of each: the message, or nothing. */
  function FoundIn(sent: seq<Sent>): seq<Found<Frame>> {
    if sent == [] then []
    else
      [if ShortName(sent[0].name) then Whole(Frame(sent[0].name, sent[0].payload)) else Skipped] + FoundIn(sent[1..])
  }

  lemma MessageIsLong(name: bytes, payload: bytes)
    ensures |MessageBytes(name, payload)| >= HEAD
  {
  }

  lemma NameIsText(name: bytes)
    requires ShortName(name)
    ensures IsUtf8(name)
  {
  }

  lemma ParseSent(one: Sent, more: bytes)
    requires |one.name| <= 1024 && |one.payload| <= 0x1000_0000
    ensures Parse(Decode, MessageBytes(one.name, one.payload) + more)
         == Behind([if ShortName(one.name) then Whole(Frame(one.name, one.payload)) else Skipped], Parse(Decode, more))
  {
    hide Decode, MessageBytes, ShortName;
    var front := MessageBytes(one.name, one.payload);
    assert (front + more)[..|front|] == front && (front + more)[|front|..] == more;
    MessageIsLong(one.name, one.payload);
    if ShortName(one.name) {
      NameIsText(one.name);
      MessageExactly(front + more, Frame(one.name, one.payload), |front|);
    } else {
      BadlyNamedIsSkipped(one.name, one.payload, more);
    }
  }

  /** Every message of a stream under a name a client takes is found, and every
      other is stepped over alone, whatever comes behind. */
  lemma {:induction false} ClientReadsWhatWasSent(sent: seq<Sent>, tail: bytes)
    requires Framed(sent)
    ensures Parse(Decode, StreamOf(sent) + tail) == Behind(FoundIn(sent), Parse(Decode, tail))
    decreases |sent|
  {
    hide Parse, Decode, MessageBytes, ShortName;
    if sent == [] {
      assert StreamOf(sent) + tail == tail;
      assert [] + Parse(Decode, tail).found == Parse(Decode, tail).found;
    } else {
      var rest := StreamOf(sent[1..]) + tail;
      assert StreamOf(sent) + tail == MessageBytes(sent[0].name, sent[0].payload) + rest;
      ParseSent(sent[0], rest);
      ClientReadsWhatWasSent(sent[1..], tail);
      BehindBehind(FoundIn(sent)[..1], FoundIn(sent[1..]), Parse(Decode, tail));
      assert FoundIn(sent) == FoundIn(sent)[..1] + FoundIn(sent[1..]);
    }
  }

  // ---- Whole frames on a stream --------------------------------------------

  function EncodeAll(qs: seq<Request>): bytes
    requires forall i :: 0 <= i < |qs| ==> Encode(qs[i]).Ok?
  {
    if qs == [] then [] else EncodeAll(qs[..|qs| - 1]) + Encode(qs[|qs| - 1]).value
  }

  function Wholes(qs: seq<Request>): (found: seq<Found<Request>>)
    ensures |found| == |qs|
  {
    seq(|qs|, i requires 0 <= i < |qs| => Whole(qs[i]))
  }

  /** Nothing, or the front of one more request. */
  ghost predicate IsFront(tail: bytes) {
    tail == [] || exists q :: Fits(q) && Encode(q).Ok? && tail < Encode(q).value
  }

  lemma NothingIsNeed()
    ensures DecodeRequest([]) == Ok(Need(HEAD))
  {
  }

  lemma TailIsMore(tail: bytes)
    requires IsFront(tail)
    ensures Parse(DecodeRequest, tail) == Parsed([], More(tail))
  {
    hide DecodeRequest, Encode, Fits;
    if tail == [] {
      NothingIsNeed();
    } else {
      var q :| Fits(q) && Encode(q).Ok? && tail < Encode(q).value;
      PartialRequest(q, |tail|);
      assert tail == Encode(q).value[..|tail|];
    }
  }

  lemma EncodeIsSome(q: Request)
    requires Encode(q).Ok?
    ensures |Encode(q).value| >= HEAD
  {
  }

  lemma ParseOne(q: Request, tail: bytes)
    requires Fits(q) && Encode(q).Ok?
    ensures Parse(DecodeRequest, Encode(q).value + tail) == Behind([Whole(q)], Parse(DecodeRequest, tail))
  {
    hide DecodeRequest, Fits, Encode;
    RequestRoundTrip(q, tail);
    EncodeIsSome(q);
    assert (Encode(q).value + tail)[|Encode(q).value|..] == tail;
  }

  lemma {:induction false} ParseAll(qs: seq<Request>, tail: bytes)
    requires forall i :: 0 <= i < |qs| ==> Fits(qs[i]) && Encode(qs[i]).Ok?
    ensures Parse(DecodeRequest, EncodeAll(qs) + tail) == Behind(Wholes(qs), Parse(DecodeRequest, tail))
  {
    hide DecodeRequest, Fits, Encode, Parse;
    if qs == [] {
      assert EncodeAll(qs) + tail == tail;
    } else {
      var front, last := qs[..|qs| - 1], qs[|qs| - 1];
      var rest := Encode(last).value + tail;
      ParseAll(front, rest);
      assert EncodeAll(qs) + tail == EncodeAll(front) + rest;
      ParseOne(last, tail);
      BehindBehind(Wholes(front), [Whole(last)], Parse(DecodeRequest, tail));
      assert Wholes(qs) == Wholes(front) + [Whole(last)];
    }
  }
  // ---- The lines a relay reads to their end --------------------------------

  /** Whole requests, and the front of one more: the relay reads exactly those
      requests, and asks for the rest. */
  lemma {:induction false} RelayReadsWhatWasWritten(qs: seq<Request>, tail: bytes)
    requires forall i :: 0 <= i < |qs| ==> Fits(qs[i]) && Encode(qs[i]).Ok?
    requires IsFront(tail)
    ensures Parse(DecodeRequest, EncodeAll(qs) + tail) == Parsed(Wholes(qs), More(tail))
  {
    hide DecodeRequest, Fits, Encode, Parse;
    ParseAll(qs, tail);
    TailIsMore(tail);
    assert Wholes(qs) + [] == Wholes(qs);
  }

  /** A request a client writes, of a length its field can hold. */
  predicate Sendable(q: Request) {
    Encode(q).Ok? && (q.Publish? || |q.pattern| < 0x1_0000_0000)
  }

  ghost predicate AllSendable(qs: seq<Request>) {
    forall i :: 0 <= i < |qs| ==> Sendable(qs[i]) && Encode(qs[i]).Ok?
  }

  ghost predicate AllFit(qs: seq<Request>) {
    forall i :: 0 <= i < |qs| ==> Fits(qs[i])
  }

  /** A text that is too long ends the stream, whatever comes behind it. */
  lemma LongTextIsRefused(q: Request, more: bytes)
    requires Sendable(q) && !Fits(q)
    ensures !q.Publish? && Encode(q).Ok?
    ensures DecodeRequest(Encode(q).value + more) == Err(ChannelTooLong(|q.pattern|))
  {
    hide BigEndian, FromBigEndian, IsUtf8, DecodeBody, UintAt, EncodePublish;
    HeadBack(if q.Subscribe? then SUBSCRIBE else UNSUBSCRIBE, q.pattern, more);
  }

  lemma {:induction false} EncodeAllAppend(a: seq<Request>, b: seq<Request>)
    requires forall i :: 0 <= i < |a| ==> Encode(a[i]).Ok?
    requires forall i :: 0 <= i < |b| ==> Encode(b[i]).Ok?
    ensures EncodeAll(a + b) == EncodeAll(a) + EncodeAll(b)
  {
    hide Encode;
    if b == [] {
      assert a + b == a;
    } else {
      var n := |b| - 1;
      EncodeAllAppend(a, b[..n]);
      assert (a + b)[..|a + b| - 1] == a + b[..n];
    }
  }

  lemma {:induction false} FirstLong(qs: seq<Request>) returns (k: nat)
    requires !AllFit(qs)
    ensures k < |qs| && AllFit(qs[..k]) && !Fits(qs[k])
  {
    hide Fits;
    var n := |qs| - 1;
    if AllFit(qs[..n]) {
      k := n;
    } else {
      k := FirstLong(qs[..n]);
      assert qs[..n][..k] == qs[..k];
    }
  }

  lemma EncodeAllOne(q: Request)
    requires Encode(q).Ok?
    ensures EncodeAll([q]) == Encode(q).value
  {
    hide Encode;
    assert EncodeAll([]) == [];
  }

  lemma LongTextEndsTheParse(qs: seq<Request>, k: nat, tail: bytes)
    requires AllSendable(qs) && k < |qs| && AllFit(qs[..k]) && !Fits(qs[k])
    ensures !qs[k].Publish?
    ensures Parse(DecodeRequest, EncodeAll(qs) + tail) == Parsed(Wholes(qs[..k]), Bad(ChannelTooLong(|qs[k].pattern|)))
  {
    hide DecodeRequest, Fits, Encode, EncodeAll, Sendable;
    assert Sendable(qs[k]);
    var one, behind := Encode(qs[k]).value, EncodeAll(qs[k + 1..]) + tail;
    LongTextIsRefused(qs[k], behind);
    assert qs == qs[..k] + ([qs[k]] + qs[k + 1..]);
    EncodeAllAppend(qs[..k], [qs[k]] + qs[k + 1..]);
    EncodeAllAppend([qs[k]], qs[k + 1..]);
    EncodeAllOne(qs[k]);
    assert EncodeAll(qs) + tail == EncodeAll(qs[..k]) + (one + behind);
    ParseAll(qs[..k], one + behind);
    assert Wholes(qs[..k]) + [] == Wholes(qs[..k]);
  }

  /** A relay reads the requests a client wrote to their end if and only if no
      text among them is too long. Where one is, wherever it stands, the relay
      has the requests in front of the first of those, and its stream ends. */
  lemma RelayReadsToTheEnd(qs: seq<Request>, tail: bytes) returns (k: nat)
    requires AllSendable(qs) && IsFront(tail)
    ensures Parse(DecodeRequest, EncodeAll(qs) + tail).end.More? <==> AllFit(qs)
    ensures AllFit(qs) ==> Parse(DecodeRequest, EncodeAll(qs) + tail) == Parsed(Wholes(qs), More(tail))
    ensures !AllFit(qs) ==>
      && k < |qs| && AllFit(qs[..k]) && !qs[k].Publish? && |qs[k].pattern| > CHANNEL_READ_MAX
      && Parse(DecodeRequest, EncodeAll(qs) + tail) == Parsed(Wholes(qs[..k]), Bad(ChannelTooLong(|qs[k].pattern|)))
  {
    hide DecodeRequest, Encode, EncodeAll, Parse, IsFront;
    k := 0;
    if AllFit(qs) {
      RelayReadsWhatWasWritten(qs, tail);
    } else {
      k := FirstLong(qs);
      LongTextEndsTheParse(qs, k, tail);
    }
  }
}
