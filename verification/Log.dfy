/** The format of a log: how one event is written and read, and what a reader
    does with bytes it cannot read. */
module Log {
  import opened Bytes
  import opened Wire

  const MAGIC: u32 := 0xeda1_da01
  /** The sync word, the number, the time, and the two lengths. */
  const HEADER_LEN: nat := 28
  const CHANNEL_MAX: nat := 999
  /** The largest event a reader holds. */
  const EVENT_MAX: nat := HEADER_LEN + CHANNEL_MAX + MAX_MESSAGE_LEN

  datatype Event = Event(number: i64, timestamp: i64, frame: Frame)

  function Sync(): (s: bytes)
    ensures |s| == 4
  {
    BigEndian(MAGIC, 4)
  }

  predicate Writable(frame: Frame) {
    CheckChannel(frame.channel, CHANNEL_MAX).Ok? && |frame.payload| <= MAX_MESSAGE_LEN
  }

  function Encode(event: Event): (r: Result<bytes>)
    ensures r.Ok? <==> Writable(event.frame)
    ensures r.Ok? ==> |r.value| == HEADER_LEN + |event.frame.channel| + |event.frame.payload|
  {
    var _ :- CheckChannel(event.frame.channel, CHANNEL_MAX);
    var channel, payload := event.frame.channel, event.frame.payload;
    if |payload| > MAX_MESSAGE_LEN then Err(MessageTooLarge(|payload|))
    else
      Ok(Sync() + FromI64(event.number) + FromI64(event.timestamp)
         + BigEndian(|channel|, 4) + BigEndian(|payload|, 4) + channel + payload)
  }

  /** Reads the front of `data` as an event. It has to be followed by a sync word,
      unless fewer than four bytes are left to hold one. */
  function Decode(data: bytes): Result<Decoded<Event>> {
    if |data| < HEADER_LEN then Ok(Need(HEADER_LEN))
    else
      var magic := UintAt(data, 0, 4);
      if magic != MAGIC then Err(BadMagic(magic))
      else
        var number, timestamp := ToI64(data[4..12]), ToI64(data[12..20]);
        var named, length := UintAt(data, 20, 4), UintAt(data, 24, 4);
        if named == 0 then Err(BadChannel)
        else if named > CHANNEL_MAX then Err(ChannelTooLong(named))
        else if length > MAX_MESSAGE_LEN then Err(MessageTooLarge(length))
        else
          var event := HEADER_LEN + named + length;
          if |data| < event then Ok(Need(event))
          else if |data| - event >= 4 && data[event..event + 4] != Sync() then Err(BadMagic(UintAt(data, event, 4)))
          else
            var channel := data[HEADER_LEN..HEADER_LEN + named];
            if !IsUtf8(channel) then Ok(Skip(event))
            else if CheckChannel(channel, CHANNEL_MAX).Err? then Ok(Skip(event))
            else Ok(Item(Event(number, timestamp, Frame(channel, data[HEADER_LEN + named..event])), event))
  }

  /** A head alone: when its event was, and how long it is in all. */
  datatype Peeked = Peeked(timestamp: i64, len: nat)

  function Peek(data: bytes): Result<Option<Peeked>> {
    if |data| < HEADER_LEN then Ok(None)
    else
      var magic := UintAt(data, 0, 4);
      if magic != MAGIC then Err(BadMagic(magic))
      else
        var timestamp := ToI64(data[12..20]);
        var named, length := UintAt(data, 20, 4), UintAt(data, 24, 4);
        if named == 0 then Err(BadChannel)
        else if named > CHANNEL_MAX then Err(ChannelTooLong(named))
        else if length > MAX_MESSAGE_LEN then Err(MessageTooLarge(length))
        else Ok(Some(Peeked(timestamp, HEADER_LEN + named + length)))
  }

  predicate SyncAt(data: bytes, i: nat) {
    i + 4 <= |data| && data[i..i + 4] == Sync()
  }

  lemma SyncAtRest(data: bytes, i: nat)
    requires data != [] && i > 0
    ensures SyncAt(data, i) <==> SyncAt(data[1..], i - 1)
  {
    if i + 4 <= |data| {
      assert data[i..i + 4] == data[1..][i - 1..i + 3];
    }
  }

  /** The place of the first sync word. */
  function Resync(data: bytes): Option<nat> {
    if |data| < 4 then None
    else if data[..4] == Sync() then Some(0)
    else
      match Resync(data[1..])
      case None => None
      case Some(n) => Some(n + 1)
  }

  lemma {:induction false} ResyncIsFirst(data: bytes)
    ensures Resync(data).Some? ==> SyncAt(data, Resync(data).value)
    ensures forall i: nat :: SyncAt(data, i) ==> Resync(data).Some? && Resync(data).value <= i
  {
    if |data| >= 4 && data[..4] != Sync() {
      ResyncIsFirst(data[1..]);
      forall i: nat | SyncAt(data, i)
        ensures Resync(data).Some? && Resync(data).value <= i
      {
        assert i > 0 by { assert data[0..4] == data[..4]; }
        SyncAtRest(data, i);
      }
      if Resync(data).Some? {
        SyncAtRest(data, Resync(data).value);
      }
    }
  }

  /** How far a reader moves on from bytes that are no event: up to a sync word
      behind the first byte, or up to the last three, which may begin one. */
  function Slide(data: bytes): (n: nat)
    ensures n <= |data|
    ensures |data| > 3 ==> n > 0
  {
    if data == [] then 0
    else
      match Resync(data[1..])
      case Some(n) => ResyncIsFirst(data[1..]); 1 + n
      case None => if |data| > 3 then |data| - 3 else 0
  }

  /** A slide does not pass over the start of a sync word, though `data` holds
      no more than the first byte of it. */
  lemma SlideStopsAtSync(data: bytes, more: bytes, p: nat)
    requires 1 <= p < |data| && SyncAt(data + more, p)
    ensures Slide(data) <= p
  {
    ResyncIsFirst(data[1..]);
    if p + 4 <= |data| {
      assert data[p..p + 4] == (data + more)[p..p + 4];
      SyncAtRest(data, p);
    }
  }

  // ---- There and back ------------------------------------------------------

  lemma IsSync(data: bytes, at: nat)
    requires at + 4 <= |data|
    ensures UintAt(data, at, 4) == MAGIC <==> data[at..at + 4] == Sync()
  {
    Widths();
    BigEndianRoundTrip(MAGIC, 4);
    BigEndianInverse(data[at..at + 4]);
  }

  lemma NameFits(frame: Frame)
    requires Writable(frame)
    ensures 0 < |frame.channel| <= CHANNEL_MAX
  {
  }

  lemma HeadBack(event: Event, more: bytes)
    requires Writable(event.frame)
    ensures var data := Encode(event).value + more;
      && UintAt(data, 0, 4) == MAGIC && ToI64(data[4..12]) == event.number && ToI64(data[12..20]) == event.timestamp
      && UintAt(data, 20, 4) == |event.frame.channel| && UintAt(data, 24, 4) == |event.frame.payload|
  {
    hide BigEndian, FromBigEndian, FromI64, ToI64, IsUtf8, CheckChannel;
    var data := Encode(event).value + more;
    var channel, payload := event.frame.channel, event.frame.payload;
    assert data[0..4] == Sync();
    IsSync(data, 0);
    assert data[4..12] == FromI64(event.number) && data[12..20] == FromI64(event.timestamp);
    I64RoundTrip(event.number);
    I64RoundTrip(event.timestamp);
    assert data[20..24] == BigEndian(|channel|, 4) && data[24..28] == BigEndian(|payload|, 4);
    NameFits(event.frame);
    Widths();
    BigEndianRoundTrip(|channel|, 4);
    BigEndianRoundTrip(|payload|, 4);
  }

  lemma BodyBack(event: Event, more: bytes)
    requires Writable(event.frame)
    ensures var data := Encode(event).value + more;
      var named := HEADER_LEN + |event.frame.channel|;
      && data[HEADER_LEN..named] == event.frame.channel
      && data[named..|Encode(event).value|] == event.frame.payload
      && data[|Encode(event).value|..] == more
  {
    hide BigEndian, FromI64, IsUtf8, CheckChannel;
  }

  /** What may stand behind an event: fewer than four bytes, or a sync word. */
  predicate Follows(behind: bytes) {
    |behind| >= 4 ==> behind[..4] == Sync()
  }

  lemma EncodedIsNamed(frame: Frame)
    requires Writable(frame)
    ensures CheckChannel(frame.channel, CHANNEL_MAX).Ok?
  {
  }

  /** An event that is there whole comes back as it was exactly where what is
      behind it can stand behind one, whatever bytes its payload holds. */
  lemma EventRoundTrip(event: Event, more: bytes)
    requires Writable(event.frame)
    ensures Decode(Encode(event).value + more) == Ok(Item(event, |Encode(event).value|)) <==> Follows(more)
    ensures !Follows(more) ==> Decode(Encode(event).value + more).Err?
  {
    hide BigEndian, FromBigEndian, FromI64, ToI64, IsUtf8, CheckChannel, Encode, UintAt;
    HeadBack(event, more);
    BodyBack(event, more);
    NameFits(event.frame);
    EncodedIsNamed(event.frame);
    var data, n := Encode(event).value + more, |Encode(event).value|;
    if |more| >= 4 {
      assert data[n..n + 4] == data[n..][..4] == more[..4];
    }
  }

  lemma HeadOfPart(data: bytes, n: nat)
    requires HEADER_LEN <= n <= |data|
    ensures UintAt(data[..n], 0, 4) == UintAt(data, 0, 4)
    ensures UintAt(data[..n], 20, 4) == UintAt(data, 20, 4) && UintAt(data[..n], 24, 4) == UintAt(data, 24, 4)
    ensures data[..n][12..20] == data[12..20]
  {
    assert data[..n][12..20] == data[12..20];
    assert data[..n][0..4] == data[0..4] && data[..n][20..24] == data[20..24] && data[..n][24..28] == data[24..28];
  }

  /** A part of an event asks for no more than the rest of it. */
  lemma PartOfEvent(event: Event, n: nat)
    requires Writable(event.frame) && n < |Encode(event).value|
    ensures var r := Decode(Encode(event).value[..n]);
      r.Ok? && r.value.Need? && n < r.value.needed <= |Encode(event).value|
  {
    hide BigEndian, FromBigEndian, FromI64, ToI64, IsUtf8, CheckChannel, Encode, UintAt;
    if n >= HEADER_LEN {
      HeadBack(event, []);
      var data, part := Encode(event).value, Encode(event).value[..n];
      assert data + [] == data;
      HeadOfPart(data, n);
      NameFits(event.frame);
    }
  }

  lemma HeadIsItsBytes(data: bytes)
    requires |data| >= HEADER_LEN
    ensures FromI64(ToI64(data[4..12])) == data[4..12] && FromI64(ToI64(data[12..20])) == data[12..20]
    ensures BigEndian(UintAt(data, 20, 4), 4) == data[20..24] && BigEndian(UintAt(data, 24, 4), 4) == data[24..28]
  {
    I64Inverse(data[4..12]);
    I64Inverse(data[12..20]);
    BigEndianInverse(data[20..24]);
    BigEndianInverse(data[24..28]);
  }

  /** What is read as an event is the bytes that event is written as. */
  lemma DecodedIsEncoded(data: bytes, event: Event, n: nat)
    requires Decode(data) == Ok(Item(event, n))
    ensures 0 < n <= |data| && Writable(event.frame) && Encode(event) == Ok(data[..n])
  {
    hide IsUtf8, BigEndian, FromBigEndian, FromI64, ToI64;
    var named := HEADER_LEN + |event.frame.channel|;
    IsSync(data, 0);
    HeadIsItsBytes(data);
    assert data[..n] == data[0..4] + data[4..12] + data[12..20] + data[20..24] + data[24..28]
                        + data[HEADER_LEN..named] + data[named..n];
  }

  // ---- An event and its bytes ----------------------------------------------

  /** A name a log holds. */
  predicate LogName(name: bytes) {
    IsUtf8(name) && 1 <= |name| <= 999 && 0 !in name
  }

  /** An event, byte by byte, whatever stands for the name. */
  function EventBytes(number: bytes, timestamp: bytes, name: bytes, payload: bytes): bytes {
    [0xED, 0xA1, 0xDA, 0x01] + number + timestamp + BigEndian(|name|, 4) + BigEndian(|payload|, 4) + name + payload
  }

  lemma SyncBytes()
    ensures Sync() == [0xED, 0xA1, 0xDA, 0x01]
  {
    hide BigEndian;
    FourBytes(0xED, 0xA1, 0xDA, 0x01);
  }

  /** An event is written byte by byte, where its name is one of up to 999 bytes
      and it has no more than 2^28 bytes. */
  lemma WrittenExactly(event: Event)
    ensures Encode(event).Ok? <==> LogName(event.frame.channel) && |event.frame.payload| <= 0x1000_0000
    ensures Encode(event).Ok? ==>
      Encode(event).value == EventBytes(FromI64(event.number), FromI64(event.timestamp), event.frame.channel, event.frame.payload)
  {
    hide BigEndian, FromI64, IsUtf8;
    SyncBytes();
  }

  /** What is read as an event is that event, byte by byte, with what may stand
      behind one, and nothing else is. */
  lemma EventExactly(data: bytes, event: Event, n: nat)
    ensures Decode(data) == Ok(Item(event, n)) <==>
      && LogName(event.frame.channel) && |event.frame.payload| <= 0x1000_0000 && n <= |data| && Follows(data[n..])
      && data[..n] == EventBytes(FromI64(event.number), FromI64(event.timestamp), event.frame.channel, event.frame.payload)
  {
    hide Encode, Decode, EventBytes, FromI64, Follows, LogName;
    WrittenExactly(event);
    if Decode(data) == Ok(Item(event, n)) {
      DecodedIsEncoded(data, event, n);
      assert data == data[..n] + data[n..];
      EventRoundTrip(event, data[n..]);
    }
    if Encode(event).Ok? && n <= |data| && data[..n] == Encode(event).value {
      assert data == data[..n] + data[n..];
      EventRoundTrip(event, data[n..]);
    }
  }

  /** A head and what it says, byte by byte: the first test of every reader. */
  ghost predicate HeadOf(data: bytes, named: nat, length: nat) {
    && |data| >= 28 && data[..4] == [0xED, 0xA1, 0xDA, 0x01]
    && data[20..24] == BigEndian(named, 4) && data[24..28] == BigEndian(length, 4)
    && 1 <= named <= 999 && length <= 0x1000_0000
  }

  lemma HeadIsRead(data: bytes, named: nat, length: nat)
    requires HeadOf(data, named, length)
    ensures UintAt(data, 0, 4) == MAGIC && UintAt(data, 20, 4) == named && UintAt(data, 24, 4) == length
  {
    hide BigEndian, FromBigEndian;
    SyncBytes();
    assert data[0..4] == data[..4];
    IsSync(data, 0);
    Widths();
    BigEndianRoundTrip(named, 4);
    BigEndianRoundTrip(length, 4);
  }

  lemma PeekedIsHead(data: bytes)
    requires Peek(data).Ok? && Peek(data).value.Some?
    ensures |data| >= 28 && HeadOf(data, UintAt(data, 20, 4), UintAt(data, 24, 4))
  {
    hide BigEndian, FromBigEndian, ToI64, FromI64, UintAt;
    SyncBytes();
    IsSync(data, 0);
    assert data[0..4] == data[..4];
    HeadIsItsBytes(data);
  }

  /** A walk reads the length and the time of every head that can be read, and
      refuses every other. */
  lemma PeekExactly(data: bytes, timestamp: i64, len: nat)
    ensures Peek(data) == Ok(Some(Peeked(timestamp, len))) <==>
      exists named: nat, length: nat ::
        HeadOf(data, named, length) && len == 28 + named + length && data[12..20] == FromI64(timestamp)
  {
    hide BigEndian, FromBigEndian, FromI64, ToI64, UintAt;
    if Peek(data) == Ok(Some(Peeked(timestamp, len))) {
      PeekedIsHead(data);
      I64Inverse(data[12..20]);
      var named, length := UintAt(data, 20, 4), UintAt(data, 24, 4);
      assert HeadOf(data, named, length) && len == 28 + named + length;
    }
    if exists named: nat, length: nat ::
        HeadOf(data, named, length) && len == 28 + named + length && data[12..20] == FromI64(timestamp) {
      var named: nat, length: nat :|
        HeadOf(data, named, length) && len == 28 + named + length && data[12..20] == FromI64(timestamp);
      HeadIsRead(data, named, length);
      I64RoundTrip(timestamp);
    }
  }

  lemma NeedIsHead(data: bytes)
    requires |data| >= 28 && Decode(data).Ok? && Decode(data).value.Need?
    ensures exists named: nat, length: nat :: HeadOf(data, named, length) && |data| < 28 + named + length
  {
    hide BigEndian, FromBigEndian, FromI64, ToI64, UintAt, IsUtf8, CheckChannel;
    assert Peek(data).Ok? && Peek(data).value.Some?;
    PeekedIsHead(data);
    var named, length := UintAt(data, 20, 4), UintAt(data, 24, 4);
    assert HeadOf(data, named, length) && |data| < 28 + named + length;
  }

  /** A reader waits for more exactly where there is less than a head, or a head
      and less than its event. */
  lemma NeedExactly(data: bytes)
    ensures (Decode(data).Ok? && Decode(data).value.Need?) <==>
      |data| < 28 || exists named: nat, length: nat :: HeadOf(data, named, length) && |data| < 28 + named + length
  {
    hide BigEndian, FromBigEndian, FromI64, ToI64, UintAt, IsUtf8, CheckChannel;
    if Decode(data).Ok? && Decode(data).value.Need? && |data| >= 28 {
      NeedIsHead(data);
    }
    if |data| >= 28 && exists named: nat, length: nat :: HeadOf(data, named, length) && |data| < 28 + named + length {
      var named: nat, length: nat :| HeadOf(data, named, length) && |data| < 28 + named + length;
      HeadIsRead(data, named, length);
    }
  }

  /** A whole event with a name no log holds, and what may stand behind one. */
  ghost predicate Skippable(data: bytes, n: nat, named: nat, length: nat) {
    && HeadOf(data, named, length) && n == 28 + named + length <= |data|
    && Follows(data[n..]) && !LogName(data[28..28 + named])
  }

  lemma SkipIsHead(data: bytes, n: nat)
    requires Decode(data) == Ok(Skip(n))
    ensures exists named: nat, length: nat :: Skippable(data, n, named, length)
  {
    hide BigEndian, FromBigEndian, FromI64, ToI64, UintAt, IsUtf8, Sync;
    assert Peek(data).Ok? && Peek(data).value.Some?;
    PeekedIsHead(data);
    var named, length := UintAt(data, 20, 4), UintAt(data, 24, 4);
    if |data| - n >= 4 {
      assert data[n..n + 4] == data[n..][..4];
    }
    assert Skippable(data, n, named, length);
  }

  /** An event under a name no log holds, which a sync word or the end stands
      behind, is stepped over: it costs itself alone. */
  lemma SkippedExactly(data: bytes, n: nat)
    ensures Decode(data) == Ok(Skip(n)) <==>
      exists named: nat, length: nat :: Skippable(data, n, named, length)
  {
    hide BigEndian, FromBigEndian, FromI64, ToI64, UintAt, IsUtf8, Sync;
    if Decode(data) == Ok(Skip(n)) {
      SkipIsHead(data, n);
    }
    if exists named: nat, length: nat :: Skippable(data, n, named, length) {
      var named: nat, length: nat :| Skippable(data, n, named, length);
      HeadIsRead(data, named, length);
      if |data| - n >= 4 {
        assert data[n..n + 4] == data[n..][..4];
      }
    }
  }

  /** A reader moves on by something, and by no more than is there. */
  ghost predicate Moves(data: bytes) {
    match Decode(data)
    case Ok(Item(_, n)) => 0 < n <= |data|
    case Ok(Skip(n)) => 0 < n <= |data|
    case Ok(Need(n)) => |data| < n <= EVENT_MAX
    case Err(_) => 0 < Slide(data) <= |data|
  }

  lemma DecodeMoves(data: bytes)
    ensures Moves(data)
  {
    hide IsUtf8, CheckChannel, UintAt, ToI64, Slide;
  }

  // ---- More bytes behind ---------------------------------------------------

  /** The length of an event that is there whole, taken or stepped over. */
  function Length(data: bytes): Option<nat> {
    match Decode(data)
    case Ok(Item(_, n)) => Some(n)
    case Ok(Skip(n)) => Some(n)
    case _ => None
  }

  /** The bytes that come later can change an answer: an event, or one to step
      over, that ends in the last bytes there are is read again as an error
      exactly where four bytes turn up behind it that are no sync word. */
  lemma MoreBytesDecide(data: bytes, more: bytes, n: nat)
    requires Length(data) == Some(n)
    ensures n <= |data|
    ensures Decode(data + more) == Decode(data) <==> (|data| - n >= 4 || Follows(data[n..] + more))
  {
    hide IsUtf8, CheckChannel, UintAt, ToI64;
    var all := data + more;
    assert all[..|data|] == data;
    HeadOfPart(all, |data|);
    assert all[..|data|][4..12] == all[4..12];
    var named := UintAt(data, 20, 4);
    assert all[HEADER_LEN..HEADER_LEN + named] == data[HEADER_LEN..HEADER_LEN + named];
    assert all[HEADER_LEN + named..n] == data[HEADER_LEN + named..n];
    assert all[n..] == data[n..] + more;
    if |data| - n >= 4 {
      assert all[n..n + 4] == data[n..n + 4];
    } else if |all| - n >= 4 {
      assert all[n..n + 4] == all[n..][..4];
    }
  }

  /** One event, taken, and the same event refused once zeros come behind it. */
  lemma DecodeIsNotStable()
    ensures exists data, more :: Decode(data).Ok? && Decode(data).value.Item? && Decode(data + more).Err?
  {
    hide Decode, Encode;
    assert IsUtf8([0x61]);
    var event := Event(0, 0, Frame([0x61], []));
    assert Writable(event.frame);
    var data, more := Encode(event).value, [0, 0, 0, 0];
    assert data + [] == data;
    EventRoundTrip(event, []);
    assert more[..4] == more && Sync()[3] == 1;
    EventRoundTrip(event, more);
    assert Decode(data).value.Item? && Decode(data + more).Err?;
  }
}
