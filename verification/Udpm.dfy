/** Messages over UDP multicast: how one is cut where a datagram is too small
    for it, and how a datagram is read. */
module Udpm {
  import opened Bytes
  import opened Wire

  const MAGIC_SHORT: u32 := 0x4c43_3032
  const MAGIC_LONG: u32 := 0x4c43_3033

  const HEADER_SHORT: nat := 8
  const HEADER_LONG: nat := 20
  const HEADER_GAP: nat := HEADER_LONG - HEADER_SHORT
  const HEAD_MAX: nat := HEADER_LONG + MAX_CHANNEL_LEN + 1
  const MAX_FRAGMENTS: nat := 0xFFFF

  /** One fragment of a message. Only fragment zero carries the channel. */
  datatype Fragment = Fragment(
    sequence: u32, total: u32, offset: u32, index: u16, count: u16,
    channel: Option<str>, payload: bytes)

  datatype Datagram = Whole(sequence: u32, frame: Frame) | Part(fragment: Fragment)

  // ---- Reading a datagram --------------------------------------------------

  function Decode(data: bytes): (r: Result<Datagram>) {
    var (magic, at) :- TakeU32(data, 0);
    if magic == MAGIC_SHORT then
      var (sequence, at) :- TakeU32(data, at);
      var (channel, at) :- TakeChannel(data, at);
      Ok(Whole(sequence, Frame(channel, data[at..])))
    else if magic == MAGIC_LONG then
      var (sequence, at) :- TakeU32(data, at);
      var (total, at) :- TakeU32(data, at);
      var (offset, at) :- TakeU32(data, at);
      var (index, at) :- TakeU16(data, at);
      var (count, at) :- TakeU16(data, at);
      if total > MAX_MESSAGE_LEN then Err(MessageTooLarge(total))
      else if index == 0 then
        var (channel, at) :- TakeChannel(data, at);
        Ok(Part(Fragment(sequence, total, offset, index, count, Some(channel), data[at..])))
      else
        Ok(Part(Fragment(sequence, total, offset, index, count, None, data[at..])))
    else Err(BadMagic(magic))
  }

  // ---- Cutting a message ---------------------------------------------------

  /** The most a fragment carries: with its longer header it is to be no larger
      than the largest datagram of a whole message. */
  function FragmentMax(shortMax: nat): nat {
    if shortMax > HEADER_GAP then shortMax - HEADER_GAP else 1
  }

  /** How one message is cut. `first` is the payload of fragment zero, which
      shares its datagram with the channel name; `limit` is that of the rest. */
  datatype Plan = Plan(sequence: u32, channel: str, payload: bytes, first: nat, limit: nat, count: nat) {
    /** Where piece `index` starts: `StartIsProduct` gives it in one product. */
    function Start(index: nat): nat {
      if index == 0 then 0 else if index == 1 then first else Start(index - 1) + limit
    }

    function End(index: nat): (e: nat)
      ensures e <= |payload|
    {
      if Start(index + 1) < |payload| then Start(index + 1) else |payload|
    }

    /** What goes in front of the payload of one datagram. */
    function Head(index: nat): bytes {
      if count == 1 then
        BigEndian(MAGIC_SHORT, 4) + BigEndian(sequence, 4) + channel + [0]
      else
        BigEndian(MAGIC_LONG, 4) + BigEndian(sequence, 4) + BigEndian(|payload|, 4)
        + BigEndian(Start(index), 4) + BigEndian(index, 2) + BigEndian(count, 2)
        + (if index == 0 then channel + [0] else [])
    }

    predicate Cuts(index: nat) {
      count == 1 || Start(index) <= End(index)
    }

    function Body(index: nat): bytes
      requires Cuts(index)
    {
      if count == 1 then payload else payload[Start(index)..End(index)]
    }
  }

  function CeilDiv(a: nat, b: nat): nat
    requires b > 0
  {
    (a + b - 1) / b
  }

  function Fragments(sequence: u32, frame: Frame, shortMax: nat): (r: Result<Plan>) {
    var _ :- CheckChannel(frame.channel, MAX_CHANNEL_LEN);
    if |frame.payload| > MAX_MESSAGE_LEN then Err(MessageTooLarge(|frame.payload|))
    else
      var head := |frame.channel| + 1;
      if head + |frame.payload| <= shortMax then
        Ok(Plan(sequence, frame.channel, frame.payload, 0, 0, 1))
      else
        var limit := FragmentMax(shortMax);
        if limit <= head then Err(DatagramTooSmall(shortMax, head + 1 + HEADER_GAP))
        else
          var count := CeilDiv(head + |frame.payload|, limit);
          if count > MAX_FRAGMENTS then Err(TooManyFragments(count))
          else Ok(Plan(sequence, frame.channel, frame.payload, limit - head, limit, count))
  }

  /** What a plan of `Fragments` satisfies: a name a datagram holds, and, where
      there is more than one datagram, pieces that are never empty and follow
      each other to the end of the payload. */
  ghost predicate Sound(p: Plan) {
    && CheckChannel(p.channel, MAX_CHANNEL_LEN).Ok?
    && |p.payload| <= MAX_MESSAGE_LEN
    && 1 <= p.count <= MAX_FRAGMENTS
    && (p.count > 1 ==>
      && p.count <= |p.payload|
      && p.End(p.count - 1) == |p.payload|
      && forall i :: 0 <= i < p.count ==> p.Start(i) < p.End(i) && (i + 1 < p.count ==> p.End(i) == p.Start(i + 1)))
  }

  lemma {:induction false} StartIsProduct(p: Plan, i: nat)
    requires i > 0
    ensures p.Start(i) == p.first + (i - 1) * p.limit
  {
    if i > 1 {
      StartIsProduct(p, i - 1);
      assert (i - 1) * p.limit == (i - 2) * p.limit + p.limit;
    }
  }

  lemma Multiples(i: nat, j: nat, b: nat)
    requires i <= j
    ensures i * b <= j * b
  {
    assert j * b == i * b + (j - i) * b;
  }

  lemma FactorBound(i: nat, j: nat, b: nat)
    requires i * b < j * b
    ensures i < j
  {
    if j <= i {
      Multiples(j, i, b);
    }
  }

  lemma CeilDivBounds(a: nat, b: nat)
    requires a > 0 && b > 0
    ensures var n := CeilDiv(a, b); n >= 1 && (n - 1) * b < a <= n * b
  {
    var n := CeilDiv(a, b);
    var r := (a + b - 1) % b;
    assert a + b - 1 == n * b + r && 0 <= r < b;
    assert (n - 1) * b == n * b - b;
    FactorBound(0, n, b);
  }

  lemma StartAsWritten(p: Plan, at: nat)
    ensures p.Start(at) == if at == 0 then 0 else p.first + (at - 1) * p.limit
  {
    if at > 0 {
      StartIsProduct(p, at);
    }
  }

  lemma {:induction false} StartGrows(p: Plan, i: nat, j: nat)
    requires p.first > 0 && p.limit > 0 && i <= j
    ensures i <= p.Start(i) && p.Start(i) + (j - i) <= p.Start(j)
  {
    if i < j {
      StartGrows(p, i, j - 1);
    } else if i > 0 {
      StartGrows(p, 0, i - 1);
    }
  }

  /** The count is the least number of pieces that reaches the end. */
  lemma CountReaches(p: Plan, head: nat, len: nat)
    requires p.first + head == p.limit && p.first > 0 && p.limit < head + len
    requires p.count == CeilDiv(head + len, p.limit)
    ensures p.count >= 2 && p.Start(p.count - 1) < len <= p.Start(p.count) <= p.Start(p.count - 1) + p.limit
  {
    var n := p.count;
    CeilDivBounds(head + len, p.limit);
    FactorBound(1, n, p.limit);
    StartIsProduct(p, n);
    assert (n - 1) * p.limit == n * p.limit - p.limit;
  }

  lemma PiecesFollow(p: Plan)
    requires p.first > 0 && p.limit > 0 && p.count >= 2
    requires p.Start(p.count - 1) < |p.payload| <= p.Start(p.count)
    ensures p.count <= |p.payload| && p.End(p.count - 1) == |p.payload|
    ensures forall i :: 0 <= i < p.count ==> p.Start(i) < p.End(i) && (i + 1 < p.count ==> p.End(i) == p.Start(i + 1))
  {
    StartGrows(p, p.count - 1, p.count);
    forall i | 0 <= i < p.count
      ensures p.Start(i) < p.End(i) && (i + 1 < p.count ==> p.End(i) == p.Start(i + 1))
    {
      StartGrows(p, i, i + 1);
      if i + 1 < p.count {
        StartGrows(p, i + 1, p.count - 1);
      }
    }
  }

  /** The pieces of a message that does not fit whole are at least two, never
      empty, and partition the payload. */
  lemma PlanIsSound(sequence: u32, frame: Frame, shortMax: nat)
    requires Fragments(sequence, frame, shortMax).Ok?
    ensures var p := Fragments(sequence, frame, shortMax).value;
      && Sound(p) && p.sequence == sequence && p.channel == frame.channel && p.payload == frame.payload
      && (p.count == 1 <==> |frame.channel| + 1 + |frame.payload| <= shortMax)
  {
    var p := Fragments(sequence, frame, shortMax).value;
    if |frame.channel| + 1 + |frame.payload| > shortMax {
      CountReaches(p, |frame.channel| + 1, |frame.payload|);
      PiecesFollow(p);
    }
  }

  lemma BodyLength(p: Plan, i: nat)
    requires Sound(p) && i < p.count && p.count > 1
    requires |p.payload| <= p.Start(p.count - 1) + p.limit
    ensures i + 1 < p.count ==> |p.Body(i)| == if i == 0 then p.first else p.limit
    ensures 0 < i ==> |p.Body(i)| <= p.limit
  {
  }

  lemma HeadLength(p: Plan, i: nat)
    ensures |p.Head(i)| == if p.count == 1 then HEADER_SHORT + |p.channel| + 1
                           else HEADER_LONG + if i == 0 then |p.channel| + 1 else 0
  {
  }

  function DatagramOf(p: Plan, index: nat): bytes
    requires p.Cuts(index)
  {
    p.Head(index) + p.Body(index)
  }

  /** No head is above the room for one, no datagram above the limit, and every
      fragment but the last is a full one. */
  lemma DatagramLengths(sequence: u32, frame: Frame, shortMax: nat, i: nat)
    requires Fragments(sequence, frame, shortMax).Ok?
    requires i < Fragments(sequence, frame, shortMax).value.count
    ensures var p := Fragments(sequence, frame, shortMax).value;
      && p.Cuts(i) && |p.Head(i)| <= 84
      && |DatagramOf(p, i)| <= shortMax + 8
      && (i + 1 < p.count ==> |DatagramOf(p, i)| == shortMax + 8)
  {
    hide Plan.Start, Plan.End, Plan.Head, IsUtf8;
    PlanIsSound(sequence, frame, shortMax);
    var p := Fragments(sequence, frame, shortMax).value;
    HeadLength(p, i);
    if p.count > 1 {
      CountReaches(p, |frame.channel| + 1, |frame.payload|);
      BodyLength(p, i);
    }
  }

  /** The one way a nameable message of legal length is refused for the datagram
      length: it does not fit whole, and the limit is below the minimum named. */
  lemma TooSmallExactly(sequence: u32, frame: Frame, shortMax: nat)
    requires CheckChannel(frame.channel, MAX_CHANNEL_LEN).Ok? && |frame.payload| <= MAX_MESSAGE_LEN
    ensures var r := Fragments(sequence, frame, shortMax);
      var minimum := |frame.channel| + 14;
      && ((r.Err? && r.error.DatagramTooSmall?) <==>
         (|frame.channel| + 1 + |frame.payload| > shortMax && shortMax < minimum))
      && (r.Err? && r.error.DatagramTooSmall? ==> r.error == DatagramTooSmall(shortMax, minimum))
      && (Fragments(sequence, frame, minimum).Err? ==> Fragments(sequence, frame, minimum).error.TooManyFragments?)
  {
    assert frame.channel != [];
  }

  lemma StartsAtZero(p: Plan)
    ensures p.Start(0) == 0
  {
  }

  /** The payload of the first `n` pieces of a plan, in index order. */
  function Bodies(p: Plan, n: nat): bytes
    requires forall i :: 0 <= i < n ==> p.Cuts(i)
  {
    if n == 0 then [] else Bodies(p, n - 1) + p.Body(n - 1)
  }

  lemma PrefixGrows(payload: bytes, a: nat, b: nat)
    requires a <= b <= |payload|
    ensures payload[..a] + payload[a..b] == payload[..b]
  {
  }

  lemma {:induction false} BodiesArePrefix(p: Plan, n: nat)
    requires Sound(p) && p.count > 1 && n <= p.count
    ensures Bodies(p, n) == p.payload[..if n == 0 then 0 else p.End(n - 1)]
  {
    hide Plan.Start, Plan.End, IsUtf8;
    if n > 0 {
      BodiesArePrefix(p, n - 1);
      StartsAtZero(p);
      assert n > 1 ==> p.End(n - 2) == p.Start(n - 1);
      PrefixGrows(p.payload, p.Start(n - 1), p.End(n - 1));
    }
  }

  /** The pieces of a plan, in index order, are the payload. */
  lemma BodiesArePayload(p: Plan)
    requires Sound(p)
    ensures Bodies(p, p.count) == p.payload
  {
    if p.count > 1 {
      BodiesArePrefix(p, p.count);
    }
  }

  // ---- What is cut, and what is refused ------------------------------------

  /** A name that goes on a bus. */
  predicate ShortName(name: bytes) {
    1 <= |name| <= 63 && 0 !in name
  }

  lemma ShortNameExactly(name: bytes)
    ensures CheckChannel(name, MAX_CHANNEL_LEN).Ok? <==> ShortName(name)
  {
  }

  lemma CountExactly(size: nat, limit: nat)
    requires size > 0 && limit > 0
    ensures CeilDiv(size, limit) <= MAX_FRAGMENTS <==> size <= 65535 * limit
  {
    hide CeilDiv;
    CeilDivBounds(size, limit);
    var n := CeilDiv(size, limit);
    if n <= MAX_FRAGMENTS {
      Multiples(n, MAX_FRAGMENTS, limit);
    } else {
      Multiples(MAX_FRAGMENTS, n - 1, limit);
    }
  }

  /** A message is cut if and only if its name and its length are legal, and it
      fits one datagram whole, or 65535 fragments of which the first has room
      for the name and a byte. */
  lemma CutExactly(sequence: u32, frame: Frame, shortMax: nat)
    ensures var size := |frame.channel| + 1 + |frame.payload|;
      Fragments(sequence, frame, shortMax).Ok? <==>
        && ShortName(frame.channel) && |frame.payload| <= 0x1000_0000
        && (size <= shortMax || (shortMax >= |frame.channel| + 14 && size <= 65535 * (shortMax - 12)))
  {
    hide IsUtf8, CheckChannel, CeilDiv;
    ShortNameExactly(frame.channel);
    var size, limit := |frame.channel| + 1 + |frame.payload|, FragmentMax(shortMax);
    if size > shortMax && shortMax >= |frame.channel| + 14 {
      CountExactly(size, limit);
    }
  }

  /** The count a message is refused for is above 65535, and is the number of
      datagrams that it takes. */
  lemma TooManyExactly(sequence: u32, frame: Frame, shortMax: nat, n: nat)
    requires Fragments(sequence, frame, shortMax) == Err(TooManyFragments(n))
    ensures var size := |frame.channel| + 1 + |frame.payload|;
      n > 65535 && shortMax >= 12 && (n - 1) * (shortMax - 12) < size <= n * (shortMax - 12)
  {
    hide IsUtf8, CeilDiv;
    CeilDivBounds(|frame.channel| + 1 + |frame.payload|, FragmentMax(shortMax));
  }

  /** Each other error says what is wrong, and comes exactly where it is. */
  lemma RefusedExactly(sequence: u32, frame: Frame, shortMax: nat)
    ensures var r := Fragments(sequence, frame, shortMax);
      && (r == Err(BadChannel) <==> frame.channel == [] || 0 in frame.channel)
      && (r == Err(ChannelTooLong(|frame.channel|)) <==> 0 !in frame.channel && |frame.channel| > 63)
      && (r == Err(MessageTooLarge(|frame.payload|)) <==> ShortName(frame.channel) && |frame.payload| > 0x1000_0000)
  {
    hide IsUtf8, CeilDiv;
  }

  // ---- One datagram there and back -----------------------------------------

  /** The fragment a reader finds in datagram `index` of a plan. */
  function FragmentOf(p: Plan, index: nat): Fragment
    requires Sound(p) && p.count > 1 && index < p.count
  {
    Fragment(p.sequence, |p.payload|, p.Start(index), index, p.count,
             if index == 0 then Some(p.channel) else None,
             p.payload[p.Start(index)..p.End(index)])
  }

  lemma ReadBack(data: bytes, at: nat, v: nat, n: nat)
    requires at + n <= |data| && v < Pow256(n)
    requires data[at..at + n] == BigEndian(v, n)
    ensures UintAt(data, at, n) == v
  {
    BigEndianRoundTrip(v, n);
  }

  lemma TakeChannelBack(data: bytes, at: nat, channel: str, rest: bytes)
    requires at <= |data| && data[at..] == channel + [0] + rest
    requires CheckChannel(channel, MAX_CHANNEL_LEN).Ok?
    ensures TakeChannel(data, at) == Ok((channel, at + |channel| + 1))
    ensures data[at + |channel| + 1..] == rest
  {
    FirstNulBehind(channel, rest);
    assert data[at..][..|channel|] == channel;
    assert data[at + |channel| + 1..] == data[at..][|channel| + 1..];
  }

  lemma WholeHead(p: Plan, data: bytes)
    requires p.count == 1 && data == BigEndian(MAGIC_SHORT, 4) + BigEndian(p.sequence, 4) + p.channel + [0] + p.payload
    ensures |data| >= 8 && data[8..] == p.channel + [0] + p.payload
    ensures UintAt(data, 0, 4) == MAGIC_SHORT && UintAt(data, 4, 4) == p.sequence
  {
    hide IsUtf8, BigEndian, FromBigEndian;
    Widths();
    ReadBack(data, 0, MAGIC_SHORT, 4);
    ReadBack(data, 4, p.sequence, 4);
  }

  /** A message in one datagram comes back as it was. */
  lemma WholeRoundTrip(p: Plan)
    requires Sound(p) && p.count == 1
    ensures Decode(DatagramOf(p, 0)) == Ok(Whole(p.sequence, Frame(p.channel, p.payload)))
  {
    hide IsUtf8, BigEndian, FromBigEndian, TakeChannel;
    var data := DatagramOf(p, 0);
    WholeHead(p, data);
    TakeChannelBack(data, 8, p.channel, p.payload);
  }

  lemma FragmentHead(p: Plan, index: nat, data: bytes, tail: bytes)
    requires Sound(p) && p.count > 1 && index < p.count
    requires data == BigEndian(MAGIC_LONG, 4) + BigEndian(p.sequence, 4) + BigEndian(|p.payload|, 4)
                     + BigEndian(p.Start(index), 4) + BigEndian(index, 2) + BigEndian(p.count, 2) + tail
    ensures |data| >= 20 && data[20..] == tail
    ensures UintAt(data, 0, 4) == MAGIC_LONG && UintAt(data, 4, 4) == p.sequence
    ensures UintAt(data, 8, 4) == |p.payload| && UintAt(data, 12, 4) == p.Start(index)
    ensures UintAt(data, 16, 2) == index && UintAt(data, 18, 2) == p.count
  {
    hide Plan.Start, Plan.End, IsUtf8, BigEndian, FromBigEndian;
    Widths();
    assert p.Start(index) < p.End(index) <= |p.payload|;
    ReadBack(data, 0, MAGIC_LONG, 4);
    ReadBack(data, 4, p.sequence, 4);
    ReadBack(data, 8, |p.payload|, 4);
    ReadBack(data, 12, p.Start(index), 4);
    ReadBack(data, 16, index, 2);
    ReadBack(data, 18, p.count, 2);
  }

  /** A fragment comes back as it was cut: place, count, name and bytes. */
  lemma FragmentRoundTrip(p: Plan, index: nat)
    requires Sound(p) && p.count > 1 && index < p.count
    ensures Decode(DatagramOf(p, index)) == Ok(Part(FragmentOf(p, index)))
  {
    hide Plan.Start, Plan.End, IsUtf8, BigEndian, FromBigEndian;
    var data := DatagramOf(p, index);
    var body := p.Body(index);
    var tail := (if index == 0 then p.channel + [0] else []) + body;
    FragmentHead(p, index, data, tail);
    if index == 0 {
      assert data[20..] == p.channel + [0] + body;
      TakeChannelBack(data, 20, p.channel, body);
    }
  }

  // ---- A datagram and its bytes --------------------------------------------

  /** A message in one datagram, byte by byte. */
  function WholeBytes(sequence: u32, frame: Frame): bytes {
    [0x4C, 0x43, 0x30, 0x32] + BigEndian(sequence, 4) + frame.channel + [0] + frame.payload
  }

  function NameBytes(f: Fragment): bytes {
    if f.channel.Some? then f.channel.value + [0] else []
  }

  /** A fragment, byte by byte. */
  function PartBytes(f: Fragment): bytes {
    [0x4C, 0x43, 0x30, 0x33] + BigEndian(f.sequence, 4) + BigEndian(f.total, 4) + BigEndian(f.offset, 4)
    + BigEndian(f.index, 2) + BigEndian(f.count, 2) + NameBytes(f) + f.payload
  }

  /** What a datagram can say of a fragment. */
  predicate Sayable(f: Fragment) {
    && f.total <= 0x1000_0000 && (f.channel.Some? <==> f.index == 0)
    && (f.channel.Some? ==> ShortName(f.channel.value))
  }

  lemma Magics()
    ensures BigEndian(MAGIC_SHORT, 4) == [0x4C, 0x43, 0x30, 0x32]
    ensures BigEndian(MAGIC_LONG, 4) == [0x4C, 0x43, 0x30, 0x33]
  {
    hide BigEndian;
    FourBytes(0x4C, 0x43, 0x30, 0x32);
    FourBytes(0x4C, 0x43, 0x30, 0x33);
  }

  lemma WholeFields(data: bytes, sequence: u32, tail: bytes)
    requires data == [0x4C, 0x43, 0x30, 0x32] + BigEndian(sequence, 4) + tail
    ensures |data| >= 8 && data[8..] == tail
    ensures UintAt(data, 0, 4) == MAGIC_SHORT && UintAt(data, 4, 4) == sequence
  {
    hide IsUtf8, BigEndian, FromBigEndian;
    Widths();
    Magics();
    ReadBack(data, 0, MAGIC_SHORT, 4);
    ReadBack(data, 4, sequence, 4);
  }

  lemma PartFields(data: bytes, f: Fragment, tail: bytes)
    requires data == [0x4C, 0x43, 0x30, 0x33] + BigEndian(f.sequence, 4) + BigEndian(f.total, 4) + BigEndian(f.offset, 4)
                     + BigEndian(f.index, 2) + BigEndian(f.count, 2) + tail
    ensures |data| >= 20 && data[20..] == tail
    ensures UintAt(data, 0, 4) == MAGIC_LONG && UintAt(data, 4, 4) == f.sequence
    ensures UintAt(data, 8, 4) == f.total && UintAt(data, 12, 4) == f.offset
    ensures UintAt(data, 16, 2) == f.index && UintAt(data, 18, 2) == f.count
  {
    hide IsUtf8, BigEndian, FromBigEndian;
    Widths();
    Magics();
    ReadBack(data, 0, MAGIC_LONG, 4);
    ReadBack(data, 4, f.sequence, 4);
    ReadBack(data, 8, f.total, 4);
    ReadBack(data, 12, f.offset, 4);
    ReadBack(data, 16, f.index, 2);
    ReadBack(data, 18, f.count, 2);
  }

  lemma ReadIsBytes(data: bytes, at: nat, n: nat)
    requires at + n <= |data|
    ensures BigEndian(UintAt(data, at, n), n) == data[at..at + n]
  {
    BigEndianInverse(data[at..at + n]);
  }

  lemma TakenChannel(data: bytes, at: nat)
    requires at <= |data| && TakeChannel(data, at).Ok?
    ensures var (channel, next) := TakeChannel(data, at).value;
      next <= |data| && ShortName(channel) && data[at..] == channel + [0] + data[next..]
  {
    var (channel, next) := TakeChannel(data, at).value;
    ShortNameExactly(channel);
    assert data[at..][..|channel|] == channel && data[at..][|channel|] == 0;
    assert data[at..][|channel| + 1..] == data[next..];
  }

  lemma WholeIsItsBytes(data: bytes, sequence: u32, frame: Frame)
    requires Decode(data) == Ok(Whole(sequence, frame))
    ensures ShortName(frame.channel) && data == WholeBytes(sequence, frame)
  {
    hide IsUtf8, BigEndian, FromBigEndian, TakeChannel;
    Magics();
    ReadIsBytes(data, 0, 4);
    ReadIsBytes(data, 4, 4);
    TakenChannel(data, 8);
    assert data == data[0..4] + data[4..8] + data[8..];
  }

  /** What is read as a message of one datagram is that message, byte by byte, and
      nothing else is. */
  lemma WholeExactly(data: bytes, sequence: u32, frame: Frame)
    ensures Decode(data) == Ok(Whole(sequence, frame)) <==> ShortName(frame.channel) && data == WholeBytes(sequence, frame)
  {
    hide IsUtf8, BigEndian, FromBigEndian, TakeChannel, CheckChannel;
    if Decode(data) == Ok(Whole(sequence, frame)) {
      WholeIsItsBytes(data, sequence, frame);
    }
    if ShortName(frame.channel) && data == WholeBytes(sequence, frame) {
      var tail := frame.channel + [0] + frame.payload;
      assert data == [0x4C, 0x43, 0x30, 0x32] + BigEndian(sequence, 4) + tail;
      WholeFields(data, sequence, tail);
      ShortNameExactly(frame.channel);
      TakeChannelBack(data, 8, frame.channel, frame.payload);
    }
  }

  lemma PartIsItsBytes(data: bytes, f: Fragment)
    requires Decode(data) == Ok(Part(f))
    ensures Sayable(f) && data == PartBytes(f)
  {
    hide IsUtf8, BigEndian, FromBigEndian, TakeChannel;
    Magics();
    ReadIsBytes(data, 0, 4);
    ReadIsBytes(data, 4, 4);
    ReadIsBytes(data, 8, 4);
    ReadIsBytes(data, 12, 4);
    ReadIsBytes(data, 16, 2);
    ReadIsBytes(data, 18, 2);
    if f.index == 0 {
      TakenChannel(data, 20);
    }
    assert data == data[0..4] + data[4..8] + data[8..12] + data[12..16] + data[16..18] + data[18..20] + data[20..];
    assert data[20..] == NameBytes(f) + f.payload;
  }

  lemma PartIsRead(data: bytes, f: Fragment)
    requires Sayable(f) && data == PartBytes(f)
    ensures Decode(data) == Ok(Part(f))
  {
    hide IsUtf8, BigEndian, FromBigEndian, TakeChannel, CheckChannel;
    var tail := NameBytes(f) + f.payload;
    assert data == [0x4C, 0x43, 0x30, 0x33] + BigEndian(f.sequence, 4) + BigEndian(f.total, 4) + BigEndian(f.offset, 4)
                   + BigEndian(f.index, 2) + BigEndian(f.count, 2) + tail;
    PartFields(data, f, tail);
    if f.index == 0 {
      assert tail == f.channel.value + [0] + f.payload;
      ShortNameExactly(f.channel.value);
      TakeChannelBack(data, 20, f.channel.value, f.payload);
    } else {
      assert tail == f.payload;
    }
  }

  /** What is read as a fragment is that fragment, byte by byte, and nothing else
      is: no datagram of another magic, and none with less than its head. */
  lemma PartExactly(data: bytes, f: Fragment)
    ensures Decode(data) == Ok(Part(f)) <==> Sayable(f) && data == PartBytes(f)
  {
    hide IsUtf8, BigEndian, FromBigEndian, TakeChannel, CheckChannel;
    if Decode(data) == Ok(Part(f)) {
      PartIsItsBytes(data, f);
    }
    if Sayable(f) && data == PartBytes(f) {
      PartIsRead(data, f);
    }
  }

  /** No other error of a datagram is a bad magic. */
  lemma NameErrors(data: bytes)
    ensures forall at :: 0 <= at <= |data| && TakeChannel(data, at).Err? ==> !TakeChannel(data, at).error.BadMagic?
  {
  }

  /** A datagram of another magic is refused with it. */
  lemma MagicExactly(data: bytes, magic: nat)
    ensures Decode(data) == Err(BadMagic(magic)) <==>
      && |data| >= 4 && data[..4] == BigEndian(magic, 4) && magic < 0x1_0000_0000
      && data[..4] != [0x4C, 0x43, 0x30, 0x32] && data[..4] != [0x4C, 0x43, 0x30, 0x33]
  {
    hide IsUtf8, BigEndian, FromBigEndian, TakeChannel;
    Magics();
    Widths();
    if |data| >= 4 {
      assert data[0..4] == data[..4];
      ReadIsBytes(data, 0, 4);
      UintAtWidth(data, 0, 4);
      BigEndianRoundTrip(MAGIC_SHORT, 4);
      BigEndianRoundTrip(MAGIC_LONG, 4);
      if magic < 0x1_0000_0000 && data[..4] == BigEndian(magic, 4) {
        ReadBack(data, 0, magic, 4);
      }
      NameErrors(data);
    }
  }

  /** The datagrams of a plan, byte by byte. */
  lemma DatagramBytes(p: Plan, index: nat)
    requires Sound(p) && index < p.count
    ensures p.count == 1 ==> DatagramOf(p, index) == WholeBytes(p.sequence, Frame(p.channel, p.payload))
    ensures p.count > 1 ==> DatagramOf(p, index) == PartBytes(FragmentOf(p, index))
  {
    hide Decode, DatagramOf, WholeBytes, PartBytes;
    if p.count == 1 {
      WholeRoundTrip(p);
      WholeExactly(DatagramOf(p, 0), p.sequence, Frame(p.channel, p.payload));
    } else {
      FragmentRoundTrip(p, index);
      PartExactly(DatagramOf(p, index), FragmentOf(p, index));
    }
  }

  // ---- The iterator over the datagrams -------------------------------------

  /** Walks over a plan: the next head, in a buffer of fixed size, and the next
      piece. */
  class FragmentIterator {
    const plan: Plan
    var index: nat

    ghost predicate Valid()
      reads this
    {
      Sound(plan) && index <= plan.count
    }

    constructor (plan: Plan)
      requires Sound(plan)
      ensures Valid() && this.plan == plan && index == 0
    {
      this.plan := plan;
      index := 0;
    }

    /** Writes `part` behind the `len` bytes a head holds. */
    method Put(head: array<byte>, len: nat, part: bytes) returns (after: nat)
      requires len + |part| <= head.Length
      modifies head
      ensures after == len + |part|
      ensures head[..after] == old(head[..len]) + part
    {
      after := len + |part|;
      forall i | 0 <= i < |part| {
        head[len + i] := part[i];
      }
    }

    method ShortHead() returns (head: bytes)
      requires plan.count == 1 && |plan.channel| <= MAX_CHANNEL_LEN
      ensures head == plan.Head(0)
    {
      var buffer := new byte[HEAD_MAX](_ => 0);
      var len := Put(buffer, 0, BigEndian(MAGIC_SHORT, 4));
      len := Put(buffer, len, BigEndian(plan.sequence, 4));
      len := Put(buffer, len, plan.channel);
      len := Put(buffer, len, [0]);
      head := buffer[..len];
    }

    method LongHead(at: nat) returns (head: bytes)
      requires plan.count != 1 && |plan.channel| <= MAX_CHANNEL_LEN
      ensures head == plan.Head(at)
    {
      hide IsUtf8, BigEndian, Plan.Start;
      var buffer := new byte[HEAD_MAX](_ => 0);
      var len := Put(buffer, 0, BigEndian(MAGIC_LONG, 4));
      len := Put(buffer, len, BigEndian(plan.sequence, 4));
      len := Put(buffer, len, BigEndian(|plan.payload|, 4));
      len := PutPlace(buffer, len, at);
      if at == 0 {
        len := Put(buffer, len, plan.channel);
        len := Put(buffer, len, [0]);
      }
      head := buffer[..len];
    }

    /** Where a fragment starts, its index, and how many there are. */
    method PutPlace(head: array<byte>, len: nat, at: nat) returns (after: nat)
      requires len + 8 <= head.Length
      modifies head
      ensures after == len + 8
      ensures head[..after] == old(head[..len]) + BigEndian(plan.Start(at), 4) + BigEndian(at, 2) + BigEndian(plan.count, 2)
    {
      hide BigEndian, Plan.Start;
      var start := if at == 0 then 0 else plan.first + (at - 1) * plan.limit;
      StartAsWritten(plan, at);
      after := Put(head, len, BigEndian(start, 4));
      after := Put(head, after, BigEndian(at, 2));
      after := Put(head, after, BigEndian(plan.count, 2));
    }

    method Next() returns (next: Option<(bytes, bytes)>)
      requires Valid()
      modifies this
      ensures Valid()
      ensures old(index) == plan.count ==> next.None? && index == old(index)
      ensures old(index) < plan.count ==>
        next == Some((plan.Head(old(index)), plan.Body(old(index)))) && index == old(index) + 1
    {
      hide IsUtf8, BigEndian;
      if index >= plan.count {
        return None;
      }
      var at := index;
      index := index + 1;
      if plan.count == 1 {
        var head := ShortHead();
        return Some((head, plan.payload));
      }
      var head := LongHead(at);
      var start, behind := plan.Start(at), plan.Start(at + 1);
      return Some((head, plan.payload[start..if behind < |plan.payload| then behind else |plan.payload|]));
    }
  }

  /** The datagrams of a plan, or why there is none. */
  method Encode(sequence: u32, frame: Frame, shortMax: nat) returns (r: Result<seq<bytes>>)
    ensures match Fragments(sequence, frame, shortMax)
      case Err(e) => r == Err(e)
      case Ok(p) => Sound(p) && r.Ok? && |r.value| == p.count
                    && forall i :: 0 <= i < p.count ==> r.value[i] == DatagramOf(p, i)
  {
    hide Plan.Head, Plan.Body, IsUtf8;
    var fragments := Fragments(sequence, frame, shortMax);
    if fragments.Err? {
      return Err(fragments.error);
    }
    PlanIsSound(sequence, frame, shortMax);
    var walk := new FragmentIterator(fragments.value);
    var datagrams: seq<bytes> := [];
    var next := walk.Next();
    while next.Some?
      invariant walk.Valid() && walk.plan == fragments.value
      invariant |datagrams| == walk.index - (if next.Some? then 1 else 0)
      invariant next.None? ==> walk.index == walk.plan.count
      invariant next.Some? ==>
        0 < walk.index && next.value == (walk.plan.Head(walk.index - 1), walk.plan.Body(walk.index - 1))
      invariant forall i :: 0 <= i < |datagrams| ==> datagrams[i] == DatagramOf(walk.plan, i)
      decreases next.Some?, walk.plan.count - walk.index
    {
      datagrams := datagrams + [next.value.0 + next.value.1];
      next := walk.Next();
    }
    return Ok(datagrams);
  }
}
