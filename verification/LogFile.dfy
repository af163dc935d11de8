/** A log, written, sought in and replayed. */
module LogFile {
  import opened Bytes
  import opened Wire
  import opened Log
  import opened ReadBuffers
  import opened Readers

  // ---- A replay of a log that is there whole -------------------------------

  datatype End = EndOfLog | TornLog

  datatype Replayed = Replayed(events: seq<Event>, end: End)

  function Behind(events: seq<Event>, r: Replayed): Replayed {
    Replayed(events + r.events, r.end)
  }

  /** All the events a decoder finds that has the whole log in front of it. What
      it cannot read it slides over, and an event cut short is the last thing it
      comes to. */
  ghost function Replay(data: bytes): Replayed
    decreases |data|
  {
    DecodeMoves(data);
    match Decode(data)
    case Ok(Item(event, n)) => Behind([event], Replay(data[n..]))
    case Ok(Skip(n)) => Replay(data[n..])
    case Ok(Need(_)) => Replayed([], if data == [] then EndOfLog else TornLog)
    case Err(_) => Replay(data[Slide(data)..])
  }

  /** A head that can be read, on an event that is there whole and is refused for
      what stands behind it. */
  predicate Doubtful(data: bytes) {
    Decode(data).Err? && Peek(data).Ok?
  }

  /** A replay of the whole comes to no such event. */
  ghost predicate Steady(data: bytes)
    decreases |data|
  {
    DecodeMoves(data);
    match Decode(data)
    case Ok(Item(_, n)) => Steady(data[n..])
    case Ok(Skip(n)) => Steady(data[n..])
    case Ok(Need(_)) => true
    case Err(_) => !Doubtful(data) && Steady(data[Slide(data)..])
  }

  /** The events from a time on. */
  function From(start: i64, events: seq<Event>): seq<Event> {
    if events == [] then []
    else (if events[0].timestamp >= start then [events[0]] else []) + From(start, events[1..])
  }

  lemma {:induction false} FromAppend(start: i64, a: seq<Event>, b: seq<Event>)
    ensures From(start, a + b) == From(start, a) + From(start, b)
  {
    hide IsUtf8;
    if a == [] {
      assert a + b == b;
    } else {
      FromAppend(start, a[1..], b);
      assert a + b == [a[0]] + (a[1..] + b);
      var first := if a[0].timestamp >= start then [a[0]] else [];
      assert first + (From(start, a[1..]) + From(start, b)) == (first + From(start, a[1..])) + From(start, b);
    }
  }

  // ---- The seek ------------------------------------------------------------

  /** A replay from `at` gives the same events from `start` on, and ends the
      same, as one of the whole. */
  ghost predicate SameFrom(data: bytes, at: nat, start: i64) {
    && at <= |data|
    && From(start, Replay(data).events) == From(start, Replay(data[at..]).events)
    && Replay(data).end == Replay(data[at..]).end
    && (Steady(data) ==> Steady(data[at..]))
  }

  /** An event with a head in front of `start`, and a readable head where it
      says it ends, is one the decoder takes or steps over, of that length and
      that time. */
  lemma HopIsOverAnEvent(data: bytes, next: bytes)
    requires |data| >= HEADER_LEN && Peek(data).Ok? && Peek(data).value.Some?
    requires var len := Peek(data).value.value.len; len + HEADER_LEN <= |data| && next == data[len..] && Peek(next).Ok?
    ensures var p := Peek(data).value.value;
      Decode(data) == Ok(Skip(p.len)) ||
      (Decode(data).Ok? && Decode(data).value.Item? && Decode(data).value.used == p.len
       && Decode(data).value.item.timestamp == p.timestamp)
  {
    hide IsUtf8, CheckChannel, ToI64, UintAt;
    var len := Peek(data).value.value.len;
    IsSync(next, 0);
    assert data[len..len + 4] == next[0..4];
  }

  lemma HopReplays(data: bytes, at: nat, start: i64)
    requires at + HEADER_LEN <= |data| && Peek(data[at..]).Ok? && Peek(data[at..]).value.Some?
    requires Peek(data[at..]).value.value.timestamp < start
    requires var next := at + Peek(data[at..]).value.value.len; next + HEADER_LEN <= |data| && Peek(data[next..]).Ok?
    requires SameFrom(data, at, start)
    ensures SameFrom(data, at + Peek(data[at..]).value.value.len, start)
  {
    hide Decode, Peek;
    var p := Peek(data[at..]).value.value;
    var next := at + p.len;
    assert data[at..][p.len..] == data[next..];
    HopIsOverAnEvent(data[at..], data[next..]);
    if Decode(data[at..]).value.Item? {
      FromAppend(start, [Decode(data[at..]).value.item], Replay(data[next..]).events);
    }
  }

  /** A head read on its own says what it says in front of the rest. */
  lemma PeekNeedsNoMore(data: bytes, at: nat)
    requires at + HEADER_LEN <= |data|
    ensures Peek(data[at..at + HEADER_LEN]) == Peek(data[at..])
  {
    hide ToI64, FromBigEndian;
    var all := data[at..];
    assert data[at..at + HEADER_LEN] == all[..HEADER_LEN];
    HeadOfPart(all, HEADER_LEN);
  }

  /** A file to read, and where the next read of it is. A read or a seek fails
      where the script says so, and a read that finds too little fails too. */
  class File {
    const data: bytes
    var position: nat
    var script: seq<bool>

    constructor (data: bytes, script: seq<bool>)
      ensures this.data == data && position == 0
    {
      this.data := data;
      position := 0;
      this.script := script;
    }

    method Works() returns (ok: bool)
      modifies `script
      ensures old(script) == [] ==> ok && script == []
    {
      ok := script == [] || script[0];
      script := if script == [] then [] else script[1..];
    }

    method Rewind() returns (ok: bool)
      modifies this
      ensures ok ==> position == 0
      ensures old(script) == [] ==> ok && script == []
    {
      ok := Works();
      if ok {
        position := 0;
      }
    }

    method ReadExact(n: nat) returns (r: Option<bytes>)
      modifies this
      ensures r.Some? ==>
        old(position) + n <= |data| && r.value == data[old(position)..old(position) + n] && position == old(position) + n
      ensures old(script) == [] ==> script == [] && (r.None? <==> old(position) + n > |data|)
    {
      var ok := Works();
      if !ok || position + n > |data| {
        return None;
      }
      r := Some(data[position..position + n]);
      position := position + n;
    }

    /** A seek past the end is no error. */
    method SeekRelative(n: nat) returns (ok: bool)
      modifies this
      ensures ok ==> position == old(position) + n
      ensures old(script) == [] ==> ok && script == []
    {
      ok := Works();
      if ok {
        position := position + n;
      }
    }
  }

  lemma PeekIsALength(head: bytes)
    ensures Peek(head).Ok? && Peek(head).value.Some? ==> Peek(head).value.value.len > HEADER_LEN
  {
    hide ToI64, UintAt;
  }

  /** A head of an event stands here. */
  ghost predicate HeadAt(data: bytes, at: nat) {
    at + 28 <= |data| && Peek(data[at..]).Ok? && Peek(data[at..]).value.Some?
  }

  /** A walk goes no further from here: at an event that is not before `start`, or
      at the last head, with none where its event ends. */
  ghost predicate WalkEnds(data: bytes, from: nat, start: i64) {
    if HeadAt(data, from) then
      var p := Peek(data[from..]).value.value;
      p.timestamp >= start || !HeadAt(data, from + p.len)
    else from == 0
  }

  /** Walks the heads to the first event at or after `start`. Wherever the walk
      stops, and however the heads lie, a replay from there gives from `start`
      on what a replay of the whole log gives. */
  method SeekBefore(file: File, start: i64, running: Running) returns (from: nat)
    modifies file, running
    ensures SameFrom(file.data, from, start)
    ensures file.position == from
    ensures old(file.script) == [] && old(running.looks).None? ==> WalkEnds(file.data, from, start)
    ensures running.looks.Some? <==> old(running.looks).Some?
    ensures running.looks.Some? ==> running.looks.value <= old(running.looks).value
  {
    hide Replay, Peek, Steady;
    var at := 0;
    from := 0;
    assert file.data[0..] == file.data;
    var ok := file.Rewind();
    if ok {
      while true
        invariant file.position == at && from <= |file.data| && SameFrom(file.data, from, start)
        invariant at == from == 0 || (from + HEADER_LEN <= |file.data|
          && Peek(file.data[from..]).Ok? && Peek(file.data[from..]).value.Some?
          && Peek(file.data[from..]).value.value.timestamp < start
          && at == from + Peek(file.data[from..]).value.value.len)
        invariant old(file.script) == [] ==> file.script == []
        invariant running.looks.Some? <==> old(running.looks).Some?
        invariant running.looks.Some? ==> running.looks.value <= old(running.looks).value
        decreases |file.data| + HEADER_LEN - at
      {
        var on := running.Look();
        if !on {
          break;
        }
        var head := file.ReadExact(HEADER_LEN);
        if head.None? {
          break;
        }
        PeekNeedsNoMore(file.data, at);
        PeekIsALength(head.value);
        var peeked := Peek(head.value);
        if peeked.Err? || peeked.value.None? {
          break;
        }
        if at != from {
          HopReplays(file.data, from, start);
        }
        from := at;
        if peeked.value.value.timestamp >= start {
          break;
        }
        var moved := file.SeekRelative(peeked.value.value.len - HEADER_LEN);
        if !moved {
          break;
        }
        at := at + peeked.value.value.len;
      }
    }
    file.position := from;
  }

  // ---- Reads of a log that is not there whole ------------------------------

  /** What a reader found at a place: an event, or one it stepped over. */
  datatype Mark = Mark(place: nat, event: Option<Event>)

  datatype Marked = Marked(marks: seq<Mark>, end: End)

  function Found(marks: seq<Mark>, m: Marked): Marked {
    Marked(marks + m.marks, m.end)
  }

  /** All a reader finds that has `kept` bytes, from `place` on, and decodes what
      it can before each read of a chunk. */
  ghost function Marks(place: nat, kept: bytes, chunks: seq<bytes>): Marked
    decreases |chunks|, |kept|
  {
    DecodeMoves(kept);
    match Decode(kept)
    case Ok(Item(event, n)) => Found([Mark(place, Some(event))], Marks(place + n, kept[n..], chunks))
    case Ok(Skip(n)) => Found([Mark(place, None)], Marks(place + n, kept[n..], chunks))
    case Err(_) => Marks(place + Slide(kept), kept[Slide(kept)..], chunks)
    case Ok(Need(_)) =>
      if chunks == [] then Marked([], if kept == [] then EndOfLog else TornLog)
      else Marks(place, kept + chunks[0], chunks[1..])
  }

  function EventsOf(marks: seq<Mark>): seq<Event> {
    if marks == [] then []
    else EventsOf(marks[..|marks| - 1]) + if marks[|marks| - 1].event.Some? then [marks[|marks| - 1].event.value] else []
  }

  lemma EventsSnoc(marks: seq<Mark>, one: Mark)
    ensures EventsOf(marks + [one]) == EventsOf(marks) + if one.event.Some? then [one.event.value] else []
  {
    assert (marks + [one])[..|marks|] == marks;
  }

  lemma {:induction false} EventsAppend(a: seq<Mark>, b: seq<Mark>)
    ensures EventsOf(a + b) == EventsOf(a) + EventsOf(b)
  {
    if b == [] {
      assert a + b == a;
    } else {
      var n := |b| - 1;
      EventsAppend(a, b[..n]);
      assert (a + b)[..|a + b| - 1] == a + b[..n];
    }
  }

  lemma NoEvents()
    ensures EventsOf([]) == []
  {
  }

  lemma OneEvent(one: Mark)
    ensures EventsOf([one]) == if one.event.Some? then [one.event.value] else []
  {
    EventsSnoc([], one);
    assert [] + [one] == [one];
  }

  /** With all of the log there, the marks are those of the replay. */
  lemma {:induction false} WholeMarks(place: nat, data: bytes)
    ensures EventsOf(Marks(place, data, []).marks) == Replay(data).events && Marks(place, data, []).end == Replay(data).end
    decreases |data|
  {
    hide Decode, EventsOf;
    DecodeMoves(data);
    match Decode(data)
    case Ok(Item(event, n)) =>
      WholeMarks(place + n, data[n..]);
      EventsAppend([Mark(place, Some(event))], Marks(place + n, data[n..], []).marks);
      OneEvent(Mark(place, Some(event)));
    case Ok(Skip(n)) =>
      WholeMarks(place + n, data[n..]);
      EventsAppend([Mark(place, None)], Marks(place + n, data[n..], []).marks);
      OneEvent(Mark(place, None));
    case Err(_) => WholeMarks(place + Slide(data), data[Slide(data)..]);
    case Ok(Need(_)) => NoEvents();
  }

  // ---- A slide in parts ----------------------------------------------------

  /** The place a slide stops at, said without the search. */
  lemma SlideStops(data: bytes)
    requires data != []
    ensures forall i :: 1 <= i < Slide(data) ==> !SyncAt(data, i)
    ensures (SyncAt(data, Slide(data)) && Slide(data) > 0)
      || (Slide(data) == (if |data| > 3 then |data| - 3 else 0) && (forall i: nat :: 1 <= i ==> !SyncAt(data, i)))
  {
    ResyncIsFirst(data[1..]);
    forall i: nat | 1 <= i
      ensures SyncAt(data, i) <==> SyncAt(data[1..], i - 1)
    {
      SyncAtRest(data, i);
    }
  }

  lemma SyncInRest(data: bytes, q: nat, i: nat)
    requires q <= |data|
    ensures SyncAt(data[q..], i) <==> SyncAt(data, q + i)
  {
    if q + i + 4 <= |data| {
      assert data[q..][i..i + 4] == data[q + i..q + i + 4];
    }
  }

  /** A slide that stopped on its way goes on to the same place. */
  lemma SlideGoesOn(data: bytes, q: nat)
    requires data != [] && 1 <= q < Slide(data)
    ensures q < |data| && Slide(data[q..]) == Slide(data) - q && !SyncAt(data, q)
  {
    hide SyncAt, Slide;
    SlideStops(data);
    var rest := data[q..];
    SlideStops(rest);
    forall i: nat
      ensures SyncAt(rest, i) <==> SyncAt(data, q + i)
    {
      SyncInRest(data, q, i);
    }
    if SyncAt(data, Slide(data)) {
      assert SyncAt(rest, Slide(data) - q);
    }
  }

  /** Where no sync word is, no event is read. */
  lemma NoSyncIsNone(data: bytes)
    requires !SyncAt(data, 0)
    ensures |data| < HEADER_LEN ==> Decode(data) == Ok(Need(HEADER_LEN))
    ensures |data| >= HEADER_LEN ==> Decode(data).Err? && Peek(data).Err?
  {
    hide IsUtf8, CheckChannel, UintAt, ToI64;
    if |data| >= HEADER_LEN {
      IsSync(data, 0);
    }
  }

  lemma SlideLeavesSome(data: bytes)
    requires data != []
    ensures Slide(data) < |data|
  {
    hide Slide;
    SlideStops(data);
  }

  lemma ShortIsTorn(place: nat, data: bytes)
    requires 0 < |data| < HEADER_LEN
    ensures Marks(place, data, []) == Marked([], TornLog)
  {
  }

  /** From anywhere on the way of a slide, what is found is the same. */
  lemma SlideInParts(place: nat, data: bytes, q: nat)
    requires data != [] && 1 <= q <= Slide(data)
    ensures Marks(place + q, data[q..], []) == Marks(place + Slide(data), data[Slide(data)..], [])
    ensures Steady(data[Slide(data)..]) ==> Steady(data[q..])
  {
    hide Decode, Slide, Peek, SyncAt;
    if q < Slide(data) {
      SlideGoesOn(data, q);
      var rest := data[q..];
      SyncInRest(data, q, 0);
      NoSyncIsNone(rest);
      assert rest[Slide(rest)..] == data[Slide(data)..];
      if |rest| < HEADER_LEN {
        SlideLeavesSome(data);
        ShortIsTorn(place + q, rest);
        ShortIsTorn(place + Slide(data), data[Slide(data)..]);
      }
    }
  }

  // ---- Damage ----------------------------------------------------------------

  lemma EventStartsWithSync(event: Event)
    requires Writable(event.frame)
    ensures |Encode(event).value| >= HEADER_LEN && Encode(event).value[..4] == Sync()
  {
    hide FromI64, BigEndian, IsUtf8;
  }

  lemma EventBehind(damage: bytes, event: Event, rest: bytes)
    requires damage != [] && Writable(event.frame)
    requires var data := damage + (Encode(event).value + rest);
      forall i :: 0 <= i < |damage| ==> !SyncAt(data, i)
    ensures var data := damage + (Encode(event).value + rest);
      Decode(data).Err? && Slide(data) == |damage| && data[|damage|..] == Encode(event).value + rest
  {
    hide Encode, Decode, Slide, Writable;
    var data := damage + (Encode(event).value + rest);
    EventStartsWithSync(event);
    assert data[|damage|..|damage| + 4] == Encode(event).value[..4];
    assert SyncAt(data, |damage|);
    SlideStops(data);
    NoSyncIsNone(data);
  }

  /** Bytes that are no event cost themselves: whatever they are, the event at the
      next sync word is found, and the replay goes on behind it. */
  lemma DamageCostsItself(damage: bytes, event: Event, rest: bytes)
    requires Writable(event.frame) && Follows(rest)
    requires var data := damage + (Encode(event).value + rest);
      forall i :: 0 <= i < |damage| ==> !SyncAt(data, i)
    ensures Replay(damage + (Encode(event).value + rest)) == Behind([event], Replay(rest))
  {
    hide Encode, Decode, Slide, Writable, Follows, SyncAt;
    var written := Encode(event).value;
    EventRoundTrip(event, rest);
    EventStartsWithSync(event);
    assert (written + rest)[|written|..] == rest;
    if damage == [] {
      assert damage + (written + rest) == written + rest;
    } else {
      EventBehind(damage, event, rest);
    }
  }

  /** An event that is stepped over costs itself too. */
  lemma SkipCostsItself(data: bytes, n: nat)
    requires Decode(data) == Ok(Skip(n))
    ensures n <= |data| && Replay(data) == Replay(data[n..])
  {
    hide Decode, Slide;
    DecodeMoves(data);
  }

  // ---- Where the split of the reads does not matter ------------------------

  lemma RefusedIsDoubtful(data: bytes, more: bytes, n: nat)
    requires Length(data) == Some(n)
    requires |data| - n < 4 && n <= |data| && !Follows(data[n..] + more)
    ensures Doubtful(data + more)
  {
    hide IsUtf8, CheckChannel, UintAt, ToI64;
    var all := data + more;
    assert all[..|data|] == data;
    HeadOfPart(all, |data|);
    assert all[n..] == data[n..] + more;
    assert all[n..n + 4] == all[n..][..4];
  }

  /** What was decoded of a part is what is decoded of the whole, or the whole
      has an event there that is refused for what stands behind it. */
  lemma PartDecides(kept: bytes, more: bytes, n: nat)
    requires Length(kept) == Some(n) && !Doubtful(kept + more)
    ensures 0 < n <= |kept| && Decode(kept + more) == Decode(kept) && (kept + more)[n..] == kept[n..] + more
  {
    hide Decode, Peek;
    DecodeMoves(kept);
    MoreBytesDecide(kept, more, n);
    if Decode(kept + more) != Decode(kept) {
      RefusedIsDoubtful(kept, more, n);
    }
  }

  /** What cannot be read stays so, whatever comes behind it. */
  lemma ErrStays(data: bytes, more: bytes)
    requires Decode(data).Err?
    ensures Decode(data + more).Err?
  {
    hide IsUtf8, CheckChannel, UintAt, ToI64;
    var all := data + more;
    assert all[..|data|] == data;
    HeadOfPart(all, |data|);
    var event := HEADER_LEN + UintAt(data, 20, 4) + UintAt(data, 24, 4);
    if event + 4 <= |data| {
      assert all[event..event + 4] == data[event..event + 4];
    }
  }

  /** A slide over a part is a slide over the whole, or a part of one. */
  lemma PartSlides(kept: bytes, more: bytes)
    requires Decode(kept).Err?
    ensures 0 < Slide(kept) <= Slide(kept + more) && Slide(kept) <= |kept|
    ensures (kept + more)[Slide(kept)..] == kept[Slide(kept)..] + more
  {
    hide Decode, Slide;
    DecodeMoves(kept);
    var all := kept + more;
    SlideStops(kept);
    SlideStops(all);
    SlideLeavesSome(kept);
    if SyncAt(all, Slide(all)) && Slide(all) < |kept| {
      SlideStopsAtSync(kept, more, Slide(all));
    }
  }

  lemma SlideOnce(place: nat, kept: bytes, chunks: seq<bytes>)
    requires Decode(kept).Err?
    ensures kept != [] && 0 < Slide(kept) <= |kept|
    ensures Marks(place, kept, chunks) == Marks(place + Slide(kept), kept[Slide(kept)..], chunks)
    ensures Steady(kept) ==> Steady(kept[Slide(kept)..])
  {
    hide Decode, Slide, Doubtful;
    DecodeMoves(kept);
  }

  lemma SteadyIsNotDoubtful(data: bytes)
    requires Steady(data)
    ensures !Doubtful(data)
  {
  }

  lemma {:induction false} SteadySlides(place: nat, kept: bytes, chunks: seq<bytes>)
    requires Decode(kept).Err? && Steady(kept + Flat(chunks))
    ensures Marks(place, kept, chunks) == Marks(place, kept + Flat(chunks), [])
    decreases |chunks|, |kept|, 0
  {
    hide Decode, Slide, Doubtful, Marks, Steady;
    var more := Flat(chunks);
    var all := kept + more;
    ErrStays(kept, more);
    PartSlides(kept, more);
    SlideOnce(place, kept, chunks);
    SlideOnce(place, all, []);
    SlideInParts(place, all, Slide(kept));
    SteadyMarks(place + Slide(kept), kept[Slide(kept)..], chunks);
  }

  /** Where the whole of what is left is steady, its split is of no account. */
  lemma {:induction false} SteadyMarks(place: nat, kept: bytes, chunks: seq<bytes>)
    requires Steady(kept + Flat(chunks))
    ensures Marks(place, kept, chunks) == Marks(place, kept + Flat(chunks), [])
    decreases |chunks|, |kept|
  {
    hide Decode, Slide, Doubtful;
    var more := Flat(chunks);
    var all := kept + more;
    DecodeMoves(kept);
    match Decode(kept)
    case Ok(Item(event, n)) =>
      SteadyIsNotDoubtful(all);
      PartDecides(kept, more, n);
      SteadyMarks(place + n, kept[n..], chunks);
    case Ok(Skip(n)) =>
      SteadyIsNotDoubtful(all);
      PartDecides(kept, more, n);
      SteadyMarks(place + n, kept[n..], chunks);
    case Err(_) => SteadySlides(place, kept, chunks);
    case Ok(Need(_)) =>
      if chunks == [] {
        assert kept + more == kept;
      } else {
        assert kept + chunks[0] + Flat(chunks[1..]) == all;
        SteadyMarks(place, kept + chunks[0], chunks[1..]);
      }
  }

  // ---- Where it does -------------------------------------------------------

  /** With fewer bytes behind it, what was taken or stepped over still is. */
  lemma FewerBytesTake(data: bytes, c: nat, n: nat)
    requires Length(data) == Some(n) && n <= c <= |data|
    ensures Decode(data[..c]) == Decode(data) && data[..c][n..] == data[n..][..c - n]
  {
    hide IsUtf8, CheckChannel, UintAt, ToI64;
    DecodeMoves(data);
    var part := data[..c];
    HeadOfPart(data, c);
    assert part[4..12] == data[4..12];
    var named := HEADER_LEN + UintAt(data, 20, 4);
    assert part[HEADER_LEN..named] == data[HEADER_LEN..named] && part[named..n] == data[named..n];
    if c - n >= 4 {
      assert part[n..n + 4] == data[n..n + 4];
    }
  }

  /** The doubtful event, with nothing behind it, is taken or stepped over. */
  lemma DoubtfulAlone(data: bytes) returns (n: nat)
    requires Doubtful(data)
    ensures HEADER_LEN < n <= |data| && Length(data[..n]) == Some(n)
  {
    hide IsUtf8, CheckChannel, UintAt, ToI64;
    n := Peek(data).value.value.len;
    HeadOfPart(data, n);
  }

  /** A head that cannot be read is refused in front of any bytes. */
  lemma BadHeadStays(data: bytes, c: nat)
    requires Decode(data).Err? && !Doubtful(data) && HEADER_LEN <= c <= |data|
    ensures Decode(data[..c]).Err?
  {
    hide IsUtf8, CheckChannel, UintAt, ToI64;
    HeadOfPart(data, c);
  }

  lemma SlideOfPart(data: bytes, c: nat)
    requires data != [] && SyncAt(data, Slide(data)) && Slide(data) > 0 && Slide(data) + 4 <= c <= |data|
    ensures Slide(data[..c]) == Slide(data)
  {
    hide Slide;
    var part := data[..c];
    SlideStops(data);
    SlideStops(part);
    forall i: nat | i + 4 <= c
      ensures SyncAt(part, i) <==> SyncAt(data, i)
    {
      assert part[i..i + 4] == data[i..i + 4];
    }
  }

  /** A slide that finds no sync word leaves too little to be an event. */
  lemma NoSyncIsSteady(data: bytes)
    requires data != [] && !(SyncAt(data, Slide(data)) && Slide(data) > 0)
    ensures Steady(data[Slide(data)..])
  {
    hide Slide, IsUtf8, CheckChannel;
    SlideStops(data);
    if |data| <= 3 {
      assert data[0..] == data;
    }
  }

  /** Marks are at the place a reader starts from, or behind it. */
  lemma {:induction false} MarksAreBehind(place: nat, kept: bytes, chunks: seq<bytes>)
    ensures forall i :: 0 <= i < |Marks(place, kept, chunks).marks| ==> Marks(place, kept, chunks).marks[i].place >= place
    decreases |chunks|, |kept|
  {
    hide Decode, Slide;
    DecodeMoves(kept);
    match Decode(kept)
    case Ok(Item(_, n)) => MarksAreBehind(place + n, kept[n..], chunks);
    case Ok(Skip(n)) => MarksAreBehind(place + n, kept[n..], chunks);
    case Err(_) => MarksAreBehind(place + Slide(kept), kept[Slide(kept)..], chunks);
    case Ok(Need(_)) =>
      if chunks != [] {
        MarksAreBehind(place, kept + chunks[0], chunks[1..]);
      }
  }

  lemma DoubtfulIsErr(data: bytes)
    requires Doubtful(data)
    ensures Decode(data).Err?
  {
  }

  lemma TakenIsMarked(place: nat, kept: bytes, chunks: seq<bytes>)
    requires Length(kept).Some?
    ensures Marks(place, kept, chunks).marks != [] && Marks(place, kept, chunks).marks[0].place == place
    ensures Decode(kept).value.Item? ==> Marks(place, kept, chunks).marks[0].event == Some(Decode(kept).value.item)
  {
    hide Decode;
  }

  /** A read that ends with the doubtful event finds it, and one of all that is
      there does not. */
  lemma DoubtfulDiffers(place: nat, data: bytes) returns (c: nat)
    requires Doubtful(data)
    ensures HEADER_LEN < c <= |data| && Marks(place, data[..c], [data[c..]]) != Marks(place, data, [])
  {
    hide Decode, Slide, Doubtful;
    c := DoubtfulAlone(data);
    DoubtfulIsErr(data);
    DecodeMoves(data);
    MarksAreBehind(place + Slide(data), data[Slide(data)..], []);
    TakenIsMarked(place, data[..c], [data[c..]]);
  }

  /** Behind the same mark, what differs differs. */
  lemma DiffersBehind(place: nat, data: bytes, c: nat, n: nat)
    requires Length(data) == Some(n) && n <= c <= |data|
    requires Marks(place + n, data[n..][..c - n], [data[n..][c - n..]]) != Marks(place + n, data[n..], [])
    ensures Marks(place, data[..c], [data[c..]]) != Marks(place, data, [])
  {
    hide Decode;
    FewerBytesTake(data, c, n);
    assert data[n..][c - n..] == data[c..];
    var one := [Mark(place, match Decode(data) case Ok(Item(event, _)) => Some(event) case _ => None)];
    var a, b := Marks(place + n, data[n..][..c - n], [data[c..]]), Marks(place + n, data[n..], []);
    if one + a.marks == one + b.marks {
      assert a.marks == (one + a.marks)[1..] == (one + b.marks)[1..] == b.marks;
    }
  }

  lemma DiffersBehindSlide(place: nat, data: bytes, c: nat)
    requires Decode(data).Err? && !Doubtful(data) && Slide(data) + HEADER_LEN <= c <= |data|
    requires 0 < Slide(data) && SyncAt(data, Slide(data))
    requires var p := Slide(data);
      Marks(place + p, data[p..][..c - p], [data[p..][c - p..]]) != Marks(place + p, data[p..], [])
    ensures Marks(place, data[..c], [data[c..]]) != Marks(place, data, [])
  {
    hide Decode, Slide, Doubtful;
    var p := Slide(data);
    BadHeadStays(data, c);
    SlideOfPart(data, c);
    assert data[p..][c - p..] == data[c..] && data[..c][p..] == data[p..][..c - p];
  }

  /** Where a replay of the whole comes to a doubtful event, there is a split of
      the log into two reads that is told from one read of it all. */
  lemma {:induction false} UnsteadyDiffers(place: nat, data: bytes) returns (c: nat)
    requires !Steady(data)
    ensures HEADER_LEN < c <= |data| && Marks(place, data[..c], [data[c..]]) != Marks(place, data, [])
    decreases |data|
  {
    hide Decode, Slide, Doubtful, Marks;
    DecodeMoves(data);
    if Doubtful(data) {
      c := DoubtfulDiffers(place, data);
    } else {
      match Decode(data)
      case Ok(Item(_, n)) =>
        c := UnsteadyDiffers(place + n, data[n..]);
        c := c + n;
        DiffersBehind(place, data, c, n);
      case Ok(Skip(n)) =>
        c := UnsteadyDiffers(place + n, data[n..]);
        c := c + n;
        DiffersBehind(place, data, c, n);
      case Err(_) =>
        if !(SyncAt(data, Slide(data)) && Slide(data) > 0) {
          NoSyncIsSteady(data);
        }
        c := UnsteadyDiffers(place + Slide(data), data[Slide(data)..]);
        c := c + Slide(data);
        DiffersBehindSlide(place, data, c);
    }
  }

  lemma TwoChunks(data: bytes, c: nat)
    requires c <= |data|
    ensures Flat([data[..c], data[c..]]) == data
  {
    var chunks: seq<bytes> := [data[..c], data[c..]];
    assert chunks[1..] == [data[c..]] && chunks[1..][1..] == [];
    assert Flat(chunks[1..]) == data[c..] + Flat(chunks[1..][1..]) == data[c..] + [] == data[c..];
  }

  lemma FirstRead(place: nat, chunks: seq<bytes>)
    requires chunks != []
    ensures Marks(place, [], chunks) == Marks(place, chunks[0], chunks[1..])
  {
    assert Decode([]) == Ok(Need(HEADER_LEN));
    assert [] + chunks[0] == chunks[0];
  }

  /** However a log is split into reads, a reader finds what it finds in one read
      of it all, if and only if that one read comes to no event that is there
      whole and is refused for what stands behind it. */
  lemma SplitsDoNotMatter(place: nat, data: bytes)
    ensures Steady(data) <==> forall chunks :: Flat(chunks) == data ==> Marks(place, [], chunks) == Marks(place, data, [])
  {
    hide Steady, Marks, Flat;
    if Steady(data) {
      forall chunks | Flat(chunks) == data
        ensures Marks(place, [], chunks) == Marks(place, data, [])
      {
        assert [] + Flat(chunks) == data;
        SteadyMarks(place, [], chunks);
      }
    } else {
      var c := UnsteadyDiffers(place, data);
      var chunks := [data[..c], data[c..]];
      TwoChunks(data, c);
      FirstRead(place, chunks);
      assert chunks[1..] == [data[c..]];
      assert Flat(chunks) == data && Marks(place, [], chunks) != Marks(place, data, []);
    }
  }

  lemma NothingFollows()
    ensures Follows([])
  {
  }

  /** Any event makes such a log, with four bytes behind it that are no sync word:
      read up to there it is found, and read in one go it is not. */
  lemma NotEveryLogIsSteady(event: Event, behind: bytes)
    requires Writable(event.frame) && !Follows(behind)
    ensures var written := Encode(event).value;
      && !Steady(written + behind)
      && Marks(0, [], [written, behind]).marks != [] && Marks(0, [], [written, behind]).marks[0] == Mark(0, Some(event))
      && forall i :: 0 <= i < |Marks(0, written + behind, []).marks| ==> Marks(0, written + behind, []).marks[i].place > 0
  {
    hide Decode, Peek, Encode, Writable, Marks, Slide, Doubtful, Follows;
    var written := Encode(event).value;
    assert written + [] == written;
    NothingFollows();
    EventRoundTrip(event, []);
    EventRoundTrip(event, behind);
    if Steady(written + behind) {
      SteadyIsNotDoubtful(written + behind);
      PartDecides(written, behind, |written|);
    }
    FirstRead(0, [written, behind]);
    assert [written, behind][1..] == [behind];
    TakenIsMarked(0, written, [behind]);
    SlideOnce(0, written + behind, []);
    MarksAreBehind(Slide(written + behind), (written + behind)[Slide(written + behind)..], []);
  }

  // ---- What is handed over -------------------------------------------------

  /** The events on channels that are wanted, by the rules as they are at the
      look for each: the first is look `n`. */
  function Wanted(wants: (nat, str) -> bool, n: nat, events: seq<Event>): seq<Event>
    decreases |events|
  {
    if events == [] then []
    else (if wants(n, events[0].frame.channel) then [events[0]] else []) + Wanted(wants, n + 1, events[1..])
  }

  /** The events whose channel is looked up: those from the start on. */
  function Asked(start: Option<i64>, events: seq<Event>): seq<Event> {
    match start
    case None => events
    case Some(t) => From(t, events)
  }

  /** The events a replay hands over. */
  function HandedOver(start: Option<i64>, wants: (nat, str) -> bool, events: seq<Event>): seq<Event> {
    Wanted(wants, 0, Asked(start, events))
  }

  lemma {:induction false} WantedAppend(wants: (nat, str) -> bool, n: nat, a: seq<Event>, b: seq<Event>)
    ensures Wanted(wants, n, a + b) == Wanted(wants, n, a) + Wanted(wants, n + |a|, b)
    decreases |a|
  {
    hide IsUtf8;
    if a == [] {
      assert a + b == b;
    } else {
      WantedAppend(wants, n + 1, a[1..], b);
      assert a + b == [a[0]] + (a[1..] + b);
      var first := if wants(n, a[0].frame.channel) then [a[0]] else [];
      var x, y := Wanted(wants, n + 1, a[1..]), Wanted(wants, n + |a|, b);
      assert first + (x + y) == (first + x) + y;
    }
  }

  lemma AskedAppend(start: Option<i64>, a: seq<Event>, b: seq<Event>)
    ensures Asked(start, a + b) == Asked(start, a) + Asked(start, b)
  {
    if start.Some? {
      FromAppend(start.value, a, b);
    }
  }

  /** What is handed over of the front of a log is the front of what is. */
  lemma HandedOverFront(start: Option<i64>, wants: (nat, str) -> bool, a: seq<Event>, b: seq<Event>)
    ensures HandedOver(start, wants, a) <= HandedOver(start, wants, a + b)
  {
    hide Asked, Wanted;
    AskedAppend(start, a, b);
    WantedAppend(wants, 0, Asked(start, a), Asked(start, b));
  }

  lemma HandedOverIs(start: Option<i64>, wants: (nat, str) -> bool, events: seq<Event>)
    ensures HandedOver(start, wants, events) == Wanted(wants, 0, Asked(start, events))
  {
  }

  lemma AskedOne(start: Option<i64>, event: Event)
    ensures Asked(start, [event]) == if start.None? || event.timestamp >= start.value then [event] else []
  {
    assert [event][1..] == [];
    if start.Some? {
      assert From(start.value, [event]) == (if event.timestamp >= start.value then [event] else []) + From(start.value, []);
    }
  }

  lemma HandedOverOne(start: Option<i64>, wants: (nat, str) -> bool, seen: seq<Event>, event: Event)
    ensures var asked := start.None? || event.timestamp >= start.value;
      && Asked(start, seen + [event]) == Asked(start, seen) + (if asked then [event] else [])
      && HandedOver(start, wants, seen + [event]) == HandedOver(start, wants, seen) +
           if asked && wants(|Asked(start, seen)|, event.frame.channel) then [event] else []
  {
    AskedAppend(start, seen, [event]);
    WantedAppend(wants, 0, Asked(start, seen), Asked(start, [event]));
    AskedOne(start, event);
    hide Asked, HandedOver;
    var n := |Asked(start, seen)|;
    assert Wanted(wants, n, [event]) == if wants(n, event.frame.channel) then [event] else [] by {
      assert [event][1..] == [] && Wanted(wants, n + 1, []) == [];
    }
    assert Wanted(wants, n, []) == [];
    HandedOverIs(start, wants, seen);
    HandedOverIs(start, wants, seen + [event]);
  }

  // ---- The bytes of an event -----------------------------------------------

  /** The bytes of an event stand at `place`, and end by `bound`. */
  ghost predicate Stands(all: bytes, event: Event, place: nat, bound: nat) {
    && Writable(event.frame)
    && var written := Encode(event).value;
       place + |written| <= bound <= |all| && all[place..place + |written|] == written
  }

  /** Where the next mark is, or the end of what was read. */
  function NextPlace(marks: seq<Mark>, i: nat, upto: nat): nat {
    if i + 1 < |marks| then marks[i + 1].place else upto
  }

  /** Each event found is the bytes it is written as, at its place, and the marks
      follow each other and end by `upto`. */
  ghost predicate Sits(all: bytes, marks: seq<Mark>, upto: nat) {
    && upto <= |all|
    && forall i :: 0 <= i < |marks| ==>
      && marks[i].place < NextPlace(marks, i, upto)
      && (marks[i].event.Some? ==> Stands(all, marks[i].event.value, marks[i].place, NextPlace(marks, i, upto)))
  }

  lemma StandsLonger(all: bytes, event: Event, place: nat, bound: nat, later: nat)
    requires Stands(all, event, place, bound) && bound <= later <= |all|
    ensures Stands(all, event, place, later)
  {
    hide Encode, Writable;
  }

  lemma SitsMore(all: bytes, marks: seq<Mark>, upto: nat, later: nat)
    requires Sits(all, marks, upto) && upto <= later <= |all|
    ensures Sits(all, marks, later)
  {
    hide Stands;
    forall i | 0 <= i < |marks|
      ensures marks[i].place < NextPlace(marks, i, later)
      ensures marks[i].event.Some? ==> Stands(all, marks[i].event.value, marks[i].place, NextPlace(marks, i, later))
    {
      if i + 1 == |marks| && marks[i].event.Some? {
        StandsLonger(all, marks[i].event.value, marks[i].place, upto, later);
      }
    }
  }

  lemma SitsOne(all: bytes, marks: seq<Mark>, at: nat, one: Mark, n: nat)
    requires Sits(all, marks, at) && one.place == at && n > 0 && at + n <= |all|
    requires one.event.Some? ==> Stands(all, one.event.value, at, at + n)
    ensures Sits(all, marks + [one], at + n)
  {
    hide Stands;
    var more := marks + [one];
    forall i | 0 <= i < |more|
      ensures more[i].place < NextPlace(more, i, at + n)
      ensures more[i].event.Some? ==> Stands(all, more[i].event.value, more[i].place, NextPlace(more, i, at + n))
    {
      if i < |marks| {
        assert more[i] == marks[i] && NextPlace(more, i, at + n) == NextPlace(marks, i, at);
      }
    }
  }

  lemma ItemStands(all: bytes, at: nat, unread: bytes, event: Event, n: nat)
    requires at <= |all| && unread <= all[at..] && Decode(unread) == Ok(Item(event, n))
    ensures 0 < n <= |unread| && at + n <= |all| && Stands(all, event, at, at + n)
  {
    DecodedIsEncoded(unread, event, n);
    assert all[at..at + n] == unread[..n];
  }

  // ---- How far a reader came -----------------------------------------------

  /** Behind the reads `done`, from `from` on, the reader found `marks` and has
      the bytes `kept` left, which stand at `place`: whatever the next reads
      bring, it goes on from there. */
  ghost predicate Came(from: nat, done: seq<bytes>, marks: seq<Mark>, place: nat, kept: bytes) {
    forall more :: Marks(from, [], done + more) == Found(marks, Marks(place, kept, more))
  }

  lemma CameStart(from: nat)
    ensures Came(from, [], [], from, [])
  {
    hide Marks;
    forall more
      ensures Marks(from, [], [] + more) == Found([], Marks(from, [], more))
    {
      assert [] + more == more;
      assert [] + Marks(from, [], more).marks == Marks(from, [], more).marks;
    }
  }

  /** What one decode of the bytes that are here adds. */
  ghost predicate CameNext(from: nat, done: seq<bytes>, marks: seq<Mark>, place: nat, kept: bytes) {
    match Decode(kept)
    case Ok(Item(event, n)) => 0 < n <= |kept| && Came(from, done, marks + [Mark(place, Some(event))], place + n, kept[n..])
    case Ok(Skip(n)) => 0 < n <= |kept| && Came(from, done, marks + [Mark(place, None)], place + n, kept[n..])
    case Err(_) => 0 < Slide(kept) <= |kept| && Came(from, done, marks, place + Slide(kept), kept[Slide(kept)..])
    case Ok(Need(_)) => Marks(from, [], done) == Marked(marks, if kept == [] then EndOfLog else TornLog)
  }

  lemma MarksUnfold(place: nat, kept: bytes, more: seq<bytes>)
    ensures match Decode(kept)
      case Ok(Item(event, n)) =>
        0 < n <= |kept| && Marks(place, kept, more) == Found([Mark(place, Some(event))], Marks(place + n, kept[n..], more))
      case Ok(Skip(n)) =>
        0 < n <= |kept| && Marks(place, kept, more) == Found([Mark(place, None)], Marks(place + n, kept[n..], more))
      case Err(_) =>
        0 < Slide(kept) <= |kept| && Marks(place, kept, more) == Marks(place + Slide(kept), kept[Slide(kept)..], more)
      case Ok(Need(_)) =>
        Marks(place, kept, more) ==
          if more == [] then Marked([], if kept == [] then EndOfLog else TornLog)
          else Marks(place, kept + more[0], more[1..])
  {
    hide Decode, Slide;
    DecodeMoves(kept);
  }

  lemma FoundFound(a: seq<Mark>, b: seq<Mark>, m: Marked)
    ensures Found(a, Found(b, m)) == Found(a + b, m)
  {
    assert a + (b + m.marks) == (a + b) + m.marks;
  }

  lemma FoundNothing(marks: seq<Mark>, end: End)
    ensures Found(marks, Marked([], end)) == Marked(marks, end)
  {
    assert marks + [] == marks;
  }

  lemma CameFound(from: nat, done: seq<bytes>, marks: seq<Mark>, place: nat, kept: bytes, one: Mark, n: nat)
    requires Came(from, done, marks, place, kept) && Length(kept) == Some(n) && n <= |kept|
    requires one == Mark(place, match Decode(kept) case Ok(Item(event, _)) => Some(event) case _ => None)
    ensures Came(from, done, marks + [one], place + n, kept[n..])
  {
    hide Decode, Slide, Marks, Found;
    forall more
      ensures Marks(from, [], done + more) == Found(marks + [one], Marks(place + n, kept[n..], more))
    {
      MarksUnfold(place, kept, more);
      FoundFound(marks, [one], Marks(place + n, kept[n..], more));
    }
  }

  lemma CameOne(from: nat, done: seq<bytes>, marks: seq<Mark>, place: nat, kept: bytes)
    requires Came(from, done, marks, place, kept)
    ensures CameNext(from, done, marks, place, kept)
  {
    hide Decode, Slide, Marks, Found;
    MarksUnfold(place, kept, []);
    match Decode(kept)
    case Ok(Item(event, n)) => CameFound(from, done, marks, place, kept, Mark(place, Some(event)), n);
    case Ok(Skip(n)) => CameFound(from, done, marks, place, kept, Mark(place, None), n);
    case Err(_) =>
      forall more
        ensures Marks(from, [], done + more) == Found(marks, Marks(place + Slide(kept), kept[Slide(kept)..], more))
      {
        MarksUnfold(place, kept, more);
      }
    case Ok(Need(_)) =>
      assert done + [] == done;
      FoundNothing(marks, if kept == [] then EndOfLog else TornLog);
  }

  /** A read that brings a chunk. */
  lemma CameRead(from: nat, done: seq<bytes>, marks: seq<Mark>, place: nat, kept: bytes, chunk: bytes)
    requires Came(from, done, marks, place, kept) && Decode(kept).Ok? && Decode(kept).value.Need?
    ensures Came(from, done + [chunk], marks, place, kept + chunk)
  {
    hide Decode, Marks, Found;
    forall more
      ensures Marks(from, [], done + [chunk] + more) == Found(marks, Marks(place, kept + chunk, more))
    {
      assert done + [chunk] + more == done + ([chunk] + more);
      MarksUnfold(place, kept, [chunk] + more);
      assert ([chunk] + more)[1..] == more;
    }
  }

  /** Of a steady log, what was found so far is the front of what a replay of the
      whole finds. */
  lemma CameIsFront(data: bytes, from: nat, done: seq<bytes>, marks: seq<Mark>, place: nat, kept: bytes, rest: bytes)
    requires Came(from, done, marks, place, kept) && Flat(done) + rest == data && Steady(data)
    ensures EventsOf(marks) <= Replay(data).events
  {
    hide Marks, Steady, Replay, EventsOf;
    assert Flat(done + [rest]) == data by {
      FlatSnoc(done, rest);
    }
    assert [] + Flat(done + [rest]) == data;
    SteadyMarks(from, [], done + [rest]);
    WholeMarks(from, data);
    EventsAppend(marks, Marks(place, kept, [rest]).marks);
  }

  /** And where the reader came to the end, it is all of it. */
  lemma CameIsAll(data: bytes, from: nat, done: seq<bytes>, marks: seq<Mark>, end: End)
    requires Marks(from, [], done) == Marked(marks, end) && Flat(done) == data && Steady(data)
    ensures Replay(data) == Replayed(EventsOf(marks), end)
  {
    hide Marks, Steady, Replay, EventsOf;
    assert [] + Flat(done) == data;
    SteadyMarks(from, [], done);
    WholeMarks(from, data);
  }

  datatype LogStop = AtEnd(end: End) | Broke

  /** What a replay of the whole file gives, in terms of what it stopped on. */
  ghost predicate Gave(data: bytes, start: Option<i64>, wants: (nat, str) -> bool, delivered: seq<Event>, stop: Option<LogStop>) {
    var all := HandedOver(start, wants, Replay(data).events);
    match stop
    case Some(AtEnd(end)) => delivered == all && end == Replay(data).end
    case _ => delivered <= all
  }

  /** A replay may start here. */
  ghost predicate StartsAt(data: bytes, from: nat, start: Option<i64>) {
    match start
    case None => from == 0
    case Some(t) => SameFrom(data, from, t)
  }

  lemma GaveFromThere(data: bytes, at: nat, start: Option<i64>, wants: (nat, str) -> bool, seen: seq<Event>, stop: Option<LogStop>)
    requires at <= |data| && StartsAt(data, at, start) && Steady(data)
    requires seen <= Replay(data[at..]).events
    requires stop.Some? && stop.value.AtEnd? ==> Replay(data[at..]) == Replayed(seen, stop.value.end)
    ensures Gave(data, start, wants, HandedOver(start, wants, seen), stop)
  {
    hide Replay, Steady, Wanted, From;
    assert at == 0 ==> data[at..] == data;
    var events := Replay(data[at..]).events;
    assert events == seen + events[|seen|..];
    HandedOverFront(start, wants, seen, events[|seen|..]);
  }

  /** Where a replay is: the reads it made, what it found, what it handed over,
      and the bytes it has and has not read yet. */
  datatype Progress = Progress(done: seq<bytes>, marks: seq<Mark>, delivered: seq<Event>, kept: bytes, rest: bytes)

  ghost predicate Goes(data: bytes, from: nat, start: Option<i64>, wants: (nat, str) -> bool, p: Progress) {
    && from <= |data| && Flat(p.done) + p.rest == data[from..]
    && |p.kept + p.rest| <= |data| - from && p.kept + p.rest == data[|data| - |p.kept + p.rest|..]
    && Came(from, p.done, p.marks, |data| - |p.kept + p.rest|, p.kept)
    && Sits(data, p.marks, |data| - |p.kept + p.rest|)
    && p.delivered == HandedOver(start, wants, EventsOf(p.marks))
  }

  lemma GoesStart(data: bytes, from: nat, start: Option<i64>, wants: (nat, str) -> bool)
    requires from <= |data|
    ensures Goes(data, from, start, wants, Progress([], [], [], [], data[from..]))
  {
    hide Came;
    CameStart(from);
    assert [] + data[from..] == data[from..];
    if start.Some? {
      assert From(start.value, []) == [];
    }
  }

  lemma GoesOverItem(data: bytes, from: nat, start: Option<i64>, wants: (nat, str) -> bool, p: Progress, event: Event, n: nat,
                     more: seq<Event>) returns (q: Progress)
    requires Goes(data, from, start, wants, p) && Decode(p.kept) == Ok(Item(event, n))
    requires more == HandedOver(start, wants, EventsOf(p.marks) + [event])
    ensures n <= |p.kept| && Goes(data, from, start, wants, q)
    ensures q.done == p.done && q.kept == p.kept[n..] && q.rest == p.rest && q.delivered == more
    ensures |q.marks| == |p.marks| + 1 && EventsOf(q.marks) == EventsOf(p.marks) + [event]
  {
    hide Decode, Came, Sits, HandedOver, EventsOf, Stands;
    var place := |data| - |p.kept + p.rest|;
    var one := Mark(place, Some(event));
    CameOne(from, p.done, p.marks, place, p.kept);
    ItemStands(data, place, p.kept, event, n);
    SitsOne(data, p.marks, place, one, n);
    EventsSnoc(p.marks, one);
    assert p.kept[n..] + p.rest == (p.kept + p.rest)[n..];
    q := Progress(p.done, p.marks + [one], more, p.kept[n..], p.rest);
  }

  lemma GoesOverSkip(data: bytes, from: nat, start: Option<i64>, wants: (nat, str) -> bool, p: Progress, n: nat)
    returns (q: Progress)
    requires Goes(data, from, start, wants, p) && Decode(p.kept) == Ok(Skip(n))
    ensures n <= |p.kept| && Goes(data, from, start, wants, q)
    ensures q.done == p.done && q.kept == p.kept[n..] && q.rest == p.rest && q.delivered == p.delivered
    ensures |q.marks| == |p.marks| + 1 && EventsOf(q.marks) == EventsOf(p.marks)
  {
    hide Decode, Came, Sits, HandedOver, EventsOf, Stands;
    var place := |data| - |p.kept + p.rest|;
    var one := Mark(place, None);
    CameOne(from, p.done, p.marks, place, p.kept);
    SitsOne(data, p.marks, place, one, n);
    EventsSnoc(p.marks, one);
    assert EventsOf(p.marks) + [] == EventsOf(p.marks);
    assert p.kept[n..] + p.rest == (p.kept + p.rest)[n..];
    q := Progress(p.done, p.marks + [one], p.delivered, p.kept[n..], p.rest);
  }

  lemma GoesOverSlide(data: bytes, from: nat, start: Option<i64>, wants: (nat, str) -> bool, p: Progress) returns (q: Progress)
    requires Goes(data, from, start, wants, p) && Decode(p.kept).Err?
    ensures 0 < Slide(p.kept) <= |p.kept| && Goes(data, from, start, wants, q)
    ensures q == p.(kept := p.kept[Slide(p.kept)..])
  {
    hide Decode, Slide, Came, Sits, HandedOver, EventsOf;
    var place := |data| - |p.kept + p.rest|;
    CameOne(from, p.done, p.marks, place, p.kept);
    var n := Slide(p.kept);
    SitsMore(data, p.marks, place, place + n);
    assert p.kept[n..] + p.rest == (p.kept + p.rest)[n..];
    q := p.(kept := p.kept[n..]);
  }

  lemma GoesOverRead(data: bytes, from: nat, start: Option<i64>, wants: (nat, str) -> bool, p: Progress, chunk: bytes, rest: bytes)
    returns (q: Progress)
    requires Goes(data, from, start, wants, p) && Decode(p.kept).Ok? && Decode(p.kept).value.Need? && p.rest == chunk + rest
    ensures Goes(data, from, start, wants, q)
    ensures q == p.(done := p.done + [chunk], kept := p.kept + chunk, rest := rest)
  {
    hide Decode, Came, Sits, HandedOver, EventsOf;
    CameRead(from, p.done, p.marks, |data| - |p.kept + p.rest|, p.kept, chunk);
    FlatSnoc(p.done, chunk);
    assert Flat(p.done) + chunk + rest == Flat(p.done) + (chunk + rest);
    assert p.kept + chunk + rest == p.kept + (chunk + rest);
    q := p.(done := p.done + [chunk], kept := p.kept + chunk, rest := rest);
  }

  /** A stop at the end is one with nothing left to read, and no event here. */
  ghost predicate Stopped(p: Progress, stop: Option<LogStop>) {
    stop.Some? && stop.value.AtEnd? ==>
      && p.rest == [] && Decode(p.kept).Ok? && Decode(p.kept).value.Need?
      && stop.value.end == if p.kept == [] then EndOfLog else TornLog
  }

  lemma SteadyFromThere(data: bytes, from: nat, start: Option<i64>)
    requires from <= |data| && StartsAt(data, from, start) && Steady(data)
    ensures Steady(data[from..])
  {
    hide Steady, Replay;
    assert from == 0 ==> data[from..] == data;
  }

  /** Where the loop stops: what it handed over is in order, and where it came to
      the end, what it found is what its reads make of the log. */
  lemma GoesNoFurther(data: bytes, from: nat, start: Option<i64>, wants: (nat, str) -> bool, p: Progress, stop: Option<LogStop>)
    requires Goes(data, from, start, wants, p) && StartsAt(data, from, start)
    requires Stopped(p, stop)
    ensures Sits(data, p.marks, |data|)
    ensures stop.Some? && stop.value.AtEnd? ==>
      Flat(p.done) == data[from..] && Marks(from, [], p.done) == Marked(p.marks, stop.value.end)
    ensures Steady(data) ==> Gave(data, start, wants, p.delivered, stop)
  {
    hide Decode, Steady, Replay, HandedOver, Sits, Gave, Came, EventsOf, SameFrom, Marks;
    var place := |data| - |p.kept + p.rest|;
    SitsMore(data, p.marks, place, |data|);
    CameOne(from, p.done, p.marks, place, p.kept);
    assert p.rest == [] ==> Flat(p.done) + p.rest == Flat(p.done);
    if Steady(data) {
      SteadyFromThere(data, from, start);
      CameIsFront(data[from..], from, p.done, p.marks, place, p.kept, p.rest);
      if stop.Some? && stop.value.AtEnd? {
        CameIsAll(data[from..], from, p.done, p.marks, stop.value.end);
      }
      GaveFromThere(data, from, start, wants, EventsOf(p.marks), stop);
    }
  }

  lemma StartIsInside(data: bytes, from: nat, start: Option<i64>)
    requires if start.Some? then SameFrom(data, from, start.value) else from == 0
    ensures StartsAt(data, from, start) && from <= |data|
  {
  }

  // ---- The loop ------------------------------------------------------------

  /** One event: handed over, or not. */
  method HandOver(start: Option<i64>, rules: SharedRules, event: Event, delivered0: seq<Event>, ghost seen: seq<Event>)
    returns (delivered: seq<Event>)
    requires delivered0 == HandedOver(start, rules.wants, seen) && rules.looks == |Asked(start, seen)|
    modifies rules
    ensures delivered == HandedOver(start, rules.wants, seen + [event]) && rules.looks == |Asked(start, seen + [event])|
  {
    hide HandedOver, Asked;
    HandedOverOne(start, rules.wants, seen, event);
    delivered := delivered0;
    if start.Some? && event.timestamp < start.value {
      return;
    }
    var wanted := rules.Matches(event.frame.channel);
    if wanted {
      delivered := delivered + [event];
    }
  }

  lemma DeliveredSoFar(data: bytes, from: nat, start: Option<i64>, wants: (nat, str) -> bool, p: Progress)
    requires Goes(data, from, start, wants, p)
    ensures p.delivered == HandedOver(start, wants, EventsOf(p.marks))
  {
  }

  /** One decode of the bytes that are here. Something is decoded, or more bytes
      are needed, and for those there is room. */
  method Turn(file: File, pending: ReadBuffer, ghost from: nat, start: Option<i64>, rules: SharedRules,
              delivered0: seq<Event>, received0: nat, ghost p: Progress)
    returns (decoded: nat, delivered: seq<Event>, received: nat, ghost q: Progress)
    requires pending.Valid() && pending.ceiling == EVENT_MAX
    requires Goes(file.data, from, start, rules.wants, p) && p.kept == pending.Unread()
    requires p.delivered == delivered0 && received0 == |p.marks| && rules.looks == |Asked(start, EventsOf(p.marks))|
    modifies pending, pending.buffer, rules
    ensures pending.Valid() && (pending.buffer == old(pending.buffer) || fresh(pending.buffer))
    ensures pending.Unread() == old(pending.Unread()) && decoded <= |pending.Unread()|
    ensures Goes(file.data, from, start, rules.wants, q) && q.kept == pending.Unread()[decoded..] && q.rest == p.rest
    ensures q.delivered == delivered && received == |q.marks| && rules.looks == |Asked(start, EventsOf(q.marks))|
    ensures received <= received0 + 1
    ensures decoded == 0 ==>
      q == p && Decode(pending.Unread()).Ok? && Decode(pending.Unread()).value.Need? && |pending.Unread()| < pending.ceiling
  {
    hide Decode, HandedOver, Slide, Goes, Asked, EventsOf;
    delivered, received, q := delivered0, received0, p;
    DeliveredSoFar(file.data, from, start, rules.wants, p);
    ghost var unread := pending.Unread();
    assert unread[0..] == unread;
    DecodeMoves(unread);
    match Decode(pending.Unread())
    case Ok(Item(event, used)) =>
      received := received + 1;
      delivered := HandOver(start, rules, event, delivered, EventsOf(p.marks));
      q := GoesOverItem(file.data, from, start, rules.wants, p, event, used, delivered);
      decoded := used;
    case Ok(Skip(skipped)) =>
      received := received + 1;
      q := GoesOverSkip(file.data, from, start, rules.wants, p, skipped);
      decoded := skipped;
    case Err(_) =>
      decoded := Slide(pending.Unread());
      q := GoesOverSlide(file.data, from, start, rules.wants, p);
    case Ok(Need(needed)) =>
      // A length above the ceiling would end the replay here. None is.
      var ok := pending.Reserve(needed);
      assert ok;
      decoded := 0;
  }

  /** One read of the file, where what is here is not an event yet. */
  method ReadMore(file: File, pending: ReadBuffer, source: Source, ghost from: nat, start: Option<i64>,
                  ghost wants: (nat, str) -> bool, ghost p: Progress)
    returns (stop: Option<LogStop>, ghost q: Progress)
    requires pending.Valid() && |pending.Unread()| < pending.ceiling
    requires Goes(file.data, from, start, wants, p) && p.kept == pending.Unread() && p.rest == source.rest
    requires Decode(p.kept).Ok? && Decode(p.kept).value.Need?
    modifies pending, pending.buffer, source
    ensures pending.Valid() && (pending.buffer == old(pending.buffer) || fresh(pending.buffer))
    ensures Goes(file.data, from, start, wants, q) && q.kept == pending.Unread() && q.rest == source.rest
    ensures q.delivered == p.delivered && q.marks == p.marks
    ensures stop.None? ==> source.Left() < old(source.Left())
    ensures Stopped(q, stop)
    ensures stop == Some(Broke) ==> Broken in old(source.script)
    ensures Broken in source.script ==> Broken in old(source.script)
  {
    hide Decode, Goes;
    q := p;
    var r, full := pending.FillFrom(source);
    assert !full;
    match r
    case Got(data) =>
      if data == [] {
        assert p.kept + [] == p.kept;
        return Some(AtEnd(if |pending.Unread()| == 0 then EndOfLog else TornLog)), p;
      }
      q := GoesOverRead(file.data, from, start, wants, p, data, source.rest);
      return None, q;
    case Timeout => return None, p;
    case Failed => return Some(Broke), p;
  }

  lemma NotStopped(p: Progress)
    ensures Stopped(p, None)
  {
  }

  /** A decode, and a read where it needs one. */
  method Advance(file: File, pending: ReadBuffer, source: Source, ghost from: nat, start: Option<i64>, rules: SharedRules,
                 delivered0: seq<Event>, received0: nat, ghost p: Progress)
    returns (decoded: nat, delivered: seq<Event>, received: nat, stop: Option<LogStop>, ghost q: Progress)
    requires pending.Valid() && pending.ceiling == EVENT_MAX
    requires Goes(file.data, from, start, rules.wants, p) && p.kept == pending.Unread() && p.rest == source.rest
    requires p.delivered == delivered0 && received0 == |p.marks| && rules.looks == |Asked(start, EventsOf(p.marks))|
    modifies pending, pending.buffer, rules, source
    ensures pending.Valid() && (pending.buffer == old(pending.buffer) || fresh(pending.buffer)) && decoded <= |pending.Unread()|
    ensures Goes(file.data, from, start, rules.wants, q) && q.kept == pending.Unread()[decoded..] && q.rest == source.rest
    ensures q.delivered == delivered && received == |q.marks| && rules.looks == |Asked(start, EventsOf(q.marks))|
    ensures stop.None? ==>
      || source.Left() < old(source.Left())
      || (source.Left() == old(source.Left()) && |pending.Unread()| - decoded < old(|pending.Unread()|))
    ensures Stopped(q, stop) && received <= received0 + 1
    ensures stop == Some(Broke) ==> Broken in old(source.script)
    ensures Broken in source.script ==> Broken in old(source.script)
  {
    hide Decode, HandedOver, Goes, Asked, EventsOf, Stopped;
    stop := None;
    decoded, delivered, received, q := Turn(file, pending, from, start, rules, delivered0, received0, p);
    NotStopped(q);
    if decoded == 0 {
      stop, q := ReadMore(file, pending, source, from, start, rules.wants, q);
      assert pending.Unread()[0..] == pending.Unread();
    }
  }

  lemma NothingAsked(start: Option<i64>)
    ensures Asked(start, EventsOf([])) == []
  {
  }

  /** The reader of a log, over any split of the file into reads. It ends on
      every file, and is never refused room. Each event it found is the bytes of
      that event at a place of its own, whatever the file holds; what it found is
      what its reads make of the log; and of a steady file it hands over exactly
      what a replay of the whole gives. */
  method LogReader(file: File, arrivals: seq<Arrival>, start: Option<i64>, wants: (nat, str) -> bool, running: Running)
    returns (delivered: seq<Event>, received: nat, stop: Option<LogStop>,
             ghost from: nat, ghost splits: seq<bytes>, ghost marks: seq<Mark>)
    requires file.position == 0
    modifies file, running
    ensures StartsAt(file.data, from, start) && from <= |file.data|
    ensures delivered == HandedOver(start, wants, EventsOf(marks)) && received == |marks|
    ensures Sits(file.data, marks, |file.data|)
    ensures stop.Some? && stop.value.AtEnd? ==>
      Flat(splits) == file.data[from..] && Marks(from, [], splits) == Marked(marks, stop.value.end)
    ensures Steady(file.data) ==> Gave(file.data, start, wants, delivered, stop)
    ensures stop == Some(Broke) ==> Broken in arrivals
    ensures stop.None? ==> running.Off() && old(running.looks).Some?
    ensures old(running.looks).Some? ==> received <= old(running.looks).value
    ensures start.Some? && old(file.script) == [] && old(running.looks).None? ==> WalkEnds(file.data, from, start.value)
  {
    hide Decode, Steady, HandedOver, Sits, SameFrom, Gave, Goes, Asked, EventsOf, Marks, Stopped, StartsAt;
    var at := 0;
    if start.Some? {
      at := SeekBefore(file, start.value, running);
    }
    from := at;
    StartIsInside(file.data, at, start);
    var source := new Source(file.data[at..], arrivals);
    var pending := new ReadBuffer.WithLimits(64 * 1024, EVENT_MAX);
    var rules := new SharedRules(wants);
    // How much of the buffer the last turn used up.
    var decoded: nat := 0;
    delivered, received, stop := [], 0, None;
    ghost var p := Progress([], [], [], [], file.data[at..]);
    GoesStart(file.data, at, start, wants);
    NothingAsked(start);
    assert pending.Unread()[decoded..] == [];
    while true
      invariant pending.Valid() && fresh(pending) && fresh(pending.buffer) && pending.ceiling == EVENT_MAX
      invariant fresh(source) && fresh(rules) && rules.wants == wants && decoded <= |pending.Unread()|
      invariant stop.None? && Goes(file.data, from, start, wants, p)
      invariant p.kept == pending.Unread()[decoded..] && p.rest == source.rest
      invariant p.delivered == delivered && received == |p.marks| && rules.looks == |Asked(start, EventsOf(p.marks))|
      invariant Broken in source.script ==> Broken in arrivals
      invariant Spent(old(running.looks), 0, running.looks, received)
      decreases source.Left(), |pending.Unread()| - decoded
    {
      DeliveredSoFar(file.data, from, start, wants, p);
      var on := running.Look();
      if !on {
        NotStopped(p);
        GoesNoFurther(file.data, from, start, wants, p, None);
        splits, marks := p.done, p.marks;
        return;
      }
      pending.Consume(decoded);
      decoded, delivered, received, stop, p := Advance(file, pending, source, from, start, rules, delivered, received, p);
      if stop.Some? {
        DeliveredSoFar(file.data, from, start, wants, p);
        GoesNoFurther(file.data, from, start, wants, p, stop);
        splits, marks := p.done, p.marks;
        return;
      }
    }
  }
}
