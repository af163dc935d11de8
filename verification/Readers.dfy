/** The loops that read a stream: a client off its relay, and a relay off a
    client. */
module Readers {
  import opened Bytes
  import opened Wire
  import opened ReadBuffers
  import opened Streams
  import opened Subscriptions
  import Tcpq

  /** The flag a loop looks at. Another thread turns it off at any look, or
      never, and nothing turns it on again. */
  class Running {
    var looks: Option<nat>

    constructor (looks: Option<nat>)
      ensures this.looks == looks
    {
      this.looks := looks;
    }

    predicate Off()
      reads this
    {
      looks == Some(0)
    }

    method Look() returns (on: bool)
      modifies this
      ensures on == !old(Off())
      ensures old(Off()) ==> Off()
      ensures looks.Some? <==> old(looks).Some?
      ensures looks.Some? && on ==> looks.value + 1 == old(looks).value
    {
      on := looks != Some(0);
      if looks.Some? && looks.value > 0 {
        looks := Some(looks.value - 1);
      }
    }
  }

  /** The rules of a client, behind their lock. Other threads change them, so
      each look has a number, and `wants(n, channel)` is what look `n` finds. */
  class SharedRules {
    const wants: (nat, str) -> bool
    var looks: nat

    constructor (wants: (nat, str) -> bool)
      ensures this.wants == wants && looks == 0
    {
      this.wants, looks := wants, 0;
    }

    method Matches(channel: str) returns (wanted: bool)
      modifies this
      ensures wanted == wants(old(looks), channel) && looks == old(looks) + 1
    {
      wanted := wants(looks, channel);
      looks := looks + 1;
    }
  }

  /** Where an error of a socket comes from: a read, or the writer's half, which
      shuts the socket behind a write that tore. */
  datatype Failing = InRead | InWriter

  /** Why a reader stopped; `None` where it was told to. */
  datatype Stop = Closed | Io(half: Failing) | OnWire(error: WireError)

  datatype Counts = Counts(received: nat, discarded: nat, delivered: nat)

  // ---- What was found, as a client counts it -------------------------------

  /** The frames found that were not stepped over: one look at the rules each. */
  function Looks<T>(found: seq<Found<T>>): nat {
    if found == [] then 0
    else Looks(found[..|found| - 1]) + if found[|found| - 1].Whole? then 1 else 0
  }

  /** The messages handed over, each by the rules as they were at its look. */
  function Delivered(found: seq<Found<Frame>>, wants: (nat, str) -> bool): seq<Frame> {
    if found == [] then []
    else
      var before := found[..|found| - 1];
      var front := Delivered(before, wants);
      match found[|found| - 1]
      case Whole(frame) => if wants(Looks(before), frame.channel) then front + [frame] else front
      case Skipped => front
  }

  lemma DeliveredSnoc(found: seq<Found<Frame>>, wants: (nat, str) -> bool, one: Found<Frame>)
    ensures Delivered(found + [one], wants) ==
      Delivered(found, wants) + if one.Whole? && wants(Looks(found), one.item.channel) then [one.item] else []
    ensures Looks(found + [one]) == Looks(found) + if one.Whole? then 1 else 0
  {
    assert (found + [one])[..|found|] == found;
  }

  predicate Counted(found: seq<Found<Frame>>, delivered: seq<Frame>, counts: Counts) {
    |delivered| <= |found| && counts == Counts(|found|, |found| - |delivered|, |delivered|)
  }

  /** What the end of a loop says of the whole stream that it read. */
  ghost predicate EndOf<T>(all: Parsed<T>, found: seq<Found<T>>, stop: Option<Stop>) {
    match stop
    case Some(Closed) => all.found == found && all.end.More?
    case Some(Io(InWriter)) => all.found == found && all.end.More?
    case Some(OnWire(e)) => all == Parsed(found, Bad(e))
    case _ => found <= all.found
  }

  lemma AtIsFront<T>(d: Decoder<T>, all: bytes, found: seq<Found<T>>, rest: bytes)
    requires At(d, all, found, rest)
    ensures found <= Parse(d, all).found
  {
    hide Parse;
  }

  lemma CountOne(found: seq<Found<Frame>>, wants: (nat, str) -> bool, delivered: seq<Frame>, counts: Counts, one: Found<Frame>)
    requires delivered == Delivered(found, wants) && Counted(found, delivered, counts)
    ensures var wanted := one.Whole? && wants(Looks(found), one.item.channel);
      var now := if wanted then delivered + [one.item] else delivered;
      var next := Counts(counts.received + 1,
                         counts.discarded + (if wanted then 0 else 1),
                         counts.delivered + (if wanted then 1 else 0));
      now == Delivered(found + [one], wants) && Counted(found + [one], now, next)
    ensures Looks(found + [one]) == Looks(found) + if one.Whole? then 1 else 0
  {
    DeliveredSnoc(found, wants, one);
  }

  /** The unread bytes are not a frame yet, and there is room for the rest. */
  ghost predicate Waits<T>(d: Decoder<T>, unread: bytes) {
    d(unread).Ok? && d(unread).value.Need?
  }

  lemma WaitsAtEnd<T>(d: Decoder<T>, all: bytes, found: seq<Found<T>>, unread: bytes)
    requires At(d, all, found, unread) && Waits(d, unread)
    ensures Parse(d, all) == Parsed(found, More(unread))
  {
    assert found + [] == found;
  }

  lemma WaitsHasRoom<T(!new)>(d: Decoder<T>, limit: nat, unread: bytes)
    requires Stable(d, limit) && Waits(d, unread)
    ensures |unread| < limit
  {
    assert StableAt(d, limit, unread, []);
  }

  /** Between two moments there were no more frames than looks that let the loop
      go on, and a flag that is never turned off stays so. */
  ghost predicate Spent(before: Option<nat>, frames: nat, now: Option<nat>, framesNow: nat) {
    && (before.Some? <==> now.Some?)
    && (before.Some? ==> framesNow + now.value <= frames + before.value)
  }

  /** What was handed over and counted is what was found, and there was one look
      at the rules for each message. */
  ghost predicate HandedOn(rules: SharedRules, found: seq<Found<Frame>>, delivered: seq<Frame>, counts: Counts)
    reads rules
  {
    && delivered == Delivered(found, rules.wants) && Counted(found, delivered, counts)
    && rules.looks == Looks(found)
  }

  /** One message: counted, and handed over where a subscription wants it. */
  method DeliverOne(frame: Frame, rules: SharedRules, delivered0: seq<Frame>, counts0: Counts, ghost found: seq<Found<Frame>>)
    returns (delivered: seq<Frame>, counts: Counts)
    requires HandedOn(rules, found, delivered0, counts0)
    modifies rules
    ensures HandedOn(rules, found + [Whole(frame)], delivered, counts)
  {
    hide Delivered, Counted, Looks;
    CountOne(found, rules.wants, delivered0, counts0, Whole(frame));
    counts := counts0.(received := counts0.received + 1);
    var wanted := rules.Matches(frame.channel);
    if !wanted {
      return delivered0, counts.(discarded := counts.discarded + 1);
    }
    return delivered0 + [frame], counts.(delivered := counts.delivered + 1);
  }

  /** The inner loop of a client: every frame that is here, one by one. */
  method DecodeHere(pending: ReadBuffer, ghost rest: bytes, rules: SharedRules, running: Running, ghost all: bytes,
                    delivered0: seq<Frame>, counts0: Counts, ghost found0: seq<Found<Frame>>)
    returns (delivered: seq<Frame>, counts: Counts, stop: Option<Stop>, ghost found: seq<Found<Frame>>)
    requires pending.Valid() && pending.ceiling == Tcpq.FRAME_MAX && Stable(Tcpq.Decode, Tcpq.FRAME_MAX)
    requires At(Tcpq.Decode, all, found0, pending.Unread() + rest)
    requires HandedOn(rules, found0, delivered0, counts0)
    modifies pending, pending.buffer, running, rules
    ensures pending.Valid() && (pending.buffer == old(pending.buffer) || fresh(pending.buffer))
    ensures HandedOn(rules, found, delivered, counts)
    ensures Spent(old(running.looks), |found0|, running.looks, |found|)
    ensures match stop
      case Some(OnWire(e)) => Parse(Tcpq.Decode, all) == Parsed(found, Bad(e))
      case Some(_) => false
      case None =>
        && At(Tcpq.Decode, all, found, pending.Unread() + rest)
        && (running.Off() || Waits(Tcpq.Decode, pending.Unread()))
  {
    hide Parse, Tcpq.Decode, Stable, Delivered, Counted, At, Looks;
    delivered, counts, found, stop := delivered0, counts0, found0, None;
    while true
      invariant pending.Valid() && (pending.buffer == old(pending.buffer) || fresh(pending.buffer))
      invariant At(Tcpq.Decode, all, found, pending.Unread() + rest)
      invariant HandedOn(rules, found, delivered, counts)
      invariant Spent(old(running.looks), |found0|, running.looks, |found|)
      decreases |pending.Unread()|
    {
      var on := running.Look();
      if !on {
        return;
      }
      AtStep(Tcpq.Decode, Tcpq.FRAME_MAX, all, found, pending.Unread(), rest);
      match Tcpq.Decode(pending.Unread())
      case Err(e) =>
        return delivered, counts, Some(OnWire(e)), found;
      case Ok(Need(needed)) =>
        // A length above the ceiling would end the stream here. None is.
        var ok := pending.Reserve(needed);
        assert ok;
        return;
      case Ok(Skip(skipped)) =>
        CountOne(found, rules.wants, delivered, counts, Skipped);
        counts := counts.(received := counts.received + 1, discarded := counts.discarded + 1);
        found := found + [Skipped];
        pending.Consume(skipped);
      case Ok(Item(frame, used)) =>
        pending.Consume(used);
        delivered, counts := DeliverOne(frame, rules, delivered, counts, found);
        found := found + [Whole(frame)];
    }
  }

  lemma BeginsWaiting(all: bytes, wants: (nat, str) -> bool)
    ensures At(Tcpq.Decode, all, [], all) && Waits(Tcpq.Decode, [])
    ensures Delivered([], wants) == [] && Counted([], [], Counts(0, 0, 0)) && Looks<Frame>([]) == 0
  {
    AtStart(Tcpq.Decode, all);
  }

  /** The reader of a client. However the stream was split into reads, the
      messages, the counts and the end are those of the stream read whole; no
      frame is refused for its length, and the buffer is never full. */
  method TcpqReader(source: Source, wants: (nat, str) -> bool, running: Running, torn: bool)
    returns (delivered: seq<Frame>, counts: Counts, stop: Option<Stop>, ghost found: seq<Found<Frame>>)
    modifies source, running
    ensures delivered == Delivered(found, wants) && Counted(found, delivered, counts)
    ensures EndOf(Parse(Tcpq.Decode, old(source.rest)), found, stop)
    ensures stop == Some(Closed) ==> source.rest == [] && !torn
    ensures stop == Some(Io(InWriter)) ==> source.rest == [] && torn
    ensures stop == Some(Io(InRead)) ==> Broken in old(source.script)
    ensures stop.None? ==> running.Off() && old(running.looks).Some?
    ensures old(running.looks).Some? ==> |found| <= old(running.looks).value
  {
    hide Parse, Tcpq.Decode, Stable, Delivered, Counted, At, Looks;
    ghost var all := source.rest;
    var rules := new SharedRules(wants);
    var pending := new ReadBuffer.WithLimits(16 * 1024, Tcpq.FRAME_MAX);
    delivered, counts, found := [], Counts(0, 0, 0), [];
    Tcpq.DecodeIsStable();
    BeginsWaiting(all, wants);
    assert pending.Unread() + source.rest == all;
    while true
      invariant pending.Valid() && fresh(pending) && fresh(pending.buffer) && pending.ceiling == Tcpq.FRAME_MAX
      invariant At(Tcpq.Decode, all, found, pending.Unread() + source.rest)
      invariant running.Off() || Waits(Tcpq.Decode, pending.Unread())
      invariant fresh(rules) && rules.wants == wants && HandedOn(rules, found, delivered, counts)
      invariant Broken in source.script ==> Broken in old(source.script)
      invariant Spent(old(running.looks), 0, running.looks, |found|)
      decreases source.Left()
    {
      AtIsFront(Tcpq.Decode, all, found, pending.Unread() + source.rest);
      var on := running.Look();
      if !on {
        return delivered, counts, None, found;
      }
      WaitsHasRoom(Tcpq.Decode, Tcpq.FRAME_MAX, pending.Unread());
      ghost var unread, before := pending.Unread(), source.rest;
      var r, full := pending.FillFrom(source);
      assert !full;
      if r.Failed? {
        return delivered, counts, Some(Io(InRead)), found;
      }
      if r.Got? {
        assert pending.Unread() + source.rest == unread + before;
        if r.data == [] {
          assert unread + before == unread;
          WaitsAtEnd(Tcpq.Decode, all, found, unread);
          return delivered, counts, Some(if torn then Io(InWriter) else Closed), found;
        }
        delivered, counts, stop, found := DecodeHere(pending, source.rest, rules, running, all, delivered, counts, found);
        if stop.Some? {
          return;
        }
      }
    }
  }

  // ---- A relay, off one of its clients -------------------------------------

  /** The requests found, without the frames that were stepped over. */
  function Requests(found: seq<Found<Tcpq.Request>>): seq<Tcpq.Request> {
    if found == [] then []
    else
      var front := Requests(found[..|found| - 1]);
      match found[|found| - 1]
      case Whole(q) => front + [q]
      case Skipped => front
  }

  /** The messages a relay hands on. */
  function Published(found: seq<Found<Tcpq.Request>>): seq<Frame> {
    if found == [] then []
    else
      var front := Published(found[..|found| - 1]);
      match found[|found| - 1]
      case Whole(Publish(frame)) => front + [frame]
      case _ => front
  }

  lemma RequestsSnoc(accepts: str -> bool, held: seq<Rule>, found: seq<Found<Tcpq.Request>>, one: Found<Tcpq.Request>)
    ensures ServeAll(accepts, held, Requests(found + [one])) ==
      if one.Whole? then Serve(accepts, ServeAll(accepts, held, Requests(found)), one.item)
      else ServeAll(accepts, held, Requests(found))
    ensures Published(found + [one]) == Published(found) + if one.Whole? && one.item.Publish? then [one.item.frame] else []
  {
    hide Serve;
    assert (found + [one])[..|found|] == found;
    if one.Whole? {
      assert (Requests(found) + [one.item])[..|Requests(found)|] == Requests(found);
    }
  }

  /** What a relay reads as a message is one it can write. */
  lemma DecodedIsPublishable(data: bytes, frame: Frame, used: nat)
    requires Tcpq.DecodeRequest(data) == Ok(Item(Tcpq.Publish(frame), used))
    ensures Tcpq.EncodePublish(frame).Ok?
  {
    hide IsUtf8, UintAt;
  }

  /** The state of a peer behind `found`. */
  ghost predicate Served(accepts: str -> bool, first: seq<Rule>, found: seq<Found<Tcpq.Request>>,
                         rules: seq<Rule>, published: seq<Frame>) {
    rules == ServeAll(accepts, first, Requests(found)) && published == Published(found)
  }

  /** One request, applied to the rules of the peer, or handed on. */
  method ServeOne(q: Tcpq.Request, rules: RuleSet, accepts: str -> bool, published0: seq<Frame>,
                  ghost first: seq<Rule>, ghost found: seq<Found<Tcpq.Request>>)
    returns (published: seq<Frame>)
    requires Served(accepts, first, found, rules.rules, published0)
    requires q.Publish? ==> Tcpq.EncodePublish(q.frame).Ok?
    modifies rules
    ensures Served(accepts, first, found + [Whole(q)], rules.rules, published)
  {
    hide Requests, Published, ServeAll, Tcpq.EncodePublish;
    RequestsSnoc(accepts, first, found, Whole(q));
    published := published0;
    match q
    case Subscribe(pattern) =>
      if accepts(pattern) {
        rules.Push(Pattern(pattern));
      }
    case Unsubscribe(pattern) =>
      var _ := rules.Remove(pattern);
    case Publish(frame) =>
      var encoded := Tcpq.EncodePublish(frame);
      if encoded.Ok? {
        published := published + [frame];
      }
  }

  lemma ServedSkip(accepts: str -> bool, first: seq<Rule>, found: seq<Found<Tcpq.Request>>, rules: seq<Rule>, published: seq<Frame>)
    requires Served(accepts, first, found, rules, published)
    ensures Served(accepts, first, found + [Skipped], rules, published)
  {
    RequestsSnoc(accepts, first, found, Skipped);
  }

  method ServeHere(pending: ReadBuffer, ghost rest: bytes, rules: RuleSet, accepts: str -> bool, running: Running,
                   ghost all: bytes, ghost first: seq<Rule>, published0: seq<Frame>, ghost found0: seq<Found<Tcpq.Request>>)
    returns (published: seq<Frame>, stop: Option<Stop>, ghost found: seq<Found<Tcpq.Request>>)
    requires pending.Valid() && pending.ceiling == Tcpq.FRAME_MAX && Stable(Tcpq.DecodeRequest, Tcpq.FRAME_MAX)
    requires At(Tcpq.DecodeRequest, all, found0, pending.Unread() + rest)
    requires Served(accepts, first, found0, rules.rules, published0)
    modifies pending, pending.buffer, running, rules
    ensures pending.Valid() && (pending.buffer == old(pending.buffer) || fresh(pending.buffer))
    ensures Served(accepts, first, found, rules.rules, published)
    ensures Spent(old(running.looks), |found0|, running.looks, |found|)
    ensures match stop
      case Some(OnWire(e)) => Parse(Tcpq.DecodeRequest, all) == Parsed(found, Bad(e))
      case Some(_) => false
      case None =>
        && At(Tcpq.DecodeRequest, all, found, pending.Unread() + rest)
        && (running.Off() || Waits(Tcpq.DecodeRequest, pending.Unread()))
  {
    hide Parse, Tcpq.DecodeRequest, Stable, At, Served;
    published, found, stop := published0, found0, None;
    while true
      invariant pending.Valid() && (pending.buffer == old(pending.buffer) || fresh(pending.buffer))
      invariant At(Tcpq.DecodeRequest, all, found, pending.Unread() + rest)
      invariant Served(accepts, first, found, rules.rules, published)
      invariant Spent(old(running.looks), |found0|, running.looks, |found|)
      decreases |pending.Unread()|
    {
      var on := running.Look();
      if !on {
        return;
      }
      AtStep(Tcpq.DecodeRequest, Tcpq.FRAME_MAX, all, found, pending.Unread(), rest);
      match Tcpq.DecodeRequest(pending.Unread())
      case Err(e) =>
        return published, Some(OnWire(e)), found;
      case Ok(Need(needed)) =>
        var ok := pending.Reserve(needed);
        assert ok;
        return;
      case Ok(Skip(skipped)) =>
        ServedSkip(accepts, first, found, rules.rules, published);
        found := found + [Skipped];
        pending.Consume(skipped);
      case Ok(Item(q, used)) =>
        if q.Publish? {
          DecodedIsPublishable(pending.Unread(), q.frame, used);
        }
        published := ServeOne(q, rules, accepts, published, first, found);
        found := found + [Whole(q)];
        pending.Consume(used);
    }
  }

  lemma PeerBeginsWaiting(all: bytes)
    ensures At(Tcpq.DecodeRequest, all, [], all) && Waits(Tcpq.DecodeRequest, [])
  {
    AtStart(Tcpq.DecodeRequest, all);
  }

  /** The reader of a relay. However the stream was split into reads, the rules
      of the peer and the messages handed on are those of the requests the whole
      stream holds. */
  method PeerReader(source: Source, rules: RuleSet, accepts: str -> bool, running: Running)
    returns (published: seq<Frame>, stop: Option<Stop>, ghost found: seq<Found<Tcpq.Request>>)
    modifies source, running, rules
    ensures rules.rules == ServeAll(accepts, old(rules.rules), Requests(found)) && published == Published(found)
    ensures EndOf(Parse(Tcpq.DecodeRequest, old(source.rest)), found, stop)
    ensures stop == Some(Closed) ==> source.rest == []
    ensures stop != Some(Io(InWriter))
    ensures stop == Some(Io(InRead)) ==> Broken in old(source.script)
    ensures stop.None? ==> running.Off() && old(running.looks).Some?
    ensures old(running.looks).Some? ==> |found| <= old(running.looks).value
  {
    hide Parse, Tcpq.DecodeRequest, Stable, At;
    ghost var all, first := source.rest, rules.rules;
    var pending := new ReadBuffer.WithLimits(16 * 1024, Tcpq.FRAME_MAX);
    published, found := [], [];
    Tcpq.DecodeRequestIsStable();
    PeerBeginsWaiting(all);
    assert pending.Unread() + source.rest == all;
    while true
      invariant pending.Valid() && fresh(pending) && fresh(pending.buffer) && pending.ceiling == Tcpq.FRAME_MAX
      invariant At(Tcpq.DecodeRequest, all, found, pending.Unread() + source.rest)
      invariant running.Off() || Waits(Tcpq.DecodeRequest, pending.Unread())
      invariant Served(accepts, first, found, rules.rules, published)
      invariant Broken in source.script ==> Broken in old(source.script)
      invariant Spent(old(running.looks), 0, running.looks, |found|)
      decreases source.Left()
    {
      hide Served;
      AtIsFront(Tcpq.DecodeRequest, all, found, pending.Unread() + source.rest);
      var on := running.Look();
      if !on {
        return published, None, found;
      }
      WaitsHasRoom(Tcpq.DecodeRequest, Tcpq.FRAME_MAX, pending.Unread());
      ghost var unread, before := pending.Unread(), source.rest;
      var r, full := pending.FillFrom(source);
      assert !full;
      if r.Failed? {
        return published, Some(Io(InRead)), found;
      }
      if r.Got? {
        assert pending.Unread() + source.rest == unread + before;
        if r.data == [] {
          assert unread + before == unread;
          WaitsAtEnd(Tcpq.DecodeRequest, all, found, unread);
          return published, Some(Closed), found;
        }
        published, stop, found := ServeHere(pending, source.rest, rules, accepts, running, all, first, published, found);
        if stop.Some? {
          return;
        }
      }
    }
  }

  lemma {:induction false} RequestsOfWholes(qs: seq<Tcpq.Request>)
    ensures Requests(Tcpq.Wholes(qs)) == qs
  {
    if qs != [] {
      RequestsOfWholes(qs[..|qs| - 1]);
      assert Tcpq.Wholes(qs)[..|qs| - 1] == Tcpq.Wholes(qs[..|qs| - 1]);
    }
  }

  /** From the calls of a client to the rules of its relay, over the bytes. The
      relay reads what was let in to its end exactly where each text is one it
      reads; and there it holds the client's rules, text for text. Where a text
      is longer, the stream ends in front of it. */
  lemma RelayHoldsTheRules(accepts: str -> bool, rules: seq<Rule>, calls: seq<Call>, tail: bytes) returns (k: nat)
    requires var line := ApplyAll(accepts, Connected(rules), calls).line;
      AllAccepted(accepts, line) && Tcpq.AllSendable(line) && Tcpq.IsFront(tail)
    ensures var t := ApplyAll(accepts, Connected(rules), calls);
      var all := Parse(Tcpq.DecodeRequest, Tcpq.EncodeAll(t.line) + tail);
      && (all.end.More? <==> Tcpq.AllFit(t.line))
      && (all.end.More? ==> Texts(ServeAll(accepts, [], Requests(all.found))) == Texts(t.rules))
      && (all.end.Bad? ==>
          && k < |t.line| && !t.line[k].Publish? && |t.line[k].pattern| > Tcpq.CHANNEL_READ_MAX
          && Requests(all.found) == t.line[..k] && all.end.error == ChannelTooLong(|t.line[k].pattern|))
  {
    hide ApplyAll, Connected, Tcpq.AllFit, Tcpq.Encode, Tcpq.EncodeAll, Parse, Tcpq.DecodeRequest, Requests, Texts;
    hide ServeAll, AllAccepted, Tcpq.Wholes;
    var line := ApplyAll(accepts, Connected(rules), calls).line;
    k := Tcpq.RelayReadsToTheEnd(line, tail);
    if Tcpq.AllFit(line) {
      RequestsOfWholes(line);
      RelayAgrees(accepts, rules, calls);
    } else {
      RequestsOfWholes(line[..k]);
    }
  }
}
