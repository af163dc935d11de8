/** A log as a client writes it, and what a replay of it gives back. */
module LogWriting {
  import opened Bytes
  import opened Wire
  import opened Log
  import opened LogFile

  predicate AllWritable(events: seq<Event>) {
    forall i :: 0 <= i < |events| ==> Writable(events[i].frame)
  }

  function EncodeAll(events: seq<Event>): bytes
    requires AllWritable(events)
  {
    if events == [] then [] else Encode(events[0]).value + EncodeAll(events[1..])
  }

  lemma {:induction false} EncodeAllSnoc(events: seq<Event>, event: Event)
    requires AllWritable(events) && Writable(event.frame)
    ensures EncodeAll(events + [event]) == EncodeAll(events) + Encode(event).value
  {
    hide Encode, Writable;
    if events == [] {
      assert events + [event] == [event] && [event][1..] == [];
      assert Encode(event).value + [] == Encode(event).value;
      assert EncodeAll([]) == [];
    } else {
      EncodeAllSnoc(events[1..], event);
      assert (events + [event])[1..] == events[1..] + [event];
    }
  }

  /** Nothing, or an event cut short. */
  ghost predicate IsPart(part: bytes) {
    part == [] || exists event: Event :: Writable(event.frame) && part < Encode(event).value
  }

  /** Whole events, and at most one more that is cut short. */
  ghost predicate IsCut(data: bytes, events: seq<Event>, part: bytes) {
    AllWritable(events) && IsPart(part) && data == EncodeAll(events) + part
  }

  lemma StartsWithSync(event: Event)
    requires Writable(event.frame)
    ensures |Encode(event).value| > HEADER_LEN && Encode(event).value[..4] == Sync()
  {
    hide FromI64, BigEndian, IsUtf8;
    NameFits(event.frame);
  }

  /** What stands behind an event of a cut log can stand there. */
  lemma CutFollows(events: seq<Event>, part: bytes)
    requires AllWritable(events) && IsPart(part)
    ensures Follows(EncodeAll(events) + part)
  {
    hide Encode, Writable;
    var behind := EncodeAll(events) + part;
    if events != [] {
      StartsWithSync(events[0]);
      assert behind[..4] == Encode(events[0]).value[..4];
    } else if part != [] {
      var event: Event :| Writable(event.frame) && part < Encode(event).value;
      StartsWithSync(event);
      assert behind == part;
      if |part| >= 4 {
        assert part[..4] == Encode(event).value[..4];
      }
    }
  }

  lemma NothingIsNeed()
    ensures Decode([]) == Ok(Need(HEADER_LEN))
  {
  }

  lemma PartIsTorn(part: bytes)
    requires IsPart(part)
    ensures Steady(part) && Replay(part) == Replayed([], if part == [] then EndOfLog else TornLog)
  {
    hide Encode, Writable, Decode;
    if part != [] {
      var event: Event :| Writable(event.frame) && part < Encode(event).value;
      PartOfEvent(event, |part|);
      assert part == Encode(event).value[..|part|];
    } else {
      NothingIsNeed();
    }
  }

  /** A cut of a log replays as exactly the whole events in front of the cut, and
      then as the end of the log, or as a torn one: whatever the payloads hold,
      sync words and whole forged logs among them. */
  lemma {:induction false} CutReplays(data: bytes, events: seq<Event>, part: bytes)
    requires IsCut(data, events, part)
    ensures Steady(data)
    ensures Replay(data) == Replayed(events, if part == [] then EndOfLog else TornLog)
    decreases |events|
  {
    hide Encode, Writable, Decode, IsPart, Follows;
    if events == [] {
      assert data == part;
      PartIsTorn(part);
    } else {
      var rest := EncodeAll(events[1..]) + part;
      assert data == Encode(events[0]).value + rest;
      CutFollows(events[1..], part);
      EventRoundTrip(events[0], rest);
      StartsWithSync(events[0]);
      assert data[|Encode(events[0]).value|..] == rest;
      CutReplays(rest, events[1..], part);
      assert [events[0]] + events[1..] == events;
    }
  }

  /** Every cut of a log is the whole events in front of it, and a part. */
  lemma {:induction false} EveryCutIsOne(events: seq<Event>, n: nat) returns (k: nat, part: bytes)
    requires AllWritable(events) && n <= |EncodeAll(events)|
    ensures k <= |events| && IsCut(EncodeAll(events)[..n], events[..k], part)
    ensures |EncodeAll(events[..k])| <= n && (k < |events| ==> n < |EncodeAll(events[..k + 1])|)
    decreases |events|
  {
    hide Encode, Writable;
    if events == [] {
      return 0, [];
    }
    var first := Encode(events[0]).value;
    if n < |first| {
      part := EncodeAll(events)[..n];
      k := 0;
      assert part == first[..n] && events[..1][1..] == [] && EncodeAll([]) == [];
      assert part < first && EncodeAll(events[..0]) + part == part;
    } else {
      k, part := EveryCutIsOne(events[1..], n - |first|);
      assert EncodeAll(events)[..n] == first + EncodeAll(events[1..])[..n - |first|];
      k := k + 1;
      assert events[..k][1..] == events[1..][..k - 1];
      assert k < |events| ==> events[..k + 1][1..] == events[1..][..k];
    }
  }

  // ---- The writer ----------------------------------------------------------

  /** How a write of a file goes: all of it, or a part and then an error. */
  datatype Outcome = Full | Short(n: nat)

  datatype Answer = Wrote | Refused(error: WireError) | Closed | BrokeOff

  const MAX_EVENTS: nat := 0x7FFF_FFFF_FFFF_FFFF

  lemma EncodedIsSome(event: Event)
    requires Encode(event).Ok?
    ensures |Encode(event).value| > 0
  {
  }

  class LogWriter {
    var file: bytes
    /** The number the next event has. */
    var events: nat
    var writable: bool

    /** A log opened: empty, or with what is there where it is to be added to.
        The numbers start from zero either way. */
    constructor (there: bytes)
      ensures file == there && events == 0 && writable
    {
      file, events, writable := there, 0, true;
    }

    /** Adds one event. It is counted once it is all there; where it may be there
        in part, the log takes no other. */
    method Write(frame: Frame, timestamp: i64, outcome: Outcome) returns (answer: Answer)
      requires events < MAX_EVENTS
      modifies this
      ensures !old(writable) ==> answer == Closed
      ensures old(writable) ==>
        match Encode(Event(old(events), timestamp, frame))
        case Err(e) => answer == Refused(e)
        case Ok(written) =>
          if outcome.Full? then answer == Wrote && file == old(file) + written
          else answer == BrokeOff && exists part :: part < written && file == old(file) + part
      ensures answer.Closed? || answer.Refused? ==> file == old(file)
      ensures events == old(events) + (if answer.Wrote? then 1 else 0)
      ensures writable == (old(writable) && !answer.BrokeOff?)
    {
      hide Encode;
      if !writable {
        return Closed;
      }
      var encoded := Encode(Event(events, timestamp, frame));
      if encoded.Err? {
        return Refused(encoded.error);
      }
      match outcome
      case Full =>
        file := file + encoded.value;
        events := events + 1;
        return Wrote;
      case Short(n) =>
        writable := false;
        EncodedIsSome(Event(events, timestamp, frame));
        var part := encoded.value[..if n < |encoded.value| then n else |encoded.value| - 1];
        file := file + part;
        return BrokeOff;
    }
  }

  /** A publish, and how its write goes. */
  datatype Publish = Publish(frame: Frame, timestamp: i64, outcome: Outcome)

  /** The events a run of publishes leaves whole in its log: one behind the
      other until a write fails, a message no event holds left out. */
  function Kept(publishes: seq<Publish>, number: nat): seq<Event>
    requires number + |publishes| <= MAX_EVENTS
  {
    if publishes == [] then []
    else
      var p := publishes[0];
      if !Writable(p.frame) then Kept(publishes[1..], number)
      else if p.outcome.Short? then []
      else [Event(number, p.timestamp, p.frame)] + Kept(publishes[1..], number + 1)
  }

  lemma {:induction false} KeptIsNumbered(publishes: seq<Publish>, number: nat)
    requires number + |publishes| <= MAX_EVENTS
    ensures AllWritable(Kept(publishes, number))
    ensures forall i :: 0 <= i < |Kept(publishes, number)| ==> Kept(publishes, number)[i].number == number + i
  {
    if publishes != [] {
      var p := publishes[0];
      if !Writable(p.frame) {
        KeptIsNumbered(publishes[1..], number);
      } else if p.outcome.Full? {
        KeptIsNumbered(publishes[1..], number + 1);
      }
    }
  }

  lemma EncodesWritable(event: Event)
    ensures Encode(event).Ok? <==> Writable(event.frame)
  {
  }

  lemma IsPartOf(event: Event, part: bytes)
    requires Writable(event.frame) && part < Encode(event).value
    ensures IsPart(part)
  {
  }

  /** What one publish adds: an event, or none, or a part of one. */
  method WriteOne(log: LogWriter, p: Publish, ghost there: seq<Event>, ghost part0: bytes)
    returns (ghost added: seq<Event>, ghost part: bytes)
    requires log.events < MAX_EVENTS && (log.writable ==> part0 == []) && IsCut(log.file, there, part0)
    modifies log
    ensures log.events == old(log.events) + |added|
    ensures (log.writable ==> part == []) && IsCut(log.file, there + added, part)
    ensures log.writable == (old(log.writable) && (Writable(p.frame) ==> p.outcome.Full?))
    ensures added == if old(log.writable) && Writable(p.frame) && p.outcome.Full?
                     then [Event(old(log.events), p.timestamp, p.frame)] else []
  {
    hide Encode, Writable, IsPart;
    added, part := [], part0;
    assert there + [] == there;
    ghost var was, file := log.writable, log.file;
    ghost var event := Event(log.events, p.timestamp, p.frame);
    EncodesWritable(event);
    var answer := log.Write(p.frame, p.timestamp, p.outcome);
    if was {
      assert EncodeAll(there) + [] == file;
      if answer.Wrote? {
        EncodeAllSnoc(there, event);
        added := [event];
        assert EncodeAll(there + added) + [] == log.file;
      } else if answer.BrokeOff? {
        part :| part < Encode(event).value && log.file == file + part;
        IsPartOf(event, part);
      }
    }
  }

  /** What is still to be kept of a run, `i` publishes into it. */
  ghost function Rest(publishes: seq<Publish>, i: nat, number: nat, writable: bool): seq<Event>
    requires i <= |publishes| && number <= i && |publishes| <= MAX_EVENTS
  {
    if writable then Kept(publishes[i..], number) else []
  }

  lemma StartOfKept(publishes: seq<Publish>)
    requires |publishes| < MAX_EVENTS
    ensures Kept(publishes, 0) == [] + Rest(publishes, 0, 0, true)
  {
    hide Kept;
    assert publishes[0..] == publishes;
  }

  lemma KeptStep(publishes: seq<Publish>, i: nat, number: nat)
    requires i < |publishes| && number <= i && |publishes| < MAX_EVENTS
    ensures var p := publishes[i];
      Kept(publishes[i..], number) ==
        if !Writable(p.frame) then Kept(publishes[i + 1..], number)
        else if p.outcome.Short? then []
        else [Event(number, p.timestamp, p.frame)] + Kept(publishes[i + 1..], number + 1)
  {
    hide Writable;
    assert publishes[i..][1..] == publishes[i + 1..];
  }

  lemma KeptGoesOn(publishes: seq<Publish>, i: nat, done: seq<Event>, event: seq<Event>, was: bool, now: bool)
    requires |done| <= i < |publishes| < MAX_EVENTS
    requires var p := publishes[i];
      && now == (was && (Writable(p.frame) ==> p.outcome.Full?))
      && event == if was && Writable(p.frame) && p.outcome.Full? then [Event(|done|, p.timestamp, p.frame)] else []
    ensures done + Rest(publishes, i, |done|, was) == done + event + Rest(publishes, i + 1, |done + event|, now)
  {
    hide Kept, Writable;
    KeptStep(publishes, i, |done|);
    var rest := Rest(publishes, i + 1, |done + event|, now);
    assert done + event + rest == done + (event + rest);
    assert [] + rest == rest;
  }

  lemma KeptOfNothing(number: nat)
    requires number <= MAX_EVENTS
    ensures Kept([], number) == []
  {
  }

  lemma NothingIsLeft(publishes: seq<Publish>, done: seq<Event>, writable: bool)
    requires |done| <= |publishes| < MAX_EVENTS
    ensures done + Rest(publishes, |publishes|, |done|, writable) == done
  {
    assert publishes[|publishes|..] == [];
    KeptOfNothing(|done|);
  }

  /** A run of publishes on a log that was opened leaves a cut of one: its file
      holds the events that were there, and behind them the events kept, numbered
      from zero, and at most a part of one more. */
  method WriteAll(log: LogWriter, publishes: seq<Publish>, ghost before: seq<Event>) returns (ghost part: bytes)
    requires IsCut(log.file, before, []) && log.events == 0 && log.writable && |publishes| < MAX_EVENTS
    modifies log
    ensures IsCut(log.file, before + Kept(publishes, 0), part)
    ensures log.writable ==> part == []
    ensures log.events == |Kept(publishes, 0)|
  {
    hide Encode, Writable, IsPart, Kept, IsCut, Rest;
    part := [];
    ghost var done: seq<Event> := [];
    StartOfKept(publishes);
    assert before + [] == before;
    for i := 0 to |publishes|
      invariant log.events == |done| <= i && (log.writable ==> part == [])
      invariant IsCut(log.file, before + done, part)
      invariant Kept(publishes, 0) == done + Rest(publishes, i, |done|, log.writable)
    {
      ghost var event, was := [], log.writable;
      event, part := WriteOne(log, publishes[i], before + done, part);
      assert before + (done + event) == before + done + event;
      KeptGoesOn(publishes, i, done, event, was, log.writable);
      done := done + event;
    }
    NothingIsLeft(publishes, done, log.writable);
  }

  /** What a reader of the log of a run hands over: the events that were there,
      and the messages and times as they were published, numbered from zero; and
      then the end of the log, or a torn one where the last write failed. */
  lemma WrittenLogReplays(file: bytes, before: seq<Event>, publishes: seq<Publish>, part: bytes,
                          start: Option<i64>, wants: (nat, str) -> bool, delivered: seq<Event>, stop: Option<LogStop>)
    requires |publishes| < MAX_EVENTS && IsCut(file, before + Kept(publishes, 0), part)
    requires Steady(file) ==> Gave(file, start, wants, delivered, stop)
    requires stop.Some? && stop.value.AtEnd?
    ensures delivered == HandedOver(start, wants, before + Kept(publishes, 0))
    ensures stop == Some(AtEnd(if part == [] then EndOfLog else TornLog))
  {
    hide Replay, Steady, Kept, HandedOver, IsCut;
    CutReplays(file, before + Kept(publishes, 0), part);
  }

  /** The same of any cut of the log: what is in front of the cut, whole. */
  lemma CutLogReplays(events: seq<Event>, n: nat, start: Option<i64>, wants: (nat, str) -> bool,
                      delivered: seq<Event>, stop: Option<LogStop>) returns (k: nat)
    requires AllWritable(events) && n <= |EncodeAll(events)|
    requires var file := EncodeAll(events)[..n];
      Steady(file) ==> Gave(file, start, wants, delivered, stop)
    requires stop.Some? && stop.value.AtEnd?
    ensures k <= |events| && |EncodeAll(events[..k])| <= n && (k < |events| ==> n < |EncodeAll(events[..k + 1])|)
    ensures delivered == HandedOver(start, wants, events[..k])
    ensures stop == Some(AtEnd(if n == |EncodeAll(events[..k])| then EndOfLog else TornLog))
  {
    hide Replay, Steady, HandedOver, EncodeAll, Writable, IsPart;
    var part: bytes;
    k, part := EveryCutIsOne(events, n);
    assert |EncodeAll(events)[..n]| == |EncodeAll(events[..k])| + |part|;
    CutReplays(EncodeAll(events)[..n], events[..k], part);
  }
}
