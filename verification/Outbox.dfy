/** The frames of one client between its publishers and its writer. Each
    function is one critical section: what it does between taking the lock and
    giving it back, or going to sleep on it. */
module Outboxes {
  import opened Bytes
  import opened Wire

  const OUTBOX_BYTES: nat := 4 * 1024 * 1024
  const OUTBOX_CONTROL_BYTES: nat := 1024 * 1024
  /** A handle of 24 bytes and two words of a 64-bit host. */
  const FRAME_COST: nat := 40

  datatype Lane = Message | Control

  /** How many frames a line let in, how many went out whole, and how many never
      will. */
  datatype Sent = Sent(taken: nat, wrote: nat, lost: nat) {
    function Ended(went: bool): Sent {
      if went then this.(wrote := wrote + 1) else this.(lost := lost + 1)
    }
  }

  datatype Queue = Queue(
    messages: seq<bytes>, control: seq<bytes>,
    waiting: nat, controlWaiting: nat,
    inHand: Option<Lane>,
    line: seq<nat>, nextTicket: nat,
    sent: Sent, controlSent: Sent,
    open: bool)
  {
    function Of(lane: Lane): Sent {
      if lane.Message? then sent else controlSent
    }

    function With(lane: Lane, s: Sent): Queue {
      if lane.Message? then this.(sent := s) else this.(controlSent := s)
    }

    function Frames(lane: Lane): seq<bytes> {
      if lane.Message? then messages else control
    }

    function Waiting(lane: Lane): nat {
      if lane.Message? then waiting else controlWaiting
    }
  }

  /** The queue, the threads asleep until there is room, and whether the one
      writer is asleep until there is a frame. */
  datatype Shared = Shared(q: Queue, room: set<nat>, filled: bool)

  datatype Refused = TooSlow | Gone

  datatype Verdict = Passed | Failed(why: Refused) | Sleeps

  datatype Taken = Took(lane: Lane, frame: bytes) | Nothing | Rests

  function Cost(frame: bytes): nat {
    |frame| + FRAME_COST
  }

  function CostOf(frames: seq<bytes>): nat {
    if frames == [] then 0 else Cost(frames[0]) + CostOf(frames[1..])
  }

  function Fresh(): Shared {
    Shared(Queue([], [], 0, 0, None, [], 0, Sent(0, 0, 0), Sent(0, 0, 0), true), {}, false)
  }

  function Minus(a: nat, b: nat): nat {
    if a > b then a - b else 0
  }

  /** The place of a ticket given up. */
  function Leave(line: seq<nat>, ticket: nat): (rest: seq<nat>)
    ensures forall t :: t in rest <==> t in line && t != ticket
  {
    if line == [] then []
    else (if line[0] == ticket then [] else [line[0]]) + Leave(line[1..], ticket)
  }

  // ---- The critical sections -----------------------------------------------

  function Enter(s: Shared): Shared {
    s.(q := s.q.(line := s.q.line + [s.q.nextTicket], nextTicket := s.q.nextTicket + 1))
  }

  predicate HasRoom(q: Queue, ticket: nat) {
    q.waiting <= OUTBOX_BYTES && q.line != [] && q.line[0] == ticket
  }

  /** One look of a publisher: in, out, or to sleep. */
  function TryMessage(s: Shared, tid: nat, ticket: nat, frame: bytes, late: bool): (Shared, Verdict) {
    if s.q.open && HasRoom(s.q, ticket) then
      (Shared(s.q.(line := s.q.line[1..], waiting := s.q.waiting + Cost(frame), messages := s.q.messages + [frame],
                   sent := s.q.sent.(taken := s.q.sent.taken + 1)), {}, false), Passed)
    else if !s.q.open || late then
      (s.(q := s.q.(line := Leave(s.q.line, ticket)), room := {}), Failed(if s.q.open then TooSlow else Gone))
    else (s.(room := s.room + {tid}), Sleeps)
  }

  function TryControl(s: Shared, tid: nat, frame: bytes, late: bool): (Shared, Verdict) {
    if !s.q.open then (s, Failed(Gone))
    else if s.q.controlWaiting <= OUTBOX_CONTROL_BYTES then
      (s.(q := s.q.(controlWaiting := s.q.controlWaiting + Cost(frame), control := s.q.control + [frame],
                    controlSent := s.q.controlSent.(taken := s.q.controlSent.taken + 1)), filled := false), Passed)
    else if late then (s, Failed(TooSlow))
    else (s.(room := s.room + {tid}), Sleeps)
  }

  /** One look of the writer. Subscriptions go first. */
  function TryTake(s: Shared): (Shared, Taken) {
    if s.q.control != [] then
      var frame := s.q.control[0];
      (s.(q := s.q.(control := s.q.control[1..], controlWaiting := Minus(s.q.controlWaiting, Cost(frame)),
                    inHand := Some(Control)), room := {}), Took(Control, frame))
    else if s.q.messages != [] then
      var frame := s.q.messages[0];
      (s.(q := s.q.(messages := s.q.messages[1..], waiting := Minus(s.q.waiting, Cost(frame)),
                    inHand := Some(Message)), room := {}), Took(Message, frame))
    else if !s.q.open then (s, Nothing)
    else (s.(filled := true), Rests)
  }

  function Done(s: Shared, went: bool): Shared {
    match s.q.inHand
    case None => s
    case Some(lane) =>
      s.(q := s.q.(inHand := None).With(lane, s.q.Of(lane).Ended(went)), room := {})
  }

  predicate Reached(q: Queue, wanted: nat, wantedControl: nat) {
    q.sent.wrote >= wanted && q.controlSent.wrote >= wantedControl
  }

  /** One look of a flush. */
  function TryFlush(s: Shared, tid: nat, wanted: nat, wantedControl: nat, late: bool): (Shared, Verdict) {
    if Reached(s.q, wanted, wantedControl) then (s, Passed)
    else if s.q.sent.lost > 0 || s.q.controlSent.lost > 0 || !s.q.open then (s, Failed(Gone))
    else if late then (s, Failed(TooSlow))
    else (s.(room := s.room + {tid}), Sleeps)
  }

  /** The lines go, and not the frame in hand. */
  function Shut(s: Shared): Shared {
    Shared(s.q.(open := false, messages := [], control := [], waiting := 0, controlWaiting := 0,
                sent := s.q.sent.(lost := s.q.sent.lost + |s.q.messages|),
                controlSent := s.q.controlSent.(lost := s.q.controlSent.lost + |s.q.control|)), {}, false)
  }

  lemma ShutIs(s: Shared)
    ensures var lost, lostControl := s.q.sent.lost + |s.q.messages|, s.q.controlSent.lost + |s.q.control|;
      Shut(s) == Shared(Queue([], [], 0, 0, s.q.inHand, s.q.line, s.q.nextTicket,
                              s.q.sent.(lost := lost), s.q.controlSent.(lost := lostControl), false), {}, false)
  {
  }

  function Abandon(s: Shared): Shared {
    var s := s.(room := {});
    match s.q.inHand
    case None => s
    case Some(lane) =>
      s.(q := s.q.(inHand := None).With(lane, s.q.Of(lane).Ended(false)))
  }

  // ---- The outbox ----------------------------------------------------------

  /** The fields under the lock, and who sleeps on each condition. A method is
      what one thread does in one go; a caller asleep comes back to the same. */
  class Outbox {
    var messages: seq<bytes>
    var control: seq<bytes>
    var waiting: nat
    var controlWaiting: nat
    var inHand: Option<Lane>
    var line: seq<nat>
    var nextTicket: nat
    var sent: Sent
    var controlSent: Sent
    var open: bool
    var room: set<nat>
    var filled: bool

    function State(): Shared
      reads this
    {
      Shared(Queue(messages, control, waiting, controlWaiting, inHand, line, nextTicket, sent, controlSent, open), room, filled)
    }

    constructor ()
      ensures State() == Fresh()
    {
      messages, control, waiting, controlWaiting := [], [], 0, 0;
      inHand, line, nextTicket := None, [], 0;
      sent, controlSent, open := Sent(0, 0, 0), Sent(0, 0, 0), true;
      room, filled := {}, false;
    }

    method NotifyRoom()
      modifies `room
      ensures room == {}
    {
      room := {};
    }

    method NotifyFilled()
      modifies `filled
      ensures !filled
    {
      filled := false;
    }

    method TakeTicket() returns (ticket: nat)
      modifies this
      ensures State() == Enter(old(State())) && ticket == old(nextTicket)
    {
      ticket := nextTicket;
      nextTicket := nextTicket + 1;
      line := line + [ticket];
    }

    /** Takes a ticket out of the line, wherever it stands. */
    method LeaveLine(ticket: nat)
      modifies `line
      ensures line == Leave(old(line), ticket)
    {
      var kept, rest := [], line;
      while rest != []
        invariant kept + Leave(rest, ticket) == Leave(line, ticket)
        invariant line == old(line)
        decreases |rest|
      {
        if rest[0] != ticket {
          kept := kept + [rest[0]];
        }
        rest := rest[1..];
      }
      line := kept;
    }

    method PutMessage(tid: nat, ticket: nat, frame: bytes, late: bool) returns (v: Verdict)
      modifies this
      ensures (State(), v) == TryMessage(old(State()), tid, ticket, frame, late)
    {
      var refused := Gone;
      if open {
        if waiting <= OUTBOX_BYTES && line != [] && line[0] == ticket {
          line := line[1..];
          waiting := waiting + |frame| + FRAME_COST;
          messages := messages + [frame];
          sent := sent.(taken := sent.taken + 1);
          NotifyFilled();
          NotifyRoom();
          return Passed;
        }
        if !late {
          room := room + {tid};
          return Sleeps;
        }
        refused := TooSlow;
      }
      LeaveLine(ticket);
      NotifyRoom();
      return Failed(refused);
    }

    method PutControl(tid: nat, frame: bytes, late: bool) returns (v: Verdict)
      modifies this
      ensures (State(), v) == TryControl(old(State()), tid, frame, late)
    {
      if !open {
        return Failed(Gone);
      }
      if controlWaiting <= OUTBOX_CONTROL_BYTES {
        controlWaiting := controlWaiting + |frame| + FRAME_COST;
        control := control + [frame];
        controlSent := controlSent.(taken := controlSent.taken + 1);
        NotifyFilled();
        return Passed;
      }
      if late {
        return Failed(TooSlow);
      }
      room := room + {tid};
      return Sleeps;
    }

    method Take() returns (t: Taken)
      modifies this
      ensures (State(), t) == TryTake(old(State()))
    {
      if control != [] {
        var frame := control[0];
        control := control[1..];
        controlWaiting := Minus(controlWaiting, |frame| + FRAME_COST);
        inHand := Some(Control);
        NotifyRoom();
        return Took(Control, frame);
      }
      if messages != [] {
        var frame := messages[0];
        messages := messages[1..];
        inHand := Some(Message);
        waiting := Minus(waiting, |frame| + FRAME_COST);
        NotifyRoom();
        return Took(Message, frame);
      }
      if !open {
        return Nothing;
      }
      filled := true;
      return Rests;
    }

    method Count(lane: Lane, went: bool)
      modifies `sent, `controlSent
      ensures sent == if lane.Message? then old(sent).Ended(went) else old(sent)
      ensures controlSent == if lane.Control? then old(controlSent).Ended(went) else old(controlSent)
    {
      match lane
      case Message => sent := if went then sent.(wrote := sent.wrote + 1) else sent.(lost := sent.lost + 1);
      case Control =>
        controlSent := if went then controlSent.(wrote := controlSent.wrote + 1) else controlSent.(lost := controlSent.lost + 1);
    }

    method WriteDone(went: bool)
      modifies this
      ensures State() == Done(old(State()), went)
    {
      if inHand.None? {
        return;
      }
      Count(inHand.value, went);
      inHand := None;
      NotifyRoom();
    }

    /** What a flush waits for: all that was let in when it is called. */
    method FlushedFrom() returns (wanted: nat, wantedControl: nat)
      ensures wanted == sent.taken && wantedControl == controlSent.taken
    {
      return sent.taken, controlSent.taken;
    }

    method Flushed(tid: nat, wanted: nat, wantedControl: nat, late: bool) returns (v: Verdict)
      modifies this
      ensures (State(), v) == TryFlush(old(State()), tid, wanted, wantedControl, late)
    {
      if sent.wrote >= wanted && controlSent.wrote >= wantedControl {
        return Passed;
      }
      if sent.lost > 0 || controlSent.lost > 0 || !open {
        return Failed(Gone);
      }
      if late {
        return Failed(TooSlow);
      }
      room := room + {tid};
      return Sleeps;
    }

    method Close()
      modifies this
      ensures State() == Shut(old(State()))
    {
      hide Shut;
      ShutIs(State());
      open := false;
      var count, countControl := |messages|, |control|;
      messages, control := [], [];
      waiting, controlWaiting := 0, 0;
      sent := sent.(lost := sent.lost + count);
      controlSent := controlSent.(lost := controlSent.lost + countControl);
      NotifyRoom();
      NotifyFilled();
    }

    method GiveUp()
      modifies this
      ensures State() == Abandon(old(State()))
    {
      if inHand.Some? {
        Count(inHand.value, false);
        inHand := None;
      }
      NotifyRoom();
    }
  }

  // ---- The writes of one frame ---------------------------------------------

  /** How one write of a socket goes; a time out moves nothing. */
  datatype Wrote = Bytes(n: nat) | Poll | Error

  /** The bytes the socket takes in front of its first error, or of the first
      write that takes none. */
  function Moved(script: seq<Wrote>): nat {
    if script == [] then 0
    else
      match script[0]
      case Poll => Moved(script[1..])
      case Error => 0
      case Bytes(n) => if n == 0 then 0 else n + Moved(script[1..])
  }

  /** The loop of the writer over one frame: what it put on the stream is the
      front of the frame that the socket takes, and it says it went exactly where
      the socket takes the whole. Where the script ends, the writer stalled or
      was stopped. */
  method WriteFrame(frame: bytes, script: seq<Wrote>) returns (written: bytes, failed: bool)
    ensures written == if Moved(script) < |frame| then frame[..Moved(script)] else frame
    ensures failed <==> Moved(script) < |frame|
  {
    var rest := frame;
    written := [];
    assert script[0..] == script;
    for i := 0 to |script|
      invariant written + rest == frame
      invariant rest != [] ==> |written| + Moved(script[i..]) == Moved(script)
      invariant rest == [] ==> |frame| <= Moved(script)
    {
      if rest == [] {
        break;
      }
      assert script[i..][1..] == script[i + 1..];
      match script[i]
      case Poll =>
      case Error =>
        return written, true;
      case Bytes(n) =>
        if n == 0 {
          return written, true;
        }
        var n := if n < |rest| then n else |rest|;
        written := written + rest[..n];
        rest := rest[n..];
    }
    failed := rest != [];
  }
}
