/** What every run of a relay connection gives its callers, and its relay. */
module RelayRuns {
  import opened Bytes
  import opened Wire
  import opened Streams
  import opened Outboxes
  import opened Relay
  import opened Subscriptions
  import opened Readers
  import Tcpq

  // ---- What only grows -----------------------------------------------------

  ghost predicate Grows(y: System, z: System) {
    && (forall lane: Lane :: y.LetIn(lane) <= z.LetIn(lane))
    && y.s.q.nextTicket <= z.s.q.nextTicket
  }

  lemma LookMessageGrows(y: System, tid: nat, ticket: nat, frame: bytes, late: bool)
    ensures Grows(y, LookMessage(y, tid, ticket, frame, late))
  {
    hide Leave, Cost;
  }

  lemma LookGrows(y: System, tid: nat, t: Thread, late: bool)
    ensures Grows(y, Look(y, tid, t, late))
  {
    hide Leave, LookMessage, Cost;
    if t.Publishing? {
      LookMessageGrows(y, tid, t.ticket, t.frame, late);
    }
  }

  lemma StepGrows(y: System, step: Step)
    requires Enabled(y, step)
    ensures Grows(y, Do(y, step))
  {
    hide Look;
    match step
    case Publish(tid, frame, late) => LookGrows(y.(s := Enter(y.s)), tid, Publishing(y.s.q.nextTicket, frame), late);
    case Subscribe(tid, frame, late) => LookGrows(y, tid, Subscribing(frame), late);
    case Flush(tid, late) => LookGrows(y, tid, Flushing(y.s.q.sent.taken, y.s.q.controlSent.taken), late);
    case Again(tid, late) => LookGrows(Woken(y, tid), tid, y.threads[tid], late);
    case _ =>
  }

  lemma {:induction false} RunGrows(y: System, steps: seq<Step>)
    requires IsRun(y, steps)
    ensures Grows(y, After(y, steps))
    decreases |steps|
  {
    hide Do, Enabled;
    if steps != [] {
      StepGrows(y, steps[0]);
      RunGrows(Do(y, steps[0]), steps[1..]);
    }
  }

  // ---- Flush ---------------------------------------------------------------

  /** Every frame let in before this is whole on the wire. */
  ghost predicate OnTheWire(before: System, now: System) {
    && Flat(FramesOf(now.went)) <= now.wire
    && forall lane: Lane :: before.LetIn(lane) <= InLane(now.went, lane)
  }

  lemma GrowsOn(x: System, y: System, z: System)
    requires Grows(x, y) && Grows(y, z)
    ensures Grows(x, z)
  {
  }

  lemma WroteAll(y: System, z: System, lane: Lane)
    requires Conserved(y, lane) && InOrder(z, lane) && y.LetIn(lane) <= z.LetIn(lane)
    requires z.s.q.Of(lane).wrote >= y.s.q.Of(lane).taken
    ensures y.LetIn(lane) <= InLane(z.went, lane)
  {
    hide InLane, CostOf;
  }

  lemma ReachedIsOnTheWire(y: System, z: System, tid: nat, late: bool)
    requires Inv(y) && Inv(z) && Grows(y, z)
    requires TryFlush(z.s, tid, y.s.q.sent.taken, y.s.q.controlSent.taken, late).1.Passed?
    ensures OnTheWire(y, z)
  {
    hide InLane, FramesOf, Flat, Conserved, InOrder, Held, Lined, Awake, Budgeted, Tail;
    forall lane: Lane
      ensures y.LetIn(lane) <= InLane(z.went, lane)
    {
      assert lane == Message || lane == Control;
      WroteAll(y, z, lane);
    }
  }

  /** A flush is called in some state of some run, and looks again in a later
      one. Where it answers that the frames went, each frame let in before the
      call, of either line, is whole on the wire. */
  lemma FlushIsSound(first: seq<Step>, tid: nat, late: bool, rest: seq<Step>, lateNow: bool)
    requires IsRun(Begin(), first) && Enabled(After(Begin(), first), Flush(tid, late))
    requires IsRun(Do(After(Begin(), first), Flush(tid, late)), rest)
    requires var y := After(Begin(), first);
      var z := After(Do(y, Flush(tid, late)), rest);
      TryFlush(z.s, tid, y.s.q.sent.taken, y.s.q.controlSent.taken, lateNow).1.Passed?
    ensures OnTheWire(After(Begin(), first), After(Do(After(Begin(), first), Flush(tid, late)), rest))
  {
    hide Do, Enabled, After, IsRun, Inv, Grows, OnTheWire, TryFlush;
    var y := After(Begin(), first);
    BeginHolds();
    RunKeepsInv(Begin(), first);
    var called := Do(y, Flush(tid, late));
    StepKeepsInv(y, Flush(tid, late));
    StepGrows(y, Flush(tid, late));
    RunKeepsInv(called, rest);
    RunGrows(called, rest);
    GrowsOn(y, called, After(called, rest));
    ReachedIsOnTheWire(y, After(called, rest), tid, lateNow);
  }

  /** The counts of a connection whose writer is gone, and what was let in. */
  ghost predicate SameBooks(y: System, z: System) {
    && y.writer.Ended? && z.writer.Ended? && !z.s.q.open
    && z.wire == y.wire && z.went == y.went
    && forall lane: Lane :: z.LetIn(lane) == y.LetIn(lane) && z.s.q.Of(lane) == y.s.q.Of(lane)
  }

  lemma ClosedLetsNobodyIn(y: System, tid: nat, t: Thread, late: bool)
    requires !y.s.q.open
    ensures var z := Look(y, tid, t, late);
      && z.writer == y.writer && z.wire == y.wire && z.went == y.went && !z.s.q.open
      && forall lane: Lane :: z.LetIn(lane) == y.LetIn(lane) && z.s.q.Of(lane) == y.s.q.Of(lane)
  {
    hide Leave;
  }

  lemma EndedStays(y: System, step: Step)
    requires y.writer.Ended? && Held(y) && Conserved(y, Message) && Conserved(y, Control) && Enabled(y, step)
    ensures SameBooks(y, Do(y, step))
  {
    hide Look, CostOf;
    match step
    case Publish(tid, frame, late) => ClosedLetsNobodyIn(y.(s := Enter(y.s)), tid, Publishing(y.s.q.nextTicket, frame), late);
    case Subscribe(tid, frame, late) => ClosedLetsNobodyIn(y, tid, Subscribing(frame), late);
    case Flush(tid, late) => ClosedLetsNobodyIn(y, tid, Flushing(y.s.q.sent.taken, y.s.q.controlSent.taken), late);
    case Again(tid, late) => ClosedLetsNobodyIn(Woken(y, tid), tid, y.threads[tid], late);
    case _ =>
  }

  lemma InvIsBooks(y: System)
    requires Inv(y)
    ensures Held(y) && Conserved(y, Message) && Conserved(y, Control)
  {
  }

  lemma EndedIsClosed(y: System)
    requires Held(y) && y.writer.Ended?
    ensures SameBooks(y, y)
  {
  }

  lemma {:induction false} EndedForGood(y: System, rest: seq<Step>)
    requires Inv(y) && y.writer.Ended? && IsRun(y, rest)
    ensures SameBooks(y, After(y, rest))
    decreases |rest|
  {
    hide Inv, Do, Enabled, Held, Conserved;
    InvIsBooks(y);
    if rest == [] {
      EndedIsClosed(y);
    } else {
      StepKeepsInv(y, rest[0]);
      EndedStays(y, rest[0]);
      EndedForGood(Do(y, rest[0]), rest[1..]);
    }
  }

  /** The thread is in its call in every state of this run. */
  ghost predicate Stays(y: System, steps: seq<Step>, tid: nat)
    requires IsRun(y, steps)
    decreases |steps|
  {
    tid in y.threads && (steps == [] || Stays(Do(y, steps[0]), steps[1..], tid))
  }

  lemma LookKeepsCalls(y: System, tid: nat, t: Thread, late: bool)
    ensures var z := Look(y, tid, t, late);
      && (forall k :: k != tid ==> (k in z.threads <==> k in y.threads) && (k in y.threads ==> z.threads[k] == y.threads[k]))
      && (tid in z.threads ==> z.threads[tid] == t)
  {
    hide TryMessage, TryControl, TryFlush;
  }

  /** A call that goes on waits for what it waited for. */
  lemma StepKeepsCall(y: System, step: Step, tid: nat)
    requires Enabled(y, step) && tid in y.threads && tid in Do(y, step).threads
    ensures Do(y, step).threads[tid] == y.threads[tid]
  {
    hide Look;
    match step
    case Publish(k, frame, late) => LookKeepsCalls(y.(s := Enter(y.s)), k, Publishing(y.s.q.nextTicket, frame), late);
    case Subscribe(k, frame, late) => LookKeepsCalls(y, k, Subscribing(frame), late);
    case Flush(k, late) => LookKeepsCalls(y, k, Flushing(y.s.q.sent.taken, y.s.q.controlSent.taken), late);
    case Again(k, late) => LookKeepsCalls(Woken(y, k), k, y.threads[k], late);
    case _ =>
  }

  lemma {:induction false} RunKeepsCall(y: System, steps: seq<Step>, tid: nat)
    requires IsRun(y, steps) && Stays(y, steps, tid)
    ensures tid in After(y, steps).threads && After(y, steps).threads[tid] == y.threads[tid]
    decreases |steps|
  {
    hide Do, Enabled;
    if steps != [] {
      StepKeepsCall(y, steps[0], tid);
      RunKeepsCall(Do(y, steps[0]), steps[1..], tid);
    }
  }

  lemma StaysAtFirst(y: System, steps: seq<Step>, tid: nat)
    requires IsRun(y, steps) && Stays(y, steps, tid)
    ensures tid in y.threads
  {
  }

  /** For as long as a flush lasts it waits for all that was let in before it was
      called, of both lines, and for nothing behind it. */
  lemma FlushWaitsForTheseAlone(first: seq<Step>, tid: nat, late: bool, rest: seq<Step>)
    requires IsRun(Begin(), first) && Enabled(After(Begin(), first), Flush(tid, late))
    requires IsRun(Do(After(Begin(), first), Flush(tid, late)), rest)
    requires Stays(Do(After(Begin(), first), Flush(tid, late)), rest, tid)
    ensures var y := After(Begin(), first);
      var z := After(Do(y, Flush(tid, late)), rest);
      tid in z.threads && z.threads[tid] == Flushing(|y.letIn|, |y.letInControl|)
  {
    hide Enabled, After, IsRun, Look, InOrder, Held, Framed, Lined, Awake, Budgeted, CostOf;
    var y := After(Begin(), first);
    BeginHolds();
    RunKeepsInv(Begin(), first);
    LookKeepsCalls(y, tid, Flushing(y.s.q.sent.taken, y.s.q.controlSent.taken), late);
    StaysAtFirst(Do(y, Flush(tid, late)), rest, tid);
    RunKeepsCall(Do(y, Flush(tid, late)), rest, tid);
  }

  /** Once the writer is gone, each frame let in is counted once: it went, or it
      was lost. And however the threads go on, no frame is let in behind it, and
      no count and no byte of the stream changes. */
  lemma NothingIsUncounted(steps: seq<Step>, rest: seq<Step>, lane: Lane)
    requires IsRun(Begin(), steps) && After(Begin(), steps).writer.Ended?
    requires IsRun(After(Begin(), steps), rest)
    ensures var y, z := After(Begin(), steps), After(After(Begin(), steps), rest);
      && |y.LetIn(lane)| == y.s.q.Of(lane).wrote + y.s.q.Of(lane).lost
      && z.LetIn(lane) == y.LetIn(lane) && z.s.q.Of(lane) == y.s.q.Of(lane) && z.wire == y.wire
      && y.s.q.Frames(lane) == [] && !y.s.q.open
  {
    hide Do, Enabled, After, IsRun, InOrder, Framed, Lined, Awake, Budgeted;
    BeginHolds();
    RunKeepsInv(Begin(), steps);
    EndedForGood(After(Begin(), steps), rest);
  }

  // ---- What each look answers ----------------------------------------------

  /** What the frames of a line take of its room: their bytes, and 40 for each. */
  function RoomOf(frames: seq<bytes>): nat {
    |Flat(frames)| + 40 * |frames|
  }

  lemma {:induction false} CostIsRoom(frames: seq<bytes>)
    ensures CostOf(frames) == RoomOf(frames)
  {
    if frames != [] {
      CostIsRoom(frames[1..]);
    }
  }

  /** A publisher can go in: it is the first that waits, and the messages in
      front of it take no more than 4 MiB. */
  predicate MayPublish(q: Queue, ticket: nat) {
    q.open && q.line != [] && q.line[0] == ticket && RoomOf(q.messages) <= 4194304
  }

  /** A subscription frame can go in: those in front of it take no more than 1 MiB. */
  predicate MaySubscribe(q: Queue) {
    q.open && RoomOf(q.control) <= 1048576
  }

  lemma WaitingIsRoom(steps: seq<Step>)
    requires IsRun(Begin(), steps)
    ensures var q := After(Begin(), steps).s.q;
      q.waiting == RoomOf(q.messages) && q.controlWaiting == RoomOf(q.control)
  {
    hide Do, Enabled, After, IsRun, InOrder, Framed, Lined, Awake, Budgeted, Held, CostOf, RoomOf;
    BeginHolds();
    RunKeepsInv(Begin(), steps);
    CostIsRoom(After(Begin(), steps).s.q.messages);
    CostIsRoom(After(Begin(), steps).s.q.control);
  }

  /** In every reachable state, what one look answers a publisher: it is let in
      exactly where it can go in; it is told that the connection is gone exactly
      where it is; and it gives up only when it is late and cannot go in. */
  lemma PublisherIsAnswered(steps: seq<Step>, tid: nat, ticket: nat, frame: bytes, late: bool)
    requires IsRun(Begin(), steps)
    ensures var y := After(Begin(), steps);
      var answer := TryMessage(y.s, tid, ticket, frame, late).1;
      && (answer == Passed <==> MayPublish(y.s.q, ticket))
      && (answer == Failed(Gone) <==> !y.s.q.open)
      && (answer == Failed(TooSlow) <==> y.s.q.open && late && !MayPublish(y.s.q, ticket))
      && (answer == Sleeps <==> y.s.q.open && !late && !MayPublish(y.s.q, ticket))
  {
    hide After, IsRun, RoomOf, Leave;
    WaitingIsRoom(steps);
  }

  /** The same of a subscription frame. */
  lemma SubscriberIsAnswered(steps: seq<Step>, tid: nat, frame: bytes, late: bool)
    requires IsRun(Begin(), steps)
    ensures var y := After(Begin(), steps);
      var answer := TryControl(y.s, tid, frame, late).1;
      && (answer == Passed <==> MaySubscribe(y.s.q))
      && (answer == Failed(Gone) <==> !y.s.q.open)
      && (answer == Failed(TooSlow) <==> y.s.q.open && late && !MaySubscribe(y.s.q))
      && (answer == Sleeps <==> y.s.q.open && !late && !MaySubscribe(y.s.q))
  {
    hide After, IsRun, RoomOf;
    WaitingIsRoom(steps);
  }

  /** And of the writer: the first subscription frame where there is one, the
      first message where there is none, and nothing only of a closed queue. */
  lemma WriterIsAnswered(s: Shared)
    ensures var taken := TryTake(s).1;
      && (s.q.control != [] ==> taken == Took(Control, s.q.control[0]))
      && (s.q.control == [] && s.q.messages != [] ==> taken == Took(Message, s.q.messages[0]))
      && (taken == Nothing <==> s.q.control == [] && s.q.messages == [] && !s.q.open)
      && (taken == Rests <==> s.q.control == [] && s.q.messages == [] && s.q.open)
  {
  }

  /** What was let in before went exactly where that many are counted. */
  lemma WentIsCounted(y: System, z: System)
    requires Inv(y) && Inv(z) && Grows(y, z)
    ensures y.letIn <= InLane(z.went, Message) <==> z.s.q.sent.wrote >= y.s.q.sent.taken
    ensures y.letInControl <= InLane(z.went, Control) <==> z.s.q.controlSent.wrote >= y.s.q.controlSent.taken
  {
    hide InLane, Held, Framed, Lined, Awake, Budgeted, CostOf;
    assert y.LetIn(Message) <= z.LetIn(Message) && y.LetIn(Control) <= z.LetIn(Control);
    assert InOrder(z, Message) && InOrder(z, Control);
  }

  /** And of a flush: it passes exactly where each frame let in before the call,
      of either line, went, be it late or behind a close. It is told that they
      will not go where one was lost or the queue is closed. */
  lemma FlusherIsAnswered(first: seq<Step>, tid: nat, late: bool, rest: seq<Step>, lateNow: bool)
    requires IsRun(Begin(), first) && Enabled(After(Begin(), first), Flush(tid, late))
    requires IsRun(Do(After(Begin(), first), Flush(tid, late)), rest)
    ensures var y := After(Begin(), first);
      var z := After(Do(y, Flush(tid, late)), rest);
      var answer := TryFlush(z.s, tid, y.s.q.sent.taken, y.s.q.controlSent.taken, lateNow).1;
      var went := y.letIn <= InLane(z.went, Message) && y.letInControl <= InLane(z.went, Control);
      var hopeless := z.s.q.sent.lost + z.s.q.controlSent.lost > 0 || !z.s.q.open;
      && (answer == Passed <==> went)
      && (answer == Failed(Gone) <==> !went && hopeless)
      && (answer == Failed(TooSlow) <==> !went && !hopeless && lateNow)
      && (answer == Sleeps <==> !went && !hopeless && !lateNow)
  {
    hide Do, Enabled, After, IsRun, Inv, Grows;
    var y := After(Begin(), first);
    BeginHolds();
    RunKeepsInv(Begin(), first);
    var called := Do(y, Flush(tid, late));
    StepKeepsInv(y, Flush(tid, late));
    StepGrows(y, Flush(tid, late));
    RunKeepsInv(called, rest);
    RunGrows(called, rest);
    GrowsOn(y, called, After(called, rest));
    WentIsCounted(y, After(called, rest));
  }

  predicate Waits(q: Queue, t: Thread) {
    match t
    case Publishing(ticket, _) => !MayPublish(q, ticket)
    case Subscribing(_) => !MaySubscribe(q)
    case Flushing(wanted, wantedControl) =>
      && (q.sent.wrote < wanted || q.controlSent.wrote < wantedControl)
      && q.sent.lost == 0 && q.controlSent.lost == 0
  }

  /** A thread asleep could not go on, and one that could is awake: a publisher
      or a subscription with room, any of them behind a close, a flush whose
      frames went or will not go, and the writer with a frame to take. */
  lemma NobodySleepsOnWhatIsThere(steps: seq<Step>, tid: nat)
    requires IsRun(Begin(), steps) && tid in After(Begin(), steps).threads
    ensures var y := After(Begin(), steps);
      && (tid in y.s.room ==> y.s.q.open && Waits(y.s.q, y.threads[tid]))
      && (y.writer.Taking? && (y.s.q.messages != [] || y.s.q.control != [] || !y.s.q.open) ==> !y.s.filled)
  {
    hide Do, Enabled, After, IsRun, InOrder, Framed, Lined, Conserved, Held, Budgeted, RoomOf;
    BeginHolds();
    RunKeepsInv(Begin(), steps);
    WaitingIsRoom(steps);
  }

  // ---- Fairness ------------------------------------------------------------

  /** The tickets in front of this one. */
  function Ahead(line: seq<nat>, ticket: nat): nat {
    if line == [] || line[0] == ticket then 0 else 1 + Ahead(line[1..], ticket)
  }

  /** How many messages the writer takes before this ticket has its turn. */
  function Potential(q: Queue, ticket: nat): nat {
    Ahead(q.line, ticket) + |q.messages|
  }

  predicate TakesMessage(y: System, step: Step) {
    step.Take? && y.s.q.control == [] && y.s.q.messages != []
  }

  function MessageTakes(y: System, steps: seq<Step>): nat
    requires IsRun(y, steps)
    decreases |steps|
  {
    if steps == [] then 0
    else (if TakesMessage(y, steps[0]) then 1 else 0) + MessageTakes(Do(y, steps[0]), steps[1..])
  }

  lemma {:induction false} AheadOfMore(line: seq<nat>, ticket: nat, more: nat)
    requires ticket in line
    ensures Ahead(line + [more], ticket) == Ahead(line, ticket)
  {
    if line[0] != ticket {
      AheadOfMore(line[1..], ticket, more);
      assert (line + [more])[1..] == line[1..] + [more];
    }
  }

  lemma {:induction false} AheadOfLess(line: seq<nat>, ticket: nat, gone: nat)
    requires ticket in line && ticket != gone
    ensures Ahead(Leave(line, gone), ticket) <= Ahead(line, ticket)
  {
    if line[0] != ticket {
      AheadOfLess(line[1..], ticket, gone);
      if line[0] != gone {
        assert ([line[0]] + Leave(line[1..], gone))[1..] == Leave(line[1..], gone);
      } else {
        assert [] + Leave(line[1..], gone) == Leave(line[1..], gone);
      }
    } else {
      assert ([line[0]] + Leave(line[1..], gone))[0] == ticket;
    }
  }

  lemma LookMessagePotential(y: System, tid: nat, t: nat, frame: bytes, late: bool, ticket: nat)
    requires Increasing(y.s.q.line) && ticket in y.s.q.line && ticket in LookMessage(y, tid, t, frame, late).s.q.line
    ensures Potential(LookMessage(y, tid, t, frame, late).s.q, ticket) <= Potential(y.s.q, ticket)
  {
    var line := y.s.q.line;
    if y.s.q.open && HasRoom(y.s.q, t) {
      IncreasingRest(line);
    } else if !y.s.q.open || late {
      AheadOfLess(line, ticket, t);
    }
  }

  lemma LookPotential(y: System, tid: nat, t: Thread, late: bool, ticket: nat)
    requires Increasing(y.s.q.line) && ticket in y.s.q.line && ticket in Look(y, tid, t, late).s.q.line
    ensures Potential(Look(y, tid, t, late).s.q, ticket) <= Potential(y.s.q, ticket)
  {
    hide LookMessage, Ahead;
    if t.Publishing? {
      LookMessagePotential(y, tid, t.ticket, t.frame, late, ticket);
    }
  }

  /** No step puts more in front of a ticket, and each message taken takes one
      away, whatever comes in behind it. */
  lemma StepPotential(y: System, step: Step, ticket: nat)
    requires Inv(y) && Enabled(y, step) && ticket in y.s.q.line && ticket in Do(y, step).s.q.line
    ensures Potential(Do(y, step).s.q, ticket) + (if TakesMessage(y, step) then 1 else 0) <= Potential(y.s.q, ticket)
  {
    hide Look, Ahead, Conserved, Held, InOrder, Framed, Awake, Budgeted;
    match step
    case Publish(tid, frame, late) =>
      AheadOfMore(y.s.q.line, ticket, y.s.q.nextTicket);
      IncreasingSnoc(y.s.q.line, y.s.q.nextTicket);
      LookPotential(y.(s := Enter(y.s)), tid, Publishing(y.s.q.nextTicket, frame), late, ticket);
    case Subscribe(tid, frame, late) => LookPotential(y, tid, Subscribing(frame), late, ticket);
    case Flush(tid, late) => LookPotential(y, tid, Flushing(y.s.q.sent.taken, y.s.q.controlSent.taken), late, ticket);
    case Again(tid, late) => LookPotential(Woken(y, tid), tid, y.threads[tid], late, ticket);
    case _ =>
  }

  lemma LookAddsNobody(y: System, tid: nat, t: Thread, late: bool, ticket: nat)
    requires ticket !in y.s.q.line
    ensures ticket !in Look(y, tid, t, late).s.q.line
  {
    hide Leave;
  }

  /** A ticket that left the line is not in it again. */
  lemma StepAddsNobody(y: System, step: Step, ticket: nat)
    requires Enabled(y, step) && ticket !in y.s.q.line && ticket < y.s.q.nextTicket
    ensures ticket !in Do(y, step).s.q.line
  {
    hide Look;
    match step
    case Publish(tid, frame, late) => LookAddsNobody(y.(s := Enter(y.s)), tid, Publishing(y.s.q.nextTicket, frame), late, ticket);
    case Subscribe(tid, frame, late) => LookAddsNobody(y, tid, Subscribing(frame), late, ticket);
    case Flush(tid, late) => LookAddsNobody(y, tid, Flushing(y.s.q.sent.taken, y.s.q.controlSent.taken), late, ticket);
    case Again(tid, late) => LookAddsNobody(Woken(y, tid), tid, y.threads[tid], late, ticket);
    case _ =>
  }

  lemma {:induction false} RunAddsNobody(y: System, steps: seq<Step>, ticket: nat)
    requires IsRun(y, steps) && ticket !in y.s.q.line && ticket < y.s.q.nextTicket
    ensures ticket !in After(y, steps).s.q.line
    decreases |steps|
  {
    hide Do, Enabled;
    if steps != [] {
      StepAddsNobody(y, steps[0], ticket);
      StepGrows(y, steps[0]);
      RunAddsNobody(Do(y, steps[0]), steps[1..], ticket);
    }
  }

  lemma TicketsAreTaken(y: System, ticket: nat)
    requires Inv(y) && ticket in y.s.q.line
    ensures ticket < y.s.q.nextTicket
  {
    hide Conserved, Held, InOrder, Framed, Awake, Budgeted;
  }

  lemma {:induction false} RunPotential(y: System, steps: seq<Step>, ticket: nat)
    requires Inv(y) && IsRun(y, steps) && ticket in y.s.q.line && ticket in After(y, steps).s.q.line
    ensures Potential(After(y, steps).s.q, ticket) + MessageTakes(y, steps) <= Potential(y.s.q, ticket)
    decreases |steps|
  {
    hide Do, Enabled, Inv, Potential, TakesMessage;
    if steps != [] {
      var z := Do(y, steps[0]);
      StepKeepsInv(y, steps[0]);
      TicketsAreTaken(y, ticket);
      StepGrows(y, steps[0]);
      if ticket !in z.s.q.line {
        RunAddsNobody(z, steps[1..], ticket);
      }
      StepPotential(y, steps[0], ticket);
      RunPotential(z, steps[1..], ticket);
    }
  }

  /** A publisher has its turn after no more messages than are in front of it,
      whatever its length and whatever comes behind: it is out of the line, or
      there is room for it now and it is not asleep. */
  lemma EveryPublisherHasItsTurn(first: seq<Step>, rest: seq<Step>, ticket: nat)
    requires IsRun(Begin(), first) && IsRun(After(Begin(), first), rest)
    requires ticket in After(Begin(), first).s.q.line
    requires MessageTakes(After(Begin(), first), rest) >= Potential(After(Begin(), first).s.q, ticket)
    ensures var z := After(After(Begin(), first), rest);
      ticket in z.s.q.line ==>
        && z.s.q.line[0] == ticket && RoomOf(z.s.q.messages) <= 4194304
        && forall tid :: tid in z.threads && z.threads[tid].Publishing? && z.threads[tid].ticket == ticket ==> tid !in z.s.room
  {
    hide Do, Enabled, After, IsRun, MessageTakes, Held, InOrder, Framed, Lined, Budgeted;
    BeginHolds();
    RunKeepsInv(Begin(), first);
    var y := After(Begin(), first);
    RunKeepsInv(y, rest);
    var z := After(y, rest);
    if ticket in z.s.q.line {
      RunPotential(y, rest, ticket);
      CostIsRoom(z.s.q.messages);
    }
  }

  /** The subscription frames the writer took, of all let in. */
  function ControlTaken(y: System): int {
    |y.letInControl| - |y.s.q.control|
  }

  predicate TakesFrame(y: System, step: Step) {
    step.Take? && (y.s.q.control != [] || y.s.q.messages != [])
  }

  function FrameTakes(y: System, steps: seq<Step>): nat
    requires IsRun(y, steps)
    decreases |steps|
  {
    if steps == [] then 0
    else (if TakesFrame(y, steps[0]) then 1 else 0) + FrameTakes(Do(y, steps[0]), steps[1..])
  }

  lemma LookTakesNoControl(y: System, tid: nat, t: Thread, late: bool)
    ensures ControlTaken(Look(y, tid, t, late)) == ControlTaken(y)
    ensures |Look(y, tid, t, late).letInControl| >= |y.letInControl|
  {
    hide Leave;
  }

  /** While a subscription frame waits, each frame taken is one of those in front
      of it in its own line. */
  lemma StepTakesControl(y: System, step: Step, k: nat)
    requires Enabled(y, step) && ControlTaken(y) <= k < |y.letInControl|
    ensures var z := Do(y, step);
      k < |z.letInControl| && ControlTaken(z) >= ControlTaken(y) + if TakesFrame(y, step) then 1 else 0
  {
    hide Look;
    match step
    case Publish(tid, frame, late) => LookTakesNoControl(y.(s := Enter(y.s)), tid, Publishing(y.s.q.nextTicket, frame), late);
    case Subscribe(tid, frame, late) => LookTakesNoControl(y, tid, Subscribing(frame), late);
    case Flush(tid, late) => LookTakesNoControl(y, tid, Flushing(y.s.q.sent.taken, y.s.q.controlSent.taken), late);
    case Again(tid, late) => LookTakesNoControl(Woken(y, tid), tid, y.threads[tid], late);
    case _ =>
  }

  lemma StepNeverUntakes(y: System, step: Step)
    requires Enabled(y, step)
    ensures ControlTaken(Do(y, step)) >= ControlTaken(y)
  {
    hide Look;
    match step
    case Publish(tid, frame, late) => LookTakesNoControl(y.(s := Enter(y.s)), tid, Publishing(y.s.q.nextTicket, frame), late);
    case Subscribe(tid, frame, late) => LookTakesNoControl(y, tid, Subscribing(frame), late);
    case Flush(tid, late) => LookTakesNoControl(y, tid, Flushing(y.s.q.sent.taken, y.s.q.controlSent.taken), late);
    case Again(tid, late) => LookTakesNoControl(Woken(y, tid), tid, y.threads[tid], late);
    case _ =>
  }

  lemma {:induction false} RunNeverUntakes(y: System, steps: seq<Step>)
    requires IsRun(y, steps)
    ensures ControlTaken(After(y, steps)) >= ControlTaken(y)
    decreases |steps|
  {
    hide Do, Enabled, ControlTaken;
    if steps != [] {
      StepNeverUntakes(y, steps[0]);
      RunNeverUntakes(Do(y, steps[0]), steps[1..]);
    }
  }

  /** A subscription frame is taken, or lost, by the time as many frames were
      taken as were in front of it in its own line, and itself: no message goes in
      front of it, however many wait. */
  lemma {:induction false} SubscriptionsGoFirst(y: System, rest: seq<Step>, k: nat)
    requires IsRun(y, rest) && ControlTaken(y) <= k < |y.letInControl|
    requires FrameTakes(y, rest) >= k + 1 - ControlTaken(y)
    ensures ControlTaken(After(y, rest)) > k
    decreases |rest|
  {
    hide Do, Enabled, TakesFrame, ControlTaken;
    if rest != [] {
      StepTakesControl(y, rest[0], k);
      if ControlTaken(Do(y, rest[0])) > k {
        RunNeverUntakes(Do(y, rest[0]), rest[1..]);
      } else {
        SubscriptionsGoFirst(Do(y, rest[0]), rest[1..], k);
      }
    }
  }

  /** Messages are let in in the sequence of their tickets, and the line is
      above its budget by no more than one frame. */
  lemma AdmissionIsInSequence(steps: seq<Step>)
    requires IsRun(Begin(), steps)
    ensures var y := After(Begin(), steps);
      && Increasing(y.admitted) && Increasing(y.s.q.line)
      && (forall a, t :: a in y.admitted && t in y.s.q.line ==> a < t)
      && (y.s.q.messages != [] ==> RoomOf(y.s.q.messages) <= 4194304 + |y.s.q.messages[|y.s.q.messages| - 1]| + 40)
      && (y.s.q.control != [] ==> RoomOf(y.s.q.control) <= 1048576 + |y.s.q.control[|y.s.q.control| - 1]| + 40)
  {
    hide Do, Enabled, After, IsRun, Held, InOrder, Framed, Awake, CostOf, Increasing, RoomOf, Conserved;
    BeginHolds();
    RunKeepsInv(Begin(), steps);
    WaitingIsRoom(steps);
  }

  // ---- From the calls to the relay -----------------------------------------

  /** The frames of a line are these requests. */
  ghost predicate Encodes(frames: seq<bytes>, qs: seq<Tcpq.Request>) {
    && |frames| == |qs|
    && forall i :: 0 <= i < |qs| ==> Tcpq.Fits(qs[i]) && Tcpq.Encode(qs[i]) == Ok(frames[i])
  }

  predicate AllPublish(qs: seq<Tcpq.Request>) {
    forall i :: 0 <= i < |qs| ==> qs[i].Publish?
  }

  predicate NonePublish(qs: seq<Tcpq.Request>) {
    forall i :: 0 <= i < |qs| ==> !qs[i].Publish?
  }

  /** The requests behind the frames that went, in the sequence they went. */
  function QsOf(went: seq<(Lane, bytes)>, msgs: seq<Tcpq.Request>, ctrl: seq<Tcpq.Request>): (qs: seq<Tcpq.Request>)
    requires |InLane(went, Message)| <= |msgs| && |InLane(went, Control)| <= |ctrl|
    ensures |qs| == |went|
  {
    if went == [] then []
    else
      var front := went[..|went| - 1];
      QsOf(front, msgs, ctrl) +
      [if went[|went| - 1].0.Message? then msgs[|InLane(front, Message)|] else ctrl[|InLane(front, Control)|]]
  }

  /** The requests of a sequence that are not messages, and the messages. */
  function Controls(qs: seq<Tcpq.Request>): seq<Tcpq.Request> {
    if qs == [] then []
    else Controls(qs[..|qs| - 1]) + if qs[|qs| - 1].Publish? then [] else [qs[|qs| - 1]]
  }

  function Messages(qs: seq<Tcpq.Request>): seq<Frame> {
    if qs == [] then []
    else Messages(qs[..|qs| - 1]) + if qs[|qs| - 1].Publish? then [qs[|qs| - 1].frame] else []
  }

  lemma NothingWent()
    ensures Flat(FramesOf([])) == []
  {
  }

  lemma LastOfLane(went: seq<(Lane, bytes)>, letIn: seq<bytes>, letInControl: seq<bytes>)
    requires went != []
    requires InLane(went, Message) <= letIn && InLane(went, Control) <= letInControl
    ensures var front, last := went[..|went| - 1], went[|went| - 1];
      var k := |InLane(front, last.0)|;
      && InLane(front, Message) <= letIn && InLane(front, Control) <= letInControl
      && (last.0.Message? ==> k < |letIn| && letIn[k] == last.1)
      && (last.0.Control? ==> k < |letInControl| && letInControl[k] == last.1)
  {
  }

  lemma {:induction false} WentIsEncoded(went: seq<(Lane, bytes)>, letIn: seq<bytes>, letInControl: seq<bytes>,
                                         msgs: seq<Tcpq.Request>, ctrl: seq<Tcpq.Request>)
    requires Encodes(letIn, msgs) && Encodes(letInControl, ctrl)
    requires InLane(went, Message) <= letIn && InLane(went, Control) <= letInControl
    ensures var qs := QsOf(went, msgs, ctrl);
      && (forall i :: 0 <= i < |qs| ==> Tcpq.Fits(qs[i]) && Tcpq.Encode(qs[i]).Ok?)
      && Tcpq.EncodeAll(qs) == Flat(FramesOf(went))
  {
    hide Tcpq.Fits, Tcpq.Encode, Flat, FramesOf;
    if went == [] {
      NothingWent();
    } else {
      var n := |went| - 1;
      var front, last := went[..n], went[n];
      WentIsEncoded(front, letIn, letInControl, msgs, ctrl);
      LastOfLane(went, letIn, letInControl);
      FramesOfSnoc(front, last);
      assert went == front + [last];
      var qs := QsOf(went, msgs, ctrl);
      assert qs[..n] == QsOf(front, msgs, ctrl);
    }
  }

  lemma PartsSnoc(qs: seq<Tcpq.Request>, q: Tcpq.Request)
    ensures Controls(qs + [q]) == if q.Publish? then Controls(qs) else Controls(qs) + [q]
    ensures Messages(qs + [q]) == if q.Publish? then Messages(qs) + [q.frame] else Messages(qs)
  {
    assert (qs + [q])[..|qs|] == qs;
    assert Controls(qs) + [] == Controls(qs) && Messages(qs) + [] == Messages(qs);
  }

  lemma QsSnoc(went: seq<(Lane, bytes)>, msgs: seq<Tcpq.Request>, ctrl: seq<Tcpq.Request>)
    returns (q: Tcpq.Request)
    requires went != [] && |InLane(went, Message)| <= |msgs| && |InLane(went, Control)| <= |ctrl|
    ensures var front, lane := went[..|went| - 1], went[|went| - 1].0;
      && |InLane(front, Message)| <= |msgs| && |InLane(front, Control)| <= |ctrl|
      && QsOf(went, msgs, ctrl) == QsOf(front, msgs, ctrl) + [q]
      && (lane.Message? ==>
          && |InLane(went, Message)| == |InLane(front, Message)| + 1 && |InLane(went, Control)| == |InLane(front, Control)|
          && q == msgs[|InLane(front, Message)|])
      && (lane.Control? ==>
          && |InLane(went, Control)| == |InLane(front, Control)| + 1 && |InLane(went, Message)| == |InLane(front, Message)|
          && q == ctrl[|InLane(front, Control)|])
  {
    q := QsOf(went, msgs, ctrl)[|went| - 1];
  }

  lemma LanesStep(went: seq<(Lane, bytes)>, msgs: seq<Tcpq.Request>, ctrl: seq<Tcpq.Request>, q: Tcpq.Request)
    requires went != [] && |InLane(went, Message)| <= |msgs| && |InLane(went, Control)| <= |ctrl|
    requires AllPublish(msgs) && NonePublish(ctrl)
    requires var front, lane := went[..|went| - 1], went[|went| - 1].0;
      var m, c := |InLane(front, Message)|, |InLane(front, Control)|;
      && m <= |msgs| && c <= |ctrl|
      && QsOf(went, msgs, ctrl) == QsOf(front, msgs, ctrl) + [q]
      && Controls(QsOf(front, msgs, ctrl)) == ctrl[..c]
      && Messages(QsOf(front, msgs, ctrl)) == Messages(msgs[..m])
      && (if lane.Message? then |InLane(went, Message)| == m + 1 && |InLane(went, Control)| == c && q == msgs[m]
          else |InLane(went, Message)| == m && |InLane(went, Control)| == c + 1 && q == ctrl[c])
    ensures Controls(QsOf(went, msgs, ctrl)) == ctrl[..|InLane(went, Control)|]
    ensures Messages(QsOf(went, msgs, ctrl)) == Messages(msgs[..|InLane(went, Message)|])
  {
    hide InLane, QsOf, Controls, Messages;
    var front := went[..|went| - 1];
    var m, c := |InLane(front, Message)|, |InLane(front, Control)|;
    PartsSnoc(QsOf(front, msgs, ctrl), q);
    if went[|went| - 1].0.Message? {
      PartsSnoc(msgs[..m], q);
      assert msgs[..m + 1] == msgs[..m] + [q];
    } else {
      assert ctrl[..c + 1] == ctrl[..c] + [q];
    }
  }

  lemma {:induction false} LanesOf(went: seq<(Lane, bytes)>, msgs: seq<Tcpq.Request>, ctrl: seq<Tcpq.Request>)
    requires |InLane(went, Message)| <= |msgs| && |InLane(went, Control)| <= |ctrl|
    requires AllPublish(msgs) && NonePublish(ctrl)
    ensures Controls(QsOf(went, msgs, ctrl)) == ctrl[..|InLane(went, Control)|]
    ensures Messages(QsOf(went, msgs, ctrl)) == Messages(msgs[..|InLane(went, Message)|])
  {
    if went != [] {
      var q := QsSnoc(went, msgs, ctrl);
      LanesOf(went[..|went| - 1], msgs, ctrl);
      LanesStep(went, msgs, ctrl, q);
    }
  }

  lemma PublishServesNothing(accepts: str -> bool, held: seq<Rule>, q: Tcpq.Request)
    requires q.Publish?
    ensures Serve(accepts, held, q) == held
  {
  }

  /** A message in between changes nothing of the rules. */
  lemma {:induction false} OnlyControlsServe(accepts: str -> bool, held: seq<Rule>, qs: seq<Tcpq.Request>)
    ensures ServeAll(accepts, held, qs) == ServeAll(accepts, held, Controls(qs))
  {
    hide Serve;
    if qs != [] {
      var front, last := qs[..|qs| - 1], qs[|qs| - 1];
      OnlyControlsServe(accepts, held, front);
      if last.Publish? {
        PublishServesNothing(accepts, ServeAll(accepts, held, front), last);
        assert Controls(qs) == Controls(front) + [] == Controls(front);
      } else {
        assert (Controls(front) + [last])[..|Controls(front)|] == Controls(front);
      }
    }
  }

  lemma {:induction false} PartsAppend(a: seq<Tcpq.Request>, b: seq<Tcpq.Request>)
    ensures Controls(a + b) == Controls(a) + Controls(b)
    ensures Messages(a + b) == Messages(a) + Messages(b)
  {
    if b == [] {
      assert a + b == a;
    } else {
      var n := |b| - 1;
      PartsAppend(a, b[..n]);
      assert (a + b)[..|a + b| - 1] == a + b[..n];
    }
  }

  lemma {:induction false} NoMessageIsControl(qs: seq<Tcpq.Request>)
    requires NonePublish(qs)
    ensures Controls(qs) == qs && Messages(qs) == []
  {
    if qs != [] {
      NoMessageIsControl(qs[..|qs| - 1]);
    }
  }

  /** The frames that are whole on the stream: the ones counted, and the one
      between its last write and its count. */
  function Through(y: System): seq<(Lane, bytes)> {
    if Enabled(y, WriteEnds) then y.went + [(y.writer.lane, y.writer.frame)] else y.went
  }

  /** The system with that one counted. */
  function Counted(y: System): System {
    if Enabled(y, WriteEnds) then Do(y, WriteEnds) else y
  }

  lemma LanesAreFronts(y: System)
    requires Inv(y)
    ensures InLane(y.went, Message) <= y.letIn && InLane(y.went, Control) <= y.letInControl
    ensures |InLane(y.went, Message)| == y.s.q.sent.wrote && |InLane(y.went, Control)| == y.s.q.controlSent.wrote
  {
    hide InLane, Conserved, Held, Framed, Lined, Awake, Budgeted;
  }

  lemma CountedIsThrough(y: System)
    requires Inv(y)
    ensures var z := Counted(y);
      && z.went == Through(y) && z.wire == y.wire && z.letIn == y.letIn && z.letInControl == y.letInControl
      && Inv(z) && !Enabled(z, WriteEnds)
      && forall lane: Lane :: z.s.q.Of(lane).wrote == |InLane(Through(y), lane)|
  {
    hide Inv, InLane, Conserved, Held, InOrder, Framed, Lined, Awake, Budgeted;
    if Enabled(y, WriteEnds) {
      StepKeepsInv(y, WriteEnds);
    }
    LanesAreFronts(Counted(y));
    forall lane: Lane
      ensures Counted(y).s.q.Of(lane).wrote == |InLane(Through(y), lane)|
    {
      assert lane == Message || lane == Control;
    }
  }

  lemma SameSizes(y: System, msgs: seq<Tcpq.Request>, ctrl: seq<Tcpq.Request>)
    requires Encodes(y.letIn, msgs) && Encodes(y.letInControl, ctrl)
    ensures |msgs| == |y.letIn| && |ctrl| == |y.letInControl|
  {
  }

  lemma TailIsCut(y: System, tail: bytes) returns (lane: Lane)
    requires Held(y) && InOrder(y, Message) && InOrder(y, Control) && !Enabled(y, WriteEnds)
    requires Tail(y, tail) && tail != []
    ensures CutOfNext(y, lane, tail)
  {
    hide InLane;
    if y.writer.Writing? || y.writer.Torn? {
      lane := y.writer.lane;
      assert InOrder(y, lane);
    } else {
      lane :| CutOfNext(y, lane, tail);
    }
  }

  lemma TailIsFront(y: System, msgs: seq<Tcpq.Request>, ctrl: seq<Tcpq.Request>) returns (tail: bytes)
    requires Inv(y) && !Enabled(y, WriteEnds)
    requires Encodes(y.letIn, msgs) && Encodes(y.letInControl, ctrl)
    ensures y.wire == Flat(FramesOf(y.went)) + tail && Tcpq.IsFront(tail)
  {
    hide InLane, Conserved, Lined, Awake, Budgeted, Flat, FramesOf, Tcpq.Fits, Tcpq.Encode;
    tail := y.wire[|Flat(FramesOf(y.went))|..];
    if tail != [] {
      var lane := TailIsCut(y, tail);
      var wrote := y.s.q.Of(lane).wrote;
      var q := if lane.Message? then msgs[wrote] else ctrl[wrote];
      assert Tcpq.Fits(q) && Tcpq.Encode(q) == Ok(y.LetIn(lane)[wrote]);
    }
  }

  /** In every state of every run the stream is frames, whole and in sequence,
      and the front of at most one more. */
  lemma WireIsWellFramed(steps: seq<Step>, msgs: seq<Tcpq.Request>, ctrl: seq<Tcpq.Request>)
    returns (tail: bytes)
    requires IsRun(Begin(), steps)
    requires Encodes(After(Begin(), steps).letIn, msgs) && Encodes(After(Begin(), steps).letInControl, ctrl)
    ensures var y := After(Begin(), steps);
      && |InLane(Through(y), Message)| <= |msgs| && |InLane(Through(y), Control)| <= |ctrl|
      && var qs := QsOf(Through(y), msgs, ctrl);
         && (forall i :: 0 <= i < |qs| ==> Tcpq.Fits(qs[i]) && Tcpq.Encode(qs[i]).Ok?)
         && y.wire == Tcpq.EncodeAll(qs) + tail && Tcpq.IsFront(tail)
  {
    hide Do, After, IsRun, Inv, Encodes, Enabled, Tcpq.EncodeAll, Tcpq.Fits, Tcpq.Encode, QsOf, Tcpq.IsFront;
    hide Through, Counted;
    BeginHolds();
    RunKeepsInv(Begin(), steps);
    CountedIsThrough(After(Begin(), steps));
    var z := Counted(After(Begin(), steps));
    LanesAreFronts(z);
    SameSizes(z, msgs, ctrl);
    WentIsEncoded(z.went, z.letIn, z.letInControl, msgs, ctrl);
    tail := TailIsFront(z, msgs, ctrl);
  }

  lemma {:induction false} PublishedOfWholes(qs: seq<Tcpq.Request>)
    ensures Published(Tcpq.Wholes(qs)) == Messages(qs)
  {
    if qs != [] {
      PublishedOfWholes(qs[..|qs| - 1]);
      assert Tcpq.Wholes(qs)[..|qs| - 1] == Tcpq.Wholes(qs[..|qs| - 1]);
    }
  }

  lemma AgreeMeans(accepts: str -> bool, t: Told)
    requires Agree(accepts, t)
    ensures Texts(ServeAll(accepts, [], t.line)) == Texts(t.rules)
  {
  }

  /** The bytes of the opening subscriptions, which go before the writer starts. */
  function Openings(rules: seq<Rule>): seq<bytes> {
    if rules == [] then []
    else Openings(rules[..|rules| - 1]) + [Tcpq.EncodePattern(Tcpq.SUBSCRIBE, rules[|rules| - 1].ForARelay())]
  }

  lemma {:induction false} FramesEncode(frames: seq<bytes>, qs: seq<Tcpq.Request>)
    requires Encodes(frames, qs)
    ensures forall i :: 0 <= i < |qs| ==> Tcpq.Encode(qs[i]).Ok?
    ensures Tcpq.EncodeAll(qs) == Flat(frames)
  {
    hide Tcpq.Fits, Tcpq.Encode;
    if qs != [] {
      var n := |qs| - 1;
      FramesEncode(frames[..n], qs[..n]);
      FlatSnoc(frames[..n], frames[n]);
      assert frames == frames[..n] + [frames[n]];
    }
  }

  lemma {:induction false} OpeningsEncode(rules: seq<Rule>)
    requires Encodes(Openings(rules), Opening(rules))
    ensures forall i :: 0 <= i < |Opening(rules)| ==> Tcpq.Fits(Opening(rules)[i]) && Tcpq.Encode(Opening(rules)[i]).Ok?
    ensures Tcpq.EncodeAll(Opening(rules)) == Flat(Openings(rules))
  {
    FramesEncode(Openings(rules), Opening(rules));
  }

  lemma {:induction false} NoneOpens(rules: seq<Rule>)
    ensures NonePublish(Opening(rules))
  {
    if rules != [] {
      NoneOpens(rules[..|rules| - 1]);
    }
  }

  lemma StreamIsRead(opening: seq<Tcpq.Request>, qs: seq<Tcpq.Request>, wire: bytes, tail: bytes, front: bytes,
                     found: seq<Found<Tcpq.Request>>) returns (all: seq<Tcpq.Request>)
    requires forall i :: 0 <= i < |opening| ==> Tcpq.Fits(opening[i]) && Tcpq.Encode(opening[i]).Ok?
    requires forall i :: 0 <= i < |qs| ==> Tcpq.Fits(qs[i]) && Tcpq.Encode(qs[i]).Ok?
    requires front == Tcpq.EncodeAll(opening) && wire == Tcpq.EncodeAll(qs) + tail && Tcpq.IsFront(tail)
    requires EndOf(Parse(Tcpq.DecodeRequest, front + wire), found, Some(Closed))
    ensures all == opening + qs && Requests(found) == all && Published(found) == Messages(all)
  {
    hide Tcpq.Fits, Tcpq.Encode, Tcpq.EncodeAll, Parse, Tcpq.DecodeRequest, Requests, Published, Tcpq.IsFront;
    all := opening + qs;
    Tcpq.EncodeAllAppend(opening, qs);
    assert front + wire == Tcpq.EncodeAll(all) + tail;
    Tcpq.RelayReadsWhatWasWritten(all, tail);
    RequestsOfWholes(all);
    PublishedOfWholes(all);
  }

  /** From the calls of a client, over the two lines, the writer and the bytes,
      to the relay. Where the requests that were let in are ones a relay reads,
      and each subscription frame went, as it did behind a flush, the relay that
      reads the stream to its end holds the client's rules, text for text, and
      hands on exactly the messages that went, in their sequence. */
  lemma RelayHearsTheClient(accepts: str -> bool, rules: seq<Rule>, calls: seq<Call>, steps: seq<Step>,
                            msgs: seq<Tcpq.Request>, ctrl: seq<Tcpq.Request>, found: seq<Found<Tcpq.Request>>)
    requires ApplyAll(accepts, Connected(rules), calls).line == Opening(rules) + ctrl
    requires AllAccepted(accepts, Opening(rules) + ctrl)
    requires Encodes(Openings(rules), Opening(rules))
    requires IsRun(Begin(), steps)
    requires Encodes(After(Begin(), steps).letIn, msgs) && Encodes(After(Begin(), steps).letInControl, ctrl)
    requires AllPublish(msgs) && NonePublish(ctrl)
    requires |InLane(Through(After(Begin(), steps)), Control)| == |ctrl|
    requires EndOf(Parse(Tcpq.DecodeRequest, Flat(Openings(rules)) + After(Begin(), steps).wire), found, Some(Closed))
    ensures Texts(ServeAll(accepts, [], Requests(found))) == Texts(ApplyAll(accepts, Connected(rules), calls).rules)
    ensures |InLane(Through(After(Begin(), steps)), Message)| <= |msgs|
    ensures Published(found) == Messages(msgs[..|InLane(Through(After(Begin(), steps)), Message)|])
  {
    hide *;
    var y := After(Begin(), steps);
    var opening := Opening(rules);
    var tail := WireIsWellFramed(steps, msgs, ctrl);
    var qs := QsOf(Through(y), msgs, ctrl);
    OpeningsEncode(rules);
    var all := StreamIsRead(opening, qs, y.wire, tail, Flat(Openings(rules)), found);
    LanesOf(Through(y), msgs, ctrl);
    assert ctrl[..|ctrl|] == ctrl;
    NoneOpens(rules);
    NoMessageIsControl(opening);
    PartsAppend(opening, qs);
    OnlyControlsServe(accepts, [], all);
    RelayAgrees(accepts, rules, calls);
    AgreeMeans(accepts, ApplyAll(accepts, Connected(rules), calls));
    assert [] + Messages(qs) == Messages(qs);
  }
}
