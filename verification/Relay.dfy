/** The publishers, the subscribers, the flushers and the one writer of a relay
    connection, over every interleaving of their critical sections. */
module Relay {
  import opened Bytes
  import opened Wire
  import opened Outboxes

  /** A call that waits, or is about to look again. */
  datatype Thread =
    | Publishing(ticket: nat, frame: bytes)
    | Subscribing(frame: bytes)
    | Flushing(wanted: nat, wantedControl: nat)

  /** Where the writer is: at the head of its loop, behind a look at `running`
      that let it go on, in `take`, in the writes of one frame, behind a write
      that failed, or on its way out. */
  datatype Writer =
    | AtTop
    | GoingOn
    | Taking
    | Writing(lane: Lane, frame: bytes, at: nat)
    | Torn(lane: Lane, frame: bytes, at: nat)
    | Leaving
    | Shutting
    | Abandoning
    | Ended

  /** The connection, with what came in and what went out on its stream. */
  datatype System = System(
    s: Shared, threads: map<nat, Thread>, writer: Writer, running: bool,
    admitted: seq<nat>,
    letIn: seq<bytes>, letInControl: seq<bytes>,
    went: seq<(Lane, bytes)>, wire: bytes)
  {
    function LetIn(lane: Lane): seq<bytes> {
      if lane.Message? then letIn else letInControl
    }
  }

  datatype Step =
    | Publish(tid: nat, frame: bytes, late: bool)
    | Subscribe(tid: nat, frame: bytes, late: bool)
    | Flush(tid: nat, late: bool)
    /** A thread looks again: it was woken, or its wait ran out, or neither. */
    | Again(tid: nat, late: bool)
    | Close
    | Stop
    | LookOn
    | Take
    | TakeTimesOut
    | Write(n: nat)
    | WriteFails
    | WriteEnds
    | TornEnds
    | Quit
    | Panic
    | ExitShuts
    | ExitAbandons

  function Begin(): System {
    System(Fresh(), map[], AtTop, true, [], [], [], [], [])
  }

  predicate Enabled(y: System, step: Step) {
    match step
    case Publish(tid, _, _) => tid !in y.threads
    case Subscribe(tid, _, _) => tid !in y.threads
    case Flush(tid, _) => tid !in y.threads
    case Again(tid, _) => tid in y.threads
    case Close => true
    case Stop => true
    case LookOn => y.writer.AtTop? && y.running
    case Take => y.writer.Taking? || y.writer.GoingOn?
    case TakeTimesOut => y.writer.Taking?
    case Write(n) => y.writer.Writing? && 0 < n && y.writer.at + n <= |y.writer.frame|
    case WriteFails => y.writer.Writing? && y.writer.at < |y.writer.frame|
    case WriteEnds => y.writer.Writing? && y.writer.at == |y.writer.frame|
    case TornEnds => y.writer.Torn?
    case Quit => y.writer.Leaving? || (y.writer.AtTop? && !y.running)
    case Panic => y.writer.Writing? && y.writer.at < |y.writer.frame|
    case ExitShuts => y.writer.Shutting?
    case ExitAbandons => y.writer.Abandoning?
  }

  function Woken(y: System, tid: nat): System {
    y.(s := y.s.(room := y.s.room - {tid}))
  }

  function LookMessage(y: System, tid: nat, ticket: nat, frame: bytes, late: bool): System {
    var (s, v) := TryMessage(y.s, tid, ticket, frame, late);
    match v
    case Passed => y.(s := s, threads := y.threads - {tid}, admitted := y.admitted + [ticket], letIn := y.letIn + [frame])
    case Failed(_) => y.(s := s, threads := y.threads - {tid})
    case Sleeps => y.(s := s, threads := y.threads[tid := Publishing(ticket, frame)])
  }

  function LookControl(y: System, tid: nat, frame: bytes, late: bool): System {
    var (s, v) := TryControl(y.s, tid, frame, late);
    match v
    case Passed => y.(s := s, threads := y.threads - {tid}, letInControl := y.letInControl + [frame])
    case Failed(_) => y.(s := s, threads := y.threads - {tid})
    case Sleeps => y.(s := s, threads := y.threads[tid := Subscribing(frame)])
  }

  function LookFlush(y: System, tid: nat, wanted: nat, wantedControl: nat, late: bool): System {
    var (s, v) := TryFlush(y.s, tid, wanted, wantedControl, late);
    match v
    case Sleeps => y.(s := s, threads := y.threads[tid := Flushing(wanted, wantedControl)])
    case _ => y.(s := s, threads := y.threads - {tid})
  }

  /** One look of a thread, whatever it waits for. */
  function Look(y: System, tid: nat, t: Thread, late: bool): System {
    match t
    case Publishing(ticket, frame) => LookMessage(y, tid, ticket, frame, late)
    case Subscribing(frame) => LookControl(y, tid, frame, late)
    case Flushing(wanted, wantedControl) => LookFlush(y, tid, wanted, wantedControl, late)
  }

  function LookTake(y: System): System {
    var (s, t) := TryTake(y.s.(filled := false));
    match t
    case Took(lane, frame) => y.(s := s, writer := Writing(lane, frame, 0))
    case Nothing => y.(s := s, writer := AtTop)
    case Rests => y.(s := s, writer := Taking)
  }

  function Do(y: System, step: Step): System
    requires Enabled(y, step)
  {
    match step
    case Publish(tid, frame, late) => Look(y.(s := Enter(y.s)), tid, Publishing(y.s.q.nextTicket, frame), late)
    case Subscribe(tid, frame, late) => Look(y, tid, Subscribing(frame), late)
    case Flush(tid, late) => Look(y, tid, Flushing(y.s.q.sent.taken, y.s.q.controlSent.taken), late)
    case Again(tid, late) => Look(Woken(y, tid), tid, y.threads[tid], late)
    case Close => y.(s := Shut(y.s))
    case Stop => y.(running := false)
    case LookOn => y.(writer := GoingOn)
    case Take => LookTake(y)
    case TakeTimesOut => y.(s := y.s.(filled := false), writer := AtTop)
    case Write(n) =>
      y.(wire := y.wire + y.writer.frame[y.writer.at..y.writer.at + n],
         writer := Writing(y.writer.lane, y.writer.frame, y.writer.at + n))
    case WriteFails => y.(writer := Torn(y.writer.lane, y.writer.frame, y.writer.at))
    case WriteEnds =>
      y.(s := Done(y.s, true), writer := AtTop, went := y.went + [(y.writer.lane, y.writer.frame)])
    case TornEnds => y.(s := Done(y.s, false), writer := Leaving)
    case Quit => y.(writer := Shutting)
    case Panic => y.(writer := Shutting)
    case ExitShuts => y.(s := Shut(y.s), writer := Abandoning)
    case ExitAbandons => y.(s := Abandon(y.s), writer := Ended)
  }

  /** The states of a run: each step is enabled where it is taken. */
  ghost predicate IsRun(y: System, steps: seq<Step>)
    decreases |steps|
  {
    steps == [] || (Enabled(y, steps[0]) && IsRun(Do(y, steps[0]), steps[1..]))
  }

  function After(y: System, steps: seq<Step>): System
    requires IsRun(y, steps)
    decreases |steps|
  {
    if steps == [] then y else After(Do(y, steps[0]), steps[1..])
  }

  // ---- What every step keeps -----------------------------------------------

  /** How many frames of a line the writer holds. */
  function InHand(q: Queue, lane: Lane): nat {
    if q.inHand == Some(lane) then 1 else 0
  }

  /** Every frame let in to a line is written, lost, queued or in hand, and the
      bytes of a line are those of its frames. */
  ghost predicate Conserved(y: System, lane: Lane) {
    var q := y.s.q;
    && q.Of(lane).taken == |y.LetIn(lane)|
    && q.Of(lane).taken == q.Of(lane).wrote + q.Of(lane).lost + |q.Frames(lane)| + InHand(q, lane)
    && q.Waiting(lane) == CostOf(q.Frames(lane))
    && (!q.open ==> q.Frames(lane) == [])
  }

  /** The writer holds a frame exactly where it is in the middle of one, or
      panicked there. */
  ghost predicate Held(y: System) {
    match y.writer
    case Writing(lane, frame, at) => y.s.q.inHand == Some(lane) && at <= |frame|
    case Torn(lane, frame, at) => y.s.q.inHand == Some(lane) && at < |frame|
    case Shutting => true
    case Abandoning => !y.s.q.open
    case Ended => y.s.q.inHand.None? && !y.s.q.open
    case _ => y.s.q.inHand.None?
  }

  predicate Live(w: Writer) {
    w.AtTop? || w.GoingOn? || w.Taking? || w.Writing? || w.Torn?
  }

  function InLane(went: seq<(Lane, bytes)>, lane: Lane): seq<bytes> {
    if went == [] then []
    else
      var last := went[|went| - 1];
      InLane(went[..|went| - 1], lane) + if last.0 == lane then [last.1] else []
  }

  function FramesOf(went: seq<(Lane, bytes)>): seq<bytes> {
    seq(|went|, i requires 0 <= i < |went| => went[i].1)
  }

  /** The frames of a line that are whole on the wire are the first let in; the
      one in hand is the next; and the ones queued are all behind it, for as
      long as nothing was lost. */
  ghost predicate InOrder(y: System, lane: Lane) {
    var wrote := y.s.q.Of(lane).wrote;
    && wrote <= |y.LetIn(lane)|
    && InLane(y.went, lane) == y.LetIn(lane)[..wrote]
    && (y.writer.Writing? || y.writer.Torn? ==> y.writer.lane == lane ==>
        wrote < |y.LetIn(lane)| && y.LetIn(lane)[wrote] == y.writer.frame)
    && (Live(y.writer) && y.s.q.open ==>
        && y.s.q.Of(lane).lost == 0
        && wrote + InHand(y.s.q, lane) <= |y.LetIn(lane)|
        && y.s.q.Frames(lane) == y.LetIn(lane)[wrote + InHand(y.s.q, lane)..])
  }

  /** `tail` is a part, and not the whole, of the next frame of a line. */
  ghost predicate CutOfNext(y: System, lane: Lane, tail: bytes) {
    var wrote := y.s.q.Of(lane).wrote;
    wrote < |y.LetIn(lane)| && tail < y.LetIn(lane)[wrote]
  }

  /** What is on the wire behind the whole frames. */
  ghost predicate Tail(y: System, tail: bytes) {
    match y.writer
    case AtTop => tail == []
    case GoingOn => tail == []
    case Taking => tail == []
    case Writing(_, frame, at) => at <= |frame| && tail == frame[..at]
    case Torn(_, frame, at) => at <= |frame| && tail == frame[..at]
    case _ => tail == [] || exists lane: Lane :: CutOfNext(y, lane, tail)
  }

  ghost predicate Framed(y: System) {
    Flat(FramesOf(y.went)) <= y.wire && Tail(y, y.wire[|Flat(FramesOf(y.went))|..])
  }

  ghost predicate Increasing(s: seq<nat>) {
    forall i, j :: 0 <= i < j < |s| ==> s[i] < s[j]
  }

  /** The line is in the sequence of the tickets, holds those of the threads
      that wait and no other, and is behind every ticket that was let in. */
  ghost predicate Lined(y: System) {
    && Increasing(y.s.q.line) && Increasing(y.admitted)
    && (forall t :: t in y.s.q.line ==> t < y.s.q.nextTicket)
    && (forall t :: t in y.admitted ==> t < y.s.q.nextTicket)
    && (forall a, t :: a in y.admitted && t in y.s.q.line ==> a < t)
    && (forall tid :: tid in y.threads && y.threads[tid].Publishing? ==> y.threads[tid].ticket in y.s.q.line)
    && (forall t :: t in y.s.q.line ==> exists tid :: tid in y.threads && y.threads[tid].Publishing? && y.threads[tid].ticket == t)
    && (forall a, b :: a in y.threads && b in y.threads && a != b && y.threads[a].Publishing? && y.threads[b].Publishing? ==>
        y.threads[a].ticket != y.threads[b].ticket)
  }

  /** A thread would not sleep if it looked now. */
  predicate Ready(q: Queue, t: Thread) {
    match t
    case Publishing(ticket, _) => !q.open || HasRoom(q, ticket)
    case Subscribing(_) => !q.open || q.controlWaiting <= OUTBOX_CONTROL_BYTES
    case Flushing(wanted, wantedControl) =>
      Reached(q, wanted, wantedControl) || q.sent.lost > 0 || q.controlSent.lost > 0 || !q.open
  }

  /** No thread sleeps on what it could have. */
  ghost predicate Awake(y: System) {
    && (forall tid :: tid in y.s.room ==> tid in y.threads && !Ready(y.s.q, y.threads[tid]))
    && (y.s.filled ==> y.writer.Taking? && y.s.q.messages == [] && y.s.q.control == [] && y.s.q.open)
  }

  /** A line is above its budget by no more than its last frame. */
  ghost predicate Budgeted(q: Queue) {
    && (q.messages != [] ==> q.waiting <= OUTBOX_BYTES + Cost(q.messages[|q.messages| - 1]))
    && (q.control != [] ==> q.controlWaiting <= OUTBOX_CONTROL_BYTES + Cost(q.control[|q.control| - 1]))
  }

  ghost predicate Inv(y: System) {
    && Conserved(y, Message) && Conserved(y, Control) && Held(y)
    && InOrder(y, Message) && InOrder(y, Control) && Framed(y)
    && Lined(y) && Awake(y) && Budgeted(y.s.q)
  }

  // ---- Conservation --------------------------------------------------------

  lemma {:induction false} CostOfPush(frames: seq<bytes>, frame: bytes)
    ensures CostOf(frames + [frame]) == CostOf(frames) + Cost(frame)
  {
    if frames != [] {
      CostOfPush(frames[1..], frame);
      assert (frames + [frame])[1..] == frames[1..] + [frame];
    }
  }

  lemma MessageConserves(y: System, tid: nat, ticket: nat, frame: bytes, late: bool, lane: Lane)
    requires Conserved(y, lane)
    ensures Conserved(LookMessage(y, tid, ticket, frame, late), lane)
  {
    hide Leave, CostOf;
    CostOfPush(y.s.q.messages, frame);
  }

  lemma ControlConserves(y: System, tid: nat, frame: bytes, late: bool, lane: Lane)
    requires Conserved(y, lane)
    ensures Conserved(LookControl(y, tid, frame, late), lane)
  {
    hide CostOf;
    CostOfPush(y.s.q.control, frame);
  }

  lemma FlushConserves(y: System, tid: nat, wanted: nat, wantedControl: nat, late: bool, lane: Lane)
    requires Conserved(y, lane)
    ensures Conserved(LookFlush(y, tid, wanted, wantedControl, late), lane)
  {
    hide CostOf;
  }

  lemma LookConserves(y: System, tid: nat, t: Thread, late: bool, lane: Lane)
    requires Conserved(y, lane)
    ensures Conserved(Look(y, tid, t, late), lane)
  {
    hide Leave, CostOf, LookMessage, LookControl, LookFlush;
    match t
    case Publishing(ticket, frame) => MessageConserves(y, tid, ticket, frame, late, lane);
    case Subscribing(frame) => ControlConserves(y, tid, frame, late, lane);
    case Flushing(wanted, wantedControl) => FlushConserves(y, tid, wanted, wantedControl, late, lane);
  }

  lemma TakeConserves(y: System, lane: Lane)
    requires Conserved(y, lane) && y.s.q.inHand.None?
    ensures Conserved(LookTake(y), lane)
  {
  }

  lemma ShutConserves(y: System, step: Step, lane: Lane)
    requires Conserved(y, lane) && Enabled(y, step) && (step.Close? || step.ExitShuts?)
    ensures Conserved(Do(y, step), lane)
  {
  }

  lemma EndConserves(y: System, step: Step, lane: Lane)
    requires Conserved(y, lane) && Enabled(y, step) && (step.WriteEnds? || step.TornEnds? || step.ExitAbandons?)
    ensures Conserved(Do(y, step), lane)
  {
    hide CostOf;
  }

  lemma StepConserves(y: System, step: Step, lane: Lane)
    requires Conserved(y, lane) && Held(y) && Enabled(y, step)
    ensures Conserved(Do(y, step), lane)
  {
    hide Look, LookTake, CostOf, Shut, Done, Abandon;
    match step
    case Publish(tid, frame, late) => LookConserves(y.(s := Enter(y.s)), tid, Publishing(y.s.q.nextTicket, frame), late, lane);
    case Subscribe(tid, frame, late) => LookConserves(y, tid, Subscribing(frame), late, lane);
    case Flush(tid, late) => LookConserves(y, tid, Flushing(y.s.q.sent.taken, y.s.q.controlSent.taken), late, lane);
    case Again(tid, late) => LookConserves(Woken(y, tid), tid, y.threads[tid], late, lane);
    case Take => TakeConserves(y, lane);
    case Close => ShutConserves(y, step, lane);
    case ExitShuts => ShutConserves(y, step, lane);
    case WriteEnds => EndConserves(y, step, lane);
    case TornEnds => EndConserves(y, step, lane);
    case ExitAbandons => EndConserves(y, step, lane);
    case _ =>
  }

  // ---- The frame in hand ---------------------------------------------------

  /** A look of a thread leaves the writer and its frame alone. */
  lemma LookLeavesTheWriter(y: System, tid: nat, t: Thread, late: bool)
    ensures var z := Look(y, tid, t, late);
      && z.writer == y.writer && z.running == y.running && z.went == y.went && z.wire == y.wire
      && z.s.q.inHand == y.s.q.inHand && z.s.q.open == y.s.q.open
      && z.s.q.sent.wrote == y.s.q.sent.wrote && z.s.q.controlSent.wrote == y.s.q.controlSent.wrote
      && z.s.q.sent.lost == y.s.q.sent.lost && z.s.q.controlSent.lost == y.s.q.controlSent.lost
  {
    hide Leave;
  }

  lemma StepKeepsHeld(y: System, step: Step)
    requires Held(y) && Enabled(y, step)
    ensures Held(Do(y, step))
  {
    hide Look;
    match step
    case Publish(tid, frame, late) => LookLeavesTheWriter(y.(s := Enter(y.s)), tid, Publishing(y.s.q.nextTicket, frame), late);
    case Subscribe(tid, frame, late) => LookLeavesTheWriter(y, tid, Subscribing(frame), late);
    case Flush(tid, late) => LookLeavesTheWriter(y, tid, Flushing(y.s.q.sent.taken, y.s.q.controlSent.taken), late);
    case Again(tid, late) => LookLeavesTheWriter(Woken(y, tid), tid, y.threads[tid], late);
    case _ =>
  }

  // ---- The sequence of the frames ------------------------------------------

  /** A frame that goes into a line goes behind the ones let in to it. */
  lemma OrderStays(y: System, z: System, lane: Lane, added: seq<bytes>)
    requires InOrder(y, lane)
    requires z.writer == y.writer && z.went == y.went && z.s.q.inHand == y.s.q.inHand && z.s.q.open == y.s.q.open
    requires z.s.q.Of(lane).wrote == y.s.q.Of(lane).wrote && z.s.q.Of(lane).lost == y.s.q.Of(lane).lost
    requires z.LetIn(lane) == y.LetIn(lane) + added && z.s.q.Frames(lane) == y.s.q.Frames(lane) + added
    ensures InOrder(z, lane)
  {
    hide InLane;
    assert z.LetIn(lane)[..y.s.q.Of(lane).wrote] == y.LetIn(lane)[..y.s.q.Of(lane).wrote];
  }

  lemma MessageLetsIn(y: System, tid: nat, ticket: nat, frame: bytes, late: bool, lane: Lane) returns (added: seq<bytes>)
    ensures var z := LookMessage(y, tid, ticket, frame, late);
      z.LetIn(lane) == y.LetIn(lane) + added && z.s.q.Frames(lane) == y.s.q.Frames(lane) + added
  {
    hide Leave;
    added := if lane.Message? && TryMessage(y.s, tid, ticket, frame, late).1.Passed? then [frame] else [];
  }

  lemma ControlLetsIn(y: System, tid: nat, frame: bytes, late: bool, lane: Lane) returns (added: seq<bytes>)
    ensures var z := LookControl(y, tid, frame, late);
      z.LetIn(lane) == y.LetIn(lane) + added && z.s.q.Frames(lane) == y.s.q.Frames(lane) + added
  {
    added := if lane.Control? && TryControl(y.s, tid, frame, late).1.Passed? then [frame] else [];
  }

  lemma FlushLetsIn(y: System, tid: nat, wanted: nat, wantedControl: nat, late: bool, lane: Lane)
    ensures var z := LookFlush(y, tid, wanted, wantedControl, late);
      z.LetIn(lane) == y.LetIn(lane) + [] && z.s.q.Frames(lane) == y.s.q.Frames(lane) + []
  {
  }

  /** What a look puts in a line, and that it is on both sides of the books. */
  lemma LookLetsIn(y: System, tid: nat, t: Thread, late: bool, lane: Lane) returns (added: seq<bytes>)
    ensures var z := Look(y, tid, t, late);
      z.LetIn(lane) == y.LetIn(lane) + added && z.s.q.Frames(lane) == y.s.q.Frames(lane) + added
  {
    hide Leave, LookMessage, LookControl, LookFlush;
    match t
    case Publishing(ticket, frame) => added := MessageLetsIn(y, tid, ticket, frame, late, lane);
    case Subscribing(frame) => added := ControlLetsIn(y, tid, frame, late, lane);
    case Flushing(wanted, wantedControl) =>
      added := [];
      FlushLetsIn(y, tid, wanted, wantedControl, late, lane);
  }

  lemma LookKeepsOrder(y: System, tid: nat, t: Thread, late: bool, lane: Lane)
    requires InOrder(y, lane)
    ensures InOrder(Look(y, tid, t, late), lane)
  {
    hide InOrder, Look;
    LookLeavesTheWriter(y, tid, t, late);
    var added := LookLetsIn(y, tid, t, late, lane);
    OrderStays(y, Look(y, tid, t, late), lane, added);
  }

  lemma TakeKeepsOrder(y: System, lane: Lane)
    requires InOrder(y, lane) && y.s.q.inHand.None? && (y.writer.GoingOn? || y.writer.Taking?)
    requires !y.s.q.open ==> y.s.q.messages == [] && y.s.q.control == []
    ensures InOrder(LookTake(y), lane)
  {
    hide InLane;
  }

  lemma InLaneSnoc(went: seq<(Lane, bytes)>, last: (Lane, bytes), lane: Lane)
    ensures InLane(went + [last], lane) == InLane(went, lane) + if last.0 == lane then [last.1] else []
  {
    assert (went + [last])[..|went|] == went;
  }

  lemma WriteEndKeepsOrder(y: System, lane: Lane)
    requires InOrder(y, lane) && Held(y) && Enabled(y, WriteEnds)
    ensures InOrder(Do(y, WriteEnds), lane)
  {
    hide InLane;
    InLaneSnoc(y.went, (y.writer.lane, y.writer.frame), lane);
    if lane == y.writer.lane {
      var wrote := y.s.q.Of(lane).wrote;
      assert y.LetIn(lane)[..wrote + 1] == y.LetIn(lane)[..wrote] + [y.writer.frame];
    }
  }

  /** Steps of the writer, and a close, that write no frame to its end. */
  lemma WriterKeepsOrder(y: System, step: Step, lane: Lane)
    requires InOrder(y, lane) && Held(y) && Conserved(y, lane) && Enabled(y, step)
    requires step.Close? || step.Stop? || step.LookOn? || step.TakeTimesOut? || step.Write? || step.WriteFails?
    ensures InOrder(Do(y, step), lane)
  {
    hide InLane, CostOf;
  }

  lemma LeavingKeepsOrder(y: System, step: Step, lane: Lane)
    requires InOrder(y, lane) && Held(y) && Enabled(y, step)
    requires step.TornEnds? || step.Quit? || step.Panic? || step.ExitShuts? || step.ExitAbandons?
    ensures InOrder(Do(y, step), lane)
  {
    hide InLane, CostOf;
  }

  lemma EntersInOrder(y: System, lane: Lane)
    requires InOrder(y, lane)
    ensures InOrder(y.(s := Enter(y.s)), lane)
  {
    hide InLane;
  }

  lemma WakesInOrder(y: System, tid: nat, lane: Lane)
    requires InOrder(y, lane)
    ensures InOrder(Woken(y, tid), lane)
  {
    hide InLane;
  }

  lemma TakesFromNothing(y: System)
    requires Held(y) && Conserved(y, Message) && Conserved(y, Control) && (y.writer.GoingOn? || y.writer.Taking?)
    ensures y.s.q.inHand.None? && (!y.s.q.open ==> y.s.q.messages == [] && y.s.q.control == [])
  {
  }

  lemma StepKeepsOrder(y: System, step: Step, lane: Lane)
    requires InOrder(y, lane) && Held(y) && Conserved(y, Message) && Conserved(y, Control) && Enabled(y, step)
    ensures InOrder(Do(y, step), lane)
  {
    hide InLane, Look, LookTake, CostOf, InOrder, Conserved, Held;
    EntersInOrder(y, lane);
    match step
    case Publish(tid, frame, late) => LookKeepsOrder(y.(s := Enter(y.s)), tid, Publishing(y.s.q.nextTicket, frame), late, lane);
    case Subscribe(tid, frame, late) => LookKeepsOrder(y, tid, Subscribing(frame), late, lane);
    case Flush(tid, late) => LookKeepsOrder(y, tid, Flushing(y.s.q.sent.taken, y.s.q.controlSent.taken), late, lane);
    case Again(tid, late) =>
      WakesInOrder(y, tid, lane);
      LookKeepsOrder(Woken(y, tid), tid, y.threads[tid], late, lane);
    case Take =>
      TakesFromNothing(y);
      TakeKeepsOrder(y, lane);
    case WriteEnds => WriteEndKeepsOrder(y, lane);
    case TornEnds => LeavingKeepsOrder(y, step, lane);
    case Quit => LeavingKeepsOrder(y, step, lane);
    case Panic => LeavingKeepsOrder(y, step, lane);
    case ExitShuts => LeavingKeepsOrder(y, step, lane);
    case ExitAbandons => LeavingKeepsOrder(y, step, lane);
    case _ => WriterKeepsOrder(y, step, lane);
  }

  // ---- The bytes on the wire -----------------------------------------------

  lemma FramesOfSnoc(went: seq<(Lane, bytes)>, last: (Lane, bytes))
    ensures Flat(FramesOf(went + [last])) == Flat(FramesOf(went)) + last.1
  {
    assert FramesOf(went + [last]) == FramesOf(went) + [last.1];
    FlatSnoc(FramesOf(went), last.1);
  }

  /** Nothing but what comes in changes: what is on the wire is what it was. */
  lemma FramedStays(y: System, z: System)
    requires Framed(y) && z.wire == y.wire && z.went == y.went && z.writer == y.writer
    requires forall lane: Lane :: z.s.q.Of(lane).wrote == y.s.q.Of(lane).wrote && y.LetIn(lane) <= z.LetIn(lane)
    ensures Framed(z)
  {
    hide FramesOf, Flat;
    var tail := y.wire[|Flat(FramesOf(y.went))|..];
    forall lane: Lane | CutOfNext(y, lane, tail)
      ensures CutOfNext(z, lane, tail)
    {
      assert z.LetIn(lane)[y.s.q.Of(lane).wrote] == y.LetIn(lane)[y.s.q.Of(lane).wrote];
    }
  }

  lemma LookKeepsFramed(y: System, tid: nat, t: Thread, late: bool)
    requires Framed(y)
    ensures Framed(Look(y, tid, t, late))
  {
    hide Framed, Look;
    LookLeavesTheWriter(y, tid, t, late);
    var m := LookLetsIn(y, tid, t, late, Message);
    var c := LookLetsIn(y, tid, t, late, Control);
    FramedStays(y, Look(y, tid, t, late));
  }

  lemma WriteKeepsFramed(y: System, n: nat)
    requires Framed(y) && Enabled(y, Write(n))
    ensures Framed(Do(y, Write(n)))
  {
    hide FramesOf, Flat;
    var w := y.writer;
    var front := |Flat(FramesOf(y.went))|;
    assert Do(y, Write(n)).wire[front..] == y.wire[front..] + w.frame[w.at..w.at + n];
    assert w.frame[..w.at + n] == w.frame[..w.at] + w.frame[w.at..w.at + n];
  }

  lemma WriteEndKeepsFramed(y: System)
    requires Framed(y) && Enabled(y, WriteEnds)
    ensures Framed(Do(y, WriteEnds))
  {
    hide FramesOf, Flat;
    FramesOfSnoc(y.went, (y.writer.lane, y.writer.frame));
    assert y.writer.frame[..y.writer.at] == y.writer.frame;
  }

  lemma TakeKeepsFramed(y: System)
    requires Framed(y) && Enabled(y, Step.Take)
    ensures Framed(LookTake(y))
  {
    hide FramesOf, Flat;
  }

  /** The writer goes: what it leaves is a part of the frame it had in hand. */
  lemma LeavingKeepsFramed(y: System, step: Step)
    requires Framed(y) && Held(y) && InOrder(y, Message) && InOrder(y, Control) && Enabled(y, step)
    requires step.TornEnds? || step.Panic?
    ensures Framed(Do(y, step))
  {
    hide FramesOf, Flat, InLane;
    var tail := y.wire[|Flat(FramesOf(y.went))|..];
    var lane := y.writer.lane;
    assert InOrder(y, lane);
    assert tail < y.writer.frame;
    assert CutOfNext(Do(y, step), lane, tail);
  }

  lemma ShutKeepsFramed(y: System, step: Step)
    requires Framed(y) && Enabled(y, step)
    requires step.Close? || step.ExitShuts? || step.ExitAbandons?
    ensures Framed(Do(y, step))
  {
    hide FramesOf, Flat;
    var tail := y.wire[|Flat(FramesOf(y.went))|..];
    forall lane: Lane | CutOfNext(y, lane, tail)
      ensures CutOfNext(Do(y, step), lane, tail)
    {
    }
  }

  lemma QuietKeepsFramed(y: System, step: Step)
    requires Framed(y) && Enabled(y, step)
    requires step.Stop? || step.LookOn? || step.TakeTimesOut? || step.WriteFails? || step.Quit?
    ensures Framed(Do(y, step))
  {
    hide FramesOf, Flat;
    var tail := y.wire[|Flat(FramesOf(y.went))|..];
    forall lane: Lane | CutOfNext(y, lane, tail)
      ensures CutOfNext(Do(y, step), lane, tail)
    {
    }
  }

  lemma StepKeepsFramed(y: System, step: Step)
    requires Framed(y) && Held(y) && InOrder(y, Message) && InOrder(y, Control) && Enabled(y, step)
    ensures Framed(Do(y, step))
  {
    hide Look, LookTake, InOrder, Framed, Held;
    match step
    case Publish(tid, frame, late) =>
      FramedStays(y, y.(s := Enter(y.s)));
      LookKeepsFramed(y.(s := Enter(y.s)), tid, Publishing(y.s.q.nextTicket, frame), late);
    case Subscribe(tid, frame, late) => LookKeepsFramed(y, tid, Subscribing(frame), late);
    case Flush(tid, late) => LookKeepsFramed(y, tid, Flushing(y.s.q.sent.taken, y.s.q.controlSent.taken), late);
    case Again(tid, late) =>
      FramedStays(y, Woken(y, tid));
      LookKeepsFramed(Woken(y, tid), tid, y.threads[tid], late);
    case Take => TakeKeepsFramed(y);
    case Write(n) => WriteKeepsFramed(y, n);
    case WriteEnds => WriteEndKeepsFramed(y);
    case TornEnds => LeavingKeepsFramed(y, step);
    case Panic => LeavingKeepsFramed(y, step);
    case Close => ShutKeepsFramed(y, step);
    case ExitShuts => ShutKeepsFramed(y, step);
    case ExitAbandons => ShutKeepsFramed(y, step);
    case _ => QuietKeepsFramed(y, step);
  }

  // ---- The line ------------------------------------------------------------

  lemma IncreasingCons(x: nat, s: seq<nat>)
    requires Increasing(s) && forall t :: t in s ==> x < t
    ensures Increasing([x] + s)
  {
    assert forall i :: 0 <= i < |s| ==> s[i] in s;
  }

  lemma IncreasingSnoc(s: seq<nat>, x: nat)
    requires Increasing(s) && forall t :: t in s ==> t < x
    ensures Increasing(s + [x])
  {
    assert forall i :: 0 <= i < |s| ==> s[i] in s;
  }

  lemma IncreasingRest(s: seq<nat>)
    requires Increasing(s) && s != []
    ensures Increasing(s[1..]) && forall t :: t in s[1..] ==> s[0] < t
  {
  }

  lemma {:induction false} LeaveKeepsSequence(line: seq<nat>, ticket: nat)
    requires Increasing(line)
    ensures Increasing(Leave(line, ticket))
  {
    if line != [] {
      IncreasingRest(line);
      LeaveKeepsSequence(line[1..], ticket);
      IncreasingCons(line[0], Leave(line[1..], ticket));
      assert [] + Leave(line[1..], ticket) == Leave(line[1..], ticket);
    }
  }

  lemma FirstIsAdmitted(y: System, z: System, tid: nat)
    requires Lined(y) && tid in y.threads && y.threads[tid].Publishing?
    requires var ticket := y.threads[tid].ticket;
      && y.s.q.line != [] && y.s.q.line[0] == ticket
      && z.s.q.line == y.s.q.line[1..] && z.s.q.nextTicket == y.s.q.nextTicket
      && z.admitted == y.admitted + [ticket] && z.threads == y.threads - {tid}
    ensures Lined(z)
  {
    hide Increasing;
    var line := y.s.q.line;
    IncreasingRest(line);
    IncreasingSnoc(y.admitted, line[0]);
    assert forall t :: t in line <==> t == line[0] || t in line[1..];
    assert forall t :: t in z.admitted <==> t == line[0] || t in y.admitted;
    forall t | t in line[1..]
      ensures exists a :: a in z.threads && z.threads[a].Publishing? && z.threads[a].ticket == t
    {
      var a :| a in y.threads && y.threads[a].Publishing? && y.threads[a].ticket == t;
      assert a in z.threads;
    }
  }

  lemma AdmitKeepsLine(y: System, tid: nat, ticket: nat, frame: bytes, late: bool)
    requires Lined(y) && tid in y.threads && y.threads[tid] == Publishing(ticket, frame)
    requires y.s.q.open && HasRoom(y.s.q, ticket)
    ensures Lined(LookMessage(y, tid, ticket, frame, late))
  {
    hide Lined, Cost;
    FirstIsAdmitted(y, LookMessage(y, tid, ticket, frame, late), tid);
  }

  lemma LeaveKeepsLine(y: System, tid: nat, ticket: nat, frame: bytes, late: bool)
    requires Lined(y) && tid in y.threads && y.threads[tid] == Publishing(ticket, frame)
    requires !(y.s.q.open && HasRoom(y.s.q, ticket)) && (!y.s.q.open || late)
    requires Increasing(Leave(y.s.q.line, ticket))
    ensures Lined(LookMessage(y, tid, ticket, frame, late))
  {
    hide Increasing, Leave;
    var z := LookMessage(y, tid, ticket, frame, late);
    forall t | t in z.s.q.line
      ensures exists a :: a in z.threads && z.threads[a].Publishing? && z.threads[a].ticket == t
    {
      var a :| a in y.threads && y.threads[a].Publishing? && y.threads[a].ticket == t;
      assert a in z.threads;
    }
  }

  /** A look of a publisher that is in its place in the line. */
  lemma LookMessageKeepsLine(y: System, tid: nat, ticket: nat, frame: bytes, late: bool)
    requires Lined(y) && tid in y.threads && y.threads[tid] == Publishing(ticket, frame)
    ensures Lined(LookMessage(y, tid, ticket, frame, late))
  {
    var line := y.s.q.line;
    var z := LookMessage(y, tid, ticket, frame, late);
    if y.s.q.open && HasRoom(y.s.q, ticket) {
      AdmitKeepsLine(y, tid, ticket, frame, late);
    } else if !y.s.q.open || late {
      LeaveKeepsSequence(line, ticket);
      LeaveKeepsLine(y, tid, ticket, frame, late);
    } else {
      assert z.threads == y.threads;
    }
  }

  /** The other looks, and the steps of the writer, leave the line alone. */
  lemma LineStays(y: System, z: System)
    requires Lined(y) && z.s.q.line == y.s.q.line && z.s.q.nextTicket == y.s.q.nextTicket && z.admitted == y.admitted
    requires forall tid :: tid in y.threads && y.threads[tid].Publishing? ==> tid in z.threads && z.threads[tid] == y.threads[tid]
    requires forall tid :: tid in z.threads && z.threads[tid].Publishing? ==> tid in y.threads && y.threads[tid] == z.threads[tid]
    ensures Lined(z)
  {
    hide Increasing;
    forall t | t in z.s.q.line
      ensures exists a :: a in z.threads && z.threads[a].Publishing? && z.threads[a].ticket == t
    {
      var a :| a in y.threads && y.threads[a].Publishing? && y.threads[a].ticket == t;
      assert a in z.threads;
    }
  }

  /** A publisher comes in at the end of the line. */
  lemma EnterKeepsLine(y: System, tid: nat, frame: bytes)
    requires Lined(y) && tid !in y.threads
    ensures Lined(y.(s := Enter(y.s), threads := y.threads[tid := Publishing(y.s.q.nextTicket, frame)]))
  {
    var z := y.(s := Enter(y.s), threads := y.threads[tid := Publishing(y.s.q.nextTicket, frame)]);
    IncreasingSnoc(y.s.q.line, y.s.q.nextTicket);
    hide Increasing;
    forall t | t in z.s.q.line
      ensures exists a :: a in z.threads && z.threads[a].Publishing? && z.threads[a].ticket == t
    {
      if t == y.s.q.nextTicket {
        assert z.threads[tid].ticket == t;
      } else {
        var a :| a in y.threads && y.threads[a].Publishing? && y.threads[a].ticket == t;
        assert a in z.threads && z.threads[a] == y.threads[a];
      }
    }
  }

  lemma PublishKeepsLine(y: System, tid: nat, frame: bytes, late: bool)
    requires Lined(y) && tid !in y.threads
    ensures Lined(Do(y, Publish(tid, frame, late)))
  {
    hide Lined, TryMessage;
    var ticket := y.s.q.nextTicket;
    var z := y.(s := Enter(y.s), threads := y.threads[tid := Publishing(ticket, frame)]);
    EnterKeepsLine(y, tid, frame);
    LookMessageKeepsLine(z, tid, ticket, frame, late);
    assert z.threads - {tid} == y.threads - {tid};
    assert z.threads[tid := Publishing(ticket, frame)] == y.threads[tid := Publishing(ticket, frame)];
  }

  lemma OtherLookKeepsLine(y: System, tid: nat, t: Thread, late: bool)
    requires Lined(y) && !t.Publishing? && (tid in y.threads ==> !y.threads[tid].Publishing?)
    ensures Lined(Look(y, tid, t, late))
  {
    hide Lined;
    LineStays(y, Look(y, tid, t, late));
  }

  lemma StepKeepsLine(y: System, step: Step)
    requires Lined(y) && Enabled(y, step)
    ensures Lined(Do(y, step))
  {
    hide Lined, LookMessage, LookControl, LookFlush;
    match step
    case Publish(tid, frame, late) => PublishKeepsLine(y, tid, frame, late);
    case Subscribe(tid, frame, late) => OtherLookKeepsLine(y, tid, Subscribing(frame), late);
    case Flush(tid, late) => OtherLookKeepsLine(y, tid, Flushing(y.s.q.sent.taken, y.s.q.controlSent.taken), late);
    case Again(tid, late) =>
      LineStays(y, Woken(y, tid));
      if y.threads[tid].Publishing? {
        LookMessageKeepsLine(Woken(y, tid), tid, y.threads[tid].ticket, y.threads[tid].frame, late);
      } else {
        OtherLookKeepsLine(Woken(y, tid), tid, y.threads[tid], late);
      }
    case _ => LineStays(y, Do(y, step));
  }

  // ---- Sleep ---------------------------------------------------------------

  /** A look of a thread that was not asleep, on a system where the sleepers
      sleep for a reason. It leaves the thread asleep only for one. */
  lemma LookKeepsAwake(y: System, tid: nat, t: Thread, late: bool)
    requires Awake(y) && tid !in y.s.room
    ensures Awake(Look(y, tid, t, late))
  {
    hide Leave;
    match t
    case Publishing(ticket, frame) =>
    case Subscribing(frame) =>
    case Flushing(wanted, wantedControl) =>
  }

  /** A ticket at the end of the line lets nobody through. */
  lemma EnterKeepsAwake(y: System)
    requires Awake(y) && Lined(y)
    ensures Awake(y.(s := Enter(y.s)))
  {
    hide Increasing;
    var z := y.(s := Enter(y.s));
    forall tid | tid in z.s.room
      ensures tid in z.threads && !Ready(z.s.q, z.threads[tid])
    {
      if y.threads[tid].Publishing? {
        assert y.threads[tid].ticket in y.s.q.line;
      }
    }
  }

  lemma WriterKeepsAwake(y: System, step: Step)
    requires Awake(y) && Held(y) && Enabled(y, step)
    requires !step.Publish? && !step.Subscribe? && !step.Flush? && !step.Again?
    ensures Awake(Do(y, step))
  {
  }

  lemma StrangersDoNotSleep(y: System, tid: nat)
    requires Awake(y) && tid !in y.threads
    ensures tid !in y.s.room
  {
  }

  lemma WokenIsAwake(y: System, tid: nat)
    requires Awake(y)
    ensures Awake(Woken(y, tid)) && tid !in Woken(y, tid).s.room
  {
  }

  lemma StepKeepsAwake(y: System, step: Step)
    requires Awake(y) && Held(y) && Lined(y) && Enabled(y, step)
    ensures Awake(Do(y, step))
  {
    hide Awake, Look, LookTake, Held, Lined;
    match step
    case Publish(tid, frame, late) =>
      EnterKeepsAwake(y);
      StrangersDoNotSleep(y, tid);
      LookKeepsAwake(y.(s := Enter(y.s)), tid, Publishing(y.s.q.nextTicket, frame), late);
    case Subscribe(tid, frame, late) =>
      StrangersDoNotSleep(y, tid);
      LookKeepsAwake(y, tid, Subscribing(frame), late);
    case Flush(tid, late) =>
      StrangersDoNotSleep(y, tid);
      LookKeepsAwake(y, tid, Flushing(y.s.q.sent.taken, y.s.q.controlSent.taken), late);
    case Again(tid, late) =>
      WokenIsAwake(y, tid);
      LookKeepsAwake(Woken(y, tid), tid, y.threads[tid], late);
    case _ => WriterKeepsAwake(y, step);
  }

  // ---- The budget ----------------------------------------------------------

  lemma LookKeepsBudget(y: System, tid: nat, t: Thread, late: bool)
    requires Budgeted(y.s.q)
    ensures Budgeted(Look(y, tid, t, late).s.q)
  {
    hide Leave, Cost;
  }

  lemma TakeKeepsBudget(y: System)
    requires Budgeted(y.s.q)
    ensures Budgeted(LookTake(y).s.q)
  {
    hide Cost;
  }

  lemma EndKeepsBudget(y: System, went: bool)
    requires Budgeted(y.s.q)
    ensures Budgeted(Done(y.s, went).q) && Budgeted(Abandon(y.s).q)
  {
    hide Cost;
  }

  lemma StepKeepsBudget(y: System, step: Step)
    requires Budgeted(y.s.q) && Enabled(y, step)
    ensures Budgeted(Do(y, step).s.q)
  {
    hide Look, LookTake, Cost, Done, Abandon, Queue.Of, Queue.With;
    match step
    case Publish(tid, frame, late) => LookKeepsBudget(y.(s := Enter(y.s)), tid, Publishing(y.s.q.nextTicket, frame), late);
    case Subscribe(tid, frame, late) => LookKeepsBudget(y, tid, Subscribing(frame), late);
    case Flush(tid, late) => LookKeepsBudget(y, tid, Flushing(y.s.q.sent.taken, y.s.q.controlSent.taken), late);
    case Again(tid, late) => LookKeepsBudget(Woken(y, tid), tid, y.threads[tid], late);
    case Take => TakeKeepsBudget(y);
    case WriteEnds => EndKeepsBudget(y, true);
    case TornEnds => EndKeepsBudget(y, false);
    case ExitAbandons => EndKeepsBudget(y, false);
    case _ =>
  }

  // ---- Every run -----------------------------------------------------------

  lemma BeginHolds()
    ensures Inv(Begin())
  {
  }

  lemma StepKeepsInv(y: System, step: Step)
    requires Inv(y) && Enabled(y, step)
    ensures Inv(Do(y, step))
  {
    hide Conserved, Held, InOrder, Framed, Lined, Awake, Budgeted, Do, Enabled;
    StepConserves(y, step, Message);
    StepConserves(y, step, Control);
    StepKeepsHeld(y, step);
    StepKeepsOrder(y, step, Message);
    StepKeepsOrder(y, step, Control);
    StepKeepsFramed(y, step);
    StepKeepsLine(y, step);
    StepKeepsAwake(y, step);
    StepKeepsBudget(y, step);
  }

  /** Every state of every interleaving keeps all of it. */
  lemma {:induction false} RunKeepsInv(y: System, steps: seq<Step>)
    requires Inv(y) && IsRun(y, steps)
    ensures Inv(After(y, steps))
    decreases |steps|
  {
    hide Inv, Do, Enabled;
    if steps != [] {
      StepKeepsInv(y, steps[0]);
      RunKeepsInv(Do(y, steps[0]), steps[1..]);
    }
  }
}
