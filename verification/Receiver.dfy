/** What a receiver makes of datagrams from any senders: one by one, and over
    whole runs. */
module Receiver {
  import opened Bytes
  import opened Wire
  import opened Udpm
  import opened Reassembly
  import opened ReassemblerState

  datatype Received = Received(frame: Frame, sequence: u32, reassembled: bool)

  /** A datagram that arrived, and the peer it came from. */
  datatype Event<K> = Event(from: K, data: bytes)

  /** The fragment in a datagram, where it is one. */
  function FragmentIn(data: bytes): Option<Fragment> {
    match Decode(data)
    case Ok(Part(f)) => Some(f)
    case _ => None
  }

  ghost function Arrive<K>(v: View<K>, ev: Event<K>): View<K> {
    match FragmentIn(ev.data)
    case Some(f) => Feed(v, ev.from, f).0
    case None => v
  }

  ghost function Run<K>(v: View<K>, trace: seq<Event<K>>): View<K> {
    if trace == [] then v else Arrive(Run(v, trace[..|trace| - 1]), trace[|trace| - 1])
  }

  /** What the caller of the receiver is given for what the reassembler found. */
  ghost predicate Delivers(o: Outcome, sequence: u32, wants: str -> bool, r: Result<Option<Received>>) {
    match o
    case Refused(e) => r == Err(e)
    case Waiting => r == Ok(None)
    case Complete(e) =>
      match r
      case Err(error) => Settles(e, sequence, Err(error))
      case Ok(None) => e.channel.Some? && Tiles(e) && !wants(e.channel.value)
      case Ok(Some(got)) =>
        && Settles(e, sequence, Ok(Some(got.frame))) && wants(got.frame.channel)
        && got.sequence == sequence && got.reassembled
  }

  ghost predicate Gives<K>(v: View<K>, ev: Event<K>, wants: str -> bool, r: Result<Option<Received>>) {
    match Decode(ev.data)
    case Err(e) => r == Err(e)
    case Ok(Whole(sequence, frame)) => r == Ok(if wants(frame.channel) then Some(Received(frame, sequence, false)) else None)
    case Ok(Part(f)) => Delivers(Feed(v, ev.from, f).1, f.sequence, wants, r)
  }

  lemma NoneIsWaiting(o: Outcome, sequence: u32)
    requires Answers(o, sequence, Ok(None))
    ensures o.Waiting?
  {
  }

  lemma SomeIsComplete(o: Outcome, sequence: u32, frame: Frame)
    requires Answers(o, sequence, Ok(Some(frame)))
    ensures o.Complete? && Settles(o.entry, sequence, Ok(Some(frame)))
    ensures o.entry.channel == Some(frame.channel) && Tiles(o.entry)
  {
  }

  class MulticastReceiver<K(==)> {
    const reassembler: Reassembler<K>
    const wants: str -> bool

    constructor (wants: str -> bool)
      ensures fresh(reassembler) && reassembler.Valid() && reassembler.view == Empty() && this.wants == wants
    {
      this.wants := wants;
      reassembler := new Reassembler<K>();
    }

    /** The message that `data` completes, where the filter wants its channel. */
    method OnDatagram(from: K, data: bytes) returns (r: Result<Option<Received>>)
      requires reassembler.Valid()
      modifies reassembler
      ensures reassembler.Valid()
      ensures reassembler.view == Arrive(old(reassembler.view), Event(from, data))
      ensures Gives(old(reassembler.view), Event(from, data), wants, r)
    {
      hide Settles, Tiles, Feed, Decode;
      match Decode(data)
      case Err(e) =>
        return Err(e);
      case Ok(Whole(sequence, frame)) =>
        return Ok(if wants(frame.channel) then Some(Received(frame, sequence, false)) else None);
      case Ok(Part(f)) =>
        var fed := reassembler.Feed(from, f);
        if fed.Err? {
          return Err(fed.error);
        }
        if fed.value.None? {
          NoneIsWaiting(Feed(old(reassembler.view), from, f).1, f.sequence);
          return Ok(None);
        }
        SomeIsComplete(Feed(old(reassembler.view), from, f).1, f.sequence, fed.value.value);
        var frame := fed.value.value;
        return Ok(if wants(frame.channel) then Some(Received(frame, f.sequence, true)) else None);
    }
  }

  // ---- Every run -----------------------------------------------------------

  lemma EmptyIsGood<K>()
    ensures GoodView<K>(Empty()) && Within<K>(Empty())
  {
  }

  /** The table stays good and within its budget, whatever arrives. */
  lemma {:induction false} RunStaysWithin<K>(trace: seq<Event<K>>)
    ensures GoodView(Run(Empty(), trace)) && Within(Run(Empty(), trace))
  {
    hide GoodView, Within, Feed;
    if trace == [] {
      EmptyIsGood<K>();
    } else {
      var n := |trace| - 1;
      var v := Run(Empty(), trace[..n]);
      RunStaysWithin(trace[..n]);
      if FragmentIn(trace[n].data).Some? {
        FeedKeepsGood(v, trace[n].from, FragmentIn(trace[n].data).value);
        FeedStaysWithin(v, trace[n].from, FragmentIn(trace[n].data).value);
      }
    }
  }

  /** Only the entry of `key` changed, but for what was dropped; and that waited
      longer than every other message that stays. */
  ghost predicate Isolated<K>(v: View<K>, w: View<K>, key: Key<K>) {
    && (forall k :: k in w.entries && k != key ==> k in v.entries && w.entries[k] == v.entries[k])
    && (forall gone, stays :: gone in v.entries && gone !in w.entries && gone != key && stays in w.entries && stays != key ==>
        v.entries[gone].touched <= v.entries[stays].touched)
  }

  lemma LessIsIsolated<K>(v: View<K>, key: Key<K>)
    ensures Isolated(v, v, key) && Isolated(v, v.(entries := v.entries - {key}), key)
  {
  }

  lemma DroppedIsIsolated<K>(v: View<K>, w: View<K>, z: View<K>, key: Key<K>)
    requires forall k :: k in w.entries ==> k in v.entries && w.entries[k] == v.entries[k]
    requires LeastRecent(v.(clock := v.clock + 1), w, key)
    requires forall k :: k != key ==> (k in z.entries <==> k in w.entries) && (k in w.entries ==> z.entries[k] == w.entries[k])
    ensures Isolated(v, z, key)
  {
  }

  /** A fragment of one message changes no other, but by dropping it; and what
      it drops waited longer than every other message that stays. */
  lemma FeedIsIsolated<K>(v: View<K>, source: K, f: Fragment)
    ensures Isolated(v, Feed(v, source, f).0, Key(source, f.sequence))
  {
    hide MakeSpace, Touch, Lookup, Store, ShapeError, Isolated;
    var key := Key(source, f.sequence);
    if ShapeError(f).Some? || Disagrees(v, key, f) {
      LessIsIsolated(v, key);
    } else {
      var now := v.(clock := v.clock + 1);
      var w := MakeSpace(now, key, |f.payload|);
      MakeSpaceKeeps(now, key, |f.payload|);
      var _ := MakeSpaceIsLeastRecent(now, key, |f.payload|);
      StoreLeavesOthers(w, key, Touch(Lookup(w.entries, key), f, v.clock + 1), f);
      DroppedIsIsolated(v, w, Store(w, key, Touch(Lookup(w.entries, key), f, v.clock + 1), f).0, key);
    }
  }

  /** What a message has, it keeps: the span that came first under an index, and
      the name that came first, for as long as the message is in the table. */
  ghost predicate KeepsItsOwn(before: Entry, now: Entry) {
    && before.total == now.total && before.count == now.count
    && (forall i :: i in before.kept ==> i in now.kept && now.kept[i] == before.kept[i])
    && (before.channel.Some? ==> now.channel == before.channel)
  }

  lemma TouchKeepsItsOwn(e: Entry, f: Fragment, now: nat)
    ensures KeepsItsOwn(e, Touch(Some(e), f, now)) && KeepsItsOwn(e, Kept(Touch(Some(e), f, now), f))
  {
  }

  lemma FirstOnesStay<K>(v: View<K>, source: K, f: Fragment, key: Key<K>)
    requires key in v.entries && key in Feed(v, source, f).0.entries
    ensures KeepsItsOwn(v.entries[key], Feed(v, source, f).0.entries[key])
  {
    hide MakeSpace, ShapeError, Overflows, Touch, Kept;
    if key == Key(source, f.sequence) {
      var now := v.(clock := v.clock + 1);
      MakeSpaceKeeps(now, key, |f.payload|);
      TouchKeepsItsOwn(v.entries[key], f, v.clock + 1);
    } else {
      FeedIsIsolated(v, source, f);
    }
  }

  // ---- Runs with space -----------------------------------------------------

  /** Fewer than 1000 messages are in flight, and the bytes of this event go into
      16 MiB with what is held, 32 counted for each piece of it. */
  ghost predicate HasSpace<K>(v: View<K>, ev: Event<K>) {
    match FragmentIn(ev.data)
    case None => true
    case Some(f) => |v.entries| < 1000 && TotalCost(v.entries) + |f.payload| <= 0x100_0000
  }

  ghost predicate Roomy<K>(v: View<K>, trace: seq<Event<K>>) {
    forall i :: 0 <= i < |trace| ==> HasSpace(Run(v, trace[..i]), trace[i])
  }

  lemma RoomyFront<K>(v: View<K>, trace: seq<Event<K>>)
    requires Roomy(v, trace) && trace != []
    ensures Roomy(v, trace[..|trace| - 1])
    ensures HasSpace(Run(v, trace[..|trace| - 1]), trace[|trace| - 1])
  {
    hide HasSpace, Run;
    var n := |trace| - 1;
    forall i | 0 <= i < n
      ensures HasSpace(Run(v, trace[..n][..i]), trace[..n][i])
    {
      assert trace[..n][..i] == trace[..i];
    }
  }

  /** With space, an event changes no message but its own. */
  lemma SpaceKeepsOthers<K>(v: View<K>, ev: Event<K>, key: Key<K>)
    requires HasSpace(v, ev)
    requires FragmentIn(ev.data).Some? ==> key != Key(ev.from, FragmentIn(ev.data).value.sequence)
    ensures Arrive(v, ev).evicted == v.evicted
    ensures key in Arrive(v, ev).entries <==> key in v.entries
    ensures key in v.entries ==> Arrive(v, ev).entries[key] == v.entries[key]
  {
    hide Feed, TotalCost, FragmentIn;
    if FragmentIn(ev.data).Some? {
      SpaceIsLeft(v, ev.from, FragmentIn(ev.data).value);
    }
  }

  /** A run with space drops nobody. */
  lemma {:induction false} RoomyDropsNobody<K>(v: View<K>, trace: seq<Event<K>>)
    requires Roomy(v, trace)
    ensures Run(v, trace).evicted == v.evicted
  {
    hide Feed, TotalCost, FragmentIn, Roomy;
    if trace != [] {
      var n := |trace| - 1;
      RoomyFront(v, trace);
      RoomyDropsNobody(v, trace[..n]);
      if FragmentIn(trace[n].data).Some? {
        SpaceIsLeft(Run(v, trace[..n]), trace[n].from, FragmentIn(trace[n].data).value);
      }
    }
  }

  /** The bytes that fragments bring in a run, and 32 for each fragment. */
  function Load<K>(trace: seq<Event<K>>): nat {
    if trace == [] then 0
    else
      Load(trace[..|trace| - 1]) +
      match FragmentIn(trace[|trace| - 1].data)
      case None => 0
      case Some(f) => |f.payload| + 32
  }

  /** The messages that have fragments in a run. */
  function KeysOf<K(==)>(trace: seq<Event<K>>): set<Key<K>> {
    if trace == [] then {}
    else
      KeysOf(trace[..|trace| - 1]) +
      match FragmentIn(trace[|trace| - 1].data)
      case None => {}
      case Some(f) => {Key(trace[|trace| - 1].from, f.sequence)}
  }

  lemma NothingIsFree<K>()
    ensures TotalCost<K>(map[]) == 0
  {
  }

  /** The table holds no more than a run brought. */
  lemma {:induction false} HeldWasBrought<K>(trace: seq<Event<K>>)
    ensures TotalCost(Run(Empty(), trace).entries) <= Load(trace)
    ensures Run(Empty(), trace).entries.Keys <= KeysOf(trace)
  {
    hide Feed, TotalCost, FragmentIn;
    if trace == [] {
      NothingIsFree<K>();
    } else {
      var n := |trace| - 1;
      HeldWasBrought(trace[..n]);
      if FragmentIn(trace[n].data).Some? {
        var f := FragmentIn(trace[n].data).value;
        FeedCosts(Run(Empty(), trace[..n]), trace[n].from, f);
        FeedIsIsolated(Run(Empty(), trace[..n]), trace[n].from, f);
      }
    }
  }

  lemma FewKeys<K>(a: set<Key<K>>, b: set<Key<K>>)
    requires a <= b
    ensures |a| <= |b|
  {
    assert b == a + (b - a);
  }

  lemma OneMoreHasSpace<K>(trace: seq<Event<K>>)
    requires trace != [] && Roomy(Empty(), trace[..|trace| - 1])
    requires HasSpace(Run(Empty(), trace[..|trace| - 1]), trace[|trace| - 1])
    ensures Roomy(Empty(), trace)
  {
    hide HasSpace, Run;
    var n := |trace| - 1;
    forall i | 0 <= i < |trace|
      ensures HasSpace(Run(Empty(), trace[..i]), trace[i])
    {
      if i < n {
        assert trace[..n][..i] == trace[..i] && trace[..n][i] == trace[i];
      }
    }
  }

  /** A run that brings no more than 16 MiB, of fewer than 1000 messages, has
      space at each of its events. */
  lemma {:induction false} LightIsRoomy<K>(trace: seq<Event<K>>)
    requires Load(trace) <= 0x100_0000 && |KeysOf(trace)| < 1000
    ensures Roomy(Empty(), trace)
  {
    hide Feed, TotalCost, FragmentIn;
    if trace != [] {
      var n := |trace| - 1;
      FewKeys(KeysOf(trace[..n]), KeysOf(trace));
      LightIsRoomy(trace[..n]);
      HeldWasBrought(trace[..n]);
      var v := Run(Empty(), trace[..n]);
      FewKeys(v.entries.Keys, KeysOf(trace[..n]));
      assert |v.entries| == |v.entries.Keys|;
      OneMoreHasSpace(trace);
    }
  }

  // ---- Where every message went --------------------------------------------

  /** The messages a run started, and of those the ones given out, the ones
      refused when their last index came, and the ones a fragment of a different
      shape put an end to. */
  datatype Tally = Tally(started: nat, delivered: nat, refused: nat, disagreed: nat)

  ghost predicate CanAnswer<K>(v: View<K>, ev: Event<K>, answer: Result<Option<Frame>>) {
    match FragmentIn(ev.data)
    case None => answer == Ok(None)
    case Some(f) => Answers(Feed(v, ev.from, f).1, f.sequence, answer)
  }

  /** These are answers the reassembler can give to these events. */
  ghost predicate Answered<K>(v: View<K>, trace: seq<Event<K>>, answers: seq<Result<Option<Frame>>>) {
    && |answers| == |trace|
    && forall i :: 0 <= i < |trace| ==> CanAnswer(Run(v, trace[..i]), trace[i], answers[i])
  }

  predicate GivesFrame(answer: Result<Option<Frame>>) {
    answer.Ok? && answer.value.Some?
  }

  /** A frame that is given out counts as one, whatever the table does. */
  ghost function Count<K>(t: Tally, v: View<K>, ev: Event<K>, answer: Result<Option<Frame>>): Tally {
    match FragmentIn(ev.data)
    case None => t
    case Some(f) =>
      var key := Key(ev.from, f.sequence);
      var t := if GivesFrame(answer) then t.(delivered := t.delivered + 1) else t;
      if ShapeError(f).Some? then t
      else if Disagrees(v, key, f) then t.(disagreed := t.disagreed + 1)
      else t.(started := t.started + (if key in v.entries then 0 else 1),
              refused := t.refused + (if Feed(v, ev.from, f).1.Complete? && answer.Err? then 1 else 0))
  }

  ghost function TallyOf<K>(v: View<K>, trace: seq<Event<K>>, answers: seq<Result<Option<Frame>>>): Tally
    requires |answers| == |trace|
  {
    if trace == [] then Tally(0, 0, 0, 0)
    else
      var n := |trace| - 1;
      Count(TallyOf(v, trace[..n], answers[..n]), Run(v, trace[..n]), trace[n], answers[n])
  }

  lemma StoreCounts<K>(w: View<K>, key: Key<K>, e: Entry, f: Fragment)
    ensures |Store(w, key, e, f).0.entries| + (if Store(w, key, e, f).1.Complete? then 1 else 0)
         == |w.entries| + (if key in w.entries then 0 else 1)
    ensures Store(w, key, e, f).0.evicted == w.evicted
  {
    hide Overflows, Kept;
    assert w.entries[key := e].Keys == w.entries.Keys + {key};
    assert w.entries[key := Kept(e, f)].Keys == w.entries.Keys + {key};
    if key in w.entries {
      RemoveShrinks(w.entries, key);
    } else {
      assert w.entries - {key} == w.entries;
    }
  }

  /** Every message started has one end, or is still in flight. */
  ghost predicate Balanced<K>(t: Tally, v: View<K>) {
    t.started == t.delivered + t.refused + t.disagreed + v.evicted + |v.entries|
  }

  lemma AnswerIsOneEnd(o: Outcome, sequence: u32, answer: Result<Option<Frame>>)
    requires Answers(o, sequence, answer)
    ensures GivesFrame(answer) || (o.Complete? && answer.Err?) <==> o.Complete?
  {
    hide Tiles, Assembles;
  }

  lemma StoredBalances<K>(t: Tally, v: View<K>, ev: Event<K>, f: Fragment, answer: Result<Option<Frame>>)
    requires Balanced(t, v) && FragmentIn(ev.data) == Some(f) && CanAnswer(v, ev, answer)
    requires ShapeError(f).None? && !Disagrees(v, Key(ev.from, f.sequence), f)
    ensures Balanced(Count(t, v, ev, answer), Arrive(v, ev))
  {
    hide MakeSpace, Touch, Lookup, Store, ShapeError, Disagrees, Settles, FragmentIn, Answers;
    var key := Key(ev.from, f.sequence);
    var now := v.(clock := v.clock + 1);
    var w := MakeSpace(now, key, |f.payload|);
    MakeSpaceKeeps(now, key, |f.payload|);
    StoreCounts(w, key, Touch(Lookup(w.entries, key), f, v.clock + 1), f);
    AnswerIsOneEnd(Feed(v, ev.from, f).1, f.sequence, answer);
  }

  lemma RefusedBalances<K>(t: Tally, v: View<K>, ev: Event<K>, f: Fragment, answer: Result<Option<Frame>>)
    requires Balanced(t, v) && FragmentIn(ev.data) == Some(f) && CanAnswer(v, ev, answer)
    requires ShapeError(f).Some? || Disagrees(v, Key(ev.from, f.sequence), f)
    ensures Balanced(Count(t, v, ev, answer), Arrive(v, ev))
  {
    hide MakeSpace, Touch, Lookup, Store, ShapeError, FragmentIn;
    var key := Key(ev.from, f.sequence);
    if Disagrees(v, key, f) {
      RemoveShrinks(v.entries, key);
    }
  }

  lemma CountBalances<K>(t: Tally, v: View<K>, ev: Event<K>, answer: Result<Option<Frame>>)
    requires Balanced(t, v) && CanAnswer(v, ev, answer)
    ensures Balanced(Count(t, v, ev, answer), Arrive(v, ev))
  {
    hide Feed, Disagrees, ShapeError, Balanced;
    match FragmentIn(ev.data)
    case None =>
    case Some(f) =>
      if ShapeError(f).Some? || Disagrees(v, Key(ev.from, f.sequence), f) {
        RefusedBalances(t, v, ev, f, answer);
      } else {
        StoredBalances(t, v, ev, f, answer);
      }
  }

  lemma FrontIsAnswered<K>(v: View<K>, trace: seq<Event<K>>, answers: seq<Result<Option<Frame>>>)
    requires Answered(v, trace, answers) && trace != []
    ensures Answered(v, trace[..|trace| - 1], answers[..|trace| - 1])
  {
    hide CanAnswer, Run;
    var n := |trace| - 1;
    forall i | 0 <= i < n
      ensures CanAnswer(Run(v, trace[..n][..i]), trace[..n][i], answers[..n][i])
    {
      assert trace[..n][..i] == trace[..i];
    }
  }

  /** Every message a run started was given out, refused when its last index
      came, put an end to by a fragment of another shape, evicted, or is still in
      flight. */
  lemma {:induction false} EveryMessageIsCounted<K>(trace: seq<Event<K>>, answers: seq<Result<Option<Frame>>>)
    requires Answered(Empty(), trace, answers)
    ensures var v := Run(Empty(), trace);
      var t := TallyOf(Empty(), trace, answers);
      t.started == t.delivered + t.refused + t.disagreed + v.evicted + |v.entries|
  {
    hide Count, Arrive, CanAnswer;
    if trace != [] {
      var n := |trace| - 1;
      var v, t := Run(Empty(), trace[..n]), TallyOf(Empty(), trace[..n], answers[..n]);
      FrontIsAnswered(Empty(), trace, answers);
      EveryMessageIsCounted(trace[..n], answers[..n]);
      CountBalances(t, v, trace[n], answers[n]);
    }
  }
}
