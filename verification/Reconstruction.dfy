/** What goes in comes out: the fragments of a message, in any sequence and with
    any repeats and neighbours, give that message and no other. */
module Reconstruction {
  import opened Bytes
  import opened Wire
  import opened Udpm
  import opened Reassembly
  import opened ReassemblerState
  import opened Receiver

  // ---- Nothing is invented -------------------------------------------------

  /** The event carried this span under this index of this message. */
  ghost predicate Carries<K>(ev: Event<K>, key: Key<K>, index: u16, s: Span) {
    match FragmentIn(ev.data)
    case None => false
    case Some(f) =>
      && ev.from == key.source && f.sequence == key.sequence
      && f.index == index && f.offset == s.offset && f.payload == s.data
  }

  ghost predicate Names<K>(ev: Event<K>, key: Key<K>, channel: str) {
    match FragmentIn(ev.data)
    case None => false
    case Some(f) => ev.from == key.source && f.sequence == key.sequence && f.channel == Some(channel)
  }

  /** Where the stay of a message in the table began: the last event of the run
      that found it absent. */
  ghost function Since<K>(trace: seq<Event<K>>, key: Key<K>): (start: nat)
    ensures trace != [] ==> start < |trace|
  {
    if trace == [] then 0
    else
      var n := |trace| - 1;
      if key !in Run(Empty(), trace[..n]).entries then n else Since(trace[..n], key)
  }

  /** In front of that event the message is absent, and behind it there. */
  lemma {:induction false} SinceIsTheStart<K>(trace: seq<Event<K>>, key: Key<K>)
    requires trace != []
    ensures key !in Run(Empty(), trace[..Since(trace, key)]).entries
    ensures forall j :: Since(trace, key) < j < |trace| ==> key in Run(Empty(), trace[..j]).entries
  {
    hide Arrive;
    var n := |trace| - 1;
    if n > 0 && key in Run(Empty(), trace[..n]).entries {
      SinceIsTheStart(trace[..n], key);
      forall j | 0 <= j <= n
        ensures trace[..n][..j] == trace[..j]
      {
      }
    }
  }

  /** Each span and the name of an entry came in an event of its own message, no
      earlier than `start`. */
  ghost predicate Sourced<K>(e: Entry, key: Key<K>, trace: seq<Event<K>>, start: nat) {
    && (forall i :: i in e.kept ==> exists n :: start <= n < |trace| && Carries(trace[n], key, i, e.kept[i]))
    && (e.channel.Some? ==> exists n :: start <= n < |trace| && Names(trace[n], key, e.channel.value))
  }

  /** What the table holds came in this stay of each message. */
  ghost predicate AllSourced<K>(v: View<K>, trace: seq<Event<K>>) {
    forall k :: k in v.entries ==> Sourced(v.entries[k], k, trace, Since(trace, k))
  }

  lemma StaysSourced<K>(e: Entry, key: Key<K>, trace: seq<Event<K>>, start: nat, ev: Event<K>)
    requires Sourced(e, key, trace, start)
    ensures Sourced(e, key, trace + [ev], start)
  {
    hide Carries, Names;
    var more := trace + [ev];
    forall i | i in e.kept
      ensures exists n :: start <= n < |more| && Carries(more[n], key, i, e.kept[i])
    {
      var n :| start <= n < |trace| && Carries(trace[n], key, i, e.kept[i]);
      assert more[n] == trace[n];
    }
    if e.channel.Some? {
      var n :| start <= n < |trace| && Names(trace[n], key, e.channel.value);
      assert more[n] == trace[n];
    }
  }

  lemma TouchIsSourced<K>(e: Option<Entry>, f: Fragment, now: nat, key: Key<K>, trace: seq<Event<K>>, start: nat, ev: Event<K>)
    requires start <= |trace| && (e.Some? ==> Sourced(e.value, key, trace, start))
    requires FragmentIn(ev.data) == Some(f) && key == Key(ev.from, f.sequence)
    ensures Sourced(Touch(e, f, now), key, trace + [ev], start)
  {
    hide Carries, FragmentIn;
    var more := trace + [ev];
    if e.Some? {
      StaysSourced(e.value, key, trace, start, ev);
    }
    assert more[|trace|] == ev;
    assert f.channel.Some? ==> Names(ev, key, f.channel.value);
  }

  lemma KeptIsSourced<K>(e: Entry, f: Fragment, key: Key<K>, trace: seq<Event<K>>, start: nat)
    requires start < |trace| && Sourced(e, key, trace, start)
    requires FragmentIn(trace[|trace| - 1].data) == Some(f) && key == Key(trace[|trace| - 1].from, f.sequence)
    ensures Sourced(Kept(e, f), key, trace, start)
  {
    hide Names, FragmentIn;
    assert Carries(trace[|trace| - 1], key, f.index, Span(f.offset, f.payload));
  }

  lemma SinceGoesOn<K>(trace: seq<Event<K>>, ev: Event<K>, key: Key<K>)
    ensures Since(trace + [ev], key) == if key in Run(Empty(), trace).entries then Since(trace, key) else |trace|
    ensures Since(trace + [ev], key) <= |trace|
  {
    hide Arrive;
    assert (trace + [ev])[..|trace|] == trace;
  }

  lemma FeedIsSourced<K>(v: View<K>, trace: seq<Event<K>>, ev: Event<K>, f: Fragment)
    requires v == Run(Empty(), trace) && AllSourced(v, trace) && FragmentIn(ev.data) == Some(f)
    ensures AllSourced(Feed(v, ev.from, f).0, trace + [ev])
    ensures Feed(v, ev.from, f).1.Complete? ==>
      var key := Key(ev.from, f.sequence);
      Sourced(Feed(v, ev.from, f).1.entry, key, trace + [ev], Since(trace + [ev], key))
  {
    hide Sourced, MakeSpace, Touch, Overflows, Kept, ShapeError, FragmentIn, Since, Run;
    var key := Key(ev.from, f.sequence);
    forall k | k in v.entries
      ensures Sourced(v.entries[k], k, trace + [ev], Since(trace + [ev], k))
    {
      SinceGoesOn(trace, ev, k);
      StaysSourced(v.entries[k], k, trace, Since(trace, k), ev);
    }
    if ShapeError(f).None? && !Disagrees(v, key, f) {
      var now := v.(clock := v.clock + 1);
      MakeSpaceKeeps(now, key, |f.payload|);
      var w := MakeSpace(now, key, |f.payload|);
      var e := Touch(Lookup(w.entries, key), f, v.clock + 1);
      SinceGoesOn(trace, ev, key);
      var start := Since(trace + [ev], key);
      TouchIsSourced(Lookup(w.entries, key), f, v.clock + 1, key, trace, start, ev);
      KeptIsSourced(e, f, key, trace + [ev], start);
    }
  }

  lemma OtherIsSourced<K>(v: View<K>, trace: seq<Event<K>>, ev: Event<K>)
    requires v == Run(Empty(), trace) && AllSourced(v, trace)
    ensures AllSourced(v, trace + [ev])
  {
    hide Sourced, Since, Run;
    forall k | k in v.entries
      ensures Sourced(v.entries[k], k, trace + [ev], Since(trace + [ev], k))
    {
      SinceGoesOn(trace, ev, k);
      StaysSourced(v.entries[k], k, trace, Since(trace, k), ev);
    }
  }

  lemma {:induction false} RunIsSourced<K>(trace: seq<Event<K>>)
    ensures AllSourced(Run(Empty(), trace), trace)
  {
    hide Sourced, Feed, FragmentIn, Since;
    if trace != [] {
      var n := |trace| - 1;
      RunIsSourced(trace[..n]);
      assert trace == trace[..n] + [trace[n]];
      if FragmentIn(trace[n].data).Some? {
        FeedIsSourced(Run(Empty(), trace[..n]), trace[..n], trace[n], FragmentIn(trace[n].data).value);
      } else {
        OtherIsSourced(Run(Empty(), trace[..n]), trace[..n], trace[n]);
      }
    }
  }

  /** The event carried byte `b` of the payload at offset `at`. */
  ghost predicate CarriesByte<K>(ev: Event<K>, key: Key<K>, at: nat, b: byte) {
    match FragmentIn(ev.data)
    case None => false
    case Some(f) =>
      && ev.from == key.source && f.sequence == key.sequence
      && f.offset <= at < f.offset + |f.payload| && f.payload[at - f.offset] == b
  }

  /** The positions from `a` to `b`. */
  ghost function Range(a: nat, b: nat): (r: set<nat>)
    ensures forall p :: p in r <==> a <= p < b
    ensures |r| == if a < b then b - a else 0
    decreases b
  {
    if a < b then Range(a, b - 1) + {b - 1} else {}
  }

  ghost function Covered(kept: map<u16, Span>, n: u16): set<nat> {
    if n == 0 then {}
    else Covered(kept, n - 1) +
         if n - 1 in kept then Range(kept[n - 1].offset, kept[n - 1].offset + |kept[n - 1].data|) else {}
  }

  lemma {:induction false} InCovered(kept: map<u16, Span>, n: u16, p: nat)
    ensures p in Covered(kept, n) <==>
      exists i :: i in kept && i < n && kept[i].offset <= p < kept[i].offset + |kept[i].data|
  {
    if n > 0 {
      InCovered(kept, n - 1, p);
    }
  }

  lemma IsDisjoint(kept: map<u16, Span>, n: u16)
    requires forall i, j :: i in kept && j in kept && i != j ==> Apart(kept[i], kept[j])
    requires n in kept
    ensures Covered(kept, n) !! Range(kept[n].offset, kept[n].offset + |kept[n].data|)
  {
    hide Covered;
    forall p | p in Range(kept[n].offset, kept[n].offset + |kept[n].data|)
      ensures p !in Covered(kept, n)
    {
      InCovered(kept, n, p);
      assert forall i :: i in kept && i < n ==> Apart(kept[i], kept[n]);
    }
  }

  lemma {:induction false} CoveredSize(kept: map<u16, Span>, n: u16)
    requires forall i, j :: i in kept && j in kept && i != j ==> Apart(kept[i], kept[j])
    ensures |Covered(kept, n)| == Weight(kept, n)
  {
    hide Apart;
    if n > 0 {
      CoveredSize(kept, n - 1);
      if n - 1 in kept {
        IsDisjoint(kept, n - 1);
      }
    }
  }

  /** Tiles leave no byte out. */
  lemma TilesCover(e: Entry, at: nat)
    requires Tiles(e) && GoodEntry(e) && at < e.total
    ensures exists i :: i in e.kept && e.kept[i].offset <= at < e.kept[i].offset + |e.kept[i].data|
  {
    hide Range;
    var all, covered := Range(0, e.total), Covered(e.kept, e.count);
    CoveredSize(e.kept, e.count);
    forall p | p in covered
      ensures p in all
    {
      InCovered(e.kept, e.count, p);
    }
    assert |all| == |covered| + |all - covered| by {
      assert all == covered + (all - covered);
    }
    assert at in covered;
    InCovered(e.kept, e.count, at);
  }

  lemma GivesFragment<K>(v: View<K>, ev: Event<K>, wants: str -> bool, got: Received)
    requires Gives(v, ev, wants, Ok(Some(got))) && got.reassembled
    ensures FragmentIn(ev.data).Some?
    ensures var f := FragmentIn(ev.data).value;
      && f.sequence == got.sequence && Feed(v, ev.from, f).1.Complete?
      && Settles(Feed(v, ev.from, f).1.entry, f.sequence, Ok(Some(got.frame)))
  {
    hide Settles, Feed, Tiles, Decode;
  }

  lemma IsNamed<K>(e: Entry, key: Key<K>, trace: seq<Event<K>>, start: nat)
    requires Sourced(e, key, trace, start) && e.channel.Some?
    ensures exists n :: start <= n < |trace| && Names(trace[n], key, e.channel.value)
  {
  }

  lemma SettledLength(e: Entry, sequence: u32, frame: Frame)
    requires Settles(e, sequence, Ok(Some(frame)))
    ensures e.channel == Some(frame.channel) && Tiles(e) && Assembles(e, frame.payload)
  {
  }

  lemma ByteOfSpan(e: Entry, i: u16, payload: bytes, at: nat)
    requires Assembles(e, payload) && i in e.kept
    requires e.kept[i].offset <= at < e.kept[i].offset + |e.kept[i].data|
    ensures at < |payload| && payload[at] == e.kept[i].data[at - e.kept[i].offset]
  {
    var s := e.kept[i];
    assert payload[s.offset..s.offset + |s.data|][at - s.offset] == payload[at];
  }

  lemma ByteIsSourced<K>(e: Entry, key: Key<K>, trace: seq<Event<K>>, start: nat, payload: bytes, at: nat)
    requires GoodEntry(e) && Sourced(e, key, trace, start) && Tiles(e) && Assembles(e, payload) && at < |payload|
    ensures exists n :: start <= n < |trace| && CarriesByte(trace[n], key, at, payload[at])
  {
    TilesCover(e, at);
    hide GoodEntry, Tiles, FragmentIn;
    var i :| i in e.kept && e.kept[i].offset <= at < e.kept[i].offset + |e.kept[i].data|;
    ByteOfSpan(e, i, payload, at);
    var n :| start <= n < |trace| && Carries(trace[n], key, i, e.kept[i]);
    assert CarriesByte(trace[n], key, at, payload[at]);
  }

  lemma DeliveredIsSourced<K>(e: Entry, key: Key<K>, trace: seq<Event<K>>, start: nat, frame: Frame)
    requires GoodEntry(e) && Sourced(e, key, trace, start) && Settles(e, key.sequence, Ok(Some(frame)))
    ensures exists n :: start <= n < |trace| && Names(trace[n], key, frame.channel)
    ensures forall at :: 0 <= at < |frame.payload| ==>
      exists n :: start <= n < |trace| && CarriesByte(trace[n], key, at, frame.payload[at])
  {
    hide GoodEntry, Tiles, Clear, Names, Carries, CarriesByte, Assembles, Sourced;
    SettledLength(e, key.sequence, frame);
    IsNamed(e, key, trace, start);
    forall at | 0 <= at < |frame.payload|
      ensures exists n :: start <= n < |trace| && CarriesByte(trace[n], key, at, frame.payload[at])
    {
      ByteIsSourced(e, key, trace, start, frame.payload, at);
    }
  }

  /** Whatever the senders did, a message that is delivered from fragments is
      made of bytes that fragments of its own source and number carried, each
      where that fragment said, under a name such a fragment gave: and all of
      them came since the message was last absent from the table, so that
      nothing is left of an earlier one of the same number. */
  lemma NothingIsInvented<K>(trace: seq<Event<K>>, ev: Event<K>, wants: str -> bool, got: Received) returns (start: nat)
    requires Gives(Run(Empty(), trace), ev, wants, Ok(Some(got))) && got.reassembled
    ensures var key := Key(ev.from, got.sequence);
      var all := trace + [ev];
      && start < |all| && key !in Run(Empty(), all[..start]).entries
      && (forall j :: start < j < |all| ==> key in Run(Empty(), all[..j]).entries)
      && (exists n :: start <= n < |all| && Names(all[n], key, got.frame.channel))
      && forall at :: 0 <= at < |got.frame.payload| ==>
        exists n :: start <= n < |all| && CarriesByte(all[n], key, at, got.frame.payload[at])
  {
    hide Sourced, Tiles, Assembles, FragmentIn, Feed, Run, Since;
    var v := Run(Empty(), trace);
    GivesFragment(v, ev, wants, got);
    var f := FragmentIn(ev.data).value;
    RunIsSourced(trace);
    RunStaysWithin(trace);
    FeedIsSourced(v, trace, ev, f);
    FeedKeepsGood(v, ev.from, f);
    start := Since(trace + [ev], Key(ev.from, f.sequence));
    SinceIsTheStart(trace + [ev], Key(ev.from, f.sequence));
    DeliveredIsSourced(Feed(v, ev.from, f).1.entry, Key(ev.from, f.sequence), trace + [ev], start, got.frame);
  }

  // ---- Nothing is lost -----------------------------------------------------

  /** A datagram that a receiver takes for a fragment of this message. */
  ghost predicate Ours<K>(ev: Event<K>, key: Key<K>) {
    match FragmentIn(ev.data)
    case None => false
    case Some(f) => ev.from == key.source && f.sequence == key.sequence
  }

  ghost predicate IsDatagramOf(p: Plan, data: bytes) {
    Sound(p) && exists j :: 0 <= j < p.count && data == DatagramOf(p, j)
  }

  /** The indexes of the message that came. */
  ghost function Seen<K>(trace: seq<Event<K>>, key: Key<K>): set<u16> {
    if trace == [] then {}
    else
      var n := |trace| - 1;
      Seen(trace[..n], key) + if Ours(trace[n], key) then {FragmentIn(trace[n].data).value.index} else {}
  }

  /** What a plan puts under an index. */
  function SpanOf(p: Plan, j: u16): Span {
    if |p.payload| <= MAX_MESSAGE_LEN && p.Start(j) <= p.End(j) then
      Span(p.Start(j), p.payload[p.Start(j)..p.End(j)])
    else Span(0, [])
  }

  /** The entry that holds exactly the fragments `seen` of a plan. */
  ghost predicate Collected(p: Plan, seen: set<u16>, e: Entry) {
    && e.channel == (if 0 in seen then Some(p.channel) else None)
    && e.total == |p.payload| && e.count == p.count
    && e.kept.Keys == seen
    && forall j :: j in seen ==> j < p.count && e.kept[j] == SpanOf(p, j)
  }

  /** The state of the message: not begun, or holding what was seen. */
  ghost predicate Holding<K>(v: View<K>, key: Key<K>, p: Plan, seen: set<u16>) {
    if seen == {} then key !in v.entries
    else key in v.entries && Collected(p, seen, v.entries[key])
  }

  /** Spans of a plan weigh as much as the payload they leave room for. */
  lemma {:induction false} PlanWeight(p: Plan, kept: map<u16, Span>, n: u16)
    requires Sound(p) && p.count > 1 && n <= p.count
    requires forall j :: j in kept ==> j < p.count && kept[j] == SpanOf(p, j)
    ensures Weight(kept, n) <= if n == 0 then 0 else p.End(n - 1)
    ensures (forall j: u16 :: j < n ==> j in kept) ==> Weight(kept, n) == if n == 0 then 0 else p.End(n - 1)
  {
    hide Plan.Start, Plan.End, IsUtf8, CheckChannel;
    if n > 0 {
      PlanWeight(p, kept, n - 1);
      StartsAtZero(p);
      assert p.Start(n - 1) < p.End(n - 1);
      assert n > 1 ==> p.End(n - 2) == p.Start(n - 1);
      assert n - 1 in kept ==> kept[n - 1] == SpanOf(p, n - 1);
    }
  }

  lemma {:induction false} PiecesAreApart(p: Plan, i: u16, j: u16)
    requires Sound(p) && p.count > 1 && i < j < p.count
    ensures p.End(i) <= p.Start(j)
  {
    hide Plan.Start, Plan.End, IsUtf8, CheckChannel;
    if i + 1 < j {
      PiecesAreApart(p, i, j - 1);
      assert p.Start(j - 1) < p.End(j - 1) == p.Start(j);
    }
  }

  lemma NoneIsEmpty(p: Plan, seen: set<u16>, e: Entry)
    requires Sound(p) && p.count > 1 && Collected(p, seen, e)
    ensures Clear(e) && GoodEntry(e)
  {
    hide Plan.Start, Plan.End, IsUtf8, CheckChannel;
    PlanWeight(p, e.kept, p.count);
    forall i | i in e.kept
      ensures e.kept[i].data != [] && e.kept[i].offset + |e.kept[i].data| <= e.total
    {
      assert p.Start(i) < p.End(i);
    }
  }

  lemma LengthOf(e: Entry, payload: bytes)
    requires Assembles(e, payload)
    ensures |payload| == e.total
  {
  }

  lemma OnlyOnePayload(p: Plan, seen: set<u16>, e: Entry, payload: bytes)
    requires Sound(p) && p.count > 1 && Collected(p, seen, e) && Tiles(e) && Assembles(e, payload)
    ensures payload == p.payload
  {
    hide Plan.Start, Plan.End, IsUtf8, CheckChannel, Weight, Tiles, GoodEntry, Assembles;
    NoneIsEmpty(p, seen, e);
    LengthOf(e, payload);
    forall at | 0 <= at < |payload|
      ensures payload[at] == p.payload[at]
    {
      TilesCover(e, at);
      var i :| i in e.kept && e.kept[i].offset <= at < e.kept[i].offset + |e.kept[i].data|;
      ByteOfSpan(e, i, payload, at);
      assert p.Start(i) < p.End(i);
    }
  }

  /** A message all of whose fragments came is settled one way: as it was. */
  lemma FullIsTheMessage(p: Plan, seen: set<u16>, e: Entry)
    requires Sound(p) && p.count > 1 && Collected(p, seen, e) && |seen| == p.count
    ensures Tiles(e) && Clear(e) && e.channel == Some(p.channel)
    ensures forall payload :: Assembles(e, payload) ==> payload == p.payload
  {
    hide Plan.Start, Plan.End, IsUtf8, CheckChannel, Weight, Clear, Assembles;
    AllIndexes(seen, p.count);
    PlanWeight(p, e.kept, p.count);
    forall i, j | i in e.kept && j in e.kept && i != j
      ensures Apart(e.kept[i], e.kept[j])
    {
      assert p.Start(i) < p.End(i) && p.Start(j) < p.End(j);
      if i < j {
        PiecesAreApart(p, i, j);
      } else {
        PiecesAreApart(p, j, i);
      }
    }
    NoneIsEmpty(p, seen, e);
    forall payload | Assembles(e, payload)
      ensures payload == p.payload
    {
      OnlyOnePayload(p, seen, e, payload);
    }
  }

  // ---- One fragment of the message -----------------------------------------

  lemma FragmentIsFit(p: Plan, j: u16)
    requires Sound(p) && p.count > 1 && j < p.count
    ensures ShapeError(FragmentOf(p, j)).None?
    ensures Span(FragmentOf(p, j).offset, FragmentOf(p, j).payload) == SpanOf(p, j)
  {
    hide Plan.Start, Plan.End, IsUtf8, CheckChannel;
    assert p.Start(j) < p.End(j);
  }

  lemma EndsInPayload(p: Plan)
    requires p.count > 0
    ensures p.End(p.count - 1) <= |p.payload|
  {
  }

  lemma EntryStep(p: Plan, seen: set<u16>, before: Option<Entry>, j: u16, now: nat)
    requires Sound(p) && p.count > 1 && j < p.count
    requires if seen == {} then before.None? else before.Some? && Collected(p, seen, before.value)
    ensures var f := FragmentOf(p, j);
      var e := Touch(before, f, now);
      !Overflows(e, f) && Collected(p, seen + {j}, Kept(e, f))
  {
    hide Plan.Start, Plan.End, IsUtf8, CheckChannel, Sound, SpanOf, Weight;
    var f := FragmentOf(p, j);
    var e := Touch(before, f, now);
    FragmentIsFit(p, j);
    assert forall i :: i in e.kept ==> i < p.count && e.kept[i] == SpanOf(p, i);
    if j !in e.kept {
      WeightPut(e.kept, j, SpanOf(p, j), p.count);
      PlanWeight(p, e.kept[j := SpanOf(p, j)], p.count);
      EndsInPayload(p);
    }
    if j in seen {
      assert seen + {j} == seen;
    }
  }

  /** A fragment of a fit shape that agrees with its entry is stored. */
  lemma FedIsStored<K>(v: View<K>, key: Key<K>, f: Fragment) returns (w: View<K>)
    requires ShapeError(f).None? && !Disagrees(v, key, f) && f.sequence == key.sequence
    ensures Feed(v, key.source, f) == Store(w, key, Touch(Lookup(v.entries, key), f, v.clock + 1), f)
    ensures Lookup(w.entries, key) == Lookup(v.entries, key)
  {
    hide MakeSpace, Touch, ShapeError, Store;
    var now := v.(clock := v.clock + 1);
    w := MakeSpace(now, key, |f.payload|);
    MakeSpaceKeeps(now, key, |f.payload|);
  }

  lemma FragmentFields(p: Plan, j: u16)
    requires Sound(p) && p.count > 1 && j < p.count
    ensures var f := FragmentOf(p, j);
      f.sequence == p.sequence && f.total == |p.payload| && f.count == p.count && f.index == j
  {
  }

  lemma CollectedShape(p: Plan, seen: set<u16>, e: Entry)
    requires Collected(p, seen, e)
    ensures e.total == |p.payload| && e.count == p.count && |e.kept| == |seen|
  {
    assert |e.kept.Keys| == |seen|;
  }

  lemma OurStep<K>(v: View<K>, ev: Event<K>, key: Key<K>, p: Plan, seen: set<u16>, j: u16)
    requires Sound(p) && p.count > 1 && j < p.count && p.sequence == key.sequence
    requires ev.from == key.source && FragmentIn(ev.data) == Some(FragmentOf(p, j))
    requires Holding(v, key, p, seen)
    ensures var fed := Feed(v, ev.from, FragmentOf(p, j));
      if |seen + {j}| < p.count then fed.1.Waiting? && Holding(fed.0, key, p, seen + {j})
      else fed.1.Complete? && Collected(p, seen + {j}, fed.1.entry) && key !in fed.0.entries
  {
    hide Sound, SpanOf, Weight, Feed, Touch, Overflows, Kept, FragmentOf, ShapeError, Collected;
    var f := FragmentOf(p, j);
    FragmentIsFit(p, j);
    FragmentFields(p, j);
    if seen != {} {
      CollectedShape(p, seen, v.entries[key]);
    }
    var w := FedIsStored(v, key, f);
    EntryStep(p, seen, Lookup(v.entries, key), j, v.clock + 1);
    CollectedShape(p, seen + {j}, Kept(Touch(Lookup(v.entries, key), f, v.clock + 1), f));
    assert j in seen + {j};
  }

  /** What is not of this message leaves it, or drops it. */
  lemma OtherStep<K>(v: View<K>, ev: Event<K>, key: Key<K>)
    requires !Ours(ev, key)
    ensures var w := Arrive(v, ev);
      key in w.entries ==> key in v.entries && w.entries[key] == v.entries[key]
  {
    hide Feed;
    if FragmentIn(ev.data).Some? {
      FeedIsIsolated(v, ev.from, FragmentIn(ev.data).value);
    }
  }

  // ---- The whole run -------------------------------------------------------

  /** Whatever carries the source and the number of the message is one of its
      datagrams. Everything else is free. */
  ghost predicate OnlyOurs<K>(trace: seq<Event<K>>, key: Key<K>, p: Plan) {
    forall i :: 0 <= i < |trace| && Ours(trace[i], key) ==> IsDatagramOf(p, trace[i].data)
  }

  /** Once begun, the message was not dropped for space. */
  ghost predicate Survives<K>(v: View<K>, trace: seq<Event<K>>, key: Key<K>) {
    forall i :: 0 <= i <= |trace| && Seen(trace[..i], key) != {} ==> key in Run(v, trace[..i]).entries
  }

  lemma OurFragment<K>(ev: Event<K>, key: Key<K>, p: Plan) returns (j: u16)
    requires Ours(ev, key) && IsDatagramOf(p, ev.data) && p.count > 1
    ensures j < p.count && FragmentIn(ev.data) == Some(FragmentOf(p, j)) && p.sequence == key.sequence
    ensures FragmentIn(ev.data).value.index == j
  {
    hide Plan.Start, Plan.End, IsUtf8, CheckChannel, DatagramOf;
    var i :| 0 <= i < p.count && ev.data == DatagramOf(p, i);
    j := i;
    FragmentRoundTrip(p, i);
    FragmentFields(p, i);
  }

  lemma SurvivesPrefix<K>(v: View<K>, trace: seq<Event<K>>, key: Key<K>)
    requires Survives(v, trace, key) && trace != []
    ensures Survives(v, trace[..|trace| - 1], key)
  {
    var n := |trace| - 1;
    forall i | 0 <= i <= n && Seen(trace[..n][..i], key) != {}
      ensures key in Run(v, trace[..n][..i]).entries
    {
      assert trace[..n][..i] == trace[..i];
    }
  }

  lemma OursIsFrom<K>(ev: Event<K>, key: Key<K>)
    requires Ours(ev, key)
    ensures ev.from == key.source && FragmentIn(ev.data).Some?
  {
  }

  lemma SubsetSize(a: set<u16>, b: set<u16>)
    requires a <= b
    ensures |a| <= |b|
  {
    assert b == a + (b - a);
  }

  lemma SeenGrows<K>(trace: seq<Event<K>>, key: Key<K>)
    requires trace != []
    ensures Seen(trace[..|trace| - 1], key) <= Seen(trace, key)
    ensures |Seen(trace[..|trace| - 1], key)| <= |Seen(trace, key)|
  {
    SubsetSize(Seen(trace[..|trace| - 1], key), Seen(trace, key));
  }

  lemma SurvivesNow<K>(v: View<K>, trace: seq<Event<K>>, key: Key<K>)
    requires Survives(v, trace, key)
    ensures Seen(trace, key) != {} ==> key in Run(v, trace).entries
  {
    assert trace[..|trace|] == trace;
  }

  /** Until the last index comes, the table holds exactly what was seen, and
      each of our datagrams is answered with nothing. */
  lemma {:induction false} HoldsWhatWasSeen<K>(v: View<K>, trace: seq<Event<K>>, key: Key<K>, p: Plan)
    requires key !in v.entries && Sound(p) && p.count > 1
    requires OnlyOurs(trace, key, p) && Survives(v, trace, key)
    requires |Seen(trace, key)| < p.count
    ensures Holding(Run(v, trace), key, p, Seen(trace, key))
    ensures trace != [] && Ours(trace[|trace| - 1], key) ==>
      Feed(Run(v, trace[..|trace| - 1]), key.source, FragmentIn(trace[|trace| - 1].data).value).1.Waiting?
  {
    hide Sound, Feed, IsDatagramOf, Collected, FragmentOf, FragmentIn;
    if trace != [] {
      var n := |trace| - 1;
      SurvivesPrefix(v, trace, key);
      SeenGrows(trace, key);
      HoldsWhatWasSeen(v, trace[..n], key, p);
      SurvivesNow(v, trace, key);
      if Ours(trace[n], key) {
        var j := OurFragment(trace[n], key, p);
        OurStep(Run(v, trace[..n]), trace[n], key, p, Seen(trace[..n], key), j);
        OursIsFrom(trace[n], key);
      } else {
        OtherStep(Run(v, trace[..n]), trace[n], key);
      }
    }
  }

  lemma SettledFull(e: Entry, p: Plan, wants: str -> bool, r: Result<Option<Received>>)
    requires Tiles(e) && Clear(e) && e.channel == Some(p.channel)
    requires forall payload :: Assembles(e, payload) ==> payload == p.payload
    requires Delivers(Complete(e), p.sequence, wants, r)
    ensures r == Ok(if wants(p.channel) then Some(Received(Frame(p.channel, p.payload), p.sequence, true)) else None)
  {
    hide Tiles, Clear, Assembles;
  }

  /** The fragments of a message, in any sequence, with repeats, between those
      of any other senders: the datagram that brings the last missing index
      gives the message back as it was, and the table lets go of it. */
  lemma LastFragmentDelivers<K>(v: View<K>, trace: seq<Event<K>>, ev: Event<K>, key: Key<K>, p: Plan,
                                wants: str -> bool, r: Result<Option<Received>>)
    requires key !in v.entries && Sound(p) && p.count > 1
    requires OnlyOurs(trace, key, p) && Survives(v, trace, key)
    requires |Seen(trace, key)| < p.count
    requires Ours(ev, key) && IsDatagramOf(p, ev.data)
    requires |Seen(trace, key) + {FragmentIn(ev.data).value.index}| == p.count
    requires Gives(Run(v, trace), ev, wants, r)
    ensures r == Ok(if wants(p.channel) then Some(Received(Frame(p.channel, p.payload), p.sequence, true)) else None)
    ensures key !in Arrive(Run(v, trace), ev).entries
  {
    hide Sound, Feed, IsDatagramOf, Collected, FragmentOf, Settles, Tiles, Clear, Assembles;
    HoldsWhatWasSeen(v, trace, key, p);
    var j := OurFragment(ev, key, p);
    OursIsFrom(ev, key);
    OurStep(Run(v, trace), ev, key, p, Seen(trace, key), j);
    var e := Feed(Run(v, trace), ev.from, FragmentOf(p, j)).1.entry;
    FullIsTheMessage(p, Seen(trace, key) + {j}, e);
    FragmentFields(p, j);
    SettledFull(e, p, wants, r);
  }

  lemma SurvivesOneMore<K>(v: View<K>, trace: seq<Event<K>>, key: Key<K>)
    requires |trace| > 0 && Survives(v, trace[..|trace| - 1], key)
    requires Seen(trace, key) != {} ==> key in Run(v, trace).entries
    ensures Survives(v, trace, key)
  {
    hide Seen, Run;
    var n := |trace| - 1;
    forall i | 0 <= i <= |trace| && Seen(trace[..i], key) != {}
      ensures key in Run(v, trace[..i]).entries
    {
      if i <= n {
        assert trace[..n][..i] == trace[..i];
      } else {
        assert trace[..i] == trace;
      }
    }
  }

  /** A message alone on the bus is not dropped, whatever its size. */
  lemma {:induction false} AloneSurvives<K>(trace: seq<Event<K>>, key: Key<K>, p: Plan)
    requires Sound(p) && p.count > 1 && OnlyOurs(trace, key, p)
    requires forall i :: 0 <= i < |trace| ==> Ours(trace[i], key) || FragmentIn(trace[i].data).None?
    requires |Seen(trace, key)| < p.count
    ensures Survives(Empty(), trace, key)
  {
    hide Sound, Feed, IsDatagramOf, Collected, FragmentOf, FragmentIn, Ours;
    if trace == [] {
      assert forall i :: 0 <= i <= |trace| ==> trace[..i] == [];
    } else {
      var n := |trace| - 1;
      SeenGrows(trace, key);
      AloneSurvives(trace[..n], key, p);
      HoldsWhatWasSeen(Empty(), trace[..n], key, p);
      if Ours(trace[n], key) {
        var j := OurFragment(trace[n], key, p);
        OursIsFrom(trace[n], key);
        OurStep(Run(Empty(), trace[..n]), trace[n], key, p, Seen(trace[..n], key), j);
      }
      SurvivesOneMore(Empty(), trace, key);
    }
  }

  /** A message of one datagram is given back by that datagram. */
  lemma WholeDelivers<K>(v: View<K>, ev: Event<K>, p: Plan, wants: str -> bool, r: Result<Option<Received>>)
    requires Sound(p) && p.count == 1 && ev.data == DatagramOf(p, 0)
    requires Gives(v, ev, wants, r)
    ensures r == Ok(if wants(p.channel) then Some(Received(Frame(p.channel, p.payload), p.sequence, false)) else None)
    ensures Arrive(v, ev) == v
  {
    hide DatagramOf, Decode, Sound;
    WholeRoundTrip(p);
  }

  /** A message that `fragments` cuts, among any other traffic: the datagram
      that brings its last missing index gives back the frame that was cut. */
  lemma WhatGoesInComesOut<K>(sequence: u32, frame: Frame, shortMax: nat, from: K, v: View<K>, trace: seq<Event<K>>,
                              ev: Event<K>, wants: str -> bool, r: Result<Option<Received>>)
    requires Fragments(sequence, frame, shortMax).Ok? && |frame.channel| + 1 + |frame.payload| > shortMax
    requires var p := Fragments(sequence, frame, shortMax).value;
      var key := Key(from, sequence);
      && key !in v.entries && OnlyOurs(trace, key, p) && Survives(v, trace, key) && |Seen(trace, key)| < p.count
      && Ours(ev, key) && IsDatagramOf(p, ev.data)
      && |Seen(trace, key) + {FragmentIn(ev.data).value.index}| == p.count
    requires Gives(Run(v, trace), ev, wants, r)
    ensures r == Ok(if wants(frame.channel) then Some(Received(frame, sequence, true)) else None)
    ensures Key(from, sequence) !in Arrive(Run(v, trace), ev).entries
  {
    hide *;
    PlanIsSound(sequence, frame, shortMax);
    LastFragmentDelivers(v, trace, ev, Key(from, sequence), Fragments(sequence, frame, shortMax).value, wants, r);
  }

  lemma NothingThere<K>(key: Key<K>)
    ensures key !in Empty<K>().entries
  {
  }
  // ---- Any neighbours ------------------------------------------------------

  lemma NotOursIsAnother<K>(ev: Event<K>, key: Key<K>)
    requires !Ours(ev, key)
    ensures FragmentIn(ev.data).Some? ==> key != Key(ev.from, FragmentIn(ev.data).value.sequence)
  {
  }

  /** In a run with space a message that began is there until it is whole. */
  lemma {:induction false} RoomySurvives<K>(v: View<K>, trace: seq<Event<K>>, key: Key<K>, p: Plan)
    requires key !in v.entries && Sound(p) && p.count > 1 && OnlyOurs(trace, key, p) && Roomy(v, trace)
    requires |Seen(trace, key)| < p.count
    ensures Survives(v, trace, key)
  {
    hide Sound, Feed, IsDatagramOf, Collected, FragmentOf, FragmentIn, Ours, Roomy, HasSpace;
    if trace == [] {
      assert forall i :: 0 <= i <= |trace| ==> trace[..i] == [];
    } else {
      var n := |trace| - 1;
      SeenGrows(trace, key);
      RoomyFront(v, trace);
      RoomySurvives(v, trace[..n], key, p);
      HoldsWhatWasSeen(v, trace[..n], key, p);
      if Ours(trace[n], key) {
        var j := OurFragment(trace[n], key, p);
        OursIsFrom(trace[n], key);
        OurStep(Run(v, trace[..n]), trace[n], key, p, Seen(trace[..n], key), j);
      } else {
        NotOursIsAnother(trace[n], key);
        SpaceKeepsOthers(Run(v, trace[..n]), trace[n], key);
      }
      SurvivesOneMore(v, trace, key);
    }
  }

  /** A message that `fragments` cuts, between those of any number of senders:
      where each event finds fewer than 1000 messages and 16 MiB in flight, the
      last of its datagrams to come gives the frame. Nothing is said of
      evictions, for there are none. */
  lemma AmongOthersItComesOut<K>(sequence: u32, frame: Frame, shortMax: nat, from: K, v: View<K>, trace: seq<Event<K>>,
                                 ev: Event<K>, wants: str -> bool, r: Result<Option<Received>>)
    requires Fragments(sequence, frame, shortMax).Ok? && |frame.channel| + 1 + |frame.payload| > shortMax
    requires var p := Fragments(sequence, frame, shortMax).value;
      var key := Key(from, sequence);
      && key !in v.entries && OnlyOurs(trace, key, p) && Roomy(v, trace) && |Seen(trace, key)| < p.count
      && Ours(ev, key) && IsDatagramOf(p, ev.data)
      && |Seen(trace, key) + {FragmentIn(ev.data).value.index}| == p.count
    requires Gives(Run(v, trace), ev, wants, r)
    ensures r == Ok(if wants(frame.channel) then Some(Received(frame, sequence, true)) else None)
  {
    hide *;
    PlanIsSound(sequence, frame, shortMax);
    RoomySurvives(v, trace, Key(from, sequence), Fragments(sequence, frame, shortMax).value);
    WhatGoesInComesOut(sequence, frame, shortMax, from, v, trace, ev, wants, r);
  }

  /** The same of a bus that starts empty and carries no more than 16 MiB, of
      fewer than 1000 messages, whoever sends them and however they mix. */
  lemma InLightTrafficItComesOut<K>(sequence: u32, frame: Frame, shortMax: nat, from: K, trace: seq<Event<K>>,
                                    ev: Event<K>, wants: str -> bool, r: Result<Option<Received>>)
    requires Fragments(sequence, frame, shortMax).Ok? && |frame.channel| + 1 + |frame.payload| > shortMax
    requires Load(trace) <= 0x100_0000 && |KeysOf(trace)| < 1000
    requires var p := Fragments(sequence, frame, shortMax).value;
      var key := Key(from, sequence);
      && OnlyOurs(trace, key, p) && |Seen(trace, key)| < p.count
      && Ours(ev, key) && IsDatagramOf(p, ev.data)
      && |Seen(trace, key) + {FragmentIn(ev.data).value.index}| == p.count
    requires Gives(Run(Empty(), trace), ev, wants, r)
    ensures r == Ok(if wants(frame.channel) then Some(Received(frame, sequence, true)) else None)
  {
    hide *;
    LightIsRoomy(trace);
    NothingThere(Key(from, sequence));
    AmongOthersItComesOut(sequence, frame, shortMax, from, Empty(), trace, ev, wants, r);
  }

  // ---- Any sequence --------------------------------------------------------

  /** The same of a message alone on the bus, whatever its size: nothing has to
      be said of evictions, for there are none. */
  lemma AloneComesOut<K>(sequence: u32, frame: Frame, shortMax: nat, from: K, trace: seq<Event<K>>,
                         ev: Event<K>, wants: str -> bool, r: Result<Option<Received>>)
    requires Fragments(sequence, frame, shortMax).Ok? && |frame.channel| + 1 + |frame.payload| > shortMax
    requires var p := Fragments(sequence, frame, shortMax).value;
      var key := Key(from, sequence);
      && OnlyOurs(trace, key, p) && |Seen(trace, key)| < p.count
      && (forall i :: 0 <= i < |trace| ==> Ours(trace[i], key) || FragmentIn(trace[i].data).None?)
      && Ours(ev, key) && IsDatagramOf(p, ev.data)
      && |Seen(trace, key) + {FragmentIn(ev.data).value.index}| == p.count
    requires Gives(Run(Empty(), trace), ev, wants, r)
    ensures r == Ok(if wants(frame.channel) then Some(Received(frame, sequence, true)) else None)
  {
    hide *;
    PlanIsSound(sequence, frame, shortMax);
    AloneSurvives(trace, Key(from, sequence), Fragments(sequence, frame, shortMax).value);
    NothingThere(Key(from, sequence));
    WhatGoesInComesOut(sequence, frame, shortMax, from, Empty(), trace, ev, wants, r);
  }

  /** No legal message is too long to be cut, where the datagrams are not tiny:
      one far above the budget of the reassembler is among those that come out. */
  lemma EveryLengthIsCut(sequence: u32, frame: Frame, shortMax: nat)
    requires CheckChannel(frame.channel, MAX_CHANNEL_LEN).Ok? && |frame.payload| <= MAX_MESSAGE_LEN
    requires shortMax >= 5000
    ensures Fragments(sequence, frame, shortMax).Ok?
    ensures |frame.payload| > MAX_FRAGMENT_BYTES && shortMax <= 0xFFFF ==>
      |frame.channel| + 1 + |frame.payload| > shortMax
  {
    hide IsUtf8;
    var size, limit := |frame.channel| + 1 + |frame.payload|, FragmentMax(shortMax);
    if size > shortMax {
      CeilDivBounds(size, limit);
      assert MAX_FRAGMENTS * limit >= MAX_FRAGMENTS * 4988 > size;
      if CeilDiv(size, limit) > MAX_FRAGMENTS {
        Multiples(MAX_FRAGMENTS, CeilDiv(size, limit) - 1, limit);
      }
    }
  }

  /** The datagrams of a plan, from one sender, in this sequence of indexes. */
  function Arrivals<K>(p: Plan, from: K, order: seq<u16>): (r: seq<Event<K>>)
    requires Sound(p) && forall i :: 0 <= i < |order| ==> order[i] < p.count
    ensures |r| == |order|
  {
    seq(|order|, i requires 0 <= i < |order| => Event(from, DatagramOf(p, order[i])))
  }

  /** Some of the indexes below `count`, each at most once. */
  ghost predicate Picks(order: seq<u16>, count: nat) {
    && (forall i :: 0 <= i < |order| ==> order[i] < count)
    && (forall i, j :: 0 <= i < j < |order| ==> order[i] != order[j])
  }

  ghost predicate Lists(order: seq<u16>, indexes: set<u16>) {
    (forall j :: j in indexes <==> j in order) && |indexes| == |order|
  }

  lemma NothingListed()
    ensures Lists([], {})
  {
  }

  lemma ListsOneMore(order: seq<u16>, count: nat, indexes: set<u16>)
    requires Picks(order, count) && order != [] && Lists(order[..|order| - 1], indexes)
    ensures Lists(order, indexes + {order[|order| - 1]})
  {
    var n := |order| - 1;
    assert order == order[..n] + [order[n]];
    assert order[n] !in order[..n];
  }

  lemma ArrivalIsOurs<K>(p: Plan, from: K, j: u16)
    requires Sound(p) && p.count > 1 && j < p.count
    ensures var ev := Event(from, DatagramOf(p, j));
      Ours(ev, Key(from, p.sequence)) && IsDatagramOf(p, ev.data) && FragmentIn(ev.data).value.index == j
  {
    hide Sound, DatagramOf, Decode, Plan.Cuts;
    FragmentRoundTrip(p, j);
    FragmentFields(p, j);
  }

  lemma ArrivalsAreOurs<K>(p: Plan, from: K, order: seq<u16>)
    requires Sound(p) && p.count > 1 && Picks(order, p.count)
    ensures var trace, key := Arrivals(p, from, order), Key(from, p.sequence);
      OnlyOurs(trace, key, p) && forall i :: 0 <= i < |trace| ==> Ours(trace[i], key)
  {
    hide Sound, DatagramOf, FragmentIn, Ours, IsDatagramOf, Plan.Cuts;
    var trace, key := Arrivals(p, from, order), Key(from, p.sequence);
    forall i | 0 <= i < |trace|
      ensures Ours(trace[i], key) && IsDatagramOf(p, trace[i].data)
    {
      ArrivalIsOurs(p, from, order[i]);
    }
  }

  lemma ArrivalsBefore<K>(p: Plan, from: K, order: seq<u16>)
    requires Sound(p) && p.count > 1 && Picks(order, p.count) && order != []
    ensures var trace, n := Arrivals(p, from, order), |order| - 1;
      trace[..n] == Arrivals(p, from, order[..n]) && trace[n] == Event(from, DatagramOf(p, order[n]))
  {
    hide Sound, DatagramOf;
  }

  lemma SeenOneMore<K>(trace: seq<Event<K>>, key: Key<K>, j: u16)
    requires trace != [] && Ours(trace[|trace| - 1], key)
    requires FragmentIn(trace[|trace| - 1].data).value.index == j
    ensures Seen(trace, key) == Seen(trace[..|trace| - 1], key) + {j}
  {
    hide FragmentIn;
  }

  lemma NothingSeen<K>(trace: seq<Event<K>>, key: Key<K>)
    requires trace == []
    ensures Seen(trace, key) == {}
  {
  }

  /** The receiver sees as many indexes as datagrams came. */
  lemma {:induction false} SeenOfArrivals<K>(p: Plan, from: K, order: seq<u16>)
    requires Sound(p) && p.count > 1 && Picks(order, p.count)
    ensures Lists(order, Seen(Arrivals(p, from, order), Key(from, p.sequence)))
  {
    hide Sound, DatagramOf, FragmentIn, Ours, Plan.Cuts, Seen, Arrivals, Lists;
    var key := Key(from, p.sequence);
    if order == [] {
      NothingSeen(Arrivals(p, from, order), key);
      NothingListed();
    } else {
      var n := |order| - 1;
      SeenOfArrivals(p, from, order[..n]);
      ArrivalsBefore(p, from, order);
      ArrivalIsOurs(p, from, order[n]);
      SeenOneMore(Arrivals(p, from, order), key, order[n]);
      ListsOneMore(order, p.count, Seen(Arrivals(p, from, order[..n]), key));
    }
  }

  lemma CutsAll(p: Plan, j: nat)
    requires Sound(p) && j < p.count
    ensures p.Cuts(j)
  {
  }

  lemma OneMore(a: set<u16>, j: u16)
    ensures |a + {j}| <= |a| + 1
  {
  }

  lemma EarlierIsSilent<K>(trace: seq<Event<K>>, ev: Event<K>, key: Key<K>, p: Plan,
                           wants: str -> bool, r: Result<Option<Received>>)
    requires Sound(p) && p.count > 1 && OnlyOurs(trace, key, p) && Survives(Empty(), trace, key)
    requires |Seen(trace, key)| + 1 < p.count && Ours(ev, key) && IsDatagramOf(p, ev.data)
    requires Gives(Run(Empty(), trace), ev, wants, r)
    ensures r == Ok(None)
  {
    hide Sound, IsDatagramOf, Run, Seen, Survives, OnlyOurs, Feed, FragmentOf, Collected, Settles, Tiles;
    NothingThere(key);
    HoldsWhatWasSeen(Empty(), trace, key, p);
    var j := OurFragment(ev, key, p);
    OursIsFrom(ev, key);
    OurStep(Run(Empty(), trace), ev, key, p, Seen(trace, key), j);
    OneMore(Seen(trace, key), j);
  }

  lemma PlanArrival<K>(p: Plan, from: K, order: seq<u16>, i: nat, wants: str -> bool, r: Result<Option<Received>>)
    requires Sound(p) && p.count > 1 && Picks(order, p.count) && |order| == p.count && i < p.count
    requires Gives(Run(Empty(), Arrivals(p, from, order[..i])), Event(from, DatagramOf(p, order[i])), wants, r)
    ensures r == Ok(if i + 1 == |order| && wants(p.channel) then Some(Received(Frame(p.channel, p.payload), p.sequence, true))
                    else None)
  {
    hide Sound, DatagramOf, FragmentIn, Gives, Run, IsDatagramOf, OnlyOurs, Survives, Seen, Ours, Plan.Cuts;
    var key := Key(from, p.sequence);
    CutsAll(p, order[i]);
    var trace, ev := Arrivals(p, from, order[..i]), Event(from, DatagramOf(p, order[i]));
    ArrivalsAreOurs(p, from, order[..i]);
    SeenOfArrivals(p, from, order[..i]);
    ArrivalIsOurs(p, from, order[i]);
    assert order[i] !in order[..i];
    AloneSurvives(trace, key, p);
    NothingThere(key);
    if i + 1 == |order| {
      LastFragmentDelivers(Empty(), trace, ev, key, p, wants, r);
    } else {
      EarlierIsSilent(trace, ev, key, p, wants, r);
    }
  }

  /** The datagrams of a message that `fragments` cuts, in whatever sequence the
      network brings them to a bus that has no other traffic: each but the last
      to come is answered with nothing, and the last gives the frame. */
  lemma AnySequenceComesOut<K>(sequence: u32, frame: Frame, shortMax: nat, from: K, order: seq<u16>, i: nat,
                               wants: str -> bool, r: Result<Option<Received>>)
    requires Fragments(sequence, frame, shortMax).Ok? && |frame.channel| + 1 + |frame.payload| > shortMax
    requires var p := Fragments(sequence, frame, shortMax).value;
      Picks(order, p.count) && |order| == p.count && i < p.count
    requires var p := Fragments(sequence, frame, shortMax).value;
      Sound(p) && Gives(Run(Empty(), Arrivals(p, from, order[..i])), Event(from, DatagramOf(p, order[i])), wants, r)
    ensures r == Ok(if i + 1 == |order| && wants(frame.channel) then Some(Received(frame, sequence, true)) else None)
  {
    hide *;
    hide Picks;
    var p := Fragments(sequence, frame, shortMax).value;
    PlanIsSound(sequence, frame, shortMax);
    PlanArrival(p, from, order, i, wants, r);
  }
}
