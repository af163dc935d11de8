/** What putting fragments back together means, without the indexes, the byte
    account and the gathered buffer that make it fast. */
module Reassembly {
  import opened Bytes
  import opened Wire
  import opened Udpm

  const MAX_FRAGMENT_BUFFERS: nat := 1000
  const MAX_FRAGMENT_BYTES: nat := 0x100_0000
  /** A `(u16, Piece)` is 16 bytes, and two words of a 64-bit host are 16 more. */
  const PIECE_COST: nat := 32

  /** All the peers of a group number their messages from zero. */
  datatype Key<K> = Key(source: K, sequence: u32)

  /** The bytes one fragment carried, and where it said they belong. */
  datatype Span = Span(offset: u32, data: bytes)

  /** A message that is part-way put together: the first span that came under
      each index, and the first name. `touched` is when the last one came. */
  datatype Entry = Entry(channel: Option<str>, total: u32, count: u16, kept: map<u16, Span>, touched: nat)

  datatype View<K(==)> = View(entries: map<Key<K>, Entry>, clock: nat, evicted: nat)

  /** The payload bytes kept under the indexes below `n`. */
  function Weight(kept: map<u16, Span>, n: u16): nat {
    if n == 0 then 0 else Weight(kept, n - 1) + if n - 1 in kept then |kept[n - 1].data| else 0
  }

  function EntryCost(e: Entry): nat {
    Weight(e.kept, e.count) + |e.kept| * PIECE_COST
  }

  ghost function TotalCost<K>(entries: map<Key<K>, Entry>): nat {
    if entries == map[] then 0
    else
      var k :| k in entries;
      EntryCost(entries[k]) + TotalCost(entries - {k})
  }

  ghost predicate GoodEntry(e: Entry) {
    && 1 <= e.count <= (if e.total > 1 then e.total else 1) && e.total <= MAX_MESSAGE_LEN
    && Weight(e.kept, e.count) <= e.total
    && forall i :: i in e.kept ==> i < e.count && e.kept[i].offset + |e.kept[i].data| <= e.total
  }

  ghost predicate GoodView<K>(v: View<K>) {
    && (forall k :: k in v.entries ==> GoodEntry(v.entries[k]) && v.entries[k].touched <= v.clock)
    && (forall j, k :: j in v.entries && k in v.entries && j != k ==> v.entries[j].touched != v.entries[k].touched)
  }

  ghost function Empty<K>(): View<K> {
    View(map[], 0, 0)
  }

  // ---- Making space --------------------------------------------------------

  ghost predicate OverBudget<K>(entries: map<Key<K>, Entry>, incoming: nat) {
    || |entries| >= MAX_FRAGMENT_BUFFERS
    || (TotalCost(entries) + incoming > MAX_FRAGMENT_BYTES && entries != map[])
  }

  /** The message, other than `keep`, that waited longest for a fragment. */
  ghost predicate IsOldest<K>(entries: map<Key<K>, Entry>, keep: Key<K>, k: Key<K>) {
    && k in entries && k != keep
    && forall j :: j in entries && j != keep ==> entries[k].touched <= entries[j].touched
  }

  ghost predicate MustDrop<K>(v: View<K>, keep: Key<K>, incoming: nat) {
    OverBudget(v.entries, incoming) && exists k :: k in v.entries && IsOldest(v.entries, keep, k)
  }

  ghost function Drop<K>(v: View<K>, k: Key<K>): View<K> {
    v.(entries := v.entries - {k}, evicted := v.evicted + 1)
  }

  lemma RemoveShrinks<A, B>(m: map<A, B>, a: A)
    requires a in m
    ensures |m - {a}| == |m| - 1
  {
    assert (m - {a}).Keys == m.Keys - {a};
  }

  ghost function MakeSpace<K>(v: View<K>, keep: Key<K>, incoming: nat): View<K>
    decreases |v.entries|
  {
    if MustDrop(v, keep, incoming) then
      var k :| k in v.entries && IsOldest(v.entries, keep, k);
      RemoveShrinks(v.entries, k);
      MakeSpace(Drop(v, k), keep, incoming)
    else v
  }

  // ---- One fragment --------------------------------------------------------

  datatype Outcome = Refused(error: WireError) | Waiting | Complete(entry: Entry)

  /** What is wrong with a fragment on its own. */
  function ShapeError(f: Fragment): Option<WireError> {
    if f.total > MAX_MESSAGE_LEN then Some(MessageTooLarge(f.total))
    else if f.count == 0 || f.index >= f.count then Some(InconsistentFragment(f.sequence))
    else if f.count > (if f.total > 1 then f.total else 1) then Some(InconsistentFragment(f.sequence))
    else if f.offset + |f.payload| > f.total then Some(InconsistentFragment(f.sequence))
    else None
  }

  /** The entry a fragment finds: its own, or a new one. The first name stays. */
  function Touch(e: Option<Entry>, f: Fragment, now: nat): Entry {
    var e := match e
      case Some(e) => e.(touched := now)
      case None => Entry(None, f.total, f.count, map[], now);
    if e.channel.None? then e.(channel := f.channel) else e
  }

  function Lookup<A, B>(m: map<A, B>, a: A): Option<B> {
    if a in m then Some(m[a]) else None
  }

  ghost function Settle<K>(v: View<K>, key: Key<K>, e: Entry): (View<K>, Outcome) {
    if |e.kept| < e.count then (v.(entries := v.entries[key := e]), Waiting)
    else (v.(entries := v.entries - {key}), Complete(e))
  }

  /** A new fragment that would bring more bytes than the message has. */
  predicate Overflows(e: Entry, f: Fragment) {
    f.index !in e.kept && Weight(e.kept, e.count) + |f.payload| > e.total
  }

  /** The first fragment of an index is the one kept. */
  function Kept(e: Entry, f: Fragment): Entry {
    if f.index in e.kept then e else e.(kept := e.kept[f.index := Span(f.offset, f.payload)])
  }

  ghost function Store<K>(v: View<K>, key: Key<K>, e: Entry, f: Fragment): (View<K>, Outcome) {
    if Overflows(e, f) then
      (v.(entries := v.entries[key := e]), Refused(InconsistentFragment(f.sequence)))
    else Settle(v, key, Kept(e, f))
  }

  ghost predicate Disagrees<K>(v: View<K>, key: Key<K>, f: Fragment) {
    key in v.entries && (v.entries[key].total != f.total || v.entries[key].count != f.count)
  }

  ghost function Feed<K>(v: View<K>, source: K, f: Fragment): (View<K>, Outcome) {
    var key := Key(source, f.sequence);
    if ShapeError(f).Some? then (v, Refused(ShapeError(f).value))
    else if Disagrees(v, key, f) then
      (v.(entries := v.entries - {key}), Refused(InconsistentFragment(f.sequence)))
    else
      var now := v.clock + 1;
      var w := MakeSpace(v.(clock := now), key, |f.payload|);
      Store(w, key, Touch(Lookup(w.entries, key), f, now), f)
  }

  // ---- What a complete message gives ---------------------------------------

  /** Every byte kept is at the offset its fragment gave, and there is no other. */
  ghost predicate Assembles(e: Entry, payload: bytes) {
    && |payload| == e.total
    && forall i :: i in e.kept ==>
      var s := e.kept[i];
      s.offset + |s.data| <= |payload| && payload[s.offset..s.offset + |s.data|] == s.data
  }

  predicate Apart(a: Span, b: Span) {
    a.offset + |a.data| <= b.offset || b.offset + |b.data| <= a.offset
  }

  /** The spans do not overlap and their lengths add up: they tile the message. */
  ghost predicate Tiles(e: Entry) {
    && Weight(e.kept, e.count) == e.total
    && forall i, j :: i in e.kept && j in e.kept && i != j ==> Apart(e.kept[i], e.kept[j])
  }

  /** No empty span starts where one with bytes starts. Where one does, the two
      sort in either sequence, and the answer is the sort's. */
  ghost predicate Clear(e: Entry) {
    forall i, j :: i in e.kept && j in e.kept && e.kept[i].offset == e.kept[j].offset ==>
      (e.kept[i].data == [] <==> e.kept[j].data == [])
  }

  ghost predicate Settles(e: Entry, sequence: u32, r: Result<Option<Frame>>) {
    && (r.Ok? ==>
      && r.value.Some? && e.channel == Some(r.value.value.channel)
      && Tiles(e) && Assembles(e, r.value.value.payload))
    && (r.Err? ==> r.error == InconsistentFragment(sequence) && !(e.channel.Some? && Tiles(e) && Clear(e)))
  }

  ghost predicate Answers(o: Outcome, sequence: u32, r: Result<Option<Frame>>) {
    match o
    case Refused(e) => r == Err(e)
    case Waiting => r == Ok(None)
    case Complete(e) => Settles(e, sequence, r)
  }

  // ---- The sums ------------------------------------------------------------

  lemma {:induction false} WeightPut(kept: map<u16, Span>, i: u16, s: Span, n: u16)
    requires i !in kept
    ensures Weight(kept[i := s], n) == Weight(kept, n) + if i < n then |s.data| else 0
  {
    if n > 0 {
      WeightPut(kept, i, s, n - 1);
    }
  }

  lemma {:induction false} TotalCostWithout<K>(entries: map<Key<K>, Entry>, k: Key<K>)
    requires k in entries
    ensures TotalCost(entries) == EntryCost(entries[k]) + TotalCost(entries - {k})
    decreases |entries|
  {
    hide EntryCost;
    var c :| c in entries && TotalCost(entries) == EntryCost(entries[c]) + TotalCost(entries - {c});
    if c != k {
      RemoveShrinks(entries, c);
      RemoveShrinks(entries, k);
      TotalCostWithout(entries - {c}, k);
      TotalCostWithout(entries - {k}, c);
      assert entries - {c} - {k} == entries - {k} - {c};
    }
  }

  lemma TotalCostPut<K>(entries: map<Key<K>, Entry>, k: Key<K>, e: Entry)
    ensures TotalCost(entries[k := e]) == EntryCost(e) + TotalCost(entries - {k})
  {
    hide EntryCost;
    TotalCostWithout(entries[k := e], k);
    assert entries[k := e] - {k} == entries - {k};
  }

  // ---- Every reachable state -----------------------------------------------

  lemma {:induction false} OldestExists<K>(entries: map<Key<K>, Entry>, keep: Key<K>)
    requires exists k :: k in entries && k != keep
    ensures exists k :: k in entries && IsOldest(entries, keep, k)
    decreases |entries|
  {
    var k :| k in entries && k != keep;
    if !IsOldest(entries, keep, k) {
      var rest := entries - {k};
      RemoveShrinks(entries, k);
      var j :| j in entries && j != keep && entries[j].touched < entries[k].touched;
      assert j in rest;
      OldestExists(rest, keep);
      var o :| o in rest && IsOldest(rest, keep, o);
      assert entries[o].touched <= entries[j].touched;
      forall x | x in entries && x != keep
        ensures entries[o].touched <= entries[x].touched
      {
        if x != k {
          assert x in rest;
        }
      }
    }
  }

  lemma MakeSpaceStep<K>(v: View<K>, keep: Key<K>, incoming: nat) returns (k: Key<K>)
    requires MustDrop(v, keep, incoming)
    ensures k in v.entries && IsOldest(v.entries, keep, k)
    ensures |Drop(v, k).entries| == |v.entries| - 1
    ensures MakeSpace(v, keep, incoming) == MakeSpace(Drop(v, k), keep, incoming)
  {
    hide OverBudget;
    k :| k in v.entries && IsOldest(v.entries, keep, k)
         && MakeSpace(v, keep, incoming) == MakeSpace(Drop(v, k), keep, incoming);
    RemoveShrinks(v.entries, k);
  }

  lemma MakeSpaceStop<K>(v: View<K>, keep: Key<K>, incoming: nat)
    requires !MustDrop(v, keep, incoming)
    ensures MakeSpace(v, keep, incoming) == v
  {
  }

  /** Space is made by dropping, and what stays is as it was. `keep` stays. */
  lemma {:induction false} MakeSpaceKeeps<K>(v: View<K>, keep: Key<K>, incoming: nat)
    ensures var w := MakeSpace(v, keep, incoming);
      && w.clock == v.clock
      && w.entries.Keys <= v.entries.Keys
      && (forall k :: k in w.entries ==> w.entries[k] == v.entries[k])
      && (keep in v.entries ==> keep in w.entries)
      && w.evicted + |w.entries| == v.evicted + |v.entries|
    decreases |v.entries|
  {
    hide OverBudget, MakeSpace, MustDrop;
    if MustDrop(v, keep, incoming) {
      var k := MakeSpaceStep(v, keep, incoming);
      MakeSpaceKeeps(Drop(v, k), keep, incoming);
    } else {
      MakeSpaceStop(v, keep, incoming);
    }
  }

  /** The budget holds behind it, or there is nothing but `keep` to drop. */
  lemma {:induction false} MakeSpaceFits<K>(v: View<K>, keep: Key<K>, incoming: nat)
    ensures var w := MakeSpace(v, keep, incoming);
      w.entries.Keys <= {keep} || (|w.entries| < 1000 && TotalCost(w.entries) + incoming <= 0x100_0000)
    decreases |v.entries|
  {
    hide TotalCost, MakeSpace, IsOldest;
    if MustDrop(v, keep, incoming) {
      var k := MakeSpaceStep(v, keep, incoming);
      MakeSpaceFits(Drop(v, k), keep, incoming);
    } else {
      MakeSpaceStop(v, keep, incoming);
      if k :| k in v.entries && k != keep {
        OldestExists(v.entries, keep);
      }
    }
  }

  /** Whatever goes is older than whatever stays. */
  ghost predicate LeastRecent<K>(v: View<K>, w: View<K>, keep: Key<K>) {
    && w.entries.Keys <= v.entries.Keys
    && forall gone, stays :: gone in v.entries && gone !in w.entries && stays in w.entries && stays != keep ==>
      v.entries[gone].touched <= v.entries[stays].touched
  }

  /** `last` went, nothing that went is younger, and with it still there the
      budget would not hold. */
  ghost predicate LastToGo<K>(v: View<K>, w: View<K>, last: Key<K>, incoming: nat) {
    && last in v.entries && last !in w.entries
    && (forall gone :: gone in v.entries && gone !in w.entries ==> v.entries[gone].touched <= v.entries[last].touched)
    && var one := w.entries[last := v.entries[last]];
       |one| >= 1000 || TotalCost(one) + incoming > 0x100_0000
  }

  /** One victim more, in front of the others. */
  lemma OneMoreVictim<K>(v: View<K>, keep: Key<K>, k: Key<K>, w: View<K>, last: Key<K>, incoming: nat)
    requires k in v.entries && IsOldest(v.entries, keep, k)
    requires LeastRecent(Drop(v, k), w, keep)
    requires forall j :: j in w.entries ==> j in v.entries && j != k
    ensures LeastRecent(v, w, keep)
    ensures last != keep && LastToGo(Drop(v, k), w, last, incoming) ==> LastToGo(v, w, last, incoming)
  {
    hide TotalCost;
  }

  lemma OnlyVictim<K>(v: View<K>, k: Key<K>, incoming: nat)
    requires k in v.entries && OverBudget(v.entries, incoming)
    ensures LastToGo(v, Drop(v, k), k, incoming)
  {
    hide TotalCost;
    assert Drop(v, k).entries[k := v.entries[k]] == v.entries;
  }

  /** The victims are the least recent, and there are no more than there have
      to be. */
  lemma {:induction false} MakeSpaceIsLeastRecent<K>(v: View<K>, keep: Key<K>, incoming: nat) returns (last: Key<K>)
    ensures LeastRecent(v, MakeSpace(v, keep, incoming), keep)
    ensures MakeSpace(v, keep, incoming) != v ==>
      last != keep && LastToGo(v, MakeSpace(v, keep, incoming), last, incoming)
    decreases |v.entries|
  {
    hide OverBudget, MakeSpace, LastToGo;
    last := keep;
    if MustDrop(v, keep, incoming) {
      var k := MakeSpaceStep(v, keep, incoming);
      var next := Drop(v, k);
      MakeSpaceKeeps(next, keep, incoming);
      last := MakeSpaceIsLeastRecent(next, keep, incoming);
      OneMoreVictim(v, keep, k, MakeSpace(next, keep, incoming), last, incoming);
      if MakeSpace(next, keep, incoming) == next {
        last := k;
        OnlyVictim(v, k, incoming);
      }
    } else {
      MakeSpaceStop(v, keep, incoming);
    }
  }

  ghost predicate Within<K>(v: View<K>) {
    && |v.entries| <= 1000
    && (TotalCost(v.entries) <= 0x100_0000 + 32 || |v.entries| <= 1)
  }

  lemma KeptIsGood(e: Entry, f: Fragment)
    requires GoodEntry(e) && ShapeError(f).None? && e.total == f.total && e.count == f.count
    requires !Overflows(e, f)
    ensures GoodEntry(Kept(e, f))
  {
    if f.index !in e.kept {
      WeightPut(e.kept, f.index, Span(f.offset, f.payload), e.count);
    }
  }

  lemma StoreKeeps<K>(w: View<K>, key: Key<K>, e: Entry, f: Fragment)
    requires GoodView(w) && GoodEntry(e) && ShapeError(f).None?
    requires e.total == f.total && e.count == f.count && e.touched == w.clock
    requires forall k :: k in w.entries && k != key ==> w.entries[k].touched < w.clock
    ensures GoodView(Store(w, key, e, f).0)
    ensures Store(w, key, e, f).1.Complete? ==> GoodEntry(Store(w, key, e, f).1.entry)
  {
    hide GoodEntry, Overflows, ShapeError;
    if !Overflows(e, f) {
      KeptIsGood(e, f);
    }
  }

  lemma {:induction false} EmptyWeighsNothing(n: u16)
    ensures Weight(map[], n) == 0
  {
    if n > 0 {
      EmptyWeighsNothing(n - 1);
    }
  }

  lemma TouchKeeps<K>(w: View<K>, key: Key<K>, f: Fragment, now: nat)
    requires GoodView(w) && ShapeError(f).None? && !Disagrees(w, key, f)
    ensures var e := Touch(Lookup(w.entries, key), f, now);
      GoodEntry(e) && e.total == f.total && e.count == f.count && e.touched == now
  {
    EmptyWeighsNothing(f.count);
  }

  /** Every state a run reaches is a good one. */
  lemma FeedKeepsGood<K>(v: View<K>, source: K, f: Fragment)
    requires GoodView(v)
    ensures GoodView(Feed(v, source, f).0)
    ensures Feed(v, source, f).1.Complete? ==> GoodEntry(Feed(v, source, f).1.entry)
  {
    hide GoodEntry, MakeSpace, Store, Touch, ShapeError, Lookup;
    var key := Key(source, f.sequence);
    if ShapeError(f).None? && !Disagrees(v, key, f) {
      var now := v.clock + 1;
      var w := MakeSpace(v.(clock := now), key, |f.payload|);
      MakeSpaceKeeps(v.(clock := now), key, |f.payload|);
      TouchKeeps(w, key, f, now);
      StoreKeeps(w, key, Touch(Lookup(w.entries, key), f, now), f);
    }
  }

  // ---- The budget ----------------------------------------------------------

  /** What the key costs now, or nothing where it is not there. */
  function CostAt<K(==)>(entries: map<Key<K>, Entry>, key: Key<K>): nat {
    if key in entries then EntryCost(entries[key]) else 0
  }

  lemma CostSplits<K>(entries: map<Key<K>, Entry>, key: Key<K>)
    ensures TotalCost(entries) == CostAt(entries, key) + TotalCost(entries - {key})
  {
    hide EntryCost;
    if key in entries {
      TotalCostWithout(entries, key);
    } else {
      assert entries - {key} == entries;
    }
  }

  /** A fragment that is stored costs its bytes and 32 more, and one whose index
      is there costs nothing. */
  lemma KeptCosts(e: Entry, f: Fragment)
    requires f.index < e.count
    ensures EntryCost(Kept(e, f)) == EntryCost(e) + if f.index in e.kept then 0 else |f.payload| + 32
  {
    if f.index !in e.kept {
      WeightPut(e.kept, f.index, Span(f.offset, f.payload), e.count);
    }
  }

  lemma TouchCosts<K>(w: View<K>, key: Key<K>, f: Fragment, now: nat)
    ensures EntryCost(Touch(Lookup(w.entries, key), f, now)) == CostAt(w.entries, key)
  {
    EmptyWeighsNothing(f.count);
  }

  lemma PutSize<A, B>(m: map<A, B>, a: A, b: B)
    ensures |m[a := b]| <= |m| + 1
    ensures |m - {a}| <= |m|
    ensures m.Keys <= {a} ==> |m[a := b]| <= 1 && |m - {a}| <= 1
  {
    assert m[a := b].Keys == m.Keys + {a};
    assert (m - {a}).Keys == m.Keys - {a};
    if m.Keys <= {a} {
      assert m[a := b].Keys == {a};
      assert (m - {a}).Keys == {};
    }
  }

  lemma PutStaysWithin<K>(w: View<K>, key: Key<K>, e: Entry, incoming: nat)
    requires w.entries.Keys <= {key} || (|w.entries| < 1000 && TotalCost(w.entries) + incoming <= 0x100_0000)
    requires EntryCost(e) <= CostAt(w.entries, key) + incoming + 32
    ensures Within(w.(entries := w.entries[key := e])) && Within(w.(entries := w.entries - {key}))
  {
    hide EntryCost, CostAt;
    CostSplits(w.entries, key);
    TotalCostPut(w.entries, key, e);
    PutSize(w.entries, key, e);
    assert w.entries == map[] ==> w.entries.Keys <= {key};
  }

  lemma TouchShape<K>(w: View<K>, key: Key<K>, f: Fragment, now: nat)
    requires ShapeError(f).None? && !Disagrees(w, key, f)
    ensures var e := Touch(Lookup(w.entries, key), f, now);
      e.count == f.count && e.total == f.total && f.index < e.count
  {
  }

  lemma StoreStaysWithin<K>(w: View<K>, key: Key<K>, f: Fragment, now: nat)
    requires ShapeError(f).None? && !Disagrees(w, key, f)
    requires w.entries.Keys <= {key} || (|w.entries| < 1000 && TotalCost(w.entries) + |f.payload| <= 0x100_0000)
    ensures Within(Store(w, key, Touch(Lookup(w.entries, key), f, now), f).0)
  {
    hide EntryCost, Touch, Lookup, Overflows, Kept, CostAt, Within, TotalCost, Disagrees, ShapeError;
    var e := Touch(Lookup(w.entries, key), f, now);
    TouchCosts(w, key, f, now);
    TouchShape(w, key, f, now);
    KeptCosts(e, f);
    PutStaysWithin(w, key, e, |f.payload|);
    PutStaysWithin(w, key, Kept(e, f), |f.payload|);
  }

  /** At most a thousand messages, and no more bytes than the budget and one
      place, but where there is one message alone. */
  lemma FeedStaysWithin<K>(v: View<K>, source: K, f: Fragment)
    requires Within(v)
    ensures Within(Feed(v, source, f).0)
  {
    hide EntryCost, MakeSpace, Store, Touch, Lookup, ShapeError;
    var key := Key(source, f.sequence);
    if ShapeError(f).None? && !Disagrees(v, key, f) {
      var now := v.clock + 1;
      MakeSpaceKeeps(v.(clock := now), key, |f.payload|);
      MakeSpaceFits(v.(clock := now), key, |f.payload|);
      StoreStaysWithin(MakeSpace(v.(clock := now), key, |f.payload|), key, f, now);
    } else if ShapeError(f).None? {
      CostSplits(v.entries, key);
      PutSize(v.entries, key, v.entries[key]);
    }
  }

  // ---- What each fragment is answered --------------------------------------

  /** A fragment that can be one of a message: no longer than 2^28, with an index
      below its count, no more fragments than bytes, and its bytes inside it. */
  predicate Fits(f: Fragment) {
    && f.total <= 0x1000_0000 && f.index < f.count && f.count <= (if f.total > 1 then f.total else 1)
    && f.offset + |f.payload| <= f.total
  }

  lemma FitsExactly(f: Fragment)
    ensures ShapeError(f).None? <==> Fits(f)
    ensures f.total > 0x1000_0000 ==> ShapeError(f) == Some(MessageTooLarge(f.total))
    ensures f.total <= 0x1000_0000 && !Fits(f) ==> ShapeError(f) == Some(InconsistentFragment(f.sequence))
  {
  }

  /** What the table has under the key: the length and the count it was given
      first, the bytes of its fragments, and their indexes. */
  ghost predicate Agreed<K>(v: View<K>, key: Key<K>, f: Fragment) {
    key in v.entries ==> v.entries[key].total == f.total && v.entries[key].count == f.count
  }

  ghost function IndexesAt<K>(v: View<K>, key: Key<K>): set<u16> {
    if key in v.entries then v.entries[key].kept.Keys else {}
  }

  ghost function BytesAt<K>(v: View<K>, key: Key<K>): nat {
    if key in v.entries then Weight(v.entries[key].kept, v.entries[key].count) else 0
  }

  lemma StoreAnswers<K>(w: View<K>, key: Key<K>, f: Fragment, now: nat)
    requires Fits(f) && Agreed(w, key, f)
    ensures var answer := Store(w, key, Touch(Lookup(w.entries, key), f, now), f).1;
      var stored := f.index in IndexesAt(w, key) || BytesAt(w, key) + |f.payload| <= f.total;
      && (answer.Refused? <==> !stored)
      && (answer.Complete? <==> stored && |IndexesAt(w, key) + {f.index}| >= f.count)
  {
    EmptyWeighsNothing(f.count);
    var e := Touch(Lookup(w.entries, key), f, now);
    assert e.kept.Keys == IndexesAt(w, key);
    assert Kept(e, f).kept.Keys == IndexesAt(w, key) + {f.index};
    assert |Kept(e, f).kept| == |Kept(e, f).kept.Keys|;
  }

  /** Each fragment is answered by what it says and what is there of its message:
      refused where it does not fit, does not agree, or brings more bytes than the
      message has; else the message is complete where its index is the last. */
  lemma FeedAnswersExactly<K>(v: View<K>, source: K, f: Fragment)
    ensures var answer, key := Feed(v, source, f).1, Key(source, f.sequence);
      var stored := Fits(f) && Agreed(v, key, f)
        && (f.index in IndexesAt(v, key) || BytesAt(v, key) + |f.payload| <= f.total);
      && (answer.Refused? <==> !stored)
      && (answer.Complete? <==> stored && |IndexesAt(v, key) + {f.index}| >= f.count)
  {
    hide ShapeError, Touch, Lookup, Store, MakeSpace, Fits, Weight;
    FitsExactly(f);
    if Fits(f) && Agreed(v, Key(source, f.sequence), f) {
      var key := Key(source, f.sequence);
      var now := v.(clock := v.clock + 1);
      MakeSpaceKeeps(now, key, |f.payload|);
      StoreAnswers(MakeSpace(now, key, |f.payload|), key, f, v.clock + 1);
    }
  }

  // ---- Where there is space ------------------------------------------------

  lemma StoreLeavesOthers<K>(w: View<K>, key: Key<K>, e: Entry, f: Fragment)
    ensures var z := Store(w, key, e, f).0;
      && z.evicted == w.evicted
      && forall k :: k != key ==>
        (k in z.entries <==> k in w.entries) && (k in w.entries ==> z.entries[k] == w.entries[k])
  {
    hide Overflows, Kept;
  }

  /** With fewer than 1000 messages, and the bytes that come in within 16 MiB of
      bytes held, 32 to each piece, nobody is dropped. */
  lemma SpaceIsLeft<K>(v: View<K>, source: K, f: Fragment)
    requires |v.entries| < 1000 && TotalCost(v.entries) + |f.payload| <= 0x100_0000
    ensures var fed, key := Feed(v, source, f), Key(source, f.sequence);
      && fed.0.evicted == v.evicted
      && forall k :: k != key ==>
        (k in fed.0.entries <==> k in v.entries) && (k in v.entries ==> fed.0.entries[k] == v.entries[k])
  {
    hide TotalCost, Touch, Lookup, ShapeError, MakeSpace, Store, Disagrees;
    var key := Key(source, f.sequence);
    var now := v.(clock := v.clock + 1);
    MakeSpaceStop(now, key, |f.payload|);
    StoreLeavesOthers(now, key, Touch(Lookup(now.entries, key), f, v.clock + 1), f);
  }

  lemma StoreCosts<K>(w: View<K>, key: Key<K>, f: Fragment, now: nat)
    requires ShapeError(f).None? && !Disagrees(w, key, f)
    ensures TotalCost(Store(w, key, Touch(Lookup(w.entries, key), f, now), f).0.entries)
         <= TotalCost(w.entries) + |f.payload| + 32
  {
    hide TotalCost, EntryCost, Touch, Lookup, Overflows, Kept, CostAt, Disagrees, ShapeError;
    var e := Touch(Lookup(w.entries, key), f, now);
    TouchCosts(w, key, f, now);
    TouchShape(w, key, f, now);
    KeptCosts(e, f);
    CostSplits(w.entries, key);
    TotalCostPut(w.entries, key, e);
    TotalCostPut(w.entries, key, Kept(e, f));
  }

  /** Dropping brings the cost down. */
  lemma {:induction false} MakeSpaceCosts<K>(v: View<K>, keep: Key<K>, incoming: nat)
    ensures TotalCost(MakeSpace(v, keep, incoming).entries) <= TotalCost(v.entries)
    decreases |v.entries|
  {
    hide OverBudget, MakeSpace, MustDrop, TotalCost, EntryCost;
    if MustDrop(v, keep, incoming) {
      var k := MakeSpaceStep(v, keep, incoming);
      TotalCostWithout(v.entries, k);
      MakeSpaceCosts(Drop(v, k), keep, incoming);
    } else {
      MakeSpaceStop(v, keep, incoming);
    }
  }

  /** What a feed can add to the bytes held. */
  lemma FeedCosts<K>(v: View<K>, source: K, f: Fragment)
    ensures TotalCost(Feed(v, source, f).0.entries) <= TotalCost(v.entries) + |f.payload| + 32
  {
    hide TotalCost, EntryCost, Touch, Lookup, ShapeError, MakeSpace, Store;
    var key := Key(source, f.sequence);
    CostSplits(v.entries, key);
    if ShapeError(f).None? && !Disagrees(v, key, f) {
      var now := v.(clock := v.clock + 1);
      MakeSpaceKeeps(now, key, |f.payload|);
      MakeSpaceCosts(now, key, |f.payload|);
      StoreCosts(MakeSpace(now, key, |f.payload|), key, f, v.clock + 1);
    }
  }

  lemma StoreTouches<K>(w: View<K>, key: Key<K>, f: Fragment, now: nat)
    ensures var z := Store(w, key, Touch(Lookup(w.entries, key), f, now), f).0;
      && (key in z.entries ==> z.entries[key].touched == now)
      && forall k :: k in z.entries && k != key ==> k in w.entries && z.entries[k] == w.entries[k]
  {
    hide Overflows;
  }

  /** The message a fragment was stored for is the youngest. */
  lemma FedIsYoungest<K>(v: View<K>, source: K, f: Fragment)
    requires GoodView(v) && ShapeError(f).None? && !Disagrees(v, Key(source, f.sequence), f)
    requires Key(source, f.sequence) in Feed(v, source, f).0.entries
    ensures var w, key := Feed(v, source, f).0, Key(source, f.sequence);
      && w.entries[key].touched > v.clock
      && forall k :: k in w.entries && k != key ==> w.entries[k].touched <= v.clock
  {
    hide GoodEntry, ShapeError, Store, Touch, Lookup, MakeSpace, Disagrees;
    var key := Key(source, f.sequence);
    var now := v.(clock := v.clock + 1);
    MakeSpaceKeeps(now, key, |f.payload|);
    StoreTouches(MakeSpace(now, key, |f.payload|), key, f, v.clock + 1);
  }
}
