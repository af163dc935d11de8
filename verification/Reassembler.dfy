/** The reassembler as it is kept: a table of part-way messages, an index of
    the keys by age, and a running account of the bytes held. */
module ReassemblerState {
  import opened Bytes
  import opened Wire
  import opened Udpm
  import opened Reassembly

  /** A fragment that was stored: its offset in the message, and the bytes of the
      gathered buffer that are its payload. */
  datatype Piece = Piece(start: u32, at: u32, len: u32)

  datatype Partial = Partial(
    channel: Option<str>, total: u32, count: u16,
    arrived: bytes, pieces: map<u16, Piece>, touched: nat)

  ghost predicate Holds(arrived: bytes, q: Piece, s: Span) {
    && q.start == s.offset && q.len == |s.data| && q.at + q.len <= |arrived|
    && arrived[q.at..q.at + q.len] == s.data
  }

  /** The gathered bytes and the pieces say what the entry says. */
  ghost predicate Represents(p: Partial, e: Entry) {
    && p.channel == e.channel && p.total == e.total && p.count == e.count && p.touched == e.touched
    && p.pieces.Keys == e.kept.Keys
    && |p.arrived| == Weight(e.kept, e.count)
    && forall i :: i in p.pieces ==> Holds(p.arrived, p.pieces[i], e.kept[i])
  }

  // ---- Putting the pieces in sequence --------------------------------------

  function Lengths(pieces: seq<Piece>, n: nat): nat
    requires n <= |pieces|
  {
    if n == 0 then 0 else Lengths(pieces, n - 1) + pieces[n - 1].len
  }

  ghost predicate Sorted(s: seq<Piece>) {
    forall i, j :: 0 <= i < j < |s| ==> s[i].start <= s[j].start
  }

  /** `sorted[i]` is `v[order[i]]`, and `place` is the inverse of `order`. */
  ghost predicate Rearranges(v: seq<Piece>, sorted: seq<Piece>, order: seq<nat>, place: seq<nat>) {
    && |sorted| == |order| == |place| == |v|
    && (forall i :: 0 <= i < |v| ==> order[i] < |v| && sorted[i] == v[order[i]] && place[order[i]] == i)
    && (forall i :: 0 <= i < |v| ==> place[i] < |v| && order[place[i]] == i)
  }

  lemma InsertedRearranges(v: seq<Piece>, sorted: seq<Piece>, order: seq<nat>, place: seq<nat>, x: Piece, p: nat)
    returns (order': seq<nat>, place': seq<nat>)
    requires Rearranges(v, sorted, order, place) && p <= |v|
    ensures Rearranges(v + [x], sorted[..p] + [x] + sorted[p..], order', place')
  {
    order' := order[..p] + [|v|] + order[p..];
    place' := seq(|v|, i requires 0 <= i < |v| => if place[i] < p then place[i] else place[i] + 1) + [p];
  }

  lemma InsertedIsSorted(sorted: seq<Piece>, x: Piece, p: nat)
    requires Sorted(sorted) && p <= |sorted|
    requires forall i :: 0 <= i < p ==> sorted[i].start <= x.start
    requires p < |sorted| ==> x.start <= sorted[p].start
    ensures Sorted(sorted[..p] + [x] + sorted[p..])
    ensures multiset(sorted[..p] + [x] + sorted[p..]) == multiset(sorted) + multiset{x}
  {
    assert sorted == sorted[..p] + sorted[p..];
  }

  method FirstBehind(sorted: seq<Piece>, x: Piece) returns (p: nat)
    ensures p <= |sorted| && (forall i :: 0 <= i < p ==> sorted[i].start <= x.start)
    ensures p < |sorted| ==> x.start < sorted[p].start
  {
    p := 0;
    while p < |sorted| && sorted[p].start <= x.start
      invariant p <= |sorted| && (forall i :: 0 <= i < p ==> sorted[i].start <= x.start)
    {
      p := p + 1;
    }
  }

  lemma Nothing(v: seq<Piece>)
    ensures Sorted([]) && Rearranges(v[..0], [], [], [])
  {
  }

  /** Sorts by start. Pieces that start together come in any sequence. */
  method SortByStart(v: seq<Piece>) returns (sorted: seq<Piece>, ghost order: seq<nat>, ghost place: seq<nat>)
    ensures Sorted(sorted) && multiset(sorted) == multiset(v) && Rearranges(v, sorted, order, place)
  {
    hide Sorted, Rearranges;
    sorted, order, place := [], [], [];
    Nothing(v);
    for k := 0 to |v|
      invariant |sorted| == k
      invariant Sorted(sorted) && multiset(sorted) == multiset(v[..k]) && Rearranges(v[..k], sorted, order, place)
    {
      var p := FirstBehind(sorted, v[k]);
      order, place := InsertedRearranges(v[..k], sorted, order, place, v[k], p);
      InsertedIsSorted(sorted, v[k], p);
      assert v[..k + 1] == v[..k] + [v[k]];
      sorted := sorted[..p] + [v[k]] + sorted[p..];
    }
    assert v[..|v|] == v;
  }

  lemma Without(b: seq<Piece>, k: nat)
    requires k < |b|
    ensures multiset(b[..k] + b[k + 1..]) == multiset(b) - multiset{b[k]}
  {
    assert b == b[..k] + [b[k]] + b[k + 1..];
  }

  lemma {:induction false} LengthsOfPrefix(a: seq<Piece>, b: seq<Piece>, n: nat)
    requires n <= |a| && n <= |b| && a[..n] == b[..n]
    ensures Lengths(a, n) == Lengths(b, n)
  {
    if n > 0 {
      assert a[n - 1] == a[..n][n - 1] == b[n - 1];
      assert a[..n - 1] == a[..n][..n - 1] == b[..n - 1];
      LengthsOfPrefix(a, b, n - 1);
    }
  }

  lemma {:induction false} LengthsWithout(b: seq<Piece>, k: nat, n: nat)
    requires k < n <= |b|
    ensures Lengths(b, n) == Lengths(b[..k] + b[k + 1..], n - 1) + b[k].len
  {
    var rest := b[..k] + b[k + 1..];
    if n == k + 1 {
      assert rest[..k] == b[..k];
      LengthsOfPrefix(rest, b, k);
    } else {
      LengthsWithout(b, k, n - 1);
      assert rest[n - 2] == b[n - 1];
    }
  }

  lemma {:induction false} LengthsOfPermutation(a: seq<Piece>, b: seq<Piece>)
    requires multiset(a) == multiset(b)
    ensures |a| == |b| && Lengths(a, |a|) == Lengths(b, |b|)
  {
    assert |multiset(a)| == |multiset(b)|;
    if |a| > 0 {
      var n := |a| - 1;
      assert a[n] in multiset(b);
      var k :| 0 <= k < |b| && b[k] == a[n];
      Without(a, n);
      Without(b, k);
      assert a[..n] + a[n + 1..] == a[..n];
      LengthsOfPermutation(a[..n], b[..k] + b[k + 1..]);
      LengthsOfPrefix(a[..n], a, n);
      LengthsWithout(b, k, |b|);
    }
  }

  // ---- Tiles, once sorted, follow each other -------------------------------

  ghost predicate Follows(a: Piece, b: Piece) {
    a.start + a.len <= b.start
  }

  lemma {:induction false} StartsAtLeast(s: seq<Piece>, n: nat)
    requires forall i :: 0 <= i < |s| - 1 ==> Follows(s[i], s[i + 1])
    requires n < |s|
    ensures s[n].start >= Lengths(s, n)
  {
    if n > 0 {
      StartsAtLeast(s, n - 1);
      assert Follows(s[n - 1], s[n - 1 + 1]);
    }
  }

  lemma {:induction false} StartsAtMost(s: seq<Piece>, total: nat, n: nat)
    requires forall i :: 0 <= i < |s| - 1 ==> Follows(s[i], s[i + 1])
    requires n < |s| && Lengths(s, |s|) == total
    requires forall i :: 0 <= i < |s| ==> s[i].start + s[i].len <= total
    ensures s[n].start <= Lengths(s, n)
    decreases |s| - n
  {
    assert Lengths(s, n + 1) == Lengths(s, n) + s[n].len;
    if n + 1 < |s| {
      StartsAtMost(s, total, n + 1);
      assert Follows(s[n], s[n + 1]);
    }
  }

  lemma {:induction false} LengthsGrow(s: seq<Piece>, i: nat, j: nat)
    requires i <= j <= |s|
    ensures Lengths(s, i) <= Lengths(s, j)
  {
    if i < j {
      LengthsGrow(s, i, j - 1);
    }
  }

  /** As many indexes below `n` as there are, are all of them. */
  lemma {:induction false} AllIndexes(keys: set<u16>, n: u16)
    requires forall i :: i in keys ==> i < n
    ensures |keys| <= n
    ensures |keys| == n ==> forall i: u16 :: i < n ==> i in keys
  {
    if n == 0 {
      assert keys == {};
    } else {
      AllIndexes(keys - {n - 1}, n - 1);
    }
  }

  // ---- A complete message --------------------------------------------------

  ghost predicate PiecesOf(p: Partial, e: Entry, v: seq<Piece>) {
    && Represents(p, e) && GoodEntry(e) && |v| == e.count
    && forall i: nat :: i < |v| ==> i in e.kept && v[i] == p.pieces[i]
  }

  lemma {:induction false} LengthsAreWeight(p: Partial, e: Entry, v: seq<Piece>, n: nat)
    requires PiecesOf(p, e, v) && n <= |v|
    ensures Lengths(v, n) == Weight(e.kept, n)
  {
    if n > 0 {
      LengthsAreWeight(p, e, v, n - 1);
      assert Holds(p.arrived, p.pieces[n - 1], e.kept[n - 1]);
    }
  }

  /** Sorted tiles, with no tie, follow each other. */
  lemma TilesFollow(p: Partial, e: Entry, v: seq<Piece>, s: seq<Piece>, order: seq<nat>, place: seq<nat>, n: nat)
    requires PiecesOf(p, e, v) && Rearranges(v, s, order, place) && Sorted(s)
    requires Tiles(e) && Clear(e) && n + 1 < |s|
    ensures Follows(s[n], s[n + 1])
  {
    hide GoodEntry, Weight;
    var i, j := order[n], order[n + 1];
    assert i != j by { assert place[i] == n && place[j] == n + 1; }
    assert Holds(p.arrived, p.pieces[i], e.kept[i]) && Holds(p.arrived, p.pieces[j], e.kept[j]);
    assert Apart(e.kept[i], e.kept[j]);
    assert e.kept[i].offset == e.kept[j].offset ==> (e.kept[i].data == [] <==> e.kept[j].data == []);
  }

  lemma TilesStartInPlace(p: Partial, e: Entry, v: seq<Piece>, s: seq<Piece>, order: seq<nat>, place: seq<nat>, n: nat)
    requires PiecesOf(p, e, v) && Rearranges(v, s, order, place) && Sorted(s) && multiset(s) == multiset(v)
    requires Tiles(e) && Clear(e) && n < |s|
    ensures s[n].start == Lengths(s, n)
  {
    forall k | 0 <= k < |s| - 1
      ensures Follows(s[k], s[k + 1])
    {
      TilesFollow(p, e, v, s, order, place, k);
    }
    LengthsOfPermutation(s, v);
    LengthsAreWeight(p, e, v, |v|);
    forall k | 0 <= k < |s|
      ensures s[k].start + s[k].len <= e.total
    {
      assert Holds(p.arrived, p.pieces[order[k]], e.kept[order[k]]);
    }
    StartsAtLeast(s, n);
    StartsAtMost(s, e.total, n);
  }

  /** The sorted piece of index `i` is the span kept under it. */
  lemma AtItsPlace(p: Partial, e: Entry, v: seq<Piece>, s: seq<Piece>, order: seq<nat>, place: seq<nat>, i: u16)
    requires PiecesOf(p, e, v) && Rearranges(v, s, order, place) && i in e.kept
    ensures i < |place| && place[i] < |s| && order[place[i]] == i
    ensures Holds(p.arrived, s[place[i]], e.kept[i])
  {
    hide Weight, Holds;
    assert i < e.count;
    assert Holds(p.arrived, p.pieces[i], e.kept[i]);
    assert s[place[i]] == v[order[place[i]]] == p.pieces[i];
  }

  lemma PlacesApart(arrived: bytes, s: seq<Piece>, a: nat, b: nat, x: Span, y: Span)
    requires a < |s| && b < |s| && a != b && Holds(arrived, s[a], x) && Holds(arrived, s[b], y)
    requires s[a].start == Lengths(s, a) && s[b].start == Lengths(s, b)
    ensures Apart(x, y)
  {
    if a < b {
      LengthsGrow(s, a + 1, b);
    } else {
      LengthsGrow(s, b + 1, a);
    }
  }

  /** Pieces that start where the ones in front of them end are apart. */
  lemma InPlaceIsApart(p: Partial, e: Entry, v: seq<Piece>, s: seq<Piece>, order: seq<nat>, place: seq<nat>)
    requires PiecesOf(p, e, v) && Rearranges(v, s, order, place)
    requires forall n :: 0 <= n < |s| ==> s[n].start == Lengths(s, n)
    requires Weight(e.kept, e.count) == e.total
    ensures Tiles(e)
  {
    hide PiecesOf, Rearranges, Weight, Lengths;
    forall i, j | i in e.kept && j in e.kept && i != j
      ensures Apart(e.kept[i], e.kept[j])
    {
      AtItsPlace(p, e, v, s, order, place, i);
      AtItsPlace(p, e, v, s, order, place, j);
      PlacesApart(p.arrived, s, place[i], place[j], e.kept[i], e.kept[j]);
    }
  }

  /** The bytes of `q` are in the payload, at the start it gives. */
  ghost predicate InPayload(arrived: bytes, q: Piece, payload: bytes) {
    && q.start + q.len <= |payload| && q.at + q.len <= |arrived|
    && payload[q.start..q.start + q.len] == arrived[q.at..q.at + q.len]
  }

  /** `payload` is the first `n` pieces of `s`, one behind the other. */
  ghost predicate Gathered(arrived: bytes, s: seq<Piece>, n: nat, payload: bytes) {
    && n <= |s| && |payload| == Lengths(s, n)
    && forall k :: 0 <= k < n ==> s[k].start == Lengths(s, k) && InPayload(arrived, s[k], payload)
  }

  lemma StaysInPayload(arrived: bytes, q: Piece, payload: bytes, more: bytes)
    requires InPayload(arrived, q, payload)
    ensures InPayload(arrived, q, payload + more)
  {
    assert (payload + more)[q.start..q.start + q.len] == payload[q.start..q.start + q.len];
  }

  lemma JoinsPayload(arrived: bytes, q: Piece, payload: bytes)
    requires q.start == |payload| && q.at + q.len <= |arrived|
    ensures InPayload(arrived, q, payload + arrived[q.at..q.at + q.len])
  {
  }

  lemma GatherOne(arrived: bytes, s: seq<Piece>, n: nat, payload: bytes)
    requires Gathered(arrived, s, n, payload) && n < |s|
    requires s[n].start == |payload| && s[n].at + s[n].len <= |arrived|
    ensures Gathered(arrived, s, n + 1, payload + arrived[s[n].at..s[n].at + s[n].len])
  {
    hide InPayload;
    var more := arrived[s[n].at..s[n].at + s[n].len];
    forall k | 0 <= k < n
      ensures InPayload(arrived, s[k], payload + more)
    {
      StaysInPayload(arrived, s[k], payload, more);
    }
    JoinsPayload(arrived, s[n], payload);
  }

  lemma GatheredAssembles(p: Partial, e: Entry, v: seq<Piece>, s: seq<Piece>, order: seq<nat>, place: seq<nat>, payload: bytes)
    requires PiecesOf(p, e, v) && Rearranges(v, s, order, place)
    requires Gathered(p.arrived, s, |s|, payload) && |payload| == e.total
    ensures Assembles(e, payload)
  {
    hide PiecesOf, Rearranges, Weight, Lengths;
    forall i | i in e.kept
      ensures var t := e.kept[i];
        t.offset + |t.data| <= |payload| && payload[t.offset..t.offset + |t.data|] == t.data
    {
      AtItsPlace(p, e, v, s, order, place, i);
      assert InPayload(p.arrived, s[place[i]], payload);
    }
  }

  lemma AllAreThere(p: Partial, e: Entry)
    requires Represents(p, e) && GoodEntry(e) && |e.kept| >= e.count
    ensures forall i: u16 :: i < p.count ==> i in p.pieces && i in e.kept
  {
    AllIndexes(e.kept.Keys, e.count);
  }

  lemma NothingGathered(arrived: bytes, s: seq<Piece>)
    ensures Gathered(arrived, s, 0, []) && Lengths(s, 0) == 0
  {
  }

  lemma GatheredLength(arrived: bytes, s: seq<Piece>, n: nat, payload: bytes)
    requires Gathered(arrived, s, n, payload)
    ensures |payload| == Lengths(s, n)
  {
  }

  lemma GatheredIsInPlace(arrived: bytes, s: seq<Piece>, payload: bytes)
    requires Gathered(arrived, s, |s|, payload)
    ensures forall n :: 0 <= n < |s| ==> s[n].start == Lengths(s, n)
  {
  }

  lemma PlacesHold(p: Partial, e: Entry, v: seq<Piece>, s: seq<Piece>, order: seq<nat>, place: seq<nat>)
    requires PiecesOf(p, e, v) && Rearranges(v, s, order, place)
    ensures |s| == |v| && forall n :: 0 <= n < |s| ==> s[n].at + s[n].len <= |p.arrived|
  {
    forall n | 0 <= n < |s|
      ensures s[n].at + s[n].len <= |p.arrived|
    {
      assert Holds(p.arrived, p.pieces[order[n]], e.kept[order[n]]);
    }
  }

  /** Puts the pieces of a full entry one behind the other, in the sequence of
      their starts. A gap, an overlap or a missing name is an error. */
  method Assemble(p: Partial, sequence: u32, ghost e: Entry) returns (r: Result<Option<Frame>>)
    requires Represents(p, e) && GoodEntry(e) && |e.kept| >= e.count
    ensures Settles(e, sequence, r)
  {
    hide GoodEntry, Weight, Lengths, Gathered, Rearranges, Sorted, Clear;
    if |p.arrived| != p.total {
      return Err(InconsistentFragment(sequence));
    }
    AllAreThere(p, e);
    var v := seq(p.count, i requires 0 <= i < p.count as int => p.pieces[i]);
    var s, order, place := SortByStart(v);
    assert PiecesOf(p, e, v);
    PlacesHold(p, e, v, s, order, place);
    var payload: bytes := [];
    NothingGathered(p.arrived, s);
    for n := 0 to |s|
      invariant Gathered(p.arrived, s, n, payload)
      invariant |payload| == Lengths(s, n)
    {
      if s[n].start != |payload| {
        if Tiles(e) && Clear(e) {
          TilesStartInPlace(p, e, v, s, order, place, n);
        }
        return Err(InconsistentFragment(sequence));
      }
      GatherOne(p.arrived, s, n, payload);
      payload := payload + p.arrived[s[n].at..s[n].at + s[n].len];
      GatheredLength(p.arrived, s, n + 1, payload);
    }
    LengthsOfPermutation(s, v);
    LengthsAreWeight(p, e, v, |v|);
    // The test of the length of the payload that stands here cannot fail.
    assert |payload| == p.total;
    if p.channel.None? {
      return Err(InconsistentFragment(sequence));
    }
    GatheredIsInPlace(p.arrived, s, payload);
    InPlaceIsApart(p, e, v, s, order, place);
    GatheredAssembles(p, e, v, s, order, place, payload);
    return Ok(Some(Frame(p.channel.value, payload)));
  }

  // ---- Where the sort decides ----------------------------------------------

  /** Each piece starts where the ones in front of it end. */
  ghost predicate InPlace(s: seq<Piece>) {
    forall n :: 0 <= n < |s| ==> s[n].start == Lengths(s, n)
  }

  /** `s` with its places `a` and `b` exchanged. */
  function Exchanged<T>(s: seq<T>, a: nat, b: nat): (t: seq<T>)
    requires a < |s| && b < |s|
    ensures |t| == |s|
  {
    s[a := s[b]][b := s[a]]
  }

  lemma ExchangeRearranges(v: seq<Piece>, s: seq<Piece>, order: seq<nat>, place: seq<nat>, a: nat, b: nat)
    returns (place': seq<nat>)
    requires Rearranges(v, s, order, place) && a < b < |s|
    ensures Rearranges(v, Exchanged(s, a, b), Exchanged(order, a, b), place')
  {
    var i, j := order[a], order[b];
    place' := place[i := b][j := a];
  }

  lemma ExchangeSorts(s: seq<Piece>, a: nat, b: nat)
    requires Sorted(s) && a < b < |s| && s[a].start == s[b].start
    ensures Sorted(Exchanged(s, a, b))
  {
    var t := Exchanged(s, a, b);
    assert forall i :: 0 <= i < |s| ==> t[i].start == s[i].start;
  }

  /** A piece with bytes, and one behind it that starts where it does: the
      second is not in its place. */
  lemma TieIsOutOfPlace(s: seq<Piece>, a: nat, b: nat)
    requires a < b < |s| && s[a].start == s[b].start && s[a].len > 0
    ensures !InPlace(s)
  {
    if s[a].start == Lengths(s, a) && s[b].start == Lengths(s, b) {
      LengthsGrow(s, a + 1, b);
    }
  }

  /** Two pieces that start together, one with bytes and one without: one of the
      two ways to sort them is out of place. */
  lemma TieBreaks(v: seq<Piece>, s: seq<Piece>, order: seq<nat>, place: seq<nat>, a: nat, b: nat)
    returns (s': seq<Piece>, order': seq<nat>, place': seq<nat>)
    requires Rearranges(v, s, order, place) && Sorted(s)
    requires a < b < |s| && s[a].start == s[b].start && (s[a].len == 0) != (s[b].len == 0)
    ensures Rearranges(v, s', order', place') && Sorted(s') && !InPlace(s')
  {
    if s[a].len > 0 {
      TieIsOutOfPlace(s, a, b);
      return s, order, place;
    }
    place' := ExchangeRearranges(v, s, order, place, a, b);
    ExchangeSorts(s, a, b);
    s', order' := Exchanged(s, a, b), Exchanged(order, a, b);
    hide Sorted, Rearranges;
    TieIsOutOfPlace(s', a, b);
  }

  /** Tiles are put together whatever the sort does with pieces that start
      together exactly where no piece without bytes starts where one with bytes
      does. Where one does, some sort refuses the message. */
  lemma SortDecidesTies(p: Partial, e: Entry, v: seq<Piece>, s: seq<Piece>, order: seq<nat>, place: seq<nat>)
    returns (s': seq<Piece>, order': seq<nat>, place': seq<nat>)
    requires PiecesOf(p, e, v) && Rearranges(v, s, order, place) && Sorted(s) && multiset(s) == multiset(v) && Tiles(e)
    ensures Clear(e) ==> InPlace(s)
    ensures !Clear(e) ==> Rearranges(v, s', order', place') && Sorted(s') && !InPlace(s')
  {
    s', order', place' := s, order, place;
    hide Sorted, Rearranges, PiecesOf, Tiles, Lengths;
    if Clear(e) {
      forall n | 0 <= n < |s|
        ensures s[n].start == Lengths(s, n)
      {
        TilesStartInPlace(p, e, v, s, order, place, n);
      }
    } else {
      var i, j :| i in e.kept && j in e.kept && e.kept[i].offset == e.kept[j].offset
        && (e.kept[i].data == []) != (e.kept[j].data == []);
      AtItsPlace(p, e, v, s, order, place, i);
      AtItsPlace(p, e, v, s, order, place, j);
      if place[i] < place[j] {
        s', order', place' := TieBreaks(v, s, order, place, place[i], place[j]);
      } else {
        s', order', place' := TieBreaks(v, s, order, place, place[j], place[i]);
      }
    }
  }

  /** A message in two fragments that start together: one holds all its bytes,
      and one holds none. */
  function TiedPart(sequence: u32, channel: str, data: bytes, index: u16): Fragment
    requires |data| <= MAX_MESSAGE_LEN
  {
    if index == 0 then Fragment(sequence, |data|, 0, 0, 2, Some(channel), data)
    else Fragment(sequence, |data|, 0, 1, 2, None, [])
  }

  function TiedEntry(channel: str, data: bytes): Entry
    requires |data| <= MAX_MESSAGE_LEN
  {
    Entry(Some(channel), |data|, 2, map[0 := Span(0, data), 1 := Span(0, [])], 2)
  }

  lemma FirstIsStored<K>(source: K, sequence: u32, channel: str, data: bytes)
    requires 2 <= |data| <= MAX_MESSAGE_LEN
    ensures Feed(Empty(), source, TiedPart(sequence, channel, data, 0)) ==
      (View(map[Key(source, sequence) := Entry(Some(channel), |data|, 2, map[0 := Span(0, data)], 1)], 1, 0), Waiting)
  {
    MakeSpaceStop(Empty<K>().(clock := 1), Key(source, sequence), |data|);
    EmptyWeighsNothing(2);
  }

  lemma SecondCompletes<K>(source: K, sequence: u32, channel: str, data: bytes, v: View<K>)
    requires 2 <= |data| <= MAX_MESSAGE_LEN
    requires v == View(map[Key(source, sequence) := Entry(Some(channel), |data|, 2, map[0 := Span(0, data)], 1)], 1, 0)
    ensures Feed(v, source, TiedPart(sequence, channel, data, 1)).1 == Complete(TiedEntry(channel, data))
  {
    var key := Key(source, sequence);
    assert !exists k :: k in v.entries && IsOldest(v.entries, key, k);
    MakeSpaceStop(v.(clock := 2), key, 0);
    assert Weight(v.entries[key].kept, 2) == |data| by {
      assert Weight(v.entries[key].kept, 1) == |data|;
    }
  }

  lemma TiedEntryTiles(channel: str, data: bytes)
    requires 2 <= |data| <= MAX_MESSAGE_LEN
    ensures var e := TiedEntry(channel, data); GoodEntry(e) && Tiles(e) && !Clear(e)
  {
    var e := TiedEntry(channel, data);
    assert Weight(e.kept, 1) == |data| && Weight(e.kept, 2) == |data|;
    assert e.kept[0].offset == e.kept[1].offset;
  }

  lemma TiedSorts(v: seq<Piece>, n: u32) returns (s: seq<Piece>, s': seq<Piece>)
    requires v == [Piece(0, 0, n), Piece(0, n, 0)] && n > 0
    ensures Sorted(s) && Rearranges(v, s, [1, 0], [1, 0]) && InPlace(s)
    ensures Sorted(s') && Rearranges(v, s', [0, 1], [0, 1]) && !InPlace(s')
  {
    s, s' := [v[1], v[0]], v;
    assert Lengths(s, 1) == 0;
    assert Lengths(s', 1) == n && s'[1].start == 0;
  }

  lemma TiedPieces(channel: str, data: bytes) returns (p: Partial, v: seq<Piece>)
    requires 2 <= |data| <= MAX_MESSAGE_LEN && GoodEntry(TiedEntry(channel, data))
    ensures PiecesOf(p, TiedEntry(channel, data), v) && v == [Piece(0, 0, |data|), Piece(0, |data|, 0)]
  {
    p := Partial(Some(channel), |data|, 2, data, map[0 := Piece(0, 0, |data|), 1 := Piece(0, |data|, 0)], 2);
    v := [p.pieces[0], p.pieces[1]];
    var e := TiedEntry(channel, data);
    assert Weight(e.kept, 1) == |data| && Weight(e.kept, 2) == |data|;
  }

  /** Such a tie is one a sender can make: both fragments are stored, and the
      message they complete comes out with one sort and is refused with another,
      and each of the two sorts by the start. */
  lemma TieIsReached<K>(source: K, sequence: u32, channel: str, data: bytes)
    returns (p: Partial, v: seq<Piece>, s: seq<Piece>, s': seq<Piece>)
    requires 2 <= |data| <= MAX_MESSAGE_LEN
    ensures var first := Feed(Empty(), source, TiedPart(sequence, channel, data, 0));
      first.1.Waiting? && Feed(first.0, source, TiedPart(sequence, channel, data, 1)).1 == Complete(TiedEntry(channel, data))
    ensures Tiles(TiedEntry(channel, data)) && !Clear(TiedEntry(channel, data))
    ensures PiecesOf(p, TiedEntry(channel, data), v)
    ensures Sorted(s) && Rearranges(v, s, [1, 0], [1, 0]) && InPlace(s)
    ensures Sorted(s') && Rearranges(v, s', [0, 1], [0, 1]) && !InPlace(s')
  {
    FirstIsStored(source, sequence, channel, data);
    SecondCompletes(source, sequence, channel, data, Feed(Empty(), source, TiedPart(sequence, channel, data, 0)).0);
    TiedEntryTiles(channel, data);
    hide *;
    p, v := TiedPieces(channel, data);
    s, s' := TiedSorts(v, |data|);
  }

  // ---- The table, the index by age and the account -------------------------

  ghost predicate Agrees<K>(partial: map<Key<K>, Partial>, entries: map<Key<K>, Entry>) {
    && partial.Keys == entries.Keys
    && forall k :: k in partial ==> Represents(partial[k], entries[k])
  }

  /** `byAge` and `partial` are each other's inverse through `touched`, but for
      `key`: it stands under `now`, wherever its own entry says it was. */
  ghost predicate IndexedBut<K>(partial: map<Key<K>, Partial>, byAge: map<nat, Key<K>>, key: Key<K>, now: nat) {
    && now in byAge && byAge[now] == key
    && (forall t :: t in byAge && t != now ==>
        byAge[t] != key && byAge[t] in partial && partial[byAge[t]].touched == t)
    && (forall k :: k in partial && k != key ==>
        partial[k].touched != now && partial[k].touched in byAge && byAge[partial[k].touched] == k)
  }

  ghost predicate Indexed<K>(partial: map<Key<K>, Partial>, byAge: map<nat, Key<K>>) {
    && (forall t :: t in byAge ==> byAge[t] in partial && partial[byAge[t]].touched == t)
    && (forall k :: k in partial ==> partial[k].touched in byAge && byAge[partial[k].touched] == k)
  }

  lemma {:induction false} FirstOf(ages: set<nat>) returns (first: nat)
    requires ages != {}
    ensures first in ages && forall t :: t in ages ==> first <= t
  {
    first :| first in ages;
    var rest := ages - {first};
    assert forall t :: t in ages ==> t == first || t in rest;
    if rest != {} {
      var other := FirstOf(rest);
      if other < first {
        first := other;
      }
    }
  }

  lemma OldestIsUnique<K>(v: View<K>, keep: Key<K>, incoming: nat, k: Key<K>)
    requires GoodView(v) && IsOldest(v.entries, keep, k) && OverBudget(v.entries, incoming)
    ensures |Drop(v, k).entries| == |v.entries| - 1
    ensures GoodView(Drop(v, k))
    ensures MakeSpace(v, keep, incoming) == MakeSpace(Drop(v, k), keep, incoming)
  {
    hide GoodEntry, MakeSpace, OverBudget;
    var o := MakeSpaceStep(v, keep, incoming);
    assert o == k;
  }

  lemma RemoveAgrees<K>(partial: map<Key<K>, Partial>, entries: map<Key<K>, Entry>, k: Key<K>)
    requires Agrees(partial, entries) && k in partial
    ensures Agrees(partial - {k}, entries - {k})
    ensures |partial[k].arrived| + |partial[k].pieces| * PIECE_COST == EntryCost(entries[k])
    ensures TotalCost(entries) == EntryCost(entries[k]) + TotalCost(entries - {k})
    ensures |partial| == |entries|
  {
    assert Represents(partial[k], entries[k]);
    TotalCostWithout(entries, k);
    assert |partial.Keys| == |entries.Keys|;
    assert |partial[k].pieces.Keys| == |entries[k].kept.Keys|;
  }

  lemma SameCount<K>(partial: map<Key<K>, Partial>, entries: map<Key<K>, Entry>)
    requires Agrees(partial, entries)
    ensures |partial| == |entries|
  {
    assert |partial.Keys| == |entries.Keys|;
  }

  lemma FoundIsOldest<K>(partial: map<Key<K>, Partial>, byAge: map<nat, Key<K>>, entries: map<Key<K>, Entry>,
                         keep: Key<K>, now: nat, t: nat)
    requires Agrees(partial, entries) && IndexedBut(partial, byAge, keep, now)
    requires t in byAge && byAge[t] != keep
    requires forall s :: s in byAge && byAge[s] != keep ==> t <= s
    ensures IsOldest(entries, keep, byAge[t]) && entries[byAge[t]].touched == t
    ensures IndexedBut(partial - {byAge[t]}, byAge - {t}, keep, now)
  {
    hide Weight;
    forall k | k in entries
      ensures partial[k].touched == entries[k].touched
    {
      assert Represents(partial[k], entries[k]);
    }
  }

  lemma AfterFeed<K>(partial: map<Key<K>, Partial>, byAge: map<nat, Key<K>>, key: Key<K>, now: nat, p: Partial)
    requires IndexedBut(partial, byAge, key, now) && p.touched == now
    ensures Indexed(partial[key := p], byAge)
    ensures Indexed(partial[key := p] - {key}, byAge - {now})
  {
  }

  function Saturating(a: nat, b: nat): nat {
    if a > b then a - b else 0
  }

  lemma NothingElse<K>(partial: map<Key<K>, Partial>, byAge: map<nat, Key<K>>, entries: map<Key<K>, Entry>,
                       keep: Key<K>, now: nat)
    requires Agrees(partial, entries) && IndexedBut(partial, byAge, keep, now)
    requires forall t :: t in byAge ==> byAge[t] == keep
    ensures forall k :: k in entries ==> !IsOldest(entries, keep, k)
  {
  }

  lemma OldestIsThere<K>(entries: map<Key<K>, Entry>, partial: map<Key<K>, Partial>, keep: Key<K>, k: Key<K>)
    requires Agrees(partial, entries) && IsOldest(entries, keep, k)
    ensures k in partial && partial[k].touched == entries[k].touched
  {
    assert Represents(partial[k], entries[k]);
  }

  lemma TouchedBefore<K>(partial: map<Key<K>, Partial>, v: View<K>)
    requires Agrees(partial, v.entries) && GoodView(v)
    ensures forall k :: k in partial ==> partial[k].touched <= v.clock
  {
    hide Weight, GoodEntry;
    forall k | k in partial
      ensures partial[k].touched <= v.clock
    {
      assert Represents(partial[k], v.entries[k]);
    }
  }

  lemma RefreshEntries<K>(partial: map<Key<K>, Partial>, byAge: map<nat, Key<K>>, key: Key<K>, now: nat)
    requires Indexed(partial, byAge) && forall k :: k in partial ==> partial[k].touched < now
    ensures var rest := if key in partial then byAge - {partial[key].touched} else byAge;
      IndexedBut(partial, rest[now := key], key, now)
  {
  }

  lemma RefreshIndex<K>(partial: map<Key<K>, Partial>, byAge: map<nat, Key<K>>, v: View<K>, key: Key<K>, now: nat)
    requires Agrees(partial, v.entries) && GoodView(v) && Indexed(partial, byAge) && now == v.clock + 1
    ensures var rest := if key in partial then byAge - {partial[key].touched} else byAge;
      IndexedBut(partial, rest[now := key], key, now)
    ensures GoodView(v.(clock := now))
  {
    TouchedBefore(partial, v);
    hide Agrees, GoodEntry;
    assert GoodView(v.(clock := now));
    hide GoodView;
    RefreshEntries(partial, byAge, key, now);
  }

  lemma SameShape<K>(partial: map<Key<K>, Partial>, v: View<K>, key: Key<K>)
    requires Agrees(partial, v.entries)
    ensures key in partial <==> key in v.entries
    ensures key in partial ==> partial[key].total == v.entries[key].total && partial[key].count == v.entries[key].count
  {
    hide Weight;
    if key in partial {
      assert Represents(partial[key], v.entries[key]);
    }
  }

  /** The entry a fragment finds is represented, whether it is there or new. */
  lemma EntryIsThere<K>(partial: map<Key<K>, Partial>, v: View<K>, key: Key<K>, f: Fragment)
    requires Agrees(partial, v.entries) && GoodView(v)
    requires ShapeError(f).None? && !Disagrees(v, key, f)
    ensures var e := Touch(Lookup(v.entries, key), f, v.clock);
      var p := if key in partial then partial[key] else Partial(None, f.total, f.count, [], map[], v.clock);
      && Represents(p.(touched := v.clock, channel := if p.channel.None? then f.channel else p.channel), e)
      && GoodEntry(e) && e.touched == v.clock && e.total == f.total && e.count == f.count && f.index < e.count
      && EntryCost(e) == CostAt(v.entries, key)
  {
    TouchKeeps(v, key, f, v.clock);
    TouchCosts(v, key, f, v.clock);
    TouchShape(v, key, f, v.clock);
    EmptyWeighsNothing(f.count);
    if key in partial {
      assert Represents(partial[key], v.entries[key]);
    }
  }

  lemma EntryAgrees<K>(partial: map<Key<K>, Partial>, v: View<K>, key: Key<K>)
    requires Agrees(partial, v.entries) && GoodView(v) && key in partial
    ensures key in v.entries && Represents(partial[key], v.entries[key]) && GoodEntry(v.entries[key])
    ensures partial[key].touched == v.entries[key].touched
  {
  }

  lemma SizesAgree(p: Partial, e: Entry)
    requires Represents(p, e)
    ensures p.total == e.total && p.count == e.count && p.pieces.Keys == e.kept.Keys
    ensures |p.pieces| == |e.kept| && |p.arrived| == Weight(e.kept, e.count)
  {
    assert |p.pieces.Keys| == |e.kept.Keys|;
  }

  lemma OverflowsHere(p: Partial, e: Entry, f: Fragment)
    requires Represents(p, e) && f.index !in p.pieces && |p.arrived| + |f.payload| > p.total
    ensures Overflows(e, f)
  {
  }

  lemma KeptAlready(e: Entry, f: Fragment)
    requires f.index in e.kept
    ensures Kept(e, f) == e && !Overflows(e, f)
  {
  }

  lemma StillHolds(arrived: bytes, more: bytes, q: Piece, s: Span)
    requires Holds(arrived, q, s)
    ensures Holds(arrived + more, q, s)
  {
    assert (arrived + more)[q.at..q.at + q.len] == arrived[q.at..q.at + q.len];
  }

  lemma NewHolds(arrived: bytes, f: Fragment)
    requires |arrived| < 0x1_0000_0000 && |f.payload| < 0x1_0000_0000
    ensures Holds(arrived + f.payload, Piece(f.offset, |arrived|, |f.payload|), Span(f.offset, f.payload))
  {
  }

  /** A new piece stands behind the bytes that came before it. */
  lemma KeepsPiece(p: Partial, e: Entry, f: Fragment)
    requires Represents(p, e) && GoodEntry(e) && f.index !in p.pieces && f.index < e.count
    requires |p.arrived| + |f.payload| <= p.total
    requires ShapeError(f).None? && e.total == f.total && e.count == f.count
    ensures !Overflows(e, f)
    ensures Represents(p.(pieces := p.pieces[f.index := Piece(f.offset, |p.arrived|, |f.payload|)],
                          arrived := p.arrived + f.payload), Kept(e, f))
    ensures GoodEntry(Kept(e, f)) && Kept(e, f).touched == e.touched
    ensures EntryCost(Kept(e, f)) == EntryCost(e) + |f.payload| + PIECE_COST
  {
    hide Holds;
    WeightPut(e.kept, f.index, Span(f.offset, f.payload), e.count);
    var arrived := p.arrived + f.payload;
    forall i | i in p.pieces
      ensures Holds(arrived, p.pieces[i], e.kept[i])
    {
      StillHolds(p.arrived, f.payload, p.pieces[i], e.kept[i]);
    }
    NewHolds(p.arrived, f);
  }

  lemma PutAgrees<K>(partial: map<Key<K>, Partial>, entries: map<Key<K>, Entry>, key: Key<K>, p: Partial, e: Entry)
    requires Agrees(partial, entries) && Represents(p, e)
    ensures Agrees(partial[key := p], entries[key := e])
  {
    hide Represents;
  }

  lemma PutIsGood<K>(v: View<K>, key: Key<K>, e: Entry)
    requires GoodView(v) && GoodEntry(e) && e.touched <= v.clock
    requires forall k :: k in v.entries && k != key ==> v.entries[k].touched != e.touched
    ensures GoodView(v.(entries := v.entries[key := e]))
  {
    hide GoodEntry;
  }

  lemma SameTouch(p: Partial, e: Entry)
    requires Represents(p, e)
    ensures p.touched == e.touched
  {
  }

  lemma NobodyElse<K>(partial: map<Key<K>, Partial>, byAge: map<nat, Key<K>>, v: View<K>, key: Key<K>)
    requires Agrees(partial, v.entries) && IndexedBut(partial, byAge, key, v.clock)
    ensures forall k :: k in v.entries && k != key ==> v.entries[k].touched != v.clock
  {
    hide Weight;
    forall k | k in v.entries && k != key
      ensures v.entries[k].touched != v.clock
    {
      assert Represents(partial[k], v.entries[k]);
    }
  }

  /** The account behind the change of the entry of `key`. */
  lemma AccountPut<K>(partial: map<Key<K>, Partial>, byAge: map<nat, Key<K>>, v: View<K>, key: Key<K>, p: Partial, e: Entry)
    requires Agrees(partial, v.entries) && GoodView(v) && IndexedBut(partial, byAge, key, v.clock)
    requires Represents(p, e) && GoodEntry(e) && e.touched == v.clock
    ensures Agrees(partial[key := p], v.entries[key := e])
    ensures GoodView(v.(entries := v.entries[key := e]))
    ensures TotalCost(v.entries[key := e]) + CostAt(v.entries, key) == TotalCost(v.entries) + EntryCost(e)
    ensures p.touched == v.clock
  {
    TotalCostPut(v.entries, key, e);
    CostSplits(v.entries, key);
    hide *;
    PutAgrees(partial, v.entries, key, p, e);
    NobodyElse(partial, byAge, v, key);
    SameTouch(p, e);
    PutIsGood(v, key, e);
  }

  lemma OthersDiffer<K>(v: View<K>, key: Key<K>)
    requires GoodView(v) && key in v.entries
    ensures v.entries[key].touched <= v.clock
    ensures forall k :: k in v.entries && k != key ==> v.entries[k].touched != v.entries[key].touched
  {
    hide GoodEntry;
  }

  lemma IndexedAgain<K>(partial: map<Key<K>, Partial>, byAge: map<nat, Key<K>>, key: Key<K>, p: Partial)
    requires Indexed(partial, byAge) && key in partial && partial[key].touched == p.touched
    ensures Indexed(partial[key := p], byAge)
  {
  }

  lemma PutAgain<K>(partial: map<Key<K>, Partial>, byAge: map<nat, Key<K>>, v: View<K>, key: Key<K>, p: Partial, e: Entry)
    requires Agrees(partial, v.entries) && GoodView(v) && Indexed(partial, byAge) && key in partial && key in v.entries
    requires Represents(p, e) && GoodEntry(e)
    requires partial[key].touched == p.touched && v.entries[key].touched == e.touched
    ensures Agrees(partial[key := p], v.entries[key := e])
    ensures GoodView(v.(entries := v.entries[key := e]))
    ensures Indexed(partial[key := p], byAge)
    ensures TotalCost(v.entries[key := e]) + EntryCost(v.entries[key]) == TotalCost(v.entries) + EntryCost(e)
  {
    TotalCostPut(v.entries, key, e);
    TotalCostWithout(v.entries, key);
    IndexedAgain(partial, byAge, key, p);
    hide *;
    PutAgrees(partial, v.entries, key, p, e);
    OthersDiffer(v, key);
    PutIsGood(v, key, e);
  }

  lemma RemoveIsGood<K>(v: View<K>, partial: map<Key<K>, Partial>, byAge: map<nat, Key<K>>, key: Key<K>)
    requires GoodView(v) && Indexed(partial, byAge) && key in partial
    ensures GoodView(v.(entries := v.entries - {key}))
    ensures Indexed(partial - {key}, byAge - {partial[key].touched})
  {
    hide GoodEntry;
  }

  /** What is left in agreement behind a removal. */
  lemma AccountWithout<K>(partial: map<Key<K>, Partial>, byAge: map<nat, Key<K>>, v: View<K>, key: Key<K>)
    requires Agrees(partial, v.entries) && GoodView(v) && Indexed(partial, byAge) && key in partial
    ensures Agrees(partial - {key}, v.entries - {key})
    ensures GoodView(v.(entries := v.entries - {key}))
    ensures Indexed(partial - {key}, byAge - {partial[key].touched})
    ensures Saturating(TotalCost(v.entries), |partial[key].arrived| + |partial[key].pieces| * PIECE_COST)
         == TotalCost(v.entries - {key})
  {
    hide Agrees, Indexed, GoodView, EntryCost, TotalCost;
    RemoveAgrees(partial, v.entries, key);
    RemoveIsGood(v, partial, byAge, key);
  }

  class Reassembler<K(==)> {
    var partial: map<Key<K>, Partial>
    /** The keys by `touched`: the first is the one to drop. */
    var byAge: map<nat, Key<K>>
    var held: nat
    var clock: nat
    var evicted: nat
    ghost var view: View<K>

    ghost predicate Accounted()
      reads this
    {
      && Agrees(partial, view.entries) && GoodView(view)
      && held == TotalCost(view.entries) && clock == view.clock && evicted == view.evicted
    }

    ghost predicate Valid()
      reads this
    {
      Accounted() && Indexed(partial, byAge)
    }

    constructor ()
      ensures Valid() && view == Empty()
    {
      partial, byAge, held, clock, evicted := map[], map[], 0, 0, 0;
      view := Empty();
    }

    method Remove(key: Key<K>) returns (p: Option<Partial>)
      modifies `partial, `byAge, `held
      ensures p == Lookup(old(partial), key)
      ensures partial == old(partial) - {key}
      ensures p.None? ==> byAge == old(byAge) && held == old(held)
      ensures p.Some? ==>
        && byAge == old(byAge) - {p.value.touched}
        && held == Saturating(old(held), |p.value.arrived| + |p.value.pieces| * PIECE_COST)
    {
      if key !in partial {
        assert partial == partial - {key};
        return None;
      }
      var found := partial[key];
      partial := partial - {key};
      byAge := byAge - {found.touched};
      held := Saturating(held, |found.arrived| + |found.pieces| * PIECE_COST);
      return Some(found);
    }

    /** The first key by age that is not `keep`. */
    method FirstOther(keep: Key<K>) returns (first: Option<nat>)
      ensures first.None? ==> forall t :: t in byAge ==> byAge[t] == keep
      ensures first.Some? ==>
        && first.value in byAge && byAge[first.value] != keep
        && forall t :: t in byAge && byAge[t] != keep ==> first.value <= t
    {
      var others := set t | t in byAge && byAge[t] != keep;
      if others == {} {
        assert forall t :: t in byAge && byAge[t] != keep ==> t in others;
        return None;
      }
      ghost var _ := FirstOf(others);
      var t :| t in others && forall s :: s in others ==> t <= s;
      assert forall s :: s in byAge && byAge[s] != keep ==> s in others;
      return Some(t);
    }

    /** Drops the message that waited longest, until the budget holds. Never
        the one being fed. */
    method MakeSpace(keep: Key<K>, incoming: nat, ghost now: nat)
      requires Accounted() && IndexedBut(partial, byAge, keep, now)
      modifies this
      ensures Accounted() && IndexedBut(partial, byAge, keep, now)
      ensures view == Reassembly.MakeSpace(old(view), keep, incoming)
    {
      hide GoodView, Agrees, IndexedBut, Reassembly.MakeSpace, IsOldest, EntryCost;
      SameCount(partial, view.entries);
      while |partial| >= MAX_FRAGMENT_BUFFERS || (held + incoming > MAX_FRAGMENT_BYTES && partial != map[])
        invariant Accounted() && IndexedBut(partial, byAge, keep, now)
        invariant |partial| == |view.entries|
        invariant Reassembly.MakeSpace(view, keep, incoming) == Reassembly.MakeSpace(old(view), keep, incoming)
        decreases |partial|
      {
        assert OverBudget(view.entries, incoming);
        var first := FirstOther(keep);
        if first.None? {
          NothingElse(partial, byAge, view.entries, keep, now);
          break;
        }
        var oldest := byAge[first.value];
        FoundIsOldest(partial, byAge, view.entries, keep, now, first.value);
        OldestIsThere(view.entries, partial, keep, oldest);
        OldestIsUnique(view, keep, incoming, oldest);
        RemoveAgrees(partial, view.entries, oldest);
        var _ := Remove(oldest);
        evicted := evicted + 1;
        view := Drop(view, oldest);
        SameCount(partial, view.entries);
      }
      assert !MustDrop(view, keep, incoming);
      MakeSpaceStop(view, keep, incoming);
    }

    /** Marks the key as the one touched last. */
    method Refresh(key: Key<K>)
      requires Valid()
      modifies this
      ensures Accounted() && IndexedBut(partial, byAge, key, clock)
      ensures view == old(view).(clock := old(view).clock + 1)
    {
      hide Agrees, Weight, GoodEntry;
      clock := clock + 1;
      RefreshIndex(partial, byAge, view, key, clock);
      if key in partial {
        byAge := byAge - {partial[key].touched};
      }
      byAge := byAge[clock := key];
      view := view.(clock := clock);
    }

    /** The entry of the key: its own or a new one, with the first name given. */
    method Open(key: Key<K>, f: Fragment)
      requires Accounted() && IndexedBut(partial, byAge, key, clock)
      requires ShapeError(f).None? && !Disagrees(view, key, f)
      modifies this
      ensures Valid() && key in partial
      ensures var e := Touch(Lookup(old(view).entries, key), f, old(view).clock);
        && view == old(view).(entries := old(view).entries[key := e])
        && GoodEntry(e) && e.total == f.total && e.count == f.count && f.index < e.count
    {
      hide Agrees, Indexed, IndexedBut, GoodView, EntryCost, Weight, Represents, ShapeError, Disagrees, GoodEntry;
      hide Touch, Lookup;
      ghost var e := Touch(Lookup(view.entries, key), f, view.clock);
      EntryIsThere(partial, view, key, f);
      var entry := if key in partial then partial[key] else Partial(None, f.total, f.count, [], map[], clock);
      entry := entry.(touched := clock, channel := if entry.channel.None? then f.channel else entry.channel);
      AccountPut(partial, byAge, view, key, entry, e);
      AfterFeed(partial, byAge, key, clock, entry);
      partial := partial[key := entry];
      view := view.(entries := view.entries[key := e]);
    }

    /** Puts the fragment in its entry, where no fragment of its index is there
        and there is room for it in the length of the message. */
    method Add(key: Key<K>, f: Fragment, ghost e: Entry) returns (fits: bool)
      requires Valid() && key in partial && key in view.entries && view.entries[key] == e
      requires ShapeError(f).None? && e.total == f.total && e.count == f.count && f.index < e.count
      modifies this
      ensures Valid() && key in partial
      ensures fits <==> !Overflows(e, f)
      ensures view == old(view).(entries := old(view).entries[key := if fits then Kept(e, f) else e])
    {
      hide Agrees, Indexed, GoodView, EntryCost, Weight, Kept, Overflows, Represents, ShapeError, GoodEntry;
      EntryAgrees(partial, view, key);
      var entry := partial[key];
      SizesAgree(entry, e);
      if f.index in entry.pieces {
        KeptAlready(e, f);
        assert view.entries[key := e] == view.entries;
        return true;
      }
      if |entry.arrived| + |f.payload| > entry.total {
        OverflowsHere(entry, e, f);
        assert view.entries[key := e] == view.entries;
        return false;
      }
      KeepsPiece(entry, e, f);
      entry := entry.(
        pieces := entry.pieces[f.index := Piece(f.offset, |entry.arrived|, |f.payload|)],
        arrived := entry.arrived + f.payload);
      PutAgain(partial, byAge, view, key, entry, Kept(e, f));
      partial := partial[key := entry];
      held := held + |f.payload| + PIECE_COST;
      view := view.(entries := view.entries[key := Kept(e, f)]);
      return true;
    }

    /** Takes the entry out where every index is there, and gives its message. */
    method Finish(key: Key<K>, ghost e: Entry) returns (r: Result<Option<Frame>>)
      requires Valid() && key in partial && key in view.entries && view.entries[key] == e
      modifies this
      ensures Valid()
      ensures view == Settle(old(view), key, e).0 && Answers(Settle(old(view), key, e).1, key.sequence, r)
    {
      hide Agrees, Indexed, GoodView, EntryCost, Weight, Represents, GoodEntry, Settles;
      EntryAgrees(partial, view, key);
      SizesAgree(partial[key], e);
      if |partial[key].pieces| < partial[key].count as int {
        assert view.entries[key := e] == view.entries;
        return Ok(None);
      }
      AccountWithout(partial, byAge, view, key);
      var p := Remove(key);
      view := view.(entries := view.entries - {key});
      r := Assemble(p.value, key.sequence, e);
    }

    /** The entry of the key, with this fragment in it where it is the first of
        its index, and the message where it is the last to come. */
    method Keep(key: Key<K>, f: Fragment) returns (r: Result<Option<Frame>>)
      requires Accounted() && IndexedBut(partial, byAge, key, clock)
      requires ShapeError(f).None? && !Disagrees(view, key, f)
      requires key.sequence == f.sequence
      modifies this
      ensures Valid()
      ensures var stored := Store(old(view), key, Touch(Lookup(old(view).entries, key), f, old(view).clock), f);
        view == stored.0 && Answers(stored.1, f.sequence, r)
    {
      hide Agrees, Indexed, IndexedBut, GoodView, EntryCost, Weight, Kept, Overflows, Represents, ShapeError;
      hide Disagrees, GoodEntry, Settles, Touch;
      ghost var e := Touch(Lookup(view.entries, key), f, view.clock);
      Open(key, f);
      var fits := Add(key, f, e);
      assert view.entries == old(view).entries[key := if fits then Kept(e, f) else e];
      if !fits {
        return Err(InconsistentFragment(f.sequence));
      }
      r := Finish(key, Kept(e, f));
      assert old(view).entries[key := Kept(e, f)] - {key} == old(view).entries - {key};
    }

    /** Gives up the message of this key, where a fragment does not have its
        shape. */
    method Discard(key: Key<K>)
      requires Valid() && key in partial
      modifies this
      ensures Valid() && view == old(view).(entries := old(view).entries - {key})
    {
      hide Agrees, Indexed, GoodView, EntryCost, TotalCost, Saturating;
      AccountWithout(partial, byAge, view, key);
      var _ := Remove(key);
      view := view.(entries := view.entries - {key});
    }

    /** The message, where the fragment completes it. */
    method Feed(source: K, f: Fragment) returns (r: Result<Option<Frame>>)
      requires Valid()
      modifies this
      ensures Valid()
      ensures view == Reassembly.Feed(old(view), source, f).0
      ensures Answers(Reassembly.Feed(old(view), source, f).1, f.sequence, r)
    {
      hide Agrees, Indexed, IndexedBut, GoodView, Store, Touch, Lookup, Reassembly.MakeSpace, ShapeError, TotalCost;
      hide Settles;
      var key := Key(source, f.sequence);
      var wrong := ShapeError(f);
      if wrong.Some? {
        return Err(wrong.value);
      }
      SameShape(partial, view, key);
      if key in partial && (partial[key].total != f.total || partial[key].count != f.count) {
        Discard(key);
        return Err(InconsistentFragment(f.sequence));
      }
      ghost var before := view;
      assert !Disagrees(before, key, f);
      Refresh(key);
      ghost var touched := view;
      MakeSpace(key, |f.payload|, clock);
      MakeSpaceKeeps(touched, key, |f.payload|);
      assert !Disagrees(view, key, f);
      r := Keep(key, f);
    }
  }
}
