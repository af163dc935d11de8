/** A stream of frames, decoded as its bytes come. */
module Streams {
  import opened Bytes
  import opened Wire

  type Decoder<!T> = bytes -> Result<Decoded<T>>

  /** What a stream decoder owes its caller, with `more` bytes behind `data`. */
  ghost predicate StableAt<T>(d: Decoder<T>, limit: nat, data: bytes, more: bytes) {
    match d(data)
    case Err(e) => d(data + more) == Err(e)
    case Ok(Item(x, n)) => 0 < n <= |data| && d(data + more) == Ok(Item(x, n))
    case Ok(Skip(n)) => 0 < n <= |data| && d(data + more) == Ok(Skip(n))
    case Ok(Need(n)) => |data| < n <= limit && (|data + more| < n ==> d(data + more) == Ok(Need(n)))
  }

  /** An answer that is not a need is not changed by the bytes that come, and a
      need is above what is there, holds until it is met, and is within `limit`. */
  ghost predicate Stable<T(!new)>(d: Decoder<T>, limit: nat) {
    forall data, more :: StableAt(d, limit, data, more)
  }

  datatype Found<+T> = Whole(item: T) | Skipped

  datatype End = More(rest: bytes) | Bad(error: WireError)

  datatype Parsed<+T> = Parsed(found: seq<Found<T>>, end: End)

  function Behind<T>(found: seq<Found<T>>, p: Parsed<T>): Parsed<T> {
    Parsed(found + p.found, p.end)
  }

  /** All the frames of a stream that is there whole. */
  ghost function Parse<T>(d: Decoder<T>, data: bytes): Parsed<T>
    decreases |data|
  {
    match d(data)
    case Err(e) => Parsed([], Bad(e))
    case Ok(Need(_)) => Parsed([], More(data))
    case Ok(Item(x, n)) => if 0 < n <= |data| then Behind([Whole(x)], Parse(d, data[n..])) else Parsed([], More(data))
    case Ok(Skip(n)) => if 0 < n <= |data| then Behind([Skipped], Parse(d, data[n..])) else Parsed([], More(data))
  }

  lemma BehindBehind<T>(a: seq<Found<T>>, b: seq<Found<T>>, p: Parsed<T>)
    ensures Behind(a, Behind(b, p)) == Behind(a + b, p)
  {
    assert a + (b + p.found) == (a + b) + p.found;
  }

  /** With `more` behind `data`, the parse goes on from where it stopped. */
  ghost predicate GoesOn<T>(d: Decoder<T>, data: bytes, more: bytes) {
    match Parse(d, data).end
    case Bad(_) => Parse(d, data + more) == Parse(d, data)
    case More(rest) => Parse(d, data + more) == Behind(Parse(d, data).found, Parse(d, rest + more))
  }

  lemma StepGoesOn<T>(d: Decoder<T>, data: bytes, more: bytes, one: seq<Found<T>>, n: nat)
    requires 0 < n <= |data|
    requires Parse(d, data) == Behind(one, Parse(d, data[n..]))
    requires Parse(d, data + more) == Behind(one, Parse(d, (data + more)[n..]))
    requires GoesOn(d, data[n..], more)
    ensures GoesOn(d, data, more)
  {
    hide Parse;
    assert (data + more)[n..] == data[n..] + more;
    if Parse(d, data[n..]).end.More? {
      BehindBehind(one, Parse(d, data[n..]).found, Parse(d, Parse(d, data[n..]).end.rest + more));
    }
  }

  lemma {:induction false} ParseGoesOn<T(!new)>(d: Decoder<T>, limit: nat, data: bytes, more: bytes)
    requires Stable(d, limit)
    ensures GoesOn(d, data, more)
    decreases |data|
  {
    assert StableAt(d, limit, data, more);
    match d(data)
    case Err(_) =>
    case Ok(Need(_)) =>
      assert Behind([], Parse(d, data + more)) == Parse(d, data + more);
    case Ok(Item(x, n)) =>
      ParseGoesOn(d, limit, data[n..], more);
      StepGoesOn(d, data, more, [Whole(x)], n);
    case Ok(Skip(n)) =>
      ParseGoesOn(d, limit, data[n..], more);
      StepGoesOn(d, data, more, [Skipped], n);
  }

  /** What a reader finds that decodes all it can behind each read, and keeps
      what is left over for the next. */
  ghost function ParseReads<T>(d: Decoder<T>, kept: bytes, chunks: seq<bytes>): Parsed<T>
    decreases |chunks|
  {
    var first := Parse(d, kept);
    if chunks == [] || first.end.Bad? then first
    else Behind(first.found, ParseReads(d, first.end.rest + chunks[0], chunks[1..]))
  }

  /** The split of a stream into reads changes nothing of what is found. */
  lemma {:induction false} ReadsDoNotMatter<T(!new)>(d: Decoder<T>, limit: nat, kept: bytes, chunks: seq<bytes>)
    requires Stable(d, limit)
    ensures ParseReads(d, kept, chunks) == Parse(d, kept + Flat(chunks))
    decreases |chunks|
  {
    hide Parse, Stable;
    ParseGoesOn(d, limit, kept, Flat(chunks));
    if chunks == [] {
      assert kept + Flat(chunks) == kept;
    } else {
      var first := Parse(d, kept);
      if first.end.More? {
        ReadsDoNotMatter(d, limit, first.end.rest + chunks[0], chunks[1..]);
        assert first.end.rest + chunks[0] + Flat(chunks[1..]) == first.end.rest + Flat(chunks);
      }
    }
  }

  // ---- A reader in the middle of a stream ----------------------------------

  /** `found` is what the stream `all` holds in front of `rest`. */
  ghost predicate At<T>(d: Decoder<T>, all: bytes, found: seq<Found<T>>, rest: bytes) {
    Parse(d, all) == Behind(found, Parse(d, rest))
  }

  lemma AtStart<T>(d: Decoder<T>, all: bytes)
    ensures At(d, all, [], all)
  {
  }

  /** What one decode of the unread bytes says of the whole stream. */
  ghost predicate AtNext<T>(d: Decoder<T>, limit: nat, all: bytes, found: seq<Found<T>>, unread: bytes, rest: bytes) {
    match d(unread)
    case Err(e) => Parse(d, all) == Parsed(found, Bad(e))
    case Ok(Item(x, n)) => 0 < n <= |unread| && At(d, all, found + [Whole(x)], unread[n..] + rest)
    case Ok(Skip(n)) => 0 < n <= |unread| && At(d, all, found + [Skipped], unread[n..] + rest)
    case Ok(Need(n)) => |unread| < n <= limit && (rest == [] ==> Parse(d, all) == Parsed(found, More(unread)))
  }

  lemma AtOne<T>(d: Decoder<T>, all: bytes, found: seq<Found<T>>, one: seq<Found<T>>, unread: bytes, rest: bytes, n: nat)
    requires At(d, all, found, unread + rest) && 0 < n <= |unread|
    requires Parse(d, unread + rest) == Behind(one, Parse(d, (unread + rest)[n..]))
    ensures At(d, all, found + one, unread[n..] + rest)
  {
    hide Parse;
    assert (unread + rest)[n..] == unread[n..] + rest;
    BehindBehind(found, one, Parse(d, unread[n..] + rest));
  }

  lemma AtStep<T(!new)>(d: Decoder<T>, limit: nat, all: bytes, found: seq<Found<T>>, unread: bytes, rest: bytes)
    requires Stable(d, limit) && At(d, all, found, unread + rest)
    ensures AtNext(d, limit, all, found, unread, rest)
  {
    assert StableAt(d, limit, unread, rest);
    match d(unread)
    case Err(_) => assert found + [] == found;
    case Ok(Item(x, n)) => AtOne(d, all, found, [Whole(x)], unread, rest, n);
    case Ok(Skip(n)) => AtOne(d, all, found, [Skipped], unread, rest, n);
    case Ok(Need(_)) =>
      if rest == [] {
        assert unread + rest == unread && found + [] == found;
      }
  }
}
