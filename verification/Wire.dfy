/** What every framing of the bus shares: frames, errors, and the answer of a
    stream decoder. */
module Wire {
  import opened Bytes

  const MAX_CHANNEL_LEN: nat := 63
  const MAX_MESSAGE_LEN: nat := 0x1000_0000

  datatype Option<+T> = None | Some(value: T)

  datatype WireError =
    | Truncated(needed: nat, remaining: nat)
    | BadMagic(magic: nat)
    | BadChannel
    | ChannelTooLong(len: nat)
    | MessageTooLarge(len: nat)
    | DatagramTooSmall(shortMax: nat, minimum: nat)
    | TooManyFragments(count: nat)
    | InconsistentFragment(sequence: nat)
    | UnknownFrameType(kind: nat)

  datatype Result<+T> = Ok(value: T) | Err(error: WireError) {
    predicate IsFailure() { Err? }
    function PropagateFailure<U>(): Result<U>
      requires Err?
    {
      Err(error)
    }
    function Extract(): T
      requires Ok?
    {
      value
    }
  }

  datatype Frame = Frame(channel: str, payload: bytes)

  /** The answer of a stream decoder: an item and its length, how many bytes it
      has to see first, or the length of a frame that is not worth reading. */
  datatype Decoded<+T> = Item(item: T, used: nat) | Need(needed: nat) | Skip(skipped: nat)

  function CheckChannel(channel: bytes, max: nat): Result<()> {
    if channel == [] || 0 in channel then Err(BadChannel)
    else if |channel| > max then Err(ChannelTooLong(|channel|))
    else Ok(())
  }

  /** The reader of a datagram: `n` bytes at `at`, and where the next read is. */
  function Take(data: bytes, at: nat, n: nat): (r: Result<(bytes, nat)>)
    requires at <= |data|
    ensures r.Ok? ==> r.value.1 == at + n <= |data| && r.value.0 == data[at..at + n]
  {
    if |data| - at < n then Err(Truncated(n, |data| - at))
    else Ok((data[at..at + n], at + n))
  }

  function TakeU32(data: bytes, at: nat): (r: Result<(u32, nat)>)
    requires at <= |data|
    ensures r.Ok? ==> r.value.1 == at + 4 <= |data| && r.value.0 == UintAt(data, at, 4)
  {
    var (b, next) :- Take(data, at, 4);
    UintAtWidth(data, at, 4);
    Ok((FromBigEndian(b), next))
  }

  function TakeU16(data: bytes, at: nat): (r: Result<(u16, nat)>)
    requires at <= |data|
    ensures r.Ok? ==> r.value.1 == at + 2 <= |data| && r.value.0 == UintAt(data, at, 2)
  {
    var (b, next) :- Take(data, at, 2);
    UintAtWidth(data, at, 2);
    Ok((FromBigEndian(b), next))
  }

  /** How many bytes stand in front of the first NUL. */
  function FirstNul(s: bytes): (r: Option<nat>)
    ensures r.Some? ==> r.value < |s| && s[r.value] == 0 && forall i :: 0 <= i < r.value ==> s[i] != 0
    ensures r.None? ==> 0 !in s
  {
    if s == [] then None
    else if s[0] == 0 then Some(0)
    else
      match FirstNul(s[1..])
      case None => None
      case Some(n) =>
        assert forall i :: 0 < i < |s| ==> s[i] == s[1..][i - 1];
        Some(n + 1)
  }

  lemma FirstNulBehind(name: bytes, rest: bytes)
    requires 0 !in name
    ensures FirstNul(name + [0] + rest) == Some(|name|)
  {
    var s := name + [0] + rest;
    assert forall i | 0 <= i < |name| :: s[i] == name[i] && name[i] in name;
    assert s[|name|] == 0;
  }

  function TakeChannel(data: bytes, at: nat): (r: Result<(str, nat)>)
    requires at <= |data|
    ensures r.Ok? ==> at + |r.value.0| + 1 == r.value.1 <= |data|
    ensures r.Ok? ==> CheckChannel(r.value.0, MAX_CHANNEL_LEN).Ok?
  {
    var rest := data[at..];
    match FirstNul(rest)
    case None => Err(BadChannel)
    case Some(end) =>
      if end == 0 then Err(BadChannel)
      else if end > MAX_CHANNEL_LEN then Err(ChannelTooLong(end))
      else if !IsUtf8(rest[..end]) then Err(BadChannel)
      else Ok((rest[..end], at + end + 1))
  }
}
