/** What stands between a stream and its decoder: a queue of bytes in an array
    that grows, shrinks and is compacted. */
module ReadBuffers {
  import opened Bytes
  import opened Wire

  /** How one read of a stream goes. */
  datatype Arrival = Chunk(most: nat) | TimedOut | Broken

  datatype ReadResult = Got(data: bytes) | Timeout | Failed

  /** A stream, and how its bytes come: any split of it into reads, with time
      outs and a failure anywhere. A read of nothing is the end. */
  class Source {
    var rest: bytes
    var script: seq<Arrival>

    constructor (rest: bytes, script: seq<Arrival>)
      ensures this.rest == rest && this.script == script
    {
      this.rest := rest;
      this.script := script;
    }

    /** What is left to come: it falls with every read but one at the end. */
    ghost function Left(): nat
      reads this
    {
      |rest| + |script|
    }

    method Read(room: nat) returns (r: ReadResult)
      modifies this
      ensures r.Got? ==> old(rest) == r.data + rest && |r.data| <= room
      ensures r.Got? && r.data == [] ==> rest == [] || room == 0
      ensures !r.Got? ==> rest == old(rest)
      ensures r.Failed? ==> Broken in old(script)
      ensures Broken in script ==> Broken in old(script)
      ensures Left() < old(Left()) || (r == Got([]) && rest == old(rest) && script == old(script))
    {
      var most := |rest|;
      if script != [] {
        var next := script[0];
        script := script[1..];
        match next
        case TimedOut => return Timeout;
        case Broken => return Failed;
        case Chunk(n) => most := if n == 0 then 1 else n;
      }
      var n := if most < room then most else room;
      n := if n < |rest| then n else |rest|;
      r := Got(rest[..n]);
      rest := rest[n..];
    }
  }

  class ReadBuffer {
    var buffer: array<byte>
    var start: nat
    var end: nat
    const floor: nat
    const ceiling: nat
    /** What `Reserve` was last asked for, until a read makes use of it. */
    var wanted: nat
    /** The most bytes that were ever unread at one time. */
    ghost var peak: nat

    ghost predicate Valid()
      reads this, buffer
    {
      && 1 <= floor <= buffer.Length <= ceiling
      && start <= end <= buffer.Length
      && end - start <= peak
      && (buffer.Length == floor || buffer.Length <= 2 * peak)
    }

    /** The queue: what was read and is still to be decoded. */
    function Unread(): bytes
      requires start <= end <= buffer.Length
      reads this, buffer
    {
      buffer[start..end]
    }

    constructor WithLimits(floor: nat, ceiling: nat)
      ensures Valid() && fresh(buffer) && Unread() == []
      ensures this.floor == (if floor == 0 then 1 else floor)
      ensures this.ceiling == (if ceiling < this.floor then this.floor else ceiling)
    {
      var least := if floor == 0 then 1 else floor;
      this.floor := least;
      this.ceiling := if ceiling < least then least else ceiling;
      buffer := new byte[least](_ => 0);
      start, end, wanted, peak := 0, 0, 0, 0;
    }

    /** Moves the `end - start` unread bytes to the front of the same array. */
    method MoveDown()
      requires Valid()
      modifies this, buffer
      ensures Valid() && buffer == old(buffer) && start == 0 && wanted == old(wanted) && peak == old(peak)
      ensures Unread() == old(Unread())
    {
      var n := end - start;
      ghost var unread := Unread();
      for i := 0 to n
        invariant start <= end <= buffer.Length && n == end - start
        invariant buffer == old(buffer) && unchanged(this)
        invariant buffer[..i] == unread[..i]
        invariant forall k :: i <= k < n ==> buffer[start + k] == unread[k]
      {
        buffer[i] := buffer[start + i];
        assert buffer[..i + 1] == buffer[..i] + [buffer[i]];
      }
      end := n;
      start := 0;
    }

    /** Doubles the array, up to the ceiling. */
    method Grow()
      requires Valid() && start == 0 && end == buffer.Length < ceiling
      modifies this
      ensures Valid() && fresh(buffer) && start == 0 && wanted == old(wanted) && peak == old(peak)
      ensures buffer.Length == if 2 * old(buffer.Length) < ceiling then 2 * old(buffer.Length) else ceiling
      ensures Unread() == old(Unread())
    {
      var want := if 2 * buffer.Length < ceiling then 2 * buffer.Length else ceiling;
      var larger := new byte[want](_ => 0);
      for i := 0 to buffer.Length
        invariant unchanged(this) && unchanged(buffer)
        invariant larger[..i] == buffer[..i]
      {
        larger[i] := buffer[i];
        assert larger[..i + 1] == larger[..i] + [larger[i]];
        assert buffer[..i + 1] == buffer[..i] + [buffer[i]];
      }
      buffer := larger;
    }

    /** Space for a read. With nothing unread the array has the size of the floor
        or of the request; otherwise it is compacted or made larger. */
    method MakeRoom()
      requires Valid()
      modifies this, buffer
      ensures Valid() && (buffer == old(buffer) || fresh(buffer))
      ensures Unread() == old(Unread()) && wanted == old(wanted) && peak == old(peak)
      ensures end == buffer.Length ==> |Unread()| == ceiling
      ensures Unread() == [] ==> buffer.Length <= (if floor < wanted then wanted else floor) && start == end == 0
      ensures buffer.Length < old(buffer.Length) ==> Unread() == [] && buffer.Length == if floor < wanted then wanted else floor
    {
      if start == end {
        start, end := 0, 0;
        var keep := if floor < wanted then wanted else floor;
        if buffer.Length > keep {
          buffer := new byte[keep](_ => 0);
        }
        return;
      }
      if start * 2 >= buffer.Length || end == buffer.Length {
        MoveDown();
      }
      if end == buffer.Length && buffer.Length < ceiling {
        Grow();
      }
    }

    /** Says no above the ceiling. It takes no room: that is bought by what
        arrives, however large the claim. */
    method Reserve(claim: nat) returns (ok: bool)
      requires Valid()
      modifies this, buffer
      ensures Valid() && (buffer == old(buffer) || fresh(buffer))
      ensures ok <==> claim <= ceiling
      ensures Unread() == old(Unread()) && peak == old(peak)
      ensures !ok ==> unchanged(this) && unchanged(buffer)
      ensures ok ==> wanted == claim
    {
      if claim > ceiling {
        return false;
      }
      wanted := claim;
      MakeRoom();
      return true;
    }

    /** Gives this what a decoder took. */
    method Consume(taken: nat)
      requires Valid()
      modifies this
      ensures Valid() && buffer == old(buffer) && peak == old(peak)
      ensures Unread() == if taken <= |old(Unread())| then old(Unread())[taken..] else []
      ensures wanted == if taken == 0 then old(wanted) else 0
    {
      if taken == 0 {
        return;
      }
      start := if start + taken < end then start + taken else end;
      wanted := 0;
    }

    /** How much of the spare part a read wrote. */
    method Filled(count: nat)
      requires Valid()
      modifies this
      ensures Valid() && buffer == old(buffer) && wanted == old(wanted)
      ensures start == old(start) && end == if old(end) + count < buffer.Length then old(end) + count else buffer.Length
      ensures peak == if end - start > old(peak) then end - start else old(peak)
    {
      end := if end + count < buffer.Length then end + count else buffer.Length;
      peak := if end - start > peak then end - start else peak;
    }

    /** Copies a read into the spare part. */
    method Put(data: bytes)
      requires Valid() && |data| <= buffer.Length - end
      modifies this, buffer
      ensures Valid() && buffer == old(buffer)
      ensures Unread() == old(Unread()) + data
      ensures peak == if |Unread()| > old(peak) then |Unread()| else old(peak)
    {
      forall i | 0 <= i < |data| {
        buffer[end + i] := data[i];
      }
      Filled(|data|);
    }

    /** One read of a stream into the spare part. A full buffer is an error of
        its own: a read of nothing into nothing would read as the end. */
    method FillFrom(source: Source) returns (r: ReadResult, full: bool)
      requires Valid()
      modifies this, buffer, source
      ensures Valid() && (buffer == old(buffer) || fresh(buffer))
      ensures full <==> |old(Unread())| == ceiling
      ensures full ==> r.Failed? && source.rest == old(source.rest) && source.Left() == old(source.Left())
      ensures r.Got? ==> Unread() == old(Unread()) + r.data && old(source.rest) == r.data + source.rest
      ensures r.Got? && r.data == [] ==> source.rest == []
      ensures !r.Got? ==> Unread() == old(Unread()) && source.rest == old(source.rest)
      ensures r.Failed? && !full ==> Broken in old(source.script)
      ensures Broken in source.script ==> Broken in old(source.script)
      ensures !full ==> source.Left() < old(source.Left()) || (r == Got([]) && source.Left() == old(source.Left()))
    {
      MakeRoom();
      full := end == buffer.Length;
      if full {
        return Failed, true;
      }
      r := source.Read(buffer.Length - end);
      if r.Got? {
        Put(r.data);
      }
    }
  }
}
