/** ce_ringbuffer.c: a byte ring whose wrap flag may stay set after it is no longer full. */
module RingBuffer {
  import opened Bits

  /** memcpy between buffers that do not overlap. */
  method CopyTo(dst: array<Byte>, at: nat, src: array<Byte>, from: nat, n: nat)
    requires dst != src && at + n <= dst.Length && from + n <= src.Length
    modifies dst
    ensures dst[..] == old(dst[..at]) + src[from..from + n] + old(dst[at + n..])
  {
    ghost var was := dst[..];
    var i := 0;
    while i < n
      invariant 0 <= i <= n && dst[..] == was[..at] + src[from..from + i] + was[at + i..]
    {
      dst[at + i] := src[from + i];
      i := i + 1;
    }
  }

  method CopyIn(dst: array<Byte>, at: nat, src: seq<Byte>, from: nat, n: nat)
    requires at + n <= dst.Length && from + n <= |src|
    modifies dst
    ensures dst[..] == old(dst[..at]) + src[from..from + n] + old(dst[at + n..])
  {
    ghost var was := dst[..];
    var i := 0;
    while i < n
      invariant 0 <= i <= n && dst[..] == was[..at] + src[from..from + i] + was[at + i..]
    {
      dst[at + i] := src[from + i];
      i := i + 1;
    }
  }

  function Min(a: int, b: int): int { if a < b then a else b }

  /** The bytes held, the oldest first. */
  function Held(buf: seq<Byte>, head: nat, tail: nat, wrap: bool): (s: seq<Byte>)
    requires head < |buf| && tail < |buf|
  {
    if tail > head then buf[head..tail]
    else if tail == head && !wrap then []
    else buf[head..] + buf[..tail]
  }

  lemma ModOnce(x: nat, c: nat)
    requires c > 0 && x <= c
    ensures x % c == if x == c then 0 else x
  {
  }

  class Ring {
    const buffer: array<Byte>
    const capacity: nat
    var head: nat
    var tail: nat
    var wrap: bool
    /** retval.buffer, with retval.size its length. */
    var retval: array<Byte>

    /** The flag is right whenever head equals tail; it may be set wrongly only while tail is below head. */
    ghost predicate Valid()
      reads this, buffer
    {
      && 0 < capacity == buffer.Length && head < capacity && tail < capacity && retval != buffer
      && (wrap ==> tail <= head)
    }

    ghost function Contents(): seq<Byte>
      requires Valid()
      reads this, buffer
    {
      Held(buffer[..], head, tail, wrap)
    }

    /** ce_rb_new */
    constructor (capacity: nat)
      requires capacity > 0
      ensures Valid() && Contents() == [] && this.capacity == capacity && fresh(buffer) && fresh(retval)
    {
      this.capacity := capacity;
      buffer := new Byte[capacity](_ => 0);
      retval := new Byte[0];
      head, tail, wrap := 0, 0, false;
    }

    /** ce_rb_can_read */
    method CanRead() returns (n: nat)
      requires Valid()
      ensures n == |Contents()| <= capacity
    {
      if tail == head { return if wrap then capacity else 0; }
      if tail > head { return tail - head; }
      n := capacity + tail - head;
    }

    /** ce_rb_can_write */
    method CanWrite() returns (n: nat)
      requires Valid()
      ensures n == capacity - |Contents()|
    {
      var r := CanRead();
      n := capacity - r;
    }

    /** The slow path of ce_rb_read: the bytes are gathered in retval. */
    method Gather(count: nat)
      requires Valid() && 0 < count <= |Contents()| && capacity - head <= count
      modifies this, retval
      ensures Valid() && (retval == old(retval) || fresh(retval))
      ensures count <= retval.Length && retval[..count] == old(Contents())[..count]
      ensures Contents() == old(Contents())[count..]
    {
      hide Held;
      ghost var h, c0, buf := head, Contents(), buffer[..];
      HeldSize(buf, head, tail, wrap);
      Collect(count);
      GatherEnds(c0, buf, h, tail, wrap, count, retval[..count]);
      if wrap { wrap := false; }
    }

    /** The two copies of ce_rb_read into retval. */
    method Collect(count: nat)
      requires 0 < capacity == buffer.Length && head < capacity && retval != buffer && capacity - head <= count <= capacity
      modifies `retval, `head, retval
      ensures (retval == old(retval) || fresh(retval)) && retval != buffer && count <= retval.Length
      ensures retval[..count] == buffer[old(head)..] + buffer[..count - (capacity - old(head))]
      ensures head == Moved(old(head), count, capacity)
    {
      var h := head;
      var tailChunk := Min(count, capacity - head);
      var headChunk := count - tailChunk;
      if retval.Length < tailChunk + headChunk {
        retval := new Byte[tailChunk + headChunk];
      }
      CopyTo(retval, 0, buffer, head, tailChunk);
      ghost var first := retval[..tailChunk];
      assert first == buffer[h..];
      ModOnce(head + tailChunk, capacity);
      head := (head + tailChunk) % capacity;
      if tailChunk < count {
        CopyTo(retval, tailChunk, buffer, head, headChunk);
        ModOnce(head + headChunk, capacity);
        head := (head + headChunk) % capacity;
        assert retval[..count] == first + buffer[..headChunk];
      } else {
        assert retval[..count] == first + buffer[..0];
      }
    }

    /** ce_rb_read: the bytes are where data points, from off on. Without wrapping that is the ring itself. */
    method Read(count0: int) returns (count: nat, data: array?<Byte>, off: nat)
      requires Valid()
      modifies this, retval
      ensures Valid() && (retval == old(retval) || fresh(retval))
      ensures count == if count0 < 0 then 0 else Min(count0, |old(Contents())|)
      ensures count > 0 ==> data != null && off + count <= data.Length && data[off..off + count] == old(Contents())[..count]
      ensures Contents() == old(Contents())[count..]
    {
      if count0 < 0 { return 0, null, 0; }
      var n := CanRead();
      count := Min(count0, n);
      off := 0;
      if count == 0 { return 0, null, 0; }
      if capacity - head > count {
        data, off := buffer, head;
        FastEnds(buffer[..], head, tail, wrap, count);
        ModOnce(head + count, capacity);
        head := (head + count) % capacity;
        return;
      }
      Gather(count);
      data := retval;
    }

    /** ce_rb_write: takes what fits. */
    method Write(data: seq<Byte>, count0: int) returns (count: nat)
      requires Valid() && count0 <= |data|
      modifies this, buffer
      ensures Valid() && retval == old(retval)
      ensures count == if count0 <= 0 then 0 else Min(count0, capacity - |old(Contents())|)
      ensures Contents() == old(Contents()) + data[..count]
    {
      if count0 <= 0 { return 0; }
      var room := CanWrite();
      count := Min(count0, room);
      if count == 0 { return; }
      ghost var buf, d := buffer[..], data[..count];
      Store(data, count);
      WriteEnds(buf, buffer[..], head, old(tail), wrap, d);
      if head == tail { wrap := true; }
    }

    /** The two copies of ce_rb_write. */
    method Store(data: seq<Byte>, count: nat)
      requires 0 < capacity == buffer.Length && tail < capacity && 0 < count <= |data| && count <= capacity
      modifies `tail, buffer
      ensures tail == Moved(old(tail), count, capacity) && Written(old(buffer[..]), buffer[..], old(tail), data[..count])
    {
      hide Written;
      ghost var buf, t := buffer[..], tail;
      var tailChunk := Min(count, capacity - tail);
      CopyIn(buffer, tail, data, 0, tailChunk);
      ghost var was := buffer[..];
      ModOnce(tail + tailChunk, capacity);
      tail := (tail + tailChunk) % capacity;
      if tailChunk < count {
        var headChunk := count - tailChunk;
        CopyIn(buffer, 0, data, tailChunk, headChunk);
        ModOnce(tail + headChunk, capacity);
        tail := (tail + headChunk) % capacity;
        WrittenRound(buf, was, buffer[..], t, data[..count]);
      } else {
        WrittenOnce(buf, was, t, data[..count]);
      }
    }
  }

  lemma WrittenOnce(buf: seq<Byte>, buf': seq<Byte>, tail: nat, data: seq<Byte>)
    requires tail + |data| <= |buf| && buf' == buf[..tail] + data[0..|data|] + buf[tail + |data|..]
    ensures Written(buf, buf', tail, data)
  {
  }

  lemma WrittenRound(buf: seq<Byte>, was: seq<Byte>, buf': seq<Byte>, tail: nat, data: seq<Byte>)
    requires tail < |buf| && |buf| - tail < |data| <= |buf|
    requires var n := |buf| - tail;
             was == buf[..tail] + data[0..n] + buf[|buf|..] &&
             buf' == was[..0] + data[n..|data|] + was[|data| - n..]
    ensures Written(buf, buf', tail, data)
  {
  }

  lemma FastEnds(buf: seq<Byte>, head: nat, tail: nat, wrap: bool, count: nat)
    requires head < |buf| && tail < |buf| && (wrap ==> tail <= head) && head + count < |buf| &&
             count <= |Held(buf, head, tail, wrap)|
    ensures buf[head..head + count] == Held(buf, head, tail, wrap)[..count]
    ensures Held(buf, head + count, tail, wrap) == Held(buf, head, tail, wrap)[count..]
  {
    if tail > head {
      assert buf[head..tail][..count] == buf[head..head + count];
      assert buf[head..tail][count..] == buf[head + count..tail];
    } else if tail < head || wrap {
      assert buf[head..][..count] == buf[head..head + count];
      assert (buf[head..] + buf[..tail])[..count] == buf[head..][..count];
      assert (buf[head..] + buf[..tail])[count..] == buf[head + count..] + buf[..tail];
    }
  }

  lemma HeldSize(buf: seq<Byte>, head: nat, tail: nat, wrap: bool)
    requires head < |buf| && tail < |buf| && (wrap ==> tail <= head)
    ensures |Held(buf, head, tail, wrap)| <= |buf|
  {
  }

  /** A read that reaches the end of the buffer. */
  lemma GatherEnds(c0: seq<Byte>, buf: seq<Byte>, head: nat, tail: nat, wrap: bool, count: nat, out: seq<Byte>)
    requires head < |buf| && tail < |buf| && c0 == Held(buf, head, tail, wrap) && |buf| - head <= count <= |c0|
    requires out == buf[head..] + buf[..count - (|buf| - head)]
    ensures out == c0[..count]
    ensures var h := Moved(head, count, |buf|); 0 <= h <= tail && Held(buf, h, tail, false) == c0[count..]
  {
  }

  /** buf' is buf with data written at tail, and at the start what does not fit there. */
  predicate Written(buf: seq<Byte>, buf': seq<Byte>, tail: nat, data: seq<Byte>)
    requires tail <= |buf| && |data| <= |buf|
  {
    var n := |buf| - tail;
    if |data| <= n then buf' == buf[..tail] + data + buf[tail + |data|..]
    else buf' == data[n..] + buf[|data| - n..tail] + data[..n]
  }

  function Moved(tail: nat, n: nat, c: nat): int {
    if tail + n < c then tail + n else tail + n - c
  }

  /** Writing behind the oldest byte, short of the end of the buffer. */
  lemma WriteBehind(buf: seq<Byte>, buf': seq<Byte>, head: nat, tail: nat, data: seq<Byte>)
    requires head <= tail && tail + |data| <= |buf| && Written(buf, buf', tail, data)
    ensures |buf'| == |buf| && buf'[head..tail + |data|] == buf[head..tail] + data
  {
  }

  lemma WriteBefore(buf: seq<Byte>, buf': seq<Byte>, head: nat, tail: nat, data: seq<Byte>)
    requires tail + |data| <= head <= |buf| && Written(buf, buf', tail, data)
    ensures |buf'| == |buf| && buf'[head..] + buf'[..tail + |data|] == buf[head..] + buf[..tail] + data
  {
  }

  lemma WriteRound(buf: seq<Byte>, buf': seq<Byte>, head: nat, tail: nat, data: seq<Byte>)
    requires head <= tail < |buf| && |buf| - tail < |data| <= |buf| - tail + head && Written(buf, buf', tail, data)
    ensures |buf'| == |buf| && buf'[head..] + buf'[..|data| - (|buf| - tail)] == buf[head..tail] + data
  {
  }

  /** The new bytes lie where the old ones end. */
  lemma WriteEnds(buf: seq<Byte>, buf': seq<Byte>, head: nat, tail: nat, wrap: bool, data: seq<Byte>)
    requires head < |buf| && tail < |buf| && (wrap ==> tail <= head) && data != []
    requires |Held(buf, head, tail, wrap)| + |data| <= |buf| && Written(buf, buf', tail, data)
    ensures |buf'| == |buf| && 0 <= Moved(tail, |data|, |buf|) < |buf|
    ensures var t := Moved(tail, |data|, |buf|); var w := wrap || head == t;
            Held(buf', head, t, w) == Held(buf, head, tail, wrap) + data && (w ==> t <= head)
  {
    hide Written;
    if tail < head {
      WriteBefore(buf, buf', head, tail, data);
    } else if tail + |data| <= |buf| {
      WriteBehind(buf, buf', head, tail, data);
      if tail == head { assert buf[head..tail] == []; }
      if tail + |data| == |buf| { assert buf'[head..] + buf'[..0] == buf'[head..]; }
    } else {
      WriteRound(buf, buf', head, tail, data);
      if tail == head { assert buf[head..tail] == []; }
    }
  }
}
