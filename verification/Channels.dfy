/** Messages and the fixed-capacity ring buffer that carries them. */
module Channels {
  import opened Words

  const MSG_MAX: nat := 16
  const CHANNEL_CAPACITY: nat := 8

  /** Up to MSG_MAX bytes, zero-padded. */
  datatype MessageRep = Message(len: u8, data: seq<u8>)

  type Message = m: MessageRep | |m.data| == MSG_MAX && m.len <= MSG_MAX
    witness Message(0, seq(MSG_MAX, _ => 0))

  /** `None` when the bytes do not fit. */
  function FromBytes(bytes: seq<u8>): (m: Option<Message>)
    ensures m.Some? <==> |bytes| <= MSG_MAX
  {
    if |bytes| > MSG_MAX then None
    else Some(Message(|bytes|, bytes + seq(MSG_MAX - |bytes|, _ => 0)))
  }

  function Bytes(m: Message): seq<u8> {
    m.data[..m.len]
  }

  /** A message carries exactly the bytes it was made from, and nothing else fits in it. */
  lemma MessageRoundTrip(bytes: seq<u8>)
    requires |bytes| <= MSG_MAX
    ensures Bytes(FromBytes(bytes).value) == bytes
  {
    assert (bytes + seq(MSG_MAX - |bytes|, _ => 0))[..|bytes|] == bytes;
  }

  /** Two byte strings make the same message only if they are the same. */
  lemma FromBytesInjective(a: seq<u8>, b: seq<u8>)
    requires |a| <= MSG_MAX && |b| <= MSG_MAX && FromBytes(a) == FromBytes(b)
    ensures a == b
  {
    MessageRoundTrip(a);
    MessageRoundTrip(b);
  }

  /** The `len` queued elements from `head` on, wrapping at the end of the buffer. */
  function RingContents<T>(buffer: seq<T>, head: nat, len: nat): (s: seq<T>)
    requires head < |buffer| && len <= |buffer|
    ensures |s| == len
  {
    seq(len, i requires 0 <= i < len => buffer[(head + i) % |buffer|])
  }

  lemma WrapsOnce(head: nat, i: nat, cap: nat)
    requires head < cap && i < cap
    ensures (head + i) % cap == if head + i < cap then head + i else head + i - cap
  {
    if head + i < cap {
      ModIs(head + i, cap, 0, head + i);
    } else {
      ModIs(head + i, cap, 1, head + i - cap);
    }
  }

  lemma RingAppend<T>(buffer: seq<T>, head: nat, len: nat, x: T)
    requires head < |buffer| && len < |buffer|
    ensures RingContents(buffer[(head + len) % |buffer| := x], head, len + 1) == RingContents(buffer, head, len) + [x]
  {
    var cap := |buffer|;
    var b := buffer[(head + len) % cap := x];
    WrapsOnce(head, len, cap);
    forall i | 0 <= i < len + 1
      ensures RingContents(b, head, len + 1)[i] == (RingContents(buffer, head, len) + [x])[i]
    {
      WrapsOnce(head, i, cap);
    }
  }

  lemma RingRest<T>(buffer: seq<T>, head: nat, len: nat)
    requires head < |buffer| && 0 < len <= |buffer|
    ensures RingContents(buffer, head, len)[0] == buffer[head]
    ensures RingContents(buffer, (head + 1) % |buffer|, len - 1) == RingContents(buffer, head, len)[1..]
  {
    var cap := |buffer|;
    WrapsOnce(head, 0, cap);
    var h' := (head + 1) % cap;
    if cap > 1 {
      WrapsOnce(head, 1, cap);
      forall i | 0 <= i < len - 1
        ensures RingContents(buffer, h', len - 1)[i] == RingContents(buffer, head, len)[1..][i]
      {
        WrapsOnce(h', i, cap);
        WrapsOnce(head, i + 1, cap);
      }
    }
  }

  class Channel<T(0)> {
    const buffer: array<T>
    var head: nat
    var len: nat

    ghost predicate Valid()
      reads this
    {
      0 < buffer.Length && head < buffer.Length && len <= buffer.Length
    }

    /** The queued elements, oldest first. */
    ghost function Contents(): (s: seq<T>)
      requires Valid()
      reads this, buffer
      ensures |s| == len
    {
      RingContents(buffer[..], head, len)
    }

    constructor (capacity: nat)
      requires capacity > 0
      ensures Valid() && fresh(buffer) && buffer.Length == capacity && Contents() == []
    {
      buffer := new T[capacity];
      head, len := 0, 0;
    }

    method IsFull() returns (r: bool)
      requires Valid()
      ensures r <==> |Contents()| == buffer.Length
    {
      r := len == buffer.Length;
    }

    /** Appends unless full; a full channel hands the value back and is not changed. */
    method TrySend(value: T) returns (back: Option<T>)
      requires Valid()
      modifies this, buffer
      ensures Valid()
      ensures old(|Contents()|) == buffer.Length ==> back == Some(value) && Contents() == old(Contents())
      ensures old(|Contents()|) < buffer.Length ==> back == None && Contents() == old(Contents()) + [value]
    {
      if len == buffer.Length {
        return Some(value);
      }
      RingAppend(buffer[..], head, len, value);
      ghost var before := buffer[..];
      var slot := (head + len) % buffer.Length;
      buffer[slot] := value;
      assert buffer[..] == before[slot := value];
      len := len + 1;
      back := None;
    }

    /** Takes the oldest element; an empty channel is not changed. */
    method TryReceive() returns (r: Option<T>)
      requires Valid()
      modifies this
      ensures Valid()
      ensures old(Contents()) == [] ==> r == None && Contents() == []
      ensures old(Contents()) != [] ==> r == Some(old(Contents())[0]) && Contents() == old(Contents())[1..]
    {
      if len == 0 {
        return None;
      }
      RingRest(buffer[..], head, len);
      var value := buffer[head];
      head := (head + 1) % buffer.Length;
      len := len - 1;
      r := Some(value);
    }
  }
}
