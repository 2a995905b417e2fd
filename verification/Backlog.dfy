/** The replication backlog of a master: a circular byte buffer indexed by unbounded stream
    offsets, and the reply to a replica that asks to continue from an offset. */
module Backlog {

  const RING_SIZE := 1024

  /** FullSync, the bytes of an append-sync, or a read past the end of the buffer. */
  datatype SyncReply = FullSync | AppendSync(bytes: string) | OutOfBounds

  /** Stream byte o lives in slot (o + 1) mod RING_SIZE; slot 0 is used only after a wrap. */
  function Slot(o: nat): nat { (o + 1) % RING_SIZE }

  /** begin_offset after a write of `size` bytes at stream position `last`. */
  function NextBegin(begin: nat, last: nat, size: nat): nat {
    var lastIndex := last % RING_SIZE;
    var beginIndex := begin % RING_SIZE;
    var n := RING_SIZE - lastIndex - 1;
    if lastIndex + size >= RING_SIZE && beginIndex < size - n then begin + size - n - beginIndex else begin
  }

  /** commandSyncProc's decision, given what the buffer would yield. */
  function SyncDecision(offset: int, begin: nat, last: nat, stream: string): SyncReply
    requires last == |stream|
  {
    if offset < 0 || offset < begin || offset >= last then FullSync
    else if last + 1 > RING_SIZE then OutOfBounds
    else AppendSync(stream[offset..])
  }

  /** The decision with a wrapping read, for any offset whose missing bytes are still kept; an
      up-to-date replica gets an empty append-sync. */
  function WrappedDecision(offset: int, stream: string): SyncReply {
    var last := |stream|;
    if offset < 0 || offset > last || offset < last - RING_SIZE then FullSync else AppendSync(stream[offset..])
  }

  /** A write that wraps moves begin_offset to the first offset, from where it was, whose place
      modulo 1024 the wrapped part of the write does not reach; other writes leave it. */
  lemma NextBeginIs(begin: nat, last: nat, size: nat)
    requires size <= 1024
    ensures var r, reach := NextBegin(begin, last, size), last % 1024 + size - 1023;
            if reach <= 0 then r == begin
            else
              && begin <= r && (r % 1024 >= reach || r % 1024 == reach % 1024)
              && forall o :: begin <= o < r ==> o % 1024 < reach
  {
  }

  /** begin_offset is not moved by a write that overwrites old bytes without wrapping: after
      writes of 1000, 100 and 900 bytes it still admits offset 77, whose byte was overwritten
      (only the last 1024 of the 2000 bytes are kept). */
  lemma BeginLags()
    ensures var begin := NextBegin(NextBegin(NextBegin(0, 0, 1000), 1000, 100), 1100, 900);
            begin == 77 && begin < 2000 - RING_SIZE && Slot(77) == Slot(77 + RING_SIZE) && 77 + RING_SIZE < 2000
  {
  }

  /** Which byte of a write that starts after slot lastIndex would land in slot j. */
  function Source(lastIndex: nat, j: nat): nat
    requires lastIndex < RING_SIZE
  {
    if j > lastIndex then j - lastIndex - 1 else j + RING_SIZE - lastIndex - 1
  }

  lemma SourceOfSlot(last: nat, o: nat)
    requires last - RING_SIZE <= o < last + RING_SIZE
    ensures Source(last % RING_SIZE, Slot(o)) == if o >= last then o - last else o + RING_SIZE - last
  {
  }

  class Backlog {
    const buffer: array<char>
    var begin: nat
    var last: nat
    ghost var stream: string

    ghost predicate Valid()
      reads this, buffer
    {
      && buffer.Length == RING_SIZE && last == |stream|
      && (last < RING_SIZE ==> begin == 0)
      && forall o :: 0 <= o < last && last - RING_SIZE <= o ==> buffer[Slot(o)] == stream[o]
    }

    constructor ()
      ensures Valid() && stream == "" && fresh(buffer)
    {
      buffer := new char[RING_SIZE](_ => '\0');
      begin, last, stream := 0, 0, "";
    }

    /** The two memcpy calls of addRepliBuf. */
    method CopyIn(lastIndex: nat, buf: string)
      requires buffer.Length == RING_SIZE && lastIndex < RING_SIZE && |buf| <= RING_SIZE
      modifies buffer
      ensures forall j :: 0 <= j < RING_SIZE ==>
          buffer[j] == if Source(lastIndex, j) < |buf| then buf[Source(lastIndex, j)] else old(buffer[j])
    {
      var size := |buf|;
      if lastIndex + size >= RING_SIZE {
        var n := RING_SIZE - lastIndex - 1;
        forall i | lastIndex < i < RING_SIZE { buffer[i] := buf[i - lastIndex - 1]; }
        forall i | 0 <= i < size - n { buffer[i] := buf[n + i]; }
      } else {
        forall i | lastIndex < i <= lastIndex + size { buffer[i] := buf[i - lastIndex - 1]; }
      }
    }

    /** addRepliBuf: one write of at most RING_SIZE bytes. */
    method AddRepliBuf(buf: string)
      requires Valid() && |buf| <= RING_SIZE
      modifies this, buffer
      ensures Valid() && stream == old(stream) + buf && begin == NextBegin(old(begin), old(last), |buf|)
    {
      var size := |buf|;
      var lastIndex := last % RING_SIZE;
      var beginIndex := begin % RING_SIZE;
      CopyIn(lastIndex, buf);
      if lastIndex + size >= RING_SIZE {
        var n := RING_SIZE - lastIndex - 1;
        if beginIndex < size - n { begin := begin + size - n - beginIndex; }
      }
      last := last + size;
      stream := stream + buf;
      forall o | 0 <= o < last && last - RING_SIZE <= o
        ensures buffer[Slot(o)] == stream[o]
      {
        SourceOfSlot(old(last), o);
      }
    }

    /** commandSyncProc. The missing bytes are returned, and exactly they, if and only if the
        offset is inside the stream and the buffer has never wrapped; later every admitted
        offset makes the reply run past the buffer's end. */
    method Sync(offset: int) returns (reply: SyncReply)
      requires Valid()
      ensures reply == SyncDecision(offset, begin, last, stream)
      ensures reply.AppendSync? <==> 0 <= offset < last < RING_SIZE
      ensures reply.AppendSync? ==> reply.bytes == stream[offset..last]
      ensures reply.OutOfBounds? <==> begin <= offset < last && last >= RING_SIZE
    {
      if offset < 0 || offset < begin || offset >= last { return FullSync; }
      if offset + 1 + (last - offset) > RING_SIZE { return OutOfBounds; }
      var bytes := buffer[offset + 1..offset + 1 + (last - offset)];
      assert forall i :: 0 <= i < last - offset ==> bytes[i] == buffer[Slot(offset + i)];
      assert bytes == stream[offset..];
      return AppendSync(bytes);
    }

    /** The same reply with the read wrapped around the end of the buffer: the ring holds what
        every offset among the last RING_SIZE needs, before a wrap and after. */
    method SyncWrapped(offset: int) returns (reply: SyncReply)
      requires Valid()
      ensures reply == WrappedDecision(offset, stream)
    {
      if offset < 0 || offset > last || offset < last - RING_SIZE { return FullSync; }
      var bytes := seq(last - offset, i requires 0 <= i < last - offset && buffer.Length == RING_SIZE reads this, buffer =>
        buffer[Slot(offset + i)]);
      assert bytes == stream[offset..];
      return AppendSync(bytes);
    }
  }
}
