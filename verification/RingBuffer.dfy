/** A ring of 1024 bytes that holds at most 1023, and when it is a bounded queue. */
module RingBuffer {
  import opened Wrappers

  type Byte = bv8

  const SIZE := 1024
  const ROOM := SIZE - 1

  // ---------- The queue it stands for ----------

  datatype Op = Push(x: Byte) | Pop | PushBulk(xs: seq<Byte>) | PopBulk(n: nat)

  /** Whether the operation was done, and the bytes it took out. */
  datatype Answer = Answer(done: bool, out: seq<Byte>)

  /** A queue of at most ROOM bytes; a refused operation changes nothing. */
  function QueueOp(q: seq<Byte>, op: Op): (seq<Byte>, Answer) {
    match op
    case Push(x) => if |q| < ROOM then (q + [x], Answer(true, [])) else (q, Answer(false, []))
    case Pop => if q != [] then (q[1..], Answer(true, q[..1])) else (q, Answer(false, []))
    case PushBulk(xs) => if |q| + |xs| <= ROOM then (q + xs, Answer(true, [])) else (q, Answer(false, []))
    case PopBulk(n) => if n <= |q| then (q[n..], Answer(true, q[..n])) else (q, Answer(false, []))
  }

  /** A run of operations: the queue afterwards, all bytes taken out, and how many were done. */
  function QueueRun(q: seq<Byte>, ops: seq<Op>): (r: (seq<Byte>, seq<Byte>, nat))
  {
    if ops == [] then (q, [], 0)
    else
      var (q1, out, n) := QueueRun(q, ops[..|ops| - 1]);
      var (q2, a) := QueueOp(q1, ops[|ops| - 1]);
      (q2, out + a.out, if a.done then n + 1 else n)
  }

  function Pushes(xs: seq<Byte>): seq<Op> { seq(|xs|, i requires 0 <= i < |xs| => Push(xs[i])) }

  function Pops(n: nat): seq<Op> { seq(n, i => Pop) }

  /** A bulk push that is accepted is that many single pushes; single pushes of what does not
      fit fill the queue up, where the bulk push does nothing. */
  lemma {:induction false} PushBulkIsPushes(q: seq<Byte>, xs: seq<Byte>)
    requires |q| <= ROOM
    ensures var m := if |xs| <= ROOM - |q| then |xs| else ROOM - |q|;
            QueueRun(q, Pushes(xs)) == (q + xs[..m], [], m)
    decreases |xs|
  {
    var none: seq<Byte> := [];
    assert none + none == none;
    if xs == [] {
      assert q + [] == q;
    } else {
      var n := |xs| - 1;
      PushBulkIsPushes(q, xs[..n]);
      assert Pushes(xs)[..n] == Pushes(xs[..n]);
      if |xs| <= ROOM - |q| {
        assert q + xs[..n][..n] + [xs[n]] == q + xs[..n + 1];
      } else {
        assert Pushes(xs)[n] == Push(xs[n]);
        assert xs[..n][..ROOM - |q|] == xs[..ROOM - |q|];
      }
    }
  }

  lemma {:induction false} PopBulkIsPops(q: seq<Byte>, n: nat)
    ensures var m := if n <= |q| then n else |q|;
            QueueRun(q, Pops(n)) == (q[m..], q[..m], m)
  {
    if n > 0 {
      PopBulkIsPops(q, n - 1);
      assert Pops(n)[..n - 1] == Pops(n - 1);
      if n <= |q| {
        assert q[n - 1..][1..] == q[n..] && q[..n - 1] + q[n - 1..][..1] == q[..n];
      } else {
        assert q[..|q|] + [] == q[..|q|];
      }
    }
  }

  // ---------- The ring ----------

  /** `Undefined`: the C code copies a negative number of bytes. */
  datatype Status = Accepted | Refused | Undefined

  /** n % SIZE for n below twice the size. */
  function Wrap(n: nat): (p: nat)
    ensures n < 2 * SIZE ==> p == n % SIZE && p < SIZE
  {
    if n < SIZE then n else n - SIZE
  }

  /** The bytes from head up to tail. */
  function Live(data: seq<Byte>, head: nat, tail: nat): (q: seq<Byte>)
    requires |data| == SIZE && head < SIZE && tail < SIZE
    ensures |q| == Wrap(tail + SIZE - head)
    ensures forall i :: 0 <= i < |q| ==> q[i] == data[Wrap(head + i)]
  {
    seq(Wrap(tail + SIZE - head), i requires 0 <= i < SIZE => data[Wrap(head + i)])
  }

  /** memcpy */
  method Copy(dst: array<Byte>, at: nat, src: array<Byte>, from: nat, n: nat)
    requires dst != src && at + n <= dst.Length && from + n <= src.Length
    modifies dst
    ensures forall p :: 0 <= p < dst.Length ==>
              dst[p] == if at <= p < at + n then src[p - at + from] else old(dst[p])
  {
    forall i | 0 <= i < n { dst[at + i] := src[from + i]; }
  }

  class RingBuffer {
    const data: array<Byte>
    var head: nat
    var tail: nat

    ghost predicate Valid() reads this { data.Length == SIZE && head < SIZE && tail < SIZE }

    /** The queue that the ring stands for. */
    ghost function Queue(): seq<Byte>
      reads this, data
      requires Valid()
    {
      Live(data[..], head, tail)
    }

    constructor ()
      ensures Valid() && Queue() == [] && head == tail == 0 && fresh(data)
    {
      data := new Byte[SIZE](_ => 0);
      head, tail := 0, 0;
    }

    method Size() returns (n: nat)
      requires Valid()
      ensures n == |Queue()|
    {
      return (tail + SIZE - head) % SIZE;
    }

    method IsEmpty() returns (b: bool)
      requires Valid()
      ensures b <==> Queue() == []
    {
      return head == tail;
    }

    method IsFull() returns (b: bool)
      requires Valid()
      ensures b <==> |Queue()| == ROOM
    {
      var n := Size();
      return n >= ROOM;
    }

    method Enqueue(x: Byte) returns (ok: bool)
      requires Valid()
      modifies this`tail, data
      ensures Valid() && (Queue(), Answer(ok, [])) == QueueOp(old(Queue()), Push(x))
      ensures tail == if ok then (old(tail) + 1) % SIZE else old(tail)
    {
      var n := Size();
      if n + 1 > ROOM { return false; }
      ghost var before, t := data[..], tail;
      data[tail] := x;
      tail := (tail + 1) % SIZE;
      LivePush(before, data[..], head, t, [x]);
      return true;
    }

    method Dequeue() returns (ok: bool, x: Byte)
      requires Valid()
      modifies this`head
      ensures Valid() && (Queue(), Answer(ok, if ok then [x] else [])) == QueueOp(old(Queue()), Pop)
      ensures head == if ok then (old(head) + 1) % SIZE else old(head)
    {
      var n := Size();
      if n < 1 { return false, 0; }
      x := data[head];
      ghost var h := head;
      head := (head + 1) % SIZE;
      LivePop(data[..], h, tail, 1);
      LiveFront(data[..], h, tail, [x]);
      return true, x;
    }

    /** Splits the copy at the end of the array unless the new tail is past the head. Undefined
        exactly when it would fit but the data wraps already, or the ring and the request are
        both empty. */
    method EnqueueBulk(src: array<Byte>, size: nat) returns (status: Status)
      requires Valid() && src != data && size <= src.Length
      modifies this`tail, data
      ensures Valid()
      ensures status == Refused <==> |old(Queue())| + size > ROOM
      ensures status == Undefined <==>
                |old(Queue())| + size <= ROOM && (old(tail) < head || (old(tail) == head && size == 0))
      ensures status == Accepted ==>
                && (Queue(), Answer(true, [])) == QueueOp(old(Queue()), PushBulk(src[..size]))
                && tail == (old(tail) + size) % SIZE
      ensures status != Accepted ==> tail == old(tail) && data[..] == old(data[..])
    {
      hide Live;
      var used := Size();
      if used + size > ROOM { return Refused; }
      var lastTail := (tail + size) % SIZE;
      ghost var before, t := data[..], tail;
      if lastTail > head {
        Copy(data, tail, src, 0, size);
      } else {
        var n := SIZE - tail;
        if size < n { return Undefined; }
        Copy(data, tail, src, 0, n);
        Copy(data, 0, src, n, size - n);
      }
      tail := lastTail;
      LivePush(before, data[..], head, t, src[..size]);
      return Accepted;
    }

    /** The copying of a bulk dequeue, split whenever the head is not below the tail. */
    method CopyOut(dst: array<Byte>, size: nat) returns (ok: bool)
      requires Valid() && dst != data && size <= dst.Length && size <= |Queue()|
      modifies dst
      ensures ok <==> head < tail || size >= SIZE - head
      ensures if ok then dst[..size] == Queue()[..size] else dst[..] == old(dst[..])
    {
      if head < tail {
        Copy(dst, 0, data, head, size);
      } else {
        var n := SIZE - head;
        if size < n { return false; }
        Copy(dst, 0, data, head, n);
        Copy(dst, n, data, 0, size - n);
      }
      LiveFront(data[..], head, tail, dst[..size]);
      return true;
    }

    /** Undefined exactly when the head is not below the tail and the request ends before the
        end of the array. */
    method DequeueBulk(dst: array<Byte>, size: nat) returns (status: Status)
      requires Valid() && dst != data && size <= dst.Length
      modifies this`head, dst
      ensures Valid()
      ensures status == Refused <==> size > |old(Queue())|
      ensures status == Undefined <==> size <= |old(Queue())| && old(head) >= tail && size < SIZE - old(head)
      ensures status == Accepted ==>
                && (Queue(), Answer(true, dst[..size])) == QueueOp(old(Queue()), PopBulk(size))
                && head == (old(head) + size) % SIZE
      ensures status != Accepted ==> head == old(head) && dst[..] == old(dst[..])
    {
      hide Live;
      var used := Size();
      if size > used { return Refused; }
      var ok := CopyOut(dst, size);
      if !ok { return Undefined; }
      LivePop(data[..], head, tail, size);
      head := if head < tail then head + size else size - (SIZE - head);
      return Accepted;
    }

    /** The bulk enqueue with the copy split at the smaller of size and the room at the end. */
    method EnqueueBulkMin(src: array<Byte>, size: nat) returns (ok: bool)
      requires Valid() && src != data && size <= src.Length
      modifies this`tail, data
      ensures Valid() && (Queue(), Answer(ok, [])) == QueueOp(old(Queue()), PushBulk(src[..size]))
    {
      hide Live;
      var used := Size();
      if used + size > ROOM { return false; }
      ghost var before, t := data[..], tail;
      var n := if size < SIZE - tail then size else SIZE - tail;
      Copy(data, tail, src, 0, n);
      Copy(data, 0, src, n, size - n);
      tail := (tail + size) % SIZE;
      LivePush(before, data[..], head, t, src[..size]);
      return true;
    }

    /** The bulk dequeue split the same way. */
    method DequeueBulkMin(dst: array<Byte>, size: nat) returns (ok: bool)
      requires Valid() && dst != data && size <= dst.Length
      modifies this`head, dst
      ensures Valid() && (Queue(), Answer(ok, if ok then dst[..size] else [])) == QueueOp(old(Queue()), PopBulk(size))
      ensures !ok ==> dst[..] == old(dst[..])
    {
      hide Live;
      var used := Size();
      if size > used { return false; }
      var n := if size < SIZE - head then size else SIZE - head;
      Copy(dst, 0, data, head, n);
      Copy(dst, n, data, 0, size - n);
      LiveFront(data[..], head, tail, dst[..size]);
      LivePop(data[..], head, tail, size);
      head := (head + size) % SIZE;
      return true;
    }

    /** Whether the operation, as coded, is one of the bulk operations that go wrong. */
    ghost predicate GoesWrong(op: Op)
      reads this, data
      requires Valid()
    {
      match op
      case PushBulk(xs) => |Queue()| + |xs| <= ROOM && (tail < head || (tail == head && xs == []))
      case PopBulk(n) => n <= |Queue()| && head >= tail && n < SIZE - head
      case _ => false
    }

    /** Any one operation, with the bulk copies as coded or with the smaller split. */
    method Perform(op: Op, mended: bool) returns (a: Option<Answer>)
      requires Valid()
      modifies this`head, this`tail, data
      ensures Valid()
      ensures a.None? <==> !mended && old(GoesWrong(op))
      ensures a.Some? ==> (Queue(), a.value) == QueueOp(old(Queue()), op)
      ensures a.None? ==> Queue() == old(Queue()) && head == old(head) && tail == old(tail)
    {
      hide Live;
      match op
      case Push(x) =>
        var ok := Enqueue(x);
        return Some(Answer(ok, []));
      case Pop =>
        var ok, x := Dequeue();
        return Some(Answer(ok, if ok then [x] else []));
      case PushBulk(xs) =>
        var src := new Byte[|xs|](i requires 0 <= i < |xs| => xs[i]);
        assert src[..] == xs;
        a := PerformPush(src, mended);
      case PopBulk(n) =>
        a := PerformPop(n, mended);
    }

    method PerformPush(src: array<Byte>, mended: bool) returns (a: Option<Answer>)
      requires Valid() && src != data
      modifies this`tail, data
      ensures Valid()
      ensures a.None? <==> !mended && old(GoesWrong(PushBulk(src[..])))
      ensures a.Some? ==> (Queue(), a.value) == QueueOp(old(Queue()), PushBulk(src[..]))
      ensures a.None? ==> Queue() == old(Queue()) && tail == old(tail)
    {
      hide Live;
      assert src[..src.Length] == src[..];
      if mended {
        var ok := EnqueueBulkMin(src, src.Length);
        return Some(Answer(ok, []));
      }
      var status := EnqueueBulk(src, src.Length);
      return match status case Accepted => Some(Answer(true, [])) case Refused => Some(Answer(false, [])) case Undefined => None;
    }

    method PerformPop(n: nat, mended: bool) returns (a: Option<Answer>)
      requires Valid()
      modifies this`head
      ensures Valid()
      ensures a.None? <==> !mended && old(GoesWrong(PopBulk(n)))
      ensures a.Some? ==> (Queue(), a.value) == QueueOp(old(Queue()), PopBulk(n))
      ensures a.None? ==> Queue() == old(Queue()) && head == old(head)
    {
      hide Live;
      var dst := new Byte[n](_ => 0);
      if mended {
        var ok := DequeueBulkMin(dst, n);
        return Some(Answer(ok, if ok then dst[..n] else []));
      }
      var status := DequeueBulk(dst, n);
      return match status case Accepted => Some(Answer(true, dst[..n])) case Refused => Some(Answer(false, [])) case Undefined => None;
    }

    /** Any mix of operations: as coded it answers as the queue does up to the first bulk
        operation that goes wrong; with the smaller split none does. */
    method PerformAll(ops: seq<Op>, mended: bool) returns (out: seq<Byte>, accepted: nat, k: nat)
      requires Valid()
      modifies this`head, this`tail, data
      ensures Valid() && k <= |ops| && (Queue(), out, accepted) == QueueRun(old(Queue()), ops[..k])
      ensures mended ==> k == |ops|
      ensures k < |ops| ==> GoesWrong(ops[k])
    {
      hide Live;
      out, accepted, k := [], 0, 0;
      ghost var q := Queue();
      while k < |ops|
        invariant Valid() && k <= |ops| && (Queue(), out, accepted) == QueueRun(q, ops[..k])
      {
        var a := Perform(ops[k], mended);
        if a.None? { return; }
        assert ops[..k + 1][..k] == ops[..k] && ops[..k + 1][k] == ops[k];
        out, accepted, k := out + a.value.out, if a.value.done then accepted + 1 else accepted, k + 1;
      }
    }
  }

  /** 1000 bytes in and out again and 100 in: now the data wraps, and bulk operations on ten
      bytes are undefined both ways. */
  method SmallBulkAfterWrap() returns (push: Status, pop: Status)
    ensures push == Undefined && pop == Undefined
  {
    hide Live;
    var rb := new RingBuffer();
    var bytes := new Byte[1000](_ => 0);
    var s := rb.EnqueueBulk(bytes, 1000);
    s := rb.DequeueBulk(bytes, 1000);
    s := rb.EnqueueBulk(bytes, 100);
    push := rb.EnqueueBulk(bytes, 10);
    pop := rb.DequeueBulk(bytes, 10);
  }

  /** Writing xs after the live bytes appends them. */
  lemma LivePush(before: seq<Byte>, data: seq<Byte>, head: nat, tail: nat, xs: seq<Byte>)
    requires |before| == |data| == SIZE && head < SIZE && tail < SIZE
    requires |Live(before, head, tail)| + |xs| <= ROOM
    requires forall p :: 0 <= p < SIZE ==>
               data[p] == var j := Wrap(p + SIZE - tail); if j < |xs| then xs[j] else before[p]
    ensures Live(data, head, Wrap(tail + |xs|)) == Live(before, head, tail) + xs
  {
    var q, r := Live(before, head, tail), Live(data, head, Wrap(tail + |xs|));
    forall i | 0 <= i < |r| ensures r[i] == (q + xs)[i] {
      if i >= |q| { assert Wrap(head + i) == Wrap(tail + (i - |q|)); }
    }
  }

  /** Moving the head drops bytes from the front. */
  lemma LivePop(data: seq<Byte>, head: nat, tail: nat, n: nat)
    requires |data| == SIZE && head < SIZE && tail < SIZE && n <= |Live(data, head, tail)|
    ensures Live(data, Wrap(head + n), tail) == Live(data, head, tail)[n..]
  {
  }

  /** Bytes copied out of the ring one after the other are the front of the queue. */
  lemma LiveFront(data: seq<Byte>, head: nat, tail: nat, out: seq<Byte>)
    requires |data| == SIZE && head < SIZE && tail < SIZE && |out| <= |Live(data, head, tail)|
    requires forall i :: 0 <= i < |out| ==> out[i] == data[Wrap(head + i)]
    ensures out == Live(data, head, tail)[..|out|]
  {
  }
}
