/** The growing string buffer of src/sds.c. As it is coded, an append in place neither lowers
    `free` nor writes the final NUL, and emptying a source adds a byte to `free` that is not
    there. The guard, `guarded`, is the version that does all three right. */
module Sds {
  import opened Wrappers

  // ---------- The bookkeeping of free room ----------

  /** Allocated bytes, bytes in use, and room believed to be left. */
  datatype Room = Room(cap: nat, len: nat, free: int)

  /** What is done to a buffer: sdscatlen of n bytes; sdsclear; being the source of sdscatsds;
      sdsrange that keeps n bytes; sdsdump. */
  datatype Use = Put(n: nat) | Wipe | Drain | Keep(n: nat) | Dump

  const FRESH := Room(1, 0, 0)

  /** One byte of the allocation is for the final NUL. */
  predicate Honest(r: Room) { r.cap == r.len + r.free + 1 && r.free >= 0 }

  function NewCap(len: nat): nat { if len < 1024 then 2 * len + 1 else len + 1025 }

  /** None when memory outside the allocation is written or read. */
  function Step(r: Room, u: Use, guarded: bool): Option<Room> {
    match u
    case Put(n) =>
      var len := r.len + n;
      if n > r.free then Some(Room(NewCap(len), len, NewCap(len) - len - 1))
      else if len <= r.cap then Some(Room(r.cap, len, if guarded then r.free - n else r.free))
      else None
    case Wipe => Some(Room(r.cap, 0, r.len + r.free))
    case Drain => Some(Room(r.cap, 0, r.len + r.free + if guarded then 0 else 1))
    case Keep(n) => if n > r.len then Some(r) else if n < r.cap then Some(Room(r.cap, n, r.free + r.len - n)) else None
    case Dump => if r.len + r.free + 1 <= r.cap then Some(r) else None
  }

  function Run(r: Room, uses: seq<Use>, guarded: bool): Option<Room>
  {
    if uses == [] then Some(r)
    else match Run(r, uses[..|uses| - 1], guarded)
      case None => None
      case Some(q) => Step(q, uses[|uses| - 1], guarded)
  }

  /** With the guard every run of uses stays inside the allocation. */
  lemma {:induction false} GuardedInside(r: Room, uses: seq<Use>)
    requires Honest(r)
    ensures Run(r, uses, true).Some? && Honest(Run(r, uses, true).value)
  {
    if uses != [] { GuardedInside(r, uses[..|uses| - 1]); }
  }

  /** What decides without the guard: capacity, length, and `over`, the bytes put in place (and
      the drains) since the buffer last grew. The recorded `free` is not looked at. */
  datatype Ledger = Ledger(cap: nat, len: nat, over: nat)

  function Note(l: Ledger, u: Use): Ledger {
    match u
    case Put(n) =>
      var len := l.len + n;
      if n >= l.cap - l.len + l.over then Ledger(NewCap(len), len, 0) else Ledger(l.cap, len, l.over + n)
    case Wipe => l.(len := 0)
    case Drain => l.(len := 0, over := l.over + 1)
    case Keep(n) => if n > l.len then l else l.(len := n)
    case Dump => l
  }

  function Noted(l: Ledger, uses: seq<Use>): Ledger
  {
    if uses == [] then l else Note(Noted(l, uses[..|uses| - 1]), uses[|uses| - 1])
  }

  /** An append too long for the real room but not for the recorded room; keeping a text that
      fills the allocation; a dump while the recorded room is too large. */
  predicate Harmful(l: Ledger, u: Use) {
    match u
    case Put(n) => l.cap - l.len < n < l.cap - l.len + l.over
    case Keep(n) => n <= l.len && n >= l.cap
    case Dump => l.over > 0
    case _ => false
  }

  predicate Harmless(l: Ledger, uses: seq<Use>) {
    forall i :: 0 <= i < |uses| ==> !Harmful(Noted(l, uses[..i]), uses[i])
  }

  /** As coded, a run stays inside the allocation if and only if none of its uses is harmful
      where it is made. */
  lemma {:induction false} RunInside(r: Room, uses: seq<Use>)
    requires Honest(r)
    ensures Run(r, uses, false).Some? <==> Harmless(Ledger(r.cap, r.len, 0), uses)
    ensures Run(r, uses, false).Some? ==>
              var l := Noted(Ledger(r.cap, r.len, 0), uses);
              Run(r, uses, false).value == Room(l.cap, l.len, l.cap - l.len - 1 + l.over)
  {
    hide Step, Note, Harmful;
    if uses != [] {
      var n := |uses| - 1;
      var init, l0 := uses[..n], Ledger(r.cap, r.len, 0);
      RunInside(r, init);
      assert forall i :: 0 <= i < n ==> uses[..i] == init[..i];
      assert Harmless(l0, uses) <==> Harmless(l0, init) && !Harmful(Noted(l0, init), uses[n]);
      StepNoted(Noted(l0, init), uses[n]);
    }
  }

  lemma StepNoted(l: Ledger, u: Use)
    ensures var q := Step(Room(l.cap, l.len, l.cap - l.len - 1 + l.over), u, false);
            var m := Note(l, u);
            && (q.Some? <==> !Harmful(l, u))
            && (q.Some? ==> q.value == Room(m.cap, m.len, m.cap - m.len - 1 + m.over))
  {
  }

  // ---------- Runs that the server makes ----------

  /** A read buffer in a replay: each message is appended, dumped for decoding, and cleared. */
  function Messages(sizes: seq<nat>): seq<Use>
  {
    if sizes == [] then [] else Messages(sizes[..|sizes| - 1]) + [Put(sizes[|sizes| - 1]), Dump, Wipe]
  }

  /** The same without the dumps, which only read. */
  function Writes(sizes: seq<nat>): seq<Use>
  {
    if sizes == [] then [] else Writes(sizes[..|sizes| - 1]) + [Put(sizes[|sizes| - 1]), Wipe]
  }

  lemma RunMore(r: Room, uses: seq<Use>, u: Use, guarded: bool)
    ensures Run(r, uses + [u], guarded) ==
            match Run(r, uses, guarded) case None => None case Some(q) => Step(q, u, guarded)
  {
    assert (uses + [u])[..|uses|] == uses;
  }

  lemma RunNone(r: Room, guarded: bool)
    ensures Run(r, [], guarded) == Some(r)
  {
  }

  /** As coded, a fresh read buffer serves a sequence of messages without leaving its allocation
      if and only if every message makes it grow: each is more than twice as long as the one
      before (from 1024 bytes on, 1025 longer). */
  lemma {:induction false} MessagesFit(sizes: seq<nat>)
    requires forall i :: 0 <= i < |sizes| ==> sizes[i] > 0
    ensures Run(FRESH, Messages(sizes), false).Some? <==> forall i :: 0 < i < |sizes| ==> sizes[i] >= NewCap(sizes[i - 1])
    ensures Run(FRESH, Messages(sizes), false).Some? && sizes != [] ==>
              var cap := NewCap(sizes[|sizes| - 1]); Run(FRESH, Messages(sizes), false) == Some(Room(cap, 0, cap - 1))
  {
    hide Run, NewCap;
    RunNone(FRESH, false);
    if sizes != [] {
      var n := |sizes| - 1;
      var init, last := sizes[..n], sizes[n];
      MessagesFit(init);
      MessageStep(Messages(init), last);
      assert (forall i :: 0 < i < |sizes| ==> sizes[i] >= NewCap(sizes[i - 1])) <==>
             (forall i :: 0 < i < n ==> init[i] >= NewCap(init[i - 1])) && (n > 0 ==> last >= NewCap(sizes[n - 1]));
    }
  }

  /** One message on a buffer that is empty and honest. */
  lemma MessageStep(uses: seq<Use>, n: nat)
    requires n > 0
    ensures var all := uses + [Put(n), Dump, Wipe];
            match Run(FRESH, uses, false)
            case None => Run(FRESH, all, false) == None
            case Some(q) => q.len == 0 && q.cap == q.free + 1 ==>
              Run(FRESH, all, false) == if n >= q.cap then Some(Room(NewCap(n), 0, NewCap(n) - 1)) else None
  {
    assert uses + [Put(n), Dump, Wipe] == ((uses + [Put(n)]) + [Dump]) + [Wipe];
    hide Run;
    RunMore(FRESH, uses, Put(n), false);
    RunMore(FRESH, uses + [Put(n)], Dump, false);
    RunMore(FRESH, uses + [Put(n)] + [Dump], Wipe, false);
  }

  /** Three messages of 27, 27 and 60 bytes: even the writes alone leave the allocation, the
      third being put in place into 55 bytes. */
  lemma ThreeMessagesOverrun()
    ensures Run(FRESH, Writes([27, 27]), false) == Some(Room(55, 0, 81)) && Run(FRESH, Writes([27, 27, 60]), false) == None
    ensures Run(FRESH, Messages([27, 27, 60]), false) == None
  {
    hide Run, Messages, Writes;
    WriteNone();
    WriteStep([], 27);
    WriteStep([27], 27);
    WriteStep([27, 27], 60);
    assert [] + [27] == [27] && [27] + [27] == [27, 27] && [27, 27] + [60] == [27, 27, 60];
    TooShort([27, 27, 60]);
  }

  lemma TooShort(sizes: seq<nat>)
    requires |sizes| == 3 && sizes[0] > 0 && sizes[1] > 0 && sizes[2] > 0 && sizes[1] < NewCap(sizes[0])
    ensures Run(FRESH, Messages(sizes), false) == None
  {
    hide Run, Messages, NewCap;
    MessagesFit(sizes);
    assert sizes[1] < NewCap(sizes[1 - 1]);
  }

  lemma WriteNone()
    ensures Run(FRESH, Writes([]), false) == Some(FRESH)
  {
  }

  lemma WriteStep(sizes: seq<nat>, n: nat)
    ensures Run(FRESH, Writes(sizes + [n]), false) ==
            match Run(FRESH, Writes(sizes), false)
            case None => None
            case Some(q) => match Step(q, Put(n), false) case None => None case Some(r) => Step(r, Wipe, false)
  {
    hide Run, Step;
    assert (sizes + [n])[..|sizes|] == sizes;
    assert Writes(sizes + [n]) == (Writes(sizes) + [Put(n)]) + [Wipe];
    RunMore(FRESH, Writes(sizes), Put(n), false);
    RunMore(FRESH, Writes(sizes) + [Put(n)], Wipe, false);
  }

  /** A reply buffer that is never emptied. */
  function Puts(sizes: seq<nat>): (uses: seq<Use>)
    ensures |uses| == |sizes|
  {
    seq(|sizes|, i requires 0 <= i < |sizes| => Put(sizes[i]))
  }

  lemma {:induction false} RunPrefix(r: Room, uses: seq<Use>, n: nat, guarded: bool)
    requires n <= |uses| && Run(r, uses[..n], guarded).None?
    ensures Run(r, uses, guarded).None?
    decreases |uses|
  {
    if n < |uses| {
      var init := uses[..|uses| - 1];
      assert init[..n] == uses[..n];
      RunPrefix(r, init, n, guarded);
    } else {
      assert uses[..n] == uses;
    }
  }

  /** As coded, three replies of five bytes are one too many for a fresh buffer. */
  lemma ThreeRepliesOverrun(sizes: seq<nat>)
    requires |sizes| >= 3 && sizes[0] == sizes[1] == sizes[2] == 5
    ensures Run(FRESH, Puts(sizes[..2]), false) == Some(Room(11, 10, 5)) && Run(FRESH, Puts(sizes), false).None?
  {
    var uses := Puts(sizes);
    assert uses[..3][..2] == uses[..2] && uses[..2][..1] == uses[..1] && uses[..1][..0] == [];
    assert Puts(sizes[..2]) == uses[..2];
    assert Run(FRESH, uses[..1], false) == Some(Room(11, 5, 5));
    assert Run(FRESH, uses[..2], false) == Some(Room(11, 10, 5));
    RunPrefix(FRESH, uses, 3, false);
  }

  const CHUNK := 1024

  /** How many bytes the last read of a file of n bytes returns. */
  function LastChunk(n: nat): (r: nat)
    requires n > 0
    ensures 0 < r <= CHUNK && r <= n && (n <= 1024 ==> r == n) && (1024 < n <= 2048 ==> r == n - 1024)
    ensures (2048 < n <= 3072 ==> r == n - 2048) && (n > 3072 ==> n - r >= 3072)
  {
    if n % CHUNK == 0 then CHUNK else n % CHUNK
  }

  /** The file buffer of a replay: n bytes, appended chunk by chunk. */
  function Chunks(n: nat): seq<Use>
  {
    if n == 0 then [] else Chunks(n - LastChunk(n)) + [Put(LastChunk(n))]
  }

  /** As coded, reading a file into a fresh buffer stays inside the allocation if and only if
      the file has at most 2049 bytes. */
  lemma {:induction false} ChunksFit(n: nat)
    ensures Run(FRESH, Chunks(n), false).Some? <==> n <= 2049
    ensures 0 < n <= 1024 ==> Run(FRESH, Chunks(n), false) == Some(Room(NewCap(n), n, NewCap(n) - n - 1))
    ensures 1024 < n <= 2049 ==> Run(FRESH, Chunks(n), false) == Some(Room(2049, n, 1024))
    decreases n
  {
    hide Run, LastChunk;
    RunNone(FRESH, false);
    if n > 0 {
      var last := LastChunk(n);
      ChunksFit(n - last);
      RunMore(FRESH, Chunks(n - last), Put(last), false);
    }
  }

  function Sum(sizes: seq<nat>): nat
  {
    if sizes == [] then 0 else Sum(sizes[..|sizes| - 1]) + sizes[|sizes| - 1]
  }

  /** The file buffer: filled, then cut by the messages taken off its front. */
  function FileUses(n: nat, sizes: seq<nat>): seq<Use>
    requires Sum(sizes) <= n
  {
    if sizes == [] then Chunks(n) else FileUses(n, sizes[..|sizes| - 1]) + [Keep(n - Sum(sizes))]
  }

  /** Cutting never goes wrong; the size of the file alone decides. */
  lemma {:induction false} FileFits(n: nat, sizes: seq<nat>)
    requires Sum(sizes) <= n && forall i :: 0 <= i < |sizes| ==> sizes[i] > 0
    ensures var r := Run(FRESH, FileUses(n, sizes), false);
            && (r.Some? <==> n <= 2049)
            && (r.Some? ==> r.value.len == n - Sum(sizes) && n <= r.value.cap)
  {
    hide Run;
    if sizes == [] {
      ChunksFit(n);
      RunNone(FRESH, false);
    } else {
      var init := sizes[..|sizes| - 1];
      FileFits(n, init);
      RunMore(FRESH, FileUses(n, init), Keep(n - Sum(sizes)), false);
    }
  }

  // ---------- The bytes ----------

  const NUL: char := 0 as char

  /** An allocation with the length and free fields. */
  datatype Buf = Buf(bytes: string, len: nat, free: int)
  {
    predicate Ok() { len <= |bytes| && bytes != "" }
    function Book(): Room { Room(|bytes|, len, free) }
    function Text(): string requires Ok() { bytes[..len] }
    /** The text is followed by its NUL. */
    predicate Ended() { len < |bytes| && bytes[len] == NUL }
    /** Nothing but NUL after the text. */
    predicate Clean() { forall i :: len <= i < |bytes| ==> bytes[i] == NUL }
  }

  function Zeros(n: nat): string { seq(n, i => NUL) }

  predicate Plain(text: string) { NUL !in text }

  /** Where the first NUL is, or the length. */
  function FirstNul(s: string): (n: nat)
    ensures n <= |s| && (n < |s| ==> s[n] == NUL) && forall i :: 0 <= i < n ==> s[i] != NUL
  {
    if s == "" || s[0] == NUL then 0 else 1 + FirstNul(s[1..])
  }

  /** What a reader of C strings finds in the buffer; None when it runs off the allocation. */
  function CRead(b: Buf): Option<string> {
    var n := FirstNul(b.bytes);
    if n < |b.bytes| then Some(b.bytes[..n]) else None
  }

  /** sdscatlen; None when it writes outside the allocation. */
  function Cat(b: Buf, data: string, guarded: bool): (r: Option<Buf>)
    requires b.Ok()
    ensures r.Some? ==> r.value.Ok() && r.value.Text() == b.Text() + data
    ensures if r.Some? then Step(b.Book(), Put(|data|), guarded) == Some(r.value.Book())
            else Step(b.Book(), Put(|data|), guarded) == None
  {
    var n := b.len + |data|;
    if |data| > b.free then
      var grown := Buf(b.Text() + data + Zeros(NewCap(n) - n), n, NewCap(n) - n - 1);
      assert grown.bytes[..n] == b.Text() + data;
      Some(grown)
    else if n <= |b.bytes| then
      var put := b.Text() + data + b.bytes[n..];
      assert put[..n] == b.Text() + data;
      if guarded && n < |put| then
        assert put[n := NUL][..n] == put[..n];
        Some(Buf(put[n := NUL], n, b.free - |data|))
      else Some(Buf(put, n, if guarded then b.free - |data| else b.free))
    else None
  }

  /** sdsclear */
  function Clear(b: Buf): (r: Buf)
    requires b.Ok()
    ensures r.Ok() && r.Text() == "" && Step(b.Book(), Wipe, false) == Some(r.Book())
  {
    Buf(Zeros(b.len) + b.bytes[b.len..], 0, b.len + b.free)
  }

  /** sdscatsds leaves its source like this: only the first byte is overwritten. */
  function Drained(b: Buf, guarded: bool): (r: Buf)
    requires b.Ok()
    ensures r.Ok() && r.Text() == "" && Step(b.Book(), Drain, guarded) == Some(r.Book())
  {
    Buf(b.bytes[0 := NUL], 0, b.len + b.free + if guarded then 0 else 1)
  }

  /** For a text without NUL, the C reader finds the text if and only if its NUL is there. */
  lemma CReadIff(b: Buf)
    requires b.Ok() && Plain(b.Text())
    ensures CRead(b) == Some(b.Text()) <==> b.Ended()
  {
    assert forall i :: 0 <= i < b.len ==> b.bytes[i] == b.Text()[i];
    if b.Ended() {
      assert FirstNul(b.bytes) == b.len;
    }
  }

  /** With the guard a buffer keeps its NUL through appends, clears and drains. */
  lemma GuardedEnded(b: Buf, data: string)
    requires b.Ok() && b.Ended() && Honest(b.Book())
    ensures Cat(b, data, true).Some? && Cat(b, data, true).value.Ended() && Honest(Cat(b, data, true).value.Book())
    ensures Clear(b).Ended() && Honest(Clear(b).Book())
    ensures Drained(b, true).Ended() && Honest(Drained(b, true).Book())
  {
  }

  /** As coded, appends and clears alone leave nothing but NUL after the text; so on such a
      buffer a C reader goes wrong only when the text fills the allocation. */
  lemma CleanKept(b: Buf, data: string)
    requires b.Ok() && b.Clean()
    ensures Cat(b, data, false).Some? ==> Cat(b, data, false).value.Clean()
    ensures Clear(b).Clean()
    ensures Plain(b.Text()) ==> (CRead(b) == Some(b.Text()) <==> b.len < |b.bytes|)
  {
    if Plain(b.Text()) { CReadIff(b); }
  }

  /** An append in place, byte by byte. */
  lemma CatInPlace(b: Buf, data: string)
    requires b.Ok() && |data| <= b.free && b.len + |data| <= |b.bytes|
    ensures var r := Cat(b, data, false);
            && r.Some? && r.value.len == b.len + |data| && r.value.free == b.free && |r.value.bytes| == |b.bytes|
            && forall i :: 0 <= i < |b.bytes| ==>
                 r.value.bytes[i] == if b.len <= i < b.len + |data| then data[i - b.len] else b.bytes[i]
  {
  }

  lemma CatGrows(b: Buf, data: string)
    requires b.Ok() && |data| > b.free
    ensures var r, n := Cat(b, data, false), b.len + |data|;
            r.Some? && r.value.len == n && |r.value.bytes| == NewCap(n) && r.value.free == NewCap(n) - n - 1
  {
  }

  lemma DrainedAt(b: Buf)
    requires b.Ok()
    ensures var r := Drained(b, false);
            && r.len == 0 && r.free == b.len + b.free + 1 && |r.bytes| == |b.bytes|
            && forall i :: 0 <= i < |b.bytes| ==> r.bytes[i] == if i == 0 then NUL else b.bytes[i]
  {
  }

  lemma ClearAt(b: Buf)
    requires b.Ok()
    ensures var r := Clear(b);
            && r.len == 0 && r.free == b.len + b.free && |r.bytes| == |b.bytes|
            && forall i :: 0 <= i < |b.bytes| ==> r.bytes[i] == if i < b.len then NUL else b.bytes[i]
  {
  }

  lemma FirstNulIs(s: string, n: nat)
    requires n < |s| && s[n] == NUL && forall i :: 0 <= i < n ==> s[i] != NUL
    ensures FirstNul(s) == n
  {
  }

  /** A clean buffer with text x is drained; z is appended in place and cleared; then y is
      appended in place. The C reader finds y if and only if y reaches past x, or ends inside
      the part that z's clear has zeroed; otherwise it finds y with the tail of x after it. */
  lemma StaleTail(b: Buf, z: string, y: string)
    requires b.Ok() && b.Clean() && Plain(b.Text()) && Plain(z) && Plain(y) && y != ""
    requires b.len + 2 <= |b.bytes| && b.free >= 0
    requires |z| + 1 <= |b.bytes| && |y| + 1 <= |b.bytes| && |z| <= b.len + b.free && |y| <= b.len + b.free
    ensures var b2 := Cat(Drained(b, false), z, false);
            && b2.Some?
            && var b3 := Cat(Clear(b2.value), y, false);
               && b3.Some? && b3.value.Text() == y
               && var stale := |y| < b.len && |z| <= |y|;
                  CRead(b3.value) == Some(if stale then y + b.Text()[|y|..] else y)
  {
    hide Cat, Clear, Drained, FirstNul;
    var x, d := b.Text(), Drained(b, false);
    DrainedAt(b);
    CatInPlace(d, z);
    var b2 := Cat(d, z, false).value;
    ClearAt(b2);
    CatInPlace(Clear(b2), y);
    var b3 := Cat(Clear(b2), y, false).value;
    assert forall i :: 0 <= i < |b3.bytes| ==>
             b3.bytes[i] == if i < |y| then y[i] else if i < |z| then NUL else b.bytes[i];
    assert forall i :: 0 <= i < b.len ==> b.bytes[i] == x[i];
    var n := if |y| < b.len && |z| <= |y| then b.len else |y|;
    FirstNulIs(b3.bytes, n);
    assert b3.bytes[..n] == if n == |y| then y else y + x[|y|..];
    assert b3.Text() == y;
  }

  /** Appended over a drained text that is not longer, a text leaves the buffer clean again. */
  lemma OverDrained(b: Buf, y: string)
    requires b.Ok() && b.Clean() && b.len <= |y| <= b.len + b.free && 0 < |y| <= |b.bytes|
    ensures var r := Cat(Drained(b, false), y, false);
            r.Some? && r.value.Clean() && r.value.Text() == y && r.value.free == b.len + b.free + 1 && |r.value.bytes| == |b.bytes|
  {
    hide Cat, Drained;
    DrainedAt(b);
    CatInPlace(Drained(b, false), y);
    var r := Cat(Drained(b, false), y, false).value;
    assert r.Text() == y by { assert Drained(b, false).Text() == ""; }
  }

  /** A client's read buffer, as coded, through MULTI, a write and another command (both queued)
      and EXEC, up to the moment the queued write is executed from it. */
  function QueueBuffer(multi: string, write: string, other: string, exec: string): (r: Option<Buf>)
    ensures r.Some? ==> r.value.Ok()
  {
    var b0 := Cat(Buf([NUL], 0, 0), multi, false);
    if b0.None? then None else
    var b1 := Cat(Clear(b0.value), write, false);
    if b1.None? then None else
    var b2 := Cat(Drained(b1.value, false), other, false);
    if b2.None? then None else
    var b3 := Cat(Drained(b2.value, false), exec, false);
    if b3.None? then None else Cat(Clear(b3.value), write, false)
  }

  /** A C reader of that buffer finds the write with the tail of a longer other command. */
  lemma QueuedTail(multi: string, write: string, other: string, exec: string)
    requires Plain(multi) && Plain(write) && Plain(other) && Plain(exec)
    requires 0 < |multi| < 1024 && |exec| <= |write| < |other| <= 2 * |multi| - 1 && write != ""
    ensures var b := QueueBuffer(multi, write, other, exec);
            b.Some? && b.value.Text() == write && CRead(b.value) == Some(write + other[|write|..])
  {
    hide Cat, Clear, Drained, CRead;
    var b := Buf([NUL], 0, 0);
    CleanKept(b, multi);
    CatGrows(b, multi);
    var b0 := Cat(b, multi, false).value;
    CleanKept(b0, "");
    ClearAt(b0);
    var c := Clear(b0);
    CleanKept(c, write);
    CatInPlace(c, write);
    var b1 := Cat(c, write, false).value;
    OverDrained(b1, other);
    var b2 := Cat(Drained(b1, false), other, false).value;
    assert b2.len == |other| by { DrainedAt(b1); CatInPlace(Drained(b1, false), other); }
    StaleTail(b2, exec, write);
  }

  lemma CatCases(b: Buf, data: string, guarded: bool)
    requires b.Ok()
    ensures Cat(b, data, guarded).None? <==> |data| <= b.free && b.len + |data| > |b.bytes|
  {
  }

  // ---------- The buffer in memory ----------

  /** The ends of a signed range, as sdsrange resolves them. */
  function Resolve(i: int, len: nat): int { if i < 0 then len + i else i }

  /** Position k counts from the front, and -1 - k from the last byte. */
  lemma ResolveEnds(k: nat, len: nat)
    ensures Resolve(k, len) == k && Resolve(-1 - k, len) == len - 1 - k
  {
  }

  class Sds {
    const guarded: bool
    var buf: array<char>
    var len: nat
    var free: int

    ghost predicate Valid() reads this { len <= buf.Length && buf.Length > 0 && free >= 0 }

    /** The buffer as a value. */
    ghost function Model(): Buf reads this, buf { Buf(buf[..], len, free) }

    ghost function Text(): string
      reads this, buf
      requires Valid()
    {
      buf[..len]
    }

    /** With the guard: room counted right, and the NUL in place. */
    ghost predicate Safe() reads this, buf { guarded && Valid() && Honest(Model().Book()) && Model().Ended() }

    /** _sdsnewWithLen */
    constructor (init: string, guarded: bool)
      ensures Valid() && Text() == init && Honest(Model().Book()) && Model().Clean() && this.guarded == guarded
      ensures guarded ==> Safe()
      ensures fresh(buf)
    {
      this.guarded := guarded;
      buf := new char[NewCap(|init|)](i => if 0 <= i < |init| then init[i] else NUL);
      len := |init|;
      free := NewCap(|init|) - |init| - 1;
      new;
      assert buf[..len] == init;
    }

    /** The part of sdscatlen that needs more room. */
    method Grow(data: string)
      requires Valid() && |data| > free
      modifies this
      ensures Valid() && fresh(buf) && Cat(old(Model()), data, guarded) == Some(Model())
    {
      var n := len + |data|;
      var bytes := buf[..len] + data + Zeros(NewCap(n) - n);
      buf := new char[NewCap(n)](i requires 0 <= i < NewCap(n) => bytes[i]);
      assert buf[..] == bytes;
      free := NewCap(n) - n - 1;
      len := n;
    }

    /** The part of sdscatlen that copies into the room there is. */
    method PutInPlace(data: string)
      requires Valid() && |data| <= free && len + |data| <= buf.Length
      modifies this`len, this`free, buf
      ensures Valid() && Cat(old(Model()), data, guarded) == Some(Model())
    {
      var n := len + |data|;
      ghost var was := Model();
      forall i | 0 <= i < |data| { buf[len + i] := data[i]; }
      assert buf[..] == was.bytes[..len] + data + was.bytes[n..];
      if guarded {
        free := free - |data|;
        if n < buf.Length { buf[n] := NUL; }
      }
      len := n;
    }

    /** sdscatlen; false when the copy would leave the allocation. */
    method CatLen(data: string) returns (ok: bool)
      requires Valid()
      modifies this, buf
      ensures Valid() && (buf == old(buf) || fresh(buf))
      ensures match Cat(old(Model()), data, guarded)
              case Some(b) => ok && Model() == b
              case None => !ok && Model() == old(Model())
      ensures old(Safe()) ==> ok && Safe()
      ensures ok ==> Text() == old(Text()) + data
    {
      hide Cat, Honest;
      if Safe() { GuardedEnded(Model(), data); }
      CatCases(Model(), data, guarded);
      if |data| > free {
        Grow(data);
      } else {
        if len + |data| > buf.Length { return false; }
        PutInPlace(data);
      }
      return true;
    }

    /** sdsclear */
    method Wipe()
      requires Valid()
      modifies this`len, this`free, buf
      ensures Valid() && Model() == Clear(old(Model())) && Text() == ""
      ensures old(Safe()) ==> Safe()
    {
      if old(Safe()) { GuardedEnded(Model(), ""); }
      free := len + free;
      forall i | 0 <= i < len { buf[i] := NUL; }
      len := 0;
    }

    /** sdscatsds: the source ends up empty. */
    method CatSds(src: Sds) returns (ok: bool)
      requires Valid() && src.Valid() && src != this && src.buf != buf
      modifies this, buf, src`len, src`free, src.buf
      ensures Valid() && src.Valid()
      ensures match Cat(old(Model()), old(src.Text()), guarded)
              case Some(b) => ok && Model() == b && src.Model() == Drained(old(src.Model()), src.guarded)
              case None => !ok && Model() == old(Model()) && src.Model() == old(src.Model())
      ensures ok ==> Text() == old(Text() + src.Text()) && src.Text() == ""
      ensures old(Safe() && src.Safe()) ==> ok && Safe() && src.Safe()
    {
      ghost var was := src.Model();
      ok := CatLen(src.buf[..src.len]);
      if !ok { return; }
      if old(src.Safe()) { GuardedEnded(was, ""); }
      src.free := src.len + src.free + if src.guarded then 0 else 1;
      src.len := 0;
      src.buf[0] := NUL;
      assert src.buf[..] == was.bytes[0 := NUL];
    }

    /** sdsrange: keeps [start, end], both signed; nothing happens when they leave the string.
        False when the new length is negative, or the NUL does not fit. */
    method Range(start: int, end: int) returns (ok: bool)
      requires Valid()
      modifies this`len, this`free, buf
      ensures Valid()
      ensures var a, b := Resolve(start, old(len)), Resolve(end, old(len));
              if a < 0 || b >= old(len) then ok && Model() == old(Model())
              else
                && (ok <==> a <= b + 1 < buf.Length + a)
                && (ok ==> Text() == old(Text())[a..b + 1] && Model().Ended() && len + free == old(len + free))
                && (!ok ==> Model() == old(Model()))
      ensures old(Safe()) ==> Safe()
    {
      var a := Resolve(start, len);
      var b := Resolve(end, len);
      if a < 0 || b >= len { return true; }
      var n := b - a + 1;
      if n < 0 || n >= buf.Length { return false; }
      ghost var kept := Text()[a..b + 1];
      forall i | 0 <= i < n { buf[i] := buf[a + i]; }
      assert forall i :: 0 <= i < n ==> buf[i] == kept[i];
      buf[n] := NUL;
      free := free + len - n;
      len := n;
      assert buf[..n] == kept;
      return true;
    }

    /** sdsdump copies all the room that is recorded; None when that is more than there is. */
    method Dump() returns (copy: Sds?)
      requires Valid()
      ensures copy != null <==> Step(Model().Book(), Use.Dump, guarded).Some?
      ensures copy != null ==> fresh(copy) && fresh(copy.buf) && copy.Valid() && copy.Text() == Text() && copy.free == free
      ensures Safe() ==> copy != null
    {
      if len + free + 1 > buf.Length { return null; }
      copy := new Sds("", guarded);
      copy.Copy(this);
    }

    method Copy(src: Sds)
      requires Valid() && src.Valid() && src != this && src.len + src.free + 1 <= src.buf.Length
      modifies this
      ensures Valid() && Text() == src.Text() && free == src.free && fresh(buf)
    {
      var bytes := src.buf[..];
      buf := new char[src.len + src.free + 1](i requires 0 <= i < |bytes| => bytes[i]);
      len, free := src.len, src.free;
    }
  }
}
