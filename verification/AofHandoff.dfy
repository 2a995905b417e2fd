/** The append-only log between the main thread and the flush thread: two buffers that are
    swapped under a mutex which the main thread does not take. */
module AofHandoff {
  import opened Wrappers

  /** Where the flush thread stands in its loop. */
  datatype Phase = Waiting | Swapped | Written | Cleared

  /** `bufs.0` and `bufs.1` are the two buffers, `active` the index the main thread appends to.
      `held` is the buffer pointer the main thread has read but not yet appended through.
      `history` is every byte ever appended, in order. */
  datatype Log = Log(file: string, bufs: (string, string), active: bool, held: Option<bool>,
                     isAofing: bool, phase: Phase, history: string)

  datatype Action =
    | LoadPointer                // main thread evaluates server->aof.active_buf
    | Append(bytes: string)      // main thread appends through the pointer it holds
    | Swap | Write(n: nat) | Clear | Flag   // flush thread; write() may be short

  function Buf(l: Log, which: bool): string { if which then l.bufs.1 else l.bufs.0 }

  function SetBuf(l: Log, which: bool, s: string): Log {
    l.(bufs := if which then (l.bufs.0, s) else (s, l.bufs.1))
  }

  function ActiveBuf(l: Log): string { Buf(l, l.active) }

  function IoBuf(l: Log): string { Buf(l, !l.active) }

  /** needAOF: the time test always passes, as the time of the last flush is never updated. */
  predicate NeedAof(l: Log) { !l.isAofing && ActiveBuf(l) != "" }

  predicate Enabled(l: Log, a: Action) {
    match a
    case LoadPointer => l.held.None?
    case Append(_) => l.held.Some?
    case Swap => l.phase.Waiting? && NeedAof(l)
    case Write(n) => l.phase.Swapped? && n <= |IoBuf(l)|
    case Clear => l.phase.Written?
    case Flag => l.phase.Cleared?
  }

  function Step(l: Log, a: Action): Log
    requires Enabled(l, a)
  {
    match a
    case LoadPointer => l.(held := Some(l.active))
    case Append(bytes) =>
      SetBuf(l, l.held.value, Buf(l, l.held.value) + bytes).(held := None, history := l.history + bytes)
    case Swap => l.(isAofing := true, active := !l.active, phase := Swapped)
    case Write(n) => l.(file := l.file + IoBuf(l)[..n], phase := Written)
    case Clear => SetBuf(l, !l.active, "").(phase := Cleared)
    case Flag => l.(isAofing := false, phase := Waiting)
  }

  const START := Log("", ("", ""), false, None, false, Waiting, "")

  /** Bytes handed to the flush thread that are not in the file yet. */
  function Unwritten(l: Log): string { if l.phase.Swapped? then IoBuf(l) else "" }

  /** The main thread holds a pointer to a buffer that has been swapped away. */
  predicate Stale(l: Log) { l.held.Some? && l.held.value != l.active }

  /** File, then unwritten bytes, then active buffer, are the history; the other buffer is
      empty unless a flush is under way. */
  predicate Agrees(l: Log) {
    && l.file + Unwritten(l) + ActiveBuf(l) == l.history
    && (l.phase.Waiting? || l.phase.Cleared? ==> IoBuf(l) == "")
    && (l.isAofing <==> !l.phase.Waiting?)
    && (Stale(l) ==> ActiveBuf(l) == "")
  }

  /** The two ways the hand-off goes wrong: a late append through a stale pointer, and a
      short write. Both can be seen before the step. */
  predicate Harmful(l: Log, a: Action) {
    match a
    case Append(bytes) => Stale(l) && !l.phase.Swapped? && bytes != ""
    case Write(n) => n < |IoBuf(l)|
    case _ => false
  }

  /** Exactly the harmless steps keep the log in agreement with the history. */
  lemma StepAgrees(l: Log, a: Action)
    requires Agrees(l) && Enabled(l, a)
    ensures Agrees(Step(l, a)) <==> !Harmful(l, a)
  {
    var t := Step(l, a);
    match a
    case Append(bytes) =>
      if !Stale(l) {
        assert l.file + Unwritten(l) + (ActiveBuf(l) + bytes) == l.file + Unwritten(l) + ActiveBuf(l) + bytes;
      } else if l.phase.Swapped? {
        assert l.file + (IoBuf(l) + bytes) + "" == l.file + IoBuf(l) + "" + bytes;
      } else if bytes != "" {
        assert |t.file + Unwritten(t) + ActiveBuf(t)| < |t.history|;
      }
    case Write(n) =>
      if n == |IoBuf(l)| {
        assert IoBuf(l)[..n] == IoBuf(l);
        assert t.file + "" + ActiveBuf(t) == l.history;
      } else {
        assert |t.file + Unwritten(t) + ActiveBuf(t)| < |t.history|;
      }
    case Swap => assert l.file + "" + ActiveBuf(l) == t.file + IoBuf(t) + "";
    case _ =>
  }

  /** A run: every action enabled where it is taken. */
  predicate Possible(l: Log, actions: seq<Action>)
    decreases |actions|
  {
    actions == [] || (Enabled(l, actions[0]) && Possible(Step(l, actions[0]), actions[1..]))
  }

  function After(l: Log, actions: seq<Action>): Log
    requires Possible(l, actions)
    decreases |actions|
  {
    if actions == [] then l else After(Step(l, actions[0]), actions[1..])
  }

  /** No step of the run is harmful where it is taken. */
  predicate Harmless(l: Log, actions: seq<Action>)
    requires Possible(l, actions)
    decreases |actions|
  {
    actions == [] || (!Harmful(l, actions[0]) && Harmless(Step(l, actions[0]), actions[1..]))
  }

  /** The round of the flush thread: swap, write all, clear, flag. */
  function Round(l: Log): seq<Action> { [Swap, Write(|ActiveBuf(l)|), Clear, Flag] }

  /** A round starts exactly when there is something to write; with no append between it brings
      the whole history into the file and leaves both buffers empty. */
  lemma RoundWritesAll(l: Log)
    requires Agrees(l) && l.phase.Waiting?
    ensures Enabled(l, Swap) <==> l.file != l.history
    ensures Enabled(l, Swap) ==>
              && Possible(l, Round(l))
              && var t := After(l, Round(l));
                 t.file == t.history == l.history && t.bufs == ("", "") && t.phase.Waiting? && !t.isAofing
  {
    assert l.file + "" + ActiveBuf(l) == l.history;
    if Enabled(l, Swap) {
      var a := Step(l, Swap);
      var b := Step(a, Write(|ActiveBuf(l)|));
      var c := Step(b, Clear);
      var d := Step(c, Flag);
      assert IoBuf(a)[..|ActiveBuf(l)|] == ActiveBuf(l);
      var round := Round(l);
      assert Possible(d, round[4..]) && After(d, round[4..]) == d;
      assert round[3..][1..] == round[4..] && Possible(c, round[3..]) && After(c, round[3..]) == d;
      assert round[2..][1..] == round[3..] && Possible(b, round[2..]) && After(b, round[2..]) == d;
      assert round[1..][1..] == round[2..] && Possible(a, round[1..]) && After(a, round[1..]) == d;
    } else if ActiveBuf(l) == "" {
      assert l.file + "" + "" == l.file;
    }
  }

  /** Every interleaving without a harmful step agrees with the append history, and at a
      crash, even in the middle of a write, the file is a prefix of it. */
  lemma {:induction false} RunAgrees(l: Log, actions: seq<Action>, torn: nat)
    requires Agrees(l) && Possible(l, actions) && Harmless(l, actions)
    requires torn <= |Unwritten(After(l, actions))|
    ensures var t := After(l, actions);
            Agrees(t) && t.file + Unwritten(t)[..torn] <= t.history
    decreases |actions|
  {
    if actions == [] {
      assert l.history == (l.file + Unwritten(l)[..torn]) + (Unwritten(l)[torn..] + ActiveBuf(l));
    } else {
      StepAgrees(l, actions[0]);
      RunAgrees(Step(l, actions[0]), actions[1..], torn);
    }
  }

  /** The main thread reads the pointer and appends without a swap in between. */
  predicate Atomic(actions: seq<Action>)
    decreases |actions|
  {
    match |actions|
    case 0 => true
    case _ =>
      if actions[0].LoadPointer? then |actions| == 1 || (actions[1].Append? && Atomic(actions[2..]))
      else !actions[0].Append? && Atomic(actions[1..])
  }

  /** All writes of the run complete. */
  predicate FullWrites(l: Log, actions: seq<Action>)
    requires Possible(l, actions)
    decreases |actions|
  {
    actions == [] ||
    ((actions[0].Write? ==> actions[0].n == |IoBuf(l)|) && FullWrites(Step(l, actions[0]), actions[1..]))
  }

  /** With atomic appends and complete writes nothing is harmful, whatever the interleaving. */
  lemma {:induction false} AtomicHarmless(l: Log, actions: seq<Action>)
    requires l.held.None? && Possible(l, actions) && Atomic(actions) && FullWrites(l, actions)
    ensures Harmless(l, actions)
    decreases |actions|
  {
    if actions != [] {
      var l1 := Step(l, actions[0]);
      if actions[0].LoadPointer? {
        if |actions| > 1 {
          assert actions[1..][0] == actions[1] && actions[1..][1..] == actions[2..];
          AtomicHarmless(Step(l1, actions[1]), actions[2..]);
        }
      } else {
        AtomicHarmless(l1, actions[1..]);
      }
    }
  }

  /** Without atomicity a logged command can vanish: swapped and written between the main
      thread's two steps, then cleared. */
  lemma LateAppendLost()
    ensures var run := [LoadPointer, Append("a"), LoadPointer, Swap, Write(1), Append("b"), Clear, Flag];
            Possible(START, run) && After(START, run).file == "a" &&
            After(START, run).bufs == ("", "") && After(START, run).history == "ab"
  {
    var l1 := Step(START, LoadPointer);
    var l2 := Step(l1, Append("a"));
    var l3 := Step(l2, LoadPointer);
    var l4 := Step(l3, Swap);
    var l5 := Step(l4, Write(1));
    var l6 := Step(l5, Append("b"));
    var l7 := Step(l6, Clear);
    var l8 := Step(l7, Flag);
    assert After(l7, [Flag]) == l8;
    assert After(l6, [Clear, Flag]) == l8;
    assert After(l5, [Append("b"), Clear, Flag]) == l8;
    assert After(l4, [Write(1), Append("b"), Clear, Flag]) == l8;
    assert After(l3, [Swap, Write(1), Append("b"), Clear, Flag]) == l8;
    assert After(l2, [LoadPointer, Swap, Write(1), Append("b"), Clear, Flag]) == l8;
    assert After(l1, [Append("a"), LoadPointer, Swap, Write(1), Append("b"), Clear, Flag]) == l8;
  }
}
