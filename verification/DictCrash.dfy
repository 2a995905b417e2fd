/** Exactly which runs of calls crash a dictionary, deletes included. */
module DictCrash {
  import opened Wrappers
  import opened DictSpec
  import opened DictLaws
  import opened DictRuns

  /** The call deletes the last entry of ht[0] while, after its rehash step, the rehash is on. */
  predicate LeavesStuck<V>(d: Dict<V>, op: Op<V>) {
    op.DeleteOp? &&
    match StepIfRehashing(ExpandIfNeed(d))
    case None => false
    case Some(s) => s.Rehashing() && s.ht0.used == 1 && At(s.ht0, s.hash, op.k).Some?
  }

  /** Whether the call takes a rehash step when a rehash is on, judged by the map held. */
  predicate MapNeedsStep<V>(m: map<Key, V>, op: Op<V>) {
    match op
    case AddOp(k, _) => k !in m
    case FetchOp(_) => true
    case DeleteOp(_) => true
    case _ => false
  }

  lemma NeedsStepSame<V>(d: Dict<V>, m: map<Key, V>, op: Op<V>)
    requires Represents(d, m)
    ensures NeedsStep(d, op) <==> MapNeedsStep(m, op)
  {
    hide Valid, Lookup, Find;
    FindIsLookup(d, op.k);
    assert Get(m, op.k) == Lookup(d, op.k);
  }

  /** A call on a dictionary that is not stuck leaves it stuck exactly in that case. */
  lemma OpStuckIff<V>(d: Dict<V>, op: Op<V>)
    requires Valid(d) && !Stuck(d)
    ensures DictOp(d, op).Some? && Valid(DictOp(d, op).value.0)
    ensures Stuck(DictOp(d, op).value.0) <==> LeavesStuck(d, op)
  {
    hide Valid, Lookup, Delete, Stuck, StepIfRehashing, ExpandIfNeed, At;
    if op.DeleteOp? {
      DeleteOk(d, op.k);
      DeleteSteps(d, op.k);
    } else {
      OpUnstuck(d, op);
    }
  }

  lemma DeleteSteps<V>(d: Dict<V>, k: Key)
    ensures Delete(d, k).Did? <==> StepIfRehashing(ExpandIfNeed(d)).Some?
  {
    hide ExpandIfNeed, StepIfRehashing, PlaceOf;
  }

  /** A stuck dictionary stays stuck until a call needs a step, and that call crashes. */
  lemma StuckOp<V>(d: Dict<V>, m: map<Key, V>, op: Op<V>)
    requires Represents(d, m) && Stuck(d)
    ensures DictOp(d, op).None? <==> MapNeedsStep(m, op)
    ensures DictOp(d, op).Some? ==> Stuck(DictOp(d, op).value.0)
  {
    hide Valid, Lookup, Find, Fetch, Delete;
    OpRefines(d, m, op);
    NeedsStepSame(d, m, op);
    RepresentsValid(d, m);
    if op.ReplaceOp? { ReplaceOk(d, op.k, op.v); }
  }

  /** Some later call needs a step. */
  ghost predicate StepComes<V>(m: map<Key, V>, ops: seq<Op<V>>) {
    exists j :: 0 <= j < |ops| && MapNeedsStep(MapRun(m, ops[..j]).0, ops[j])
  }

  lemma MapRunFirst<V>(m: map<Key, V>, ops: seq<Op<V>>, j: nat)
    requires 0 < j <= |ops|
    ensures MapRun(m, ops[..j]).0 == MapRun(MapOp(m, ops[0]).0, ops[1..][..j - 1]).0
  {
    hide MapOp;
    assert ops[..j][1..] == ops[1..][..j - 1];
  }

  lemma StepComesFirst<V>(m: map<Key, V>, ops: seq<Op<V>>)
    requires ops != []
    ensures StepComes(m, ops) <==> MapNeedsStep(m, ops[0]) || StepComes(MapOp(m, ops[0]).0, ops[1..])
  {
    hide MapOp, MapNeedsStep, MapRun;
    var m1, rest := MapOp(m, ops[0]).0, ops[1..];
    assert MapRun(m, ops[..0]).0 == m by { MapRunNothing(m); }
    if StepComes(m, ops) {
      var j :| 0 <= j < |ops| && MapNeedsStep(MapRun(m, ops[..j]).0, ops[j]);
      if j > 0 {
        MapRunFirst(m, ops, j);
        assert rest[j - 1] == ops[j];
      }
    }
    if StepComes(m1, rest) {
      var j :| 0 <= j < |rest| && MapNeedsStep(MapRun(m1, rest[..j]).0, rest[j]);
      MapRunFirst(m, ops, j + 1);
      assert ops[j + 1] == rest[j];
    }
  }

  lemma MapRunNothing<V>(m: map<Key, V>)
    ensures MapRun(m, []) == (m, [])
  {
  }

  lemma {:induction false} StuckRun<V>(d: Dict<V>, m: map<Key, V>, ops: seq<Op<V>>)
    requires Represents(d, m) && Stuck(d) && Valid(d)
    ensures DictRun(d, ops).None? <==> StepComes(m, ops)
    decreases |ops|
  {
    hide DictOp, MapOp, Represents, Valid, Stuck, StepComes, MapNeedsStep;
    if ops == [] {
      NoStepComes(m);
    } else {
      StuckOp(d, m, ops[0]);
      OpRefines(d, m, ops[0]);
      StepComesFirst(m, ops);
      OpValid(d, ops[0]);
      if DictOp(d, ops[0]).Some? { StuckRun(DictOp(d, ops[0]).value.0, MapOp(m, ops[0]).0, ops[1..]); }
    }
  }

  lemma NoStepComes<V>(m: map<Key, V>)
    ensures !StepComes(m, [])
  {
  }

  /** Call i deletes the last entry of ht[0] while the rehash is on, and call j needs a step. */
  ghost predicate DoomedAt<V>(d: Dict<V>, m: map<Key, V>, ops: seq<Op<V>>, i: nat, j: nat)
    requires Valid(d) && i < j < |ops|
  {
    && DictRun(d, ops[..i]).Some? && LeavesStuck(DictRun(d, ops[..i]).value.0, ops[i])
    && MapNeedsStep(MapRun(m, ops[..j]).0, ops[j])
  }

  /** Some delete of the run takes the last entry of ht[0] while the rehash is on, and some later
      call needs a step. */
  ghost predicate Doomed<V>(d: Dict<V>, m: map<Key, V>, ops: seq<Op<V>>)
    requires Valid(d)
  {
    exists i, j :: 0 <= i < j < |ops| && DoomedAt(d, m, ops, i, j)
  }

  /** A run from a dictionary that is not stuck crashes if and only if it is doomed. */
  lemma {:induction false} RunCrashesIff<V>(d: Dict<V>, m: map<Key, V>, ops: seq<Op<V>>)
    requires Represents(d, m) && !Stuck(d) && Valid(d)
    ensures DictRun(d, ops).None? <==> Doomed(d, m, ops)
    decreases |ops|
  {
    hide DictOp, MapOp, Represents, Valid, Stuck, StepComes, Doomed, LeavesStuck;
    if ops == [] {
      NotDoomed(d, m);
    } else {
      OpStuckIff(d, ops[0]);
      OpRefines(d, m, ops[0]);
      DoomedFirst(d, m, ops);
      var e, n := DictOp(d, ops[0]).value.0, MapOp(m, ops[0]).0;
      if Stuck(e) { StuckRun(e, n, ops[1..]); } else { RunCrashesIff(e, n, ops[1..]); }
    }
  }

  lemma NotDoomed<V>(d: Dict<V>, m: map<Key, V>)
    requires Valid(d)
    ensures !Doomed(d, m, [])
  {
  }

  lemma DoomedLater<V>(d: Dict<V>, m: map<Key, V>, ops: seq<Op<V>>, i: nat, j: nat)
    requires Valid(d) && 0 < i < j < |ops| && DictOp(d, ops[0]).Some? && Valid(DictOp(d, ops[0]).value.0)
    ensures DoomedAt(d, m, ops, i, j) <==>
            DoomedAt(DictOp(d, ops[0]).value.0, MapOp(m, ops[0]).0, ops[1..], i - 1, j - 1)
  {
    hide DictOp, MapOp, MapRun, DictRun, Valid, LeavesStuck, MapNeedsStep;
    MapRunFirst(m, ops, j);
    RunFirst(d, ops, i);
    assert ops[1..][i - 1] == ops[i] && ops[1..][j - 1] == ops[j];
  }

  lemma DoomedNow<V>(d: Dict<V>, m: map<Key, V>, ops: seq<Op<V>>, j: nat)
    requires Valid(d) && 0 < j < |ops|
    ensures DoomedAt(d, m, ops, 0, j) <==>
            LeavesStuck(d, ops[0]) && MapNeedsStep(MapRun(MapOp(m, ops[0]).0, ops[1..][..j - 1]).0, ops[1..][j - 1])
  {
    hide DictOp, MapOp, MapRun, DictRun, Valid, LeavesStuck, MapNeedsStep;
    MapRunFirst(m, ops, j);
    RunNothing(d);
    assert ops[..0] == [] && ops[1..][j - 1] == ops[j];
  }

  lemma DoomedStuck<V>(d: Dict<V>, m: map<Key, V>, ops: seq<Op<V>>)
    requires Valid(d) && ops != [] && LeavesStuck(d, ops[0]) && DictOp(d, ops[0]).Some? && Valid(DictOp(d, ops[0]).value.0)
    ensures Doomed(d, m, ops) <==> StepComes(MapOp(m, ops[0]).0, ops[1..])
  {
    hide DictOp, MapOp, MapRun, DictRun, Valid, LeavesStuck, MapNeedsStep, DoomedAt;
    var n, rest := MapOp(m, ops[0]).0, ops[1..];
    if Doomed(d, m, ops) {
      var i, j :| 0 <= i < j < |ops| && DoomedAt(d, m, ops, i, j);
      MapRunFirst(m, ops, j);
      assert MapNeedsStep(MapRun(m, ops[..j]).0, ops[j]) by { DoomedNeeds(d, m, ops, i, j); }
      assert rest[j - 1] == ops[j];
    }
    if StepComes(n, rest) {
      var j :| 0 <= j < |rest| && MapNeedsStep(MapRun(n, rest[..j]).0, rest[j]);
      DoomedNow(d, m, ops, j + 1);
      assert rest[..j + 1 - 1] == rest[..j];
    }
  }

  lemma DoomedNeeds<V>(d: Dict<V>, m: map<Key, V>, ops: seq<Op<V>>, i: nat, j: nat)
    requires Valid(d) && i < j < |ops| && DoomedAt(d, m, ops, i, j)
    ensures MapNeedsStep(MapRun(m, ops[..j]).0, ops[j])
  {
  }

  lemma DoomedFirst<V>(d: Dict<V>, m: map<Key, V>, ops: seq<Op<V>>)
    requires Valid(d) && ops != [] && DictOp(d, ops[0]).Some? && Valid(DictOp(d, ops[0]).value.0)
    ensures LeavesStuck(d, ops[0]) ==> (Doomed(d, m, ops) <==> StepComes(MapOp(m, ops[0]).0, ops[1..]))
    ensures !LeavesStuck(d, ops[0]) ==>
              (Doomed(d, m, ops) <==> Doomed(DictOp(d, ops[0]).value.0, MapOp(m, ops[0]).0, ops[1..]))
  {
    hide DictOp, MapOp, MapRun, DictRun, Valid, LeavesStuck, MapNeedsStep, DoomedAt;
    var e, n, rest := DictOp(d, ops[0]).value.0, MapOp(m, ops[0]).0, ops[1..];
    if LeavesStuck(d, ops[0]) {
      DoomedStuck(d, m, ops);
    } else {
      if Doomed(d, m, ops) {
        var i, j :| 0 <= i < j < |ops| && DoomedAt(d, m, ops, i, j);
        if i == 0 { DoomedNow(d, m, ops, j); } else { DoomedLater(d, m, ops, i, j); }
      }
      if Doomed(e, n, rest) {
        var i, j :| 0 <= i < j < |rest| && DoomedAt(e, n, rest, i, j);
        DoomedLater(d, m, ops, i + 1, j + 1);
      }
    }
  }

  lemma RunNothing<V>(d: Dict<V>)
    requires Valid(d)
    ensures DictRun(d, []) == Some((d, []))
  {
  }

  lemma RunFirst<V>(d: Dict<V>, ops: seq<Op<V>>, i: nat)
    requires Valid(d) && 0 < i <= |ops| && DictOp(d, ops[0]).Some? && Valid(DictOp(d, ops[0]).value.0)
    ensures var a, b := DictRun(d, ops[..i]), DictRun(DictOp(d, ops[0]).value.0, ops[1..][..i - 1]);
            (a.Some? <==> b.Some?) && (a.Some? ==> a.value.0 == b.value.0)
  {
    hide DictOp, Valid;
    assert ops[..i][1..] == ops[1..][..i - 1];
  }
}
