/** Lazy expiry against a reference store that drops a key, with its deadline, the moment the
    deadline passes. */
module Expiry {
  import opened Server

  /** One data command at a time of day. */
  datatype Op = Op(cmd: Command, argv: Request, now: int)

  /** The arguments that the handler reads are there. */
  predicate OpOk(op: Op) {
    op.cmd.TouchesData() && |op.argv| >= 2 && (op.cmd.ExpireCmd? ==> |op.argv| >= 3)
  }

  predicate OpsOk(ops: seq<Op>) {
    && (forall i :: 0 <= i < |ops| ==> OpOk(ops[i]))
    && (forall i, j :: 0 <= i < j < |ops| ==> ops[i].now <= ops[j].now)
  }

  /** The key's recorded deadline has passed. */
  predicate Late(db: Db, k: Key, now: int) { k in db.expires && now > db.expires[k] }

  /** Drops every key whose deadline has passed, and the deadline. */
  function Purge(db: Db, now: int): Db {
    Db(map k | k in db.kv && !Late(db, k, now) :: db.kv[k],
       map k | k in db.expires && now <= db.expires[k] :: db.expires[k],
       db.watched)
  }

  /** A command as the server executes it on its database. */
  function LazyStep(db: Db, op: Op): (r: Effect)
    requires OpOk(op)
    ensures r.Effect?
  {
    DataEffect(ExpireIfNeed(db, op.argv[1], op.now), op.cmd, op.argv, op.now)
  }

  /** The same handler on the reference store. */
  function EagerStep(db: Db, op: Op): (r: Effect)
    requires OpOk(op)
    ensures r.Effect?
  {
    DataEffect(Purge(db, op.now), op.cmd, op.argv, op.now)
  }

  function LazyRun(db: Db, ops: seq<Op>): Db
    requires OpsOk(ops)
  {
    if ops == [] then db else LazyStep(LazyRun(db, ops[..|ops| - 1]), ops[|ops| - 1]).db
  }

  function EagerRun(db: Db, ops: seq<Op>): Db
    requires OpsOk(ops)
  {
    if ops == [] then db else EagerStep(EagerRun(db, ops[..|ops| - 1]), ops[|ops| - 1]).db
  }

  function GetOp(k: Key, now: int): Op { Op(GetCmd, ["GET", k], now) }

  /** A GET of k at this moment is answered alike. */
  predicate GetAgrees(l: Db, e: Db, k: Key, now: int) {
    LazyStep(l, GetOp(k, now)).reply == EagerStep(e, GetOp(k, now)).reply
  }

  /** A SET that stores a key whose recorded deadline has passed. */
  predicate LateSet(db: Db, op: Op) {
    op.cmd.SetCmd? && |op.argv| >= 3 && Late(db, op.argv[1], op.now)
  }

  /** The stores hold the same under k, in keys and deadlines. */
  predicate SameAt(l: Db, e: Db, k: Key) {
    && (k in l.kv <==> k in e.kv) && (k in l.kv ==> l.kv[k] == e.kv[k])
    && (k in l.expires <==> k in e.expires) && (k in l.expires ==> l.expires[k] == e.expires[k])
  }

  /** Holds in every run: the stores agree on every key that is not late. */
  ghost predicate Related(l: Db, e: Db, now: int) {
    forall k :: !Late(l, k, now) ==> SameAt(l, Purge(e, now), k)
  }

  /** Holds while no SET was late: the reference store has none of the late keys. */
  ghost predicate Clean(l: Db, e: Db, now: int) {
    forall k :: Late(l, k, now) ==> k !in Purge(e, now).kv
  }

  lemma RelatedStart(db: Db, now: int)
    ensures Related(db, db, now) && Clean(db, db, now)
  {
  }

  /** Time passing keeps both. */
  lemma RelatedLater(l: Db, e: Db, now: int, later: int)
    requires Related(l, e, now) && now <= later
    ensures Related(l, e, later) && (Clean(l, e, now) ==> Clean(l, e, later))
  {
    forall k | !Late(l, k, later) ensures SameAt(l, Purge(e, later), k) {
      assert SameAt(l, Purge(e, now), k);
    }
    if Clean(l, e, now) {
      forall k | Late(l, k, later) ensures k !in Purge(e, later).kv {
        if !Late(l, k, now) { assert SameAt(l, Purge(e, now), k); }
      }
    }
  }

  /** A handler leaves every other key as it is, and never removes or changes a deadline. */
  lemma EffectElsewhere(db: Db, op: Op, k: Key)
    requires OpOk(op)
    ensures var r := DataEffect(db, op.cmd, op.argv, op.now);
            && (k != op.argv[1] ==> SameAt(db, r.db, k))
            && (k in db.expires ==> k in r.db.expires && r.db.expires[k] == db.expires[k])
            && (k !in db.kv && k in r.db.kv ==> op.cmd.SetCmd? && |op.argv| >= 3)
  {
  }

  /** What a handler does to its key depends only on what is stored under it. */
  lemma EffectSame(a: Db, b: Db, op: Op)
    requires OpOk(op) && SameAt(a, b, op.argv[1])
    ensures SameAt(DataEffect(a, op.cmd, op.argv, op.now).db, DataEffect(b, op.cmd, op.argv, op.now).db, op.argv[1])
  {
  }

  lemma SamePurged(l: Db, e: Db, k: Key, now: int)
    requires SameAt(l, e, k)
    ensures if Late(l, k, now) then k !in Purge(e, now).kv else SameAt(l, Purge(e, now), k)
  {
  }

  /** After a command the stores agree on its key unless the key was late before. */
  lemma StepSame(l: Db, e: Db, op: Op, k: Key)
    requires OpOk(op) && Related(l, e, op.now) && !Late(l, k, op.now)
    ensures SameAt(LazyStep(l, op).db, EagerStep(e, op).db, k)
  {
    hide DataEffect;
    var x := ExpireIfNeed(l, op.argv[1], op.now);
    assert SameAt(l, Purge(e, op.now), k);
    EffectElsewhere(x, op, k);
    EffectElsewhere(Purge(e, op.now), op, k);
    if k == op.argv[1] { EffectSame(x, Purge(e, op.now), op); }
  }

  /** Every command keeps the relation, and a command that is not a late SET keeps Clean. */
  lemma StepRelated(l: Db, e: Db, op: Op)
    requires OpOk(op) && Related(l, e, op.now)
    ensures var l', e' := LazyStep(l, op).db, EagerStep(e, op).db;
            && Related(l', e', op.now)
            && (Clean(l, e, op.now) && !LateSet(l, op) ==> Clean(l', e', op.now))
  {
    hide DataEffect, SameAt, Purge;
    var l', e' := LazyStep(l, op).db, EagerStep(e, op).db;
    forall k | !Late(l', k, op.now) ensures SameAt(l', Purge(e', op.now), k) {
      EffectElsewhere(ExpireIfNeed(l, op.argv[1], op.now), op, k);
      StepSame(l, e, op, k);
      SamePurged(l', e', k, op.now);
    }
    if Clean(l, e, op.now) && !LateSet(l, op) {
      forall k | Late(l', k, op.now) ensures k !in Purge(e', op.now).kv {
        if Late(l, k, op.now) {
          StepLate(l, e, op, k);
        } else {
          StepSame(l, e, op, k);
          SamePurged(l', e', k, op.now);
        }
      }
    }
  }

  lemma StepLate(l: Db, e: Db, op: Op, k: Key)
    requires OpOk(op) && Late(l, k, op.now) && k !in Purge(e, op.now).kv && !LateSet(l, op)
    ensures k !in Purge(EagerStep(e, op).db, op.now).kv
  {
    hide DataEffect;
    EffectElsewhere(Purge(e, op.now), op, k);
  }

  /** A GET is answered alike unless the key is late and the reference store has it. */
  lemma GetAgreesIff(l: Db, e: Db, k: Key, now: int)
    requires Related(l, e, now)
    ensures GetAgrees(l, e, k, now) <==> !(Late(l, k, now) && k in Purge(e, now).kv)
  {
    assert !Late(l, k, now) ==> SameAt(l, Purge(e, now), k);
  }

  predicate NoLateSet(db: Db, ops: seq<Op>)
    requires OpsOk(ops)
  {
    forall i :: 0 <= i < |ops| ==> !LateSet(LazyRun(db, ops[..i]), ops[i])
  }

  predicate NotBefore(ops: seq<Op>, n: nat, now: int)
    requires n <= |ops|
  {
    n > 0 ==> ops[n - 1].now <= now
  }

  lemma OpsPrefix(ops: seq<Op>, n: nat)
    requires OpsOk(ops) && n <= |ops|
    ensures OpsOk(ops[..n])
  {
  }

  lemma NoLatePrefix(db: Db, ops: seq<Op>, n: nat)
    requires OpsOk(ops) && n <= |ops| && OpsOk(ops[..n]) && NoLateSet(db, ops)
    ensures NoLateSet(db, ops[..n])
  {
    hide LateSet, LazyRun;
    forall i | 0 <= i < n ensures !LateSet(LazyRun(db, ops[..n][..i]), ops[..n][i]) {
      assert ops[..n][..i] == ops[..i];
    }
  }

  lemma {:induction false} RunRelated(db: Db, ops: seq<Op>, now: int)
    requires OpsOk(ops) && NotBefore(ops, |ops|, now)
    ensures var l, e := LazyRun(db, ops), EagerRun(db, ops);
            Related(l, e, now) && (NoLateSet(db, ops) ==> Clean(l, e, now))
    decreases |ops|
  {
    hide Related, Clean, LazyStep, EagerStep, LateSet, NoLateSet;
    if ops == [] {
      RelatedStart(db, now);
    } else {
      var n := |ops| - 1;
      var init, op := ops[..n], ops[n];
      OpsPrefix(ops, n);
      assert NotBefore(init, n, op.now);
      RunRelated(db, init, op.now);
      if NoLateSet(db, ops) {
        NoLatePrefix(db, ops, n);
        NoLateAt(db, ops, n);
      }
      StepRelated(LazyRun(db, init), EagerRun(db, init), op);
      RelatedLater(LazyRun(db, ops), EagerRun(db, ops), op.now, now);
    }
  }

  lemma NoLateAt(db: Db, ops: seq<Op>, i: nat)
    requires OpsOk(ops) && i < |ops| && OpsOk(ops[..i]) && NoLateSet(db, ops)
    ensures !LateSet(LazyRun(db, ops[..i]), ops[i])
  {
  }

  /** A late SET is lost at once: the next GET does not find the key, in the reference it does. */
  lemma LateSetIsLost(l: Db, e: Db, op: Op)
    requires OpOk(op) && Related(l, e, op.now) && LateSet(l, op)
    ensures var l', e' := LazyStep(l, op).db, EagerStep(e, op).db;
            && LazyStep(l', GetOp(op.argv[1], op.now)).reply == KeyNotFound
            && !GetAgrees(l', e', op.argv[1], op.now)
  {
    StepRelated(l, e, op);
  }

  /** After the first n commands, every GET that could be sent agrees. */
  ghost predicate AgreesAfter(db: Db, ops: seq<Op>, n: nat)
    requires OpsOk(ops) && n <= |ops|
  {
    OpsPrefix(ops, n);
    var l, e := LazyRun(db, ops[..n]), EagerRun(db, ops[..n]);
    forall k, now :: NotBefore(ops, n, now) ==> GetAgrees(l, e, k, now)
  }

  /** At every moment of a run every GET that could be sent is answered as the reference store
      answers it, if and only if no SET hits a key whose recorded deadline has passed. */
  lemma LazyEqualsEager(db: Db, ops: seq<Op>)
    requires OpsOk(ops)
    ensures (forall n :: 0 <= n <= |ops| ==> AgreesAfter(db, ops, n)) <==> NoLateSet(db, ops)
  {
    hide AgreesAfter, NoLateSet, OpsOk;
    if NoLateSet(db, ops) {
      forall n | 0 <= n <= |ops| ensures AgreesAfter(db, ops, n) { NoLateAgrees(db, ops, n); }
    } else {
      LateDisagrees(db, ops);
    }
  }

  lemma NoLateAgrees(db: Db, ops: seq<Op>, n: nat)
    requires OpsOk(ops) && n <= |ops| && NoLateSet(db, ops)
    ensures AgreesAfter(db, ops, n)
  {
    hide Related, Clean, LazyStep, EagerStep, LateSet, GetAgrees, NoLateSet, LazyRun, EagerRun;
    OpsPrefix(ops, n);
    NoLatePrefix(db, ops, n);
    var l, e := LazyRun(db, ops[..n]), EagerRun(db, ops[..n]);
    forall k, now | NotBefore(ops, n, now) ensures GetAgrees(l, e, k, now) {
      assert NotBefore(ops[..n], n, now);
      RunRelated(db, ops[..n], now);
      CleanAgrees(l, e, k, now);
    }
  }

  lemma LateDisagrees(db: Db, ops: seq<Op>)
    requires OpsOk(ops) && !NoLateSet(db, ops)
    ensures exists n :: 0 <= n <= |ops| && !AgreesAfter(db, ops, n)
  {
    hide LazyStep, EagerStep, LateSet, AgreesAfter, LazyRun, EagerRun;
    var i: nat :| 0 <= i < |ops| && LateSet(LazyRun(db, ops[..i]), ops[i]);
    OpsPrefix(ops, i);
    LateDisagreesAt(db, ops, i);
    assert !AgreesAfter(db, ops, i + 1);
  }

  lemma RunSnoc(db: Db, ops: seq<Op>, i: nat)
    requires OpsOk(ops) && i < |ops|
    ensures OpsOk(ops[..i]) && OpsOk(ops[..i + 1])
    ensures LazyRun(db, ops[..i + 1]) == LazyStep(LazyRun(db, ops[..i]), ops[i]).db
    ensures EagerRun(db, ops[..i + 1]) == EagerStep(EagerRun(db, ops[..i]), ops[i]).db
  {
    hide LazyStep, EagerStep;
    assert ops[..i + 1][..i] == ops[..i];
  }

  lemma LateDisagreesAt(db: Db, ops: seq<Op>, i: nat)
    requires OpsOk(ops) && i < |ops| && OpsOk(ops[..i]) && LateSet(LazyRun(db, ops[..i]), ops[i])
    ensures !AgreesAfter(db, ops, i + 1)
  {
    hide Related, LazyStep, EagerStep, LateSet, GetAgrees, LazyRun, EagerRun, OpsOk, NoLateSet;
    assert OpOk(ops[i]) && NotBefore(ops[..i], i, ops[i].now) by { NotBeforeNext(ops, i); }
    RunRelated(db, ops[..i], ops[i].now);
    LateSetIsLost(LazyRun(db, ops[..i]), EagerRun(db, ops[..i]), ops[i]);
    RunSnoc(db, ops, i);
    assert NotBefore(ops, i + 1, ops[i].now);
  }

  lemma NotBeforeNext(ops: seq<Op>, i: nat)
    requires OpsOk(ops) && i < |ops|
    ensures OpOk(ops[i]) && NotBefore(ops[..i], i, ops[i].now)
  {
  }

  lemma CleanAgrees(l: Db, e: Db, k: Key, now: int)
    requires Related(l, e, now) && Clean(l, e, now)
    ensures GetAgrees(l, e, k, now)
  {
    GetAgreesIff(l, e, k, now);
  }
}
