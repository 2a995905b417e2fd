/** A run that a server bears and whose log it cannot load: with a GET between, a rehash step has
    moved the entry that the DEL would otherwise leave behind. */
module ReplayWitness {
  import opened Wrappers
  import opened Bits
  import opened Djb2
  import opened Robj
  import opened DictSpec
  import opened DictLaws
  import opened DictRuns
  import opened DictCrash
  import opened LogTables
  import Server
  import Recovery
  import KvTables
  import Aof

  lemma OneByteHash(k: Key)
    requires |k| == 1 && k[0] < 128 as char
    ensures KeyHash(k) == 177573 + k[0] as int
  {
    var h := 177573 + k[0] as int;
    assert k[1..] == "" && HashFrom(h, "") == h;
    assert (33 * 5381 + SignedChar(k[0])) % 0x1_0000_0000_0000_0000 == h;
  }

  /** Where the keys of the run go in tables of four and eight buckets. */
  lemma Homes()
    ensures Bucket(KeyHash("a"), 4) == 2 && Bucket(KeyHash("b"), 4) == 3
    ensures Bucket(KeyHash("c"), 4) == 0 && Bucket(KeyHash("d"), 4) == 1
    ensures Bucket(KeyHash("a"), 8) == 6 && Bucket(KeyHash("b"), 8) == 7 && Bucket(KeyHash("c"), 8) == 0
    ensures Bucket(KeyHash("d"), 8) == 1 && Bucket(KeyHash("e"), 8) == 2 && Bucket(KeyHash("f"), 8) == 3
  {
    hide KeyHash;
    OneByteHash("a");
    OneByteHash("b");
    OneByteHash("c");
    OneByteHash("d");
    OneByteHash("e");
    OneByteHash("f");
  }

  function W(): Robj { Create("1") }

  function X(k: Key): Entry<Robj> { Entry(k, W()) }

  /** The table after the first i of SET a, b, c, d. */
  function Four(i: nat): Dict<Robj> {
    Dict(KeyHash, Table([if i > 2 then [X("c")] else [], if i > 3 then [X("d")] else [],
                         if i > 0 then [X("a")] else [], if i > 1 then [X("b")] else []], i), NoTable(), NO_REHASH)
  }

  /** In SET e, after the resize, e put. */
  function Fifth(): Dict<Robj> {
    Four(4).(ht1 := Table([[], [], [X("e")], [], [], [], [], []], 1), rehashidx := 0)
  }

  /** After SET e: c has moved. */
  function Five(): Dict<Robj> {
    Dict(KeyHash, Table([[], [X("d")], [X("a")], [X("b")]], 3),
         Table([[X("c")], [], [X("e")], [], [], [], [], []], 2), 0)
  }

  /** After SET f: d has moved. */
  function Six(): Dict<Robj> {
    Dict(KeyHash, Table([[], [], [X("a")], [X("b")]], 2),
         Table([[X("c")], [X("d")], [X("e")], [X("f")], [], [], [], []], 4), 1)
  }

  /** After one more rehash step: a has moved, b is left. */
  function Seven(): Dict<Robj> {
    Dict(KeyHash, Table([[], [], [], [X("b")]], 1),
         Table([[X("c")], [X("d")], [X("e")], [X("f")], [], [], [X("a")], []], 5), 2)
  }

  lemma FirstSet()
    ensures Valid(Empty<Robj>(KeyHash)) && Add(Empty(KeyHash), "a", W()) == Did(Four(1), true)
  {
    hide Valid, TableOk, Add, KeyHash, W;
    Homes();
    EmptyRepresents<Robj>(KeyHash);
    RepresentsValid(Empty<Robj>(KeyHash), map[]);
    PlainAdd(Empty<Robj>(KeyHash), "a", W());
    var t := NewTable<Robj>(4);
    assert t.buckets == [[], [], [], []];
    assert [X("a")] + [] == [X("a")];
    assert Put(t, 2, X("a")).buckets == [[], [], [X("a")], []];
  }

  lemma NextSet(i: nat, k: Key)
    requires 1 <= i < 4 && k == ["a", "b", "c", "d"][i] && Valid(Four(i))
    ensures Add(Four(i), k, W()) == Did(Four(i + 1), true)
  {
    hide Valid, TableOk, Add, KeyHash, W;
    Homes();
    var d, b := Four(i), if i == 1 then 3 else i - 2;
    assert Home(d.ht0, d.hash, k) == b && d.ht0.buckets[b] == [];
    PlainAdd(d, k, W());
    assert [X(k)] + [] == [X(k)];
    assert Put(d.ht0, b, X(k)).buckets == Four(i + 1).ht0.buckets;
  }

  lemma GrowthTable()
    ensures ExpandIfNeed(Four(4)) == Four(4).(ht1 := Table([[], [], [], [], [], [], [], []], 0), rehashidx := 0)
  {
    hide KeyHash, W;
    assert NextPow(8) == 8;
    assert NewTable<Robj>(8).buckets == [[], [], [], [], [], [], [], []];
  }

  lemma FifthStep()
    ensures Movable(Fifth()) && RehashStep(Fifth()) == Five()
  {
    hide KeyHash, W;
    Homes();
    var y := Fifth();
    assert FirstFull(y.ht0.buckets, 0) == 0;
    assert [X("c")] + [] == [X("c")];
    assert RehashStep(y).ht0 == Five().ht0;
    assert RehashStep(y).ht1 == Five().ht1;
  }

  lemma FifthSet()
    requires Valid(Four(4)) && Lookup(Four(4), "e").None?
    ensures Add(Four(4), "e", W()) == Did(Five(), true)
  {
    hide Valid, ExpandIfNeed, RehashStep, KeyHash, W, Lookup, Find;
    Homes();
    FindIsLookup(Four(4), "e");
    GrowthTable();
    FifthStep();
    var x := ExpandIfNeed(Four(4));
    assert [X("e")] + [] == [X("e")] && Home(x.ht1, x.hash, "e") == 2;
    assert Put(x.ht1, 2, X("e")).buckets == Fifth().ht1.buckets;
  }

  lemma SixthStep(y: Dict<Robj>)
    requires y == Five().(ht1 := Table([[X("c")], [], [X("e")], [X("f")], [], [], [], []], 3))
    ensures Movable(y) && RehashStep(y) == Six()
  {
    hide KeyHash, W;
    Homes();
    assert FirstFull(y.ht0.buckets, 0) == 1;
    assert [X("d")] + [] == [X("d")];
    assert RehashStep(y).ht0 == Six().ht0;
    assert RehashStep(y).ht1 == Six().ht1;
  }

  lemma SixthSet()
    requires Valid(Five()) && Lookup(Five(), "f").None?
    ensures Add(Five(), "f", W()) == Did(Six(), true)
  {
    hide Valid, RehashStep, KeyHash, W, Lookup, Find;
    Homes();
    var x := Five();
    FindIsLookup(x, "f");
    assert [X("f")] + [] == [X("f")] && Home(x.ht1, x.hash, "f") == 3;
    var t := Put(x.ht1, 3, X("f"));
    assert t.buckets == [[X("c")], [], [X("e")], [X("f")], [], [], [], []];
    SixthStep(x.(ht1 := t));
  }

  lemma SeventhStep()
    ensures StepIfRehashing(Six()) == Some(Seven())
  {
    hide KeyHash, W;
    Homes();
    var y := Six();
    assert FirstFull(y.ht0.buckets, 1) == 2;
    assert [X("a")] + [] == [X("a")];
    assert RehashStep(y).ht0 == Seven().ht0;
    assert RehashStep(y).ht1 == Seven().ht1;
  }

  /** The DEL, straight after SET f, takes the last entry of ht[0]. */
  lemma DelLeavesStuck()
    ensures LeavesStuck(Six(), DeleteOp("b"))
  {
    hide KeyHash, W, StepIfRehashing;
    Homes();
    SeventhStep();
    assert FindIn(Seven().ht0.buckets[3], "b") == 0;
  }

  /** After the GET it does not: its own rehash step ends the rehash. */
  lemma DelAfterGet()
    requires Valid(Seven())
    ensures !LeavesStuck(Seven(), DeleteOp("b"))
  {
    hide Valid, KeyHash, W, RehashStep;
    RehashStepOk(Seven());
  }

  // ---------- The run and its log ----------

  function Set(k: Key): Server.Request { ["SET", k, "1"] }

  /** What the server wrote to its log. */
  function Log(): seq<Server.Request> {
    [Set("a"), Set("b"), Set("c"), Set("d"), Set("e"), Set("f"), ["DEL", "b"], Set("g")]
  }

  /** What it executed. */
  function Live(): seq<Server.Request> {
    [Set("a"), Set("b"), Set("c"), Set("d"), Set("e"), Set("f"), ["GET", "a"], ["DEL", "b"], Set("g")]
  }

  lemma Names()
    ensures Server.CommandNamed("SET") == Some(Server.SetCmd) && Server.CommandNamed("DEL") == Some(Server.DelCmd)
    ensures Server.CommandNamed("GET") == Some(Server.GetCmd)
  {
    assert Server.Upper("SET") == "SET" && Server.Upper("DEL") == "DEL" && Server.Upper("GET") == "GET";
  }

  /** The table bears the calls of these commands. */
  ghost predicate Bears(d: Dict<Robj>, kv: map<Key, Robj>, cmds: seq<Server.Request>)
    requires AllData(cmds) && Represents(d, kv)
  {
    RepresentsValid(d, kv);
    DictRun(d, DataCalls(kv, cmds)).Some?
  }

  lemma FirstData(argv: Server.Request, cmds: seq<Server.Request>, kv: map<Key, Robj>)
    requires IsData(argv) && AllData(cmds)
    ensures AllData([argv] + cmds)
    ensures DataCalls(kv, [argv] + cmds) ==
            Server.HandlerCalls(kv, Server.CommandNamed(argv[0]).value, argv) + DataCalls(Recovery.Apply(kv, argv), cmds)
  {
    hide IsData, Server.HandlerCalls, Recovery.Apply;
    var all := [argv] + cmds;
    assert all[1..] == cmds;
    forall i | 0 <= i < |all| ensures IsData(all[i]) { if i > 0 { assert all[i] == cmds[i - 1]; } }
  }

  /** A SET of a new key. */
  lemma SetNew(d: Dict<Robj>, kv: map<Key, Robj>, k: Key, cmds: seq<Server.Request>)
    requires Represents(d, kv) && k !in kv && AllData(cmds)
    ensures IsData(Set(k)) && AllData([Set(k)] + cmds) && Valid(d)
    ensures match Add(d, k, W())
            case Crash => !Bears(d, kv, [Set(k)] + cmds)
            case Did(e, _) =>
              Represents(e, kv[k := W()]) && (Bears(d, kv, [Set(k)] + cmds) <==> Bears(e, kv[k := W()], cmds))
  {
    hide Represents, Valid, Add, Server.CommandNamed, DataCalls, DictRun;
    Names();
    RepresentsValid(d, kv);
    FirstData(Set(k), cmds, kv);
    var rest := DataCalls(kv[k := W()], cmds);
    var add := AddOp(k, W());
    assert Recovery.Apply(kv, Set(k)) == kv[k := W()];
    assert DataCalls(kv, [Set(k)] + cmds) == [FindOp(k)] + ([add] + rest) by {
      assert Server.HandlerCalls(kv, Server.SetCmd, Set(k)) == [FindOp(k), add];
    }
    RunStep(d, FindOp(k), [add] + rest);
    OpRefines(d, kv, add);
    if Add(d, k, W()).Did? { RunStep(d, add, rest); } else { RunCrash(d, add, rest); }
  }

  lemma RunCrash<V>(d: Dict<V>, op: Op<V>, ops: seq<Op<V>>)
    requires Valid(d) && DictOp(d, op).None?
    ensures DictRun(d, [op] + ops).None?
  {
  }

  /** One call for one command. */
  lemma OneCall(d: Dict<Robj>, kv: map<Key, Robj>, argv: Server.Request, op: Op<Robj>, cmds: seq<Server.Request>)
    requires Represents(d, kv) && AllData(cmds) && DictOp(d, op).Some? && Valid(d)
    requires (argv == ["GET", op.k] && op == FetchOp(op.k)) || (argv == ["DEL", op.k] && op == DeleteOp(op.k))
    ensures IsData(argv) && AllData([argv] + cmds)
    ensures var e, m := DictOp(d, op).value.0, MapOp(kv, op).0;
            Represents(e, m) && (Bears(d, kv, [argv] + cmds) <==> Bears(e, m, cmds))
  {
    hide Represents, Valid, DictOp, Server.CommandNamed, DataCalls, DictRun;
    Names();
    FirstData(argv, cmds, kv);
    var rest := DataCalls(MapOp(kv, op).0, cmds);
    assert DataCalls(kv, [argv] + cmds) == [op] + rest;
    RunStep(d, op, rest);
    OpRefines(d, kv, op);
  }

  function Keys(i: nat): map<Key, Robj>
    requires i <= 6
  {
    if i == 0 then map[] else Keys(i - 1)[["a", "b", "c", "d", "e", "f"][i - 1] := W()]
  }

  lemma {:induction false} KeysAre(i: nat)
    requires i <= 6
    ensures forall k :: k in Keys(i) <==> exists j :: 0 <= j < i && k == ["a", "b", "c", "d", "e", "f"][j]
  {
    hide W;
    if i > 0 { KeysAre(i - 1); }
  }

  /** The first two SETs. */
  lemma FirstSets(cmds: seq<Server.Request>)
    requires AllData(cmds)
    ensures var all := [Set("a")] + ([Set("b")] + cmds);
            && AllData(all) && Represents(Empty<Robj>(KeyHash), map[]) && Represents(Four(2), Keys(2))
            && (Bears(Empty(KeyHash), map[], all) <==> Bears(Four(2), Keys(2), cmds))
  {
    hide Represents, Valid, Add, Bears, IsData, AllData, Lookup, KeyHash, W, Four;
    EmptyRepresents<Robj>(KeyHash);
    KeysAre(1);
    MoreData("b", cmds);
    FirstSet();
    SetNew(Empty(KeyHash), map[], "a", [Set("b")] + cmds);
    RepresentsValid(Four(1), Keys(1));
    NextSet(1, "b");
    SetNew(Four(1), Keys(1), "b", cmds);
  }

  /** And the next two. */
  lemma FourSets(cmds: seq<Server.Request>)
    requires AllData(cmds) && Represents(Four(2), Keys(2))
    ensures var all := [Set("c")] + ([Set("d")] + cmds);
            && AllData(all) && Represents(Four(4), Keys(4))
            && (Bears(Four(2), Keys(2), all) <==> Bears(Four(4), Keys(4), cmds))
  {
    hide Represents, Valid, Add, Bears, IsData, AllData, Lookup, KeyHash, W, Four;
    KeysAre(3);
    KeysAre(2);
    MoreData("d", cmds);
    RepresentsValid(Four(2), Keys(2));
    NextSet(2, "c");
    SetNew(Four(2), Keys(2), "c", [Set("d")] + cmds);
    RepresentsValid(Four(3), Keys(3));
    NextSet(3, "d");
    SetNew(Four(3), Keys(3), "d", cmds);
  }

  lemma MoreData(k: Key, cmds: seq<Server.Request>)
    requires AllData(cmds)
    ensures IsData(Set(k)) && AllData([Set(k)] + cmds)
  {
    hide Server.CommandNamed;
    Names();
  }

  /** And the next two, which start the rehash. */
  lemma TwoSets(cmds: seq<Server.Request>)
    requires AllData(cmds) && Represents(Four(4), Keys(4))
    ensures var all := [Set("e")] + ([Set("f")] + cmds);
            && AllData(all) && Represents(Six(), Keys(6))
            && (Bears(Four(4), Keys(4), all) <==> Bears(Six(), Keys(6), cmds))
  {
    hide Represents, Valid, Add, Bears, IsData, AllData, Lookup, KeyHash, W, Four, Five, Six;
    KeysAre(5);
    KeysAre(4);
    MoreData("f", cmds);
    RepresentsValid(Four(4), Keys(4));
    NotHeld(Four(4), Keys(4), "e");
    FifthSet();
    SetNew(Four(4), Keys(4), "e", [Set("f")] + cmds);
    RepresentsValid(Five(), Keys(5));
    NotHeld(Five(), Keys(5), "f");
    SixthSet();
    SetNew(Five(), Keys(5), "f", cmds);
  }

  lemma SixSets(cmds: seq<Server.Request>)
    requires AllData(cmds)
    ensures var all := [Set("a"), Set("b"), Set("c"), Set("d"), Set("e"), Set("f")] + cmds;
            && AllData(all) && Represents(Empty<Robj>(KeyHash), map[]) && Represents(Six(), Keys(6))
            && (Bears(Empty(KeyHash), map[], all) <==> Bears(Six(), Keys(6), cmds))
  {
    hide Represents, Bears, IsData, AllData, Four, Six, Keys;
    MoreData("f", cmds);
    var cmds5 := [Set("f")] + cmds;
    MoreData("e", cmds5);
    var cmds4 := [Set("e")] + cmds5;
    MoreData("d", cmds4);
    var cmds3 := [Set("d")] + cmds4;
    MoreData("c", cmds3);
    var cmds2 := [Set("c")] + cmds3;
    FirstSets(cmds2);
    FourSets(cmds4);
    TwoSets(cmds);
    assert [Set("a"), Set("b"), Set("c"), Set("d"), Set("e"), Set("f")] + cmds == [Set("a")] + ([Set("b")] + cmds2);
  }

  lemma NotHeld(d: Dict<Robj>, m: map<Key, Robj>, k: Key)
    requires Represents(d, m) && k !in m
    ensures Lookup(d, k).None?
  {
    hide Valid, Lookup;
    assert Get(m, k) == Lookup(d, k);
  }

  /** The log crashes the empty table: the DEL leaves it stuck, and SET g needs a step. */
  lemma LogCrashes()
    ensures AllData(Log()) && Represents(Empty<Robj>(KeyHash), map[]) && !Bears(Empty(KeyHash), map[], Log())
  {
    hide Represents, Valid, Add, DictOp, Bears, IsData, AllData, Lookup, KeyHash, W, Six, LeavesStuck, Stuck;
    var last := [Set("g")];
    NoData();
    MoreData("g", []);
    assert [Set("g")] + [] == last;
    OneData(["DEL", "b"], last);
    SixSets([["DEL", "b"]] + last);
    RepresentsValid(Six(), Keys(6));
    SixNotStuck();
    DelLeavesStuck();
    OpStuckIff(Six(), DeleteOp("b"));
    OneCall(Six(), Keys(6), ["DEL", "b"], DeleteOp("b"), last);
    KeysAre(6);
    var e, m := DictOp(Six(), DeleteOp("b")).value.0, MapOp(Keys(6), DeleteOp("b")).0;
    assert "g" !in m;
    SetNew(e, m, "g", []);
    StuckOp(e, m, AddOp("g", W()));
    AddCrash(e, "g");
    assert Log() == [Set("a"), Set("b"), Set("c"), Set("d"), Set("e"), Set("f")] + ([["DEL", "b"]] + last);
  }

  lemma NoData()
    ensures AllData([])
  {
  }

  lemma OneData(argv: Server.Request, cmds: seq<Server.Request>)
    requires AllData(cmds) && |argv| == 2 && (argv[0] == "GET" || argv[0] == "DEL")
    ensures IsData(argv) && AllData([argv] + cmds)
  {
    hide Server.CommandNamed;
    Names();
  }

  lemma SixNotStuck()
    ensures !Stuck(Six())
  {
  }

  lemma AddCrash(d: Dict<Robj>, k: Key)
    requires Valid(d)
    ensures DictOp(d, AddOp(k, W())).None? <==> Add(d, k, W()).Crash?
  {
    hide Valid, Add;
  }

  /** What the server executed does not: the GET's rehash step lets the DEL's end the rehash. */
  lemma LiveBears()
    ensures AllData(Live()) && Represents(Empty<Robj>(KeyHash), map[]) && Bears(Empty(KeyHash), map[], Live())
  {
    hide Represents, Valid, Add, DictOp, Bears, IsData, AllData, Lookup, KeyHash, W, Six, Seven, LeavesStuck, Stuck;
    var last := [Set("g")];
    NoData();
    MoreData("g", []);
    assert [Set("g")] + [] == last;
    OneData(["DEL", "b"], last);
    var two := [["DEL", "b"]] + last;
    OneData(["GET", "a"], two);
    SixSets([["GET", "a"]] + two);
    RepresentsValid(Six(), Keys(6));
    GetToSeven();
    OneCall(Six(), Keys(6), ["GET", "a"], FetchOp("a"), two);
    var m := MapOp(Keys(6), FetchOp("a")).0;
    RepresentsValid(Seven(), m);
    DelAfterGet();
    OpStuckIff(Seven(), DeleteOp("b"));
    OneCall(Seven(), m, ["DEL", "b"], DeleteOp("b"), last);
    var e, n := DictOp(Seven(), DeleteOp("b")).value.0, MapOp(m, DeleteOp("b")).0;
    KeysAre(6);
    assert "g" !in n;
    LastSet(e, n);
    assert Live() == [Set("a"), Set("b"), Set("c"), Set("d"), Set("e"), Set("f")] + ([["GET", "a"]] + two);
  }

  lemma LastSet(e: Dict<Robj>, n: map<Key, Robj>)
    requires Represents(e, n) && !Stuck(e) && "g" !in n
    ensures AllData([Set("g")]) && Bears(e, n, [Set("g")])
  {
    hide Represents, Valid, Add, DictOp, Bears, IsData, AllData, W, Stuck;
    NoData();
    MoreData("g", []);
    assert [Set("g")] + [] == [Set("g")];
    RepresentsValid(e, n);
    SetNew(e, n, "g", []);
    OpUnstuck(e, AddOp("g", W()));
    AddCrash(e, "g");
    BearsNothing(Add(e, "g", W()).d, n["g" := W()]);
  }

  lemma GetToSeven()
    requires Valid(Six())
    ensures DictOp(Six(), FetchOp("a")).Some? && DictOp(Six(), FetchOp("a")).value.0 == Seven() && !Stuck(Seven())
  {
    hide Valid, StepIfRehashing;
    SeventhStep();
  }

  lemma BearsNothing(d: Dict<Robj>, m: map<Key, Robj>)
    requires Represents(d, m)
    ensures Bears(d, m, [])
  {
  }

  /** A server with an empty database executes Live: its key dictionary bears it, and it logs
      Log. A replay of that log calls what the dictionary, as coded, does not bear. */
  lemma LoggedButNotLoaded(s: Server.Server, c: Server.ClientId, r0: Server.Server, f: Server.ClientId, now: int)
    requires Ordinary(s, c) && s.aofOn && Server.Fake !in s.clients[c].flags && s.dbs[0].kv == map[] && s.aof == []
    requires Recovery.Loader(r0, f) && r0.dbs[0].kv == map[]
    ensures AllData(Live()) && Server.InputsOk(Aof.Inputs(c, Live(), now), |s.clients|)
    ensures Recovery.AllWriting(Log()) && Server.InputsOk(Aof.Inputs(f, Log(), now), |r0.clients|)
    ensures Valid(Empty<Robj>(KeyHash))
    ensures var t, u := Server.Run(s, Aof.Inputs(c, Live(), now)), Server.Run(r0, Aof.Inputs(f, Log(), now));
            && t.Done? && t.s.aof == Log() && s.calls <= t.s.calls
            && DictRun(Empty(KeyHash), KvTables.CallsBetween(s, t.s, 0)).Some?
            && u.Done? && r0.calls <= u.s.calls
            && DictRun(Empty(KeyHash), KvTables.CallsBetween(r0, u.s, 0)).None?
  {
    hide Represents, DictRun, IsData, AllData, DataCalls, WritesOf, KeyHash, W, Ordinary, Recovery.Loader, Server.Run, Recovery.Writing, Recovery.Apply, Recovery.Fold, Valid, Log, Live;
    OrdinaryForm(s, c);
    LoaderOrdinary(r0, f);
    OrdinaryForm(r0, f);
    LiveBears();
    LogCrashes();
    InputsFine(c, Live(), now, |s.clients|);
    LogWrites();
    InputsFine(f, Log(), now, |r0.clients|);
    RepresentsValid(Empty<Robj>(KeyHash), map[]);
    DataRun(s, c, Live(), now);
    DataLog(s, c, Live(), now);
    LiveWrites();
    DataRun(r0, f, Log(), now);
  }

  lemma InputsFine(c: Server.ClientId, cmds: seq<Server.Request>, now: int, n: nat)
    requires AllData(cmds) && c < n
    ensures Server.InputsOk(Aof.Inputs(c, cmds, now), n)
  {
    forall i | 0 <= i < |cmds| ensures cmds[i] != [] { assert IsData(cmds[i]); }
  }

  lemma LogWrites()
    ensures Recovery.AllWriting(Log())
  {
    hide Server.CommandNamed;
    Names();
  }

  lemma LiveWrites()
    ensures AllData(Live()) && WritesOf(Live()) == Log()
  {
    hide IsData, AllData, WritesOf;
    var six := [Set("a"), Set("b"), Set("c"), Set("d"), Set("e"), Set("f")];
    var get, tail: seq<Server.Request> := [["GET", "a"]], [["DEL", "b"], Set("g")];
    WritesParts(six, get, tail);
    assert six + (get + tail) == Live() && six + ([] + tail) == Log();
    WritesConcat(get, tail);
    WritesConcat(six, get + tail);
  }

  lemma WritesParts(six: seq<Server.Request>, get: seq<Server.Request>, tail: seq<Server.Request>)
    requires six == [Set("a"), Set("b"), Set("c"), Set("d"), Set("e"), Set("f")]
    requires get == [["GET", "a"]] && tail == [["DEL", "b"], Set("g")]
    ensures AllData(six) && AllData(get) && AllData(tail)
    ensures WritesOf(six) == six && WritesOf(get) == [] && WritesOf(tail) == tail
  {
    hide Server.CommandNamed;
    Names();
    WritesAll(six);
    WritesAll(tail);
    assert get[1..] == [];
  }

  /** The command writes. */
  predicate IsWrite(argv: Server.Request) { IsData(argv) && Server.CommandNamed(argv[0]).value.Writes() }

  lemma {:induction false} WritesAll(cmds: seq<Server.Request>)
    requires forall i :: 0 <= i < |cmds| ==> IsWrite(cmds[i])
    ensures AllData(cmds) && WritesOf(cmds) == cmds
    decreases |cmds|
  {
    hide Server.CommandNamed;
    forall i | 0 <= i < |cmds| ensures IsData(cmds[i]) { assert IsWrite(cmds[i]); }
    if cmds != [] {
      assert IsWrite(cmds[0]);
      WritesAll(cmds[1..]);
    }
  }

  lemma {:induction false} WritesConcat(a: seq<Server.Request>, b: seq<Server.Request>)
    requires AllData(a) && AllData(b)
    ensures AllData(a + b) && WritesOf(a + b) == WritesOf(a) + WritesOf(b)
    decreases |a|
  {
    hide IsData, Server.CommandNamed;
    forall i | 0 <= i < |a + b| ensures IsData((a + b)[i]) { if i >= |a| { assert (a + b)[i] == b[i - |a|]; } }
    if a == [] {
      assert a + b == b;
    } else {
      assert IsData(a[0]) && (a + b)[0] == a[0] && (a + b)[1..] == a[1..] + b;
      WritesConcat(a[1..], b);
    }
  }
}
