# Verified models of a small Redis server

The server is written in C. It keeps databases of string objects in incrementally rehashed hash
tables, serves clients that speak the Redis serialization protocol, runs optimistic transactions
(WATCH, MULTI, EXEC), logs writes to an append-only file, saves snapshots, and replicates writes to
other servers. This project models that logic in Dafny and proves what the design promises of it:
over every input, every run and every interleaving.

Branches, constants and faults are those of the code. Where it does not keep a promise, the theorem
states the exact condition under which it does, and a lemma shows a failing case. A condition is
always something that can be seen before the call or step. Two guards are assumed where named:

**The string guard.** As coded (src/sds.c:81-101, 132-139), an append in place neither lowers `free`
nor writes the final NUL, and emptying a source adds one to `free`. The guarded buffer does all three
right: an append lowers `free`, writes its NUL, and a drained buffer's room is counted exactly. Module
Sds has both versions. It proves that a guarded buffer never leaves its allocation and always reads as
its text, and for the coded one the exact condition for each. `Aof`, `Recovery`, `Replication`,
`Server`, `RedisServer` and `AofHandoff` assume the guard for every read, queue, log and write buffer:
`Aof.AofLoad` and `Replication.DoAppendSync` run on guarded buffers, the others hold the text.
`Aof.ReplayRoom` says when a replay stays inside its three buffers without the guard,
`Aof.ThreeSetsOverrun` and `Aof.ThreeRepliesOverrun` give logs of three SETs with which it does not,
and `Replication.StaleOffset` a transaction whose propagation is one byte too long without it.

**The completion guard.** As coded, a delete during a rehash can leave the key dictionary with nothing
to move, and the next call that takes a rehash step then indexes outside its table
(src/dict.c:113-127, 502-506). The guarded dictionary runs the completion check of src/dict.c:144-156
after each call. `Server`, `RedisServer`, `Commands`, `Watching`, `Transactions`, `Counter`, `Aof`,
`Recovery`, `Replication` and `Expiry` hold a database's keys as a plain map, which is right under this
guard: `KvTables.RunExtends` shows that in every run each database is what its dictionary calls leave in
a map, and `KvTables.GuardedTables` that guarded dictionaries bear those calls and hold those keys.
Without the guard `KvTables.CodedTables` gives the exact condition (no DEL takes the last entry of
ht[0] while the rehash is on, with a later call that needs a step), `LogTables.ReplayTables` the same
for replaying a log, and `ReplayWitness.LoggedButNotLoaded` a server that executes SET a to f, GET a,
DEL b, SET g without harm and cannot load the log it wrote. The dictionaries of deadlines and watched
keys see no delete, so they never get stuck (`DictRuns.RunUnstuck`).

## How the model is built

* Characters stand for bytes and C strings are sequences without the final NUL. Integers are
  unbounded; where the width of a C integer matters it is written out (`Decimal.IsLong`,
  `Rdb.ToInt`, `Bits.And`, the 32-bit hash in `DictSpec.Bucket`).
* Code that updates memory is modelled twice: as classes and loops that change fields and arrays in
  place, and as functions on values that specify them. The methods' `ensures` clauses tie one to the
  other (`RedisServer`, `DictHeap`, `DictCursor`, `List`, `RingBuffer`, `Backlog`, `Sds`, `RdbFile`,
  the parsing loops of `Resp` and `Net`, `Aof.AofLoad`). The theorems are about the functions.
* `Outside`, `Overrun`, `Crash`, `Undefined` and `None` stand for what C leaves undefined: an
  index outside an array, a copy of a negative size, a value that was never read.
* Concurrency is a state machine. Queries of clients, the steps of the flush thread, delivery on a
  connection, and a crash are its actions, and theorems hold for every sequence of them.
* The time of day is an argument.

| module | models |
|---|---|
| Wrappers | an option type |
| Decimal | `printf` and `strtol` as the server uses them |
| Robj | src/robj.c: the encoding of a stored value |
| Resp, Net, Frames | src/resp.c, src/net.c: encoder, decoder, the two framing parsers, and every kind of message |
| Server, RedisServer | src/redis.c, src/db.c, src/client.c: the command state machine, as functions and as a class |
| Commands | what a client sees of the commands, their names, and what is logged and replicated |
| CommandTable, Djb2 | src/redis.c: the command table, and its hash and that of the key tables |
| Watching, Transactions, Counter | what transactions guarantee |
| KvTables, LogTables, ReplayWitness | the key dictionaries behind the databases, in every run, in replays and on replicas |
| AofHandoff, Aof, Recovery | src/aof.c: the two buffers, replay, crash recovery |
| Backlog, Replication | src/redis.c, src/repli.c: the backlog ring, the replica |
| Bits, DictSpec, DictLaws, DictRuns, DictRehash, DictCrash, DictIteration | src/dict.c as a value, its laws, runs, rehashes, crashes and iterator |
| DictHeap, DictCursor | src/dict.c on the heap |
| Rdb, RdbFile, Snapshot, Torn | src/rdb.c: codec, file procedures, round trip, files that are cut or wrong |
| Expiry | lazy against eager expiry |
| List, RingBuffer, Sds | src/list.c, src/ringbuffer.c, src/sds.c |

## What was found

* A client's dirty flag is never cleared, and EXEC drops every other flag of the client
  (src/redis.c:507-509). A client that was once refused is refused for good; a client of a replica
  gets writes through in EXEC that are refused outside it (`Transactions.ReplicaExecStores`).
* A delete during a rehash can leave nothing to move; the next rehash step then runs off the table
  (`DictLaws.DeleteOk`, `DictCrash.RunCrashesIff`). The completion check, run after a delete too,
  would prevent it (`DictRuns.RepairedRefines`). Since GETs take rehash steps and are not logged, a
  server can write a log that it cannot load (`ReplayWitness.LoggedButNotLoaded`).
* The load bound holds through a resize exactly when the resize is not a shrink
  (`DictRuns.ExpandLoad`); after any shrink, adds can leave more entries than buckets
  (`DictRehash.ShrinkOverloads`).
* The iterator passes over bucket 0 of the second table when it comes to it from the first
  (`DictIteration.IterationComplete`), and a database whose keys are all in the second table counts
  as empty (src/dict.c:595-598). Snapshots lose those keys (`Snapshot.SnapshotRoundTrip`).
* Snapshot values: integers outside 0..2^31-1, the number 32768, and texts of 2^14 bytes or more do
  not come back (`Rdb.ValueRoundTrip`).
* The backlog answers only offsets before the first wrap correctly (`Backlog.Backlog.Sync`), and its
  begin offset lags behind (`Backlog.BeginLags`).
* An append-sync's bytes are counted twice by the replica, so a second resume can skip commands
  (`Replication.SkipReached`), and one read with several writes executes the first and counts
  all (`Replication.ReadExecutesFirst`).
* With the append-only file on, the read buffer is already empty when a write is replicated, so
  nothing is replicated (`Server.Record`).
* A main thread that has loaded the buffer pointer before a swap can append to a buffer that is about
  to be cleared (`AofHandoff.LateAppendLost`).
* A deadline outlives its key and the first deadline wins, so a SET after the deadline is lost
  (`Expiry.LateSetIsLost`).
* The bulk operations of the ring buffer are undefined whenever they split a copy that does not
  reach the end of the array (`RingBuffer.RingBuffer.EnqueueBulk`, `RingBuffer.RingBuffer.DequeueBulk`).
* A message in the log that is no command, and the same in an append-sync, makes every command behind
  it stay unexecuted without an error (`Aof.StrayMessage`, `Replication.SyncStray`).
* A snapshot for one database more than there are is let through and leaves the array
  (`Torn.NumberRange`).
* `:-5` is not framed as a number (`Frames.NotNumber`).
* `*0` is never framed (`Resp.EmptyRequestNeverFramed`), and the two parsers part on an empty bulk
  string (`Net.ParsersAgree`).
* An append in place does not lower a string's free room, so runs of appends and clears leave the
  allocation (`Sds.RunInside`, `Sds.ThreeMessagesOverrun`), a replay of more than 2049 bytes among
  them (`Sds.ChunksFit`); and a drained buffer keeps old bytes that a C reader finds after a shorter
  text (`Sds.StaleTail`).
* The request encoder doubles its buffer at most once an argument (`Resp.EncodeArrayString`).

## Model

| member | source | states |
|---|---|---|
| KvTables.RunExtends | src/redis.c:1092-1187 | In every run of any clients, transactions and expiry included, each database holds exactly what the calls made on its key dictionary leave in a plain map. |
| KvTables.HandlerMatches | src/db.c:93-117 | The calls of SET, GET and DEL (look up and replace or add, fetch, delete) answer what the handler replies. |
| KvTables.CallsMatch | src/db.c:138-151 | With lazy expiry before the handler, the calls of a command leave the handler's table. |
| KvTables.GuardedTables | src/dict.c:144-156 | With the completion check after each call, the dictionaries bear every such run and hold exactly the databases' keys. |
| KvTables.CodedTables | src/dict.c:464-520 | As coded, a dictionary bears the run if and only if no delete of it takes the last entry of ht[0] while the rehash is on with a later call that needs a step; then it holds the database's keys. |
| Counter.NoLostUpdates | src/redis.c:504-546 | Any number of clients, each running WATCH k, GET k, MULTI, SET k (value read + 1), EXEC, in any interleaving: k holds its initial value plus the number of EXECs that committed; no client commits twice, and the first EXEC commits. |
| Counter.AdvanceSafe | src/redis.c:1043-1058 | Every query of every client keeps the invariant behind it: the stored value counts the commits, whoever committed is dirty, and a client that is not dirty and has read k has read its current value with its watch in force. |
| Counter.CommitQuery | src/redis.c:504-530 | A committing EXEC stores the number, marks every watcher of k dirty, the committer included, and leaves the other clients alone. |
| Counter.RefusedQuery | src/redis.c:507-515 | EXEC of a dirty client changes no stored value and no other client. |
| Watching.CommitSafety | src/redis.c:504-546 | After any run from fresh clients, EXEC answers "err dirty", runs nothing, records nothing and leaves every other client as it was, if some key was written in its database after this client's WATCH on it, by whichever client; and only then: otherwise, when it completes, its answer is "Exec ok". |
| Watching.RunMirrors | src/redis.c:1043-1058 | In every run the watch lists hold exactly the watches with no write since, and the dirty flags mark exactly the clients with a write after a watch. |
| Watching.PlainNoted | src/redis.c:1092-1124 | Every query outside EXEC either adds one event to the history, with its exact effect on lists and flags, or changes none of them. |
| Watching.AddWatchesListed | src/db.c:159-174 | WATCH with several keys puts the client on the list of each of them and changes no other list. |
| Watching.ExecRefused | src/redis.c:507-515 | A dirty client's EXEC: databases, log and stream unchanged, queue emptied, still dirty. |
| Watching.ExecAccepted | src/redis.c:516-530 | A clean client's completed EXEC ends with "Exec ok". |
| Counter.BeginExists | src/redis.c:852-955 | The start those theorems assume exists for any number of clients and any counter that leaves room for them. |
| Commands.DataQuery | src/redis.c:1092-1124 | An executed data query does to its client's database what its handler does after lazy expiry of its key, gives that answer, and touches no other database. |
| Commands.GetAnswers | src/redis.c:212-224 | GET answers the shown value of a key that is there and not late; a late key is dropped. |
| Resp.BulkReplyFits | src/resp.c:87-92 | The reply encoder stays inside its 1024 bytes if and only if the text has at most 1014. |
| Commands.SetGet | src/redis.c:182-224 | After a SET, GET finds the value exactly up to the deadline the key had before; the SET neither sets nor clears one. |
| Commands.DelGet | src/redis.c:226-239 | Under the completion guard, after a DEL no GET finds the key, and its answer says whether it was there and not late. |
| Commands.ExpireWindow | src/redis.c:458-480 | After EXPIRE k n at some moment, GET finds the key up to that moment plus n, and not after. |
| Commands.FirstDeadlineStands | src/db.c:118-121 | EXPIRE of a key with a deadline is refused, whatever its argument, and the first deadline stands. |
| Commands.ExpireAnswers | src/redis.c:458-480 | EXPIRE with any argument whatever: no deadline is set unless the text is one whole decimal number in range and the key has none; then it is that many seconds from now, and one change is counted. |
| Commands.SetMisses | src/redis.c:182-210 | SET without a value stores nothing, says so and counts no change. |
| Commands.PingAnswers | src/redis.c:292-297 | PING is answered and nothing else happens. |
| Commands.WatchAnswers | src/redis.c:538-546 | WATCH of any keys is answered OK and changes no value, deadline, log or client, and no list but those of the named keys. |
| Commands.MultiAnswers | src/redis.c:498-502 | MULTI with any arguments marks the client, is answered OK and changes nothing else. |
| Commands.WordsMissing | src/redis.c:182-239 | A data command or SELECT without the words its handler reads goes outside its arguments. |
| Commands.ExtraWords | src/redis.c:182-239 | Words behind those that are read make no difference. |
| Commands.NameIs | src/redis.c:977-997 | Each of the nine modelled commands is named by its own letters in any mix of cases, and by nothing else. |
| Commands.LeftOutIs | src/redis.c:61-72 | The same for the nine commands of the table that are not modelled. |
| Commands.ExecPrefixIs | src/redis.c:1174-1174 | What MULTI does not queue: the names whose first four letters are exec in any mix of cases. |
| Commands.ExecLike | src/redis.c:1174-1186 | Such a name that is longer is answered "Invalid command", in MULTI too, and is not queued. |
| Commands.UnknownRefused | src/redis.c:977-997 | A name that is none of the table's is answered "Invalid command" and nothing happens. |
| Commands.ReplicaRefuses | src/redis.c:957-970 | A replica answers SET, DEL and EXPIRE of an ordinary client "Invalid command", whatever their arguments, and nothing happens. |
| Commands.WriteRecorded | src/redis.c:1107-1135 | Every executed SET, DEL or EXPIRE, whatever it answers and in whichever database, is logged exactly when the append-only file is on and the client is no fake one, and streamed exactly when the server is a master and it was not logged. |
| Commands.OtherUnrecorded | src/redis.c:1107-1135 | Every other query outside EXEC, and every queued one, leaves log and stream as they are. |
| CommandTable.LookupMeetsAll | src/redis.c:140-154 | Loading the eighteen commands leaves the command table in the middle of a rehash for ever, and yet the iteration of a lookup meets every command exactly once. |
| Djb2.InThirtyTwo | src/redis.c:140-154 | Where the hash puts an ASCII name among 32 buckets: by the sum of its character codes. |
| Djb2.OneByte | src/redis.c:79-87 | The hash of one byte, which counts as negative from 128 on. |
| Commands.SelectMoves | src/redis.c:434-456 | SELECT moves the client to any database in range, changing no data; out of range it leaves the array. |
| Commands.SelectAnswers | src/redis.c:434-456 | SELECT with any argument: an error unless it is one whole decimal number; then its reply names the database, or it leaves the array. |
| Transactions.ExecTransparent | src/redis.c:498-530 | A committed EXEC of up to ten queued commands leaves the databases, log, stream and other clients that sending the commands one by one leaves, gives the same replies followed by "Exec ok", ends outside MULTI with an empty queue, and the two go outside the model on the same inputs. |
| Transactions.ExecSame | src/redis.c:504-530 | The same from any two states that differ only in what the client was answered before. |
| Transactions.QueueFills | src/client.c:153-159 | Inside MULTI any requests, up to ten with those already there, are queued behind them in the order they are sent, each answered "queued", and nothing else changes. |
| Transactions.QueueFull | src/client.c:153-159 | An eleventh request is written outside the ten places. |
| Transactions.TransactionOfRequests | src/redis.c:498-530 | From the requests: MULTI, up to ten commands and EXEC leave the databases, log, stream, dictionary calls and other clients that the commands alone leave; the replies are OK, one "queued" each, the commands' own, and "Exec ok". |
| Transactions.RunQueueSame | src/redis.c:516-527 | The queue loop, from any position, simulates the run of the commands left. |
| Transactions.QueueRunsAway | src/redis.c:516-527 | If the client is in MULTI while its queue is run, the loop queues its own commands until the queue overflows. |
| Transactions.ReplicaExecStores | src/redis.c:507-527 | On a replica, a queued SET of an ordinary client is stored by EXEC, though the same SET sent directly is refused: why transparency excludes it. |
| Transactions.DirectSetRefused | src/redis.c:957-1000 | The SET that EXEC stores is refused when it is sent directly. |
| RedisServer.RedisServer.constructor | src/redis.c:852-955 | A new server is an initial state of the state machine. |
| RedisServer.RedisServer.ProcessClientQuery | src/redis.c:1160-1187 | The handler on mutable clients and databases makes exactly the step of the state machine. |
| RedisServer.RedisServer.ProcessCommand | src/redis.c:1092-1149 | Lookup, execution, touching of watches, logging and replication in the order of the code. |
| RedisServer.RedisServer.CommandExec | src/redis.c:504-536 | EXEC in place: flags, queue loop, reply, reset. |
| RedisServer.RedisServer.CommandWatch | src/redis.c:538-546 | WATCH in place. |
| RedisServer.RedisServer.TouchWatchKey | src/redis.c:1043-1058 | Walks the key's watch list, marks its clients and empties it. |
| RedisServer.RedisServer.CommandSet | src/redis.c:182-205 | SET in place: the effect, the reply and the dirty counter; nothing else changes. |
| RedisServer.RedisServer.CommandGet | src/redis.c:212-224 | GET in place. |
| RedisServer.RedisServer.CommandDel | src/redis.c:226-239 | DEL in place. |
| RedisServer.RedisServer.CommandExpire | src/redis.c:458-480 | EXPIRE in place: refused when the key has a deadline already. |
| RedisServer.RedisServer.CommandSelect | src/redis.c:434-456 | SELECT in place. |
| AofHandoff.StepAgrees | src/aof.c:72-116 | A step keeps "file, then unwritten bytes, then active buffer, are the append history, and the other buffer is empty while no flush is under way" if and only if it is neither an append through a pointer that was swapped away and is not being written, nor a short write. |
| AofHandoff.RunAgrees | src/aof.c:87-116 | Every interleaving of such steps keeps it, and what a crash leaves in the file, last write torn or not, is a prefix of the history. |
| AofHandoff.AtomicHarmless | src/redis.c:1107-1113 | With appends that are atomic with respect to the swap, and complete writes, every interleaving is of that kind. |
| AofHandoff.RoundWritesAll | src/aof.c:86-115 | A flush round starts exactly when something is not in the file yet, and with no append between it brings the whole history into the file and leaves both buffers empty. |
| AofHandoff.LateAppendLost | src/aof.c:95-109 | Without that atomicity there is an interleaving in which a logged command vanishes. |
| Aof.AofLoad | src/aof.c:18-43 | Chunked reading, framing, dumping, decoding, execution and cutting, on guarded string buffers in memory: the server ends as the replay function says. |
| Aof.ReplayRoom | src/aof.c:18-43 | Without the string guard, replaying n bytes of a log keeps the file buffer, the read buffer and the fake client's reply buffer inside their allocations if and only if n is at most 2049, every command that is replayed is at least as long as the capacity the one before left (more than twice as long below 1024 bytes), and no reply is longer than the real room of the reply buffer but not than the recorded one. |
| Aof.ThreeSetsOverrun | src/sds.c:88-99 | A log of SETs of 27, 27 and 60 bytes: without the guard its replay writes outside the read buffer. |
| Aof.ThreeRepliesOverrun | src/client.c:65-68 | A log of SETs of 27, 55 and 111 bytes: file and read buffers bear it, the third reply is written outside the reply buffer. |
| LogTables.SetsReply | src/redis.c:199-204 | SETs of values are all answered OK. |
| LogTables.ThreeSetsReply | src/client.c:65-68 | So without the string guard no replay of three or more SETs of values, and nothing else, stays inside its reply buffer. |
| Aof.ReplayPrefix | src/aof.c:18-43 | Replaying any byte-prefix of a log executes exactly the commands that lie wholly within it, in order. |
| Aof.WholeInLongest | src/aof.c:36-42 | Those commands are the longest sequence of whole commands in the prefix. |
| Aof.StrayMessage | src/aof.c:33-41 | A message in the log that is no array, between whole commands, ends the replay without an error: the commands in front of it are executed and none of those behind. |
| Aof.StrayOutside | src/aof.c:33-41 | An array of negative length, or a line that starts with no type byte, leads outside the model once the commands in front are executed. |
| Aof.ReplyFramed | src/resp.c:34-92 | Every reply is one whole message to both parsers, except that the second stops early at an empty value. |
| Aof.ReplyLengths | src/resp.c:34-92 | How many bytes each reply has. |
| Recovery.CrashRecovery | src/aof.c:18-116 | End to end, under both guards: any run of SET, DEL, GET, WATCH, MULTI, EXEC and PING of any clients, any harmless interleaving with the flush thread, a crash at any byte and before everything logged has been appended; reloading the file executes exactly the longest whole-command prefix and rebuilds the database those commands produced. |
| Recovery.RunMirrors | src/redis.c:1107-1119 | In every such run, transactions included, the database is the fold of the logged writes. |
| Recovery.LoadAll | src/redis.c:1160-1187 | Executing a sequence of writes on the loading client, under the completion guard, folds them into the database, and logs nothing again. |
| LogTables.ReplayTables | src/aof.c:36-42 | The dictionary calls of a replay are exactly those of its writes; a guarded empty dictionary bears them and ends with the folded keys; as coded it does so if and only if no DEL of the log takes the last entry of ht[0] while the rehash is on with a later call that needs a step. |
| LogTables.DataRun | src/redis.c:1092-1124 | SETs, GETs and DELs one after the other make exactly their dictionary calls. |
| LogTables.DataLog | src/redis.c:1107-1113 | And log exactly the writes among them. |
| LogTables.ReplayExtends | src/aof.c:36-42 | In every replay of any file the dictionary calls account for the keys. |
| LogTables.SystemExtends | src/repli.c:85-102 | In every run of master and replica the dictionary calls on both account for their keys. |
| ReplayWitness.LoggedButNotLoaded | src/dict.c:464-506 | With the hash of the key table: a server that executes SET a, b, c, d, e, f, GET a, DEL b, SET g bears it and logs the writes; replaying that log crashes the table as coded. |
| Replication.ReplicaIsPrefix | src/repli.c:402-409 | Counting each byte once, wrapping the read of the backlog, under both guards: after every run of master queries, deliveries, disconnects and append-sync resumes, up-to-date replicas and streams of any length included, the replica's database is the fold of a prefix of the master's write stream, its offset is that prefix's byte length, and the master's database is the fold of the whole stream. |
| Replication.BeginExists | src/repli.c:402-409 | The start it assumes exists for any number of clients. |
| Replication.ReplicaIsPrefixCountedTwice | src/repli.c:85-102 | With the double count and the backlog read of the code, under both guards, and at most one resume: the database is still such a prefix; the offset is its length if and only if there was no resume. |
| Replication.CountedTwiceIff | src/repli.c:85-102 | Over all runs with the double count: replica and offset are exact at every moment if and only if the run has no resume. |
| Replication.ResumeHappens | src/redis.c:299-319 | With the wrapping read, a resume with an exact offset succeeds if and only if the replica is at most 1024 bytes behind. |
| Replication.ResumeSkips | src/repli.c:101-101 | A resume while the offset is ahead by the length of the next j commands skips those j commands for good, for every j. |
| Replication.SkipReached | src/repli.c:85-102 | SET a 1, resume, SET b 1, disconnect, SET c 1, resume, from a start: the replica ends with a database that is the fold of no prefix of the three writes. |
| Replication.ReadWithTail | src/redis.c:1246-1262 | A read with a write and more bytes behind it executes the write and counts everything; the offset is exact if and only if nothing was behind it. |
| Replication.StaleOffset | src/redis.c:1019-1019 | Without the string guard, MULTI, SET a 1, GET 123456789, EXEC propagate 28 bytes for the SET's 27, and the replica's offset moves by 28 with no resume. |
| Replication.QueuedWriteStale | src/sds.c:132-139 | That read buffer holds the SET, and read as a C string the SET and the last byte of the GET. |
| Replication.SkippedIsNoPrefix | src/repli.c:85-102 | A skipped command can leave a database that no prefix of the stream produces. |
| Replication.StepPrefix | src/redis.c:1126-1141 | Every step but a resume keeps the prefix property and the offset's distance from the prefix length, whatever that distance is. |
| Replication.ResumePrefix | src/redis.c:299-319 | A resume with an exact offset brings the replica up to the whole stream. |
| Replication.SyncAll | src/repli.c:85-102 | An append-sync of whole writes executes all of them and leaves no byte. |
| Replication.ReadExecutesFirst | src/redis.c:1246-1262 | One read with several writes executes the first, and the offset is exact if and only if there was one. |
| Replication.RequestCounts | src/redis.c:1135-1141 | A request that the replica executes moves its offset if and only if it names SET, DEL or EXPIRE: by everything the read returned, or by its message in an append-sync. |
| Replication.SyncStray | src/repli.c:85-102 | An append-sync with a message in front that is no array executes none of the commands behind it; counted once the offset stands still, and as coded it moves past them all. |
| Replication.SyncOutside | src/repli.c:85-102 | An append-sync with an array of negative length in front, or a line that starts with no type byte, leads outside the model. |
| Replication.TornRead | src/resp.c:121-128 | A read that ends inside the text of an argument is decoded past its end. |
| Replication.DoAppendSync | src/repli.c:85-102 | The loop in place on guarded buffers: server, leftover bytes and offset as the function says, bytes added once more at the end. |
| Replication.StreamGrows | src/redis.c:1126-1135 | No query takes anything out of the stream. |
| Backlog.Backlog.AddRepliBuf | src/redis.c:1062-1081 | After any writes of at most 1024 bytes each, byte o of the stream, for the last 1024, is in slot (o+1) mod 1024. |
| Backlog.Backlog.Sync | src/redis.c:299-319 | The reply is exactly stream[offset..last) if and only if the offset is within the stream and the ring has not wrapped; after the wrap it reads past the buffer for the offsets it accepts. |
| Backlog.Backlog.SyncWrapped | src/redis.c:299-319 | With the read wrapped around the end, the ring yields exactly the missing bytes for every offset among the last 1024, before a wrap and after. |
| Backlog.Backlog.CopyIn | src/redis.c:1068-1080 | The two copies put every byte of the write in its slot and leave the other slots. |
| Backlog.SourceOfSlot | src/redis.c:1064-1080 | Which byte of a write lands in the slot of stream byte o. |
| Backlog.BeginLags | src/redis.c:1076-1079 | A run of writes after which begin_offset names a byte that was overwritten. |
| Backlog.NextBeginIs | src/redis.c:1064-1076 | A write that wraps moves begin_offset to the first offset from where it was that the wrapped part, counted modulo 1024, does not reach; other writes leave it. |
| DictRuns.RunRefines | src/dict.c:299-520 | Every run of add, replace, fetch, find and delete that does not crash answers as one finite map does, and the two tables hold exactly that map, in valid shape, at every moment. |
| DictRuns.RunFromEmpty | src/dict.c:285-405 | From an empty dictionary no run without deletes crashes, and it answers as an empty map does. |
| DictRuns.RunUnstuck | src/dict.c:237-405 | From a dictionary that is not stuck, no run without deletes crashes or gets stuck. |
| DictRuns.RepairedRefines | src/dict.c:144-156 | With the completion check after each call no run crashes, deletes included, and every run answers as the map does. |
| DictRuns.OpRefines | src/dict.c:359-520 | One call: same answer and same map; it crashes if and only if the rehash is on with nothing to move and the call takes a rehash step. |
| DictLaws.AddOk | src/dict.c:336-373 | A present key is refused and nothing changes; an absent one is added and every other key keeps its value; crash exactly when stuck. |
| DictLaws.ReplaceOk | src/dict.c:382-391 | Overwrites a present key in whichever table holds it, and only that key. |
| DictLaws.FetchOk | src/dict.c:393-404 | One rehash step and the same map; crash exactly when stuck. |
| DictLaws.DeleteOk | src/dict.c:464-520 | Removes the key and nothing else; leaves the dictionary stuck exactly when the deleted entry was the last of ht[0] with the rehash still on. |
| DictLaws.RehashStepOk | src/dict.c:109-157 | One step moves one entry, keeps the map, the uniqueness of keys across the tables, each entry in its bucket, the counters, and the buckets below the cursor empty. |
| DictLaws.ExpandIfNeedOk | src/dict.c:166-229 | A resize keeps the map, gives a power of two, and neither causes nor cures the stuck state. |
| DictLaws.ResizeIff | src/dict.c:194-229 | The first table has four buckets; one with as many entries as buckets doubles; one with more than four entries in more than five times as many buckets shrinks to the power of two at or above its entries; no other table is resized. |
| DictLaws.AddsAtHead | src/dict.c:256-264 | Without a rehash a new key goes in front of the entries of its chain. |
| DictLaws.StepMovesHead | src/dict.c:109-157 | A step takes the head of the first bucket that is not empty and puts it in front of its chain in the second table; the rehash ends exactly when it was the last. |
| DictSpec.MovableIff | src/dict.c:113-127 | A rehash step finds an entry to move if and only if ht[0] is not empty. |
| DictRuns.CompleteOk | src/dict.c:144-156 | The completion check, run after a delete, leaves the same map and no stuck state. |
| DictCrash.RunCrashesIff | src/dict.c:109-127 | A run of calls from a dictionary that is not stuck crashes if and only if one of its deletes takes the last entry of ht[0] while the rehash is still on and some later call needs a step; which calls need one is read off the map held. |
| DictCrash.OpStuckIff | src/dict.c:464-506 | A call leaves the dictionary stuck exactly if it is such a delete. |
| DictRuns.StuckReachable | src/dict.c:502-506 | The stuck state is reached by an add, a fetch and a delete on four keys. |
| DictRuns.FullReached | src/dict.c:359-373 | Those four keys are reached by four adds to an empty dictionary. |
| DictRuns.ExpandLoad | src/dict.c:194-229 | A resize keeps `ht[1].used + 2*ht[0].used <= ht[1].size` if and only if it is not a shrink. |
| DictRuns.RunLoad | src/dict.c:194-265 | Runs without deletes from a dictionary that is not stuck do not crash, no shrink ever starts, and used never exceeds size while no rehash is on. |
| DictRuns.DrainEnds | src/dict.c:109-157 | A rehash ends after exactly as many bare steps as ht[0] has entries. |
| DictRehash.RehashEnds | src/dict.c:237-404 | With adds, fetches, finds and replaces in any order, a rehash ends with exactly the call that makes as many steps as ht[0] had entries, and the table left has ht[1]'s size and all entries. |
| DictRehash.AddsEnd | src/dict.c:237-265 | As many adds as ht[0] has entries end the rehash with `ht[1].used + 2*ht[0].used` entries; used is then within size if and only if the rehashing form of the bound held at the start. |
| DictRehash.ShrinkOverloads | src/dict.c:210-225 | From every dictionary within the bound that wants to shrink, as many adds as it has entries end with more entries than buckets and no rehash on. |
| DictRehash.SkipReached | src/dict.c:572-577 | One add after a full table the iterator passes over a bucket. |
| DictIteration.IterationComplete | src/dict.c:551-590 | Iterating an unchanged dictionary yields every entry exactly once if and only if ht[0] is empty or bucket 0 of ht[1] is. |
| DictIteration.YieldsRemaining | src/dict.c:560-590 | Repeated calls end, and yield the remaining entries in order across buckets, chains and tables. |
| DictIteration.SkippedMissing | src/dict.c:572-577 | A key of the bucket that is passed over is held but never yielded. |
| DictCursor.Iterator.Next | src/dict.c:560-590 | The iterator on the heap makes exactly the step of the value iterator. |
| DictHeap.Dict.RehashStep | src/dict.c:109-157 | On linked entries and bucket arrays, in place: the step of the value model, heap shape kept. |
| DictHeap.Dict.ExpandIfNeed | src/dict.c:194-229 | In place: grow on equality, shrink below a fifth. |
| DictHeap.Dict.Find | src/dict.c:299-328 | Returns the entry exactly when the key is held, from either table. |
| DictHeap.Dict.AddEntry | src/dict.c:237-265 | In place: head of the chain in ht[1] and a rehash step while rehashing, in ht[0] otherwise. |
| DictHeap.Dict.Add | src/dict.c:336-373 | In place. |
| DictHeap.Dict.Replace | src/dict.c:382-391 | In place. |
| DictHeap.Dict.FetchValue | src/dict.c:393-404 | In place. |
| DictHeap.Dict.Delete | src/dict.c:464-520 | In place: chain relinked, counter lowered. |
| DictHeap.Dict.Size | src/dict.c:600-602 | Entries of both tables. |
| Bits.NextPower | src/dict.c:66-74 | The doubling loop computes the power that NextPowIs characterises. |
| Bits.NextPowIs | src/dict.c:66-74 | It is a power of two, not below n, and the least such. |
| DictSpec.BucketIsMask | src/dict.c:130-131 | For a power of two, masking a 32-bit hash is the remainder. |
| Rdb.LoadEncLen | src/rdb.c:57-74 | The 1, 2 and 5 byte length codes are read back exactly, for every 32-bit length and whatever follows, and take 1, 2 and 5 bytes. |
| Rdb.ValueRoundTrip | src/rdb.c:76-106 | A stored value comes back, with the reader right after it, if and only if it is an integer in 0..2^31-1 other than 32768, or a text shorter than 2^14 bytes. |
| Rdb.LoadEncInt | src/rdb.c:270-295 | What every integer comes back as. |
| Rdb.LoadEncText | src/rdb.c:296-311 | What every text comes back as, and how many bytes the reader takes; a long one is read as a number. |
| Rdb.LoadEncKey | src/rdb.c:321-330 | A key comes back, or overruns the key buffer exactly when it is longer than 1024 bytes. |
| Rdb.LoopEntry | src/rdb.c:371-403 | The load loop on one saved entry stores it with its deadline, or goes wrong exactly when its key does not fit. |
| Rdb.SnapshotLoads | src/rdb.c:350-403 | What a saved snapshot of any number of databases loads as, exactly, into empty databases. |
| Snapshot.SnapshotRoundTrip | src/rdb.c:129-174 | Loading a snapshot saved from the dictionaries restores every database's keys and values and the deadlines of the keys it holds, and nothing else, if and only if: the save procedure reaches every key of every dictionary, numbers of databases in use are below 256, keys take at most 1024 bytes, values are representable, and the deadlines of held keys are positive. |
| Snapshot.LoadFilePlausible | src/rdb.c:270-311 | No saved file, however its bytes are misread, loads a text of 2^14 bytes or more or fills a database numbered 256 or above. |
| Torn.SnapshotCut | src/rdb.c:350-403 | Every strict prefix of a saved file, however it was interrupted, is read past its end: by no defined behaviour does it load. |
| Torn.OtherFormat | src/rdb.c:360-369 | A file is left alone if and only if one of its first nine bytes is not that of the format. |
| Torn.NumberRange | src/rdb.c:379-388 | A database number beyond the databases ends the server; one past the last is let through, and its first entry leaves the array. |
| Torn.OutsideArray | src/rdb.c:395-397 | So does an entry before any database number. |
| Torn.OtherType | src/rdb.c:331-344 | An entry of another type is not loaded. |
| Torn.KeyLimit | src/rdb.c:321-330 | A key fits the buffer it is read into if and only if it has at most 1024 bytes. |
| Torn.ReservedByte | src/rdb.c:247-268 | A first byte that is no length and no integer code reads as an empty text. |
| Torn.ShortKey | src/rdb.c:321-330 | A key whose bytes end early is what there is of it. |
| Torn.LongInteger | src/rdb.c:290-298 | An integer of eleven characters comes back without its last. |
| Torn.RepeatedKey | src/rdb.c:389-402 | Of a key that comes twice the later value stands, and the first positive deadline. |
| Torn.GoldenFile | src/rdb.c:129-174 | A file of two databases, byte by byte. |
| Snapshot.AllSaved | src/rdb.c:145-170 | Every held key is saved if and only if no bucket is passed over and ht[0] is not empty while ht[1] is in use. |
| RdbFile.RdbSave | src/rdb.c:129-174 | The save procedure with its iterators writes the specified file. |
| RdbFile.RdbLoad | src/rdb.c:350-403 | The load loop with its cursor, current database and pending deadline fills the databases as specified. |
| RdbFile.File.LoadLen | src/rdb.c:247-268 | Reads a length at the cursor, advancing it as specified. |
| RdbFile.File.LoadValue | src/rdb.c:270-311 | Reads a value at the cursor, stepping back one byte for texts. |
| RdbFile.File.SaveLen | src/rdb.c:57-74 | Appends the length code. |
| RdbFile.File.SaveValue | src/rdb.c:76-106 | Appends the value code. |
| Robj.CreatePrint | src/robj.c:76-110 | The printed form of every long is stored as that integer. |
| Robj.ShowCreate | src/robj.c:170-202 | A stored text is shown unchanged if and only if it is a number in printed form, or other text below 1024 bytes. |
| Robj.CanonicalIff | src/robj.c:170-182 | Which objects storing a text can produce. |
| Robj.CreateIntIff | src/robj.c:76-107 | A text is stored as the integer n if and only if n is a long and the text is 0x or 0X and hexadecimal digits of value n, or white space, a sign or none, and decimal digits of that value. |
| Robj.CreateHex | src/robj.c:82-107 | Every number printed in hexadecimal, in small or capital letters after 0x or 0X, is stored as itself; beyond a long, as text. |
| Robj.CreateDecimal | src/robj.c:82-107 | Leading zeros and a plus or minus sign make no difference to the stored number; beyond a long it is text. |
| Robj.CreateSpaced | src/robj.c:89-97 | Nor does white space in front. |
| Robj.CreateTail | src/robj.c:91-97 | A number with anything behind it that is no digit is text. |
| Robj.TextSplit | src/robj.c:170-182 | Text of up to 31 bytes is kept with its object, longer text apart from it. |
| Robj.ShowCut | src/robj.c:184-203 | Text of more than 1023 bytes is shown cut to 1023. |
| Decimal.ScanPrint | src/resp.c:57-80 | What `printf` wrote, `strtol` reads back, whatever follows. |
| Decimal.StrtolClips | src/resp.c:315-317 | A number beyond a long is read as the nearest end of the range. |
| Resp.EncodeArrayString | src/resp.c:57-80 | The loop writes the array of bulk strings if its buffer, doubled at most once an argument, holds it, and exactly then. |
| Resp.SmallEncodable | src/resp.c:59-73 | Every request of less than 1024 bytes is held. |
| Resp.LargeNotEncodable | src/resp.c:67-71 | No request with a first argument of 2048 bytes or more is. |
| Resp.RespParseAt | src/resp.c:297-343 | The recursive cursor parser computes the specified frame. |
| Resp.DecodeAt | src/resp.c:102-131 | The decoding loop computes the specified arguments. |
| Resp.EncodeParse | src/resp.c:297-343 | For every non-empty request and any trailing bytes the parser stops at the last byte of the encoding. |
| Resp.EncodeCut | src/resp.c:297-343 | It rejects every strict prefix of the encoding. |
| Resp.DecodeEncode | src/resp.c:102-131 | Decoding returns the original arguments, with CR and LF in them and bytes after them. |
| Resp.EncodeInjective | src/resp.c:57-80 | Different requests have different encodings. |
| Resp.EmptyRequestNeverFramed | src/resp.c:326-332 | `*0` is rejected with whatever follows it. |
| Frames.MessageFramed | src/resp.c:297-343 | Every message of the protocol, arrays of arrays included, is framed whole, whatever follows it. |
| Frames.MessageCut | src/resp.c:297-343 | No strict prefix of one is framed. |
| Frames.NotNumber | src/resp.c:308-313 | A number line with anything but digits, a minus sign included, is not framed. |
| Frames.UnknownKind | src/resp.c:339-343 | For a line that starts with no type byte the function returns nothing at all. |
| Frames.WrongBulk | src/resp.c:314-326 | A bulk string with a length below -1, too few bytes, or no CRLF behind it is framed by neither parser. |
| Frames.OtherItem | src/resp.c:114-120 | Decoding rejects an array with an item that is no bulk string, or that ends before an item. |
| Frames.CutItem | src/resp.c:121-128 | An item cut inside its text is read past the end; without its CRLF it is taken as the last, and otherwise the next is read past the end. |
| Frames.NegativeRead | src/resp.c:108-126 | A negative count or length is used as it is, outside the text. |
| Frames.GoldenRequest | src/resp.c:57-80 | A request, byte by byte. |
| Net.ParsersAgree | src/net.c:358-439 | On every buffer that respParse accepts with decimal headers, nested arrays included, getRespLength returns the same length if and only if no bulk string is empty; otherwise nothing, or two bytes less. |
| Net.GetRespLength | src/net.c:358-439 | The scanning and recursing code computes the specified length. |
| Net.EndsWithCrlf | src/resp.c:297-343 | Everything respParse accepts ends with CRLF. |
| Frames.MessageLength | src/net.c:358-439 | Every message without an empty bulk string has the length that getRespLength returns. |
| Frames.MessageShort | src/net.c:358-439 | On no strict prefix of one does it return a length. |
| Frames.HeaderOnly | src/net.c:392-420 | An array of any negative length is its header to both parsers; to the second so is an empty array and a bulk string of no or negative length. |
| Frames.LengthOverflows | src/net.c:388-392 | A length or count of 32 characters, or beyond an int, overruns its buffer or its type. |
| Expiry.LazyEqualsEager | src/db.c:138-151 | Under the completion guard, at every moment of every run of SET, GET, DEL and EXPIRE with a clock that does not go back, every GET that could be sent is answered as a store answers it that drops keys the moment they expire, if and only if no SET hits a key whose recorded deadline has passed. |
| Expiry.StepRelated | src/redis.c:1114-1119 | Every command keeps the stores equal on keys that are not late, and absent in the reference on late ones unless it is a late SET. |
| Expiry.LateSetIsLost | src/db.c:118-151 | After a SET past the recorded deadline the next GET does not find the key, where the reference does. |
| List.List.AddHead | src/list.c:39-54 | Forward chain, backward chain, ends and length hold the new node followed by the old sequence. |
| List.List.AddTail | src/list.c:55-70 | The old sequence followed by the new node. |
| List.List.Insert | src/list.c:71-100 | Before or after the given node. |
| List.List.Delete | src/list.c:152-176 | The sequence without the node. |
| List.List.Rotate | src/list.c:177-190 | The last node moved to the front. |
| List.List.Index | src/list.c:124-147 | The node at a signed index, or none. |
| List.PositionFromEnds | src/list.c:124-145 | Index k counts from the head and -1 - k from the tail; past the other end there is none. |
| List.Search | src/list.c:101-123 | The first node with the value, or none. |
| List.RotatedByIs | src/list.c:177-190 | n rotations bring the last n elements to the front in order. |
| List.RotateAround | src/list.c:177-190 | As many rotations as there are elements change nothing. |
| List.InsertRemove | src/list.c:71-176 | Delete undoes insert and insert undoes delete. |
| RingBuffer.RingBuffer.Enqueue | src/ringbuffer.c:26-34 | A push on a queue of at most 1023 bytes; refused when full, and then nothing changes. |
| RingBuffer.RingBuffer.Dequeue | src/ringbuffer.c:76-83 | The first byte out. |
| RingBuffer.RingBuffer.EnqueueBulk | src/ringbuffer.c:35-53 | A bulk push on the queue; undefined exactly when it would fit but the tail is below the head, or both queue and request are empty with tail at head; otherwise as the queue says, and refused changes nothing. |
| RingBuffer.RingBuffer.DequeueBulk | src/ringbuffer.c:60-75 | A bulk pop; undefined exactly when it fits, the head is not below the tail, and it ends before the end of the array. |
| RingBuffer.RingBuffer.EnqueueBulkMin | src/ringbuffer.c:35-53 | Split at the smaller of size and the room at the end, the bulk push is never undefined and does what the queue does. |
| RingBuffer.RingBuffer.DequeueBulkMin | src/ringbuffer.c:60-75 | Likewise the bulk pop. |
| RingBuffer.RingBuffer.PerformAll | src/ringbuffer.c:26-83 | Any mix of operations answers as the queue does, as coded up to the first bulk operation in one of those cases, with the smaller split to the end. |
| RingBuffer.PushBulkIsPushes | src/ringbuffer.c:35-53 | An accepted bulk push is that many single pushes; what does not fit fills the queue up one by one, where the bulk push does nothing. |
| RingBuffer.PopBulkIsPops | src/ringbuffer.c:60-75 | An accepted bulk pop is that many single pops. |
| RingBuffer.RingBuffer.IsFull | src/ringbuffer.c:13-24 | Full means 1023 bytes. |
| RingBuffer.SmallBulkAfterWrap | src/ringbuffer.c:43-82 | A ring reached by three bulk operations on which bulk operations of ten bytes are undefined both ways. |
| Sds.RunInside | src/sds.c:54-202 | As coded, any run of appends, clears, drains, cuts and dumps stays inside the allocation if and only if no append is longer than the real room but not than the recorded one, no cut keeps a text that fills the allocation, and no dump comes while the recorded room is too large; judged from capacity, length and the bytes put in place since the last growth, without looking at `free`. |
| Sds.GuardedInside | src/sds.c:54-202 | With the guard every such run stays inside. |
| Sds.MessagesFit | src/redis.c:1160-1170 | As coded, a fresh read buffer serves a sequence of messages, each appended, dumped and cleared, if and only if each makes it grow: more than twice as long as the one before, below 1024 bytes. |
| Sds.ThreeMessagesOverrun | src/sds.c:88-99 | Messages of 27, 27 and 60 bytes: the third is written in place into 55 bytes. |
| Sds.ThreeRepliesOverrun | src/sds.c:110-130 | As coded, three replies of five bytes are one too many for a fresh buffer. |
| Sds.ChunksFit | src/aof.c:29-33 | As coded, a file is read into a fresh buffer without leaving it if and only if it has at most 2049 bytes. |
| Sds.FileFits | src/aof.c:29-41 | Cutting the messages off the front afterwards never goes wrong. |
| Sds.CReadIff | src/sds.c:97-99 | For a text without NUL, a C reader of the buffer finds the text if and only if its NUL is there. |
| Sds.CleanKept | src/sds.c:65-101 | As coded, appends and clears alone leave only NUL behind the text, and then a C reader goes wrong only when the text fills the allocation. |
| Sds.GuardedEnded | src/sds.c:65-139 | With the guard the NUL is kept by appends, clears and drains, and the room stays counted right. |
| Sds.StaleTail | src/sds.c:132-139 | As coded, after a drain, an append that is cleared and a further append, a C reader finds the new text if and only if it reaches past the old one or ends inside what the clear zeroed; otherwise the old text's tail follows it. |
| Sds.QueuedTail | src/client.c:153-159 | So a queued write executed from a read buffer is read with the tail of a longer command queued after it. |
| Sds.Sds.CatLen | src/sds.c:81-101 | In memory, in both versions: the bytes appended with room and NUL as specified, or nothing done when they would leave the allocation; never with the guard. |
| Sds.Sds.CatSds | src/sds.c:132-139 | The source is emptied into the destination, and keeps its old bytes behind the first. |
| Sds.Sds.Range | src/sds.c:184-202 | Keeps the signed range with its NUL, nothing happens outside the string; goes wrong when the end is more than one before the start or the NUL does not fit. |
| Sds.ResolveEnds | src/sds.c:184-202 | Position k counts from the front and -1 - k from the last byte. |
| Sds.Sds.Wipe | src/sds.c:65-72 | Empty, the text's bytes zeroed, with all recorded room free. |
| Sds.Sds.Dump | src/sds.c:54-64 | A copy with the same text, or a read outside the allocation exactly when the recorded room is larger than the real one. |

## Left out

- Sockets, the event loop, `epoll`, `fork`, signals, files: byte sequences and atomic steps stand for them.
- SHA-256 (src/crypto.c): the checksum of a snapshot is any bytes after the end marker and is taken to match; files over the 4096 bytes that the checksum code buffers are loaded as if they fitted.
- TTL, OBJECT, INFO, SLAVEOF, REPLCONF, REPLACK, HEARTBEAT, BYE, sentinel and cron code: little state, no invariant of their own. A query that names one of them takes `Server` outside the model.
- The replication handshake and full sync: it sends whatever file is on disk and carries no master offset, so no agreement follows from it. A run of `Replication` ends there: with the wrapping read only when the replica is more than 1024 bytes behind; as coded also when it is up to date, or once the stream has 1024 bytes and the reply would be read past the buffer.
- Requests reach `Server` decoded and one in a read, and are logged and replicated in canonical encoding; `Replication.ReadExecutesFirst` says what more than one in a read does.
- Append-only file and replication are separate configurations in `Recovery` and `Replication`, as the code replicates nothing with the file on. Both cover database 0 without EXPIRE and SELECT, which the log does not carry faithfully.
- Clients stay alive while they are on a watch list.
- `RedisServer` holds clients and databases as sequences of records that its methods reassign; aliasing between clients and list nodes is modelled only in `List`. `AofHandoff` holds the two buffers as strings.
- `RdbSave` reads dictionaries and `RdbLoad` fills databases as values; the iteration in place is `DictCursor`. Filling only adds and replaces, with which no rehash gets stuck (`DictRuns.RunUnstuck`).
- Deadlines and watch lists are kept in plain maps in `Server`, `Rdb` and `Expiry`; their dictionaries see no deletes, and are such maps by `DictRuns.RunRefines` and `DictRuns.RunUnstuck`. The calls on them are not recorded.
- A GET of a value shown with 1015 bytes or more overruns the reply encoder's buffer (`Resp.BulkReplyFits`); `Server` answers it with the whole bulk string.
- Memory exhaustion, destructors, reference counts, and sizes beyond the C types of counters and lengths.
- Replication.ReplicaIsPrefixCountedTwice: at most one resume, because after a second one the code can skip commands; see Replication.SkipReached.
- src/linenoise.c, client/client.c, src/conf.c, src/log.c, src/main.c: user interface and configuration.
