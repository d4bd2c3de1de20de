# CCTVWebServer: a verified model

CCTVWebServer pulls an RTSP feed, re-encodes it, fans the packets out to WebSocket clients as binary
frames, and guards its REST interface, though not the stream, with accounts, an administrator's approval
and session cookies. These
Dafny modules model that server and prove what holds over all inputs, all runs and all interleavings.

| part of the server | modules |
|---|---|
| streaming: queue protocol, hub, fan-out, frames, end to end | `WebSocketSession`, `FanOut`, `HubRuns`, `WireFormat`, `EndToEnd` |
| relaying: start and stop, the ingest loop | `StreamRelayer`, `Ingest` |
| locks of all threads | `Locking` |
| requests: accounts, sessions, dispatch, endpoints, runs with restarts | `Accounts`, `Requests`, `Endpoints`, `ReplyServer`, `ServerRuns` |
| encrypted tables | `CryptoHelper`, `Database` |
| connections and descriptors, HTTP text, cookies | `HttpServer`, `HttpMessage`, `Cookies` |
| requests over connections; the process over its life | `Serving`, `Service`, `Process` |
| shared | `Basics`, `Text` |

## How the model is built

**State.** The objects that the server updates in place are classes (`WebSocketSession`, `WebSocketHub`,
`StreamRelayer`, `Database`, `ReplyServer`, `HttpSession`, `HttpServer`); each method's contract gives the
whole new state as a function of the old one. The functions are then the steps of state machines
(`FanOut`, `ServerRuns`, `HttpServer.Net`, `StreamRelayer.State`, `Locking`), and the theorems are about
all runs of those. Four joins carry them to the running program: `Process.RunServer` shows that the objects
over the encrypted tables run as `ServerRuns` says, `HubRuns.RunHub` that the hub and session objects run as
`FanOut` says, `Service` puts dispatch, connections and the hub into one step system, and the ingest loop of
`Ingest` broadcasts into runs of `FanOut`.

**Inputs.** What the environment decides is an argument: results of SQLite, OpenSSL and FFmpeg calls,
random IVs and tokens, parsed JSON bodies, file contents, clock readings, completions of asynchronous
operations, and the numbers the operating system gives to new descriptors. `Accounts.Call` and
`Requests.Env` hold those of one database operation and one request. Whether the message of a JSON parse error
can be printed is part of the parsed body (`Requests.Json`). The `Ingest.Media` answers are a
finite list; when it is used up the loop reads `running_` as false, so every finite behaviour is covered.

**Text.** A `std::string` is a `string` whose characters are its bytes. `int64_t` fields and the 32-bit
connection counter have their widths; sizes are natural numbers.

**Idealisations.**
- `EventBus::publish` runs its handlers, and through them publishes again, while holding a plain mutex
  (src/include/Application.hpp:31-35), and `sendFrame` calls `doWrite`, which locks the mutex `sendFrame`
  holds (src/core/WebSocketSession.cpp:65-78). `Locking` keeps this as two parameters and proves that the
  server is free of deadlock exactly when both locks may be re-entered; everywhere else they may be. A
  request and its reply are therefore one step, and push, flag test and front read are one critical section.
- `StreamRelayer::start` unlocks a `lock_guard` (src/core/StreamRelayer.cpp:41-46); it is an unlockable lock here.
- `async_write` is given a local buffer (src/core/WebSocketSession.cpp:76-91); its bytes are captured by value.
- The single `write` of a response (src/core/HttpServer.cpp:172) writes all of it; it neither fails nor raises
  SIGPIPE when the client has gone.
- The accept loop's handler uses a copy of its temporary loop object and the `this` of the temporary itself
  (src/core/HttpServer.cpp:105-122); the loop is taken to go on.
- SHA-256 is injective (on all strings, more than the ids used need), PBKDF2 is a function, and AES-256-GCM is
  an abstract AEAD with 16-byte tags whose decryption inverts its encryption (sections 7.1 and 7.2 of NIST SP
  800-38D).
- Tokens are any 32 lower-case hex digits; an equal token overwrites an older session.

## What the code does where more might be expected

- A client reads timestamps exactly only when they are not negative and lie on the grid of IEEE doubles;
  2^53 + 1 is the first that does not survive (`WireFormat.RoundTripIff`, `WireFormat.FirstLostTimestamp`).
- After a failed write `is_writing_` stays set and queued frames are never sent (`FanOut.FailureIsFinal`,
  `FanOut.DrainsIff`).
- A request ends the process if its endpoint parses the body, the body does not parse, and the parse error quotes
  bytes that are not UTF-8: the catch clause cannot print the message and throws out of the thread pool's
  handler. A request gets exactly one reply if and only if it is not such a one (`ServerRuns.ExactlyOneReply`);
  anyone can send one (`ServerRuns.RegistrationMayCrash`). No other reply fails to print (`ServerRuns.EveryReplyPrints`).
- The stream is not guarded: a connection that has only been accepted can upgrade and be delivered every frame
  from then on, without any account or request (`Service.AnyoneMayWatch`).
- The administrator's account exists whenever the process runs exactly when the insert of the first start ran
  (`ServerRuns.AdminAlwaysIff`). Otherwise a visitor may register the id `admin` as an ordinary user, and from
  then on nobody is ever administrator (`ServerRuns.VisitorTakesAdmin`). A start initialises the database a
  second time if the first attempt throws (src/core/Config.cpp:43-49); the process ends if both do.
- The connection counter wraps: with one connection more than 2^32 a descriptor can be left without an
  owner (`HttpServer.OwnershipHoldsIff`).
- The handler of `/health` answers connection 0. A request that does not end the process gets an answer exactly
  when it is not for `/health`, or its session lookup throws, or its own connection is known as 0
  (`Serving.AnsweredIff`). Connection number 2^32 - 1 is known as 0 and may be sent another client's `/health`
  reply (`Service.RepliesReachIff`).
- The envelope of `writeResponse` prints the status code twice, as in `404 404 Not Found` (`HttpMessage.Envelope`).
- The repository's README says that all information in the database is encrypted; the code stores role,
  approval and activity in the clear, and so does the model.

## Model

| member | source | states |
|---|---|---|
| `WebSocketSession.SendKeepsInv` | src/core/WebSocketSession.cpp:64-71 | sending keeps the protocol invariant (at most one writer token, held exactly while `is_writing_` is set, empty queue without it) and appends exactly the frame to what the client is owed |
| `WebSocketSession.MoveKeepsInv` | src/core/WebSocketSession.cpp:73-110 | each step of the write handlers (start, success, failure, pop, next write, report) keeps the invariant, loses and duplicates nothing of what is owed, and only extends what is delivered |
| `WebSocketSession.StuckIffIdle` | src/core/WebSocketSession.cpp:73-110 | no lost wake-up: a session without a failure has no step left exactly when its queue is empty and its flag clear |
| `WebSocketSession.Draining` | src/core/WebSocketSession.cpp:73-110 | along any schedule without failures and new frames, steps and completions are accounted for one by one and the owed frames stay the same |
| `WebSocketSession.DrainsExactly` | src/core/WebSocketSession.cpp:73-110 | such schedules end; one ends exactly when the queue is empty and the flag clear, after exactly as many completions as frames were owed, all delivered in order |
| `WebSocketSession.WebSocketSession.Send` | src/core/WebSocketSession.cpp:64-71 | the object's new state is the sent-to state of the protocol |
| `WebSocketSession.WebSocketSession.WriteFront` | src/core/WebSocketSession.cpp:73-91 | clears the flag on an empty queue, else hands a copy of the front to one new write |
| `WebSocketSession.WebSocketSession.PopWritten` | src/core/WebSocketSession.cpp:102-107 | first critical section of the completion handler |
| `WebSocketSession.WebSocketSession.Continue` | src/core/WebSocketSession.cpp:109-109 | second critical section: ends this handler and starts the next write or clears the flag |
| `WebSocketSession.WebSocketSession.Take` | src/core/WebSocketSession.cpp:86-110 | one step of a write handler or of the socket layer by itself is the move of the protocol |
| `WebSocketSession.WebSocketSession.OnWrite` | src/core/WebSocketSession.cpp:93-110 | a whole completion is the success, pop, next schedule of the protocol; a failed one unregisters the session and touches nothing else |
| `WebSocketSession.WebSocketHub.Register` | src/core/WebSocketSession.cpp:116-119 | adds exactly the session |
| `WebSocketSession.WebSocketHub.Unregister` | src/core/WebSocketSession.cpp:121-124 | removes exactly the session |
| `WebSocketSession.WebSocketHub.Broadcast` | src/core/WebSocketSession.cpp:126-131 | in whatever order the set is visited, each registered session is sent the frame exactly once |
| `FanOut.RunInv` | src/core/WebSocketSession.cpp:25-131 | inductive invariant of all interleavings: registration flags and registered set follow the run, and owed frames plus the frame under broadcast are the session's window |
| `FanOut.FanOutRefinesLog` | src/core/WebSocketSession.cpp:64-131 | over every interleaving of broadcasts, registrations, unregistrations, completions and failures: delivered, then queued (a written front once), then the frame not yet reached, equal the session's window of the broadcast log; delivered is a prefix of it |
| `FanOut.WindowIsSlice` | src/core/WebSocketSession.cpp:116-131 | the window is the slice of the log from the registration to the first unregistration; a session is registered exactly between them |
| `FanOut.SingleWriter` | src/core/WebSocketSession.cpp:64-110 | in every reachable state at most one write is outstanding, it carries the front of the queue, the flag is set exactly when a writer token exists, and a clear flag means an empty queue |
| `FanOut.FailureIsFinal` | src/core/WebSocketSession.cpp:96-100 | after a failed write nothing more reaches the client and the flag stays set, in every continuation |
| `FanOut.MayLeave` | src/core/WebSocketSession.cpp:47-58 | a registered session is listening: between broadcasts it can leave when its client goes |
| `FanOut.FailureLeaves` | src/core/WebSocketSession.cpp:96-100 | a session whose write has failed can leave between broadcasts |
| `FanOut.FailedHandshake` | src/core/WebSocketSession.cpp:25-29 | a client whose handshake fails is never registered and never sent anything, in any continuation |
| `FanOut.SessionDrains` | src/core/WebSocketSession.cpp:73-110 | amid any other events of the system, a session that is sent nothing and whose writes succeed comes to an end of its steps; the end is reached exactly when its queue is empty and its flag clear, with its whole window delivered and one completion per owed frame |
| `FanOut.Projection` | src/core/WebSocketSession.cpp:73-110 | what a session does in any continuation of the system is a schedule of the session by itself |
| `FanOut.DrainsIff` | src/core/WebSocketSession.cpp:93-110 | a session can still be delivered its whole window in some continuation exactly as long as none of its writes has failed |
| `FanOut.HealthyIff` | src/core/WebSocketSession.cpp:96-100 | a session is stuck with its flag set exactly when one of its writes failed in the run |
| `FanOut.LocalScheduleIsLegal` | src/core/WebSocketSession.cpp:73-110 | a session's own schedule is a run of the whole system that leaves all other sessions as they are |
| `FanOut.BroadcastReachesAll` | src/core/WebSocketSession.cpp:126-131 | the broadcast loop can always go on to the end in any order, and gives each pending session the frame once |
| `FanOut.BroadcastEnds` | src/core/WebSocketSession.cpp:126-131 | from every reachable state a broadcast that has begun can be brought to its end |
| `FanOut.Watches` | src/core/WebSocketSession.cpp:25-37 | whoever connects and registers can be delivered every frame broadcast from then on |
| `FanOut.CastAll` | src/core/WebSocketSession.cpp:126-131 | from every state between broadcasts any frames can be broadcast one after the other, and the log grows by exactly those |
| `HubRuns.RunHub` | src/core/WebSocketSession.cpp:25-131 | over every run, the hub's set and each session's queue, flag and deliveries in memory are those of the step system; each session has delivered, queued and awaits exactly its window |
| `HubRuns.PlayEvent` | src/core/WebSocketSession.cpp:25-131 | each step of the system is carried out by the objects' methods and keeps them in agreement |
| `HubRuns.WholeBroadcast` | src/core/WebSocketSession.cpp:126-131 | an uninterrupted broadcast is the run Begin, one Send for each registered session in some order, End |
| `WireFormat.WrittenModulo` | src/core/StreamRelayer.cpp:17-33 | every value is written as its residue modulo 2^32 or 2^64 |
| `WireFormat.WriteInt64LE` | src/core/StreamRelayer.cpp:17-26 | fills exactly the eight bytes at the offset with the little-endian value and keeps the rest |
| `WireFormat.WriteUint32LE` | src/core/StreamRelayer.cpp:28-33 | the same for four bytes |
| `WireFormat.BuildFrame` | src/core/StreamRelayer.cpp:218-225 | the writes fill the buffer completely, with the frame of the packet |
| `WireFormat.FrameLayout` | src/core/StreamRelayer.cpp:216-225 | flag, timestamps, size and payload tile the frame without gap or overlap |
| `WireFormat.DecodeOfEncode` | src/www/app.js:382-400 | what the client decodes from the frame of any packet: flag and payload exactly, timestamps modulo 2^64 and rounded to a double |
| `WireFormat.RoundTripIff` | src/www/app.js:382-400 | packets are recovered field by field exactly when both timestamps are non-negative and representable as doubles |
| `WireFormat.RoundTrip` | src/www/app.js:390-394 | in particular for all timestamps from 0 below 2^53 |
| `WireFormat.FirstLostTimestamp` | src/www/app.js:390-394 | 2^53 + 1 is lost, everything up to 2^53 survives |
| `WireFormat.RoundExactIff` | src/www/app.js:393-393 | merging two 32-bit reads in double arithmetic is exact exactly for multiples of the spacing of doubles |
| `WireFormat.UlpIsSpacing` | src/www/app.js:393-393 | the spacing of doubles around a number is the power of two that leaves 53 significant bits |
| `WireFormat.RoundIsNearest` | src/www/app.js:393-393 | merging rounds to the nearest double, to the even one of two equally near |
| `EndToEnd.SeenIff` | src/www/app.js:390-394 | a packet reaches the client unchanged exactly when its timestamps are representable |
| `EndToEnd.ClientSeesContiguousPackets` | src/core/WebSocketSession.cpp:126-131 | for every run of the hub whose log holds frames of packets: what a client has received decodes in order to a contiguous run of the packets, from the first one broadcast after it registered |
| `EndToEnd.ClientRecoversPackets` | src/www/app.js:382-400 | in such runs, with timestamps from 0 below 2^53, each received frame decodes to flag, timestamps and payload of its packet exactly |
| `EndToEnd.ClientsSeeTheFeed` | src/core/StreamRelayer.cpp:215-231 | relayer, hub and clients together: after any number of ingest loops and whatever the clients did meanwhile and since, each client has decoded in order a contiguous run of what the encoder gave out |
| `EndToEnd.ClientsRecoverTheFeed` | src/www/app.js:382-400 | and recovers those packets exactly for timestamps from 0 below 2^53 |
| `StreamRelayer.Lifecycle` | src/core/StreamRelayer.cpp:40-73 | over all runs of serialised start and stop calls against relay threads: at most one loop is alive, none when a thread is assigned, no assignment over a joinable thread; between calls the flag says whether there is a thread; a running thread has the URL last started |
| `StreamRelayer.CallsProgress` | src/core/StreamRelayer.cpp:40-64 | a start or stop call is never stuck: the caller or the thread it joins can step |
| `StreamRelayer.CallsStayCalm` | src/core/StreamRelayer.cpp:40-64 | a whole start leaves exactly the new thread alive with the new URL, a whole stop none |
| `StreamRelayer.StreamRelayer.Stop` | src/core/StreamRelayer.cpp:55-64 | the stop call of the step system; no stream afterwards |
| `StreamRelayer.StreamRelayer.Start` | src/core/StreamRelayer.cpp:40-53 | the start call of the step system, with the nested stop; the stream is the new URL |
| `StreamRelayer.StreamRelayer.Join` | src/core/StreamRelayer.cpp:59-61 | only a joinable thread whose flag is cleared is joined; its loop has ended |
| `StreamRelayer.StreamRelayer.AssignThread` | src/core/StreamRelayer.cpp:51-51 | only when nothing is joinable and no loop is alive; adds one live loop |
| `Ingest.OpenInput` | src/core/StreamRelayer.cpp:74-120 | four early exits leave nothing live; success leaves exactly the input |
| `Ingest.OpenCodecs` | src/core/StreamRelayer.cpp:122-163 | three early exits leave nothing live; success leaves exactly input, decoder and encoder |
| `Ingest.Connect` | src/core/StreamRelayer.cpp:74-175 | over all seven failures and success: either nothing is live or exactly the handles of a connection; a connection if everything succeeds |
| `Ingest.CachedScaler` | src/core/StreamRelayer.cpp:195-200 | the scaler is kept or replaced, never leaked or freed twice |
| `Ingest.ScaleIfNeeded` | src/core/StreamRelayer.cpp:191-207 | the encoder gets the scaled frame exactly if the format differs; the handles stay exactly accounted for |
| `Ingest.Media.Broadcast` | src/core/WebSocketSession.cpp:126-131 | a broadcast begins and ends in the run of the hub, amid any steps of its clients, and adds exactly this frame to the log |
| `Ingest.DrainEncoder` | src/core/StreamRelayer.cpp:215-231 | takes and broadcasts exactly as many packets as the encoder has and hands out before a call fails, once each, in order; the packet is unreferenced between uses |
| `Ingest.BroadcastPacket` | src/core/StreamRelayer.cpp:216-228 | the hub's log grows by the frame of this packet |
| `Ingest.ProcessFrame` | src/core/StreamRelayer.cpp:190-232 | one reading of the clock, one frame of the right source offered to the encoder, stamped with the whole milliseconds since the start; once everything succeeds the feed is drained |
| `Ingest.StampAndSend` | src/core/StreamRelayer.cpp:209-214 | the pts is the elapsed time of this frame's reading |
| `Ingest.EncodeAndSend` | src/core/StreamRelayer.cpp:214-232 | if the encoder accepts the frame, exactly the packets it then hands out are broadcast, else none; once everything succeeds the feed is drained |
| `Ingest.DecodedOne` | src/core/StreamRelayer.cpp:190-233 | one decoded frame: stamped, offered, unreferenced; with the same progress |
| `Ingest.DecodePacket` | src/core/StreamRelayer.cpp:189-235 | every frame of the packet gets one reading and one stamp; frames are unreferenced between uses; once everything succeeds the feed is drained |
| `Ingest.SendPacket` | src/core/StreamRelayer.cpp:188-236 | nothing is decoded or broadcast if the decoder rejects the packet |
| `Ingest.RelayPacket` | src/core/StreamRelayer.cpp:182-237 | goes on exactly if a packet could be read; one of another stream is neither decoded nor broadcast; nothing stays referenced after a round; once everything succeeds the feed is drained |
| `Ingest.RelayConnection` | src/core/StreamRelayer.cpp:177-238 | over a whole connection: handles exactly accounted for, one reading and one stamp for each frame since its start; once everything succeeds the feed is drained |
| `Ingest.StampsInOrder` | src/core/StreamRelayer.cpp:177-211 | the stamps of a connection are not negative and never go back |
| `Ingest.Round` | src/core/StreamRelayer.cpp:73-254 | one round of the outer loop leaves no handle live and nothing referenced |
| `Ingest.Cleanup` | src/core/StreamRelayer.cpp:240-251 | frees every handle of the connection exactly once; nothing is live |
| `Ingest.RunLoop` | src/core/StreamRelayer.cpp:70-258 | for every sequence of library outcomes, call after call: no handle live and nothing referenced at the top of each round, no use after free; the hub's log holds the frame of every encoder packet once, in order, and nothing else; every frame is stamped with the time since its connection began; and once everything succeeds, from whatever answer on, the whole feed is relayed, unless the relayer was stopped before |
| `Ingest.RelayWholeFeed` | src/core/StreamRelayer.cpp:70-258 | if all calls succeed, as long as there are answers for, every packet of any feed reaches the hub in order |
| `Locking.RunDisciplined` | src/core/WebSocketSession.cpp:64-131 | in every reachable state every thread's remaining requests descend the order bus, relayer, join, hub, session, connection and token mutexes |
| `Locking.JobDisciplined` | src/include/Application.hpp:31-35 | every job of a pool thread (request, completion, registration) keeps to the order and gives back what it takes |
| `Locking.StartDisciplined` | src/core/StreamRelayer.cpp:40-53 | so does start, with its unlock, the nested stop and the thread it spawns |
| `Locking.NoDeadlock` | src/core/StreamRelayer.cpp:40-64 | with both locks re-entrant no pool of threads, jobs and schedule reaches a deadlock |
| `Locking.SomeoneMoves` | src/core/HttpServer.cpp:66-78 | from any unfinished thread a chain of waits leads to a thread that can move |
| `Locking.NoCycleEver` | src/core/StreamRelayer.cpp:40-64 | no reachable state has a cycle of waits through locks and joins |
| `Locking.DeadlockFreeIff` | src/include/Application.hpp:31-35 | freedom from deadlock over all jobs and schedules holds exactly when bus and session mutex may be re-entered |
| `Locking.BusBlocksItself` | src/core/ReplyHandlers.cpp:88-88 | with a plain bus mutex the first request blocks itself |
| `Locking.SessionBlocksItself` | src/core/WebSocketSession.cpp:64-78 | with a plain session mutex the first frame for an idle client blocks the relay thread |
| `Locking.MutualExclusion` | src/core/WebSocketSession.cpp:116-131 | no mutex is ever in two threads' hands |
| `Locking.NoRace` | src/core/WebSocketSession.cpp:64-131 | whatever the connection table, token map, relayer, hub and session mutexes guard is accessed under them, by one thread at a time, in every reachable state |
| `Locking.JobTouches` | src/core/HttpServer.cpp:66-78 | which guarded data each job accesses, in order: the connection table before and after a request, the token map, the relayer with the thread it joins; a queue twice for a completion; the hub's set |
| `Locking.RelayTouches` | src/core/WebSocketSession.cpp:126-131 | a relay thread's broadcasts access the hub's set and then the queue of each session |
| `CryptoHelper.ToHex` | src/core/CryptoHelper.cpp:12-19 | the loop computes the hexadecimal text |
| `CryptoHelper.FromHex` | src/core/CryptoHelper.cpp:21-30 | the loop computes the bytes of any text, odd lengths and non-digits as strtol reads them |
| `CryptoHelper.UnhexOfHex` | src/core/CryptoHelper.cpp:12-30 | decoding undoes encoding for all byte strings |
| `CryptoHelper.HexOfUnhexIff` | src/core/CryptoHelper.cpp:12-30 | encoding undoes decoding exactly for lower-case hex of even length |
| `CryptoHelper.EnvelopeSplits` | src/core/CryptoHelper.cpp:102-126 | the text has 56 + 2n characters and splits back into exactly IV, tag and ciphertext |
| `CryptoHelper.EncryptThenDecrypt` | src/core/CryptoHelper.cpp:49-170 | encryption fails exactly for a wrong key size or a library error; what it yields is IV, tag and ciphertext in this order and decrypts to the plaintext, the empty one included |
| `CryptoHelper.DecryptIff` | src/core/CryptoHelper.cpp:107-170 | a plaintext comes out exactly if the key has 32 bytes, the text 56 characters and the cipher opens its three parts; the errors for the other cases |
| `CryptoHelper.EncryptAES256GCM` | src/core/CryptoHelper.cpp:49-105 | the envelope, or the error that stops it |
| `CryptoHelper.DecryptAES256GCM` | src/core/CryptoHelper.cpp:107-170 | the plaintext, or the error: key size, too short, library, authentication |
| `Database.SelectById` | src/core/Database.cpp:205-215 | the lookup by digest finds a row exactly for existing ids, and the row of that id |
| `Database.InsertRefines` | src/core/Database.cpp:128-145 | an insert succeeds exactly for a new id and represents the extended map |
| `Database.ApproveRefines` | src/core/Database.cpp:148-159 | the update approves exactly that user's account |
| `Database.EvictRefines` | src/core/Database.cpp:161-172 | the update deactivates exactly that user's account |
| `Database.ProfileRefines` | src/core/Database.cpp:174-203 | the update changes exactly that user's username and, if one is given, password |
| `Database.LatestIsLast` | src/core/Database.cpp:285-294 | the row with the greatest id is the one inserted last |
| `Database.ListOneMore` | src/core/Database.cpp:246-262 | a row that decrypts adds exactly its account to the listing |
| `Database.Database.EncryptPair` | src/core/Database.cpp:124-125 | two columns whose plaintexts stay recoverable |
| `Database.Database.BootstrapAdmin` | src/core/Database.cpp:58-100 | the rows represent the bootstrapped accounts, for all outcomes of the library calls; an attempt that throws leaves them alone |
| `Database.Database.RegisterUser` | src/core/Database.cpp:102-146 | the rows represent the accounts after registration, and the result is the specified one, failures and exceptions included |
| `Database.Database.ApproveUser` | src/core/Database.cpp:148-159 | likewise for approval; an unknown id changes nothing and still succeeds |
| `Database.Database.EvictUser` | src/core/Database.cpp:161-172 | likewise for eviction |
| `Database.Database.UpdateUserProfile` | src/core/Database.cpp:174-203 | likewise for the profile; an empty password is kept |
| `Database.Database.GetUser` | src/core/Database.cpp:205-236 | returns exactly the account of the id, decrypted; on failure the record holds at most the id, as when the second decryption throws |
| `Database.Database.GetAllUsers` | src/core/Database.cpp:238-265 | returns every account whose row can be read, exactly once, with its current record; rows may fail to decrypt one by one or lie behind an engine error |
| `Database.Database.SaveRtspConfig` | src/core/Database.cpp:267-283 | the rows represent the saved configuration as the latest |
| `Database.Database.GetLatestRtspConfig` | src/core/Database.cpp:285-309 | returns the last saved configuration that was not cleared, even when an earlier clear failed |
| `Database.Database.ClearRtspConfigs` | src/core/Database.cpp:311-318 | clears all or, on failure, nothing |
| `Cookies.GenerateSessionToken` | src/core/ReplyHandlers.cpp:18-27 | 32 lower-case hex digits, one for each draw |
| `Cookies.FirstKey` | src/core/ReplyHandlers.cpp:29-32 | `SessionID=` cannot overlap itself, so the first occurrence is the first one placed |
| `Cookies.TokenRoundTrip` | src/core/ReplyHandlers.cpp:29-38 | a value placed after the first `SessionID=` and before `;` or the end is returned exactly |
| `Cookies.TokenDecomposes` | src/core/ReplyHandlers.cpp:29-38 | conversely, whatever is returned stands at exactly such a place |
| `Cookies.TokenIff` | src/core/ReplyHandlers.cpp:29-38 | exactly: the token is returned if and only if it stands after the first `SessionID=` and before `;` or the end |
| `Cookies.LoginTokenReturns` | src/core/ReplyHandlers.cpp:154-154 | the token of a login response comes back from any Cookie header built with it, and from the header line itself |
| `HttpMessage.ResponseRoundTrip` | src/core/ReplyHandlers.cpp:63-73 | for any body, splitting the printed response at its first empty line and reading Content-Length gives exactly the head and the body (sections 2.1 and 6.3 of RFC 9112) |
| `HttpMessage.ResponseLines` | src/core/ReplyHandlers.cpp:63-73 | what the client reads of a printed response, line by line: status line, type, length, connection, the extra headers and no more, and the body |
| `HttpMessage.HeadIsClosed` | src/core/ReplyHandlers.cpp:65-70 | the head has no empty line inside and ends with one line break |
| `HttpMessage.FirstBlank` | src/core/ReplyHandlers.cpp:65-71 | the first empty line is the one after the head, whatever the body contains |
| `HttpMessage.LengthField` | src/core/ReplyHandlers.cpp:67-67 | the first Content-Length line holds the printed size |
| `HttpMessage.EnvelopeIdempotent` | src/core/HttpServer.cpp:144-165 | wrapping twice is wrapping once |
| `HttpMessage.EnvelopeKeepsPrinted` | src/core/HttpServer.cpp:144-145 | the reply handlers' responses are left unchanged |
| `HttpMessage.EnvelopeRoundTrip` | src/core/HttpServer.cpp:144-165 | any other text reaches the client as exactly the body |
| `HttpMessage.EnvelopeLines` | src/core/HttpServer.cpp:144-165 | the same for a wrapped text, with the code twice in the status line |
| `HttpMessage.EnvelopeTexts` | src/core/HttpServer.cpp:146-156 | the status texts of the envelope, and that the type is HTML exactly if one of the two marks occurs |
| `Requests.RoutesAreGuarded` | src/core/ReplyHandlers.cpp:159-226 | every administrator's endpoint lies in the area the role check covers, every endpoint under the area the session check covers |
| `Requests.CallerIff` | src/core/ReplyHandlers.cpp:40-49 | the caller is a given id if and only if the cookie header names a session of that id |
| `Endpoints.RouteTable` | src/core/ReplyHandlers.cpp:98-334 | which URL and method reach which endpoint, and that no other request does |
| `Endpoints.SessionRequired` | src/core/ReplyHandlers.cpp:160-168 | without a session everything under /api/ but registration and login is refused with 401 and changes nothing |
| `Endpoints.RoleRequired` | src/core/ReplyHandlers.cpp:220-226 | without the administrator's role every administrator's endpoint is refused with 403 and changes nothing, reading ones included |
| `Endpoints.LookupFails` | src/core/ReplyHandlers.cpp:170-171 | an exception of the caller's lookup is answered with 500 and changes nothing |
| `Endpoints.RegisterIff` | src/core/ReplyHandlers.cpp:98-118 | registration succeeds exactly for complete fields, a new id and a working insert; then exactly the ordinary, unapproved, active account is added; how the other cases are refused |
| `Endpoints.LoginIff` | src/core/ReplyHandlers.cpp:121-157 | a session cookie is issued exactly to an active, approved account with the right password; how the other cases are refused |
| `Endpoints.LogoutEnds` | src/core/ReplyHandlers.cpp:174-184 | ends exactly the session of the cookie and expires it |
| `Endpoints.ProfileShown` | src/core/ReplyHandlers.cpp:187-195 | the caller's own id, username and role |
| `Endpoints.ProfileHidden` | src/core/ReplyHandlers.cpp:187-195 | a caller whose account cannot be read is shown nothing, or the id alone exactly if only the username failed to decrypt |
| `Endpoints.UpdateIff` | src/core/ReplyHandlers.cpp:198-217 | when a profile update succeeds, and that it changes exactly the caller's username and, if one is given, password |
| `Endpoints.UpdateThenLogin` | src/core/ReplyHandlers.cpp:139-217 | after a successful update with a new password, login succeeds exactly with passwords of its hash; without one, with the same as before |
| `Endpoints.UsersListed` | src/core/ReplyHandlers.cpp:229-244 | the list holds one entry for each readable account, with its username, role, approval and activity |
| `Endpoints.ApproveIff` | src/core/ReplyHandlers.cpp:247-259 | approval succeeds exactly if its statement runs, and sets exactly that flag |
| `Endpoints.EvictIff` | src/core/ReplyHandlers.cpp:262-292 | eviction is refused for the administrator, else succeeds exactly if its statement runs; the account is deactivated and exactly its sessions end |
| `Endpoints.ConfigShown` | src/core/ReplyHandlers.cpp:295-307 | the saved configuration, or none |
| `Endpoints.SaveIff` | src/core/ReplyHandlers.cpp:310-331 | saving succeeds exactly for complete fields and a working insert, and starts the relayer with that URL; a cleared configuration is lost if the insert then fails |
| `Endpoints.StopStops` | src/core/ReplyHandlers.cpp:334-339 | stopping stops the relayer and nothing else |
| `Endpoints.FilesServed` | src/core/ReplyHandlers.cpp:80-91 | the four files, with their types |
| `Endpoints.NotFound` | src/core/ReplyHandlers.cpp:357-359 | what is neither routed nor registered is answered with 404 |
| `ReplyServer.ReplyServer.GetUserIdFromSession` | src/core/ReplyHandlers.cpp:40-49 | every session the cookie header names is the caller's, and a non-empty caller has such a session |
| `ReplyServer.ReplyServer.EraseSessionsOf` | src/core/ReplyHandlers.cpp:275-283 | the iterate-and-erase loop removes exactly the user's tokens, in any order |
| `ReplyServer.ReplyServer.HandleRegister` | src/core/ReplyHandlers.cpp:98-118 | on the encrypted tables, does the registration step of the plain specification |
| `ReplyServer.ReplyServer.HandleLogin` | src/core/ReplyHandlers.cpp:121-157 | likewise for login |
| `ReplyServer.ReplyServer.HandleLogout` | src/core/ReplyHandlers.cpp:174-184 | likewise for logout |
| `ReplyServer.ReplyServer.HandleMe` | src/core/ReplyHandlers.cpp:187-195 | likewise for the own profile |
| `ReplyServer.ReplyServer.HandleUpdate` | src/core/ReplyHandlers.cpp:198-217 | likewise for the profile update |
| `ReplyServer.ReplyServer.HandleListUsers` | src/core/ReplyHandlers.cpp:229-244 | likewise for the user list: every account that can be read, once |
| `ReplyServer.ReplyServer.HandleApprove` | src/core/ReplyHandlers.cpp:247-259 | likewise for approval |
| `ReplyServer.ReplyServer.HandleEvict` | src/core/ReplyHandlers.cpp:262-292 | likewise for eviction with its sessions |
| `ReplyServer.ReplyServer.HandleGetRtsp` | src/core/ReplyHandlers.cpp:295-307 | likewise for reading the RTSP configuration |
| `ReplyServer.ReplyServer.HandleSaveRtsp` | src/core/ReplyHandlers.cpp:310-331 | likewise for saving it and starting the relayer |
| `ReplyServer.ReplyServer.HandleStopRtsp` | src/core/ReplyHandlers.cpp:334-339 | likewise for stopping |
| `ReplyServer.ReplyServer.HandleGuarded` | src/core/ReplyHandlers.cpp:228-359 | chooses among the administrator's endpoints and the fallback |
| `ReplyServer.ReplyServer.HandleAuthenticated` | src/core/ReplyHandlers.cpp:159-359 | session check, caller lookup and role check as specified |
| `ReplyServer.ReplyServer.HandleRequest` | src/core/ReplyHandlers.cpp:76-360 | one request on the encrypted tables, session map and relayer object refines the dispatch step on the plain map, published reply included; nothing is published when the request ends the process |
| `ServerRuns.DispatchEffect` | src/core/ReplyHandlers.cpp:76-360 | all that a request to each endpoint can do to the state; an administrator's endpoint changes it only for a caller with the role |
| `ServerRuns.UsersStep` | src/core/Database.cpp:58-203 | no request or restart removes an account, changes a role, revokes an approval or reactivates anyone, and the administrator stays in place |
| `ServerRuns.SaneStep` | src/core/ReplyHandlers.cpp:76-360 | sessions belong to admitted users, after any request and any restart |
| `ServerRuns.RunSane` | src/core/ReplyHandlers.cpp:76-360 | the same over all runs, from any sane state |
| `ServerRuns.SessionsAlwaysAdmitted` | src/core/ReplyHandlers.cpp:98-184 | in every reachable state every live token names a non-empty id whose row exists, is approved and active |
| `ServerRuns.AdminAlwaysIff` | src/core/Database.cpp:58-100 | `admin` exists, approved, active and alone in its role, in every state of a legal run in which the process runs, exactly when the insert of the first start ran in the attempt that decided |
| `ServerRuns.AdminLogsIn` | src/core/Database.cpp:76-99 | after a start whose insert ran, the id admin with the password admin logs in, and has the administrator's account |
| `ServerRuns.AttemptThrowsIff` | src/core/Database.cpp:58-100 | when an attempt to start throws, and that it then changes no account |
| `ServerRuns.StartTriesTwice` | src/core/Config.cpp:34-49 | a start fails exactly if both its attempts throw; otherwise the first that does not decides |
| `ServerRuns.RestartKeepsTables` | src/core/Database.cpp:14-47 | a restart ends every session and the stream, and keeps every account and the configuration |
| `ServerRuns.VisitorTakesAdmin` | src/core/Database.cpp:102-146 | when the account is missing, the first visitor to register `admin` gets it as an ordinary one, and over every continuation nobody has the administrator's role |
| `ServerRuns.EvictionTakesEffect` | src/core/ReplyHandlers.cpp:262-287 | a successful eviction deactivates the row, removes exactly that user's tokens, and changes no other account |
| `ServerRuns.EvictedForever` | src/core/Database.cpp:102-172 | an evicted user stays so through any requests and restarts |
| `ServerRuns.EvictedIsShutOut` | src/core/ReplyHandlers.cpp:98-131 | login and registration with an evicted id are refused and change nothing |
| `ServerRuns.EvictedAfter` | src/core/ReplyHandlers.cpp:262-283 | an eviction anywhere in a run leaves the user evicted at its end |
| `ServerRuns.EvictionIsPermanent` | src/core/ReplyHandlers.cpp:262-283 | the three together: from any reachable state, over every continuation |
| `ServerRuns.EffectsOfStep` | src/core/ReplyHandlers.cpp:160-338 | the frame of one request in any sane state |
| `ServerRuns.EffectsFrame` | src/core/ReplyHandlers.cpp:160-338 | over all runs: approval, activity, RTSP configuration and relayer change only for a session of the administrator, username and password only for the session's own id |
| `ServerRuns.OnlyAdminReads` | src/core/ReplyHandlers.cpp:187-307 | in every reachable state the list of accounts and the RTSP configuration go only to a session of the administrator, and a profile only to its owner |
| `ServerRuns.WhoReads` | src/core/ReplyHandlers.cpp:187-307 | the same for one request |
| `ServerRuns.TokensComeFromLogin` | src/core/ReplyHandlers.cpp:121-157 | a new or changed token comes only from a successful login of an approved, active user whose password hash matched |
| `ServerRuns.LoginAccepts` | src/core/ReplyHandlers.cpp:139-156 | login with the password last set succeeds for an admitted user whenever the libraries work |
| `ServerRuns.LoginThenCaller` | src/core/ReplyHandlers.cpp:29-49 | the cookie of a login authenticates that user on the next request, whatever else the header holds |
| `ServerRuns.LogoutUndoesLogin` | src/core/ReplyHandlers.cpp:174-184 | logout with a login's cookie ends exactly that session and leaves everything else as before the login |
| `ServerRuns.ApprovalStep` | src/core/ReplyHandlers.cpp:247-259 | an account becomes approved only by such a request of the administrator's session |
| `ServerRuns.ApprovalComesFromAdmin` | src/core/ReplyHandlers.cpp:247-259 | in every reachable state each approved account but the administrator's has a request of the administrator's session in its past that approved it |
| `ServerRuns.NewUserPath` | src/core/ReplyHandlers.cpp:98-157 | register, be refused while pending, be approved, log in with the registered password |
| `ServerRuns.SaveThenRead` | src/core/ReplyHandlers.cpp:295-331 | what was saved with success is what is read back, also when clearing the old rows failed |
| `ServerRuns.StreamIsLastSaved` | src/core/ReplyHandlers.cpp:310-338 | in every reachable state a running relayer relays the URL of the last successful save |
| `ServerRuns.ExactlyOneReply` | src/core/ReplyHandlers.cpp:76-360 | a request, malformed JSON and failing libraries included, gets exactly one reply, with its own connId unless a registered handler made it, if and only if it does not end the process; one that does changes nothing and gets none |
| `ServerRuns.RegistrationMayCrash` | src/core/ReplyHandlers.cpp:341-346 | in every state an unauthenticated registration with a body whose parse error cannot be printed ends the process |
| `ServerRuns.TextsRun` | src/core/Database.cpp:102-283 | every id, username and RTSP text stored in any run is UTF-8, as the parser accepts only that |
| `ServerRuns.EveryReplyPrints` | src/core/ReplyHandlers.cpp:98-359 | in every reachable state the payload of every reply of dispatch's own can be dumped |
| `ServerRuns.HandlerAnswers` | src/core/ReplyHandlers.cpp:351-355 | a registered handler answers its URL outside API and static files unless the caller's lookup throws |
| `HttpServer.EveryDescriptorIsOwnedOnce` | src/core/HttpServer.cpp:47-178 | over every interleaving of up to 2^32 connections, whatever numbers are reused: each open descriptor has exactly one owner among sessions, table, running writes and WebSockets |
| `HttpServer.OwnershipHoldsIff` | src/core/HttpServer.cpp:22-22 | ownership holds for all runs of so many connections exactly up to 2^32 of them |
| `HttpServer.OneTooMany` | src/core/HttpServer.cpp:66-69 | a run with one more that leaves an open descriptor without an owner |
| `HttpServer.AnsweredAndClosedOnce` | src/core/HttpServer.cpp:129-178 | no connId is written twice, no connection closed twice, and what is written goes to the descriptor the connection arrived on |
| `HttpServer.LifeOfConnection` | src/core/HttpServer.cpp:47-178 | over every interleaving a connection is exactly where its own events have put it, with the descriptor it was accepted on, open; and closed exactly when they have closed it |
| `HttpServer.WatcherKeepsDescriptor` | src/core/HttpServer.cpp:56-60 | a connection that has upgraded keeps its descriptor, open, until its WebSocket is closed |
| `HttpServer.SlotStays` | src/core/HttpServer.cpp:47-178 | an event touches no descriptor but the one it is about |
| `HttpServer.StepKeepsInv` | src/core/HttpServer.cpp:47-178 | every step of sessions, table and writes keeps the ownership invariant |
| `HttpServer.EmplaceFindsRoom` | src/core/HttpServer.cpp:66-69 | among up to 2^32 connections the table entry of a released descriptor is free |
| `HttpServer.StaysWaiting` | src/core/HttpServer.cpp:66-69 | nothing but a response under its own connId takes a connection out of the table, in any run |
| `HttpServer.CallRun` | src/core/HttpServer.cpp:129-178 | whatever happens in between, a writeResponse call writes its text to its own descriptor once, then closes it |
| `HttpServer.AnsweredInAnyRun` | src/core/HttpServer.cpp:47-178 | over every interleaving: a connection in the table gets exactly its first answer, once, on the descriptor it arrived on, when its call writes, and is closed once, when its call closes; the call can always go on until both have happened |
| `HttpServer.AnsweredEffect` | src/core/HttpServer.cpp:129-178 | a whole writeResponse removes the entry, writes once to its descriptor and closes it; an unknown connId does nothing |
| `HttpServer.HttpServer.TakeConnId` | src/core/HttpServer.cpp:113-113 | the n-th connection gets the n-th value of the wrapping 32-bit counter |
| `HttpServer.HttpServer.Accept` | src/core/HttpServer.cpp:109-118 | the accept step of the step system; the new session holds the descriptor under its connId |
| `HttpServer.HttpServer.AddConnection` | src/core/HttpServer.cpp:66-69 | adds the entry unless the connId is taken |
| `HttpServer.HttpServer.OnRead` | src/core/HttpServer.cpp:47-69 | drops, upgrades, or releases and enters the connection: each the matching steps of the step system |
| `HttpServer.HttpServer.WriteResponse` | src/core/HttpServer.cpp:129-178 | table, descriptors and wire after the call are those of the find-and-erase, write and close steps with the enveloped text |
| `Serving.DispatchAnswers` | src/core/ReplyHandlers.cpp:76-360 | dispatch makes one reply of its own, with the request's connId and headers free of line breaks, or hands out that of a registered handler, or ends the process without a reply and without an effect |
| `Serving.DeployedReply` | src/include/Application.hpp:157-159 | with the handlers the program registers: no reply if the request ends the process, else one, to the request's connId unless it is for /health and its lookup returns |
| `Serving.ReplyIsReadable` | src/core/HttpServer.cpp:141-172 | the client reads exactly the printed payload from what is written, with or without cookie headers |
| `Serving.ClientSees` | src/core/HttpServer.cpp:141-172 | the head the client reads of a reply, line by line: status, type, length, and the cookie if there is one |
| `Serving.CookieSeen` | src/core/ReplyHandlers.cpp:153-182 | a login's reply sets a cookie that holds the token, a logout's one that holds none, the others set none |
| `Serving.BrowserLogsIn` | src/core/ReplyHandlers.cpp:121-157 | a client that sends back the cookie it read from a login's reply is that user on its next request |
| `Serving.BrowserLogsOut` | src/core/ReplyHandlers.cpp:174-184 | a logout's reply takes the cookie away, and the old one is nobody's |
| `Serving.RequestIsAnswered` | src/core/HttpServer.cpp:129-178 | over every interleaving with other connections: the reply of the request is written once to the descriptor it arrived on, which is closed once, each when its call gets there, and the client reads the payload |
| `Serving.AnsweredIff` | src/include/Application.hpp:157-159 | some continuation answers the request if and only if it does not end the process and it is not for /health, or its lookup throws, or its connection is known as 0 |
| `Service.StepKeepsInv` | src/core/HttpServer.cpp:47-178 | every step of the joint system of dispatch, connections and hub keeps its invariant: whatever is being written to a connection is the reply to its own request, and a request without one has ended the process |
| `Service.EveryoneGetsTheirReply` | src/core/HttpServer.cpp:47-178 | in every reachable state of the joint system with fewer than 2^32 connections: what was written to a connection is nothing or exactly the reply dispatch gave to its request, once, on its descriptor, readable; while the process runs a connection with a reply can be written and closed; one served by /health, or whose request ended the process, never is |
| `Service.RepliesReachIff` | src/core/HttpServer.cpp:22-22 | this holds in all runs of so many connections exactly below 2^32 of them |
| `Service.HealthReachesZero` | src/include/Application.hpp:157-159 | a run with 2^32 connections in which the one known as 0 is sent another client's /health reply |
| `Service.ServerInside` | src/core/ReplyHandlers.cpp:76-360 | the server inside the joint system is a legal run of the request state machine, so all that is proved of those holds there |
| `Service.HubRun` | src/core/HttpServer.cpp:55-61 | in every reachable state the hub's clients are connections that have left their HTTP session by an upgrade |
| `Service.WatchersHoldDescriptors` | src/core/HttpServer.cpp:55-61 | in every reachable state of the joint system a client of the hub whose WebSocket has not been closed holds the descriptor it was accepted on, open |
| `Service.AnyoneMayWatch` | src/core/HttpServer.cpp:55-61 | from every reachable state a connection that has only been accepted can upgrade and be delivered every frame broadcast from then on, on its own open descriptor, without a request and whatever the accounts |
| `Process.StartOver` | src/core/Config.cpp:34-49 | a start over existing tables, with its second attempt: bootstrapped accounts, kept configuration, no sessions, no stream; it fails exactly if both attempts throw |
| `Process.RunServer` | src/core/ReplyHandlers.cpp:76-360 | for every legal run of requests and restarts, failing starts and requests that end the process included, state and replies of the objects over the encrypted tables are those of the plain specification; every session belongs to an account approved and active on disk; whoever was evicted is banned on disk and has no session |
| `Process.AccountsOnDisk` | src/core/ReplyHandlers.cpp:262-283 | any reachable state of the specification, seen in the session map and the encrypted rows |
| `Process.RowOf` | src/core/Database.cpp:205-236 | the row under an id's digest exists, is unique in what it says, and carries the flags of the account |

## Left out

- FFmpeg, OpenSSL, SQLite, Boost.Asio, Boost.Beast and nlohmann::json: only their outcomes, completions and results appear.
- JSON text: parsed bodies are inputs and printed payloads are opaque; which texts are UTF-8 is a parameter.
- Database.Database.GetAllUsers: the order of the rows is not stated; the query asks for none.
- Unfinalised statements when encryption throws, and the database connection itself: resources of the library.
- ReplyServer.ReplyServer.HandleListUsers: the list is a map from id to row, so the order of the listing is not stated; the query asks for none.
- The destructor of WebSocketSession (src/core/WebSocketSession.cpp:10-12) and shared-pointer lifetimes; the explicit unregister calls carry the protocol.
- FanOut.SessionDrains: steps are counted and never blocked; that the thread pool is fair, so that they are taken, is not modelled.
- Ingest.CachedScaler: sws_getCachedContext and the av_*_alloc calls return a handle; running out of memory is not modelled.
- Ingest.ProcessFrame: the pixels are not modelled, and the stamps are those given to the encoder; that the encoder returns them in order is the library's promise.
- Ingest.RelayConnection: a clock that does not go back is taken for granted, and its 64-bit range is not modelled.
- StreamRelayer.StreamRelayer.Start: failure to create a thread, and reads of `rtspUrl_` by the relay thread while it is set, are not modelled.
- EventBus as a vector of handlers, and AddReplyer: one handler subscribes to each event, and registered handlers are a fixed map.
- HttpServer.HttpServer.OnRead: ends where the request is published; its fields are those of `Requests.Request`.
- Service.StepKeepsInv: a restart, which ends all connections, is an event of `ServerRuns` and `Process` only.
- Process.StartOver: the second attempt opens the default database with the default secret; it is the same database only for the configuration shipped in config.json, which is the one modelled.
- Service.AnyoneMayWatch: the client's own handshake, and closing its socket, are not tied to the hub's handlers.
- Uninitialised numbers in a half-filled record, which no code reads.
- Static file reading (only empty or not), configuration, main, console output, sleeps, and the DBController and DBConnector stubs.
- User interface in app.js, index.html and style.css, apart from the frame decoder.
- Randomness of tokens and strength of the cryptography.
