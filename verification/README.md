# Verified models of the Network Next backend

A Dafny 4.11 project that models the parts of the Network Next backend where state, concurrency
or index arithmetic carry the correctness, and proves what those parts promise. `dafny verify
dfyconfig.toml` checks all of it.

What is modelled, and the main results:

- **The session update protocol.** A simulated session (`SessionClient`) and the functional
  backend (`FuncBackend`) over a network that loses, duplicates and reorders packets
  (`SessionProtocol`). The critical sections of the two goroutines are the atomic steps. In every
  run: session data tracks the slice, no response is lost or stale, fallback freezes the session,
  retries are numbered and bounded (`SessionRetries`), and session data expires within exact
  bounds (`SessionExpiry`), which runs attain (`SessionExtremes`).
- **The server cruncher.** Handlers, bucket workers and any number of overlapping snapshot ticks
  as one transition system (`CruncherModel`). Every snapshot is an atomic cut, no update is lost,
  nothing deadlocks, quiet stretches end (`CruncherCut`, `CruncherProgress`); the critical sections
  in place (`CruncherBuckets`); the batch parser and its writer in the portal as inverses
  (`ServerBatch`, `BatchWriter`); the top list and its wire form (`TopServers`).
- **The route optimizer.** The top-eight selection that replaces a stable sort (`Indirects`), the
  table of sixteen cheapest routes (`RouteManager`), the hash that tells them apart (`RouteHash`,
  `RouteCollision`), the subdivision of routes (`Optimize`, `OptimizeLoops`) and the order of its
  offers (`OptimizeOrder`), the triangular index (`RelayNet`), the workers that pull rows from a
  shared counter (`OptimizeWorkers`), and all of it together (`OptimizeRun`).
- **Client relay selection** (`ClientRelays`, `ClientRelayLoop`, `StableSort`): the imperative two
  phase selection equals a declarative one and ignores the order of its input.
- **The relay control plane.** Update framing from relay through gateway to backend
  (`RelayUpdate`), gateway membership (`GatewayMembership`), the relay list (`RelayList`),
  publication of route data (`Publication`, `PublicationStores`, `PublicationSkew`,
  `PublicationTears`), the magic window (`Magic`).
- **Two small services**: the workflow watcher (`Watch`) and seller autodetection (`Autodetect`).

`LittleEndian`, `Text` and `Common` hold what several of these share.

## Findings

Places where the code does not do what one would expect of it. Each has a lemma with a concrete
input or an exact condition.

- The session version has eight bits on the wire. The expiry formula with the session version in
  it holds exactly while fewer than 256 new routes were handed out (`ExpiryFromSessionVersion`,
  `SessionVersionWraps`).
- The backend never stores the chosen relays in the session data, so from a fresh session it never
  continues a route (`AnsweredDataExpiry`).
- The load test leaves platform and connection type unset. The backend stops on the first such
  request that it does not ignore (`UnsetPlatformIsNeverAnswered`). In every mode a session can be
  answered exactly if both are set (`AnsweredExactly`); which single request can is in
  `AnswerableExactly`. Three modes stop the backend on requests of this client too: the events mode
  on a request of slice two or later, and the two relay statistics modes on one with relay pings.
  The other session theorems are for any profile, set or unset.
- When a relay request packet cannot be written in the closing section, the session loop returns
  with the mutex locked. This happens exactly then (`WedgesExactly`, `WedgedBy`), and the session
  does nothing ever after (`WedgedForGood`). The safety theorems hold in that state too.
- The portal sizes its batch buffer by the number of buckets, not of messages. The write runs off
  the end exactly when there are more than 1000 messages (`BatchWriter.SendBatch`).
- A relay seals its update from byte 8 on, which is the end of the header only for an IPv4
  address. `ForwardedExactly` states for every address when an update gets through. For IPv6 that
  needs the first twelve sealed bytes to equal the bytes they hide (`IPv6ForwardedExactly`); no
  IPv6 packet is safe from this (`IPv6UpdateCanFail`).
- The comment of the workflow watcher speaks of two consecutive polls. The code also accepts two
  polls with empty ones in between; `WatchPolls` states exactly this, `EmptyPollBetween` is one case.
- An instance can serve blobs of different generations between its updates. What it serves is what
  redis last accepted from the leader before each load (`ServedIsAccepted`), and whether that is one
  generation is stated exactly for every instant (`ServedIsAccepted`), for the leader
  (`LeaderServesExactly`) and for a whole update (`OneGenerationExactly`). A follower can be torn
  between its loads although every store is accepted: runs end with old relays and matrices any
  number of generations newer (`FollowerCanTear`). The leader itself is torn when redis refuses a
  store, which the code only logs: one refused store is enough (`LeaderCanTear`). While redis
  accepts all its stores, the leader's own route matrix lags by more than one generation exactly
  when it is halfway through publishing after updates that failed (`LeaderServesExactly`), and what
  others serve is bounded on one side (`ServedAtEveryInstant`).
- Two different routes whose hashes collide can cost a table its cheaper route
  (`CollisionLosesRoute`), and such routes exist: 1-7-476-553-0 and 1-112-770-140-0
  (`RealCollision`). Routes that differ in one relay never collide (`OneRelayApart`).
  `OfferIsKeptExactly` states for every offer whether it is kept, and `StoredExactly` which routes
  are stored in the end; without collisions the sixteen cheapest are (`CheapestAreKept`).
- An answer to a relay has room for 1000 others. With more than 1001 relays the gateway's handler
  writes past it (`AnswerPeers`).

## Model

| member | source | states |
|---|---|---|
| `FuncBackend.CollectRouteIds` | cmd/func_backend/func_backend.go:936-946 | the loop fills the five route ids, zero beyond the route |
| `FuncBackend.CollectTokenAddresses` | cmd/func_backend/func_backend.go:959-971 | token addresses are client, relays in order, server |
| `FuncBackend.ReadSessionData` | cmd/func_backend/func_backend.go:837-860 | fresh data for slice zero, else the blob moved on by one slice, or nothing when it cannot be read |
| `FuncBackend.DecideRoute` | cmd/func_backend/func_backend.go:868-892 | the flag computed branch by branch says whether the mode takes a route in this slice |
| `FuncBackend.BuildRoute` | cmd/func_backend/func_backend.go:936-1000 | the same route is continued, any other renews the session, with ids and tokens in order |
| `FuncBackend.ProcessSessionUpdate` | cmd/func_backend/func_backend.go:750-1029 | the handler on mutable session data gives the specified outcome for every mode, request and circumstance, panics and silent drops included |
| `FuncBackend.RouteTokens` | cmd/func_backend/func_backend.go:936-1005 | the tokens of every routed answer: the client, the first five relays in order, the server, with the expire time and session version of the answered data; a direct answer has none |
| `FuncBackend.DirectExactly` | cmd/func_backend/func_backend.go:868-892 | for every mode, exactly in which slices and with how many relays the answer is direct |
| `FuncBackend.ContinuesExactly` | cmd/func_backend/func_backend.go:946-1000 | a route is continued if and only if the data of the request names its relays, place by place |
| `FuncBackend.AnsweredData` | cmd/func_backend/func_backend.go:837-1000 | the data in every answer, field by field: made for slice zero, else the request's moved on, with ten seconds more, and ten again and a new version with a new route |
| `FuncBackend.UnansweredExactly` | cmd/func_backend/func_backend.go:754-1025 | exactly which requests stop the process and which are dropped without an answer |
| `SessionClient.Session.constructor` | cmd/load_test_sessions/load_test_sessions.go:100-139 | a new session is the initial client value |
| `SessionClient.Session.OnTick` | cmd/load_test_sessions/load_test_sessions.go:215-217 | the tick section on the fields is the tick step |
| `SessionClient.Session.Send` | cmd/load_test_sessions/load_test_sessions.go:227-279 | the packet built from the fields is the request of the send step |
| `SessionClient.Session.AfterSleep` | cmd/load_test_sessions/load_test_sessions.go:294-299 | the check after the sleep is the check step |
| `SessionClient.Session.CountRetry` | cmd/load_test_sessions/load_test_sessions.go:301-303 | counting the retry is the retry step |
| `SessionClient.Session.CloseSlice` | cmd/load_test_sessions/load_test_sessions.go:306-365 | the closing section is the close step, with the early returns that leave the mutex locked |
| `SessionClient.Session.OnPacket` | cmd/load_test_sessions/load_test_sessions.go:181-195 | the receiver's section is the delivery step: a matching response is adopted whole and sets the next flag unless it is direct |
| `SessionProtocol.ReplyFollowsRequest` | cmd/func_backend/func_backend.go:766-860 | a reply names its request's session and slice, answers no fallback request, and carries the request's data moved on one slice |
| `SessionProtocol.StepKeepsSafe` | cmd/load_test_sessions/load_test_sessions.go:181-365 | every step of client, backend, network and clock keeps the safety invariant |
| `SessionProtocol.RunIsSafe` | cmd/load_test_sessions/load_test_sessions.go:181-365 | the invariant holds in every state of every run |
| `SessionProtocol.HeldDataTracksSlice` | cmd/load_test_sessions/load_test_sessions.go:183-363 | without fallback, held data is for slice n+1 exactly when a response was received and for n otherwise, and is the session's own |
| `SessionProtocol.NoResponseIsLostOrStale` | cmd/load_test_sessions/load_test_sessions.go:183-217 | no tick throws a response away, and every adopted response is for the current slice, after its first send, before any fallback |
| `SessionProtocol.DeliveredIsAdopted` | cmd/load_test_sessions/load_test_sessions.go:183-193 | a delivered response for this session and slice is adopted whole, with the next flag set if and only if it is a new or continued route; any other changes nothing |
| `SessionProtocol.HoldsLastAdopted` | cmd/load_test_sessions/load_test_sessions.go:183-193 | at every instant of every run the client holds data, signature and next flag of the response it adopted last |
| `SessionProtocol.SentExactly` | cmd/load_test_sessions/load_test_sessions.go:227-279 | every request of every run, field by field: both addresses, the next flag and the data of the last adopted response, and the relay counts |
| `SessionProtocol.FallbackFreezesSession` | cmd/load_test_sessions/load_test_sessions.go:306-365 | after fallback, session data, signature and next flag never change again |
| `SessionProtocol.UnsetPlatformIsNeverAnswered` | cmd/func_backend/func_backend.go:758-764 | a session with platform or connection type unset has no reply in any run and has fallen back once it leaves slice zero |
| `SessionExtremes.AnsweredExactly` | cmd/func_backend/func_backend.go:754-907 | in every mode some run answers the session if and only if its platform and connection type are set |
| `SessionProtocol.WedgesExactly` | cmd/load_test_sessions/load_test_sessions.go:313-357 | a step leaves the mutex locked if and only if it is a closing section in a slice with relay requests whose write fails |
| `SessionProtocol.WedgedForGood` | cmd/load_test_sessions/load_test_sessions.go:313-357 | from then on the client and what it sent never change again, in any run |
| `SessionProtocol.WedgedBy` | cmd/load_test_sessions/load_test_sessions.go:313-357 | a client is in that state at some instant of a run if and only if such a closing section came before |
| `SessionRetries.RunIsOrdered` | cmd/load_test_sessions/load_test_sessions.go:219-311 | in every run each request is the next retry of its slice or the first of the next slice, and fallback follows only a ninth request |
| `SessionRetries.RequestsPerSlice` | cmd/load_test_sessions/load_test_sessions.go:219-363 | requests of a slice are consecutive, numbered from zero, at most nine; after fallback exactly one per slice |
| `SessionRetries.ForcedRetryTakesFiveRequests` | cmd/func_backend/func_backend.go:754-756 | in forced retry mode without late responses a session never falls back and every slice it closes took requests 0 to 4 |
| `SessionRetries.AnswerableExactly` | cmd/func_backend/func_backend.go:754-907 | in every run a request sent before fallback can be answered if and only if platform and connection type are set, forced retries have come to the fifth request, no relay pings are reported in the relay statistics modes, and the events mode is before slice two |
| `SessionExpiry.AnswerAges` | cmd/func_backend/func_backend.go:841-1000 | one answer adds one slice length, one more for a new route, and counts the version modulo 256 |
| `SessionExpiry.ChainExpiry` | cmd/func_backend/func_backend.go:841-1000 | along every chain of answers the expire time is creation plus one slice length per answer and per new route, and no route is continued |
| `SessionExpiry.ExpiryFromSessionVersion` | cmd/func_backend/func_backend.go:990-1000 | the formula in terms of the session version holds if and only if there were fewer than 256 new routes |
| `SessionExpiry.SessionVersionWraps` | modules/packets/sdk_packets.go:594-660 | a chain of 256 new routes for which that formula fails |
| `SessionExpiry.RunIsTimely` | cmd/func_backend/func_backend.go:837-1000 | in every run all blobs held, sent and answered have an age that fits their slice, the race included |
| `SessionExpiry.AnsweredDataExpiry` | cmd/func_backend/func_backend.go:837-1000 | every answered blob expires at least a slice length per slice after slice zero was first answered and at most four per slice from now, and no route is ever continued |
| `SessionExtremes.LatestExpiryIsReached` | cmd/func_backend/func_backend.go:837-1000 | for every slice a run from a fresh session in which the answered blob expires exactly at the upper bound |
| `SessionExpiry.HeldDataExpiry` | cmd/load_test_sessions/load_test_sessions.go:183-279 | the lower bound for data held and for data in every request before fallback |
| `SessionExpiry.RaceIsLastRequest` | cmd/load_test_sessions/load_test_sessions.go:227-303 | a retry that carries data already moved on is the last request of its slice |
| `CruncherModel.StepKeepsShape` | cmd/server_cruncher/server_cruncher.go:92-144 | no step changes the number of buckets or sends to a bucket that does not exist |
| `CruncherBuckets.Bucket.Process` | cmd/server_cruncher/server_cruncher.go:97-101 | a worker's section adds exactly the batch to the bucket's set |
| `CruncherBuckets.SwapOut` | cmd/server_cruncher/server_cruncher.go:137-140 | the swap hands out every set and leaves every bucket empty |
| `CruncherBuckets.InsertsAreProcess` | cmd/server_cruncher/server_cruncher.go:97-101 | any number of insert steps leaves the bucket as the method does |
| `CruncherBuckets.SwapsAreSwapOut` | cmd/server_cruncher/server_cruncher.go:137-140 | the swap steps collect and empty the sets as the method does |
| `CruncherCut.SwapIsExclusive` | cmd/server_cruncher/server_cruncher.go:133-144 | while a snapshot swaps, no worker inserts and no other snapshot swaps |
| `CruncherCut.StepKeepsCutting` | cmd/server_cruncher/server_cruncher.go:92-144 | every step keeps the invariant on locks, generations, live sets and cuts |
| `CruncherCut.RunIsCutting` | cmd/server_cruncher/server_cruncher.go:92-144 | the invariant holds in every run |
| `CruncherCut.SnapshotsAreAtomicCuts` | cmd/server_cruncher/server_cruncher.go:131-144 | the finished batches are in generation order, and every snapshot holds, bucket by bucket, exactly the servers of its generation |
| `CruncherCut.NoUpdateIsLost` | cmd/server_cruncher/server_cruncher.go:92-144 | what a channel accepted is in order what its worker finished, holds and has yet to take, and every finished batch, equal ones each on their own, lies whole in one snapshot or the live set |
| `CruncherCut.SnapshotsHoldOnlyUpdates` | cmd/server_cruncher/server_cruncher.go:92-144 | every server in a snapshot came in a batch its bucket accepted |
| `CruncherProgress.NeverDeadlocks` | cmd/server_cruncher/server_cruncher.go:92-144 | every reachable state with pending work has an enabled step, for any channel capacity and any number of handlers and snapshots |
| `CruncherProgress.StepWorks` | cmd/server_cruncher/server_cruncher.go:92-144 | every goroutine step uses up work |
| `CruncherProgress.QuietStretchIsShort` | cmd/server_cruncher/server_cruncher.go:92-144 | a stretch without new requests or ticks is no longer than the work it starts with |
| `CruncherProgress.StandstillIsDone` | cmd/server_cruncher/server_cruncher.go:92-144 | when nothing can move, every accepted batch is inserted and every snapshot published |
| `LittleEndian.EncodeThenDecode` | modules/encoding/encoding.go:16-34 | a value that fits its width reads back |
| `LittleEndian.DecodeThenEncode` | modules/encoding/encoding.go:87-121 | bytes that were read are what writing the value gives |
| `LittleEndian.EncodeAt` | modules/encoding/encoding.go:16-34 | the byte order: byte k of a written value is its digit of weight 256 to the k |
| `LittleEndian.DecodeAt` | modules/encoding/encoding.go:87-121 | the same for reading |
| `LittleEndian.ReadAfterPrefix` | modules/encoding/encoding.go:87-121 | a read at an offset sees exactly the bytes there |
| `LittleEndian.Write` | modules/encoding/encoding.go:16-34 | writing in place replaces exactly the bytes of the value, lowest byte first |
| `ServerBatch.HandleServerBatch` | cmd/server_cruncher/server_cruncher.go:188-240 | the handler gives the specified verdict and sends on every body |
| `ServerBatch.HandleBody` | cmd/server_cruncher/server_cruncher.go:214-239 | the index-advancing loop over buckets equals the recursive parse of the rest |
| `ServerBatch.ReadList` | cmd/server_cruncher/server_cruncher.go:216-237 | one turn accepts exactly the counts the remaining body can hold and advances past the ids |
| `ServerBatch.ReadBatch` | cmd/server_cruncher/server_cruncher.go:232-237 | after the one division check every unchecked read succeeds |
| `ServerBatch.ParseReadsLists` | cmd/server_cruncher/server_cruncher.go:214-239 | any body is the encoding of the lists read and a tail, and the sends are those of the lists |
| `ServerBatch.ParseOfLists` | cmd/server_cruncher/server_cruncher.go:214-239 | well-formed lists parse back, whatever follows them |
| `ServerBatch.AcceptsExactlyEncodings` | cmd/server_cruncher/server_cruncher.go:188-240 | a request is accepted if and only if it is the version followed by one encoded list per bucket, and then sends exactly those |
| `ServerBatch.VersionBytes` | cmd/server_cruncher/server_cruncher.go:199-213 | a request is refused for its size or version if and only if it does not begin with the bytes 1, 0, 0, 0, 0, 0, 0, 0 |
| `ServerBatch.ListBytes` | cmd/server_cruncher/server_cruncher.go:218-237 | where each list lies and what its bytes are, count and ids lowest byte first |
| `ServerBatch.AcceptedBytes` | cmd/server_cruncher/server_cruncher.go:199-239 | an accepted request byte by byte, and one send in bucket order for exactly the lists that are not empty |
| `ServerBatch.DeliveriesAre` | cmd/server_cruncher/server_cruncher.go:232-238 | a batch is sent to a bucket if and only if it is the non-empty list of that bucket |
| `ServerBatch.RefusedAfterPrefix` | cmd/server_cruncher/server_cruncher.go:214-239 | a refused body has sent exactly the batches of a prefix of the buckets |
| `ServerBatch.AllocationIsBounded` | cmd/server_cruncher/server_cruncher.go:223-233 | the ids allocated take no more bytes than the body has |
| `BatchWriter.GroupsKeepAll` | modules/portal/portal.go:1343-1358 | grouping by bucket keeps every message once |
| `BatchWriter.GroupAt` | modules/portal/portal.go:1341-1357 | every message is in the group of its score, the last group for all scores from 999 on, after exactly the earlier messages of that group |
| `BatchWriter.GroupMessages` | modules/portal/portal.go:1341-1358 | the counting and appending loops give the groups in message order |
| `BatchWriter.Put` | modules/portal/portal.go:1366-1373 | a value is written if and only if it fits |
| `BatchWriter.PutLists` | modules/portal/portal.go:1368-1373 | the lists are written if and only if they fit, and then as encoded |
| `BatchWriter.SendBatch` | modules/portal/portal.go:1339-1382 | a body is posted if and only if there are at most as many messages as buckets, and it is the encoding of the groups |
| `BatchWriter.PostedBatchIsDelivered` | modules/portal/portal.go:1339-1382 | every posted body is accepted by the cruncher, which sends each bucket its messages in order: message k arrives in the bucket of its score behind exactly those posted before it |
| `TopServers.TopListIsFirstOccurrences` | cmd/server_cruncher/server_cruncher.go:150-169 | the top list has no repetition, has length min(limit, distinct), and is in first-occurrence order, with everything dropped coming later |
| `TopServers.TopInBucketOrder` | cmd/server_cruncher/server_cruncher.go:159-169 | of two listed servers the one first found in the earlier bucket, or at the lower rank of one bucket, comes first |
| `TopServers.MergeTop` | cmd/server_cruncher/server_cruncher.go:150-169 | the merge loop with its early exit gives that list |
| `TopServers.MergeBucket` | cmd/server_cruncher/server_cruncher.go:159-168 | one bucket extends the list and stops exactly when it is full |
| `TopServers.TopListOfOneGeneration` | cmd/server_cruncher/server_cruncher.go:131-180 | in every run a published list holds only servers of one snapshot generation, and all of them when they fit |
| `TopServers.PublishTop` | cmd/server_cruncher/server_cruncher.go:107-123 | the encoder stays in its buffer and publishes exactly the encoded list |
| `TopServers.PublishedBytes` | cmd/server_cruncher/server_cruncher.go:107-121 | the published bytes: 1, 0, 0, 0, 0, 0, 0, 0, then count and ids, each lowest byte first |
| `TopServers.WatchTop` | modules/portal/portal.go:1569-1600 | the reader's loop decodes as specified, missing ids read as zero included |
| `TopServers.DecodeTopExactly` | modules/portal/portal.go:1580-1600 | for any bytes, exactly when the reader takes them and which server it reads at each place, zero where the bytes run out |
| `TopServers.PublishedListReadsBack` | modules/portal/portal.go:1569-1600 | the published bytes decode back to the list |
| `StableSort.SortPermutes` | modules/common/client_relays.go:40-42 | sorting permutes |
| `StableSort.SortLexOrdered` | modules/common/client_relays.go:40-42 | successive stable sorts compose into one lexicographic order |
| `StableSort.SortInPlace` | modules/common/client_relays.go:40-42 | the in-place insertion sort is the stable sort |
| `ClientRelays.SortsAreOrders` | modules/common/client_relays.go:40-92 | the sort passes order relays by (source distance, id) and by (dest distance, source distance, id) |
| `ClientRelays.PickTakesFresh` | modules/common/client_relays.go:50-107 | a phase with its break and continue takes the first eligible relays not yet chosen, up to the maximum |
| `ClientRelays.PickAddsLeast` | modules/common/client_relays.go:50-107 | a phase adds the least of its pool under its order |
| `ClientRelays.NearSourceIsFirstChoice` | modules/common/client_relays.go:40-69 | phase one chooses the eligible relays within the threshold, least by (source distance, id) |
| `ClientRelays.ChosenIsDeclared` | modules/common/client_relays.go:30-122 | the relays chosen are exactly the declared set, of size min(max, eligible), phase one never evicted |
| `ClientRelays.NotChosenExactly` | modules/common/client_relays.go:30-122 | why an eligible relay is left out, in distances and ids alone: the choice is full and every chosen relay comes before it |
| `ClientRelays.ChosenIgnoresOrder` | modules/common/client_relays.go:30-122 | any permutation of the input with distinct ids gives the same relays |
| `ClientRelayLoop.Collect` | modules/common/client_relays.go:30-38 | the arrays become relays with their source distances |
| `ClientRelayLoop.SortByDistance` | modules/common/client_relays.go:40-42 | sorting the working array is the stable sort of its relays |
| `ClientRelayLoop.SelectNear` | modules/common/client_relays.go:50-69 | the first loop is the first pick |
| `ClientRelayLoop.MeasureFromDest` | modules/common/client_relays.go:88-90 | overwriting the distances changes nothing else |
| `ClientRelayLoop.SelectMore` | modules/common/client_relays.go:94-107 | the second loop is the second pick |
| `ClientRelayLoop.GetClientRelays` | modules/common/client_relays.go:10-123 | the whole function lists exactly the chosen relays, each id with its own address |
| `ClientRelayLoop.ResultIsDeclared` | modules/common/client_relays.go:10-123 | for distinct ids the returned pairs are those of the declared relays |
| `ClientRelayLoop.ResultIsGiven` | modules/common/client_relays.go:10-123 | every returned pair is id and address of one given relay that is no detour, and every such relay is returned unless the maximum is reached |
| `RelayUpdate.AddressReadsBack` | modules/encoding/encoding.go:61-191 | every address reads back from its encoding, whatever surrounds it |
| `RelayUpdate.PlainBytes` | modules/packets/relay_packets.go:58-70 | an update byte by byte, for every kind of address |
| `RelayUpdate.FrameBytes` | cmd/load_test_relays/load_test_relays.go:127-137 | a frame is eight clear bytes, the sealed rest, and the nonce, forty bytes longer than the packet |
| `RelayUpdate.FrameUpdate` | cmd/load_test_relays/load_test_relays.go:117-137 | the relay's buffer, sealed in place and extended by the nonce, is the frame |
| `RelayUpdate.HandleRelayUpdate` | cmd/relay_gateway/relay_gateway.go:122-299 | the handler on one buffer that it decrypts and patches in place gives the specified outcome for every body |
| `RelayUpdate.ForwardedIsShorter` | cmd/relay_gateway/relay_gateway.go:124-141 | nothing below 48 bytes or of another version is forwarded, and what is forwarded is forty bytes shorter |
| `RelayUpdate.DeliverInPlace` | cmd/relay_gateway/relay_gateway.go:180-299 | after decryption: window check, timestamp replaced, MAC and nonce cut off |
| `RelayUpdate.WindowIsTenSeconds` | cmd/relay_gateway/relay_gateway.go:195-207 | the 64-bit window check is ten seconds either way, and empty at the ends of the clock |
| `RelayUpdate.FrameIsReadBack` | cmd/relay_gateway/relay_gateway.go:132-169 | for every address the gateway takes the header to end where it does, and reads the relay's address if and only if the whole header is in the clear |
| `RelayUpdate.GatewayOfFrame` | cmd/relay_gateway/relay_gateway.go:122-299 | what becomes of a frame, by the relay it is taken for and what its sealed part opens to |
| `RelayUpdate.ForwardedExactly` | cmd/relay_gateway/relay_gateway.go:122-299 | for every update of every relay, whatever its address: it is forwarded as the plaintext with only the timestamp replaced if and only if the relay is known with its keys, its header is in the clear, and the part after it opens to a timestamp in the window and the rest of the packet |
| `RelayUpdate.IPv4Survives` | cmd/relay_gateway/relay_gateway.go:122-299 | with an IPv4 address that is the case if and only if the relay's clock is in the window |
| `RelayUpdate.ForwardedIsRetimed` | cmd/relay_gateway/relay_gateway.go:122-299 | every IPv4 update is forwarded as the plaintext with only the timestamp replaced when the relay's clock is in the window, and refused when not |
| `RelayUpdate.IPv6ForwardedExactly` | cmd/load_test_relays/load_test_relays.go:117-137 | an IPv6 update is forwarded as it should be if and only if the first twelve sealed bytes equal the header bytes they hide and the rest of the sealed part opens to a timestamp in the window and the rest of the packet |
| `RelayUpdate.IPv6UpdateCanFail` | cmd/load_test_relays/load_test_relays.go:117-137 | for every IPv6 packet and nonce there is a sound box with which a known relay's update does not get through |
| `RelayUpdate.ForwardedIsStamped` | cmd/relay_gateway/relay_gateway.go:284-299 | whatever was posted, what is forwarded carries the gateway's time where the backend looks for it |
| `RelayUpdate.AlarmIgnoresRelayClock` | cmd/relay_backend/relay_backend.go:374-378 | for whatever was posted and forwarded, the backend's alarm is raised exactly when the delay from gateway to backend is too long |
| `GatewayMembership.AscendingIsUnique` | cmd/relay_gateway/relay_gateway.go:378-380 | a set of addresses has one sorted listing |
| `GatewayMembership.BelowExactly` | cmd/relay_gateway/relay_gateway.go:378-380 | the order of the addresses: the first character that differs decides, and a prefix comes first |
| `GatewayMembership.SortStrings` | cmd/relay_gateway/relay_gateway.go:378-380 | the keys come out sorted and without repetition |
| `GatewayMembership.Gateway.Refresh` | cmd/relay_gateway/relay_gateway.go:350-394 | a failed read leaves the list alone; otherwise it is the sorted union of both minutes |
| `GatewayMembership.RefreshedList` | cmd/relay_gateway/relay_gateway.go:350-394 | every backend that beat within 60 seconds is listed, and none whose last beat is 120 seconds old |
| `GatewayMembership.BoundsAreTight` | cmd/relay_backend/relay_backend.go:441-450 | both bounds are the best possible |
| `StableSort.SortKeepsDistinct` | modules/common/service.go:695-697 | sorting by name keeps distinct ids distinct |
| `RelayList.GenerateRelayData` | modules/common/service.go:677-720 | the relays are sorted by name in place, the arrays describe them in that order, of relays with one id the map holds the last, and distinct relays give consistent data |
| `RelayList.IndexRelays` | modules/common/service.go:699-720 | the parallel arrays and the map of last relays by id, for any relays |
| `RelayList.IndexedIsLast` | modules/common/service.go:699-701 | the map holds for each id the last relay with it |
| `RelayList.AnswerPeer` | cmd/relay_gateway/relay_gateway.go:229-241 | the address and internal flag told about one relay |
| `RelayList.PeerIsToldExactly` | cmd/relay_gateway/relay_gateway.go:221-246 | for every two relays, the place of the one in the list of the other; the internal flag is set if and only if both have one seller, one group and an internal address each, and the address goes with it |
| `RelayList.FillPeers` | cmd/relay_gateway/relay_gateway.go:221-246 | the index loop that skips the asking relay fills the list of peers, and overruns its arrays if and only if there are more peers than they hold |
| `RelayList.AnswerPeers` | cmd/relay_gateway/relay_gateway.go:154-246 | an unknown relay is refused; a known one gets its list if and only if there are at most 1001 relays, itself included |
| `RelayList.PeersSkipOnlySelf` | cmd/relay_gateway/relay_gateway.go:221-246 | the list is the database order with exactly the asking relay removed |
| `RelayList.InternalIsSymmetric` | cmd/relay_gateway/relay_gateway.go:229-241 | across two calls, A is told B's internal address if and only if B is told A's |
| `Publication.RunIsInOrder` | cmd/relay_backend/relay_backend.go:1163-1198 | in every run the three blobs are published in order, each from a complete load |
| `Publication.ServedInOrder` | cmd/relay_backend/relay_backend.go:1184-1196 | at every instant publications of relays, cost matrix and route matrix are in order and at most one apart, and a route matrix implies the other two |
| `Publication.ServedBlobsStay` | cmd/relay_backend/relay_backend.go:937-944 | no served blob goes away, and asking for traffic is monotone |
| `Publication.TrafficExactly` | cmd/relay_backend/relay_backend.go:937-944 | in every run an instance asks for traffic if and only if it has finished a publication and more than the initial delay has passed |
| `Publication.RunIsSteady` | modules/common/redis_leader_election.go:199-218 | under one leader everybody follows it and it loads what it has stored itself; if besides redis accepts its stores, its stored blobs are in step and followers load blobs at most one generation apart in order |
| `PublicationStores.StoredIsLastAccepted` | modules/common/redis_leader_election.go:199-205 | in every run redis holds of each blob the generation it last accepted from the instance |
| `PublicationStores.StoredGrows` | modules/common/redis_leader_election.go:199-205 | what redis holds never goes back to an older generation |
| `PublicationStores.ServedWasStored` | cmd/relay_backend/relay_backend.go:1163-1198 | at every instant of every run, whoever is elected and whatever redis refuses, each served blob is what redis held under the name of the instance's leader when it loaded the blob, and the loads are in the order of publication |
| `PublicationStores.ServedIsAccepted` | cmd/relay_backend/relay_backend.go:1163-1198 | under one leader each served blob is the last accepted one before its load; one generation is served if and only if nothing is published yet or the three last accepted stores are of one generation |
| `PublicationStores.ServedNeverGoesBack` | cmd/relay_backend/relay_backend.go:1184-1196 | under one leader no served blob is ever replaced by an older one |
| `PublicationStores.ServedWithinStored` | cmd/relay_backend/relay_backend.go:1163-1198 | under one leader no served blob is newer than what redis holds of the leader's |
| `PublicationStores.RunLeaderServesAccepted` | cmd/relay_backend/relay_backend.go:1163-1198 | at every instant the leader serves what redis last accepted from it, up to now for what it has replaced halfway through publishing and up to its last publication for the rest |
| `PublicationSkew.LeaderServesExactly` | cmd/relay_backend/relay_backend.go:1163-1198 | at every instant the leader's blobs are its last accepted ones, so of one generation if and only if those are; if redis accepts all its stores they are in descending generations, and the route matrix lags only halfway through publishing, by one and one more for each update that failed since the last publication, so by at most one if and only if none failed or it is not halfway |
| `PublicationSkew.RunIsFresher` | cmd/relay_backend/relay_backend.go:1163-1198 | under one leader nothing served is newer than what the leader has stored; if redis accepts its stores, what an instance has replaced or can still load is not older than what it is yet to replace |
| `PublicationSkew.ServedAtEveryInstant` | cmd/relay_backend/relay_backend.go:1163-1198 | for any instance at any instant nothing served is newer than what the leader has stored; if redis accepts its stores, between publications no blob is more than one generation older than one before it, and halfway what is replaced is not older than what is not |
| `PublicationSkew.TripleLoaded` | cmd/relay_backend/relay_backend.go:1169-1182 | in every run the three loads of an update take each blob as redis holds it under the leader's name at that moment |
| `PublicationSkew.LoadedIsServed` | cmd/relay_backend/relay_backend.go:1184-1196 | after the three publications exactly what was loaded is served |
| `PublicationSkew.OneGenerationExactly` | cmd/relay_backend/relay_backend.go:1163-1198 | under one leader an update of any instance ends with blobs of one generation if and only if the last accepted stores before its three loads are of one generation; if redis accepts all the leader's stores, if and only if between the first load and the load of each matrix the leader stores that matrix exactly as often as it owed it at the first load |
| `PublicationTears.FollowerCanTear` | cmd/relay_backend/relay_backend.go:1163-1198 | for every g there is a run from the start under one steady leader that ends with a follower serving relays of generation 1 with matrices of generation g |
| `PublicationTears.LeaderCanTear` | modules/common/redis_leader_election.go:199-205 | for every g there is a run from the start with one leader and exactly g refused stores that ends with the leader between updates serving relays of generation 1 with matrices of generation g + 1 |
| `Publication.Server.Publish` | cmd/relay_backend/relay_backend.go:1169-1196 | a load that finds nothing replaces nothing, else all three are replaced |
| `Publication.StepsArePublish` | cmd/relay_backend/relay_backend.go:1169-1196 | three loads and three publications in steps do what the method does, even from three different sources |
| `Magic.Registers.constructor` | cmd/func_backend/func_backend.go:151-175 | the registers start with three draws, newest first |
| `Magic.Registers.GetMagic` | cmd/func_backend/func_backend.go:158-165 | the values read are one window |
| `Magic.Registers.UpdateMagic` | cmd/func_backend/func_backend.go:177-189 | a shift moves the window by one and each register to its neighbour |
| `Magic.DrawnIsWindow` | cmd/func_backend/func_backend.go:158-189 | the registers refine the abstract window of one sequence |
| `Magic.AnswerIsWindow` | cmd/magic_backend/magic_backend.go:75-86 | the stateless answer is the counter and the abstract window at it |
| `Magic.AnswerBytes` | cmd/magic_backend/magic_backend.go:77-86 | the bytes of an answer: the number of whole periods lowest byte first, then the hashes two, one and none after it |
| `Magic.CurrentIsShared` | cmd/magic_backend/magic_backend.go:75-86 | windows accept each other's current value if and only if their counters are at most one apart |
| `Magic.InstancesAgree` | cmd/magic_backend/magic_backend.go:58-86 | instances whose clocks are at most a period apart accept each other's current value |
| `Magic.Cache.UpdateMagicValues` | modules/common/service.go:993-1014 | an answer that is not newer is ignored |
| `Magic.PollsKeepNewest` | modules/common/service.go:993-1014 | in whatever order polls come, the copy is the window of the newest counter seen |
| `Watch.ParseWatchPipelines` | cmd/deploy/watch.go:43-58 | the loop gives the pipelines of the lines, in order |
| `Watch.FieldsOfSpaced` | cmd/deploy/watch.go:46 | words printed with any spacing are read back |
| `Watch.RowReadsBack` | cmd/deploy/watch.go:46-54 | a row, however spaced, reads back as its id, its name with single spaces, and its state |
| `Watch.RowExactly` | cmd/deploy/watch.go:36-54 | exactly which lines are rows: five words or more, the first of 36 characters with four dashes |
| `Watch.SpacesAre` | cmd/deploy/watch.go:46 | the characters that separate words |
| `Watch.TableReadsBack` | cmd/deploy/watch.go:43-58 | a printed table gives back its rows in order and nothing for other lines |
| `Watch.RememberedConfirms` | cmd/deploy/watch.go:120-163 | the one number kept is enough to recognise a confirmation |
| `Watch.WatchPolls` | cmd/deploy/watch.go:120-163 | the loop ends normally exactly at the first poll that is all done with the count of an earlier all-done poll and only empty polls between, unless the deadline passes first |
| `Watch.EmptyPollBetween` | cmd/deploy/watch.go:120-163 | a poll confirms an earlier one over an empty poll between them |
| `Autodetect.LocationIs` | cmd/autodetect/autodetect.go:36-60 | exactly which datacenter names give which location |
| `Autodetect.KeysTellApart` | cmd/autodetect/autodetect.go:64 | a cache key determines location and address |
| `Autodetect.SellerIsOfFirstMatch` | cmd/autodetect/autodetect.go:99-107 | the seller is that of the first two-field pattern found in the output |
| `Autodetect.SellerNamedFirst` | cmd/autodetect/autodetect.go:99-107 | the seller is the one behind the comma of the first pattern whose word is in the output |
| `Autodetect.NoSellerNamed` | cmd/autodetect/autodetect.go:99-107 | no seller is found when no such word is there |
| `Autodetect.DetectExactly` | cmd/autodetect/autodetect.go:78-118 | a seller is the answer if and only if the first server's output names it, or names none and the second server answers and names it |
| `Autodetect.FindSeller` | cmd/autodetect/autodetect.go:99-107 | the search loop gives that seller |
| `Autodetect.Service.AskWhois` | cmd/autodetect/autodetect.go:78-112 | the second whois is asked only when the first names no seller, and a failure ends the search |
| `Autodetect.Service.Handle` | cmd/autodetect/autodetect.go:43-129 | one request: bad names, hits, misses and what they leave in the cache |
| `Autodetect.AnswersAreJustified` | cmd/autodetect/autodetect.go:66-128 | however requests overlap, every answer names the location asked for and a seller that whois gave for that address; if whois never changes its mind, equal questions get equal answers |
| `Autodetect.AnsweredIsCached` | cmd/autodetect/autodetect.go:120-124 | in every run whatever was answered stays in the cache under its key |
| `Autodetect.CachedIsAnsweredAtOnce` | cmd/autodetect/autodetect.go:62-74 | a request with its key in the cache is answered from it without asking whois |
| `RelayNet.TriMatrixIndexIs` | modules/core/core.go:87-97 | a pair's index lies in the stretch of its larger member, in either order |
| `RelayNet.TriMatrixInjective` | modules/core/core.go:91-97 | different pairs have different indices |
| `RelayNet.TriMatrixOnto` | modules/core/core.go:87-97 | every index below the length belongs to a pair |
| `RelayNet.Square` | modules/core/core.go:372-380 | the flat square, filled from the triangle, holds every link cost at both places and zero on the diagonal |
| `RelayNet.PutBoth` | modules/core/core.go:375-379 | one link goes into its two places and no other cell changes |
| `RelayNet.RowIsSlice` | modules/core/core.go:430-447 | a slice of the square is the row of a relay's links |
| `Indirects.CandidatesAre` | modules/core/core.go:449-463 | the candidates are exactly the relays that make the way cheaper, with the exact cost |
| `Indirects.CandidatesAscend` | modules/core/core.go:452-463 | the candidates come in the order of the relays |
| `Indirects.InsertThenCut` | modules/core/core.go:473-489 | inserting into a sorted list and cutting equals cutting and inserting, ties included |
| `Indirects.Consider` | modules/core/core.go:473-489 | one turn of the selection keeps the first eight of a stable sort |
| `Indirects.SelectBest` | modules/core/core.go:473-492 | the streaming top-eight equals the first eight of a stable sort by cost |
| `Indirects.Collect` | modules/core/core.go:449-463 | the scan fills the buffer with the candidates whatever it held before |
| `Indirects.FindIndirects` | modules/core/core.go:447-502 | one pair gives the retained candidates, and no stale buffer content reaches the result |
| `Indirects.RetainedAreCheapest` | modules/core/core.go:465-502 | only candidates are kept, and none left out is cheaper than one kept |
| `Indirects.RetainedOrder` | modules/core/core.go:465-502 | up to eight stay in the order of the relays; of more, eight are ordered by cost, ties by relay |
| `RouteManager.AddedKeepsTable` | modules/core/core.go:194-322 | adding keeps at most sixteen routes, sorted by cost, loop-free, below the cost limit, with different hashes |
| `RouteManager.AddedExactly` | modules/core/core.go:194-322 | for every table and route, what is refused, where the route goes among its equals, and what falls out |
| `RouteManager.AllAddedIsTable` | modules/core/core.go:194-322 | every table after any offers is such a table |
| `RouteManager.AllAddedWereOffered` | modules/core/core.go:194-322 | every stored route was offered |
| `RouteManager.AddedKeepsExactly` | modules/core/core.go:194-322 | an eligible route is kept by the table it is offered to if and only if its hash is new there or it is kept already |
| `RouteManager.OfferIsKeptExactly` | modules/core/core.go:194-322 | the same for a route in a series of offers and the table at its moment |
| `RouteManager.StoredExactly` | modules/core/core.go:194-322 | after any offers, collisions or not, an eligible route for which the table has room is stored if and only if it was once offered when its hash was new |
| `RouteManager.CollisionLosesRoute` | modules/core/core.go:229-234 | of any two different eligible routes with one hash the second offered is lost, however cheap |
| `RouteHash.Hash` | modules/core/core.go:324-342 | the loop over the relays computes the hash, octet by octet |
| `RouteHash.ExtendInjective` | modules/core/core.go:324-342 | different hashes stay different when the same relay is added |
| `RouteHash.ExtendTellsRelays` | modules/core/core.go:324-342 | different relay indices below 65536 take a hash to different hashes |
| `RouteHash.OneRelayApart` | modules/core/core.go:324-342 | routes that differ in exactly one relay never have the same hash |
| `RouteCollision.RealCollision` | modules/core/core.go:229-342 | two loop-free routes of five relays between the same ends that share a hash, the cheaper of which is lost at any costs and prices |
| `RouteManager.CheapestAreKept` | modules/core/core.go:194-322 | without hash collisions every eligible offer is stored or sixteen that are not dearer are, whatever the order |
| `RouteManager.CostsIgnoreOrder` | modules/core/core.go:194-322 | the same offers in another order give as many routes with the same costs |
| `RouteManager.Manager.constructor` | modules/core/core.go:184-192 | a new table is empty |
| `RouteManager.Manager.HasLoop` | modules/core/core.go:204-210 | the nested scan finds a repeated relay if and only if there is one |
| `RouteManager.Manager.HoldsHash` | modules/core/core.go:229-234 | the scan finds the hash if and only if it is stored |
| `RouteManager.Manager.FindPlace` | modules/core/core.go:253-259 | the search for the insertion index |
| `RouteManager.Manager.ShiftIn` | modules/core/core.go:261-276 | the slots after the place move on by one and the route goes in |
| `RouteManager.Manager.AddRoute` | modules/core/core.go:194-322 | in place, adding a route gives the specified table in every branch |
| `Optimize.EntryIsSound` | modules/core/core.go:539-633 | every stored route runs from i to j over two to five relays, costs exactly its links, is priced exactly by its relays, and beats the direct link unless it is the direct link |
| `Optimize.EntryAddsUp` | modules/core/core.go:539-633 | the same in terms of the net alone: cost is the sum of the links and below 255, price the sum over all relays, ends included; with a link of 255 the direct route is not stored |
| `Optimize.DirectIsKept` | modules/core/core.go:547-553 | a direct link below 255 is stored or sixteen routes that are not dearer are |
| `Optimize.UnwantedIsDirect` | modules/core/core.go:443-445 | a pair without a destination relay has no route but the direct one |
| `Optimize.EntryKeepsDetours` | modules/core/core.go:561-614 | every loop-free way through a listed relay, with up to one more listed relay on each side, that beats the direct link is stored or sixteen that are not dearer are |
| `Optimize.TriangleKeepsDetour` | modules/core/core.go:561-574 | a net of three relays that meets the conditions of the theorem, and whose detour is kept |
| `Optimize.CollisionsAreOfHash` | modules/core/core.go:324-342 | two offers of a pair can share a hash only where the hash maps two different lists of relays to one value |
| `Optimize.IndirectsAreExact` | modules/core/core.go:511-516 | every indirect entry is an exact sum of link costs |
| `Optimize.RowsArePlanned` | modules/core/core.go:509-516 | rows made by phase one form a plan whose indirect costs are exact |
| `Optimize.FirstRouteBeatsDetours` | modules/core/core.go:432-614 | the first stored route costs no more than going through any one relay, listed or not |
| `OptimizeLoops.OfferJoined` | modules/core/core.go:577-614 | the nested loops offer each first leg with each second leg, in order |
| `OptimizeLoops.OfferVia` | modules/core/core.go:561-614 | the four cases for one indirect relay are offered in order |
| `OptimizeOrder.FirstDetours` | modules/core/core.go:568-587 | the first offers through a relay k: i-k-j, then i-x-k-j for each x listed, with their costs and places |
| `OptimizeOrder.MiddleDetours` | modules/core/core.go:589-598 | then i-k-y-j for each y listed |
| `OptimizeOrder.LastDetours` | modules/core/core.go:600-613 | then i-x-k-y-j for each x and for it each y |
| `OptimizeOrder.DetoursByList` | modules/core/core.go:561-614 | the relays k are gone through in the order of their list |
| `OptimizeLoops.OptimizePair` | modules/core/core.go:541-614 | the pair's loops on a route manager give the specified entry |
| `OptimizeLoops.PairIndirects` | modules/core/core.go:434-502 | one pair of phase one, with the tests that skip it |
| `OptimizeLoops.IndirectRow` | modules/core/core.go:428-503 | a worker's row of indirect relays, with scratch buffers of any content |
| `OptimizeLoops.EntryRow` | modules/core/core.go:534-634 | a row stores each entry as it is made, fills its own stretch of the triangle and touches nothing else |
| `OptimizeWorkers.RunIsShort` | modules/core/core.go:397-426 | under any schedule no row is taken or completed twice, a run ends within two moves per row and one per worker, and until then some worker can move |
| `OptimizeWorkers.ScheduleDoesNotMatter` | modules/core/core.go:397-509 | when all workers have left, the rows are the same whatever the schedule; with at least one worker all are there, with none none is |
| `OptimizeWorkers.RowsLand` | modules/core/core.go:518-547 | rows written in any order each end up whole in their own stretch |
| `OptimizeWorkers.EveryEntryIsWritten` | modules/core/core.go:518-547 | after any complete schedule every pair has the entry of its row |
| `OptimizeRun.PhaseOnePlans` | modules/core/core.go:397-509 | whatever the schedule of phase one, the rows it leaves are the plan for phase two |
| `OptimizeRun.EveryEntryIsOptimized` | modules/core/core.go:397-637 | after complete schedules of both phases, with any number of workers from one on, every pair has the entry of that plan |

## Left out

- Numbers: slice numbers, retry numbers and expire times are unbounded; a slice number would wrap after 2^32 slices.
- The serializer of the session data is not part of this model. A session version that does not fit its eight bits is either refused or cut, and every result holds for both.
- The relay request packets of the closing section appear only as writes that may fail.
- SortedSet is a finite set with a rank order by score and key; the skip list inside is not modelled.
- MergeTop: servers of one bucket are given in rank order as a sequence, because all of them have the bucket index for a score.
- Encryption is any pair of functions where opening undoes sealing; hashing, whois, geography and the latency test are arbitrary functions.
- The route hash is any function of the relays in `RouteManager` and `Optimize`, whose results hold for all of them; `RouteHash` models the one in use.
- ServedIsAccepted: is about runs in which one instance stays leader; generations are counted by each instance for itself, so those of two leaders cannot be compared. `ServedWasStored` is about all runs.
- LeaderServesExactly: the same.
- ServedAtEveryInstant: the same.
- OneGenerationExactly: the same.
- OneRelayApart: relay indices are below 65536; the system has at most 1000 relays.
- ScheduleDoesNotMatter: takes completing a row as one step; rows write to disjoint stretches of the triangle.
- Production session handling, route tokens, the SDK, the relay datapath, the HTTP API and its pagination, deployment commands and UI: not modelled.
- The output of whois is given in lower case, as the code makes it before the search.
- Pipeline results and the exit code of the workflow watcher: only easy members.
