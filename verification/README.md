# Proofs about a Mainline DHT node, a cached transformer and a ZIP store

A Dafny model of three cores of this repository, and proofs of what they promise. `dafny verify dfyconfig.toml` takes
the whole project.

**The Mainline DHT node** (`rust/mainline`, BEP 5, BEP 42, BEP 44). Ids and XOR distance, the sorted list of closest
nodes, the routing table, the codecs, the socket with its requests in flight, the Kademlia lookup, the put query with
its tally, the storage server, the cache of finished lookups, the node that ties them together, and the actor loop.
Time is a natural number handed to each operation, in milliseconds; the network is any sequence of packets. What the
code changes in place is a class; each method is proved equal to a function on values, and the theorems over whole runs
are about those functions.

| module | source | main results |
|---|---|---|
| `Ids`, `Nodes` | id.rs, node.rs | distance as bit length, ultrametric; eight secure nodes and one insecure an address |
| `SortedLists`, `Closest` | closest_nodes.rs | the list is always sorted, so the search is always legal; when nothing is lost |
| `Routing`, `ClosestExact` | routing_table.rs | every reachable table; exactly when `closest` returns the first 20; history does not matter |
| `Messages`, `Mutable` | messages.rs, mutable.rs | round trip of every message; the signable text is injective |
| `Sockets` | socket.rs | one timely reply a request from a matching address |
| `Lookups` | iterative_query.rs | convergence and termination of the lookup |
| `PutQueries`, `PutLimits` | put_query.rs | conservation of replies, exact tally, exactly when a put is done, rejected or failed |
| `Lrus`, `Servers`, `TokenLife`, `PeerStores` | server.rs, tokens.rs, peers.rs | monotone `seq`, at most one swap, a register; exactly when a token validates; every peer reported announced itself |
| `QueryCaches` | rpc.rs | running sums are the sums over the entries |
| `Rpcs`, `RpcInvariants`, `NodeConvergence`, `NodeParts`, `Reachability`, `PutProgress` | rpc.rs | disjoint ownership of ids and all parts in order in every run; every reported lookup has converged; puts that start, fail or wait for nothing |
| `Actors`, `ActorSafety`, `ActorRuns` | dht.rs | no caller orphaned, none answered twice, every answer what was reported for the caller's own target |
| `Counterexamples`, `NodeCounterexamples` | all of these | inputs and short runs of a new node on which the code parts from what it promises |

**Inference with a key/value cache** (`rust/src/laurelia`). Feeding tokens one at a time through the caches gives the
logits of the plain causal forward at every step, for any number of layers (`Attentions`, `LayerStacks`,
`LanguageModels`), several tokens at once do so exactly in their last row (`ChunkLimits`), and the sampler only returns tokens of its top-k and nucleus (`Sampling`).

**The ZIP store** (`descargas.js`, `cargar.js`; sections 4.3.7, 4.3.12, 4.3.16 and 4.4.7 of the PKWARE APPNOTE). The
reader recovers what the writer wrote, under an exact condition (`ZipStore`), and the table-driven CRC is the serial one
(`Checksums`).

## Where code and promise part

The model follows the code. Each of these is a theorem with its exact condition, and a lemma at a concrete input.

- `get_mutable_most_recent` is documented to return the most recent item; it keeps the sequence number of the first
  item it receives (`Mutable.MostRecentIff`, `Counterexamples.OlderItemWins`).
- A put can be left waiting for nothing: its target is under an active find_node, or the cached nodes it is sent to
  have no token (`PutProgress.PutStrandsIff`, `NodeCounterexamples.AnnounceDuringFindNode`,
  `NodeCounterexamples.AnnounceAtTokenless`).
- `validate` is documented as "within the past 10 minutes"; a token validates for one rotation, which is five minutes
  at least and has no upper bound (`TokenLife.ValidExactlyForOneRotation`, `TokenLife.RefusedBeforeTenMinutes`,
  `TokenLife.AcceptedAfterTenMinutes`).
- `PutQueryError::ErrorResponse` is documented to carry the most common error; the put is reported as a timeout unless
  the code that reached the highest count first is 301 or 302 (`PutQueries.FinalFailure`,
  `PutLimits.OtherErrorIsTimeout`, `PutLimits.OrderDecides`).
- The 8-bit majority threshold is right below 510 requests (`PutQueries.MajorityTestExactIff`,
  `PutLimits.OneOf510Rejects`), and 256 acknowledgements count as none (`PutQueries.DoneIff`,
  `PutLimits.All256StoreAndFail`). Both counters wrap here as in a release build; a debug build panics instead.
- The count behind the responders' size estimate is right only until the first find_node is cached
  (`QueryCaches.RespondersCountIff`, `NodeCounterexamples.FindNodeIsCounted`).
- A node that answers again from its known address is not refreshed in the table (`Routing.KnownIdReentersIff`,
  `Counterexamples.NeighbourStaysStale`).
- `closest` is documented to prioritise secure nodes; an insecure node listed earlier keeps the secure nodes of its
  address out (`ClosestExact.ClosestAreFirst`, `Counterexamples.SecureNodeIsMissed`).
- A put message with a key but no `seq` or no `sig` panics the decoder (`Messages.PanicsIff`,
  `Counterexamples.DecoderPanics`).
- A put of another kind replaces a mutable put in flight on the same target without a test
  (`PutProgress.OtherPutReplaces`, `NodeCounterexamples.AnnounceReplacesMutable`).
- Several tokens on top of a non-empty cache are not masked: only the last row is that of the plain forward
  (`ChunkLimits.RowAgreesIff`, `ChunkLimits.EarlierRowDiffers`).
- An archive loses files beyond 65535 of them, a file named `__proto__`, and byte order marks at the start of names and
  texts (`ZipStore.ZipRoundTrip`, `ZipStore.AllNumbersAreLost`, `ZipStore.ProtoIsLost`, `ZipStore.MarkIsLost`).

## Model

| member | source | states |
|---|---|---|
| Ids.XorIds | rust/mainline/src/common/id.rs:67-75 | the byte loop yields the byte-wise XOR |
| Ids.XorBytesIsXor | rust/mainline/src/common/id.rs:67-75 | byte-wise XOR is XOR of the 160-bit big-endian numbers |
| Ids.LeadingZeros | rust/mainline/src/common/id.rs:55-64 | the loop that stops at the first non-zero byte counts the leading zero bits |
| Ids.DistanceIsBitLength | rust/mainline/src/common/id.rs:50-64 | distance 0 exactly for equal ids; distance d > 0 exactly when 2^(d-1) <= a XOR b < 2^d as 160-bit numbers |
| Ids.DistanceIsUltrametric | rust/mainline/src/common/id.rs:50-52 | the distance is symmetric, and no detour is shorter than its longer leg |
| Ids.DistanceAtMost | rust/mainline/src/common/id.rs:50-52 | distance at most d exactly when the XOR is below 2^d |
| Ids.XorInjective | rust/mainline/src/common/id.rs:67-75 | two ids at one XOR distance from a target are the same id |
| Ids.FromIpv4AndR | rust/mainline/src/common/id.rs:125-139 | the id made for an address is valid for it, carries r, and keeps every bit outside the 21-bit prefix and the last byte |
| Ids.ValidIdsAgree | rust/mainline/src/common/id.rs:106-154 | two valid ids of one public address whose last bytes agree modulo 8 agree on their first 21 bits |
| Nodes.SecureCountIsResidueCount | rust/mainline/src/common/node.rs:125-142 | in a list kept by `already_exists`, the secure nodes of a public address are as many as the distinct residues modulo 8 of their last bytes |
| Nodes.QuotaPerAddress | rust/mainline/src/common/node.rs:125-142 | such a list holds at most eight secure nodes of a public address and one insecure node of any address |
| SortedLists.BinarySearchBy | rust/mainline/src/rpc/closest_nodes.rs:55-67 | binary search on a list the comparison partitions: a match, or the one place where everything before is less and everything after greater |
| SortedLists.SortedUnique | rust/mainline/src/rpc/closest_nodes.rs:48-68 | two strictly sorted lists with the same members are the same list |
| SortedLists.AllKeptIff | rust/mainline/src/rpc/closest_nodes.rs:48-68 | inserting elements with distinct keys through the filter keeps all of them exactly when none keeps a later one out |
| Closest.CompareIsKeyOrder | rust/mainline/src/rpc/closest_nodes.rs:55-64 | the closure given to the search is the order "secure first, then smaller XOR", so it is total and consistent |
| Closest.KeyInjective | rust/mainline/src/rpc/closest_nodes.rs:55-64 | nodes equal under that order have one id and one security |
| Closest.ClosestNodes.Add | rust/mainline/src/rpc/closest_nodes.rs:48-68 | the binary search and the insert at its position do what the sorted insertion with the quota filter does |
| Closest.AdditionsKeepOrderAndQuota | rust/mainline/src/rpc/closest_nodes.rs:48-68 | any sequence of additions keeps the list strictly sorted and within the quota of each address, and invents no node |
| Closest.AllNodesKeptIff | rust/mainline/src/rpc/closest_nodes.rs:48-68 | of pairwise compatible nodes with distinct ids none is lost exactly when no insecure node comes before another node of its address |
| Closest.ListStartsWithClosest | rust/mainline/src/rpc/closest_nodes.rs:48-68 | then the first n of the list are the n first of all given nodes in that order, none nearer left out |
| Closest.OrderIrrelevant | rust/mainline/src/rpc/closest_nodes.rs:48-68 | where no address mixes secure and insecure nodes, the order of insertion does not matter |
| Closest.UntilSecure | rust/mainline/src/rpc/closest_nodes.rs:79-106 | a prefix of at least 20 nodes (or all) that goes on exactly to the first node at the expected distance with enough subnets before it |
| Closest.ClosestNodes.TakeUntilSecure | rust/mainline/src/rpc/closest_nodes.rs:79-106 | the loop with its growing set of subnets returns that prefix |
| Closest.ClosestNodes.SubnetsCount | rust/mainline/src/rpc/closest_nodes.rs:109-121 | the loop counts the distinct subnets of the first 20 nodes, at most 20, and 20 for an empty list |
| Routing.KBucket.Add | rust/mainline/src/common/routing_table.rs:201-235 | replace, append, evict the stale head, or refuse, as a function of the old bucket |
| Routing.KBucket.Remove | rust/mainline/src/common/routing_table.rs:237-239 | `retain` drops the id and keeps the order of the rest |
| Routing.RoutingTable.Add | rust/mainline/src/common/routing_table.rs:40-59 | the new table and the answer as a function of the old table; other buckets are untouched |
| Routing.RoutingTable.Remove | rust/mainline/src/common/routing_table.rs:62-68 | only the bucket at the distance of the id changes |
| Routing.ReachableTable | rust/mainline/src/common/routing_table.rs:40-68 | after any sequence of adds and removes: own id absent, ids unique in the whole table, each node in the bucket of its distance, at most 20 a bucket, at most one insecure node an address and eight secure ones a public address |
| Routing.TableRemoveOk | rust/mainline/src/common/routing_table.rs:62-68 | a removal takes out exactly the node of that id and keeps the invariant |
| Routing.KnownIdReentersIff | rust/mainline/src/common/routing_table.rs:40-59 | a node whose id is known gets in exactly when nothing excludes it and it is secure; from the known address it never does, so coming back refreshes nothing |
| Counterexamples.NeighbourStaysStale | rust/mainline/src/common/routing_table.rs:40-59 | a reachable table, and a node that answers again an hour after it was added: the table refuses it and still holds it as stale |
| Routing.RoutingTable.Closest | rust/mainline/src/common/routing_table.rs:72-82 | collecting all buckets and cutting at 20; the first nodes of the order where no insecure node is listed before another of its address |
| ClosestExact.KeptIff | rust/mainline/src/rpc/closest_nodes.rs:48-68 | of pairwise compatible nodes with distinct ids, added in a row, one is kept exactly when no insecure node of its address comes before it |
| ClosestExact.ClosestAreFirst | rust/mainline/src/common/routing_table.rs:72-82 | in every reachable table, `closest` returns exactly the first min(20, size) nodes in the order "secure first, then nearer" if and only if none of these is listed after an insecure node of its address |
| Counterexamples.SecureNodeIsMissed | rust/mainline/src/common/routing_table.rs:72-82 | a reachable table of two nodes for which `closest` returns only one, and not the first |
| Routing.ClosestIgnoresHistory | rust/mainline/src/common/routing_table.rs:72-82 | two reachable tables with the same nodes, none mixed on an address, answer alike however they were filled, even under different own ids |
| Routing.RoutingTable.Size | rust/mainline/src/common/routing_table.rs:108-112 | the fold over the buckets is the number of nodes the iterator yields |
| Routing.RoutingTableIterator.Next | rust/mainline/src/common/routing_table.rs:157-180 | each call yields the next node in bucket order, none twice, until all have been seen |
| Messages.SockaddrToBytes | rust/mainline/src/common/messages.rs:688-696 | four octets and the port, high byte first |
| Messages.AddrRoundTrip | rust/mainline/src/common/messages.rs:669-696 | an address comes back from its six bytes |
| Messages.Nodes4ToBytes | rust/mainline/src/common/messages.rs:700-709 | the loop appends 26 bytes a node |
| Messages.BytesToNodes4 | rust/mainline/src/common/messages.rs:711-729 | the loop decodes 26-byte chunks, and refuses other lengths |
| Messages.NodesRoundTrip | rust/mainline/src/common/messages.rs:700-729 | a node list comes back with the same ids and addresses in order; tokens are forgotten and times are new |
| Messages.PeersRoundTrip | rust/mainline/src/common/messages.rs:731-745 | a peer list comes back |
| Messages.TidRoundTrip | rust/mainline/src/common/messages.rs:215-218 | a transaction id comes back from its four big-endian bytes |
| Messages.WireNamesDistinct | rust/mainline/src/common/messages/internal.rs:133-333 | no two fields share a dictionary key |
| Messages.FirstFitIsWritten | rust/mainline/src/common/messages/internal.rs:92-129 | the first untagged response variant that fits the fields written is the variant that was written |
| Messages.ResponseRoundTrip | rust/mainline/src/common/messages.rs:402-584 | every response reads back as itself, normalised |
| Messages.RequestRoundTrip | rust/mainline/src/common/messages.rs:215-400 | every request reads back as itself, normalised |
| Messages.MessageRoundTrip | rust/mainline/src/common/messages.rs:215-584 | decoding what was encoded gives the message back up to normalisation: GetValue loses its salt, nodes their token and time, `implied_port` keeps only whether it was given |
| Messages.PanicsIff | rust/mainline/src/common/messages.rs:455-482 | decoding panics exactly for a put with a key but without a sequence number or a signature, whose `ip` field is readable |
| Counterexamples.DecoderPanics | rust/mainline/src/common/messages.rs:455-482 | a wire message on which decoding panics |
| Mutable.EncodeSignable | rust/mainline/src/common/mutable.rs:140-152 | the buffer built up in place is the signable text |
| Mutable.SignableRoundTrip | rust/mainline/src/common/mutable.rs:140-152 | sequence number, value and optional salt can be read back from the text |
| Mutable.SignableInjective | rust/mainline/src/common/mutable.rs:140-152 | equal texts come from equal sequence numbers, values and salts |
| Mutable.SignatureDeterminesItem | rust/mainline/src/common/mutable.rs:80-105 | under a scheme that binds a signature to one text, two accepted items with one key and one signature agree on value, sequence number and salt |
| Mutable.GetMutableMostRecent | rust/mainline/src/dht.rs:349-367 | the loop as a function of the items received |
| Mutable.MostRecentIsOfFirst | rust/mainline/src/dht.rs:349-367 | its result is the greatest value among the items with the sequence number of the first item |
| Mutable.MostRecentIff | rust/mainline/src/dht.rs:349-367 | it has the highest sequence number exactly when the first item received has |
| Counterexamples.OlderItemWins | rust/mainline/src/dht.rs:349-367 | two items, received older first, of which the older is returned |
| Sockets.InflightRequests.Add | rust/mainline/src/rpc/socket/inflight_requests.rs:41-49 | adds or replaces one entry with the time of the call |
| Sockets.InflightRequests.Contains | rust/mainline/src/rpc/socket/inflight_requests.rs:52-57 | in flight and younger than the timeout |
| Sockets.InflightRequests.Remove | rust/mainline/src/rpc/socket/inflight_requests.rs:61-75 | gives an entry up only for a matching address before the timeout |
| Sockets.InflightRequests.Cleanup | rust/mainline/src/rpc/socket/inflight_requests.rs:79-85 | `retain` of the entries younger than the timeout |
| Sockets.CleanupInvisible | rust/mainline/src/rpc/socket/inflight_requests.rs:79-85 | dropping expired entries changes no answer of `contains` or `remove`, now or later |
| Sockets.KrpcSocket.Tid | rust/mainline/src/rpc/socket.rs:240-247 | hands out the next id and wraps at 2^32 |
| Sockets.KrpcSocket.Request | rust/mainline/src/rpc/socket.rs:102-112 | one datagram, one entry, one id |
| Sockets.KrpcSocket.IsExpectedResponse | rust/mainline/src/rpc/socket.rs:226-238 | expected exactly when the id is awaited from a matching address, and then no longer awaited |
| Sockets.KrpcSocket.RecvFrom | rust/mainline/src/rpc/socket.rs:139-224 | which packets are handed on: requests from a usable port, and replies that are expected |
| Sockets.HandedOnIsNew | rust/mainline/src/rpc/socket.rs:226-238 | a reply that is handed on belongs to a request that was sent and had none before |
| Sockets.AwaitedIff | rust/mainline/src/rpc/socket.rs:97-112 | a request is awaited exactly while it has no reply and is younger than the timeout |
| Sockets.RunKeepsOk | rust/mainline/src/rpc/socket.rs:97-247 | in every run with fewer than 2^32 requests ids are distinct, every reply handed on answers one request sent to a matching address less than the timeout before, and no request gets two |
| Lookups.IterativeQuery.AddCandidate | rust/mainline/src/rpc/iterative_query.rs:117-121 | a candidate enters `closest` and nothing else changes |
| Lookups.IterativeQuery.AddRespondingNode | rust/mainline/src/rpc/iterative_query.rs:154-157 | a responder enters `responders` and nothing else changes |
| Reachability.VotesAreCounted | rust/mainline/src/rpc/iterative_query.rs:123-130 | after any sequence of votes the map says of each address how often it was voted for, in 16 bits, and of no other address |
| Reachability.MostVotedWins | rust/mainline/src/rpc/iterative_query.rs:95-130 | with fewer than 65536 votes an address, the address taken has the most votes of all, whatever the order of the walk |
| Lookups.IterativeQuery.Visit | rust/mainline/src/rpc/iterative_query.rs:132-147 | the request and a ping to the address, both ids noted, the address visited |
| Lookups.IterativeQuery.VisitClosest | rust/mainline/src/rpc/iterative_query.rs:191-204 | the addresses of the first 20 entries not visited yet are visited, in order |
| Lookups.IterativeQuery.Tick | rust/mainline/src/rpc/iterative_query.rs:170-189 | visits, then reports done exactly when none of its ids is awaited |
| Lookups.Unvisited | rust/mainline/src/rpc/iterative_query.rs:191-204 | the addresses to visit: none visited before, each of an entry, and no unvisited entry left out |
| Lookups.DoneIff | rust/mainline/src/rpc/iterative_query.rs:170-189 | done exactly when each request the lookup ever sent got its reply or timed out |
| Lookups.FirstNodesVisited | rust/mainline/src/rpc/iterative_query.rs:191-204 | after a tick each of the first 20 entries has a visited address |
| Lookups.SendingGrows | rust/mainline/src/rpc/iterative_query.rs:132-204 | a tick that sends something strictly grows the visited set |
| Lookups.FreshIsAwaited | rust/mainline/src/rpc/iterative_query.rs:170-204 | a request just sent is awaited until the timeout, so a tick that sends does not report done |
| Lookups.DoneMeansConverged | rust/mainline/src/rpc/iterative_query.rs:170-204 | a tick shorter than the timeout that reports done sent nothing: each of the first 20 entries had a visited address, each own request its reply or its timeout |
| Lookups.LookupConverges | rust/mainline/src/rpc/iterative_query.rs:170-204 | the same at the end of every run: candidates, votes, responders, other traffic and replies in any order |
| Lookups.LateSends | rust/mainline/src/rpc/iterative_query.rs:170-204 | a tick that begins after all requests timed out and does not report done has sent something |
| Lookups.LookupEnds | rust/mainline/src/rpc/iterative_query.rs:132-204 | with N addresses to hear of, at most N ticks of any run send anything, and at most as many late ticks fail to report done |
| PutQueries.PutQuery.Start | rust/mainline/src/rpc/put_query.rs:38-77 | the result (started, no closest nodes, panic above 255 nodes or on a second start) and the requests sent |
| PutQueries.PutQuery.Error | rust/mainline/src/rpc/put_query.rs:92-113 | the swap loop re-sorts the tally after one increment |
| PutQueries.PutQuery.Tick | rust/mainline/src/rpc/put_query.rs:116-195 | pending, done or the error reported, as a function of counters and socket |
| PutQueries.BubbleSorts | rust/mainline/src/rpc/put_query.rs:104-108 | moving the incremented entry forward restores the non-increasing order, loses no entry and no count |
| PutQueries.TallyIsExact | rust/mainline/src/rpc/put_query.rs:92-113 | as long as no code comes more than 255 times: one entry a code, its count the replies of that code, highest first, the counts add up |
| PutQueries.TallyExactIff | rust/mainline/src/rpc/put_query.rs:92-113 | the counts are those of the replies exactly as long as no code comes more than 255 times |
| PutQueries.FewRequests | rust/mainline/src/rpc/put_query.rs:87-113 | with at most 255 requests neither the acknowledgements nor any code overflow their 8 bits |
| PutQueries.LeaderIff | rust/mainline/src/rpc/put_query.rs:187-195 | the leader of a tally, in terms of the replies alone: no code came more often, and every other was behind its final count when it got there |
| PutQueries.FirstIsLeader | rust/mainline/src/rpc/put_query.rs:92-113 | the first entry of the tally is that of the leader, with its count |
| PutQueries.SendsToTokened | rust/mainline/src/rpc/put_query.rs:58-74 | one request to every node with a token, in order, to no other, each with its own token |
| PutQueries.StartsIff | rust/mainline/src/rpc/put_query.rs:38-81 | an accepted start leaves the query started exactly when some node has a token; otherwise nothing is sent and no tick ever reports it |
| PutQueries.MajorityTestExactIff | rust/mainline/src/rpc/put_query.rs:167-185 | the threshold cut to 8 bits separates majorities from the rest for every count exactly below 510 requests |
| PutQueries.MajorityIff | rust/mainline/src/rpc/put_query.rs:167-195 | below 510 requests, the test on the first entry finds code 301 (302) at the threshold exactly when more than half of the nodes sent it |
| PutQueries.RepliesConserved | rust/mainline/src/rpc/put_query.rs:87-113 | in every run, however many requests, `stored_at` and all error counts together never exceed the requests; each is exact exactly as long as its 8 bits do not overflow |
| PutQueries.DoneIff | rust/mainline/src/rpc/put_query.rs:116-165 | success exactly when every request got its reply or timed out and the 8-bit count of acknowledgements is not zero |
| PutQueries.EarlyRejectionIff | rust/mainline/src/rpc/put_query.rs:144-185 | failure while requests are pending: exactly for a mutable put whose leading error is 301 (302) at the threshold; below 510 requests, exactly when a strict majority of the contacted nodes sent it |
| PutQueries.FinalFailure | rust/mainline/src/rpc/put_query.rs:122-139 | failure at the end: exactly with a zero count of acknowledgements; CAS failed exactly when 301 leads, not most recent exactly when 302 leads, a timeout exactly when neither does |
| PutLimits.OtherErrorIsTimeout | rust/mainline/src/rpc/put_query.rs:122-139 | a put from a new socket on whose only node answers "Bad token" is reported as a timeout |
| PutLimits.OrderDecides | rust/mainline/src/rpc/put_query.rs:92-113 | of two errors that come once each, the one that came first decides |
| PutLimits.OneOf510Rejects | rust/mainline/src/rpc/put_query.rs:167-185 | a put started at 255 nodes and 255 extra nodes is rejected by one reply of 510 |
| PutLimits.All256StoreAndFail | rust/mainline/src/rpc/put_query.rs:87-139 | a put that all of 256 nodes acknowledge is reported as a timeout |
| Lrus.TouchedFinds | rust/mainline/src/rpc/server.rs:192-192 | reading the recency list changes only the order |
| Lrus.StoredFinds | rust/mainline/src/rpc/server.rs:282-282 | writing sets one key and loses at most the one it evicts |
| Servers.Server.HandleRequest | rust/mainline/src/rpc/server.rs:145-380 | store and answer as a function of the old store, branch by branch, with the error codes 203, 205, 206, 207, 301 and 302 |
| Servers.Server.HandlePutMutable | rust/mainline/src/rpc/server.rs:290-377 | the mutable put in its order of tests |
| PeerStores.StepPeers | rust/mainline/src/rpc/server/peers.rs:30-38 | what any request does to the address of any node under any hash: an announcement with a valid token sets exactly its own; the only other loss is what the two bounds push out |
| PeerStores.KeptIsLastAnnounced | rust/mainline/src/rpc/server/peers.rs:30-38 | in every run the address kept for a node and a hash is the one it announced last |
| PeerStores.ReportedPeers | rust/mainline/src/rpc/server/peers.rs:41-87 | no peers exactly for a hash with none, all of fewer than ten, otherwise at most ten, none more often than it is stored |
| Servers.Server.SamplePeers | rust/mainline/src/rpc/server/peers.rs:58-83 | the sampling loop, which leaves when ten are taken, as a function of what is drawn |
| PeerStores.ReportedWereAnnounced | rust/mainline/src/rpc/server/peers.rs:41-87 | every peer ever reported announced itself for that hash, from that host, with a valid token |
| Servers.AcceptedIff | rust/mainline/src/rpc/server.rs:290-377 | a mutable put is acknowledged exactly when the filter allows it, the token is valid, value and salt are short enough, CAS and sequence number fit what is stored, and the signature verifies |
| Servers.StepFinds | rust/mainline/src/rpc/server.rs:145-380 | what any request does to any stored item: only an accepted put changes it, to exactly its own item; the only other loss is an eviction |
| Servers.SeqNeverDecreases | rust/mainline/src/rpc/server.rs:327-362 | while a target is not evicted, its item stays and its sequence number never decreases |
| Servers.AtMostOneSwap | rust/mainline/src/rpc/server.rs:327-343 | of all puts with `cas` = s and `seq` > s, a stored target accepts one at most in any run |
| Servers.StoredIsLastAccepted | rust/mainline/src/rpc/server.rs:360-362 | what is stored is the item of the last accepted put of that target |
| Servers.ReadsLastAccepted | rust/mainline/src/rpc/server.rs:327-420 | in every run a reader is sent the item of the last accepted put of the target as its writer signed it, with a signature that verifies, or its sequence number when the reader has it already |
| Servers.NothingToRead | rust/mainline/src/rpc/server.rs:383-420 | without eviction, a reader is told that there is no value exactly when no put of the target was ever accepted |
| Servers.FewTargetsNeverDropped | rust/mainline/src/rpc/server.rs:360-362 | with no more targets than the store holds, nothing is ever evicted |
| TokenLife.TokenLives | rust/mainline/src/rpc/server/tokens.rs:45-90 | a token validates for its address at least five minutes, whatever is handled in between |
| TokenLife.TokenValidatesIff | rust/mainline/src/rpc/server/tokens.rs:45-90 | over any run a token validates exactly when the secrets were rotated at most once since, or one of the two secrets kept gives the same digest |
| TokenLife.ValidExactlyForOneRotation | rust/mainline/src/rpc/server/tokens.rs:45-90 | where no later secret gives the same digest: exactly when the secrets were rotated at most once |
| TokenLife.BusyServerForgets | rust/mainline/src/rpc/server/tokens.rs:45-65 | a call more than five minutes after the last rotation, and one more than five minutes after that call, end a token |
| TokenLife.RefusedBeforeTenMinutes | rust/mainline/src/rpc/server/tokens.rs:49-55 | a run in which a put with a token of five minutes is refused |
| TokenLife.AcceptedAfterTenMinutes | rust/mainline/src/rpc/server/tokens.rs:49-55 | a put with a token of ten hours that is accepted |
| QueryCaches.QueryCache.CacheIterativeQuery | rust/mainline/src/rpc.rs:884-923 | entries and counters as a function of the old ones |
| QueryCaches.QueryCache.MakeRoom | rust/mainline/src/rpc.rs:885-888 | pops the least recent entry when full, and its part of the sums |
| QueryCaches.QueryCache.Decrement | rust/mainline/src/rpc.rs:934-951 | takes an entry out of the sums |
| QueryCaches.SumsAreSums | rust/mainline/src/rpc.rs:884-951 | over every run of caching, replacing, evicting and reading, the running sums equal the sums over the entries (1000000 and 20 more at the start, as the code has it), and the responders count is the number of entries that are no find_node plus the find_nodes ever cached |
| QueryCaches.NoUnderflow | rust/mainline/src/rpc.rs:934-951 | no unsigned counter goes below zero |
| QueryCaches.PutNeverEvicts | rust/mainline/src/rpc.rs:885-915 | room has been made, so the put itself drops nothing unseen |
| QueryCaches.RespondersCountIff | rust/mainline/src/rpc.rs:919-950 | the responders count is the number of cached entries that are no find_node exactly as long as no find_node was ever cached |
| NodeCounterexamples.FindNodeIsCounted | rust/mainline/src/rpc.rs:919-950 | one cached find_node, and the count is off |
| Rpcs.Rpc.Get | rust/mainline/src/rpc.rs:361-448 | joins an active lookup or starts one, and answers with the responses so far and the item of a mutable put in flight |
| Rpcs.Rpc.Put | rust/mainline/src/rpc.rs:276-344 | conflict test, cached start or lookup, in the order of the code |
| Rpcs.Rpc.TickPutQueries | rust/mainline/src/rpc.rs:956-971 | the puts reported, by walking the map in any order |
| Rpcs.Rpc.TickGetQueries | rust/mainline/src/rpc.rs:974-1010 | every lookup ticks once; the finished ones are reported with their nodes |
| Rpcs.Rpc.CleanupDoneQueries | rust/mainline/src/rpc.rs:1013-1050 | finished lookups leave, waiting puts start or fail, finished puts leave |
| Reachability.NewAddressIsPinged | rust/mainline/src/rpc.rs:861-882 | taking a new address sends exactly one ping, to it, and makes the node firewalled; the old address again changes nothing |
| Reachability.ReachableOnlyIfPinged | rust/mainline/src/rpc.rs:511-536 | in every run of a new node: it takes itself for reachable only after a ping has come from the very public address it has by then |
| Rpcs.Rpc.PeriodicNodeMaintenance | rust/mainline/src/rpc.rs:744-848 | server mode, purge and ping, populate, each when due |
| Rpcs.Rpc.HandleRequest | rust/mainline/src/rpc.rs:478-537 | seeding, serving, and a new id after a self-ping |
| Rpcs.Rpc.HandleResponse | rust/mainline/src/rpc.rs:563-737 | a reply goes to the put that owns its id, else to the lookup that does, else nowhere |
| Rpcs.Rpc.TickAll | rust/mainline/src/rpc.rs:230-250 | the five steps in order |
| RpcInvariants.NewNodeOwned | rust/mainline/src/rpc.rs:110-152 | a new node satisfies the ownership invariant (the ids of live lookups and puts are pairwise disjoint, each is in step with the socket) |
| RpcInvariants.GetKeeps | rust/mainline/src/rpc.rs:361-448 | a get keeps that invariant of ownership |
| RpcInvariants.PutKeeps | rust/mainline/src/rpc.rs:276-344 | a put keeps that invariant of ownership, also one that overrides |
| RpcInvariants.TickKeeps | rust/mainline/src/rpc.rs:230-250 | a tick keeps that invariant of ownership, whatever packet comes and in whatever order the maps are walked |
| RpcInvariants.NodeRunOwned | rust/mainline/src/rpc.rs:563-594 | in every run of puts, gets, seeds and ticks with fewer than 2^32 requests live lookups and puts own pairwise disjoint ids, each in step with the socket, and every responder kept has a token |
| NodeConvergence.ReportedLookupsConverged | rust/mainline/src/rpc.rs:974-1010 | in every run of a node, each lookup that a tick shorter than the timeout reports had nothing left to send: its first 20 entries visited, its requests answered or timed out |
| RpcInvariants.PutsConserved | rust/mainline/src/rpc.rs:569-585 | in every run `stored_at` and all error counts of a live put never exceed the requests it sent |
| PutProgress.TickKeys | rust/mainline/src/rpc.rs:230-250 | exactly the puts a tick reports leave the node, at most the lookups it reports, and a remaining put keeps its request |
| PutProgress.PutKeys | rust/mainline/src/rpc.rs:276-344 | an accepted put is at its target, a refused one changes nothing, no lookup is lost; an override is not refused after the old put is gone |
| PutProgress.PutStrandsIff | rust/mainline/src/rpc.rs:314-341 | an accepted put is left waiting for nothing exactly when fresh cached nodes are used, none of them nor the extra nodes has a token and no value lookup is active, or when they are not used and the active lookup of the target is a find_node |
| PutProgress.StrandedForever | rust/mainline/src/rpc.rs:1028-1040 | such a put is neither started nor reported in any run until the same target is put or its value looked up again |
| NodeCounterexamples.AnnounceDuringFindNode | rust/mainline/src/rpc.rs:314-341 | from a new node on: a peer announced while a find_node on the hash goes on is never started and never reported |
| NodeCounterexamples.AnnounceAtTokenless | rust/mainline/src/rpc.rs:316-324 | from a new node on: nodes cached by a find_node have no token, and a put at them is never started and never reported |
| PutProgress.WaitingPutResolves | rust/mainline/src/rpc.rs:1019-1045 | a put whose value lookup is cleaned up has started or failed |
| PutProgress.TickKeepsWaiting | rust/mainline/src/rpc.rs:230-250 | a tick never strands a put that waits for its value lookup: it waits on, has started, or is reported |
| PutProgress.PutKeepsSeq | rust/mainline/src/rpc.rs:283-312 | a mutable put replaces one in flight only with a sequence number that is not lower |
| PutProgress.SeqInFlightNeverDecreases | rust/mainline/src/rpc.rs:283-312 | over any run, while a mutable put is in flight on a target and only mutable puts address it, its sequence number never decreases |
| PutProgress.OtherPutReplaces | rust/mainline/src/rpc.rs:283-341 | a put of another kind replaces it without any test |
| NodeCounterexamples.AnnounceReplacesMutable | rust/mainline/src/rpc.rs:283-341 | from a new node on: an announcement replaces the mutable put in flight on its target |
| NodeParts.GetKeepsParts | rust/mainline/src/rpc.rs:361-448 | a get keeps the table, the sums and the store in order |
| NodeParts.PutKeepsParts | rust/mainline/src/rpc.rs:276-344 | a put keeps the table, the sums and the store in order |
| NodeParts.TickKeepsParts | rust/mainline/src/rpc.rs:230-250 | a tick keeps the table, the sums and the store in order, also one in which the node takes a new id and starts an empty table |
| NodeParts.NodeRunInOrder | rust/mainline/src/rpc.rs:230-448 | in every run of a new node, seeding included, whichever id it has by then: own id absent, ids unique, each node in the bucket of its distance from the present id, at most 20 a bucket, the quota of each address; the cache and the store within their bounds, no counter below its start |
| NodeParts.MaintenancePurges | rust/mainline/src/rpc.rs:784-831 | maintenance takes exactly the stale nodes out of the table when a ping is due, and none otherwise |
| NodeParts.PurgePings | rust/mainline/src/rpc.rs:804-831 | it pings exactly the addresses of nodes that are not stale and were not seen for ten seconds |
| NodeParts.ResponseIgnoresOrder | rust/mainline/src/rpc.rs:569-596 | what a response does to a node does not depend on the order in which the hash maps are walked |
| NodeParts.OnlyOwnerChanges | rust/mainline/src/rpc.rs:563-596 | a response changes puts and lookups at most where its id is in flight; one from a read-only node changes nothing |
| NodeParts.BestAddressHasMostVotes | rust/mainline/src/rpc/iterative_query.rs:95-108 | the address taken has the most votes; there is none exactly when nothing was voted for |
| Actors.ActorLoop.HandlePut | rust/mainline/src/dht.rs:521-534 | the caller waits at the target, or is refused at once |
| Actors.ActorLoop.HandleGet | rust/mainline/src/dht.rs:535-547 | what is known is sent, and the caller waits |
| Actors.ActorLoop.FinishGets | rust/mainline/src/dht.rs:580-589 | the callers of finished lookups leave, those that asked for nodes get them |
| Actors.ActorLoop.FinishPuts | rust/mainline/src/dht.rs:592-604 | the callers of finished puts all get its one result |
| Actors.ActorLoop.OneRound | rust/mainline/src/dht.rs:512-605 | one round: a message, a tick, the report |
| ActorSafety.PutMessageOk | rust/mainline/src/dht.rs:521-534 | taking a put, also one that overrides, keeps the books of callers (each caller waits at its target with a live query or was answered, never twice) |
| ActorSafety.GetMessageOk | rust/mainline/src/dht.rs:535-547 | taking a get keeps the books of callers (each caller waits at its target with a live query or was answered, never twice) |
| ActorSafety.ReportOk | rust/mainline/src/dht.rs:570-604 | handing out a report keeps the books of callers (each caller waits at its target with a live query or was answered, never twice) |
| ActorSafety.RoundOk | rust/mainline/src/dht.rs:512-605 | one round keeps the books: at its end put senders have exactly the keys of the live puts, and each get sender has a live lookup |
| ActorSafety.RunIsSafe | rust/mainline/src/dht.rs:503-605 | in every run that has not panicked each caller is waiting at its target, where a query is live, or was answered, and never twice |
| ActorRuns.RunActorIsRunNode | rust/mainline/src/dht.rs:512-568 | a run of the loop is a run of its node: the messages and ticks in order |
| ActorRuns.ActorRunInOrder | rust/mainline/src/dht.rs:503-605 | after every round of a loop over a new node, its table, cache and store are in order |
| ActorRuns.EveryAnswerIsSourced | rust/mainline/src/dht.rs:521-604 | whatever any caller is ever told is the refusal of its own put, an answer known when it asked, or what the node reported in some round for the target it asked about |
| Attentions.CausalMask | rust/src/laurelia/attention.rs:93-107 | the nested loops fill the flat buffer with the rows of the mask |
| Attentions.MaskEntry | rust/src/laurelia/attention.rs:93-107 | entry (i, j) hides position j exactly when it lies after query i aligned to the end |
| Attentions.SoftmaxIgnoresNegInf | rust/src/laurelia/attention.rs:70-90 | masked positions take no weight and change no other weight |
| Attentions.CausalRowSeesPrefix | rust/src/laurelia/attention.rs:70-107 | row i of masked attention is unmasked attention over the keys up to its own position |
| Attentions.RoPE.SliceHoldsPositions | rust/src/laurelia/rope.rs:57-68 | a table slice holds the rows of its own positions, also after the rebuild past the maximum length |
| Attentions.RoPE.ForwardRotatesAt | rust/src/laurelia/rope.rs:71-109 | row i is rotated by its absolute position |
| Attentions.Attention.ForwardRow | rust/src/laurelia/attention.rs:109-131 | row i of the plain causal forward depends on the prefix up to i only |
| Attentions.Attention.CachedStep | rust/src/laurelia/attention.rs:133-169 | one more position on the cache of a prefix gives the last row of the longer prefix, and its cache |
| Attentions.Attention.Prefill | rust/src/laurelia/attention.rs:133-169 | without a cache the cached forward is the plain one and leaves the rotated keys and the values |
| Attentions.Attention.ChunkSeesEverything | rust/src/laurelia/attention.rs:160-166 | several positions on top of a cache are not masked: each attends to all keys, also those after it |
| ChunkLimits.RowAgreesIff | rust/src/laurelia/attention.rs:160-166 | row i of n on top of a cache is that of the plain forward for all weights, prefixes and chunks exactly when it is the last |
| ChunkLimits.ChunksAgreeIff | rust/src/laurelia/attention.rs:160-166 | chunks on top of a cache agree with the plain forward exactly when they hold one position |
| ChunkLimits.EarlierRowDiffers | rust/src/laurelia/attention.rs:160-166 | a head that copies its input, and a chunk of which every row but the last differs |
| LanguageModels.Block.CachedStep | rust/src/laurelia/block.rs:48-68 | the residual layer keeps the agreement, with the feed-forward half on both paths |
| LanguageModels.BlockAgrees | rust/src/laurelia/block.rs:48-68 | the two forwards of a block agree, whatever its weights |
| LayerStacks.LLM.Forward | rust/src/laurelia/model.rs:77-87 | the loop over the layers is their composition |
| LayerStacks.LLM.ForwardWithCache | rust/src/laurelia/model.rs:90-105 | the loop that overwrites one cache a layer, as a function of the old caches |
| LayerStacks.LLM.CachedStepAgrees | rust/src/laurelia/model.rs:90-105 | one token through the caches of its prefix gives the last row of the plain forward and the caches of the longer prefix, for any number of layers |
| LayerStacks.LLM.FeedAgrees | rust/src/laurelia/model.rs:90-105 | fed one at a time at offsets 0, 1, 2, .., all logits together are the plain forward on the whole sequence |
| LanguageModels.CachedInferenceAgrees | rust/src/laurelia/model.rs:77-105 | the same for a transformer of concrete blocks: logits of each step, and in each layer exactly the rotated keys and values of the prefix |
| LayerStacks.LLM.FeedPrompt | rust/src/laurelia/model.rs:232-238 | the prompt loop leaves the caches and the last logits of the prompt |
| LayerStacks.LLM.Generate | rust/src/laurelia/model.rs:221-256 | generation with caches produces the tokens that generation without any cache would |
| Sampling.PenaliseSeen | rust/src/laurelia/model.rs:131-147 | each seen token of the vocabulary is penalised exactly once, no other |
| Sampling.SortRanks | rust/src/laurelia/model.rs:153-153 | the stable sort ranks by value, equal ones by index |
| Sampling.MaskLogits | rust/src/laurelia/model.rs:155-163 | the logits outside the candidates become minus infinity |
| Sampling.CandidateIff | rust/src/laurelia/model.rs:151-164 | a token is a candidate exactly when fewer than top_k tokens rank before it |
| Sampling.NucleusRanked | rust/src/laurelia/model.rs:184-184 | the second sort ranks the candidates by probability and loses none |
| Sampling.TakeNucleus | rust/src/laurelia/model.rs:185-193 | the loop keeps the candidates up to the first whose mass reaches top_p |
| Sampling.NucleusLength | rust/src/laurelia/model.rs:185-193 | no shorter prefix reaches top_p, and the kept one does unless it is all |
| Sampling.InNucleus | rust/src/laurelia/model.rs:183-199 | a kept token has mass below top_p before it, or none |
| Sampling.Multinomial | rust/src/laurelia/model.rs:202-217 | the cumulative loop and its fallback |
| Sampling.PickedIff | rust/src/laurelia/model.rs:202-217 | a draw below the kept mass picks the token into whose interval it falls; any other draw picks the most probable token |
| Sampling.SampleToken | rust/src/laurelia/model.rs:109-218 | the whole sampler as the composition of its steps |
| Sampling.SampleSupport | rust/src/laurelia/model.rs:109-218 | for every logit vector and draw the token returned has positive probability, fewer than top_k tokens rank before it, and what ranks before it does not reach top_p |
| Checksums.BuildTable | lib/services/webk/webapp/builder/js/descargas.js:55-65 | each entry of the generated table is its index after eight one-bit steps |
| Checksums.LookupIsSerial | lib/services/webk/webapp/builder/js/descargas.js:68-74 | one lookup and one XOR do what eight serial bits do |
| Checksums.ComputeCrc32 | lib/services/webk/webapp/builder/js/descargas.js:68-74 | the table-driven loop computes the bit-by-bit CRC of any bytes, a 32-bit word |
| Checksums.DamagedByteDetected | lib/services/webk/webapp/builder/js/descargas.js:68-74 | rewriting one byte of a message changes its CRC exactly when it changes the byte |
| ZipStore.Escribir | lib/services/webk/webapp/builder/js/descargas.js:85-96 | little-endian fields in order, cut to their width |
| ZipStore.EscribirArchivo | lib/services/webk/webapp/builder/js/descargas.js:99-134 | the local header with name and body, and the central entry |
| ZipStore.PegarCentral | lib/services/webk/webapp/builder/js/descargas.js:137-139 | appends the directory and counts its bytes |
| ZipStore.ZipArchivos | lib/services/webk/webapp/builder/js/descargas.js:77-155 | the running offset of each file is where its local header lies |
| ZipStore.HallarFin | lib/services/webk/webapp/builder/js/cargar.js:12-18 | the backward loop finds the last end signature it may look at |
| ZipStore.LeerZip | lib/services/webk/webapp/builder/js/cargar.js:6-55 | the loop over the central directory with its errors, `TextDecoder`, and the assignment to a plain object |
| ZipStore.EntryRoundTrip | lib/services/webk/webapp/builder/js/cargar.js:25-51 | one entry is recovered, decoded, from any buffer that holds it and its local part at the offset it names |
| ZipStore.EndOfZip | lib/services/webk/webapp/builder/js/cargar.js:12-21 | in a written archive the search stops at once, 22 bytes before the end |
| ZipStore.ReadsWhatWasWritten | lib/services/webk/webapp/builder/js/cargar.js:6-55 | reading a written archive gives the object that the decoded files make one by one, as many as the 16-bit count says, also with names that repeat |
| ZipStore.MapaOfDistinct | lib/services/webk/webapp/builder/js/descargas.js:99-134 | the map meant by files with distinct names has each body under its name and nothing else |
| ZipStore.ZipRoundTrip | lib/services/webk/webapp/builder/js/descargas.js:77-155 | for distinct names and parts within their fields, exactly the written map comes back if and only if there are fewer than 65536 files, none is named `__proto__`, and no name and no body begins with a byte order mark |
| ZipStore.ProtoIsLost | lib/services/webk/webapp/builder/js/cargar.js:23-50 | one file named `__proto__`: nothing comes back |
| ZipStore.MarkIsLost | lib/services/webk/webapp/builder/js/cargar.js:22-50 | one text that begins with a byte order mark: it comes back without |
| ZipStore.AllNumbersAreLost | lib/services/webk/webapp/builder/js/cargar.js:20-25 | 65536 empty files: nothing comes back |

## Left out

- UDP sockets, threads, channels, logging, DNS and the wall clock: packets, times and message orders are inputs.
- The bytes of bencode below dictionaries (`serde_bencode`), and UTF-8 validity of error texts.
- SHA-1, ed25519 and the token digest are arbitrary functions; the prefix of BEP 42 uses CRC32C bit by bit.
- `expected_dk` and the DHT size estimates are arbitrary functions: their formulas are floating point.
- Random ids, secrets and draws are inputs, and so is whether the number drawn for a peer is below its chance (floating
  point in the code); the order of hash map walks is too.
- The responses and errors a node sends to others are computed (`Servers`) but not recorded as sent.
- More than 2^32 requests in one run: ids would be used again; theorems about runs say so in their hypotheses.
- `Rpc` holds its table, socket, lookups, puts, cache and server as values, as Rust's ownership does; the classes of
  these parts are proved equal to the same value functions.
- A panic of `PutQuery::start` above 255 nodes is a flag of the node; theorems about the actor end there.
- PutQueries.EarlyRejectionIff: not for more than 255 replies of one code, where the 8-bit count of the tally overflows
  and its order is lost; a debug build panics there.
- PutQueries.FinalFailure: not for more than 255 replies of one code, for the same reason.
- ActorSafety.RunIsSafe: does not say that every caller is answered in the end, because stranded puts are not.
- PutProgress.SeqInFlightNeverDecreases: only while mutable puts alone address the target; see
  `PutProgress.OtherPutReplaces` for the others.
- Attentions.CausalRowSeesPrefix: over reals, with any positive function for `exp` and any `cos`, `sin` and projections;
  tensors are sequences of rows, and batches hold one sequence.
- Sampling.SampleSupport: over reals with a positive increasing `exp` and a positive temperature and penalty; NaN and
  rounding are not modelled.
- ZipStore.ZipRoundTrip: names and texts enter as the UTF-8 that `TextEncoder` makes of them, so lone surrogates, which
  it replaces, and bytes that are no UTF-8 are outside; `Blob` is the joined bytes.
- `KVCache::trim_prefix`, `keep_last` and `to_bootstrap`: easy members.
- The DOM part of the builder, and the Tor, iroh, nostr, pkarr, HuggingFace, torrent, needle, kem, gpu and platform
  modules: wrappers, plumbing or user interface.
