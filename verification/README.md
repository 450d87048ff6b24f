# InkCache, modelled and proved

InkCache is a cache node with a small cluster layer: primary and replicas, leader election
between replicas, and gateways that route keys to nodes over a consistent-hashing ring. This
project models those parts as Dafny and proves what they promise over every run.

The parts that change state in place are classes whose methods are proved equal to
specification functions; the main results are lemmas about those functions, over all
histories, interleavings and inputs.

| files | what they hold |
|---|---|
| `Election`, `Leadership`, `ElectionProtocol`, `ElectionSafety` | one voter's ballot; a node's role, election routes and campaign; the protocol between a fixed set of nodes over a lossy, reordering, duplicating network; what holds in every run |
| `CacheSpec`, `CacheStore` | the store's operations as functions on rows in recency order, and the class that does them in place |
| `CacheSweeps`, `CachePolicies`, `CacheRefinement` | sweeps are unobservable; where the policies coincide; the store against a plain TTL map |
| `CacheRecency`, `CacheAnswers` | order, hit counts and evictions told from the history of operations; what the operations answer, told by each other and the clock |
| `Snapshots`, `Replication` | restoring an export; a replica fed by a snapshot and forwarded writes |
| `StableSorting`, `HashRing` | the sort the ring relies on; the ring, its routing and history independence |
| `HealthChecks`, `Gateway`, `Gossip` | the router under late health checks; the gateway's node registry; gossip between gateways |
| `Metrics`, `RateLimit`, `Predictor` | accounting structures and their bounds |
| `Prelude`, `Sequences`, `OrderedMap` | shared types, filters and set sizes, and JavaScript's insertion-ordered map |

## How to read it

- Time is a parameter: one clock reading per operation, never going back within a run. The
  cache measures milliseconds and TTL seconds as exact reals, the rate limiter and the metrics
  as whole milliseconds.
- A `Map` is a sequence of pairs with unique keys. The store's rows, the limiter's buckets and
  the predictor's transitions are such maps, so insertion order is part of every result.
- `maxEntries` and the sample size are at least 1, which the environment parsing enforces; where
  it matters so is `virtualNodes`.
- The ring's hash is any function from strings to 32 bits. `Array.prototype.sort` is modelled
  as the stable sort it is specified to be; ties between nodes depend on it.
- The election assumes distinct ids, every node listing every other node exactly once, no
  restarts and no manual `/promote`. A campaign may start at any moment and may be counted with
  any of the answers that have arrived, which covers every schedule of the primary monitor and
  every timeout. Roles and primaries start out as they please.

## What the code does that its comments do not say

- `src/network/app.ts:463-468` says at most one primary can exist once the voters have weighed
  in on the current term, because a voter stops being primary the instant it votes. That is so
  for a node that is primary when it votes (`ElectionSafety.VoterSteppedDown`). But
  `src/network/server.ts:192` promotes a node on the outcome of its campaign without looking at
  its term again, so a node can vote for another in a newer term and only then be promoted on
  its old win. `ElectionSafety.LatePromotionHappens` is such a run, with two primaries;
  `ElectionSafety.StillServingIffLate` says that this is the only way it can happen.
- `src/network/election-client.ts:77-85` says a peer that missed an announcement will observe the
  higher term in the answer to its own vote request. `requestVoteFrom` reads only `voteGranted`:
  nothing but its own campaign, a vote request or an accepted announcement changes a node's
  ballot (`ElectionSafety.BallotNeedsCause`), and only an accepted announcement points it at a
  primary (`ElectionSafety.PrimaryNeedsAnnouncement`). `ElectionSafety.RefusedStaysBehind` is a run
  in which a refused candidate takes the answer and stays below the term it names.
- The rate limiter's bound is met exactly at one below twice the limit
  (`RateLimit.TwiceLimitIsReached`), and it holds for all histories of a set of clients exactly
  when the map has room for them all, unless limit or window are 0
  (`RateLimit.BoundHoldsExactly`).
- URL normalisation takes off one trailing slash, so it can change a URL twice, and the sending
  side of gossip does not normalise at all. Gateways of a connected graph always come to agree
  exactly when every URL is spelled one way or every link lies on a cycle of links
  (`Gossip.ConvergesExactly`); `Gossip.UnnormalisedStaysApart` is the smallest failure.

## Model

| member | source | states |
|---|---|---|
| `Election.MajorityIsMoreThanHalf` | src/core/election.ts:89-91 | the division by two never rounds: votes are a majority exactly when twice their number exceeds the nodes, so a tie is none |
| `Election.OneVotePerTerm` | src/core/election.ts:43-82 | in any sequence of startElection, observeTerm and requestVote calls, the vote of one term goes to at most one candidate |
| `Election.VoteCanBeRetried` | src/core/election.ts:56-82 | as long as a term lasts, its vote is granted again to the candidate that has it and to nobody else |
| `Election.ElectionState.StartElection` | src/core/election.ts:52-56 | next term, own vote |
| `Election.ElectionState.ObserveTerm` | src/core/election.ts:43-48 | a higher term is adopted with the vote given to the named candidate; any other changes nothing |
| `Election.ElectionState.RequestVote` | src/core/election.ts:67-81 | new ballot and answer for every term and candidate: stale refused, newer term resets the lock, repeat granted, rival refused |
| `Leadership.CacheNode.PromoteToPrimary` | src/network/app.ts:411-421 | a replica becomes primary, follows nobody and takes the replica list; a primary is left as it is and says so |
| `Leadership.CacheNode.OnRequestVote` | src/network/app.ts:469-486 | 400 with no change on a malformed body; otherwise the ballot's answer, and a primary that grants a newer term steps down |
| `Leadership.CacheNode.OnLeader` | src/network/app.ts:499-517 | 400 malformed, 409 with the current term when stale, otherwise the term is observed and the node becomes a replica of the announced primary with no replicas |
| `Leadership.Candidate.BeginCampaign` | src/network/server.ts:182-191 | does nothing while a campaign is in flight; otherwise starts an election and keeps its term |
| `Leadership.Candidate.FinishCampaign` | src/network/server.ts:192-207 | promotes exactly on a majority of granted votes, whatever the node's term is by now, and announces its campaign's term to every peer exactly when it was promoted |
| `ElectionProtocol.WinsWithMajority` | src/network/election-client.ts:61-75 | counting answers over a node's peers plus its own vote wins exactly when the supporters are more than half of all nodes |
| `ElectionProtocol.MajoritiesMeet` | src/core/election.ts:14-21 | two majorities of the same nodes share a node |
| `ElectionProtocol.RunInv` | src/network/app.ts:469-517 | in every run: votes ever held are single-assigned per voter and term, grants in flight are votes held, refusals name a term no older than the one asked for, announcements in flight are wins, campaigns are newer than their node's wins, every win has a majority of voters |
| `ElectionProtocol.AnnouncedIsSent` | src/network/election-client.ts:86-102 | what a node announces after its campaign is, message by message, what the protocol sends: one to every other node, naming itself |
| `ElectionProtocol.OneWinnerPerTerm` | src/core/election.ts:14-21 | in every run under loss, delay, duplication and reordering, no two different nodes win the same term |
| `ElectionSafety.AdoptedLeaderWon` | src/network/app.ts:499-517 | an accepted announcement names another node that won that term earlier in the run; the receiver is then its replica in that term |
| `ElectionSafety.AdoptedLeadersAgree` | src/network/app.ts:499-517 | announcements of one term accepted anywhere, at any time, name one node |
| `ElectionSafety.AdoptedTermsGrow` | src/network/app.ts:506-509 | the terms one node accepts announcements for never decrease |
| `ElectionSafety.SameTermSamePrimary` | src/network/app.ts:510-513 | at any moment, two nodes whose current primaries were announced in one term have the same PRIMARY_URL |
| `ElectionSafety.BallotNeedsCause` | src/network/election-client.ts:35-37 | in every run, a node's term and vote change only by its own campaign, a vote request it receives or an announcement it accepts, so never by the answer to its own request |
| `ElectionSafety.PrimaryNeedsAnnouncement` | src/network/app.ts:499-517 | in every run, a node that follows another primary than before has accepted an announcement since |
| `ElectionSafety.RefusedStaysBehind` | src/network/election-client.ts:35-37 | a run in which a candidate is refused, is told the newer term, takes the answer and ends its campaign in its old term |
| `ElectionSafety.AnnouncementIsFollowed` | src/network/app.ts:507-517 | in every run, an announcement reaching a node whose term is no newer, the winner's voters included, makes it a replica of the announced primary in that term with no replicas; a node in a newer term is left as it is |
| `ElectionSafety.VoteRequestIsAnswered` | src/network/app.ts:469-486 | in every run, a vote request is refused, naming the node's term, in an older term or when the vote is another's; else the vote is given and granted, and only a newer term makes a primary step down |
| `ElectionSafety.CampaignAsksEveryone` | src/network/election-client.ts:61-72 | in every run, a campaign takes the node into its next term with its own vote and sends exactly one request to every other node |
| `ElectionSafety.CampaignEnds` | src/network/server.ts:192-207 | in every run, the end of a campaign makes a replica with more than half of all nodes behind it primary over all others and announces it to exactly them in the campaign's term; any other end changes and sends nothing |
| `ElectionSafety.GrantIsCounted` | src/network/election-client.ts:68-72 | in every run, a grant counts for the campaign whose term it names and for no other |
| `ElectionSafety.OneServerPerTerm` | src/network/server.ts:192-197 | at any moment, at most one node is primary on the win of a given term |
| `ElectionSafety.LeavesOnNewerTerm` | src/network/app.ts:469-517 | an elected primary leaves the role only on a vote request or announcement of a term strictly above the one it won |
| `ElectionSafety.NeverServesAgain` | src/network/server.ts:182-207 | a win once left is never served again, whatever arrives later |
| `ElectionSafety.VoterSteppedDown` | src/network/app.ts:449-484 | a primary that grants a newer term never serves its win again |
| `ElectionSafety.StillServingIffLate` | src/network/server.ts:192-192 | a node still serving a win has had its vote of a newer term held by another node if and only if its term had already passed that win when it was promoted |
| `ElectionSafety.CountedPeersStepDown` | src/network/app.ts:449-468 | when a node wins a term, none of the peers whose grants it counts is serving an older win, unless that peer was promoted late |
| `ElectionSafety.LatePromotionHappens` | src/network/server.ts:192-197 | a run of two nodes that ends with both primary, one of them after voting for the other in a newer term |
| `CacheSpec.RoomIsMade` | src/core/cache.ts:72-74 | making room keeps keys unique, leaves the size below maxEntries and invents no row, under every policy |
| `CacheSpec.ApplyFits` | src/core/cache.ts:65-246 | every operation keeps keys unique and the size at most maxEntries |
| `CacheSpec.RunFits` | src/core/cache.ts:65-246 | so does every run |
| `CacheSpec.Coldest` | src/core/cache.ts:301-336 | the first of the least-read rows among those looked at |
| `CacheStore.CacheStore.Set` | src/core/cache.ts:65-76 | deletes, makes room at a second reading of the clock, appends with zero hits and the deadline of a positive TTL counted from the first |
| `CacheStore.CacheStore.Get` | src/core/cache.ts:78-93 | value or miss; a hit moves to the back with one more hit, an expired row goes |
| `CacheStore.CacheStore.GetWithTtl` | src/core/cache.ts:100-115 | the same with the TTL remaining at a second reading of the clock |
| `CacheStore.CacheStore.Delete` | src/core/cache.ts:117-119 | removes the key and says whether a row was there, live or not |
| `CacheStore.CacheStore.DeleteByPrefix` | src/core/cache.ts:127-136 | deleting while iterating removes exactly the rows under the prefix and counts them |
| `CacheStore.CacheStore.Contains` | src/core/cache.ts:138-146 | live or not, without touching order or hits; an expired row goes |
| `CacheStore.CacheStore.Ttl` | src/core/cache.ts:149-159 | the remaining TTL without touching order or hits |
| `CacheStore.CacheStore.AccessCount` | src/core/cache.ts:162-166 | the hits of a live key, changing nothing |
| `CacheStore.CacheStore.ListKeys` | src/core/cache.ts:172-183 | live keys in recency order; exactly the expired rows go |
| `CacheStore.CacheStore.DetailedKeys` | src/core/cache.ts:187-203 | live keys with hits and remaining TTL; exactly the expired rows go |
| `CacheStore.CacheStore.ExportEntries` | src/core/cache.ts:211-226 | live rows in recency order without hits; exactly the expired rows go |
| `CacheStore.CacheStore.Clear` | src/core/cache.ts:232-234 | no rows; the eviction count stays |
| `CacheStore.CacheStore.Sweep` | src/core/cache.ts:237-246 | deleting while iterating removes exactly the expired rows and counts them |
| `CacheStore.CacheStore.EvictOne` | src/core/cache.ts:278-287 | if anything is expired only that goes and nothing is counted; otherwise the policy's victim goes, is counted and reported |
| `CacheStore.CacheStore.EvictLeastAccessed` | src/core/cache.ts:301-314 | the sampling loop finds the first of the least-read among the oldest sample |
| `CacheStore.CacheStore.EvictLFU` | src/core/cache.ts:326-336 | the scan finds the first of the least-read of all |
| `CacheSweeps.SweepTimingUnobservable` | src/core/cache.ts:237-287 | two runs that differ only in their sweeps give the same answers to get, getWithTtl, has, ttl, accessCount, keys, detailedKeys, exportEntries and evictions throughout, evict the same keys in order and end with the same live rows, under all three policies |
| `CacheSweeps.AlikeStep` | src/core/cache.ts:65-287 | stores that differ only in expired rows stay so under every operation and answer alike |
| `CachePolicies.SampleOneIsLru` | src/core/cache.ts:278-314 | on every run, access-aware with sample size 1 keeps the same state as lru |
| `CachePolicies.SampleAllIsLfu` | src/core/cache.ts:278-336 | on every run, access-aware with sample size at least maxEntries keeps the same state as lfu |
| `CachePolicies.WithoutReadsPoliciesAgree` | src/core/cache.ts:278-342 | on every run without get and getWithTtl, all policies keep the same rows, order, hits, deadlines and evictions |
| `CacheRefinement.StepBound` | src/core/cache.ts:65-246 | every operation acts on the live binding of every key as on a plain map, except that evicted keys are gone |
| `CacheRefinement.ReadsRefineTable` | src/core/cache.ts:65-166 | after every run reads answer from the plain TTL map, except that a key evicted since it was last written is a miss |
| `CacheRefinement.EvictionIsLastResort` | src/core/cache.ts:278-287 | an operation evicts only when it sets a new key in a store full of live rows, and then only the policy's victim |
| `CacheRefinement.FewKeysReadsExact` | src/core/cache.ts:65-136 | with at most maxEntries distinct keys written, reads agree with the plain map exactly |
| `CacheRecency.RunTruthful` | src/core/cache.ts:65-115 | after every run from empty, each row holds its key's last write, has counted exactly the reads that found it live since, and the rows stand in the order of last set or hit |
| `CacheRecency.HitsCountReads` | src/core/cache.ts:78-166 | the access count of a live key is the number of get and getWithTtl events that found it live in the plain table since it was last set |
| `CacheRecency.KeysListedByLastUse` | src/core/cache.ts:172-183 | keys are listed in the order of their last set or hit |
| `CacheRecency.VictimOfPolicy` | src/core/cache.ts:290-336 | lru gives up the first row, lfu the first least-read of all, access-aware the first least-read of exactly the min(sampleSize, n) at the cold end |
| `CacheRecency.EvictedByHistory` | src/core/cache.ts:278-342 | told from the history alone, after every run: among the keys used longest ago, one for lru, as many as sampled for access-aware, all for lfu, the key evicted is the one read least since it was set and, among equals, used longest ago |
| `CacheAnswers.KeysAreLiveKeys` | src/core/cache.ts:138-183 | keys lists exactly the keys that has finds live, each once |
| `CacheAnswers.DetailsAgree` | src/core/cache.ts:149-226 | detailedKeys and exportEntries list the same keys in the same order, with the hits, TTL and value that accessCount, ttl and get answer for each |
| `CacheAnswers.RemovalsCounted` | src/core/cache.ts:117-246 | what delete, deleteByPrefix and sweep say they removed is how much smaller the store is |
| `CacheAnswers.DeletedKeysAreGone` | src/core/cache.ts:117-136 | a delete makes exactly its key a miss, deleteByPrefix exactly the keys that begin with the prefix |
| `CacheAnswers.TtlCountsDown` | src/core/cache.ts:65-69 | a key set with a positive TTL is live for exactly that many seconds and its TTL counts down; one set without stays |
| `CacheAnswers.ExpiredRowsGo` | src/core/cache.ts:78-246 | a read of a key that is not live leaves no row of it; a sweep and every listing leave nothing expired |
| `CacheAnswers.FullSetSweeps` | src/core/cache.ts:72-74 | a set that finds the store full leaves nothing expired |
| `Snapshots.LoadKeepsLast` | src/network/persistence.ts:58-77 | loading distinct rows into an empty store keeps the last that fit, in order, evicting the others oldest first, under every policy |
| `Snapshots.SnapshotRoundTrip` | src/core/cache.ts:211-226 | exporting at one time and loading at another keeps exactly the most recent rows that fit, in recency order, with the same values, the time each had left, and no hits |
| `Snapshots.SnapshotSameInstant` | src/network/persistence.ts:22-77 | at one instant, exporting what was loaded gives back the tail of what was exported, TTLs included: no key with a deadline becomes permanent |
| `CacheStore.LoadSnapshot` | src/network/persistence.ts:58-77 | the loop skips malformed rows, sets the others in order, each at its own reading of the clock, and counts them |
| `CacheStore.LoadAtOnce` | src/network/persistence.ts:58-77 | at one instant the loop is the loading of just the well-formed rows |
| `CacheStore.ApplyReplicationOp` | src/network/replication.ts:60-75 | a forwarded write acts as the same operation on the store; anything else is ignored |
| `Replication.SnapshotCovers` | src/network/replication.ts:95-105 | a snapshot on its way to an empty replica covers every key live on the primary |
| `Replication.RunCovered` | src/network/app.ts:276-336 | once covered, and as long as the replica evicts nothing, every key live on the primary is live on the replica, or will be when it has applied what is queued, with the same value and at least as long to live |
| `Replication.CaughtUpReplicaAgrees` | src/network/replication.ts:60-105 | whenever a replica that started empty has caught up without evicting, every key live on the primary reads the same there, whatever reads, sweeps and delays there were |
| `Replication.CaughtUpReplicaHoldsNoMore` | src/network/replication.ts:60-105 | and without evictions on the primary either, every key live on such a replica has the value the primary's clients last wrote, a deadline if and only if that has one and at most as much later as the run has lasted, and is missing on the primary if and only if it has expired there |
| `Replication.ExpiredKeysGo` | src/network/app.ts:276-285 | once a replica has caught up and nothing more is written, a key written with a TTL is gone from it as soon as its deadline is passed by the time the catching up took |
| `StableSorting.SortFilter` | src/core/hashring.ts:52-62 | sorting and filtering commute, ties included |
| `StableSorting.StableSortUnique` | src/core/hashring.ts:52-52 | a sorted sequence that holds the same points in the same order at each hash is the stable sort |
| `ConsistentHashing.RingHoldsMembersPoints` | src/core/hashring.ts:46-63 | after every history of adds and removes the ring is sorted and holds exactly virtualNodes points of each member and none of anyone else |
| `ConsistentHashing.OwnerIsMember` | src/core/hashring.ts:70-81 | a ring with members sends every position to a member, an empty one nowhere |
| `ConsistentHashing.OwnerIsNearest` | src/core/hashring.ts:70-81 | a key belongs to the point at the least clockwise distance on the 32-bit circle, the first of those if several |
| `ConsistentHashing.MembersFollowHistory` | src/core/hashring.ts:46-63 | a node is a member exactly when the last change that names it is an add |
| `ConsistentHashing.LabelsDiffer` | src/core/hashring.ts:50-50 | no two virtual points, of one node or of two, hash the same label |
| `ConsistentHashing.InjectiveHashSpreads` | src/core/hashring.ts:49-51 | a hash that keeps the members' labels apart makes them collision-free, each with virtualNodes different positions |
| `ConsistentHashing.RemovalIsMinimal` | src/core/hashring.ts:55-63 | removing a node leaves every position it did not own with its owner, on any ring, ties included |
| `ConsistentHashing.AdditionIsMinimal` | src/core/hashring.ts:46-53 | adding a node leaves an owner alone or makes the new node the owner, ties included |
| `ConsistentHashing.AddThenRemove` | src/core/hashring.ts:46-63 | adding an absent node and removing it restores the exact ring, collisions or not |
| `ConsistentHashing.SameMembersSameRing` | src/core/hashring.ts:46-63 | without collisions, any two histories ending in the same members give the same ring |
| `ConsistentHashing.RoutingHistoryIndependence` | src/core/hashring.ts:46-81 | routing depends on the member set alone if and only if no two members' virtual points collide |
| `ConsistentHashing.HashRing.constructor` | src/core/hashring.ts:38-41 | the ring of adding the given nodes in order |
| `ConsistentHashing.HashRing.Add` | src/core/hashring.ts:46-53 | pushes the new node's points and re-sorts; nothing if it is a member |
| `ConsistentHashing.HashRing.Remove` | src/core/hashring.ts:59-63 | filters the node's points out; nothing if it is no member |
| `ConsistentHashing.HashRing.Search` | src/core/hashring.ts:73-79 | binary search finds the first point at or past the hash, or the end |
| `ConsistentHashing.HashRing.GetNode` | src/core/hashring.ts:70-81 | the clockwise successor's node with wrap-around, nothing on an empty ring |
| `HealthChecks.RunAgrees` | src/network/health-check.ts:81-121 | after any interleaving of registrations, removals, re-registrations and late pings the ring is that of exactly the known nodes marked healthy |
| `HealthChecks.KeysGoToHealthyNodes` | src/network/health-check.ts:81-121 | after any interleaving every key goes to a known healthy node, or nowhere when there is none |
| `HealthChecks.GoneStaysGone` | src/network/health-check.ts:86-90 | a late ping never brings back a node that is no longer known, in the map, the ring or its points |
| `HealthChecks.MarkIsLastAnswer` | src/network/health-check.ts:81-121 | after every run a node is known as registrations and removals say, and marked with the answer of the last ping since it became known, or healthy if there was none |
| `HealthChecks.RoutedIffLastAnswered` | src/network/health-check.ts:86-101 | after every run a node is on the ring, with all its points, exactly when that mark is healthy; one whose last answer was a failure owns no key |
| `HealthChecks.SameHealthSameRoutes` | src/network/cluster.ts:33-61 | two gateways with the same healthy nodes route every key alike, whatever each went through, unless two of those nodes collide |
| `HealthChecks.ClusterRouter.NodeFor` | src/network/cluster.ts:42-44 | the owner of the key's hash |
| `HealthChecks.ClusterRouter.AddNode` | src/network/cluster.ts:46-48 | the ring with the node added |
| `HealthChecks.ClusterRouter.RemoveNode` | src/network/cluster.ts:50-52 | the ring with the node removed |
| `HealthChecks.HealthChecker.AddNode` | src/network/health-check.ts:111-115 | an unknown node becomes known, healthy and routed to; map and ring stay in agreement |
| `HealthChecks.HealthChecker.RemoveNode` | src/network/health-check.ts:116-120 | a known node leaves map and ring; they stay in agreement |
| `HealthChecks.HealthChecker.OnPing` | src/network/health-check.ts:86-101 | an answer counts only for a node still known whose mark it changes; map and ring stay in agreement |
| `Gateway.GatewayNode.Register` | src/network/gateway.ts:161-178 | 400 for no URL, 409 if the normalised URL is known, otherwise exactly that URL becomes known, assumed healthy, and the answer counts the nodes routed to |
| `Gateway.GatewayNode.Deregister` | src/network/gateway.ts:185-196 | 400 for no URL, otherwise exactly the normalised URL is forgotten and the answer counts the nodes routed to |
| `Gateway.GatewayNode.Sync` | src/network/gateway.ts:212-229 | 400 with no change unless given strings only; otherwise exactly the normalised URLs are learned, known marks are kept, and the answer is everything known |
| `Gateway.GatewayNode.OnReceiveNodes` | src/network/gateway-server.ts:58-60 | a peer's answer is merged as it stands, known marks are kept |
| `Gossip.KnownIsSeededOrRegistered` | src/network/gateway-sync.ts:28-56 | with messages lost, delayed, repeated and reordered, known sets only grow and stay within any set that holds the seeds, the registrations and what normalising makes of its members |
| `Gossip.MessagesTeach` | src/network/gateway.ts:161-229 | a handled request teaches its URLs normalised and is answered with everything known then, a handled answer teaches its URLs as they stand, a registration its URL normalised |
| `Gossip.ExchangeIsRoundTrip` | src/network/gateway-sync.ts:28-56 | a request sent and handled and its answer handled is one full exchange |
| `Gossip.NormalizeMeans` | src/network/gateway.ts:166-166 | normalising takes off surrounding white space and then one trailing slash and no more |
| `Gossip.SpellingsMeet` | src/network/gateway.ts:166-166 | spellings that differ only in surrounding white space or in one trailing slash normalise alike |
| `Gossip.LearningLowersDeficit` | src/network/gateway.ts:212-229 | every step that teaches a gateway anything strictly lowers the number of URLs of such a set still to be learned |
| `Gossip.QuietLink` | src/network/gateway-sync.ts:28-56 | an exchange that changes nothing means the sender knows all the answerer does, and the answerer the normalised spelling of all the sender does |
| `Gossip.QuietMeansEqual` | src/network/gateway-sync.ts:67-80 | when a full exchange on every link changes nothing, all gateways of a connected graph know the same set, if URLs are spelled one way or every link lies on a cycle |
| `Gossip.GossipConverges` | src/network/gateway-sync.ts:67-80 | from any start, under that condition, after as many rounds as there are URLs to be learned all gateways of a connected graph know the same set and nothing is forgotten |
| `Gossip.GossipReachesUnion` | src/network/gateway-sync.ts:67-80 | with normalised URLs that set is exactly what anyone knew |
| `Gossip.DividedForever` | src/network/gateway.ts:219-219 | for any URL that normalising changes and any link with no way back there is a state no exchange changes in which the gateways disagree |
| `Gossip.QuietAgreesExactly` | src/network/gateway-sync.ts:28-80 | gateways of a connected graph with nothing more to tell each other agree in every state if and only if URLs are spelled one way or every link lies on a cycle of links |
| `Gossip.ConvergesExactly` | src/network/gateway-sync.ts:67-80 | rounds of gossip reach agreement from every start if and only if the same condition holds |
| `Gossip.UnnormalisedStaysApart` | src/network/gateway.ts:219-219 | a witness: two gateways of which one lists the other, and one URL with a slash |
| `Metrics.AmortisedCost` | src/core/metrics.ts:69-84 | over any n records, on any clock, head moves are the elements discarded, so at most n, copies are at most the moves, and the array is at most live + max(256, live) long |
| `Metrics.QueueKeepsRecent` | src/core/metrics.ts:69-84 | what is kept is the tail of the whole history and everything thrown away is older than the window |
| `Metrics.QueueIsWindow` | src/core/metrics.ts:69-84 | under a clock that never goes back the queue holds exactly the operations of the last window |
| `Metrics.MetricsCollector.Record` | src/core/metrics.ts:54-85 | counters, latest latencies with their exact sum, and the timestamp queue with its cost bound, after one more operation |
| `Metrics.MetricsCollector.RecordTime` | src/core/metrics.ts:69-84 | the pruning loop and the compaction, with their head moves and copied elements counted |
| `Metrics.MetricsCollector.RecentCount` | src/core/metrics.ts:112-121 | the count found by binary search in the pruned array is the number of operations in the full history at or after the cutoff |
| `Metrics.SampleTracks` | src/core/metrics.ts:59-67 | the ring buffer read from its index is exactly the latest samples, and the running sum is theirs |
| `Metrics.LatestAre` | src/core/metrics.ts:59-67 | the latest samples are the end of the history, as much of it as the capacity allows |
| `Metrics.PercentileIsNearestRank` | src/core/metrics.ts:95-105 | at least 95% of the samples are at or below the value picked and fewer than 95% strictly below |
| `Metrics.PercentileOfLatest` | src/core/metrics.ts:95-105 | the value picked from the ring buffer is the 95th percentile of the latest samples, wherever the ring starts |
| `Metrics.MetricsCollector.Latency` | src/core/metrics.ts:95-105 | the exact mean and the nearest-rank 95th percentile of the latest samples, nothing without samples |
| `RateLimit.AtMostTwiceLimit` | src/network/rate-limit.ts:41-63 | with clients the map has room for, at most 2 * limit - 1 requests of a client are accepted in any half-open interval of a window's length, none if the limit is 0 |
| `RateLimit.TwiceLimitIsReached` | src/network/rate-limit.ts:41-63 | for every limit of at least 1 and window of at least 2 ms there is a history that reaches that bound |
| `RateLimit.RefusedIffWindowFull` | src/network/rate-limit.ts:47-61 | with clients the map has room for, a request is refused if and only if it is more than the limit-th of its client since the window it falls into opened |
| `RateLimit.PoliteClientNeverRefused` | src/network/rate-limit.ts:41-63 | a client with at most `limit` requests in every interval of a window's length is never refused, however many clients there are |
| `RateLimit.RetryAfterIsEnough` | src/network/rate-limit.ts:41-63 | with a limit of at least 1, a refused client's first request after waiting Retry-After seconds is accepted, however many clients there are |
| `RateLimit.RetryAfterIsTight` | src/network/rate-limit.ts:58-58 | Retry-After is the time to the end of the window in seconds, rounded up by less than one |
| `RateLimit.RefusedUntilWindowEnds` | src/network/rate-limit.ts:47-61 | with clients the map has room for, a refused client is refused until its window ends |
| `RateLimit.MapIsBounded` | src/network/rate-limit.ts:48-51 | after every history the map holds at most max(1, maxTrackedClients) clients |
| `RateLimit.OnlyOldestForgotten` | src/network/rate-limit.ts:48-51 | a request makes the map forget another client if and only if it comes from an unknown one, the map is full and that client is the one tracked longest |
| `RateLimit.ForgottenClientExceedsLimit` | src/network/rate-limit.ts:48-51 | whatever the positive limit and window, any set of clients the map has no room for has a history in which one of them is accepted 2 * limit times in one instant |
| `RateLimit.BoundHoldsExactly` | src/network/rate-limit.ts:41-63 | the bound holds for all histories of a set of clients if and only if the limit or the window is 0 or the clients are at most max(1, maxTrackedClients) |
| `RateLimit.RateLimiter.Handle` | src/network/rate-limit.ts:41-63 | /health passes uncounted; any other request gets the verdict and leaves the buckets of the specification |
| `Predictor.RunGood` | src/core/access-predictor.ts:59-94 | after any stream at most maxTrackedKeys keys (one if that is 0) and maxCandidatesPerKey candidates each are stored, every count at least 1 |
| `Predictor.NeverOvercounts` | src/core/access-predictor.ts:59-94 | a stored count never exceeds how often the pair occurred in the stream |
| `Predictor.CountsAreExact` | src/core/access-predictor.ts:59-94 | while the stream stays within both bounds, every stored count is the true bigram count |
| `Predictor.OnlyOldestForgotten` | src/core/access-predictor.ts:64-77 | a transition makes the predictor forget another source if and only if it comes from a new one, the map is full and that source is the one tracked longest |
| `Predictor.CapDropsFirstSingle` | src/core/access-predictor.ts:80-93 | what the cap drops is the first candidate, in the order first seen, that was seen only once, and nothing else |
| `Predictor.CapDropsSingles` | src/core/access-predictor.ts:80-93 | the candidate the cap drops has count 1 |
| `Predictor.TwiceSeenSurvives` | src/core/access-predictor.ts:79-93 | a pair with count 2 or more keeps at least that count for as long as its source key stays tracked |
| `Predictor.CountsAddUp` | src/core/access-predictor.ts:59-94 | the counts of a tracked key are the positions of the stream that leave it for another key since it was last put into the map, less one for each candidate whose count was lost |
| `Predictor.ByCountStable` | src/core/access-predictor.ts:104-105 | equal counts keep their insertion order |
| `Predictor.PredictRanks` | src/core/access-predictor.ts:100-108 | a prediction lists real candidates in descending order, as many as asked for and there are, and leaves out nothing seen more often than anything listed |
| `Predictor.PredictShares` | src/core/access-predictor.ts:103-107 | each probability is the candidate's count over the counts of all candidates of the key, listed or not |
| `Predictor.PredictProbabilities` | src/core/access-predictor.ts:103-107 | its probabilities add up to at most 1, and to 1 when every candidate is listed |
| `Predictor.AccessPredictor.Record` | src/core/access-predictor.ts:59-94 | one step of the specification, eviction of the oldest source and the scan for the rarest candidate included |
| `Predictor.AccessPredictor.Predict` | src/core/access-predictor.ts:100-108 | the specified prediction, with the total summed by a loop |

## Left out

- CacheStore.CacheStore.Set: the sweep that makes room reads the clock once, where the source reads it again for each row; so do `Sweep` and `EvictOne`. The lemmas about runs take one reading per operation.
- CacheStore.CacheStore.GetWithTtl: both readings are in its contract, but the lemmas about runs take one reading per operation.
- CacheStore.LoadSnapshot: each row's `set` reads the clock once, and a missing, unreadable or malformed file is not modelled.
- Floating point: TTLs, averages, probabilities and the percentile rank are exact.
- Metrics.MetricsCollector.Latency: does not round the average to two decimals.
- RateLimit.RefusedIffWindowFull: with more clients than the map holds only one direction is left, that a refused client has made more than `limit` requests within its window.
- Metrics.MetricsCollector.RecentCount: needs timestamps that never go back, as the binary search does.
- Replication.RunCovered: a replica that evicts may lack keys.
- Replication.ExpiredKeysGo: the bound is the time since the snapshot, not the delay of the one message.
- Replication.CaughtUpReplicaAgrees: both sides read one clock, messages are applied once and in order, and nothing is claimed for a replica that evicts or that re-syncs without being empty; HTTP promises none of this.
- `/restore` is not forwarded to replicas by the code, so it is not one of the primary's writes here.
- `validateEntry`, the length limit on prefixes and the 409 of a replica refusing a client's write are not modelled as replies; the replica's refusal is modelled as no change.
- The TTL of a persisted row is a number or absent; the code does not check its type either.
- ElectionProtocol.OneWinnerPerTerm: no restarts (terms and votes are not persisted), no manual `/promote`, distinct ids (without `INKCACHE_SELF_URL` and `INKCACHE_NODE_ID` every node is `node-1`), and a fixed voter set in which everyone lists everyone.
- "At most one primary at any moment" is not a property of this code; see above. An original primary that is no voter is not covered by any election.
- The primary monitor and its thresholds: a campaign may start at any time instead.
- Numbers beyond what JavaScript represents exactly: terms, times and counts are unbounded.
- MD5 and how evenly it spreads keys; the hash is arbitrary.
- Gossip.GossipConverges: no deregistration, since a removed node comes back from a peer that still knows it.
- The fallback in which a gateway without a checker receives a peer's list: the server always attaches one.
- URL list parsing (`resolveClusterNodes`, `resolveReplicaUrls`), environment parsing, authentication, CORS, HTTP proxying, timers, file writes and renames, logging, the dashboard and the benchmarks.
- The metrics history, uptime and hit rate, and the predictor's size: simple counters.
