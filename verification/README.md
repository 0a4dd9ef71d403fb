# Verified model of the DMQTT broker

DMQTT is an MQTT 3.1.1 and 5.0 broker in Go whose nodes form a gossip cluster. This
project models its stateful core in Dafny and proves what that core is for:

- **Wire codec** (`WireFormat`, `PropertyCodec`, `PacketCodec`, `PeerFrames`): variable-length
  integers, fixed header, MQTT 5 properties, PUBLISH and acknowledgement packets, packet
  framing, and the length-prefixed frames between nodes.
- **Offline queue and its persistent mirror** (`OfflineQueue`, `OfflineStorage`, `OfflineCalls`,
  `OfflineRestart`, `OfflineSlash`, `OfflineCrash`, `OfflineStamps`, `OfflineStoreClass`, over
  `Storage`): per-client priority queues with expiry and eviction, rewritten into an ordered
  key-value store on every change, under concurrent callers, restarts and crashes.
- **QoS machinery** (`Dedup`, `Delivery`): the QoS 2 gate, the wrapping packet-id allocator and
  the bounded in-flight table.
- **Two-way indexes** (`Subscriptions`, `RemoteSubs`, `BestMatch`, `Ownership`): each keeps a map
  and its inverse in step and refines a plain relation.
- **Cluster protocols** (`Forwarding`, `Routing`, `Gossip`, `Takeover`, `Migration`,
  `MigrationExecutor`): reliable forwarding with acknowledgements and retries, one-hop routing,
  subscription gossip, last-writer-wins session takeover, and batched shard migration.
- **Topic matching, tenant rewriting and the circuit breaker** (`Topics`, `Tenants`, `Breaker`).

Go strings and byte slices are sequences of bytes. Instants are integers handed in by the
caller, 0 being Go's zero time. A lock makes each method one atomic step; a run is a list of
steps, and run theorems quantify over all of them. Objects that the source mutates are classes
whose methods are proved equal to a step function; the theorems are about that function.
A name such as `Fits`, `Plain` or `Sound` marks the exact condition of a theorem: it can be
evaluated before the call and the theorem says "if and only if".

Where the code does less than its documentation or names suggest, the model follows the code:

- Every PUBLISH is decoded as protocol version 4, so a version 5 property block ends up at the
  front of the payload (`PacketCodec.Version5ReadAs4`).
- A client id containing `/` is accepted, but after a restart its queued messages are delivered
  to the client named by the part before the first `/`, and every rewrite of that client's queue
  deletes them (`OfflineSlash.DeliveredToOwner`, `OfflineSlash.OwnerErases`).
- A process killed inside a rewrite can lose a client's whole queue, old and new
  (`OfflineCrash.CrashLosesAll`).
- A negative retry limit makes both SendReliable and a migration report success without sending
  anything, and a migration then deletes the source data (`Forwarding.NegativeRetries`,
  `Migration.AcknowledgesFirstExactly`).
- The stale-waiter sweep, and a migration acknowledgement whose hashed key equals a message id,
  close a waiter exactly as its own acknowledgement does (`Forwarding.SweptWaiter`,
  `Forwarding.CollidingKey`).
- An unsubscription, or a disconnect that ends a session, is broadcast even if another local
  client keeps the filter; a lower grant replaces the queued announcement of a higher one;
  restored subscriptions are never announced; a late withdrawal removes a renewed entry
  (`Gossip.LeavingTakesOthers`, `Gossip.LowerReplacesHigher`, `Gossip.RestoredUnheard`,
  `Gossip.OvertakenWithdrawal`).
- Two connections of one client id can both pass the QoS 2 gate with the same packet
  (`Dedup.BothPass`).
- Peeking at a queue longer than the limit, or stamped under another configuration, changes it
  (`OfflineQueue.PeekConserves`), and a publish between its drain and its refill can cost a
  drained message its place (`OfflineCalls.PublishDisplaces`).
- A message published for a device while its migration is awaited is deleted unsent, at any
  retry limit (`Migration.PublishWhileSending`).
- A message delivered from the offline queue keeps its tenant's prefix, and retained messages are
  stored and matched without any prefix, so all tenants share them (`Tenants.DeliveryRestores`,
  `Tenants.RetainedShared`).
- A migrated message loses its priority, creation and expiry times
  (`Migration.ImportRestoresExactly`).
- The default tenant's empty prefix lets it see every other tenant
  (`Tenants.DefaultTenantSees`).
- The circuit breaker's configured window is never looked at: counters run since the breaker last
  opened, closed or was reset (`Breaker.CountersExact`, `Breaker.WindowIgnored`,
  `Breaker.SpreadFailuresTrip`).

## Model

| member | source | states |
|---|---|---|
| `Storage.PrefixScanExact` | internal/storage/pebble.go:85-97 | for every prefix and key, being between the prefix and its upper bound is the same as starting with the prefix, carries over 0xFF, all-0xFF and empty prefixes included |
| `Storage.PrefixUpperBound` | internal/storage/pebble.go:85-97 | the backward carry loop returns a bound that encloses exactly the keys with the prefix |
| `Storage.PebbleStore.Scan` | internal/storage/pebble.go:55-79 | a scan visits every stored key with the prefix, no other, once each and in key order |
| `Storage.ListsUnique` | internal/storage/pebble.go:55-79 | a set of keys has only one listing in key order, so a scan's result is determined by the contents |
| `OfflineQueue.LiveLater` | internal/broker/offline.go:116-124 | dropping expired messages early never changes what is live later |
| `OfflineQueue.StampIdempotent` | internal/broker/offline.go:126-142 | queueing a message again does not extend its life |
| `OfflineQueue.VictimExact` | internal/broker/offline.go:150-170 | the two eviction loops find the first of the least important messages no more important than the newcomer, and find nothing exactly if there is none |
| `OfflineQueue.BoundedEviction` | internal/broker/offline.go:109-180 | for every configuration, queue and priority: the limit is kept, rejection happens exactly if full and nothing is evictable, and an accepting full queue loses exactly one message, the first of the least important, with all other order kept |
| `OfflineQueue.RejectedIffLeastImportant` | internal/broker/offline.go:144-175 | with priorities 0 to 2 a full tiered queue rejects exactly the messages less important than everything live |
| `OfflineQueue.StableSortCorrect` | internal/broker/offline.go:200-205 | sorting by priority and creation time is sorted, a permutation, and keeps the order of equals |
| `OfflineQueue.StableSortUnique` | internal/broker/offline.go:200-205 | only one list is sorted and stable, so any correct stable sort gives the modelled result |
| `OfflineQueue.DrainConserves` | internal/broker/offline.go:182-221 | what Dequeue hands out followed by what stays is the stable order of exactly the live messages, as many as asked for |
| `OfflineQueue.PeekConserves` | internal/broker/broker.go:588-603 | for every queue, peeking returns all live messages, and leaves the same multiset queued if and only if they fit the limit and this configuration would not stamp one anew |
| `OfflineStorage.ClientOfMatchesPrefix` | internal/broker/offline.go:85-91 | for ids without '/', parsing a key's client and scanning the client's prefix select the same keys |
| `OfflineStorage.KeyRoundTrip` | internal/broker/offline.go:85-98 | a message key is loaded for the client that wrote it if and only if the id has no '/' |
| `OfflineStorage.KeyListAscending` | internal/broker/offline.go:230-254 | twenty-digit zero-padded keys sort in number order for every Go int |
| `OfflineStorage.RewriteStores` | internal/broker/offline.go:256-291 | clearing and rewriting a client's keys stores exactly its queue, in order, whatever the store held |
| `OfflineStorage.RewriteFrame` | internal/broker/offline.go:256-291 | rewriting one client leaves every other client's stored queue unchanged |
| `OfflineStorage.LoadReadsStored` | internal/broker/offline.go:85-100 | loading gives each client exactly the messages under its prefix in key order |
| `OfflineRestart.RunAgrees` | internal/broker/offline.go:66-291 | after any run with restarts anywhere, the persistent store's memory, its database and a never-restarted in-memory store have the same live messages from now on |
| `OfflineRestart.RestartTransparent` | internal/broker/offline.go:66-101 | for ids without '/', restarts inserted anywhere in a run, into whatever configuration, never change the answer of any Enqueue or Dequeue |
| `OfflineRestart.StoreMirrorsQueue` | internal/broker/offline.go:230-291 | in every reachable state the stored messages in key order have the queue's live messages at every later time |
| `OfflineSlash.TransparentExactly` | internal/broker/offline.go:66-291 | for every set of client ids and of configurations, the process changing configuration at any event: no run can tell whether it was restarted, if and only if no configuration lets anything be queued or no id contains '/' |
| `OfflineSlash.SurvivesRestartIffPlain` | internal/broker/offline.go:66-101 | the witness: a queued message comes back to its own client after a restart if and only if the id has no '/' |
| `OfflineSlash.DeliveredToOwner` | internal/broker/offline.go:85-98 | after a restart a message queued for an id with '/' is delivered to the client named by the part before it |
| `OfflineSlash.OwnerErases` | internal/broker/offline.go:256-291 | every rewrite of that client's queue deletes what the id with '/' stored |
| `OfflineCrash.CrashExactly` | internal/broker/offline.go:256-291 | after a crash at any operation of a rewrite a restart finds a tail of the old queue or a front of the new one; it is the new one if and only if that tail is it or all its messages were written |
| `OfflineCrash.CrashLosesAll` | internal/broker/offline.go:273-283 | between the last delete and the first write nothing is left |
| `OfflineCrash.PartialCompletes` | internal/broker/offline.go:256-291 | the last operation completes the rewrite |
| `OfflineCrash.ReachableHolds` | internal/broker/offline.go:230-254 | every store a run can reach holds only messages under the clients' prefixes |
| `OfflineCalls.QueueTracked` | internal/broker/offline.go:109-228 | a client's queue depends on the calls about that client alone, whatever others do |
| `OfflineCalls.FitsExactly` | internal/broker/offline.go:109-228 | one call keeps the balance of what was there, accepted, put back, taken out and erased if and only if it finds room, is a newcomer turned away, or puts back what has expired |
| `OfflineCalls.RunFitsExactly` | internal/broker/offline.go:109-228 | over any calls nothing is lost at any point if and only if every call finds its condition |
| `OfflineCalls.PeekExactly` | internal/broker/broker.go:588-603 | peeking with any calls of others between count, drain and each refill loses nothing at any point if and only if every call and refill finds its condition; then queue and what others took out are what was drained, left and accepted meanwhile |
| `OfflineCalls.PublishDisplaces` | internal/broker/broker.go:588-603 | with room for one message, a publish between drain and refill leaves the drained message without a place |
| `OfflineStamps.RunStamped` | internal/broker/offline.go:109-142 | in every state reachable under one configuration each message in memory and in the store carries its stamp |
| `OfflineStamps.PeekRoom` | internal/broker/broker.go:588-603 | in every such state, with others at work, peeking loses nothing at any point if and only if every call and refill finds room |
| `OfflineStamps.PeekSafe` | internal/broker/broker.go:588-603 | in every such state of ids without '/', peeking returns all live messages and loses none if nobody else calls about the client meanwhile |
| `OfflineRestart.CountersSurvive` | internal/broker/offline.go:73-82 | in every reachable state the sequence counters in memory are those a restart would read |
| `OfflineStoreClass.RemoveExpired` | internal/broker/offline.go:116-124 | the in-place filter keeps exactly the live messages in order |
| `OfflineStoreClass.EvictOne` | internal/broker/offline.go:150-170 | the nested search and slice removal take out exactly the specified victim |
| `OfflineStoreClass.TakeFirst` | internal/broker/offline.go:191-212 | draining splits off the front of the sorted live messages |
| `OfflineStoreClass.OfflineStore.LoadFromStore` | internal/broker/offline.go:66-101 | the two scans rebuild the state of a restart |
| `OfflineStoreClass.OfflineStore.Enqueue` | internal/broker/offline.go:109-180 | answer, queues, counters and database together equal the enqueue step |
| `OfflineStoreClass.OfflineStore.Dequeue` | internal/broker/offline.go:182-221 | result, queues, counters and database together equal the dequeue step |
| `OfflineStoreClass.OfflineStore.RemoveAll` | internal/broker/offline.go:223-228 | memory and database together equal the remove step |
| `OfflineStoreClass.OfflineStore.PersistMessage` | internal/broker/offline.go:230-254 | the next numbered key and the counter key are written and nothing else |
| `OfflineStoreClass.OfflineStore.ClearPebbleMessages` | internal/broker/offline.go:256-291 | the delete and rewrite loops leave exactly the client's queue in the database |
| `OfflineStoreClass.OfflineStore.PeekAllMessages` | internal/broker/broker.go:588-603 | count, drain and refills, with the calls of others in between, leave queues, counters and database as that run of calls does |
| `OfflineStoreClass.OfflineStore.Interleave` | internal/broker/offline.go:109-228 | any sequence of calls of others equals the run of their steps |
| `WireFormat.VarRoundTrip` | internal/codec/properties.go:353-387 | decoding undoes encoding for every value that fits the allowed bytes and reports malformed for every other, whatever follows |
| `WireFormat.VarPrefixStable` | internal/codec/properties.go:372-387 | nothing behind a decoded integer influences it |
| `WireFormat.EncodeVarInt` | internal/codec/fixed_header.go:55-69 | the encoding loop prints the specified bytes |
| `WireFormat.DecodeVarInt` | internal/codec/properties.go:372-387 | the offset loop with its multiplier computes the specified value, size and errors |
| `WireFormat.RoundTrip32` | internal/codec/properties.go:391-436 | big-endian 32-bit integers read back |
| `WireFormat.BlobRoundTrip` | internal/codec/properties.go:437-488 | strings and binaries read back if they fit a 16-bit length and the limit |
| `WireFormat.HeaderRoundTrip` | internal/codec/fixed_header.go:15-52 | a fixed header reads back unchanged if and only if every field fits its bits |
| `WireFormat.FrameRoundTrip` | internal/codec/reader.go:7-22 | a frame of a fitting body reads back with exactly its own bytes consumed |
| `WireFormat.FramePrefixStable` | internal/codec/reader.go:7-22 | a frame already complete is not changed by bytes that arrive later |
| `WireFormat.Reader.DecodeRemainingLength` | internal/codec/fixed_header.go:72-89 | the byte-by-byte loop equals the specified decoder and consumes exactly what it used |
| `WireFormat.Reader.DecodeFixedHeader` | internal/codec/fixed_header.go:32-52 | header value, consumed bytes and errors equal the specified decoder |
| `WireFormat.Reader.ReadPacket` | internal/codec/reader.go:7-22 | header and payload reads together equal parsing one frame off the stream |
| `PropertyCodec.ValueRoundTrip` | internal/codec/properties.go:391-488 | every append helper is undone by the matching read helper |
| `PropertyCodec.OrderComplete` | internal/codec/properties.go:78-128 | the encoder writes every identifier the decoder knows |
| `PropertyCodec.FieldsRoundTrip` | internal/codec/properties.go:131-351 | the decoding loop over a printed list of fields reads exactly that list |
| `PropertyCodec.AssignRebuilds` | internal/codec/properties.go:131-351 | the decoder's assignments rebuild a property set from its own fields, so no two identifiers share a field |
| `PropertyCodec.DecodedFits` | internal/codec/properties.go:131-351 | whatever the input, a decoded set has only values that can be encoded again |
| `PropertyCodec.PropertiesRoundTrip` | internal/codec/properties.go:78-387 | length prefix and block decode to exactly the encoded set, nil becoming empty, whatever follows, if and only if strings, identifier and body fit their length fields |
| `PropertyCodec.Encode` | internal/codec/properties.go:78-128 | appending field by field prints the specified block |
| `PropertyCodec.Decode` | internal/codec/properties.go:131-351 | the offset loop computes the specified set or error |
| `PacketCodec.PublishRoundTrip` | internal/codec/publish.go:19-97 | a receiver gets exactly the PUBLISH packet and leaves exactly the bytes behind it, if and only if it fits |
| `PacketCodec.Version5ReadAs4` | internal/broker/client.go:244-246 | the payload the broker reads is the sender's if and only if the sender does not use version 5; otherwise the property block is in front of it |
| `PacketCodec.AckRoundTrip` | internal/codec/publish.go:108-315 | each of the four acknowledgements, short or long, reads back if and only if it fits |
| `PacketCodec.PacketRoundTrip` | internal/codec/publish.go:19-315 | the packet type selects the decoder that undoes the encoding, for every packet that fits and only those |
| `PacketCodec.StreamRoundTrip` | internal/codec/reader.go:7-22 | a list of packets of one version reads back as itself and cleanly to the end if and only if every packet fits |
| `PacketCodec.StreamContinues` | internal/codec/reader.go:7-22 | behind fitting packets the stream reads as whatever follows reads |
| `PacketCodec.TruncatedPacket` | internal/codec/reader.go:7-22 | no proper prefix of a packet reads as a packet or as malformed |
| `PacketCodec.EncodePublishPacket` | internal/codec/publish.go:61-97 | summing the length and appending part by part prints the specified packet |
| `PacketCodec.DecodePublishPacket` | internal/codec/publish.go:19-58 | advancing the offset computes the specified packet or error |
| `PacketCodec.EncodeAckPacket` | internal/codec/publish.go:108-126 | the acknowledgement encoder prints the specified packet |
| `Dedup.KeyInjective` | internal/broker/dedup.go:28-30 | a dedup key names one client and one packet id, colons in client ids included |
| `Dedup.GateExact` | internal/broker/dedup.go:32-85 | under every interleaving of tests, marks, releases and cleanups the gate answers what the history says: blocked while the latest unreleased mark is within its time to live |
| `Dedup.SecondPassExactly` | internal/broker/client.go:257-265 | after a publish that passed, unreleased and within the time to live, a second one of the pair passes if and only if the first is not marked yet |
| `Dedup.AcceptedTwice` | internal/broker/client.go:257-265 | if each passing publish is marked before the next test of its pair, two that pass with no PUBREL between are more than the time to live apart, whatever other connections and cleanups do meanwhile |
| `Dedup.BothPass` | internal/broker/client.go:257-265 | two connections of one client id that test before either marks both pass |
| `Dedup.BlockedSince` | internal/broker/dedup.go:47-53 | a mark blocks the pair until release or expiry, whatever else happens |
| `Dedup.ReleasedPasses` | internal/broker/client.go:323-332 | a PUBREL always reopens the gate |
| `Dedup.OthersIrrelevant` | internal/broker/dedup.go:76-85 | cleanups at any points, also between a test and its mark, other ids and other clients never change an answer |
| `Dedup.DedupStore.Check` | internal/broker/dedup.go:32-45 | answer and lazy deletion equal the test step |
| `Dedup.DedupStore.Cleanup` | internal/broker/dedup.go:76-85 | the sweep loop removes exactly the expired entries |
| `Dedup.DedupStore.HandlePublish` | internal/broker/client.go:257-265 | test, any calls of others in between, and mark equal that run; routed exactly if the test passed |
| `Delivery.AllocatedID` | internal/broker/packet_id.go:14-22 | the k-th id is ((k-1) mod 65535)+1 despite 16-bit wrap-around |
| `Delivery.IDsRepeat` | internal/broker/packet_id.go:14-22 | two allocations share an id if and only if they are a multiple of 65535 apart; none is 0 |
| `Delivery.TableBounded` | internal/broker/inflight.go:29-49 | over any run at most the limit is outstanding and each entry sits under its own allocation's id |
| `Delivery.OverwriteExact` | internal/broker/inflight.go:29-37 | adding a message under an id taken earlier replaces an unacknowledged one if and only if the table has room and one is a multiple of 65535 allocations away |
| `Delivery.PromptNeverOverwrites` | internal/broker/client.go:338-363 | if unacknowledged messages and messages about to be added are always less than 65535 allocations apart nothing is overwritten, however publishers interleave |
| `Delivery.SentConserved` | internal/broker/client.go:303-363 | over any run, messages handed to the connection equal those outstanding plus acknowledged plus overwritten |
| `Delivery.PromptConserves` | internal/broker/client.go:303-363 | then what was handed over is outstanding or acknowledged |
| `Delivery.PacketIDAllocator.Next` | internal/broker/packet_id.go:14-22 | the wrapping counter returns the id of the closed form |
| `Delivery.Connection.Deliver` | internal/broker/client.go:338-363 | taking an id, whatever others do, and adding equal that run; queued for writing exactly if accepted and the send buffer has room |
| `Delivery.Connection.Acknowledge` | internal/broker/client.go:303-321 | an acknowledgement equals the removal step |
| `Breaker.TotalsAddUp` | internal/circuitbreaker/breaker.go:95-157 | in every reachable state the total is failures plus successes |
| `Breaker.TripHolds` | internal/circuitbreaker/breaker.go:74-93 | after a trip, without reset, every request is refused until more than the open duration has passed, and the next one is let through |
| `Breaker.CountersExact` | internal/circuitbreaker/breaker.go:95-157 | over any run the counters are all failures and successes since the breaker last opened, closed or was reset |
| `Breaker.WindowIgnored` | internal/circuitbreaker/breaker.go:30-36 | they are those of the configured window if and only if none of these events is older than the window |
| `Breaker.SpreadFailuresTrip` | internal/circuitbreaker/breaker.go:108-124 | two failures further apart than the window trip a breaker that asks for two requests |
| `Breaker.TripExact` | internal/circuitbreaker/breaker.go:108-149 | over any run the breaker opens only on a failure: always in half-open, in closed exactly when the rate over all events since the last clearing one reaches the threshold |
| `Breaker.HalfOpenSpell` | internal/circuitbreaker/breaker.go:74-134 | half-open always means inside one failure-free spell begun by the probe that ended an open period, with its successes counted |
| `Breaker.ClosingNeedsSpell` | internal/circuitbreaker/breaker.go:95-157 | closing without reset needs the configured number of successes within one such spell |
| `Breaker.BelowMax` | internal/circuitbreaker/breaker.go:95-106 | the half-open counter never reaches its maximum while the spell goes on |
| `Breaker.CircuitBreaker.Allow` | internal/circuitbreaker/breaker.go:74-93 | new state and answer equal the probe step |
| `Breaker.CircuitBreaker.RecordSuccess` | internal/circuitbreaker/breaker.go:95-106 | new state equals the success step |
| `Breaker.CircuitBreaker.RecordFailure` | internal/circuitbreaker/breaker.go:108-124 | new state equals the failure step |
| `Breaker.CircuitBreaker.Observe` | internal/circuitbreaker/breaker.go:126-134 | reading the state makes the same transition as a probe |
| `Topics.SplitJoins` | internal/broker/topic_matcher.go:7-34 | splitting gives slash-free levels that join back to the topic |
| `Topics.MatchTopic` | internal/broker/topic_matcher.go:7-34 | the index loop decides the specified match, `$` rule included |
| `Topics.MatchMeansInstance` | internal/broker/topic_matcher.go:7-34 | for every filter, valid or not, matching is being an instance of the filter up to its first '#' |
| `Topics.TopicFilterValid` | internal/broker/topic_matcher.go:45-63 | the validity loop decides the specified filters |
| `Topics.ValidFilterMeaning` | internal/broker/topic_matcher.go:7-63 | for valid filters the matcher is the wildcard rule of section 4.7 of MQTT 3.1.1 |
| `Tenants.DeliveryRestores` | internal/broker/client.go:234-239 | a client receives the published topic: live, except exactly for '$' topics that carry the prefix already; from the offline queue, if and only if there is no prefix or the topic starts with '$'; retained, always |
| `Tenants.RetainedShared` | internal/broker/client.go:281-283 | retained messages are matched without prefixes, so any tenant's filter meets any other's topic |
| `Tenants.RewriteHomomorphism` | internal/tenant/interceptor.go:78-113 | rewriting preserves matching for all filters and topics if and only if the prefix has no '#' level and no leading '$' |
| `Tenants.TenantsIsolated` | internal/tenant/interceptor.go:78-113 | for any two prefixes, empty and multi-level ones included, no filter of the one matches a live or queued topic of the other if and only if the one's levels cannot reach the other's |
| `Tenants.SingleLevels` | internal/tenant/interceptor.go:78-113 | distinct single-level prefixes that are no wildcard keep tenants apart |
| `Tenants.DefaultTenantSees` | internal/tenant/manager.go:32 | the empty prefix sees every tenant whose prefix does not start with '$' |
| `Tenants.TopicEvent.Prefix` | internal/tenant/interceptor.go:78-113 | the publish, subscribe and unsubscribe hooks rewrite the name in place |
| `Tenants.TopicEvent.Unprefix` | internal/tenant/interceptor.go:95-104 | the delivery hook strips the name in place |
| `Takeover.WinsIsStrictOrder` | internal/cluster/conflict.go:21-36 | winning is a strict order on (epoch, timestamp), total except for ties |
| `Takeover.LosesIffBeaten` | internal/cluster/takeover.go:95-136 | over any sequence of requests at any nodes a holder loses its session if and only if a strictly greater request was handled there |
| `Takeover.OrderIrrelevant` | internal/cluster/takeover.go:95-136 | reordering or repeating requests never changes the outcome |
| `Takeover.MaximalSurvives` | internal/cluster/takeover.go:95-136 | a newest session is never lost |
| `Takeover.GreatestAloneRemains` | internal/cluster/takeover.go:95-136 | once the strictly greatest holder's request reached every other holder it alone remains |
| `Takeover.TieKeepsBoth` | internal/cluster/conflict.go:34-35 | two holders with equal stamps both keep their session whatever is delivered |
| `Takeover.TakeoverManager.SetLocalSession` | internal/cluster/takeover.go:42-46 | the node's sessions stay its share of the cluster's |
| `Takeover.TakeoverManager.HandleTakeoverRequest` | internal/cluster/takeover.go:95-136 | the handler's deletion, reply and disconnect equal the step |
| `Subscriptions.MutualInverses` | internal/broker/subscription.go:35-102 | whenever both maps represent the relation they are inverses of each other |
| `Subscriptions.ClientPairs` | internal/broker/subscription.go:159-167 | counting over clients gives the size of the relation |
| `Subscriptions.SubscriptionIndex.Add` | internal/broker/subscription.go:35-53 | both maps keep representing the relation, without duplicates, after setting one pair |
| `Subscriptions.SubscriptionIndex.Remove` | internal/broker/subscription.go:55-77 | both maps keep representing the relation, without empty buckets, after removing one pair |
| `Subscriptions.SubscriptionIndex.RemoveAll` | internal/broker/subscription.go:79-102 | both maps represent the relation without the client |
| `Subscriptions.SubscriptionIndex.ClientFilters` | internal/broker/subscription.go:118-131 | lists each of the client's filters once |
| `Subscriptions.SubscriptionIndex.Match` | internal/broker/subscription.go:133-156 | each client with a matching filter exactly once, at its highest matching QoS, and nobody else |
| `Subscriptions.SubscriptionIndex.Count` | internal/broker/subscription.go:159-167 | the sum over buckets equals the relation's size and the sum over clients |
| `BestMatch.ListBest` | internal/broker/subscription.go:148-156 | turning the map of best values into a list keeps each subscriber once at its best QoS |
| `BestMatch.BestUnique` | internal/broker/subscription.go:133-156 | a subscriber's best QoS is unique, so the answer is determined by the relation |
| `RemoteSubs.EntryIsHighestSince` | internal/cluster/remote_subs.go:34-91 | after any history a pair is present if and only if subscribed since its last removal, at the highest QoS since then |
| `RemoteSubs.RemoteSubIndex.Add` | internal/cluster/remote_subs.go:34-49 | both nested maps keep representing the relation with the higher QoS |
| `RemoteSubs.RemoteSubIndex.Remove` | internal/cluster/remote_subs.go:52-69 | both nested maps keep representing the relation after an unsubscription |
| `RemoteSubs.RemoteSubIndex.RemoveNode` | internal/cluster/remote_subs.go:72-91 | both nested maps represent the relation without the node |
| `RemoteSubs.RemoteSubIndex.Match` | internal/cluster/remote_subs.go:125-146 | each node with a matching filter exactly once, at its highest matching QoS |
| `Routing.RouteMessage` | internal/broker/broker.go:428-518 | the routing loops serve connected clients now, queue for disconnected ones whose session lives on, and forward unless already forwarded, all capped at the publisher's QoS |
| `Routing.DirectDelivery` | internal/broker/broker.go:428-518 | a client is served exactly once, at the lower of the publisher's and its own best matching QoS, or not at all |
| `Routing.TwoHopEqualsDirect` | internal/broker/broker.go:428-518 | while remote entries bound local grants, forwarding then delivering gives what direct delivery would |
| `Gossip.Settles` | internal/cluster/gossip_broadcast.go:23-55 | sending out the broadcast queue always leads to the index entries the model expects |
| `Gossip.CaughtUp` | internal/cluster/gossip_broadcast.go:46-55 | with nothing queued, the promise is that the index bounds the local grants |
| `Gossip.KeptExactly` | internal/broker/client.go:414-471 | for each kind of step (subscribe, unsubscribe, disconnect, expiry, silent restore, broadcast, rebroadcast, transmission, reception, retirement, node loss) the index stays right once caught up if and only if that step's own condition holds |
| `Gossip.RunKeptExactly` | internal/cluster/gossip_broadcast.go:23-55 | over any run, with packets lost, repeated and reordered, the index is right once caught up at every point if and only if each step met its condition |
| `Gossip.TwoHopInEveryRun` | internal/broker/broker.go:428-518 | in every such run, whenever the queue is empty, a forwarded publish reaches each subscriber at exactly the QoS of direct delivery |
| `Gossip.LeavingTakesOthers` | internal/broker/client.go:561-568 | one of two clients leaving a filter, by unsubscribing or disconnecting, breaks it for the other |
| `Gossip.LowerReplacesHigher` | internal/cluster/gossip_broadcast.go:23-31 | a lower grant queued behind a higher one breaks it for the higher |
| `Gossip.RestoredUnheard` | internal/broker/broker.go:90-98 | a subscription restored at startup or by a migration is not in the other index |
| `Gossip.OvertakenWithdrawal` | internal/cluster/gossip_broadcast.go:46-55 | a withdrawal that arrives after the announcement replacing it removes the renewed entry |
| `Routing.ForwardedOnce` | internal/cluster/cluster.go:307-317 | however long routing goes on and whatever the indexes say, a publish causes the original and one copy per node matched at its origin |
| `Forwarding.RunInv` | internal/cluster/peer_transport.go:679-726 | under every interleaving, acknowledgements that arrive before Send returns and sends that fail after the frame left included, each waiter belongs to the attempt in progress or to a call stopped by shutdown, closed channels are never waited in the table, and counters and times stay in bounds |
| `Forwarding.CallsBounded` | internal/cluster/peer_transport.go:679-726 | whatever the timing a call sends at most maxRetries+1 copies, has returned after that many attempts' time, and leaves no waiter unless stopped by shutdown |
| `Forwarding.ReceiptExactly` | internal/cluster/peer_transport.go:385-486 | success implies the receiver decoded the id in every run over a lossy, delaying network, late acknowledgements included and ids equal to a migration key excepted, if and only if maxRetries >= 0 and no attempt can outlast the stale limit |
| `Forwarding.ClusterReceipts` | internal/cluster/cluster.go:307-317 | with the cluster's three retries of five seconds that holds exactly if an attempt overruns its timeout by at most 115 seconds |
| `Forwarding.NegativeRetries` | internal/cluster/peer_transport.go:689-726 | a negative retry limit reports success for any id though nothing was sent |
| `Forwarding.SweptWaiter` | internal/cluster/peer_transport.go:385-414 | a waiter older than the stale limit is closed and reported as success though nothing was decoded |
| `Forwarding.CollidingKey` | internal/cluster/peer_transport.go:499-508 | the exception is needed: a migration acknowledgement under a colliding key makes an undecoded message succeed |
| `Forwarding.PeerTransport.NextID` | internal/cluster/peer_transport.go:629-632 | ids increase by one, so no two calls share one |
| `Forwarding.PeerTransport.HandleAck` | internal/cluster/peer_transport.go:478-486 | an acknowledgement closes and removes exactly the waiter of its id, if any |
| `Forwarding.PeerTransport.CleanupStale` | internal/cluster/peer_transport.go:385-414 | the sweep loop closes and removes exactly the waiters older than two minutes |
| `Forwarding.PeerTransport.SendReliable` | internal/cluster/peer_transport.go:679-726 | the retry loop ends at the first final attempt or the last allowed one, with that attempt's verdict, the copies written so far and the exact table left behind |
| `Forwarding.LoopIsRun` | internal/cluster/peer_transport.go:689-726 | however the retry loop ends, some run of the protocol ends the call with the same result after the same number of copies |
| `PeerFrames.PeerFrameRoundTrip` | internal/cluster/peer_transport.go:816-840 | a frame is read back, whatever follows, if and only if it is at most 10 MiB |
| `PeerFrames.PeerStreamRoundTrip` | internal/cluster/peer_transport.go:816-840 | a stream of frames reads back whole and ends cleanly if and only if each is within the limit |
| `PeerFrames.ReadFrame` | internal/cluster/peer_transport.go:826-840 | the two reads equal the specified decoder and consume exactly one frame |
| `Migration.DeletedExactly` | internal/cluster/migration_executor.go:58-92 | a device's source copy is deleted if and only if some position listing it succeeded |
| `Migration.NoneFailed` | internal/cluster/migration_executor.go:94-123 | no failure is counted if and only if every position succeeded |
| `Migration.DeletedIffAcknowledged` | internal/cluster/migration_executor.go:72-91 | for every pattern of send failures and a retry limit of at least 0, deleted if and only if acknowledged |
| `Migration.DistinctDevices` | internal/cluster/migration_executor.go:58-92 | with distinct devices each position decides its own device |
| `Migration.DeviceOutcome` | internal/cluster/migration_executor.go:58-92 | with distinct devices, one that nobody else touches is gone after a success, its session and all its live messages acknowledged, and after a failure keeps its session and the queue that gathering left |
| `Migration.GoneExactly` | internal/cluster/migration_executor.go:88-91 | a device listed any number of times, that nobody else touches, lost its session if and only if some position of it succeeded, and then its queue is empty |
| `Migration.FailedKeepsExactly` | internal/broker/broker.go:598-603 | a device that nobody else touches and whose sends failed keeps all its live messages through every refill if and only if each refill finds its condition |
| `Migration.ParcelComplete` | internal/broker/broker.go:588-597 | what is gathered is the front of the priority and creation order of the live messages at the drain, all of them if and only if they are no more than were counted |
| `Migration.ImportRestoresExactly` | internal/broker/broker.go:634-641 | importing gives back the message that was carried if and only if it had the highest priority and the times of a message made on arrival |
| `Migration.NotListedKept` | internal/cluster/migration_executor.go:58-92 | queue and session of a device that is not listed and that nobody else touches are unchanged |
| `Migration.AcknowledgesFirstExactly` | internal/cluster/migration_executor.go:72-91 | no device is ever deleted before a send for it was acknowledged if and only if the retry limit is not negative |
| `Migration.PositionExactly` | internal/cluster/migration_executor.go:58-92 | with anything others do around the executor's own calls: nothing of the device is lost between drain and answer if and only if every call finds its condition; then queue and what others took out are what was gathered, left by the drain and arrived |
| `Migration.LostExactly` | internal/cluster/migration_executor.go:88-91 | deleting after an acknowledged send loses exactly the messages the drain left or that arrived since, still live and not taken out by others; nothing if and only if there are none |
| `Migration.UnsentAllLost` | internal/cluster/migration_executor.go:72-91 | deleting without a send loses everything that is live |
| `Migration.RunLosesNothing` | internal/cluster/migration_executor.go:26-124 | a whole run with others at work loses no message if and only if no successful position leaves one behind |
| `Migration.PublishWhileSending` | internal/cluster/migration_executor.go:72-91 | a message published while the send is awaited is accepted, deleted and not sent |
| `Migration.DeletedThen` | internal/cluster/migration_executor.go:88-91 | right after the deletions the device has no queue and no session; acknowledged were the session as read and everything gathered, in order |
| `MigrationExecutor.SendWithRetries` | internal/cluster/migration_executor.go:72-86 | the retry loop leaves no error exactly if some allowed send was acknowledged or none was allowed |
| `MigrationExecutor.ShardMigration.AdvancePhase` | internal/cluster/migration.go:104-114 | phases advance one by one up to cleanup and the first advance starts the run |
| `MigrationExecutor.Broker.GetOfflineMessages` | internal/broker/broker.go:588-603 | the store after the interleaved drain and refills, and the drained messages as carried |
| `MigrationExecutor.Executor.MigrateDevice` | internal/cluster/migration_executor.go:58-92 | one position's effect on source and target, with what others do between its calls, equals the step |
| `MigrationExecutor.Executor.MigrateBatch` | internal/cluster/migration_executor.go:53-95 | a batch adds exactly its successes and failures to the progress |
| `MigrationExecutor.Executor.Execute` | internal/cluster/migration_executor.go:26-124 | for any batch size, retry limit, failures and actions of others: migrated plus failed is the total, source and target are as the whole run leaves them, status is completed exactly if nothing failed, no listed device stays flagged or tracked, all others keep flag and node |
| `Ownership.PartitionUnique` | internal/cluster/connections.go:22-79 | the per-node sets are disjoint and determined by the device map |
| `Ownership.IndexFollowsHistory` | internal/cluster/connections.go:22-79 | after any run the node sets partition exactly the tracked devices, and each device is where its history last put it |
| `Ownership.ConnectionIndex.Add` | internal/cluster/connections.go:24-43 | both maps equal the connect step and still partition |
| `Ownership.ConnectionIndex.Remove` | internal/cluster/connections.go:46-63 | both maps equal the disconnect step and still partition |
| `Ownership.ConnectionIndex.RemoveNode` | internal/cluster/connections.go:66-79 | the deletion loop drops exactly the node's devices and both maps still partition |
| `Ownership.ConnectionIndex.SetMigrating` | internal/cluster/connections.go:114-122 | exactly the device's flag changes |
| `Ownership.MovedExactly` | internal/cluster/diff.go:6-26 | each device whose located owner changed is in exactly one bucket, as often as listed, and no other device is in any |
| `Ownership.DiffOwnership` | internal/cluster/diff.go:6-26 | every bucket holds exactly the devices that moved that way in input order, and none is empty |

## Left out

- Sockets, QUIC, TLS, WebSocket, the HTTP API, metrics, logging, configuration, plugins, the bench tool and the web UI.
- The hash ring (a function from device to owner here), memberlist, Pebble's internals (a map with ordered scans here), CEL, bcrypt and token buckets.
- JSON encoding of stored and forwarded messages, taken as lossless; a stored value that does not parse is skipped by loading as in the source.
- Rate limiting, adaptive limits and backpressure: thresholds over an unseen token bucket.
- Memory races and slice aliasing: a locked method is one atomic step, and lists and dictionaries are values held in fields.
- CONNECT, SUBSCRIBE and the remaining control packets: their decoders would add members without an encoder to undo.
- Session lifecycle, the reaper, will messages and tenant quotas; of retained messages only the names they are matched under.
- RequestTakeover's channels and its timeout-as-success, and concurrent cancellation of a migration.
- The receiving side of a migration: a send is acknowledged or not.
- Gossip between more than two nodes: Gossip follows one node's broadcasts into one other node's index.
- Session changes of others inside a gathering: they do not influence it, so the model places them before or after.
- Forwarding.ReceiptExactly: does not model 64-bit wrap-around of message ids, because no process sends that many; waiters registered by migrations are not in the table, only the effect of their acknowledgements on colliding ids.
- Forwarding.CallsBounded: bounds time by the lag an attempt may add to its timeout, because scheduling and write times are outside the program.
- Delivery.SentConserved: counts QoS 1 and 2 deliveries only, because QoS 0 takes no id.
- PropertyCodec.Encode: writes the fixed fields in a loop over their order where the source has one statement per field.
- PropertyCodec.Decode: assigns the fields after the loop that reads them, because the assignments do not influence the reading.
- OfflineQueue.StableSortCorrect: sorts by insertion, because the library's own algorithm is not part of the repository; StableSortUnique says the result is the same.
- Tenants.TenantsIsolated: covers names not starting with '$', because those are shared between tenants by design.
- Dedup.AcceptedTwice: two connections of one client id may interleave so that it fails; SecondPassExactly says exactly when.
