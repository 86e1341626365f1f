# RawDish: a verified model

RawDish is a peer-to-peer block store. Nodes form a full mesh by gossip and share group
membership; blocks live in files behind an index made of a Bloom filter and a set of names;
stores are served over a small RPC layer; an LRU cache and a URL type complete the picture. This
project models those parts in Dafny and proves what they promise, or exactly when they keep the
promise where the code does not always do so. `dafny verify dfyconfig.toml` checks everything.

How the model is laid out:

| files | what they hold |
|---|---|
| `Common.dfy` | a value that may be missing, a set listed in some order |
| `ServiceNode.dfy` | one mesh node: every operation as a function of its value, and class `Internal`, which performs it step by step and is proved to compute that function |
| `Mesh.dfy`, `GroupGossip.dfy`, `GossipBounds.dfy` | the network as a state machine over nodes, calls in flight (a bag) and running handlers; convergence, termination, cost |
| `GroupEvents.dfy`, `NetworkEvents.dfy` | what group callbacks learn, on one node and across the network |
| `Heap.dfy`, `LruCache.dfy`, `LruRefinement.dfy`, `LruStore.dfy` | heap algorithms, the cache as a value, the comparison with a recency list, and the cache as objects changed in place |
| `Octets.dfy`, `Fnv.dfy`, `KnownHashes.dfy`, `Bloom.dfy`, `BloomStore.dfy` | bytes and bits, the hash and known answers of it, the filter as a value and as a buffer changed in place |
| `Framing.dfy`, `Rpc.dfy`, `RpcEndings.dfy`, `RpcProgress.dfy`, `WireFormat.dfy`, `RpcStore.dfy` | message streams, the RPC system, how calls end without an answer, that none is lost, one concrete message format, the handlers as they run |
| `BlockStore.dfy`, `FileBlockStore.dfy` | the block store as a value and as it runs |
| `Decimal.dfy`, `RemoteBlockStore.dfy`, `RemoteSession.dfy`, `RemoteReads.dfy`, `Packing.dfy` | the proxy: names and one call, whole sessions over the RPC system with other callers on the same stores, what callers read, one concrete packing of arguments and results |
| `Url.dfy` | URL parsing and printing |

The unlocked "already connected" test of `addPeer` is modelled as the code has it: the test and
the critical section are separate steps, and several handlers may pass the test before one of
them enters the critical section. Every code section under the mutex is one step. What sockets,
`statfs`, `readdir` and file calls answer is an argument of the operation.

Where code and comments disagree the model follows the code:

- Group removal is commented as reference counting. A count above one is never lowered and a
  removal of an absent name creates an entry (`GroupEvents.CountedTwiceStays`,
  `GroupEvents.EventReplay`). The header says removing an absent item does nothing, and a comment
  says all peers have the same state; `NetworkEvents.RemovalIsLost` gives a run without any failure
  after which they do not. Members that no user removes do converge, whatever happens to others
  (`GroupGossip.MemberConverges`), and `NetworkEvents.RemovalConverges` says exactly when a removal
  takes effect everywhere.
- A replacing `put` of the LRU cache leaves the heap out of order
  (`LruRefinement.ReplacingPutSpoilsOrder`, `LruRefinement.StaleVictim`).
- A `putBlock` that fails after opening the file destroys the old block
  (`BlockStore.FailedPutClobbers`), and overwriting moves the counters
  (`BlockStore.UsedCountsBlocks`).
- A call to a name that the server does not know makes the server close the connection; the
  client then tells the user and nobody else, so the call is pending until the user disconnects
  (`RpcEndings.UnknownNameHangs`, `RpcEndings.LostConnectionLeavesPending`,
  `RemoteSession.UnregisteredHangs`).
- Assigning a Bloom filter to itself loses its contents, because the buffer is given up before it
  is read; `BloomStore.BloomFilter.Assign` therefore requires two filters.
- `RemoteBlockStore::bloomfilter` always returns an empty filter
  (`RemoteBlockStore.RemoteFilterOnlyWhenEmpty`).
- URLs with scheme http, port 80 and a colon in the host do not survive printing
  (`Url.RoundTrip`, and `Url.PrintingLosesPort` for one of them).

## Model

| member | source | states |
|---|---|---|
| `Mesh.MeshConverges` | src/rpc/service_node.cc:198-247 | In every run without lost connections, lost calls or failed connects to live nodes, whenever no addPeer is in flight or being handled, two distinct nodes are mutual peers exactly when a chain of user addPeer requests links them, and peering is never one-sided |
| `Mesh.MeshInvHolds` | src/rpc/service_node.cc:198-247 | Along such runs every requested, listed or introduced pair is known or still under way, and nothing is known that no chain of requests links |
| `Mesh.ChainMeansPeers` | src/rpc/service_node.cc:225-233 | In a quiet network the two ends of any chain of requests are mutual peers, by introductions alone |
| `GroupGossip.MemberConverges` | src/rpc/service_node.cc:110-168 | In every run of that kind and for every member that no user removes, however other members are added and removed, whenever nothing is in flight a node has the member exactly when the user of some node linked to it added it |
| `GroupGossip.GroupsConverge` | src/rpc/service_node.cc:110-136 | In every such run without removals, whenever nothing is in flight, a node holds exactly the members added by the users of the nodes linked to it, so all nodes of a component hold the same members |
| `GroupGossip.GroupInvHolds` | src/rpc/service_node.cc:235-264 | Along runs in which no user removes the member, every origin has it, each of the origin's peers has it or is still to be told, and nobody has or is told of it to whom it is not owed, although received adds are not forwarded |
| `GossipBounds.InternalStepLowers` | src/rpc/service_node.cc:198-247 | Every delivery or handler step lowers lexicographically: missing ordered peer pairs, handlers made late by a race, calls in flight, handlers |
| `GossipBounds.Drains` | src/rpc/service_node.cc:198-283 | From every state whose calls and handlers belong to live nodes, some sequence of deliveries and handler steps leaves nothing under way |
| `GossipBounds.GossipStops` | src/rpc/service_node.cc:198-283 | No schedule of deliveries and handler steps goes on for ever |
| `GossipBounds.EventuallyConsistent` | src/rpc/service_node.h:41-48 | After any healthy run, every schedule of deliveries and handler steps that goes on until no more is possible ends with nothing under way, and every node then has each member that no user removed exactly when it is owed to it |
| `GossipBounds.GossipCost` | src/rpc/service_node.cc:209-233 | A node with d peers has made at least d(d+1)/2 addPeer calls, and exactly that many if and only if no critical section of it found its peer already connected |
| `GossipBounds.SerialGossipCost` | src/rpc/service_node.cc:200-233 | When handlers do not overlap, a node with d peers has always made exactly d(d+1)/2 addPeer calls |
| `GossipBounds.SentOnce` | src/rpc/service_node.cc:218-243 | A critical section makes each of its calls exactly once: our address, every other peer, every member of every group, and nothing else |
| `GossipBounds.LostPeerReconnects` | src/rpc/service_node.cc:189-200 | A lost peer is forgotten, so the next request for it connects anew and tells it everything again, where a request for a known peer does nothing |
| `GossipBounds.NoSelfPeering` | src/rpc/service_node.cc:189-233 | If no user names a node's own address, then in every run, with lost connections and calls, no node has itself as a peer and no call or handler asks it to |
| `GroupEvents.EventReplay` | src/rpc/service_node.cc:122-187 | Along a run of one node, all counts are at least 1 and every callback's events, registration snapshot included, rebuild its group with adds and removes alternating, exactly when every removal names a present member; the callbacks are in any case all those registered since they were last dropped |
| `GroupEvents.ListenersCounted` | src/rpc/service_node.cc:170-187 | After every run a group has the callbacks it had plus one for every registration, counted since they were last dropped |
| `GroupEvents.ListenersKept` | src/rpc/service_node.cc:170-181 | Until a group's callbacks are dropped, each keeps its place and all it has been told, whatever operations follow |
| `GroupEvents.FaithfulStep` | src/rpc/service_node.cc:249-283 | One operation keeps callbacks faithful if and only if it is not a removal of an absent name |
| `GroupEvents.EventsAlternate` | src/rpc/service_node.h:98-103 | Successive events about one name differ in kind |
| `GroupEvents.SnapshotTracks` | src/rpc/service_node.cc:170-181 | The snapshot given at registration rebuilds the group |
| `GroupEvents.AddsCounted` | src/rpc/service_node.cc:122-134 | While nobody removes a member, its count grows by one for every local and every peer's add |
| `GroupEvents.AbsentRemovalCounts` | src/rpc/service_node.cc:150-166 | Removing an absent name enters it: until the next removal its count is the number of adds since, or one less if a peer removed it |
| `GroupEvents.CountedTwiceStays` | src/rpc/service_node.cc:149-166 | A member once counted twice stays through every later run, and its count is never lowered: it grows by the adds |
| `NetworkEvents.NetworkEventReplay` | src/rpc/service_node.cc:110-283 | In every run of the network, failures included, all callbacks on all nodes are faithful throughout exactly when every removal names a member present where it takes place |
| `NetworkEvents.NodeByItself` | src/rpc/service_node.cc:110-283 | In every run of the network a node's groups and callbacks are those that its own operations make of them, so the results about one node hold throughout |
| `NetworkEvents.RemovalIsLost` | src/rpc/service_node.cc:138-168 | On any two nodes: a run without failures in which one node adds a member, the only add, the nodes become peers and the same node removes the member; at the end nothing is in flight, that node still has the member and its peer does not |
| `NetworkEvents.QuietRemoval` | src/rpc/service_node.cc:138-168 | A removal asked for in a quiet network, under any schedule of deliveries, leaves the node and each peer without the member exactly if it had counted it once |
| `NetworkEvents.RemovalConverges` | src/rpc/service_node.cc:138-168 | In a quiet healthy network where no user named a node's own address, the removal takes effect on all nodes linked to the one it was asked of if and only if each of them has counted the member exactly once |
| `ServiceNode.Internal.UserAddToGroup` | src/rpc/service_node.cc:110-136 | The new state is that of the add, with one call to every peer |
| `ServiceNode.Internal.UserRemoveFromGroup` | src/rpc/service_node.cc:138-168 | The new state is that of the removal, with one call to every peer |
| `ServiceNode.Internal.RpcAddToGroup` | src/rpc/service_node.cc:249-264 | As a local add, without forwarding |
| `ServiceNode.Internal.RpcRemoveFromGroup` | src/rpc/service_node.cc:266-283 | As a local removal, without forwarding; an absent name gets count -1 |
| `ServiceNode.Internal.AddGroupCallback` | src/rpc/service_node.cc:170-181 | One callback more, after the ones there were, and it has been told of every present member once, in some order |
| `ServiceNode.Internal.CommitAddPeer` | src/rpc/service_node.cc:209-244 | The peer is entered and is sent exactly our address, every other peer and every group member |
| `ServiceNode.Internal.RpcAddPeer` | src/rpc/service_node.cc:198-247 | Without interference: nothing for a known peer, nothing on a failed connect, otherwise the critical section's effect |
| `Heap.PushHeapOrders` | src/util/lrucache.h:110-110 | push_heap turns a heap and one more entry into a heap of the same entries |
| `Heap.PopHeapOrders` | src/util/lrucache.h:114-114 | pop_heap moves the front to the back and leaves a heap of the other entries |
| `Heap.MakeHeapOrders` | src/util/lrucache.h:72-73 | make_heap turns any sequence into a heap of the same entries |
| `Heap.FrontIsOldest` | src/util/lrucache.h:129-131 | Under the cache's comparison the front of a heap is the least recently accessed entry |
| `LruCache.GetEntries` | src/util/lrucache.h:82-92 | A hit renews one entry's time, changes no other entry and leaves the heap in order |
| `LruCache.InvalidateEntries` | src/util/lrucache.h:66-77 | A hit removes precisely the entry looked up, even from a heap that was out of order, and leaves the heap in order |
| `LruCache.ReplaceEntries` | src/util/lrucache.h:100-103 | A replacing put changes the time and bytes of one entry only |
| `LruCache.InsertEntries` | src/util/lrucache.h:104-120 | An inserting put adds the entry and, on overflow, drops the one at the front of the heap, in order or not |
| `LruRefinement.LruRefinesRecencyList` | src/util/lrucache.h:66-121 | On every run where no overflowing insertion follows a replacing put without a get or invalidate hit in between, every get answers as a recency list of the same capacity does, and both hold the same items |
| `LruRefinement.AlwaysSound` | src/util/lrucache.h:66-121 | In every reachable state keys and times are distinct, times lie in [1, clock) and the size is within capacity |
| `LruRefinement.StaleVictim` | src/util/lrucache.h:98-121 | Otherwise the victim is the key that was oldest when the heap was last in order, so the eviction is the recency list's if and only if that key is still the oldest |
| `LruRefinement.ReplacingPutSpoilsOrder` | src/util/lrucache.h:100-103 | With capacity 2, put a, b, a, c evicts a where the recency list evicts b |
| `LruStore.LRUCache.Get` | src/util/lrucache.h:82-92 | On shared entry objects, returns the bytes or nothing and reaches exactly the state of LruCache.Get; table and heap keep holding the same entries |
| `LruStore.LRUCache.Put` | src/util/lrucache.h:98-121 | Reaches exactly the state of LruCache.Put; table and heap keep holding the same entries |
| `LruStore.LRUCache.Invalidate` | src/util/lrucache.h:66-77 | Reaches exactly the state of LruCache.Invalidate: the popped object is the one looked up |
| `LruStore.PushHeapInPlace` | src/util/lrucache.h:110-110 | The sift loop on the array computes PushHeap and permutes the objects |
| `LruStore.PopHeapInPlace` | src/util/lrucache.h:73-74 | The loop computes PopHeap, permutes the objects and puts the former front last |
| `LruStore.MakeHeapInPlace` | src/util/lrucache.h:87-87 | The loop computes MakeHeap and permutes the objects |
| `Fnv.ComputeHash` | src/util/bloomfilter.cc:44-60 | The two loops compute FNV-1a over the seed's four bytes and the key up to its first NUL |
| `Fnv.FoldInjective` | src/util/bloomfilter.cc:55-58 | Hashing the same bytes keeps states apart that differ modulo 2^k, for every k up to 64: each round is a bijection |
| `Fnv.SeedsHashApart` | src/util/bloomfilter.cc:44-60 | Seeds that differ in their low byte only send every key to different residues modulo 2^k, k from 8 to 64 |
| `KnownHashes.KnownAnswer` | src/util/bloomfilter.cc:44-60 | The hash of the one byte of "a" is the value given in draft-eastlake-fnv |
| `KnownHashes.KnownSeeded` | src/util/bloomfilter.cc:44-54 | Seed 1 and the empty key give a known value: four seed bytes, the lowest first |
| `Bloom.SixDistinctBits` | src/util/bloomfilter.cc:102-107 | For every key, every size 2^k with k at least 8 and every seed whose low byte is at most 250, the six probes are pairwise distinct |
| `Bloom.SixBits` | src/util/bloomfilter.cc:102-107 | Setting a key in an empty filter of size 2^k, k from 8 to 30, with such a seed turns on exactly six bits |
| `Bloom.SetMeans` | src/util/bloomfilter.cc:102-107 | Setting a key turns on exactly its six probe positions |
| `Bloom.FilterMeaning` | src/util/bloomfilter.cc:69-107 | After any run of reset, set and copying, the bits on are exactly the probes of the keys set since the last reset |
| `Bloom.MayContainMeans` | src/util/bloomfilter.cc:109-117 | mayContain is true if and only if all six probes are probes of keys that were set; no false negatives; padding bits are clear |
| `Bloom.SameKeysSameFilter` | src/util/bloomfilter.cc:92-107 | The bytes depend only on the set of keys, not on the order of insertion |
| `Bloom.SerializeRoundTrip` | src/util/bloomfilter.cc:119-147 | Deserializing a serialized filter gives it back if and only if its size is within the limit; a larger one is refused without effect |
| `Bloom.DeserializeRoundTrip` | src/util/bloomfilter.cc:127-147 | Serializing after an accepted vector gives that vector back; every other vector leaves the filter unchanged |
| `Bloom.SerializedLayout` | src/util/bloomfilter.cc:119-125 | Seed and size in four bytes each, the lowest first, then bit p as bit p modulo 8 of byte p / 8, and no more bytes than that takes |
| `Bloom.AcceptsExactly` | src/util/bloomfilter.cc:127-142 | A vector is accepted if and only if it is long enough to name a size, the size is at most 100 * 1024 * 1024 and the length is the one for that size |
| `BloomStore.BloomFilter.Set` | src/util/bloomfilter.cc:102-107 | The loop over the packed buffer computes Set |
| `BloomStore.BloomFilter.MayContain` | src/util/bloomfilter.cc:109-117 | The early-exit loop decides MayContain |
| `BloomStore.BloomFilter.Reset` | src/util/bloomfilter.cc:92-100 | A new all-clear buffer of the given size and seed |
| `BloomStore.BloomFilter.Copy` | src/util/bloomfilter.cc:69-75 | A separate buffer with the same contents |
| `BloomStore.BloomFilter.Assign` | src/util/bloomfilter.cc:77-84 | From another filter: a separate buffer with the same contents, and the other filter is unchanged |
| `BloomStore.BloomFilter.Serialize` | src/util/bloomfilter.cc:119-125 | Any filter that deserializes the vector becomes this one, if the size is within the limit |
| `BloomStore.BloomFilter.Deserialize` | src/util/bloomfilter.cc:127-147 | The filter of Deserialize, in the same buffer, which must be long enough |
| `Framing.ChunkingDoesNotMatter` | src/rpc/rpc.cc:136-173 | For every split of a byte stream into chunks, appending and draining dispatches what decoding the whole stream gives, with the same remainder |
| `Framing.DrainWritten` | src/rpc/rpc.cc:240-274 | Draining any part of a written stream yields its first messages complete and in order |
| `WireFormat.FormatsAreGood` | src/rpc/rpc.h:105-114 | A concrete format for requests and responses meets the requirements on the codec |
| `Rpc.CallMatching` | src/rpc/rpc.cc:116-173 | In every run of up to 2^64 calls, a reply that settles call i is the result of the one execution of the function call i named, on call i's arguments |
| `Rpc.SettledOnce` | src/rpc/rpc.h:479-487 | Every call made is pending or settled, not both, and no callback is called twice |
| `RpcEndings.DisconnectSettlesAll` | src/rpc/rpc.cc:224-234 | Right after the user's disconnect every call made so far is settled |
| `RpcEndings.NoReplyAfterDisconnect` | src/rpc/rpc.cc:224-234 | In every run after a disconnect no reply settles anything, even if bytes still arrive, because the table was cleared and later calls are not sent |
| `RpcEndings.LostConnectionLeavesPending` | src/rpc/rpc.cc:276-280 | After the connection is lost from outside, a pending call whose reply is not under way stays pending if and only if the user does not disconnect |
| `RpcEndings.UnknownNameHangs` | src/rpc/rpc.cc:158-171 | In every run a call to a name that is not registered is never answered, and stays pending as long as the user does not disconnect |
| `RpcEndings.ClosesOnUnknown` | src/rpc/rpc.cc:167-171 | In every run the server has marked the connection for closing exactly when it has taken a call to a name that is not registered |
| `RpcEndings.RefusedCallPends` | src/rpc/rpc.cc:158-171 | Every call to such a name can end with the connection gone, nothing under way and the call pending |
| `RpcProgress.AnswersSettle` | src/rpc/rpc.cc:240-274 | In every run, in whatever order calls are answered, an answer written to the stream is still on it or its call is settled, and unless the user disconnected it is settled by that answer |
| `RpcProgress.AllAnswered` | src/rpc/rpc.cc:116-173 | On a connection still up, whenever nothing is under way or left to do, a call has been settled if and only if its name is registered |
| `RpcProgress.CanBeAnswered` | src/rpc/rpc.cc:116-274 | From every state reached without a disconnect on a connection still up, every call to a registered name can be answered, however many others are pending |
| `Rpc.InvHolds` | src/rpc/rpc.cc:136-274 | The bytes under way spell the messages not yet taken; requests are taken in order and executed at most once; every result under way is that of an execution; once the user has disconnected only calls never sent are pending |
| `RpcStore.RpcClient.Call` | src/rpc/rpc.h:488-496 | Until ids wrap around, the new call is the only one to wait under its id, and every call made still waits or has been settled once |
| `RpcStore.RpcClient.OnReceive` | src/rpc/rpc.cc:240-274 | The drain loop handles exactly the replies completed by the chunk, in order; none of them leaves its call waiting, and every call still waits or has been settled once |
| `RpcStore.RpcClient.Abort` | src/rpc/rpc.cc:224-234 | Every pending callback is aborted once, the table is empty and every call made is settled |
| `RpcStore.ServerConnection.OnReceive` | src/rpc/rpc.cc:136-173 | The drain loop queues exactly the registered calls completed by the chunk and marks the connection for closing on an unknown name |
| `BlockStore.After` | src/blockstore/fileblockstore.cc:60-169 | In every reachable state, after successful and failed puts alike, the filter's bytes are those built from scratch from the block set |
| `BlockStore.IndexOfMore` | src/blockstore/fileblockstore.cc:88-89 | Adding one name to the filter gives what a rebuild with that name gives, in any order |
| `BlockStore.NoFalseNegatives` | src/blockstore/fileblockstore.cc:88-89 | No name in the block set is ever denied by the filter |
| `BlockStore.IndexMatchesDirectory` | src/blockstore/fileblockstore.cc:60-169 | The block set matches the visible files throughout a run exactly when every operation meets a condition on its arguments, the state before it and what the system calls answer: a put that opens the file succeeds on a visible name, or fails on a hidden or already indexed one; a rebuild can list the directory |
| `BlockStore.OrdinaryRunsAgree` | src/blockstore/fileblockstore.cc:60-169 | With full-size puts of visible names, complete writes and listable directories, block set and visible files agree throughout and getBlock returns the bytes last put and not removed |
| `BlockStore.GetReturnsLastPut` | src/blockstore/fileblockstore.cc:94-111 | When every put that opens its file succeeds, getBlock returns the bytes last put and not removed |
| `BlockStore.FailedPutClobbers` | src/blockstore/fileblockstore.cc:66-81 | A put that fails after opening the file reports failure, leaves the index, and what is read back is the part written or nothing |
| `BlockStore.FirstPutsSucceed` | src/blockstore/fileblockstore.cc:60-92 | On a store opened with n free blocks, of any full-size puts whose opens and writes work exactly the first n report success, getBlock returns the bytes last put by those, and the total is n plus the files whose name does not start with a dot |
| `BlockStore.PutSucceedsExactly` | src/blockstore/fileblockstore.cc:60-92 | When a put reports success, in terms of free blocks, name, sizes and system calls, and which failing puts change nothing |
| `BlockStore.GetMeans` | src/blockstore/fileblockstore.cc:94-111 | getBlock returns the longest beginning of the file that fits in one block, and nothing for an empty, missing or unreadable file |
| `BlockStore.PutThenRemove` | src/blockstore/fileblockstore.cc:113-122 | A block that was put can be removed once, is gone then, and other blocks stay |
| `BlockStore.RebuildMeans` | src/blockstore/fileblockstore.cc:142-169 | A rebuild indexes the listed names that do not start with a dot and takes the free blocks from the file system, none if that fails |
| `BlockStore.PutsKeepTotal` | src/blockstore/fileblockstore.cc:86-87 | No run of puts, successful or not, changes the total number of blocks |
| `BlockStore.UsedCountsBlocks` | src/blockstore/fileblockstore.cc:86-89 | In every run the used counter is off by the number of overwrites since the last rebuild, modulo 2^32, so it counts the block set exactly when that number is 0 modulo 2^32 |
| `FileBlockStore.FileBlockStore.PutBlock` | src/blockstore/fileblockstore.cc:60-92 | Result, directory, index and counters are those of Put |
| `FileBlockStore.FileBlockStore.RemoveBlock` | src/blockstore/fileblockstore.cc:113-122 | On success the file is gone and the index rebuilt; otherwise nothing changes |
| `FileBlockStore.FileBlockStore.RegenerateBloomFilterAndBlockSet` | src/blockstore/fileblockstore.cc:142-169 | Whatever the listing order, index and counters are those of Regenerate, and the free blocks are those the file system reports |
| `RemoteBlockStore.NamesAreDistinct` | src/blockstore/remoteblockstore.h:111-115 | Generated names are injective in operation and store number, for all 64-bit numbers |
| `RemoteBlockStore.TableIsRight` | src/blockstore/remoteblockstore.h:124-148 | After any registrations a name leads to its operation on the store last registered under its number, and to nothing for other numbers |
| `RemoteBlockStore.CallRoundTrip` | src/blockstore/remoteblockstore.h:64-148 | Under a registered number the server finds the store and the question as asked, and the proxy returns whether the put or removal succeeded, the block that getBlock returns, or the block size, free blocks, or free and used blocks together; under another number the server finds nothing |
| `RemoteSession.RemoteSimulatesLocal` | src/blockstore/remoteblockstore.h:155-257 | In every run over the RPC system, with other callers on the same stores, a reply to a call means that exactly one operation was carried out for it, on the store registered under the proxy's number and as asked, and the proxy returns what that operation returns on the store used locally and alone |
| `RemoteReads.ReadYourWrites` | src/blockstore/remoteblockstore.h:168-201 | In every session, after a put or removal answered with success, a later readable get of that name through the same number returns the bytes put, or nothing after a removal, if nobody else put or removed it on that store in between |
| `RemoteReads.AnswersMean` | src/blockstore/remoteblockstore.h:168-225 | In every session an answer is that of putBlock, removeBlock or getBlock on the store as it was when the operation took place, which leaves it as they do, or its unchanging block size, its free blocks, or its free and used blocks |
| `RemoteSession.StoresStandAlone` | src/blockstore/remoteblockstore.h:118-148 | In every such run each store is what its own operations, carried out locally and alone in the order of the log, make of it |
| `RemoteSession.AnsweredFirst` | src/blockstore/remoteblockstore.h:168-201 | If one call was answered before another was made, its operation was carried out first |
| `RemoteSession.UnregisteredHangs` | src/rpc/rpc.cc:158-171 | A question through a number that is not registered changes no store and is never answered; it is pending as long as the user does not disconnect, and aborted it yields false, no block or zero |
| `RemoteSession.AlwaysServable` | src/rpc/rpc.cc:128-134 | A request that waits at the server can be executed, whatever the system calls behind it answer |
| `RemoteSession.SessionIsRpcRun` | src/rpc/rpc.h:479-532 | Every session is a run of the RPC system, so what holds of those holds of sessions |
| `Packing.HostExists` | src/rpc/rpc.h:76-100 | A concrete packing of arguments and results loses nothing, so servers as assumed exist for any registrations |
| `RemoteBlockStore.RemoteFilterOnlyWhenEmpty` | src/blockstore/remoteblockstore.h:262-266 | The proxy's filter is the store's if and only if the store has no blocks |
| `Decimal.NumeralRoundTrip` | src/util/url.h:102-105 | Reading a printed number gives it back |
| `Url.RoundTrip` | src/util/url.h:73-110 | For every string whose port fits in an int, parsing the printed form of its parse gives the same URL if and only if it is not scheme http, port 80 and a host with a colon |
| `Url.PrintingLosesPort` | src/util/url.h:73-110 | `http://a:b:80/` prints as `http://a:b/`, which parses to another host and port |
| `Url.ParseWithPort` | src/util/url.h:73-100 | A text put together from scheme, host, port digits and path parses to those, valid exactly for ports 1 to 65535 and a host without a colon |
| `Url.ParseWithoutPort` | src/util/url.h:73-100 | Without a port it is 80, and without a slash the path is empty |
| `Url.ParseWithoutScheme` | src/util/url.h:73-82 | A text without "://" means what it means with "http://" in front |
| `Url.AtoiReads` | src/util/url.h:88-92 | White space is skipped, a sign honoured, the digits read and the rest ignored |
| `Url.ValidRoundTrip` | src/util/url.h:73-110 | On valid URLs parse and toString undo each other and printing is idempotent |
| `Url.EqualWhenPrintedEqual` | src/util/url.h:69-71 | On valid URLs operator== is equality of scheme, host, port and path |
| `Url.Location.DoParse` | src/util/url.h:73-100 | Assigning the fields step by step computes Parse |
| `Url.Location.Print` | src/util/url.h:102-110 | Parsing the text gives this URL back, exactly unless its scheme is http, its port 80 and its host has a colon |

## Left out

- Bloom.SixDistinctBits: seeds whose low byte is above 250 are not decided; the carry into the next byte changes two rounds at once and nothing is claimed about it.
- LruRefinement.StaleVictim: speaks of the first eviction after the heap was last in order; what a heap out of order looks like after an eviction depends on the library's sift algorithm.
- Rpc.CallMatching: beyond 2^64 calls on one connection ids repeat and nothing is claimed; the same holds for the results in `RpcEndings`, `RpcProgress`, `RemoteSession` and `RemoteReads`.
- NetworkEvents.RemovalConverges: speaks of a removal asked for when nothing else is under way; what removals lead to that cross other requests for the same member is not characterised.
- Counters without a wrap-around: the cache's 64-bit clock and the groups' int counts are unbounded numbers; the block counters wrap at 2^32 as in the code.
- Keys with a slash: the header says keys have no directory structure, so the directory is a map from plain names; keys with embedded NUL reach the file system truncated and are not treated.
- Url.RoundTrip: ports beyond the range of int, on which atoi is not defined, are excluded, and NUL characters in URLs are not treated.
- TCP sockets, the event manager, futures, threads and object lifetimes; a queued task is taken to run once, so a callback handed to the thread pool counts as called, and a disconnected socket is taken to send nothing more.
- The msgpack byte format: the message format is any that recognises a complete message by itself, and the packing of arguments and results any that loses nothing.
- File descriptors left open by failing puts, `FileBlockStore::next`, and the computation of free space.
- `ServiceNode::create`, shutdown and destructors, and the removal of a lost peer's group members, which is not implemented.
- The block store daemon, whose placement functions are stubs, and the designs in the repository's README that are not implemented.
- The false-positive rate of the Bloom filter.
