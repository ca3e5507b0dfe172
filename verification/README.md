# CMX block store, verified

A Dafny model of the CMX agent: the KV block store that every node runs, and the distributed parts
next to it. The store keeps fixed-size blocks in one memory pool, finds them through an index from
16-byte prefix hash to block location, and evicts in least-recently-used order. Around it sit the gRPC
handlers, the memory pressure monitor, the consistent-hash ring, the index of blocks on other nodes
replayed from etcd, and the prefix matching of the vLLM connector.

The store is modelled twice.

* Sequentially, as classes that update their fields in place (`Lru`, `Index`, `Pool`, `Allocator`,
  `Service`), each method proved against a function on values, down to the bytes of the pool. `Service`
  carries the history of its accepted requests, and what clients read is proved of every history.
* Concurrently, as two step machines. `IndexProtocol` is the index alone; `AgentProtocol` is the whole
  agent over it. Each `DashMap` call, each locked section, each atomic fetch and each copy into or out
  of block memory is one step, and any number of requests interleave. Results about runs hold for every
  trace. The records of block owners and generations in `AgentProtocol` only watch: no step reads them.

The two are one: any sequence of requests that run one after another is a run of the concurrent agent and
leaves it exactly as the sequential cache says (`SequentialIsRun`). `CacheClient` states what a client may
rely on in terms of requests and answers alone.

| file | modules | models |
|---|---|---|
| Bytes.dfy, Lists.dfy, Traces.dfy | Bytes, Hex, Lists, Traces | integers, byte order, keys, hex strings; inductive lists; runs |
| BlockFormat.dfy | BlockFormat | the 24-byte block header and the block around it |
| Lru.dfy | LruPolicy | the slab-backed intrusive LRU list |
| BlockIndex.dfy | IndexModel, IndexRuns, BlockIndex | the index in sequential use |
| IndexProtocol.dfy, KeyLog.dfy, IndexAlone.dfy | IndexProtocol, KeyLog, IndexAlone | the index under concurrency, one key of it, and a call that runs alone |
| AgentProtocol.dfy, AgentMemory.dfy, AgentReads.dfy, AgentCounts.dfy, AgentAlone.dfy, Pressure.dfy, StaleGet.dfy | the same names, PressureLevels | store, get, delete and the pressure monitor under concurrency |
| MemoryPool.dfy, BlockAllocator.dfy | Memory, MemoryPool, BlockAllocator | the pool over one byte array, and the allocator |
| CacheModel.dfy, CacheService.dfy, CacheRuns.dfy, CacheClient.dfy | CacheModel, BatchModel, Requests, CacheService, CacheRuns, CacheClient | the handlers in sequential use, and their histories as a map from key to bytes |
| HashRing.dfy | RingModel, Placement, PlacementHistory, VirtualNodes, HashRing | the consistent-hash ring |
| RemoteIndex.dfy | RemoteModel, RemoteOrder, EtcdKeys, EtcdReplay, RemoteIndex | the remote index and the watch loops |
| Connector.dfy | Chunking, Connector | block hashing and the scheduler side of the vLLM connector |

## What the code does and its documentation does not say

Where code and documentation disagree the model follows the code.

* A concurrent `get` can answer with another key's bytes. The header's comment says readers compare
  generations; `read_verified` does not. `GetMayReturnAnotherKeysBytes` is a run. It takes a delete of the
  get's own key between its lookup and its answer: `GetAnswersOwnBytes` says that without one every get
  answers right. `GetAnswersExactly` says which version of the block a get answers and exactly when that is
  right, `StaleExactly` what comparing generations would tell.
* Evicted and overwritten blocks are never given back to the pool, although a comment in `store` says
  the LRU frees them. `DroppedForGood` and `UsedBalance` state the leak, `OneKeyFillsThePool` what it
  comes to.
* With the index as large as the pool, as `main` wires it, no store ever evicts (`NeverEvicts`): the
  pool runs out first.
* An insert that writes a key while a remove of that key is between its two halves can leave the key
  stranded: in the map, unknown to the LRU, out of reach of eviction (`OverlapStrands`). It stays so until
  the key is looked up, stored or removed (`StrandedExactly`). `RemoveStrands` says exactly when a remove
  strands its key, by what happened to the key since the remove's first half, and `SizeBoundAlways` what
  stranded keys cost.
* A store can be evicted as soon as it is made: an evictor that popped the key earlier unmaps the new
  entry, and the LRU is left with a key that is not in the map (`FreshStoreIsEvicted`,
  `EvictsLatestStore`, `OutsideByLog`).
* `delete` takes no model id and looks up the bare hash, so it reaches what a store with a model wrote
  only by a hash collision (`DeleteNamesStoredKey`).
* With tokens already computed, the vLLM connector's load tasks hash the prompt from its start while its
  lookup hashes from the first uncomputed token (`WrongBlockLoaded`, `LoadsTheHitsExactly`).
* Two nodes whose virtual nodes collide make the ring depend on the order of joins, and only those
  (`OrderMatters`).

## Premises

CRC-32 and SHA-256 are parameters, so every result holds for any function in their place; collision
freedom is a named hypothesis where it is needed (`CollisionFree`, `NoCollision`, `Tells`). Block size is at least 24
bytes and at most 2^32 + 23, the pool has at most 2^32 blocks, so that block numbers survive the cast to
32 bits, and the pool's id is 0, the value the handlers write into block handles. Results about
generations hold until the 64-bit counter wraps (`nextGen <= WRAP`). Thresholds and usage are reals. Hashes are 16 bytes, and `KeyOf` turns them into
the integers the index is keyed by; it is injective.

## Model

| member | source | states |
|---|---|---|
| Bytes.KeyOfInjective | crates/cmx-agent/src/grpc.rs:65-69 | different 16-byte hashes are different keys |
| Bytes.LEByte | crates/cmx-block-store/src/block.rs:53-60 | integers are stored low byte first |
| BlockFormat.HeaderRoundTrip | crates/cmx-block-store/src/block.rs:53-72 | whatever the four padding bytes hold and whatever follows, reading a written header gives it back |
| BlockFormat.HeaderLayout | crates/cmx-block-store/src/block.rs:14-26 | checksum at byte 0, generation at 8, data size at 16, zeros at 20 |
| BlockFormat.ReadsExactly | crates/cmx-block-store/src/allocator.rs:66-87 | a block reads as given data exactly when its size and checksum fields, at their places, are those of the data and the data follows byte 24 |
| BlockFormat.WriteThenRead | crates/cmx-block-store/src/allocator.rs:48-86 | header then data written over any old contents read back as the data if and only if the length survives the cast to 32 bits |
| BlockFormat.ViewIsExact | crates/cmx-block-store/src/allocator.rs:47-86 | the two copies and the verified read do to a block's bytes exactly what they do to the pair of header and body used by the concurrent model |
| LruPolicy.Lru.Structure | crates/cmx-block-store/src/eviction.rs:12-51 | in every state the forward and the backward walk along the links give one duplicate-free recency order, live and free slots partition the slab, the hash index holds exactly the live keys, and the slab is as long as the largest number of keys ever live |
| LruPolicy.Lru.Touch | crates/cmx-block-store/src/eviction.rs:54-66 | the key moves to, or enters, the front of the recency order and all others keep their order; the peak grows only when the number of keys passes it |
| LruPolicy.Lru.Remove | crates/cmx-block-store/src/eviction.rs:69-75 | exactly the key leaves the order, and an unknown key changes nothing |
| LruPolicy.Lru.EvictLru | crates/cmx-block-store/src/eviction.rs:78-86 | the last key of the order leaves and is returned; nothing on an empty list |
| LruPolicy.Lru.AllocEntry | crates/cmx-block-store/src/eviction.rs:105-122 | a free slot is reused before the slab grows |
| LruPolicy.Lru.Unlink | crates/cmx-block-store/src/eviction.rs:124-142 | taking a slot out of the chain leaves a sound chain of the others, at the head, in the middle and at the tail |
| LruPolicy.Lru.PushFront | crates/cmx-block-store/src/eviction.rs:144-157 | the slot becomes the head of a sound chain |
| IndexModel.InsertAgrees | crates/cmx-block-store/src/index.rs:48-74 | an insert keeps map and recency in agreement, evicts nothing on an update and otherwise exactly the excess, keeps all other entries, and never passes max(capacity, 1) |
| IndexModel.RoomMade | crates/cmx-block-store/src/index.rs:58-67 | the eviction loop removes exactly max(0, len + 1 - capacity) entries, at most all, from both structures |
| IndexRuns.RunSound | crates/cmx-block-store/src/index.rs:39-81 | after any sequence of lookups, inserts and removes the map's keys are the LRU's keys, the size bound holds, recency is the order of last use, and every entry is the last one inserted for its key |
| IndexRuns.EvictsOldest | crates/cmx-block-store/src/index.rs:57-72 | after any run an insert evicts exactly the keys whose last lookup or insert is oldest, oldest first, and no more than it must |
| BlockIndex.Index.Lookup | crates/cmx-block-store/src/index.rs:39-44 | returns the entry and touches its key; a miss changes nothing |
| BlockIndex.Index.Insert | crates/cmx-block-store/src/index.rs:48-74 | the two fields become the specification's insert, and the returned keys are its victims in order |
| BlockIndex.Index.MakeRoom | crates/cmx-block-store/src/index.rs:58-67 | the loop, `break` included, makes room as specified and returns the victims in order |
| BlockIndex.Index.Remove | crates/cmx-block-store/src/index.rs:77-81 | the key leaves map and LRU and its entry is returned |
| IndexProtocol.MapKeysAreTracked | crates/cmx-block-store/src/index.rs:39-81 | in every interleaving in which no insert writes a key during a remove of it, a key in the map and not in the LRU is held by an inserter before its touch or an evictor before its removal; with no call in flight every map key is evictable |
| IndexProtocol.RemoveFreeRuns | crates/cmx-block-store/src/index.rs:39-74 | runs of lookups and inserts alone meet that side condition |
| IndexProtocol.SizeBoundAlways | crates/cmx-block-store/src/index.rs:48-81 | in every run, with at most n inserts in flight at any time, the keys in the map or past the capacity check number at most capacity - 1 + n plus the most keys stranded at once so far |
| IndexProtocol.SizeBound | crates/cmx-block-store/src/index.rs:48-74 | without such an overlap no key is ever stranded, and the bound is capacity - 1 + n, runs that leave the loop through `break` included |
| KeyLog.LogTells | crates/cmx-block-store/src/index.rs:39-81 | in every run the writes, touches, pops and removals of a key since any earlier point decide its entry, whether the LRU tracks it and which calls are about to change either |
| KeyLog.StrandedByLog | crates/cmx-block-store/src/index.rs:39-81 | a key is stranded if and only if its last write stands, its last touch does not, and every call that wrote or popped it has done its other half |
| KeyLog.RemoveStrands | crates/cmx-block-store/src/index.rs:77-81 | a remove strands its key if and only if since its first half the key was written and not taken out again, every writer has touched it and every evictor that popped it has unmapped it |
| KeyLog.StrandedExactly | crates/cmx-block-store/src/index.rs:39-81 | only the second half of a remove strands a key, and only a lookup, a store or a remove of the key ends it |
| KeyLog.OutsideByLog | crates/cmx-block-store/src/index.rs:39-81 | the LRU holds a key outside the map if and only if it was touched since it last left the LRU and left the map since it was last written |
| KeyLog.OutsideExactly | crates/cmx-block-store/src/index.rs:57-72 | the steps that put a key there, an unmapping or removal of a tracked key or a touch of an unmapped one, and the steps that end it |
| KeyLog.EvictsLatestStore | crates/cmx-block-store/src/index.rs:59-63 | an evictor drops the entry of the latest store made since its pop, or else the entry the key had at the pop |
| KeyLog.FreshStoreIsEvicted | crates/cmx-block-store/src/index.rs:57-72 | a run without removes in which a completed store is evicted at once and the LRU ends with a key that is not in the map |
| IndexProtocol.OverlapStrands | crates/cmx-block-store/src/index.rs:48-81 | a run with one insert at a time that ends quiet with two entries in an index of capacity 1, one of them unknown to the LRU |
| IndexAlone.AloneIsRun | crates/cmx-block-store/src/index.rs:39-81 | a call that finishes undisturbed is one of the protocol's runs |
| IndexAlone.LookupAlone | crates/cmx-block-store/src/index.rs:39-44 | a lookup that runs alone does what the sequential lookup does |
| IndexAlone.InsertAlone | crates/cmx-block-store/src/index.rs:48-74 | an insert that runs alone does what the sequential insert does, eviction loop included |
| IndexAlone.RemoveAlone | crates/cmx-block-store/src/index.rs:77-81 | a remove that runs alone does what the sequential remove does |
| AgentProtocol.StepOwned | crates/cmx-agent/src/grpc.rs:224-418 | every step of every handler keeps the free list, the handlers in flight and the index entries in exact agreement about who has which block |
| AgentProtocol.EveryBlockInOnePlace | crates/cmx-agent/src/grpc.rs:272-282 | in every interleaving each block is in exactly one of free list, one store or delete in flight, one index entry, or dropped; no two requests hold it and no two keys share it |
| AgentProtocol.NoDoubleFree | crates/cmx-agent/src/grpc.rs:396-407 | a delete about to free a block is the only one to have it, and it is a block of the pool that is neither free nor indexed |
| AgentProtocol.UsedBlocks | crates/cmx-memory/src/pool.rs:253-264 | at every moment used blocks are the blocks held in flight plus the index entries plus the dropped blocks |
| AgentProtocol.DroppedForGood | crates/cmx-agent/src/grpc.rs:279-285 | a block evicted or overwritten is never handed out, indexed or freed again |
| AgentProtocol.NeverEvicts | crates/cmx-agent/src/main.rs:136-138 | with at least as much index capacity as pool blocks no run evicts: no call ever reaches the eviction step and the eviction count stays 0 |
| AgentProtocol.ProjectsToIndexRun | crates/cmx-agent/src/grpc.rs:280-282 | seen from the index every agent run is a run of the index protocol, with no more overlaps, inserts in flight or stranded keys |
| AgentProtocol.AgentKeysAreTracked | crates/cmx-agent/src/grpc.rs:280-282 | in runs with deletes that do not overlap a write of the same key, whenever no index call is in flight every indexed key is tracked by the LRU |
| AgentProtocol.DeleteFreeRuns | crates/cmx-agent/src/grpc.rs:280-282 | runs without deletes have no overlap |
| AgentProtocol.AgentSizeBound | crates/cmx-agent/src/grpc.rs:280-282 | the size bound inside the agent, for every run and without overlap |
| AgentMemory.StepConsistent | crates/cmx-block-store/src/allocator.rs:30-87 | every step keeps every block's header and data those of the generation it carries, and every location in flight that of a completed write |
| AgentMemory.IndexedBlocksRead | crates/cmx-block-store/src/allocator.rs:66-87 | in every interleaving the block of every index entry reads, with a valid checksum, as the bytes of the store that made the entry |
| AgentMemory.NoAccessOutOfBounds | crates/cmx-block-store/src/allocator.rs:47-86 | in every run no handler ever reaches a write, a checksum or a copy outside its block |
| AgentMemory.GetReturnsStoredBytes | crates/cmx-agent/src/grpc.rs:325-385 | whatever else runs, a get whose block still carries the location's generation at the end has returned exactly the bytes stored at its location |
| AgentReads.ReadsOneVersion | crates/cmx-block-store/src/allocator.rs:66-87 | a get whose block is not written from its first read to its last answers the block as it was at the first |
| AgentReads.BlockAtRead | crates/cmx-block-store/src/allocator.rs:66-87 | the block a get comes to read carries the location's generation if and only if it was not rewritten since the lookup, and when complete reads as the bytes of the generation it carries |
| AgentReads.GetAnswersExactly | crates/cmx-agent/src/grpc.rs:331-373 | a get undisturbed from its first read to its last answers its own version if and only if the block was not rewritten between lookup and read, and answers right if and only if the version it read has the bytes stored under its key |
| AgentReads.EveryGetLooked | crates/cmx-agent/src/grpc.rs:325-341 | every get in flight began with a lookup that found its key at its location, and has not ended since |
| AgentReads.GetAnswersOwnBytes | crates/cmx-agent/src/grpc.rs:325-385 | whatever else runs, and even if its block is dropped meanwhile, a get answers the bytes of the store its lookup found, as long as no delete of its own key is requested between the lookup and the answer |
| AgentCounts.EvictionsCounted | crates/cmx-agent/src/grpc.rs:280-285 | in every run the eviction counter is the number of victims of the inserts that have ended, and an insert in flight has counted its own |
| AgentCounts.LocationsAreWhole | crates/cmx-block-store/src/allocator.rs:52-62 | in every run every location, indexed or in flight, is a whole block at its number times the block size, so reading at the offset is reading the block |
| AgentAlone.StoreAlone | crates/cmx-agent/src/grpc.rs:271-282 | a store that runs alone does to index, free list and block bytes exactly what the sequential store does |
| AgentAlone.StoreFails | crates/cmx-block-store/src/allocator.rs:30-45 | a store of too much data, or without a free block, leaves the agent as it was |
| AgentAlone.GetAlone | crates/cmx-agent/src/grpc.rs:331-373 | a get that runs alone answers what the sequential get reads and touches the key as it does |
| AgentAlone.DeleteAlone | crates/cmx-agent/src/grpc.rs:396-407 | a delete that runs alone does what the sequential delete does |
| AgentAlone.GetFollows | crates/cmx-agent/src/grpc.rs:325-385 | after any sequence of requests a get that runs alone answers the bytes of the key's last accepted store, or finds nothing exactly when it was never stored or was deleted or evicted since |
| AgentAlone.SequentialIsRun | crates/cmx-agent/src/grpc.rs:224-418 | any sequence of requests, one after another, is one of the concurrent runs and leaves exactly the sequential cache of its history |
| AgentMemory.StaleExactly | crates/cmx-block-store/src/allocator.rs:30-87 | a location saved at any time is stale if and only if the header generation now in memory differs from its own; while they agree the block reads as the bytes written for it |
| StaleGet.GetMayReturnAnotherKeysBytes | crates/cmx-agent/src/grpc.rs:331-373 | for any checksum, pool, keys and byte strings, a run in which a get of one key answers the bytes of another |
| PressureLevels.ClassifyExactly | crates/cmx-agent/src/pressure.rs:38-46 | the level is 3 exactly when usage has reached the reject threshold, and with thresholds in order at least 1 or 2 exactly from the others on |
| Pressure.RejectIsForever | crates/cmx-agent/src/pressure.rs:31-48 | in runs without deletes neither used blocks nor the published level ever fall, and once the level is REJECT every later store is refused |
| Pressure.RefusedExactly | crates/cmx-agent/src/pressure.rs:31-48 | in runs without deletes the level is the highest whose threshold a published usage has reached, however long ago, and a store is refused exactly when one has reached the reject threshold |
| Memory.SpliceBlock | crates/cmx-memory/src/pool.rs:203-245 | block slices are disjoint: writing inside one block changes it at the same offset and no other |
| Memory.OffsetIsProduct | crates/cmx-memory/src/pool.rs:159 | block offsets are multiples of the block size |
| MemoryPool.Pool.New | crates/cmx-memory/src/pool.rs:85-153 | succeeds if and only if the block size is positive and divides a positive total and the mapping succeeds; otherwise names the error; all blocks start free and zeroed, highest first out |
| MemoryPool.Pool.Allocate | crates/cmx-memory/src/pool.rs:156-166 | pops the block last freed, its number cast to 32 bits and its offset not, or nothing from an empty pool |
| MemoryPool.Pool.Deallocate | crates/cmx-memory/src/pool.rs:181-196 | pushes the block back, even twice |
| MemoryPool.Pool.Write | crates/cmx-memory/src/pool.rs:241-245 | copying into the slice at a handle's offset changes those bytes of its block and nothing else in the region |
| MemoryPool.Pool.Slice | crates/cmx-memory/src/pool.rs:220-225 | the slice at a handle's offset is the bytes of its block |
| MemoryPool.Pool.Stats | crates/cmx-memory/src/pool.rs:253-264 | used and free blocks and bytes, saturating at zero |
| BlockAllocator.Allocator.AllocateAndWrite | crates/cmx-block-store/src/allocator.rs:30-62 | fails without effect exactly when the data does not fit or the pool is empty; otherwise the block handed out holds the data under the drawn generation, the counter steps and wraps, and every other block is untouched |
| BlockAllocator.Allocator.ReadVerified | crates/cmx-block-store/src/allocator.rs:66-87 | at the handle's offset, header, bounds and checksum decide what is read, and nothing else does |
| BlockAllocator.Allocator.Deallocate | crates/cmx-block-store/src/allocator.rs:90-92 | the block goes back to the pool and memory stays as it is |
| Requests.AnySplit | crates/cmx-agent/src/grpc.rs:255-267 | however the data is cut into chunks, with empty messages in between, the same bytes are stored |
| Requests.PayloadExactly | crates/cmx-agent/src/grpc.rs:255-267 | the messages after a header give exactly the data they carry, or the error of the first broken read or second header |
| Requests.RequestedExactly | crates/cmx-agent/src/grpc.rs:241-267 | a store asks for the data its messages carry, under the key of its header, and each way a stream can be refused has its error |
| Requests.DeleteNamesStoredKey | crates/cmx-agent/src/grpc.rs:73-84 | a delete of a hash names the key of a store if and only if the store had no model and that hash, or its truncated digest is that hash |
| Requests.SameKeyExactly | crates/cmx-agent/src/grpc.rs:73-84 | with models, two requests name one key if and only if the truncated digests of model and hash agree |
| Requests.KeysTellModels | crates/cmx-agent/src/grpc.rs:73-84 | without a collision two requests name one key if and only if they have the same model and the same hash |
| CacheModel.StoreSound | crates/cmx-agent/src/grpc.rs:271-282 | a store keeps every indexed key's block holding that key's bytes, no block shared or both free and indexed, and all blocks accounted for |
| CacheModel.StoreReplaces | crates/cmx-agent/src/grpc.rs:271-285 | to a client a store replaces the key's bytes and uses one more block, and with the index as large as the pool changes nothing else |
| CacheModel.DeleteSound | crates/cmx-agent/src/grpc.rs:396-407 | a delete keeps all that, and the freed block was the key's own |
| CacheModel.DeleteRemoves | crates/cmx-agent/src/grpc.rs:396-417 | to a client a delete removes exactly its key and frees a block exactly when the key was there |
| BatchModel.LookedEntries | crates/cmx-agent/src/grpc.rs:191-215 | no lookup of a batch changes what a later one finds |
| BatchModel.Gathered | crates/cmx-agent/src/grpc.rs:188-215 | the loop gathers the flags of independent lookups, the blocks of the keys found and their number |
| BatchModel.BlockOfKey | crates/cmx-agent/src/grpc.rs:196-208 | over an index of one-block entries the flat list splits back: the i-th key's block is at the number of earlier hits |
| CacheRuns.BatchSplits | crates/cmx-agent/src/grpc.rs:196-208 | after every run of stores, lookups and deletes the entries are such, so the flat list splits back with as many blocks as hits |
| BatchModel.LookedOrder | crates/cmx-agent/src/grpc.rs:195 | after a batch the keys found lead the recency order, last found first, and all others follow in their old order |
| CacheService.Parse | crates/cmx-agent/src/grpc.rs:244-267 | the stream gives a key and data, or the error of its first bad message |
| CacheService.Collect | crates/cmx-agent/src/grpc.rs:255-267 | the loop returns the chunks joined in order, or the first error |
| CacheService.Service.Store | crates/cmx-agent/src/grpc.rs:224-320 | refused under pressure before anything is read; refused without effect on a bad stream, too much data or an empty pool; otherwise the key's bytes are replaced, its entry names the block just written, the eviction count grows by the keys evicted, and the drawn generation is returned |
| CacheService.Service.StoreBlock | crates/cmx-agent/src/grpc.rs:271-285 | allocation and indexing together replace the key's bytes, or fail without effect exactly when the data does not fit or no block is free |
| CacheService.Service.Get | crates/cmx-agent/src/grpc.rs:325-385 | returns exactly the key's bytes, not-found exactly when there are none, and never data loss; counts a hit or a miss |
| CacheService.Service.ReadBlocks | crates/cmx-agent/src/grpc.rs:343-382 | the reply carries one block, the key's bytes, announced with the size of the whole block and its generation |
| CacheService.Service.Delete | crates/cmx-agent/src/grpc.rs:388-418 | removes the bare hash's key, frees its block and says so; reports failure for an unknown key |
| CacheService.Service.BatchLookup | crates/cmx-agent/src/grpc.rs:180-221 | the flags are those of independent lookups, the blocks those of the keys found; a malformed hash is an error after the lookups before it have touched the LRU and been counted |
| CacheService.Service.AnswersFromHistory | crates/cmx-agent/src/grpc.rs:224-418 | between any two requests clients read exactly what the history of accepted requests left, used and leaked blocks are what it says, and every indexed location is of this node and of a whole block |
| CacheService.GetFromHistory | crates/cmx-agent/src/grpc.rs:325-385 | whatever the accepted requests so far, `get` answers the bytes of the key's last accepted store in one block, announced with the pool's block size, and not-found exactly when the key was never stored or was deleted or evicted since |
| CacheService.Service.WatchPressure | crates/cmx-agent/src/pressure.rs:31-48 | a round of the monitor sets the level by the part of the pool in use |
| CacheClient.StoreThenGet | crates/cmx-agent/src/grpc.rs:224-385 | a store is accepted exactly when the level is below 3, the data fits and a block is free; then a get with the same model and hash answers the data, however it was cut, with the block size and the generation returned |
| CacheClient.GetStoreGet | crates/cmx-agent/src/grpc.rs:224-385 | a store between two gets changes the answer only if the names share a key, or to not-found if it evicts the other key, which it never does with the index as large as the pool |
| CacheClient.GetDeleteGet | crates/cmx-agent/src/grpc.rs:388-418 | a delete between two gets makes the second find nothing exactly when it names the get's key, else the answer stays; it reports a block freed exactly when there was one |
| CacheClient.BatchThenGet | crates/cmx-agent/src/grpc.rs:180-221 | a batch lookup flags a hash exactly when a get under the same model finds it, and lists its block at the number of flags set before it; one malformed hash refuses the batch |
| CacheClient.WatchThenStore | crates/cmx-agent/src/grpc.rs:229-239 | after a round of the monitor a store is refused for pressure exactly when usage has reached the reject threshold |
| CacheClient.StoreSpoilt | crates/cmx-agent/src/grpc.rs:257-266 | a stream that breaks or has a second header stores nothing and says which it was |
| CacheRuns.EntriesSized | crates/cmx-block-store/src/allocator.rs:55-61 | if every store's location is of one node and one block size, so is every indexed location |
| CacheRuns.RunSound | crates/cmx-agent/src/grpc.rs:224-418 | in every run, for every index capacity, every indexed key's block reads as the key's bytes, no block is shared or both free and indexed, and all are accounted for |
| CacheRuns.IndexFollows | crates/cmx-agent/src/grpc.rs:280-282 | the index inside a run is the index of its operations, so what is evicted is what was used longest ago |
| CacheRuns.ReadsLastStored | crates/cmx-agent/src/grpc.rs:255-418 | over every run and for every capacity, the block the index names for a key reads, through header and checksum, as the bytes of the key's last accepted store, and the index names none exactly when the key was never stored or was deleted or evicted since |
| CacheRuns.UsedBalance | crates/cmx-memory/src/pool.rs:253-264 | used blocks are stores less deletes and also keys held plus leaked; leaked blocks are overwrites plus evictions; no block is free exactly when stores exceed deletes by the number of blocks |
| CacheRuns.NothingIsEvicted | crates/cmx-agent/src/main.rs:136-138 | with the index as large as the pool no run evicts |
| CacheRuns.OneKeyFillsThePool | crates/cmx-agent/src/grpc.rs:272-285 | a run of as many stores of one key as there are blocks leaves exactly that key, if there are blocks at all, and no free block |
| Placement.WalkIsRotation | crates/cmx-agent/src/placement.rs:65-72 | the doubled walk meets owners in the order of one clockwise rotation |
| Placement.PreferredNodesAre | crates/cmx-agent/src/placement.rs:42-74 | the result has distinct owners, min(max(n, 1), number of owners) of them, the preferred node first, and a smaller n gives a prefix |
| PlacementHistory.PreferredIsNearest | crates/cmx-agent/src/placement.rs:46-52 | the preferred node owns the nearest occupied position at or after the hash, or the lowest one if there is none |
| Placement.RotationAfterLeave | crates/cmx-agent/src/placement.rs:36-39 | removing a node yields every old full list with that node filtered out |
| Placement.LeaveMovesOnlyItsOwn | crates/cmx-agent/src/placement.rs:36-53 | removing a node changes only hashes that preferred it |
| Placement.JoinMovesOnlyToIt | crates/cmx-agent/src/placement.rs:23-53 | adding a node to a non-empty ring leaves each hash where it was or moves it to the new node, with collisions and wrap-around |
| PlacementHistory.HistoryIndependent | crates/cmx-agent/src/placement.rs:23-39 | without collisions any two histories of joins, repeated joins and leaves with the same final members give the same ring |
| PlacementHistory.OrderMatters | crates/cmx-agent/src/placement.rs:27-31 | two nodes joining in either order give the same ring if and only if their virtual nodes do not collide |
| VirtualNodes.VnodeKeyInjective | crates/cmx-agent/src/placement.rs:28 | the key format tells node and number apart, whatever the name contains |
| VirtualNodes.VnodeAt | crates/cmx-agent/src/placement.rs:28-29 | virtual node i is at the hash of the node's name, a colon and the decimal numeral of i |
| VirtualNodes.CollisionFreeApart | crates/cmx-agent/src/placement.rs:28-30 | a hash without collisions on the keys used keeps all nodes apart |
| HashRing.Ring.AddNode | crates/cmx-agent/src/placement.rs:23-33 | the ring stays the one its history of joins and leaves defines; a node already there changes nothing |
| HashRing.Ring.RemoveNode | crates/cmx-agent/src/placement.rs:36-39 | the ring stays the one its history defines, and the node leaves the list |
| HashRing.Ring.PreferredNode | crates/cmx-agent/src/placement.rs:42-53 | the owner of the first position at or after that of the hash's hex string, wrapping around; none on an empty ring |
| HashRing.Ring.PositionIs | crates/cmx-agent/src/placement.rs:46 | a prefix hash is placed at the hash of its 32 lower-case hexadecimal digits |
| HashRing.Ring.PositionsTell | crates/cmx-agent/src/placement.rs:46 | if their hex strings do not collide, two prefix hashes have one position only if they are equal |
| HashRing.Ring.PreferredNodes | crates/cmx-agent/src/placement.rs:56-74 | the loop returns the first max(n, 1) owners of one rotation |
| RemoteModel.LatestPutWins | crates/cmx-agent/src/remote_index.rs:34-60 | after any interleaving of puts, deletes and departures there is an entry for (hash, node) if and only if the latest event touching the pair was a put, with its data; no list is empty and no node appears twice |
| RemoteOrder.FirstIsOldest | crates/cmx-agent/src/grpc.rs:128-137 | the node a remote lookup names is, of all that have the block, the one that has had it longest without a break |
| RemoteIndex.Index.Lookup | crates/cmx-agent/src/remote_index.rs:29-31 | finds a key exactly when it is there, and then a list that is not empty |
| RemoteIndex.Index.Insert | crates/cmx-agent/src/remote_index.rs:34-46 | one put event: replaces the node's entry or appends one |
| RemoteIndex.Index.Remove | crates/cmx-agent/src/remote_index.rs:49-51 | one delete event |
| RemoteIndex.Index.RemoveNode | crates/cmx-agent/src/remote_index.rs:54-60 | one departure event: the node's entries go, and lists left empty go with them |
| RemoteIndex.Index.WatchBlocks | crates/cmx-agent/src/metadata.rs:244-296 | the loop applies each event that decodes, in order, and skips the others |
| RemoteIndex.Index.WatchNode | crates/cmx-agent/src/metadata.rs:309-330 | a join reaches the ring; a departure leaves neither remote blocks nor ring positions of the node |
| EtcdKeys.PublishIs | crates/cmx-agent/src/metadata.rs:122 | a block is published under the prefix and its 32 lower-case hexadecimal digits |
| EtcdKeys.PublishRoundTrip | crates/cmx-agent/src/metadata.rs:252-262 | encoding, prefixing, trimming and decoding give back the same 16 bytes |
| RemoteIndex.NodeKeyRoundTrip | crates/cmx-agent/src/metadata.rs:63 | the name read from the key a node registers under is the node's, if and only if the name does not itself start with the prefix |
| EtcdKeys.DecodesHex | crates/cmx-agent/src/metadata.rs:252-262 | a key with the block prefix and hexadecimal digits of either case reads as their 16 bytes, and as nothing if they are not 16 |
| EtcdKeys.RepeatedPrefixDecodes | crates/cmx-agent/src/metadata.rs:254 | a key with the prefix repeated decodes like the key without |
| EtcdReplay.CommitAgrees | crates/cmx-agent/src/metadata.rs:264-282 | each change of a well-formed log, on a block key or on any other, keeps index and etcd in agreement |
| EtcdReplay.BadValueSkipped | crates/cmx-agent/src/metadata.rs:264-282 | a value that does not decode leaves the index as it is |
| EtcdReplay.ReplayFromEmpty | crates/cmx-agent/src/metadata.rs:244-296 | replaying any well-formed log, other keys included, from an empty etcd gives an index with exactly etcd's keys, each listing etcd's current value |
| Chunking.JoinChunks | python/cmx-client/src/cmx_client/hashing.py:28-29 | splitting into blocks loses and reorders nothing |
| Chunking.FirstChunks | python/cmx-client/src/cmx_client/hashing.py:28-29 | the first m blocks are the blocks of the first m times block-size tokens |
| Connector.PackDecodes | python/cmx-client/src/cmx_client/hashing.py:30 | four bytes a token, its value modulo 2^32 with the low byte first |
| Connector.PackInjective | python/cmx-client/src/cmx_client/hashing.py:30 | different blocks of 32-bit tokens are hashed from different bytes |
| Connector.HashOutcome | python/cmx-client/src/cmx_client/hashing.py:27-32 | which inputs fail and how, and that there is one hash for each started block |
| Connector.HashIsOfItsTokens | python/cmx-client/src/cmx_client/hashing.py:28-32 | hash i is the truncated digest of exactly the tokens from i times the block size on, four bytes each, low byte first |
| Connector.HashesTellPrompts | python/cmx-client/src/cmx_client/hashing.py:13-33 | without a collision of truncated digests two prompts have equal hashes if and only if they are equal |
| Connector.HashTokenIds | python/cmx-client/src/cmx_client/hashing.py:13-33 | the loop hashes the blocks in order; a zero block size or a token outside 32 bits is an error, a negative block size gives nothing |
| Connector.GetNumNewMatchedTokens | python/cmx-vllm/src/cmx_vllm/connector.py:109-148 | the leading hits of the lookup times the block size, or 0 with nothing to check |
| Connector.Request.UpdateStateAfterAlloc | python/cmx-vllm/src/cmx_vllm/connector.py:150-176 | appends one task for each block of the first tokens, with its slice of block ids and its token count, and keeps earlier tasks |
| Connector.LoadsTheHits | python/cmx-vllm/src/cmx_vllm/connector.py:120-176 | with nothing computed load task i carries hash i, which is cached, with its own slice of block ids, for exactly the leading hits; the ids joined are the first ids given, the tokens add up to the count returned, and it exceeds the prompt by less than a block |
| Connector.LoadsTheCount | python/cmx-vllm/src/cmx_vllm/connector.py:159-176 | the load tasks for the first tokens of a prompt have that many tokens together |
| Connector.MatchThenLoad | python/cmx-vllm/src/cmx_vllm/connector.py:109-176 | the two calls of the scheduler leave one new load task for each leading hit, in order, with its hash and its block ids, after the old ones |
| Connector.LoadsTheHitsExactly | python/cmx-vllm/src/cmx_vllm/connector.py:124-176 | with tokens computed the count returned is the leading hits after them, and the load tasks carry the leading hits if and only if the prompt, as far as the count returned, reads the same from its start and from the first uncomputed token |
| Connector.WrongBlockLoaded | python/cmx-vllm/src/cmx_vllm/connector.py:124-163 | one token computed and one cached: its load task names the block already there, which the lookup did not find |

## Left out

- Atomicity inside a `DashMap` call: every map call is one step, including `len()`, which the library computes shard by shard.
- Memory ordering: atomics are sequentially consistent, and a copy into or out of block memory is one step, so reads of half-written data are not modelled; reads between the header and the data copy are.
- `lookup` as a request: its local half is the index lookup; its answer from the remote index and the ring's suggestion, which is only logged, are left out.
- The streaming of replies: `get` is modelled up to the data it sends, not the channel it sends it through.
- The clock, metrics, tracing and health: `createdAt` is a parameter, the rest is left out.
- mmap, mlock, raw memory access and NUMA: the region is one byte array, and whether `mmap` succeeds is a parameter.
- The `DashMap` and `HashMap` are maps and the `BTreeMap` a sorted list; free lists are inductive lists, not `Vec`s.
- The etcd client, leases and keepalive, and the JSON of block descriptions: values arrive decoded or undecodable, keys as strings; publishing after a store is left out.
- Etcd events about nodes are taken one at a time; the ring's read-write lock is left out.
- The worker side of the vLLM connector, its event loop and its extraction of block ids: the ids are a parameter.
- Negative numbers of computed tokens, which Python would take as counted from the end.
- Transport, RDMA, GPU and NIXL bindings, configuration loading, other Python clients: thin or external.
