/**
 The agent's request handlers (grpc.rs) in sequential use, proved against `CacheModel`: over any
 sequence of calls they are a plain map from composite key to bytes.
 */
module Requests {
  import opened Bytes

  datatype Status = InvalidArgument | ResourceExhausted | NotFound | DataLoss | Transport
  type Outcome<+T> = Result<T, Status>

  /** `StoreRequest` as it arrives; `Broken` is a failed read of the stream. */
  datatype Message =
    | HeaderMsg(model: seq<byte>, hash: seq<byte>, totalSize: nat)
    | DataMsg(chunk: seq<byte>)
    | NoPayload
    | Broken

  datatype Stream = End | Next(message: Message, rest: Stream)

  datatype Write = Write(key: Key, data: seq<byte>)

  function ParseHash(bytes: seq<byte>): Outcome<Hash> {
    if |bytes| == 16 then Ok(bytes) else Err(InvalidArgument)
  }

  function CompositeKey(sha: Sha, model: seq<byte>, hash: Hash): Key {
    if model == [] then KeyOf(hash) else KeyOf(sha(model + hash)[..16])
  }

  function Prepend(data: seq<byte>, r: Outcome<seq<byte>>): Outcome<seq<byte>> {
    if r.Ok? then Ok(data + r.value) else r
  }

  /** The data of the messages after the header. */
  function Payload(ms: Stream): Outcome<seq<byte>> {
    match ms
    case End => Ok([])
    case Next(DataMsg(chunk), rest) => Prepend(chunk, Payload(rest))
    case Next(NoPayload, rest) => Payload(rest)
    case Next(HeaderMsg(_, _, _), _) => Err(InvalidArgument)
    case Next(Broken, _) => Err(Transport)
  }

  /** What a store stream asks for, or why it is refused. */
  function Requested(sha: Sha, ms: Stream): Outcome<Write> {
    match ms
    case End => Err(InvalidArgument)
    case Next(HeaderMsg(model, hash, _), rest) =>
      if |hash| != 16 then Err(InvalidArgument)
      else (match Payload(rest)
            case Err(e) => Err(e)
            case Ok(data) => Ok(Write(CompositeKey(sha, model, hash), data)))
    case Next(Broken, _) => Err(Transport)
    case Next(_, _) => Err(InvalidArgument)
  }

  /** `data` cut into chunks wherever `cuts` says, with messages without payload in between. */
  function Chunked(data: seq<byte>, cuts: seq<nat>): Stream {
    if cuts == [] then Next(DataMsg(data), End)
    else
      var n := if cuts[0] <= |data| then cuts[0] else |data|;
      Next(DataMsg(data[..n]), Next(NoPayload, Chunked(data[n..], cuts[1..])))
  }

  /** However the data is split into chunks, the store writes the same bytes. */
  lemma {:induction false} AnySplit(data: seq<byte>, cuts: seq<nat>)
    ensures Payload(Chunked(data, cuts)) == Ok(data)
  {
    if cuts == [] {
      assert data + [] == data;
    } else {
      var n := if cuts[0] <= |data| then cuts[0] else |data|;
      AnySplit(data[n..], cuts[1..]);
      assert data[..n] + data[n..] == data;
    }
  }

  lemma PrependPrepend(a: seq<byte>, b: seq<byte>, r: Outcome<seq<byte>>)
    ensures Prepend(a, Prepend(b, r)) == Prepend(a + b, r)
  {
    if r.Ok? { assert a + (b + r.value) == (a + b) + r.value; }
  }

  /** The chunks among the messages, joined, are `data`, and no message is out of place. */
  ghost predicate Carries(ms: Stream, data: seq<byte>) {
    match ms
    case End => data == []
    case Next(DataMsg(chunk), rest) => chunk <= data && Carries(rest, data[|chunk|..])
    case Next(NoPayload, rest) => Carries(rest, data)
    case Next(_, _) => false
  }

  /** The first message that has no place after the header. */
  function FirstBad(ms: Stream): Option<Message> {
    match ms
    case End => None
    case Next(m, rest) => if m.HeaderMsg? || m.Broken? then Some(m) else FirstBad(rest)
  }

  /** The messages after a header give exactly the data they carry, or the error of the first bad one. */
  lemma {:induction false} PayloadExactly(ms: Stream, data: seq<byte>)
    ensures Payload(ms) == Ok(data) <==> Carries(ms, data)
    ensures Payload(ms) == Err(Transport) <==> FirstBad(ms) == Some(Broken)
    ensures Payload(ms) == Err(InvalidArgument) <==> FirstBad(ms).Some? && FirstBad(ms).value.HeaderMsg?
    ensures Payload(ms).Err? <==> FirstBad(ms).Some?
  {
    match ms
    case Next(DataMsg(chunk), rest) =>
      PayloadExactly(rest, if chunk <= data then data[|chunk|..] else data);
      if chunk <= data { assert chunk + data[|chunk|..] == data; }
      if Payload(ms) == Ok(data) { assert data[|chunk|..] == Payload(rest).value; }
    case Next(NoPayload, rest) => PayloadExactly(rest, data);
    case _ =>
  }

  predicate GoodHeader(ms: Stream) {
    ms.Next? && ms.message.HeaderMsg? && |ms.message.hash| == 16
  }

  /** A store asks for `data` under the key of its header exactly when the messages after the header carry it.
      A broken stream is a transport error, as soon as it is read; everything else out of place is an invalid
      argument. */
  lemma RequestedExactly(sha: Sha, ms: Stream, data: seq<byte>)
    ensures GoodHeader(ms) && Carries(ms.rest, data) <==>
              Requested(sha, ms).Ok? && Requested(sha, ms).value.data == data
    ensures Requested(sha, ms).Ok? ==>
              GoodHeader(ms) && Requested(sha, ms).value.key == CompositeKey(sha, ms.message.model, ms.message.hash)
    ensures Requested(sha, ms) == Err(Transport) <==>
              ms.Next? && (ms.message.Broken? || (GoodHeader(ms) && FirstBad(ms.rest) == Some(Broken)))
    ensures Requested(sha, ms) == Err(InvalidArgument) <==>
              || ms.End? || ms.message.DataMsg? || ms.message.NoPayload?
              || (ms.message.HeaderMsg? && |ms.message.hash| != 16)
              || (GoodHeader(ms) && FirstBad(ms.rest).Some? && FirstBad(ms.rest).value.HeaderMsg?)
  {
    if ms.Next? { PayloadExactly(ms.rest, data); }
  }

  /** A delete names its key by a bare hash. It names the key of a store if and only if the store had no model
      and that hash, or the store's truncated digest happens to be the hash. */
  lemma DeleteNamesStoredKey(sha: Sha, model: seq<byte>, hash: Hash, deleted: Hash)
    ensures CompositeKey(sha, model, hash) == KeyOf(deleted) <==>
              if model == [] then hash == deleted else sha(model + hash)[..16] == deleted
  {
    var named := if model == [] then hash else sha(model + hash)[..16];
    if CompositeKey(sha, model, hash) == KeyOf(deleted) { KeyOfInjective(named, deleted); }
  }

  /** With a model on both sides, two requests name one key if and only if their truncated digests agree. */
  lemma SameKeyExactly(sha: Sha, m: seq<byte>, g: Hash, n: seq<byte>, h: Hash)
    requires m != [] && n != []
    ensures CompositeKey(sha, m, g) == CompositeKey(sha, n, h) <==> sha(m + g)[..16] == sha(n + h)[..16]
  {
    DeleteNamesStoredKey(sha, m, g, sha(n + h)[..16]);
    DeleteNamesStoredKey(sha, n, h, sha(n + h)[..16]);
  }

  /** Neither the truncated digests of the two names nor a digest and a bare hash collide. */
  ghost predicate NoCollision(sha: Sha, m: seq<byte>, g: Hash, n: seq<byte>, h: Hash) {
    && (m != [] && n != [] && sha(m + g)[..16] == sha(n + h)[..16] ==> m + g == n + h)
    && (m != [] && n == [] ==> sha(m + g)[..16] != h)
    && (m == [] && n != [] ==> g != sha(n + h)[..16])
  }

  /** Without a collision, model and hash together are the key: the hash is the last 16 bytes digested. */
  lemma KeysTellModels(sha: Sha, m: seq<byte>, g: Hash, n: seq<byte>, h: Hash)
    requires NoCollision(sha, m, g, n, h)
    ensures CompositeKey(sha, m, g) == CompositeKey(sha, n, h) <==> m == n && g == h
  {
    if m != [] && n != [] {
      SameKeyExactly(sha, m, g, n, h);
      if m + g == n + h {
        assert |m| == |n|;
        assert m == (m + g)[..|m|] == (n + h)[..|n|] == n;
        assert g == (m + g)[|m|..] == (n + h)[|n|..] == h;
      }
    } else if n == [] {
      DeleteNamesStoredKey(sha, m, g, h);
    } else {
      DeleteNamesStoredKey(sha, n, h, g);
    }
  }
}

module CacheService {
  import opened Bytes
  import opened Lists
  import opened BlockFormat
  import Memory
  import MemoryPool
  import opened Requests
  import Model = CacheModel
  import Runs = CacheRuns
  import IM = IndexModel
  import BlockAllocator
  import BlockIndex
  import LruPolicy
  import opened BatchModel
  import PressureLevels

  datatype Reply = Reply(totalSize: int, numBlocks: nat, generation: int, blocks: seq<seq<byte>>)
  datatype Deleted = Deleted(success: bool, blocksFreed: nat)

  /** The reply is the key's bytes in one block, announced with the size of the whole block, header
      included, and the generation of its location. */
  ghost predicate Answers(r: Reply, s: Model.Cache, k: Key) {
    && k in s.contents && k in s.index.entries && |s.index.entries[k].blocks| == 1
    && var loc := s.index.entries[k].blocks[0];
    r == Reply(loc.blockSize, 1, loc.generation, [s.contents[k]])
  }

  /** The protobuf message carries offset, size and generation of each location. */
  datatype Batch = Batch(found: seq<bool>, blocks: seq<IM.Location>)

  function KeysOf(sha: Sha, model: seq<byte>, rawHashes: seq<seq<byte>>): seq<Key> {
    seq(|rawHashes|, i requires 0 <= i < |rawHashes| =>
      if |rawHashes[i]| == 16 then CompositeKey(sha, model, rawHashes[i]) else 0)
  }

  /** The first `n` hashes are 16 bytes long, and `n` is as large as that allows. */
  ghost predicate WellFormed(rawHashes: seq<seq<byte>>, n: nat) {
    && n <= |rawHashes| && (forall j :: 0 <= j < n ==> |rawHashes[j]| == 16)
    && (n < |rawHashes| ==> |rawHashes[n]| != 16)
  }

  class Service {
    const alloc: BlockAllocator.Allocator
    const index: BlockIndex.Index
    const sha: Sha
    var pressure: int
    var hits: nat
    var misses: nat
    var evictions: nat
    /** The abstract value between requests. */
    ghost var view: Model.SoundCache
    /** The accepted requests so far. */
    ghost var run: Runs.Recorded

    ghost predicate Valid()
      reads this, alloc, alloc.pool, alloc.pool.mem, index, index.lru
    {
      && alloc.Valid() && index.Valid()
      && alloc.pool.poolId == 0 && alloc.pool.blockSize - HEADER_SIZE < 0x1_0000_0000
      && alloc.pool.totalBlocks <= 0x1_0000_0000
      && (view.crc, view.index, view.blocks, view.free) ==
         (alloc.crc, index.view, alloc.pool.blocks, alloc.pool.free)
    }

    /** The record is of this service: its accepted requests, in order, lead to the state it is in. It is so
        of a new service, and every request keeps it so. */
    ghost predicate Told()
      reads this
    {
      && view == Runs.Outcome(run) && run.setup.capacity == index.capacity
      && Runs.Sized(run.history, alloc.nodeId, alloc.pool.blockSize)
    }

    /** Between any two requests, whatever the requests so far: clients read exactly what the last accepted
        stores left, unless deleted or evicted since; blocks in use and leaked are what the history says; and
        every location in the index is of this node and of a whole block of the pool. */
    lemma AnswersFromHistory(k: Key)
      requires Told()
      ensures Runs.Fetched(view, k) == Runs.Reads(view.contents, k) ==
              Runs.Kept(Runs.FateOf(run.history, k, index.capacity))
      ensures var t := Runs.Count(run.history, index.capacity);
              Model.Used(view) == t.stores - t.deletes && view.leaked == t.overwrites + t.evictions
      ensures Runs.AllOf(view.index.entries, alloc.nodeId, alloc.pool.blockSize)
    {
      Runs.ReadsLastStored(run.setup, run.history, k);
      Runs.UsedBalance(run.setup, run.history);
      Runs.EntriesSized(run.setup, run.history, alloc.nodeId, alloc.pool.blockSize);
    }

    /** The part of the pool in use. */
    ghost function Usage(): real
      reads this
    {
      if view.blocks == [] then 0.0 else Model.Used(view) as real / |view.blocks| as real
    }

    /** The request is the next event of the record. */
    twostate predicate Records(e: Runs.Event)
      reads this
    {
      old(Told()) ==> Told() && run == Runs.Recording(old(run).setup, Runs.Then(old(run).history, e))
    }

    /** A service over a fresh pool, with an index of the given capacity. */
    constructor (alloc: BlockAllocator.Allocator, capacity: nat, sha: Sha)
      requires alloc.Valid() && alloc.pool.poolId == 0
      requires alloc.pool.blockSize - HEADER_SIZE < 0x1_0000_0000 && alloc.pool.totalBlocks <= 0x1_0000_0000
      requires alloc.pool.free == Countdown(alloc.pool.totalBlocks)
      ensures Valid() && fresh(index) && fresh(index.lru) && this.alloc == alloc && index.capacity == capacity
      ensures view.contents == map[] && Model.Used(view) == 0 && Told() && run.history == Runs.Start
      ensures (pressure, hits, misses, evictions) == (0, 0, 0, 0)
    {
      this.alloc, this.sha := alloc, sha;
      index := new BlockIndex.Index(capacity);
      pressure, hits, misses, evictions := 0, 0, 0, 0;
      Model.FreshSound(alloc.crc, alloc.pool.blocks);
      view := Model.Cache(alloc.crc, IM.EMPTY, alloc.pool.blocks, alloc.pool.free, map[], 0, map[]);
      run := Runs.Recording(Runs.Setup(alloc.crc, alloc.pool.blocks, capacity), Runs.Start);
    }

    /** What the index, the pool and the counters have become after `data` was stored under `k`. */
    twostate predicate Stored(k: Key, data: seq<byte>, now: int)
      requires old(view).free.Cons?
      reads this, alloc
    {
      var b := old(view).free.head;
      var loc := alloc.LocationOf(b, old(alloc.generation));
      var entry := IM.IndexEntry([loc], now);
      && view.index == IM.Insert(old(view).index, k, entry, index.capacity) && view.free == old(view).free.tail
      && alloc.generation == (old(alloc.generation) + 1) % 0x1_0000_0000_0000_0000
      && evictions == old(evictions) + Len(IM.Evicted(old(view).index, k, index.capacity))
      && Model.Replaces(old(view), view, index.capacity, k, data)
      && 0 <= b < |view.blocks| && Records(Runs.Stored(k, data, loc, now, view.blocks[b]))
    }

    twostate predicate Unstored()
      reads this, alloc
    {
      (view, run, evictions, alloc.generation) == (old(view), old(run), old(evictions), old(alloc.generation))
    }

    /** `allocate_and_write`, then `insert`. */
    method StoreBlock(k: Key, data: seq<byte>, now: int, pad: seq<byte>) returns (r: Outcome<int>)
      requires Valid() && |pad| == 4
      modifies `evictions, `view, `run, alloc, alloc.pool, alloc.pool.mem, index, index.lru
      ensures Valid()
      ensures r.Err? <==> HEADER_SIZE + |data| > alloc.pool.blockSize || old(view).free.Nil?
      ensures r.Err? ==> r == Err(ResourceExhausted) && Unstored()
      ensures r.Ok? ==> r == Ok(old(alloc.generation)) && Stored(k, data, now)
    {
      hide Runs.Outcome, Runs.Sized, Model.Sound, Model.Replaces, IM.Agree, IM.Insert, IM.Evicted, LruPolicy.Sound;
      hide BlockFormat.ReadVerified, BlockFormat.Holds, Memory.Divides;
      Model.FreeTop(view);
      var loc := alloc.AllocateAndWrite(data, pad);
      if loc.None? {
        return Err(ResourceExhausted);
      }
      HeldIsRead(alloc.crc, alloc.pool.blocks[loc.value.blockIndex], data, loc.value.generation);
      Memory.OffsetIsProduct(alloc.pool.blockSize, loc.value.blockIndex);
      Replace(k, loc.value, now, data);
      r := Ok(loc.value.generation);
    }

    /** Indexes a block just written, seen by clients. */
    method Replace(k: Key, loc: IM.Location, now: int, ghost data: seq<byte>)
      requires alloc.Valid() && index.Valid()
      requires alloc.pool.poolId == 0 && alloc.pool.blockSize - HEADER_SIZE < 0x1_0000_0000
      requires alloc.pool.totalBlocks <= 0x1_0000_0000
      requires view.free.Cons? && loc.blockIndex == view.free.head && 0 <= view.free.head < |view.blocks|
      requires loc.nodeId == alloc.nodeId && loc.blockSize == alloc.pool.blockSize
      requires view.free.head < |alloc.pool.blocks|
      requires loc.offset == Memory.Offset(|alloc.pool.blocks[view.free.head]|, view.free.head)
      requires ReadVerified(view.crc, alloc.pool.blocks[view.free.head]) == Some(data)
      requires (view.crc, view.index, view.blocks[view.free.head := alloc.pool.blocks[view.free.head]],
                view.free.tail) ==
               (alloc.crc, index.view, alloc.pool.blocks, alloc.pool.free)
      modifies `evictions, `view, `run, index, index.lru
      ensures Valid()
      ensures evictions == old(evictions) + Len(IM.Evicted(old(view).index, k, index.capacity))
      ensures view.index == IM.Insert(old(view).index, k, IM.IndexEntry([loc], now), index.capacity)
      ensures view.free == old(view).free.tail && Model.Replaces(old(view), view, index.capacity, k, data)
      ensures Records(Runs.Stored(k, data, loc, now, alloc.pool.blocks[loc.blockIndex]))
    {
      hide Runs.Outcome, Model.Sound, Model.Replaces, IM.Agree, LruPolicy.Sound;
      ghost var block := alloc.pool.blocks[loc.blockIndex];
      Model.StoreReplaces(view, index.capacity, k, loc, now, data, block);
      Enter(k, loc, now, data, block);
    }

    /** Indexes a block just written. */
    method Enter(k: Key, loc: IM.Location, now: int, ghost data: seq<byte>, ghost block: seq<byte>)
      requires alloc.Valid() && index.Valid()
      requires alloc.pool.poolId == 0 && alloc.pool.blockSize - HEADER_SIZE < 0x1_0000_0000
      requires alloc.pool.totalBlocks <= 0x1_0000_0000
      requires view.free.Cons? && loc.blockIndex == view.free.head && 0 <= view.free.head < |view.blocks|
      requires loc.nodeId == alloc.nodeId && loc.blockSize == alloc.pool.blockSize
      requires ReadVerified(view.crc, block) == Some(data) && loc.offset == Memory.Offset(|block|, view.free.head)
      requires (view.crc, view.index, view.blocks[view.free.head := block], view.free.tail) ==
               (alloc.crc, index.view, alloc.pool.blocks, alloc.pool.free)
      modifies `evictions, `view, `run, index, index.lru
      ensures Valid()
      ensures evictions == old(evictions) + Len(IM.Evicted(old(view).index, k, index.capacity))
      ensures view == Model.Store(old(view), index.capacity, k, loc, now, data, block)
      ensures Records(Runs.Stored(k, data, loc, now, block))
    {
      hide Runs.Outcome, Model.Sound, IM.Agree, LruPolicy.Sound;
      Model.StoreSound(view, index.capacity, k, loc, now, data, block);
      var evicted := index.Insert(k, IM.IndexEntry([loc], now));
      SeqOfLength(IM.Evicted(view.index, k, index.capacity));
      evictions := evictions + |evicted|;
      if Told() { run := Runs.Extended(run, Runs.Stored(k, data, loc, now, block)); }
      view := Model.Store(view, index.capacity, k, loc, now, data, block);
    }

    /** One round of the pressure monitor. */
    method WatchPressure(t: PressureLevels.Thresholds)
      requires Valid()
      modifies `pressure
      ensures Valid()
      ensures var usage := Usage();
              && 0 <= pressure <= 3 && (pressure == 3 <==> usage >= t.reject)
              && (t.warn <= t.critical <= t.reject ==>
                    (pressure >= 1 <==> usage >= t.warn) && (pressure >= 2 <==> usage >= t.critical))
    {
      hide Runs.Outcome, Model.Sound, IM.Agree, LruPolicy.Sound, PressureLevels.Classify;
      var stats := alloc.pool.Stats();
      var usage := if stats.totalBlocks > 0 then stats.usedBlocks as real / stats.totalBlocks as real else 0.0;
      PressureLevels.ClassifyExactly(t, usage);
      Model.FewerFree(view);
      pressure := PressureLevels.Classify(t, usage);
    }

    /** `store`: nothing changes unless the stream is well formed and a block is free; then the key's
        bytes are replaced, and nothing else unless the index is smaller than the pool. */
    method Store(stream: Stream, now: int, pad: seq<byte>) returns (r: Outcome<int>)
      requires Valid() && |pad| == 4
      modifies `evictions, `view, `run, alloc, alloc.pool, alloc.pool.mem, index, index.lru
      ensures Valid()
      ensures r.Err? ==> Unstored()
      ensures pressure >= PressureLevels.REJECT ==> r == Err(ResourceExhausted)
      ensures pressure < PressureLevels.REJECT && Requested(sha, stream).Err? ==> r == Err(Requested(sha, stream).error)
      ensures pressure < PressureLevels.REJECT && Requested(sha, stream).Ok? ==>
        var Write(k, data) := Requested(sha, stream).value;
        && (r.Err? <==> HEADER_SIZE + |data| > alloc.pool.blockSize || old(view).free.Nil?)
        && (r.Err? ==> r == Err(ResourceExhausted))
        && (r.Ok? ==> r == Ok(old(alloc.generation)) && Stored(k, data, now))
    {
      hide Runs.Outcome, Model.Sound, Model.Replaces, IM.Agree, LruPolicy.Sound;
      if pressure >= PressureLevels.REJECT {
        return Err(ResourceExhausted);
      }
      var write := Parse(sha, stream);
      if write.Err? {
        return Err(write.error);
      }
      r := StoreBlock(write.value.key, write.value.data, now, pad);
    }

    /** `get`: the last stored bytes, never a data loss. */
    method Get(model: seq<byte>, rawHash: seq<byte>) returns (r: Outcome<Reply>)
      requires Valid()
      modifies `hits, `misses, `view, `run, index, index.lru
      ensures Valid()
      ensures |rawHash| != 16 ==>
                r == Err(InvalidArgument) && (view, run, hits, misses) == old((view, run, hits, misses))
      ensures |rawHash| == 16 ==>
        var k := CompositeKey(sha, model, rawHash);
        && view == Model.Get(old(view), k) && Records(Runs.Looked(k))
        && (k !in old(view).contents ==> r == Err(NotFound))
        && (k in old(view).contents ==> r.Ok? && Answers(r.value, old(view), k))
        && (hits, misses) == if r.Ok? then (old(hits) + 1, old(misses)) else (old(hits), old(misses) + 1)
    {
      var hash := ParseHash(rawHash);
      if hash.Err? {
        return Err(hash.error);
      }
      var key := CompositeKey(sha, model, hash.value);
      var entry := Find(key);
      if entry.None? {
        return Err(NotFound);
      }
      r := ReadBlocks(key, entry.value);
    }

    /** An index lookup, counted as a hit or a miss. */
    method Find(key: Key) returns (entry: Option<IM.IndexEntry>)
      requires Valid()
      modifies `hits, `misses, `view, `run, index, index.lru
      ensures Valid() && view == Model.Get(old(view), key) && Records(Runs.Looked(key))
      ensures entry == if key in old(view).index.entries then Some(old(view).index.entries[key]) else None
      ensures (hits, misses) == if entry.Some? then (old(hits) + 1, old(misses)) else (old(hits), old(misses) + 1)
    {
      hide Runs.Outcome, Model.Sound, IM.Agree, LruPolicy.Sound;
      Model.GetSound(view, key);
      entry := index.Lookup(key);
      if Told() { run := Runs.Extended(run, Runs.Looked(key)); }
      view := Model.Get(view, key);
      if entry.Some? {
        hits := hits + 1;
      } else {
        misses := misses + 1;
      }
    }

    /** The reply of `get`: a header, then the data of every block of the entry. */
    method ReadBlocks(ghost key: Key, entry: IM.IndexEntry) returns (r: Outcome<Reply>)
      requires Valid() && key in view.index.entries && view.index.entries[key] == entry
      ensures key in view.contents && r.Ok? && Answers(r.value, view, key)
    {
      hide Runs.Outcome, Model.Sound, IM.Agree, LruPolicy.Sound;
      Model.ReadIsContents(view, key);
      var total := 0;
      var data := [];
      for i := 0 to |entry.blocks|
        invariant data == if i == 0 then [] else [view.contents[key]]
        invariant total == if i == 0 then 0 else entry.blocks[0].blockSize
      {
        total := total + entry.blocks[i].blockSize;
        var loc := entry.blocks[i];
        Memory.OffsetIsProduct(alloc.pool.blockSize, loc.blockIndex);
        var handle := MemoryPool.BlockHandle(0, loc.blockIndex, loc.offset, loc.blockSize);
        var block := alloc.ReadVerified(handle, loc.blockIndex);
        if block.None? {
          return Err(DataLoss);
        }
        data := data + [block.value];
      }
      r := Ok(Reply(total, |entry.blocks|, entry.blocks[0].generation, data));
    }

    /** `delete`: by the bare hash, whatever model the key was stored under. */
    method Delete(rawHash: seq<byte>) returns (r: Outcome<Deleted>)
      requires Valid()
      modifies `view, `run, alloc.pool`free, index, index.lru
      ensures Valid()
      ensures |rawHash| != 16 ==> r == Err(InvalidArgument) && (view, run) == old((view, run))
      ensures |rawHash| == 16 ==>
        var k := KeyOf(rawHash);
        && view == Model.Delete(old(view), k) && Model.Removes(old(view), view, k) && Records(Runs.Deleted(k))
        && r == Ok(if k in old(view).contents then Deleted(true, 1) else Deleted(false, 0))
    {
      var hash := ParseHash(rawHash);
      if hash.Err? {
        return Err(hash.error);
      }
      Model.DeleteRemoves(view, KeyOf(hash.value));
      r := DeleteKey(KeyOf(hash.value));
    }

    method DeleteKey(k: Key) returns (r: Outcome<Deleted>)
      requires Valid()
      modifies `view, `run, alloc.pool`free, index, index.lru
      ensures Valid()
      ensures view == Model.Delete(old(view), k) && Records(Runs.Deleted(k))
      ensures r == Ok(if k in old(view).contents then Deleted(true, 1) else Deleted(false, 0))
    {
      hide Runs.Outcome, Model.Sound, IM.Agree, LruPolicy.Sound;
      Model.DeleteSound(view, k);
      if Told() { run := Runs.Extended(run, Runs.Deleted(k)); }
      var entry := index.Remove(k);
      if entry.None? {
        return Ok(Deleted(false, 0));
      }
      FreeBlocks(entry.value);
      view := Model.Delete(view, k);
      r := Ok(Deleted(true, |entry.value.blocks|));
    }

    /** `batch_lookup`: the flags of independent lookups and the flat block list. A malformed hash ends
        the call with an error, after the lookups before it have touched the LRU. */
    method BatchLookup(model: seq<byte>, rawHashes: seq<seq<byte>>) returns (r: Outcome<Batch>, ghost n: nat)
      requires Valid()
      modifies `hits, `misses, `view, `run, index, index.lru
      ensures Valid() && WellFormed(rawHashes, n)
      ensures var ks := KeysOf(sha, model, rawHashes);
              && view == old(view).(index := Looked(old(view).index, ks, n))
              && (old(Told()) ==>
                    Told() && run == Runs.Recording(old(run).setup, Runs.Lookups(old(run).history, ks, n)))
              && hits == old(hits) + Hits(old(view).index, ks, n) && hits + misses == old(hits) + old(misses) + n
              && r == if n < |rawHashes| then Err(InvalidArgument)
                      else Ok(Batch(Found(old(view).index, ks), BatchModel.Blocks(old(view).index, ks, n)))
    {
      ghost var m, ks := view.index, KeysOf(sha, model, rawHashes);
      r, n := LookupAll(model, rawHashes, m, ks);
      Gathered(m, ks, n);
      Model.LookedSound(view, ks, n);
      if Told() {
        Runs.LookupsSized(run.history, ks, n, alloc.nodeId, alloc.pool.blockSize);
        run := Runs.Batched(run, ks, n);
      }
      view := view.(index := Looked(m, ks, n));
    }

    /** One turn of the loop of `batch_lookup`. */
    method LookupOne(model: seq<byte>, rawHash: seq<byte>, ghost key: Key,
                     found: seq<bool>, blocks: seq<IM.Location>, ghost hits0: int, ghost misses0: int)
      returns (ok: bool, found': seq<bool>, blocks': seq<IM.Location>)
      requires index.Valid() && (|rawHash| == 16 ==> key == CompositeKey(sha, model, rawHash))
      modifies `hits, `misses, index, index.lru
      ensures index.Valid() && (ok <==> |rawHash| == 16)
      ensures index.view == if ok then IM.Lookup(old(index.view), key) else old(index.view)
      ensures Tally(found', blocks', hits - hits0, misses - misses0) ==
              if ok
              then Extended(Tally(found, blocks, old(hits) - hits0, old(misses) - misses0),
                            EntryOf(old(index.view), key))
              else Tally(found, blocks, old(hits) - hits0, old(misses) - misses0)
    {
      found', blocks' := found, blocks;
      var hash := ParseHash(rawHash);
      ok := hash.Ok?;
      if ok {
        var entry := index.Lookup(CompositeKey(sha, model, hash.value));
        match entry {
          case Some(e) =>
            hits := hits + 1;
            found', blocks' := found + [true], blocks + e.blocks;
          case None =>
            misses := misses + 1;
            found' := found + [false];
        }
      }
    }

    /** The loop of `batch_lookup`. */
    method LookupAll(model: seq<byte>, rawHashes: seq<seq<byte>>, ghost m: IM.Index, ghost ks: seq<Key>)
      returns (r: Outcome<Batch>, ghost n: nat)
      requires index.Valid() && index.view == m && |ks| == |rawHashes|
      requires forall i :: 0 <= i < |ks| && |rawHashes[i]| == 16 ==> ks[i] == CompositeKey(sha, model, rawHashes[i])
      modifies `hits, `misses, index, index.lru
      ensures WellFormed(rawHashes, n)
      ensures index.Valid() && index.view == Looked(m, ks, n)
      ensures (hits - old(hits), misses - old(misses)) == (Tallied(m, ks, n).hits, Tallied(m, ks, n).misses)
      ensures r == if n < |rawHashes| then Err(InvalidArgument)
                   else Ok(Batch(Tallied(m, ks, n).found, Tallied(m, ks, n).blocks))
    {
      hide LruPolicy.Sound, IM.Agree;
      var found := [];
      var blocks := [];
      for i := 0 to |rawHashes|
        invariant forall j :: 0 <= j < i ==> |rawHashes[j]| == 16
        invariant index.Valid() && index.view == Looked(m, ks, i)
        invariant Tally(found, blocks, hits - old(hits), misses - old(misses)) == Tallied(m, ks, i)
      {
        Turn(m, ks, i, ks[i]);
        var ok: bool;
        ok, found, blocks := LookupOne(model, rawHashes[i], ks[i], found, blocks, old(hits), old(misses));
        if !ok {
          return Err(InvalidArgument), i;
        }
      }
      return Ok(Batch(found, blocks)), |rawHashes|;
    }

    method FreeBlocks(entry: IM.IndexEntry)
      requires alloc.Valid() && alloc.pool.poolId == 0
      requires |entry.blocks| == 1 && 0 <= entry.blocks[0].blockIndex < alloc.pool.totalBlocks
      modifies alloc.pool`free
      ensures alloc.Valid() && alloc.pool.free == Cons(entry.blocks[0].blockIndex, old(alloc.pool.free))
    {
      for i := 0 to |entry.blocks|
        invariant alloc.Valid()
        invariant alloc.pool.free ==
                  if i == 0 then old(alloc.pool.free) else Cons(entry.blocks[0].blockIndex, old(alloc.pool.free))
      {
        var loc := entry.blocks[i];
        alloc.Deallocate(MemoryPool.BlockHandle(0, loc.blockIndex, loc.offset, loc.blockSize));
      }
    }
  }

  /** `get` over the whole history: whatever the accepted requests so far, it answers the bytes of the key's
      last accepted store, or that the key is not there if it was never stored or was deleted or evicted since. */
  method GetFromHistory(service: Service, model: seq<byte>, rawHash: seq<byte>) returns (r: Outcome<Reply>)
    requires service.Valid() && service.Told()
    modifies service`hits, service`misses, service`view, service`run, service.index, service.index.lru
    ensures service.Valid() && service.Told()
    ensures |rawHash| != 16 ==> r == Err(InvalidArgument)
    ensures |rawHash| == 16 ==>
      var k := CompositeKey(service.sha, model, rawHash);
      match Runs.FateOf(old(service.run).history, k, service.index.capacity)
      case Held(data) => r.Ok? && r.value.blocks == [data] && r.value.totalSize == service.alloc.pool.blockSize
      case _ => r == Err(NotFound)
  {
    hide Runs.Outcome, Runs.FateOf, Model.Sound, IM.Agree, LruPolicy.Sound;
    if |rawHash| == 16 { service.AnswersFromHistory(CompositeKey(service.sha, model, rawHash)); }
    r := service.Get(model, rawHash);
  }

  /** The part of `store` that reads the stream. */
  method Parse(sha: Sha, stream: Stream) returns (r: Outcome<Write>)
    ensures r == Requested(sha, stream)
  {
    match stream {
      case End => return Err(InvalidArgument);
      case Next(message, rest) =>
        match message {
          case Broken => return Err(Transport);
          case HeaderMsg(model, rawHash, _) =>
            var hash := ParseHash(rawHash);
            if hash.Err? {
              return Err(hash.error);
            }
            var data := Collect(rest);
            if data.Err? {
              return Err(data.error);
            }
            return Ok(Write(CompositeKey(sha, model, hash.value), data.value));
          case _ => return Err(InvalidArgument);
        }
    }
  }

  /** The chunk loop of `store`. */
  method Collect(stream: Stream) returns (r: Outcome<seq<byte>>)
    ensures r == Payload(stream)
  {
    var data: seq<byte> := [];
    var ms := stream;
    assert Payload(stream) == Prepend([], Payload(stream)) by {
      if Payload(stream).Ok? { assert [] + Payload(stream).value == Payload(stream).value; }
    }
    while ms.Next?
      invariant Payload(stream) == Prepend(data, Payload(ms))
      decreases ms
    {
      match ms.message {
        case DataMsg(chunk) =>
          PrependPrepend(data, chunk, Payload(ms.rest));
          data := data + chunk;
        case HeaderMsg(_, _, _) => return Err(InvalidArgument);
        case NoPayload =>
        case Broken => return Err(Transport);
      }
      ms := ms.rest;
    }
    assert data + [] == data;
    return Ok(data);
  }
}
