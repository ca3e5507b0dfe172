/**
 What a client of the agent may rely on: laws that relate one request to another and speak only of the
 requests and their answers.
 */
module CacheClient {
  import opened Bytes
  import opened Lists
  import opened BlockFormat
  import opened Requests
  import opened CacheService
  import Model = CacheModel
  import IM = IndexModel
  import Runs = CacheRuns
  import LruPolicy
  import BatchModel
  import PressureLevels

  /** A store of `data`, in any chunks. */
  function StoreOf(model: seq<byte>, hash: Hash, totalSize: nat, chunks: Stream): Stream {
    Next(HeaderMsg(model, hash, totalSize), chunks)
  }

  /** A store of `k` evicts `other`. */
  ghost predicate Evicts(index: IM.Index, k: Key, other: Key, capacity: nat) {
    other in Elems(IM.Evicted(index, k, capacity))
  }

  lemma StoreAsks(sha: Sha, model: seq<byte>, hash: Hash, totalSize: nat, chunks: Stream, data: seq<byte>)
    requires Carries(chunks, data)
    ensures Requested(sha, StoreOf(model, hash, totalSize, chunks)) == Ok(Write(CompositeKey(sha, model, hash), data))
  {
    RequestedExactly(sha, StoreOf(model, hash, totalSize, chunks), data);
  }

  /** A store is accepted exactly when the level is below 3, the data fits a block and a block is free; and then
      a get with the same model and hash answers the data, announced with the size of a block and the
      generation the store returned. */
  method StoreThenGet(service: Service, model: seq<byte>, hash: Hash, totalSize: nat, chunks: Stream,
                      ghost data: seq<byte>, now: int, pad: seq<byte>)
    returns (stored: Outcome<int>, got: Outcome<Reply>)
    requires service.Valid() && |pad| == 4 && Carries(chunks, data)
    modifies service, service.alloc, service.alloc.pool, service.alloc.pool.mem, service.index, service.index.lru
    ensures service.Valid()
    ensures stored.Ok? <==>
              && old(service.pressure) < 3 && 24 + |data| <= service.alloc.pool.blockSize
              && old(service.alloc.pool.free).Cons?
    ensures stored.Ok? ==> got == Ok(Reply(service.alloc.pool.blockSize, 1, stored.value, [data]))
  {
    hide Runs.Outcome, Model.Sound, IM.Agree, LruPolicy.Sound, Requested, CompositeKey;
    StoreAsks(service.sha, model, hash, totalSize, chunks, data);
    stored := service.Store(StoreOf(model, hash, totalSize, chunks), now, pad);
    got := service.Get(model, hash);
  }

  /** The answer to a get of `k`. */
  ghost function AnswerOf(s: Model.Cache, k: Key): Outcome<Reply> {
    if k in s.contents && k in s.index.entries && |s.index.entries[k].blocks| == 1 then
      var loc := s.index.entries[k].blocks[0];
      Ok(Reply(loc.blockSize, 1, loc.generation, [s.contents[k]]))
    else Err(NotFound)
  }

  lemma GetKeepsAnswers(s: Model.Cache, k: Key, l: Key)
    ensures AnswerOf(Model.Get(s, k), l) == AnswerOf(s, l)
  {
  }

  method GetKey(service: Service, model: seq<byte>, hash: Hash) returns (r: Outcome<Reply>)
    requires service.Valid()
    modifies service`hits, service`misses, service`view, service`run, service.index, service.index.lru
    ensures service.Valid()
    ensures var k := CompositeKey(service.sha, model, hash);
            r == AnswerOf(old(service.view), k) && service.view == Model.Get(old(service.view), k)
  {
    hide Runs.Outcome, Model.Sound, IM.Agree, LruPolicy.Sound, CompositeKey;
    r := service.Get(model, hash);
  }

  lemma StoreLeaves(s: Model.Cache, s': Model.Cache, capacity: nat, k: Key, entry: IM.IndexEntry, data: seq<byte>,
                    l: Key)
    requires Model.Sound(s) && s'.index == IM.Insert(s.index, k, entry, capacity) && s.free.Cons?
    requires Model.Replaces(s, s', capacity, k, data) && |entry.blocks| == 1
    ensures if l == k then AnswerOf(s', l).Ok? && AnswerOf(s', l).value.blocks == [data]
            else AnswerOf(s', l) == if Evicts(s.index, k, l, capacity) then Err(NotFound) else AnswerOf(s, l)
    ensures capacity >= |s.blocks| ==> !Evicts(s.index, k, l, capacity)
  {
    hide IM.Insert, IM.Agree, Model.Backed, Model.FreeOk;
    IM.InsertAgrees(s.index, k, entry, capacity);
    if capacity >= |s.blocks| { Model.NothingEvicted(s, capacity, k); }
  }

  /** Between two gets under one name, a store under any name. The second get answers the data if the names
      share a key, that the key is not there if the store evicted it, and otherwise what the first answered. */
  method GetStoreGet(service: Service, model: seq<byte>, hash: Hash, totalSize: nat, chunks: Stream,
                     ghost data: seq<byte>, now: int, pad: seq<byte>, other: seq<byte>, otherHash: Hash)
    returns (before: Outcome<Reply>, stored: Outcome<int>, after: Outcome<Reply>)
    requires service.Valid() && |pad| == 4 && Carries(chunks, data)
    modifies service, service.alloc, service.alloc.pool, service.alloc.pool.mem, service.index, service.index.lru
    ensures service.Valid()
    ensures var k, l := CompositeKey(service.sha, model, hash), CompositeKey(service.sha, other, otherHash);
            var evicts := Evicts(IM.Lookup(old(service.view).index, l), k, l, service.index.capacity);
            && (stored.Err? ==> after == before)
            && (stored.Ok? && k == l ==> after.Ok? && after.value.blocks == [data])
            && (stored.Ok? && k != l ==> after == if evicts then Err(NotFound) else before)
            && (service.index.capacity >= service.alloc.pool.totalBlocks ==> stored.Ok? ==> !evicts)
  {
    hide Runs.Outcome, Model.Sound, Model.Replaces, IM.Agree, IM.Insert, LruPolicy.Sound, Requested, CompositeKey;
    hide Evicts, AnswerOf;
    StoreAsks(service.sha, model, hash, totalSize, chunks, data);
    before := GetKey(service, other, otherHash);
    ghost var s, l := service.view, CompositeKey(service.sha, other, otherHash);
    GetKeepsAnswers(old(service.view), l, l);
    assert |s.blocks| == service.alloc.pool.totalBlocks;
    stored := service.Store(StoreOf(model, hash, totalSize, chunks), now, pad);
    if stored.Ok? {
      ghost var loc := service.alloc.LocationOf(s.free.head, stored.value);
      StoreLeaves(s, service.view, service.index.capacity, CompositeKey(service.sha, model, hash),
                  IM.IndexEntry([loc], now), data, l);
    }
    after := GetKey(service, other, otherHash);
  }

  lemma DeleteLeaves(s: Model.Cache, k: Key, l: Key)
    requires Model.Sound(s)
    ensures AnswerOf(Model.Delete(s, k), l) == if l == k then Err(NotFound) else AnswerOf(s, l)
  {
    hide IM.Agree, Model.Backed, Model.FreeOk;
    Model.DeleteSound(s, k);
  }

  /** Between two gets under one name, a delete of a bare hash. The key is gone if and only if the name has no
      model and that hash, or its truncated digest is that hash; otherwise the answer is as before. The delete
      reports one block freed exactly when the first get of its key would have found something. */
  method GetDeleteGet(service: Service, model: seq<byte>, hash: Hash, deleted: Hash)
    returns (before: Outcome<Reply>, reply: Outcome<Deleted>, after: Outcome<Reply>)
    requires service.Valid()
    modifies service, service.alloc.pool, service.index, service.index.lru
    ensures service.Valid()
    ensures if (if model == [] then hash == deleted else service.sha(model + hash)[..16] == deleted)
            then after == Err(NotFound) && reply == Ok(if before.Ok? then Deleted(true, 1) else Deleted(false, 0))
            else after == before
  {
    hide Runs.Outcome, Model.Sound, IM.Agree, LruPolicy.Sound, CompositeKey, Model.Delete, Model.Removes, AnswerOf;
    ghost var k := CompositeKey(service.sha, model, hash);
    DeleteNamesStoredKey(service.sha, model, hash, deleted);
    before := GetKey(service, model, hash);
    ghost var s := service.view;
    GetKeepsAnswers(old(service.view), k, k);
    AnswerIsThere(s, k);
    DeleteLeaves(s, KeyOf(deleted), k);
    reply := service.Delete(deleted);
    after := GetKey(service, model, hash);
  }

  lemma AnswerIsThere(s: Model.Cache, k: Key)
    requires Model.Sound(s)
    ensures AnswerOf(s, k).Ok? <==> k in s.contents
  {
    Model.SameKeys(s);
    if k in s.contents { Model.ReadIsContents(s, k); }
  }

  /** How many of the first `n` flags are set. */
  function Trues(found: seq<bool>, n: nat): nat
    requires n <= |found|
  {
    if n == 0 then 0 else Trues(found, n - 1) + if found[n - 1] then 1 else 0
  }

  lemma {:induction false} HitsAreTrues(m: IM.Index, ks: seq<Key>, n: nat)
    requires n <= |ks|
    ensures Trues(BatchModel.Found(m, ks), n) == BatchModel.Hits(m, ks, n)
  {
    if n > 0 {
      HitsAreTrues(m, ks, n - 1);
      var k := ks[n - 1];
      assert BatchModel.Found(m, ks)[n - 1] == (k in m.entries);
    }
  }

  lemma BatchTells(s: Model.Cache, ks: seq<Key>, i: nat, k: Key)
    requires Model.Sound(s) && i < |ks| && ks[i] == k
    ensures var found, blocks := BatchModel.Found(s.index, ks), BatchModel.Blocks(s.index, ks, |ks|);
            && |found| == |ks| && |blocks| == Trues(found, |ks|) && found[i] == AnswerOf(s, k).Ok?
            && (found[i] ==>
                  && Trues(found, i) < |blocks|
                  && var loc := blocks[Trues(found, i)];
                  && loc.generation == AnswerOf(s, k).value.generation
                  && loc.blockSize == AnswerOf(s, k).value.totalSize)
  {
    hide Model.Sound;
    AnswerIsThere(s, k);
    Model.SameKeys(s);
    Model.EntriesAreSingle(s);
    BatchModel.BlockOfKey(s.index, ks, i, |ks|);
    HitsAreTrues(s.index, ks, |ks|);
    HitsAreTrues(s.index, ks, i);
  }

  /** A batch lookup flags a hash exactly when a get under the same model and hash would find it, and lists the
      block that get answers at the number of flags set before it. One malformed hash refuses the batch. */
  method BatchThenGet(service: Service, model: seq<byte>, rawHashes: seq<seq<byte>>, i: nat)
    returns (batch: Outcome<Batch>, got: Outcome<Reply>)
    requires service.Valid() && i < |rawHashes| && |rawHashes[i]| == 16
    modifies service, service.index, service.index.lru
    ensures service.Valid()
    ensures batch.Ok? <==> forall j :: 0 <= j < |rawHashes| ==> |rawHashes[j]| == 16
    ensures batch.Err? ==> batch == Err(InvalidArgument)
    ensures batch.Ok? ==>
      var Batch(found, blocks) := batch.value;
      && |found| == |rawHashes| && |blocks| == Trues(found, |found|) && found[i] == got.Ok?
      && (found[i] ==>
            && Trues(found, i) < |blocks|
            && var loc := blocks[Trues(found, i)];
            loc.generation == got.value.generation && loc.blockSize == got.value.totalSize)
  {
    hide Runs.Outcome, Model.Sound, IM.Agree, LruPolicy.Sound, CompositeKey, AnswerOf, Trues;
    hide BatchModel.Looked, BatchModel.Hits, BatchModel.Blocks, BatchModel.Found;
    ghost var s, k, ks := service.view, CompositeKey(service.sha, model, rawHashes[i]),
                          KeysOf(service.sha, model, rawHashes);
    BatchTells(s, ks, i, k);
    BatchKeepsAnswers(s, ks, k);
    ghost var n;
    batch, n := service.BatchLookup(model, rawHashes);
    got := GetKey(service, model, rawHashes[i]);
  }

  lemma BatchKeepsAnswers(s: Model.Cache, ks: seq<Key>, k: Key)
    ensures AnswerOf(s.(index := BatchModel.Looked(s.index, ks, |ks|)), k) == AnswerOf(s, k)
  {
    BatchModel.LookedEntries(s.index, ks, |ks|);
  }

  /** After a round of the monitor a store is refused for memory pressure exactly when the part of the pool in
      use has reached the reject threshold. */
  method WatchThenStore(service: Service, t: PressureLevels.Thresholds, model: seq<byte>, hash: Hash,
                        totalSize: nat, chunks: Stream, ghost data: seq<byte>, now: int, pad: seq<byte>)
    returns (stored: Outcome<int>)
    requires service.Valid() && |pad| == 4 && Carries(chunks, data)
    modifies service, service.alloc, service.alloc.pool, service.alloc.pool.mem, service.index, service.index.lru
    ensures service.Valid()
    ensures stored.Ok? <==>
              && old(service.Usage()) < t.reject && 24 + |data| <= service.alloc.pool.blockSize
              && old(service.alloc.pool.free).Cons?
    ensures stored.Err? ==> stored == Err(ResourceExhausted) && service.view == old(service.view)
  {
    hide Runs.Outcome, Model.Sound, Model.Replaces, IM.Agree, LruPolicy.Sound, Requested, CompositeKey;
    StoreAsks(service.sha, model, hash, totalSize, chunks, data);
    service.WatchPressure(t);
    stored := service.Store(StoreOf(model, hash, totalSize, chunks), now, pad);
  }

  /** A stream that breaks, or has a second header, stores nothing. */
  method StoreSpoilt(service: Service, model: seq<byte>, hash: Hash, totalSize: nat, chunks: Stream, now: int,
                     pad: seq<byte>)
    returns (stored: Outcome<int>)
    requires service.Valid() && |pad| == 4 && FirstBad(chunks).Some?
    modifies service, service.alloc, service.alloc.pool, service.alloc.pool.mem, service.index, service.index.lru
    ensures service.Valid() && service.view == old(service.view)
    ensures stored == Err(if old(service.pressure) >= 3 then ResourceExhausted
                          else if FirstBad(chunks).value.Broken? then Transport else InvalidArgument)
  {
    hide Runs.Outcome, Model.Sound, Model.Replaces, IM.Agree, LruPolicy.Sound, Requested, CompositeKey;
    RequestedExactly(service.sha, StoreOf(model, hash, totalSize, chunks), []);
    FirstBadIs(chunks);
    stored := service.Store(StoreOf(model, hash, totalSize, chunks), now, pad);
  }

  lemma {:induction false} FirstBadIs(ms: Stream)
    requires FirstBad(ms).Some?
    ensures FirstBad(ms).value.Broken? || FirstBad(ms).value.HeaderMsg?
  {
    if ms.Next? && !ms.message.HeaderMsg? && !ms.message.Broken? { FirstBadIs(ms.rest); }
  }
}
