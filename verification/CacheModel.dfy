/**
 The agent's cache in sequential use, on values: the index, the pool and the block memory together,
 and the map from key to bytes that clients see. `Cache.contents`, `leaked` and `holder` are not in
 the code: they say what the rest means.
 */
module CacheModel {
  import opened Bytes
  import opened BatchModel
  import opened Lists
  import opened BlockFormat
  import opened IndexModel
  import opened Memory

  datatype Cache = Cache(
    crc: Crc, index: Index, blocks: seq<seq<byte>>, free: List<int>,
    contents: map<Key, seq<byte>>,  // what a client would read
    leaked: nat,                    // blocks neither free nor indexed
    holder: map<int, Key>)          // whose block each indexed block is

  /** The byte offset of a block in the pool. */
  function Start(blocks: seq<seq<byte>>, b: int): int
    requires 0 <= b < |blocks|
  {
    Offset(|blocks[b]|, b)
  }

  /** The entry of `k` has one block, its own and not free, its offset is the block's, and reading the block
      gives `data`. */
  ghost predicate Backs(crc: Crc, blocks: seq<seq<byte>>, free: List<int>, holder: map<int, Key>,
                        k: Key, e: IndexEntry, data: seq<byte>) {
    && |e.blocks| == 1
    && var loc := e.blocks[0];
    && 0 <= loc.blockIndex < |blocks| && loc.blockIndex !in Elems(free)
    && loc.blockIndex in holder && holder[loc.blockIndex] == k
    && loc.offset == Start(blocks, loc.blockIndex)
    && ReadVerified(crc, blocks[loc.blockIndex]) == Some(data)
  }

  ghost predicate FreeOk(n: nat, free: List<int>) {
    NoDup(free) && forall b :: b in Elems(free) ==> 0 <= b < n
  }

  ghost predicate Backed(crc: Crc, entries: map<Key, IndexEntry>, blocks: seq<seq<byte>>, free: List<int>,
                         contents: map<Key, seq<byte>>, holder: map<int, Key>) {
    && contents.Keys == entries.Keys
    && forall k :: k in entries ==> Backs(crc, blocks, free, holder, k, entries[k], contents[k])
  }

  /** Every indexed key's block holds that key's contents; no block is shared, indexed and free at once,
      or unaccounted for. */
  ghost predicate Sound(s: Cache) {
    && Agree(s.index) && FreeOk(|s.blocks|, s.free)
    && Backed(s.crc, s.index.entries, s.blocks, s.free, s.contents, s.holder)
    && Len(s.free) + |s.index.entries| + s.leaked == |s.blocks|
  }

  type SoundCache = s: Cache | Sound(s) ghost witness Cache(_ => 0, EMPTY, [], Nil, map[], 0, map[])

  function Used(s: Cache): int {
    |s.blocks| - Len(s.free)
  }

  ghost function Store(s: Cache, capacity: nat, k: Key, loc: Location, createdAt: int, data: seq<byte>,
                       block: seq<byte>): Cache
    requires s.free.Cons? && 0 <= s.free.head < |s.blocks|
  {
    var evicted := Evicted(s.index, k, capacity);
    Cache(s.crc, Insert(s.index, k, IndexEntry([loc], createdAt), capacity),
          s.blocks[s.free.head := block], s.free.tail,
          (s.contents - Elems(evicted))[k := data],
          s.leaked + Len(evicted) + (if k in s.index.entries then 1 else 0),
          s.holder[s.free.head := k])
  }

  ghost function Get(s: Cache, k: Key): Cache {
    s.(index := Lookup(s.index, k))
  }

  ghost function Delete(s: Cache, k: Key): Cache {
    if k !in s.index.entries || |s.index.entries[k].blocks| != 1 then s
    else
      s.(index := Remove(s.index, k), free := Cons(s.index.entries[k].blocks[0].blockIndex, s.free),
         contents := s.contents - {k})
  }

  // ---- the operations keep the cache sound -------------------------------------------------

  /** Handing out the top free block and writing it leaves every entry's block as it was. */
  lemma WriteKeepsBacking(crc: Crc, blocks: seq<seq<byte>>, free: List<int>, holder: map<int, Key>, block: seq<byte>,
                          k: Key, l: Key, e: IndexEntry, data: seq<byte>)
    requires free.Cons? && 0 <= free.head < |blocks| && l != k
    requires Backs(crc, blocks, free, holder, l, e, data)
    ensures Backs(crc, blocks[free.head := block], free.tail, holder[free.head := k], l, e, data)
  {
    assert free.head in Elems(free);
  }

  lemma WriteBacked(crc: Crc, entries: map<Key, IndexEntry>, blocks: seq<seq<byte>>, free: List<int>,
                    contents: map<Key, seq<byte>>, holder: map<int, Key>,
                    gone: set<Key>, k: Key, v: IndexEntry, data: seq<byte>, block: seq<byte>)
    requires Backed(crc, entries, blocks, free, contents, holder) && FreeOk(|blocks|, free)
    requires free.Cons? && 0 <= free.head < |blocks|
    requires |v.blocks| == 1 && v.blocks[0].blockIndex == free.head && ReadVerified(crc, block) == Some(data)
    requires v.blocks[0].offset == Offset(|block|, free.head)
    ensures Backed(crc, (entries - gone)[k := v], blocks[free.head := block], free.tail,
                   (contents - gone)[k := data], holder[free.head := k])
  {
    var entries', contents' := (entries - gone)[k := v], (contents - gone)[k := data];
    forall l | l in entries'
      ensures Backs(crc, blocks[free.head := block], free.tail, holder[free.head := k], l, entries'[l], contents'[l])
    {
      if l != k {
        WriteKeepsBacking(crc, blocks, free, holder, block, k, l, entries[l], contents[l]);
      }
    }
  }

  lemma StoreCounts(s: Cache, capacity: nat, k: Key, v: IndexEntry)
    requires Agree(s.index) && s.free.Cons? && Len(s.free) + |s.index.entries| + s.leaked == |s.blocks|
    ensures Len(s.free.tail) + |Insert(s.index, k, v, capacity).entries| + s.leaked
            + Len(Evicted(s.index, k, capacity)) + (if k in s.index.entries then 1 else 0) == |s.blocks|
    ensures capacity >= |s.blocks| ==> Evicted(s.index, k, capacity) == Nil
  {
    InsertAgrees(s.index, k, v, capacity);
    AgreeSize(s.index);
    AgreeSize(Insert(s.index, k, v, capacity));
  }

  lemma FreeTail(n: nat, free: List<int>)
    requires FreeOk(n, free) && free.Cons?
    ensures FreeOk(n, free.tail) && 0 <= free.head < n
  {
    assert free.head in Elems(free);
    forall b | b in Elems(free.tail) ensures 0 <= b < n { assert b in Elems(free); }
  }

  /** What a client and the pool statistics see of a successful store: the key's bytes are replaced, the
      evicted keys are gone, one more block is in use; with at least as much index capacity as blocks
      nothing is evicted. */
  ghost predicate Replaces(s: Cache, s': Cache, capacity: nat, k: Key, data: seq<byte>) {
    && s'.contents == (s.contents - Elems(Evicted(s.index, k, capacity)))[k := data]
    && Used(s') == Used(s) + 1
    && (capacity >= |s.blocks| ==> s'.contents == s.contents[k := data])
  }

  lemma FreeTop(s: Cache)
    requires Sound(s)
    ensures forall b :: b in Elems(s.free) ==> 0 <= b < |s.blocks|
    ensures s.free.Cons? ==> 0 <= s.free.head < |s.blocks|
  {
    if s.free.Cons? { FreeTail(|s.blocks|, s.free); }
  }

  /** A store keeps the cache sound. */
  lemma StoreSound(s: Cache, capacity: nat, k: Key, loc: Location, createdAt: int, data: seq<byte>, block: seq<byte>)
    requires Sound(s) && s.free.Cons? && 0 <= s.free.head < |s.blocks|
    requires loc.blockIndex == s.free.head && loc.offset == Offset(|block|, s.free.head)
    requires ReadVerified(s.crc, block) == Some(data)
    ensures Sound(Store(s, capacity, k, loc, createdAt, data, block))
  {
    hide Backed, FreeOk, Agree, Insert, ReadVerified;
    var v, gone := IndexEntry([loc], createdAt), Elems(Evicted(s.index, k, capacity));
    var index := Insert(s.index, k, v, capacity);
    assert Agree(index) && index.entries == (s.index.entries - gone)[k := v] by {
      InsertAgrees(s.index, k, v, capacity);
    }
    assert Backed(s.crc, index.entries, s.blocks[s.free.head := block], s.free.tail,
                  (s.contents - gone)[k := data], s.holder[s.free.head := k]) by {
      WriteBacked(s.crc, s.index.entries, s.blocks, s.free, s.contents, s.holder, gone, k, v, data, block);
    }
    FreeTail(|s.blocks|, s.free);
    StoreCounts(s, capacity, k, v);
  }

  lemma NothingEvicted(s: Cache, capacity: nat, k: Key)
    requires Agree(s.index) && s.free.Cons? && Len(s.free) + |s.index.entries| + s.leaked == |s.blocks|
    requires capacity >= |s.blocks|
    ensures Elems(Evicted(s.index, k, capacity)) == {}
  {
    StoreCounts(s, capacity, k, IndexEntry([], 0));
  }

  /** What a store does to what clients see. */
  lemma StoreReplaces(s: Cache, capacity: nat, k: Key, loc: Location, createdAt: int, data: seq<byte>, block: seq<byte>)
    requires Sound(s) && s.free.Cons? && 0 <= s.free.head < |s.blocks|
    ensures Replaces(s, Store(s, capacity, k, loc, createdAt, data, block), capacity, k, data)
  {
    hide Backed, FreeOk, Agree, Insert;
    if capacity >= |s.blocks| {
      NothingEvicted(s, capacity, k);
      assert s.contents - {} == s.contents;
    }
  }

  lemma GetSound(s: Cache, k: Key)
    requires Sound(s)
    ensures Sound(Get(s, k))
  {
    LookupAgrees(s.index, k);
  }

  lemma {:induction false} LookedSound(s: Cache, ks: seq<Key>, n: nat)
    requires Sound(s) && n <= |ks|
    ensures Sound(s.(index := Looked(s.index, ks, n)))
  {
    hide Sound, Lookup;
    if n > 0 {
      LookedSound(s, ks, n - 1);
      GetSound(s.(index := Looked(s.index, ks, n - 1)), ks[n - 1]);
    }
  }

  /** In every sound cache each entry has one block, so the flat list of `batch_lookup` splits back. */
  lemma EntriesAreSingle(s: Cache)
    requires Sound(s)
    ensures SingleBlocks(s.index)
  {
    forall k | k in s.index.entries ensures |s.index.entries[k].blocks| == 1 {
      assert Backs(s.crc, s.blocks, s.free, s.holder, k, s.index.entries[k], s.contents[k]);
    }
  }

  lemma FreeKeepsBacking(crc: Crc, blocks: seq<seq<byte>>, free: List<int>, holder: map<int, Key>,
                         k: Key, e: IndexEntry, data: seq<byte>, l: Key, f: IndexEntry, other: seq<byte>)
    requires l != k && Backs(crc, blocks, free, holder, k, e, data) && Backs(crc, blocks, free, holder, l, f, other)
    ensures Backs(crc, blocks, Cons(e.blocks[0].blockIndex, free), holder, l, f, other)
  {
  }

  lemma DeleteBacked(crc: Crc, entries: map<Key, IndexEntry>, blocks: seq<seq<byte>>, free: List<int>,
                     contents: map<Key, seq<byte>>, holder: map<int, Key>, k: Key)
    requires Backed(crc, entries, blocks, free, contents, holder) && k in entries
    ensures |entries[k].blocks| == 1 && 0 <= entries[k].blocks[0].blockIndex < |blocks|
    ensures entries[k].blocks[0].blockIndex !in Elems(free)
    ensures Backed(crc, entries - {k}, blocks, Cons(entries[k].blocks[0].blockIndex, free), contents - {k}, holder)
  {
    hide ReadVerified, Start;
    assert Backs(crc, blocks, free, holder, k, entries[k], contents[k]);
    var free' := Cons(entries[k].blocks[0].blockIndex, free);
    forall l | l in entries - {k} ensures Backs(crc, blocks, free', holder, l, entries[l], contents[l]) {
      FreeKeepsBacking(crc, blocks, free, holder, k, entries[k], contents[k], l, entries[l], contents[l]);
    }
  }

  lemma OneLess(entries: map<Key, IndexEntry>, k: Key)
    requires k in entries
    ensures |entries - {k}| == |entries| - 1
  {
    assert (entries - {k}).Keys == entries.Keys - {k};
    assert |entries.Keys| == |entries| && |(entries - {k}).Keys| == |entries - {k}|;
  }

  lemma SameKeys(s: Cache)
    requires Sound(s)
    ensures s.contents.Keys == s.index.entries.Keys
  {
  }

  lemma FewerFree(s: Cache)
    requires Sound(s)
    ensures Len(s.free) <= |s.blocks|
  {
  }

  lemma FreeMore(n: nat, free: List<int>, b: int)
    requires FreeOk(n, free) && 0 <= b < n && b !in Elems(free)
    ensures FreeOk(n, Cons(b, free))
  {
  }

  /** A delete keeps the cache sound, and frees the key's own block. */
  lemma DeleteSound(s: Cache, k: Key)
    requires Sound(s)
    ensures Sound(Delete(s, k))
    ensures k in s.index.entries ==>
              |s.index.entries[k].blocks| == 1 && 0 <= s.index.entries[k].blocks[0].blockIndex < |s.blocks|
    ensures k in s.contents <==> k in s.index.entries
  {
    hide Backed, Agree, FreeOk;
    SameKeys(s);
    if k in s.index.entries {
      DeleteBacked(s.crc, s.index.entries, s.blocks, s.free, s.contents, s.holder, k);
      FreeMore(|s.blocks|, s.free, s.index.entries[k].blocks[0].blockIndex);
      RemoveAgrees(s.index, k);
      OneLess(s.index.entries, k);
    }
  }

  lemma FreshSound(crc: Crc, blocks: seq<seq<byte>>)
    ensures Sound(Cache(crc, EMPTY, blocks, Countdown(|blocks|), map[], 0, map[]))
  {
    CountdownDistinct(|blocks|);
    forall b | b in Elems(Countdown(|blocks|)) ensures 0 <= b < |blocks| { CountdownHas(|blocks|, b); }
  }

  /** What a client and the pool statistics see of a delete. */
  ghost predicate Removes(s: Cache, s': Cache, k: Key) {
    s'.contents == s.contents - {k} && Used(s') == Used(s) - (if k in s.contents then 1 else 0)
  }

  lemma DeleteRemoves(s: Cache, k: Key)
    requires Sound(s)
    ensures Removes(s, Delete(s, k), k)
  {
    if k in s.index.entries {
      assert Backs(s.crc, s.blocks, s.free, s.holder, k, s.index.entries[k], s.contents[k]);
    } else {
      assert s.contents - {k} == s.contents;
    }
  }

  /** A read of an indexed key's block returns the key's contents. */
  lemma ReadIsContents(s: Cache, k: Key)
    requires Sound(s) && k in s.index.entries
    ensures k in s.contents && |s.index.entries[k].blocks| == 1
    ensures var b := s.index.entries[k].blocks[0].blockIndex;
            && 0 <= b < |s.blocks| && s.index.entries[k].blocks[0].offset == Start(s.blocks, b)
            && ReadVerified(s.crc, s.blocks[b]) == Some(s.contents[k])
  {
    assert Backs(s.crc, s.blocks, s.free, s.holder, k, s.index.entries[k], s.contents[k]);
  }
}

/** `batch_lookup` (grpc.rs) as a fold of index lookups. */
module BatchModel {
  import opened Bytes
  import opened Lists
  import opened IndexModel

  /** The index after the first `n` lookups. */
  function Looked(m: Index, ks: seq<Key>, n: nat): Index
    requires n <= |ks|
  {
    if n == 0 then m else Lookup(Looked(m, ks, n - 1), ks[n - 1])
  }

  /** What independent lookups of the keys would say. */
  function Found(m: Index, ks: seq<Key>): seq<bool> {
    seq(|ks|, i requires 0 <= i < |ks| => ks[i] in m.entries)
  }

  function Hits(m: Index, ks: seq<Key>, n: nat): nat
    requires n <= |ks|
  {
    if n == 0 then 0
    else
      var k := ks[n - 1];
      Hits(m, ks, n - 1) + if k in m.entries then 1 else 0
  }

  /** The flat block list after `n` lookups. */
  function Blocks(m: Index, ks: seq<Key>, n: nat): seq<Location>
    requires n <= |ks|
  {
    if n == 0 then []
    else
      var k := ks[n - 1];
      Blocks(m, ks, n - 1) + if k in m.entries then m.entries[k].blocks else []
  }

  /** What the loop of `batch_lookup` has gathered. */
  datatype Tally = Tally(found: seq<bool>, blocks: seq<Location>, hits: int, misses: int)

  function EntryOf(m: Index, k: Key): Option<IndexEntry> {
    if k in m.entries then Some(m.entries[k]) else None
  }

  function Extended(t: Tally, e: Option<IndexEntry>): Tally {
    match e
    case Some(v) => Tally(t.found + [true], t.blocks + v.blocks, t.hits + 1, t.misses)
    case None => Tally(t.found + [false], t.blocks, t.hits, t.misses + 1)
  }

  function Tallied(m: Index, ks: seq<Key>, n: nat): Tally
    requires n <= |ks|
  {
    if n == 0 then Tally([], [], 0, 0) else Extended(Tallied(m, ks, n - 1), EntryOf(m, ks[n - 1]))
  }

  /** One turn of the loop: earlier lookups have not changed what this one finds. */
  lemma Turn(m: Index, ks: seq<Key>, n: nat, k: Key)
    requires n < |ks| && k == ks[n]
    ensures Tallied(m, ks, n + 1) == Extended(Tallied(m, ks, n), EntryOf(Looked(m, ks, n), k))
    ensures Looked(m, ks, n + 1) == Lookup(Looked(m, ks, n), k)
  {
    LookedEntries(m, ks, n);
  }

  /** The loop gathers the flags of independent lookups, the blocks of the keys found, and their number. */
  lemma {:induction false} Gathered(m: Index, ks: seq<Key>, n: nat)
    requires n <= |ks|
    ensures Tallied(m, ks, n) == Tally(Found(m, ks)[..n], Blocks(m, ks, n), Hits(m, ks, n), n - Hits(m, ks, n))
    ensures n == |ks| ==> Tallied(m, ks, n).found == Found(m, ks)
  {
    if n > 0 {
      Gathered(m, ks, n - 1);
      var k := ks[n - 1];
      assert Found(m, ks)[..n] == Found(m, ks)[..n - 1] + [k in m.entries];
    }
  }

  /** Lookups touch the LRU and nothing else, so no lookup affects what a later one finds. */
  lemma {:induction false} LookedEntries(m: Index, ks: seq<Key>, n: nat)
    requires n <= |ks|
    ensures Looked(m, ks, n).entries == m.entries
  {
    if n > 0 { LookedEntries(m, ks, n - 1); }
  }

  ghost predicate SingleBlocks(m: Index) {
    forall k :: k in m.entries ==> |m.entries[k].blocks| == 1
  }

  /** When every entry has one block, the flat list splits back: the block of the `i`-th key, if found,
      is at the number of earlier hits, and there are exactly as many blocks as hits. */
  lemma {:induction false} BlockOfKey(m: Index, ks: seq<Key>, i: nat, n: nat)
    requires i < n <= |ks| && SingleBlocks(m)
    ensures |Blocks(m, ks, n)| == Hits(m, ks, n)
    ensures var k := ks[i];
            k in m.entries ==>
              Hits(m, ks, i) < Hits(m, ks, n) && Blocks(m, ks, n)[Hits(m, ks, i)] == m.entries[k].blocks[0]
  {
    BlocksCount(m, ks, n - 1);
    BlocksCount(m, ks, n);
    if i < n - 1 { BlockOfKey(m, ks, i, n - 1); }
  }

  lemma {:induction false} BlocksCount(m: Index, ks: seq<Key>, n: nat)
    requires n <= |ks| && SingleBlocks(m)
    ensures |Blocks(m, ks, n)| == Hits(m, ks, n)
  {
    if n > 0 {
      BlocksCount(m, ks, n - 1);
      var k := ks[n - 1];
      if k in m.entries { assert |m.entries[k].blocks| == 1; }
    }
  }

  /** The keys found, last request first, each once. */
  function Recent(m: Index, ks: seq<Key>, n: nat): List<int>
    requires n <= |ks|
  {
    if n == 0 then Nil
    else if ks[n - 1] in m.entries then Touch(Recent(m, ks, n - 1), ks[n - 1])
    else Recent(m, ks, n - 1)
  }

  function WithoutAll(l: List<int>, m: List<int>): List<int> {
    match m
    case Nil => l
    case Cons(x, t) => Without(WithoutAll(l, t), x)
  }

  lemma {:induction false} WithoutSwap(l: List<int>, x: int, y: int)
    ensures Without(Without(l, x), y) == Without(Without(l, y), x)
  {
    if l.Cons? { WithoutSwap(l.tail, x, y); }
  }

  lemma {:induction false} WithoutTwice(l: List<int>, x: int)
    ensures Without(Without(l, x), x) == Without(l, x)
  {
    if l.Cons? { WithoutTwice(l.tail, x); }
  }

  /** Removing `x` as well, in any order, is the same. */
  lemma {:induction false} WithoutAllTouch(l: List<int>, m: List<int>, x: int)
    ensures Without(WithoutAll(l, m), x) == WithoutAll(l, Touch(m, x))
  {
    if m.Cons? {
      WithoutAllTouch(l, m.tail, x);
      var r := WithoutAll(l, m.tail);
      WithoutSwap(r, m.head, x);
      if m.head == x {
        WithoutTwice(r, x);
      } else {
        var q := WithoutAll(l, Without(m.tail, x));
        WithoutSwap(q, m.head, x);
      }
    }
  }

  /** After the batch the keys found come first, the last found foremost, and all others follow in the
      order they had. */
  lemma {:induction false} LookedOrder(m: Index, ks: seq<Key>, n: nat)
    requires n <= |ks|
    ensures Looked(m, ks, n).recency == Append(Recent(m, ks, n), WithoutAll(m.recency, Recent(m, ks, n)))
  {
    if n > 0 {
      LookedOrder(m, ks, n - 1);
      LookedEntries(m, ks, n - 1);
      var r, k := Recent(m, ks, n - 1), ks[n - 1];
      if k in m.entries {
        WithoutAppend(r, WithoutAll(m.recency, r), k);
        WithoutAllTouch(m.recency, r, k);
      }
    }
  }
}
