/**
 Whole sequential runs of the cache, for every index capacity: a history of accepted stores, lookups
 and deletes, folded over `CacheModel`. `CacheService.Service` carries such a history of its own calls.
 */
module CacheRuns {
  import opened Bytes
  import opened Lists
  import opened BlockFormat
  import opened IndexModel
  import Ops = IndexRuns
  import BatchModel
  import Model = CacheModel
  import Memory

  /** A store that found a free block and was written to it, an index lookup, or a delete. Refused requests
      change nothing and leave no event. */
  datatype Event =
    | Stored(key: Key, data: seq<byte>, loc: Location, createdAt: int, block: seq<byte>)
    | Looked(key: Key)
    | Deleted(key: Key)

  datatype History = Start | Then(past: History, event: Event)

  /** The pool a run starts with, all of it free, and the capacity of the index. */
  datatype Setup = Setup(crc: Crc, blocks: seq<seq<byte>>, capacity: nat)

  /** A store writes the block on top of the free list so that it reads as the data. */
  ghost predicate Possible(s: Model.Cache, e: Event) {
    e.Stored? ==>
      && s.free.Cons? && 0 <= s.free.head < |s.blocks|
      && e.loc.blockIndex == s.free.head && e.loc.offset == Memory.Offset(|e.block|, s.free.head)
      && ReadVerified(s.crc, e.block) == Some(e.data)
  }

  ghost function Step(s: Model.Cache, capacity: nat, e: Event): Model.Cache
    requires Possible(s, e)
  {
    match e
    case Stored(k, data, loc, at, block) => Model.Store(s, capacity, k, loc, at, data, block)
    case Looked(k) => Model.Get(s, k)
    case Deleted(k) => Model.Delete(s, k)
  }

  ghost predicate Run(c: Setup, h: History)
    decreases h, 0
  {
    h.Then? ==> Run(c, h.past) && Possible(After(c, h.past), h.event)
  }

  ghost function After(c: Setup, h: History): Model.Cache
    requires Run(c, h)
    decreases h, 1
  {
    match h
    case Start => Model.Cache(c.crc, EMPTY, c.blocks, Countdown(|c.blocks|), map[], 0, map[])
    case Then(past, e) => Step(After(c, past), c.capacity, e)
  }

  lemma StepSound(s: Model.Cache, capacity: nat, e: Event)
    requires Model.Sound(s) && Possible(s, e)
    ensures Model.Sound(Step(s, capacity, e))
    ensures |Step(s, capacity, e).blocks| == |s.blocks| && Step(s, capacity, e).crc == s.crc
  {
    hide Model.Sound;
    match e
    case Stored(k, data, loc, at, block) => Model.StoreSound(s, capacity, k, loc, at, data, block);
    case Looked(k) => Model.GetSound(s, k);
    case Deleted(k) => Model.DeleteSound(s, k);
  }

  /** In every run every indexed key's block, read through header and checksum, holds the key's contents, no
      block is shared or both free and indexed, and every block is accounted for. */
  lemma {:induction false} RunSound(c: Setup, h: History)
    requires Run(c, h)
    ensures Model.Sound(After(c, h)) && |After(c, h).blocks| == |c.blocks| && After(c, h).crc == c.crc
  {
    hide Model.Sound;
    if h.Then? {
      RunSound(c, h.past);
      StepSound(After(c, h.past), c.capacity, h.event);
    } else {
      Model.FreshSound(c.crc, c.blocks);
    }
  }

  // ---- the index inside the run ------------------------------------------------------------

  function IndexOp(e: Event): Ops.Op {
    match e
    case Stored(k, _, loc, at, _) => Ops.OpInsert(k, IndexEntry([loc], at))
    case Looked(k) => Ops.OpLookup(k)
    case Deleted(k) => Ops.OpRemove(k)
  }

  function IndexOps(h: History): Ops.History {
    match h
    case Start => Ops.Start
    case Then(past, e) => Ops.Then(IndexOps(past), IndexOp(e))
  }

  lemma StepIndex(s: Model.Cache, capacity: nat, e: Event)
    requires Model.Sound(s) && Possible(s, e)
    ensures Step(s, capacity, e).index == Ops.Step(s.index, IndexOp(e), capacity)
  {
    if e.Deleted? { Model.DeleteSound(s, e.key); }
  }

  /** The index of the run is the index of its operations, so its victims are the keys used longest ago. */
  lemma {:induction false} IndexFollows(c: Setup, h: History)
    requires Run(c, h)
    ensures After(c, h).index == Ops.After(IndexOps(h), c.capacity)
  {
    if h.Then? {
      IndexFollows(c, h.past);
      RunSound(c, h.past);
      StepIndex(After(c, h.past), c.capacity, h.event);
    }
  }

  // ---- what becomes of a key ---------------------------------------------------------------

  datatype Fate = Never | Held(data: seq<byte>) | WasDeleted | WasEvicted

  /** The keys a store evicts, oldest use first. */
  function Gone(h: History, k: Key, capacity: nat): List<int> {
    Evicted(Ops.After(IndexOps(h), capacity), k, capacity)
  }

  /** What the history says of a key: never stored, stored and since neither deleted nor evicted, or which of
      the two came last. */
  function FateOf(h: History, k: Key, capacity: nat): Fate {
    match h
    case Start => Never
    case Then(past, Stored(l, data, _, _, _)) =>
      if l == k then Held(data)
      else if k in Elems(Gone(past, l, capacity)) then WasEvicted
      else FateOf(past, k, capacity)
    case Then(past, Looked(_)) => FateOf(past, k, capacity)
    case Then(past, Deleted(l)) =>
      if l == k && FateOf(past, k, capacity).Held? then WasDeleted else FateOf(past, k, capacity)
  }

  /** What a client reads under `k`. */
  function Reads(contents: map<Key, seq<byte>>, k: Key): Option<seq<byte>> {
    if k in contents then Some(contents[k]) else None
  }

  function Kept(f: Fate): Option<seq<byte>> {
    if f.Held? then Some(f.data) else None
  }

  lemma StepReads(s: Model.Cache, capacity: nat, e: Event, k: Key)
    requires Model.Sound(s) && Possible(s, e)
    ensures Reads(Step(s, capacity, e).contents, k) ==
            match e
            case Stored(l, data, _, _, _) =>
              if l == k then Some(data)
              else if k in Elems(Evicted(s.index, l, capacity)) then None else Reads(s.contents, k)
            case Looked(_) => Reads(s.contents, k)
            case Deleted(l) => if l == k then None else Reads(s.contents, k)
  {
    if e.Deleted? { Model.DeleteRemoves(s, e.key); }
  }

  lemma {:induction false} ContentsFollow(c: Setup, h: History, k: Key)
    requires Run(c, h)
    ensures Reads(After(c, h).contents, k) == Kept(FateOf(h, k, c.capacity))
  {
    if h.Then? {
      ContentsFollow(c, h.past, k);
      RunSound(c, h.past);
      IndexFollows(c, h.past);
      StepReads(After(c, h.past), c.capacity, h.event, k);
    }
  }

  /** What `get` reads under `k`: the block the index names for it, through header and checksum. */
  function Fetched(s: Model.Cache, k: Key): Option<seq<byte>> {
    if k !in s.index.entries || |s.index.entries[k].blocks| != 1 then None
    else
      var b := s.index.entries[k].blocks[0].blockIndex;
      if 0 <= b < |s.blocks| then ReadVerified(s.crc, s.blocks[b]) else None
  }

  /** Over every run and for every capacity, the block the index names for a key reads, through header and
      checksum, as exactly the bytes of the key's last accepted store; and the index names none exactly when
      the key was never stored or was deleted or evicted since. */
  lemma ReadsLastStored(c: Setup, h: History, k: Key)
    requires Run(c, h)
    ensures Fetched(After(c, h), k) == Reads(After(c, h).contents, k) == Kept(FateOf(h, k, c.capacity))
    ensures k in After(c, h).index.entries <==> FateOf(h, k, c.capacity).Held?
  {
    hide Model.Sound, ReadVerified;
    ContentsFollow(c, h, k);
    RunSound(c, h);
    Model.SameKeys(After(c, h));
    if k in After(c, h).index.entries { Model.ReadIsContents(After(c, h), k); }
  }

  /** After every run the flat list of a batch lookup splits back: the block of the `i`-th key, if found, is
      at the number of earlier hits, and there are exactly as many blocks as hits. */
  lemma BatchSplits(c: Setup, h: History, ks: seq<Key>, i: nat)
    requires Run(c, h) && i < |ks|
    ensures var m, k := After(c, h).index, ks[i];
            && |BatchModel.Blocks(m, ks, |ks|)| == BatchModel.Hits(m, ks, |ks|)
            && (k in m.entries ==>
                  && BatchModel.Hits(m, ks, i) < BatchModel.Hits(m, ks, |ks|) && |m.entries[k].blocks| == 1
                  && BatchModel.Blocks(m, ks, |ks|)[BatchModel.Hits(m, ks, i)] == m.entries[k].blocks[0])
  {
    RunSound(c, h);
    Model.EntriesAreSingle(After(c, h));
    BatchModel.BlockOfKey(After(c, h).index, ks, i, |ks|);
  }

  // ---- conservation ------------------------------------------------------------------------

  datatype Tally = Tally(stores: int, deletes: int, overwrites: int, evictions: int)

  /** Stores, deletes of keys that were there, stores of keys that were there, and keys evicted. */
  function Count(h: History, capacity: nat): Tally {
    match h
    case Start => Tally(0, 0, 0, 0)
    case Then(past, e) =>
      var t, there := Count(past, capacity), FateOf(past, e.key, capacity).Held?;
      match e
      case Stored(k, _, _, _, _) =>
        Tally(t.stores + 1, t.deletes, t.overwrites + (if there then 1 else 0),
              t.evictions + Len(Gone(past, k, capacity)))
      case Looked(_) => t
      case Deleted(_) => t.(deletes := t.deletes + if there then 1 else 0)
  }

  lemma StepCounts(s: Model.Cache, capacity: nat, e: Event)
    requires Model.Sound(s) && Possible(s, e)
    ensures var s', there := Step(s, capacity, e), Reads(s.contents, e.key).Some?;
            && Model.Used(s') == Model.Used(s) + (if e.Stored? then 1 else if e.Deleted? && there then -1 else 0)
            && s'.leaked == s.leaked +
               (if e.Stored? then Len(Evicted(s.index, e.key, capacity)) + (if there then 1 else 0) else 0)
  {
    if e.Deleted? { Model.DeleteRemoves(s, e.key); }
  }

  lemma SoundCounts(s: Model.Cache)
    requires Model.Sound(s)
    ensures Model.Used(s) == |s.contents| + s.leaked && Model.Used(s) <= |s.blocks|
    ensures Model.Used(s) == |s.blocks| <==> s.free.Nil?
  {
    assert |s.contents.Keys| == |s.contents| && |s.index.entries.Keys| == |s.index.entries|;
  }

  /** Conservation over every run: used blocks are stores less deletes; they are also the keys held plus the
      leaked blocks, and blocks leak by overwriting and by eviction and are never recovered. The pool is
      empty, and refuses every store, exactly when stores exceed deletes by the number of blocks. */
  lemma {:induction false} UsedBalance(c: Setup, h: History)
    requires Run(c, h)
    ensures var s, t := After(c, h), Count(h, c.capacity);
            && Model.Used(s) == t.stores - t.deletes == |s.contents| + s.leaked
            && s.leaked == t.overwrites + t.evictions
            && (s.free.Nil? <==> t.stores - t.deletes == |c.blocks|)
  {
    RunSound(c, h);
    SoundCounts(After(c, h));
    if h.Then? {
      UsedBalance(c, h.past);
      RunSound(c, h.past);
      IndexFollows(c, h.past);
      ContentsFollow(c, h.past, h.event.key);
      StepCounts(After(c, h.past), c.capacity, h.event);
    } else {
      CountdownDistinct(|c.blocks|);
    }
  }

  /** With the index as large as the pool no run evicts: the cache is a plain map. */
  lemma {:induction false} NothingIsEvicted(c: Setup, h: History, k: Key)
    requires Run(c, h) && c.capacity >= |c.blocks|
    ensures Count(h, c.capacity).evictions == 0 && FateOf(h, k, c.capacity) != WasEvicted
  {
    if h.Then? {
      NothingIsEvicted(c, h.past, k);
      RunSound(c, h.past);
      IndexFollows(c, h.past);
      if h.event.Stored? { NoVictims(After(c, h.past), c.capacity, h.event.key); }
    }
  }

  lemma NoVictims(s: Model.Cache, capacity: nat, k: Key)
    requires Model.Sound(s) && s.free.Cons? && capacity >= |s.blocks|
    ensures Evicted(s.index, k, capacity) == Nil
  {
    Model.NothingEvicted(s, capacity, k);
  }

  /** The history has stores of one key only. */
  predicate OnlyStores(h: History, k: Key) {
    h.Then? ==> h.event.Stored? && h.event.key == k && OnlyStores(h.past, k)
  }

  function Size(h: History): nat {
    if h.Start? then 0 else 1 + Size(h.past)
  }

  lemma {:induction false} OneKeyCounts(c: Setup, h: History, k: Key)
    requires Run(c, h) && OnlyStores(h, k)
    ensures var t := Count(h, c.capacity);
            && (t.stores, t.deletes) == (Size(h), 0)
            && (FateOf(h, k, c.capacity).Held? <==> h.Then?)
            && forall l :: l != k ==> FateOf(h, l, c.capacity) in {Never, WasEvicted}
  {
    if h.Then? { OneKeyCounts(c, h.past, k); }
  }

  /** Storing one key over and over uses up the pool: as many stores as there are blocks leave the cache with
      that key alone and no free block, so it refuses every further store. */
  lemma OneKeyFillsThePool(c: Setup, h: History, k: Key)
    requires Run(c, h) && OnlyStores(h, k) && Size(h) == |c.blocks|
    ensures After(c, h).free.Nil? && After(c, h).contents.Keys == if |c.blocks| == 0 then {} else {k}
  {
    OneKeyCounts(c, h, k);
    UsedBalance(c, h);
    forall l ensures l in After(c, h).contents <==> l == k && h.Then? { ContentsFollow(c, h, l); }
  }

  // ---- what locations say ------------------------------------------------------------------

  /** Every location stored is of this node and of blocks of this size. */
  predicate Sized(h: History, node: int, size: int) {
    h.Then? ==>
      && Sized(h.past, node, size)
      && (h.event.Stored? ==> h.event.loc.nodeId == node && h.event.loc.blockSize == size)
  }

  ghost predicate AllOf(entries: map<Key, IndexEntry>, node: int, size: int) {
    forall k :: k in entries ==>
      |entries[k].blocks| == 1 && entries[k].blocks[0].nodeId == node && entries[k].blocks[0].blockSize == size
  }

  lemma InsertSized(m: Index, k: Key, loc: Location, at: int, capacity: nat, node: int, size: int)
    requires Agree(m) && AllOf(m.entries, node, size) && loc.nodeId == node && loc.blockSize == size
    ensures AllOf(Insert(m, k, IndexEntry([loc], at), capacity).entries, node, size)
  {
    hide Insert, Evicted, Agree;
    InsertAgrees(m, k, IndexEntry([loc], at), capacity);
  }

  lemma StepSized(s: Model.Cache, capacity: nat, e: Event, node: int, size: int)
    requires Model.Sound(s) && Possible(s, e) && AllOf(s.index.entries, node, size)
    requires e.Stored? ==> e.loc.nodeId == node && e.loc.blockSize == size
    ensures AllOf(Step(s, capacity, e).index.entries, node, size)
  {
    hide Insert, Evicted, Agree, ReadVerified, Model.Backed, AllOf;
    match e
    case Stored(k, _, loc, at, _) => InsertSized(s.index, k, loc, at, capacity, node, size);
    case Looked(_) =>
    case Deleted(k) => LessSized(s.index.entries, k, node, size);
  }

  lemma LessSized(entries: map<Key, IndexEntry>, k: Key, node: int, size: int)
    requires AllOf(entries, node, size)
    ensures AllOf(entries - {k}, node, size)
  {
  }

  /** Then so is every location in the index. */
  lemma {:induction false} EntriesSized(c: Setup, h: History, node: int, size: int)
    requires Run(c, h) && Sized(h, node, size)
    ensures AllOf(After(c, h).index.entries, node, size)
  {
    if h.Then? {
      EntriesSized(c, h.past, node, size);
      RunSound(c, h.past);
      StepSized(After(c, h.past), c.capacity, h.event, node, size);
    }
  }

  // ---- a recorded run ----------------------------------------------------------------------

  datatype Recording = Recording(setup: Setup, history: History)

  type Recorded = r: Recording | Run(r.setup, r.history) ghost witness Recording(Setup(_ => 0, [], 0), Start)

  /** The cache a recording leads to. */
  ghost function Outcome(r: Recorded): Model.Cache {
    After(r.setup, r.history)
  }

  ghost function Extended(r: Recorded, e: Event): (x: Recorded)
    requires Possible(Outcome(r), e)
    ensures x == Recording(r.setup, Then(r.history, e))
    ensures Outcome(x) == Step(Outcome(r), r.setup.capacity, e)
  {
    Recording(r.setup, Then(r.history, e))
  }

  /** The first `n` lookups of a batch. */
  ghost function Lookups(h: History, ks: seq<Key>, n: nat): History
    requires n <= |ks|
  {
    if n == 0 then h else Then(Lookups(h, ks, n - 1), Looked(ks[n - 1]))
  }

  lemma {:induction false} LookupsSized(h: History, ks: seq<Key>, n: nat, node: int, size: int)
    requires n <= |ks| && Sized(h, node, size)
    ensures Sized(Lookups(h, ks, n), node, size)
  {
    if n > 0 { LookupsSized(h, ks, n - 1, node, size); }
  }

  ghost function Batched(r: Recorded, ks: seq<Key>, n: nat): (x: Recorded)
    requires n <= |ks|
    ensures x == Recording(r.setup, Lookups(r.history, ks, n))
    ensures Outcome(x) == Outcome(r).(index := BatchModel.Looked(Outcome(r).index, ks, n))
  {
    if n == 0 then r else Extended(Batched(r, ks, n - 1), Looked(ks[n - 1]))
  }
}
