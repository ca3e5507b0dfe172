/**
 The agent's store, get and delete handlers (grpc.rs) under concurrency, over the pool's free list,
 the generation counter, the block memory and the index protocol. Every locked section, every atomic
 fetch, every copy into or out of block memory and every index step is one step, and any number of
 requests interleave. The memory pressure monitor (pressure.rs) runs beside them.
 */
module AgentProtocol {
  import opened Bytes
  import opened Lists
  import opened BlockFormat
  import opened IndexModel
  import opened Traces
  import PressureLevels
  import Ix = IndexProtocol

  type Tid = int

  const WRAP: nat := 0x1_0000_0000_0000_0000
  const REJECT: int := PressureLevels.REJECT

  datatype Config =
    Config(blockSize: nat, totalBlocks: nat, capacity: nat, crc: Crc, warn: real, critical: real, reject: real)

  /** The subtraction in `allocate_and_write` does not underflow, `data_size` fits a `u32` and block
      numbers survive the cast to `u32`. */
  predicate Sane(c: Config) {
    && HEADER_SIZE <= c.blockSize && c.blockSize - HEADER_SIZE < 0x1_0000_0000
    && 1 <= c.totalBlocks <= 0x1_0000_0000
  }

  /** A request between two steps of its handler. While it is inside an index call it is in `ix.ops`
      instead. */
  datatype Request =
    | Started(key: Key, data: seq<byte>)                           // store: about to allocate
    | Allocated(key: Key, data: seq<byte>, block: int)             // store: about to draw a generation
    | Stamped(key: Key, data: seq<byte>, block: int, gen: nat)     // store: about to write the header
    | HeaderDone(key: Key, data: seq<byte>, block: int, gen: nat)  // store: about to write the data
    | GetHeader(key: Key, loc: Location)                           // get: about to read the header
    | GetCrc(key: Key, loc: Location, header: Header)              // get: about to checksum the data
    | GetCopy(key: Key, loc: Location, header: Header)             // get: about to copy the data out
    | GetDone(key: Key, loc: Location, header: Header, result: Option<seq<byte>>)  // get: block sent, or data loss
    | Freeing(key: Key, loc: Location)                             // delete: about to deallocate

  /** Who has a block. The code keeps no such record; the steps below maintain it beside the state. */
  datatype Owner = Free | Held(t: Tid) | Entry(k: Key) | Dropped

  /** What a generation was drawn for, and how far its block has been written. Like `Owner`, a record
      beside the state that no step looks at. */
  datatype Stamp = Stamp(key: Key, data: seq<byte>, block: int, phase: Phase)
  datatype Phase = Drawn | Headed | Complete

  datatype Agent = Agent(
    ix: Ix.State, free: List<int>, nextGen: nat, mem: map<int, Block>, requests: map<Tid, Request>,
    evictions: nat, level: int, sampled: Option<int>,
    owner: map<int, Owner>, stamps: map<int, Stamp>)

  datatype Step =
    | StartStore(t: Tid, key: Key, data: seq<byte>)
    | Allocate(t: Tid)
    | DrawGeneration(t: Tid)
    | WriteHeader(t: Tid)
    | WriteData(t: Tid)
    | IndexStep(t: Tid)
    | StartGet(t: Tid, key: Key)
    | ReadHeader(t: Tid)
    | CheckCrc(t: Tid)
    | CopyOut(t: Tid)
    | FinishGet(t: Tid)
    | StartDelete(t: Tid, key: Key)
    | Deallocate(t: Tid)
    | Sample
    | Publish

  // ---- the steps ---------------------------------------------------------------------------

  predicate Idle(s: Agent, t: Tid) {
    t !in s.requests && t !in s.ix.ops
  }

  ghost predicate Enabled(c: Config, s: Agent, step: Step) {
    match step
    case StartStore(t, k, d) => Idle(s, t) && s.level < REJECT
    case Allocate(t) => t in s.requests && s.requests[t].Started?
    case DrawGeneration(t) => t in s.requests && s.requests[t].Allocated?
    case WriteHeader(t) => t in s.requests && s.requests[t].Stamped? && s.requests[t].block in s.mem
    case WriteData(t) =>
      && t in s.requests && s.requests[t].HeaderDone? && s.requests[t].block in s.mem
      && |s.requests[t].data| <= |s.mem[s.requests[t].block].body|
    case IndexStep(t) => t in s.ix.ops && Ix.Enabled(s.ix, Ix.Advance(t))
    case StartGet(t, k) => Idle(s, t)
    case ReadHeader(t) => t in s.requests && s.requests[t].GetHeader? && s.requests[t].loc.blockIndex in s.mem
    case CheckCrc(t) => t in s.requests && s.requests[t].GetCrc? && s.requests[t].loc.blockIndex in s.mem
    case CopyOut(t) =>
      && t in s.requests && s.requests[t].GetCopy? && s.requests[t].loc.blockIndex in s.mem
      && s.requests[t].header.dataSize <= |s.mem[s.requests[t].loc.blockIndex].body|
    case FinishGet(t) => t in s.requests && s.requests[t].GetDone?
    case StartDelete(t, k) => Idle(s, t) && Ix.Enabled(s.ix, Ix.BeginRemove(t, k))
    case Deallocate(t) => t in s.requests && s.requests[t].Freeing?
    case Sample => s.sampled.None?
    case Publish => s.sampled.Some? && c.totalBlocks >= 1
  }

  function With(s: Agent, t: Tid, r: Request): Agent {
    s.(requests := s.requests[t := r])
  }

  function Finished(s: Agent, t: Tid): Agent {
    s.(requests := s.requests - {t})
  }

  /** Data that does not fit a block, and an empty pool, both end the request with an error. */
  function DoAllocate(c: Config, s: Agent, t: Tid, k: Key, d: seq<byte>): Agent {
    if |d| + HEADER_SIZE > c.blockSize || s.free.Nil? then Finished(s, t)
    else
      With(s, t, Allocated(k, d, s.free.head)).(free := s.free.tail, owner := s.owner[s.free.head := Held(t)])
  }

  function DoDraw(s: Agent, t: Tid, k: Key, d: seq<byte>, b: int): Agent {
    var g := s.nextGen % WRAP;
    With(s, t, Stamped(k, d, b, g)).(nextGen := s.nextGen + 1, stamps := s.stamps[g := Stamp(k, d, b, Drawn)])
  }

  function DoWriteHeader(c: Config, s: Agent, t: Tid, k: Key, d: seq<byte>, b: int, g: nat): Agent
    requires b in s.mem
  {
    With(s, t, HeaderDone(k, d, b, g)).(
      mem := s.mem[b := s.mem[b].(header := NewHeader(c.crc, d, g))],
      stamps := s.stamps[g := Stamp(k, d, b, Headed)])
  }

  /** The location returned by `allocate_and_write` goes straight into `BlockIndex::insert`. */
  function DoWriteData(c: Config, s: Agent, t: Tid, k: Key, d: seq<byte>, b: int, g: int): Agent
    requires b in s.mem && |d| <= |s.mem[b].body|
  {
    var loc := Location(0, b, b * c.blockSize, c.blockSize, g);
    Finished(s, t).(
      mem := s.mem[b := s.mem[b].(body := Overwrite(s.mem[b].body, d))],
      stamps := s.stamps[g := Stamp(k, d, b, Complete)],
      ix := Ix.Apply(c.capacity, s.ix, Ix.BeginInsert(t, k, loc)))
  }

  /** `map.insert` drops the entry it replaces and `map.remove(victim)` the one it evicts; neither
      block is deallocated. */
  function IndexOwners(s: Agent, op: Ix.Op): map<int, Owner> {
    match op
    case InsertWrite(k, loc, _) => Orphan(s, k)[loc.blockIndex := Entry(k)]
    case InsertUnmap(_, _, _, v) => Orphan(s, v)
    case _ => s.owner
  }

  function Orphan(s: Agent, k: Key): map<int, Owner> {
    if k in s.ix.entries then s.owner[s.ix.entries[k].blockIndex := Dropped] else s.owner
  }

  function IndexRequests(s: Agent, t: Tid, op: Ix.Op): map<Tid, Request> {
    match op
    case LookupTouch(k, loc) => s.requests[t := GetHeader(k, loc)]
    case RemoveLru(k, loc) => s.requests[t := Freeing(k, loc)]
    case _ => s.requests
  }

  function DoIndex(c: Config, s: Agent, t: Tid): Agent
    requires t in s.ix.ops
  {
    var op := s.ix.ops[t];
    s.(ix := Ix.Progress(c.capacity, s.ix, t),
       owner := IndexOwners(s, op),
       requests := IndexRequests(s, t, op),
       evictions := if op.InsertTouch? then s.evictions + op.evicted else s.evictions)
  }

  function DoCheckCrc(c: Config, s: Agent, t: Tid, k: Key, loc: Location, h: Header): Agent
    requires loc.blockIndex in s.mem
  {
    var body := s.mem[loc.blockIndex].body;
    if h.dataSize > |body| || c.crc(body[..h.dataSize]) != h.crc32 then With(s, t, GetDone(k, loc, h, None))
    else With(s, t, GetCopy(k, loc, h))
  }

  function DoDelete(c: Config, s: Agent, t: Tid, k: Key): Agent {
    if k !in s.ix.entries then s
    else
      s.(ix := Ix.Apply(c.capacity, s.ix, Ix.BeginRemove(t, k)),
         owner := s.owner[s.ix.entries[k].blockIndex := Held(t)])
  }

  function DoDeallocate(s: Agent, t: Tid, b: int): Agent {
    Finished(s, t).(free := Cons(b, s.free), owner := s.owner[b := Free])
  }

  function Levels(c: Config): PressureLevels.Thresholds {
    PressureLevels.Thresholds(c.warn, c.critical, c.reject)
  }

  function Used(c: Config, s: Agent): int {
    c.totalBlocks - Len(s.free)
  }

  ghost function Apply(c: Config, s: Agent, step: Step): Agent
    requires Enabled(c, s, step)
  {
    match step
    case StartStore(t, k, d) => With(s, t, Started(k, d))
    case Allocate(t) => DoAllocate(c, s, t, s.requests[t].key, s.requests[t].data)
    case DrawGeneration(t) => DoDraw(s, t, s.requests[t].key, s.requests[t].data, s.requests[t].block)
    case WriteHeader(t) =>
      var Stamped(k, d, b, g) := s.requests[t];
      DoWriteHeader(c, s, t, k, d, b, g)
    case WriteData(t) =>
      var HeaderDone(k, d, b, g) := s.requests[t];
      DoWriteData(c, s, t, k, d, b, g)
    case IndexStep(t) => DoIndex(c, s, t)
    case StartGet(t, k) => s.(ix := Ix.Apply(c.capacity, s.ix, Ix.BeginLookup(t, k)))
    case ReadHeader(t) =>
      var GetHeader(k, loc) := s.requests[t];
      With(s, t, GetCrc(k, loc, s.mem[loc.blockIndex].header))
    case CheckCrc(t) => DoCheckCrc(c, s, t, s.requests[t].key, s.requests[t].loc, s.requests[t].header)
    case CopyOut(t) =>
      var GetCopy(k, loc, h) := s.requests[t];
      With(s, t, GetDone(k, loc, h, Some(s.mem[loc.blockIndex].body[..h.dataSize])))
    case FinishGet(t) => Finished(s, t)
    case StartDelete(t, k) => DoDelete(c, s, t, k)
    case Deallocate(t) => DoDeallocate(s, t, s.requests[t].loc.blockIndex)
    case Sample => s.(sampled := Some(if Used(c, s) < 0 then 0 else Used(c, s)))
    case Publish =>
      s.(sampled := None,
         level := PressureLevels.Classify(Levels(c), s.sampled.value as real / c.totalBlocks as real))
  }

  function ZeroBlock(c: Config): Block
    requires Sane(c)
  {
    Block(Header(0, 0, 0), seq(c.blockSize - HEADER_SIZE, _ => 0))
  }

  /** The pool hands out the highest block first; memory starts zeroed. */
  ghost function Initial(c: Config): Agent
    requires Sane(c)
  {
    Agent(Ix.INITIAL, Countdown(c.totalBlocks), 1,
          map b | b in Elems(Countdown(c.totalBlocks)) :: ZeroBlock(c),
          map[], 0, 0, None,
          map b | b in Elems(Countdown(c.totalBlocks)) :: Free, map[])
  }

  /** A run of the agent, latest step outermost. */
  type Trace = Steps<Step>

  ghost predicate Run(c: Config, tr: Trace)
    decreases tr, 0
  {
    match tr
    case Start => Sane(c)
    case Then(past, step) => Run(c, past) && Enabled(c, After(c, past), step)
  }

  ghost function After(c: Config, tr: Trace): Agent
    requires Run(c, tr)
    decreases tr, 1
  {
    match tr
    case Start => Initial(c)
    case Then(past, step) => Apply(c, After(c, past), step)
  }

  /** The run has no delete requests. */
  ghost predicate DeleteFree(tr: Trace) {
    tr.Then? ==> !tr.step.StartDelete? && DeleteFree(tr.past)
  }

  // ---- who has which block -----------------------------------------------------------------

  /** The block a handler has to itself between two of its steps. */
  function HeldBlock(r: Request): Option<int> {
    match r
    case Allocated(_, _, b) => Some(b)
    case Stamped(_, _, b, _) => Some(b)
    case HeaderDone(_, _, b, _) => Some(b)
    case Freeing(_, loc) => Some(loc.blockIndex)
    case _ => None
  }

  /** The block a handler has to itself inside an index call: a store until its block is in the map, a
      delete once it is out of it. */
  function CallBlock(op: Ix.Op): Option<int> {
    if op.LookupTouch? || op.InsertTouch? then None else Some(op.entry.blockIndex)
  }

  function Holding(requests: map<Tid, Request>, calls: map<Tid, Ix.Op>, t: Tid): Option<int> {
    if t in requests then HeldBlock(requests[t])
    else if t in calls then CallBlock(calls[t])
    else None
  }

  type Owners = map<int, Owner>

  // The record of owners is exactly what the state says.

  ghost predicate FreeOk(free: List<int>, owner: Owners) {
    NoDup(free) && forall b :: b in Elems(free) <==> b in owner && owner[b].Free?
  }

  ghost predicate HeldOk(requests: map<Tid, Request>, calls: map<Tid, Ix.Op>, owner: Owners) {
    && (forall t :: t in requests ==> t !in calls)
    && (forall t :: Holding(requests, calls, t).Some? ==>
          var b := Holding(requests, calls, t).value; b in owner && owner[b] == Held(t))
    && (forall b :: b in owner && owner[b].Held? ==> Holding(requests, calls, owner[b].t) == Some(b))
  }

  ghost predicate EntriesOk(entries: map<Key, Location>, owner: Owners) {
    && (forall k :: k in entries ==> var b := entries[k].blockIndex; b in owner && owner[b] == Entry(k))
    && (forall b :: b in owner && owner[b].Entry? ==>
          owner[b].k in entries && entries[owner[b].k].blockIndex == b)
  }

  ghost predicate Blocks(c: Config, owner: Owners) {
    forall b :: b in owner <==> 0 <= b < c.totalBlocks
  }

  ghost predicate Owned(c: Config, s: Agent) {
    && Blocks(c, s.owner) && FreeOk(s.free, s.owner)
    && HeldOk(s.requests, s.ix.ops, s.owner) && EntriesOk(s.ix.entries, s.owner)
  }

  // Blocks change hands one at a time.

  lemma Elsewhere(free: List<int>, requests: map<Tid, Request>, calls: map<Tid, Ix.Op>, entries: map<Key, Location>,
                  owner: Owners, b: int, o: Owner)
    requires b in owner
    ensures FreeOk(free, owner) && !owner[b].Free? && !o.Free? ==> FreeOk(free, owner[b := o])
    ensures HeldOk(requests, calls, owner) && !owner[b].Held? && !o.Held? ==> HeldOk(requests, calls, owner[b := o])
    ensures EntriesOk(entries, owner) && !owner[b].Entry? && !o.Entry? ==> EntriesOk(entries, owner[b := o])
  {
  }

  ghost predicate OthersSame(requests: map<Tid, Request>, calls: map<Tid, Ix.Op>,
                             requests': map<Tid, Request>, calls': map<Tid, Ix.Op>, t: Tid) {
    && (forall u :: u != t ==> Holding(requests', calls', u) == Holding(requests, calls, u))
    && (forall u :: u in requests' ==> u !in calls')
  }

  lemma HeldTaken(requests: map<Tid, Request>, calls: map<Tid, Ix.Op>, owner: Owners,
                  requests': map<Tid, Request>, calls': map<Tid, Ix.Op>, t: Tid, b: int)
    requires HeldOk(requests, calls, owner) && OthersSame(requests, calls, requests', calls', t)
    requires b in owner && !owner[b].Held?
    requires Holding(requests, calls, t) == None && Holding(requests', calls', t) == Some(b)
    ensures HeldOk(requests', calls', owner[b := Held(t)])
  {
  }

  lemma HeldGiven(requests: map<Tid, Request>, calls: map<Tid, Ix.Op>, owner: Owners,
                  requests': map<Tid, Request>, calls': map<Tid, Ix.Op>, t: Tid, b: int, o: Owner)
    requires HeldOk(requests, calls, owner) && OthersSame(requests, calls, requests', calls', t)
    requires !o.Held?
    requires Holding(requests, calls, t) == Some(b) && Holding(requests', calls', t) == None
    ensures HeldOk(requests', calls', owner[b := o])
  {
  }

  lemma HeldSame(requests: map<Tid, Request>, calls: map<Tid, Ix.Op>, owner: Owners,
                 requests': map<Tid, Request>, calls': map<Tid, Ix.Op>, t: Tid)
    requires HeldOk(requests, calls, owner) && OthersSame(requests, calls, requests', calls', t)
    requires Holding(requests', calls', t) == Holding(requests, calls, t)
    ensures HeldOk(requests', calls', owner)
  {
  }

  lemma EntryDropped(entries: map<Key, Location>, owner: Owners, k: Key, o: Owner)
    requires EntriesOk(entries, owner) && k in entries && !o.Entry?
    ensures EntriesOk(entries - {k}, owner[entries[k].blockIndex := o])
  {
  }

  lemma EntryAdded(entries: map<Key, Location>, owner: Owners, k: Key, loc: Location)
    requires EntriesOk(entries, owner) && k !in entries
    requires loc.blockIndex in owner && !owner[loc.blockIndex].Entry?
    ensures EntriesOk(entries[k := loc], owner[loc.blockIndex := Entry(k)])
  {
  }

  lemma AllocateOwned(c: Config, s: Agent, t: Tid, k: Key, d: seq<byte>)
    requires Owned(c, s) && t in s.requests && s.requests[t] == Started(k, d)
    ensures Owned(c, DoAllocate(c, s, t, k, d))
  {
    var s' := DoAllocate(c, s, t, k, d);
    if s'.free == s.free {
      HeldSame(s.requests, s.ix.ops, s.owner, s'.requests, s'.ix.ops, t);
    } else {
      var b := s.free.head;
      assert b in Elems(s.free);
      HeldTaken(s.requests, s.ix.ops, s.owner, s'.requests, s'.ix.ops, t, b);
      Elsewhere(Nil, map[], map[], s.ix.entries, s.owner, b, Held(t));
    }
  }

  lemma DeallocateOwned(c: Config, s: Agent, t: Tid, b: int)
    requires Owned(c, s) && t in s.requests && s.requests[t].Freeing? && s.requests[t].loc.blockIndex == b
    ensures Owned(c, DoDeallocate(s, t, b))
  {
    var s' := DoDeallocate(s, t, b);
    assert Holding(s.requests, s.ix.ops, t) == Some(b);
    HeldGiven(s.requests, s.ix.ops, s.owner, s'.requests, s'.ix.ops, t, b, Free);
    Elsewhere(Nil, map[], map[], s.ix.entries, s.owner, b, Free);
  }

  lemma DeleteOwned(c: Config, s: Agent, t: Tid, k: Key)
    requires Owned(c, s) && Idle(s, t)
    ensures Owned(c, DoDelete(c, s, t, k))
  {
    if k in s.ix.entries {
      var s', b := DoDelete(c, s, t, k), s.ix.entries[k].blockIndex;
      HeldTaken(s.requests, s.ix.ops, s.owner, s'.requests, s'.ix.ops, t, b);
      EntryDropped(s.ix.entries, s.owner, k, Held(t));
      Elsewhere(s.free, map[], map[], map[], s.owner, b, Held(t));
    }
  }

  lemma UnmapOwned(c: Config, s: Agent, t: Tid)
    requires Owned(c, s) && t in s.ix.ops && s.ix.ops[t].InsertUnmap?
    ensures Owned(c, DoIndex(c, s, t))
  {
    var s', v := DoIndex(c, s, t), s.ix.ops[t].victim;
    HeldSame(s.requests, s.ix.ops, s.owner, s'.requests, s'.ix.ops, t);
    if v in s.ix.entries {
      EntryDropped(s.ix.entries, s.owner, v, Dropped);
      Elsewhere(s.free, s'.requests, s'.ix.ops, map[], s.owner, s.ix.entries[v].blockIndex, Dropped);
    } else {
      assert s.ix.entries - {v} == s.ix.entries;
    }
  }

  lemma WriteOwned(c: Config, s: Agent, t: Tid)
    requires Owned(c, s) && t in s.ix.ops && s.ix.ops[t].InsertWrite?
    ensures Owned(c, DoIndex(c, s, t))
  {
    var s', k, loc := DoIndex(c, s, t), s.ix.ops[t].key, s.ix.ops[t].entry;
    var b, owner, entries := loc.blockIndex, Orphan(s, k), s.ix.entries - {k};
    assert Holding(s.requests, s.ix.ops, t) == Some(b);
    if k in s.ix.entries {
      EntryDropped(s.ix.entries, s.owner, k, Dropped);
      Elsewhere(s.free, s.requests, s.ix.ops, map[], s.owner, s.ix.entries[k].blockIndex, Dropped);
    } else {
      assert s.ix.entries - {k} == s.ix.entries;
    }
    assert owner[b] == Held(t);
    EntryAdded(entries, owner, k, loc);
    assert entries[k := loc] == s.ix.entries[k := loc];
    HeldGiven(s.requests, s.ix.ops, owner, s'.requests, s'.ix.ops, t, b, Entry(k));
    Elsewhere(s.free, map[], map[], map[], owner, b, Entry(k));
  }

  lemma OtherIndexOwned(c: Config, s: Agent, t: Tid)
    requires Owned(c, s) && t in s.ix.ops && !s.ix.ops[t].InsertUnmap? && !s.ix.ops[t].InsertWrite?
    ensures Owned(c, DoIndex(c, s, t))
  {
    hide Elems, Without, Touch, Last, FreeOk, EntriesOk, Blocks;
    var s' := DoIndex(c, s, t);
    HeldSame(s.requests, s.ix.ops, s.owner, s'.requests, s'.ix.ops, t);
  }

  lemma IndexOwned(c: Config, s: Agent, t: Tid)
    requires Owned(c, s) && t in s.ix.ops
    ensures Owned(c, DoIndex(c, s, t))
  {
    if s.ix.ops[t].InsertUnmap? {
      UnmapOwned(c, s, t);
    } else if s.ix.ops[t].InsertWrite? {
      WriteOwned(c, s, t);
    } else {
      OtherIndexOwned(c, s, t);
    }
  }

  lemma QuietOwned(c: Config, s: Agent, step: Step)
    requires Owned(c, s) && Enabled(c, s, step)
    requires !step.Allocate? && !step.IndexStep? && !step.StartDelete? && !step.Deallocate?
    ensures Owned(c, Apply(c, s, step))
  {
    hide Elems, Without, Touch, Last, FreeOk, EntriesOk, Blocks;
    var s' := Apply(c, s, step);
    if !step.Sample? && !step.Publish? {
      HeldSame(s.requests, s.ix.ops, s.owner, s'.requests, s'.ix.ops, step.t);
    }
  }

  lemma StepOwned(c: Config, s: Agent, step: Step)
    requires Owned(c, s) && Enabled(c, s, step)
    ensures Owned(c, Apply(c, s, step))
  {
    match step
    case Allocate(t) => AllocateOwned(c, s, t, s.requests[t].key, s.requests[t].data);
    case IndexStep(t) => IndexOwned(c, s, t);
    case StartDelete(t, k) => DeleteOwned(c, s, t, k);
    case Deallocate(t) => DeallocateOwned(c, s, t, s.requests[t].loc.blockIndex);
    case _ => QuietOwned(c, s, step);
  }

  lemma InitiallyOwned(c: Config)
    requires Sane(c)
    ensures Owned(c, Initial(c))
  {
    CountdownDistinct(c.totalBlocks);
    forall b ensures b in Elems(Countdown(c.totalBlocks)) <==> 0 <= b < c.totalBlocks {
      CountdownHas(c.totalBlocks, b);
    }
  }

  lemma {:induction false} RunOwned(c: Config, tr: Trace)
    requires Run(c, tr)
    ensures Sane(c) && Owned(c, After(c, tr))
  {
    if tr.Then? {
      RunOwned(c, tr.past);
      StepOwned(c, After(c, tr.past), tr.step);
    } else {
      InitiallyOwned(c);
    }
  }

  ghost predicate Holds(s: Agent, t: Tid, b: int) {
    Holding(s.requests, s.ix.ops, t) == Some(b)
  }

  ghost predicate Indexes(s: Agent, k: Key, b: int) {
    k in s.ix.entries && s.ix.entries[k].blockIndex == b
  }

  ghost predicate IsFree(s: Agent, b: int) { b in Elems(s.free) }
  ghost predicate IsHeld(s: Agent, b: int) { exists t :: Holds(s, t, b) }
  ghost predicate IsIndexed(s: Agent, b: int) { exists k :: Indexes(s, k, b) }
  ghost predicate IsDropped(s: Agent, b: int) { b in s.owner && s.owner[b] == Dropped }

  function Bit(p: bool): int { if p then 1 else 0 }

  lemma Classified(c: Config, s: Agent, b: int)
    requires Owned(c, s) && b in s.owner
    ensures IsFree(s, b) == (s.owner[b] == Free) && IsHeld(s, b) == s.owner[b].Held?
    ensures IsIndexed(s, b) == s.owner[b].Entry?
  {
    var o := s.owner[b];
    if o.Held? { assert Holds(s, o.t, b); }
    if o.Entry? { assert Indexes(s, o.k, b); }
  }

  /** In every interleaving each block is in exactly one place: the free list, one store or delete in
      flight, one index entry, or dropped; and the free list names no block twice. */
  lemma EveryBlockInOnePlace(c: Config, tr: Trace, b: int)
    requires Run(c, tr) && 0 <= b < c.totalBlocks
    ensures var s := After(c, tr);
            && Bit(IsFree(s, b)) + Bit(IsHeld(s, b)) + Bit(IsIndexed(s, b)) + Bit(IsDropped(s, b)) == 1
            && NoDup(s.free)
            && (forall t, u :: Holds(s, t, b) && Holds(s, u, b) ==> t == u)
            && (forall k, l :: Indexes(s, k, b) && Indexes(s, l, b) ==> k == l)
  {
    RunOwned(c, tr);
    Classified(c, After(c, tr), b);
  }

  /** No handler ever frees a block that is free, indexed or in another handler's hands, or that is not
      a block of the pool. */
  lemma NoDoubleFree(c: Config, tr: Trace, t: Tid)
    requires Run(c, tr) && Enabled(c, After(c, tr), Deallocate(t))
    ensures var s, b := After(c, tr), After(c, tr).requests[t].loc.blockIndex;
            0 <= b < c.totalBlocks && !IsFree(s, b) && !IsIndexed(s, b) && (forall u :: Holds(s, u, b) ==> u == t)
  {
    var s, b := After(c, tr), After(c, tr).requests[t].loc.blockIndex;
    RunOwned(c, tr);
    assert Holding(s.requests, s.ix.ops, t) == Some(b);
    Classified(c, s, b);
  }

  // ---- counting blocks ---------------------------------------------------------------------

  /** The stores and deletes in flight that have a block to themselves. */
  function Holders(s: Agent): set<Tid> {
    set t | t in s.requests.Keys + s.ix.ops.Keys && Holding(s.requests, s.ix.ops, t).Some?
  }

  function FreeBlocks(owner: Owners): set<int> { set b | b in owner && owner[b].Free? }
  function HeldBlocks(owner: Owners): set<int> { set b | b in owner && owner[b].Held? }
  function EntryBlocks(owner: Owners): set<int> { set b | b in owner && owner[b].Entry? }
  function DroppedBlocks(owner: Owners): set<int> { set b | b in owner && owner[b].Dropped? }

  lemma SameCard(m: map<int, int>, w: map<int, int>)
    requires m.Values == w.Keys && w.Values == m.Keys
    ensures |m.Keys| == |w.Keys|
  {
    Ix.ValuesBound(m);
    Ix.ValuesBound(w);
  }

  lemma HoldersCount(c: Config, s: Agent)
    requires Owned(c, s)
    ensures |Holders(s)| == |HeldBlocks(s.owner)|
  {
    var held := HeldBlocks(s.owner);
    var m := map t | t in Holders(s) :: Holding(s.requests, s.ix.ops, t).value;
    var w := map b | b in held :: s.owner[b].t;
    assert m.Keys == Holders(s) && w.Keys == held;
    forall b | b in held ensures b in m.Values && w[b] in Holders(s) { assert m[s.owner[b].t] == b; }
    forall t | t in Holders(s) ensures t in w.Values && m[t] in held { assert w[m[t]] == t; }
    assert m.Values == held && w.Values == Holders(s);
    SameCard(m, w);
  }

  lemma EntriesCount(c: Config, s: Agent)
    requires Owned(c, s)
    ensures |s.ix.entries| == |EntryBlocks(s.owner)|
  {
    var held := EntryBlocks(s.owner);
    var m := map k | k in s.ix.entries :: s.ix.entries[k].blockIndex;
    var w := map b | b in held :: s.owner[b].k;
    assert m.Keys == s.ix.entries.Keys && w.Keys == held;
    forall b | b in held ensures b in m.Values && w[b] in m { assert m[s.owner[b].k] == b; }
    forall k | k in m ensures k in w.Values && m[k] in held { assert w[m[k]] == k; }
    assert m.Values == held && w.Values == m.Keys;
    SameCard(m, w);
    assert |s.ix.entries.Keys| == |s.ix.entries|;
  }

  lemma FourParts(p: set<int>, q: set<int>, r: set<int>, d: set<int>)
    requires p !! (q + (r + d)) && q !! (r + d) && r !! d
    ensures |p + (q + (r + d))| == |p| + |q| + |r| + |d|
  {
    assert |r + d| == |r| + |d|;
    assert |q + (r + d)| == |q| + |r + d|;
  }

  lemma Parts(owner: Owners)
    ensures |owner.Keys| ==
            |FreeBlocks(owner)| + |HeldBlocks(owner)| + |EntryBlocks(owner)| + |DroppedBlocks(owner)|
  {
    assert owner.Keys == FreeBlocks(owner) + (HeldBlocks(owner) + (EntryBlocks(owner) + DroppedBlocks(owner)));
    FourParts(FreeBlocks(owner), HeldBlocks(owner), EntryBlocks(owner), DroppedBlocks(owner));
  }

  lemma BlockCount(c: Config, owner: Owners)
    requires Blocks(c, owner)
    ensures |owner.Keys| == c.totalBlocks
  {
    var all := Countdown(c.totalBlocks);
    forall b ensures b in Elems(all) <==> b in owner.Keys { CountdownHas(c.totalBlocks, b); }
    assert Elems(all) == owner.Keys;
    CountdownDistinct(c.totalBlocks);
    LenElems(all);
  }

  lemma FreeCount(free: List<int>, owner: Owners)
    requires FreeOk(free, owner)
    ensures Len(free) == |FreeBlocks(owner)|
  {
    LenElems(free);
    forall b | b in Elems(free) ensures b in FreeBlocks(owner) {}
    forall b | b in FreeBlocks(owner) ensures b in Elems(free) {}
    assert Elems(free) == FreeBlocks(owner);
  }

  lemma UsedCount(c: Config, s: Agent)
    requires Owned(c, s)
    ensures Used(c, s) == |Holders(s)| + |s.ix.entries| + |DroppedBlocks(s.owner)|
  {
    HoldersCount(c, s);
    EntriesCount(c, s);
    FreeCount(s.free, s.owner);
    BlockCount(c, s.owner);
    Parts(s.owner);
  }

  /** At every moment of every run the pool's used count is the number of stores and deletes holding a
      block, plus the index size, plus the number of dropped blocks. */
  lemma UsedBlocks(c: Config, tr: Trace)
    requires Run(c, tr)
    ensures var s := After(c, tr);
            Used(c, s) == |Holders(s)| + |s.ix.entries| + |DroppedBlocks(s.owner)|
  {
    RunOwned(c, tr);
    UsedCount(c, After(c, tr));
  }

  lemma StepKeepsDropped(c: Config, s: Agent, step: Step, b: int)
    requires Owned(c, s) && Enabled(c, s, step) && IsDropped(s, b)
    ensures IsDropped(Apply(c, s, step), b)
  {
    hide Without, Touch, Last;
    match step
    case Allocate(t) =>
      if s.free.Cons? { assert s.free.head in Elems(s.free); }
    case IndexStep(t) =>
      assert CallBlock(s.ix.ops[t]).Some? ==> Holding(s.requests, s.ix.ops, t) == CallBlock(s.ix.ops[t]);
    case Deallocate(t) =>
      assert Holding(s.requests, s.ix.ops, t) == Some(s.requests[t].loc.blockIndex);
    case _ =>
  }

  /** A dropped block is never handed out, indexed or freed again: overwriting or evicting leaks it. */
  lemma {:induction false} DroppedForGood(c: Config, tr: Trace, base: Trace, b: int)
    requires Run(c, tr) && Extends(tr, base) && Run(c, base) && IsDropped(After(c, base), b)
    ensures IsDropped(After(c, tr), b)
  {
    if tr != base {
      DroppedForGood(c, tr.past, base, b);
      RunOwned(c, tr.past);
      StepKeepsDropped(c, After(c, tr.past), tr.step, b);
    }
  }

  // ---- no eviction -------------------------------------------------------------------------

  predicate Unevicting(op: Ix.Op) {
    match op
    case InsertLen(_, _, n) => n == 0
    case InsertPop(_, _, _) => false
    case InsertUnmap(_, _, _, _) => false
    case InsertWrite(_, _, n) => n == 0
    case InsertTouch(_, _, n) => n == 0
    case _ => true
  }

  ghost predicate NoEviction(s: Agent) {
    s.evictions == 0 && forall t :: t in s.ix.ops ==> Unevicting(s.ix.ops[t])
  }

  /** A store that has reached the capacity check has a block that no entry has. */
  lemma RoomLeft(c: Config, s: Agent, t: Tid)
    requires Owned(c, s) && t in s.ix.ops && s.ix.ops[t].InsertLen?
    ensures |s.ix.entries| < c.totalBlocks
  {
    UsedCount(c, s);
    NonEmpty(Holders(s), t);
  }

  lemma NonEmpty(a: set<int>, x: int)
    requires x in a
    ensures |a| >= 1
  {
  }

  lemma IndexNoEviction(c: Config, s: Agent, t: Tid)
    requires Owned(c, s) && NoEviction(s) && t in s.ix.ops && c.capacity >= c.totalBlocks
    ensures NoEviction(DoIndex(c, s, t))
  {
    hide Elems, Without, Touch, Last, Owned;
    if s.ix.ops[t].InsertLen? { RoomLeft(c, s, t); }
  }

  lemma StepNoEviction(c: Config, s: Agent, step: Step)
    requires Owned(c, s) && NoEviction(s) && Enabled(c, s, step) && c.capacity >= c.totalBlocks
    ensures NoEviction(Apply(c, s, step))
  {
    if step.IndexStep? { IndexNoEviction(c, s, step.t); }
  }

  /** With at least as much index capacity as pool blocks, as `main` wires it, no run ever evicts. */
  lemma {:induction false} NeverEvicts(c: Config, tr: Trace)
    requires Run(c, tr) && c.capacity >= c.totalBlocks
    ensures NoEviction(After(c, tr))
    ensures |After(c, tr).ix.entries| <= c.totalBlocks
  {
    if tr.Then? {
      NeverEvicts(c, tr.past);
      RunOwned(c, tr.past);
      StepNoEviction(c, After(c, tr.past), tr.step);
    }
    RunOwned(c, tr);
    UsedCount(c, After(c, tr));
  }

  // ---- the index inside the agent ----------------------------------------------------------

  /** The step of the index protocol that an agent step performs, if any. */
  function IndexAction(c: Config, s: Agent, step: Step): Option<Ix.Step> {
    match step
    case WriteData(t) =>
      if t !in s.requests || !s.requests[t].HeaderDone? then None
      else
        var HeaderDone(k, d, b, g) := s.requests[t];
        Some(Ix.BeginInsert(t, k, Location(0, b, b * c.blockSize, c.blockSize, g)))
    case IndexStep(t) => Some(Ix.Advance(t))
    case StartGet(t, k) => Some(Ix.BeginLookup(t, k))
    case StartDelete(t, k) => Some(Ix.BeginRemove(t, k))
    case _ => None
  }

  lemma IndexActs(c: Config, s: Agent, step: Step)
    requires Owned(c, s) && Enabled(c, s, step)
    ensures match IndexAction(c, s, step)
            case None => Apply(c, s, step).ix == s.ix
            case Some(a) => Ix.Enabled(s.ix, a) && Apply(c, s, step).ix == Ix.Apply(c.capacity, s.ix, a)
  {
    match step
    case WriteData(t) => assert t in s.requests;
    case _ =>
  }

  /** No store writes a key into the index while a delete of that key is between its two halves there. */
  ghost predicate NoOverlap(c: Config, tr: Trace)
    requires Run(c, tr)
  {
    tr.Then? ==>
      && NoOverlap(c, tr.past)
      && !(tr.step.IndexStep? && Ix.Overlaps(After(c, tr.past).ix, Ix.Advance(tr.step.t)))
  }

  /** At no point of the run are more than `n` stores inside the index. */
  ghost predicate AtMost(c: Config, tr: Trace, n: nat)
    requires Run(c, tr)
  {
    |Ix.Inserters(After(c, tr).ix)| <= n && (tr.Then? ==> AtMost(c, tr.past, n))
  }

  /** The most keys stranded in the index at once so far. */
  ghost function MostStranded(c: Config, tr: Trace): nat
    requires Run(c, tr)
  {
    var z := |Ix.StrandedKeys(After(c, tr).ix)|;
    if tr.Start? || MostStranded(c, tr.past) <= z then z else MostStranded(c, tr.past)
  }

  /** Seen from the index alone, every run of the agent is a run of the index protocol, with no more
      overlaps, no more inserts in flight and no more stranded keys. So what holds of every index run holds
      inside the agent. */
  lemma {:induction false} ProjectsToIndexRun(c: Config, tr: Trace, n: nat) returns (run: Ix.Trace)
    requires Run(c, tr)
    ensures Ix.Run(c.capacity, run) && Ix.After(c.capacity, run) == After(c, tr).ix
    ensures NoOverlap(c, tr) ==> Ix.NoOverlap(c.capacity, run)
    ensures DeleteFree(tr) ==> Ix.RemoveFree(run)
    ensures AtMost(c, tr, n) ==> Ix.AtMost(c.capacity, run, n)
    ensures Ix.MostStranded(c.capacity, run) <= MostStranded(c, tr)
  {
    hide Apply, Enabled, Ix.Apply, Ix.Enabled, Ix.Inserters, Ix.StrandedKeys, Ix.Overlaps;
    if tr.Then? {
      var past := ProjectsToIndexRun(c, tr.past, n);
      RunOwned(c, tr.past);
      IndexActs(c, After(c, tr.past), tr.step);
      OverlapsAsIndexed(c, After(c, tr.past), tr.step);
      var a := IndexAction(c, After(c, tr.past), tr.step);
      run := if a.None? then past else Then(past, a.value);
    } else {
      run := Start;
    }
  }

  lemma OverlapsAsIndexed(c: Config, s: Agent, step: Step)
    requires Enabled(c, s, step)
    ensures IndexAction(c, s, step).Some? && Ix.Overlaps(s.ix, IndexAction(c, s, step).value) ==>
              step.IndexStep? && IndexAction(c, s, step) == Some(Ix.Advance(step.t))
  {
  }

  /** In every run without such an overlap, whenever no index call is in flight every indexed key is
      tracked by the LRU. */
  lemma AgentKeysAreTracked(c: Config, tr: Trace)
    requires Run(c, tr) && NoOverlap(c, tr)
    ensures After(c, tr).ix.ops == map[] ==> After(c, tr).ix.entries.Keys <= Elems(After(c, tr).ix.lru)
  {
    var run := ProjectsToIndexRun(c, tr, 0);
    Ix.MapKeysAreTracked(c.capacity, run);
  }

  /** Runs without deletes have no overlap. */
  lemma {:induction false} DeleteFreeRuns(c: Config, tr: Trace)
    requires Run(c, tr) && DeleteFree(tr)
    ensures NoOverlap(c, tr)
    ensures forall t :: t in After(c, tr).ix.ops ==> !After(c, tr).ix.ops[t].RemoveLru?
  {
    if tr.Then? {
      DeleteFreeRuns(c, tr.past);
      NoNewRemove(c, After(c, tr.past), tr.step);
    }
  }

  lemma NoNewRemove(c: Config, s: Agent, step: Step)
    requires Enabled(c, s, step) && !step.StartDelete?
    requires forall t :: t in s.ix.ops ==> !s.ix.ops[t].RemoveLru?
    ensures forall t :: t in Apply(c, s, step).ix.ops ==> !Apply(c, s, step).ix.ops[t].RemoveLru?
  {
    match step
    case IndexStep(t) => NoNewRemoveCall(c, s, t);
    case _ =>
  }

  lemma NoNewRemoveCall(c: Config, s: Agent, t: Tid)
    requires t in s.ix.ops && forall u :: u in s.ix.ops ==> !s.ix.ops[u].RemoveLru?
    ensures forall u :: u in DoIndex(c, s, t).ix.ops ==> !DoIndex(c, s, t).ix.ops[u].RemoveLru?
  {
    hide Touch, Without, Last;
  }

  /** The size bound inside the agent, for every run; without overlap no key is ever stranded and the bound
      is that of the index alone. */
  lemma AgentSizeBound(c: Config, tr: Trace, n: nat)
    requires Run(c, tr) && AtMost(c, tr, n) && c.capacity >= 1
    ensures |After(c, tr).ix.entries| <= c.capacity - 1 + n + MostStranded(c, tr)
    ensures NoOverlap(c, tr) ==> |After(c, tr).ix.entries| <= c.capacity - 1 + n
  {
    var run := ProjectsToIndexRun(c, tr, n);
    Ix.SizeBoundAlways(c.capacity, run, n);
    if NoOverlap(c, tr) { Ix.SizeBound(c.capacity, run, n); }
  }
}
