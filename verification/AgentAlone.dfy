/**
 The concurrent agent and the sequential cache are the same code: a request that runs from start to end
 without interruption does in `AgentProtocol` exactly what `CacheModel` says.
 */
module AgentAlone {
  import opened Bytes
  import opened Lists
  import opened BlockFormat
  import opened IndexModel
  import opened AgentProtocol
  import Memory
  import opened Traces
  import opened IndexAlone
  import Ix = IndexProtocol
  import Model = CacheModel
  import Runs = CacheRuns

  /** The parts of the agent that requests work on. */
  datatype Core =
    Core(ix: Ix.State, free: List<int>, gen: nat, mem: map<int, Block>, requests: map<Tid, Request>,
         stamps: map<int, Stamp>, level: int)

  ghost function CoreOf(s: Agent): Core {
    Core(s.ix, s.free, s.nextGen, s.mem, s.requests, s.stamps, s.level)
  }

  ghost predicate Is(c: Config, tr: Trace, v: Core) {
    Run(c, tr) && CoreOf(After(c, tr)) == v
  }

  ghost function Doing(v: Core, t: Tid, r: Request): Core {
    v.(requests := v.requests[t := r])
  }

  lemma Go(c: Config, tr: Trace, step: Step, v': Core) returns (tr': Trace)
    requires Run(c, tr) && Enabled(c, After(c, tr), step) && CoreOf(Apply(c, After(c, tr), step)) == v'
    ensures Is(c, tr', v') && Extends(tr', tr)
  {
    tr' := Then(tr, step);
  }

  lemma {:induction false} ExtendsOn(a: Trace, b: Trace, d: Trace)
    requires Extends(a, b) && Extends(b, d)
    ensures Extends(a, d)
  {
    if a != b { ExtendsOn(a.past, b, d); }
  }

  // ---- inside the index --------------------------------------------------------------------

  /** Where a handler is when its index call has ended. */
  function Ended(requests: map<Tid, Request>, t: Tid, op: Ix.Op): map<Tid, Request> {
    match op
    case LookupTouch(k, loc) => requests[t := GetHeader(k, loc)]
    case RemoveLru(k, loc) => requests[t := Freeing(k, loc)]
    case _ => requests
  }

  lemma IndexTurn(c: Config, tr: Trace, t: Tid) returns (tr': Trace)
    requires Run(c, tr) && t in After(c, tr).ix.ops && Undisturbed(After(c, tr).ix, t)
    ensures Extends(tr', tr)
    ensures var v := CoreOf(After(c, tr));
            Is(c, tr', v.(ix := Ix.Progress(c.capacity, v.ix, t),
                          requests := IndexRequests(After(c, tr), t, v.ix.ops[t])))
  {
    hide Touch, Last, Without, IndexOwners;
    var v := CoreOf(After(c, tr));
    tr' := Go(c, tr, IndexStep(t), v.(ix := Ix.Progress(c.capacity, v.ix, t),
                                      requests := IndexRequests(After(c, tr), t, v.ix.ops[t])));
  }

  lemma TurnKeeps(capacity: nat, s: Ix.State, t: Tid)
    requires t in s.ops && Undisturbed(s, t)
    ensures Undisturbed(Ix.Progress(capacity, s, t), t)
    ensures s.ops[t].LookupTouch? || s.ops[t].RemoveLru? ==> t !in Ix.Progress(capacity, s, t).ops
    ensures Ix.Inserting(s.ops[t]) && t in Ix.Progress(capacity, s, t).ops ==>
              Ix.Inserting(Ix.Progress(capacity, s, t).ops[t])
  {
    hide Touch, Last, Without;
  }

  /** An index call run to its end leaves everything else alone. */
  lemma {:induction false} IndexToEnd(c: Config, tr: Trace, t: Tid) returns (tr': Trace)
    requires Run(c, tr) && t in After(c, tr).ix.ops && Undisturbed(After(c, tr).ix, t)
    ensures Extends(tr', tr)
    ensures var v := CoreOf(After(c, tr));
            Is(c, tr', v.(ix := Alone(c.capacity, v.ix, t), requests := Ended(v.requests, t, v.ix.ops[t])))
    decreases StepsLeft(After(c, tr).ix, t)
  {
    hide Apply, Enabled, Ix.Progress;
    var s := After(c, tr);
    tr' := IndexTurn(c, tr, t);
    StepsFall(c.capacity, s.ix, t);
    TurnKeeps(c.capacity, s.ix, t);
    assert IndexRequests(s, t, s.ix.ops[t]) == Ended(s.requests, t, s.ix.ops[t]);
    if t in After(c, tr').ix.ops {
      var next := tr';
      tr' := IndexToEnd(c, next, t);
      ExtendsOn(tr', next, tr);
    }
  }

  // ---- store -------------------------------------------------------------------------------

  ghost function LocationOf(c: Config, b: int, g: int): Location {
    Location(0, b, b * c.blockSize, c.blockSize, g)
  }

  /** `store` up to its index call: the top free block has a header and data. */
  ghost function Written(c: Config, v: Core, k: Key, d: seq<byte>): Core
    requires v.free.Cons? && v.free.head in v.mem && |d| <= |v.mem[v.free.head].body|
  {
    var b := v.free.head;
    v.(free := v.free.tail, gen := v.gen + 1,
       mem := v.mem[b := Block(NewHeader(c.crc, d, v.gen), Overwrite(v.mem[b].body, d))],
       stamps := v.stamps[v.gen := Stamp(k, d, b, Complete)])
  }

  lemma Takes(c: Config, tr: Trace, v: Core, t: Tid, k: Key, d: seq<byte>) returns (tr': Trace)
    requires Is(c, tr, v) && t !in v.requests && t !in v.ix.ops && v.level < REJECT
    requires v.free.Cons? && |d| + HEADER_SIZE <= c.blockSize
    ensures Extends(tr', tr) && Is(c, tr', Doing(v, t, Allocated(k, d, v.free.head)).(free := v.free.tail))
  {
    var first := Go(c, tr, StartStore(t, k, d), Doing(v, t, Started(k, d)));
    tr' := Allocates(c, first, v, t, k, d);
    ExtendsOn(tr', first, tr);
  }

  lemma Allocates(c: Config, tr: Trace, v: Core, t: Tid, k: Key, d: seq<byte>) returns (tr': Trace)
    requires Is(c, tr, Doing(v, t, Started(k, d))) && v.free.Cons? && |d| + HEADER_SIZE <= c.blockSize
    ensures Extends(tr', tr) && Is(c, tr', Doing(v, t, Allocated(k, d, v.free.head)).(free := v.free.tail))
  {
    var v' := Doing(v, t, Allocated(k, d, v.free.head)).(free := v.free.tail);
    assert v.requests[t := Started(k, d)][t := Allocated(k, d, v.free.head)] == v'.requests;
    tr' := Go(c, tr, Allocate(t), v');
  }

  lemma Draws(c: Config, tr: Trace, v: Core, t: Tid, k: Key, d: seq<byte>, b: int) returns (tr': Trace)
    requires Is(c, tr, Doing(v, t, Allocated(k, d, b))) && v.gen < WRAP
    ensures Extends(tr', tr)
    ensures Is(c, tr', Doing(v, t, Stamped(k, d, b, v.gen)).(
              gen := v.gen + 1, stamps := v.stamps[v.gen := Stamp(k, d, b, Drawn)]))
  {
    var v' := Doing(v, t, Stamped(k, d, b, v.gen)).(
      gen := v.gen + 1, stamps := v.stamps[v.gen := Stamp(k, d, b, Drawn)]);
    assert v.requests[t := Allocated(k, d, b)][t := Stamped(k, d, b, v.gen)] == v'.requests;
    tr' := Go(c, tr, DrawGeneration(t), v');
  }

  lemma WritesHeader(c: Config, tr: Trace, v: Core, t: Tid, k: Key, d: seq<byte>, b: int, g: nat) returns (tr': Trace)
    requires Is(c, tr, Doing(v, t, Stamped(k, d, b, g))) && b in v.mem
    ensures Extends(tr', tr)
    ensures Is(c, tr', Doing(v, t, HeaderDone(k, d, b, g)).(
              mem := v.mem[b := v.mem[b].(header := NewHeader(c.crc, d, g))],
              stamps := v.stamps[g := Stamp(k, d, b, Headed)]))
  {
    var v' := Doing(v, t, HeaderDone(k, d, b, g)).(
      mem := v.mem[b := v.mem[b].(header := NewHeader(c.crc, d, g))],
      stamps := v.stamps[g := Stamp(k, d, b, Headed)]);
    assert v.requests[t := Stamped(k, d, b, g)][t := HeaderDone(k, d, b, g)] == v'.requests;
    tr' := Go(c, tr, WriteHeader(t), v');
  }

  lemma WritesData(c: Config, tr: Trace, v: Core, t: Tid, k: Key, d: seq<byte>, b: int, g: nat) returns (tr': Trace)
    requires Is(c, tr, Doing(v, t, HeaderDone(k, d, b, g))) && t !in v.requests && t !in v.ix.ops
    requires b in v.mem && |d| <= |v.mem[b].body|
    ensures Extends(tr', tr)
    ensures Is(c, tr', v.(mem := v.mem[b := v.mem[b].(body := Overwrite(v.mem[b].body, d))],
                          stamps := v.stamps[g := Stamp(k, d, b, Complete)],
                          ix := Ix.Apply(c.capacity, v.ix, Ix.BeginInsert(t, k, LocationOf(c, b, g)))))
  {
    var v' := v.(mem := v.mem[b := v.mem[b].(body := Overwrite(v.mem[b].body, d))],
                 stamps := v.stamps[g := Stamp(k, d, b, Complete)],
                 ix := Ix.Apply(c.capacity, v.ix, Ix.BeginInsert(t, k, LocationOf(c, b, g))));
    assert v.requests[t := HeaderDone(k, d, b, g)] - {t} == v.requests;
    tr' := Go(c, tr, WriteData(t), v');
  }

  lemma StoreWrites(c: Config, tr: Trace, v: Core, t: Tid, k: Key, d: seq<byte>) returns (tr': Trace)
    requires Is(c, tr, v) && t !in v.requests && t !in v.ix.ops && v.level < REJECT && v.gen < WRAP
    requires v.free.Cons? && v.free.head in v.mem
    requires |d| + HEADER_SIZE <= c.blockSize && |d| <= |v.mem[v.free.head].body|
    ensures Extends(tr', tr)
    ensures Is(c, tr', Written(c, v, k, d).(
              ix := Ix.Apply(c.capacity, v.ix, Ix.BeginInsert(t, k, LocationOf(c, v.free.head, v.gen)))))
  {
    hide Is, Extends, Overwrite, NewHeader;
    var b, g := v.free.head, v.gen;
    var tr1 := Takes(c, tr, v, t, k, d);
    var v1 := v.(free := v.free.tail);
    var tr2 := Draws(c, tr1, v1, t, k, d, b);
    var v2 := v1.(gen := g + 1, stamps := v.stamps[g := Stamp(k, d, b, Drawn)]);
    var tr3 := WritesHeader(c, tr2, v2, t, k, d, b, g);
    var v3 := v2.(mem := v.mem[b := v.mem[b].(header := NewHeader(c.crc, d, g))],
                  stamps := v2.stamps[g := Stamp(k, d, b, Headed)]);
    tr' := WritesData(c, tr3, v3, t, k, d, b, g);
    assert v3.mem[b := v3.mem[b].(body := Overwrite(v3.mem[b].body, d))] == Written(c, v, k, d).mem;
    assert v3.stamps[g := Stamp(k, d, b, Complete)] == Written(c, v, k, d).stamps;
    ExtendsOn(tr', tr3, tr2);
    ExtendsOn(tr', tr2, tr1);
    ExtendsOn(tr', tr1, tr);
  }

  /** A whole store. */
  lemma StoreRuns(c: Config, tr: Trace, v: Core, t: Tid, k: Key, d: seq<byte>) returns (tr': Trace)
    requires Is(c, tr, v) && t !in v.requests && t !in v.ix.ops && v.level < REJECT && v.gen < WRAP
    requires v.free.Cons? && v.free.head in v.mem && Undisturbed(v.ix, t)
    requires |d| + HEADER_SIZE <= c.blockSize && |d| <= |v.mem[v.free.head].body|
    ensures var begun := Ix.Apply(c.capacity, v.ix, Ix.BeginInsert(t, k, LocationOf(c, v.free.head, v.gen)));
            Extends(tr', tr) && Is(c, tr', Written(c, v, k, d).(ix := Alone(c.capacity, begun, t)))
  {
    hide Alone, NewHeader, Overwrite, Undisturbed;
    var wrote := StoreWrites(c, tr, v, t, k, d);
    BeginKeeps(c.capacity, v.ix, t, k, LocationOf(c, v.free.head, v.gen));
    tr' := IndexToEnd(c, wrote, t);
    ExtendsOn(tr', wrote, tr);
  }

  /** Data that does not fit, or an empty pool, and the agent is as it was. */
  lemma StoreFails(c: Config, tr: Trace, t: Tid, k: Key, d: seq<byte>) returns (tr': Trace)
    requires Run(c, tr) && Idle(After(c, tr), t) && After(c, tr).level < REJECT
    requires |d| + HEADER_SIZE > c.blockSize || After(c, tr).free.Nil?
    ensures Run(c, tr') && Extends(tr', tr) && After(c, tr') == After(c, tr)
  {
    var s := After(c, tr);
    tr' := Then(Then(tr, StartStore(t, k, d)), Allocate(t));
    assert s.requests[t := Started(k, d)] - {t} == s.requests;
  }

  // ---- the sequential cache beside it ------------------------------------------------------

  /** Blocks as bytes have the headers and bodies of block memory. */
  ghost predicate SameBlocks(c: Config, mem: map<int, Block>, blocks: seq<seq<byte>>) {
    && HEADER_SIZE <= c.blockSize && |blocks| == c.totalBlocks && (forall b :: b in mem <==> 0 <= b < c.totalBlocks)
    && (forall b :: 0 <= b < |blocks| ==> |blocks[b]| == c.blockSize && View(blocks[b]) == mem[b])
  }

  /** The agent's index, free list and memory are those of the sequential cache, entries made at time 0. */
  ghost predicate Mirrors(c: Config, v: Core, m: Model.Cache) {
    && m.crc == c.crc && m.free == v.free && m.index == Bare(v.ix)
    && SameBlocks(c, v.mem, m.blocks)
  }

  lemma WrittenBlocks(c: Config, mem: map<int, Block>, blocks: seq<seq<byte>>, b: int, d: seq<byte>, g: nat,
                      pad: seq<byte>)
    requires SameBlocks(c, mem, blocks) && 0 <= b < |blocks|
    requires |pad| == 4 && HEADER_SIZE + |d| <= c.blockSize
    ensures |d| <= |mem[b].body|
    ensures SameBlocks(c, mem[b := Block(NewHeader(c.crc, d, g), Overwrite(mem[b].body, d))],
                       blocks[b := PutData(PutHeader(blocks[b], NewHeader(c.crc, d, g), pad), d)])
  {
    hide NewHeader, PutData, PutHeader, Overwrite;
    var h := NewHeader(c.crc, d, g);
    ViewIsExact(c.crc, blocks[b], h, pad, d);
    ViewIsExact(c.crc, PutHeader(blocks[b], h, pad), h, pad, d);
  }

  /** A store that runs alone does what the sequential store does: to the index, to the free list and to the
      bytes of the block. */
  lemma StoreAlone(c: Config, tr: Trace, t: Tid, k: Key, d: seq<byte>, m: Model.Cache, pad: seq<byte>)
    returns (tr': Trace)
    requires Run(c, tr) && Sane(c) && Idle(After(c, tr), t) && Undisturbed(After(c, tr).ix, t)
    requires After(c, tr).level < REJECT && After(c, tr).nextGen < WRAP && |d| + HEADER_SIZE <= c.blockSize
    requires Mirrors(c, CoreOf(After(c, tr)), m) && Agree(m.index) && |pad| == 4
    requires m.free.Cons? && 0 <= m.free.head < |m.blocks|
    ensures Run(c, tr') && Extends(tr', tr)
    ensures After(c, tr').requests == After(c, tr).requests && After(c, tr').ix.ops == After(c, tr).ix.ops
    ensures After(c, tr').nextGen == After(c, tr).nextGen + 1 && After(c, tr').level == After(c, tr).level
    ensures var b, g := m.free.head, After(c, tr).nextGen;
            var block := PutData(PutHeader(m.blocks[b], NewHeader(c.crc, d, g), pad), d);
            Mirrors(c, CoreOf(After(c, tr')), Model.Store(m, c.capacity, k, LocationOf(c, b, g), 0, d, block))
  {
    hide Alone, Bare, Insert, NewHeader, PutData, PutHeader, Overwrite, SameBlocks, Undisturbed, Agree;
    var v := CoreOf(After(c, tr));
    var b, g := m.free.head, v.gen;
    WrittenBlocks(c, v.mem, m.blocks, b, d, g, pad);
    MemHas(c, v.mem, m.blocks, b);
    InsertAlone(c.capacity, v.ix, t, k, LocationOf(c, b, g));
    tr' := StoreRuns(c, tr, v, t, k, d);
  }

  lemma MemHas(c: Config, mem: map<int, Block>, blocks: seq<seq<byte>>, b: int)
    requires SameBlocks(c, mem, blocks) && 0 <= b < |blocks|
    ensures b in mem
  {
  }

  lemma BeginKeeps(capacity: nat, s: Ix.State, t: Tid, k: Key, loc: Location)
    requires t !in s.ops && Undisturbed(s, t)
    ensures var s' := Ix.Apply(capacity, s, Ix.BeginInsert(t, k, loc));
            t in s'.ops && s'.ops[t] == Ix.InsertCheck(k, loc) && Undisturbed(s', t)
  {
  }

  // ---- get ---------------------------------------------------------------------------------

  lemma ReadsBlock(c: Config, tr: Trace, v: Core, t: Tid, k: Key, loc: Location) returns (tr': Trace)
    requires Is(c, tr, Doing(v, t, GetHeader(k, loc))) && loc.blockIndex in v.mem
    ensures var m := v.mem[loc.blockIndex];
            Extends(tr', tr) && Is(c, tr', Doing(v, t, GetDone(k, loc, m.header, ReadBlock(c.crc, m))))
  {
    var m := v.mem[loc.blockIndex];
    var r0, r1 := GetHeader(k, loc), GetCrc(k, loc, m.header);
    assert v.requests[t := r0][t := r1] == v.requests[t := r1];
    var first := Go(c, tr, ReadHeader(t), Doing(v, t, r1));
    tr' := ReadsData(c, first, v, t, k, loc);
    ExtendsOn(tr', first, tr);
  }

  lemma ReadsData(c: Config, tr: Trace, v: Core, t: Tid, k: Key, loc: Location) returns (tr': Trace)
    requires loc.blockIndex in v.mem && Is(c, tr, Doing(v, t, GetCrc(k, loc, v.mem[loc.blockIndex].header)))
    ensures var m := v.mem[loc.blockIndex];
            Extends(tr', tr) && Is(c, tr', Doing(v, t, GetDone(k, loc, m.header, ReadBlock(c.crc, m))))
  {
    var m := v.mem[loc.blockIndex];
    var r1, r2 := GetCrc(k, loc, m.header), GetCopy(k, loc, m.header);
    if ReadBlock(c.crc, m).None? {
      var r3 := GetDone(k, loc, m.header, None);
      assert v.requests[t := r1][t := r3] == v.requests[t := r3];
      tr' := Go(c, tr, CheckCrc(t), Doing(v, t, r3));
    } else {
      assert v.requests[t := r1][t := r2] == v.requests[t := r2];
      var checked := Go(c, tr, CheckCrc(t), Doing(v, t, r2));
      tr' := CopiesOut(c, checked, v, t, k, loc);
      ExtendsOn(tr', checked, tr);
    }
  }

  lemma CopiesOut(c: Config, tr: Trace, v: Core, t: Tid, k: Key, loc: Location) returns (tr': Trace)
    requires loc.blockIndex in v.mem && Is(c, tr, Doing(v, t, GetCopy(k, loc, v.mem[loc.blockIndex].header)))
    requires ReadBlock(c.crc, v.mem[loc.blockIndex]).Some?
    ensures var m := v.mem[loc.blockIndex];
            Extends(tr', tr) && Is(c, tr', Doing(v, t, GetDone(k, loc, m.header, ReadBlock(c.crc, m))))
  {
    var m := v.mem[loc.blockIndex];
    var r2, r3 := GetCopy(k, loc, m.header), GetDone(k, loc, m.header, ReadBlock(c.crc, m));
    assert v.requests[t := r2][t := r3] == v.requests[t := r3];
    tr' := Go(c, tr, CopyOut(t), Doing(v, t, r3));
  }

  /** A get that runs alone answers what the sequential get reads, and touches the key as it does. */
  lemma GetAlone(c: Config, tr: Trace, t: Tid, k: Key, m: Model.Cache) returns (tr': Trace)
    requires Run(c, tr) && Sane(c) && Idle(After(c, tr), t) && Undisturbed(After(c, tr).ix, t)
    requires Mirrors(c, CoreOf(After(c, tr)), m)
    requires k in m.index.entries ==> 0 <= m.index.entries[k].blocks[0].blockIndex < |m.blocks|
    ensures Run(c, tr') && Extends(tr', tr)
    ensures Mirrors(c, CoreOf(After(c, tr')), Model.Get(m, k)) && After(c, tr').ix.ops == After(c, tr).ix.ops
    ensures After(c, tr').nextGen == After(c, tr).nextGen && After(c, tr').level == After(c, tr).level
    ensures After(c, tr').requests - {t} == After(c, tr).requests
    ensures k !in m.index.entries ==> t !in After(c, tr').requests && Runs.Fetched(m, k) == None
    ensures k in m.index.entries ==>
              && t in After(c, tr').requests && After(c, tr').requests[t].GetDone?
              && After(c, tr').requests[t].key == k && After(c, tr').requests[t].loc == m.index.entries[k].blocks[0]
              && After(c, tr').requests[t].result == Runs.Fetched(m, k)
  {
    hide Alone, Lookup, Bare, SameBlocks, ReadVerified, ReadBlock, Undisturbed;
    var v := CoreOf(After(c, tr));
    LookupAlone(c.capacity, v.ix, t, k);
    BareHas(v.ix, k);
    if k in v.ix.entries {
      var loc := v.ix.entries[k];
      BlockReads(c, v.mem, m.blocks, loc.blockIndex);
      var looked := LookRuns(c, tr, v, t, k);
      var v' := v.(ix := Alone(c.capacity, Ix.Apply(c.capacity, v.ix, Ix.BeginLookup(t, k)), t));
      tr' := ReadsBlock(c, looked, v', t, k, loc);
      ExtendsOn(tr', looked, tr);
    } else {
      tr' := Then(tr, StartGet(t, k));
      AloneDone(c.capacity, v.ix, t);
    }
  }

  /** The index lookup of a get that finds its key. */
  lemma LookRuns(c: Config, tr: Trace, v: Core, t: Tid, k: Key) returns (tr': Trace)
    requires Is(c, tr, v) && t !in v.requests && t !in v.ix.ops && Undisturbed(v.ix, t) && k in v.ix.entries
    ensures var begun := Ix.Apply(c.capacity, v.ix, Ix.BeginLookup(t, k));
            && Extends(tr', tr)
            && Is(c, tr', Doing(v.(ix := Alone(c.capacity, begun, t)), t, GetHeader(k, v.ix.entries[k])))
  {
    hide Alone;
    var begun := Go(c, tr, StartGet(t, k), v.(ix := Ix.Apply(c.capacity, v.ix, Ix.BeginLookup(t, k))));
    tr' := IndexToEnd(c, begun, t);
    ExtendsOn(tr', begun, tr);
  }

  lemma BareHas(s: Ix.State, k: Key)
    ensures k in Bare(s).entries <==> k in s.entries
    ensures k in s.entries ==> Bare(s).entries[k].blocks == [s.entries[k]]
  {
  }

  lemma BlockReads(c: Config, mem: map<int, Block>, blocks: seq<seq<byte>>, b: int)
    requires SameBlocks(c, mem, blocks) && 0 <= b < |blocks|
    ensures b in mem && ReadBlock(c.crc, mem[b]) == ReadVerified(c.crc, blocks[b])
  {
    ViewIsExact(c.crc, blocks[b], Header(0, 0, 0), [0, 0, 0, 0], []);
  }

  lemma AloneDone(capacity: nat, s: Ix.State, t: Tid)
    requires t !in s.ops
    ensures Alone(capacity, s, t) == s
  {
  }

  // ---- delete ------------------------------------------------------------------------------

  lemma Frees(c: Config, tr: Trace, v: Core, t: Tid, k: Key, loc: Location) returns (tr': Trace)
    requires Is(c, tr, Doing(v, t, Freeing(k, loc))) && t !in v.requests
    ensures Extends(tr', tr) && Is(c, tr', v.(free := Cons(loc.blockIndex, v.free)))
  {
    assert v.requests[t := Freeing(k, loc)] - {t} == v.requests;
    tr' := Go(c, tr, Deallocate(t), v.(free := Cons(loc.blockIndex, v.free)));
  }

  /** A delete that runs alone does what the sequential delete does. */
  lemma DeleteAlone(c: Config, tr: Trace, t: Tid, k: Key, m: Model.Cache) returns (tr': Trace)
    requires Run(c, tr) && Sane(c) && Idle(After(c, tr), t) && Undisturbed(After(c, tr).ix, t)
    requires Mirrors(c, CoreOf(After(c, tr)), m)
    ensures Run(c, tr') && Extends(tr', tr)
    ensures After(c, tr').requests == After(c, tr).requests && After(c, tr').ix.ops == After(c, tr).ix.ops
    ensures Mirrors(c, CoreOf(After(c, tr')), Model.Delete(m, k))
    ensures After(c, tr').nextGen == After(c, tr).nextGen && After(c, tr').level == After(c, tr).level
  {
    hide Alone, Remove, SameBlocks, Bare;
    var v := CoreOf(After(c, tr));
    RemoveAlone(c.capacity, v.ix, t, k);
    BareHas(v.ix, k);
    if k in v.ix.entries {
      tr' := DeleteRuns(c, tr, v, t, k);
    } else {
      tr' := Then(tr, StartDelete(t, k));
      AloneDone(c.capacity, v.ix, t);
    }
  }

  /** A whole delete of a key that is there. */
  lemma DeleteRuns(c: Config, tr: Trace, v: Core, t: Tid, k: Key) returns (tr': Trace)
    requires Is(c, tr, v) && t !in v.requests && t !in v.ix.ops && Undisturbed(v.ix, t) && k in v.ix.entries
    ensures var begun := Ix.Apply(c.capacity, v.ix, Ix.BeginRemove(t, k));
            && Extends(tr', tr)
            && Is(c, tr', v.(ix := Alone(c.capacity, begun, t), free := Cons(v.ix.entries[k].blockIndex, v.free)))
  {
    hide Alone;
    var loc := v.ix.entries[k];
    var v1 := v.(ix := Ix.Apply(c.capacity, v.ix, Ix.BeginRemove(t, k)));
    var begun := Go(c, tr, StartDelete(t, k), v1);
    var removed := IndexToEnd(c, begun, t);
    tr' := Frees(c, removed, v.(ix := Alone(c.capacity, v1.ix, t)), t, k, loc);
    ExtendsOn(tr', removed, begun);
    ExtendsOn(tr', begun, tr);
  }

  // ---- one request after another -----------------------------------------------------------

  datatype Op = Store(key: Key, data: seq<byte>) | Get(key: Key) | Delete(key: Key)

  type Ops = Steps<Op>

  function Length(ops: Ops): nat {
    if ops.Start? then 0 else 1 + Length(ops.past)
  }

  /** The agent's pool, zeroed and all free. */
  ghost function SetupOf(c: Config): Runs.Setup {
    Runs.Setup(c.crc, seq(c.totalBlocks, _ => seq(c.blockSize, _ => 0)), c.capacity)
  }

  const PAD: seq<byte> := [0, 0, 0, 0]

  /** The block a sequential store makes of the top free block. */
  ghost function BlockFor(c: Config, m: Model.Cache, d: seq<byte>, g: nat): seq<byte>
    requires m.free.Cons? && 0 <= m.free.head < |m.blocks| && HEADER_SIZE + |d| <= |m.blocks[m.free.head]|
  {
    PutData(PutHeader(m.blocks[m.free.head], NewHeader(c.crc, d, g), PAD), d)
  }

  /** A sequential cache over whole blocks with something to write. */
  ghost predicate Ready(c: Config, m: Model.Cache, d: seq<byte>) {
    && m.free.Cons? && 0 <= m.free.head < |m.blocks| && |m.blocks[m.free.head]| == c.blockSize
    && HEADER_SIZE + |d| <= c.blockSize
  }

  ghost function StoredEvent(c: Config, m: Model.Cache, k: Key, d: seq<byte>, g: nat): Runs.Event
    requires Ready(c, m, d)
  {
    Runs.Stored(k, d, LocationOf(c, m.free.head, g), 0, BlockFor(c, m, d, g))
  }

  /** The generation the next store draws. */
  function Generation(h: Runs.History): nat {
    if h.Start? then 1 else Generation(h.past) + if h.event.Stored? then 1 else 0
  }

  /** The history after one more request: a store that fits and finds a block, a lookup or a delete. */
  ghost function Next(c: Config, h: Runs.History, op: Op): Runs.History
    requires Runs.Run(SetupOf(c), h)
  {
    match op
    case Store(k, d) =>
      var m := Runs.After(SetupOf(c), h);
      if Ready(c, m, d) then Runs.Then(h, StoredEvent(c, m, k, d, Generation(h))) else h
    case Get(k) => Runs.Then(h, Runs.Looked(k))
    case Delete(k) => Runs.Then(h, Runs.Deleted(k))
  }

  lemma StorePossible(c: Config, m: Model.Cache, k: Key, d: seq<byte>, g: nat)
    requires Sane(c) && Ready(c, m, d) && m.crc == c.crc
    ensures Runs.Possible(m, StoredEvent(c, m, k, d, g))
  {
    WriteThenRead(c.crc, m.blocks[m.free.head], d, g, PAD);
    Memory.OffsetIsProduct(c.blockSize, m.free.head);
  }

  lemma NextRuns(c: Config, h: Runs.History, op: Op)
    requires Sane(c) && Runs.Run(SetupOf(c), h)
    ensures Runs.Run(SetupOf(c), Next(c, h, op))
  {
    hide Model.Sound, Runs.Possible, Ready, SetupOf, StoredEvent;
    Runs.RunSound(SetupOf(c), h);
    SetupCrc(c);
    var m := Runs.After(SetupOf(c), h);
    if op.Store? && Ready(c, m, op.data) { StorePossible(c, m, op.key, op.data, Generation(h)); }
    if op.Get? { NoStore(m, Runs.Looked(op.key)); }
    if op.Delete? { NoStore(m, Runs.Deleted(op.key)); }
  }

  lemma SetupCrc(c: Config)
    ensures SetupOf(c).crc == c.crc && SetupOf(c).capacity == c.capacity && |SetupOf(c).blocks| == c.totalBlocks
  {
  }

  lemma NoStore(m: Model.Cache, e: Runs.Event)
    requires !e.Stored?
    ensures Runs.Possible(m, e)
  {
  }

  /** The history a sequence of requests leaves. */
  ghost function HistoryOf(c: Config, ops: Ops): (h: Runs.History)
    requires Sane(c)
    ensures Runs.Run(SetupOf(c), h)
  {
    match ops
    case Start => Runs.Start
    case Then(past, op) =>
      NextRuns(c, HistoryOf(c, past), op);
      Next(c, HistoryOf(c, past), op)
  }

  /** The agent has nothing in flight and mirrors the sequential cache after this history. */
  ghost predicate Follows(c: Config, tr: Trace, h: Runs.History) {
    && Run(c, tr) && Runs.Run(SetupOf(c), h)
    && After(c, tr).requests == map[] && After(c, tr).ix.ops == map[]
    && After(c, tr).level == 0 && After(c, tr).nextGen == Generation(h)
    && Mirrors(c, CoreOf(After(c, tr)), Runs.After(SetupOf(c), h))
  }

  lemma {:induction false} Zeros(s: seq<byte>)
    requires forall i :: 0 <= i < |s| ==> s[i] == 0
    ensures FromLE(s) == 0
  {
    if s != [] { Zeros(s[1..]); }
  }

  lemma ZeroView(c: Config)
    requires Sane(c)
    ensures View(seq(c.blockSize, _ => 0)) == ZeroBlock(c)
  {
    var z: seq<byte> := seq(c.blockSize, _ => 0);
    Zeros(z[0..4]);
    Zeros(z[8..16]);
    Zeros(z[16..20]);
    assert z[HEADER_SIZE..] == ZeroBlock(c).body;
  }

  lemma FollowsAtStart(c: Config)
    requires Sane(c)
    ensures Follows(c, Start, Runs.Start)
  {
    ZeroView(c);
    forall b ensures b in Elems(Countdown(c.totalBlocks)) <==> 0 <= b < c.totalBlocks {
      CountdownHas(c.totalBlocks, b);
    }
    assert Bare(Ix.INITIAL).entries == map[];
  }

  lemma QuietIndex(s: Ix.State, t: Tid)
    requires s.ops == map[]
    ensures Undisturbed(s, t)
  {
  }

  lemma ReadyExactly(c: Config, v: Core, m: Model.Cache, d: seq<byte>)
    requires Model.Sound(m) && Mirrors(c, v, m)
    ensures Ready(c, m, d) <==> m.free.Cons? && HEADER_SIZE + |d| <= c.blockSize
    ensures Agree(m.index)
  {
    hide Model.Backed;
    Model.FreeTop(m);
  }

  lemma StoreFollows(c: Config, tr: Trace, h: Runs.History, k: Key, d: seq<byte>) returns (tr': Trace)
    requires Sane(c) && Follows(c, tr, h) && Generation(h) < WRAP
    ensures Follows(c, tr', Next(c, h, Store(k, d))) && Extends(tr', tr)
  {
    hide Mirrors, Ready, Model.Sound, Agree, Apply, Enabled, SetupOf, Runs.Possible, Undisturbed, BlockFor;
    var m := Runs.After(SetupOf(c), h);
    Runs.RunSound(SetupOf(c), h);
    SetupCrc(c);
    NextRuns(c, h, Store(k, d));
    QuietIndex(After(c, tr).ix, 0);
    ReadyExactly(c, CoreOf(After(c, tr)), m, d);
    MirrorsFree(c, CoreOf(After(c, tr)), m);
    if Ready(c, m, d) {
      ReadyIs(c, m, d);
      tr' := StoreAlone(c, tr, 0, k, d, m, PAD);
      StepIsStore(c, m, k, d, Generation(h));
    } else {
      tr' := StoreFails(c, tr, 0, k, d);
    }
  }

  lemma MirrorsFree(c: Config, v: Core, m: Model.Cache)
    requires Mirrors(c, v, m)
    ensures m.free == v.free
  {
  }

  lemma ReadyIs(c: Config, m: Model.Cache, d: seq<byte>)
    requires Ready(c, m, d)
    ensures m.free.Cons? && 0 <= m.free.head < |m.blocks| && |m.blocks[m.free.head]| == c.blockSize
    ensures HEADER_SIZE + |d| <= c.blockSize
  {
  }

  lemma StepIsStore(c: Config, m: Model.Cache, k: Key, d: seq<byte>, g: nat)
    requires Sane(c) && Ready(c, m, d) && m.crc == c.crc
    ensures Runs.Possible(m, StoredEvent(c, m, k, d, g))
    ensures Runs.Step(m, c.capacity, StoredEvent(c, m, k, d, g)) ==
            Model.Store(m, c.capacity, k, LocationOf(c, m.free.head, g), 0, d,
                        PutData(PutHeader(m.blocks[m.free.head], NewHeader(c.crc, d, g), PAD), d))
  {
    hide PutData, PutHeader, NewHeader;
    StorePossible(c, m, k, d, g);
  }

  /** A get after a history, run alone: what it answers, and what is left when it has finished. */
  lemma GetFollows(c: Config, tr: Trace, h: Runs.History, k: Key) returns (answered: Trace, tr': Trace)
    requires Sane(c) && Follows(c, tr, h)
    ensures Run(c, answered) && Extends(answered, tr)
    ensures match Runs.FateOf(h, k, c.capacity)
            case Held(data) =>
              && 0 in After(c, answered).requests && After(c, answered).requests[0].GetDone?
              && After(c, answered).requests[0].key == k && After(c, answered).requests[0].result == Some(data)
            case _ => After(c, answered).requests == map[]
    ensures Follows(c, tr', Next(c, h, Get(k))) && Extends(tr', answered)
  {
    hide Mirrors, Model.Sound, SetupOf, Runs.Possible, Undisturbed, Runs.Fetched, Runs.FateOf, Apply, Enabled;
    var m := Runs.After(SetupOf(c), h);
    Runs.RunSound(SetupOf(c), h);
    Runs.ReadsLastStored(SetupOf(c), h, k);
    SetupCrc(c);
    NextRuns(c, h, Get(k));
    QuietIndex(After(c, tr).ix, 0);
    if k in m.index.entries { Model.ReadIsContents(m, k); }
    answered := GetAlone(c, tr, 0, k, m);
    tr' := answered;
    if k in m.index.entries {
      tr' := Finishes(c, answered, 0);
    } else {
      RequestsNone(After(c, answered).requests);
    }
    MirrorsCore(c, CoreOf(After(c, answered)), CoreOf(After(c, tr')), Model.Get(m, k));
  }

  lemma Finishes(c: Config, tr: Trace, t: Tid) returns (tr': Trace)
    requires Run(c, tr) && t in After(c, tr).requests && After(c, tr).requests[t].GetDone?
    ensures Run(c, tr') && Extends(tr', tr)
    ensures After(c, tr') == After(c, tr).(requests := After(c, tr).requests - {t})
  {
    tr' := Then(tr, FinishGet(t));
  }

  lemma RequestsNone(requests: map<Tid, Request>)
    requires 0 !in requests && requests - {0} == map[]
    ensures requests == map[]
  {
    assert requests - {0} == requests;
  }

  lemma MirrorsCore(c: Config, v: Core, v': Core, m: Model.Cache)
    requires Mirrors(c, v, m) && v' == v.(requests := v'.requests)
    ensures Mirrors(c, v', m)
  {
  }

  lemma DeleteFollows(c: Config, tr: Trace, h: Runs.History, k: Key) returns (tr': Trace)
    requires Sane(c) && Follows(c, tr, h)
    ensures Follows(c, tr', Next(c, h, Delete(k))) && Extends(tr', tr)
  {
    hide Mirrors, Model.Sound, SetupOf, Runs.Possible, Undisturbed;
    SetupCrc(c);
    NextRuns(c, h, Delete(k));
    QuietIndex(After(c, tr).ix, 0);
    tr' := DeleteAlone(c, tr, 0, k, Runs.After(SetupOf(c), h));
  }

  /** Any sequence of requests, one after another, is one of the concurrent runs, and leaves the agent exactly as
      the sequential cache says. So what holds of every concurrent run holds of every sequential one. */
  lemma {:induction false} SequentialIsRun(c: Config, ops: Ops) returns (tr: Trace)
    requires Sane(c) && Length(ops) < WRAP
    ensures Follows(c, tr, HistoryOf(c, ops)) && Generation(HistoryOf(c, ops)) <= 1 + Length(ops)
  {
    hide Follows, Next;
    if ops.Start? {
      tr := Start;
      FollowsAtStart(c);
    } else {
      var h := HistoryOf(c, ops.past);
      var past := SequentialIsRun(c, ops.past);
      NextGeneration(c, h, ops.step);
      match ops.step {
        case Store(k, d) => tr := StoreFollows(c, past, h, k, d);
        case Get(k) => var _, t := GetFollows(c, past, h, k); tr := t;
        case Delete(k) => tr := DeleteFollows(c, past, h, k);
      }
    }
  }

  lemma NextGeneration(c: Config, h: Runs.History, op: Op)
    requires Runs.Run(SetupOf(c), h)
    ensures Generation(Next(c, h, op)) <= Generation(h) + 1
  {
  }
}
