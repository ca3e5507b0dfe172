/**
 What block memory holds in every interleaving of the agent's handlers: exactly when a saved location
 is stale, and what a concurrent `get` may return.
 */
module AgentMemory {
  import opened Bytes
  import opened Lists
  import opened BlockFormat
  import opened IndexModel
  import opened AgentProtocol
  import opened Traces
  import Ix = IndexProtocol

  type Memory = map<int, Block>
  type Stamps = map<int, Stamp>

  // ---- the invariant, one element at a time ------------------------------------------------

  ghost predicate StampsOk(c: Config, nextGen: nat, stamps: Stamps) {
    1 <= nextGen && forall g :: g in stamps ==> 1 <= g < nextGen && |stamps[g].data| + HEADER_SIZE <= c.blockSize
  }

  ghost predicate BlockOk(c: Config, stamps: Stamps, b: int, m: Block) {
    var g := m.header.generation;
    && |m.body| + HEADER_SIZE == c.blockSize
    && (g != 0 ==>
          && g in stamps && stamps[g].block == b && !stamps[g].phase.Drawn?
          && m.header == NewHeader(c.crc, stamps[g].data, g)
          && |stamps[g].data| <= |m.body|
          && (stamps[g].phase.Complete? ==> m.body[..|stamps[g].data|] == stamps[g].data))
  }

  ghost predicate MemoryOk(c: Config, stamps: Stamps, mem: Memory) {
    && (forall b :: b in mem <==> 0 <= b < c.totalBlocks)
    && (forall b :: b in mem ==> BlockOk(c, stamps, b, mem[b]))
  }

  /** The location was returned by a completed write of a block for `k`. */
  ghost predicate Issued(stamps: Stamps, mem: Memory, k: Key, loc: Location) {
    var g := loc.generation;
    g in stamps && stamps[g].key == k && stamps[g].block == loc.blockIndex && stamps[g].phase.Complete?
    && loc.blockIndex in mem
  }

  ghost predicate Current(mem: Memory, loc: Location) {
    loc.blockIndex in mem && mem[loc.blockIndex].header.generation == loc.generation
  }

  ghost predicate RequestOk(c: Config, stamps: Stamps, mem: Memory, r: Request) {
    match r
    case Started(_, _) => true
    case Allocated(_, d, b) => |d| + HEADER_SIZE <= c.blockSize && b in mem
    case Stamped(k, d, b, g) => g in stamps && stamps[g] == Stamp(k, d, b, Drawn) && b in mem
    case HeaderDone(k, d, b, g) =>
      && g in stamps && stamps[g] == Stamp(k, d, b, Headed)
      && b in mem && mem[b].header.generation == g
    case GetHeader(k, loc) => Issued(stamps, mem, k, loc)
    case GetCrc(k, loc, h) =>
      Issued(stamps, mem, k, loc) && (Current(mem, loc) ==> h == mem[loc.blockIndex].header)
    case GetCopy(k, loc, h) =>
      && Issued(stamps, mem, k, loc) && (Current(mem, loc) ==> h == mem[loc.blockIndex].header)
      && h.dataSize + HEADER_SIZE <= c.blockSize
    case GetDone(k, loc, _, result) =>
      Issued(stamps, mem, k, loc) && (Current(mem, loc) ==> result == Some(stamps[loc.generation].data))
    case Freeing(k, loc) => Issued(stamps, mem, k, loc)
  }

  ghost predicate CallOk(stamps: Stamps, mem: Memory, op: Ix.Op) {
    && Issued(stamps, mem, op.key, op.entry)
    && (Ix.Inserting(op) && !op.InsertTouch? ==> Current(mem, op.entry))
  }

  ghost predicate EntryOk(stamps: Stamps, mem: Memory, k: Key, loc: Location) {
    Issued(stamps, mem, k, loc) && Current(mem, loc)
  }

  ghost predicate RequestsOk(c: Config, stamps: Stamps, mem: Memory, requests: map<Tid, Request>) {
    forall t :: t in requests ==> RequestOk(c, stamps, mem, requests[t])
  }

  ghost predicate CallsOk(stamps: Stamps, mem: Memory, calls: map<Tid, Ix.Op>) {
    forall t :: t in calls ==> CallOk(stamps, mem, calls[t])
  }

  ghost predicate EntriesOk(stamps: Stamps, mem: Memory, entries: map<Key, Location>) {
    forall k :: k in entries ==> EntryOk(stamps, mem, k, entries[k])
  }

  ghost predicate Consistent(c: Config, s: Agent) {
    && StampsOk(c, s.nextGen, s.stamps) && MemoryOk(c, s.stamps, s.mem)
    && RequestsOk(c, s.stamps, s.mem, s.requests) && CallsOk(s.stamps, s.mem, s.ix.ops)
    && EntriesOk(s.stamps, s.mem, s.ix.entries)
  }

  // ---- the three steps that write ----------------------------------------------------------

  lemma DrawKeeps(c: Config, stamps: Stamps, mem: Memory, g: int, x: Stamp, r: Request, b: int, k: Key, loc: Location)
    requires g !in stamps
    ensures RequestOk(c, stamps, mem, r) ==> RequestOk(c, stamps[g := x], mem, r)
    ensures b in mem && BlockOk(c, stamps, b, mem[b]) ==> BlockOk(c, stamps[g := x], b, mem[b])
    ensures Issued(stamps, mem, k, loc) ==> Issued(stamps[g := x], mem, k, loc)
  {
  }

  /** Writing a header, or the data after it, disturbs nothing but the one block and the one generation. */
  lemma WriteKeeps(c: Config, stamps: Stamps, mem: Memory, g: int, x: Stamp, b: int, m: Block, r: Request,
                   b': int, k: Key, loc: Location)
    requires b in mem && g in stamps && stamps[g] == x.(phase := stamps[g].phase) && x.block == b
    requires !stamps[g].phase.Complete? && m.header.generation == g
    ensures RequestOk(c, stamps, mem, r) && HeldBlock(r) != Some(b) ==>
              RequestOk(c, stamps[g := x], mem[b := m], r)
    ensures b' in mem && b' != b && BlockOk(c, stamps, b', mem[b']) ==> BlockOk(c, stamps[g := x], b', mem[b'])
    ensures Issued(stamps, mem, k, loc) ==> Issued(stamps[g := x], mem[b := m], k, loc)
    ensures Current(mem, loc) && loc.blockIndex != b ==> Current(mem[b := m], loc)
  {
  }

  lemma DrawConsistent(c: Config, s: Agent, t: Tid, k: Key, d: seq<byte>, b: int)
    requires Consistent(c, s) && t in s.requests && s.requests[t] == Allocated(k, d, b)
    requires s.nextGen < WRAP
    ensures Consistent(c, DoDraw(s, t, k, d, b))
  {
    var s', g, x := DoDraw(s, t, k, d, b), s.nextGen, Stamp(k, d, b, Drawn);
    assert g % WRAP == g && g !in s.stamps;
    forall b' | b' in s'.mem ensures BlockOk(c, s'.stamps, b', s'.mem[b']) {
      DrawKeeps(c, s.stamps, s.mem, g, x, s.requests[t], b', k, Location(0, 0, 0, 0, 0));
    }
    forall u | u in s'.requests ensures RequestOk(c, s'.stamps, s'.mem, s'.requests[u]) {
      if u != t { DrawKeeps(c, s.stamps, s.mem, g, x, s.requests[u], b, k, Location(0, 0, 0, 0, 0)); }
    }
    forall u | u in s'.ix.ops ensures CallOk(s'.stamps, s'.mem, s'.ix.ops[u]) {
      DrawKeeps(c, s.stamps, s.mem, g, x, s.requests[t], b, s.ix.ops[u].key, s.ix.ops[u].entry);
    }
    forall l | l in s'.ix.entries ensures EntryOk(s'.stamps, s'.mem, l, s'.ix.entries[l]) {
      DrawKeeps(c, s.stamps, s.mem, g, x, s.requests[t], b, l, s.ix.entries[l]);
    }
  }

  /** What a write of block `b`, held by `t`, keeps of everything that is not `t`'s. */
  lemma WriteKeepsOthers(c: Config, s: Agent, t: Tid, g: int, x: Stamp, b: int, m: Block)
    requires Owned(c, s) && Consistent(c, s) && t in s.requests && HeldBlock(s.requests[t]) == Some(b)
    requires b in s.mem && g in s.stamps && s.stamps[g] == x.(phase := s.stamps[g].phase) && x.block == b
    requires !s.stamps[g].phase.Complete? && m.header.generation == g
    ensures forall u :: u in s.requests && u != t ==> RequestOk(c, s.stamps[g := x], s.mem[b := m], s.requests[u])
    ensures forall b' :: b' in s.mem && b' != b ==> BlockOk(c, s.stamps[g := x], b', s.mem[b'])
    ensures CallsOk(s.stamps[g := x], s.mem[b := m], s.ix.ops)
    ensures EntriesOk(s.stamps[g := x], s.mem[b := m], s.ix.entries)
  {
    var loc := Location(0, 0, 0, 0, 0);
    assert Holding(s.requests, s.ix.ops, t) == Some(b);
    forall u | u in s.requests && u != t ensures RequestOk(c, s.stamps[g := x], s.mem[b := m], s.requests[u]) {
      assert Holding(s.requests, s.ix.ops, u) == HeldBlock(s.requests[u]);
      WriteKeeps(c, s.stamps, s.mem, g, x, b, m, s.requests[u], b, 0, loc);
    }
    forall b' | b' in s.mem && b' != b ensures BlockOk(c, s.stamps[g := x], b', s.mem[b']) {
      WriteKeeps(c, s.stamps, s.mem, g, x, b, m, s.requests[t], b', 0, loc);
    }
    forall u | u in s.ix.ops ensures CallOk(s.stamps[g := x], s.mem[b := m], s.ix.ops[u]) {
      assert Holding(s.requests, s.ix.ops, u) == CallBlock(s.ix.ops[u]);
      WriteKeeps(c, s.stamps, s.mem, g, x, b, m, s.requests[t], b, s.ix.ops[u].key, s.ix.ops[u].entry);
    }
    forall k | k in s.ix.entries ensures EntryOk(s.stamps[g := x], s.mem[b := m], k, s.ix.entries[k]) {
      WriteKeeps(c, s.stamps, s.mem, g, x, b, m, s.requests[t], b, k, s.ix.entries[k]);
    }
  }

  lemma WriteHeaderConsistent(c: Config, s: Agent, t: Tid, k: Key, d: seq<byte>, b: int, g: nat)
    requires Owned(c, s) && Consistent(c, s) && s.nextGen <= WRAP
    requires t in s.requests && s.requests[t] == Stamped(k, d, b, g)
    ensures Consistent(c, DoWriteHeader(c, s, t, k, d, b, g))
  {
    var m := s.mem[b].(header := NewHeader(c.crc, d, g));
    assert RequestOk(c, s.stamps, s.mem, s.requests[t]);
    assert g % WRAP == g;
    WriteKeepsOthers(c, s, t, g, Stamp(k, d, b, Headed), b, m);
    assert BlockOk(c, s.stamps, b, s.mem[b]);
  }

  lemma WriteDataConsistent(c: Config, s: Agent, t: Tid, k: Key, d: seq<byte>, b: int, g: nat)
    requires Owned(c, s) && Consistent(c, s)
    requires t in s.requests && s.requests[t] == HeaderDone(k, d, b, g) && b in s.mem && |d| <= |s.mem[b].body|
    ensures Consistent(c, DoWriteData(c, s, t, k, d, b, g))
  {
    var m := s.mem[b].(body := Overwrite(s.mem[b].body, d));
    assert RequestOk(c, s.stamps, s.mem, s.requests[t]);
    WriteKeepsOthers(c, s, t, g, Stamp(k, d, b, Complete), b, m);
    assert BlockOk(c, s.stamps, b, s.mem[b]);
  }

  // ---- the steps that only move locations --------------------------------------------------

  lemma IndexConsistent(c: Config, s: Agent, t: Tid)
    requires Consistent(c, s) && t in s.ix.ops
    ensures Consistent(c, DoIndex(c, s, t))
  {
    hide Touch, Last, Without, IndexOwners, StampsOk, MemoryOk, Issued;
    var s' := DoIndex(c, s, t);
    assert CallOk(s.stamps, s.mem, s.ix.ops[t]);
  }

  lemma CheckCrcConsistent(c: Config, s: Agent, t: Tid, k: Key, loc: Location, h: Header)
    requires Sane(c) && Consistent(c, s) && t in s.requests && s.requests[t] == GetCrc(k, loc, h)
    ensures Consistent(c, DoCheckCrc(c, s, t, k, loc, h))
  {
    assert RequestOk(c, s.stamps, s.mem, s.requests[t]);
    var m := s.mem[loc.blockIndex];
    assert BlockOk(c, s.stamps, loc.blockIndex, m);
  }

  lemma CopyOutConsistent(c: Config, s: Agent, t: Tid, k: Key, loc: Location, h: Header)
    requires Sane(c) && Consistent(c, s) && t in s.requests && s.requests[t] == GetCopy(k, loc, h)
    requires loc.blockIndex in s.mem && h.dataSize <= |s.mem[loc.blockIndex].body|
    ensures Consistent(c, With(s, t, GetDone(k, loc, h, Some(s.mem[loc.blockIndex].body[..h.dataSize]))))
  {
    assert RequestOk(c, s.stamps, s.mem, s.requests[t]);
    assert BlockOk(c, s.stamps, loc.blockIndex, s.mem[loc.blockIndex]);
  }

  lemma StepConsistent(c: Config, s: Agent, step: Step)
    requires Sane(c) && Owned(c, s) && Consistent(c, s) && Enabled(c, s, step)
    requires Apply(c, s, step).nextGen <= WRAP
    ensures Consistent(c, Apply(c, s, step))
  {
    match step
    case DrawGeneration(t) => DrawConsistent(c, s, t, s.requests[t].key, s.requests[t].data, s.requests[t].block);
    case WriteHeader(t) =>
      var Stamped(k, d, b, g) := s.requests[t];
      WriteHeaderConsistent(c, s, t, k, d, b, g);
    case WriteData(t) =>
      var HeaderDone(k, d, b, g) := s.requests[t];
      WriteDataConsistent(c, s, t, k, d, b, g);
    case IndexStep(t) => IndexConsistent(c, s, t);
    case CheckCrc(t) => CheckCrcConsistent(c, s, t, s.requests[t].key, s.requests[t].loc, s.requests[t].header);
    case CopyOut(t) => CopyOutConsistent(c, s, t, s.requests[t].key, s.requests[t].loc, s.requests[t].header);
    case _ => MoveConsistent(c, s, step);
  }

  lemma MoveConsistent(c: Config, s: Agent, step: Step)
    requires Owned(c, s) && Consistent(c, s) && Enabled(c, s, step)
    requires !step.DrawGeneration? && !step.WriteHeader? && !step.WriteData? && !step.IndexStep?
    requires !step.CheckCrc? && !step.CopyOut?
    ensures Consistent(c, Apply(c, s, step))
  {
    match step
    case Allocate(t) => if s.free.Cons? { assert s.free.head in Elems(s.free); }
    case StartGet(t, k) => if k in s.ix.entries { assert EntryOk(s.stamps, s.mem, k, s.ix.entries[k]); }
    case ReadHeader(t) => assert RequestOk(c, s.stamps, s.mem, s.requests[t]);
    case StartDelete(t, k) => if k in s.ix.entries { assert EntryOk(s.stamps, s.mem, k, s.ix.entries[k]); }
    case _ =>
  }

  lemma InitiallyConsistent(c: Config)
    requires Sane(c)
    ensures Consistent(c, Initial(c))
  {
    forall b ensures b in Elems(Countdown(c.totalBlocks)) <==> 0 <= b < c.totalBlocks {
      CountdownHas(c.totalBlocks, b);
    }
  }

  lemma {:induction false} RunConsistent(c: Config, tr: Trace)
    requires Run(c, tr) && After(c, tr).nextGen <= WRAP
    ensures Sane(c) && Owned(c, After(c, tr)) && Consistent(c, After(c, tr))
  {
    hide Apply, Enabled, Consistent, Owned;
    RunOwned(c, tr);
    if tr.Then? {
      GenerationsGrow(c, After(c, tr.past), tr.step);
      RunConsistent(c, tr.past);
      StepConsistent(c, After(c, tr.past), tr.step);
    } else {
      InitiallyConsistent(c);
    }
  }

  // ---- what reads return -------------------------------------------------------------------

  /** In every interleaving, before the generation counter wraps, every index entry's block holds, with a
      valid checksum, the bytes of the store that made the entry. */
  lemma IndexedBlocksRead(c: Config, tr: Trace, k: Key)
    requires Run(c, tr) && After(c, tr).nextGen <= WRAP && k in After(c, tr).ix.entries
    ensures var s, loc := After(c, tr), After(c, tr).ix.entries[k];
            && Issued(s.stamps, s.mem, k, loc)
            && ReadBlock(c.crc, s.mem[loc.blockIndex]) == Some(s.stamps[loc.generation].data)
  {
    RunConsistent(c, tr);
    var s := After(c, tr);
    assert EntryOk(s.stamps, s.mem, k, s.ix.entries[k]);
    CurrentReads(c, s, k, s.ix.entries[k]);
  }

  lemma CurrentReads(c: Config, s: Agent, k: Key, loc: Location)
    requires Sane(c) && Consistent(c, s) && Issued(s.stamps, s.mem, k, loc) && Current(s.mem, loc)
    ensures ReadBlock(c.crc, s.mem[loc.blockIndex]) == Some(s.stamps[loc.generation].data)
  {
    assert BlockOk(c, s.stamps, loc.blockIndex, s.mem[loc.blockIndex]);
  }

  /** A `get` that overlaps other requests returns exactly the bytes stored under its location if the
      block still carries the location's generation after the last read. `read_verified` itself never
      compares the two. */
  lemma GetReturnsStoredBytes(c: Config, tr: Trace, t: Tid)
    requires Run(c, tr) && After(c, tr).nextGen <= WRAP
    requires t in After(c, tr).requests && After(c, tr).requests[t].GetDone?
    ensures var s, r := After(c, tr), After(c, tr).requests[t];
            && Issued(s.stamps, s.mem, r.key, r.loc)
            && (Current(s.mem, r.loc) ==> r.result == Some(s.stamps[r.loc.generation].data))
  {
    RunConsistent(c, tr);
    assert RequestOk(c, After(c, tr).stamps, After(c, tr).mem, After(c, tr).requests[t]);
  }

  /** No handler is ever stuck before an access to memory: the block is there and the access is within
      it. */
  lemma NoAccessOutOfBounds(c: Config, tr: Trace, t: Tid)
    requires Run(c, tr) && After(c, tr).nextGen <= WRAP && t in After(c, tr).requests
    ensures match After(c, tr).requests[t]
            case Stamped(_, _, _, _) => Enabled(c, After(c, tr), WriteHeader(t))
            case HeaderDone(_, _, _, _) => Enabled(c, After(c, tr), WriteData(t))
            case GetHeader(_, _) => Enabled(c, After(c, tr), ReadHeader(t))
            case GetCrc(_, _, _) => Enabled(c, After(c, tr), CheckCrc(t))
            case GetCopy(_, _, _) => Enabled(c, After(c, tr), CopyOut(t))
            case _ => true
  {
    RunConsistent(c, tr);
    InBounds(c, After(c, tr), t);
  }

  lemma InBounds(c: Config, s: Agent, t: Tid)
    requires Consistent(c, s) && t in s.requests
    ensures match s.requests[t]
            case Stamped(_, _, b, _) => b in s.mem
            case HeaderDone(_, d, b, _) => b in s.mem && |d| <= |s.mem[b].body|
            case GetHeader(_, loc) => loc.blockIndex in s.mem
            case GetCrc(_, loc, _) => loc.blockIndex in s.mem
            case GetCopy(_, loc, h) => loc.blockIndex in s.mem && h.dataSize <= |s.mem[loc.blockIndex].body|
            case _ => true
  {
    assert RequestOk(c, s.stamps, s.mem, s.requests[t]);
    match s.requests[t]
    case HeaderDone(_, _, b, _) => assert BlockOk(c, s.stamps, b, s.mem[b]);
    case GetCopy(_, loc, _) => assert BlockOk(c, s.stamps, loc.blockIndex, s.mem[loc.blockIndex]);
    case _ =>
  }

  // ---- staleness ---------------------------------------------------------------------------

  /** Some step after `base` writes a header into block `b`. */
  ghost predicate Rewritten(c: Config, tr: Trace, base: Trace, b: int)
    requires Run(c, tr) && Extends(tr, base)
  {
    tr != base &&
    (Rewritten(c, tr.past, base, b) ||
     (tr.step.WriteHeader? && After(c, tr.past).requests[tr.step.t].block == b))
  }

  ghost predicate KeepsIssued(s: Agent, s': Agent, k: Key, loc: Location, rewritten: bool) {
    Issued(s.stamps, s.mem, k, loc) ==>
      && Issued(s'.stamps, s'.mem, k, loc)
      && s'.stamps[loc.generation] == s.stamps[loc.generation]
      && (Current(s'.mem, loc) <==> Current(s.mem, loc) && !rewritten)
  }

  lemma WritesKeepIssued(c: Config, s: Agent, t: Tid, k: Key, loc: Location)
    requires Consistent(c, s) && t in s.requests
    ensures match s.requests[t]
            case Allocated(l, d, b) => s.nextGen < WRAP ==> KeepsIssued(s, DoDraw(s, t, l, d, b), k, loc, false)
            case Stamped(l, d, b, g) =>
              b in s.mem && s.nextGen <= WRAP ==>
                KeepsIssued(s, DoWriteHeader(c, s, t, l, d, b, g), k, loc, b == loc.blockIndex)
            case HeaderDone(l, d, b, g) =>
              b in s.mem && |d| <= |s.mem[b].body| ==> KeepsIssued(s, DoWriteData(c, s, t, l, d, b, g), k, loc, false)
            case _ => true
  {
    hide BlockOk;
    assert RequestOk(c, s.stamps, s.mem, s.requests[t]);
  }

  lemma StepKeepsIssued(c: Config, s: Agent, step: Step, k: Key, loc: Location)
    requires Consistent(c, s) && Enabled(c, s, step) && Apply(c, s, step).nextGen <= WRAP
    ensures KeepsIssued(s, Apply(c, s, step), k, loc,
                        step.WriteHeader? && s.requests[step.t].block == loc.blockIndex)
  {
    hide BlockOk, RequestOk, CallOk, EntryOk, Touch, Without, Last, Overwrite;
    match step
    case DrawGeneration(t) => WritesKeepIssued(c, s, t, k, loc);
    case WriteHeader(t) => WritesKeepIssued(c, s, t, k, loc);
    case WriteData(t) => WritesKeepIssued(c, s, t, k, loc);
    case _ =>
  }

  lemma GenerationsGrow(c: Config, s: Agent, step: Step)
    requires Enabled(c, s, step)
    ensures s.nextGen <= Apply(c, s, step).nextGen
  {
    match step
    case _ =>
  }

  lemma {:induction false} RewritesShow(c: Config, tr: Trace, base: Trace, k: Key, loc: Location)
    requires Run(c, tr) && Extends(tr, base) && After(c, tr).nextGen <= WRAP && Run(c, base)
    requires Issued(After(c, base).stamps, After(c, base).mem, k, loc) && Current(After(c, base).mem, loc)
    ensures var s := After(c, tr);
            && Issued(s.stamps, s.mem, k, loc)
            && s.stamps[loc.generation] == After(c, base).stamps[loc.generation]
            && (Current(s.mem, loc) <==> !Rewritten(c, tr, base, loc.blockIndex))
  {
    if tr != base {
      GenerationsGrow(c, After(c, tr.past), tr.step);
      RewritesShow(c, tr.past, base, k, loc);
      RunConsistent(c, tr.past);
      StepKeepsIssued(c, After(c, tr.past), tr.step, k, loc);
    }
  }

  /** A location saved at any time can be checked for staleness exactly: its block has been rewritten
      since if and only if the generation now in the block's header differs from the location's; and
      while they agree, reading the block returns the bytes written for that location. */
  lemma StaleExactly(c: Config, tr: Trace, base: Trace, k: Key, loc: Location)
    requires Run(c, tr) && Extends(tr, base) && After(c, tr).nextGen <= WRAP && Run(c, base)
    requires Issued(After(c, base).stamps, After(c, base).mem, k, loc) && Current(After(c, base).mem, loc)
    ensures var s := After(c, tr);
            && loc.blockIndex in s.mem
            && (Rewritten(c, tr, base, loc.blockIndex) <==>
                s.mem[loc.blockIndex].header.generation != loc.generation)
            && (!Rewritten(c, tr, base, loc.blockIndex) ==>
                ReadBlock(c.crc, s.mem[loc.blockIndex]) == Some(After(c, base).stamps[loc.generation].data))
  {
    RewritesShow(c, tr, base, k, loc);
    RunConsistent(c, tr);
    if Current(After(c, tr).mem, loc) { CurrentReads(c, After(c, tr), k, loc); }
  }
}
