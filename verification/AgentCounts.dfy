/** What the agent's eviction counter counts, and where its locations lie, in every interleaving. */
module AgentCounts {
  import opened Bytes
  import opened Lists
  import opened BlockFormat
  import opened IndexModel
  import opened AgentProtocol
  import opened Traces
  import Ix = IndexProtocol

  // ---- evictions ---------------------------------------------------------------------------

  function EvictedBy(ops: map<Tid, Ix.Op>, t: Tid): nat {
    if t in ops && Ix.Inserting(ops[t]) && !ops[t].InsertCheck? then ops[t].evicted else 0
  }

  /** The victims the insert call of `t` in flight has removed from the map, or found removed. */
  ghost function Unmaps(c: Config, tr: Trace, t: Tid): nat
    requires Run(c, tr)
  {
    if tr.Start? then 0
    else
      var n := Unmaps(c, tr.past, t);
      if tr.step != IndexStep(t) then n
      else
        match After(c, tr.past).ix.ops[t]
        case InsertUnmap(_, _, _, _) => n + 1
        case InsertTouch(_, _, _) => 0
        case _ => n
  }

  /** The victims of insert calls that have ended. */
  ghost function Victimized(c: Config, tr: Trace): nat
    requires Run(c, tr)
  {
    if tr.Start? then 0
    else if tr.step.IndexStep? && After(c, tr.past).ix.ops[tr.step.t].InsertTouch? then
      Victimized(c, tr.past) + Unmaps(c, tr.past, tr.step.t)
    else Victimized(c, tr.past)
  }

  lemma CallEvicts(c: Config, s: Agent, u: Tid, t: Tid)
    requires u in s.ix.ops
    ensures var ops, ops' := s.ix.ops, DoIndex(c, s, u).ix.ops;
            EvictedBy(ops', t) ==
            if u != t then EvictedBy(ops, t)
            else
              match ops[t]
              case InsertUnmap(_, _, _, _) => EvictedBy(ops, t) + 1
              case InsertTouch(_, _, _) => 0
              case _ => EvictedBy(ops, t)
  {
    hide Touch, Last, Without, IndexOwners;
  }

  lemma StepEvicts(c: Config, s: Agent, step: Step, t: Tid)
    requires Owned(c, s) && Enabled(c, s, step) && !step.IndexStep?
    ensures EvictedBy(Apply(c, s, step).ix.ops, t) == EvictedBy(s.ix.ops, t)
    ensures Apply(c, s, step).evictions == s.evictions
  {
    hide Touch, Last, Without, FreeOk, AgentProtocol.EntriesOk, Blocks;
    match step
    case WriteData(u) => assert u in s.requests;
    case _ =>
  }

  /** In every run the eviction counter is the number of victims of the inserts that have ended; those of an insert
      in flight are counted when it ends. */
  lemma {:induction false} EvictionsCounted(c: Config, tr: Trace, t: Tid)
    requires Run(c, tr)
    ensures After(c, tr).evictions == Victimized(c, tr)
    ensures EvictedBy(After(c, tr).ix.ops, t) == Unmaps(c, tr, t)
  {
    hide Owned;
    if tr.Then? {
      var s := After(c, tr.past);
      EvictionsCounted(c, tr.past, t);
      RunOwned(c, tr.past);
      if tr.step.IndexStep? {
        EvictionsCounted(c, tr.past, tr.step.t);
        CallEvicts(c, s, tr.step.t, t);
      } else {
        StepEvicts(c, s, tr.step, t);
      }
    }
  }

  // ---- locations ---------------------------------------------------------------------------

  /** The location is that of a whole block of the local pool. */
  predicate Whole(c: Config, loc: Location) {
    loc.nodeId == 0 && loc.offset == loc.blockIndex * c.blockSize && loc.blockSize == c.blockSize
  }

  predicate Placed(c: Config, r: Request) {
    r.GetHeader? || r.GetCrc? || r.GetCopy? || r.GetDone? || r.Freeing? ==> Whole(c, r.loc)
  }

  ghost predicate AllWhole(c: Config, s: Agent) {
    && (forall k :: k in s.ix.entries ==> Whole(c, s.ix.entries[k]))
    && (forall t :: t in s.ix.ops ==> Whole(c, s.ix.ops[t].entry))
    && (forall t :: t in s.requests ==> Placed(c, s.requests[t]))
  }

  lemma CallWhole(c: Config, s: Agent, t: Tid)
    requires t in s.ix.ops && AllWhole(c, s)
    ensures AllWhole(c, DoIndex(c, s, t))
  {
    hide Touch, Last, Without, IndexOwners, Whole;
  }

  lemma WriteWhole(c: Config, s: Agent, t: Tid, k: Key, d: seq<byte>, b: int, g: nat)
    requires AllWhole(c, s) && b in s.mem && |d| <= |s.mem[b].body|
    ensures AllWhole(c, DoWriteData(c, s, t, k, d, b, g))
  {
    hide Overwrite;
  }

  lemma StepWhole(c: Config, s: Agent, step: Step)
    requires Enabled(c, s, step) && AllWhole(c, s)
    ensures AllWhole(c, Apply(c, s, step))
  {
    hide DoIndex, DoWriteData, NewHeader, Whole, Touch, Without, Last;
    match step
    case IndexStep(t) => CallWhole(c, s, t);
    case WriteData(t) =>
      var HeaderDone(k, d, b, g) := s.requests[t];
      WriteWhole(c, s, t, k, d, b, g);
    case _ =>
  }

  /** In every run the offset of every location, in the index or in flight, is its block number times the block
      size, so reading at the offset is reading the block. */
  lemma {:induction false} LocationsAreWhole(c: Config, tr: Trace)
    requires Run(c, tr)
    ensures AllWhole(c, After(c, tr))
  {
    if tr.Then? {
      LocationsAreWhole(c, tr.past);
      StepWhole(c, After(c, tr.past), tr.step);
    }
  }
}
