/**
 What a concurrent `get` answers. A get reads its block three times: the header, the data for the
 checksum, the data for the answer. If no store writes the block from the first to the last of these
 it answers one version of the block, and which version decides exactly whether the answer is right.
 */
module AgentReads {
  import opened Bytes
  import opened Lists
  import opened BlockFormat
  import opened IndexModel
  import opened AgentProtocol
  import opened AgentMemory
  import opened Traces
  import PressureLevels
  import Ix = IndexProtocol

  /** The step writes the header or the data of block `b`. */
  ghost predicate Writes(s: Agent, step: Step, b: int) {
    && (step.WriteHeader? || step.WriteData?) && step.t in s.requests
    && (s.requests[step.t].Stamped? || s.requests[step.t].HeaderDone?) && s.requests[step.t].block == b
  }

  /** Some step after `base` ends the get of `t`. */
  predicate Finishes(tr: Trace, base: Trace, t: Tid)
    requires Extends(tr, base)
  {
    tr != base && (tr.step == FinishGet(t) || Finishes(tr.past, base, t))
  }

  ghost predicate Answered(s: Agent, t: Tid) {
    t in s.requests && s.requests[t].GetDone?
  }

  /** Some step after `base` writes block `b` before `t` has its answer. */
  ghost predicate Disturbed(c: Config, tr: Trace, base: Trace, t: Tid, b: int)
    requires Run(c, tr) && Extends(tr, base)
  {
    tr != base &&
    (Disturbed(c, tr.past, base, t, b) || (Writes(After(c, tr.past), tr.step, b) && !Answered(After(c, tr.past), t)))
  }

  /** A get between reading the header and finishing that has seen nothing but block `m`. */
  ghost predicate Reading(c: Config, r: Request, k: Key, loc: Location, m: Block) {
    match r
    case GetCrc(l, p, h) => (l, p, h) == (k, loc, m.header)
    case GetCopy(l, p, h) =>
      (l, p, h) == (k, loc, m.header) && h.dataSize <= |m.body| && ReadBlock(c.crc, m) == Some(m.body[..h.dataSize])
    case GetDone(l, p, h, result) => (l, p, h) == (k, loc, m.header) && result == ReadBlock(c.crc, m)
    case _ => false
  }

  /** The get of `t` has seen block `m` only, and the block still is `m` or the answer is there. */
  ghost predicate Sees(c: Config, s: Agent, t: Tid, k: Key, loc: Location, m: Block) {
    && t in s.requests && Reading(c, s.requests[t], k, loc, m)
    && (Answered(s, t) || (loc.blockIndex in s.mem && s.mem[loc.blockIndex] == m))
  }

  lemma OwnStepSees(c: Config, s: Agent, t: Tid, step: Step, k: Key, loc: Location, m: Block)
    requires Sees(c, s, t, k, loc, m) && Enabled(c, s, step) && step in {CheckCrc(t), CopyOut(t)}
    ensures Sees(c, Apply(c, s, step), t, k, loc, m)
  {
  }

  lemma OtherStepSees(c: Config, s: Agent, t: Tid, step: Step, k: Key, loc: Location, m: Block)
    requires Sees(c, s, t, k, loc, m) && Enabled(c, s, step)
    requires step !in {CheckCrc(t), CopyOut(t), FinishGet(t)} && t !in s.ix.ops
    requires Answered(s, t) || !Writes(s, step, loc.blockIndex)
    ensures Sees(c, Apply(c, s, step), t, k, loc, m)
  {
    hide ReadBlock;
    match step
    case IndexStep(u) => assert u != t;
    case _ =>
  }

  /** Undisturbed, a get answers the block as it was when it read the header. */
  lemma {:induction false} ReadsOneVersion(c: Config, tr: Trace, base: Trace, t: Tid)
    requires Run(c, base) && Enabled(c, After(c, base), ReadHeader(t))
    requires Run(c, tr) && Extends(tr, Then(base, ReadHeader(t)))
    requires !Finishes(tr, Then(base, ReadHeader(t)), t)
    requires var b := After(c, base).requests[t].loc.blockIndex;
             !Disturbed(c, tr, Then(base, ReadHeader(t)), t, b)
    ensures var r := After(c, base).requests[t];
            Sees(c, After(c, tr), t, r.key, r.loc, After(c, base).mem[r.loc.blockIndex])
  {
    var r, first := After(c, base).requests[t], Then(base, ReadHeader(t));
    if tr != first {
      ReadsOneVersion(c, tr.past, base, t);
      RunOwned(c, tr.past);
      var s, m := After(c, tr.past), After(c, base).mem[r.loc.blockIndex];
      if tr.step in {CheckCrc(t), CopyOut(t)} {
        OwnStepSees(c, s, t, tr.step, r.key, r.loc, m);
      } else {
        OtherStepSees(c, s, t, tr.step, r.key, r.loc, m);
      }
    }
  }

  // ---- which version -----------------------------------------------------------------------

  lemma StepKeepsWritten(c: Config, s: Agent, step: Step, b: int)
    requires Consistent(c, s) && Enabled(c, s, step) && s.nextGen <= WRAP
    requires b in s.mem && s.mem[b].header.generation != 0
    ensures b in Apply(c, s, step).mem && Apply(c, s, step).mem[b].header.generation != 0
  {
    if step.WriteHeader? { assert RequestOk(c, s.stamps, s.mem, s.requests[step.t]); }
  }

  /** A block once written never looks unwritten again. */
  lemma {:induction false} StaysWritten(c: Config, tr: Trace, base: Trace, b: int)
    requires Run(c, tr) && Extends(tr, base) && After(c, tr).nextGen <= WRAP && Run(c, base)
    requires b in After(c, base).mem && After(c, base).mem[b].header.generation != 0
    ensures b in After(c, tr).mem && After(c, tr).mem[b].header.generation != 0
  {
    if tr != base {
      GenerationsGrow(c, After(c, tr.past), tr.step);
      StaysWritten(c, tr.past, base, b);
      RunConsistent(c, tr.past);
      StepKeepsWritten(c, After(c, tr.past), tr.step, b);
    }
  }

  lemma CompleteReads(c: Config, s: Agent, b: int)
    requires Sane(c) && Consistent(c, s) && b in s.mem && s.mem[b].header.generation != 0
    ensures var g := s.mem[b].header.generation;
            && g in s.stamps && s.stamps[g].block == b && !s.stamps[g].phase.Drawn?
            && (s.stamps[g].phase.Complete? ==> ReadBlock(c.crc, s.mem[b]) == Some(s.stamps[g].data))
  {
    assert BlockOk(c, s.stamps, b, s.mem[b]);
  }

  /** The block a get reads, at the time `read` when it is about to read the header, if the index gave it
      location `loc` at the time `look`: it carries the location's generation if and only if it was not
      rewritten in between; and unless a store is just between its two writes of the block, reading it
      gives the bytes of the generation it carries. */
  lemma BlockAtRead(c: Config, read: Trace, look: Trace, k: Key)
    requires Run(c, look) && k in After(c, look).ix.entries
    requires Run(c, read) && Extends(read, look) && After(c, read).nextGen <= WRAP
    ensures var s, loc := After(c, read), After(c, look).ix.entries[k];
            && loc.blockIndex in s.mem && loc.generation in s.stamps && loc.generation in After(c, look).stamps
            && s.stamps[loc.generation] == After(c, look).stamps[loc.generation]
            && var m := s.mem[loc.blockIndex]; var g := m.header.generation;
            && g in s.stamps && s.stamps[g].block == loc.blockIndex && !s.stamps[g].phase.Drawn?
            && (g == loc.generation <==> !Rewritten(c, read, look, loc.blockIndex))
            && (g == loc.generation ==> s.stamps[g].phase.Complete?)
            && (s.stamps[g].phase.Complete? ==> ReadBlock(c.crc, m) == Some(s.stamps[g].data))
  {
    ExtensionGrows(c, read, look);
    RunConsistent(c, look);
    RunConsistent(c, read);
    var s0 := After(c, look);
    var loc := s0.ix.entries[k];
    assert EntryOk(s0.stamps, s0.mem, k, loc);
    RewritesShow(c, read, look, k, loc);
    StaysWritten(c, read, look, loc.blockIndex);
    CompleteReads(c, After(c, read), loc.blockIndex);
  }

  lemma {:induction false} ExtensionGrows(c: Config, tr: Trace, base: Trace)
    requires Run(c, tr) && Extends(tr, base) && Run(c, base)
    ensures After(c, base).nextGen <= After(c, tr).nextGen
  {
    if tr != base {
      ExtensionGrows(c, tr.past, base);
      GenerationsGrow(c, After(c, tr.past), tr.step);
    }
  }

  /** What a concurrent get answers, exactly. It finds `k` in the index at `look`, reads the header at
      `read`, and has its answer at `tr`, and no store writes its block from then to then. Then it answers
      the version of the block whose header it read. The version is its own, the one the index entry was
      made for, if and only if the block was not rewritten between `look` and `read`. And if the version is
      complete, the answer is right if and only if that version's bytes are the bytes stored under `k`. */
  lemma GetAnswersExactly(c: Config, tr: Trace, read: Trace, look: Trace, t: Tid, k: Key)
    requires Run(c, look) && k in After(c, look).ix.entries
    requires Run(c, read) && Extends(read, look) && t in After(c, read).requests
    requires After(c, read).requests[t] == GetHeader(k, After(c, look).ix.entries[k])
    requires Enabled(c, After(c, read), ReadHeader(t))
    requires Run(c, tr) && Extends(tr, Then(read, ReadHeader(t))) && After(c, tr).nextGen <= WRAP
    requires !Finishes(tr, Then(read, ReadHeader(t)), t) && Answered(After(c, tr), t)
    requires !Disturbed(c, tr, Then(read, ReadHeader(t)), t, After(c, look).ix.entries[k].blockIndex)
    ensures var loc, s := After(c, look).ix.entries[k], After(c, read);
            && loc.generation in s.stamps && After(c, tr).requests[t].header.generation in s.stamps
            && var GetDone(l, p, h, result) := After(c, tr).requests[t];
            var own, version := s.stamps[loc.generation].data, s.stamps[h.generation];
            && (l, p) == (k, loc)
            && (h.generation == loc.generation <==> !Rewritten(c, read, look, loc.blockIndex))
            && (h.generation == loc.generation ==> result == Some(own))
            && (version.phase.Complete? ==>
                  result == Some(version.data) && (result == Some(own) <==> version.data == own))
  {
    hide Apply, Disturbed, Finishes, Rewritten, ReadBlock;
    ExtendsPast(tr, read, ReadHeader(t));
    ExtensionGrows(c, tr, read);
    BlockAtRead(c, read, look, k);
    ReadsOneVersion(c, tr, read, t);
  }

  lemma {:induction false} ExtendsPast(tr: Trace, base: Trace, step: Step)
    requires Extends(tr, Then(base, step))
    ensures Extends(tr, base)
  {
    if tr != Then(base, step) { ExtendsPast(tr.past, base, step); }
  }

  // ---- every get has its lookup, and answers its own bytes unless its key is deleted -------------

  predicate IsGet(r: Request) {
    r.GetHeader? || r.GetCrc? || r.GetCopy? || r.GetDone?
  }

  /** `t` is a get of `k` to which the index gave `loc`. */
  ghost predicate Getting(s: Agent, t: Tid, k: Key, loc: Location) {
    || (t in s.ix.ops && s.ix.ops[t] == Ix.LookupTouch(k, loc))
    || (t in s.requests && IsGet(s.requests[t]) && (s.requests[t].key, s.requests[t].loc) == (k, loc))
  }

  /** A lookup at `look` that finds `k` at `loc`. */
  ghost predicate Looks(c: Config, look: Trace, t: Tid, k: Key, loc: Location) {
    && Run(c, look) && Enabled(c, After(c, look), StartGet(t, k))
    && k in After(c, look).ix.entries && After(c, look).ix.entries[k] == loc
  }

  predicate By(step: Step, t: Tid) {
    !step.Sample? && !step.Publish? && step.t == t
  }

  ghost predicate SameAt(s: Agent, s': Agent, t: Tid) {
    && (t in s.requests <==> t in s'.requests) && (t in s.requests ==> s.requests[t] == s'.requests[t])
    && (t in s.ix.ops <==> t in s'.ix.ops) && (t in s.ix.ops ==> s.ix.ops[t] == s'.ix.ops[t])
  }

  lemma OtherCallLeaves(c: Config, s: Agent, u: Tid, t: Tid)
    requires u in s.ix.ops && u != t
    ensures SameAt(s, DoIndex(c, s, u), t)
  {
    hide Touch, Last, Without, IndexOwners;
  }

  lemma OthersLeave(c: Config, s: Agent, step: Step, t: Tid)
    requires Enabled(c, s, step) && !By(step, t)
    ensures SameAt(s, Apply(c, s, step), t)
  {
    hide PressureLevels.Classify, Used, Overwrite, DoIndex, NewHeader, Touch, Without, Last;
    match step
    case IndexStep(u) => OtherCallLeaves(c, s, u, t);
    case _ =>
  }

  lemma OwnCallBegins(c: Config, s: Agent, t: Tid, k: Key, loc: Location)
    requires t in s.ix.ops && t !in s.requests && Getting(DoIndex(c, s, t), t, k, loc)
    ensures Getting(s, t, k, loc)
  {
    hide Touch, Last, Without, IndexOwners;
  }

  lemma GetBegins(c: Config, s: Agent, step: Step, t: Tid, k: Key, loc: Location)
    requires Enabled(c, s, step) && Getting(Apply(c, s, step), t, k, loc) && (t in s.requests ==> t !in s.ix.ops)
    ensures || (Getting(s, t, k, loc) && step != FinishGet(t))
            || (step == StartGet(t, k) && k in s.ix.entries && s.ix.entries[k] == loc)
  {
    hide PressureLevels.Classify, Used, Overwrite, DoIndex;
    if !By(step, t) {
      hide Apply, Enabled;
      OthersLeave(c, s, step, t);
    } else {
      match step
      case IndexStep(_) => OwnCallBegins(c, s, t, k, loc);
      case _ =>
    }
  }

  lemma GetGoesOn(c: Config, s: Agent, step: Step, t: Tid, k: Key, loc: Location)
    requires Enabled(c, s, step) && Getting(s, t, k, loc) && (t in s.requests ==> t !in s.ix.ops)
    requires step != FinishGet(t)
    ensures Getting(Apply(c, s, step), t, k, loc)
    ensures Answered(s, t) ==> Answered(Apply(c, s, step), t) && Apply(c, s, step).requests[t] == s.requests[t]
  {
    hide Touch, Last, Without, PressureLevels.Classify, Used, Overwrite;
    if !By(step, t) {
      hide Apply, Enabled;
      OthersLeave(c, s, step, t);
    } else {
      match step
      case _ =>
    }
  }

  /** Every get in flight began with a lookup that found its key at its location, and has not ended since. */
  lemma {:induction false} EveryGetLooked(c: Config, tr: Trace, t: Tid, k: Key, loc: Location) returns (look: Trace)
    requires Run(c, tr) && Getting(After(c, tr), t, k, loc)
    ensures Looks(c, look, t, k, loc) && Extends(tr, Then(look, StartGet(t, k)))
    ensures !Finishes(tr, Then(look, StartGet(t, k)), t)
  {
    if tr.Start? { return Start; }
    RunOwned(c, tr.past);
    GetBegins(c, After(c, tr.past), tr.step, t, k, loc);
    if Getting(After(c, tr.past), t, k, loc) && tr.step != FinishGet(t) {
      look := EveryGetLooked(c, tr.past, t, k, loc);
    } else {
      look := tr.past;
    }
  }

  /** Some delete request for `k` after `base` comes before `t` has its answer. */
  ghost predicate DeletedMeanwhile(c: Config, tr: Trace, base: Trace, t: Tid, k: Key)
    requires Run(c, tr) && Extends(tr, base)
  {
    tr != base &&
    (DeletedMeanwhile(c, tr.past, base, t, k) ||
     (tr.step.StartDelete? && tr.step.key == k && !Answered(After(c, tr.past), t)))
  }

  /** Block `b` is the indexed block of `k`, or lost: nobody can write it. */
  ghost predicate OutOfReach(s: Agent, k: Key, b: int) {
    b in s.owner && s.owner[b] in {Entry(k), Dropped}
  }

  lemma OwnStays(c: Config, s: Agent, step: Step, k: Key, b: int)
    requires Owned(c, s) && Enabled(c, s, step) && b in s.owner && s.owner[b] == Entry(k)
    requires !(step.StartDelete? && step.key == k)
    ensures OutOfReach(Apply(c, s, step), k, b)
  {
    hide Without, Touch, Last, Overwrite, PressureLevels.Classify;
    match step
    case Allocate(t) => if s.free.Cons? { assert s.free.head in Elems(s.free); }
    case IndexStep(t) =>
      assert CallBlock(s.ix.ops[t]).Some? ==> Holding(s.requests, s.ix.ops, t) == CallBlock(s.ix.ops[t]);
    case Deallocate(t) => assert Holding(s.requests, s.ix.ops, t) == Some(s.requests[t].loc.blockIndex);
    case _ =>
  }

  /** A block is freed only by a delete of the key that has it. */
  lemma StaysOutOfReach(c: Config, s: Agent, step: Step, k: Key, b: int)
    requires Owned(c, s) && Enabled(c, s, step) && OutOfReach(s, k, b)
    requires !(step.StartDelete? && step.key == k)
    ensures OutOfReach(Apply(c, s, step), k, b)
    ensures step.WriteHeader? ==> s.requests[step.t].block != b
  {
    hide Apply;
    if s.owner[b] == Dropped {
      StepKeepsDropped(c, s, step, b);
    } else {
      OwnStays(c, s, step, k, b);
    }
    if step.WriteHeader? { assert Holding(s.requests, s.ix.ops, step.t) == Some(s.requests[step.t].block); }
  }

  /** The get of `t` has the answer `own`, or its block still carries its generation and cannot be written. */
  ghost predicate Safe(s: Agent, t: Tid, k: Key, loc: Location, own: seq<byte>) {
    && Getting(s, t, k, loc)
    && (if Answered(s, t) then s.requests[t].result == Some(own)
        else OutOfReach(s, k, loc.blockIndex) && EntryOk(s.stamps, s.mem, k, loc)
             && s.stamps[loc.generation].data == own)
  }

  lemma StepSafe(c: Config, s: Agent, step: Step, t: Tid, k: Key, loc: Location, own: seq<byte>)
    requires Owned(c, s) && Consistent(c, s) && Enabled(c, s, step) && Consistent(c, Apply(c, s, step))
    requires Apply(c, s, step).nextGen <= WRAP && Safe(s, t, k, loc, own) && step != FinishGet(t)
    requires !(step.StartDelete? && step.key == k && !Answered(s, t))
    ensures Safe(Apply(c, s, step), t, k, loc, own)
  {
    hide Apply, Enabled, BlockOk, StampsOk, MemoryOk, CallsOk, AgentMemory.EntriesOk, OutOfReach;
    var s' := Apply(c, s, step);
    StepOwned(c, s, step);
    GetGoesOn(c, s, step, t, k, loc);
    if !Answered(s, t) {
      StaysOutOfReach(c, s, step, k, loc.blockIndex);
      StepKeepsIssued(c, s, step, k, loc);
      if Answered(s', t) { assert RequestOk(c, s'.stamps, s'.mem, s'.requests[t]); }
    }
  }

  lemma {:induction false} RunSafe(c: Config, tr: Trace, look: Trace, t: Tid, k: Key, loc: Location)
    requires Looks(c, look, t, k, loc) && Run(c, tr) && Extends(tr, Then(look, StartGet(t, k)))
    requires After(c, tr).nextGen <= WRAP && !Finishes(tr, Then(look, StartGet(t, k)), t)
    requires !DeletedMeanwhile(c, tr, Then(look, StartGet(t, k)), t, k)
    ensures loc.generation in After(c, look).stamps
    ensures Safe(After(c, tr), t, k, loc, After(c, look).stamps[loc.generation].data)
  {
    var first := Then(look, StartGet(t, k));
    if tr == first {
      RunConsistent(c, look);
      LookSafe(c, After(c, look), t, k, loc);
    } else {
      GenerationsGrow(c, After(c, tr.past), tr.step);
      RunSafe(c, tr.past, look, t, k, loc);
      RunConsistent(c, tr.past);
      RunConsistent(c, tr);
      StepSafe(c, After(c, tr.past), tr.step, t, k, loc, After(c, look).stamps[loc.generation].data);
    }
  }

  lemma LookSafe(c: Config, s: Agent, t: Tid, k: Key, loc: Location)
    requires Owned(c, s) && Consistent(c, s) && Enabled(c, s, StartGet(t, k))
    requires k in s.ix.entries && s.ix.entries[k] == loc
    ensures loc.generation in s.stamps
    ensures Safe(Apply(c, s, StartGet(t, k)), t, k, loc, s.stamps[loc.generation].data)
  {
    assert EntryOk(s.stamps, s.mem, k, loc);
  }

  /** What a client may rely on: a get answers the bytes of the store its lookup found, whatever else runs,
      as long as no delete of its own key is requested between the lookup and the answer. */
  lemma GetAnswersOwnBytes(c: Config, tr: Trace, t: Tid) returns (look: Trace)
    requires Run(c, tr) && After(c, tr).nextGen <= WRAP && Answered(After(c, tr), t)
    ensures var GetDone(k, loc, _, result) := After(c, tr).requests[t];
            && Looks(c, look, t, k, loc) && Extends(tr, Then(look, StartGet(t, k)))
            && !Finishes(tr, Then(look, StartGet(t, k)), t)
            && loc.generation in After(c, look).stamps && After(c, look).stamps[loc.generation].key == k
            && (!DeletedMeanwhile(c, tr, Then(look, StartGet(t, k)), t, k) ==>
                  result == Some(After(c, look).stamps[loc.generation].data))
  {
    var r := After(c, tr).requests[t];
    look := EveryGetLooked(c, tr, t, r.key, r.loc);
    ExtendsPast(tr, look, StartGet(t, r.key));
    ExtensionGrows(c, tr, look);
    IndexedBlocksRead(c, look, r.key);
    if !DeletedMeanwhile(c, tr, Then(look, StartGet(t, r.key)), t, r.key) {
      RunSafe(c, tr, look, t, r.key, r.loc);
    }
  }
}
