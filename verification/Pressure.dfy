/** The levels of the memory pressure monitor (pressure.rs). */
module PressureLevels {
  const NORMAL := 0
  const WARN := 1
  const CRITICAL := 2
  const REJECT := 3

  datatype Thresholds = Thresholds(warn: real, critical: real, reject: real)

  function Classify(t: Thresholds, usage: real): int {
    if usage >= t.reject then REJECT else if usage >= t.critical then CRITICAL
    else if usage >= t.warn then WARN else NORMAL
  }

  /** The level is that of the rejecting store exactly when usage has reached the reject threshold; with the
      thresholds in order, it is at least 1 or 2 exactly when usage has reached the warn or critical one. */
  lemma ClassifyExactly(t: Thresholds, usage: real)
    ensures 0 <= Classify(t, usage) <= 3 && (Classify(t, usage) == 3 <==> usage >= t.reject)
    ensures t.warn <= t.critical <= t.reject ==>
              && (Classify(t, usage) >= 1 <==> usage >= t.warn)
              && (Classify(t, usage) >= 2 <==> usage >= t.critical)
  {
  }
}

/** The memory pressure monitor (pressure.rs) beside the concurrent agent, in runs without deletes. */
module Pressure {
  import opened Bytes
  import PressureLevels
  import opened Lists
  import opened AgentProtocol
  import opened Traces

  function LevelOf(c: Config, used: int): int
    requires Sane(c)
  {
    PressureLevels.Classify(Levels(c), used as real / c.totalBlocks as real)
  }

  /** More used blocks never means a lower level, whatever the order of the thresholds. */
  lemma LevelMonotone(c: Config, x: int, y: int)
    requires Sane(c) && x <= y
    ensures LevelOf(c, x) <= LevelOf(c, y)
  {
    assert x as real / c.totalBlocks as real <= y as real / c.totalBlocks as real;
  }


  /** The level is REJECT exactly when usage has reached the reject threshold; with the thresholds in order,
      it is at least 1 or 2 exactly when usage has reached the warn or critical threshold. */
  lemma LevelsAreThresholds(c: Config, used: int)
    requires Sane(c)
    ensures var usage := used as real / c.totalBlocks as real;
            && 0 <= LevelOf(c, used) <= REJECT && (LevelOf(c, used) == REJECT <==> usage >= c.reject)
            && (c.warn <= c.critical <= c.reject ==>
                  && (LevelOf(c, used) >= 1 <==> usage >= c.warn)
                  && (LevelOf(c, used) >= 2 <==> usage >= c.critical))
  {
    PressureLevels.ClassifyExactly(Levels(c), used as real / c.totalBlocks as real);
  }

  ghost predicate NoneFreeing(s: Agent) {
    && (forall t :: t in s.requests ==> !s.requests[t].Freeing?)
    && (forall t :: t in s.ix.ops ==> !s.ix.ops[t].RemoveLru?)
  }

  /** The published level is no higher than the blocks in use, or the sample about to be published,
      warrant. */
  ghost predicate Rising(c: Config, s: Agent)
    requires Sane(c)
  {
    && 0 <= Used(c, s) && s.level <= LevelOf(c, Used(c, s))
    && (s.sampled.Some? ==> s.sampled.value <= Used(c, s) && s.level <= LevelOf(c, s.sampled.value))
  }

  lemma IndexFreesNothing(c: Config, s: Agent, t: Tid)
    requires NoneFreeing(s) && t in s.ix.ops
    ensures NoneFreeing(DoIndex(c, s, t))
  {
    assert !s.ix.ops[t].RemoveLru?;
  }

  lemma StepFreesNothing(c: Config, s: Agent, step: Step)
    requires NoneFreeing(s) && Enabled(c, s, step) && !step.StartDelete?
    ensures NoneFreeing(Apply(c, s, step))
    ensures Used(c, s) <= Used(c, Apply(c, s, step))
    ensures !step.Sample? && !step.Publish? ==>
              Apply(c, s, step).level == s.level && Apply(c, s, step).sampled == s.sampled
  {
    match step
    case IndexStep(t) => IndexFreesNothing(c, s, t);
    case _ =>
  }

  lemma StepRises(c: Config, s: Agent, step: Step)
    requires Sane(c) && NoneFreeing(s) && Rising(c, s) && Enabled(c, s, step) && !step.StartDelete?
    ensures Rising(c, Apply(c, s, step)) && s.level <= Apply(c, s, step).level
  {
    var s' := Apply(c, s, step);
    StepFreesNothing(c, s, step);
    LevelMonotone(c, Used(c, s), Used(c, s'));
    if step.Publish? { LevelMonotone(c, s.sampled.value, Used(c, s)); }
  }

  lemma {:induction false} RunRises(c: Config, tr: Trace)
    requires Run(c, tr) && DeleteFree(tr)
    ensures Sane(c) && NoneFreeing(After(c, tr)) && Rising(c, After(c, tr))
  {
    if tr.Then? {
      RunRises(c, tr.past);
      StepFreesNothing(c, After(c, tr.past), tr.step);
      StepRises(c, After(c, tr.past), tr.step);
    } else {
      CountdownDistinct(c.totalBlocks);
    }
  }

  /** In a run without deletes neither the number of used blocks nor the published level ever falls, so
      once the level is REJECT it stays there and no store that starts later is admitted. */
  lemma {:induction false} RejectIsForever(c: Config, tr: Trace, base: Trace)
    requires Run(c, tr) && DeleteFree(tr) && Extends(tr, base)
    ensures Run(c, base) && Used(c, After(c, base)) <= Used(c, After(c, tr))
    ensures After(c, base).level <= After(c, tr).level <= REJECT
    ensures After(c, base).level == REJECT ==>
              forall t, k, d :: !Enabled(c, After(c, tr), StartStore(t, k, d))
  {
    RunRises(c, tr);
    if tr != base {
      RejectIsForever(c, tr.past, base);
      RunRises(c, tr.past);
      StepFreesNothing(c, After(c, tr.past), tr.step);
      StepRises(c, After(c, tr.past), tr.step);
    }
  }

  // ---- when stores are refused -------------------------------------------------------------

  /** The blocks in use when the monitor last looked, until it has published what it saw. */
  ghost function Seen(c: Config, tr: Trace): Option<int>
    requires Run(c, tr)
  {
    match tr
    case Start => None
    case Then(past, Sample) => Some(Used(c, After(c, past)))
    case Then(past, Publish) => None
    case Then(past, _) => Seen(c, past)
  }

  /** The monitor has published a usage at or above the threshold `x`. */
  ghost predicate Reached(c: Config, tr: Trace, x: real)
    requires Run(c, tr) && Sane(c)
  {
    tr.Then? &&
    (Reached(c, tr.past, x) ||
     (tr.step.Publish? && Seen(c, tr.past).Some? && Seen(c, tr.past).value as real / c.totalBlocks as real >= x))
  }

  lemma {:induction false} SampleIsSeen(c: Config, tr: Trace)
    requires Run(c, tr)
    ensures After(c, tr).sampled == Seen(c, tr)
  {
    if tr.Then? {
      SampleIsSeen(c, tr.past);
      UsedBlocks(c, tr.past);
      SampleMoves(c, After(c, tr.past), tr.step);
    }
  }

  lemma SampleMoves(c: Config, s: Agent, step: Step)
    requires Enabled(c, s, step) && 0 <= Used(c, s)
    ensures Apply(c, s, step).sampled ==
            match step case Sample => Some(Used(c, s)) case Publish => None case _ => s.sampled
  {
  }

  /** In a run without deletes the level is the highest whose threshold a published usage has reached, however
      long ago. So a store is refused exactly when one has reached the reject threshold. */
  lemma {:induction false} RefusedExactly(c: Config, tr: Trace, t: Tid, k: Key, d: seq<byte>)
    requires Run(c, tr) && DeleteFree(tr)
    ensures Sane(c) && (After(c, tr).level == REJECT <==> Reached(c, tr, c.reject))
    ensures c.warn <= c.critical <= c.reject ==>
              && (After(c, tr).level >= 1 <==> Reached(c, tr, c.warn))
              && (After(c, tr).level >= 2 <==> Reached(c, tr, c.critical))
    ensures Idle(After(c, tr), t) ==>
              (!Enabled(c, After(c, tr), StartStore(t, k, d)) <==> Reached(c, tr, c.reject))
  {
    RunRises(c, tr);
    LevelsAreThresholds(c, Used(c, After(c, tr)));
    if tr.Then? {
      RefusedExactly(c, tr.past, t, k, d);
      RunRises(c, tr.past);
      SampleIsSeen(c, tr.past);
      StepFreesNothing(c, After(c, tr.past), tr.step);
      StepRises(c, After(c, tr.past), tr.step);
      if tr.step.Publish? { LevelsAreThresholds(c, Seen(c, tr.past).value); }
    }
  }
}
