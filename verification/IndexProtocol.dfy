/**
 The prefix-hash index (index.rs) under concurrency. Every `DashMap` call and every locked section of
 the LRU tracker is one step, and any number of calls interleave. A lookup keeps the map's read guard
 from `get` until after its `touch`, so it blocks writes of its key in between.
 */
module IndexProtocol {
  import opened Bytes
  import opened Lists
  import opened IndexModel
  import opened Traces

  type Tid = int

  /** A call in progress: what it is about to do. */
  datatype Op =
    | LookupTouch(key: Key, entry: Location)                            // lru.touch, guard held
    | InsertCheck(key: Key, entry: Location)                            // map.contains_key
    | InsertLen(key: Key, entry: Location, evicted: nat)                // map.len() >= capacity
    | InsertPop(key: Key, entry: Location, evicted: nat)                // lru.evict_lru
    | InsertUnmap(key: Key, entry: Location, evicted: nat, victim: Key) // map.remove(victim)
    | InsertWrite(key: Key, entry: Location, evicted: nat)              // map.insert
    | InsertTouch(key: Key, entry: Location, evicted: nat)              // lru.touch
    | RemoveLru(key: Key, entry: Location)                              // lru.remove

  datatype State = State(entries: map<Key, Location>, lru: List<int>, ops: map<Tid, Op>)

  datatype Step =
    | BeginLookup(t: Tid, key: Key)
    | BeginInsert(t: Tid, key: Key, entry: Location)
    | BeginRemove(t: Tid, key: Key)
    | Advance(t: Tid)

  const INITIAL := State(map[], Nil, map[])

  /** No lookup holds the read guard of `k`. */
  ghost predicate Unguarded(s: State, k: Key) {
    forall t :: t in s.ops ==> !(s.ops[t].LookupTouch? && s.ops[t].key == k)
  }

  ghost predicate Enabled(s: State, step: Step) {
    match step
    case BeginLookup(t, k) => t !in s.ops
    case BeginInsert(t, k, e) => t !in s.ops
    case BeginRemove(t, k) => t !in s.ops && Unguarded(s, k)
    case Advance(t) =>
      && t in s.ops
      && (s.ops[t].InsertUnmap? ==> Unguarded(s, s.ops[t].victim))
      && (s.ops[t].InsertWrite? ==> Unguarded(s, s.ops[t].key))
  }

  function Progress(capacity: nat, s: State, t: Tid): State
    requires t in s.ops
  {
    match s.ops[t]
    case LookupTouch(k, _) => State(s.entries, Touch(s.lru, k), s.ops - {t})
    case InsertCheck(k, e) =>
      s.(ops := s.ops[t := if k in s.entries then InsertWrite(k, e, 0) else InsertLen(k, e, 0)])
    case InsertLen(k, e, n) =>
      s.(ops := s.ops[t := if |s.entries| >= capacity then InsertPop(k, e, n) else InsertWrite(k, e, n)])
    case InsertPop(k, e, n) =>
      (match Last(s.lru)
       case None => s.(ops := s.ops[t := InsertWrite(k, e, n)])
       case Some(v) => State(s.entries, Without(s.lru, v), s.ops[t := InsertUnmap(k, e, n, v)]))
    case InsertUnmap(k, e, n, v) => State(s.entries - {v}, s.lru, s.ops[t := InsertLen(k, e, n + 1)])
    case InsertWrite(k, e, n) => State(s.entries[k := e], s.lru, s.ops[t := InsertTouch(k, e, n)])
    case InsertTouch(k, _, _) => State(s.entries, Touch(s.lru, k), s.ops - {t})
    case RemoveLru(k, _) => State(s.entries, Without(s.lru, k), s.ops - {t})
  }

  function Apply(capacity: nat, s: State, step: Step): State
    requires step.Advance? ==> step.t in s.ops
  {
    match step
    case BeginLookup(t, k) => if k in s.entries then s.(ops := s.ops[t := LookupTouch(k, s.entries[k])]) else s
    case BeginInsert(t, k, e) => s.(ops := s.ops[t := InsertCheck(k, e)])
    case BeginRemove(t, k) =>
      if k in s.entries then State(s.entries - {k}, s.lru, s.ops[t := RemoveLru(k, s.entries[k])]) else s
    case Advance(t) => Progress(capacity, s, t)
  }

  /** A run from the empty index, latest step outermost. */
  type Trace = Steps<Step>

  ghost predicate Run(capacity: nat, tr: Trace)
    decreases tr, 0
  {
    match tr
    case Start => true
    case Then(past, step) => Run(capacity, past) && Enabled(After(capacity, past), step)
  }

  ghost function After(capacity: nat, tr: Trace): State
    requires Run(capacity, tr)
    decreases tr, 1
  {
    match tr
    case Start => INITIAL
    case Then(past, step) => Apply(capacity, After(capacity, past), step)
  }

  predicate Inserting(op: Op) {
    !op.LookupTouch? && !op.RemoveLru?
  }

  function Inserters(s: State): set<Tid> {
    set t | t in s.ops && Inserting(s.ops[t])
  }

  /** At no point of the run are more than `n` inserts in flight. */
  ghost predicate AtMost(capacity: nat, tr: Trace, n: nat)
    requires Run(capacity, tr)
  {
    && |Inserters(After(capacity, tr))| <= n
    && (tr.Then? ==> AtMost(capacity, tr.past, n))
  }

  /** The step writes a key while a remove of the same key is between its two halves. */
  ghost predicate Overlaps(s: State, step: Step) {
    && step.Advance? && step.t in s.ops && s.ops[step.t].InsertWrite?
    && exists r :: r in s.ops && s.ops[r].RemoveLru? && s.ops[r].key == s.ops[step.t].key
  }

  ghost predicate NoOverlap(capacity: nat, tr: Trace)
    requires Run(capacity, tr)
  {
    tr.Then? ==> NoOverlap(capacity, tr.past) && !Overlaps(After(capacity, tr.past), tr.step)
  }

  // ---- agreement of map and LRU ------------------------------------------------------------

  /** The call is between the two halves that take `k` into or out of both structures. */
  predicate Holds(op: Op, k: Key) {
    (op.InsertTouch? && op.key == k) || (op.InsertUnmap? && op.victim == k)
  }

  ghost predicate Held(s: State, k: Key) {
    exists t :: t in s.ops && Holds(s.ops[t], k)
  }

  /** A key of the map that the LRU does not track is held by a call in flight. */
  ghost predicate Agreement(s: State) {
    forall k :: k in s.entries && k !in Elems(s.lru) ==> Held(s, k)
  }

  ghost predicate Removing(s: State) {
    forall t :: t in s.ops && s.ops[t].RemoveLru? ==> s.ops[t].key !in s.entries
  }

  lemma HeldElsewhere(s: State, s': State, t: Tid, k: Key)
    requires Held(s, k) && (t in s.ops ==> !Holds(s.ops[t], k))
    requires forall u :: u in s.ops && u != t ==> u in s'.ops && s'.ops[u] == s.ops[u]
    ensures Held(s', k)
  {
    var u :| u in s.ops && Holds(s.ops[u], k);
    assert u in s'.ops && Holds(s'.ops[u], k);
  }

  lemma StepAgrees(capacity: nat, s: State, step: Step)
    requires Agreement(s) && Removing(s) && Enabled(s, step) && !Overlaps(s, step)
    ensures Agreement(Apply(capacity, s, step)) && Removing(Apply(capacity, s, step))
  {
    var s', t := Apply(capacity, s, step), step.t;
    if step.Advance? {
      WithoutElems(s.lru, s.ops[t].key);
      if s.ops[t].InsertPop? && s.lru.Cons? { LastElem(s.lru); WithoutElems(s.lru, Last(s.lru).value); }
    }
    forall k | k in s'.entries && k !in Elems(s'.lru) ensures Held(s', k) {
      if t in s'.ops && Holds(s'.ops[t], k) {
      } else {
        assert k in s.entries && k !in Elems(s.lru);
        HeldElsewhere(s, s', t, k);
      }
    }
  }

  lemma QuietState(s: State)
    requires Agreement(s)
    ensures s.ops == map[] ==> s.entries.Keys <= Elems(s.lru)
  {
    if s.ops == map[] {
      forall k | k in s.entries ensures k in Elems(s.lru) { assert !Held(s, k); }
    }
  }

  /** In every run in which no insert writes a key during a remove of that key, a key in the map but
      not in the LRU is always held by an inserter or an evictor in flight; so in a quiet state the map
      holds only evictable keys. */
  lemma {:induction false} MapKeysAreTracked(capacity: nat, tr: Trace)
    requires Run(capacity, tr) && NoOverlap(capacity, tr)
    ensures Agreement(After(capacity, tr)) && Removing(After(capacity, tr))
    ensures After(capacity, tr).ops == map[] ==> After(capacity, tr).entries.Keys <= Elems(After(capacity, tr).lru)
  {
    if tr.Then? {
      MapKeysAreTracked(capacity, tr.past);
      StepAgrees(capacity, After(capacity, tr.past), tr.step);
    }
    QuietState(After(capacity, tr));
  }

  ghost predicate RemoveFree(tr: Trace) {
    tr.Then? ==> !tr.step.BeginRemove? && RemoveFree(tr.past)
  }

  /** Runs without removes have no overlap at all. */
  lemma {:induction false} RemoveFreeRuns(capacity: nat, tr: Trace)
    requires Run(capacity, tr) && RemoveFree(tr)
    ensures NoOverlap(capacity, tr)
    ensures forall t :: t in After(capacity, tr).ops ==> !After(capacity, tr).ops[t].RemoveLru?
  {
    hide Elems, Without, Touch, Last;
    if tr.Then? { RemoveFreeRuns(capacity, tr.past); }
  }

  // ---- stranded keys -----------------------------------------------------------------------

  /** In the map, unknown to the LRU, and no call in flight is about to change either. */
  ghost predicate Stranded(s: State, k: Key) {
    k in s.entries && k !in Elems(s.lru) && !Held(s, k)
  }

  ghost function StrandedKeys(s: State): set<Key> {
    set k | k in s.entries && Stranded(s, k)
  }

  // ---- the size bound ----------------------------------------------------------------------

  /** The key a call may have in the map outside the LRU, or is about to write. */
  function Claim(op: Op): Option<Key> {
    match op
    case InsertUnmap(_, _, _, v) => Some(v)
    case InsertWrite(k, _, _) => Some(k)
    case InsertTouch(k, _, _) => Some(k)
    case _ => None
  }

  ghost function ClaimMap(ops: map<Tid, Op>): map<Tid, Key> {
    map t | t in ops && Claim(ops[t]).Some? :: Claim(ops[t]).value
  }

  ghost function Claims(ops: map<Tid, Op>): set<Key> {
    ClaimMap(ops).Values
  }

  lemma Pick<T>(s: set<T>) returns (x: T)
    requires s != {}
    ensures x in s
  {
    x :| x in s;
  }

  lemma {:induction false} ValuesBound(m: map<int, int>)
    ensures |m.Values| <= |m.Keys|
    decreases |m.Keys|
  {
    if m.Keys != {} {
      var t := Pick(m.Keys);
      var rest := m - {t};
      assert rest.Keys == m.Keys - {t};
      ValuesBound(rest);
      assert m.Values == rest.Values + {m[t]};
    }
  }

  lemma ClaimsBound(s: State)
    ensures |Claims(s.ops)| <= |Inserters(s)|
  {
    ValuesBound(ClaimMap(s.ops));
    forall t | t in ClaimMap(s.ops).Keys ensures t in Inserters(s) { assert Inserting(s.ops[t]); }
    SubsetCard(ClaimMap(s.ops).Keys, Inserters(s));
  }

  /** Keys past the capacity check, about to be written. */
  ghost function Pending(s: State): set<Key> {
    set t | t in s.ops && s.ops[t].InsertWrite? :: s.ops[t].key
  }

  ghost predicate Bounded(s: State, limit: nat) {
    |s.entries.Keys + Pending(s)| <= limit
  }

  lemma SubsetCard(a: set<Key>, b: set<Key>)
    requires a <= b
    ensures |a| <= |b|
  {
    assert b == a + (b - a);
  }

  /** The next step of `t` takes an insert of a new key past the capacity check. */
  predicate Passes(capacity: nat, s: State, t: Tid) {
    t in s.ops && ((s.ops[t].InsertLen? && |s.entries| < capacity) || (s.ops[t].InsertPop? && s.lru.Nil?))
  }

  /** The step that lets an insert past the capacity check, by room or by an empty LRU. */
  lemma PassBounded(capacity: nat, s: State, t: Tid, n: nat)
    requires capacity >= 1 && t in s.ops
    requires Passes(capacity, s, t)
    requires |Inserters(Progress(capacity, s, t))| <= n
    ensures Bounded(Progress(capacity, s, t), capacity - 1 + n + |StrandedKeys(s)|)
  {
    var s' := Progress(capacity, s, t);
    ClaimsBound(s');
    PendingClaimed(s');
    if s.ops[t].InsertLen? {
      assert |s.entries.Keys| == |s.entries|;
      UnionCard(s'.entries.Keys, Pending(s'));
    } else {
      EntriesClaimed(capacity, s, t);
      SubsetCard(s'.entries.Keys + Pending(s'), Claims(s'.ops) + StrandedKeys(s));
      UnionCard(Claims(s'.ops), StrandedKeys(s));
    }
  }

  lemma PendingClaimed(s: State)
    ensures Pending(s) <= Claims(s.ops) && |Pending(s)| <= |Claims(s.ops)|
  {
    forall u | u in s.ops && s.ops[u].InsertWrite? ensures s.ops[u].key in Claims(s.ops) {
      assert u in ClaimMap(s.ops);
    }
    SubsetCard(Pending(s), Claims(s.ops));
  }

  /** With the LRU empty every key of the map is claimed by a call in flight or stranded. */
  lemma EntriesClaimed(capacity: nat, s: State, t: Tid)
    requires t in s.ops && s.ops[t].InsertPop? && s.lru.Nil?
    ensures s.entries.Keys <= Claims(Progress(capacity, s, t).ops) + StrandedKeys(s)
  {
    var s' := Progress(capacity, s, t);
    forall k | k in s.entries ensures k in Claims(s'.ops) + StrandedKeys(s) {
      if Held(s, k) {
        var u :| u in s.ops && Holds(s.ops[u], k);
        assert u in ClaimMap(s'.ops);
      }
    }
  }

  lemma UnionCard(a: set<Key>, b: set<Key>)
    ensures |a + b| <= |a| + |b|
  {
  }

  /** No other step adds to the keys that are in the map or past the check. */
  lemma NothingNew(capacity: nat, s: State, step: Step, k: Key)
    requires Enabled(s, step) && !(step.Advance? && Passes(capacity, s, step.t))
    requires k in Apply(capacity, s, step).entries.Keys + Pending(Apply(capacity, s, step))
    ensures k in s.entries.Keys + Pending(s)
  {
    var s' := Apply(capacity, s, step);
    if k in Pending(s') {
      var u :| u in s'.ops && s'.ops[u].InsertWrite? && s'.ops[u].key == k;
      if s.lru.Cons? { LastElem(s.lru); }
      if u != step.t {
        assert u in s.ops && s.ops[u].InsertWrite?;
      }
    } else if k !in s.entries {
      assert step.t in s.ops && s.ops[step.t].InsertWrite? && s.ops[step.t].key == k;
    }
  }

  lemma StepBounded(capacity: nat, s: State, step: Step, n: nat, z: nat)
    requires capacity >= 1 && Enabled(s, step) && |StrandedKeys(s)| <= z
    requires Bounded(s, capacity - 1 + n + z) && |Inserters(Apply(capacity, s, step))| <= n
    ensures Bounded(Apply(capacity, s, step), capacity - 1 + n + z)
  {
    var s' := Apply(capacity, s, step);
    if step.Advance? && Passes(capacity, s, step.t) {
      PassBounded(capacity, s, step.t, n);
    } else {
      forall k | k in s'.entries.Keys + Pending(s') ensures k in s.entries.Keys + Pending(s) {
        NothingNew(capacity, s, step, k);
      }
      SubsetCard(s'.entries.Keys + Pending(s'), s.entries.Keys + Pending(s));
    }
  }

  /** The most keys stranded at once so far. */
  ghost function MostStranded(capacity: nat, tr: Trace): nat
    requires Run(capacity, tr)
  {
    var z := |StrandedKeys(After(capacity, tr))|;
    if tr.Start? || MostStranded(capacity, tr.past) <= z then z else MostStranded(capacity, tr.past)
  }

  /** In every run whatsoever, with at most `n` inserts in flight at any time, the index holds at most
      `capacity - 1 + n` entries and one more for every key of the largest number stranded at once, even
      when an insert leaves the eviction loop with nothing evicted. */
  lemma {:induction false} SizeBoundAlways(capacity: nat, tr: Trace, n: nat)
    requires capacity >= 1 && Run(capacity, tr) && AtMost(capacity, tr, n)
    ensures Bounded(After(capacity, tr), capacity - 1 + n + MostStranded(capacity, tr))
    ensures |After(capacity, tr).entries| <= capacity - 1 + n + MostStranded(capacity, tr)
  {
    if tr.Then? {
      SizeBoundAlways(capacity, tr.past, n);
      StepBounded(capacity, After(capacity, tr.past), tr.step, n, MostStranded(capacity, tr.past));
    } else {
      assert Pending(INITIAL) == {};
    }
    var s := After(capacity, tr);
    SubsetCard(s.entries.Keys, s.entries.Keys + Pending(s));
    assert |s.entries.Keys| == |s.entries|;
  }

  lemma {:induction false} NoneStranded(capacity: nat, tr: Trace)
    requires Run(capacity, tr) && NoOverlap(capacity, tr)
    ensures MostStranded(capacity, tr) == 0
  {
    MapKeysAreTracked(capacity, tr);
    assert StrandedKeys(After(capacity, tr)) == {};
    if tr.Then? { NoneStranded(capacity, tr.past); }
  }

  /** If no insert writes a key during a remove of that key, the bound is `capacity - 1 + n`. */
  lemma SizeBound(capacity: nat, tr: Trace, n: nat)
    requires capacity >= 1 && Run(capacity, tr) && NoOverlap(capacity, tr) && AtMost(capacity, tr, n)
    ensures Bounded(After(capacity, tr), capacity - 1 + n)
    ensures |After(capacity, tr).entries| <= capacity - 1 + n
  {
    NoneStranded(capacity, tr);
    SizeBoundAlways(capacity, tr, n);
  }

  // ---- what an overlap can do --------------------------------------------------------------

  ghost predicate Reaches(capacity: nat, n: nat, tr: Trace, s: State) {
    Run(capacity, tr) && AtMost(capacity, tr, n) && After(capacity, tr) == s
  }

  lemma StepTo(capacity: nat, n: nat, tr: Trace, s: State, step: Step, s': State) returns (tr': Trace)
    requires Reaches(capacity, n, tr, s) && Enabled(s, step)
    requires Apply(capacity, s, step) == s' && |Inserters(s')| <= n
    ensures Reaches(capacity, n, tr', s')
  {
    tr' := Then(tr, step);
  }

  /** A whole insert by thread 0, alone among inserts, of a new key: with room, or with nothing in
      the LRU to evict. */
  lemma InsertAlone(capacity: nat, tr: Trace, s: State, k: Key, e: Location) returns (tr': Trace)
    requires Reaches(capacity, 1, tr, s) && k !in s.entries
    requires 0 !in s.ops && Inserters(s) == {} && forall t :: t in s.ops ==> !s.ops[t].LookupTouch?
    requires |s.entries| < capacity || s.lru.Nil?
    ensures Reaches(capacity, 1, tr', State(s.entries[k := e], Touch(s.lru, k), s.ops))
  {
    assert Inserters(At(s, InsertCheck(k, e))) == {0};
    tr' := StepTo(capacity, 1, tr, s, BeginInsert(0, k, e), At(s, InsertCheck(k, e)));
    tr' := Move(capacity, tr', s, InsertCheck(k, e), InsertLen(k, e, 0));
    if |s.entries| < capacity {
      tr' := Move(capacity, tr', s, InsertLen(k, e, 0), InsertWrite(k, e, 0));
    } else {
      tr' := Move(capacity, tr', s, InsertLen(k, e, 0), InsertPop(k, e, 0));
      tr' := Move(capacity, tr', s, InsertPop(k, e, 0), InsertWrite(k, e, 0));
    }
    tr' := WriteAlone(capacity, tr', s, k, e);
  }

  /** `s` with thread 0 about to do `op`. */
  ghost function At(s: State, op: Op): State {
    State(s.entries, s.lru, s.ops[0 := op])
  }

  lemma Move(capacity: nat, tr: Trace, s: State, op: Op, op': Op) returns (tr': Trace)
    requires Reaches(capacity, 1, tr, At(s, op)) && Inserters(s) == {}
    requires !op.InsertUnmap? && !op.InsertWrite? && Inserting(op')
    requires Progress(capacity, At(s, op), 0) == At(s, op).(ops := At(s, op).ops[0 := op'])
    ensures Reaches(capacity, 1, tr', At(s, op'))
  {
    assert At(s, op).ops[0 := op'] == s.ops[0 := op'];
    assert Inserters(At(s, op')) == {0};
    tr' := StepTo(capacity, 1, tr, At(s, op), Advance(0), At(s, op'));
  }

  lemma WriteAlone(capacity: nat, tr: Trace, s: State, k: Key, e: Location) returns (tr': Trace)
    requires Reaches(capacity, 1, tr, At(s, InsertWrite(k, e, 0)))
    requires 0 !in s.ops && Inserters(s) == {} && forall t :: t in s.ops ==> !s.ops[t].LookupTouch?
    ensures Reaches(capacity, 1, tr', State(s.entries[k := e], Touch(s.lru, k), s.ops))
  {
    var w := At(s, InsertWrite(k, e, 0));
    var d := State(s.entries[k := e], s.lru, s.ops[0 := InsertTouch(k, e, 0)]);
    assert Inserters(d) == {0};
    assert w.ops[0 := InsertTouch(k, e, 0)] == d.ops;
    tr' := StepTo(capacity, 1, tr, w, Advance(0), d);
    var f := State(s.entries[k := e], Touch(s.lru, k), s.ops);
    assert d.ops - {0} == s.ops && Inserters(f) == Inserters(s);
    tr' := StepTo(capacity, 1, tr', d, Advance(0), f);
  }

  /** Without the side condition both results fail: one insert of a key during a remove of it leaves,
      with nothing in flight and never more than one insert at a time, two entries in an index of
      capacity 1, one of them stranded. */
  lemma OverlapStrands(e: Location) returns (tr: Trace)
    ensures Run(1, tr) && AtMost(1, tr, 1) && After(1, tr).ops == map[]
    ensures Stranded(After(1, tr), 1)
    ensures |After(1, tr).entries| == 2
  {
    assert Inserters(INITIAL) == {};
    tr := InsertAlone(1, Start, INITIAL, 1, e);
    var s1 := State(map[1 := e], Touch(Nil, 1), map[]);
    var s2 := State(map[], Touch(Nil, 1), map[9 := RemoveLru(1, e)]);
    assert Apply(1, s1, BeginRemove(9, 1)) == s2 && Inserters(s2) == {};
    tr := StepTo(1, 1, tr, s1, BeginRemove(9, 1), s2);
    tr := InsertAlone(1, tr, s2, 1, e);
    var s3 := State(map[1 := e], Touch(Touch(Nil, 1), 1), map[9 := RemoveLru(1, e)]);
    var s4 := State(map[1 := e], Nil, map[]);
    assert Apply(1, s3, Advance(9)) == s4 && Inserters(s4) == {};
    tr := StepTo(1, 1, tr, s3, Advance(9), s4);
    tr := InsertAlone(1, tr, s4, 2, e);
  }
}
