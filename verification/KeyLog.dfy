/**
 What happens to one key of the concurrent index: every run leaves a log of the writes, touches,
 evictions and removes of the key, and the log alone decides whether the key is in the map, whether
 the LRU tracks it, and which calls are about to change that.
 */
module KeyLog {
  import opened Bytes
  import opened Lists
  import opened IndexModel
  import opened IndexProtocol
  import opened Traces

  datatype KeyEvent =
    | Wrote(t: Tid, entry: Location)  // map.insert
    | Touched(t: Tid)                 // lru.touch, by a lookup or an insert
    | Popped(t: Tid)                  // lru.evict_lru returned the key
    | Unmapped(t: Tid)                // map.remove of a victim
    | Removed(t: Tid)                 // map.remove, first half of a remove
    | Untracked(t: Tid)               // lru.remove, second half of a remove

  datatype Log = Nothing | Note(past: Log, event: KeyEvent)

  ghost function EventOn(s: State, step: Step, k: Key): Option<KeyEvent> {
    match step
    case BeginRemove(t, l) => if l == k && k in s.entries then Some(Removed(t)) else None
    case Advance(t) =>
      if t !in s.ops then None
      else
        (match s.ops[t]
         case LookupTouch(l, _) => if l == k then Some(Touched(t)) else None
         case InsertPop(_, _, _) => if Last(s.lru) == Some(k) then Some(Popped(t)) else None
         case InsertUnmap(_, _, _, v) => if v == k then Some(Unmapped(t)) else None
         case InsertWrite(l, e, _) => if l == k then Some(Wrote(t, e)) else None
         case InsertTouch(l, _, _) => if l == k then Some(Touched(t)) else None
         case RemoveLru(l, _) => if l == k then Some(Untracked(t)) else None
         case _ => None)
    case _ => None
  }

  /** The events on `k` after `base`, latest outermost. */
  ghost function Since(capacity: nat, tr: Trace, base: Trace, k: Key): Log
    requires Run(capacity, tr) && Extends(tr, base)
  {
    if tr == base then Nothing
    else
      var past := Since(capacity, tr.past, base, k);
      match EventOn(After(capacity, tr.past), tr.step, k)
      case None => past
      case Some(e) => Note(past, e)
  }

  /** The key's entry, whether the LRU tracks it, and the calls between two halves that concern it: the
      writers that have not touched it yet and the evictors that have not unmapped it yet. */
  datatype KeyState = KeyState(entry: Option<Location>, tracked: bool, holders: set<Tid>)

  ghost function StateOf(s: State, k: Key): KeyState {
    KeyState(if k in s.entries then Some(s.entries[k]) else None, k in Elems(s.lru), HoldersOf(s.ops, k))
  }

  ghost function HoldersOf(ops: map<Tid, Op>, k: Key): set<Tid> {
    set t | t in ops && Holds(ops[t], k)
  }

  function NextEntry(entry: Option<Location>, e: KeyEvent): Option<Location> {
    match e
    case Wrote(_, v) => Some(v)
    case Unmapped(_) => None
    case Removed(_) => None
    case _ => entry
  }

  function NextTracked(tracked: bool, e: KeyEvent): bool {
    e.Touched? || (tracked && !e.Popped? && !e.Untracked?)
  }

  function NextHolders(holders: set<Tid>, e: KeyEvent): set<Tid> {
    if e.Wrote? || e.Popped? then holders + {e.t}
    else if e.Touched? || e.Unmapped? then holders - {e.t}
    else holders
  }

  function Next(z: KeyState, e: KeyEvent): KeyState {
    KeyState(NextEntry(z.entry, e), NextTracked(z.tracked, e), NextHolders(z.holders, e))
  }

  function Replayed(z: KeyState, log: Log): KeyState {
    match log
    case Nothing => z
    case Note(past, e) => Next(Replayed(z, past), e)
  }

  // ---- the log tells all -------------------------------------------------------------------

  lemma EntryStep(capacity: nat, s: State, step: Step, k: Key)
    requires Enabled(s, step)
    ensures var s', e := Apply(capacity, s, step), EventOn(s, step, k);
            StateOf(s', k).entry == if e.None? then StateOf(s, k).entry else NextEntry(StateOf(s, k).entry, e.value)
  {
    hide Elems, HoldersOf, Without;
  }

  lemma TrackedStep(capacity: nat, s: State, step: Step, k: Key)
    requires Enabled(s, step)
    ensures var s', e := Apply(capacity, s, step), EventOn(s, step, k);
            k in Elems(s'.lru) <==> if e.None? then k in Elems(s.lru) else NextTracked(k in Elems(s.lru), e.value)
  {
    hide Elems, Without, Touch;
    if step.Advance? {
      WithoutElems(s.lru, s.ops[step.t].key);
      TouchElems(s.lru, s.ops[step.t].key);
      LastElem(s.lru);
      if s.ops[step.t].InsertPop? && s.lru.Cons? { WithoutElems(s.lru, Last(s.lru).value); }
    }
  }

  lemma HolderStep(capacity: nat, s: State, step: Step, k: Key, u: Tid)
    requires Enabled(s, step)
    ensures var s', e := Apply(capacity, s, step), EventOn(s, step, k);
            var was := u in s.ops && Holds(s.ops[u], k);
            (u in s'.ops && Holds(s'.ops[u], k)) <==>
            if e.None? || e.value.t != u then was
            else e.value.Wrote? || e.value.Popped? || (was && !e.value.Touched? && !e.value.Unmapped?)
  {
    if step.Advance? && step.t == u { OwnStep(capacity, s, u, k); }
  }

  lemma OwnStep(capacity: nat, s: State, u: Tid, k: Key)
    requires u in s.ops
    ensures var ops', e := Progress(capacity, s, u).ops, EventOn(s, Advance(u), k);
            (u in ops' && Holds(ops'[u], k)) <==>
            e.Some? && (e.value.Wrote? || e.value.Popped? ||
                        (Holds(s.ops[u], k) && !e.value.Touched? && !e.value.Unmapped?))
  {
    hide Elems, Without, Last;
    match s.ops[u]
    case InsertPop(_, _, _) =>
    case InsertWrite(_, _, _) =>
    case _ =>
  }

  lemma HoldersStep(capacity: nat, s: State, step: Step, k: Key)
    requires Enabled(s, step)
    ensures var h, e := HoldersOf(s.ops, k), EventOn(s, step, k);
            HoldersOf(Apply(capacity, s, step).ops, k) == if e.None? then h else NextHolders(h, e.value)
  {
    hide Apply, EventOn, Holds;
    var h, e := HoldersOf(s.ops, k), EventOn(s, step, k);
    var h' := if e.None? then h else NextHolders(h, e.value);
    forall u ensures u in HoldersOf(Apply(capacity, s, step).ops, k) <==> u in h' {
      HolderStep(capacity, s, step, k, u);
    }
  }

  /** One step, seen from one key. */
  lemma KeyStep(capacity: nat, s: State, step: Step, k: Key)
    requires Enabled(s, step)
    ensures var z, e := StateOf(s, k), EventOn(s, step, k);
            StateOf(Apply(capacity, s, step), k) == if e.None? then z else Next(z, e.value)
  {
    hide Apply, EventOn, HoldersOf, Enabled, NextEntry, NextTracked, NextHolders, Elems;
    EntryStep(capacity, s, step, k);
    TrackedStep(capacity, s, step, k);
    HoldersStep(capacity, s, step, k);
  }

  /** In every run the state of a key is its state at any earlier point and the log since. */
  lemma {:induction false} LogTells(capacity: nat, tr: Trace, base: Trace, k: Key)
    requires Run(capacity, tr) && Extends(tr, base) && Run(capacity, base)
    ensures StateOf(After(capacity, tr), k) ==
            Replayed(StateOf(After(capacity, base), k), Since(capacity, tr, base, k))
  {
    if tr != base {
      LogTells(capacity, tr.past, base, k);
      KeyStep(capacity, After(capacity, tr.past), tr.step, k);
    }
  }

  // ---- reading a log -----------------------------------------------------------------------

  /** The latest of the writes and the removals from the map is a write; `was` if there is none. */
  predicate InMap(log: Log, was: bool) {
    match log
    case Nothing => was
    case Note(past, e) => e.Wrote? || (InMap(past, was) && !e.Unmapped? && !e.Removed?)
  }

  /** The latest of the touches and the removals from the LRU is a touch; `was` if there is none. */
  predicate Tracked(log: Log, was: bool) {
    match log
    case Nothing => was
    case Note(past, e) => e.Touched? || (Tracked(past, was) && !e.Popped? && !e.Untracked?)
  }

  /** The calls that have written the key and not touched it yet, or popped it and not unmapped it yet. */
  function Open(log: Log, was: set<Tid>): set<Tid> {
    match log
    case Nothing => was
    case Note(past, e) => NextHolders(Open(past, was), e)
  }

  /** The entry of the latest write. */
  function LastWritten(log: Log): Option<Location> {
    match log
    case Nothing => None
    case Note(past, e) => if e.Wrote? then Some(e.entry) else LastWritten(past)
  }

  lemma {:induction false} ReplayReads(z: KeyState, log: Log)
    ensures var y := Replayed(z, log);
            && (y.entry.Some? <==> InMap(log, z.entry.Some?))
            && y.tracked == Tracked(log, z.tracked) && y.holders == Open(log, z.holders)
            && (InMap(log, false) ==> y.entry == LastWritten(log) && y.entry.Some?)
            && (y.entry.Some? && !InMap(log, false) ==> y.entry == z.entry)
  {
    if log.Note? { ReplayReads(z, log.past); }
  }

  lemma StrandedState(s: State, k: Key)
    ensures Stranded(s, k) <==> var z := StateOf(s, k); z.entry.Some? && !z.tracked && z.holders == {}
    ensures Held(s, k) <==> StateOf(s, k).holders != {}
  {
    if Held(s, k) {
      var t :| t in s.ops && Holds(s.ops[t], k);
      assert t in HoldersOf(s.ops, k);
    } else {
      forall u ensures u !in HoldersOf(s.ops, k) { assert u in s.ops ==> !Holds(s.ops[u], k); }
    }
  }

  lemma {:induction false} FromStart(tr: Trace)
    ensures Extends(tr, Start)
  {
    if tr.Then? { FromStart(tr.past); }
  }

  /** The key's log of the whole run. */
  ghost function Whole(capacity: nat, tr: Trace, k: Key): Log
    requires Run(capacity, tr)
  {
    FromStart(tr);
    Since(capacity, tr, Start, k)
  }

  lemma WholeTells(capacity: nat, tr: Trace, k: Key)
    requires Run(capacity, tr)
    ensures var z, log := StateOf(After(capacity, tr), k), Whole(capacity, tr, k);
            && (z.entry.Some? <==> InMap(log, false)) && (z.tracked <==> Tracked(log, false))
            && z.holders == Open(log, {}) && (z.entry.Some? ==> z.entry == LastWritten(log))
  {
    FromStart(tr);
    LogTells(capacity, tr, Start, k);
    assert StateOf(After(capacity, Start), k) == KeyState(None, false, {});
    ReplayReads(KeyState(None, false, {}), Whole(capacity, tr, k));
  }

  // ---- stranded keys -----------------------------------------------------------------------

  /** Exactly when a key is stranded, for every run: its last write stands, its last touch does not, and
      every call that wrote or popped it has done its other half. */
  lemma StrandedByLog(capacity: nat, tr: Trace, k: Key)
    requires Run(capacity, tr)
    ensures var log := Whole(capacity, tr, k);
            Stranded(After(capacity, tr), k) <==> InMap(log, false) && !Tracked(log, false) && Open(log, {}) == {}
  {
    WholeTells(capacity, tr, k);
    StrandedState(After(capacity, tr), k);
  }

  /** Exactly when a remove strands its key, by what happened to the key since its first half: it has
      been written and not taken out of the map again, every call that wrote it has touched it, and
      every call that popped it has unmapped it. */
  lemma RemoveStrands(capacity: nat, tr: Trace, base: Trace, t: Tid, k: Key)
    requires Run(capacity, base) && Enabled(After(capacity, base), BeginRemove(t, k))
    requires k in After(capacity, base).entries
    requires Run(capacity, tr) && Extends(tr, Then(base, BeginRemove(t, k)))
    requires t in After(capacity, tr).ops
    requires After(capacity, tr).ops[t].RemoveLru? && After(capacity, tr).ops[t].key == k
    ensures var log := Since(capacity, tr, Then(base, BeginRemove(t, k)), k);
            Stranded(After(capacity, Then(tr, Advance(t))), k) <==>
            InMap(log, false) && Open(log, HoldersOf(After(capacity, base).ops, k)) == {}
  {
    var first := Then(base, BeginRemove(t, k));
    KeyStep(capacity, After(capacity, base), BeginRemove(t, k), k);
    LogTells(capacity, tr, first, k);
    ReplayReads(StateOf(After(capacity, first), k), Since(capacity, tr, first, k));
    KeyStep(capacity, After(capacity, tr), Advance(t), k);
    StrandedState(After(capacity, Then(tr, Advance(t))), k);
  }

  /** Only the second half of a remove strands a key. Only a lookup, a store or a remove of the key ends
      it, so eviction never reaches it; the lookup and the store bring it back into the LRU. */
  lemma StrandedExactly(capacity: nat, s: State, step: Step, k: Key)
    requires Enabled(s, step)
    ensures var e := EventOn(s, step, k);
            Stranded(Apply(capacity, s, step), k) <==>
            if Stranded(s, k) then e.None? || e.value.Untracked?
            else e.Some? && e.value.Untracked? && k in s.entries && !Held(s, k)
    ensures Stranded(s, k) && EventOn(s, step, k).Some? ==>
            var e := EventOn(s, step, k).value; e.Touched? || e.Wrote? || e.Removed? || e.Untracked?
  {
    hide Progress, HoldersOf, Elems;
    KeyStep(capacity, s, step, k);
    StrandedState(s, k);
    StrandedState(Apply(capacity, s, step), k);
    if EventOn(s, step, k).Some? { StrandedEvents(s, step, k); }
  }

  /** A stranded key is nobody's victim. */
  lemma StrandedEvents(s: State, step: Step, k: Key)
    requires Enabled(s, step) && EventOn(s, step, k).Some?
    ensures var e := EventOn(s, step, k).value; (e.Popped? ==> k in Elems(s.lru)) && (e.Unmapped? ==> Held(s, k))
  {
    LastElem(s.lru);
  }

  // ---- keys of the LRU outside the map -----------------------------------------------------

  ghost predicate Outside(s: State, k: Key) {
    k in Elems(s.lru) && k !in s.entries
  }

  /** Which keys the LRU holds outside the map, for every run: those touched since they were last popped or
      removed from it, and unmapped or removed since they were last written. */
  lemma OutsideByLog(capacity: nat, tr: Trace, k: Key)
    requires Run(capacity, tr)
    ensures var log := Whole(capacity, tr, k);
            Outside(After(capacity, tr), k) <==> Tracked(log, false) && !InMap(log, false)
  {
    WholeTells(capacity, tr, k);
  }

  /** A key gets there when it leaves the map while the LRU tracks it (an evictor unmaps a key touched again
      since its pop, or a remove is between its halves) or when an insert touches a key that left the map
      since its write; it stays until it is popped, untracked or written. */
  lemma OutsideExactly(capacity: nat, s: State, step: Step, k: Key)
    requires Enabled(s, step)
    ensures var e := EventOn(s, step, k);
            Outside(Apply(capacity, s, step), k) <==>
            if e.None? then Outside(s, k)
            else match e.value
              case Unmapped(_) => k in Elems(s.lru)
              case Removed(_) => k in Elems(s.lru)
              case Touched(_) => k !in s.entries
              case _ => false
  {
    hide Progress, HoldersOf, Elems;
    KeyStep(capacity, s, step, k);
  }

  /** An evictor that popped `k` and comes to unmap it drops whatever entry `k` has by then. If `k` was
      written since the pop, and not taken out again, that is the entry of the latest such store;
      otherwise it is the entry `k` had when it was popped, if any. */
  lemma EvictsLatestStore(capacity: nat, tr: Trace, base: Trace, t: Tid, k: Key)
    requires Run(capacity, base) && Enabled(After(capacity, base), Advance(t))
    requires EventOn(After(capacity, base), Advance(t), k) == Some(Popped(t))
    requires Run(capacity, tr) && Extends(tr, Then(base, Advance(t))) && Enabled(After(capacity, tr), Advance(t))
    requires EventOn(After(capacity, tr), Advance(t), k) == Some(Unmapped(t))
    ensures var log := Since(capacity, tr, Then(base, Advance(t)), k);
            var z := StateOf(After(capacity, tr), k);
            && StateOf(After(capacity, Then(tr, Advance(t))), k).entry == None
            && (InMap(log, false) ==> z.entry == LastWritten(log) && z.entry.Some?)
            && (!InMap(log, false) && z.entry.Some? ==> z.entry == StateOf(After(capacity, base), k).entry)
  {
    hide Progress, StateOf, EventOn;
    var popped := Then(base, Advance(t));
    KeyStep(capacity, After(capacity, base), Advance(t), k);
    KeyStep(capacity, After(capacity, tr), Advance(t), k);
    LogTells(capacity, tr, popped, k);
    ReplayReads(StateOf(After(capacity, popped), k), Since(capacity, tr, popped, k));
  }

  // ---- a store that is evicted as soon as it is made ---------------------------------------

  /** A run without removes on an index of capacity 1 that ends in `s`. */
  ghost predicate Arrives(tr: Trace, s: State) {
    Run(1, tr) && RemoveFree(tr) && After(1, tr) == s
  }

  lemma To(tr: Trace, s: State, step: Step, s': State) returns (tr': Trace)
    requires Arrives(tr, s) && Enabled(s, step) && !step.BeginRemove? && Apply(1, s, step) == s'
    ensures Arrives(tr', s') && tr' == Then(tr, step)
  {
    tr' := Then(tr, step);
  }

  /** Thread `t` starts an insert of `k` beside the calls in `ops`. */
  lemma StartsInsert(tr: Trace, m: map<Key, Location>, l: List<int>, ops: map<Tid, Op>, t: Tid, k: Key, e: Location)
    returns (tr': Trace)
    requires Arrives(tr, State(m, l, ops)) && t !in ops
    ensures Arrives(tr', State(m, l, ops[t := if k in m then InsertWrite(k, e, 0) else InsertLen(k, e, 0)]))
  {
    var a, b := ops[t := InsertCheck(k, e)], if k in m then InsertWrite(k, e, 0) else InsertLen(k, e, 0);
    tr' := To(tr, State(m, l, ops), BeginInsert(t, k, e), State(m, l, a));
    assert a[t := b] == ops[t := b];
    tr' := To(tr', State(m, l, a), Advance(t), State(m, l, ops[t := b]));
  }

  lemma Writes(tr: Trace, m: map<Key, Location>, l: List<int>, ops: map<Tid, Op>, t: Tid, k: Key, e: Location, n: nat)
    returns (tr': Trace)
    requires Arrives(tr, State(m, l, ops[t := InsertWrite(k, e, n)])) && t !in ops
    requires forall u :: u in ops ==> !ops[u].LookupTouch?
    ensures Arrives(tr', State(m[k := e], l, ops[t := InsertTouch(k, e, n)])) && tr' == Then(tr, Advance(t))
  {
    var a, b := ops[t := InsertWrite(k, e, n)], ops[t := InsertTouch(k, e, n)];
    assert a[t := InsertTouch(k, e, n)] == b;
    tr' := To(tr, State(m, l, a), Advance(t), State(m[k := e], l, b));
  }

  lemma Touches(tr: Trace, m: map<Key, Location>, l: List<int>, ops: map<Tid, Op>, t: Tid, k: Key, e: Location, n: nat)
    returns (tr': Trace)
    requires Arrives(tr, State(m, l, ops[t := InsertTouch(k, e, n)])) && t !in ops
    ensures Arrives(tr', State(m, Touch(l, k), ops)) && tr' == Then(tr, Advance(t))
  {
    var b := ops[t := InsertTouch(k, e, n)];
    assert b - {t} == ops;
    tr' := To(tr, State(m, l, b), Advance(t), State(m, Touch(l, k), ops));
  }

  /** Key 1 is stored. */
  lemma StoresOne(e: Location) returns (tr: Trace)
    ensures Arrives(tr, State(map[1 := e], Cons(1, Nil), map[]))
  {
    tr := StartsInsert(Start, map[], Nil, map[], 0, 1, e);
    var a, b := map[0 := InsertLen(1, e, 0)], map[0 := InsertWrite(1, e, 0)];
    tr := To(tr, State(map[], Nil, a), Advance(0), State(map[], Nil, b));
    tr := Writes(tr, map[], Nil, map[], 0, 1, e, 0);
    tr := Touches(tr, map[1 := e], Nil, map[], 0, 1, e, 0);
    assert Touch(Nil, 1) == Cons(1, Nil);
  }

  /** A store of key 2 pops key 1 and pauses. */
  lemma PopsOne(tr: Trace, e: Location) returns (tr': Trace)
    requires Arrives(tr, State(map[1 := e], Cons(1, Nil), map[]))
    ensures Arrives(tr', State(map[1 := e], Nil, map[0 := InsertUnmap(2, e, 0, 1)]))
  {
    var m, l := map[1 := e], Cons(1, Nil);
    tr' := StartsInsert(tr, m, l, map[], 0, 2, e);
    assert |m| == 1;
    tr' := To(tr', State(m, l, map[0 := InsertLen(2, e, 0)]), Advance(0), State(m, l, map[0 := InsertPop(2, e, 0)]));
    tr' := To(tr', State(m, l, map[0 := InsertPop(2, e, 0)]), Advance(0),
              State(m, Nil, map[0 := InsertUnmap(2, e, 0, 1)]));
  }

  /** Key 1 is stored again, by another thread, from start to end. */
  lemma StoresAgain(tr: Trace, e: Location, f: Location) returns (tr': Trace)
    requires Arrives(tr, State(map[1 := e], Nil, map[0 := InsertUnmap(2, e, 0, 1)]))
    ensures Arrives(tr', State(map[1 := f], Cons(1, Nil), map[0 := InsertUnmap(2, e, 0, 1)]))
  {
    var ops := map[0 := InsertUnmap(2, e, 0, 1)];
    tr' := StartsInsert(tr, map[1 := e], Nil, ops, 1, 1, f);
    tr' := Writes(tr', map[1 := e], Nil, ops, 1, 1, f, 0);
    assert map[1 := e][1 := f] == map[1 := f];
    tr' := Touches(tr', map[1 := f], Nil, ops, 1, 1, f, 0);
    assert Touch(Nil, 1) == Cons(1, Nil);
  }

  /** The store of key 2 goes on: it unmaps key 1 and stores its own. */
  lemma UnmapsOne(tr: Trace, e: Location, f: Location) returns (tr': Trace)
    requires Arrives(tr, State(map[1 := f], Cons(1, Nil), map[0 := InsertUnmap(2, e, 0, 1)]))
    ensures Arrives(tr', State(map[2 := e], Cons(2, Cons(1, Nil)), map[]))
    ensures tr' == Then(Then(Then(Then(tr, Advance(0)), Advance(0)), Advance(0)), Advance(0))
  {
    var l := Cons(1, Nil);
    assert map[1 := f] - {1} == map[];
    tr' := To(tr, State(map[1 := f], l, map[0 := InsertUnmap(2, e, 0, 1)]), Advance(0),
              State(map[], l, map[0 := InsertLen(2, e, 1)]));
    tr' := To(tr', State(map[], l, map[0 := InsertLen(2, e, 1)]), Advance(0),
              State(map[], l, map[0 := InsertWrite(2, e, 1)]));
    tr' := Writes(tr', map[], l, map[], 0, 2, e, 1);
    tr' := Touches(tr', map[2 := e], l, map[], 0, 2, e, 1);
    assert Touch(l, 2) == Cons(2, Cons(1, Nil));
  }

  /** A run without removes: a store of key 2 pops key 1; key 1 is stored again, and that store is over
      after `mid`; then its entry is unmapped. The run ends quiet with key 1 in the LRU and not in the map. */
  lemma FreshStoreIsEvicted(e: Location, f: Location) returns (mid: Trace, tr: Trace)
    ensures Run(1, mid) && After(1, mid).entries == map[1 := f] && 1 !in After(1, mid).ops
    ensures Run(1, tr) && RemoveFree(tr) && After(1, tr).ops == map[] && Outside(After(1, tr), 1)
    ensures tr == Then(Then(Then(Then(mid, Advance(0)), Advance(0)), Advance(0)), Advance(0))
  {
    mid := StoresOne(e);
    mid := PopsOne(mid, e);
    mid := StoresAgain(mid, e, f);
    tr := UnmapsOne(mid, e, f);
  }
}
