/**
 The concurrent index and the sequential one are the same code: a call that runs from start to end
 without interruption does in `IndexProtocol` exactly what `IndexModel` says.
 */
module IndexAlone {
  import opened Bytes
  import opened Lists
  import opened IndexModel
  import opened Traces
  import Ix = IndexProtocol

  /** The state of the index, without the calls in flight. */
  ghost function Bare(s: Ix.State): Index {
    Index(map k | k in s.entries :: IndexEntry([s.entries[k]], 0), s.lru)
  }

  /** An upper bound on the steps left to the call of `t` if nobody interferes. */
  function StepsLeft(s: Ix.State, t: Ix.Tid): nat {
    if t !in s.ops then 0
    else
      match s.ops[t]
      case InsertCheck(_, _) => 4 * Len(s.lru) + 7
      case InsertLen(_, _, _) => 4 * Len(s.lru) + 6
      case InsertPop(_, _, _) => 4 * Len(s.lru) + 5
      case InsertUnmap(_, _, _, _) => 4 * Len(s.lru) + 8
      case InsertWrite(_, _, _) => 2
      case _ => 1
  }

  lemma StepsFall(capacity: nat, s: Ix.State, t: Ix.Tid)
    requires t in s.ops
    ensures StepsLeft(Ix.Progress(capacity, s, t), t) < StepsLeft(s, t)
  {
    if s.ops[t].InsertPop? && s.lru.Cons? {
      LastElem(s.lru);
      WithoutShorter(s.lru, Last(s.lru).value);
    }
  }

  /** The call of `t`, run to its end. */
  ghost function Alone(capacity: nat, s: Ix.State, t: Ix.Tid): Ix.State
    decreases StepsLeft(s, t)
  {
    if t !in s.ops then s
    else
      StepsFall(capacity, s, t);
      Alone(capacity, Ix.Progress(capacity, s, t), t)
  }

  /** No other call holds a read guard. */
  ghost predicate Undisturbed(s: Ix.State, t: Ix.Tid) {
    forall u :: u in s.ops && u != t ==> !s.ops[u].LookupTouch?
  }

  /** Running a call to its end is one of the protocol's runs. */
  lemma {:induction false} AloneIsRun(capacity: nat, tr: Ix.Trace, t: Ix.Tid) returns (tr': Ix.Trace)
    requires Ix.Run(capacity, tr) && Undisturbed(Ix.After(capacity, tr), t)
    ensures Ix.Run(capacity, tr') && Ix.After(capacity, tr') == Alone(capacity, Ix.After(capacity, tr), t)
    decreases StepsLeft(Ix.After(capacity, tr), t)
  {
    var s := Ix.After(capacity, tr);
    tr' := tr;
    if t in s.ops {
      StepsFall(capacity, s, t);
      tr' := AloneIsRun(capacity, Then(tr, Ix.Advance(t)), t);
    }
  }

  lemma LookupAlone(capacity: nat, s: Ix.State, t: Ix.Tid, k: Key)
    requires t !in s.ops
    ensures var s' := Alone(capacity, Ix.Apply(capacity, s, Ix.BeginLookup(t, k)), t);
            Bare(s') == Lookup(Bare(s), k) && s'.ops == s.ops
  {
    if k in s.entries {
      var a := Ix.Apply(capacity, s, Ix.BeginLookup(t, k));
      var b := Ix.Progress(capacity, a, t);
      assert b.ops == s.ops && Alone(capacity, b, t) == b;
      assert Alone(capacity, a, t) == Alone(capacity, b, t);
    }
  }

  lemma RemoveAlone(capacity: nat, s: Ix.State, t: Ix.Tid, k: Key)
    requires t !in s.ops
    ensures var s' := Alone(capacity, Ix.Apply(capacity, s, Ix.BeginRemove(t, k)), t);
            Bare(s') == Remove(Bare(s), k) && s'.ops == s.ops
  {
    if k in s.entries {
      var a := Ix.Apply(capacity, s, Ix.BeginRemove(t, k));
      var b := Ix.Progress(capacity, a, t);
      assert b.ops == s.ops && Alone(capacity, b, t) == b;
      assert Alone(capacity, a, t) == Alone(capacity, b, t);
      assert Bare(b).entries == Bare(s).entries - {k};
    }
  }

  // ---- insert ------------------------------------------------------------------------------

  /** `s` with `t` about to do `op`. */
  ghost function At(s: Ix.State, t: Ix.Tid, op: Ix.Op): Ix.State {
    Ix.State(s.entries, s.lru, s.ops[t := op])
  }

  lemma MoveOn(capacity: nat, s: Ix.State, t: Ix.Tid, op: Ix.Op, op': Ix.Op)
    requires Ix.Progress(capacity, At(s, t, op), t) == At(s, t, op).(ops := At(s, t, op).ops[t := op'])
    ensures Alone(capacity, At(s, t, op), t) == Alone(capacity, At(s, t, op'), t)
  {
    assert s.ops[t := op][t := op'] == s.ops[t := op'];
  }

  ghost function Evict(s: Ix.State): Ix.State
    requires s.lru.Cons?
  {
    LastElem(s.lru);
    var v := Last(s.lru).value;
    Ix.State(s.entries - {v}, Without(s.lru, v), s.ops)
  }

  lemma EvictAlone(capacity: nat, s: Ix.State, t: Ix.Tid, k: Key, e: Location, n: nat)
    requires s.lru.Cons?
    ensures Alone(capacity, At(s, t, Ix.InsertPop(k, e, n)), t) ==
            Alone(capacity, At(Evict(s), t, Ix.InsertLen(k, e, n + 1)), t)
  {
    LastElem(s.lru);
    var v := Last(s.lru).value;
    var a := At(s, t, Ix.InsertPop(k, e, n));
    var b := Ix.State(s.entries, Without(s.lru, v), s.ops[t := Ix.InsertUnmap(k, e, n, v)]);
    assert a.ops[t := Ix.InsertUnmap(k, e, n, v)] == b.ops;
    assert Ix.Progress(capacity, a, t) == b;
    assert b.ops[t := Ix.InsertLen(k, e, n + 1)] == s.ops[t := Ix.InsertLen(k, e, n + 1)];
    assert Ix.Progress(capacity, b, t) == At(Evict(s), t, Ix.InsertLen(k, e, n + 1));
  }

  lemma BareSize(s: Ix.State)
    requires Agree(Bare(s))
    ensures |s.entries| == Len(s.lru)
  {
    AgreeSize(Bare(s));
    assert Bare(s).entries.Keys == s.entries.Keys;
    assert |s.entries.Keys| == |s.entries| && |Bare(s).entries.Keys| == |Bare(s).entries|;
  }

  lemma BareEvict(s: Ix.State)
    requires Agree(Bare(s)) && s.lru.Cons?
    ensures Bare(Evict(s)) == DropLast(Bare(s)) && Agree(Bare(Evict(s)))
  {
    DropAgrees(Bare(s));
    assert Bare(Evict(s)).entries == DropLast(Bare(s)).entries;
  }

  /** The state once there is room. */
  ghost function Roomy(s: Ix.State, capacity: nat): Ix.State {
    Ix.State(s.entries - Elems(Victims(Bare(s), capacity)), MakeRoom(Bare(s), capacity).recency, s.ops)
  }

  lemma RoomyDone(s: Ix.State, capacity: nat)
    requires s.lru.Nil? || Len(s.lru) < capacity
    ensures Roomy(s, capacity) == s && Len(Victims(Bare(s), capacity)) == 0
  {
    assert s.entries - {} == s.entries;
  }

  lemma RoomyTurn(s: Ix.State, capacity: nat)
    requires Agree(Bare(s)) && s.lru.Cons? && Len(s.lru) >= capacity
    ensures Roomy(s, capacity) == Roomy(Evict(s), capacity)
    ensures Len(Victims(Bare(s), capacity)) == 1 + Len(Victims(Bare(Evict(s)), capacity))
  {
    BareEvict(s);
    LastElem(s.lru);
    var v, rest := Last(s.lru).value, Victims(DropLast(Bare(s)), capacity);
    assert Victims(Bare(s), capacity) == Cons(v, rest);
    assert (s.entries - {v}) - Elems(rest) == s.entries - Elems(Cons(v, rest));
  }

  /** From the length check to the write: how the eviction loop ends. */
  ghost predicate Leaves(capacity: nat, s: Ix.State, t: Ix.Tid, k: Key, e: Location, n: nat) {
    Alone(capacity, At(s, t, Ix.InsertLen(k, e, n)), t) ==
    Alone(capacity, At(Roomy(s, capacity), t, Ix.InsertWrite(k, e, n + Len(Victims(Bare(s), capacity)))), t)
  }

  lemma LeavesWithRoom(capacity: nat, s: Ix.State, t: Ix.Tid, k: Key, e: Location, n: nat)
    requires Agree(Bare(s)) && Len(s.lru) < capacity
    ensures Leaves(capacity, s, t, k, e, n)
  {
    hide Alone;
    BareSize(s);
    RoomyDone(s, capacity);
    MoveOn(capacity, s, t, Ix.InsertLen(k, e, n), Ix.InsertWrite(k, e, n));
  }

  lemma LeavesEmpty(capacity: nat, s: Ix.State, t: Ix.Tid, k: Key, e: Location, n: nat)
    requires Agree(Bare(s)) && s.lru.Nil? && capacity == 0
    ensures Leaves(capacity, s, t, k, e, n)
  {
    hide Alone;
    RoomyDone(s, capacity);
    MoveOn(capacity, s, t, Ix.InsertLen(k, e, n), Ix.InsertPop(k, e, n));
    MoveOn(capacity, s, t, Ix.InsertPop(k, e, n), Ix.InsertWrite(k, e, n));
  }

  lemma LeavesLater(capacity: nat, s: Ix.State, t: Ix.Tid, k: Key, e: Location, n: nat)
    requires Agree(Bare(s)) && s.lru.Cons? && Len(s.lru) >= capacity
    requires Leaves(capacity, Evict(s), t, k, e, n + 1)
    ensures Leaves(capacity, s, t, k, e, n)
  {
    hide Alone;
    BareSize(s);
    MoveOn(capacity, s, t, Ix.InsertLen(k, e, n), Ix.InsertPop(k, e, n));
    EvictAlone(capacity, s, t, k, e, n);
    RoomyTurn(s, capacity);
  }

  /** The eviction loop makes room as the sequential one does. */
  lemma {:induction false} LoopAlone(capacity: nat, s: Ix.State, t: Ix.Tid, k: Key, e: Location, n: nat)
    requires Agree(Bare(s))
    ensures Leaves(capacity, s, t, k, e, n)
    decreases Len(s.lru)
  {
    if Len(s.lru) < capacity {
      LeavesWithRoom(capacity, s, t, k, e, n);
    } else if s.lru.Nil? {
      LeavesEmpty(capacity, s, t, k, e, n);
    } else {
      BareEvict(s);
      DropAgrees(Bare(s));
      LoopAlone(capacity, Evict(s), t, k, e, n + 1);
      LeavesLater(capacity, s, t, k, e, n);
    }
  }

  lemma WriteAlone(capacity: nat, s: Ix.State, t: Ix.Tid, k: Key, e: Location, n: nat)
    requires t !in s.ops
    ensures Alone(capacity, At(s, t, Ix.InsertWrite(k, e, n)), t) == Ix.State(s.entries[k := e], Touch(s.lru, k), s.ops)
  {
    var a := At(s, t, Ix.InsertWrite(k, e, n));
    var b := At(s.(entries := s.entries[k := e]), t, Ix.InsertTouch(k, e, n));
    assert a.ops[t := Ix.InsertTouch(k, e, n)] == b.ops;
    assert Ix.Progress(capacity, a, t) == b;
    assert b.ops - {t} == s.ops;
    var c := Ix.State(s.entries[k := e], Touch(s.lru, k), s.ops);
    assert Ix.Progress(capacity, b, t) == c;
    assert Alone(capacity, b, t) == Alone(capacity, c, t) == c;
  }

  lemma BareInsert(s: Ix.State, capacity: nat, k: Key, e: Location)
    requires Agree(Bare(s))
    ensures var room := if k in s.entries then s else Roomy(s, capacity);
            Bare(Ix.State(room.entries[k := e], Touch(room.lru, k), s.ops)) ==
            Insert(Bare(s), k, IndexEntry([e], 0), capacity)
  {
    var room := if k in s.entries then s else Roomy(s, capacity);
    RoomMade(Bare(s), capacity);
    assert Bare(Ix.State(room.entries[k := e], Touch(room.lru, k), s.ops)).entries ==
           Insert(Bare(s), k, IndexEntry([e], 0), capacity).entries;
  }

  /** An insert that runs alone is the sequential insert, eviction loop included. */
  lemma InsertAlone(capacity: nat, s: Ix.State, t: Ix.Tid, k: Key, e: Location)
    requires t !in s.ops && Agree(Bare(s))
    ensures var s' := Alone(capacity, Ix.Apply(capacity, s, Ix.BeginInsert(t, k, e)), t);
            Bare(s') == Insert(Bare(s), k, IndexEntry([e], 0), capacity) && s'.ops == s.ops
  {
    BareInsert(s, capacity, k, e);
    if k in s.entries {
      MoveOn(capacity, s, t, Ix.InsertCheck(k, e), Ix.InsertWrite(k, e, 0));
      WriteAlone(capacity, s, t, k, e, 0);
    } else {
      MoveOn(capacity, s, t, Ix.InsertCheck(k, e), Ix.InsertLen(k, e, 0));
      LoopAlone(capacity, s, t, k, e, 0);
      WriteAlone(capacity, Roomy(s, capacity), t, k, e, Len(Victims(Bare(s), capacity)));
    }
  }
}
