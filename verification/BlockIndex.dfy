/**
 The prefix-hash index (index.rs) in sequential use: a map and an LRU tracker that must agree, and
 an eviction loop. `IndexModel` is the specification, `IndexRuns` what it means over whole runs,
 `BlockIndex` the code proved against it.
 */
module IndexModel {
  import opened Bytes
  import opened Lists

  /** `BlockLocation` of block.rs. */
  datatype Location = Location(nodeId: int, blockIndex: int, offset: int, blockSize: int, generation: int)

  datatype IndexEntry = IndexEntry(blocks: seq<Location>, createdAt: int)

  /** The map, and its keys with the most recent first. */
  datatype Index = Index(entries: map<Key, IndexEntry>, recency: List<int>)

  /** The map and the recency order hold the same keys, each once. */
  ghost predicate Agree(m: Index) {
    NoDup(m.recency) && Elems(m.recency) == m.entries.Keys
  }

  type Agreed = m: Index | Agree(m) ghost witness Index(map[], Nil)

  const EMPTY := Index(map[], Nil)

  function Lookup(m: Index, k: Key): Index {
    if k in m.entries then m.(recency := Touch(m.recency, k)) else m
  }

  function Remove(m: Index, k: Key): Index {
    if k in m.entries then Index(m.entries - {k}, Without(m.recency, k)) else m
  }

  /** The least recent key leaves both structures. */
  function DropLast(m: Index): (d: Index)
    requires m.recency.Cons?
    ensures Len(d.recency) < Len(m.recency)
  {
    LastElem(m.recency);
    WithoutShorter(m.recency, Last(m.recency).value);
    Index(m.entries - {Last(m.recency).value}, Without(m.recency, Last(m.recency).value))
  }

  lemma {:induction false} WithoutShorter(l: List<int>, x: int)
    ensures Len(Without(l, x)) <= Len(l)
    ensures x in Elems(l) ==> Len(Without(l, x)) < Len(l)
  {
    if l.Cons? { WithoutShorter(l.tail, x); }
  }

  /** The index once it has room for one more entry, or has nothing left to evict. */
  function MakeRoom(m: Index, capacity: nat): Index
    decreases Len(m.recency)
  {
    if m.recency.Nil? || Len(m.recency) < capacity then m else MakeRoom(DropLast(m), capacity)
  }

  /** The keys evicted on the way, oldest first. */
  function Victims(m: Index, capacity: nat): List<int>
    decreases Len(m.recency)
  {
    if m.recency.Nil? || Len(m.recency) < capacity then Nil
    else LastElem(m.recency); Cons(Last(m.recency).value, Victims(DropLast(m), capacity))
  }

  function Insert(m: Index, k: Key, v: IndexEntry, capacity: nat): Index {
    var d := if k in m.entries then m else MakeRoom(m, capacity);
    Index(d.entries[k := v], Touch(d.recency, k))
  }

  /** What `insert` returns: nothing for an update. */
  function Evicted(m: Index, k: Key, capacity: nat): List<int> {
    if k in m.entries then Nil else Victims(m, capacity)
  }

  lemma AgreeSize(m: Index)
    requires Agree(m)
    ensures |m.entries| == Len(m.recency)
  {
    LenElems(m.recency);
    assert |m.entries.Keys| == |m.entries|;
  }

  lemma DropAgrees(m: Index)
    requires Agree(m) && m.recency.Cons?
    ensures Agree(DropLast(m)) && Len(DropLast(m).recency) == Len(m.recency) - 1
    ensures Last(m.recency).Some? && Last(m.recency).value in m.entries
  {
    LastElem(m.recency);
    WithoutElems(m.recency, Last(m.recency).value);
  }

  /** One turn of the eviction loop, seen from what is left to do. */
  lemma RoomTurn(m: Index, capacity: nat, evicted: seq<Key>)
    requires m.recency.Cons? && Len(m.recency) >= capacity
    ensures MakeRoom(m, capacity) == MakeRoom(DropLast(m), capacity)
    ensures Last(m.recency).Some?
    ensures Gathered(evicted, m, capacity) == Gathered(evicted + [Last(m.recency).value], DropLast(m), capacity)
  {
    LastElem(m.recency);
    var rest := SeqOf(Victims(DropLast(m), capacity));
    assert SeqOf(Victims(m, capacity)) == [Last(m.recency).value] + rest;
    assert evicted + ([Last(m.recency).value] + rest) == (evicted + [Last(m.recency).value]) + rest;
  }

  lemma RoomDone(m: Index, capacity: nat, evicted: seq<Key>)
    requires m.recency.Nil? || Len(m.recency) < capacity
    ensures MakeRoom(m, capacity) == m && Gathered(evicted, m, capacity) == evicted
  {
    assert evicted + [] == evicted;
  }

  /** What will have been evicted when the loop ends. */
  function Gathered(evicted: seq<Key>, m: Index, capacity: nat): seq<Key> {
    evicted + SeqOf(Victims(m, capacity))
  }

  /** How many entries must go to leave room for one more; never more than there are. */
  function Excess(len: nat, capacity: nat): nat {
    if len < capacity then 0 else if capacity == 0 then len else len + 1 - capacity
  }

  /** Making room evicts exactly the excess, keeps every other entry as it was, and keeps agreement. */
  lemma {:induction false} RoomMade(m: Index, capacity: nat)
    requires Agree(m)
    ensures Agree(MakeRoom(m, capacity))
    ensures Len(Victims(m, capacity)) == Excess(Len(m.recency), capacity)
    ensures Len(MakeRoom(m, capacity).recency) == Len(m.recency) - Excess(Len(m.recency), capacity)
    ensures Elems(Victims(m, capacity)) <= m.entries.Keys
    ensures MakeRoom(m, capacity).entries == m.entries - Elems(Victims(m, capacity))
    decreases Len(m.recency)
  {
    if m.recency.Cons? && Len(m.recency) >= capacity {
      DropAgrees(m);
      RoomMade(DropLast(m), capacity);
    }
  }

  function Limit(capacity: nat): nat {
    if capacity == 0 then 1 else capacity
  }

  /** An insert keeps agreement, evicts nothing on an update and otherwise exactly the excess, keeps
      all other entries, and never grows the index past `max(capacity, 1)`. */
  lemma InsertAgrees(m: Index, k: Key, v: IndexEntry, capacity: nat)
    requires Agree(m)
    ensures Agree(Insert(m, k, v, capacity))
    ensures Insert(m, k, v, capacity).entries == (m.entries - Elems(Evicted(m, k, capacity)))[k := v]
    ensures k !in Elems(Evicted(m, k, capacity)) && Elems(Evicted(m, k, capacity)) <= m.entries.Keys
    ensures Len(Evicted(m, k, capacity)) == if k in m.entries then 0 else Excess(Len(m.recency), capacity)
    ensures Len(m.recency) <= Limit(capacity) ==> Len(Insert(m, k, v, capacity).recency) <= Limit(capacity)
    ensures Len(Insert(m, k, v, capacity).recency) ==
            Len(m.recency) - Len(Evicted(m, k, capacity)) + if k in m.entries then 0 else 1
  {
    RoomMade(m, capacity);
    var d := if k in m.entries then m else MakeRoom(m, capacity);
    WithoutElems(d.recency, k);
    assert m.entries - {} == m.entries;
  }

  lemma LookupAgrees(m: Index, k: Key)
    requires Agree(m)
    ensures Agree(Lookup(m, k)) && Len(Lookup(m, k).recency) == Len(m.recency)
  {
    WithoutElems(m.recency, k);
  }

  lemma RemoveAgrees(m: Index, k: Key)
    requires Agree(m)
    ensures Agree(Remove(m, k)) && Len(Remove(m, k).recency) <= Len(m.recency)
  {
    WithoutElems(m.recency, k);
  }
}

module IndexRuns {
  import opened Bytes
  import opened Lists
  import opened IndexModel

  datatype Op = OpLookup(key: Key) | OpInsert(key: Key, value: IndexEntry) | OpRemove(key: Key)

  /** A sequential history, latest operation outermost. */
  datatype History = Start | Then(past: History, op: Op)

  function Step(m: Index, op: Op, capacity: nat): Index {
    match op
    case OpLookup(k) => Lookup(m, k)
    case OpInsert(k, v) => Insert(m, k, v, capacity)
    case OpRemove(k) => Remove(m, k)
  }

  function After(h: History, capacity: nat): Index {
    match h
    case Start => EMPTY
    case Then(past, op) => Step(After(past, capacity), op, capacity)
  }

  function Size(h: History): nat {
    match h
    case Start => 0
    case Then(past, _) => Size(past) + 1
  }

  /** When `k` was last looked up or inserted, counted from 1; 0 if never. */
  ghost function LastUse(h: History, k: Key): (n: nat)
    ensures n <= Size(h)
  {
    match h
    case Start => 0
    case Then(past, op) => if op.key == k && !op.OpRemove? then Size(h) else LastUse(past, k)
  }

  /** The value of the last insert of `k`. */
  ghost function LastInsert(h: History, k: Key): Option<IndexEntry> {
    match h
    case Start => None
    case Then(past, op) => if op.OpInsert? && op.key == k then Some(op.value) else LastInsert(past, k)
  }

  /** Listed by decreasing time of last use. */
  ghost predicate ByUse(h: History, l: List<int>) {
    match l
    case Nil => true
    case Cons(x, t) => (forall y :: y in Elems(t) ==> LastUse(h, x) > LastUse(h, y)) && ByUse(h, t)
  }

  lemma {:induction false} WithoutByUse(h: History, l: List<int>, x: Key)
    requires ByUse(h, l)
    ensures ByUse(h, Without(l, x))
  {
    if l.Cons? {
      WithoutByUse(h, l.tail, x);
      WithoutElems(l.tail, x);
    }
  }

  lemma {:induction false} ThenByUse(h: History, op: Op, l: List<int>)
    requires ByUse(h, l)
    requires !op.OpRemove? ==> op.key !in Elems(l)
    ensures ByUse(Then(h, op), l)
  {
    if l.Cons? { ThenByUse(h, op, l.tail); }
  }

  lemma TouchByUse(h: History, op: Op, l: List<int>)
    requires ByUse(h, l) && !op.OpRemove?
    ensures ByUse(Then(h, op), Touch(l, op.key))
  {
    WithoutByUse(h, l, op.key);
    WithoutElems(l, op.key);
    ThenByUse(h, op, Without(l, op.key));
  }

  /** The last of the recency order is the least recently used. */
  lemma {:induction false} LastIsOldest(h: History, l: List<int>)
    requires ByUse(h, l) && l.Cons?
    ensures Last(l).Some?
    ensures forall y :: y in Elems(l) && y != Last(l).value ==> LastUse(h, y) > LastUse(h, Last(l).value)
  {
    LastElem(l);
    if l.tail.Cons? {
      LastElem(l.tail);
      LastIsOldest(h, l.tail);
    }
  }

  ghost predicate OldestFirst(h: History, l: List<int>) {
    match l
    case Nil => true
    case Cons(x, t) => (forall y :: y in Elems(t) ==> LastUse(h, x) < LastUse(h, y)) && OldestFirst(h, t)
  }

  /** Making room evicts the least recently used, oldest first. */
  lemma {:induction false} VictimsByUse(h: History, m: Index, capacity: nat)
    requires Agree(m) && ByUse(h, m.recency)
    ensures ByUse(h, MakeRoom(m, capacity).recency)
    ensures OldestFirst(h, Victims(m, capacity))
    ensures forall v, s :: v in Elems(Victims(m, capacity)) && s in MakeRoom(m, capacity).entries.Keys ==>
              LastUse(h, v) < LastUse(h, s)
    decreases Len(m.recency)
  {
    if m.recency.Cons? && Len(m.recency) >= capacity {
      DropAgrees(m);
      LastIsOldest(h, m.recency);
      WithoutByUse(h, m.recency, Last(m.recency).value);
      VictimsByUse(h, DropLast(m), capacity);
      RoomMade(DropLast(m), capacity);
    }
  }

  /** Every entry holds the value of the last insert of its key. */
  ghost predicate Current(h: History, m: Index) {
    forall k :: k in m.entries ==> LastInsert(h, k) == Some(m.entries[k])
  }

  /** In every run: map and recency agree, the size bound holds, the recency order is the order of
      last use, and every entry holds the value of the last insert of its key. */
  lemma {:induction false} RunSound(h: History, capacity: nat)
    ensures Agree(After(h, capacity))
    ensures Len(After(h, capacity).recency) <= Limit(capacity)
    ensures ByUse(h, After(h, capacity).recency)
    ensures Current(h, After(h, capacity))
  {
    match h
    case Start =>
    case Then(past, op) =>
      RunSound(past, capacity);
      var m := After(past, capacity);
      match op
      case OpLookup(k) =>
        LookupAgrees(m, k);
        if k in m.entries { TouchByUse(past, op, m.recency); } else { ThenByUse(past, op, m.recency); }
      case OpRemove(k) =>
        RemoveAgrees(m, k);
        WithoutByUse(past, m.recency, k);
        ThenByUse(past, op, Remove(m, k).recency);
      case OpInsert(k, v) =>
        InsertAgrees(m, k, v, capacity);
        VictimsByUse(past, m, capacity);
        TouchByUse(past, op, if k in m.entries then m.recency else MakeRoom(m, capacity).recency);
  }

  /** After any run an insert evicts exactly the keys whose last lookup or insert is oldest, in that
      order, and only as many as it must. */
  lemma EvictsOldest(h: History, k: Key, v: IndexEntry, capacity: nat)
    ensures var m := After(h, capacity);
      var evicted := Evicted(m, k, capacity);
      && OldestFirst(h, evicted)
      && (forall x, s :: x in Elems(evicted) && s in m.entries && s !in Elems(evicted) ==>
            LastUse(h, x) < LastUse(h, s))
      && Len(evicted) == (if k in m.entries then 0 else Excess(|m.entries|, capacity))
      && Insert(m, k, v, capacity).entries == (m.entries - Elems(evicted))[k := v]
  {
    RunSound(h, capacity);
    var m := After(h, capacity);
    AgreeSize(m);
    InsertAgrees(m, k, v, capacity);
    VictimsByUse(h, m, capacity);
    RoomMade(m, capacity);
  }
}

module BlockIndex {
  import opened Bytes
  import opened Lists
  import Model = IndexModel
  import opened LruPolicy

  class Index {
    var entries: map<Key, Model.IndexEntry>
    const lru: Lru
    const capacity: nat
    /** The abstract value between operations. */
    ghost var view: Model.Agreed

    ghost predicate Valid()
      reads this, lru
    {
      lru.Valid() && view == Model.Index(entries, lru.keys)
    }

    constructor (capacity: nat)
      ensures Valid() && fresh(lru) && this.capacity == capacity && view == Model.EMPTY
    {
      entries := map[];
      lru := new Lru();
      this.capacity := capacity;
      view := Model.Index(map[], Nil);
    }

    method Lookup(k: Key) returns (r: Option<Model.IndexEntry>)
      requires Valid()
      modifies this, lru
      ensures Valid() && view == Model.Lookup(old(view), k)
      ensures r == if k in old(view).entries then Some(old(view).entries[k]) else None
    {
      Model.LookupAgrees(view, k);
      if k !in entries {
        return None;
      }
      lru.Touch(k);
      view := Model.Lookup(view, k);
      return Some(entries[k]);
    }

    method Insert(k: Key, v: Model.IndexEntry) returns (evicted: seq<Key>)
      requires Valid()
      modifies this, lru
      ensures Valid() && view == Model.Insert(old(view), k, v, capacity)
      ensures evicted == SeqOf(Model.Evicted(old(view), k, capacity))
    {
      Model.InsertAgrees(view, k, v, capacity);
      evicted := [];
      if k !in entries {
        evicted := MakeRoom();
      }
      entries := entries[k := v];
      lru.Touch(k);
      view := Model.Insert(old(view), k, v, capacity);
    }

    /** The eviction loop of `insert`. */
    method MakeRoom() returns (evicted: seq<Key>)
      requires Valid()
      modifies this, lru
      ensures Valid() && view == Model.MakeRoom(old(view), capacity)
      ensures evicted == Model.Gathered([], old(view), capacity)
    {
      evicted := [];
      ghost var m := view;
      Model.AgreeSize(m);
      while |entries| >= capacity
        invariant Valid() && |entries| == Len(view.recency)
        invariant Model.MakeRoom(view, capacity) == Model.MakeRoom(m, capacity)
        invariant Model.Gathered(evicted, view, capacity) == Model.Gathered([], m, capacity)
        decreases Len(view.recency)
      {
        ghost var before := view;
        LastElem(before.recency);
        var victim := EvictOne();
        if victim.None? {
          break;
        }
        Model.RoomTurn(before, capacity, evicted);
        evicted := evicted + [victim.value];
        Model.AgreeSize(view);
      }
      assert view.recency.Nil? || Len(view.recency) < capacity;
      Model.RoomDone(view, capacity, evicted);
    }

    /** One turn of the loop: `evict_lru`, then `map.remove`. */
    method EvictOne() returns (victim: Option<Key>)
      requires Valid()
      modifies this, lru
      ensures Valid()
      ensures victim == Last(old(view).recency)
      ensures view == if victim.None? then old(view) else Model.DropLast(old(view))
    {
      LastElem(view.recency);
      victim := lru.EvictLru();
      if victim.Some? {
        Model.DropAgrees(view);
        entries := entries - {victim.value};
        view := Model.DropLast(view);
      }
    }

    method Remove(k: Key) returns (r: Option<Model.IndexEntry>)
      requires Valid()
      modifies this, lru
      ensures Valid() && view == Model.Remove(old(view), k)
      ensures r == if k in old(view).entries then Some(old(view).entries[k]) else None
    {
      Model.RemoveAgrees(view, k);
      if k !in entries {
        return None;
      }
      r := Some(entries[k]);
      entries := entries - {k};
      lru.Remove(k);
      view := Model.Remove(view, k);
    }
  }
}
