/**
 The LRU eviction tracker (eviction.rs): an intrusive doubly-linked list in a slab, with a stack of
 free slots and a key index, proved to refine a duplicate-free recency list.
 */
module LruPolicy {
  import opened Bytes
  import opened Lists

  datatype Entry = Entry(key: Key, prev: Option<int>, next: Option<int>)

  predicate InSlab(entries: seq<Entry>, at: Option<int>) {
    at.Some? ==> 0 <= at.value < |entries|
  }

  /** Following `next` from `at`, for at most `fuel` entries. */
  function WalkForward(entries: seq<Entry>, at: Option<int>, fuel: nat): List<int>
    decreases fuel
  {
    if fuel == 0 || at.None? || !InSlab(entries, at) then Nil
    else Cons(at.value, WalkForward(entries, entries[at.value].next, fuel - 1))
  }

  /** Following `prev` from `at`, for at most `fuel` entries, in front of `rest`. */
  function WalkBackward(entries: seq<Entry>, at: Option<int>, fuel: nat, rest: List<int>): List<int>
    decreases fuel
  {
    if fuel == 0 || at.None? || !InSlab(entries, at) then rest
    else WalkBackward(entries, entries[at.value].prev, fuel - 1, Cons(at.value, rest))
  }

  /** The slots of `l` are linked in that order, both ways, and `prev` comes before them. */
  ghost predicate Chain(entries: seq<Entry>, l: List<int>, prev: Option<int>) {
    match l
    case Nil => true
    case Cons(x, t) =>
      && 0 <= x < |entries|
      && entries[x].prev == prev
      && entries[x].next == First(t)
      && Chain(entries, t, Some(x))
  }

  /** The keys of the slots of `l`. */
  ghost function KeysOf(entries: seq<Entry>, l: List<int>): List<int> {
    match l
    case Nil => Nil
    case Cons(x, t) => Cons(if 0 <= x < |entries| then entries[x].key else 0, KeysOf(entries, t))
  }

  /** The index sends the key of every slot of `l` to that slot. */
  ghost predicate Keyed(entries: seq<Entry>, l: List<int>, index: map<Key, int>) {
    match l
    case Nil => true
    case Cons(x, t) =>
      && 0 <= x < |entries|
      && entries[x].key in index && index[entries[x].key] == x
      && Keyed(entries, t, index)
  }

  predicate Slot(size: nat, x: int) {
    0 <= x < size
  }

  /** Live and free slots partition the slab, and no slot is on the free list twice. */
  ghost predicate Partitioned(size: nat, order: List<int>, free: List<int>) {
    && NoDup(free)
    && (forall x :: x in Elems(free) ==> x !in Elems(order))
    && (forall x :: Slot(size, x) <==> x in Elems(order) || x in Elems(free))
    && Len(order) + Len(free) == size
  }

  /** The fields, and the live slots in recency order. */
  datatype Slab =
    Slab(entries: seq<Entry>, free: List<int>, index: map<Key, int>, head: Option<int>, tail: Option<int>,
         order: List<int>)

  ghost predicate Sound(s: Slab) {
    && (s.head, s.tail) == (First(s.order), Last(s.order))
    && NoDup(s.order)
    && Chain(s.entries, s.order, None)
    && Partitioned(|s.entries|, s.order, s.free)
    && Keyed(s.entries, s.order, s.index)
    && s.index.Keys == Elems(KeysOf(s.entries, s.order))
  }

  // ---- lists in a changing slab -------------------------------------------------------------

  lemma {:induction false} ChainFrame(entries: seq<Entry>, entries': seq<Entry>, l: List<int>, prev: Option<int>)
    requires Chain(entries, l, prev) && |entries| <= |entries'|
    requires forall x :: x in Elems(l) && 0 <= x < |entries| ==> entries'[x] == entries[x]
    ensures Chain(entries', l, prev)
  {
    if l.Cons? { ChainFrame(entries, entries', l.tail, Some(l.head)); }
  }

  /** Only the keys of the listed slots matter to the index. */
  lemma {:induction false} KeyedFrame(entries: seq<Entry>, entries': seq<Entry>, l: List<int>,
                                      index: map<Key, int>, index': map<Key, int>)
    requires Keyed(entries, l, index) && |entries| <= |entries'|
    requires forall x :: x in Elems(l) && 0 <= x < |entries| ==> entries'[x].key == entries[x].key
    requires forall x :: x in Elems(l) && 0 <= x < |entries| && entries[x].key in index ==>
               entries[x].key in index' && index'[entries[x].key] == index[entries[x].key]
    ensures Keyed(entries', l, index') && KeysOf(entries', l) == KeysOf(entries, l)
  {
    if l.Cons? { KeyedFrame(entries, entries', l.tail, index, index'); }
  }

  lemma {:induction false} ChainBounds(entries: seq<Entry>, l: List<int>, prev: Option<int>, x: int)
    requires Chain(entries, l, prev) && x in Elems(l)
    ensures 0 <= x < |entries|
    ensures entries[x].next.Some? ==> entries[x].next.value in Elems(l)
    ensures entries[x].prev == prev || (entries[x].prev.Some? && entries[x].prev.value in Elems(l))
  {
    if l.head != x { ChainBounds(entries, l.tail, Some(l.head), x); }
  }

  lemma {:induction false} KeyedAt(entries: seq<Entry>, l: List<int>, index: map<Key, int>, x: int)
    requires Keyed(entries, l, index) && x in Elems(l)
    ensures 0 <= x < |entries| && entries[x].key in index && index[entries[x].key] == x
  {
    if l.head != x { KeyedAt(entries, l.tail, index, x); }
  }

  /** The slot the index names for a listed key. */
  lemma {:induction false} SlotOfKey(entries: seq<Entry>, l: List<int>, index: map<Key, int>, k: Key)
    requires Keyed(entries, l, index) && k in Elems(KeysOf(entries, l))
    ensures k in index && index[k] in Elems(l) && 0 <= index[k] < |entries| && entries[index[k]].key == k
  {
    if entries[l.head].key != k { SlotOfKey(entries, l.tail, index, k); }
  }

  /** The keys of the listed slots are distinct, and belong to exactly those slots. */
  lemma {:induction false} KeysFacts(entries: seq<Entry>, l: List<int>, index: map<Key, int>)
    requires Keyed(entries, l, index) && NoDup(l)
    ensures NoDup(KeysOf(entries, l)) && Len(KeysOf(entries, l)) == Len(l)
    ensures Elems(KeysOf(entries, l)) <= index.Keys
    ensures l.Cons? ==> Last(l).Some? && 0 <= Last(l).value < |entries| &&
                        Last(KeysOf(entries, l)) == Some(entries[Last(l).value].key)
  {
    if l.Cons? {
      KeysFacts(entries, l.tail, index);
      if entries[l.head].key in Elems(KeysOf(entries, l.tail)) {
        SlotOfKey(entries, l.tail, index, entries[l.head].key);
      }
    }
  }

  /** Taking a slot off the list takes its key off the keys. */
  lemma {:induction false} KeysWithout(entries: seq<Entry>, l: List<int>, index: map<Key, int>, x: int)
    requires Keyed(entries, l, index) && NoDup(l) && x in Elems(l)
    ensures 0 <= x < |entries|
    ensures KeysOf(entries, Without(l, x)) == Without(KeysOf(entries, l), entries[x].key)
    ensures Keyed(entries, Without(l, x), index - {entries[x].key})
  {
    KeyedAt(entries, l, index, x);
    WithoutElems(l, x);
    KeyedWithout(entries, l, index, x);
    if l.head == x {
      WithoutElems(l.tail, x);
      KeysFacts(entries, l, index);
      WithoutElems(KeysOf(entries, l.tail), entries[x].key);
    } else {
      KeysWithout(entries, l.tail, index, x);
    }
  }

  lemma {:induction false} KeyedWithout(entries: seq<Entry>, l: List<int>, index: map<Key, int>, x: int)
    requires Keyed(entries, l, index) && 0 <= x < |entries|
    requires entries[x].key in index && index[entries[x].key] == x
    ensures Keyed(entries, Without(l, x), index - {entries[x].key})
  {
    if l.Cons? { KeyedWithout(entries, l.tail, index, x); }
  }

  // ---- unlink and push_front ---------------------------------------------------------------

  /** What `unlink` makes of the slab. */
  function Unlinked(entries: seq<Entry>, idx: int): (e: seq<Entry>)
    requires 0 <= idx < |entries| && InSlab(entries, entries[idx].prev) && InSlab(entries, entries[idx].next)
    ensures |e| == |entries| && forall i :: 0 <= i < |e| ==> e[i].key == entries[i].key
  {
    var prev, next := entries[idx].prev, entries[idx].next;
    var e1 := if prev.Some? then entries[prev.value := entries[prev.value].(next := next)] else entries;
    var e2 := if next.Some? then e1[next.value := e1[next.value].(prev := prev)] else e1;
    e2[idx := e2[idx].(prev := None, next := None)]
  }

  /** Unlinking a listed slot leaves the list without it. */
  lemma {:induction false} UnlinkChain(entries: seq<Entry>, l: List<int>, prev: Option<int>, idx: int)
    requires Chain(entries, l, prev) && NoDup(l) && idx in Elems(l)
    requires InSlab(entries, prev) && (prev.Some? ==> prev.value !in Elems(l))
    ensures 0 <= idx < |entries| && InSlab(entries, entries[idx].prev) && InSlab(entries, entries[idx].next)
    ensures Chain(Unlinked(entries, idx), Without(l, idx), prev)
    ensures First(Without(l, idx)) == if First(l) == Some(idx) then entries[idx].next else First(l)
  {
    var x, t := l.head, l.tail;
    ChainBounds(entries, l, prev, idx);
    if entries[idx].next.Some? { ChainBounds(entries, l, prev, entries[idx].next.value); }
    if entries[idx].prev != prev { ChainBounds(entries, l, prev, entries[idx].prev.value); }
    var e := Unlinked(entries, idx);
    if x == idx {
      WithoutElems(t, idx);
      if t.Cons? { ChainFrame(entries, e, t.tail, Some(t.head)); }
    } else {
      UnlinkChain(entries, t, Some(x), idx);
      PrevIsBefore(entries, t, Some(x), idx);
    }
  }

  /** The predecessor of a listed slot is in the list, or `prev` for the first. */
  lemma {:induction false} PrevIsBefore(entries: seq<Entry>, l: List<int>, prev: Option<int>, idx: int)
    requires Chain(entries, l, prev) && NoDup(l) && idx in Elems(l)
    requires prev.Some? ==> prev.value !in Elems(l)
    ensures 0 <= idx < |entries|
    ensures entries[idx].prev == prev <==> l.head == idx
    ensures entries[idx].next.Some? ==> entries[idx].next.value in Elems(l)
  {
    ChainBounds(entries, l, prev, idx);
    if l.head != idx {
      ChainBounds(entries, l.tail, Some(l.head), idx);
    }
  }

  lemma {:induction false} UnlinkLast(entries: seq<Entry>, l: List<int>, prev: Option<int>, idx: int)
    requires Chain(entries, l, prev) && NoDup(l) && idx in Elems(l)
    ensures 0 <= idx < |entries|
    ensures (if Without(l, idx).Nil? then prev else Last(Without(l, idx))) ==
            if entries[idx].next.None? then entries[idx].prev else Last(l)
  {
    ChainBounds(entries, l, prev, idx);
    WithoutElems(l.tail, idx);
    LastElem(l.tail);
    if l.head != idx {
      UnlinkLast(entries, l.tail, Some(l.head), idx);
    }
  }

  /** What `push_front` makes of the slab. */
  function Pushed(entries: seq<Entry>, head: Option<int>, idx: int): (e: seq<Entry>)
    requires 0 <= idx < |entries| && InSlab(entries, head)
    ensures |e| == |entries| && forall i :: 0 <= i < |e| ==> e[i].key == entries[i].key
  {
    var e1 := entries[idx := entries[idx].(prev := None, next := head)];
    if head.Some? then e1[head.value := e1[head.value].(prev := Some(idx))] else e1
  }

  lemma PushChain(entries: seq<Entry>, l: List<int>, idx: int)
    requires Chain(entries, l, None) && NoDup(l) && 0 <= idx < |entries| && idx !in Elems(l)
    ensures InSlab(entries, First(l)) && Chain(Pushed(entries, First(l), idx), Cons(idx, l), None)
  {
    if l.Cons? {
      ChainFrame(entries, Pushed(entries, First(l), idx), l.tail, Some(l.head));
    }
  }

  // ---- slots -------------------------------------------------------------------------------

  function Max(a: nat, b: nat): nat {
    if a < b then b else a
  }

  /** The slab after `alloc_entry` put `key` in slot `idx`, a reused one or the next new one. */
  function Filled(entries: seq<Entry>, idx: int, key: Key): (e: seq<Entry>)
    requires 0 <= idx <= |entries|
    ensures |e| == Max(|entries|, idx + 1)
    ensures forall i :: 0 <= i < |entries| && i != idx ==> e[i] == entries[i]
    ensures e[idx].key == key
  {
    if idx < |entries| then entries[idx := Entry(key, None, None)] else entries + [Entry(key, None, None)]
  }

  /** Taking a slot off the free list, or a fresh one when the list is empty. */
  lemma SlotTaken(size: nat, order: List<int>, free: List<int>)
    requires Partitioned(size, order, free)
    ensures free.Cons? ==> 0 <= free.head < size && free.head !in Elems(order) &&
                            Partitioned(size, Cons(free.head, order), free.tail)
    ensures free.Nil? ==> size !in Elems(order) && Partitioned(size + 1, Cons(size, order), Nil)
  {
    if free.Cons? {
      assert Slot(size, free.head);
    } else {
      assert !Slot(size, size);
      assert forall x :: Slot(size + 1, x) <==> Slot(size, x) || x == size;
    }
  }

  /** Freeing a listed slot. */
  lemma SlotFreed(size: nat, order: List<int>, free: List<int>, idx: int)
    requires Partitioned(size, order, free) && NoDup(order) && idx in Elems(order)
    ensures Partitioned(size, Without(order, idx), Cons(idx, free))
  {
    WithoutElems(order, idx);
  }

  /** Listing the same slots in another order. */
  lemma SlotMoved(size: nat, order: List<int>, free: List<int>, idx: int)
    requires Partitioned(size, order, free) && NoDup(order) && idx in Elems(order)
    ensures Partitioned(size, Lists.Touch(order, idx), free)
  {
    WithoutElems(order, idx);
  }

  // ---- walks -------------------------------------------------------------------------------

  lemma {:induction false} ForwardWalk(entries: seq<Entry>, l: List<int>, prev: Option<int>, fuel: nat)
    requires Chain(entries, l, prev) && fuel >= Len(l)
    ensures WalkForward(entries, First(l), fuel) == l
    decreases fuel
  {
    if l.Cons? { ForwardWalk(entries, l.tail, Some(l.head), fuel - 1); }
  }

  /** Walking back from the last of `l` reads `l` and then goes on from `prev`. */
  lemma {:induction false} BackwardWalk(entries: seq<Entry>, l: List<int>, prev: Option<int>, fuel: nat,
                                        rest: List<int>)
    requires Chain(entries, l, prev) && fuel >= Len(l) && l.Cons?
    ensures WalkBackward(entries, Last(l), fuel, rest) == WalkBackward(entries, prev, fuel - Len(l), Append(l, rest))
    decreases l
  {
    if l.tail.Cons? {
      BackwardWalk(entries, l.tail, Some(l.head), fuel, rest);
    }
  }

  type SoundSlab = s: Slab | Sound(s) ghost witness Slab([], Nil, map[], None, None, Nil)

  class Lru {
    var entries: seq<Entry>
    /** The `Vec` of reusable slots, used as a stack: top first. */
    var free: List<int>
    var index: map<Key, int>
    var head: Option<int>
    var tail: Option<int>
    /** What the fields stand for between operations. */
    ghost var slab: SoundSlab
    /** The abstract value: live keys, most recent first. */
    ghost var keys: List<int>
    /** The largest number of keys ever live at once. */
    ghost var peak: nat

    ghost predicate Valid()
      reads this
    {
      && slab == Slab(entries, free, index, head, tail, slab.order)
      && keys == KeysOf(entries, slab.order)
      && |entries| == peak
    }

    /** In every valid state the links alone, followed from either end, give the recency order; live
        and free slots partition the slab; the keys are distinct and the index holds exactly them. */
    lemma Structure()
      requires Valid()
      ensures WalkForward(entries, head, |entries|) == slab.order == WalkBackward(entries, tail, |entries|, Nil)
      ensures keys == KeysOf(entries, slab.order)
      ensures Partitioned(|entries|, slab.order, free)
      ensures NoDup(keys) && index.Keys == Elems(keys)
      ensures Len(keys) <= peak == |entries|
    {
      KeysFacts(entries, slab.order, index);
      ForwardWalk(entries, slab.order, None, |entries|);
      AppendNil(slab.order);
      if slab.order.Cons? { BackwardWalk(entries, slab.order, None, |entries|, Nil); }
    }

    constructor ()
      ensures Valid() && keys == Nil && peak == 0
    {
      entries, free, index, head, tail := [], Nil, map[], None, None;
      slab, keys, peak := Slab([], Nil, map[], None, None, Nil), Nil, 0;
    }

    method Touch(key: Key)
      requires Valid()
      modifies this
      ensures Valid()
      ensures keys == Lists.Touch(old(keys), key)
      ensures peak == Max(old(peak), Len(keys))
    {
      if key in index {
        SlotOfKey(entries, slab.order, index, key);
        MoveToFront(index[key]);
      } else {
        Enter(key);
      }
    }

    method Remove(key: Key)
      requires Valid()
      modifies this
      ensures Valid()
      ensures keys == Without(old(keys), key)
      ensures peak == old(peak)
    {
      if key in index {
        SlotOfKey(entries, slab.order, index, key);
        Release(key, index[key]);
      } else {
        WithoutElems(keys, key);
      }
    }

    method EvictLru() returns (victim: Option<Key>)
      requires Valid()
      modifies this
      ensures Valid()
      ensures victim == Last(old(keys))
      ensures keys == if victim.None? then old(keys) else Without(old(keys), victim.value)
      ensures peak == old(peak)
    {
      KeysFacts(entries, slab.order, index);
      if tail.None? {
        return None;
      }
      var idx := tail.value;
      LastElem(slab.order);
      KeyedAt(entries, slab.order, index, idx);
      var hash := entries[idx].key;
      Release(hash, idx);
      return Some(hash);
    }

    function Count(): (n: nat)
      requires Valid()
      reads this
      ensures n == Len(keys)
    {
      KeysFacts(entries, slab.order, index);
      LenElems(keys);
      assert |index.Keys| == |index|;
      |index|
    }

    /** What `touch` does for a known key. */
    method MoveToFront(idx: int)
      requires Valid() && idx in Elems(slab.order)
      modifies this
      ensures Valid()
      ensures 0 <= idx < |old(entries)| && keys == Lists.Touch(old(keys), old(entries)[idx].key)
      ensures peak == old(peak) == Max(peak, Len(keys))
    {
      ghost var order, rest := slab.order, Without(slab.order, idx);
      KeysWithout(entries, order, index, idx);
      WithoutElems(order, idx);
      Unlink(idx, order);
      PushFront(idx, rest);
      slab := MoveSound(slab, entries, head, tail, idx);
      keys := KeysOf(entries, slab.order);
    }

    /** What `touch` does for a new key. */
    method Enter(key: Key)
      requires Valid() && key !in index
      modifies this
      ensures Valid()
      ensures keys == Lists.Touch(old(keys), key)
      ensures peak == Max(old(peak), Len(keys))
    {
      SlotTaken(|entries|, slab.order, free);
      var idx := AllocEntry(key);
      ChainFrame(old(entries), entries, slab.order, None);
      PushFront(idx, slab.order);
      index := index[key := idx];
      slab := EnterSound(slab, entries, free, head, tail, idx, key);
      keys := KeysOf(entries, slab.order);
      peak := Max(peak, Len(keys));
    }

    /** What `remove` and `evict_lru` share: drop the key, unlink the slot, free it. */
    method Release(key: Key, idx: int)
      requires Valid() && idx in Elems(slab.order) && 0 <= idx < |entries| && entries[idx].key == key
      modifies this
      ensures Valid()
      ensures keys == Without(old(keys), key)
      ensures peak == old(peak)
    {
      index := index - {key};
      Unlink(idx, slab.order);
      free := Cons(idx, free);
      slab := ReleaseSound(slab, entries, head, tail, idx, key);
      keys := KeysOf(entries, slab.order);
    }

    method AllocEntry(key: Key) returns (idx: int)
      requires free.Cons? ==> 0 <= free.head < |entries|
      modifies this`entries, this`free
      ensures idx == if old(free).Nil? then old(|entries|) else old(free).head
      ensures free == if old(free).Nil? then Nil else old(free).tail
      ensures 0 <= idx <= old(|entries|) && entries == Filled(old(entries), idx, key)
    {
      if free.Cons? {
        idx := free.head;
        free := free.tail;
        entries := entries[idx := Entry(key, None, None)];
      } else {
        idx := |entries|;
        entries := entries + [Entry(key, None, None)];
      }
    }

    method Unlink(idx: int, ghost order: List<int>)
      requires (head, tail) == (First(order), Last(order)) && Chain(entries, order, None) && NoDup(order)
      requires idx in Elems(order)
      modifies this`entries, this`head, this`tail
      ensures (head, tail) == (First(Without(order, idx)), Last(Without(order, idx)))
      ensures Chain(entries, Without(order, idx), None)
      ensures SameKeys(old(entries), entries)
    {
      UnlinkChain(entries, order, None, idx);
      UnlinkLast(entries, order, None, idx);
      PrevIsBefore(entries, order, None, idx);
      var prev := entries[idx].prev;
      var next := entries[idx].next;
      if prev.Some? {
        entries := entries[prev.value := entries[prev.value].(next := next)];
      } else {
        head := next;
      }
      if next.Some? {
        entries := entries[next.value := entries[next.value].(prev := prev)];
      } else {
        tail := prev;
      }
      entries := entries[idx := entries[idx].(prev := None, next := None)];
      assert entries == Unlinked(old(entries), idx);
    }

    method PushFront(idx: int, ghost order: List<int>)
      requires (head, tail) == (First(order), Last(order)) && Chain(entries, order, None) && NoDup(order)
      requires 0 <= idx < |entries| && idx !in Elems(order)
      modifies this`entries, this`head, this`tail
      ensures (head, tail) == (First(Cons(idx, order)), Last(Cons(idx, order)))
      ensures Chain(entries, Cons(idx, order), None)
      ensures SameKeys(old(entries), entries)
    {
      PushChain(entries, order, idx);
      LastElem(order);
      entries := entries[idx := entries[idx].(prev := None, next := head)];
      if head.Some? {
        entries := entries[head.value := entries[head.value].(prev := Some(idx))];
      }
      assert entries == Pushed(old(entries), old(head), idx);
      head := Some(idx);
      if tail.None? {
        tail := Some(idx);
      }
    }
  }

  ghost predicate SameKeys(entries: seq<Entry>, entries': seq<Entry>) {
    |entries| == |entries'| && forall i :: 0 <= i < |entries| ==> entries'[i].key == entries[i].key
  }

  /** The three slab-wide results: what the links do is already known, the rest follows. */
  ghost function MoveSound(s: SoundSlab, entries: seq<Entry>, head: Option<int>, tail: Option<int>, idx: int):
    (r: SoundSlab)
    requires idx in Elems(s.order) && SameKeys(s.entries, entries)
    requires (head, tail) == (First(Lists.Touch(s.order, idx)), Last(Lists.Touch(s.order, idx)))
    requires Chain(entries, Lists.Touch(s.order, idx), None)
    ensures r == Slab(entries, s.free, s.index, head, tail, Lists.Touch(s.order, idx))
    ensures 0 <= idx < |entries|
    ensures KeysOf(entries, r.order) == Lists.Touch(KeysOf(s.entries, s.order), s.entries[idx].key)
    ensures Len(KeysOf(entries, r.order)) <= |entries|
  {
    KeysWithout(s.entries, s.order, s.index, idx);
    KeyedAt(s.entries, s.order, s.index, idx);
    WithoutElems(s.order, idx);
    SlotMoved(|s.entries|, s.order, s.free, idx);
    WithoutElems(KeysOf(s.entries, s.order), s.entries[idx].key);
    var order := Lists.Touch(s.order, idx);
    KeyedFrame(s.entries, s.entries, Without(s.order, idx), s.index - {s.entries[idx].key}, s.index);
    KeyedFrame(s.entries, entries, order, s.index, s.index);
    KeysFacts(entries, order, s.index);
    Slab(entries, s.free, s.index, head, tail, order)
  }

  ghost function EnterSound(s: SoundSlab, entries: seq<Entry>, free: List<int>, head: Option<int>, tail: Option<int>,
                            idx: int, key: Key): (r: SoundSlab)
    requires key !in s.index && 0 <= idx <= |s.entries| && idx !in Elems(s.order)
    requires |s.entries| <= |entries| && SameKeys(Filled(s.entries, idx, key), entries)
    requires (head, tail) == (Some(idx), Last(Cons(idx, s.order)))
    requires Chain(entries, Cons(idx, s.order), None)
    requires Partitioned(|entries|, Cons(idx, s.order), free)
    ensures r == Slab(entries, free, s.index[key := idx], head, tail, Cons(idx, s.order))
    ensures KeysOf(entries, r.order) == Lists.Touch(KeysOf(s.entries, s.order), key)
    ensures Len(KeysOf(entries, r.order)) == Len(s.order) + 1
  {
    EnterKeyed(s.entries, entries, s.order, s.index, idx, key);
    Slab(entries, free, s.index[key := idx], head, tail, Cons(idx, s.order))
  }

  lemma EnterKeyed(entries: seq<Entry>, entries': seq<Entry>, l: List<int>, index: map<Key, int>, idx: int, key: Key)
    requires Keyed(entries, l, index) && NoDup(l) && index.Keys == Elems(KeysOf(entries, l)) && key !in index
    requires 0 <= idx <= |entries| <= |entries'| && idx !in Elems(l) && SameKeys(Filled(entries, idx, key), entries')
    ensures Keyed(entries', Cons(idx, l), index[key := idx])
    ensures index[key := idx].Keys == Elems(KeysOf(entries', Cons(idx, l)))
    ensures KeysOf(entries', Cons(idx, l)) == Lists.Touch(KeysOf(entries, l), key)
    ensures Len(KeysOf(entries', Cons(idx, l))) == Len(l) + 1
  {
    KeyedFrame(entries, entries', l, index, index[key := idx]);
    KeysFacts(entries, l, index);
    WithoutElems(KeysOf(entries, l), key);
  }

  ghost function ReleaseSound(s: SoundSlab, entries: seq<Entry>, head: Option<int>, tail: Option<int>, idx: int,
                              key: Key): (r: SoundSlab)
    requires idx in Elems(s.order) && 0 <= idx < |s.entries| && s.entries[idx].key == key
    requires SameKeys(s.entries, entries)
    requires (head, tail) == (First(Without(s.order, idx)), Last(Without(s.order, idx)))
    requires Chain(entries, Without(s.order, idx), None)
    ensures r == Slab(entries, Cons(idx, s.free), s.index - {key}, head, tail, Without(s.order, idx))
    ensures KeysOf(entries, r.order) == Without(KeysOf(s.entries, s.order), key)
  {
    KeysWithout(s.entries, s.order, s.index, idx);
    KeyedAt(s.entries, s.order, s.index, idx);
    WithoutElems(s.order, idx);
    SlotFreed(|s.entries|, s.order, s.free, idx);
    var index := s.index - {key};
    WithoutElems(KeysOf(s.entries, s.order), key);
    KeyedFrame(s.entries, entries, Without(s.order, idx), index, index);
    Slab(entries, Cons(idx, s.free), index, head, tail, Without(s.order, idx))
  }
}
