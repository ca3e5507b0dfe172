/**
 The consistent-hash ring (placement.rs). `RingModel` is the ring on values: a `BTreeMap` from position
 to node name as the list of its entries in key order. The hash of a key string is a parameter.
 */
module RingModel {
  import opened Bytes
  import opened Lists

  type Node = string

  datatype Ring = Empty | At(pos: int, node: Node, rest: Ring)
  type Names = List<Node>

  /** `BTreeMap::insert`. */
  function Put(r: Ring, p: int, n: Node): Ring {
    match r
    case Empty => At(p, n, Empty)
    case At(q, m, rest) =>
      if p < q then At(p, n, r) else if p == q then At(p, n, rest) else At(q, m, Put(rest, p, n))
  }

  /** `retain(|_, v| v != n)`. */
  function Drop(r: Ring, n: Node): Ring {
    match r
    case Empty => Empty
    case At(q, m, rest) => if m == n then Drop(rest, n) else At(q, m, Drop(rest, n))
  }

  /** `range(p..)`. */
  function From(r: Ring, p: int): Ring {
    match r
    case Empty => Empty
    case At(q, m, rest) => if q >= p then At(q, m, From(rest, p)) else From(rest, p)
  }

  function Before(r: Ring, p: int): Ring {
    match r
    case Empty => Empty
    case At(q, m, rest) => if q < p then At(q, m, Before(rest, p)) else Before(rest, p)
  }

  function Owners(r: Ring): Names {
    match r
    case Empty => Nil
    case At(_, m, rest) => Cons(m, Owners(rest))
  }

  function First(r: Ring): Option<Node> {
    if r.Empty? then None else Some(r.node)
  }

  /** `preferred_node` for a hash at position `p`. */
  function Preferred(r: Ring, p: int): Option<Node> {
    if From(r, p).At? then First(From(r, p)) else First(r)
  }

  ghost predicate Sorted(r: Ring) {
    r.At? ==> (r.rest.At? ==> r.pos < r.rest.pos) && Sorted(r.rest)
  }

  // ---- names in order ----------------------------------------------------------------------

  /** First occurrences, leaving out what has been seen. */
  function Uniq(a: Names, seen: set<Node>): Names {
    match a
    case Nil => Nil
    case Cons(x, t) => if x in seen then Uniq(t, seen) else Cons(x, Uniq(t, seen + {x}))
  }

  function Take(a: Names, n: nat): Names {
    match a
    case Nil => Nil
    case Cons(x, t) => if n == 0 then Nil else Cons(x, Take(t, n - 1))
  }

  lemma {:induction false} UniqAppend(a: Names, b: Names, seen: set<Node>)
    ensures Uniq(Append(a, b), seen) == Append(Uniq(a, seen), Uniq(b, seen + Elems(a)))
  {
    match a
    case Nil =>
      assert seen + {} == seen;
    case Cons(x, t) =>
      if x in seen {
        UniqAppend(t, b, seen);
        assert seen + Elems(a) == seen + Elems(t);
      } else {
        UniqAppend(t, b, seen + {x});
        assert seen + Elems(a) == seen + {x} + Elems(t);
      }
  }

  lemma {:induction false} UniqSeen(a: Names, seen: set<Node>)
    requires Elems(a) <= seen
    ensures Uniq(a, seen) == Nil
  {
    if a.Cons? { UniqSeen(a.tail, seen); }
  }

  lemma {:induction false} UniqElems(a: Names, seen: set<Node>)
    ensures Elems(Uniq(a, seen)) == Elems(a) - seen && NoDup(Uniq(a, seen))
  {
    if a.Cons? {
      UniqElems(a.tail, if a.head in seen then seen else seen + {a.head});
    }
  }

  /** Leaving out `x` before or after keeping first occurrences is the same. */
  lemma {:induction false} UniqWithout(a: Names, x: Node, seen: set<Node>)
    ensures Uniq(Without(a, x), seen) == Without(Uniq(a, seen), x)
    ensures Uniq(Without(a, x), seen + {x}) == Uniq(Without(a, x), seen)
  {
    match a
    case Nil =>
    case Cons(y, t) =>
      UniqWithout(t, x, seen);
      if y != x && y !in seen {
        UniqWithout(t, x, seen + {y});
        assert seen + {x} + {y} == seen + {y} + {x};
      } else if y == x && x !in seen {
        UniqWithout(t, x, seen + {x});
      }
  }

  lemma {:induction false} TakeLen(a: Names, n: nat)
    ensures Len(Take(a, n)) == if n <= Len(a) then n else Len(a)
    ensures Elems(Take(a, n)) <= Elems(a) && (NoDup(a) ==> NoDup(Take(a, n)))
  {
    if a.Cons? && n > 0 { TakeLen(a.tail, n - 1); }
  }

  lemma {:induction false} TakeTake(a: Names, n: nat, m: nat)
    requires n <= m
    ensures Take(Take(a, m), n) == Take(a, n)
  {
    if a.Cons? && n > 0 { TakeTake(a.tail, n - 1, m - 1); }
  }
}

/** What the ring promises about placement. */
module Placement {
  import opened Bytes
  import opened Lists
  import opened RingModel

  // ---- one clockwise rotation --------------------------------------------------------------

  /** The owners met on one turn clockwise from `p`, each once, in order. */
  function Rotation(r: Ring, p: int): Names {
    Uniq(Append(Owners(From(r, p)), Owners(Before(r, p))), {})
  }

  function AtLeastOne(n: nat): nat {
    if n == 0 then 1 else n
  }

  /** What `preferred_nodes` returns: it walks from `p` to the end, then the whole ring again. */
  function PreferredNodes(r: Ring, p: int, n: nat): Names {
    Take(Uniq(Append(Owners(From(r, p)), Owners(r)), {}), AtLeastOne(n))
  }

  lemma {:induction false} BeforeAll(r: Ring, p: int)
    requires Sorted(r) && r.At? && r.pos >= p
    ensures Before(r, p) == Empty && From(r, p) == r
  {
    if r.rest.At? { BeforeAll(r.rest, p); }
  }

  /** A sorted ring is its part before `p` followed by its part from `p`. */
  lemma {:induction false} Halves(r: Ring, p: int)
    requires Sorted(r)
    ensures Owners(r) == Append(Owners(Before(r, p)), Owners(From(r, p)))
  {
    if r.At? {
      if r.pos >= p { BeforeAll(r, p); } else { Halves(r.rest, p); }
    }
  }

  /** The doubled walk meets owners in the order of one rotation. */
  lemma WalkIsRotation(r: Ring, p: int)
    requires Sorted(r)
    ensures Uniq(Append(Owners(From(r, p)), Owners(r)), {}) == Rotation(r, p)
  {
    var after, before := Owners(From(r, p)), Owners(Before(r, p));
    Halves(r, p);
    AppendAssoc(after, before, after);
    var both := Append(after, before);
    UniqAppend(both, after, {});
    AppendElems(after, before);
    assert {} + Elems(both) == Elems(both);
    UniqSeen(after, Elems(both));
    AppendNil(Uniq(both, {}));
  }

  lemma RotationOwners(r: Ring, p: int)
    ensures Elems(Rotation(r, p)) == Elems(Owners(r)) && NoDup(Rotation(r, p))
  {
    HalvesElems(r, p);
    AppendElems(Owners(From(r, p)), Owners(Before(r, p)));
    UniqElems(Append(Owners(From(r, p)), Owners(Before(r, p))), {});
  }

  lemma {:induction false} HalvesElems(r: Ring, p: int)
    ensures Elems(Owners(r)) == Elems(Owners(From(r, p))) + Elems(Owners(Before(r, p)))
  {
    if r.At? { HalvesElems(r.rest, p); }
  }

  /** `preferred_nodes` returns distinct owners of the ring, `min(max(n, 1), number of owners)` of them;
      the first is `preferred_node`; and a smaller `n` gives a prefix. */
  lemma PreferredNodesAre(r: Ring, p: int, n: nat, m: nat)
    requires Sorted(r) && n <= m
    ensures PreferredNodes(r, p, n) == Take(Rotation(r, p), AtLeastOne(n))
    ensures NoDup(PreferredNodes(r, p, n)) && Elems(PreferredNodes(r, p, n)) <= Elems(Owners(r))
    ensures var owners := |Elems(Owners(r))|;
            Len(PreferredNodes(r, p, n)) == if AtLeastOne(n) <= owners then AtLeastOne(n) else owners
    ensures r.At? ==> PreferredNodes(r, p, n).Cons? && Some(PreferredNodes(r, p, n).head) == Preferred(r, p)
    ensures PreferredNodes(r, p, n) == Take(PreferredNodes(r, p, m), AtLeastOne(n))
  {
    WalkIsRotation(r, p);
    RotationOwners(r, p);
    TakeLen(Rotation(r, p), AtLeastOne(n));
    LenElems(Rotation(r, p));
    TakeTake(Rotation(r, p), AtLeastOne(n), AtLeastOne(m));
    if r.At? { HeadOfRotation(r, p); }
  }

  lemma HeadOfRotation(r: Ring, p: int)
    requires Sorted(r) && r.At?
    ensures Rotation(r, p).Cons? && Some(Rotation(r, p).head) == Preferred(r, p)
  {
    if From(r, p).Empty? {
      Halves(r, p);
      AppendNil(Owners(Before(r, p)));
    }
  }

  // ---- leaving -----------------------------------------------------------------------------

  lemma {:induction false} DropCommutes(r: Ring, p: int, x: Node)
    ensures From(Drop(r, x), p) == Drop(From(r, p), x) && Before(Drop(r, x), p) == Drop(Before(r, p), x)
    ensures Owners(Drop(r, x)) == Without(Owners(r), x)
  {
    if r.At? { DropCommutes(r.rest, p, x); }
  }

  /** Removing a node takes it out of every rotation and changes nothing else. */
  lemma RotationAfterLeave(r: Ring, p: int, x: Node)
    ensures Rotation(Drop(r, x), p) == Without(Rotation(r, p), x)
  {
    var after, before := From(r, p), Before(r, p);
    DropCommutes(r, p, x);
    DropCommutes(after, p, x);
    DropCommutes(before, p, x);
    WithoutAppend(Owners(after), Owners(before), x);
    UniqWithout(Append(Owners(after), Owners(before)), x, {});
  }

  /** Minimal movement when a node leaves: only hashes that preferred it move. */
  lemma LeaveMovesOnlyItsOwn(r: Ring, p: int, x: Node)
    requires Preferred(r, p) != Some(x)
    ensures Preferred(Drop(r, x), p) == Preferred(r, p)
  {
    DropCommutes(r, p, x);
    if From(r, p).Empty? { DropEmpty(r, p, x); }
  }

  lemma DropEmpty(r: Ring, p: int, x: Node)
    requires From(r, p).Empty?
    ensures From(Drop(r, x), p).Empty?
  {
    DropCommutes(r, p, x);
  }

  // ---- joining -----------------------------------------------------------------------------

  lemma {:induction false} FromPut(r: Ring, p: int, q: int, x: Node)
    ensures From(Put(r, q, x), p) == if q >= p then Put(From(r, p), q, x) else From(r, p)
  {
    if r.At? { FromPut(r.rest, p, q, x); }
  }

  lemma PutMoves(r: Ring, p: int, q: int, x: Node)
    requires r.At?
    ensures Preferred(Put(r, q, x), p) in {Preferred(r, p), Some(x)}
  {
    FromPut(r, p, q, x);
  }

  type Position = (Node, nat) -> int

  /** The virtual nodes `i`, ..., `vnodes - 1` of `n` are inserted. */
  function Join(r: Ring, n: Node, at: Position, i: nat, vnodes: nat): Ring
    decreases vnodes - i
  {
    if i >= vnodes then r else Join(Put(r, at(n, i), n), n, at, i + 1, vnodes)
  }

  /** Minimal movement when a node joins: every hash stays where it was or moves to the new node, even
      if virtual nodes collide. */
  lemma {:induction false} JoinMovesOnlyToIt(r: Ring, p: int, n: Node, at: Position, i: nat, vnodes: nat)
    requires r.At?
    ensures Join(r, n, at, i, vnodes).At?
    ensures Preferred(Join(r, n, at, i, vnodes), p) in {Preferred(r, p), Some(n)}
    decreases vnodes - i
  {
    if i < vnodes {
      PutMoves(r, p, at(n, i), n);
      JoinMovesOnlyToIt(Put(r, at(n, i), n), p, n, at, i + 1, vnodes);
    }
  }

  lemma {:induction false} PutSorted(r: Ring, p: int, n: Node)
    requires Sorted(r)
    ensures Sorted(Put(r, p, n))
    ensures Put(r, p, n).At? && Put(r, p, n).pos == if r.At? && r.pos < p then r.pos else p
  {
    if r.At? && p > r.pos { PutSorted(r.rest, p, n); }
  }

  lemma {:induction false} DropSorted(r: Ring, n: Node)
    requires Sorted(r)
    ensures Sorted(Drop(r, n))
    ensures r.At? && Drop(r, n).At? ==> Drop(r, n).pos >= r.pos
  {
    if r.At? { DropSorted(r.rest, n); }
  }

  lemma {:induction false} JoinSorted(r: Ring, n: Node, at: Position, i: nat, vnodes: nat)
    requires Sorted(r)
    ensures Sorted(Join(r, n, at, i, vnodes))
    decreases vnodes - i
  {
    if i < vnodes {
      PutSorted(r, at(n, i), n);
      JoinSorted(Put(r, at(n, i), n), n, at, i + 1, vnodes);
    }
  }
}

/** Placement over whole histories of joins and leaves. */
module PlacementHistory {
  import opened Bytes
  import opened RingModel
  import opened Placement

  function Look(r: Ring, p: int): Option<Node> {
    match r
    case Empty => None
    case At(q, m, rest) => if p == q then Some(m) else Look(rest, p)
  }

  lemma {:induction false} LookPut(r: Ring, p: int, n: Node, q: int)
    ensures Look(Put(r, p, n), q) == if q == p then Some(n) else Look(r, q)
  {
    if r.At? { LookPut(r.rest, p, n, q); }
  }

  lemma {:induction false} LookBelow(r: Ring, p: int)
    requires Sorted(r) && r.At? && p < r.pos
    ensures Look(r, p) == None
  {
    if r.rest.At? { LookBelow(r.rest, p); }
  }

  lemma {:induction false} LookDrop(r: Ring, x: Node, q: int)
    requires Sorted(r)
    ensures Look(Drop(r, x), q) == if Look(r, q) == Some(x) then None else Look(r, q)
  {
    if r.At? {
      LookDrop(r.rest, x, q);
      if q == r.pos && r.rest.At? { LookBelow(r.rest, q); }
    }
  }

  /** Rings that agree at every position are the same ring. */
  lemma {:induction false} SameRing(r: Ring, s: Ring)
    requires Sorted(r) && Sorted(s) && forall p :: Look(r, p) == Look(s, p)
    ensures r == s
  {
    assert r.At? ==> Look(r, r.pos) == Look(s, r.pos);
    assert s.At? ==> Look(r, s.pos) == Look(s, s.pos);
    if r.At? && s.At? {
      if r.pos < s.pos { LookBelow(s, r.pos); }
      if s.pos < r.pos { LookBelow(r, s.pos); }
      forall p ensures Look(r.rest, p) == Look(s.rest, p) {
        assert Look(r, p) == Look(s, p);
        if p == r.pos {
          if r.rest.At? { LookBelow(r.rest, p); }
          if s.rest.At? { LookBelow(s.rest, p); }
        }
      }
      SameRing(r.rest, s.rest);
    }
  }

  /** Some virtual node sits at position `q`. */
  predicate Occupied(r: Ring, q: int) {
    Look(r, q).Some?
  }

  lemma {:induction false} FirstIsLeast(r: Ring)
    requires Sorted(r) && r.At?
    ensures Look(r, r.pos) == First(r) && forall q :: Occupied(r, q) ==> r.pos <= q
  {
    forall q | Occupied(r, q) ensures r.pos <= q { if q < r.pos { LookBelow(r, q); } }
  }

  lemma {:induction false} LookFrom(r: Ring, p: int, q: int)
    requires Sorted(r)
    ensures Look(From(r, p), q) == if q >= p then Look(r, q) else None
    ensures Sorted(From(r, p)) && (From(r, p).At? && r.At? ==> From(r, p).pos >= r.pos)
  {
    if r.At? { LookFrom(r.rest, p, q); }
  }

  /** `preferred_node` is the owner of the nearest occupied position at or after the hash, or of the
      lowest one if there is none. */
  lemma PreferredIsNearest(r: Ring, p: int) returns (q: int)
    requires Sorted(r) && r.At?
    ensures Occupied(r, q) && Preferred(r, p) == Look(r, q)
    ensures q >= p ==> forall x :: Occupied(r, x) && x >= p ==> q <= x
    ensures q < p ==> forall x :: Occupied(r, x) ==> q <= x < p
  {
    var after := From(r, p);
    forall x ensures Look(after, x) == if x >= p then Look(r, x) else None { LookFrom(r, p, x); }
    LookFrom(r, p, p);
    FirstIsLeast(r);
    if after.At? {
      FirstIsLeast(after);
      q := after.pos;
      assert Occupied(after, q);
      forall x | Occupied(r, x) && x >= p ensures q <= x { assert Occupied(after, x); }
    } else {
      q := r.pos;
      forall x | Occupied(r, x) ensures x < p { assert Look(after, x) == None; }
    }
  }

  /** `p` is the position of one of the virtual nodes `i`, ..., `vnodes - 1` of `n`. */
  predicate Owns(n: Node, at: Position, i: nat, vnodes: nat, p: int)
    decreases vnodes - i
  {
    i < vnodes && (at(n, i) == p || Owns(n, at, i + 1, vnodes, p))
  }

  lemma {:induction false} LookJoin(r: Ring, n: Node, at: Position, i: nat, vnodes: nat, p: int)
    ensures Look(Join(r, n, at, i, vnodes), p) == if Owns(n, at, i, vnodes, p) then Some(n) else Look(r, p)
    decreases vnodes - i
  {
    if i < vnodes {
      LookPut(r, at(n, i), n, p);
      LookJoin(Put(r, at(n, i), n), n, at, i + 1, vnodes, p);
    }
  }

  datatype Event = Joins(node: Node) | Leaves(node: Node)
  datatype History = Start | Then(past: History, event: Event)

  function Members(h: History): set<Node> {
    match h
    case Start => {}
    case Then(past, Joins(n)) => Members(past) + {n}
    case Then(past, Leaves(n)) => Members(past) - {n}
  }

  /** Every node that ever joined. */
  function Named(h: History): set<Node> {
    match h
    case Start => {}
    case Then(past, Joins(n)) => Named(past) + {n}
    case Then(past, Leaves(_)) => Named(past)
  }

  /** `add_node` ignores a node it has; `remove_node` drops every position of the node. */
  function RingOf(h: History, at: Position, vnodes: nat): Ring {
    match h
    case Start => Empty
    case Then(past, Joins(n)) =>
      var r := RingOf(past, at, vnodes);
      if n in Members(past) then r else Join(r, n, at, 0, vnodes)
    case Then(past, Leaves(n)) => Drop(RingOf(past, at, vnodes), n)
  }

  /** No position belongs to virtual nodes of two of these nodes. */
  ghost predicate Apart(nodes: set<Node>, at: Position, vnodes: nat) {
    forall a, b, p :: a in nodes && b in nodes && Owns(a, at, 0, vnodes, p) && Owns(b, at, 0, vnodes, p) ==> a == b
  }

  lemma {:induction false} MembersNamed(h: History)
    ensures Members(h) <= Named(h)
  {
    if h.Then? { MembersNamed(h.past); }
  }

  lemma {:induction false} RingSorted(h: History, at: Position, vnodes: nat)
    ensures Sorted(RingOf(h, at, vnodes))
  {
    if h.Then? {
      RingSorted(h.past, at, vnodes);
      match h.event
      case Joins(n) => JoinSorted(RingOf(h.past, at, vnodes), n, at, 0, vnodes);
      case Leaves(n) => DropSorted(RingOf(h.past, at, vnodes), n);
    }
  }

  /** Without collisions a position belongs to whichever member has a virtual node there. */
  lemma {:induction false} RingHolds(h: History, at: Position, vnodes: nat, nodes: set<Node>, p: int, n: Node)
    requires Named(h) <= nodes && Apart(nodes, at, vnodes)
    ensures Look(RingOf(h, at, vnodes), p) == Some(n) <==> n in Members(h) && Owns(n, at, 0, vnodes, p)
  {
    if h.Then? {
      RingHolds(h.past, at, vnodes, nodes, p, n);
      MembersNamed(h.past);
      var r := RingOf(h.past, at, vnodes);
      match h.event
      case Joins(m) =>
        LookJoin(r, m, at, 0, vnodes, p);
      case Leaves(m) =>
        RingSorted(h.past, at, vnodes);
        LookDrop(r, m, p);
    }
  }

  /** Placement does not depend on history: if no two nodes' virtual nodes collide, any two histories of
      joins, repeated joins and leaves that end with the same members end with the same ring, and so with
      the same preferred nodes for every hash. */
  lemma HistoryIndependent(h: History, g: History, at: Position, vnodes: nat)
    requires Members(h) == Members(g) && Apart(Named(h) + Named(g), at, vnodes)
    ensures RingOf(h, at, vnodes) == RingOf(g, at, vnodes)
  {
    var r, s, nodes := RingOf(h, at, vnodes), RingOf(g, at, vnodes), Named(h) + Named(g);
    RingSorted(h, at, vnodes);
    RingSorted(g, at, vnodes);
    forall p ensures Look(r, p) == Look(s, p) {
      if Look(r, p).Some? {
        RingHolds(h, at, vnodes, nodes, p, Look(r, p).value);
        RingHolds(g, at, vnodes, nodes, p, Look(r, p).value);
      } else if Look(s, p).Some? {
        RingHolds(h, at, vnodes, nodes, p, Look(s, p).value);
        RingHolds(g, at, vnodes, nodes, p, Look(s, p).value);
      }
    }
    SameRing(r, s);
  }

  function TwoJoins(a: Node, b: Node): History {
    Then(Then(Start, Joins(a)), Joins(b))
  }

  lemma TwoJoined(a: Node, b: Node)
    ensures Named(TwoJoins(a, b)) == Members(TwoJoins(a, b)) == {a, b}
  {
    assert Members(Then(Start, Joins(a))) == {a} == Named(Then(Start, Joins(a)));
    assert {a} + {b} == {a, b};
  }

  /** The condition is exact: the order in which two nodes join matters if and only if they collide. */
  lemma OrderMatters(a: Node, b: Node, at: Position, vnodes: nat)
    requires a != b
    ensures RingOf(TwoJoins(a, b), at, vnodes) == RingOf(TwoJoins(b, a), at, vnodes) <==> Apart({a, b}, at, vnodes)
  {
    var r, s := RingOf(TwoJoins(a, b), at, vnodes), RingOf(TwoJoins(b, a), at, vnodes);
    if Apart({a, b}, at, vnodes) {
      TwoJoined(a, b);
      TwoJoined(b, a);
      assert {b, a} == {a, b} && {a, b} + {a, b} == {a, b};
      HistoryIndependent(TwoJoins(a, b), TwoJoins(b, a), at, vnodes);
    } else {
      var x, y, p :| x in {a, b} && y in {a, b} && Owns(x, at, 0, vnodes, p) && Owns(y, at, 0, vnodes, p) && x != y;
      LookJoin(RingOf(Then(Start, Joins(a)), at, vnodes), b, at, 0, vnodes, p);
      LookJoin(RingOf(Then(Start, Joins(b)), at, vnodes), a, at, 0, vnodes, p);
    }
  }
}

/** The strings whose hashes place virtual nodes. */
module VirtualNodes {
  import opened Bytes
  import opened RingModel
  import opened Placement
  import opened PlacementHistory

  const DIGITS := "0123456789"

  function Decimal(i: nat): (s: string)
    ensures |s| > 0 && forall k :: 0 <= k < |s| ==> s[k] != ':'
  {
    if i < 10 then [DIGITS[i]] else Decimal(i / 10) + [DIGITS[i % 10]]
  }

  /** `format!("{}:{}", node_id, i)`. */
  function VnodeKey(n: Node, i: nat): string {
    n + ":" + Decimal(i)
  }

  lemma {:induction false} DecimalInjective(i: nat, j: nat)
    requires Decimal(i) == Decimal(j)
    ensures i == j
  {
    var d, e := Decimal(i), Decimal(j);
    assert (|d| > 1 <==> i >= 10) && (|e| > 1 <==> j >= 10);
    assert d[|d| - 1] == DIGITS[i % 10] && e[|e| - 1] == DIGITS[j % 10];
    assert i % 10 == j % 10;
    if i >= 10 && j >= 10 {
      assert Decimal(i / 10) == d[..|d| - 1] == e[..|e| - 1] == Decimal(j / 10);
      DecimalInjective(i / 10, j / 10);
    }
  }

  /** The key tells node and number apart, whatever the node name contains. */
  lemma VnodeKeyInjective(a: Node, i: nat, b: Node, j: nat)
    requires VnodeKey(a, i) == VnodeKey(b, j)
    ensures a == b && i == j
  {
    var s, d, e := VnodeKey(a, i), Decimal(i), Decimal(j);
    assert s[|a|] == ':' && s[|b|] == ':';
    assert forall k :: |a| < k < |s| ==> s[k] == d[k - |a| - 1];
    assert forall k :: |b| < k < |s| ==> s[k] == e[k - |b| - 1];
    assert |a| == |b|;
    assert a == s[..|a|] == b;
    assert d == s[|a| + 1..] == e;
    DecimalInjective(i, j);
  }

  function Value(d: string): int {
    if d == "" then 0 else 10 * Value(d[..|d| - 1]) + (d[|d| - 1] as int - '0' as int)
  }

  /** The decimal numeral of a number: digits, and no zero in front of others. */
  ghost predicate Numeral(d: string) {
    d != "" && (forall k :: 0 <= k < |d| ==> '0' <= d[k] <= '9') && (d[0] == '0' ==> |d| == 1)
  }

  lemma {:induction false} NumeralIs(d: string)
    requires Numeral(d)
    ensures Value(d) >= 0 && Decimal(Value(d)) == d && (d[0] != '0' ==> Value(d) > 0)
  {
    var last := d[|d| - 1] as int - '0' as int;
    assert DIGITS[last] == d[|d| - 1];
    if |d| == 1 {
      assert d[..0] == "" && Value(d) == last;
    } else {
      var front := d[..|d| - 1];
      assert front[0] == d[0];
      NumeralIs(front);
      assert Value(d) / 10 == Value(front) && Value(d) % 10 == last;
    }
  }

  lemma {:induction false} DecimalIs(i: nat)
    ensures Numeral(Decimal(i)) && Value(Decimal(i)) == i && (i > 0 ==> Decimal(i)[0] != '0')
  {
    assert forall k :: 0 <= k < 10 ==> DIGITS[k] as int == '0' as int + k;
    if i >= 10 {
      DecimalIs(i / 10);
      assert Decimal(i)[..|Decimal(i)| - 1] == Decimal(i / 10);
    }
  }

  type KeyHash = string -> u64

  function PositionOf(hash: KeyHash): Position {
    (n: Node, i: nat) => hash(VnodeKey(n, i))
  }

  /** Virtual node `i` of a node is at the hash of the node's name, a colon and the numeral of `i`. */
  lemma VnodeAt(hash: KeyHash, n: Node, i: nat)
    ensures forall d :: Numeral(d) && Value(d) == i ==> PositionOf(hash)(n, i) == hash(n + ":" + d)
    ensures exists d :: Numeral(d) && Value(d) == i
  {
    DecimalIs(i);
    forall d | Numeral(d) && Value(d) == i ensures PositionOf(hash)(n, i) == hash(n + ":" + d) {
      NumeralIs(d);
      assert n + ":" + d == VnodeKey(n, i);
    }
  }

  /** No two different virtual-node keys of these nodes hash to one position. */
  ghost predicate CollisionFree(hash: KeyHash, nodes: set<Node>, vnodes: nat) {
    forall a, i: nat, b, j: nat ::
      a in nodes && b in nodes && i < vnodes && j < vnodes && hash(VnodeKey(a, i)) == hash(VnodeKey(b, j)) ==>
        VnodeKey(a, i) == VnodeKey(b, j)
  }

  lemma {:induction false} OwnedBy(n: Node, at: Position, i: nat, vnodes: nat, p: int) returns (k: nat)
    requires Owns(n, at, i, vnodes, p)
    ensures i <= k < vnodes && at(n, k) == p
    decreases vnodes - i
  {
    if at(n, i) == p { k := i; } else { k := OwnedBy(n, at, i + 1, vnodes, p); }
  }

  /** A hash without collisions on the keys used keeps the nodes apart. */
  lemma CollisionFreeApart(hash: KeyHash, nodes: set<Node>, vnodes: nat)
    requires CollisionFree(hash, nodes, vnodes)
    ensures PlacementHistory.Apart(nodes, PositionOf(hash), vnodes)
  {
    var at := PositionOf(hash);
    forall a, b, p | a in nodes && b in nodes && Owns(a, at, 0, vnodes, p) && Owns(b, at, 0, vnodes, p) ensures a == b {
      var i := OwnedBy(a, at, 0, vnodes, p);
      var j := OwnedBy(b, at, 0, vnodes, p);
      VnodeKeyInjective(a, i, b, j);
    }
  }
}

module HashRing {
  import opened Bytes
  import opened Lists
  import opened Hex
  import Model = RingModel
  import opened Placement
  import opened PlacementHistory
  import opened VirtualNodes

  type Node = Model.Node

  function Retain(s: seq<Node>, n: Node): seq<Node> {
    if s == [] then [] else (if s[0] == n then [] else [s[0]]) + Retain(s[1..], n)
  }

  lemma {:induction false} RetainElems(s: seq<Node>, n: Node, m: Node)
    ensures m in Retain(s, n) <==> m in s && m != n
  {
    if s != [] { RetainElems(s[1..], n, m); }
  }

  /** What `result` will be when the walk is over. */
  function Outcome(result: seq<Node>, walk: Model.Names, seen: set<Node>, limit: nat): seq<Node>
    requires |result| <= limit
  {
    result + SeqOf(Model.Take(Model.Uniq(walk, seen), limit - |result|))
  }

  lemma Turn(result: seq<Node>, walk: Model.Names, seen: set<Node>, limit: nat)
    requires |result| < limit && walk.Cons?
    ensures walk.head in seen ==> Outcome(result, walk, seen, limit) == Outcome(result, walk.tail, seen, limit)
    ensures walk.head !in seen ==>
              Outcome(result, walk, seen, limit) == Outcome(result + [walk.head], walk.tail, seen + {walk.head}, limit)
  {
    if walk.head !in seen {
      var rest := SeqOf(Model.Take(Model.Uniq(walk.tail, seen + {walk.head}), limit - |result| - 1));
      assert result + ([walk.head] + rest) == (result + [walk.head]) + rest;
    }
  }

  lemma Over(result: seq<Node>, walk: Model.Names, seen: set<Node>, limit: nat)
    requires |result| == limit || (walk.Nil? && |result| <= limit)
    ensures Outcome(result, walk, seen, limit) == result
  {
    assert result + [] == result;
  }

  class Ring {
    var ring: Model.Ring
    const vnodesPerNode: nat
    var nodes: seq<Node>
    const hash: KeyHash

    /** The joins and leaves so far. */
    ghost var history: History

    /** The ring is what the history of joins and leaves makes it. */
    ghost predicate Valid()
      reads this
    {
      && ring == RingOf(history, PositionOf(hash), vnodesPerNode)
      && forall m :: m in nodes <==> m in Members(history)
    }

    constructor (vnodesPerNode: nat, hash: KeyHash)
      ensures Valid() && history == Start && nodes == []
      ensures this.vnodesPerNode == vnodesPerNode && this.hash == hash
    {
      ring, nodes, history := Model.Empty, [], Start;
      this.vnodesPerNode, this.hash := vnodesPerNode, hash;
    }

    method AddNode(n: Node)
      requires Valid()
      modifies this
      ensures Valid() && history == Then(old(history), Joins(n))
      ensures nodes == if n in old(nodes) then old(nodes) else old(nodes) + [n]
    {
      history := Then(history, Joins(n));
      if n in nodes {
        return;
      }
      ghost var at := PositionOf(hash);
      for i := 0 to vnodesPerNode
        invariant nodes == old(nodes) && history == Then(old(history), Joins(n))
        invariant Join(ring, n, at, i, vnodesPerNode) == Join(old(ring), n, at, 0, vnodesPerNode)
      {
        ring := Model.Put(ring, hash(VnodeKey(n, i)), n);
      }
      nodes := nodes + [n];
    }

    method RemoveNode(n: Node)
      requires Valid()
      modifies this
      ensures Valid() && history == Then(old(history), Leaves(n)) && nodes == Retain(old(nodes), n)
    {
      history := Then(history, Leaves(n));
      ring := Model.Drop(ring, n);
      forall m ensures m in Retain(nodes, n) <==> m in nodes && m != n { RetainElems(nodes, n, m); }
      nodes := Retain(nodes, n);
    }

    /** The position of a prefix hash is that of its hex string. */
    function PositionOfHash(h: Hash): u64 {
      hash(HexEncode(h))
    }

    /** That is, of its 32 lower-case hexadecimal digits. */
    lemma PositionIs(h: Hash) returns (s: string)
      ensures |s| == 32 && LowerHex(s) && HexDecode(s) == Some(h) && PositionOfHash(h) == hash(s)
      ensures forall t :: LowerHex(t) && HexDecode(t) == Some(h) ==> t == s
    {
      s := HexEncode(h);
      EncodeIsLower(h);
      HexRoundTrip(h);
      forall t | LowerHex(t) && HexDecode(t) == Some(h) ensures t == s { LowerHexUnique(t, h); }
    }

    /** Two prefix hashes whose hex strings do not collide have the same position only if they are the same. */
    lemma PositionsTell(g: Hash, h: Hash, s: string, t: string)
      requires LowerHex(s) && HexDecode(s) == Some(g) && LowerHex(t) && HexDecode(t) == Some(h)
      requires hash(s) == hash(t) ==> s == t
      ensures PositionOfHash(g) == PositionOfHash(h) <==> g == h
    {
      LowerHexUnique(s, g);
      LowerHexUnique(t, h);
    }

    method PreferredNode(h: Hash) returns (r: Option<Node>)
      requires Valid()
      ensures r == Model.Preferred(ring, PositionOfHash(h))
    {
      if ring.Empty? {
        return None;
      }
      var after := Model.From(ring, hash(HexEncode(h)));
      if after.At? {
        return Some(after.node);
      }
      return Model.First(ring);
    }

    /** The result is the first `max(n, 1)` owners of one clockwise rotation. */
    method PreferredNodes(h: Hash, n: nat) returns (result: seq<Node>)
      requires Valid()
      ensures result == SeqOf(Model.Take(Rotation(ring, PositionOfHash(h)), AtLeastOne(n)))
    {
      result := [];
      if ring.Empty? {
        return;
      }
      var pos := hash(HexEncode(h));
      var seen: set<Node> := {};
      var walk := Append(Model.Owners(Model.From(ring, pos)), Model.Owners(ring));
      RingSorted(history, PositionOf(hash), vnodesPerNode);
      WalkIsRotation(ring, pos);
      ghost var all := Outcome(result, walk, seen, AtLeastOne(n));
      while walk.Cons?
        invariant |result| < AtLeastOne(n) && Outcome(result, walk, seen, AtLeastOne(n)) == all
        decreases walk
      {
        Turn(result, walk, seen, AtLeastOne(n));
        var name := walk.head;
        if name !in seen {
          seen := seen + {name};
          result := result + [name];
          if |result| >= n {
            Over(result, walk.tail, seen, AtLeastOne(n));
            return;
          }
        }
        walk := walk.tail;
      }
      Over(result, walk, seen, AtLeastOne(n));
    }
  }
}
