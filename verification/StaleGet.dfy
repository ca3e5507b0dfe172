/**
 A run in which `get` answers with another key's bytes. While a `get` is between its index lookup and its
 read, the key is deleted and its block reused. The new contents carry a valid checksum, so
 `read_verified`, which does not compare generations, accepts them.
 */
module StaleGet {
  import opened Bytes
  import opened Lists
  import opened BlockFormat
  import opened IndexModel
  import opened AgentProtocol
  import opened Traces
  import opened IndexAlone
  import opened AgentAlone
  import Ix = IndexProtocol

  // ---- an index of one entry ---------------------------------------------------------------

  lemma SameState(s: Ix.State, s': Ix.State)
    requires Bare(s) == Bare(s') && s.ops == s'.ops
    ensures s == s'
  {
    assert s.lru == Bare(s).recency && s'.lru == Bare(s').recency;
    forall k ensures k in s.entries <==> k in s'.entries { BareHas(s, k); BareHas(s', k); }
    forall k | k in s.entries ensures s.entries[k] == s'.entries[k] {
      BareHas(s, k);
      BareHas(s', k);
      assert [s.entries[k]][0] == [s'.entries[k]][0];
    }
    assert s.entries == s'.entries;
  }

  ghost function Single(k: Key, e: Location): Ix.State {
    Ix.State(map[k := e], Cons(k, Nil), map[])
  }

  lemma BareSingle(k: Key, e: Location)
    ensures Bare(Single(k, e)) == Index(map[k := IndexEntry([e], 0)], Cons(k, Nil)) && Bare(Ix.INITIAL) == EMPTY
  {
  }

  lemma FirstInsert(capacity: nat, t: Tid, k: Key, e: Location)
    requires capacity >= 1
    ensures Alone(capacity, Ix.Apply(capacity, Ix.INITIAL, Ix.BeginInsert(t, k, e)), t) == Single(k, e)
  {
    hide Alone;
    BareSingle(k, e);
    InsertAlone(capacity, Ix.INITIAL, t, k, e);
    assert MakeRoom(EMPTY, capacity) == EMPTY;
    SameState(Alone(capacity, Ix.Apply(capacity, Ix.INITIAL, Ix.BeginInsert(t, k, e)), t), Single(k, e));
  }

  lemma OnlyLookup(capacity: nat, t: Tid, k: Key, e: Location)
    ensures Alone(capacity, Ix.Apply(capacity, Single(k, e), Ix.BeginLookup(t, k)), t) == Single(k, e)
  {
    hide Alone;
    BareSingle(k, e);
    LookupAlone(capacity, Single(k, e), t, k);
    assert Without(Cons(k, Nil), k) == Without(Nil, k);
    SameState(Alone(capacity, Ix.Apply(capacity, Single(k, e), Ix.BeginLookup(t, k)), t), Single(k, e));
  }

  lemma OnlyRemove(capacity: nat, t: Tid, k: Key, e: Location)
    ensures Alone(capacity, Ix.Apply(capacity, Single(k, e), Ix.BeginRemove(t, k)), t) == Ix.INITIAL
  {
    hide Alone;
    BareSingle(k, e);
    RemoveAlone(capacity, Single(k, e), t, k);
    assert Without(Cons(k, Nil), k) == Without(Nil, k);
    assert map[k := IndexEntry([e], 0)] - {k} == map[];
    SameState(Alone(capacity, Ix.Apply(capacity, Single(k, e), Ix.BeginRemove(t, k)), t), Ix.INITIAL);
  }

  // ---- the run -----------------------------------------------------------------------------

  lemma Begins(c: Config)
    requires Sane(c)
    ensures var v := CoreOf(Initial(c));
            && Is(c, Start, v) && v.ix == Ix.INITIAL && v.gen == 1 && v.requests == map[] && v.stamps == map[]
            && v.level == 0 && v.free.Cons? && v.free.head in v.mem
            && |v.mem[v.free.head].body| + HEADER_SIZE == c.blockSize
  {
    assert Countdown(c.totalBlocks).head in Elems(Countdown(c.totalBlocks));
  }

  /** A store into an empty index. */
  lemma StoresFirst(c: Config, tr: Trace, v: Core, t: Tid, k: Key, d: seq<byte>) returns (tr': Trace)
    requires Is(c, tr, v) && v.ix == Ix.INITIAL && t !in v.requests && v.level == 0 && v.gen < WRAP && c.capacity >= 1
    requires v.free.Cons? && v.free.head in v.mem
    requires |d| + HEADER_SIZE <= c.blockSize && |d| <= |v.mem[v.free.head].body|
    ensures Is(c, tr', Written(c, v, k, d).(ix := Single(k, LocationOf(c, v.free.head, v.gen))))
  {
    hide Alone, Is, Written;
    FirstInsert(c.capacity, t, k, LocationOf(c, v.free.head, v.gen));
    tr' := StoreRuns(c, tr, v, t, k, d);
  }

  lemma OverwriteReads(crc: Crc, m: Block, d: seq<byte>, g: nat)
    requires |d| <= |m.body| < 0x1_0000_0000
    ensures ReadBlock(crc, Block(NewHeader(crc, d, g), Overwrite(m.body, d))) == Some(d)
  {
  }

  /** Whatever the checksum function, the pool, the two keys and the two byte strings, there is a run in which
      the only bytes ever stored under `k` are `d`, and a `get` of `k` answers `e`, stored under `l`. */
  lemma GetMayReturnAnotherKeysBytes(c: Config, k: Key, d: seq<byte>, l: Key, e: seq<byte>) returns (tr: Trace)
    requires Sane(c) && c.capacity >= 1
    requires |d| + HEADER_SIZE <= c.blockSize && |e| + HEADER_SIZE <= c.blockSize
    ensures Run(c, tr)
    ensures var b := c.totalBlocks - 1;
            && After(c, tr).stamps == map[1 := Stamp(k, d, b, Complete), 2 := Stamp(l, e, b, Complete)]
            && After(c, tr).requests == map[7 := GetDone(k, LocationOf(c, b, 1), NewHeader(c.crc, e, 2), Some(e))]
  {
    hide Alone, Apply, Enabled, Overwrite, NewHeader, ReadBlock;
    Begins(c);
    var v0 := CoreOf(Initial(c));
    var b := v0.free.head;
    tr := StoresFirst(c, Start, v0, 8, k, d);
    var loc := LocationOf(c, b, 1);
    var v1 := Written(c, v0, k, d).(ix := Single(k, loc));
    OnlyLookup(c.capacity, 7, k, loc);
    tr := LookRuns(c, tr, v1, 7, k);
    var v2 := Doing(v1, 7, GetHeader(k, loc));
    OnlyRemove(c.capacity, 9, k, loc);
    tr := DeleteRuns(c, tr, v2, 9, k);
    var v3 := v2.(ix := Ix.INITIAL, free := Cons(b, v1.free));
    tr := StoresFirst(c, tr, v3, 10, l, e);
    var v4 := Written(c, v3, l, e).(ix := Single(l, LocationOf(c, b, 2)), requests := map[]);
    OverwriteReads(c.crc, v3.mem[b], e, 2);
    tr := ReadsBlock(c, tr, v4, 7, k, loc);
  }
}
