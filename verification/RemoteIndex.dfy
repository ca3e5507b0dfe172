/**
 The index of blocks on other nodes (remote_index.rs) and the etcd watch loops that fill it
 (metadata.rs). `RemoteModel` is the index on values, `EtcdKeys` the key strings, `EtcdReplay` what
 replaying an event log gives.
 */
module RemoteModel {
  import opened Bytes
  import opened Lists

  type Node = string

  datatype Info = Info(nodeId: Node, nodeAddr: string, offset: int, size: int, generation: int)
  type Infos = List<Info>
  type Remote = map<Key, Infos>

  /** The entry of node `n`, if any. */
  function Of(l: Infos, n: Node): Option<Info> {
    match l
    case Nil => None
    case Cons(e, t) => if e.nodeId == n then Some(e) else Of(t, n)
  }

  /** Replaces the first entry of the same node, or appends. */
  function Upsert(l: Infos, i: Info): Infos {
    match l
    case Nil => Cons(i, Nil)
    case Cons(e, t) => if e.nodeId == i.nodeId then Cons(i, t) else Cons(e, Upsert(t, i))
  }

  function OtherNodes(l: Infos, n: Node): Infos {
    match l
    case Nil => Nil
    case Cons(e, t) => if e.nodeId == n then OtherNodes(t, n) else Cons(e, OtherNodes(t, n))
  }

  ghost predicate OnePerNode(l: Infos) {
    l.Cons? ==> Of(l.tail, l.head.nodeId) == None && OnePerNode(l.tail)
  }

  function Insert(m: Remote, k: Key, i: Info): Remote {
    m[k := if k in m then Upsert(m[k], i) else Cons(i, Nil)]
  }

  function RemoveNode(m: Remote, n: Node): Remote {
    map k | k in m && OtherNodes(m[k], n).Cons? :: OtherNodes(m[k], n)
  }

  function Find(m: Remote, k: Key, n: Node): Option<Info> {
    if k in m then Of(m[k], n) else None
  }

  /** No list is empty and no node appears twice in a list. */
  ghost predicate Sound(m: Remote) {
    forall k :: k in m ==> m[k].Cons? && OnePerNode(m[k])
  }

  lemma {:induction false} UpsertOf(l: Infos, i: Info, n: Node)
    requires OnePerNode(l)
    ensures Of(Upsert(l, i), n) == if n == i.nodeId then Some(i) else Of(l, n)
    ensures OnePerNode(Upsert(l, i)) && Upsert(l, i).Cons?
  {
    if l.Cons? {
      UpsertOf(l.tail, i, n);
      UpsertOf(l.tail, i, l.head.nodeId);
    }
  }

  lemma {:induction false} OtherNodesOf(l: Infos, x: Node, n: Node)
    requires OnePerNode(l)
    ensures Of(OtherNodes(l, x), n) == if n == x then None else Of(l, n)
    ensures OnePerNode(OtherNodes(l, x))
  {
    if l.Cons? {
      OtherNodesOf(l.tail, x, n);
      OtherNodesOf(l.tail, x, l.head.nodeId);
    }
  }

  // ---- every interleaving of events --------------------------------------------------------

  datatype Event = PutBlock(key: Key, info: Info) | DeleteBlock(key: Key) | NodeLeft(node: Node)
  datatype History = Start | Then(past: History, event: Event)

  function Apply(m: Remote, e: Event): Remote {
    match e
    case PutBlock(k, i) => Insert(m, k, i)
    case DeleteBlock(k) => m - {k}
    case NodeLeft(n) => RemoveNode(m, n)
  }

  function After(h: History): Remote {
    match h
    case Start => map[]
    case Then(past, e) => Apply(After(past), e)
  }

  /** What the latest event touching the pair left there: the data of a put, or nothing. */
  function Latest(h: History, k: Key, n: Node): Option<Info> {
    match h
    case Start => None
    case Then(past, PutBlock(l, i)) => if l == k && i.nodeId == n then Some(i) else Latest(past, k, n)
    case Then(past, DeleteBlock(l)) => if l == k then None else Latest(past, k, n)
    case Then(past, NodeLeft(x)) => if x == n then None else Latest(past, k, n)
  }

  lemma ApplyFind(m: Remote, e: Event, k: Key, n: Node)
    requires Sound(m)
    ensures Find(Apply(m, e), k, n) == match e
            case PutBlock(l, i) => if l == k && i.nodeId == n then Some(i) else Find(m, k, n)
            case DeleteBlock(l) => if l == k then None else Find(m, k, n)
            case NodeLeft(x) => if x == n then None else Find(m, k, n)
  {
    if k in m {
      match e
      case PutBlock(l, i) => UpsertOf(m[k], i, n);
      case DeleteBlock(_) =>
      case NodeLeft(x) =>
        OtherNodesOf(m[k], x, n);
        assert k in RemoveNode(m, x) <==> OtherNodes(m[k], x).Cons?;
    } else {
      assert Of(Nil, n) == None;
    }
  }

  lemma ApplySound(m: Remote, e: Event)
    requires Sound(m)
    ensures Sound(Apply(m, e))
  {
    match e
    case PutBlock(l, i) => if l in m { UpsertOf(m[l], i, i.nodeId); }
    case DeleteBlock(_) =>
    case NodeLeft(x) => forall k | k in m ensures OnePerNode(OtherNodes(m[k], x)) { OtherNodesOf(m[k], x, x); }
  }

  /** After any interleaving of block puts, block deletes and node departures, the index has an entry for
      (hash, node) exactly when the latest event touching that pair was a put, with that put's data; no
      list is empty and no node appears twice. */
  lemma {:induction false} LatestPutWins(h: History, k: Key, n: Node)
    ensures Sound(After(h)) && Find(After(h), k, n) == Latest(h, k, n)
  {
    if h.Then? {
      LatestPutWins(h.past, k, n);
      ApplyFind(After(h.past), h.event, k, n);
      ApplySound(After(h.past), h.event);
    }
  }
}

/** The order of the nodes that have a block: `lookup` answers with the first. */
module RemoteOrder {
  import opened Bytes
  import opened Lists
  import opened RemoteModel

  function Size(h: History): nat {
    if h.Start? then 0 else 1 + Size(h.past)
  }

  /** When the pair was put that has been there, if possibly with new data, ever since. */
  function Since(h: History, k: Key, n: Node): nat {
    match h
    case Start => 0
    case Then(past, PutBlock(l, i)) =>
      if l == k && i.nodeId == n && Latest(past, k, n).None? then Size(h) else Since(past, k, n)
    case Then(past, _) => Since(past, k, n)
  }

  /** Nodes that have the block longer come first. */
  ghost predicate BySince(l: Infos, h: History, k: Key) {
    l.Cons? ==>
      && BySince(l.tail, h, k)
      && forall n :: Of(l.tail, n).Some? ==> Since(h, k, l.head.nodeId) < Since(h, k, n)
  }

  lemma {:induction false} SinceBound(h: History, k: Key, n: Node)
    ensures Since(h, k, n) <= Size(h)
  {
    if h.Then? { SinceBound(h.past, k, n); }
  }

  lemma {:induction false} SameSince(l: Infos, h: History, h': History, k: Key)
    requires BySince(l, h, k) && forall n :: Of(l, n).Some? ==> Since(h', k, n) == Since(h, k, n)
    requires OnePerNode(l)
    ensures BySince(l, h', k)
  {
    if l.Cons? {
      forall n | Of(l.tail, n).Some? ensures Of(l, n).Some? { }
      SameSince(l.tail, h, h', k);
      assert Of(l, l.head.nodeId).Some?;
    }
  }

  lemma {:induction false} UpsertSince(l: Infos, i: Info, h: History, k: Key)
    requires BySince(l, h, k) && OnePerNode(l)
    requires Of(l, i.nodeId).None? ==> forall n :: Of(l, n).Some? ==> Since(h, k, n) < Since(h, k, i.nodeId)
    ensures BySince(Upsert(l, i), h, k)
  {
    if l.Cons? {
      if l.head.nodeId != i.nodeId {
        forall n | Of(l.tail, n).Some? ensures Of(l, n).Some? { }
        assert Of(l, l.head.nodeId).Some?;
        UpsertSince(l.tail, i, h, k);
        forall n | Of(Upsert(l.tail, i), n).Some? ensures Since(h, k, l.head.nodeId) < Since(h, k, n) {
          UpsertOf(l.tail, i, n);
        }
      }
    }
  }

  lemma {:induction false} OtherNodesSince(l: Infos, x: Node, h: History, k: Key)
    requires BySince(l, h, k) && OnePerNode(l)
    ensures BySince(OtherNodes(l, x), h, k)
  {
    if l.Cons? {
      OtherNodesSince(l.tail, x, h, k);
      forall n | Of(OtherNodes(l.tail, x), n).Some? ensures Since(h, k, l.head.nodeId) < Since(h, k, n) {
        OtherNodesOf(l.tail, x, n);
      }
    }
  }

  lemma {:induction false} OldestFirst(h: History, k: Key)
    ensures k in After(h) ==> BySince(After(h)[k], h, k)
  {
    if h.Then? {
      OldestFirst(h.past, k);
      LatestPutWins(h.past, k, "");
      if k in After(h.past) {
        var l := After(h.past)[k];
        forall n ensures Of(l, n) == Latest(h.past, k, n) { LatestPutWins(h.past, k, n); }
        forall n | Of(l, n).Some? ensures Since(h, k, n) == Since(h.past, k, n) <= Size(h.past) {
          SinceBound(h.past, k, n);
        }
        SameSince(l, h.past, h, k);
        match h.event
        case PutBlock(x, i) => if x == k { UpsertSince(l, i, h, k); }
        case DeleteBlock(_) =>
        case NodeLeft(x) => OtherNodesSince(l, x, h, k);
      }
    }
  }

  /** The node a remote lookup names is, of all that have the block, the one that has had it longest. */
  lemma FirstIsOldest(h: History, k: Key, n: Node)
    requires k in After(h) && Latest(h, k, n).Some?
    ensures After(h)[k].Cons?
    ensures var first := After(h)[k].head;
            && Latest(h, k, first.nodeId) == Some(first)
            && (n != first.nodeId ==> Since(h, k, first.nodeId) < Since(h, k, n))
  {
    OldestFirst(h, k);
    LatestPutWins(h, k, n);
    LatestPutWins(h, k, After(h)[k].head.nodeId);
  }
}

module EtcdKeys {
  import opened Bytes
  import opened Hex

  const BLOCKS := "/cmx/blocks/"

  /** `trim_start_matches`: the prefix is taken off as often as it occurs. */
  function Trim(s: string, prefix: string): string
    requires prefix != ""
    decreases |s|
  {
    if prefix <= s then Trim(s[|prefix|..], prefix) else s
  }

  /** The key under which a block is published. */
  function PublishKey(h: Hash): string {
    BLOCKS + HexEncode(h)
  }

  /** The hash a watcher reads from a key. */
  function DecodeKey(s: string): Option<Hash> {
    match HexDecode(Trim(s, BLOCKS))
    case Some(b) => if |b| == 16 then Some(b) else None
    case None => None
  }

  /** A block is published under the prefix and its 32 lower-case hexadecimal digits. */
  lemma PublishIs(h: Hash, s: string)
    requires LowerHex(s) && HexDecode(s) == Some(h)
    ensures PublishKey(h) == "/cmx/blocks/" + s
  {
    LowerHexUnique(s, h);
  }

  /** Encoding, prefixing, trimming and decoding give back the same 16 bytes. */
  lemma PublishRoundTrip(h: Hash)
    ensures DecodeKey(PublishKey(h)) == Some(h)
  {
    var s := HexEncode(h);
    HexHasNoSlash(h);
    HexRoundTrip(h);
    assert PublishKey(h)[|BLOCKS|..] == s;
    assert !(BLOCKS <= s);
    assert Trim(s, BLOCKS) == s;
    assert BLOCKS <= PublishKey(h);
  }

  lemma TrimOnce(prefix: string, s: string)
    requires prefix != ""
    ensures Trim(prefix + s, prefix) == Trim(s, prefix)
  {
    assert (prefix + s)[|prefix|..] == s && prefix <= prefix + s;
  }

  /** What a watcher reads from "/cmx/blocks/" and 32 hexadecimal digits of either case is their 16 bytes. */
  lemma DecodesHex(s: string)
    requires s == "" || s[0] != '/'
    ensures DecodeKey("/cmx/blocks/" + s) ==
            match HexDecode(Lowered(s)) case Some(b) => if |b| == 16 then Some(b) else None case None => None
  {
    TrimOnce(BLOCKS, s);
    EitherCase(s);
  }

  /** Not only published keys decode: a key with the prefix repeated reads as the same hash. */
  lemma RepeatedPrefixDecodes(s: string)
    ensures DecodeKey(BLOCKS + s) == DecodeKey(s)
  {
    TrimOnce(BLOCKS, s);
  }
}

/** The watch loops over etcd events. */
module EtcdReplay {
  import opened Bytes
  import opened RemoteModel
  import opened EtcdKeys

  /** An event as etcd delivers it; a value that is not a block description reads as `None`. */
  datatype RawEvent = RawPut(key: string, value: Option<Info>) | RawDelete(key: string)
  datatype RawEvents = NoMore | More(event: RawEvent, rest: RawEvents)

  /** What `watch_blocks` makes of an event: keys that do not decode to 16 bytes and values that do not
      decode are skipped. */
  function Meaning(e: RawEvent): Option<Event> {
    match DecodeKey(e.key)
    case None => None
    case Some(h) =>
      match e
      case RawPut(_, Some(i)) => Some(PutBlock(KeyOf(h), i))
      case RawPut(_, None) => None
      case RawDelete(_) => Some(DeleteBlock(KeyOf(h)))
  }

  function Watched(m: Remote, e: RawEvent): Remote {
    match Meaning(e)
    case None => m
    case Some(v) => Apply(m, v)
  }

  /** A value that is not a block description leaves the index as it is, whatever the key. */
  lemma BadValueSkipped(m: Remote, key: string)
    ensures Watched(m, RawPut(key, None)) == m
  {
  }

  function WatchedAll(m: Remote, es: RawEvents): Remote
    decreases es
  {
    match es
    case NoMore => m
    case More(e, rest) => WatchedAll(Watched(m, e), rest)
  }

  // ---- etcd itself -------------------------------------------------------------------------

  /** An event on a key that is no block key. */
  type Foreign = e: RawEvent | DecodeKey(e.key).None? witness RawDelete("")

  /** A change of a well-formed log: a node publishes a block, a block key goes away, or anything happens to a
      key that is no block key. */
  datatype Change = Publish(hash: Hash, info: Info) | Expire(hash: Hash) | Other(event: Foreign)
  datatype Log = Begin | And(change: Change, rest: Log)

  type Etcd = map<string, Info>

  function Commit(etcd: Etcd, c: Change): Etcd {
    match c
    case Publish(h, i) => etcd[PublishKey(h) := i]
    case Expire(h) => etcd - {PublishKey(h)}
    case Other(RawPut(k, Some(i))) => etcd[k := i]
    case Other(e) => etcd - {e.key}
  }

  function CommitAll(etcd: Etcd, log: Log): Etcd
    decreases log
  {
    match log
    case Begin => etcd
    case And(c, rest) => CommitAll(Commit(etcd, c), rest)
  }

  function Raw(c: Change): RawEvent {
    match c
    case Publish(h, i) => RawPut(PublishKey(h), Some(i))
    case Expire(h) => RawDelete(PublishKey(h))
    case Other(e) => e
  }

  function Raws(log: Log): RawEvents {
    match log
    case Begin => NoMore
    case And(c, rest) => More(Raw(c), Raws(rest))
  }

  /** Every key of the index is the number of a hash. */
  ghost predicate HashesOnly(m: Remote) {
    forall k :: k in m ==> exists h: Hash :: KeyOf(h) == k
  }

  /** For every hash: etcd has its key exactly when the index does, and the index lists etcd's value. And the
      index has no other keys. */
  ghost predicate Agrees(etcd: Etcd, m: Remote) {
    && Sound(m) && HashesOnly(m)
    && forall h: Hash ::
         && (PublishKey(h) in etcd <==> KeyOf(h) in m)
         && (PublishKey(h) in etcd ==> Find(m, KeyOf(h), etcd[PublishKey(h)].nodeId) == Some(etcd[PublishKey(h)]))
  }

  lemma SameHash(g: Hash, h: Hash)
    ensures PublishKey(g) == PublishKey(h) <==> g == h
    ensures KeyOf(g) == KeyOf(h) <==> g == h
  {
    PublishRoundTrip(g);
    PublishRoundTrip(h);
    if KeyOf(g) == KeyOf(h) { KeyOfInjective(g, h); }
  }

  lemma CommitAgrees(etcd: Etcd, m: Remote, c: Change)
    requires Agrees(etcd, m)
    ensures Agrees(Commit(etcd, c), Watched(m, Raw(c)))
  {
    if c.Other? {
      forall h: Hash ensures PublishKey(h) != c.event.key { PublishRoundTrip(h); }
      return;
    }
    PublishRoundTrip(c.hash);
    var etcd', e := Commit(etcd, c), Meaning(Raw(c)).value;
    var m' := Apply(m, e);
    ApplySound(m, e);
    forall h: Hash
      ensures PublishKey(h) in etcd' <==> KeyOf(h) in m'
      ensures PublishKey(h) in etcd' ==> Find(m', KeyOf(h), etcd'[PublishKey(h)].nodeId) == Some(etcd'[PublishKey(h)])
    {
      SameHash(c.hash, h);
      if PublishKey(h) in etcd' { ApplyFind(m, e, KeyOf(h), etcd'[PublishKey(h)].nodeId); }
    }
  }

  /** Replaying any well-formed log from an empty etcd, or from any state in which index and etcd
      agree, keeps them in agreement. Every prefix of a log is a log, so they agree all along. */
  lemma {:induction false} ReplayAgrees(etcd: Etcd, m: Remote, log: Log)
    requires Agrees(etcd, m)
    ensures Agrees(CommitAll(etcd, log), WatchedAll(m, Raws(log)))
    decreases log
  {
    if log.And? {
      CommitAgrees(etcd, m, log.change);
      ReplayAgrees(Commit(etcd, log.change), Watched(m, Raw(log.change)), log.rest);
    }
  }

  lemma ReplayFromEmpty(log: Log)
    ensures Agrees(CommitAll(map[], log), WatchedAll(map[], Raws(log)))
  {
    ReplayAgrees(map[], map[], log);
  }
}

module RemoteIndex {
  import opened Bytes
  import opened Lists
  import M = RemoteModel
  import E = EtcdReplay
  import HashRing
  import PlacementHistory
  import EtcdKeys

  const NODES := "/cmx/nodes/"

  /** The name read from the key a node registers under is the node's, unless it starts with the prefix. */
  lemma NodeKeyRoundTrip(id: M.Node)
    ensures EtcdKeys.Trim("/cmx/nodes/" + id, NODES) == id <==> !("/cmx/nodes/" <= id)
  {
    EtcdKeys.TrimOnce(NODES, id);
    if NODES <= id { TrimShorter(id[|NODES|..]); }
  }

  lemma {:induction false} TrimShorter(s: string)
    ensures |EtcdKeys.Trim(s, NODES)| <= |s|
    decreases |s|
  {
    if NODES <= s { TrimShorter(s[|NODES|..]); }
  }

  class Index {
    var entries: M.Remote

    ghost predicate Valid()
      reads this
    {
      M.Sound(entries)
    }

    constructor ()
      ensures Valid() && entries == map[]
    {
      entries := map[];
    }

    method Lookup(k: Key) returns (r: Option<M.Infos>)
      requires Valid()
      ensures r.Some? <==> k in entries
      ensures r.Some? ==> r.value == entries[k] && r.value.Cons?
    {
      r := if k in entries then Some(entries[k]) else None;
    }

    method Insert(k: Key, info: M.Info)
      requires Valid()
      modifies this
      ensures Valid() && entries == M.Apply(old(entries), M.PutBlock(k, info))
    {
      M.ApplySound(entries, M.PutBlock(k, info));
      if k in entries {
        entries := entries[k := M.Upsert(entries[k], info)];
      } else {
        entries := entries[k := Cons(info, Nil)];
      }
    }

    method Remove(k: Key)
      requires Valid()
      modifies this
      ensures Valid() && entries == M.Apply(old(entries), M.DeleteBlock(k))
    {
      entries := entries - {k};
    }

    method RemoveNode(n: M.Node)
      requires Valid()
      modifies this
      ensures Valid() && entries == M.Apply(old(entries), M.NodeLeft(n))
    {
      M.ApplySound(entries, M.NodeLeft(n));
      entries := map k | k in entries && M.OtherNodes(entries[k], n).Cons? :: M.OtherNodes(entries[k], n);
    }

    /** `watch_blocks` on one batch of events. */
    method WatchBlocks(events: E.RawEvents)
      requires Valid()
      modifies this
      ensures Valid() && entries == E.WatchedAll(old(entries), events)
    {
      var rest := events;
      while rest.More?
        invariant Valid() && E.WatchedAll(entries, rest) == E.WatchedAll(old(entries), events)
        decreases rest
      {
        var hash := EtcdKeys.DecodeKey(rest.event.key);
        if hash.Some? {
          match rest.event {
            case RawPut(_, Some(info)) => Insert(KeyOf(hash.value), info);
            case RawPut(_, None) =>
            case RawDelete(_) => Remove(KeyOf(hash.value));
          }
        }
        rest := rest.rest;
      }
    }

    /** `watch_nodes` on one event: a departure leaves neither blocks nor ring positions of the node. */
    method WatchNode(event: E.RawEvent, ring: HashRing.Ring)
      requires Valid() && ring.Valid()
      modifies this, ring
      ensures Valid() && ring.Valid()
      ensures var n := EtcdKeys.Trim(event.key, NODES);
              && entries == (if event.RawDelete? then M.Apply(old(entries), M.NodeLeft(n)) else old(entries))
              && ring.history == PlacementHistory.Then(old(ring.history),
                   if event.RawDelete? then PlacementHistory.Leaves(n) else PlacementHistory.Joins(n))
    {
      var n := EtcdKeys.Trim(event.key, NODES);
      match event {
        case RawPut(_, _) => ring.AddNode(n);
        case RawDelete(_) =>
          RemoveNode(n);
          ring.RemoveNode(n);
      }
    }
  }
}
