/**
 Block hashing (hashing.py) and the scheduler side of the vLLM connector (connector.py): how many
 prompt tokens are cached, and which blocks to load for them. The agent's answer to a batch lookup is
 a parameter `cached`, SHA-256 a parameter `sha`.
 */
module Chunking {
  datatype Blocks = NoBlocks | Block(head: seq<int>, tail: Blocks)

  function Min(a: int, b: int): int {
    if a <= b then a else b
  }

  /** `s[:n]`. */
  function Prefix(s: seq<int>, n: nat): seq<int> {
    s[..Min(n, |s|)]
  }

  /** Consecutive blocks of `size` tokens; the last may be shorter. */
  function Chunks(s: seq<int>, size: nat): Blocks
    requires size > 0
    decreases |s|
  {
    if s == [] then NoBlocks
    else
      var n := Min(size, |s|);
      Block(s[..n], Chunks(s[n..], size))
  }

  function Count(b: Blocks): nat {
    match b
    case NoBlocks => 0
    case Block(_, t) => 1 + Count(t)
  }

  function Take(b: Blocks, n: nat): Blocks {
    match b
    case NoBlocks => NoBlocks
    case Block(x, t) => if n == 0 then NoBlocks else Block(x, Take(t, n - 1))
  }

  function Join(b: Blocks): seq<int> {
    match b
    case NoBlocks => []
    case Block(x, t) => x + Join(t)
  }

  /** Nothing is lost by splitting. */
  lemma {:induction false} JoinChunks(s: seq<int>, size: nat)
    requires size > 0
    ensures Join(Chunks(s, size)) == s
    decreases |s|
  {
    if s != [] {
      var n := Min(size, |s|);
      JoinChunks(s[n..], size);
      assert s[..n] + s[n..] == s;
    }
  }

  lemma NextBlock(s: seq<int>, size: nat)
    requires size > 0 && s != []
    ensures var n := Min(size, |s|); Chunks(s, size) == Block(s[..n], Chunks(s[n..], size))
  {
  }

  lemma NoBlock(size: nat)
    requires size > 0
    ensures Chunks([], size) == NoBlocks
  {
  }

  /** The first `m` blocks are the blocks of the first `m * size` tokens. */
  lemma {:induction false} FirstChunks(s: seq<int>, size: nat, m: nat)
    requires size > 0
    ensures Take(Chunks(s, size), m) == Chunks(Prefix(s, m * size), size)
    decreases m
  {
    hide Chunks;
    NoBlock(size);
    if m == 0 {
      assert m * size == 0;
      assert Prefix(s, 0) == [];
      if s != [] { NextBlock(s, size); }
    } else if s != [] {
      FirstChunks(s[Min(size, |s|)..], size, m - 1);
      assert m * size == (m - 1) * size + size;
      TailOfPrefix(s, size, (m - 1) * size);
      NextBlock(s, size);
      NextBlock(Prefix(s, m * size), size);
    } else {
      assert Prefix(s, m * size) == [];
    }
  }

  lemma TailOfPrefix(s: seq<int>, size: nat, rest: nat)
    requires s != [] && size > 0
    ensures var n, p := Min(size, |s|), Prefix(s, rest + size);
            p != [] && Min(size, |p|) == n && p[..n] == s[..n] && p[n..] == Prefix(s[n..], rest)
  {
    var n, p := Min(size, |s|), Prefix(s, rest + size);
    assert |p| == Min(rest + size, |s|);
    assert p[..n] == s[..n];
    assert p[n..] == Prefix(s[n..], rest);
  }

  /** There are `ceil(|s| / size)` blocks. */
  lemma {:induction false} ChunkCount(s: seq<int>, size: nat)
    requires size > 0
    ensures |s| <= Count(Chunks(s, size)) * size < |s| + size
    decreases |s|
  {
    if s != [] {
      var n := Min(size, |s|);
      ChunkCount(s[n..], size);
      var c := Count(Chunks(s[n..], size));
      assert (c + 1) * size == c * size + size;
      if n < size { assert s[n..] == []; }
    }
  }
}

module Connector {
  import opened Bytes
  import opened Chunking

  datatype Error = ValueError | StructError

  /** A Python slice of non-negative bounds. */
  function Slice(s: seq<int>, lo: nat, hi: nat): seq<int>
    requires lo <= hi
  {
    s[Min(lo, |s|)..Min(hi, |s|)]
  }

  function Times(i: nat, size: nat): nat {
    i * size
  }

  lemma TimesZero(size: nat)
    ensures Times(0, size) == 0
  {
  }

  lemma TimesNext(size: nat, n: nat)
    ensures Times(n + 1, size) == Times(n, size) + size
  {
  }

  // ---- hashing -----------------------------------------------------------------------------

  predicate Int32(x: int) {
    -0x8000_0000 <= x < 0x8000_0000
  }

  /** `struct.pack` of little-endian 32-bit integers. */
  function Pack(block: seq<int>): seq<byte> {
    if block == [] then [] else ToLE(block[0] % 0x1_0000_0000, 4) + Pack(block[1..])
  }

  lemma {:induction false} PackLength(block: seq<int>)
    ensures |Pack(block)| == 4 * |block|
  {
    if block != [] { PackLength(block[1..]); }
  }

  /** Four bytes a token: the bytes of token `i` are its value modulo 2^32, low byte first. */
  lemma {:induction false} PackDecodes(block: seq<int>, i: nat)
    requires i < |block|
    ensures |Pack(block)| == 4 * |block| && FromLE(Pack(block)[4 * i..4 * i + 4]) == block[i] % 0x1_0000_0000
  {
    PackLength(block);
    PackLength(block[1..]);
    var head := ToLE(block[0] % 0x1_0000_0000, 4);
    if i == 0 {
      Widths();
      LERoundTrip(block[0] % 0x1_0000_0000, 4);
      assert Pack(block)[0..4] == head;
    } else {
      PackDecodes(block[1..], i - 1);
      assert Pack(block)[4 * i..4 * i + 4] == Pack(block[1..])[4 * (i - 1)..4 * (i - 1) + 4];
    }
  }

  /** Different blocks of 32-bit tokens are hashed from different bytes. */
  lemma PackInjective(a: seq<int>, b: seq<int>)
    requires AllInt32(a) && AllInt32(b) && Pack(a) == Pack(b)
    ensures a == b
  {
    PackLength(a);
    PackLength(b);
    forall i | 0 <= i < |a| ensures a[i] == b[i] {
      PackDecodes(a, i);
      PackDecodes(b, i);
      SameToken(a[i], b[i]);
    }
  }

  lemma SameToken(x: int, y: int)
    requires Int32(x) && Int32(y) && x % 0x1_0000_0000 == y % 0x1_0000_0000
    ensures x == y
  {
  }

  function BlockHash(sha: Sha, block: seq<int>): Hash {
    sha(Pack(block))[..16]
  }

  function HashAll(sha: Sha, b: Blocks): (h: seq<Hash>)
    ensures |h| == Count(b)
  {
    match b
    case NoBlocks => []
    case Block(x, t) => [BlockHash(sha, x)] + HashAll(sha, t)
  }

  ghost predicate AllInt32(tokens: seq<int>) {
    forall i :: 0 <= i < |tokens| ==> Int32(tokens[i])
  }

  /** `hash_token_ids`: a zero step and a token outside 32 bits are errors, a negative step gives nothing. */
  ghost function HashTokens(sha: Sha, tokens: seq<int>, size: int): Result<seq<Hash>, Error> {
    if size == 0 then Err(ValueError)
    else if size < 0 then Ok([])
    else if !AllInt32(tokens) then Err(StructError)
    else Ok(HashAll(sha, Chunks(tokens, size)))
  }

  /** What the loop will have gathered at the end, with the tokens `rest` still to go. */
  function Gathered(sha: Sha, hashes: seq<Hash>, rest: seq<int>, size: nat): seq<Hash>
    requires size > 0
  {
    hashes + HashAll(sha, Chunks(rest, size))
  }

  lemma NextChunk(sha: Sha, hashes: seq<Hash>, rest: seq<int>, size: nat)
    requires size > 0 && rest != []
    ensures var n := Min(size, |rest|);
            Gathered(sha, hashes, rest, size) == Gathered(sha, hashes + [BlockHash(sha, rest[..n])], rest[n..], size)
  {
    var n := Min(size, |rest|);
    var tail := HashAll(sha, Chunks(rest[n..], size));
    assert HashAll(sha, Chunks(rest, size)) == [BlockHash(sha, rest[..n])] + tail;
    assert hashes + ([BlockHash(sha, rest[..n])] + tail) == (hashes + [BlockHash(sha, rest[..n])]) + tail;
  }

  lemma NoMoreChunks(sha: Sha, hashes: seq<Hash>, size: nat)
    requires size > 0
    ensures Gathered(sha, hashes, [], size) == hashes && Gathered(sha, [], [], size) == []
  {
    assert hashes + [] == hashes;
  }

  /** When hashing fails, and how many hashes there are otherwise. */
  lemma HashOutcome(sha: Sha, tokens: seq<int>, size: int)
    ensures HashTokens(sha, tokens, size) == Err(ValueError) <==> size == 0
    ensures HashTokens(sha, tokens, size) == Err(StructError) <==>
              size > 0 && exists i :: 0 <= i < |tokens| && !(-0x8000_0000 <= tokens[i] <= 0x7FFF_FFFF)
    ensures match HashTokens(sha, tokens, size)
            case Ok(hashes) => if size < 0 then hashes == [] else |tokens| <= |hashes| * size < |tokens| + size
            case Err(_) => true
  {
    if size > 0 { ChunkCount(tokens, size); }
    if !AllInt32(tokens) {
      var i :| 0 <= i < |tokens| && !Int32(tokens[i]);
      assert !(-0x8000_0000 <= tokens[i] <= 0x7FFF_FFFF);
    }
  }

  lemma {:induction false} HashAt(sha: Sha, tokens: seq<int>, size: nat, i: nat)
    requires size > 0 && Times(i, size) < |tokens|
    ensures var hashes := HashAll(sha, Chunks(tokens, size));
            i < |hashes| && hashes[i] == BlockHash(sha, Slice(tokens, Times(i, size), Times(i, size) + size))
    decreases i
  {
    hide BlockHash, Times, Chunks;
    NextBlock(tokens, size);
    TimesZero(size);
    if i == 0 {
      assert Slice(tokens, 0, size) == tokens[..Min(size, |tokens|)];
    } else {
      TimesNext(size, i - 1);
      HashAt(sha, tokens[size..], size, i - 1);
      SliceShift(tokens, size, Times(i - 1, size));
    }
  }

  lemma SliceShift(s: seq<int>, n: nat, lo: nat)
    requires n <= |s|
    ensures Slice(s[n..], lo, lo + n) == Slice(s, lo + n, lo + n + n)
  {
  }

  /** Hash `i` is the first 16 bytes of the digest of the tokens from `i * size` on, one block of them, each in
      four bytes, low byte first. */
  lemma HashIsOfItsTokens(sha: Sha, tokens: seq<int>, size: nat, i: nat) returns (packed: seq<byte>)
    requires size > 0 && AllInt32(tokens) && i * size < |tokens|
    ensures match HashTokens(sha, tokens, size)
            case Ok(hashes) => i < |hashes| && hashes[i] == sha(packed)[..16]
            case Err(_) => false
    ensures var n := if i * size + size <= |tokens| then size else |tokens| - i * size;
            && |packed| == 4 * n
            && forall j :: 0 <= j < n ==> FromLE(packed[4 * j..4 * j + 4]) == tokens[i * size + j] % 0x1_0000_0000
  {
    HashAt(sha, tokens, size, i);
    var block := Slice(tokens, i * size, i * size + size);
    packed := Pack(block);
    PackLength(block);
    forall j | 0 <= j < |block|
      ensures FromLE(packed[4 * j..4 * j + 4]) == tokens[i * size + j] % 0x1_0000_0000
    {
      PackDecodes(block, j);
      assert block[j] == tokens[i * size + j];
    }
  }

  method HashTokenIds(sha: Sha, tokens: seq<int>, size: int) returns (r: Result<seq<Hash>, Error>)
    ensures r == HashTokens(sha, tokens, size)
  {
    if size == 0 {
      return Err(ValueError);
    }
    var hashes: seq<Hash> := [];
    if size < 0 {
      return Ok(hashes);
    }
    var start := 0;
    var rest := tokens;
    ghost var all := Gathered(sha, [], tokens, size);
    assert all == HashAll(sha, Chunks(tokens, size));
    while start < |tokens|
      invariant 0 <= start && rest == tokens[Min(start, |tokens|)..]
      invariant AllInt32(tokens) <==> AllInt32(rest)
      invariant Gathered(sha, hashes, rest, size) == all
      decreases |tokens| - start
    {
      var block := rest[..Min(size, |rest|)];
      Split(rest, Min(size, |rest|));
      if exists i :: 0 <= i < |block| && !Int32(block[i]) {
        return Err(StructError);
      }
      NextChunk(sha, hashes, rest, size);
      hashes := hashes + [BlockHash(sha, block)];
      rest := rest[Min(size, |rest|)..];
      start := start + size;
    }
    NoMoreChunks(sha, hashes, size);
    return Ok(hashes);
  }

  lemma Split(s: seq<int>, n: nat)
    requires n <= |s|
    ensures AllInt32(s) <==> AllInt32(s[..n]) && AllInt32(s[n..])
  {
    if AllInt32(s[..n]) && AllInt32(s[n..]) {
      forall i | 0 <= i < |s| ensures Int32(s[i]) {
        if i < n { assert s[..n][i] == s[i]; } else { assert s[n..][i - n] == s[i]; }
      }
    }
  }

  // ---- matching ----------------------------------------------------------------------------

  type Cached = Hash -> bool

  /** The leading hits of a batch lookup of these hashes. */
  function Leading(cached: Cached, hashes: seq<Hash>): (n: nat)
    ensures n <= |hashes|
    ensures (forall i :: 0 <= i < n ==> cached(hashes[i])) && (n < |hashes| ==> !cached(hashes[n]))
  {
    if hashes == [] || !cached(hashes[0]) then 0 else 1 + Leading(cached, hashes[1..])
  }

  lemma {:induction false} LeadingUnique(cached: Cached, hashes: seq<Hash>, n: nat)
    requires n <= |hashes| && (forall i :: 0 <= i < n ==> cached(hashes[i])) && (n < |hashes| ==> !cached(hashes[n]))
    ensures n == Leading(cached, hashes)
  {
    if n > 0 { LeadingUnique(cached, hashes[1..], n - 1); }
  }

  ghost function MatchedTokens(sha: Sha, cached: Cached, tokens: seq<int>, size: int, computed: nat):
    Result<int, Error>
  {
    if |tokens| <= computed then Ok(0)
    else
      match HashTokens(sha, tokens[computed..], size)
      case Err(e) => Err(e)
      case Ok(hashes) => Ok(Leading(cached, hashes) * size)
  }

  method GetNumNewMatchedTokens(sha: Sha, cached: Cached, tokens: seq<int>, size: int, computed: nat)
    returns (r: Result<int, Error>)
    ensures r == MatchedTokens(sha, cached, tokens, size, computed)
  {
    if tokens == [] || |tokens| <= computed {
      return Ok(0);
    }
    var hashes := HashTokenIds(sha, tokens[computed..], size);
    if hashes.Err? {
      return Err(hashes.error);
    }
    if hashes.value == [] {
      return Ok(0);
    }
    var found := seq(|hashes.value|, i requires 0 <= i < |hashes.value| => cached(hashes.value[i]));
    var matched := 0;
    while matched < |found| && found[matched]
      invariant 0 <= matched <= |found| && forall i :: 0 <= i < matched ==> found[i]
    {
      matched := matched + 1;
    }
    assert forall i :: 0 <= i < |found| ==> found[i] == cached(hashes.value[i]);
    LeadingUnique(cached, hashes.value, matched);
    return Ok(matched * size);
  }

  // ---- loading -----------------------------------------------------------------------------

  datatype LoadTask = LoadTask(hash: Hash, blockIds: seq<int>, numTokens: int)

  function TaskAt(hashes: seq<Hash>, ids: seq<int>, size: nat, count: int, i: nat): LoadTask
    requires i < |hashes|
  {
    var at := Times(i, size);
    LoadTask(hashes[i], if ids == [] then [] else Slice(ids, at, at + size), Min(size, count - at))
  }

  /** Load tasks for the first `n` hashes. */
  function Tasks(hashes: seq<Hash>, ids: seq<int>, size: nat, count: int, n: nat): (s: seq<LoadTask>)
    requires n <= |hashes|
    ensures |s| == n && forall i :: 0 <= i < n ==> s[i] == TaskAt(hashes, ids, size, count, i)
  {
    if n == 0 then [] else Tasks(hashes, ids, size, count, n - 1) + [TaskAt(hashes, ids, size, count, n - 1)]
  }

  class Request {
    const tokenIds: seq<int>
    var loadTasks: seq<LoadTask>

    constructor (tokenIds: seq<int>)
      ensures this.tokenIds == tokenIds && loadTasks == []
    {
      this.tokenIds, loadTasks := tokenIds, [];
    }

    /** Appends one load task for each block of the first `count` tokens. */
    method UpdateStateAfterAlloc(sha: Sha, ids: seq<int>, size: int, count: int) returns (r: Result<int, Error>)
      modifies this
      ensures count <= 0 ==> r == Ok(0) && loadTasks == old(loadTasks)
      ensures count > 0 ==>
        match HashTokens(sha, Prefix(tokenIds, count), size)
        case Err(e) => r == Err(e) && loadTasks == old(loadTasks)
        case Ok(hashes) =>
          && r == Ok(|hashes|)
          && loadTasks == old(loadTasks) + (if size < 0 then [] else Tasks(hashes, ids, size, count, |hashes|))
    {
      if count <= 0 {
        return Ok(0);
      }
      var hashes := HashTokenIds(sha, Prefix(tokenIds, count), size);
      if hashes.Err? {
        return Err(hashes.error);
      }
      var hs := hashes.value;
      for i := 0 to |hs|
        invariant loadTasks == old(loadTasks) + (if size < 0 then [] else Tasks(hs, ids, size, count, i))
      {
        loadTasks := loadTasks + [TaskAt(hs, ids, size, count, i)];
      }
      return Ok(|hs|);
    }
  }

  /** The tokens of the first `n` tasks together. */
  function Tokens(tasks: seq<LoadTask>, n: nat): int
    requires n <= |tasks|
  {
    if n == 0 then 0 else Tokens(tasks, n - 1) + tasks[n - 1].numTokens
  }

  lemma {:induction false} HashTake(sha: Sha, b: Blocks, m: nat)
    requires m <= Count(b)
    ensures HashAll(sha, Take(b, m)) == HashAll(sha, b)[..m]
  {
    if b.Block? && m > 0 {
      HashTake(sha, b.tail, m - 1);
      assert HashAll(sha, b)[..m] == [BlockHash(sha, b.head)] + HashAll(sha, b.tail)[..m - 1];
    }
  }

  lemma {:induction false} Scale(size: nat, m: nat, n: nat)
    requires n <= m
    ensures n * size <= m * size
    decreases m - n
  {
    if n < m {
      Scale(size, m, n + 1);
      assert (n + 1) * size == n * size + size;
    }
  }

  lemma WholeBlock(hashes: seq<Hash>, ids: seq<int>, size: nat, m: nat, i: nat)
    requires i < m && i < |hashes|
    ensures TaskAt(hashes, ids, size, Times(m, size), i).numTokens == size
  {
    Scale(size, m, i + 1);
    TimesNext(size, i);
  }

  lemma {:induction false} TokensOfFirst(tasks: seq<LoadTask>, fewer: seq<LoadTask>, n: nat)
    requires n <= |fewer| <= |tasks| && fewer == tasks[..|fewer|]
    ensures Tokens(tasks, n) == Tokens(fewer, n)
  {
    if n > 0 { TokensOfFirst(tasks, fewer, n - 1); }
  }

  /** If the last of `n` load tasks has any tokens, all together have `count` tokens, or fill `n` blocks. */
  lemma {:induction false} TokensAddUp(hashes: seq<Hash>, ids: seq<int>, size: nat, count: nat, n: nat)
    requires n <= |hashes| && (n == 0 || Times(n - 1, size) < count)
    ensures Tokens(Tasks(hashes, ids, size, count, n), n) == Min(count, Times(n, size))
  {
    hide Times;
    if n == 0 {
      TimesZero(size);
    } else {
      if n > 1 { TimesNext(size, n - 2); }
      TokensAddUp(hashes, ids, size, count, n - 1);
      TokensOfFirst(Tasks(hashes, ids, size, count, n), Tasks(hashes, ids, size, count, n - 1), n - 1);
      TimesNext(size, n - 1);
      TimesZero(size);
    }
  }

  /** The load tasks for the first `count` tokens of a prompt have that many tokens together. */
  lemma LoadsTheCount(sha: Sha, tokens: seq<int>, size: nat, count: nat, ids: seq<int>)
    requires size > 0 && AllInt32(tokens) && count <= |tokens|
    ensures var r := HashTokens(sha, Prefix(tokens, count), size);
            r.Ok? && Tokens(Tasks(r.value, ids, size, count, |r.value|), |r.value|) == count
  {
    Split(tokens, count);
    HashOutcome(sha, Prefix(tokens, count), size);
    var n := |HashTokens(sha, Prefix(tokens, count), size).value|;
    if n > 0 { TimesNext(size, n - 1); }
    TokensAddUp(HashTokens(sha, Prefix(tokens, count), size).value, ids, size, count, n);
  }

  lemma PrefixHits(sha: Sha, tokens: seq<int>, size: nat, m: nat)
    requires size > 0 && AllInt32(tokens) && m <= Count(Chunks(tokens, size))
    ensures HashTokens(sha, Prefix(tokens, m * size), size) == Ok(HashAll(sha, Chunks(tokens, size))[..m])
    ensures m * size < |tokens| + size
  {
    FirstChunks(tokens, size, m);
    HashTake(sha, Chunks(tokens, size), m);
    ChunkCount(tokens, size);
    Scale(size, Count(Chunks(tokens, size)), m);
    Split(tokens, Min(m * size, |tokens|));
  }

  /** The block ids of the first `n` tasks, joined. */
  function Ids(tasks: seq<LoadTask>, n: nat): seq<int>
    requires n <= |tasks|
  {
    if n == 0 then [] else Ids(tasks, n - 1) + tasks[n - 1].blockIds
  }

  /** What one load task is for. */
  lemma TaskIs(hashes: seq<Hash>, ids: seq<int>, size: nat, count: int, i: nat)
    requires i < |hashes|
    ensures TaskAt(hashes, ids, size, count, i) ==
            LoadTask(hashes[i], Slice(ids, i * size, i * size + size), Min(size, count - i * size))
  {
  }

  lemma {:induction false} IdsJoin(hashes: seq<Hash>, ids: seq<int>, size: nat, count: int, n: nat)
    requires n <= |hashes|
    ensures Ids(Tasks(hashes, ids, size, count, n), n) == Prefix(ids, Times(n, size))
  {
    hide Times, Prefix, Slice;
    if n == 0 {
      NoIds(ids, size);
    } else {
      IdsJoin(hashes, ids, size, count, n - 1);
      var tasks, fewer := Tasks(hashes, ids, size, count, n), Tasks(hashes, ids, size, count, n - 1);
      IdsOfFirst(tasks, fewer, n - 1);
      TimesNext(size, n - 1);
      NextIds(ids, Times(n - 1, size), size);
    }
  }

  lemma NoIds(ids: seq<int>, size: nat)
    ensures Prefix(ids, Times(0, size)) == []
  {
  }

  lemma NextIds(ids: seq<int>, at: nat, size: nat)
    ensures Prefix(ids, at) + (if ids == [] then [] else Slice(ids, at, at + size)) == Prefix(ids, at + size)
  {
  }

  lemma {:induction false} IdsOfFirst(tasks: seq<LoadTask>, fewer: seq<LoadTask>, n: nat)
    requires n <= |fewer| <= |tasks| && fewer == tasks[..|fewer|]
    ensures Ids(tasks, n) == Ids(fewer, n)
  {
    if n > 0 { IdsOfFirst(tasks, fewer, n - 1); }
  }

  /** With nothing computed beforehand, the load tasks built from the returned count are one for each leading
      hit of the lookup: task `i` carries hash `i`, which is cached, and block ids `i * size` to
      `(i + 1) * size`; joined they are the first block ids given. The token counts add up to the count
      returned, and it exceeds the prompt by less than one block. */
  lemma LoadsTheHits(sha: Sha, cached: Cached, tokens: seq<int>, size: nat, ids: seq<int>)
    requires size > 0 && AllInt32(tokens)
    ensures var hashes := HashAll(sha, Chunks(tokens, size));
            var m := Leading(cached, hashes);
            var tasks := Tasks(hashes[..m], ids, size, m * size, m);
            && HashTokens(sha, tokens, size) == Ok(hashes)
            && MatchedTokens(sha, cached, tokens, size, 0) == Ok(m * size)
            && HashTokens(sha, Prefix(tokens, m * size), size) == Ok(hashes[..m])
            && (forall i :: 0 <= i < m ==>
                  && tasks[i].hash == hashes[i] && cached(hashes[i]) && tasks[i].numTokens == size
                  && tasks[i].blockIds == Slice(ids, i * size, i * size + size))
            && (m < |hashes| ==> !cached(hashes[m]))
            && Ids(tasks, m) == Prefix(ids, m * size)
            && Tokens(tasks, m) == m * size
            && m * size < |tokens| + size
  {
    var hashes := HashAll(sha, Chunks(tokens, size));
    var m := Leading(cached, hashes);
    PrefixHits(sha, tokens, size, m);
    if m > 0 { TimesNext(size, m - 1); }
    TokensAddUp(hashes[..m], ids, size, m * size, m);
    IdsJoin(hashes[..m], ids, size, m * size, m);
    assert tokens[0..] == tokens;
    forall i | 0 <= i < m
      ensures TaskAt(hashes[..m], ids, size, m * size, i) ==
              LoadTask(hashes[i], Slice(ids, i * size, i * size + size), size)
    {
      TaskIs(hashes[..m], ids, size, m * size, i);
      WholeBlock(hashes[..m], ids, size, m, i);
    }
  }

  /** The scheduler's two calls, one after the other, on a request with nothing computed: the new load tasks
      are for the cached blocks at the start of the prompt, in order, each with its own block ids. */
  method MatchThenLoad(request: Request, sha: Sha, cached: Cached, size: nat, ids: seq<int>)
    returns (matched: Result<int, Error>, ghost hashes: seq<Hash>)
    requires size > 0 && AllInt32(request.tokenIds)
    modifies request
    ensures HashTokens(sha, request.tokenIds, size) == Ok(hashes)
    ensures var done, tasks := |old(request.loadTasks)|, request.loadTasks;
            && done <= |tasks| && tasks[..done] == old(request.loadTasks)
            && var m := |tasks| - done;
            && m <= |hashes| && matched == Ok(m * size) && (m < |hashes| ==> !cached(hashes[m]))
            && (forall i :: 0 <= i < m ==>
                  && tasks[done + i].hash == hashes[i] && cached(hashes[i]) && tasks[done + i].numTokens == size
                  && tasks[done + i].blockIds == Slice(ids, i * size, i * size + size))
            && Ids(tasks[done..], m) == Prefix(ids, m * size)
  {
    hide HashAll, Chunks, TaskAt, Ids, Tokens, HashTokens, MatchedTokens, Slice, Prefix;
    hashes := HashAll(sha, Chunks(request.tokenIds, size));
    ghost var m := Leading(cached, hashes);
    LoadsTheHits(sha, cached, request.tokenIds, size, ids);
    matched := GetNumNewMatchedTokens(sha, cached, request.tokenIds, size, 0);
    var _ := request.UpdateStateAfterAlloc(sha, ids, size, matched.value);
    ghost var tasks := Tasks(hashes[..m], ids, size, m * size, m);
    if m == 0 {
      assert m * size == 0;
      assert tasks == [];
    } else {
      Scale(size, m, 1);
    }
    assert request.loadTasks == old(request.loadTasks) + tasks;
    assert request.loadTasks[|old(request.loadTasks)|..] == tasks;
  }

  // ---- telling prompts apart ---------------------------------------------------------------

  /** No two different packed blocks in the same place have the same truncated digest. */
  ghost predicate Tells(sha: Sha, x: Blocks, y: Blocks) {
    x.Block? && y.Block? ==>
      && (sha(Pack(x.head))[..16] == sha(Pack(y.head))[..16] ==> Pack(x.head) == Pack(y.head))
      && Tells(sha, x.tail, y.tail)
  }

  ghost predicate AllBlocksInt32(b: Blocks) {
    b.Block? ==> AllInt32(b.head) && AllBlocksInt32(b.tail)
  }

  lemma {:induction false} ChunksInt32(s: seq<int>, size: nat)
    requires size > 0 && AllInt32(s)
    ensures AllBlocksInt32(Chunks(s, size))
    decreases |s|
  {
    if s != [] {
      Split(s, Min(size, |s|));
      ChunksInt32(s[Min(size, |s|)..], size);
    }
  }

  lemma {:induction false} SameHashes(sha: Sha, x: Blocks, y: Blocks)
    requires Tells(sha, x, y) && AllBlocksInt32(x) && AllBlocksInt32(y)
    ensures HashAll(sha, x) == HashAll(sha, y) <==> x == y
  {
    if x.Block? && y.Block? {
      SameHashes(sha, x.tail, y.tail);
      if HashAll(sha, x) == HashAll(sha, y) {
        assert BlockHash(sha, x.head) == HashAll(sha, x)[0] == HashAll(sha, y)[0] == BlockHash(sha, y.head);
        assert HashAll(sha, x.tail) == HashAll(sha, x)[1..] == HashAll(sha, y)[1..] == HashAll(sha, y.tail);
        PackInjective(x.head, y.head);
      }
    }
  }

  /** Without such a collision two prompts have the same hashes if and only if they are the same prompt. */
  lemma HashesTellPrompts(sha: Sha, s: seq<int>, t: seq<int>, size: nat)
    requires size > 0 && AllInt32(s) && AllInt32(t) && Tells(sha, Chunks(s, size), Chunks(t, size))
    ensures HashTokens(sha, s, size) == HashTokens(sha, t, size) <==> s == t
  {
    ChunksInt32(s, size);
    ChunksInt32(t, size);
    SameHashes(sha, Chunks(s, size), Chunks(t, size));
    JoinChunks(s, size);
    JoinChunks(t, size);
  }

  // ---- tokens computed beforehand ----------------------------------------------------------

  /** With `computed` tokens already there the lookup hashes the tokens after them, but load tasks hash the
      prompt from its start. They carry the leading hits if and only if the prompt, as far as the count
      returned, reads the same from both places. */
  lemma LoadsTheHitsExactly(sha: Sha, cached: Cached, tokens: seq<int>, size: nat, computed: nat)
    requires size > 0 && AllInt32(tokens) && computed < |tokens|
    ensures var rest := tokens[computed..];
            var hashes := HashAll(sha, Chunks(rest, size));
            var count := Leading(cached, hashes) * size;
            && MatchedTokens(sha, cached, tokens, size, computed) == Ok(count)
            && HashTokens(sha, rest, size) == Ok(hashes)
            && (Tells(sha, Chunks(Prefix(tokens, count), size), Chunks(Prefix(rest, count), size)) ==>
                  (HashTokens(sha, Prefix(tokens, count), size) == Ok(hashes[..Leading(cached, hashes)]) <==>
                   Prefix(tokens, count) == Prefix(rest, count)))
  {
    var rest := tokens[computed..];
    var hashes := HashAll(sha, Chunks(rest, size));
    var m := Leading(cached, hashes);
    var x, y := Prefix(tokens, m * size), Prefix(rest, m * size);
    Split(tokens, computed);
    PrefixHits(sha, rest, size, m);
    Split(tokens, Min(m * size, |tokens|));
    Split(rest, Min(m * size, |rest|));
    if Tells(sha, Chunks(x, size), Chunks(y, size)) { HashesTellPrompts(sha, x, y, size); }
  }

  /** One token computed, one token to load: its load task asks for the block already there. */
  lemma WrongBlockLoaded(sha: Sha, a: int, b: int)
    requires Int32(a) && Int32(b) && BlockHash(sha, [a]) != BlockHash(sha, [b])
    ensures var cached := (h: Hash) => h == BlockHash(sha, [b]);
            && MatchedTokens(sha, cached, [a, b], 1, 1) == Ok(1)
            && HashTokens(sha, Prefix([a, b], 1), 1) == Ok([BlockHash(sha, [a])])
            && !cached(BlockHash(sha, [a]))
  {
    var cached := (h: Hash) => h == BlockHash(sha, [b]);
    assert [a, b][1..] == [b] && Prefix([a, b], 1) == [a];
    OneBlock(sha, a);
    OneBlock(sha, b);
    LeadingUnique(cached, [BlockHash(sha, [b])], 1);
  }

  lemma OneBlock(sha: Sha, a: int)
    requires Int32(a)
    ensures HashTokens(sha, [a], 1) == Ok([BlockHash(sha, [a])])
  {
    assert AllInt32([a]) && [a][..1] == [a] && [a][1..] == [];
    assert Chunks([a], 1) == Block([a], Chunks([], 1));
    assert HashAll(sha, Chunks([a], 1)) == [BlockHash(sha, [a])] + HashAll(sha, NoBlocks);
    assert HashAll(sha, NoBlocks) == [] && [BlockHash(sha, [a])] + [] == [BlockHash(sha, [a])];
  }
}
