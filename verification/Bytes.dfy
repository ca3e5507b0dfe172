/** Bytes, fixed-width unsigned integers and the 16-byte index keys of the block store. */
module Bytes {
  type byte = x: int | 0 <= x < 0x100
  type u32 = x: int | 0 <= x < 0x1_0000_0000
  type u64 = x: int | 0 <= x < 0x1_0000_0000_0000_0000

  /** A prefix hash (`[u8; 16]`), as the number its bytes spell (`KeyOf`, injective). The index only
      ever compares keys for equality. */
  type Key = int

  type Hash = s: seq<byte> | |s| == 16 witness seq(16, _ => 0)

  /** A SHA-256 digest. The hash function itself stays a parameter of the model. */
  type Digest = d: seq<byte> | |d| == 32 witness seq(32, _ => 0)

  type Sha = seq<byte> -> Digest

  datatype Option<+T> = None | Some(value: T)
  datatype Result<+T, +E> = Ok(value: T) | Err(error: E)

  function Pow256(n: nat): (p: nat)
    ensures p > 0
  {
    if n == 0 then 1 else 256 * Pow256(n - 1)
  }

  /** The `n` little-endian bytes of `x` modulo 256^n. */
  function ToLE(x: nat, n: nat): (s: seq<byte>)
    ensures |s| == n
  {
    if n == 0 then [] else [x % 256] + ToLE(x / 256, n - 1)
  }

  function FromLE(s: seq<byte>): nat {
    if s == [] then 0 else s[0] + 256 * FromLE(s[1..])
  }

  lemma {:induction false} LERoundTrip(x: nat, n: nat)
    requires x < Pow256(n)
    ensures FromLE(ToLE(x, n)) == x
  {
    if n > 0 {
      LERoundTrip(x / 256, n - 1);
      assert ToLE(x, n)[1..] == ToLE(x / 256, n - 1);
    }
  }

  /** Low byte first: byte `i` counts 256^i. */
  lemma {:induction false} LEByte(x: nat, n: nat, i: nat)
    requires i < n
    ensures ToLE(x, n)[i] == x / Pow256(i) % 256
  {
    if i > 0 {
      LEByte(x / 256, n - 1, i - 1);
      DivDiv(x, Pow256(i - 1));
    }
  }

  lemma DivDiv(x: nat, d: nat)
    requires d > 0
    ensures x / 256 / d == x / (256 * d)
  {
    var q, r := x / 256 / d, x / 256 % d;
    assert x == 256 * (d * q + r) + x % 256;
    assert x == (256 * d) * q + (256 * r + x % 256);
    assert 0 <= 256 * r + x % 256 < 256 * d;
    QuotientIs(x, 256 * d, q, 256 * r + x % 256);
  }

  lemma QuotientIs(x: nat, d: nat, q: nat, r: nat)
    requires d > 0 && x == d * q + r && r < d
    ensures x / d == q
  {
    var e := x / d - q;
    assert d * e == r - x % d;
    assert d * (e + 1) > 0 && d * (e - 1) < 0;
  }

  lemma {:induction false} FromLEBound(s: seq<byte>)
    ensures FromLE(s) < Pow256(|s|)
  {
    if s != [] {
      FromLEBound(s[1..]);
    }
  }

  lemma Widths()
    ensures Pow256(4) == 0x1_0000_0000
    ensures Pow256(8) == 0x1_0000_0000_0000_0000
  {
    assert Pow256(4) == 256 * (256 * (256 * (256 * Pow256(0))));
    assert Pow256(8) == 256 * (256 * (256 * (256 * Pow256(4))));
  }

  lemma {:induction false} LEInverse(s: seq<byte>)
    ensures ToLE(FromLE(s), |s|) == s
  {
    if s != [] {
      LEInverse(s[1..]);
      assert s == [s[0]] + s[1..];
    }
  }

  function KeyOf(h: Hash): Key {
    FromLE(h)
  }

  /** Different hashes are different keys. */
  lemma KeyOfInjective(g: Hash, h: Hash)
    requires KeyOf(g) == KeyOf(h)
    ensures g == h
  {
    LEInverse(g);
    LEInverse(h);
  }
}

/** The `hex` crate: lower-case encoding, decoding of either case. */
module Hex {
  import opened Bytes

  function HexChar(d: int): char
    requires 0 <= d < 16
  {
    if d < 10 then ('0' as int + d) as char else ('a' as int + d - 10) as char
  }

  function HexEncode(b: seq<byte>): string {
    if b == [] then "" else [HexChar(b[0] / 16), HexChar(b[0] % 16)] + HexEncode(b[1..])
  }

  /** Both cases are accepted. */
  function HexDigit(c: char): Option<int> {
    if '0' <= c <= '9' then Some(c as int - '0' as int)
    else if 'a' <= c <= 'f' then Some(c as int - 'a' as int + 10)
    else if 'A' <= c <= 'F' then Some(c as int - 'A' as int + 10)
    else None
  }

  function Byte(hi: char, lo: char): Option<byte> {
    match (HexDigit(hi), HexDigit(lo))
    case (Some(x), Some(y)) => Some(16 * x + y)
    case (_, _) => None
  }

  function HexDecode(s: string): Option<seq<byte>> {
    if s == "" then Some([])
    else if |s| == 1 then None
    else
      match (Byte(s[0], s[1]), HexDecode(s[2..]))
      case (Some(b), Some(r)) => Some([b] + r)
      case (_, _) => None
  }

  lemma NibblesBack(x: byte)
    ensures Byte(HexChar(x / 16), HexChar(x % 16)) == Some(x)
  {
    assert HexDigit(HexChar(x / 16)) == Some(x / 16) && HexDigit(HexChar(x % 16)) == Some(x % 16);
  }

  lemma {:induction false} HexRoundTrip(b: seq<byte>)
    ensures HexDecode(HexEncode(b)) == Some(b)
  {
    if b != [] {
      NibblesBack(b[0]);
      HexRoundTrip(b[1..]);
      assert HexEncode(b)[2..] == HexEncode(b[1..]);
      assert [b[0]] + b[1..] == b;
    }
  }

  /** Lower-case hexadecimal digits only. */
  ghost predicate LowerHex(s: string) {
    forall i :: 0 <= i < |s| ==> '0' <= s[i] <= '9' || 'a' <= s[i] <= 'f'
  }

  lemma {:induction false} EncodeIsLower(b: seq<byte>)
    ensures LowerHex(HexEncode(b)) && |HexEncode(b)| == 2 * |b|
  {
    if b != [] { EncodeIsLower(b[1..]); }
  }

  lemma NibblesOf(hi: char, lo: char)
    requires LowerHex([hi, lo])
    ensures Byte(hi, lo).Some? && [HexChar(Byte(hi, lo).value / 16), HexChar(Byte(hi, lo).value % 16)] == [hi, lo]
  {
    assert LowerHex([hi, lo]) ==> [hi, lo][0] == hi && [hi, lo][1] == lo;
    var x, y := HexDigit(hi).value, HexDigit(lo).value;
    assert (16 * x + y) / 16 == x && (16 * x + y) % 16 == y;
  }

  /** A byte string has one lower-case hex string. */
  lemma {:induction false} LowerHexUnique(s: string, b: seq<byte>)
    requires LowerHex(s) && HexDecode(s) == Some(b)
    ensures s == HexEncode(b)
    decreases |s|
  {
    if s != "" {
      assert LowerHex([s[0], s[1]]) && LowerHex(s[2..]);
      NibblesOf(s[0], s[1]);
      LowerHexUnique(s[2..], HexDecode(s[2..]).value);
      assert b[1..] == HexDecode(s[2..]).value;
      assert s == [s[0], s[1]] + s[2..];
    }
  }

  function LowerChar(c: char): char {
    if 'A' <= c <= 'F' then (c as int + 32) as char else c
  }

  function Lowered(s: string): string {
    if s == "" then "" else [LowerChar(s[0])] + Lowered(s[1..])
  }

  /** Decoding takes no notice of case. */
  lemma {:induction false} EitherCase(s: string)
    ensures HexDecode(Lowered(s)) == HexDecode(s)
    decreases |s|
  {
    if |s| == 1 {
      assert s[1..] == "";
    } else if |s| > 1 {
      EitherCase(s[2..]);
      var t := Lowered(s);
      assert s[1..][0] == s[1] && s[1..][1..] == s[2..];
      assert Lowered(s[1..]) == [LowerChar(s[1])] + Lowered(s[2..]);
      assert t == [LowerChar(s[0]), LowerChar(s[1])] + Lowered(s[2..]);
      assert t[2..] == Lowered(s[2..]);
      assert HexDigit(t[0]) == HexDigit(s[0]) && HexDigit(t[1]) == HexDigit(s[1]);
    }
  }

  lemma {:induction false} HexHasNoSlash(b: seq<byte>)
    ensures HexEncode(b) == "" || HexEncode(b)[0] != '/'
  {
  }
}
