/**
 Bytes, fixed-width integers and the two byte orders used by the store: big-endian in keys
 (src/zf_kv.c:10-22) and little-endian in values (src/gen/xr_grid_entity_packet.c:12-56).
 */
module Bytes {

  type byte = x: int | 0 <= x < 256
  type Bytes = seq<byte>

  const TWO16 := 0x1_0000
  const TWO32 := 0x1_0000_0000
  const TWO64 := 0x1_0000_0000_0000_0000

  type u16 = x: int | 0 <= x < TWO16
  type u32 = x: int | 0 <= x < TWO32
  type u64 = x: int | 0 <= x < TWO64
  type i16 = x: int | -0x8000 <= x < 0x8000
  type i64 = x: int | -0x8000_0000_0000_0000 <= x < 0x8000_0000_0000_0000

  // ----- two's complement

  /** (uint16_t)v and (int16_t)u */
  function ToU16(v: i16): u16 {
    if v < 0 then v + TWO16 else v
  }

  function ToI16(u: u16): i16 {
    if u >= 0x8000 then u - TWO16 else u
  }

  /** (uint64_t)v and (int64_t)u */
  function ToU64(v: i64): u64 {
    if v < 0 then v + TWO64 else v
  }

  function ToI64(u: u64): i64 {
    if u >= 0x8000_0000_0000_0000 then u - TWO64 else u
  }

  /** The int64 with the same residue modulo 2^64. */
  function Wrap64(x: int): i64 {
    ToI64(x % TWO64)
  }

  lemma WrapIdentity(x: int)
    requires -0x8000_0000_0000_0000 <= x < 0x8000_0000_0000_0000
    ensures Wrap64(x) == x
  {
    if x < 0 {
      assert (x + TWO64) % TWO64 == x + TWO64;
      AddMultiple(x, 1);
    }
  }

  lemma AddMultiple(x: int, k: int)
    ensures (x + k * TWO64) % TWO64 == x % TWO64
  {
    var q, r := x / TWO64, x % TWO64;
    assert x == q * TWO64 + r;
    assert x + k * TWO64 == (q + k) * TWO64 + r;
    QuotientUnique(q + k, r);
  }

  lemma QuotientUnique(q: int, r: int)
    requires 0 <= r < TWO64
    ensures (q * TWO64 + r) % TWO64 == r
  {
  }

  /** Wrapping an intermediate sum does not change the final one. */
  lemma WrapAdd(x: int, y: int)
    ensures Wrap64(Wrap64(x) + y) == Wrap64(x + y)
  {
    var w := Wrap64(x);
    var k := (w - x) / TWO64;
    assert w - x == k * TWO64 by {
      var q := x / TWO64;
      assert x == q * TWO64 + x % TWO64;
      if x % TWO64 >= 0x8000_0000_0000_0000 {
        assert w - x == (-q - 1) * TWO64;
      } else {
        assert w - x == (-q) * TWO64;
      }
    }
    AddMultiple(x + y, k);
  }

  // ----- little endian

  function Pow256(n: nat): (p: nat)
    ensures p >= 1
  {
    if n == 0 then 1 else 256 * Pow256(n - 1)
  }

  /** The n low-order bytes of v, least significant first. */
  function LittleEndian(v: nat, n: nat): (s: Bytes)
    ensures |s| == n
  {
    if n == 0 then [] else [v % 256] + LittleEndian(v / 256, n - 1)
  }

  function FromLittleEndian(s: Bytes): nat {
    if s == [] then 0 else s[0] + 256 * FromLittleEndian(s[1..])
  }

  lemma {:induction false} LittleEndianRoundTrip(v: nat, n: nat)
    requires v < Pow256(n)
    ensures FromLittleEndian(LittleEndian(v, n)) == v
  {
    if n > 0 {
      assert v / 256 < Pow256(n - 1);
      LittleEndianRoundTrip(v / 256, n - 1);
      assert LittleEndian(v, n)[1..] == LittleEndian(v / 256, n - 1);
    }
  }

  lemma {:induction false} FromLittleEndianRoundTrip(s: Bytes)
    ensures FromLittleEndian(s) < Pow256(|s|)
    ensures LittleEndian(FromLittleEndian(s), |s|) == s
  {
    if s != [] {
      FromLittleEndianRoundTrip(s[1..]);
      var t := FromLittleEndian(s[1..]);
      assert (s[0] + 256 * t) % 256 == s[0] && (s[0] + 256 * t) / 256 == t;
    }
  }

  lemma Widths()
    ensures Pow256(2) == TWO16 && Pow256(4) == TWO32 && Pow256(8) == TWO64
  {
    assert Pow256(2) == 256 * 256;
    assert Pow256(4) == 256 * (256 * Pow256(2));
    assert Pow256(6) == 256 * (256 * Pow256(4));
    assert Pow256(8) == 256 * (256 * Pow256(6));
  }

  /** Byte i is (v >> 8i) & 0xFF, as the put loops compute it. */
  lemma {:induction false} LittleEndianAt(v: nat, n: nat, i: nat)
    requires i < n
    ensures LittleEndian(v, n)[i] == v / Pow256(i) % 256
  {
    if i > 0 {
      LittleEndianAt(v / 256, n - 1, i - 1);
      DivDiv(v, Pow256(i - 1));
    }
  }

  lemma DivDiv(v: nat, p: nat)
    requires p >= 1
    ensures v / 256 / p == v / (256 * p)
  {
    var q := v / 256 / p;
    var r := v / 256 % p;
    assert v / 256 == q * p + r;
    assert v == (q * p + r) * 256 + v % 256;
    assert v == q * (256 * p) + (r * 256 + v % 256);
    var s := r * 256 + v % 256;
    assert r <= p - 1;
    assert s < 256 * p;
    QuotientIs(v, 256 * p, q, s);
  }

  lemma QuotientIs(v: int, d: int, q: int, s: int)
    requires d > 0 && v == q * d + s && 0 <= s < d
    ensures v / d == q
  {
    var k := v / d - q;
    assert k * d == (v / d) * d - q * d == s - v % d;
    SmallMultiple(k, d);
  }

  lemma SmallMultiple(k: int, d: int)
    requires d > 0 && -d < k * d < d
    ensures k == 0
  {
  }

  /** Appending a most significant byte adds b << 8n, as the get loops do. */
  lemma {:induction false} FromLittleEndianSnoc(s: Bytes, b: byte)
    ensures FromLittleEndian(s + [b]) == FromLittleEndian(s) + b * Pow256(|s|)
  {
    if s == [] {
      assert [b][1..] == [];
    } else {
      assert (s + [b])[1..] == s[1..] + [b];
      FromLittleEndianSnoc(s[1..], b);
    }
  }

  // ----- big endian

  function U32Be(v: u32): (s: Bytes)
    ensures |s| == 4
  {
    [v / 0x100_0000, v / 0x1_0000 % 256, v / 0x100 % 256, v % 256]
  }

  function FromU32Be(s: Bytes): u32
    requires |s| == 4
  {
    var a: int, b: int, c: int, d: int := s[0], s[1], s[2], s[3];
    a * 0x100_0000 + b * 0x1_0000 + c * 0x100 + d
  }

  /** The key codec round-trips both ways. */
  lemma U32BeRoundTrip(v: u32, s: Bytes)
    requires |s| == 4
    ensures FromU32Be(U32Be(v)) == v
    ensures U32Be(FromU32Be(s)) == s
  {
    FourDigits(s[0], s[1], s[2], s[3]);
    Recombine(v);
  }

  lemma FourDigits(a: int, b: int, c: int, d: int)
    requires 0 <= a < 256 && 0 <= b < 256 && 0 <= c < 256 && 0 <= d < 256
    ensures var w := a * 0x100_0000 + b * 0x1_0000 + c * 0x100 + d;
            w / 0x100_0000 == a && w / 0x1_0000 % 256 == b && w / 0x100 % 256 == c && w % 256 == d
  {
    var w := a * 0x100_0000 + b * 0x1_0000 + c * 0x100 + d;
    QuotientIs(w, 0x100_0000, a, b * 0x1_0000 + c * 0x100 + d);
    QuotientIs(w, 0x1_0000, a * 256 + b, c * 0x100 + d);
    QuotientIs(w, 0x100, (a * 256 + b) * 256 + c, d);
  }

  lemma Recombine(v: u32)
    ensures v / 0x100_0000 * 0x100_0000 + v / 0x1_0000 % 256 * 0x1_0000 + v / 0x100 % 256 * 0x100 + v % 256 == v
  {
    assert v / 0x1_0000 == v / 0x100_0000 * 256 + v / 0x1_0000 % 256;
    assert v / 0x100 == v / 0x1_0000 * 256 + v / 0x100 % 256;
  }
}
