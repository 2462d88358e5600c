/**
 The keyspace of src/zf_kv.c:24-66: "zf/zone/{z}" and "zf/entity/{z}/{e}" with big-endian ids, and the
 range [begin, end) a tick scans. The store orders keys by bytes.
 */
module Keys {
  import opened Bytes

  type Key = Bytes

  /** "zf/zone/" and "zf/entity/" */
  const ZONE_PREFIX: Bytes := [122, 102, 47, 122, 111, 110, 101, 47]
  const ENTITY_PREFIX: Bytes := [122, 102, 47, 101, 110, 116, 105, 116, 121, 47]
  const SLASH: byte := 47

  function ZoneKey(z: u32): Key {
    ZONE_PREFIX + U32Be(z)
  }

  function RangeBegin(z: u32): (k: Key)
    ensures |k| == 15
  {
    ENTITY_PREFIX + U32Be(z) + [SLASH]
  }

  function RangeEnd(z: u32): Key {
    RangeBegin(z) + [255]
  }

  function EntityKey(z: u32, e: u32): Key {
    RangeBegin(z) + U32Be(e)
  }

  // ----- byte order

  predicate Less(a: Key, b: Key) {
    b != [] && (a == [] || a[0] < b[0] || (a[0] == b[0] && Less(a[1..], b[1..])))
  }

  lemma {:induction false} LessPrefix(p: Bytes, a: Key, b: Key)
    ensures Less(p + a, p + b) <==> Less(a, b)
  {
    if p == [] {
      assert p + a == a && p + b == b;
    } else {
      assert (p + a)[1..] == p[1..] + a && (p + b)[1..] == p[1..] + b;
      LessPrefix(p[1..], a, b);
    }
  }

  lemma {:induction false} LessIrreflexive(a: Key)
    ensures !Less(a, a)
  {
    if a != [] {
      LessIrreflexive(a[1..]);
    }
  }

  lemma {:induction false} LessTransitive(a: Key, b: Key, c: Key)
    requires Less(a, b) && Less(b, c)
    ensures Less(a, c)
  {
    if a != [] && a[0] == b[0] && b[0] == c[0] {
      LessTransitive(a[1..], b[1..], c[1..]);
    }
  }

  lemma {:induction false} LessTotal(a: Key, b: Key)
    ensures Less(a, b) || Less(b, a) || a == b
  {
    if a != [] && b != [] && a[0] == b[0] {
      LessTotal(a[1..], b[1..]);
      assert a == [a[0]] + a[1..] && b == [b[0]] + b[1..];
    }
  }

  /** Big-endian ids compare as numbers, ahead of whatever follows them. */
  lemma BigEndianOrder(a: u32, x: Key, b: u32, y: Key)
    ensures Less(U32Be(a) + x, U32Be(b) + y) <==> a < b || (a == b && Less(x, y))
  {
    var s, t := U32Be(a), U32Be(b);
    BigEndianDigits(a, b);
    FourBytes(s, x, t, y);
  }

  /** Four bytes compared from the most significant down. */
  predicate FourLess(s: Bytes, t: Bytes)
    requires |s| == 4 && |t| == 4
  {
    s[0] < t[0] || (s[0] == t[0] && (s[1] < t[1] || (s[1] == t[1] && (s[2] < t[2] || (s[2] == t[2] && s[3] < t[3])))))
  }

  lemma FourBytes(s: Bytes, x: Key, t: Bytes, y: Key)
    requires |s| == 4 && |t| == 4
    ensures Less(s + x, t + y) <==> FourLess(s, t) || (s == t && Less(x, y))
  {
    hide Less;
    FirstByte(s, x, t, y);
    FirstByte(s[1..], x, t[1..], y);
    FirstByte(s[2..], x, t[2..], y);
    FirstByte(s[3..], x, t[3..], y);
    assert s[1..][1..] == s[2..] && s[2..][1..] == s[3..] && t[1..][1..] == t[2..] && t[2..][1..] == t[3..];
    assert s[3..][1..] + x == x && t[3..][1..] + y == y;
  }

  lemma FirstByte(s: Bytes, x: Key, t: Bytes, y: Key)
    requires s != [] && t != []
    ensures Less(s + x, t + y) <==> s[0] < t[0] || (s[0] == t[0] && Less(s[1..] + x, t[1..] + y))
  {
    assert (s + x)[1..] == s[1..] + x && (t + y)[1..] == t[1..] + y;
  }

  lemma BigEndianDigits(a: u32, b: u32)
    ensures a < b <==> FourLess(U32Be(a), U32Be(b))
    ensures a == b <==> U32Be(a) == U32Be(b)
  {
    U32BeRoundTrip(a, U32Be(a));
    U32BeRoundTrip(b, U32Be(b));
  }

  /** Keys sort exactly as their (zone, entity) pairs, and determine them. */
  lemma EntityKeyOrder(z: u32, e: u32, z': u32, e': u32)
    ensures Less(EntityKey(z, e), EntityKey(z', e')) <==> z < z' || (z == z' && e < e')
    ensures EntityKey(z, e) == EntityKey(z', e') <==> z == z' && e == e'
  {
    var p := ENTITY_PREFIX;
    var x, y := [SLASH] + U32Be(e), [SLASH] + U32Be(e');
    assert EntityKey(z, e) == p + (U32Be(z) + x) && EntityKey(z', e') == p + (U32Be(z') + y);
    LessPrefix(p, U32Be(z) + x, U32Be(z') + y);
    BigEndianOrder(z, x, z', y);
    LessPrefix([SLASH], U32Be(e), U32Be(e'));
    assert U32Be(e) + [] == U32Be(e) && U32Be(e') + [] == U32Be(e');
    BigEndianOrder(e, [], e', []);
    if EntityKey(z, e) == EntityKey(z', e') {
      LessIrreflexive(EntityKey(z, e));
      assert !(z < z' || (z == z' && e < e'));
      EntityKeyNotAbove(z, e, z', e');
    }
  }

  lemma EntityKeyNotAbove(z: u32, e: u32, z': u32, e': u32)
    requires EntityKey(z, e) == EntityKey(z', e')
    ensures z == z' && e == e'
  {
    var k, k' := EntityKey(z, e), EntityKey(z', e');
    assert k[10..14] == U32Be(z) && k'[10..14] == U32Be(z');
    assert k[15..] == U32Be(e) && k'[15..] == U32Be(e');
    U32BeRoundTrip(z, U32Be(z)); U32BeRoundTrip(z', U32Be(z'));
    U32BeRoundTrip(e, U32Be(e)); U32BeRoundTrip(e', U32Be(e'));
  }

  // ----- the scanned range

  predicate InRange(k: Key, z: u32) {
    !Less(k, RangeBegin(z)) && Less(k, RangeEnd(z))
  }

  /** Sandwiched strings: [p, p + [255]) is exactly the strings that extend p with a first byte below 255. */
  lemma {:induction false} Between(p: Bytes, k: Key)
    ensures !Less(k, p) && Less(k, p + [255]) <==> |k| >= |p| && k[..|p|] == p && (|k| == |p| || k[|p|] < 255)
  {
    if p == [] {
      assert p + [255] == [255];
      assert [255][1..] == [];
    } else if k != [] {
      assert (p + [255])[1..] == p[1..] + [255];
      Between(p[1..], k[1..]);
      if |k| >= |p| && k[0] == p[0] {
        assert k[..|p|] == [k[0]] + k[1..][..|p| - 1] && p == [p[0]] + p[1..];
      }
    }
  }

  /** For every byte string: it lies in zone z's range iff it is the zone's prefix followed by nothing or by a
      byte below 0xFF. */
  lemma RangeIs(k: Key, z: u32)
    ensures InRange(k, z) <==> |k| >= 15 && k[..15] == RangeBegin(z) && (|k| == 15 || k[15] < 255)
  {
    Between(RangeBegin(z), k);
  }

  /** The range scan is exact for entity ids below 0xFF000000; an id whose top byte is 0xFF sorts past the end. */
  lemma RangeScanExact(z: u32, z': u32, e: u32)
    ensures InRange(EntityKey(z', e), z) <==> z' == z && e < 0xFF00_0000
  {
    var k := EntityKey(z', e);
    RangeIs(k, z);
    assert k[..15] == RangeBegin(z');
    assert k[15] == e / 0x100_0000;
    PrefixInjective(z, z');
  }

  lemma PrefixInjective(z: u32, z': u32)
    ensures RangeBegin(z) == RangeBegin(z') <==> z == z'
  {
    assert RangeBegin(z)[10..14] == U32Be(z) && RangeBegin(z')[10..14] == U32Be(z');
    U32BeRoundTrip(z, U32Be(z));
    U32BeRoundTrip(z', U32Be(z'));
  }

  /** No byte string lies in the ranges of two zones. */
  lemma RangesDisjoint(z: u32, z': u32, k: Key)
    requires z != z' && InRange(k, z)
    ensures !InRange(k, z')
  {
    RangeIs(k, z);
    RangeIs(k, z');
    PrefixInjective(z, z');
  }

  /** No zone record lies in any entity range. */
  lemma ZoneKeyOutside(z: u32, z': u32)
    ensures !InRange(ZoneKey(z), z')
  {
    RangeIs(ZoneKey(z), z');
  }

  /** Zone keys determine their zone. */
  lemma ZoneKeyInjective(z: u32, z': u32)
    ensures ZoneKey(z) == ZoneKey(z') <==> z == z'
  {
    assert ZoneKey(z)[8..] == U32Be(z) && ZoneKey(z')[8..] == U32Be(z');
    U32BeRoundTrip(z, U32Be(z));
    U32BeRoundTrip(z', U32Be(z'));
  }

  /** The bytes of a text. */
  function Ascii(t: string): Bytes {
    seq(|t|, i requires 0 <= i < |t| => t[i] as int % 256)
  }

  /** The number four bytes denote, most significant first. */
  function Number(k: Key, i: nat): int
    requires i + 4 <= |k|
  {
    var a: int, b: int, c: int, d: int := k[i], k[i + 1], k[i + 2], k[i + 3];
    ((a * 256 + b) * 256 + c) * 256 + d
  }

  /** What the keys spell, with the ids most significant byte first. */
  lemma KeysSpell(z: u32, e: u32)
    ensures ZoneKey(z)[..8] == Ascii("zf/zone/") && RangeBegin(z)[..10] == Ascii("zf/entity/")
    ensures RangeBegin(z)[14..] == Ascii("/") && EntityKey(z, e)[..15] == RangeBegin(z)
    ensures Number(ZoneKey(z), 8) == z && Number(EntityKey(z, e), 10) == z && Number(EntityKey(z, e), 15) == e
    ensures |ZoneKey(z)| == 12 && |EntityKey(z, e)| == 19
  {
    U32BeRoundTrip(z, U32Be(z));
    U32BeRoundTrip(e, U32Be(e));
  }

  // ----- the builders, as they write into a caller's buffer

  /** zf_kv_encode_u32_be, src/zf_kv.c:10-16 */
  method EncodeU32Be(buf: array<byte>, off: nat, val: u32)
    requires off + 4 <= buf.Length
    modifies buf
    ensures buf[..off] == old(buf[..off]) && buf[off..off + 4] == U32Be(val) && buf[off + 4..] == old(buf[off + 4..])
  {
    buf[off] := val / 0x100_0000;
    buf[off + 1] := val / 0x1_0000 % 256;
    buf[off + 2] := val / 0x100 % 256;
    buf[off + 3] := val % 256;
  }

  /** append_prefix, src/zf_kv.c:24-29 */
  method AppendPrefix(buf: array<byte>, prefix: Bytes) returns (len: nat)
    requires |prefix| <= buf.Length
    modifies buf
    ensures len == |prefix| && buf[..len] == prefix && buf[len..] == old(buf[len..])
  {
    len := |prefix|;
    for i := 0 to len
      invariant forall j :: 0 <= j < i ==> buf[j] == prefix[j]
      invariant forall j :: i <= j < buf.Length ==> buf[j] == old(buf[j])
    {
      buf[i] := prefix[i];
    }
  }

  /** zf_kv_zone_key, src/zf_kv.c:31-36 */
  method ZoneKeyInto(buf: array<byte>, z: u32) returns (len: nat)
    requires buf.Length >= 12
    modifies buf
    ensures len == 12 && buf[..len] == ZoneKey(z)
  {
    var off := AppendPrefix(buf, ZONE_PREFIX);
    EncodeU32Be(buf, off, z);
    len := off + 4;
    assert buf[..12] == buf[..8] + buf[8..12];
  }

  /** zf_kv_entity_range_begin, src/zf_kv.c:48-55 */
  method RangeBeginInto(buf: array<byte>, z: u32) returns (len: nat)
    requires buf.Length >= 15
    modifies buf
    ensures len == 15 && buf[..len] == RangeBegin(z) && buf[len..] == old(buf[len..])
  {
    var off := AppendPrefix(buf, ENTITY_PREFIX);
    EncodeU32Be(buf, off, z);
    off := off + 4;
    assert buf[..14] == buf[..10] + buf[10..14];
    buf[off] := SLASH;
    off := off + 1;
    return off;
  }

  /** zf_kv_entity_range_end, src/zf_kv.c:57-66 */
  method RangeEndInto(buf: array<byte>, z: u32) returns (len: nat)
    requires buf.Length >= 16
    modifies buf
    ensures len == 16 && buf[..len] == RangeEnd(z)
  {
    var off := RangeBeginInto(buf, z);
    buf[off] := 255;
    return off + 1;
  }

  /** zf_kv_entity_key, src/zf_kv.c:38-46 */
  method EntityKeyInto(buf: array<byte>, z: u32, e: u32) returns (len: nat)
    requires buf.Length >= 19
    modifies buf
    ensures len == 19 && buf[..len] == EntityKey(z, e)
  {
    var off := RangeBeginInto(buf, z);
    EncodeU32Be(buf, off, e);
    assert buf[..19] == buf[..15] + buf[15..19];
    return off + 4;
  }
}
