/**
 The 100-byte entity packet of src/gen/xr_grid_entity_packet.c, stored verbatim as an entity's value, and the
 length-checked decoder of src/zf_kv.c:91-97.
 */
module Packet {
  import opened Bytes

  const PACKET_SIZE := 100

  type Payload = s: Bytes | |s| == 42 witness seq(42, _ => 0)

  datatype Packet = Packet(
    globalId: u32,
    posX: i64, posY: i64, posZ: i64,
    velX: i16, velY: i16, velZ: i16,
    hlc: u32, classOwner: u32, subIndex: u32,
    rotX: i16, rotY: i16, rotZ: i16,
    payload: Payload)

  function Zeros(n: nat): (s: Bytes)
    ensures |s| == n && forall i :: 0 <= i < n ==> s[i] == 0
  {
    seq(n, _ => 0)
  }

  function U32Le(v: u32): (s: Bytes)
    ensures |s| == 4
  {
    LittleEndian(v, 4)
  }

  function I64Le(v: i64): (s: Bytes)
    ensures |s| == 8
  {
    LittleEndian(ToU64(v), 8)
  }

  function I16Le(v: i16): (s: Bytes)
    ensures |s| == 2
  {
    LittleEndian(ToU16(v), 2)
  }

  /** Bytes 0..34: id, position, velocity. */
  function Head(p: Packet): (s: Bytes)
    ensures |s| == 34
  {
    U32Le(p.globalId) + I64Le(p.posX) + I64Le(p.posY) + I64Le(p.posZ) + I16Le(p.velX) + I16Le(p.velY) + I16Le(p.velZ)
  }

  /** Bytes 40..100: clock, owner, index, rotation, payload. Bytes 34..40 are not used. */
  function Tail(p: Packet): (s: Bytes)
    ensures |s| == 60
  {
    U32Le(p.hlc) + U32Le(p.classOwner) + U32Le(p.subIndex) + I16Le(p.rotX) + I16Le(p.rotY) + I16Le(p.rotZ) + p.payload
  }

  function Encode(p: Packet): (s: Bytes)
    ensures |s| == PACKET_SIZE
  {
    Head(p) + Zeros(6) + Tail(p)
  }

  function GetU32(b: Bytes, off: nat): u32
    requires off + 4 <= |b|
  {
    Widths();
    FromLittleEndianRoundTrip(b[off..off + 4]);
    FromLittleEndian(b[off..off + 4])
  }

  function GetI64(b: Bytes, off: nat): i64
    requires off + 8 <= |b|
  {
    Widths();
    FromLittleEndianRoundTrip(b[off..off + 8]);
    ToI64(FromLittleEndian(b[off..off + 8]))
  }

  function GetI16(b: Bytes, off: nat): i16
    requires off + 2 <= |b|
  {
    Widths();
    FromLittleEndianRoundTrip(b[off..off + 2]);
    ToI16(FromLittleEndian(b[off..off + 2]))
  }

  function Decode(b: Bytes): Packet
    requires |b| == PACKET_SIZE
  {
    Packet(GetU32(b, 0), GetI64(b, 4), GetI64(b, 12), GetI64(b, 20), GetI16(b, 28), GetI16(b, 30), GetI16(b, 32),
           GetU32(b, 40), GetU32(b, 44), GetU32(b, 48), GetI16(b, 52), GetI16(b, 54), GetI16(b, 56), b[58..])
  }

  // ----- field round trips

  lemma GetPutU32(b: Bytes, off: nat, v: u32)
    requires off + 4 <= |b| && b[off..off + 4] == U32Le(v)
    ensures GetU32(b, off) == v
  {
    Widths();
    LittleEndianRoundTrip(v, 4);
  }

  lemma GetPutI64(b: Bytes, off: nat, v: i64)
    requires off + 8 <= |b| && b[off..off + 8] == I64Le(v)
    ensures GetI64(b, off) == v
  {
    Widths();
    LittleEndianRoundTrip(ToU64(v), 8);
  }

  lemma GetPutI16(b: Bytes, off: nat, v: i16)
    requires off + 2 <= |b| && b[off..off + 2] == I16Le(v)
    ensures GetI16(b, off) == v
  {
    Widths();
    LittleEndianRoundTrip(ToU16(v), 2);
  }

  lemma PutGetU32(b: Bytes, off: nat)
    requires off + 4 <= |b|
    ensures U32Le(GetU32(b, off)) == b[off..off + 4]
  {
    FromLittleEndianRoundTrip(b[off..off + 4]);
  }

  lemma PutGetI64(b: Bytes, off: nat)
    requires off + 8 <= |b|
    ensures I64Le(GetI64(b, off)) == b[off..off + 8]
  {
    FromLittleEndianRoundTrip(b[off..off + 8]);
  }

  lemma PutGetI16(b: Bytes, off: nat)
    requires off + 2 <= |b|
    ensures I16Le(GetI16(b, off)) == b[off..off + 2]
  {
    FromLittleEndianRoundTrip(b[off..off + 2]);
  }

  // ----- the packet

  lemma HeadSlices(p: Packet, b: Bytes)
    requires |b| >= 34 && b[..34] == Head(p)
    ensures b[0..4] == U32Le(p.globalId) && b[4..12] == I64Le(p.posX) && b[12..20] == I64Le(p.posY)
            && b[20..28] == I64Le(p.posZ)
    ensures b[28..30] == I16Le(p.velX) && b[30..32] == I16Le(p.velY) && b[32..34] == I16Le(p.velZ)
  {
    hide U32Le, I64Le, I16Le;
    SliceOf(b, 0, 34, 0, 4); SliceOf(b, 0, 34, 4, 12); SliceOf(b, 0, 34, 12, 20); SliceOf(b, 0, 34, 20, 28);
    SliceOf(b, 0, 34, 28, 30); SliceOf(b, 0, 34, 30, 32); SliceOf(b, 0, 34, 32, 34);
  }

  lemma TailSlices(p: Packet, b: Bytes)
    requires |b| == PACKET_SIZE && b[40..] == Tail(p)
    ensures b[40..44] == U32Le(p.hlc) && b[44..48] == U32Le(p.classOwner) && b[48..52] == U32Le(p.subIndex)
    ensures b[52..54] == I16Le(p.rotX) && b[54..56] == I16Le(p.rotY) && b[56..58] == I16Le(p.rotZ)
            && b[58..] == p.payload
  {
    hide U32Le, I64Le, I16Le;
    assert b[40..100] == b[40..];
    SliceOf(b, 40, 100, 0, 4); SliceOf(b, 40, 100, 4, 8); SliceOf(b, 40, 100, 8, 12);
    SliceOf(b, 40, 100, 12, 14); SliceOf(b, 40, 100, 14, 16); SliceOf(b, 40, 100, 16, 18); SliceOf(b, 40, 100, 18, 60);
    assert b[58..100] == b[58..];
  }

  /** A slice of a slice. */
  lemma SliceOf(b: Bytes, lo: nat, hi: nat, i: nat, j: nat)
    requires lo + j <= hi <= |b| && i <= j
    ensures b[lo..hi][i..j] == b[lo + i..lo + j]
  {
    var x, y := b[lo..hi][i..j], b[lo + i..lo + j];
    assert |x| == |y| && forall k :: 0 <= k < |x| ==> x[k] == y[k];
  }

  /** decode(encode(p)) = p for every packet. */
  lemma DecodeEncode(p: Packet)
    ensures Decode(Encode(p)) == p
  {
    var b := Encode(p);
    assert b[..34] == Head(p);
    assert b[40..] == Tail(p);
    hide Encode, U32Le, I64Le, I16Le, GetU32, GetI64, GetI16;
    HeadSlices(p, b);
    TailSlices(p, b);
    GetPutU32(b, 0, p.globalId); GetPutI64(b, 4, p.posX); GetPutI64(b, 12, p.posY); GetPutI64(b, 20, p.posZ);
    GetPutI16(b, 28, p.velX); GetPutI16(b, 30, p.velY); GetPutI16(b, 32, p.velZ);
    GetPutU32(b, 40, p.hlc); GetPutU32(b, 44, p.classOwner); GetPutU32(b, 48, p.subIndex);
    GetPutI16(b, 52, p.rotX); GetPutI16(b, 54, p.rotY); GetPutI16(b, 56, p.rotZ);
  }

  /** A buffer whose unused bytes are zero. */
  predicate Canonical(b: Bytes) {
    |b| == PACKET_SIZE && forall i :: 34 <= i < 40 ==> b[i] == 0
  }

  /** encode(decode(b)) = b if and only if bytes 34..39 are zero. */
  lemma EncodeDecode(b: Bytes)
    requires |b| == PACKET_SIZE
    ensures Encode(Decode(b)) == b <==> Canonical(b)
  {
    var p := Decode(b);
    HeadOfDecode(b);
    TailOfDecode(b);
    hide Head, Tail, Decode;
    EncodeIsCanonical(p);
    if Canonical(b) {
      assert b[34..40] == Zeros(6);
      assert b == b[..34] + b[34..40] + b[40..];
    }
  }

  lemma HeadOfDecode(b: Bytes)
    requires |b| == PACKET_SIZE
    ensures Head(Decode(b)) == b[..34]
  {
    hide U32Le, I64Le, I16Le, GetU32, GetI64, GetI16;
    PutGetU32(b, 0); PutGetI64(b, 4); PutGetI64(b, 12); PutGetI64(b, 20);
    PutGetI16(b, 28); PutGetI16(b, 30); PutGetI16(b, 32);
    Join(b, 0, 4, 12); Join(b, 0, 12, 20); Join(b, 0, 20, 28); Join(b, 0, 28, 30); Join(b, 0, 30, 32);
    Join(b, 0, 32, 34);
    assert b[0..34] == b[..34];
  }

  lemma TailOfDecode(b: Bytes)
    requires |b| == PACKET_SIZE
    ensures Tail(Decode(b)) == b[40..]
  {
    hide U32Le, I64Le, I16Le, GetU32, GetI64, GetI16;
    PutGetU32(b, 40); PutGetU32(b, 44); PutGetU32(b, 48); PutGetI16(b, 52); PutGetI16(b, 54); PutGetI16(b, 56);
    Join(b, 40, 44, 48); Join(b, 40, 48, 52); Join(b, 40, 52, 54); Join(b, 40, 54, 56); Join(b, 40, 56, 58);
    Join(b, 40, 58, 100);
    assert b[58..100] == b[58..] && b[40..100] == b[40..];
  }

  lemma Join(b: Bytes, i: nat, j: nat, k: nat)
    requires i <= j <= k <= |b|
    ensures b[i..j] + b[j..k] == b[i..k]
  {
  }

  lemma EncodeIsCanonical(p: Packet)
    ensures Canonical(Encode(p))
  {
    hide Head, Tail;
  }

  // ----- what the bytes denote

  /** The number two, four and eight bytes denote, least significant first. */
  function Two(b: Bytes, k: nat): int
    requires k + 2 <= |b|
  {
    var low: int, high: int := b[k], b[k + 1];
    low + 0x100 * high
  }

  function Four(b: Bytes, k: nat): int
    requires k + 4 <= |b|
  {
    Two(b, k) + 0x1_0000 * Two(b, k + 2)
  }

  function Eight(b: Bytes, k: nat): int
    requires k + 8 <= |b|
  {
    Four(b, k) + 0x1_0000_0000 * Four(b, k + 4)
  }

  /** Two's complement: v is the number the bytes denote, up to a multiple of 2^16 or 2^64. */
  predicate Denotes16(b: Bytes, k: nat, v: i16)
    requires k + 2 <= |b|
  {
    (Two(b, k) - v) % 0x1_0000 == 0
  }

  predicate Denotes64(b: Bytes, k: nat, v: i64)
    requires k + 8 <= |b|
  {
    (Eight(b, k) - v) % 0x1_0000_0000_0000_0000 == 0
  }

  /** Every field of a packet at its place in the buffer. */
  predicate Denotes(b: Bytes, p: Packet)
    requires |b| == 100
  {
    && Four(b, 0) == p.globalId && Denotes64(b, 4, p.posX) && Denotes64(b, 12, p.posY) && Denotes64(b, 20, p.posZ)
    && Denotes16(b, 28, p.velX) && Denotes16(b, 30, p.velY) && Denotes16(b, 32, p.velZ)
    && Four(b, 40) == p.hlc && Four(b, 44) == p.classOwner && Four(b, 48) == p.subIndex
    && Denotes16(b, 52, p.rotX) && Denotes16(b, 54, p.rotY) && Denotes16(b, 56, p.rotZ) && b[58..] == p.payload
  }

  lemma {:induction false} DenotedPrefix(s: Bytes)
    requires s != []
    ensures FromLittleEndian(s) == s[0] + 256 * FromLittleEndian(s[1..])
  {
  }

  lemma TwoIs(b: Bytes, k: nat)
    requires k + 2 <= |b|
    ensures FromLittleEndian(b[k..k + 2]) == Two(b, k)
  {
    var s := b[k..k + 2];
    DenotedPrefix(s);
    DenotedPrefix(s[1..]);
    assert s[1..][1..] == [];
  }

  lemma SplitDenotes(s: Bytes, k: nat)
    requires k <= |s|
    ensures FromLittleEndian(s) == FromLittleEndian(s[..k]) + Pow256(k) * FromLittleEndian(s[k..])
    decreases k
  {
    if k == 0 {
      assert s[0..] == s && s[..0] == [];
    } else {
      SplitDenotes(s[1..], k - 1);
      DenotedPrefix(s);
      DenotedPrefix(s[..k]);
      assert s[..k][1..] == s[1..][..k - 1] && s[1..][k - 1..] == s[k..];
      SplitScalar(Pow256(k - 1), FromLittleEndian(s[k..]));
    }
  }

  lemma SplitScalar(p: int, x: int)
    ensures 256 * (p * x) == (256 * p) * x
  {
  }

  lemma FourIs(b: Bytes, k: nat)
    requires k + 4 <= |b|
    ensures FromLittleEndian(b[k..k + 4]) == Four(b, k)
  {
    var s := b[k..k + 4];
    SplitDenotes(s, 2);
    assert s[..2] == b[k..k + 2] && s[2..] == b[k + 2..k + 4];
    TwoIs(b, k);
    TwoIs(b, k + 2);
    Widths();
  }

  lemma EightIs(b: Bytes, k: nat)
    requires k + 8 <= |b|
    ensures FromLittleEndian(b[k..k + 8]) == Eight(b, k)
  {
    var s := b[k..k + 8];
    SplitDenotes(s, 4);
    assert s[..4] == b[k..k + 4] && s[4..] == b[k + 4..k + 8];
    FourIs(b, k);
    FourIs(b, k + 4);
    Widths();
  }

  lemma GetDenotes16(b: Bytes, k: nat)
    requires k + 2 <= |b|
    ensures Denotes16(b, k, GetI16(b, k))
  {
    TwoIs(b, k);
  }

  lemma GetDenotes64(b: Bytes, k: nat)
    requires k + 8 <= |b|
    ensures Denotes64(b, k, GetI64(b, k))
  {
    EightIs(b, k);
    hide Eight;
  }

  /** What decoding reads: every field is the number its bytes denote, in two's complement where it is signed. */
  lemma DecodeDenotes(b: Bytes)
    requires |b| == 100
    ensures Denotes(b, Decode(b))
  {
    hide Four, Denotes16, Denotes64, GetI16, GetI64;
    FourIs(b, 0); FourIs(b, 40); FourIs(b, 44); FourIs(b, 48);
    GetDenotes64(b, 4); GetDenotes64(b, 12); GetDenotes64(b, 20);
    GetDenotes16(b, 28); GetDenotes16(b, 30); GetDenotes16(b, 32);
    GetDenotes16(b, 52); GetDenotes16(b, 54); GetDenotes16(b, 56);
  }

  /** And what encoding writes. */
  lemma EncodeDenotes(p: Packet)
    ensures Denotes(Encode(p), p)
  {
    hide Denotes, Encode, Decode;
    DecodeDenotes(Encode(p));
    DecodeEncode(p);
  }

  /** The zero packet is a hundred zero bytes. */
  lemma ZeroEncoding()
    ensures Encode(ZERO_PACKET) == Zeros(100)
  {
    var b := Zeros(100);
    assert Canonical(b);
    EncodeDecode(b);
    ZeroDecodes(b);
    hide Encode, Decode;
  }

  lemma ZeroDecodes(b: Bytes)
    requires b == Zeros(100)
    ensures Decode(b) == ZERO_PACKET
  {
    hide Four, Two, Eight;
    ZeroField(b, 4); ZeroField(b, 12); ZeroField(b, 20);
    ZeroField(b, 0); ZeroField(b, 28); ZeroField(b, 30); ZeroField(b, 32);
    ZeroField(b, 40); ZeroField(b, 44); ZeroField(b, 48); ZeroField(b, 52); ZeroField(b, 54); ZeroField(b, 56);
    assert b[58..] == Zeros(42);
    hide GetU32, GetI16, GetI64;
  }

  lemma ZeroField(b: Bytes, k: nat)
    requires b == Zeros(100) && k + 8 <= 100
    ensures GetU32(b, k) == 0 && GetI16(b, k) == 0 && GetI64(b, k) == 0
  {
    TwoIs(b, k);
    FourIs(b, k);
    EightIs(b, k);
  }

  // ----- the stored value

  const ZERO_PACKET := Packet(0, 0, 0, 0, 0, 0, 0, 0, 0, 0, 0, 0, 0, Zeros(42))

  /** zf_kv_decode_entity: a value shorter than a packet decodes to the zero packet, extra bytes are ignored. */
  function DecodeEntity(b: Bytes): Packet {
    if |b| >= PACKET_SIZE then Decode(b[..PACKET_SIZE]) else ZERO_PACKET
  }

  lemma DecodeEntityEncode(p: Packet)
    ensures DecodeEntity(Encode(p)) == p
  {
    hide Decode, Encode;
    assert Encode(p)[..PACKET_SIZE] == Encode(p);
    DecodeEncode(p);
  }

  // ----- the codec, as it runs over a buffer

  /** s with x written at off. */
  function Splice(s: Bytes, off: nat, x: Bytes): (t: Bytes)
    requires off + |x| <= |s|
    ensures |t| == |s|
  {
    s[..off] + x + s[off + |x|..]
  }

  /** put_u32, put_i64 and put_i16 (src/gen/xr_grid_entity_packet.c:12-17, 28-34, 45-50) for a width of n bytes. */
  method Put(b: array<byte>, off: nat, u: nat, n: nat)
    requires off + n <= b.Length
    modifies b
    ensures b[..] == Splice(old(b[..]), off, LittleEndian(u, n))
  {
    ghost var was := b[..];
    for i := 0 to n
      invariant forall j :: 0 <= j < i ==> b[off + j] == LittleEndian(u, n)[j]
      invariant forall j :: 0 <= j < b.Length && !(off <= j < off + i) ==> b[j] == was[j]
    {
      LittleEndianAt(u, n, i);
      b[off + i] := u / Pow256(i) % 256;
    }
  }

  /** get_u32, get_i64 and get_i16 (src/gen/xr_grid_entity_packet.c:19-26, 36-43, 52-56): the bytes land on disjoint
      bits, so or-ing them in is adding them. */
  method Get(b: array<byte>, off: nat, n: nat) returns (u: nat)
    requires off + n <= b.Length
    ensures u == FromLittleEndian(b[off..off + n])
  {
    u := 0;
    for i := 0 to n
      invariant u == FromLittleEndian(b[off..off + i])
    {
      var x: int := b[off + i];
      assert b[off..off + i + 1] == b[off..off + i] + [b[off + i]];
      FromLittleEndianSnoc(b[off..off + i], b[off + i]);
      u := u + x * Pow256(i);
    }
  }

  /** After writing x behind prefix p in a zeroed buffer. */
  lemma SpliceNext(p: Bytes, x: Bytes, rest: nat)
    requires |x| <= rest
    ensures Splice(p + Zeros(rest), |p|, x) == p + x + Zeros(rest - |x|)
  {
    var s := p + Zeros(rest);
    assert s[..|p|] == p;
    assert s[|p| + |x|..] == Zeros(rest - |x|);
  }

  lemma SkipZeros(p: Bytes, gap: nat, rest: nat)
    requires gap <= rest
    ensures p + Zeros(rest) == p + Zeros(gap) + Zeros(rest - gap)
  {
  }

  /** xr_grid_entity_packet_encode, src/gen/xr_grid_entity_packet.c:58-76. */
  method EncodeInto(p: Packet, buf: array<byte>)
    requires buf.Length == PACKET_SIZE
    modifies buf
    ensures buf[..] == Encode(p)
  {
    for i := 0 to 100
      invariant forall j :: 0 <= j < i ==> buf[j] == 0
    {
      buf[i] := 0;
    }
    assert buf[..] == [] + Zeros(100);
    hide Splice, LittleEndian, Zeros;
    EncodeHead(p, buf);
    SkipZeros(Head(p), 6, 66);
    EncodeTail(p, buf, Head(p) + Zeros(6));
  }

  method EncodeHead(p: Packet, buf: array<byte>)
    requires buf.Length == PACKET_SIZE && buf[..] == [] + Zeros(100)
    modifies buf
    ensures buf[..] == Head(p) + Zeros(66)
  {
    hide Splice, LittleEndian, Zeros;
    ghost var s: Bytes := [];
    Put(buf, 0, p.globalId, 4);
    SpliceNext(s, U32Le(p.globalId), 100);
    s := s + U32Le(p.globalId);
    Put(buf, 4, ToU64(p.posX), 8);
    SpliceNext(s, I64Le(p.posX), 96);
    s := s + I64Le(p.posX);
    Put(buf, 12, ToU64(p.posY), 8);
    SpliceNext(s, I64Le(p.posY), 88);
    s := s + I64Le(p.posY);
    Put(buf, 20, ToU64(p.posZ), 8);
    SpliceNext(s, I64Le(p.posZ), 80);
    s := s + I64Le(p.posZ);
    Put(buf, 28, ToU16(p.velX), 2);
    SpliceNext(s, I16Le(p.velX), 72);
    s := s + I16Le(p.velX);
    Put(buf, 30, ToU16(p.velY), 2);
    SpliceNext(s, I16Le(p.velY), 70);
    s := s + I16Le(p.velY);
    Put(buf, 32, ToU16(p.velZ), 2);
    SpliceNext(s, I16Le(p.velZ), 68);
    s := s + I16Le(p.velZ);
    assert s == Head(p);
  }

  method EncodeTail(p: Packet, buf: array<byte>, ghost head: Bytes)
    requires buf.Length == PACKET_SIZE && |head| == 40 && buf[..] == head + Zeros(60)
    modifies buf
    ensures buf[..] == head + Tail(p)
  {
    hide Splice, LittleEndian, Zeros;
    ghost var s := head;
    Put(buf, 40, p.hlc, 4);
    SpliceNext(s, U32Le(p.hlc), 60);
    s := s + U32Le(p.hlc);
    Put(buf, 44, p.classOwner, 4);
    SpliceNext(s, U32Le(p.classOwner), 56);
    s := s + U32Le(p.classOwner);
    Put(buf, 48, p.subIndex, 4);
    SpliceNext(s, U32Le(p.subIndex), 52);
    s := s + U32Le(p.subIndex);
    Put(buf, 52, ToU16(p.rotX), 2);
    SpliceNext(s, I16Le(p.rotX), 48);
    s := s + I16Le(p.rotX);
    Put(buf, 54, ToU16(p.rotY), 2);
    SpliceNext(s, I16Le(p.rotY), 46);
    s := s + I16Le(p.rotY);
    Put(buf, 56, ToU16(p.rotZ), 2);
    SpliceNext(s, I16Le(p.rotZ), 44);
    s := s + I16Le(p.rotZ);
    CopyPayload(buf, p.payload);
    SpliceNext(s, p.payload, 42);
    assert s + p.payload == head + Tail(p);
    assert Zeros(0) == [];
  }

  method CopyPayload(buf: array<byte>, payload: Payload)
    requires buf.Length == PACKET_SIZE
    modifies buf
    ensures buf[..] == Splice(old(buf[..]), 58, payload)
  {
    ghost var was := buf[..];
    for i := 0 to 42
      invariant forall j :: 0 <= j < i ==> buf[58 + j] == payload[j]
      invariant forall j :: 0 <= j < 100 && !(58 <= j < 58 + i) ==> buf[j] == was[j]
    {
      buf[58 + i] := payload[i];
    }
  }

  /** xr_grid_entity_packet_decode, src/gen/xr_grid_entity_packet.c:78-94. */
  method DecodeFrom(buf: array<byte>) returns (p: Packet)
    requires buf.Length == PACKET_SIZE
    ensures p == Decode(buf[..])
  {
    hide GetU32, GetI64, GetI16;
    var globalId := FieldU32(buf, 0);
    var px := FieldI64(buf, 4);
    var py := FieldI64(buf, 12);
    var pz := FieldI64(buf, 20);
    var vx := FieldI16(buf, 28);
    var vy := FieldI16(buf, 30);
    var vz := FieldI16(buf, 32);
    var hlc := FieldU32(buf, 40);
    var classOwner := FieldU32(buf, 44);
    var subIndex := FieldU32(buf, 48);
    var rx := FieldI16(buf, 52);
    var ry := FieldI16(buf, 54);
    var rz := FieldI16(buf, 56);
    assert buf[58..] == buf[..][58..];
    p := Packet(globalId, px, py, pz, vx, vy, vz, hlc, classOwner, subIndex, rx, ry, rz, buf[58..]);
  }

  method FieldU32(buf: array<byte>, off: nat) returns (v: u32)
    requires off + 4 <= buf.Length
    ensures v == GetU32(buf[..], off)
  {
    var u := Field(buf, off, 4);
    Widths();
    v := u;
  }

  method FieldI64(buf: array<byte>, off: nat) returns (v: i64)
    requires off + 8 <= buf.Length
    ensures v == GetI64(buf[..], off)
  {
    var u := Field(buf, off, 8);
    Widths();
    v := ToI64(u);
  }

  method FieldI16(buf: array<byte>, off: nat) returns (v: i16)
    requires off + 2 <= buf.Length
    ensures v == GetI16(buf[..], off)
  {
    var u := Field(buf, off, 2);
    Widths();
    v := ToI16(u);
  }

  method Field(buf: array<byte>, off: nat, n: nat) returns (u: nat)
    requires off + n <= buf.Length
    ensures u == FromLittleEndian(buf[..][off..off + n]) && u < Pow256(n)
  {
    u := Get(buf, off, n);
    assert buf[..][off..off + n] == buf[off..off + n];
    FromLittleEndianRoundTrip(buf[off..off + n]);
  }
}
