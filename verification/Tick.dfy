/**
 The per-entity update of a tick (src/zf_zonetick.c:22-31, 96-110) on decoded packets and on stored bytes, and
 its effect on a set of keys of the store.
 */
module Tick {
  import opened Bytes
  import opened Keys
  import opened Packet

  const V_MAX_UM_PER_TICK := 500000
  const INT16_MAX := 32767

  /** C integer division: truncates towards zero. */
  function TruncDiv(a: int, b: int): int
    requires b > 0
  {
    if a >= 0 then a / b else -((-a) / b)
  }

  /** vel_to_um_per_tick */
  function VelToUm(v: i16): int {
    TruncDiv(v * V_MAX_UM_PER_TICK, INT16_MAX)
  }

  /** The displacement is odd in v, exact at INT16_MAX, at most 500015 in magnitude, and its product with any
      32-bit tick count fits in an int64. */
  lemma VelocityRange(v: i16, n: u32)
    ensures -500015 <= VelToUm(v) <= 500015
    ensures v > -0x8000 ==> VelToUm(-v) == -VelToUm(v) && -500000 <= VelToUm(v) <= 500000
    ensures VelToUm(32767) == 500000 && VelToUm(-0x8000) == -500015
    ensures -0x8000_0000_0000_0000 <= VelToUm(v) * n < 0x8000_0000_0000_0000
  {
    var d := VelToUm(v);
    if d >= 0 {
      ProductAtMost(d, n);
    } else {
      ProductAtMost(-d, n);
      assert d * n == -(-d * n);
    }
  }

  /** C division: the displacement is 500000 v / 32767 cut off towards zero, never rounded. */
  lemma VelocityTruncates(v: i16)
    ensures v >= 0 ==> 32767 * VelToUm(v) <= 500000 * v < 32767 * (VelToUm(v) + 1)
    ensures v <= 0 ==> 32767 * (VelToUm(v) - 1) < 500000 * v <= 32767 * VelToUm(v)
  {
    var a := v * V_MAX_UM_PER_TICK;
    if a >= 0 {
      assert a == a / INT16_MAX * INT16_MAX + a % INT16_MAX;
    } else {
      assert -a == (-a) / INT16_MAX * INT16_MAX + (-a) % INT16_MAX;
    }
  }

  lemma ProductAtMost(d: int, n: u32)
    requires 0 <= d <= 500015
    ensures 0 <= d * n <= 500015 * TWO32
  {
    assert (500015 - d) * n >= 0;
    assert d * n >= 0;
  }

  /** One decoded entity after n ticks. Signed overflow, undefined in C, is modelled as wrap-around. */
  function Advance(p: Packet, n: nat): Packet {
    p.(posX := Wrap64(p.posX + VelToUm(p.velX) * n),
       posY := Wrap64(p.posY + VelToUm(p.velY) * n),
       posZ := Wrap64(p.posZ + VelToUm(p.velZ) * n))
  }

  /** The bytes a tick writes back for a stored value. */
  function TickValue(b: Bytes, n: nat): Bytes {
    Encode(Advance(DecodeEntity(b), n))
  }

  lemma AdvanceTwice(p: Packet, n: nat, m: nat)
    ensures Advance(Advance(p, n), m) == Advance(p, n + m)
  {
    AxisTwice(p.posX, VelToUm(p.velX), n, m);
    AxisTwice(p.posY, VelToUm(p.velY), n, m);
    AxisTwice(p.posZ, VelToUm(p.velZ), n, m);
    hide Wrap64, VelToUm;
  }

  lemma AxisTwice(x: int, d: int, n: nat, m: nat)
    ensures Wrap64(Wrap64(x + d * n) + d * m) == Wrap64(x + d * (n + m))
  {
    hide Wrap64;
    WrapAdd(x + d * n, d * m);
    assert x + d * n + d * m == x + d * (n + m);
  }

  /** Tick n then tick m is tick n + m, on the stored bytes. */
  lemma TickCompose(b: Bytes, n: nat, m: nat)
    ensures TickValue(TickValue(b, n), m) == TickValue(b, n + m)
  {
    hide Encode, DecodeEntity, Advance;
    var p := DecodeEntity(b);
    DecodeEntityEncode(Advance(p, n));
    AdvanceTwice(p, n, m);
  }

  function Repeat(b: Bytes, n: nat, k: nat): Bytes {
    if k == 0 then b else TickValue(Repeat(b, n, k - 1), n)
  }

  /** k ticks of count n are one tick of count k n. */
  lemma {:induction false} TickRepeat(b: Bytes, n: nat, k: nat)
    requires k >= 1
    ensures Repeat(b, n, k) == TickValue(b, k * n)
  {
    hide TickValue;
    if k == 1 {
      assert Repeat(b, n, 1) == TickValue(Repeat(b, n, 0), n);
    } else {
      TickRepeat(b, n, k - 1);
      TickCompose(b, (k - 1) * n, n);
      assert (k - 1) * n + n == k * n;
    }
  }

  /** Every value a tick writes is a canonical packet that decodes to the advanced entity; only positions change,
      and a position moves by exactly the displacement when the sum fits in an int64. */
  lemma TickWritesCanonical(b: Bytes, n: nat)
    ensures Canonical(TickValue(b, n))
    ensures var p, q := DecodeEntity(b), DecodeEntity(TickValue(b, n));
            && q == p.(posX := q.posX, posY := q.posY, posZ := q.posZ)
            && (-0x8000_0000_0000_0000 <= p.posX + VelToUm(p.velX) * n < 0x8000_0000_0000_0000
              ==> q.posX == p.posX + VelToUm(p.velX) * n)
            && (-0x8000_0000_0000_0000 <= p.posY + VelToUm(p.velY) * n < 0x8000_0000_0000_0000
              ==> q.posY == p.posY + VelToUm(p.velY) * n)
            && (-0x8000_0000_0000_0000 <= p.posZ + VelToUm(p.velZ) * n < 0x8000_0000_0000_0000
              ==> q.posZ == p.posZ + VelToUm(p.velZ) * n)
  {
    hide Encode, DecodeEntity, Wrap64, VelToUm, Canonical;
    var p := DecodeEntity(b);
    EncodeIsCanonical(Advance(p, n));
    DecodeEntityEncode(Advance(p, n));
    AxisExact(p.posX + VelToUm(p.velX) * n);
    AxisExact(p.posY + VelToUm(p.velY) * n);
    AxisExact(p.posZ + VelToUm(p.velZ) * n);
  }

  /** A stored value shorter than a packet is written back as a hundred zero bytes, and bytes past the hundredth are
      dropped. */
  lemma TickOddLengths(b: Bytes, n: nat)
    ensures |b| < 100 ==> TickValue(b, n) == Zeros(100)
    ensures |b| >= 100 ==> TickValue(b, n) == TickValue(b[..100], n)
  {
    if |b| < 100 {
      StillPacket(n);
      ZeroEncoding();
    } else {
      assert b[..100][..100] == b[..100];
    }
  }

  lemma StillPacket(n: nat)
    ensures Advance(ZERO_PACKET, n) == ZERO_PACKET
  {
    hide VelToUm, Wrap64;
    NoVelocity();
    WrapIdentity(0);
  }

  lemma NoVelocity()
    ensures VelToUm(0) == 0
  {
  }

  lemma AxisExact(x: int)
    ensures -0x8000_0000_0000_0000 <= x < 0x8000_0000_0000_0000 ==> Wrap64(x) == x
  {
    if -0x8000_0000_0000_0000 <= x < 0x8000_0000_0000_0000 {
      WrapIdentity(x);
    }
  }

  // ----- the store

  type Store = map<Key, Bytes>

  datatype Row = Row(key: Key, value: Bytes)

  ghost function RowKeys(rows: seq<Row>): set<Key> {
    set i | 0 <= i < |rows| :: rows[i].key
  }

  /** The result of a range read of zone z: a prefix, in key order, of the entities of the zone. */
  ghost predicate IsScan(view: Store, z: u32, rows: seq<Row>) {
    && (forall i :: 0 <= i < |rows| ==>
          InRange(rows[i].key, z) && rows[i].key in view && view[rows[i].key] == rows[i].value)
    && (forall i, j :: 0 <= i < j < |rows| ==> Less(rows[i].key, rows[j].key))
    && (forall k, j :: k in view && InRange(k, z) && 0 <= j < |rows| && Less(k, rows[j].key) ==> k in RowKeys(rows))
  }

  /** A range read leaves the store no choice but how many rows to return: two scans of one view with as many rows
      are the same rows in the same order. */
  lemma ScanDetermined(view: Store, z: u32, a: seq<Row>, b: seq<Row>)
    requires IsScan(view, z, a) && IsScan(view, z, b) && |a| == |b|
    ensures a == b
  {
    hide IsScan;
    SameKeys(view, z, a, b, |a|);
    RowsFromKeys(view, z, a, b);
  }

  lemma RowsFromKeys(view: Store, z: u32, a: seq<Row>, b: seq<Row>)
    requires IsScan(view, z, a) && IsScan(view, z, b) && |a| == |b|
    requires forall i :: 0 <= i < |a| ==> a[i].key == b[i].key
    ensures a == b
  {
    hide InRange, Less;
    forall i | 0 <= i < |a|
      ensures a[i] == b[i]
    {
      assert view[a[i].key] == a[i].value && view[b[i].key] == b[i].value;
    }
  }

  lemma {:induction false} SameKeys(view: Store, z: u32, a: seq<Row>, b: seq<Row>, n: nat)
    requires IsScan(view, z, a) && IsScan(view, z, b) && n <= |a| && n <= |b|
    ensures forall i :: 0 <= i < n ==> a[i].key == b[i].key
  {
    hide IsScan;
    if n > 0 {
      SameKeys(view, z, a, b, n - 1);
      LessTotal(a[n - 1].key, b[n - 1].key);
      if Less(a[n - 1].key, b[n - 1].key) {
        NoneSkipped(view, z, a, b, n - 1);
      } else if Less(b[n - 1].key, a[n - 1].key) {
        NoneSkipped(view, z, b, a, n - 1);
      }
    }
  }

  /** With the first i keys in common, the next row of one scan cannot come before the next row of the other. */
  lemma NoneSkipped(view: Store, z: u32, a: seq<Row>, b: seq<Row>, i: nat)
    requires IsScan(view, z, a) && IsScan(view, z, b) && i < |a| && i < |b|
    requires forall j :: 0 <= j < i ==> a[j].key == b[j].key
    ensures !Less(a[i].key, b[i].key)
  {
    hide InRange, Less;
    if Less(a[i].key, b[i].key) {
      assert a[i].key in RowKeys(b);
      var j :| 0 <= j < |b| && b[j].key == a[i].key;
      LessIrreflexive(a[i].key);
      if i < j {
        LessTransitive(a[i].key, b[i].key, b[j].key);
      }
    }
  }

  /** What the loop over the rows writes, in order. */
  function TickWrites(rows: seq<Row>, n: nat): Store {
    if rows == [] then map[]
    else
      var last := rows[|rows| - 1];
      TickWrites(rows[..|rows| - 1], n)[last.key := TickValue(last.value, n)]
  }

  /** The transaction's write buffer. */
  class Transaction {
    var writes: Store

    constructor ()
      ensures writes == map[]
    {
      writes := map[];
    }

    /** fdb_sync_set, src/fdb_database.c:119-124 */
    method Set(key: Key, value: Bytes)
      modifies this
      ensures writes == old(writes)[key := value]
    {
      writes := writes[key := value];
    }
  }

  /** The row loop of zt_on_range_read, src/zf_zonetick.c:96-110. */
  method ApplyRows(tr: Transaction, rows: seq<Row>, tickCount: u32)
    modifies tr
    ensures tr.writes == old(tr.writes) + TickWrites(rows, tickCount)
  {
    hide TickValue, TickWrites;
    ghost var was := tr.writes;
    NoRows(was, tickCount);
    for i := 0 to |rows|
      invariant tr.writes == was + TickWrites(rows[..i], tickCount)
    {
      var val := TickBytes(rows[i].value, tickCount);
      NextRow(was, rows, i, tickCount);
      tr.Set(rows[i].key, val);
    }
    assert rows[..|rows|] == rows;
  }

  lemma NoRows(was: Store, n: nat)
    ensures was + TickWrites([], n) == was
  {
  }

  lemma NextRow(was: Store, rows: seq<Row>, i: nat, n: nat)
    requires i < |rows|
    ensures was + TickWrites(rows[..i + 1], n)
         == (was + TickWrites(rows[..i], n))[rows[i].key := TickValue(rows[i].value, n)]
  {
    hide TickValue;
    assert rows[..i + 1][..i] == rows[..i];
  }

  /** The loop body, src/zf_zonetick.c:97-108: decode, move, encode into a fresh buffer. */
  method TickBytes(value: Bytes, tickCount: u32) returns (out: Bytes)
    ensures out == TickValue(value, tickCount)
  {
    hide VelToUm, Decode, Encode, Wrap64;
    var ev := ZERO_PACKET;
    if |value| >= PACKET_SIZE {
      var buf := new byte[100](i requires 0 <= i < 100 => value[i]);
      assert buf[..] == value[..PACKET_SIZE];
      ev := DecodeFrom(buf);
    }
    var dx := VelToUm(ev.velX) * tickCount;
    var dy := VelToUm(ev.velY) * tickCount;
    var dz := VelToUm(ev.velZ) * tickCount;
    ev := ev.(posX := Wrap64(ev.posX + dx), posY := Wrap64(ev.posY + dy), posZ := Wrap64(ev.posZ + dz));
    var valBuf := new byte[100](_ => 0);
    EncodeInto(ev, valBuf);
    out := valBuf[..];
  }

  lemma {:induction false} TickWritesAt(rows: seq<Row>, n: nat, view: Store)
    requires forall i :: 0 <= i < |rows| ==> rows[i].key in view && view[rows[i].key] == rows[i].value
    ensures TickWrites(rows, n).Keys == RowKeys(rows)
    ensures forall k :: k in TickWrites(rows, n) ==> k in view && TickWrites(rows, n)[k] == TickValue(view[k], n)
  {
    hide TickValue;
    if rows != [] {
      var init, last := rows[..|rows| - 1], rows[|rows| - 1];
      TickWritesAt(init, n, view);
      assert RowKeys(rows) == RowKeys(init) + {last.key} by {
        forall k | k in RowKeys(rows)
          ensures k in RowKeys(init) + {last.key}
        {
          var i :| 0 <= i < |rows| && rows[i].key == k;
          if i < |init| {
            assert init[i].key == k;
          }
        }
        assert forall i :: 0 <= i < |init| ==> init[i] == rows[i];
        assert rows[|rows| - 1].key in RowKeys(rows);
      }
    }
  }
}
