/**
 The solver as the source runs it: loops over row-major arrays of nine reals, updated in place.
 Every method is proved to compute the matrix function the theorems are about.
 */
module Solver {
  import opened LinAlg
  import opened Forms
  import opened NewtonSchulz
  import opened FastPath
  import opened MathLibrary
  import opened Jacobi
  import opened Kabsch
  import opened ShortestArc
  import opened Align

  /** The matrix stored in row-major order. */
  function MatOf(s: seq<real>): Mat
    requires |s| == 9
  {
    Mat(Vec(s[0], s[1], s[2]), Vec(s[3], s[4], s[5]), Vec(s[6], s[7], s[8]))
  }

  function VecOf(s: seq<real>): Vec
    requires |s| == 3
  {
    Vec(s[0], s[1], s[2])
  }

  /** src/gen/sinew_align.c:37-41 */
  method Det9(m: array<real>) returns (d: real)
    requires m.Length == 9
    ensures d == Det(MatOf(m[..]))
  {
    d := m[0] * (m[4] * m[8] - m[5] * m[7]) - m[1] * (m[3] * m[8] - m[5] * m[6]) + m[2] * (m[3] * m[7] - m[4] * m[6]);
    DetOf(m[0], m[1], m[2], m[3], m[4], m[5], m[6], m[7], m[8]);
  }

  // ----- products

  function MulEntry(a: seq<real>, b: seq<real>, k: nat): real
    requires |a| == 9 && |b| == 9 && k < 9
  {
    var r, c := k / 3, k % 3;
    a[r * 3] * b[c] + a[r * 3 + 1] * b[3 + c] + a[r * 3 + 2] * b[6 + c]
  }

  lemma MulEntries(a: seq<real>, b: seq<real>, c: seq<real>)
    requires |a| == 9 && |b| == 9 && |c| == 9 && forall k :: 0 <= k < 9 ==> c[k] == MulEntry(a, b, k)
    ensures MatOf(c) == Mul(MatOf(a), MatOf(b))
  {
    MulRow(a, b, c, 0);
    MulRow(a, b, c, 1);
    MulRow(a, b, c, 2);
  }

  lemma MulRow(a: seq<real>, b: seq<real>, c: seq<real>, r: nat)
    requires |a| == 9 && |b| == 9 && |c| == 9 && r < 3 && forall k :: 0 <= k < 9 ==> c[k] == MulEntry(a, b, k)
    ensures Vec(c[r * 3], c[r * 3 + 1], c[r * 3 + 2])
         == Apply(Transpose(MatOf(b)), Vec(a[r * 3], a[r * 3 + 1], a[r * 3 + 2]))
  {
    hide Dot, MulEntry;
    MulEntryIs(a, b, r, 0);
    MulEntryIs(a, b, r, 1);
    MulEntryIs(a, b, r, 2);
  }

  lemma MulEntryIs(a: seq<real>, b: seq<real>, r: nat, c: nat)
    requires |a| == 9 && |b| == 9 && r < 3 && c < 3
    ensures MulEntry(a, b, r * 3 + c) == Dot(Vec(b[c], b[3 + c], b[6 + c]), Vec(a[r * 3], a[r * 3 + 1], a[r * 3 + 2]))
  {
    hide Dot;
    FlatIndex(r, c);
    var u, w := Vec(a[r * 3], a[r * 3 + 1], a[r * 3 + 2]), Vec(b[c], b[3 + c], b[6 + c]);
    DotRaw(u, w);
    DotComm(u, w);
  }

  /** src/gen/sinew_align.c:43-53; the inputs may alias the output, which is written last. */
  method Mul9(a: array<real>, b: array<real>, out: array<real>)
    requires a.Length == 9 && b.Length == 9 && out.Length == 9
    modifies out
    ensures MatOf(out[..]) == Mul(MatOf(old(a[..])), MatOf(old(b[..])))
  {
    hide MulEntry;
    ghost var sa, sb := a[..], b[..];
    var c := new real[9];
    for r := 0 to 3
      modifies c
      invariant forall k :: 0 <= k < 3 * r ==> c[k] == MulEntry(sa, sb, k)
    {
      for col := 0 to 3
        modifies c
        invariant forall k :: 0 <= k < 3 * r + col ==> c[k] == MulEntry(sa, sb, k)
      {
        assert a[..] == sa && b[..] == sb;
        c[r * 3 + col] := MulCell(a, b, r, col);
      }
    }
    Copy9(c, out);
    MulEntries(sa, sb, out[..]);
  }

  /** src/gen/sinew_align.c:48-49 */
  method MulCell(a: array<real>, b: array<real>, r: nat, col: nat) returns (x: real)
    requires a.Length == 9 && b.Length == 9 && r < 3 && col < 3
    ensures x == MulEntry(a[..], b[..], 3 * r + col)
  {
    FlatIndex(r, col);
    x := a[r * 3] * b[col] + a[r * 3 + 1] * b[3 + col] + a[r * 3 + 2] * b[6 + col];
  }

  method Copy9(src: array<real>, dst: array<real>)
    requires src.Length == 9 && dst.Length == 9
    modifies dst
    ensures dst[..] == old(src[..])
  {
    ghost var was := src[..];
    for k := 0 to 9
      invariant forall i :: 0 <= i < k ==> dst[i] == was[i]
      invariant forall i :: k <= i < 9 ==> src[i] == was[i]
    {
      dst[k] := src[k];
    }
  }

  /** src/gen/sinew_align.c:55-64 */
  method Transpose9(m: array<real>, out: array<real>)
    requires m.Length == 9 && out.Length == 9
    modifies out
    ensures MatOf(out[..]) == Transpose(MatOf(old(m[..])))
  {
    ghost var s := m[..];
    var o := new real[9];
    for i := 0 to 3
      modifies o
      invariant forall k :: 0 <= k < 3 * i ==> o[k] == s[k % 3 * 3 + k / 3]
    {
      for j := 0 to 3
        modifies o
        invariant forall k :: 0 <= k < 3 * i + j ==> o[k] == s[k % 3 * 3 + k / 3]
      {
        o[i * 3 + j] := m[j * 3 + i];
      }
    }
    Copy9(o, out);
  }

  // ----- Newton-Schulz

  function GramEntry(r: seq<real>, k: nat): real
    requires |r| == 9 && k < 9
  {
    var a, b := k / 3, k % 3;
    r[a] * r[b] + r[3 + a] * r[3 + b] + r[6 + a] * r[6 + b]
  }

  lemma GramEntries(r: seq<real>, g: seq<real>)
    requires |r| == 9 && |g| == 9 && forall k :: 0 <= k < 9 ==> g[k] == GramEntry(r, k)
    ensures MatOf(g) == Gram(MatOf(r))
  {
    GramRow(r, g, 0);
    GramRow(r, g, 1);
    GramRow(r, g, 2);
  }

  lemma GramEntryIs(r: seq<real>, a: nat, b: nat)
    requires |r| == 9 && a < 3 && b < 3
    ensures GramEntry(r, a * 3 + b) == Dot(ColumnAt(r, b), ColumnAt(r, a))
  {
    hide Dot;
    FlatIndex(a, b);
    DotRaw(ColumnAt(r, a), ColumnAt(r, b));
    DotComm(ColumnAt(r, a), ColumnAt(r, b));
  }

  lemma GramRow(r: seq<real>, g: seq<real>, a: nat)
    requires |r| == 9 && |g| == 9 && a < 3 && forall k :: 0 <= k < 9 ==> g[k] == GramEntry(r, k)
    ensures Vec(g[a * 3], g[a * 3 + 1], g[a * 3 + 2]) == Apply(Transpose(MatOf(r)), Vec(r[a], r[3 + a], r[6 + a]))
  {
    hide Dot, GramEntry;
    GramEntryIs(r, a, 0);
    GramEntryIs(r, a, 1);
    GramEntryIs(r, a, 2);
  }

  /** The 3x3 loop of src/gen/sinew_align.c:116-120 and 219-223: all inner products of columns. */
  method GramInto(r: array<real>, g: array<real>)
    requires r.Length == 9 && g.Length == 9 && r != g
    modifies g
    ensures MatOf(g[..]) == Gram(MatOf(r[..]))
  {
    hide GramEntry;
    ghost var s := r[..];
    for a := 0 to 3
      invariant forall k :: 0 <= k < 3 * a ==> g[k] == GramEntry(s, k)
    {
      for b := 0 to 3
        invariant forall k :: 0 <= k < 3 * a + b ==> g[k] == GramEntry(s, k)
      {
        g[a * 3 + b] := GramCell(r, a, b);
      }
    }
    GramEntries(s, g[..]);
  }

  /** src/gen/sinew_align.c:118 and 221 */
  method GramCell(r: array<real>, a: nat, b: nat) returns (x: real)
    requires r.Length == 9 && a < 3 && b < 3
    ensures x == GramEntry(r[..], 3 * a + b)
  {
    FlatIndex(a, b);
    x := r[a] * r[b] + r[3 + a] * r[3 + b] + r[6 + a] * r[6 + b];
  }

  function RowAt(s: seq<real>, r: nat): Vec
    requires |s| == 9 && r < 3
  {
    Vec(s[r * 3], s[r * 3 + 1], s[r * 3 + 2])
  }

  /** The largest absolute sum of the first n rows. */
  function RowSumsUpTo(s: seq<real>, n: nat): real
    requires |s| == 9 && n <= 3
  {
    if n == 0 then 0.0 else Max(RowSumsUpTo(s, n - 1), RowSum(RowAt(s, n - 1)))
  }

  lemma RowSumsOfThree(s: seq<real>)
    requires |s| == 9
    ensures RowSumsUpTo(s, 3) == MaxRowSum(MatOf(s))
  {
    hide RowSum, Max;
    assert RowSumsUpTo(s, 1) == Max(0.0, RowSum(RowAt(s, 0)));
    assert RowSumsUpTo(s, 2) == Max(RowSumsUpTo(s, 1), RowSum(RowAt(s, 1)));
  }

  /** The row-sum loop of src/gen/sinew_align.c:105-109 and 141-145. */
  method LargestRowSum(h: array<real>) returns (mrs: real)
    requires h.Length == 9
    ensures mrs == MaxRowSum(MatOf(h[..]))
  {
    ghost var s := h[..];
    mrs := 0.0;
    for r := 0 to 3
      invariant mrs == RowSumsUpTo(s, r)
    {
      var rowAbsSum := Abs(h[r * 3]) + Abs(h[r * 3 + 1]) + Abs(h[r * 3 + 2]);
      mrs := Max(mrs, rowAbsSum);
    }
    RowSumsOfThree(s);
  }

  lemma ScaledEntries(a: seq<real>, b: seq<real>, t: real)
    requires |a| == 9 && |b| == 9 && forall k :: 0 <= k < 9 ==> b[k] == Times(t, a[k])
    ensures MatOf(b) == MScale(t, MatOf(a))
  {
    hide Times;
  }

  lemma Divided(x: real, d: real)
    requires d > 0.0
    ensures x / d == Times(1.0 / d, x)
  {
  }

  /** term = 3I - rtr, src/gen/sinew_align.c:121-124 */
  method CorrectorInto(rtr: array<real>, term: array<real>)
    requires rtr.Length == 9 && term.Length == 9 && rtr != term
    modifies term
    ensures MatOf(term[..]) == MSub(MScale(3.0, ID), MatOf(rtr[..]))
  {
    for k := 0 to 9
      invariant forall i :: 0 <= i < k ==> term[i] == (if i % 4 == 0 then 3.0 else 0.0) - rtr[i]
    {
      term[k] := (if k % 4 == 0 then 3.0 else 0.0) - rtr[k];
    }
    ScaledIdentity(3.0);
    hide MScale;
  }

  /** One pass of the loop body of src/gen/sinew_align.c:114-130, in place. */
  method StepInPlace(r: array<real>)
    requires r.Length == 9
    modifies r
    ensures MatOf(r[..]) == Step(MatOf(old(r[..])))
  {
    hide Mul, MScale, MSub, Gram;
    ghost var x := MatOf(r[..]);
    var rtr := new real[9];
    GramInto(r, rtr);
    var term := new real[9];
    CorrectorInto(rtr, term);
    var rn := new real[9];
    Mul9(r, term, rn);
    ghost var n := rn[..];
    for k := 0 to 9
      modifies r
      invariant forall i :: 0 <= i < k ==> r[i] == Times(0.5, n[i])
    {
      Halved(rn[k]);
      r[k] := rn[k] * 0.5;
    }
    ScaledEntries(n, r[..], 0.5);
  }

  lemma Halved(x: real)
    ensures x * 0.5 == Times(0.5, x)
  {
  }

  /** The scaling loop of src/gen/sinew_align.c:110-113. */
  method StartInto(h: array<real>, r: array<real>)
    requires h.Length == 9 && r.Length == 9 && h != r
    modifies r
    ensures MatOf(r[..]) == Start(MatOf(h[..]))
  {
    hide MaxRowSum, Times, MScale;
    ghost var s := h[..];
    var mrs := LargestRowSum(h);
    RowBelowMax(MatOf(s));
    var d := mrs + EPS;
    for i := 0 to 9
      invariant forall k :: 0 <= k < i ==> r[k] == Times(1.0 / d, s[k])
    {
      Divided(s[i], d);
      r[i] := h[i] / (mrs + EPS);
    }
    ScaledEntries(s, r[..], 1.0 / d);
  }

  /** sinew_ns30, src/gen/sinew_align.c:103-137. */
  method Ns30Into(h: array<real>, out: array<real>)
    requires h.Length == 9 && out.Length == 9
    modifies out
    ensures MatOf(out[..]) == Ns30(MatOf(old(h[..])))
  {
    hide Start, Step, Det;
    ghost var x := Start(MatOf(h[..]));
    var r := new real[9];
    StartInto(h, r);
    for iter := 0 to 30
      modifies r
      invariant MatOf(r[..]) == Iterate(x, iter)
    {
      StepInPlace(r);
    }
    var d := Det9(r);
    if d < 0.0 {
      r[2] := -r[2];
      r[5] := -r[5];
      r[8] := -r[8];
    }
    Copy9(r, out);
  }

  // ----- regularisation and validity

  /** sinew_regularize, src/gen/sinew_align.c:139-154. */
  method RegularizeInto(h: array<real>, out: array<real>)
    requires h.Length == 9 && out.Length == 9
    modifies out
    ensures MatOf(out[..]) == Regularize(MatOf(old(h[..])))
  {
    hide Bump, MScale, MAdd;
    var add := BumpOf(h);
    Copy9(h, out);
    AddToDiagonal(out, add);
  }

  /** src/gen/sinew_align.c:141-149 */
  method BumpOf(h: array<real>) returns (add: real)
    requires h.Length == 9
    ensures add == Bump(MatOf(h[..]))
  {
    hide Det, MaxRowSum;
    var scale := LargestRowSum(h);
    if scale < EPS {
      scale := EPS;
    }
    var d := Det9(h);
    var vol := Abs(d) / (scale * scale * scale);
    var rw := Max(0.0, Min(1.0, (0.000001 - vol) / 0.000001));
    add := 0.05 * rw * scale;
  }

  /** src/gen/sinew_align.c:151-153 */
  method AddToDiagonal(out: array<real>, add: real)
    requires out.Length == 9
    modifies out
    ensures MatOf(out[..]) == MAdd(MatOf(old(out[..])), MScale(add, ID))
  {
    hide MScale;
    out[0] := out[0] + add;
    out[4] := out[4] + add;
    out[8] := out[8] + add;
    ScaledIdentity(add);
  }

  /** The entries of r^T r - I in row-major order. */
  function DefectEntry(r: seq<real>, k: nat): real
    requires |r| == 9 && k < 9
  {
    GramEntry(r, k) - (if k % 4 == 0 then 1.0 else 0.0)
  }

  function DefectsUpTo(r: seq<real>, n: nat): real
    requires |r| == 9 && n <= 9
  {
    if n == 0 then 0.0 else Max(DefectsUpTo(r, n - 1), Abs(DefectEntry(r, n - 1)))
  }

  lemma DefectsOfNine(r: seq<real>)
    requires |r| == 9
    ensures DefectsUpTo(r, 9) == MaxAbs(MSub(Gram(MatOf(r)), ID))
  {
    hide Gram, Max, Abs, GramEntry, DefectsUpTo, RowMax;
    var g := seq(9, k requires 0 <= k < 9 => GramEntry(r, k));
    GramEntries(r, g);
    var m := MSub(MatOf(g), ID);
    DefectRow(r, 0, m.r0);
    DefectRow(r, 3, m.r1);
    DefectRow(r, 6, m.r2);
    NoDefects(r);
  }

  lemma NoDefects(r: seq<real>)
    requires |r| == 9
    ensures DefectsUpTo(r, 0) == 0.0
  {
  }

  lemma DefectRow(r: seq<real>, n: nat, v: Vec)
    requires |r| == 9 && n + 3 <= 9
    requires v == Vec(DefectEntry(r, n), DefectEntry(r, n + 1), DefectEntry(r, n + 2))
    ensures DefectsUpTo(r, n + 3) == RowMax(DefectsUpTo(r, n), v)
  {
    hide Max, Abs, DefectEntry;
    assert DefectsUpTo(r, n + 1) == Max(DefectsUpTo(r, n), Abs(DefectEntry(r, n)));
    assert DefectsUpTo(r, n + 2) == Max(DefectsUpTo(r, n + 1), Abs(DefectEntry(r, n + 1)));
    assert DefectsUpTo(r, n + 3) == Max(DefectsUpTo(r, n + 2), Abs(DefectEntry(r, n + 2)));
  }

  /** sinew_valid9, src/gen/sinew_align.c:156-171. */
  method IsValid9(r: array<real>) returns (ok: bool)
    requires r.Length == 9
    ensures ok == Valid9(MatOf(r[..]))
  {
    hide Det, Gram, MaxAbs, Max, Abs, DefectEntry;
    ghost var s := r[..];
    var d := Det9(r);
    DefectsOfNine(s);
    if !(d > 0.0 && Abs(d - 1.0) <= 0.01) {
      return false;
    }
    var e := 0.0;
    for i := 0 to 3
      invariant e == DefectsUpTo(s, 3 * i)
    {
      for j := 0 to 3
        invariant e == DefectsUpTo(s, 3 * i + j)
      {
        var v := DefectAt(r, i, j);
        e := Max(e, Abs(v));
      }
    }
    return e <= 0.01;
  }

  /** src/gen/sinew_align.c:165-166 */
  method DefectAt(r: array<real>, i: nat, j: nat) returns (v: real)
    requires r.Length == 9 && i < 3 && j < 3
    ensures v == DefectEntry(r[..], 3 * i + j)
  {
    FlatIndex(i, j);
    var x := GramCell(r, i, j);
    v := x - (if i == j then 1.0 else 0.0);
  }

  lemma FlatIndex(i: nat, j: nat)
    requires i < 3 && j < 3
    ensures (3 * i + j) / 3 == i && (3 * i + j) % 3 == j && ((3 * i + j) % 4 == 0 <==> i == j)
  {
    assert i == 0 || i == 1 || i == 2;
  }

  // ----- Jacobi

  function PlaneOf(k: nat): Plane
    requires k < 3
  {
    if k == 0 then P01 else if k == 1 then P02 else P12
  }

  function First(k: nat): nat
    requires k < 3
  {
    if k == 2 then 1 else 0
  }

  function Second(k: nat): nat
    requires k < 3
  {
    if k == 0 then 1 else 2
  }

  function ColumnAt(s: seq<real>, c: nat): Vec
    requires |s| == 9 && c < 3
  {
    Vec(s[c], s[3 + c], s[6 + c])
  }

  /** src/gen/sinew_align.c:193-197 and 203-207 */
  method RotateColumnsInPlace(a: array<real>, k: nat, c: real, s: real)
    requires a.Length == 9 && k < 3
    modifies a
    ensures MatOf(a[..]) == RotateColumns(MatOf(old(a[..])), PlaneOf(k), c, s)
  {
    hide Times;
    ghost var was := a[..];
    var p, q := First(k), Second(k);
    for i := 0 to 3
      invariant forall r :: 0 <= r < i ==> RowAt(a[..], r) == RotateRow(RowAt(was, r), PlaneOf(k), c, s)
      invariant forall r :: i <= r < 3 ==> RowAt(a[..], r) == RowAt(was, r)
    {
      assert RowAt(a[..], i) == RowAt(was, i);
      var aip, aiq := a[i * 3 + p], a[i * 3 + q];
      RotatedPair(c, s, aip, aiq);
      a[i * 3 + p] := c * aip - s * aiq;
      a[i * 3 + q] := s * aip + c * aiq;
    }
    assert RowAt(a[..], 0) == RotateRow(RowAt(was, 0), PlaneOf(k), c, s);
    assert RowAt(a[..], 1) == RotateRow(RowAt(was, 1), PlaneOf(k), c, s);
    assert RowAt(a[..], 2) == RotateRow(RowAt(was, 2), PlaneOf(k), c, s);
  }

  lemma RotatedPair(c: real, s: real, x: real, y: real)
    ensures c * x - s * y == Times(c, x) - Times(s, y)
    ensures s * x + c * y == Times(s, x) + Times(c, y)
  {
  }

  /** src/gen/sinew_align.c:198-202 */
  method RotateRowsInPlace(a: array<real>, k: nat, c: real, s: real)
    requires a.Length == 9 && k < 3
    modifies a
    ensures MatOf(a[..]) == RotateRows(MatOf(old(a[..])), PlaneOf(k), c, s)
  {
    hide Times;
    ghost var was := a[..];
    var p, q := First(k), Second(k);
    for i := 0 to 3
      invariant forall j :: 0 <= j < i ==> ColumnAt(a[..], j) == RotateRow(ColumnAt(was, j), PlaneOf(k), c, s)
      invariant forall j :: i <= j < 3 ==> ColumnAt(a[..], j) == ColumnAt(was, j)
    {
      assert ColumnAt(a[..], i) == ColumnAt(was, i);
      var api, aqi := a[p * 3 + i], a[q * 3 + i];
      RotatedPair(c, s, api, aqi);
      a[p * 3 + i] := c * api - s * aqi;
      a[q * 3 + i] := s * api + c * aqi;
    }
    RotateRowsTransposed(MatOf(was), PlaneOf(k), c, s);
    hide RotateRows;
    assert ColumnAt(a[..], 0) == RotateRow(ColumnAt(was, 0), PlaneOf(k), c, s);
    assert ColumnAt(a[..], 1) == RotateRow(ColumnAt(was, 1), PlaneOf(k), c, s);
    assert ColumnAt(a[..], 2) == RotateRow(ColumnAt(was, 2), PlaneOf(k), c, s);
  }

  lemma PivotEntries(s: seq<real>, k: nat)
    requires |s| == 9 && k < 3
    ensures Pivot(MatOf(s), PlaneOf(k)) == s[First(k) * 3 + Second(k)]
    ensures Gap(MatOf(s), PlaneOf(k)) == s[Second(k) * 3 + Second(k)] - s[First(k) * 3 + First(k)]
  {
  }

  /** One plane of one sweep, src/gen/sinew_align.c:186-207. */
  method RotateOnce(m: Libm, a: array<real>, v: array<real>, k: nat)
    requires a.Length == 9 && v.Length == 9 && a != v && k < 3
    modifies a, v
    ensures Decomposition(MatOf(a[..]), MatOf(v[..]))
         == Rotate(m, Decomposition(MatOf(old(a[..])), MatOf(old(v[..]))), PlaneOf(k))
  {
    hide RotateRows, RotateColumns, Pivot, Gap, MatOf, PlaneOf, Abs;
    var apq, gap := PivotOf(a, k);
    if Abs(apq) < TINY {
      return;
    }
    var phi := 0.5 * m.atan2(2.0 * apq, gap);
    var c, s := m.cos(phi), m.sin(phi);
    RotateBoth(a, v, k, c, s);
  }

  method PivotOf(a: array<real>, k: nat) returns (apq: real, gap: real)
    requires a.Length == 9 && k < 3
    ensures apq == Pivot(MatOf(a[..]), PlaneOf(k)) && gap == Gap(MatOf(a[..]), PlaneOf(k))
  {
    PivotEntries(a[..], k);
    hide Pivot, Gap, MatOf, PlaneOf;
    var p, q := First(k), Second(k);
    apq := a[p * 3 + q];
    gap := a[q * 3 + q] - a[p * 3 + p];
  }

  /** src/gen/sinew_align.c:193-207 */
  method RotateBoth(a: array<real>, v: array<real>, k: nat, c: real, s: real)
    requires a.Length == 9 && v.Length == 9 && a != v && k < 3
    modifies a, v
    ensures MatOf(a[..]) == RotateRows(RotateColumns(MatOf(old(a[..])), PlaneOf(k), c, s), PlaneOf(k), c, s)
    ensures MatOf(v[..]) == RotateColumns(MatOf(old(v[..])), PlaneOf(k), c, s)
  {
    hide RotateRows, RotateColumns, MatOf, PlaneOf;
    RotateColumnsInPlace(a, k, c, s);
    RotateRowsInPlace(a, k, c, s);
    RotateColumnsInPlace(v, k, c, s);
  }

  /** The first k planes of a sweep. */
  function PartialSweep(m: Libm, d: Decomposition, k: nat): Decomposition
    requires k <= 3
  {
    if k == 0 then d else Rotate(m, PartialSweep(m, d, k - 1), PlaneOf(k - 1))
  }

  lemma WholeSweep(m: Libm, d: Decomposition)
    ensures PartialSweep(m, d, 3) == Sweep(m, d)
  {
    hide Rotate;
    assert PartialSweep(m, d, 1) == Rotate(m, PartialSweep(m, d, 0), PlaneOf(0));
    assert PartialSweep(m, d, 2) == Rotate(m, PartialSweep(m, d, 1), PlaneOf(1));
  }

  /** src/gen/sinew_align.c:185-208 */
  method SweepInPlace(m: Libm, a: array<real>, v: array<real>)
    requires a.Length == 9 && v.Length == 9 && a != v
    modifies a, v
    ensures Decomposition(MatOf(a[..]), MatOf(v[..])) == Sweep(m, Decomposition(MatOf(old(a[..])), MatOf(old(v[..]))))
  {
    hide Rotate, MatOf, Sweep;
    ghost var d := Decomposition(MatOf(a[..]), MatOf(v[..]));
    for k := 0 to 3
      invariant Decomposition(MatOf(a[..]), MatOf(v[..])) == PartialSweep(m, d, k)
    {
      RotateOnce(m, a, v, k);
    }
    WholeSweep(m, d);
  }

  lemma IdentityFlat(s: seq<real>)
    requires |s| == 9 && forall k :: 0 <= k < 9 ==> s[k] == if k % 4 == 0 then 1.0 else 0.0
    ensures MatOf(s) == ID
  {
  }

  lemma ConvergedEntries(s: seq<real>)
    requires |s| == 9
    ensures Converged(MatOf(s)) <==> Abs(s[1]) + Abs(s[2]) + Abs(s[5]) < TINY
  {
    hide Abs;
  }

  /** The sweep loop of src/gen/sinew_align.c:181-209. */
  method SweepLoop(m: Libm, a: array<real>, v: array<real>)
    requires a.Length == 9 && v.Length == 9 && a != v
    modifies a, v
    ensures Decomposition(MatOf(a[..]), MatOf(v[..]))
         == Sweeps(m, Decomposition(MatOf(old(a[..])), MatOf(old(v[..]))), 50)
  {
    hide Sweep, Abs, MatOf, Converged;
    ghost var was := Decomposition(MatOf(a[..]), MatOf(v[..]));
    var iter := 0;
    while iter < 50
      invariant 0 <= iter <= 50
      invariant Sweeps(m, Decomposition(MatOf(a[..]), MatOf(v[..])), 50 - iter) == Sweeps(m, was, 50)
    {
      ConvergedEntries(a[..]);
      if Abs(a[1]) + Abs(a[2]) + Abs(a[5]) < TINY {
        break;
      }
      SweepInPlace(m, a, v);
      iter := iter + 1;
    }
  }

  /** sinew_jacobi9, src/gen/sinew_align.c:173-214. */
  method Jacobi9Into(m: Libm, aIn: array<real>, eigenvalues: array<real>, outV: array<real>)
    requires aIn.Length == 9 && eigenvalues.Length == 3 && outV.Length == 9 && eigenvalues != outV
    modifies eigenvalues, outV
    ensures var d := Jacobi9(m, MatOf(old(aIn[..])));
            VecOf(eigenvalues[..]) == Vec(d.a.r0.x, d.a.r1.y, d.a.r2.z) && MatOf(outV[..]) == d.v
  {
    hide Sweeps;
    var a, v := new real[9], new real[9](k => if k % 4 == 0 then 1.0 else 0.0);
    Copy9(aIn, a);
    IdentityFlat(v[..]);
    SweepLoop(m, a, v);
    eigenvalues[0] := a[0];
    eigenvalues[1] := a[4];
    eigenvalues[2] := a[8];
    Copy9(v, outV);
  }

  // ----- Kabsch

  /** The eigenpairs selected by the index array. */
  function Picked(w: seq<real>, vc: seq<real>, o: seq<nat>): Triple3<Eigen>
    requires |w| == 3 && |vc| == 9 && |o| == 3 && o[0] < 3 && o[1] < 3 && o[2] < 3
  {
    Triple3(Eigen(w[o[0]], ColumnAt(vc, o[0])), Eigen(w[o[1]], ColumnAt(vc, o[1])), Eigen(w[o[2]], ColumnAt(vc, o[2])))
  }

  /** The first n of the three compare-and-swap steps of the sort. */
  function AfterSwaps(e: Triple3<Eigen>, n: nat): Triple3<Eigen>
    requires n <= 3
  {
    if n == 0 then e
    else
      var p := AfterSwaps(e, n - 1);
      if n == 1 then if p.t1.w > p.t0.w then Triple3(p.t1, p.t0, p.t2) else p
      else if n == 2 then if p.t2.w > p.t0.w then Triple3(p.t2, p.t1, p.t0) else p
      else if p.t2.w > p.t1.w then Triple3(p.t0, p.t2, p.t1) else p
  }

  lemma AllSwaps(e: Triple3<Eigen>)
    ensures AfterSwaps(e, 3) == Sorted(e)
  {
    assert AfterSwaps(e, 1) == if e.t1.w > e.t0.w then Triple3(e.t1, e.t0, e.t2) else e;
    var p := AfterSwaps(e, 1);
    assert AfterSwaps(e, 2) == if p.t2.w > p.t0.w then Triple3(p.t2, p.t1, p.t0) else p;
  }

  /** How many comparisons precede the comparison of positions a and b. */
  function Before(a: nat, b: nat): nat
    requires a < 3 && a < b <= 3
  {
    if a == 0 then b - 1 else if a == 1 then b else 3
  }

  /** The exchange sort of src/gen/sinew_align.c:227-236. */
  method SortOrder(w: array<real>, ghost vc: seq<real>) returns (ord: array<nat>)
    requires w.Length == 3 && |vc| == 9
    ensures fresh(ord) && ord.Length == 3 && forall i :: 0 <= i < 3 ==> ord[i] < 3
    ensures Picked(w[..], vc, ord[..]) == Sorted(Picked(w[..], vc, [0, 1, 2]))
  {
    ord := new nat[3](i => i);
    ghost var e := Picked(w[..], vc, [0, 1, 2]);
    assert ord[..] == [0, 1, 2];
    hide ColumnAt;
    for a := 0 to 3
      invariant forall i :: 0 <= i < 3 ==> ord[i] < 3
      invariant Picked(w[..], vc, ord[..]) == AfterSwaps(e, if a == 0 then 0 else if a == 1 then 2 else 3)
    {
      var b := a + 1;
      while b < 3
        invariant a < b <= 3
        invariant forall i :: 0 <= i < 3 ==> ord[i] < 3
        invariant Picked(w[..], vc, ord[..]) == AfterSwaps(e, Before(a, b))
      {
        if w[ord[b]] > w[ord[a]] {
          ord[a], ord[b] := ord[b], ord[a];
        }
        b := b + 1;
      }
    }
    AllSwaps(e);
  }

  lemma ColumnsAre(s: seq<real>, f: Triple3<Vec>)
    requires |s| == 9 && ColumnAt(s, 0) == f.t0 && ColumnAt(s, 1) == f.t1 && ColumnAt(s, 2) == f.t2
    ensures MatOf(s) == Columns(f)
  {
  }

  /** src/gen/sinew_align.c:238-245 */
  method SelectVectors(m: Libm, w: array<real>, vc: array<real>, ord: array<nat>, v: array<real>, sig: array<real>)
    requires w.Length == 3 && vc.Length == 9 && ord.Length == 3 && v.Length == 9 && sig.Length == 3
    requires forall i :: 0 <= i < 3 ==> ord[i] < 3
    requires w != sig && vc != v && v != sig && vc != sig && w != v
    modifies v, sig
    ensures var e := Picked(w[..], vc[..], ord[..]);
            VecOf(sig[..]) == Sigma(m, e) && MatOf(v[..]) == Columns(RightVectors(e))
  {
    hide ColumnAt;
    ghost var sv := vc[..];
    for c := 0 to 3
      invariant forall i :: 0 <= i < c ==> sig[i] == m.sqrt(Max(w[ord[i]], 0.0))
      invariant forall i :: 0 <= i < c ==> ColumnAt(v[..], i) == ColumnAt(sv, ord[i])
    {
      sig[c] := m.sqrt(Max(w[ord[c]], 0.0));
      CopyColumn(vc, ord[c], v, c);
    }
    ghost var e := Picked(w[..], vc[..], ord[..]);
    assert ColumnAt(v[..], 0) == e.t0.v && ColumnAt(v[..], 1) == e.t1.v && ColumnAt(v[..], 2) == e.t2.v;
    ColumnsAre(v[..], RightVectors(e));
  }

  /** src/gen/sinew_align.c:242-244 */
  method CopyColumn(vc: array<real>, o: nat, v: array<real>, c: nat)
    requires vc.Length == 9 && v.Length == 9 && vc != v && o < 3 && c < 3
    modifies v
    ensures ColumnAt(v[..], c) == ColumnAt(vc[..], o)
    ensures forall i :: 0 <= i < 3 && i != c ==> ColumnAt(v[..], i) == ColumnAt(old(v[..]), i)
  {
    ghost var was := v[..];
    for r := 0 to 3
      invariant forall k :: 0 <= k < 9 ==> v[k] == if k % 3 == c && k / 3 < r then vc[k / 3 * 3 + o] else was[k]
    {
      v[r * 3 + c] := vc[r * 3 + o];
    }
  }

  /** src/gen/sinew_align.c:247-256 */
  method LeftInto(h: array<real>, v: array<real>, sig: array<real>, u: array<real>)
    requires h.Length == 9 && v.Length == 9 && sig.Length == 3 && u.Length == 9 && u != h && u != v && u != sig
    modifies u
    ensures forall c :: 0 <= c < 3 ==> ColumnAt(u[..], c) == Scaled(MatOf(h[..]), ColumnAt(v[..], c), sig[c])
  {
    ghost var x := MatOf(h[..]);
    for c := 0 to 3
      invariant forall i :: 0 <= i < c ==> ColumnAt(u[..], i) == Scaled(x, ColumnAt(v[..], i), sig[i])
    {
      hide Scaled;
      var hvx, hvy, hvz, sc := ScaledColumn(h, v, sig, c);
      u[c] := hvx * sc;
      u[3 + c] := hvy * sc;
      u[6 + c] := hvz * sc;
      assert ColumnAt(u[..], c) == Scaled(x, ColumnAt(v[..], c), sig[c]);
    }
  }

  method ScaledColumn(h: array<real>, v: array<real>, sig: array<real>, c: nat) returns (hvx: real, hvy: real,
                      hvz: real, sc: real)
    requires h.Length == 9 && v.Length == 9 && sig.Length == 3 && c < 3
    ensures Vec(hvx * sc, hvy * sc, hvz * sc) == Scaled(MatOf(h[..]), ColumnAt(v[..], c), sig[c])
  {
    hide Dot;
    hvx := RowTimesColumn(h, 0, v, c);
    hvy := RowTimesColumn(h, 1, v, c);
    hvz := RowTimesColumn(h, 2, v, c);
    sc := if sig[c] > RANK_EPS then 1.0 / sig[c] else 0.0;
    ScaledProducts(hvx, hvy, hvz, sc);
  }

  /** src/gen/sinew_align.c:249-251 */
  method RowTimesColumn(h: array<real>, r: nat, v: array<real>, c: nat) returns (x: real)
    requires h.Length == 9 && v.Length == 9 && r < 3 && c < 3
    ensures x == Dot(RowAt(h[..], r), ColumnAt(v[..], c))
  {
    x := h[r * 3] * v[c] + h[r * 3 + 1] * v[3 + c] + h[r * 3 + 2] * v[6 + c];
  }

  lemma ScaledProducts(x: real, y: real, z: real, s: real)
    ensures Vec(x * s, y * s, z * s) == VScale(s, Vec(x, y, z))
  {
  }

  function ColumnsOf(s: seq<real>): Triple3<Vec>
    requires |s| == 9
  {
    Triple3(ColumnAt(s, 0), ColumnAt(s, 1), ColumnAt(s, 2))
  }

  /** The completion after looking at the first n columns. */
  function CompletedUpTo(u: Triple3<Vec>, sigma: Vec, n: nat): Triple3<Vec>
    requires n <= 3
  {
    if n == 0 then u
    else
      var p := CompletedUpTo(u, sigma, n - 1);
      if n == 1 then if sigma.x <= RANK_EPS then p.(t0 := Cross(p.t1, p.t2)) else p
      else if n == 2 then if sigma.y <= RANK_EPS then p.(t1 := Cross(p.t2, p.t0)) else p
      else if sigma.z <= RANK_EPS then p.(t2 := Cross(p.t0, p.t1)) else p
  }

  lemma CompletedAll(u: Triple3<Vec>, sigma: Vec)
    ensures CompletedUpTo(u, sigma, 3) == Completed(u, sigma)
  {
    hide Cross;
    assert CompletedUpTo(u, sigma, 1) == if sigma.x <= RANK_EPS then u.(t0 := Cross(u.t1, u.t2)) else u;
    var p := CompletedUpTo(u, sigma, 1);
    assert CompletedUpTo(u, sigma, 2) == if sigma.y <= RANK_EPS then p.(t1 := Cross(p.t2, p.t0)) else p;
  }

  method CrossInto(a: Vec, b: Vec) returns (c: Vec)
    ensures c == Cross(a, b)
  {
    c := Vec(a.y * b.z - a.z * b.y, a.z * b.x - a.x * b.z, a.x * b.y - a.y * b.x);
  }

  /** src/gen/sinew_align.c:257-268 */
  method CompleteInPlace(u: array<real>, sig: array<real>)
    requires u.Length == 9 && sig.Length == 3 && u != sig
    modifies u
    ensures ColumnsOf(u[..]) == Completed(ColumnsOf(old(u[..])), VecOf(sig[..]))
  {
    hide Cross;
    ghost var was := ColumnsOf(u[..]);
    for c := 0 to 3
      invariant ColumnsOf(u[..]) == CompletedUpTo(was, VecOf(sig[..]), c)
    {
      if sig[c] <= RANK_EPS {
        var a, b := (c + 1) % 3, (c + 2) % 3;
        var uc := CrossInto(Vec(u[a], u[3 + a], u[6 + a]), Vec(u[b], u[3 + b], u[6 + b]));
        u[c] := uc.x;
        u[3 + c] := uc.y;
        u[6 + c] := uc.z;
      }
    }
    CompletedAll(was, VecOf(sig[..]));
  }

  /** src/gen/sinew_align.c:270-280 */
  method AssembleInto(u: array<real>, v: array<real>, out: array<real>)
    requires u.Length == 9 && v.Length == 9 && out.Length == 9
    modifies out
    ensures MatOf(out[..]) == Assemble(MatOf(old(u[..])), MatOf(old(v[..])))
  {
    hide Mul, Det, Transpose, MatOf, FlipColumn;
    ghost var x := MatOf(u[..]);
    var vt := new real[9];
    Transpose9(v, vt);
    var uvt := new real[9];
    Mul9(u, vt, uvt);
    var d := Det9(uvt);
    var sgn := if d < 0.0 then -1.0 else 1.0;
    var ud := new real[9];
    Copy9(u, ud);
    SignLastColumn(ud, sgn);
    Mul9(ud, vt, out);
  }

  /** src/gen/sinew_align.c:277-279 */
  method SignLastColumn(ud: array<real>, sgn: real)
    requires ud.Length == 9 && (sgn == 1.0 || sgn == -1.0)
    modifies ud
    ensures MatOf(ud[..]) == if sgn < 0.0 then FlipColumn(MatOf(old(ud[..]))) else MatOf(old(ud[..]))
  {
    ud[2] := ud[2] * sgn;
    ud[5] := ud[5] * sgn;
    ud[8] := ud[8] * sgn;
  }

  lemma EigenEntries(d: Decomposition, w: seq<real>, vc: seq<real>)
    requires |w| == 3 && |vc| == 9 && VecOf(w) == Vec(d.a.r0.x, d.a.r1.y, d.a.r2.z) && MatOf(vc) == d.v
    ensures Picked(w, vc, [0, 1, 2]) == EigenOf(d)
  {
  }

  /** src/gen/sinew_align.c:218-236 */
  method EigenInto(m: Libm, h: array<real>) returns (w: array<real>, vc: array<real>, ord: array<nat>)
    requires h.Length == 9
    ensures fresh(w) && fresh(vc) && fresh(ord) && w != vc && w.Length == 3 && vc.Length == 9 && ord.Length == 3
    ensures forall i :: 0 <= i < 3 ==> ord[i] < 3
    ensures Picked(w[..], vc[..], ord[..]) == SortedEigen(m, MatOf(h[..]))
  {
    hide Gram, Jacobi9, Sorted, EigenOf, MatOf, VecOf, ColumnAt;
    ghost var x := MatOf(h[..]);
    var s := new real[9];
    w, vc := new real[3], new real[9];
    GramInto(h, s);
    Jacobi9Into(m, s, w, vc);
    EigenEntries(Jacobi9(m, Gram(x)), w[..], vc[..]);
    ord := SortOrder(w, vc[..]);
  }

  /** sinew_kabsch, src/gen/sinew_align.c:216-281. */
  method KabschInto(m: Libm, h: array<real>, out: array<real>)
    requires h.Length == 9 && out.Length == 9
    modifies out
    ensures MatOf(out[..]) == KabschFit(m, MatOf(old(h[..])))
  {
    hide SortedEigen, Sigma, Scaled, Completed, Assemble, Columns, MatOf, VecOf, ColumnAt, RightVectors, LeftVectors,
      Picked;
    ghost var x := MatOf(h[..]);
    var w, vc, ord := EigenInto(m, h);
    ghost var e := Picked(w[..], vc[..], ord[..]);
    var v, sig := new real[9], new real[3];
    SelectVectors(m, w, vc, ord, v, sig);
    var u := new real[9];
    LeftInto(h, v, sig, u);
    LeftColumns(m, x, e, v[..], sig[..], u[..]);
    CompleteInPlace(u, sig);
    CompletedColumns(u[..]);
    AssembleInto(u, v, out);
  }

  lemma LeftColumns(m: Libm, x: Mat, e: Triple3<Eigen>, v: seq<real>, sig: seq<real>, u: seq<real>)
    requires |v| == 9 && |sig| == 3 && |u| == 9
    requires MatOf(v) == Columns(RightVectors(e)) && VecOf(sig) == Sigma(m, e)
    requires forall c :: 0 <= c < 3 ==> ColumnAt(u, c) == Scaled(x, ColumnAt(v, c), sig[c])
    ensures Completed(ColumnsOf(u), VecOf(sig)) == LeftVectors(x, RightVectors(e), Sigma(m, e))
  {
    hide Sigma, Scaled, Completed;
    assert ColumnAt(v, 0) == e.t0.v && ColumnAt(v, 1) == e.t1.v && ColumnAt(v, 2) == e.t2.v;
    assert ColumnAt(u, 0) == Scaled(x, ColumnAt(v, 0), sig[0]);
    assert ColumnAt(u, 1) == Scaled(x, ColumnAt(v, 1), sig[1]);
    assert ColumnAt(u, 2) == Scaled(x, ColumnAt(v, 2), sig[2]);
  }

  lemma CompletedColumns(u: seq<real>)
    requires |u| == 9
    ensures MatOf(u) == Columns(ColumnsOf(u))
  {
  }

  // ----- the single-pair path

  method NormOf(m: Libm, a: Vec) returns (n: real)
    ensures n == Norm(m, a)
  {
    DotRaw(a, a);
    n := m.sqrt(a.x * a.x + a.y * a.y + a.z * a.z);
  }

  method DotOf(a: Vec, b: Vec) returns (d: real)
    ensures d == Dot(a, b)
  {
    DotRaw(a, b);
    d := a.x * b.x + a.y * b.y + a.z * b.z;
  }

  method ScaleOf(a: Vec, s: real) returns (r: Vec)
    ensures r == VScale(s, a)
  {
    r := Vec(a.x * s, a.y * s, a.z * s);
    ScaledProducts(a.x, a.y, a.z, s);
  }

  function Component(v: Vec, i: nat): real
    requires i < 3
  {
    if i == 0 then v.x else if i == 1 then v.y else v.z
  }

  /** 2 x x^T - I, src/gen/sinew_align.c:84-88 */
  method HalfTurnInto(x: Vec, out: array<real>)
    requires out.Length == 9
    modifies out
    ensures MatOf(out[..]) == HalfTurn(x)
  {
    hide Component;
    for r := 0 to 3
      invariant forall k :: 0 <= k < 3 * r ==> out[k] == HalfTurnEntry(x, k)
    {
      for c := 0 to 3
        invariant forall k :: 0 <= k < 3 * r + c ==> out[k] == HalfTurnEntry(x, k)
      {
        FlatIndex(r, c);
        out[r * 3 + c] := 2.0 * Component(x, r) * Component(x, c) - (if r == c then 1.0 else 0.0);
      }
    }
    HalfTurnEntries(x, out[..]);
  }

  function HalfTurnEntry(x: Vec, k: nat): real
    requires k < 9
  {
    2.0 * Component(x, k / 3) * Component(x, k % 3) - (if k % 4 == 0 then 1.0 else 0.0)
  }

  lemma HalfTurnEntries(x: Vec, s: seq<real>)
    requires |s| == 9 && forall k :: 0 <= k < 9 ==> s[k] == HalfTurnEntry(x, k)
    ensures MatOf(s) == HalfTurn(x)
  {
    HalfTurnRow(x, s, 0);
    HalfTurnRow(x, s, 1);
    HalfTurnRow(x, s, 2);
    hide Times;
  }

  lemma HalfTurnRow(x: Vec, s: seq<real>, r: nat)
    requires |s| == 9 && r < 3 && forall k :: 0 <= k < 9 ==> s[k] == HalfTurnEntry(x, k)
    ensures var t := Component(x, r);
            RowAt(s, r) == Vec(Times(2.0, Times(t, x.x)) - (if r == 0 then 1.0 else 0.0),
                               Times(2.0, Times(t, x.y)) - (if r == 1 then 1.0 else 0.0),
                               Times(2.0, Times(t, x.z)) - (if r == 2 then 1.0 else 0.0))
  {
    FlatIndex(r, 0); FlatIndex(r, 1); FlatIndex(r, 2);
    var t := Component(x, r);
    assert s[r * 3] == HalfTurnEntry(x, 3 * r + 0);
    assert s[r * 3 + 1] == HalfTurnEntry(x, 3 * r + 1);
    assert s[r * 3 + 2] == HalfTurnEntry(x, 3 * r + 2);
    TwiceProduct(t, x.x); TwiceProduct(t, x.y); TwiceProduct(t, x.z);
  }

  lemma TwiceProduct(t: real, x: real)
    ensures 2.0 * t * x == Times(2.0, Times(t, x))
  {
  }

  /** I + K + f K^2, src/gen/sinew_align.c:94-100 */
  method TurnedInto(v: Vec, f: real, out: array<real>)
    requires out.Length == 9
    modifies out
    ensures MatOf(out[..]) == Turned(v, f)
  {
    var k := new real[] [0.0, -v.z, v.y, v.z, 0.0, -v.x, -v.y, v.x, 0.0];
    assert MatOf(k[..]) == Skew(v);
    hide Mul, Skew, MatOf, MAdd, MScale;
    var kk := new real[9];
    Mul9(k, k, kk);
    SumInto(k, kk, f, out);
  }

  /** src/gen/sinew_align.c:98-100 */
  method SumInto(k: array<real>, kk: array<real>, f: real, out: array<real>)
    requires k.Length == 9 && kk.Length == 9 && out.Length == 9 && out != k && out != kk
    modifies out
    ensures MatOf(out[..]) == MAdd(MAdd(ID, MatOf(k[..])), MScale(f, MatOf(kk[..])))
  {
    hide MatOf, MAdd, MScale, Times;
    for i := 0 to 9
      invariant forall j :: 0 <= j < i ==> out[j] == (if j % 4 == 0 then 1.0 else 0.0) + k[j] + Times(f, kk[j])
    {
      var t := f * kk[i];
      assert t == Times(f, kk[i]) by {
        TimesRaw(f, kk[i]);
      }
      out[i] := (if i % 4 == 0 then 1.0 else 0.0) + k[i] + t;
    }
    TurnedEntries(k[..], kk[..], f, out[..]);
  }

  lemma TurnedEntries(k: seq<real>, kk: seq<real>, f: real, s: seq<real>)
    requires |k| == 9 && |kk| == 9 && |s| == 9
    requires forall j :: 0 <= j < 9 ==> s[j] == (if j % 4 == 0 then 1.0 else 0.0) + k[j] + Times(f, kk[j])
    ensures MatOf(s) == MAdd(MAdd(ID, MatOf(k)), MScale(f, MatOf(kk)))
  {
    hide Times;
  }

  /** sinew_rodrigues, src/gen/sinew_align.c:66-101. */
  method RodriguesInto(m: Libm, a: Vec, b: Vec, out: array<real>)
    requires m.Exact() && out.Length == 9
    modifies out
    ensures MatOf(out[..]) == Rodrigues(m, a, b)
  {
    hide Dot, VScale, HalfTurn, Turned, Cross, MatOf, m.Exact;
    var an := NormOf(m, a);
    var bn := NormOf(m, b);
    var au := ScaleOf(a, 1.0 / Max(an, EPS));
    var bu := ScaleOf(b, 1.0 / Max(bn, EPS));
    var d := DotOf(au, bu);
    if d < -1.0 { d := -1.0; }
    if d > 1.0 { d := 1.0; }
    assert d == Cosine(m, a, b);
    if d < NEAR_ANTIPARALLEL {
      var w := if Abs(bu.x) > 0.6 then E1 else E0;
      var x0 := CrossInto(bu, w);
      AxisIsLong(m, a, b);
      var n := NormOf(m, x0);
      var x := ScaleOf(x0, 1.0 / n);
      HalfTurnInto(x, out);
      return;
    }
    var v := CrossInto(bu, au);
    TurnedInto(v, 1.0 / (1.0 + d), out);
  }

  // ----- the dispatcher

  /** h += a b^T, src/gen/sinew_align.c:304-308 and 329-333 */
  method AddOuter(h: array<real>, a: Vec, b: Vec)
    requires h.Length == 9
    modifies h
    ensures MatOf(h[..]) == MAdd(MatOf(old(h[..])), Outer(a, b))
  {
    hide Component;
    ghost var was := h[..];
    for i := 0 to 3
      invariant forall k :: 0 <= k < 9 ==>
                  h[k] == if k < 3 * i then was[k] + Times(Component(a, k / 3), Component(b, k % 3)) else was[k]
    {
      for j := 0 to 3
        invariant forall k :: 0 <= k < 9 ==>
                    h[k] == if k < 3 * i + j then was[k] + Times(Component(a, k / 3), Component(b, k % 3)) else was[k]
      {
        FlatIndex(i, j);
        TimesRaw(Component(a, i), Component(b, j));
        h[i * 3 + j] := h[i * 3 + j] + Component(a, i) * Component(b, j);
      }
    }
    OuterEntries(was, h[..], a, b);
  }

  lemma OuterEntries(s: seq<real>, t: seq<real>, a: Vec, b: Vec)
    requires |s| == 9 && |t| == 9
    requires forall k :: 0 <= k < 9 ==> t[k] == s[k] + Times(Component(a, k / 3), Component(b, k % 3))
    ensures MatOf(t) == MAdd(MatOf(s), Outer(a, b))
  {
    hide Times;
  }

  /** src/gen/sinew_align.c:293-309 */
  method NormalsInto(m: Libm, h: array<real>, a0: Vec, a1: Vec, b0: Vec, b1: Vec)
    requires m.Exact() && h.Length == 9
    modifies h
    ensures MatOf(h[..]) == WithNormals(m, MatOf(old(h[..])), a0, a1, b0, b1)
  {
    hide Cross, Norm, VScale, Outer, MAdd, MatOf;
    var ns := CrossInto(a0, a1);
    var nd := CrossInto(b0, b1);
    var ln := NormOf(m, ns);
    var ld := NormOf(m, nd);
    if ln > CROSS_EPS && ld > CROSS_EPS {
      var na := NormOf(m, a0);
      var nb := NormOf(m, b0);
      var vs := ScaleOf(ns, na / (ln + EPS));
      var vd := ScaleOf(nd, nb / (ld + EPS));
      AddOuter(h, vs, vd);
    }
  }

  /** sinew_finish_align, src/gen/sinew_align.c:283-320. */
  method FinishAlignInto(m: Libm, hIn: array<real>, n: int, a0: Vec, a1: Vec, b0: Vec, b1: Vec, out: array<real>)
    requires m.Exact() && hIn.Length == 9 && out.Length == 9
    modifies out
    ensures MatOf(out[..]) == FinishAlign(m, MatOf(old(hIn[..])), n, a0, a1, b0, b1)
  {
    hide Rodrigues, WithNormals, Regularize, Ns30, Valid9, KabschFit, MatOf, m.Exact;
    if n == 1 {
      RodriguesInto(m, a0, b0, out);
      return;
    }
    var h := new real[9];
    Copy9(hIn, h);
    NormalsInto(m, h, a0, a1, b0, b1);
    var reg := new real[9];
    RegularizeInto(h, reg);
    var r := new real[9];
    Ns30Into(reg, r);
    var ok := IsValid9(r);
    if !ok {
      KabschInto(m, reg, out);
      return;
    }
    Copy9(r, out);
  }

  /** The pairs stored as consecutive xyz triples. */
  function PairsOf(t: seq<real>, s: seq<real>, n: nat): seq<Pair>
    requires |t| >= 3 * n && |s| >= 3 * n
  {
    if n == 0 then []
    else
      var target := Vec(t[3 * n - 3], t[3 * n - 2], t[3 * n - 1]);
      var source := Vec(s[3 * n - 3], s[3 * n - 2], s[3 * n - 1]);
      PairsOf(t, s, n - 1) + [Pair(target, source)]
  }

  lemma {:induction false} PairsAt(t: seq<real>, s: seq<real>, n: nat, i: nat)
    requires |t| >= 3 * n && |s| >= 3 * n && i < n
    ensures |PairsOf(t, s, n)| == n
    ensures PairsOf(t, s, n)[i]
         == Pair(Vec(t[3 * i], t[3 * i + 1], t[3 * i + 2]), Vec(s[3 * i], s[3 * i + 1], s[3 * i + 2]))
  {
    if n > 1 {
      PairsAt(t, s, n - 1, if i < n - 1 then i else 0);
    }
  }

  lemma NoPairsFlat(h: seq<real>, t: seq<real>, s: seq<real>)
    requires |h| == 9 && forall k :: 0 <= k < 9 ==> h[k] == 0.0
    ensures MatOf(h) == Covariance(PairsOf(t, s, 0))
  {
  }

  /** src/gen/sinew_align.c:325-334 */
  method CovarianceInto(targets: array<real>, sources: array<real>, count: nat) returns (h: array<real>)
    requires targets.Length >= 3 * count && sources.Length >= 3 * count
    ensures fresh(h) && h.Length == 9
    ensures MatOf(h[..]) == Covariance(PairsOf(targets[..], sources[..], count))
  {
    hide MatOf, Covariance, Outer, MAdd;
    ghost var t, s := targets[..], sources[..];
    h := new real[9](_ => 0.0);
    NoPairsFlat(h[..], t, s);
    for p := 0 to count
      modifies h
      invariant MatOf(h[..]) == Covariance(PairsOf(t, s, p))
    {
      var a := Vec(targets[p * 3], targets[p * 3 + 1], targets[p * 3 + 2]);
      var b := Vec(sources[p * 3], sources[p * 3 + 1], sources[p * 3 + 2]);
      AddOuter(h, a, b);
      CovarianceSnoc(PairsOf(t, s, p), Pair(a, b));
    }
  }

  /** The i-th stored triple, or zero when there are too few; src/gen/sinew_align.c:336-340. */
  method TripleAt(xyz: array<real>, count: nat, i: nat) returns (v: Vec)
    requires xyz.Length >= 3 * count
    ensures v == if i < count then Vec(xyz[3 * i], xyz[3 * i + 1], xyz[3 * i + 2]) else ZERO
  {
    v := if count > i then Vec(xyz[3 * i], xyz[3 * i + 1], xyz[3 * i + 2]) else ZERO;
  }

  lemma FirstPairs(t: seq<real>, s: seq<real>, n: nat, i: nat)
    requires |t| >= 3 * n && |s| >= 3 * n
    ensures |PairsOf(t, s, n)| == n
    ensures TargetAt(PairsOf(t, s, n), i) == if i < n then Vec(t[3 * i], t[3 * i + 1], t[3 * i + 2]) else ZERO
    ensures SourceAt(PairsOf(t, s, n), i) == if i < n then Vec(s[3 * i], s[3 * i + 1], s[3 * i + 2]) else ZERO
  {
    if n > 0 {
      PairsAt(t, s, n, if i < n then i else 0);
    }
  }

  /** sinew_align, src/gen/sinew_align.c:322-343. */
  method AlignInto(m: Libm, targets: array<real>, sources: array<real>, count: nat, out: array<real>)
    requires m.Exact() && targets.Length >= 3 * count && sources.Length >= 3 * count && out.Length == 9
    modifies out
    ensures MatOf(out[..]) == AlignPairs(m, PairsOf(old(targets[..]), old(sources[..]), count))
  {
    hide FinishAlign, MatOf, Covariance, PairsOf, TargetAt, SourceAt, m.Exact;
    ghost var t, s := targets[..], sources[..];
    var h := CovarianceInto(targets, sources, count);
    var a0 := TripleAt(targets, count, 0);
    var b0 := TripleAt(sources, count, 0);
    var a1 := TripleAt(targets, count, 1);
    var b1 := TripleAt(sources, count, 1);
    FirstPairs(t, s, count, 0);
    FirstPairs(t, s, count, 1);
    FinishAlignInto(m, h, AsInt(count), a0, a1, b0, b1, out);
  }
}
