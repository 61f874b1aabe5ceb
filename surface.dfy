/**
  The surface tessellator of `surface.js`: a `SurfacePlot` turns an
  n0 x n1 scalar field into a coordinate stream (six (row, column) index
  pairs per grid cell, cutting the cell into two triangles) and a value
  stream (one field sample per vertex, in the same order), and keeps the
  bounding box of the values. GPU buffers are modelled by their contents.
 */
module Surface {
  import opened ExtendedInt

  datatype Option<T> = None | Some(value: T)

  /** The fan that cuts a cell into two triangles: six (row, column) offsets
      from the cell's first corner. Vertices 0-2 and 3-5 are the triangles;
      they share the (0,1)-(1,0) diagonal. */
  const Quad: seq<(nat, nat)> := [(0, 0), (0, 1), (1, 0), (1, 1), (1, 0), (0, 1)]

  /** Every offset of the fan is 0 or 1, so a vertex of a cell is one of its corners. */
  lemma QuadOffsets(k: nat)
    requires k < |Quad|
    ensures Quad[k].0 <= 1 && Quad[k].1 <= 1
  {
  }

  /** Number of cells along an axis of n samples: the loops run while the
      counter is below n - 1, so an empty axis has no cell. */
  function Span(n: nat): nat {
    if n == 0 then 0 else n - 1
  }

  function Cells(n0: nat, n1: nat): nat {
    Span(n0) * Span(n1)
  }

  /** The `k`-th coordinate pair of a flat stream of (row, column) pairs. */
  function PairAt(cs: seq<int>, p: nat): (int, int)
    requires 2 * p + 1 < |cs|
  {
    (cs[2 * p], cs[2 * p + 1])
  }

  // ---------------------------------------------------------------------
  // The coordinate stream

  /** The coordinates of the first k vertices of cell (i, j). */
  function CellCoordsPrefix(i: nat, j: nat, k: nat): (s: seq<int>)
    requires k <= 6
    ensures |s| == 2 * k
  {
    if k == 0 then [] else CellCoordsPrefix(i, j, k - 1) + [i + Quad[k - 1].0, j + Quad[k - 1].1]
  }

  function CellCoords(i: nat, j: nat): (s: seq<int>)
    ensures |s| == 12
  {
    CellCoordsPrefix(i, j, 6)
  }

  /** Cells (i, 0) .. (i, m - 1) of row i, in column order. */
  function RowCoords(i: nat, m: nat): (s: seq<int>)
    ensures |s| == 12 * m
  {
    if m == 0 then [] else RowCoords(i, m - 1) + CellCoords(i, m - 1)
  }

  /** The first `rows` rows of cells, m cells per row, row-major. */
  function GridCoords(rows: nat, m: nat): (s: seq<int>)
    ensures |s| == 12 * (rows * m)
  {
    if rows == 0 then [] else GridCoords(rows - 1, m) + RowCoords(rows - 1, m)
  }

  /** The whole coordinate stream of an n0 x n1 field. */
  function CoordStream(n0: nat, n1: nat): (s: seq<int>)
    ensures |s| == 12 * Cells(n0, n1)
  {
    GridCoords(Span(n0), Span(n1))
  }

  // ---------------------------------------------------------------------
  // The value stream

  /** The samples under the first k vertices of cell (i, j). */
  function CellValuesPrefix(f: array2<int>, i: nat, j: nat, k: nat): (s: seq<int>)
    reads f
    requires i < Span(f.Length0) && j < Span(f.Length1) && k <= 6
    ensures |s| == k
  {
    if k == 0 then [] else CellValuesPrefix(f, i, j, k - 1) + [f[i + Quad[k - 1].0, j + Quad[k - 1].1]]
  }

  function CellValues(f: array2<int>, i: nat, j: nat): (s: seq<int>)
    reads f
    requires i < Span(f.Length0) && j < Span(f.Length1)
    ensures |s| == 6
  {
    CellValuesPrefix(f, i, j, 6)
  }

  function RowValues(f: array2<int>, i: nat, m: nat): (s: seq<int>)
    reads f
    requires i < Span(f.Length0) && m <= Span(f.Length1)
    ensures |s| == 6 * m
  {
    if m == 0 then [] else RowValues(f, i, m - 1) + CellValues(f, i, m - 1)
  }

  function GridValues(f: array2<int>, rows: nat, m: nat): (s: seq<int>)
    reads f
    requires rows <= Span(f.Length0) && m <= Span(f.Length1)
    ensures |s| == 6 * (rows * m)
  {
    if rows == 0 then [] else GridValues(f, rows - 1, m) + RowValues(f, rows - 1, m)
  }

  /** The whole value stream of field f. */
  function ValueStream(f: array2<int>): (s: seq<int>)
    reads f
    ensures |s| == 6 * Cells(f.Length0, f.Length1)
  {
    GridValues(f, Span(f.Length0), Span(f.Length1))
  }

  // ---------------------------------------------------------------------
  // Running minimum and maximum

  /** `minZ` after the loop has seen s: `Math.min` folded from `Infinity`. */
  function SeqMin(s: seq<int>): (m: Ext)
    ensures s != [] ==> m.Fin?
  {
    if s == [] then PosInf else Min(SeqMin(s[..|s| - 1]), Fin(s[|s| - 1]))
  }

  /** `maxZ` after the loop has seen s: `Math.max` folded from `-Infinity`. */
  function SeqMax(s: seq<int>): (m: Ext)
    ensures s != [] ==> m.Fin?
  {
    if s == [] then NegInf else Max(SeqMax(s[..|s| - 1]), Fin(s[|s| - 1]))
  }

  /** The bounding box an update with field f records. */
  function FieldBounds(f: array2<int>): (b: Box)
    reads f
    ensures b.lo.x == 0 && b.lo.y == 0 && b.hi.x == f.Length0 && b.hi.y == f.Length1
    ensures forall p :: 0 <= p < |ValueStream(f)| ==>
      Le(b.lo.z, Fin(ValueStream(f)[p])) && Le(Fin(ValueStream(f)[p]), b.hi.z)
  {
    var vs := ValueStream(f);
    SeqMinIsMinimum(vs);
    SeqMaxIsMaximum(vs);
    Box(Point(0, 0, SeqMin(vs)), Point(f.Length0, f.Length1, SeqMax(vs)))
  }

  datatype Point = Point(x: int, y: int, z: Ext)
  datatype Box = Box(lo: Point, hi: Point)

  // ---------------------------------------------------------------------
  // Properties of the streams

  lemma AppendAssoc(a: seq<int>, b: seq<int>, c: seq<int>)
    ensures (a + b) + c == a + (b + c)
  {
  }

  /** One more value folded into the running minimum and maximum. */
  lemma FoldStep(done: seq<int>, v: int)
    ensures SeqMin(done + [v]) == Min(SeqMin(done), Fin(v))
    ensures SeqMax(done + [v]) == Max(SeqMax(done), Fin(v))
  {
    assert (done + [v])[..|done|] == done;
  }

  lemma {:induction false} SeqMinIsMinimum(s: seq<int>)
    ensures s == [] ==> SeqMin(s) == PosInf
    ensures forall p :: 0 <= p < |s| ==> Le(SeqMin(s), Fin(s[p]))
    ensures s != [] ==> exists p :: 0 <= p < |s| && SeqMin(s) == Fin(s[p])
  {
    if s != [] {
      var init := s[..|s| - 1];
      SeqMinIsMinimum(init);
      forall p | 0 <= p < |s| ensures Le(SeqMin(s), Fin(s[p])) {
        if p < |s| - 1 {
          assert s[p] == init[p];
          LeTransitive(SeqMin(s), SeqMin(init), Fin(s[p]));
        }
      }
      if SeqMin(s) == Fin(s[|s| - 1]) {
      } else {
        var q :| 0 <= q < |init| && SeqMin(init) == Fin(init[q]);
        assert s[q] == init[q];
      }
    }
  }

  lemma {:induction false} SeqMaxIsMaximum(s: seq<int>)
    ensures s == [] ==> SeqMax(s) == NegInf
    ensures forall p :: 0 <= p < |s| ==> Le(Fin(s[p]), SeqMax(s))
    ensures s != [] ==> exists p :: 0 <= p < |s| && SeqMax(s) == Fin(s[p])
  {
    if s != [] {
      var init := s[..|s| - 1];
      SeqMaxIsMaximum(init);
      forall p | 0 <= p < |s| ensures Le(Fin(s[p]), SeqMax(s)) {
        if p < |s| - 1 {
          assert s[p] == init[p];
          LeTransitive(Fin(s[p]), SeqMax(init), SeqMax(s));
        }
      }
      if SeqMax(s) == Fin(s[|s| - 1]) {
      } else {
        var q :| 0 <= q < |init| && SeqMax(init) == Fin(init[q]);
        assert s[q] == init[q];
      }
    }
  }

  lemma CellIndexBound(i: nat, j: nat, rows: nat, m: nat)
    requires i < rows && j < m
    ensures i * m + j < rows * m
  {
    assert (i + 1) * m <= rows * m;
  }

  lemma RowFits(i: nat, rows: nat, m: nat)
    requires i < rows
    ensures (i + 1) * m == i * m + m <= rows * m
  {
    var d := rows - (i + 1);
    assert (i + 1) * m == i * m + m;
    assert rows * m == (i + 1) * m + d * m by {
      assert rows == (i + 1) + d;
    }
    assert d * m >= 0;
  }

  lemma {:induction false} CellCoordsPrefixAt(i: nat, j: nat, k: nat, t: nat)
    requires t < k <= 6
    ensures PairAt(CellCoordsPrefix(i, j, k), t) == (i + Quad[t].0, j + Quad[t].1)
  {
    if t < k - 1 {
      CellCoordsPrefixAt(i, j, k - 1, t);
    }
  }

  lemma {:induction false} RowCoordsAt(i: nat, m: nat, j: nat, k: nat)
    requires j < m && k < 6
    ensures PairAt(RowCoords(i, m), 6 * j + k) == (i + Quad[k].0, j + Quad[k].1)
  {
    if j < m - 1 {
      RowCoordsAt(i, m - 1, j, k);
    } else {
      CellCoordsPrefixAt(i, j, 6, k);
    }
  }

  lemma {:induction false} GridCoordsAt(rows: nat, m: nat, i: nat, j: nat, k: nat)
    requires i < rows && j < m && k < 6
    ensures 6 * (i * m + j) + k < 6 * (rows * m)
    ensures PairAt(GridCoords(rows, m), 6 * (i * m + j) + k) == (i + Quad[k].0, j + Quad[k].1)
  {
    CellIndexBound(i, j, rows, m);
    if i < rows - 1 {
      GridCoordsAt(rows - 1, m, i, j, k);
    } else {
      assert 6 * (i * m + j) + k == 6 * ((rows - 1) * m) + (6 * j + k);
      RowCoordsAt(i, m, j, k);
    }
  }

  /** Vertex k of cell (i, j) sits at vertex slot 6 * (i * (n1 - 1) + j) + k
      of the coordinate stream and carries (i + Quad[k].0, j + Quad[k].1). */
  lemma CoordStreamAt(n0: nat, n1: nat, i: nat, j: nat, k: nat)
    requires i < Span(n0) && j < Span(n1) && k < 6
    ensures 6 * (i * Span(n1) + j) + k < 6 * Cells(n0, n1)
    ensures PairAt(CoordStream(n0, n1), 6 * (i * Span(n1) + j) + k) == (i + Quad[k].0, j + Quad[k].1)
  {
    GridCoordsAt(Span(n0), Span(n1), i, j, k);
  }

  /** Every emitted coordinate pair lies inside the n0 x n1 grid. */
  ghost predicate InGrid(cs: seq<int>, n0: nat, n1: nat) {
    |cs| % 2 == 0 &&
    forall p :: 0 <= p < |cs| / 2 ==> 0 <= PairAt(cs, p).0 < n0 && 0 <= PairAt(cs, p).1 < n1
  }

  lemma InGridConcat(a: seq<int>, b: seq<int>, n0: nat, n1: nat)
    requires InGrid(a, n0, n1) && InGrid(b, n0, n1)
    ensures InGrid(a + b, n0, n1)
  {
    var c := a + b;
    forall p | 0 <= p < |c| / 2 ensures 0 <= PairAt(c, p).0 < n0 && 0 <= PairAt(c, p).1 < n1 {
      if p < |a| / 2 {
        assert PairAt(c, p) == PairAt(a, p);
      } else {
        assert PairAt(c, p) == PairAt(b, p - |a| / 2);
      }
    }
  }

  lemma {:induction false} CellCoordsInGrid(i: nat, j: nat, k: nat, n0: nat, n1: nat)
    requires i + 1 < n0 && j + 1 < n1 && k <= 6
    ensures InGrid(CellCoordsPrefix(i, j, k), n0, n1)
  {
    if k > 0 {
      CellCoordsInGrid(i, j, k - 1, n0, n1);
      var last := [i + Quad[k - 1].0, j + Quad[k - 1].1];
      assert PairAt(last, 0) == (last[0], last[1]);
      InGridConcat(CellCoordsPrefix(i, j, k - 1), last, n0, n1);
    }
  }

  lemma {:induction false} RowCoordsInGrid(i: nat, m: nat, n0: nat, n1: nat)
    requires i < Span(n0) && m <= Span(n1)
    ensures InGrid(RowCoords(i, m), n0, n1)
  {
    if m > 0 {
      RowCoordsInGrid(i, m - 1, n0, n1);
      CellCoordsInGrid(i, m - 1, 6, n0, n1);
      InGridConcat(RowCoords(i, m - 1), CellCoords(i, m - 1), n0, n1);
    }
  }

  lemma {:induction false} GridCoordsInGrid(rows: nat, m: nat, n0: nat, n1: nat)
    requires rows <= Span(n0) && m <= Span(n1)
    ensures InGrid(GridCoords(rows, m), n0, n1)
  {
    if rows > 0 {
      GridCoordsInGrid(rows - 1, m, n0, n1);
      RowCoordsInGrid(rows - 1, m, n0, n1);
      InGridConcat(GridCoords(rows - 1, m), RowCoords(rows - 1, m), n0, n1);
    }
  }

  /** Every grid index the coordinate stream emits lies in [0, n0-1] x [0, n1-1]. */
  lemma CoordStreamInGrid(n0: nat, n1: nat)
    ensures InGrid(CoordStream(n0, n1), n0, n1)
  {
    GridCoordsInGrid(Span(n0), Span(n1), n0, n1);
  }

  /** The six vertices of cell (i, j) visit exactly its four corners, and
      its two triangles share the diagonal (i, j+1)-(i+1, j). */
  lemma CellCorners(i: nat, j: nat)
    ensures (set t | 0 <= t < 6 :: PairAt(CellCoords(i, j), t))
         == {(i, j), (i, j + 1), (i + 1, j), (i + 1, j + 1)}
    ensures (set t | 0 <= t < 3 :: PairAt(CellCoords(i, j), t))
          * (set t | 3 <= t < 6 :: PairAt(CellCoords(i, j), t))
         == {(i, j + 1), (i + 1, j)}
  {
    forall t | 0 <= t < 6 ensures PairAt(CellCoords(i, j), t) == (i + Quad[t].0, j + Quad[t].1) {
      CellCoordsPrefixAt(i, j, 6, t);
    }
    var all := set t | 0 <= t < 6 :: PairAt(CellCoords(i, j), t);
    assert PairAt(CellCoords(i, j), 0) == (i, j);
    assert PairAt(CellCoords(i, j), 1) == (i, j + 1);
    assert PairAt(CellCoords(i, j), 2) == (i + 1, j);
    assert PairAt(CellCoords(i, j), 3) == (i + 1, j + 1);
    assert PairAt(CellCoords(i, j), 4) == (i + 1, j);
    assert PairAt(CellCoords(i, j), 5) == (i, j + 1);
  }

  /** Value entry p is the field sample at coordinate pair p: the two
      streams stay aligned. */
  ghost predicate Aligned(f: array2<int>, cs: seq<int>, vs: seq<int>)
    reads f
  {
    |cs| == 2 * |vs| &&
    forall p :: 0 <= p < |vs| ==>
      0 <= PairAt(cs, p).0 < f.Length0 && 0 <= PairAt(cs, p).1 < f.Length1 &&
      vs[p] == f[PairAt(cs, p).0, PairAt(cs, p).1]
  }

  lemma AlignedConcat(f: array2<int>, cs1: seq<int>, vs1: seq<int>, cs2: seq<int>, vs2: seq<int>)
    requires Aligned(f, cs1, vs1) && Aligned(f, cs2, vs2)
    ensures Aligned(f, cs1 + cs2, vs1 + vs2)
  {
    var cs, vs := cs1 + cs2, vs1 + vs2;
    forall p | 0 <= p < |vs|
      ensures 0 <= PairAt(cs, p).0 < f.Length0 && 0 <= PairAt(cs, p).1 < f.Length1
      ensures vs[p] == f[PairAt(cs, p).0, PairAt(cs, p).1]
    {
      if p < |vs1| {
        assert PairAt(cs, p) == PairAt(cs1, p);
      } else {
        assert PairAt(cs, p) == PairAt(cs2, p - |vs1|);
      }
    }
  }

  lemma {:induction false} CellAligned(f: array2<int>, i: nat, j: nat, k: nat)
    requires i < Span(f.Length0) && j < Span(f.Length1) && k <= 6
    ensures Aligned(f, CellCoordsPrefix(i, j, k), CellValuesPrefix(f, i, j, k))
  {
    if k > 0 {
      CellAligned(f, i, j, k - 1);
      var cs := [i + Quad[k - 1].0, j + Quad[k - 1].1];
      var vs := [f[i + Quad[k - 1].0, j + Quad[k - 1].1]];
      assert PairAt(cs, 0) == (cs[0], cs[1]);
      AlignedConcat(f, CellCoordsPrefix(i, j, k - 1), CellValuesPrefix(f, i, j, k - 1), cs, vs);
    }
  }

  lemma {:induction false} RowAligned(f: array2<int>, i: nat, m: nat)
    requires i < Span(f.Length0) && m <= Span(f.Length1)
    ensures Aligned(f, RowCoords(i, m), RowValues(f, i, m))
  {
    if m > 0 {
      RowAligned(f, i, m - 1);
      CellAligned(f, i, m - 1, 6);
      AlignedConcat(f, RowCoords(i, m - 1), RowValues(f, i, m - 1), CellCoords(i, m - 1), CellValues(f, i, m - 1));
    }
  }

  lemma {:induction false} GridAligned(f: array2<int>, rows: nat, m: nat)
    requires rows <= Span(f.Length0) && m <= Span(f.Length1)
    ensures Aligned(f, GridCoords(rows, m), GridValues(f, rows, m))
  {
    if rows > 0 {
      GridAligned(f, rows - 1, m);
      RowAligned(f, rows - 1, m);
      AlignedConcat(f, GridCoords(rows - 1, m), GridValues(f, rows - 1, m), RowCoords(rows - 1, m), RowValues(f, rows - 1, m));
    }
  }

  /** The value stream of f is aligned with the coordinate stream of f's shape. */
  lemma StreamsAligned(f: array2<int>)
    ensures Aligned(f, CoordStream(f.Length0, f.Length1), ValueStream(f))
  {
    GridAligned(f, Span(f.Length0), Span(f.Length1));
  }

  /** Vertex k of cell (i, j) carries the sample f[i + Quad[k].0, j + Quad[k].1]. */
  lemma ValueStreamAt(f: array2<int>, i: nat, j: nat, k: nat)
    requires i < Span(f.Length0) && j < Span(f.Length1) && k < 6
    ensures 6 * (i * Span(f.Length1) + j) + k < |ValueStream(f)|
    ensures ValueStream(f)[6 * (i * Span(f.Length1) + j) + k] == f[i + Quad[k].0, j + Quad[k].1]
  {
    StreamsAligned(f);
    CoordStreamAt(f.Length0, f.Length1, i, j, k);
  }

  // ---------------------------------------------------------------------
  // The two loops of update

  /** Fills a new buffer with the coordinate stream through a moving pointer. */
  method GenerateCoordinates(n0: nat, n1: nat) returns (verts: array<int>)
    ensures verts[..] == CoordStream(n0, n1)
  {
    var rows, m := Span(n0), Span(n1);
    verts := new int[12 * (rows * m)];
    var ptr := 0;
    var i := 0;
    while i < rows
      invariant 0 <= i <= rows
      invariant ptr == 12 * (i * m) <= verts.Length
      invariant verts[..ptr] == GridCoords(i, m)
    {
      RowFits(i, rows, m);
      ghost var rowStart := ptr;
      var j := 0;
      while j < m
        invariant 0 <= j <= m
        invariant ptr == rowStart + 12 * j
        invariant verts[..ptr] == GridCoords(i, m) + RowCoords(i, j)
      {
        ghost var done := verts[..ptr];
        ptr := WriteCellCoords(verts, ptr, i, j);
        assert RowCoords(i, j + 1) == RowCoords(i, j) + CellCoords(i, j);
        assert verts[..ptr] == GridCoords(i, m) + RowCoords(i, j + 1) by {
          assert verts[..ptr] == done + CellCoords(i, j);
          AppendAssoc(GridCoords(i, m), RowCoords(i, j), CellCoords(i, j));
        }
        j := j + 1;
      }
      assert GridCoords(i + 1, m) == GridCoords(i, m) + RowCoords(i, m);
      i := i + 1;
    }
    assert verts[..] == verts[..ptr];
  }

  /** The innermost loop of the coordinate pass: the six pairs of cell (i, j)
      written at `ptr`, which advances past them. */
  method WriteCellCoords(verts: array<int>, ptr0: nat, i: nat, j: nat) returns (ptr: nat)
    requires ptr0 + 12 <= verts.Length
    modifies verts
    ensures ptr == ptr0 + 12
    ensures verts[..ptr] == old(verts[..ptr0]) + CellCoords(i, j)
    ensures forall t :: ptr <= t < verts.Length ==> verts[t] == old(verts[t])
  {
    ptr := ptr0;
    var k := 0;
    while k < 6
      invariant 0 <= k <= 6
      invariant ptr == ptr0 + 2 * k
      invariant verts[..ptr] == old(verts[..ptr0]) + CellCoordsPrefix(i, j, k)
      invariant forall t :: ptr0 + 12 <= t < verts.Length ==> verts[t] == old(verts[t])
    {
      ghost var done := verts[..ptr];
      AppendAssoc(old(verts[..ptr0]), CellCoordsPrefix(i, j, k), [i + Quad[k].0, j + Quad[k].1]);
      verts[ptr] := i + Quad[k].0;
      verts[ptr + 1] := j + Quad[k].1;
      assert verts[..ptr + 2] == done + [i + Quad[k].0, j + Quad[k].1];
      ptr := ptr + 2;
      k := k + 1;
    }
  }

  /** Fills a new buffer with the value stream and tracks its minimum and maximum. */
  method SampleValues(f: array2<int>) returns (verts: array<int>, minZ: Ext, maxZ: Ext)
    ensures verts[..] == ValueStream(f)
    ensures minZ == SeqMin(ValueStream(f)) && maxZ == SeqMax(ValueStream(f))
  {
    var rows, m := Span(f.Length0), Span(f.Length1);
    minZ, maxZ := PosInf, NegInf;
    verts := new int[6 * (rows * m)];
    var ptr := 0;
    var i := 0;
    while i < rows
      invariant 0 <= i <= rows
      invariant ptr == 6 * (i * m) <= verts.Length
      invariant verts[..ptr] == GridValues(f, i, m)
      invariant minZ == SeqMin(verts[..ptr]) && maxZ == SeqMax(verts[..ptr])
    {
      RowFits(i, rows, m);
      ptr, minZ, maxZ := SampleRow(f, verts, ptr, i, minZ, maxZ);
      assert GridValues(f, i + 1, m) == GridValues(f, i, m) + RowValues(f, i, m);
      i := i + 1;
    }
    assert verts[..] == verts[..ptr];
  }

  /** The middle loop of the value pass: the cells of row i, in column order. */
  method SampleRow(f: array2<int>, verts: array<int>, ptr0: nat, i: nat, min0: Ext, max0: Ext)
    returns (ptr: nat, minZ: Ext, maxZ: Ext)
    requires i < Span(f.Length0)
    requires ptr0 + 6 * Span(f.Length1) <= verts.Length
    requires min0 == SeqMin(verts[..ptr0]) && max0 == SeqMax(verts[..ptr0])
    modifies verts
    ensures ptr == ptr0 + 6 * Span(f.Length1)
    ensures verts[..ptr] == old(verts[..ptr0]) + RowValues(f, i, Span(f.Length1))
    ensures minZ == SeqMin(verts[..ptr]) && maxZ == SeqMax(verts[..ptr])
  {
    ghost var orig := verts[..];
    ptr, minZ, maxZ := ptr0, min0, max0;
    var j := 0;
    while j < Span(f.Length1)
      invariant 0 <= j <= Span(f.Length1)
      invariant ptr == ptr0 + 6 * j
      invariant verts[..ptr] == orig[..ptr0] + RowValues(f, i, j)
      invariant minZ == SeqMin(verts[..ptr]) && maxZ == SeqMax(verts[..ptr])
    {
      ghost var done := verts[..ptr];
      ptr, minZ, maxZ := SampleCell(f, verts, ptr, i, j, minZ, maxZ);
      assert RowValues(f, i, j + 1) == RowValues(f, i, j) + CellValues(f, i, j);
      assert verts[..ptr] == orig[..ptr0] + RowValues(f, i, j + 1) by {
        assert verts[..ptr] == done + CellValues(f, i, j);
        AppendAssoc(orig[..ptr0], RowValues(f, i, j), CellValues(f, i, j));
      }
      j := j + 1;
    }
  }

  /** The innermost loop of the value pass: the six samples of cell (i, j)
      written at `ptr`, folded into the running minimum and maximum. */
  method SampleCell(f: array2<int>, verts: array<int>, ptr0: nat, i: nat, j: nat, min0: Ext, max0: Ext)
    returns (ptr: nat, minZ: Ext, maxZ: Ext)
    requires i < Span(f.Length0) && j < Span(f.Length1)
    requires ptr0 + 6 <= verts.Length
    requires min0 == SeqMin(verts[..ptr0]) && max0 == SeqMax(verts[..ptr0])
    modifies verts
    ensures ptr == ptr0 + 6
    ensures verts[..ptr] == old(verts[..ptr0]) + CellValues(f, i, j)
    ensures minZ == SeqMin(verts[..ptr]) && maxZ == SeqMax(verts[..ptr])
  {
    ptr, minZ, maxZ := ptr0, min0, max0;
    var k := 0;
    while k < 6
      invariant 0 <= k <= 6
      invariant ptr == ptr0 + k
      invariant verts[..ptr] == old(verts[..ptr0]) + CellValuesPrefix(f, i, j, k)
      invariant minZ == SeqMin(verts[..ptr]) && maxZ == SeqMax(verts[..ptr])
    {
      QuadOffsets(k);
      var v := f[i + Quad[k].0, j + Quad[k].1];
      ghost var done := verts[..ptr];
      assert CellValuesPrefix(f, i, j, k + 1) == CellValuesPrefix(f, i, j, k) + [v];
      AppendAssoc(old(verts[..ptr0]), CellValuesPrefix(f, i, j, k), [v]);
      verts[ptr] := v;
      assert verts[..ptr + 1] == done + [v];
      FoldStep(done, v);
      minZ := Min(minZ, Fin(v));
      maxZ := Max(maxZ, Fin(v));
      ptr := ptr + 1;
      k := k + 1;
    }
  }

  // ---------------------------------------------------------------------
  // Options and the plot object

  /** The `colormap` option: absent (or any falsy non-string), a palette
      name, or some other truthy value (an array), which update ignores. */
  datatype ColormapOption = Unset | Named(name: string) | OtherColormap

  /** The options update reads; it ignores every other key. */
  datatype Options = Options(field: Option<array2<int>>, colormap: ColormapOption)

  /** `nparams.colormap || "jet"` in createSurfacePlot. */
  function WithDefaultColormap(c: ColormapOption): (r: ColormapOption)
    ensures r != Unset && r != Named("")
    ensures (c.Unset? || c == Named("")) ==> r == Named("jet")
    ensures !(c.Unset? || c == Named("")) ==> r == c
  {
    if c.Unset? || c == Named("") then Named("jet") else c
  }

  /** The vertex count the source passes to the draw call, in its own
      integer arithmetic: for a shape with an empty axis it is not the
      number of vertices the loops wrote. */
  function SourceVertexCount(n0: int, n1: int): (r: int)
    ensures n0 >= 1 && n1 >= 1 ==> r == 6 * Cells(n0, n1)
  {
    (n0 - 1) * (n1 - 1) * 6
  }

  /** The source's count agrees with the stream length exactly when no axis
      is empty, or one axis has a single sample. */
  lemma SourceVertexCountAgreement(n0: nat, n1: nat)
    ensures SourceVertexCount(n0, n1) == 6 * Cells(n0, n1)
        <==> (n0 >= 1 && n1 >= 1) || n0 == 1 || n1 == 1
  {
    if n0 == 0 && n1 == 0 {
      assert SourceVertexCount(n0, n1) == 6;
    } else if n0 == 0 && n1 >= 2 {
      assert SourceVertexCount(n0, n1) == -6 * (n1 - 1) < 0;
    } else if n1 == 0 && n0 >= 2 {
      assert SourceVertexCount(n0, n1) == -6 * (n0 - 1) < 0;
    }
  }

  /** A 0 x 0 field: the source draws six vertices though there is no cell. */
  lemma SourceVertexCountEmptyField()
    ensures SourceVertexCount(0, 0) == 6 && Cells(0, 0) == 0 && CoordStream(0, 0) == []
  {
  }

  class SurfacePlot {
    var shape: (nat, nat)
    var bounds: Box
    /** Contents of the coordinate vertex buffer. */
    var coordinates: seq<int>
    /** Contents of the value vertex buffer. */
    var values: seq<int>
    /** The palette last uploaded to the colormap texture, by name. */
    var palette: Option<string>
    /** How many times the coordinate buffer has been regenerated. */
    ghost var coordinateUploads: nat

    ghost predicate Valid()
      reads this
    {
      coordinates == CoordStream(shape.0, shape.1) && |values| == 6 * Cells(shape.0, shape.1)
    }

    /** createSurfacePlot: a plot of shape [0, 0] updated with the caller's
        options, `field` overridden and `colormap` defaulted to "jet". */
    constructor Create(field: array2<int>, params: Options)
      ensures Valid()
      ensures shape == (field.Length0, field.Length1)
      ensures values == ValueStream(field) && bounds == FieldBounds(field)
      ensures Aligned(field, coordinates, values)
      ensures coordinateUploads == if shape == (0, 0) then 0 else 1
      ensures palette == match WithDefaultColormap(params.colormap)
                         case Named(s) => Some(s)
                         case _ => None
    {
      shape := (0, 0);
      bounds := Box(Point(0, 0, Fin(0)), Point(0, 0, Fin(0)));
      coordinates := [];
      values := [];
      palette := None;
      coordinateUploads := 0;
      new;
      Update(Options(Some(field), WithDefaultColormap(params.colormap)));
    }

    /** draw: the number of vertices handed to the draw call, which is the
        length of the value stream and half that of the coordinate stream. */
    function VertexCount(): (n: nat)
      reads this
      requires Valid()
      ensures n == |values| && 2 * n == |coordinates|
    {
      6 * Cells(shape.0, shape.1)
    }

    method Update(params: Options)
      requires Valid()
      modifies this
      ensures Valid()
      ensures params.field.Some? ==>
        var f := params.field.value;
        && shape == (f.Length0, f.Length1)
        && values == ValueStream(f)
        && bounds == FieldBounds(f)
        && Aligned(f, coordinates, values)
        && coordinateUploads == old(coordinateUploads) + (if old(shape) == shape then 0 else 1)
      ensures params.field.Some? ==>
        (forall p :: 0 <= p < |values| ==> Le(bounds.lo.z, Fin(values[p])) && Le(Fin(values[p]), bounds.hi.z))
      ensures params.field.None? ==>
        shape == old(shape) && bounds == old(bounds) && coordinates == old(coordinates) &&
        values == old(values) && coordinateUploads == old(coordinateUploads)
      ensures palette == if params.colormap.Named? then Some(params.colormap.name) else old(palette)
    {
      if params.field.Some? {
        var field := params.field.value;
        var nshape := (field.Length0, field.Length1);
        if nshape.0 != shape.0 || nshape.1 != shape.1 {
          shape := nshape;
          var verts := GenerateCoordinates(nshape.0, nshape.1);
          coordinates := verts[..];
          coordinateUploads := coordinateUploads + 1;
        }
        var verts, minZ, maxZ := SampleValues(field);
        values := verts[..];
        bounds := Box(Point(0, 0, minZ), Point(nshape.0, nshape.1, maxZ));
        StreamsAligned(field);
        SeqMinIsMinimum(values);
        SeqMaxIsMaximum(values);
      }
      if params.colormap.Named? {
        palette := Some(params.colormap.name);
      }
    }
  }
}
