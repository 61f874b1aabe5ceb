/**
  The gradient front end of `gradient.js`: validation and normalisation of
  the arguments of `gradient(out, inp, bc)`, and the 2-D dispatcher that
  splits an s0 x s1 grid into an interior (handed to a 2-D stencil), four
  edge strips (handed to a 1-D stencil, the orthogonal component zeroed)
  and four corners (both components zeroed).

  Arrays of the front end are described by their shapes: `dimension` is the
  length of the shape and `size` the product of its extents.
 */
module Gradient {

  // ---------------------------------------------------------------------
  // Validation and normalisation

  /** The `bc` argument: an array of per-dimension conditions, a single
      condition name, or anything else. */
  datatype BoundaryArg = BcArray(conditions: seq<string>) | BcName(name: string) | BcOther

  /** The four errors the front end throws, in the order it checks them. */
  datatype GradientError =
    | InvalidBoundaryConditions
    | OutputDimension
    | OutputShape
    | ShapeMismatch

  datatype Result<T> = Ok(value: T) | Err(error: GradientError)

  /** What the front end does with valid arguments. */
  datatype Action =
    | ReturnUnchanged  // an input of size 0: `out` is returned untouched
    | FillZero         // an input of dimension 0: `out` is set to 0
    | RunStencils      // any other input goes on to the stencils

  datatype Plan = Plan(action: Action, bc: seq<string>)

  /** `dup(n, x)`: n copies of x. */
  function Dup(n: nat, x: string): (r: seq<string>)
    ensures |r| == n
    ensures forall t :: 0 <= t < n ==> r[t] == x
  {
    if n == 0 then [] else Dup(n - 1, x) + [x]
  }

  /** The number of elements of an array of this shape: the product of its
      extents, so a non-empty array has at least as many elements as any
      one extent. */
  function Size(shape: seq<nat>): (n: nat)
    ensures n != 0 ==> forall t :: 0 <= t < |shape| ==> shape[t] <= n
  {
    if shape == [] then 1
    else
      var init, last := shape[..|shape| - 1], shape[|shape| - 1];
      var n := Size(init) * last;
      assert n != 0 ==> Size(init) <= n && last <= n by {
        if n != 0 {
          ProductCovers(Size(init), last);
        }
      }
      assert forall t :: 0 <= t < |init| ==> shape[t] == init[t];
      n
  }

  /** Each factor of a non-zero product of naturals is at most the product. */
  lemma ProductCovers(a: nat, b: nat)
    requires a * b != 0
    ensures a <= a * b && b <= a * b
  {
    assert a >= 1 && b >= 1;
    assert a * b == a * (b - 1) + a;
    assert a * b == (a - 1) * b + b;
  }

  /** An array has no element exactly when one of its extents is 0. */
  lemma {:induction false} SizeZero(shape: seq<nat>)
    ensures Size(shape) == 0 <==> exists t :: 0 <= t < |shape| && shape[t] == 0
  {
    if shape != [] {
      var init := shape[..|shape| - 1];
      SizeZero(init);
      if Size(shape) == 0 {
        if shape[|shape| - 1] != 0 {
          var t :| 0 <= t < |init| && init[t] == 0;
          assert shape[t] == 0;
        }
      } else {
        forall t | 0 <= t < |shape| ensures shape[t] != 0 {
          if t < |init| {
            assert shape[t] == init[t];
          }
        }
      }
    }
  }

  /** The boundary conditions normalised to one per input dimension. */
  function NormalizeBoundary(bc: BoundaryArg, d: nat): (r: Result<seq<string>>)
    ensures r.Err? <==> bc.BcArray? && |bc.conditions| != d
    ensures r.Ok? ==> |r.value| == d
  {
    match bc
    case BcArray(cs) => if |cs| != d then Err(InvalidBoundaryConditions) else Ok(cs)
    case BcName(s) => Ok(Dup(d, s))
    case BcOther => Ok(Dup(d, "clamp"))
  }

  /** The leading extents of `out` are the extents of `inp`, checked one
      position at a time as the source's loop does. */
  predicate LeadingExtentsMatch(out: seq<nat>, inp: seq<nat>): (b: bool)
    requires |inp| <= |out|
    ensures b <==> out[..|inp|] == inp
  {
    forall t :: 0 <= t < |inp| ==> out[t] == inp[t]
  }

  /** The front end as a function of the two shapes and `bc`. */
  function Prepare(out: seq<nat>, inp: seq<nat>, bc: BoundaryArg): (r: Result<Plan>)
    ensures r.Ok? ==> |out| == |inp| + 1 && out[|inp|] == |inp| && out[..|inp|] == inp
    ensures r.Ok? ==> |r.value.bc| == |inp|
  {
    match NormalizeBoundary(bc, |inp|)
    case Err(e) => Err(e)
    case Ok(conds) =>
      if |out| != |inp| + 1 then Err(OutputDimension)
      else if out[|inp|] != |inp| then Err(OutputShape)
      else if !LeadingExtentsMatch(out, inp) then Err(ShapeMismatch)
      else if Size(inp) == 0 then Ok(Plan(ReturnUnchanged, conds))
      else if |inp| == 0 then Ok(Plan(FillZero, conds))
      else Ok(Plan(RunStencils, conds))
  }

  /** The exported `gradient`: the checks in source order, the leading
      extents compared by a loop that stops at the first mismatch. */
  method Gradient(out: seq<nat>, inp: seq<nat>, bc: BoundaryArg) returns (r: Result<Plan>)
    ensures r == Prepare(out, inp, bc)
  {
    var conds: seq<string>;
    match bc {
      case BcArray(cs) =>
        if |cs| != |inp| {
          return Err(InvalidBoundaryConditions);
        }
        conds := cs;
      case BcName(s) =>
        conds := Dup(|inp|, s);
      case BcOther =>
        conds := Dup(|inp|, "clamp");
    }
    if |out| != |inp| + 1 {
      return Err(OutputDimension);
    }
    if out[|inp|] != |inp| {
      return Err(OutputShape);
    }
    var i := 0;
    while i < |inp|
      invariant 0 <= i <= |inp|
      invariant forall t :: 0 <= t < i ==> out[t] == inp[t]
    {
      if out[i] != inp[i] {
        return Err(ShapeMismatch);
      }
      i := i + 1;
    }
    if Size(inp) == 0 {
      return Ok(Plan(ReturnUnchanged, conds));
    }
    if |inp| == 0 {
      return Ok(Plan(FillZero, conds));
    }
    return Ok(Plan(RunStencils, conds));
  }

  /** The front end succeeds exactly when the boundary conditions have the
      input's dimension (or are not an array), `out` has one more dimension,
      its last extent is the input's dimension and its leading extents are
      the input's shape. */
  lemma PrepareSucceeds(out: seq<nat>, inp: seq<nat>, bc: BoundaryArg)
    ensures Prepare(out, inp, bc).Ok? <==>
      && (bc.BcArray? ==> |bc.conditions| == |inp|)
      && |out| == |inp| + 1 && out[|inp|] == |inp| && out[..|inp|] == inp
  {
    if (bc.BcArray? ==> |bc.conditions| == |inp|) && |out| == |inp| + 1 && out[..|inp|] == inp {
      assert LeadingExtentsMatch(out, inp) by {
        forall t | 0 <= t < |inp| ensures out[t] == inp[t] {
          assert out[..|inp|][t] == out[t];
        }
      }
    }
  }

  /** Each error is raised only when every earlier check has passed, and
      nothing is decided before the boundary conditions are checked. */
  lemma ErrorOrder(out: seq<nat>, inp: seq<nat>, bc: BoundaryArg)
    ensures bc.BcArray? && |bc.conditions| != |inp| ==> Prepare(out, inp, bc) == Err(InvalidBoundaryConditions)
    ensures Prepare(out, inp, bc) == Err(InvalidBoundaryConditions) ==> bc.BcArray? && |bc.conditions| != |inp|
    ensures Prepare(out, inp, bc) == Err(OutputDimension) <==>
      (bc.BcArray? ==> |bc.conditions| == |inp|) && |out| != |inp| + 1
    ensures Prepare(out, inp, bc) == Err(OutputShape) <==>
      (bc.BcArray? ==> |bc.conditions| == |inp|) && |out| == |inp| + 1 && out[|inp|] != |inp|
    ensures Prepare(out, inp, bc) == Err(ShapeMismatch) <==>
      (bc.BcArray? ==> |bc.conditions| == |inp|) && |out| == |inp| + 1 && out[|inp|] == |inp| &&
      exists t :: 0 <= t < |inp| && out[t] != inp[t]
  {
  }

  /** A string `bc` is replicated once per input dimension; any value that
      is neither an array nor a string becomes "clamp" for every dimension. */
  lemma BoundaryNormalised(out: seq<nat>, inp: seq<nat>, bc: BoundaryArg)
    requires Prepare(out, inp, bc).Ok?
    ensures bc.BcArray? ==> Prepare(out, inp, bc).value.bc == bc.conditions
    ensures bc.BcName? ==> forall t :: 0 <= t < |inp| ==> Prepare(out, inp, bc).value.bc[t] == bc.name
    ensures bc.BcOther? ==> forall t :: 0 <= t < |inp| ==> Prepare(out, inp, bc).value.bc[t] == "clamp"
  {
  }

  /** After validation: an input with an empty extent returns `out`
      untouched; otherwise a 0-dimensional input zero-fills `out`, which the
      shape checks have then forced to the shape [0], so no element is
      written; every other input goes on to the stencils. */
  lemma ActionChosen(out: seq<nat>, inp: seq<nat>, bc: BoundaryArg)
    requires Prepare(out, inp, bc).Ok?
    ensures Prepare(out, inp, bc).value.action == ReturnUnchanged <==> exists t :: 0 <= t < |inp| && inp[t] == 0
    ensures Prepare(out, inp, bc).value.action == FillZero <==> inp == []
    ensures Prepare(out, inp, bc).value.action == FillZero ==> out == [0] && Size(out) == 0
    ensures Prepare(out, inp, bc).value.action == RunStencils <==> inp != [] && Size(inp) > 0
  {
    SizeZero(inp);
    if inp == [] {
      assert out == [0];
      assert Size(out) == Size([]) * 0;
    }
  }

  // ---------------------------------------------------------------------
  // The 2-D stencil dispatcher

  type Grid = seq<seq<int>>

  /** A 1-D stencil: the value it writes at position t of its window, given
      the whole source line the window lies in. */
  type Stencil1 = (seq<int>, nat) -> int

  /** A 2-D stencil: the two gradient components it writes at (r, c), given
      the whole source grid. */
  type Stencil2 = (Grid, nat, nat) -> (int, int)

  predicate IsGrid(g: Grid, s0: nat, s1: nat) {
    |g| == s0 && forall r :: 0 <= r < s0 ==> |g[r]| == s1
  }

  /** The contents of a 2-D array as a grid value. */
  function Snapshot(src: array2<int>): (g: Grid)
    reads src
    ensures IsGrid(g, src.Length0, src.Length1)
    ensures forall r, c :: 0 <= r < src.Length0 && 0 <= c < src.Length1 ==> g[r][c] == src[r, c]
  {
    seq(src.Length0, r requires 0 <= r < src.Length0 reads src =>
      seq(src.Length1, c requires 0 <= c < src.Length1 reads src => src[r, c]))
  }

  /** Column c of a grid with s1 columns. */
  function Column(g: Grid, s1: nat, c: nat): (line: seq<int>)
    requires IsGrid(g, |g|, s1) && c < s1
    ensures |line| == |g| && forall r :: 0 <= r < |g| ==> line[r] == g[r][c]
  {
    seq(|g|, r requires 0 <= r < |g| => g[r][c])
  }

  /** Everything a 1-D stencil writes along a line, position by position. */
  function Stencil1Line(grad1: Stencil1, line: seq<int>): (out: seq<int>)
    ensures |out| == |line| && forall t :: 0 <= t < |line| ==> out[t] == grad1(line, t)
  {
    seq(|line|, t requires 0 <= t < |line| => grad1(line, t))
  }

  /** What the zero stencil writes: 0 everywhere. */
  function Zeros(n: nat): (out: seq<int>)
    ensures |out| == n && forall t :: 0 <= t < n ==> out[t] == 0
  {
    seq(n, _ => 0)
  }

  // The four regions of an s0 x s1 grid, as the dispatcher's guards and
  // views define them.

  predicate InInterior(s0: nat, s1: nat, r: nat, c: nat) {
    s0 > 2 && s1 > 2 && 1 <= r <= s0 - 2 && 1 <= c <= s1 - 2
  }

  /** The top and bottom strips: rows 0 and s0 - 1, columns 1 .. s1 - 2. */
  predicate OnRowEdge(s0: nat, s1: nat, r: nat, c: nat) {
    s1 > 2 && (r == 0 || r == s0 - 1) && 1 <= c <= s1 - 2
  }

  /** The left and right strips: columns 0 and s1 - 1, rows 1 .. s0 - 2. */
  predicate OnColumnEdge(s0: nat, s1: nat, r: nat, c: nat) {
    s0 > 2 && (c == 0 || c == s1 - 1) && 1 <= r <= s0 - 2
  }

  predicate IsCorner(s0: nat, s1: nat, r: nat, c: nat) {
    (r == 0 || r == s0 - 1) && (c == 0 || c == s1 - 1)
  }

  /** Every cell of a non-empty grid lies in some region, and in only one. */
  lemma RegionsPartition(s0: nat, s1: nat, r: nat, c: nat)
    requires r < s0 && c < s1
    ensures InInterior(s0, s1, r, c) || OnRowEdge(s0, s1, r, c) || OnColumnEdge(s0, s1, r, c) || IsCorner(s0, s1, r, c)
    ensures IsCorner(s0, s1, r, c) ==> !InInterior(s0, s1, r, c) && !OnRowEdge(s0, s1, r, c) && !OnColumnEdge(s0, s1, r, c)
    ensures InInterior(s0, s1, r, c) ==> !OnRowEdge(s0, s1, r, c) && !OnColumnEdge(s0, s1, r, c)
    ensures !(OnRowEdge(s0, s1, r, c) && OnColumnEdge(s0, s1, r, c))
  {
  }

  /** Component k of the gradient the dispatcher leaves at cell (r, c). */
  function Expected(g: Grid, s1: nat, grad1: Stencil1, grad2: Stencil2, r: nat, c: nat, k: nat): int
    requires IsGrid(g, |g|, s1) && r < |g| && c < s1 && k < 2
  {
    var s0 := |g|;
    if IsCorner(s0, s1, r, c) then 0
    else if OnRowEdge(s0, s1, r, c) then (if k == 0 then 0 else grad1(g[r], c))
    else if OnColumnEdge(s0, s1, r, c) then (if k == 0 then grad1(Column(g, s1, c), r) else 0)
    else if k == 0 then grad2(g, r, c).0 else grad2(g, r, c).1
  }

  /** Corners get 0 in both components; the top and bottom strips get 0 in
      component 0 and the 1-D stencil along their row in component 1; the
      left and right strips the 1-D stencil along their column in
      component 0 and 0 in component 1; the interior the 2-D stencil. */
  lemma ExpectedByRegion(g: Grid, s1: nat, grad1: Stencil1, grad2: Stencil2, r: nat, c: nat)
    requires IsGrid(g, |g|, s1) && r < |g| && c < s1
    ensures IsCorner(|g|, s1, r, c) ==>
      Expected(g, s1, grad1, grad2, r, c, 0) == 0 && Expected(g, s1, grad1, grad2, r, c, 1) == 0
    ensures OnRowEdge(|g|, s1, r, c) ==>
      Expected(g, s1, grad1, grad2, r, c, 0) == 0 && Expected(g, s1, grad1, grad2, r, c, 1) == grad1(g[r], c)
    ensures OnColumnEdge(|g|, s1, r, c) ==>
      Expected(g, s1, grad1, grad2, r, c, 0) == grad1(Column(g, s1, c), r) && Expected(g, s1, grad1, grad2, r, c, 1) == 0
    ensures InInterior(|g|, s1, r, c) ==>
      Expected(g, s1, grad1, grad2, r, c, 0) == grad2(g, r, c).0 && Expected(g, s1, grad1, grad2, r, c, 1) == grad2(g, r, c).1
  {
    RegionsPartition(|g|, s1, r, c);
  }

  /** A 1-D stencil (or zero) writing component `comp` of row `row`, over
      the window of columns 1 .. s1 - 2. */
  method FillRow(dst: array3<int>, row: nat, comp: nat, vals: seq<int>)
    requires row < dst.Length0 && comp < dst.Length2 && |vals| == dst.Length1
    modifies dst
    ensures forall r, c, k :: 0 <= r < dst.Length0 && 0 <= c < dst.Length1 && 0 <= k < dst.Length2 ==>
      dst[r, c, k] == if r == row && k == comp && 1 <= c <= dst.Length1 - 2 then vals[c] else old(dst[r, c, k])
  {
    var c := 1;
    while c + 1 < dst.Length1
      invariant 1 <= c <= if dst.Length1 >= 2 then dst.Length1 - 1 else 1
      invariant forall r, c', k :: 0 <= r < dst.Length0 && 0 <= c' < dst.Length1 && 0 <= k < dst.Length2 ==>
        dst[r, c', k] == if r == row && k == comp && 1 <= c' < c then vals[c'] else old(dst[r, c', k])
    {
      dst[row, c, comp] := vals[c];
      c := c + 1;
    }
  }

  /** A 1-D stencil (or zero) writing component `comp` of column `col`, over
      the window of rows 1 .. s0 - 2. */
  method FillColumn(dst: array3<int>, col: nat, comp: nat, vals: seq<int>)
    requires col < dst.Length1 && comp < dst.Length2 && |vals| == dst.Length0
    modifies dst
    ensures forall r, c, k :: 0 <= r < dst.Length0 && 0 <= c < dst.Length1 && 0 <= k < dst.Length2 ==>
      dst[r, c, k] == if c == col && k == comp && 1 <= r <= dst.Length0 - 2 then vals[r] else old(dst[r, c, k])
  {
    var r := 1;
    while r + 1 < dst.Length0
      invariant 1 <= r <= if dst.Length0 >= 2 then dst.Length0 - 1 else 1
      invariant forall r', c, k :: 0 <= r' < dst.Length0 && 0 <= c < dst.Length1 && 0 <= k < dst.Length2 ==>
        dst[r', c, k] == if c == col && k == comp && 1 <= r' < r then vals[r'] else old(dst[r', c, k])
    {
      dst[r, col, comp] := vals[r];
      r := r + 1;
    }
  }

  /** The 2-D stencil writing both components over rows 1 .. s0 - 2 and
      columns 1 .. s1 - 2. */
  method FillInterior(dst: array3<int>, g: Grid, grad2: Stencil2)
    requires IsGrid(g, dst.Length0, dst.Length1) && dst.Length2 == 2
    modifies dst
    ensures forall r, c, k :: 0 <= r < dst.Length0 && 0 <= c < dst.Length1 && 0 <= k < 2 ==>
      dst[r, c, k] == if 1 <= r <= dst.Length0 - 2 && 1 <= c <= dst.Length1 - 2
                      then (if k == 0 then grad2(g, r, c).0 else grad2(g, r, c).1)
                      else old(dst[r, c, k])
  {
    var r := 1;
    while r + 1 < dst.Length0
      invariant 1 <= r <= if dst.Length0 >= 2 then dst.Length0 - 1 else 1
      invariant forall r', c, k :: 0 <= r' < dst.Length0 && 0 <= c < dst.Length1 && 0 <= k < 2 ==>
        dst[r', c, k] == if 1 <= r' < r && 1 <= c <= dst.Length1 - 2
                         then (if k == 0 then grad2(g, r', c).0 else grad2(g, r', c).1)
                         else old(dst[r', c, k])
    {
      var c := 1;
      while c + 1 < dst.Length1
        invariant 1 <= c <= if dst.Length1 >= 2 then dst.Length1 - 1 else 1
        invariant forall r', c', k :: 0 <= r' < dst.Length0 && 0 <= c' < dst.Length1 && 0 <= k < 2 ==>
          dst[r', c', k] == if (1 <= r' < r && 1 <= c' <= dst.Length1 - 2) || (r' == r && 1 <= c' < c)
                            then (if k == 0 then grad2(g, r', c').0 else grad2(g, r', c').1)
                            else old(dst[r', c', k])
      {
        var d := grad2(g, r, c);
        dst[r, c, 0] := d.0;
        dst[r, c, 1] := d.1;
        c := c + 1;
      }
      r := r + 1;
    }
  }

  /** The top and bottom strips (only when s1 > 2): the 1-D stencil along
      the row into component 1, zero into component 0. */
  method FillRowEdges(dst: array3<int>, g: Grid, grad1: Stencil1)
    requires IsGrid(g, dst.Length0, dst.Length1) && dst.Length0 >= 1 && dst.Length2 == 2
    modifies dst
    ensures forall r, c, k :: 0 <= r < dst.Length0 && 0 <= c < dst.Length1 && 0 <= k < 2 ==>
      dst[r, c, k] == if OnRowEdge(dst.Length0, dst.Length1, r, c)
                      then (if k == 0 then 0 else grad1(g[r], c))
                      else old(dst[r, c, k])
  {
    var s0, s1 := dst.Length0, dst.Length1;
    if s1 > 2 {
      FillRow(dst, 0, 1, Stencil1Line(grad1, g[0]));
      FillRow(dst, 0, 0, Zeros(s1));
    }
    if s1 > 2 {
      FillRow(dst, s0 - 1, 1, Stencil1Line(grad1, g[s0 - 1]));
      FillRow(dst, s0 - 1, 0, Zeros(s1));
    }
  }

  /** The left and right strips (only when s0 > 2): the 1-D stencil along
      the column into component 0, zero into component 1. */
  method FillColumnEdges(dst: array3<int>, g: Grid, grad1: Stencil1)
    requires IsGrid(g, dst.Length0, dst.Length1) && dst.Length1 >= 1 && dst.Length2 == 2
    modifies dst
    ensures forall r, c, k :: 0 <= r < dst.Length0 && 0 <= c < dst.Length1 && 0 <= k < 2 ==>
      dst[r, c, k] == if OnColumnEdge(dst.Length0, dst.Length1, r, c)
                      then (if k == 0 then grad1(Column(g, dst.Length1, c), r) else 0)
                      else old(dst[r, c, k])
  {
    var s0, s1 := dst.Length0, dst.Length1;
    if s0 > 2 {
      FillColumn(dst, 0, 0, Stencil1Line(grad1, Column(g, s1, 0)));
      FillColumn(dst, 0, 1, Zeros(s0));
    }
    if s0 > 2 {
      FillColumn(dst, s1 - 1, 0, Stencil1Line(grad1, Column(g, s1, s1 - 1)));
      FillColumn(dst, s1 - 1, 1, Zeros(s0));
    }
  }

  /** The eight `dst.set` calls: both components of the four corners become 0. */
  method ZeroCorners(dst: array3<int>)
    requires dst.Length0 >= 1 && dst.Length1 >= 1 && dst.Length2 == 2
    modifies dst
    ensures forall r, c, k :: 0 <= r < dst.Length0 && 0 <= c < dst.Length1 && 0 <= k < 2 ==>
      dst[r, c, k] == if IsCorner(dst.Length0, dst.Length1, r, c) then 0 else old(dst[r, c, k])
  {
    var s0, s1 := dst.Length0, dst.Length1;
    dst[0, 0, 0] := 0;
    dst[0, 0, 1] := 0;
    dst[s0 - 1, 0, 0] := 0;
    dst[s0 - 1, 0, 1] := 0;
    dst[0, s1 - 1, 0] := 0;
    dst[0, s1 - 1, 1] := 0;
    dst[s0 - 1, s1 - 1, 0] := 0;
    dst[s0 - 1, s1 - 1, 1] := 0;
  }

  /** The inner `gradient(dst, src)` of `cached`: interior, the four edge
      strips, then the four corners; it returns `dst`. */
  method Dispatch(dst: array3<int>, src: array2<int>, grad1: Stencil1, grad2: Stencil2) returns (res: array3<int>)
    requires src.Length0 >= 1 && src.Length1 >= 1
    requires dst.Length0 == src.Length0 && dst.Length1 == src.Length1 && dst.Length2 == 2
    modifies dst
    ensures res == dst
    ensures forall r, c, k :: 0 <= r < dst.Length0 && 0 <= c < dst.Length1 && 0 <= k < 2 ==>
      dst[r, c, k] == Expected(Snapshot(src), src.Length1, grad1, grad2, r, c, k)
  {
    var g := Snapshot(src);
    var s0, s1 := src.Length0, src.Length1;
    if s0 > 2 && s1 > 2 {
      FillInterior(dst, g, grad2);
    }
    label interior:
    FillRowEdges(dst, g, grad1);
    label rows:
    FillColumnEdges(dst, g, grad1);
    label columns:
    ZeroCorners(dst);
    forall r, c, k | 0 <= r < s0 && 0 <= c < s1 && 0 <= k < 2
      ensures dst[r, c, k] == Expected(g, s1, grad1, grad2, r, c, k)
    {
      RegionsPartition(s0, s1, r, c);
      if IsCorner(s0, s1, r, c) {
      } else if OnColumnEdge(s0, s1, r, c) {
      } else if OnRowEdge(s0, s1, r, c) {
        assert dst[r, c, k] == old@rows(dst[r, c, k]);
      } else {
        assert dst[r, c, k] == old@interior(dst[r, c, k]);
      }
    }
    res := dst;
  }
}
