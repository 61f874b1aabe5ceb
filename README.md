# gl-surface3d surface tessellator and gradient front end, in Dafny

This project models two pieces of gl-surface3d.

**The surface plot (`surface.js`).** A `SurfacePlot` holds a shape, a bounding box, and two vertex buffers. An update with an `n0 x n1` scalar field writes two streams:

- The coordinate stream has six `(row, column)` index pairs per grid cell. They follow the fixed `QUAD` fan, which cuts the cell into two triangles that share the `(0,1)-(1,0)` diagonal. It is regenerated only when the field's shape changes.
- The value stream has one field sample per vertex, in the same order.

The update also records the box `[[0,0,minZ],[n0,n1,maxZ]]` from a running minimum and maximum of the values; `minZ` starts at `+Infinity` and `maxZ` at `-Infinity`. `createSurfacePlot` starts from shape `[0,0]` and runs one update. It copies the caller's options, overrides `field`, and defaults `colormap` to `"jet"`.

**The gradient front end (`gradient.js`).** The exported `gradient(out, inp, bc)` validates and normalises its arguments:

- It normalises the boundary conditions to one per input dimension.
- It runs four shape checks. Each raises its own error, in a fixed order.
- An input with no element returns `out` untouched. A 0-dimensional input zero-fills `out`.

The inner `gradient(dst, src)` of `cached` dispatches a 2-D grid to three kinds of stencil:

- The interior goes to a 2-D stencil.
- The four edge strips go to a 1-D stencil. The orthogonal gradient component is set to 0.
- The four corners get 0 in both components.

The stencils themselves are parameters of the model.

Layout:

- `extended.dfy`, module `ExtendedInt`: integers with `-Infinity` and `+Infinity`, and `Math.min`/`Math.max` on them.
- `surface.dfy`, module `Surface`:
  - the `Quad` fan;
  - the coordinate and value streams, as recursive specification functions (cell, row, grid);
  - the running minimum and maximum (`SeqMin`, `SeqMax`);
  - the update's loops, as methods that write a fresh array through a moving pointer;
  - the `SurfacePlot` class.
- `gradient.dfy`, module `Gradient`:
  - the validator, both as the specification function `Prepare` and as the method `Gradient` with the source's check loop;
  - the region predicates;
  - the dispatcher `Dispatch`, which writes an `array3<int>` of shape `s0 x s1 x 2`.

Modelling choices:

- Field values are `int`.
- A GPU buffer is modelled as a sequence field. "`buffer.update(verts)`" means "the field becomes `verts[..]`".
- A pooled scratch array is modelled as a freshly allocated Dafny array.
- The number of cells along an axis of `n` samples is `n - 1`, and 0 for an empty axis. This is how many times the source's loops run.

## Model

| member | source | states |
|---|---|---|
| `ExtendedInt.Min` | surface.js:114 | `Math.min` returns one of its two arguments, and the result is below both. |
| `ExtendedInt.Max` | surface.js:115 | `Math.max` returns one of its two arguments, and the result is above both. |
| `Surface.CoordStream` | surface.js:88 | The coordinate stream has 12 entries per cell, with `Span(n0)*Span(n1)` cells, where an empty axis has no cell. This equals the source's `(n0-1)*(n1-1)*6*2` unless an axis is empty (`SourceVertexCountAgreement`). |
| `Surface.CoordStreamAt` | surface.js:91-97 | Cells are visited row-major. Vertex `k` of cell `(i,j)` sits at vertex slot `6*(i*(n1-1)+j)+k`, which is inside the stream. Its index pair is `(i+QUAD[k][0], j+QUAD[k][1])`. |
| `Surface.CoordStreamInGrid` | surface.js:91-97 | The stream has an even length. Every index pair it emits lies in `[0,n0-1] x [0,n1-1]`. |
| `Surface.CellCorners` | surface.js:25-32 | Through the `Quad` constant, the six vertices of a cell are exactly its four corners. Its two triangles share exactly the `(i,j+1)-(i+1,j)` diagonal. |
| `Surface.ValueStream` | surface.js:106 | The value stream has 6 entries per cell, with `Span(n0)*Span(n1)` cells. This equals the source's `(n0-1)*(n1-1)*6` unless an axis is empty (`SourceVertexCountAgreement`). |
| `Surface.StreamsAligned` | surface.js:109-113 | Value entry `p` is the field sample at coordinate pair `p`, and that pair is in bounds. The two streams are aligned and have lengths in ratio 1:2. |
| `Surface.ValueStreamAt` | surface.js:111-113 | Vertex `k` of cell `(i,j)` carries the sample `field[i+QUAD[k][0], j+QUAD[k][1]]`. |
| `Surface.SeqMin` | surface.js:104-114 | `minZ` as the loop leaves it, that is `Math.min` folded from `Infinity` over the values seen. It is a finite value once at least one value was seen. |
| `Surface.SeqMax` | surface.js:105-115 | `maxZ` folded by `Math.max` from `-Infinity`. It is a finite value once at least one value was seen. |
| `Surface.FieldBounds` | surface.js:122-125 | The recorded box has corners `(0,0)` and `(n0,n1)` in the index plane. Its z-range encloses every value of the value stream. |
| `Surface.SeqMinIsMinimum` | surface.js:104-118 | The running minimum is at or below every value. It is attained by some value when the stream is non-empty. It stays `+Infinity` when there are no values. |
| `Surface.SeqMaxIsMaximum` | surface.js:104-118 | The running maximum is at or above every value. It is attained by some value when the stream is non-empty. It stays `-Infinity` when there are no values. |
| `Surface.GenerateCoordinates` | surface.js:88-98 | The triple loop fills the new buffer exactly with the coordinate stream. |
| `Surface.WriteCellCoords` | surface.js:93-96 | The innermost loop appends exactly the twelve coordinates of one cell at `ptr`, and `ptr` advances by 12. Nothing past the cell changes. |
| `Surface.SampleValues` | surface.js:104-118 | The triple loop fills the new buffer exactly with the value stream. `minZ` and `maxZ` end as the minimum and maximum of that stream. |
| `Surface.SampleRow` | surface.js:110-117 | The middle loop appends the samples of one row of cells and keeps the running minimum and maximum exact. |
| `Surface.SampleCell` | surface.js:111-116 | The innermost loop appends a cell's six samples and folds them into the running minimum and maximum. |
| `Surface.WithDefaultColormap` | surface.js:173 | The `"jet"` default of createSurfacePlot: the result is never falsy. A falsy option (absent or `""`) becomes `"jet"`. A truthy one is kept. |
| `Surface.SurfacePlot.Create` | surface.js:141-176 | Starting from shape `[0,0]`, the plot ends with the field's shape, its value stream and its bounds, and the two streams are aligned. The coordinates are generated once unless the field is 0x0. The palette is the defaulted colormap name. |
| `Surface.SurfacePlot.Update` | surface.js:78-131 | With a field, the new shape is the field's extents. The coordinates are regenerated exactly when the shape changed, and they always equal the stream of the current shape. The values become the field's value stream, aligned with the coordinates. The bounds are `[[0,0,minZ],[n0,n1,maxZ]]` and enclose every value. Without a field, shape, bounds and both buffers are unchanged. A string colormap replaces the palette. |
| `Surface.SurfacePlot.VertexCount` | surface.js:74 | The draw length equals the length of the value stream written by the last update, and half the length of the coordinate stream. |
| `Surface.SourceVertexCount` | surface.js:74 | The source's draw length `(n0-1)*(n1-1)*6`, in unbounded integers and as written. When both axes are non-empty it is 6 times the number of cells. |
| `Surface.SourceVertexCountAgreement` | surface.js:74 | The source's `(n0-1)*(n1-1)*6` equals the number of emitted vertices exactly when both axes are non-empty, or either axis has a single sample. |
| `Surface.SourceVertexCountEmptyField` | surface.js:74 | For a 0x0 field the source's expression gives 6, though there is no cell and the coordinate stream is empty. |
| `Gradient.Dup` | gradient.js:12 | `dup(n, x)` has length `n` and every entry is `x`. |
| `Gradient.Size` | gradient.js:27 | `inp.size`, the product of the extents (1 for no extent). A non-empty array has at least as many elements as any one of its extents. |
| `Gradient.SizeZero` | gradient.js:27-29 | An input has size 0 exactly when one of its extents is 0. |
| `Gradient.NormalizeBoundary` | gradient.js:7-15 | The boundary-condition step fails exactly when `bc` is an array whose length is not the input dimension. On success there is one condition per dimension. |
| `Gradient.LeadingExtentsMatch` | gradient.js:22-26 | The per-position check of the loop holds exactly when the leading extents of `out` are the input shape. |
| `Gradient.Prepare` | gradient.js:6-33 | On success, `out` has dimension `inp.dimension + 1`. Its last extent is `inp.dimension` and its leading extents are `inp.shape`. There is one boundary condition per input dimension. |
| `Gradient.Gradient` | gradient.js:6-33 | The checks of the source, with the `for` loop over leading extents that stops at the first mismatch, give exactly the result of `Prepare`. |
| `Gradient.PrepareSucceeds` | gradient.js:7-26 | Validation passes if and only if all four of these hold: an array `bc` has one entry per input dimension; the output dimension is one more; the last extent is the input dimension; the leading extents equal the input shape. |
| `Gradient.ErrorOrder` | gradient.js:7-26 | Each of the four errors is raised if and only if every earlier check passed and its own check fails. The boundary-condition error comes first, then output dimension, output last extent, and leading-extent mismatch. |
| `Gradient.BoundaryNormalised` | gradient.js:7-15 | An array `bc` is kept. A string is replicated once per dimension. Any other value becomes `'clamp'` for every dimension. |
| `Gradient.ActionChosen` | gradient.js:27-34 | `out` is returned unchanged exactly when some input extent is 0. The zero-fill happens exactly for a 0-dimensional input, and then `out` has shape `[0]` and no element. Every other valid input goes on to the stencils. |
| `Gradient.RegionsPartition` | gradient.js:40-135 | Every cell of an `s0 x s1` grid lies in exactly one region: the interior, the top/bottom strips, the left/right strips or the corners. The interior needs `s0 > 2` and `s1 > 2`, the row strips `s1 > 2`, the column strips `s0 > 2`. |
| `Gradient.ExpectedByRegion` | gradient.js:40-135 | Corners get 0 in both components. The row strips get 0 in component 0 and the 1-D stencil along their row in component 1. The column strips get the 1-D stencil along their column in component 0 and 0 in component 1. The interior gets the 2-D stencil. |
| `Gradient.FillInterior` | gradient.js:40-55 | The 2-D stencil writes both components of rows `1..s0-2` x columns `1..s1-2`. No other cell changes. |
| `Gradient.FillRow` | gradient.js:57-72 | A 1-D stencil view on one row writes one component over columns `1..s1-2`. No other cell changes. |
| `Gradient.FillColumn` | gradient.js:93-108 | A 1-D stencil view on one column writes one component over rows `1..s0-2`. No other cell changes. |
| `Gradient.FillRowEdges` | gradient.js:56-91 | When `s1 > 2`, rows `0` and `s0-1` get component 0 zeroed and component 1 from the 1-D stencil along that row. No other cell changes. |
| `Gradient.FillColumnEdges` | gradient.js:92-127 | When `s0 > 2`, columns `0` and `s1-1` get component 1 zeroed and component 0 from the 1-D stencil along that column. No other cell changes. |
| `Gradient.ZeroCorners` | gradient.js:128-135 | Both components of the four corner cells become 0. No other cell changes. |
| `Gradient.Dispatch` | gradient.js:38-137 | The dispatcher returns `dst`. Every component of every cell ends as its region prescribes, so the whole of `dst` is determined. |

## Findings

| source | as written | input that shows it | evidently intended | confidence | as-written member | corrected member |
|---|---|---|---|---|---|---|
| surface.js:74 | the draw length is `(shape[0]-1) * (shape[1]-1) * 6`, and lines 88 and 106 use the same product for buffer lengths | a field of shape `[0,0]`: the product is 6, but the loops write no vertex; `[0,k]` with `k >= 2` gives a negative count | 6 times the number of cells, counting 0 cells on an empty axis | low; not executed | `Surface.SourceVertexCountEmptyField` | `Surface.SurfacePlot.VertexCount` |

The model allocates and draws `6 * Cells(n0, n1)` vertices. `Surface.SourceVertexCountAgreement` shows that this agrees with the source's expression for every shape except those with an empty axis.

## Left out

- WebGL plumbing is not modelled because it consists of foreign GPU calls: shader creation, `createBuffer`, `createVAO`, `createTexture`, uniform binding, the draw call itself, `unbind` and `dispose` (surface.js:14-17, 59-73, 75-76, 133-139, 142-158). A buffer is modelled only by its contents. The coordinate buffer starts empty. The estimated initial buffer sizes (surface.js:145-147) are not modelled.
- `genColormap` is not modelled because it depends on external palette libraries (surface.js:34-44). For the same reason, the texture written in the `colormap` branch (surface.js:128-130) is modelled only by the name of the palette it was generated from.
- `typedarray-pool` allocation and release have no semantic content (surface.js:89, 100, 107). The model uses a fresh array.
- Float32 rounding and NaN propagation through `Math.min`/`Math.max` are not modelled; field values are integers. The two infinities are modelled, as the seeds of the running minimum and maximum.
- Option keys other than `field` and `colormap` are not modelled, because `update` reads no other key. A truthy `colormap` that is not a string, such as an array, is kept by the defaulting and ignored by `update`.
- surface.js tessellates every cell. It has no skipping of non-finite samples, no explicit coordinate fields, no contour extraction, no padded fields and no pick decoding, so the model has none of these.
- The contents of the stencils `grad1` and `grad2` are caller-supplied and never defined in `gradient.js`. They are parameters: pure functions of the source line or grid and of the output position.
  - A stencil that writes outside its own view is not modelled.
  - The `zero` slot is modelled as writing 0 over its view, which is its evident role. The source defines no `zero` either.
- The wiring at gradient.js:34 is not modelled: it passes `(out, inp)` into the `(diff, zero)` slots of `cached`, supplies no stencils, and returns the inner function instead of `out`. `Prepare` stops at the decision to run the stencils (`RunStencils`).
- The normalised boundary-condition strings get no meaning, because no code in these files reads them. An array `bc` is modelled as a sequence of strings.
- The front end describes arrays by their shapes: dimension is the length of the shape and size is the product of the extents. The following ndarray details are not modelled:
  - the `-1`-dimensional "trivial" arrays;
  - strides and offsets;
  - the one-argument `out.set(0)`, which is modelled as "every element becomes 0". The shape checks then force `out` to have shape `[0]`, so it writes nothing.
- `Gradient.Dispatch` requires `s0 >= 1` and `s1 >= 1`. For an empty grid, the corner writes at gradient.js:130-135 would address index -1, outside the array. The front end returns before this for inputs of size 0 (gradient.js:27-29).
- The dispatcher covers 2-D inputs only, as the source does: it reads only `s[0]` and `s[1]`.
- `example/example.js` (a demo harness) and `lib/shaders.js` (shader loading) are not part of this model.
