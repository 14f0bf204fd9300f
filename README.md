# iWave height-field simulator, modelled in Dafny

This project models the simulation engine of the iWave demo (`Source/Source.cpp`). The engine is a
height-field water surface on a W x H grid. Five row-major buffers of W*H cells hold its state:
height, previous height, vertical derivative, obstruction mask and source accumulator. Cell
(x, y) lives at index `x + W*y`. A sixth buffer holds the display image.

The engine's operations are:

- The bulk initialisers: `Initialize`, `ClearObstruction` and `ClearWaves`.
- `ComputeVerticalDerivative`: a 13 x 13 correlation of the heights with a dispersion kernel.
  It writes only the interior band of cells at least 6 away from every border.
- `Propagate`: one time step in three passes. It masks the heights by the obstruction, runs the
  correlation, then applies the damped explicit update to every cell. That update keeps the
  masked height as the previous height and consumes the sources.
- `DabSomePaint`: a clamped 3 x 3 brush stamp at the mouse position, flipped vertically. It
  multiplies into the obstruction mask or adds into the sources, depending on the paint mode.
- `ConvertToDisplay`: the luminance image of the heights.

The model has two layers:

- **Value layer** (modules `Grid`, `WaveGrid`, `Convolution`, `Simulator`, `Brush`, `Display`).
  Each pass is a function on sequences of `real`:
  - `VerticalDerivative` for the correlation;
  - `Step` for a whole time step;
  - `Dabbed` for one dab;
  - `DisplayMap` for the display image.
  The lemmas state the properties of these functions.
- **Imperative layer** (module `IWave`). The class `WaveSim` holds the buffers as `array<real>`
  fields and the kernel as an `array2<real>`. Each routine of the original is a method with the
  same loops, in the same order. Each method's postcondition ties the new contents of the arrays
  to the value-layer function of the old contents.

## Model

| member | source | states |
|---|---|---|
| Grid.Idx | Source/Source.cpp:131 | The row-major index `x + W*y` of a grid cell lies in `[0, W*H)`, and column/row recover x and y from it |
| Grid.CellOfIndex | Source/Source.cpp:294 | Every index of a W*H buffer is the index of exactly one grid cell |
| Grid.DivModOfIdx | Source/Source.cpp:131 | Dividing `x + W*y` by the width gives back y, and the remainder gives back x |
| Grid.Masked | Source/Source.cpp:150-153 | The obstruction pre-mask is cell-wise and keeps the buffer length |
| Convolution.NeighbourIndex | Source/Source.cpp:127-137 | Every height index the correlation reads, `ix+iix + W*(iy+iiy)` with an interior `(ix, iy)` and offsets in `[-6, 6]`, lies in `[0, W*H)` |
| Convolution.NeighbourIndexIsCell | Source/Source.cpp:137 | That index addresses exactly the grid cell `(ix+iix, iy+iiy)` |
| Convolution.NeighbourIndexInjective | Source/Source.cpp:137 | Two window offsets that give the same read index are the same offset |
| Convolution.RowSum | Source/Source.cpp:135-139 | The first n terms of the iiy loop for kernel row iix: the sum of `kernel[iix+6][iiy+6] * h[ix+iix + W*(iy+iiy)]` for iiy from -6 upward |
| Convolution.WindowSum | Source/Source.cpp:133-140 | The first m full kernel rows of the iix loop, summed from iix = -6 upward |
| Convolution.NeighbourSum | Source/Source.cpp:132-140 | The value `vd` accumulates for an interior cell: all 13 x 13 terms |
| Convolution.CellDerivative | Source/Source.cpp:127-142 | The new derivative of one cell: its neighbourhood sum when it is interior, otherwise its old value |
| Convolution.VerticalDerivative | Source/Source.cpp:124-145 | The derivative buffer after the pass, cell by cell from CellDerivative, computed from the heights as they stand before the pass |
| Convolution.Impulse | Source/Source.cpp:138 | A height field that is 1 at one cell and 0 at every other cell |
| Convolution.RowSumOfImpulse | Source/Source.cpp:135-139 | Against a unit impulse at window offset (ex, ey), the first n terms of kernel row dx sum to `kernel[dx+6][ey+6]` when the impulse is among them, and to 0 otherwise |
| Convolution.WindowSumOfImpulse | Source/Source.cpp:133-140 | Against that impulse, the first m kernel rows sum to `kernel[ex+6][ey+6]` when row ex is among them, and to 0 otherwise |
| Convolution.DerivativeOfImpulse | Source/Source.cpp:131-142 | Impulse response: an interior cell (x, y) sees a unit height at (x+ex, y+ey) exactly through kernel entry `[ex+6][ey+6]`, so the first kernel index runs along x |
| Convolution.InteriorGetsNeighbourSum | Source/Source.cpp:131-142 | An interior cell's new derivative is the sum over the 13 x 13 window of kernel entry times height |
| Convolution.RingKeepsDerivative | Source/Source.cpp:121-129 | A cell of the outer ring of width 6 keeps its old derivative value |
| Convolution.SmallGridKeepsDerivative | Source/Source.cpp:127-129 | On a grid at most 12 wide or at most 12 tall, the pass changes no derivative at all |
| Convolution.RowSumOfCalm | Source/Source.cpp:135-139 | One kernel row against flat zero heights sums to zero |
| Convolution.WindowSumOfCalm | Source/Source.cpp:133-140 | The whole window against flat zero heights sums to zero |
| Convolution.DerivativeOfCalm | Source/Source.cpp:124-145 | Flat zero heights give a zero derivative on the interior and leave the ring unchanged, whatever the kernel |
| Convolution.RowSumLocal | Source/Source.cpp:135-139 | One kernel row's sum depends only on the heights inside the cell's window |
| Convolution.WindowSumLocal | Source/Source.cpp:133-140 | The window sum depends only on the heights inside the window |
| Convolution.NeighbourSumIsLocal | Source/Source.cpp:131-142 | A cell's derivative reads the heights of its 13 x 13 window and nothing else |
| Convolution.RadialKernel | Source/Source.cpp:50-61 | A kernel whose entry `[i+6][j+6]` depends only on `i*i + j*j` is a 13 x 13 table |
| Convolution.RadialKernelIsSymmetric | Source/Source.cpp:50-61 | Such a kernel is symmetric under transposition and under mirroring either offset |
| Simulator.Step | Source/Source.cpp:147-171 | One time step keeps every buffer at W*H cells |
| Simulator.AdvanceCell | Source/Source.cpp:158-166 | The update of one cell: `((h*(2-adt) - hPrev - gravity*vd) * 1/(1+adt) + src) * obs`; mask 0 gives 0, and still open water gives exactly the source |
| Simulator.Advanced | Source/Source.cpp:160-166 | AdvanceCell applied to every cell of the buffers, keeping the length |
| Simulator.StepBookkeeping | Source/Source.cpp:150-169 | After a step every source is 0, the mask is unchanged, and the previous height is the old height times the mask, not the raw old height |
| Simulator.ObstructedCellIsSink | Source/Source.cpp:150-167 | A cell with mask 0 ends the step with height 0 and previous height 0, whatever its source and its neighbours |
| Simulator.SourceArrivesUndamped | Source/Source.cpp:158-166 | A cell's new height is the damped update of its masked height plus its source times its mask. The source is added after the `1/(1+adt)` scaling |
| Simulator.StepKeepsRing | Source/Source.cpp:121-123 | A step never changes the derivative on the outer ring |
| Simulator.CalmWaterStaysCalm | Source/Source.cpp:147-171 | Still water with no sources and a zero derivative buffer is a fixed point of the step |
| Simulator.SmallGridTakesSource | Source/Source.cpp:147-171 | On a grid with no interior, still open water takes the sources as its heights in one step |
| Simulator.UnitImpulseOnTenByTen | Source/Source.cpp:158-169 | On a still, open 10 x 10 grid, a unit source at one cell gives height exactly 1 there and 0 everywhere else after one step |
| WaveGrid.WavesClearedProperties | Source/Source.cpp:95-103 | Clearing the waves zeroes height, previous height and derivative, leaves the mask and the sources alone, and is idempotent |
| WaveGrid.ObstructionClearedProperties | Source/Source.cpp:89-93 | Clearing the obstruction sets every mask cell to 1, touches no other buffer, and is idempotent |
| WaveGrid.WavesCleared | Source/Source.cpp:95-103 | The state with height, previous height and derivative set to 0 everywhere and the other buffers as they were |
| WaveGrid.ObstructionCleared | Source/Source.cpp:89-93 | The state with every mask cell set to 1 and the other buffers as they were |
| Brush.ObstructionBrush | Source/Source.cpp:68-76 | Obstruction weights lie in `[0, 1)` and are 0 exactly at the centre |
| Brush.SourceBrush | Source/Source.cpp:78-86 | Source weights lie in `(0, 1]` and are 1 exactly at the centre |
| Brush.ApplyBrush | Source/Source.cpp:202-213 | One brush weight applied to one cell: an obstruction dab keeps a non-negative mask value non-negative and never raises it; a source dab raises the source by more than 0 and at most 1 |
| Brush.BoxLo | Source/Source.cpp:185-188 | The first box column (row) `c - 1`, clamped at 0 |
| Brush.BoxHi | Source/Source.cpp:190-193 | The last box column (row) `c + 1`, clamped at W - 1 (H - 1) |
| Brush.BrushesSymmetric | Source/Source.cpp:66-87 | Both brush tables are symmetric under transposition and under a horizontal mirror |
| Brush.BoxWithinGridAndBrush | Source/Source.cpp:185-193 | Every cell of the clamped box is a grid cell, and its brush offsets `ix-xStart`, `iy-yStart` lie in `[0, 2]`, wherever the mouse is |
| Brush.FlippedIdx | Source/Source.cpp:201 | The written index `ix + W*(H-iy-1)` lies in `[0, W*H)` and addresses column ix, row `H-1-iy` |
| Brush.DabCell | Source/Source.cpp:197-215 | The new value of one buffer cell after a dab: the brush weight at its box offset applied when its flipped position lies in the clamped box, otherwise the old value |
| Brush.Dabbed | Source/Source.cpp:183-216 | The whole buffer after one dab, cell by cell from DabCell |
| Brush.DabTouchesOnlyBox | Source/Source.cpp:183-216 | A dab leaves every cell outside the clamped, flipped box unchanged |
| Brush.DabKeepsMaskInUnitRange | Source/Source.cpp:195-205 | Painting obstruction keeps a mask within `[0, 1]`, and no mask value increases |
| Brush.DabCentreOnCursor | Source/Source.cpp:197-213 | Away from the lower clamps, a dab fully blocks the cursor cell or adds a full unit of source there |
| Brush.DabAtLeftEdgeIsOffCentre | Source/Source.cpp:185-202 | At x = 0 the clamp shifts the brush: the cursor cell gets weight 0.5, and the blocking centre weight lands one column to its right |
| Display.DisplayMap | Source/Source.cpp:105-111 | The display image has one value per cell |
| Display.DisplayValue | Source/Source.cpp:109 | The luminance `0.5*(h/scale + 1)*obs` of one cell; a blocked cell is black, and a still cell shows half its mask |
| Display.DisplayInUnitRange | Source/Source.cpp:109 | A height within the scale and a mask within `[0, 1]` give a luminance within `[0, 1]`, and a blocked cell is black |
| Display.StillOpenWaterIsGrey | Source/Source.cpp:313-315 | Still, open water displays as uniform 0.5 grey |
| IWave.WaveSim.constructor | Source/Source.cpp:293-322 | Start-up: dt = 0.03, alpha = 0.3, gravity = 9.8*dt*dt, scale 1, obstruction paint mode; still water, no obstruction, no sources, a grey display, and the kernel built from the radial profile |
| IWave.WaveSim.Kernel | Source/Source.cpp:14 | The kernel array, read as a 13 x 13 table |
| IWave.WaveSim.Initialize | Source/Source.cpp:32-36 | Every cell of the buffer becomes the given value |
| IWave.WaveSim.InitializeKernel | Source/Source.cpp:50-63 | Kernel entry `[i+6][j+6]` becomes the radial profile at `i*i + j*j` for all i, j in `[-6, 6]` |
| IWave.WaveSim.ClearObstruction | Source/Source.cpp:89-93 | The mask becomes all 1 and the other buffers are unchanged |
| IWave.WaveSim.ClearWaves | Source/Source.cpp:95-103 | Height, previous height and derivative become 0, and the mask and sources are unchanged |
| IWave.WaveSim.ConvertToDisplay | Source/Source.cpp:105-111 | The display buffer becomes the luminance map of the heights, mask and scale |
| IWave.WaveSim.KernelRowSum | Source/Source.cpp:135-139 | The innermost loop accumulates exactly one kernel row's sum for the cell, and changes nothing |
| IWave.WaveSim.NeighbourhoodSum | Source/Source.cpp:132-140 | The two inner loops accumulate exactly the window sum for the cell, and change nothing |
| IWave.WaveSim.ComputeVerticalDerivative | Source/Source.cpp:124-145 | The derivative buffer becomes `VerticalDerivative` of the heights and the old buffer; only the derivative buffer is modified |
| IWave.WaveSim.ApplyObstruction | Source/Source.cpp:150-153 | Each height is multiplied by its mask value |
| IWave.WaveSim.AdvanceSurface | Source/Source.cpp:157-170 | Each height becomes the explicit update of the cell in the code's order; the previous height becomes the pre-update height; every source becomes 0 |
| IWave.WaveSim.Propagate | Source/Source.cpp:147-171 | The five buffers become `Step` of their old values, so every property proved about `Step` holds of `Propagate` |
| IWave.WaveSim.Dab | Source/Source.cpp:185-215 | The painted buffer becomes `Dabbed` of its old contents |
| IWave.WaveSim.DabColumn | Source/Source.cpp:199-203 | The inner loop, given the clamped bounds computed once by the caller, paints exactly the box cells of one column |
| IWave.WaveSim.DabSomePaint | Source/Source.cpp:183-216 | In obstruction mode only the mask changes, multiplicatively; in source mode only the sources change, additively; both follow `Dabbed` |
| IWave.DabPaintStep | Source/Source.cpp:201-213 | Applying the brush weight of one box cell advances the partly painted buffer by exactly that cell |
| IWave.DabProgressStep | Source/Source.cpp:199-203 | Painting box cell (ix, iy) changes that one buffer cell and no other |
| IWave.DerivativeSoFarStep | Source/Source.cpp:129-142 | Writing one interior cell's derivative changes that one buffer cell and no other |

## Left out

- The kernel quadrature (`Source/Source.cpp:41-58`) is left out. It integrates `exp` and the Bessel function `_j0` in floating point. The model takes the kernel from a radial profile `radial: nat -> real` of `i*i + j*j` that the caller supplies. No claim is made about its values or normalisation.
- Floating point is not modelled. All arithmetic is exact `real` arithmetic, with no rounding, NaN, infinity or stability claims. The start-up constants are the decimal values the code writes.
- The GLUT/OpenGL glue is left out: `Display`, `Idle` and the window setup and event loop in `main` (`Source/Source.cpp:219-236`, `:324-338`). It is I/O.
- The input handlers `OnKeyboard`, `OnMouseDown` and `OnMouseMove` (`Source/Source.cpp:238-288`) are left out. They are UI plumbing that calls the modelled operations. In `OnKeyboard`, the `' '` case falls through into `'o'`.
- `ResetScaleFactor` (`Source/Source.cpp:178-181`) is left out. It only rescales the display, and the model keeps `scalingFactor` as a positive field.
- The grid size is a constructor parameter rather than the fixed 400 x 400 of `main`.
- The allocation is the constructor's `new`.
- `IWave.WaveSim.DabSomePaint`: the paint mode is a two-valued datatype, while the source uses an `int` that is either `PAINT_OBSTRUCTION` or `PAINT_SOURCE`. The source's do-nothing path for any other value cannot be reached, because the program only ever stores those two values, so the model does not have it.
- The source routines `DabSomePaint` and `ComputeVerticalDerivative` are split up. Their inner loops are the separate methods `DabColumn`, `NeighbourhoodSum` and `KernelRowSum`. The loops and their order are unchanged.
- The obstruction pre-mask and the surface update of `Propagate` are likewise the methods `ApplyObstruction` and `AdvanceSurface`.
- The previous height after a step is the masked pre-step height. Some descriptions of iWave say it is the raw pre-step height. The model follows the code (`Source/Source.cpp:152`, `:162`, `:167`).
- A unit impulse on still, open water shows up as height 1.0, not `1/(1+alpha*dt)`, because the code adds the source after the damping factor (`Source/Source.cpp:164-165`). The model follows the code.
