# Lattice-Boltzmann thrombolysis: data movement of one time step

This project models the two simulation scripts of a two-dimensional lattice-Boltzmann
thrombolysis code and the monitoring helpers they call:

- `ld_2D_fluid_with_clot.py` runs a D2Q9 BGK fluid in a tube loop. The loop has bounce-back
  walls, a constant accelerating force on one tube section, and a porous clot whose
  resistance `K` enters through `addForces`.
- `lb_2D_thrombolysis.py` runs the same fluid, loaded from a converged state, together with a
  D2Q4 tPA concentration. The tPA is re-injected at the inlet on every iteration. It collides
  only off the remaining clot and bounces back on walls and on clot nodes. It then binds to
  the fibrin and dissolves it. Every 50 iterations the clot front position is recorded.
- `functionsMonitoring.py` supplies `getFrontIndex` and the checkpoint file name that
  `saveVariables` and `getVariables` build.

The model is organised as follows:

- **Arrays.** Population arrays are Dafny `array3<real>` (direction × x × y), changed in place
  by the script's masked slice assignments, `+=` and plane writes (module `InPlace`). Each
  such method is specified by a value-level function of module `Grid` over
  `seq<seq<seq<real>>>`.
- **Scripts.** Each script's time loop is a class with a `Step` method, written statement by
  statement as the script has it. Each `Step` is proved equal to a node-wise
  specification function (`StepSpec`), and `Run` is proved equal to `StepSpec` iterated
  `MaxIter` times.
- **Step specifications.** In these, collision and bounce-back together are a single
  `Collided` field: a wall (or clot) node takes the opposite direction's incoming value, and
  every other node relaxes towards equilibrium. Streaming is a periodic shift of plane `i` by
  the direction table's `v[i]`.
- **Bridges.** Lemmas connect the as-written statements to these specifications. One shows
  that the masked writes cover every node, so no stale `fout` or `tPAout` value survives.
  Another shows that the hard-coded `roll` offsets are the table's.
- **The discrete-velocity tables** (module `Lattice`) carry the opposite-direction rules
  `8-i` and `3-i`, the weight sums and the stability range of `omega`.
- **Routines from `functionsLB`.** Their bodies are not part of this model. The routines are
  `macroscopic`, `equilibrium`, `addForces`, `macroscopicTPA`, `equilibriumTPA`, `bindTPA`,
  `dissolveClot`, `getKMask` and `liberateTPA`. They enter as function-valued fields of
  `Kernels.FluidOps` and `Thrombolysis.TpaOps`. The only assumption made about them is that
  they return arrays of the expected shape.

### Injected tPA density

The tPA density is initialised to `TPA.rho_initial` (1) on the inlet slice
(`lb_2D_thrombolysis.py:125`). Each iteration then re-injects `Fluid.rho_initial` (2.5) on the
same slice (`lb_2D_thrombolysis.py:147`). The model follows both lines as written:
`Thrombolysis.Initial` writes 1, and `Thrombolysis.StepInjects` states the value 2.5.

### The two scripts' checkpoint names

The thrombolysis script loads the converged fluid state for iteration 100000
(`lb_2D_thrombolysis.py:121`). The fluid-only script, as configured with `maxIter = 1000`,
saves its state under iteration 1000 (`ld_2D_fluid_with_clot.py:18`, `ld_2D_fluid_with_clot.py:152`).
`Thrombolysis.LoadedCheckpointDiffers` proves that the two file names differ.

## Model

| member | source | states |
|---|---|---|
| Lattice.OppositeInvolution | lb_2D_thrombolysis.py:161-166 | pairing direction i with Q-1-i is an involution, and a direction is paired with itself exactly when it is the middle one of an odd-sized table |
| Lattice.D2Q9Reflective | lb_2D_thrombolysis.py:47-48 | the D2Q9 table has nine directions and v[8-i] = -v[i] for each, so `fout[i] = fin[8-i]` reverses every direction |
| Lattice.D2Q9RestAndWeights | ld_2D_fluid_with_clot.py:41-44 | direction 4 is the rest vector and the only D2Q9 direction paired with itself; paired directions have equal weights |
| Lattice.D2Q4Reflective | lb_2D_thrombolysis.py:56 | the D2Q4 table has four directions, v[3-i] = -v[i], and none is at rest or paired with itself |
| Lattice.D2Q9Normalised | lb_2D_thrombolysis.py:50 | the nine D2Q9 weights are positive and sum exactly to 1 |
| Lattice.D2Q4Normalised | lb_2D_thrombolysis.py:58 | the four D2Q4 weights are positive and sum exactly to 1 |
| Lattice.OmegaStable | ld_2D_fluid_with_clot.py:27 | omega = 1/(3 viscosity + 1/2) lies strictly between 0 and 2 if and only if the viscosity is positive |
| Grid.RotRot | lb_2D_thrombolysis.py:172 | rolling a sequence by a and then by b is rolling it by a + b |
| Grid.RotFullTurns | lb_2D_thrombolysis.py:172-186 | rolling by a whole number of lengths returns the sequence unchanged |
| Grid.RotSplit | lb_2D_thrombolysis.py:172-186 | a roll is the concatenation of two slices of the sequence, so every element appears once |
| Grid.SumRot | lb_2D_thrombolysis.py:172-186 | a roll keeps the sum of a sequence |
| Grid.ShiftAt | lb_2D_thrombolysis.py:172-186 | entry [x][y] of the translated plane is entry [(x-dx) mod nx][(y-dy) mod ny] of the original |
| Grid.ShiftShift | lb_2D_thrombolysis.py:172-186 | two periodic translations compose into the translation by the summed offsets |
| Grid.ShiftInverse | lb_2D_thrombolysis.py:172-186 | translating back by (-dx, -dy) restores the plane, so each streaming line is a bijection of the grid |
| Grid.ShiftSum | lb_2D_thrombolysis.py:172-186 | a periodic translation keeps the sum of the plane |
| Grid.ShiftNIsShift | ld_2D_fluid_with_clot.py:127-135 | k translations by (dx, dy) are one translation by (k dx, k dy) |
| Grid.ShiftPeriodX | ld_2D_fluid_with_clot.py:128 | a translation along x only, applied nx times, restores the plane |
| Grid.ShiftPeriodY | ld_2D_fluid_with_clot.py:130 | a translation along y only, applied ny times, restores an nx x ny plane |
| Grid.ShiftFullTurns | ld_2D_fluid_with_clot.py:127-135 | a translation by whole multiples of (nx, ny) is the identity |
| Grid.RollsAreShift | ld_2D_fluid_with_clot.py:127 | `roll(roll(p, sx, axis=0), sy, axis=1)` is the periodic translation by (sx, sy); a single roll on axis 0 (axis 1) is the translation by (sx, 0) ((0, sy)) |
| Grid.ReflectedIsMaskedReverse | lb_2D_thrombolysis.py:161-166 | the bounce-back loop `out[i, mask] = src[Q-1-i, mask]` is the masked store of the source with its directions read back to front |
| Grid.CollidedAt | ld_2D_fluid_with_clot.py:117-121 | after collision and bounce-back, a reflecting node of direction i holds `in[Q-1-i]` and any other node holds `in - omega (in - eq)` |
| Grid.CollidedKeepsNodeMass | lb_2D_thrombolysis.py:161-166 | at a reflecting node the collided column is the incoming column reversed, so the node keeps its total over directions |
| Grid.FluidCoverage | ld_2D_fluid_with_clot.py:117-121 | collision on `invert(bounceback)` followed by bounce-back on `bounceback` yields the node-wise collision whatever `fout` held before: every node is rewritten |
| Grid.TpaCoverage | lb_2D_thrombolysis.py:157-166 | collision on `openPath and not KMask`, then bounce-back on `bounceback`, then on `KMask`, yields the collision reflecting on `bounceback or KMask` whatever `tPAout` held before |
| InPlace.NewField | lb_2D_thrombolysis.py:117-118 | a new array holds exactly the given populations |
| InPlace.NewPlane | lb_2D_thrombolysis.py:124 | a new two-dimensional array holds exactly the given plane |
| InPlace.StorePlaneMasked | lb_2D_thrombolysis.py:162 | `a[i, mask] = p[mask]` changes plane i on the masked nodes only, and no other plane |
| InPlace.StorePlane | lb_2D_thrombolysis.py:172 | `a[i, :, :] = p` replaces plane i and leaves the others unchanged |
| InPlace.StoreMasked | ld_2D_fluid_with_clot.py:117 | `a[:, mask] = v[:, mask]` gives every plane v's values on the mask and the old values elsewhere |
| InPlace.BounceBack | ld_2D_fluid_with_clot.py:120-121 | the bounce-back loop leaves plane i equal to the source's plane Q-1-i on the mask and unchanged elsewhere |
| InPlace.AddAssign | lb_2D_thrombolysis.py:169 | `fout += forces` adds the force term elementwise |
| InPlace.CopyInto | lb_2D_thrombolysis.py:189 | the array afterwards holds exactly the given populations (the rebinding of `tPAin` to `bindTPA`'s result) |
| InPlace.CopyPlaneInto | lb_2D_thrombolysis.py:144 | the plane array afterwards holds exactly the given plane (the rebinding of `rhoTPA`) |
| InPlace.InjectColumn | lb_2D_thrombolysis.py:147 | on an array with at least one column and for a non-negative tubeSize, `p[1:tubeSize+1, ny//2] = value` writes value on column ny//2, rows 1 to tubeSize as far as the array has rows, and nothing else |
| Kernels.StreamByTable | lb_2D_thrombolysis.py:172-186 | after streaming, direction i at (x, y) holds what was at ((x - v_i.x) mod nx, (y - v_i.y) mod ny) |
| Kernels.StreamConserves | lb_2D_thrombolysis.py:172-186 | streaming keeps the sum of every direction plane, and hence the total population |
| Kernels.StreamKeepsRest | lb_2D_thrombolysis.py:176 | the D2Q9 rest plane (direction 4) is copied unchanged |
| Kernels.StreamNIsShift | ld_2D_fluid_with_clot.py:127-135 | k streaming steps move direction i by k v_i |
| Kernels.StreamPeriodAxial | ld_2D_fluid_with_clot.py:128-134 | nx streaming steps restore the axial D2Q9 directions 1 and 7 |
| Kernels.StreamPeriod | ld_2D_fluid_with_clot.py:127-135 | nx ny streaming steps restore every direction of any scheme |
| Kernels.D2Q9Rolls | ld_2D_fluid_with_clot.py:127-135 | each of the nine hard-coded roll lines equals streaming by the D2Q9 table in that direction |
| Kernels.StreamD2Q9 | lb_2D_thrombolysis.py:172-180 | the nine roll assignments leave `fin` equal to `fout` streamed by the D2Q9 table |
| Kernels.StreamD2Q4 | lb_2D_thrombolysis.py:183-186 | the four roll assignments leave `tPAin` equal to `tPAout` streamed by the D2Q4 table |
| Kernels.ForcingValues | ld_2D_fluid_with_clot.py:69-71 | the force field is 2 x nx x ny and equals F_initial componentwise on `accField` and zero elsewhere |
| Kernels.ForceField | lb_2D_thrombolysis.py:83-85 | the array built by `zeros` and the two masked stores holds F_initial[c] on `accField` in component c and zero elsewhere |
| FluidWithClot.PostCollisionAt | ld_2D_fluid_with_clot.py:114-124 | before streaming, an open node of direction i holds `fin - omega (fin - feq)` plus the force term, and a wall node holds `fin[8-i]` plus the force term |
| FluidWithClot.StepStreams | ld_2D_fluid_with_clot.py:127-135 | the new `fin` at (x, y) in direction i is the post-collision `fout` at ((x - v_i.x) mod nx, (y - v_i.y) mod ny) |
| FluidWithClot.StepStreamConserves | ld_2D_fluid_with_clot.py:127-135 | the new `fin` has the same per-direction sums and total as the post-collision `fout` |
| FluidWithClot.Simulation.constructor | ld_2D_fluid_with_clot.py:51-97 | set-up: omega from the viscosity, `openPath = invert(bounceback)`, the force field, and `fin` and `fout` both at equilibrium with density 2.5 and zero velocity |
| FluidWithClot.Simulation.Step | ld_2D_fluid_with_clot.py:111-135 | the as-written loop body leaves (`fin`, `fout`) equal to one step of the node-wise specification applied to the old `fin` |
| FluidWithClot.Simulation.Run | ld_2D_fluid_with_clot.py:108-135 | the time loop leaves (`fin`, `fout`) equal to maxIter = 1000 specification steps |
| Monitoring.FirstTrue | functionsMonitoring.py:200 | the position of the first true entry, with every earlier entry false, or the length when there is none |
| Monitoring.LastTrue | functionsMonitoring.py:190-191 | the position of the last true entry, with every later entry false |
| Monitoring.ArgMax | functionsMonitoring.py:200 | numpy argmax of a boolean array: the first true position, or 0 when all entries are false |
| Monitoring.BoundingBox | functionsMonitoring.py:189-191 | for a non-empty mask, row_start < row_end <= nx and col_start < col_end <= ny |
| Monitoring.BoundingBoxTight | functionsMonitoring.py:189-191 | every true cell lies inside the box, and the box's first and last rows and columns each hold a true cell |
| Monitoring.RowMeansAt | functionsMonitoring.py:194 | entry k of the averaged profile is the mean of K[0] over row row_start + k between col_start and col_end |
| Monitoring.FrontIndexSpec | functionsMonitoring.py:187-202 | the front index exists exactly when the clot mask is non-empty; it is less than row_end - row_start; it is the first row whose mean exceeds 0.1 K_initial[0], all earlier rows staying at or below that, or 0 when no row exceeds it |
| Monitoring.FrontIndexReadsK0 | functionsMonitoring.py:194 | only component 0 of K influences the front index |
| Monitoring.NatString | functionsMonitoring.py:152 | str() of a non-negative int is a non-empty string of decimal digits, one character long exactly below 10 |
| Monitoring.NatStringInjective | functionsMonitoring.py:155 | two non-negative ints print alike if and only if they are equal |
| Monitoring.IntStringInjective | functionsMonitoring.py:173 | two ints print alike if and only if they are equal |
| Monitoring.GeometryTypeInjective | lb_2D_thrombolysis.py:96-99 | two geometry tags are equal if and only if both are loops, or both are branches of the same width |
| Monitoring.SaveVariablesKey | functionsMonitoring.py:152-155 | the file name saveVariables accumulates is the checkpoint key for the lattice's maxIter |
| Monitoring.GetVariablesKey | functionsMonitoring.py:170-173 | the file name getVariables accumulates is the checkpoint key for iteration count `it` |
| Monitoring.KeysAgree | functionsMonitoring.py:152-173 | with the same geometry and parameters, the key looked up equals the key saved if and only if `it` equals the saving run's maxIter |
| Thrombolysis.Front | lb_2D_thrombolysis.py:202 | the recorded front index lies inside the clot's bounding box: below its number of rows |
| Thrombolysis.StepInjects | lb_2D_thrombolysis.py:144-147 | the step's tPA density is 2.5 on x in 1..21 at y = 100, and macroscopicTPA's value at every other node |
| Thrombolysis.StepTpaCollision | lb_2D_thrombolysis.py:151-166 | before streaming, a wall or clot node of tPA direction i holds `tPAin[3-i]`, and every other node holds `tPAin - omega (tPAin - tPAeq)` |
| Thrombolysis.StepTpaKeepsNodeMass | lb_2D_thrombolysis.py:163-166 | at a wall or clot node the tPA collision keeps the node's total over the four directions |
| Thrombolysis.StepForgetsOut | lb_2D_thrombolysis.py:154-166 | the step's result does not depend on the previous `fout` or `tPAout` |
| Thrombolysis.RunSamples | lb_2D_thrombolysis.py:201-204 | after n iterations the loop has appended the iterations 0, 50, 100, ... below n, and as many front values |
| Thrombolysis.LoadedCheckpointDiffers | lb_2D_thrombolysis.py:121 | the key of the loaded checkpoint (iteration 100000) differs from the key the fluid-only script saves with maxIter = 1000 |
| Thrombolysis.Simulation.constructor | lb_2D_thrombolysis.py:65-132 | set-up: the masks and force field, the loaded fluid populations, the tPA density zero except 1 on the inlet slice, tPA populations at equilibrium with it, nothing bound, and empty records |
| Thrombolysis.Simulation.Collide | lb_2D_thrombolysis.py:143-169 | after the macroscopic, injection, equilibrium, collision, three bounce-back loops and forcing, `rhoTPA`, `fout` and `tPAout` hold the specification's injected density and post-collision fields |
| Thrombolysis.Simulation.UpdateClot | lb_2D_thrombolysis.py:189-204 | `tPAin`, K, KMask and `tPABind` are the results of bindTPA, dissolveClot, getKMask and liberateTPA in that order, and the front and the iteration are appended exactly when t is a multiple of 50 |
| Thrombolysis.Simulation.Step | lb_2D_thrombolysis.py:143-204 | the as-written loop body leaves the whole loop state equal to one step of the specification applied to the old state |
| Thrombolysis.Simulation.Run | lb_2D_thrombolysis.py:140-204 | the time loop leaves the whole loop state equal to maxIter = 100000 specification steps |

## Left out

- The bodies of the functionsLB routines are not part of this model. These are `macroscopic`, `equilibrium`, `addForces`, `macroscopicTPA`, `equilibriumTPA`, `bindTPA`, `dissolveClot`, `getKMask` and `liberateTPA`. They are parameters, assumed only to return arrays of the expected shape. Properties that depend on their bodies are not modelled: that KMask is a subset of clotMask and only shrinks, that the front moves monotonically, and that the forcing acts as a brake.
- The mask generators `generateBouncebackMask`, `generateClotMask`, `generateK` and `generateAccFieldMask` are not part of this model. Their results are constructor inputs.
- Floating point is not modelled. Populations are exact reals, so rounding, NaN and long-run stability are out of scope.
- Plotting and live preview (`plotSystem`, `visualiseFluidVelocity`, `visualiseTPADensity` every 10 iterations) are left out because they are display side effects.
- Directory creation, pickle save and load, CSV writing (`saveValues`), timing and progress printing are file-system and console I/O. Only the checkpoint file name is modelled.
- The loaded checkpoint (`getVariables(..., 100000)`, `loadData` set) is a constructor input: `fin`, `fout` and the velocity `u`. The equilibrium populations computed just before the load, which it overwrites, are not modelled.
- Thrombolysis.Simulation.constructor requires a non-empty clot mask. The script's getFrontIndex raises on an empty mask at iteration 0. Monitoring.GetFrontIndex models that error as a result, but the modelled loop does not run into it.
- The script rebinds `rhoTPA` and `tPAin` to the arrays that `macroscopicTPA` and `bindTPA` return. The model copies those results into the existing arrays, which gives the same contents because nothing else refers to the old arrays. `K`, `KMask` and `tPABind` are value fields that are reassigned.
- Monitoring.SaveVariablesKey takes the float and list fields of the key as their printed text (`str(fluid.viscosity)`, `str(fluid.F_initial)`, ...). Python's float and list printing is not modelled; only int printing is.
- Thrombolysis.Front states only the bound on the recorded index. The full behaviour of the search is in Monitoring.FrontIndexSpec, which Front applies to K[0] and the clot mask.
- No lemma states the front bound over a whole run. The bound holds for each recorded value by the contract of Thrombolysis.Front, but it is not restated for the run's list.
- InPlace.InjectColumn and Grid.Injected take a non-negative tubeSize, and InjectColumn requires an array with at least one column. Both scripts pass tubeSize 21 and ny 200. numpy would count a negative slice stop from the end of the array, and it would raise IndexError on an array without columns. Neither case is modelled.
