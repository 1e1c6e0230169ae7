# Sandpile and FPU chain: a Dafny model

This project models two small simulation cores of the Simulations repository.

**The Bak–Tang–Wiesenfeld sandpile** (`btw.BTWModel`). The state is an `nx × ny` integer matrix on a torus: indices wrap around periodically. `Update()` drops one grain on a fixed "centre" cell. The private recursive `update(x, y, recursionOrder)` then topples every cell holding more than `THRESHOLD = 4` grains. A toppling sends one grain to each of the four wrapped neighbours, and the recursion stops at depth 600. In the model the matrix is an immutable `seq<seq<int>>` value (module `Grid`). The recursion is the recursive function `Sandpile.Relax` together with its helpers `Scatter` and `Feed`, and it terminates by `decreases 600 - order`. Java's truncating `/` and `%` are spelled out in module `JavaInt`. The `System.err` diagnostic becomes a `capHit` flag. Java's exceptions become `Result` failures: a negative array size in the constructor, and an out-of-bounds centre in `Update`.

**The Fermi–Pasta–Ulam chain** (`FPUModel`). This part models the discrete bookkeeping with `double` read as `real`:
- the constructor's single-mode initial profile, which starts at rest with clamped ends (`Chain.Initial`);
- the two-pass leapfrog update `CalculateNewPositions` (`Chain.Step` and a loop-based method);
- the sine projection `GetA`;
- the single-slot `(a, aOld)` coefficient cache driven by `iflag`, and the mode queries built on it (module `Modes`);
- `TotalEnergy`;
- the sampling loop of `Run` (module `Recorder`). Its output streams are replaced by the list of `Sample` rows they would receive.

`sin` and `sqrt` are left uninterpreted: they are the fields of a `Libm` value passed in. `PI` is the literal from `fpu.h`. Only the structure is verified, not the numerics.

The `(a, aOld)` cache is modelled as it is written. While the energy and position rows are filled, each pass of the mode loop recomputes the cached pair for its own mode. The phase-portrait queries `ModePosition(1, 0)`, `ModeVelocity(1, 0)` and `ModeCross(3, 0)` then all read the pair left by the last mode, `nModes`, not modes 1 and 3. The force row uses the particle index `nModes + 1`, or 1 when no mode is tracked, which is the loop counter's exit value. Reads of memory the program never wrote return `None` ("indeterminate"). There are two such reads: the cache before any refreshing query, and chain entries past `N + 1`.

Two details of the code are worth stating on their own:
- The force decomposition is evaluated at particle `nModes + 1`, one past the last mode index, or at particle 1 when no mode is tracked.
- The mode energy is `0.5 * (T*T + V*V)` with `T = (a - aOld) * sqd2n / dt` and `V = (a + aOld) * sqd2n * sin(PI*k / (2(N+1)))`.

## Model

| member | source | states |
|---|---|---|
| JavaInt.Half | src/btw/BTWModel.java:28-29 | Java's `a / 2` truncates toward zero: `2q <= a <= 2q + 1` for `a >= 0` and `2q - 1 <= a <= 2q` for `a < 0` |
| JavaInt.Rem | src/btw/BTWModel.java:42-45 | Java's `a % b` for `b > 0` differs from `a` by a whole multiple of `b` and lies in `[0, b)` for `a >= 0` and in `(-b, 0]` for `a < 0`, which pins the truncated remainder |
| JavaInt.Next | src/btw/BTWModel.java:42-44 | `(c + 1 + n) % n` lies in `[0, n)` for `0 <= c < n` and is the next cell on the ring, wrapping `n - 1` to 0 |
| JavaInt.Prev | src/btw/BTWModel.java:43-45 | `(c - 1 + n) % n` lies in `[0, n)` and is the previous cell on the ring, wrapping 0 to `n - 1` |
| Grid.Zeros | src/btw/BTWModel.java:27 | a new `int[nx][ny]` has shape `nx × ny`, every cell 0, and no grains in total |
| Grid.AddAt | src/btw/BTWModel.java:46-53 | `matrix[x][y] += d` changes only that cell and changes the grain total by exactly `d` |
| Sandpile.New | src/btw/BTWModel.java:24-30 | construction fails (NegativeArraySizeException) exactly when a dimension is negative; otherwise the matrix is `nx × ny` and all zeros, and the centre is `(nx-1)/2+1, (ny-1)/2+1` with Java division |
| Sandpile.CentreInBounds | src/btw/BTWModel.java:28-29 | the centre coordinate lies inside a dimension of size `n` exactly when `n >= 2` |
| Sandpile.Relax | src/btw/BTWModel.java:39-59 | the recursive relaxation conserves grains, keeps cells non-negative, changes nothing but reports the cap when depth ≥ 600, leaves a cell with at most 4 grains untouched, and yields a stable grid from a nearly stable one when the cap is not hit |
| Sandpile.Scatter | src/btw/BTWModel.java:42-54 | handing one grain to each of the four wrapped neighbours with relaxation adds exactly 4 grains, keeps cells non-negative, and keeps a stable grid stable unless the cap is hit |
| Sandpile.Feed | src/btw/BTWModel.java:47-54 | `matrix[x][y]++` followed by `update` adds exactly one grain and keeps non-negativity and, without the cap, stability; at depth ≥ 600 it reports the cap, and a cell below 4 grains just gains the grain without toppling or reaching the cap |
| Sandpile.Update | src/btw/BTWModel.java:63-66 | dropping a grain fails exactly when the centre is out of bounds; otherwise only the matrix changes, the total rises by exactly 1 whether or not the cap is hit, non-negativity is kept, and a stable grid stays stable when the cap is not hit; a centre below 4 grains just gains the grain, with no toppling and no cap |
| Sandpile.Topple | src/btw/BTWModel.java:41-54 | one toppling takes 4 grains from the cell and adds to each cell the number of times it is a wrapped neighbour, conserving the total even when neighbours coincide |
| Sandpile.NeighboursDistinct | src/btw/BTWModel.java:42-45 | on a grid at least 3 × 3 the four wrapped neighbours are distinct cells other than the toppled cell |
| Sandpile.TwoWideDoubleFeed | src/btw/BTWModel.java:42-53 | on a torus two cells wide both x-neighbours are the same other cell, so a toppling hands it 2 grains while the toppled cell loses 4 |
| Sandpile.SingleTopple | src/btw/BTWModel.java:41-54 | when no neighbour overflows, the recursive relaxation is exactly one toppling and does not hit the cap |
| Sandpile.Simulate | src/Sandpile/run/BTWRecursiveSimulation.java:57-59 | after `iterations` drops on a fresh model the grid holds exactly `iterations` grains, no cell is negative, and without a cap hit every cell holds at most 4 grains; after at most 4 drops the cap is never hit and all grains sit on the centre |
| Chain.Step | src/fpu/fpumodel.cpp:126-137 | a step sets each interior `x[i]` to the stencil of the pre-step `x[i-1]`, `x[i]`, `x[i+1]`, `xOld[i]`, sets `xOld[i]` to the pre-step `x[i]`, and leaves both ends unwritten |
| Chain.CalculateNewPositions | src/fpu/fpumodel.cpp:126-139 | the two-pass loop (fill `xNew`, then shift the buffers) computes exactly the simultaneous step |
| Chain.StepsKeepClamped | src/fpu/fpumodel.cpp:126-137 | the clamped ends stay zero in both buffers over any number of steps |
| Chain.StepIsReversible | src/fpu/fpumodel.cpp:128-136 | over the reals the leapfrog step is time-reversible: stepping the swapped result of a step gives back the swapped start |
| Chain.Initial | src/fpu/fpumodel.cpp:35-42 | the initial profile has both ends zero, equal current and previous buffers (start from rest), and the shape of normal mode `modeInit` scaled by `amplitude * sqrt(d2n)` |
| Chain.InitialArgument | src/fpu/fpumodel.cpp:36-39 | the constructor's sine argument `PI*i*d2n/lambda` is `i` times mode `modeInit`'s argument step `modeInit*PI/(N+1)` |
| Modes.Construct | src/fpu/fpumodel.cpp:21-56 | the constructed object holds the given parameters, a clamped chain at rest, and an empty coefficient slot |
| Modes.GetA | src/fpu/fpumodel.cpp:152-160 | the accumulation loop computes the projections of `x` and `xOld` onto the sine pattern of mode `k` |
| Modes.ProjectInterior | src/fpu/fpumodel.cpp:156-159 | a projection reads only the interior entries `1..N` |
| Modes.Refresh | src/fpu/fpumodel.cpp:162-189 | a query with `iflag == 1` fills the slot with mode `k`'s pair; any other `iflag` leaves the slot as it was; the chain is never changed |
| Modes.ModeEnergy | src/fpu/fpumodel.cpp:162-170 | the mode energy is non-negative and computed from the pair in the slot after the refresh; it is indeterminate exactly when an empty slot is not refreshed |
| Modes.ModePosition | src/fpu/fpumodel.cpp:172-177 | the mode position is computed from the slot after the refresh; indeterminate exactly when an empty slot is not refreshed |
| Modes.ModeVelocity | src/fpu/fpumodel.cpp:179-184 | the mode velocity is computed from the slot after the refresh; indeterminate exactly when an empty slot is not refreshed |
| Modes.ModeCross | src/fpu/fpumodel.cpp:186-195 | the crossing test is true iff `a * aOld <= 0` for the pair in the slot |
| Modes.Energy | src/fpu/fpumodel.cpp:167-169 | the energy `0.5 * (T*T + V*V)` of a mode computed from a coefficient pair is never negative |
| Modes.Crossed | src/fpu/fpumodel.cpp:190-194 | `!(a * aOld > 0)` holds exactly when one of `a`, `aOld` is `<= 0` and the other `>= 0` |
| Modes.HalfSumOfSquares | src/fpu/fpumodel.cpp:167-169 | `0.5 * (T*T + V*V)` is never negative |
| Modes.EnergyFromPhase | src/fpu/fpumodel.cpp:167-183 | a mode's energy is `0.5 * (v² + 4 p² sin²(PI k / (2(N+1))))` for its velocity `v` and position `p`, all read from the same cached pair |
| Modes.StaleQueryReadsLastMode | src/fpu/fpumodel.cpp:162-195 | after a refreshing query on mode `k`, non-refreshing position, velocity and crossing queries about any mode `j` answer for mode `k` |
| Modes.StartsAtRest | src/fpu/fpumodel.cpp:38-40 | at construction every mode's current and previous projections agree, so every mode velocity is zero |
| Modes.EnergyTerm | src/fpu/fpumodel.cpp:144-148 | each particle's kinetic-plus-stretching term is non-negative |
| Modes.EnergySum | src/fpu/fpumodel.cpp:143-148 | a partial energy sum is non-negative |
| Modes.TotalEnergy | src/fpu/fpumodel.cpp:141-150 | the total energy over particles `1..N+1` is non-negative |
| Modes.EnergyTermPositive | src/fpu/fpumodel.cpp:145-147 | a particle's term is positive exactly when the particle moved or its left spring's mean stretch is non-zero |
| Modes.EnergySumPositive | src/fpu/fpumodel.cpp:144-148 | with the left end at rest at zero, the first `n` terms sum to a positive value exactly when one of particles `1..n` is away from zero |
| Modes.TotalEnergyPositive | src/fpu/fpumodel.cpp:141-150 | on a clamped chain the total energy is positive exactly when some particle is away from zero, and zero otherwise |
| Recorder.ScanModes | src/fpu/fpumodel.cpp:223-227 | the mode loop's energy and position rows hold mode `i`'s values at position `i`, and it leaves mode `nModes`'s pair in the slot |
| Recorder.ModeLoop | src/fpu/fpumodel.cpp:223-234 | the counted loop `for (i = 1; i <= nModes; i++)` fills the same rows and leaves the same slot as `ScanModes`, and its counter exits at `ForceIndex(nModes)` (`nModes + 1`, or 1), the particle the force row reads |
| Recorder.ForceIsStencilForce | src/fpu/fpumodel.cpp:233-238 | `dt²` times the sum of the force row's linear, quadratic and cubic parts is the integrator's spring term for the same particle (lines 129-132) |
| Recorder.Phase | src/fpu/fpumodel.cpp:242-247 | the phase point's position, velocity and crossing flag all come from the one pair in the slot |
| Recorder.TakeSample | src/fpu/fpumodel.cpp:210-247 | a sample holds the time, the total energy, `x[N/3]`, the per-mode rows for modes `1..nModes`, the force row on particle `ForceIndex(nModes)`, and a phase point read from mode `nModes`'s pair (from the old slot when no mode is tracked); the slot is left holding mode `nModes`'s pair |
| Recorder.MultipleIsProduct | src/fpu/fpumodel.cpp:199-207 | the clocks `t` and `tTest` are built by repeated `+= dt` and `-= dt` from `0` and `tRecord`; adding `dt` `k` times gives exactly `k * dt`, so `Time(c, steps)` is `steps * dt` |
| Recorder.ClockAsReals | src/fpu/fpumodel.cpp:199-209 | with `tTest = k*dt`, `tTest - dt <= 0` exactly when `k == 1`, and `t += dt` moves to the next multiple of `dt` |
| Recorder.Tick | src/fpu/fpumodel.cpp:202-209 | one pass steps the chain and advances `t` by `dt`; when `tTest - dt <= 0` it resets `tTest` to `tRecord` and appends the sample taken from the stepped chain, leaving mode `nModes`'s pair in the slot; otherwise it only counts `tTest` down and leaves the slot as it was |
| Recorder.TickStep | src/fpu/fpumodel.cpp:202-248 | one pass keeps the loop's state description: chain age, clock, countdown, the slot, and one sample per finished 20-step period whose every field is pinned by `SampleAt` |
| Recorder.Run | src/fpu/fpumodel.cpp:197-250 | the loop stops at the first multiple of `dt` that reaches `tMax`, the chain has taken that many steps, and sample `n` holds, for the chain after step `20(n+1)`, the time `20(n+1)dt`, total energy, `x[N/3]`, modes `1..nModes`'s energies and positions, the force row, and a phase point that is mode `nModes`'s whatever mode the queries name; the slot ends holding mode `nModes`'s pair from the last recording |

## Left out

- Output: the files, `ErrorOpenFile`, the `status` flag, `SaveProfile`, the destructor, the console lines and the `main.cpp` plumbing are I/O. The emitted rows appear only as `Sample` values.
- Rendering in `BTWAvalanche` and `BTWRecursiveSimulation`: PNG output and file naming are I/O. `btw.BTWRecursiveModel` is not part of this model; `Sandpile.Simulate` drives `BTWModel` instead.
- The `System.err` diagnostic of `update` is the `capHit` flag. It is set whenever a call reaches depth 600, whatever the cell holds.
- Java `int` overflow of the cells and of `x + 1 + nx` is not modelled. The grain total after `k` drops is `k`, far below `2^31` for any run of the source.
- Floating-point behaviour is not modelled: rounding, NaN or overflow from an unstable `dt`, energy conservation within a tolerance, and mode-energy sharing. `sin` and `sqrt` are uninterpreted.
- Recorder.Run: the clock `t` and the countdown `tTest` are exact reals. Samples therefore fall exactly every 20 steps. Accumulated rounding of `tTest -= dt` in doubles, which can move a sample by a step, is not modelled.
- Every FPU member requires `0 <= N`, `N + 1 < MAX = 100` and `dt > 0`. With `dt == 0` the source divides by zero. With `dt < 0` and `tMax > 0`, `Run` never ends.
- `omega1`, computed in the constructor and never used, is left out.
