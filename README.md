# learnmolsim kernel in Dafny

This project models the periodic molecular-dynamics kernel of `learnmolsim`, a small
teaching package for molecular simulation, and proves what its docstrings and tests
promise about it. It covers four parts:

- **`Box` and `State`** (`state.dfy`, with the periodic arithmetic in `periodic.dfy`). An
  orthorhombic box has validated edges and provides `volume`, `wrap` and `minimum_image`.
  `wrap` uses floor and tracks integer image counters. `minimum_image` uses round. The
  state is a structure of arrays: N particles share one mass and a counter, positions
  and images always exist, and velocities, energies and forces are optional. Every
  setter checks the shape of what it is given.
- **Lennard-Jones pair potential** (`potential.dfy`). `energy_force` is a rational
  function of r² with a cutoff, an optional shift and an explicit infinity at r² = 0.
  `compute` is the O(N²) loop over the unordered pairs i < j at minimum-image
  separation. It gives half of each pair energy to each particle, the force F to j and
  -F to i.
- **Velocity Verlet integrator** (`dynamics.dfy`). `dt` must be non-negative. `advance`
  materialises absent velocities as zero and computes absent forces once. It then
  applies a half kick, a drift, a wrap, a force evaluation and a second half kick, and
  finally increments the counter.
- **Thermodynamics** (`analyze.dfy`). Kinetic energy, potential energy, kT from
  equipartition, and the virial pressure of a state.

All arithmetic is over exact `real`s. `base.dfy` holds the `Option`/`Result` wrappers and
the error kinds. `arith.dfy` and `vectors.dfy` hold the scalar and 3-vector algebra.

Objects that the source updates in place are classes: `Box` (the `L` setter), `State`
(its setters) and `VelocityVerlet` (the `dt` setter and `advance`). Their methods are
specified against pure functions of the state. `State.Snap()` is the value of a state
apart from its box. `Dynamics.Step` is one velocity Verlet step on such a value, and
`VelocityVerlet.Advance` is proved to produce exactly `Step` of the state it was given.
The pair loop of `compute` runs in place over two arrays. It is proved equal to the
recursive accumulation `Potential.PairSumsOf`, and the totals of that accumulation are
proved separately.

The force provider of `advance` is the datatype `Dynamics.ForceField`. It has two cases:
the Lennard-Jones potential, and the constant-force potential that the integrator's
tests plug in (`tests/test_velocity_verlet.py:5-21`).

## Model

| member | source | states |
|---|---|---|
| MolState.CheckEdges | learnmolsim/state.py:62-74 | Edge validation succeeds exactly when 1 or 3 lengths are given and all are positive. One length becomes the cube (l, l, l) and three are kept in order. Any other count is TypeError "Box size must be a 3-element array"; a non-positive edge is ValueError "Box size must be positive". |
| MolState.Box.SetL | learnmolsim/state.py:62-74 | Assigning the edges stores the checked value and reports no error, or reports the TypeError/ValueError and leaves the old edges in place. A valid box stays valid. |
| MolState.Box.Create | learnmolsim/state.py:54-74 | Constructing a box validates its edges as the setter does; on success the new box is valid and holds them. |
| MolState.Box.Volume | learnmolsim/state.py:76-85 | Defined as the product Lx·Ly·Lz; the contract states only that the volume of a valid box is positive. |
| MolState.Box.Wrap | learnmolsim/state.py:87-135 | Wrapping fails with a TypeError exactly when the positions are not an (N, 3) array or the images do not have the same shape. On success row i is the wrapped position r_i - L·floor(r_i/L) of particle i (`Periodic.WrapVec`), so every particle lies in [0, L) and a particle already inside is unchanged; images are returned exactly when given, and the unwrapped position r + L·image of every particle is unchanged. |
| MolState.Box.WrapOne | learnmolsim/state.py:110-125 | A single 3-element position (with an optional 3-element image) is wrapped as a one-row array; any other length is a TypeError. On success the row is the wrapped position r - L·floor(r/L) and lies in [0, L), an image is returned exactly when one is given, and the unwrapped position r + L·image is unchanged. |
| MolState.Box.WrapInPlace | learnmolsim/state.py:110-115 | In-place wrap of a position array and its image array: a length mismatch is a TypeError that changes nothing; otherwise every position becomes its wrapped value and every image gains the periods crossed. |
| MolState.WrapRows | learnmolsim/state.py:97-98 | Row i of the result is the wrapped position r_i - L·floor(r_i/L) of row i (`Periodic.WrapVec`); the wrapped rows lie in [0, L), and rows already in the box are unchanged. |
| MolState.WrapImageRows | learnmolsim/state.py:100-108 | The updated images keep every particle's unwrapped position. |
| MolState.Box.MinimumImage | learnmolsim/state.py:137-160 | Element i is the minimum image v_i - L·round(v_i/L) of vector i (`Periodic.MinImage`): adding back round(v_i/L) box lengths per axis gives v_i, and each component is in [-L/2, L/2). |
| MolState.Box.Init | learnmolsim/state.py:54-55 | A box built from positive edges is valid and holds them. |
| MolState.State.Init | learnmolsim/state.py:201-214 | A new state has N particles at the origin with zero images and no velocities, energies or forces. |
| MolState.State.Create | learnmolsim/state.py:201-214 | A negative N is ValueError "Number of particles must be nonnegative integer"; then a non-positive mass is ValueError "Mass must be positive"; otherwise the state holds N, the box, the mass and the counter, zero positions and images, and nothing else. |
| MolState.State.SetBox | learnmolsim/state.py:226-230 | Assigning a box replaces the box and changes nothing else. A valid state stays valid. |
| MolState.State.SetMass | learnmolsim/state.py:237-241 | A non-positive mass is a ValueError that changes nothing; a positive one replaces the mass only. A valid state stays valid. |
| MolState.State.SetCounter | learnmolsim/state.py:248-252 | Assigning the counter replaces it and nothing else. A valid state stays valid. |
| MolState.State.SetPositions | learnmolsim/state.py:259-264 | Anything but an (N, 3) array is TypeError "Positions must be an Nx3 array" and changes nothing; otherwise only the positions are replaced. A valid state stays valid. |
| MolState.State.SetImages | learnmolsim/state.py:271-276 | Anything but an (N, 3) array is TypeError "Images must be an Nx3 array" and changes nothing; otherwise only the images are replaced. A valid state stays valid. |
| MolState.State.SetVelocities | learnmolsim/state.py:283-291 | None clears the velocities; an (N, 3) array replaces them; any other shape is a TypeError that changes nothing. A valid state stays valid. |
| MolState.State.SetEnergies | learnmolsim/state.py:298-306 | None clears the energies; exactly N values replace them; any other length is a TypeError that changes nothing. A valid state stays valid. |
| MolState.State.SetForces | learnmolsim/state.py:313-321 | None clears the forces; an (N, 3) array replaces them; any other shape is a TypeError that changes nothing. A valid state stays valid. |
| Periodic.WrapCoord | learnmolsim/state.py:93-98 | x - floor(x/l)·l lies in [0, l). |
| Periodic.Shift | learnmolsim/state.py:93-98 | The image count floor(x/l) is the integer k with k·l <= x < k·l + l, the number of whole box lengths below x. |
| Periodic.WrapUnique | learnmolsim/state.py:93-104 | A coordinate w + k·l with w in [0, l) wraps to w and crosses exactly k images. |
| Periodic.WrapPeriodic | learnmolsim/state.py:93-104 | Moving a coordinate by k box lengths adds k to the images it crosses and does not change where it wraps to. |
| Periodic.WrapInside | learnmolsim/state.py:93-98 | A coordinate already in [0, l) is unchanged and crosses no image. |
| Periodic.WrapIdempotent | learnmolsim/state.py:93-98 | Wrapping twice is wrapping once. |
| Periodic.WrapRoundTrip | learnmolsim/state.py:98-108 | r_wrap + l·(image + shift) == r + l·image for any image count. |
| Periodic.Round | learnmolsim/state.py:143-146 | round(q) is the integer k with k - 1/2 <= q < k + 1/2: the nearest integer, with halves rounded up. |
| Periodic.RoundShift | learnmolsim/state.py:143-146 | round(v/l) is floor((v + l/2)/l). |
| Periodic.MinImageCoord | learnmolsim/state.py:143-146 | v - round(v/l)·l lies in [-l/2, l/2). |
| Periodic.MinImageUnique | learnmolsim/state.py:143-146 | A component m + k·l with m in [-l/2, l/2) has minimum image m and round(v/l) == k. |
| Periodic.MinImagePeriodic | learnmolsim/state.py:140-146 | The minimum image does not depend on whole box lengths added to the vector. |
| Periodic.MinImageInside | learnmolsim/state.py:140-146 | A component already in [-l/2, l/2) is unchanged. |
| Periodic.MinImageOffset | learnmolsim/state.py:143-146 | The minimum image differs from v by round(v/l) whole box lengths. |
| Periodic.MinImageNearest | learnmolsim/state.py:140-141 | The minimum image is at most as long as any periodic copy of the component. |
| Periodic.Unwrap | learnmolsim/state.py:104-108 | The unwrapped position r + L·image is r itself when there are no images, and moving it back by the opposite images gives r again. |
| Periodic.UnwrapDetermines | learnmolsim/state.py:104-108 | Two positions in the box with the same unwrapped position are equal, and so are their images. |
| Periodic.WrapVec | learnmolsim/state.py:87-98 | A wrapped position lies in the box. |
| Periodic.WrapVecRoundTrip | learnmolsim/state.py:98-108 | Wrapping a position and adding the crossed images keeps its unwrapped position. |
| Periodic.WrapVecPeriodic | learnmolsim/state.py:93-104 | A position moved by k images wraps to the same point and crosses k more images. |
| Periodic.WrapVecInside | learnmolsim/state.py:87-98 | A position inside the box is unchanged and crosses no image. |
| Periodic.WrapVecUnique | learnmolsim/state.py:93-104 | A position w + L·k with w in the box wraps to w and crosses k images. |
| Periodic.MinImage | learnmolsim/state.py:137-146 | Every component of a minimum-image vector lies in [-L/2, L/2). |
| Periodic.MinImageVecNearest | learnmolsim/state.py:140-141 | On every axis the minimum image is at most as long as any periodic copy of the vector. |
| Periodic.MinImageVecPeriodic | learnmolsim/state.py:140-146 | The minimum image does not depend on the periodic copy chosen. |
| Periodic.MinImageVecInside | learnmolsim/state.py:140-146 | A vector already in the half box is unchanged. |
| Periodic.MinImageVecOffset | learnmolsim/state.py:143-146 | v == m + L·round(v/L), where m is the minimum image of v. |
| Periodic.MinImageVecUnique | learnmolsim/state.py:143-146 | A vector m + L·k with m in the half box has minimum image m. |
| Periodic.WrapAll | learnmolsim/state.py:110-132 | Every wrapped particle of an array lies in the box. |
| Periodic.WrapAllRoundTrip | learnmolsim/state.py:98-108 | Wrapping an array and adding the crossed images keeps every unwrapped position. |
| Periodic.WrapAllInside | learnmolsim/state.py:87-98 | An array already in the box is unchanged and crosses no images. |
| Periodic.MinImageAll | learnmolsim/state.py:150-157 | Every minimum-image vector of an array lies in the half box. |
| Periodic.TestWrap | tests/test_box.py:32-38 | In a (10, 15, 20) box, (11, -1, 18) wraps to (1, 14, 18) with images (1, -1, 0). |
| Periodic.TestWrapMultipleParticles | tests/test_box.py:40-46 | (1, 17, 3) and (15, 2, -2) with images (1, 2, 3) and (4, 5, 6) wrap to (1, 2, 3) and (5, 2, 18) with images (1, 3, 3) and (5, 5, 5). |
| Periodic.TestWrapMultipleImages | tests/test_box.py:48-54 | (30, 30, 30) with images (1, 2, 3) wraps to (0, 0, 10) with images (4, 4, 4). |
| Periodic.TestMinimumImage | tests/test_box.py:79-97 | (7, -13, 15), (1, -1, 1) and (-14, 30, 45) have minimum images (-3, 2, -5), (1, -1, 1) and (-4, 0, 5). |
| Potential.LennardJones.EnergyForce | learnmolsim/potential.py:125-156 | The result is infinite exactly at r² = 0, and beyond the cutoff both the energy and f/r are 0. |
| Potential.EnergyForceOfDistance | learnmolsim/potential.py:27-31 | For 0 < r <= rcut, u = 4ε((σ/r)¹² - (σ/r)⁶) minus the shift, and f/r = 24ε(2(σ/r)¹² - (σ/r)⁶)/r². Beyond rcut both are 0. |
| Potential.InvR6OfDistance | learnmolsim/potential.py:128-137 | (σ²/r²)³ is (σ/r)⁶, and its square is (σ/r)¹², so no square root is needed. |
| Potential.CutoffShiftOfDistance | learnmolsim/potential.py:56-61 | With the shift on, the subtracted energy is u(rcut) = 4ε((σ/rcut)¹² - (σ/rcut)⁶). |
| Potential.EnergyForceAtSigma | learnmolsim/potential.py:46-54 | At r = σ the unshifted energy is 0 and f/r = 24ε/σ². |
| Potential.EnergyForceAtMinimum | learnmolsim/potential.py:63-65 | Where (σ/r)⁶ = 1/2, u = -ε (less the shift) and the force vanishes. |
| Potential.ShiftedEnergyAtCutoff | learnmolsim/potential.py:56-61 | With the shift on, the energy at the cutoff is 0 and the force is the raw one. |
| Potential.ShiftMovesEnergyOnly | learnmolsim/potential.py:56-61 | Shifting subtracts u(rcut) from the energy inside the cutoff and leaves f/r unchanged. |
| Potential.WcaRepulsive | learnmolsim/potential.py:63-65 | Truncated and shifted at its minimum, the potential has non-negative energy and f/r at every distance. |
| Potential.RepulsiveCore | learnmolsim/potential.py:63-65 | Inside the minimum, 4ε(p² - p) + ε >= 0 and 24ε(2p² - p)/r² >= 0 for p = (σ/r)⁶ >= 1/2. |
| Potential.LennardJones.Compute | learnmolsim/potential.py:88-123 | `compute` on a state returns the pair accumulation of its positions in its box. |
| Potential.Separation | learnmolsim/potential.py:98-99 | The separation from particle i to particle j lies in the half box [-L/2, L/2) on every axis. |
| Potential.SeparationNearest | learnmolsim/state.py:140-146 | pos[j] - pos[i] is the separation plus round(v/L) whole box lengths, and on every axis no periodic copy of pos[j] - pos[i] is shorter than the separation. |
| Potential.TotalPairEnergy | learnmolsim/potential.py:91-93 | The potential energy sums each unordered pair once: a lone particle has none, and two particles have exactly the energy of their one pair. |
| Potential.NoPairEnergy | learnmolsim/potential.py:91-99 | When every pair is farther apart than the cutoff, the potential energy is zero. |
| Potential.PairSumsOf | learnmolsim/potential.py:88-123 | The result of `compute` has N energies and N forces. |
| Potential.ComputeTotals | learnmolsim/potential.py:88-108 | `compute` is finite exactly when no two particles sit at zero minimum-image separation. Then the energies add up to the pair energy summed once over every unordered pair, and the forces add up to the zero vector. |
| Potential.AccumulatePairs | learnmolsim/potential.py:97-108 | The pair loop over zeroed arrays computes the pair accumulation. |
| Potential.AccumulateInto | learnmolsim/potential.py:97-108 | The outer loop over i adds rows i = 0 … N-2 to the arrays in place and stops at the first infinite pair. |
| Potential.AccumulateRow | learnmolsim/potential.py:98-108 | The inner loop adds the pairs (i, j), j > i, in place, or reports that one of them is infinite. |
| Potential.AddPairInPlace | learnmolsim/potential.py:104-108 | One pair adds e/2 to u[i] and u[j], subtracts F from f[i] and adds F to f[j]. |
| Potential.Accumulate | learnmolsim/potential.py:51-54 | Adding a pair value keeps the array lengths, and the sums stay finite exactly when the pair is finite. |
| Potential.AccumulateTotals | learnmolsim/potential.py:92-93 | One finite pair adds its whole energy to the total and nothing to the total force. |
| Potential.HalvesSum | learnmolsim/potential.py:92-93 | Giving half a pair energy to each of two particles adds the whole energy to the sum. |
| Potential.OppositeForcesSum | learnmolsim/potential.py:51-54 | Adding F to one particle and -F to another leaves the total force unchanged. |
| Potential.RowTotals | learnmolsim/potential.py:97-108 | A row stays finite exactly when each of its pairs is finite. It then adds the row's pair energies to the total energy and nothing to the total force. |
| Potential.RowsTotals | learnmolsim/potential.py:97-108 | The rows stay finite exactly when every pair among them is finite. They then add all pair energies to the energy total and nothing to the force total. |
| Potential.TestEnergyAtSigma | tests/test_lennard_jones.py:26-29 | With ε = 1.5 and σ = 0.5, energy_force(0.25) is (0, 24·1.5/0.25). |
| Potential.TestEnergyForce | tests/test_lennard_jones.py:31-35 | At the minimum, at r = 3 and at r = 0 the values are (-1.5, 0), (0, 0) and infinite. |
| Potential.TestEnergyShift | tests/test_lennard_jones.py:37-48 | With rcut at the minimum, the energies at the minimum and at 1.5 are -1.5 and 0 unshifted, and 0 and 0 shifted. |
| Potential.TestMinimumBelowHalf | tests/test_lennard_jones.py:31-32 | For σ = 0.5, the minimum lies at r² < 1/2. |
| Potential.TestCompute | tests/test_lennard_jones.py:14-24 | Three particles at (0,0,0), (0,0.5,0) and (0,0,9.5) in a box of edge 10 have total energy 4·1.5·(2⁻⁶ - 2⁻³) and zero total force. |
| Dynamics.ForceField.Evaluate | tests/test_velocity_verlet.py:17-21 | A force field returns N energies and N forces. The constant field is always finite and gives energy -F·r_i and force F to every particle. |
| Dynamics.ForceField.Compute | learnmolsim/potential.py:88-123 | Calling the potential on a state returns the field's values at the state's positions. |
| Dynamics.LinearEnergies | tests/test_velocity_verlet.py:17-18 | Defined as -F·r_i for particle i; the contract states only that there is one energy per particle. |
| Dynamics.Kick | learnmolsim/dynamics.py:25 | Defined as v_i + h·f_i for every particle; the contract states only that the length is kept. |
| Dynamics.Drift | learnmolsim/dynamics.py:27 | Defined as r_i + dt·v_i for every particle (a `Kick` of the positions); the contract states only that the length is kept. |
| Dynamics.Step | learnmolsim/dynamics.py:57-71 | One step keeps N, the image array and the mass, always leaves velocities, and advances the counter by one exactly when it completes with forces stored. |
| Dynamics.VelocityVerlet.Init | learnmolsim/dynamics.py:42-44 | An integrator built with dt >= 0 holds that step and potential. |
| Dynamics.VelocityVerlet.Create | learnmolsim/dynamics.py:42-55 | A negative step is ValueError "Timestep must be nonnegative"; otherwise the integrator holds the step and the potential. |
| Dynamics.VelocityVerlet.SetDt | learnmolsim/dynamics.py:51-55 | A negative step is ValueError "Timestep must be nonnegative" and keeps the old one; otherwise dt is replaced. The potential never changes, and dt >= 0 is kept. |
| Dynamics.VelocityVerlet.Advance | learnmolsim/dynamics.py:57-71 | `advance` leaves the state valid, in the same box, and equal to one velocity Verlet `Step` of its old value. It reports completion exactly when forces are stored afterwards. |
| Dynamics.VelocityVerlet.StartInPlace | learnmolsim/dynamics.py:65-68 | Absent velocities become zero, and absent forces are computed once. |
| Dynamics.VelocityVerlet.EvaluateInPlace | learnmolsim/dynamics.py:60-61 | Energies and forces are replaced by the potential's values at the current positions. They are left absent exactly when the potential is infinite. |
| Dynamics.VelocityVerlet.KickInPlace | learnmolsim/dynamics.py:25-29 | A half kick adds (dt/2m)·f_i to every velocity. |
| Dynamics.VelocityVerlet.DriftInPlace | learnmolsim/dynamics.py:27-63 | Every position moves by dt·v_i, is wrapped into the box, and gains the crossed images. |
| Dynamics.StepOutcome | learnmolsim/dynamics.py:57-71 | A step keeps N and the mass and always leaves velocities. When it completes, the counter is one higher, the stored energies and forces are the field's at the new positions, and every particle is in the box. When it stops at an overlap, the counter is unchanged and no energies are stored. The constant field always completes. |
| Dynamics.LennardJonesStep | learnmolsim/dynamics.py:57-71 | With the Lennard-Jones potential a step completes exactly when the starting forces were present or the starting particles are apart, and the new particles are apart. |
| Dynamics.StepFromMidway | learnmolsim/dynamics.py:23-31 | A completed step is the half kick, drift and wrap, followed by a force evaluation, a second half kick and the counter increment. |
| Dynamics.StepMoves | learnmolsim/dynamics.py:23-31 | In a completed step the half-step velocity is v + (dt/2m)·f_old. Every unwrapped position moves by dt times that velocity, and the final velocity adds (dt/2m)·f_new. |
| Dynamics.DriftUnwrapped | learnmolsim/dynamics.py:27-63 | A drift followed by a wrap moves every unwrapped position by dt·v. |
| Dynamics.ConstantForceValues | tests/test_velocity_verlet.py:17-21 | After a constant field is evaluated, the stored energies are -F·r_i and the forces are F. |
| Dynamics.TwoHalfKicks | learnmolsim/dynamics.py:25-29 | Two half kicks of a constant force make one kick of (dt/m)·F. |
| Dynamics.DriftHalfKicked | learnmolsim/dynamics.py:25-27 | Drifting with the half-step velocity moves u to u + dt·v + (dt²/2m)·F. |
| Dynamics.ConstantForceStep | tests/test_velocity_verlet.py:47-57 | Under a constant force a step always completes. The velocities become v + (dt/m)·F, and every unwrapped position moves by dt·v + (dt²/2m)·F. |
| Dynamics.FreeFlight | tests/test_velocity_verlet.py:37-45 | Without force a step keeps the velocities and moves every unwrapped position by dt·v. |
| Dynamics.TestFreeFlight | tests/test_velocity_verlet.py:37-45 | (0, 9.9, 5) with velocity (-1, 2, 1), dt = 0.1 and no force moves to (9.9, 0.1, 5.1) with images (-1, 1, 0). The velocity is unchanged and the counter is 1. |
| Dynamics.TestConstantForce | tests/test_velocity_verlet.py:47-57 | A particle at the origin at rest, with its forces cleared, under F = (10, -20, 30) and m = 10 ends at (0.005, 9.99, 0.015) with velocity (0.1, -0.2, 0.3) and stored force F. |
| Analyze.SumNonNegative | learnmolsim/analyze.py:26-28 | A sum of non-negative terms is non-negative, and is zero exactly when every term is. |
| Analyze.KineticTermSign | learnmolsim/analyze.py:28 | ½m·v·v >= 0 for m > 0, with equality exactly when v = 0. |
| Analyze.Kinetic | learnmolsim/analyze.py:24-31 | Σ ½m·v_i·v_i is non-negative, and zero exactly when every particle is at rest. |
| Analyze.KineticEnergy | learnmolsim/analyze.py:21-44 | `kinetic_energy` of a state with velocities is non-negative, and zero exactly when every particle is at rest. |
| Analyze.Virial | learnmolsim/analyze.py:108-111 | Σ r_i·F_i vanishes when every force is zero, whatever the positions. |
| Analyze.KT | learnmolsim/analyze.py:71-98 | `kT` is non-negative, and (3N/2)·kT is the kinetic energy. |
| Analyze.Equipartition | learnmolsim/analyze.py:79 | For E >= 0 and N > 0, t = 2E/3N is non-negative and (3N/2)·t = E. |
| Analyze.Pressure | learnmolsim/analyze.py:100-124 | `pressure` satisfies 3PV = 2·E_k + Σ r_i·F_i over the stored positions and forces. |
| Analyze.PressureForm | learnmolsim/analyze.py:108 | 3V·(N·kT/V + W/3V) = 2E + W whenever (3N/2)·kT = E. |
| Analyze.IdealGas | learnmolsim/analyze.py:103-108 | With all forces zero, PV = N·kT. |
| Analyze.PotentialEnergy | learnmolsim/analyze.py:46-69 | `potential_energy` adds up the per-particle energies. When they are the values a Lennard-Jones potential stored, the result is the pair energy summed once over every unordered pair. |
| Analyze.ConstantForceConservesEnergy | learnmolsim/dynamics.py:17-31 | Under a constant force, a velocity Verlet step keeps E_k - Σ F·u_i over the unwrapped positions u_i exactly unchanged. |
| Analyze.ConservedBySteps | learnmolsim/dynamics.py:25-29 | If every particle is kicked by (dt/m)·F and moved by dt·v + (dt²/2m)·F, then E_k - Σ F·u_i is unchanged. |
| Analyze.ParticleEnergy | learnmolsim/dynamics.py:25-29 | For one particle, ½m·|v + aF|² - F·(u + dt·v + cF) = ½m·|v|² - F·u when a = dt/m and c = dt²/2m. |
| Analyze.TestThermodynamics | tests/test_thermodynamics.py:5-32 | For the two-particle test state: E_k = 75, U = -1, kT = 25 and P = 2·25/10³ + (6 - 12)/(3·10³). |

## Left out

- Floating point. All arithmetic is exact `real`. An infinite pair energy at r² = 0 is the `Infinite` case of `PairValue`, and `compute` with such a pair returns `Overlapped` instead of arrays holding inf and NaN.
- Dynamics.VelocityVerlet.Advance: when a force evaluation overlaps, the step stops there. Energies and forces are left absent and the counter is not incremented. The source would store inf/NaN values and carry on.
- Periodic.Round: NumPy's round rounds halves to even; the model rounds them up. The half-open range [-L/2, L/2) of `Periodic.MinImageCoord`, `Periodic.MinImage`, `Periodic.InHalfBox` and `MolState.Box.MinimumImage`, and `Periodic.MinImageUnique` and `Periodic.MinImageInside`, are facts of the ties-up rule. Results differ from NumPy's wherever v/L is exactly an odd multiple of 1/2. For v = 5 and L = 10, NumPy gives +5 (round(0.5) = 0) and the model gives -5. At an exact L/2 separation this also reverses the direction of `Potential.Separation`, and so of the pair force when the cutoff reaches that far. The bound |component| <= L/2 and the offset by whole box lengths hold under both rules.
- The rank promotion of `np.array(..., ndmin=...)` is left out, and so are the scalar-versus-array handling of `energy_force` and the `_zeros` helper (learnmolsim/potential.py:158-202). Arrays are `seq<Vec>` or, where a shape is checked, `seq<seq<real>>`. `Box.WrapOne` is the single-particle form.
- NumPy copy and aliasing semantics: `wrap` either modifies its arguments or returns copies (learnmolsim/state.py:110-115). `Box.Wrap` returns new values, and `Box.WrapInPlace` is the in-place case. State setters store values, not shared arrays.
- The images setter casts to float64 (learnmolsim/state.py:273), unlike its docstring and initial dtype. Images are integers here.
- `isinstance` checks (learnmolsim/state.py:202, 228, 250) are enforced by Dafny's types. So are the shapes a typed parameter cannot express, such as a 2-D array given to the energies setter. The error messages of `wrap` are not given by the source and are this model's own.
- MolState.State.Create: `N` must be a Python `int`; a non-integer N is a type error in the model rather than a ValueError.
- The potential of `VelocityVerlet` is a closed datatype with two cases, the Lennard-Jones potential and the constant-force stub of the tests. Any other object with a `compute` method is not modelled.
- Dynamics.VelocityVerlet.Advance: assigns the state's fields directly rather than through the validating setters. The values it stores always have the right shapes, so the checks would pass.
- Analyze.KT and Analyze.Pressure: the source divides by 3N and gives inf or NaN for N = 0. The model requires N > 0.
- Dynamics.TestConstantForce and Dynamics.TestFreeFlight: the second half of the integrator test continues from the first integrator's state. Here it starts from the values the test sets (position and velocity at the origin, forces cleared), with the image counters the first half left.
- Potential.TestEnergyForce and Potential.TestEnergyShift: the minimum 2^(1/6)·σ is irrational. It is passed as a parameter whose sixth power is fixed, not as a literal.
- `learnmolsim/write.py` (file output), `examples/md.py` (random initial state, log file and thermostat) and `setup.py` are not part of this model.
