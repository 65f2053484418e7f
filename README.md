# FEBio solver bookkeeping in Dafny

This project models the discrete bookkeeping around the nonlinear finite
element solvers of FEBio and proves properties of it. It covers:

- **Equation ids** (`EquationIds`). Every nodal unknown has an integer id:
  `id >= 0` is a free equation, `-1` is fixed, and `id <= -2` is prescribed
  and owns equation `-id-2`. The map `id -> -id-2` marks an id and unmarks
  it again.
- **The multiphasic solver** (`MultiphasicSolver`, `QuasiNewton`,
  `SolverArchive`): equation counting per field, the split of the global
  increment into displacement, pressure and concentration sub-vectors,
  reaction recovery, the rigid-body diagonals, the pressure and
  concentration update with prescribed conditions, and the control flow of
  the quasi-Newton (BFGS) iteration. That control flow covers the
  convergence tests, the reformation policy, divergence reset,
  augmentations, and adding the increment to the total solution only on
  convergence. The restart archive is included too.
- **The biphasic sliding contact interface** (`SlidingInterface2`): the
  per-integration-point state of each contact surface (gap, multiplier,
  pressure multiplier, pressure gap and projected element), its allocation,
  the projection rule, free-draining marking of pressure ids, augmented
  Lagrangian updates with their convergence test, the higher-order
  stiffness multiplier and the equation lists of a contact pair.
- **The stiffness-matrix profile builder** (`StiffnessProfile`,
  `ContactProfile`). The profile is a list of equation groups. The static
  part is rebuilt only on reset and is otherwise reused as cached. It
  comes from elements, UT4 nodes, rigid bodies, linear constraints and
  nonlinear constraints. The contact part is rebuilt on every call from
  the active interfaces, each with its own slot layout padded with `-1`.
- **Block-matrix partitions** (`BlockMatrix`) and **the uncoupled elastic
  mixture** (`ElasticMixture`): bulk-modulus accumulation, summed stresses
  and tangents, and lookup of a dotted `material.param` parameter name.

Imperative code stays imperative:

- Objects whose fields the source updates become classes:
  `MultiphasicSolver`, `SparseMatrix`, `ContactSurface2`,
  `SlidingInterface`, `UncoupledElasticMixture` and `ProfileBuilder`.
- Loops become methods with loop invariants. Each is proved against a
  specification function, and lemmas prove what the source promises
  about that function.

Geometry, numerics and the solver internals are not modelled; what they
return enters as parameters. These are:

- projection search results;
- recovered nodal tractions;
- norms of the line search;
- linear-solve increments;
- success flags of the secant update and the stiffness reformation.

## Model

| member | source | states |
|---|---|---|
| EquationIds.Flip | FEBio/FESlidingInterface2.cpp:303-311 | marking swaps free and prescribed ids and leaves the fixed id alone |
| EquationIds.Slot | FEBioMix/FEMultiphasicSolver.cpp:730-735 | the decoded equation of a free id is the id itself; a prescribed id is the marking of its equation |
| EquationIds.FlipInvolution | FEBio/FESlidingInterface2.cpp:367-376 | marking twice restores the id; marking never changes the equation an id owns |
| EquationIds.CountSplits | FEBioMix/FEMultiphasicSolver.cpp:116-125 | a count of non-fixed ids is the free ones plus the prescribed ones, and at most the number of ids |
| EquationIds.FlipKeepsCount | FEBio/FESlidingInterface2.cpp:303-311 | marking any selection of ids leaves the number of equations unchanged |
| MultiphasicSolver.Gather | FEBioMix/FEMultiphasicSolver.cpp:723-788 | a field's sub-vector has one entry per non-fixed id |
| MultiphasicSolver.GatherPlacement | FEBioMix/FEMultiphasicSolver.cpp:727-751 | the k-th non-fixed id lands at the position equal to the number of non-fixed ids before it, and reads its decoded equation |
| MultiphasicSolver.GatherAppend | FEBioMix/FEMultiphasicSolver.cpp:727-751 | walking the nodes in order concatenates their sub-vectors |
| MultiphasicSolver.GatherLinear | FEBioMix/FEMultiphasicSolver.cpp:272-275 | the split of v + s*w is the split of v plus s times the split of w |
| MultiphasicSolver.GatherZeros | FEBioMix/FEMultiphasicSolver.cpp:726 | the split of a zero vector is zero |
| MultiphasicSolver.GatherIgnoresMarking | FEBio/FESlidingInterface2.cpp:303-311 | marking pressure ids free-draining changes no sub-vector |
| MultiphasicSolver.GetFieldData | FEBioMix/FEMultiphasicSolver.cpp:723-788 | the output is zeroed and its first entries are the field's sub-vector; the write cursor never passes the end |
| MultiphasicSolver.ReactionComponent | FEBioMix/FEMultiphasicSolver.cpp:614-617 | a reaction component is the negated reaction entry of a prescribed id's equation and zero otherwise |
| MultiphasicSolver.Reactions | FEBioMix/FEMultiphasicSolver.cpp:609-618 | every node's reaction is reset and then read from its prescribed x, y, z equations; nothing else changes |
| MultiphasicSolver.EnforceUntouched | FEBioMix/FEMultiphasicSolver.cpp:835-851 | an unknown no active prescribed condition acts on keeps its solved value |
| MultiphasicSolver.EnforceLastWins | FEBioMix/FEMultiphasicSolver.cpp:835-851 | otherwise the last active condition on it sets it to r + s * load-curve value |
| MultiphasicSolver.FreeConcentration | FEBioMix/FEMultiphasicSolver.cpp:869-879 | a free concentration is Ut + Ui + ui at its equation when that sum is not negative and exactly zero when it is; a non-free one is unchanged |
| MultiphasicSolver.FieldCountIsCount | FEBioMix/FEMultiphasicSolver.cpp:116-135 | counting node by node agrees with counting the field's non-fixed ids |
| MultiphasicSolver.SparseMatrix.SetPrescribedDiagonals | FEBioMix/FEMultiphasicSolver.cpp:697-702 | the diagonal of every prescribed equation of a rigid body's LM vector is set to one; no other entry changes |
| MultiphasicSolver.PrescribedSlotsExact | FEBioMix/FEMultiphasicSolver.cpp:698-700 | an equation is among those set exactly when it decodes a prescribed rigid-body entry |
| MultiphasicSolver.DiagonalsCompose | FEBioMix/FEMultiphasicSolver.cpp:694-703 | setting diagonals body after body sets those of all bodies |
| MultiphasicSolver.SolvePressures | FEBioMix/FEMultiphasicSolver.cpp:816-823 | each node's pressure becomes Ut + Ui + ui at its free pressure equation and is otherwise unchanged |
| MultiphasicSolver.PrescribePressures | FEBioMix/FEMultiphasicSolver.cpp:835-851 | the active pressure conditions are applied in order |
| MultiphasicSolver.CountDisplacementAndPressure | FEBioMix/FEMultiphasicSolver.cpp:116-125 | ndeq and npeq are the numbers of non-fixed X/Y/Z and P ids, prescribed ones included |
| MultiphasicSolver.CountSolutes | FEBioMix/FEMultiphasicSolver.cpp:127-135 | nceq[j] is the number of non-fixed ids of species j |
| MultiphasicSolver.CountNodeSolutes | FEBioMix/FEMultiphasicSolver.cpp:131-134 | one node adds one equation to each species slot whose id is not fixed |
| MultiphasicSolver.SolveConcentrations | FEBioMix/FEMultiphasicSolver.cpp:869-879 | each species of a node takes its free, clamped concentration |
| MultiphasicSolver.PrescribeConcentrations | FEBioMix/FEMultiphasicSolver.cpp:904-908 | one active condition sets the species it names and leaves the others |
| MultiphasicSolver.SolveAll | FEBioMix/FEMultiphasicSolver.cpp:864-880 | every node's concentrations are solved; pressure and reaction are unchanged |
| MultiphasicSolver.PrescribeAll | FEBioMix/FEMultiphasicSolver.cpp:891-910 | every concentration is what the active conditions in order make of it |
| MultiphasicSolver.ZeroTotals | FEBioMix/FEMultiphasicSolver.cpp:145-146 | species totals with equations are zeroed; the others are untouched |
| MultiphasicSolver.SplitField | FEBioMix/FEMultiphasicSolver.cpp:299-311 | one field's split writes its sub-vector, adds s times it to the total, and measures both squared norms |
| MultiphasicSolver.SplitSolutes | FEBioMix/FEMultiphasicSolver.cpp:320-336 | each species with equations is split in the same way; species without equations are skipped and their norms stay zero |
| MultiphasicSolver.TracksFromZero | FEBioMix/FEMultiphasicSolver.cpp:145-149 | a zero total is the sub-vector of an increment that has not moved |
| MultiphasicSolver.SplitTracks | FEBioMix/FEMultiphasicSolver.cpp:272-275 | adding s*u to the increment and the split of s*u to the field total keeps the total equal to the split of the increment gained |
| MultiphasicSolver.EmptyTracks | FEBioMix/FEMultiphasicSolver.cpp:320-321 | a field without equations tracks any increment |
| MultiphasicSolver.SolutesTrack | FEBioMix/FEMultiphasicSolver.cpp:320-336 | every species total keeps tracking the increment after a split |
| MultiphasicSolver.ZeroTotalsTrack | FEBioMix/FEMultiphasicSolver.cpp:143-152 | the totals zeroed at the start of a step track the increment from where it stands |
| MultiphasicSolver.TracksGained | FEBioMix/FEMultiphasicSolver.cpp:272-278 | a field total that tracks the increment is what the increment has gained on that field's equations |
| MultiphasicSolver.SplitGained | FEBioMix/FEMultiphasicSolver.cpp:272-311 | after one field's split its total is what the increment has gained since the start of the step, and its norms are those of s times the field's sub-vector and of that gain |
| MultiphasicSolver.SolutesGained | FEBioMix/FEMultiphasicSolver.cpp:317-336 | the same per species: the sub-vectors, step norms and total norms are those of every species with equations, and zero norms for the others |
| MultiphasicSolver.MultiphasicSolver.constructor | FEBioMix/FEMultiphasicSolver.cpp:109-138 | the equations of each field are numbered and each per-field vector is allocated to that length, all zero; counters start at zero |
| MultiphasicSolver.MultiphasicSolver.RecoverReactions | FEBioMix/FEMultiphasicSolver.cpp:609-621 | every node's reaction is recovered and the residual count advances |
| MultiphasicSolver.MultiphasicSolver.SetRigidDiagonals | FEBioMix/FEMultiphasicSolver.cpp:693-703 | the diagonal of every prescribed rigid-body equation is one; the rest of the matrix is unchanged |
| MultiphasicSolver.MultiphasicSolver.UpdatePoro | FEBioMix/FEMultiphasicSolver.cpp:808-852 | nodal pressures are solved and then overwritten by the active prescribed pressure conditions |
| MultiphasicSolver.MultiphasicSolver.UpdateSolute | FEBioMix/FEMultiphasicSolver.cpp:856-911 | nodal concentrations are solved and clamped, then overwritten by the active prescribed conditions |
| MultiphasicSolver.MultiphasicSolver.PrepStep | FEBioMix/FEMultiphasicSolver.cpp:143-152 | displacement, pressure and species totals are zeroed (species without equations left alone) |
| MultiphasicSolver.MultiphasicSolver.ReformStiffness | FEBioMix/FEMultiphasicSolver.cpp:435-444 | every reformation is counted; its success comes from outside |
| MultiphasicSolver.MultiphasicSolver.CheckConvergence | FEBioMix/FEMultiphasicSolver.cpp:283-342 | the flag is the conjunction of every enabled test, plus the divergence test, which always applies |
| MultiphasicSolver.MultiphasicSolver.SplitDisplacement | FEBioMix/FEMultiphasicSolver.cpp:246-280 | the displacement sub-vector is extracted, added scaled to Di, and both norms are measured |
| MultiphasicSolver.MultiphasicSolver.SplitPressure | FEBioMix/FEMultiphasicSolver.cpp:299-315 | the pressure sub-vector is extracted, added scaled to Pi, and both norms are measured |
| MultiphasicSolver.MultiphasicSolver.SplitSpecies | FEBioMix/FEMultiphasicSolver.cpp:317-343 | each species with equations is extracted and added scaled to its total; the others are untouched and have zero norms |
| MultiphasicSolver.MultiphasicSolver.Advance | FEBioMix/FEMultiphasicSolver.cpp:231-272 | the step is the line search's when it is on and 1 otherwise, and Ui gains s*ui |
| MultiphasicSolver.MultiphasicSolver.Respond | FEBioMix/FEMultiphasicSolver.cpp:369-447 | the residual floor declares convergence; a short step, divergence (with reference reset) or an exhausted or failed secant update reforms; ui is zeroed; R0 := R1 unless the reformation fails |
| MultiphasicSolver.MultiphasicSolver.AugmentStep | FEBioMix/FEMultiphasicSolver.cpp:449-481 | augmentation decides convergence, is counted and resets nref; when it has not converged the residual is recomputed, and full Newton reforms |
| MultiphasicSolver.MultiphasicSolver.StepReference | FEBioMix/FEMultiphasicSolver.cpp:249-255 | after the first iteration of a step the reference norms are carried over unchanged |
| MultiphasicSolver.MultiphasicSolver.Measure | FEBioMix/FEMultiphasicSolver.cpp:245-343 | the increment is added to every field total, which keeps tracking the step's increment; the norms are those of the observed solve and of the field gains (StepNorms), and the first iteration takes the reference norms of the first solve (StepReference) |
| MultiphasicSolver.MultiphasicSolver.ConcludeOf | FEBioMix/FEMultiphasicSolver.cpp:367-484 | deciding leaves the increment alone; only a failed reformation stops the step, never a converged one, and the iteration counts unless stopped |
| MultiphasicSolver.MultiphasicSolver.Conclude | FEBioMix/FEMultiphasicSolver.cpp:367-484 | a converged iteration augments when the step has augmentations, an unconverged one follows the policy, and the iteration count advances unless the loop breaks; the outcome is ConcludeOf's |
| MultiphasicSolver.MultiphasicSolver.Begin | FEBioMix/FEMultiphasicSolver.cpp:194-206 | totals are zeroed, the stiffness is reformed and R0 is the first residual plus the prescribed-displacement adjustment |
| MultiphasicSolver.MultiphasicSolver.IterationOf | FEBioMix/FEMultiphasicSolver.cpp:219-491 | an iteration adds s times the solved increment to the step's increment, stops only on a failed reformation and then without convergence, and counts itself unless stopped |
| MultiphasicSolver.MultiphasicSolver.Iterate | FEBioMix/FEMultiphasicSolver.cpp:219-491 | one iteration keeps every field total equal to the split of the increment accumulated; whether it converged or stopped, and the new increment, residual, reference norms and iteration, reformation and augmentation counts are IterationOf of the state before it |
| MultiphasicSolver.MultiphasicSolver.Run | FEBioMix/FEMultiphasicSolver.cpp:219-491 | the iterations run until one converges or a reformation fails; a run that neither converged nor stopped counted every observation, a stopped one had observations left over, and a converged one counted at least one iteration |
| MultiphasicSolver.MultiphasicSolver.RunWithoutFailures | FEBioMix/FEMultiphasicSolver.cpp:435-443 | when every reformation succeeds the step is never stopped: it converges or uses every observation |
| MultiphasicSolver.MultiphasicSolver.Iterations | FEBioMix/FEMultiphasicSolver.cpp:219-491 | the loop's convergence flag, increment, residual and counters are those of Run from the state it starts in; the totals keep tracking the increment |
| MultiphasicSolver.MultiphasicSolver.Commit | FEBioMix/FEMultiphasicSolver.cpp:509-512 | a converged step adds its increment to the total solution |
| MultiphasicSolver.MultiphasicSolver.Quasin | FEBioMix/FEMultiphasicSolver.cpp:159-515 | a failed reformation or residual at the start leaves the step unconverged after one counted reformation; otherwise convergence, the increment, the residual and the iteration, reformation and augmentation counts are those of Run over the observations from the start state; Ut += Ui exactly when the step converges; the field totals track the step's increment |
| QuasiNewton.Axpy | FEBioMix/FEMultiphasicSolver.cpp:272 | v + s*w component by component |
| QuasiNewton.DotSelfNonNegative | FEBioMix/FEMultiphasicSolver.cpp:278-280 | a squared norm is never negative |
| QuasiNewton.AddScaled | FEBioMix/FEMultiphasicSolver.cpp:272 | the accumulation loop computes v + s*w |
| QuasiNewton.InnerProduct | FEBioMix/FEMultiphasicSolver.cpp:278 | the accumulator loop computes the inner product |
| QuasiNewton.FullNewtonAlwaysReforms | FEBioMix/FEMultiphasicSolver.cpp:397-425 | with maxups == 0 no secant update is tried, and every unconverged iteration reforms |
| QuasiNewton.ResetReference | FEBioMix/FEMultiphasicSolver.cpp:384-396 | a diverging iteration's norms become the reference norms; species without equations keep theirs |
| QuasiNewton.ResetEndsDivergence | FEBioMix/FEMultiphasicSolver.cpp:367-425 | after a diverging iteration resets the reference, the same norms pass the divergence test and the policy on them moves on to the secant update or the exhausted budget |
| SlidingInterface2.OffsetsTile | FEBio/FESlidingInterface2.cpp:42-47 | each element's points start right after the previous element's and lie within the point arrays |
| SlidingInterface2.CountPoints | FEBio/FESlidingInterface2.cpp:22-28 | the point count is the sum of the elements' integration points |
| SlidingInterface2.Offsets | FEBio/FESlidingInterface2.cpp:42-47 | m_nei[i] is the number of integration points of elements 0..i-1 |
| SlidingInterface2.Bracket | FEBio/FESlidingInterface2.cpp:1067 | the Macaulay bracket is x when positive and 0 otherwise |
| SlidingInterface2.ProjectPoint | FEBio/FESlidingInterface2.cpp:209-273 | a point stays projected iff it has a candidate, Lmd + eps*g > 0 and g <= R, and then takes the gap; otherwise it loses Lmd, gap and element (and Lmp and pg in poro mode) |
| SlidingInterface2.ProjectAt | FEBio/FESlidingInterface2.cpp:229-273 | one point follows the projection rule and every other point is unchanged |
| SlidingInterface2.ProjectPoints | FEBio/FESlidingInterface2.cpp:180-277 | the element-by-element pass applies the rule to every point with its own probe |
| SlidingInterface2.MarkFreeRoundTrip | FEBio/FESlidingInterface2.cpp:303-311 | releasing a marked free id gives the id back; neither map changes the fixed state or the equation |
| SlidingInterface2.WetInIff | FEBio/FESlidingInterface2.cpp:367-376 | a node is wet exactly when it has a positive recovered traction in one of its elements |
| SlidingInterface2.WetProjections | FEBio/FESlidingInterface2.cpp:474-480 | a secondary node is wet exactly when its projection has positive traction |
| SlidingInterface2.DrainMeaning | FEBio/FESlidingInterface2.cpp:296-387 | after a pass, a node is free-draining iff it owns an equation and is not wet; a wet free node keeps its id |
| SlidingInterface2.DrainLastWins | FEBio/FESlidingInterface2.cpp:296-390 | only the last free-draining pass counts |
| SlidingInterface2.ZeroDrained | FEBio/FESlidingInterface2.cpp:380-387 | the pressure of every free-draining node is zero; others are unchanged |
| SlidingInterface2.ZeroDrainedTwice | FEBio/FESlidingInterface2.cpp:380-387 | zeroing twice is zeroing once |
| SlidingInterface2.MarkAll | FEBio/FESlidingInterface2.cpp:303-311 | every free pressure id is marked |
| SlidingInterface2.Unmark | FEBio/FESlidingInterface2.cpp:317-377 | a marked node is released exactly when some element gives it a positive traction |
| SlidingInterface2.ZeroPressures | FEBio/FESlidingInterface2.cpp:380-387 | the loop zeroes the pressure at free-draining nodes |
| SlidingInterface2.MarkSecondary | FEBio/FESlidingInterface2.cpp:406-483 | the single-pass secondary surface is drained by the tractions at its projections |
| SlidingInterface2.DrainSurface | FEBio/FESlidingInterface2.cpp:296-388 | one surface's pass marks, releases wet nodes, then zeroes the free-draining pressures |
| SlidingInterface2.ActiveMaxIsMax | FEBio/FESlidingInterface2.cpp:1078-1079 | the running maximum bounds the value at every active point and is attained by its start or an active point |
| SlidingInterface2.ActiveMaxWithin | FEBio/FESlidingInterface2.cpp:1120-1122 | the maximum is within a tolerance iff its start and every active value are |
| SlidingInterface2.Augmented | FEBio/FESlidingInterface2.cpp:1063-1068 | each new Lmd is the bracket of its trial traction, never negative, and positive exactly at active points |
| SlidingInterface2.AugmentedLmp | FEBio/FESlidingInterface2.cpp:1069-1076 | Lmp + epsp*pg at active points and zero elsewhere |
| SlidingInterface2.AugmentPoints | FEBio/FESlidingInterface2.cpp:1063-1089 | the loop updates both multipliers and carries the running maxima of gap and pressure-gap magnitude |
| SlidingInterface2.AugmentConvergedIff | FEBio/FESlidingInterface2.cpp:1059-1123 | augmentation converged iff every active gap of both surfaces is within gtol (and gtol >= 0), and in poro mode the same for ptol and the pressure gaps |
| SlidingInterface2.HigherOrderMultiplier | FEBio/FESlidingInterface2.cpp:717-727 | a non-negative knmult is used as is; a negative -n gives 1 after n reformations and 0 before |
| SlidingInterface2.HigherOrderStaysOn | FEBio/FESlidingInterface2.cpp:717-727 | once switched on, later reformations keep the higher-order terms on |
| SlidingInterface2.DisplacementLM | FEBio/FESlidingInterface2.cpp:588-603 | the solid pair's list holds the slave nodes' x, y, z ids, then the master nodes' |
| SlidingInterface2.PressureLM | FEBio/FESlidingInterface2.cpp:667-668 | the pressure pair's list holds the slave then master pressure ids |
| SlidingInterface2.InterleaveSlots | FEBio/FESlidingInterface2.cpp:948-963 | slots 4k..4k+3 hold node k's three displacement ids and then its pressure id |
| SlidingInterface2.MixedLM | FEBio/FESlidingInterface2.cpp:948-963 | the solid-pressure list interleaves each node's displacement and pressure ids, slave nodes first |
| SlidingInterface2.ContactSurface2.constructor | FEBio/FESlidingInterface2.cpp:11-14 | a new surface holds no point data |
| SlidingInterface2.ContactSurface2.Init | FEBio/FESlidingInterface2.cpp:17-62 | one zeroed entry per integration point, no projection, m_nei the running point offsets, pg only in poro mode |
| SlidingInterface2.ContactSurface2.ShallowCopy | FEBio/FESlidingInterface2.cpp:65-71 | Lmd, Lmp and gap are copied and every projection is cleared |
| SlidingInterface2.ContactSurface2.Project | FEBio/FESlidingInterface2.cpp:166-277 | every point of the surface follows the projection rule |
| SlidingInterface2.ContactSurface2.DrainPrimary | FEBio/FESlidingInterface2.cpp:296-388 | pressure ids are drained by the surface's own tractions and free-draining pressures are zeroed |
| SlidingInterface2.ContactSurface2.DrainSecondary | FEBio/FESlidingInterface2.cpp:392-495 | pressure ids are drained by the projected tractions and free-draining pressures are zeroed |
| SlidingInterface2.SlidingInterface.constructor | FEBio/FESlidingInterface2.cpp:114-131 | the default settings: knmult 1, atol 0.02, eps 1, epsp 1, one pass, stol 0.01, symmetric, srad 0.1, naugmin 0, naugmax 10 |
| SlidingInterface2.SlidingInterface.ProjectSurfaces | FEBio/FESlidingInterface2.cpp:285-286 | the primary surface is projected, and the secondary only in two-pass mode |
| SlidingInterface2.SlidingInterface.DrainSurfaces | FEBio/FESlidingInterface2.cpp:294-496 | pass 0 drains ss and later passes ms; in single-pass mode ms is drained by the projected tractions |
| SlidingInterface2.SlidingInterface.Update | FEBio/FESlidingInterface2.cpp:279-497 | projection always runs; pressure ids and pressures change only in poro mode |
| SlidingInterface2.SlidingInterface.ShallowCopy | FEBio/FESlidingInterface2.cpp:499-504 | both surfaces take over the other interface's multipliers and gaps and forget projections |
| SlidingInterface2.SlidingInterface.Augment | FEBio/FESlidingInterface2.cpp:1043-1137 | with augmentation off nothing changes and the result is true; otherwise multipliers are bracketed (Lmp updated in poro mode) and the result is the max-gap test |
| SolverArchive.ReadIntsSaved | FEBioMix/FEMultiphasicSolver.cpp:966-971 | the equation counts per solute slot read back as written |
| SolverArchive.LoadAsWrittenFails | FEBioMix/FEMultiphasicSolver.cpp:951-961 | what was saved cannot be loaded with the second read of ndeq and npeq |
| SolverArchive.LoadSave | FEBioMix/FEMultiphasicSolver.cpp:951-972 | loading each field once gives back the saved fields and leaves the rest of the archive |
| BlockMatrix.BlockMatrix.Blocks | NumCore/BlockMatrix.h:57 | the number of blocks is the length of the block list |
| BlockMatrix.BlockMatrix.Partitions | NumCore/BlockMatrix.h:66 | one fewer partition than boundaries |
| BlockMatrix.BlockMatrix.StartEquationIndex | NumCore/BlockMatrix.h:69 | partition i starts at boundary i |
| BlockMatrix.BlockMatrix.PartitionEquations | NumCore/BlockMatrix.h:72 | a partition spans from its start to the next partition's start |
| BlockMatrix.BlockMatrix.FindPartition | NumCore/BlockMatrix.h:62-63 | the partition found holds equation i; -1 exactly when none does |
| BlockMatrix.BlockMatrix.SearchFrom | NumCore/BlockMatrix.h:62-63 | the search from partition k finds one holding i, or -1 exactly when none from k on does |
| BlockMatrix.BlockMatrix.PartitionEquationsSum | NumCore/BlockMatrix.h:66-72 | the partition sizes add up to part[last] - part[0] |
| BlockMatrix.BlockMatrix.FindPartitionUnique | NumCore/BlockMatrix.h:62-72 | with ascending boundaries the partition holding i is the one found, and it is not empty |
| ElasticMixture.Sum | FEBioLib/FEUncoupledElasticMixture.cpp:28-30 | the sum of the components' tensors has their dimension |
| ElasticMixture.SumComponentwise | FEBioLib/FEUncoupledElasticMixture.cpp:28-30 | the summed tensor is the sum component by component |
| ElasticMixture.SumAppend | FEBioLib/FEUncoupledElasticMixture.cpp:29-30 | composition is additive over groups of components |
| ElasticMixture.Accumulate | FEBioLib/FEUncoupledElasticMixture.cpp:25-32 | the accumulator that starts at zero ends at the sum |
| ElasticMixture.FirstMatchNone | FEBioLib/FEUncoupledElasticMixture.cpp:57-65 | when no component from i on is named by the head segment, the lookup finds nothing |
| ElasticMixture.FirstMatchIsFirst | FEBioLib/FEUncoupledElasticMixture.cpp:57-65 | the first component named by the head segment resolves the remaining segments |
| ElasticMixture.UncoupledElasticMixture.Init | FEBioLib/FEUncoupledElasticMixture.cpp:13-20 | K ends as its start plus every component's bulk modulus |
| ElasticMixture.UncoupledElasticMixture.DevStress | FEBioLib/FEUncoupledElasticMixture.cpp:23-33 | the deviatoric stress is the components' sum, zero for no components |
| ElasticMixture.UncoupledElasticMixture.DevTangent | FEBioLib/FEUncoupledElasticMixture.cpp:36-45 | the deviatoric tangent is the components' sum |
| ElasticMixture.UncoupledElasticMixture.GetParameter | FEBioLib/FEUncoupledElasticMixture.cpp:53-66 | a one-segment name is the mixture's own; a longer one goes to the first matching component; no match gives none |
| ContactProfile.Six | FEBioMech/FEStiffnessMatrix.cpp:356-361 | a structural node fills six entries |
| ContactProfile.Seven | FEBioMech/FEStiffnessMatrix.cpp:588-598 | a biphasic node fills seven entries |
| ContactProfile.Eight | FEBioMech/FEStiffnessMatrix.cpp:655-666 | a multiphasic node fills eight entries, the last its solute's concentration id |
| ContactProfile.PairSlots | FEBioMech/FEStiffnessMatrix.cpp:406-431 | a pair's slots are the slave element's nodes, then the master's, then padding to twice the element node limit |
| ContactProfile.PairGroupSlave | FEBioMech/FEStiffnessMatrix.cpp:411-420 | cut into node slots, the group has twice maxNodes slots, and the first hold the slave nodes' ids |
| ContactProfile.PairGroupMaster | FEBioMech/FEStiffnessMatrix.cpp:422-431 | the slots after the slave nodes hold the master nodes' ids |
| ContactProfile.PairGroupPadding | FEBioMech/FEStiffnessMatrix.cpp:406 | every slot after the master nodes is -1 |
| ContactProfile.PairGroup | FEBioMech/FEStiffnessMatrix.cpp:403-433 | the buffer is cleared and filled slave nodes first, then master nodes |
| ContactProfile.PassGroupsCount | FEBioMech/FEStiffnessMatrix.cpp:392-435 | a pass adds exactly one group per integration point with a projection |
| ContactProfile.PointGroupsCount | FEBioMech/FEStiffnessMatrix.cpp:397-434 | an element adds one group per projected point |
| ContactProfile.ElementPass | FEBioMech/FEStiffnessMatrix.cpp:394-435 | the point loop of one slave element adds one pair group per projected point, in point order |
| ContactProfile.FacetPass | FEBioMech/FEStiffnessMatrix.cpp:392-436 | the nested element and point loop adds the groups of the pass |
| ContactProfile.Place | FEBioMech/FEStiffnessMatrix.cpp:356-372 | writing a slave node keeps the buffer's length and six entries per slot |
| ContactProfile.SlidingSlots | FEBioMech/FEStiffnessMatrix.cpp:336-372 | the node-sliding buffer keeps seven slots |
| ContactProfile.PeriodicSlots | FEBioMech/FEStiffnessMatrix.cpp:809-836 | the periodic buffer keeps five slots |
| ContactProfile.SlidingLayout | FEBioMech/FEStiffnessMatrix.cpp:337-372 | slot 0 is the slave node and slots 1..n the master nodes; a triangle pads slots 4-6, a quad slots 5-6; otherwise later slots keep the previous node's ids |
| ContactProfile.SlidingPass | FEBioMech/FEStiffnessMatrix.cpp:325-376 | one group per projected slave node, with the buffer carried from node to node and from pass to pass |
| ContactProfile.PlaceNode | FEBioMech/FEStiffnessMatrix.cpp:356-372 | the slot-by-slot writes place the slave and master nodes |
| ContactProfile.TiedLayout | FEBioMech/FEStiffnessMatrix.cpp:707-725 | a tied group has the slave node in slot 0, the master nodes next, and -1 after |
| ContactProfile.TiedPass | FEBioMech/FEStiffnessMatrix.cpp:698-729 | one tied group per projected slave node |
| ContactProfile.PeriodicPass | FEBioMech/FEStiffnessMatrix.cpp:804-839 | one periodic group per slave node, from a zeroed buffer reused from node to node |
| ContactProfile.ConstraintPass | FEBioMech/FEStiffnessMatrix.cpp:852-907 | one group per slave node; the reference node's group is filled but never added |
| ContactProfile.WallGroupsMembers | FEBioMech/FEStiffnessMatrix.cpp:917-930 | a wall group is exactly the six ids of a node whose gap is not negative |
| ContactProfile.WallPass | FEBioMech/FEStiffnessMatrix.cpp:911-931 | the node loop adds those groups in node order |
| ContactProfile.AddContactInterface | FEBioMech/FEStiffnessMatrix.cpp:306-932 | each interface kind adds its own groups, pass by pass; an unknown kind adds none |
| ContactProfile.ContactGroupsFromActive | FEBioMech/FEStiffnessMatrix.cpp:290-294 | every contact group comes from an active interface |
| ContactProfile.AddContacts | FEBioMech/FEStiffnessMatrix.cpp:287-295 | the contact pass adds the groups of the active interfaces in order |
| StiffnessProfile.ElementGroupsMembers | FEBioMech/FEStiffnessMatrix.cpp:89-97 | a group of a non-UT4 domain is exactly the ids of a non-rigid element |
| StiffnessProfile.Ut4Parts | FEBioMech/FEStiffnessMatrix.cpp:114-121 | a UT4 node group's parts are the first 4*MAX_NDOFS ids of each element around the node |
| StiffnessProfile.Ut4GroupLayout | FEBioMech/FEStiffnessMatrix.cpp:114-122 | cut every 4*MAX_NDOFS entries, the node group gives each element's ids in the node's element order |
| StiffnessProfile.Ut4Group | FEBioMech/FEStiffnessMatrix.cpp:114-122 | the node group is filled element by element |
| StiffnessProfile.AddDomain | FEBioMech/FEStiffnessMatrix.cpp:85-125 | a UT4 domain adds one group per node with elements, any other domain one per non-rigid element |
| StiffnessProfile.BodyGroups | FEBioMech/FEStiffnessMatrix.cpp:129-139 | each rigid body contributes one group, its six LM entries |
| StiffnessProfile.AddBodies | FEBioMech/FEStiffnessMatrix.cpp:129-139 | the loop adds the rigid-body groups in order |
| StiffnessProfile.FirstLink | FEBioMech/FEStiffnessMatrix.cpp:172-193 | a constraint found is named in the node's row |
| StiffnessProfile.FirstLinkIsFirst | FEBioMech/FEStiffnessMatrix.cpp:172-193 | the scan finds the first degree of freedom that names a constraint, and none exactly when none does |
| StiffnessProfile.FindLink | FEBioMech/FEStiffnessMatrix.cpp:172-193 | the loop with its early break finds the first linked degree of freedom |
| StiffnessProfile.AddNodeLinks | FEBioMech/FEStiffnessMatrix.cpp:169-195 | each linked node of an element adds the element's ids followed by the first constraint's slave ids |
| StiffnessProfile.AddElementLinks | FEBioMech/FEStiffnessMatrix.cpp:159-197 | cross groups come only from non-rigid elements |
| StiffnessProfile.FlattenMembers | FEBioMech/FEStiffnessMatrix.cpp:204-217 | an id is in the constraint group exactly when it is a slave id of some linear constraint |
| StiffnessProfile.FlattenLength | FEBioMech/FEStiffnessMatrix.cpp:206-208 | the constraint group's length is the sum of all slave counts |
| StiffnessProfile.FlattenBlock | FEBioMech/FEStiffnessMatrix.cpp:209-216 | constraint n's slave ids sit at offset SlaveCount of the constraints before it |
| StiffnessProfile.FlattenLayout | FEBioMech/FEStiffnessMatrix.cpp:204-217 | the constraint group lists every constraint's slave ids together, in constraint order |
| StiffnessProfile.AddSlaves | FEBioMech/FEStiffnessMatrix.cpp:204-217 | the counting and filling loops build the constraint group |
| StiffnessProfile.AddLinearConstraints | FEBioMech/FEStiffnessMatrix.cpp:144-218 | with linear constraints, the cross groups and then the constraint group; otherwise nothing |
| StiffnessProfile.PointSlots | FEBioMech/FEStiffnessMatrix.cpp:228-239 | the intended slots are the node's x, y, z ids, then those of the element's eight nodes |
| StiffnessProfile.PointLMLayout | FEBioMech/FEStiffnessMatrix.cpp:228-239 | cut every three entries, the intended group gives the node and then the element's nodes in order |
| StiffnessProfile.PointGroup | FEBioMech/FEStiffnessMatrix.cpp:228-240 | the intended group is filled node by node |
| StiffnessProfile.PointLMAsWritten | FEBioMech/FEStiffnessMatrix.cpp:228-239 | the group as written has 27 entries |
| StiffnessProfile.PointGroupAsWritten | FEBioMech/FEStiffnessMatrix.cpp:233-239 | the loop as written writes only the first element node, and only while the leftover counter is below 8, leaving the counter at max(i, 8) |
| StiffnessProfile.PointLMAsWrittenMisses | FEBioMech/FEStiffnessMatrix.cpp:233 | when the element's second node has a nonzero x id, the group as written differs from the intended one |
| StiffnessProfile.AddNonlinear | FEBioMech/FEStiffnessMatrix.cpp:220-271 | point constraints (with the intended group), augmented linear constraint sets and rigid joints add their groups in order; others add none |
| StiffnessProfile.BuildStatic | FEBioMech/FEStiffnessMatrix.cpp:75-277 | the static profile is domains, rigid bodies, linear constraints and nonlinear constraints (point constraints with the intended group), in that order |
| StiffnessProfile.ProfileBuilder.constructor | FEBioMech/FEStiffnessMatrix.cpp:63 | the cache starts empty |
| StiffnessProfile.ProfileBuilder.Create | FEBioMech/FEStiffnessMatrix.cpp:47-296 | after a reset the cache is the model's static profile; otherwise it is unchanged; the profile is the cache followed by the active contacts' groups |
| StiffnessProfile.ReuseStatic | FEBioMech/FEStiffnessMatrix.cpp:278-282 | a call without reset after any call returns the same profile when the contacts are unchanged, whatever the static data |

## Left out

- Geometry is not modelled. This means `FindIntersection`, `Intersect`, `Local2Global`, normals, shape functions and the mesh bounding-box radius. A `Probe` per integration point gives the projection outcome, gap and pressure difference. `Update` takes the radius as a number.
- Nodal traction recovery, by matrix inverse or least squares, is not modelled. The recovered tractions are inputs: one per element node, plus one per secondary node where it projects.
- Node normals (`UpdateNodeNormals`) and the stored `m_nu`/`m_rs` are left out; they are floating-point geometry.
- Contact forces and stiffness entries are left out, and so are element integrals and constitutive laws; these are floating-point numerics. Only the equation lists (`LM`) of the contact pair are modelled.
- Norms are not recomputed from vectors except where the solver takes them directly. Norms after the line search come from the `Observation` of each iteration.
- `SolveEquations`, `LineSearch`, the BFGS `Update` and `ReformStiffness` are outside the model. Their results, success flags and the update count enter as an `Observation` per iteration.
- `MultiphasicSolver.MultiphasicSolver.Quasin`: the do-while of the source has no bound. The model runs over a finite sequence of observations, and running out of them leaves the step unconverged.
- The NaN check, logging, callbacks and timers are left out: they do not change the state modelled.
- `UpdateKinematics`, `UpdateContact`, `Residual` and `StiffnessMatrix` apart from the reaction and rigid-diagonal loops are left out. The same goes for the velocity update in `UpdatePoro`/`UpdateSolute` and the filling of `m_Ut` in `Init`. They are geometry or calls into code not shown.
- `MultiphasicSolver.MultiphasicSolver.constructor` models `InitEquations` together with the allocation part of `Init`. The base-class numbering is not modelled; node ids are given.
- `FESlidingInterface2::Init` is left out. It calls the surface `Init`s, `Update` and overrides `maxups`, which is base-class code not shown. `FESlidingInterface2::Serialize` is empty.
- `SlidingInterface2.SlidingInterface.Update`: every node is assumed to belong to one surface. Mesh nodes shared by both surfaces are not modelled as aliased.
- The integer widths of ids and counters are not modelled; ids are unbounded integers.
- `FEGlobalMatrix::build_begin/add/flush/end` and `neq` are left out: their filtering of groups lives in code not shown. The profile is the sequence of groups handed to `build_add`.
- `StiffnessProfile.ProfileBuilder.Create`: the function-level static `MP` is a field of the builder, so it is shared by all calls on that builder rather than by every builder.
- The UT4 node loop runs over the mesh nodes (`nel` holds one entry per mesh node). `LM` is cut to `4*MAX_NDOFS` ids per element, with `MAX_NDOFS` read from the model.
- `m_LCA[n]` is taken to be linear constraint `n` of `m_LinC`.
- Tied-biphasic interfaces index `m_pme` with a running point counter. The model stores the projections per element and point, which is the same traversal.
- Node-on-facet sliding writes a fixed buffer of 7 slots, so its master elements are required to have at most 6 nodes. More nodes would write past the buffer in the source.
- Periodic and surface-constraint interfaces dereference `m_pme[j]` without a null test, so every slave node is required to be projected.
- Contact kinds the builder tests with `dynamic_cast` that are not among the modelled ones add nothing (`OtherContact`). The same holds for unknown nonlinear constraints (`OtherConstraint`).
- `BlockMatrix.BlockMatrix.FindPartition`: only the header's comment is shown. The model returns -1 for an equation outside every partition, which is a choice of this model.
- Block storage (`BLOCK` and its sparse matrices) and matrix operations of the block matrix are left out.
- Stress and elasticity tensors are sequences of their independent components. The components' constitutive laws are inputs: their stresses and tangents at the material point, and their bulk moduli after their own `Init`.
- `StiffnessProfile.PointGroupAsWritten` takes the counter `i` left over from earlier code in `Create` as a parameter; how that counter got its value is not modelled.
- `StiffnessProfile.AddNonlinear` adds the intended point-constraint group (`PointLM`), not the one FEStiffnessMatrix.cpp:233 builds. That group depends on the counter `i` left over from the linear-constraint loops, which the builder does not model; `PointGroupAsWritten` and the first finding show the difference.
- `StiffnessProfile.BuildStatic` inherits this: its static profile holds the intended point-constraint groups, not the source's.
- `StiffnessProfile.ProfileBuilder.Create` inherits it too, through `BuildStatic`.
- `MultiphasicSolver.MultiphasicSolver.Quasin` requires `niter == 0`. The base-class `FESolidSolver::PrepStep`, called at FEMultiphasicSolver.cpp:195, is not part of this model; the reset of the iteration counter is taken to happen there.
- `MultiphasicSolver.MultiphasicSolver.Quasin` does not advance `nrhs`. The count advances in `Residual` (FEMultiphasicSolver.cpp:621), which the step calls at its start, in every iteration through the line search, and after an unconverged augmentation. `Residual` is outside the model apart from its reaction recovery, so only `RecoverReactions` advances `nrhs`.
- The restart archive is a stream of typed entries. The solver's base-class part of `Serialize` is left out.

## Findings

| source | as written | input that shows it | evidently intended | confidence | as-written member | corrected member |
|---|---|---|---|---|---|---|
| FEBioMix/FEMultiphasicSolver.cpp:958-960 | loading reads `m_ndeq` and `m_npeq` twice, but saving writes them once | any saved solver: the second read of `m_ndeq` meets the concentration tolerance | each field is read once, in the order written | not executed | SolverArchive.LoadAsWrittenFails | SolverArchive.LoadSave |
| FEBioMech/FEStiffnessMatrix.cpp:233 | `for (j=0; i<8; ++i)` tests and advances the leftover `i` while `j` stays 0, so only the element's first node is written, and only when `i < 8` | a point constraint whose element's second node has a nonzero x id: entry 6 of the group is 0 instead of that id | x, y, z ids of all eight element nodes in slots 1 to 8 | not executed | StiffnessProfile.PointLMAsWrittenMisses | StiffnessProfile.PointLMLayout |
