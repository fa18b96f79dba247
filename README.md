# oomph-lib core: refinement trees, Lagrange block maps, PML DOF lookup, utilities

This project is a Dafny model of four small parts of the oomph-lib
finite-element library, with proofs of what each part promises.

- **Refinement trees** (`refinement_tree.dfy`, module `RefinementTree`).
  `Tree::split_if_required()` and `Tree::p_refine_if_required()` act on a
  forest of tree nodes. The nodes live in an arena `seq<TreeNode>` held by
  the class `TreeForest`. A node names its father and its sons by index,
  and stores its son type. Splitting a leaf whose element is flagged for
  refinement appends one new leaf per element that `split()` returns.
  p-refinement changes the polynomial order of the leaf's element by ±1.
  Each method is proved equal to a pure outcome function. Lemmas prove the
  error cases, the shape of the result and that father and son links stay
  consistent.
- **Lagrange-enforced flow preconditioner** (`block_permutation.dfy` and
  `lagrange_preconditioner.dfy`, modules `BlockPermutation` and
  `LagrangePreconditioner`). `setup()` builds several integer maps from the
  spatial dimension and the DOF-type count of each mesh:
  - `dof_to_block_map`, which sends velocities first, grouped mesh by mesh, then the pressure, then the Lagrange multipliers;
  - its inverse;
  - `Subsidiary_list_bcpl`;
  - the direction-coarsening map for the Navier-Stokes subsidiary preconditioner;
  - the list of Lagrange multiplier preconditioners.

  The imperative builders are proved equal to specification functions.
  Lemmas prove that the block map is a permutation, where each DOF type
  lands, and the worked examples given in the source comments.
- **PML Helmholtz element** (`pml_helmholtz.dfy`, module `PmlHelmholtz`).
  This covers the real/imaginary value indices and the local-equation
  lookup, with its error path for an illegal field. It also covers the
  projection helpers, the paraview scalar names, the `k_squared` accessor,
  the values to pin on the outer PML boundary, and
  `get_dof_numbers_for_unknowns()`. That last function is modelled as a
  loop over nodes that pushes (equation, DOF type) pairs to the front of a
  list.
- **Utilities** (`oomph_utilities.dfy`, module `OomphUtilities`):
  - the `AbsCmp` comparator, proved to be a strict weak order;
  - the class `Timer`;
  - the class `DocLinearSolverInfo`;
  - the class `DocInfo`, whose counter is kept as a 32-bit unsigned value.

`common.dfy` (module `Common`) holds the shared `Option`, `Result` and
`Outcome` types and the 32-bit unsigned wrap-around `AsUnsigned`.

## Model

| member | source | states |
|---|---|---|
| RefinementTree.TreeForest.SplitIfRequired | src/generic/tree.template.cc:66-132 | the forest after the call, and the outcome, are those of `SplitOutcome`: an error for a non-leaf or a leaf without an element, no change for an unflagged element, otherwise sons appended and linked; a well-formed forest stays well-formed |
| RefinementTree.SplitErrors | src/generic/tree.template.cc:70-109 | splitting fails with NonLeaf exactly when the node has sons, and with NoObject exactly when a leaf has no element; an unflagged leaf is left unchanged |
| RefinementTree.SplitCreatesSons | src/generic/tree.template.cc:109-131 | a flagged leaf gets one son per new element; son i holds the set-up i-th element, has this node as father and son type i, and is a leaf; all other nodes are unchanged |
| RefinementTree.SplitPreservesWellFormed | src/generic/tree.template.cc:113-130 | splitting keeps every father/son link consistent in both directions |
| RefinementTree.TreeForest.PRefineIfRequired | src/generic/tree.template.cc:158-251 | the forest after the call, and the outcome, are those of `PRefineOutcome`; a well-formed forest stays well-formed |
| RefinementTree.PRefineErrors | src/generic/tree.template.cc:164-210 | p-refinement fails with NonLeaf, NoObject or NotPRefineable exactly in the cases the source rejects |
| RefinementTree.PRefineChangesOnlyOrder | src/generic/tree.template.cc:219-249 | the order rises by one when p-refinement is flagged (whatever the unrefine flag says), falls by one when only p-unrefinement is flagged, and is otherwise unchanged; nothing else in the forest changes |
| RefinementTree.PRefinePreservesWellFormed | src/generic/tree.template.cc:219-249 | p-refinement keeps father/son links consistent |
| BlockPermutation.DofToBlockMapAt | src/navier_stokes/lagrange_enforced_flow_preconditioner.cc:394-419 | local DOF type k of mesh m sits at position Offset(m)+k of dof_to_block_map, with value BlockOf(m, k): velocity direction k of mesh m becomes block m*dim+k, and every other type follows the velocities in mesh order |
| BlockPermutation.BlockOfBound | src/navier_stokes/lagrange_enforced_flow_preconditioner.cc:300-308 | a DOF type maps below N_velocity_doftypes exactly when it is a velocity; the bulk pressure (type `dim` of mesh 0) maps to N_velocity_doftypes; every block is below ndof_types |
| BlockPermutation.DofToBlockMapIsPermutation | src/navier_stokes/lagrange_enforced_flow_preconditioner.cc:382-419 | dof_to_block_map has ndof_types entries, all distinct and below ndof_types |
| BlockPermutation.PermutationIsOnto | src/navier_stokes/lagrange_enforced_flow_preconditioner.cc:925-929 | every block number below ndof_types is hit by some DOF type, so the inverse map is total |
| BlockPermutation.DofToBlockMapExample | src/navier_stokes/lagrange_enforced_flow_preconditioner.cc:355-364 | with dim 3 and meshes of 4, 5 and 4 types, the map is 0 1 2 9 3 4 5 10 11 6 7 8 12, as the source comment says |
| BlockPermutation.SubsidiaryListBcplAt | src/navier_stokes/lagrange_enforced_flow_preconditioner.cc:1501-1517 | Subsidiary_list_bcpl lists the velocity DOF types mesh by mesh, each at position m*dim+k, and ends with the bulk pressure type `dim` |
| BlockPermutation.SubsidiaryListBcplFollowsBlocks | src/navier_stokes/lagrange_enforced_flow_preconditioner.cc:1501-1517 | entry i of Subsidiary_list_bcpl is the DOF type that dof_to_block_map sends to block i, for every velocity block (the pressure block is covered by SubsidiaryListBcplEndsWithPressure) |
| BlockPermutation.SubsidiaryListBcplEndsWithPressure | src/navier_stokes/lagrange_enforced_flow_preconditioner.cc:1515-1517 | the list has N_fluid_doftypes entries and its last one is the pressure |
| BlockPermutation.SubsidiaryListBcplExample | src/navier_stokes/lagrange_enforced_flow_preconditioner.cc:1518-1528 | with the artificial test data, the list is 0 1 2 4 5 6 9 10 11 3, as the source comment says |
| BlockPermutation.CoarseningMapGroupsDirections | src/navier_stokes/lagrange_enforced_flow_preconditioner.cc:1293-1312 | coarsened type d < dim collects velocity direction d of every mesh; the last coarsened type is the pressure alone |
| BlockPermutation.CoarseningMapDisjoint | src/navier_stokes/lagrange_enforced_flow_preconditioner.cc:1293-1312 | two velocity entries of the coarsening map are equal only when their direction and mesh agree, so no fine type is coarsened twice |
| BlockPermutation.CoarseningMapExample | src/navier_stokes/lagrange_enforced_flow_preconditioner.cc:1279-1290 | with dim 3 and 3 meshes the map is u [0,3,6], v [1,4,7], w [2,5,8], p [9], as the source comment says |
| LagrangePreconditioner.BuildDofToBlockMap | src/navier_stokes/lagrange_enforced_flow_preconditioner.cc:382-419 | the array filled mesh by mesh equals `DofToBlockMap` |
| LagrangePreconditioner.InvertDofToBlockMap | src/navier_stokes/lagrange_enforced_flow_preconditioner.cc:925-929 | the result is the two-sided inverse of a permutation dof_to_block_map |
| LagrangePreconditioner.BuildSubsidiaryListBcpl | src/navier_stokes/lagrange_enforced_flow_preconditioner.cc:1501-1517 | the two-part list built by the loops equals `SubsidiaryListBcpl` |
| LagrangePreconditioner.BuildCoarseningMap | src/navier_stokes/lagrange_enforced_flow_preconditioner.cc:1293-1312 | the nested loops build `CoarseningMap` |
| LagrangePreconditioner.TotalDofTypes | src/navier_stokes/lagrange_enforced_flow_preconditioner.cc:269-281 | the loop sums the DOF-type counts of all meshes |
| LagrangePreconditioner.LagrangeEnforcedFlowPreconditioner.CleanUpMemory | src/navier_stokes/lagrange_enforced_flow_preconditioner.cc:1635-1657 | the block setup of the base class (the block map and its inverse) is cleared and the list of Lagrange multiplier preconditioners is emptied; the counts and the DOF-type cache are kept |
| LagrangePreconditioner.LagrangeEnforcedFlowPreconditioner.FillDofTypesCache | src/navier_stokes/lagrange_enforced_flow_preconditioner.cc:190-196 | My_ndof_types_in_mesh holds each mesh's count afterwards, and is filled only if empty |
| LagrangePreconditioner.LagrangeEnforcedFlowPreconditioner.SetUpBlockMaps | src/navier_stokes/lagrange_enforced_flow_preconditioner.cc:300-434 | the three counts are set, the block map is `DofToBlockMap` and a permutation, and the stored inverse is its two-sided inverse |
| LagrangePreconditioner.LagrangeEnforcedFlowPreconditioner.SetUpLagrangePreconditioners | src/navier_stokes/lagrange_enforced_flow_preconditioner.cc:1584-1618 | one preconditioner per Lagrange multiplier, the l-th given the block number N_fluid_doftypes + l, in order |
| LagrangePreconditioner.LagrangeEnforcedFlowPreconditioner.Setup | src/navier_stokes/lagrange_enforced_flow_preconditioner.cc:164-308 | fails exactly with no meshes, with a subsidiary count mismatch, or with a Navier-Stokes preconditioner that is not a block preconditioner; the first two failures leave the three counts as they were and the block maps cleared; on success all maps are their specifications and the Lagrange preconditioners exist, on failure none do |
| PmlHelmholtz.UIndexHelmholtz | src/pml_helmholtz/pml_helmholtz_elements.h:151-152 | the real part is nodal value 0 and the imaginary part is nodal value 1 |
| PmlHelmholtz.LocalEquation | src/pml_helmholtz/pml_helmholtz_elements.h:1181-1208 | field 0 or 1 gives the nodal local equation of the real or imaginary value; any other field is an error |
| PmlHelmholtz.DataValuesOfField | src/pml_helmholtz/pml_helmholtz_elements.h:1012-1042 | for field 0 or 1, one (node j, value fld) pair per node in node order; any other field is an error |
| PmlHelmholtz.NValueOfField | src/pml_helmholtz/pml_helmholtz_elements.h:1161-1177 | each of the two fields has one value per node; any other field is an error |
| PmlHelmholtz.ProjectionFieldsAgree | src/pml_helmholtz/pml_helmholtz_elements.h:1045-1048 | data_values_of_field, nvalue_of_field and local_equation accept the same fields, the first of them lists nvalue_of_field entries, and every entry names a value of the field |
| PmlHelmholtz.ScalarNameParaview | src/pml_helmholtz/pml_helmholtz_elements.h:242-272 | scalar 0 is "Real part", scalar 1 is "Imaginary part", any other is an error |
| PmlHelmholtz.ScalarNamesCoverScalars | src/pml_helmholtz/pml_helmholtz_elements.h:182-185 | exactly the nscalar_paraview scalars have names |
| PmlHelmholtz.KSquared | src/pml_helmholtz/pml_helmholtz_elements.h:159-171 | an unset k-squared pointer is an error; a set one yields its value |
| PmlHelmholtz.ValuesToBePinnedOnOuterPmlBoundary | src/pml_helmholtz/pml_helmholtz_elements.h:417-424 | whatever was passed in, the result is exactly the real and imaginary value indices |
| PmlHelmholtz.GetDofNumbersForUnknowns | src/pml_helmholtz/pml_helmholtz_elements.h:627-671 | the list afterwards is the nodes' lookups pushed to the front, last node first, followed by the list passed in |
| PmlHelmholtz.PushNodeLookups | src/pml_helmholtz/pml_helmholtz_elements.h:637-670 | one node's free real and imaginary values are pushed to the front, imaginary first, with DOF types 0 and 1 |
| PmlHelmholtz.DofLookupsBounded | src/pml_helmholtz/pml_helmholtz_elements.h:616-671 | the lookups of k nodes are at most 2k entries, each with a DOF type below ndof_types() = 2 |
| PmlHelmholtz.DofLookupsExactlyFreeValues | src/pml_helmholtz/pml_helmholtz_elements.h:640-669 | a pair is in the lookups exactly when it records a free (non-negative local equation) real or imaginary value of some node, with its global equation and matching DOF type |
| PmlHelmholtz.DofLookupsReverseNodeOrder | src/pml_helmholtz/pml_helmholtz_elements.h:627-671 | the lookups are the node-order lookups reversed, the effect of push_front |
| PmlHelmholtz.NdofTypes | src/pml_helmholtz/pml_helmholtz_elements.h:616-619 | there is one DOF type per field: the DOF types are exactly the fields that nvalue_of_field accepts |
| PmlHelmholtz.NFieldsForProjection | src/pml_helmholtz/pml_helmholtz_elements.h:1045-1048 | the fields to project are exactly those that data_values_of_field accepts |
| PmlHelmholtz.NScalarParaview | src/pml_helmholtz/pml_helmholtz_elements.h:182-185 | the scalars counted are exactly those that scalar_name_paraview names |
| OomphUtilities.DocLinearSolverInfo.CurrentNTimeStep | src/generic/oomph_utilities.h:407-408 | the number of time steps set up, zero exactly when none is; SetupNewTimeStep raises it by one and AddIterationAndTime keeps it |
| OomphUtilities.DocLinearSolverInfo.CurrentNNewtonStep | src/generic/oomph_utilities.h:411-412 | the number of records in the last time step; SetupNewTimeStep resets it to zero and a successful AddIterationAndTime raises it by one |
| OomphUtilities.DocInfo.IsDocEnabled | src/generic/oomph_utilities.h:468 | the documentation flag, which EnableDoc sets and DisableDoc clears |
| RefinementTree.TreeForest.constructor | src/generic/tree.template.cc:113-130 | a forest of root trees, each holding its element with no father, no sons and son type -1, so the father/son links that split_if_required maintains hold from the start (the tree constructors are not part of this model) |
| LagrangePreconditioner.LagrangeEnforcedFlowPreconditioner.constructor | src/navier_stokes/lagrange_enforced_flow_preconditioner.cc:255-268 | the preconditioner starts with an empty DOF-type cache and no Lagrange preconditioners; its requires state the layout the source assumes in its comments (each mesh's velocity types first, the pressure in the bulk mesh, and for a master preconditioner ndof_types() equal to the meshes' sum) |
| OomphUtilities.AbsCmp | src/generic/oomph_utilities.h:97-100 | x compares below y exactly when the absolute value of x is below that of y |
| OomphUtilities.AbsCmpIsStrictWeakOrder | src/generic/oomph_utilities.h:91-101 | the comparator is irreflexive, asymmetric and transitive, and incomparability (equal magnitudes) is transitive, as std::sort requires |
| OomphUtilities.StartThenHaltAddsElapsed | src/generic/oomph_utilities.h:248-257 | start at t0 then halt at t1 adds t1 - t0 to timer i and changes no other timer |
| OomphUtilities.ResizeShrinkGrow | src/generic/oomph_utilities.h:282-286 | shrinking and then growing the timers keeps the surviving entries and zeroes the rest |
| OomphUtilities.Timer.constructor | src/generic/oomph_utilities.h:242-245 | n timers, all at zero |
| OomphUtilities.Timer.Start | src/generic/oomph_utilities.h:248-251 | only timer i's start time changes, to now |
| OomphUtilities.Timer.Halt | src/generic/oomph_utilities.h:254-257 | timer i accumulates now - start time; nothing else changes |
| OomphUtilities.Timer.CumulativeTime | src/generic/oomph_utilities.h:260-263 | the accumulated ticks of timer i divided by clocks per second |
| OomphUtilities.Timer.Reset | src/generic/oomph_utilities.h:266-269 | only timer i's accumulated time becomes zero |
| OomphUtilities.Timer.ResetAll | src/generic/oomph_utilities.h:272-279 | every accumulated time becomes zero and every start time is kept |
| OomphUtilities.Timer.SetNTimers | src/generic/oomph_utilities.h:282-286 | both vectors get the new size, existing entries are kept and new ones are zero |
| OomphUtilities.DocLinearSolverInfo.constructor | src/generic/oomph_utilities.h:373-374 | no time steps recorded |
| OomphUtilities.DocLinearSolverInfo.SetupNewTimeStep | src/generic/oomph_utilities.h:377-382 | one more, empty, time step; earlier steps unchanged |
| OomphUtilities.DocLinearSolverInfo.AddIterationAndTime | src/generic/oomph_utilities.h:385-404 | with no time step this is an error and nothing changes; otherwise the record (iterations, setup time, solve time) is appended to the last time step only |
| OomphUtilities.DocInfo.constructor | src/generic/oomph_utilities.h:442-444 | directory ".", doc enabled, number 0, empty label, a missing directory only warned about |
| OomphUtilities.DocInfo.InDirectory | src/generic/oomph_utilities.h:447-450 | the same defaults with the given directory |
| OomphUtilities.DocInfo.EnableDoc | src/generic/oomph_utilities.h:462 | doc is enabled; nothing else changes |
| OomphUtilities.DocInfo.DisableDoc | src/generic/oomph_utilities.h:465 | doc is disabled; nothing else changes |
| OomphUtilities.DocInfo.IncrementNumber | src/generic/oomph_utilities.h:471 | the counter goes up by one, modulo 2^32 as an unsigned does |
| OomphUtilities.DocInfo.SetNumber | src/generic/oomph_utilities.h:471 | the counter is set (as an unsigned, modulo 2^32) |
| OomphUtilities.DocInfo.SetLabel | src/generic/oomph_utilities.h:483 | the label is replaced; nothing else changes |
| OomphUtilities.DocInfo.EnableErrorIfDirectoryDoesNotExist | src/generic/oomph_utilities.h:489 | a missing directory becomes an error |
| OomphUtilities.DocInfo.DisableErrorIfDirectoryDoesNotExist | src/generic/oomph_utilities.h:492 | a missing directory is only warned about |
| Common.AsUnsigned | src/generic/oomph_utilities.h:471 | the value reduced modulo 2^32, below 2^32 and unchanged when already below |

## Left out

- Matrix work in the preconditioner (extracting, scaling and adding blocks, the W-block approximation, and the solves in preconditioner_solve) is not modelled. Only the integer maps are.
- The Lagrange multiplier sub-preconditioner objects are represented by the number N_fluid_doftypes + l that setup() passes to each of them when it is a block preconditioner. That number is a block number of the master preconditioner, not a natural DOF type. The linear algebra the objects wrap is out of scope.
- The unsigned arithmetic of the preconditioner's counts (`nmesh * dim` and its sums) is modelled on unbounded naturals, since realistic counts are far below 2^32.
- The layout assumptions that the preconditioner states only in comments become requirements on its constructor (velocities first in each mesh, the pressure in the bulk mesh, `ndof_types()` equal to the sum for a master preconditioner). These are the `Valid()` predicate.
- Matrices, the problem pointer and the mesh pointers of the preconditioner (set_meshes, set_navier_stokes_preconditioner and similar setters) are left out. The model is constructed directly from the values that setup() reads from them.
- LagrangePreconditioner.LagrangeEnforcedFlowPreconditioner.Setup: the not-a-block-preconditioner error (source lines 1238-1257) is returned after the block maps are built. On that failure, nothing after the check happens in the model.
- LagrangePreconditioner.LagrangeEnforcedFlowPreconditioner.CleanUpMemory: `clear_block_preconditioner_base()` is modelled only as clearing the block map and its inverse. The rest of the base class's memory (stored matrices, mesh pointers, block distributions) is not part of this model. The inverse is a local of setup() in the source; the model keeps it as a field.
- RefinementTree.TreeForest.SplitIfRequired: `split()`, `initial_setup()` and `construct_son()` are element and tree virtuals. They are abstracted: the new elements are a parameter, and set-up only marks an element as set up.
- RefinementTree.TreeForest.PRefineIfRequired: the clone element that the source builds to copy the node pointers, and its deletion, are not modelled. Only the order change reaches the forest.
- The NoObject error path of split_if_required reads the father pointer for its message, which fails on a root. Error messages are not modelled, only the error.
- Checks that the source performs only under PARANOID are modelled as errors that always happen, as if PARANOID were defined. The build without PARANOID is not modelled. Each bullet says what that build does instead:
  - RefinementTree.TreeForest.SplitIfRequired: NonLeaf. Without PARANOID a flagged non-leaf resizes its son list and builds new sons over the old ones (tree.template.cc:109-130).
  - RefinementTree.TreeForest.SplitIfRequired: NoObject. Without PARANOID the missing element is dereferenced at the refinement flag.
  - RefinementTree.TreeForest.PRefineIfRequired: NonLeaf. Without PARANOID a non-leaf's element is p-refined like a leaf's.
  - RefinementTree.TreeForest.PRefineIfRequired: NoObject. Without PARANOID the cast of the missing element yields null, and the source reports the NotPRefineable error instead.
  - The NotPRefineable error (the failed cast) is not among these checks: the source performs it in every build.
  - LagrangePreconditioner.LagrangeEnforcedFlowPreconditioner.Setup: NoMeshes. Without PARANOID the first mesh pointer is read for the spatial dimension although no mesh is set.
  - LagrangePreconditioner.LagrangeEnforcedFlowPreconditioner.Setup: DofTypeCountMismatch. Without PARANOID setup() goes on and builds the maps from the mismatched counts (lines 300-419).
  - LagrangePreconditioner.LagrangeEnforcedFlowPreconditioner.Setup: NotBlockPreconditioner. Without PARANOID a static cast takes the place of the check, and the Navier-Stokes preconditioner is used as a block preconditioner whatever it is.
  - PmlHelmholtz.LocalEquation: IllegalField. Without PARANOID a field above 1 takes the else branch and returns the imaginary value's local equation.
  - PmlHelmholtz.DataValuesOfField: IllegalField. Without PARANOID a field above 1 gives the (node j, fld) pairs for every node.
  - PmlHelmholtz.NValueOfField: IllegalField. Without PARANOID a field above 1 gives nnode().
  - PmlHelmholtz.KSquared: KSquaredNotSet. Without PARANOID the null pointer is dereferenced.
  - OomphUtilities.DocLinearSolverInfo.AddIterationAndTime: NoTimeStep. Without PARANOID `back()` is called on an empty vector.
- PmlHelmholtz.ScalarNameParaview: without PARANOID the source returns " " for an illegal scalar. The model always reports the error.
- PmlHelmholtz.GetDofNumbersForUnknowns: the global equation is stored through a `pair<unsigned, unsigned>`. The model keeps that 32-bit truncation (`AsUnsigned`) and does not model a 64-bit `unsigned long`.
- The residual and Jacobian assembly, the shape functions, the PML stretching functions, output and paraview writers, and the other projection helpers (history values, current field values, time steppers) of the PML element are not modelled.
- The wall clock (`clock()`) is a parameter `now` of Timer.Start and Timer.Halt. `clock_t` is modelled as an unbounded integer, and CumulativeTime as an exact real.
- OomphUtilities.DocInfo: `set_directory()` (a filesystem check) and `number_as_string()` (string formatting) are not modelled. Neither is the file output of DocLinearSolverInfo.
- OomphUtilities.AbsCmp: the comparator is a template over `T`. The model uses exact `real` values, so NaN and rounding are excluded. AbsCmpIsStrictWeakOrder holds only for that model: with NaN, NaN is incomparable with both 1 and 2 while 1 comes before 2, so incomparability is not transitive.
- OomphUtilities.DocLinearSolverInfo: the times stored as `double` are exact `real` values in the model, with NaN and rounding excluded. The iteration count converted by `(double)iter` is exact too.
- OomphUtilities.DocLinearSolverInfo.CurrentNNewtonStep: the model requires at least one time step, where the source would index an empty vector.
