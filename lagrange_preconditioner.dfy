/** The integer bookkeeping of LagrangeEnforcedflowPreconditioner::setup():
    the loops that build dof_to_block_map, its inverse, Subsidiary_list_bcpl
    and the subsidiary DOF-type coarsening map, and the preconditioner's own
    state between setup() and clean_up_memory(). The matrix work is not
    part of this model. */
module LagrangePreconditioner {
  import opened Common
  import opened BlockPermutation

  /** One inner loop of the fill: `len` times
      `dof_to_block_map[temp_index++] = value++`; returns both counters. */
  method WriteConsecutive(blocks: array<nat>, start: nat, first: nat, len: nat)
    returns (tempIndex: nat, value: nat)
    requires start + len <= blocks.Length
    modifies blocks
    ensures tempIndex == start + len && value == first + len
    ensures blocks[..start + len] == old(blocks[..start]) + Consecutive(first, len)
  {
    tempIndex, value := start, first;
    while tempIndex < start + len
      invariant start <= tempIndex <= start + len
      invariant value == first + (tempIndex - start)
      invariant blocks[..tempIndex] == old(blocks[..start]) + Consecutive(first, tempIndex - start)
    {
      blocks[tempIndex] := value;
      assert blocks[..tempIndex + 1] == blocks[..tempIndex] + [value];
      tempIndex, value := tempIndex + 1, value + 1;
    }
  }

  /** The body of the mesh loop for mesh `meshI`: its velocity DOF types
      take the next `dim` velocity blocks, its other types the next
      pressure / Lagrange blocks. Returns the three counters. */
  method FillNextMesh(blocks: array<nat>, dim: nat, counts: seq<nat>, meshI: nat,
                      tempIndex: nat, velocityVal: nat, pressureLgrVal: nat)
    returns (nextIndex: nat, nextVelocityVal: nat, nextPressureLgrVal: nat)
    requires VelocityFirst(dim, counts) && meshI < |counts|
    requires tempIndex == Offset(counts, meshI) <= blocks.Length
    requires Offset(counts, meshI + 1) <= blocks.Length
    requires velocityVal == meshI * dim
    requires pressureLgrVal == |counts| * dim + OthersBefore(dim, counts, meshI)
    requires blocks[..tempIndex] == BlockMapPrefix(dim, counts, meshI)
    modifies blocks
    ensures nextIndex == Offset(counts, meshI + 1)
    ensures nextVelocityVal == (meshI + 1) * dim
    ensures nextPressureLgrVal == |counts| * dim + OthersBefore(dim, counts, meshI + 1)
    ensures blocks[..nextIndex] == BlockMapPrefix(dim, counts, meshI + 1)
  {
    OffsetStep(counts, meshI);
    MulStep(meshI, dim);
    var nOther := counts[meshI] - dim;
    nextIndex, nextVelocityVal := WriteConsecutive(blocks, tempIndex, velocityVal, dim);
    ghost var velocity := blocks[..nextIndex];
    nextIndex, nextPressureLgrVal := WriteConsecutive(blocks, nextIndex, pressureLgrVal, nOther);
    assert blocks[..nextIndex] == BlockMapPrefix(dim, counts, meshI) + VelocityBlocks(dim, meshI) + OtherBlocks(dim, counts, meshI);
  }

  /** Fills dof_to_block_map mesh by mesh with three running counters:
      the next entry, the next velocity block and the next pressure /
      Lagrange block. */
  method BuildDofToBlockMap(dim: nat, counts: seq<nat>, nDofTypes: nat) returns (dofToBlock: seq<nat>)
    requires VelocityFirst(dim, counts) && Sum(counts) == nDofTypes
    ensures dofToBlock == DofToBlockMap(dim, counts)
  {
    var blocks := new nat[nDofTypes](_ => 0);
    var tempIndex: nat := 0;
    var velocityVal: nat := 0;
    var pressureLgrVal: nat := |counts| * dim;
    OffsetAll(counts);
    var meshI := 0;
    while meshI < |counts|
      invariant meshI <= |counts|
      invariant tempIndex == Offset(counts, meshI) <= blocks.Length
      invariant velocityVal == meshI * dim
      invariant pressureLgrVal == |counts| * dim + OthersBefore(dim, counts, meshI)
      invariant blocks[..tempIndex] == BlockMapPrefix(dim, counts, meshI)
    {
      OffsetMono(counts, meshI + 1, |counts|);
      tempIndex, velocityVal, pressureLgrVal :=
        FillNextMesh(blocks, dim, counts, meshI, tempIndex, velocityVal, pressureLgrVal);
      meshI := meshI + 1;
    }
    assert blocks[..] == blocks[..tempIndex];
    dofToBlock := blocks[..];
  }

  /** temp_block_to_dof_map: written by indexed assignment, one entry per
      DOF type. It inverts dof_to_block_map on both sides. */
  method InvertDofToBlockMap(dofToBlock: seq<nat>, nDofTypes: nat) returns (blockToDof: seq<nat>)
    requires IsPermutation(dofToBlock, nDofTypes)
    ensures |blockToDof| == nDofTypes
    ensures forall d :: 0 <= d < nDofTypes ==> blockToDof[dofToBlock[d]] == d
    ensures forall b :: 0 <= b < nDofTypes ==> blockToDof[b] < nDofTypes && dofToBlock[blockToDof[b]] == b
  {
    var inverse := new nat[nDofTypes](_ => 0);
    var dofI := 0;
    while dofI < nDofTypes
      invariant dofI <= nDofTypes
      invariant forall d :: 0 <= d < dofI ==> inverse[dofToBlock[d]] == d
    {
      inverse[dofToBlock[dofI]] := dofI;
      dofI := dofI + 1;
    }
    blockToDof := inverse[..];
    forall b | 0 <= b < nDofTypes
      ensures blockToDof[b] < nDofTypes && dofToBlock[blockToDof[b]] == b
    {
      PermutationIsOnto(dofToBlock, nDofTypes, b);
    }
  }

  /** Subsidiary_list_bcpl: for each mesh, its velocity DOF types found
      from the running sum of the earlier meshes' counts, then `dim`. */
  method BuildSubsidiaryListBcpl(dim: nat, counts: seq<nat>) returns (list: seq<nat>)
    ensures list == SubsidiaryListBcpl(dim, counts)
  {
    var partialSumIndex := 0;
    list := [];
    var meshI := 0;
    while meshI < |counts|
      invariant meshI <= |counts|
      invariant partialSumIndex == Offset(counts, meshI)
      invariant list == VelocityDofsPrefix(dim, counts, meshI)
    {
      ghost var done := list;
      var dimI := 0;
      while dimI < dim
        invariant dimI <= dim
        invariant list == done + Consecutive(partialSumIndex, dimI)
      {
        list := list + [partialSumIndex + dimI];
        dimI := dimI + 1;
      }
      OffsetStep(counts, meshI);
      partialSumIndex := partialSumIndex + counts[meshI];
      meshI := meshI + 1;
    }
    list := list + [dim];
  }

  /** The subsidiary DOF-type coarsening map: one list per direction over
      the meshes, then the single pressure entry. */
  method BuildCoarseningMap(dim: nat, nmesh: nat) returns (coarsening: seq<seq<nat>>)
    ensures coarsening == CoarseningMap(dim, nmesh)
  {
    coarsening := [];
    var direction := 0;
    while direction < dim
      invariant direction <= dim
      invariant |coarsening| == direction
      invariant forall d :: 0 <= d < direction ==> coarsening[d] == CoarseningMap(dim, nmesh)[d]
    {
      var dirDoftypes := new nat[nmesh](_ => 0);
      var meshI := 0;
      while meshI < nmesh
        invariant meshI <= nmesh
        invariant forall m :: 0 <= m < meshI ==> dirDoftypes[m] == dim * m + direction
      {
        dirDoftypes[meshI] := dim * meshI + direction;
        meshI := meshI + 1;
      }
      coarsening := coarsening + [dirDoftypes[..]];
      direction := direction + 1;
    }
    coarsening := coarsening + [[nmesh * dim]];
  }

  /** The number of DOF types the meshes classify, summed mesh by mesh. */
  method TotalDofTypes(counts: seq<nat>) returns (total: nat)
    ensures total == Sum(counts)
  {
    total := 0;
    var meshI := 0;
    while meshI < |counts|
      invariant meshI <= |counts|
      invariant total == Offset(counts, meshI)
    {
      OffsetStep(counts, meshI);
      total := total + counts[meshI];
      meshI := meshI + 1;
    }
    OffsetAll(counts);
  }

  datatype SetupError =
    | NoMeshes                 // setup() before set_meshes()
    | DofTypeCountMismatch     // subsidiary: per-mesh counts do not add up to ndof_types()
    | NotBlockPreconditioner   // the Navier-Stokes preconditioner is not a block preconditioner

  class LagrangeEnforcedFlowPreconditioner {
    /** What My_mesh_pt[i]->ndof_types() reports for each mesh that
        set_meshes() was given (so My_nmesh is its length). */
    const meshNdofTypes: seq<nat>
    /** My_mesh_pt[0]->nodal_dimension(). */
    const spatialDim: nat
    /** ndof_types() of the block preconditioner base. */
    const nDofTypes: nat
    /** is_subsidiary_block_preconditioner(). */
    const isSubsidiary: bool
    /** Using_superlu_ns_preconditioner. */
    const usingSuperLUNsPreconditioner: bool
    /** Whether the Navier-Stokes preconditioner supplied is a block preconditioner. */
    const nsPreconditionerIsBlock: bool

    /** My_ndof_types_in_mesh: filled on the first setup(), then reused. */
    var myNdofTypesInMesh: seq<nat>
    var nVelocityDoftypes: nat
    var nFluidDoftypes: nat
    var nLagrangeDoftypes: nat
    /** The dof_to_block_map handed to block_setup(). */
    var blockSetupMap: seq<nat>
    /** temp_block_to_dof_map, used to place the replacement blocks. */
    var blockToDofMap: seq<nat>
    var subsidiaryListBcpl: seq<nat>
    /** The coarsening map handed to the Navier-Stokes subsidiary preconditioner. */
    var nsCoarseningMap: seq<seq<nat>>
    /** Lagrange_multiplier_preconditioner_pt: entry l is the preconditioner
        of the W block of Lagrange multiplier l, represented by the number
        N_fluid_doftypes + l that setup() hands to it when it is a block
        preconditioner. That number is a block number of this
        preconditioner, not a natural DOF type. */
    var lagrangePreconditioners: seq<nat>

    /** The layout of DOF types the preconditioner assumes: every mesh
        classifies its velocity types first, the bulk mesh adds the
        pressure, and a master preconditioner's ndof_types() is the sum
        over its meshes. The cache, once filled, holds the meshes' counts. */
    ghost predicate Valid()
      reads this
    {
      VelocityFirst(spatialDim, meshNdofTypes) &&
      (|meshNdofTypes| > 0 ==> meshNdofTypes[0] > spatialDim) &&
      (!isSubsidiary ==> nDofTypes == Sum(meshNdofTypes)) &&
      (myNdofTypesInMesh == [] || myNdofTypesInMesh == meshNdofTypes)
    }

    constructor (meshNdofTypes: seq<nat>, spatialDim: nat, nDofTypes: nat, isSubsidiary: bool,
                 usingSuperLUNsPreconditioner: bool, nsPreconditionerIsBlock: bool)
      requires VelocityFirst(spatialDim, meshNdofTypes)
      requires |meshNdofTypes| > 0 ==> meshNdofTypes[0] > spatialDim
      requires !isSubsidiary ==> nDofTypes == Sum(meshNdofTypes)
      ensures Valid()
      ensures this.meshNdofTypes == meshNdofTypes && this.spatialDim == spatialDim
      ensures this.nDofTypes == nDofTypes && this.isSubsidiary == isSubsidiary
      ensures this.usingSuperLUNsPreconditioner == usingSuperLUNsPreconditioner
      ensures this.nsPreconditionerIsBlock == nsPreconditionerIsBlock
      ensures myNdofTypesInMesh == [] && lagrangePreconditioners == []
    {
      this.meshNdofTypes := meshNdofTypes;
      this.spatialDim := spatialDim;
      this.nDofTypes := nDofTypes;
      this.isSubsidiary := isSubsidiary;
      this.usingSuperLUNsPreconditioner := usingSuperLUNsPreconditioner;
      this.nsPreconditionerIsBlock := nsPreconditionerIsBlock;
      myNdofTypesInMesh := [];
      nVelocityDoftypes, nFluidDoftypes, nLagrangeDoftypes := 0, 0, 0;
      blockSetupMap, blockToDofMap, subsidiaryListBcpl := [], [], [];
      nsCoarseningMap := [];
      lagrangePreconditioners := [];
    }

    /** clean_up_memory(): clears the block preconditioner base, which
        forgets the block setup (the block map and its inverse), then
        deletes the Lagrange multiplier preconditioners and leaves their
        list empty. The counts and the DOF-type cache are kept. */
    method CleanUpMemory()
      modifies this`blockSetupMap, this`blockToDofMap, this`lagrangePreconditioners
      ensures blockSetupMap == [] && blockToDofMap == []
      ensures lagrangePreconditioners == []
    {
      blockSetupMap, blockToDofMap := [], [];
      lagrangePreconditioners := [];
    }

    /** The counts, the block map and its inverse as setup() leaves them
        once the DOF types have been checked. */
    ghost predicate BlockMapsReady()
      reads this
    {
      var nmesh := |meshNdofTypes|;
      VelocityFirst(spatialDim, meshNdofTypes) &&
      nVelocityDoftypes == nmesh * spatialDim &&
      nFluidDoftypes == nVelocityDoftypes + 1 &&
      nLagrangeDoftypes == nDofTypes - nFluidDoftypes &&
      blockSetupMap == DofToBlockMap(spatialDim, meshNdofTypes) &&
      IsPermutation(blockSetupMap, nDofTypes) &&
      |blockToDofMap| == nDofTypes &&
      (forall d :: 0 <= d < nDofTypes ==> blockToDofMap[blockSetupMap[d]] == d) &&
      (forall b :: 0 <= b < nDofTypes ==> blockToDofMap[b] < nDofTypes && blockSetupMap[blockToDofMap[b]] == b)
    }

    /** My_ndof_types_in_mesh is filled from the meshes only while empty. */
    method FillDofTypesCache()
      requires Valid()
      modifies this`myNdofTypesInMesh
      ensures Valid() && myNdofTypesInMesh == meshNdofTypes
    {
      if myNdofTypesInMesh == [] {
        var meshI := 0;
        while meshI < |meshNdofTypes|
          invariant meshI <= |meshNdofTypes|
          invariant myNdofTypesInMesh == meshNdofTypes[..meshI]
        {
          myNdofTypesInMesh := myNdofTypesInMesh + [meshNdofTypes[meshI]];
          meshI := meshI + 1;
        }
        assert meshNdofTypes[..|meshNdofTypes|] == meshNdofTypes;
      }
    }

    /** The three counts, dof_to_block_map (handed to block_setup()) and
        temp_block_to_dof_map. */
    method SetUpBlockMaps()
      requires Valid() && |meshNdofTypes| > 0 && Sum(meshNdofTypes) == nDofTypes
      modifies this`nVelocityDoftypes, this`nFluidDoftypes, this`nLagrangeDoftypes,
        this`blockSetupMap, this`blockToDofMap
      ensures BlockMapsReady()
    {
      var nmesh, dim, counts := |meshNdofTypes|, spatialDim, meshNdofTypes;
      // the bulk mesh holds the pressure, so ndof_types() > nmesh * dim
      OffsetSplits(dim, counts, nmesh);
      OffsetAll(counts);
      OthersBeforeMono(dim, counts, 1, nmesh);
      nVelocityDoftypes := nmesh * dim;
      nFluidDoftypes := nVelocityDoftypes + 1;
      nLagrangeDoftypes := nDofTypes - nFluidDoftypes;
      blockSetupMap := BuildDofToBlockMap(dim, counts, nDofTypes);
      DofToBlockMapIsPermutation(dim, counts);
      blockToDofMap := InvertDofToBlockMap(blockSetupMap, nDofTypes);
    }

    /** One preconditioner per Lagrange multiplier DOF type, each given the
        block number N_fluid_doftypes + l. */
    method SetUpLagrangePreconditioners()
      modifies this`lagrangePreconditioners
      ensures lagrangePreconditioners == Consecutive(nFluidDoftypes, nLagrangeDoftypes)
    {
      var preconditioners := [];
      var lI := 0;
      while lI < nLagrangeDoftypes
        invariant lI <= nLagrangeDoftypes
        invariant preconditioners == Consecutive(nFluidDoftypes, lI)
      {
        preconditioners := preconditioners + [nFluidDoftypes + lI];
        lI := lI + 1;
      }
      lagrangePreconditioners := preconditioners;
    }

    /** setup(): the integer part. */
    method Setup() returns (outcome: Outcome<SetupError>)
      requires Valid()
      modifies this
      ensures Valid()
      // the Lagrange preconditioners exist only after a complete setup
      ensures outcome.Fail? ==> lagrangePreconditioners == []
      ensures |meshNdofTypes| == 0 <==> outcome == Fail(NoMeshes)
      ensures |meshNdofTypes| == 0 ==> myNdofTypesInMesh == old(myNdofTypesInMesh)
      ensures |meshNdofTypes| > 0 ==> myNdofTypesInMesh == meshNdofTypes
      ensures outcome == Fail(DofTypeCountMismatch) <==>
        |meshNdofTypes| > 0 && isSubsidiary && Sum(meshNdofTypes) != nDofTypes
      ensures outcome == Fail(NotBlockPreconditioner) <==>
        |meshNdofTypes| > 0 && Sum(meshNdofTypes) == nDofTypes &&
        !usingSuperLUNsPreconditioner && !nsPreconditionerIsBlock
      ensures outcome == Pass || outcome == Fail(NotBlockPreconditioner) ==> BlockMapsReady()
      ensures outcome == Pass && !usingSuperLUNsPreconditioner ==>
        subsidiaryListBcpl == SubsidiaryListBcpl(spatialDim, meshNdofTypes) &&
        nsCoarseningMap == CoarseningMap(spatialDim, |meshNdofTypes|)
      ensures outcome != Pass || usingSuperLUNsPreconditioner ==>
        subsidiaryListBcpl == old(subsidiaryListBcpl) && nsCoarseningMap == old(nsCoarseningMap)
      ensures outcome == Pass ==>
        lagrangePreconditioners == Consecutive(nFluidDoftypes, nLagrangeDoftypes)
      // both checks fail after clean_up_memory() and before any count is assigned
      ensures outcome == Fail(NoMeshes) || outcome == Fail(DofTypeCountMismatch) ==>
        nVelocityDoftypes == old(nVelocityDoftypes) && nFluidDoftypes == old(nFluidDoftypes) &&
        nLagrangeDoftypes == old(nLagrangeDoftypes) &&
        blockSetupMap == [] && blockToDofMap == []
    {
      CleanUpMemory();
      var nmesh := |meshNdofTypes|;
      if nmesh == 0 {
        return Fail(NoMeshes);
      }
      FillDofTypesCache();
      var dim, counts := spatialDim, myNdofTypesInMesh;
      if isSubsidiary {
        var tmpNdofTypes := TotalDofTypes(counts);
        if tmpNdofTypes != nDofTypes {
          return Fail(DofTypeCountMismatch);
        }
      }
      SetUpBlockMaps();
      if !usingSuperLUNsPreconditioner {
        if !nsPreconditionerIsBlock {
          return Fail(NotBlockPreconditioner);
        }
        subsidiaryListBcpl := BuildSubsidiaryListBcpl(dim, counts);
        nsCoarseningMap := BuildCoarseningMap(dim, nmesh);
      }
      SetUpLagrangePreconditioners();
      return Pass;
    }
  }
}
