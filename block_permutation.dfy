/** Index bookkeeping of the Lagrange-enforced-flow preconditioner, as
    functions of the spatial dimension `dim` and the number of DOF types
    classified by each mesh (`counts`, bulk Navier-Stokes mesh first).

    In the natural ordering the DOF types are numbered mesh by mesh; each
    mesh classifies its `dim` velocity DOF types first and then its
    pressure (bulk mesh) or Lagrange multiplier DOF types. The block
    ordering puts all velocity types first, mesh by mesh, then the
    pressure, then all Lagrange multiplier types. */
module BlockPermutation {

  /** Sum of a sequence of DOF-type counts. */
  function Sum(s: seq<nat>): nat
  {
    if s == [] then 0 else Sum(s[..|s| - 1]) + s[|s| - 1]
  }

  /** Natural number of the first DOF type of mesh `m`. */
  function Offset(counts: seq<nat>, m: nat): nat
    requires m <= |counts|
  {
    Sum(counts[..m])
  }

  lemma OffsetStep(counts: seq<nat>, m: nat)
    requires m < |counts|
    ensures Offset(counts, m + 1) == Offset(counts, m) + counts[m]
  {
    assert counts[..m + 1][..m] == counts[..m];
  }

  lemma OffsetAll(counts: seq<nat>)
    ensures Offset(counts, |counts|) == Sum(counts)
  {
    assert counts[..|counts|] == counts;
  }

  lemma {:induction false} OffsetMono(counts: seq<nat>, i: nat, j: nat)
    requires i <= j <= |counts|
    ensures Offset(counts, i) <= Offset(counts, j)
  {
    if i < j {
      OffsetMono(counts, i, j - 1);
      OffsetStep(counts, j - 1);
    }
  }

  /** Every mesh classifies (at least) its `dim` velocity DOF types, and
      classifies them first. */
  predicate VelocityFirst(dim: nat, counts: seq<nat>)
  {
    forall m :: 0 <= m < |counts| ==> dim <= counts[m]
  }

  /** Number of pressure and Lagrange multiplier DOF types in the meshes
      before mesh `m`. */
  function OthersBefore(dim: nat, counts: seq<nat>, m: nat): nat
    requires VelocityFirst(dim, counts) && m <= |counts|
  {
    if m == 0 then 0 else OthersBefore(dim, counts, m - 1) + (counts[m - 1] - dim)
  }

  lemma {:induction false} OthersBeforeMono(dim: nat, counts: seq<nat>, i: nat, j: nat)
    requires VelocityFirst(dim, counts) && i <= j <= |counts|
    ensures OthersBefore(dim, counts, i) <= OthersBefore(dim, counts, j)
  {
    if i < j {
      OthersBeforeMono(dim, counts, i, j - 1);
    }
  }

  /** The DOF types before mesh `m` are its velocity types plus the others. */
  lemma {:induction false} OffsetSplits(dim: nat, counts: seq<nat>, m: nat)
    requires VelocityFirst(dim, counts) && m <= |counts|
    ensures Offset(counts, m) == m * dim + OthersBefore(dim, counts, m)
  {
    if m > 0 {
      OffsetSplits(dim, counts, m - 1);
      OffsetStep(counts, m - 1);
      assert m * dim == (m - 1) * dim + dim;
    }
  }

  lemma MulStep(a: nat, c: nat)
    ensures (a + 1) * c == a * c + c
  {
  }

  lemma MulMono(a: nat, b: nat, c: nat)
    requires a <= b
    ensures a * c <= b * c
  {
  }

  /** `a * c + b` with `b < c` determines `a` and `b`. */
  lemma MulAddUnique(a1: nat, b1: nat, a2: nat, b2: nat, c: nat)
    requires b1 < c && b2 < c && a1 * c + b1 == a2 * c + b2
    ensures a1 == a2 && b1 == b2
  {
    if a1 < a2 {
      MulMono(a1 + 1, a2, c);
      assert false;
    } else if a2 < a1 {
      MulMono(a2 + 1, a1, c);
      assert false;
    }
  }

  // ---------------------------------------------------------------------
  // dof_to_block_map

  /** The block that local DOF type `k` of mesh `m` is moved to: velocity
      types go to consecutive blocks 0, 1, 2, ... across the meshes in
      order; all other types go to consecutive blocks from the number of
      velocity DOF types on. */
  function BlockOf(dim: nat, counts: seq<nat>, m: nat, k: nat): nat
    requires VelocityFirst(dim, counts) && m < |counts|
  {
    if k < dim then m * dim + k
    else |counts| * dim + OthersBefore(dim, counts, m) + (k - dim)
  }

  /** first, first + 1, ..., first + n - 1 */
  function Consecutive(first: nat, n: nat): (r: seq<nat>)
    ensures |r| == n && forall i :: 0 <= i < n ==> r[i] == first + i
  {
    seq(n, i requires 0 <= i => first + i)
  }

  /** Blocks of the velocity DOF types of mesh `m`. */
  function VelocityBlocks(dim: nat, m: nat): seq<nat>
  {
    Consecutive(m * dim, dim)
  }

  /** Blocks of the pressure / Lagrange multiplier DOF types of mesh `m`. */
  function OtherBlocks(dim: nat, counts: seq<nat>, m: nat): seq<nat>
    requires VelocityFirst(dim, counts) && m < |counts|
  {
    Consecutive(|counts| * dim + OthersBefore(dim, counts, m), counts[m] - dim)
  }

  /** The entries of dof_to_block_map for the DOF types of the first `m`
      meshes. */
  function BlockMapPrefix(dim: nat, counts: seq<nat>, m: nat): seq<nat>
    requires VelocityFirst(dim, counts) && m <= |counts|
  {
    if m == 0 then []
    else BlockMapPrefix(dim, counts, m - 1) + VelocityBlocks(dim, m - 1) + OtherBlocks(dim, counts, m - 1)
  }

  /** dof_to_block_map: entry d is the block of natural DOF type d. */
  function DofToBlockMap(dim: nat, counts: seq<nat>): seq<nat>
    requires VelocityFirst(dim, counts)
  {
    BlockMapPrefix(dim, counts, |counts|)
  }

  lemma {:induction false} BlockMapPrefixAt(dim: nat, counts: seq<nat>, m: nat, mm: nat, k: nat)
    requires VelocityFirst(dim, counts) && mm < m <= |counts| && k < counts[mm]
    ensures |BlockMapPrefix(dim, counts, m)| == Offset(counts, m)
    ensures Offset(counts, mm) + k < Offset(counts, m)
    ensures BlockMapPrefix(dim, counts, m)[Offset(counts, mm) + k] == BlockOf(dim, counts, mm, k)
  {
    BlockMapPrefixLength(dim, counts, m);
    BlockMapPrefixLength(dim, counts, mm);
    OffsetStep(counts, mm);
    OffsetMono(counts, mm + 1, m);
    if mm < m - 1 {
      BlockMapPrefixAt(dim, counts, m - 1, mm, k);
      BlockMapPrefixExtends(dim, counts, m - 1, Offset(counts, mm) + k);
    } else {
      BlockMapLastMeshAt(dim, counts, mm, k);
    }
  }

  /** Adding a mesh keeps the entries of the meshes before it. */
  lemma BlockMapPrefixExtends(dim: nat, counts: seq<nat>, m: nat, i: nat)
    requires VelocityFirst(dim, counts) && m < |counts| && i < |BlockMapPrefix(dim, counts, m)|
    ensures i < |BlockMapPrefix(dim, counts, m + 1)|
    ensures BlockMapPrefix(dim, counts, m + 1)[i] == BlockMapPrefix(dim, counts, m)[i]
  {
  }

  /** The entries the last mesh adds are its blocks, in local order. */
  lemma BlockMapLastMeshAt(dim: nat, counts: seq<nat>, m: nat, k: nat)
    requires VelocityFirst(dim, counts) && m < |counts| && k < counts[m]
    ensures |BlockMapPrefix(dim, counts, m)| + k < |BlockMapPrefix(dim, counts, m + 1)|
    ensures BlockMapPrefix(dim, counts, m + 1)[|BlockMapPrefix(dim, counts, m)| + k] == BlockOf(dim, counts, m, k)
  {
    var prev := BlockMapPrefix(dim, counts, m);
    var v, o := VelocityBlocks(dim, m), OtherBlocks(dim, counts, m);
    assert BlockMapPrefix(dim, counts, m + 1) == prev + v + o;
    if k >= dim {
      assert (prev + v + o)[|prev| + k] == o[k - dim];
    }
  }

  lemma {:induction false} BlockMapPrefixLength(dim: nat, counts: seq<nat>, m: nat)
    requires VelocityFirst(dim, counts) && m <= |counts|
    ensures |BlockMapPrefix(dim, counts, m)| == Offset(counts, m)
  {
    if m > 0 {
      BlockMapPrefixLength(dim, counts, m - 1);
      OffsetStep(counts, m - 1);
    }
  }

  /** Natural DOF type `Offset(m) + k` (local type k of mesh m) is mapped to
      `BlockOf(m, k)`; the map has one entry per DOF type. */
  lemma DofToBlockMapAt(dim: nat, counts: seq<nat>, m: nat, k: nat)
    requires VelocityFirst(dim, counts) && m < |counts| && k < counts[m]
    ensures |DofToBlockMap(dim, counts)| == Sum(counts)
    ensures Offset(counts, m) + k < Sum(counts)
    ensures DofToBlockMap(dim, counts)[Offset(counts, m) + k] == BlockOf(dim, counts, m, k)
  {
    BlockMapPrefixAt(dim, counts, |counts|, m, k);
    OffsetAll(counts);
  }

  /** Every natural DOF type lies in exactly one mesh. */
  lemma {:induction false} Locate(counts: seq<nat>, d: nat) returns (m: nat, k: nat)
    requires d < Sum(counts)
    ensures m < |counts| && k < counts[m] && d == Offset(counts, m) + k
  {
    var n := |counts|;
    var front := counts[..n - 1];
    if d < Sum(front) {
      m, k := Locate(front, d);
      assert front[..m] == counts[..m];
    } else {
      m, k := n - 1, d - Sum(front);
    }
  }

  /** Different (mesh, local type) pairs are moved to different blocks. */
  lemma BlockOfInjective(dim: nat, counts: seq<nat>, m1: nat, k1: nat, m2: nat, k2: nat)
    requires VelocityFirst(dim, counts)
    requires m1 < |counts| && k1 < counts[m1] && m2 < |counts| && k2 < counts[m2]
    requires m1 != m2 || k1 != k2
    ensures BlockOf(dim, counts, m1, k1) != BlockOf(dim, counts, m2, k2)
  {
    var n := |counts|;
    if k1 < dim && k2 < dim {
      if m1 * dim + k1 == m2 * dim + k2 {
        MulAddUnique(m1, k1, m2, k2, dim);
      }
    } else if k1 >= dim && k2 >= dim {
      if m1 < m2 {
        OthersBeforeAfter(dim, counts, m1, k1, m2);
      } else if m2 < m1 {
        OthersBeforeAfter(dim, counts, m2, k2, m1);
      }
    } else if k1 < dim {
      VelocityBelowOthers(dim, counts, m1, k1, m2, k2);
    } else {
      VelocityBelowOthers(dim, counts, m2, k2, m1, k1);
    }
  }

  /** A velocity type's block lies below every other type's block. */
  lemma VelocityBelowOthers(dim: nat, counts: seq<nat>, m1: nat, k1: nat, m2: nat, k2: nat)
    requires VelocityFirst(dim, counts) && m1 < |counts| && m2 < |counts|
    requires k1 < dim <= k2
    ensures BlockOf(dim, counts, m1, k1) < BlockOf(dim, counts, m2, k2)
  {
    MulMono(m1 + 1, |counts|, dim);
    assert (m1 + 1) * dim == m1 * dim + dim;
  }

  /** Another type of mesh m1 lies below every other type of a later mesh. */
  lemma OthersBeforeAfter(dim: nat, counts: seq<nat>, m1: nat, k1: nat, m2: nat)
    requires VelocityFirst(dim, counts) && m1 < m2 < |counts|
    requires dim <= k1 < counts[m1]
    ensures OthersBefore(dim, counts, m1) + (k1 - dim) < OthersBefore(dim, counts, m2)
  {
    assert OthersBefore(dim, counts, m1 + 1) == OthersBefore(dim, counts, m1) + (counts[m1] - dim);
    OthersBeforeMono(dim, counts, m1 + 1, m2);
  }

  /** Every DOF type is moved to a block below the number of DOF types;
      the velocities fill the blocks below N_velocity_doftypes and the bulk
      pressure takes the first block after them. */
  lemma BlockOfBound(dim: nat, counts: seq<nat>, m: nat, k: nat)
    requires VelocityFirst(dim, counts) && m < |counts| && k < counts[m]
    ensures BlockOf(dim, counts, m, k) < Sum(counts)
    ensures k < dim <==> BlockOf(dim, counts, m, k) < |counts| * dim
    ensures m == 0 && k == dim ==> BlockOf(dim, counts, m, k) == |counts| * dim
  {
    if k < dim {
      VelocityBlockBound(dim, counts, m, k);
    } else {
      OtherBlockBound(dim, counts, m, k);
    }
  }

  lemma VelocityBlockBound(dim: nat, counts: seq<nat>, m: nat, k: nat)
    requires VelocityFirst(dim, counts) && m < |counts| && k < dim
    ensures BlockOf(dim, counts, m, k) < |counts| * dim <= Sum(counts)
  {
    OffsetSplits(dim, counts, |counts|);
    OffsetAll(counts);
    MulMono(m + 1, |counts|, dim);
  }

  lemma OtherBlockBound(dim: nat, counts: seq<nat>, m: nat, k: nat)
    requires VelocityFirst(dim, counts) && m < |counts| && dim <= k < counts[m]
    ensures |counts| * dim <= BlockOf(dim, counts, m, k) < Sum(counts)
    ensures m == 0 && k == dim ==> BlockOf(dim, counts, m, k) == |counts| * dim
  {
    OffsetSplits(dim, counts, |counts|);
    OffsetAll(counts);
    OthersBeforeMono(dim, counts, m + 1, |counts|);
  }

  /** `s` is a permutation of 0 .. n-1. */
  predicate IsPermutation(s: seq<nat>, n: nat)
  {
    |s| == n &&
    (forall i :: 0 <= i < n ==> s[i] < n) &&
    (forall i, j :: 0 <= i < j < n ==> s[i] != s[j])
  }

  /** dof_to_block_map is a bijection on the DOF types 0 .. ndof_types-1. */
  lemma DofToBlockMapIsPermutation(dim: nat, counts: seq<nat>)
    requires VelocityFirst(dim, counts)
    ensures IsPermutation(DofToBlockMap(dim, counts), Sum(counts))
  {
    var s := DofToBlockMap(dim, counts);
    var n := Sum(counts);
    BlockMapPrefixLength(dim, counts, |counts|);
    OffsetAll(counts);
    forall i | 0 <= i < n
      ensures s[i] < n
    {
      var m, k := Locate(counts, i);
      DofToBlockMapAt(dim, counts, m, k);
      BlockOfBound(dim, counts, m, k);
    }
    forall i, j | 0 <= i < j < n
      ensures s[i] != s[j]
    {
      DofToBlockMapDistinct(dim, counts, i, j);
    }
  }

  /** Different DOF types are moved to different blocks. */
  lemma DofToBlockMapDistinct(dim: nat, counts: seq<nat>, i: nat, j: nat)
    requires VelocityFirst(dim, counts) && i < j < Sum(counts)
    ensures |DofToBlockMap(dim, counts)| == Sum(counts)
    ensures DofToBlockMap(dim, counts)[i] != DofToBlockMap(dim, counts)[j]
  {
    var m1, k1 := Locate(counts, i);
    var m2, k2 := Locate(counts, j);
    DofToBlockMapAt(dim, counts, m1, k1);
    DofToBlockMapAt(dim, counts, m2, k2);
    BlockOfInjective(dim, counts, m1, k1, m2, k2);
  }

  /** Worked example: meshes with 4, 5 and 4 DOF types in three dimensions
      ([u v w p] [up vp wp Lp1 Lp2] [ut vt wt Lt1]). */
  lemma DofToBlockMapExample()
    ensures DofToBlockMap(3, [4, 5, 4]) == [0, 1, 2, 9, 3, 4, 5, 10, 11, 6, 7, 8, 12]
  {
    var counts := [4, 5, 4];
    assert OthersBefore(3, counts, 1) == 1 && OthersBefore(3, counts, 2) == 3;
    assert BlockMapPrefix(3, counts, 1) == [0, 1, 2, 9];
    assert BlockMapPrefix(3, counts, 2) == [0, 1, 2, 9, 3, 4, 5, 10, 11];
  }

  // ---------------------------------------------------------------------
  // Pigeonhole: an injective map of 0..n-1 into 0..n-1 is onto.

  function Image(s: seq<nat>): set<nat>
  {
    set i | 0 <= i < |s| :: s[i]
  }

  function Below(n: nat): set<nat>
  {
    if n == 0 then {} else Below(n - 1) + {n - 1}
  }

  lemma {:induction false} BelowHas(n: nat, b: nat)
    requires b < n
    ensures b in Below(n)
  {
    if b < n - 1 {
      BelowHas(n - 1, b);
    }
  }

  lemma {:induction false} BelowOnly(n: nat, b: nat)
    requires b in Below(n)
    ensures b < n
  {
    if b != n - 1 {
      BelowOnly(n - 1, b);
    }
  }

  lemma {:induction false} ImageSize(s: seq<nat>)
    requires forall i, j :: 0 <= i < j < |s| ==> s[i] != s[j]
    ensures |Image(s)| == |s|
  {
    if |s| > 0 {
      var front := s[..|s| - 1];
      ImageSize(front);
      assert Image(s) == Image(front) + {s[|s| - 1]};
      assert s[|s| - 1] !in Image(front);
    }
  }

  lemma {:induction false} BelowSize(n: nat)
    ensures |Below(n)| == n
  {
    if n > 0 {
      BelowSize(n - 1);
      if n - 1 in Below(n - 1) {
        BelowOnly(n - 1, n - 1);
      }
    }
  }

  lemma {:induction false} SubsetSize(a: set<nat>, b: set<nat>)
    requires a <= b
    ensures |a| <= |b|
  {
    if a != {} {
      var x :| x in a;
      SubsetSize(a - {x}, b - {x});
    }
  }

  /** Every value 0 .. n-1 is taken by a permutation. */
  lemma PermutationIsOnto(s: seq<nat>, n: nat, b: nat)
    requires IsPermutation(s, n) && b < n
    ensures exists i :: 0 <= i < n && s[i] == b
  {
    ImageSize(s);
    BelowSize(n);
    if b !in Image(s) {
      forall x | x in Image(s) + {b}
        ensures x in Below(n)
      {
        BelowHas(n, x);
      }
      SubsetSize(Image(s) + {b}, Below(n));
      assert false;
    }
  }

  // ---------------------------------------------------------------------
  // Subsidiary_list_bcpl and the subsidiary DOF-type coarsening map

  /** The velocity DOF types of the first `m` meshes, in natural numbering,
      mesh by mesh. */
  function VelocityDofsPrefix(dim: nat, counts: seq<nat>, m: nat): seq<nat>
    requires m <= |counts|
  {
    if m == 0 then []
    else VelocityDofsPrefix(dim, counts, m - 1) + Consecutive(Offset(counts, m - 1), dim)
  }

  /** Subsidiary_list_bcpl: the master DOF types the Navier-Stokes
      subsidiary preconditioner works with, velocities then the pressure. */
  function SubsidiaryListBcpl(dim: nat, counts: seq<nat>): seq<nat>
  {
    VelocityDofsPrefix(dim, counts, |counts|) + [dim]
  }

  lemma {:induction false} VelocityDofsPrefixAt(dim: nat, counts: seq<nat>, m: nat, mm: nat, k: nat)
    requires mm < m <= |counts| && k < dim
    ensures |VelocityDofsPrefix(dim, counts, m)| == m * dim
    ensures mm * dim + k < m * dim
    ensures VelocityDofsPrefix(dim, counts, m)[mm * dim + k] == Offset(counts, mm) + k
  {
    VelocityDofsPrefixLength(dim, counts, m - 1);
    assert m * dim == (m - 1) * dim + dim;
    if mm < m - 1 {
      VelocityDofsPrefixAt(dim, counts, m - 1, mm, k);
    }
  }

  lemma {:induction false} VelocityDofsPrefixLength(dim: nat, counts: seq<nat>, m: nat)
    requires m <= |counts|
    ensures |VelocityDofsPrefix(dim, counts, m)| == m * dim
  {
    if m > 0 {
      VelocityDofsPrefixLength(dim, counts, m - 1);
      assert m * dim == (m - 1) * dim + dim;
    }
  }

  /** Subsidiary_list_bcpl has `nmesh*dim + 1` entries: entry `m*dim + k`
      is velocity type k of mesh m, and the last is the bulk pressure. */
  lemma SubsidiaryListBcplAt(dim: nat, counts: seq<nat>, m: nat, k: nat)
    requires m < |counts| && k < dim
    ensures |SubsidiaryListBcpl(dim, counts)| == |counts| * dim + 1
    ensures m * dim + k < |counts| * dim
    ensures SubsidiaryListBcpl(dim, counts)[m * dim + k] == Offset(counts, m) + k
    ensures SubsidiaryListBcpl(dim, counts)[|counts| * dim] == dim
  {
    VelocityDofsPrefixAt(dim, counts, |counts|, m, k);
  }

  /** The subsidiary list follows the block ordering: its entry for
      velocity block `m*dim + k` is the natural DOF type that
      dof_to_block_map sends to that block. */
  lemma SubsidiaryListBcplFollowsBlocks(dim: nat, counts: seq<nat>, m: nat, k: nat)
    requires VelocityFirst(dim, counts) && m < |counts| && k < dim
    ensures |SubsidiaryListBcpl(dim, counts)| == |counts| * dim + 1
    ensures m * dim + k < |counts| * dim
    ensures SubsidiaryListBcpl(dim, counts)[m * dim + k] < |DofToBlockMap(dim, counts)|
    ensures DofToBlockMap(dim, counts)[SubsidiaryListBcpl(dim, counts)[m * dim + k]] == m * dim + k
  {
    SubsidiaryListBcplAt(dim, counts, m, k);
    DofToBlockMapAt(dim, counts, m, k);
  }

  /** The last entry of the subsidiary list is the bulk pressure, which
      dof_to_block_map sends to the first block after the velocities. */
  lemma SubsidiaryListBcplEndsWithPressure(dim: nat, counts: seq<nat>)
    requires VelocityFirst(dim, counts) && |counts| > 0 && counts[0] > dim
    ensures |SubsidiaryListBcpl(dim, counts)| == |counts| * dim + 1
    ensures SubsidiaryListBcpl(dim, counts)[|counts| * dim] == dim < |DofToBlockMap(dim, counts)|
    ensures DofToBlockMap(dim, counts)[dim] == |counts| * dim
  {
    VelocityDofsPrefixLength(dim, counts, |counts|);
    DofToBlockMapAt(dim, counts, 0, dim);
    assert counts[..0] == [];
  }

  /** Worked example: 0, 1, 2, 4, 5, 6, 9, 10, 11, 3. */
  lemma SubsidiaryListBcplExample()
    ensures SubsidiaryListBcpl(3, [4, 5, 4]) == [0, 1, 2, 4, 5, 6, 9, 10, 11, 3]
  {
    var counts := [4, 5, 4];
    assert Offset(counts, 1) == 4 && Offset(counts, 2) == 9;
    assert VelocityDofsPrefix(3, counts, 1) == [0, 1, 2];
    assert VelocityDofsPrefix(3, counts, 2) == [0, 1, 2, 4, 5, 6];
  }

  /** The coarsening map handed to the Navier-Stokes subsidiary
      preconditioner: for each direction d, the list [d, dim + d, ...] of
      subsidiary DOF types over the meshes, then the pressure alone. */
  function CoarseningMap(dim: nat, nmesh: nat): seq<seq<nat>>
  {
    seq(dim, (d: int) requires 0 <= d =>
      seq(nmesh, (m: int) requires 0 <= m => (dim * m + d) as nat)) + [[nmesh * dim]]
  }

  /** Coarsening list d gathers direction-d velocity types of all meshes,
      and the last list is the bulk pressure alone. */
  lemma CoarseningMapGroupsDirections(dim: nat, counts: seq<nat>, d: nat, m: nat)
    requires d < dim && m < |counts|
    ensures |CoarseningMap(dim, |counts|)| == dim + 1
    ensures |CoarseningMap(dim, |counts|)[d]| == |counts|
    ensures |SubsidiaryListBcpl(dim, counts)| == |counts| * dim + 1
    ensures CoarseningMap(dim, |counts|)[d][m] < |SubsidiaryListBcpl(dim, counts)|
    ensures SubsidiaryListBcpl(dim, counts)[CoarseningMap(dim, |counts|)[d][m]] == Offset(counts, m) + d
    ensures CoarseningMap(dim, |counts|)[dim] == [|counts| * dim]
    ensures SubsidiaryListBcpl(dim, counts)[|counts| * dim] == dim
  {
    SubsidiaryListBcplAt(dim, counts, m, d);
    assert dim * m == m * dim;
  }

  /** The coarsening lists never name a subsidiary DOF type twice. */
  lemma CoarseningMapDisjoint(dim: nat, nmesh: nat, d1: nat, m1: nat, d2: nat, m2: nat)
    requires d1 < dim && m1 < nmesh && d2 < dim && m2 < nmesh
    requires d1 != d2 || m1 != m2
    ensures CoarseningMap(dim, nmesh)[d1][m1] != CoarseningMap(dim, nmesh)[d2][m2]
    ensures CoarseningMap(dim, nmesh)[d1][m1] < nmesh * dim
  {
    CoarseningMapAt(dim, nmesh, d1, m1);
    CoarseningMapAt(dim, nmesh, d2, m2);
    if m1 * dim + d1 == m2 * dim + d2 {
      MulAddUnique(m1, d1, m2, d2, dim);
    }
    MulMono(m1 + 1, nmesh, dim);
    MulStep(m1, dim);
  }

  lemma CoarseningMapAt(dim: nat, nmesh: nat, d: nat, m: nat)
    requires d < dim && m < nmesh
    ensures |CoarseningMap(dim, nmesh)| == dim + 1 && |CoarseningMap(dim, nmesh)[d]| == nmesh
    ensures CoarseningMap(dim, nmesh)[d][m] == m * dim + d
  {
    assert dim * m == m * dim;
  }

  /** Worked example: u [0, 3, 6], v [1, 4, 7], w [2, 5, 8], p [9]. */
  lemma CoarseningMapExample()
    ensures CoarseningMap(3, 3) == [[0, 3, 6], [1, 4, 7], [2, 5, 8], [9]]
  {
    var c := CoarseningMap(3, 3);
    assert c[0] == [0, 3, 6];
    assert c[1] == [1, 4, 7];
    assert c[2] == [2, 5, 8];
  }
}
