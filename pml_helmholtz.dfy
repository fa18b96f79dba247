/** DOF-type classification and field selection of the PML Helmholtz
    elements: each node stores the real part of u at value index 0 and the
    imaginary part at value index 1. The element's equation tables
    (nodal_local_eqn and eqn_number) are inputs; the complex-valued maths
    and the output are not part of this model. */
module PmlHelmholtz {
  import opened Common

  datatype PmlError =
    | IllegalField(fld: nat)      // only fields 0 (real) and 1 (imaginary) exist
    | IllegalScalar(i: nat)       // only paraview scalars 0 and 1 exist
    | KSquaredNotSet              // k_squared() before its pointer was set

  /** Value indices of the real and imaginary part of u at a node. */
  datatype ComplexIndex = ComplexIndex(re: nat, im: nat)

  /** u_index_helmholtz(): real part at value 0, imaginary part at value 1. */
  function UIndexHelmholtz(): (r: ComplexIndex)
    ensures r.re == 0 && r.im == 1
  {
    ComplexIndex(0, 1)
  }

  /** ndof_types(): unknowns are classified as real or imaginary parts,
      one DOF type per field of the element. */
  function NdofTypes(): (r: nat)
    ensures forall fld: nat, nnode: nat :: fld < r <==> NValueOfField(fld, nnode).Ok?
  {
    2
  }

  /** The nodal value index holding field `fld` (0: real, otherwise imaginary). */
  function FieldValueIndex(fld: nat): nat
  {
    if fld == 0 then UIndexHelmholtz().re else UIndexHelmholtz().im
  }

  /** The element's equation tables: nodalLocalEqn[n][i] is the local
      equation number of value i at node n (negative when pinned), and
      eqnNumber[l] is the global equation number of local equation l. */
  datatype Element = Element(nodalLocalEqn: seq<seq<int>>, eqnNumber: seq<nat>)

  function NNode(e: Element): nat
  {
    |e.nodalLocalEqn|
  }

  /** Every node stores both parts, and every free value's local equation
      number is an index into the element's equation table. */
  predicate WellFormed(e: Element)
  {
    forall n :: 0 <= n < |e.nodalLocalEqn| ==>
      |e.nodalLocalEqn[n]| >= 2 &&
      forall i :: 0 <= i < |e.nodalLocalEqn[n]| ==> e.nodalLocalEqn[n][i] < |e.eqnNumber|
  }

  /** local_equation(fld, j): the local equation number of field fld at node j. */
  function LocalEquation(e: Element, fld: nat, j: nat): (r: Result<int, PmlError>)
    requires WellFormed(e) && j < NNode(e)
    ensures fld > 1 <==> r == Err(IllegalField(fld))
    ensures r.Ok? ==> r.value == e.nodalLocalEqn[j][fld] && r.value < |e.eqnNumber|
  {
    if fld > 1 then Err(IllegalField(fld))
    else Ok(e.nodalLocalEqn[j][FieldValueIndex(fld)])
  }

  /** nfields_for_projection(): real and imaginary part. */
  function NFieldsForProjection(): (r: nat)
    ensures forall fld: nat, nnode: nat :: fld < r <==> DataValuesOfField(fld, nnode).Ok?
  {
    2
  }

  /** A value of the element: node number and value index within the node. */
  datatype DataValue = DataValue(node: nat, value: nat)

  /** data_values_of_field(fld): the value `fld` of every node, in node order. */
  function DataValuesOfField(fld: nat, nnode: nat): (r: Result<seq<DataValue>, PmlError>)
    ensures fld > 1 <==> r == Err(IllegalField(fld))
    ensures r.Ok? ==> |r.value| == nnode
    ensures r.Ok? ==> forall j :: 0 <= j < nnode ==> r.value[j] == DataValue(j, fld)
  {
    if fld > 1 then Err(IllegalField(fld))
    else Ok(seq(nnode, (j: int) requires 0 <= j => DataValue(j, fld)))
  }

  /** nvalue_of_field(fld): one value per node. */
  function NValueOfField(fld: nat, nnode: nat): (r: Result<nat, PmlError>)
    ensures fld > 1 <==> r == Err(IllegalField(fld))
  {
    if fld > 1 then Err(IllegalField(fld)) else Ok(nnode)
  }

  /** The projection helpers agree: nvalue_of_field counts the values that
      data_values_of_field lists, and the j-th of them is the value whose
      local equation local_equation(fld, j) returns. */
  lemma ProjectionFieldsAgree(e: Element, fld: nat, j: nat)
    requires WellFormed(e) && fld < NFieldsForProjection() && j < NNode(e)
    ensures DataValuesOfField(fld, NNode(e)).Ok? && NValueOfField(fld, NNode(e)).Ok?
    ensures NValueOfField(fld, NNode(e)).value == |DataValuesOfField(fld, NNode(e)).value|
    ensures var dv := DataValuesOfField(fld, NNode(e)).value[j];
      dv.node < NNode(e) && dv.value < |e.nodalLocalEqn[dv.node]| &&
      LocalEquation(e, fld, j) == Ok(e.nodalLocalEqn[dv.node][dv.value])
  {
  }

  /** scalar_name_paraview(i). */
  function ScalarNameParaview(i: nat): (r: Result<string, PmlError>)
    ensures i == 0 ==> r == Ok("Real part")
    ensures i == 1 ==> r == Ok("Imaginary part")
    ensures i > 1 <==> r == Err(IllegalScalar(i))
  {
    match i
    case 0 => Ok("Real part")
    case 1 => Ok("Imaginary part")
    case _ => Err(IllegalScalar(i))
  }

  /** nscalar_paraview(): the two scalars named above. */
  function NScalarParaview(): (r: nat)
    ensures forall i: nat :: i < r <==> ScalarNameParaview(i).Ok?
  {
    2
  }

  /** The scalars that can be named are exactly those below nscalar_paraview(),
      and the two names differ. */
  lemma ScalarNamesCoverScalars(i: nat)
    ensures ScalarNameParaview(i).Ok? <==> i < NScalarParaview()
    ensures ScalarNameParaview(0) != ScalarNameParaview(1)
  {
  }

  /** k_squared(): the value behind K_squared_pt, an error while unset. */
  function KSquared(kSquaredPt: Option<real>): (r: Result<real, PmlError>)
    ensures kSquaredPt.None? <==> r == Err(KSquaredNotSet)
    ensures kSquaredPt.Some? ==> r == Ok(kSquaredPt.value)
  {
    match kSquaredPt
    case None => Err(KSquaredNotSet)
    case Some(k) => Ok(k)
  }

  /** values_to_be_pinned_on_outer_pml_boundary: the caller's vector is
      resized to two entries and they are set to both value indices. */
  method ValuesToBePinnedOnOuterPmlBoundary(valuesToPin: seq<nat>) returns (pinned: seq<nat>)
    ensures |pinned| == 2
    ensures forall fld :: 0 <= fld < NFieldsForProjection() ==> FieldValueIndex(fld) in pinned
    ensures pinned == [UIndexHelmholtz().re, UIndexHelmholtz().im]
  {
    var resized := if |valuesToPin| >= 2 then valuesToPin[..2] else valuesToPin + seq(2 - |valuesToPin|, _ => 0);
    pinned := resized[0 := 0][1 := 1];
    assert FieldValueIndex(0) == pinned[0] && FieldValueIndex(1) == pinned[1];
  }

  // ---------------------------------------------------------------------
  // get_dof_numbers_for_unknowns

  /** An entry of the DOF lookup list: a global equation number and the
      DOF type of the unknown (0: real part, 1: imaginary part). */
  datatype DofLookup = DofLookup(eqn: nat, dofType: nat)

  /** The entry for field `fld` at node `n`, if that value is free. The
      temporary pair holds an `unsigned`, so the global equation number is
      stored modulo 2^32. */
  function FieldLookup(e: Element, n: nat, fld: nat): seq<DofLookup>
    requires WellFormed(e) && n < NNode(e) && fld < 2
  {
    var l := e.nodalLocalEqn[n][FieldValueIndex(fld)];
    if l >= 0 then [DofLookup(AsUnsigned(e.eqnNumber[l]), fld)] else []
  }

  /** The entries node `n` contributes, in list order: the imaginary part
      is pushed to the front after the real part, so it comes first. */
  function NodeLookups(e: Element, n: nat): seq<DofLookup>
    requires WellFormed(e) && n < NNode(e)
  {
    FieldLookup(e, n, 1) + FieldLookup(e, n, 0)
  }

  /** The entries of nodes 0 .. k-1 as push_front leaves them: the last node first. */
  function DofLookups(e: Element, k: nat): seq<DofLookup>
    requires WellFormed(e) && k <= NNode(e)
  {
    if k == 0 then [] else NodeLookups(e, k - 1) + DofLookups(e, k - 1)
  }

  /** The body of the node loop: push the entries of node `n` to the front,
      real part first, so that the imaginary part ends up in front. */
  method PushNodeLookups(e: Element, n: nat, dofLookupList: seq<DofLookup>) returns (result: seq<DofLookup>)
    requires WellFormed(e) && n < NNode(e)
    ensures result == NodeLookups(e, n) + dofLookupList
  {
    result := dofLookupList;
    var localEqnNumber := e.nodalLocalEqn[n][UIndexHelmholtz().re];
    if localEqnNumber >= 0 {
      result := [DofLookup(AsUnsigned(e.eqnNumber[localEqnNumber]), 0)] + result;
    }
    localEqnNumber := e.nodalLocalEqn[n][UIndexHelmholtz().im];
    if localEqnNumber >= 0 {
      result := [DofLookup(AsUnsigned(e.eqnNumber[localEqnNumber]), 1)] + result;
    }
  }

  /** get_dof_numbers_for_unknowns: walks the nodes and pushes an entry to
      the front of the caller's list for each free value. */
  method GetDofNumbersForUnknowns(e: Element, dofLookupList: seq<DofLookup>) returns (result: seq<DofLookup>)
    requires WellFormed(e)
    ensures result == DofLookups(e, NNode(e)) + dofLookupList
  {
    result := dofLookupList;
    var nNode := |e.nodalLocalEqn|;
    var n := 0;
    while n < nNode
      invariant n <= nNode
      invariant result == DofLookups(e, n) + dofLookupList
    {
      result := PushNodeLookups(e, n, result);
      assert result == NodeLookups(e, n) + (DofLookups(e, n) + dofLookupList);
      n := n + 1;
    }
  }

  /** At most two entries per node, each of DOF type below ndof_types(). */
  lemma {:induction false} DofLookupsBounded(e: Element, k: nat)
    requires WellFormed(e) && k <= NNode(e)
    ensures |DofLookups(e, k)| <= 2 * k
    ensures forall x :: x in DofLookups(e, k) ==> x.dofType < NdofTypes()
  {
    if k > 0 {
      DofLookupsBounded(e, k - 1);
    }
  }

  /** `x` records the global equation of field `fld` at node `n`, and that value is free. */
  predicate RecordsFreeValue(e: Element, n: nat, fld: nat, x: DofLookup)
    requires WellFormed(e) && n < NNode(e) && fld < 2
  {
    LocalEquation(e, fld, n).value >= 0 &&
    x == DofLookup(AsUnsigned(e.eqnNumber[LocalEquation(e, fld, n).value]), fld)
  }

  /** An entry is in the list exactly when it records the global equation
      of a free value of some node, with that value's field as DOF type. */
  lemma {:induction false} DofLookupsExactlyFreeValues(e: Element, k: nat, x: DofLookup)
    requires WellFormed(e) && k <= NNode(e)
    ensures x in DofLookups(e, k) <==>
      exists n, fld :: 0 <= n < k && 0 <= fld < 2 && RecordsFreeValue(e, n, fld, x)
  {
    if k > 0 {
      DofLookupsExactlyFreeValues(e, k - 1, x);
      var last := k - 1;
      if x in NodeLookups(e, last) {
        var fld := if x in FieldLookup(e, last, 0) then 0 else 1;
        assert RecordsFreeValue(e, last, fld, x);
      }
      if exists n, fld :: 0 <= n < k && 0 <= fld < 2 && RecordsFreeValue(e, n, fld, x) {
        var n, fld :| 0 <= n < k && 0 <= fld < 2 && RecordsFreeValue(e, n, fld, x);
        if n == last {
          assert x in FieldLookup(e, last, fld);
        } else {
          assert x in DofLookups(e, k - 1);
        }
      }
    }
  }

  /** The entries in node order, as push_back would have left them: node
      by node, real part before imaginary part. */
  function LookupsInNodeOrder(e: Element, k: nat): seq<DofLookup>
    requires WellFormed(e) && k <= NNode(e)
  {
    if k == 0 then [] else LookupsInNodeOrder(e, k - 1) + FieldLookup(e, k - 1, 0) + FieldLookup(e, k - 1, 1)
  }

  function Reversed<T>(s: seq<T>): seq<T>
  {
    if s == [] then [] else Reversed(s[1..]) + [s[0]]
  }

  lemma {:induction false} ReversedAppend<T>(a: seq<T>, b: seq<T>)
    ensures Reversed(a + b) == Reversed(b) + Reversed(a)
  {
    if a == [] {
      assert a + b == b;
    } else {
      assert (a + b)[1..] == a[1..] + b;
      ReversedAppend(a[1..], b);
    }
  }

  /** Reversing a sequence extended by two entries of at most one element each. */
  lemma {:induction false} ReversedExtended<T>(front: seq<T>, a: seq<T>, b: seq<T>)
    requires |a| <= 1 && |b| <= 1
    ensures Reversed(front + a + b) == b + a + Reversed(front)
  {
    ReversedAppend(front + a, b);
    ReversedAppend(front, a);
    if a != [] {
      assert a[1..] == [];
    }
    if b != [] {
      assert b[1..] == [];
    }
  }

  /** Entries are prepended: the list holds the node-order entries reversed. */
  lemma {:induction false} DofLookupsReverseNodeOrder(e: Element, k: nat)
    requires WellFormed(e) && k <= NNode(e)
    ensures DofLookups(e, k) == Reversed(LookupsInNodeOrder(e, k))
  {
    if k > 0 {
      DofLookupsReverseNodeOrder(e, k - 1);
      ReversedExtended(LookupsInNodeOrder(e, k - 1), FieldLookup(e, k - 1, 0), FieldLookup(e, k - 1, 1));
    }
  }
}
