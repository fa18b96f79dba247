/** Leaf splitting and p-refinement of the refinement trees that drive
    adaptive mesh refinement. The trees of a forest live in an arena: a
    tree node refers to its father and its sons by their position in the
    arena. The refineable element a tree node carries is abstract: its
    refinement flags, its polynomial order, and whether initial_setup has
    been run on it. The elements that split() creates are an input. */
module RefinementTree {
  import opened Common

  /** The refineable element behind a tree node, reduced to what the tree
      consults and changes. */
  datatype Element = Element(
    toBeRefined: bool,       // to_be_refined()
    pRefineable: bool,       // the element is a PRefineableElement
    toBePRefined: bool,      // to_be_p_refined()
    toBePUnrefined: bool,    // to_be_p_unrefined()
    pOrder: int,             // polynomial order changed by p_refine
    isSetUp: bool)           // initial_setup() has been run

  /** A tree node: its element (Object_pt, possibly null), its father
      (Father_pt, null for a root), its sons (Son_pt) and its position
      among its father's sons (Son_type). */
  datatype TreeNode = TreeNode(element: Option<Element>, father: Option<nat>, sons: seq<nat>, sonType: int)

  datatype TreeError =
    | NonLeaf        // split or p-refine asked of a node that has sons
    | NoObject       // the node has no element
    | NotPRefineable // the element cannot be p-refined

  predicate IsLeaf(nodes: seq<TreeNode>, t: nat)
    requires t < |nodes|
  {
    |nodes[t].sons| == 0
  }

  /** Son j of p names p as its father and has son type j. */
  predicate SonLinksAgree(nodes: seq<TreeNode>)
  {
    forall p, j :: 0 <= p < |nodes| && 0 <= j < |nodes[p].sons| ==>
      nodes[p].sons[j] < |nodes| &&
      nodes[nodes[p].sons[j]].father == Some(p) &&
      nodes[nodes[p].sons[j]].sonType == j
  }

  /** A node that names a father is that father's son at the position its
      son type gives. */
  predicate FatherLinksAgree(nodes: seq<TreeNode>)
  {
    forall c :: 0 <= c < |nodes| && nodes[c].father.Some? ==>
      nodes[c].father.value < |nodes| &&
      0 <= nodes[c].sonType < |nodes[nodes[c].father.value].sons| &&
      nodes[nodes[c].father.value].sons[nodes[c].sonType] == c
  }

  /** Father and son links agree in both directions. */
  predicate WellFormed(nodes: seq<TreeNode>)
  {
    SonLinksAgree(nodes) && FatherLinksAgree(nodes)
  }

  /** initial_setup() on an element; what it computes from its father is
      not part of this model. */
  function InitialSetup(e: Element): (r: Element)
    ensures r.isSetUp
  {
    e.(isSetUp := true)
  }

  /** construct_son(element, father, i) followed by initial_setup on the
      son's element: a leaf that records father t and son type i. */
  function SonNode(e: Element, t: nat, i: nat): TreeNode
  {
    TreeNode(Some(InitialSetup(e)), Some(t), [], i)
  }

  /** The sons created for the elements `els`, in order. */
  function SonNodes(els: seq<Element>, t: nat): (r: seq<TreeNode>)
    ensures |r| == |els|
  {
    seq(|els|, i requires 0 <= i < |els| => SonNode(els[i], t, i))
  }

  /** The arena positions first, first+1, ..., first+n-1. */
  function Positions(first: nat, n: nat): (r: seq<nat>)
    ensures |r| == n
    ensures forall i :: 0 <= i < n ==> r[i] == first + i
  {
    seq(n, i requires 0 <= i => first + i)
  }

  /** split_if_required at node t, where `els` are the elements the node's
      element returns from split(). */
  function SplitOutcome(nodes: seq<TreeNode>, t: nat, els: seq<Element>): Result<seq<TreeNode>, TreeError>
    requires t < |nodes|
  {
    if !IsLeaf(nodes, t) then Err(NonLeaf)
    else if nodes[t].element.None? then Err(NoObject)
    else if !nodes[t].element.value.toBeRefined then Ok(nodes)
    else Ok(nodes[t := nodes[t].(sons := Positions(|nodes|, |els|))] + SonNodes(els, t))
  }

  /** p_refine(inc) on an element; how the element rebuilds itself at the
      new order is not part of this model. */
  function PRefine(e: Element, inc: int): (r: Element)
    ensures r.pOrder == e.pOrder + inc
  {
    e.(pOrder := e.pOrder + inc)
  }

  /** The order change p_refine_if_required asks for. */
  function PRefineIncrement(e: Element): int
  {
    if e.toBePRefined then 1 else if e.toBePUnrefined then -1 else 0
  }

  /** p_refine_if_required at node t. */
  function PRefineOutcome(nodes: seq<TreeNode>, t: nat): Result<seq<TreeNode>, TreeError>
    requires t < |nodes|
  {
    if !IsLeaf(nodes, t) then Err(NonLeaf)
    else if nodes[t].element.None? then Err(NoObject)
    else if !nodes[t].element.value.pRefineable then Err(NotPRefineable)
    else if PRefineIncrement(nodes[t].element.value) == 0 then Ok(nodes)
    else Ok(nodes[t := nodes[t].(element := Some(PRefine(nodes[t].element.value, PRefineIncrement(nodes[t].element.value))))])
  }

  /** The forest's arena of tree nodes, changed in place by refinement. */
  class TreeForest {
    var nodes: seq<TreeNode>

    constructor (roots: seq<Element>)
      ensures nodes == seq(|roots|, i requires 0 <= i < |roots| => TreeNode(Some(roots[i]), None, [], -1))
      ensures WellFormed(nodes)
    {
      nodes := seq(|roots|, i requires 0 <= i < |roots| => TreeNode(Some(roots[i]), None, [], -1));
    }

    /** Tree::split_if_required: a flagged leaf gets one son per element
        split() returns; each son is linked to this node and set up. */
    method SplitIfRequired(t: nat, newElements: seq<Element>) returns (outcome: Outcome<TreeError>)
      requires t < |nodes|
      modifies this
      ensures outcome.Fail? ==> nodes == old(nodes) && SplitOutcome(old(nodes), t, newElements) == Err(outcome.error)
      ensures outcome.Pass? ==> SplitOutcome(old(nodes), t, newElements) == Ok(nodes)
      ensures WellFormed(old(nodes)) ==> WellFormed(nodes)
    {
      if |nodes[t].sons| != 0 {
        return Fail(NonLeaf);
      }
      if nodes[t].element.None? {
        return Fail(NoObject);
      }
      if nodes[t].element.value.toBeRefined {
        var nSons := |newElements|;
        var first := |nodes|;
        var sonPt: seq<nat> := [];
        var iSon := 0;
        while iSon < nSons
          invariant iSon <= nSons
          invariant sonPt == Positions(first, iSon)
          invariant nodes == old(nodes) + SonNodes(newElements, t)[..iSon]
        {
          var son := TreeNode(Some(newElements[iSon]), Some(t), [], iSon);
          sonPt := sonPt + [|nodes|];
          nodes := nodes + [son];
          nodes := nodes[|nodes| - 1 := son.(element := Some(InitialSetup(son.element.value)))];
          iSon := iSon + 1;
        }
        assert SonNodes(newElements, t)[..nSons] == SonNodes(newElements, t);
        assert nodes[t] == old(nodes)[t];
        nodes := nodes[t := nodes[t].(sons := sonPt)];
        assert nodes == old(nodes)[t := old(nodes)[t].(sons := sonPt)] + SonNodes(newElements, t);
      }
      if WellFormed(old(nodes)) {
        SplitPreservesWellFormed(old(nodes), t, newElements);
      }
      return Pass;
    }

    /** Tree::p_refine_if_required: raise the order of a leaf's element if
        it is flagged for p-refinement, otherwise lower it if flagged for
        p-unrefinement. */
    method PRefineIfRequired(t: nat) returns (outcome: Outcome<TreeError>)
      requires t < |nodes|
      modifies this
      ensures outcome.Fail? ==> nodes == old(nodes) && PRefineOutcome(old(nodes), t) == Err(outcome.error)
      ensures outcome.Pass? ==> PRefineOutcome(old(nodes), t) == Ok(nodes)
      ensures WellFormed(old(nodes)) ==> WellFormed(nodes)
    {
      if |nodes[t].sons| != 0 {
        return Fail(NonLeaf);
      }
      if nodes[t].element.None? {
        return Fail(NoObject);
      }
      var pRefObj := nodes[t].element.value;
      if !pRefObj.pRefineable {
        return Fail(NotPRefineable);
      }
      if pRefObj.toBePRefined {
        nodes := nodes[t := nodes[t].(element := Some(PRefine(pRefObj, 1)))];
      } else if pRefObj.toBePUnrefined {
        nodes := nodes[t := nodes[t].(element := Some(PRefine(pRefObj, -1)))];
      }
      if WellFormed(old(nodes)) {
        PRefinePreservesWellFormed(old(nodes), t);
      }
      return Pass;
    }
  }

  // ---------------------------------------------------------------------
  // Properties of splitting

  /** Splitting fails exactly on a node with sons, or on a leaf without an
      element; a leaf whose element is not flagged is left as it is. */
  lemma SplitErrors(nodes: seq<TreeNode>, t: nat, els: seq<Element>)
    requires t < |nodes|
    ensures SplitOutcome(nodes, t, els) == Err(NonLeaf) <==> !IsLeaf(nodes, t)
    ensures SplitOutcome(nodes, t, els) == Err(NoObject) <==> IsLeaf(nodes, t) && nodes[t].element.None?
    ensures SplitOutcome(nodes, t, els).Err? <==> !IsLeaf(nodes, t) || nodes[t].element.None?
    ensures IsLeaf(nodes, t) && nodes[t].element.Some? && !nodes[t].element.value.toBeRefined ==>
      SplitOutcome(nodes, t, els) == Ok(nodes) && IsLeaf(nodes, t)
  {
  }

  /** After splitting a flagged leaf, it has one son per element split()
      returned; son i is a new leaf wrapping the set-up i-th element, with
      this node as father and son type i; every other node is unchanged. */
  lemma SplitCreatesSons(nodes: seq<TreeNode>, t: nat, els: seq<Element>)
    requires t < |nodes| && IsLeaf(nodes, t) && nodes[t].element.Some? && nodes[t].element.value.toBeRefined
    ensures SplitOutcome(nodes, t, els).Ok?
    ensures var r := SplitOutcome(nodes, t, els).value;
      |r| == |nodes| + |els| && |r[t].sons| == |els| &&
      r[t].element == nodes[t].element && r[t].father == nodes[t].father && r[t].sonType == nodes[t].sonType &&
      (forall p :: 0 <= p < |nodes| && p != t ==> r[p] == nodes[p]) &&
      (forall i :: 0 <= i < |els| ==>
        r[t].sons[i] == |nodes| + i &&
        r[r[t].sons[i]].element == Some(InitialSetup(els[i])) &&
        r[r[t].sons[i]].father == Some(t) &&
        r[r[t].sons[i]].sonType == i &&
        IsLeaf(r, r[t].sons[i]))
  {
  }

  /** Splitting keeps father and son links consistent. */
  lemma SplitPreservesWellFormed(nodes: seq<TreeNode>, t: nat, els: seq<Element>)
    requires t < |nodes| && WellFormed(nodes)
    requires SplitOutcome(nodes, t, els).Ok?
    ensures WellFormed(SplitOutcome(nodes, t, els).value)
  {
    if nodes[t].element.value.toBeRefined {
      SplitKeepsSonLinks(nodes, t, els);
      SplitKeepsFatherLinks(nodes, t, els);
    }
  }

  lemma {:induction false} SplitKeepsSonLinks(nodes: seq<TreeNode>, t: nat, els: seq<Element>)
    requires t < |nodes| && WellFormed(nodes)
    requires SplitOutcome(nodes, t, els).Ok? && nodes[t].element.value.toBeRefined
    ensures SonLinksAgree(SplitOutcome(nodes, t, els).value)
  {
    var r := SplitOutcome(nodes, t, els).value;
    var n := |nodes|;
    SplitCreatesSons(nodes, t, els);
    forall p, j | 0 <= p < |r| && 0 <= j < |r[p].sons|
      ensures r[p].sons[j] < |r| && r[r[p].sons[j]].father == Some(p) && r[r[p].sons[j]].sonType == j
    {
      if p != t {
        assert p < n && r[p] == nodes[p];
        var c := nodes[p].sons[j];
        assert r[c].father == nodes[c].father && r[c].sonType == nodes[c].sonType;
      }
    }
  }

  lemma {:induction false} SplitKeepsFatherLinks(nodes: seq<TreeNode>, t: nat, els: seq<Element>)
    requires t < |nodes| && WellFormed(nodes)
    requires SplitOutcome(nodes, t, els).Ok? && nodes[t].element.value.toBeRefined
    ensures FatherLinksAgree(SplitOutcome(nodes, t, els).value)
  {
    var r := SplitOutcome(nodes, t, els).value;
    var n := |nodes|;
    SplitCreatesSons(nodes, t, els);
    forall c | 0 <= c < |r| && r[c].father.Some?
      ensures r[c].father.value < |r| &&
        0 <= r[c].sonType < |r[r[c].father.value].sons| &&
        r[r[c].father.value].sons[r[c].sonType] == c
    {
      if c < n {
        var f := nodes[c].father.value;
        assert r[c].father == nodes[c].father && r[c].sonType == nodes[c].sonType;
        assert f != t;  // t was a leaf, so no node named it as father
        assert r[f] == nodes[f];
      } else {
        assert r[c] == SonNode(els[c - n], t, c - n);
      }
    }
  }

  // ---------------------------------------------------------------------
  // Properties of p-refinement

  /** p-refinement fails exactly on a node with sons, a leaf without an
      element, or an element that is not p-refineable. */
  lemma PRefineErrors(nodes: seq<TreeNode>, t: nat)
    requires t < |nodes|
    ensures PRefineOutcome(nodes, t) == Err(NonLeaf) <==> !IsLeaf(nodes, t)
    ensures PRefineOutcome(nodes, t) == Err(NoObject) <==> IsLeaf(nodes, t) && nodes[t].element.None?
    ensures PRefineOutcome(nodes, t) == Err(NotPRefineable) <==>
      IsLeaf(nodes, t) && nodes[t].element.Some? && !nodes[t].element.value.pRefineable
  {
  }

  /** The order rises by one when the element is flagged for
      p-refinement, whatever its p-unrefinement flag says; it falls by one
      when only the p-unrefinement flag is set; otherwise it stays. Only
      the element of node t changes: the arena, every son list and every
      link are as before. */
  lemma PRefineChangesOnlyOrder(nodes: seq<TreeNode>, t: nat)
    requires t < |nodes| && PRefineOutcome(nodes, t).Ok?
    ensures var r := PRefineOutcome(nodes, t).value; var e := nodes[t].element.value;
      |r| == |nodes| &&
      r[t].element.Some? &&
      (e.toBePRefined ==> r[t].element.value.pOrder == e.pOrder + 1) &&
      (!e.toBePRefined && e.toBePUnrefined ==> r[t].element.value.pOrder == e.pOrder - 1) &&
      (!e.toBePRefined && !e.toBePUnrefined ==> r[t].element == nodes[t].element) &&
      r[t].element.value == e.(pOrder := r[t].element.value.pOrder) &&
      r[t].sons == nodes[t].sons && r[t].father == nodes[t].father && r[t].sonType == nodes[t].sonType &&
      (forall p :: 0 <= p < |nodes| && p != t ==> r[p] == nodes[p])
  {
  }

  /** p-refinement keeps father and son links consistent. */
  lemma {:induction false} PRefinePreservesWellFormed(nodes: seq<TreeNode>, t: nat)
    requires t < |nodes| && WellFormed(nodes) && PRefineOutcome(nodes, t).Ok?
    ensures WellFormed(PRefineOutcome(nodes, t).value)
  {
    var r := PRefineOutcome(nodes, t).value;
    PRefineChangesOnlyOrder(nodes, t);
    assert forall p :: 0 <= p < |r| ==> r[p].sons == nodes[p].sons && r[p].father == nodes[p].father && r[p].sonType == nodes[p].sonType;
  }
}
