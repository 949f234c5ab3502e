/**
 * A sentence as the list of the labels of a dependency tree's nodes, the
 * wall node (the artificial root) left out.
 */
module Sentences {

  /** A word label. */
  datatype Label = Label(name: string)

  /** A node of a dependency tree: its label, and whether it is the wall. */
  datatype DepTreeNode = DepTreeNode(nodeLabel: Label, isWall: bool)

  /** A dependency tree, as its nodes in order. */
  datatype DepTree = DepTree(nodes: seq<DepTreeNode>)

  /** The labels of the nodes that are not the wall, in node order. */
  function NonWallLabels(nodes: seq<DepTreeNode>): seq<Label> {
    if nodes == [] then []
    else
      var last := nodes[|nodes| - 1];
      NonWallLabels(nodes[..|nodes| - 1]) + (if last.isWall then [] else [last.nodeLabel])
  }

  /** How many nodes are not the wall. */
  function NonWallCount(nodes: seq<DepTreeNode>): nat {
    if nodes == [] then 0 else (if nodes[0].isWall then 0 else 1) + NonWallCount(nodes[1..])
  }

  /** Filtering two runs of nodes one after the other is filtering their concatenation: node order is kept. */
  lemma {:induction false} NonWallLabelsAppend(a: seq<DepTreeNode>, b: seq<DepTreeNode>)
    ensures NonWallLabels(a + b) == NonWallLabels(a) + NonWallLabels(b)
  {
    if b != [] {
      var b' := b[..|b| - 1];
      assert (a + b)[..|a + b| - 1] == a + b';
      NonWallLabelsAppend(a, b');
    } else {
      assert a + b == a;
    }
  }

  /** There is one label per node that is not the wall. */
  lemma {:induction false} NonWallLabelsLength(nodes: seq<DepTreeNode>)
    ensures |NonWallLabels(nodes)| == NonWallCount(nodes)
  {
    if nodes != [] {
      NonWallLabelsLength(nodes[1..]);
      NonWallLabelsAppend([nodes[0]], nodes[1..]);
      assert [nodes[0]] + nodes[1..] == nodes;
      assert [nodes[0]][..0] == [];
    }
  }

  /** A label is in the sentence exactly when some node that is not the wall carries it. */
  lemma {:induction false} NonWallLabelsMembers(nodes: seq<DepTreeNode>, l: Label)
    ensures l in NonWallLabels(nodes) <==> exists i :: 0 <= i < |nodes| && !nodes[i].isWall && nodes[i].nodeLabel == l
  {
    if nodes != [] {
      var init := nodes[..|nodes| - 1];
      NonWallLabelsMembers(init, l);
      if exists i :: 0 <= i < |nodes| && !nodes[i].isWall && nodes[i].nodeLabel == l {
        var i :| 0 <= i < |nodes| && !nodes[i].isWall && nodes[i].nodeLabel == l;
        if i < |nodes| - 1 {
          assert init[i] == nodes[i];
        }
      }
    }
  }

  /** A sentence: a list of labels. */
  class Sentence {
    var labels: seq<Label>

    /** The empty sentence. */
    constructor Empty()
      ensures labels == []
    {
      labels := [];
    }

    /** The sentence of a tree: the labels of its nodes in order, skipping the wall. */
    constructor FromTree(tree: DepTree)
      ensures labels == NonWallLabels(tree.nodes)
    {
      labels := [];
      new;
      var i := 0;
      while i < |tree.nodes|
        invariant 0 <= i <= |tree.nodes|
        invariant labels == NonWallLabels(tree.nodes[..i])
      {
        var node := tree.nodes[i];
        assert tree.nodes[..i + 1][..i] == tree.nodes[..i];
        if !node.isWall {
          Add(node.nodeLabel);
        }
        i := i + 1;
      }
      assert tree.nodes[..i] == tree.nodes;
    }

    /** Appends a label. */
    method Add(l: Label)
      modifies this
      ensures labels == old(labels) + [l]
    {
      labels := labels + [l];
    }
  }
}
