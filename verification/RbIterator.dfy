/** The iterator of libc/rbtree.c: the current node and a stack of the nodes
    above it, moved forwards and backwards through the tree. */
module RbIterator {
  import opened Basics
  import opened RbTree
  import opened RbQueries

  const RBTREE_ITER_MAX_HEIGHT := 64

  /** `stack` holds the ancestors of `node`, the root of the tree first. */
  ghost predicate Chain(root: Tree, stack: seq<Tree>, node: Tree)
    decreases |stack|
  {
    node.Node? &&
    if stack == [] then node == root
    else
      var p := stack[|stack| - 1];
      && p.Node? && (node == p.left || node == p.right) && p.left != p.right
      && Chain(root, stack[..|stack| - 1], p)
  }

  /** The same ancestors as a path. */
  ghost function PathOf(stack: seq<Tree>, node: Tree): Path
    decreases |stack|
  {
    if stack == [] then Top
    else
      var p := stack[|stack| - 1];
      if p.Nil? then Top
      else Step(PathOf(stack[..|stack| - 1], p), node == p.right, p.red, p.value,
        if node == p.right then p.left else p.right)
  }

  lemma {:induction false} ChainPlugs(root: Tree, stack: seq<Tree>, node: Tree)
    requires Chain(root, stack, node)
    ensures Plug(PathOf(stack, node), node) == root
    ensures |stack| + Height(node) <= Height(root)
    decreases |stack|
  {
    if stack != [] { ChainPlugs(root, stack[..|stack| - 1], stack[|stack| - 1]); }
  }

  /** Number of values before the current one in ascending order. */
  ghost function Position(stack: seq<Tree>, node: Tree): nat
    requires node.Node?
  {
    |Before(PathOf(stack, node))| + |InOrder(node.left)|
  }

  /** Number of values after the current one. */
  ghost function Behind(stack: seq<Tree>, node: Tree): nat
    requires node.Node?
  {
    |InOrder(node.right)| + |After(PathOf(stack, node))|
  }

  lemma PositionMeaning(root: Tree, stack: seq<Tree>, node: Tree)
    requires Chain(root, stack, node)
    ensures Position(stack, node) + 1 + Behind(stack, node) == |InOrder(root)|
    ensures InOrder(root)[Position(stack, node)] == node.value
  {
    var p := PathOf(stack, node);
    ChainPlugs(root, stack, node);
    PlugOrder(p, node);
    assert InOrder(root) == Before(p) + (InOrder(node.left) + [node.value] + InOrder(node.right)) + After(p);
  }

  lemma ChildrenDiffer(root: Tree, stack: seq<Tree>, node: Tree)
    requires Chain(root, stack, node) && Sorted(InOrder(root)) && (node.left.Node? || node.right.Node?)
    ensures node.left != node.right
  {
    var p := PathOf(stack, node);
    ChainPlugs(root, stack, node);
    PlugOrder(p, node);
    assert Sorted(InOrder(node)) by {
      forall i, j | 0 <= i < j < |InOrder(node)| ensures InOrder(node)[i].key < InOrder(node)[j].key {
        assert InOrder(root)[|Before(p)| + i] == InOrder(node)[i] && InOrder(root)[|Before(p)| + j] == InOrder(node)[j];
      }
    }
    SideKeys(node);
    if node.left.Node? { assert InOrder(node.left)[|InOrder(node.left.left)|] == node.left.value; }
    if node.right.Node? { assert InOrder(node.right)[|InOrder(node.right.left)|] == node.right.value; }
  }

  lemma ExtendChain(root: Tree, stack: seq<Tree>, node: Tree, dir: bool)
    requires Chain(root, stack, node) && Link(node, dir).Node? && node.left != node.right
    ensures Chain(root, stack + [node], Link(node, dir))
    ensures PathOf(stack + [node], Link(node, dir))
      == Step(PathOf(stack, node), dir, node.red, node.value, Link(node, !dir))
  {
    assert (stack + [node])[..|stack + [node]| - 1] == stack;
  }

  /** The node last left and the one above it. */
  lemma PopKeeps(root: Tree, stack: seq<Tree>, node: Tree)
    requires Chain(root, stack, node) && stack != []
    ensures var p, rest := stack[|stack| - 1], stack[..|stack| - 1];
      && Chain(root, rest, p) && p.left != p.right
      && ((node == p.left && Before(PathOf(stack, node)) == Before(PathOf(rest, p))
           && After(PathOf(stack, node)) == [p.value] + InOrder(p.right) + After(PathOf(rest, p)))
          || (node == p.right && After(PathOf(stack, node)) == After(PathOf(rest, p))
              && Before(PathOf(stack, node)) == Before(PathOf(rest, p)) + (InOrder(p.left) + [p.value])))
  {
  }

  /** What lies before and after, counted at the node above the one last left. */
  lemma PopCounts(root: Tree, stack: seq<Tree>, node: Tree)
    requires Chain(root, stack, node) && stack != []
    ensures var p, rest, path := stack[|stack| - 1], stack[..|stack| - 1], PathOf(stack, node);
      && Chain(root, rest, p) && p.Node? && p.left != p.right && (node == p.left || node == p.right)
      && (node == p.right ==>
            && |Before(PathOf(rest, p))| + |InOrder(p)| == |Before(path)| + |InOrder(node)|
            && Behind(rest, p) == |After(path)| + |InOrder(node)|)
      && (node == p.left ==>
            && |After(PathOf(rest, p))| + |InOrder(p)| == |After(path)| + |InOrder(node)|
            && Position(rest, p) == |Before(path)| + |InOrder(node)|)
  {
    PopKeeps(root, stack, node);
  }

  lemma AtTheTop(root: Tree, node: Tree)
    requires Chain(root, [], node)
    ensures node == root && Before(PathOf([], node)) == [] && After(PathOf([], node)) == []
  {
  }

  lemma StartCounts(stack: seq<Tree>, node: Tree, dir: bool)
    requires node.Node? && Link(node, dir).Nil?
    ensures dir ==> |Before(PathOf(stack, node))| + |InOrder(node)| == Position(stack, node) + 1
    ensures !dir ==> |After(PathOf(stack, node))| + |InOrder(node)| == Behind(stack, node) + 1
  {
  }

  class Iterator {
    ghost var root: Tree
    var node: Tree
    const path: array<Tree>
    var top: nat

    ghost predicate Wf()
      reads this, path
    {
      && path.Length == RBTREE_ITER_MAX_HEIGHT && top <= path.Length
      && Sorted(InOrder(root)) && Height(root) <= RBTREE_ITER_MAX_HEIGHT
      && (node.Node? ==> Chain(root, path[..top], node))
    }

    constructor ()
      ensures fresh(path) && path.Length == RBTREE_ITER_MAX_HEIGHT
      ensures Wf() && node.Nil?
    {
      root, node, top := Nil, Nil, 0;
      path := new Tree[RBTREE_ITER_MAX_HEIGHT](_ => Nil);
    }

    /** self->path[self->top++] = self->node; self->node = self->node->link[dir] */
    method Push(dir: bool)
      requires Wf() && node.Node? && Link(node, dir).Node?
      modifies this`node, this`top, path
      ensures Wf() && node == Link(old(node), dir)
      ensures path[..top] == old(path[..top]) + [old(node)]
      ensures PathOf(path[..top], node)
        == Step(old(PathOf(path[..top], node)), dir, old(node).red, old(node).value, Link(old(node), !dir))
    {
      ChildrenDiffer(root, path[..top], node);
      ChainPlugs(root, path[..top], node);
      ExtendChain(root, path[..top], node, dir);
      path[top] := node;
      top := top + 1;
      node := Link(node, dir);
      assert path[..top] == old(path[..top]) + [old(node)];
    }

    /** Down the links of one direction to the last node there is. The values on
        the other side of the way down do not change. */
    method Slide(dir: bool)
      requires Wf() && node.Node?
      modifies this`node, this`top, path
      ensures Wf() && node.Node? && Link(node, dir).Nil?
      ensures if dir then After(PathOf(path[..top], node)) == old(After(PathOf(path[..top], node)))
        else Before(PathOf(path[..top], node)) == old(Before(PathOf(path[..top], node)))
    {
      while Link(node, dir).Node?
        invariant Wf() && node.Node?
        invariant if dir then After(PathOf(path[..top], node)) == old(After(PathOf(path[..top], node)))
          else Before(PathOf(path[..top], node)) == old(Before(PathOf(path[..top], node)))
        decreases node
      {
        Push(dir);
      }
    }

    /** rbtree_iter_start: the smallest value (dir 0) or the largest (dir 1). */
    method Start(tree: Tree, dir: bool) returns (r: Option<Value>)
      requires path.Length == RBTREE_ITER_MAX_HEIGHT && Valid(tree) && Count(tree) < 0x1_0000_0000
      modifies this, path
      ensures Wf() && root == tree
      ensures node.Nil? <==> tree.Nil?
      ensures node.Node? ==> if dir then Behind(path[..top], node) == 0 else Position(path[..top], node) == 0
      ensures r == if tree.Nil? then None else Some(InOrder(tree)[if dir then |InOrder(tree)| - 1 else 0])
    {
      HeightAtMost64(tree);
      root, node, top := tree, tree, 0;
      if node.Nil? { return None; }
      assert Chain(root, path[..top], node);
      Slide(dir);
      PositionMeaning(root, path[..top], node);
      return Some(node.value);
    }

    /** Up the stack until a node is reached whose subtree in direction `dir` was
        not the one just left. */
    method Climb(dir: bool)
      requires Wf() && node.Node? && Link(node, dir).Nil?
      modifies this`node, this`top
      ensures Wf() && root == old(root)
      ensures dir && old(Behind(path[..top], node)) == 0 ==> node.Nil?
      ensures dir && old(Behind(path[..top], node)) > 0 ==>
        node.Node? && Position(path[..top], node) == old(Position(path[..top], node)) + 1
      ensures !dir && old(Position(path[..top], node)) == 0 ==> node.Nil?
      ensures !dir && old(Position(path[..top], node)) > 0 ==>
        node.Node? && Behind(path[..top], node) == old(Behind(path[..top], node)) + 1
    {
      hide Chain; hide PathOf; hide Before; hide After; hide InOrder; hide Position; hide Behind; hide Sorted;
      ghost var pos, behind := Position(path[..top], node), Behind(path[..top], node);
      PositionMeaning(root, path[..top], node);
      StartCounts(path[..top], node, dir);
      var again := true;
      while again
        invariant Wf() && (again ==> node.Node?)
        invariant root == old(root)
        invariant again && dir ==> |Before(PathOf(path[..top], node))| + |InOrder(node)| == pos + 1
        invariant again && !dir ==> |After(PathOf(path[..top], node))| + |InOrder(node)| == behind + 1
        invariant !again && node.Nil? ==> (if dir then behind else pos) == 0
        invariant !again && node.Node? ==>
          if dir then Position(path[..top], node) == pos + 1 else Behind(path[..top], node) == behind + 1
        decreases again, top
      {
        if top == 0 {
          assert path[..top] == [];
          AtTheTop(root, node);
          node, again := Nil, false;
        } else {
          var last := node;
          PopCounts(root, path[..top], node);
          assert path[..top][..top - 1] == path[..top - 1];
          top := top - 1;
          node := path[top];
          again := last == Link(node, dir);
        }
      }
      if node.Node? { PositionMeaning(root, path[..top], node); }
    }

    /** rbtree_iter_move: one value on, towards larger keys (dir 1) or smaller. */
    method Move(dir: bool) returns (r: Option<Value>)
      requires Wf() && node.Node?
      modifies this`node, this`top, path
      ensures Wf()
      ensures dir && old(Behind(path[..top], node)) == 0 ==> node.Nil? && r == None
      ensures dir && old(Behind(path[..top], node)) > 0 ==>
        node.Node? && Position(path[..top], node) == old(Position(path[..top], node)) + 1
      ensures !dir && old(Position(path[..top], node)) == 0 ==> node.Nil? && r == None
      ensures !dir && old(Position(path[..top], node)) > 0 ==>
        node.Node? && Position(path[..top], node) == old(Position(path[..top], node)) - 1
      ensures node.Node? ==>
        Position(path[..top], node) < |InOrder(root)| && r == Some(InOrder(root)[Position(path[..top], node)])
    {
      PositionMeaning(root, path[..top], node);
      if Link(node, dir).Node? {
        Push(dir);
        Slide(!dir);
      } else {
        Climb(dir);
      }
      if node.Nil? { return None; }
      PositionMeaning(root, path[..top], node);
      return Some(node.value);
    }
  }

  /** First and then next until there is no more: exactly the values in order. */
  method Ascending(it: Iterator, tree: Tree) returns (values: seq<Value>)
    requires it.path.Length == RBTREE_ITER_MAX_HEIGHT && Valid(tree) && Count(tree) < 0x1_0000_0000
    modifies it, it.path
    ensures values == InOrder(tree)
  {
    hide Behind; hide Valid; hide Chain; hide Sorted; hide Height;
    values := [];
    var r := it.Start(tree, false);
    while r.Some?
      invariant it.Wf() && it.root == tree
      invariant r.Some? <==> it.node.Node?
      invariant r.Some? ==> |values| == Position(it.path[..it.top], it.node) < |InOrder(tree)|
      invariant r.Some? ==> r.value == InOrder(tree)[|values|] && values == InOrder(tree)[..|values|]
      invariant r.None? ==> values == InOrder(tree)
      decreases r.Some?, |InOrder(tree)| - |values|
    {
      PositionMeaning(it.root, it.path[..it.top], it.node);
      values := values + [r.value];
      r := it.Move(true);
    }
  }

  /** Last and then previous: the same values, largest first. */
  method Descending(it: Iterator, tree: Tree) returns (values: seq<Value>)
    requires it.path.Length == RBTREE_ITER_MAX_HEIGHT && Valid(tree) && Count(tree) < 0x1_0000_0000
    modifies it, it.path
    ensures |values| == |InOrder(tree)|
    ensures forall i :: 0 <= i < |values| ==> values[i] == InOrder(tree)[|values| - 1 - i]
  {
    hide Position; hide Behind; hide Valid; hide Chain; hide Sorted; hide Height;
    values := [];
    var r := it.Start(tree, true);
    if r.Some? { PositionMeaning(it.root, it.path[..it.top], it.node); }
    while r.Some?
      invariant it.Wf() && it.root == tree && |values| <= |InOrder(tree)|
      invariant r.Some? <==> it.node.Node?
      invariant r.Some? ==> Position(it.path[..it.top], it.node) == |InOrder(tree)| - 1 - |values| >= 0
      invariant r.Some? ==> r.value == InOrder(tree)[|InOrder(tree)| - 1 - |values|]
      invariant r.None? ==> |values| == |InOrder(tree)|
      invariant forall i :: 0 <= i < |values| ==> values[i] == InOrder(tree)[|InOrder(tree)| - 1 - i]
      decreases r.Some?, |InOrder(tree)| - |values|
    {
      values := values + [r.value];
      r := it.Move(false);
    }
  }
}
