/** The tree object of libc/rbtree.c: root and size counter, updated in place,
    and the loop that takes a tree apart. */
module RbObject {
  import opened Basics
  import opened RbTree
  import RbInsert
  import RbRemove

  lemma {:induction false} InsertedLength(s: seq<Value>, v: Value)
    requires Sorted(s)
    ensures |Inserted(s, v)| == |s| + if HasKey(s, v.key) then 0 else 1
    ensures HasKey(Inserted(s, v), v.key)
  {
    if s != [] {
      InsertedLength(s[1..], v);
      HasKeyTail(s, v.key);
      if s[0].key < v.key {
        HasKeyTail(Inserted(s, v), v.key);
        assert Inserted(s, v)[1..] == Inserted(s[1..], v);
      } else if s[0].key == v.key {
        assert Inserted(s, v)[0].key == v.key;
      } else {
        assert forall i :: 0 <= i < |s| ==> s[i].key > v.key;
        assert Inserted(s, v)[0].key == v.key;
      }
    } else {
      assert Inserted(s, v)[0].key == v.key;
    }
  }

  lemma HasKeyTail(s: seq<Value>, key: int)
    requires s != []
    ensures HasKey(s, key) <==> s[0].key == key || HasKey(s[1..], key)
  {
    if HasKey(s[1..], key) {
      var i :| 0 <= i < |s[1..]| && s[1..][i].key == key;
      assert s[i + 1].key == key;
    }
    if HasKey(s, key) && s[0].key != key {
      var i :| 0 <= i < |s| && s[i].key == key;
      assert s[1..][i - 1].key == key;
    }
  }

  lemma {:induction false} RemovedLength(s: seq<Value>, key: int)
    requires Sorted(s)
    ensures |Removed(s, key)| == |s| - if HasKey(s, key) then 1 else 0
    ensures !HasKey(Removed(s, key), key)
  {
    if s != [] {
      HasKeyTail(s, key);
      RemovedLength(s[1..], key);
      if s[0].key == key {
        assert forall i :: 0 <= i < |s[1..]| ==> s[1..][i].key > key;
      } else {
        HasKeyTail(Removed(s, key), key);
        assert Removed(s, key)[1..] == Removed(s[1..], key);
      }
    }
  }

  /** Removing a key just inserted, when it was not there before, undoes it. */
  lemma {:induction false} InsertThenRemove(s: seq<Value>, v: Value)
    requires Sorted(s) && !HasKey(s, v.key)
    ensures Removed(Inserted(s, v), v.key) == s
  {
    if s != [] {
      HasKeyTail(s, v.key);
      InsertThenRemove(s[1..], v);
      if s[0].key < v.key {
        assert Inserted(s, v)[1..] == Inserted(s[1..], v);
      } else {
        assert Inserted(s, v)[1..] == s;
      }
    }
  }

  class TreeObject {
    var root: Tree
    var size: int

    ghost predicate Wf()
      reads this
    {
      Valid(root) && 0 <= size < WORD
    }

    constructor ()
      ensures Wf() && root == Nil && size == 0
    {
      root, size := Nil, 0;
    }

    /** rbtree_tree_insert. The counter goes up even when the key was already
        there: it keeps matching the number of nodes exactly for fresh keys. */
    method Insert(v: Value)
      requires Wf()
      modifies this
      ensures Wf() && InOrder(root) == Inserted(old(InOrder(root)), v)
      ensures size == if old(size) == WORD - 1 then 0 else old(size) + 1
      ensures old(size == Count(root)) && old(size) + 1 < WORD ==>
        (size == Count(root) <==> !HasKey(old(InOrder(root)), v.key))
    {
      InsertedLength(InOrder(root), v);
      CountIsLength(root);
      root := RbInsert.InsertNode(root, v);
      CountIsLength(root);
      size := if size == WORD - 1 then 0 else size + 1;
    }

    /** rbtree_tree_remove. On a tree that is not empty the counter goes down even
        when the key was absent: it keeps matching exactly when it was there. */
    method Remove(key: int)
      requires Wf()
      modifies this
      ensures Wf() && InOrder(root) == Removed(old(InOrder(root)), key)
      ensures size == if old(root).Nil? then old(size) else if old(size) == 0 then WORD - 1 else old(size) - 1
      ensures old(size == Count(root)) ==>
        (size == Count(root) <==> old(root).Nil? || HasKey(old(InOrder(root)), key))
    {
      RemovedLength(InOrder(root), key);
      CountIsLength(root);
      if root.Node? {
        root := RbRemove.RemoveKey(root, key);
        size := if size == 0 then WORD - 1 else size - 1;
        CountIsLength(root);
      }
    }
  }

  /** The same key twice, and then a key that is not there: the counter says two
      for one node, and after one more absent key nothing for one node. */
  method MiscountedCalls(v: Value, absent: int) returns (twice: int, after: int, nodes: nat)
    requires absent != v.key
    ensures twice == 2 && after == 0 && nodes == 1
  {
    var t := new TreeObject();
    t.Insert(v);
    assert InOrder(t.root) == [v];
    t.Insert(v);
    assert InOrder(t.root) == [v];
    twice := t.size;
    t.Remove(absent);
    assert InOrder(t.root) == [v];
    t.Remove(absent);
    after, nodes := t.size, Count(t.root);
    CountIsLength(t.root);
  }

  // ----------------------------------------------------------- destruction

  /** Nodes on the way down the right links. */
  function RightSpine(t: Tree): nat
  {
    if t.Nil? then 0 else 1 + RightSpine(t.right)
  }

  lemma {:induction false} SpineWithinCount(t: Tree)
    ensures RightSpine(t) <= Count(t)
  {
    if t.Node? { SpineWithinCount(t.right); }
  }

  /** The left link rotated away, colors untouched. */
  function RotatedAway(t: Tree): Tree
    requires t.Node? && t.left.Node?
  {
    var save := t.left;
    Node(save.red, save.left, save.value, Node(t.red, save.right, t.value, t.right))
  }

  /** One more node on the right spine, the same values in the same order. */
  lemma RotatedAwayKeeps(t: Tree)
    requires t.Node? && t.left.Node?
    ensures InOrder(RotatedAway(t)) == InOrder(t) && Count(RotatedAway(t)) == Count(t)
    ensures RightSpine(RotatedAway(t)) == RightSpine(t) + 1
  {
    var save := t.left;
    var down := Node(t.red, save.right, t.value, t.right);
    Regrouped(InOrder(save.left), [save.value], InOrder(save.right), [t.value], InOrder(t.right));
    assert InOrder(t) == InOrder(save) + [t.value] + InOrder(t.right);
    assert InOrder(down) == InOrder(save.right) + [t.value] + InOrder(t.right);
    assert Count(down) == Count(save.right) + 1 + Count(t.right) && RightSpine(down) == RightSpine(t);
  }

  lemma Regrouped(a: seq<Value>, b: seq<Value>, c: seq<Value>, d: seq<Value>, e: seq<Value>)
    ensures a + b + c + d + e == a + b + (c + d + e)
  {
  }

  /** rbtree_tree_dealloc: left links are rotated away until the node has none,
      then the callback gets it. Every node exactly once, in ascending order,
      for any finite tree. */
  method Destroy(root: Tree) returns (called: seq<Value>)
    ensures called == InOrder(root)
  {
    called := [];
    var node := root;
    while node.Node?
      invariant called + InOrder(node) == InOrder(root)
      decreases 2 * Count(node) - RightSpine(node)
    {
      SpineWithinCount(node);
      SpineWithinCount(node.right);
      if node.left.Nil? {
        assert InOrder(node) == [node.value] + InOrder(node.right);
        assert called + InOrder(node) == (called + [node.value]) + InOrder(node.right);
        called := called + [node.value];
        node := node.right;
      } else {
        RotatedAwayKeeps(node);
        SpineWithinCount(RotatedAway(node));
        node := RotatedAway(node);
      }
    }
  }
}
