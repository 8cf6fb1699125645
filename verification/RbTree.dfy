/** Red-black trees (libc/rbtree.c): the tree, its invariant, rotations, and the
    path from the root down to a node that the top-down loops keep in pointers. */
module RbTree {

  /** What the user stores; the comparison callback orders values by `key`. */
  datatype Value = Value(key: int, data: int)

  datatype Tree = Nil | Node(red: bool, left: Tree, value: Value, right: Tree)

  /** link[0] is the left child, link[1] the right one. */
  function Link(t: Tree, dir: bool): Tree
    requires t.Node?
  {
    if dir then t.right else t.left
  }

  /** The node with child `child` under link[dir] and `other` under the other link. */
  function Join(dir: bool, red: bool, v: Value, child: Tree, other: Tree): Tree
  {
    if dir then Node(red, other, v, child) else Node(red, child, v, other)
  }

  predicate IsRed(t: Tree)
  {
    t.Node? && t.red
  }

  predicate BothRed(t: Tree)
  {
    t.Node? && IsRed(t.left) && IsRed(t.right)
  }

  function Colored(t: Tree, red: bool): Tree
  {
    if t.Nil? then Nil else t.(red := red)
  }

  // ------------------------------------------------------------- invariants

  function InOrder(t: Tree): seq<Value>
  {
    if t.Nil? then [] else InOrder(t.left) + [t.value] + InOrder(t.right)
  }

  function Count(t: Tree): nat
  {
    if t.Nil? then 0 else Count(t.left) + 1 + Count(t.right)
  }

  /** Black nodes on the way down the left links. */
  function BlackHeight(t: Tree): nat
  {
    if t.Nil? then 0 else BlackHeight(t.left) + if t.red then 0 else 1
  }

  /** No red node has a red child and all ways down meet equally many black nodes. */
  predicate Balanced(t: Tree)
  {
    t.Nil? ||
    (&& Balanced(t.left) && Balanced(t.right)
     && BlackHeight(t.left) == BlackHeight(t.right)
     && (t.red ==> !IsRed(t.left) && !IsRed(t.right)))
  }

  lemma BalancedParts(t: Tree)
    requires Balanced(t) && t.Node?
    ensures Balanced(t.left) && Balanced(t.right)
    ensures BlackHeight(t.left) == BlackHeight(t.right) == BlackHeight(t) - if t.red then 0 else 1
    ensures t.red ==> !IsRed(t.left) && !IsRed(t.right)
  {
  }

  predicate Sorted(s: seq<Value>)
  {
    forall i, j :: 0 <= i < j < |s| ==> s[i].key < s[j].key
  }

  /** A valid red-black tree: ordered, balanced, with a black root. */
  predicate Valid(t: Tree)
  {
    Balanced(t) && !IsRed(t) && Sorted(InOrder(t))
  }

  predicate HasKey(s: seq<Value>, key: int)
  {
    exists i :: 0 <= i < |s| && s[i].key == key
  }

  lemma {:induction false} CountIsLength(t: Tree)
    ensures Count(t) == |InOrder(t)|
  {
    if t.Node? {
      CountIsLength(t.left);
      CountIsLength(t.right);
    }
  }

  // -------------------------------------------------------------- rotations

  /** rbtree_node_rotate: the child opposite to `dir` comes up black, the node
      goes down on the `dir` side, red. */
  function Rotate(t: Tree, dir: bool): Tree
    requires t.Node? ==> Link(t, !dir).Node?
  {
    if t.Nil? then Nil
    else
      var up := Link(t, !dir);
      var down := Join(dir, true, t.value, Link(t, dir), Link(up, dir));
      Join(dir, false, up.value, down, Link(up, !dir))
  }

  /** rbtree_node_rotate2 */
  function Rotate2(t: Tree, dir: bool): Tree
    requires t.Node? ==> Link(t, !dir).Node? && Link(Link(t, !dir), dir).Node?
  {
    if t.Nil? then Nil
    else
      Rotate(Join(dir, t.red, t.value, Link(t, dir), Rotate(Link(t, !dir), !dir)), dir)
  }

  /** Neither rotation changes the order of the values. */
  lemma RotateKeepsOrder(t: Tree, dir: bool)
    requires t.Node? ==> Link(t, !dir).Node?
    ensures InOrder(Rotate(t, dir)) == InOrder(t)
  {
    if t.Node? {
      var up := Link(t, !dir);
      if dir {
        assert InOrder(t) == InOrder(up.left) + [up.value] + InOrder(up.right) + [t.value] + InOrder(t.right);
      } else {
        assert InOrder(t) == InOrder(t.left) + [t.value] + InOrder(up.left) + [up.value] + InOrder(up.right);
      }
    }
  }

  lemma Rotate2KeepsOrder(t: Tree, dir: bool)
    requires t.Node? ==> Link(t, !dir).Node? && Link(Link(t, !dir), dir).Node?
    ensures InOrder(Rotate2(t, dir)) == InOrder(t)
  {
    if t.Node? {
      RotateKeepsOrder(Link(t, !dir), !dir);
      RotateKeepsOrder(Join(dir, t.red, t.value, Link(t, dir), Rotate(Link(t, !dir), !dir)), dir);
    }
  }

  // ------------------------------------------------------------------ paths

  /** The way from the false root down to a position: at each step the node
      passed, the link followed and the subtree left aside. */
  datatype Path = Top | Step(up: Path, dir: bool, red: bool, value: Value, sib: Tree)

  predicate PathRed(p: Path)
  {
    p.Step? && p.red
  }

  /** The whole tree with `t` at the position `p` leads to. */
  function Plug(p: Path, t: Tree): Tree
  {
    match p
    case Top => t
    case Step(up, dir, red, v, sib) => Plug(up, Join(dir, red, v, t, sib))
  }

  function Before(p: Path): seq<Value>
  {
    match p
    case Top => []
    case Step(up, dir, _, v, sib) => Before(up) + if dir then InOrder(sib) + [v] else []
  }

  function After(p: Path): seq<Value>
  {
    match p
    case Top => []
    case Step(up, dir, _, v, sib) => (if dir then [] else [v] + InOrder(sib)) + After(up)
  }

  lemma Regroup(a: seq<Value>, b: seq<Value>, c: seq<Value>, d: seq<Value>, e: seq<Value>)
    ensures a + (b + c + d) + e == (a + (b + c)) + d + ([] + e)
    ensures a + (b + c + d) + e == (a + []) + b + ((c + d) + e)
  {
  }

  lemma {:induction false} PlugOrder(p: Path, t: Tree)
    ensures InOrder(Plug(p, t)) == Before(p) + InOrder(t) + After(p)
  {
    match p
    case Top =>
    case Step(up, dir, red, v, sib) =>
      PlugOrder(up, Join(dir, red, v, t, sib));
      if dir {
        Regroup(Before(up), InOrder(sib), [v], InOrder(t), After(up));
      } else {
        Regroup(Before(up), InOrder(t), [v], InOrder(sib), After(up));
      }
  }

  /** The surroundings accept, at their position, a balanced subtree of black
      height `bh` whose root is red or not as `red` says. */
  predicate Fits(p: Path, bh: nat, red: bool)
  {
    match p
    case Top => true
    case Step(up, _, pred, _, sib) =>
      && Balanced(sib) && BlackHeight(sib) == bh
      && (pred ==> !red && !IsRed(sib))
      && Fits(up, bh + if pred then 0 else 1, pred)
  }

  lemma FitsBlack(p: Path, bh: nat, red: bool)
    requires Fits(p, bh, red)
    ensures Fits(p, bh, false)
  {
  }

  lemma {:induction false} PlugBalanced(p: Path, t: Tree)
    ensures Balanced(Plug(p, t)) <==> Balanced(t) && Fits(p, BlackHeight(t), IsRed(t))
  {
    match p
    case Top =>
    case Step(up, dir, red, v, sib) =>
      PlugBalanced(up, Join(dir, red, v, t, sib));
  }

  lemma BlackRoot(t: Tree)
    requires Balanced(t) && Sorted(InOrder(t))
    ensures Valid(Colored(t, false)) && InOrder(Colored(t, false)) == InOrder(t)
  {
  }

  // --------------------------------------------- ordered sequences of values

  /** `v` put in its place; a value with the same key stays and `v` is dropped. */
  function Inserted(s: seq<Value>, v: Value): seq<Value>
  {
    if s == [] then [v]
    else if s[0].key < v.key then [s[0]] + Inserted(s[1..], v)
    else if s[0].key == v.key then s
    else [v] + s
  }

  /** Without the value that has this key, if there is one. */
  function Removed(s: seq<Value>, key: int): seq<Value>
  {
    if s == [] then []
    else if s[0].key == key then s[1..]
    else [s[0]] + Removed(s[1..], key)
  }

  predicate AllBelow(s: seq<Value>, key: int)
  {
    forall i :: 0 <= i < |s| ==> s[i].key < key
  }

  predicate AllAbove(s: seq<Value>, key: int)
  {
    forall i :: 0 <= i < |s| ==> key < s[i].key
  }

  lemma {:induction false} InsertedBetween(a: seq<Value>, b: seq<Value>, v: Value)
    requires AllBelow(a, v.key) && AllAbove(b, v.key)
    ensures Inserted(a + b, v) == a + [v] + b
  {
    if a == [] {
      assert a + b == b;
    } else {
      assert (a + b)[1..] == a[1..] + b;
      InsertedBetween(a[1..], b, v);
    }
  }

  lemma {:induction false} InsertedPresent(a: seq<Value>, w: Value, b: seq<Value>, v: Value)
    requires AllBelow(a, v.key) && w.key == v.key
    ensures Inserted(a + [w] + b, v) == a + [w] + b
  {
    if a == [] {
      assert a + [w] + b == [w] + b;
    } else {
      assert (a + [w] + b)[1..] == a[1..] + [w] + b;
      InsertedPresent(a[1..], w, b, v);
    }
  }

  lemma {:induction false} RemovedBetween(a: seq<Value>, w: Value, b: seq<Value>, key: int)
    requires AllBelow(a, key) && w.key == key
    ensures Removed(a + [w] + b, key) == a + b
  {
    if a == [] {
      assert a + [w] + b == [w] + b && a + b == b;
    } else {
      assert (a + [w] + b)[1..] == a[1..] + [w] + b;
      RemovedBetween(a[1..], w, b, key);
    }
  }

  lemma {:induction false} RemovedAbsent(s: seq<Value>, key: int)
    requires !HasKey(s, key)
    ensures Removed(s, key) == s
  {
    if s != [] {
      assert s[0].key != key;
      assert !HasKey(s[1..], key);
      RemovedAbsent(s[1..], key);
    }
  }
}
