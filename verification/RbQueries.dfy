/** Looking things up in a red-black tree, the tree's self-test, and how tall a
    valid tree can get (libc/rbtree.c). */
module RbQueries {
  import opened Basics
  import opened RbTree

  // ----------------------------------------------------------------- search

  lemma SideKeys(t: Tree)
    requires t.Node? && Sorted(InOrder(t))
    ensures Sorted(InOrder(t.left)) && Sorted(InOrder(t.right))
    ensures AllBelow(InOrder(t.left), t.value.key) && AllAbove(InOrder(t.right), t.value.key)
  {
    SortedSides(InOrder(t.left), t.value, InOrder(t.right));
  }

  lemma SortedSides(l: seq<Value>, v: Value, r: seq<Value>)
    requires Sorted(l + [v] + r)
    ensures Sorted(l) && Sorted(r) && AllBelow(l, v.key) && AllAbove(r, v.key)
  {
    var s := l + [v] + r;
    assert s[|l|] == v;
    forall i | 0 <= i < |l| ensures s[i] == l[i] { }
    forall i | 0 <= i < |r| ensures s[|l| + 1 + i] == r[i] { }
  }

  /** Where following the comparisons down from the root leads. */
  function Lookup(t: Tree, key: int): Option<Value>
  {
    if t.Nil? then None else if t.value.key == key then Some(t.value) else Lookup(Link(t, t.value.key < key), key)
  }

  /** In an ordered tree it leads to the value with the key, if there is one. */
  lemma {:induction false} LookupFinds(t: Tree, key: int)
    requires Sorted(InOrder(t))
    ensures Lookup(t, key).Some? ==> Lookup(t, key).value.key == key && Lookup(t, key).value in InOrder(t)
    ensures Lookup(t, key).None? <==> !HasKey(InOrder(t), key)
  {
    if t.Node? {
      assert InOrder(t)[|InOrder(t.left)|] == t.value;
      if t.value.key != key {
        SideKeys(t);
        OneSide(t, key);
        LookupFinds(Link(t, t.value.key < key), key);
      }
    }
  }

  /** rbtree_tree_find, on any tree; on a valid one the value stored with this key,
      if any. */
  method Find(root: Tree, key: int) returns (r: Option<Value>)
    ensures r == Lookup(root, key)
    ensures Valid(root) && r.Some? ==> r.value.key == key && r.value in InOrder(root)
    ensures Valid(root) ==> (r.None? <==> !HasKey(InOrder(root), key))
  {
    var it := root;
    while it.Node? && it.value.key != key
      invariant Lookup(it, key) == Lookup(root, key)
      decreases it
    {
      it := Link(it, it.value.key < key);
    }
    ghost var ordered := Valid(root);
    if ordered { LookupFinds(root, key); }
    if it.Nil? { return None; }
    return Some(it.value);
  }

  /** The key can only be on the side the comparison chooses. */
  lemma OneSide(t: Tree, key: int)
    requires t.Node? && t.value.key != key
    requires AllBelow(InOrder(t.left), t.value.key) && AllAbove(InOrder(t.right), t.value.key)
    ensures HasKey(InOrder(t), key) <==> HasKey(InOrder(Link(t, t.value.key < key)), key)
    ensures forall v :: v in InOrder(Link(t, t.value.key < key)) ==> v in InOrder(t)
  {
    var l, r, s := InOrder(t.left), InOrder(t.right), InOrder(t);
    assert s == l + [t.value] + r;
    if HasKey(s, key) {
      var i :| 0 <= i < |s| && s[i].key == key;
      if i < |l| { assert l[i] == s[i]; } else if i > |l| { assert r[i - |l| - 1] == s[i]; }
    }
    forall i | 0 <= i < |l| ensures s[i] == l[i] { }
    forall i | 0 <= i < |r| ensures s[|l| + 1 + i] == r[i] { }
  }

  // -------------------------------------------------------------- self-test

  /** rbtree_tree_test: 0 for a tree it rejects, otherwise a black height. */
  function SelfTest(t: Tree): nat
  {
    if t.Nil? then 1
    else if IsRed(t) && (IsRed(t.left) || IsRed(t.right)) then 0
    else
      var lh, rh := SelfTest(t.left), SelfTest(t.right);
      if (t.left.Node? && t.left.value.key >= t.value.key) || (t.right.Node? && t.right.value.key <= t.value.key) then 0
      else if lh != 0 && rh != 0 && lh != rh then 0
      else if lh != 0 && rh != 0 then (if IsRed(t) then lh else lh + 1)
      else 0
  }

  /** Every node is ordered with respect to its own children. */
  predicate ParentOrdered(t: Tree)
  {
    t.Nil? ||
    (&& (t.left.Node? ==> t.left.value.key < t.value.key)
     && (t.right.Node? ==> t.value.key < t.right.value.key)
     && ParentOrdered(t.left) && ParentOrdered(t.right))
  }

  /** What the self-test decides exactly: balance, and order between parents and
      children only. */
  lemma {:induction false} SelfTestExact(t: Tree)
    ensures SelfTest(t) != 0 <==> Balanced(t) && ParentOrdered(t)
    ensures SelfTest(t) != 0 ==> SelfTest(t) == BlackHeight(t) + 1
  {
    if t.Node? {
      SelfTestExact(t.left);
      SelfTestExact(t.right);
    }
  }

  lemma {:induction false} SortedIsParentOrdered(t: Tree)
    requires Sorted(InOrder(t))
    ensures ParentOrdered(t)
  {
    if t.Node? {
      SideKeys(t);
      SortedIsParentOrdered(t.left);
      SortedIsParentOrdered(t.right);
      if t.left.Node? { assert InOrder(t.left)[|InOrder(t.left.left)|] == t.left.value; }
      if t.right.Node? { assert InOrder(t.right)[|InOrder(t.right.left)|] == t.right.value; }
    }
  }

  /** Every valid tree passes, with its black height plus one. */
  lemma ValidPassesSelfTest(t: Tree)
    requires Valid(t)
    ensures SelfTest(t) == BlackHeight(t) + 1
  {
    SortedIsParentOrdered(t);
    SelfTestExact(t);
  }

  /** The converse fails: 6 hangs to the right of 3 below a root 5, which the
      test does not see, and looking for 6 then misses it. */
  lemma SelfTestAcceptsUnordered()
    ensures exists t ::
      SelfTest(t) != 0 && !IsRed(t) && !Sorted(InOrder(t)) && HasKey(InOrder(t), 6) && Lookup(t, 6).None?
  {
    var six := Node(true, Nil, Value(6, 0), Nil);
    var three := Node(false, Nil, Value(3, 0), six);
    var t := Node(false, three, Value(5, 0), Node(false, Nil, Value(8, 0), Nil));
    assert SelfTest(six) == 1 && SelfTest(three) == 2;
    assert SelfTest(t) == 3;
    assert InOrder(three) == [Value(3, 0), Value(6, 0)];
    assert InOrder(t)[1] == Value(6, 0) && InOrder(t)[2] == Value(5, 0);
    assert HasKey(InOrder(t), 6);
    assert Lookup(t.right, 6) == Lookup(Nil, 6) == None;
  }

  // ------------------------------------------------------------ height bound

  function Height(t: Tree): nat
  {
    if t.Nil? then 0
    else 1 + if Height(t.left) < Height(t.right) then Height(t.right) else Height(t.left)
  }

  function Pow2(n: nat): nat
  {
    if n == 0 then 1 else 2 * Pow2(n - 1)
  }

  lemma {:induction false} HeightBound(t: Tree)
    requires Balanced(t)
    ensures Height(t) <= 2 * BlackHeight(t) + if IsRed(t) then 1 else 0
    ensures Count(t) + 1 >= Pow2(BlackHeight(t))
  {
    if t.Node? {
      HeightBound(t.left);
      HeightBound(t.right);
    }
  }

  lemma {:induction false} Pow2Grows(a: nat, b: nat)
    requires a < b
    ensures Pow2(a) < Pow2(b)
    decreases b
  {
    if a < b - 1 { Pow2Grows(a, b - 1); }
    Pow2Positive(b - 1);
  }

  lemma {:induction false} Pow2Positive(n: nat)
    ensures Pow2(n) > 0
  {
    if n > 0 { Pow2Positive(n - 1); }
  }

  lemma Pow2Of32()
    ensures Pow2(32) == 0x1_0000_0000
  {
    assert Pow2(8) == 256;
    assert Pow2(16) == 0x1_0000;
    assert Pow2(24) == 0x100_0000;
  }

  /** RBTREE_ITER_MAX_HEIGHT is enough for every valid tree that 32 bits can count. */
  lemma HeightAtMost64(t: Tree)
    requires Valid(t) && Count(t) < 0x1_0000_0000
    ensures Height(t) <= 64
  {
    HeightBound(t);
    Pow2Of32();
    if BlackHeight(t) > 32 { Pow2Grows(32, BlackHeight(t)); }
  }
}
