/** Top-down insertion (rbtree_tree_insert_node in libc/rbtree.c). One pass from
    the root down: color flips on the way, rotations where two reds meet. The
    loop's pointers g, p and q are the path and the tree under it. */
module RbInsert {
  import opened RbTree

  datatype Cursor = Cursor(path: Path, q: Tree)

  function Values(c: Cursor): seq<Value>
  {
    Before(c.path) + InOrder(c.q) + After(c.path)
  }

  /** The whole tree around the cursor is balanced (its root may be red). */
  predicate Sound(c: Cursor)
  {
    Balanced(c.q) && Fits(c.path, BlackHeight(c.q), IsRed(c.q))
  }

  /** Everything to the left of the position is below the key, everything to the right above. */
  predicate Around(p: Path, key: int)
  {
    AllBelow(Before(p), key) && AllAbove(After(p), key)
  }

  // ------------------------------------------------------------ the updates

  function Flipped(q: Tree): Tree
    requires BothRed(q)
  {
    Node(true, Colored(q.left, false), q.value, Colored(q.right, false))
  }

  /** The subtree at the grandparent of the cursor's node. */
  function Grandparent(c: Cursor): Tree
    requires c.path.Step? && c.path.up.Step?
  {
    var p := c.path;
    Join(p.up.dir, p.up.red, p.up.value, Join(p.dir, p.red, p.value, c.q, p.sib), p.up.sib)
  }

  /** t->link[dir2] = rotate(g, !last), seen from q, which stays below p. */
  function SingleRotation(c: Cursor): Cursor
    requires c.path.Step? && c.path.up.Step? && c.path.dir == c.path.up.dir
  {
    var last := c.path.up.dir;
    var r := Rotate(Grandparent(c), !last);
    Cursor(Step(c.path.up.up, last, r.red, r.value, Link(r, !last)), Link(r, last))
  }

  /** t->link[dir2] = rotate2(g, !last), seen from q, which comes to the top. */
  function DoubleRotation(c: Cursor): Cursor
    requires c.path.Step? && c.path.up.Step? && c.path.dir != c.path.up.dir && c.q.Node?
  {
    Cursor(c.path.up.up, Rotate2(Grandparent(c), !c.path.up.dir))
  }

  function Down(c: Cursor, dir: bool): Cursor
    requires c.q.Node?
  {
    Cursor(Step(c.path, dir, c.q.red, c.q.value, Link(c.q, !dir)), Link(c.q, dir))
  }

  // ------------------------------------------------- what each update keeps

  lemma BlackenRed(t: Tree)
    requires Balanced(t) && IsRed(t)
    ensures Balanced(Colored(t, false)) && BlackHeight(Colored(t, false)) == BlackHeight(t) + 1
    ensures InOrder(Colored(t, false)) == InOrder(t)
  {
  }

  lemma FlipKeeps(c: Cursor)
    requires Sound(c) && BothRed(c.q)
    ensures Balanced(Flipped(c.q)) && BlackHeight(Flipped(c.q)) == BlackHeight(c.q) && !IsRed(c.q)
    ensures InOrder(Flipped(c.q)) == InOrder(c.q)
  {
    BlackenRed(c.q.left);
    BlackenRed(c.q.right);
  }

  /** A red node below a red parent: the shape in which the code rotates. */
  predicate Clash(c: Cursor)
  {
    && Balanced(c.q) && IsRed(c.q) && PathRed(c.path) && c.path.up.Step?
    && Fits(c.path, BlackHeight(c.q), false) && !IsRed(c.path.up.sib)
  }

  lemma GrandparentOrder(c: Cursor)
    requires c.path.Step? && c.path.up.Step?
    ensures Values(c) == Values(Cursor(c.path.up.up, Grandparent(c)))
  {
    var p := c.path;
    PlugOrder(p, c.q);
    PlugOrder(p.up.up, Grandparent(c));
  }

  lemma SingleKeeps(c: Cursor)
    requires Clash(c) && c.path.dir == c.path.up.dir
    ensures Sound(SingleRotation(c)) && Values(SingleRotation(c)) == Values(c)
    ensures SingleRotation(c).q == c.q && !PathRed(SingleRotation(c).path)
  {
    var c' := SingleRotation(c);
    assert Fits(c.path.up, BlackHeight(c.q), true);
    var last := c.path.up.dir;
    GrandparentOrder(c);
    RotateKeepsOrder(Grandparent(c), !last);
    var r := Rotate(Grandparent(c), !last);
    PlugOrder(c.path.up.up, r);
    PlugOrder(c'.path, c'.q);
    assert Join(last, r.red, r.value, Link(r, last), Link(r, !last)) == r;
    assert Balanced(Link(r, !last)) && BlackHeight(Link(r, !last)) == BlackHeight(c.q);
  }

  lemma DoubleKeeps(c: Cursor)
    requires Clash(c) && c.path.dir != c.path.up.dir
    ensures Sound(DoubleRotation(c)) && Values(DoubleRotation(c)) == Values(c)
    ensures var r := DoubleRotation(c).q;
      && r.Node? && !r.red && r.value == c.q.value
      && IsRed(r.left) && IsRed(r.right)
      && Link(r, !c.path.dir) == Join(c.path.dir, true, c.path.value, Link(c.q, !c.path.dir), c.path.sib)
      && Link(r, c.path.dir) == Join(!c.path.dir, true, c.path.up.value, Link(c.q, c.path.dir), c.path.up.sib)
  {
    GrandparentOrder(c);
    Rotate2KeepsOrder(Grandparent(c), !c.path.up.dir);
    assert Fits(c.path.up, BlackHeight(c.q), true);
    var r, p := DoubleRotation(c).q, c.path;
    assert Link(r, !p.dir) == Join(p.dir, true, p.value, Link(c.q, !p.dir), p.sib);
    assert Link(r, p.dir) == Join(!p.dir, true, p.up.value, Link(c.q, p.dir), p.up.sib);
    assert Balanced(r.left) && Balanced(r.right);
    assert BlackHeight(r.left) == BlackHeight(c.q) == BlackHeight(r.right);
  }

  lemma DownKeeps(c: Cursor, dir: bool)
    requires c.q.Node?
    ensures Values(Down(c, dir)) == Values(c)
    ensures Sound(c) ==> Sound(Down(c, dir))
  {
    PlugOrder(c.path, c.q);
    PlugOrder(Down(c, dir).path, Down(c, dir).q);
    assert Join(dir, c.q.red, c.q.value, Link(c.q, dir), Link(c.q, !dir)) == c.q;
    PlugBalanced(c.path, c.q);
    PlugBalanced(Down(c, dir).path, Down(c, dir).q);
  }

  // --------------------------------------------------------------- the loop

  /** Nodes still to be compared on the way from `t` to the key. */
  function SearchLength(t: Tree, key: int): nat
  {
    if t.Nil? then 0
    else if t.value.key == key then 1
    else 1 + SearchLength(Link(t, t.value.key < key), key)
  }

  /** A node that is there and that the next round will not turn red. */
  predicate Calm(q: Tree)
  {
    q.Node? && !IsRed(q) && !BothRed(q)
  }

  /** What holds whenever the loop looks at q. After a rotation the pointers g
      and t are not the ancestors of q for `stale` rounds; in those rounds no
      rotation can be needed. When p is red and a rotation may be needed, the
      grandparent is there and the uncle is not red. */
  predicate Ready(c: Cursor, stale: nat, key: int)
  {
    && stale <= 2
    && (c.path.Top? ==> !IsRed(c.q))
    && (IsRed(c.q) && stale == 0 ==> c.path.Step? && !IsRed(c.path.sib))
    && (PathRed(c.path) ==> Calm(c.q) || (c.path.up.Step? && stale == 0 && !IsRed(c.path.up.sib)))
    && (stale == 1 ==> Calm(c.q))
    && (stale == 2 ==> IsRed(c.q) && !BothRed(c.q) && !PathRed(c.path) && c.q.value.key != key
                       && Calm(Link(c.q, c.q.value.key < key)))
  }

  /** Going down after a round without rotation. */
  lemma DownReady(c: Cursor, flipped: bool, stale: nat, key: int)
    requires Sound(c) && c.q.Node? && c.q.value.key != key
    requires Around(c.path, key)
    requires Ready(c, stale, key) || flipped
    requires !BothRed(c.q)
    requires flipped ==> stale == 0 && IsRed(c.q) && Calm(c.q.left) && Calm(c.q.right)
    ensures Sound(Down(c, c.q.value.key < key))
    ensures Ready(Down(c, c.q.value.key < key), if stale > 0 then stale - 1 else 0, key)
  {
    DownKeeps(c, c.q.value.key < key);
  }

  lemma DownAround(c: Cursor, key: int)
    requires c.q.Node? && c.q.value.key != key && Around(c.path, key) && Sorted(Values(c))
    ensures Around(Down(c, c.q.value.key < key).path, key)
  {
    var dir := c.q.value.key < key;
    var l, v, r := InOrder(c.q.left), c.q.value, InOrder(c.q.right);
    var n, m := |Before(c.path)|, |InOrder(c.q.left)|;
    assert Values(c) == Before(c.path) + l + [v] + r + After(c.path);
    assert Values(c)[n + m] == v;
    if dir {
      forall i | 0 <= i < m ensures l[i].key < key { assert Values(c)[n + i] == l[i]; }
    } else {
      forall i | 0 <= i < |r| ensures key < r[i].key { assert Values(c)[n + m + 1 + i] == r[i]; }
    }
  }

  lemma SingleAround(c: Cursor)
    requires Clash(c) && c.path.dir == c.path.up.dir
    ensures Before(SingleRotation(c).path) == Before(c.path) && After(SingleRotation(c).path) == After(c.path)
  {
    var p := c.path;
    var r := Rotate(Grandparent(c), !p.dir);
    assert Link(r, !p.dir) == Join(!p.dir, true, p.up.value, p.up.sib, p.sib);
  }

  /** Going down after a single rotation: one round with a stale t. */
  lemma SingleDownReady(c: Cursor, key: int)
    requires Clash(c) && c.path.dir == c.path.up.dir && c.q.value.key != key && Around(c.path, key)
    requires Calm(c.q.left) && Calm(c.q.right)
    ensures var c' := SingleRotation(c);
      && Around(c'.path, key) && Sound(Down(c', c'.q.value.key < key))
      && Ready(Down(c', c'.q.value.key < key), 1, key)
  {
    SingleKeeps(c);
    SingleAround(c);
    DownKeeps(SingleRotation(c), c.q.value.key < key);
  }

  /** Going down after a double rotation: two rounds with stale g and t, the
      first of them on the node the search had already passed. */
  lemma DoubleDownReady(c: Cursor, key: int)
    requires Clash(c) && c.path.dir != c.path.up.dir && c.q.value.key != key && Around(c.path, key)
    requires Calm(c.q.left) && Calm(c.q.right)
    ensures var c' := DoubleRotation(c);
      && Around(c'.path, key) && Sound(Down(c', c'.q.value.key < key))
      && Ready(Down(c', c'.q.value.key < key), 2, key)
    ensures var c' := DoubleRotation(c);
      SearchLength(Down(c', c'.q.value.key < key).q, key) == SearchLength(c.q, key)
  {
    DoubleKeeps(c);
    var p, c' := c.path, DoubleRotation(c);
    DownKeeps(c', c.q.value.key < key);
    PassedKeys(p, key);
    PassedKeys(p.up, key);
    var down := Down(c', c.q.value.key < key);
    assert Link(down.q, down.q.value.key < key) == Link(c.q, c.q.value.key < key);
  }

  /** The keys along the path tell which way the search went. */
  lemma PassedKeys(p: Path, key: int)
    requires p.Step? && AllBelow(Before(p), key) && AllAbove(After(p), key)
    ensures p.value.key != key && (p.value.key < key <==> p.dir)
    ensures AllBelow(Before(p.up), key) && AllAbove(After(p.up), key)
  {
    if p.dir {
      assert Before(p)[|Before(p)| - 1] == p.value;
      assert After(p) == After(p.up);
    } else {
      assert After(p)[0] == p.value;
      assert Before(p) == Before(p.up);
    }
    forall i | 0 <= i < |Before(p.up)| ensures Before(p.up)[i].key < key { assert Before(p)[i] == Before(p.up)[i]; }
    forall i | 0 <= i < |After(p.up)| ensures key < After(p.up)[i].key {
      assert After(p)[|After(p)| - |After(p.up)| + i] == After(p.up)[i];
    }
  }

  lemma NothingBetween(a: seq<Value>, b: seq<Value>)
    ensures a + [] + b == a + b
  {
  }

  lemma OnlyValue(v: Value)
    ensures InOrder(Node(true, Nil, v, Nil)) == [v]
  {
  }

  lemma NewNodeValues(p: Path, v: Value)
    requires Around(p, v.key)
    ensures Values(Cursor(p, Node(true, Nil, v, Nil))) == Inserted(Values(Cursor(p, Nil)), v)
  {
    hide Inserted; hide Before; hide After; hide AllBelow; hide AllAbove;
    InsertedBetween(Before(p), After(p), v);
    NothingBetween(Before(p), After(p));
    OnlyValue(v);
  }

  /** Putting the new red node at an empty link. */
  lemma NewNodeFits(c: Cursor, stale: nat, v: Value)
    requires c.q.Nil? && Sound(c) && Ready(c, stale, v.key)
    ensures var c' := c.(q := Node(true, Nil, v, Nil));
      if PathRed(c.path) then stale == 0 && Clash(c') else Sound(c')
  {
    var n := Node(true, Nil, v, Nil);
    assert Balanced(n) && BlackHeight(n) == 0;
  }

  /** Flipping the colors of a node with two red children. */
  lemma FlipNode(c: Cursor, stale: nat, key: int)
    requires Sound(c) && Ready(c, stale, key) && BothRed(c.q)
    ensures var c' := c.(q := Flipped(c.q));
      && stale == 0 && Values(c') == Values(c) && SearchLength(c'.q, key) == SearchLength(c.q, key)
      && Calm(c'.q.left) && Calm(c'.q.right)
      && (if PathRed(c.path) then Clash(c') else Sound(c'))
  {
    FlipKeeps(c);
    assert Balanced(c.q.left) && Balanced(c.q.right);
    assert SearchLength(Colored(c.q.left, false), key) == SearchLength(c.q.left, key);
    assert SearchLength(Colored(c.q.right, false), key) == SearchLength(c.q.right, key);
  }

  /** A key that is already there: nothing changes. */
  lemma KeyPresent(c: Cursor, v: Value)
    requires c.q.Node? && c.q.value.key == v.key && Sorted(Values(c))
    ensures Inserted(Values(c), v) == Values(c)
  {
    var a, b := Before(c.path) + InOrder(c.q.left), InOrder(c.q.right) + After(c.path);
    assert Values(c) == a + [c.q.value] + b;
    forall i | 0 <= i < |a| ensures a[i].key < v.key {
      assert Values(c)[i] == a[i] && Values(c)[|a|] == c.q.value;
    }
    InsertedPresent(a, c.q.value, b, v);
  }

  lemma {:induction false} InsertedSorted(s: seq<Value>, v: Value)
    requires Sorted(s)
    ensures Sorted(Inserted(s, v))
    ensures forall x :: x in Inserted(s, v) ==> x in s || x == v
  {
    if s != [] {
      InsertedSorted(s[1..], v);
      forall x | x in s[1..] ensures s[0].key < x.key { var i :| 0 <= i < |s[1..]| && s[1..][i] == x;
        assert s[i + 1] == x; }
      if s[0].key < v.key {
        var r := Inserted(s[1..], v);
        forall j | 0 <= j < |r| ensures s[0].key < r[j].key { assert r[j] in r; }
      }
    }
  }

  /** Two reds in a row are rotated away; `rotated` says how. At that moment the
      helpers g and t are the real ancestors and the uncle is black. */
  method Rotations(c: Cursor) returns (c': Cursor, rotated: nat)
    requires c.q.Node? && if IsRed(c.q) && PathRed(c.path) then Clash(c) else Sound(c)
    ensures Sound(c') && Values(c') == Values(c) && c'.q.Node? && c'.q.value == c.q.value
    ensures rotated <= 2
    ensures rotated == 0 ==> c' == c && !(IsRed(c.q) && PathRed(c.path))
    ensures rotated > 0 ==> Clash(c)
    ensures rotated == 1 ==> c.path.dir == c.path.up.dir && c' == SingleRotation(c)
    ensures rotated == 2 ==> c.path.dir != c.path.up.dir && c' == DoubleRotation(c)
  {
    if IsRed(c.q) && PathRed(c.path) {
      if c.path.dir == c.path.up.dir {
        SingleKeeps(c);
        return SingleRotation(c), 1;
      } else {
        DoubleKeeps(c);
        return DoubleRotation(c), 2;
      }
    }
    return c, 0;
  }

  /** The loop goes on looking for the key: nothing has been inserted yet. */
  predicate Looking(c: Cursor, stale: nat, key: int, s: seq<Value>)
  {
    Sound(c) && Around(c.path, key) && Ready(c, stale, key) && Values(c) == s
  }

  /** Rounds of the loop left, at most. */
  function Rounds(c: Cursor, stale: nat, key: int): nat
  {
    2 * SearchLength(c.q, key) + if stale == 2 then 0 else 1
  }

  /** One round at a node that is not the key leads one round further. */
  lemma RoundGoesOn(c: Cursor, mid: Cursor, c': Cursor, rotated: nat, stale: nat, key: int, s: seq<Value>)
    requires Looking(c, stale, key, s) && c.q.Node? && Sorted(s)
    requires mid == (if BothRed(c.q) then c.(q := Flipped(c.q)) else c)
    requires Sound(c') && Values(c') == Values(mid) && c'.q.Node? && c'.q.value == mid.q.value && mid.q.value.key != key
    requires rotated <= 2 && (rotated > 0 ==> Clash(mid))
    requires rotated == 0 ==> c' == mid
    requires rotated == 1 ==> mid.path.dir == mid.path.up.dir && c' == SingleRotation(mid)
    requires rotated == 2 ==> mid.path.dir != mid.path.up.dir && c' == DoubleRotation(mid)
    ensures var next, left := Down(c', c'.q.value.key < key),
      if rotated > 0 then rotated else if stale > 0 then stale - 1 else 0;
      Looking(next, left, key, s) && Rounds(next, left, key) < Rounds(c, stale, key)
  {
    var dir := c'.q.value.key < key;
    if BothRed(c.q) { FlipNode(c, stale, key); }
    DownKeeps(c', dir);
    if rotated == 1 {
      SingleKeeps(mid);
      SingleDownReady(mid, key);
    } else if rotated == 2 {
      DoubleDownReady(mid, key);
    } else {
      DownReady(c', BothRed(c.q), stale, key);
    }
    DownAround(c', key);
  }

  /** rbtree_tree_insert_node, apart from the size counter. */
  method InsertNode(root: Tree, v: Value) returns (root': Tree)
    requires Valid(root)
    ensures Valid(root')
    ensures InOrder(root') == Inserted(InOrder(root), v)
  {
    if root.Nil? {
      return Node(false, Nil, v, Nil);
    }
    var c, stale: nat, done := Cursor(Top, root), 0, false;
    assert Values(c) == InOrder(root);
    while !done
      invariant !done ==> Looking(c, stale, v.key, InOrder(root))
      invariant done ==> Sound(c) && Values(c) == Inserted(InOrder(root), v)
      decreases !done, Rounds(c, stale, v.key)
    {
      ghost var start := c;
      if c.q.Nil? {
        NewNodeFits(c, stale, v);
        NewNodeValues(c.path, v);
        c, done := c.(q := Node(true, Nil, v, Nil)), true;
      } else if BothRed(c.q) {
        FlipNode(c, stale, v.key);
        c := c.(q := Flipped(c.q));
      }
      ghost var mid := c;
      var rotated: nat;
      c, rotated := Rotations(c);
      if c.q.value.key == v.key {
        if !done { KeyPresent(c, v); }
        done := true;
      } else {
        RoundGoesOn(start, mid, c, rotated, stale, v.key, InOrder(root));
        c := Down(c, c.q.value.key < v.key);
        stale := if rotated > 0 then rotated else if stale > 0 then stale - 1 else 0;
      }
    }
    PlugOrder(c.path, c.q);
    PlugBalanced(c.path, c.q);
    InsertedSorted(InOrder(root), v);
    BlackRoot(Plug(c.path, c.q));
    root' := Colored(Plug(c.path, c.q), false);
  }
}
