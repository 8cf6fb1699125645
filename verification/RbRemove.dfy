/** Top-down removal (rbtree_tree_remove_with_cb in libc/rbtree.c). One pass from
    the root down keeps a red node within reach, so that the node unlinked at
    the end is red, or is the only one left. */
module RbRemove {
  import opened RbTree

  /** `path` ends at the node last visited and at the link to follow from it;
      `next` is the tree below that link. */
  datatype Cursor = Cursor(path: Path, next: Tree)

  function Values(c: Cursor): seq<Value>
  {
    Before(c.path) + InOrder(c.next) + After(c.path)
  }

  predicate Sound(c: Cursor)
  {
    Balanced(c.next) && Fits(c.path, BlackHeight(c.next), IsRed(c.next))
  }

  /** The node last visited is red, or the one to visit is, or the last visited
      is the root and has no red child. */
  predicate RedNear(c: Cursor)
  {
    c.path.Top? || PathRed(c.path) || IsRed(c.next) || (c.path.up.Top? && !IsRed(c.path.sib))
  }

  // ------------------------------------------------------- pushing red down

  /** A black node with a red child away from the search: rotate it down red. */
  function PullUp(c: Cursor, dir: bool): Cursor
    requires c.next.Node? && Link(c.next, !dir).Node?
  {
    var r := Rotate(c.next, dir);
    Cursor(Step(c.path, dir, r.red, r.value, Link(r, !dir)), Link(r, dir))
  }

  /** Two black siblings without red children: recolor them and their parent. */
  function ColorFlip(c: Cursor): Cursor
    requires c.path.Step?
  {
    Cursor(c.path.(red := false, sib := Colored(c.path.sib, true)), Colored(c.next, true))
  }

  function Parent(c: Cursor): Tree
    requires c.path.Step?
  {
    Join(c.path.dir, c.path.red, c.path.value, c.next, c.path.sib)
  }

  predicate SibHasRedChild(c: Cursor)
  {
    c.path.Step? && c.path.sib.Node? && (IsRed(c.path.sib.left) || IsRed(c.path.sib.right))
  }

  /** The rotated parent: rotate2 when the near nephew is red, rotate otherwise. */
  function RotatedParent(c: Cursor): (r: Tree)
    requires SibHasRedChild(c)
    ensures r.Node?
  {
    var last := c.path.dir;
    if IsRed(Link(c.path.sib, last)) then Rotate2(Parent(c), last) else Rotate(Parent(c), last)
  }

  /** The parent rotated towards the node, then colored: new top red, its
      children black, the node red. */
  function Borrow(c: Cursor): Cursor
    requires SibHasRedChild(c)
    requires Link(RotatedParent(c), c.path.dir).Node?
  {
    var last, r := c.path.dir, RotatedParent(c);
    var p := Link(r, last);
    Cursor(Step(Step(c.path.up, last, true, r.value, Colored(Link(r, !last), false)), last, false, p.value,
      Link(p, !last)),
           Colored(c.next, true))
  }

  lemma PullUpKeeps(c: Cursor, dir: bool)
    requires Sound(c) && c.next.Node? && !IsRed(c.next) && !IsRed(Link(c.next, dir)) && IsRed(Link(c.next, !dir))
    ensures var c' := PullUp(c, dir);
      && Sound(c') && Values(c') == Values(c) && IsRed(c'.next)
      && c'.next.value == c.next.value && Link(c'.next, dir) == Link(c.next, dir)
  {
    var r := Rotate(c.next, dir);
    BalancedParts(c.next);
    BalancedParts(Link(c.next, !dir));
    RotateKeepsOrder(c.next, dir);
    PlugOrder(c.path, r);
    PlugOrder(PullUp(c, dir).path, PullUp(c, dir).next);
    assert Join(dir, r.red, r.value, Link(r, dir), Link(r, !dir)) == r;
    assert Balanced(Link(r, dir)) && BlackHeight(Link(r, dir)) + 1 == BlackHeight(c.next);
    assert Balanced(Link(r, !dir)) && BlackHeight(Link(r, !dir)) + 1 == BlackHeight(c.next);
  }

  lemma ColorFlipKeeps(c: Cursor)
    requires Sound(c) && RedNear(c) && c.path.Step? && c.next.Node? && !IsRed(c.next) && c.path.sib.Node?
    requires !IsRed(c.next.left) && !IsRed(c.next.right) && !IsRed(c.path.sib.left) && !IsRed(c.path.sib.right)
    ensures Sound(ColorFlip(c)) && Values(ColorFlip(c)) == Values(c)
  {
    var q, s := Colored(c.next, true), Colored(c.path.sib, true);
    assert Balanced(q) && BlackHeight(q) + 1 == BlackHeight(c.next);
    assert Balanced(s) && BlackHeight(s) + 1 == BlackHeight(c.path.sib);
    assert InOrder(q) == InOrder(c.next) && InOrder(s) == InOrder(c.path.sib);
    FitsBlack(c.path.up, BlackHeight(c.next), true);
  }

  lemma BorrowShape(c: Cursor)
    requires SibHasRedChild(c) && !IsRed(c.path.sib)
    ensures var last, s, r := c.path.dir, c.path.sib, RotatedParent(c);
      && Link(r, last).Node? && Link(Link(r, last), last) == c.next && Link(r, !last).Node?
      && Link(r, last).value == c.path.value
      && (if IsRed(Link(s, last)) then
            && r.value == Link(s, last).value
            && Link(Link(r, last), !last) == Link(Link(s, last), last)
            && Link(r, !last) == Join(!last, true, s.value, Link(s, !last), Link(Link(s, last), !last))
          else
            && r.value == s.value && Link(Link(r, last), !last) == Link(s, last) && Link(r, !last) == Link(s, !last))
      && InOrder(r) == InOrder(Parent(c))
  {
    var last := c.path.dir;
    if IsRed(Link(c.path.sib, last)) {
      Rotate2KeepsOrder(Parent(c), last);
    } else {
      RotateKeepsOrder(Parent(c), last);
    }
  }

  lemma BorrowKeeps(c: Cursor)
    requires Sound(c) && RedNear(c) && c.path.Step? && c.next.Node? && !IsRed(c.next)
    requires !IsRed(c.next.left) && !IsRed(c.next.right) && SibHasRedChild(c)
    ensures Link(RotatedParent(c), c.path.dir).Node?
    ensures Sound(Borrow(c)) && Values(Borrow(c)) == Values(c)
  {
    BorrowShape(c);
    var last, s, r, c' := c.path.dir, c.path.sib, RotatedParent(c), Borrow(c);
    var near, far := c'.path.sib, c'.path.up.sib;
    var h := BlackHeight(c.next);
    BalancedParts(c.next);
    BalancedParts(s);
    if IsRed(Link(s, last)) { BalancedParts(Link(s, last)); } else { BalancedParts(Link(s, !last)); }
    assert BlackHeight(Colored(c.next, true)) == h - 1 && Balanced(Colored(c.next, true));
    assert Balanced(near) && BlackHeight(near) == h - 1;
    assert Balanced(far) && BlackHeight(far) == h;
    assert Fits(c.path.up, h, true);
    assert Fits(c'.path.up, h, false);
    BorrowValues(c);
  }

  lemma BorrowValues(c: Cursor)
    requires SibHasRedChild(c) && !IsRed(c.path.sib)
    ensures Link(RotatedParent(c), c.path.dir).Node? && Values(Borrow(c)) == Values(c)
  {
    BorrowShape(c);
    var last, r, c' := c.path.dir, RotatedParent(c), Borrow(c);
    PlugOrder(c.path, c.next);
    PlugOrder(c.path.up, Parent(c));
    PlugOrder(c.path.up, r);
    PlugOrder(c'.path, c'.next);
    var r' := Join(last, true, r.value, Join(last, false, c'.path.value, c'.next, c'.path.sib), c'.path.up.sib);
    PlugOrder(c.path.up, r');
    assert InOrder(c'.next) == InOrder(c.next) && InOrder(c'.path.up.sib) == InOrder(Link(r, !last));
    assert InOrder(r') == InOrder(r);
  }

  // --------------------------------------------------------------- the loop

  /** Where the search stands: values passed on the left are below the key; on
      the right they are above it, or the first of them is the one found. */
  predicate Searching(p: Path, key: int, found: bool)
  {
    && AllBelow(Before(p), key)
    && if found then After(p) != [] && After(p)[0].key == key else AllAbove(After(p), key)
  }

  /** `next` becomes the node visited and `dir` the link to follow. */
  function Down(c: Cursor, dir: bool): Cursor
    requires c.next.Node?
  {
    Cursor(Step(c.path, dir, c.next.red, c.next.value, Link(c.next, !dir)), Link(c.next, dir))
  }

  lemma DownKeeps(c: Cursor, dir: bool)
    requires c.next.Node?
    ensures Values(Down(c, dir)) == Values(c)
    ensures Sound(c) ==> Sound(Down(c, dir))
  {
    PlugOrder(c.path, c.next);
    PlugOrder(Down(c, dir).path, Down(c, dir).next);
    assert Join(dir, c.next.red, c.next.value, Link(c.next, dir), Link(c.next, !dir)) == c.next;
    PlugBalanced(c.path, c.next);
    PlugBalanced(Down(c, dir).path, Down(c, dir).next);
  }

  /** Recoloring and borrowing move no value from one side of the node to the other. */
  lemma ColorFlipSides(c: Cursor)
    requires c.path.Step?
    ensures Before(ColorFlip(c).path) == Before(c.path) && After(ColorFlip(c).path) == After(c.path)
  {
    assert InOrder(Colored(c.path.sib, true)) == InOrder(c.path.sib);
  }

  /** The nephews' values, in the order they have after the rotation. */
  function Nephews(c: Cursor): seq<Value>
    requires SibHasRedChild(c) && Link(RotatedParent(c), c.path.dir).Node?
  {
    var near, far, top := Borrow(c).path.sib, Borrow(c).path.up.sib, Borrow(c).path.up.value;
    if c.path.dir then InOrder(far) + [top] + InOrder(near) else InOrder(near) + [top] + InOrder(far)
  }

  lemma NephewInner(c: Cursor)
    requires SibHasRedChild(c) && !IsRed(c.path.sib) && IsRed(Link(c.path.sib, c.path.dir))
    ensures Link(RotatedParent(c), c.path.dir).Node? && InOrder(c.path.sib) == Nephews(c)
  {
    BorrowShape(c);
    var last, s, r := c.path.dir, c.path.sib, RotatedParent(c);
    assert InOrder(Colored(Link(r, !last), false)) == InOrder(Link(r, !last));
    var t := Link(s, last);
    if last {
      Regroup([], InOrder(s.left), [s.value], InOrder(t.left), [t.value] + InOrder(t.right));
    } else {
      Regroup([], InOrder(t.left) + [t.value], InOrder(t.right), [s.value], InOrder(s.right));
    }
  }

  lemma NephewOuter(c: Cursor)
    requires SibHasRedChild(c) && !IsRed(c.path.sib) && !IsRed(Link(c.path.sib, c.path.dir))
    ensures Link(RotatedParent(c), c.path.dir).Node? && InOrder(c.path.sib) == Nephews(c)
  {
    BorrowShape(c);
    var last, r := c.path.dir, RotatedParent(c);
    assert InOrder(Colored(Link(r, !last), false)) == InOrder(Link(r, !last));
  }

  /** The sibling's values, split at the one that comes up. */
  lemma NephewOrder(c: Cursor)
    requires SibHasRedChild(c) && !IsRed(c.path.sib)
    ensures Link(RotatedParent(c), c.path.dir).Node? && InOrder(c.path.sib) == Nephews(c)
  {
    hide Nephews; hide RotatedParent;
    if IsRed(Link(c.path.sib, c.path.dir)) { NephewInner(c); } else { NephewOuter(c); }
  }

  lemma BorrowSides(c: Cursor)
    requires SibHasRedChild(c) && !IsRed(c.path.sib)
    ensures Link(RotatedParent(c), c.path.dir).Node?
    ensures Before(Borrow(c).path) == Before(c.path) && After(Borrow(c).path) == After(c.path)
  {
    NephewOrder(c);
    BorrowShape(c);
    var p := Borrow(c).path;
    assert p.up.up == c.path.up && p.value == c.path.value;
    if p.dir {
      assert Before(p) == Before(p.up.up) + (InOrder(p.up.sib) + [p.up.value] + InOrder(p.sib) + [p.value]);
    } else {
      assert After(p) == ([p.value] + (InOrder(p.sib) + [p.up.value] + InOrder(p.up.sib))) + After(p.up.up);
    }
  }

  /** What the code does at a black node whose next child is not red: afterwards
      a red node is within reach again. */
  method PushRed(c: Cursor, dir: bool) returns (c': Cursor)
    requires Sound(c) && RedNear(c) && c.next.Node?
    ensures Sound(c') && Values(c') == Values(c)
    ensures c'.next.Node? && c'.next.value == c.next.value && Link(c'.next, dir) == Link(c.next, dir)
    ensures RedNear(Down(c', dir))
    ensures if dir then After(c'.path) == After(c.path) else Before(c'.path) == Before(c.path)
  {
    c' := c;
    if !IsRed(c.next) && !IsRed(Link(c.next, dir)) {
      if IsRed(Link(c.next, !dir)) {
        PullUpKeeps(c, dir);
        c' := PullUp(c, dir);
      } else if c.path.Step? && c.path.sib.Node? {
        var s := c.path.sib;
        if !IsRed(s.left) && !IsRed(s.right) {
          ColorFlipKeeps(c);
          ColorFlipSides(c);
          c' := ColorFlip(c);
        } else {
          BorrowKeeps(c);
          BorrowSides(c);
          c' := Borrow(c);
        }
      }
    }
  }

  lemma FoundLiesRight(c: Cursor, key: int)
    requires Searching(c.path, key, true) && c.next.Node? && Sorted(Values(c))
    ensures c.next.value.key < key
  {
    var b, l, r := Before(c.path), InOrder(c.next.left), InOrder(c.next.right);
    assert Values(c) == b + (l + [c.next.value] + r) + After(c.path);
    assert Values(c)[|b| + |l|] == c.next.value;
    assert Values(c)[|b| + |l| + 1 + |r|] == After(c.path)[0];
  }

  lemma SearchDown(c: Cursor, c': Cursor, key: int, found: bool)
    requires Searching(c.path, key, found) && c.next.Node? && c'.next.Node? && c'.next.value == c.next.value
    requires Values(c') == Values(c) && Sorted(Values(c))
    requires if c.next.value.key < key then After(c'.path) == After(c.path) else Before(c'.path) == Before(c.path)
    ensures Searching(Down(c', c.next.value.key < key).path, key, found || c.next.value.key == key)
  {
    var d := Down(c', c.next.value.key < key);
    DownKeeps(c', c.next.value.key < key);
    SortedSides(d);
    if found { FoundLiesRight(c, key); }
    if c.next.value.key < key {
      assert After(d.path) == After(c'.path);
    } else {
      assert Before(d.path) == Before(c'.path);
      if c.next.value.key != key {
        forall i | 0 <= i < |After(d.path)| ensures key < After(d.path)[i].key { }
      }
    }
  }

  /** In an ordered tree the last value passed on the left and the first on the
      right bound all others. */
  lemma SortedSides(d: Cursor)
    requires d.path.Step? && Sorted(Values(d))
    ensures d.path.dir ==> Before(d.path) != [] && Before(d.path)[|Before(d.path)| - 1] == d.path.value
    ensures d.path.dir ==> forall i :: 0 <= i < |Before(d.path)| ==> Before(d.path)[i].key <= d.path.value.key
    ensures !d.path.dir ==> After(d.path) != [] && After(d.path)[0] == d.path.value
    ensures !d.path.dir ==> forall i :: 0 <= i < |After(d.path)| ==> d.path.value.key <= After(d.path)[i].key
  {
    var b, m, a := Before(d.path), InOrder(d.next), After(d.path);
    forall i, j | 0 <= i < j < |b| ensures b[i].key < b[j].key { assert Values(d)[i] == b[i] && Values(d)[j] == b[j]; }
    forall i, j | 0 <= i < j < |a| ensures a[i].key < a[j].key {
      assert Values(d)[|b| + |m| + i] == a[i] && Values(d)[|b| + |m| + j] == a[j];
    }
  }

  // ------------------------------------------------------------- the removal

  /** The value of the node found, on the way down, replaced. */
  function Replaced(p: Path, key: int, v: Value): Path
  {
    match p
    case Top => Top
    case Step(up, _, _, w, _) => if w.key == key then p.(value := v) else p.(up := Replaced(up, key, v))
  }

  lemma {:induction false} ReplacedSides(p: Path, key: int, v: Value)
    requires Searching(p, key, true)
    ensures Before(Replaced(p, key, v)) == Before(p)
    ensures After(Replaced(p, key, v)) == [v] + After(p)[1..]
  {
    match p
    case Top =>
    case Step(up, dir, _, w, sib) =>
      if !dir {
        assert After(p)[0] == w;
      } else {
        assert Before(p)[|Before(p)| - 1] == w;
        assert After(p) == After(up);
        forall i | 0 <= i < |Before(up)| ensures Before(up)[i].key < key { assert Before(p)[i] == Before(up)[i]; }
        ReplacedSides(up, key, v);
      }
  }

  lemma {:induction false} ReplacedFits(p: Path, key: int, v: Value, bh: nat, red: bool)
    requires Fits(p, bh, red)
    ensures Fits(Replaced(p, key, v), bh, red)
  {
    match p
    case Top =>
    case Step(up, _, pred, w, _) =>
      if w.key != key { ReplacedFits(up, key, v, bh + if pred then 0 else 1, pred); }
  }

  /** The node last visited has no child at all and can go. */
  lemma LastIsLeaf(c: Cursor)
    requires Sound(c) && RedNear(c) && c.next.Nil? && c.path.Step?
    ensures c.path.sib.Nil? && Fits(c.path.up, 0, false)
  {
    if c.path.sib.Node? { assert BlackHeight(c.path.sib) == 0; }
    if PathRed(c.path) { FitsBlack(c.path.up, 0, true); }
  }

  /** The path with the last node unlinked and its value moved to the node found. */
  function Unlinked(p: Path, key: int): Path
    requires p.Step?
  {
    if p.value.key == key then p.up else Replaced(p.up, key, p.value)
  }

  lemma SideOfNode(p: Path)
    requires p.Step?
    ensures p.dir ==> Before(p) != [] && Before(p)[|Before(p)| - 1] == p.value
    ensures !p.dir ==> After(p) != [] && After(p)[0] == p.value
  {
  }

  /** The node found is itself the last one visited. */
  lemma UnlinkFound(p: Path, key: int)
    requires p.Step? && p.sib.Nil? && Searching(p, key, true) && p.value.key == key
    ensures Before(p.up) == Before(p) && After(p.up) == After(p)[1..]
  {
    SideOfNode(p);
  }

  /** The last one visited precedes the node found and gives it its value. */
  lemma UnlinkPredecessor(p: Path, key: int)
    requires p.Step? && p.sib.Nil? && Searching(p, key, true) && p.value.key != key
    ensures Before(p) == Before(Replaced(p.up, key, p.value)) + [p.value]
    ensures After(Replaced(p.up, key, p.value)) == [p.value] + After(p)[1..]
  {
    SideOfNode(p);
    assert Before(p) == Before(p.up) + [p.value] && After(p) == After(p.up);
    forall i | 0 <= i < |Before(p.up)| ensures Before(p.up)[i].key < key { assert Before(p)[i] == Before(p.up)[i]; }
    ReplacedSides(p.up, key, p.value);
  }

  lemma UnlinkRemoves(c: Cursor, key: int)
    requires Sound(c) && RedNear(c) && c.next.Nil? && c.path.Step? && Searching(c.path, key, true)
    ensures Fits(Unlinked(c.path, key), 0, false)
    ensures Before(Unlinked(c.path, key)) + After(Unlinked(c.path, key)) == Removed(Values(c), key)
  {
    hide Sound; hide RedNear; hide Fits; hide Removed; hide Replaced;
    LastIsLeaf(c);
    var b, a := Before(c.path), After(c.path);
    RemovedBetween(b, a[0], a[1..], key);
    assert Values(c) == b + [a[0]] + a[1..];
    if c.path.value.key == key {
      UnlinkFound(c.path, key);
    } else {
      UnlinkPredecessor(c.path, key);
      ReplacedFits(c.path.up, key, c.path.value, 0, false);
    }
  }

  lemma NothingToRemove(c: Cursor, key: int)
    requires c.next.Nil? && Searching(c.path, key, false)
    ensures Removed(Values(c), key) == Values(c) == Before(c.path) + After(c.path)
  {
    assert Values(c) == Before(c.path) + After(c.path);
    RemovedAbsent(Values(c), key);
  }

  lemma {:induction false} RemovedAbove(s: seq<Value>, key: int, bound: int)
    requires AllAbove(s, bound)
    ensures AllAbove(Removed(s, key), bound)
  {
    if s != [] { RemovedAbove(s[1..], key, bound); }
  }

  lemma {:induction false} RemovedSorted(s: seq<Value>, key: int)
    requires Sorted(s)
    ensures Sorted(Removed(s, key))
  {
    if s != [] {
      RemovedSorted(s[1..], key);
      RemovedAbove(s[1..], key, s[0].key);
    }
  }

  lemma RemovedPath(c: Cursor, key: int, found: bool)
    requires Sound(c) && RedNear(c) && c.next.Nil? && c.path.Step? && Searching(c.path, key, found) && Sorted(Values(c))
    ensures var p := if found then Unlinked(c.path, key) else c.path;
      Fits(p, 0, false) && Before(p) + After(p) == Removed(Values(c), key)
  {
    hide Removed; hide Fits; hide Unlinked;
    if found { UnlinkRemoves(c, key); } else { NothingToRemove(c, key); }
  }

  /** The tree the loop leaves, once the node found has been dealt with. */
  lemma RemovalDone(c: Cursor, key: int, found: bool)
    requires Sound(c) && RedNear(c) && c.next.Nil? && c.path.Step? && Searching(c.path, key, found) && Sorted(Values(c))
    ensures var root := Colored(Plug(if found then Unlinked(c.path, key) else c.path, Nil), false);
      Valid(root) && InOrder(root) == Removed(Values(c), key)
  {
    hide Sound; hide RedNear; hide Searching; hide Fits; hide Removed; hide Plug; hide Before; hide After;
    hide Unlinked;
    var p := if found then Unlinked(c.path, key) else c.path;
    RemovedPath(c, key, found);
    PlugOrder(p, Nil);
    PlugBalanced(p, Nil);
    assert Before(p) + InOrder(Nil) + After(p) == Before(p) + After(p);
    RemovedSorted(Values(c), key);
    BlackRoot(Plug(p, Nil));
  }

  /** rbtree_tree_remove_with_cb, apart from the size counter. */
  method RemoveKey(root: Tree, key: int) returns (root': Tree)
    requires Valid(root)
    ensures Valid(root')
    ensures InOrder(root') == Removed(InOrder(root), key)
  {
    if root.Nil? { return Nil; }
    var c, found := Cursor(Top, root), false;
    assert Values(c) == InOrder(root);
    while c.next.Node?
      invariant Sound(c) && RedNear(c) && Values(c) == InOrder(root)
      invariant Searching(c.path, key, found)
      invariant c.next.Node? || c.path.Step?
      decreases c.next
    {
      var dir := c.next.value.key < key;
      ghost var start, was := c, found;
      if c.next.value.key == key { found := true; }
      c := PushRed(c, dir);
      SearchDown(start, c, key, was);
      DownKeeps(c, dir);
      c := Down(c, dir);
    }
    RemovalDone(c, key, found);
    root' := Colored(Plug(if found then Unlinked(c.path, key) else c.path, Nil), false);
  }
}
