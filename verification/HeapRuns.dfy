/** What every run of kmalloc and kfree keeps. */
module HeapRuns {
  import opened Basics
  import opened Heap

  // ------------------------------------------------------ sets of addresses

  lemma FreeAddrsConcat(a: seq<Block>, b: seq<Block>)
    ensures FreeAddrs(a + b) == FreeAddrs(a) + FreeAddrs(b)
  {
    forall x | x in FreeAddrs(a) + FreeAddrs(b) ensures x in FreeAddrs(a + b) {
      if x in FreeAddrs(a) {
        var i :| 0 <= i < |a| && a[i].free && a[i].addr == x;
        assert (a + b)[i] == a[i];
      } else {
        var i :| 0 <= i < |b| && b[i].free && b[i].addr == x;
        assert (a + b)[|a| + i] == b[i];
      }
    }
  }

  lemma {:induction false} WithoutMembers(list: seq<int>, x: int)
    requires NoRepeats(list)
    ensures NoRepeats(Without(list, x))
    ensures forall y :: y in Without(list, x) <==> y in list && y != x
  {
    if list != [] {
      WithoutMembers(list[1..], x);
      assert forall y :: y in list <==> y == list[0] || y in list[1..];
      assert list[0] !in list[1..];
      if list[0] != x {
        var r := Without(list[1..], x);
        assert Without(list, x) == [list[0]] + r;
        assert list[0] !in r;
      }
    }
  }

  lemma ListMinus(list: seq<int>, blocks: seq<Block>, blocks': seq<Block>, x: int)
    requires ListsFree(list, blocks) && FreeAddrs(blocks') == FreeAddrs(blocks) - {x}
    ensures ListsFree(Without(list, x), blocks')
  {
    WithoutMembers(list, x);
  }

  lemma ListPlus(list: seq<int>, blocks: seq<Block>, blocks': seq<Block>, x: int)
    requires ListsFree(list, blocks) && x !in FreeAddrs(blocks) && FreeAddrs(blocks') == FreeAddrs(blocks) + {x}
    ensures ListsFree([x] + list, blocks')
  {
  }

  // -------------------------------------------------- replacing some blocks

  function Replace(blocks: seq<Block>, i: nat, j: nat, mid: seq<Block>): seq<Block>
    requires i <= j <= |blocks|
  {
    blocks[..i] + mid + blocks[j..]
  }

  /** Consecutive blocks replaced by others that cover the same addresses. */
  lemma ReplaceTiles(lo: int, blocks: seq<Block>, i: nat, j: nat, mid: seq<Block>)
    requires Tiles(lo, blocks) && i <= j <= |blocks|
    requires Tiles(EndOf(lo, blocks[..i]), mid) && EndOf(EndOf(lo, blocks[..i]), mid) == EndOf(lo, blocks[..j])
    ensures Tiles(lo, Replace(blocks, i, j, mid)) && EndOf(lo, Replace(blocks, i, j, mid)) == EndOf(lo, blocks)
  {
    var a, b, c := blocks[..i], blocks[i..j], blocks[j..];
    assert blocks == a + b + c && blocks[..j] == a + b;
    TilesConcat(lo, a + b, c);
    TilesConcat(lo, a, b);
    TilesConcat(lo, a + mid, c);
    TilesConcat(lo, a, mid);
  }

  /** The addresses a free segment of blocks lists are listed nowhere else. */
  lemma SegmentsDisjoint(lo: int, blocks: seq<Block>, i: nat, j: nat)
    requires Tiles(lo, blocks) && i <= j <= |blocks|
    ensures FreeAddrs(blocks[..i]) !! FreeAddrs(blocks[i..j])
    ensures FreeAddrs(blocks[j..]) !! FreeAddrs(blocks[i..j])
  {
    forall x | x in FreeAddrs(blocks[i..j]) ensures x !in FreeAddrs(blocks[..i]) && x !in FreeAddrs(blocks[j..]) {
      var k :| 0 <= k < |blocks[i..j]| && blocks[i..j][k].free && blocks[i..j][k].addr == x;
      assert blocks[i + k].addr == x;
      if x in FreeAddrs(blocks[..i]) {
        var l :| 0 <= l < i && blocks[l].addr == x;
        BlocksDisjoint(lo, blocks, l, i + k);
        TilesBounds(lo, blocks, l);
      }
      if x in FreeAddrs(blocks[j..]) {
        var l :| 0 <= l < |blocks[j..]| && blocks[j..][l].free && blocks[j..][l].addr == x;
        assert blocks[j + l].addr == x;
        BlocksDisjoint(lo, blocks, i + k, j + l);
        TilesBounds(lo, blocks, i + k);
      }
    }
  }

  lemma ReplaceFree(lo: int, blocks: seq<Block>, i: nat, j: nat, mid: seq<Block>)
    requires Tiles(lo, blocks) && i <= j <= |blocks|
    ensures FreeAddrs(Replace(blocks, i, j, mid)) == FreeAddrs(blocks) - FreeAddrs(blocks[i..j]) + FreeAddrs(mid)
  {
    var a, b, c := blocks[..i], blocks[i..j], blocks[j..];
    assert blocks == a + b + c;
    FreeAddrsConcat(a + b, c);
    FreeAddrsConcat(a, b);
    FreeAddrsConcat(a + mid, c);
    FreeAddrsConcat(a, mid);
    SegmentsDisjoint(lo, blocks, i, j);
  }

  lemma TilesOne(lo: int, b: Block)
    ensures EndOf(lo, [b]) == lo + OVERHEAD + b.size
    ensures Tiles(lo, [b]) <==> b.addr == lo && b.size >= 0 && b.size % 4 == 0
  {
    assert [b][1..] == [];
  }

  /** A merged or freed block between blocks that are not free. */
  lemma MergeNeighbours(blocks: seq<Block>, i: nat, j: nat, merged: Block)
    requires NoFreeNeighbours(blocks) && i < j <= |blocks|
    requires i > 0 ==> !blocks[i - 1].free
    requires j < |blocks| ==> !blocks[j].free
    ensures NoFreeNeighbours(Replace(blocks, i, j, [merged]))
  {
    var n := Replace(blocks, i, j, [merged]);
    forall k | 0 <= k < |n| - 1 ensures !(n[k].free && n[k + 1].free) {
      if k > i { assert n[k] == blocks[k + j - i - 1] && n[k + 1] == blocks[k + j - i]; }
    }
  }

  lemma FreeOne(b: Block)
    ensures FreeAddrs([b]) == if b.free then {b.addr} else {}
  {
    assert b.free ==> [b][0].addr in FreeAddrs([b]);
  }

  lemma FreeTwo(b: Block, d: Block)
    ensures FreeAddrs([b, d]) == (if b.free then {b.addr} else {}) + if d.free then {d.addr} else {}
  {
    assert [b, d] == [b] + [d];
    FreeAddrsConcat([b], [d]);
    FreeOne(b);
    FreeOne(d);
  }

  /** An address strictly inside a block is the address of no block. */
  lemma InsideIsUnlisted(lo: int, blocks: seq<Block>, i: nat, x: int)
    requires Tiles(lo, blocks) && i < |blocks|
    requires blocks[i].addr < x < blocks[i].addr + OVERHEAD + blocks[i].size
    ensures x !in FreeAddrs(blocks)
  {
    if x in FreeAddrs(blocks) {
      var k :| 0 <= k < |blocks| && blocks[k].free && blocks[k].addr == x;
      if k < i { BlocksDisjoint(lo, blocks, k, i); TilesBounds(lo, blocks, k); }
      if k > i { BlocksDisjoint(lo, blocks, i, k); }
    }
  }

  // ----------------------------------------------------------------- malloc

  /** Free-list entries are free blocks of the list. */
  lemma ListedIsFree(h: State, x: int)
    requires Valid(h) && x in h.freelist
    ensures Present(h.blocks, x) && h.blocks[IndexOf(h.blocks, x)].free
  {
    var i :| 0 <= i < |h.blocks| && h.blocks[i].free && h.blocks[i].addr == x;
    IndexUnique(h.start + 12, h.blocks, i);
  }

  lemma PrefixEnds(lo: int, blocks: seq<Block>, i: nat)
    requires Tiles(lo, blocks) && i < |blocks|
    ensures EndOf(lo, blocks[..i]) == blocks[i].addr
    ensures EndOf(lo, blocks[..i + 1]) == blocks[i].addr + OVERHEAD + blocks[i].size
    ensures blocks[i].size >= 0 && blocks[i].size % 4 == 0
  {
    Neighbours(lo, blocks, i);
    TilesBounds(lo, blocks, i);
    assert blocks[..i + 1] == blocks[..i] + [blocks[i]];
    TilesConcat(lo, blocks[..i], [blocks[i]]);
    TilesOne(EndOf(lo, blocks[..i]), blocks[i]);
  }

  lemma TakeWhole(h: State, i: nat, rounded: int)
    requires Valid(h) && i < |h.blocks| && h.blocks[i].free && 0 <= rounded <= h.blocks[i].size
    requires h.blocks[i].size - rounded < 8 + OVERHEAD
    ensures Valid(Taken(h, i, rounded))
  {
    var lo, b := h.start + 12, h.blocks[i];
    var b' := b.(free := false);
    PrefixEnds(lo, h.blocks, i);
    TilesOne(b.addr, b');
    assert h.blocks[i..i + 1] == [b];
    ReplaceTiles(lo, h.blocks, i, i + 1, [b']);
    ReplaceFree(lo, h.blocks, i, i + 1, [b']);
    FreeOne(b);
    FreeOne(b');
    ListMinus(h.freelist, h.blocks, Replace(h.blocks, i, i + 1, [b']), b.addr);
  }

  lemma TakeSplit(h: State, i: nat, rounded: int)
    requires Valid(h) && i < |h.blocks| && h.blocks[i].free && 0 <= rounded && rounded % 4 == 0
    requires h.blocks[i].size - rounded >= 8 + OVERHEAD
    ensures Valid(Taken(h, i, rounded))
  {
    var lo, b := h.start + 12, h.blocks[i];
    var used := Block(b.addr, rounded, false);
    var rest := Block(b.addr + OVERHEAD + rounded, b.size - rounded - OVERHEAD, true);
    var mid := [used, rest];
    var blocks' := Replace(h.blocks, i, i + 1, mid);
    PrefixEnds(lo, h.blocks, i);
    assert mid == [used] + [rest] && h.blocks[i..i + 1] == [b];
    TilesOne(b.addr, used);
    TilesOne(rest.addr, rest);
    TilesConcat(b.addr, [used], [rest]);
    ReplaceTiles(lo, h.blocks, i, i + 1, mid);
    NeighboursOfSplit(h.blocks, i, used, rest);
    SplitList(lo, h.blocks, h.freelist, i, used, rest);
  }

  lemma SplitList(lo: int, blocks: seq<Block>, list: seq<int>, i: nat, used: Block, rest: Block)
    requires Tiles(lo, blocks) && ListsFree(list, blocks) && i < |blocks| && blocks[i].free && !used.free && rest.free
    requires blocks[i].addr < rest.addr < blocks[i].addr + OVERHEAD + blocks[i].size
    ensures ListsFree([rest.addr] + Without(list, blocks[i].addr), Replace(blocks, i, i + 1, [used, rest]))
  {
    ReplaceFree(lo, blocks, i, i + 1, [used, rest]);
    assert blocks[i..i + 1] == [blocks[i]];
    FreeOne(blocks[i]);
    FreeTwo(used, rest);
    InsideIsUnlisted(lo, blocks, i, rest.addr);
    WithoutMembers(list, blocks[i].addr);
  }

  /** The free rest of a split borders on no other free block: its right
      neighbour was already the neighbour of a free block. */
  lemma NeighboursOfSplit(blocks: seq<Block>, i: nat, used: Block, rest: Block)
    requires NoFreeNeighbours(blocks) && i < |blocks| && blocks[i].free && !used.free
    ensures NoFreeNeighbours(Replace(blocks, i, i + 1, [used, rest]))
  {
    var n := Replace(blocks, i, i + 1, [used, rest]);
    forall k | 0 <= k < |n| - 1 ensures !(n[k].free && n[k + 1].free) {
      if k > i { assert n[k + 1] == blocks[k] && (k > i + 1 ==> n[k] == blocks[k - 1]); }
    }
  }

  lemma ExtendKeepsValid(h: State, brk: int, rounded: int)
    requires Valid(h) && 0 <= rounded && rounded % 4 == 0 && brk == h.brk + OVERHEAD + rounded <= h.end
    ensures Valid(h.(brk := brk, blocks := h.blocks + [Block(h.brk, rounded, false)]))
  {
    var b := Block(h.brk, rounded, false);
    TilesConcat(h.start + 12, h.blocks, [b]);
    TilesOne(h.brk, b);
    FreeAddrsConcat(h.blocks, [b]);
    FreeOne(b);
  }

  lemma MallocKeepsValid(h: State, size: int)
    requires Valid(h) && 0 <= size < WORD && !WrapsAround(h, size)
    ensures Valid(Malloc(h, size).0)
  {
    hide Tiles; hide EndOf; hide NoFreeNeighbours; hide ListsFree; hide Taken; hide Brk; hide BestFit;
    var rounded := Rounded(size);
    var best := BestFit(h.blocks, h.freelist, rounded);
    if size != 0 && best.Some? {
      ListedIsFree(h, best.value);
      var i := IndexOf(h.blocks, best.value);
      if h.blocks[i].size - rounded < 8 + OVERHEAD { TakeWhole(h, i, rounded); } else { TakeSplit(h, i, rounded); }
    } else if Malloc(h, size).1.Pointer? {
      EndAfter(h.start + 12, h.blocks);
      BreakMoves(h, rounded);
      ExtendKeepsValid(h, h.brk + OVERHEAD + rounded, rounded);
    }
  }

  /** Without wrapping around the break moves by what was asked for. */
  lemma BreakMoves(h: State, rounded: int)
    requires 0 <= rounded && 0 <= h.brk && Brk(h.brk, h.end, rounded + OVERHEAD).Some?
    requires rounded + OVERHEAD < WORD / 2 ==> h.brk + rounded + OVERHEAD < WORD
    ensures Brk(h.brk, h.end, rounded + OVERHEAD).value == h.brk + OVERHEAD + rounded <= h.end
  {
  }

  /** It stays where it is when the increment is no positive signed word, or the
      end of the heap is in the way. */
  lemma BreakFails(h: State, rounded: int)
    requires 0 <= rounded && 0 <= h.brk && h.end < WORD
    requires rounded + OVERHEAD < WORD / 2 ==> h.brk + rounded + OVERHEAD < WORD
    ensures Brk(h.brk, h.end, rounded + OVERHEAD).None? <==>
      rounded + OVERHEAD >= WORD / 2 || h.brk + rounded + OVERHEAD > h.end
  {
  }

  /** The one way kmalloc can break the heap: the break wraps around. */
  lemma MallocValidIff(h: State, size: int)
    requires Valid(h) && 0 <= size < WORD
    ensures Valid(Malloc(h, size).0) <==> !WrapsAround(h, size)
  {
    if WrapsAround(h, size) {
      var rounded := Rounded(size);
      var h', b := Malloc(h, size).0, Block(h.brk, rounded, false);
      EndAfter(h.start + 12, h.blocks);
      TilesConcat(h.start + 12, h.blocks, [b]);
      TilesOne(h.brk, b);
      assert h'.brk == h.brk + rounded + OVERHEAD - WORD;
      assert EndOf(h.start + 12, h'.blocks) == h.brk + rounded + OVERHEAD;
    } else {
      MallocKeepsValid(h, size);
    }
  }

  /** A heap that ends in the lower half of the address space never wraps. */
  lemma LowHeapNeverWraps(h: State, size: int)
    requires Valid(h) && 0 <= size < WORD && h.end <= WORD / 2
    ensures !WrapsAround(h, size)
  {
  }

  // ------------------------------------------------------------------- free

  /** Merging blocks i..j into one free block at the address of the first. */
  lemma MergeTiles(lo: int, blocks: seq<Block>, i: nat, j: nat, merged: Block)
    requires Tiles(lo, blocks) && i < j <= |blocks|
    requires merged.addr == blocks[i].addr
    requires merged.addr + OVERHEAD + merged.size == EndOf(lo, blocks[..j])
    requires merged.size >= 0 && merged.size % 4 == 0
    ensures Tiles(lo, Replace(blocks, i, j, [merged]))
    ensures EndOf(lo, Replace(blocks, i, j, [merged])) == EndOf(lo, blocks)
  {
    PrefixEnds(lo, blocks, i);
    TilesOne(blocks[i].addr, merged);
    ReplaceTiles(lo, blocks, i, j, [merged]);
  }

  lemma FreeAlone(h: State, i: nat)
    requires Valid(h) && i < |h.blocks| && !h.blocks[i].free
    requires i > 0 ==> !h.blocks[i - 1].free
    requires i + 1 < |h.blocks| ==> !h.blocks[i + 1].free
    ensures var b := h.blocks[i];
      Valid(h.(blocks := Replace(h.blocks, i, i + 1, [b.(free := true)]), freelist := [b.addr] + h.freelist))
  {
    var lo, b := h.start + 12, h.blocks[i];
    var b' := b.(free := true);
    PrefixEnds(lo, h.blocks, i);
    MergeTiles(lo, h.blocks, i, i + 1, b');
    MergeNeighbours(h.blocks, i, i + 1, b');
    ReplaceFree(lo, h.blocks, i, i + 1, [b']);
    assert h.blocks[i..i + 1] == [b];
    FreeOne(b);
    FreeOne(b');
    AllocatedIsUnlisted(lo, h.blocks, i);
    ListPlus(h.freelist, h.blocks, Replace(h.blocks, i, i + 1, [b']), b.addr);
  }

  lemma AllocatedIsUnlisted(lo: int, blocks: seq<Block>, i: nat)
    requires Tiles(lo, blocks) && i < |blocks| && !blocks[i].free
    ensures blocks[i].addr !in FreeAddrs(blocks)
  {
    if blocks[i].addr in FreeAddrs(blocks) {
      var k :| 0 <= k < |blocks| && blocks[k].free && blocks[k].addr == blocks[i].addr;
      IndexUnique(lo, blocks, i);
      IndexUnique(lo, blocks, k);
    }
  }

  lemma FreeLeft(h: State, i: nat)
    requires Valid(h) && 0 < i < |h.blocks| && !h.blocks[i].free && h.blocks[i - 1].free
    requires i + 1 < |h.blocks| ==> !h.blocks[i + 1].free
    ensures var b, l := h.blocks[i], h.blocks[i - 1];
      Valid(h.(blocks := Replace(h.blocks, i - 1, i + 1, [Block(l.addr, l.size + OVERHEAD + b.size, true)])))
  {
    var lo, b, l := h.start + 12, h.blocks[i], h.blocks[i - 1];
    var merged := Block(l.addr, l.size + OVERHEAD + b.size, true);
    PrefixEnds(lo, h.blocks, i);
    PrefixEnds(lo, h.blocks, i - 1);
    MergeTiles(lo, h.blocks, i - 1, i + 1, merged);
    MergeNeighbours(h.blocks, i - 1, i + 1, merged);
    LeftSet(lo, h.blocks, i, merged);
  }

  lemma LeftSet(lo: int, blocks: seq<Block>, i: nat, merged: Block)
    requires Tiles(lo, blocks) && 0 < i < |blocks| && blocks[i - 1].free && !blocks[i].free
    requires merged.free && merged.addr == blocks[i - 1].addr
    ensures FreeAddrs(Replace(blocks, i - 1, i + 1, [merged])) == FreeAddrs(blocks)
  {
    ReplaceFree(lo, blocks, i - 1, i + 1, [merged]);
    assert blocks[i - 1..i + 1] == [blocks[i - 1], blocks[i]];
    FreeTwo(blocks[i - 1], blocks[i]);
    FreeOne(merged);
    assert blocks[i - 1].addr in FreeAddrs(blocks);
  }

  lemma FreeRight(h: State, i: nat)
    requires Valid(h) && i + 1 < |h.blocks| && !h.blocks[i].free && h.blocks[i + 1].free
    requires i > 0 ==> !h.blocks[i - 1].free
    ensures var b, r := h.blocks[i], h.blocks[i + 1];
      Valid(h.(blocks := Replace(h.blocks, i, i + 2, [Block(b.addr, b.size + OVERHEAD + r.size, true)]),
               freelist := [b.addr] + Without(h.freelist, r.addr)))
  {
    hide Tiles; hide EndOf;
    var lo, b, r := h.start + 12, h.blocks[i], h.blocks[i + 1];
    var merged := Block(b.addr, b.size + OVERHEAD + r.size, true);
    var blocks' := Replace(h.blocks, i, i + 2, [merged]);
    PrefixEnds(lo, h.blocks, i);
    PrefixEnds(lo, h.blocks, i + 1);
    MergeTiles(lo, h.blocks, i, i + 2, merged);
    MergeNeighbours(h.blocks, i, i + 2, merged);
    ReplaceFree(lo, h.blocks, i, i + 2, [merged]);
    assert h.blocks[i..i + 2] == [b, r];
    FreeTwo(b, r);
    FreeOne(merged);
    AllocatedIsUnlisted(lo, h.blocks, i);
    WithoutMembers(h.freelist, r.addr);
  }

  lemma FreeBoth(h: State, i: nat)
    requires Valid(h) && 0 < i < |h.blocks| - 1 && !h.blocks[i].free && h.blocks[i - 1].free && h.blocks[i + 1].free
    ensures var l, b, r := h.blocks[i - 1], h.blocks[i], h.blocks[i + 1];
      Valid(h.(blocks := Replace(h.blocks, i - 1, i + 2,
        [Block(l.addr, l.size + 2 * OVERHEAD + b.size + r.size, true)]),
               freelist := Without(h.freelist, r.addr)))
  {
    var lo, l, b, r := h.start + 12, h.blocks[i - 1], h.blocks[i], h.blocks[i + 1];
    var merged := Block(l.addr, l.size + 2 * OVERHEAD + b.size + r.size, true);
    var blocks' := Replace(h.blocks, i - 1, i + 2, [merged]);
    PrefixEnds(lo, h.blocks, i - 1);
    PrefixEnds(lo, h.blocks, i);
    PrefixEnds(lo, h.blocks, i + 1);
    MergeTiles(lo, h.blocks, i - 1, i + 2, merged);
    MergeNeighbours(h.blocks, i - 1, i + 2, merged);
    BothSet(lo, h.blocks, i, merged);
    ListMinus(h.freelist, h.blocks, blocks', r.addr);
  }

  lemma BothSet(lo: int, blocks: seq<Block>, i: nat, merged: Block)
    requires Tiles(lo, blocks) && 0 < i < |blocks| - 1 && blocks[i - 1].free && !blocks[i].free && blocks[i + 1].free
    requires merged.free && merged.addr == blocks[i - 1].addr
    ensures FreeAddrs(Replace(blocks, i - 1, i + 2, [merged])) == FreeAddrs(blocks) - {blocks[i + 1].addr}
  {
    ReplaceFree(lo, blocks, i - 1, i + 2, [merged]);
    assert blocks[i - 1..i + 2] == [blocks[i - 1], blocks[i]] + [blocks[i + 1]];
    FreeAddrsConcat([blocks[i - 1], blocks[i]], [blocks[i + 1]]);
    FreeTwo(blocks[i - 1], blocks[i]);
    FreeOne(blocks[i + 1]);
    FreeOne(merged);
    assert blocks[i - 1].addr in FreeAddrs(blocks);
    BlocksDisjoint(lo, blocks, i - 1, i + 1);
    TilesBounds(lo, blocks, i - 1);
  }

  /** Freeing a live pointer keeps the heap valid: in particular, merging with
      both neighbours leaves no two free blocks side by side. */
  lemma FreeKeepsValid(h: State, p: int)
    requires Valid(h) && Live(h, p)
    ensures Valid(Free(h, p))
  {
    var i := IndexOf(h.blocks, p - OVERHEAD);
    var prev, next := i > 0 && h.blocks[i - 1].free, i + 1 < |h.blocks| && h.blocks[i + 1].free;
    if prev && next { FreeBoth(h, i); }
    else if prev { FreeLeft(h, i); }
    else if next { FreeRight(h, i); }
    else { FreeAlone(h, i); }
  }

  // ------------------------------------------------------- live allocations

  function Payload(h: State, p: int): int
    requires Live(h, p)
  {
    SizeAt(h.blocks, p - OVERHEAD)
  }

  /** Header address and payload size of every block in use. */
  ghost function InUse(blocks: seq<Block>): set<(int, int)>
  {
    set i | 0 <= i < |blocks| && !blocks[i].free :: (blocks[i].addr, blocks[i].size)
  }

  lemma InUseConcat(a: seq<Block>, b: seq<Block>)
    ensures InUse(a + b) == InUse(a) + InUse(b)
  {
    forall x | x in InUse(a) + InUse(b) ensures x in InUse(a + b) {
      if x in InUse(a) {
        var i :| 0 <= i < |a| && !a[i].free && (a[i].addr, a[i].size) == x;
        assert (a + b)[i] == a[i];
      } else {
        var i :| 0 <= i < |b| && !b[i].free && (b[i].addr, b[i].size) == x;
        assert (a + b)[|a| + i] == b[i];
      }
    }
  }

  lemma InUseOne(b: Block)
    ensures InUse([b]) == if b.free then {} else {(b.addr, b.size)}
  {
    assert !b.free ==> ([b][0].addr, [b][0].size) in InUse([b]);
  }

  lemma LiveIsInUse(h: State, p: int, size: int)
    requires Valid(h)
    ensures (p - OVERHEAD, size) in InUse(h.blocks) <==> Live(h, p) && Payload(h, p) == size
  {
    if (p - OVERHEAD, size) in InUse(h.blocks) {
      var i :| 0 <= i < |h.blocks| && !h.blocks[i].free && (h.blocks[i].addr, h.blocks[i].size) == (p - OVERHEAD, size);
      IndexUnique(h.start + 12, h.blocks, i);
    }
    if Live(h, p) && Payload(h, p) == size {
      var i := IndexOf(h.blocks, p - OVERHEAD);
      assert (h.blocks[i].addr, h.blocks[i].size) in InUse(h.blocks);
    }
  }

  /** Replacing blocks i..j, with what they used replaced by what the new ones use. */
  lemma ReplaceInUse(blocks: seq<Block>, i: nat, j: nat, mid: seq<Block>)
    requires i <= j <= |blocks|
    ensures InUse(blocks) == InUse(blocks[..i]) + InUse(blocks[i..j]) + InUse(blocks[j..])
    ensures InUse(Replace(blocks, i, j, mid)) == InUse(blocks[..i]) + InUse(mid) + InUse(blocks[j..])
  {
    var a, b, c := blocks[..i], blocks[i..j], blocks[j..];
    assert blocks == a + b + c;
    InUseConcat(a + b, c);
    InUseConcat(a, b);
    InUseConcat(a + mid, c);
    InUseConcat(a, mid);
  }

  lemma TakenUses(h: State, i: nat, rounded: int) returns (size: int)
    requires i < |h.blocks| && h.blocks[i].free && 0 <= rounded <= h.blocks[i].size
    ensures size == if h.blocks[i].size < rounded + 20 then h.blocks[i].size else rounded
    ensures InUse(Taken(h, i, rounded).blocks) == InUse(h.blocks) + {(h.blocks[i].addr, size)}
  {
    var b := h.blocks[i];
    assert h.blocks[i..i + 1] == [b];
    InUseOne(b);
    if b.size - rounded < 8 + OVERHEAD {
      ReplaceInUse(h.blocks, i, i + 1, [b.(free := false)]);
      InUseOne(b.(free := false));
      size := b.size;
    } else {
      var used := Block(b.addr, rounded, false);
      var rest := Block(b.addr + OVERHEAD + rounded, b.size - rounded - OVERHEAD, true);
      ReplaceInUse(h.blocks, i, i + 1, [used, rest]);
      assert [used, rest] == [used] + [rest];
      InUseConcat([used], [rest]);
      InUseOne(used);
      InUseOne(rest);
      size := rounded;
    }
  }

  lemma SameUseSameLife(h: State, h': State, p: int)
    requires Valid(h) && Valid(h')
    requires forall x: (int, int) :: x.0 != p - OVERHEAD ==> (x in InUse(h.blocks) <==> x in InUse(h'.blocks))
    ensures forall q :: q != p ==> (Live(h', q) <==> Live(h, q)) && (Live(h, q) ==> Payload(h', q) == Payload(h, q))
  {
    forall q | q != p ensures (Live(h', q) <==> Live(h, q)) && (Live(h, q) ==> Payload(h', q) == Payload(h, q)) {
      if Live(h, q) { LiveIsInUse(h, q, Payload(h, q)); LiveIsInUse(h', q, Payload(h, q)); }
      if Live(h', q) { LiveIsInUse(h', q, Payload(h', q)); LiveIsInUse(h, q, Payload(h', q)); }
    }
  }

  /** What a block at p gets: a listed one all it has when less than 20 bytes
      would remain, otherwise the rounded size. */
  function RoomFor(h: State, size: int, p: int): int
    requires 0 <= size < WORD
  {
    var x := p - OVERHEAD;
    if x in h.freelist && SizeAtListed(h, x) < Rounded(size) + 20 then SizeAtListed(h, x) else Rounded(size)
  }

  lemma MallocUses(h: State, size: int, h': State, p: int) returns (s: int)
    requires Valid(h) && 0 < size < WORD && Malloc(h, size) == (h', Pointer(p))
    ensures s == RoomFor(h, size, p)
    ensures InUse(h'.blocks) == InUse(h.blocks) + {(p - OVERHEAD, s)} && !Live(h, p)
  {
    var rounded := Rounded(size);
    var best := BestFit(h.blocks, h.freelist, rounded);
    if best.Some? {
      ListedIsFree(h, best.value);
      s := TakenUses(h, IndexOf(h.blocks, best.value), rounded);
    } else {
      InUseConcat(h.blocks, [Block(h.brk, rounded, false)]);
      InUseOne(Block(h.brk, rounded, false));
      s := rounded;
      if h.brk in h.freelist { ListedIsFree(h, h.brk); }
      if Present(h.blocks, h.brk) { TilesBounds(h.start + 12, h.blocks, IndexOf(h.blocks, h.brk)); }
    }
  }

  lemma OneMoreInUse(h: State, h': State, p: int, s: int)
    requires Valid(h) && Valid(h') && !Live(h, p)
    requires InUse(h'.blocks) == InUse(h.blocks) + {(p - OVERHEAD, s)}
    ensures Live(h', p) && Payload(h', p) == s
    ensures forall q :: q != p ==> (Live(h', q) <==> Live(h, q)) && (Live(h, q) ==> Payload(h', q) == Payload(h, q))
  {
    LiveIsInUse(h', p, s);
    SameUseSameLife(h, h', p);
  }

  /** A pointer from kmalloc is new, its block holds at least the rounded size and
      less than 20 bytes more, and every other live pointer keeps its block. */
  lemma MallocLive(h: State, size: int, h': State, p: int)
    requires Valid(h) && 0 < size < WORD && !WrapsAround(h, size) && Malloc(h, size) == (h', Pointer(p))
    ensures !Live(h, p) && Live(h', p) && Payload(h', p) == RoomFor(h, size, p)
    ensures Rounded(size) <= Payload(h', p) < Rounded(size) + 20
    ensures forall q :: q != p ==> (Live(h', q) <==> Live(h, q)) && (Live(h, q) ==> Payload(h', q) == Payload(h, q))
  {
    MallocKeepsValid(h, size);
    var s := MallocUses(h, size, h', p);
    OneMoreInUse(h, h', p, s);
    if p - OVERHEAD in h.freelist {
      ListedIsFree(h, p - OVERHEAD);
      BreakIsUnlisted(h);
    }
  }

  lemma BreakIsUnlisted(h: State)
    requires Valid(h)
    ensures h.brk !in h.freelist
  {
    if h.brk in h.freelist {
      ListedIsFree(h, h.brk);
      TilesBounds(h.start + 12, h.blocks, IndexOf(h.blocks, h.brk));
    }
  }

  /** Which blocks the four ways of freeing replace, and by what. */
  lemma FreeShape(h: State, p: int) returns (i: nat, j: nat, k: nat, merged: Block)
    requires Valid(h) && Live(h, p)
    ensures k == IndexOf(h.blocks, p - OVERHEAD) && i <= k < j <= |h.blocks| && merged.free
    ensures Free(h, p).blocks == Replace(h.blocks, i, j, [merged])
    ensures forall l :: i <= l < j && l != k ==> h.blocks[l].free
  {
    k := IndexOf(h.blocks, p - OVERHEAD);
    var b := h.blocks[k];
    var prev, next := k > 0 && h.blocks[k - 1].free, k + 1 < |h.blocks| && h.blocks[k + 1].free;
    i, j := if prev then k - 1 else k, if next then k + 2 else k + 1;
    merged := Free(h, p).blocks[i];
  }

  lemma SegmentUses(blocks: seq<Block>, i: nat, j: nat, k: nat)
    requires i <= k < j <= |blocks| && !blocks[k].free && forall l :: i <= l < j && l != k ==> blocks[l].free
    ensures InUse(blocks[i..j]) == {(blocks[k].addr, blocks[k].size)}
  {
    assert blocks[i..j][k - i] == blocks[k];
    forall x | x in InUse(blocks[i..j]) ensures x == (blocks[k].addr, blocks[k].size) {
      var l :| 0 <= l < |blocks[i..j]| && !blocks[i..j][l].free && (blocks[i..j][l].addr, blocks[i..j][l].size) == x;
      assert blocks[i + l] == blocks[i..j][l];
    }
  }

  lemma OthersUse(lo: int, blocks: seq<Block>, i: nat, j: nat, k: nat)
    requires Tiles(lo, blocks) && i <= k < j <= |blocks|
    ensures forall x :: x in InUse(blocks[..i]) || x in InUse(blocks[j..]) ==> x.0 != blocks[k].addr
  {
    forall x | x in InUse(blocks[..i]) || x in InUse(blocks[j..]) ensures x.0 != blocks[k].addr {
      if x in InUse(blocks[..i]) {
        var l :| 0 <= l < i && (blocks[l].addr, blocks[l].size) == x;
        BlocksDisjoint(lo, blocks, l, k);
        TilesBounds(lo, blocks, l);
      } else {
        var l :| 0 <= l < |blocks[j..]| && (blocks[j..][l].addr, blocks[j..][l].size) == x;
        assert blocks[j..][l] == blocks[j + l];
        BlocksDisjoint(lo, blocks, k, j + l);
        TilesBounds(lo, blocks, k);
      }
    }
  }

  /** kfree ends exactly the one pointer and touches no other live block. */
  lemma FreeLive(h: State, p: int)
    requires Valid(h) && Live(h, p)
    ensures var h' := Free(h, p);
      && !Live(h', p)
      && forall q :: q != p ==> (Live(h', q) <==> Live(h, q)) && (Live(h, q) ==> Payload(h', q) == Payload(h, q))
  {
    var h' := Free(h, p);
    FreeKeepsValid(h, p);
    var i, j, k, merged := FreeShape(h, p);
    ReplaceInUse(h.blocks, i, j, [merged]);
    InUseOne(merged);
    SegmentUses(h.blocks, i, j, k);
    OthersUse(h.start + 12, h.blocks, i, j, k);
    assert InUse(h.blocks) == InUse(h'.blocks) + {(p - OVERHEAD, h.blocks[k].size)};
    if Live(h', p) { LiveIsInUse(h', p, Payload(h', p)); }
    SameUseSameLife(h, h', p);
  }

  /** Two live allocations never overlap, and neither reaches into a header or
      outside the heap. */
  lemma LiveDisjoint(h: State, p: int, q: int)
    requires Valid(h) && Live(h, p) && Live(h, q) && p < q
    ensures p + Payload(h, p) <= q - OVERHEAD
    ensures h.start + 12 + OVERHEAD <= p && q + Payload(h, q) <= h.brk <= h.end
  {
    var lo, i, j := h.start + 12, IndexOf(h.blocks, p - OVERHEAD), IndexOf(h.blocks, q - OVERHEAD);
    if j < i { BlocksDisjoint(lo, h.blocks, j, i); TilesBounds(lo, h.blocks, j); }
    BlocksDisjoint(lo, h.blocks, i, j);
    TilesBounds(lo, h.blocks, i);
    TilesBounds(lo, h.blocks, j);
  }

  // ----------------------------------------------------------- conservation

  /** Headers and payloads, free or not, added up. */
  function Bytes(blocks: seq<Block>): int
  {
    if blocks == [] then 0 else OVERHEAD + blocks[0].size + Bytes(blocks[1..])
  }

  lemma {:induction false} BytesCovered(lo: int, blocks: seq<Block>)
    ensures EndOf(lo, blocks) == lo + Bytes(blocks)
    decreases |blocks|
  {
    if blocks != [] { BytesCovered(lo + OVERHEAD + blocks[0].size, blocks[1..]); }
  }

  // ------------------------------------------------------------------- runs

  datatype Call = Kmalloc(size: int) | Kfree(p: int)

  /** The heap and, for each live pointer, the size that was asked for. */
  datatype Session = Session(heap: State, asked: map<int, int>)

  /** Callers ask for 32-bit sizes and free what is live. */
  predicate Lawful(s: Session, c: Call)
  {
    match c
    case Kmalloc(size) => 0 <= size < WORD
    case Kfree(p) => Live(s.heap, p)
  }

  /** And for no more than the break can take without wrapping around. */
  predicate Proper(s: Session, c: Call)
  {
    Lawful(s, c) && (c.Kmalloc? ==> !WrapsAround(s.heap, c.size))
  }

  function Next(s: Session, c: Call): Session
    requires Lawful(s, c)
  {
    match c
    case Kmalloc(size) =>
      var (h, out) := Malloc(s.heap, size);
      Session(h, if out.Pointer? then s.asked[out.p := size] else s.asked)
    case Kfree(p) => Session(Free(s.heap, p), s.asked - {p})
  }

  predicate LawfulRun(s: Session, calls: seq<Call>)
    decreases |calls|
  {
    calls == [] || (Lawful(s, calls[0]) && LawfulRun(Next(s, calls[0]), calls[1..]))
  }

  predicate ProperRun(s: Session, calls: seq<Call>)
    ensures ProperRun(s, calls) ==> LawfulRun(s, calls)
    decreases |calls|
  {
    calls == [] || (Proper(s, calls[0]) && ProperRun(Next(s, calls[0]), calls[1..]))
  }

  function Run(s: Session, calls: seq<Call>): Session
    requires LawfulRun(s, calls)
    decreases |calls|
  {
    if calls == [] then s else Run(Next(s, calls[0]), calls[1..])
  }

  /** What every session keeps: a valid heap, exactly the pointers handed out and
      not given back are live, and each has the room that was asked for unless
      rounding the size up overflowed. */
  ghost predicate Inv(s: Session)
  {
    && Valid(s.heap)
    && (forall p :: Live(s.heap, p) <==> p in s.asked)
    && (forall p :: p in s.asked ==> 0 < s.asked[p] < WORD)
    && (forall p :: p in s.asked && s.asked[p] <= WORD - 16 ==> Live(s.heap, p) && s.asked[p] <= Payload(s.heap, p))
  }

  lemma NullForZero(h: State, size: int)
    requires 0 <= size < WORD
    ensures Malloc(h, size).1.Pointer? ==> size > 0
    ensures !Malloc(h, size).1.Pointer? ==> Malloc(h, size).0 == h
  {
  }

  lemma MallocKeepsInv(s: Session, size: int)
    requires Inv(s) && 0 <= size < WORD && !WrapsAround(s.heap, size)
    ensures Inv(Next(s, Kmalloc(size)))
  {
    hide Valid; hide Malloc; hide Live; hide RoomFor; hide WrapsAround;
    var (h, out) := Malloc(s.heap, size);
    NullForZero(s.heap, size);
    if out.Pointer? {
      MallocKeepsValid(s.heap, size);
      MallocLive(s.heap, size, h, out.p);
      var s' := Next(s, Kmalloc(size));
      forall p ensures Live(s'.heap, p) <==> p in s'.asked { assert p != out.p ==> (Live(h, p) <==> Live(s.heap, p)); }
    }
  }

  lemma FreeKeepsInv(s: Session, p: int)
    requires Inv(s) && Live(s.heap, p)
    ensures Inv(Next(s, Kfree(p)))
  {
    FreeKeepsValid(s.heap, p);
    FreeLive(s.heap, p);
  }

  lemma NextKeepsBounds(s: Session, c: Call)
    requires Inv(s) && Proper(s, c)
    ensures var h := Next(s, c).heap; h.start == s.heap.start && h.end == s.heap.end && h.brk >= s.heap.brk
  {
    EndAfter(s.heap.start + 12, s.heap.blocks);
  }

  /** Every state any session reaches keeps the invariant; the break only grows. */
  lemma {:induction false} RunKeepsInv(s: Session, calls: seq<Call>)
    requires Inv(s) && ProperRun(s, calls)
    ensures Inv(Run(s, calls))
    ensures var h := Run(s, calls).heap; h.start == s.heap.start && h.end == s.heap.end && h.brk >= s.heap.brk
    decreases |calls|
  {
    if calls != [] {
      match calls[0] {
        case Kmalloc(size) => MallocKeepsInv(s, size);
        case Kfree(p) => FreeKeepsInv(s, p);
      }
      NextKeepsBounds(s, calls[0]);
      RunKeepsInv(Next(s, calls[0]), calls[1..]);
    }
  }

  lemma InitInv(start: int, end: int)
    requires 0 < start && start + 12 <= end < WORD
    ensures Inv(Session(Init(start, end), map[]))
  {
    assert FreeAddrs([]) == {};
  }

  lemma BytesAddUp(h: State)
    requires Valid(h)
    ensures Bytes(h.blocks) == h.brk - (h.start + 12) && h.start + 12 <= h.brk <= h.end
  {
    BytesCovered(h.start + 12, h.blocks);
    EndAfter(h.start + 12, h.blocks);
  }

  /** From kheap_init on, over any run: the invariant holds and the bytes of all
      blocks add up to the bytes obtained from the break, which stays within the heap. */
  lemma RunFromInit(start: int, end: int, s: Session, calls: seq<Call>)
    requires 0 < start && start + 12 <= end < WORD && s == Session(Init(start, end), map[]) && ProperRun(s, calls)
    ensures var s' := Run(s, calls);
      && Inv(s') && s'.heap.start == start && s'.heap.end == end
      && Bytes(s'.heap.blocks) == s'.heap.brk - (start + 12) && start + 12 <= s'.heap.brk <= end
  {
    InitInv(start, end);
    RunKeepsInv(s, calls);
    var s' := Run(s, calls);
    BytesAddUp(s'.heap);
  }

  /** The room granted falls short exactly for sizes within 15 of 2^32: there
      rounding up overflows to nothing. */
  lemma RoomGrantedIff(h: State, size: int, h': State, p: int)
    requires Valid(h) && 0 < size < WORD && !WrapsAround(h, size) && Malloc(h, size) == (h', Pointer(p))
    ensures Live(h', p) && (Payload(h', p) >= size <==> size <= WORD - 16)
  {
    MallocLive(h, size, h', p);
    MallocKeepsValid(h, size);
    TilesBounds(h'.start + 12, h'.blocks, IndexOf(h'.blocks, p - OVERHEAD));
  }

  /** kmalloc(2^32 - 1) on a fresh heap of one page hands out a pointer to
      a block of no room. */
  lemma HugeSizeGetsNoRoom()
    ensures var (h, out) := Malloc(Init(4096, 8192), WORD - 1);
      out == Pointer(4120) && Live(h, 4120) && Payload(h, 4120) == 0
  {
    var h0 := Init(4096, 8192);
    assert Rounded(WORD - 1) == 0;
    assert Malloc(h0, WORD - 1).0.blocks == [Block(4108, 0, false)];
  }

  /** A fresh heap of one page, the last but one below 2^32: kmalloc(8192) moves
      the break around the address space and hands out a pointer, and the heap is
      broken. */
  lemma TopHeapWraps()
    ensures var h := Init(WORD - 8192, WORD - 4096);
      && Valid(h) && WrapsAround(h, 8192) && Malloc(h, 8192).1 == Pointer(WORD - 8168)
      && Malloc(h, 8192).0.brk < h.brk && !Valid(Malloc(h, 8192).0)
  {
    InitInv(WORD - 8192, WORD - 4096);
    MallocValidIff(Init(WORD - 8192, WORD - 4096), 8192);
  }

  /** The heap is valid now and after every call of the run. */
  ghost predicate StaysValid(s: Session, calls: seq<Call>)
    requires LawfulRun(s, calls)
    decreases |calls|
  {
    Valid(s.heap) && (calls == [] || StaysValid(Next(s, calls[0]), calls[1..]))
  }

  /** Over any run of 32-bit sizes and live pointers the heap stays valid exactly
      as long as the break does not wrap around. */
  lemma {:induction false} RunValidIff(s: Session, calls: seq<Call>)
    requires Inv(s) && LawfulRun(s, calls)
    ensures StaysValid(s, calls) <==> ProperRun(s, calls)
    decreases |calls|
  {
    if calls != [] {
      var next := Next(s, calls[0]);
      if Proper(s, calls[0]) {
        match calls[0] {
          case Kmalloc(size) => MallocKeepsInv(s, size);
          case Kfree(p) => FreeKeepsInv(s, p);
        }
        RunValidIff(next, calls[1..]);
      } else {
        MallocValidIff(s.heap, calls[0].size);
        assert !Valid(next.heap);
      }
    }
  }

  /** On a heap in the lower half of the address space that is every run. */
  lemma {:induction false} LowRunsAreProper(s: Session, calls: seq<Call>)
    requires Inv(s) && s.heap.end <= WORD / 2 && LawfulRun(s, calls)
    ensures ProperRun(s, calls) && Inv(Run(s, calls))
    decreases |calls|
  {
    if calls != [] {
      match calls[0] {
        case Kmalloc(size) => LowHeapNeverWraps(s.heap, size); MallocKeepsInv(s, size);
        case Kfree(p) => FreeKeepsInv(s, p);
      }
      NextKeepsBounds(s, calls[0]);
      LowRunsAreProper(Next(s, calls[0]), calls[1..]);
    }
  }

  /** The block kmalloc picks from the free list is one of the smallest that fit. */
  lemma MallocPicksBest(h: State, size: int, x: int)
    requires Valid(h) && 0 < size < WORD && x in h.freelist && SizeAtListed(h, x) >= Rounded(size)
    ensures var out := Malloc(h, size).1;
      && out.Pointer? && out.p - OVERHEAD in h.freelist
      && SizeAtListed(h, out.p - OVERHEAD) <= SizeAtListed(h, x)
  {
    var k :| 0 <= k < |h.freelist| && h.freelist[k] == x;
    ListedIsFree(h, x);
    BestFitIsBest(h.blocks, h.freelist, Rounded(size), k);
    ListedIsFree(h, BestFit(h.blocks, h.freelist, Rounded(size)).value);
  }

  function SizeAtListed(h: State, x: int): int
  {
    if Present(h.blocks, x) then SizeAt(h.blocks, x) else 0
  }

  // -------------------------------------------------- order of the free list

  predicate Ahead(list: seq<int>, x: int, y: int)
  {
    exists a, b :: 0 <= a < b < |list| && list[a] == x && list[b] == y
  }

  lemma {:induction false} WithoutKeepsOrder(list: seq<int>, z: int, x: int, y: int)
    requires x != z && y != z
    ensures Ahead(Without(list, z), x, y) <==> Ahead(list, x, y)
  {
    if list != [] {
      WithoutKeepsOrder(list[1..], z, x, y);
      WithoutMember(list[1..], z, y);
      AheadStep(list, x, y);
      if list[0] != z { AheadStep(Without(list, z), x, y); }
    }
  }

  lemma {:induction false} WithoutMember(list: seq<int>, z: int, y: int)
    requires y != z
    ensures y in Without(list, z) <==> y in list
  {
    if list != [] { WithoutMember(list[1..], z, y); }
  }

  lemma AheadStep(list: seq<int>, x: int, y: int)
    requires list != []
    ensures Ahead(list, x, y) <==> (list[0] == x && y in list[1..]) || Ahead(list[1..], x, y)
  {
    var rest := list[1..];
    if Ahead(list, x, y) {
      var a, b :| 0 <= a < b < |list| && list[a] == x && list[b] == y;
      assert rest[b - 1] == y;
      if a > 0 { assert rest[a - 1] == x; }
    }
    if list[0] == x && y in rest {
      var b :| 0 <= b < |rest| && rest[b] == y;
      assert list[b + 1] == y;
    }
    if Ahead(rest, x, y) {
      var a, b :| 0 <= a < b < |rest| && rest[a] == x && rest[b] == y;
      assert list[a + 1] == x && list[b + 1] == y;
    }
  }

  lemma FrontKeepsOrder(list: seq<int>, z: int, x: int, y: int)
    requires x != z
    ensures Ahead([z] + list, x, y) <==> Ahead(list, x, y)
  {
    AheadStep([z] + list, x, y);
    assert ([z] + list)[1..] == list;
  }

  /** Neither call reorders the free list: blocks listed before and after keep
      their order. */
  lemma MallocKeepsOrder(h: State, size: int, x: int, y: int)
    requires Valid(h) && 0 <= size < WORD && x in h.freelist && y in h.freelist
    requires x in Malloc(h, size).0.freelist && y in Malloc(h, size).0.freelist
    ensures Ahead(Malloc(h, size).0.freelist, x, y) <==> Ahead(h.freelist, x, y)
  {
    var best := BestFit(h.blocks, h.freelist, Rounded(size));
    if size > 0 && best.Some? {
      ListedIsFree(h, best.value);
      var i := IndexOf(h.blocks, best.value);
      WithoutMembers(h.freelist, best.value);
      var rest := best.value + OVERHEAD + Rounded(size);
      if h.blocks[i].size - Rounded(size) >= 8 + OVERHEAD {
        InsideIsUnlisted(h.start + 12, h.blocks, i, rest);
        FrontKeepsOrder(Without(h.freelist, best.value), rest, x, y);
      }
      if x != best.value && y != best.value { WithoutKeepsOrder(h.freelist, best.value, x, y); }
    }
  }

  lemma FreeKeepsOrder(h: State, p: int, x: int, y: int)
    requires Valid(h) && Live(h, p) && x in h.freelist && y in h.freelist
    requires x in Free(h, p).freelist && y in Free(h, p).freelist
    ensures Ahead(Free(h, p).freelist, x, y) <==> Ahead(h.freelist, x, y)
  {
    var i := IndexOf(h.blocks, p - OVERHEAD);
    AllocatedIsUnlisted(h.start + 12, h.blocks, i);
    if i + 1 < |h.blocks| && h.blocks[i + 1].free {
      var r := h.blocks[i + 1].addr;
      WithoutMembers(h.freelist, r);
      FrontKeepsOrder(Without(h.freelist, r), p - OVERHEAD, x, y);
      if x != r && y != r { WithoutKeepsOrder(h.freelist, r, x, y); }
    } else {
      FrontKeepsOrder(h.freelist, p - OVERHEAD, x, y);
    }
  }

  // ------------------------------------------------- last freed, first reused

  /** A block that heads the free list and has just the size wanted is taken. */
  lemma ExactHead(h: State, size: int)
    requires Valid(h) && 0 < size < WORD && h.freelist != [] && SizeAtListed(h, h.freelist[0]) == Rounded(size)
    ensures BestFit(h.blocks, h.freelist, Rounded(size)) == Some(h.freelist[0])
  {
    ListedIsFree(h, h.freelist[0]);
    BestFitIsBest(h.blocks, h.freelist, Rounded(size), 0);
    BestFitIsFirst(h.blocks, h.freelist, Rounded(size), 0);
  }

  /** A block freed behind one in use is handed out again by the next kmalloc of
      its size, merged with what was free to its right. */
  lemma FreedIsReused(h: State, p: int, size: int)
    requires Valid(h) && Live(h, p) && 0 < size < WORD
    requires var i := IndexOf(h.blocks, p - OVERHEAD); i > 0 ==> !h.blocks[i - 1].free
    requires SizeAtListed(Free(h, p), p - OVERHEAD) == Rounded(size)
    ensures Malloc(Free(h, p), size).1 == Pointer(p)
  {
    FreeKeepsValid(h, p);
    ExactHead(Free(h, p), size);
  }

  /** kmalloc undoes kfree, block and list, where nothing was merged. */
  lemma FreeThenMalloc(h: State, p: int, size: int)
    requires Valid(h) && Live(h, p) && 0 < size < WORD && Rounded(size) == Payload(h, p)
    requires var i := IndexOf(h.blocks, p - OVERHEAD);
      (i > 0 ==> !h.blocks[i - 1].free) && (i + 1 < |h.blocks| ==> !h.blocks[i + 1].free)
    ensures Malloc(Free(h, p), size) == (h, Pointer(p))
  {
    hide Valid; hide BestFit;
    var i, h' := IndexOf(h.blocks, p - OVERHEAD), Free(h, p);
    FreeKeepsValid(h, p);
    AloneAgain(h, i);
    ExactHead(h', size);
  }

  lemma AloneAgain(h: State, i: nat)
    requires Valid(h) && i < |h.blocks| && i == IndexOf(h.blocks, h.blocks[i].addr)
    requires !h.blocks[i].free && (i > 0 ==> !h.blocks[i - 1].free) && (i + 1 < |h.blocks| ==> !h.blocks[i + 1].free)
    requires Live(h, h.blocks[i].addr + OVERHEAD)
    ensures var b, h' := h.blocks[i], Free(h, h.blocks[i].addr + OVERHEAD);
      && h'.freelist == [b.addr] + h.freelist && i == IndexOf(h'.blocks, b.addr) < |h'.blocks|
      && h'.blocks[i].size == b.size && Taken(h', i, b.size) == h
  {
    hide ListsFree; hide NoFreeNeighbours;
    var b, h' := h.blocks[i], Free(h, h.blocks[i].addr + OVERHEAD);
    FreeKeepsValid(h, b.addr + OVERHEAD);
    assert h'.blocks[i] == b.(free := true);
    IndexUnique(h.start + 12, h'.blocks, i);
    assert Taken(h', i, b.size).blocks == h.blocks;
    assert Without([b.addr] + h.freelist, b.addr) == h.freelist;
  }

  /** What is left of a split block is handed out by the next kmalloc of its size. */
  lemma SplitRestIsNext(h: State, size: int, size': int, h': State, p: int)
    requires Valid(h) && 0 < size < WORD && 0 < size' < WORD && Malloc(h, size) == (h', Pointer(p))
    requires p - OVERHEAD in h.freelist && SizeAtListed(h, p - OVERHEAD) == Rounded(size) + OVERHEAD + Rounded(size')
    requires Rounded(size') >= 8
    ensures Malloc(h', size').1 == Pointer(p + Rounded(size) + OVERHEAD)
  {
    BreakIsUnlisted(h);
    ListedIsFree(h, p - OVERHEAD);
    MallocKeepsValid(h, size);
    var i := IndexOf(h.blocks, p - OVERHEAD);
    assert h'.blocks[i + 1] == Block(p + Rounded(size), Rounded(size'), true);
    IndexUnique(h'.start + 12, h'.blocks, i + 1);
    ExactHead(h', size');
  }

  /** kmalloc gives up exactly when every free block is too small and the break
      cannot be moved: the increment is no positive signed word, or the new break
      lies behind the end of the heap. Nothing has changed then. */
  lemma OutOfSpaceIff(h: State, size: int)
    requires Valid(h) && 0 <= size < WORD
    ensures Malloc(h, size).1 == OutOfSpace <==>
      && size > 0 && (forall x :: x in h.freelist ==> SizeAtListed(h, x) < Rounded(size))
      && (Rounded(size) + 12 >= 0x8000_0000 || h.end < h.brk + Rounded(size) + 12 < 0x1_0000_0000)
    ensures Malloc(h, size).1 == Null <==> size == 0
    ensures !Malloc(h, size).1.Pointer? ==> Malloc(h, size).0 == h
  {
    EndAfter(h.start + 12, h.blocks);
    if x :| x in h.freelist && size > 0 && SizeAtListed(h, x) >= Rounded(size) {
      MallocPicksBest(h, size, x);
    } else if size > 0 && BestFit(h.blocks, h.freelist, Rounded(size)).Some? {
      ListedIsFree(h, BestFit(h.blocks, h.freelist, Rounded(size)).value);
    }
  }
}
