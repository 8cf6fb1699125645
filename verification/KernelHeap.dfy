/** mem/kheap.c as it runs: block headers in memory linked by address, the free
    bit in the lowest bit of the size, and the three words head, tail and freelist. */
module KernelHeap {
  import opened Basics
  import opened Heap
  import opened HeapRuns

  /** block_t: the size field with the free bit, and the two links (0 is NULL). */
  datatype Header = Header(size: int, nextfree: int, next: int)

  type Memory = map<int, Header>

  function RealSize(size: int): int { size - size % 2 }

  function WithFreeBit(size: int, free: bool): int { RealSize(size) + if free then 1 else 0 }

  predicate IsFree(mem: Memory, block: int)
  {
    block != 0 && block in mem && mem[block].size % 2 == 1
  }

  function AddrAt(blocks: seq<Block>, i: nat): int
  {
    if i < |blocks| then blocks[i].addr else 0
  }

  function ItemAt(list: seq<int>, k: nat): int
  {
    if k < |list| then list[k] else 0
  }

  ghost predicate Mirror(mem: Memory, b: Block, next: int)
  {
    b.addr in mem && mem[b.addr].size == b.size + (if b.free then 1 else 0) && mem[b.addr].next == next
  }

  /** Setting and reading the free bit of a size that is a multiple of four. */
  lemma FreeBit(size: int, free: bool)
    requires size % 4 == 0
    ensures WithFreeBit(size, free) == size + (if free then 1 else 0)
    ensures RealSize(size + (if free then 1 else 0)) == size
    ensures (size + (if free then 1 else 0)) % 2 == 1 <==> free
  {
  }

  /** Size fields and next links in memory describe these blocks. */
  ghost predicate Mirrors(mem: Memory, blocks: seq<Block>)
  {
    forall i :: 0 <= i < |blocks| ==> Mirror(mem, blocks[i], AddrAt(blocks, i + 1))
  }

  /** The nextfree links from `first` on run through this list. */
  ghost predicate Linked(mem: Memory, first: int, list: seq<int>)
  {
    && first == ItemAt(list, 0)
    && forall k :: 0 <= k < |list| ==> list[k] in mem && mem[list[k]].nextfree == ItemAt(list, k + 1)
  }

  /** The test of the search loop: the block fits and is free, and nothing
      smaller or equal was found before. */
  predicate Better(mem: Memory, block: int, best: int, wanted: int)
    requires block in mem && (best != 0 ==> best in mem)
  {
    mem[block].size >= RealSize(wanted) && IsFree(mem, block) && (best == 0 || mem[block].size < mem[best].size)
  }

  function OrNull(r: Option<int>): int
  {
    if r.Some? then r.value else 0
  }

  /** Memory describes the free block at x. */
  ghost predicate FreeHeader(mem: Memory, blocks: seq<Block>, x: int)
  {
    && x != 0 && x in mem && IsFree(mem, x) && Present(blocks, x)
    && mem[x].size == SizeAt(blocks, x) + 1 && SizeAt(blocks, x) % 4 == 0
  }

  lemma BestFitSnoc(blocks: seq<Block>, list: seq<int>, k: nat, wanted: int, mem: Memory)
    requires k < |list| && wanted % 4 == 0 && FreeHeader(mem, blocks, list[k])
    requires BestFit(blocks, list[..k], wanted).Some? ==>
      FreeHeader(mem, blocks, BestFit(blocks, list[..k], wanted).value)
    ensures var x, best := list[k], OrNull(BestFit(blocks, list[..k], wanted));
      OrNull(BestFit(blocks, list[..k + 1], wanted)) == if Better(mem, x, best, wanted) then x else best
  {
    assert list[..k + 1][..k] == list[..k];
    FreeBit(wanted, false);
    assert mem[list[k]].size >= wanted <==> SizeAt(blocks, list[k]) >= wanted;
  }

  /** Same sizes and next links, whatever the nextfree links are. */
  ghost predicate SameBlocks(mem: Memory, mem': Memory)
  {
    forall x :: x in mem ==> x in mem' && mem'[x].size == mem[x].size && mem'[x].next == mem[x].next
  }

  function NextIn(mid: seq<Block>, k: nat, after: int): int
  {
    if k + 1 < |mid| then mid[k + 1].addr else after
  }

  ghost predicate Kept(mem: Memory, mem': Memory, x: int)
  {
    x in mem && x in mem' && mem'[x].size == mem[x].size && mem'[x].next == mem[x].next
  }

  /** Replacing blocks i..j by others that start at the same address: only the
      headers of the new ones have to be right. */
  lemma MirrorsReplace(mem: Memory, mem': Memory, blocks: seq<Block>, i: nat, j: nat, mid: seq<Block>)
    requires i < j <= |blocks| && Mirrors(mem, blocks)
    requires mid != [] && mid[0].addr == blocks[i].addr
    requires forall k :: 0 <= k < |mid| ==> Mirror(mem', mid[k], NextIn(mid, k, AddrAt(blocks, j)))
    requires forall k :: 0 <= k < |blocks| && !(i <= k < j) ==> Kept(mem, mem', blocks[k].addr)
    ensures Mirrors(mem', Replace(blocks, i, j, mid))
  {
    var n := Replace(blocks, i, j, mid);
    forall k | 0 <= k < |n| ensures Mirror(mem', n[k], AddrAt(n, k + 1)) {
      if k < i {
        assert Mirror(mem, blocks[k], AddrAt(blocks, k + 1)) && Kept(mem, mem', blocks[k].addr);
        assert n[k] == blocks[k] && AddrAt(n, k + 1) == AddrAt(blocks, k + 1);
      } else if k < i + |mid| {
        assert n[k] == mid[k - i];
        assert Mirror(mem', mid[k - i], NextIn(mid, k - i, AddrAt(blocks, j)));
        assert AddrAt(n, k + 1) == NextIn(mid, k - i, AddrAt(blocks, j));
      } else {
        var l := k - i - |mid| + j;
        assert n[k] == blocks[l] && Mirror(mem, blocks[l], AddrAt(blocks, l + 1)) && Kept(mem, mem', blocks[l].addr);
        assert AddrAt(n, k + 1) == AddrAt(blocks, l + 1);
      }
    }
  }

  lemma {:induction false} WithoutAt(list: seq<int>, k: nat)
    requires NoRepeats(list) && k < |list|
    ensures Without(list, list[k]) == list[..k] + list[k + 1..]
  {
    if k == 0 {
      assert list[..k] + list[k + 1..] == list[1..];
    } else {
      var rest := list[1..];
      assert list[0] != list[k] && rest[k - 1] == list[k];
      WithoutAt(rest, k - 1);
      assert [list[0]] + (rest[..k - 1] + rest[k..]) == list[..k] + list[k + 1..];
    }
  }

  /** Headers may change size and next, or appear, without disturbing the list. */
  lemma LinkedKept(mem: Memory, mem': Memory, first: int, list: seq<int>)
    requires Linked(mem, first, list)
    requires forall k :: 0 <= k < |list| ==> list[k] in mem' && mem'[list[k]].nextfree == mem[list[k]].nextfree
    ensures Linked(mem', first, list)
  {
  }

  /** The free list is not touched by blocks that are not on it. */
  lemma ListOf(h: State)
    requires Valid(h)
    ensures 0 !in h.freelist && NoRepeats(h.freelist)
    ensures forall i :: 0 <= i < |h.blocks| && !h.blocks[i].free ==> h.blocks[i].addr !in h.freelist
    ensures forall x :: x in h.freelist ==> x < h.brk
  {
    forall x | x in h.freelist ensures 0 < x < h.brk {
      ListedIsFree(h, x);
      TilesBounds(h.start + 12, h.blocks, IndexOf(h.blocks, x));
    }
    forall i | 0 <= i < |h.blocks| && !h.blocks[i].free ensures h.blocks[i].addr !in h.freelist {
      AllocatedIsUnlisted(h.start + 12, h.blocks, i);
    }
  }

  function TailOf(blocks: seq<Block>): int
  {
    if blocks == [] then 0 else blocks[|blocks| - 1].addr
  }

  /** First and last block after replacing blocks i..j. */
  lemma EndsReplace(blocks: seq<Block>, i: nat, j: nat, mid: seq<Block>)
    requires i < j <= |blocks| && mid != [] && mid[0].addr == blocks[i].addr
    ensures AddrAt(Replace(blocks, i, j, mid), 0) == AddrAt(blocks, 0)
    ensures TailOf(Replace(blocks, i, j, mid)) == if j < |blocks| then TailOf(blocks) else mid[|mid| - 1].addr
  {
  }

  lemma CutItems(list: seq<int>, k: nat, l: nat)
    requires k < |list| && l < |list|
    ensures ItemAt(list[..k] + list[k + 1..], l) == if l < k then ItemAt(list, l) else ItemAt(list, l + 1)
  {
  }

  lemma UnlinkedAt(mem: Memory, mem': Memory, list: seq<int>, k: nat, l: nat)
    requires k < |list| && l < |list| - 1
    requires forall j :: 0 <= j < |list| ==> list[j] in mem'
    requires forall j :: 0 <= j < |list| ==> list[j] in mem && mem[list[j]].nextfree == ItemAt(list, j + 1)
    requires forall j :: 0 <= j < |list| && j != k && j + 1 != k ==> mem'[list[j]].nextfree == mem[list[j]].nextfree
    requires k > 0 ==> mem'[list[k - 1]].nextfree == ItemAt(list, k + 1)
    ensures var n := list[..k] + list[k + 1..];
      n[l] in mem' && mem'[n[l]].nextfree == ItemAt(n, l + 1)
  {
    var n, j := list[..k] + list[k + 1..], if l < k then l else l + 1;
    assert n[l] == list[j];
    CutItems(list, k, l + 1);
  }

  /** The list with its k-th entry unlinked in memory. */
  lemma Unlinked(mem: Memory, mem': Memory, first: int, list: seq<int>, k: nat)
    requires Linked(mem, first, list) && NoRepeats(list) && k < |list|
    requires forall l :: 0 <= l < |list| ==> list[l] in mem'
    requires forall l :: 0 <= l < |list| && l != k && l + 1 != k ==> mem'[list[l]].nextfree == mem[list[l]].nextfree
    requires k > 0 ==> mem'[list[k - 1]].nextfree == ItemAt(list, k + 1)
    ensures Linked(mem', if k == 0 then ItemAt(list, 1) else first, Without(list, list[k]))
  {
    hide Without; hide NoRepeats;
    WithoutAt(list, k);
    var n := list[..k] + list[k + 1..];
    forall l | 0 <= l < |n| ensures n[l] in mem' && mem'[n[l]].nextfree == ItemAt(n, l + 1) {
      UnlinkedAt(mem, mem', list, k, l);
    }
    CutItems(list, k, 0);
  }

  /** The memory once the k-th entry has been unlinked. */
  ghost function Cut(mem: Memory, list: seq<int>, k: nat): Memory
    requires k < |list| && forall j :: 0 <= j < |list| ==> list[j] in mem
  {
    var m := if k == 0 then mem else
        mem[list[k - 1] := mem[list[k - 1]].(nextfree := mem[list[k]].nextfree)];
    m[list[k] := m[list[k]].(nextfree := 0)]
  }

  lemma CutUnlinks(mem: Memory, first: int, list: seq<int>, k: nat)
    requires Linked(mem, first, list) && NoRepeats(list) && k < |list|
    ensures Linked(Cut(mem, list, k), if k == 0 then ItemAt(list, 1) else first, Without(list, list[k]))
    ensures SameBlocks(mem, Cut(mem, list, k))
  {
    hide Without;
    Unlinked(mem, Cut(mem, list, k), first, list, k);
  }

  /** The words and headers in memory stand for the abstract heap. */
  ghost predicate Represents(start: int, end: int, curr: int, head: int, tail: int, first: int, mem: Memory, h: State)
  {
    && h.start == start && h.end == end && h.brk == curr && Valid(h)
    && Mirrors(mem, h.blocks) && Linked(mem, first, h.freelist)
    && head == AddrAt(h.blocks, 0) && tail == TailOf(h.blocks)
  }

  /** Two blocks have two addresses. */
  lemma OtherAddr(lo: int, blocks: seq<Block>, i: nat, k: nat)
    requires Tiles(lo, blocks) && i < |blocks| && k < |blocks| && i != k
    ensures blocks[i].addr != blocks[k].addr
  {
    IndexUnique(lo, blocks, i);
    IndexUnique(lo, blocks, k);
  }

  lemma WholeMirrors(lo: int, mem0: Memory, mem1: Memory, blocks: seq<Block>, i: nat)
    requires i < |blocks| && Mirrors(mem0, blocks) && Tiles(lo, blocks) && blocks[i].addr in mem0
    requires SameBlocks(mem0[blocks[i].addr := mem0[blocks[i].addr].(size := blocks[i].size)], mem1)
    ensures Mirrors(mem1, Replace(blocks, i, i + 1, [blocks[i].(free := false)]))
  {
    assert Mirror(mem0, blocks[i], AddrAt(blocks, i + 1));
    forall k | 0 <= k < |blocks| && k != i ensures Kept(mem0, mem1, blocks[k].addr) {
      assert Mirror(mem0, blocks[k], AddrAt(blocks, k + 1));
      OtherAddr(lo, blocks, i, k);
    }
    MirrorsReplace(mem0, mem1, blocks, i, i + 1, [blocks[i].(free := false)]);
  }

  lemma WholeRepresents(head: int, tail: int, first: int, mem: Memory, first': int, mem': Memory, h: State, i: nat,
                        rounded: int)
    requires Represents(h.start, h.end, h.brk, head, tail, first, mem, h) && i < |h.blocks| && h.blocks[i].free
    requires 0 <= rounded <= h.blocks[i].size && h.blocks[i].size - rounded < 8 + OVERHEAD
    requires h.blocks[i].addr in mem &&
      SameBlocks(mem[h.blocks[i].addr := mem[h.blocks[i].addr].(size := h.blocks[i].size)], mem')
    requires Linked(mem', first', Without(h.freelist, h.blocks[i].addr))
    ensures Represents(h.start, h.end, h.brk, head, tail, first', mem', Taken(h, i, rounded))
  {
    TakeWhole(h, i, rounded);
    WholeMirrors(h.start + 12, mem, mem', h.blocks, i);
    EndsReplace(h.blocks, i, i + 1, [h.blocks[i].(free := false)]);
    assert Taken(h, i, rounded).blocks == Replace(h.blocks, i, i + 1, [h.blocks[i].(free := false)]);
  }

  // The header of the used part and of the rest of a split block.
  function SplitHeaders(mem: Memory, block: int, size: int, rest: int, restSize: int, next: int): Memory
    requires block in mem
  {
    mem[block := mem[block].(size := size, next := rest)][rest := Header(restSize + 1, 0, next)]
  }

  lemma SplitSame(mem0: Memory, mem1: Memory, mem2: Memory, block: int, size: int, rest: int, restSize: int, next: int)
    requires block in mem0 && block != rest
    requires SameBlocks(mem0[block := mem0[block].(size := size)][rest := Header(restSize + 1, 0, next)], mem1)
    requires block in mem1 && SameBlocks(mem1[block := mem1[block].(next := rest)], mem2)
    ensures SameBlocks(SplitHeaders(mem0, block, size, rest, restSize, next), mem2)
  {
    var m := SplitHeaders(mem0, block, size, rest, restSize, next);
    var m0 := mem0[block := mem0[block].(size := size)][rest := Header(restSize + 1, 0, next)];
    forall x | x in m ensures x in mem2 && mem2[x].size == m[x].size && mem2[x].next == m[x].next {
      assert x in m0 && x in mem1;
    }
  }

  lemma SplitMirrors(lo: int, mem0: Memory, mem1: Memory, blocks: seq<Block>, i: nat, used: Block, rest: Block)
    requires i < |blocks| && Mirrors(mem0, blocks) && Tiles(lo, blocks) && blocks[i].addr in mem0
    requires used.addr == blocks[i].addr && !used.free && rest.free
    requires blocks[i].addr < rest.addr < blocks[i].addr + OVERHEAD + blocks[i].size
    requires SameBlocks(SplitHeaders(mem0, used.addr, used.size, rest.addr, rest.size, AddrAt(blocks, i + 1)), mem1)
    ensures Mirrors(mem1, Replace(blocks, i, i + 1, [used, rest]))
  {
    forall k | 0 <= k < |blocks| && k != i ensures Kept(mem0, mem1, blocks[k].addr) {
      assert Mirror(mem0, blocks[k], AddrAt(blocks, k + 1));
      OtherAddr(lo, blocks, i, k);
      if k < i { BlocksDisjoint(lo, blocks, k, i); TilesBounds(lo, blocks, k);
        } else { BlocksDisjoint(lo, blocks, i, k); }
    }
    var mid := [used, rest];
    assert Mirror(mem1, mid[0], NextIn(mid, 0, AddrAt(blocks, i + 1)));
    assert Mirror(mem1, mid[1], NextIn(mid, 1, AddrAt(blocks, i + 1)));
    MirrorsReplace(mem0, mem1, blocks, i, i + 1, mid);
  }

  lemma SplitRepresents(head: int, tail: int, tail': int, first: int, mem: Memory, first': int, mem': Memory,
                        h: State, i: nat,
                        rounded: int, rest: int, restSize: int)
    requires Represents(h.start, h.end, h.brk, head, tail, first, mem, h) && i < |h.blocks| && h.blocks[i].free
    requires 0 <= rounded && rounded % 4 == 0 && h.blocks[i].size - rounded >= 8 + OVERHEAD && h.blocks[i].addr in mem
    requires rest == h.blocks[i].addr + OVERHEAD + rounded && restSize == h.blocks[i].size - rounded - OVERHEAD
    requires SameBlocks(SplitHeaders(mem, h.blocks[i].addr, rounded, rest, restSize, AddrAt(h.blocks, i + 1)), mem')
    requires Linked(mem', first', [rest] + Without(h.freelist, h.blocks[i].addr))
    requires tail' == if tail == h.blocks[i].addr then rest else tail
    ensures Represents(h.start, h.end, h.brk, head, tail', first', mem', Taken(h, i, rounded))
  {
    var mid := [Block(h.blocks[i].addr, rounded, false), Block(rest, restSize, true)];
    TakeSplit(h, i, rounded);
    SplitMirrors(h.start + 12, mem, mem', h.blocks, i, mid[0], mid[1]);
    SplitEnds(h.start + 12, h.blocks, i, mid);
    SplitShape(h, i, rounded, rest, restSize);
  }

  lemma SplitShape(h: State, i: nat, rounded: int, rest: int, restSize: int)
    requires i < |h.blocks| && h.blocks[i].size - rounded >= 8 + OVERHEAD
    requires rest == h.blocks[i].addr + OVERHEAD + rounded && restSize == h.blocks[i].size - rounded - OVERHEAD
    ensures Taken(h, i, rounded) == h.(
      blocks := Replace(h.blocks, i, i + 1, [Block(h.blocks[i].addr, rounded, false), Block(rest, restSize, true)]),
      freelist := [rest] + Without(h.freelist, h.blocks[i].addr))
  {
  }

  lemma Mod4Sum(a: int, b: int, c: int)
    requires a % 4 == 0 && b % 4 == 0 && c % 4 == 0
    ensures (a + OVERHEAD + b) % 4 == 0 && (a + 2 * OVERHEAD + b + c) % 4 == 0
  {
  }

  lemma RestIsMultipleOf4(size: int, rounded: int)
    requires size % 4 == 0 && rounded % 4 == 0
    ensures (size - rounded - OVERHEAD) % 4 == 0
  {
  }

  lemma SplitEnds(lo: int, blocks: seq<Block>, i: nat, mid: seq<Block>)
    requires Tiles(lo, blocks) && i < |blocks| && |mid| == 2 && mid[0].addr == blocks[i].addr
    ensures AddrAt(Replace(blocks, i, i + 1, mid), 0) == AddrAt(blocks, 0)
    ensures TailOf(Replace(blocks, i, i + 1, mid)) ==
      if TailOf(blocks) == blocks[i].addr then mid[1].addr else TailOf(blocks)
  {
    EndsReplace(blocks, i, i + 1, mid);
    if i + 1 < |blocks| { OtherAddr(lo, blocks, i, |blocks| - 1); }
  }

  lemma ExtendRepresents(head: int, tail: int, head': int, first: int, mem: Memory, mem': Memory, h: State, brk: int,
                         size: int)
    requires Represents(h.start, h.end, h.brk, head, tail, first, mem, h)
    requires 0 <= size && size % 4 == 0 && brk == h.brk + OVERHEAD + size <= h.end
    requires head' == if head == 0 then h.brk else head
    requires h.brk in mem' && mem'[h.brk] == Header(size, 0, 0)
    requires forall x :: x in mem && x != h.brk && x != tail ==> x in mem' && mem'[x] == mem[x]
    requires tail != 0 && tail in mem ==> tail in mem' && mem'[tail] == mem[tail].(next := h.brk)
    ensures Represents(h.start, h.end, brk, head', h.brk, first, mem',
      h.(brk := brk, blocks := h.blocks + [Block(h.brk, size, false)]))
  {
    ExtendKeepsValid(h, brk, size);
    ListOf(h);
    ExtendMirrors(h, tail, mem, mem', size);
    forall k | 0 <= k < |h.freelist|
      ensures h.freelist[k] in mem' && mem'[h.freelist[k]].nextfree == mem[h.freelist[k]].nextfree
    {
      assert h.freelist[k] in h.freelist;
    }
    LinkedKept(mem, mem', first, h.freelist);
    if h.blocks != [] { TilesBounds(h.start + 12, h.blocks, 0); }
  }

  lemma ExtendMirrors(h: State, tail: int, mem: Memory, mem': Memory, size: int)
    requires Valid(h) && Mirrors(mem, h.blocks) && tail == TailOf(h.blocks)
    requires h.brk in mem' && mem'[h.brk] == Header(size, 0, 0)
    requires forall x :: x in mem && x != h.brk && x != tail ==> x in mem' && mem'[x] == mem[x]
    requires tail != 0 && tail in mem ==> tail in mem' && mem'[tail] == mem[tail].(next := h.brk)
    ensures Mirrors(mem', h.blocks + [Block(h.brk, size, false)])
  {
    var n := h.blocks + [Block(h.brk, size, false)];
    forall k | 0 <= k < |n| ensures Mirror(mem', n[k], AddrAt(n, k + 1)) {
      if k < |h.blocks| {
        assert Mirror(mem, h.blocks[k], AddrAt(h.blocks, k + 1));
        TilesBounds(h.start + 12, h.blocks, k);
        if k < |h.blocks| - 1 { OtherAddr(h.start + 12, h.blocks, k, |h.blocks| - 1); }
      }
    }
  }

  lemma SameTrans(a: Memory, b: Memory, c: Memory)
    requires SameBlocks(a, b) && SameBlocks(b, c)
    ensures SameBlocks(a, c)
  {
  }

  function FreedHeader(mem: Memory, block: int, size: int, next: int): Memory
    requires block in mem
  {
    mem[block := mem[block].(size := size + 1, next := next)]
  }

  lemma MergedMirrors(lo: int, mem0: Memory, mem1: Memory, blocks: seq<Block>, i: nat, j: nat, merged: Block)
    requires i < j <= |blocks| && Mirrors(mem0, blocks) && Tiles(lo, blocks)
    requires merged.addr == blocks[i].addr && merged.free && merged.addr in mem0
    requires SameBlocks(FreedHeader(mem0, merged.addr, merged.size, AddrAt(blocks, j)), mem1)
    ensures Mirrors(mem1, Replace(blocks, i, j, [merged]))
  {
    forall k | 0 <= k < |blocks| && !(i <= k < j) ensures Kept(mem0, mem1, blocks[k].addr) {
      assert Mirror(mem0, blocks[k], AddrAt(blocks, k + 1));
      OtherAddr(lo, blocks, i, k);
    }
    assert Mirror(mem1, [merged][0], NextIn([merged], 0, AddrAt(blocks, j)));
    MirrorsReplace(mem0, mem1, blocks, i, j, [merged]);
  }

  lemma MergedEnds(lo: int, blocks: seq<Block>, i: nat, j: nat, merged: Block)
    requires Tiles(lo, blocks) && i < j <= |blocks| && merged.addr == blocks[i].addr
    ensures AddrAt(Replace(blocks, i, j, [merged]), 0) == AddrAt(blocks, 0)
    ensures TailOf(Replace(blocks, i, j, [merged])) ==
      if TailOf(blocks) == blocks[j - 1].addr then merged.addr else TailOf(blocks)
  {
    EndsReplace(blocks, i, j, [merged]);
    if j < |blocks| { OtherAddr(lo, blocks, j - 1, |blocks| - 1); }
  }

  /** Blocks i..j turned into one free block, in memory and in the abstract heap. */
  lemma MergedRepresents(head: int, tail: int, first: int, mem: Memory, first': int, mem': Memory, h: State, h': State,
                         i: nat, j: nat, merged: Block)
    requires Represents(h.start, h.end, h.brk, head, tail, first, mem, h) && i < j <= |h.blocks|
    requires merged.addr == h.blocks[i].addr && merged.free && merged.addr in mem
    requires Valid(h') && h'.start == h.start && h'.end == h.end && h'.brk == h.brk
    requires h'.blocks == Replace(h.blocks, i, j, [merged])
    requires SameBlocks(FreedHeader(mem, merged.addr, merged.size, AddrAt(h.blocks, j)), mem')
    requires Linked(mem', first', h'.freelist)
    ensures Represents(h.start, h.end, h.brk, head, if tail == h.blocks[j - 1].addr then merged.addr else tail,
      first', mem', h')
  {
    MergedMirrors(h.start + 12, mem, mem', h.blocks, i, j, merged);
    MergedEnds(h.start + 12, h.blocks, i, j, merged);
  }

  // The four shapes a heap takes when a block is freed.

  lemma ShapeAlone(h: State, p: int)
    requires Live(h, p)
    requires var i := IndexOf(h.blocks, p - OVERHEAD);
      (i > 0 ==> !h.blocks[i - 1].free) && (i + 1 < |h.blocks| ==> !h.blocks[i + 1].free)
    ensures var i := IndexOf(h.blocks, p - OVERHEAD);
      Free(h, p) == h.(blocks := Replace(h.blocks, i, i + 1, [h.blocks[i].(free := true)]),
        freelist := [p - OVERHEAD] + h.freelist)
  {
  }

  lemma ShapeLeft(h: State, p: int)
    requires Live(h, p)
    requires var i := IndexOf(h.blocks, p - OVERHEAD);
      i > 0 && h.blocks[i - 1].free && (i + 1 < |h.blocks| ==> !h.blocks[i + 1].free)
    ensures var i := IndexOf(h.blocks, p - OVERHEAD); var l, b := h.blocks[i - 1], h.blocks[i];
      Free(h, p) == h.(blocks := Replace(h.blocks, i - 1, i + 1, [Block(l.addr, l.size + OVERHEAD + b.size, true)]))
  {
  }

  lemma ShapeRight(h: State, p: int)
    requires Live(h, p)
    requires var i := IndexOf(h.blocks, p - OVERHEAD);
      (i > 0 ==> !h.blocks[i - 1].free) && i + 1 < |h.blocks| && h.blocks[i + 1].free
    ensures var i := IndexOf(h.blocks, p - OVERHEAD); var b, r := h.blocks[i], h.blocks[i + 1];
      Free(h, p) == h.(blocks := Replace(h.blocks, i, i + 2, [Block(b.addr, b.size + OVERHEAD + r.size, true)]),
                       freelist := [b.addr] + Without(h.freelist, r.addr))
  {
  }

  lemma ShapeBoth(h: State, p: int)
    requires Live(h, p)
    requires var i := IndexOf(h.blocks, p - OVERHEAD);
      i > 0 && h.blocks[i - 1].free && i + 1 < |h.blocks| && h.blocks[i + 1].free
    ensures var i := IndexOf(h.blocks, p - OVERHEAD); var l, b, r := h.blocks[i - 1], h.blocks[i], h.blocks[i + 1];
      Free(h, p) == h.(blocks := Replace(h.blocks, i - 1, i + 2,
        [Block(l.addr, l.size + 2 * OVERHEAD + b.size + r.size, true)]),
                       freelist := Without(h.freelist, r.addr))
  {
  }

  lemma AloneRepresents(head: int, tail: int, first: int, mem: Memory, first': int, mem': Memory, h: State, i: nat,
                        size: int)
    requires Represents(h.start, h.end, h.brk, head, tail, first, mem, h)
    requires FreeableAt(h, i) && PrevBusy(h, i) && NextBusy(h, i) && size == h.blocks[i].size
    requires h.blocks[i].addr in mem && SameBlocks(FreedHeader(mem, h.blocks[i].addr, size, AddrAt(h.blocks, i + 1)),
      mem')
    requires Linked(mem', first', [h.blocks[i].addr] + h.freelist)
    ensures Live(h, h.blocks[i].addr + OVERHEAD)
    ensures Represents(h.start, h.end, h.brk, head, tail, first', mem', Free(h, h.blocks[i].addr + OVERHEAD))
  {
    hide EndOf; hide Mirrors; hide Linked; hide NoFreeNeighbours; hide ListsFree;
    IndexUnique(h.start + 12, h.blocks, i);
    ShapeAlone(h, h.blocks[i].addr + OVERHEAD);
    FreeKeepsValid(h, h.blocks[i].addr + OVERHEAD);
    MergedRepresents(head, tail, first, mem, first', mem', h, Free(h, h.blocks[i].addr + OVERHEAD), i, i + 1,
                     h.blocks[i].(free := true));
  }

  lemma LeftRepresents(head: int, tail: int, first: int, mem: Memory, first': int, mem': Memory, h: State, i: nat,
                       size: int)
    requires Represents(h.start, h.end, h.brk, head, tail, first, mem, h)
    requires FreeableAt(h, i) && !PrevBusy(h, i) && NextBusy(h, i)
    requires size == h.blocks[i - 1].size + OVERHEAD + h.blocks[i].size
    requires h.blocks[i - 1].addr in mem && SameBlocks(FreedHeader(mem, h.blocks[i - 1].addr, size,
      AddrAt(h.blocks, i + 1)), mem')
    requires Linked(mem', first', h.freelist)
    ensures Live(h, h.blocks[i].addr + OVERHEAD)
    ensures Represents(h.start, h.end, h.brk, head, if tail == h.blocks[i].addr then h.blocks[i - 1].addr else tail,
                       first', mem', Free(h, h.blocks[i].addr + OVERHEAD))
  {
    hide EndOf; hide Mirrors; hide Linked; hide NoFreeNeighbours; hide ListsFree;
    IndexUnique(h.start + 12, h.blocks, i);
    ShapeLeft(h, h.blocks[i].addr + OVERHEAD);
    FreeKeepsValid(h, h.blocks[i].addr + OVERHEAD);
    MergedRepresents(head, tail, first, mem, first', mem', h, Free(h, h.blocks[i].addr + OVERHEAD), i - 1, i + 1,
                     Block(h.blocks[i - 1].addr, size, true));
  }

  lemma RightRepresents(head: int, tail: int, first: int, mem: Memory, first': int, mem': Memory, h: State, i: nat,
                        size: int)
    requires Represents(h.start, h.end, h.brk, head, tail, first, mem, h)
    requires FreeableAt(h, i) && PrevBusy(h, i) && !NextBusy(h, i)
    requires size == h.blocks[i].size + OVERHEAD + h.blocks[i + 1].size
    requires h.blocks[i].addr in mem && SameBlocks(FreedHeader(mem, h.blocks[i].addr, size, AddrAt(h.blocks, i + 2)),
      mem')
    requires Linked(mem', first', [h.blocks[i].addr] + Without(h.freelist, h.blocks[i + 1].addr))
    ensures Live(h, h.blocks[i].addr + OVERHEAD)
    ensures Represents(h.start, h.end, h.brk, head, if tail == h.blocks[i + 1].addr then h.blocks[i].addr else tail,
                       first', mem', Free(h, h.blocks[i].addr + OVERHEAD))
  {
    hide EndOf; hide Mirrors; hide Linked; hide NoFreeNeighbours; hide ListsFree; hide Tiles;
    IndexUnique(h.start + 12, h.blocks, i);
    ShapeRight(h, h.blocks[i].addr + OVERHEAD);
    FreeKeepsValid(h, h.blocks[i].addr + OVERHEAD);
    MergedRepresents(head, tail, first, mem, first', mem', h, Free(h, h.blocks[i].addr + OVERHEAD), i, i + 2,
                     Block(h.blocks[i].addr, size, true));
  }

  lemma BothRepresents(head: int, tail: int, first: int, mem: Memory, first': int, mem': Memory, h: State, i: nat,
                       size: int)
    requires Represents(h.start, h.end, h.brk, head, tail, first, mem, h)
    requires FreeableAt(h, i) && !PrevBusy(h, i) && !NextBusy(h, i)
    requires size == h.blocks[i - 1].size + 2 * OVERHEAD + h.blocks[i].size + h.blocks[i + 1].size
    requires h.blocks[i - 1].addr in mem && SameBlocks(FreedHeader(mem, h.blocks[i - 1].addr, size,
      AddrAt(h.blocks, i + 2)), mem')
    requires Linked(mem', first', Without(h.freelist, h.blocks[i + 1].addr))
    ensures Live(h, h.blocks[i].addr + OVERHEAD)
    ensures Represents(h.start, h.end, h.brk, head, if tail == h.blocks[i + 1].addr then h.blocks[i - 1].addr else tail,
                       first', mem', Free(h, h.blocks[i].addr + OVERHEAD))
  {
    hide EndOf; hide Mirrors; hide Linked; hide NoFreeNeighbours; hide ListsFree;
    IndexUnique(h.start + 12, h.blocks, i);
    ShapeBoth(h, h.blocks[i].addr + OVERHEAD);
    FreeKeepsValid(h, h.blocks[i].addr + OVERHEAD);
    MergedRepresents(head, tail, first, mem, first', mem', h, Free(h, h.blocks[i].addr + OVERHEAD), i - 1, i + 2,
                     Block(h.blocks[i - 1].addr, size, true));
  }

  predicate FreeableAt(h: State, i: nat)
  {
    i < |h.blocks| && !h.blocks[i].free
  }

  predicate PrevBusy(h: State, i: nat)
    requires i < |h.blocks|
  {
    i > 0 ==> !h.blocks[i - 1].free
  }

  predicate NextBusy(h: State, i: nat)
    requires i < |h.blocks|
  {
    i + 1 < |h.blocks| ==> !h.blocks[i + 1].free
  }

  class Kernel {
    const vmStart: int
    const vmEnd: int
    var curr: int
    var head: int
    var tail: int
    var freelist: int
    var mem: Memory
    ghost var abs: State

    ghost predicate Repr()
      reads this
    {
      Represents(vmStart, vmEnd, curr, head, tail, freelist, mem, abs)
    }

    /** kheap_init on pages that were allocated from `start` to `end`. */
    constructor (start: int, end: int)
      requires 0 < start && start + 12 <= end < WORD
      ensures Repr() && abs == Init(start, end)
    {
      vmStart, vmEnd := start, end;
      head, tail, freelist, mem := 0, 0, 0, map[];
      curr := start + 12;
      abs := Init(start, end);
      new;
      InitInv(start, end);
    }

    /** blkmngr_find_best_fitting */
    method FindBestFitting(wanted: int) returns (best: int)
      requires Repr() && 0 <= wanted && wanted % 4 == 0
      ensures best == OrNull(BestFit(abs.blocks, abs.freelist, wanted))
    {
      best := 0;
      var current := freelist;
      ghost var k := 0;
      assert abs.freelist[..0] == [];
      while current != 0
        invariant 0 <= k <= |abs.freelist| && current == ItemAt(abs.freelist, k)
        invariant best == OrNull(BestFit(abs.blocks, abs.freelist[..k], wanted))
        decreases |abs.freelist| - k
      {
        BestFitStep(k, wanted);
        if Better(mem, current, best, wanted) {
          best := current;
        }
        current := mem[current].nextfree;
        k := k + 1;
      }
      if k < |abs.freelist| { ListedHeader(abs.freelist[k]); }
      assert abs.freelist[..k] == abs.freelist;
    }

    /** One entry further down the free list. */
    lemma BestFitStep(k: nat, wanted: int)
      requires Repr() && k < |abs.freelist| && wanted % 4 == 0
      ensures var x, best := abs.freelist[k], OrNull(BestFit(abs.blocks, abs.freelist[..k], wanted));
        && x in mem && (best != 0 ==> best in mem)
        && OrNull(BestFit(abs.blocks, abs.freelist[..k + 1], wanted)) ==
          if Better(mem, x, best, wanted) then x else best
    {
      var x, r := abs.freelist[k], BestFit(abs.blocks, abs.freelist[..k], wanted);
      ListedHeader(x);
      if r.Some? {
        assert r.value in abs.freelist;
        ListedHeader(r.value);
      }
      BestFitSnoc(abs.blocks, abs.freelist, k, wanted, mem);
    }

    /** What memory says about a block on the free list. */
    lemma ListedHeader(x: int)
      requires Repr() && x in abs.freelist
      ensures FreeHeader(mem, abs.blocks, x)
    {
      ListedIsFree(abs, x);
      var i := IndexOf(abs.blocks, x);
      TilesBounds(vmStart + 12, abs.blocks, i);
      assert Mirror(mem, abs.blocks[i], AddrAt(abs.blocks, i + 1));
      FreeBit(abs.blocks[i].size, true);
    }

    /** blkmngr_remove_from_freelist */
    method RemoveFromFreelist(block: int, ghost list: seq<int>)
      requires Linked(mem, freelist, list) && NoRepeats(list) && block in list && 0 !in list
      modifies this`mem, this`freelist
      ensures Linked(mem, freelist, Without(list, block))
      ensures SameBlocks(old(mem), mem)
    {
      hide Without; hide SameBlocks;
      ghost var k :| 0 <= k < |list| && list[k] == block;
      CutUnlinks(mem, freelist, list, k);
      if block == freelist {
        freelist := mem[block].nextfree;
      } else {
        var prev := freelist;
        ghost var l := 0;
        while prev != 0 && mem[prev].nextfree != block
          invariant 0 <= l < k && prev == list[l]
          decreases k - l
        {
          assert list[l + 1] != block;
          prev := mem[prev].nextfree;
          l := l + 1;
        }
        if prev != 0 {
          assert l + 1 == k;
          mem := mem[prev := mem[prev].(nextfree := mem[block].nextfree)];
        }
      }
      mem := mem[block := mem[block].(nextfree := 0)];
      assert mem == Cut(old(mem), list, k);
    }

    /** blkmngr_add_to_freelist */
    method AddToFreelist(block: int, ghost list: seq<int>)
      requires Linked(mem, freelist, list) && block in mem && block !in list
      modifies this`mem, this`freelist
      ensures Linked(mem, freelist, [block] + list)
      ensures SameBlocks(old(mem), mem)
    {
      mem := mem[block := mem[block].(nextfree := freelist)];
      freelist := block;
    }

    /** blkmngr_get_next_block */
    method GetNextBlock(block: int) returns (next: int)
      requires Repr() && Present(abs.blocks, block)
      ensures next == AddrAt(abs.blocks, IndexOf(abs.blocks, block) + 1)
    {
      ghost var i := IndexOf(abs.blocks, block);
      assert Mirror(mem, abs.blocks[i], AddrAt(abs.blocks, i + 1));
      IndexUnique(vmStart + 12, abs.blocks, |abs.blocks| - 1);
      if block == tail { return 0; }
      return mem[block].next;
    }

    /** blkmngr_get_previous_block */
    method GetPreviousBlock(block: int) returns (prev: int)
      requires Repr() && Present(abs.blocks, block)
      ensures var i := IndexOf(abs.blocks, block); prev == if i == 0 then 0 else abs.blocks[i - 1].addr
    {
      ghost var i := IndexOf(abs.blocks, block);
      if block == head { return 0; }
      prev := head;
      ghost var k := 0;
      assert Mirror(mem, abs.blocks[0], AddrAt(abs.blocks, 1));
      while mem[prev].next != block
        invariant 0 <= k < i && prev == abs.blocks[k].addr && prev in mem && mem[prev].next == AddrAt(abs.blocks, k + 1)
        decreases i - k
      {
        prev := mem[prev].next;
        k := k + 1;
        assert Mirror(mem, abs.blocks[k], AddrAt(abs.blocks, k + 1));
      }
    }

    /** Clear the free bit, store the size and take the block off the free list. */
    method MarkAllocated(block: int, size: int, ghost list: seq<int>)
      requires Linked(mem, freelist, list) && NoRepeats(list) && block in list && 0 !in list && block in mem &&
        size % 4 == 0
      modifies this`mem, this`freelist
      ensures Linked(mem, freelist, Without(list, block))
      ensures SameBlocks(old(mem)[block := old(mem)[block].(size := size)], mem)
    {
      FreeBit(size, false);
      mem := mem[block := mem[block].(size := WithFreeBit(size, false))];
      LinkedKept(old(mem), mem, freelist, list);
      RemoveFromFreelist(block, list);
    }

    /** A free block taken without splitting it. */
    method TakeWholeBlock(best: int, ghost rounded: int)
      requires Repr() && best in abs.freelist && FitsIn(abs.blocks, best, rounded) && 0 <= rounded
      requires SizeAt(abs.blocks, best) - rounded < 8 + OVERHEAD
      modifies this
      ensures Repr() && abs == Taken(old(abs), IndexOf(old(abs.blocks), best), rounded)
    {
      hide Tiles; hide EndOf; hide Mirrors; hide Linked; hide NoFreeNeighbours; hide ListsFree; hide Taken;
      ghost var i := IndexOf(abs.blocks, best);
      ghost var mem0, first0 := mem, freelist;
      var size := BestSize(best);
      ListOf(abs);
      ListedIsFree(abs, best);
      MarkAllocated(best, size, abs.freelist);
      WholeRepresents(head, tail, first0, mem0, freelist, mem, abs, i, rounded);
      abs := Taken(abs, i, rounded);
    }

    /** get_real_size of the header of a listed block. */
    method BestSize(best: int) returns (size: int)
      requires Repr() && best in abs.freelist
      ensures Present(abs.blocks, best) && size == SizeAt(abs.blocks, best) && size % 4 == 0 && best in mem
    {
      ListedHeader(best);
      FreeBit(SizeAt(abs.blocks, best), true);
      size := RealSize(mem[best].size);
    }

    /** The headers and links of a block split in two. */
    method SplitOff(best: int, size: int, rest: int, restSize: int, next: int, ghost list: seq<int>)
      requires Linked(mem, freelist, list) && NoRepeats(list) && best in list && 0 !in list && best in mem
      requires rest !in list && rest != 0 && size % 4 == 0 && restSize % 4 == 0
      modifies this`mem, this`freelist
      ensures Linked(mem, freelist, [rest] + Without(list, best))
      ensures SameBlocks(SplitHeaders(old(mem), best, size, rest, restSize, next), mem)
    {
      FreeBit(size, false);
      FreeBit(restSize, true);
      mem := mem[best := mem[best].(size := WithFreeBit(size, false))];
      mem := mem[rest := Header(WithFreeBit(restSize, true), 0, next)];
      LinkedKept(old(mem), mem, freelist, list);
      AddToFreelist(rest, list);
      ghost var added := mem;
      mem := mem[best := mem[best].(next := rest)];
      LinkedKept(added, mem, freelist, [rest] + list);
      RemoveFromFreelist(best, [rest] + list);
      assert ([rest] + list)[1..] == list;
      SplitSame(old(mem), added, mem, best, size, rest, restSize, next);
    }

    /** Where the rest of a split block goes. The right neighbour of a free block
        is never free, so the source's other branch, which would merge the rest
        with it, is dead. */
    method PlanSplit(best: int, rounded: int) returns (next: int, rest: int, restSize: int)
      requires Repr() && best in abs.freelist && FitsIn(abs.blocks, best, rounded) && 0 <= rounded && rounded % 4 == 0
      requires SizeAt(abs.blocks, best) - rounded >= 8 + OVERHEAD
      ensures next == AddrAt(abs.blocks, IndexOf(abs.blocks, best) + 1)
      ensures rest == best + OVERHEAD + rounded && rest !in abs.freelist && rest != 0
      ensures restSize == SizeAt(abs.blocks, best) - rounded - OVERHEAD && restSize % 4 == 0
      ensures best in mem && abs.blocks[IndexOf(abs.blocks, best)].free
    {
      hide Tiles; hide EndOf; hide Mirrors; hide Linked; hide NoFreeNeighbours; hide ListsFree;
      ghost var i := IndexOf(abs.blocks, best);
      ListedIsFree(abs, best);
      var size := BestSize(best);
      next := GetNextBlock(best);
      NextNotFree(i);
      if IsFree(mem, next) { assert false; }
      rest, restSize := best + OVERHEAD + rounded, size - rounded - OVERHEAD;
      RestIsMultipleOf4(size, rounded);
      RestUnlisted(i, rest);
    }

    /** A free block split: the first part taken, the rest freed. */
    method TakeSplitBlock(best: int, rounded: int)
      requires Repr() && best in abs.freelist && FitsIn(abs.blocks, best, rounded) && 0 <= rounded && rounded % 4 == 0
      requires SizeAt(abs.blocks, best) - rounded >= 8 + OVERHEAD
      modifies this
      ensures Repr() && abs == Taken(old(abs), IndexOf(old(abs.blocks), best), rounded)
    {
      hide Tiles; hide EndOf; hide Mirrors; hide Linked; hide NoFreeNeighbours; hide ListsFree; hide Taken;
      ghost var i := IndexOf(abs.blocks, best);
      ghost var mem0, first0, tail0 := mem, freelist, tail;
      var next, rest, restSize := PlanSplit(best, rounded);
      ListOf(abs);
      SplitOff(best, rounded, rest, restSize, next, abs.freelist);
      if best == tail { tail := rest; }
      SplitRepresents(head, tail0, tail, first0, mem0, freelist, mem, abs, i, rounded, rest, restSize);
      abs := Taken(abs, i, rounded);
    }

    lemma NextNotFree(i: nat)
      requires Repr() && i < |abs.blocks| && abs.blocks[i].free
      ensures !IsFree(mem, AddrAt(abs.blocks, i + 1))
    {
      if i + 1 < |abs.blocks| {
        assert Mirror(mem, abs.blocks[i + 1], AddrAt(abs.blocks, i + 2));
        TilesBounds(vmStart + 12, abs.blocks, i + 1);
        FreeBit(abs.blocks[i + 1].size, false);
      }
    }

    lemma RestUnlisted(i: nat, rest: int)
      requires Repr() && i < |abs.blocks| &&
        abs.blocks[i].addr < rest < abs.blocks[i].addr + OVERHEAD + abs.blocks[i].size
      ensures rest !in abs.freelist && rest != 0
    {
      InsideIsUnlisted(vmStart + 12, abs.blocks, i, rest);
      TilesBounds(vmStart + 12, abs.blocks, i);
    }

    /** ksbrk for a block of this payload; NULL when the break cannot move. */
    method ExtendHeap(size: int) returns (block: int)
      requires Repr() && 0 <= size <= WORD - 16 && size % 16 == 0
      requires size + OVERHEAD < WORD / 2 ==> curr + size + OVERHEAD < WORD
      modifies this
      ensures Repr()
      ensures block == 0 <==> size + OVERHEAD >= WORD / 2 || old(curr) + size + OVERHEAD > vmEnd
      ensures var r := Brk(old(curr), vmEnd, size + OVERHEAD);
        if r.None? then block == 0 && abs == old(abs)
        else block == old(curr) != 0 && abs == old(abs).(brk := r.value,
          blocks := old(abs.blocks) + [Block(old(curr), size, false)])
    {
      hide Tiles; hide EndOf; hide Mirrors; hide Linked; hide NoFreeNeighbours; hide ListsFree; hide Brk;
      EndAfter(vmStart + 12, abs.blocks);
      HeadMeansTail();
      var r := Brk(curr, vmEnd, size + OVERHEAD);
      BreakFails(abs, size);
      if r.None? { return 0; }
      BreakMoves(abs, size);
      block := curr;
      curr := r.value;
      ghost var mem0, head0, tail0 := mem, head, tail;
      if head == 0 {
        head := block;
      } else {
        TailHeader();
        mem := mem[tail := mem[tail].(next := block)];
      }
      mem := mem[block := Header(size, 0, 0)];
      tail := block;
      ExtendRepresents(head0, tail0, head, freelist, mem0, mem, abs, curr, size);
      abs := abs.(brk := curr, blocks := abs.blocks + [Block(block, size, false)]);
    }

    lemma HeadMeansTail()
      requires Repr()
      ensures head == 0 ==> tail == 0
    {
      if abs.blocks != [] { TilesBounds(vmStart + 12, abs.blocks, 0); }
    }

    lemma TailHeader()
      requires Mirrors(mem, abs.blocks) && Tiles(vmStart + 12, abs.blocks) && tail == TailOf(abs.blocks)
      requires head == AddrAt(abs.blocks, 0) && head != 0 && EndOf(vmStart + 12, abs.blocks) == abs.brk
      ensures tail in mem && tail < abs.brk
    {
      assert Mirror(mem, abs.blocks[|abs.blocks| - 1], 0);
      TilesBounds(vmStart + 12, abs.blocks, |abs.blocks| - 1);
    }

    /** __do_malloc */
    method Malloc(size: int) returns (out: Outcome)
      requires Repr() && 0 <= size < WORD && !WrapsAround(abs, size)
      modifies this
      ensures Repr() && (abs, out) == Heap.Malloc(old(abs), size)
    {
      hide Tiles; hide EndOf; hide Mirrors; hide Linked; hide NoFreeNeighbours; hide ListsFree; hide Taken;
      hide BestFit;
      if size == 0 { return Null; }
      var rounded := Rounded(size);
      var best := FindBestFitting(rounded);
      ghost var r := BestFit(abs.blocks, abs.freelist, rounded);
      if r.Some? { ListedHeader(r.value); }
      if best != 0 {
        var chunk := BestSize(best);
        var remaining := chunk - rounded;
        if remaining < 8 + OVERHEAD {
          TakeWholeBlock(best, rounded);
        } else {
          TakeSplitBlock(best, rounded);
        }
        return Pointer(best + OVERHEAD);
      }
      var block := ExtendHeap(rounded);
      if block == 0 { return OutOfSpace; }
      return Pointer(block + OVERHEAD);
    }

    /** What memory says about block i. */
    lemma HeaderOf(i: nat)
      requires Repr() && i < |abs.blocks|
      ensures abs.blocks[i].addr in mem && abs.blocks[i].addr > 0
      ensures RealSize(mem[abs.blocks[i].addr].size) == abs.blocks[i].size
      ensures IsFree(mem, abs.blocks[i].addr) <==> abs.blocks[i].free
      ensures IndexOf(abs.blocks, abs.blocks[i].addr) == i
    {
      assert Mirror(mem, abs.blocks[i], AddrAt(abs.blocks, i + 1));
      TilesBounds(vmStart + 12, abs.blocks, i);
      FreeBit(abs.blocks[i].size, abs.blocks[i].free);
      IndexUnique(vmStart + 12, abs.blocks, i);
    }

    /** get_real_size of the header of a block. */
    method ReadSize(block: int, ghost i: nat) returns (size: int)
      requires Repr() && i < |abs.blocks| && block == abs.blocks[i].addr
      ensures size == abs.blocks[i].size && block in mem
    {
      HeaderOf(i);
      size := RealSize(mem[block].size);
    }

    lemma SumOfTwo(i: nat)
      requires Repr() && i + 1 < |abs.blocks|
      ensures (abs.blocks[i].size + OVERHEAD + abs.blocks[i + 1].size) % 4 == 0
    {
      TilesBounds(vmStart + 12, abs.blocks, i);
      TilesBounds(vmStart + 12, abs.blocks, i + 1);
      Mod4Sum(abs.blocks[i].size, abs.blocks[i + 1].size, 0);
    }

    lemma SumOfThree(i: nat)
      requires Repr() && 0 < i < |abs.blocks| - 1
      ensures (abs.blocks[i - 1].size + 2 * OVERHEAD + abs.blocks[i].size + abs.blocks[i + 1].size) % 4 == 0
    {
      TilesBounds(vmStart + 12, abs.blocks, i - 1);
      TilesBounds(vmStart + 12, abs.blocks, i);
      TilesBounds(vmStart + 12, abs.blocks, i + 1);
      Mod4Sum(abs.blocks[i - 1].size, abs.blocks[i].size, abs.blocks[i + 1].size);
    }

    /** Store size with the free bit set, and the next link. */
    method StoreFree(block: int, size: int, next: int, ghost list: seq<int>)
      requires Linked(mem, freelist, list) && block in mem && size % 4 == 0
      modifies this`mem
      ensures mem == FreedHeader(old(mem), block, size, next) && Linked(mem, freelist, list)
    {
      FreeBit(size, true);
      mem := mem[block := mem[block].(size := WithFreeBit(size, true), next := next)];
      LinkedKept(old(mem), mem, freelist, list);
    }

    /** Neither neighbour is free: the block is marked and listed. */
    method FreeOnly(block: int, ghost i: nat)
      requires Repr() && FreeableAt(abs, i) && PrevBusy(abs, i) && NextBusy(abs, i) && block == abs.blocks[i].addr
      modifies this
      ensures Live(old(abs), block + OVERHEAD) && Repr() && abs == Heap.Free(old(abs), block + OVERHEAD)
    {
      hide Heap.Free; hide Tiles; hide EndOf; hide Mirrors; hide Linked; hide NoFreeNeighbours; hide ListsFree;
      ghost var mem0, first0 := mem, freelist;
      var size := ReadSize(block, i);
      var next := GetNextOf(block, i);
      NotListed(i);
      SizeMod4(i);
      StoreAndList(block, size, next, abs.freelist);
      AloneRepresents(head, tail, first0, mem0, freelist, mem, abs, i, size);
      abs := Heap.Free(abs, block + OVERHEAD);
    }

    lemma SizeMod4(i: nat)
      requires Repr() && i < |abs.blocks|
      ensures abs.blocks[i].size % 4 == 0
    {
      TilesBounds(vmStart + 12, abs.blocks, i);
    }

    method GetNextOf(block: int, ghost i: nat) returns (next: int)
      requires Repr() && i < |abs.blocks| && block == abs.blocks[i].addr
      ensures next == AddrAt(abs.blocks, i + 1)
    {
      HeaderOf(i);
      next := GetNextBlock(block);
    }

    method StoreAndList(block: int, size: int, next: int, ghost list: seq<int>)
      requires Linked(mem, freelist, list) && block in mem && size % 4 == 0 && block !in list
      modifies this`mem, this`freelist
      ensures SameBlocks(FreedHeader(old(mem), block, size, next), mem) && Linked(mem, freelist, [block] + list)
    {
      StoreFree(block, size, next, list);
      AddToFreelist(block, list);
    }

    lemma NotListed(i: nat)
      requires Repr() && i < |abs.blocks| && !abs.blocks[i].free
      ensures abs.blocks[i].addr !in abs.freelist
    {
      AllocatedIsUnlisted(vmStart + 12, abs.blocks, i);
    }

    lemma Listed(i: nat)
      requires Repr() && i < |abs.blocks| && abs.blocks[i].free
      ensures abs.blocks[i].addr in abs.freelist && NoRepeats(abs.freelist) && 0 !in abs.freelist
    {
      assert abs.blocks[i].addr in FreeAddrs(abs.blocks);
      ListOf(abs);
    }

    /** The left neighbour is free and takes the block in. */
    method FreeIntoPrevious(prev: int, block: int, next: int, ghost i: nat)
      requires Repr() && FreeableAt(abs, i) && !PrevBusy(abs, i) && NextBusy(abs, i)
      requires prev == abs.blocks[i - 1].addr && block == abs.blocks[i].addr && next == AddrAt(abs.blocks, i + 1)
      modifies this
      ensures Live(old(abs), block + OVERHEAD) && Repr() && abs == Heap.Free(old(abs), block + OVERHEAD)
    {
      hide Heap.Free; hide Tiles; hide EndOf; hide Mirrors; hide Linked; hide NoFreeNeighbours; hide ListsFree;
      ghost var mem0, tail0 := mem, tail;
      var sp := ReadSize(prev, i - 1);
      var sb := ReadSize(block, i);
      var size := sp + OVERHEAD + sb;
      SumOfTwo(i - 1);
      StoreFree(prev, size, next, abs.freelist);
      if tail == block { tail := prev; }
      LeftRepresents(head, tail0, freelist, mem0, freelist, mem, abs, i, size);
      abs := Heap.Free(abs, block + OVERHEAD);
    }

    /** Store a merged block and take the block it swallowed off the list. */
    method StoreAndUnlist(block: int, size: int, next: int, gone: int, ghost list: seq<int>)
      requires Linked(mem, freelist, list) && NoRepeats(list) && gone in list && 0 !in list && block in mem &&
        size % 4 == 0
      modifies this`mem, this`freelist
      ensures SameBlocks(FreedHeader(old(mem), block, size, next), mem) && Linked(mem, freelist, Without(list, gone))
    {
      StoreFree(block, size, next, list);
      RemoveFromFreelist(gone, list);
    }

    method StoreAndSwap(block: int, size: int, next: int, gone: int, ghost list: seq<int>)
      requires Linked(mem, freelist, list) && NoRepeats(list) && gone in list && 0 !in list && block in mem &&
        size % 4 == 0
      requires block !in list
      modifies this`mem, this`freelist
      ensures SameBlocks(FreedHeader(old(mem), block, size, next), mem) &&
        Linked(mem, freelist, [block] + Without(list, gone))
    {
      StoreAndUnlist(block, size, next, gone, list);
      ghost var mem1 := mem;
      WithoutMembers(list, gone);
      AddToFreelist(block, Without(list, gone));
      SameTrans(FreedHeader(old(mem), block, size, next), mem1, mem);
    }

    /** The right neighbour is free and is taken in. */
    method FreeWithNext(block: int, next: int, ghost i: nat)
      requires Repr() && FreeableAt(abs, i) && PrevBusy(abs, i) && !NextBusy(abs, i)
      requires block == abs.blocks[i].addr && next == abs.blocks[i + 1].addr
      modifies this
      ensures Live(old(abs), block + OVERHEAD) && Repr() && abs == Heap.Free(old(abs), block + OVERHEAD)
    {
      hide Heap.Free; hide Tiles; hide EndOf; hide Mirrors; hide Linked; hide NoFreeNeighbours; hide ListsFree;
      ghost var mem0, first0, tail0 := mem, freelist, tail;
      var sb := ReadSize(block, i);
      var sn := ReadSize(next, i + 1);
      var size := sb + OVERHEAD + sn;
      var after := GetNextOf(next, i + 1);
      SumOfTwo(i);
      NotListed(i);
      Listed(i + 1);
      StoreAndSwap(block, size, after, next, abs.freelist);
      if tail == next { tail := block; }
      RightRepresents(head, tail0, first0, mem0, freelist, mem, abs, i, size);
      abs := Heap.Free(abs, block + OVERHEAD);
    }

    /** Both neighbours are free: three blocks become one. */
    method FreeWithBoth(prev: int, block: int, next: int, ghost i: nat)
      requires Repr() && FreeableAt(abs, i) && !PrevBusy(abs, i) && !NextBusy(abs, i)
      requires prev == abs.blocks[i - 1].addr && block == abs.blocks[i].addr && next == abs.blocks[i + 1].addr
      modifies this
      ensures Live(old(abs), block + OVERHEAD) && Repr() && abs == Heap.Free(old(abs), block + OVERHEAD)
    {
      hide Heap.Free; hide Tiles; hide EndOf; hide Mirrors; hide Linked; hide NoFreeNeighbours; hide ListsFree;
      ghost var mem0, first0, tail0 := mem, freelist, tail;
      var sp := ReadSize(prev, i - 1);
      var sb := ReadSize(block, i);
      var sn := ReadSize(next, i + 1);
      var size := sp + 2 * OVERHEAD + sb + sn;
      var after := GetNextOf(next, i + 1);
      SumOfThree(i);
      Listed(i + 1);
      StoreAndUnlist(prev, size, after, next, abs.freelist);
      if tail == next { tail := prev; }
      BothRepresents(head, tail0, first0, mem0, freelist, mem, abs, i, size);
      abs := Heap.Free(abs, block + OVERHEAD);
    }

    /** __do_free on a live pointer */
    method Free(p: int)
      requires Repr() && Live(abs, p)
      modifies this
      ensures Repr() && abs == Heap.Free(old(abs), p)
    {
      var block := p - OVERHEAD;
      ghost var i := IndexOf(abs.blocks, block);
      var prev := GetPreviousBlock(block);
      var next := GetNextBlock(block);
      if i > 0 { HeaderOf(i - 1); }
      if i + 1 < |abs.blocks| { HeaderOf(i + 1); }
      if IsFree(mem, prev) && IsFree(mem, next) {
        FreeWithBoth(prev, block, next, i);
      } else if IsFree(mem, prev) {
        FreeIntoPrevious(prev, block, next, i);
      } else if IsFree(mem, next) {
        FreeWithNext(block, next, i);
      } else {
        FreeOnly(block, i);
      }
    }
  }
}
