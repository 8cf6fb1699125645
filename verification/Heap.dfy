/** The kernel heap (mem/kheap.c) as values: blocks in address order, the free
    list in its own order, and what kmalloc and kfree do to them. */
module Heap {
  import opened Basics

  const OVERHEAD := 12

  /** `size` is the payload; the header of OVERHEAD bytes lies before it at `addr`. */
  datatype Block = Block(addr: int, size: int, free: bool)

  datatype State = State(start: int, end: int, brk: int, blocks: seq<Block>, freelist: seq<int>)

  datatype Outcome = Null | Pointer(p: int) | OutOfSpace

  // ----------------------------------------------------------------- tiling

  /** The blocks lie one after the other from address `lo` on. */
  predicate Tiles(lo: int, blocks: seq<Block>)
    decreases |blocks|
  {
    blocks == [] ||
    (&& blocks[0].addr == lo && blocks[0].size >= 0 && blocks[0].size % 4 == 0
     && Tiles(lo + OVERHEAD + blocks[0].size, blocks[1..]))
  }

  /** Where blocks laid from `lo` on end: every header and payload counted. */
  function EndOf(lo: int, blocks: seq<Block>): int
    decreases |blocks|
  {
    if blocks == [] then lo else EndOf(lo + OVERHEAD + blocks[0].size, blocks[1..])
  }

  lemma {:induction false} TilesConcat(lo: int, a: seq<Block>, b: seq<Block>)
    ensures EndOf(lo, a + b) == EndOf(EndOf(lo, a), b)
    ensures Tiles(lo, a + b) <==> Tiles(lo, a) && Tiles(EndOf(lo, a), b)
    decreases |a|
  {
    if a == [] {
      assert a + b == b;
    } else {
      assert (a + b)[1..] == a[1..] + b;
      TilesConcat(lo + OVERHEAD + a[0].size, a[1..], b);
    }
  }

  lemma {:induction false} TilesBounds(lo: int, blocks: seq<Block>, i: nat)
    requires Tiles(lo, blocks) && i < |blocks|
    ensures lo <= blocks[i].addr && blocks[i].size >= 0 && blocks[i].size % 4 == 0
    ensures blocks[i].addr + OVERHEAD + blocks[i].size <= EndOf(lo, blocks)
    ensures (blocks[i].addr - lo) % 4 == 0
    decreases i
  {
    if i > 0 {
      TilesBounds(lo + OVERHEAD + blocks[0].size, blocks[1..], i - 1);
    } else {
      EndAfter(lo + OVERHEAD + blocks[0].size, blocks[1..]);
    }
  }

  lemma {:induction false} EndAfter(lo: int, blocks: seq<Block>)
    requires Tiles(lo, blocks)
    ensures lo <= EndOf(lo, blocks)
    decreases |blocks|
  {
    if blocks != [] { EndAfter(lo + OVERHEAD + blocks[0].size, blocks[1..]); }
  }

  /** No two blocks overlap, headers included. */
  lemma BlocksDisjoint(lo: int, blocks: seq<Block>, i: nat, j: nat)
    requires Tiles(lo, blocks) && i < j < |blocks|
    ensures blocks[i].addr + OVERHEAD + blocks[i].size <= blocks[j].addr
  {
    TilesConcat(lo, blocks[..j], blocks[j..]);
    assert blocks[..j] + blocks[j..] == blocks;
    assert blocks[..j][i] == blocks[i] && blocks[j..][0] == blocks[j];
    TilesBounds(lo, blocks[..j], i);
  }

  /** Neighbours touch. */
  lemma Neighbours(lo: int, blocks: seq<Block>, i: nat)
    requires Tiles(lo, blocks) && i < |blocks|
    ensures i + 1 < |blocks| ==> blocks[i + 1].addr == blocks[i].addr + OVERHEAD + blocks[i].size
    ensures i + 1 == |blocks| ==> EndOf(lo, blocks) == blocks[i].addr + OVERHEAD + blocks[i].size
    ensures blocks[i].addr == EndOf(lo, blocks[..i])
  {
    TilesConcat(lo, blocks[..i], blocks[i..]);
    assert blocks[..i] + blocks[i..] == blocks;
    var rest := blocks[i..];
    assert rest[0] == blocks[i];
    if i + 1 < |blocks| { assert rest[1..][0] == blocks[i + 1]; } else { assert rest[1..] == []; }
  }

  // -------------------------------------------------------------- free list

  predicate NoRepeats(s: seq<int>)
  {
    forall i, j :: 0 <= i < j < |s| ==> s[i] != s[j]
  }

  ghost function FreeAddrs(blocks: seq<Block>): set<int>
  {
    set i | 0 <= i < |blocks| && blocks[i].free :: blocks[i].addr
  }

  predicate NoFreeNeighbours(blocks: seq<Block>)
  {
    forall i :: 0 <= i < |blocks| - 1 ==> !(blocks[i].free && blocks[i + 1].free)
  }

  /** The free list holds exactly the addresses of the free blocks, each once. */
  ghost predicate ListsFree(freelist: seq<int>, blocks: seq<Block>)
  {
    && NoRepeats(freelist)
    && (forall x :: x in freelist ==> x in FreeAddrs(blocks))
    && (forall x :: x in FreeAddrs(blocks) ==> x in freelist)
  }

  // -------------------------------------------------------------- invariant

  /** The blocks tile the heap from just after the three header words to the
      break, no two neighbours are both free, and the free list is exact. */
  ghost predicate Valid(h: State)
  {
    && 0 < h.start && h.brk <= h.end < WORD
    && Tiles(h.start + 12, h.blocks) && EndOf(h.start + 12, h.blocks) == h.brk
    && NoFreeNeighbours(h.blocks)
    && ListsFree(h.freelist, h.blocks)
  }

  /** kheap_init: three words reserved at the start, nothing else. */
  function Init(start: int, end: int): State
  {
    State(start, end, start + 12, [], [])
  }

  // ----------------------------------------------------------------- lookup

  function IndexOf(blocks: seq<Block>, addr: int): (i: nat)
    ensures i <= |blocks| && (forall j :: 0 <= j < i ==> blocks[j].addr != addr)
    ensures i < |blocks| ==> blocks[i].addr == addr
  {
    if blocks == [] || blocks[0].addr == addr then 0 else 1 + IndexOf(blocks[1..], addr)
  }

  predicate Present(blocks: seq<Block>, addr: int)
  {
    IndexOf(blocks, addr) < |blocks|
  }

  lemma IndexUnique(lo: int, blocks: seq<Block>, i: nat)
    requires Tiles(lo, blocks) && i < |blocks|
    ensures IndexOf(blocks, blocks[i].addr) == i
  {
    var k := IndexOf(blocks, blocks[i].addr);
    if k < i { BlocksDisjoint(lo, blocks, k, i); TilesBounds(lo, blocks, k); }
  }

  // ---------------------------------------------------------------- malloc

  /** ceil(size, 16) on 32-bit words: the addition of 15 wraps around. */
  function Rounded(size: int): (r: int)
    requires 0 <= size < WORD
    ensures 0 <= r <= WORD - 16 && r % 16 == 0
    ensures size <= WORD - 16 ==> size <= r < size + 16
    ensures size > WORD - 16 ==> r == 0
  {
    (size + 15) % WORD / 16 * 16
  }

  predicate FitsIn(blocks: seq<Block>, addr: int, wanted: int)
  {
    Present(blocks, addr) && blocks[IndexOf(blocks, addr)].size >= wanted
  }

  function SizeAt(blocks: seq<Block>, addr: int): int
    requires Present(blocks, addr)
  {
    blocks[IndexOf(blocks, addr)].size
  }

  /** The first of the smallest fitting blocks in the order of the list. */
  function BestFit(blocks: seq<Block>, list: seq<int>, wanted: int): (r: Option<int>)
    ensures r.Some? ==> r.value in list && FitsIn(blocks, r.value, wanted)
  {
    if list == [] then None
    else
      var best := BestFit(blocks, list[..|list| - 1], wanted);
      var x := list[|list| - 1];
      if !FitsIn(blocks, x, wanted) then best
      else if best.None? || SizeAt(blocks, x) < SizeAt(blocks, best.value) then Some(x)
      else best
  }

  /** Best fit: nothing on the list that fits is smaller, and None only when
      nothing fits. */
  lemma {:induction false} BestFitIsBest(blocks: seq<Block>, list: seq<int>, wanted: int, k: nat)
    requires k < |list| && FitsIn(blocks, list[k], wanted)
    ensures var r := BestFit(blocks, list, wanted);
      r.Some? && SizeAt(blocks, r.value) <= SizeAt(blocks, list[k])
    decreases |list|
  {
    if k < |list| - 1 { BestFitIsBest(blocks, list[..|list| - 1], wanted, k); }
  }

  /** Among equals the one nearest to the front of the list is taken. */
  lemma {:induction false} BestFitIsFirst(blocks: seq<Block>, list: seq<int>, wanted: int, k: nat)
    requires k < |list| && FitsIn(blocks, list[k], wanted)
    requires BestFit(blocks, list, wanted).Some? &&
      SizeAt(blocks, list[k]) == SizeAt(blocks, BestFit(blocks, list, wanted).value)
    ensures BestFit(blocks, list, wanted).value in list[..k + 1]
    decreases |list|
  {
    if k < |list| - 1 {
      var front := list[..|list| - 1];
      BestFitIsBest(blocks, front, wanted, k);
      BestFitIsFirst(blocks, front, wanted, k);
      assert front[..k + 1] == list[..k + 1];
    } else {
      assert list[..k + 1] == list;
    }
  }

  function Without(list: seq<int>, x: int): seq<int>
  {
    if list == [] then [] else if list[0] == x then list[1..] else [list[0]] + Without(list[1..], x)
  }

  /** The chosen block taken whole, or split when at least 8 payload bytes
      remain beyond a second header. */
  function Taken(h: State, i: nat, rounded: int): State
    requires i < |h.blocks|
  {
    var b := h.blocks[i];
    var remaining := b.size - rounded;
    if remaining < 8 + OVERHEAD then
      h.(blocks := h.blocks[..i] + [b.(free := false)] + h.blocks[i + 1..], freelist := Without(h.freelist, b.addr))
    else
      var rest := Block(b.addr + OVERHEAD + rounded, remaining - OVERHEAD, true);
      h.(blocks := h.blocks[..i] + [Block(b.addr, rounded, false), rest] + h.blocks[i + 1..],
         freelist := [rest.addr] + Without(h.freelist, b.addr))
  }

  /** __do_brk: the increment is a signed word and the new boundary wraps. */
  function Brk(brk: int, end: int, increment: int): Option<int>
  {
    if 0 < increment < WORD / 2 && (brk + increment) % WORD <= end then Some((brk + increment) % WORD) else None
  }

  function Malloc(h: State, size: int): (State, Outcome)
    requires 0 <= size < WORD
  {
    if size == 0 then (h, Null)
    else
      var rounded := Rounded(size);
      var best := BestFit(h.blocks, h.freelist, rounded);
      if best.Some? then
        (Taken(h, IndexOf(h.blocks, best.value), rounded), Pointer(best.value + OVERHEAD))
      else
        var brk := Brk(h.brk, h.end, rounded + OVERHEAD);
        if brk.None? then (h, OutOfSpace)
        else
          (h.(brk := brk.value, blocks := h.blocks + [Block(h.brk, rounded, false)]), Pointer(h.brk + OVERHEAD))
  }

  /** Extending the break would wrap around the address space and still be accepted. */
  predicate WrapsAround(h: State, size: int)
    requires 0 <= size < WORD
  {
    && size != 0 && BestFit(h.blocks, h.freelist, Rounded(size)).None?
    && Rounded(size) + OVERHEAD < WORD / 2 && h.brk + Rounded(size) + OVERHEAD >= WORD
  }

  // ------------------------------------------------------------------ free

  predicate Live(h: State, p: int)
  {
    Present(h.blocks, p - OVERHEAD) && !h.blocks[IndexOf(h.blocks, p - OVERHEAD)].free
  }

  /** __do_free: merge with free neighbours on either side. */
  function Free(h: State, p: int): State
    requires Live(h, p)
  {
    var i := IndexOf(h.blocks, p - OVERHEAD);
    var b := h.blocks[i];
    var prev, next := i > 0 && h.blocks[i - 1].free, i + 1 < |h.blocks| && h.blocks[i + 1].free;
    if prev && next then
      var l, r := h.blocks[i - 1], h.blocks[i + 1];
      var merged := Block(l.addr, l.size + 2 * OVERHEAD + b.size + r.size, true);
      h.(blocks := h.blocks[..i - 1] + [merged] + h.blocks[i + 2..],
         freelist := Without(h.freelist, r.addr))
    else if prev then
      var l := h.blocks[i - 1];
      h.(blocks := h.blocks[..i - 1] + [Block(l.addr, l.size + OVERHEAD + b.size, true)] + h.blocks[i + 1..])
    else if next then
      var r := h.blocks[i + 1];
      h.(blocks := h.blocks[..i] + [Block(b.addr, b.size + OVERHEAD + r.size, true)] + h.blocks[i + 2..],
         freelist := [b.addr] + Without(h.freelist, r.addr))
    else
      h.(blocks := h.blocks[..i] + [b.(free := true)] + h.blocks[i + 1..], freelist := [b.addr] + h.freelist)
  }
}
