/** Array arithmetic on 32-bit unsigned words (experimental/math/arr_math.c).
    Every routine takes the number of leading elements it works on; additions
    and subtractions wrap around modulo 2^32. */
module ArrMath {
  import opened Basics

  type U32 = x: int | 0 <= x < WORD

  function AddWrap(a: int, b: int): (r: U32)
    ensures 0 <= a + b < WORD ==> r == a + b
  {
    (a + b) % WORD
  }

  function SubWrap(a: int, b: int): (r: U32)
    ensures 0 <= a - b < WORD ==> r == a - b
  {
    (a - b) % WORD
  }

  /** Whole turns around the word make no difference. */
  lemma WholeTurns(x: int, q: int)
    requires 0 <= x < WORD
    ensures (x - WORD * q) % WORD == x
  {
  }

  lemma UndoWrap(a: int, b: int)
    requires 0 <= a < WORD
    ensures SubWrap(AddWrap(a, b), b) == a && AddWrap(SubWrap(a, b), b) == a
  {
    var q, p := (a + b) / WORD, (a - b) / WORD;
    assert AddWrap(a, b) - b == a - WORD * q;
    assert SubWrap(a, b) + b == a - WORD * p;
    WholeTurns(a, q);
    WholeTurns(a, p);
  }

  /** Pointwise comparison of two vectors. */
  predicate Leq(a: seq<int>, b: seq<int>)
    requires |a| == |b|
  {
    forall j :: 0 <= j < |a| ==> a[j] <= b[j]
  }

  /** `a` with the first `length` words of `b` added to, or taken from, its own. */
  function AddVec(a: seq<nat>, b: seq<nat>, length: nat): (r: seq<nat>)
    requires length <= |a| && length <= |b|
    ensures |r| == |a|
  {
    seq(|a|, i requires 0 <= i < |a| => if i < length then AddWrap(a[i], b[i]) else a[i])
  }

  function SubVec(a: seq<nat>, b: seq<nat>, length: nat): (r: seq<nat>)
    requires length <= |a| && length <= |b|
    ensures |r| == |a|
  {
    seq(|a|, i requires 0 <= i < |a| => if i < length then SubWrap(a[i], b[i]) else a[i])
  }

  /** Adding and subtracting the same vector undo each other, wrap-around or not. */
  lemma AddSubUndo(a: seq<nat>, b: seq<nat>, length: nat)
    requires length <= |a| && length <= |b| && forall i :: 0 <= i < |a| ==> a[i] < WORD
    ensures SubVec(AddVec(a, b, length), b, length) == a
    ensures AddVec(SubVec(a, b, length), b, length) == a
  {
    forall i | 0 <= i < |a|
      ensures SubVec(AddVec(a, b, length), b, length)[i] == a[i] && AddVec(SubVec(a, b, length), b, length)[i] == a[i]
    {
      if i < length { UndoWrap(a[i], b[i]); }
    }
  }

  method All(dst: array<U32>, value: U32, length: nat)
    requires length <= dst.Length
    modifies dst
    ensures forall i :: 0 <= i < length ==> dst[i] == value
    ensures forall i :: length <= i < dst.Length ==> dst[i] == old(dst[i])
  {
    for i := 0 to length
      invariant forall k :: 0 <= k < i ==> dst[k] == value
      invariant forall k :: length <= k < dst.Length ==> dst[k] == old(dst[k])
    {
      dst[i] := value;
    }
  }

  /** `left` and `right` may be the same array, as the source allows. */
  method Sub(left: array<U32>, right: array<U32>, length: nat)
    requires length <= left.Length && length <= right.Length
    modifies left
    ensures left[..] == SubVec(old(left[..]), old(right[..]), length)
  {
    for i := 0 to length
      invariant forall k :: 0 <= k < i ==> left[k] == SubWrap(old(left[k]), old(right[k]))
      invariant forall k :: i <= k < left.Length ==> left[k] == old(left[k])
      invariant left != right ==> right[..] == old(right[..])
    {
      left[i] := SubWrap(left[i], right[i]);
    }
  }

  method Add(left: array<U32>, right: array<U32>, length: nat)
    requires length <= left.Length && length <= right.Length
    modifies left
    ensures left[..] == AddVec(old(left[..]), old(right[..]), length)
  {
    for i := 0 to length
      invariant forall k :: 0 <= k < i ==> left[k] == AddWrap(old(left[k]), old(right[k]))
      invariant forall k :: i <= k < left.Length ==> left[k] == old(left[k])
      invariant left != right ==> right[..] == old(right[..])
    {
      left[i] := AddWrap(left[i], right[i]);
    }
  }

  method GreaterAny(left: array<U32>, right: array<U32>, length: nat) returns (any: bool)
    requires length <= left.Length && length <= right.Length
    ensures any <==> exists i :: 0 <= i < length && left[i] > right[i]
    ensures any <==> !Leq(left[..length], right[..length])
  {
    for i := 0 to length
      invariant forall k :: 0 <= k < i ==> left[k] <= right[k]
    {
      if left[i] > right[i] {
        assert left[..length][i] > right[..length][i];
        return true;
      }
    }
    return false;
  }

  method LessAny(left: array<U32>, right: array<U32>, length: nat) returns (any: bool)
    requires length <= left.Length && length <= right.Length
    ensures any <==> exists i :: 0 <= i < length && left[i] < right[i]
    ensures any <==> !Leq(right[..length], left[..length])
  {
    for i := 0 to length
      invariant forall k :: 0 <= k < i ==> right[k] <= left[k]
    {
      if left[i] < right[i] {
        assert left[..length][i] < right[..length][i];
        return true;
      }
    }
    return false;
  }

  method Equal(left: array<U32>, right: array<U32>, length: nat) returns (same: bool)
    requires length <= left.Length && length <= right.Length
    ensures same <==> left[..length] == right[..length]
  {
    for i := 0 to length
      invariant left[..i] == right[..i]
    {
      if left[i] != right[i] {
        assert left[..length][i] != right[..length][i];
        return false;
      }
    }
    return true;
  }
}
