/** experimental/deadlock_prevention.c: the safety test and the request
    operation, in place on a vector and two matrices of 32-bit words. */
module DeadlockPrevention {
  import opened Basics
  import opened ArrMath
  import opened Banker

  type Matrix = array<array<U32>>

  ghost predicate Shaped(available: array<U32>, alloc: Matrix, need: Matrix, n: nat, m: nat)
    reads alloc, need
  {
    && available.Length == m && alloc.Length == n && need.Length == n
    && (forall i :: 0 <= i < n ==> alloc[i].Length == m && need[i].Length == m)
  }

  /** The shape the allocator gives the structures: n rows of m words each, no
      two rows, and no row and vector, sharing memory. */
  ghost predicate Laid(available: array<U32>, alloc: Matrix, need: Matrix, n: nat, m: nat)
    reads alloc, need
  {
    && Shaped(available, alloc, need, n, m)
    && (forall i :: 0 <= i < n ==> alloc[i] != available && need[i] != available)
    && (forall i, k :: 0 <= i < n && 0 <= k < n ==> alloc[i] != need[k])
    && (forall i, k :: 0 <= i < k < n ==> alloc[i] != alloc[k] && need[i] != need[k])
  }

  ghost function Rows(mat: Matrix): (r: seq<Vec>)
    reads mat, set i | 0 <= i < mat.Length :: mat[i]
    ensures |r| == mat.Length
    ensures forall i :: 0 <= i < mat.Length ==> r[i] == mat[i][..]
  {
    seq(mat.Length, i requires 0 <= i < mat.Length reads mat, set k | 0 <= k < mat.Length :: mat[k] => mat[i][..])
  }

  /** The state held by the vector and the two matrices. */
  ghost function View(available: array<U32>, alloc: Matrix, need: Matrix): State
    reads available, alloc, need
    reads set i | 0 <= i < alloc.Length :: alloc[i]
    reads set i | 0 <= i < need.Length :: need[i]
  {
    State(available[..], Rows(alloc), Rows(need))
  }

  /** arr_add and arr_sub on one row of a matrix touch no other row. */
  method AddRow(mat: Matrix, i: nat, v: array<U32>, m: nat)
    requires i < mat.Length && mat[i].Length == m && v.Length == m && v != mat[i]
    requires forall k :: 0 <= k < mat.Length && k != i ==> mat[k] != mat[i]
    modifies mat[i]
    ensures Rows(mat) == old(Rows(mat))[i := AddVec(old(mat[i][..]), v[..], m)]
  {
    Add(mat[i], v, m);
  }

  method SubRow(mat: Matrix, i: nat, v: array<U32>, m: nat)
    requires i < mat.Length && mat[i].Length == m && v.Length == m && v != mat[i]
    requires forall k :: 0 <= k < mat.Length && k != i ==> mat[k] != mat[i]
    modifies mat[i]
    ensures Rows(mat) == old(Rows(mat))[i := SubVec(old(mat[i][..]), v[..], m)]
  {
    Sub(mat[i], v, m);
  }

  /** The first task that has not finished and whose need fits in `work`. */
  method FindTask(finish: array<U32>, need: Matrix, work: array<U32>, n: nat, m: nat) returns (i: nat)
    requires finish.Length == n && need.Length == n && work.Length == m
    requires forall k :: 0 <= k < n ==> need[k].Length == m
    ensures i <= n
    ensures forall k :: 0 <= k < i ==> finish[k] != 0 || !Leq(need[k][..], work[..])
    ensures i < n ==> finish[i] == 0 && Leq(need[i][..], work[..])
  {
    i := 0;
    while i < n
      invariant i <= n
      invariant forall k :: 0 <= k < i ==> finish[k] != 0 || !Leq(need[k][..], work[..])
    {
      var blocked := finish[i] != 0;
      if !blocked {
        blocked := GreaterAny(need[i], work, m);
        assert need[i][..m] == need[i][..] && work[..m] == work[..];
      }
      if !blocked { return; }
      i := i + 1;
    }
  }

  /** `finish` marks exactly the tasks of `order`, a list without repeats. */
  ghost predicate Marks(order: seq<nat>, finish: seq<int>)
  {
    && Distinct(order) && (forall k :: 0 <= k < |order| ==> order[k] < |finish|)
    && forall k :: 0 <= k < |finish| ==> finish[k] == if k in order then 1 else 0
  }

  /** The tasks of `order` complete, and `work` is what is free after them. */
  ghost predicate Searching(s: State, order: seq<nat>, work: Vec)
    requires WellFormed(s)
  {
    && Distinct(order) && (forall k :: 0 <= k < |order| ==> order[k] < |s.alloc|)
    && WorkAfter(s, Members(order), work) && Completes(s, s.available, order)
  }

  lemma StartSearch(s: State)
    requires WellFormed(s)
    ensures Searching(s, [], s.available)
  {
    WorkAfterNone(s);
    assert Members([]) == {};
  }

  /** A task that fits extends the completing order found so far. */
  lemma GrowOrder(s: State, order: seq<nat>, work: Vec, i: nat)
    requires WellFormed(s) && i < |s.alloc| && i !in order
    requires Searching(s, order, work) && Leq(s.need[i], work)
    requires FitsWord(s)
    ensures Searching(s, order + [i], AddVec(work, s.alloc[i], |work|))
  {
    WorkAfterNone(s);
    assert {} + Members(order) == Members(order);
    CompletesAppend(s, s.available, {}, order, work, i);
    WorkAfterOneMore(s, Members(order), work, i);
    assert Members(order + [i]) == Members(order) + {i};
    forall j | 0 <= j < |work| ensures Plus(work, s.alloc[i])[j] == AddVec(work, s.alloc[i], |work|)[j] {
      WorkBelowTotal(s, Members(order + [i]), Plus(work, s.alloc[i]), j);
      assert Total(s, j) < WORD;
    }
    assert Plus(work, s.alloc[i]) == AddVec(work, s.alloc[i], |work|);
  }

  /** A distinct list of tasks that leaves one out is shorter than all of them. */
  lemma MarkOne(order: seq<nat>, finish: seq<int>, i: nat)
    requires Marks(order, finish) && i < |finish| && finish[i] == 0
    ensures |order| < |finish| && Marks(order + [i], finish[i := 1])
  {
    DistinctSize(order);
    AllTasksSize(|finish|);
    SubsetSize(Members(order), AllTasks(|finish|) - {i});
  }

  lemma AllMarked(s: State, order: seq<nat>, work: Vec, finish: seq<int>)
    requires WellFormed(s) && Searching(s, order, work) && Marks(order, finish) && |finish| == |s.alloc|
    requires forall i :: 0 <= i < |finish| ==> finish[i] == 1
    ensures IsSafe(s)
  {
    DistinctSize(order);
    AllTasksSize(|finish|);
    assert Members(order) == AllTasks(|finish|);
  }

  lemma NoneFits(s: State, order: seq<nat>, work: Vec, finish: seq<int>)
    requires WellFormed(s) && Searching(s, order, work) && Marks(order, finish) && |finish| == |s.alloc|
    requires exists i :: 0 <= i < |finish| && finish[i] != 1
    requires forall i :: 0 <= i < |finish| ==> finish[i] != 0 || !Leq(s.need[i], work)
    ensures !IsSafe(s)
  {
    var left :| 0 <= left < |finish| && finish[left] != 1;
    StuckMeansUnsafe(s, Members(order), work, left);
  }

  /** The working vector and the two flag vectors state_safe starts from. */
  method StartVectors(available: array<U32>, n: nat, m: nat)
    returns (work: array<U32>, finish: array<U32>, allTrue: array<U32>)
    requires available.Length == m
    ensures fresh(work) && fresh(finish) && fresh(allTrue) && work != finish
    ensures finish != allTrue && work != allTrue
    ensures work[..] == available[..]
    ensures finish[..] == seq(n, _ => 0) && allTrue[..] == seq(n, _ => 1)
  {
    work := new U32[m](j requires 0 <= j < m reads available => available[j]);
    finish := new U32[n];
    All(finish, 0, n);
    allTrue := new U32[n];
    All(allTrue, 1, n);
  }

  /** Task i finishes: what it holds becomes free and it is marked. */
  method FinishTask(work: array<U32>, finish: array<U32>, row: array<U32>, i: nat, m: nat,
                    ghost s: State, ghost order: seq<nat>)
    requires WellFormed(s) && |s.available| == m && |s.alloc| == finish.Length
    requires work.Length == m && row.Length == m && i < finish.Length
    requires work != finish && work != row && finish != row
    requires row[..] == s.alloc[i] && Leq(s.need[i], work[..])
    requires Marks(order, finish[..]) && finish[i] == 0
    requires FitsWord(s) ==> Searching(s, order, work[..])
    modifies work, finish
    ensures |order| < finish.Length
    ensures Marks(order + [i], finish[..])
    ensures FitsWord(s) ==> Searching(s, order + [i], work[..])
  {
    MarkOne(order, finish[..], i);
    if FitsWord(s) { GrowOrder(s, order, work[..], i); }
    Add(work, row, m);
    finish[i] := 1;
  }

  /** state_safe: finds out, by repeatedly finishing the lowest-numbered task
      that can finish, whether some order of all tasks completes. The answer is
      exact whenever no resource has 2^32 instances or more. */
  method StateSafe(available: array<U32>, alloc: Matrix, need: Matrix, n: nat, m: nat) returns (safe: bool)
    requires Shaped(available, alloc, need, n, m)
    ensures old(FitsWord(View(available, alloc, need))) ==> (safe <==> old(IsSafe(View(available, alloc, need))))
  {
    ghost var s := View(available, alloc, need);
    var work, finish, allTrue := StartVectors(available, n, m);
    ghost var order: seq<nat> := [];
    StartSearch(s);
    var same := Equal(finish, allTrue, n);
    while !same
      invariant fresh(work) && fresh(finish) && fresh(allTrue) && finish != allTrue && finish != work && allTrue != work
      invariant work.Length == m && finish.Length == n && allTrue[..] == seq(n, _ => 1)
      invariant Marks(order, finish[..])
      invariant FitsWord(s) ==> Searching(s, order, work[..])
      invariant same <==> finish[..n] == allTrue[..n]
      decreases n - |order|
    {
      var i := FindTask(finish, need, work, n, m);
      if i == n {
        if FitsWord(s) { NoneFits(s, order, work[..], finish[..]); }
        return false;
      }
      FinishTask(work, finish, alloc[i], i, m, s, order);
      order := order + [i];
      same := Equal(finish, allTrue, n);
    }
    if FitsWord(s) { AllMarked(s, order, work[..], finish[..]); }
    return true;
  }

  ghost predicate Words(s: State)
    requires WellFormed(s)
  {
    && (forall j :: 0 <= j < |s.available| ==> s.available[j] < WORD)
    && (forall i, j :: 0 <= i < |s.alloc| && 0 <= j < |s.available| ==> s.alloc[i][j] < WORD)
    && (forall i, j :: 0 <= i < |s.need| && 0 <= j < |s.available| ==> s.need[i][j] < WORD)
  }

  /** The words after `req` moved from free and needed to held, wrapping around. */
  ghost function Moved(s: State, i: nat, req: Vec): State
    requires WellFormed(s) && i < |s.alloc| && |req| == |s.available|
  {
    State(SubVec(s.available, req, |req|),
          s.alloc[i := AddVec(s.alloc[i], req, |req|)],
          s.need[i := SubVec(s.need[i], req, |req|)])
  }

  ghost function MovedBack(s: State, i: nat, req: Vec): State
    requires WellFormed(s) && i < |s.alloc| && |req| == |s.available|
  {
    State(AddVec(s.available, req, |req|),
          s.alloc[i := SubVec(s.alloc[i], req, |req|)],
          s.need[i := AddVec(s.need[i], req, |req|)])
  }

  /** Moving back restores the words exactly, wrap-around or not. */
  lemma MoveThenMoveBack(s: State, i: nat, req: Vec)
    requires WellFormed(s) && Words(s) && i < |s.alloc| && |req| == |s.available|
    ensures MovedBack(Moved(s, i, req), i, req) == s
  {
    AddSubUndo(s.available, req, |req|);
    AddSubUndo(s.alloc[i], req, |req|);
    AddSubUndo(s.need[i], req, |req|);
  }

  /** Granting what is free overflows no word and keeps every total. */
  lemma GrantFits(s: State, i: nat, req: Vec)
    requires WellFormed(s) && i < |s.alloc| && |req| == |s.available| && FitsWord(s) && Words(s)
    requires Leq(req, s.need[i]) && Leq(req, s.available)
    ensures Moved(s, i, req) == Granted(s, i, req)
    ensures FitsWord(Granted(s, i, req))
  {
    var g := Granted(s, i, req);
    forall j | 0 <= j < |req| ensures s.alloc[i][j] + req[j] < WORD && Total(g, j) < WORD {
      HeldNone(s.alloc, j, |s.alloc|);
      HeldAdd(s.alloc, {}, i, j, |s.alloc|);
      assert {} + {i} == {i};
      HeldMono(s.alloc, {i}, AllTasks(|s.alloc|), j, |s.alloc|);
      assert Total(s, j) < WORD;
      HeldUpdate(s.alloc, i, g.alloc[i], AllTasks(|s.alloc|), j, |s.alloc|);
    }
    assert SubVec(s.available, req, |req|) == Minus(s.available, req);
    assert AddVec(s.alloc[i], req, |req|) == Plus(s.alloc[i], req);
    assert SubVec(s.need[i], req, |req|) == Minus(s.need[i], req);
  }

  lemma ViewInWords(available: array<U32>, alloc: Matrix, need: Matrix, n: nat, m: nat)
    requires Shaped(available, alloc, need, n, m)
    ensures WellFormed(View(available, alloc, need)) && Words(View(available, alloc, need))
  {
  }

  method Move(req: array<U32>, task: nat, available: array<U32>, alloc: Matrix, need: Matrix, n: nat, m: nat)
    requires Laid(available, alloc, need, n, m) && task < n
    requires req.Length == m && req != available && forall i :: 0 <= i < n ==> req != alloc[i] && req != need[i]
    modifies available, alloc[task], need[task]
    ensures alloc[..] == old(alloc[..]) && need[..] == old(need[..])
    ensures View(available, alloc, need) == Moved(old(View(available, alloc, need)), task, req[..])
  {
    Sub(available, req, m);
    AddRow(alloc, task, req, m);
    SubRow(need, task, req, m);
  }

  method MoveBack(req: array<U32>, task: nat, available: array<U32>, alloc: Matrix, need: Matrix, n: nat, m: nat)
    requires Laid(available, alloc, need, n, m) && task < n
    requires req.Length == m && req != available && forall i :: 0 <= i < n ==> req != alloc[i] && req != need[i]
    modifies available, alloc[task], need[task]
    ensures alloc[..] == old(alloc[..]) && need[..] == old(need[..])
    ensures View(available, alloc, need) == MovedBack(old(View(available, alloc, need)), task, req[..])
  {
    Add(available, req, m);
    SubRow(alloc, task, req, m);
    AddRow(need, task, req, m);
  }

  /** The tentative grant: move the words, test, and move them back if unsafe. */
  method TryGrant(req: array<U32>, task: nat, available: array<U32>, alloc: Matrix, need: Matrix, n: nat, m: nat)
    returns (safe: bool)
    requires Laid(available, alloc, need, n, m) && task < n
    requires req.Length == m && req != available && forall i :: 0 <= i < n ==> req != alloc[i] && req != need[i]
    modifies available, alloc[task], need[task]
    ensures alloc[..] == old(alloc[..]) && need[..] == old(need[..])
    ensures View(available, alloc, need) ==
      if safe then Moved(old(View(available, alloc, need)), task, req[..]) else old(View(available, alloc, need))
    ensures var s := Moved(old(View(available, alloc, need)), task, req[..]);
      FitsWord(s) ==> (safe <==> IsSafe(s))
  {
    ViewInWords(available, alloc, need, n, m);
    MoveThenMoveBack(View(available, alloc, need), task, req[..]);
    Move(req, task, available, alloc, need, n, m);
    safe := StateSafe(available, alloc, need, n, m);
    if !safe {
      MoveBack(req, task, available, alloc, need, n, m);
    }
  }

  /** A request within need and within what is free is granted exactly when
      some order still completes afterwards. */
  method Decide(req: array<U32>, task: nat, available: array<U32>, alloc: Matrix, need: Matrix, n: nat, m: nat)
    returns (verdict: Verdict)
    requires Laid(available, alloc, need, n, m) && task < n
    requires req.Length == m && req != available && forall i :: 0 <= i < n ==> req != alloc[i] && req != need[i]
    requires Leq(req[..], need[task][..]) && Leq(req[..], available[..])
    modifies available, alloc[task], need[task]
    ensures alloc[..] == old(alloc[..]) && need[..] == old(need[..])
    ensures verdict == SAFE || (verdict == WAIT_UNSAFE &&
      View(available, alloc, need) == old(View(available, alloc, need)))
    ensures old(FitsWord(View(available, alloc, need))) ==>
      (verdict, View(available, alloc, need)) == Banker.Request(old(View(available, alloc, need)), task, req[..])
  {
    ghost var s := View(available, alloc, need);
    ViewInWords(available, alloc, need, n, m);
    if FitsWord(s) { GrantFits(s, task, req[..]); }
    var safe := TryGrant(req, task, available, alloc, need, n, m);
    verdict := if safe then SAFE else WAIT_UNSAFE;
  }

  /** request: on every answer but SAFE the three structures are word for word
      what they were; when no resource has 2^32 instances or more, answer and
      new state are those of the abstract request. */
  method Request(req: array<U32>, task: nat, available: array<U32>, alloc: Matrix, need: Matrix, n: nat, m: nat)
    returns (verdict: Verdict)
    requires Laid(available, alloc, need, n, m) && task < n
    requires req.Length == m && req != available && forall i :: 0 <= i < n ==> req != alloc[i] && req != need[i]
    modifies available, alloc[task], need[task]
    ensures alloc[..] == old(alloc[..]) && need[..] == old(need[..])
    ensures verdict == ERROR <==> !Leq(req[..], old(need[task][..]))
    ensures verdict == WAIT <==> Leq(req[..], old(need[task][..])) && !Leq(req[..], old(available[..]))
    ensures verdict != SAFE ==> View(available, alloc, need) == old(View(available, alloc, need))
    ensures old(FitsWord(View(available, alloc, need))) ==>
      (verdict, View(available, alloc, need)) == Banker.Request(old(View(available, alloc, need)), task, req[..])
  {
    hide IsSafe; hide FitsWord;
    assert req[..m] == req[..] && need[task][..m] == need[task][..] && available[..m] == available[..];
    var beyond := GreaterAny(req, need[task], m);
    if beyond { return ERROR; }
    beyond := GreaterAny(req, available, m);
    if beyond { return WAIT; }
    verdict := Decide(req, task, available, alloc, need, n, m);
  }
}
