/** The kernel side of the smart semaphores as it runs: global tables updated in
    place, and the four structures of the banker's test filled afresh on every
    attempt to acquire (experimental/resource.c, experimental/smart_sem_kernel.c). */
module SmartSemKernel {
  import opened Basics
  import opened ArrMath
  import opened Banker
  import opened SmartSem
  import SmartSemRuns
  import DP = DeadlockPrevention

  /** `mat` was allocated for this call: n separate rows of m words. */
  ghost predicate Rectangular(mat: DP.Matrix, n: nat, m: nat)
    reads mat
  {
    && mat.Length == n && (forall t :: 0 <= t < n ==> mat[t].Length == m)
    && (forall t, u :: 0 <= t < u < n ==> mat[t] != mat[u])
  }

  /** kmmalloc followed by reset_deadlock_structures: a matrix of zeros. */
  method NewMatrix(n: nat, m: nat) returns (mat: DP.Matrix)
    ensures fresh(mat) && Rectangular(mat, n, m)
    ensures forall t :: 0 <= t < n ==> fresh(mat[t]) && forall r :: 0 <= r < m ==> mat[t][r] == 0
  {
    var none := new U32[0];
    mat := new array<U32>[n](_ => none);
    for t := 0 to n
      invariant fresh(mat) && mat.Length == n
      invariant forall a :: 0 <= a < t ==> fresh(mat[a]) && mat[a].Length == m && allocated(mat[a])
      invariant forall a, b :: 0 <= a < b < t ==> mat[a] != mat[b]
      invariant forall a, r :: 0 <= a < t && 0 <= r < m ==> mat[a][r] == 0
    {
      var row := new U32[m](_ => 0);
      mat[t] := row;
    }
  }

  /** One instance of resource r, nothing of any other. */
  method RequestVector(r: nat, m: nat) returns (req: array<U32>)
    requires r < m
    ensures fresh(req) && req[..] == Unit(m, r)
  {
    req := new U32[m](_ => 0);
    req[r] := 1;
  }

  class Semaphores {
    var queue: seq<Task>
    var current: Task
    var slots: map<Task, Slots>
    var resources: seq<Resource>
    const sems: array<Semaphore>

    ghost function View(): Kernel
      reads this, sems
    {
      Kernel(queue, current, slots, resources, sems[..])
    }

    constructor (first: Task)
      ensures View() == SmartSemRuns.Boot(first) && fresh(sems)
    {
      queue, current := [first], first;
      slots := map[first := NoSlots()];
      resources := [];
      sems := new Semaphore[SEM_MAX](_ => Semaphore(0, false, None));
    }

    /** fill_available */
    method FillAvailable(available: array<U32>)
      requires Sane(View()) && available.Length == |resources|
      modifies available
      ensures available[..] == Rebuilt(old(View())).available
    {
      ghost var k := View();
      for i := 0 to |resources|
        invariant forall r :: 0 <= r < i ==> available[r] == Rebuilt(k).available[r]
      {
        available[resources[i].rid] := SubWrap(resources[i].instances, resources[i].taken);
      }
    }

    /** fill_alloc: resource by resource, the row of the task it is assigned to. */
    method FillAlloc(mat: DP.Matrix)
      requires Sane(View()) && Rectangular(mat, |queue|, |resources|)
      requires forall t, r :: 0 <= t < |queue| && 0 <= r < |resources| ==> mat[t][r] == 0
      modifies set t | 0 <= t < mat.Length :: mat[t]
      ensures mat[..] == old(mat[..])
      ensures forall t, r :: 0 <= t < |queue| && 0 <= r < |resources| ==> mat[t][r] == AllocEntry(old(View()), t, r)
    {
      ghost var k := View();
      for i := 0 to |resources|
        invariant mat[..] == old(mat[..])
        invariant forall t, r :: 0 <= t < |queue| && 0 <= r < |resources| ==>
          mat[t][r] == if r < i then AllocEntry(k, t, r) else 0
      {
        for t := 0 to |queue|
          invariant mat[..] == old(mat[..])
          invariant forall a, r :: 0 <= a < |queue| && 0 <= r < |resources| ==>
            mat[a][r] == if r < i || (r == i && a < t) then AllocEntry(k, a, r) else 0
        {
          if Some(queue[t]) == resources[i].holder {
            mat[t][resources[i].rid] := resources[i].taken;
          }
        }
      }
    }

    /** fill_max: task by task, the slot number taken as the column. */
    method FillMax(mat: DP.Matrix)
      requires Sane(View()) && Rectangular(mat, |queue|, |resources|)
      requires forall t, r :: 0 <= t < |queue| && 0 <= r < |resources| ==> mat[t][r] == 0
      modifies set t | 0 <= t < mat.Length :: mat[t]
      ensures mat[..] == old(mat[..])
      ensures forall t, r :: 0 <= t < |queue| && 0 <= r < |resources| ==> mat[t][r] == MaxEntry(old(View()), t, r)
    {
      ghost var k := View();
      for t := 0 to |queue|
        invariant mat[..] == old(mat[..])
        invariant forall a, r :: 0 <= a < |queue| && 0 <= r < |resources| ==>
          mat[a][r] == if a < t then MaxEntry(k, a, r) else 0
      {
        for i := 0 to |resources|
          invariant mat[..] == old(mat[..])
          invariant forall a, r :: 0 <= a < |queue| && 0 <= r < |resources| ==>
            mat[a][r] == if a < t || (a == t && r < i) then MaxEntry(k, a, r) else 0
        {
          var slot := slots[queue[t]][i];
          if slot.Some? {
            assert queue[t] in k.queue;
            mat[t][i] := resources[slot.value].instances;
          }
        }
      }
    }

    /** fill_need: the maximum row copied, the held row subtracted. */
    method FillNeed(need: DP.Matrix, max: DP.Matrix, alloc: DP.Matrix)
      requires Rectangular(need, |queue|, |resources|)
      requires Rectangular(max, |queue|, |resources|) && Rectangular(alloc, |queue|, |resources|)
      requires forall a, b :: 0 <= a < |queue| && 0 <= b < |queue| ==> need[a] != max[b] && need[a] != alloc[b]
      modifies set t | 0 <= t < need.Length :: need[t]
      ensures need[..] == old(need[..])
      ensures forall t, r :: 0 <= t < |queue| && 0 <= r < |resources| ==>
        need[t][r] == SubWrap(old(max[t][r]), old(alloc[t][r]))
    {
      hide SubWrap;
      var m := |resources|;
      for i := 0 to |queue|
        invariant need[..] == old(need[..])
        invariant forall t, r :: 0 <= t < i && 0 <= r < m ==> need[t][r] == SubWrap(old(max[t][r]), old(alloc[t][r]))
      {
        for j := 0 to m
          invariant need[..] == old(need[..])
          invariant forall r :: 0 <= r < j ==> need[i][r] == old(max[i][r])
          invariant forall t, r :: 0 <= t < i && 0 <= r < m ==> need[t][r] == SubWrap(old(max[t][r]), old(alloc[t][r]))
        {
          need[i][j] := max[i][j];
        }
        Sub(need[i], alloc[i], m);
      }
    }

    method AllocRows() returns (alloc: DP.Matrix)
      requires Sane(View())
      ensures fresh(alloc) && Rectangular(alloc, |queue|, |resources|)
      ensures forall t :: 0 <= t < |queue| ==> fresh(alloc[t])
      ensures forall t, r :: 0 <= t < |queue| && 0 <= r < |resources| ==> alloc[t][r] == AllocEntry(old(View()), t, r)
    {
      alloc := NewMatrix(|queue|, |resources|);
      FillAlloc(alloc);
    }

    method MaxRows() returns (max: DP.Matrix)
      requires Sane(View())
      ensures fresh(max) && Rectangular(max, |queue|, |resources|)
      ensures forall t :: 0 <= t < |queue| ==> fresh(max[t])
      ensures forall t, r :: 0 <= t < |queue| && 0 <= r < |resources| ==> max[t][r] == MaxEntry(old(View()), t, r)
    {
      max := NewMatrix(|queue|, |resources|);
      FillMax(max);
    }

    method NeedRows(max: DP.Matrix, alloc: DP.Matrix) returns (need: DP.Matrix)
      requires Rectangular(max, |queue|, |resources|) && Rectangular(alloc, |queue|, |resources|)
      ensures fresh(need) && Rectangular(need, |queue|, |resources|)
      ensures forall t :: 0 <= t < |queue| ==> fresh(need[t])
      ensures forall t, r :: 0 <= t < |queue| && 0 <= r < |resources| ==>
        need[t][r] == SubWrap(old(max[t][r]), old(alloc[t][r]))
    {
      need := NewMatrix(|queue|, |resources|);
      FillNeed(need, max, alloc);
    }

    /** init_deadlock_structures on freshly allocated structures. */
    method InitStructures() returns (available: array<U32>, alloc: DP.Matrix, need: DP.Matrix)
      requires Sane(View())
      ensures fresh(available) && fresh(alloc) && fresh(need)
      ensures DP.Laid(available, alloc, need, |queue|, |resources|)
      ensures forall t :: 0 <= t < |queue| ==> fresh(alloc[t]) && fresh(need[t])
      ensures DP.View(available, alloc, need) == Rebuilt(old(View()))
    {
      available := new U32[|resources|](_ => 0);
      alloc := AllocRows();
      var max := MaxRows();
      FillAvailable(available);
      need := NeedRows(max, alloc);
      SameRows(DP.View(available, alloc, need), View());
    }

    /** get_current_task_idx_from; the current task is always queued. */
    method CurrentTaskIndex() returns (i: int)
      requires Shaped(View())
      ensures i == IndexOf(queue, current)
    {
      i := -1;
      for t := 0 to |queue|
        invariant current !in queue[..t]
        invariant i == -1
      {
        if queue[t] == current {
          return t;
        }
      }
    }

    /** The answer of the banker's test to one more instance for the current
        task, on structures rebuilt for this call. */
    method TestRequest(x: nat) returns (verdict: Verdict)
      requires Sane(View()) && x < |resources|
      ensures verdict == Request(Rebuilt(old(View())), IndexOf(queue, current), Unit(|resources|, x)).0
    {
      SmartSemRuns.SaneTotals(View());
      var i := CurrentTaskIndex();
      var req := RequestVector(resources[x].rid, |resources|);
      var available, alloc, need := InitStructures();
      verdict := DP.Request(req, i, available, alloc, need, |queue|, |resources|);
    }

    /** sys_sem_try_acquire, sys_sem_try included. */
    method SemTryAcquire(id: int) returns (out: Outcome)
      requires Sane(View()) && id != SEM_MAX
      modifies this, sems
      ensures (View(), out) == TryAcquire(old(View()), id)
    {
      if id < 0 || id > SEM_MAX { return Result(-1); }
      if !sems[id].used { return Result(-1); }
      var x := sems[id].resource.value;
      var verdict := TestRequest(x);
      match verdict {
        case WAIT => return Result(0);
        case WAIT_UNSAFE => return Result(0);
        case SAFE =>
          var before := sems[id].value;
          sems[id] := sems[id].(value := 1);
          if before != 0 { return Panic(BadSafeStatus); }
          resources := resources[x := resources[x].(holder := Some(current), taken := 1)];
          return Result(1);
        case ERROR => return Panic(DeadlockPreventionError);
      }
    }

    /** sys_sem_create with resource_create. */
    method SemCreate() returns (out: Outcome)
      requires Shaped(View())
      modifies this, sems
      ensures (View(), out) == Create(old(View()))
    {
      var i := 0;
      while i < SEM_MAX && sems[i].used
        invariant 0 <= i <= SEM_MAX
        invariant forall j :: 0 <= j < i ==> sems[j].used
      {
        i := i + 1;
      }
      assert i == FirstUnused(sems[..]);
      if i == SEM_MAX { return Result(-1); }
      var slot := 0;
      while slot < TASK_RESOURCE_MAX_AMOUNT && slots[current][slot].Some?
        invariant 0 <= slot <= TASK_RESOURCE_MAX_AMOUNT
        invariant forall j :: 0 <= j < slot ==> slots[current][j].Some?
      {
        slot := slot + 1;
      }
      assert slot == FirstFreeSlot(slots[current]);
      if slot == TASK_RESOURCE_MAX_AMOUNT { return Result(-1); }
      var rid := |resources|;
      slots := slots[current := slots[current][slot := Some(rid)]];
      resources := resources + [Resource(rid, 1, None, 0)];
      sems[i] := sems[i].(used := true, resource := Some(rid));
      return Result(i);
    }

    /** sys_sem_release with resource_deassign; sys_sem_init does the same. */
    method SemRelease(id: int) returns (out: Outcome)
      requires Sane(View()) && id != SEM_MAX
      modifies this, sems
      ensures (View(), out) == Release(old(View()), id)
    {
      if id < 0 || id > SEM_MAX { return Result(-1); }
      if !sems[id].used { return Result(-1); }
      var x := sems[id].resource.value;
      sems[id] := sems[id].(value := 0);
      resources := resources[x := resources[x].(holder := None, taken := 0)];
      return Result(0);
    }

    /** sys_exit, as far as resources are concerned: the slots are emptied one by
        one, and nothing is given back. */
    method ClearSlots()
      requires Shaped(View())
      modifies this`slots
      ensures slots == old(slots)[current := NoSlots()]
    {
      for i := 0 to TASK_RESOURCE_MAX_AMOUNT
        invariant current in slots && |slots[current]| == TASK_RESOURCE_MAX_AMOUNT
        invariant slots == old(slots)[current := slots[current]]
        invariant forall j :: 0 <= j < i ==> slots[current][j] == None
      {
        slots := slots[current := slots[current][i := None]];
      }
      assert slots[current] == NoSlots();
    }

    /** sys_exit, and kernel_schedule taking the zombie out of the queue and
        switching to another task. */
    method Exit(next: Task) returns (out: Outcome)
      requires Shaped(View()) && SmartSemRuns.Possible(View(), SmartSemRuns.Call.Exit(next))
      modifies this
      ensures (View(), out) == Leave(old(View()), next)
    {
      if current == queue[0] { return Panic(InitExits); }
      ClearSlots();
      var i := CurrentTaskIndex();
      queue := queue[..i] + queue[i + 1..];
      current := next;
      return Result(0);
    }
  }

  lemma SameRows(s: State, k: Kernel)
    requires Shaped(k) && WellFormed(s) && |s.alloc| == |k.queue| && |s.available| == |k.resources|
    requires s.available == Rebuilt(k).available
    requires forall t, r :: 0 <= t < |k.queue| && 0 <= r < |k.resources| ==>
      s.alloc[t][r] == AllocEntry(k, t, r) && s.need[t][r] == SubWrap(MaxEntry(k, t, r), AllocEntry(k, t, r))
    ensures s == Rebuilt(k)
  {
    var g := Rebuilt(k);
    forall t | 0 <= t < |k.queue| ensures s.alloc[t] == g.alloc[t] && s.need[t] == g.need[t] { }
    assert s.alloc == g.alloc && s.need == g.need;
  }
}
