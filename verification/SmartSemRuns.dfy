/** What every run of the kernel semaphores keeps: the rebuilt state stays safe,
    semaphore values agree with the resources, and no acquisition that the test
    answers SAFE finds its semaphore taken. */
module SmartSemRuns {
  import opened Basics
  import opened ArrMath
  import opened Banker
  import opened SmartSem

  ghost predicate SameEntry(s: State, s': State, a: nat, r: nat)
    requires WellFormed(s) && WellFormed(s') && |s.alloc| == |s'.alloc| && |s.available| == |s'.available|
    requires a < |s.alloc| && r < |s.available|
  {
    s.available[r] == s'.available[r] && s.alloc[a][r] == s'.alloc[a][r] && s.need[a][r] == s'.need[a][r]
  }

  lemma SameEntries(s: State, s': State)
    requires WellFormed(s) && WellFormed(s') && |s.alloc| == |s'.alloc| && |s.available| == |s'.available|
    requires |s.alloc| > 0 && forall a, r :: 0 <= a < |s.alloc| && 0 <= r < |s.available| ==> SameEntry(s, s', a, r)
    ensures s == s'
  {
    forall r | 0 <= r < |s.available| ensures s.available[r] == s'.available[r] { assert SameEntry(s, s', 0, r); }
    forall a | 0 <= a < |s.alloc| ensures s.alloc[a] == s'.alloc[a] && s.need[a] == s'.need[a] {
      forall r | 0 <= r < |s.available| ensures s.alloc[a][r] == s'.alloc[a][r] && s.need[a][r] == s'.need[a][r] {
        assert SameEntry(s, s', a, r);
      }
    }
    assert s.available == s'.available && s.alloc == s'.alloc && s.need == s'.need;
  }

  /** The matrices depend on nothing but queue, slots and resources. */
  lemma SameMatrices(k: Kernel, k': Kernel)
    requires Shaped(k) && Shaped(k') && k.queue == k'.queue && k.slots == k'.slots && k.resources == k'.resources
    ensures Rebuilt(k) == Rebuilt(k')
  {
    assert k.queue != [];
    SameEntries(Rebuilt(k), Rebuilt(k'));
  }

  // ----------------------------------------------------------- one instance

  lemma {:induction false} HeldBySole(alloc: seq<Vec>, t: nat, j: nat, n: nat)
    requires n <= |alloc| && forall a :: 0 <= a < |alloc| ==> j < |alloc[a]|
    requires forall a :: 0 <= a < n && a != t ==> alloc[a][j] == 0
    ensures Held(alloc, AllTasks(|alloc|), j, n) == if t < n then alloc[t][j] else 0
  {
    if n > 0 { HeldBySole(alloc, t, j, n - 1); }
  }

  /** Free and held instances of every semaphore's resource always sum to one,
      so no word of the banker's test can overflow. */
  lemma OneInstanceEach(k: Kernel, r: nat)
    requires Shaped(k) && SlotsByRid(k) && ResourcesOk(k) && r < |k.resources|
    ensures Total(Rebuilt(k), r) == 1
  {
    var s := Rebuilt(k);
    assert ResourceOk(k, r);
    var t := if k.resources[r].holder.Some? then IndexOf(k.queue, k.resources[r].holder.value) else |k.queue|;
    forall a | 0 <= a < |k.queue| ensures s.alloc[a][r] == if a == t then 1 else 0 {
      RebuiltMeaning(k, a, r);
      if a < t < |k.queue| || t < a { assert t < |k.queue| ==> k.queue[a] != k.queue[t]; }
    }
    HeldBySole(s.alloc, t, r, |s.alloc|);
    RebuiltMeaning(k, 0, r);
  }

  // ------------------------------------------------------------ acquisition

  lemma AssignKeepsShape(k: Kernel, id: int)
    requires Inv(k) && Usable(k, id) && k.slots[k.current][k.sems[id].resource.value].Some?
    ensures Shaped(Assigned(k, id)) && SlotsByRid(Assigned(k, id)) && ResourcesOk(Assigned(k, id))
  {
    var k' := Assigned(k, id);
    forall r | 0 <= r < |k'.resources| ensures ResourceOk(k', r) { assert ResourceOk(k, r); }
  }

  /** The matrices rebuilt after an assignment are the ones request computed. */
  lemma AssignMatchesGrant(k: Kernel, id: int)
    requires Inv(k) && Usable(k, id)
    requires k.resources[k.sems[id].resource.value].holder == None
    requires k.slots[k.current][k.sems[id].resource.value].Some?
    ensures var x := k.sems[id].resource.value;
      var t := IndexOf(k.queue, k.current);
      var u := Unit(|k.resources|, x);
      && Shaped(Assigned(k, id)) && SlotsByRid(Assigned(k, id)) && ResourcesOk(Assigned(k, id))
      && Leq(u, Rebuilt(k).need[t]) && Leq(u, Rebuilt(k).available)
      && Rebuilt(Assigned(k, id)) == Granted(Rebuilt(k), t, u)
  {
    var x := k.sems[id].resource.value;
    var t := IndexOf(k.queue, k.current);
    var u, k', s := Unit(|k.resources|, x), Assigned(k, id), Rebuilt(k);
    AssignKeepsShape(k, id);
    RebuiltMeaning(k, t, x);
    forall a, r | 0 <= a < |k.queue| && 0 <= r < |k.resources| ensures SameEntry(Rebuilt(k'), Granted(s, t, u), a, r) {
      RebuiltMeaning(k, a, r);
      RebuiltMeaning(k', a, r);
      if a != t { assert k.queue[a] != k.queue[t]; }
    }
    SameEntries(Rebuilt(k'), Granted(s, t, u));
  }

  /** A semaphore is acquired exactly when the running task lists it, nobody
      holds it, and the matrices rebuilt after the assignment are safe. */
  lemma AcquireIff(k: Kernel, id: int)
    requires Inv(k) && Usable(k, id)
    ensures var x := k.sems[id].resource.value;
      TryAcquire(k, id).1 == Result(1) <==>
        && k.slots[k.current][x].Some? && k.resources[x].holder == None
        && Shaped(Assigned(k, id)) && IsSafe(Rebuilt(Assigned(k, id)))
  {
    var x := k.sems[id].resource.value;
    TryAcquireMeaning(k, id);
    assert ResourceOk(k, x);
    if k.slots[k.current][x].Some? && k.resources[x].holder == None { AssignMatchesGrant(k, id); }
  }

  lemma AcquireKeepsInv(k: Kernel, id: int)
    requires Inv(k)
    ensures Inv(TryAcquire(k, id).0)
  {
    if Usable(k, id) && TryAcquire(k, id).1 == Result(1) {
      TryAcquireMeaning(k, id);
      AssignMatchesGrant(k, id);
      assert ResourceOk(k, k.sems[id].resource.value);
    } else if Usable(k, id) {
      TryAcquireMeaning(k, id);
    }
  }

  // ---------------------------------------------------------------- release

  lemma UnassignKeepsShape(k: Kernel, id: int)
    requires Inv(k) && Usable(k, id)
    ensures Shaped(Unassigned(k, id)) && SlotsByRid(Unassigned(k, id)) && ResourcesOk(Unassigned(k, id))
  {
    var k' := Unassigned(k, id);
    forall r | 0 <= r < |k'.resources| ensures ResourceOk(k', r) { assert ResourceOk(k, r); }
  }

  /** The matrices rebuilt after a release are those of the abstract release
      that lets the task ask again. */
  lemma UnassignMatchesRelease(k: Kernel, id: int, t: nat)
    requires Inv(k) && Usable(k, id) && t < |k.queue|
    requires k.resources[k.sems[id].resource.value].holder == Some(k.queue[t])
    ensures var u := Unit(|k.resources|, k.sems[id].resource.value);
      && Shaped(Unassigned(k, id)) && Leq(u, Rebuilt(k).alloc[t])
      && Rebuilt(Unassigned(k, id)) == Released(Rebuilt(k), t, u, true)
  {
    var x, k' := k.sems[id].resource.value, Unassigned(k, id);
    UnassignKeepsShape(k, id);
    RebuiltMeaning(k, t, x);
    var u, s := Unit(|k.resources|, x), Rebuilt(k);
    forall a, r | 0 <= a < |k.queue| && 0 <= r < |k.resources|
      ensures SameEntry(Rebuilt(k'), Released(s, t, u, true), a, r)
    {
      RebuiltMeaning(k, a, r);
      RebuiltMeaning(k', a, r);
      if a != t { assert k.queue[a] != k.queue[t]; }
    }
    SameEntries(Rebuilt(k'), Released(s, t, u, true));
  }

  lemma ReleaseKeepsInv(k: Kernel, id: int)
    requires Inv(k)
    ensures Inv(Release(k, id).0)
  {
    if Usable(k, id) {
      var x := k.sems[id].resource.value;
      UnassignKeepsShape(k, id);
      assert ResourceOk(k, x);
      if k.resources[x].holder.Some? {
        var t := IndexOf(k.queue, k.resources[x].holder.value);
        UnassignMatchesRelease(k, id, t);
        ReleaseKeepsSafe(Rebuilt(k), t, Unit(|k.resources|, x), true);
      } else {
        assert Unassigned(k, id).resources == k.resources;
        SameMatrices(k, Unassigned(k, id));
      }
    }
  }

  /** The two kernels differ in no semaphore but id and in no resource but x. */
  predicate SameButFor(k: Kernel, k': Kernel, id: int, x: nat)
  {
    && k'.queue == k.queue && k'.current == k.current && k'.slots == k.slots
    && |k'.sems| == |k.sems| && |k'.resources| == |k.resources|
    && (forall i :: 0 <= i < |k.sems| && i != id ==> k'.sems[i] == k.sems[i])
    && (forall r :: 0 <= r < |k.resources| && r != x ==> k'.resources[r] == k.resources[r])
  }

  /** A release, whoever makes it, frees the semaphore and its resource, and
      changes nothing else; on any other id it fails and changes nothing. */
  lemma ReleaseMeaning(k: Kernel, id: int)
    requires Shaped(k)
    ensures !Usable(k, id) ==> Release(k, id) == (k, Result(-1))
    ensures Usable(k, id) ==>
      var x, (k', out) := k.sems[id].resource.value, Release(k, id);
      && out == Result(0) && SameButFor(k, k', id, x)
      && k'.sems[id] == Semaphore(0, true, Some(x))
      && k'.resources[x] == Resource(k.resources[x].rid, k.resources[x].instances, None, 0)
  {
  }

  /** An acquisition gives the current task the semaphore and its resource, and
      changes nothing else; anything but an acquisition changes nothing. */
  lemma AcquireMeaning(k: Kernel, id: int)
    requires Shaped(k)
    ensures !Usable(k, id) ==> TryAcquire(k, id) == (k, Result(-1))
    ensures Usable(k, id) ==> TryAcquire(k, id).1 in {Result(0), Result(1)} || TryAcquire(k, id).1.Panic?
    ensures TryAcquire(k, id).1 != Result(1) ==> TryAcquire(k, id).0 == k
    ensures TryAcquire(k, id).1 == Result(1) ==>
      Usable(k, id) &&
      var x, k' := k.sems[id].resource.value, TryAcquire(k, id).0;
      && SameButFor(k, k', id, x) && k.sems[id].value == 0
      && k'.sems[id] == Semaphore(1, true, Some(x))
      && k'.resources[x] == Resource(k.resources[x].rid, k.resources[x].instances, Some(k.current), 1)
  {
  }

  /** A release undoes an acquisition. */
  lemma AcquireThenRelease(k: Kernel, id: int)
    requires Inv(k) && TryAcquire(k, id).1 == Result(1)
    ensures Release(TryAcquire(k, id).0, id) == (k, Result(0))
  {
    AcquireMeaning(k, id);
    var x, k' := k.sems[id].resource.value, TryAcquire(k, id).0;
    assert ResourceOk(k, x);
    TryAcquireMeaning(k, id);
    ReleaseMeaning(k', id);
    var r := Release(k', id).0;
    assert r.sems == k.sems;
    assert r.resources == k.resources;
  }

  // --------------------------------------------------------------- creation

  /** A new, free resource that every task may want at most as often as it
      exists leaves every completing order completing. */
  lemma {:induction false} NewColumnCompletes(s: State, s': State, w: Vec, w': Vec, order: seq<nat>)
    requires WellFormed(s) && WellFormed(s') && |s.alloc| == |s'.alloc| && |s'.available| == |s.available| + 1
    requires |w| == |s.available| && |w'| == |w| + 1 && w'[..|w|] == w
    requires forall i :: 0 <= i < |s.alloc| ==>
      s'.alloc[i] == s.alloc[i] + [0] && s'.need[i][..|w|] == s.need[i] && s'.need[i][|w|] <= w'[|w|]
    requires forall k :: 0 <= k < |order| ==> order[k] < |s.alloc|
    requires Completes(s, w, order)
    ensures Completes(s', w', order)
    decreases |order|
  {
    if order != [] {
      var i := order[0];
      assert Leq(s'.need[i], w') by {
        forall j | 0 <= j < |w'| ensures s'.need[i][j] <= w'[j] {
          if j < |w| { assert s'.need[i][..|w|][j] <= w[j]; }
        }
      }
      NewColumnCompletes(s, s', Plus(w, s.alloc[i]), Plus(w', s'.alloc[i]), order[1..]);
    }
  }

  predicate CreateFits(k: Kernel)
    requires k.current in k.slots
  {
    FirstFreeSlot(k.slots[k.current]) == |k.resources|
  }

  /** A successful creation keeps slot number equal to rid exactly when the
      creating task's first free slot is the number of resources so far. */
  lemma CreateKeepsSlotsIff(k: Kernel)
    requires Inv(k) && Create(k).1 != Result(-1) && Shaped(Create(k).0)
    ensures SlotsByRid(Create(k).0) <==> CreateFits(k)
  {
    var slot, rid := FirstFreeSlot(k.slots[k.current]), |k.resources|;
    assert Create(k).0.slots[k.current][slot] == Some(rid);
  }

  /** A creation takes an unused semaphore and the creator's first free slot for
      a new resource that nobody holds, and changes nothing else; it fails exactly
      when there is no such semaphore or no such slot. */
  lemma CreateMeaning(k: Kernel)
    requires Shaped(k)
    ensures Create(k) == (k, Result(-1)) <==>
      (forall i :: 0 <= i < |k.sems| ==> k.sems[i].used) || (forall j :: 0 <= j < 32 ==> k.slots[k.current][j].Some?)
    ensures Create(k) != (k, Result(-1)) ==>
      exists id, j :: 0 <= id < |k.sems| && 0 <= j < 32 && Creates(k, Create(k), id, j)
  {
    var id, j := FirstUnused(k.sems), FirstFreeSlot(k.slots[k.current]);
    if id < |k.sems| && j < 32 {
      assert !k.sems[id].used && k.slots[k.current][j].None?;
      assert Creates(k, Create(k), id, j);
    } else if id == |k.sems| {
      assert forall i :: 0 <= i < |k.sems| ==> k.sems[i].used;
    }
  }

  predicate Creates(k: Kernel, r: (Kernel, Outcome), id: nat, j: nat)
    requires k.current in k.slots && id < |k.sems| && j < |k.slots[k.current]|
  {
    var k' := r.0;
    && r.1 == Result(id) && !k.sems[id].used && k.slots[k.current][j].None?
    && (forall i :: 0 <= i < id ==> k.sems[i].used) && (forall i :: 0 <= i < j ==> k.slots[k.current][i].Some?)
    && k'.queue == k.queue && k'.current == k.current
    && k'.sems == k.sems[id := Semaphore(k.sems[id].value, true, Some(|k.resources|))]
    && k'.slots == k.slots[k.current := k.slots[k.current][j := Some(|k.resources|)]]
    && k'.resources == k.resources + [Resource(|k.resources|, 1, None, 0)]
  }

  lemma CreateKeepsInv(k: Kernel)
    requires Inv(k) && CreateFits(k)
    ensures Inv(Create(k).0)
  {
    var k' := Create(k).0;
    if Create(k).1 != Result(-1) {
      assert Shaped(k');
      CreateKeepsSlotsIff(k);
      forall r | 0 <= r < |k'.resources| ensures ResourceOk(k', r) {
        if r < |k.resources| { assert ResourceOk(k, r); }
      }
      CreateKeepsSafe(k);
    }
  }

  lemma CreateKeepsSafe(k: Kernel)
    requires Inv(k) && CreateFits(k) && Create(k).1 != Result(-1)
    requires Shaped(Create(k).0) && SlotsByRid(Create(k).0) && ResourcesOk(Create(k).0)
    ensures IsSafe(Rebuilt(Create(k).0))
  {
    var k' := Create(k).0;
    var s, s', m := Rebuilt(k), Rebuilt(k'), |k.resources|;
    forall a | 0 <= a < |k.queue|
      ensures s'.alloc[a] == s.alloc[a] + [0] && s'.need[a][..m] == s.need[a] && s'.need[a][m] <= 1
    {
      forall r | 0 <= r < m ensures s'.alloc[a][r] == s.alloc[a][r] && s'.need[a][r] == s.need[a][r] {
        RebuiltMeaning(k, a, r);
        RebuiltMeaning(k', a, r);
      }
      RebuiltMeaning(k', a, m);
    }
    var order :| TaskOrder(order, |s.alloc|) && Completes(s, s.available, order);
    assert s'.available[..m] == s.available;
    if |k.queue| > 0 { RebuiltMeaning(k', 0, m); }
    NewColumnCompletes(s, s', s.available, s'.available, order);
  }

  // ---------------------------------------------------------- a forked task

  /** Rows beyond those an order names do not matter to it. */
  lemma {:induction false} NewRowCompletes(s: State, s': State, w: Vec, order: seq<nat>)
    requires WellFormed(s) && WellFormed(s') && |w| == |s.available| == |s'.available|
    requires |s.alloc| <= |s'.alloc| && s'.alloc[..|s.alloc|] == s.alloc && s'.need[..|s.need|] == s.need
    requires forall k :: 0 <= k < |order| ==> order[k] < |s.alloc|
    requires Completes(s, w, order)
    ensures Completes(s', w, order)
    decreases |order|
  {
    if order != [] {
      assert s'.alloc[..|s.alloc|][order[0]] == s.alloc[order[0]] && s'.need[..|s.need|][order[0]] == s.need[order[0]];
      NewRowCompletes(s, s', Plus(w, s.alloc[order[0]]), order[1..]);
    }
  }

  lemma {:induction false} HeldAtLeast(alloc: seq<Vec>, who: set<nat>, i: nat, j: nat, n: nat)
    requires n <= |alloc| && forall a :: 0 <= a < |alloc| ==> j < |alloc[a]|
    requires i < n && i in who
    ensures Held(alloc, who, j, n) >= alloc[i][j]
  {
    if i < n - 1 { HeldAtLeast(alloc, who, i, j, n - 1); }
  }

  lemma ForkKeepsShape(k: Kernel, child: Task)
    requires Inv(k) && child !in k.queue
    ensures var k' := Fork(k, child); Shaped(k') && SlotsByRid(k') && ResourcesOk(k') && SemsOk(k')
  {
    var k' := Fork(k, child);
    assert forall t :: t in k'.queue <==> t in k.queue || t == child;
    forall r | 0 <= r < |k'.resources| ensures ResourceOk(k', r) { assert ResourceOk(k, r); }
  }

  lemma ForkRows(k: Kernel, child: Task)
    requires Inv(k) && child !in k.queue && Shaped(Fork(k, child)) && SlotsByRid(Fork(k, child)) &&
      ResourcesOk(Fork(k, child))
    ensures var s, s', n := Rebuilt(k), Rebuilt(Fork(k, child)), |k.queue|;
      s'.available == s.available && s'.alloc[..n] == s.alloc && s'.need[..n] == s.need
  {
    var k' := Fork(k, child);
    var s, s', n := Rebuilt(k), Rebuilt(k'), |k.queue|;
    forall a | 0 <= a < n ensures s'.alloc[a] == s.alloc[a] && s'.need[a] == s.need[a] {
      forall r | 0 <= r < |k.resources| ensures s'.alloc[a][r] == s.alloc[a][r] && s'.need[a][r] == s.need[a][r] {
        RebuiltMeaning(k, a, r);
        RebuiltMeaning(k', a, r);
      }
    }
  }

  lemma EveryInstanceSeen(k: Kernel, k': Kernel, order: seq<nat>, j: nat)
    requires Inv(k) && Shaped(k') && ResourcesOk(k') && SlotsByRid(k') && j < |k.resources|
    requires k'.resources == k.resources && |k'.queue| == |k.queue| + 1 && k'.queue[..|k.queue|] == k.queue
    requires TaskOrder(order, |k.queue|)
    ensures var s' := Rebuilt(k'); s'.available[j] + Held(s'.alloc, Members(order), j, |k'.queue|) >= 1
  {
    var s' := Rebuilt(k');
    assert ResourceOk(k, j);
    if k.resources[j].holder.Some? {
      var t := IndexOf(k.queue, k.resources[j].holder.value);
      assert k'.queue[..|k.queue|][t] == k'.queue[t];
      RebuiltMeaning(k', t, j);
      OrderCovers(order, |k.queue|, t);
      HeldAtLeast(s'.alloc, Members(order), t, j, |k'.queue|);
    } else {
      RebuiltMeaning(k', 0, j);
    }
  }

  /** After all older tasks have finished the new one finds all it may need. */
  lemma ForkedTaskFits(k: Kernel, child: Task, order: seq<nat>) returns (work: Vec)
    requires Inv(k) && child !in k.queue && TaskOrder(order, |k.queue|)
    requires Shaped(Fork(k, child)) && SlotsByRid(Fork(k, child)) && ResourcesOk(Fork(k, child))
    ensures WorkAfter(Rebuilt(Fork(k, child)), Members(order), work)
    ensures Leq(Rebuilt(Fork(k, child)).need[|k.queue|], work)
  {
    var k' := Fork(k, child);
    var s', n := Rebuilt(k'), |k.queue|;
    work := seq(|s'.available|, j requires 0 <= j < |s'.available| =>
      s'.available[j] + Held(s'.alloc, Members(order), j, n + 1));
    forall j | 0 <= j < |work| ensures s'.need[n][j] <= work[j] {
      EveryInstanceSeen(k, k', order, j);
      RebuiltMeaning(k', n, j);
    }
  }

  /** A fork adds the child at the end of the queue, with the slots its parent
      has, and changes nothing else; the parent goes on running. */
  lemma ForkMeaning(k: Kernel, child: Task)
    requires Shaped(k) && child !in k.queue
    ensures var k' := Fork(k, child);
      && k'.current == k.current && k'.resources == k.resources && k'.sems == k.sems
      && |k'.queue| == |k.queue| + 1 && k'.queue[..|k.queue|] == k.queue && k'.queue[|k.queue|] == child
      && child in k'.slots && k'.slots[child] == k.slots[k.current]
      && forall t :: t in k.queue ==> t in k'.slots && k'.slots[t] == k.slots[t]
  {
  }

  lemma ForkKeepsInv(k: Kernel, child: Task)
    requires Inv(k) && child !in k.queue
    ensures Inv(Fork(k, child))
  {
    ForkKeepsShape(k, child);
    ForkRows(k, child);
    var s, s', n := Rebuilt(k), Rebuilt(Fork(k, child)), |k.queue|;
    var order :| TaskOrder(order, n) && Completes(s, s.available, order);
    NewRowCompletes(s, s', s.available, order);
    var work := ForkedTaskFits(k, child, order);
    WorkAfterNone(s');
    assert {} + Members(order) == Members(order);
    CompletesAppend(s', s'.available, {}, order, work, n);
    assert TaskOrder(order + [n], n + 1);
  }

  // -------------------------------------------------------------- task exit

  predicate HoldsNothing(k: Kernel, t: Task)
  {
    forall r :: 0 <= r < |k.resources| ==> k.resources[r].holder != Some(t)
  }

  /** The current task is not init, and another one can run next. */
  predicate CanExit(k: Kernel, next: Task)
  {
    next in k.queue && next != k.current && k.current != Init(k)
  }

  /** Some other queued task lists resource r, which the current task holds. */
  predicate TakesAlong(k: Kernel, r: nat, t: Task)
  {
    && r < |k.resources| && k.resources[r].holder == Some(k.current)
    && t in k.queue && t != k.current && t in k.slots && r < |k.slots[t]| && k.slots[t][r].Some?
  }

  lemma GoneMembers(queue: seq<Task>, t: Task)
    requires t in queue && forall a, b :: 0 <= a < b < |queue| ==> queue[a] != queue[b]
    ensures forall x :: x in Gone(queue, t) <==> x in queue && x != t
    ensures forall a, b :: 0 <= a < b < |Gone(queue, t)| ==> Gone(queue, t)[a] != Gone(queue, t)[b]
    ensures t != queue[0] ==> Gone(queue, t) != [] && Gone(queue, t)[0] == queue[0]
  {
    var i, g := IndexOf(queue, t), Gone(queue, t);
    assert forall a :: 0 <= a < |g| ==> g[a] == queue[if a < i then a else a + 1];
    forall x | x in queue && x != t ensures x in g {
      var a :| 0 <= a < |queue| && queue[a] == x;
      assert g[if a < i then a else a - 1] == x;
    }
  }

  /** An exit takes the task out of the queue, the others in their order, and
      empties its slots; resources and semaphores stay as they are, held or not.
      For init it panics, and nothing changes. */
  lemma ExitMeaning(k: Kernel, next: Task)
    requires Shaped(k)
    ensures k.current == Init(k) ==> Leave(k, next) == (k, Panic(InitExits))
    ensures k.current != Init(k) ==>
      var (k', out) := Leave(k, next);
      && out == Result(0) && k'.current == next && k'.resources == k.resources && k'.sems == k.sems
      && k.current !in k'.queue && (forall t :: t in k.queue && t != k.current ==> t in k'.queue)
      && (exists i :: 0 <= i < |k.queue| && k'.queue == k.queue[..i] + k.queue[i + 1..])
      && k'.slots.Keys == k.slots.Keys
      && (forall t :: t in k.slots && t != k.current ==> k'.slots[t] == k.slots[t])
      && |k'.slots[k.current]| == 32 && forall j :: 0 <= j < 32 ==> k'.slots[k.current][j].None?
  {
    GoneMembers(k.queue, k.current);
    var i := IndexOf(k.queue, k.current);
    assert Gone(k.queue, k.current) == k.queue[..i] + k.queue[i + 1..];
  }

  lemma ExitKeepsShape(k: Kernel, next: Task)
    requires Inv(k) && CanExit(k, next)
    ensures var k' := Exited(k, next); Shaped(k') && SlotsByRid(k') && SemsOk(k')
  {
    GoneMembers(k.queue, k.current);
  }

  lemma ExitQueue(k: Kernel, next: Task)
    requires Shaped(k) && CanExit(k, next) && Shaped(Exited(k, next))
    ensures Exited(k, next).resources == k.resources && |Exited(k, next).queue| == |k.queue| - 1 > 0
  {
    assert next in Exited(k, next).queue;
  }

  lemma ExitEntry(k: Kernel, next: Task, a: nat, r: nat)
    requires Shaped(k) && CanExit(k, next) && Shaped(Exited(k, next)) && a < |k.queue| - 1 && r < |k.resources|
    ensures var s, s' := Rebuilt(k), Rebuilt(Exited(k, next));
      var b := if a < IndexOf(k.queue, k.current) then a else a + 1;
      s'.available[r] == s.available[r] && s'.alloc[a][r] == s.alloc[b][r] && s'.need[a][r] == s.need[b][r]
  {
    hide SubWrap;
    var k', i := Exited(k, next), IndexOf(k.queue, k.current);
    var b := if a < i then a else a + 1;
    assert k'.queue[a] == k.queue[b] != k.current;
    assert AllocEntry(k', a, r) == AllocEntry(k, b, r) && MaxEntry(k', a, r) == MaxEntry(k, b, r);
  }

  /** The matrices rebuilt after an exit are the old ones without a row. */
  lemma ExitDropsRow(k: Kernel, next: Task)
    requires Shaped(k) && CanExit(k, next) && Shaped(Exited(k, next))
    ensures Rebuilt(Exited(k, next)) == WithoutRow(Rebuilt(k), IndexOf(k.queue, k.current))
  {
    hide Rebuilt; hide Exited;
    var i := IndexOf(k.queue, k.current);
    var s, s' := Rebuilt(k), Rebuilt(Exited(k, next));
    var g := WithoutRow(s, i);
    ExitQueue(k, next);
    forall a, r | 0 <= a < |s'.alloc| && 0 <= r < |s.available| ensures SameEntry(s', g, a, r) {
      RowOfOther(s, i, if a < i then a else a + 1);
      ExitEntry(k, next, a, r);
    }
    SameEntries(s', g);
  }

  /** The invariant survives an exit exactly when the task holds nothing. */
  lemma ExitKeepsInvIff(k: Kernel, next: Task)
    requires Inv(k) && CanExit(k, next)
    ensures Inv(Exited(k, next)) <==> HoldsNothing(k, k.current)
  {
    var k' := Exited(k, next);
    ExitKeepsShape(k, next);
    GoneMembers(k.queue, k.current);
    if HoldsNothing(k, k.current) {
      forall r | 0 <= r < |k'.resources| ensures ResourceOk(k', r) { assert ResourceOk(k, r); }
      ExitKeepsSafeIff(k, next);
    } else {
      var r :| 0 <= r < |k.resources| && k.resources[r].holder == Some(k.current);
      assert !ResourceOk(k', r);
    }
  }

  /** Safety alone survives exactly when nobody left lists a resource that the
      exiting task holds. */
  lemma ExitKeepsSafeIff(k: Kernel, next: Task)
    requires Inv(k) && CanExit(k, next)
    ensures Shaped(Exited(k, next))
    ensures IsSafe(Rebuilt(Exited(k, next))) <==> !exists r, t :: TakesAlong(k, r, t)
  {
    ExitKeepsShape(k, next);
    ExitDropsRow(k, next);
    if r, t :| TakesAlong(k, r, t) { ExitTakesAlong(k, r, t); } else { ExitTakesNothing(k); }
  }

  lemma ExitTakesNothing(k: Kernel)
    requires Inv(k) && forall r, t :: !TakesAlong(k, r, t)
    ensures var i := IndexOf(k.queue, k.current);
      WellFormed(WithoutRow(Rebuilt(k), i)) && IsSafe(WithoutRow(Rebuilt(k), i))
  {
    var i, s := IndexOf(k.queue, k.current), Rebuilt(k);
    forall a, r | 0 <= a < |s.alloc| && a != i && 0 <= r < |s.available| && s.alloc[i][r] > 0
      ensures s.need[a][r] == 0
    {
      RebuiltMeaning(k, i, r);
      RebuiltMeaning(k, a, r);
      assert k.queue[a] != k.queue[i];
      assert !TakesAlong(k, r, k.queue[a]);
    }
    LeavingKeepsSafe(s, i);
  }

  lemma OthersDoNotHold(k: Kernel, r: nat, b: nat)
    requires Inv(k) && r < |k.resources| && k.resources[r].holder == Some(k.current)
    requires b < |k.queue| && b != IndexOf(k.queue, k.current)
    ensures var s := Rebuilt(k);
      s.available[r] == 0 && s.alloc[b][r] == 0 && (k.slots[k.queue[b]][r].Some? ==> s.need[b][r] == 1)
  {
    RebuiltMeaning(k, b, r);
    assert k.queue[b] != k.queue[IndexOf(k.queue, k.current)];
  }

  lemma ExitTakesAlong(k: Kernel, r: nat, t: Task)
    requires Inv(k) && TakesAlong(k, r, t)
    ensures var i := IndexOf(k.queue, k.current);
      WellFormed(WithoutRow(Rebuilt(k), i)) && !IsSafe(WithoutRow(Rebuilt(k), i))
  {
    hide Rebuilt; hide IsSafe;
    var i, s, a := IndexOf(k.queue, k.current), Rebuilt(k), IndexOf(k.queue, t);
    var g := WithoutRow(s, i);
    RowOfOther(s, i, a);
    OthersDoNotHold(k, r, a);
    forall b | 0 <= b < |g.alloc| ensures g.alloc[b][r] == 0 {
      var c := if b < i then b else b + 1;
      RowOfOther(s, i, c);
      OthersDoNotHold(k, r, c);
    }
    LostResourceUnsafe(g, r, Renumbered(a, i));
  }

  /** Whichever task runs, it acquires nothing. */
  ghost predicate NobodyAcquires(k: Kernel)
    requires Shaped(k)
  {
    forall u, id: int :: u in k.queue ==> TryAcquire(k.(current := u), id).1 != Result(1)
  }

  /** And where it does not, no task acquires any semaphore at all. */
  lemma NothingAcquiredWhenUnsafe(k: Kernel, id: int)
    requires Shaped(k) && !IsSafe(Rebuilt(k))
    ensures TryAcquire(k, id).1 != Result(1)
  {
    if Usable(k, id) {
      var column := k.resources[k.sems[id].resource.value].rid;
      NothingGrantedWhenUnsafe(Rebuilt(k), IndexOf(k.queue, k.current), Unit(|k.resources|, column));
    }
  }

  lemma ExitWithListedStops(k: Kernel, next: Task, r: nat, t: Task)
    requires Inv(k) && CanExit(k, next) && TakesAlong(k, r, t)
    ensures Shaped(Exited(k, next))
    ensures NobodyAcquires(Exited(k, next))
  {
    var k' := Exited(k, next);
    ExitKeepsSafeIff(k, next);
    forall u, id: int | u in k'.queue ensures TryAcquire(k'.(current := u), id).1 != Result(1) {
      SameMatrices(k', k'.(current := u));
      NothingAcquiredWhenUnsafe(k'.(current := u), id);
    }
  }

  /** Releasing the one semaphore the dead task held, which any task may do, mends it. */
  lemma ReleaseMendsExit(k: Kernel, next: Task, id: int)
    requires Inv(k) && CanExit(k, next) && Usable(k, id)
    requires forall r :: 0 <= r < |k.resources| ==>
      (k.resources[r].holder == Some(k.current) <==> r == k.sems[id].resource.value)
    ensures Inv(Release(Exited(k, next), id).0)
  {
    var k' := Release(k, id).0;
    ReleaseKeepsInv(k, id);
    ExitKeepsInvIff(k', next);
    assert Release(Exited(k, next), id).0 == Exited(k', next);
  }

  // ------------------------------------------------------------------- runs

  datatype Call =
    | SemCreate
    | SemInit(id: int)
    | SemTryAcquire(id: int)
    | SemRelease(id: int)
    | Vfork(child: Task)
    | Switch(task: Task)
    | Exit(next: Task)

  /** Calls the kernel has an answer to: as long as there are no more resources
      than slots, forks of a fresh task, switches to a queued one, exits with
      another task to run next, of init too, and any semaphore call at all. */
  predicate Possible(k: Kernel, c: Call)
    requires k.current in k.slots
  {
    match c
    case SemCreate => |k.resources| < TASK_RESOURCE_MAX_AMOUNT || CreateFits(k)
    case Vfork(child) => child !in k.queue
    case Switch(task) => task in k.queue
    case Exit(next) => k.queue != [] && (k.current == Init(k) || CanExit(k, next))
    case _ => true
  }

  /** Of these, the creations that keep slot number equal to rid, and the exits
      of a task that holds nothing. */
  predicate Allowed(k: Kernel, c: Call)
    requires k.current in k.slots
  {
    && Possible(k, c)
    && (c.SemCreate? ==> CreateFits(k))
    && (c.Exit? ==> k.current == Init(k) || HoldsNothing(k, k.current))
  }

  ghost function Step(k: Kernel, c: Call): (r: (Kernel, Outcome))
    requires Shaped(k) && Possible(k, c)
    ensures Shaped(r.0)
  {
    match c
    case SemCreate => Create(k)
    case SemInit(id) => Release(k, id)
    case SemTryAcquire(id) => TryAcquire(k, id)
    case SemRelease(id) => Release(k, id)
    case Vfork(child) => (Fork(k, child), Result(0))
    case Switch(task) => (k.(current := task), Result(0))
    case Exit(next) => GoneMembers(k.queue, k.current); Leave(k, next)
  }

  lemma StepKeepsInv(k: Kernel, c: Call)
    requires Inv(k) && Allowed(k, c)
    ensures Inv(Step(k, c).0)
    ensures Step(k, c).1 != Panic(BadSafeStatus)
  {
    match c
    case SemCreate => CreateKeepsInv(k);
    case SemInit(id) => ReleaseKeepsInv(k, id);
    case SemTryAcquire(id) =>
      AcquireKeepsInv(k, id);
      if Usable(k, id) { TryAcquireMeaning(k, id); }
    case SemRelease(id) => ReleaseKeepsInv(k, id);
    case Vfork(child) => ForkKeepsInv(k, child);
    case Switch(task) => SwitchKeepsInv(k, task);
    case Exit(next) => if k.current != Init(k) { ExitKeepsInvIff(k, next); }
  }

  lemma SwitchKeepsInv(k: Kernel, task: Task)
    requires Inv(k) && task in k.queue
    ensures Inv(k.(current := task))
  {
    var k' := k.(current := task);
    forall r | 0 <= r < |k'.resources| ensures ResourceOk(k', r) { assert ResourceOk(k, r); }
    SameMatrices(k, k');
  }

  /** The kernel at boot: init alone, nothing created. */
  function Boot(first: Task): Kernel
  {
    Kernel([first], first, map[first := NoSlots()], [],
           seq(SEM_MAX, _ => Semaphore(0, false, None)))
  }

  lemma BootInv(first: Task)
    ensures Inv(Boot(first))
  {
    NeedWithinAvailableIsSafe(Rebuilt(Boot(first)));
  }

  /** Every call keeps the tables sane, and init first in the queue. */
  lemma StepKeepsSane(k: Kernel, c: Call)
    requires Sane(k) && Possible(k, c)
    ensures Sane(Step(k, c).0) && Init(Step(k, c).0) == Init(k)
  {
    match c
    case SemCreate => CreateKeepsSane(k);
    case Vfork(child) => assert forall t :: t in Fork(k, child).queue ==> t in k.queue || t == child;
    case Exit(next) => GoneMembers(k.queue, k.current);
    case SemInit(id) => AssigningKeepsSane(k, id);
    case SemTryAcquire(id) => AssigningKeepsSane(k, id);
    case SemRelease(id) => AssigningKeepsSane(k, id);
    case Switch(_) =>
  }

  lemma AssigningKeepsSane(k: Kernel, id: int)
    requires Sane(k)
    ensures Sane(Release(k, id).0) && Sane(TryAcquire(k, id).0)
    ensures Release(k, id).0.queue == TryAcquire(k, id).0.queue == k.queue
  {
    if Usable(k, id) {
      AssignedIsSane(k, id);
      assert TryAcquire(k, id).0 == k || TryAcquire(k, id).0 == Assigned(k, id);
    }
  }

  lemma AssignedIsSane(k: Kernel, id: int)
    requires Sane(k) && Usable(k, id)
    ensures Sane(Assigned(k, id)) && Sane(Unassigned(k, id))
  {
  }

  lemma CreateKeepsSane(k: Kernel)
    requires Sane(k) && Possible(k, SemCreate)
    ensures Sane(Create(k).0)
  {
  }

  /** On sane tables a SAFE answer is given for a free semaphore only. */
  lemma SafeMeansFree(k: Kernel, id: int)
    requires Sane(k)
    ensures TryAcquire(k, id).1 != Panic(BadSafeStatus)
  {
    if Usable(k, id) {
      var x := k.sems[id].resource.value;
      assert Leq(Unit(|k.resources|, x), Rebuilt(k).available) ==> 1 <= Rebuilt(k).available[x] by {
        assert Unit(|k.resources|, x)[x] == 1;
      }
    }
  }

  lemma SaneTotals(k: Kernel)
    requires Sane(k)
    ensures FitsWord(Rebuilt(k))
  {
    var s := Rebuilt(k);
    forall r | 0 <= r < |k.resources| ensures Total(s, r) < WORD {
      var x := k.resources[r].holder;
      var t := if x.Some? && x.value in k.queue then IndexOf(k.queue, x.value) else |k.queue|;
      forall a | 0 <= a < |k.queue| && a != t ensures s.alloc[a][r] == 0 {
        if t < |k.queue| { assert k.queue[a] != k.queue[t]; }
      }
      HeldBySole(s.alloc, t, r, |s.alloc|);
    }
  }

  /** Every call of the list is one the kernel has an answer to when its turn comes. */
  ghost predicate PossibleRun(k: Kernel, calls: seq<Call>)
    requires Shaped(k)
    decreases |calls|
  {
    calls == [] || (Possible(k, calls[0]) && PossibleRun(Step(k, calls[0]).0, calls[1..]))
  }

  /** Every call of the list is allowed when its turn comes. */
  ghost predicate Legal(k: Kernel, calls: seq<Call>)
    requires Shaped(k)
    ensures Legal(k, calls) ==> PossibleRun(k, calls)
    decreases |calls|
  {
    calls == [] || (Allowed(k, calls[0]) && Legal(Step(k, calls[0]).0, calls[1..]))
  }

  ghost function After(k: Kernel, calls: seq<Call>): (r: Kernel)
    requires Shaped(k) && PossibleRun(k, calls)
    ensures Shaped(r)
    decreases |calls|
  {
    if calls == [] then k else After(Step(k, calls[0]).0, calls[1..])
  }

  /** Runs of any calls at all keep the tables sane: init stays queued, no total
      of the banker's test reaches 2^32, and no call made there panics over a SAFE
      answer for a semaphore already taken. */
  lemma {:induction false} RunKeepsSane(k: Kernel, calls: seq<Call>)
    requires Sane(k) && PossibleRun(k, calls)
    ensures Sane(After(k, calls)) && Init(After(k, calls)) == Init(k) && FitsWord(Rebuilt(After(k, calls)))
    ensures forall c: Call :: Possible(After(k, calls), c) ==> Step(After(k, calls), c).1 != Panic(BadSafeStatus)
    decreases |calls|
  {
    if calls == [] {
      SaneTotals(k);
      forall c: Call | Possible(k, c) ensures Step(k, c).1 != Panic(BadSafeStatus) {
        if c.SemTryAcquire? { SafeMeansFree(k, c.id); }
      }
    } else {
      StepKeepsSane(k, calls[0]);
      RunKeepsSane(Step(k, calls[0]).0, calls[1..]);
    }
  }

  lemma SaneFromBoot(first: Task, calls: seq<Call>)
    requires Shaped(Boot(first)) && PossibleRun(Boot(first), calls)
    ensures var k := After(Boot(first), calls);
      && Sane(k) && Init(k) == first && FitsWord(Rebuilt(k))
      && forall c: Call :: Possible(k, c) ==> Step(k, c).1 != Panic(BadSafeStatus)
  {
    BootInv(first);
    InvIsSane(Boot(first));
    RunKeepsSane(Boot(first), calls);
  }

  /** Every state that any run of allowed calls reaches keeps the invariant, and
      no call at all panics there over a SAFE answer for a taken semaphore. */
  lemma {:induction false} RunKeepsInv(k: Kernel, calls: seq<Call>)
    requires Inv(k) && Legal(k, calls)
    ensures Inv(After(k, calls))
    ensures forall c: Call :: Possible(After(k, calls), c) ==> Step(After(k, calls), c).1 != Panic(BadSafeStatus)
    decreases |calls|
  {
    if calls == [] {
      InvIsSane(k);
      RunKeepsSane(k, []);
    } else {
      StepKeepsInv(k, calls[0]);
      RunKeepsInv(Step(k, calls[0]).0, calls[1..]);
    }
  }

  lemma RunFromBoot(first: Task, calls: seq<Call>)
    requires Legal(Boot(first), calls)
    ensures Inv(After(Boot(first), calls))
    ensures forall c: Call :: Possible(After(Boot(first), calls), c) ==>
      Step(After(Boot(first), calls), c).1 != Panic(BadSafeStatus)
  {
    BootInv(first);
    RunKeepsInv(Boot(first), calls);
  }

  /** Task t lists the semaphore's resource and does not hold it. */
  predicate Wants(k: Kernel, t: Task, id: int)
    requires Usable(k, id) && t in k.slots
  {
    var x := k.sems[id].resource.value;
    x < |k.slots[t]| && k.slots[t][x].Some? && k.resources[x].holder != Some(t)
  }

  lemma ServedTaskAcquires(k: Kernel, i: nat, id: int)
    requires Inv(k) && i < |k.queue| && ServedInFull(Rebuilt(k), i) && Usable(k, id) && Wants(k, k.queue[i], id)
    ensures TryAcquire(k.(current := k.queue[i]), id).1 == Result(1)
  {
    var x, k' := k.sems[id].resource.value, k.(current := k.queue[i]);
    SwitchKeepsInv(k, k.queue[i]);
    SameMatrices(k, k');
    assert ResourceOk(k, x);
    RebuiltMeaning(k, i, x);
    assert IndexOf(k.queue, k.queue[i]) == i;
    assert Leq(Unit(|k.resources|, x), Rebuilt(k).need[i]);
    TryAcquireMeaning(k', id);
  }

  /** Once current, the task acquires any semaphore it lists and does not hold. */
  ghost predicate AcquiresAll(k: Kernel, t: Task)
    requires Shaped(k) && t in k.queue
  {
    forall id: int :: Usable(k, id) && Wants(k, t, id) ==> TryAcquire(k.(current := t), id).1 == Result(1)
  }

  /** `who` has a queued task in it, and every task that holds something. */
  ghost predicate HoldersAmong(k: Kernel, who: set<Task>)
  {
    && (exists t :: t in who && t in k.queue)
    && (forall r :: 0 <= r < |k.resources| && k.resources[r].holder.Some? ==> k.resources[r].holder.value in who)
  }

  lemma HoldersByNumber(k: Kernel, who: set<Task>) returns (rows: set<nat>)
    requires Inv(k) && HoldersAmong(k, who)
    ensures HoldersIn(Rebuilt(k), rows) && forall i: nat :: i in rows ==> i < |k.queue| && k.queue[i] in who
  {
    rows := set i: nat | i in AllTasks(|k.queue|) && k.queue[i] in who;
    var s := Rebuilt(k);
    var t :| t in who && t in k.queue;
    assert IndexOf(k.queue, t) in rows;
    forall a: nat | a < |s.alloc| && a !in rows ensures Idle(s, a) {
      forall r | 0 <= r < |s.available| ensures s.alloc[a][r] == 0 { RebuiltMeaning(k, a, r); }
    }
  }

  lemma ServedAcquiresAll(k: Kernel, i: nat)
    requires Inv(k) && i < |k.queue| && ServedInFull(Rebuilt(k), i)
    ensures AcquiresAll(k, k.queue[i])
  {
    forall id: int | Usable(k, id) && Wants(k, k.queue[i], id)
      ensures TryAcquire(k.(current := k.queue[i]), id).1 == Result(1)
    {
      ServedTaskAcquires(k, i, id);
    }
  }

  /** No state of a run is deadlocked: among any tasks that include all holders
      some queued task acquires all it wants. */
  lemma SomeTaskAcquires(k: Kernel, who: set<Task>)
    requires Inv(k) && HoldersAmong(k, who)
    ensures exists t :: t in who && t in k.queue && AcquiresAll(k, t)
  {
    hide ServedInFull; hide AcquiresAll;
    var rows := HoldersByNumber(k, who);
    SafeStateServesSomeTask(Rebuilt(k), rows);
    var i: nat :| i in rows && i < |k.queue| && ServedInFull(Rebuilt(k), i);
    ServedAcquiresAll(k, i);
    assert k.queue[i] in who && AcquiresAll(k, k.queue[i]);
  }

  /** Where something is held, some holder acquires all it wants besides. */
  lemma SomeHolderAcquires(k: Kernel, r: nat)
    requires Inv(k) && r < |k.resources| && k.resources[r].holder.Some?
    ensures exists t :: t in k.queue && !HoldsNothing(k, t) && AcquiresAll(k, t)
  {
    hide AcquiresAll;
    var who := set t | t in k.queue && !HoldsNothing(k, t);
    forall x | 0 <= x < |k.resources| && k.resources[x].holder.Some? ensures k.resources[x].holder.value in who {
      assert ResourceOk(k, x);
    }
    assert k.resources[r].holder.value in who;
    SomeTaskAcquires(k, who);
  }

  /** Where nothing is held, every task acquires any semaphore it lists. */
  lemma EachAcquiresWhenFree(k: Kernel, t: Task)
    requires Inv(k) && t in k.queue && forall r :: 0 <= r < |k.resources| ==> k.resources[r].holder.None?
    ensures AcquiresAll(k, t)
  {
    hide AcquiresAll;
    SomeTaskAcquires(k, {t});
  }

  /** A released semaphore is there to be taken: where nothing else is held, any
      task that lists it acquires it next. */
  lemma ReleasedIsAcquired(k: Kernel, id: int, t: Task)
    requires Inv(k) && Usable(k, id) && t in k.queue && k.slots[t][k.sems[id].resource.value].Some?
    requires forall r :: 0 <= r < |k.resources| && r != k.sems[id].resource.value ==> k.resources[r].holder.None?
    ensures Shaped(Release(k, id).0) && TryAcquire(Release(k, id).0.(current := t), id).1 == Result(1)
  {
    ReleaseMeaning(k, id);
    ReleaseKeepsInv(k, id);
    var k' := Release(k, id).0;
    EachAcquiresWhenFree(k', t);
    assert Usable(k', id) && Wants(k', t, id);
  }

  // -------------------------------------------------------- mutual exclusion

  predicate Frees(c: Call, id: int)
  {
    c == SemInit(id) || c == SemRelease(id)
  }

  lemma StepKeepsHeld(k: Kernel, c: Call, id: int)
    requires Sane(k) && Possible(k, c) && Usable(k, id) && k.sems[id].value == 1 && !Frees(c, id)
    ensures var x, k' := k.sems[id].resource.value, Step(k, c).0;
      x < |k'.resources| && id < |k'.sems| && k'.sems[id] == k.sems[id] && k'.resources[x] == k.resources[x]
  {
    match c
    case SemInit(i) => ReleaseMeaning(k, i);
    case SemRelease(i) => ReleaseMeaning(k, i);
    case SemTryAcquire(i) => AcquireMeaning(k, i);
    case _ =>
  }

  /** A taken semaphore stays with its holder over every run that does not release
      or initialise it, whatever is created, forked and exits meanwhile, and nobody
      acquires it. */
  lemma {:induction false} HeldUntilReleased(k: Kernel, id: int, calls: seq<Call>)
    requires Sane(k) && PossibleRun(k, calls) && Usable(k, id) && k.sems[id].value == 1
    requires forall c :: c in calls ==> !Frees(c, id)
    ensures var x, k' := k.sems[id].resource.value, After(k, calls);
      && x < |k'.resources| && k'.resources[x].holder == k.resources[x].holder
      && TryAcquire(k', id).1 != Result(1)
    decreases |calls|
  {
    if calls == [] {
      AcquireMeaning(k, id);
    } else {
      StepKeepsHeld(k, calls[0], id);
      StepKeepsSane(k, calls[0]);
      HeldUntilReleased(Step(k, calls[0]).0, id, calls[1..]);
    }
  }

  /** Mutual exclusion: between two acquisitions of a semaphore there is a release
      or an initialisation of it. */
  lemma MutualExclusion(k: Kernel, id: int, calls: seq<Call>)
    requires Sane(k) && TryAcquire(k, id).1 == Result(1)
    requires Shaped(TryAcquire(k, id).0) && PossibleRun(TryAcquire(k, id).0, calls)
    requires TryAcquire(After(TryAcquire(k, id).0, calls), id).1 == Result(1)
    ensures exists c :: c in calls && Frees(c, id)
  {
    if forall c :: c in calls ==> !Frees(c, id) {
      AcquireMeaning(k, id);
      StepKeepsSane(k, SemTryAcquire(id));
      HeldUntilReleased(TryAcquire(k, id).0, id, calls);
    }
  }

  /** A creator can acquire the semaphore it has just created, free as it is,
      exactly when the creation kept slot number equal to rid; otherwise the
      kernel panics. */
  lemma CreatorPanicsIff(k: Kernel)
    requires Inv(k) && Create(k).1 != Result(-1) && |k.resources| < TASK_RESOURCE_MAX_AMOUNT
    ensures Shaped(Create(k).0)
    ensures TryAcquire(Create(k).0, Create(k).1.code).1.Panic? <==> !CreateFits(k)
  {
    var k', id, m := Create(k).0, Create(k).1.code, |k.resources|;
    var slot := FirstFreeSlot(k.slots[k.current]);
    if CreateFits(k) {
      CreateKeepsInv(k);
      TryAcquireMeaning(k', id);
    } else {
      var t := IndexOf(k'.queue, k'.current);
      assert k.current in k.queue;
      assert k.slots[k.current][m].None?;
      assert k'.slots[k.current][m].None? && MaxEntry(k', t, m) == 0;
      assert Unit(m + 1, m)[m] > Rebuilt(k').need[t][m];
    }
  }

  // -------------------------------------------------- two runs that go wrong

  /** Slots that list the first resource only. */
  function FirstListed(): Slots
  {
    seq(TASK_RESOURCE_MAX_AMOUNT, j => if j == 0 then Some(0) else None)
  }

  /** The state in which task b runs and lists nothing, after a, another child of
      init, has created the first semaphore. */
  function OtherCreated(i: Task, a: Task, b: Task): Kernel
  {
    Kernel([i, a, b], b, map[i := NoSlots(), a := FirstListed(), b := NoSlots()], [Resource(0, 1, None, 0)],
      Boot(i).sems[0 := Semaphore(0, true, Some(0))])
  }

  function CallsOfTwo(a: Task, b: Task): seq<Call>
  {
    [Vfork(a), Vfork(b), Switch(a), SemCreate, Switch(b)]
  }

  lemma OtherCreatedReached(i: Task, a: Task, b: Task)
    requires i != a && i != b && a != b
    ensures Shaped(Boot(i)) && Legal(Boot(i), CallsOfTwo(a, b))
    ensures After(Boot(i), CallsOfTwo(a, b)) == OtherCreated(i, a, b)
  {
    hide Legal; hide After; hide Step; hide Allowed; hide Shaped;
    BootInv(i);
    InvShaped(Boot(i));
    BothFork(i, a, b);
    FirstCreates(i, a, b);
    LegalJoins(Boot(i), [Vfork(a), Vfork(b), Switch(a)], [SemCreate, Switch(b)]);
    assert [Vfork(a), Vfork(b), Switch(a)] + [SemCreate, Switch(b)] == CallsOfTwo(a, b);
  }

  /** Two children of init, of which a runs. */
  function BothForked(i: Task, a: Task, b: Task): Kernel
  {
    Kernel([i, a, b], a, map[i := NoSlots(), a := NoSlots(), b := NoSlots()], [], Boot(i).sems)
  }

  lemma BothFork(i: Task, a: Task, b: Task)
    requires i != a && i != b && a != b
    ensures Shaped(Boot(i)) && Legal(Boot(i), [Vfork(a), Vfork(b), Switch(a)])
    ensures After(Boot(i), [Vfork(a), Vfork(b), Switch(a)]) == BothForked(i, a, b)
  {
    hide Legal; hide After;
    assert Fork(Fork(Boot(i), a), b).slots == BothForked(i, a, b).slots;
    RunOfThree(Boot(i), Vfork(a), Vfork(b), Switch(a));
  }

  lemma FirstCreates(i: Task, a: Task, b: Task)
    requires i != a && i != b && a != b
    ensures Shaped(BothForked(i, a, b)) && Legal(BothForked(i, a, b), [SemCreate, Switch(b)])
    ensures After(BothForked(i, a, b), [SemCreate, Switch(b)]) == OtherCreated(i, a, b)
  {
    hide Legal; hide After;
    var k := BothForked(i, a, b);
    assert FirstFreeSlot(NoSlots()) == 0 && FirstUnused(k.sems) == 0;
    assert NoSlots()[0 := Some(0)] == FirstListed();
    var k', o := Create(k).0, OtherCreated(i, a, b);
    assert k'.slots == o.slots && k'.queue == o.queue;
    RunOfTwoCalls(k, SemCreate, Switch(b));
  }

  lemma RunOfThree(k: Kernel, c: Call, d: Call, e: Call)
    requires Shaped(k) && Allowed(k, c) && Allowed(Step(k, c).0, d) && Allowed(Step(Step(k, c).0, d).0, e)
    ensures Legal(k, [c, d, e]) && After(k, [c, d, e]) == Step(Step(Step(k, c).0, d).0, e).0
  {
    hide Step; hide Possible;
    var k1 := Step(k, c).0;
    assert [c, d, e][1..] == [d, e];
    RunOfTwoCalls(k1, d, e);
  }

  /** After five calls from boot a second child creates a semaphore of its own:
      its only resource lands in slot 0 although its rid is 1, and acquiring the
      free semaphore it has just created panics. */
  lemma CreatorWithGapPanics(i: Task, a: Task, b: Task)
    requires i != a && i != b && a != b
    ensures var k := OtherCreated(i, a, b);
      && Inv(k) && Create(k).1 == Result(1) && Shaped(Create(k).0)
      && TryAcquire(Create(k).0, 1).1.Panic?
  {
    var k := OtherCreated(i, a, b);
    OtherCreatedReached(i, a, b);
    RunFromBoot(i, CallsOfTwo(a, b));
    assert FirstUnused(k.sems) == 1 && FirstFreeSlot(k.slots[b]) == 0;
    CreatorPanicsIff(k);
  }

  /** The state in which task a, a child of init, holds the one semaphore that
      both it and its own child b list. */
  function HeldByParent(i: Task, a: Task, b: Task): Kernel
  {
    Kernel([i, a, b], a, map[i := NoSlots(), a := FirstListed(), b := FirstListed()], [Resource(0, 1, Some(a), 1)],
      seq(SEM_MAX, x => if x == 0 then Semaphore(1, true, Some(0)) else Semaphore(0, false, None)))
  }

  function CallsOfParent(a: Task, b: Task): seq<Call>
  {
    [Vfork(a), Switch(a), SemCreate, Vfork(b), SemTryAcquire(0)]
  }

  lemma HeldByParentReached(i: Task, a: Task, b: Task)
    requires i != a && i != b && a != b
    ensures Shaped(Boot(i)) && Legal(Boot(i), CallsOfParent(a, b))
    ensures After(Boot(i), CallsOfParent(a, b)) == HeldByParent(i, a, b)
  {
    hide Inv; hide Step; hide Allowed; hide Legal; hide After;
    BootInv(i);
    InvShaped(Boot(i));
    ChildCreates(i, a);
    ChildForks(i, a, b);
    LegalJoins(Boot(i), [Vfork(a), Switch(a), SemCreate], [Vfork(b), SemTryAcquire(0)]);
    assert [Vfork(a), Switch(a), SemCreate] + [Vfork(b), SemTryAcquire(0)] == CallsOfParent(a, b);
  }

  lemma InvShaped(k: Kernel)
    requires Inv(k)
    ensures Shaped(k)
  {
  }

  /** A child of init has created the first semaphore. */
  function FirstCreated(i: Task, a: Task): Kernel
  {
    Kernel([i, a], a, map[i := NoSlots(), a := FirstListed()], [Resource(0, 1, None, 0)],
      Boot(i).sems[0 := Semaphore(0, true, Some(0))])
  }

  lemma ChildCreates(i: Task, a: Task)
    requires i != a
    ensures Shaped(Boot(i)) && Legal(Boot(i), [Vfork(a), Switch(a), SemCreate])
    ensures After(Boot(i), [Vfork(a), Switch(a), SemCreate]) == FirstCreated(i, a) && Inv(FirstCreated(i, a))
  {
    BootInv(i);
    var k := Fork(Boot(i), a).(current := a);
    assert k.slots == map[i := NoSlots(), a := NoSlots()];
    assert FirstFreeSlot(NoSlots()) == 0 && FirstUnused(k.sems) == 0;
    assert NoSlots()[0 := Some(0)] == FirstListed();
    assert Create(k).0 == FirstCreated(i, a);
    RunOfThree(Boot(i), Vfork(a), Switch(a), SemCreate);
    RunFromBoot(i, [Vfork(a), Switch(a), SemCreate]);
  }

  lemma ChildForks(i: Task, a: Task, b: Task)
    requires i != a && i != b && a != b && Inv(FirstCreated(i, a))
    ensures Legal(FirstCreated(i, a), [Vfork(b), SemTryAcquire(0)])
    ensures After(FirstCreated(i, a), [Vfork(b), SemTryAcquire(0)]) == HeldByParent(i, a, b)
  {
    hide Legal; hide After; hide Inv; hide TryAcquire;
    InvShaped(FirstCreated(i, a));
    ParentAcquires(i, a, b);
    RunOfTwoCalls(FirstCreated(i, a), Vfork(b), SemTryAcquire(0));
  }

  lemma ParentAcquires(i: Task, a: Task, b: Task)
    requires i != a && i != b && a != b && Inv(FirstCreated(i, a)) && Shaped(FirstCreated(i, a))
    ensures var k' := Fork(FirstCreated(i, a), b);
      Shaped(k') && TryAcquire(k', 0) == (HeldByParent(i, a, b), Result(1))
  {
    hide TryAcquire;
    var k := FirstCreated(i, a);
    var k', o := Fork(k, b), HeldByParent(i, a, b);
    ForkKeepsInv(k, b);
    EachAcquiresWhenFree(k', a);
    assert k'.(current := a) == k' && FirstListed()[0] == Some(0) && Usable(k', 0) && Wants(k', a, 0);
    TryAcquireMeaning(k', 0);
    assert TryAcquire(k', 0).1 == Result(1);
    assert Assigned(k', 0).slots == o.slots && Assigned(k', 0).sems == o.sems;
    assert Assigned(k', 0).queue == o.queue && Assigned(k', 0).resources == o.resources;
  }

  lemma RunOfTwoCalls(k: Kernel, c: Call, d: Call)
    requires Shaped(k) && Allowed(k, c) && Allowed(Step(k, c).0, d)
    ensures Legal(k, [c, d]) && After(k, [c, d]) == Step(Step(k, c).0, d).0
  {
    hide Step; hide Possible;
    var k1 := Step(k, c).0;
    assert [c, d][1..] == [d];
    RunOfOneCall(k1, d);
  }

  lemma RunOfOneCall(k: Kernel, c: Call)
    requires Shaped(k) && Allowed(k, c)
    ensures Legal(k, [c]) && After(k, [c]) == Step(k, c).0
  {
    hide Step; hide Possible;
    var k' := Step(k, c).0;
    assert [c][1..] == [];
    assert Legal(k', []) && After(k', []) == k';
  }

  lemma {:induction false} LegalJoins(k: Kernel, first: seq<Call>, more: seq<Call>)
    requires Shaped(k) && Legal(k, first) && Legal(After(k, first), more)
    ensures Legal(k, first + more) && After(k, first + more) == After(After(k, first), more)
    decreases |first|
  {
    hide Step; hide Possible;
    if first == [] {
      assert first + more == more;
    } else {
      assert (first + more)[1..] == first[1..] + more;
      LegalJoins(Step(k, first[0]).0, first[1..], more);
    }
  }

  /** After five calls from boot the holder exits: the state is not safe, its
      child waits for the semaphore, and neither it nor init acquires anything. */
  lemma HolderExitDeadlocks(i: Task, a: Task, b: Task)
    requires i != a && i != b && a != b
    ensures var k := HeldByParent(i, a, b);
      var k' := Exited(k, b);
      && Inv(k) && CanExit(k, b) && Shaped(k') && k'.queue == [i, b] && !IsSafe(Rebuilt(k'))
      && TryAcquire(k', 0).1 == Result(0)
      && NobodyAcquires(k')
  {
    var k := HeldByParent(i, a, b);
    var k' := Exited(k, b);
    HeldByParentReached(i, a, b);
    RunFromBoot(i, CallsOfParent(a, b));
    assert FirstListed()[0] == Some(0) && TakesAlong(k, 0, b);
    assert k'.queue == [i, b];
    ExitKeepsSafeIff(k, b);
    ExitWithListedStops(k, b, 0, b);
    InvIsSane(k);
    assert Possible(k, Exit(b)) && Step(k, Exit(b)).0 == k';
    StepKeepsSane(k, Exit(b));
    ListerWaits(k', 0);
  }

  /** A task that lists a semaphore it does not hold waits for it. */
  lemma ListerWaits(k: Kernel, id: int)
    requires Sane(k) && Usable(k, id) && !IsSafe(Rebuilt(k))
    requires k.slots[k.current][k.sems[id].resource.value].Some?
    requires k.resources[k.sems[id].resource.value].holder != Some(k.current)
    ensures TryAcquire(k, id).1 == Result(0)
  {
    var x, t, s := k.sems[id].resource.value, IndexOf(k.queue, k.current), Rebuilt(k);
    var u := Unit(|k.resources|, x);
    assert k.queue[t] in k.queue && MaxEntry(k, t, x) == 1 && AllocEntry(k, t, x) == 0;
    assert s.need[t][x] == 1;
    assert Leq(u, s.need[t]);
    NothingGrantedWhenUnsafe(s, t, u);
  }
}
