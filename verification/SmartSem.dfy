/** The kernel semaphores built on the banker's test (experimental/resource.c and
    experimental/smart_sem_kernel.c), as values: the resource list, every task's
    resource slots, the semaphore table, and what each system call does to them.
    Semaphores and resources are never destroyed here. */
module SmartSem {
  import opened Basics
  import opened ArrMath
  import opened Banker

  const SEM_MAX := 356
  const TASK_RESOURCE_MAX_AMOUNT := 32

  type Task = int

  /** `rid` is the column the resource takes in the rebuilt matrices. */
  datatype Resource = Resource(rid: nat, instances: nat, holder: Option<Task>, taken: nat)

  /** `resource` is the position in the resource list of the semaphore's resource. */
  datatype Semaphore = Semaphore(value: int, used: bool, resource: Option<nat>)

  type Slots = seq<Option<nat>>

  function NoSlots(): Slots
  {
    seq(TASK_RESOURCE_MAX_AMOUNT, _ => None)
  }

  datatype Kernel = Kernel(queue: seq<Task>, current: Task, slots: map<Task, Slots>,
                           resources: seq<Resource>, sems: seq<Semaphore>)

  ghost predicate Shaped(k: Kernel)
  {
    && (forall a, b :: 0 <= a < b < |k.queue| ==> k.queue[a] != k.queue[b])
    && k.current in k.queue
    && (forall a :: 0 <= a < |k.queue| ==> k.queue[a] in k.slots && |k.slots[k.queue[a]]| == TASK_RESOURCE_MAX_AMOUNT)
    && |k.sems| == SEM_MAX
    && |k.resources| <= TASK_RESOURCE_MAX_AMOUNT
  }

  // --------------------------------------------------- the rebuilt matrices

  function AllocEntry(k: Kernel, t: nat, r: nat): nat
    requires t < |k.queue| && r < |k.resources|
  {
    if k.resources[r].holder == Some(k.queue[t]) then k.resources[r].taken else 0
  }

  /** fill_max takes the slot number, not the rid of the slot's resource, as the column. */
  function MaxEntry(k: Kernel, t: nat, r: nat): nat
    requires t < |k.queue| && r < |k.resources| && k.queue[t] in k.slots && r < |k.slots[k.queue[t]]|
  {
    var slot := k.slots[k.queue[t]][r];
    if slot.Some? && slot.value < |k.resources| then k.resources[slot.value].instances else 0
  }

  ghost function Rebuilt(k: Kernel): (s: State)
    requires Shaped(k)
    ensures WellFormed(s) && |s.alloc| == |k.queue| && |s.available| == |k.resources|
  {
    var n, m := |k.queue|, |k.resources|;
    State(seq(m, r requires 0 <= r < m => SubWrap(k.resources[r].instances, k.resources[r].taken) as nat),
          seq(n, t requires 0 <= t < n => seq(m, r requires 0 <= r < m => AllocEntry(k, t, r))),
          seq(n, t requires 0 <= t < n => seq(m, r requires 0 <= r < m =>
            SubWrap(MaxEntry(k, t, r), AllocEntry(k, t, r)) as nat)))
  }

  // ------------------------------------------------------------ system calls

  datatype Reason = BadSafeStatus | DeadlockPreventionError | InitExits

  datatype Outcome = Result(code: int) | Panic(why: Reason)

  function FirstFreeSlot(slots: Slots): (i: nat)
    ensures i <= |slots| && (forall j :: 0 <= j < i ==> slots[j].Some?) && (i < |slots| ==> slots[i].None?)
  {
    if slots == [] || slots[0].None? then 0 else 1 + FirstFreeSlot(slots[1..])
  }

  function FirstUnused(sems: seq<Semaphore>): (i: nat)
    ensures i <= |sems| && (forall j :: 0 <= j < i ==> sems[j].used) && (i < |sems| ==> !sems[i].used)
  {
    if sems == [] || !sems[0].used then 0 else 1 + FirstUnused(sems[1..])
  }

  /** sys_sem_create */
  function Create(k: Kernel): (r: (Kernel, Outcome))
    requires Shaped(k)
  {
    var id := FirstUnused(k.sems);
    var slot := FirstFreeSlot(k.slots[k.current]);
    if id == |k.sems| || slot == TASK_RESOURCE_MAX_AMOUNT then (k, Result(-1))
    else
      var rid := |k.resources|;
      (k.(resources := k.resources + [Resource(rid, 1, None, 0)],
          slots := k.slots[k.current := k.slots[k.current][slot := Some(rid)]],
          sems := k.sems[id := k.sems[id].(used := true, resource := Some(rid))]),
       Result(id))
  }

  predicate Usable(k: Kernel, id: int)
  {
    0 <= id < |k.sems| && k.sems[id].used && k.sems[id].resource.Some? && k.sems[id].resource.value < |k.resources|
  }

  function Unassigned(k: Kernel, id: int): Kernel
    requires Usable(k, id)
  {
    var x := k.sems[id].resource.value;
    k.(sems := k.sems[id := k.sems[id].(value := 0)],
       resources := k.resources[x := k.resources[x].(holder := None, taken := 0)])
  }

  /** sys_sem_init and sys_sem_release do the same. */
  function Release(k: Kernel, id: int): (r: (Kernel, Outcome))
  {
    if Usable(k, id) then (Unassigned(k, id), Result(0)) else (k, Result(-1))
  }

  ghost function IndexOf(queue: seq<Task>, t: Task): (i: nat)
    requires t in queue
    ensures i < |queue| && queue[i] == t
  {
    if queue[0] == t then 0 else 1 + IndexOf(queue[1..], t)
  }

  function Unit(m: nat, r: nat): (v: Vec)
    ensures |v| == m
  {
    seq(m, j => if j == r then 1 else 0)
  }

  function Assigned(k: Kernel, id: int): Kernel
    requires Usable(k, id)
  {
    var x := k.sems[id].resource.value;
    k.(sems := k.sems[id := k.sems[id].(value := 1)],
       resources := k.resources[x := k.resources[x].(holder := Some(k.current), taken := 1)])
  }

  /** sys_sem_try_acquire: the matrices are rebuilt, one instance is requested
      for the current task, and the kernel panics on an answer it does not expect. */
  ghost function TryAcquire(k: Kernel, id: int): (r: (Kernel, Outcome))
    requires Shaped(k)
  {
    if !Usable(k, id) then (k, Result(-1))
    else
      var x := k.sems[id].resource.value;
      var column := k.resources[x].rid;
      var s := Rebuilt(k);
      match Request(s, IndexOf(k.queue, k.current), Unit(|k.resources|, column)).0
      case WAIT => (k, Result(0))
      case WAIT_UNSAFE => (k, Result(0))
      case SAFE => if k.sems[id].value == 0 then (Assigned(k, id), Result(1)) else (k, Panic(BadSafeStatus))
      case ERROR => (k, Panic(DeadlockPreventionError))
  }

  /** sys_vfork copies the whole task descriptor, resource slots included. */
  function Fork(k: Kernel, child: Task): Kernel
    requires Shaped(k) && child !in k.queue
  {
    k.(queue := k.queue + [child], slots := k.slots[child := k.slots[k.current]])
  }

  ghost function Gone(queue: seq<Task>, t: Task): seq<Task>
    requires t in queue
  {
    queue[..IndexOf(queue, t)] + queue[IndexOf(queue, t) + 1..]
  }

  /** sys_exit empties the slots of the current task, and kernel_schedule takes
      the zombie out of the queue and switches to another task. What the task held
      stays assigned to it. */
  ghost function Exited(k: Kernel, next: Task): Kernel
    requires k.current in k.queue
  {
    k.(queue := Gone(k.queue, k.current), current := next,
       slots := k.slots[k.current := NoSlots()])
  }

  /** The first task ever enqueued, which nothing takes out of the queue. */
  function Init(k: Kernel): Task
    requires k.queue != []
  {
    k.queue[0]
  }

  /** sys_exit panics, before it touches anything, when init calls it. */
  ghost function Leave(k: Kernel, next: Task): (Kernel, Outcome)
    requires k.current in k.queue
  {
    if k.current == Init(k) then (k, Panic(InitExits)) else (Exited(k, next), Result(0))
  }

  // ---------------------------------------------------------- the invariant

  /** Slot number and rid agree: slot j of a task is empty or holds resource j. */
  ghost predicate SlotsByRid(k: Kernel)
    requires Shaped(k)
  {
    forall t, j :: t in k.queue && 0 <= j < TASK_RESOURCE_MAX_AMOUNT && k.slots[t][j].Some? ==>
      k.slots[t][j].value == j < |k.resources|
  }

  ghost predicate ResourcesOk(k: Kernel)
    requires Shaped(k)
  {
    forall r :: 0 <= r < |k.resources| ==> ResourceOk(k, r)
  }

  /** A resource has one instance, is assigned exactly when it has a holder, and
      only to a task that lists it. */
  ghost predicate ResourceOk(k: Kernel, r: nat)
    requires Shaped(k) && r < |k.resources|
  {
    var x := k.resources[r];
    && x.rid == r && x.instances == 1
    && x.taken == (if x.holder.Some? then 1 else 0)
    && (x.holder.Some? ==> x.holder.value in k.queue && k.slots[x.holder.value][r] == Some(r))
  }

  /** The value of a semaphore in use is the number of assigned instances of its
      own resource; one never used is 0. */
  ghost predicate SemsOk(k: Kernel)
  {
    && (forall i :: 0 <= i < |k.sems| && k.sems[i].used ==>
          Usable(k, i) && k.sems[i].value == k.resources[k.sems[i].resource.value].taken)
    && (forall i :: 0 <= i < |k.sems| && !k.sems[i].used ==> k.sems[i].value == 0)
    && (forall i, j :: 0 <= i < j < |k.sems| && k.sems[i].used && k.sems[j].used ==>
          k.sems[i].resource != k.sems[j].resource)
  }

  ghost predicate Inv(k: Kernel)
  {
    Shaped(k) && SlotsByRid(k) && ResourcesOk(k) && SemsOk(k) && IsSafe(Rebuilt(k))
  }

  /** What the calls keep whatever a task creates, and whatever it holds when it
      exits: a resource has its position as rid and one instance, tables refer to
      resources that exist, and semaphore values agree with the resources. */
  ghost predicate Sane(k: Kernel)
  {
    && Shaped(k)
    && (forall r :: 0 <= r < |k.resources| ==>
          k.resources[r].rid == r && k.resources[r].instances == 1 && k.resources[r].taken <= 1)
    && (forall t, j :: t in k.queue && 0 <= j < TASK_RESOURCE_MAX_AMOUNT && k.slots[t][j].Some? ==>
          k.slots[t][j].value < |k.resources|)
    && SemsOk(k)
  }

  lemma InvIsSane(k: Kernel)
    requires Inv(k)
    ensures Sane(k)
  {
    forall r | 0 <= r < |k.resources|
      ensures k.resources[r].rid == r && k.resources[r].instances == 1 && k.resources[r].taken <= 1
    {
      assert ResourceOk(k, r);
    }
  }

  // ------------------------------------------- reading the rebuilt matrices

  /** Under the invariant the matrices say what they are meant to say. */
  lemma RebuiltMeaning(k: Kernel, t: nat, r: nat)
    requires Shaped(k) && SlotsByRid(k) && ResourcesOk(k) && t < |k.queue| && r < |k.resources|
    ensures var s := Rebuilt(k);
      && s.available[r] == (if k.resources[r].holder.None? then 1 else 0)
      && s.alloc[t][r] == (if k.resources[r].holder == Some(k.queue[t]) then 1 else 0)
      && s.need[t][r] == (if k.slots[k.queue[t]][r].Some? && s.alloc[t][r] == 0 then 1 else 0)
  {
    assert ResourceOk(k, r);
    assert k.queue[t] in k.queue;
    if k.slots[k.queue[t]][r].Some? { assert k.slots[k.queue[t]][r].value == r; }
  }

  /** The three conditions that decide an acquisition, in terms of the task. */
  lemma TryAcquireMeaning(k: Kernel, id: int)
    requires Inv(k) && Usable(k, id)
    ensures var x := k.sems[id].resource.value;
      var (k', out) := TryAcquire(k, id);
      && (out == Panic(DeadlockPreventionError) <==>
            k.slots[k.current][x].None? || k.resources[x].holder == Some(k.current))
      && out != Panic(BadSafeStatus)
      && (out == Result(1) ==> k' == Assigned(k, id) && k.resources[x].holder == None)
      && (out != Result(1) ==> k' == k)
      && (out.Result? && k.resources[x].holder != None ==> out == Result(0))
  {
    var x := k.sems[id].resource.value;
    var t := IndexOf(k.queue, k.current);
    var s, u := Rebuilt(k), Unit(|k.resources|, x);
    assert ResourceOk(k, x);
    RebuiltMeaning(k, t, x);
    assert Leq(u, s.need[t]) <==> s.need[t][x] >= 1 by { if !Leq(u, s.need[t]) { } }
    assert Leq(u, s.available) <==> s.available[x] >= 1 by { if !Leq(u, s.available) { } }
  }
}
