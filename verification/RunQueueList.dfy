/** The run queue on its circular list of pointers
    (Mentos/mentos/src/process/scheduler.c, Mentos/mentos/inc/libc/list_head.h). */
module RunQueueList {
  import opened RunQueue

  /** The ring of the list head and the tasks, in order. */
  function Ring(q: seq<nat>): seq<nat>
  {
    [HEAD] + q
  }

  function Right(ring: seq<nat>, i: nat): nat
    requires i < |ring|
  {
    if i + 1 < |ring| then ring[i + 1] else ring[0]
  }

  function Left(ring: seq<nat>, i: nat): nat
    requires i < |ring|
  {
    if i > 0 then ring[i - 1] else ring[|ring| - 1]
  }

  /** Both pointers of an element go to its neighbours on the ring. */
  predicate LinkedAt(next: map<nat, nat>, prev: map<nat, nat>, ring: seq<nat>, i: nat)
    requires i < |ring|
  {
    ring[i] in next && ring[i] in prev && next[ring[i]] == Right(ring, i) && prev[ring[i]] == Left(ring, i)
  }

  predicate Linked(next: map<nat, nat>, prev: map<nat, nat>, ring: seq<nat>)
  {
    |ring| > 0 && Distinct(ring) && forall i :: 0 <= i < |ring| ==> LinkedAt(next, prev, ring, i)
  }

  class List {
    var next: map<nat, nat>
    var prev: map<nat, nat>
    var curr: nat
    var active: nat
    /** The tasks in state EXIT_ZOMBIE. */
    var dead: set<nat>
    ghost var queue: seq<nat>

    ghost predicate Valid()
      reads this
    {
      Linked(next, prev, Ring(queue)) && HEAD !in dead && forall d :: d in dead && d in queue ==> d == curr
    }

    ghost function View(): Tasks
      reads this
    {
      Tasks(queue, curr, curr in dead, active)
    }

    /** kernel_initialize_scheduler. */
    constructor ()
      ensures Valid() && View() == Tasks([], HEAD, false, 0)
    {
      next, prev := map[HEAD := HEAD], map[HEAD := HEAD];
      curr, active, dead, queue := HEAD, 0, {}, [];
    }

    /** list_head_add_tail on the list head. */
    method AddTail(p: nat)
      requires Linked(next, prev, Ring(queue)) && p !in Ring(queue)
      modifies this`next, this`prev, this`queue
      ensures Linked(next, prev, Ring(queue)) && queue == old(queue) + [p]
    {
      ghost var ring := Ring(queue);
      assert LinkedAt(next, prev, ring, 0);
      var last := prev[HEAD];
      prev := prev[HEAD := p];
      next := next[p := HEAD];
      prev := prev[p := last];
      next := next[last := p];
      queue := queue + [p];
      assert Ring(queue) == ring + [p];
      AppendKeeps(old(next), old(prev), ring, p);
    }

    /** enqueue_task. */
    method EnqueueTask(p: nat)
      requires Valid() && p !in queue && p != HEAD && p !in dead
      modifies this
      ensures Valid() && View() == Enqueued(old(View()), p)
    {
      if curr == HEAD { curr := p; }
      AddTail(p);
      active := active + 1;
    }

    /** list_head_del. */
    method Delete(p: nat)
      requires Linked(next, prev, Ring(queue)) && p in queue
      modifies this`next, this`prev, this`queue
      ensures Linked(next, prev, Ring(queue)) && queue == Without(old(queue), p)
    {
      ghost var ring, k := Ring(queue), 1 + Index(queue, p);
      assert ring[k] == p;
      assert LinkedAt(next, prev, ring, k) && LinkedAt(next, prev, ring, k - 1);
      assert LinkedAt(next, prev, ring, if k + 1 < |ring| then k + 1 else 0);
      next := next[prev[p] := next[p]];
      prev := prev[next[p] := prev[p]];
      UnlinkKeeps(old(next), old(prev), ring, k);
      next := next[p := p];
      prev := prev[p := p];
      queue := Without(queue, p);
      assert Ring(queue) == ring[..k] + ring[k + 1..];
      LinkedFrame(old(next)[old(prev)[p] := old(next)[p]], old(prev)[old(next)[p] := old(prev)[p]], Ring(queue), p);
    }

    /** dequeue_task. */
    method DequeueTask(p: nat)
      requires Linked(next, prev, Ring(queue)) && p in queue && active > 0
      modifies this`next, this`prev, this`queue, this`active
      ensures Linked(next, prev, Ring(queue)) && queue == Without(old(queue), p) && active == old(active) - 1
    {
      Delete(p);
      active := active - 1;
    }

    /** The element after the running task, the list head skipped: pick_next_task,
        and the same lines for a zombie. */
    method PickNextTask() returns (n: nat)
      requires Linked(next, prev, Ring(queue)) && curr in queue
      ensures n == Successor(queue, curr)
    {
      ghost var ring, k := Ring(queue), 1 + Index(queue, curr);
      assert ring[k] == curr;
      assert LinkedAt(next, prev, ring, k) && LinkedAt(next, prev, ring, 0);
      n := next[curr];
      if n == HEAD { n := next[n]; }
    }

    /** sys_exit, as far as the queue is concerned; false where it panics. */
    method Exit() returns (ok: bool)
      requires Valid() && Inv(View())
      modifies this`dead
      ensures ok == (curr != INIT)
      ensures Valid() && View() == if ok then Next(old(View()), Event.Exit) else old(View())
    {
      ok := curr != INIT;
      if ok { dead := dead + {curr}; }
    }

    /** kernel_schedule. */
    method KernelSchedule()
      requires Valid() && (curr == HEAD || (curr in queue && active > 0))
      modifies this
      ensures Valid() && View() == if old(curr) == HEAD then old(View()) else Scheduled(old(View()))
    {
      if curr == HEAD { return; }
      ghost var was := View();
      RingDistinct(was.queue);
      var n := PickNextTask();
      if curr in dead {
        DequeueTask(curr);
        WithoutOnly(was.queue, was.curr);
      }
      if n != curr { curr := n; }
    }
  }

  lemma RingDistinct(q: seq<nat>)
    requires Distinct(Ring(q))
    ensures Distinct(q) && HEAD !in q
  {
    assert Ring(q)[0] == HEAD && forall i :: 0 <= i < |q| ==> q[i] == Ring(q)[i + 1];
  }

  lemma AppendKeeps(next: map<nat, nat>, prev: map<nat, nat>, ring: seq<nat>, p: nat)
    requires Linked(next, prev, ring) && p !in ring
    ensures Linked(next[p := ring[0]][ring[|ring| - 1] := p], prev[ring[0] := p][p := ring[|ring| - 1]], ring + [p])
  {
    var r := ring + [p];
    var n, q := next[p := ring[0]][ring[|ring| - 1] := p], prev[ring[0] := p][p := ring[|ring| - 1]];
    forall i | 0 <= i < |r| ensures LinkedAt(n, q, r, i) {
      if i < |ring| { assert LinkedAt(next, prev, ring, i); }
    }
  }

  lemma UnlinkKeeps(next: map<nat, nat>, prev: map<nat, nat>, ring: seq<nat>, k: nat)
    requires Linked(next, prev, ring) && 0 < k < |ring|
    ensures ring[k] in next && ring[k] in prev
    ensures Linked(next[prev[ring[k]] := next[ring[k]]], prev[next[ring[k]] := prev[ring[k]]],
      ring[..k] + ring[k + 1..])
  {
    assert LinkedAt(next, prev, ring, k);
    var r := ring[..k] + ring[k + 1..];
    var n, p := next[prev[ring[k]] := next[ring[k]]], prev[next[ring[k]] := prev[ring[k]]];
    CutDistinct(ring, k);
    forall i | 0 <= i < |r| ensures LinkedAt(n, p, r, i) {
      UnlinkAt(next, prev, ring, k, i);
    }
  }

  lemma CutDistinct(ring: seq<nat>, k: nat)
    requires Distinct(ring) && k < |ring|
    ensures Distinct(ring[..k] + ring[k + 1..])
  {
    var r := ring[..k] + ring[k + 1..];
    assert forall i :: 0 <= i < |r| ==> r[i] == if i < k then ring[i] else ring[i + 1];
  }

  lemma UnlinkAt(next: map<nat, nat>, prev: map<nat, nat>, ring: seq<nat>, k: nat, i: nat)
    requires Linked(next, prev, ring) && 0 < k < |ring| && i < |ring| - 1
    requires LinkedAt(next, prev, ring, k)
    ensures LinkedAt(next[prev[ring[k]] := next[ring[k]]], prev[next[ring[k]] := prev[ring[k]]],
      ring[..k] + ring[k + 1..], i)
  {
    var r := ring[..k] + ring[k + 1..];
    var j := if i < k then i else i + 1;
    assert r[i] == ring[j];
    assert LinkedAt(next, prev, ring, j);
    assert Right(r, i) == if j == k - 1 then Right(ring, k) else Right(ring, j);
    assert Left(r, i) == if (if k + 1 < |ring| then j == k + 1 else j == 0) then Left(ring, k) else Left(ring, j);
  }

  /** Pointers of an element off the ring do not matter. */
  lemma LinkedFrame(next: map<nat, nat>, prev: map<nat, nat>, ring: seq<nat>, p: nat)
    requires Linked(next, prev, ring) && p !in ring
    ensures Linked(next[p := p], prev[p := p], ring)
  {
    var n, q := next[p := p], prev[p := p];
    forall i | 0 <= i < |ring| ensures LinkedAt(n, q, ring, i) {
      assert LinkedAt(next, prev, ring, i);
    }
  }
}
