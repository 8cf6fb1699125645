/** The round-robin run queue (Mentos/mentos/src/process/scheduler.c,
    scheduler_algorithm.c) as a sequence, and who is served when. */
module RunQueue {

  /** The list head's own place, and the null pointer: no task has this number. */
  const HEAD := 0
  /** The process that may not exit. */
  const INIT := 1

  /** The tasks in list order, the running one, whether it has exited, and num_active. */
  datatype Tasks = Tasks(queue: seq<nat>, curr: nat, zombie: bool, active: nat)

  predicate Distinct(q: seq<nat>)
  {
    forall i, j :: 0 <= i < j < |q| ==> q[i] != q[j]
  }

  function Index(q: seq<nat>, t: nat): (r: nat)
    requires t in q
    ensures r < |q| && q[r] == t
  {
    if q[0] == t then 0 else 1 + Index(q[1..], t)
  }

  /** The task after t, going round past the list head. */
  function Successor(q: seq<nat>, t: nat): nat
    requires t in q
  {
    if Index(q, t) + 1 < |q| then q[Index(q, t) + 1] else q[0]
  }

  function Without(q: seq<nat>, t: nat): seq<nat>
    requires t in q
  {
    q[..Index(q, t)] + q[Index(q, t) + 1..]
  }

  function Enqueued(s: Tasks, p: nat): Tasks
  {
    Tasks(s.queue + [p], if s.curr == HEAD then p else s.curr, s.zombie, s.active + 1)
  }

  /** kernel_schedule: the successor runs next; a zombie leaves the queue. One
      that is alone there is its own successor, and goes on running. */
  function Scheduled(s: Tasks): Tasks
    requires s.curr in s.queue && s.active > 0
  {
    var next := Successor(s.queue, s.curr);
    if s.zombie then Tasks(Without(s.queue, s.curr), next, next == s.curr, s.active - 1)
    else Tasks(s.queue, next, false, s.active)
  }

  /** init never exits and stays queued; only the running task can be a zombie. */
  predicate Inv(s: Tasks)
  {
    && Distinct(s.queue) && HEAD !in s.queue && INIT in s.queue && s.curr in s.queue
    && s.active == |s.queue| && (s.zombie ==> s.curr != INIT)
  }

  // ---------------------------------------------------------------- distance

  /** How many tasks are served until t is. */
  function Distance(s: Tasks, t: nat): nat
    requires s.curr in s.queue && t in s.queue
  {
    var i, j := Index(s.queue, s.curr), Index(s.queue, t);
    if i <= j then j - i else |s.queue| - i + j
  }

  lemma IndexIs(q: seq<nat>, i: nat)
    requires Distinct(q) && i < |q|
    ensures q[i] in q && Index(q, q[i]) == i
  {
  }

  lemma WithoutAt(q: seq<nat>, t: nat, k: nat)
    requires Distinct(q) && t in q && k < |q| && k != Index(q, t)
    ensures Distinct(Without(q, t)) && |Without(q, t)| == |q| - 1
    ensures q[k] in Without(q, t) && Index(Without(q, t), q[k]) == if k < Index(q, t) then k else k - 1
  {
    var r, i := Without(q, t), Index(q, t);
    assert forall j :: 0 <= j < |r| ==> r[j] == if j < i then q[j] else q[j + 1];
    IndexIs(r, if k < i then k else k - 1);
  }

  /** Every call of kernel_schedule brings each waiting task one turn nearer,
      also when the running task leaves the queue. */
  lemma ScheduleNearer(s: Tasks, t: nat)
    requires Inv(s) && t in s.queue && t != s.curr
    ensures Inv(Scheduled(s)) && t in Scheduled(s).queue
    ensures Distance(Scheduled(s), t) + 1 == Distance(s, t)
  {
    var q := s.queue;
    var i, j := Index(q, s.curr), Index(q, t);
    var n := if i + 1 < |q| then i + 1 else 0;
    assert Successor(q, s.curr) == q[n];
    IndexIs(q, n);
    if s.zombie {
      WithoutAt(q, s.curr, n);
      WithoutAt(q, s.curr, j);
      WithoutKeeps(q, s.curr, INIT);
    }
  }

  lemma WithoutKeeps(q: seq<nat>, t: nat, x: nat)
    requires t in q && x in q && x != t
    ensures x in Without(q, t) && forall y :: y in Without(q, t) ==> y in q
  {
    var i, j := Index(q, t), Index(q, x);
    var r := Without(q, t);
    assert r[if j < i then j else j - 1] == x;
  }

  /** A new task queues behind all others: it delays exactly those that come
      before the running task in the list. */
  lemma ArrivalDelays(s: Tasks, p: nat, t: nat)
    requires Inv(s) && p !in s.queue && p != HEAD && t in s.queue
    ensures Inv(Enqueued(s, p)) && t in Enqueued(s, p).queue
    ensures Distance(Enqueued(s, p), t) == Distance(s, t) + if Index(s.queue, t) < Index(s.queue, s.curr) then 1 else 0
  {
    var r := Enqueued(s, p).queue;
    IndexIs(r, Index(s.queue, t));
    IndexIs(r, Index(s.queue, s.curr));
    assert r[Index(s.queue, INIT)] == INIT;
  }

  lemma NoWaitIsCurrent(s: Tasks, t: nat)
    requires Inv(s) && t in s.queue
    ensures Distance(s, t) < |s.queue| && (Distance(s, t) == 0 <==> t == s.curr)
  {
    IndexIs(s.queue, Index(s.queue, t));
  }

  // -------------------------------------------------------------------- runs

  datatype Event = Arrive(p: nat) | Exit | Tick

  predicate Enabled(s: Tasks, e: Event)
  {
    match e
    case Arrive(p) => p !in s.queue && p != HEAD
    case Exit => s.curr != INIT
    case Tick => s.curr in s.queue && s.active > 0
  }

  function Next(s: Tasks, e: Event): Tasks
    requires Enabled(s, e)
  {
    match e
    case Arrive(p) => Enqueued(s, p)
    case Exit => s.(zombie := true)
    case Tick => Scheduled(s)
  }

  predicate Run(s: Tasks, events: seq<Event>)
    decreases |events|
  {
    events == [] || (Enabled(s, events[0]) && Run(Next(s, events[0]), events[1..]))
  }

  function After(s: Tasks, events: seq<Event>): Tasks
    requires Run(s, events)
    decreases |events|
  {
    if events == [] then s else After(Next(s, events[0]), events[1..])
  }

  /** t runs at the start of some step of the run, or at its end. */
  predicate Served(s: Tasks, events: seq<Event>, t: nat)
    requires Run(s, events)
    decreases |events|
  {
    s.curr == t || (events != [] && Served(Next(s, events[0]), events[1..], t))
  }

  function Count(events: seq<Event>, tick: bool): nat
  {
    if events == [] then 0
    else (if (if tick then events[0].Tick? else events[0].Arrive?) then 1 else 0) + Count(events[1..], tick)
  }

  lemma StepKeeps(s: Tasks, e: Event, t: nat)
    requires Inv(s) && Enabled(s, e) && t in s.queue && (t != s.curr || t == INIT)
    ensures Inv(Next(s, e)) && t in Next(s, e).queue
  {
    match e
    case Arrive(p) => ArrivalDelays(s, p, t);
    case Exit =>
    case Tick => ScheduleKeeps(s); if t != s.curr { ScheduleNearer(s, t); }
  }

  lemma ScheduleKeeps(s: Tasks)
    requires Inv(s)
    ensures Inv(Scheduled(s))
  {
    if s.curr != INIT {
      ScheduleNearer(s, INIT);
    } else {
      IndexIs(s.queue, if Index(s.queue, INIT) + 1 < |s.queue| then Index(s.queue, INIT) + 1 else 0);
    }
  }

  /** Over every run the queue stays well formed, and init stays in it. */
  lemma {:induction false} RunKeeps(s: Tasks, events: seq<Event>)
    requires Inv(s) && Run(s, events)
    ensures Inv(After(s, events))
    decreases |events|
  {
    if events != [] {
      StepKeeps(s, events[0], INIT);
      RunKeeps(Next(s, events[0]), events[1..]);
    }
  }

  /** kernel_initialize_scheduler, and init enqueued. */
  function Boot(): Tasks
  {
    Enqueued(Tasks([], HEAD, false, 0), INIT)
  }

  lemma RunFromBoot(events: seq<Event>)
    requires Run(Boot(), events)
    ensures Inv(Boot()) && Inv(After(Boot(), events))
  {
    assert Boot().queue == [INIT];
    RunKeeps(Boot(), events);
  }

  /** A task that has left the queue goes on running exactly when it was a zombie
      and alone; init, which cannot exit, rules that out. */
  lemma RunningStaysQueuedIff(s: Tasks)
    requires Distinct(s.queue) && s.curr in s.queue && s.active > 0
    ensures Scheduled(s).curr in Scheduled(s).queue <==> !(s.zombie && |s.queue| == 1)
    ensures Scheduled(s).zombie <==> s.zombie && |s.queue| == 1
  {
    var i := Index(s.queue, s.curr);
    var n := if i + 1 < |s.queue| then i + 1 else 0;
    if s.zombie && |s.queue| > 1 { WithoutAt(s.queue, s.curr, n); }
  }

  // ------------------------------------------------------- leaving the queue

  /** A task that is not queued stays out, and is not served, until it arrives. */
  lemma {:induction false} StaysOut(s: Tasks, events: seq<Event>, t: nat)
    requires Inv(s) && Run(s, events) && t !in s.queue && Arrive(t) !in events
    ensures t !in After(s, events).queue && !Served(s, events, t)
    decreases |events|
  {
    if events != [] {
      var e := events[0];
      StepKeeps(s, e, INIT);
      if e.Tick? && s.zombie { WithoutOnly(s.queue, s.curr); }
      StaysOut(Next(s, e), events[1..], t);
    }
  }

  lemma WithoutOnly(q: seq<nat>, t: nat)
    requires Distinct(q) && t in q
    ensures t !in Without(q, t) && (Successor(q, t) == t <==> |q| == 1) && forall y :: y in Without(q, t) ==> y in q
  {
  }

  /** Some event of the run is an exit of t, and kernel_schedule is called later on. */
  predicate Departs(s: Tasks, events: seq<Event>, t: nat)
    requires Run(s, events)
    decreases |events|
  {
    && events != []
    && ((s.curr == t && events[0].Exit? && Count(events, true) > 0) || Departs(Next(s, events[0]), events[1..], t))
  }

  /** A task leaves the queue exactly by an exit of its own and a later call of
      kernel_schedule: nothing else takes anybody out. */
  lemma {:induction false} LeavesIff(s: Tasks, events: seq<Event>, t: nat)
    requires Inv(s) && Run(s, events) && t in s.queue && Arrive(t) !in events
    ensures t !in After(s, events).queue <==>
      Departs(s, events, t) || (s.zombie && s.curr == t && Count(events, true) > 0)
    decreases |events|
  {
    if events != [] {
      var e := events[0];
      StepKeeps(s, e, INIT);
      if e.Tick? { WithoutOnly(s.queue, s.curr); }
      if e.Tick? && s.zombie && s.curr == t {
        StaysOut(Next(s, e), events[1..], t);
      } else {
        StaysQueued(s, e, t);
        LeavesIff(Next(s, e), events[1..], t);
      }
    }
  }

  lemma StaysQueued(s: Tasks, e: Event, t: nat)
    requires Inv(s) && Enabled(s, e) && t in s.queue && !(e.Tick? && s.zombie && s.curr == t)
    ensures t in Next(s, e).queue
  {
    if t != s.curr { StepKeeps(s, e, t); }
  }

  /** A task that has exited is out of the queue after the next call of
      kernel_schedule, whatever else happens, and is never served again unless it
      arrives again. */
  lemma ExitedIsGone(s: Tasks, first: seq<Event>, rest: seq<Event>)
    requires Inv(s) && s.curr != INIT
    requires Run(Next(s, Exit), first) && Count(first, true) > 0 && Run(After(Next(s, Exit), first), rest)
    requires Arrive(s.curr) !in first && Arrive(s.curr) !in rest
    ensures var s' := After(Next(s, Exit), first);
      s.curr !in s'.queue && s.curr !in After(s', rest).queue && !Served(s', rest, s.curr)
  {
    StepKeeps(s, Exit, INIT);
    LeavesIff(Next(s, Exit), first, s.curr);
    RunKeeps(Next(s, Exit), first);
    StaysOut(After(Next(s, Exit), first), rest, s.curr);
  }

  lemma StepKeepsOrder(s: Tasks, e: Event, x: nat, y: nat)
    requires Inv(s) && Enabled(s, e) && e != Arrive(x) && e != Arrive(y)
    requires x in Next(s, e).queue && y in Next(s, e).queue
    ensures x in s.queue && y in s.queue
    ensures Index(s.queue, x) < Index(s.queue, y) <==> Index(Next(s, e).queue, x) < Index(Next(s, e).queue, y)
  {
    var q, q' := s.queue, Next(s, e).queue;
    if e.Tick? && s.zombie {
      WithoutOnly(q, s.curr);
      WithoutAt(q, s.curr, Index(q, x));
      WithoutAt(q, s.curr, Index(q, y));
    } else if e.Arrive? {
      ArrivalDelays(s, e.p, x);
      IndexIs(q', Index(q, x));
      IndexIs(q', Index(q, y));
    }
  }

  /** The tasks that stay keep their order, whoever comes and goes. */
  lemma {:induction false} OrderKept(s: Tasks, events: seq<Event>, x: nat, y: nat)
    requires Inv(s) && Run(s, events) && Arrive(x) !in events && Arrive(y) !in events
    requires x in After(s, events).queue && y in After(s, events).queue
    ensures x in s.queue && y in s.queue
    ensures Index(s.queue, x) < Index(s.queue, y) <==>
      Index(After(s, events).queue, x) < Index(After(s, events).queue, y)
    decreases |events|
  {
    if events != [] {
      var e := events[0];
      StepKeeps(s, e, INIT);
      OrderKept(Next(s, e), events[1..], x, y);
      StepKeepsOrder(s, e, x, y);
    }
  }

  /** Without an exit the queue only grows, at its end. */
  lemma {:induction false} NoExitNoLeave(s: Tasks, events: seq<Event>)
    requires Inv(s) && Run(s, events) && !s.zombie && Exit !in events
    ensures s.queue <= After(s, events).queue
    decreases |events|
  {
    if events != [] {
      var e := events[0];
      StepKeeps(s, e, INIT);
      if e.Tick? { WithoutOnly(s.queue, s.curr); }
      NoExitNoLeave(Next(s, e), events[1..]);
    }
  }

  // -------------------------------------------------------------- starvation

  /** No task starves: with arrivals at the tail and exits on the way, a queued
      task at distance d has run once kernel_schedule has been called d times and
      once more for each arrival. */
  lemma {:induction false} NoStarvation(s: Tasks, events: seq<Event>, t: nat)
    requires Inv(s) && Run(s, events) && t in s.queue
    requires Count(events, true) >= Distance(s, t) + Count(events, false)
    ensures Served(s, events, t)
    decreases |events|
  {
    NoWaitIsCurrent(s, t);
    if s.curr != t {
      var e := events[0];
      StepKeeps(s, e, t);
      match e {
        case Arrive(p) => ArrivalDelays(s, p, t);
        case Exit =>
        case Tick => ScheduleNearer(s, t);
      }
      NoStarvation(Next(s, e), events[1..], t);
    }
  }
}
