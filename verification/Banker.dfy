/** The theory of safe states behind experimental/deadlock_prevention.c: what it
    means for some ordering of the tasks to let every one of them finish, why a
    greedy choice decides it, and what every run of requests and releases keeps. */
module Banker {
  import opened Basics
  import opened ArrMath

  type Vec = seq<nat>

  /** `available[j]`: free instances of resource j; `alloc[i][j]`, `need[i][j]`:
      instances task i holds and may still ask for. */
  datatype State = State(available: Vec, alloc: seq<Vec>, need: seq<Vec>)

  datatype Verdict = SAFE | WAIT | WAIT_UNSAFE | ERROR

  ghost predicate WellFormed(s: State)
  {
    && |s.alloc| == |s.need|
    && (forall i :: 0 <= i < |s.alloc| ==> |s.alloc[i]| == |s.available|)
    && (forall i :: 0 <= i < |s.need| ==> |s.need[i]| == |s.available|)
  }

  function Plus(a: Vec, b: Vec): (r: Vec)
    requires |a| == |b|
    ensures |r| == |a|
  {
    seq(|a|, j requires 0 <= j < |a| => a[j] + b[j])
  }

  function Minus(a: Vec, b: Vec): (r: Vec)
    requires |a| == |b| && Leq(b, a)
    ensures |r| == |a|
  {
    seq(|a|, j requires 0 <= j < |a| => a[j] - b[j])
  }

  // ---------------------------------------------------------------- safety

  ghost predicate TaskOrder(order: seq<nat>, n: nat)
  {
    && |order| == n
    && (forall k :: 0 <= k < |order| ==> order[k] < n)
    && Distinct(order)
  }

  ghost predicate Distinct(order: seq<nat>)
  {
    forall a, b :: 0 <= a < b < |order| ==> order[a] != order[b]
  }

  /** The tasks of `order`, one after the other, each find their whole need in
      what is free by then and give back everything they hold. */
  ghost predicate Completes(s: State, work: Vec, order: seq<nat>)
    requires WellFormed(s) && |work| == |s.available|
    requires forall k :: 0 <= k < |order| ==> order[k] < |s.alloc|
    decreases |order|
  {
    order == [] ||
    (Leq(s.need[order[0]], work) && Completes(s, Plus(work, s.alloc[order[0]]), order[1..]))
  }

  ghost predicate IsSafe(s: State)
    requires WellFormed(s)
  {
    exists order :: TaskOrder(order, |s.alloc|) && Completes(s, s.available, order)
  }

  // ------------------------------------------------- sums of held instances

  /** Instances of resource j held by those of the first n tasks that are in `who`. */
  ghost function Held(alloc: seq<Vec>, who: set<nat>, j: nat, n: nat): nat
    requires n <= |alloc| && forall i :: 0 <= i < |alloc| ==> j < |alloc[i]|
  {
    if n == 0 then 0
    else Held(alloc, who, j, n - 1) + if n - 1 in who then alloc[n - 1][j] else 0
  }

  lemma {:induction false} HeldAdd(alloc: seq<Vec>, who: set<nat>, i: nat, j: nat, n: nat)
    requires n <= |alloc| && forall i :: 0 <= i < |alloc| ==> j < |alloc[i]|
    requires i !in who && i < |alloc|
    ensures Held(alloc, who + {i}, j, n) == Held(alloc, who, j, n) + if i < n then alloc[i][j] else 0
  {
    if n > 0 { HeldAdd(alloc, who, i, j, n - 1); }
  }

  lemma {:induction false} HeldMono(alloc: seq<Vec>, who: set<nat>, more: set<nat>, j: nat, n: nat)
    requires n <= |alloc| && forall i :: 0 <= i < |alloc| ==> j < |alloc[i]|
    requires who <= more
    ensures Held(alloc, who, j, n) <= Held(alloc, more, j, n)
  {
    if n > 0 { HeldMono(alloc, who, more, j, n - 1); }
  }

  lemma {:induction false} HeldNone(alloc: seq<Vec>, j: nat, n: nat)
    requires n <= |alloc| && forall i :: 0 <= i < |alloc| ==> j < |alloc[i]|
    ensures Held(alloc, {}, j, n) == 0
  {
    if n > 0 { HeldNone(alloc, j, n - 1); }
  }

  /** What is free once the tasks in `who` have finished. */
  ghost predicate WorkAfter(s: State, who: set<nat>, work: Vec)
    requires WellFormed(s)
  {
    && |work| == |s.available|
    && forall j :: 0 <= j < |work| ==> work[j] == s.available[j] + Held(s.alloc, who, j, |s.alloc|)
  }

  lemma WorkAfterNone(s: State)
    requires WellFormed(s)
    ensures WorkAfter(s, {}, s.available)
  {
    forall j | 0 <= j < |s.available| { HeldNone(s.alloc, j, |s.alloc|); }
  }

  lemma WorkAfterOneMore(s: State, who: set<nat>, work: Vec, i: nat)
    requires WellFormed(s) && i < |s.alloc| && i !in who
    requires WorkAfter(s, who, work)
    ensures WorkAfter(s, who + {i}, Plus(work, s.alloc[i]))
  {
    forall j | 0 <= j < |s.available| { HeldAdd(s.alloc, who, i, j, |s.alloc|); }
  }

  /** Everything that exists of resource j, free or held. */
  ghost function Total(s: State, j: nat): nat
    requires WellFormed(s) && j < |s.available|
  {
    s.available[j] + Held(s.alloc, AllTasks(|s.alloc|), j, |s.alloc|)
  }

  ghost function AllTasks(n: nat): (r: set<nat>)
    ensures forall i: nat :: i in r <==> i < n
  {
    if n == 0 then {} else AllTasks(n - 1) + {n - 1}
  }

  ghost predicate FitsWord(s: State)
    requires WellFormed(s)
  {
    forall j :: 0 <= j < |s.available| ==> Total(s, j) < WORD
  }

  lemma WorkBelowTotal(s: State, who: set<nat>, work: Vec, j: nat)
    requires WellFormed(s) && WorkAfter(s, who, work) && j < |work|
    requires who <= AllTasks(|s.alloc|)
    ensures work[j] <= Total(s, j)
  {
    HeldMono(s.alloc, who, AllTasks(|s.alloc|), j, |s.alloc|);
  }

  // ------------------------------------------------------ the greedy choice

  /** Completeness of the greedy choice: while the tasks in `done` are the only
      ones finished and some completing order exists, another task can finish. */
  lemma {:induction false} GreedyNeverStuck(s: State, start: set<nat>, w: Vec, order: seq<nat>, done: set<nat>,
          work: Vec)
    returns (i: nat)
    requires WellFormed(s)
    requires forall k :: 0 <= k < |order| ==> order[k] < |s.alloc| && order[k] !in start
    requires Distinct(order)
    requires start <= done && WorkAfter(s, start, w) && WorkAfter(s, done, work)
    requires Completes(s, w, order)
    requires exists k :: 0 <= k < |order| && order[k] !in done
    ensures i < |s.alloc| && i !in done && Leq(s.need[i], work)
    decreases |order|
  {
    if order[0] !in done {
      i := order[0];
      forall j | 0 <= j < |work| ensures s.need[i][j] <= work[j] {
        HeldMono(s.alloc, start, done, j, |s.alloc|);
      }
    } else {
      WorkAfterOneMore(s, start, w, order[0]);
      i := GreedyNeverStuck(s, start + {order[0]}, Plus(w, s.alloc[order[0]]), order[1..], done, work);
    }
  }

  /** Soundness of the greedy choice: appending a task that fits keeps the
      order found so far completing. */
  lemma {:induction false} CompletesAppend(s: State, w: Vec, start: set<nat>, order: seq<nat>, work: Vec, i: nat)
    requires WellFormed(s) && i < |s.alloc|
    requires forall k :: 0 <= k < |order| ==> order[k] < |s.alloc| && order[k] !in start
    requires Distinct(order)
    requires WorkAfter(s, start, w) && Completes(s, w, order)
    requires WorkAfter(s, start + Members(order), work)
    requires Leq(s.need[i], work)
    ensures Completes(s, w, order + [i])
    decreases |order|
  {
    if order == [] {
      assert start + Members(order) == start;
      assert w == work;
      assert ([i])[1..] == [];
    } else {
      WorkAfterOneMore(s, start, w, order[0]);
      assert start + Members(order) == start + {order[0]} + Members(order[1..]);
      CompletesAppend(s, Plus(w, s.alloc[order[0]]), start + {order[0]}, order[1..], work, i);
      assert (order + [i])[1..] == order[1..] + [i];
    }
  }

  ghost function Members(order: seq<nat>): set<nat>
  {
    set x | x in order
  }

  lemma {:induction false} DistinctSize(order: seq<nat>)
    requires Distinct(order)
    ensures |Members(order)| == |order|
  {
    if order != [] {
      assert Members(order) == Members(order[1..]) + {order[0]};
      DistinctSize(order[1..]);
    }
  }

  lemma {:induction false} AllTasksSize(n: nat)
    ensures |AllTasks(n)| == n
  {
    if n > 0 {
      AllTasksSize(n - 1);
      assert n - 1 !in AllTasks(n - 1);
    }
  }

  /** A distinct order of n tasks misses none of them. */
  lemma OrderCovers(order: seq<nat>, n: nat, i: nat)
    requires TaskOrder(order, n) && i < n
    ensures i in order
  {
    DistinctSize(order);
    AllTasksSize(n);
    if i !in order {
      assert Members(order) <= AllTasks(n) - {i};
      SubsetSize(Members(order), AllTasks(n) - {i});
      assert false;
    }
  }

  lemma {:induction false} SubsetSize(a: set<nat>, b: set<nat>)
    requires a <= b
    ensures |a| <= |b|
    decreases |a|
  {
    if a != {} {
      var x :| x in a;
      SubsetSize(a - {x}, b - {x});
    }
  }

  /** When the greedy loop is stuck no completing order exists at all. */
  lemma StuckMeansUnsafe(s: State, done: set<nat>, work: Vec, left: nat)
    requires WellFormed(s) && WorkAfter(s, done, work)
    requires left < |s.alloc| && left !in done
    requires forall i: nat :: i < |s.alloc| && i !in done ==> !Leq(s.need[i], work)
    ensures !IsSafe(s)
  {
    if IsSafe(s) {
      var order :| TaskOrder(order, |s.alloc|) && Completes(s, s.available, order);
      WorkAfterNone(s);
      OrderCovers(order, |s.alloc|, left);
      var i := GreedyNeverStuck(s, {}, s.available, order, done, work);
      assert false;
    }
  }

  // --------------------------------------------------- requests and releases

  /** The state after granting `req` to task i. */
  function Granted(s: State, i: nat, req: Vec): (r: State)
    requires WellFormed(s) && i < |s.alloc| && |req| == |s.available|
    requires Leq(req, s.need[i]) && Leq(req, s.available)
    ensures WellFormed(r)
  {
    State(Minus(s.available, req),
          s.alloc[i := Plus(s.alloc[i], req)],
          s.need[i := Minus(s.need[i], req)])
  }

  /** The state after task i gave back `req`; `restore` says whether it may ask
      for those instances again. */
  function Released(s: State, i: nat, req: Vec, restore: bool): (r: State)
    requires WellFormed(s) && i < |s.alloc| && |req| == |s.available|
    requires Leq(req, s.alloc[i])
    ensures WellFormed(r)
  {
    State(Plus(s.available, req),
          s.alloc[i := Minus(s.alloc[i], req)],
          if restore then s.need[i := Plus(s.need[i], req)] else s.need)
  }

  /** The answer to a request and the state it leaves. */
  ghost function Request(s: State, i: nat, req: Vec): (r: (Verdict, State))
    requires WellFormed(s) && i < |s.alloc| && |req| == |s.available|
    ensures WellFormed(r.1) && |r.1.alloc| == |s.alloc| && |r.1.available| == |s.available|
    ensures r.0 != SAFE ==> r.1 == s
  {
    if !Leq(req, s.need[i]) then (ERROR, s)
    else if !Leq(req, s.available) then (WAIT, s)
    else if IsSafe(Granted(s, i, req)) then (SAFE, Granted(s, i, req))
    else (WAIT_UNSAFE, s)
  }

  datatype Event =
    | Ask(task: nat, req: Vec)
    | GiveBack(task: nat, req: Vec, restore: bool)

  /** One call: a request, or a release (ignored, as simulation_free does, when
      the task does not hold that much). */
  ghost function Next(s: State, e: Event): (r: State)
    requires WellFormed(s) && e.task < |s.alloc| && |e.req| == |s.available|
    ensures WellFormed(r) && |r.alloc| == |s.alloc| && |r.available| == |s.available|
  {
    match e
    case Ask(i, req) => Request(s, i, req).1
    case GiveBack(i, req, restore) =>
      if Leq(req, s.alloc[i]) then Released(s, i, req, restore) else s
  }

  ghost predicate Fits(s: State, events: seq<Event>)
  {
    forall k :: 0 <= k < |events| ==>
      events[k].task < |s.alloc| && |events[k].req| == |s.available|
  }

  ghost function Run(s: State, events: seq<Event>): (r: State)
    requires WellFormed(s) && Fits(s, events)
    ensures WellFormed(r) && |r.alloc| == |s.alloc| && |r.available| == |s.available|
    decreases |events|
  {
    if events == [] then s else Run(Next(s, events[0]), events[1..])
  }

  // ------------------------------------------------------------ conservation

  lemma {:induction false} HeldUpdate(alloc: seq<Vec>, i: nat, row: Vec, who: set<nat>, j: nat, n: nat)
    requires n <= |alloc| && i < |alloc| && j < |row| && forall k :: 0 <= k < |alloc| ==> j < |alloc[k]|
    ensures i < n && i in who ==>
      Held(alloc[i := row], who, j, n) == Held(alloc, who, j, n) + row[j] - alloc[i][j]
    ensures !(i < n && i in who) ==> Held(alloc[i := row], who, j, n) == Held(alloc, who, j, n)
  {
    if n > 0 { HeldUpdate(alloc, i, row, who, j, n - 1); }
  }

  /** A call keeps the number of instances of every resource. */
  lemma NextKeepsTotal(s: State, e: Event, j: nat)
    requires WellFormed(s) && e.task < |s.alloc| && |e.req| == |s.available| && j < |s.available|
    ensures Total(Next(s, e), j) == Total(s, j)
  {
    var i, r := e.task, Next(s, e);
    if r != s {
      HeldUpdate(s.alloc, i, r.alloc[i], AllTasks(|s.alloc|), j, |s.alloc|);
      assert r.alloc == s.alloc[i := r.alloc[i]];
    }
  }

  /** Over any run every resource keeps its number of instances, and as long as
      releases restore the need, every task keeps held plus needed. */
  lemma {:induction false} RunConserves(s: State, events: seq<Event>)
    requires WellFormed(s) && Fits(s, events)
    ensures forall j :: 0 <= j < |s.available| ==> Total(Run(s, events), j) == Total(s, j)
    ensures (forall k :: 0 <= k < |events| && events[k].GiveBack? ==> events[k].restore) ==>
      forall i :: 0 <= i < |s.alloc| ==>
        Plus(Run(s, events).alloc[i], Run(s, events).need[i]) == Plus(s.alloc[i], s.need[i])
    decreases |events|
  {
    if events != [] {
      var r := Next(s, events[0]);
      assert Fits(r, events[1..]);
      RunConserves(r, events[1..]);
      forall j | 0 <= j < |s.available| { NextKeepsTotal(s, events[0], j); }
    }
  }

  // ------------------------------------------------------- safety over runs

  /** A state with less held but as much free in total is still completed by
      the same order. */
  lemma {:induction false} ReleaseKeepsOrder(s: State, i: nat, req: Vec, restore: bool, w: Vec, w': Vec,
          order: seq<nat>)
    requires WellFormed(s) && i < |s.alloc| && |req| == |s.available| && Leq(req, s.alloc[i])
    requires |w| == |w'| == |s.available|
    requires forall k :: 0 <= k < |order| ==> order[k] < |s.alloc|
    requires Distinct(order)
    requires Completes(s, w, order)
    requires i in order ==> w' == Plus(w, req)
    requires i !in order ==> Leq(w, w')
    ensures Completes(Released(s, i, req, restore), w', order)
    decreases |order|
  {
    if order != [] {
      var r := Released(s, i, req, restore);
      var a := order[0];
      ReleaseKeepsOrder(s, i, req, restore, Plus(w, s.alloc[a]), Plus(w', r.alloc[a]), order[1..]);
    }
  }

  lemma ReleaseKeepsSafe(s: State, i: nat, req: Vec, restore: bool)
    requires WellFormed(s) && i < |s.alloc| && |req| == |s.available| && Leq(req, s.alloc[i])
    requires IsSafe(s)
    ensures IsSafe(Released(s, i, req, restore))
  {
    var order :| TaskOrder(order, |s.alloc|) && Completes(s, s.available, order);
    OrderCovers(order, |s.alloc|, i);
    ReleaseKeepsOrder(s, i, req, restore, s.available, Plus(s.available, req), order);
  }

  /** Every state a run reaches from a safe state is safe, whether releases
      restore the need or not. */
  lemma {:induction false} RunStaysSafe(s: State, events: seq<Event>)
    requires WellFormed(s) && Fits(s, events) && IsSafe(s)
    ensures IsSafe(Run(s, events))
    decreases |events|
  {
    if events != [] {
      var e := events[0];
      if e.GiveBack? && Leq(e.req, s.alloc[e.task]) {
        ReleaseKeepsSafe(s, e.task, e.req, e.restore);
      }
      assert Fits(Next(s, e), events[1..]);
      RunStaysSafe(Next(s, e), events[1..]);
    }
  }

  /** With nothing held and no need beyond what exists, the state is safe. */
  lemma {:induction false} NothingHeldCompletes(s: State, work: Vec, order: seq<nat>)
    requires WellFormed(s) && |work| == |s.available|
    requires forall k :: 0 <= k < |order| ==> order[k] < |s.alloc|
    requires forall i :: 0 <= i < |s.need| ==> Leq(s.need[i], s.available)
    requires Leq(s.available, work)
    ensures Completes(s, work, order)
    decreases |order|
  {
    if order != [] {
      NothingHeldCompletes(s, Plus(work, s.alloc[order[0]]), order[1..]);
    }
  }

  lemma NeedWithinAvailableIsSafe(s: State)
    requires WellFormed(s)
    requires forall i :: 0 <= i < |s.need| ==> Leq(s.need[i], s.available)
    ensures IsSafe(s)
  {
    var order: seq<nat> := seq(|s.alloc|, k requires 0 <= k => k);
    NothingHeldCompletes(s, s.available, order);
    assert TaskOrder(order, |s.alloc|);
  }

  /** Granting part of its need to the first task of a completing order keeps
      that order completing. */
  lemma {:induction false} GrantKeepsRest(s: State, i: nat, req: Vec, w: Vec, order: seq<nat>)
    requires WellFormed(s) && i < |s.alloc| && |req| == |s.available|
    requires Leq(req, s.need[i]) && Leq(req, s.available) && |w| == |s.available|
    requires forall k :: 0 <= k < |order| ==> order[k] < |s.alloc| && order[k] != i
    requires Completes(s, w, order)
    ensures Completes(Granted(s, i, req), w, order)
    decreases |order|
  {
    if order != [] {
      GrantKeepsRest(s, i, req, Plus(w, s.alloc[order[0]]), order[1..]);
    }
  }

  /** Task i is answered SAFE whatever it asks for within its need. */
  ghost predicate ServedInFull(s: State, i: nat)
    requires WellFormed(s) && i < |s.alloc|
  {
    forall req: Vec :: |req| == |s.available| && Leq(req, s.need[i]) ==> Request(s, i, req).0 == SAFE
  }

  /** The first task of a completing order is served in full. */
  lemma FirstIsServed(s: State, order: seq<nat>)
    requires WellFormed(s) && TaskOrder(order, |s.alloc|) && Completes(s, s.available, order) && order != []
    ensures ServedInFull(s, order[0])
  {
    var i := order[0];
    forall req: Vec | |req| == |s.available| && Leq(req, s.need[i])
      ensures Request(s, i, req).0 == SAFE
    {
      var g := Granted(s, i, req);
      GrantKeepsRest(s, i, req, Plus(s.available, s.alloc[i]), order[1..]);
      assert Plus(g.available, g.alloc[i]) == Plus(s.available, s.alloc[i]);
      assert Completes(g, g.available, order);
    }
  }

  lemma {:induction false} MoreCompletes(s: State, w: Vec, w': Vec, order: seq<nat>)
    requires WellFormed(s) && |w| == |w'| == |s.available| && Leq(w, w')
    requires forall k :: 0 <= k < |order| ==> order[k] < |s.alloc|
    requires Completes(s, w, order)
    ensures Completes(s, w', order)
    decreases |order|
  {
    if order != [] {
      MoreCompletes(s, Plus(w, s.alloc[order[0]]), Plus(w', s.alloc[order[0]]), order[1..]);
    }
  }

  /** With what the p-th task holds free from the start, the others complete in
      the order they had. */
  lemma {:induction false} RestCompletes(s: State, w: Vec, w': Vec, order: seq<nat>, p: nat)
    requires WellFormed(s) && |w| == |w'| == |s.available| && p < |order|
    requires forall k :: 0 <= k < |order| ==> order[k] < |s.alloc|
    requires Completes(s, w, order) && Leq(Plus(w, s.alloc[order[p]]), w')
    ensures Completes(s, w', order[..p] + order[p + 1..])
    decreases p
  {
    var rest := order[..p] + order[p + 1..];
    if p == 0 {
      assert rest == order[1..];
      MoreCompletes(s, Plus(w, s.alloc[order[0]]), w', rest);
    } else {
      var a := s.alloc[order[0]];
      RestCompletes(s, Plus(w, a), Plus(w', a), order[1..], p - 1);
      assert rest[1..] == order[1..][..p - 1] + order[1..][p..];
    }
  }

  /** Tasks that hold nothing add nothing to what those after them find. */
  lemma {:induction false} FitsBehindIdle(s: State, w: Vec, order: seq<nat>, p: nat)
    requires WellFormed(s) && |w| == |s.available| && p < |order|
    requires forall k :: 0 <= k < |order| ==> order[k] < |s.alloc|
    requires forall k :: 0 <= k < p ==> Idle(s, order[k])
    requires Completes(s, w, order)
    ensures Leq(s.need[order[p]], w)
    decreases p
  {
    if p > 0 {
      assert Idle(s, order[0]);
      assert Plus(w, s.alloc[order[0]]) == w;
      FitsBehindIdle(s, w, order[1..], p - 1);
    }
  }

  /** The task holds nothing. */
  ghost predicate Idle(s: State, a: nat)
    requires WellFormed(s) && a < |s.alloc|
  {
    forall j :: 0 <= j < |s.available| ==> s.alloc[a][j] == 0
  }

  /** A task that only idle tasks precede can come first. */
  lemma ComesFirst(s: State, order: seq<nat>, p: nat)
    requires WellFormed(s) && TaskOrder(order, |s.alloc|) && Completes(s, s.available, order) && p < |order|
    requires forall k :: 0 <= k < p ==> Idle(s, order[k])
    ensures var first := [order[p]] + (order[..p] + order[p + 1..]);
      TaskOrder(first, |s.alloc|) && Completes(s, s.available, first)
  {
    var rest := order[..p] + order[p + 1..];
    var first := [order[p]] + rest;
    FitsBehindIdle(s, s.available, order, p);
    RestCompletes(s, s.available, Plus(s.available, s.alloc[order[p]]), order, p);
    assert first[1..] == rest;
    assert forall k :: 0 <= k < |rest| ==> rest[k] == order[if k < p then k else k + 1];
    assert Distinct(first);
  }

  lemma {:induction false} FirstOf(order: seq<nat>, who: set<nat>) returns (p: nat)
    requires exists k :: 0 <= k < |order| && order[k] in who
    ensures p < |order| && order[p] in who && forall k :: 0 <= k < p ==> order[k] !in who
  {
    if order[0] in who {
      p := 0;
    } else {
      var k :| 0 <= k < |order| && order[k] in who;
      assert order[1..][k - 1] in who;
      p := FirstOf(order[1..], who);
      p := p + 1;
    }
  }

  /** Every task outside `who` is idle, and `who` has a task in it. */
  ghost predicate HoldersIn(s: State, who: set<nat>)
    requires WellFormed(s)
  {
    && (exists i: nat :: i < |s.alloc| && i in who)
    && (forall a: nat :: a < |s.alloc| && a !in who ==> Idle(s, a))
  }

  /** No safe state is deadlocked: among any tasks that include all those that
      hold something there is one that gets the answer SAFE to every request
      within its need, so it can be served until it finishes. */
  lemma SafeStateServesSomeTask(s: State, who: set<nat>)
    requires WellFormed(s) && IsSafe(s) && HoldersIn(s, who)
    ensures exists i: nat :: i in who && i < |s.alloc| && ServedInFull(s, i)
  {
    var order :| TaskOrder(order, |s.alloc|) && Completes(s, s.available, order);
    var i: nat :| i < |s.alloc| && i in who;
    OrderCovers(order, |s.alloc|, i);
    var p := FirstOf(order, who);
    ComesFirst(s, order, p);
    FirstIsServed(s, [order[p]] + (order[..p] + order[p + 1..]));
  }

  /** Where something is held, some task that holds something is served in full. */
  lemma SomeHolderIsServed(s: State, a: nat)
    requires WellFormed(s) && IsSafe(s) && a < |s.alloc| && !Idle(s, a)
    ensures exists i: nat :: i < |s.alloc| && !Idle(s, i) && ServedInFull(s, i)
  {
    var who := set i: nat | i in AllTasks(|s.alloc|) && !Idle(s, i);
    assert a in who;
    SafeStateServesSomeTask(s, who);
  }

  /** Where nothing is held, every task is. */
  lemma EachIsServedWhenIdle(s: State, i: nat)
    requires WellFormed(s) && IsSafe(s) && i < |s.alloc| && forall a: nat :: a < |s.alloc| ==> Idle(s, a)
    ensures ServedInFull(s, i)
  {
    SafeStateServesSomeTask(s, {i});
  }

  /** So no run that starts safe ever deadlocks. */
  lemma RunNeverDeadlocks(s: State, events: seq<Event>, who: set<nat>)
    requires WellFormed(s) && Fits(s, events) && IsSafe(s) && HoldersIn(Run(s, events), who)
    ensures exists i: nat :: i in who && i < |s.alloc| && ServedInFull(Run(s, events), i)
  {
    RunStaysSafe(s, events);
    SafeStateServesSomeTask(Run(s, events), who);
  }

  // ------------------------------------------------------ all tasks finish

  /** The task holds nothing and needs nothing. */
  ghost predicate Finished(s: State, a: nat)
    requires WellFormed(s) && a < |s.alloc|
  {
    Idle(s, a) && forall j :: 0 <= j < |s.available| ==> s.need[a][j] == 0
  }

  /** Every request of the list is answered SAFE when its turn comes. */
  ghost predicate AllServed(s: State, events: seq<Event>)
    requires WellFormed(s) && Fits(s, events)
    decreases |events|
  {
    events == [] || (
      && (events[0].Ask? ==> Request(s, events[0].task, events[0].req).0 == SAFE)
      && AllServed(Next(s, events[0]), events[1..]))
  }

  /** These calls, every request among them granted at once, finish all tasks. */
  ghost predicate FinishesAll(s: State, events: seq<Event>)
    requires WellFormed(s)
  {
    Fits(s, events) && AllServed(s, events) && forall a: nat :: a < |s.alloc| ==> Finished(Run(s, events), a)
  }

  lemma {:induction false} FinishedComplete(s: State, w: Vec, rest: seq<nat>, done: seq<nat>)
    requires WellFormed(s) && |w| == |s.available|
    requires forall k :: 0 <= k < |rest| ==> rest[k] < |s.alloc|
    requires forall k :: 0 <= k < |done| ==> done[k] < |s.alloc| && Finished(s, done[k])
    requires Completes(s, w, rest)
    ensures Completes(s, w, rest + done)
    decreases |rest| + |done|
  {
    if rest != [] {
      assert (rest + done)[1..] == rest[1..] + done;
      FinishedComplete(s, Plus(w, s.alloc[rest[0]]), rest[1..], done);
    } else if done != [] {
      assert Finished(s, done[0]) && [] + done == done;
      assert [] + done[1..] == done[1..];
      FinishedComplete(s, Plus(w, s.alloc[done[0]]), [], done[1..]);
    }
  }

  lemma {:induction false} SameRowsComplete(s: State, s': State, w: Vec, order: seq<nat>)
    requires WellFormed(s) && WellFormed(s') && |s'.alloc| == |s.alloc| && |w| == |s.available| == |s'.available|
    requires forall k :: 0 <= k < |order| ==>
      order[k] < |s.alloc| && s'.alloc[order[k]] == s.alloc[order[k]] && s'.need[order[k]] == s.need[order[k]]
    requires Completes(s, w, order)
    ensures Completes(s', w, order)
    decreases |order|
  {
    if order != [] { SameRowsComplete(s, s', Plus(w, s.alloc[order[0]]), order[1..]); }
  }

  /** A task asks for all it may need and then gives everything back for good. */
  function LastCalls(s: State, i: nat): seq<Event>
    requires WellFormed(s) && i < |s.alloc|
  {
    [Ask(i, s.need[i]), GiveBack(i, Plus(s.alloc[i], s.need[i]), false)]
  }

  /** The state these two calls lead to. */
  lemma EverythingBack(s: State, i: nat)
    requires WellFormed(s) && i < |s.alloc| && Leq(s.need[i], s.available)
    ensures var g := Granted(s, i, s.need[i]);
      g.alloc[i] == Plus(s.alloc[i], s.need[i]) && FinishedLike(s, Released(g, i, g.alloc[i], false), i)
  {
    var g := Granted(s, i, s.need[i]);
    assert Plus(g.available, g.alloc[i]) == Plus(s.available, s.alloc[i]);
  }

  /** As in s, but for task i, which has finished and given back all it held. */
  ghost predicate FinishedLike(s: State, s': State, i: nat)
    requires WellFormed(s) && i < |s.alloc|
  {
    && WellFormed(s') && |s'.alloc| == |s.alloc| && |s'.available| == |s.available|
    && s'.available == Plus(s.available, s.alloc[i]) && Finished(s', i)
    && forall a: nat :: a < |s.alloc| && a != i ==> s'.alloc[a] == s.alloc[a] && s'.need[a] == s.need[a]
  }

  lemma FitsOne(s: State, e: Event)
    requires e.task < |s.alloc| && |e.req| == |s.available|
    ensures Fits(s, [e])
  {
  }

  lemma FitsNone(s: State)
    ensures Fits(s, [])
  {
  }

  lemma RunOfOne(s: State, e: Event)
    requires WellFormed(s) && e.task < |s.alloc| && |e.req| == |s.available|
    requires e.Ask? ==> Request(s, e.task, e.req).0 == SAFE
    ensures Fits(s, [e]) && AllServed(s, [e]) && Run(s, [e]) == Next(s, e)
  {
    hide Next; hide Request; hide Fits; hide WellFormed;
    FitsOne(s, e);
    FitsNone(Next(s, e));
    var none: seq<Event> := [e][1..];
    assert none == [];
    assert AllServed(Next(s, e), none) && Run(Next(s, e), none) == Next(s, e);
  }

  lemma RunOfTwo(s: State, e: Event, f: Event)
    requires WellFormed(s) && e.task < |s.alloc| && f.task < |s.alloc| && |e.req| == |f.req| == |s.available|
    requires e.Ask? && f.GiveBack? && Request(s, e.task, e.req).0 == SAFE
    ensures Fits(s, [e, f]) && AllServed(s, [e, f]) && Run(s, [e, f]) == Next(Next(s, e), f)
  {
    hide Next; hide Request; hide Run; hide AllServed; hide Fits; hide WellFormed;
    FitsOne(s, f);
    RunOfOne(s, e);
    RunOfOne(Next(s, e), f);
    RunsJoin(s, [e], [f]);
    assert [e] + [f] == [e, f];
  }

  lemma AskedInFull(s: State, i: nat)
    requires WellFormed(s) && i < |s.alloc| && ServedInFull(s, i)
    ensures Leq(s.need[i], s.available) && Request(s, i, s.need[i]) == (SAFE, Granted(s, i, s.need[i]))
  {
    assert Leq(s.need[i], s.need[i]);
    assert Request(s, i, s.need[i]).0 == SAFE;
  }

  lemma LastCallsFinish(s: State, i: nat)
    requires WellFormed(s) && i < |s.alloc| && ServedInFull(s, i)
    ensures Fits(s, LastCalls(s, i)) && AllServed(s, LastCalls(s, i))
    ensures FinishedLike(s, Run(s, LastCalls(s, i)), i)
  {
    hide Run; hide AllServed; hide FinishedLike; hide IsSafe;
    hide Released; hide ServedInFull; hide Request; hide Granted;
    AskedInFull(s, i);
    EverythingBack(s, i);
    var ask, back := Ask(i, s.need[i]), GiveBack(i, Plus(s.alloc[i], s.need[i]), false);
    assert LastCalls(s, i) == [ask, back];
    RunOfTwo(s, ask, back);
    assert Next(s, ask) == Granted(s, i, s.need[i]);
  }

  lemma {:induction false} RunsJoin(s: State, first: seq<Event>, more: seq<Event>)
    requires WellFormed(s) && Fits(s, first) && Fits(s, more) && AllServed(s, first) && AllServed(Run(s, first), more)
    ensures Fits(s, first + more) && AllServed(s, first + more)
    ensures Run(s, first + more) == Run(Run(s, first), more)
    decreases |first|
  {
    hide Next; hide Request;
    if first == [] {
      assert first + more == more;
    } else {
      assert (first + more)[1..] == first[1..] + more;
      RunsJoin(Next(s, first[0]), first[1..], more);
    }
  }

  /** The tasks of `rest` complete in this order, and all others have finished. */
  ghost predicate OnTheWay(s: State, rest: seq<nat>, done: seq<nat>)
    requires WellFormed(s)
  {
    && TaskOrder(rest + done, |s.alloc|)
    && (forall k :: 0 <= k < |done| ==> done[k] < |s.alloc| && Finished(s, done[k]))
    && (forall k :: 0 <= k < |rest| ==> rest[k] < |s.alloc|) && Completes(s, s.available, rest)
  }

  lemma NextIsServed(s: State, rest: seq<nat>, done: seq<nat>)
    requires WellFormed(s) && OnTheWay(s, rest, done) && rest != []
    ensures ServedInFull(s, rest[0])
  {
    hide ServedInFull; hide Completes;
    FinishedComplete(s, s.available, rest, done);
    FirstIsServed(s, rest + done);
  }

  lemma {:induction false} CanFinishFrom(s: State, rest: seq<nat>, done: seq<nat>)
    requires WellFormed(s) && OnTheWay(s, rest, done)
    ensures exists events :: FinishesAll(s, events)
    decreases |rest|
  {
    if rest == [] {
      AllFinished(s, done);
    } else {
      FinishNext(s, rest, done);
    }
  }

  lemma AllFinished(s: State, done: seq<nat>)
    requires WellFormed(s) && OnTheWay(s, [], done)
    ensures FinishesAll(s, [])
  {
    hide Finished;
    assert [] + done == done;
    forall a: nat | a < |s.alloc| ensures Finished(s, a) { OrderCovers(done, |s.alloc|, a); }
  }

  lemma {:induction false} FinishNext(s: State, rest: seq<nat>, done: seq<nat>)
    requires WellFormed(s) && OnTheWay(s, rest, done) && rest != []
    ensures exists events :: FinishesAll(s, events)
    decreases |rest|, 0
  {
    hide OnTheWay; hide ServedInFull; hide LastCalls; hide Finished; hide Run; hide AllServed;
    NextIsServed(s, rest, done);
    NextInRange(s, rest, done);
    var i := rest[0];
    LastCallsFinish(s, i);
    var s' := Run(s, LastCalls(s, i));
    OneMoreDone(s, s', rest, done);
    CanFinishFrom(s', rest[1..], done + [i]);
    var events :| FinishesAll(s', events);
    RunsJoin(s, LastCalls(s, i), events);
    assert FinishesAll(s, LastCalls(s, i) + events);
  }

  lemma NextInRange(s: State, rest: seq<nat>, done: seq<nat>)
    requires WellFormed(s) && OnTheWay(s, rest, done) && rest != []
    ensures rest[0] < |s.alloc|
  {
  }

  lemma OneMoreDone(s: State, s': State, rest: seq<nat>, done: seq<nat>)
    requires WellFormed(s) && OnTheWay(s, rest, done)
    requires rest != [] && rest[0] < |s.alloc| && FinishedLike(s, s', rest[0])
    ensures OnTheWay(s', rest[1..], done + [rest[0]])
  {
    hide Completes; hide Finished;
    OrderTurned(rest, done, |s.alloc|);
    forall k | 0 <= k < |done| ensures Finished(s', done[k]) { StaysFinished(s, s', rest[0], done[k]); }
    RestStillCompletes(s, s', rest);
  }

  lemma StaysFinished(s: State, s': State, i: nat, a: nat)
    requires WellFormed(s) && i < |s.alloc| && FinishedLike(s, s', i) && a < |s.alloc| && Finished(s, a) && a != i
    ensures Finished(s', a)
  {
  }

  lemma RestStillCompletes(s: State, s': State, rest: seq<nat>)
    requires WellFormed(s) && rest != [] && Distinct(rest) && (forall k :: 0 <= k < |rest| ==> rest[k] < |s.alloc|)
    requires FinishedLike(s, s', rest[0]) && Completes(s, s.available, rest)
    ensures Completes(s', s'.available, rest[1..])
  {
    hide Finished;
    SameRowsComplete(s, s', s'.available, rest[1..]);
  }

  /** The first task of an order moved to its end. */
  lemma OrderTurned(rest: seq<nat>, done: seq<nat>, n: nat)
    requires rest != [] && TaskOrder(rest + done, n)
    ensures TaskOrder(rest[1..] + (done + [rest[0]]), n) && Distinct(rest)
    ensures forall k :: 0 <= k < |done| ==> done[k] != rest[0]
  {
    var order, m := rest + done, |rest|;
    var next := rest[1..] + (done + [rest[0]]);
    assert forall k :: 0 <= k < |order| ==> order[k] == if k < m then rest[k] else done[k - m];
    assert forall k :: 0 <= k < |next| ==> next[k] == if k + 1 < |order| then order[k + 1] else order[0];
    forall k | 0 <= k < m ensures rest[k] == order[k] { }
    forall k | 0 <= k < |done| ensures done[k] != rest[0] { assert order[m + k] == done[k]; }
  }

  /** From a safe state, and so from every state a run reaches from one, all
      tasks can be served in full, one after the other, with no request refused,
      until nobody holds or needs anything. */
  lemma SafeStateCanFinish(s: State)
    requires WellFormed(s) && IsSafe(s)
    ensures exists events :: FinishesAll(s, events)
  {
    var order :| TaskOrder(order, |s.alloc|) && Completes(s, s.available, order);
    assert order + [] == order;
    CanFinishFrom(s, order, []);
  }

  lemma RunCanFinish(s: State, events: seq<Event>)
    requires WellFormed(s) && Fits(s, events) && IsSafe(s)
    ensures exists more :: FinishesAll(Run(s, events), more)
  {
    RunStaysSafe(s, events);
    SafeStateCanFinish(Run(s, events));
  }

  // ---------------------------------------------------------- a task leaves

  /** The state without the row of task i; what it holds is lost. */
  function WithoutRow(s: State, i: nat): (r: State)
    requires i < |s.alloc| == |s.need|
    ensures |r.alloc| == |r.need| == |s.alloc| - 1 && r.available == s.available
  {
    State(s.available, s.alloc[..i] + s.alloc[i + 1..], s.need[..i] + s.need[i + 1..])
  }

  /** The number task a has once the row of task i is gone. */
  function Renumbered(a: nat, i: nat): nat
    requires a != i
  {
    if a < i then a else a - 1
  }

  lemma RowOfOther(s: State, i: nat, a: nat)
    requires WellFormed(s) && i < |s.alloc| && a < |s.alloc| && a != i
    ensures WellFormed(WithoutRow(s, i)) && Renumbered(a, i) < |s.alloc| - 1
    ensures WithoutRow(s, i).alloc[Renumbered(a, i)] == s.alloc[a]
    ensures WithoutRow(s, i).need[Renumbered(a, i)] == s.need[a]
  {
  }

  /** An order of the other tasks. */
  function OthersOf(order: seq<nat>, i: nat): seq<nat>
  {
    if order == [] then []
    else if order[0] == i then OthersOf(order[1..], i)
    else [Renumbered(order[0], i)] + OthersOf(order[1..], i)
  }

  lemma {:induction false} OthersAre(order: seq<nat>, i: nat)
    requires Distinct(order)
    ensures |OthersOf(order, i)| == |order| - if i in order then 1 else 0
    ensures forall x: nat :: x in OthersOf(order, i) ==> (if x < i then x else x + 1) in order
    ensures Distinct(OthersOf(order, i))
  {
    if order != [] {
      var rest := order[1..];
      OthersAre(rest, i);
      assert i in order <==> order[0] == i || i in rest;
      if order[0] == i { assert i !in rest; }
      else {
        var d, o := Renumbered(order[0], i), OthersOf(rest, i);
        assert order[0] !in rest;
        assert d !in o;
      }
    }
  }

  /** What the leaving task holds is of no use to the others: they complete in
      the order they had, whether it comes before or after them in it. */
  lemma {:induction false} OthersComplete(s: State, i: nat, w: Vec, w': Vec, order: seq<nat>)
    requires WellFormed(s) && i < |s.alloc| && |w| == |w'| == |s.available|
    requires forall k :: 0 <= k < |order| ==> order[k] < |s.alloc|
    requires forall j :: 0 <= j < |w| && s.alloc[i][j] == 0 ==> w'[j] == w[j]
    requires forall a, j :: 0 <= a < |s.alloc| && a != i && 0 <= j < |w| && s.alloc[i][j] > 0 ==> s.need[a][j] == 0
    requires Completes(s, w, order)
    ensures WellFormed(WithoutRow(s, i))
    ensures forall k :: 0 <= k < |OthersOf(order, i)| ==> OthersOf(order, i)[k] < |s.alloc| - 1
    ensures Completes(WithoutRow(s, i), w', OthersOf(order, i))
    decreases |order|
  {
    if order != [] {
      var a, rest := order[0], order[1..];
      var o := OthersOf(rest, i);
      if a == i {
        OthersComplete(s, i, Plus(w, s.alloc[i]), w', rest);
      } else {
        RowOfOther(s, i, a);
        OthersComplete(s, i, Plus(w, s.alloc[a]), Plus(w', s.alloc[a]), rest);
        var b := Renumbered(a, i);
        assert OthersOf(order, i)[0] == b && OthersOf(order, i)[1..] == o;
        assert Leq(s.need[a], w');
      }
    }
  }

  /** A task leaves with what it holds: safety survives when nobody else needs it. */
  lemma LeavingKeepsSafe(s: State, i: nat)
    requires WellFormed(s) && i < |s.alloc| && IsSafe(s)
    requires forall a, j :: 0 <= a < |s.alloc| && a != i && 0 <= j < |s.available| && s.alloc[i][j] > 0 ==>
      s.need[a][j] == 0
    ensures WellFormed(WithoutRow(s, i)) && IsSafe(WithoutRow(s, i))
  {
    var n := |s.alloc|;
    var order :| TaskOrder(order, n) && Completes(s, s.available, order);
    OrderCovers(order, n, i);
    OthersAre(order, i);
    OthersComplete(s, i, s.available, s.available, order);
    assert TaskOrder(OthersOf(order, i), n - 1);
  }

  /** A resource nobody holds and nothing is free of, and yet needed. */
  lemma LostResourceUnsafe(s: State, j: nat, a: nat)
    requires WellFormed(s) && a < |s.alloc| && j < |s.available| && s.available[j] == 0 && s.need[a][j] > 0
    requires forall b :: 0 <= b < |s.alloc| ==> s.alloc[b][j] == 0
    ensures !IsSafe(s)
  {
    forall order | TaskOrder(order, |s.alloc|) ensures !Completes(s, s.available, order) {
      OrderCovers(order, |s.alloc|, a);
      NeverServed(s, j, a, s.available, order);
    }
  }

  lemma {:induction false} NeverServed(s: State, j: nat, a: nat, w: Vec, order: seq<nat>)
    requires WellFormed(s) && a < |s.alloc| && j < |s.available| == |w| && w[j] == 0 && s.need[a][j] > 0
    requires forall b :: 0 <= b < |s.alloc| ==> s.alloc[b][j] == 0
    requires (forall k :: 0 <= k < |order| ==> order[k] < |s.alloc|) && a in order
    ensures !Completes(s, w, order)
    decreases |order|
  {
    if order[0] != a { NeverServed(s, j, a, Plus(w, s.alloc[order[0]]), order[1..]); }
  }

  /** An unsafe state stays unsafe under every grant. */
  lemma NothingGrantedWhenUnsafe(s: State, i: nat, req: Vec)
    requires WellFormed(s) && i < |s.alloc| && |req| == |s.available| && !IsSafe(s)
    ensures Request(s, i, req).0 != SAFE
  {
    if Leq(req, s.need[i]) && Leq(req, s.available) {
      var g := Granted(s, i, req);
      if IsSafe(g) {
        assert Released(g, i, req, true) == s by {
          assert Plus(g.available, req) == s.available;
          assert Minus(g.alloc[i], req) == s.alloc[i];
          assert Plus(g.need[i], req) == s.need[i];
        }
        ReleaseKeepsSafe(g, i, req, true);
      }
    }
  }
}
