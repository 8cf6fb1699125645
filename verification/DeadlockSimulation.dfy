/** experimental/deadlock_simulation.c: a release that does not let the task ask
    again, and safety of everything the simulation can reach. */
module DeadlockSimulation {
  import opened Basics
  import opened ArrMath
  import opened Banker
  import DeadlockPrevention

  /** What giving back does word by word. */
  ghost function Freed(s: State, i: nat, req: Vec): State
    requires WellFormed(s) && i < |s.alloc| && |req| == |s.available|
  {
    State(AddVec(s.available, req, |req|), s.alloc[i := SubVec(s.alloc[i], req, |req|)], s.need)
  }

  lemma FreedIsNext(s: State, i: nat, req: Vec)
    requires WellFormed(s) && i < |s.alloc| && |req| == |s.available| && FitsWord(s) && DeadlockPrevention.Words(s)
    requires Leq(req, s.alloc[i])
    ensures Freed(s, i, req) == Next(s, GiveBack(i, req, false))
  {
    ReleaseFits(s, i, req);
  }

  method GivesBack(available: array<U32>, req: array<U32>, alloc: DeadlockPrevention.Matrix,
                   need: DeadlockPrevention.Matrix, task: nat, n: nat, m: nat)
    requires DeadlockPrevention.Laid(available, alloc, need, n, m) && task < n
    requires req.Length == m && req != available && forall i :: 0 <= i < n ==> req != alloc[i] && req != need[i]
    requires WellFormed(DeadlockPrevention.View(available, alloc, need))
    modifies available, alloc[task]
    ensures alloc[..] == old(alloc[..])
    ensures DeadlockPrevention.View(available, alloc, need) ==
      Freed(old(DeadlockPrevention.View(available, alloc, need)), task, req[..])
  {
    assert req[..m] == req[..] && alloc[task][..m] == alloc[task][..];
    Add(available, req, m);
    DeadlockPrevention.SubRow(alloc, task, req, m);
  }

  /** simulation_free: refused when the task holds less than it gives back;
      otherwise free and held move, and the need stays as it is. */
  method SimulationFree(req: array<U32>, task: nat, available: array<U32>,
                        alloc: DeadlockPrevention.Matrix, need: DeadlockPrevention.Matrix, n: nat, m: nat)
    returns (freed: bool)
    requires DeadlockPrevention.Laid(available, alloc, need, n, m) && task < n
    requires req.Length == m && req != available && forall i :: 0 <= i < n ==> req != alloc[i] && req != need[i]
    modifies available, alloc[task]
    ensures alloc[..] == old(alloc[..])
    ensures freed <==> Leq(req[..], old(alloc[task][..]))
    ensures !freed ==>
      DeadlockPrevention.View(available, alloc, need) == old(DeadlockPrevention.View(available, alloc, need))
    ensures old(FitsWord(DeadlockPrevention.View(available, alloc, need))) ==>
      DeadlockPrevention.View(available, alloc, need)
      == Next(old(DeadlockPrevention.View(available, alloc, need)), GiveBack(task, req[..], false))
  {
    ghost var s := DeadlockPrevention.View(available, alloc, need);
    DeadlockPrevention.ViewInWords(available, alloc, need, n, m);
    assert req[..m] == req[..] && alloc[task][..m] == alloc[task][..];
    var lacks := LessAny(alloc[task], req, m);
    if lacks { return false; }
    GivesBack(available, req, alloc, need, task, n, m);
    assert DeadlockPrevention.View(available, alloc, need) == Freed(s, task, req[..]);
    if FitsWord(s) { FreedIsNext(s, task, req[..]); }
    return true;
  }

  lemma ReleaseFits(s: State, i: nat, req: Vec)
    requires WellFormed(s) && i < |s.alloc| && |req| == |s.available| && FitsWord(s) && DeadlockPrevention.Words(s)
    requires Leq(req, s.alloc[i])
    ensures AddVec(s.available, req, |req|) == Plus(s.available, req)
    ensures SubVec(s.alloc[i], req, |req|) == Minus(s.alloc[i], req)
  {
    forall j | 0 <= j < |req| ensures s.available[j] + req[j] < WORD {
      HeldNone(s.alloc, j, |s.alloc|);
      HeldAdd(s.alloc, {}, i, j, |s.alloc|);
      assert {} + {i} == {i};
      HeldMono(s.alloc, {i}, AllTasks(|s.alloc|), j, |s.alloc|);
      assert Total(s, j) < WORD;
    }
  }

  /** The state simulation_init builds from a maximum matrix: nothing held, the
      whole maximum needed. */
  function Initial(available: Vec, max: seq<Vec>): State
  {
    State(available, seq(|max|, _ => seq(|available|, _ => 0)), max)
  }

  /** Whatever locks and frees the simulation performs, in whatever order and
      for any number of tasks and resources, it never leaves the safe states
      and never creates or loses an instance; and it can always go on so that
      every task gets all it may need and finishes. */
  lemma SimulationStaysSafe(available: Vec, max: seq<Vec>, events: seq<Event>)
    requires forall i :: 0 <= i < |max| ==> |max[i]| == |available| && Leq(max[i], available)
    requires Fits(Initial(available, max), events)
    ensures var s := Run(Initial(available, max), events);
      IsSafe(s) && forall j :: 0 <= j < |available| ==> Total(s, j) == available[j]
    ensures exists more :: FinishesAll(Run(Initial(available, max), events), more)
  {
    hide FinishesAll;
    var s := Initial(available, max);
    NeedWithinAvailableIsSafe(s);
    RunStaysSafe(s, events);
    RunCanFinish(s, events);
    RunConserves(s, events);
    forall j | 0 <= j < |available| ensures Total(s, j) == available[j] {
      ZeroHeld(s.alloc, AllTasks(|max|), j, |max|);
    }
  }

  /** At the start every task may ask for anything up to its whole maximum, and
      for nothing beyond it. */
  lemma FirstRequest(available: Vec, max: seq<Vec>, i: nat, req: Vec)
    requires forall t :: 0 <= t < |max| ==> |max[t]| == |available| && Leq(max[t], available)
    requires i < |max| && |req| == |available|
    ensures Request(Initial(available, max), i, req).0 == if Leq(req, max[i]) then SAFE else ERROR
  {
    var s := Initial(available, max);
    NeedWithinAvailableIsSafe(s);
    if Leq(req, max[i]) { EachIsServedWhenIdle(s, i); }
  }

  lemma {:induction false} ZeroHeld(alloc: seq<Vec>, who: set<nat>, j: nat, n: nat)
    requires n <= |alloc| && forall i :: 0 <= i < |alloc| ==> j < |alloc[i]| && alloc[i][j] == 0
    ensures Held(alloc, who, j, n) == 0
  {
    if n > 0 { ZeroHeld(alloc, who, j, n - 1); }
  }
}
