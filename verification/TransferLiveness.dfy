/** Liveness of the file transfer: under fair scheduling every round ends, in
    every infinite run. */
module TransferLiveness {
  import opened Transfer
  import opened TransferInv
  import opened TransferSafety
  import opened TransferProgress

  // -------------------------------------------------------------- infinite runs

  ghost predicate StepAt(st: nat -> State, ac: nat -> Actor, n: nat)
  {
    Enabled(st(n), ac(n)) && st(n + 1) == Next(st(n), ac(n))
  }

  /** An infinite run, any number of rounds. */
  ghost predicate Behaviour(st: nat -> State, ac: nat -> Actor)
  {
    Reachable(st(0)) && forall n: nat :: StepAt(st, ac, n)
  }

  ghost predicate EnabledFrom(st: nat -> State, a: Actor, n: nat)
  {
    forall m: nat :: m >= n ==> Enabled(st(m), a)
  }

  ghost predicate EnabledAgain(st: nat -> State, a: Actor, n: nat)
  {
    exists m: nat :: m >= n && Enabled(st(m), a)
  }

  ghost predicate EnabledOften(st: nat -> State, a: Actor, n: nat)
  {
    forall m: nat :: m >= n ==> EnabledAgain(st, a, m)
  }

  ghost predicate Taken(ac: nat -> Actor, a: Actor, n: nat)
  {
    exists m: nat :: m >= n && ac(m) == a
  }

  /** client_0 and the server go on when they can go on for ever; a child, which
      may have to wait for a semaphore others take, when it can again and again. */
  ghost predicate Fair(st: nat -> State, ac: nat -> Actor)
  {
    && (forall n: nat :: EnabledFrom(st, ClientStep, n) ==> Taken(ac, ClientStep, n))
    && (forall n: nat :: EnabledFrom(st, ServerStep, n) ==> Taken(ac, ServerStep, n))
    && (forall i: nat, n: nat :: EnabledOften(st, ChildStep(i), n) ==> Taken(ac, ChildStep(i), n))
  }

  ghost predicate NeverIdle(st: nat -> State, n: nat)
  {
    forall m: nat :: m >= n ==> !st(m).client.Idle?
  }

  lemma {:induction false} AlwaysReachable(st: nat -> State, ac: nat -> Actor, n: nat)
    requires Behaviour(st, ac)
    ensures Reachable(st(n))
  {
    hide Reachable; hide Enabled; hide Next;
    if n > 0 {
      AlwaysReachable(st, ac, n - 1);
      assert StepAt(st, ac, n - 1);
      ReachableStep(st(n - 1), ac(n - 1));
    }
  }

  lemma ReachableStep(s: State, a: Actor)
    requires Reachable(s) && Enabled(s, a)
    ensures Reachable(Next(s, a))
  {
    hide Enabled; hide Next; hide Initial;
    var caps, actors :| Capacities(caps) && Run(Initial(caps), actors) && s == After(Initial(caps), actors);
    RunSnoc(Initial(caps), actors, a);
    assert Run(Initial(caps), actors + [a]) && Next(s, a) == After(Initial(caps), actors + [a]);
  }

  lemma {:induction false} RunSnoc(s: State, actors: seq<Actor>, a: Actor)
    requires Run(s, actors) && Enabled(After(s, actors), a)
    ensures Run(s, actors + [a]) && After(s, actors + [a]) == Next(After(s, actors), a)
    decreases |actors|
  {
    hide Enabled; hide Next;
    var longer := actors + [a];
    if actors == [] {
      assert longer[1..] == [];
    } else {
      assert longer[0] == actors[0] && longer[1..] == actors[1..] + [a];
      RunSnoc(Next(s, actors[0]), actors[1..], a);
    }
  }

  /** One step of an infinite run within a round. */
  lemma StepOf(st: nat -> State, ac: nat -> Actor, n: nat)
    requires Behaviour(st, ac) && !st(n).client.Idle?
    ensures Inv(st(n)) && Enabled(st(n), ac(n)) && !ac(n).Start? && st(n + 1) == Next(st(n), ac(n))
    ensures ShapedAnd(st(n)) && ShapedAnd(st(n + 1)) && NotAbove(Core(st(n + 1)), Core(st(n)))
  {
    hide Inv; hide Reachable; hide Next; hide Core; hide Shaped; hide ChildrenShaped;
    AlwaysReachable(st, ac, n);
    ReachableInv(st(n));
    assert StepAt(st, ac, n);
    NoStartInRound(st(n), ac(n));
    StepNotAbove(st(n), ac(n));
  }

  lemma NoStartInRound(s: State, a: Actor)
    requires Enabled(s, a) && !s.client.Idle?
    ensures !a.Start?
  {
  }

  lemma ShapeOf(st: nat -> State, ac: nat -> Actor, n: nat)
    requires Behaviour(st, ac)
    ensures Inv(st(n)) && ShapedAnd(st(n))
  {
    hide Reachable; hide Active; hide Opening;
    AlwaysReachable(st, ac, n);
    ReachableInv(st(n));
    ShapedOfInv(st(n));
  }

  ghost function CoreAt(st: nat -> State, n: nat): Rank
  {
    if ShapedAnd(st(n)) then Core(st(n)) else Rank(0, 0, 0, 0)
  }

  lemma {:induction false} CoreFalls(st: nat -> State, ac: nat -> Actor, n: nat, m: nat)
    requires Behaviour(st, ac) && NeverIdle(st, n) && m >= n
    ensures NotAbove(CoreAt(st, m), CoreAt(st, n))
    decreases m - n
  {
    hide Core; hide Behaviour; hide ShapedAnd;
    if m > n {
      CoreFalls(st, ac, n, m - 1);
      StepOf(st, ac, m - 1);
    }
  }

  /** From n on the outstanding work never goes down. */
  ghost predicate Stands(st: nat -> State, n: nat)
  {
    forall m: nat :: m >= n ==> CoreAt(st, m) == CoreAt(st, n)
  }

  ghost predicate Sinks(st: nat -> State, n: nat)
  {
    exists m: nat :: m >= n && Below(CoreAt(st, m), CoreAt(st, n))
  }

  lemma StandsOrSinks(st: nat -> State, ac: nat -> Actor, n: nat)
    requires Behaviour(st, ac) && NeverIdle(st, n)
    ensures Stands(st, n) || Sinks(st, n)
  {
    hide CoreAt; hide Behaviour; hide Below; hide NeverIdle;
    if !Sinks(st, n) {
      forall m: nat | m >= n ensures CoreAt(st, m) == CoreAt(st, n) { CoreFalls(st, ac, n, m); }
    }
  }

  /** One step while the outstanding work stands still. */
  lemma StandingStep(st: nat -> State, ac: nat -> Actor, n: nat, m: nat)
    requires Behaviour(st, ac) && NeverIdle(st, n) && Stands(st, n) && m >= n
    ensures Enabled(st(m), ac(m)) && !ac(m).Start? && st(m + 1) == Next(st(m), ac(m))
    ensures ShapedAnd(st(m)) && ShapedAnd(st(m + 1)) && Core(st(m + 1)) == Core(st(m))
  {
    hide Core; hide Behaviour; hide ShapedAnd; hide Inv; hide Enabled; hide Next;
    StepOf(st, ac, m);
    assert CoreAt(st, m) == CoreAt(st, n) && CoreAt(st, m + 1) == CoreAt(st, n);
  }

  ghost function MinorAt(c: Cause, st: nat -> State, n: nat): nat
  {
    if ShapedAnd(st(n)) then Minor(c, st(n)) else 0
  }

  lemma {:induction false} CauseStays(st: nat -> State, ac: nat -> Actor, n: nat, m: nat, c: Cause)
    requires Behaviour(st, ac) && NeverIdle(st, n) && Stands(st, n) && m >= n && Drives(c, st(n))
    ensures Drives(c, st(m)) && MinorAt(c, st, m) <= MinorAt(c, st, n)
    decreases m - n
  {
    hide Core; hide Behaviour; hide ShapedAnd; hide Drives; hide Minor; hide Enabled; hide Next; hide NeverIdle;
    hide Stands;
    if m > n {
      CauseStays(st, ac, n, m - 1, c);
      StandingStep(st, ac, n, m - 1);
      CausePersists(c, st(m - 1), ac(m - 1));
    }
  }

  lemma CauseIsTaken(st: nat -> State, ac: nat -> Actor, n: nat, c: Cause)
    requires Behaviour(st, ac) && Fair(st, ac) && NeverIdle(st, n) && Stands(st, n) && Drives(c, st(n))
    ensures Taken(ac, ActorOf(c), n)
  {
    hide Behaviour; hide Drives; hide Enabled; hide NeverIdle; hide Stands; hide Taken; hide Core; hide Minor;
    forall m: nat | m >= n ensures Enabled(st(m), ActorOf(c)) {
      CauseStays(st, ac, n, m, c);
      CauseFires(c, st(m));
    }
    assert EnabledFrom(st, ActorOf(c), n);
    assert EnabledOften(st, ActorOf(c), n) by {
      forall m: nat | m >= n ensures EnabledAgain(st, ActorOf(c), m) { assert Enabled(st(m), ActorOf(c)); }
    }
  }

  /** A cause does its work. */
  lemma {:induction false} CauseWorks(st: nat -> State, ac: nat -> Actor, n: nat, c: Cause)
    requires Behaviour(st, ac) && Fair(st, ac) && NeverIdle(st, n) && Drives(c, st(n))
    ensures Sinks(st, n)
    decreases MinorAt(c, st, n)
  {
    hide Behaviour; hide Fair; hide Drives; hide Enabled; hide Next; hide Core; hide Minor; hide ShapedAnd;
    hide CoreAt; hide Below;
    StandsOrSinks(st, ac, n);
    if Stands(st, n) {
      CauseIsTaken(st, ac, n, c);
      var m: nat :| m >= n && ac(m) == ActorOf(c);
      CauseStays(st, ac, n, m, c);
      StandingStep(st, ac, n, m);
      CausePersists(c, st(m), ac(m));
      CauseWorks(st, ac, m + 1, c);
      SinksLater(st, n, m + 1);
    }
  }

  lemma SinksLater(st: nat -> State, n: nat, m: nat)
    requires Sinks(st, m) && m >= n && CoreAt(st, m) == CoreAt(st, n)
    ensures Sinks(st, n)
  {
  }

  // ------------------------------------------------ waiting for the mutex

  lemma {:induction false} WaitStays(st: nat -> State, ac: nat -> Actor, n: nat, m: nat, i: nat)
    requires Behaviour(st, ac) && NeverIdle(st, n) && Stands(st, n) && m >= n && MutexWait(st(n), i)
    ensures MutexWait(st(m), i)
    decreases m - n
  {
    hide Core; hide Behaviour; hide ShapedAnd; hide MutexWait; hide Enabled; hide Next; hide NeverIdle; hide Stands;
    if m > n {
      WaitStays(st, ac, n, m - 1, i);
      StandingStep(st, ac, n, m - 1);
      WaitPersists(st(m - 1), ac(m - 1), i);
    }
  }

  /** The server, inside, stays where it is until it takes a step of its own. */
  lemma {:induction false} InsideUntil(st: nat -> State, ac: nat -> Actor, n: nat, m: nat, l: nat, i: nat)
    requires Behaviour(st, ac) && NeverIdle(st, n) && Stands(st, n) && n <= m <= l && MutexWait(st(n), i)
    requires forall k: nat :: m <= k < l ==> ac(k) != ServerStep
    ensures st(l).server == st(m).server
    decreases l - m
  {
    hide Core; hide Behaviour; hide ShapedAnd; hide MutexWait; hide Enabled; hide Next; hide NeverIdle; hide Stands;
    if l > m {
      InsideUntil(st, ac, n, m, l - 1, i);
      WaitStays(st, ac, n, l - 1, i);
      StandingStep(st, ac, n, l - 1);
      WaitPersists(st(l - 1), ac(l - 1), i);
    }
  }

  /** The first step of the server from m on. */
  lemma {:induction false} FirstServerStep(ac: nat -> Actor, m: nat, l: nat) returns (k: nat)
    requires m <= l && ac(l) == ServerStep
    ensures m <= k <= l && ac(k) == ServerStep && forall j: nat :: m <= j < k ==> ac(j) != ServerStep
    decreases l - m
  {
    if j: nat :| m <= j < l && ac(j) == ServerStep { k := FirstServerStep(ac, m, j); } else { k := l; }
  }

  lemma ServerKeepsGoing(st: nat -> State, ac: nat -> Actor, n: nat, m: nat, i: nat)
    requires Behaviour(st, ac) && Fair(st, ac) && NeverIdle(st, n) && Stands(st, n) && m >= n && MutexWait(st(n), i)
    ensures Taken(ac, ServerStep, m)
  {
    hide Behaviour; hide MutexWait; hide Enabled; hide NeverIdle; hide Stands; hide Taken;
    forall l: nat | l >= m ensures Enabled(st(l), ServerStep) {
      WaitStays(st, ac, n, l, i);
      WaitServer(st(l), i);
    }
    assert EnabledFrom(st, ServerStep, m);
  }

  /** Again and again the mutex is free. */
  lemma {:induction false} MutexComesFree(st: nat -> State, ac: nat -> Actor, n: nat, m: nat, i: nat)
    requires Behaviour(st, ac) && Fair(st, ac) && NeverIdle(st, n) && Stands(st, n) && m >= n && MutexWait(st(n), i)
    ensures EnabledAgain(st, ChildStep(i), m)
    decreases Place(st(m).server)
  {
    hide Behaviour; hide Fair; hide MutexWait; hide Enabled; hide Next; hide NeverIdle; hide Stands; hide Core;
    hide ShapedAnd;
    WaitStays(st, ac, n, m, i);
    WaitServer(st(m), i);
    if !ServerInside(st(m).server) {
      assert Enabled(st(m), ChildStep(i));
    } else {
      ServerKeepsGoing(st, ac, n, m, i);
      var l: nat :| l >= m && ac(l) == ServerStep;
      var k := FirstServerStep(ac, m, l);
      InsideUntil(st, ac, n, m, k, i);
      WaitStays(st, ac, n, k, i);
      StandingStep(st, ac, n, k);
      ServerGoesOut(st(k), i);
      if ServerInside(st(k + 1).server) {
        MutexComesFree(st, ac, n, k + 1, i);
      } else {
        WaitStays(st, ac, n, k + 1, i);
        WaitServer(st(k + 1), i);
      }
    }
  }

  /** A child that waits for the mutex gets it. */
  lemma MutexWorks(st: nat -> State, ac: nat -> Actor, n: nat, i: nat)
    requires Behaviour(st, ac) && Fair(st, ac) && NeverIdle(st, n) && MutexWait(st(n), i)
    ensures Sinks(st, n)
  {
    hide Behaviour; hide MutexWait; hide Enabled; hide Next; hide NeverIdle; hide Core; hide ShapedAnd;
    hide EnabledAgain; hide EnabledFrom;
    StandsOrSinks(st, ac, n);
    if Stands(st, n) && !Sinks(st, n) {
      assert EnabledOften(st, ChildStep(i), n) by {
        forall m: nat | m >= n ensures EnabledAgain(st, ChildStep(i), m) { MutexComesFree(st, ac, n, m, i); }
      }
      var m: nat :| m >= n && ac(m) == ChildStep(i);
      WaitStays(st, ac, n, m, i);
      StandingStep(st, ac, n, m);
      WaitPersists(st(m), ac(m), i);
    }
  }

  // -------------------------------------------------------------- the theorem

  lemma {:induction false} NoEndlessRound(st: nat -> State, ac: nat -> Actor, n: nat)
    requires Behaviour(st, ac) && Fair(st, ac) && NeverIdle(st, n)
    ensures false
    decreases CoreAt(st, n).stage, CoreAt(st, n).left, CoreAt(st, n).effort, CoreAt(st, n).lap
  {
    hide Behaviour; hide Fair; hide Inv; hide CoreAt; hide Drives; hide MutexWait; hide ShapedAnd;
    ShapeOf(st, ac, n);
    UnfinishedStirs(st(n));
    if c :| Drives(c, st(n)) {
      CauseWorks(st, ac, n, c);
    } else {
      var i: nat :| MutexWait(st(n), i);
      MutexWorks(st, ac, n, i);
    }
    var m: nat :| m >= n && Below(CoreAt(st, m), CoreAt(st, n));
    NoEndlessRound(st, ac, m);
  }

  /** In every fair infinite run every round ends, and ends well: from any moment
      on there is a later one at which client_0 is idle, each file of the round
      has been written exactly once with its own text, and nothing is in transit. */
  lemma EveryRoundEnds(st: nat -> State, ac: nat -> Actor, n: nat)
    requires Behaviour(st, ac) && Fair(st, ac)
    ensures exists m: nat :: m >= n && Delivered(st(m))
  {
    hide Behaviour; hide Fair; hide Delivered;
    if NeverIdle(st, n) { NoEndlessRound(st, ac, n); }
    var m: nat :| m >= n && st(m).client.Idle?;
    AlwaysReachable(st, ac, m);
    IdleDelivered(st(m));
  }

  ghost predicate Delivered(s: State)
  {
    && s.client.Idle? && Shaped(s) && AllQuiet(s)
    && (forall i :: 0 <= i < |s.jobs| ==> Logged(s.books.log, i, FileText(s.jobs[i])))
    && (forall k, l :: 0 <= k < l < |s.books.log| ==> s.books.log[k].0 != s.books.log[l].0)
  }

  lemma IdleDelivered(s: State)
    requires Reachable(s) && s.client.Idle?
    ensures Delivered(s)
  {
    hide Reachable; hide FileText; hide AllQuiet; hide Shaped;
    RoundLeaves(s);
  }
}
