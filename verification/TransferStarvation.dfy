/** What the liveness of the file transfer needs of the scheduler: with a weaker
    promise to the children a round can go on for ever. */
module TransferStarvation {
  import opened Basics
  import opened FileParts
  import opened Transfer
  import opened TransferInv
  import opened TransferChildren
  import opened TransferServer
  import opened TransferSafety
  import opened TransferProgress
  import opened TransferLiveness

  /** Every process, children included, goes on when it can go on for ever. */
  ghost predicate WeaklyFair(st: nat -> State, ac: nat -> Actor)
  {
    && (forall n: nat :: EnabledFrom(st, ClientStep, n) ==> Taken(ac, ClientStep, n))
    && (forall n: nat :: EnabledFrom(st, ServerStep, n) ==> Taken(ac, ServerStep, n))
    && (forall i: nat, n: nat :: EnabledFrom(st, ChildStep(i), n) ==> Taken(ac, ChildStep(i), n))
  }

  // ------------------------------------------ the server goes round, alone

  /** One file, its child waiting for the mutex to write to the shared memory. */
  predicate Starving(s: State)
  {
    && Active(s) && s.client.Joining? && |s.children| == 1
    && s.children[0].Holding? && s.children[0].k == 3
  }

  lemma StarvingLoop(s: State)
    requires Starving(s)
    ensures InLoop(s.server) && Enabled(s, ServerStep) && !Enabled(s, ClientStep) && ChildShaped(s.children[0])
    ensures ServerInside(s.server) ==> !Enabled(s, ChildStep(0))
    ensures !ServerInside(s.server) ==> s.mutex > 0
  {
    hide FlowOk; hide PhaseOk; hide BarrierOk;
    ActiveFacts(s);
    StillOpen(s, 0, 3);
    assert !AllGone(s.children) by { assert !s.children[0].Exited? && !s.children[0].Failed?; }
    MutexFree(s);
    MutexOfFlow(s);
    if ServerInside(s.server) { NobodyInside(s.mutex, s.children, s.server); }
  }

  /** A step of the server does not help the child; outside the mutex it brings
      the server nearer to taking it again. */
  lemma StarvingStep(s: State)
    requires Starving(s)
    ensures Enabled(s, ServerStep) && Starving(Next(s, ServerStep))
    ensures ServerInside(s.server) || Place(Next(s, ServerStep).server) < Place(s.server)
  {
    hide Active; hide ServerNext;
    StarvingLoop(s);
    ActiveFacts(s);
    ServerKeeps(s);
    ActiveFacts(ServerNext(s));
    LoopOnward(s);
    StarvingLoop(ServerNext(s));
    if !ServerInside(s.server) { Approaches(s); }
  }

  lemma Approaches(s: State)
    requires Shaped(s) && ServerShaped(s) && InLoop(s.server) && !ServerInside(s.server) && s.mutex > 0
    requires InLoop(ServerNext(s).server)
    ensures Place(ServerNext(s).server) < Place(s.server)
  {
    hide Update;
  }

  ghost function Alone(s: State, n: nat): State
  {
    if n == 0 then s
    else var t := Alone(s, n - 1); if Enabled(t, ServerStep) then Next(t, ServerStep) else t
  }

  lemma {:induction false} AloneStarves(s: State, n: nat)
    requires Starving(s)
    ensures Starving(Alone(s, n)) && Enabled(Alone(s, n), ServerStep)
    ensures Alone(s, n + 1) == Next(Alone(s, n), ServerStep)
  {
    hide Starving; hide Enabled; hide Next;
    if n > 0 { AloneStarves(s, n - 1); StarvingStep(Alone(s, n - 1)); }
    StarvingStep(Alone(s, n));
  }

  /** Again and again the server is inside. */
  lemma {:induction false} AloneEnters(s: State, n: nat) returns (m: nat)
    requires Starving(s)
    ensures m >= n && !Enabled(Alone(s, m), ChildStep(0))
    decreases Place(Alone(s, n).server)
  {
    hide Starving; hide Enabled; hide Next;
    AloneStarves(s, n);
    StarvingLoop(Alone(s, n));
    if ServerInside(Alone(s, n).server) {
      m := n;
    } else {
      StarvingStep(Alone(s, n));
      m := AloneEnters(s, n + 1);
    }
  }

  // -------------------------------------------------- a run that gets there

  /** A round of one file up to the moment all processes are there: the server
      at its first test, client_0 waiting, the child before the barrier. */
  predicate AllThere(s: State, caps: seq<nat>, job: Job)
  {
    && Shaped(s) && s.caps == caps && s.jobs == [job] && s.client.Joining? && s.server.Test? && s.children == [Fresh]
    && s.barrier == 1 && s.queues == [[], [], []] && s.tok == [TOKENS, TOKENS, TOKENS, TOKENS]
  }

  lemma StepsOf(s: State, a: Actor, t: State)
    requires Reachable(s) && Enabled(s, a) && t == Next(s, a)
    ensures Reachable(t)
  {
    ReachableStep(s, a);
  }

  lemma InitialReachable(caps: seq<nat>)
    requires Capacities(caps)
    ensures Reachable(Initial(caps))
  {
    assert Run(Initial(caps), []) && After(Initial(caps), []) == Initial(caps);
  }

  lemma ServerOpens(caps: seq<nat>, job: Job) returns (s: State)
    requires Capacities(caps) && Accepts(|job.data|)
    ensures Reachable(s) && Shaped(s) && s.caps == caps && s.jobs == [job] && s.client.WaitGreeting? && s.server.Test?
    ensures s.children == [Unborn] && s.waitData == 1 && s.barrier == 1
    ensures s.queues == [[], [], []] && s.tok == [TOKENS, TOKENS, TOKENS, TOKENS]
  {
    hide Reachable; hide NoBooks;
    var s0 := Initial(caps);
    InitialReachable(caps);
    var s1 := StartRound(s0, [job]);
    StepsOf(s0, Start([job]), s1);
    var s2 := s1.(n := 1, announced := None, server := Reset);
    StepsOf(s1, ServerStep, s2);
    var s3 := s2.(flags := seq(SLOTS, _ => false), server := Greet);
    assert s3 == ServerNext(s2);
    StepsOf(s2, ServerStep, s3);
    var s4 := s3.(slots := s3.slots[0 := Greeting(1)], server := Post);
    StepsOf(s3, ServerStep, s4);
    s := s4.(waitData := 1, books := NoBooks(1), received := 0, server := Test);
    StepsOf(s4, ServerStep, s);
  }

  lemma ClientForksOne(caps: seq<nat>, job: Job) returns (s: State)
    requires Capacities(caps) && Accepts(|job.data|)
    ensures Reachable(s) && AllThere(s, caps, job)
  {
    hide Reachable;
    var s0 := ServerOpens(caps, job);
    var s1 := s0.(waitData := 0, client := ReadGreeting);
    StepsOf(s0, ClientStep, s1);
    var s2 := s1.(greeting := Some(s1.slots[0]), client := Forking(0));
    StepsOf(s1, ClientStep, s2);
    var s3 := s2.(children := [Fresh], client := Forking(1));
    StepsOf(s2, ClientStep, s3);
    s := s3.(client := Joining);
    StepsOf(s3, ClientStep, s);
  }

  /** The child at the test of channel k, the channels before it sent. */
  predicate AtTest(s: State, k: nat, sent: seq<bool>, caps: seq<nat>, job: Job)
  {
    && Shaped(s) && s.caps == caps && s.jobs == [job] && s.client.Joining? && k < 4 && |sent| == 4 && !sent[k]
    && s.children == [Try(k, sent)] && s.tok[k] > 0
    && (forall c :: k <= c < 3 ==> s.queues[c] == []) && (forall c :: k < c < 4 ==> s.tok[c] > 0)
  }

  lemma ChildStarts(caps: seq<nat>, job: Job) returns (s: State)
    requires Capacities(caps) && Accepts(|job.data|)
    ensures Reachable(s) && AtTest(s, 0, [false, false, false, false], caps, job)
  {
    hide Reachable;
    var s0 := ClientForksOne(caps, job);
    var s1 := s0.(barrier := 0, children := [Waiting]);
    StepsOf(s0, ChildStep(0), s1);
    var s2 := s1.(children := [Try(4, [false, false, false, false])]);
    StepsOf(s1, ChildStep(0), s2);
    s := s2.(children := [Try(0, [false, false, false, false])]);
    StepsOf(s2, ChildStep(0), s);
  }

  lemma ChildSendsNext(s: State, k: nat, sent: seq<bool>, caps: seq<nat>, job: Job) returns (t: State)
    requires Reachable(s) && AtTest(s, k, sent, caps, job) && k < 3 && !sent[k + 1]
    ensures Reachable(t) && AtTest(t, k + 1, sent[k := true], caps, job)
  {
    hide Reachable; hide MessageOf;
    var s1 := s.(tok := s.tok[k := s.tok[k] - 1], children := [Holding(k, sent)]);
    StepsOf(s, ChildStep(0), s1);
    t := s1.(queues := s1.queues[k := s1.queues[k] + [Item.Part(MessageOf(s1.jobs, 0, k))]],
             children := [Try(k + 1, sent[k := true])]);
    StepsOf(s1, ChildStep(0), t);
  }

  lemma StarvingReached(caps: seq<nat>, job: Job) returns (s: State)
    requires Capacities(caps) && Accepts(|job.data|)
    ensures Reachable(s) && Starving(s) && s.jobs == [job] && s.caps == caps
  {
    hide Reachable; hide FlowOk; hide PhaseOk; hide BarrierOk;
    var s0 := ChildStarts(caps, job);
    var none := [false, false, false, false];
    var s1 := ChildSendsNext(s0, 0, none, caps, job);
    var s2 := ChildSendsNext(s1, 1, none[0 := true], caps, job);
    var s3 := ChildSendsNext(s2, 2, none[0 := true][1 := true], caps, job);
    var sent := none[0 := true][1 := true][2 := true];
    s := s3.(tok := s3.tok[3 := s3.tok[3] - 1], children := [Holding(3, sent)]);
    StepsOf(s3, ChildStep(0), s);
    ReachableInv(s);
  }

  // -------------------------------------------------------------- the theorem

  ghost predicate StuckRun(st: nat -> State, ac: nat -> Actor, caps: seq<nat>, job: Job)
  {
    && Behaviour(st, ac) && WeaklyFair(st, ac) && NeverIdle(st, 0)
    && st(0).caps == caps && st(0).jobs == [job]
  }

  /** For any file and any capacities there is a run in which no process is ever
      able to go on for ever without going on, and in which the round does not
      end: the server keeps taking the mutex and giving it back, and the child
      never gets it. So the children's stronger fairness cannot be dropped. */
  lemma WeakFairnessIsNotEnough(caps: seq<nat>, job: Job)
    requires Capacities(caps) && Accepts(|job.data|)
    ensures exists st: nat -> State, ac: nat -> Actor :: StuckRun(st, ac, caps, job)
  {
    hide Reachable; hide Enabled; hide Next; hide Starving; hide EnabledFrom;
    var s := StarvingReached(caps, job);
    var st: nat -> State := (n: nat) => Alone(s, n);
    var ac: nat -> Actor := (n: nat) => ServerStep;
    forall n: nat ensures StepAt(st, ac, n) { AloneStarves(s, n); }
    forall n: nat ensures Follows(st, s, n) { }
    forall n: nat ensures Taken(ac, ServerStep, n) { assert ac(n) == ServerStep; }
    forall n: nat ensures !EnabledFrom(st, ClientStep, n) { NoClient(st, s, n); }
    forall i: nat, n: nat ensures !EnabledFrom(st, ChildStep(i), n) { NoChild(st, s, i, n); }
    forall n: nat ensures !st(n).client.Idle? { NoClient(st, s, n); }
    assert WeaklyFair(st, ac) && NeverIdle(st, 0);
    assert StuckRun(st, ac, caps, job);
  }

  ghost predicate Follows(st: nat -> State, s: State, n: nat)
  {
    st(n) == Alone(s, n)
  }

  lemma NoClient(st: nat -> State, s: State, n: nat)
    requires Starving(s) && forall m: nat :: Follows(st, s, m)
    ensures !EnabledFrom(st, ClientStep, n) && !st(n).client.Idle?
  {
    hide Enabled; hide Active; hide Alone; hide Next;
    assert Follows(st, s, n);
    AloneStarves(s, n);
    StarvingLoop(Alone(s, n));
    assert !Enabled(st(n), ClientStep);
  }

  lemma NoChild(st: nat -> State, s: State, i: nat, n: nat)
    requires Starving(s) && forall m: nat :: Follows(st, s, m)
    ensures !EnabledFrom(st, ChildStep(i), n)
  {
    hide Enabled; hide Starving; hide Alone; hide Next;
    var m := AloneEnters(s, n);
    assert Follows(st, s, m);
    AloneStarves(s, m);
    if i > 0 { OneChild(Alone(s, m), i); }
    assert !Enabled(st(m), ChildStep(i));
  }

  lemma OneChild(s: State, i: nat)
    requires Starving(s) && i > 0
    ensures !Enabled(s, ChildStep(i))
  {
  }
}
