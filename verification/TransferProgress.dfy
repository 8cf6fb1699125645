/** Progress of the file transfer: no step makes the outstanding work grow,
    something always brings it down, and from every reachable state the round can
    be completed. */
module TransferProgress {
  import opened FileParts
  import opened Transfer
  import opened TransferInv
  import opened TransferChildren
  import opened TransferServer
  import opened TransferSafety
  import opened TransferOnce

  // ---------------------------------------------------------- outstanding work

  function Unsent(sent: seq<bool>): nat
    requires |sent| == PARTS
  {
    (if sent[0] then 0 else 1) + (if sent[1] then 0 else 1) + (if sent[2] then 0 else 1) + if sent[3] then 0 else 1
  }

  /** What a child has still to do, wherever it is in its round of attempts. */
  function Weight(ch: Child): nat
    requires ChildShaped(ch)
  {
    match ch
    case Unborn => 183
    case Fresh => 182
    case Waiting => 181
    case Try(_, sent) => 40 * Unsent(sent) + 20
    case Holding(k, sent) => 40 * Unsent(sent[k := true]) + 39
    case Inside(sent) => 40 * Unsent(sent[3 := true]) + 38
    case Copied(sent, _) => 40 * Unsent(sent[3 := true]) + 37
    case Flagged(sent, _) => 40 * Unsent(sent[3 := true]) + 36
    case Exited => 0
    case Failed => 0
  }

  function Weights(children: seq<Child>): nat
    requires forall i :: 0 <= i < |children| ==> ChildShaped(children[i])
  {
    if children == [] then 0 else Weight(children[0]) + Weights(children[1..])
  }

  lemma {:induction false} WeightsUpdate(children: seq<Child>, i: nat, ch: Child)
    requires (forall j :: 0 <= j < |children| ==> ChildShaped(children[j])) && i < |children| && ChildShaped(ch)
    ensures Weights(children[i := ch]) + Weight(children[i]) == Weights(children) + Weight(ch)
  {
    hide Weight; hide ChildShaped;
    if i == 0 {
      assert children[i := ch][1..] == children[1..];
    } else {
      assert children[i := ch][1..] == children[1..][i - 1 := ch];
      WeightsUpdate(children[1..], i - 1, ch);
    }
  }

  function Tail(sv: Server): nat
  {
    if InLoop(sv) then 3 else if sv.Finish? then 2 else if sv.SendEnd? then 1 else 0
  }

  function ClientStage(cl: Client): nat
  {
    match cl
    case WaitGreeting => 6
    case ReadGreeting => 5
    case Forking(_) => 4
    case Joining => 3
    case WaitDone => 2
    case RecvEnd => 1
    case Idle => 0
  }

  /** Stage of client_0, messages not yet received, work of the children, last
      steps of the server; compared in this order. */
  datatype Rank = Rank(stage: nat, left: nat, effort: nat, lap: nat)

  predicate Below(a: Rank, b: Rank)
  {
    a.stage < b.stage || (a.stage == b.stage && (a.left < b.left ||
      (a.left == b.left && (a.effort < b.effort || (a.effort == b.effort && a.lap < b.lap)))))
  }

  /** What is left of the round. No step makes it grow. */
  function Core(s: State): Rank
    requires Shaped(s) && ChildrenShaped(s.children)
  {
    if s.client.WaitGreeting? && !InLoop(s.server) then
      Rank(7, match s.server { case AwaitN => 3 case Reset => 2 case Greet => 1 case _ => 0 }, 0, 0)
    else
      Rank(ClientStage(s.client), if s.received <= 4 * |s.jobs| then 4 * |s.jobs| - s.received else 0,
           Weights(s.children), Tail(s.server))
  }

  predicate NotAbove(a: Rank, b: Rank)
  {
    a == b || Below(a, b)
  }

  // ----------------------------------------------- the way to the next message

  /** A channel from k on is still to be sent. */
  predicate Owes(k: nat, sent: seq<bool>)
    requires |sent| == PARTS
  {
    (k <= 0 && !sent[0]) || (k <= 1 && !sent[1]) || (k <= 2 && !sent[2]) || (k <= 3 && !sent[3])
  }

  /** The same with the way to its next attempt. */
  function Effort(ch: Child): nat
    requires ChildShaped(ch)
  {
    match ch
    case Unborn => 182
    case Fresh => 181
    case Waiting => 180
    case Try(k, sent) => 40 * Unsent(sent) + (4 - k) + if Owes(k, sent) then 0 else 6
    case Holding(k, sent) => 40 * Unsent(sent[k := true]) + 39
    case Inside(sent) => 40 * Unsent(sent[3 := true]) + 38
    case Copied(sent, _) => 40 * Unsent(sent[3 := true]) + 37
    case Flagged(sent, _) => 40 * Unsent(sent[3 := true]) + 36
    case Exited => 0
    case Failed => 0
  }

  predicate AnyFlag(flags: seq<bool>)
  {
    exists k :: 0 <= k < |flags| && flags[k]
  }

  /** Something for the server ahead in this lap of its loop. */
  predicate Ahead(s: State)
    requires Shaped(s)
  {
    match s.server
    case Poll(c) => (c <= 0 && s.queues[0] != []) || (c <= 1 && s.queues[1] != []) || (c <= 2 && s.queues[2] != []) ||
      AnyFlag(s.flags)
    case Locked => AnyFlag(s.flags)
    case Unlock => false
    case _ => true
  }

  function Place(sv: Server): nat
  {
    match sv
    case Test => 20
    case Poll(c) => if c < 4 then 19 - 4 * c else 0
    case Got(c, _) => if c < 3 then 18 - 4 * c else 0
    case Credited(c, _) => if c < 3 then 17 - 4 * c else 0
    case Locked => 6
    case Stored(_) => 5
    case Returned(_) => 4
    case Unlock => 3
    case Finish => 2
    case SendEnd => 1
    case AwaitN => 0
    case _ => 0
  }

  /** Something for the server to take, somewhere. */
  predicate Avail(s: State)
    requires Shaped(s)
  {
    s.queues[0] != [] || s.queues[1] != [] || s.queues[2] != [] || AnyFlag(s.flags) || s.server.Got? ||
      s.server.Credited?
  }

  /** The server's way to its next message. */
  function Lap(s: State): nat
    requires Shaped(s)
  {
    Place(s.server) + if Ahead(s) then 0 else 21
  }

  // ----------------------------------------------------- one step, any process

  lemma ChildFrame(s: State, i: nat)
    requires Shaped(s) && i < |s.children| && ChildShaped(s.children[i]) && ChildEnabled(s, i)
    ensures |ChildNext(s, i).children| == |s.children|
    ensures ChildNext(s, i).children == s.children[i := ChildNext(s, i).children[i]]
    ensures ChildNext(s, i).client == s.client && ChildNext(s, i).server == s.server
    ensures ChildNext(s, i).received == s.received && ChildNext(s, i).jobs == s.jobs
  {
  }

  /** A step of the child that is not a failed attempt. */
  predicate Advances(ch: Child, next: Child)
  {
    match ch
    case Fresh => next.Waiting?
    case Waiting => next == Try(4, [false, false, false, false])
    case Try(k, sent) =>
      if k == 4 then (if AllSent(sent) then next == Exited else next == Try(0, sent))
      else if k < |sent| && sent[k] then next == Try(k + 1, sent) else next == Holding(k, sent)
    case Holding(k, sent) => if k < 3 then k < |sent| && next == Try(k + 1, sent[k := true]) else next == Inside(sent)
    case Inside(sent) => next.Copied? && next.sent == sent
    case Copied(sent, slot) => next == Flagged(sent, slot)
    case Flagged(sent, slot) => |sent| == PARTS && next == Try(4, sent[3 := true])
    case _ => false
  }

  lemma AdvancesLowers(ch: Child, next: Child)
    requires ChildShaped(ch) && ChildShaped(next) && Advances(ch, next)
    ensures Effort(next) < Effort(ch)
  {
  }

  lemma AdvancesLightens(ch: Child, next: Child)
    requires ChildShaped(ch) && ChildShaped(next) && Advances(ch, next)
    ensures Weight(next) <= Weight(ch)
    ensures Weight(next) == Weight(ch) ==> ch.Try? && next.Try? && next == Turned(ch)
  {
  }

  lemma TurnedLightens(ch: Child)
    requires ChildShaped(ch) && (ch.Try? || ch.Waiting?)
    ensures ChildShaped(Turned(ch)) && Weight(Turned(ch)) <= Weight(ch)
    ensures Weight(Turned(ch)) == Weight(ch) ==> ch.Try? && Turned(ch).Try? && Turned(ch).sent == ch.sent
  {
  }

  /** A step of a child moves it forward, or on to its next attempt. */
  lemma ChildMoves(s: State, i: nat)
    requires Shaped(s) && i < |s.children| && ChildShaped(s.children[i]) && ChildEnabled(s, i)
    requires s.children[i].Inside? ==> Find(s.flags, false) != -1
    ensures var ch, next := s.children[i], ChildNext(s, i).children[i];
      Advances(ch, next) || (ch.Try? && next == Turned(ch) && ChildNext(s, i) == s.(children := s.children[i := next]))
  {
  }

  predicate ShapedAnd(s: State)
  {
    Shaped(s) && ChildrenShaped(s.children)
  }

  /** Child i has made an attempt in vain: nothing has changed but its place. */
  predicate TriesAgain(s: State, t: State, i: nat)
  {
    && i < |s.children| && ChildShaped(s.children[i]) && s.children[i].Try?
    && Turned(s.children[i]).Try? && t == s.(children := s.children[i := Turned(s.children[i])])
  }

  lemma AdvancesFrame(s: State, i: nat)
    requires Shaped(s) && i < |s.children| && ChildShaped(s.children[i]) && ChildEnabled(s, i)
    requires s.children[i].Try? && ChildNext(s, i).children[i] == Turned(s.children[i])
    ensures ChildNext(s, i) == s.(children := s.children[i := Turned(s.children[i])])
  {
  }

  lemma ChildCore(s: State, i: nat)
    requires Active(s) && i < |s.children| && ChildEnabled(s, i)
    ensures Active(ChildNext(s, i)) && ShapedAnd(s) && ShapedAnd(ChildNext(s, i))
    ensures NotAbove(Core(ChildNext(s, i)), Core(s))
    ensures Core(ChildNext(s, i)) == Core(s) ==> TriesAgain(s, ChildNext(s, i), i)
  {
    hide Active; hide Advances; hide ChildNext; hide Weights; hide Weight; hide ChildShaped; hide ChildEnabled;
    hide Turned;
    ActiveFacts(s);
    ChildKeeps(s, i);
    ActiveFacts(ChildNext(s, i));
    ChildFrame(s, i);
    if s.children[i].Inside? { SlotIsFree(s, i); }
    ChildMoves(s, i);
    var ch, next := s.children[i], ChildNext(s, i).children[i];
    WeightsUpdate(s.children, i, next);
    if Advances(ch, next) { AdvancesLightens(ch, next); if Weight(next) == Weight(ch) { AdvancesFrame(s, i);
      } } else { TurnedLightens(ch); }
  }

  /** The server has gone round without storing or clearing anything. */
  predicate GoesRound(s: State, t: State)
  {
    && Shaped(s) && Shaped(t) && InLoop(s.server) && InLoop(t.server)
    && t.jobs == s.jobs && t.client == s.client && t.children == s.children && t.received == s.received
    && t.barrier == s.barrier && t.waitData == s.waitData && t.done == s.done && t.flags == s.flags && t.caps == s.caps
    && (forall k :: 0 <= k < PARTS ==> t.tok[k] >= s.tok[k])
    && (forall c :: 0 <= c < 3 ==> |t.queues[c]| <= |s.queues[c]|)
    && (forall c :: 0 <= c < 3 && t.queues[c] == [] && s.queues[c] != [] ==> t.server.Got?)
    && (s.server.Got? <==> t.server.Credited?) && !s.server.Credited? && !s.server.Returned?
    && (t.server.Got? ==> t.server.c < 3 && s.queues[t.server.c] != [])
  }

  lemma LoopRounds(s: State)
    requires Shaped(s) && ServerShaped(s) && ServerEnabled(s) && InLoop(s.server) && Shaped(ServerNext(s))
    requires InLoop(ServerNext(s).server) && ServerNext(s).received == s.received
    ensures GoesRound(s, ServerNext(s))
  {
    hide Update;
  }

  lemma LoopOnward(s: State)
    requires Shaped(s) && ServerShaped(s) && ServerEnabled(s) &&
      (InLoop(s.server) || s.server.Finish? || s.server.SendEnd?)
    requires InLoop(ServerNext(s).server) || Over(ServerNext(s).server)
    ensures ServerNext(s).jobs == s.jobs && ServerNext(s).client == s.client && ServerNext(s).children == s.children
    ensures s.received <= ServerNext(s).received && Tail(ServerNext(s).server) <= Tail(s.server)
    ensures Tail(ServerNext(s).server) == Tail(s.server) ==> InLoop(s.server) && InLoop(ServerNext(s).server)
  {
    hide Update;
  }

  lemma ServerCore(s: State)
    requires Active(s) && ServerEnabled(s)
    ensures Active(ServerNext(s)) && ShapedAnd(s) && ShapedAnd(ServerNext(s))
    ensures NotAbove(Core(ServerNext(s)), Core(s))
    ensures Core(ServerNext(s)) == Core(s) ==> GoesRound(s, ServerNext(s))
  {
    hide Active; hide ServerNext; hide Weights; hide GoesRound;
    ActiveFacts(s);
    ServerKeeps(s);
    ActiveFacts(ServerNext(s));
    ActiveFacts(s);
    LoopOnward(s);
    if InLoop(s.server) && InLoop(ServerNext(s).server) && ServerNext(s).received == s.received { LoopRounds(s); }
  }

  lemma ForkLightens()
    ensures ChildShaped(Fresh) && ChildShaped(Unborn) && Weight(Fresh) < Weight(Unborn)
  {
  }

  lemma ClientCore(s: State)
    requires Active(s) && ClientEnabled(s)
    ensures Active(ClientNext(s)) && ShapedAnd(s) && ShapedAnd(ClientNext(s))
    ensures Below(Core(ClientNext(s)), Core(s))
  {
    hide Active; hide Weights; hide Weight; hide ChildShaped; hide Opening;
    ActiveFacts(s);
    ClientKeeps(s);
    ActiveFacts(ClientNext(s));
    if s.client.Forking? && s.client.i < |s.children| {
      ForkFacts(s, s.client.i);
      ForkLightens();
      WeightsUpdate(s.children, s.client.i, Fresh);
    }
  }

  lemma OpeningEnabled(s: State)
    requires Opening(s)
    ensures Enabled(s, ServerStep)
  {
  }

  lemma OpeningLowers(s: State)
    requires Opening(s)
    ensures ServerNext(s).client == s.client &&
      (if s.server.Post? then InLoop(ServerNext(s).server) else !InLoop(ServerNext(s).server))
  {
  }

  lemma OpeningCore(s: State)
    requires Opening(s)
    ensures Enabled(s, ServerStep) && Inv(ServerNext(s)) && ShapedAnd(s) && ShapedAnd(ServerNext(s))
    ensures Below(Core(ServerNext(s)), Core(s))
    ensures !s.server.Post? ==> Opening(ServerNext(s))
  {
    hide Active; hide Weights; hide ChildShaped;
    OpeningEnabled(s);
    OpeningLowers(s);
    if s.server.Post? { OpeningEnds(s); ActiveFacts(ServerNext(s)); } else { OpeningKeeps(s); }
  }

  lemma OnlyServerOpens(s: State, a: Actor)
    requires Opening(s) && Enabled(s, a)
    ensures a.ServerStep?
  {
  }

  /** No step of a round makes the outstanding work grow. */
  lemma StepNotAbove(s: State, a: Actor)
    requires Inv(s) && Enabled(s, a) && !a.Start?
    ensures Inv(Next(s, a)) && ShapedAnd(s) && ShapedAnd(Next(s, a))
    ensures NotAbove(Core(Next(s, a)), Core(s))
  {
    hide Active; hide Opening; hide Core; hide Below;
    if Opening(s) {
      OnlyServerOpens(s, a);
      OpeningCore(s);
    } else {
      match a
      case ClientStep => ClientCore(s);
      case ChildStep(i) => ChildCore(s, i);
      case ServerStep => ServerCore(s);
    }
  }

  // -------------------------------------------------------------------- causes

  /** Why a state cannot last: which process, left alone or not, will bring the
      outstanding work down. */
  datatype Cause = ByOpening | ByClient | ByOver | ByChild(i: nat) | ByLap | ByTry(i: nat)

  function ActorOf(c: Cause): Actor
  {
    match c
    case ByClient => ClientStep
    case ByChild(i) => ChildStep(i)
    case ByTry(i) => ChildStep(i)
    case _ => ServerStep
  }

  predicate NoneInside(children: seq<Child>)
  {
    forall i :: 0 <= i < |children| ==> Reading(Section, children[i]) == 0
  }

  /** A child whose next step is forward and which nobody can hold up. */
  predicate Steady(s: State, i: nat)
    requires Shaped(s)
  {
    i < |s.children| && ChildShaped(s.children[i]) && !s.children[i].Try? &&
      !(s.children[i].Holding? && s.children[i].k == 3) && ChildEnabled(s, i)
  }

  predicate Drives(c: Cause, s: State)
  {
    match c
    case ByOpening => Opening(s)
    case ByClient => Active(s) && ClientEnabled(s)
    case ByOver => Active(s) && (s.server.Finish? || s.server.SendEnd?)
    case ByChild(i) => Active(s) && Steady(s, i)
    case ByLap => Active(s) && InLoop(s.server) && (Avail(s) || s.received == 4 * |s.jobs|) && NoneInside(s.children)
    case ByTry(i) => Active(s) && i < |s.children| && s.children[i].Try? && forall k :: 0 <= k < PARTS ==> s.tok[k] > 0
  }

  /** What goes down while the outstanding work does not: the server's way to its
      next message, or the child's way to its next attempt. */
  function Minor(c: Cause, s: State): nat
    requires ShapedAnd(s)
  {
    match c
    case ByLap => Lap(s)
    case ByTry(i) => if i < |s.children| then Effort(s.children[i]) else 0
    case _ => 0
  }

  /** The step the cause names brings something down. */
  predicate Fires(c: Cause, s: State)
  {
    && Enabled(s, ActorOf(c)) && ShapedAnd(s) && ShapedAnd(Next(s, ActorOf(c)))
    && (Below(Core(Next(s, ActorOf(c))), Core(s)) ||
        (Core(Next(s, ActorOf(c))) == Core(s) && Minor(c, Next(s, ActorOf(c))) < Minor(c, s)))
  }

  lemma OverFires(s: State)
    requires Drives(ByOver, s)
    ensures Fires(ByOver, s)
  {
    hide FlowOk; hide PhaseOk; hide BarrierOk; hide SentOut; hide Core; hide Below;
    ActiveFacts(s);
    OverIsDrained(s);
    ServerCore(s);
  }

  lemma ChildFires(s: State, i: nat)
    requires Drives(ByChild(i), s)
    ensures Fires(ByChild(i), s)
  {
    hide Active; hide Core; hide Below; hide Turned; hide ChildNext;
    ActiveFacts(s);
    ChildCore(s, i);
  }

  /** A server step, in its loop, towards the next message or out of the loop. */
  lemma LoopLowers(s: State)
    requires Shaped(s) && ServerShaped(s) && InLoop(s.server) && s.received <= 4 * |s.jobs| && s.n == |s.jobs|
    requires Avail(s) || s.received == 4 * |s.jobs|
    requires s.server == Poll(3) ==> s.mutex > 0
    requires Shaped(ServerNext(s)) && (InLoop(ServerNext(s).server) || Over(ServerNext(s).server))
    ensures ServerNext(s).received > s.received || Tail(ServerNext(s).server) < Tail(s.server) ||
      Lap(ServerNext(s)) < Lap(s)
  {
    hide Update;
  }

  /** Nobody holds the mutex, unless the server. */
  lemma MutexFree(s: State)
    requires Active(s) && forall i :: 0 <= i < |s.children| ==> Reading(Section, s.children[i]) == 0
    ensures s.mutex > 0 || ServerInside(s.server)
  {
    TotalNone(Section, s.children);
  }

  lemma LapFires(s: State)
    requires Drives(ByLap, s)
    ensures Fires(ByLap, s)
  {
    hide Active; hide Avail; hide Opening; hide ServerNext; hide Lap; hide Weights;
    ActiveFacts(s);
    MutexFree(s);
    ServerCore(s);
    ActiveFacts(ServerNext(s));
    LoopOnward(s);
    LoopLowers(s);
  }

  lemma TryAdvances(s: State, i: nat)
    requires Shaped(s) && i < |s.children| && ChildShaped(s.children[i]) && s.children[i].Try?
    requires forall k :: 0 <= k < PARTS ==> s.tok[k] > 0
    ensures ChildEnabled(s, i) && Advances(s.children[i], ChildNext(s, i).children[i])
  {
  }

  lemma TryFires(s: State, i: nat)
    requires Drives(ByTry(i), s)
    ensures Fires(ByTry(i), s)
  {
    hide Active; hide Core; hide Below; hide Turned; hide Effort;
    ActiveFacts(s);
    TryAdvances(s, i);
    ChildCore(s, i);
    AdvancesLowers(s.children[i], ChildNext(s, i).children[i]);
  }

  lemma DrivesWhat(c: Cause, s: State)
    requires Drives(c, s)
    ensures if c.ByOpening? then Opening(s) else Active(s) && (c.ByClient? ==> ClientEnabled(s))
  {
  }

  lemma CauseFires(c: Cause, s: State)
    requires Drives(c, s)
    ensures Fires(c, s)
  {
    hide Active; hide Core; hide Below; hide Opening; hide Drives;
    DrivesWhat(c, s);
    match c
    case ByOpening => OpeningCore(s);
    case ByClient => ActiveFacts(s); ClientCore(s);
    case ByOver => OverFires(s);
    case ByChild(i) => ChildFires(s, i);
    case ByLap => LapFires(s);
    case ByTry(i) => TryFires(s, i);
  }

  // ---------------------------------------------- a cause lasts until it works

  lemma TriesPersists(c: Cause, s: State, t: State, j: nat)
    requires Drives(c, s) && !c.ByOpening? && TriesAgain(s, t, j) && Active(t) && ShapedAnd(s) && ShapedAnd(t)
    ensures Drives(c, t) && (c != ByTry(j) ==> Minor(c, t) == Minor(c, s))
  {
    hide Active; hide Opening; hide Effort;
    var ch := Turned(s.children[j]);
    assert Reading(Section, ch) == 0;
    assert forall i :: 0 <= i < |s.children| && i != j ==> t.children[i] == s.children[i];
    assert !AllGone(s.children);
  }

  lemma RoundPersists(c: Cause, s: State, t: State)
    requires Drives(c, s) && !c.ByOpening? && GoesRound(s, t) && Active(t) && ShapedAnd(s) && ShapedAnd(t) &&
      !s.client.RecvEnd?
    ensures Drives(c, t) && (!c.ByLap? ==> Minor(c, t) == Minor(c, s))
  {
    hide Active; hide Opening; hide Effort;
  }

  lemma RoundIsLoop(s: State, t: State)
    requires GoesRound(s, t)
    ensures InLoop(s.server)
  {
  }

  lemma CausePersists(c: Cause, s: State, a: Actor)
    requires Drives(c, s) && Enabled(s, a) && !a.Start? && ShapedAnd(s) && ShapedAnd(Next(s, a)) &&
      Core(Next(s, a)) == Core(s)
    ensures Drives(c, Next(s, a)) && Minor(c, Next(s, a)) <= Minor(c, s)
    ensures a == ActorOf(c) ==> Minor(c, Next(s, a)) < Minor(c, s)
  {
    hide Active; hide Opening; hide Core; hide Drives; hide Minor; hide TriesAgain; hide GoesRound;
    DrivesWhat(c, s);
    if a == ActorOf(c) { CauseFires(c, s); }
    if c.ByOpening? {
      OnlyServerOpens(s, a);
      OpeningCore(s);
    } else {
      match a
      case ClientStep => ClientCore(s);
      case ChildStep(i) => ChildCore(s, i); TriesPersists(c, s, Next(s, a), i);
      case ServerStep => ServerCore(s); RoundIsLoop(s, Next(s, a)); ActiveFacts(s); RoundPersists(c, s, Next(s, a));
    }
  }

  // ----------------------------------------------------- waiting for the mutex

  /** A child that waits for the mutex, which the server keeps taking in vain. */
  predicate MutexWait(s: State, i: nat)
  {
    && Active(s) && i < |s.children| && s.children[i].Holding? && s.children[i].k == 3
    && InLoop(s.server) && !Avail(s) && NoneInside(s.children)
  }

  lemma WaitTries(s: State, t: State, i: nat, j: nat)
    requires MutexWait(s, i) && TriesAgain(s, t, j) && Active(t)
    ensures MutexWait(t, i) && t.server == s.server && i != j
  {
    hide Active;
    ActiveFacts(s);
    assert Reading(Section, Turned(s.children[j])) == 0;
  }

  lemma WaitRounds(s: State, t: State, i: nat)
    requires MutexWait(s, i) && GoesRound(s, t) && Active(t)
    ensures MutexWait(t, i)
  {
    hide Active;
    ActiveFacts(s);
    assert |t.queues[0]| <= |s.queues[0]| && |t.queues[1]| <= |s.queues[1]| && |t.queues[2]| <= |s.queues[2]|;
  }

  lemma WaitPersists(s: State, a: Actor, i: nat)
    requires MutexWait(s, i) && Enabled(s, a) && !a.Start? && ShapedAnd(s) && ShapedAnd(Next(s, a)) &&
      Core(Next(s, a)) == Core(s)
    ensures MutexWait(Next(s, a), i)
    ensures Next(s, a).server == s.server || a.ServerStep?
    ensures a != ChildStep(i)
  {
    hide Active; hide Core; hide TriesAgain; hide GoesRound; hide NoneInside; hide Avail;
    match a
    case ClientStep => ClientCore(s);
    case ChildStep(j) => ChildCore(s, j); WaitTries(s, Next(s, a), i, j);
    case ServerStep => ServerCore(s); WaitRounds(s, Next(s, a), i);
  }

  /** A slot the server has stored and not cleared yet still has its flag up. */
  lemma NothingInHand(s: State)
    requires Active(s) && !AnyFlag(s.flags)
    ensures !s.server.Stored? && !s.server.Returned?
  {
    hide BarrierOk; hide TokensOk; hide ChanOk; hide BooksOk; hide PhaseOk; hide SlotsOk; hide ShmPlaceOk;
    hide ShmChildOk;
    var k := if s.server.Stored? || s.server.Returned? then s.server.slot else 0;
    assert !Consuming(s.server, k);
  }

  lemma WaitServer(s: State, i: nat)
    requires MutexWait(s, i)
    ensures Enabled(s, ServerStep)
    ensures !ServerInside(s.server) ==> Enabled(s, ChildStep(i))
  {
    hide Active;
    ActiveFacts(s);
    MutexFree(s);
  }

  /** With nothing to take, the server does not stay inside. */
  lemma WaitLeaves(s: State, i: nat)
    requires MutexWait(s, i) && ServerInside(s.server)
    ensures s.server.Locked? || s.server.Unlock?
    ensures ServerShaped(s) && ServerEnabled(s) && (s.server.Locked? ==> ServerNext(s).server.Unlock?)
    ensures s.server.Unlock? ==> ServerNext(s).server.Test?
  {
    hide Active;
    ActiveFacts(s);
    NothingInHand(s);
  }

  lemma ServerGoesOut(s: State, i: nat)
    requires MutexWait(s, i) && ServerInside(s.server)
    ensures Enabled(s, ServerStep)
    ensures !ServerInside(Next(s, ServerStep).server) || Place(Next(s, ServerStep).server) < Place(s.server)
  {
    hide MutexWait;
    WaitServer(s, i);
    WaitLeaves(s, i);
  }

  // ------------------------------------------------ some cause is always there

  ghost predicate Stirs(s: State)
  {
    (exists c :: Drives(c, s)) || (exists i :: MutexWait(s, i))
  }

  /** With no message anywhere and no token in hand, all tokens are in the semaphores. */
  lemma TokensBack(s: State, k: nat)
    requires Active(s) && InLoop(s.server) && !Avail(s) && k < PARTS
    requires forall i :: 0 <= i < |s.children| ==> !s.children[i].Holding? && Reading(Section, s.children[i]) == 0
    ensures s.tok[k] == TOKENS
  {
    hide ChanOk; hide ShmOk; hide BooksOk; hide Total; hide Raised; hide BarrierOk;
    NothingInHand(s);
    TotalNone(TokenOf(0), s.children);
    TotalNone(TokenOf(1), s.children);
    TotalNone(TokenOf(2), s.children);
    TotalNone(TokenOf(3), s.children);
    RaisedNone(s.flags);
  }

  lemma OverTokens(s: State, k: nat)
    requires Active(s) && Over(s.server) && k < PARTS
    requires forall i :: 0 <= i < |s.children| ==> !s.children[i].Holding? && Reading(Section, s.children[i]) == 0
    ensures s.tok[k] == TOKENS
  {
    hide ChanOk; hide ShmOk; hide BooksOk; hide Total; hide Raised; hide BarrierOk; hide SentOut;
    OverIsDrained(s);
    TotalNone(TokenOf(0), s.children);
    TotalNone(TokenOf(1), s.children);
    TotalNone(TokenOf(2), s.children);
    TotalNone(TokenOf(3), s.children);
    RaisedNone(s.flags);
  }

  lemma TryStirs(s: State, i: nat)
    requires Active(s) && i < |s.children| && s.children[i].Try? && (InLoop(s.server) ==> !Avail(s))
    requires forall j :: 0 <= j < |s.children| ==> !s.children[j].Holding? && Reading(Section, s.children[j]) == 0
    ensures Drives(ByTry(i), s)
  {
    hide Active; hide Avail;
    ActiveFacts(s);
    forall k | 0 <= k < PARTS ensures s.tok[k] > 0 {
      if InLoop(s.server) { TokensBack(s, k); } else { OverTokens(s, k); }
    }
  }

  lemma FreshStirs(s: State, i: nat)
    requires Active(s) && i < |s.children| && s.children[i].Fresh?
    ensures Drives(ByChild(i), s)
  {
    hide FlowOk; hide PhaseOk; hide Total;
    ActiveFacts(s);
    TotalAtMost(Arrival, s.children);
    assert Reading(Arrival, s.children[i]) == 0;
  }

  lemma WaitingStirs(s: State, i: nat)
    requires Active(s) && i < |s.children| && s.children[i].Waiting?
    requires forall j :: 0 <= j < |s.children| ==> Reading(Arrival, s.children[j]) == 1
    ensures Drives(ByChild(i), s)
  {
    hide FlowOk; hide PhaseOk; hide Total;
    ActiveFacts(s);
    TotalAll(Arrival, s.children);
  }

  lemma InsideStirs(s: State, i: nat)
    requires Active(s) && i < |s.children| && Reading(Section, s.children[i]) == 1
    ensures Drives(ByChild(i), s)
  {
    hide Active;
    ActiveFacts(s);
  }

  lemma HoldingStirs(s: State, i: nat)
    requires Active(s) && i < |s.children| && s.children[i].Holding? && NoneInside(s.children) &&
      (InLoop(s.server) ==> !Avail(s))
    ensures Stirs(s)
  {
    hide FlowOk; hide PhaseOk; hide BarrierOk;
    ActiveFacts(s);
    StillOpen(s, i, s.children[i].k);
    if s.children[i].k < 3 { assert Drives(ByChild(i), s); } else { assert MutexWait(s, i); }
  }

  lemma LapStirs(s: State)
    requires Active(s) && InLoop(s.server) && NoneInside(s.children) && (Avail(s) || s.received == 4 * |s.jobs|)
    ensures Drives(ByLap, s)
  {
  }

  lemma JoiningStirs(s: State)
    requires Active(s) && s.client.Joining? && !AllGone(s.children)
    ensures Stirs(s)
  {
    hide Active; hide Avail; hide Drives; hide MutexWait;
    ActiveFacts(s);
    if i :| 0 <= i < |s.children| && s.children[i].Fresh? {
      FreshStirs(s, i);
    } else if i :| 0 <= i < |s.children| && s.children[i].Waiting? {
      WaitingStirs(s, i);
    } else if i :| 0 <= i < |s.children| && Reading(Section, s.children[i]) == 1 {
      InsideStirs(s, i);
    } else if InLoop(s.server) && Avail(s) {
      LapStirs(s);
    } else if i :| 0 <= i < |s.children| && s.children[i].Holding? {
      HoldingStirs(s, i);
    } else {
      var i :| 0 <= i < |s.children| && !s.children[i].Exited? && !s.children[i].Failed?;
      TryStirs(s, i);
    }
  }

  lemma {:induction false} SumOfFours(count: seq<nat>)
    requires forall i :: 0 <= i < |count| ==> count[i] == 4
    ensures Sum(count) == 4 * |count|
  {
    if count != [] { SumOfFours(count[1..]); }
  }

  lemma SentIsStored(s: State, i: nat)
    requires Active(s) && InLoop(s.server) && !Avail(s) && i < |s.children| && s.children[i].Exited?
    ensures s.books.count[i] == 4
  {
    hide BarrierOk; hide TokensOk; hide LogOk; hide PhaseOk;
    assert RowOk(s.jobs, i, s.books.cells[i], s.books.count[i]);
    assert PlaceOk(SentOut(s.children[i], 0), s.queues[0], s.server, s.books.cells[i][0], 0, i);
    assert PlaceOk(SentOut(s.children[i], 1), s.queues[1], s.server, s.books.cells[i][1], 1, i);
    assert PlaceOk(SentOut(s.children[i], 2), s.queues[2], s.server, s.books.cells[i][2], 2, i);
    assert ShmPlaceOk(SentOut(s.children[i], 3), s.flags, s.slots, s.server, s.books.cells[i][3], i);
  }

  /** All children gone and nothing left to take: all 4N messages are counted. */
  lemma AllGoneReceived(s: State)
    requires Active(s) && InLoop(s.server) && !Avail(s) && AllGone(s.children)
    ensures s.received == 4 * |s.jobs|
  {
    hide BarrierOk; hide TokensOk; hide LogOk; hide PhaseOk; hide ChanOk; hide RowOk; hide ShmOk; hide Sum;
    NothingInHand(s);
    forall i | 0 <= i < |s.jobs| ensures s.books.count[i] == 4 {
      assert s.children[i].Exited?;
      SentIsStored(s, i);
    }
    SumOfFours(s.books.count);
  }

  lemma WaitDoneStirs(s: State)
    requires Active(s) && s.client.WaitDone?
    ensures Stirs(s)
  {
    hide FlowOk; hide BarrierOk; hide Avail;
    ActiveFacts(s);
    if s.done > 0 {
      assert Drives(ByClient, s);
    } else if s.server.Finish? {
      assert Drives(ByOver, s);
    } else {
      if !Avail(s) { AllGoneReceived(s); }
      assert Drives(ByLap, s);
    }
  }

  lemma RecvEndStirs(s: State)
    requires Active(s) && s.client.RecvEnd?
    ensures Stirs(s)
  {
    hide FlowOk; hide BarrierOk;
    ActiveFacts(s);
    if s.server.SendEnd? { assert Drives(ByOver, s); } else { assert Drives(ByClient, s); }
  }

  lemma UnfinishedStirs(s: State)
    requires Inv(s) && !s.client.Idle?
    ensures Stirs(s)
  {
    hide Active; hide Opening; hide MutexWait;
    if Opening(s) {
      assert Drives(ByOpening, s);
    } else {
      ActiveFacts(s);
      if s.client.WaitDone? { WaitDoneStirs(s); }
      else if s.client.RecvEnd? { RecvEndStirs(s); }
      else if s.client.Joining? && !AllGone(s.children) { JoiningStirs(s); }
      else { assert Drives(ByClient, s); }
    }
  }

  // --------------------------------------------- a run to the end of the round

  predicate Completes(s: State, actors: seq<Actor>)
  {
    Run(s, actors) && SameRound(actors) && After(s, actors).client.Idle?
  }

  lemma CompletesStep(s: State, a: Actor, rest: seq<Actor>)
    requires Enabled(s, a) && !a.Start? && Completes(Next(s, a), rest)
    ensures Completes(s, [a] + rest)
  {
    hide Enabled; hide Next;
    assert ([a] + rest)[1..] == rest;
  }

  lemma ShapedOfInv(s: State)
    requires Inv(s)
    ensures Shaped(s) && ChildrenShaped(s.children)
  {
  }

  lemma {:induction false} CompleteFrom(s: State)
    requires Inv(s) && ShapedAnd(s)
    ensures exists actors :: Completes(s, actors)
    decreases Core(s).stage, Core(s).left, Core(s).effort, Core(s).lap, 2, 0
  {
    hide Inv; hide Core; hide Drives; hide MutexWait; hide ShapedAnd;
    if s.client.Idle? {
      assert Completes(s, []);
    } else {
      UnfinishedStirs(s);
      if c :| Drives(c, s) {
        CompleteBy(s, c);
      } else {
        var i: nat :| MutexWait(s, i);
        CompleteWait(s, i);
      }
    }
  }

  lemma {:induction false} CompleteBy(s: State, c: Cause)
    requires Inv(s) && ShapedAnd(s) && !s.client.Idle? && Drives(c, s)
    ensures exists actors :: Completes(s, actors)
    decreases Core(s).stage, Core(s).left, Core(s).effort, Core(s).lap, 1, Minor(c, s)
  {
    hide Inv; hide Core; hide Drives; hide Minor; hide Enabled; hide Next; hide Shaped; hide ChildrenShaped;
    hide Completes;
    var a := ActorOf(c);
    CauseFires(c, s);
    StepNotAbove(s, a);
    var t := Next(s, a);
    if Below(Core(t), Core(s)) { CompleteFrom(t); } else { CausePersists(c, s, a); SameStage(s, t); CompleteBy(t, c); }
    var rest :| Completes(t, rest);
    CompletesStep(s, a, rest);
  }

  lemma SameStage(s: State, t: State)
    requires ShapedAnd(s) && ShapedAnd(t) && Core(t) == Core(s) && !s.client.Idle?
    ensures !t.client.Idle?
  {
  }

  lemma {:induction false} CompleteWait(s: State, i: nat)
    requires Inv(s) && ShapedAnd(s) && MutexWait(s, i)
    ensures exists actors :: Completes(s, actors)
    decreases Core(s).stage, Core(s).left, Core(s).effort, Core(s).lap, 1,
      if ServerInside(s.server) then Place(s.server) else 0
  {
    hide Inv; hide Core; hide MutexWait; hide Enabled; hide Next; hide Shaped; hide ChildrenShaped; hide Completes;
    WaitServer(s, i);
    var a := if ServerInside(s.server) then ServerStep else ChildStep(i);
    StepNotAbove(s, a);
    var t := Next(s, a);
    if Below(Core(t), Core(s)) { CompleteFrom(t); } else { WaitPersists(s, a, i); ServerGoesOut(s, i);
      CompleteWait(t, i); }
    var rest :| Completes(t, rest);
    CompletesStep(s, a, rest);
  }

  /** From every reachable state, whatever has happened, the round in progress
      can be completed: no deadlock, and no state that all runs are caught in. */
  lemma RoundCanComplete(s: State)
    requires Reachable(s)
    ensures exists actors :: Completes(s, actors)
  {
    hide Reachable; hide Completes; hide Inv;
    ReachableInv(s);
    ShapedOfInv(s);
    CompleteFrom(s);
  }
}
