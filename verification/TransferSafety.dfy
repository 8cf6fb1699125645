/** Safety of the file transfer over every run: what holds in every reachable
    state, and what every round leaves behind. */
module TransferSafety {
  import opened Basics
  import opened Transfer
  import opened TransferInv
  import opened TransferLocal
  import opened TransferChildren
  import opened TransferServer

  // ------------------------------------------------------------ client steps

  /** fork: one more child, before the barrier. */
  lemma ClientForks(s: State, i: nat)
    requires Active(s) && s.client == Forking(i) && i < |s.children|
    ensures Active(s.(children := s.children[i := Fresh], client := Forking(i + 1)))
  {
    hide FlowOk; hide BarrierOk; hide PhaseOk;
    ForkFacts(s, i);
    QuietFlow(s, i, Fresh);
    BarrierChild(s.barrier, s.children, i, Fresh);
    PhaseFork(s, i);
    FlowFrame(s.(children := s.children[i := Fresh]), s.(children := s.children[i := Fresh], client := Forking(i + 1)));
  }

  lemma ForkFacts(s: State, i: nat)
    requires Active(s) && s.client == Forking(i) && i < |s.children|
    ensures s.children[i] == Unborn && ChildrenShaped(s.children) && SameSent(Fresh, Unborn)
  {
  }

  lemma PhaseFork(s: State, i: nat)
    requires Shaped(s) && PhaseOk(s) && s.client == Forking(i) && i < |s.children|
    ensures PhaseOk(s.(children := s.children[i := Fresh], client := Forking(i + 1)))
  {
    assert s.children[i].Unborn?;
  }

  /** client_0 waits and goes on: nothing but its own place changes. */
  lemma PhaseClient(s: State)
    requires Shaped(s) && PhaseOk(s) && ClientEnabled(s) && !s.client.RecvEnd?
    requires s.client.Forking? ==> s.client.i == |s.children|
    ensures PhaseOk(ClientNext(s)) && EndQueued(ClientNext(s)) == EndQueued(s)
  {
  }

  lemma ClientWaits(s: State)
    requires Active(s) && ClientEnabled(s) && !s.client.RecvEnd?
    requires s.client.Forking? ==> s.client.i == |s.children|
    ensures Active(ClientNext(s))
  {
    hide FlowOk; hide BarrierOk; hide PhaseOk;
    PhaseClient(s);
    FlowFrame(s, ClientNext(s));
  }

  /** The server's end message, and nothing else, is what client_0 reads last. */
  lemma ClientEnds(s: State)
    requires Active(s) && s.client.RecvEnd? && ClientEnabled(s)
    ensures Active(ClientNext(s)) && s.queues[2] == [End]
  {
    hide FlowOk; hide BarrierOk; hide SentOut;
    ActiveFacts(s);
    OverIsDrained(s);
    RecvFlow(s);
    RecvPhase(s);
  }

  lemma RecvPhase(s: State)
    requires Shaped(s) && PhaseOk(s) && s.client.RecvEnd? && s.server.AwaitN? && s.queues[2] == [End]
    ensures PhaseOk(s.(ending := Some(End), queues := s.queues[2 := s.queues[2][1..]], client := Idle))
  {
  }

  lemma RecvFlow(s: State)
    requires Shaped(s) && FlowOk(s) && s.client.RecvEnd? && s.server.AwaitN? && s.queues[2] == [End]
    ensures FlowOk(s.(ending := Some(End), queues := s.queues[2 := s.queues[2][1..]], client := Idle))
  {
    hide ChanOk; hide ShmOk; hide BooksOk; hide MutexOk; hide Total; hide Sum; hide Raised; hide TokenOk;
    BooksShape(s.jobs, s.books);
    ChanEnd(s.jobs, s.queues[2], s.children, s.server, s.books.cells, []);
    assert s.queues[2][1..] == [];
  }

  lemma ClientKeeps(s: State)
    requires Active(s) && ClientEnabled(s)
    ensures Active(ClientNext(s))
  {
    hide FlowOk; hide BarrierOk; hide PhaseOk;
    ActiveFacts(s);
    if s.client.RecvEnd? { ClientEnds(s); }
    else if s.client.Forking? && s.client.i < |s.children| { ClientForks(s, s.client.i); }
    else { ClientWaits(s); }
  }

  // --------------------------------------------------- opening of a round

  /** At the end of a round everything is as at the beginning: the semaphores,
      the queues, the flags. */
  lemma IdleIsQuiet(s: State)
    requires Active(s) && s.client.Idle?
    ensures AllQuiet(s) && s.server.AwaitN? && s.announced.None?
  {
    hide SentOut; hide ChanOk; hide ShmOk; hide BooksOk; hide Total; hide Raised;
    OverIsDrained(s);
    TotalNone(TokenOf(0), s.children);
    TotalNone(TokenOf(1), s.children);
    TotalNone(TokenOf(2), s.children);
    TotalNone(TokenOf(3), s.children);
    TotalNone(Section, s.children);
    RaisedNone(s.flags);
  }

  lemma StartOpens(s: State, jobs: seq<Job>)
    requires Active(s) && s.client.Idle? && jobs != []
    ensures Opening(StartRound(s, jobs))
  {
    hide Active;
    ActiveFacts(s);
    IdleIsQuiet(s);
  }

  lemma OpeningKeeps(s: State)
    requires Opening(s) && ServerEnabled(s) && !s.server.Post?
    ensures ServerShaped(s) && Opening(ServerNext(s))
  {
  }

  /** The server's initialisation gives empty books, and the round begins. */
  lemma OpeningEnds(s: State)
    requires Opening(s) && s.server.Post?
    ensures Active(ServerNext(s))
  {
    var t := ServerNext(s);
    hide ChanOk; hide ShmOk; hide BooksOk; hide Total; hide Raised; hide Sum;
    TotalNone(TokenOf(0), s.children);
    TotalNone(TokenOf(1), s.children);
    TotalNone(TokenOf(2), s.children);
    TotalNone(TokenOf(3), s.children);
    TotalNone(Section, s.children);
    TotalNone(Arrival, s.children);
    RaisedNone(s.flags);
    EmptyBooks(s.jobs);
    EmptyChannels(s.jobs, 0, s.children);
    EmptyChannels(s.jobs, 1, s.children);
    EmptyChannels(s.jobs, 2, s.children);
    EmptySlots(s.jobs, s.flags, s.slots, s.children);
  }

  lemma EmptyBooks(jobs: seq<Job>)
    ensures BooksOk(jobs, NoBooks(|jobs|)) && Sum(NoBooks(|jobs|).count) == 0
  {
    var b := NoBooks(|jobs|);
    forall i | 0 <= i < |jobs| ensures RowOk(jobs, i, b.cells[i], b.count[i]) {
      assert b.cells[i] == [Empty, Empty, Empty, Empty];
    }
    SumNone(b.count);
  }

  lemma {:induction false} SumNone(count: seq<nat>)
    requires forall i :: 0 <= i < |count| ==> count[i] == 0
    ensures Sum(count) == 0
  {
    if count != [] { SumNone(count[1..]); }
  }

  lemma EmptyChannels(jobs: seq<Job>, c: nat, children: seq<Child>)
    requires c < 3 && |children| == |jobs| && ChildrenShaped(children) && forall i :: 0 <= i < |children| ==>
      children[i].Unborn?
    ensures CellsShaped(jobs, NoBooks(|jobs|).cells) && ChanOk(jobs, c, [], children, Test, NoBooks(|jobs|).cells)
  {
    var cells := NoBooks(|jobs|).cells;
    forall i | 0 <= i < |jobs| ensures PlaceOk(SentOut(children[i], c), [], Test, cells[i][c], c, i) {
      assert cells[i] == [Empty, Empty, Empty, Empty];
    }
  }

  lemma EmptySlots(jobs: seq<Job>, flags: seq<bool>, slots: seq<Slot>, children: seq<Child>)
    requires |flags| == |slots| == SLOTS && |children| == |jobs| && ChildrenShaped(children)
    requires (forall i :: 0 <= i < |children| ==> children[i].Unborn?) && (forall k :: 0 <= k < SLOTS ==> !flags[k])
    ensures CellsShaped(jobs, NoBooks(|jobs|).cells) && ShmOk(jobs, flags, slots, children, Test, NoBooks(|jobs|).cells)
  {
    var cells := NoBooks(|jobs|).cells;
    forall i | 0 <= i < |jobs| ensures ShmPlaceOk(SentOut(children[i], 3), flags, slots, Test, cells[i][3], i) {
      assert cells[i] == [Empty, Empty, Empty, Empty];
    }
  }

  // ---------------------------------------------------------------- all runs

  /** Every step of every process keeps the invariant. */
  lemma StepKeeps(s: State, a: Actor)
    requires Inv(s) && Enabled(s, a)
    ensures Inv(Next(s, a))
  {
    hide Active;
    if Active(s) {
      ActiveFacts(s);
      match a
      case Start(jobs) => StartOpens(s, jobs);
      case ClientStep => ClientKeeps(s);
      case ChildStep(i) => ChildKeeps(s, i);
      case ServerStep => ServerKeeps(s);
    } else if s.server.Post? {
      OpeningEnds(s);
    } else {
      OpeningKeeps(s);
    }
  }

  lemma {:induction false} RunKeeps(s: State, actors: seq<Actor>)
    requires Inv(s) && Run(s, actors)
    ensures Inv(After(s, actors))
    decreases |actors|
  {
    hide Inv; hide Next; hide Enabled;
    if actors != [] {
      StepKeeps(s, actors[0]);
      RunKeeps(Next(s, actors[0]), actors[1..]);
    }
  }

  predicate Capacities(caps: seq<nat>)
  {
    |caps| == 3 && forall c :: 0 <= c < 3 ==> caps[c] > 0
  }

  lemma InitialInv(caps: seq<nat>)
    requires Capacities(caps)
    ensures Inv(Initial(caps))
  {
    var s := Initial(caps);
    hide ChanOk; hide ShmOk; hide BooksOk; hide Raised; hide Sum;
    RaisedNone(s.flags);
    EmptyBooks([]);
    EmptyBefore(0);
    EmptyBefore(1);
    EmptyBefore(2);
    EmptySlotsBefore(s.flags, s.slots);
  }

  lemma EmptyBefore(c: nat)
    requires c < 3
    ensures ChanOk([], c, [], [], AwaitN, NoBooks(0).cells)
  {
  }

  lemma EmptySlotsBefore(flags: seq<bool>, slots: seq<Slot>)
    requires |flags| == |slots| == SLOTS && forall k :: 0 <= k < SLOTS ==> !flags[k]
    ensures ShmOk([], flags, slots, [], AwaitN, NoBooks(0).cells)
  {
  }

  /** Reachable: by some run from the start of both programs. */
  ghost predicate Reachable(s: State)
  {
    exists caps, actors :: Capacities(caps) && Run(Initial(caps), actors) && s == After(Initial(caps), actors)
  }

  lemma ReachableInv(s: State)
    requires Reachable(s)
    ensures Inv(s)
  {
    hide Inv;
    var caps, actors :| Capacities(caps) && Run(Initial(caps), actors) && s == After(Initial(caps), actors);
    InitialInv(caps);
    RunKeeps(Initial(caps), actors);
  }

  // ------------------------------------------------------------ consequences

  /** findSHM never fails a child, and the server reads parts of files only. */
  lemma NobodyFails(s: State)
    requires Reachable(s)
    ensures forall i :: 0 <= i < |s.children| ==> !s.children[i].Failed?
    ensures !s.server.Broken?
  {
    hide Reachable;
    ReachableInv(s);
  }

  /** At most one process is between taking and giving back the mutex. */
  lemma OneAtTheSlots(s: State, i: nat, j: nat)
    requires Reachable(s) && i < |s.children| && j < |s.children|
    requires Reading(Section, s.children[i]) == 1
    ensures !ServerInside(s.server)
    ensures i != j ==> Reading(Section, s.children[j]) == 0
  {
    hide Reachable;
    ReachableInv(s);
    if Active(s) { AloneInside(s.mutex, s.children, s.server, i); }
  }

  /** Whatever the shared memory held, after the reset no slot counts as full. */
  lemma ResetClears(s: State)
    requires Shaped(s) && s.server.Reset?
    ensures var t := ServerNext(s);
      t.server.Greet? && t == s.(flags := t.flags, server := Greet) && Raised(t.flags) == 0 && Find(t.flags, true) == -1
  {
    RaisedNone(ServerNext(s).flags);
  }

  /** Every channel has its fifty tokens, wherever they are. */
  lemma TokensConserved(s: State)
    requires Reachable(s)
    ensures Shaped(s)
    ensures forall c :: 0 <= c < 3 ==>
      s.tok[c] + Total(TokenOf(c), s.children) + Parts(s.queues[c]) + (if s.server.Got? &&
        s.server.c == c then 1 else 0) == 50
    ensures s.tok[3] + Total(TokenOf(3), s.children) + Raised(s.flags) == if s.server.Returned? then 51 else 50
  {
    hide Reachable; hide ChanOk; hide ShmOk; hide BooksOk; hide Total; hide Raised;
    ReachableInv(s);
    PartsOfParts(s.queues[0]);
    PartsOfParts(s.queues[1]);
    PartsOfParts(s.queues[2]);
    if Opening(s) {
      TotalNone(TokenOf(0), s.children);
      TotalNone(TokenOf(1), s.children);
      TotalNone(TokenOf(2), s.children);
      TotalNone(TokenOf(3), s.children);
      RaisedNone(s.flags);
    }
  }

  /** Messages of files in a queue. */
  function Parts(q: seq<Item>): nat
  {
    if q == [] then 0 else (if q[0].Part? then 1 else 0) + Parts(q[1..])
  }

  lemma {:induction false} PartsOfParts(q: seq<Item>)
    ensures (forall p :: 0 <= p < |q| ==> q[p].Part?) ==> Parts(q) == |q|
    ensures (forall p :: 0 <= p < |q| ==> q[p].End?) ==> Parts(q) == 0
  {
    if q != [] { PartsOfParts(q[1..]); }
  }

  /** No child sends before all have reached the barrier. */
  lemma NoneBeforeAll(s: State, i: nat, j: nat)
    requires Reachable(s) && i < |s.children| && j < |s.children| && PastBarrier(s.children[i])
    ensures !s.children[j].Unborn? && !s.children[j].Fresh? && s.barrier == 0
  {
    hide Reachable; hide FlowOk; hide Total;
    ReachableInv(s);
    assert Active(s);
    TotalAtMost(Arrival, s.children);
    assert Reading(Arrival, s.children[j]) == 1;
  }

  /** client_0 reads the greeting the server wrote, before any child can have
      overwritten it, and at the end the server's end message. */
  lemma HandshakeOrder(s: State)
    requires Reachable(s) && s.jobs != []
    ensures s.client.Forking? || s.client.Joining? || s.client.WaitDone? || s.client.RecvEnd? || s.client.Idle? ==>
      s.greeting == Some(Greeting(|s.jobs|))
    ensures s.client.Idle? ==> s.ending == Some(End)
    ensures s.client.WaitDone? || s.client.RecvEnd? || s.client.Idle? ==> forall i :: 0 <= i < |s.children| ==>
      s.children[i].Exited?
    ensures s.client.RecvEnd? || s.client.Idle? ==> s.server.SendEnd? || s.server.AwaitN?
  {
    hide Reachable; hide BarrierOk; hide TokensOk; hide ChanOk; hide ShmOk; hide BooksOk;
    ReachableInv(s);
  }

  /** The server has opened its books for this round: client_0 is past the wait
      for the greeting, or the server is past posting it. */
  predicate BooksOpen(s: State)
  {
    !s.client.WaitGreeting? || InLoop(s.server)
  }

  /** At any moment of any round what has been written is whole files of this
      round, each with its own text, none twice, and exactly those whose four
      parts have all been received. */
  lemma WrittenWhole(s: State)
    requires Reachable(s) && BooksOpen(s)
    ensures |s.books.count| == |s.jobs|
    ensures forall k :: 0 <= k < |s.books.log| ==>
      s.books.log[k].0 < |s.jobs| && s.books.log[k].1 == FileText(s.jobs[s.books.log[k].0])
    ensures forall k, l :: 0 <= k < l < |s.books.log| ==> s.books.log[k].0 != s.books.log[l].0
    ensures forall i :: 0 <= i < |s.jobs| ==>
      s.books.count[i] <= 4 && (s.books.count[i] == 4 <==> exists k :: 0 <= k < |s.books.log| && s.books.log[k].0 == i)
  {
    hide Reachable; hide PhaseOk; hide BarrierOk; hide TokensOk; hide ChanOk; hide ShmOk; hide FileText;
    ReachableInv(s);
    forall i | 0 <= i < |s.jobs| ensures s.books.count[i] <= 4 {
      assert RowOk(s.jobs, i, s.books.cells[i], s.books.count[i]);
    }
  }

  predicate Logged(log: seq<(nat, string)>, i: nat, text: string)
  {
    exists k :: 0 <= k < |log| && log[k].0 == i && log[k].1 == text
  }

  /** The end of a round, any round: each file has been written exactly once with
      its own text, nothing is in transit, and every semaphore, queue and flag is
      as it was when the programs started. */
  lemma RoundLeaves(s: State)
    requires Reachable(s) && s.client.Idle?
    ensures Shaped(s) && AllQuiet(s) && s.received == 4 * |s.jobs|
    ensures forall i :: 0 <= i < |s.jobs| ==> Logged(s.books.log, i, FileText(s.jobs[i]))
    ensures forall k, l :: 0 <= k < l < |s.books.log| ==> s.books.log[k].0 != s.books.log[l].0
    ensures forall k :: 0 <= k < |s.books.log| ==> s.books.log[k].0 < |s.jobs|
  {
    hide Reachable; hide Active; hide FileText;
    ReachableInv(s);
    ActiveFacts(s);
    IdleIsQuiet(s);
    AllLogged(s);
  }

  lemma AllLogged(s: State)
    requires Active(s) && s.client.Idle?
    ensures s.received == 4 * |s.jobs|
    ensures forall i :: 0 <= i < |s.jobs| ==> Logged(s.books.log, i, FileText(s.jobs[i]))
    ensures forall k, l :: 0 <= k < l < |s.books.log| ==> s.books.log[k].0 != s.books.log[l].0
    ensures forall k :: 0 <= k < |s.books.log| ==> s.books.log[k].0 < |s.jobs|
  {
    hide SentOut; hide BarrierOk; hide TokensOk; hide ChanOk; hide ShmOk; hide RowOk; hide FileText; hide ReceivedOk;
    hide MutexOk;
    OverIsDrained(s);
    forall i | 0 <= i < |s.jobs| ensures Logged(s.books.log, i, FileText(s.jobs[i])) {
      assert s.books.count[i] == 4;
      var k :| 0 <= k < |s.books.log| && s.books.log[k].0 == i;
      assert s.books.log[k].1 == FileText(s.jobs[i]);
    }
  }
}
