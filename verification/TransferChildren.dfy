/** Every step of a child keeps the invariant of the transfer
    (system_call/client_0.c, child, ipcs_write and shm_write). */
module TransferChildren {
  import opened FileParts
  import opened Transfer
  import opened TransferInv
  import opened TransferLocal

  /** Once all 4N messages are counted, none is on its way. */
  lemma RoundComplete(s: State)
    requires Shaped(s) && FlowOk(s) && s.received == 4 * |s.jobs|
    ensures forall i, c :: 0 <= i < |s.jobs| && 0 <= c < PARTS ==> SentOut(s.children[i], c)
    ensures forall i :: 0 <= i < |s.jobs| ==> s.books.count[i] == 4
    ensures forall c, p :: 0 <= c < 3 && 0 <= p < |s.queues[c]| ==> s.queues[c][p].End?
    ensures forall c :: 0 <= c < 3 && s.queues[c] != [] ==> s.queues[c][0].End?
    ensures forall k :: 0 <= k < SLOTS && s.flags[k] ==> Consuming(s.server, k)
  {
    hide ChanOk; hide ShmOk; hide BooksOk; hide SentOut; hide TokensOk; hide MutexOk; hide ReceivedOk;
    assert CellsShaped(s.jobs, s.books.cells) && |s.books.count| == |s.jobs| by { BooksShape(s.jobs, s.books); }
    AllCounted(s.jobs, s.books, s.received, s.server);
    NothingQueued(s.jobs, 0, s.queues[0], s.children, s.server, s.books.cells);
    NothingQueued(s.jobs, 1, s.queues[1], s.children, s.server, s.books.cells);
    NothingQueued(s.jobs, 2, s.queues[2], s.children, s.server, s.books.cells);
    NothingFlagged(s.jobs, s.flags, s.slots, s.children, s.server, s.books.cells);
  }

  lemma BooksShape(jobs: seq<Job>, b: Books)
    requires BooksOk(jobs, b)
    ensures CellsShaped(jobs, b.cells) && |b.count| == |jobs|
  {
  }

  // -------------------------------------------------- parts of the invariant

  lemma BarrierChild(barrier: nat, children: seq<Child>, i: nat, ch: Child)
    requires BarrierOk(barrier, children) && i < |children| && Reading(Arrival, ch) == Reading(Arrival, children[i])
    requires PastBarrier(ch) ==> PastBarrier(children[i]) || barrier == 0
    ensures BarrierOk(barrier, children[i := ch])
  {
    TotalUpdate(Arrival, children, i, ch);
    hide Total;
  }

  lemma PhaseChild(s: State, i: nat, ch: Child)
    requires Shaped(s) && PhaseOk(s) && i < |s.children|
    requires !s.children[i].Unborn? && !s.children[i].Exited? && !s.children[i].Failed? && !ch.Unborn?
    ensures PhaseOk(s.(children := s.children[i := ch]))
    ensures !s.client.WaitGreeting? && !s.client.ReadGreeting? && !s.client.WaitDone? && !s.client.RecvEnd? &&
      !s.client.Idle?
  {
  }

  /** A child that has something to send keeps the round open. */
  lemma StillOpen(s: State, i: nat, c: nat)
    requires Active(s) && i < |s.children| && c < PARTS && !SentOut(s.children[i], c)
    ensures InLoop(s.server) && !EndQueued(s)
  {
    hide FlowOk; hide SentOut;
    if s.received == 4 * |s.jobs| { RoundComplete(s); }
  }

  lemma TokensChild(c: nat, tok: nat, children: seq<Child>, queued: nat, sv: Server, i: nat, ch: Child)
    requires TokenOk(c, tok, children, queued, sv) && i < |children| &&
      Reading(TokenOf(c), ch) == Reading(TokenOf(c), children[i])
    ensures TokenOk(c, tok, children[i := ch], queued, sv)
  {
    TotalUpdate(TokenOf(c), children, i, ch);
  }

  lemma ShmTokensChild(tok: nat, children: seq<Child>, flags: seq<bool>, sv: Server, i: nat, ch: Child)
    requires ShmTokenOk(tok, children, flags, sv) && i < |children| &&
      Reading(TokenOf(3), ch) == Reading(TokenOf(3), children[i])
    ensures ShmTokenOk(tok, children[i := ch], flags, sv)
  {
    TotalUpdate(TokenOf(3), children, i, ch);
  }

  lemma MutexChild(mutex: nat, children: seq<Child>, sv: Server, i: nat, ch: Child)
    requires MutexOk(mutex, children, sv) && i < |children| && Reading(Section, ch) == Reading(Section, children[i])
    ensures MutexOk(mutex, children[i := ch], sv)
  {
    TotalUpdate(Section, children, i, ch);
  }

  /** The three queue channels, when the moving child has nothing to do with them. */
  lemma QueuesChild(s: State, i: nat, ch: Child)
    requires Shaped(s) && FlowOk(s) && i < |s.children| && ChildShaped(ch) && !ch.Failed?
    requires forall c :: 0 <= c < 3 ==>
      SentOut(ch, c) == SentOut(s.children[i], c) && Reading(TokenOf(c), ch) == Reading(TokenOf(c), s.children[i])
    ensures ChildrenShaped(s.children[i := ch]) && CellsShaped(s.jobs, s.books.cells)
    ensures ChanOk(s.jobs, 0, s.queues[0], s.children[i := ch], s.server, s.books.cells) &&
      TokenOk(0, s.tok[0], s.children[i := ch], Queued(s, 0), s.server)
    ensures ChanOk(s.jobs, 1, s.queues[1], s.children[i := ch], s.server, s.books.cells) &&
      TokenOk(1, s.tok[1], s.children[i := ch], Queued(s, 1), s.server)
    ensures ChanOk(s.jobs, 2, s.queues[2], s.children[i := ch], s.server, s.books.cells) &&
      TokenOk(2, s.tok[2], s.children[i := ch], Queued(s, 2), s.server)
  {
    hide ChanOk; hide ShmOk; hide BooksOk; hide SentOut; hide TokenOk; hide ShmTokenOk; hide MutexOk; hide Reading;
    BooksShape(s.jobs, s.books);
    TokensChild(0, s.tok[0], s.children, Queued(s, 0), s.server, i, ch);
    TokensChild(1, s.tok[1], s.children, Queued(s, 1), s.server, i, ch);
    TokensChild(2, s.tok[2], s.children, Queued(s, 2), s.server, i, ch);
    ChanChild(s.jobs, 0, s.queues[0], s.children, s.server, s.books.cells, i, ch);
    ChanChild(s.jobs, 1, s.queues[1], s.children, s.server, s.books.cells, i, ch);
    ChanChild(s.jobs, 2, s.queues[2], s.children, s.server, s.books.cells, i, ch);
  }

  /** A child that takes or gives the mutex only. */
  lemma ChildFlow(s: State, i: nat, ch: Child, mutex: nat)
    requires Shaped(s) && FlowOk(s) && i < |s.children| && ChildShaped(ch) && !ch.Failed?
    requires SameSent(ch, s.children[i]) && ShmChildOk(s.jobs, ch, i, s.flags, s.slots)
    requires forall c :: 0 <= c < PARTS ==> Reading(TokenOf(c), ch) == Reading(TokenOf(c), s.children[i])
    requires MutexOk(mutex, s.children[i := ch], s.server)
    ensures FlowOk(s.(mutex := mutex, children := s.children[i := ch]))
  {
    hide ChanOk; hide ShmOk; hide BooksOk; hide SentOut; hide TokenOk; hide ShmTokenOk; hide MutexOk; hide ReceivedOk;
    hide ShmChildOk;
    hide Reading;
    QueuesChild(s, i, ch);
    ShmTokensChild(s.tok[3], s.children, s.flags, s.server, i, ch);
    ShmChild(s.jobs, s.flags, s.slots, s.children, s.server, s.books.cells, i, ch);
  }

  /** A child that neither takes nor gives anything. */
  lemma QuietFlow(s: State, i: nat, ch: Child)
    requires Shaped(s) && FlowOk(s) && i < |s.children| && ChildShaped(ch) && !ch.Failed?
    requires SameSent(ch, s.children[i]) && ShmChildOk(s.jobs, ch, i, s.flags, s.slots)
    requires forall c :: 0 <= c < PARTS ==> Reading(TokenOf(c), ch) == Reading(TokenOf(c), s.children[i])
    requires Reading(Section, ch) == Reading(Section, s.children[i])
    ensures FlowOk(s.(children := s.children[i := ch]))
  {
    hide FlowOk; hide ShmChildOk; hide Reading;
    assert MutexOk(s.mutex, s.children[i := ch], s.server) by { MutexOfFlow(s);
      MutexChild(s.mutex, s.children, s.server, i, ch); }
    ChildFlow(s, i, ch, s.mutex);
    assert s.(mutex := s.mutex, children := s.children[i := ch]) == s.(children := s.children[i := ch]);
  }

  lemma MutexOfFlow(s: State)
    requires Shaped(s) && FlowOk(s)
    ensures MutexOk(s.mutex, s.children, s.server) && ChildrenShaped(s.children)
  {
  }

  /** Taking a token or the mutex, and giving the mutex back, sends nothing. */
  lemma SameMessages(a: Child, b: Child)
    requires ChildShaped(a) && ChildShaped(b)
    requires (a.Try? && b == Holding(a.k, a.sent)) || (a.Holding? && b == Inside(a.sent)) ||
      (a.Flagged? && b == Try(4, a.sent[3 := true]))
    ensures SameSent(b, a)
  {
  }

  // ------------------------------------------------------------------- steps

  /** Decrement of the barrier semaphore. */
  lemma ChildArrives(s: State, i: nat)
    requires Active(s) && i < |s.children| && s.children[i].Fresh? && ChildEnabled(s, i)
    ensures Active(ChildNext(s, i))
  {
    hide FlowOk; hide PhaseOk; hide Total;
    TotalUpdate(Arrival, s.children, i, Waiting);
    QuietFlow(s, i, Waiting);
    PhaseChild(s, i, Waiting);
    var t := s.(children := s.children[i := Waiting]);
    PhaseFrame(t, ChildNext(s, i)); FlowFrame(t, ChildNext(s, i));
  }

  /** What PhaseOk does not depend on. */
  lemma PhaseFrame(s: State, t: State)
    requires Shaped(s) && PhaseOk(s) && Shaped(t)
    requires t.jobs == s.jobs && t.announced == s.announced && t.n == s.n && t.client == s.client &&
      t.children == s.children
    requires t.server == s.server && t.waitData == s.waitData && t.done == s.done && t.received == s.received
    requires t.greeting == s.greeting && t.ending == s.ending && t.queues == s.queues
    requires t.slots == s.slots || (!s.client.WaitGreeting? && !s.client.ReadGreeting?)
    ensures PhaseOk(t)
  {
  }

  /** What FlowOk does not depend on. */
  lemma FlowFrame(s: State, t: State)
    requires Shaped(s) && FlowOk(s)
    requires Shaped(t) && t.jobs == s.jobs && t.children == s.children && t.server == s.server && t.books == s.books
    requires t.tok == s.tok && t.queues == s.queues && t.mutex == s.mutex && t.flags == s.flags && t.slots == s.slots
    requires t.received == s.received && EndQueued(t) == EndQueued(s)
    ensures FlowOk(t)
  {
    hide ChanOk; hide ShmOk; hide BooksOk; hide TokenOk; hide ShmTokenOk; hide MutexOk; hide ReceivedOk;
    hide ChildrenShaped;
    BooksShape(s.jobs, s.books);
  }

  /** Where a child goes that takes and gives nothing. */
  function Turned(ch: Child): Child
    requires ChildShaped(ch) && (ch.Waiting? || ch.Try?)
  {
    if ch.Waiting? then Try(4, [false, false, false, false])
    else if ch.k < 4 then Try(ch.k + 1, ch.sent)
    else if AllSent(ch.sent) then Exited else Try(0, ch.sent)
  }

  lemma TurnedQuiet(ch: Child)
    requires ChildShaped(ch) && (ch.Waiting? || ch.Try?)
    ensures ChildShaped(Turned(ch)) && SameSent(Turned(ch), ch)
    ensures forall m :: Reading(m, Turned(ch)) == Reading(m, ch)
  {
  }

  /** Past the barrier, or on to the next test of the loop. */
  lemma ChildTurns(s: State, i: nat)
    requires Active(s) && i < |s.children| && ChildEnabled(s, i)
    requires s.children[i].Waiting? || (s.children[i].Try? &&
      (s.children[i].k == 4 || s.children[i].sent[s.children[i].k] || s.tok[s.children[i].k] == 0))
    ensures Active(ChildNext(s, i))
  {
    assert ChildrenShaped(s.children);
    hide FlowOk; hide PhaseOk; hide BarrierOk; hide Reading; hide SentOut; hide SameSent;
    var ch := Turned(s.children[i]);
    TurnedQuiet(s.children[i]);
    QuietFlow(s, i, ch);
    PhaseChild(s, i, ch);
    BarrierChild(s.barrier, s.children, i, ch);
    assert ChildNext(s, i) == s.(children := s.children[i := ch]);
  }

  lemma TakeToken(c: nat, tok: nat, children: seq<Child>, queued: nat, sv: Server, i: nat, ch: Child)
    requires TokenOk(c, tok, children, queued, sv) && i < |children| && tok > 0
    requires Reading(TokenOf(c), ch) == Reading(TokenOf(c), children[i]) + 1
    ensures TokenOk(c, tok - 1, children[i := ch], queued, sv)
  {
    TotalUpdate(TokenOf(c), children, i, ch);
  }

  lemma TakeShmToken(tok: nat, children: seq<Child>, flags: seq<bool>, sv: Server, i: nat, ch: Child)
    requires ShmTokenOk(tok, children, flags, sv) && i < |children| && tok > 0
    requires Reading(TokenOf(3), ch) == Reading(TokenOf(3), children[i]) + 1
    ensures ShmTokenOk(tok - 1, children[i := ch], flags, sv)
  {
    TotalUpdate(TokenOf(3), children, i, ch);
  }

  /** One token is taken from the semaphore of channel k. */
  lemma TakeTokens(s: State, i: nat, k: nat, ch: Child)
    requires Shaped(s) && TokensOk(s) && i < |s.children| && k < PARTS && s.tok[k] > 0
    requires forall c :: 0 <= c < PARTS ==> Reading(TokenOf(c), ch) == Reading(TokenOf(c), s.children[i]) + if c ==
      k then 1 else 0
    ensures TokensOk(s.(tok := s.tok[k := s.tok[k] - 1], children := s.children[i := ch]))
  {
    hide TokenOk; hide ShmTokenOk; hide Reading;
    if k == 0 { TakeToken(0, s.tok[0], s.children, Queued(s, 0), s.server, i, ch); }
    else { TokensChild(0, s.tok[0], s.children, Queued(s, 0), s.server, i, ch); }
    if k == 1 { TakeToken(1, s.tok[1], s.children, Queued(s, 1), s.server, i, ch); }
    else { TokensChild(1, s.tok[1], s.children, Queued(s, 1), s.server, i, ch); }
    if k == 2 { TakeToken(2, s.tok[2], s.children, Queued(s, 2), s.server, i, ch); }
    else { TokensChild(2, s.tok[2], s.children, Queued(s, 2), s.server, i, ch); }
    if k == 3 { TakeShmToken(s.tok[3], s.children, s.flags, s.server, i, ch); }
    else { ShmTokensChild(s.tok[3], s.children, s.flags, s.server, i, ch); }
  }

  lemma TakeFlow(s: State, i: nat, k: nat, ch: Child)
    requires Shaped(s) && FlowOk(s) && i < |s.children| && k < PARTS && s.tok[k] > 0
    requires s.children[i].Try? && ChildShaped(ch) && ch == Holding(k, s.children[i].sent) &&
      SameSent(ch, s.children[i])
    ensures FlowOk(s.(tok := s.tok[k := s.tok[k] - 1], children := s.children[i := ch]))
  {
    hide ChanOk; hide ShmOk; hide BooksOk; hide SentOut; hide TokensOk; hide MutexOk; hide ReceivedOk;
    BooksShape(s.jobs, s.books);
    TakeTokens(s, i, k, ch);
    MutexChild(s.mutex, s.children, s.server, i, ch);
    ChanChild(s.jobs, 0, s.queues[0], s.children, s.server, s.books.cells, i, ch);
    ChanChild(s.jobs, 1, s.queues[1], s.children, s.server, s.books.cells, i, ch);
    ChanChild(s.jobs, 2, s.queues[2], s.children, s.server, s.books.cells, i, ch);
    ShmChild(s.jobs, s.flags, s.slots, s.children, s.server, s.books.cells, i, ch);
  }

  /** The non-blocking decrement of a channel's semaphore succeeds. */
  lemma ChildTakes(s: State, i: nat)
    requires Active(s) && i < |s.children| && s.children[i].Try? && s.children[i].k < 4
    requires !s.children[i].sent[s.children[i].k] && s.tok[s.children[i].k] > 0
    ensures Active(ChildNext(s, i))
  {
    hide FlowOk; hide PhaseOk; hide BarrierOk; hide SentOut; hide SameSent;
    MutexOfFlow(s);
    var ch := Holding(s.children[i].k, s.children[i].sent);
    SameMessages(s.children[i], ch);
    TakeFlow(s, i, ch.k, ch);
    PhaseChild(s, i, ch);
    BarrierChild(s.barrier, s.children, i, ch);
    PhaseFrame(s.(children := s.children[i := ch]), ChildNext(s, i));
  }

  lemma SendToken(c: nat, tok: nat, children: seq<Child>, queued: nat, sv: Server, i: nat, ch: Child)
    requires TokenOk(c, tok, children, queued, sv) && i < |children|
    requires Reading(TokenOf(c), ch) + 1 == Reading(TokenOf(c), children[i])
    ensures TokenOk(c, tok, children[i := ch], queued + 1, sv)
  {
    TotalUpdate(TokenOf(c), children, i, ch);
  }

  /** One channel, when child i puts its message of channel k. */
  lemma ChanPut(jobs: seq<Job>, c: nat, k: nat, q: seq<Item>, tok: nat, children: seq<Child>, sv: Server,
                cells: seq<seq<Cell>>, i: nat, ch: Child)
    requires c < 3 && k < 3 && |children| == |jobs| && ChildrenShaped(children) && CellsShaped(jobs, cells)
    requires ChanOk(jobs, c, q, children, sv, cells) && TokenOk(c, tok, children, |q|, sv)
    requires i < |children| && children[i].Holding? && children[i].k == k &&
      ch == Try(k + 1, children[i].sent[k := true])
    ensures ChildrenShaped(children[i := ch])
    ensures var r := if c == k then q + [Item.Part(MessageOf(jobs, i, c))] else q;
      ChanOk(jobs, c, r, children[i := ch], sv, cells) && TokenOk(c, tok, children[i := ch], |r|, sv)
  {
    if c == k {
      ChanSend(jobs, c, q, children, sv, cells, i, ch);
      SendToken(c, tok, children, |q|, sv, i, ch);
    } else {
      ChanChild(jobs, c, q, children, sv, cells, i, ch);
      TokensChild(c, tok, children, |q|, sv, i, ch);
    }
  }

  lemma SendFlow(s: State, i: nat, k: nat, ch: Child)
    requires Shaped(s) && FlowOk(s) && !EndQueued(s) && i < |s.children| && k < 3
    requires s.children[i].Holding? && s.children[i].k == k && ch == Try(k + 1, s.children[i].sent[k := true])
    ensures FlowOk(s.(queues := s.queues[k := s.queues[k] + [Item.Part(MessageOf(s.jobs, i, k))]],
      children := s.children[i := ch]))
  {
    BooksShape(s.jobs, s.books);
    SentOutOfTry(s.children[i], ch);
    hide ChanOk; hide ShmOk; hide BooksOk; hide SentOut; hide TokenOk; hide ShmTokenOk; hide MutexOk; hide ReceivedOk;
    hide MessageOf;
    ChanPut(s.jobs, 0, k, s.queues[0], s.tok[0], s.children, s.server, s.books.cells, i, ch);
    ChanPut(s.jobs, 1, k, s.queues[1], s.tok[1], s.children, s.server, s.books.cells, i, ch);
    ChanPut(s.jobs, 2, k, s.queues[2], s.tok[2], s.children, s.server, s.books.cells, i, ch);
    ShmTokensChild(s.tok[3], s.children, s.flags, s.server, i, ch);
    MutexChild(s.mutex, s.children, s.server, i, ch);
    ShmChild(s.jobs, s.flags, s.slots, s.children, s.server, s.books.cells, i, ch);
  }

  /** The message written to a FIFO or to the message queue. */
  lemma ChildSends(s: State, i: nat)
    requires Active(s) && i < |s.children| && s.children[i].Holding? && s.children[i].k < 3 && ChildEnabled(s, i)
    ensures Active(ChildNext(s, i))
  {
    assert ChildrenShaped(s.children);
    var k := s.children[i].k;
    var ch := Try(k + 1, s.children[i].sent[k := true]);
    assert !SentOut(s.children[i], k);
    hide FlowOk; hide PhaseOk; hide BarrierOk; hide SentOut; hide MessageOf;
    StillOpen(s, i, k);
    PhaseChild(s, i, ch);
    BarrierChild(s.barrier, s.children, i, ch);
    SendFlow(s, i, k, ch);
    PhaseQueues(s.(children := s.children[i := ch]), k, Item.Part(MessageOf(s.jobs, i, k)));
  }

  lemma SentOutOfTry(a: Child, b: Child)
    requires ChildShaped(a) && ChildShaped(b) && a.Holding? && b.Try? && a.sent[3] == b.sent[3]
    ensures SentOut(a, 3) == SentOut(b, 3)
  {
  }

  lemma PhaseQueues(s: State, k: nat, x: Item)
    requires Shaped(s) && PhaseOk(s) && k < 3 && !EndQueued(s) && x.Part?
    ensures PhaseOk(s.(queues := s.queues[k := s.queues[k] + [x]]))
  {
  }

  /** The mutex taken, blocking, before the slots are looked at. */
  lemma ChildEnters(s: State, i: nat)
    requires Active(s) && i < |s.children| && s.children[i].Holding? && s.children[i].k == 3 && ChildEnabled(s, i)
    ensures Active(ChildNext(s, i))
  {
    hide FlowOk; hide PhaseOk; hide BarrierOk; hide Total; hide SentOut; hide SameSent;
    MutexOfFlow(s);
    var ch := Inside(s.children[i].sent);
    SameMessages(s.children[i], ch);
    TotalUpdate(Section, s.children, i, ch);
    ChildFlow(s, i, ch, s.mutex - 1);
    PhaseChild(s, i, ch);
    BarrierChild(s.barrier, s.children, i, ch);
    PhaseFrame(s.(children := s.children[i := ch]), ChildNext(s, i));
  }

  /** The mutex given back: shm_write is over. */
  lemma ChildLeaves(s: State, i: nat)
    requires Active(s) && i < |s.children| && s.children[i].Flagged?
    ensures Active(ChildNext(s, i))
  {
    hide FlowOk; hide PhaseOk; hide BarrierOk; hide Total; hide SentOut; hide SameSent;
    MutexOfFlow(s);
    var ch := Try(4, s.children[i].sent[3 := true]);
    SameMessages(s.children[i], ch);
    TotalUpdate(Section, s.children, i, ch);
    ChildFlow(s, i, ch, s.mutex + 1);
    PhaseChild(s, i, ch);
    BarrierChild(s.barrier, s.children, i, ch);
    PhaseFrame(s.(children := s.children[i := ch]), ChildNext(s, i));
  }

  /** With a token in hand and the mutex held there is a free slot: findSHM
      cannot fail. */
  lemma SlotIsFree(s: State, i: nat)
    requires Active(s) && i < |s.children| && s.children[i].Inside?
    ensures Find(s.flags, false) != -1
  {
    AloneInside(s.mutex, s.children, s.server, i);
    TotalAtLeast(TokenOf(3), s.children, i);
    if Find(s.flags, false) == -1 {
      assert forall k :: 0 <= k < |s.flags| ==> s.flags[k];
      RaisedAll(s.flags);
    }
  }

  lemma CopyFlow(s: State, i: nat, slot: nat, ch: Child)
    requires Shaped(s) && FlowOk(s) && i < |s.children| && s.children[i].Inside?
    requires slot < SLOTS && !s.flags[slot] && ch == Copied(s.children[i].sent, slot)
    ensures FlowOk(s.(slots := s.slots[slot := Holds(MessageOf(s.jobs, i, 3))], children := s.children[i := ch]))
  {
    AloneInside(s.mutex, s.children, s.server, i);
    assert SameSent(ch, s.children[i]);
    hide ChanOk; hide ShmOk; hide BooksOk; hide SentOut; hide TokenOk; hide ShmTokenOk; hide MutexOk; hide ReceivedOk;
    hide MessageOf;
    QueuesChild(s, i, ch);
    ShmTokensChild(s.tok[3], s.children, s.flags, s.server, i, ch);
    MutexChild(s.mutex, s.children, s.server, i, ch);
    ShmCopy(s.jobs, s.flags, s.slots, s.children, s.server, s.books.cells, i, slot, ch);
  }

  /** The message copied into the slot findSHM gives. */
  lemma ChildCopies(s: State, i: nat)
    requires Active(s) && i < |s.children| && s.children[i].Inside?
    ensures Active(ChildNext(s, i))
  {
    SlotIsFree(s, i);
    assert ChildrenShaped(s.children);
    hide FlowOk; hide PhaseOk; hide BarrierOk; hide MessageOf;
    var slot := Find(s.flags, false);
    var ch := Copied(s.children[i].sent, slot);
    PhaseChild(s, i, ch);
    BarrierChild(s.barrier, s.children, i, ch);
    CopyFlow(s, i, slot, ch);
    PhaseFrame(s.(children := s.children[i := ch]), ChildNext(s, i));
  }

  lemma FlagFlow(s: State, i: nat, ch: Child)
    requires Shaped(s) && FlowOk(s) && i < |s.children| && s.children[i].Copied?
    requires ch == Flagged(s.children[i].sent, s.children[i].slot)
    ensures FlowOk(s.(flags := s.flags[ch.slot := true], children := s.children[i := ch]))
  {
    AloneInside(s.mutex, s.children, s.server, i);
    assert forall c :: 0 <= c < 3 ==> SentOut(ch, c) == SentOut(s.children[i], c);
    hide ChanOk; hide ShmOk; hide BooksOk; hide SentOut; hide TokenOk; hide ShmTokenOk; hide MutexOk; hide ReceivedOk;
    QueuesChild(s, i, ch);
    MutexChild(s.mutex, s.children, s.server, i, ch);
    ShmFlag(s.jobs, s.flags, s.slots, s.children, s.server, s.books.cells, i, ch.slot, ch);
    FlagToken(s.tok[3], s.children, s.flags, s.server, i, ch, ch.slot);
  }

  /** The flag of the slot raised. */
  lemma ChildFlags(s: State, i: nat)
    requires Active(s) && i < |s.children| && s.children[i].Copied?
    ensures Active(ChildNext(s, i))
  {
    assert ChildrenShaped(s.children);
    hide FlowOk; hide PhaseOk; hide BarrierOk;
    var ch := Flagged(s.children[i].sent, s.children[i].slot);
    PhaseChild(s, i, ch);
    BarrierChild(s.barrier, s.children, i, ch);
    FlagFlow(s, i, ch);
    PhaseFrame(s.(children := s.children[i := ch]), ChildNext(s, i));
  }

  lemma FlagToken(tok: nat, children: seq<Child>, flags: seq<bool>, sv: Server, i: nat, ch: Child, slot: nat)
    requires ShmTokenOk(tok, children, flags, sv) && i < |children| && slot < |flags| && !flags[slot]
    requires Reading(TokenOf(3), ch) + 1 == Reading(TokenOf(3), children[i])
    ensures ShmTokenOk(tok, children[i := ch], flags[slot := true], sv)
  {
    TotalUpdate(TokenOf(3), children, i, ch);
    RaisedUpdate(flags, slot, true);
  }

  /** Every step of a child keeps the invariant, and with it that none gives up. */
  lemma ChildKeeps(s: State, i: nat)
    requires Active(s) && i < |s.children| && ChildEnabled(s, i)
    ensures Active(ChildNext(s, i))
  {
    assert ChildrenShaped(s.children);
    hide PhaseOk; hide BarrierOk; hide TokensOk; hide MutexOk; hide ChanOk; hide ShmOk; hide BooksOk; hide ReceivedOk;
    match s.children[i]
    case Fresh => ChildArrives(s, i);
    case Waiting => ChildTurns(s, i);
    case Try(k, sent) => if k < 4 && !sent[k] && s.tok[k] > 0 { ChildTakes(s, i); } else { ChildTurns(s, i); }
    case Holding(k, _) => if k < 3 { ChildSends(s, i); } else { ChildEnters(s, i); }
    case Inside(_) => ChildCopies(s, i);
    case Copied(_, _) => ChildFlags(s, i);
    case Flagged(_, _) => ChildLeaves(s, i);
  }
}
