/** Every step of the server keeps the invariant of the transfer
    (system_call/server.c, ipcs_read, update_parts and the round loop). */
module TransferServer {
  import opened FileParts
  import opened Transfer
  import opened TransferInv
  import opened TransferLocal
  import opened TransferChildren

  /** No message in the server's hands. */
  predicate HandsFree(sv: Server)
  {
    !sv.Got? && !sv.Credited? && !sv.Stored? && !sv.Returned?
  }

  /** What one needs to know of a state without looking into the invariant. */
  lemma ActiveFacts(s: State)
    requires Active(s)
    ensures Shaped(s) && ChildrenShaped(s.children) && ServerShaped(s) && s.received <= 4 * |s.jobs| && !Opening(s)
    ensures s.announced.None? && s.n == |s.jobs| && (InLoop(s.server) || Over(s.server))
    ensures s.client.WaitGreeting? ==> s.waitData > 0 && InLoop(s.server)
    ensures s.client.Forking? ==> s.client.i <= |s.children|
    ensures s.client.Joining? ==> forall i :: 0 <= i < |s.children| ==> !s.children[i].Unborn?
    ensures s.client.RecvEnd? ==> Over(s.server)
  {
    hide BarrierOk; hide TokensOk; hide ChanOk; hide ShmOk;
    AllCounted(s.jobs, s.books, s.received, s.server);
  }

  // ----------------------------------------------------- parts of the invariant

  lemma PhaseLoop(s: State, t: State)
    requires Shaped(s) && PhaseOk(s) && Shaped(t) && InLoop(s.server) && InLoop(t.server)
    requires t.jobs == s.jobs && t.announced == s.announced && t.n == s.n && t.client == s.client &&
      t.children == s.children
    requires t.waitData == s.waitData && t.done == s.done && t.greeting == s.greeting && t.ending == s.ending &&
      t.slots == s.slots
    requires forall c, p :: 0 <= c < 3 && 0 <= p < |t.queues[c]| ==> t.queues[c][p] in s.queues[c]
    ensures PhaseOk(t)
  {
    assert forall c, p :: 0 <= c < 3 && 0 <= p < |t.queues[c]| ==> t.queues[c][p].Part?;
  }

  /** The three queue channels, when the server has nothing to do with them. */
  lemma QueuesServer(s: State, next: Server)
    requires Shaped(s) && FlowOk(s) && !s.server.Got? && !s.server.Credited? && !next.Got? && !next.Credited?
    ensures CellsShaped(s.jobs, s.books.cells)
    ensures ChanOk(s.jobs, 0, s.queues[0], s.children, next, s.books.cells) &&
      TokenOk(0, s.tok[0], s.children, Queued(s, 0), next)
    ensures ChanOk(s.jobs, 1, s.queues[1], s.children, next, s.books.cells) &&
      TokenOk(1, s.tok[1], s.children, Queued(s, 1), next)
    ensures ChanOk(s.jobs, 2, s.queues[2], s.children, next, s.books.cells) &&
      TokenOk(2, s.tok[2], s.children, Queued(s, 2), next)
  {
    hide ChanOk; hide ShmOk; hide BooksOk; hide ShmTokenOk; hide MutexOk; hide ReceivedOk;
    BooksShape(s.jobs, s.books);
    ChanServer(s.jobs, 0, s.queues[0], s.children, s.server, s.books.cells, next);
    ChanServer(s.jobs, 1, s.queues[1], s.children, s.server, s.books.cells, next);
    ChanServer(s.jobs, 2, s.queues[2], s.children, s.server, s.books.cells, next);
  }

  /** The server moves with no message in hand, taking or giving the mutex at most. */
  lemma ServerFlow(s: State, next: Server, mutex: nat)
    requires Shaped(s) && FlowOk(s) && HandsFree(s.server) && HandsFree(next)
    requires next.Poll? ==> next.c < PARTS
    requires EndQueued(s) == EndQueued(s.(server := next)) && MutexOk(mutex, s.children, next)
    ensures FlowOk(s.(server := next, mutex := mutex))
  {
    hide ChanOk; hide ShmOk; hide TokenOk; hide MutexOk; hide Total;
    QueuesServer(s, next);
    ShmServer(s.jobs, s.flags, s.slots, s.children, s.server, s.books.cells, next);
  }

  // ------------------------------------------------------------------- steps

  /** Around the loop with nothing received. */
  lemma ServerTurns(s: State, next: Server, mutex: nat)
    requires Active(s) && InLoop(s.server) && InLoop(next) && HandsFree(s.server) && HandsFree(next)
    requires next.Poll? ==> next.c < PARTS
    requires MutexOk(mutex, s.children, next)
    ensures Active(s.(server := next, mutex := mutex))
  {
    ServerFlow(s, next, mutex);
    PhaseLoop(s, s.(server := next, mutex := mutex));
    hide FlowOk; hide PhaseOk;
  }

  lemma PhaseFinish(s: State)
    requires Shaped(s) && PhaseOk(s) && InLoop(s.server) && s.received == 4 * |s.jobs|
    requires forall i :: 0 <= i < |s.jobs| ==> !s.children[i].Unborn?
    ensures PhaseOk(s.(server := Finish))
  {
    assert |s.jobs| > 0;
    assert !s.children[0].Unborn?;
    var j := if s.client.Forking? && s.client.i < |s.jobs| then s.client.i else 0;
    assert !s.children[j].Unborn?;
  }

  /** All 4N messages received: every child is born and has sent everything. */
  lemma ServerFinishes(s: State)
    requires Active(s) && s.server.Test? && s.received >= 4 * s.n
    ensures Active(s.(server := Finish))
  {
    AllCounted(s.jobs, s.books, s.received, s.server);
    RoundComplete(s);
    forall i | 0 <= i < |s.jobs| ensures !s.children[i].Unborn? {
      assert SentOut(s.children[i], 0);
    }
    MutexServer(s.mutex, s.children, s.server, Finish);
    hide FlowOk; hide PhaseOk; hide BarrierOk; hide SentOut; hide MutexOk;
    ServerFlow(s, Finish, s.mutex);
    PhaseFinish(s);
    assert s.(server := Finish, mutex := s.mutex) == s.(server := Finish);
  }

  /** One channel, when the server reads the first message of channel c. */
  lemma ChanGet(jobs: seq<Job>, d: nat, c: nat, m: Message, q: seq<Item>, tok: nat, children: seq<Child>,
                cells: seq<seq<Cell>>, queued: nat)
    requires c < 3 && d < 3 && |children| == |jobs| && ChildrenShaped(children) && CellsShaped(jobs, cells)
    requires ChanOk(jobs, d, q, children, Poll(c), cells) && TokenOk(d, tok, children, queued, Poll(c))
    requires d == c ==> q != [] && q[0] == Item.Part(m) && queued == |q|
    ensures var r := if d == c then q[1..] else q;
      ChanOk(jobs, d, r, children, Got(c, m), cells) &&
      TokenOk(d, tok, children, if d == c then |r| else queued, Got(c, m))
  {
    hide ChanOk; hide Total;
    if d == c { ChanReceive(jobs, c, q, children, Poll(c), cells); }
    else { ChanServer(jobs, d, q, children, Poll(c), cells, Got(c, m)); }
  }

  lemma ReceiveFlow(s: State, c: nat)
    requires Shaped(s) && FlowOk(s) && !EndQueued(s)
    requires c < 3 && s.server == Poll(c) && s.queues[c] != [] && s.queues[c][0].Part?
    ensures FlowOk(s.(queues := s.queues[c := s.queues[c][1..]], server := Got(c, s.queues[c][0].m)))
  {
    hide ChanOk; hide ShmOk; hide BooksOk; hide MutexOk; hide Total; hide TokenOk; hide Raised; hide Sum;
    var m := s.queues[c][0].m;
    BooksShape(s.jobs, s.books);
    MutexServer(s.mutex, s.children, s.server, Got(c, m));
    ChanGet(s.jobs, 0, c, m, s.queues[0], s.tok[0], s.children, s.books.cells, Queued(s, 0));
    ChanGet(s.jobs, 1, c, m, s.queues[1], s.tok[1], s.children, s.books.cells, Queued(s, 1));
    ChanGet(s.jobs, 2, c, m, s.queues[2], s.tok[2], s.children, s.books.cells, Queued(s, 2));
    ShmServer(s.jobs, s.flags, s.slots, s.children, s.server, s.books.cells, Got(c, m));
  }

  lemma MutexServer(mutex: nat, children: seq<Child>, sv: Server, next: Server)
    requires MutexOk(mutex, children, sv) && ServerInside(sv) == ServerInside(next)
    ensures MutexOk(mutex, children, next)
  {
  }

  /** A message read from a FIFO or from the message queue. */
  lemma ServerReceives(s: State)
    requires Active(s) && s.server.Poll? && s.server.c < 3 && s.queues[s.server.c] != []
    ensures Active(ServerNext(s))
  {
    var c := s.server.c;
    assert s.queues[c][0].Part?;
    ReceiveFlow(s, c);
    PhaseLoop(s, ServerNext(s));
    hide FlowOk; hide PhaseOk; hide BarrierOk;
  }

  lemma CreditFlow(s: State)
    requires Shaped(s) && FlowOk(s) && s.server.Got?
    ensures FlowOk(ServerNext(s))
  {
    var c, next := s.server.c, Credited(s.server.c, s.server.m);
    BooksShape(s.jobs, s.books);
    hide ChanOk; hide ShmOk; hide BooksOk; hide MutexOk; hide Total;
    assert MutexOk(s.mutex, s.children, next) by { MutexServer(s.mutex, s.children, s.server, next); }
    ChanServer(s.jobs, 0, s.queues[0], s.children, s.server, s.books.cells, next);
    ChanServer(s.jobs, 1, s.queues[1], s.children, s.server, s.books.cells, next);
    ChanServer(s.jobs, 2, s.queues[2], s.children, s.server, s.books.cells, next);
    ShmServer(s.jobs, s.flags, s.slots, s.children, s.server, s.books.cells, next);
  }

  /** The token of a received message given back. */
  lemma ServerCredits(s: State)
    requires Active(s) && s.server.Got?
    ensures Active(ServerNext(s))
  {
    hide FlowOk; hide BarrierOk; hide PhaseOk;
    ActiveFacts(s);
    CreditFlow(s);
    PhaseLoop(s, ServerNext(s));
  }

  /** Storing what channel c delivered, in the books' own terms. */
  lemma StoreFlow(s: State)
    requires Shaped(s) && FlowOk(s) && s.server.Credited?
    ensures s.server.m.index < |s.books.cells| && s.server.m == MessageOf(s.jobs, s.server.m.index, s.server.c)
    ensures s.books.cells[s.server.m.index][s.server.c].Empty?
    ensures FlowOk(ServerNext(s))
  {
    hide Sum; hide Update; hide MessageOf; hide LogOk; hide RowOk; hide PlaceOk; hide ShmPlaceOk; hide SlotsOk;
    var c, m := s.server.c, s.server.m;
    var i, next := m.index, Poll(c + 1);
    BooksShape(s.jobs, s.books);
    BufferedPart(s.jobs, c, s.queues[c], s.children, s.server, s.books.cells);
    UpdateKeeps(s.jobs, s.books, i, c);
    BooksShape(s.jobs, Update(s.books, m, c));
    assert MutexOk(s.mutex, s.children, next) by { MutexServer(s.mutex, s.children, s.server, next); }
    hide ChanOk; hide ShmOk; hide BooksOk; hide MutexOk; hide Total;
    var after := Update(s.books, m, c).cells;
    ChanStored(s.jobs, 0, s.queues[0], s.children, s.server, s.books.cells, after, next);
    ChanStored(s.jobs, 1, s.queues[1], s.children, s.server, s.books.cells, after, next);
    ChanStored(s.jobs, 2, s.queues[2], s.children, s.server, s.books.cells, after, next);
    ShmCells(s.jobs, s.flags, s.slots, s.children, s.server, s.books.cells, after);
    ShmServer(s.jobs, s.flags, s.slots, s.children, s.server, after, next);
  }

  lemma BufferedPart(jobs: seq<Job>, c: nat, q: seq<Item>, children: seq<Child>, sv: Server, cells: seq<seq<Cell>>)
    requires c < 3 && |children| == |jobs| && ChildrenShaped(children) && CellsShaped(jobs, cells)
    requires ChanOk(jobs, c, q, children, sv, cells) && sv.Credited? && sv.c == c
    ensures GoodPart(jobs, sv.m, c) && cells[sv.m.index][c].Empty?
  {
    var i := sv.m.index;
    assert PlaceOk(SentOut(children[i], c), q, sv, cells[i][c], c, i);
    assert Buffered(sv, c, i);
  }

  /** One channel, when the message of the server's buffer gets its cell. */
  lemma ChanStored(jobs: seq<Job>, c: nat, q: seq<Item>, children: seq<Child>, sv: Server, cells: seq<seq<Cell>>,
                   after: seq<seq<Cell>>, next: Server)
    requires c < 3 && |children| == |jobs| && ChildrenShaped(children) && CellsShaped(jobs, cells) &&
      CellsShaped(jobs, after)
    requires ChanOk(jobs, c, q, children, sv, cells) && sv.Credited? && sv.c < 3 && !next.Got? && !next.Credited?
    requires Fills(cells, after, sv.m.index, sv.c)
    ensures ChanOk(jobs, c, q, children, next, after)
  {
    hide ChanOk;
    if c == sv.c {
      ChanStore(jobs, c, q, children, sv, cells, after, next);
    } else {
      ChanCells(jobs, c, q, children, sv, cells, after);
      ChanServer(jobs, c, q, children, sv, after, next);
    }
  }

  /** update_parts with a message of a FIFO or of the message queue: into an empty cell. */
  lemma ServerStores(s: State)
    requires Active(s) && s.server.Credited?
    ensures Active(ServerNext(s))
  {
    hide FlowOk; hide BarrierOk; hide Update; hide PhaseOk; hide MessageOf;
    ActiveFacts(s);
    StoreFlow(s);
    PhaseLoop(s, ServerNext(s));
  }

  // ----------------------------------------------------------- shared memory

  /** update_parts with what a flagged slot holds: into an empty cell. */
  lemma ShmStoreFlow(s: State, slot: nat)
    requires Shaped(s) && FlowOk(s) && s.server.Locked? && slot < SLOTS && s.flags[slot]
    ensures s.slots[slot].Holds? && s.slots[slot].m.index < |s.books.cells|
    ensures s.slots[slot].m == MessageOf(s.jobs, s.slots[slot].m.index, 3) &&
      s.books.cells[s.slots[slot].m.index][3].Empty?
    ensures FlowOk(s.(books := Update(s.books, s.slots[slot].m, 3), server := Stored(slot)))
  {
    BooksShape(s.jobs, s.books);
    SlotPart(s.jobs, s.flags, s.slots, s.children, s.server, s.books.cells, slot);
    var m := s.slots[slot].m;
    UpdateKeeps(s.jobs, s.books, m.index, 3);
    BooksShape(s.jobs, Update(s.books, m, 3));
    assert MutexOk(s.mutex, s.children, Stored(slot)) by { MutexServer(s.mutex, s.children, s.server, Stored(slot)); }
    hide ChanOk; hide ShmOk; hide BooksOk; hide MutexOk; hide Total; hide Sum; hide Update; hide MessageOf; hide Raised;
    var after := Update(s.books, m, 3).cells;
    QueuesServer(s, Stored(slot));
    ChanCells(s.jobs, 0, s.queues[0], s.children, Stored(slot), s.books.cells, after);
    ChanCells(s.jobs, 1, s.queues[1], s.children, Stored(slot), s.books.cells, after);
    ChanCells(s.jobs, 2, s.queues[2], s.children, Stored(slot), s.books.cells, after);
    ShmStore(s.jobs, s.flags, s.slots, s.children, s.server, s.books.cells, after, slot);
  }

  lemma SlotPart(jobs: seq<Job>, flags: seq<bool>, slots: seq<Slot>, children: seq<Child>, sv: Server,
                 cells: seq<seq<Cell>>, slot: nat)
    requires |flags| == |slots| == SLOTS && |children| == |jobs| && ChildrenShaped(children) && CellsShaped(jobs, cells)
    requires ShmOk(jobs, flags, slots, children, sv, cells) && sv.Locked? && slot < SLOTS && flags[slot]
    ensures slots[slot].Holds? && GoodPart(jobs, slots[slot].m, 3) && cells[slots[slot].m.index][3].Empty?
  {
    var i := slots[slot].m.index;
    assert GoodPart(jobs, slots[slot].m, 3);
    assert FreshIn(flags, slots, sv, slot, i);
    assert ShmPlaceOk(SentOut(children[i], 3), flags, slots, sv, cells[i][3], i);
  }

  lemma ServerTakesSlot(s: State, slot: nat)
    requires Active(s) && s.server.Locked? && slot < SLOTS && s.flags[slot]
    ensures s.slots[slot].Holds? && s.slots[slot].m.index < |s.books.cells| == |s.books.count| &&
      |s.books.cells[s.slots[slot].m.index]| == PARTS
    ensures Active(s.(books := Update(s.books, s.slots[slot].m, 3), server := Stored(slot)))
  {
    hide FlowOk; hide BarrierOk; hide Update; hide PhaseOk; hide MessageOf;
    ActiveFacts(s);
    ShmStoreFlow(s, slot);
    PhaseLoop(s, s.(books := Update(s.books, s.slots[slot].m, 3), server := Stored(slot)));
  }

  lemma ReturnFlow(s: State)
    requires Shaped(s) && FlowOk(s) && s.server.Stored?
    ensures FlowOk(ServerNext(s))
  {
    var next := Returned(s.server.slot);
    assert MutexOk(s.mutex, s.children, next) by { MutexServer(s.mutex, s.children, s.server, next); }
    BooksShape(s.jobs, s.books);
    hide ChanOk; hide ShmOk; hide BooksOk; hide MutexOk; hide Total; hide Sum; hide Raised; hide TokenOk;
    QueuesServer(s, next);
    ShmServer(s.jobs, s.flags, s.slots, s.children, s.server, s.books.cells, next);
  }

  /** The token of the shared memory given back, the flag still up. */
  lemma ServerReturns(s: State)
    requires Active(s) && s.server.Stored?
    ensures Active(ServerNext(s))
  {
    hide FlowOk; hide BarrierOk; hide PhaseOk;
    ActiveFacts(s);
    ReturnFlow(s);
    PhaseLoop(s, ServerNext(s));
  }

  lemma NobodyInside(mutex: nat, children: seq<Child>, sv: Server)
    requires MutexOk(mutex, children, sv) && ServerInside(sv)
    ensures mutex == 0 && forall j :: 0 <= j < |children| ==> Reading(Section, children[j]) == 0
  {
    forall j | 0 <= j < |children| ensures Reading(Section, children[j]) == 0 {
      TotalAtLeast(Section, children, j);
    }
  }

  lemma ClearFlow(s: State)
    requires Shaped(s) && FlowOk(s) && s.server.Returned?
    ensures FlowOk(ServerNext(s))
  {
    var slot := s.server.slot;
    NobodyInside(s.mutex, s.children, s.server);
    assert MutexOk(s.mutex, s.children, Unlock) by { MutexServer(s.mutex, s.children, s.server, Unlock); }
    BooksShape(s.jobs, s.books);
    hide ChanOk; hide ShmOk; hide BooksOk; hide MutexOk; hide Total; hide Sum; hide Raised; hide TokenOk;
    QueuesServer(s, Unlock);
    ShmClear(s.jobs, s.flags, s.slots, s.children, s.server, s.books.cells, slot);
    RaisedUpdate(s.flags, slot, false);
  }

  /** The flag cleared and the message counted. */
  lemma ServerClears(s: State)
    requires Active(s) && s.server.Returned?
    ensures Active(ServerNext(s))
  {
    hide FlowOk; hide BarrierOk; hide PhaseOk;
    ActiveFacts(s);
    ClearFlow(s);
    PhaseLoop(s, ServerNext(s));
  }

  // ------------------------------------------------------- end of the round

  /** Once the server is out of its loop all queues are empty, but for its own
      end message, and all flags are down. */
  lemma OverIsDrained(s: State)
    requires Active(s) && Over(s.server)
    ensures s.queues[0] == [] && s.queues[1] == [] && s.queues[2] == (if EndQueued(s) then [End] else [])
    ensures forall k :: 0 <= k < SLOTS ==> !s.flags[k]
    ensures forall i, c :: 0 <= i < |s.jobs| && 0 <= c < PARTS ==> SentOut(s.children[i], c)
    ensures forall i :: 0 <= i < |s.jobs| ==> s.books.count[i] == 4
  {
    hide FlowOk; hide SentOut; hide BarrierOk;
    RoundComplete(s);
  }

  /** SERVER_DONE posted. */
  lemma ServerPosts(s: State)
    requires Active(s) && s.server.Finish?
    ensures Active(ServerNext(s))
  {
    assert MutexOk(s.mutex, s.children, SendEnd) by { MutexServer(s.mutex, s.children, s.server, SendEnd); }
    ServerFlow(s, SendEnd, s.mutex);
    hide FlowOk; hide BarrierOk;
    FlowFrame(s.(server := SendEnd, mutex := s.mutex), ServerNext(s));
  }

  /** The end message queued. */
  lemma ServerEnds(s: State)
    requires Active(s) && s.server.SendEnd? && ServerEnabled(s)
    ensures Active(ServerNext(s))
  {
    hide FlowOk; hide BarrierOk; hide SentOut;
    OverIsDrained(s);
    assert !s.client.Idle?;
    hide PhaseOk;
    EndFlow(s);
    PhaseEnd(s);
  }

  lemma PhaseEnd(s: State)
    requires Shaped(s) && PhaseOk(s) && s.server.SendEnd? && s.queues[2] == []
    ensures PhaseOk(s.(queues := s.queues[2 := s.queues[2] + [End]], server := AwaitN))
  {
    assert s.queues[2] + [End] == [End];
  }

  lemma EndFlow(s: State)
    requires Shaped(s) && FlowOk(s) && s.server.SendEnd? && s.queues[2] == [] && !s.client.Idle?
    ensures FlowOk(s.(queues := s.queues[2 := s.queues[2] + [End]], server := AwaitN))
  {
    assert MutexOk(s.mutex, s.children, AwaitN) by { MutexServer(s.mutex, s.children, s.server, AwaitN); }
    BooksShape(s.jobs, s.books);
    hide ChanOk; hide ShmOk; hide BooksOk; hide MutexOk; hide Total; hide Sum; hide Raised; hide TokenOk;
    QueuesServer(s, AwaitN);
    ChanEnd(s.jobs, s.queues[2], s.children, AwaitN, s.books.cells, [End]);
    ShmServer(s.jobs, s.flags, s.slots, s.children, s.server, s.books.cells, AwaitN);
    assert s.queues[2] + [End] == [End];
  }

  /** The end message is nobody's part. */
  lemma ChanEnd(jobs: seq<Job>, q: seq<Item>, children: seq<Child>, sv: Server, cells: seq<seq<Cell>>, r: seq<Item>)
    requires |children| == |jobs| && ChildrenShaped(children) && CellsShaped(jobs, cells)
    requires ChanOk(jobs, 2, q, children, sv, cells) && (forall p :: 0 <= p < |q| ==> q[p].End?) &&
      (forall p :: 0 <= p < |r| ==> r[p].End?)
    ensures ChanOk(jobs, 2, r, children, sv, cells)
  {
    hide SentOut;
    forall i | 0 <= i < |jobs| ensures PlaceOk(SentOut(children[i], 2), r, sv, cells[i][2], 2, i) {
      assert PlaceOk(SentOut(children[i], 2), q, sv, cells[i][2], 2, i);
      assert !InQueue(q, i) && !InQueue(r, i);
    }
  }

  lemma ServerGoes(s: State, next: Server)
    requires Active(s) && InLoop(s.server) && InLoop(next) && HandsFree(s.server) && HandsFree(next)
    requires (next.Poll? ==> next.c < PARTS) && ServerInside(s.server) == ServerInside(next)
    ensures Active(s.(server := next))
  {
    assert MutexOk(s.mutex, s.children, next) by { MutexServer(s.mutex, s.children, s.server, next); }
    ServerTurns(s, next, s.mutex);
    assert s.(server := next, mutex := s.mutex) == s.(server := next);
  }

  /** The mutex taken by the non-blocking decrement, or given back. */
  lemma ServerLocks(s: State)
    requires Active(s) && ((s.server == Poll(3) && s.mutex > 0) || s.server.Unlock?)
    ensures Active(ServerNext(s))
  {
    ServerTurns(s, ServerNext(s).server, ServerNext(s).mutex);
  }

  /** Every step of the server keeps the invariant, and with it that it never
      reads anything but a part of a file. */
  lemma ServerKeeps(s: State)
    requires Active(s) && ServerEnabled(s)
    ensures Active(ServerNext(s))
  {
    hide FlowOk; hide PhaseOk; hide BarrierOk; hide Update; hide Active;
    ActiveFacts(s);
    match s.server
    case Test => if s.received < 4 * s.n { ServerGoes(s, Poll(0)); } else { ServerFinishes(s); }
    case Poll(c) =>
      if c < 3 { if s.queues[c] == [] { ServerGoes(s, Poll(c + 1)); } else { ServerReceives(s); } }
      else if s.mutex > 0 { ServerLocks(s); }
      else { ServerGoes(s, Test); }
    case Got(_, _) => ServerCredits(s);
    case Credited(_, _) => ServerStores(s);
    case Locked => if Find(s.flags, true) == -1 { ServerGoes(s, Unlock);
      } else { ServerTakesSlot(s, Find(s.flags, true)); }
    case Stored(_) => ServerReturns(s);
    case Returned(_) => ServerClears(s);
    case Unlock => ServerLocks(s);
    case Finish => ServerPosts(s);
    case SendEnd => ServerEnds(s);
  }
}
