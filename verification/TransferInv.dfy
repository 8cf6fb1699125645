/** The invariant of the file transfer: where every token, every message and
    every process can be, in every reachable state. */
module TransferInv {
  import opened Basics
  import opened FileParts
  import opened Transfer

  // ---------------------------------------------------------------- counting

  /** What is counted over the children: tokens of a channel in hand, being
      under the mutex, having passed the barrier decrement. */
  datatype Meter = TokenOf(c: nat) | Section | Arrival

  function Reading(m: Meter, ch: Child): nat
  {
    match m
    case TokenOf(c) => if (ch.Holding? && ch.k == c) || (c == 3 && (ch.Inside? || ch.Copied?)) then 1 else 0
    case Section => if ch.Inside? || ch.Copied? || ch.Flagged? then 1 else 0
    case Arrival => if ch.Unborn? || ch.Fresh? then 0 else 1
  }

  function Total(m: Meter, children: seq<Child>): nat
  {
    if children == [] then 0 else Reading(m, children[0]) + Total(m, children[1..])
  }

  lemma {:induction false} TotalUpdate(m: Meter, children: seq<Child>, i: nat, ch: Child)
    requires i < |children|
    ensures Total(m, children[i := ch]) + Reading(m, children[i]) == Total(m, children) + Reading(m, ch)
  {
    if i == 0 {
      assert children[i := ch][1..] == children[1..];
    } else {
      assert children[i := ch][1..] == children[1..][i - 1 := ch];
      TotalUpdate(m, children[1..], i - 1, ch);
    }
  }

  lemma {:induction false} TotalAtLeast(m: Meter, children: seq<Child>, i: nat)
    requires i < |children|
    ensures Total(m, children) >= Reading(m, children[i])
  {
    if i > 0 { TotalAtLeast(m, children[1..], i - 1); }
  }

  lemma {:induction false} TotalTwo(m: Meter, children: seq<Child>, i: nat, j: nat)
    requires i < j < |children|
    ensures Total(m, children) >= Reading(m, children[i]) + Reading(m, children[j])
  {
    if i > 0 { TotalTwo(m, children[1..], i - 1, j - 1); } else { TotalAtLeast(m, children[1..], j - 1); }
  }

  lemma {:induction false} TotalNone(m: Meter, children: seq<Child>)
    requires forall i :: 0 <= i < |children| ==> Reading(m, children[i]) == 0
    ensures Total(m, children) == 0
  {
    if children != [] { TotalNone(m, children[1..]); }
  }

  lemma {:induction false} TotalAll(m: Meter, children: seq<Child>)
    requires forall i :: 0 <= i < |children| ==> Reading(m, children[i]) == 1
    ensures Total(m, children) == |children|
  {
    if children != [] { TotalAll(m, children[1..]); }
  }

  lemma {:induction false} TotalAtMost(m: Meter, children: seq<Child>)
    ensures Total(m, children) <= |children|
    ensures Total(m, children) == |children| ==> forall i :: 0 <= i < |children| ==> Reading(m, children[i]) == 1
  {
    if children != [] {
      TotalAtMost(m, children[1..]);
      assert forall i :: 0 <= i < |children[1..]| ==> children[1..][i] == children[i + 1];
      if Total(m, children) == |children| {
        forall i | 0 <= i < |children| ensures Reading(m, children[i]) == 1 {
          if i > 0 { assert children[i] == children[1..][i - 1]; }
        }
      }
    }
  }

  function Raised(flags: seq<bool>): nat
  {
    if flags == [] then 0 else (if flags[0] then 1 else 0) + Raised(flags[1..])
  }

  lemma {:induction false} RaisedUpdate(flags: seq<bool>, i: nat, b: bool)
    requires i < |flags|
    ensures Raised(flags[i := b]) + (if flags[i] then 1 else 0) == Raised(flags) + if b then 1 else 0
  {
    if i == 0 {
      assert flags[i := b][1..] == flags[1..];
    } else {
      assert flags[i := b][1..] == flags[1..][i - 1 := b];
      RaisedUpdate(flags[1..], i - 1, b);
    }
  }

  /** Fewer flags up than slots: some slot is free. */
  lemma {:induction false} RaisedAll(flags: seq<bool>)
    requires forall i :: 0 <= i < |flags| ==> flags[i]
    ensures Raised(flags) == |flags|
  {
    if flags != [] { RaisedAll(flags[1..]); }
  }

  lemma {:induction false} RaisedNone(flags: seq<bool>)
    requires forall i :: 0 <= i < |flags| ==> !flags[i]
    ensures Raised(flags) == 0
  {
    if flags != [] { RaisedNone(flags[1..]); }
  }

  lemma {:induction false} RaisedAtLeast(flags: seq<bool>, i: nat)
    requires i < |flags| && flags[i]
    ensures Raised(flags) > 0
  {
    if i > 0 { RaisedAtLeast(flags[1..], i - 1); }
  }

  function Sum(count: seq<nat>): nat
  {
    if count == [] then 0 else count[0] + Sum(count[1..])
  }

  lemma {:induction false} SumUpdate(count: seq<nat>, i: nat, v: nat)
    requires i < |count|
    ensures Sum(count[i := v]) + count[i] == Sum(count) + v
  {
    if i == 0 {
      assert count[i := v][1..] == count[1..];
    } else {
      assert count[i := v][1..] == count[1..][i - 1 := v];
      SumUpdate(count[1..], i - 1, v);
    }
  }

  /** Four parts at most for each of N files: 4N received means all of them. */
  lemma {:induction false} SumFull(count: seq<nat>)
    requires forall i :: 0 <= i < |count| ==> count[i] <= 4
    ensures Sum(count) <= 4 * |count|
    ensures Sum(count) == 4 * |count| ==> forall i :: 0 <= i < |count| ==> count[i] == 4
  {
    if count != [] {
      SumFull(count[1..]);
      if Sum(count) == 4 * |count| {
        forall i | 0 <= i < |count| ensures count[i] == 4 { if i > 0 { assert count[i] == count[1..][i - 1]; } }
      }
    }
  }

  // ------------------------------------------------------ where a message is

  /** The message of channel c has left the child. */
  predicate SentOut(ch: Child, c: nat)
    requires c < PARTS && ChildShaped(ch)
  {
    match ch
    case Try(_, sent) => sent[c]
    case Holding(_, sent) => sent[c]
    case Inside(sent) => sent[c]
    case Copied(sent, _) => sent[c]
    case Flagged(sent, _) => sent[c] || c == 3
    case Exited => true
    case _ => false
  }

  predicate InQueue(q: seq<Item>, i: nat)
  {
    exists p :: 0 <= p < |q| && q[p].Part? && q[p].m.index == i
  }

  /** The server has read i's message from channel c and not stored it yet. */
  predicate Buffered(sv: Server, c: nat, i: nat)
  {
    (sv.Got? || sv.Credited?) && sv.c == c && sv.m.index == i
  }

  /** The server has stored what this slot holds and not cleared its flag yet. */
  predicate Consuming(sv: Server, slot: nat)
  {
    (sv.Stored? || sv.Returned?) && sv.slot == slot
  }

  predicate GoodPart(jobs: seq<Job>, m: Message, c: nat)
    requires c < PARTS
  {
    m.index < |jobs| && m == MessageOf(jobs, m.index, c)
  }

  predicate QueueOk(jobs: seq<Job>, c: nat, q: seq<Item>)
    requires c < PARTS
  {
    && (forall p :: 0 <= p < |q| && q[p].Part? ==> GoodPart(jobs, q[p].m, c))
    && (forall p, r :: 0 <= p < r < |q| && q[p].Part? && q[r].Part? ==> q[p].m.index != q[r].m.index)
  }

  predicate CellsShaped(jobs: seq<Job>, cells: seq<seq<Cell>>)
  {
    |cells| == |jobs| && forall i :: 0 <= i < |cells| ==> |cells[i]| == PARTS
  }

  predicate ChildrenShaped(children: seq<Child>)
  {
    forall i :: 0 <= i < |children| ==> ChildShaped(children[i]) && !children[i].Failed?
  }

  /** Message i of a queue channel, once sent, is in exactly one place: the
      queue, the server's buffer, or its cell. */
  predicate PlaceOk(sent: bool, q: seq<Item>, sv: Server, cell: Cell, c: nat, i: nat)
  {
    && (sent <==> InQueue(q, i) || Buffered(sv, c, i) || !cell.Empty?)
    && !(InQueue(q, i) && Buffered(sv, c, i)) && !(InQueue(q, i) && !cell.Empty?) &&
      !(Buffered(sv, c, i) && !cell.Empty?)
  }

  predicate ChanOk(jobs: seq<Job>, c: nat, q: seq<Item>, children: seq<Child>, sv: Server, cells: seq<seq<Cell>>)
    requires c < 3 && |children| == |jobs| && ChildrenShaped(children) && CellsShaped(jobs, cells)
  {
    && QueueOk(jobs, c, q)
    && ((sv.Got? || sv.Credited?) && sv.c == c ==> GoodPart(jobs, sv.m, c))
    && forall i :: 0 <= i < |jobs| ==> PlaceOk(SentOut(children[i], c), q, sv, cells[i][c], c, i)
  }

  /** The slot holds i's message and the server has not stored it. */
  predicate FreshIn(flags: seq<bool>, slots: seq<Slot>, sv: Server, slot: nat, i: nat)
    requires slot < |flags| == |slots|
  {
    flags[slot] && !Consuming(sv, slot) && slots[slot].Holds? && slots[slot].m.index == i
  }

  predicate InSlots(flags: seq<bool>, slots: seq<Slot>, sv: Server, i: nat)
    requires |flags| == |slots|
  {
    exists k :: 0 <= k < |flags| && FreshIn(flags, slots, sv, k, i)
  }

  predicate SlotsOk(jobs: seq<Job>, flags: seq<bool>, slots: seq<Slot>)
    requires |flags| == |slots|
  {
    && (forall k :: 0 <= k < |flags| && flags[k] ==> slots[k].Holds? && GoodPart(jobs, slots[k].m, 3))
    && (forall k, l :: 0 <= k < l < |flags| && flags[k] && flags[l] && slots[k].Holds? && slots[l].Holds? ==>
          slots[k].m.index != slots[l].m.index)
  }

  predicate ShmPlaceOk(sent: bool, flags: seq<bool>, slots: seq<Slot>, sv: Server, cell: Cell, i: nat)
    requires |flags| == |slots|
  {
    && (sent <==> InSlots(flags, slots, sv, i) || !cell.Empty?)
    && !(InSlots(flags, slots, sv, i) && !cell.Empty?)
  }

  /** A child in shm_write: what it copied is in its slot, under its own flag. */
  predicate ShmChildOk(jobs: seq<Job>, ch: Child, i: nat, flags: seq<bool>, slots: seq<Slot>)
    requires |flags| == |slots| == SLOTS && i < |jobs| && ChildShaped(ch)
  {
    && (ch.Copied? ==> !flags[ch.slot] && slots[ch.slot] == Holds(MessageOf(jobs, i, 3)))
    && (ch.Flagged? ==> flags[ch.slot] && slots[ch.slot] == Holds(MessageOf(jobs, i, 3)))
  }

  predicate ShmOk(jobs: seq<Job>, flags: seq<bool>, slots: seq<Slot>, children: seq<Child>, sv: Server,
                  cells: seq<seq<Cell>>)
    requires |flags| == |slots| == SLOTS && |children| == |jobs| && ChildrenShaped(children) && CellsShaped(jobs, cells)
  {
    && SlotsOk(jobs, flags, slots)
    && (forall k :: 0 <= k < SLOTS && Consuming(sv, k) ==>
          flags[k] && slots[k].Holds? && slots[k].m.index < |cells| && !cells[slots[k].m.index][3].Empty?)
    && (forall i :: 0 <= i < |jobs| ==> ShmChildOk(jobs, children[i], i, flags, slots))
    && (forall i :: 0 <= i < |jobs| ==> ShmPlaceOk(SentOut(children[i], 3), flags, slots, sv, cells[i][3], i))
  }

  // ------------------------------------------------------------------- books

  function Bit(cell: Cell): nat { if cell.Empty? then 0 else 1 }

  /** A row of the table: its counter is the number of parts received; below
      four the parts are kept, with the fourth the file has been written. */
  predicate RowOk(jobs: seq<Job>, i: nat, row: seq<Cell>, count: nat)
    requires i < |jobs| && |row| == PARTS
  {
    && count == Bit(row[0]) + Bit(row[1]) + Bit(row[2]) + Bit(row[3])
    && (count < 4 ==> forall c :: 0 <= c < PARTS ==> row[c] == Empty || row[c] == Full(MessageOf(jobs, i, c)))
    && (count == 4 ==> row == [Freed, Freed, Freed, Freed])
  }

  predicate LogOk(jobs: seq<Job>, log: seq<(nat, string)>, count: seq<nat>)
    requires |count| == |jobs|
  {
    && (forall k :: 0 <= k < |log| ==>
          log[k].0 < |jobs| && log[k].1 == FileText(jobs[log[k].0]) && count[log[k].0] == 4)
    && (forall k, l :: 0 <= k < l < |log| ==> log[k].0 != log[l].0)
    && (forall i :: 0 <= i < |jobs| && count[i] == 4 ==> exists k :: 0 <= k < |log| && log[k].0 == i)
  }

  predicate BooksOk(jobs: seq<Job>, b: Books)
  {
    && CellsShaped(jobs, b.cells) && |b.count| == |jobs|
    && (forall i :: 0 <= i < |jobs| ==> RowOk(jobs, i, b.cells[i], b.count[i]))
    && LogOk(jobs, b.log, b.count)
  }

  // ------------------------------------------------------------------ phases

  predicate InLoop(sv: Server)
  {
    sv.Test? || sv.Poll? || sv.Got? || sv.Credited? || sv.Locked? || sv.Stored? || sv.Returned? || sv.Unlock?
  }

  predicate Over(sv: Server)
  {
    sv.Finish? || sv.SendEnd? || sv.AwaitN?
  }

  /** The server's end message is in the queue. */
  predicate EndQueued(s: State)
  {
    s.server.AwaitN? && !s.client.Idle?
  }

  /** All children have been forked. */
  predicate AllForked(cl: Client, n: nat)
  {
    (cl.Forking? && cl.i == n) || cl.Joining? || cl.WaitDone? || cl.RecvEnd? || cl.Idle?
  }

  /** How far client_0, the children and the server are with respect to each other. */
  predicate PhaseOk(s: State)
    requires Shaped(s)
  {
    var n := |s.jobs|;
    && s.announced.None? && s.n == n && (s.client.Idle? || n > 0)
    && (InLoop(s.server) || Over(s.server))
    && s.waitData == (if s.client.WaitGreeting? then 1 else 0)
    && (s.client.WaitGreeting? || s.client.ReadGreeting? ==>
          s.slots[0] == Greeting(n) && s.greeting == None && forall i :: 0 <= i < n ==> s.children[i].Unborn?)
    && (s.client.Forking? ==> s.client.i <= n && forall i :: 0 <= i < n ==>
      (s.children[i].Unborn? <==> i >= s.client.i))
    && (s.client.Joining? ==> forall i :: 0 <= i < n ==> !s.children[i].Unborn?)
    && (s.client.WaitDone? || s.client.RecvEnd? || s.client.Idle? ==> AllGone(s.children))
    && (InLoop(s.server) ==> s.done == 0 && !s.client.RecvEnd? && !s.client.Idle?)
    && (Over(s.server) ==> AllForked(s.client, n) && s.received == 4 * n)
    && (s.server.Finish? ==> s.done == 0 && !s.client.RecvEnd? && !s.client.Idle?)
    && (s.server.SendEnd? ==> !s.client.Idle? && s.done == if s.client.RecvEnd? then 0 else 1)
    && (s.server.AwaitN? ==> s.done == if s.client.RecvEnd? || s.client.Idle? then 0 else 1)
    && (!s.client.WaitGreeting? && !s.client.ReadGreeting? && n > 0 ==> s.greeting == Some(Greeting(n)))
    && (s.client.Idle? && n > 0 ==> s.ending == Some(End))
    && (EndQueued(s) ==> s.queues[2] == [End])
    && (!EndQueued(s) ==> forall p :: 0 <= p < |s.queues[2]| ==> s.queues[2][p].Part?)
    && (forall p :: 0 <= p < |s.queues[0]| ==> s.queues[0][p].Part?)
    && (forall p :: 0 <= p < |s.queues[1]| ==> s.queues[1][p].Part?)
  }

  /** No child is past the barrier before all have reached it. */
  predicate PastBarrier(ch: Child)
  {
    !ch.Unborn? && !ch.Fresh? && !ch.Waiting?
  }

  predicate BarrierOk(barrier: nat, children: seq<Child>)
  {
    && barrier + Total(Arrival, children) == |children|
    && (forall i :: 0 <= i < |children| && PastBarrier(children[i]) ==> barrier == 0)
  }

  /** Tokens of a queue channel: in the semaphore, in hand, with a message in the
      queue, or with a message read and not credited. */
  predicate TokenOk(c: nat, tok: nat, children: seq<Child>, queued: nat, sv: Server)
  {
    tok + Total(TokenOf(c), children) + queued + (if sv.Got? && sv.c == c then 1 else 0) == TOKENS
  }

  /** Tokens of the shared memory. Between crediting a token and clearing the
      flag the server has one too many in circulation. */
  predicate ShmTokenOk(tok: nat, children: seq<Child>, flags: seq<bool>, sv: Server)
  {
    tok + Total(TokenOf(3), children) + Raised(flags) == TOKENS + if sv.Returned? then 1 else 0
  }

  predicate ServerInside(sv: Server)
  {
    sv.Locked? || sv.Stored? || sv.Returned? || sv.Unlock?
  }

  predicate MutexOk(mutex: nat, children: seq<Child>, sv: Server)
  {
    mutex + Total(Section, children) + (if ServerInside(sv) then 1 else 0) == 1
  }

  /** Messages of files in a queue, the end message not counted. */
  function Queued(s: State, c: nat): nat
    requires |s.queues| == 3 && c < 3
  {
    if c == 2 && EndQueued(s) then 0 else |s.queues[c]|
  }

  predicate TokensOk(s: State)
    requires Shaped(s)
  {
    && TokenOk(0, s.tok[0], s.children, Queued(s, 0), s.server)
    && TokenOk(1, s.tok[1], s.children, Queued(s, 1), s.server)
    && TokenOk(2, s.tok[2], s.children, Queued(s, 2), s.server)
    && ShmTokenOk(s.tok[3], s.children, s.flags, s.server)
  }

  /** Messages counted are messages stored, but for one on its way from the
      shared memory. */
  predicate ReceivedOk(received: nat, count: seq<nat>, sv: Server)
  {
    received + (if sv.Stored? || sv.Returned? then 1 else 0) == Sum(count)
  }

  /** Where tokens and messages are. */
  predicate FlowOk(s: State)
    requires Shaped(s)
  {
    && ChildrenShaped(s.children) && ServerShaped(s) && BooksOk(s.jobs, s.books)
    && TokensOk(s) && MutexOk(s.mutex, s.children, s.server)
    && ChanOk(s.jobs, 0, s.queues[0], s.children, s.server, s.books.cells)
    && ChanOk(s.jobs, 1, s.queues[1], s.children, s.server, s.books.cells)
    && ChanOk(s.jobs, 2, s.queues[2], s.children, s.server, s.books.cells)
    && ShmOk(s.jobs, s.flags, s.slots, s.children, s.server, s.books.cells)
    && ReceivedOk(s.received, s.books.count, s.server)
  }

  /** From the server's initialisation to the client's last step of a round. */
  predicate Active(s: State)
  {
    Shaped(s) && PhaseOk(s) && BarrierOk(s.barrier, s.children) && FlowOk(s)
  }

  predicate AllQuiet(s: State)
    requires Shaped(s)
  {
    && s.waitData == 0 && s.done == 0 && s.mutex == 1
    && s.tok == [TOKENS, TOKENS, TOKENS, TOKENS] && s.queues == [[], [], []]
    && (forall k :: 0 <= k < SLOTS ==> !s.flags[k])
  }

  /** Between the announcement and the server's initialisation. */
  predicate Opening(s: State)
  {
    && Shaped(s) && ChildrenShaped(s.children) && |s.jobs| > 0 && s.client.WaitGreeting? && s.barrier == |s.jobs|
    && s.greeting == None && s.ending == None
    && (forall i :: 0 <= i < |s.jobs| ==> s.children[i].Unborn?)
    && AllQuiet(s)
    && (s.server.AwaitN? || s.server.Reset? || s.server.Greet? || s.server.Post?)
    && s.announced == (if s.server.AwaitN? then Some(|s.jobs|) else None)
    && (!s.server.AwaitN? ==> s.n == |s.jobs|)
    && (s.server.Post? ==> s.slots[0] == Greeting(|s.jobs|))
  }

  predicate Inv(s: State)
  {
    Opening(s) || Active(s)
  }
}
