/** The file transfer between client_0, its N children and the server
    (system_call/client_0.c, system_call/server.c): one step of one process at a
    time, in any order. Semaphore operations, reads and writes are atomic steps;
    a non-blocking operation that would have to wait moves on instead. */
module Transfer {
  import opened Basics
  import opened FileParts

  const SLOTS := 50
  const TOKENS := 50

  /** A file to send, and the process that sends it. */
  datatype Job = Job(filename: string, pid: nat, data: seq<char>)

  datatype Message = Message(text: seq<char>, pid: nat, index: nat, filename: string)

  /** What a FIFO or the message queue holds: a part, or the server's end message. */
  datatype Item = Part(m: Message) | End

  /** What a slot of the shared memory holds. */
  datatype Slot = Untouched | Greeting(n: nat) | Holds(m: Message)

  /** Where a child is. Channels are 0 FIFO1, 1 FIFO2, 2 message queue, 3 shared
      memory; `sent` are the four flags of ipcs_write; in Try(k) the next test is
      that of channel k, and of the loop itself for k = 4. Holding(k): the token
      of channel k is taken, the message not yet written. Inside, Copied and
      Flagged are the three stages of shm_write under the mutex. Failed: findSHM
      found no slot and the child gave up. */
  datatype Child =
    | Unborn | Fresh | Waiting
    | Try(k: nat, sent: seq<bool>) | Holding(k: nat, sent: seq<bool>)
    | Inside(sent: seq<bool>) | Copied(sent: seq<bool>, slot: nat) | Flagged(sent: seq<bool>, slot: nat)
    | Exited | Failed

  /** Where client_0 is. */
  datatype Client = Idle | WaitGreeting | ReadGreeting | Forking(i: nat) | Joining | WaitDone | RecvEnd

  /** Where the server is. Got and Credited: a message was read from channel c,
      its token not yet, or already, given back. Stored and Returned: the same in
      shared memory, where the message is stored first. Broken: it read
      something that is not a part of a file. */
  datatype Server =
    | AwaitN | Reset | Greet | Post
    | Test | Poll(c: nat) | Got(c: nat, m: Message) | Credited(c: nat, m: Message)
    | Locked | Stored(slot: nat) | Returned(slot: nat) | Unlock
    | Finish | SendEnd | Broken

  datatype Cell = Empty | Full(m: Message) | Freed

  /** files_parts, contatori and the files written so far, as (row, text). */
  datatype Books = Books(cells: seq<seq<Cell>>, count: seq<nat>, log: seq<(nat, string)>)

  datatype State = State(
    jobs: seq<Job>, announced: Option<nat>, n: nat,
    client: Client, children: seq<Child>, server: Server,
    waitData: nat, done: nat, mutex: nat, barrier: nat, tok: seq<nat>,
    queues: seq<seq<Item>>, caps: seq<nat>,
    flags: seq<bool>, slots: seq<Slot>,
    books: Books, received: nat,
    greeting: Option<Slot>, ending: Option<Item>)

  // ---------------------------------------------------------------- messages

  /** messages[c] of the child with this index. */
  function MessageOf(jobs: seq<Job>, i: nat, c: nat): Message
    requires i < |jobs| && c < PARTS
  {
    Message(FileParts.Part(jobs[i].data, c), jobs[i].pid, i, jobs[i].filename)
  }

  /** findSHM: the first slot whose flag has this value, or -1. */
  function Find(flags: seq<bool>, value: bool): (r: int)
    ensures r == -1 || 0 <= r < |flags|
    ensures r >= 0 ==> flags[r] == value && forall i :: 0 <= i < r ==> flags[i] != value
    ensures r == -1 <==> forall i :: 0 <= i < |flags| ==> flags[i] != value
  {
    if flags == [] then -1
    else if flags[0] == value then 0
    else
      var r := Find(flags[1..], value);
      if r == -1 then (assert forall i :: 0 <= i < |flags[1..]| ==> flags[1..][i] == flags[i + 1]; -1) else r + 1
  }

  /** findSHM as the loop it is. */
  method FindSHM(shm: array<bool>, value: bool) returns (r: int)
    requires shm.Length == SLOTS
    ensures r == Find(shm[..], value)
  {
    for i := 0 to SLOTS
      invariant forall k :: 0 <= k < i ==> shm[k] != value
    {
      if shm[i] == value { return i; }
    }
    return -1;
  }

  function RowText(row: seq<Cell>): string
    requires |row| == PARTS && forall c :: 0 <= c < PARTS ==> row[c].Full?
  {
    PartText(0, row[0].m.filename, row[0].m.pid, row[0].m.text) +
    PartText(1, row[1].m.filename, row[1].m.pid, row[1].m.text) +
    PartText(2, row[2].m.filename, row[2].m.pid, row[2].m.text) +
    PartText(3, row[3].m.filename, row[3].m.pid, row[3].m.text)
  }

  /** The output file a job should give. */
  function FileText(job: Job): string
  {
    PartText(0, job.filename, job.pid, FileParts.Part(job.data, 0)) +
    PartText(1, job.filename, job.pid, FileParts.Part(job.data, 1)) +
    PartText(2, job.filename, job.pid, FileParts.Part(job.data, 2)) +
    PartText(3, job.filename, job.pid, FileParts.Part(job.data, 3))
  }

  /** The output file of an accepted job, word by word. */
  lemma FileTextIs(job: Job)
    requires Accepts(|job.data|)
    ensures var f, who, d, b := job.filename, Decimal(job.pid), job.data, (|job.data| + 3) / 4;
      && b <= 2 * b <= 3 * b <= |d|
      && FileText(job) ==
        ("[Parte 0, del file " + f + ", spedita dal processo " + who + " tramite FIFO1]" + "\n" +
          CText(d[..b]) + "\n\n") +
        ("[Parte 1, del file " + f + ", spedita dal processo " + who + " tramite FIFO2]" + "\n" +
          CText(d[b..2 * b]) + "\n\n") +
        ("[Parte 2, del file " + f + ", spedita dal processo " + who + " tramite msgQueue]" + "\n" +
          CText(d[2 * b..3 * b]) + "\n\n") +
        ("[Parte 3, del file " + f + ", spedita dal processo " + who + " tramite ShdMem]" + "\n" +
          CText(d[3 * b..]) + "\n")
  {
    hide PartText; hide FileParts.Part; hide CText; hide Decimal;
    PartLengths(job.data);
    PartTextIs(job.filename, job.pid, FileParts.Part(job.data, 0));
    PartTextIs(job.filename, job.pid, FileParts.Part(job.data, 1));
    PartTextIs(job.filename, job.pid, FileParts.Part(job.data, 2));
    PartTextIs(job.filename, job.pid, FileParts.Part(job.data, 3));
  }

  predicate RowFull(row: seq<Cell>)
  {
    |row| == PARTS && forall c :: 0 <= c < PARTS ==> row[c].Full?
  }

  /** update_parts: store the message in its cell; with the fourth, write the
      file and free the cells. */
  function Update(b: Books, m: Message, c: nat): Books
    requires m.index < |b.cells| == |b.count| && c < PARTS && |b.cells[m.index]| == PARTS
  {
    var row := b.cells[m.index][c := Full(m)];
    var count := b.count[m.index := b.count[m.index] + 1];
    if count[m.index] == 4 && RowFull(row) then
      Books(b.cells[m.index := [Freed, Freed, Freed, Freed]], count, b.log + [(m.index, RowText(row))])
    else
      Books(b.cells[m.index := row], count, b.log)
  }

  function NoBooks(n: nat): Books
  {
    Books(seq(n, _ => [Empty, Empty, Empty, Empty]), seq(n, _ => 0), [])
  }

  // ------------------------------------------------------------------- steps

  datatype Actor = Start(jobs: seq<Job>) | ClientStep | ChildStep(i: nat) | ServerStep

  /** No child is left to wait for. */
  predicate AllGone(children: seq<Child>)
  {
    forall i :: 0 <= i < |children| ==> children[i].Exited? || children[i].Failed?
  }

  predicate AllSent(sent: seq<bool>)
  {
    |sent| == PARTS && sent[0] && sent[1] && sent[2] && sent[3]
  }

  predicate Shaped(s: State)
  {
    && |s.tok| == PARTS && |s.queues| == 3 && |s.caps| == 3 && |s.flags| == SLOTS && |s.slots| == SLOTS
    && |s.children| == |s.jobs|
    && (forall c :: 0 <= c < 3 ==> s.caps[c] > 0)
  }

  /** A signal makes client_0 list its files and announce how many there are;
      with no file to send it does nothing. */
  function StartRound(s: State, jobs: seq<Job>): State
  {
    s.(jobs := jobs, announced := Some(|jobs|), client := WaitGreeting, barrier := |jobs|,
       children := seq(|jobs|, _ => Unborn), greeting := None, ending := None)
  }

  predicate ClientEnabled(s: State)
    requires Shaped(s)
  {
    match s.client
    case Idle => false
    case WaitGreeting => s.waitData > 0
    case ReadGreeting => true
    case Forking(i) => true
    case Joining => AllGone(s.children)
    case WaitDone => s.done > 0
    case RecvEnd => s.queues[2] != []
  }

  function ClientNext(s: State): State
    requires Shaped(s) && ClientEnabled(s)
  {
    match s.client
    case WaitGreeting => s.(waitData := s.waitData - 1, client := ReadGreeting)
    case ReadGreeting => s.(greeting := Some(s.slots[0]), client := Forking(0))
    case Forking(i) =>
      if i < |s.children| then s.(children := s.children[i := Fresh], client := Forking(i + 1))
      else s.(client := Joining)
    case Joining => s.(client := WaitDone)
    case WaitDone => s.(done := s.done - 1, client := RecvEnd)
    case RecvEnd => s.(ending := Some(s.queues[2][0]), queues := s.queues[2 := s.queues[2][1..]], client := Idle)
  }

  predicate ChildShaped(ch: Child)
  {
    && (ch.Try? ==> ch.k <= 4 && |ch.sent| == PARTS)
    && (ch.Holding? ==> ch.k < 4 && |ch.sent| == PARTS && !ch.sent[ch.k])
    && (ch.Inside? || ch.Copied? || ch.Flagged? ==> |ch.sent| == PARTS && !ch.sent[3])
    && (ch.Copied? || ch.Flagged? ==> ch.slot < SLOTS)
  }

  predicate ChildEnabled(s: State, i: nat)
    requires Shaped(s) && i < |s.children| && ChildShaped(s.children[i])
  {
    match s.children[i]
    case Fresh => s.barrier > 0
    case Waiting => s.barrier == 0
    case Try(_, _) => true
    case Holding(k, _) => if k < 3 then |s.queues[k]| < s.caps[k] else s.mutex > 0
    case Inside(_) => true
    case Copied(_, _) => true
    case Flagged(_, _) => true
    case _ => false
  }

  function ChildNext(s: State, i: nat): State
    requires Shaped(s) && i < |s.children| && ChildShaped(s.children[i]) && ChildEnabled(s, i)
  {
    match s.children[i]
    case Fresh => s.(barrier := s.barrier - 1, children := s.children[i := Waiting])
    case Waiting => s.(children := s.children[i := Try(4, [false, false, false, false])])
    case Try(k, sent) =>
      if k == 4 then s.(children := s.children[i := if AllSent(sent) then Exited else Try(0, sent)])
      else if sent[k] || s.tok[k] == 0 then s.(children := s.children[i := Try(k + 1, sent)])
      else s.(tok := s.tok[k := s.tok[k] - 1], children := s.children[i := Holding(k, sent)])
    case Holding(k, sent) =>
      if k < 3 then
        s.(queues := s.queues[k := s.queues[k] + [Part(MessageOf(s.jobs, i, k))]],
           children := s.children[i := Try(k + 1, sent[k := true])])
      else s.(mutex := s.mutex - 1, children := s.children[i := Inside(sent)])
    case Inside(sent) =>
      var slot := Find(s.flags, false);
      if slot == -1 then s.(children := s.children[i := Failed])
      else s.(slots := s.slots[slot := Holds(MessageOf(s.jobs, i, 3))], children := s.children[i := Copied(sent, slot)])
    case Copied(sent, slot) => s.(flags := s.flags[slot := true], children := s.children[i := Flagged(sent, slot)])
    case Flagged(sent, slot) => s.(mutex := s.mutex + 1, children := s.children[i := Try(4, sent[3 := true])])
  }

  predicate ServerShaped(s: State)
  {
    && (s.server.Poll? ==> s.server.c < PARTS)
    && (s.server.Got? || s.server.Credited? ==> s.server.c < 3)
    && (s.server.Stored? || s.server.Returned? ==> s.server.slot < SLOTS)
    && (s.server.Credited? || s.server.Locked? ==>
          |s.books.cells| == |s.books.count| && forall i :: 0 <= i < |s.books.cells| ==> |s.books.cells[i]| == PARTS)
  }

  predicate ServerEnabled(s: State)
    requires Shaped(s)
  {
    match s.server
    case AwaitN => s.announced.Some? && s.announced.value > 0
    case SendEnd => |s.queues[2]| < s.caps[2]
    case Broken => false
    case _ => true
  }

  function ServerNext(s: State): State
    requires Shaped(s) && ServerShaped(s) && ServerEnabled(s)
  {
    match s.server
    case AwaitN => s.(n := s.announced.value, announced := None, server := Reset)
    case Reset => s.(flags := seq(SLOTS, _ => false), server := Greet)
    case Greet => s.(slots := s.slots[0 := Greeting(s.n)], server := Post)
    case Post => s.(waitData := s.waitData + 1, books := NoBooks(s.n), received := 0, server := Test)
    case Test => s.(server := if s.received < 4 * s.n then Poll(0) else Finish)
    case Poll(c) =>
      if c < 3 then
        if s.queues[c] == [] then s.(server := Poll(c + 1))
        else if s.queues[c][0].End? then s.(queues := s.queues[c := s.queues[c][1..]], server := Broken)
        else s.(queues := s.queues[c := s.queues[c][1..]], server := Got(c, s.queues[c][0].m))
      else if s.mutex > 0 then s.(mutex := s.mutex - 1, server := Locked)
      else s.(server := Test)
    case Got(c, m) => s.(tok := s.tok[c := s.tok[c] + 1], server := Credited(c, m))
    case Credited(c, m) =>
      if m.index >= |s.books.cells| then s.(server := Broken)
      else s.(books := Update(s.books, m, c), received := s.received + 1, server := Poll(c + 1))
    case Locked =>
      var slot := Find(s.flags, true);
      if slot == -1 then s.(server := Unlock)
      else if !s.slots[slot].Holds? || s.slots[slot].m.index >= |s.books.cells| then s.(server := Broken)
      else s.(books := Update(s.books, s.slots[slot].m, 3), server := Stored(slot))
    case Stored(slot) => s.(tok := s.tok[3 := s.tok[3] + 1], server := Returned(slot))
    case Returned(slot) => s.(flags := s.flags[slot := false], received := s.received + 1, server := Unlock)
    case Unlock => s.(mutex := s.mutex + 1, server := Test)
    case Finish => s.(done := s.done + 1, server := SendEnd)
    case SendEnd => s.(queues := s.queues[2 := s.queues[2] + [End]], server := AwaitN)
  }

  predicate Enabled(s: State, a: Actor)
  {
    Shaped(s) &&
    match a
    case Start(jobs) => s.client.Idle? && jobs != [] && forall i :: 0 <= i < |jobs| ==> Accepts(|jobs[i].data|)
    case ClientStep => ClientEnabled(s)
    case ChildStep(i) => i < |s.children| && ChildShaped(s.children[i]) && ChildEnabled(s, i)
    case ServerStep => ServerShaped(s) && ServerEnabled(s)
  }

  function Next(s: State, a: Actor): State
    requires Enabled(s, a)
  {
    match a
    case Start(jobs) => StartRound(s, jobs)
    case ClientStep => ClientNext(s)
    case ChildStep(i) => ChildNext(s, i)
    case ServerStep => ServerNext(s)
  }

  /** The semaphores as semInitVal sets them, nothing in transit, nobody at work. */
  function Initial(caps: seq<nat>): State
  {
    State([], None, 0, Idle, [], AwaitN, 0, 0, 1, 0, [TOKENS, TOKENS, TOKENS, TOKENS],
          [[], [], []], caps, seq(SLOTS, _ => false), seq(SLOTS, _ => Untouched), NoBooks(0), 0, None, None)
  }

  predicate Run(s: State, actors: seq<Actor>)
    decreases |actors|
  {
    actors == [] || (Enabled(s, actors[0]) && Run(Next(s, actors[0]), actors[1..]))
  }

  function After(s: State, actors: seq<Actor>): State
    requires Run(s, actors)
    decreases |actors|
  {
    if actors == [] then s else After(Next(s, actors[0]), actors[1..])
  }
}
