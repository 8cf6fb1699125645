/** What one change keeps of the invariant's parts: a child moves, the server
    moves, a message changes places. */
module TransferLocal {
  import opened FileParts
  import opened Transfer
  import opened TransferInv

  // ------------------------------------------------- when all is received

  lemma AllCounted(jobs: seq<Job>, b: Books, received: nat, sv: Server)
    requires BooksOk(jobs, b) && ReceivedOk(received, b.count, sv)
    ensures received <= 4 * |jobs|
    ensures received == 4 * |jobs| ==>
      forall i :: 0 <= i < |jobs| ==> b.count[i] == 4 && b.cells[i] == [Freed, Freed, Freed, Freed]
  {
    forall i | 0 <= i < |jobs| ensures b.count[i] <= 4 &&
      (b.count[i] == 4 ==> b.cells[i] == [Freed, Freed, Freed, Freed]) {
      assert RowOk(jobs, i, b.cells[i], b.count[i]);
    }
    SumFull(b.count);
  }

  lemma NothingQueued(jobs: seq<Job>, c: nat, q: seq<Item>, children: seq<Child>, sv: Server, cells: seq<seq<Cell>>)
    requires c < 3 && |children| == |jobs| && ChildrenShaped(children) && CellsShaped(jobs, cells)
    requires ChanOk(jobs, c, q, children, sv, cells)
    requires forall i :: 0 <= i < |jobs| ==> !cells[i][c].Empty?
    ensures forall i :: 0 <= i < |jobs| ==> SentOut(children[i], c)
    ensures forall p :: 0 <= p < |q| ==> q[p].End?
  {
    forall i | 0 <= i < |jobs| ensures SentOut(children[i], c) && !InQueue(q, i) {
      assert PlaceOk(SentOut(children[i], c), q, sv, cells[i][c], c, i);
    }
    forall p | 0 <= p < |q| ensures q[p].End? {
      if q[p].Part? {
        assert GoodPart(jobs, q[p].m, c);
        assert InQueue(q, q[p].m.index);
      }
    }
  }

  lemma NothingFlagged(jobs: seq<Job>, flags: seq<bool>, slots: seq<Slot>, children: seq<Child>, sv: Server,
                       cells: seq<seq<Cell>>)
    requires |flags| == |slots| == SLOTS && |children| == |jobs| && ChildrenShaped(children) && CellsShaped(jobs, cells)
    requires ShmOk(jobs, flags, slots, children, sv, cells)
    requires forall i :: 0 <= i < |jobs| ==> !cells[i][3].Empty?
    ensures forall i :: 0 <= i < |jobs| ==> SentOut(children[i], 3)
    ensures forall k :: 0 <= k < SLOTS && flags[k] ==> Consuming(sv, k)
  {
    forall i | 0 <= i < |jobs| ensures SentOut(children[i], 3) && !InSlots(flags, slots, sv, i) {
      assert ShmPlaceOk(SentOut(children[i], 3), flags, slots, sv, cells[i][3], i);
    }
    forall k | 0 <= k < SLOTS && flags[k] ensures Consuming(sv, k) {
      assert GoodPart(jobs, slots[k].m, 3);
      if !Consuming(sv, k) {
        assert FreshIn(flags, slots, sv, k, slots[k].m.index);
        assert InSlots(flags, slots, sv, slots[k].m.index);
      }
    }
  }

  // ----------------------------------------------------- one child moves on

  predicate SameSent(a: Child, b: Child)
    requires ChildShaped(a) && ChildShaped(b)
  {
    forall c :: 0 <= c < PARTS ==> SentOut(a, c) == SentOut(b, c)
  }

  /** The messages of a channel, when the moving child's own has not moved. */
  lemma ChanChild(jobs: seq<Job>, c: nat, q: seq<Item>, children: seq<Child>, sv: Server, cells: seq<seq<Cell>>,
                  i: nat, ch: Child)
    requires c < 3 && |children| == |jobs| && ChildrenShaped(children) && CellsShaped(jobs, cells)
    requires ChanOk(jobs, c, q, children, sv, cells)
    requires i < |children| && ChildShaped(ch) && !ch.Failed? && SentOut(ch, c) == SentOut(children[i], c)
    ensures ChildrenShaped(children[i := ch]) && ChanOk(jobs, c, q, children[i := ch], sv, cells)
  {
    hide PlaceOk; hide QueueOk; hide SentOut;
    forall j | 0 <= j < |jobs| ensures PlaceOk(SentOut(children[i := ch][j], c), q, sv, cells[j][c], c, j) {
      assert PlaceOk(SentOut(children[j], c), q, sv, cells[j][c], c, j);
    }
  }

  /** Holding a token, the child writes its message. */
  lemma ChanSend(jobs: seq<Job>, c: nat, q: seq<Item>, children: seq<Child>, sv: Server, cells: seq<seq<Cell>>,
                 i: nat, ch: Child)
    requires c < 3 && |children| == |jobs| && ChildrenShaped(children) && CellsShaped(jobs, cells)
    requires ChanOk(jobs, c, q, children, sv, cells)
    requires i < |children| && ChildShaped(ch) && !ch.Failed? && !SentOut(children[i], c) && SentOut(ch, c)
    ensures ChildrenShaped(children[i := ch])
    ensures ChanOk(jobs, c, q + [Item.Part(MessageOf(jobs, i, c))], children[i := ch], sv, cells)
  {
    hide SentOut;
    var m := MessageOf(jobs, i, c);
    var r := q + [Item.Part(m)];
    assert m.index == i;
    assert PlaceOk(SentOut(children[i], c), q, sv, cells[i][c], c, i);
    forall j | 0 <= j < |jobs| ensures InQueue(r, j) <==> InQueue(q, j) || j == i {
      if InQueue(q, j) {
        var p :| 0 <= p < |q| && q[p].Part? && q[p].m.index == j;
        assert r[p] == q[p];
      }
      assert r[|q|].Part?;
    }
    forall p | 0 <= p < |q| && q[p].Part? ensures q[p].m.index != i {
      assert InQueue(q, q[p].m.index);
    }
    forall j | 0 <= j < |jobs| ensures PlaceOk(SentOut(children[i := ch][j], c), r, sv, cells[j][c], c, j) {
      assert PlaceOk(SentOut(children[j], c), q, sv, cells[j][c], c, j);
    }
    assert QueueOk(jobs, c, r);
  }

  /** The shared memory, when the moving child's own message has not moved. */
  lemma ShmChild(jobs: seq<Job>, flags: seq<bool>, slots: seq<Slot>, children: seq<Child>, sv: Server,
                 cells: seq<seq<Cell>>, i: nat, ch: Child)
    requires |flags| == |slots| == SLOTS && |children| == |jobs| && ChildrenShaped(children) && CellsShaped(jobs, cells)
    requires ShmOk(jobs, flags, slots, children, sv, cells)
    requires i < |children| && ChildShaped(ch) && !ch.Failed? && SentOut(ch, 3) == SentOut(children[i], 3)
    requires ShmChildOk(jobs, ch, i, flags, slots)
    ensures ChildrenShaped(children[i := ch]) && ShmOk(jobs, flags, slots, children[i := ch], sv, cells)
  {
    hide ShmPlaceOk; hide SlotsOk; hide SentOut;
    forall j | 0 <= j < |jobs| ensures ShmPlaceOk(SentOut(children[i := ch][j], 3), flags, slots, sv, cells[j][3], j) {
      assert ShmPlaceOk(SentOut(children[j], 3), flags, slots, sv, cells[j][3], j);
    }
  }

  /** Under the mutex no other child is in shm_write, and the server is not at the slots. */
  lemma AloneInside(mutex: nat, children: seq<Child>, sv: Server, i: nat)
    requires MutexOk(mutex, children, sv) && i < |children| && Reading(Section, children[i]) == 1
    ensures mutex == 0 && !ServerInside(sv)
    ensures forall j :: 0 <= j < |children| && j != i ==> Reading(Section, children[j]) == 0
  {
    TotalAtLeast(Section, children, i);
    forall j | 0 <= j < |children| && j != i ensures Reading(Section, children[j]) == 0 {
      if j < i { TotalTwo(Section, children, j, i); } else { TotalTwo(Section, children, i, j); }
    }
  }

  lemma InSlotsCopy(flags: seq<bool>, slots: seq<Slot>, sv: Server, slot: nat, v: Slot, i: nat)
    requires slot < |flags| == |slots| && !flags[slot]
    ensures InSlots(flags, slots[slot := v], sv, i) == InSlots(flags, slots, sv, i)
  {
    var after := slots[slot := v];
    assert forall k :: 0 <= k < |flags| ==> FreshIn(flags, after, sv, k, i) == FreshIn(flags, slots, sv, k, i);
  }

  lemma InSlotsFlag(flags: seq<bool>, slots: seq<Slot>, sv: Server, slot: nat, i: nat)
    requires slot < |flags| == |slots| && !flags[slot] && slots[slot].Holds? && !ServerInside(sv)
    ensures InSlots(flags[slot := true], slots, sv, i) == (InSlots(flags, slots, sv, i) || i == slots[slot].m.index)
  {
    var up := flags[slot := true];
    assert forall k :: 0 <= k < |flags| && k != slot ==>
      FreshIn(up, slots, sv, k, i) == FreshIn(flags, slots, sv, k, i);
    assert FreshIn(up, slots, sv, slot, i) == (i == slots[slot].m.index);
  }

  lemma SlotsCopy(jobs: seq<Job>, flags: seq<bool>, slots: seq<Slot>, slot: nat, v: Slot)
    requires slot < |flags| == |slots| && !flags[slot] && SlotsOk(jobs, flags, slots)
    ensures SlotsOk(jobs, flags, slots[slot := v])
  {
    hide GoodPart;
    var after := slots[slot := v];
    assert forall k :: 0 <= k < |flags| && flags[k] ==> after[k] == slots[k];
  }

  /** The child copies its message into a free slot. */
  lemma ShmCopy(jobs: seq<Job>, flags: seq<bool>, slots: seq<Slot>, children: seq<Child>, sv: Server,
                cells: seq<seq<Cell>>, i: nat, slot: nat, ch: Child)
    requires |flags| == |slots| == SLOTS && |children| == |jobs| && ChildrenShaped(children) && CellsShaped(jobs, cells)
    requires ShmOk(jobs, flags, slots, children, sv, cells)
    requires i < |children| && slot < SLOTS && !flags[slot]
    requires forall j :: 0 <= j < |children| && j != i ==> Reading(Section, children[j]) == 0
    requires ChildShaped(ch) && ch.Copied? && ch.slot == slot && SentOut(ch, 3) == SentOut(children[i], 3)
    ensures ChildrenShaped(children[i := ch])
    ensures ShmOk(jobs, flags, slots[slot := Holds(MessageOf(jobs, i, 3))], children[i := ch], sv, cells)
  {
    hide SentOut; hide InSlots; hide SlotsOk;
    var moved := children[i := ch];
    var after := slots[slot := Holds(MessageOf(jobs, i, 3))];
    SlotsCopy(jobs, flags, slots, slot, after[slot]);
    forall j | 0 <= j < |jobs| ensures ShmPlaceOk(SentOut(moved[j], 3), flags, after, sv, cells[j][3], j) {
      assert ShmPlaceOk(SentOut(children[j], 3), flags, slots, sv, cells[j][3], j);
      InSlotsCopy(flags, slots, sv, slot, after[slot], j);
    }
    forall j | 0 <= j < |jobs| ensures ShmChildOk(jobs, moved[j], j, flags, after) {
      if j != i { assert Reading(Section, children[j]) == 0; }
    }
  }

  /** The child raises the flag of its slot: the message is sent. */
  lemma ShmFlag(jobs: seq<Job>, flags: seq<bool>, slots: seq<Slot>, children: seq<Child>, sv: Server,
                cells: seq<seq<Cell>>, i: nat, slot: nat, ch: Child)
    requires |flags| == |slots| == SLOTS && |children| == |jobs| && ChildrenShaped(children) && CellsShaped(jobs, cells)
    requires ShmOk(jobs, flags, slots, children, sv, cells)
    requires i < |children| && children[i].Copied? && children[i].slot == slot && !ServerInside(sv)
    requires forall j :: 0 <= j < |children| && j != i ==> Reading(Section, children[j]) == 0
    requires ChildShaped(ch) && ch.Flagged? && ch.slot == slot
    ensures ChildrenShaped(children[i := ch]) && !flags[slot]
    ensures ShmOk(jobs, flags[slot := true], slots, children[i := ch], sv, cells)
  {
    var moved := children[i := ch];
    var up := flags[slot := true];
    assert ShmChildOk(jobs, children[i], i, flags, slots);
    assert ShmPlaceOk(SentOut(children[i], 3), flags, slots, sv, cells[i][3], i);
    forall k | 0 <= k < SLOTS && flags[k] ensures slots[k].m.index != i {
      assert GoodPart(jobs, slots[k].m, 3);
      if slots[k].m.index == i { assert FreshIn(flags, slots, sv, k, i); }
    }
    assert SlotsOk(jobs, up, slots);
    forall j | 0 <= j < |jobs| ensures ShmPlaceOk(SentOut(moved[j], 3), up, slots, sv, cells[j][3], j) {
      assert ShmPlaceOk(SentOut(children[j], 3), flags, slots, sv, cells[j][3], j);
      InSlotsFlag(flags, slots, sv, slot, j);
    }
    forall j | 0 <= j < |jobs| ensures ShmChildOk(jobs, moved[j], j, up, slots) {
      if j != i { assert Reading(Section, children[j]) == 0; }
    }
  }

  // ---------------------------------------------------- the server moves on

  /** The messages of a channel, when the server's buffer for it does not change. */
  lemma ChanServer(jobs: seq<Job>, c: nat, q: seq<Item>, children: seq<Child>, sv: Server, cells: seq<seq<Cell>>,
                   next: Server)
    requires c < 3 && |children| == |jobs| && ChildrenShaped(children) && CellsShaped(jobs, cells)
    requires ChanOk(jobs, c, q, children, sv, cells)
    requires next.Got? || next.Credited? ==> next.c != c || (sv.Got? && sv.c == c && sv.m == next.m)
    requires sv.Got? || sv.Credited? ==> sv.c != c || ((next.Got? || next.Credited?) && next.c == c && next.m == sv.m)
    ensures ChanOk(jobs, c, q, children, next, cells)
  {
    forall i | 0 <= i < |jobs| ensures PlaceOk(SentOut(children[i], c), q, next, cells[i][c], c, i) {
      assert PlaceOk(SentOut(children[i], c), q, sv, cells[i][c], c, i);
      assert Buffered(sv, c, i) == Buffered(next, c, i);
    }
  }

  /** The server reads the first message of the channel. */
  lemma ChanReceive(jobs: seq<Job>, c: nat, q: seq<Item>, children: seq<Child>, sv: Server, cells: seq<seq<Cell>>)
    requires c < 3 && |children| == |jobs| && ChildrenShaped(children) && CellsShaped(jobs, cells)
    requires ChanOk(jobs, c, q, children, sv, cells)
    requires q != [] && q[0].Part? && !sv.Got? && !sv.Credited?
    ensures ChanOk(jobs, c, q[1..], children, Got(c, q[0].m), cells)
  {
    hide SentOut;
    var r, m := q[1..], q[0].m;
    assert GoodPart(jobs, m, c);
    assert forall p :: 0 <= p < |r| ==> r[p] == q[p + 1];
    forall i | 0 <= i < |jobs| ensures InQueue(q, i) <==> InQueue(r, i) || i == m.index {
      if InQueue(q, i) {
        var p :| 0 <= p < |q| && q[p].Part? && q[p].m.index == i;
        if p > 0 { assert r[p - 1] == q[p]; }
      }
    }
    assert !InQueue(r, m.index);
    assert QueueOk(jobs, c, r) by {
      assert forall p :: 0 <= p < |r| && r[p].Part? ==> GoodPart(jobs, r[p].m, c);
    }
    forall i | 0 <= i < |jobs| ensures PlaceOk(SentOut(children[i], c), r, Got(c, m), cells[i][c], c, i) {
      assert PlaceOk(SentOut(children[i], c), q, sv, cells[i][c], c, i);
    }
  }

  /** The same cells are empty: nothing else of the books matters to a channel. */
  lemma ChanCells(jobs: seq<Job>, c: nat, q: seq<Item>, children: seq<Child>, sv: Server, cells: seq<seq<Cell>>,
                  after: seq<seq<Cell>>)
    requires c < 3 && |children| == |jobs| && ChildrenShaped(children) && CellsShaped(jobs, cells) &&
      CellsShaped(jobs, after)
    requires ChanOk(jobs, c, q, children, sv, cells)
    requires forall i :: 0 <= i < |jobs| ==> cells[i][c].Empty? == after[i][c].Empty?
    ensures ChanOk(jobs, c, q, children, sv, after)
  {
    hide SentOut; hide QueueOk;
    forall i | 0 <= i < |jobs| ensures PlaceOk(SentOut(children[i], c), q, sv, after[i][c], c, i) {
      assert PlaceOk(SentOut(children[i], c), q, sv, cells[i][c], c, i);
    }
  }

  /** The server stores the message it has read. */
  lemma ChanStore(jobs: seq<Job>, c: nat, q: seq<Item>, children: seq<Child>, sv: Server, cells: seq<seq<Cell>>,
                  after: seq<seq<Cell>>, next: Server)
    requires c < 3 && |children| == |jobs| && ChildrenShaped(children) && CellsShaped(jobs, cells) &&
      CellsShaped(jobs, after)
    requires ChanOk(jobs, c, q, children, sv, cells)
    requires sv.Credited? && sv.c == c && !next.Got? && !next.Credited?
    requires forall i :: 0 <= i < |jobs| ==> after[i][c].Empty? == (cells[i][c].Empty? && i != sv.m.index)
    ensures ChanOk(jobs, c, q, children, next, after)
    ensures sv.m.index < |jobs| && cells[sv.m.index][c].Empty?
  {
    hide SentOut; hide QueueOk;
    var m := sv.m;
    assert GoodPart(jobs, m, c);
    assert PlaceOk(SentOut(children[m.index], c), q, sv, cells[m.index][c], c, m.index);
    assert Buffered(sv, c, m.index);
    forall i | 0 <= i < |jobs| ensures PlaceOk(SentOut(children[i], c), q, next, after[i][c], c, i) {
      assert PlaceOk(SentOut(children[i], c), q, sv, cells[i][c], c, i);
      assert !Buffered(next, c, i) && Buffered(sv, c, i) == (i == m.index);
    }
  }

  lemma InSlotsServer(flags: seq<bool>, slots: seq<Slot>, sv: Server, next: Server, i: nat)
    requires |flags| == |slots| && forall k :: Consuming(sv, k) == Consuming(next, k)
    ensures InSlots(flags, slots, sv, i) == InSlots(flags, slots, next, i)
  {
    assert forall k :: 0 <= k < |flags| ==> FreshIn(flags, slots, sv, k, i) == FreshIn(flags, slots, next, k, i);
  }

  /** The shared memory, when the server keeps away from the slots. */
  lemma ShmServer(jobs: seq<Job>, flags: seq<bool>, slots: seq<Slot>, children: seq<Child>, sv: Server,
                  cells: seq<seq<Cell>>, next: Server)
    requires |flags| == |slots| == SLOTS && |children| == |jobs| && ChildrenShaped(children) && CellsShaped(jobs, cells)
    requires ShmOk(jobs, flags, slots, children, sv, cells)
    requires forall k :: Consuming(sv, k) == Consuming(next, k)
    ensures ShmOk(jobs, flags, slots, children, next, cells)
  {
    hide SlotsOk; hide SentOut; hide ShmChildOk; hide InSlots; hide Consuming;
    forall i | 0 <= i < |jobs| ensures ShmPlaceOk(SentOut(children[i], 3), flags, slots, next, cells[i][3], i) {
      assert ShmPlaceOk(SentOut(children[i], 3), flags, slots, sv, cells[i][3], i);
      InSlotsServer(flags, slots, sv, next, i);
    }
  }

  lemma ShmCells(jobs: seq<Job>, flags: seq<bool>, slots: seq<Slot>, children: seq<Child>, sv: Server,
                 cells: seq<seq<Cell>>, after: seq<seq<Cell>>)
    requires |flags| == |slots| == SLOTS && |children| == |jobs| && ChildrenShaped(children) &&
      CellsShaped(jobs, cells) && CellsShaped(jobs, after)
    requires ShmOk(jobs, flags, slots, children, sv, cells)
    requires forall i :: 0 <= i < |jobs| ==> cells[i][3].Empty? == after[i][3].Empty?
    ensures ShmOk(jobs, flags, slots, children, sv, after)
  {
    hide SlotsOk; hide SentOut; hide ShmChildOk; hide InSlots;
    forall i | 0 <= i < |jobs| ensures ShmPlaceOk(SentOut(children[i], 3), flags, slots, sv, after[i][3], i) {
      assert ShmPlaceOk(SentOut(children[i], 3), flags, slots, sv, cells[i][3], i);
    }
  }

  /** The server, under the mutex, stores what a flagged slot holds. */
  lemma ShmStore(jobs: seq<Job>, flags: seq<bool>, slots: seq<Slot>, children: seq<Child>, sv: Server,
                 cells: seq<seq<Cell>>, after: seq<seq<Cell>>, slot: nat)
    requires |flags| == |slots| == SLOTS && |children| == |jobs| && ChildrenShaped(children) &&
      CellsShaped(jobs, cells) && CellsShaped(jobs, after)
    requires ShmOk(jobs, flags, slots, children, sv, cells)
    requires sv.Locked? && slot < SLOTS && flags[slot]
    requires slots[slot].Holds? ==> forall i :: 0 <= i < |jobs| ==>
      after[i][3].Empty? == (cells[i][3].Empty? && i != slots[slot].m.index)
    ensures ShmOk(jobs, flags, slots, children, Stored(slot), after)
    ensures slots[slot].Holds? && GoodPart(jobs, slots[slot].m, 3) && cells[slots[slot].m.index][3].Empty?
  {
    hide SentOut; hide ShmChildOk;
    var m := slots[slot].m;
    assert GoodPart(jobs, m, 3);
    assert FreshIn(flags, slots, sv, slot, m.index);
    assert ShmPlaceOk(SentOut(children[m.index], 3), flags, slots, sv, cells[m.index][3], m.index);
    forall i | 0 <= i < |jobs| ensures ShmPlaceOk(SentOut(children[i], 3), flags, slots, Stored(slot), after[i][3], i) {
      assert ShmPlaceOk(SentOut(children[i], 3), flags, slots, sv, cells[i][3], i);
      assert forall k :: 0 <= k < SLOTS && k != slot ==>
        FreshIn(flags, slots, sv, k, i) == FreshIn(flags, slots, Stored(slot), k, i);
      assert !FreshIn(flags, slots, Stored(slot), slot, i);
    }
  }

  /** The server clears the flag of the slot it has emptied. */
  lemma ShmClear(jobs: seq<Job>, flags: seq<bool>, slots: seq<Slot>, children: seq<Child>, sv: Server,
                 cells: seq<seq<Cell>>, slot: nat)
    requires |flags| == |slots| == SLOTS && |children| == |jobs| && ChildrenShaped(children) && CellsShaped(jobs, cells)
    requires ShmOk(jobs, flags, slots, children, sv, cells)
    requires sv == Returned(slot) && slot < SLOTS
    requires forall j :: 0 <= j < |children| ==> Reading(Section, children[j]) == 0
    ensures flags[slot] && ShmOk(jobs, flags[slot := false], slots, children, Unlock, cells)
  {
    hide SentOut;
    var down := flags[slot := false];
    assert Consuming(sv, slot);
    assert SlotsOk(jobs, down, slots);
    forall i | 0 <= i < |jobs| ensures ShmPlaceOk(SentOut(children[i], 3), down, slots, Unlock, cells[i][3], i) {
      assert ShmPlaceOk(SentOut(children[i], 3), flags, slots, sv, cells[i][3], i);
      assert forall k :: 0 <= k < SLOTS ==> FreshIn(flags, slots, sv, k, i) == FreshIn(down, slots, Unlock, k, i);
    }
    forall i | 0 <= i < |jobs| ensures ShmChildOk(jobs, children[i], i, down, slots) {
      assert Reading(Section, children[i]) == 0;
    }
  }

  // ------------------------------------------------------------------- books

  /** A row with one more part, freed when it is complete. */
  function NewRow(row: seq<Cell>, count: nat, c: nat, m: Message): seq<Cell>
    requires c < |row|
  {
    if count + 1 == 4 then [Freed, Freed, Freed, Freed] else row[c := Full(m)]
  }

  lemma RowUpdate(jobs: seq<Job>, i: nat, row: seq<Cell>, count: nat, c: nat)
    requires i < |jobs| && |row| == PARTS && RowOk(jobs, i, row, count) && c < PARTS && row[c].Empty?
    ensures count < 4
    ensures count + 1 == 4 <==> RowFull(row[c := Full(MessageOf(jobs, i, c))])
    ensures RowOk(jobs, i, NewRow(row, count, c, MessageOf(jobs, i, c)), count + 1)
    ensures forall d :: 0 <= d < PARTS ==>
      NewRow(row, count, c, MessageOf(jobs, i, c))[d].Empty? == (row[d].Empty? && d != c)
  {
    hide MessageOf;
    var full := row[c := Full(MessageOf(jobs, i, c))];
    assert Bit(full[0]) + Bit(full[1]) + Bit(full[2]) + Bit(full[3]) == count + 1;
    assert forall d :: 0 <= d < PARTS ==> full[d] == Empty || full[d] == Full(MessageOf(jobs, i, d));
    assert RowFull(full) <==> full[0].Full? && full[1].Full? && full[2].Full? && full[3].Full?;
  }

  /** The text written is the file's own. */
  lemma RowWritten(jobs: seq<Job>, i: nat, row: seq<Cell>, count: nat, c: nat)
    requires i < |jobs| && |row| == PARTS && RowOk(jobs, i, row, count) && c < PARTS && count < 4
    requires RowFull(row[c := Full(MessageOf(jobs, i, c))])
    ensures RowText(row[c := Full(MessageOf(jobs, i, c))]) == FileText(jobs[i])
  {
    var full := row[c := Full(MessageOf(jobs, i, c))];
    assert forall d :: 0 <= d < PARTS ==> full[d] == Full(MessageOf(jobs, i, d));
  }

  lemma LogUpdate(jobs: seq<Job>, log: seq<(nat, string)>, count: seq<nat>, i: nat)
    requires |count| == |jobs| && i < |jobs| && LogOk(jobs, log, count) && count[i] < 4
    ensures count[i] + 1 == 4 ==> LogOk(jobs, log + [(i, FileText(jobs[i]))], count[i := 4])
    ensures count[i] + 1 != 4 ==> LogOk(jobs, log, count[i := count[i] + 1])
  {
    hide FileText;
    if count[i] + 1 == 4 {
      var counted := count[i := 4];
      var after := log + [(i, FileText(jobs[i]))];
      forall j | 0 <= j < |jobs| && counted[j] == 4 ensures exists k :: 0 <= k < |after| && after[k].0 == j {
        if j == i {
          assert after[|log|].0 == j;
        } else {
          var k :| 0 <= k < |log| && log[k].0 == j;
          assert after[k].0 == j;
        }
      }
    }
  }

  /** update_parts on the row, the counter and the log. */
  lemma UpdateShape(jobs: seq<Job>, b: Books, i: nat, c: nat)
    requires BooksOk(jobs, b) && c < PARTS && i < |jobs| && b.cells[i][c].Empty?
    ensures b.count[i] < 4
    ensures Update(b, MessageOf(jobs, i, c), c) ==
      Books(b.cells[i := NewRow(b.cells[i], b.count[i], c, MessageOf(jobs, i, c))], b.count[i := b.count[i] + 1],
            if b.count[i] + 1 == 4 then b.log + [(i, FileText(jobs[i]))] else b.log)
  {
    hide RowOk; hide LogOk; hide RowFull; hide RowText; hide FileText;
    assert MessageOf(jobs, i, c).index == i;
    assert RowOk(jobs, i, b.cells[i], b.count[i]);
    RowUpdate(jobs, i, b.cells[i], b.count[i], c);
    if b.count[i] + 1 == 4 { RowWritten(jobs, i, b.cells[i], b.count[i], c); }
  }

  /** The same cells are empty but for one. */
  predicate Fills(cells: seq<seq<Cell>>, after: seq<seq<Cell>>, i: nat, c: nat)
  {
    |cells| == |after| && forall j, d :: 0 <= j < |cells| && 0 <= d < PARTS && |cells[j]| == |after[j]| == PARTS ==>
      after[j][d].Empty? == (cells[j][d].Empty? && !(j == i && d == c))
  }

  /** update_parts into an empty cell: counted once, filed once, and only the one
      cell stops being empty. */
  lemma UpdateKeeps(jobs: seq<Job>, b: Books, i: nat, c: nat)
    requires BooksOk(jobs, b) && c < PARTS && i < |jobs| && b.cells[i][c].Empty?
    ensures BooksOk(jobs, Update(b, MessageOf(jobs, i, c), c))
    ensures Sum(Update(b, MessageOf(jobs, i, c), c).count) == Sum(b.count) + 1
    ensures Fills(b.cells, Update(b, MessageOf(jobs, i, c), c).cells, i, c)
  {
    hide RowOk; hide LogOk; hide Update; hide FileText;
    assert MessageOf(jobs, i, c).index == i;
    var after := Update(b, MessageOf(jobs, i, c), c);
    UpdateShape(jobs, b, i, c);
    assert RowOk(jobs, i, b.cells[i], b.count[i]);
    SumUpdate(b.count, i, b.count[i] + 1);
    RowUpdate(jobs, i, b.cells[i], b.count[i], c);
    LogUpdate(jobs, b.log, b.count, i);
    forall j | 0 <= j < |jobs| ensures RowOk(jobs, j, after.cells[j], after.count[j]) {
      assert RowOk(jobs, j, b.cells[j], b.count[j]);
    }
  }
}
