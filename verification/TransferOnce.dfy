/** Each part is stored once, and no slot is lost on the way. */
module TransferOnce {
  import opened FileParts
  import opened Transfer
  import opened TransferInv
  import opened TransferLocal
  import opened TransferChildren
  import opened TransferServer
  import opened TransferSafety

  /** The step is a call of update_parts with part c of file i. */
  predicate Stores(s: State, a: Actor, i: nat, c: nat)
    requires Enabled(s, a)
  {
    a.ServerStep? &&
    (  (s.server.Credited? && s.server.c == c && s.server.m.index == i)
    || (s.server.Locked? && c == 3 && Find(s.flags, true) != -1
        && s.slots[Find(s.flags, true)].Holds? && s.slots[Find(s.flags, true)].m.index == i))
  }

  /** How often a run stores part c of file i. */
  function StoresIn(s: State, actors: seq<Actor>, i: nat, c: nat): nat
    requires Run(s, actors)
    decreases |actors|
  {
    if actors == [] then 0
    else (if Stores(s, actors[0], i, c) then 1 else 0) + StoresIn(Next(s, actors[0]), actors[1..], i, c)
  }

  predicate SameRound(actors: seq<Actor>)
  {
    forall k :: 0 <= k < |actors| ==> !actors[k].Start?
  }

  /** Whether part c of file i is in the books. */
  function Has(b: Books, i: nat, c: nat): nat
  {
    if i < |b.cells| && c < |b.cells[i]| then Bit(b.cells[i][c]) else 0
  }

  /** The same, in the present round. */
  function Filled(s: State, i: nat, c: nat): nat
  {
    if Active(s) then Has(s.books, i, c) else 0
  }

  lemma UpdateFills(jobs: seq<Job>, b: Books, j: nat, d: nat, i: nat, c: nat)
    requires BooksOk(jobs, b) && d < PARTS && j < |jobs| && b.cells[j][d].Empty? && i < |jobs| && c < PARTS
    ensures Has(Update(b, MessageOf(jobs, j, d), d), i, c) == Has(b, i, c) + if i == j && c == d then 1 else 0
  {
    hide BooksOk; hide Update;
    BooksShape(jobs, b);
    assert MessageOf(jobs, j, d).index == j;
    UpdateKeeps(jobs, b, j, d);
    BooksShape(jobs, Update(b, MessageOf(jobs, j, d), d));
  }

  lemma ServerStepFills(s: State, i: nat, c: nat)
    requires Active(s) && Enabled(s, ServerStep) && i < |s.jobs| && c < PARTS
    ensures Has(Next(s, ServerStep).books, i, c) == Has(s.books, i, c) + if Stores(s, ServerStep, i, c) then 1 else 0
  {
    hide PhaseOk; hide BarrierOk; hide FlowOk; hide BooksOk; hide Update; hide MessageOf; hide Has;
    ActiveFacts(s);
    BooksOfActive(s);
    if s.server.Credited? {
      StoreFlow(s);
      UpdateFills(s.jobs, s.books, s.server.m.index, s.server.c, i, c);
    } else if s.server.Locked? && Find(s.flags, true) != -1 {
      var slot := Find(s.flags, true);
      ShmStoreFlow(s, slot);
      UpdateFills(s.jobs, s.books, s.slots[slot].m.index, 3, i, c);
    }
  }

  lemma BooksOfActive(s: State)
    requires Active(s)
    ensures FlowOk(s) && BooksOk(s.jobs, s.books)
  {
  }

  lemma OtherStepFills(s: State, a: Actor)
    requires Enabled(s, a) && !a.Start? && !a.ServerStep?
    ensures Next(s, a).books == s.books && Next(s, a).jobs == s.jobs
  {
  }

  lemma StepFills(s: State, a: Actor, i: nat, c: nat)
    requires Inv(s) && Enabled(s, a) && !a.Start? && i < |s.jobs| && c < PARTS
    ensures Inv(Next(s, a)) && Next(s, a).jobs == s.jobs
    ensures Filled(Next(s, a), i, c) == Filled(s, i, c) + if Stores(s, a, i, c) then 1 else 0
  {
    hide Opening; hide Active; hide Next; hide Stores;
    StepKeeps(s, a);
    if Active(s) { ActiveStepFills(s, a, i, c); } else { OpeningStepFills(s, a, i, c); }
  }

  lemma ActiveStepFills(s: State, a: Actor, i: nat, c: nat)
    requires Active(s) && Enabled(s, a) && !a.Start? && i < |s.jobs| && c < PARTS
    ensures Active(Next(s, a)) && Next(s, a).jobs == s.jobs
    ensures Has(Next(s, a).books, i, c) == Has(s.books, i, c) + if Stores(s, a, i, c) then 1 else 0
  {
    hide Update; hide Active; hide Has;
    ActiveFacts(s);
    match a
    case ClientStep => ClientKeeps(s); OtherStepFills(s, a);
    case ChildStep(k) => ChildKeeps(s, k); OtherStepFills(s, a);
    case ServerStep => ServerKeeps(s); ServerStepFills(s, i, c);
  }

  lemma OpeningStepFills(s: State, a: Actor, i: nat, c: nat)
    requires Opening(s) && !Active(s) && Enabled(s, a) && !a.Start? && i < |s.jobs| && c < PARTS
    ensures Inv(Next(s, a)) && Next(s, a).jobs == s.jobs && !Stores(s, a, i, c)
    ensures Filled(Next(s, a), i, c) == 0
  {
    hide FlowOk; hide PhaseOk; hide BarrierOk;
    StepKeeps(s, a);
    if Active(Next(s, a)) && s.server.Post? {
      assert NoBooks(s.n).cells[i] == [Empty, Empty, Empty, Empty];
    }
    if !s.server.Post? && Active(Next(s, a)) { ActiveFacts(Next(s, a)); }
  }

  lemma {:induction false} RunFills(s: State, actors: seq<Actor>, i: nat, c: nat)
    requires Inv(s) && Run(s, actors) && SameRound(actors) && i < |s.jobs| && c < PARTS
    ensures Inv(After(s, actors)) && After(s, actors).jobs == s.jobs
    ensures Filled(After(s, actors), i, c) == Filled(s, i, c) + StoresIn(s, actors, i, c)
    decreases |actors|
  {
    hide Inv; hide Filled; hide Stores; hide Enabled; hide Next;
    if actors != [] {
      StepFills(s, actors[0], i, c);
      RunFills(Next(s, actors[0]), actors[1..], i, c);
    }
  }

  /** Over a whole round, from its announcement to its end and in any interleaving,
      update_parts is called exactly once for each part of each file. */
  lemma PartsStoredOnce(s: State, actors: seq<Actor>, i: nat, c: nat)
    requires Opening(s) && Run(s, actors) && SameRound(actors) && After(s, actors).client.Idle?
    requires i < |s.jobs| && c < PARTS
    ensures StoresIn(s, actors, i, c) == 1
  {
    hide Opening; hide Active; hide Run; hide After; hide StoresIn;
    RunFills(s, actors, i, c);
    if Active(s) { ActiveFacts(s); }
    var t := After(s, actors);
    IdleFilled(t, i, c);
  }

  lemma IdleFilled(s: State, i: nat, c: nat)
    requires Inv(s) && s.client.Idle? && i < |s.jobs| && c < PARTS
    ensures Filled(s, i, c) == 1
  {
    hide SentOut; hide BarrierOk; hide TokensOk; hide ChanOk; hide ShmOk; hide LogOk;
    OverIsDrained(s);
    assert RowOk(s.jobs, i, s.books.cells[i], s.books.count[i]);
  }

  // ------------------------------------------------------- what is written stays

  lemma UpdateOnlyAppends(b: Books, m: Message, c: nat)
    requires m.index < |b.cells| == |b.count| && c < PARTS && |b.cells[m.index]| == PARTS
    ensures b.log <= Update(b, m, c).log
  {
  }

  lemma StepOnlyAppends(s: State, a: Actor)
    requires Enabled(s, a) && !a.Start? && (a.ServerStep? ==> !s.server.Post?)
    ensures s.books.log <= Next(s, a).books.log && Next(s, a).jobs == s.jobs
  {
    hide Update;
    if a.ServerStep? && s.server.Credited? && s.server.m.index < |s.books.cells| {
      UpdateOnlyAppends(s.books, s.server.m, s.server.c);
    } else if a.ServerStep? && s.server.Locked? && Find(s.flags, true) != -1 {
      var slot := s.slots[Find(s.flags, true)];
      if slot.Holds? && slot.m.index < |s.books.cells| { UpdateOnlyAppends(s.books, slot.m, 3); }
    }
  }

  /** A file once written is not written again, nor taken back, as long as the
      round lasts: the log only grows. */
  lemma {:induction false} LogOnlyGrows(s: State, actors: seq<Actor>)
    requires Active(s) && Run(s, actors) && SameRound(actors)
    ensures s.books.log <= After(s, actors).books.log && After(s, actors).jobs == s.jobs
    decreases |actors|
  {
    hide Active; hide Enabled; hide Next;
    if actors != [] {
      LoopActor(s, actors[0]);
      StepOnlyAppends(s, actors[0]);
      LogOnlyGrows(Next(s, actors[0]), actors[1..]);
    }
  }

  lemma LoopActor(s: State, a: Actor)
    requires Active(s) && Enabled(s, a) && !a.Start?
    ensures Active(Next(s, a)) && (a.ServerStep? ==> !s.server.Post?)
  {
    hide Active;
    ActiveFacts(s);
    match a
    case ClientStep => ClientKeeps(s);
    case ChildStep(i) => ChildKeeps(s, i);
    case ServerStep => ServerKeeps(s);
  }

  // ------------------------------------------------------------ flagged slots

  /** From s to t slot k keeps its message, under its flag; or the message is in
      the books, and the flag of the slot is down. */
  predicate KeepsSlot(s: State, t: State, k: nat)
  {
    && k < |s.slots| == |t.slots| && k < |t.flags| && t.slots[k] == s.slots[k]
    && (t.flags[k] || (s.slots[k].Holds? && Has(s.books, s.slots[k].m.index, 3) == 1))
  }

  lemma SlotKeptBy(s: State, a: Actor, k: nat)
    requires Enabled(s, a) && k < |s.flags| && s.flags[k] && !(a.ServerStep? && (s.server.Reset? || s.server.Greet?))
    requires s.server == Returned(k) ==> s.slots[k].Holds? && Has(s.books, s.slots[k].m.index, 3) == 1
    ensures KeepsSlot(s, Next(s, a), k)
  {
    hide Update; hide Has;
  }

  /** No flagged slot is overwritten, or cleared, before the server has stored it. */
  lemma SlotKept(s: State, a: Actor, k: nat)
    requires Inv(s) && Enabled(s, a) && k < |s.flags| && s.flags[k]
    ensures KeepsSlot(s, Next(s, a), k)
  {
    hide Active; hide Next; hide Opening; hide KeepsSlot;
    FlagMeansLoop(s, k);
    SlotKeptBy(s, a, k);
  }

  lemma FlagMeansLoop(s: State, k: nat)
    requires Inv(s) && k < |s.flags| && s.flags[k]
    ensures !s.server.Reset? && !s.server.Greet?
    ensures s.server == Returned(k) ==> k < |s.slots| && s.slots[k].Holds? && Has(s.books, s.slots[k].m.index, 3) == 1
  {
    hide BarrierOk; hide TokensOk; hide ChanOk; hide LogOk; hide SlotsOk; hide ShmChildOk; hide ShmPlaceOk;
    if s.server == Returned(k) { assert Consuming(s.server, k); }
  }
}
