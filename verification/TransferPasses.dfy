/** What one process does when it runs by itself: one pass of a child's sending
    loop, one pass of the server's polling loop (system_call/client_0.c,
    system_call/server.c). */
module TransferPasses {
  import opened FileParts
  import opened Transfer
  import opened TransferInv
  import opened TransferServer
  import opened TransferSafety

  /** n steps of process a, and of no other, lead from s to t. */
  predicate Reaches(s: State, a: Actor, n: nat, t: State)
    decreases n
  {
    if n == 0 then s == t else Enabled(s, a) && Reaches(Next(s, a), a, n - 1, t)
  }

  ghost predicate Alone(s: State, a: Actor, t: State)
  {
    exists n: nat :: Reaches(s, a, n, t)
  }

  lemma {:induction false} ReachesOn(s: State, a: Actor, n: nat, t: State, m: nat, u: State)
    requires Reaches(s, a, n, t) && Reaches(t, a, m, u)
    ensures Reaches(s, a, n + m, u)
    decreases n
  {
    hide Enabled; hide Next;
    if n > 0 { ReachesOn(Next(s, a), a, n - 1, t, m, u); }
  }

  lemma AloneOn(s: State, a: Actor, t: State, u: State)
    requires Alone(s, a, t) && Alone(t, a, u)
    ensures Alone(s, a, u)
  {
    hide Reaches;
    var n: nat :| Reaches(s, a, n, t);
    var m: nat :| Reaches(t, a, m, u);
    ReachesOn(s, a, n, t, m, u);
    assert Reaches(s, a, n + m, u);
  }

  lemma OneStep(s: State, a: Actor)
    requires Enabled(s, a)
    ensures Alone(s, a, Next(s, a))
  {
    hide Enabled; hide Next;
    assert Reaches(Next(s, a), a, 0, Next(s, a));
    assert Reaches(s, a, 1, Next(s, a));
  }

  /** What a run of steps of one process is in terms of all runs. */
  lemma {:induction false} AloneIsRun(s: State, a: Actor, n: nat, t: State)
    requires Reaches(s, a, n, t)
    ensures var actors := seq(n, _ => a); Run(s, actors) && After(s, actors) == t
    decreases n
  {
    hide Enabled; hide Next;
    var actors := seq(n, _ => a);
    if n > 0 {
      AloneIsRun(Next(s, a), a, n - 1, t);
      assert actors[1..] == seq(n - 1, _ => a);
    }
  }

  // ------------------------------------------------------- a child's one pass

  /** The child is about to test channel k. */
  predicate Trying(s: State, i: nat, k: nat)
  {
    Shaped(s) && i < |s.children| && s.children[i].Try? && s.children[i].k == k && k <= 4 &&
    |s.children[i].sent| == PARTS
  }

  /** Every channel from k on takes another message, and nobody is at the slots. */
  predicate Room(s: State, k: nat)
    requires Shaped(s)
  {
    (forall c :: k <= c < 3 ==> |s.queues[c]| < s.caps[c]) && s.mutex > 0 && Find(s.flags, false) >= 0
  }

  predicate Sends(s: State, i: nat, k: nat)
    requires Shaped(s) && i < |s.children| && s.children[i].Try? && |s.children[i].sent| == PARTS && k < PARTS
  {
    !s.children[i].sent[k] && s.tok[k] > 0
  }

  /** The state once channel k has been dealt with. */
  function Dealt(s: State, i: nat, k: nat): State
    requires Trying(s, i, k) && k < 4 && Room(s, k)
  {
    var sent, m := s.children[i].sent, MessageOf(s.jobs, i, k);
    if !Sends(s, i, k) then s.(children := s.children[i := Try(k + 1, sent)])
    else
      var s' := s.(tok := s.tok[k := s.tok[k] - 1], children := s.children[i := Try(k + 1, sent[k := true])]);
      if k < 3 then s'.(queues := s.queues[k := s.queues[k] + [Item.Part(m)]])
      else
        var slot := Find(s.flags, false);
        s'.(slots := s.slots[slot := Holds(m)], flags := s.flags[slot := true])
  }

  lemma DealtIsReached(s: State, i: nat, k: nat)
    requires Trying(s, i, k) && k < 4 && Room(s, k)
    ensures Alone(s, ChildStep(i), Dealt(s, i, k))
  {
    hide Alone;
    var a := ChildStep(i);
    OneStep(s, a);
    if Sends(s, i, k) {
      var s1 := Next(s, a);
      OneStep(s1, a);
      var s2 := Next(s1, a);
      AloneOn(s, a, s1, s2);
      if k < 3 {
        assert s2 == Dealt(s, i, k);
      } else {
        SlotIsFilled(s, i, s2);
        AloneOn(s, a, s2, Dealt(s, i, 3));
      }
    }
  }

  lemma SlotIsFilled(s: State, i: nat, s2: State)
    requires Trying(s, i, 3) && Room(s, 3) && Sends(s, i, 3)
    requires s2 == s.(tok := s.tok[3 := s.tok[3] - 1], mutex := s.mutex - 1,
      children := s.children[i := Inside(s.children[i].sent)])
    ensures Alone(s2, ChildStep(i), Dealt(s, i, 3))
  {
    hide Alone;
    var a := ChildStep(i);
    OneStep(s2, a);
    var s3 := Next(s2, a);
    OneStep(s3, a);
    var s4 := Next(s3, a);
    OneStep(s4, a);
    AloneOn(s2, a, s3, s4);
    AloneOn(s2, a, s4, Next(s4, a));
    assert Next(s4, a) == Dealt(s, i, 3);
  }

  /** What channel k has to show for one pass: the part not yet sent is sent when
      there is a token, over this channel, and nothing happens otherwise. */
  predicate Served(s: State, t: State, i: nat, k: nat)
    requires Trying(s, i, 0) && k < 4
  {
    && Shaped(t) && i < |t.children| && t.children[i].Try? && |t.children[i].sent| == PARTS
    && t.children[i].sent[k] == (s.children[i].sent[k] || s.tok[k] > 0)
    && t.tok[k] == s.tok[k] - (if Sends(s, i, k) then 1 else 0)
    && (k < 3 ==> t.queues[k] == s.queues[k] + if Sends(s, i, k) then [Item.Part(MessageOf(s.jobs, i, k))] else [])
    && (k == 3 ==> SlotServed(s, t, i))
  }

  predicate SlotServed(s: State, t: State, i: nat)
    requires Trying(s, i, 0) && Shaped(t)
  {
    var slot := Find(s.flags, false);
    if Sends(s, i, 3) && slot >= 0 then
      t.slots == s.slots[slot := Holds(MessageOf(s.jobs, i, 3))] && t.flags == s.flags[slot := true]
    else t.slots == s.slots && t.flags == s.flags
  }

  /** Channel k is as it was. */
  predicate Untried(s: State, t: State, i: nat, k: nat)
    requires Trying(s, i, 0) && k < 4
  {
    && Shaped(t) && i < |t.children| && t.children[i].Try? && |t.children[i].sent| == PARTS
    && t.children[i].sent[k] == s.children[i].sent[k] && t.tok[k] == s.tok[k]
    && (k < 3 ==> t.queues[k] == s.queues[k]) && (k == 3 ==> t.slots == s.slots && t.flags == s.flags)
  }

  /** Between s and t the child has dealt with the channels below k, and nothing
      else has happened. */
  predicate Passed(s: State, t: State, i: nat, k: nat)
    requires Trying(s, i, 0) && k <= 4
  {
    && Trying(t, i, k)
    && t == s.(tok := t.tok, queues := t.queues, slots := t.slots, flags := t.flags,
               children := s.children[i := t.children[i]])
    && (forall c :: 0 <= c < k ==> Served(s, t, i, c))
    && (forall c :: k <= c < 4 ==> Untried(s, t, i, c))
  }

  lemma PassOn(s: State, t: State, i: nat, k: nat)
    requires Trying(s, i, 0) && Room(s, 0) && k < 4 && Passed(s, t, i, k)
    ensures Room(t, k) && Passed(s, Dealt(t, i, k), i, k + 1)
  {
    hide Find; hide MessageOf;
    assert Untried(s, t, i, 3) && Untried(s, t, i, k);
    forall c | k <= c < 3 ensures |t.queues[c]| < t.caps[c] { assert Untried(s, t, i, c); }
    var u := Dealt(t, i, k);
    forall c | 0 <= c < k + 1 ensures Served(s, u, i, c) { if c < k { assert Served(s, t, i, c); } }
    forall c | k + 1 <= c < 4 ensures Untried(s, u, i, c) { assert Untried(s, t, i, c); }
  }

  lemma {:induction false} PassFrom(s: State, t: State, i: nat, k: nat)
    requires Trying(s, i, 0) && Room(s, 0) && k <= 4 && Passed(s, t, i, k) && Alone(s, ChildStep(i), t)
    ensures exists u :: Alone(s, ChildStep(i), u) && Passed(s, u, i, 4)
    decreases 4 - k
  {
    hide Alone; hide Passed; hide Dealt; hide Room;
    if k < 4 {
      PassOn(s, t, i, k);
      PassedTries(s, t, i, k);
      DealtIsReached(t, i, k);
      AloneOn(s, ChildStep(i), t, Dealt(t, i, k));
      PassFrom(s, Dealt(t, i, k), i, k + 1);
    }
  }

  lemma PassedTries(s: State, t: State, i: nat, k: nat)
    requires Trying(s, i, 0) && k <= 4 && Passed(s, t, i, k)
    ensures Trying(t, i, k)
  {
  }

  /** A child left alone sends, in one pass of its loop, exactly the parts not yet
      sent whose channel has a token, each over its own channel, and takes one
      token for each; it does not stop at a channel that has none. */
  lemma ChildPass(s: State, i: nat)
    requires Trying(s, i, 0) && Room(s, 0)
    ensures exists t :: Alone(s, ChildStep(i), t) && Passed(s, t, i, 4)
  {
    assert Reaches(s, ChildStep(i), 0, s);
    PassFrom(s, s, i, 0);
  }

  /** A child past the barrier that finds a token in every channel is done after
      one pass: four parts sent, one over each channel. */
  lemma ChildFinishesAlone(s: State, i: nat)
    requires Shaped(s) && i < |s.children| && s.children[i].Waiting? && s.barrier == 0 && Room(s, 0)
    requires forall k :: 0 <= k < 4 ==> s.tok[k] > 0
    ensures exists t ::
      && Alone(s, ChildStep(i), t) && t.children == s.children[i := Exited]
      && t.queues == [s.queues[0] + [Item.Part(MessageOf(s.jobs, i, 0))],
                      s.queues[1] + [Item.Part(MessageOf(s.jobs, i, 1))],
                      s.queues[2] + [Item.Part(MessageOf(s.jobs, i, 2))]]
      && t.slots == s.slots[Find(s.flags, false) := Holds(MessageOf(s.jobs, i, 3))]
      && t.flags == s.flags[Find(s.flags, false) := true]
  {
    hide Alone; hide Find; hide MessageOf; hide Passed;
    var a := ChildStep(i);
    OneStep(s, a);
    var s1 := Next(s, a);
    OneStep(s1, a);
    var s2 := Next(s1, a);
    AloneOn(s, a, s1, s2);
    ChildPass(s2, i);
    var t :| Alone(s2, a, t) && Passed(s2, t, i, 4);
    AloneOn(s, a, s2, t);
    AllServed(s2, t, i);
    OneStep(t, a);
    AloneOn(s, a, t, Next(t, a));
  }

  lemma AllServed(s: State, t: State, i: nat)
    requires Trying(s, i, 0) && Passed(s, t, i, 4) && s.children[i].sent == [false, false, false, false]
    requires (forall k :: 0 <= k < 4 ==> s.tok[k] > 0) && Find(s.flags, false) >= 0
    ensures Enabled(t, ChildStep(i)) && Next(t, ChildStep(i)).children == s.children[i := Exited]
    ensures Next(t, ChildStep(i)) == t.(children := s.children[i := Exited])
    ensures t.queues == [s.queues[0] + [Item.Part(MessageOf(s.jobs, i, 0))],
                         s.queues[1] + [Item.Part(MessageOf(s.jobs, i, 1))],
                         s.queues[2] + [Item.Part(MessageOf(s.jobs, i, 2))]]
    ensures t.slots == s.slots[Find(s.flags, false) := Holds(MessageOf(s.jobs, i, 3))]
    ensures t.flags == s.flags[Find(s.flags, false) := true]
  {
    hide Find; hide MessageOf;
    assert Served(s, t, i, 0) && Served(s, t, i, 1) && Served(s, t, i, 2) && Served(s, t, i, 3);
  }

  // --------------------------------------------------- the server's one pass

  predicate Filing(b: Books)
  {
    |b.cells| == |b.count| && forall i :: 0 <= i < |b.cells| ==> |b.cells[i]| == PARTS
  }

  /** The next message of channel c, if there is one and the server can have it. */
  function Offered(s: State, c: nat): seq<Message>
    requires Shaped(s) && c < 4
  {
    if c < 3 then
      if s.queues[c] != [] && s.queues[c][0].Part? then [s.queues[c][0].m] else []
    else
      var slot := Find(s.flags, true);
      if s.mutex > 0 && slot >= 0 && s.slots[slot].Holds? then [s.slots[slot].m] else []
  }

  /** What the server would read from channel c is a part of a file of this round. */
  predicate ReadableAt(s: State, c: nat)
    requires Shaped(s) && c < 4
  {
    && (c < 3 && s.queues[c] != [] ==> s.queues[c][0].Part?)
    && (c == 3 && Find(s.flags, true) >= 0 ==> s.slots[Find(s.flags, true)].Holds?)
    && (forall j :: 0 <= j < |Offered(s, c)| ==> Offered(s, c)[j].index < |s.books.cells|)
  }

  predicate Readable(s: State)
    requires Shaped(s)
  {
    forall c :: 0 <= c < 4 ==> ReadableAt(s, c)
  }

  predicate Polling(s: State, c: nat)
  {
    Shaped(s) && Filing(s.books) && c < 4 && s.server == Poll(c)
  }

  /** A message filed, if there is one. */
  function Filed(b: Books, ms: seq<Message>, c: nat): Books
    requires Filing(b) && c < 4 && forall j :: 0 <= j < |ms| ==> ms[j].index < |b.cells|
  {
    if ms == [] then b else Update(b, ms[0], c)
  }

  lemma FiledKeeps(b: Books, ms: seq<Message>, c: nat)
    requires Filing(b) && c < 4 && forall j :: 0 <= j < |ms| ==> ms[j].index < |b.cells|
    ensures Filing(Filed(b, ms, c)) && |Filed(b, ms, c).cells| == |b.cells|
  {
    hide RowText;
  }

  /** The state once channel c has been polled. */
  function Polled(s: State, c: nat): State
    requires Polling(s, c) && ReadableAt(s, c)
  {
    var ms := Offered(s, c);
    var s' := s.(books := Filed(s.books, ms, c), received := s.received + |ms|, tok := s.tok[c := s.tok[c] + |ms|],
                 server := if c < 3 then Poll(c + 1) else Test);
    if ms == [] then s'
    else if c < 3 then s'.(queues := s.queues[c := s.queues[c][1..]])
    else s'.(flags := s.flags[Find(s.flags, true) := false])
  }

  lemma PolledIsReached(s: State, c: nat)
    requires Polling(s, c) && ReadableAt(s, c)
    ensures Alone(s, ServerStep, Polled(s, c))
  {
    hide Alone; hide Update;
    OneStep(s, ServerStep);
    var s1 := Next(s, ServerStep);
    if Offered(s, c) == [] && c < 3 {
      assert s1 == Polled(s, c);
    } else if c < 3 {
      assert Offered(s, c)[0].index < |s.books.cells|;
      OneStep(s1, ServerStep);
      var s2 := Next(s1, ServerStep);
      OneStep(s2, ServerStep);
      AloneOn(s, ServerStep, s1, s2);
      AloneOn(s, ServerStep, s2, Next(s2, ServerStep));
      assert Next(s2, ServerStep) == Polled(s, c);
    } else if s.mutex == 0 {
      assert s1 == Polled(s, c);
    } else {
      SlotIsPolled(s, s1);
      AloneOn(s, ServerStep, s1, Polled(s, 3));
    }
  }

  lemma SlotIsPolled(s: State, s1: State)
    requires Polling(s, 3) && ReadableAt(s, 3) && s.mutex > 0 && s1 == s.(mutex := s.mutex - 1, server := Locked)
    ensures Alone(s1, ServerStep, Polled(s, 3))
  {
    hide Alone; hide Update;
    var a := ServerStep;
    OneStep(s1, a);
    var s2 := Next(s1, a);
    if Find(s.flags, true) == -1 {
      OneStep(s2, a);
      AloneOn(s1, a, s2, Next(s2, a));
      assert Next(s2, a) == Polled(s, 3);
    } else {
      assert Offered(s, 3)[0].index < |s.books.cells|;
      OneStep(s2, a);
      var s3 := Next(s2, a);
      OneStep(s3, a);
      var s4 := Next(s3, a);
      OneStep(s4, a);
      AloneOn(s1, a, s2, s3);
      AloneOn(s1, a, s3, s4);
      AloneOn(s1, a, s4, Next(s4, a));
      assert Next(s4, a) == Polled(s, 3);
    }
  }

  /** The books once the messages offered by the channels below k are filed. */
  function FiledUpTo(s: State, k: nat): (b: Books)
    requires Shaped(s) && Readable(s) && Filing(s.books) && k <= 4
    ensures Filing(b) && |b.cells| == |s.books.cells|
  {
    if k == 0 then s.books
    else
      var b := FiledUpTo(s, k - 1);
      assert ReadableAt(s, k - 1);
      FiledKeeps(b, Offered(s, k - 1), k - 1);
      Filed(b, Offered(s, k - 1), k - 1)
  }

  function OfferedUpTo(s: State, k: nat): nat
    requires Shaped(s) && k <= 4
  {
    if k == 0 then 0 else OfferedUpTo(s, k - 1) + |Offered(s, k - 1)|
  }

  /** Between s and t the server has polled the channels below k, taken what each
      of them offered, and done nothing else. */
  predicate Gathered(s: State, t: State, k: nat)
    requires Shaped(s) && Readable(s) && Filing(s.books) && k <= 4
  {
    && Shaped(t) && t.server == (if k < 4 then Poll(k) else Test)
    && t == s.(server := t.server, books := t.books, received := t.received, tok := t.tok, queues := t.queues,
               flags := t.flags)
    && t.books == FiledUpTo(s, k) && t.received == s.received + OfferedUpTo(s, k)
    && (forall c :: 0 <= c < 4 ==> t.tok[c] == s.tok[c] + if c < k then |Offered(s, c)| else 0)
    && (forall c :: 0 <= c < 3 ==>
          t.queues[c] == if c < k && Offered(s, c) != [] then s.queues[c][1..] else s.queues[c])
    && t.flags == if k == 4 && Offered(s, 3) != [] then s.flags[Find(s.flags, true) := false] else s.flags
  }

  lemma GatherOn(s: State, t: State, k: nat)
    requires Shaped(s) && Readable(s) && Filing(s.books) && k < 4 && Gathered(s, t, k)
    ensures Polling(t, k) && ReadableAt(t, k) && Gathered(s, Polled(t, k), k + 1)
  {
    hide Find; hide Filed;
    assert ReadableAt(s, k);
    assert Offered(t, k) == Offered(s, k);
  }

  lemma {:induction false} GatherFrom(s: State, t: State, k: nat)
    requires Shaped(s) && Readable(s) && Filing(s.books) && k <= 4 && Gathered(s, t, k) && Alone(s, ServerStep, t)
    ensures exists u :: Alone(s, ServerStep, u) && Gathered(s, u, 4)
    decreases 4 - k
  {
    hide Alone; hide Gathered; hide Polled; hide Readable; hide ReadableAt; hide Filing;
    if k < 4 {
      GatherOn(s, t, k);
      PolledIsReached(t, k);
      AloneOn(s, ServerStep, t, Polled(t, k));
      GatherFrom(s, Polled(t, k), k + 1);
    }
  }

  lemma FilingOf(s: State)
    requires Active(s)
    ensures Filing(s.books) && |s.books.cells| == |s.jobs| && QueueOk(s.jobs, 0, s.queues[0])
    ensures QueueOk(s.jobs, 1, s.queues[1]) && QueueOk(s.jobs, 2, s.queues[2]) && SlotsOk(s.jobs, s.flags, s.slots)
  {
    hide QueueOk; hide SlotsOk; hide RowOk; hide LogOk; hide PlaceOk; hide ShmPlaceOk; hide Total;
  }

  lemma InLoopReads(s: State)
    requires Active(s) && InLoop(s.server)
    ensures forall c, p :: 0 <= c < 3 && 0 <= p < |s.queues[c]| ==> s.queues[c][p].Part?
  {
    hide FlowOk; hide BarrierOk;
  }

  lemma ReadableInLoop(s: State)
    requires Active(s) && InLoop(s.server)
    ensures Filing(s.books) && Readable(s)
  {
    hide Active; hide MessageOf; hide Filing; hide Find;
    ActiveFacts(s);
    FilingOf(s);
    InLoopReads(s);
    forall c | 0 <= c < 4 ensures ReadableAt(s, c) {
      if c == 3 && Find(s.flags, true) >= 0 { FoundIsRaised(s.flags); }
    }
  }

  lemma FoundIsRaised(flags: seq<bool>)
    requires Find(flags, true) >= 0
    ensures Find(flags, true) < |flags| && flags[Find(flags, true)]
  {
  }

  /** The server left alone takes, in one pass of its loop, exactly one message
      from every channel that has one, gives one token back for each, files them
      in the order of the channels, and counts them; it does not stop at a channel
      that is empty, nor at shared memory in use by a child. */
  lemma ServerPass(s: State)
    requires Reachable(s) && s.server.Test? && s.received < 4 * s.n
    ensures Shaped(s) && Readable(s) && Filing(s.books)
    ensures exists t :: Alone(s, ServerStep, t) && Gathered(s, t, 4)
  {
    hide Reachable; hide Gathered; hide Readable; hide Filing; hide Alone; hide Active;
    ReachableInv(s);
    ActiveFacts(s);
    ReadableInLoop(s);
    OneStep(s, ServerStep);
    var s1 := s.(server := Poll(0));
    assert Next(s, ServerStep) == s1;
    FromTheStart(s, s1);
    GatherFrom(s1, s1, 0);
    var t :| Alone(s1, ServerStep, t) && Gathered(s1, t, 4);
    SameGathered(s, s1, t);
    AloneOn(s, ServerStep, s1, t);
  }

  lemma SameGathered(s: State, s1: State, t: State)
    requires Shaped(s) && Readable(s) && Filing(s.books) && s1 == s.(server := Poll(0))
    requires Shaped(s1) && Readable(s1) && Filing(s1.books) && Gathered(s1, t, 4)
    ensures Gathered(s, t, 4)
  {
    hide Find; hide Filed;
    assert Offered(s, 0) == Offered(s1, 0) && Offered(s, 1) == Offered(s1, 1);
    assert Offered(s, 2) == Offered(s1, 2) && Offered(s, 3) == Offered(s1, 3);
    SameFiled(s, s1, 4);
  }

  lemma {:induction false} SameFiled(s: State, s1: State, k: nat)
    requires Shaped(s) && Readable(s) && Filing(s.books) && s1 == s.(server := Poll(0)) && k <= 4
    requires Shaped(s1) && Readable(s1)
    ensures FiledUpTo(s1, k) == FiledUpTo(s, k) && OfferedUpTo(s1, k) == OfferedUpTo(s, k)
  {
    hide Find; hide Filed;
    if k > 0 {
      SameFiled(s, s1, k - 1);
      assert Offered(s, k - 1) == Offered(s1, k - 1);
    }
  }

  lemma FromTheStart(s: State, s1: State)
    requires Shaped(s) && Readable(s) && Filing(s.books) && s1 == s.(server := Poll(0))
    ensures Shaped(s1) && Readable(s1) && Filing(s1.books) && Gathered(s1, s1, 0) && Alone(s1, ServerStep, s1)
  {
    hide Find;
    forall c | 0 <= c < 4 ensures ReadableAt(s1, c) { assert ReadableAt(s, c); assert Offered(s, c) == Offered(s1, c); }
    assert Reaches(s1, ServerStep, 0, s1);
  }
}
