/**
 What the bufferpool promises its users: nothing unread is overwritten, deliveries strictly
 advance, and - unless a page is added behind the back of a consumer that had caught up - every
 consumer reads the log from its join point on without gap or repeat.
 */
module PoolOrder {
  import opened PoolModel
  import opened PoolProofs
  import opened PoolReserve
  import opened PoolSteps

  // ---------------------------------------------------------------- safety in every run

  /**
   In every run, with any number of consumers and any growth: a packet that a registered consumer
   has still to read is in the ring, unchanged and referenced.
   */
  lemma UnreadIsKept(n: nat, ops: seq<Op>, id: nat, k: nat)
    requires n >= 2 && Safe(n, ops)
    requires var s := Run(n, ops); id in s.readers && s.readers[id].Cur() < k <= |s.log|
    ensures var s := Run(n, ops);
            k in s.at && s.at[k] < |s.pool.slots|
            && var slot := s.pool.slots[s.at[k]];
               slot.slotSeq == k && slot.pkt == s.log[k - 1] && slot.refs > 0
  {
    var s := Run(n, ops);
    assert CursorOk(s, s.readers[id]);
    HeldSlot(s, k);
    UnreadReferenced(s, id, s.at[k]);
  }

  /**
   In every run the consumer is given packets of the log with strictly increasing numbers, and if
   it is not blind a read fails only when there is nothing left to read.
   */
  lemma DeliveriesAdvance(n: nat, ops: seq<Op>, id: nat)
    requires n >= 2 && Safe(n, ops) && id in Run(n, ops).readers
    ensures var s := Run(n, ops);
            && GotOk(s.readers[id], s.log)
            && InRange(s.pool) && ConsInRange(s.pool, s.readers[id].cons)
            && (Blind(s.pool, s.readers[id].cons)
                || (Select(s.pool, s.readers[id].cons).None? <==> s.readers[id].Cur() == |s.log|))
  {
    var s := Run(n, ops);
    ReadWorksIff(s, id);
    assert GotOk(s.readers[id], s.log);
  }

  /**
   Exactly when a read yields the packet after the last one read: when that packet is in one of
   the two slots the consumer remembers, and the consumer is not blind.
   */
  lemma ReadIsNextIff(s: Sys, id: nat)
    requires Core(s) && id in s.readers && s.readers[id].got != [] && s.readers[id].Cur() < |s.log|
    ensures InRange(s.pool) && ConsInRange(s.pool, s.readers[id].cons)
    ensures var c, next := s.readers[id].cons, s.readers[id].Cur() + 1;
            && c.lastReadPos >= 0
            && ((Select(s.pool, c).Some? && s.pool.slots[Select(s.pool, c).value].slotSeq == next)
                <==> !Blind(s.pool, c)
                     && (s.pool.slots[c.readPos].slotSeq == next
                         || s.pool.slots[s.pool.slots[c.lastReadPos].next].slotSeq == next))
  {
    AfterWritePos(s);
    if Blind(s.pool, s.readers[id].cons) {
      BlindReadsNothing(s, id);
    } else {
      SightedReadIsNextIff(s, id);
    }
  }

  lemma SightedReadIsNextIff(s: Sys, id: nat)
    requires Core(s) && id in s.readers && s.readers[id].got != [] && s.readers[id].Cur() < |s.log|
    requires !Blind(s.pool, s.readers[id].cons)
    ensures InRange(s.pool) && ConsInRange(s.pool, s.readers[id].cons)
    ensures var c, next := s.readers[id].cons, s.readers[id].Cur() + 1;
            && c.lastReadPos >= 0
            && ((Select(s.pool, c).Some? && s.pool.slots[Select(s.pool, c).value].slotSeq == next)
                <==> (s.pool.slots[c.readPos].slotSeq == next
                      || s.pool.slots[s.pool.slots[c.lastReadPos].next].slotSeq == next))
  {
    SelectUnread(s, id);
    var r := s.readers[id];
    var c := r.cons;
    assert GotOk(r, s.log) && CursorOk(s, r);
    assert c.lastSeq > 0;
    ReadPosDiffers(s, c);
    SuccessorUnread(s, c);
    var a := s.pool.slots[c.lastReadPos].next;
    UnreadReferenced(s, id, a);
    if s.pool.slots[c.readPos].slotSeq == c.lastSeq + 1 {
      UnreadReferenced(s, id, c.readPos);
    }
  }

  /**
   While the slot of the last packet read has not been rewritten, the next read yields the next
   packet, whatever the growth and the number of consumers.
   */
  lemma KeptReadsNext(s: Sys, id: nat)
    requires Core(s) && id in s.readers && s.readers[id].got != [] && s.readers[id].Cur() < |s.log|
    requires var c := s.readers[id].cons;
             0 <= c.lastReadPos < |s.pool.slots| && s.pool.slots[c.lastReadPos].slotSeq == c.lastSeq
    ensures InRange(s.pool) && ConsInRange(s.pool, s.readers[id].cons)
    ensures var i := Select(s.pool, s.readers[id].cons);
            i.Some? && s.pool.slots[i.value].slotSeq == s.readers[id].Cur() + 1
  {
    var r := s.readers[id];
    assert GotOk(r, s.log) && CursorOk(s, r);
    assert r.Cur() > 0 && Filled(s, r.cons.lastReadPos);
    assert Kept(s, r.cons.lastSeq);
    SuccessorUnread(s, r.cons);
    ReadIsNextIff(s, id);
  }

  // ---------------------------------------------------------------- reading in order

  /** The consumer remembers the slot its next packet is in, or will be written to. */
  ghost predicate Fresh(s: Sys, r: Reader)
    requires Shape(s)
  {
    if Held(s, r.Cur() + 1) then r.cons.readPos == s.at[r.Cur() + 1]
    else r.Cur() == |s.log| && r.cons.readPos == First(s)
  }

  /** The consumer was given the packets `start + 1`, `start + 2`, ... and no others. */
  ghost predicate Consecutive(r: Reader) {
    forall i :: 0 <= i < |r.got| ==> r.got[i].seqno == r.start + 1 + i
  }

  /** A slot is referenced once for each consumer that has still to read it, and not otherwise. */
  ghost predicate Exact(s: Sys) {
    forall j :: 0 <= j < |s.pool.slots| ==>
      s.pool.slots[j].refs == |Waiting(s.readers, s.pool.slots[j].slotSeq)|
  }

  ghost predicate AllFresh(s: Sys)
    requires Shape(s)
  {
    forall id :: id in s.readers ==> Fresh(s, s.readers[id]) && Consecutive(s.readers[id])
  }

  ghost predicate InOrder(s: Sys)
    requires Shape(s)
  {
    AllFresh(s) && Exact(s)
  }

  /** Some registered consumer has read everything. */
  predicate SomeoneCaughtUp(s: Sys) {
    exists id :: id in s.readers && s.readers[id].Cur() == |s.log|
  }

  lemma RotatedKeepsFresh(s: Sys, s': Sys, pkt: Packet, r: Reader)
    requires Shape(s) && JoinOk(s) && Rotated(s, s', pkt) && Shape(s') && Fresh(s, r)
    requires s.pool.slots[First(s)].slotSeq <= r.Cur() && r.Cur() >= s.low
    ensures Fresh(s', r)
  {
    AfterWritePos(s);
  }

  lemma GrownKeepsFresh(s: Sys, s': Sys, pkt: Packet, r: Reader)
    requires Shape(s) && Grown(s, s', pkt) && Shape(s') && Fresh(s, r) && r.Cur() < |s.log|
    ensures Fresh(s', r)
  {
  }

  lemma RotatedKeepsExact(s: Sys, s': Sys, pkt: Packet)
    requires Shape(s) && JoinOk(s) && Rotated(s, s', pkt) && Exact(s)
    requires |Waiting(s.readers, |s.log| + 1)| == s.pool.refs
    ensures Exact(s')
  {
  }

  lemma GrownKeepsExact(s: Sys, s': Sys, pkt: Packet)
    requires Shape(s) && Grown(s, s', pkt) && Exact(s)
    requires |Waiting(s.readers, |s.log| + 1)| == s.pool.refs
    ensures Exact(s')
  {
    assert Waiting(s.readers, 0) == {};
  }

  lemma RotatedKeepsAllFresh(s: Sys, s': Sys, pkt: Packet)
    requires Core(s) && !MustGrow(s) && Rotated(s, s', pkt) && Shape(s') && AllFresh(s)
    ensures AllFresh(s')
  {
    var k := s.pool.slots[First(s)].slotSeq;
    assert |Waiting(s.readers, k)| == 0;
    forall id | id in s.readers ensures Fresh(s', s.readers[id]) {
      assert id !in Waiting(s.readers, k);
      assert CursorOk(s, s.readers[id]);
      RotatedKeepsFresh(s, s', pkt, s.readers[id]);
    }
  }

  lemma GrownKeepsAllFresh(s: Sys, s': Sys, pkt: Packet)
    requires Core(s) && Grown(s, s', pkt) && Shape(s') && AllFresh(s) && !SomeoneCaughtUp(s)
    ensures AllFresh(s')
  {
    forall id | id in s.readers ensures Fresh(s', s.readers[id]) {
      assert GotOk(s.readers[id], s.log);
      GrownKeepsFresh(s, s', pkt, s.readers[id]);
    }
  }

  /** A consumer that was caught up when a page was added points at the wrong slot from then on. */
  lemma GrownLosesFresh(s: Sys, s': Sys, pkt: Packet, r: Reader)
    requires Shape(s) && Grown(s, s', pkt) && Shape(s') && Fresh(s, r) && r.Cur() == |s.log|
    ensures !Fresh(s', r)
  {
    AfterWritePos(s);
  }

  lemma RotatedKeepsOrder(s: Sys, s': Sys, pkt: Packet)
    requires Inv(s) && InOrder(s) && !MustGrow(s) && Rotated(s, s', pkt) && Shape(s')
    ensures InOrder(s')
  {
    EveryoneWaits(s, |s.log| + 1);
    RotatedKeepsAllFresh(s, s', pkt);
    RotatedKeepsExact(s, s', pkt);
  }

  lemma GrownOrder(s: Sys, s': Sys, pkt: Packet)
    requires Inv(s) && InOrder(s) && Grown(s, s', pkt) && Shape(s')
    ensures InOrder(s') <==> !SomeoneCaughtUp(s)
  {
    if SomeoneCaughtUp(s) {
      var id :| id in s.readers && s.readers[id].Cur() == |s.log|;
      GrownLosesFresh(s, s', pkt, s.readers[id]);
    } else {
      EveryoneWaits(s, |s.log| + 1);
      GrownKeepsAllFresh(s, s', pkt);
      GrownKeepsExact(s, s', pkt);
    }
  }

  /** Producing keeps consumers in order exactly unless it adds a page while one of them is caught up. */
  lemma WriteKeepsOrder(s: Sys, pkt: Packet)
    requires Inv(s) && InOrder(s)
    ensures Inv(Produce(s, pkt))
    ensures InOrder(Produce(s, pkt)) <==> !(MustGrow(s) && SomeoneCaughtUp(s))
  {
    ProduceKeepsInv(s, pkt);
    if MustGrow(s) {
      GrowingGrows(s, pkt);
      GrownOrder(s, Produce(s, pkt), pkt);
    } else {
      InPlaceRotates(s, pkt);
      RotatedKeepsOrder(s, Produce(s, pkt), pkt);
    }
  }

  lemma PushedKeepsFresh(s: Sys, s': Sys, r: Reader)
    requires Shape(s) && JoinOk(s) && Pushed(s, s') && Shape(s') && Fresh(s, r)
    requires s.pool.slots[First(s)].slotSeq <= r.Cur() && r.Cur() >= s.low
    ensures Fresh(s', r)
  {
    AfterWritePos(s);
    assert Filled(s, First(s));
  }

  lemma PushedKeepsOrder(s: Sys, s': Sys)
    requires Core(s) && !MustGrow(s) && Pushed(s, s') && Shape(s') && InOrder(s)
    ensures InOrder(s')
  {
    var k := s.pool.slots[First(s)].slotSeq;
    assert |Waiting(s.readers, k)| == 0;
    forall id | id in s.readers ensures Fresh(s', s.readers[id]) {
      assert id !in Waiting(s.readers, k);
      assert CursorOk(s, s.readers[id]);
      PushedKeepsFresh(s, s', s.readers[id]);
    }
  }

  lemma SplicedFresh(s: Sys, s': Sys, r: Reader)
    requires Shape(s) && Spliced(s, s') && Shape(s') && Fresh(s, r) && |s.log| > 0
    ensures Fresh(s', r) <==> r.Cur() < |s.log|
  {
    AfterWritePos(s);
  }

  lemma SplicedExact(s: Sys, s': Sys)
    requires Shape(s) && Spliced(s, s') && Exact(s)
    ensures Exact(s')
  {
    assert Waiting(s.readers, 0) == {};
  }

  lemma SplicedOrder(s: Sys, s': Sys)
    requires Shape(s) && ReadersOk(s) && Spliced(s, s') && Shape(s') && InOrder(s) && |s.log| > 0
    ensures InOrder(s') <==> !SomeoneCaughtUp(s)
  {
    SplicedExact(s, s');
    forall id | id in s.readers ensures Fresh(s', s.readers[id]) <==> s.readers[id].Cur() != |s.log| {
      assert GotOk(s.readers[id], s.log) && Fresh(s, s.readers[id]);
      SplicedFresh(s, s', s.readers[id]);
    }
  }

  /** So does reserving a slot. */
  lemma ReserveKeepsOrder(s: Sys, data: seq<bv8>)
    requires Inv(s) && InOrder(s)
    ensures Shape(Reserve(s, data))
    ensures InOrder(Reserve(s, data)) <==> !(MustGrow(s) && SomeoneCaughtUp(s))
  {
    var s' := ReservedState(s, data);
    if MustGrow(s) {
      SplicedOrder(s, s');
    } else {
      PushedKeepsOrder(s, s');
    }
  }

  lemma SameRingKeepsFresh(s: Sys, s': Sys, r: Reader)
    requires Shape(s) && SameRing(s, s') && Shape(s') && Fresh(s, r)
    ensures Fresh(s', r)
  {
  }

  lemma JoinKeepsExact(s: Sys, id: nat)
    requires Shape(s) && JoinOk(s) && Exact(s) && id !in s.readers
    ensures Exact(Join(s, id))
  {
    var s' := Join(s, id);
    forall j | 0 <= j < |s.pool.slots|
      ensures s'.pool.slots[j].refs == |Waiting(s'.readers, s'.pool.slots[j].slotSeq)|
    {
      WaitingJoined(s.readers, id, s'.readers[id], s.pool.slots[j].slotSeq);
      assert Filled(s, j);
    }
  }

  lemma JoinedFresh(s: Sys, s': Sys, id: nat)
    requires Shape(s) && JoinOk(s) && id !in s.readers && s' == Join(s, id) && Shape(s')
    ensures Fresh(s', s'.readers[id]) && Consecutive(s'.readers[id])
  {
  }

  lemma JoinKeepsAllFresh(s: Sys, s': Sys, id: nat)
    requires Shape(s) && AllFresh(s) && Shape(s') && SameRing(s, s') && id in s'.readers
    requires s'.readers == s.readers[id := s'.readers[id]] && Fresh(s', s'.readers[id]) && Consecutive(s'.readers[id])
    ensures AllFresh(s')
  {
    forall m | m in s'.readers ensures Fresh(s', s'.readers[m]) && Consecutive(s'.readers[m]) {
      if m != id {
        SameRingKeepsFresh(s, s', s.readers[m]);
      }
    }
  }

  lemma JoinKeepsOrder(s: Sys, id: nat)
    requires Inv(s) && InOrder(s) && id !in s.readers
    ensures Inv(Join(s, id)) && InOrder(Join(s, id))
  {
    JoinKeepsInv(s, id);
    JoinKeepsExact(s, id);
    JoinSameRing(s, id);
    JoinedFresh(s, Join(s, id), id);
    JoinKeepsAllFresh(s, Join(s, id), id);
  }

  /** A consumer in order that is not blind is given exactly the next packet. */
  lemma FreshSelectsNext(s: Sys, id: nat)
    requires Core(s) && id in s.readers && !Blind(s.pool, s.readers[id].cons) && Fresh(s, s.readers[id])
             && s.readers[id].Cur() < |s.log|
    ensures InRange(s.pool) && ConsInRange(s.pool, s.readers[id].cons)
    ensures Select(s.pool, s.readers[id].cons) == Some(s.readers[id].cons.readPos)
    ensures s.pool.slots[s.readers[id].cons.readPos].slotSeq == s.readers[id].Cur() + 1
  {
    SelectUnread(s, id);
    var r := s.readers[id];
    assert GotOk(r, s.log) && CursorOk(s, r);
    HeldSlot(s, r.Cur() + 1);
    UnreadReferenced(s, id, r.cons.readPos);
    if r.got != [] {
      SuccessorUnread(s, r.cons);
    }
  }

  lemma TakenKeepsFresh(s: Sys, s': Sys, id: nat, i: nat)
    requires Shape(s) && Shape(s') && id in s.readers && i < |s.pool.slots| && Taken(s, s', id, i)
    requires s'.readers[id].Cur() == s.pool.slots[i].slotSeq == s.readers[id].Cur() + 1
    requires s.readers[id].Cur() >= s.low
    ensures Fresh(s', s'.readers[id])
  {
    assert Linked(s.pool, s.number, s.at, |s.log|, i) && Filled(s, i);
  }

  lemma TakenKeepsConsecutive(r: Reader, r': Reader, d: Delivery)
    requires Consecutive(r) && r'.start == r.start && r'.got == r.got + [d] && d.seqno == r.Cur() + 1
    ensures Consecutive(r')
  {
  }

  lemma TakenKeepsExact(s: Sys, s': Sys, id: nat, i: nat)
    requires Shape(s) && Exact(s) && id in s.readers && i < |s.pool.slots| && Taken(s, s', id, i)
    requires s'.readers[id].Cur() == s.pool.slots[i].slotSeq == s.readers[id].Cur() + 1
    ensures Exact(s')
  {
    forall j | 0 <= j < |s'.pool.slots|
      ensures s'.pool.slots[j].refs == |Waiting(s'.readers, s'.pool.slots[j].slotSeq)|
    {
      WaitingRead(s.readers, id, s'.readers[id], s.pool.slots[j].slotSeq);
      assert Filled(s, j) && Filled(s, i);
    }
  }

  lemma ReadKeepsOrder(s: Sys, id: nat)
    requires Core(s) && InOrder(s) && id in s.readers && !Blind(s.pool, s.readers[id].cons)
    ensures InRange(s.pool) && ConsInRange(s.pool, s.readers[id].cons)
    ensures Core(Read(s, id)) && InOrder(Read(s, id))
  {
    ReadKeepsCore(s, id);
    ReadTakes(s, id);
    var s', r := Read(s, id), s.readers[id];
    if r.Cur() < |s.log| {
      FreshSelectsNext(s, id);
      var i := r.cons.readPos;
      TakenKeepsReaders(s, s', id, i);
      assert CursorOk(s, r);
      TakenKeepsFresh(s, s', id, i);
      TakenKeepsConsecutive(r, s'.readers[id], Delivery(s.pool.slots[i].slotSeq, s.pool.slots[i].pkt));
      TakenKeepsExact(s, s', id, i);
      OthersStayFresh(s, s', id);
    } else {
      assert GotOk(r, s.log);
    }
  }

  lemma OthersStayFresh(s: Sys, s': Sys, id: nat)
    requires Shape(s) && Shape(s') && SameRing(s, s') && OnlyMoved(s, s', id) && AllFresh(s)
    requires Fresh(s', s'.readers[id]) && Consecutive(s'.readers[id])
    ensures AllFresh(s')
  {
    forall m | m in s'.readers ensures Fresh(s', s'.readers[m]) && Consecutive(s'.readers[m]) {
      if m != id {
        assert s'.readers[m] == s.readers[m];
        SameRingKeepsFresh(s, s', s.readers[m]);
      }
    }
  }

  lemma {:induction false} DrainKeepsOrder(s: Sys, id: nat)
    requires Core(s) && InOrder(s) && id in s.readers && !Blind(s.pool, s.readers[id].cons)
    ensures InOrder(Drain(s, id))
    decreases |s.log| - s.readers[id].Cur()
  {
    ReadKeepsCore(s, id);
    if s.readers[id].Cur() != |s.log| {
      ReadKeepsOrder(s, id);
      DrainKeepsOrder(Read(s, id), id);
    }
  }

  lemma UncountKeepsOrder(s: Sys)
    requires Inv(s) && InOrder(s) && |s.readers| > 0
    ensures InOrder(Uncount(s))
  {
    var u := Uncount(s);
    forall m | m in u.readers ensures Fresh(u, u.readers[m]) {
      SameRingKeepsFresh(s, u, s.readers[m]);
    }
  }

  lemma ForgetKeepsOrder(d: Sys, id: nat)
    requires Core(d) && InOrder(d) && id in d.readers && d.readers[id].Cur() == |d.log|
    ensures InOrder(Forget(d, id))
  {
    var f := Forget(d, id);
    forall m | m in f.readers ensures Fresh(f, f.readers[m]) && Consecutive(f.readers[m]) {
      SameRingKeepsFresh(d, f, d.readers[m]);
    }
    forall j | 0 <= j < |d.pool.slots| ensures d.pool.slots[j].refs == |Waiting(f.readers, d.pool.slots[j].slotSeq)| {
      assert Filled(d, j);
      assert Waiting(f.readers, d.pool.slots[j].slotSeq) == Waiting(d.readers, d.pool.slots[j].slotSeq);
    }
  }

  lemma LeaveKeepsOrder(s: Sys, id: nat)
    requires Inv(s) && InOrder(s) && id in s.readers && !Blind(s.pool, s.readers[id].cons)
    ensures InOrder(Leave(s, id))
  {
    FewerReaders(s.readers, id);
    UncountKeepsOrder(s);
    DrainKeepsOrder(Uncount(s), id);
    ForgetKeepsOrder(Drain(Uncount(s), id), id);
  }
}
