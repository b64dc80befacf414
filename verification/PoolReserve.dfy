/**
 Reserving a slot, and what happens until a packet is committed to it. Reserving keeps the pool's
 invariant. It can make a consumer blind until the next commit: exactly if it adds a page and the
 consumer last read from the slot at the write position before that slot was rewritten.
 */
module PoolReserve {
  import opened PoolModel
  import opened PoolProofs

  // ---------------------------------------------------------------- in place

  /** The join point moves off the oldest slot, and that slot becomes free. */
  ghost predicate Pushed(s: Sys, s': Sys)
    requires Shape(s) && JoinOk(s)
  {
    var z := First(s);
    && |s'.pool.slots| == |s.pool.slots| && s'.number == s.number && s'.at == s.at && s'.log == s.log
    && s'.pool.slots[z] == s.pool.slots[z].(pkt := s'.pool.slots[z].pkt)
    && (forall j :: 0 <= j < |s.pool.slots| && j != z ==> s'.pool.slots[j] == s.pool.slots[j])
    && s'.pool.writePos == s.pool.writePos
    && s'.low == (if s.number[z] > s.low then s.low + 1 else s.low)
    && s'.joinSeq == PushedJoin(s)
    && s'.pool.validReadPos == (if MustPush(s) then s.at[PushedJoin(s)] else s.pool.validReadPos)
    && s'.pool.refs == s.pool.refs && s'.readers == s.readers
  }

  lemma InPlacePushes(s: Sys, data: seq<bv8>)
    requires Shape(s) && JoinOk(s)
    ensures Pushed(s, ReserveInPlace(s, data))
  {
    AfterWritePos(s);
  }

  lemma PushedRing(s: Sys, s': Sys)
    requires Shape(s) && JoinOk(s) && Pushed(s, s')
    ensures RingOk(s'.pool, s'.number, s'.at, |s'.log|)
  {
    forall j | 0 <= j < |s.pool.slots| ensures Linked(s'.pool, s'.number, s'.at, |s'.log|, j) {
      assert Linked(s.pool, s.number, s.at, |s.log|, j);
    }
  }

  lemma PushedKeepsShape(s: Sys, s': Sys)
    requires Shape(s) && JoinOk(s) && Pushed(s, s') && !MustGrow(s)
    ensures Shape(s')
  {
    PushedRing(s, s');
    AfterWritePos(s);
    forall j | 0 <= j < |s'.pool.slots| ensures Filled(s', j) {
      assert Filled(s, j);
    }
  }

  lemma PushedKeepsJoin(s: Sys, s': Sys)
    requires Shape(s) && JoinOk(s) && s.pool.validReadPos < |s.pool.slots| && Pushed(s, s') && Shape(s')
    ensures JoinOk(s') && s'.pool.validReadPos < |s'.pool.slots|
  {
    AfterWritePos(s);
  }

  lemma PushedNewCursor(s: Sys, s': Sys, r: Reader)
    requires Shape(s) && JoinOk(s) && Pushed(s, s') && Shape(s') && NewCursorOk(s, r) && s.low <= r.start <= |s.log|
    requires s.pool.slots[First(s)].slotSeq <= r.start
    ensures NewCursorOk(s', r) && r.start >= s'.low
  {
    AfterWritePos(s);
    assert Filled(s, First(s));
  }

  lemma PushedOldCursor(s: Sys, s': Sys, c: Consumer)
    requires Shape(s) && JoinOk(s) && Pushed(s, s') && Shape(s')
    requires ConsInRange(s.pool, c) && OldCursorOk(s, c) && s.low <= c.lastSeq
    requires s.pool.slots[First(s)].slotSeq <= c.lastSeq
    ensures ConsInRange(s'.pool, c) && OldCursorOk(s', c) && c.lastSeq >= s'.low
  {
    AfterWritePos(s);
    assert Filled(s, First(s)) && Linked(s.pool, s.number, s.at, |s.log|, c.lastReadPos);
    assert Kept(s', c.lastSeq) <==> Kept(s, c.lastSeq);
  }

  lemma PushedKeepsReaders(s: Sys, s': Sys)
    requires Core(s) && Pushed(s, s') && Shape(s') && !MustGrow(s)
    ensures ReadersOk(s')
  {
    var k := s.pool.slots[First(s)].slotSeq;
    assert |Waiting(s.readers, k)| == 0;
    forall id | id in s.readers ensures GotOk(s.readers[id], s'.log) && CursorOk(s', s.readers[id]) {
      var r := s.readers[id];
      assert id !in Waiting(s.readers, k);
      if r.got == [] {
        PushedNewCursor(s, s', r);
      } else {
        PushedOldCursor(s, s', r.cons);
      }
    }
  }

  lemma PushedKeepsInv(s: Sys, s': Sys)
    requires Inv(s) && !MustGrow(s) && Pushed(s, s')
    ensures Inv(s')
  {
    PushedKeepsShape(s, s');
    PushedKeepsJoin(s, s');
    PushedKeepsReaders(s, s');
  }

  // ---------------------------------------------------------------- with a new page

  lemma SpliceNewCursor(s: Sys, s': Sys, r: Reader)
    requires Shape(s) && Spliced(s, s') && Shape(s') && |s.log| > 0 && NewCursorOk(s, r)
    ensures NewCursorOk(s', r)
  {
  }

  lemma SpliceOldCursor(s: Sys, s': Sys, c: Consumer)
    requires Shape(s) && Spliced(s, s') && Shape(s') && MustGrow(s)
    requires ConsInRange(s.pool, c) && OldCursorOk(s, c) && 0 < c.lastSeq <= |s.log|
    ensures ConsInRange(s'.pool, c) && OldCursorOk(s', c)
  {
    AfterWritePos(s);
    GrowingIsFull(s);
    assert Linked(s.pool, s.number, s.at, |s.log|, c.lastReadPos);
    assert Kept(s', c.lastSeq) <==> Kept(s, c.lastSeq);
    assert c.lastReadPos == s.pool.writePos ==> (Kept(s, c.lastSeq) <==> c.lastSeq == |s.log|);
  }

  lemma SpliceCursor(s: Sys, s': Sys, r: Reader)
    requires Shape(s) && Spliced(s, s') && Shape(s') && MustGrow(s) && |s.log| > 0 && GotOk(r, s.log) && CursorOk(s, r)
    ensures GotOk(r, s'.log) && CursorOk(s', r)
  {
    if r.got == [] {
      SpliceNewCursor(s, s', r);
    } else {
      SpliceOldCursor(s, s', r.cons);
    }
  }

  lemma SplicedReaders(s: Sys, s': Sys)
    requires Shape(s) && ReadersOk(s) && Spliced(s, s') && Shape(s') && MustGrow(s) && |s.log| > 0
    ensures ReadersOk(s')
  {
    forall id | id in s.readers ensures GotOk(s.readers[id], s'.log) && CursorOk(s', s.readers[id]) {
      assert GotOk(s.readers[id], s.log) && CursorOk(s, s.readers[id]);
      SpliceCursor(s, s', s.readers[id]);
    }
  }

  lemma SplicedRefs(s: Sys, s': Sys)
    requires Shape(s) && RefsOk(s) && Spliced(s, s')
    ensures RefsOk(s')
  {
    assert Waiting(s.readers, 0) == {};
  }

  lemma SplicedKeepsInv(s: Sys, s': Sys)
    requires Inv(s) && MustGrow(s) && Spliced(s, s')
    ensures Inv(s')
  {
    SplicedKeepsShape(s, s');
    SplicedReaders(s, s');
    SplicedRefs(s, s');
  }

  /** A reservation keeps the invariant, also if it is not the first since the last packet. */
  lemma ReserveKeepsInv(s: Sys, data: seq<bv8>)
    requires Inv(s)
    ensures Inv(Reserve(s, data))
  {
    if MustGrow(s) {
      GrowingSplices(s, data);
      SplicedKeepsInv(s, Reserve(s, data));
    } else {
      InPlacePushes(s, data);
      PushedKeepsInv(s, Reserve(s, data));
    }
  }

  // ---------------------------------------------------------------- blind consumers

  lemma SplicedBlinds(s: Sys, s': Sys, c: Consumer)
    requires Shape(s) && Spliced(s, s') && MustGrow(s)
    ensures s'.pool.writePos < |s'.pool.slots| && !Blind(s.pool, c)
    ensures Blind(s'.pool, c) <==> ExposedReader(s.pool, c)
  {
    AfterWritePos(s);
    GrowingIsFull(s);
    assert Filled(s, First(s));
  }

  lemma PushedBlinds(s: Sys, s': Sys, c: Consumer)
    requires Shape(s) && JoinOk(s) && Pushed(s, s')
    ensures s'.pool.writePos < |s'.pool.slots| && (Blind(s'.pool, c) <==> Blind(s.pool, c))
  {
    AfterWritePos(s);
  }

  /**
   Exactly when a reservation makes a consumer blind: when it adds a page after the slot the
   consumer last read from, and that slot has been rewritten since.
   */
  lemma ReserveBlindsIff(s: Sys, data: seq<bv8>, c: Consumer)
    requires Inv(s)
    ensures Reserve(s, data).pool.writePos < |Reserve(s, data).pool.slots|
    ensures Blind(Reserve(s, data).pool, c) <==> Blind(s.pool, c) || (MustGrow(s) && ExposedReader(s.pool, c))
  {
    if MustGrow(s) {
      GrowingSplices(s, data);
      SplicedBlinds(s, Reserve(s, data), c);
    } else {
      InPlacePushes(s, data);
      PushedBlinds(s, Reserve(s, data), c);
    }
  }

  /** Nobody is blind after a reservation exactly if nobody was and no page went before a consumer. */
  lemma ReserveKeepsSightIff(s: Sys, data: seq<bv8>)
    requires Inv(s)
    ensures Inv(Reserve(s, data))
    ensures Sighted(Reserve(s, data)) <==> Sighted(s) && !(MustGrow(s) && Exposed(s))
  {
    ReserveKeepsInv(s, data);
    forall id | id in s.readers
      ensures Blind(Reserve(s, data).pool, s.readers[id].cons) <==>
              Blind(s.pool, s.readers[id].cons) || (MustGrow(s) && ExposedReader(s.pool, s.readers[id].cons))
    {
      ReserveBlindsIff(s, data, s.readers[id].cons);
    }
  }

  /**
   What a blind consumer reads: it has packets to read, but its next read fails or gives it the
   slot after the write position, which was never written.
   */
  lemma BlindReadsNothing(s: Sys, id: nat)
    requires Core(s) && id in s.readers && Blind(s.pool, s.readers[id].cons)
    ensures var p, c := s.pool, s.readers[id].cons;
            && s.readers[id].Cur() < |s.log| && InRange(p) && ConsInRange(p, c)
            && (Select(p, c).None? || (Select(p, c) == Some(First(s)) && p.slots[First(s)].slotSeq == 0))
            && (Select(p, c).None? <==> p.slots[c.readPos].refs == 0 || p.slots[c.readPos].slotSeq < c.lastSeq)
  {
    ShapeInRange(s);
    AfterWritePos(s);
    assert GotOk(s.readers[id], s.log) && CursorOk(s, s.readers[id]);
    assert Filled(s, First(s));
    SelectsEmpty(s.pool, s.readers[id].cons, First(s));
  }

  /**
   If a blind consumer is given the empty slot, the slot's count falls below 0, to 65535 in its 16
   bits: it is taken for referenced, and the consumer has lost its place.
   */
  lemma EmptyReadSticks(s: Sys, id: nat)
    requires Core(s) && id in s.readers && Blind(s.pool, s.readers[id].cons)
    ensures InRange(s.pool) && ConsInRange(s.pool, s.readers[id].cons)
    ensures var next, t := s.pool.slots[s.pool.writePos].next, Read(s, id);
            Select(s.pool, s.readers[id].cons).Some? ==>
              next < |t.pool.slots| && t.pool.slots[next].refs == 65535 && t.readers[id].cons.lastSeq == 0
  {
    AfterWritePos(s);
    BlindReadsNothing(s, id);
    assert Filled(s, First(s));
  }

  /** With an empty slot after the last one read, that slot or nothing is selected. */
  lemma SelectsEmpty(p: Pool, c: Consumer, e: nat)
    requires InRange(p) && ConsInRange(p, c) && c.lastReadPos >= 0 && p.slots[c.lastReadPos].next == e
    requires p.slots[e].refs == 0 && p.slots[e].slotSeq == 0 < c.lastSeq
    ensures Select(p, c) == if p.slots[c.readPos].refs == 0 || p.slots[c.readPos].slotSeq < c.lastSeq then None
                            else Some(e)
  {
  }

  // ---------------------------------------------------------------- the next packet

  lemma PageReserved(s: Sys, m: Sys)
    requires Shape(s) && JoinOk(s) && MustGrow(s) && Spliced(s, m)
    ensures Shape(m) && JoinOk(m) && !MustGrow(m) && !MustPush(m) && |s.log| > 0 && First(m) == |s.pool.slots|
  {
    SplicedKeepsShape(s, m);
    FirstOfPage(s, m);
  }

  lemma SlotReserved(s: Sys, m: Sys)
    requires Shape(s) && JoinOk(s) && s.pool.validReadPos < |s.pool.slots| && !MustGrow(s) && Pushed(s, m)
    ensures Shape(m) && JoinOk(m) && !MustGrow(m) && !MustPush(m) && First(m) == First(s)
  {
    PushedKeepsShape(s, m);
    PushedKeepsJoin(s, m);
    NotPushedTwice(s, m);
    AfterWritePos(s);
  }

  lemma ReservedState(s: Sys, data: seq<bv8>) returns (m: Sys)
    requires Inv(s)
    ensures m == Reserve(s, data) && Shape(m) && JoinOk(m) && !MustGrow(m) && !MustPush(m)
    ensures if MustGrow(s) then Spliced(s, m) && |s.log| > 0 else Pushed(s, m)
  {
    m := Reserve(s, data);
    if MustGrow(s) {
      GrowingSplices(s, data);
      PageReserved(s, m);
    } else {
      InPlacePushes(s, data);
      SlotReserved(s, m);
    }
  }

  lemma NotPushedTwice(s: Sys, m: Sys)
    requires Shape(s) && JoinOk(s) && s.pool.validReadPos < |s.pool.slots| && Pushed(s, m) && Shape(m) && JoinOk(m)
    ensures !MustPush(m)
  {
    AfterWritePos(s);
  }

  lemma RotatedUnique(m: Sys, a: Sys, b: Sys, pkt: Packet)
    requires Shape(m) && JoinOk(m) && Rotated(m, a, pkt) && Rotated(m, b, pkt)
    ensures a == b
  {
    assert a.pool.slots == b.pool.slots;
    assert a.number == b.number;
    forall k | k in a.at ensures k in b.at && a.at[k] == b.at[k] {
      assert k <= |m.log| ==> k in m.at;
    }
    assert forall k :: k in a.at <==> k in b.at;
    assert a.at == b.at;
  }

  lemma PushedFirst(s: Sys, m: Sys)
    requires Shape(s) && JoinOk(s) && Pushed(s, m) && Shape(m) && JoinOk(m) && !MustPush(m)
    ensures First(m) == First(s) < |s.pool.slots| && m.number[First(m)] <= m.low
            && PushedJoin(m) == PushedJoin(s) == m.joinSeq
  {
    AfterWritePos(s);
  }

  lemma PushedThenRotated(s: Sys, m: Sys, b: Sys, pkt: Packet)
    requires Shape(s) && JoinOk(s) && Pushed(s, m) && Shape(m) && JoinOk(m) && !MustPush(m) && Rotated(s, b, pkt)
    requires First(m) == First(s) < |s.pool.slots| && m.number[First(m)] <= m.low
             && PushedJoin(m) == PushedJoin(s) == m.joinSeq
    ensures Rotated(m, b, pkt)
  {
  }

  /** Once the next packet is committed, nothing is left of the reservation, whomever it blinded. */
  lemma ReserveThenProduce(s: Sys, data: seq<bv8>, pkt: Packet)
    requires Inv(s)
    ensures Shape(Reserve(s, data)) && JoinOk(Reserve(s, data))
    ensures Produce(Reserve(s, data), pkt) == Produce(s, pkt)
  {
    var m := ReservedState(s, data);
    if MustGrow(s) {
      GrowingGrows(s, pkt);
      GrownInTwoSteps(s, m, Produce(s, pkt), pkt);
    } else {
      InPlaceRotates(s, pkt);
      PushedFirst(s, m);
      PushedThenRotated(s, m, Produce(s, pkt), pkt);
    }
    InPlaceRotates(m, pkt);
    RotatedUnique(m, Produce(m, pkt), Produce(s, pkt), pkt);
  }

  /** Reservations one after the other, none of them committed. */
  ghost function ReserveAll(s: Sys, datas: seq<seq<bv8>>): (m: Sys)
    requires Inv(s)
    ensures Inv(m)
  {
    if datas == [] then s
    else
      var n := |datas| - 1;
      ReserveKeepsInv(ReserveAll(s, datas[..n]), datas[n]);
      Reserve(ReserveAll(s, datas[..n]), datas[n])
  }

  /** However many reservations were abandoned, the next packet leaves nothing of them. */
  lemma {:induction false} ReserveAllThenProduce(s: Sys, datas: seq<seq<bv8>>, pkt: Packet)
    requires Inv(s)
    ensures Produce(ReserveAll(s, datas), pkt) == Produce(s, pkt)
  {
    if datas != [] {
      var n := |datas| - 1;
      ReserveAllThenProduce(s, datas[..n], pkt);
      ReserveThenProduce(ReserveAll(s, datas[..n]), datas[n], pkt);
    }
  }

  /**
   Reserving hands out a free slot and changes nothing that a consumer may read: in place only the
   data of that slot, and with a new page only the link to it.
   */
  lemma ReserveFills(s: Sys, data: seq<bv8>)
    requires Inv(s)
    ensures var p, q := s.pool, Reserve(s, data).pool;
            && p.writePos == q.writePos < |p.slots| <= |q.slots| && q.slots[q.writePos].next < |q.slots|
            && var i := q.slots[q.writePos].next;
               && q.slots[i].refs == 0 && q.slots[i].pkt.data == data
               && (i < |p.slots| ==>
                     && q.slots[i].slotSeq == p.slots[i].slotSeq && q.slots[i].next == p.slots[i].next
                     && q.slots[i].pkt.timestamp == p.slots[i].pkt.timestamp
                     && q.slots[i].pkt.marker == p.slots[i].pkt.marker)
               && (forall j :: 0 <= j < |p.slots| && j != i && j != p.writePos ==> q.slots[j] == p.slots[j])
               && q.slots[p.writePos] == p.slots[p.writePos].(next := i)
  {
    AfterWritePos(s);
    if MustGrow(s) {
      GrowingSplices(s, data);
    } else {
      assert Filled(s, First(s));
    }
  }

  // ---------------------------------------------------------------- between reserving and committing

  /** The slot after the write position is free and is not the join point. */
  ghost predicate Reserved(s: Sys)
    requires Shape(s)
  {
    !MustGrow(s) && !MustPush(s) && s.number[First(s)] <= s.low
  }

  lemma PushedReserves(s: Sys, m: Sys)
    requires Shape(s) && JoinOk(s) && Pushed(s, m) && Shape(m) && First(m) == First(s)
    ensures m.number[First(m)] <= m.low
  {
    AfterWritePos(s);
  }

  lemma ReserveReserves(s: Sys, data: seq<bv8>)
    requires Inv(s)
    ensures Inv(Reserve(s, data)) && Reserved(Reserve(s, data))
  {
    ReserveKeepsInv(s, data);
    var m := ReservedState(s, data);
    AfterWritePos(m);
    if MustGrow(s) {
      GrowingIsFull(s);
    } else {
      SlotReserved(s, m);
      PushedReserves(s, m);
    }
  }

  /** With a slot reserved, reserving again only changes its data, and writing is only the commit. */
  lemma ReservedCommits(s: Sys, data: seq<bv8>, pkt: Packet)
    requires Inv(s) && Reserved(s)
    ensures First(s) < |s.pool.slots| && s.pool.writePos < |s.pool.slots|
    ensures s.pool.slots[s.pool.writePos].next == First(s)
    ensures Reserve(s, data) == s.(pool := Scribble(s.pool, First(s), data))
    ensures Produce(s, pkt).pool == Commit(s.pool, pkt) && Produce(s, pkt).readers == s.readers
  {
    AfterWritePos(s);
  }

  // ---------------------------------------------------------------- the end of blindness

  lemma RotatedSights(s: Sys, s': Sys, pkt: Packet, r: Reader)
    requires Shape(s) && JoinOk(s) && Rotated(s, s', pkt) && Shape(s') && GotOk(r, s.log) && CursorOk(s, r)
    ensures !Blind(s'.pool, r.cons)
  {
    AfterWritePos(s);
    AfterWritePos(s');
    var c := r.cons;
    if c.lastReadPos == First(s) {
      assert Linked(s.pool, s.number, s.at, |s.log|, c.lastReadPos);
      if Kept(s, c.lastSeq) {
        RotateLastRead(s, s', pkt, c);
      }
    }
  }

  lemma GrownSights(s: Sys, s': Sys, pkt: Packet, r: Reader)
    requires Shape(s) && Grown(s, s', pkt) && CursorOk(s, r)
    ensures s'.pool.writePos < |s'.pool.slots| && !Blind(s'.pool, r.cons)
  {
  }

  /** The next packet ends it: after a commit nobody is blind. */
  lemma ProduceSights(s: Sys, pkt: Packet)
    requires Inv(s)
    ensures Inv(Produce(s, pkt)) && Sighted(Produce(s, pkt))
  {
    ProduceKeepsInv(s, pkt);
    var s' := Produce(s, pkt);
    if MustGrow(s) {
      GrowingGrows(s, pkt);
    } else {
      InPlaceRotates(s, pkt);
    }
    forall id | id in s.readers ensures !Blind(s'.pool, s.readers[id].cons) {
      assert GotOk(s.readers[id], s.log) && CursorOk(s, s.readers[id]);
      if MustGrow(s) {
        GrownSights(s, s', pkt, s.readers[id]);
      } else {
        RotatedSights(s, s', pkt, s.readers[id]);
      }
    }
  }
}
