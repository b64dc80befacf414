/** Every operation of the bufferpool keeps `PoolModel.Inv`. */
module PoolProofs {
  import opened PoolModel

  lemma InitInv(n: nat)
    requires n >= 2
    ensures Inv(Init(n))
  {
    assert Waiting(Init(n).readers, 0) == {};
    forall j | 0 <= j < n ensures Filled(Init(n), j) { }
  }

  /** A written slot holds the packet of its number. */
  lemma HeldSlot(s: Sys, k: nat)
    requires Shape(s) && Held(s, k)
    ensures k in s.at && s.at[k] < |s.pool.slots|
    ensures s.pool.slots[s.at[k]].slotSeq == k && s.pool.slots[s.at[k]].pkt == s.log[k - 1]
  {
  }

  /** The slot after the write position is the first of the walk. */
  lemma AfterWritePos(s: Sys)
    requires Shape(s)
    ensures s.pool.slots[s.pool.writePos].next == First(s) < |s.pool.slots|
    ensures s.number[First(s)] == |s.log| - |s.pool.slots| + 1
    ensures s.pool.slots[s.pool.writePos].slotSeq == |s.log|
  {
    assert Linked(s.pool, s.number, s.at, |s.log|, s.pool.writePos);
  }

  lemma ShapeInRange(s: Sys)
    requires Shape(s) && s.pool.validReadPos < |s.pool.slots|
    ensures InRange(s.pool)
  {
    forall j | 0 <= j < |s.pool.slots| ensures s.pool.slots[j].next < |s.pool.slots| {
      assert Linked(s.pool, s.number, s.at, |s.log|, j);
    }
  }

  // ---------------------------------------------------------------- produce without growth

  /** Producing in place rewrites one slot and moves the newest number to it. */
  ghost predicate Rotated(s: Sys, s': Sys, pkt: Packet)
    requires Shape(s) && JoinOk(s)
  {
    var n, l, z := |s.pool.slots|, |s.log|, First(s);
    && |s'.pool.slots| == n == |s'.number|
    && s'.pool.slots[z] == Slot(s.pool.refs, l + 1, pkt, s.pool.slots[z].next) && s'.number[z] == l + 1
    && (forall j :: 0 <= j < n && j != z ==> s'.pool.slots[j] == s.pool.slots[j] && s'.number[j] == s.number[j])
    && s'.pool.writePos == z
    && (forall k :: k in s'.at <==> l - n + 1 < k <= l + 1)
    && s'.at[l + 1] == z
    && (forall k :: k in s.at && k != l - n + 1 ==> s'.at[k] == s.at[k])
    && s'.low == (if s.number[z] > s.low then s.low + 1 else s.low)
    && s'.log == s.log + [pkt]
    && s'.joinSeq == PushedJoin(s)
    && s'.pool.validReadPos == (if MustPush(s) then s.at[PushedJoin(s)] else s.pool.validReadPos)
    && s'.pool.refs == s.pool.refs && s'.readers == s.readers
  }

  lemma InPlaceRotates(s: Sys, pkt: Packet)
    requires Shape(s) && JoinOk(s)
    ensures Rotated(s, ProduceInPlace(s, pkt), pkt)
  {
    AfterWritePos(s);
  }

  lemma RotateLink(s: Sys, s': Sys, pkt: Packet, j: nat)
    requires Shape(s) && JoinOk(s) && Rotated(s, s', pkt) && j < |s.pool.slots|
    ensures Linked(s'.pool, s'.number, s'.at, |s'.log|, j)
  {
    AfterWritePos(s);
    assert Linked(s.pool, s.number, s.at, |s.log|, j);
  }

  lemma RotateNumbers(s: Sys, s': Sys, pkt: Packet)
    requires Shape(s) && JoinOk(s) && Rotated(s, s', pkt)
    ensures NumbersOk(s'.pool, s'.number, s'.at, |s'.log|)
  {
    AfterWritePos(s);
  }

  lemma RotateRing(s: Sys, s': Sys, pkt: Packet)
    requires Shape(s) && JoinOk(s) && Rotated(s, s', pkt)
    ensures RingOk(s'.pool, s'.number, s'.at, |s'.log|)
  {
    RotateNumbers(s, s', pkt);
    forall j | 0 <= j < |s.pool.slots| ensures Linked(s'.pool, s'.number, s'.at, |s'.log|, j) {
      RotateLink(s, s', pkt, j);
    }
  }

  lemma RotateWindow(s: Sys, s': Sys, pkt: Packet)
    requires Shape(s) && JoinOk(s) && Rotated(s, s', pkt)
    ensures |s'.number| == |s'.pool.slots| && WindowOk(s')
  {
    AfterWritePos(s);
    forall j | 0 <= j < |s'.pool.slots| ensures Filled(s', j) {
      assert Filled(s, j);
    }
  }

  lemma RotateJoin(s: Sys, s': Sys, pkt: Packet)
    requires Shape(s) && JoinOk(s) && s.pool.validReadPos < |s.pool.slots| && Rotated(s, s', pkt)
    requires Shape(s')
    ensures JoinOk(s') && s'.pool.validReadPos < |s'.pool.slots|
  {
    AfterWritePos(s);
  }

  lemma LongerLogKeepsGot(r: Reader, log: seq<Packet>, pkt: Packet)
    requires GotOk(r, log)
    ensures GotOk(r, log + [pkt])
  {
  }

  lemma RotateNewCursor(s: Sys, s': Sys, pkt: Packet, r: Reader)
    requires Shape(s) && JoinOk(s) && Rotated(s, s', pkt) && Shape(s')
    requires NewCursorOk(s, r) && s.low <= r.start <= |s.log|
    requires s.pool.slots[First(s)].slotSeq <= r.start
    ensures NewCursorOk(s', r) && r.start >= s'.low
  {
    AfterWritePos(s);
  }

  /** The slot of the last packet read is the one reused: its successor is the oldest packet left. */
  lemma RotateLastRead(s: Sys, s': Sys, pkt: Packet, c: Consumer)
    requires Shape(s) && JoinOk(s) && Rotated(s, s', pkt) && Shape(s')
    requires ConsInRange(s.pool, c) && c.lastReadPos == First(s) && s.number[First(s)] == c.lastSeq >= s.low
    ensures s'.pool.slots[First(s)].next < |s'.pool.slots|
    ensures s'.pool.slots[s'.pool.slots[First(s)].next].slotSeq == c.lastSeq + 1
  {
    AfterWritePos(s);
    assert Linked(s.pool, s.number, s.at, |s.log|, First(s));
    assert Filled(s, s.pool.slots[First(s)].next);
  }

  lemma RotateOldCursor(s: Sys, s': Sys, pkt: Packet, c: Consumer)
    requires Shape(s) && JoinOk(s) && Rotated(s, s', pkt) && Shape(s')
    requires ConsInRange(s.pool, c) && OldCursorOk(s, c) && s.low <= c.lastSeq <= |s.log|
    requires s.pool.slots[First(s)].slotSeq <= c.lastSeq
    ensures ConsInRange(s'.pool, c) && OldCursorOk(s', c) && c.lastSeq >= s'.low
  {
    AfterWritePos(s);
    assert Linked(s.pool, s.number, s.at, |s.log|, c.lastReadPos);
    if Kept(s, c.lastSeq) && !Kept(s', c.lastSeq) {
      RotateLastRead(s, s', pkt, c);
    }
  }

  lemma RotateReaders(s: Sys, s': Sys, pkt: Packet)
    requires Core(s) && Rotated(s, s', pkt) && Shape(s') && !MustGrow(s)
    ensures ReadersOk(s')
  {
    var k := s.pool.slots[First(s)].slotSeq;
    assert |Waiting(s.readers, k)| == 0;
    forall id | id in s.readers
      ensures GotOk(s.readers[id], s'.log) && CursorOk(s', s.readers[id])
    {
      var r := s.readers[id];
      assert id !in Waiting(s.readers, k);
      LongerLogKeepsGot(r, s.log, pkt);
      if r.got == [] {
        RotateNewCursor(s, s', pkt, r);
      } else {
        RotateOldCursor(s, s', pkt, r.cons);
      }
    }
  }

  lemma EveryoneWaits(s: Sys, k: nat)
    requires Shape(s) && ReadersOk(s) && k > |s.log|
    ensures |Waiting(s.readers, k)| == |s.readers|
  {
    forall id | id in s.readers ensures s.readers[id].Cur() < k {
      assert GotOk(s.readers[id], s.log);
    }
    assert Waiting(s.readers, k) == s.readers.Keys;
  }

  lemma RotateRefs(s: Sys, s': Sys, pkt: Packet)
    requires Shape(s) && JoinOk(s) && RefsOk(s) && Rotated(s, s', pkt)
    requires |Waiting(s.readers, |s.log| + 1)| <= s.pool.refs
    ensures RefsOk(s')
  {
  }

  lemma RotatedKeepsShape(s: Sys, s': Sys, pkt: Packet)
    requires Shape(s) && JoinOk(s) && Rotated(s, s', pkt)
    ensures Shape(s')
  {
    RotateRing(s, s', pkt);
    RotateWindow(s, s', pkt);
  }

  lemma RotatedKeepsCore(s: Sys, s': Sys, pkt: Packet)
    requires Core(s) && !MustGrow(s) && Rotated(s, s', pkt) && |Waiting(s.readers, |s.log| + 1)| <= s.pool.refs
    ensures Core(s')
  {
    RotatedKeepsShape(s, s', pkt);
    RotateJoin(s, s', pkt);
    RotateReaders(s, s', pkt);
    RotateRefs(s, s', pkt);
  }

  lemma RotatedKeepsInv(s: Sys, s': Sys, pkt: Packet)
    requires Inv(s) && !MustGrow(s) && Rotated(s, s', pkt)
    ensures Inv(s')
  {
    EveryoneWaits(s, |s.log| + 1);
    RotatedKeepsCore(s, s', pkt);
  }

  // ---------------------------------------------------------------- produce with a new page

  /** A page is spliced in after the write position and its first slot written. */
  ghost predicate Grown(s: Sys, s': Sys, pkt: Packet)
    requires Shape(s)
  {
    var n, l, w := |s.pool.slots|, |s.log|, s.pool.writePos;
    && |s'.pool.slots| == n + PAGE == |s'.number|
    && s'.pool.slots[n] == Slot(s.pool.refs, l + 1, pkt, n + 1) && s'.number[n] == l + 1
    && s'.pool.slots[w] == s.pool.slots[w].(next := n)
    && (forall j :: 0 <= j < n && j != w ==> s'.pool.slots[j] == s.pool.slots[j])
    && (forall j :: 0 <= j < n ==> s'.number[j] == s.number[j])
    && (forall j :: n < j < n + PAGE ==>
          && s'.pool.slots[j] == Slot(0, 0, NO_PACKET, if j + 1 < n + PAGE then j + 1 else First(s))
          && s'.number[j] == l - n - PAGE + 1 + (j - n))
    && s'.pool.writePos == n
    && (forall k :: k in s'.at <==> l - n - PAGE + 1 < k <= l + 1)
    && s'.at[l + 1] == n
    && (forall k :: k in s.at ==> s'.at[k] == s.at[k])
    && (forall k :: l - n - PAGE + 1 < k <= l - n ==> s'.at[k] == n + k - (l - n - PAGE + 1))
    && s'.low == s.low && s'.log == s.log + [pkt] && s'.joinSeq == s.joinSeq
    && s'.pool.validReadPos == s.pool.validReadPos
    && s'.pool.refs == s.pool.refs && s'.readers == s.readers
  }

  lemma GrowingGrows(s: Sys, pkt: Packet)
    requires Shape(s)
    ensures Grown(s, ProduceGrowing(s, pkt), pkt)
  {
    AfterWritePos(s);
  }

  /** A page is spliced in after the write position and nothing written. */
  ghost predicate Spliced(s: Sys, s': Sys)
    requires Shape(s)
  {
    var n, l, w := |s.pool.slots|, |s.log|, s.pool.writePos;
    && |s'.pool.slots| == n + PAGE == |s'.number|
    && s'.pool.slots[w] == s.pool.slots[w].(next := n)
    && (forall j :: 0 <= j < n && j != w ==> s'.pool.slots[j] == s.pool.slots[j])
    && (forall j :: 0 <= j < n ==> s'.number[j] == s.number[j])
    && (forall j :: n <= j < n + PAGE ==>
          && s'.pool.slots[j] == Slot(0, 0, if j == n then s'.pool.slots[n].pkt else NO_PACKET,
                                      if j + 1 < n + PAGE then j + 1 else First(s))
          && s'.number[j] == l - n - PAGE + 1 + (j - n))
    && s'.pool.writePos == w
    && (forall k :: k in s'.at <==> l - n - PAGE < k <= l)
    && (forall k :: k in s.at ==> s'.at[k] == s.at[k])
    && (forall k :: l - n - PAGE < k <= l - n ==> s'.at[k] == n + k - (l - n - PAGE + 1))
    && s'.low == s.low && s'.log == s.log && s'.joinSeq == s.joinSeq
    && s'.pool.validReadPos == s.pool.validReadPos
    && s'.pool.refs == s.pool.refs && s'.readers == s.readers
  }

  lemma GrowingSplices(s: Sys, data: seq<bv8>)
    requires Shape(s)
    ensures Spliced(s, ReserveGrowing(s, data))
  {
    AfterWritePos(s);
  }

  lemma SpliceOldLink(s: Sys, s': Sys, j: nat)
    requires Shape(s) && Spliced(s, s') && j < |s.pool.slots|
    ensures Linked(s'.pool, s'.number, s'.at, |s'.log|, j)
  {
    AfterWritePos(s);
    assert Linked(s.pool, s.number, s.at, |s.log|, j);
  }

  lemma SpliceNewLink(s: Sys, s': Sys, j: nat)
    requires Shape(s) && Spliced(s, s') && |s.pool.slots| <= j < |s'.pool.slots|
    ensures Linked(s'.pool, s'.number, s'.at, |s'.log|, j)
  {
    AfterWritePos(s);
  }

  lemma SpliceNumbers(s: Sys, s': Sys)
    requires Shape(s) && Spliced(s, s')
    ensures NumbersOk(s'.pool, s'.number, s'.at, |s'.log|)
  {
  }

  lemma SpliceRing(s: Sys, s': Sys)
    requires Shape(s) && Spliced(s, s')
    ensures RingOk(s'.pool, s'.number, s'.at, |s'.log|)
  {
    SpliceNumbers(s, s');
    forall j | 0 <= j < |s'.pool.slots| ensures Linked(s'.pool, s'.number, s'.at, |s'.log|, j) {
      if j < |s.pool.slots| {
        SpliceOldLink(s, s', j);
      } else {
        SpliceNewLink(s, s', j);
      }
    }
  }

  /** Growing means that the oldest slot is referenced, so every slot holds a packet. */
  lemma GrowingIsFull(s: Sys)
    requires Shape(s) && MustGrow(s)
    ensures s.low == |s.log| - |s.pool.slots| && 0 <= s.low < |s.log|
  {
    AfterWritePos(s);
    assert Filled(s, First(s));
  }

  lemma SpliceWindow(s: Sys, s': Sys)
    requires Shape(s) && Spliced(s, s') && MustGrow(s)
    ensures |s'.number| == |s'.pool.slots| && WindowOk(s')
  {
    GrowingIsFull(s);
    forall j | 0 <= j < |s'.pool.slots| ensures Filled(s', j) {
      if j < |s.pool.slots| {
        assert Filled(s, j);
      }
    }
  }

  lemma SplicedKeepsShape(s: Sys, s': Sys)
    requires Shape(s) && JoinOk(s) && Spliced(s, s') && MustGrow(s)
    ensures Shape(s') && JoinOk(s') && |s.log| > 0 && s'.pool.validReadPos < |s.pool.slots|
  {
    SpliceRing(s, s');
    SpliceWindow(s, s');
    GrowingIsFull(s);
  }

  /** Writing into a new page is splicing it in and then writing in place. */
  lemma GrownInTwoSteps(s: Sys, mid: Sys, s': Sys, pkt: Packet)
    requires Shape(s) && JoinOk(s) && MustGrow(s) && Grown(s, s', pkt) && Spliced(s, mid) && Shape(mid) && JoinOk(mid)
    ensures Rotated(mid, s', pkt)
  {
    GrowingIsFull(s);
    FirstOfPage(s, mid);
  }

  /** The first slot of the new page comes next, and is not the join point. */
  lemma FirstOfPage(s: Sys, mid: Sys)
    requires Shape(s) && JoinOk(s) && Spliced(s, mid) && Shape(mid) && JoinOk(mid) && |s.log| > 0
    ensures First(mid) == |s.pool.slots| && mid.number[First(mid)] == |s.log| - |s.pool.slots| - PAGE + 1
    ensures !MustPush(mid) && PushedJoin(mid) == s.joinSeq
  {
    HeldSlot(s, s.joinSeq);
  }

  lemma GrowNewCursor(s: Sys, s': Sys, pkt: Packet, r: Reader)
    requires Shape(s) && Grown(s, s', pkt) && Shape(s') && |s.log| > 0
    requires NewCursorOk(s, r)
    ensures NewCursorOk(s', r)
  {
  }

  lemma GrowOldCursor(s: Sys, s': Sys, pkt: Packet, c: Consumer)
    requires Shape(s) && Grown(s, s', pkt) && Shape(s')
    requires ConsInRange(s.pool, c) && OldCursorOk(s, c) && s.low <= c.lastSeq <= |s.log| && c.lastSeq > 0
    ensures ConsInRange(s'.pool, c) && OldCursorOk(s', c)
  {
    assert Linked(s.pool, s.number, s.at, |s.log|, c.lastReadPos);
    assert Kept(s', c.lastSeq) <==> Kept(s, c.lastSeq);
  }

  lemma GrowReaders(s: Sys, s': Sys, pkt: Packet)
    requires Core(s) && Grown(s, s', pkt) && Shape(s') && |s.log| > 0
    ensures ReadersOk(s')
  {
    forall id | id in s.readers
      ensures GotOk(s.readers[id], s'.log) && CursorOk(s', s.readers[id])
    {
      var r := s.readers[id];
      LongerLogKeepsGot(r, s.log, pkt);
      if r.got == [] {
        GrowNewCursor(s, s', pkt, r);
      } else {
        GrowOldCursor(s, s', pkt, r.cons);
      }
    }
  }

  lemma GrowRefs(s: Sys, s': Sys, pkt: Packet)
    requires Shape(s) && RefsOk(s) && Grown(s, s', pkt)
    requires |Waiting(s.readers, |s.log| + 1)| <= s.pool.refs
    ensures RefsOk(s')
  {
    assert Waiting(s.readers, 0) == {};
  }

  lemma GrownKeepsShape(s: Sys, s': Sys, pkt: Packet)
    requires Shape(s) && JoinOk(s) && Grown(s, s', pkt) && MustGrow(s)
    ensures Shape(s') && |s.log| > 0
  {
    var mid := ReserveGrowing(s, []);
    GrowingSplices(s, []);
    SplicedKeepsShape(s, mid);
    GrownInTwoSteps(s, mid, s', pkt);
    RotatedKeepsShape(mid, s', pkt);
  }

  lemma GrownKeepsInv(s: Sys, s': Sys, pkt: Packet)
    requires Inv(s) && MustGrow(s) && Grown(s, s', pkt)
    ensures Inv(s')
  {
    GrownKeepsShape(s, s', pkt);
    GrowReaders(s, s', pkt);
    EveryoneWaits(s, |s.log| + 1);
    GrowRefs(s, s', pkt);
  }

  lemma ProduceKeepsInv(s: Sys, pkt: Packet)
    requires Inv(s)
    ensures Inv(Produce(s, pkt))
  {
    AfterWritePos(s);
    if MustGrow(s) {
      GrowingGrows(s, pkt);
      GrownKeepsInv(s, ProduceGrowing(s, pkt), pkt);
    } else {
      InPlaceRotates(s, pkt);
      RotatedKeepsInv(s, ProduceInPlace(s, pkt), pkt);
    }
  }
}
