/** Joining, reading and leaving keep `PoolModel.Inv`; runs of the pool. */
module PoolSteps {
  import opened PoolModel
  import opened PoolProofs
  import opened PoolReserve

  // ---------------------------------------------------------------- reference counts only

  /** The two pools differ in reference counts at most. */
  ghost predicate SameButRefs(p: Pool, p': Pool) {
    && |p'.slots| == |p.slots| && p'.writePos == p.writePos && p'.validReadPos == p.validReadPos
    && forall j :: 0 <= j < |p.slots| ==>
         && p'.slots[j].slotSeq == p.slots[j].slotSeq && p'.slots[j].pkt == p.slots[j].pkt
         && p'.slots[j].next == p.slots[j].next
  }

  ghost predicate SameRing(s: Sys, s': Sys) {
    && s'.number == s.number && s'.at == s.at && s'.low == s.low && s'.joinSeq == s.joinSeq && s'.log == s.log
    && SameButRefs(s.pool, s'.pool)
    && forall j :: 0 <= j < |s.pool.slots| && j < |s.number| && s.number[j] <= s.low ==>
         s'.pool.slots[j].refs == s.pool.slots[j].refs
  }

  lemma SameRingKeepsLinks(s: Sys, s': Sys)
    requires Shape(s) && SameRing(s, s')
    ensures RingOk(s'.pool, s'.number, s'.at, |s'.log|)
  {
    forall j | 0 <= j < |s.pool.slots| ensures Linked(s'.pool, s'.number, s'.at, |s'.log|, j) {
      assert Linked(s.pool, s.number, s.at, |s.log|, j);
    }
  }

  lemma SameRingKeepsShape(s: Sys, s': Sys)
    requires Shape(s) && SameRing(s, s')
    ensures Shape(s')
  {
    SameRingKeepsLinks(s, s');
    forall j | 0 <= j < |s.pool.slots| ensures Filled(s', j) {
      assert Filled(s, j);
    }
  }

  lemma SameRingKeepsCursor(s: Sys, s': Sys, r: Reader)
    requires Shape(s) && SameRing(s, s') && Shape(s') && CursorOk(s, r)
    ensures CursorOk(s', r)
  {
    if r.got != [] {
      assert Linked(s.pool, s.number, s.at, |s.log|, r.cons.lastReadPos);
    }
  }

  /** Whether a consumer is blind does not depend on reference counts. */
  lemma SameBlind(p: Pool, p': Pool, c: Consumer)
    requires p.writePos < |p.slots| && SameButRefs(p, p')
    ensures Blind(p', c) <==> Blind(p, c)
  {
  }

  lemma SameRingTwice(a: Sys, b: Sys, c: Sys)
    requires SameRing(a, b) && SameRing(b, c)
    ensures SameRing(a, c)
  {
  }

  lemma SameRingKeepsReserved(s: Sys, s': Sys)
    requires Shape(s) && SameRing(s, s') && Reserved(s)
    ensures Shape(s') && Reserved(s') && First(s') == First(s)
  {
    SameRingKeepsShape(s, s');
    AfterWritePos(s);
    assert Filled(s, First(s));
  }

  // ---------------------------------------------------------------- join

  lemma JoinKeepsCore(s: Sys, id: nat)
    requires Core(s) && id !in s.readers
    ensures Core(Join(s, id))
  {
    var s' := Join(s, id);
    JoinSameRing(s, id);
    SameRingKeepsShape(s, s');
    JoinReaders(s, s', id);
    JoinRefs(s, id);
  }

  lemma JoinKeepsInv(s: Sys, id: nat)
    requires Inv(s) && id !in s.readers
    ensures Inv(Join(s, id))
  {
    JoinKeepsCore(s, id);
  }

  lemma JoinReaders(s: Sys, s': Sys, id: nat)
    requires Core(s) && id !in s.readers && s' == Join(s, id) && SameRing(s, s') && Shape(s')
    ensures ReadersOk(s')
  {
    forall m | m in s'.readers ensures GotOk(s'.readers[m], s'.log) && CursorOk(s', s'.readers[m]) {
      if m != id {
        SameRingKeepsCursor(s, s', s.readers[m]);
      } else {
        JoinedCursor(s, s', id);
      }
    }
  }

  lemma JoinSameRing(s: Sys, id: nat)
    requires Shape(s) && JoinOk(s) && id !in s.readers
    ensures SameRing(s, Join(s, id))
  {
  }

  lemma JoinedCursor(s: Sys, s': Sys, id: nat)
    requires Shape(s) && JoinOk(s) && s.pool.validReadPos < |s.pool.slots| && id !in s.readers && s' == Join(s, id)
             && Shape(s')
    ensures GotOk(s'.readers[id], s'.log) && CursorOk(s', s'.readers[id])
  {
  }

  lemma JoinRefs(s: Sys, id: nat)
    requires Shape(s) && JoinOk(s) && RefsOk(s) && id !in s.readers
    ensures RefsOk(Join(s, id))
  {
    var s' := Join(s, id);
    forall j | 0 <= j < |s.pool.slots|
      ensures s'.pool.slots[j].refs >= |Waiting(s'.readers, s'.pool.slots[j].slotSeq)|
    {
      WaitingJoined(s.readers, id, s'.readers[id], s.pool.slots[j].slotSeq);
      assert Filled(s, j);
    }
  }

  lemma WaitingJoined(readers: map<nat, Reader>, id: nat, r: Reader, k: nat)
    requires id !in readers
    ensures |Waiting(readers[id := r], k)| == |Waiting(readers, k)| + if r.Cur() < k then 1 else 0
  {
    if r.Cur() < k {
      assert Waiting(readers[id := r], k) == Waiting(readers, k) + {id};
    } else {
      assert Waiting(readers[id := r], k) == Waiting(readers, k);
    }
  }

  // ---------------------------------------------------------------- read

  /** A slot that a registered consumer has still to read is referenced. */
  lemma UnreadReferenced(s: Sys, id: nat, j: nat)
    requires RefsOk(s) && id in s.readers && j < |s.pool.slots| && s.readers[id].Cur() < s.pool.slots[j].slotSeq
    ensures s.pool.slots[j].refs > 0
  {
    assert id in Waiting(s.readers, s.pool.slots[j].slotSeq);
  }

  /** The slot linked after the last one read holds an unread packet, if there is one. */
  lemma SuccessorUnread(s: Sys, c: Consumer)
    requires Shape(s) && ConsInRange(s.pool, c) && OldCursorOk(s, c) && s.low <= c.lastSeq < |s.log|
    requires !Blind(s.pool, c)
    ensures s.pool.slots[c.lastReadPos].next < |s.pool.slots|
    ensures s.pool.slots[s.pool.slots[c.lastReadPos].next].slotSeq > c.lastSeq
    ensures Kept(s, c.lastSeq) ==> s.pool.slots[s.pool.slots[c.lastReadPos].next].slotSeq == c.lastSeq + 1
  {
    assert Linked(s.pool, s.number, s.at, |s.log|, c.lastReadPos);
    if Kept(s, c.lastSeq) {
      HeldSlot(s, c.lastSeq + 1);
    }
  }

  /** No slot holds the packet that was read last, except the slot it was read from. */
  lemma ReadPosDiffers(s: Sys, c: Consumer)
    requires Shape(s) && ConsInRange(s.pool, c) && OldCursorOk(s, c) && c.lastSeq > 0
    ensures s.pool.slots[c.readPos].slotSeq != c.lastSeq
  {
    assert Filled(s, c.readPos);
  }

  /** Nothing selected means nothing unread, and a slot selected holds a packet newer than `cur`. */
  ghost predicate FindsUnread(s: Sys, cur: nat, i: Option<nat>) {
    match i
    case None => cur == |s.log|
    case Some(i) => i < |s.pool.slots| && cur < s.pool.slots[i].slotSeq <= |s.log| && s.pool.slots[i].refs > 0
  }

  /**
   The read of a consumer that is not blind succeeds exactly when a packet is unread; it yields a
   referenced slot with a packet newer than all the consumer was given before.
   */
  lemma SelectUnread(s: Sys, id: nat)
    requires Core(s) && id in s.readers && !Blind(s.pool, s.readers[id].cons)
    ensures InRange(s.pool) && ConsInRange(s.pool, s.readers[id].cons)
    ensures FindsUnread(s, s.readers[id].Cur(), Select(s.pool, s.readers[id].cons))
  {
    ShapeInRange(s);
    var r := s.readers[id];
    var c := r.cons;
    assert GotOk(r, s.log) && CursorOk(s, r);
    assert Filled(s, c.readPos);
    if r.got == [] {
      if |s.log| > 0 {
        HeldSlot(s, r.start + 1);
        UnreadReferenced(s, id, c.readPos);
      }
    } else {
      SelectAfterRead(s, id);
    }
  }

  /** A consumer that has read everything finds nothing, as no slot is newer than the newest. */
  lemma SelectAtEnd(s: Sys, c: Consumer)
    requires Shape(s) && InRange(s.pool) && ConsInRange(s.pool, c) && OldCursorOk(s, c) && c.lastSeq == |s.log| > 0
    ensures FindsUnread(s, c.lastSeq, Select(s.pool, c))
  {
    ReadPosDiffers(s, c);
    NumbersBounded(s, c.readPos);
    NumbersBounded(s, s.pool.slots[c.lastReadPos].next);
  }

  /** A consumer that has not finds the slot after its last one, or an older unread one. */
  lemma SelectBehind(s: Sys, id: nat, c: Consumer)
    requires Shape(s) && RefsOk(s) && InRange(s.pool) && ConsInRange(s.pool, c) && OldCursorOk(s, c)
    requires id in s.readers && s.readers[id].Cur() == c.lastSeq && s.low <= c.lastSeq < |s.log| && c.lastSeq > 0
    requires !Blind(s.pool, c)
    ensures FindsUnread(s, c.lastSeq, Select(s.pool, c))
  {
    ReadPosDiffers(s, c);
    SuccessorUnread(s, c);
    var a := s.pool.slots[c.lastReadPos].next;
    UnreadReferenced(s, id, a);
    NumbersBounded(s, c.readPos);
    NumbersBounded(s, a);
  }

  lemma SelectAfterRead(s: Sys, id: nat)
    requires Shape(s) && ReadersOk(s) && RefsOk(s) && id in s.readers && s.readers[id].got != [] && InRange(s.pool)
    requires !Blind(s.pool, s.readers[id].cons)
    ensures ConsInRange(s.pool, s.readers[id].cons)
    ensures FindsUnread(s, s.readers[id].Cur(), Select(s.pool, s.readers[id].cons))
  {
    var r := s.readers[id];
    assert GotOk(r, s.log) && CursorOk(s, r);
    if r.Cur() == |s.log| {
      SelectAtEnd(s, r.cons);
    } else {
      SelectBehind(s, id, r.cons);
    }
  }

  /** Reading works for exactly the consumers that are not blind. */
  lemma ReadWorksIff(s: Sys, id: nat)
    requires Core(s) && id in s.readers
    ensures InRange(s.pool) && ConsInRange(s.pool, s.readers[id].cons)
    ensures FindsUnread(s, s.readers[id].Cur(), Select(s.pool, s.readers[id].cons)) <==>
              !Blind(s.pool, s.readers[id].cons)
  {
    AfterWritePos(s);
    if Blind(s.pool, s.readers[id].cons) {
      BlindReadsNothing(s, id);
    } else {
      SelectUnread(s, id);
    }
  }

  lemma NumbersBounded(s: Sys, j: nat)
    requires Shape(s) && j < |s.pool.slots|
    ensures s.pool.slots[j].slotSeq <= |s.log|
  {
    assert Filled(s, j);
  }

  /** `id` was given the packet in slot `i`; nothing else changed. */
  ghost predicate Taken(s: Sys, s': Sys, id: nat, i: nat)
    requires id in s.readers && i < |s.pool.slots|
  {
    var slot := s.pool.slots[i];
    && SameRing(s, s') && s'.pool.refs == s.pool.refs
    && slot.refs > 0 && s'.pool.slots[i].refs == slot.refs - 1
    && (forall j :: 0 <= j < |s.pool.slots| && j != i ==> s'.pool.slots[j].refs == s.pool.slots[j].refs)
    && s.readers[id].Cur() < slot.slotSeq <= |s.log|
    && id in s'.readers && s'.readers == s.readers[id := s'.readers[id]]
    && s'.readers[id].cons == Consumer(slot.next, i, slot.slotSeq)
    && s'.readers[id].start == s.readers[id].start
    && s'.readers[id].got == s.readers[id].got + [Delivery(slot.slotSeq, slot.pkt)]
  }

  lemma ReadTakes(s: Sys, id: nat)
    requires Core(s) && id in s.readers && !Blind(s.pool, s.readers[id].cons)
    ensures InRange(s.pool) && ConsInRange(s.pool, s.readers[id].cons)
    ensures match Select(s.pool, s.readers[id].cons)
            case None => s.readers[id].Cur() == |s.log| && Read(s, id) == s
            case Some(i) => i < |s.pool.slots| && Taken(s, Read(s, id), id, i)
  {
    SelectUnread(s, id);
  }

  lemma TakenGot(s: Sys, s': Sys, id: nat, i: nat)
    requires id in s.readers && i < |s.pool.slots| && Taken(s, s', id, i) && GotOk(s.readers[id], s.log)
    requires s.pool.slots[i].pkt == s.log[s.pool.slots[i].slotSeq - 1]
    ensures GotOk(s'.readers[id], s'.log) && s'.readers[id].Cur() == s.pool.slots[i].slotSeq
  {
  }

  /** After a read the consumer stands right behind the packet it was given. */
  lemma TakenCursor(s: Sys, s': Sys, id: nat, i: nat)
    requires Shape(s) && Shape(s') && id in s.readers && i < |s.pool.slots| && Taken(s, s', id, i)
    requires s'.readers[id].Cur() == s.pool.slots[i].slotSeq && s.readers[id].Cur() >= s.low
    ensures CursorOk(s', s'.readers[id])
  {
    assert Linked(s.pool, s.number, s.at, |s.log|, i) && Filled(s, i);
    assert s.number[s.pool.slots[i].next] != s.number[i];
  }

  lemma WaitingRead(readers: map<nat, Reader>, id: nat, r: Reader, k: nat)
    requires id in readers && readers[id].Cur() <= r.Cur()
    ensures |Waiting(readers[id := r], k)| == |Waiting(readers, k)| - if readers[id].Cur() < k <= r.Cur() then 1 else 0
  {
    if readers[id].Cur() < k <= r.Cur() {
      assert Waiting(readers[id := r], k) == Waiting(readers, k) - {id};
    } else {
      assert Waiting(readers[id := r], k) == Waiting(readers, k);
    }
  }

  lemma TakenRefs(s: Sys, s': Sys, id: nat, i: nat)
    requires RefsOk(s) && id in s.readers && i < |s.pool.slots| && Taken(s, s', id, i)
    requires s'.readers[id].Cur() == s.pool.slots[i].slotSeq
    ensures RefsOk(s')
  {
    forall j | 0 <= j < |s'.pool.slots|
      ensures s'.pool.slots[j].refs >= |Waiting(s'.readers, s'.pool.slots[j].slotSeq)|
    {
      WaitingRead(s.readers, id, s'.readers[id], s.pool.slots[j].slotSeq);
    }
  }

  lemma TakenReaders(s: Sys, s': Sys, id: nat, i: nat)
    requires Shape(s) && ReadersOk(s) && Shape(s') && id in s.readers && i < |s.pool.slots| && Taken(s, s', id, i)
    requires GotOk(s'.readers[id], s'.log) && CursorOk(s', s'.readers[id])
    ensures ReadersOk(s')
  {
    forall m | m in s'.readers ensures GotOk(s'.readers[m], s'.log) && CursorOk(s', s'.readers[m]) {
      if m != id {
        assert GotOk(s.readers[m], s.log);
        SameRingKeepsCursor(s, s', s.readers[m]);
      }
    }
  }

  /** The consumer itself after the read. */
  lemma TakenReader(s: Sys, s': Sys, id: nat, i: nat)
    requires Shape(s) && Shape(s') && id in s.readers && i < |s.pool.slots| && Taken(s, s', id, i)
    requires GotOk(s.readers[id], s.log) && s.readers[id].Cur() >= s.low
    ensures GotOk(s'.readers[id], s'.log) && CursorOk(s', s'.readers[id])
            && s'.readers[id].Cur() == s.pool.slots[i].slotSeq
  {
    assert Filled(s, i);
    TakenGot(s, s', id, i);
    TakenCursor(s, s', id, i);
  }

  lemma TakenKeepsReaders(s: Sys, s': Sys, id: nat, i: nat)
    requires Shape(s) && ReadersOk(s) && id in s.readers && i < |s.pool.slots| && Taken(s, s', id, i)
    ensures Shape(s') && ReadersOk(s') && s'.readers[id].Cur() == s.pool.slots[i].slotSeq
  {
    SameRingKeepsShape(s, s');
    assert GotOk(s.readers[id], s.log) && CursorOk(s, s.readers[id]);
    TakenReader(s, s', id, i);
    TakenReaders(s, s', id, i);
  }

  lemma TakenKeepsCore(s: Sys, s': Sys, id: nat, i: nat)
    requires Core(s) && id in s.readers && i < |s.pool.slots| && Taken(s, s', id, i)
    ensures Core(s') && s'.readers[id].Cur() == s.pool.slots[i].slotSeq
  {
    TakenKeepsReaders(s, s', id, i);
    TakenRefs(s, s', id, i);
  }

  /** Only the consumer `id` moved. */
  ghost predicate OnlyMoved(s: Sys, s': Sys, id: nat) {
    && id in s.readers && id in s'.readers && s'.readers == s.readers[id := s'.readers[id]]
    && s'.log == s.log && s'.pool.refs == s.pool.refs
  }

  /** Right after a read the consumer is not blind. */
  lemma TakenSees(s: Sys, s': Sys, id: nat, i: nat)
    requires Shape(s) && id in s.readers && i < |s.pool.slots| && Taken(s, s', id, i)
    ensures !Blind(s'.pool, s'.readers[id].cons)
  {
  }

  /** A read advances its consumer and nobody else; without an unread packet it does nothing. */
  lemma ReadKeepsCore(s: Sys, id: nat)
    requires Core(s) && id in s.readers && !Blind(s.pool, s.readers[id].cons)
    ensures InRange(s.pool) && ConsInRange(s.pool, s.readers[id].cons)
    ensures Core(Read(s, id)) && OnlyMoved(s, Read(s, id), id) && SameRing(s, Read(s, id))
    ensures !Blind(Read(s, id).pool, Read(s, id).readers[id].cons)
    ensures var s' := Read(s, id);
            if s.readers[id].Cur() == |s.log| then s' == s else s.readers[id].Cur() < s'.readers[id].Cur() <= |s.log|
  {
    ReadTakes(s, id);
    var s' := Read(s, id);
    match Select(s.pool, s.readers[id].cons)
    case None =>
    case Some(i) =>
      TakenKeepsCore(s, s', id, i);
      TakenSees(s, s', id, i);
  }

  // ---------------------------------------------------------------- leave

  lemma OnlyMovedTwice(a: Sys, b: Sys, c: Sys, id: nat)
    requires OnlyMoved(a, b, id) && OnlyMoved(b, c, id) && SameRing(a, b) && SameRing(b, c)
    ensures OnlyMoved(a, c, id) && SameRing(a, c)
  {
  }

  /** The drain loop of `OMSbuff_unref`: read until nothing is unread. */
  ghost function Drain(s: Sys, id: nat): (r: Sys)
    requires Core(s) && id in s.readers && !Blind(s.pool, s.readers[id].cons)
    ensures Core(r) && OnlyMoved(s, r, id) && SameRing(s, r) && r.readers[id].Cur() == |r.log|
    decreases |s.log| - s.readers[id].Cur()
  {
    ReadKeepsCore(s, id);
    if s.readers[id].Cur() == |s.log| then s
    else
      var r := Drain(Read(s, id), id);
      OnlyMovedTwice(s, Read(s, id), r, id);
      r
  }

  /** New packets no longer count the consumer that is leaving. */
  ghost function Uncount(s: Sys): (u: Sys)
    requires Inv(s) && |s.readers| > 0
    ensures Core(u) && SameRing(s, u) && u.readers == s.readers && u.pool.refs == |s.readers| - 1
  {
    var u := s.(pool := s.pool.(refs := s.pool.refs - 1));
    CountIrrelevant(s, u);
    u
  }

  lemma CountIrrelevant(s: Sys, u: Sys)
    requires Core(s) && SameRing(s, u) && u.pool.slots == s.pool.slots && u.readers == s.readers
    ensures Core(u)
  {
    SameRingKeepsShape(s, u);
    forall m | m in u.readers ensures GotOk(u.readers[m], u.log) && CursorOk(u, u.readers[m]) {
      SameRingKeepsCursor(s, u, s.readers[m]);
    }
  }

  /** The consumer is freed once nothing is unread. */
  ghost function Forget(d: Sys, id: nat): (f: Sys)
    requires Core(d) && id in d.readers && d.readers[id].Cur() == |d.log|
    ensures Core(f) && f.readers == d.readers - {id} && f.pool.refs == d.pool.refs && SameRing(d, f)
  {
    var f := d.(readers := d.readers - {id});
    ForgetReaders(d, f, id);
    ForgetRefs(d, f, id);
    f
  }

  lemma ForgetReaders(d: Sys, f: Sys, id: nat)
    requires Shape(d) && ReadersOk(d) && f == d.(readers := d.readers - {id})
    ensures Shape(f) && ReadersOk(f)
  {
    SameRingKeepsShape(d, f);
    forall m | m in f.readers ensures GotOk(f.readers[m], f.log) && CursorOk(f, f.readers[m]) {
      SameRingKeepsCursor(d, f, d.readers[m]);
    }
  }

  lemma ForgetRefs(d: Sys, f: Sys, id: nat)
    requires Shape(d) && RefsOk(d) && f == d.(readers := d.readers - {id})
    requires id in d.readers && d.readers[id].Cur() == |d.log|
    ensures RefsOk(f)
  {
    forall j | 0 <= j < |d.pool.slots| ensures d.pool.slots[j].refs >= |Waiting(f.readers, d.pool.slots[j].slotSeq)| {
      assert Filled(d, j);
      assert Waiting(f.readers, d.pool.slots[j].slotSeq) == Waiting(d.readers, d.pool.slots[j].slotSeq);
    }
  }

  /** `OMSbuff_unref`. */
  ghost function Leave(s: Sys, id: nat): (s': Sys)
    requires Inv(s) && id in s.readers && !Blind(s.pool, s.readers[id].cons)
    ensures Inv(s') && s'.readers == s.readers - {id} && SameRing(s, s')
  {
    FewerReaders(s.readers, id);
    var d := Drain(Uncount(s), id);
    SameOthers(s.readers, d.readers, id);
    var f := Forget(d, id);
    SameRingTwice(s, Uncount(s), d);
    SameRingTwice(s, d, f);
    f
  }

  lemma FewerReaders(readers: map<nat, Reader>, id: nat)
    requires id in readers
    ensures |readers - {id}| == |readers| - 1
  {
    assert (readers - {id}).Keys == readers.Keys - {id};
  }

  lemma SameOthers(readers: map<nat, Reader>, readers': map<nat, Reader>, id: nat)
    requires id in readers && id in readers' && readers' == readers[id := readers'[id]]
    ensures readers' - {id} == readers - {id}
  {
  }

  // ---------------------------------------------------------------- runs

  /** `GetSlot` is a reservation; `Write` is a reservation, if there is none, and a commit. */
  datatype Op =
    | GetSlot(data: seq<bv8>)
    | Write(pkt: Packet)
    | Register(id: nat)
    | GotReader(id: nat)
    | Unregister(id: nat)

  /** The call is not a read by a blind consumer. */
  ghost predicate StepSafe(s: Sys, op: Op)
    requires Shape(s)
  {
    (op.GotReader? || op.Unregister?) && op.id in s.readers ==> !Blind(s.pool, s.readers[op.id].cons)
  }

  /** One call; calls with an unknown or an already used consumer do nothing. */
  ghost function Step(s: Sys, op: Op): Sys
    requires Inv(s) && StepSafe(s, op)
  {
    match op
    case GetSlot(data) => Reserve(s, data)
    case Write(pkt) => Produce(s, pkt)
    case Register(id) => if id in s.readers then s else Join(s, id)
    case GotReader(id) => if id !in s.readers then s else ReadKeepsCore(s, id); Read(s, id)
    case Unregister(id) => if id !in s.readers then s else Leave(s, id)
  }

  lemma StepKeepsInv(s: Sys, op: Op)
    requires Inv(s) && StepSafe(s, op)
    ensures Inv(Step(s, op))
  {
    match op
    case GetSlot(data) => ReserveKeepsInv(s, data);
    case Write(pkt) => ProduceKeepsInv(s, pkt);
    case Register(id) => if id !in s.readers { JoinKeepsInv(s, id); }
    case GotReader(id) => if id in s.readers { ReadKeepsCore(s, id); }
    case Unregister(id) =>
  }

  /** No blind consumer reads in the run; `ReadWorksIff` shows that this is exact. */
  ghost predicate Safe(n: nat, ops: seq<Op>)
    requires n >= 2
    decreases |ops|, 0
  {
    ops == [] || (Safe(n, ops[..|ops| - 1]) && StepSafe(Run(n, ops[..|ops| - 1]), ops[|ops| - 1]))
  }

  /** The state after any safe sequence of calls on a new pool of `n` slots. */
  ghost function Run(n: nat, ops: seq<Op>): (s: Sys)
    requires n >= 2 && Safe(n, ops)
    ensures Inv(s)
    decreases |ops|, 1
  {
    if ops == [] then InitInv(n); Init(n)
    else
      var p, op := Run(n, ops[..|ops| - 1]), ops[|ops| - 1];
      StepKeepsInv(p, op);
      Step(p, op)
  }

  // ---------------------------------------------------------------- reservations in runs

  /** A slot was reserved and nothing committed since. */
  predicate Outstanding(ops: seq<Op>) {
    ops != [] && (ops[|ops| - 1].GetSlot? || (!ops[|ops| - 1].Write? && Outstanding(ops[..|ops| - 1])))
  }

  /** Consumers read and leave only when no reservation is outstanding. */
  predicate Patient(ops: seq<Op>) {
    ops == [] ||
    (var op, front := ops[|ops| - 1], ops[..|ops| - 1];
     Patient(front) && (op.GotReader? || op.Unregister? ==> !Outstanding(front)))
  }

  /** Calls by consumers change cursors and reference counts only. */
  lemma ConsumerKeepsRing(s: Sys, op: Op)
    requires Inv(s) && StepSafe(s, op) && !op.GetSlot? && !op.Write?
    ensures SameRing(s, Step(s, op))
  {
    match op
    case Register(id) => if id !in s.readers { JoinSameRing(s, id); }
    case GotReader(id) => if id in s.readers { ReadKeepsCore(s, id); }
    case Unregister(id) =>
  }

  /** The reader is as it was, or does not look at the slot at the write position. */
  ghost predicate Unmoved(s: Sys, s': Sys, id: nat)
    requires s'.pool.writePos < |s'.pool.slots|
  {
    id in s'.readers ==> (id in s.readers && s'.readers[id] == s.readers[id]) || !Blind(s'.pool, s'.readers[id].cons)
  }

  lemma ReadSees(s: Sys, m: nat, id: nat)
    requires Core(s) && m in s.readers && !Blind(s.pool, s.readers[m].cons)
    ensures InRange(s.pool) && ConsInRange(s.pool, s.readers[m].cons)
    ensures Read(s, m).pool.writePos < |Read(s, m).pool.slots| && Unmoved(s, Read(s, m), id)
  {
    ReadKeepsCore(s, m);
  }

  lemma JoinSees(s: Sys, m: nat, id: nat)
    requires m !in s.readers && s.pool.writePos < |s.pool.slots|
    ensures Unmoved(s, Join(s, m), id)
  {
  }

  /** A call by a consumer moves that consumer only, and not to where it would be blind. */
  lemma MovedSees(s: Sys, op: Op, id: nat)
    requires Inv(s) && StepSafe(s, op) && !op.GetSlot? && !op.Write?
    ensures Step(s, op).pool.writePos < |Step(s, op).pool.slots| && Unmoved(s, Step(s, op), id)
  {
    match op
    case Register(m) => if m !in s.readers { JoinSees(s, m, id); }
    case GotReader(m) => if m in s.readers { ReadSees(s, m, id); }
    case Unregister(m) =>
  }

  /** Nobody becomes blind by calls of consumers. */
  lemma ConsumerKeepsSight(s: Sys, op: Op, id: nat)
    requires Inv(s) && StepSafe(s, op) && Sighted(s) && !op.GetSlot? && !op.Write? && id in Step(s, op).readers
    ensures Step(s, op).pool.writePos < |Step(s, op).pool.slots|
    ensures !Blind(Step(s, op).pool, Step(s, op).readers[id].cons)
  {
    MovedSees(s, op, id);
    ConsumerKeepsRing(s, op);
    if id in s.readers && Step(s, op).readers[id] == s.readers[id] {
      SameBlind(s.pool, Step(s, op).pool, s.readers[id].cons);
    }
  }

  lemma StepKeepsSight(s: Sys, op: Op)
    requires Inv(s) && Sighted(s) && !op.GetSlot?
    ensures StepSafe(s, op) && Inv(Step(s, op)) && Sighted(Step(s, op))
  {
    if op.Write? {
      ProduceSights(s, op.pkt);
    } else {
      StepKeepsInv(s, op);
      forall id | id in Step(s, op).readers ensures !Blind(Step(s, op).pool, Step(s, op).readers[id].cons) {
        ConsumerKeepsSight(s, op, id);
      }
    }
  }

  /** Every run in which consumers wait for the commit is safe, and nobody is blind after one. */
  lemma {:induction false} PatientIsSafe(n: nat, ops: seq<Op>)
    requires n >= 2 && Patient(ops)
    ensures Safe(n, ops) && (!Outstanding(ops) ==> Sighted(Run(n, ops)))
    decreases |ops|
  {
    if ops != [] {
      var op, front := ops[|ops| - 1], ops[..|ops| - 1];
      PatientIsSafe(n, front);
      if op.Write? {
        ProduceSights(Run(n, front), op.pkt);
      } else if !Outstanding(front) && !op.GetSlot? {
        StepKeepsSight(Run(n, front), op);
      }
    }
  }
}
