/** Whole runs of the bufferpool: reading in order, growth, and where new consumers start. */
module PoolRuns {
  import opened PoolModel
  import opened PoolProofs
  import opened PoolReserve
  import opened PoolSteps
  import opened PoolOrder

  /** No page is ever added while a registered consumer has read everything. */
  ghost predicate Orderly(n: nat, ops: seq<Op>)
    requires n >= 2 && Safe(n, ops)
    decreases |ops|
  {
    ops == [] ||
    (var p, op := Run(n, ops[..|ops| - 1]), ops[|ops| - 1];
     Orderly(n, ops[..|ops| - 1]) && (Grows(p, op) ==> !SomeoneCaughtUp(p)))
  }

  /** The call adds a page. */
  ghost predicate Grows(s: Sys, op: Op)
    requires Shape(s)
  {
    (op.Write? || op.GetSlot?) && MustGrow(s)
  }

  lemma StepKeepsOrder(s: Sys, op: Op)
    requires Inv(s) && StepSafe(s, op) && InOrder(s) && (Grows(s, op) ==> !SomeoneCaughtUp(s))
    ensures Inv(Step(s, op)) && InOrder(Step(s, op))
  {
    StepKeepsInv(s, op);
    match op
    case GetSlot(data) => ReserveKeepsOrder(s, data);
    case Write(pkt) => WriteKeepsOrder(s, pkt);
    case Register(id) => if id !in s.readers { JoinKeepsOrder(s, id); }
    case GotReader(id) => if id in s.readers { ReadKeepsOrder(s, id); }
    case Unregister(id) => if id in s.readers { LeaveKeepsOrder(s, id); }
  }

  lemma {:induction false} OrderlyRunInOrder(n: nat, ops: seq<Op>)
    requires n >= 2 && Safe(n, ops) && Orderly(n, ops)
    ensures InOrder(Run(n, ops))
    decreases |ops|
  {
    if ops == [] {
      assert forall k :: Waiting(Init(n).readers, k) == {};
    } else {
      OrderlyRunInOrder(n, ops[..|ops| - 1]);
      StepKeepsOrder(Run(n, ops[..|ops| - 1]), ops[|ops| - 1]);
    }
  }

  function Packets(got: seq<Delivery>): seq<Packet> {
    seq(|got|, i requires 0 <= i < |got| => got[i].pkt)
  }

  lemma ConsecutiveIsSlice(r: Reader, log: seq<Packet>)
    requires GotOk(r, log) && Consecutive(r)
    ensures r.start <= r.Cur() <= |log| && Packets(r.got) == log[r.start..r.Cur()]
  {
    assert r.Cur() == r.start + |r.got|;
  }

  /**
   The pool is a log with one cursor per consumer: in every orderly run each registered consumer
   has read exactly the packets written from its join point on, in order, without gap or repeat,
   and every slot is referenced once for each consumer that has still to read it.
   */
  lemma ReadsAreTheLog(n: nat, ops: seq<Op>, id: nat)
    requires n >= 2 && Safe(n, ops) && Orderly(n, ops) && id in Run(n, ops).readers
    ensures var s, r := Run(n, ops), Run(n, ops).readers[id];
            && r.start <= r.Cur() <= |s.log|
            && Packets(r.got) == s.log[r.start..r.Cur()]
    ensures Exact(Run(n, ops))
  {
    OrderlyRunInOrder(n, ops);
    var s, r := Run(n, ops), Run(n, ops).readers[id];
    assert GotOk(r, s.log) && Consecutive(r);
    ConsecutiveIsSlice(r, s.log);
  }

  // ---------------------------------------------------------------- two ways to be orderly

  /** At most one consumer is registered at any time. */
  ghost predicate OneAtATime(n: nat, ops: seq<Op>)
    requires n >= 2 && Safe(n, ops)
    decreases |ops|
  {
    |Run(n, ops).readers| <= 1 && (ops == [] || OneAtATime(n, ops[..|ops| - 1]))
  }

  lemma SoleWaiter(readers: map<nat, Reader>, id: nat, k: nat)
    requires |readers| <= 1 && id in readers && |Waiting(readers, k)| > 0
    ensures readers[id].Cur() < k
  {
    var m :| m in Waiting(readers, k);
    if m != id {
      SubsetSize({m, id}, readers.Keys);
    }
  }

  /** With one consumer in order, a page is added only when all slots are unread. */
  lemma OnlyReaderLags(s: Sys, id: nat)
    requires Inv(s) && InOrder(s) && |s.readers| <= 1 && MustGrow(s) && id in s.readers
    ensures s.readers[id].Cur() == |s.log| - |s.pool.slots| && s.readers[id].Cur() < |s.log|
  {
    var k := s.pool.slots[First(s)].slotSeq;
    assert |Waiting(s.readers, k)| > 0;
    SoleWaiter(s.readers, id, k);
    assert CursorOk(s, s.readers[id]);
    FirstReferenced(s);
  }

  lemma FirstReferenced(s: Sys)
    requires Shape(s) && MustGrow(s)
    ensures s.pool.slots[First(s)].slotSeq == |s.log| - |s.pool.slots| + 1 && s.low == |s.log| - |s.pool.slots|
  {
    AfterWritePos(s);
    assert Filled(s, First(s));
  }

  lemma {:induction false} SubsetSize(a: set<nat>, b: set<nat>)
    requires a <= b
    ensures |a| <= |b|
    decreases a
  {
    if a != {} {
      var x :| x in a;
      SubsetSize(a - {x}, b - {x});
    }
  }

  /** With one consumer at a time every run is orderly, however often pages are added. */
  lemma {:induction false} OneAtATimeIsOrderly(n: nat, ops: seq<Op>)
    requires n >= 2 && Safe(n, ops) && OneAtATime(n, ops)
    ensures Orderly(n, ops)
    decreases |ops|
  {
    if ops != [] {
      OneAtATimeIsOrderly(n, ops[..|ops| - 1]);
      OrderlyRunInOrder(n, ops[..|ops| - 1]);
      var p := Run(n, ops[..|ops| - 1]);
      if MustGrow(p) && SomeoneCaughtUp(p) {
        var id :| id in p.readers && p.readers[id].Cur() == |p.log|;
        OnlyReaderLags(p, id);
      }
    }
  }

  lemma StepGrows(s: Sys, op: Op)
    requires Inv(s) && StepSafe(s, op)
    ensures |Step(s, op).pool.slots| == |s.pool.slots| + if Grows(s, op) then PAGE else 0
  {
    match op
    case GetSlot(data) => var _ := ReservedState(s, data);
    case Write(pkt) => AfterWritePos(s);
    case Register(id) =>
    case GotReader(id) => ConsumerKeepsRing(s, op);
    case Unregister(id) => ConsumerKeepsRing(s, op);
  }

  lemma {:induction false} NeverShrinks(n: nat, ops: seq<Op>)
    requires n >= 2 && Safe(n, ops)
    ensures |Run(n, ops).pool.slots| >= n
    decreases |ops|
  {
    if ops != [] {
      NeverShrinks(n, ops[..|ops| - 1]);
      StepGrows(Run(n, ops[..|ops| - 1]), ops[|ops| - 1]);
    }
  }

  /** With any number of consumers, a run that adds no page is orderly. */
  lemma {:induction false} NoGrowthIsOrderly(n: nat, ops: seq<Op>)
    requires n >= 2 && Safe(n, ops) && |Run(n, ops).pool.slots| == n
    ensures Orderly(n, ops)
    decreases |ops|
  {
    if ops != [] {
      StepGrows(Run(n, ops[..|ops| - 1]), ops[|ops| - 1]);
      NeverShrinks(n, ops[..|ops| - 1]);
      NoGrowthIsOrderly(n, ops[..|ops| - 1]);
    }
  }

  // ---------------------------------------------------------------- growth

  /** No registered consumer is ever more than `b` packets behind. */
  ghost predicate BacklogAtMost(n: nat, ops: seq<Op>, b: nat)
    requires n >= 2 && Safe(n, ops)
    decreases |ops|
  {
    && (forall id :: id in Run(n, ops).readers ==> |Run(n, ops).log| - Run(n, ops).readers[id].Cur() <= b)
    && (ops == [] || BacklogAtMost(n, ops[..|ops| - 1], b))
  }

  /** Every page was added by a write, and so was written to at once. */
  ghost predicate GrowthCommitted(n: nat, ops: seq<Op>)
    requires n >= 2 && Safe(n, ops)
    decreases |ops|
  {
    ops == [] ||
    (var p, op := Run(n, ops[..|ops| - 1]), ops[|ops| - 1];
     GrowthCommitted(n, ops[..|ops| - 1]) && !(op.GetSlot? && MustGrow(p)))
  }

  /**
   With one consumer at a time the pool has at most 9 slots more than the largest backlog, and at
   most 8 if every page that was added was written to at once.
   */
  lemma {:induction false} GrowthBound(n: nat, ops: seq<Op>, b: nat)
    requires n >= 2 && Safe(n, ops) && OneAtATime(n, ops) && BacklogAtMost(n, ops, b)
    ensures var size := |Run(n, ops).pool.slots|;
            && size <= (if b + 9 > n then b + 9 else n)
            && (GrowthCommitted(n, ops) ==> size <= if b + 8 > n then b + 8 else n)
    decreases |ops|
  {
    if ops != [] {
      var p, op := Run(n, ops[..|ops| - 1]), ops[|ops| - 1];
      GrowthBound(n, ops[..|ops| - 1], b);
      StepGrows(p, op);
      if Grows(p, op) {
        FullBacklog(n, ops[..|ops| - 1], op, b);
      }
    }
  }

  /** When a page is added the only consumer has not read any slot. */
  lemma FullBacklog(n: nat, ops: seq<Op>, op: Op, b: nat)
    requires n >= 2 && Safe(n, ops) && OneAtATime(n, ops) && BacklogAtMost(n, ops, b)
    requires StepSafe(Run(n, ops), op) && Grows(Run(n, ops), op)
    requires var s := Step(Run(n, ops), op); forall id :: id in s.readers ==> |s.log| - s.readers[id].Cur() <= b
    ensures |Run(n, ops).pool.slots| + (if op.Write? then 1 else 0) <= b
  {
    var p := Run(n, ops);
    OneAtATimeIsOrderly(n, ops);
    OrderlyRunInOrder(n, ops);
    ReferencedHasReader(p);
    var id :| id in p.readers;
    OnlyReaderLags(p, id);
    assert id in Step(p, op).readers;
  }

  /** The larger bound is reached by every page that is added and not written to. */
  lemma AbandonedPage(n: nat, ops: seq<Op>, data: seq<bv8>, id: nat)
    requires n >= 2 && Safe(n, ops) && OneAtATime(n, ops) && id in Run(n, ops).readers
    requires MustGrow(Run(n, ops))
    ensures var s := Run(n, ops); |Step(s, GetSlot(data)).pool.slots| == |s.log| - s.readers[id].Cur() + 9
  {
    OneAtATimeIsOrderly(n, ops);
    OrderlyRunInOrder(n, ops);
    OnlyReaderLags(Run(n, ops), id);
    StepGrows(Run(n, ops), GetSlot(data));
  }

  lemma ReferencedHasReader(s: Sys)
    requires Inv(s) && InOrder(s) && MustGrow(s)
    ensures s.readers != map[]
  {
    var k := s.pool.slots[First(s)].slotSeq;
    assert Waiting(s.readers, k) != {};
    var m :| m in Waiting(s.readers, k);
  }

  // ---------------------------------------------------------------- where new consumers start

  lemma {:induction false} NextStartIsFirst(log: seq<Packet>, k: nat)
    requires 2 <= k <= |log|
    ensures var r := NextStart(log, k);
            && (r == |log| || log[r - 1].timestamp != log[r - 2].timestamp)
            && forall i :: k - 1 <= i < r - 1 ==> log[i].timestamp == log[k - 2].timestamp
    decreases |log| - k
  {
    if k < |log| && Continues(log, k) {
      NextStartIsFirst(log, k + 1);
    }
  }

  /**
   When the slot at the join point is about to be reused, the join point moves to the first later
   packet with another timestamp, or to the newest packet, and never stays on that slot.
   */
  ghost predicate StartsFrame(s: Sys, s': Sys)
    requires s.pool.writePos < |s.pool.slots|
  {
    && 1 <= s.joinSeq < s'.joinSeq <= |s.log|
    && s'.pool.validReadPos != s.pool.slots[s.pool.writePos].next
    && s'.pool.validReadPos < |s.pool.slots|
    && s.pool.slots[s'.pool.validReadPos].slotSeq == s'.joinSeq
    && (s'.joinSeq == |s.log| || s.log[s'.joinSeq - 1].timestamp != s.log[s'.joinSeq - 2].timestamp)
    && forall i :: s.joinSeq <= i < s'.joinSeq - 1 ==> s.log[i].timestamp == s.log[s.joinSeq - 1].timestamp
  }

  lemma RotatedStartsFrame(s: Sys, s': Sys, pkt: Packet)
    requires Shape(s) && JoinOk(s) && Rotated(s, s', pkt) && MustPush(s)
    ensures StartsFrame(s, s')
  {
    AfterWritePos(s);
    NextStartIsFirst(s.log, s.joinSeq + 1);
    HeldSlot(s, s'.joinSeq);
  }

  /** The next reservation reuses the slot at the join point. */
  predicate ReusesJoin(s: Sys) {
    && |s.log| > 0 && s.pool.writePos < |s.pool.slots| && s.pool.validReadPos < |s.pool.slots|
    && s.pool.slots[s.pool.writePos].next == s.pool.validReadPos && s.pool.slots[s.pool.validReadPos].refs == 0
  }

  lemma JoinStartsFrame(s: Sys, pkt: Packet)
    requires Inv(s) && ReusesJoin(s)
    ensures StartsFrame(s, Produce(s, pkt))
  {
    AfterWritePos(s);
    InPlaceRotates(s, pkt);
    RotatedStartsFrame(s, Produce(s, pkt), pkt);
  }

  /**
   The join point moves only if its slot is about to be reused, and only forward, past packets with
   its own timestamp to a packet that has another one, or to the newest packet.
   */
  ghost predicate JoinMoves(s: Sys, s': Sys) {
    && s.log <= s'.log
    && (s'.joinSeq == s.joinSeq
        || (&& ReusesJoin(s) && 0 < s.joinSeq < s'.joinSeq <= |s.log|
            && (s'.joinSeq == |s.log| || s.log[s'.joinSeq - 1].timestamp != s.log[s'.joinSeq - 2].timestamp)
            && forall i :: s.joinSeq <= i < s'.joinSeq - 1 ==> s.log[i].timestamp == s.log[s.joinSeq - 1].timestamp))
  }

  lemma PushedJoinMoves(s: Sys, s': Sys)
    requires Shape(s) && JoinOk(s) && s.pool.validReadPos < |s.pool.slots| && !MustGrow(s)
    requires s.log <= s'.log && s'.joinSeq == PushedJoin(s)
    ensures JoinMoves(s, s')
  {
    AfterWritePos(s);
    if MustPush(s) && 1 <= s.joinSeq < |s.log| {
      NextStartIsFirst(s.log, s.joinSeq + 1);
    }
  }

  lemma WriteMovesJoin(s: Sys, pkt: Packet)
    requires Inv(s)
    ensures JoinMoves(s, Produce(s, pkt))
  {
    if !MustGrow(s) {
      InPlaceRotates(s, pkt);
      PushedJoinMoves(s, Produce(s, pkt));
    }
  }

  lemma ReserveMovesJoin(s: Sys, data: seq<bv8>)
    requires Inv(s)
    ensures JoinMoves(s, Reserve(s, data))
  {
    if !MustGrow(s) {
      InPlacePushes(s, data);
      PushedJoinMoves(s, Reserve(s, data));
    }
  }

  lemma StepMovesJoin(s: Sys, op: Op)
    requires Inv(s) && StepSafe(s, op)
    ensures JoinMoves(s, Step(s, op))
  {
    match op
    case Write(pkt) => WriteMovesJoin(s, pkt);
    case GetSlot(data) => ReserveMovesJoin(s, data);
    case Register(id) =>
    case GotReader(id) => ConsumerKeepsRing(s, op);
    case Unregister(id) => ConsumerKeepsRing(s, op);
  }

  /** The join point is where it was last moved to, and that was the newest packet at the time. */
  ghost predicate MovedToNewest(n: nat, ops: seq<Op>)
    requires n >= 2 && Safe(n, ops)
    decreases |ops|
  {
    ops != [] &&
    (var p, s := Run(n, ops[..|ops| - 1]), Run(n, ops);
     if s.joinSeq != p.joinSeq then s.joinSeq == |p.log| else MovedToNewest(n, ops[..|ops| - 1]))
  }

  /** The join point is the first packet, starts a timestamp, or was moved to the newest packet. */
  ghost predicate StartOk(s: Sys, movedToNewest: bool) {
    if |s.log| == 0 then s.joinSeq == 1
    else
      && 1 <= s.joinSeq <= |s.log|
      && (s.joinSeq == 1 || movedToNewest || s.log[s.joinSeq - 1].timestamp != s.log[s.joinSeq - 2].timestamp)
  }

  lemma MoveKeepsStart(p: Sys, s: Sys, before: bool, after: bool)
    requires StartOk(p, before) && JoinMoves(p, s)
    requires after == if s.joinSeq != p.joinSeq then s.joinSeq == |p.log| else before
    ensures StartOk(s, after)
  {
  }

  /**
   In every run a consumer that joins starts at the very first packet, at the start of a timestamp,
   or at a packet that was the newest when the join point moved there.
   */
  lemma {:induction false} JoinPoint(n: nat, ops: seq<Op>)
    requires n >= 2 && Safe(n, ops)
    ensures StartOk(Run(n, ops), MovedToNewest(n, ops))
    ensures forall id :: id !in Run(n, ops).readers ==>
              Join(Run(n, ops), id).readers[id].start + 1 == Run(n, ops).joinSeq
    decreases |ops|
  {
    if ops != [] {
      var prefix, op := ops[..|ops| - 1], ops[|ops| - 1];
      JoinPoint(n, prefix);
      StepMovesJoin(Run(n, prefix), op);
      MoveKeepsStart(Run(n, prefix), Run(n, ops), MovedToNewest(n, prefix), MovedToNewest(n, ops));
    }
  }

  // ---------------------------------------------------------------- the ring

  /** The slot `k` links after slot `i`. */
  function Walk(p: Pool, i: nat, k: nat): (r: nat)
    requires InRange(p) && i < |p.slots|
    ensures r < |p.slots|
  {
    if k == 0 then i else p.slots[Walk(p, i, k - 1)].next
  }

  lemma {:induction false} WalkIs(s: Sys, k: nat)
    requires Shape(s) && InRange(s.pool) && k <= |s.pool.slots|
    ensures var m := if k == 0 then |s.log| else |s.log| - |s.pool.slots| + k;
            m in s.at && Walk(s.pool, s.pool.writePos, k) == s.at[m]
  {
    if k > 0 {
      WalkIs(s, k - 1);
      assert Linked(s.pool, s.number, s.at, |s.log|, Walk(s.pool, s.pool.writePos, k - 1));
    }
  }

  /**
   The `k`-th slot after the write position is free or holds the packet of its number; a free slot
   was never written, unless it is the very next one.
   */
  ghost predicate InPlace(s: Sys, k: nat)
    requires InRange(s.pool) && s.pool.writePos < |s.pool.slots|
  {
    var slot, seqno := s.pool.slots[Walk(s.pool, s.pool.writePos, k)], |s.log| - |s.pool.slots| + k;
    if seqno <= s.low then slot.refs == 0 && (slot.slotSeq == 0 || (k == 1 && slot.slotSeq == seqno))
    else slot.slotSeq == seqno <= |s.log| && slot.pkt == s.log[seqno - 1]
  }

  lemma WalkInPlace(s: Sys, k: nat)
    requires Shape(s) && InRange(s.pool) && 1 <= k <= |s.pool.slots|
    ensures InPlace(s, k)
  {
    WalkIs(s, k);
    var i := Walk(s.pool, s.pool.writePos, k);
    assert s.number[i] == |s.log| - |s.pool.slots| + k;
    assert Filled(s, i);
  }

  lemma WalkDiffers(s: Sys, j: nat, k: nat)
    requires Shape(s) && InRange(s.pool) && 1 <= j < k <= |s.pool.slots|
    ensures Walk(s.pool, s.pool.writePos, j) != Walk(s.pool, s.pool.writePos, k)
  {
    WalkIs(s, j);
    WalkIs(s, k);
  }

  /**
   In every run `next` is one cycle through all slots: walked from the one after the write position
   they are never-written slots, then the newest packets in order, up to the write position.
   */
  lemma RingShape(n: nat, ops: seq<Op>, k: nat, j: nat)
    requires n >= 2 && Safe(n, ops) && 1 <= k <= |Run(n, ops).pool.slots|
    ensures var s := Run(n, ops);
            var p, size := s.pool, |s.pool.slots|;
            && InRange(p) && s.low <= |s.log| <= s.low + size
            && InPlace(s, k)
            && (Walk(p, p.writePos, k) == p.writePos <==> k == size)
            && (1 <= j < k ==> Walk(p, p.writePos, j) != Walk(p, p.writePos, k))
  {
    var s := Run(n, ops);
    ShapeInRange(s);
    WalkInPlace(s, k);
    WalkIs(s, |s.pool.slots|);
    if k < |s.pool.slots| {
      WalkDiffers(s, k, |s.pool.slots|);
    }
    if 1 <= j < k {
      WalkDiffers(s, j, k);
    }
  }
}
