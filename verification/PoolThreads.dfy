/**
 What other threads may do between the calls that one operation of the pool consists of: between
 reserving a slot and committing it, between looking at a slot and consuming it, and while a
 consumer that leaves reads what is left.
 */
module PoolThreads {
  import opened PoolModel
  import opened PoolProofs
  import opened PoolReserve
  import opened PoolSteps

  // ---------------------------------------------------------------- between reserving and committing

  lemma StepKeepsReserved(s: Sys, op: Op)
    requires Inv(s) && StepSafe(s, op) && Reserved(s) && !op.Write? && !op.GetSlot?
    ensures Shape(Step(s, op)) && Reserved(Step(s, op))
  {
    ConsumerKeepsRing(s, op);
    SameRingKeepsReserved(s, Step(s, op));
  }

  lemma {:induction false} OutstandingIsReserved(n: nat, ops: seq<Op>)
    requires n >= 2 && Safe(n, ops) && Outstanding(ops)
    ensures Reserved(Run(n, ops))
    decreases |ops|
  {
    var op, front := ops[|ops| - 1], ops[..|ops| - 1];
    if op.GetSlot? {
      ReserveReserves(Run(n, front), op.data);
    } else {
      OutstandingIsReserved(n, front);
      StepKeepsReserved(Run(n, front), op);
    }
  }

  /**
   Reserving and committing are two calls: whatever consumers do in between, the slot that was
   reserved stays the next one, and the write is only the commit to it.
   */
  lemma CommitsReserved(n: nat, ops: seq<Op>, pkt: Packet)
    requires n >= 2 && Safe(n, ops) && Outstanding(ops)
    ensures var s := Run(n, ops);
            && s.pool.writePos < |s.pool.slots| && s.pool.slots[s.pool.writePos].next < |s.pool.slots|
            && s.pool.slots[s.pool.slots[s.pool.writePos].next].refs == 0
            && Step(s, Write(pkt)).pool == Commit(s.pool, pkt)
  {
    OutstandingIsReserved(n, ops);
    ReservedCommits(Run(n, ops), [], pkt);
  }

  // ---------------------------------------------------------------- between looking and consuming


  /** Different reference counts, but not for a slot the consumer may be given. */
  ghost predicate SameChoice(p: Pool, p': Pool, c: Consumer, j: nat)
    requires j < |p.slots| == |p'.slots|
  {
    p.slots[j].slotSeq >= c.lastSeq ==> (p.slots[j].refs > 0 <==> p'.slots[j].refs > 0)
  }

  lemma SelectSame(p: Pool, p': Pool, c: Consumer)
    requires InRange(p) && ConsInRange(p, c) && SameButRefs(p, p') && SameChoice(p, p', c, c.readPos)
    requires c.lastReadPos >= 0 ==> SameChoice(p, p', c, p.slots[c.lastReadPos].next)
    ensures InRange(p') && ConsInRange(p', c) && Select(p', c) == Select(p, c)
  {
  }

  lemma JoinSameChoice(s: Sys, id: nat, m: nat, j: nat)
    requires RefsOk(s) && id in s.readers && m !in s.readers && j < |s.pool.slots|
    requires |s.log| > 0 && s.readers[id].cons.lastSeq <= s.pool.slots[j].slotSeq ==>
               s.readers[id].Cur() < s.pool.slots[j].slotSeq
    ensures SameChoice(s.pool, Join(s, m).pool, s.readers[id].cons, j)
  {
    if s.readers[id].Cur() < s.pool.slots[j].slotSeq {
      UnreadReferenced(s, id, j);
    }
  }

  /** Which slot a consumer gets does not depend on the references that a joining consumer adds. */
  lemma JoinKeepsSelect(s: Sys, id: nat, m: nat)
    requires Core(s) && id in s.readers && m !in s.readers && !Blind(s.pool, s.readers[id].cons)
    ensures InRange(s.pool) && ConsInRange(s.pool, s.readers[id].cons)
    ensures InRange(Join(s, m).pool) && ConsInRange(Join(s, m).pool, s.readers[id].cons)
    ensures Select(Join(s, m).pool, s.readers[id].cons) == Select(s.pool, s.readers[id].cons)
  {
    var r := s.readers[id];
    ShapeInRange(s);
    JoinSameRing(s, m);
    assert GotOk(r, s.log) && CursorOk(s, r);
    if r.got == [] {
      if |s.log| > 0 {
        HeldSlot(s, r.start + 1);
      }
    } else {
      ReadPosDiffers(s, r.cons);
      assert Linked(s.pool, s.number, s.at, |s.log|, r.cons.lastReadPos);
      NextDiffers(s, r.cons);
      JoinSameChoice(s, id, m, s.pool.slots[r.cons.lastReadPos].next);
    }
    JoinSameChoice(s, id, m, r.cons.readPos);
    SelectSame(s.pool, Join(s, m).pool, r.cons);
  }

  /** Nor does the slot after the last one read hold the packet that was read last. */
  lemma NextDiffers(s: Sys, c: Consumer)
    requires Shape(s) && ConsInRange(s.pool, c) && OldCursorOk(s, c) && c.lastSeq > 0
    ensures s.pool.slots[c.lastReadPos].next < |s.pool.slots|
    ensures s.pool.slots[s.pool.slots[c.lastReadPos].next].slotSeq != c.lastSeq
  {
    assert Linked(s.pool, s.number, s.at, |s.log|, c.lastReadPos);
    assert Filled(s, s.pool.slots[c.lastReadPos].next);
  }

  // ---------------------------------------------------------------- joining while a consumer leaves

  lemma JoinedReader(s: Sys, id: nat, m: nat)
    requires id in s.readers && m !in s.readers
    ensures id in Join(s, m).readers && Join(s, m).readers[id] == s.readers[id] && Join(s, m).log == s.log
  {
  }

  lemma TakeReferenced(p: Pool, from: nat, i: nat)
    requires i < |p.slots| && p.slots[i].refs > 0
    ensures Take(p.(slots := Referenced(p.slots, from)), i).slots == Referenced(Take(p, i).slots, from)
  {
  }

  lemma RegisterTwo(readers: map<nat, Reader>, id: nat, r: Reader, m: nat, newcomer: Reader)
    requires id != m
    ensures readers[id := r][m := newcomer] == readers[m := newcomer][id := r]
  {
  }

  /** A read and a join can be exchanged: the read is given the same slot. */
  lemma ReadsCommute(s: Sys, id: nat, m: nat)
    requires id in s.readers && m !in s.readers
    requires InRange(s.pool) && ConsInRange(s.pool, s.readers[id].cons)
    requires InRange(Join(s, m).pool) && ConsInRange(Join(s, m).pool, s.readers[id].cons)
    requires Select(Join(s, m).pool, s.readers[id].cons) == Select(s.pool, s.readers[id].cons)
    requires forall i :: Select(s.pool, s.readers[id].cons) == Some(i) ==>
               i < |s.pool.slots| && s.pool.slots[i].refs > 0
    ensures m !in Read(s, id).readers && Read(Join(s, m), id) == Join(Read(s, id), m)
  {
    match Select(s.pool, s.readers[id].cons)
    case None =>
    case Some(i) =>
      TakeReferenced(s.pool, s.joinSeq, i);
      RegisterTwo(s.readers, id, Read(s, id).readers[id], m, Join(s, m).readers[m]);
  }

  lemma JoinReadCommute(s: Sys, id: nat, m: nat)
    requires Core(s) && id in s.readers && m !in s.readers && !Blind(s.pool, s.readers[id].cons)
    ensures InRange(s.pool) && ConsInRange(s.pool, s.readers[id].cons)
    ensures InRange(Join(s, m).pool) && ConsInRange(Join(s, m).pool, s.readers[id].cons)
    ensures m !in Read(s, id).readers && Read(Join(s, m), id) == Join(Read(s, id), m)
  {
    JoinKeepsSelect(s, id, m);
    SelectUnread(s, id);
    ReadsCommute(s, id, m);
  }

  lemma {:induction false} JoinDrainCommute(s: Sys, id: nat, m: nat)
    requires Core(s) && id in s.readers && m !in s.readers && !Blind(s.pool, s.readers[id].cons)
    ensures Core(Join(s, m)) && !Blind(Join(s, m).pool, s.readers[id].cons) && m !in Drain(s, id).readers
    ensures Drain(Join(s, m), id) == Join(Drain(s, id), m)
    decreases |s.log| - s.readers[id].Cur()
  {
    JoinKeepsCore(s, m);
    JoinSameRing(s, m);
    SameBlind(s.pool, Join(s, m).pool, s.readers[id].cons);
    JoinedReader(s, id, m);
    ReadKeepsCore(s, id);
    if s.readers[id].Cur() != |s.log| {
      JoinReadCommute(s, id, m);
      JoinDrainCommute(Read(s, id), id, m);
    }
  }

  /** Other consumers join, those that are registered already do not. */
  function JoinAll(s: Sys, steps: seq<Option<nat>>): Sys
    decreases |steps|
  {
    if steps == [] then s
    else match steps[0]
         case None => JoinAll(s, steps[1..])
         case Some(m) => JoinAll(if m in s.readers then s else Join(s, m), steps[1..])
  }

  /**
   The drain loop of the consumer `id` up to some point, with other consumers joining: `None` is a
   read by `id`, `Some(m)` is `m` joining.
   */
  ghost function Interleaved(s: Sys, id: nat, steps: seq<Option<nat>>): (r: Sys)
    requires Core(s) && id in s.readers && !Blind(s.pool, s.readers[id].cons)
    ensures Core(r) && id in r.readers && !Blind(r.pool, r.readers[id].cons)
    decreases |steps|
  {
    if steps == [] then s
    else match steps[0]
         case None => ReadKeepsCore(s, id); Interleaved(Read(s, id), id, steps[1..])
         case Some(m) =>
           if m in s.readers then Interleaved(s, id, steps[1..])
           else JoinDrainCommute(s, id, m); JoinedReader(s, id, m); Interleaved(Join(s, m), id, steps[1..])
  }

  /** Whoever joins during the drain loop, it comes to the same as joining after it. */
  lemma {:induction false} DrainInterleaved(s: Sys, id: nat, steps: seq<Option<nat>>)
    requires Core(s) && id in s.readers && !Blind(s.pool, s.readers[id].cons)
    ensures Drain(Interleaved(s, id, steps), id) == JoinAll(Drain(s, id), steps)
    decreases |steps|
  {
    if steps != [] {
      match steps[0]
      case None =>
        ReadKeepsCore(s, id);
        DrainInterleaved(Read(s, id), id, steps[1..]);
      case Some(m) =>
        if m in s.readers {
          DrainInterleaved(s, id, steps[1..]);
        } else {
          JoinDrainCommute(s, id, m);
          JoinedReader(s, id, m);
          DrainInterleaved(Join(s, m), id, steps[1..]);
        }
    }
  }

  lemma RemoveOther(readers: map<nat, Reader>, id: nat, m: nat, newcomer: Reader)
    requires id != m
    ensures readers[m := newcomer] - {id} == (readers - {id})[m := newcomer]
  {
  }

  /** The consumer has read everything and is about to be freed. */
  ghost predicate Drained(d: Sys, id: nat) {
    Core(d) && id in d.readers && d.readers[id].Cur() == |d.log|
  }

  lemma JoinWithout(d: Sys, id: nat, m: nat)
    requires id in d.readers && m !in d.readers
    ensures Join(d, m).(readers := Join(d, m).readers - {id}) == Join(d.(readers := d.readers - {id}), m)
  {
    RemoveOther(d.readers, id, m, Join(d, m).readers[m]);
  }

  lemma JoinKeepsDrained(d: Sys, id: nat, m: nat)
    requires Drained(d, id) && m !in d.readers
    ensures Drained(Join(d, m), id)
  {
    JoinKeepsCore(d, m);
  }

  lemma JoinForgetCommute(d: Sys, id: nat, m: nat)
    requires Drained(d, id) && m !in d.readers && Drained(Join(d, m), id)
    ensures m !in Forget(d, id).readers && Forget(Join(d, m), id) == Join(Forget(d, id), m)
  {
    JoinWithout(d, id, m);
  }

  lemma {:induction false} JoinAllForget(d: Sys, id: nat, steps: seq<Option<nat>>)
    requires Drained(d, id) && Some(id) !in steps
    ensures Drained(JoinAll(d, steps), id) && Forget(JoinAll(d, steps), id) == JoinAll(Forget(d, id), steps)
    decreases |steps|
  {
    if steps != [] {
      match steps[0]
      case None => JoinAllForget(d, id, steps[1..]);
      case Some(m) =>
        assert m != id;
        if m in d.readers {
          JoinAllForget(d, id, steps[1..]);
        } else {
          JoinKeepsDrained(d, id, m);
          JoinForgetCommute(d, id, m);
          JoinAllForget(Join(d, m), id, steps[1..]);
        }
    }
  }

  lemma {:induction false} JoinAllKeepsInv(s: Sys, steps: seq<Option<nat>>)
    requires Inv(s)
    ensures Inv(JoinAll(s, steps))
    decreases |steps|
  {
    if steps != [] {
      match steps[0]
      case None => JoinAllKeepsInv(s, steps[1..]);
      case Some(m) =>
        if m in s.readers {
          JoinAllKeepsInv(s, steps[1..]);
        } else {
          JoinKeepsInv(s, m);
          JoinAllKeepsInv(Join(s, m), steps[1..]);
        }
    }
  }

  /**
   Leaving is not one step: consumers may join at any point of the drain loop. It ends as if they
   had joined after it.
   */
  lemma JoinsDuringLeave(s: Sys, id: nat, steps: seq<Option<nat>>)
    requires Inv(s) && id in s.readers && !Blind(s.pool, s.readers[id].cons) && Some(id) !in steps
    ensures |s.readers| > 0 && Inv(JoinAll(Leave(s, id), steps))
    ensures Forget(Drain(Interleaved(Uncount(s), id, steps), id), id) == JoinAll(Leave(s, id), steps)
  {
    FewerReaders(s.readers, id);
    DrainInterleaved(Uncount(s), id, steps);
    JoinAllForget(Drain(Uncount(s), id), id, steps);
    JoinAllKeepsInv(Leave(s, id), steps);
  }
}
