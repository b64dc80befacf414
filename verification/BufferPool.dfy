/**
 The bufferpool's operations as the source writes them, over fields updated in place. Each is
 proved to do exactly one step of `PoolModel`, so that everything proved about runs of that model
 holds of the objects here. `sys` is specification only.
 */
module BufferPool {
  import opened PoolModel
  import opened PoolProofs
  import opened PoolReserve
  import opened PoolSteps

  class OMSConsumer {
    var readPos: nat
    var lastReadPos: int
    var lastSeq: nat
    var firstts: real
    ghost const id: nat

    constructor (readPos: nat, ghost id: nat)
      ensures View() == Consumer(readPos, -1, 0) && this.id == id && firstts == -1.0
    {
      this.readPos, lastReadPos, lastSeq, firstts := readPos, -1, 0, -1.0;
      this.id := id;
    }

    ghost function View(): Consumer
      reads this
    {
      Consumer(readPos, lastReadPos, lastSeq)
    }
  }

  class OMSBuffer {
    var slots: seq<Slot>
    var writePos: nat
    var validReadPos: nat
    var refs: nat
    ghost var sys: Sys

    ghost function View(): Pool
      reads this
    {
      Pool(slots, writePos, validReadPos, refs)
    }

    /** The fields are those of the model; holds also while a consumer is being drained. */
    ghost predicate Rep()
      reads this
    {
      Core(sys) && sys.pool == View()
    }

    /** The next read of the consumer would fail or give it a slot that was never written. */
    ghost predicate IsBlind(c: OMSConsumer)
      requires writePos < |slots|
      reads this, c
    {
      Blind(View(), c.View())
    }

    ghost predicate Valid()
      reads this
    {
      Rep() && Inv(sys)
    }

    /** `c` is one of the consumers of this pool. */
    ghost predicate Registered(c: OMSConsumer)
      reads this, c
    {
      c.id in sys.readers && sys.readers[c.id].cons == c.View()
    }

    constructor (bufferSize: nat)
      requires bufferSize >= 1
      ensures sys == Init(bufferSize) && View() == sys.pool
      ensures Valid() <==> bufferSize >= 2
    {
      var s := seq(bufferSize, _ => Slot(0, 0, NO_PACKET, 0));
      var index := 0;
      while index < bufferSize - 1
        invariant 0 <= index <= bufferSize - 1 && |s| == bufferSize
        invariant forall i :: 0 <= i < index ==> s[i] == Slot(0, 0, NO_PACKET, i + 1)
        invariant forall i :: index <= i < bufferSize ==> s[i] == Slot(0, 0, NO_PACKET, 0)
      {
        s := s[index := s[index].(next := index + 1)];
        index := index + 1;
      }
      s := s[index := s[index].(next := 0)];
      slots := s;
      writePos, validReadPos, refs := bufferSize - 1, 0, 0;
      sys := Init(bufferSize);
      new;
      if bufferSize >= 2 {
        InitInv(bufferSize);
      }
      assert slots == Init(bufferSize).pool.slots;
    }

    // -------------------------------------------------------------- producer

    /** Splice a page of empty slots in after `prev`; returns the first of them. */
    method AddPage(prev: nat) returns (added: nat)
      requires prev == writePos < |slots|
      modifies this`slots
      ensures View() == PoolModel.AddPage(old(View())) && added == old(|slots|)
    {
      var nslots, after := |slots|, slots[prev].next;
      var s := slots + seq(PAGE, _ => Slot(0, 0, NO_PACKET, 0));
      var i := nslots;
      while i < nslots + PAGE - 1
        invariant nslots <= i <= nslots + PAGE - 1 && |s| == nslots + PAGE
        invariant s[..nslots] == slots
        invariant forall j :: nslots <= j < i ==> s[j] == Slot(0, 0, NO_PACKET, j + 1)
        invariant forall j :: i <= j < nslots + PAGE ==> s[j] == Slot(0, 0, NO_PACKET, 0)
      {
        s := s[i := Slot(0, 0, NO_PACKET, i + 1)];
        i := i + 1;
      }
      s := s[i := Slot(0, 0, NO_PACKET, after)];
      added := nslots;
      s := s[prev := s[prev].(next := added)];
      assert s == slots[prev := slots[prev].(next := nslots)] + NewPage(nslots, after);
      slots := s;
    }

    /** Walk from the join point to the first packet with a new timestamp, or the newest. */
    method PushJoin() returns (v: nat)
      requires Rep() && MustPush(sys)
      ensures v == sys.at[PushedJoin(sys)]
    {
      AfterWritePos(sys);
      v := validReadPos;
      ghost var k := sys.joinSeq;
      HeldSlot(sys, k);
      assert k < |sys.log|;
      var ts := slots[v].pkt.timestamp;
      while (assert Linked(sys.pool, sys.number, sys.at, |sys.log|, v);
             slots[v].slotSeq < slots[slots[v].next].slotSeq && ts == slots[v].pkt.timestamp)
        invariant Held(sys, k) && v == sys.at[k] && k >= sys.joinSeq
        invariant slots[v].slotSeq == k && slots[v].pkt == sys.log[k - 1]
        invariant k == sys.joinSeq ==> ts == slots[v].pkt.timestamp
        invariant k > sys.joinSeq ==> ts == sys.log[k - 2].timestamp && NextStart(sys.log, k) == PushedJoin(sys)
        decreases |sys.log| - k
      {
        LinkedNext(sys, k);
        ts := slots[v].pkt.timestamp;
        v := slots[v].next;
        k := k + 1;
      }
      if k < |sys.log| {
        LinkedNext(sys, k);
      }
    }

    method GetSlot() returns (slot: nat)
      requires Rep()
      modifies this`slots, this`validReadPos
      ensures if old(MustGrow(sys))
              then View() == PoolModel.AddPage(old(View())) && slot == old(|slots|)
              else View() == old(View()).(validReadPos := if MustPush(sys) then sys.at[PushedJoin(sys)]
                                                          else old(validReadPos))
                   && slot == First(sys)
    {
      AfterWritePos(sys);
      if slots[slots[writePos].next].refs > 0 {
        slot := AddPage(writePos);
      } else {
        slot := slots[writePos].next;
        assert Filled(sys, slot);
        FirstJoinWritten(sys);
        if slots[validReadPos].slotSeq != 0 && validReadPos == slot {
          validReadPos := PushJoin();
        }
      }
    }

    /** The commit path: `slot` is the one handed out by `GetSlot`. */
    method Write(slot: nat, pkt: Packet)
      requires writePos < |slots| && slots[writePos].next == slot < |slots|
      modifies this`slots, this`writePos
      ensures View() == Commit(old(View()), pkt)
    {
      var currSeq := slots[writePos].slotSeq;
      slots := slots[slot := slots[slot].(pkt := pkt)];
      slots := slots[slot := slots[slot].(refs := refs)];
      slots := slots[slot := slots[slot].(slotSeq := currSeq + 1)];
      writePos := slot;
    }

    /** Reserve a slot, into which the reader of the medium puts `data`. */
    method ReserveSlot(data: seq<bv8>)
      requires Valid()
      modifies this
      ensures Valid() && sys == Reserve(old(sys), data) && Reserved(sys)
    {
      ghost var next := ReserveStep(sys, data);
      var slot := GetSlot();
      slots := slots[slot := slots[slot].(pkt := slots[slot].pkt.(data := data))];
      sys := next;
    }

    /** Commit the packet to the slot that was reserved, whatever consumers did in between. */
    method CommitPacket(pkt: Packet)
      requires Valid() && Reserved(sys)
      modifies this
      ensures Valid() && sys == Produce(old(sys), pkt)
    {
      ghost var next := CommitStep(sys, pkt);
      Write(slots[writePos].next, pkt);
      sys := next;
    }

    /** One iteration of the producer: a packet is committed only if reading the medium gave one. */
    method ProducePacket(ok: bool, pkt: Packet)
      requires Valid()
      modifies this
      ensures Valid()
      ensures sys == if ok && pkt.data != [] then Produce(old(sys), pkt) else Reserve(old(sys), pkt.data)
    {
      ReserveThenProduce(sys, pkt.data, pkt);
      ReserveSlot(pkt.data);
      if ok && pkt.data != [] {
        CommitPacket(pkt);
      }
    }

    // -------------------------------------------------------------- consumers

    method Ref() returns (c: OMSConsumer)
      requires Valid()
      modifies this
      ensures Valid() && fresh(c) && c.id !in old(sys).readers && sys == Join(old(sys), c.id) && Registered(c)
    {
      ghost var id, next := JoinStep(sys);
      c := new OMSConsumer(validReadPos, id);
      if slots[c.readPos].slotSeq != 0 {
        AddReferences(c.readPos);
      }
      refs := refs + 1;
      sys := next;
    }

    /** One more reference to every slot from the join point to the write position. */
    method AddReferences(start: nat)
      requires Rep() && |sys.log| > 0 && start == validReadPos
      modifies this`slots
      ensures slots == Referenced(old(slots), sys.joinSeq)
    {
      ghost var k := sys.joinSeq;
      HeldSlot(sys, k);
      var i := start;
      while i != writePos
        invariant Held(sys, k) && i == sys.at[k] && k >= sys.joinSeq
        invariant AllBumped(sys.pool.slots, slots, sys.joinSeq, k)
        decreases |sys.log| - k
      {
        LinkedNext(sys, k);
        BumpNext(sys, slots, k);
        slots := slots[i := slots[i].(refs := slots[i].refs + 1)];
        i := slots[i].next;
        k := k + 1;
      }
      AtNewest(sys, k);
      BumpNext(sys, slots, k);
      slots := slots[i := slots[i].(refs := slots[i].refs + 1)];
      AllBounded(sys);
      BumpedAll(sys.pool.slots, slots, sys.joinSeq, |sys.log| + 1);
    }

    /** The slot a consumer gets next: `readPos`, unless slots were added after the last one read. */
    method SelectSlot(c: OMSConsumer) returns (slot: Option<nat>)
      requires InRange(View()) && ConsInRange(View(), c.View())
      ensures slot == Select(View(), c.View())
    {
      var next := c.readPos;
      if slots[next].refs == 0 || slots[next].slotSeq < c.lastSeq {
        if c.lastReadPos >= 0 && slots[slots[c.lastReadPos].next].refs > 0
           && slots[slots[c.lastReadPos].next].slotSeq > c.lastSeq {
          next := slots[c.lastReadPos].next;
        } else {
          return None;
        }
      } else if c.lastReadPos >= 0 && slots[slots[c.lastReadPos].next].slotSeq < slots[next].slotSeq {
        next := slots[c.lastReadPos].next;
      }
      slot := Some(next);
    }

    /** Peek: the slot the next `GotReader` will consume. */
    method GetReader(c: OMSConsumer) returns (slot: Option<nat>)
      requires Rep() && Registered(c)
      modifies c`firstts
      ensures InRange(View()) && ConsInRange(View(), c.View()) && slot == Select(View(), c.View())
      ensures !IsBlind(c) ==> (slot.None? <==> sys.readers[c.id].Cur() == |sys.log|)
      ensures !IsBlind(c) && slot.Some? ==> sys.readers[c.id].Cur() < slots[slot.value].slotSeq
      ensures c.firstts == if slot.Some? && old(c.firstts) == -1.0 then slots[slot.value].pkt.timestamp
                           else old(c.firstts)
    {
      ReadWorksIff(sys, c.id);
      slot := SelectSlot(c);
      if slot.Some? && c.firstts == -1.0 {
        c.firstts := slots[slot.value].pkt.timestamp;
      }
    }

    method Consume(c: OMSConsumer, next: nat)
      requires next < |slots|
      modifies this`slots, c`lastSeq, c`lastReadPos, c`readPos
      ensures View() == Take(old(View()), next) && c.View() == Advance(old(View()), next)
    {
      slots := slots[next := slots[next].(refs := Decrement(slots[next].refs))];
      c.lastSeq := slots[next].slotSeq;
      c.lastReadPos := next;
      c.readPos := slots[next].next;
    }

    /** Consume the next slot; `err` if there is none. */
    method GotReader(c: OMSConsumer) returns (err: bool)
      requires Rep() && Registered(c)
      modifies this`slots, this`sys, c`lastSeq, c`lastReadPos, c`readPos
      ensures old(InRange(sys.pool) && ConsInRange(sys.pool, sys.readers[c.id].cons))
      ensures sys == Read(old(sys), c.id) && sys.pool == View() && Registered(c)
      ensures err <==> old(Select(sys.pool, sys.readers[c.id].cons)).None?
      ensures !old(IsBlind(c)) ==> Rep() && !IsBlind(c) && (err <==> old(sys.readers[c.id].Cur() == |sys.log|))
    {
      ghost var next := ReadStep(sys, c.id);
      var slot := SelectSlot(c);
      if slot.None? {
        return true;
      }
      Deliver(c, slot.value, next);
      err := false;
    }

    /** `Consume` as a step to the state `next` of the model. */
    method Deliver(c: OMSConsumer, i: nat, ghost next: Sys)
      requires i < |slots| && next.pool == Take(View(), i)
      requires c.id in next.readers && next.readers[c.id].cons == Advance(View(), i)
      modifies this`slots, this`sys, c`lastSeq, c`lastReadPos, c`readPos
      ensures sys.pool == View() && Registered(c) && sys == next
    {
      Consume(c, i);
      sys := next;
    }

    /** The consumer reads everything it has not read. */
    method DrainConsumer(c: OMSConsumer)
      requires Rep() && Registered(c) && !IsBlind(c)
      modifies this`slots, this`sys, c`lastSeq, c`lastReadPos, c`readPos
      ensures Rep() && sys == Drain(old(sys), c.id)
    {
      ghost var drained := Drain(sys, c.id);
      var err := false;
      while !err
        invariant Rep() && Registered(c) && !IsBlind(c) && Drain(sys, c.id) == drained
        invariant err ==> sys == drained
        decreases !err, |sys.log| - sys.readers[c.id].Cur()
      {
        DrainUnfold(sys, c.id);
        err := GotReader(c);
      }
    }

    /** Stop counting the consumer, then read everything it has not read. */
    method Unref(c: OMSConsumer)
      requires Valid() && Registered(c) && !IsBlind(c)
      modifies this, c
      ensures Valid() && sys == Leave(old(sys), c.id)
    {
      ghost var was, id := sys, c.id;
      ghost var uncounted := UncountStep(was, id);
      if refs > 0 {
        refs := refs - 1;
        sys := uncounted;
        DrainConsumer(c);
      }
      sys := ForgetStep(was, id, sys);
    }
  }

  // ---------------------------------------------------------------- the steps of the model

  /** `OMSbuff_new`: there is no buffer of size 0. */
  method NewBuffer(bufferSize: nat) returns (buffer: OMSBuffer?)
    ensures buffer == null <==> bufferSize == 0
    ensures buffer != null ==> fresh(buffer) && buffer.sys == Init(bufferSize) && buffer.View() == buffer.sys.pool
    ensures buffer != null ==> (buffer.Valid() <==> bufferSize >= 2)
  {
    if bufferSize == 0 {
      return null;
    }
    buffer := new OMSBuffer(bufferSize);
  }

  lemma ReserveStep(s: Sys, data: seq<bv8>) returns (s': Sys)
    requires Inv(s)
    ensures s' == Reserve(s, data) && s.pool.writePos < |s.pool.slots| && First(s) < |s.pool.slots|
    ensures Inv(s') && Reserved(s') && s'.readers == s.readers
    ensures MustGrow(s) ==> s'.pool == Scribble(PoolModel.AddPage(s.pool), |s.pool.slots|, data)
    ensures !MustGrow(s) ==>
      s'.pool == Scribble(s.pool.(validReadPos := if MustPush(s) then s.at[PushedJoin(s)] else s.pool.validReadPos),
                          First(s), data)
  {
    ReserveReserves(s, data);
    AfterWritePos(s);
    s' := Reserve(s, data);
  }

  lemma CommitStep(s: Sys, pkt: Packet) returns (s': Sys)
    requires Inv(s) && Reserved(s)
    ensures s' == Produce(s, pkt) && Inv(s') && s'.readers == s.readers
    ensures s.pool.writePos < |s.pool.slots| && s.pool.slots[s.pool.writePos].next < |s.pool.slots|
    ensures s'.pool == Commit(s.pool, pkt)
  {
    ReservedCommits(s, [], pkt);
    ProduceKeepsInv(s, pkt);
    s' := Produce(s, pkt);
  }

  lemma JoinStep(s: Sys) returns (id: nat, s': Sys)
    requires Inv(s)
    ensures id !in s.readers && s' == Join(s, id) && Inv(s')
    ensures s.pool.slots[s.pool.validReadPos].slotSeq != 0 <==> |s.log| > 0
    ensures s'.pool == s.pool.(slots := if |s.log| > 0 then Referenced(s.pool.slots, s.joinSeq) else s.pool.slots,
                               refs := s.pool.refs + 1)
    ensures s'.readers[id].cons == Consumer(s.pool.validReadPos, -1, 0)
  {
    id := UnusedId(s.readers.Keys);
    JoinKeepsInv(s, id);
    JoinWritten(s);
    s' := Join(s, id);
  }

  lemma {:induction false} UnusedId(ids: set<nat>) returns (id: nat)
    ensures forall i :: i in ids ==> i < id
  {
    if ids == {} {
      id := 0;
    } else {
      var x :| x in ids;
      id := UnusedId(ids - {x});
      id := if x < id then id else x + 1;
      assert forall i :: i in ids ==> i == x || i in ids - {x};
    }
  }

  lemma ReadStep(s: Sys, id: nat) returns (s': Sys)
    requires Core(s) && id in s.readers
    ensures InRange(s.pool) && ConsInRange(s.pool, s.readers[id].cons)
    ensures s' == Read(s, id) && id in s'.readers
    ensures match Select(s.pool, s.readers[id].cons)
            case None => s' == s
            case Some(i) => i < |s.pool.slots| && s'.pool == Take(s.pool, i)
                            && s'.readers[id].cons == Advance(s.pool, i)
    ensures !Blind(s.pool, s.readers[id].cons) ==>
      && Core(s') && !Blind(s'.pool, s'.readers[id].cons)
      && (Select(s.pool, s.readers[id].cons).None? <==> s.readers[id].Cur() == |s.log|)
  {
    ReadWorksIff(s, id);
    if !Blind(s.pool, s.readers[id].cons) {
      ReadKeepsCore(s, id);
    }
    s' := Read(s, id);
  }

  lemma DrainUnfold(s: Sys, id: nat)
    requires Core(s) && id in s.readers && !Blind(s.pool, s.readers[id].cons)
    ensures InRange(s.pool) && ConsInRange(s.pool, s.readers[id].cons)
    ensures Core(Read(s, id)) && id in Read(s, id).readers && !Blind(Read(s, id).pool, Read(s, id).readers[id].cons)
    ensures Drain(s, id) == if s.readers[id].Cur() == |s.log| then s else Drain(Read(s, id), id)
    ensures s.readers[id].Cur() <= |s.log|
    ensures if s.readers[id].Cur() == |s.log| then Read(s, id) == s
            else |Read(s, id).log| - Read(s, id).readers[id].Cur() < |s.log| - s.readers[id].Cur()
  {
    ReadKeepsCore(s, id);
    assert GotOk(s.readers[id], s.log);
  }

  lemma UncountStep(s: Sys, id: nat) returns (u: Sys)
    requires Inv(s) && id in s.readers && !Blind(s.pool, s.readers[id].cons)
    ensures s.pool.refs > 0 && |s.readers| > 0 && u == Uncount(s)
    ensures Core(u) && u.readers == s.readers && u.pool == s.pool.(refs := s.pool.refs - 1)
    ensures !Blind(u.pool, u.readers[id].cons)
  {
    FewerReaders(s.readers, id);
    u := Uncount(s);
  }

  lemma ForgetStep(s: Sys, id: nat, d: Sys) returns (left: Sys)
    requires Inv(s) && id in s.readers && !Blind(s.pool, s.readers[id].cons) && |s.readers| > 0
    requires !Blind(Uncount(s).pool, Uncount(s).readers[id].cons) && d == Drain(Uncount(s), id)
    ensures left == Leave(s, id) && Inv(left) && left.pool == d.pool
  {
    left := Leave(s, id);
  }

  // ---------------------------------------------------------------- facts about the walk

  /** `b` is `a`, with one more reference if its packet number is in the half-open range. */
  ghost predicate Bumped(a: Slot, b: Slot, lo: nat, hi: nat) {
    b == if lo <= a.slotSeq < hi then a.(refs := a.refs + 1) else a
  }

  ghost predicate AllBumped(was: seq<Slot>, slots: seq<Slot>, lo: nat, hi: nat) {
    |slots| == |was| && forall j :: 0 <= j < |slots| ==> Bumped(was[j], slots[j], lo, hi)
  }

  /** The slot that holds packet `k` is the only one. */
  lemma BumpNext(s: Sys, slots: seq<Slot>, k: nat)
    requires Shape(s) && Held(s, k) && k >= s.joinSeq && AllBumped(s.pool.slots, slots, s.joinSeq, k)
    ensures s.at[k] < |slots| && slots[s.at[k]] == s.pool.slots[s.at[k]]
    ensures var i := s.at[k];
            AllBumped(s.pool.slots, slots[i := slots[i].(refs := slots[i].refs + 1)], s.joinSeq, k + 1)
  {
    HeldSlot(s, k);
    OthersDiffer(s, k);
  }

  lemma BumpedAll(was: seq<Slot>, slots: seq<Slot>, lo: nat, hi: nat)
    requires AllBumped(was, slots, lo, hi) && forall j :: 0 <= j < |was| ==> was[j].slotSeq < hi
    ensures slots == Referenced(was, lo)
  {
  }

  lemma LinkedNext(s: Sys, k: nat)
    requires Shape(s) && Held(s, k)
    ensures s.at[k] < |s.pool.slots| && s.pool.slots[s.at[k]].next < |s.pool.slots|
    ensures k < |s.log| ==> s.pool.slots[s.at[k]].next == s.at[k + 1] && s.pool.slots[s.at[k + 1]].slotSeq == k + 1
                            && s.pool.slots[s.at[k + 1]].pkt == s.log[k]
    ensures k == |s.log| ==> s.pool.slots[s.pool.slots[s.at[k]].next].slotSeq < k
  {
    assert Linked(s.pool, s.number, s.at, |s.log|, s.at[k]);
    if k < |s.log| {
      HeldSlot(s, k + 1);
    } else {
      AfterWritePos(s);
      assert Filled(s, First(s));
    }
  }

  lemma OthersDiffer(s: Sys, k: nat)
    requires Shape(s) && Held(s, k)
    ensures forall j :: 0 <= j < |s.pool.slots| && j != s.at[k] ==> s.pool.slots[j].slotSeq != k
  {
    forall j | 0 <= j < |s.pool.slots| && j != s.at[k] ensures s.pool.slots[j].slotSeq != k {
      assert Filled(s, j);
    }
  }

  lemma AtNewest(s: Sys, k: nat)
    requires Shape(s) && Held(s, k) && s.at[k] == s.pool.writePos
    ensures k == |s.log|
  {
    assert s.number[s.at[k]] == k;
  }

  lemma AllBounded(s: Sys)
    requires Shape(s)
    ensures forall j :: 0 <= j < |s.pool.slots| ==> s.pool.slots[j].slotSeq <= |s.log|
  {
    forall j | 0 <= j < |s.pool.slots| ensures s.pool.slots[j].slotSeq <= |s.log| {
      NumbersBounded(s, j);
    }
  }

  /** Before the first write the join point is an unwritten slot, afterwards a written one. */
  lemma JoinWritten(s: Sys)
    requires Shape(s) && JoinOk(s) && s.pool.validReadPos < |s.pool.slots|
    ensures s.pool.slots[s.pool.validReadPos].slotSeq != 0 <==> |s.log| > 0
  {
    if |s.log| > 0 {
      HeldSlot(s, s.joinSeq);
    } else {
      NumbersBounded(s, s.pool.validReadPos);
    }
  }

  lemma FirstJoinWritten(s: Sys)
    requires Core(s)
    ensures MustPush(s) <==> s.pool.slots[s.pool.validReadPos].slotSeq != 0 && s.pool.validReadPos == First(s)
  {
    JoinWritten(s);
  }
}
