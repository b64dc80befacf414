/**
 The bufferpool as a transition system: a ring of slots threaded through an array that grows by
 pages, one producer and any number of consumers.

 `Pool`, `Slot` and `Consumer` are the source's own fields. `Sys` adds what the pool is meant to
 stand for: the log of all packets ever written, and for each registered consumer what it has
 been given so far.
 */
module PoolModel {

  const PAGE: nat := 9

  datatype Option<+T> = None | Some(value: T)

  datatype Packet = Packet(timestamp: real, marker: bool, data: seq<bv8>)

  const NO_PACKET: Packet := Packet(0.0, false, [])

  datatype Slot = Slot(refs: nat, slotSeq: nat, pkt: Packet, next: nat)

  /** `slots` with the control block; `nslots` is the length of `slots`. */
  datatype Pool = Pool(slots: seq<Slot>, writePos: nat, validReadPos: nat, refs: nat)

  /** `lastReadPos` is -1 until the first read. */
  datatype Consumer = Consumer(readPos: nat, lastReadPos: int, lastSeq: nat)

  datatype Delivery = Delivery(seqno: nat, pkt: Packet)

  /** A registered consumer: it joined after `start` packets and was given `got` since. */
  datatype Reader = Reader(cons: Consumer, start: nat, got: seq<Delivery>) {
    function Cur(): nat {
      if got == [] then start else got[|got| - 1].seqno
    }
  }

  /**
   The pool with its meaning. Every slot has a number: the slots, walked along `next` from the
   one after the write position to the write position, are numbered consecutively up to the
   length of the log. `number` maps slots to numbers and `at` is its inverse. A slot whose number
   is above `low` holds the packet of that number; the others are free. A new consumer starts at
   packet number `joinSeq`.
   */
  datatype Sys = Sys(pool: Pool, number: seq<int>, at: map<int, nat>, low: nat, joinSeq: nat,
                     log: seq<Packet>, readers: map<nat, Reader>)

  // ---------------------------------------------------------------- reading

  ghost predicate InRange(p: Pool) {
    && p.writePos < |p.slots| && p.validReadPos < |p.slots|
    && forall i :: 0 <= i < |p.slots| ==> p.slots[i].next < |p.slots|
  }

  ghost predicate ConsInRange(p: Pool, c: Consumer) {
    c.readPos < |p.slots| && -1 <= c.lastReadPos < |p.slots|
  }

  /** The slot a consumer gets next, if any. */
  function Select(p: Pool, c: Consumer): Option<nat>
    requires InRange(p) && ConsInRange(p, c)
  {
    var s := p.slots;
    var next := c.readPos;
    if s[next].refs == 0 || s[next].slotSeq < c.lastSeq then
      if c.lastReadPos >= 0 && s[s[c.lastReadPos].next].refs > 0
         && s[s[c.lastReadPos].next].slotSeq > c.lastSeq
      then Some(s[c.lastReadPos].next)
      else None
    else if c.lastReadPos >= 0 && s[s[c.lastReadPos].next].slotSeq < s[next].slotSeq
    then Some(s[c.lastReadPos].next)
    else Some(next)
  }

  /** The 16-bit decrement of `refs`. */
  function Decrement(refs: nat): nat {
    if refs > 0 then refs - 1 else 0xFFFF
  }

  function Take(p: Pool, i: nat): Pool
    requires i < |p.slots|
  {
    p.(slots := p.slots[i := p.slots[i].(refs := Decrement(p.slots[i].refs))])
  }

  function Advance(p: Pool, i: nat): Consumer
    requires i < |p.slots|
  {
    Consumer(p.slots[i].next, i, p.slots[i].slotSeq)
  }

  // ---------------------------------------------------------------- the ring

  /** Slot `j` is linked to the slot of the next number, or from the newest to the oldest number. */
  ghost predicate Linked(p: Pool, number: seq<int>, at: map<int, nat>, l: nat, j: nat) {
    && j < |p.slots| == |number|
    && var k := if number[j] == l then l - |p.slots| + 1 else number[j] + 1;
       k in at && p.slots[j].next == at[k]
  }

  /** The slots are numbered consecutively up to `l`, which is the number of the write position. */
  ghost predicate NumbersOk(p: Pool, number: seq<int>, at: map<int, nat>, l: nat) {
    var n := |p.slots|;
    && |number| == n >= 2
    && (forall j :: 0 <= j < n ==> l - n < number[j] <= l && number[j] in at && at[number[j]] == j)
    && (forall k :: k in at ==> l - n < k <= l && at[k] < n && number[at[k]] == k)
    && (forall k :: l - n < k <= l ==> k in at)
    && p.writePos == at[l]
  }

  /** `next` is one cycle through all slots that ends at `writePos`; `l` is the newest number. */
  ghost predicate RingOk(p: Pool, number: seq<int>, at: map<int, nat>, l: nat) {
    && NumbersOk(p, number, at, l)
    && forall j :: 0 <= j < |p.slots| ==> Linked(p, number, at, l, j)
  }

  /**
   A slot numbered above `low` holds the packet of that number. Any other is free: it was never
   written, or it is the oldest slot, whose data a reservation may have overwritten.
   */
  ghost predicate Filled(s: Sys, j: nat)
    requires j < |s.pool.slots| == |s.number|
  {
    var slot, k := s.pool.slots[j], s.number[j];
    if k <= s.low then slot.refs == 0 && (slot.slotSeq == 0 || slot.slotSeq == k == |s.log| - |s.pool.slots| + 1)
    else slot.slotSeq == k <= |s.log| && slot.pkt == s.log[k - 1]
  }

  /** Free slots first, then consecutive packet numbers up to the newest. */
  ghost predicate WindowOk(s: Sys)
    requires |s.number| == |s.pool.slots|
  {
    && s.low <= |s.log| <= s.low + |s.pool.slots|
    && (|s.log| > 0 ==> s.low < |s.log|)
    && forall j {:trigger s.pool.slots[j]} {:trigger s.number[j]} :: 0 <= j < |s.pool.slots| ==> Filled(s, j)
  }

  /** The pool's slots form a ring that holds the newest packets of the log. */
  ghost predicate Shape(s: Sys) {
    RingOk(s.pool, s.number, s.at, |s.log|) && WindowOk(s)
  }

  /** Packet number `k` is still in the ring. */
  predicate Held(s: Sys, k: nat) { s.low < k <= |s.log| }

  /** The slot numbered `k` still carries that packet number. */
  predicate Kept(s: Sys, k: nat) { k in s.at && s.at[k] < |s.pool.slots| && s.pool.slots[s.at[k]].slotSeq == k }

  /** The slot the next packet goes to if no page is added. */
  function First(s: Sys): nat
    requires |s.log| - |s.pool.slots| + 1 in s.at
  {
    s.at[|s.log| - |s.pool.slots| + 1]
  }

  ghost predicate JoinOk(s: Sys)
    requires Shape(s)
  {
    if |s.log| == 0 then s.joinSeq == 1 && s.pool.validReadPos == First(s)
    else Held(s, s.joinSeq) && s.at[s.joinSeq] == s.pool.validReadPos
  }

  /** Deliveries are packets of the log, in strictly increasing order, from the join point on. */
  ghost predicate GotOk(r: Reader, log: seq<Packet>) {
    && r.start <= |log|
    && (forall i :: 0 <= i < |r.got| ==> r.start < r.got[i].seqno <= |log| && r.got[i].pkt == log[r.got[i].seqno - 1])
    && (forall i, j :: 0 <= i < j < |r.got| ==> r.got[i].seqno < r.got[j].seqno)
  }

  /** A consumer that has read nothing stands at its join point. */
  ghost predicate NewCursorOk(s: Sys, r: Reader)
    requires Shape(s)
  {
    && r.cons.lastReadPos == -1 && r.cons.lastSeq == 0
    && if |s.log| == 0 then r.cons.readPos == First(s)
       else Held(s, r.start + 1) && r.cons.readPos == s.at[r.start + 1]
  }

  /** The consumer last read from the slot at the write position, which has been rewritten since. */
  predicate ExposedReader(p: Pool, c: Consumer)
    requires p.writePos < |p.slots|
  {
    c.lastReadPos == p.writePos && c.lastSeq != p.slots[p.writePos].slotSeq
  }

  /** ... and the slot that follows it now was never written. */
  predicate Blind(p: Pool, c: Consumer)
    requires p.writePos < |p.slots|
  {
    var next := p.slots[p.writePos].next;
    ExposedReader(p, c) && next < |p.slots| && p.slots[next].slotSeq == 0
  }

  /**
   `lastReadPos` is the slot of the last packet read; once that slot has been reused, the slot
   linked after it holds an unread packet, unless the consumer is blind.
   */
  ghost predicate OldCursorOk(s: Sys, c: Consumer)
    requires Shape(s) && ConsInRange(s.pool, c)
  {
    && c.lastReadPos >= 0 && c.readPos != c.lastReadPos
    && if Kept(s, c.lastSeq) then s.at[c.lastSeq] == c.lastReadPos
       else assert Linked(s.pool, s.number, s.at, |s.log|, c.lastReadPos);
            s.pool.slots[s.pool.slots[c.lastReadPos].next].slotSeq > c.lastSeq || Blind(s.pool, c)
  }

  /** Where the two position fields of a consumer point. */
  ghost predicate CursorOk(s: Sys, r: Reader)
    requires Shape(s)
  {
    && ConsInRange(s.pool, r.cons)
    && r.Cur() >= s.low  // no packet still to be read was overwritten
    && if r.got == [] then NewCursorOk(s, r) else r.cons.lastSeq == r.Cur() && OldCursorOk(s, r.cons)
  }

  /** The consumers that still have to be given packet number `k`. */
  function Waiting(readers: map<nat, Reader>, k: nat): set<nat> {
    set id | id in readers && readers[id].Cur() < k
  }

  ghost predicate RefsOk(s: Sys) {
    forall j :: 0 <= j < |s.pool.slots| ==>
      s.pool.slots[j].refs >= |Waiting(s.readers, s.pool.slots[j].slotSeq)|
  }

  ghost predicate ReadersOk(s: Sys)
    requires Shape(s)
  {
    forall id :: id in s.readers ==> GotOk(s.readers[id], s.log) && CursorOk(s, s.readers[id])
  }

  /** What every operation keeps, whatever the number of consumers and however often pages are added. */
  ghost predicate Core(s: Sys) {
    Shape(s) && s.pool.validReadPos < |s.pool.slots| && JoinOk(s) && ReadersOk(s) && RefsOk(s)
  }

  ghost predicate Inv(s: Sys) {
    Core(s) && s.pool.refs == |s.readers|
  }

  /** No consumer is blind. */
  predicate Sighted(s: Sys)
    requires s.pool.writePos < |s.pool.slots|
  {
    forall id :: id in s.readers ==> !Blind(s.pool, s.readers[id].cons)
  }

  // ---------------------------------------------------------------- initial state

  function InitialSlot(n: nat, k: int): nat
    requires 0 < k + n
  {
    k + n - 1
  }

  function Init(n: nat): Sys
    requires n >= 1
  {
    Sys(Pool(seq(n, i requires 0 <= i < n => Slot(0, 0, NO_PACKET, if i + 1 < n then i + 1 else 0)), n - 1, 0, 0),
        seq(n, i => i - n + 1), map k: int | 0 - n < k <= 0 :: InitialSlot(n, k), 0, 1, [], map[])
  }

  // ---------------------------------------------------------------- produce

  /** Packet number `k` has the timestamp of the packet before it. */
  predicate Continues(log: seq<Packet>, k: nat)
    requires 2 <= k <= |log|
  {
    log[k - 1].timestamp == log[k - 2].timestamp
  }

  /** First packet from number `k` on that starts a new timestamp, or the newest packet. */
  function NextStart(log: seq<Packet>, k: nat): (r: nat)
    requires 2 <= k <= |log|
    ensures k <= r <= |log|
    decreases |log| - k
  {
    if k == |log| || !Continues(log, k) then k
    else NextStart(log, k + 1)
  }

  /** `OMSbuff_getslot` must add a page: the slot after the write position is still wanted. */
  ghost predicate MustGrow(s: Sys)
    requires Shape(s)
  {
    s.pool.slots[First(s)].refs > 0
  }

  /** The new page, its last slot linked to `next`. */
  function NewPage(n: nat, next: nat): (r: seq<Slot>)
    ensures |r| == PAGE
  {
    seq(PAGE, i requires 0 <= i < PAGE => Slot(0, 0, NO_PACKET, if i + 1 < PAGE then n + i + 1 else next))
  }

  /** `OMSbuff_addpage`: splice a page of empty slots in after the write position. */
  function AddPage(p: Pool): Pool
    requires p.writePos < |p.slots|
  {
    var n := |p.slots|;
    p.(slots := p.slots[p.writePos := p.slots[p.writePos].(next := n)] + NewPage(n, p.slots[p.writePos].next))
  }

  /** The commit path of `OMSbuff_write` on the slot after the write position. */
  function Commit(p: Pool, pkt: Packet): Pool
    requires p.writePos < |p.slots| && p.slots[p.writePos].next < |p.slots|
  {
    var i := p.slots[p.writePos].next;
    p.(slots := p.slots[i := Slot(p.refs, p.slots[p.writePos].slotSeq + 1, pkt, p.slots[i].next)], writePos := i)
  }

  /** Getslot pushes the join point off the slot that is about to be reused. */
  ghost predicate MustPush(s: Sys)
    requires Shape(s)
  {
    |s.log| > 0 && s.pool.validReadPos == First(s)
  }

  ghost function PushedJoin(s: Sys): nat
    requires Shape(s)
  {
    if MustPush(s) && 1 <= s.joinSeq < |s.log| then NextStart(s.log, s.joinSeq + 1) else s.joinSeq
  }

  ghost function ProduceInPlace(s: Sys, pkt: Packet): Sys
    requires Shape(s) && JoinOk(s)
  {
    assert Linked(s.pool, s.number, s.at, |s.log|, s.pool.writePos);
    var l, z, j := |s.log|, First(s), PushedJoin(s);
    s.(pool := Commit(s.pool.(validReadPos := if MustPush(s) then s.at[j] else s.pool.validReadPos), pkt),
       number := s.number[z := l + 1],
       at := (s.at - {l - |s.pool.slots| + 1})[l + 1 := z],
       low := if s.number[z] > s.low then s.low + 1 else s.low,
       joinSeq := j,
       log := s.log + [pkt])
  }

  ghost function ProduceGrowing(s: Sys, pkt: Packet): Sys
    requires Shape(s)
  {
    var n, l := |s.pool.slots|, |s.log|;
    s.(pool := Commit(AddPage(s.pool), pkt),
       number := s.number + [l + 1] + seq(PAGE - 1, i => l - n - PAGE + 2 + i),
       at := map k | l - n - PAGE + 1 < k <= l + 1 ::
         if k == l + 1 then n else if k in s.at then s.at[k] else k - l + 2 * n + PAGE - 1,
       log := s.log + [pkt])
  }

  /** `OMSbuff_getslot`, fill and `OMSbuff_write`. */
  ghost function Produce(s: Sys, pkt: Packet): Sys
    requires Shape(s) && JoinOk(s)
  {
    if MustGrow(s) then ProduceGrowing(s, pkt) else ProduceInPlace(s, pkt)
  }

  // ---------------------------------------------------------------- reserve

  /** The reader of the medium has put `data` into the slot, and nothing is committed yet. */
  function Scribble(p: Pool, i: nat, data: seq<bv8>): Pool
    requires i < |p.slots|
  {
    p.(slots := p.slots[i := p.slots[i].(pkt := p.slots[i].pkt.(data := data))])
  }

  ghost function ReserveInPlace(s: Sys, data: seq<bv8>): Sys
    requires Shape(s) && JoinOk(s)
  {
    var z, j := First(s), PushedJoin(s);
    s.(pool := Scribble(s.pool.(validReadPos := if MustPush(s) then s.at[j] else s.pool.validReadPos), z, data),
       low := if s.number[z] > s.low then s.low + 1 else s.low,
       joinSeq := j)
  }

  ghost function ReserveGrowing(s: Sys, data: seq<bv8>): Sys
    requires Shape(s)
  {
    var n, l := |s.pool.slots|, |s.log|;
    s.(pool := Scribble(AddPage(s.pool), n, data),
       number := s.number + seq(PAGE, i => l - n - PAGE + 1 + i),
       at := map k | l - n - PAGE < k <= l :: if k in s.at then s.at[k] else k - l + 2 * n + PAGE - 1)
  }

  /** `OMSbuff_getslot`, after which the reader of the medium puts `data` into the slot. */
  ghost function Reserve(s: Sys, data: seq<bv8>): Sys
    requires Shape(s) && JoinOk(s)
  {
    if MustGrow(s) then ReserveGrowing(s, data) else ReserveInPlace(s, data)
  }

  /** Splicing empty slots in after the write position puts them before some consumer. */
  predicate Exposed(s: Sys)
    requires s.pool.writePos < |s.pool.slots|
  {
    exists id :: id in s.readers && ExposedReader(s.pool, s.readers[id].cons)
  }

  // ---------------------------------------------------------------- join, read, leave

  /** One more reference to every slot with a packet number of at least `from`. */
  function Referenced(slots: seq<Slot>, from: nat): seq<Slot> {
    seq(|slots|, i requires 0 <= i < |slots| =>
      if slots[i].slotSeq >= from then slots[i].(refs := slots[i].refs + 1) else slots[i])
  }

  /** A joining consumer references every packet from the join point on. */
  function Join(s: Sys, id: nat): Sys
    requires id !in s.readers
  {
    var p := s.pool;
    s.(pool := p.(slots := if |s.log| > 0 then Referenced(p.slots, s.joinSeq) else p.slots, refs := p.refs + 1),
       readers := s.readers[id := Reader(Consumer(p.validReadPos, -1, 0),
                                         if s.joinSeq > 0 then s.joinSeq - 1 else 0, [])])
  }

  function Read(s: Sys, id: nat): Sys
    requires InRange(s.pool) && id in s.readers && ConsInRange(s.pool, s.readers[id].cons)
  {
    var r := s.readers[id];
    match Select(s.pool, r.cons)
    case None => s
    case Some(i) =>
      var slot := s.pool.slots[i];
      s.(pool := Take(s.pool, i),
         readers := s.readers[id := Reader(Advance(s.pool, i), r.start, r.got + [Delivery(slot.slotSeq, slot.pkt)])])
  }
}
