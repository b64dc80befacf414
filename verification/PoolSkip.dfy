/**
 Where the bufferpool does not deliver a log, as runs of pools of any size: a consumer that skips
 nine packets, a consumer that is handed a slot that was never written, and a pool of one slot
 that repeats a packet.
 */
module PoolSkip {
  import opened PoolModel
  import opened PoolProofs
  import opened PoolReserve
  import opened PoolSteps
  import opened PoolOrder

  // ---------------------------------------------------------------- states on the way

  /** A set of states that contains what any safe call leads to. */
  ghost predicate Closed(r: iset<Sys>) {
    forall s, op {:trigger Step(s, op)} :: s in r && Inv(s) && StepSafe(s, op) ==> Step(s, op) in r
  }

  ghost predicate Ready(r: iset<Sys>, s: Sys) {
    Closed(r) && s in r && Inv(s) && Exact(s) && Sighted(s)
  }

  lemma OneMore(r: iset<Sys>, s: Sys, op: Op)
    requires Ready(r, s) && !op.GetSlot?
    ensures StepSafe(s, op) && Inv(Step(s, op)) && Step(s, op) in r && Sighted(Step(s, op))
  {
    StepKeepsSight(s, op);
  }

  lemma Written(r: iset<Sys>, s: Sys)
    requires Ready(r, s)
    ensures Inv(Produce(s, NO_PACKET)) && Produce(s, NO_PACKET) in r && Sighted(Produce(s, NO_PACKET))
  {
    OneMore(r, s, Write(NO_PACKET));
  }

  lemma Joined(r: iset<Sys>, s: Sys, id: nat)
    requires Ready(r, s) && id !in s.readers
    ensures Inv(Join(s, id)) && Join(s, id) in r && Sighted(Join(s, id))
  {
    OneMore(r, s, Register(id));
  }

  lemma ReadIsStep(r: iset<Sys>, s: Sys, op: Op)
    requires Inv(s) && op.GotReader? && op.id in s.readers && StepSafe(s, op)
    requires InRange(s.pool) && ConsInRange(s.pool, s.readers[op.id].cons)
    requires Step(s, op) in r
    ensures Read(s, op.id) in r
  {
  }

  lemma WasRead(r: iset<Sys>, s: Sys, id: nat)
    requires Closed(r) && s in r && Inv(s) && id in s.readers && StepSafe(s, GotReader(id))
    requires InRange(s.pool) && ConsInRange(s.pool, s.readers[id].cons)
    ensures Read(s, id) in r
  {
    assert Step(s, GotReader(id)) in r;
    ReadIsStep(r, s, GotReader(id));
  }

  /** Packet number `k` is written to slot `k - 1`, counted round the ring. */
  ghost predicate Cyclic(s: Sys) {
    |s.pool.slots| > 0 && forall k :: k in s.at ==> s.at[k] == (k - 1) % |s.pool.slots|
  }

  lemma ModIs(a: int, m: nat, q: int)
    requires m > 0 && q * m <= a < (q + 1) * m
    ensures a % m == a - q * m
  {
    var r := a - q * m;
    var d := a / m - q;
    assert 0 <= r < m && a == (a / m) * m + a % m;
    assert d * m == (a / m) * m - q * m;
    Multiple(d, m);
  }

  lemma Multiple(d: int, m: int)
    requires m > 0
    ensures d > 0 ==> d * m >= m
    ensures d < 0 ==> d * m <= -m
  {
  }

  lemma OneTurn(a: int, m: nat)
    requires m > 0
    ensures (a - m) % m == a % m
  {
    var q := a / m;
    assert a == q * m + a % m;
    assert (q - 1) * m == q * m - m;
    assert ((q - 1) + 1) * m == q * m;
    ModIs(a - m, m, q - 1);
  }

  /** In the first round of a ring of `m` slots the place of number `k` is counted from 0. */
  lemma FirstRound(k: int, m: nat)
    requires m > 0 && 0 <= k - 1 + m && k <= m
    ensures (k - 1) % m == if k <= 0 then k - 1 + m else k - 1
  {
    assert (-1 + 1) * m == 0 && 0 * m == 0 && (0 + 1) * m == m;
    ModIs(k - 1, m, if k <= 0 then -1 else 0);
  }

  lemma InitCyclic(n: nat)
    requires n >= 2
    ensures Cyclic(Init(n))
  {
    forall k | k in Init(n).at ensures Init(n).at[k] == (k - 1) % n {
      FirstRound(k, n);
    }
  }

  lemma RotatedCyclic(s: Sys, s': Sys)
    requires Shape(s) && JoinOk(s) && Rotated(s, s', NO_PACKET) && Cyclic(s)
    ensures Cyclic(s')
  {
    OneTurn(|s.log|, |s.pool.slots|);
    forall k | k in s'.at ensures s'.at[k] == (k - 1) % |s'.pool.slots| {
      if k <= |s.log| {
        assert k in s.at;
      }
    }
  }

  /** A page added when the ring has been filled once keeps the counting. */
  lemma GrownCyclic(s: Sys, s': Sys)
    requires Shape(s) && Grown(s, s', NO_PACKET) && Cyclic(s) && |s.log| == |s.pool.slots|
    ensures Cyclic(s')
  {
    forall k | k in s'.at ensures s'.at[k] == (k - 1) % |s'.pool.slots| {
      FirstRound(k, |s'.pool.slots|);
      if 0 < k <= |s.log| {
        assert k in s.at;
        FirstRound(k, |s.pool.slots|);
      }
    }
  }

  // ---------------------------------------------------------------- writing

  /** A page is added exactly if somebody still waits for the packet in the slot to be reused. */
  lemma GrowsIffWaiting(s: Sys)
    requires Inv(s) && Exact(s)
    ensures MustGrow(s) <==> exists id :: id in s.readers && s.readers[id].Cur() < |s.log| - |s.pool.slots| + 1
  {
    AfterWritePos(s);
    var z, k := First(s), |s.log| - |s.pool.slots| + 1;
    assert Filled(s, z);
    var waiting := Waiting(s.readers, s.pool.slots[z].slotSeq);
    if waiting != {} {
      var id :| id in waiting;
    }
    if id :| id in s.readers && s.readers[id].Cur() < k {
      assert CursorOk(s, s.readers[id]);
      assert id in waiting;
    }
  }

  lemma WriteInPlace(r: iset<Sys>, s: Sys) returns (s': Sys)
    requires Ready(r, s) && !MustGrow(s)
    ensures Ready(r, s') && Rotated(s, s', NO_PACKET)
    ensures InOrder(s) ==> InOrder(s')
  {
    Written(r, s);
    s' := Produce(s, NO_PACKET);
    InPlaceRotates(s, NO_PACKET);
    WrittenInPlace(s, s');
  }

  lemma WrittenInPlace(s: Sys, s': Sys)
    requires Inv(s) && Exact(s) && !MustGrow(s) && Rotated(s, s', NO_PACKET) && Shape(s')
    ensures Exact(s') && (InOrder(s) ==> InOrder(s'))
  {
    EveryoneWaits(s, |s.log| + 1);
    RotatedKeepsExact(s, s', NO_PACKET);
    if InOrder(s) {
      RotatedKeepsOrder(s, s', NO_PACKET);
    }
  }

  lemma WriteGrowing(r: iset<Sys>, s: Sys) returns (s': Sys)
    requires Ready(r, s) && MustGrow(s)
    ensures Ready(r, s') && Grown(s, s', NO_PACKET)
  {
    Written(r, s);
    s' := Produce(s, NO_PACKET);
    GrowingGrows(s, NO_PACKET);
    WrittenGrowing(s, s');
  }

  lemma WrittenGrowing(s: Sys, s': Sys)
    requires Inv(s) && Exact(s) && Grown(s, s', NO_PACKET)
    ensures Exact(s')
  {
    EveryoneWaits(s, |s.log| + 1);
    GrownKeepsExact(s, s', NO_PACKET);
  }

  /** Write in place up to packet `target`, at most one turn ahead of every consumer. */
  lemma {:induction false} WriteUpTo(r: iset<Sys>, s: Sys, target: nat) returns (s': Sys)
    requires Ready(r, s) && Cyclic(s) && |s.log| <= target
    requires forall id :: id in s.readers ==> target <= |s.pool.slots| + s.readers[id].Cur()
    ensures Ready(r, s') && Cyclic(s') && |s'.log| == target && |s'.pool.slots| == |s.pool.slots|
            && s'.readers == s.readers
    ensures InOrder(s) ==> InOrder(s')
    decreases target - |s.log|
  {
    if |s.log| == target {
      s' := s;
    } else {
      GrowsIffWaiting(s);
      var m := WriteInPlace(r, s);
      RotatedCyclic(s, m);
      s' := WriteUpTo(r, m, target);
    }
  }

  // ---------------------------------------------------------------- reading

  /** A consumer in order is given the next packet. */
  lemma NextTaken(s: Sys, id: nat) returns (i: nat)
    requires Core(s) && id in s.readers && !Blind(s.pool, s.readers[id].cons)
    requires Fresh(s, s.readers[id]) && s.readers[id].Cur() < |s.log|
    ensures i < |s.pool.slots| && s.pool.slots[i].slotSeq == s.readers[id].Cur() + 1
    ensures InRange(s.pool) && ConsInRange(s.pool, s.readers[id].cons) && Taken(s, Read(s, id), id, i)
  {
    ReadTakes(s, id);
    FreshSelectsNext(s, id);
    i := s.readers[id].cons.readPos;
  }

  lemma TakenInOrder(s: Sys, s': Sys, id: nat, i: nat)
    requires Core(s) && Exact(s) && id in s.readers && i < |s.pool.slots| && Taken(s, s', id, i)
    requires s.pool.slots[i].slotSeq == s.readers[id].Cur() + 1
    ensures Shape(s') && Exact(s') && Fresh(s', s'.readers[id]) && s'.readers[id].Cur() == s.readers[id].Cur() + 1
  {
    TakenKeepsReaders(s, s', id, i);
    assert CursorOk(s, s.readers[id]);
    TakenKeepsFresh(s, s', id, i);
    TakenKeepsExact(s, s', id, i);
  }

  /** Only the cursor of `id` and reference counts changed, `k` packets later. */
  ghost predicate Moved(s: Sys, s': Sys, id: nat, k: nat) {
    && SameRing(s, s') && OnlyMoved(s, s', id)
    && s'.readers[id].start == s.readers[id].start && |s'.readers[id].got| == |s.readers[id].got| + k
    && s'.readers[id].Cur() == s.readers[id].Cur() + k
  }

  lemma TakenMoved(s: Sys, s': Sys, id: nat, i: nat)
    requires id in s.readers && i < |s.pool.slots| && Taken(s, s', id, i)
    requires s'.readers[id].Cur() == s.readers[id].Cur() + 1
    ensures Moved(s, s', id, 1)
  {
  }

  lemma ReadStaysSighted(s: Sys, id: nat)
    requires Inv(s) && Sighted(s) && id in s.readers
    ensures InRange(s.pool) && ConsInRange(s.pool, s.readers[id].cons)
    ensures Inv(Read(s, id)) && Sighted(Read(s, id))
  {
    ReadKeepsCore(s, id);
    var s' := Read(s, id);
    SameCount(s.readers, s'.readers, id);
    forall m | m in s'.readers ensures !Blind(s'.pool, s'.readers[m].cons) {
      ReadSees(s, id, m);
      SameBlind(s.pool, s'.pool, s'.readers[m].cons);
    }
  }

  lemma ReadNext(r: iset<Sys>, s: Sys, id: nat) returns (s': Sys)
    requires Ready(r, s) && id in s.readers && Fresh(s, s.readers[id]) && s.readers[id].Cur() < |s.log|
    ensures Ready(r, s') && Moved(s, s', id, 1) && Fresh(s', s'.readers[id])
  {
    ReadStaysSighted(s, id);
    WasRead(r, s, id);
    var i := NextTaken(s, id);
    s' := Read(s, id);
    TakenInOrder(s, s', id, i);
    TakenMoved(s, s', id, i);
  }

  lemma SameCount(readers: map<nat, Reader>, readers': map<nat, Reader>, id: nat)
    requires id in readers && id in readers' && readers' == readers[id := readers'[id]]
    ensures |readers'| == |readers|
  {
    assert readers'.Keys == readers.Keys;
  }

  lemma MovedOn(s: Sys, m: Sys, s': Sys, id: nat, k: nat)
    requires Moved(s, m, id, 1) && Moved(m, s', id, k)
    ensures Moved(s, s', id, k + 1)
  {
  }

  /** A consumer in order reads up to packet `target`. */
  lemma {:induction false} ReadUpTo(r: iset<Sys>, s: Sys, id: nat, target: nat) returns (s': Sys)
    requires Ready(r, s) && id in s.readers && Fresh(s, s.readers[id]) && s.readers[id].Cur() <= target <= |s.log|
    ensures Ready(r, s') && Moved(s, s', id, target - s.readers[id].Cur()) && Fresh(s', s'.readers[id])
    decreases target - s.readers[id].Cur()
  {
    if s.readers[id].Cur() == target {
      s' := s;
    } else {
      var m := ReadNext(r, s, id);
      s' := ReadUpTo(r, m, id, target);
      MovedOn(s, m, s', id, target - m.readers[id].Cur());
    }
  }

  lemma CursorAtEnd(s: Sys, id: nat)
    requires Core(s) && id in s.readers && Fresh(s, s.readers[id]) && s.readers[id].got != []
             && s.readers[id].Cur() == |s.log|
    ensures |s.log| in s.at && s.readers[id].cons == Consumer(First(s), s.at[|s.log|], |s.log|)
  {
    assert GotOk(s.readers[id], s.log) && CursorOk(s, s.readers[id]);
    HeldSlot(s, |s.log|);
  }

  // ---------------------------------------------------------------- joining

  /** The consumers `ids` have joined a pool of `n` slots, and nothing was written. */
  ghost predicate Newcomers(s: Sys, n: nat, ids: set<nat>) {
    && Cyclic(s) && |s.log| == 0 && |s.pool.slots| == n && s.joinSeq == 1 && s.readers.Keys == ids
    && forall id :: id in s.readers ==> s.readers[id].start == 0 && s.readers[id].got == []
  }

  lemma OneNewcomer(s: Sys, n: nat, ids: set<nat>, id: nat)
    requires Newcomers(s, n, ids) && id !in s.readers
    ensures Newcomers(Join(s, id), n, ids + {id})
  {
  }

  lemma JoinNew(r: iset<Sys>, s: Sys, n: nat, ids: set<nat>, id: nat) returns (s': Sys)
    requires Ready(r, s) && InOrder(s) && Newcomers(s, n, ids) && id !in ids
    ensures Ready(r, s') && InOrder(s') && Newcomers(s', n, ids + {id})
  {
    Joined(r, s, id);
    JoinKeepsOrder(s, id);
    OneNewcomer(s, n, ids, id);
    s' := Join(s, id);
  }

  /** The consumers 0 and 1, and nothing written. */
  lemma TwoJoined(r: iset<Sys>, n: nat) returns (s: Sys)
    requires n >= 2 && Closed(r) && Init(n) in r
    ensures Ready(r, s) && InOrder(s) && Newcomers(s, n, {0} + {1})
  {
    var m := OneJoined(r, n);
    s := JoinNew(r, m, n, {0}, 1);
  }

  /** One consumer, and nothing written. */
  lemma OneJoined(r: iset<Sys>, n: nat) returns (s: Sys)
    requires n >= 2 && Closed(r) && Init(n) in r
    ensures Ready(r, s) && InOrder(s) && Newcomers(s, n, {0})
  {
    InitReady(r, n);
    s := JoinNew(r, Init(n), n, {}, 0);
    assert {} + {0} == {0};
  }

  lemma InitReady(r: iset<Sys>, n: nat)
    requires n >= 2 && Closed(r) && Init(n) in r
    ensures Ready(r, Init(n)) && InOrder(Init(n)) && Newcomers(Init(n), n, {})
  {
    InitInv(n);
    InitCyclic(n);
    assert forall k :: Waiting(Init(n).readers, k) == {};
  }

  lemma FreshIn(s: Sys, id: nat)
    requires Shape(s) && InOrder(s) && id in s.readers
    ensures Fresh(s, s.readers[id])
  {
  }

  // ---------------------------------------------------------------- skipping packets

  /** `l` packets in `m` slots, of which consumers 0 and 1 were given those up to `x` and `y`. */
  ghost predicate Stage(s: Sys, l: nat, m: nat, x: nat, y: nat) {
    && |s.log| == l && |s.pool.slots| == m && s.readers.Keys == {0, 1}
    && s.readers[0].start == 0 && s.readers[0].Cur() == x == |s.readers[0].got| && s.readers[1].Cur() == y
  }

  lemma MovedStage(s: Sys, s': Sys, id: nat, k: nat, l: nat, m: nat, x: nat, y: nat)
    requires Stage(s, l, m, x, y) && Moved(s, s', id, k) && (id == 0 || id == 1)
    ensures if id == 0 then Stage(s', l, m, x + k, y) else Stage(s', l, m, x, y + k)
  {
  }

  lemma MovedCyclic(s: Sys, s': Sys, id: nat, k: nat)
    requires Cyclic(s) && Moved(s, s', id, k)
    ensures Cyclic(s')
  {
  }

  lemma GrownStage(s: Sys, s': Sys, l: nat, m: nat, x: nat, y: nat)
    requires Shape(s) && Stage(s, l, m, x, y) && Grown(s, s', NO_PACKET)
    ensures Stage(s', l + 1, m + PAGE, x, y)
  {
  }

  lemma NewcomersStage(s: Sys, s': Sys, n: nat)
    requires Newcomers(s, n, {0} + {1}) && s'.readers == s.readers && |s'.log| == |s'.pool.slots| == n
    ensures Stage(s', n, n, 0, 0)
  {
  }

  /** A full pool that nobody has read. */
  lemma PoolFilled(r: iset<Sys>, n: nat) returns (s: Sys)
    requires n >= 2 && Closed(r) && Init(n) in r
    ensures Ready(r, s) && Cyclic(s) && Stage(s, n, n, 0, 0) && Fresh(s, s.readers[0]) && Fresh(s, s.readers[1])
  {
    var m := TwoJoined(r, n);
    s := WriteUpTo(r, m, n);
    NewcomersStage(m, s, n);
    FreshIn(s, 0);
    FreshIn(s, 1);
  }

  /** A full pool that consumer 0 has read and consumer 1 has not. */
  lemma FirstCaughtUp(r: iset<Sys>, n: nat) returns (s: Sys)
    requires n >= 2 && Closed(r) && Init(n) in r
    ensures Ready(r, s) && Cyclic(s) && Stage(s, n, n, n, 0) && Fresh(s, s.readers[0]) && Fresh(s, s.readers[1])
  {
    var m := PoolFilled(r, n);
    s := ReadUpTo(r, m, 0, n);
    SameRingKeepsFresh(m, s, m.readers[1]);
    MovedStage(m, s, 0, n, n, n, 0, 0);
    MovedCyclic(m, s, 0, n);
  }

  /** Once round the ring, packets 1 to `n` are in slots 0 to `n - 1`. */
  lemma OneRound(s: Sys, n: nat)
    requires n >= 2 && Shape(s) && Cyclic(s) && |s.log| == n == |s.pool.slots|
    ensures First(s) == 0 && n in s.at && s.at[n] == n - 1
  {
    ModIs(0, n, 0);
    ModIs(n - 1, n, 0);
  }

  /** Consumer 0 has read packet `n` from slot `n - 1` and expects the next packet in slot 0. */
  ghost predicate AtEnd(s: Sys, n: nat) {
    0 in s.readers && s.readers[0].cons == Consumer(0, n - 1, n)
  }

  lemma FullCursor(s: Sys, n: nat)
    requires n >= 2 && Core(s) && Stage(s, n, n, n, 0) && Fresh(s, s.readers[0]) && First(s) == 0 && n in s.at
             && s.at[n] == n - 1
    ensures AtEnd(s, n)
  {
    CursorAtEnd(s, 0);
  }

  /** A page is added after slot `n - 1`. */
  lemma PageAdded(r: iset<Sys>, n: nat) returns (s: Sys)
    requires n >= 2 && Closed(r) && Init(n) in r
    ensures Ready(r, s) && Cyclic(s) && Stage(s, n + 1, n + PAGE, n, 0) && AtEnd(s, n) && Fresh(s, s.readers[1])
  {
    var m := FirstCaughtUp(r, n);
    OneRound(m, n);
    FullCursor(m, n);
    s := GrowAgain(r, m, n, n, n, 0);
    GrownCyclic(m, s);
    GrownKeepsFresh(m, s, NO_PACKET, m.readers[1]);
  }

  /** A page is added because consumer 1 is a whole turn behind. */
  lemma GrowAgain(r: iset<Sys>, s: Sys, l: nat, m: nat, x: nat, y: nat) returns (s': Sys)
    requires Ready(r, s) && Stage(s, l, m, x, y) && y < l - m + 1
    ensures Ready(r, s') && Grown(s, s', NO_PACKET) && Stage(s', l + 1, m + PAGE, x, y)
  {
    GrowsIffWaiting(s);
    s' := WriteGrowing(r, s);
    GrownStage(s, s', l, m, x, y);
  }

  /** Consumer 1 reads what consumer 0 has read. */
  lemma BothRead(r: iset<Sys>, n: nat) returns (s: Sys)
    requires n >= 2 && Closed(r) && Init(n) in r
    ensures Ready(r, s) && Cyclic(s) && Stage(s, n + 1, n + PAGE, n, n) && AtEnd(s, n)
  {
    var m := PageAdded(r, n);
    s := ReadUpTo(r, m, 1, n);
    MovedStage(m, s, 1, n, n + 1, n + PAGE, n, 0);
    MovedCyclic(m, s, 1, n);
  }

  /** All slots are written round to slot `n - 1`. */
  lemma LapDone(r: iset<Sys>, n: nat) returns (s: Sys)
    requires n >= 2 && Closed(r) && Init(n) in r
    ensures Ready(r, s) && Stage(s, 2 * n + PAGE, n + PAGE, n, n) && AtEnd(s, n) && Cyclic(s)
  {
    var m := BothRead(r, n);
    NobodyOvertaken(m, n);
    s := WriteUpTo(r, m, 2 * n + PAGE);
    SameReaders(m, s, n);
  }

  lemma NobodyOvertaken(s: Sys, n: nat)
    requires Stage(s, n + 1, n + PAGE, n, n)
    ensures forall id :: id in s.readers ==> 2 * n + PAGE <= |s.pool.slots| + s.readers[id].Cur()
  {
  }

  lemma SameReaders(m: Sys, s: Sys, n: nat)
    requires Stage(m, n + 1, n + PAGE, n, n) && AtEnd(m, n) && s.readers == m.readers
    requires |s.log| == 2 * n + PAGE && |s.pool.slots| == n + PAGE
    ensures Stage(s, 2 * n + PAGE, n + PAGE, n, n) && AtEnd(s, n)
  {
  }

  lemma SecondRound(s: Sys, n: nat)
    requires n >= 2 && Shape(s) && Cyclic(s) && |s.log| == 2 * n + PAGE && |s.pool.slots| == n + PAGE
    ensures s.pool.writePos == n - 1 && n + PAGE + 1 in s.at && s.at[n + PAGE + 1] == 0
  {
    ModIs(n + PAGE, n + PAGE, 1);
    ModIs(2 * n + PAGE - 1, n + PAGE, 1);
  }

  /** Slot 0 holds packet `n + 10`, and the slot after `n - 1` a newer one. */
  ghost predicate Reused(s: Sys, n: nat) {
    && n >= 2 && |s.pool.slots| > n + PAGE && s.pool.slots[0].slotSeq == n + PAGE + 1
    && s.pool.slots[n - 1].next == n + PAGE && s.pool.slots[n + PAGE].slotSeq == 2 * n + PAGE + 1
  }

  lemma GrownReused(f: Sys, s: Sys, n: nat)
    requires n >= 2 && Shape(f) && Grown(f, s, NO_PACKET) && |f.log| == 2 * n + PAGE && |f.pool.slots| == n + PAGE
    requires f.pool.writePos == n - 1 && n + PAGE + 1 in f.at && f.at[n + PAGE + 1] == 0 && f.low <= n
    ensures Reused(s, n)
  {
    HeldSlot(f, n + PAGE + 1);
  }

  /** Another page goes in after slot `n - 1`. */
  lemma Overtaken(r: iset<Sys>, n: nat) returns (s: Sys)
    requires n >= 2 && Closed(r) && Init(n) in r
    ensures Ready(r, s) && Stage(s, 2 * n + PAGE + 1, n + 2 * PAGE, n, n) && AtEnd(s, n) && Reused(s, n) && s.low <= n
  {
    var f := LapDone(r, n);
    SecondRound(f, n);
    LowBehind(f, 0);
    s := GrowAgain(r, f, 2 * n + PAGE, n + PAGE, n, n);
    GrownReused(f, s, n);
  }

  lemma LowBehind(s: Sys, id: nat)
    requires Core(s) && id in s.readers
    ensures s.low <= s.readers[id].Cur()
  {
    assert CursorOk(s, s.readers[id]);
  }

  /** Consumer 0 was given packets 1 to `n` and then packet `n + 10`; those between wait in the ring. */
  ghost predicate Skipped(s: Sys, n: nat) {
    && n >= 1 && 0 in s.readers && s.readers[0].start == 0 && |s.readers[0].got| == n + 1
    && s.readers[0].got[n - 1].seqno == n && s.readers[0].got[n].seqno == n + PAGE + 1
    && forall k :: n < k <= n + PAGE ==> Held(s, k)
  }

  lemma SelectsReused(p: Pool, n: nat)
    requires n >= 2 && InRange(p) && |p.slots| > n + PAGE && p.slots[0].refs > 0 && p.slots[0].slotSeq == n + PAGE + 1
    requires p.slots[n - 1].next == n + PAGE && p.slots[n + PAGE].slotSeq == 2 * n + PAGE + 1
    ensures ConsInRange(p, Consumer(0, n - 1, n)) && Select(p, Consumer(0, n - 1, n)) == Some(0)
  {
  }

  lemma OvertakenSelects(s: Sys, n: nat)
    requires Core(s) && 0 in s.readers && s.readers[0].Cur() == n && AtEnd(s, n) && Reused(s, n)
    ensures InRange(s.pool) && ConsInRange(s.pool, s.readers[0].cons)
    ensures Select(s.pool, s.readers[0].cons) == Some(0)
  {
    ShapeInRange(s);
    UnreadReferenced(s, 0, 0);
    SelectsReused(s.pool, n);
  }

  lemma SkipsNow(s: Sys, n: nat)
    requires Stage(s, 2 * n + PAGE + 1, n + 2 * PAGE, n, n) && Reused(s, n) && s.low <= n
    requires InRange(s.pool) && ConsInRange(s.pool, s.readers[0].cons) && Select(s.pool, s.readers[0].cons) == Some(0)
    ensures Skipped(Read(s, 0), n)
  {
  }

  lemma Skips(r: iset<Sys>, n: nat) returns (s: Sys)
    requires n >= 2 && Closed(r) && Init(n) in r
    ensures s in r && Skipped(s, n)
  {
    var m := Overtaken(r, n);
    OvertakenSelects(m, n);
    WasRead(r, m, 0);
    SkipsNow(m, n);
    s := Read(m, 0);
  }

  // ---------------------------------------------------------------- reading an empty slot

  /** A lone consumer that was given the first `x` of `l` packets. */
  ghost predicate Lone(s: Sys, n: nat, l: nat, x: nat) {
    && Cyclic(s) && |s.log| == l && |s.pool.slots| == n && s.readers.Keys == {0}
    && s.readers[0].start == 0 && s.readers[0].Cur() == x == |s.readers[0].got|
  }

  lemma MovedLone(s: Sys, s': Sys, n: nat, l: nat, k: nat)
    requires Lone(s, n, l, 0) && Moved(s, s', 0, k)
    ensures Lone(s', n, l, k)
  {
    MovedCyclic(s, s', 0, k);
  }

  lemma OneWritten(r: iset<Sys>, n: nat) returns (s: Sys)
    requires n >= 2 && Closed(r) && Init(n) in r
    ensures Ready(r, s) && Lone(s, n, 1, 0) && Fresh(s, s.readers[0])
  {
    var m := OneJoined(r, n);
    s := WriteUpTo(r, m, 1);
    FreshIn(s, 0);
  }

  lemma OneRead(r: iset<Sys>, n: nat) returns (s: Sys)
    requires n >= 2 && Closed(r) && Init(n) in r
    ensures Ready(r, s) && Lone(s, n, 1, 1) && Fresh(s, s.readers[0])
  {
    var m := OneWritten(r, n);
    s := ReadUpTo(r, m, 0, 1);
    MovedLone(m, s, n, 1, 1);
  }

  lemma FirstPlaces(s: Sys, n: nat)
    requires n >= 2 && Shape(s) && Cyclic(s) && |s.log| == 1 && |s.pool.slots| == n
    ensures First(s) == 1 && 1 in s.at && s.at[1] == 0
  {
    ModIs(0, n, 0);
    ModIs(1 - n, n, -1);
  }

  /** It has read one packet, and a whole turn of packets was written after it. */
  lemma OneBehind(r: iset<Sys>, n: nat) returns (s: Sys)
    requires n >= 2 && Closed(r) && Init(n) in r
    ensures Ready(r, s) && Cyclic(s) && |s.log| == n + 1 && |s.pool.slots| == n && s.readers.Keys == {0}
    ensures s.readers[0].Cur() == 1 && s.readers[0].cons == Consumer(1, 0, 1)
  {
    var m := OneRead(r, n);
    FirstPlaces(m, n);
    CursorAtEnd(m, 0);
    s := WriteUpTo(r, m, n + 1);
  }

  lemma TurnPlaces(s: Sys, n: nat)
    requires n >= 2 && Shape(s) && Cyclic(s) && |s.log| == n + 1 && |s.pool.slots| == n
    ensures s.pool.writePos == 0 && 2 in s.at && s.at[2] == 1
  {
    ModIs(n, n, 1);
    ModIs(1, n, 0);
  }

  /** Consumer 0 is blind: it has packets to read and is about to be handed the slot `e`, which was never written. */
  ghost predicate ReadsEmpty(s: Sys, e: nat) {
    && Inv(s) && 0 in s.readers && s.readers[0].Cur() < |s.log| && Blind(s.pool, s.readers[0].cons)
    && InRange(s.pool) && ConsInRange(s.pool, s.readers[0].cons) && Select(s.pool, s.readers[0].cons) == Some(e)
    && e < |s.pool.slots| && s.pool.slots[e].slotSeq == 0
  }

  lemma BehindReadsEmpty(s: Sys, n: nat, data: seq<bv8>)
    requires n >= 2 && Inv(s) && MustGrow(s) && |s.log| == n + 1 && |s.pool.slots| == n && 0 in s.readers
    requires s.readers[0].Cur() == 1 && s.readers[0].cons == Consumer(1, 0, 1)
    requires s.pool.writePos == 0 && 2 in s.at && s.at[2] == 1
    ensures ReadsEmpty(Reserve(s, data), n)
  {
    var s' := Reserve(s, data);
    SecondUnread(s);
    BehindExposed(s);
    ReserveKeepsInv(s, data);
    ReserveBlindsIff(s, data, s.readers[0].cons);
    BlindReadsNothing(s', 0);
    GrowingSplices(s, data);
    AfterWritePos(s');
  }

  lemma SecondUnread(s: Sys)
    requires Core(s) && 0 in s.readers && s.readers[0].Cur() == 1 && |s.log| >= 2 && 2 in s.at && s.at[2] == 1
    ensures 1 < |s.pool.slots| && s.pool.slots[1].slotSeq == 2 && s.pool.slots[1].refs > 0
  {
    LowBehind(s, 0);
    HeldSlot(s, 2);
    UnreadReferenced(s, 0, 1);
  }

  lemma BehindExposed(s: Sys)
    requires Shape(s) && |s.log| > 1 && s.pool.writePos == 0 && 0 in s.readers && s.readers[0].cons == Consumer(1, 0, 1)
    ensures ExposedReader(s.pool, s.readers[0].cons)
  {
    AfterWritePos(s);
  }

  // ---------------------------------------------------------------- as runs

  ghost predicate RunTo(n: nat, ops: seq<Op>, s: Sys)
    requires n >= 2
  {
    Safe(n, ops) && s == Run(n, ops)
  }

  ghost predicate Reachable(n: nat, s: Sys)
    requires n >= 2
  {
    exists ops :: RunTo(n, ops, s)
  }

  lemma RunMore(n: nat, ops: seq<Op>, s: Sys, op: Op)
    requires n >= 2 && RunTo(n, ops, s) && StepSafe(s, op)
    ensures Inv(s) && RunTo(n, ops + [op], Step(s, op))
  {
    var more := ops + [op];
    assert more[..|more| - 1] == ops && more[|more| - 1] == op;
    assert Safe(n, more);
  }

  lemma OneStepOn(n: nat, s: Sys, op: Op)
    requires n >= 2 && Reachable(n, s) && StepSafe(s, op)
    ensures Inv(s) && Reachable(n, Step(s, op))
  {
    var before :| RunTo(n, before, s);
    RunMore(n, before, s, op);
    assert RunTo(n, before + [op], Step(s, op));
  }

  lemma ReachableClosed(n: nat) returns (r: iset<Sys>)
    requires n >= 2
    ensures Closed(r) && Init(n) in r && forall s :: s in r ==> Reachable(n, s)
  {
    r := iset s | Reachable(n, s);
    assert RunTo(n, [], Init(n));
    forall s, op {:trigger Step(s, op)} | s in r && Inv(s) && StepSafe(s, op) ensures Step(s, op) in r {
      OneStepOn(n, s, op);
    }
  }

  /**
   In a pool of any size, two consumers: a page is added while one of them has read everything, and
   later that one is given packet `n + 10` right after packet `n`.
   */
  lemma SkippingRun(n: nat) returns (ops: seq<Op>)
    requires n >= 2
    ensures Safe(n, ops) && Skipped(Run(n, ops), n)
  {
    var r := ReachableClosed(n);
    var s := Skips(r, n);
    ops :| RunTo(n, ops, s);
  }

  /**
   In a pool of any size, one consumer that has fallen behind by a whole turn and a reservation that
   is not committed yet: the consumer is about to be handed a slot that was never written.
   */
  lemma EmptySlotRun(n: nat, data: seq<bv8>) returns (ops: seq<Op>)
    requires n >= 2
    ensures Safe(n, ops) && Outstanding(ops) && ReadsEmpty(Run(n, ops), n)
  {
    var r := ReachableClosed(n);
    var s := OneBehind(r, n);
    GrowsIffWaiting(s);
    TurnPlaces(s, n);
    BehindReadsEmpty(s, n, data);
    var before :| RunTo(n, before, s);
    RunMore(n, before, s, GetSlot(data));
    ops := before + [GetSlot(data)];
  }

  // ---------------------------------------------------------------- a pool of one slot

  /** In a pool of one slot a read packet is given out again exactly if others still have to read it. */
  lemma OneSlotRepeatsIff(p: Pool, c: Consumer)
    requires InRange(p) && ConsInRange(p, c) && |p.slots| == 1 && p.slots[0].refs > 0
    ensures InRange(Take(p, 0)) && ConsInRange(Take(p, 0), Advance(p, 0))
    ensures Select(Take(p, 0), Advance(p, 0)) == Some(0) <==> p.slots[0].refs > 1
  {
  }

  /** Two consumers join a pool of one slot and a packet is written: the first to read gets it twice. */
  lemma OneSlotRepeats(pkt: Packet)
    ensures var j := Join(Join(Init(1), 0), 1);
            var p, c := Commit(j.pool, pkt), j.readers[0].cons;
            && InRange(p) && ConsInRange(p, c) && Select(p, c) == Some(0) && p.slots[0].slotSeq == 1
            && InRange(Take(p, 0)) && ConsInRange(Take(p, 0), Advance(p, 0))
            && Select(Take(p, 0), Advance(p, 0)) == Some(0)
  {
    var j := Join(Join(Init(1), 0), 1);
    var p := Commit(j.pool, pkt);
    assert p.slots[0].refs == 2;
    OneSlotRepeatsIff(p, j.readers[0].cons);
  }
}
