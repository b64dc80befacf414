/** The pool of RTP/RTCP port pairs of one server process. */
module PortPool {

  /** Connections one process serves, which is also the size of its pool. */
  const CONNECTIONS: nat := 100
  const DEFAULT_PORT: int := 5004

  datatype PortPair = PortPair(rtp: int, rtcp: int)

  function PairOf(start: int, entry: int): PortPair {
    var rtp := (entry - start) * 2 + start;
    PortPair(rtp, rtp + 1)
  }

  /** C division by two: towards zero. */
  function Half(n: int): int { if n >= 0 then n / 2 else -(-n / 2) }

  /** The pool entry that stands for a pair. */
  function EntryOf(start: int, pair: PortPair): int { Half(pair.rtp - start) + start }

  function InitialEntries(start: int): seq<int> { seq(CONNECTIONS, i => i + start) }

  function Zeros(n: nat): multiset<int> { multiset{}[0 := n] }

  /**
   Conservation: with the leased entries put back, the pool is a permutation of the initial one,
   except that every lease leaves one zero behind.
   */
  ghost predicate Conserved(start: int, entries: seq<int>, leased: multiset<int>) {
    && |entries| == CONNECTIONS && start > 0 && leased[0] == 0
    && multiset(entries) + leased == multiset(InitialEntries(start)) + Zeros(|leased|)
  }

  lemma {:induction false} CountUpTo(start: int, n: nat, x: int)
    ensures multiset(seq(n, i => i + start))[x] == if start <= x < start + n then 1 else 0
    decreases n
  {
    var s := seq(n, i => i + start);
    if n == 0 {
      assert s == [];
    } else {
      CountUpTo(start, n - 1, x);
      assert s == seq(n - 1, i => i + start) + [n - 1 + start];
    }
  }

  /** Each port index is initially in the pool once. */
  lemma InitialCount(start: int, x: int)
    ensures multiset(InitialEntries(start))[x] == if start <= x < start + CONNECTIONS then 1 else 0
  {
    CountUpTo(start, CONNECTIONS, x);
    assert InitialEntries(start) == seq(CONNECTIONS, i => i + start);
  }

  lemma Balance(start: int, entries: seq<int>, leased: multiset<int>, x: int)
    requires Conserved(start, entries, leased)
    ensures multiset(entries)[x] + leased[x] == multiset(InitialEntries(start))[x] + if x == 0 then |leased| else 0
  {
    assert (multiset(entries) + leased)[x] == (multiset(InitialEntries(start)) + Zeros(|leased|))[x];
  }

  lemma Rebalance(initial: multiset<int>, a: multiset<int>, leased: multiset<int>, b: multiset<int>,
                  after: multiset<int>, x: int)
    requires a + leased == initial + Zeros(|leased|)
    requires after == leased + multiset{x} && a + multiset{0} == b + multiset{x}
    ensures b + after == initial + Zeros(|after|)
  {
    assert Zeros(|after|) == Zeros(|leased|) + multiset{0};
    assert b + after == (b + multiset{x}) + leased;
    assert b + after == (a + leased) + multiset{0};
  }

  lemma RebalanceBack(initial: multiset<int>, a: multiset<int>, leased: multiset<int>, b: multiset<int>,
                      after: multiset<int>, x: int)
    requires a + leased == initial + Zeros(|leased|)
    requires leased == after + multiset{x} && b + multiset{0} == a + multiset{x}
    ensures b + after == initial + Zeros(|after|)
  {
    assert Zeros(|leased|) == Zeros(|after|) + multiset{0};
    assert (b + after) + multiset{0} == (a + multiset{x}) + after;
    assert (a + multiset{x}) + after == a + leased;
    assert initial + Zeros(|leased|) == (initial + Zeros(|after|)) + multiset{0};
    Cancel(b + after, initial + Zeros(|after|), 0);
  }

  lemma Cancel(a: multiset<int>, b: multiset<int>, x: int)
    requires a + multiset{x} == b + multiset{x}
    ensures a == b
  {
    assert a == (a + multiset{x}) - multiset{x};
    assert b == (b + multiset{x}) - multiset{x};
  }

  lemma UpdatedContents(entries: seq<int>, i: nat, x: int)
    requires i < |entries|
    ensures multiset(entries[i := x]) + multiset{entries[i]} == multiset(entries) + multiset{x}
  {
    assert multiset(entries[i := x]) == multiset(entries) - multiset{entries[i]} + multiset{x};
    assert entries[i] in multiset(entries);
  }

  /** Nothing is leased twice, no entry is both free and leased, and a zero stands for exactly one lease. */
  lemma LeasedOnce(start: int, entries: seq<int>, leased: multiset<int>, x: int)
    requires Conserved(start, entries, leased)
    ensures x != 0 ==> multiset(entries)[x] + leased[x] == if start <= x < start + CONNECTIONS then 1 else 0
    ensures multiset(entries)[0] == |leased| && leased[0] == 0
  {
    InitialCount(start, x);
    InitialCount(start, 0);
    Balance(start, entries, leased, x);
    Balance(start, entries, leased, 0);
  }

  /** A free slot is taken: the pool stays conserved with the entry leased. */
  lemma LeaseConserves(start: int, entries: seq<int>, leased: multiset<int>, i: nat)
    requires Conserved(start, entries, leased) && i < |entries| && entries[i] != 0
    ensures Conserved(start, entries[i := 0], leased + multiset{entries[i]})
    ensures start <= entries[i] < start + CONNECTIONS && leased[entries[i]] == 0
  {
    var x := entries[i];
    assert x in multiset(entries);
    LeasedOnce(start, entries, leased, x);
    UpdatedContents(entries, i, 0);
    Rebalance(multiset(InitialEntries(start)), multiset(entries), leased, multiset(entries[i := 0]),
              leased + multiset{x}, x);
  }

  /** A leased entry goes back into a slot that is zero. */
  lemma ReleaseConserves(start: int, entries: seq<int>, leased: multiset<int>, i: nat, x: int)
    requires Conserved(start, entries, leased) && i < |entries| && entries[i] == 0 && x in leased
    ensures Conserved(start, entries[i := x], leased - multiset{x})
  {
    UpdatedContents(entries, i, x);
    assert leased == (leased - multiset{x}) + multiset{x};
    RebalanceBack(multiset(InitialEntries(start)), multiset(entries), leased, multiset(entries[i := x]),
                  leased - multiset{x}, x);
  }

  /** No leases explain the pool any more. */
  ghost predicate Broken(start: int, entries: seq<int>) {
    forall after :: !Conserved(start, entries, after)
  }

  lemma ReleasedWasLeased(start: int, entries: seq<int>, leased: multiset<int>, i: nat, x: int, after: multiset<int>)
    requires Conserved(start, entries, leased) && i < |entries| && entries[i] == 0 && x != 0
    requires Conserved(start, entries[i := x], after)
    ensures x in leased
  {
    UpdatedContents(entries, i, x);
    assert multiset(entries[i := x])[x] == multiset(entries)[x] + 1;
    LeasedOnce(start, entries, leased, x);
    LeasedOnce(start, entries[i := x], after, x);
  }

  /** A pair leaves a pool that some leases explain exactly if the entry it stands for is leased. */
  lemma ReleaseBreaksIff(start: int, entries: seq<int>, leased: multiset<int>, i: nat, pair: PortPair)
    requires Conserved(start, entries, leased) && i < |entries| && entries[i] == 0 && EntryOf(start, pair) != 0
    ensures Broken(start, entries[i := EntryOf(start, pair)]) <==> EntryOf(start, pair) !in leased
  {
    var x := EntryOf(start, pair);
    if x in leased {
      ReleaseConserves(start, entries, leased, i, x);
    } else if !Broken(start, entries[i := x]) {
      var after :| Conserved(start, entries[i := x], after);
      ReleasedWasLeased(start, entries, leased, i, x, after);
    }
  }

  /**
   Which pairs stand for an entry: the one whose RTP port is at twice the distance from the start, and
   those one port further away from the start, as the distance is halved towards zero.
   */
  lemma EntryOfIff(start: int, x: int, pair: PortPair)
    ensures EntryOf(start, pair) == x <==>
            var off := pair.rtp - (start + 2 * (x - start));
            (if x <= start then -1 else 0) <= off <= (if x >= start then 1 else 0)
  {
  }

  /** The first entry that is free. */
  ghost predicate FirstFree(entries: seq<int>, i: nat) {
    i < |entries| && entries[i] != 0 && forall k :: 0 <= k < i ==> entries[k] == 0
  }

  /** The first entry that is leased. */
  ghost predicate FirstZero(entries: seq<int>, i: nat) {
    i < |entries| && entries[i] == 0 && forall k :: 0 <= k < i ==> entries[k] != 0
  }

  /** Releasing the pair that was handed out restores the leases, and the pool up to its order. */
  lemma GetThenRelease(start: int, entries: seq<int>, leased: multiset<int>, i: nat, j: nat)
    requires Conserved(start, entries, leased) && FirstFree(entries, i) && FirstZero(entries[i := 0], j)
    ensures var after := entries[i := 0][j := EntryOf(start, PairOf(start, entries[i]))];
            Conserved(start, after, leased) && multiset(after) == multiset(entries)
  {
    var x := entries[i];
    EntryOfPair(start, x);
    LeaseConserves(start, entries, leased, i);
    ReleaseConserves(start, entries[i := 0], leased + multiset{x}, j, x);
    assert leased + multiset{x} - multiset{x} == leased;
    SameLeasesSameEntries(start, entries, entries[i := 0][j := x], leased);
  }

  lemma SameLeasesSameEntries(start: int, a: seq<int>, b: seq<int>, leased: multiset<int>)
    requires Conserved(start, a, leased) && Conserved(start, b, leased)
    ensures multiset(a) == multiset(b)
  {
    assert multiset(a) == (multiset(a) + leased) - leased;
    assert multiset(b) == (multiset(b) + leased) - leased;
  }

  lemma EntryOfPair(start: int, x: int)
    ensures EntryOf(start, PairOf(start, x)) == x
  {
  }

  /** Releasing a pair twice while another pair is leased: the second release breaks the pool. */
  lemma DoubleRelease(start: int, entries: seq<int>, leased: multiset<int>, x: int, i: nat, j: nat)
    requires Conserved(start, entries, leased) && x in leased && i < |entries| && j < |entries| && i != j
    requires entries[i] == 0 && entries[j] == 0
    ensures Conserved(start, entries[i := x], leased - multiset{x}) && Broken(start, entries[i := x][j := x])
  {
    LeasedOnce(start, entries, leased, x);
    ReleaseConserves(start, entries, leased, i, x);
    EntryOfPair(start, x);
    ReleaseBreaksIff(start, entries[i := x], leased - multiset{x}, j, PairOf(start, x));
  }

  /** For instance with the first two pairs of the parent process leased, and the first released twice. */
  lemma DoubleReleaseInput()
    ensures var e := InitialEntries(DEFAULT_PORT)[0 := 0][1 := 0];
            Conserved(DEFAULT_PORT, e, multiset{DEFAULT_PORT, DEFAULT_PORT + 1})
            && Broken(DEFAULT_PORT, e[0 := DEFAULT_PORT][1 := DEFAULT_PORT])
  {
    var p := DEFAULT_PORT;
    var e := InitialEntries(p);
    var none: multiset<int> := multiset{};
    assert multiset(e) + none == multiset(e) + Zeros(0);
    LeaseConserves(p, e, none, 0);
    LeaseConserves(p, e[0 := 0], none + multiset{p}, 1);
    assert none + multiset{p} + multiset{p + 1} == multiset{p, p + 1};
    DoubleRelease(p, e[0 := 0][1 := 0], multiset{p, p + 1}, p, 0, 1);
  }

  /** There is a free entry exactly while fewer pairs than connections are leased. */
  lemma FreeIff(start: int, entries: seq<int>, leased: multiset<int>)
    requires Conserved(start, entries, leased)
    ensures |leased| <= CONNECTIONS
    ensures (exists i :: 0 <= i < |entries| && entries[i] != 0) <==> |leased| < CONNECTIONS
    ensures (exists i :: 0 <= i < |entries| && entries[i] == 0) <==> |leased| > 0
  {
    LeasedOnce(start, entries, leased, 0);
    CountOf(entries, 0);
  }

  /** How often a value occurs in a sequence: everywhere, somewhere, or nowhere. */
  lemma {:induction false} CountOf(s: seq<int>, x: int)
    ensures multiset(s)[x] <= |s|
    ensures multiset(s)[x] == |s| <==> forall i :: 0 <= i < |s| ==> s[i] == x
    ensures multiset(s)[x] == 0 <==> forall i :: 0 <= i < |s| ==> s[i] != x
  {
    if s != [] {
      var n := |s| - 1;
      CountOf(s[..n], x);
      assert s == s[..n] + [s[n]];
    }
  }

  /** Live pairs never share a port; RTP is even and RTCP the next odd port if the start is even. */
  lemma LivePairs(start: int, entries: seq<int>, leased: multiset<int>, x: int, y: int)
    requires Conserved(start, entries, leased) && x in leased && y in leased
    ensures leased[x] == 1
    ensures var p, q := PairOf(start, x), PairOf(start, y);
            && (x != y ==> {p.rtp, p.rtcp} !! {q.rtp, q.rtcp})
            && (start % 2 == 0 ==> p.rtp % 2 == 0 && p.rtcp == p.rtp + 1)
            && p.rtp == start + 2 * (x - start) && start <= p.rtp && p.rtcp < start + 2 * CONNECTIONS
  {
    LeasedOnce(start, entries, leased, x);
    LeasedOnce(start, entries, leased, y);
  }

  /** Where the `k`-th process starts its pool; process 0 is the parent. */
  function ChildStart(k: nat): int { CONNECTIONS * k * 2 + DEFAULT_PORT }

  /** The windows of the processes follow each other, and each starts at an even port. */
  lemma WindowsFollow(k: nat)
    ensures ChildStart(0) == 5004 && ChildStart(k + 1) == ChildStart(k) + 2 * CONNECTIONS && ChildStart(k) % 2 == 0
  {
    assert CONNECTIONS * (k + 1) == CONNECTIONS * k + CONNECTIONS;
  }

  /** Pairs leased by two different processes never share a port. */
  lemma ForkedPoolsDisjoint(j: nat, k: nat, es: seq<int>, xs: multiset<int>, fs: seq<int>, ys: multiset<int>,
                            x: int, y: int)
    requires j != k && Conserved(ChildStart(j), es, xs) && Conserved(ChildStart(k), fs, ys) && x in xs && y in ys
    ensures var p, q := PairOf(ChildStart(j), x), PairOf(ChildStart(k), y); {p.rtp, p.rtcp} !! {q.rtp, q.rtcp}
  {
    LivePairs(ChildStart(j), es, xs, x, x);
    LivePairs(ChildStart(k), fs, ys, y, y);
    if j < k {
      assert CONNECTIONS * (j + 1) <= CONNECTIONS * k;
    } else {
      assert CONNECTIONS * (k + 1) <= CONNECTIONS * j;
    }
  }

  class Pool {
    var start: int
    const entries: array<int>
    ghost var leased: multiset<int>

    ghost predicate Valid()
      reads this, entries
    {
      entries.Length == CONNECTIONS && Conserved(start, entries[..], leased)
    }

    /** `RTP_port_pool_init`. */
    constructor (port: int)
      requires port > 0
      ensures Valid() && start == port && leased == multiset{} && fresh(entries)
      ensures entries[..] == InitialEntries(port)
    {
      start, leased := port, multiset{};
      entries := new int[CONNECTIONS];
      new;
      var i := 0;
      while i < CONNECTIONS
        invariant 0 <= i <= CONNECTIONS
        invariant entries[..i] == InitialEntries(port)[..i]
        modifies entries
      {
        entries[i] := i + start;
        i := i + 1;
      }
      assert entries[..] == InitialEntries(port);
    }

    /** `RTP_get_port_pair`: fails exactly when every pair is leased. */
    method GetPortPair() returns (ok: bool, pair: PortPair)
      requires Valid()
      modifies this`leased, entries
      ensures Valid() && (ok <==> |old(leased)| < 100)
      ensures ok ==> exists i: nat :: FirstFree(old(entries[..]), i) && entries[..] == old(entries[..])[i := 0]
                                 && var x := old(entries[..])[i];
                                    && pair.rtp == start + 2 * (x - start) && pair.rtcp == pair.rtp + 1
                                    && x !in old(leased) && leased == old(leased) + multiset{x}
      ensures !ok ==> leased == old(leased) && entries[..] == old(entries[..])
    {
      FreeIff(start, entries[..], leased);
      var i := 0;
      while i < CONNECTIONS
        invariant 0 <= i <= CONNECTIONS
        invariant forall k :: 0 <= k < i ==> entries[k] == 0
        invariant entries[..] == old(entries[..])
      {
        if entries[i] != 0 {
          var x := entries[i];
          pair := PairOf(start, x);
          LeaseConserves(start, entries[..], leased, i);
          assert entries[..][i] == x;
          entries[i] := 0;
          assert entries[..] == old(entries[..])[i := 0];
          leased := leased + multiset{x};
          assert FirstFree(old(entries[..]), i);
          return true, pair;
        }
        i := i + 1;
      }
      ok, pair := false, PortPair(0, 0);
    }

    /** `RTP_release_port_pair`: finds a slot while anything is leased, and trusts its caller about what. */
    method ReleasePortPair(pair: PortPair) returns (ok: bool)
      requires Valid()
      modifies this`leased, entries
      ensures ok <==> |old(leased)| > 0
      ensures ok ==> exists i: nat :: FirstZero(old(entries[..]), i)
                                      && entries[..] == old(entries[..])[i := EntryOf(start, pair)]
      ensures EntryOf(start, pair) in old(leased) ==>
                ok && Valid() && leased == old(leased) - multiset{EntryOf(start, pair)}
      ensures ok && EntryOf(start, pair) != 0 && EntryOf(start, pair) !in old(leased) ==> Broken(start, entries[..])
      ensures !ok ==> Valid() && leased == old(leased) && entries[..] == old(entries[..])
    {
      FreeIff(start, entries[..], leased);
      ghost var x := EntryOf(start, pair);
      var i := 0;
      while i < CONNECTIONS
        invariant 0 <= i <= CONNECTIONS
        invariant forall k :: 0 <= k < i ==> entries[k] != 0
        invariant entries[..] == old(entries[..])
      {
        if entries[i] == 0 {
          assert old(entries[..])[i] == 0;
          entries[i] := EntryOf(start, pair);
          assert entries[..] == old(entries[..])[i := x];
          assert FirstZero(old(entries[..]), i);
          if x in leased {
            ReleaseConserves(start, old(entries[..]), leased, i, x);
            leased := leased - multiset{x};
          } else if x != 0 {
            ReleaseBreaksIff(start, old(entries[..]), leased, i, pair);
          }
          return true;
        }
        i := i + 1;
      }
      ok := false;
    }
  }
}
