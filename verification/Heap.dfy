/**
 libev's 4-ary heap of timers: `upheap`, `downheap`, `adjustheap` and `reheap` on an array whose
 first element is at index HEAP0, with the cached key beside each watcher and the array index
 written back into the watcher's `active` field.

 The functions `Up` and `Down` say what the two sifts compute, by exchanging neighbours; the
 methods move a hole instead, as the source does.
 */
module Heap {

  import opened Ev

  /** One heap element: the cached key and the watcher. */
  datatype Entry = Entry(at: real, w: Watcher)

  const DHEAP: nat := 4
  const HEAP0: nat := DHEAP - 1

  /** The root is its own parent: the source's division truncates towards zero. */
  function HParent(k: nat): nat
    requires k >= HEAP0
  {
    if k == HEAP0 then HEAP0 else (k - HEAP0 - 1) / DHEAP + HEAP0
  }

  function FirstChild(k: nat): nat
    requires k >= HEAP0
  {
    DHEAP * (k - HEAP0) + HEAP0 + 1
  }

  lemma Children(i: nat, k: nat)
    requires i > HEAP0 && k >= HEAP0
    ensures HParent(i) == k <==> FirstChild(k) <= i < FirstChild(k) + DHEAP
    ensures HEAP0 <= HParent(i) < i
  {
  }

  // ---------------------------------------------------------------- order

  /** The heap condition for the first `n` elements. */
  ghost predicate Ordered(h: seq<Entry>, n: nat) {
    HEAP0 + n <= |h| && forall i :: HEAP0 < i < HEAP0 + n ==> h[HParent(i)].at <= h[i].at
  }

  /** As `Ordered`, but the key at `k` may be too small for its place. */
  ghost predicate OrderedButUp(h: seq<Entry>, n: nat, k: nat) {
    && HEAP0 + n <= |h| && HEAP0 <= k < HEAP0 + n
    && (forall i :: HEAP0 < i < HEAP0 + n && i != k ==> h[HParent(i)].at <= h[i].at)
    && (forall i :: HEAP0 < i < HEAP0 + n && HParent(i) == k ==> h[HParent(k)].at <= h[i].at || k == HEAP0)
  }

  /** As `Ordered`, but the key at `k` may be too large for its place. */
  ghost predicate OrderedButDown(h: seq<Entry>, n: nat, k: nat) {
    && HEAP0 + n <= |h| && HEAP0 <= k < HEAP0 + n
    && (forall i :: HEAP0 < i < HEAP0 + n && HParent(i) != k ==> h[HParent(i)].at <= h[i].at)
    && (forall i :: HEAP0 < i < HEAP0 + n && HParent(i) == k ==> h[HParent(k)].at <= h[i].at || k == HEAP0)
  }

  function Exchange(h: seq<Entry>, i: nat, j: nat): (r: seq<Entry>)
    requires i < |h| && j < |h|
    ensures |r| == |h| && multiset(r) == multiset(h)
  {
    ExchangeMultiset(h, i, j);
    h[i := h[j]][j := h[i]]
  }

  lemma ExchangeMultiset(h: seq<Entry>, i: nat, j: nat)
    requires i < |h| && j < |h|
    ensures multiset(h[i := h[j]][j := h[i]]) == multiset(h)
  {
  }

  // ---------------------------------------------------------------- towards the root

  function Up(h: seq<Entry>, k: nat): (r: seq<Entry>)
    requires HEAP0 <= k < |h|
    ensures |r| == |h| && multiset(r) == multiset(h)
    decreases k
  {
    if k == HEAP0 || h[HParent(k)].at <= h[k].at then h
    else
      Children(k, HParent(k));
      Up(Exchange(h, k, HParent(k)), HParent(k))
  }

  lemma UpStepKeeps(h: seq<Entry>, n: nat, k: nat)
    requires OrderedButUp(h, n, k) && k > HEAP0 && h[k].at < h[HParent(k)].at
    ensures HEAP0 <= HParent(k) < k
    ensures OrderedButUp(Exchange(h, k, HParent(k)), n, HParent(k))
  {
    var p := HParent(k);
    Children(k, p);
    var r := Exchange(h, k, p);
    forall i | HEAP0 < i < HEAP0 + n
      ensures i != p ==> r[HParent(i)].at <= r[i].at
      ensures HParent(i) == p ==> r[HParent(p)].at <= r[i].at || p == HEAP0
    {
      Children(i, k);
      if p > HEAP0 {
        Children(p, HParent(p));
      }
    }
  }

  /** A key that is too small for its place is brought to where it belongs. */
  lemma {:induction false} UpOrders(h: seq<Entry>, n: nat, k: nat)
    requires OrderedButUp(h, n, k)
    ensures Ordered(Up(h, k), n)
    decreases k
  {
    if k > HEAP0 && h[k].at < h[HParent(k)].at {
      UpStepKeeps(h, n, k);
      UpOrders(Exchange(h, k, HParent(k)), n, HParent(k));
    }
  }

  /** What makes way for a key on its way to the root is later than it. */
  lemma {:induction false} UpDisplaces(h: seq<Entry>, k: nat, i: nat)
    requires HEAP0 <= k < |h| && i < |h|
    ensures Up(h, k)[i] == h[i] || Up(h, k)[i] == h[k] || Up(h, k)[i].at > h[k].at
    decreases k
  {
    if k > HEAP0 && h[k].at < h[HParent(k)].at {
      Children(k, HParent(k));
      UpDisplaces(Exchange(h, k, HParent(k)), HParent(k), i);
    }
  }

  // ---------------------------------------------------------------- away from the root

  /** The leftmost of the smallest children of `k`; `k` itself if it has none. */
  function MinChild(h: seq<Entry>, n: nat, k: nat): nat
    requires HEAP0 <= k && HEAP0 + n <= |h|
  {
    var c := FirstChild(k);
    if c >= HEAP0 + n then k
    else
      var m1 := if c + 1 < HEAP0 + n && h[c + 1].at < h[c].at then c + 1 else c;
      var m2 := if c + 2 < HEAP0 + n && h[c + 2].at < h[m1].at then c + 2 else m1;
      if c + 3 < HEAP0 + n && h[c + 3].at < h[m2].at then c + 3 else m2
  }

  lemma MinChildIsMin(h: seq<Entry>, n: nat, k: nat)
    requires HEAP0 <= k < HEAP0 + n <= |h|
    ensures MinChild(h, n, k) == k ==> forall i :: HEAP0 < i < HEAP0 + n ==> HParent(i) != k
    ensures MinChild(h, n, k) != k ==>
      var c := MinChild(h, n, k);
      && k < c < HEAP0 + n && HParent(c) == k
      && forall i :: HEAP0 < i < HEAP0 + n && HParent(i) == k ==>
           if i < c then h[c].at < h[i].at else h[c].at <= h[i].at
  {
    var c := MinChild(h, n, k);
    if c != k {
      Children(c, k);
    }
    forall i | HEAP0 < i < HEAP0 + n && HParent(i) == k
      ensures c != k && if i < c then h[c].at < h[i].at else h[c].at <= h[i].at
    {
      Children(i, k);
      var f := FirstChild(k);
      assert i == f || i == f + 1 || i == f + 2 || i == f + 3;
    }
  }

  function Down(h: seq<Entry>, n: nat, k: nat): (r: seq<Entry>)
    requires HEAP0 <= k < HEAP0 + n <= |h|
    ensures |r| == |h| && multiset(r) == multiset(h)
    decreases HEAP0 + n - k
  {
    var c := MinChild(h, n, k);
    MinChildIsMin(h, n, k);
    if c == k || h[k].at <= h[c].at then h else Down(Exchange(h, k, c), n, c)
  }

  lemma DownStepKeeps(h: seq<Entry>, n: nat, k: nat)
    requires OrderedButDown(h, n, k) && MinChild(h, n, k) != k && h[MinChild(h, n, k)].at < h[k].at
    ensures HEAP0 <= MinChild(h, n, k) < HEAP0 + n
    ensures OrderedButDown(Exchange(h, k, MinChild(h, n, k)), n, MinChild(h, n, k))
  {
    MinChildIsMin(h, n, k);
    var c := MinChild(h, n, k);
    Children(c, k);
    var r := Exchange(h, k, c);
    forall i | HEAP0 < i < HEAP0 + n
      ensures HParent(i) != c ==> r[HParent(i)].at <= r[i].at
      ensures HParent(i) == c ==> r[HParent(c)].at <= r[i].at
    {
      Children(i, k);
      if k > HEAP0 {
        Children(k, HParent(k));
      }
    }
  }

  /** A key that is too large for its place is brought to where it belongs. */
  lemma {:induction false} DownOrders(h: seq<Entry>, n: nat, k: nat)
    requires OrderedButDown(h, n, k)
    ensures Ordered(Down(h, n, k), n)
    decreases HEAP0 + n - k
  {
    var c := MinChild(h, n, k);
    MinChildIsMin(h, n, k);
    if c != k && h[c].at < h[k].at {
      DownStepKeeps(h, n, k);
      DownOrders(Exchange(h, k, c), n, c);
    } else {
      forall i | HEAP0 < i < HEAP0 + n ensures h[HParent(i)].at <= h[i].at { }
    }
  }

  /** What makes way for a key on its way down is earlier than it. */
  lemma {:induction false} DownDisplaces(h: seq<Entry>, n: nat, k: nat, i: nat)
    requires HEAP0 <= k < HEAP0 + n <= |h| && i < |h|
    ensures Down(h, n, k)[i] == h[i] || Down(h, n, k)[i] == h[k] || Down(h, n, k)[i].at < h[k].at
    decreases HEAP0 + n - k
  {
    var c := MinChild(h, n, k);
    MinChildIsMin(h, n, k);
    if c != k && h[c].at < h[k].at {
      DownDisplaces(Exchange(h, k, c), n, c, i);
    }
  }

  /** The root is a smallest element. */
  lemma {:induction false} RootIsMin(h: seq<Entry>, n: nat, i: nat)
    requires Ordered(h, n) && HEAP0 <= i < HEAP0 + n
    ensures h[HEAP0].at <= h[i].at
    decreases i
  {
    if i > HEAP0 {
      Children(i, HParent(i));
      RootIsMin(h, n, HParent(i));
    }
  }

  // ---------------------------------------------------------------- contents

  /** The first `n` elements, in any order. */
  function Contents(h: seq<Entry>, n: nat): multiset<Entry>
    requires HEAP0 + n <= |h|
  {
    multiset(h[HEAP0..HEAP0 + n])
  }

  lemma ExchangeContents(h: seq<Entry>, n: nat, i: nat, j: nat)
    requires HEAP0 <= i < HEAP0 + n <= |h| && HEAP0 <= j < HEAP0 + n
    ensures Contents(Exchange(h, i, j), n) == Contents(h, n)
  {
    var s := h[HEAP0..HEAP0 + n];
    assert Exchange(h, i, j)[HEAP0..HEAP0 + n] == Exchange(s, i - HEAP0, j - HEAP0);
  }

  lemma {:induction false} UpContents(h: seq<Entry>, n: nat, k: nat)
    requires HEAP0 <= k < HEAP0 + n <= |h|
    ensures Contents(Up(h, k), n) == Contents(h, n)
    decreases k
  {
    if k > HEAP0 && h[k].at < h[HParent(k)].at {
      Children(k, HParent(k));
      ExchangeContents(h, n, k, HParent(k));
      UpContents(Exchange(h, k, HParent(k)), n, HParent(k));
    }
  }

  lemma {:induction false} DownContents(h: seq<Entry>, n: nat, k: nat)
    requires HEAP0 <= k < HEAP0 + n <= |h|
    ensures Contents(Down(h, n, k), n) == Contents(h, n)
    decreases HEAP0 + n - k
  {
    var c := MinChild(h, n, k);
    MinChildIsMin(h, n, k);
    if c != k && h[c].at < h[k].at {
      ExchangeContents(h, n, k, c);
      DownContents(Exchange(h, k, c), n, c);
    }
  }

  // ---------------------------------------------------------------- back-indices

  ghost function Watchers(h: seq<Entry>, n: nat): set<Watcher>
    requires HEAP0 + n <= |h|
  {
    set i | HEAP0 <= i < HEAP0 + n :: h[i].w
  }

  /** Every watcher in the heap knows its index. */
  ghost predicate Indexed(h: seq<Entry>, n: nat)
    requires HEAP0 + n <= |h|
    reads Watchers(h, n)`active
  {
    forall i :: HEAP0 <= i < HEAP0 + n ==> h[i].w.active == i
  }

  /** The same, except for the watcher at `k`, which is not in the heap a second time. */
  ghost predicate IndexedBut(h: seq<Entry>, n: nat, k: nat)
    requires HEAP0 <= k < HEAP0 + n <= |h|
    reads Watchers(h, n)`active
  {
    forall i :: HEAP0 <= i < HEAP0 + n && i != k ==> h[i].w.active == i && h[i].w != h[k].w
  }

  // ---------------------------------------------------------------- the sifts in place

  ghost predicate AllIn(h: seq<Entry>, n: nat, ws: set<Watcher>)
    requires HEAP0 + n <= |h|
  {
    forall i :: HEAP0 <= i < HEAP0 + n ==> h[i].w in ws
  }

  /**
   Move the element at `p` into the hole at `k`, which thereby moves to `p`. `cur` is the array
   with the element that is being sifted, `cur[k]`, in the hole.
   */
  method Shift(heap: array<Entry>, k: nat, p: nat, ghost n: nat, ghost cur: seq<Entry>, ghost ws: set<Watcher>)
    requires HEAP0 <= k < HEAP0 + n <= heap.Length == |cur| && HEAP0 <= p < HEAP0 + n && p != k
    requires cur == heap[..][k := cur[k]] && AllIn(cur, n, ws)
    requires forall i :: HEAP0 <= i < HEAP0 + n && i != k ==> cur[i].w.active == i && cur[i].w != cur[k].w
    modifies heap, ws`active
    ensures Exchange(cur, k, p) == heap[..][p := cur[k]] && AllIn(Exchange(cur, k, p), n, ws)
    ensures var c := Exchange(cur, k, p);
            forall i :: HEAP0 <= i < HEAP0 + n && i != p ==> c[i].w.active == i && c[i].w != c[p].w
  {
    assert heap[p] == cur[p];
    heap[k] := heap[p];
    heap[k].w.active := k;
  }

  /** Drop the sifted element into the hole. */
  method Drop(heap: array<Entry>, k: nat, he: Entry, ghost n: nat, ghost cur: seq<Entry>, ghost ws: set<Watcher>)
    requires HEAP0 <= k < HEAP0 + n <= heap.Length == |cur| && he == cur[k]
    requires cur == heap[..][k := he] && AllIn(cur, n, ws)
    requires forall i :: HEAP0 <= i < HEAP0 + n && i != k ==> cur[i].w.active == i && cur[i].w != cur[k].w
    modifies heap, ws`active
    ensures heap[..] == cur && Indexed(cur, n)
  {
    heap[k] := he;
    he.w.active := k;
  }

  /** Towards the root: move a hole up from `k0` and drop the element into it. */
  method Upheap(heap: array<Entry>, k0: nat, ghost n: nat)
    requires HEAP0 <= k0 < HEAP0 + n <= heap.Length && IndexedBut(heap[..], n, k0)
    modifies heap, Watchers(heap[..], n)`active
    ensures heap[..] == Up(old(heap[..]), k0)
    ensures Indexed(heap[..], n)
  {
    var k, he := k0, heap[k0];
    ghost var cur, ws, was := heap[..], Watchers(heap[..], n), heap[..];
    while true
      invariant HEAP0 <= k <= k0 && |cur| == heap.Length && he == cur[k]
      invariant cur == heap[..][k := he] && Up(cur, k) == Up(was, k0) && AllIn(cur, n, ws)
      invariant forall i :: HEAP0 <= i < HEAP0 + n && i != k ==> cur[i].w.active == i && cur[i].w != cur[k].w
      decreases k
    {
      var p := HParent(k);
      if k > HEAP0 {
        Children(k, p);
      }
      if p == k || heap[p].at <= he.at {
        break;
      }
      Shift(heap, k, p, n, cur, ws);
      cur := Exchange(cur, k, p);
      k := p;
    }
    Drop(heap, k, he, n, cur, ws);
  }

  /** The unrolled comparison, for a node with all four children. */
  method FastMinChild(heap: array<Entry>, N: nat, k: nat) returns (minpos: nat)
    requires HEAP0 <= k && FirstChild(k) + DHEAP - 1 < HEAP0 + N <= heap.Length
    ensures minpos == MinChild(heap[..], N, k)
  {
    var pos := FirstChild(k);
    minpos := pos;
    var minat := heap[minpos].at;
    if heap[pos + 1].at < minat { minpos := pos + 1; minat := heap[minpos].at; }
    if heap[pos + 2].at < minat { minpos := pos + 2; minat := heap[minpos].at; }
    if heap[pos + 3].at < minat { minpos := pos + 3; minat := heap[minpos].at; }
  }

  /** The guarded comparison, for a node with at least one child. */
  method SlowMinChild(heap: array<Entry>, N: nat, k: nat) returns (minpos: nat)
    requires HEAP0 <= k && FirstChild(k) < HEAP0 + N <= heap.Length
    ensures minpos == MinChild(heap[..], N, k)
  {
    var pos, E := FirstChild(k), HEAP0 + N;
    minpos := pos;
    var minat := heap[minpos].at;
    if pos + 1 < E && heap[pos + 1].at < minat { minpos := pos + 1; minat := heap[minpos].at; }
    if pos + 2 < E && heap[pos + 2].at < minat { minpos := pos + 2; minat := heap[minpos].at; }
    if pos + 3 < E && heap[pos + 3].at < minat { minpos := pos + 3; minat := heap[minpos].at; }
  }

  /** The smallest child by the fast or the slow path; `k` if there is none. */
  method FindMinChild(heap: array<Entry>, N: nat, k: nat) returns (minpos: nat)
    requires HEAP0 <= k < HEAP0 + N <= heap.Length
    ensures minpos == MinChild(heap[..], N, k)
  {
    var pos := FirstChild(k);
    if pos + DHEAP - 1 < HEAP0 + N {
      minpos := FastMinChild(heap, N, k);
    } else if pos < HEAP0 + N {
      minpos := SlowMinChild(heap, N, k);
    } else {
      minpos := k;
    }
  }

  /** Away from the root. */
  method Downheap(heap: array<Entry>, N: nat, k0: nat)
    requires HEAP0 <= k0 < HEAP0 + N <= heap.Length && IndexedBut(heap[..], N, k0)
    modifies heap, Watchers(heap[..], N)`active
    ensures heap[..] == Down(old(heap[..]), N, k0)
    ensures Indexed(heap[..], N)
  {
    var k, he := k0, heap[k0];
    ghost var cur, ws, was := heap[..], Watchers(heap[..], N), heap[..];
    while true
      invariant HEAP0 <= k < HEAP0 + N && |cur| == heap.Length && he == cur[k]
      invariant cur == heap[..][k := he] && Down(cur, N, k) == Down(was, N, k0) && AllIn(cur, N, ws)
      invariant forall i :: HEAP0 <= i < HEAP0 + N && i != k ==> cur[i].w.active == i && cur[i].w != cur[k].w
      decreases HEAP0 + N - k
    {
      var minpos := FindMinChild(heap, N, k);
      MinChildIsMin(cur, N, k);
      MinChildIgnoresHole(cur, heap[..], N, k);
      if minpos == k || he.at <= heap[minpos].at {
        break;
      }
      Shift(heap, k, minpos, N, cur, ws);
      cur := Exchange(cur, k, minpos);
      k := minpos;
    }
    Drop(heap, k, he, N, cur, ws);
  }

  lemma MinChildIgnoresHole(h: seq<Entry>, g: seq<Entry>, n: nat, k: nat)
    requires HEAP0 <= k < HEAP0 + n <= |h| == |g| && h == g[k := h[k]]
    ensures MinChild(h, n, k) == MinChild(g, n, k)
  {
  }

  // ---------------------------------------------------------------- adjustheap

  function Adjust(h: seq<Entry>, n: nat, k: nat): (r: seq<Entry>)
    requires HEAP0 <= k < HEAP0 + n <= |h|
    ensures |r| == |h|
  {
    if k > HEAP0 && h[k].at <= h[HParent(k)].at then Up(h, k) else Down(h, n, k)
  }

  /** Replacing any one element of an ordered heap and adjusting there gives an ordered heap. */
  lemma AdjustOrders(g: seq<Entry>, n: nat, k: nat, e: Entry)
    requires Ordered(g, n) && HEAP0 <= k < HEAP0 + n
    ensures Ordered(Adjust(g[k := e], n, k), n)
  {
    var h := g[k := e];
    if k > HEAP0 {
      Children(k, HParent(k));
    }
    forall i | HEAP0 < i < HEAP0 + n ensures HParent(i) < i { Children(i, k); }
    if k > HEAP0 && h[k].at <= h[HParent(k)].at {
      assert OrderedButUp(h, n, k);
      UpOrders(h, n, k);
    } else {
      assert OrderedButDown(h, n, k);
      DownOrders(h, n, k);
    }
  }

  lemma AdjustContents(h: seq<Entry>, n: nat, k: nat)
    requires HEAP0 <= k < HEAP0 + n <= |h|
    ensures Contents(Adjust(h, n, k), n) == Contents(h, n)
  {
    UpContents(h, n, k);
    DownContents(h, n, k);
  }

  /** Move an element so that it is in a correct place. */
  method Adjustheap(heap: array<Entry>, N: nat, k: nat)
    requires HEAP0 <= k < HEAP0 + N <= heap.Length && IndexedBut(heap[..], N, k)
    modifies heap, Watchers(heap[..], N)`active
    ensures heap[..] == Adjust(old(heap[..]), N, k)
    ensures Indexed(heap[..], N)
  {
    if k > HEAP0 {
      Children(k, HParent(k));
    }
    if k > HEAP0 && heap[k].at <= heap[HParent(k)].at {
      Upheap(heap, k, N);
    } else {
      Downheap(heap, N, k);
    }
  }

  // ---------------------------------------------------------------- reheap

  /** Sifting the next element up extends an ordered heap by one. */
  lemma UpExtends(h: seq<Entry>, i: nat)
    requires Ordered(h, i) && HEAP0 + i < |h|
    ensures Ordered(Up(h, HEAP0 + i), i + 1)
  {
    forall j | HEAP0 < j < HEAP0 + i + 1 ensures HParent(j) < j { Children(j, HParent(j)); }
    UpOrders(h, i + 1, HEAP0 + i);
  }

  /** Rebuild the heap after any change of keys: order, back-indices, same elements. */
  method Reheap(heap: array<Entry>, N: nat)
    requires HEAP0 + N <= heap.Length && Indexed(heap[..], N)
    modifies heap, Watchers(heap[..], N)`active
    ensures Ordered(heap[..], N) && Indexed(heap[..], N)
    ensures Contents(heap[..], N) == old(Contents(heap[..], N))
  {
    ghost var ws := Watchers(heap[..], N);
    for i := 0 to N
      invariant Ordered(heap[..], i) && Indexed(heap[..], N)
      invariant Contents(heap[..], N) == old(Contents(heap[..], N))
      invariant AllIn(heap[..], N, ws)
    {
      UpExtends(heap[..], i);
      UpContents(heap[..], N, HEAP0 + i);
      ghost var before := heap[..];
      Upheap(heap, HEAP0 + i, N);
      SameContentsIn(before, heap[..], N, ws);
    }
  }

  lemma SameContentsIn(g: seq<Entry>, h: seq<Entry>, n: nat, ws: set<Watcher>)
    requires HEAP0 + n <= |g| == |h| && Contents(g, n) == Contents(h, n) && AllIn(g, n, ws)
    ensures AllIn(h, n, ws)
  {
    forall i | HEAP0 <= i < HEAP0 + n ensures h[i].w in ws {
      assert h[HEAP0..HEAP0 + n][i - HEAP0] in Contents(h, n);
      assert h[i] in g[HEAP0..HEAP0 + n];
    }
  }
}
