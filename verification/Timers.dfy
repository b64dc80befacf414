/**
 libev's relative timers: starting, stopping and re-arming keep the heap, its back-indices and its
 cached keys; `timers_reify` fires the expired timers, and through the pending queues their
 callbacks run in order of expiry.
 */
module Timers {
  import opened Ev
  import opened Heap
  import P = Pending

  /** The event mask of a timer, 0x100. */
  const EV_TIMER: P.Events := {8}

  // ---------------------------------------------------------------- the state of the heap

  /** The cached keys are the watchers' keys. */
  ghost predicate Cached(h: seq<Entry>, n: nat)
    requires HEAP0 + n <= |h|
    reads Watchers(h, n)`at
  {
    forall i :: HEAP0 <= i < HEAP0 + n ==> h[i].at == h[i].w.at
  }

  /** The first `n` elements of `h` are a heap of exactly the active timers among `all`. */
  ghost predicate TimersOk(h: seq<Entry>, n: nat, all: set<Watcher>)
    reads all`active, all`at
  {
    && HEAP0 + n <= |h| && Watchers(h, n) <= all
    && Ordered(h, n) && Indexed(h, n) && Cached(h, n)
    && forall w :: w in all ==> (w.active != 0 <==> w in Watchers(h, n))
  }

  /** Where element `j` of one arrangement is in another arrangement of the same elements. */
  lemma FindSame(g: seq<Entry>, h: seq<Entry>, n: nat, j: nat) returns (i: nat)
    requires HEAP0 + n <= |g| == |h| && Contents(g, n) == Contents(h, n) && HEAP0 <= j < HEAP0 + n
    ensures HEAP0 <= i < HEAP0 + n && g[i] == h[j]
  {
    var a, b := g[HEAP0..HEAP0 + n], h[HEAP0..HEAP0 + n];
    assert b[j - HEAP0] in multiset(b);
    assert b[j - HEAP0] in a;
    var k :| 0 <= k < n && a[k] == b[j - HEAP0];
    i := k + HEAP0;
  }

  lemma SameWatchers(g: seq<Entry>, h: seq<Entry>, n: nat)
    requires HEAP0 + n <= |g| == |h| && Contents(g, n) == Contents(h, n)
    ensures Watchers(h, n) <= Watchers(g, n)
  {
    forall x | x in Watchers(h, n) ensures x in Watchers(g, n) {
      var j :| HEAP0 <= j < HEAP0 + n && h[j].w == x;
      var i := FindSame(g, h, n, j);
    }
  }

  lemma SameContents(g: seq<Entry>, h: seq<Entry>, n: nat)
    requires HEAP0 + n <= |g| == |h| && Contents(g, n) == Contents(h, n)
    ensures Watchers(h, n) == Watchers(g, n)
    ensures Cached(g, n) ==> Cached(h, n)
  {
    SameWatchers(g, h, n);
    SameWatchers(h, g, n);
    if Cached(g, n) {
      forall j | HEAP0 <= j < HEAP0 + n ensures h[j].at == h[j].w.at {
        var i := FindSame(g, h, n, j);
      }
    }
  }

  /** A heap that ends earlier. */
  lemma Shorter(h: seq<Entry>, n: nat)
    requires Ordered(h, n + 1)
    ensures Ordered(h, n)
  {
  }

  class Loop {
    var timers: array<Entry>
    var timercnt: nat
    var mnNow: real
    const pq: P.PendingQueues
    ghost const all: set<Watcher>

    /** A loop without timers; `spare` fills the cells below HEAP0, which are never used. */
    constructor (pq: P.PendingQueues, ghost all: set<Watcher>, spare: Watcher)
      requires pq.Valid() && all <= pq.all
      requires forall w :: w in all ==> w.active == 0 && w.repeat >= 0.0
      ensures Valid() && this.pq == pq && this.all == all && fresh(timers) && mnNow == 0.0
    {
      timers := new Entry[HEAP0](_ => Entry(0.0, spare));
      timercnt, mnNow := 0, 0.0;
      this.pq := pq;
      this.all := all;
    }

    ghost predicate HeapOk()
      reads this`timers, this`timercnt, timers, all`active, all`at
    {
      TimersOk(timers[..], timercnt, all)
    }

    ghost predicate Valid()
      reads this`timers, this`timercnt, timers, pq, pq.all`pending, all`active, all`at, all`repeat
    {
      && pq.Valid() && all <= pq.all
      && HeapOk()
      && forall w :: w in all ==> w.repeat >= 0.0
    }

    /** The timers that are running. */
    ghost function Running(): set<Watcher>
      reads all`active
    {
      set w | w in all && w.active != 0
    }

    /** `array_needsize`: room for one more element, the others stay where they are. */
    method NeedSize(cnt: nat, filler: Entry)
      modifies this`timers
      ensures timers.Length >= cnt && timers.Length >= old(timers.Length) && (timers == old(timers) || fresh(timers))
      ensures timers[..old(timers.Length)] == old(timers[..])
    {
      if cnt > timers.Length {
        var was := timers[..];
        timers := new Entry[2 * cnt](i => if 0 <= i < |was| then was[i] else filler);
      }
    }

    /** Put a watcher behind the last element of the heap. */
    method Append(w: Watcher)
      requires HeapOk()
      modifies this`timers, timers
      ensures (timers == old(timers) || fresh(timers)) && HEAP0 + timercnt < timers.Length
      ensures HeapOk() && timers[HEAP0 + timercnt] == Entry(w.at, w)
      ensures Watchers(timers[..], timercnt) == old(Watchers(timers[..], timercnt))
    {
      ghost var g := timers[..];
      NeedSize(HEAP0 + timercnt + 1, Entry(w.at, w));
      timers[HEAP0 + timercnt] := Entry(w.at, w);
      PrefixOk(g, timers[..], timercnt, all);
    }

    /** Insert a watcher whose key is set and which is not in the heap. */
    method Insert(w: Watcher)
      requires HeapOk() && w in all && w.active == 0
      modifies this`timers, this`timercnt, timers, all`active
      ensures HeapOk() && timercnt == old(timercnt) + 1 && (timers == old(timers) || fresh(timers))
      ensures Running() == old(Running()) + {w}
    {
      RunningIsHeap();
      AddLast(w);
      timercnt := timercnt + 1;
      RunningIsHeap();
    }

    /** `Insert` in terms of the array. */
    method AddLast(w: Watcher)
      requires HeapOk() && w in all && w.active == 0
      modifies this`timers, timers, all`active
      ensures TimersOk(timers[..], timercnt + 1, all) && (timers == old(timers) || fresh(timers))
      ensures Watchers(timers[..], timercnt + 1) == old(Watchers(timers[..], timercnt)) + {w}
    {
      Append(w);
      SiftLast(timers, timercnt, w, all);
    }

    // -------------------------------------------------------------- ev_timer_start / stop / again

    /** `ev_timer_start`: the relative key becomes absolute. */
    method Launch(w: Watcher)
      requires HeapOk() && w in all
      modifies this`timers, this`timercnt, timers, all`active, w`at
      ensures HeapOk() && (timers == old(timers) || fresh(timers))
      ensures Running() == old(Running()) + {w}
      ensures w.at == if w in old(Running()) then old(w.at) else old(w.at) + mnNow
    {
      if w.active != 0 {
        return;
      }
      w.at := w.at + mnNow;
      Insert(w);
    }

    method TimerStart(w: Watcher)
      requires Valid() && w in all
      modifies this`timers, this`timercnt, timers, all`active, w`at
      ensures Valid() && (timers == old(timers) || fresh(timers))
      ensures Running() == old(Running()) + {w}
      ensures w.at == if w in old(Running()) then old(w.at) else old(w.at) + mnNow
    {
      Launch(w);
    }

    /** Take a running timer out of the heap; its key becomes relative again. */
    method Halt(w: Watcher)
      requires HeapOk() && w in Running()
      modifies this`timercnt, timers, all`active, w`at
      ensures HeapOk() && Running() == old(Running()) - {w} && w.at == old(w.at) - mnNow
      ensures timercnt == old(timercnt) - 1
    {
      RunningIsHeap();
      var active := w.active;
      assert timers[active].w == w;
      timercnt := timercnt - 1;
      TakeOut(timers, timercnt, active, all);
      w.at := w.at - mnNow;
      RunningIsHeap();
    }

    method TimerStop(w: Watcher)
      requires Valid() && w in all
      modifies pq`pendings, pq`owed, w`pending, this`timercnt, timers, all`active, w`at
      ensures Valid() && Running() == old(Running()) - {w} && pq.owed == old(pq.owed) - {w}
      ensures w.at == if w in old(Running()) then old(w.at) - mnNow else old(w.at)
    {
      ClearKeepingHeap(w);
      HaltKeepingQueues(w);
    }

    /** `Halt` of a timer that may not be running; touches nothing of the pending queues. */
    method HaltKeepingQueues(w: Watcher)
      requires Valid() && w in all
      modifies this`timercnt, timers, all`active, w`at
      ensures Valid() && Running() == old(Running()) - {w}
      ensures w.at == if w in old(Running()) then old(w.at) - mnNow else old(w.at)
    {
      if w.active != 0 {
        Halt(w);
      }
    }

    /** Give a running timer a new key. */
    method Rearm(w: Watcher, at: real)
      requires HeapOk() && w in Running()
      modifies timers, all`active, w`at
      ensures HeapOk() && Running() == old(Running()) && w.at == at
    {
      RunningIsHeap();
      assert timers[w.active].w == w;
      ReKey(timers, timercnt, w.active, at, all);
      RunningIsHeap();
    }

    /** Restart a repeating timer, stop a running one that does not repeat. */
    method Relaunch(w: Watcher)
      requires HeapOk() && w in all
      modifies this`timers, this`timercnt, timers, all`active, w`at
      ensures HeapOk() && (timers == old(timers) || fresh(timers))
      ensures w.repeat != 0.0 ==> Running() == old(Running()) + {w} && w.at == mnNow + w.repeat
      ensures w.repeat == 0.0 ==> Running() == old(Running()) - {w}
      ensures w.repeat == 0.0 ==> w.at == if w in old(Running()) then old(w.at) - mnNow else old(w.at)
    {
      if w.active != 0 {
        if w.repeat != 0.0 {
          Rearm(w, mnNow + w.repeat);
        } else {
          Halt(w);
        }
      } else if w.repeat != 0.0 {
        w.at := w.repeat;
        Launch(w);
      }
    }

    /** `ev_timer_again`. */
    method TimerAgain(w: Watcher)
      requires Valid() && w in all
      modifies pq`pendings, pq`owed, w`pending, this`timers, this`timercnt, timers, all`active, w`at
      ensures Valid() && (timers == old(timers) || fresh(timers))
      ensures pq.owed == old(pq.owed) - {w}
      ensures w.repeat != 0.0 ==> Running() == old(Running()) + {w} && w.at == mnNow + w.repeat
      ensures w.repeat == 0.0 ==> Running() == old(Running()) - {w}
      ensures w.repeat == 0.0 ==> w.at == if w in old(Running()) then old(w.at) - mnNow else old(w.at)
    {
      ClearKeepingHeap(w);
      RelaunchKeepingQueues(w);
    }

    /** `clear_pending` touches the pending queues and nothing of the heap. */
    method ClearKeepingHeap(w: Watcher)
      requires Valid() && w in all
      modifies pq`pendings, pq`owed, w`pending
      ensures Valid() && pq.owed == old(pq.owed) - {w} && Running() == old(Running())
      ensures w !in old(pq.owed) ==> pq.pendings == old(pq.pendings)
    {
      var _ := pq.ClearPending(w);
    }

    /** `Relaunch` touches the heap and nothing of the pending queues. */
    method RelaunchKeepingQueues(w: Watcher)
      requires Valid() && w in all
      modifies this`timers, this`timercnt, timers, all`active, w`at
      ensures Valid() && (timers == old(timers) || fresh(timers))
      ensures w.repeat != 0.0 ==> Running() == old(Running()) + {w} && w.at == mnNow + w.repeat
      ensures w.repeat == 0.0 ==> Running() == old(Running()) - {w}
      ensures w.repeat == 0.0 ==> w.at == if w in old(Running()) then old(w.at) - mnNow else old(w.at)
    {
      Relaunch(w);
    }

    // -------------------------------------------------------------- timers_reify

    /** The root expires no later than any other running timer. */
    lemma RootExpiresFirst(u: Watcher)
      requires HeapOk() && u in Running()
      ensures timercnt > 0 && timers[HEAP0].w in Running() && timers[HEAP0].at == timers[HEAP0].w.at <= u.at
    {
      RunningIsHeap();
      RootIsMin(timers[..], timercnt, u.active);
      assert timers[HEAP0].w in Watchers(timers[..], timercnt);
    }

    lemma RootIsEarliest()
      requires HeapOk() && timercnt > 0
      ensures timers[HEAP0].w in Running() && timers[HEAP0].w in Keys() && timers[HEAP0].at == Keys()[timers[HEAP0].w]
      ensures forall u :: u in Running() ==> Keys()[timers[HEAP0].w] <= Keys()[u]
    {
      RunningIsHeap();
      assert timers[HEAP0].w in Watchers(timers[..], timercnt);
      forall u | u in Running() ensures timers[HEAP0].w.at <= u.at { RootExpiresFirst(u); }
    }

    /** Reschedule a running timer that has expired, or stop it. */
    method Refire(w: Watcher)
      requires Valid() && w in Running()
      modifies pq`pendings, pq`owed, w`pending, this`timercnt, timers, all`active, w`at
      ensures Valid()
      ensures w.repeat != 0.0 ==>
                Running() == old(Running()) && NextKey(w.at, old(w.at), w.repeat, mnNow)
                && pq.owed == old(pq.owed) && pq.pendings == old(pq.pendings)
      ensures w.repeat == 0.0 ==>
                Running() == old(Running()) - {w} && pq.owed == old(pq.owed) - {w} && w.at == old(w.at) - mnNow
      ensures w !in old(pq.owed) ==> pq.pendings == old(pq.pendings)
    {
      if w.repeat != 0.0 {
        var at := w.at + w.repeat;
        if at < mnNow {
          at := mnNow;
        }
        RearmKeepingQueues(w, at);
      } else {
        ClearKeepingHeap(w);
        HaltKeepingQueues(w);
      }
    }

    /** `Rearm` touches nothing of the pending queues. */
    method RearmKeepingQueues(w: Watcher, at: real)
      requires Valid() && w in Running()
      modifies timers, all`active, w`at
      ensures Valid() && Running() == old(Running()) && w.at == at
    {
      Rearm(w, at);
    }

    ghost function Keys(): map<Watcher, real>
      reads all`at
    {
      map w | w in all :: w.at
    }

    ghost function Repeats(): map<Watcher, real>
      reads all`repeat
    {
      map w | w in all :: w.repeat
    }

    ghost predicate Fired(fired: seq<Watcher>, at0: map<Watcher, real>, run0: set<Watcher>)
      reads this`mnNow, all`active, all`at, all`repeat
    {
      FiredOk(fired, mnNow, Repeats(), at0, run0, Keys(), Running())
    }

    /** Reschedule or stop the expired timer at the root, in terms of all keys and all running timers. */
    method FireEarliest() returns (w: Watcher)
      requires Valid() && timercnt > 0 && timers[HEAP0].at < mnNow
      modifies pq`pendings, pq`owed, all`pending, this`timercnt, timers, all`active, all`at
      ensures Valid() && w in old(Running()) && w in all && old(Keys())[w] < mnNow
      ensures forall u :: u in old(Running()) ==> old(Keys())[w] <= old(Keys())[u]
      ensures Repeats() == old(Repeats()) && Keys() == old(Keys())[w := Keys()[w]]
      ensures Repeats()[w] != 0.0 ==>
                Running() == old(Running()) && NextKey(Keys()[w], old(Keys())[w], Repeats()[w], mnNow)
      ensures Repeats()[w] == 0.0 ==> Running() == old(Running()) - {w} && Keys()[w] == old(Keys())[w] - mnNow
      ensures pq.owed == if Repeats()[w] == 0.0 then old(pq.owed) - {w} else old(pq.owed)
      ensures w !in old(pq.owed) ==> pq.pendings == old(pq.pendings)
    {
      RootIsEarliest();
      w := timers[HEAP0].w;
      RefireKeys(w);
    }

    /** `Refire` in terms of all keys. */
    method RefireKeys(w: Watcher)
      requires Valid() && w in Running()
      modifies pq`pendings, pq`owed, w`pending, this`timercnt, timers, all`active, w`at
      ensures Valid() && w in all && Keys() == old(Keys())[w := Keys()[w]]
      ensures Repeats()[w] != 0.0 ==>
                Running() == old(Running()) && NextKey(Keys()[w], old(Keys())[w], Repeats()[w], mnNow)
      ensures Repeats()[w] == 0.0 ==> Running() == old(Running()) - {w} && Keys()[w] == old(Keys())[w] - mnNow
      ensures pq.owed == if Repeats()[w] == 0.0 then old(pq.owed) - {w} else old(pq.owed)
      ensures w !in old(pq.owed) ==> pq.pendings == old(pq.pendings)
    {
      ghost var at0 := Keys();
      Refire(w);
      OneChanged(at0, Keys(), w);
    }

    /** `fired` were fired, and what that did to the pending events and queues `owed0` and `qs0`. */
    ghost predicate Firing(fired: seq<Watcher>, at0: map<Watcher, real>, run0: set<Watcher>,
                           owed0: map<Watcher, P.Events>, qs0: seq<seq<P.Item>>)
      reads this`mnNow, all`active, all`at, all`repeat, pq`owed, pq`pendings
    {
      && Fired(fired, at0, run0) && pq.owed == AfterStops(owed0, fired, Repeats())
      && ((forall w :: w in fired ==> w !in owed0) ==> pq.pendings == qs0)
    }

    /** One more expired timer is fired. */
    method FireNext(ghost fired: seq<Watcher>, ghost at0: map<Watcher, real>, ghost run0: set<Watcher>,
                    ghost owed0: map<Watcher, P.Events>, ghost qs0: seq<seq<P.Item>>) returns (w: Watcher)
      requires Valid() && Firing(fired, at0, run0, owed0, qs0) && timercnt > 0 && timers[HEAP0].at < mnNow
      modifies pq`pendings, pq`owed, all`pending, this`timercnt, timers, all`active, all`at
      ensures Valid() && Firing(fired + [w], at0, run0, owed0, qs0)
    {
      ghost var at1, run1, rep := Keys(), Running(), Repeats();
      w := FireEarliest();
      FireStep(fired, w, mnNow, rep, at0, run0, at1, run1, Keys(), Running());
      StopsOneMore(owed0, fired, w, rep);
    }

    /** The loop of `timers_reify`. */
    method FireLoop() returns (fired: seq<Watcher>)
      requires Valid()
      modifies pq`pendings, pq`owed, all`pending, this`timercnt, timers, all`active, all`at
      ensures Valid() && !(timercnt > 0 && timers[HEAP0].at < mnNow)
      ensures Firing(fired, old(Keys()), old(Running()), old(pq.owed), old(pq.pendings))
    {
      ghost var at0, run0, owed0, qs0 := Keys(), Running(), pq.owed, pq.pendings;
      fired := [];
      NoStops(owed0, Repeats());
      while timercnt > 0 && timers[HEAP0].at < mnNow
        invariant Valid() && Firing(fired, at0, run0, owed0, qs0)
        decreases |run0| - |fired|
      {
        var w := FireNext(fired, at0, run0, owed0, qs0);
        FiredBounded(fired + [w], run0);
        fired := fired + [w];
      }
    }

    /** The timers expired on entry are fired, and no others. */
    method FireExpired() returns (fired: seq<Watcher>)
      requires Valid()
      modifies pq`pendings, pq`owed, all`pending, this`timercnt, timers, all`active, all`at
      ensures Valid()
      ensures ExpiredFired(fired, old(Keys()), old(Running()))
      ensures pq.owed == AfterStops(old(pq.owed), fired, Repeats())
      ensures (forall w :: w in fired ==> w !in old(pq.owed)) ==> pq.pendings == old(pq.pendings)
    {
      ghost var at0, run0 := Keys(), Running();
      fired := FireLoop();
      forall w | w in run0 && at0[w] < mnNow ensures w in fired {
        if w !in fired {
          assert Outcome(w in fired, mnNow, Repeats()[w], at0[w], w in run0, Keys()[w], w in Running());
          RootExpiresFirst(w);
        }
      }
      FiredIsAll(fired, mnNow, Repeats(), at0, run0, Keys(), Running());
    }

    /** The timers that had expired, with the keys `at0` and the running timers `run0`, were fired. */
    ghost predicate ExpiredFired(fired: seq<Watcher>, at0: map<Watcher, real>, run0: set<Watcher>)
      reads this`mnNow, all`active, all`at, all`repeat
    {
      AllFired(fired, mnNow, Repeats(), at0, run0, Keys(), Running())
    }

    /**
     What `timers_reify` does: the expired timers are fired; those that do not repeat lose what they
     were owed before; all get EV_TIMER, and no other account changes; and if none of them was
     pending before, then at each priority they will be delivered first, in order of expiry.
     */
    ghost predicate Reified(fired: seq<Watcher>, at0: map<Watcher, real>, run0: set<Watcher>,
                            owed0: map<Watcher, P.Events>, qs0: seq<seq<P.Item>>)
      reads this`mnNow, all`active, all`at, all`repeat, pq`owed, pq`pendings
    {
      && ExpiredFired(fired, at0, run0)
      && P.FedTo(fired, EV_TIMER, AfterStops(owed0, fired, Repeats()), pq.owed)
      && ((forall w :: w in fired ==> w !in owed0) ==> InExpiryOrder(fired, qs0, pq.pendings))
    }

    method TimersReify() returns (ghost fired: seq<Watcher>)
      requires Valid()
      modifies pq`pendings, pq`pendingpri, pq`owed, pq.all`pending
      modifies this`timercnt, timers, all`active, all`at
      ensures Valid()
      ensures Reified(fired, old(Keys()), old(Running()), old(pq.owed), old(pq.pendings))
    {
      if timercnt > 0 && timers[HEAP0].at < mnNow {
        fired := FireAndFeed();
      } else {
        NothingExpired();
        fired := [];
        NoStops(pq.owed, Repeats());
      }
    }

    /**
     `timers_reify` followed by `ev_invoke_pending`, whatever is pending before and whatever the
     callbacks feed and clear: `due` is what is owed in between, and the calls account for all of
     it. If no expired timer was pending before and the callbacks leave the queues alone, the calls
     are those of the expired timers in order of expiry and then those pending before, priority by
     priority.
     */
    method RunExpired(script: seq<seq<P.Action>>)
      returns (ghost fired: seq<Watcher>, ghost due: map<Watcher, P.Events>, ghost calls: seq<P.Call>)
      requires Valid() && P.Within(script, pq.all)
      modifies pq`pendings, pq`pendingpri, pq`owed, pq.all`pending
      modifies this`timercnt, timers, all`active, all`at
      ensures Valid() && pq.owed == map[]
      ensures ExpiredFired(fired, old(Keys()), old(Running()))
      ensures P.FedTo(fired, EV_TIMER, AfterStops(old(pq.owed), fired, Repeats()), due)
      ensures P.Traced(calls, script, due) && P.Accounts(calls, script, due) == map[]
      ensures P.NothingLost(calls, script, due) && forall c :: c in calls ==> P.InOrder(c)
      ensures forall w :: w in fired ==> P.CalledFrom(calls, 0, w, {8}) || P.ClearedFrom(calls, script, 0, w)
      ensures |old(pq.pendings)| == NUMPRI
      ensures P.Idle(script) && (forall w :: w in fired ==> w !in old(pq.owed)) ==>
                P.Plain(calls) == ByPriority(fired, old(pq.pendings), NUMPRI)
    {
      ghost var at0, run0, owed0, qs0 := Keys(), Running(), pq.owed, pq.pendings;
      fired := TimersReify();
      due := pq.owed;
      DeliveredFirst(fired, owed0, qs0, pq.pendings);
      calls := InvokeFired(script, fired, at0, run0);
      FiredAreCalled(fired, AfterStops(owed0, fired, Repeats()), due, calls, script);
    }

    /** `ev_invoke_pending` after the timers `fired`. */
    method InvokeFired(script: seq<seq<P.Action>>, ghost fired: seq<Watcher>,
                       ghost at0: map<Watcher, real>, ghost run0: set<Watcher>) returns (ghost calls: seq<P.Call>)
      requires Valid() && P.Within(script, pq.all) && ExpiredFired(fired, at0, run0)
      modifies pq`pendings, pq`pendingpri, pq`owed, pq.all`pending
      ensures Valid() && ExpiredFired(fired, at0, run0) && Repeats() == old(Repeats())
      ensures |old(pq.pendings)| == NUMPRI && pq.owed == map[]
      ensures P.Traced(calls, script, old(pq.owed)) && P.Accounts(calls, script, old(pq.owed)) == map[]
      ensures P.NothingLost(calls, script, old(pq.owed)) && forall c :: c in calls ==> P.InOrder(c)
      ensures P.Idle(script) ==> P.Plain(calls) == P.DeliveredBelow(old(pq.pendings), NUMPRI)
    {
      calls := InvokeKeepingHeap(script);
    }

    /** `ev_invoke_pending` touches the pending queues and nothing of the heap. */
    method InvokeKeepingHeap(script: seq<seq<P.Action>>) returns (ghost calls: seq<P.Call>)
      requires Valid() && P.Within(script, pq.all)
      modifies pq`pendings, pq`pendingpri, pq`owed, pq.all`pending
      ensures Valid() && Keys() == old(Keys()) && Running() == old(Running()) && Repeats() == old(Repeats())
      ensures |old(pq.pendings)| == NUMPRI && pq.owed == map[]
      ensures P.Traced(calls, script, old(pq.owed)) && P.Accounts(calls, script, old(pq.owed)) == map[]
      ensures P.NothingLost(calls, script, old(pq.owed)) && forall c :: c in calls ==> P.InOrder(c)
      ensures P.Idle(script) ==> P.Plain(calls) == P.DeliveredBelow(old(pq.pendings), NUMPRI)
    {
      calls := pq.InvokePending(script);
    }

    method FireAndFeed() returns (ghost fired: seq<Watcher>)
      requires Valid()
      modifies pq`pendings, pq`pendingpri, pq`owed, pq.all`pending
      modifies this`timercnt, timers, all`active, all`at
      ensures Valid()
      ensures Reified(fired, old(Keys()), old(Running()), old(pq.owed), old(pq.pendings))
    {
      ghost var at0, run0, owed0, qs0 := Keys(), Running(), pq.owed, pq.pendings;
      var rfeeds := FireExpired();
      ghost var qs1 := pq.pendings;
      FeedKeepingHeap(rfeeds);
      fired := rfeeds;
      FedAfterFiring(fired, Repeats(), owed0, qs0, qs1, pq.owed, pq.pendings);
    }

    /** `feed_reverse_done` touches the pending queues and nothing of the heap. */
    method FeedKeepingHeap(rfeeds: seq<Watcher>)
      requires Valid() && (forall w :: w in rfeeds ==> w in all)
      requires forall i, j :: 0 <= i < j < |rfeeds| ==> rfeeds[i] != rfeeds[j]
      modifies pq`pendings, pq`pendingpri, pq`owed, pq.all`pending
      ensures Valid() && Keys() == old(Keys()) && Running() == old(Running()) && Repeats() == old(Repeats())
      ensures FedInOrder(rfeeds, old(pq.owed), old(pq.pendings), pq.owed, pq.pendings)
    {
      FeedFired(rfeeds);
    }

    lemma NothingExpired()
      requires HeapOk() && !(timercnt > 0 && timers[HEAP0].at < mnNow)
      ensures forall w :: w in Running() ==> w.at >= mnNow
      ensures Fired([], Keys(), Running())
    {
      forall w | w in Running() ensures w.at >= mnNow { RootExpiresFirst(w); }
    }

    /** The second half of `timers_reify`. */
    method FeedFired(rfeeds: seq<Watcher>)
      requires pq.Valid() && (forall w :: w in rfeeds ==> w in pq.all)
      requires forall i, j :: 0 <= i < j < |rfeeds| ==> rfeeds[i] != rfeeds[j]
      modifies pq`pendings, pq`pendingpri, pq`owed, pq.all`pending
      ensures pq.Valid()
      ensures FedInOrder(rfeeds, old(pq.owed), old(pq.pendings), pq.owed, pq.pendings)
    {
      ghost var qs, owed := pq.pendings, pq.owed;
      pq.FeedReversed(rfeeds, EV_TIMER);
      if P.Unfed(rfeeds, owed) {
        FedInExpiryOrder(rfeeds, qs, pq.pendings);
      }
    }

    lemma RunningIsHeap()
      requires HeapOk()
      ensures Running() == Watchers(timers[..], timercnt)
    {
    }
  }

  /**
   After firing `fired` at time `now`, with the keys `at0` and the running timers `run0` on entry
   and `at` and `run` afterwards: they were expired, were fired once each and in order of expiry,
   and were rescheduled or stopped; nobody else changed.
   */
  ghost predicate FiredOk(fired: seq<Watcher>, now: real, rep: map<Watcher, real>,
                          at0: map<Watcher, real>, run0: set<Watcher>, at: map<Watcher, real>, run: set<Watcher>)
  {
    && at0.Keys == at.Keys == rep.Keys && run0 <= at0.Keys && run <= at0.Keys
    && (forall w :: w in fired ==> w in run0 && at0[w] < now)
    && (forall i, j :: 0 <= i < j < |fired| ==> fired[i] != fired[j] && at0[fired[i]] <= at0[fired[j]])
    && (forall w, u :: w in fired && u in run && u !in fired ==> at0[w] <= at0[u])
    && (forall w :: w in at0 ==> Outcome(w in fired, now, rep[w], at0[w], w in run0, at[w], w in run))
  }

  ghost predicate Outcome(wasFired: bool, now: real, rep: real, at0: real, ran: bool, at: real, runs: bool) {
    if !wasFired then at == at0 && runs == ran
    else if rep != 0.0 then runs && NextKey(at, at0, rep, now)
    else !runs && at == at0 - now
  }

  /** Firing the earliest running timer, if it is expired. */
  lemma FireStep(fired: seq<Watcher>, w: Watcher, now: real, rep: map<Watcher, real>,
                 at0: map<Watcher, real>, run0: set<Watcher>, at1: map<Watcher, real>, run1: set<Watcher>,
                 at2: map<Watcher, real>, run2: set<Watcher>)
    requires FiredOk(fired, now, rep, at0, run0, at1, run1)
    requires w in run1 && at1[w] < now && forall u :: u in run1 ==> at1[w] <= at1[u]
    requires at2.Keys == at1.Keys && at2 == at1[w := at2[w]]
    requires rep[w] != 0.0 ==> run2 == run1 && NextKey(at2[w], at1[w], rep[w], now)
    requires rep[w] == 0.0 ==> run2 == run1 - {w} && at2[w] == at1[w] - now
    ensures FiredOk(fired + [w], now, rep, at0, run0, at2, run2)
  {
    assert Outcome(w in fired, now, rep[w], at0[w], w in run0, at1[w], w in run1);
    assert w !in fired && at0[w] == at1[w];
    var more := fired + [w];
    forall u | u in at0 ensures Outcome(u in more, now, rep[u], at0[u], u in run0, at2[u], u in run2) {
      assert Outcome(u in fired, now, rep[u], at0[u], u in run0, at1[u], u in run1);
    }
    forall v, u | v in more && u in run2 && u !in more ensures at0[v] <= at0[u] {
      assert Outcome(u in fired, now, rep[u], at0[u], u in run0, at1[u], u in run1);
    }
  }

  lemma {:induction false} FiredBounded(fired: seq<Watcher>, run0: set<Watcher>)
    requires forall w :: w in fired ==> w in run0
    requires forall i, j :: 0 <= i < j < |fired| ==> fired[i] != fired[j]
    ensures |fired| <= |run0|
  {
    if fired != [] {
      var w := fired[|fired| - 1];
      FiredBounded(fired[..|fired| - 1], run0 - {w});
    }
  }

  /** What is still owed of `was`: firing a timer that does not repeat stops it, and that clears its events. */
  ghost function AfterStops(was: map<Watcher, P.Events>, fired: seq<Watcher>, rep: map<Watcher, real>)
    : map<Watcher, P.Events>
  {
    map u | u in was && !(u in fired && u in rep && rep[u] == 0.0) :: was[u]
  }

  lemma NoStops(was: map<Watcher, P.Events>, rep: map<Watcher, real>)
    ensures AfterStops(was, [], rep) == was
  {
  }

  lemma StopsOneMore(was: map<Watcher, P.Events>, fired: seq<Watcher>, w: Watcher, rep: map<Watcher, real>)
    requires w in rep
    ensures AfterStops(was, fired + [w], rep) ==
            if rep[w] == 0.0 then AfterStops(was, fired, rep) - {w} else AfterStops(was, fired, rep)
  {
  }

  /** All of `fired` are owed EV_TIMER as well; if none was pending, they come first and in order. */
  ghost predicate FedInOrder(fired: seq<Watcher>, owed0: map<Watcher, P.Events>, qs0: seq<seq<P.Item>>,
                             owed: map<Watcher, P.Events>, qs: seq<seq<P.Item>>)
  {
    && P.FedTo(fired, EV_TIMER, owed0, owed)
    && ((forall w :: w in fired ==> w !in owed0) ==> InExpiryOrder(fired, qs0, qs))
  }

  /**
   With the keys `at0` and the running timers `run0` before and `at` and `run` after: exactly the
   timers that had expired were fired, once each and in order of expiry; a repeating one has moved on
   by its interval, but not into the past; another one is stopped and its key relative again; nobody
   else changed.
   */
  ghost predicate AllFired(fired: seq<Watcher>, now: real, rep: map<Watcher, real>,
                           at0: map<Watcher, real>, run0: set<Watcher>, at: map<Watcher, real>, run: set<Watcher>)
  {
    && at0.Keys == at.Keys == rep.Keys && run0 <= at0.Keys && run <= at0.Keys
    && (forall w :: w in fired ==> w in run0 && at0[w] < now)
    && (forall w :: w in run0 && at0[w] < now ==> w in fired)
    && (forall i, j :: 0 <= i < j < |fired| ==> fired[i] != fired[j] && at0[fired[i]] <= at0[fired[j]])
    && (forall w :: w in fired && rep[w] != 0.0 ==>
          && w in run && at[w] >= at0[w] + rep[w] && at[w] >= now
          && (at[w] == at0[w] + rep[w] || at[w] == now))
    && (forall w :: w in fired && rep[w] == 0.0 ==> w !in run && at[w] == at0[w] - now)
    && (forall w :: w in at0 && w !in fired ==> at[w] == at0[w] && (w in run <==> w in run0))
  }

  lemma FiredIsAll(fired: seq<Watcher>, now: real, rep: map<Watcher, real>,
                   at0: map<Watcher, real>, run0: set<Watcher>, at: map<Watcher, real>, run: set<Watcher>)
    requires FiredOk(fired, now, rep, at0, run0, at, run) && forall w :: w in run0 && at0[w] < now ==> w in fired
    ensures AllFired(fired, now, rep, at0, run0, at, run)
  {
    forall w | w in at0 ensures Outcome(w in fired, now, rep[w], at0[w], w in run0, at[w], w in run) { }
  }

  lemma FedAfterFiring(fired: seq<Watcher>, rep: map<Watcher, real>,
                       owed0: map<Watcher, P.Events>, qs0: seq<seq<P.Item>>, qs1: seq<seq<P.Item>>,
                       owed: map<Watcher, P.Events>, qs: seq<seq<P.Item>>)
    requires (forall w :: w in fired ==> w !in owed0) ==> qs1 == qs0
    requires FedInOrder(fired, AfterStops(owed0, fired, rep), qs1, owed, qs)
    ensures P.FedTo(fired, EV_TIMER, AfterStops(owed0, fired, rep), owed)
    ensures (forall w :: w in fired ==> w !in owed0) ==> InExpiryOrder(fired, qs0, qs)
  {
  }

  /** Every fired timer is called with EV_TIMER, unless a callback clears it. */
  lemma FiredAreCalled(fired: seq<Watcher>, was: map<Watcher, P.Events>, due: map<Watcher, P.Events>,
                       calls: seq<P.Call>, script: seq<seq<P.Action>>)
    requires P.FedTo(fired, EV_TIMER, was, due) && P.NothingLost(calls, script, due)
    ensures forall w :: w in fired ==> P.CalledFrom(calls, 0, w, {8}) || P.ClearedFrom(calls, script, 0, w)
  {
    forall w | w in fired ensures P.CalledFrom(calls, 0, w, {8}) || P.ClearedFrom(calls, script, 0, w) {
      if P.CalledFrom(calls, 0, w, due[w]) {
        var j :| 0 <= j < |calls| && calls[j].w == w && due[w] <= calls[j].events;
        assert EV_TIMER <= calls[j].events;
      }
    }
  }

  /** At each priority the fired timers will be delivered in order, before what was queued. */
  ghost predicate InExpiryOrder(fired: seq<Watcher>, was: seq<seq<P.Item>>, qs: seq<seq<P.Item>>) {
    && |was| == |qs| == NUMPRI
    && forall p :: 0 <= p < NUMPRI ==>
         P.DeliveredFrom(qs[p]) == P.OfPriority(fired, p, EV_TIMER) + P.DeliveredFrom(was[p])
  }

  /**
   For each priority below `pri`, from the highest down: the fired timers in order of expiry, then
   what was queued before.
   */
  ghost function ByPriority(fired: seq<Watcher>, was: seq<seq<P.Item>>, pri: nat): seq<(Watcher, P.Events)>
    requires pri <= |was|
  {
    if pri == 0 then []
    else P.OfPriority(fired, pri - 1, EV_TIMER) + P.DeliveredFrom(was[pri - 1]) + ByPriority(fired, was, pri - 1)
  }

  lemma {:induction false} DeliveredByPriority(fired: seq<Watcher>, was: seq<seq<P.Item>>, qs: seq<seq<P.Item>>,
                                               pri: nat)
    requires InExpiryOrder(fired, was, qs) && pri <= NUMPRI
    ensures P.DeliveredBelow(qs, pri) == ByPriority(fired, was, pri)
  {
    if pri > 0 {
      DeliveredByPriority(fired, was, qs, pri - 1);
    }
  }

  /** If none of the fired timers was pending, they are delivered before what was. */
  lemma DeliveredFirst(fired: seq<Watcher>, owed0: map<Watcher, P.Events>, qs0: seq<seq<P.Item>>, qs: seq<seq<P.Item>>)
    requires |qs0| == |qs| == NUMPRI
    requires (forall w :: w in fired ==> w !in owed0) ==> InExpiryOrder(fired, qs0, qs)
    ensures (forall w :: w in fired ==> w !in owed0) ==> P.DeliveredBelow(qs, NUMPRI) == ByPriority(fired, qs0, NUMPRI)
  {
    if forall w :: w in fired ==> w !in owed0 {
      DeliveredByPriority(fired, qs0, qs, NUMPRI);
    }
  }

  lemma FedInExpiryOrder(fired: seq<Watcher>, was: seq<seq<P.Item>>, qs: seq<seq<P.Item>>)
    requires |was| == NUMPRI && P.Known(fired) && qs == P.FedReverse(was, fired, EV_TIMER)
    ensures InExpiryOrder(fired, was, qs)
  {
    forall p | 0 <= p < NUMPRI
      ensures P.DeliveredFrom(qs[p]) == P.OfPriority(fired, p, EV_TIMER) + P.DeliveredFrom(was[p])
    {
      P.FedReverseDelivers(was, fired, EV_TIMER, p);
    }
  }

  lemma OneChanged(m: map<Watcher, real>, m': map<Watcher, real>, w: Watcher)
    requires w in m && m'.Keys == m.Keys && forall u :: u in m && u != w ==> m'[u] == m[u]
    ensures m' == m[w := m'[w]]
  {
  }

  /** A repeating timer that fires goes on by its interval, but not into the past. */
  ghost predicate NextKey(next: real, at: real, repeat: real, now: real) {
    next >= at + repeat && next >= now && (next == at + repeat || next == now)
  }

  lemma PrefixOk(g: seq<Entry>, h: seq<Entry>, n: nat, all: set<Watcher>)
    requires TimersOk(g, n, all) && HEAP0 + n <= |h| && forall i :: 0 <= i < HEAP0 + n ==> h[i] == g[i]
    ensures TimersOk(h, n, all) && Watchers(h, n) == Watchers(g, n)
  {
    assert Watchers(h, n) == Watchers(g, n);
  }

  /** Bring the element behind a heap of `n` elements into the heap. */
  method SiftLast(heap: array<Entry>, n: nat, w: Watcher, ghost all: set<Watcher>)
    requires HEAP0 + n < heap.Length && TimersOk(heap[..], n, all)
    requires w in all && w.active == 0 && heap[HEAP0 + n] == Entry(w.at, w)
    modifies heap, all`active
    ensures TimersOk(heap[..], n + 1, all)
    ensures Watchers(heap[..], n + 1) == old(Watchers(heap[..], n)) + {w}
  {
    ghost var h := heap[..];
    InsertShape(h, h, n, w);
    Upheap(heap, HEAP0 + n, n + 1);
    ghost var r := heap[..];
    assert r == Up(h, HEAP0 + n);
    UpExtends(h, n);
    UpContents(h, n + 1, HEAP0 + n);
    Sifted(h, r, n + 1, all);
  }

  /** The same elements in heap order are a heap of the active timers as well. */
  lemma Sifted(h: seq<Entry>, r: seq<Entry>, n: nat, all: set<Watcher>)
    requires HEAP0 + n <= |h| == |r| && Contents(h, n) == Contents(r, n) && Cached(h, n) && Watchers(h, n) <= all
    requires Ordered(r, n) && Indexed(r, n)
    requires forall w :: w in all && w !in Watchers(h, n) ==> w.active == 0
    ensures TimersOk(r, n, all) && Watchers(r, n) == Watchers(h, n)
  {
    SameContents(h, r, n);
    forall w | w in Watchers(r, n) ensures w.active != 0 {
      var i :| HEAP0 <= i < HEAP0 + n && r[i].w == w;
    }
  }

  lemma InsertShape(g: seq<Entry>, h: seq<Entry>, n: nat, w: Watcher)
    requires HEAP0 + n < |g| == |h| && h == g[HEAP0 + n := h[HEAP0 + n]] && h[HEAP0 + n].w == w
    ensures Watchers(h, n + 1) == Watchers(g, n) + {w}
  {
    forall i | HEAP0 <= i < HEAP0 + n ensures h[i] == g[i] { }
    assert forall x :: x in Watchers(h, n + 1) <==> x in Watchers(g, n) || x == w by {
      forall x | x in Watchers(g, n) ensures x in Watchers(h, n + 1) {
        var i :| HEAP0 <= i < HEAP0 + n && g[i].w == x;
        assert h[i].w == x;
      }
      assert h[HEAP0 + n].w in Watchers(h, n + 1);
    }
  }

  // ---------------------------------------------------------------- taking elements out, new keys

  /** The last element in place of element `k`: everybody but the watcher at `k` is still there. */
  lemma ReplacedByLast(g: seq<Entry>, n: nat, k: nat)
    requires HEAP0 <= k <= HEAP0 + n < |g| && Indexed(g, n + 1)
    ensures k < HEAP0 + n ==> Watchers(g[k := g[HEAP0 + n]], n) == Watchers(g, n + 1) - {g[k].w}
    ensures k == HEAP0 + n ==> Watchers(g, n) == Watchers(g, n + 1) - {g[k].w}
  {
    var h := g[k := g[HEAP0 + n]];
    forall x | x in Watchers(g, n + 1) && x != g[k].w
      ensures k < HEAP0 + n ==> x in Watchers(h, n)
      ensures k == HEAP0 + n ==> x in Watchers(g, n)
    {
      var i :| HEAP0 <= i < HEAP0 + n + 1 && g[i].w == x;
      if k < HEAP0 + n {
        assert h[if i == HEAP0 + n then k else i].w == x;
      }
    }
  }

  /** Move the last element of `n + 1` into place `k` and from there to where it belongs. */
  method FillGap(heap: array<Entry>, n: nat, k: nat)
    requires HEAP0 <= k < HEAP0 + n < heap.Length
    requires Ordered(heap[..], n + 1) && Indexed(heap[..], n + 1) && Cached(heap[..], n + 1)
    modifies heap, Watchers(heap[..], n + 1)`active
    ensures Ordered(heap[..], n) && Indexed(heap[..], n) && Cached(heap[..], n)
    ensures Watchers(heap[..], n) == old(Watchers(heap[..], n + 1)) - {old(heap[k].w)}
  {
    ghost var g := heap[..];
    ReplacedByLast(g, n, k);
    Shorter(g, n);
    heap[k] := heap[HEAP0 + n];
    ghost var h := heap[..];
    assert h == g[k := g[HEAP0 + n]];
    assert Cached(h, n);
    Adjustheap(heap, n, k);
    AdjustOrders(g, n, k, g[HEAP0 + n]);
    AdjustContents(h, n, k);
    SameContents(h, heap[..], n);
  }

  /** Remove element `k` of a heap of `n + 1` elements and mark its watcher inactive. */
  method TakeOut(heap: array<Entry>, n: nat, k: nat, ghost all: set<Watcher>)
    requires HEAP0 <= k <= HEAP0 + n < heap.Length && TimersOk(heap[..], n + 1, all)
    modifies heap, all`active
    ensures TimersOk(heap[..], n, all) && Watchers(heap[..], n) == old(Watchers(heap[..], n + 1)) - {old(heap[k].w)}
  {
    var w := heap[k].w;
    if k < HEAP0 + n {
      FillGap(heap, n, k);
    } else {
      ReplacedByLast(heap[..], n, k);
      Shorter(heap[..], n);
    }
    w.active := 0;
  }

  /** Give element `k` a new key and move it to where it belongs. */
  method ReKey(heap: array<Entry>, n: nat, k: nat, at: real, ghost all: set<Watcher>)
    requires HEAP0 <= k < HEAP0 + n <= heap.Length && TimersOk(heap[..], n, all)
    modifies heap, all`active, heap[k].w`at
    ensures TimersOk(heap[..], n, all) && Watchers(heap[..], n) == old(Watchers(heap[..], n))
    ensures old(heap[k].w).at == at
  {
    ghost var g := heap[..];
    var w := heap[k].w;
    w.at := at;
    heap[k] := Entry(w.at, w);
    ghost var h := heap[..];
    assert h == g[k := Entry(at, w)];
    Adjustheap(heap, n, k);
    ghost var r := heap[..];
    assert r == Adjust(h, n, k);
    AdjustOrders(g, n, k, Entry(at, w));
    AdjustContents(h, n, k);
    RekeyedSame(g, h, n, k);
    SameContents(h, r, n);
  }

  lemma RekeyedSame(g: seq<Entry>, h: seq<Entry>, n: nat, k: nat)
    requires HEAP0 <= k < HEAP0 + n <= |g| && |h| == |g| && h == g[k := h[k]] && h[k].w == g[k].w
    ensures Watchers(h, n) == Watchers(g, n)
  {
    SameWatchersByIndex(g, h, n);
  }

  // ---------------------------------------------------------------- changing all keys

  /** `timers_reschedule`: all keys move by the same amount, and no element moves. */
  method TimersReschedule(heap: array<Entry>, n: nat, adjust: real, ghost all: set<Watcher>)
    requires TimersOk(heap[..], n, all)
    modifies heap, all`at
    ensures TimersOk(heap[..], n, all)
    ensures forall j :: HEAP0 <= j < HEAP0 + n ==> heap[j] == Entry(old(heap[j].at) + adjust, old(heap[j].w))
    ensures Watchers(heap[..], n) == old(Watchers(heap[..], n))
    ensures forall w :: w in all && w !in old(Watchers(heap[..], n)) ==> w.at == old(w.at)
  {
    ghost var g := heap[..];
    for i := 0 to n
      invariant forall j :: HEAP0 <= j < HEAP0 + i ==>
                  heap[j] == Entry(g[j].at + adjust, g[j].w) && g[j].w.at == heap[j].at
      invariant forall j :: HEAP0 + i <= j < HEAP0 + n ==> heap[j] == g[j] && g[j].w.at == g[j].at
      invariant forall w :: w in all && w !in Watchers(g, n) ==> w.at == old(w.at)
    {
      var he := heap[HEAP0 + i];
      he.w.at := he.w.at + adjust;
      heap[HEAP0 + i] := Entry(he.w.at, he.w);
    }
    ghost var h := heap[..];
    assert Watchers(h, n) == Watchers(g, n) by { SameWatchersByIndex(g, h, n); }
    forall i | HEAP0 < i < HEAP0 + n ensures h[HParent(i)].at <= h[i].at { Children(i, HParent(i)); }
  }

  lemma SameWatchersByIndex(g: seq<Entry>, h: seq<Entry>, n: nat)
    requires HEAP0 + n <= |g| == |h| && forall i :: HEAP0 <= i < HEAP0 + n ==> h[i].w == g[i].w
    ensures Watchers(h, n) == Watchers(g, n)
  {
    forall x | x in Watchers(g, n) ensures x in Watchers(h, n) {
      var i :| HEAP0 <= i < HEAP0 + n && g[i].w == x;
      assert h[i].w == x;
    }
    forall x | x in Watchers(h, n) ensures x in Watchers(g, n) {
      var i :| HEAP0 <= i < HEAP0 + n && h[i].w == x;
      assert g[i].w == x;
    }
  }

  /** Give every watcher of a heap a new key and cache it. */
  method RewriteKeys(heap: array<Entry>, n: nat, next: seq<real>)
    requires HEAP0 + n <= heap.Length && |next| == n && Indexed(heap[..], n)
    modifies heap, Watchers(heap[..], n)`at
    ensures forall j :: HEAP0 <= j < HEAP0 + n ==>
              heap[j].w == old(heap[j].w) && heap[j].w.at == next[j - HEAP0] == heap[j].at
    ensures Watchers(heap[..], n) == old(Watchers(heap[..], n)) && Indexed(heap[..], n)
  {
    ghost var g := heap[..];
    for i := 0 to n
      invariant forall j :: HEAP0 <= j < HEAP0 + i ==>
                  heap[j] == Entry(next[j - HEAP0], g[j].w) && g[j].w.at == heap[j].at
      invariant forall j :: HEAP0 + i <= j < HEAP0 + n ==> heap[j] == g[j]
    {
      assert heap[HEAP0 + i].w == g[HEAP0 + i].w;
      var w := heap[HEAP0 + i].w;
      w.at := next[i];
      heap[HEAP0 + i] := Entry(w.at, w);
    }
    SameWatchersByIndex(g, heap[..], n);
  }

  /**
   `periodics_reschedule`: every key is recomputed (`next` stands for the user's reschedule
   callbacks) and the heap rebuilt.
   */
  method PeriodicsReschedule(heap: array<Entry>, n: nat, next: seq<real>, ghost all: set<Watcher>)
    requires TimersOk(heap[..], n, all) && |next| == n
    modifies heap, all`at, all`active
    ensures TimersOk(heap[..], n, all)
    ensures Watchers(heap[..], n) == old(Watchers(heap[..], n))
    ensures forall j :: HEAP0 <= j < HEAP0 + n ==> old(heap[j].w).at == next[j - HEAP0]
  {
    RewriteKeys(heap, n, next);
    ghost var h := heap[..];
    Reheap(heap, n);
    SameContents(h, heap[..], n);
  }
}
