/**
 libev's pending queues: one array per priority, with the position of a watcher's entry kept in
 its `pending` field, emptied from the highest priority down by callbacks that may themselves
 feed and clear events.
 */
module Pending {
  import opened Ev

  /** A mask of event bits, as the set of their positions; the source's `|=` is union. */
  type Events = set<nat>

  /** An array element; clearing replaces the watcher by the dummy `pending_w`. */
  datatype Item = Live(w: Watcher, events: Events) | Cleared(events: Events)

  /** What a callback does to the queues. */
  datatype Action = Feed(w: Watcher, revents: Events) | Clear(w: Watcher)

  /**
   One callback invocation: its watcher and events, and all watchers that were pending with what
   they were owed, just before it.
   */
  datatype Call = Call(w: Watcher, events: Events, owed: map<Watcher, Events>)

  /** A live element belongs to the watcher whose `pending` field names it. */
  ghost predicate ItemOk(it: Item, pri: nat, i: nat, owed: map<Watcher, Events>, all: set<Watcher>)
    reads all`pending
  {
    it.Live? ==>
      it.w in all && it.w.priority == pri && it.w.pending == i + 1 && it.w in owed && it.events == owed[it.w]
  }

  ghost predicate WatcherOk(w: Watcher, qs: seq<seq<Item>>, owed: map<Watcher, Events>)
    requires |qs| == NUMPRI
    reads w`pending
  {
    && w.priority < NUMPRI
    && (w.pending != 0 <==> w in owed)
    && (w.pending != 0 ==> w.pending <= |qs[w.priority]| && qs[w.priority][w.pending - 1] == Live(w, owed[w]))
  }

  ghost predicate QueuesOk(qs: seq<seq<Item>>, owed: map<Watcher, Events>, all: set<Watcher>)
    reads all`pending
  {
    && |qs| == NUMPRI && owed.Keys <= all
    && (forall pri, i :: 0 <= pri < NUMPRI && 0 <= i < |qs[pri]| ==> ItemOk(qs[pri][i], pri, i, owed, all))
    && (forall w :: w in all ==> WatcherOk(w, qs, owed))
  }

  lemma OrKeepsQueues(qs: seq<seq<Item>>, owed: map<Watcher, Events>, all: set<Watcher>, w: Watcher, revents: Events)
    requires QueuesOk(qs, owed, all) && w in owed
    ensures w in all && w.priority < NUMPRI && 0 < w.pending <= |qs[w.priority]|
    ensures var it := Live(w, owed[w] + revents);
            QueuesOk(qs[w.priority := qs[w.priority][w.pending - 1 := it]], owed[w := owed[w] + revents], all)
  {
    assert WatcherOk(w, qs, owed);
    var pri, i, e := w.priority, w.pending - 1, owed[w] + revents;
    var qs', owed' := qs[pri := qs[pri][i := Live(w, e)]], owed[w := e];
    forall p, j | 0 <= p < NUMPRI && 0 <= j < |qs'[p]| ensures ItemOk(qs'[p][j], p, j, owed', all) {
      assert ItemOk(qs[p][j], p, j, owed, all);
    }
    forall v | v in all ensures WatcherOk(v, qs', owed') {
      assert WatcherOk(v, qs, owed);
    }
  }

  class PendingQueues {
    var pendings: seq<seq<Item>>
    var pendingpri: nat
    /** Specification only: the OR of all events fed to a watcher and not yet delivered or cleared. */
    ghost var owed: map<Watcher, Events>
    ghost const all: set<Watcher>

    constructor (ghost all: set<Watcher>)
      requires forall w :: w in all ==> w.priority < NUMPRI && w.pending == 0
      ensures Valid() && owed == map[] && this.all == all && |pendings| == 5
    {
      pendings, pendingpri := seq(NUMPRI, _ => []), 0;
      owed := map[];
      this.all := all;
    }

    /** Every pending watcher occurs once, where its `pending` field says, with all it is owed. */
    ghost predicate Valid()
      reads this, all`pending
    {
      pendingpri <= NUMPRI && QueuesOk(pendings, owed, all)
    }

    /** `ev_feed_event` on a watcher that is already pending: only its events grow. */
    method OrEvents(w: Watcher, revents: Events)
      requires Valid() && w in owed
      modifies this`pendings, this`owed
      ensures Valid() && owed == old(owed)[w := old(owed)[w] + revents]
      ensures 0 < w.pending <= |old(pendings)[w.priority]|
      ensures pendings == old(pendings)[w.priority := old(pendings)[w.priority][w.pending - 1 := Live(w, owed[w])]]
    {
      assert WatcherOk(w, pendings, owed);
      var pri, i := w.priority, w.pending - 1;
      OrKeepsQueues(pendings, owed, all, w, revents);
      var q := pendings[pri];
      pendings := pendings[pri := q[i := Live(w, q[i].events + revents)]];
      owed := owed[w := owed[w] + revents];
    }

    /** `ev_feed_event` on a watcher that is not pending: it goes to the end of its queue. */
    method Enqueue(w: Watcher, revents: Events)
      requires Valid() && w in all && w !in owed
      modifies this`pendings, this`owed, w`pending
      ensures Valid() && owed == old(owed)[w := revents]
      ensures pendings == old(pendings)[w.priority := old(pendings)[w.priority] + [Live(w, revents)]]
    {
      assert WatcherOk(w, pendings, owed);
      var pri := w.priority;
      w.pending := |pendings[pri]| + 1;
      pendings := pendings[pri := pendings[pri] + [Live(w, revents)]];
      owed := owed[w := revents];
      forall p, j | 0 <= p < NUMPRI && 0 <= j < |pendings[p]| ensures ItemOk(pendings[p][j], p, j, owed, all) {
        if j < |old(pendings)[p]| {
          assert old(ItemOk(pendings[p][j], p, j, owed, all));
        }
      }
      forall v | v in all ensures WatcherOk(v, pendings, owed) {
        assert old(WatcherOk(v, pendings, owed));
      }
    }

    /** `ev_feed_event`. */
    method FeedEvent(w: Watcher, revents: Events)
      requires Valid() && w in all
      modifies this`pendings, this`pendingpri, this`owed, w`pending
      ensures Valid() && pendingpri == NUMPRI - 1
      ensures owed == old(owed)[w := if w in old(owed) then old(owed)[w] + revents else revents]
      ensures w !in old(owed) ==>
                pendings == old(pendings)[w.priority := old(pendings)[w.priority] + [Live(w, revents)]]
      ensures w in old(owed) ==> 0 < w.pending == old(w.pending) <= |old(pendings)[w.priority]|
      ensures w in old(owed) ==>
                pendings == old(pendings)[w.priority := old(pendings)[w.priority][w.pending - 1 := Live(w, owed[w])]]
    {
      assert WatcherOk(w, pendings, owed);
      if w.pending != 0 {
        OrEvents(w, revents);
      } else {
        Enqueue(w, revents);
      }
      pendingpri := NUMPRI - 1;
    }

    /** Replace the element of a pending watcher by the dummy. */
    method Unqueue(w: Watcher) returns (events: Events)
      requires Valid() && w in owed
      modifies this`pendings, this`owed, w`pending
      ensures Valid() && owed == old(owed) - {w} && w.pending == 0 && events == old(owed)[w]
      ensures 0 < old(w.pending) <= |old(pendings)[w.priority]|
      ensures pendings == old(pendings)[w.priority := old(pendings)[w.priority][old(w.pending) - 1 := Cleared(events)]]
      ensures |pendings| == NUMPRI && forall p :: 0 <= p < NUMPRI ==> |pendings[p]| == |old(pendings)[p]|
    {
      assert WatcherOk(w, pendings, owed);
      var pri, i := w.priority, w.pending - 1;
      events := pendings[pri][i].events;
      pendings := pendings[pri := pendings[pri][i := Cleared(events)]];
      w.pending := 0;
      owed := owed - {w};
      forall p, j | 0 <= p < NUMPRI && 0 <= j < |pendings[p]| ensures ItemOk(pendings[p][j], p, j, owed, all) {
        assert old(ItemOk(pendings[p][j], p, j, owed, all));
      }
      forall v | v in all ensures WatcherOk(v, pendings, owed) {
        assert old(WatcherOk(v, pendings, owed));
      }
    }

    /** `ev_clear_pending`. */
    method ClearPending(w: Watcher) returns (events: Events)
      requires Valid() && w in all
      modifies this`pendings, this`owed, w`pending
      ensures Valid() && owed == old(owed) - {w} && w.pending == 0
      ensures events == if w in old(owed) then old(owed)[w] else {}
      ensures |pendings| == NUMPRI && forall p :: 0 <= p < NUMPRI ==> |pendings[p]| == |old(pendings)[p]|
      ensures w !in old(owed) ==> pendings == old(pendings)
      ensures w in old(owed) ==> 0 < old(w.pending) <= |old(pendings)[w.priority]|
      ensures w in old(owed) ==>
                pendings == old(pendings)[w.priority :=
                                            old(pendings)[w.priority][old(w.pending) - 1 := Cleared(events)]]
    {
      assert WatcherOk(w, pendings, owed);
      if w.pending != 0 {
        events := Unqueue(w);
      } else {
        events := {};
      }
    }

    // -------------------------------------------------------------- invoking callbacks

    /** Take the last element of a queue; its watcher is no longer pending. */
    method Pop(pri: nat) returns (it: Item)
      requires Valid() && pri < NUMPRI && pendings[pri] != []
      modifies this`pendings, this`owed, all`pending
      ensures Valid() && it == old(pendings)[pri][|old(pendings)[pri]| - 1]
      ensures pendings == old(pendings)[pri := old(pendings)[pri][..|old(pendings)[pri]| - 1]]
      ensures it.Cleared? ==> owed == old(owed)
      ensures it.Live? ==>
                it.w in old(owed) && it.events == old(owed)[it.w] && it.w.priority == pri && owed == old(owed) - {it.w}
    {
      var n := |pendings[pri]| - 1;
      it := pendings[pri][n];
      assert ItemOk(it, pri, n, owed, all);
      pendings := pendings[pri := pendings[pri][..n]];
      if it.Live? {
        it.w.pending := 0;
        owed := owed - {it.w};
      }
      forall p, j | 0 <= p < NUMPRI && 0 <= j < |pendings[p]| ensures ItemOk(pendings[p][j], p, j, owed, all) {
        assert old(ItemOk(pendings[p][j], p, j, owed, all));
      }
      forall v | v in all ensures WatcherOk(v, pendings, owed) {
        assert old(WatcherOk(v, pendings, owed));
      }
    }

    /** A callback feeds and clears events as it likes. */
    method RunCallback(actions: seq<Action>)
      requires Valid() && forall a :: a in actions ==> a.w in all
      modifies this`pendings, this`pendingpri, this`owed, all`pending
      ensures Valid() && owed == ActedAll(old(owed), actions)
      ensures pendingpri == NUMPRI - 1 || (pendingpri == old(pendingpri) && SameLengths(pendings, old(pendings)))
      ensures actions == [] ==> pendings == old(pendings) && pendingpri == old(pendingpri)
    {
      for i := 0 to |actions|
        invariant Valid() && owed == ActedAll(old(owed), actions[..i])
        invariant pendingpri == NUMPRI - 1 || (pendingpri == old(pendingpri) && SameLengths(pendings, old(pendings)))
        invariant i == 0 ==> pendings == old(pendings) && pendingpri == old(pendingpri)
      {
        assert actions[i].w in all && actions[..i + 1][..i] == actions[..i];
        match actions[i]
        case Feed(w, revents) => FeedEvent(w, revents);
        case Clear(w) => var _ := ClearPending(w);
      }
      assert actions[..|actions|] == actions;
    }

    /**
     Run the callback of the call `c`, whose element has been taken: callback number `pos` does
     `script[pos]`, later ones do nothing.
     */
    method RunNext(script: seq<seq<Action>>, pos: nat, ghost done: seq<Call>, ghost c: Call,
                   ghost was: map<Watcher, Events>)
      returns (pos': nat)
      requires Valid() && InOrder(c) && owed == c.owed - {c.w} && Tracks(pos, c.owed, done, script, was)
      requires Within(script, all)
      modifies this`pendings, this`pendingpri, this`owed, all`pending
      ensures Valid() && Tracks(pos', owed, done + [c], script, was)
      ensures pos' == pos || pos' == pos + 1 <= |script|
      ensures pendingpri == NUMPRI - 1 || (pendingpri == old(pendingpri) && SameLengths(pendings, old(pendings)))
      ensures pos' == pos || Idle(script) ==> pendings == old(pendings) && pendingpri == old(pendingpri)
    {
      TracedOneMore(done, c, script, was);
      pos' := pos;
      if pos < |script| {
        pos' := pos + 1;
        RunCallback(script[pos]);
      }
    }

    /** Take the last element of the current queue, above which all queues are empty. */
    method PopNext(ghost done: seq<Call>) returns (it: Item)
      requires Valid() && pendingpri < NUMPRI && pendings[pendingpri] != [] && EmptyAbove(pendings, pendingpri)
      modifies this`pendings, this`owed, all`pending
      ensures Valid() && EmptyAbove(pendings, pendingpri) && Total(pendings) < Total(old(pendings))
      ensures it.Cleared? ==>
                && owed == old(owed)
                && ToCome(done, pendings, pendingpri + 1) == ToCome(done, old(pendings), pendingpri + 1)
      ensures it.Live? ==>
                var c := Call(it.w, it.events, old(owed));
                && InOrder(c) && owed == old(owed) - {it.w}
                && ToCome(done + [c], pendings, pendingpri + 1) == ToCome(done, old(pendings), pendingpri + 1)
    {
      ghost var before, qs := owed, pendings;
      OwedBelow(pendings, owed, all, pendingpri);
      it := Pop(pendingpri);
      TotalUpdated(qs, pendingpri, pendings[pendingpri]);
      PopToCome(done, before, qs, pendingpri, pendings);
    }

    /**
     One round of `ev_invoke_pending`: the last element of the current queue is taken and its
     callback run. `done` are the calls before it, and `was` is what was owed before the first.
     */
    method InvokeNext(script: seq<seq<Action>>, pos: nat, ghost done: seq<Call>, ghost was: map<Watcher, Events>)
      returns (pos': nat, ghost calls: seq<Call>)
      requires Valid() && pendingpri < NUMPRI && pendings[pendingpri] != [] && EmptyAbove(pendings, pendingpri)
      requires Within(script, all)
      requires Tracks(pos, owed, done, script, was)
      modifies this`pendings, this`pendingpri, this`owed, all`pending
      ensures Valid() && pendingpri < NUMPRI && EmptyAbove(pendings, pendingpri)
      ensures pos' == pos || pos' == pos + 1 <= |script|
      ensures pos' == pos ==> pendingpri == old(pendingpri) && Total(pendings) < Total(old(pendings))
      ensures Tracks(pos', owed, calls, script, was)
      ensures Idle(script) ==>
                ToCome(calls, pendings, pendingpri + 1) == ToCome(done, old(pendings), old(pendingpri) + 1)
    {
      ghost var before := owed;
      var it := PopNext(done);
      pos', calls := pos, done;
      if it.Live? {
        ghost var c := Call(it.w, it.events, before);
        calls := done + [c];
        pos' := RunNext(script, pos, done, c, was);
      }
    }

    /** The inner loop of `ev_invoke_pending`: until the current queue is empty. */
    method InvokeLevel(script: seq<seq<Action>>, pos: nat, ghost done: seq<Call>, ghost was: map<Watcher, Events>)
      returns (pos': nat, ghost calls: seq<Call>)
      requires Valid() && pendingpri < NUMPRI && EmptyAbove(pendings, pendingpri)
      requires Within(script, all)
      requires Tracks(pos, owed, done, script, was)
      modifies this`pendings, this`pendingpri, this`owed, all`pending
      ensures Valid() && pendingpri < NUMPRI && EmptyFrom(pendings, pendingpri)
      ensures pos' == pos || pos < pos' <= |script|
      ensures pos' == pos ==> pendingpri == old(pendingpri) && Total(pendings) <= Total(old(pendings))
      ensures Tracks(pos', owed, calls, script, was)
      ensures Idle(script) ==> ToCome(calls, pendings, pendingpri) == ToCome(done, old(pendings), old(pendingpri) + 1)
    {
      pos', calls := pos, done;
      ghost var total := ToCome(done, pendings, pendingpri + 1);
      while pendings[pendingpri] != []
        invariant Valid() && pendingpri < NUMPRI && EmptyAbove(pendings, pendingpri)
        invariant pos' == pos || pos < pos' <= |script|
        invariant pos' == pos ==> pendingpri == old(pendingpri) && Total(pendings) <= Total(old(pendings))
        invariant Tracks(pos', owed, calls, script, was)
        invariant Idle(script) ==> ToCome(calls, pendings, pendingpri + 1) == total
        decreases |script| - pos', Total(pendings)
      {
        pos', calls := InvokeNext(script, pos', calls, was);
      }
      EmptyToCome(calls, pendings, pendingpri);
    }

    /** The next pass of the outer loop: one priority down, and its queue is emptied. */
    method Descend(script: seq<seq<Action>>, pos: nat, ghost done: seq<Call>, ghost was: map<Watcher, Events>)
      returns (pos': nat, ghost calls: seq<Call>)
      requires Valid() && 0 < pendingpri && EmptyFrom(pendings, pendingpri)
      requires Within(script, all)
      requires Tracks(pos, owed, done, script, was)
      modifies this`pendings, this`pendingpri, this`owed, all`pending
      ensures Valid() && pendingpri < NUMPRI && EmptyFrom(pendings, pendingpri)
      ensures pos' == pos || pos < pos' <= |script|
      ensures pos' == pos ==> pendingpri == old(pendingpri) - 1 && Total(pendings) <= Total(old(pendings))
      ensures Tracks(pos', owed, calls, script, was)
      ensures Idle(script) ==> ToCome(calls, pendings, pendingpri) == ToCome(done, old(pendings), old(pendingpri))
    {
      pendingpri := pendingpri - 1;
      pos', calls := InvokeLevel(script, pos, done, was);
    }

    /**
     `ev_invoke_pending` with arbitrary callbacks. Call by call the accounts are those that the
     callbacks before leave behind; every call is for a watcher of the highest priority pending and
     gets everything its watcher is owed; in the end nothing is pending. So nothing owed is lost.
     Callbacks that leave the queues alone run in the order of `DeliveredBelow`.
     */
    method InvokePending(script: seq<seq<Action>>) returns (ghost calls: seq<Call>)
      requires Valid() && Within(script, all)
      modifies this`pendings, this`pendingpri, this`owed, all`pending
      ensures Valid() && owed == map[] && forall p :: 0 <= p < NUMPRI ==> pendings[p] == []
      ensures Traced(calls, script, old(owed)) && Accounts(calls, script, old(owed)) == map[]
      ensures NothingLost(calls, script, old(owed)) && forall c :: c in calls ==> InOrder(c)
      ensures Idle(script) ==> Plain(calls) == DeliveredBelow(old(pendings), NUMPRI)
    {
      pendingpri := NUMPRI;
      calls := [];
      var pos := 0;
      ghost var was, total := owed, ToCome([], pendings, NUMPRI);
      NothingBefore(DeliveredBelow(pendings, NUMPRI));
      while pendingpri > 0
        invariant Valid() && EmptyFrom(pendings, pendingpri)
        invariant Tracks(pos, owed, calls, script, was)
        invariant Idle(script) ==> ToCome(calls, pendings, pendingpri) == total
        decreases |script| - pos, Total(pendings), pendingpri
      {
        pos, calls := Descend(script, pos, calls, was);
      }
      NothingToCome(calls, pendings);
      AllDone(pendings, owed, all, pos, calls, script, was);
    }

    /** The next feed of `FeedReversed`: `was` is what was owed before the first. */
    method FeedBefore(ws: seq<Watcher>, n: nat, revents: Events, ghost was: map<Watcher, Events>)
      requires Valid() && n < |ws| && ws[n] in all && Known(ws) && FedTo(ws[n + 1..], revents, was, owed)
      modifies this`pendings, this`pendingpri, this`owed, all`pending
      ensures Valid() && FedTo(ws[n..], revents, was, owed) && |old(pendings)| == NUMPRI
      ensures Unfed(ws, was) ==> pendings == Put(old(pendings), ws[n], revents)
    {
      FedToOneMore(ws, n, revents, was, owed);
      FeedEvent(ws[n], revents);
    }

    /** Feed `revents` to all of `ws`, from the last to the first. */
    method FeedReversed(ws: seq<Watcher>, revents: Events)
      requires Valid() && forall w :: w in ws ==> w in all
      modifies this`pendings, this`pendingpri, this`owed, all`pending
      ensures Valid() && FedTo(ws, revents, old(owed), owed)
      ensures Known(ws) && |old(pendings)| == NUMPRI
      ensures Unfed(ws, old(owed)) ==> pendings == FedReverse(old(pendings), ws, revents)
    {
      KnownIn(ws, pendings, owed, all);
      var n := |ws|;
      ghost var was, clean, result := owed, Unfed(ws, owed), FedReverse(pendings, ws, revents);
      assert ws[..n] == ws;
      while n > 0
        invariant 0 <= n <= |ws| && Valid() && FedTo(ws[n..], revents, was, owed)
        invariant clean ==> FedReverse(pendings, ws[..n], revents) == result
      {
        n := n - 1;
        assert ws[n] in ws;
        FedReverseLast(pendings, ws, n, revents);
        FeedBefore(ws, n, revents, was);
      }
    }
  }

  // ---------------------------------------------------------------- order of delivery

  /** No element is queued at a priority above `pri`. */
  ghost predicate EmptyAbove(qs: seq<seq<Item>>, pri: nat) {
    forall p :: pri < p < |qs| ==> qs[p] == []
  }

  ghost predicate EmptyFrom(qs: seq<seq<Item>>, pri: nat) {
    forall p :: pri <= p < |qs| ==> qs[p] == []
  }

  /** The callback gets what its watcher is owed, and nothing more urgent is pending. */
  ghost predicate InOrder(c: Call) {
    c.w in c.owed && c.events == c.owed[c.w] && forall u :: u in c.owed ==> u.priority <= c.w.priority
  }

  /** The callbacks act on watchers of `all` only. */
  ghost predicate Within(script: seq<seq<Action>>, all: set<Watcher>) {
    forall actions, a :: actions in script && a in actions ==> a.w in all
  }

  /** The callbacks leave the queues alone. */
  predicate Idle(script: seq<seq<Action>>) {
    forall i :: 0 <= i < |script| ==> script[i] == []
  }

  /** What is owed after one action of a callback. */
  function Acted(owed: map<Watcher, Events>, a: Action): map<Watcher, Events> {
    match a
    case Feed(w, revents) => owed[w := if w in owed then owed[w] + revents else revents]
    case Clear(w) => owed - {w}
  }

  function ActedAll(owed: map<Watcher, Events>, actions: seq<Action>): map<Watcher, Events> {
    if actions == [] then owed else Acted(ActedAll(owed, actions[..|actions| - 1]), actions[|actions| - 1])
  }

  /** What callback number `i` does. */
  function Did(script: seq<seq<Action>>, i: nat): seq<Action> {
    if i < |script| then script[i] else []
  }

  /** What is owed after `calls`: each callback takes its watcher's account away and then acts. */
  ghost function Accounts(calls: seq<Call>, script: seq<seq<Action>>, was: map<Watcher, Events>): map<Watcher, Events> {
    if calls == [] then was
    else
      var n := |calls| - 1;
      ActedAll(Accounts(calls[..n], script, was) - {calls[n].w}, Did(script, n))
  }

  /** Each call found what the calls before it left, and is in order. */
  ghost predicate Traced(calls: seq<Call>, script: seq<seq<Action>>, was: map<Watcher, Events>) {
    calls == [] ||
    (var n := |calls| - 1;
     Traced(calls[..n], script, was) && calls[n].owed == Accounts(calls[..n], script, was) && InOrder(calls[n]))
  }

  /** `owed` is what `calls` left, and their callbacks have used up `pos` entries of the script. */
  ghost predicate Tracks(pos: nat, owed: map<Watcher, Events>, calls: seq<Call>, script: seq<seq<Action>>,
                         was: map<Watcher, Events>) {
    && pos == (if |calls| < |script| then |calls| else |script|)
    && Traced(calls, script, was) && owed == Accounts(calls, script, was)
  }

  lemma TracedOneMore(done: seq<Call>, c: Call, script: seq<seq<Action>>, was: map<Watcher, Events>)
    requires Traced(done, script, was) && InOrder(c) && c.owed == Accounts(done, script, was)
    ensures Traced(done + [c], script, was)
    ensures Accounts(done + [c], script, was) == ActedAll(c.owed - {c.w}, Did(script, |done|))
  {
    assert (done + [c])[..|done|] == done;
  }

  /** A call from number `lo` on gives `w` at least `events`. */
  ghost predicate CalledFrom(calls: seq<Call>, lo: nat, w: Watcher, events: Events) {
    exists j :: lo <= j < |calls| && calls[j].w == w && events <= calls[j].events
  }

  /** A callback from number `lo` on clears the pending events of `w`. */
  ghost predicate ClearedFrom(calls: seq<Call>, script: seq<seq<Action>>, lo: nat, w: Watcher) {
    exists j :: lo <= j < |calls| && j < |script| && Clear(w) in script[j]
  }

  /**
   Everything owed at the beginning, and everything a callback feeds, is given to its watcher by a
   later call, or a callback clears it.
   */
  ghost predicate NothingLost(calls: seq<Call>, script: seq<seq<Action>>, was: map<Watcher, Events>) {
    && (forall w :: w in was ==> CalledFrom(calls, 0, w, was[w]) || ClearedFrom(calls, script, 0, w))
    && forall i, a :: 0 <= i < |calls| && i < |script| && a in script[i] && a.Feed? ==>
         CalledFrom(calls, i + 1, a.w, a.revents) || ClearedFrom(calls, script, i, a.w)
  }

  lemma {:induction false} AccountGrows(owed: map<Watcher, Events>, actions: seq<Action>, w: Watcher)
    requires w in owed && Clear(w) !in actions
    ensures w in ActedAll(owed, actions) && owed[w] <= ActedAll(owed, actions)[w]
  {
    if actions != [] {
      AccountGrows(owed, actions[..|actions| - 1], w);
    }
  }

  lemma {:induction false} FeedIsOwed(owed: map<Watcher, Events>, actions: seq<Action>, w: Watcher, e: Events)
    requires Feed(w, e) in actions && Clear(w) !in actions
    ensures w in ActedAll(owed, actions) && e <= ActedAll(owed, actions)[w]
  {
    var n := |actions| - 1;
    if actions[n] != Feed(w, e) {
      assert Feed(w, e) in actions[..n];
      FeedIsOwed(owed, actions[..n], w, e);
    }
  }

  ghost predicate StillOwed(owed: map<Watcher, Events>, w: Watcher, e: Events) { w in owed && e <= owed[w] }

  lemma OneMoreCall(calls: seq<Call>, script: seq<seq<Action>>, k: nat, w: Watcher, e: Events)
    requires calls != []
             && (CalledFrom(calls[..|calls| - 1], k, w, e) || ClearedFrom(calls[..|calls| - 1], script, k, w))
    ensures CalledFrom(calls, k, w, e) || ClearedFrom(calls, script, k, w)
  {
    var front := calls[..|calls| - 1];
    if CalledFrom(front, k, w, e) {
      var j :| k <= j < |front| && front[j].w == w && e <= front[j].events;
      assert calls[j].w == w;
    }
  }

  /** The last call gives out what its watcher is owed, and its callback may clear what others are. */
  lemma LastCallKeeps(calls: seq<Call>, script: seq<seq<Action>>, was: map<Watcher, Events>, k: nat, w: Watcher,
                      e: Events)
    requires calls != [] && Traced(calls, script, was) && k < |calls|
    requires StillOwed(Accounts(calls[..|calls| - 1], script, was), w, e)
    ensures CalledFrom(calls, k, w, e) || ClearedFrom(calls, script, k, w)
            || StillOwed(Accounts(calls, script, was), w, e)
  {
    var n := |calls| - 1;
    if calls[n].w != w && Clear(w) !in Did(script, n) {
      AccountGrows(calls[n].owed - {calls[n].w}, Did(script, n), w);
    }
  }

  /** What is owed after the first `k` calls is given out later, cleared later, or still owed. */
  lemma {:induction false} OwedIsKept(calls: seq<Call>, script: seq<seq<Action>>, was: map<Watcher, Events>, k: nat,
                                      w: Watcher, e: Events)
    requires k <= |calls| && Traced(calls, script, was) && StillOwed(Accounts(calls[..k], script, was), w, e)
    ensures CalledFrom(calls, k, w, e) || ClearedFrom(calls, script, k, w)
            || StillOwed(Accounts(calls, script, was), w, e)
  {
    if k == |calls| {
      assert calls[..k] == calls;
    } else {
      var front := calls[..|calls| - 1];
      assert front[..k] == calls[..k];
      OwedIsKept(front, script, was, k, w, e);
      if StillOwed(Accounts(front, script, was), w, e) {
        LastCallKeeps(calls, script, was, k, w, e);
      } else {
        OneMoreCall(calls, script, k, w, e);
      }
    }
  }

  lemma {:induction false} AllInOrder(calls: seq<Call>, script: seq<seq<Action>>, was: map<Watcher, Events>)
    requires Traced(calls, script, was)
    ensures forall c :: c in calls ==> InOrder(c)
  {
    if calls != [] {
      AllInOrder(calls[..|calls| - 1], script, was);
    }
  }

  lemma NoEventLost(calls: seq<Call>, script: seq<seq<Action>>, was: map<Watcher, Events>)
    requires Traced(calls, script, was) && Accounts(calls, script, was) == map[]
    ensures NothingLost(calls, script, was) && forall c :: c in calls ==> InOrder(c)
  {
    AllInOrder(calls, script, was);
    forall w | w in was ensures CalledFrom(calls, 0, w, was[w]) || ClearedFrom(calls, script, 0, w) {
      OwedIsKept(calls, script, was, 0, w, was[w]);
    }
    forall i, a | 0 <= i < |calls| && i < |script| && a in script[i] && a.Feed?
      ensures CalledFrom(calls, i + 1, a.w, a.revents) || ClearedFrom(calls, script, i, a.w)
    {
      FedIsNotLost(calls, script, was, i, a.w, a.revents);
    }
  }

  /** What callback number `i` feeds and does not clear again is owed after it. */
  lemma FedIsOwed(calls: seq<Call>, script: seq<seq<Action>>, was: map<Watcher, Events>, i: nat, w: Watcher, e: Events)
    requires i < |calls| && Feed(w, e) in Did(script, i) && Clear(w) !in Did(script, i)
    ensures StillOwed(Accounts(calls[..i + 1], script, was), w, e)
  {
    assert calls[..i + 1][..i] == calls[..i];
    FeedIsOwed(Accounts(calls[..i], script, was) - {calls[i].w}, Did(script, i), w, e);
  }

  /** What callback number `i` feeds is given out by a later call, unless a callback clears it. */
  lemma FedIsNotLost(calls: seq<Call>, script: seq<seq<Action>>, was: map<Watcher, Events>, i: nat, w: Watcher,
                     e: Events)
    requires Traced(calls, script, was) && Accounts(calls, script, was) == map[]
    requires i < |calls| && i < |script| && Feed(w, e) in script[i]
    ensures CalledFrom(calls, i + 1, w, e) || ClearedFrom(calls, script, i, w)
  {
    if Clear(w) !in Did(script, i) {
      FedIsOwed(calls, script, was, i, w, e);
      OwedIsKept(calls, script, was, i + 1, w, e);
    }
  }

  lemma OwedBelow(qs: seq<seq<Item>>, owed: map<Watcher, Events>, all: set<Watcher>, pri: nat)
    requires QueuesOk(qs, owed, all) && EmptyAbove(qs, pri)
    ensures forall u :: u in owed ==> u.priority <= pri
  {
    forall u | u in owed ensures u.priority <= pri {
      assert WatcherOk(u, qs, owed);
    }
  }

  lemma NothingOwed(qs: seq<seq<Item>>, owed: map<Watcher, Events>, all: set<Watcher>)
    requires QueuesOk(qs, owed, all) && EmptyFrom(qs, 0)
    ensures owed == map[]
  {
    forall u | u in all ensures u !in owed {
      assert WatcherOk(u, qs, owed);
    }
  }

  /** With all queues empty every account is closed, and nothing was lost on the way. */
  lemma AllDone(qs: seq<seq<Item>>, owed: map<Watcher, Events>, all: set<Watcher>,
                pos: nat, calls: seq<Call>, script: seq<seq<Action>>, was: map<Watcher, Events>)
    requires QueuesOk(qs, owed, all) && EmptyFrom(qs, 0) && Tracks(pos, owed, calls, script, was)
    ensures owed == map[] && Traced(calls, script, was) && Accounts(calls, script, was) == map[]
    ensures NothingLost(calls, script, was) && forall c :: c in calls ==> InOrder(c)
  {
    NothingOwed(qs, owed, all);
    NoEventLost(calls, script, was);
  }

  function Delivered(it: Item): seq<(Watcher, Events)> {
    match it
    case Live(w, e) => [(w, e)]
    case Cleared(_) => []
  }

  /** A queue is emptied from its end. */
  function DeliveredFrom(q: seq<Item>): seq<(Watcher, Events)> {
    if q == [] then [] else Delivered(q[|q| - 1]) + DeliveredFrom(q[..|q| - 1])
  }

  /** The queues below `pri` are emptied from the highest down. */
  function DeliveredBelow(qs: seq<seq<Item>>, pri: nat): seq<(Watcher, Events)>
    requires pri <= |qs|
  {
    if pri == 0 then [] else DeliveredFrom(qs[pri - 1]) + DeliveredBelow(qs, pri - 1)
  }

  lemma NothingBefore<T>(s: seq<T>)
    ensures [] + s == s
  {
  }

  ghost function Plain(calls: seq<Call>): seq<(Watcher, Events)> {
    seq(|calls|, i requires 0 <= i < |calls| => (calls[i].w, calls[i].events))
  }

  /** The calls so far, and what is left to deliver below priority `pri` if callbacks leave the queues alone. */
  ghost function ToCome(calls: seq<Call>, qs: seq<seq<Item>>, pri: nat): seq<(Watcher, Events)>
    requires pri <= |qs|
  {
    Plain(calls) + DeliveredBelow(qs, pri)
  }

  lemma EmptyToCome(calls: seq<Call>, qs: seq<seq<Item>>, pri: nat)
    requires pri < |qs| && qs[pri] == []
    ensures ToCome(calls, qs, pri + 1) == ToCome(calls, qs, pri)
  {
    NothingBefore(DeliveredBelow(qs, pri));
  }

  lemma NothingToCome(calls: seq<Call>, qs: seq<seq<Item>>)
    ensures ToCome(calls, qs, 0) == Plain(calls)
  {
    assert DeliveredBelow(qs, 0) == [];
  }

  /** Taking an element changes nothing of what is to come, with the call it leads to. */
  lemma PopToCome(done: seq<Call>, owed: map<Watcher, Events>, qs: seq<seq<Item>>, pri: nat, rs: seq<seq<Item>>)
    requires pri < |qs| && qs[pri] != [] && rs == qs[pri := qs[pri][..|qs[pri]| - 1]]
    ensures match qs[pri][|qs[pri]| - 1]
            case Live(w, e) => ToCome(done + [Call(w, e, owed)], rs, pri + 1) == ToCome(done, qs, pri + 1)
            case Cleared(_) => ToCome(done, rs, pri + 1) == ToCome(done, qs, pri + 1)
  {
    DeliveredPops(qs, pri, rs);
    match qs[pri][|qs[pri]| - 1]
    case Live(w, e) =>
      assert Plain(done + [Call(w, e, owed)]) == Plain(done) + [(w, e)];
      Reassociate(Plain(done), [(w, e)], DeliveredBelow(rs, pri + 1));
    case Cleared(_) =>
      NothingBefore(DeliveredBelow(rs, pri + 1));
  }

  lemma {:induction false} DeliveredBelowSame(qs: seq<seq<Item>>, rs: seq<seq<Item>>, pri: nat)
    requires pri <= |qs| == |rs| && forall p :: 0 <= p < pri ==> qs[p] == rs[p]
    ensures DeliveredBelow(qs, pri) == DeliveredBelow(rs, pri)
  {
    if pri > 0 {
      DeliveredBelowSame(qs, rs, pri - 1);
    }
  }

  lemma DeliveredPops(qs: seq<seq<Item>>, pri: nat, rs: seq<seq<Item>>)
    requires pri < |qs| && qs[pri] != [] && rs == qs[pri := qs[pri][..|qs[pri]| - 1]]
    ensures DeliveredBelow(qs, pri + 1) == Delivered(qs[pri][|qs[pri]| - 1]) + DeliveredBelow(rs, pri + 1)
  {
    DeliveredBelowSame(qs, rs, pri);
  }

  ghost predicate SameLengths(qs: seq<seq<Item>>, rs: seq<seq<Item>>) {
    |qs| == |rs| && forall p :: 0 <= p < |qs| ==> |qs[p]| == |rs[p]|
  }

  /** Number of elements in all queues. */
  function Total(qs: seq<seq<Item>>): nat {
    if qs == [] then 0 else Total(qs[..|qs| - 1]) + |qs[|qs| - 1]|
  }

  lemma {:induction false} TotalUpdated(qs: seq<seq<Item>>, pri: nat, q: seq<Item>)
    requires pri < |qs|
    ensures Total(qs[pri := q]) == Total(qs) - |qs[pri]| + |q|
  {
    var n := |qs| - 1;
    if pri < n {
      TotalUpdated(qs[..n], pri, q);
      assert qs[pri := q][..n] == qs[..n][pri := q];
    } else {
      assert qs[pri := q][..n] == qs[..n];
    }
  }

  // ---------------------------------------------------------------- feeding in reverse

  ghost predicate Known(ws: seq<Watcher>) {
    forall w :: w in ws ==> w.priority < NUMPRI
  }

  /** No watcher occurs twice or is pending. */
  ghost predicate Unfed(ws: seq<Watcher>, owed: map<Watcher, Events>) {
    && (forall i, j :: 0 <= i < j < |ws| ==> ws[i] != ws[j])
    && forall w :: w in ws ==> w !in owed
  }

  ghost function Put(qs: seq<seq<Item>>, w: Watcher, ev: Events): (r: seq<seq<Item>>)
    requires |qs| == NUMPRI && w.priority < NUMPRI
    ensures |r| == NUMPRI
  {
    qs[w.priority := qs[w.priority] + [Live(w, ev)]]
  }

  /** The queues after feeding `ws` from its end to its beginning. */
  ghost function FedReverse(qs: seq<seq<Item>>, ws: seq<Watcher>, ev: Events): (r: seq<seq<Item>>)
    requires |qs| == NUMPRI && Known(ws)
    ensures |r| == NUMPRI
    decreases |ws|
  {
    if ws == [] then qs else FedReverse(Put(qs, ws[|ws| - 1], ev), ws[..|ws| - 1], ev)
  }

  /** The watchers of priority `p`, in order. */
  ghost function OfPriority(ws: seq<Watcher>, p: nat, ev: Events): seq<(Watcher, Events)> {
    if ws == [] then []
    else OfPriority(ws[..|ws| - 1], p, ev) + if ws[|ws| - 1].priority == p then [(ws[|ws| - 1], ev)] else []
  }

  lemma FedReverseLast(qs: seq<seq<Item>>, ws: seq<Watcher>, n: nat, ev: Events)
    requires |qs| == NUMPRI && Known(ws) && n < |ws|
    ensures FedReverse(qs, ws[..n + 1], ev) == FedReverse(Put(qs, ws[n], ev), ws[..n], ev)
  {
    assert ws[..n + 1][..n] == ws[..n];
  }

  lemma KnownIn(ws: seq<Watcher>, qs: seq<seq<Item>>, owed: map<Watcher, Events>, all: set<Watcher>)
    requires QueuesOk(qs, owed, all) && forall w :: w in ws ==> w in all
    ensures Known(ws)
  {
    forall w | w in ws ensures w.priority < NUMPRI {
      assert WatcherOk(w, qs, owed);
    }
  }

  lemma FedToOneMore(ws: seq<Watcher>, n: nat, ev: Events, was: map<Watcher, Events>, owed: map<Watcher, Events>)
    requires n < |ws| && FedTo(ws[n + 1..], ev, was, owed)
    ensures Unfed(ws, was) ==> ws[n] !in owed
    ensures FedTo(ws[n..], ev, was, owed[ws[n] := (if ws[n] in owed then owed[ws[n]] else {}) + ev])
  {
    assert ws[n..] == [ws[n]] + ws[n + 1..];
  }

  lemma PutDelivers(qs: seq<seq<Item>>, w: Watcher, ev: Events, p: nat)
    requires |qs| == NUMPRI && w.priority < NUMPRI && p < NUMPRI
    ensures DeliveredFrom(Put(qs, w, ev)[p]) == (if w.priority == p then [(w, ev)] else []) + DeliveredFrom(qs[p])
  {
    if w.priority == p {
      var q := qs[p] + [Live(w, ev)];
      assert Put(qs, w, ev)[p] == q && q[..|q| - 1] == qs[p];
    }
  }

  /**
   Two reversals cancel: what was fed from the end of `ws` is delivered, at each priority, in the
   order of `ws`, before everything that was already queued there.
   */
  lemma {:induction false} FedReverseDelivers(qs: seq<seq<Item>>, ws: seq<Watcher>, ev: Events, p: nat)
    requires |qs| == NUMPRI && Known(ws) && p < NUMPRI
    ensures DeliveredFrom(FedReverse(qs, ws, ev)[p]) == OfPriority(ws, p, ev) + DeliveredFrom(qs[p])
    decreases |ws|
  {
    if ws != [] {
      var w, front := ws[|ws| - 1], ws[..|ws| - 1];
      FedReverseDelivers(Put(qs, w, ev), front, ev, p);
      PutDelivers(qs, w, ev, p);
      Reassociate(OfPriority(front, p, ev), if w.priority == p then [(w, ev)] else [], DeliveredFrom(qs[p]));
    }
  }

  lemma Reassociate<T>(a: seq<T>, b: seq<T>, c: seq<T>)
    ensures a + (b + c) == (a + b) + c
  {
  }

  /** Everyone in `ws` is now owed `ev` as well, nobody else's account changed. */
  ghost predicate FedTo(ws: seq<Watcher>, ev: Events, was: map<Watcher, Events>, owed: map<Watcher, Events>) {
    && (forall w :: w in ws ==> w in owed && owed[w] == (if w in was then was[w] else {}) + ev)
    && (forall u :: u in was && u !in ws ==> u in owed && owed[u] == was[u])
    && (forall u :: u in owed && u !in ws ==> u in was)
  }
}
