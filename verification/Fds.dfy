/**
 libev's file-descriptor reconciliation: starting and stopping io watchers only notes which
 descriptors changed; `fd_reify` then brings the poll backend, with its swap-removal index, in line
 with the watchers.
 */
module Fds {
  import opened Ev
  import P = Pending

  /** Bits of a watcher's event mask; masks are sets of bits. */
  datatype Flag = Read | Write
  type Mask = set<Flag>

  /** Bits of `ANFD.reify`: EV_ANFD_REIFY and EV__IOFDSET. */
  datatype ReifyFlag = Reify | IoFdSet

  datatype PollFlag = PollIn | PollOut

  /** An io watcher; `fdset` is the EV__IOFDSET bit of its event mask, `base` its pending state. */
  class Io {
    const base: Watcher
    const fd: nat
    const events: Mask
    var fdset: bool
    var active: bool

    constructor (base: Watcher, fd: nat, events: Mask)
      ensures this.base == base && this.fd == fd && this.events == events && fdset && !active
    {
      this.base, this.fd, this.events, fdset, active := base, fd, events, true, false;
    }
  }

  datatype Anfd = Anfd(head: seq<Io>, events: Mask, reify: set<ReifyFlag>)

  datatype PollFd = PollFd(fd: nat, events: set<PollFlag>)

  // ---------------------------------------------------------------- the poll backend

  function PollMask(m: Mask): set<PollFlag> {
    (if Read in m then {PollIn} else {}) + (if Write in m then {PollOut} else {})
  }

  /** Index of `fd` in the poll array, -1 if it is not there. */
  function Idx(idxs: seq<int>, fd: nat): int {
    if fd < |idxs| then idxs[fd] else -1
  }

  /** `polls[i]` and `idxs` point at each other. */
  ghost predicate SlotOk(polls: seq<PollFd>, idxs: seq<int>, i: nat)
    requires i < |polls|
  {
    Idx(idxs, polls[i].fd) == i
  }

  /** The poll array holds `fd` with its mask `m`, or not at all if the mask is empty. */
  ghost predicate Polled(polls: seq<PollFd>, idxs: seq<int>, fd: nat, m: Mask) {
    var i := Idx(idxs, fd);
    if m == {} then i == -1
    else
      && 0 <= i < |polls| && polls[i].fd == fd
      && (PollIn in polls[i].events <==> Read in m) && (PollOut in polls[i].events <==> Write in m)
  }

  /** The poll array registers mask `ev[fd]` for each descriptor, and nothing else. */
  ghost predicate PollOk(ev: seq<Mask>, polls: seq<PollFd>, idxs: seq<int>) {
    && (forall i :: 0 <= i < |polls| ==> polls[i].fd < |ev| && SlotOk(polls, idxs, i))
    && (forall fd :: 0 <= fd < |ev| ==> Polled(polls, idxs, fd, ev[fd]))
    && (forall fd :: |ev| <= fd < |idxs| ==> idxs[fd] == -1)
  }

  class FdTable {
    var anfds: seq<Anfd>
    var fdchanges: seq<nat>
    var polls: seq<PollFd>
    var pollidxs: seq<int>
    const pq: P.PendingQueues
    ghost const all: set<Io>

    constructor (pq: P.PendingQueues, ghost all: set<Io>)
      requires forall w :: w in all ==> !w.active
      ensures Valid() && this.pq == pq && this.all == all && anfds == [] && fdchanges == []
    {
      this.pq := pq;
      anfds, fdchanges, polls, pollidxs := [], [], [], [];
      this.all := all;
    }

    /** Change list, settled masks and poll array agree. */
    ghost predicate BooksOk()
      reads this
    {
      ChangesOk(anfds, fdchanges) && SettledOk(anfds) && PollOk(Masks(anfds), polls, pollidxs)
    }

    ghost predicate Valid()
      reads this, all`active
    {
      ListsOk(anfds, all) && BooksOk()
    }

    ghost function HeadOf(fd: nat): seq<Io>
      reads this`anfds
    {
      if fd < |anfds| then anfds[fd].head else []
    }

    ghost function MarksOf(fd: nat): set<ReifyFlag>
      reads this`anfds
    {
      if fd < |anfds| then anfds[fd].reify else {}
    }

    // -------------------------------------------------------------- noting changes

    /** `fd_change`: something about `fd` changed. */
    method FdChange(fd: nat, flags: set<ReifyFlag>)
      requires ChangesOk(anfds, fdchanges) && fd < |anfds| && flags != {}
      modifies this`anfds, this`fdchanges
      ensures anfds == old(anfds)[fd := old(anfds)[fd].(reify := old(anfds)[fd].reify + flags)]
      ensures ChangesOk(anfds, fdchanges)
      ensures fdchanges == if old(anfds)[fd].reify == {} then old(fdchanges) + [fd] else old(fdchanges)
    {
      var reify := anfds[fd].reify;
      anfds := anfds[fd := anfds[fd].(reify := reify + flags)];
      if reify == {} {
        fdchanges := fdchanges + [fd];
      }
    }

    /** `array_needsize` with zero initialisation. */
    method NeedAnfds(cnt: nat)
      requires Valid()
      modifies this`anfds
      ensures Valid() && |anfds| >= cnt && old(anfds) <= anfds
      ensures forall fd: nat :: HeadOf(fd) == old(HeadOf(fd)) && MarksOf(fd) == old(MarksOf(fd))
    {
      if cnt > |anfds| {
        ghost var was := anfds;
        anfds := anfds + seq(cnt - |anfds|, _ => Anfd([], {}, {}));
        MorePolled(Masks(was), Masks(anfds), polls, pollidxs);
      }
    }

    /** Give a descriptor a new watcher list and note the change. */
    method Relist(fd: nat, head: seq<Io>, flags: set<ReifyFlag>)
      requires BooksOk() && fd < |anfds| && flags != {}
      modifies this`anfds, this`fdchanges
      ensures BooksOk() && fd in fdchanges && |anfds| == |old(anfds)|
      ensures anfds[fd].head == head && anfds[fd].reify == old(anfds)[fd].reify + flags
      ensures forall j :: 0 <= j < |anfds| && j != fd ==> anfds[j] == old(anfds)[j]
    {
      ghost var was := anfds;
      anfds := anfds[fd := anfds[fd].(head := head)];
      FdChange(fd, flags);
      assert Masks(anfds) == Masks(was);
    }

    /** `ev_io_start`: a watcher that is not active joins the list of its descriptor. */
    method IoStart(w: Io)
      requires Valid() && w in all
      modifies this`anfds, this`fdchanges, w`active, w`fdset
      ensures Valid() && w.active
      ensures !old(w.active) ==>
                && w.fd in fdchanges && !w.fdset && HeadOf(w.fd) == [w] + old(HeadOf(w.fd))
                && MarksOf(w.fd) == old(MarksOf(w.fd)) + {Reify} + (if old(w.fdset) then {IoFdSet} else {})
      ensures forall fd: nat :: fd != w.fd ==> HeadOf(fd) == old(HeadOf(fd)) && MarksOf(fd) == old(MarksOf(fd))
      ensures old(w.active) ==> anfds == old(anfds) && fdchanges == old(fdchanges)
    {
      if w.active {
        return;
      }
      NeedAnfds(w.fd + 1);
      var fd := w.fd;
      ghost var lists := anfds;
      w.active := true;
      assert AllListedBut(lists, all, w);
      Relist(fd, [w] + anfds[fd].head, (if w.fdset then {IoFdSet} else {}) + {Reify});
      w.fdset := false;
      Joined(lists, anfds, all, w);
    }

    /** `wlist_del`. */
    method WlistDel(head: seq<Io>, elem: Io) returns (rest: seq<Io>)
      requires forall i, j :: 0 <= i < j < |head| ==> head[i] != head[j]
      ensures forall w :: w in rest <==> w in head && w != elem
      ensures forall i, j :: 0 <= i < j < |rest| ==> rest[i] != rest[j]
      ensures if elem in head then exists i :: 0 <= i < |head| && head[i] == elem && rest == head[..i] + head[i + 1..]
              else rest == head
    {
      var i := 0;
      while i < |head|
        invariant 0 <= i <= |head| && elem !in head[..i]
      {
        if head[i] == elem {
          rest := head[..i] + head[i + 1..];
          return;
        }
        i := i + 1;
      }
      rest := head;
    }

    /** `ev_io_stop`: pending events are cleared, and an active watcher leaves the list of its descriptor. */
    method IoStop(w: Io)
      requires Valid() && w in all && pq.Valid() && w.base in pq.all
      modifies this`anfds, this`fdchanges, w`active, pq`pendings, pq`owed, w.base`pending
      ensures Valid() && !w.active && pq.Valid() && pq.owed == old(pq.owed) - {w.base}
      ensures old(w.active) ==> w.fd in fdchanges && MarksOf(w.fd) == old(MarksOf(w.fd)) + {Reify}
      ensures old(w.active) ==> forall u :: u in HeadOf(w.fd) <==> u in old(HeadOf(w.fd)) && u != w
      ensures forall fd: nat :: fd != w.fd ==> HeadOf(fd) == old(HeadOf(fd)) && MarksOf(fd) == old(MarksOf(fd))
      ensures !old(w.active) ==> anfds == old(anfds) && fdchanges == old(fdchanges)
    {
      var _ := pq.ClearPending(w.base);
      if w.active {
        Unlist(w);
      }
    }

    /** Take an active watcher out of the list of its descriptor. */
    method Unlist(w: Io)
      requires Valid() && w in all && w.active
      modifies this`anfds, this`fdchanges, w`active
      ensures Valid() && !w.active && w.fd in fdchanges && MarksOf(w.fd) == old(MarksOf(w.fd)) + {Reify}
      ensures forall u :: u in HeadOf(w.fd) <==> u in old(HeadOf(w.fd)) && u != w
      ensures forall fd: nat :: fd != w.fd ==> HeadOf(fd) == old(HeadOf(fd)) && MarksOf(fd) == old(MarksOf(fd))
    {
      var fd := w.fd;
      assert ListOk(anfds[fd].head, fd, all);
      var rest := WlistDel(anfds[fd].head, w);
      w.active := false;
      Relist(fd, rest, {Reify});
    }

    // -------------------------------------------------------------- reification

    /** The OR of the masks of a list of watchers. */
    method CollectEvents(head: seq<Io>) returns (events: Mask)
      ensures events == Union(head)
    {
      events := {};
      var i := 0;
      while i < |head|
        invariant 0 <= i <= |head| && events == Union(head[..i])
      {
        assert head[..i + 1][..i] == head[..i];
        events := events + head[i].events;
        i := i + 1;
      }
      assert head[..i] == head;
    }

    /** One iteration of `fd_reify`. */
    method ReifyFd(fd: nat)
      requires fd < |anfds| && PollOk(Masks(anfds), polls, pollidxs)
      modifies this`anfds, this`polls, this`pollidxs
      ensures anfds == old(anfds)[fd := Anfd(old(anfds)[fd].head, Union(old(anfds)[fd].head), {})]
      ensures PollOk(Masks(anfds), polls, pollidxs)
    {
      var anfd := anfds[fd];
      ghost var ev := Masks(anfds);
      var events := CollectEvents(anfd.head);
      var reify := if anfd.events != events then {IoFdSet} else anfd.reify;
      anfds := anfds[fd := Anfd(anfd.head, events, {})];
      assert Masks(anfds) == ev[fd := events];
      if IoFdSet in reify {
        PollModify(fd, anfd.events, events, ev);
      } else {
        assert ev[fd := events] == ev;
      }
    }

    /** `fd_reify`: afterwards nothing is marked and the poll array is what the watchers want. */
    method FdReify()
      requires Valid()
      modifies this
      ensures Valid() && fdchanges == [] && Reconciled(all, polls)
    {
      var i := 0;
      while i < |fdchanges|
        invariant 0 <= i <= |fdchanges| && fdchanges == old(fdchanges)
        invariant ListsOk(anfds, all) && SettledOk(anfds) && PollOk(Masks(anfds), polls, pollidxs)
        invariant ChangesOk(anfds, fdchanges[i..])
      {
        var fd := fdchanges[i];
        ChangeDone(anfds, fdchanges, i);
        ReifyFd(fd);
        forall j | 0 <= j < |anfds| ensures ListOk(anfds[j].head, j, all) { }
        i := i + 1;
      }
      fdchanges := [];
      SettledIsReconciled(anfds, all, polls, pollidxs);
    }

    // -------------------------------------------------------------- the backend

    /** `poll_modify`: register the mask `nev` for `fd`, which had `oev`. */
    method PollModify(fd: nat, oev: Mask, nev: Mask, ghost ev: seq<Mask>)
      requires PollOk(ev, polls, pollidxs) && fd < |ev| && ev[fd] == oev
      modifies this`polls, this`pollidxs
      ensures PollOk(ev[fd := nev], polls, pollidxs)
    {
      if oev == nev {
        assert ev[fd := nev] == ev;
        return;
      }
      if fd + 1 > |pollidxs| {
        pollidxs := pollidxs + seq(fd + 1 - |pollidxs|, _ => -1);
      }
      var idx := pollidxs[fd];
      if idx < 0 {
        idx := |polls|;
        pollidxs := pollidxs[fd := idx];
        polls := polls + [PollFd(fd, {})];
      }
      assert polls[idx].fd == fd;
      if nev != {} {
        polls := polls[idx := PollFd(fd, PollMask(nev))];
      } else {
        RemovePoll(fd, idx, ev);
      }
    }

    /** Remove element `idx` by moving the last element into its place. */
    method RemovePoll(fd: nat, idx: nat, ghost ev: seq<Mask>)
      requires PollOk(ev, polls, pollidxs) && fd < |ev| && idx < |polls| && polls[idx].fd == fd < |pollidxs|
      modifies this`polls, this`pollidxs
      ensures PollOk(ev[fd := {}], polls, pollidxs)
    {
      assert SlotOk(polls, pollidxs, idx);
      var last := polls[|polls| - 1];
      assert SlotOk(polls, pollidxs, |polls| - 1);
      pollidxs := pollidxs[fd := -1];
      polls := polls[..|polls| - 1];
      if idx < |polls| {
        polls := polls[idx := last];
        pollidxs := pollidxs[last.fd := idx];
      }
    }
  }

  // ---------------------------------------------------------------- what the kernel is asked for

  ghost predicate Wants(all: set<Io>, fd: nat, f: Flag)
    reads all`active
  {
    exists w :: w in all && w.active && w.fd == fd && f in w.events
  }

  /** What the active watchers of `fd` want, whatever lists they are in. */
  ghost function Wanted(all: set<Io>, fd: nat): Mask
    reads all`active
  {
    set f: Flag | Wants(all, fd, f)
  }

  lemma {:induction false} UnionHas(ws: seq<Io>, f: Flag)
    ensures f in Union(ws) <==> exists w :: w in ws && f in w.events
  {
    if ws != [] {
      UnionHas(ws[..|ws| - 1], f);
      assert ws == ws[..|ws| - 1] + [ws[|ws| - 1]];
    }
  }

  lemma UnionIsWanted(anfds: seq<Anfd>, all: set<Io>, fd: nat)
    requires ListsOk(anfds, all)
    ensures fd < |anfds| ==> Union(anfds[fd].head) == Wanted(all, fd)
    ensures fd >= |anfds| ==> Wanted(all, fd) == {}
  {
    if fd < |anfds| {
      assert ListOk(anfds[fd].head, fd, all);
      forall f: Flag ensures f in Union(anfds[fd].head) <==> f in Wanted(all, fd) {
        UnionHas(anfds[fd].head, f);
      }
    }
  }

  /** A poll entry asks for what some active watcher of its descriptor wants, and for nothing else. */
  ghost predicate AsksFor(all: set<Io>, p: PollFd)
    reads all`active
  {
    && p.events != {}
    && (PollIn in p.events <==> exists w :: w in all && w.active && w.fd == p.fd && Read in w.events)
    && (PollOut in p.events <==> exists w :: w in all && w.active && w.fd == p.fd && Write in w.events)
  }

  /** The poll array asks for what the active watchers want, each descriptor once. */
  ghost predicate Reconciled(all: set<Io>, polls: seq<PollFd>)
    reads all`active
  {
    && (forall i :: 0 <= i < |polls| ==> AsksFor(all, polls[i]))
    && (forall w :: w in all && w.active && w.events != {} ==> exists i :: 0 <= i < |polls| && polls[i].fd == w.fd)
    && (forall i, j :: 0 <= i < j < |polls| ==> polls[i].fd != polls[j].fd)
  }

  lemma WantedAsks(all: set<Io>, p: PollFd)
    requires Wanted(all, p.fd) != {}
    requires PollIn in p.events <==> Read in Wanted(all, p.fd)
    requires PollOut in p.events <==> Write in Wanted(all, p.fd)
    ensures AsksFor(all, p)
  {
    assert Wants(all, p.fd, Read) <==> Read in Wanted(all, p.fd);
    assert Wants(all, p.fd, Write) <==> Write in Wanted(all, p.fd);
    var f :| f in Wanted(all, p.fd);
    assert f == Read || f == Write;
  }

  lemma ActiveIsWanted(all: set<Io>, w: Io)
    requires w in all && w.active && w.events != {}
    ensures Wanted(all, w.fd) != {}
  {
    var f :| f in w.events;
    assert Wants(all, w.fd, f) && f in Wanted(all, w.fd);
  }

  lemma SettledIsReconciled(anfds: seq<Anfd>, all: set<Io>, polls: seq<PollFd>, idxs: seq<int>)
    requires ListsOk(anfds, all) && SettledOk(anfds) && PollOk(Masks(anfds), polls, idxs)
    requires forall fd :: 0 <= fd < |anfds| ==> anfds[fd].reify == {}
    ensures Reconciled(all, polls)
  {
    forall i | 0 <= i < |polls| ensures AsksFor(all, polls[i]) {
      var fd := polls[i].fd;
      assert SlotOk(polls, idxs, i) && Polled(polls, idxs, fd, Masks(anfds)[fd]);
      UnionIsWanted(anfds, all, fd);
      WantedAsks(all, polls[i]);
    }
    forall w | w in all && w.active && w.events != {} ensures exists i :: 0 <= i < |polls| && polls[i].fd == w.fd {
      ActiveIsWanted(all, w);
      UnionIsWanted(anfds, all, w.fd);
      assert Polled(polls, idxs, w.fd, Masks(anfds)[w.fd]);
      assert polls[Idx(idxs, w.fd)].fd == w.fd;
    }
    forall i, j | 0 <= i < j < |polls| ensures polls[i].fd != polls[j].fd {
      assert SlotOk(polls, idxs, i) && SlotOk(polls, idxs, j);
    }
  }

  // ---------------------------------------------------------------- watcher lists

  /** The masks registered with the backend. */
  function Masks(anfds: seq<Anfd>): seq<Mask> {
    seq(|anfds|, i requires 0 <= i < |anfds| => anfds[i].events)
  }

  lemma MorePolled(ev: seq<Mask>, ev': seq<Mask>, polls: seq<PollFd>, idxs: seq<int>)
    requires PollOk(ev, polls, idxs) && ev <= ev' && forall fd :: |ev| <= fd < |ev'| ==> ev'[fd] == {}
    ensures PollOk(ev', polls, idxs)
  {
    forall fd | 0 <= fd < |ev'| ensures Polled(polls, idxs, fd, ev'[fd]) {
      if fd < |ev| {
        assert Polled(polls, idxs, fd, ev[fd]);
      }
    }
  }

  /** The OR of the masks of a list of watchers. */
  function Union(ws: seq<Io>): Mask {
    if ws == [] then {} else Union(ws[..|ws| - 1]) + ws[|ws| - 1].events
  }

  /** The list of descriptor `fd` holds active watchers of that descriptor, each once. */
  ghost predicate ListOk(head: seq<Io>, fd: nat, all: set<Io>)
    reads all`active
  {
    && (forall w :: w in head ==> w in all && w.active && w.fd == fd)
    && forall i, j :: 0 <= i < j < |head| ==> head[i] != head[j]
  }

  ghost predicate ListsOk(anfds: seq<Anfd>, all: set<Io>)
    reads all`active
  {
    && (forall fd :: 0 <= fd < |anfds| ==> ListOk(anfds[fd].head, fd, all))
    && forall w :: w in all && w.active ==> w.fd < |anfds| && w in anfds[w.fd].head
  }

  /** As `ListsOk`, but `w` is in no list. */
  ghost predicate AllListedBut(anfds: seq<Anfd>, all: set<Io>, w: Io)
    reads all`active
  {
    && (forall fd :: 0 <= fd < |anfds| ==> ListOk(anfds[fd].head, fd, all) && w !in anfds[fd].head)
    && forall u :: u in all && u.active && u != w ==> u.fd < |anfds| && u in anfds[u.fd].head
  }

  lemma Joined(anfds: seq<Anfd>, anfds': seq<Anfd>, all: set<Io>, w: Io)
    requires AllListedBut(anfds, all, w) && w in all && w.active && w.fd < |anfds| == |anfds'|
    requires anfds'[w.fd].head == [w] + anfds[w.fd].head
    requires forall j :: 0 <= j < |anfds| && j != w.fd ==> anfds'[j] == anfds[j]
    ensures ListsOk(anfds', all)
  {
    forall fd | 0 <= fd < |anfds'| ensures ListOk(anfds'[fd].head, fd, all) {
      assert ListOk(anfds[fd].head, fd, all);
    }
  }

  /** `fdchanges` lists, without duplicates, exactly the descriptors marked for reification. */
  ghost predicate ChangesOk(anfds: seq<Anfd>, fdchanges: seq<nat>) {
    && (forall fd: nat :: fd in fdchanges <==> fd < |anfds| && anfds[fd].reify != {})
    && forall i, j :: 0 <= i < j < |fdchanges| ==> fdchanges[i] != fdchanges[j]
  }

  lemma ChangeDone(anfds: seq<Anfd>, fdchanges: seq<nat>, i: nat)
    requires i < |fdchanges| && ChangesOk(anfds, fdchanges[i..]) && SettledOk(anfds)
    ensures var fd := fdchanges[i];
            fd < |anfds|
            && var done := anfds[fd := Anfd(anfds[fd].head, Union(anfds[fd].head), {})];
               ChangesOk(done, fdchanges[i + 1..]) && SettledOk(done)
  {
    var fd, rest := fdchanges[i], fdchanges[i + 1..];
    assert fdchanges[i..] == [fd] + rest;
    assert fdchanges[i..][0] == fd && fd in fdchanges[i..];
    var cs := fdchanges[i..];
    assert forall j :: 0 <= j < |rest| ==> rest[j] == cs[j + 1] && cs[j + 1] != cs[0];
    var done := anfds[fd := Anfd(anfds[fd].head, Union(anfds[fd].head), {})];
    forall g: nat ensures g in rest <==> g < |done| && done[g].reify != {} {
      assert g in cs <==> g < |anfds| && anfds[g].reify != {};
      assert g in cs <==> g == fd || g in rest;
    }
  }

  /** Descriptors not marked for reification have the mask their watchers want. */
  ghost predicate SettledOk(anfds: seq<Anfd>) {
    forall fd :: 0 <= fd < |anfds| && anfds[fd].reify == {} ==> anfds[fd].events == Union(anfds[fd].head)
  }
}
