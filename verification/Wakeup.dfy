/**
 The cross-thread wakeup of libev: any number of threads and signal handlers call
 `ev_async_send` / `ev_feed_signal`, which race through `evpipe_write` with the blocking
 step of `ev_run` and with `pipecb`.

 Every read or write of a shared variable is one atomic step, and steps of the senders and
 of the loop interleave freely (sequential consistency; the source places the fences).
 */
module Wakeup {

  /** Which of the two summary flags (`sig_pending`, `async_pending`) a send uses. */
  datatype Class = Sig | Asy

  /** One `signals [i]` entry or one `asyncs [i]` watcher. */
  datatype Target = Target(c: Class, i: nat)

  /** Number of entries per class, pipe flavour (eventfd or pipe) and pipe capacity. */
  datatype Config = Config(signals: nat, asyncs: nat, eventfd: bool, capacity: nat) {
    predicate Valid() { capacity >= 1 }

    function Count(c: Class): nat {
      match c case Sig => signals case Asy => asyncs
    }

    predicate Has(k: Target) { k.i < Count(k.c) }
  }

  /** The next atomic step of one sender. */
  datatype Sender =
    | Idle                    // outside any send
    | MarkTarget(k: Target)   // sets the target's own flag
    | TestFlag(k: Target)     // leaves if the summary flag is up already
    | RaiseFlag(k: Target)    // raises the summary flag
    | SetSkipped(k: Target)   // assumes that no wakeup is needed
    | TestWanted(k: Target)   // looks whether the loop has asked for one
    | ClearSkipped(k: Target) // takes the assumption back
    | WritePipe(k: Target)    // makes the pipe readable

  /** The next atomic step of the loop thread. */
  datatype LoopPc =
    | Callbacks                 // invokes what is pending, the pipe callback among it
    | Want                      // asks for wakeups
    | Decide                    // chooses to wait or not, by the skip flag among others
    | Polling(blocking: bool)   // is inside the poll
    | Unwant                    // asks no longer
    | FeedSkipped               // schedules the pipe callback if a wakeup was skipped
    | DrainPipe(readable: bool) // pipe callback: empties the pipe if it was readable
    | ResetSkipped              // pipe callback: forgets skipped wakeups
    | Test(c: Class)            // pipe callback: looks at a summary flag
    | Lower(c: Class)           // pipe callback: lowers the flag
    | Scan(c: Class, i: nat)    // pipe callback: looks at the entries below `i`, from the last down
    | Take(k: Target)           // pipe callback: clears the target's own flag
    | Deliver(k: Target)        // pipe callback: feeds the target's events

  /**
   `flags` holds the raised summary flags and `marked` the entries whose own flag is set.
   `owed` is specification only: the targets sent to since they were last fed to the loop.
   */
  datatype State = State(
    senders: seq<Sender>, pc: LoopPc,
    wanted: bool, skipped: bool, flags: set<Class>, marked: set<Target>, pipe: nat,
    fedRead: bool, fedCustom: bool, owed: set<Target>)

  function Init(threads: nat): State {
    State(seq(threads, _ => Idle), Callbacks, false, false, {}, {}, 0, false, false, {})
  }

  // ---------------------------------------------------------------- senders

  /** One step of thread `t`, which is inside `ev_async_send` or `ev_feed_signal`. */
  function SenderStep(cfg: Config, s: State, t: nat): State
    requires t < |s.senders| && !s.senders[t].Idle?
  {
    match s.senders[t]
    case MarkTarget(k) =>
      s.(senders := s.senders[t := TestFlag(k)], marked := s.marked + {k}, owed := s.owed + {k})
    case TestFlag(k) =>
      s.(senders := s.senders[t := if k.c in s.flags then Idle else RaiseFlag(k)])
    case RaiseFlag(k) =>
      s.(senders := s.senders[t := SetSkipped(k)], flags := s.flags + {k.c})
    case SetSkipped(k) =>
      s.(senders := s.senders[t := TestWanted(k)], skipped := true)
    case TestWanted(k) =>
      s.(senders := s.senders[t := if s.wanted then ClearSkipped(k) else Idle])
    case ClearSkipped(k) =>
      s.(senders := s.senders[t := WritePipe(k)], skipped := false)
    case WritePipe(k) =>
      // a full pipe refuses the byte, but is readable all the same
      s.(senders := s.senders[t := Idle], pipe := if s.pipe < cfg.capacity then s.pipe + 1 else s.pipe)
  }

  // ---------------------------------------------------------------- the loop thread

  function NextPhase(c: Class): LoopPc {
    match c case Sig => Test(Asy) case Asy => Callbacks
  }

  /**
   One step of the loop thread. `mayBlock` stands for every other reason `ev_run` has not to
   block (EVRUN_NOWAIT, idle watchers, no active watcher, a timer that is due).
   */
  function LoopStep(cfg: Config, s: State, mayBlock: bool): State {
    match s.pc
    case Callbacks =>
      if s.fedRead || s.fedCustom
      then s.(pc := DrainPipe(s.fedRead), fedRead := false, fedCustom := false)
      else s.(pc := Want)
    case Want => s.(pc := Decide, wanted := true)
    case Decide => s.(pc := Polling(mayBlock && !s.skipped))
    case Polling(_) => s.(pc := Unwant, fedRead := s.fedRead || s.pipe > 0)
    case Unwant => s.(pc := FeedSkipped, wanted := false)
    case FeedSkipped => s.(pc := Callbacks, fedCustom := s.fedCustom || s.skipped)
    case DrainPipe(readable) =>
      s.(pc := ResetSkipped,
         pipe := if !readable then s.pipe else if cfg.eventfd || s.pipe <= 4 then 0 else s.pipe - 4)
    case ResetSkipped => s.(pc := Test(Sig), skipped := false)
    case Test(c) => s.(pc := if c in s.flags then Lower(c) else NextPhase(c))
    case Lower(c) => s.(pc := Scan(c, cfg.Count(c)), flags := s.flags - {c})
    case Scan(c, i) =>
      if i == 0 then s.(pc := NextPhase(c))
      else if Target(c, i - 1) in s.marked then s.(pc := Take(Target(c, i - 1)))
      else s.(pc := Scan(c, i - 1))
    case Take(k) => s.(pc := Deliver(k), marked := s.marked - {k})
    case Deliver(k) => s.(pc := Scan(k.c, k.i), owed := s.owed - {k})
  }

  // ---------------------------------------------------------------- runs

  /** `Begin` enters ev_async_send / ev_feed_signal, `Send` and `Loop` do one atomic step. */
  datatype Action = Begin(t: nat, k: Target) | Send(t: nat) | Loop(mayBlock: bool)

  predicate Enabled(cfg: Config, s: State, a: Action) {
    match a
    case Begin(t, k) => t < |s.senders| && s.senders[t].Idle? && cfg.Has(k)
    case Send(t) => t < |s.senders| && !s.senders[t].Idle?
    case Loop(_) => true
  }

  function Apply(cfg: Config, s: State, a: Action): State
    requires Enabled(cfg, s, a)
  {
    match a
    case Begin(t, k) => s.(senders := s.senders[t := MarkTarget(k)])
    case Send(t) => SenderStep(cfg, s, t)
    case Loop(b) => LoopStep(cfg, s, b)
  }

  /** The state after an interleaving; an action that is not enabled does nothing. */
  function Run(cfg: Config, s: State, run: seq<Action>): State
    decreases |run|
  {
    if run == [] then s
    else
      var p := Run(cfg, s, run[..|run| - 1]);
      var a := run[|run| - 1];
      if Enabled(cfg, p, a) then Apply(cfg, p, a) else p
  }

  // ---------------------------------------------------------------- the invariant

  /** Some sender of class `c` has marked its entry and will still look at the flag. */
  ghost predicate WillRaise(s: State, c: Class) {
    exists t :: 0 <= t < |s.senders| && (s.senders[t].TestFlag? || s.senders[t].RaiseFlag?) && s.senders[t].k.c == c
  }

  /** Some sender is bound to make the loop look at the flags again. */
  ghost predicate WillWake(s: State) {
    exists t :: 0 <= t < |s.senders|
             && (s.senders[t].SetSkipped? || s.senders[t].ClearSkipped? || s.senders[t].WritePipe?)
  }

  /** Some sender still has to decide, or has decided, that the pipe must be written. */
  ghost predicate WillDecide(s: State) {
    exists t :: 0 <= t < |s.senders| && (s.senders[t].TestWanted? || s.senders[t].ClearSkipped?)
  }

  /** The scan in progress has `k` still ahead of it. */
  predicate ScanAhead(pc: LoopPc, k: Target) {
    match pc
    case Scan(c, i) => c == k.c && k.i < i
    case Take(m) => m.c == k.c && k.i <= m.i
    case Deliver(m) => m.c == k.c && k.i < m.i
    case _ => false
  }

  /** pipecb is running and has not yet read the flag of class `c`. */
  predicate BeforeTest(pc: LoopPc, c: Class) {
    match pc
    case DrainPipe(_) => true
    case ResetSkipped => true
    case Test(d) => d == c || d == Sig
    case Lower(d) => d == c || d == Sig
    case Scan(d, _) => d == Sig && c == Asy
    case Take(m) => m.c == Sig && c == Asy
    case Deliver(m) => m.c == Sig && c == Asy
    case _ => false
  }

  predicate Polls(pc: LoopPc) { pc.Want? || pc.Decide? || pc.Polling? }

  ghost predicate TargetsKnown(cfg: Config, s: State) {
    && (forall k :: k in s.marked ==> cfg.Has(k))
    && (forall t :: 0 <= t < |s.senders| && !s.senders[t].Idle? ==> cfg.Has(s.senders[t].k))
  }

  predicate PcKnown(cfg: Config, pc: LoopPc) {
    match pc
    case Scan(c, i) => i <= cfg.Count(c)
    case Take(k) => cfg.Has(k)
    case Deliver(k) => cfg.Has(k)
    case _ => true
  }

  ghost predicate OwedMarked(s: State) {
    forall k :: k in s.owed ==> k in s.marked || s.pc == Deliver(k)
  }

  ghost predicate MarkedFlagged(s: State) {
    forall k :: k in s.marked ==> k.c in s.flags || WillRaise(s, k.c) || ScanAhead(s.pc, k)
  }

  ghost predicate FlagWakes(s: State) {
    forall c :: c in s.flags ==>
      s.skipped || s.pipe > 0 || WillWake(s) || s.fedRead || s.fedCustom || BeforeTest(s.pc, c)
  }

  ghost predicate LoopShape(s: State) {
    && (Polls(s.pc) ==> !s.fedRead && !s.fedCustom)
    && ((s.pc.Decide? || s.pc.Polling?) ==> s.wanted)
    && (s.pc == Polling(true) && s.skipped ==> WillDecide(s))
  }

  ghost predicate Inv(cfg: Config, s: State) {
    && TargetsKnown(cfg, s) && PcKnown(cfg, s.pc)
    && OwedMarked(s) && MarkedFlagged(s) && FlagWakes(s) && LoopShape(s)
  }

  // ---------------------------------------------------------------- preservation

  predicate Raises(x: Sender, c: Class) { (x.TestFlag? || x.RaiseFlag?) && x.k.c == c }
  predicate Wakes(x: Sender) { x.SetSkipped? || x.ClearSkipped? || x.WritePipe? }
  predicate Decides(x: Sender) { x.TestWanted? || x.ClearSkipped? }

  /** What threads promise survives a step of thread `t`, which only answers for itself. */
  lemma OthersKeep(s: State, s': State, t: nat)
    requires t < |s.senders| == |s'.senders| && s'.senders == s.senders[t := s'.senders[t]]
    ensures forall c :: WillRaise(s, c) && !Raises(s.senders[t], c) ==> WillRaise(s', c)
    ensures forall c :: Raises(s'.senders[t], c) ==> WillRaise(s', c)
    ensures WillWake(s) && !Wakes(s.senders[t]) ==> WillWake(s')
    ensures Wakes(s'.senders[t]) ==> WillWake(s')
    ensures WillDecide(s) && !Decides(s.senders[t]) ==> WillDecide(s')
    ensures Decides(s'.senders[t]) ==> WillDecide(s')
  {
    assert forall u :: 0 <= u < |s.senders| && u != t ==> s'.senders[u] == s.senders[u];
  }

  lemma BeginKeepsInv(cfg: Config, s: State, t: nat, k: Target)
    requires Inv(cfg, s) && Enabled(cfg, s, Begin(t, k))
    ensures Inv(cfg, Apply(cfg, s, Begin(t, k)))
  {
    OthersKeep(s, Apply(cfg, s, Begin(t, k)), t);
  }

  lemma SendKeepsOwed(cfg: Config, s: State, t: nat)
    requires TargetsKnown(cfg, s) && OwedMarked(s) && t < |s.senders| && !s.senders[t].Idle?
    ensures var s' := SenderStep(cfg, s, t); TargetsKnown(cfg, s') && OwedMarked(s')
  {
    var s' := SenderStep(cfg, s, t);
    SendMarks(cfg, s, t);
    forall u | 0 <= u < |s'.senders| && !s'.senders[u].Idle? ensures cfg.Has(s'.senders[u].k) {
      assert u != t ==> s'.senders[u] == s.senders[u];
    }
  }

  /** A sender step marks and owes at most its own entry, and keeps to it. */
  lemma SendMarks(cfg: Config, s: State, t: nat)
    requires t < |s.senders| && !s.senders[t].Idle?
    ensures var s', k := SenderStep(cfg, s, t), s.senders[t].k;
            && s'.senders == s.senders[t := s'.senders[t]] && s'.pc == s.pc && s.flags <= s'.flags
            && (s'.senders[t].Idle? || s'.senders[t].k == k)
            && if s.senders[t].MarkTarget?
               then s'.marked == s.marked + {k} && s'.owed == s.owed + {k} && s'.senders[t] == TestFlag(k)
               else s'.marked == s.marked && s'.owed == s.owed
    ensures Raises(s.senders[t], s.senders[t].k.c) ==>
              Raises(SenderStep(cfg, s, t).senders[t], s.senders[t].k.c)
              || s.senders[t].k.c in SenderStep(cfg, s, t).flags
  {
    match s.senders[t]
    case MarkTarget(_) =>
    case _ =>
  }

  lemma SendKeepsMarks(cfg: Config, s: State, t: nat)
    requires MarkedFlagged(s) && t < |s.senders| && !s.senders[t].Idle?
    ensures MarkedFlagged(SenderStep(cfg, s, t))
  {
    var s' := SenderStep(cfg, s, t);
    SendMarks(cfg, s, t);
    OthersKeep(s, s', t);
    forall k | k in s'.marked
      ensures k.c in s'.flags || WillRaise(s', k.c) || ScanAhead(s'.pc, k)
    {
      if k in s.marked && WillRaise(s, k.c) && Raises(s.senders[t], k.c) {
        assert Raises(s'.senders[t], k.c) || k.c in s'.flags;
      }
    }
  }

  lemma SendKeepsWake(cfg: Config, s: State, t: nat)
    requires cfg.Valid() && FlagWakes(s) && t < |s.senders| && !s.senders[t].Idle?
    ensures FlagWakes(SenderStep(cfg, s, t))
  {
    OthersKeep(s, SenderStep(cfg, s, t), t);
  }

  lemma SendKeepsShape(cfg: Config, s: State, t: nat)
    requires LoopShape(s) && t < |s.senders| && !s.senders[t].Idle?
    ensures LoopShape(SenderStep(cfg, s, t))
  {
    OthersKeep(s, SenderStep(cfg, s, t), t);
  }

  /** What a loop step does to senders, marks, summary flags and debts. */
  ghost predicate LoopEffect(cfg: Config, s: State, s': State) {
    && s'.senders == s.senders
    && s'.marked == (if s.pc.Take? then s.marked - {s.pc.k} else s.marked)
    && s'.owed == (if s.pc.Deliver? then s.owed - {s.pc.k} else s.owed)
    && s'.flags == (if s.pc.Lower? then s.flags - {s.pc.c} else s.flags)
    && (s.pc.Take? ==> s'.pc == Deliver(s.pc.k))
    && (s.pc.Lower? ==> s'.pc == Scan(s.pc.c, cfg.Count(s.pc.c)))
  }

  lemma LoopEffects(cfg: Config, s: State, mayBlock: bool)
    ensures LoopEffect(cfg, s, LoopStep(cfg, s, mayBlock))
  {
  }

  lemma LoopKeepsOwed(cfg: Config, s: State, s': State)
    requires TargetsKnown(cfg, s) && OwedMarked(s) && LoopEffect(cfg, s, s')
    ensures TargetsKnown(cfg, s') && OwedMarked(s')
  {
  }

  lemma LoopKeepsPc(cfg: Config, s: State, mayBlock: bool)
    requires PcKnown(cfg, s.pc)
    ensures PcKnown(cfg, LoopStep(cfg, s, mayBlock).pc)
  {
  }

  /** A scan never leaves a marked entry behind. */
  lemma ScanKeepsAhead(cfg: Config, s: State, mayBlock: bool, k: Target)
    requires ScanAhead(s.pc, k) && k in LoopStep(cfg, s, mayBlock).marked && k in s.marked
    ensures ScanAhead(LoopStep(cfg, s, mayBlock).pc, k)
  {
    match s.pc
    case Scan(c, i) =>
      assert k == Target(c, k.i);
    case Take(m) =>
      assert k == Target(m.c, k.i) && m == Target(m.c, m.i);
    case Deliver(m) =>
  }

  lemma LoopKeepsMarks(cfg: Config, s: State, mayBlock: bool, s': State)
    requires TargetsKnown(cfg, s) && MarkedFlagged(s) && LoopEffect(cfg, s, s') && s' == LoopStep(cfg, s, mayBlock)
    ensures MarkedFlagged(s')
  {
    SameSendersKeep(s, s');
    forall k | k in s'.marked
      ensures k.c in s'.flags || WillRaise(s', k.c) || ScanAhead(s'.pc, k)
    {
      assert k in s.marked && cfg.Has(k);
      if ScanAhead(s.pc, k) {
        ScanKeepsAhead(cfg, s, mayBlock, k);
      }
    }
  }

  lemma LoopKeepsWake(cfg: Config, s: State, mayBlock: bool)
    requires FlagWakes(s)
    ensures FlagWakes(LoopStep(cfg, s, mayBlock))
  {
    var s' := LoopStep(cfg, s, mayBlock);
    SameSendersKeep(s, s');
    forall c | c in s'.flags
      ensures s'.skipped || s'.pipe > 0 || WillWake(s') || s'.fedRead || s'.fedCustom || BeforeTest(s'.pc, c)
    {
      LoopEffects(cfg, s, mayBlock);
      if !WillWake(s) {
        LoopWakes(cfg, s, mayBlock, c);
      }
    }
  }

  lemma LoopWakes(cfg: Config, s: State, mayBlock: bool, c: Class)
    requires s.skipped || s.pipe > 0 || s.fedRead || s.fedCustom || BeforeTest(s.pc, c)
    ensures var s' := LoopStep(cfg, s, mayBlock);
            c in s'.flags ==> s'.skipped || s'.pipe > 0 || s'.fedRead || s'.fedCustom || BeforeTest(s'.pc, c)
  {
    match s.pc
    case Test(d) =>
    case Scan(d, i) =>
    case _ =>
  }

  /** How the loop gets to its poll. */
  ghost predicate ApproachesPoll(s: State, s': State) {
    && (s'.pc.Want? ==> !s'.fedRead && !s'.fedCustom)
    && (s'.pc.Decide? || s'.pc.Polling? ==> Polls(s.pc) && s'.fedRead == s.fedRead && s'.fedCustom == s.fedCustom)
    && (s'.pc.Decide? ==> s'.wanted)
    && (s'.pc.Polling? ==> s.pc.Decide? && s'.wanted == s.wanted)
    && (s'.pc == Polling(true) ==> !s'.skipped)
  }

  lemma LoopApproaches(cfg: Config, s: State, mayBlock: bool)
    ensures ApproachesPoll(s, LoopStep(cfg, s, mayBlock))
  {
  }

  lemma LoopKeepsShape(s: State, s': State)
    requires LoopShape(s) && ApproachesPoll(s, s')
    ensures LoopShape(s')
  {
  }

  lemma SameSendersKeep(s: State, s': State)
    requires s'.senders == s.senders
    ensures WillWake(s') == WillWake(s) && WillDecide(s') == WillDecide(s)
    ensures forall c :: WillRaise(s', c) == WillRaise(s, c)
  {
  }

  lemma StepKeepsInv(cfg: Config, s: State, a: Action)
    requires cfg.Valid() && Inv(cfg, s) && Enabled(cfg, s, a)
    ensures Inv(cfg, Apply(cfg, s, a))
  {
    match a
    case Begin(t, k) =>
      BeginKeepsInv(cfg, s, t, k);
    case Send(t) =>
      SendKeepsOwed(cfg, s, t);
      SendKeepsMarks(cfg, s, t);
      SendKeepsWake(cfg, s, t);
      SendKeepsShape(cfg, s, t);
    case Loop(b) =>
      LoopEffects(cfg, s, b);
      LoopKeepsOwed(cfg, s, LoopStep(cfg, s, b));
      LoopKeepsPc(cfg, s, b);
      LoopKeepsMarks(cfg, s, b, LoopStep(cfg, s, b));
      LoopKeepsWake(cfg, s, b);
      LoopApproaches(cfg, s, b);
      LoopKeepsShape(s, LoopStep(cfg, s, b));
  }

  /** The invariant holds after every interleaving. */
  lemma {:induction false} ReachableInv(cfg: Config, threads: nat, run: seq<Action>)
    requires cfg.Valid()
    ensures Inv(cfg, Run(cfg, Init(threads), run))
    decreases |run|
  {
    if run != [] {
      ReachableInv(cfg, threads, run[..|run| - 1]);
      var p, a := Run(cfg, Init(threads), run[..|run| - 1]), run[|run| - 1];
      if Enabled(cfg, p, a) {
        StepKeepsInv(cfg, p, a);
      }
    }
  }

  ghost predicate Quiet(s: State) {
    forall t :: 0 <= t < |s.senders| ==> s.senders[t].Idle?
  }

  /** A blocked loop that nothing is about to wake owes no target an event. */
  lemma BlockedOwesNothing(cfg: Config, s: State)
    requires Inv(cfg, s) && s.pc == Polling(true) && s.pipe == 0 && Quiet(s)
    ensures s.owed == {} && s.marked == {} && s.flags == {} && !s.skipped
  {
    assert s.flags == {};
    assert forall k :: k in s.marked ==> !ScanAhead(s.pc, k);
    assert s.marked == {};
    assert s.owed == {};
  }

  /**
   No lost wakeup: in every interleaving of any number of senders with the loop, whenever the
   loop is blocked in poll, the pipe is empty and no sender is inside a send, every send has
   been fed to the loop.
   */
  lemma NoLostWakeup(cfg: Config, threads: nat, run: seq<Action>)
    requires cfg.Valid()
    ensures var s := Run(cfg, Init(threads), run);
            s.pc == Polling(true) && s.pipe == 0 && Quiet(s)
            ==> s.owed == {} && s.marked == {} && s.flags == {} && !s.skipped
  {
    ReachableInv(cfg, threads, run);
    var s := Run(cfg, Init(threads), run);
    if s.pc == Polling(true) && s.pipe == 0 && Quiet(s) {
      BlockedOwesNothing(cfg, s);
    }
  }

  // ---------------------------------------------------------------- progress

  /** The loop thread on its own: it leaves a blocking poll only if the pipe is readable. */
  function AloneStep(cfg: Config, s: State): State {
    if s.pc == Polling(true) && s.pipe == 0 then s else LoopStep(cfg, s, true)
  }

  function Alone(cfg: Config, s: State, n: nat): State
    decreases n
  {
    if n == 0 then s else Alone(cfg, AloneStep(cfg, s), n - 1)
  }

  function Lap(cfg: Config): nat { 3 * cfg.signals + 3 * cfg.asyncs + 15 }

  /** Steps left until the loop is back at its callbacks with nothing fed. */
  function ToGo(cfg: Config, s: State): nat {
    var tail := 3 * cfg.asyncs + 3;
    var body := tail + 3 * cfg.signals + 3;
    match s.pc
    case Scan(c, i) => (if c == Sig then tail else 0) + 3 * i + 1
    case Take(k) => (if k.c == Sig then tail else 0) + 3 * k.i + 3
    case Deliver(k) => (if k.c == Sig then tail else 0) + 3 * k.i + 2
    case Lower(c) => (if c == Sig then body else tail) - 1
    case Test(c) => if c == Sig then body else tail
    case ResetSkipped => body + 1
    case DrainPipe(_) => body + 2
    case Callbacks => if s.fedRead || s.fedCustom then body + 3 else body + 9
    case FeedSkipped => body + 4
    case Unwant => body + 5
    case Polling(_) => body + 6
    case Decide => body + 7
    case Want => body + 8
  }

  /** The current lap still delivers `k`. */
  predicate Caught(s: State, k: Target) {
    || BeforeTest(s.pc, k.c) || ScanAhead(s.pc, k) || s.pc == Deliver(k)
    || Polls(s.pc) || s.pc.Callbacks?
    || ((s.pc.Unwant? || s.pc.FeedSkipped?) && (s.skipped || s.fedRead || s.fedCustom))
  }

  ghost predicate Covered(s: State) { forall k :: k in s.owed ==> Caught(s, k) }

  ghost function Rank(cfg: Config, s: State): nat {
    ToGo(cfg, s) + if Covered(s) then 0 else Lap(cfg) + 1
  }

  /** Without senders every owed target has its flag raised or is in the scan's path. */
  lemma QuietOwedFlagged(s: State, k: Target)
    requires OwedMarked(s) && MarkedFlagged(s) && Quiet(s) && k in s.owed
    ensures k.c in s.flags || ScanAhead(s.pc, k) || s.pc == Deliver(k)
  {
  }

  predicate Scanning(pc: LoopPc) { pc.Scan? || pc.Take? || pc.Deliver? }

  lemma CaughtInScan(cfg: Config, s: State, k: Target)
    requires Scanning(s.pc) && (k in s.marked || s.pc == Deliver(k))
    requires k in LoopStep(cfg, s, true).owed && Caught(s, k)
    ensures Caught(LoopStep(cfg, s, true), k)
  {
    match s.pc
    case Scan(c, i) =>
      assert c == k.c ==> k == Target(c, k.i);
    case Take(m) =>
      assert m == Target(m.c, m.i) && k == Target(k.c, k.i);
    case Deliver(m) =>
      assert m != k;
  }

  lemma CaughtElsewhere(cfg: Config, s: State, k: Target)
    requires !Scanning(s.pc) && k.c in s.flags && cfg.Has(k) && Caught(s, k)
    requires s.pc.Polling? ==> s.skipped || s.pipe > 0
    ensures Caught(LoopStep(cfg, s, true), k)
  {
  }

  lemma CaughtStays(cfg: Config, s: State, k: Target)
    requires !(s.pc == Polling(true) && s.pipe == 0)
    requires k in s.marked || s.pc == Deliver(k)
    requires k.c in s.flags || ScanAhead(s.pc, k) || s.pc == Deliver(k)
    requires cfg.Has(k) && k in AloneStep(cfg, s).owed && Caught(s, k)
    requires s.pc.Polling? ==> s.skipped || s.pipe > 0
    ensures Caught(AloneStep(cfg, s), k)
  {
    if Scanning(s.pc) {
      CaughtInScan(cfg, s, k);
    } else {
      CaughtElsewhere(cfg, s, k);
    }
  }

  /** The loop is not stuck while something is owed. */
  lemma OwedNotStuck(cfg: Config, s: State)
    requires Inv(cfg, s) && Quiet(s) && s.owed != {}
    ensures !(s.pc == Polling(true) && s.pipe == 0)
  {
    if s.pc == Polling(true) && s.pipe == 0 {
      BlockedOwesNothing(cfg, s);
    }
  }

  lemma FlagReachesPoll(s: State, c: Class)
    requires FlagWakes(s) && LoopShape(s) && Quiet(s) && c in s.flags
    ensures s.pc.Polling? ==> s.skipped || s.pipe > 0
  {
  }

  lemma ScanShortens(cfg: Config, s: State)
    requires s.pc.Scan? || s.pc.Take? || s.pc.Deliver? || s.pc.Lower? || s.pc.Test?
    requires !EndsLap(s)
    ensures ToGo(cfg, LoopStep(cfg, s, true)) < ToGo(cfg, s)
  {
    match s.pc
    case Scan(c, i) => assert c == Asy ==> i > 0;
    case Take(m) =>
    case Deliver(m) =>
    case Test(c) => assert c == Asy ==> c in s.flags;
    case Lower(c) =>
  }

  lemma PollShortens(cfg: Config, s: State)
    requires !(s.pc.Scan? || s.pc.Take? || s.pc.Deliver? || s.pc.Lower? || s.pc.Test?)
    requires !EndsLap(s)
    ensures ToGo(cfg, LoopStep(cfg, s, true)) < ToGo(cfg, s)
  {
  }

  lemma LapRestarts(cfg: Config, s: State)
    requires EndsLap(s)
    ensures LoopStep(cfg, s, true).pc == Callbacks && ToGo(cfg, LoopStep(cfg, s, true)) <= Lap(cfg)
  {
  }

  /** Every step shortens the lap, except the one that ends it. */
  lemma LapEnds(cfg: Config, s: State)
    requires !(s.pc == Polling(true) && s.pipe == 0)
    ensures ToGo(cfg, AloneStep(cfg, s)) < ToGo(cfg, s) || EndsLap(s)
    ensures EndsLap(s) ==> AloneStep(cfg, s).pc == Callbacks && ToGo(cfg, AloneStep(cfg, s)) <= Lap(cfg)
  {
    if EndsLap(s) {
      LapRestarts(cfg, s);
    } else if s.pc.Scan? || s.pc.Take? || s.pc.Deliver? || s.pc.Lower? || s.pc.Test? {
      ScanShortens(cfg, s);
    } else {
      PollShortens(cfg, s);
    }
  }

  /** The next step returns to the callbacks without having fed the pipe watcher. */
  predicate EndsLap(s: State) {
    match s.pc
    case FeedSkipped => !s.skipped && !s.fedRead && !s.fedCustom
    case Scan(c, i) => c == Asy && i == 0
    case Test(c) => c == Asy && Asy !in s.flags
    case _ => false
  }

  lemma CaughtNotEnding(s: State, k: Target)
    requires Caught(s, k) && (k.c in s.flags || ScanAhead(s.pc, k) || s.pc == Deliver(k))
    ensures !EndsLap(s)
  {
  }

  lemma ToGoBounded(cfg: Config, s: State)
    requires PcKnown(cfg, s.pc)
    ensures ToGo(cfg, s) <= Lap(cfg)
  {
  }

  lemma RankDrops(cfg: Config, s: State)
    requires Inv(cfg, s) && Quiet(s) && AloneStep(cfg, s).owed != {}
    ensures Rank(cfg, AloneStep(cfg, s)) < Rank(cfg, s)
  {
    var s' := AloneStep(cfg, s);
    OwedShrinks(cfg, s);
    OwedNotStuck(cfg, s);
    LapEnds(cfg, s);
    var k :| k in s'.owed;
    if Covered(s) {
      QuietOwedFlagged(s, k);
      CaughtNotEnding(s, k);
      forall m | m in s'.owed ensures Caught(s', m) {
        CoveredStays(cfg, s, m);
      }
    }
  }

  lemma OwedShrinks(cfg: Config, s: State)
    ensures AloneStep(cfg, s).owed <= s.owed && AloneStep(cfg, s).senders == s.senders
  {
  }

  lemma CoveredStays(cfg: Config, s: State, m: Target)
    requires Inv(cfg, s) && Quiet(s) && Covered(s) && m in s.owed && m in AloneStep(cfg, s).owed
    ensures Caught(AloneStep(cfg, s), m)
  {
    OwedNotStuck(cfg, s);
    QuietOwedFlagged(s, m);
    if m.c in s.flags {
      FlagReachesPoll(s, m.c);
    }
    CaughtStays(cfg, s, m);
  }

  lemma AloneKeepsInv(cfg: Config, s: State)
    requires cfg.Valid() && Inv(cfg, s) && Quiet(s)
    ensures Inv(cfg, AloneStep(cfg, s)) && Quiet(AloneStep(cfg, s))
  {
    OwedShrinks(cfg, s);
    if !(s.pc == Polling(true) && s.pipe == 0) {
      StepKeepsInv(cfg, s, Loop(true));
      assert AloneStep(cfg, s) == Apply(cfg, s, Loop(true));
    }
  }

  /**
   Progress: once no sender is active, the loop thread delivers everything that is owed within
   two laps, without the help of a timeout or of any other file descriptor.
   */
  lemma {:induction false} QuietDelivers(cfg: Config, s: State) returns (n: nat)
    requires cfg.Valid() && Inv(cfg, s) && Quiet(s)
    ensures Alone(cfg, s, n).owed == {}
    ensures n <= Rank(cfg, s) + 1
    decreases Rank(cfg, s)
  {
    var s' := AloneStep(cfg, s);
    if s'.owed == {} {
      n := 1;
      assert Alone(cfg, s', 0) == s';
    } else {
      RankDrops(cfg, s);
      AloneKeepsInv(cfg, s);
      var m := QuietDelivers(cfg, s');
      n := m + 1;
    }
  }

  /** Every send of every run is delivered if the loop is then left to run undisturbed. */
  lemma EveryRunDelivers(cfg: Config, threads: nat, run: seq<Action>) returns (n: nat)
    requires cfg.Valid() && Quiet(Run(cfg, Init(threads), run))
    ensures Alone(cfg, Run(cfg, Init(threads), run), n).owed == {}
    ensures n <= 2 * Lap(cfg) + 2
  {
    ReachableInv(cfg, threads, run);
    var s := Run(cfg, Init(threads), run);
    ToGoBounded(cfg, s);
    n := QuietDelivers(cfg, s);
  }

  // ---------------------------------------------------------------- going back to sleep

  /** Reads of the pipe after which it is empty: an eventfd at once, a pipe four bytes at a time. */
  function Reads(cfg: Config, pipe: nat): nat {
    if cfg.eventfd then (if pipe > 0 then 1 else 0) else (pipe + 3) / 4
  }

  /** The pipe callback will run with a readable pipe before the loop polls again. */
  predicate Drains(s: State) {
    s.pc == DrainPipe(true) || ((s.pc.Unwant? || s.pc.FeedSkipped? || s.pc.Callbacks?) && s.fedRead)
  }

  /** The pipe callback will forget skipped wakeups before the loop polls again. */
  predicate Resets(s: State) {
    match s.pc
    case DrainPipe(_) => true
    case ResetSkipped => true
    case Callbacks => s.fedRead || s.fedCustom
    case Unwant => s.fedRead || s.fedCustom || s.skipped
    case FeedSkipped => s.fedRead || s.fedCustom || s.skipped
    case _ => false
  }

  /** Steps left until the loop polls. */
  function ToPoll(cfg: Config, s: State): nat {
    var again := if s.fedRead || s.fedCustom then Lap(cfg) - 3 else 3;
    match s.pc
    case Polling(_) => 0
    case Decide => 1
    case Want => 2
    case Callbacks => again
    case FeedSkipped => Lap(cfg) - 2
    case Unwant => Lap(cfg) - 1
    case _ => ToGo(cfg, s) + again
  }

  /** The pipe watcher is fed only between the poll and the callbacks. */
  predicate Tidy(s: State) {
    s.pc.Polling? || s.pc.Unwant? || s.pc.FeedSkipped? || s.pc.Callbacks? || (!s.fedRead && !s.fedCustom)
  }

  /** A step on the way to the poll: the pipe fills no more, and is read if that is due. */
  predicate PipeNears(cfg: Config, s: State, s': State) {
    && Reads(cfg, s'.pipe) <= Reads(cfg, s.pipe)
    && (Drains(s) && s.pipe > 0 ==> (Drains(s') && s'.pipe > 0) || Reads(cfg, s'.pipe) < Reads(cfg, s.pipe))
  }

  /** ... once if that is due, and otherwise it is left alone. */
  predicate PipeExact(cfg: Config, s: State, s': State) {
    && Tidy(s')
    && if Drains(s) && s.pipe > 0 then
         (Drains(s') && s'.pipe == s.pipe) || (!Drains(s') && Reads(cfg, s'.pipe) == Reads(cfg, s.pipe) - 1)
       else s'.pipe == s.pipe && !(Drains(s') && s'.pipe > 0)
  }

  /** ... and a skipped wakeup is forgotten if that is due. */
  predicate SkipNears(s: State, s': State) {
    s'.skipped && !Resets(s') ==> s.skipped && !Resets(s)
  }

  lemma StepNearsPipe(cfg: Config, s: State)
    requires !s.pc.Polling?
    ensures PipeNears(cfg, s, LoopStep(cfg, s, true))
  {
  }

  lemma StepExact(cfg: Config, s: State)
    requires !s.pc.Polling? && Tidy(s)
    ensures PipeExact(cfg, s, LoopStep(cfg, s, true))
  {
  }

  lemma StepNearsSkip(cfg: Config, s: State)
    requires !s.pc.Polling?
    ensures SkipNears(s, LoopStep(cfg, s, true))
  {
  }

  lemma StepShortens(cfg: Config, s: State)
    requires !s.pc.Polling?
    ensures ToPoll(cfg, LoopStep(cfg, s, true)) < ToPoll(cfg, s)
  {
    if EndsLap(s) {
    } else if s.pc.Scan? || s.pc.Take? || s.pc.Deliver? || s.pc.Lower? || s.pc.Test? {
      ScanShortens(cfg, s);
    } else {
      PollShortens(cfg, s);
    }
  }

  lemma {:induction false} AloneOn(cfg: Config, s: State, a: nat, b: nat)
    ensures Alone(cfg, Alone(cfg, s, a), b) == Alone(cfg, s, a + b)
    decreases a
  {
    if a > 0 {
      AloneOn(cfg, AloneStep(cfg, s), a - 1, b);
    }
  }

  predicate ReadsOnce(cfg: Config, s: State, t: State) {
    if Drains(s) && s.pipe > 0 then Reads(cfg, t.pipe) == Reads(cfg, s.pipe) - 1 else t.pipe == s.pipe
  }

  /** `t` is the loop at its poll, which blocks unless a wakeup was skipped. */
  predicate Reaches(cfg: Config, s: State, t: State) {
    && t.pc == Polling(!t.skipped)
    && Reads(cfg, t.pipe) <= Reads(cfg, s.pipe)
    && (Drains(s) && s.pipe > 0 ==> Reads(cfg, t.pipe) < Reads(cfg, s.pipe))
    && (Tidy(s) ==> ReadsOnce(cfg, s, t))
    && (t.skipped ==> s.skipped && !Resets(s))
  }

  lemma DecideReaches(cfg: Config, s: State)
    requires s.pc.Decide?
    ensures Reaches(cfg, s, LoopStep(cfg, s, true))
  {
  }

  lemma NearsThenReaches(cfg: Config, s: State, m: State, t: State)
    requires PipeNears(cfg, s, m) && SkipNears(s, m) && Reaches(cfg, m, t)
    requires Tidy(s) ==> PipeExact(cfg, s, m)
    ensures Reaches(cfg, s, t)
  {
  }

  lemma {:induction false} NextPoll(cfg: Config, s: State) returns (n: nat)
    requires !s.pc.Polling?
    ensures n <= ToPoll(cfg, s) && Reaches(cfg, s, Alone(cfg, s, n))
    decreases ToPoll(cfg, s)
  {
    var s' := LoopStep(cfg, s, true);
    StepShortens(cfg, s);
    if s.pc.Decide? {
      n := 1;
      DecideReaches(cfg, s);
      assert Alone(cfg, s', 0) == s';
    } else {
      StepNearsPipe(cfg, s);
      if Tidy(s) {
        StepExact(cfg, s);
      }
      StepNearsSkip(cfg, s);
      StaysOff(cfg, s);
      var m := NextPoll(cfg, s');
      n := m + 1;
      NearsThenReaches(cfg, s, s', Alone(cfg, s', m));
    }
  }

  /** The loop comes to its poll from `Decide` only. */
  lemma StaysOff(cfg: Config, s: State)
    requires !s.pc.Polling? && !s.pc.Decide?
    ensures !LoopStep(cfg, s, true).pc.Polling?
  {
  }

  /** One round from a poll that does not block, or that the pipe interrupts, to the next poll. */
  lemma NextRound(cfg: Config, s: State) returns (n: nat)
    requires s.pc.Polling? && !(s.pc == Polling(true) && s.pipe == 0)
    ensures n <= Lap(cfg)
    ensures var t := Alone(cfg, s, n);
            && t.pc == Polling(true) && !t.skipped
            && if s.pipe == 0 then t.pipe == 0 else Reads(cfg, t.pipe) == Reads(cfg, s.pipe) - 1
  {
    var s' := AloneStep(cfg, s);
    var m := NextPoll(cfg, s');
    n := m + 1;
  }

  /** After a poll the pipe callback runs exactly if the pipe is readable or a wakeup was skipped. */
  lemma CallbackIffWoken(cfg: Config, s: State)
    requires s.pc.Polling? && !s.fedRead && !s.fedCustom && !(s.pc == Polling(true) && s.pipe == 0)
    ensures Alone(cfg, s, 4).pc == if s.pipe > 0 || s.skipped then DrainPipe(s.pipe > 0) else Want
  {
    var a := AloneStep(cfg, s);
    var b := AloneStep(cfg, a);
    var c := AloneStep(cfg, b);
    assert a.pc == Unwant && b.pc == FeedSkipped && c.pc == Callbacks;
    assert Alone(cfg, s, 4) == Alone(cfg, a, 3) == Alone(cfg, b, 2) == Alone(cfg, c, 1);
    assert Alone(cfg, c, 1) == Alone(cfg, AloneStep(cfg, c), 0);
  }

  /** From a poll the loop reads the pipe empty, a read in each round, and then blocks. */
  lemma {:induction false} EmptiesPipe(cfg: Config, s: State) returns (n: nat)
    requires s.pc.Polling?
    ensures Alone(cfg, s, n).pc == Polling(true) && Alone(cfg, s, n).pipe == 0
    ensures n <= (Reads(cfg, s.pipe) + 1) * Lap(cfg)
    decreases Reads(cfg, s.pipe)
  {
    if s.pc == Polling(true) && s.pipe == 0 {
      n := 0;
    } else {
      n := NextRound(cfg, s);
      var t := Alone(cfg, s, n);
      if s.pipe > 0 {
        var m := EmptiesPipe(cfg, t);
        AloneOn(cfg, s, n, m);
        Rounds(Reads(cfg, t.pipe), Reads(cfg, s.pipe), Lap(cfg));
        n := n + m;
      }
    }
  }

  lemma Rounds(a: nat, b: nat, lap: nat)
    requires a < b
    ensures (a + 1) * lap + lap <= (b + 1) * lap
  {
    assert (b - a - 1) * lap >= 0;
    assert (b + 1) * lap == (a + 1) * lap + lap + (b - a - 1) * lap;
  }

  lemma {:induction false} AloneKeepsInvs(cfg: Config, s: State, n: nat)
    requires cfg.Valid() && Inv(cfg, s) && Quiet(s)
    ensures Inv(cfg, Alone(cfg, s, n)) && Quiet(Alone(cfg, s, n))
    decreases n
  {
    if n > 0 {
      AloneKeepsInv(cfg, s);
      AloneKeepsInvs(cfg, AloneStep(cfg, s), n - 1);
    }
  }

  lemma ToPollBounded(cfg: Config, s: State)
    requires PcKnown(cfg, s.pc)
    ensures ToPoll(cfg, s) <= 2 * Lap(cfg)
  {
    ToGoBounded(cfg, s);
  }

  /**
   The loop goes back to sleep: once no sender is active it reads the pipe empty and blocks in its
   poll, with everything delivered and nothing marked, within two laps and one more for each read.
   */
  lemma LoopSleeps(cfg: Config, s: State) returns (n: nat)
    requires cfg.Valid() && Inv(cfg, s) && Quiet(s)
    ensures var t := Alone(cfg, s, n);
            && t.pc == Polling(true) && t.pipe == 0
            && t.owed == {} && t.marked == {} && t.flags == {} && !t.skipped
    ensures n <= (Reads(cfg, s.pipe) + 3) * Lap(cfg)
  {
    ToPollBounded(cfg, s);
    n := 0;
    if !s.pc.Polling? {
      n := NextPoll(cfg, s);
    }
    var t := Alone(cfg, s, n);
    var m := EmptiesPipe(cfg, t);
    AloneOn(cfg, s, n, m);
    MoreRounds(Reads(cfg, t.pipe), Reads(cfg, s.pipe), Lap(cfg));
    n := n + m;
    AloneKeepsInvs(cfg, s, n);
    BlockedOwesNothing(cfg, Alone(cfg, s, n));
  }

  lemma MoreRounds(a: nat, b: nat, lap: nat)
    requires a <= b
    ensures (a + 1) * lap + 2 * lap <= (b + 3) * lap
  {
    assert (b - a) * lap >= 0;
    assert (b + 3) * lap == (a + 1) * lap + 2 * lap + (b - a) * lap;
  }

  /** After every run the loop, left to itself, goes back to sleep with nothing left to deliver. */
  lemma EveryRunSleeps(cfg: Config, threads: nat, run: seq<Action>) returns (n: nat)
    requires cfg.Valid() && Quiet(Run(cfg, Init(threads), run))
    ensures var t := Alone(cfg, Run(cfg, Init(threads), run), n);
            t.pc == Polling(true) && t.pipe == 0 && t.owed == {} && t.marked == {}
    ensures n <= (Reads(cfg, Run(cfg, Init(threads), run).pipe) + 3) * Lap(cfg)
  {
    ReachableInv(cfg, threads, run);
    n := LoopSleeps(cfg, Run(cfg, Init(threads), run));
  }

  // ---------------------------------------------------------------- nothing is made up

  /** How often a sender has marked `k` in the run. */
  function Marks(cfg: Config, threads: nat, run: seq<Action>, k: Target): nat
    decreases |run|
  {
    if run == [] then 0
    else
      var front, a := run[..|run| - 1], run[|run| - 1];
      var p := Run(cfg, Init(threads), front);
      Marks(cfg, threads, front, k)
      + if a.Send? && a.t < |p.senders| && p.senders[a.t] == MarkTarget(k) then 1 else 0
  }

  /** How often the loop has fed the events of `k` in the run. */
  function Deliveries(cfg: Config, threads: nat, run: seq<Action>, k: Target): nat
    decreases |run|
  {
    if run == [] then 0
    else
      var front, a := run[..|run| - 1], run[|run| - 1];
      var p := Run(cfg, Init(threads), front);
      Deliveries(cfg, threads, front, k) + if a.Loop? && p.pc == Deliver(k) then 1 else 0
  }

  /** Deliveries still to come for marks already made. */
  function Under(s: State, k: Target): nat {
    (if k in s.marked then 1 else 0) + (if s.pc == Deliver(k) then 1 else 0)
  }

  lemma TakesMarked(cfg: Config, s: State, a: Action, k: Target)
    requires Enabled(cfg, s, a) && (s.pc == Take(k) ==> k in s.marked)
    ensures Apply(cfg, s, a).pc == Take(k) ==> k in Apply(cfg, s, a).marked
    ensures Under(Apply(cfg, s, a), k) + (if a.Loop? && s.pc == Deliver(k) then 1 else 0)
            <= Under(s, k) + (if a.Send? && s.senders[a.t] == MarkTarget(k) then 1 else 0)
  {
    match a
    case Begin(t, m) =>
    case Send(t) => SendMarks(cfg, s, t);
    case Loop(b) => LoopEffects(cfg, s, b);
  }

  /** In every run a target's events are fed at most as often as it was sent to. */
  lemma {:induction false} FedOnlyIfSent(cfg: Config, threads: nat, run: seq<Action>, k: Target)
    ensures Deliveries(cfg, threads, run, k) <= Marks(cfg, threads, run, k)
    ensures var s := Run(cfg, Init(threads), run);
            && (s.pc == Take(k) ==> k in s.marked)
            && Deliveries(cfg, threads, run, k) + Under(s, k) <= Marks(cfg, threads, run, k)
    decreases |run|
  {
    if run != [] {
      var front, a := run[..|run| - 1], run[|run| - 1];
      var p := Run(cfg, Init(threads), front);
      FedOnlyIfSent(cfg, threads, front, k);
      if Enabled(cfg, p, a) {
        TakesMarked(cfg, p, a, k);
      }
    }
  }

  predicate AroundPoll(pc: LoopPc) { pc.Decide? || pc.Polling? || pc.Unwant? }

  lemma LoopWants(cfg: Config, s: State, mayBlock: bool)
    requires s.wanted <==> AroundPoll(s.pc)
    ensures LoopStep(cfg, s, mayBlock).wanted <==> AroundPoll(LoopStep(cfg, s, mayBlock).pc)
  {
  }

  lemma SendWants(cfg: Config, s: State, t: nat)
    requires t < |s.senders| && !s.senders[t].Idle?
    ensures SenderStep(cfg, s, t).wanted == s.wanted && SenderStep(cfg, s, t).pc == s.pc
  {
  }

  /**
   No needless wakeup: in every run a sender leaves at once exactly if the flag is up already; one
   that has raised it leaves without writing exactly if the loop is not around its poll; and a write
   makes at most one byte.
   */
  lemma NoNeedlessWakeup(cfg: Config, threads: nat, run: seq<Action>, t: nat)
    requires t < |Run(cfg, Init(threads), run).senders| && !Run(cfg, Init(threads), run).senders[t].Idle?
    ensures var s := Run(cfg, Init(threads), run);
            var x, s' := s.senders[t], SenderStep(cfg, s, t);
            && (x.TestFlag? ==> (s'.senders[t].Idle? <==> x.k.c in s.flags))
            && (x.TestWanted? ==> (s'.senders[t].Idle? <==> !(s.pc.Decide? || s.pc.Polling? || s.pc.Unwant?)))
            && (if x.WritePipe? then s'.pipe == s.pipe + 1 || s'.pipe == s.pipe >= cfg.capacity else s'.pipe == s.pipe)
  {
    WantedAroundPoll(cfg, threads, run);
  }

  /** The loop never blocks in a run in which there is always another reason not to. */
  lemma {:induction false} BlocksOnlyIfAllowed(cfg: Config, threads: nat, run: seq<Action>)
    requires Loop(true) !in run
    ensures Run(cfg, Init(threads), run).pc != Polling(true)
    decreases |run|
  {
    if run != [] {
      var front, a := run[..|run| - 1], run[|run| - 1];
      BlocksOnlyIfAllowed(cfg, threads, front);
      assert a in run;
      var p := Run(cfg, Init(threads), front);
      match a
      case Begin(t, k) =>
      case Send(t) => if Enabled(cfg, p, a) { SendWants(cfg, p, t); }
      case Loop(b) => StaysUnblocked(cfg, p);
    }
  }

  lemma StaysUnblocked(cfg: Config, s: State)
    ensures LoopStep(cfg, s, false).pc != Polling(true)
  {
  }

  /** In every run the loop asks for wakeups exactly while it is about to poll, polls or has polled. */
  lemma {:induction false} WantedAroundPoll(cfg: Config, threads: nat, run: seq<Action>)
    ensures var s := Run(cfg, Init(threads), run); s.wanted <==> s.pc.Decide? || s.pc.Polling? || s.pc.Unwant?
    decreases |run|
  {
    if run != [] {
      var front, a := run[..|run| - 1], run[|run| - 1];
      var p := Run(cfg, Init(threads), front);
      WantedAroundPoll(cfg, threads, front);
      if Enabled(cfg, p, a) {
        match a
        case Begin(t, k) =>
        case Send(t) => SendWants(cfg, p, t);
        case Loop(b) => LoopWants(cfg, p, b);
      }
    }
  }
}
