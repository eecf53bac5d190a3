/** The hand-off of src/async/EventLoop.cpp as a step machine: one loop thread and any number of
    acquirers, two mutexes and a wake-up pipe. One event is one mutex operation, one write or one
    test; the pipe is a counter of unread bytes. */
module Loops {
  import opened Util

  datatype LoopPc =
    | Top           // at the test of `stopping`
    | WantEntered   // at line 45
    | Inside        // in run(ONCE)
    | Left          // run has returned, line 47 not yet done
    | WantExited    // at line 48
    | HasExited     // between lines 48 and 49
    | Ended

  datatype Pc =
    | Outside       // not in acquire or release
    | AtExited      // at line 78
    | Claiming      // has eventLoopExitedLock, owner not recorded
    | Waking        // owner recorded, byte not written
    | AtEntered     // at line 85
    | HasEntered    // between lines 85 and 86
    | Unlocking     // between lines 103 and 104

  /** A thread: where it is, whether it has the guard that unlocks, and its null guards. */
  datatype Thread = Thread(pc: Pc, live: bool, nulls: nat)

  datatype Holder = Free | ByLoop | By(t: nat)

  datatype State = State(
    loop: LoopPc, threads: seq<Thread>, entered: Holder, exited: Holder,
    owner: Option<nat>, pipe: nat, stopping: bool,
    entries: nat, wasInside: bool)   // history of the current hold

  datatype Event =
    // the loop thread
    | LoopTest | LoopEnter
    | LoopReturn(bytes: nat, io: bool)   // reads that many wake-up bytes; other events happened
    | LoopUnlockEntered | LoopLockExited | LoopUnlockExited
    // thread t
    | Acquire(t: nat) | LockExited(t: nat) | SetOwner(t: nat) | WriteByte(t: nat)
    | LockEntered(t: nat) | UnlockEntered(t: nat)
    | DropNull(t: nat) | DropLive(t: nat) | UnlockExited(t: nat)
    | Stop

  function Initial(n: nat): State {
    State(Top, seq(n, _ => Thread(Outside, false, 0)), Free, Free, None, 0, false, 0, false)
  }

  predicate At(s: State, t: nat, p: Pc) {
    t < |s.threads| && s.threads[t].pc == p
  }

  predicate Enabled(s: State, e: Event) {
    match e
    case LoopTest => s.loop == Top
    case LoopEnter => s.loop == WantEntered && s.entered == Free
    case LoopReturn(bytes, io) => s.loop == Inside && bytes <= s.pipe && (bytes > 0 || io)
    case LoopUnlockEntered => s.loop == Left
    case LoopLockExited => s.loop == WantExited && s.exited == Free
    case LoopUnlockExited => s.loop == HasExited
    case Acquire(t) => At(s, t, Outside)
    case LockExited(t) => At(s, t, AtExited) && s.exited == Free
    case SetOwner(t) => At(s, t, Claiming)
    case WriteByte(t) => At(s, t, Waking)
    case LockEntered(t) => At(s, t, AtEntered) && s.entered == Free
    case UnlockEntered(t) => At(s, t, HasEntered)
    case DropNull(t) => At(s, t, Outside) && s.threads[t].nulls > 0
    case DropLive(t) => At(s, t, Outside) && s.threads[t].live
    case UnlockExited(t) => At(s, t, Unlocking)
    case Stop => true
  }

  predicate InRun(p: LoopPc) { p == Inside || p == Left }

  function Go(s: State, t: nat, p: Pc): State
    requires t < |s.threads|
  {
    s.(threads := s.threads[t := s.threads[t].(pc := p)])
  }

  function DoAcquire(s: State, t: nat): State
    requires t < |s.threads|
  {
    if s.owner == Some(t) then
      s.(threads := s.threads[t := s.threads[t].(nulls := s.threads[t].nulls + 1)])
    else Go(s, t, AtExited)
  }

  function DoLockExited(s: State, t: nat): State
    requires t < |s.threads|
  {
    s.(threads := s.threads[t := s.threads[t].(pc := Claiming, live := true)],
       exited := By(t), entries := 0, wasInside := InRun(s.loop))
  }

  function Apply(s: State, e: Event): State
    requires Enabled(s, e)
  {
    match e
    case LoopTest => s.(loop := if s.stopping then Ended else WantEntered)
    case LoopEnter => s.(loop := Inside, entered := ByLoop, entries := s.entries + 1)
    case LoopReturn(bytes, io) => s.(loop := Left, pipe := s.pipe - bytes)
    case LoopUnlockEntered => s.(loop := WantExited, entered := Free)
    case LoopLockExited => s.(loop := HasExited, exited := ByLoop)
    case LoopUnlockExited => s.(loop := Top, exited := Free)
    case Acquire(t) => DoAcquire(s, t)
    case LockExited(t) => DoLockExited(s, t)
    case SetOwner(t) => Go(s, t, Waking).(owner := Some(t))
    case WriteByte(t) => Go(s, t, AtEntered).(pipe := s.pipe + 1)
    case LockEntered(t) => Go(s, t, HasEntered).(entered := By(t))
    case UnlockEntered(t) => Go(s, t, Outside).(entered := Free)
    case DropNull(t) =>
      s.(threads := s.threads[t := s.threads[t].(nulls := s.threads[t].nulls - 1)])
    case DropLive(t) =>
      s.(threads := s.threads[t := s.threads[t].(pc := Unlocking, live := false)], owner := None)
    case UnlockExited(t) => Go(s, t, Outside).(exited := Free)
    case Stop => s.(stopping := true)
  }

  // ------------------------------------------------------------------ the invariant

  /** The thread is between taking and giving back `eventLoopExitedLock`. */
  predicate HasHold(th: Thread) {
    th.live || th.pc == Unlocking
  }

  /** The thread's acquire has returned and its guard is alive. */
  predicate Holding(s: State, t: nat) {
    At(s, t, Outside) && s.threads[t].live
  }

  /** The wake-up byte of the current hold is written. */
  predicate Woken(th: Thread) {
    th.live && (th.pc == AtEntered || th.pc == HasEntered || th.pc == Outside)
  }

  /** Who holds which mutex, and who is recorded as owner. */
  ghost predicate Mutexes(s: State) {
    && (forall t | 0 <= t < |s.threads| :: LocalState(s.threads[t]))
    && (forall t | 0 <= t < |s.threads| :: HasHold(s.threads[t]) <==> s.exited == By(t))
    && (forall t | 0 <= t < |s.threads| :: s.threads[t].pc == HasEntered <==> s.entered == By(t))
    && (forall t | 0 <= t < |s.threads| ::
          s.owner == Some(t) <==> s.threads[t].live && s.threads[t].pc != Claiming)
    && (s.exited.By? ==> s.exited.t < |s.threads|)
    && (s.entered.By? ==> s.entered.t < |s.threads|)
    && (s.owner.Some? ==> s.owner.value < |s.threads|)
    && (s.exited == ByLoop <==> s.loop == HasExited)
    && (s.entered == ByLoop <==> InRun(s.loop))
  }

  predicate LocalState(th: Thread) {
    && (th.pc == AtExited || th.pc == Unlocking ==> !th.live)
    && (th.pc == Claiming || th.pc == Waking || th.pc == AtEntered || th.pc == HasEntered ==> th.live)
  }

  /** What the loop can be doing during a hold. */
  ghost predicate DuringHold(s: State) {
    s.exited.By? && s.exited.t < |s.threads| ==>
      var th := s.threads[s.exited.t];
      && s.entries + Bit(s.wasInside) <= 1
      && (s.loop == Inside ==> s.entries + Bit(s.wasInside) == 1)
      && (s.loop == Top || s.loop == WantEntered || s.loop == Ended ==> s.entries == 0 && !s.wasInside)
      && (Woken(th) && (s.loop == Top || s.loop == WantEntered || s.loop == Inside) ==> s.pipe > 0)
      && (s.wasInside && th.live && (th.pc == HasEntered || th.pc == Outside) ==> s.loop == WantExited)
  }

  ghost predicate Inv(s: State) {
    Mutexes(s) && DuringHold(s) && (s.loop == Ended ==> s.stopping)
  }

  lemma InitialInv(n: nat)
    ensures Inv(Initial(n))
  {
  }

  predicate LoopEvent(e: Event) {
    e.LoopTest? || e.LoopEnter? || e.LoopReturn? || e.LoopUnlockEntered? || e.LoopLockExited?
    || e.LoopUnlockExited?
  }

  lemma LoopMutexes(s: State, e: Event)
    requires Inv(s) && Enabled(s, e) && LoopEvent(e)
    ensures Mutexes(Apply(s, e))
  {
  }

  /** Steps of a thread that lock or unlock a mutex. */
  predicate MutexEvent(e: Event) {
    e.LockExited? || e.LockEntered? || e.UnlockEntered? || e.UnlockExited?
  }

  lemma ThreadMutexes(s: State, e: Event)
    requires Inv(s) && Enabled(s, e) && MutexEvent(e)
    ensures Mutexes(Apply(s, e))
  {
  }

  /** Steps of a thread that change who owns the lock, or who has a guard. */
  predicate GuardEvent(e: Event) {
    e.SetOwner? || e.DropLive? || e.DropNull?
  }

  lemma GuardMutexes(s: State, e: Event)
    requires Inv(s) && Enabled(s, e) && GuardEvent(e)
    ensures Mutexes(Apply(s, e))
  {
  }

  lemma LocalMutexes(s: State, e: Event)
    requires Inv(s) && Enabled(s, e) && (e.Acquire? || e.WriteByte? || e.Stop?)
    ensures Mutexes(Apply(s, e))
  {
  }

  lemma StepDuringHold(s: State, e: Event)
    requires Inv(s) && Enabled(s, e)
    ensures DuringHold(Apply(s, e))
  {
    assert s.exited.By? ==> HasHold(s.threads[s.exited.t]) && LocalState(s.threads[s.exited.t]);
  }

  lemma StepKeeps(s: State, e: Event)
    requires Inv(s) && Enabled(s, e)
    ensures Inv(Apply(s, e))
  {
    if LoopEvent(e) { LoopMutexes(s, e); }
    else if MutexEvent(e) { ThreadMutexes(s, e); }
    else if GuardEvent(e) { GuardMutexes(s, e); } else { LocalMutexes(s, e); }
    StepDuringHold(s, e);
  }

  ghost predicate Runs(s: State, es: seq<Event>)
    decreases |es|
  {
    es == [] || (Enabled(s, es[0]) && Runs(Apply(s, es[0]), es[1..]))
  }

  ghost function End(s: State, es: seq<Event>): State
    requires Runs(s, es)
    decreases |es|
  {
    if es == [] then s else End(Apply(s, es[0]), es[1..])
  }

  lemma {:induction false} RunKeeps(s: State, es: seq<Event>)
    requires Inv(s) && Runs(s, es)
    ensures Inv(End(s, es))
    decreases |es|
  {
    if es != [] {
      StepKeeps(s, es[0]);
      RunKeeps(Apply(s, es[0]), es[1..]);
    }
  }

  // ------------------------------------------------------------------ the hand-off

  /** No lost wake-up: whenever an acquirer waits for the loop to come out of `run`, the wake-up pipe
      is not empty, so `run` cannot block. */
  lemma NoLostWakeUp(n: nat, es: seq<Event>, t: nat)
    requires Runs(Initial(n), es)
    ensures var s := End(Initial(n), es);
            At(s, t, AtEntered) && s.loop == Inside ==> s.pipe > 0 && Enabled(s, LoopReturn(1, false))
  {
    InitialInv(n);
    RunKeeps(Initial(n), es);
    var s := End(Initial(n), es);
    if At(s, t, AtEntered) {
      assert LocalState(s.threads[t]) && HasHold(s.threads[t]);
    }
  }

  /** During one hold the loop enters `run` at most once. If it was inside when the hold began it
      stays outside from the return of the acquire to the release; otherwise, should it still enter,
      it finds the wake-up byte unread and does not block. */
  lemma LoopDuringHold(n: nat, es: seq<Event>, t: nat)
    requires Runs(Initial(n), es)
    ensures var s := End(Initial(n), es);
            s.exited == By(t) ==>
              && s.entries + Bit(s.wasInside) <= 1
              && (Holding(s, t) && s.wasInside ==> s.loop == WantExited && s.entries == 0)
              && (Holding(s, t) && s.loop == Inside ==> s.entries == 1 && s.pipe > 0)
              && (Holding(s, t) && Enabled(s, LoopEnter) ==> s.pipe > 0)
  {
    InitialInv(n);
    RunKeeps(Initial(n), es);
  }

  /** Plain exclusion is false: a run in which the loop is inside `run` while a thread holds the
      lock. The loop was past line 49 and before line 45 when the hold began. */
  lemma LoopRunsUnderTheLock() returns (es: seq<Event>)
    ensures Runs(Initial(1), es)
    ensures Holding(End(Initial(1), es), 0) && End(Initial(1), es).loop == Inside
  {
    var held := State(Top, [Thread(Outside, true, 0)], Free, By(0), Some(0), 1, false, 0, false);
    var last := Apply(Apply(held, LoopTest), LoopEnter);
    Then(Apply(held, LoopTest), LoopEnter, [], last);
    Then(held, LoopTest, [LoopEnter] + [], last);
    es := TakeTheLock(held, [LoopTest] + ([LoopEnter] + []), last);
  }

  /** The only thread acquires while the loop is at the top of its body. */
  lemma TakeTheLock(held: State, rest: seq<Event>, last: State) returns (es: seq<Event>)
    requires held == State(Top, [Thread(Outside, true, 0)], Free, By(0), Some(0), 1, false, 0, false)
    requires Runs(held, rest) && End(held, rest) == last
    ensures Runs(Initial(1), es) && End(Initial(1), es) == last
  {
    var s3 := State(Top, [Thread(Waking, true, 0)], Free, By(0), Some(0), 0, false, 0, false);
    es := SecondHalf(s3, held, rest, last);
    var s0 := Initial(1);
    assert s0.threads == [Thread(Outside, false, 0)];
    var s1 := Apply(s0, Acquire(0));
    var s2 := Apply(s1, LockExited(0));
    assert Apply(s2, SetOwner(0)) == s3;
    Then(s2, SetOwner(0), es, last);
    Then(s1, LockExited(0), [SetOwner(0)] + es, last);
    Then(s0, Acquire(0), [LockExited(0)] + ([SetOwner(0)] + es), last);
    es := [Acquire(0)] + ([LockExited(0)] + ([SetOwner(0)] + es));
  }

  lemma SecondHalf(s3: State, held: State, rest: seq<Event>, last: State) returns (es: seq<Event>)
    requires s3 == State(Top, [Thread(Waking, true, 0)], Free, By(0), Some(0), 0, false, 0, false)
    requires held == State(Top, [Thread(Outside, true, 0)], Free, By(0), Some(0), 1, false, 0, false)
    requires Runs(held, rest) && End(held, rest) == last
    ensures Runs(s3, es) && End(s3, es) == last
  {
    var s4 := Apply(s3, WriteByte(0));
    var s5 := Apply(s4, LockEntered(0));
    assert Apply(s5, UnlockEntered(0)) == held;
    Then(s5, UnlockEntered(0), rest, last);
    Then(s4, LockEntered(0), [UnlockEntered(0)] + rest, last);
    Then(s3, WriteByte(0), [LockEntered(0)] + ([UnlockEntered(0)] + rest), last);
    es := [WriteByte(0)] + ([LockEntered(0)] + ([UnlockEntered(0)] + rest));
  }

  // ------------------------------------------------------------------ which holds keep the loop out

  /** A run within the hold of `t`: everything but the release of its mutex. */
  ghost predicate HoldRun(s: State, es: seq<Event>, t: nat) {
    Runs(s, es) && forall i | 0 <= i < |es| :: es[i] != UnlockExited(t)
  }

  /** The loop thread cannot get into `run` before the mutex is released, but for a `run` that it was
      in when the hold began. */
  predicate KeptOut(s: State) {
    || s.loop == WantExited || s.loop == Ended
    || (s.loop == Top && s.stopping)
    || (InRun(s.loop) && s.wasInside)
  }

  lemma StaysOut(s: State, e: Event, t: nat)
    requires Inv(s) && Enabled(s, e) && s.exited == By(t) && e != UnlockExited(t) && KeptOut(s)
    ensures KeptOut(Apply(s, e)) && Apply(s, e).exited == By(t)
  {
    assert HasHold(s.threads[t]) && LocalState(s.threads[t]);
  }

  lemma {:induction false} HoldKeepsOut(s: State, es: seq<Event>, t: nat)
    requires Inv(s) && s.exited == By(t) && KeptOut(s) && HoldRun(s, es, t)
    ensures Inv(End(s, es)) && KeptOut(End(s, es)) && End(s, es).exited == By(t)
    decreases |es|
  {
    if es != [] {
      StepKeeps(s, es[0]);
      StaysOut(s, es[0], t);
      assert HoldRun(Apply(s, es[0]), es[1..], t) by {
        forall i | 0 <= i < |es[1..]| ensures es[1..][i] != UnlockExited(t) {
          assert es[1..][i] == es[i + 1];
        }
      }
      HoldKeepsOut(Apply(s, es[0]), es[1..], t);
    }
  }

  /** The loop is inside `run` while the acquire of `t` has returned and its guard is alive. */
  predicate RunsUnder(s: State, t: nat) {
    Holding(s, t) && s.loop == Inside
  }

  /** Where the loop thread is when a hold begins decides: it can come into `run` during the hold only
      from the top of its body, with `stopping` unset, or from the wait for its own mutex. */
  predicate Open(s: State) {
    s.loop == WantEntered || (s.loop == Top && !s.stopping)
  }

  lemma NotUnder(s: State, es: seq<Event>, t: nat)
    requires Inv(s) && Enabled(s, LockExited(t)) && !Open(s)
    requires HoldRun(Apply(s, LockExited(t)), es, t)
    ensures !RunsUnder(End(Apply(s, LockExited(t)), es), t)
  {
    var s1 := Apply(s, LockExited(t));
    StepKeeps(s, LockExited(t));
    HoldKeepsOut(s1, es, t);
  }

  /** No thread has the second mutex when a hold begins. */
  lemma EnteredIsTheLoops(s: State, t: nat)
    requires Inv(s) && Enabled(s, LockExited(t))
    ensures !s.entered.By?
  {
    forall u | 0 <= u < |s.threads| ensures s.threads[u].pc != HasEntered {
      assert LocalState(s.threads[u]) && !HasHold(s.threads[u]);
    }
  }

  lemma HoldThen(s: State, e: Event, es: seq<Event>, t: nat)
    requires Enabled(s, e) && e != UnlockExited(t) && HoldRun(Apply(s, e), es, t)
    ensures HoldRun(s, [e] + es, t) && End(s, [e] + es) == End(Apply(s, e), es)
  {
    assert ([e] + es)[1..] == es;
  }

  /** With its mutex free the loop enters. */
  lemma Enter(s: State, t: nat) returns (es: seq<Event>)
    requires Holding(s, t) && Open(s) && s.entered == Free
    ensures HoldRun(s, es, t) && RunsUnder(End(s, es), t)
  {
    if s.loop == WantEntered {
      HoldThen(s, LoopEnter, [], t);
      es := [LoopEnter] + [];
    } else {
      HoldThen(Apply(s, LoopTest), LoopEnter, [], t);
      HoldThen(s, LoopTest, [LoopEnter] + [], t);
      es := [LoopTest] + ([LoopEnter] + []);
    }
  }

  /** The acquire passes the second mutex and returns. */
  lemma Pass(s: State, t: nat) returns (es: seq<Event>)
    requires At(s, t, AtEntered) && s.threads[t].live && s.entered == Free && Open(s)
    ensures HoldRun(s, es, t) && RunsUnder(End(s, es), t)
  {
    var s1 := Apply(s, LockEntered(t));
    es := Enter(Apply(s1, UnlockEntered(t)), t);
    HoldThen(s1, UnlockEntered(t), es, t);
    es := [UnlockEntered(t)] + es;
    HoldThen(s, LockEntered(t), es, t);
    es := [LockEntered(t)] + es;
  }

  /** The acquire returns without a step of the loop, and then the loop enters. */
  lemma LoopComesIn(s: State, t: nat) returns (es: seq<Event>)
    requires Inv(s) && Enabled(s, LockExited(t)) && Open(s)
    ensures HoldRun(Apply(s, LockExited(t)), es, t)
    ensures RunsUnder(End(Apply(s, LockExited(t)), es), t)
  {
    EnteredIsTheLoops(s, t);
    var s1 := Apply(s, LockExited(t));
    var s2 := Apply(s1, SetOwner(t));
    es := Pass(Apply(s2, WriteByte(t)), t);
    HoldThen(s2, WriteByte(t), es, t);
    es := [WriteByte(t)] + es;
    HoldThen(s1, SetOwner(t), es, t);
    es := [SetOwner(t)] + es;
  }

  /** Exactly which holds exclude the loop: in some run of a hold the loop is inside `run` after the
      acquire has returned, if and only if the loop thread was at the top of its body with `stopping`
      unset, or waiting for its own mutex, when line 78 took the mutex. */
  lemma LoopRunsUnderExactly(s: State, t: nat)
    requires Inv(s) && Enabled(s, LockExited(t))
    ensures (exists es ::
               HoldRun(Apply(s, LockExited(t)), es, t) && RunsUnder(End(Apply(s, LockExited(t)), es), t))
            <==> Open(s)
  {
    if Open(s) {
      var es := LoopComesIn(s, t);
      assert RunsUnder(End(Apply(s, LockExited(t)), es), t);
    } else {
      forall es | HoldRun(Apply(s, LockExited(t)), es, t)
        ensures !RunsUnder(End(Apply(s, LockExited(t)), es), t)
      {
        NotUnder(s, es, t);
      }
    }
  }

  lemma Then(s: State, e: Event, es: seq<Event>, s': State)
    requires Enabled(s, e) && Runs(Apply(s, e), es) && End(Apply(s, e), es) == s'
    ensures Runs(s, [e] + es) && End(s, [e] + es) == s'
  {
    assert ([e] + es)[1..] == es;
  }

  /** In every reachable state at most one live guard exists, its thread holds `eventLoopExitedLock`,
      and the recorded owner really holds that lock and has the live guard. */
  lemma OneLiveGuard(n: nat, es: seq<Event>)
    requires Runs(Initial(n), es)
    ensures var s := End(Initial(n), es);
            && (forall t, u | 0 <= t < |s.threads| && 0 <= u < |s.threads| ::
                  s.threads[t].live && s.threads[u].live ==> t == u)
            && (forall t | 0 <= t < |s.threads| && s.threads[t].live :: s.exited == By(t))
            && (s.owner.Some? ==> (s.owner.value < |s.threads| && s.exited == By(s.owner.value)
                                 && s.threads[s.owner.value].live))
  {
    InitialInv(n);
    RunKeeps(Initial(n), es);
  }

  /** The hold of a thread, once begun, ends only with the release of its own outermost guard:
      nested acquires and drops, and whatever other threads do, leave the mutex with it. */
  lemma HoldLasts(s: State, e: Event, t: nat)
    requires Inv(s) && Enabled(s, e) && s.exited == By(t) && e != UnlockExited(t)
    ensures Apply(s, e).exited == By(t)
    ensures s.threads[t].live && e != DropLive(t) ==> Apply(s, e).threads[t].live
    ensures e == Acquire(t) ==>
              (s.owner == Some(t) && Apply(s, e) == s.(threads := Apply(s, e).threads)
               && Apply(s, e).threads[t].nulls == s.threads[t].nulls + 1)
  {
    assert HasHold(s.threads[t]) && LocalState(s.threads[t]);
  }

  // ------------------------------------------------------------------ progress, no deadlock

  function PcRank(p: Pc): nat {
    match p
    case Claiming => 4
    case Waking => 3
    case AtEntered => 2
    case HasEntered => 1
    case _ => 0
  }

  function LoopRank(p: LoopPc): nat {
    match p
    case Top => 4
    case WantEntered => 3
    case Inside => 2
    case Left => 1
    case _ => 0
  }

  /** How far the holder's acquire is from its return. */
  function Distance(s: State, t: nat): nat
    requires t < |s.threads|
  {
    5 * PcRank(s.threads[t].pc) + LoopRank(s.loop)
  }

  predicate Acquiring(s: State, t: nat) {
    t < |s.threads| && PcRank(s.threads[t].pc) > 0
  }

  /** Once it has the first mutex, nothing takes an acquirer further from its return. */
  lemma NeverFurther(s: State, e: Event, t: nat)
    requires Inv(s) && Enabled(s, e) && Acquiring(s, t)
    ensures Distance(Apply(s, e), t) <= Distance(s, t)
    ensures LoopEvent(e) ==> Distance(Apply(s, e), t) < Distance(s, t)
  {
    assert LocalState(s.threads[t]) && HasHold(s.threads[t]);
  }

  /** While one acquirer waits for the second mutex no other thread has it. */
  lemma OnlyTheLoopIsInTheWay(s: State, t: nat)
    requires Inv(s) && At(s, t, AtEntered)
    ensures !s.entered.By?
  {
    assert LocalState(s.threads[t]) && HasHold(s.threads[t]);
    forall u | 0 <= u < |s.threads| ensures s.threads[u].pc != HasEntered {
      assert LocalState(s.threads[u]) && (HasHold(s.threads[u]) ==> u == t);
    }
  }

  /** And there is always a step that brings it closer and depends on no other input: its own, or
      one of the loop thread. */
  lemma AcquirerGetsIn(s: State, t: nat) returns (e: Event)
    requires Inv(s) && Acquiring(s, t)
    ensures Enabled(s, e) && Distance(Apply(s, e), t) < Distance(s, t)
    ensures LoopEvent(e) || (e in {SetOwner(t), WriteByte(t), LockEntered(t), UnlockEntered(t)})
    ensures e.LoopReturn? ==> !e.io
  {
    assert LocalState(s.threads[t]) && HasHold(s.threads[t]);
    match s.threads[t].pc
    case Claiming => e := SetOwner(t);
    case Waking => e := WriteByte(t);
    case HasEntered => e := UnlockEntered(t);
    case AtEntered =>
      OnlyTheLoopIsInTheWay(s, t);
      e := if s.loop == Inside then LoopReturn(1, false)
           else if s.loop == Left then LoopUnlockEntered else LockEntered(t);
  }

  // ------------------------------------------------------------------ the loop goes on until stopped

  /** How far the loop thread is from `run`. */
  function ToInside(p: LoopPc): nat {
    match p
    case Left => 5
    case WantExited => 4
    case HasExited => 3
    case Top => 2
    case WantEntered => 1
    case _ => 0
  }

  /** How far the loop thread is from its end, once it is to stop. */
  function ToEnd(p: LoopPc): nat {
    match p
    case WantEntered => 6
    case Inside => 5
    case Left => 4
    case WantExited => 3
    case HasExited => 2
    case Top => 1
    case Ended => 0
  }

  /** How far a thread with the first mutex is from giving it back. */
  function ToUnlock(p: Pc): nat {
    match p
    case Claiming => 6
    case Waking => 5
    case AtEntered => 4
    case HasEntered => 3
    case Outside => 2
    case Unlocking => 1
    case AtExited => 0
  }

  function HolderLeft(s: State): nat {
    if s.exited.By? && s.exited.t < |s.threads| then ToUnlock(s.threads[s.exited.t].pc) else 0
  }

  /** The steps that a holder takes to the end of its hold. */
  predicate HolderStep(s: State, e: Event) {
    s.exited.By? &&
    e in {SetOwner(s.exited.t), WriteByte(s.exited.t), LockEntered(s.exited.t), UnlockEntered(s.exited.t),
          DropLive(s.exited.t), UnlockExited(s.exited.t)}
  }

  /** With the loop at the wait for its first mutex or for the second, and the mutex taken, the holder
      has a step that brings it closer to giving it back. */
  lemma HolderMoves(s: State) returns (e: Event)
    requires Inv(s) && s.exited.By? && !InRun(s.loop)
    ensures Enabled(s, e) && HolderStep(s, e)
    ensures Apply(s, e).loop == s.loop && HolderLeft(Apply(s, e)) < HolderLeft(s)
  {
    var t := s.exited.t;
    assert LocalState(s.threads[t]) && HasHold(s.threads[t]);
    match s.threads[t].pc
    case Claiming => e := SetOwner(t);
    case Waking => e := WriteByte(t);
    case AtEntered =>
      OnlyTheLoopIsInTheWay(s, t);
      e := LockEntered(t);
    case HasEntered => e := UnlockEntered(t);
    case Outside => e := DropLive(t);
    case Unlocking => e := UnlockExited(t);
  }

  /** The mutex of the loop is with nobody or with the holder of the other one. */
  lemma EnteredHolder(s: State)
    requires Inv(s) && s.entered.By?
    ensures s.exited == s.entered
  {
    assert LocalState(s.threads[s.entered.t]) && HasHold(s.threads[s.entered.t]);
  }

  /** A step of the loop thread by itself, or of the holder that is in its way. */
  lemma SomebodyMoves(s: State) returns (e: Event)
    requires Inv(s) && s.loop != Inside && s.loop != Ended
    ensures Enabled(s, e)
    ensures if LoopEvent(e) then !e.LoopReturn? && Apply(s, e).loop != s.loop && HolderLeft(Apply(s, e)) == HolderLeft(s)
            else HolderStep(s, e) && Apply(s, e).loop == s.loop && HolderLeft(Apply(s, e)) < HolderLeft(s)
  {
    match s.loop
    case Top => e := LoopTest;
    case Left => e := LoopUnlockEntered;
    case HasExited => e := LoopUnlockExited;
    case WantEntered =>
      if s.entered == Free { e := LoopEnter; } else {
        EnteredHolder(s);
        e := HolderMoves(s);
      }
    case WantExited =>
      if s.exited == Free { e := LoopLockExited; } else { e := HolderMoves(s); }
  }

  /** What the loop thread does at each place: it goes round, and leaves the round only at the test. */
  lemma LoopGoesRound(s: State, e: Event)
    requires Enabled(s, e) && LoopEvent(e)
    ensures !s.stopping && s.loop != Inside ==> ToInside(Apply(s, e).loop) < ToInside(s.loop)
    ensures s.stopping && s.loop != Ended ==> Apply(s, e).loop == Inside || ToEnd(Apply(s, e).loop) < ToEnd(s.loop)
    ensures Apply(s, e).loop == Ended <==> s.loop == Top && s.stopping
    ensures Apply(s, e).loop == Inside <==> s.loop == WantEntered
    ensures Apply(s, e).exited == ByLoop <==> s.loop == WantExited || (s.exited == ByLoop && s.loop != HasExited)
    ensures s.loop == HasExited ==> Apply(s, e).loop == Top
  {
  }

  /** In every reachable state the loop thread has ended only if it was told to stop. */
  lemma EndsOnlyWhenStopped(n: nat, es: seq<Event>)
    requires Runs(Initial(n), es)
    ensures End(Initial(n), es).loop == Ended ==> End(Initial(n), es).stopping
    ensures Stop in es ==> End(Initial(n), es).stopping
  {
    InitialInv(n);
    RunKeeps(Initial(n), es);
    StopSticks(Initial(n), es);
  }

  lemma {:induction false} StopSticks(s: State, es: seq<Event>)
    requires Runs(s, es)
    ensures s.stopping || Stop in es ==> End(s, es).stopping
    decreases |es|
  {
    if es != [] { StopSticks(Apply(s, es[0]), es[1..]); }
  }

  /** How often a run acquires for `t` while `t` is the recorded owner, and how often while it is not. */
  ghost function Acquires(s: State, es: seq<Event>, t: nat, nested: bool): nat
    requires Runs(s, es)
    decreases |es|
  {
    if es == [] then 0 else
    Bit(es[0] == Acquire(t) && (s.owner == Some(t)) == nested) + Acquires(Apply(s, es[0]), es[1..], t, nested)
  }

  lemma StepBalance(s: State, e: Event, t: nat)
    requires Enabled(s, e) && t < |s.threads| && LocalState(s.threads[t])
    ensures var th, th' := s.threads[t], Apply(s, e).threads[t];
            && |Apply(s, e).threads| == |s.threads|
            && th'.nulls + Bit(e == DropNull(t)) == th.nulls + Bit(e == Acquire(t) && s.owner == Some(t))
            && Bit(th'.pc == AtExited) + Bit(e == LockExited(t))
               == Bit(th.pc == AtExited) + Bit(e == Acquire(t) && s.owner != Some(t))
            && Bit(HasHold(th')) + Bit(e == UnlockExited(t)) == Bit(HasHold(th)) + Bit(e == LockExited(t))
  {
  }

  /** Acquires and releases balance. A nested acquire leaves a null guard until it is dropped, an outer
      one is at the first mutex until it has it, and whoever has taken the mutex has the hold until it
      gives it back, once. */
  lemma {:induction false} Balance(s: State, es: seq<Event>, t: nat)
    requires Inv(s) && Runs(s, es) && t < |s.threads|
    ensures |End(s, es).threads| == |s.threads|
    ensures var th, th' := s.threads[t], End(s, es).threads[t];
            && th'.nulls + Occ(es, DropNull(t)) == th.nulls + Acquires(s, es, t, true)
            && Bit(th'.pc == AtExited) + Occ(es, LockExited(t))
               == Bit(th.pc == AtExited) + Acquires(s, es, t, false)
            && Bit(HasHold(th')) + Occ(es, UnlockExited(t)) == Bit(HasHold(th)) + Occ(es, LockExited(t))
    decreases |es|
  {
    if es != [] {
      assert LocalState(s.threads[t]);
      StepBalance(s, es[0], t);
      StepKeeps(s, es[0]);
      Balance(Apply(s, es[0]), es[1..], t);
    }
  }

  function BytesRead(es: seq<Event>): nat {
    if es == [] then 0 else (if es[0].LoopReturn? then es[0].bytes else 0) + BytesRead(es[1..])
  }

  function BytesWritten(es: seq<Event>): nat {
    if es == [] then 0 else (if es[0].WriteByte? then 1 else 0) + BytesWritten(es[1..])
  }

  /** The pipe loses nothing: what is unread was written by acquirers and not read by the loop. */
  lemma {:induction false} PipeCounts(s: State, es: seq<Event>)
    requires Runs(s, es)
    ensures End(s, es).pipe + BytesRead(es) == s.pipe + BytesWritten(es)
    decreases |es|
  {
    if es != [] { PipeCounts(Apply(s, es[0]), es[1..]); }
  }

  /** Until it is stopped the loop always gets to `run`: outside it there is a step, of the loop thread
      or of the holder it waits for, that brings it closer, and no step of a thread takes it back. */
  lemma LoopGetsToRun(s: State) returns (e: Event)
    requires Inv(s) && !s.stopping && s.loop != Inside
    ensures Enabled(s, e) && (LoopEvent(e) || HolderStep(s, e))
    ensures
      || ToInside(Apply(s, e).loop) < ToInside(s.loop)
      || (Apply(s, e).loop == s.loop && HolderLeft(Apply(s, e)) < HolderLeft(s))
  {
    e := SomebodyMoves(s);
    if LoopEvent(e) { LoopGoesRound(s, e); }
  }

  lemma OthersLeaveTheLoop(s: State, e: Event)
    requires Enabled(s, e) && !LoopEvent(e)
    ensures Apply(s, e).loop == s.loop && Apply(s, e).pipe >= s.pipe
  {
  }

  /** The loop is to stop, and cannot block on the way: a wake-up byte waits for it if it is to pass
      through `run` once more. */
  predicate Stopping(s: State) {
    s.stopping && (s.loop == WantEntered || s.loop == Inside ==> s.pipe > 0)
  }

  /** The acquire inside `stop` (line 63) brings that about: with `stopping` set, once any acquirer has
      written its byte and still has its guard, the loop is bound to stop. */
  lemma AcquireStops(s: State, t: nat)
    requires Inv(s) && s.stopping && t < |s.threads| && Woken(s.threads[t])
    ensures Stopping(s)
  {
    assert HasHold(s.threads[t]);
  }

  lemma StaysStopping(s: State, e: Event)
    requires Stopping(s) && Enabled(s, e)
    ensures Stopping(Apply(s, e)) && ToEnd(Apply(s, e).loop) <= ToEnd(s.loop)
    ensures LoopEvent(e) ==> ToEnd(Apply(s, e).loop) < ToEnd(s.loop)
  {
  }

  /** From then on the loop thread gets to its end: there is always a step, its own or of the holder it
      waits for, that brings it closer and needs no outside event, and no step takes it back. */
  lemma LoopGetsToItsEnd(s: State) returns (e: Event)
    requires Inv(s) && Stopping(s) && s.loop != Ended
    ensures Enabled(s, e) && (LoopEvent(e) || HolderStep(s, e)) && (e.LoopReturn? ==> !e.io)
    ensures
      || ToEnd(Apply(s, e).loop) < ToEnd(s.loop)
      || (Apply(s, e).loop == s.loop && HolderLeft(Apply(s, e)) < HolderLeft(s))
  {
    if s.loop == Inside { e := LoopReturn(1, false); } else { e := SomebodyMoves(s); }
    if LoopEvent(e) { StaysStopping(s, e); }
  }

  datatype Actor = TheLoop | Acquirer(t: nat)

  predicate Owns(h: Holder, a: Actor) {
    match a
    case TheLoop => h == ByLoop
    case Acquirer(t) => h == By(t)
  }

  /** `a` is blocked on a mutex that `b` holds. */
  predicate WaitsFor(s: State, a: Actor, b: Actor) {
    match a
    case TheLoop =>
      (s.loop == WantEntered && Owns(s.entered, b)) || (s.loop == WantExited && Owns(s.exited, b))
    case Acquirer(t) =>
      (At(s, t, AtExited) && Owns(s.exited, b)) || (At(s, t, AtEntered) && Owns(s.entered, b))
  }

  function WaitRank(s: State, a: Actor): nat {
    match a
    case TheLoop => if s.loop == WantEntered || s.loop == WantExited then 2 else 0
    case Acquirer(t) => if At(s, t, AtExited) then 3 else if At(s, t, AtEntered) then 1 else 0
  }

  lemma WaitsGoDown(s: State, a: Actor, b: Actor)
    requires Inv(s) && WaitsFor(s, a, b)
    ensures WaitRank(s, b) < WaitRank(s, a)
  {
    if b.Acquirer? {
      assert LocalState(s.threads[b.t]) && HasHold(s.threads[b.t]);
    }
  }

  ghost predicate WaitChain(s: State, path: seq<Actor>) {
    forall i | 0 <= i < |path| - 1 :: WaitsFor(s, path[i], path[i + 1])
  }

  /** No deadlock: no chain of lock waits, of any length, comes back to where it began. */
  lemma {:induction false} NoWaitCycle(s: State, path: seq<Actor>)
    requires Inv(s) && |path| >= 2 && WaitChain(s, path)
    ensures path[0] != path[|path| - 1]
    ensures WaitRank(s, path[|path| - 1]) < WaitRank(s, path[0])
  {
    WaitsGoDown(s, path[0], path[1]);
    if |path| > 2 {
      assert WaitChain(s, path[1..]) by {
        forall i | 0 <= i < |path[1..]| - 1 ensures WaitsFor(s, path[1..][i], path[1..][i + 1]) {
          assert WaitsFor(s, path[i + 1], path[i + 2]);
        }
      }
      NoWaitCycle(s, path[1..]);
    }
  }
}
