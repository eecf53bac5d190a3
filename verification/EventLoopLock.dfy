/** src/async/EventLoop.cpp and src/async/EventLoopLock.h in their own form: the loop object whose
    fields the loop thread and the acquirers change, and the move-only guard. */
module EventLoops {
  import opened Util
  import opened Loops

  class EventLoop {
    var loop: LoopPc
    var threads: seq<Thread>
    var eventLoopEnteredLock: Holder
    var eventLoopExitedLock: Holder
    var currentExitedLockOwner: Option<nat>
    var unreadBytes: nat
    var stopping: bool
    ghost var entries: nat
    ghost var wasInside: bool

    ghost function View(): State
      reads this
    {
      State(loop, threads, eventLoopEnteredLock, eventLoopExitedLock, currentExitedLockOwner,
            unreadBytes, stopping, entries, wasInside)
    }

    constructor (n: nat)
      ensures View() == Initial(n) && Inv(View())
    {
      loop, threads := Top, seq(n, _ => Thread(Outside, false, 0));
      eventLoopEnteredLock, eventLoopExitedLock, currentExitedLockOwner := Free, Free, None;
      unreadBytes, stopping, entries, wasInside := 0, false, 0, false;
    }

    method Move(t: nat, p: Pc)
      requires t < |threads|
      modifies this`threads
      ensures threads == old(threads)[t := old(threads[t]).(pc := p)]
    {
      threads := threads[t := threads[t].(pc := p)];
    }

    /** Lines 75-77: the recorded owner and the loop thread itself get a guard that does nothing,
        others go for the mutex. A null guard of the loop thread leaves no trace in the state. */
    method AcquireEventLoopLock(caller: Actor) returns (empty: bool)
      requires Inv(View()) && (caller.Acquirer? ==> Enabled(View(), Acquire(caller.t)))
      modifies this
      ensures Inv(View())
      ensures View() == if caller.Acquirer? then old(Apply(View(), Acquire(caller.t))) else old(View())
      ensures empty <==> caller.TheLoop? || old(Holding(View(), caller.t))
    {
      empty := caller.TheLoop? || currentExitedLockOwner == Some(caller.t);
      if caller.Acquirer? {
        var t := caller.t;
        StepKeeps(View(), Acquire(t));
        if empty {
          threads := threads[t := threads[t].(nulls := threads[t].nulls + 1)];
        } else {
          Move(t, AtExited);
        }
      }
    }

    /** Lines 78-79. */
    method LockExitedLock(t: nat)
      requires Inv(View()) && Enabled(View(), LockExited(t))
      modifies this
      ensures Inv(View()) && View() == old(Apply(View(), LockExited(t)))
    {
      StepKeeps(View(), LockExited(t));
      eventLoopExitedLock := By(t);
      threads := threads[t := threads[t].(pc := Claiming, live := true)];
      entries, wasInside := 0, InRun(loop);
    }

    /** Line 80. */
    method RecordOwner(t: nat)
      requires Inv(View()) && Enabled(View(), SetOwner(t))
      modifies this
      ensures Inv(View()) && View() == old(Apply(View(), SetOwner(t)))
    {
      StepKeeps(View(), SetOwner(t));
      currentExitedLockOwner := Some(t);
      Move(t, Waking);
    }

    /** Lines 81-84. */
    method WakeLoop(t: nat)
      requires Inv(View()) && Enabled(View(), WriteByte(t))
      modifies this
      ensures Inv(View()) && View() == old(Apply(View(), WriteByte(t)))
      ensures loop == Inside ==> Enabled(View(), LoopReturn(1, false))
    {
      StepKeeps(View(), WriteByte(t));
      unreadBytes := unreadBytes + 1;
      Move(t, AtEntered);
    }

    /** Line 85. */
    method LockEnteredLock(t: nat)
      requires Inv(View()) && Enabled(View(), LockEntered(t))
      modifies this
      ensures Inv(View()) && View() == old(Apply(View(), LockEntered(t)))
      ensures !InRun(loop)
    {
      StepKeeps(View(), LockEntered(t));
      eventLoopEnteredLock := By(t);
      Move(t, HasEntered);
    }

    /** Lines 86-87: the acquire returns. */
    method UnlockEnteredLock(t: nat)
      requires Inv(View()) && Enabled(View(), UnlockEntered(t))
      modifies this
      ensures Inv(View()) && View() == old(Apply(View(), UnlockEntered(t))) && Holding(View(), t)
    {
      StepKeeps(View(), UnlockEntered(t));
      assert LocalState(threads[t]);
      eventLoopEnteredLock := Free;
      Move(t, Outside);
    }

    /** Line 103, reached from the destructor of the live guard. */
    method ClearOwner(t: nat)
      requires Inv(View()) && Enabled(View(), DropLive(t))
      modifies this
      ensures Inv(View()) && View() == old(Apply(View(), DropLive(t)))
    {
      StepKeeps(View(), DropLive(t));
      currentExitedLockOwner := None;
      threads := threads[t := threads[t].(pc := Unlocking, live := false)];
    }

    /** Line 104. */
    method UnlockExitedLock(t: nat)
      requires Inv(View()) && Enabled(View(), UnlockExited(t))
      modifies this
      ensures Inv(View()) && View() == old(Apply(View(), UnlockExited(t)))
    {
      StepKeeps(View(), UnlockExited(t));
      eventLoopExitedLock := Free;
      Move(t, Outside);
    }

    /** Line 61. */
    method RequestStop()
      requires Inv(View())
      modifies this
      ensures Inv(View()) && View() == old(Apply(View(), Stop)) && stopping
    {
      StepKeeps(View(), Stop);
      stopping := true;
    }

    /** One step of the thread of lines 44-50. `bytes` and `io` are what `run` finds. */
    method LoopStep(e: Event)
      requires Inv(View()) && LoopEvent(e) && Enabled(View(), e)
      modifies this
      ensures Inv(View()) && View() == old(Apply(View(), e))
      ensures loop == Ended <==> old(loop) == Top && stopping
      ensures loop == Inside <==> old(loop) == WantEntered
      ensures old(loop) == HasExited ==> loop == Top
    {
      StepKeeps(View(), e);
      match e
      case LoopTest => loop := if stopping then Ended else WantEntered;
      case LoopEnter => loop, eventLoopEnteredLock, entries := Inside, ByLoop, entries + 1;
      case LoopReturn(bytes, io) => loop, unreadBytes := Left, unreadBytes - bytes;
      case LoopUnlockEntered => loop, eventLoopEnteredLock := WantExited, Free;
      case LoopLockExited => loop, eventLoopExitedLock := HasExited, ByLoop;
      case LoopUnlockExited => loop, eventLoopExitedLock := Top, Free;
    }
  }

  /** A thread's live guard is gone and its mutex free: lines 103 and 104. */
  function Released(s: State, t: nat): State
    requires Enabled(s, DropLive(t))
  {
    Apply(Apply(s, DropLive(t)), UnlockExited(t))
  }

  class EventLoopLock {
    var el: EventLoop?

    constructor (el: EventLoop?)
      ensures this.el == el
    {
      this.el := el;
    }

    /** The move constructor: the new guard takes over, the old one is left empty. */
    constructor Take(lock: EventLoopLock)
      modifies lock
      ensures el == old(lock.el) && lock.el == null
    {
      el := lock.el;
      new;
      lock.el := null;
    }

    /** The destructor: `unlockEventLoop`, with nothing in between when it is called alone. A null
        guard touches nothing. */
    method Destroy(t: nat)
      requires el != null ==> Inv(el.View()) && Enabled(el.View(), DropLive(t))
      modifies el
      ensures el != null ==> Inv(el.View()) && el.View() == old(Released(el.View(), t))
    {
      if el != null {
        el.ClearOwner(t);
        el.UnlockExitedLock(t);
      }
    }
  }

  /** Of a guard and the one it was moved into, destroyed one after the other, exactly one releases,
      and it releases the loop the first one was made for. */
  method MovedGuardReleasesOnce(el: EventLoop, t: nat)
    requires Inv(el.View()) && Enabled(el.View(), DropLive(t))
    modifies el
    ensures Inv(el.View()) && el.View() == old(Released(el.View(), t))
    ensures el.eventLoopExitedLock == Free && el.currentExitedLockOwner == None
  {
    var first := new EventLoopLock(el);
    var second := new EventLoopLock.Take(first);
    first.Destroy(t);
    second.Destroy(t);
  }
}
