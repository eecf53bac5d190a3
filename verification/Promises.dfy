/** src/async/Promise.h with the await objects of src/async/ChainedAwaitObject.h and FinalAwait.h in
    their own form: an object whose fields are set step by step by the coroutine and its parent. */
module Promises {
  import opened Util
  import J = Join

  class Promise {
    var callerCoroutine: Option<nat>
    var exceptionPtr: Option<int>
    var mayBeChecked: bool
    var checked: bool
    var val: int

    function View(): J.Promise
      reads this
    {
      J.Promise(callerCoroutine.Some?, exceptionPtr, val, mayBeChecked, checked)
    }

    constructor ()
      ensures View() == J.FRESH && callerCoroutine == None
    {
      callerCoroutine, exceptionPtr := None, None;
      mayBeChecked, checked, val := false, false, 0;
    }

    /** `await_suspend`: a promise is joined once. */
    method SetCallerCoroutine(caller: nat)
      requires callerCoroutine == None
      modifies this
      ensures View() == old(View()).(joined := true) && callerCoroutine == Some(caller)
    {
      callerCoroutine := Some(caller);
    }

    /** `unhandled_exception` and `raiseException` (lines 14-21 and 67-75): without a caller the
        exception goes on to whoever runs the coroutine, otherwise it is kept for the caller. */
    method UnhandledException(e: int) returns (rethrown: bool)
      requires callerCoroutine.Some? ==> exceptionPtr.None?
      modifies this
      ensures callerCoroutine == old(callerCoroutine) && (rethrown <==> callerCoroutine == None)
      ensures View() == if rethrown then old(View()).(mayBeChecked := true) else J.Store(old(View()), e)
    {
      mayBeChecked := true;
      if callerCoroutine == None {
        return true;
      }
      exceptionPtr := Some(e);
      return false;
    }

    method ReturnValue(v: int)
      modifies this
      ensures View() == old(View()).(val := v) && callerCoroutine == old(callerCoroutine)
    {
      val := v;
    }

    /** `final_suspend` and `FinalAwait::await_suspend`: the handle to transfer to, or none. */
    method FinalSuspend() returns (next: Option<nat>)
      modifies this
      ensures View() == old(View()).(mayBeChecked := true) && callerCoroutine == old(callerCoroutine)
      ensures next == callerCoroutine
    {
      mayBeChecked := true;
      next := callerCoroutine;
    }

    /** `getAndClearExceptionPtr`. */
    method GetAndClearException() returns (e: Option<int>)
      requires mayBeChecked
      modifies this
      ensures e == old(exceptionPtr) && View() == J.Cleared(old(View()))
    {
      e := exceptionPtr;
      exceptionPtr := None;
      checked := true;
    }

    /** `await_resume` and the touch of its result: value or exception, and nothing is left behind. */
    method AwaitResume() returns (o: J.Outcome)
      requires mayBeChecked
      modifies this
      ensures o == J.Outcomes(old(View()))
      ensures J.MayBeDestroyed(View())
    {
      var v := val;
      var e := GetAndClearException();
      o := if e.Some? then J.Exc(e.value) else J.Val(v);
    }
  }

  /** A child that is joined by `caller` and then ends with `o` hands exactly `o` over, transfers to
      its caller, and can be destroyed. */
  method JoinedChild(child: Promise, caller: nat, o: J.Outcome) returns (r: J.Outcome, next: Option<nat>)
    requires child.View() == J.FRESH && child.callerCoroutine == None
    modifies child
    ensures r == o && next == Some(caller) && J.MayBeDestroyed(child.View())
  {
    child.SetCallerCoroutine(caller);
    match o {
      case Val(v) => child.ReturnValue(v);
      case Exc(e) =>
        var rethrown := child.UnhandledException(e);
        assert !rethrown;
    }
    next := child.FinalSuspend();
    r := child.AwaitResume();
  }
}
