/** Coroutines that await their children on creation: src/async/Promise.h, ChainedAwaitObject.h and
    FinalAwait.h as a machine over stacks of promises, against plain nested calls.

    Creating a child and joining it is one step of its parent: the child runs at once until it
    suspends for the first time or ends, and in the first case the whole chain of creators has joined
    by the time anything else happens. */
module Join {
  import opened Util

  datatype Outcome = Val(v: int) | Exc(e: int)

  /** A coroutine body. `Await` creates and awaits a child and goes on by its outcome; an outcome the
      body does not handle ends it with the same outcome. `Raised` suspends and is failed from outside
      by `raiseException`, like a socket read whose connection closes. A read whose socket is closing
      already is failed inside its first suspension, before its parent has joined it: that is `Fail`. */
  datatype Prog =
    | Done(v: int)
    | Fail(e: int)
    | Pause(next: Prog)
    | Raised(e: int)
    | Await(child: Prog, k: imap<Outcome, Prog>)

  function After(k: imap<Outcome, Prog>, o: Outcome): Prog {
    if o in k then k[o] else if o.Val? then Done(o.v) else Fail(o.e)
  }

  /** The meaning of a body as nested calls. */
  function Eval(p: Prog): Outcome
    decreases p, 1
  {
    match p
    case Done(v) => Val(v)
    case Fail(e) => Exc(e)
    case Pause(next) => Eval(next)
    case Raised(e) => Exc(e)
    case Await(child, k) => EvalAfter(p, Eval(child))
  }

  function EvalAfter(p: Prog, o: Outcome): Outcome
    requires p.Await?
    decreases p, 0
  {
    if o in p.k then Eval(p.k[o]) else o
  }

  lemma EvalAwait(child: Prog, k: imap<Outcome, Prog>)
    ensures Eval(Await(child, k)) == Eval(After(k, Eval(child)))
  {
  }

  // ------------------------------------------------------------------ promises

  /** `PromiseBase` and its value. `joined` says that `callerCoroutine` is set. */
  datatype Promise = Promise(joined: bool, exception: Option<int>, val: int,
                             mayBeChecked: bool, checked: bool)

  const FRESH := Promise(false, None, 0, false, false)

  /** `unhandled_exception` or `raiseException` of a joined promise. */
  function Store(pr: Promise, e: int): Promise {
    pr.(exception := Some(e), mayBeChecked := true)
  }

  /** `return_value` and `final_suspend`. */
  function Ret(pr: Promise, v: int): Promise {
    pr.(val := v, mayBeChecked := true)
  }

  /** What `await_resume` hands to the parent. */
  function Outcomes(pr: Promise): Outcome {
    if pr.exception.Some? then Exc(pr.exception.value) else Val(pr.val)
  }

  /** The promise after `getAndClearExceptionPtr`. */
  function Cleared(pr: Promise): Promise {
    pr.(exception := None, checked := true)
  }

  /** The assertions of `~PromiseBase`. */
  predicate MayBeDestroyed(pr: Promise) {
    pr.exception.None? && pr.checked
  }

  // ------------------------------------------------------------------ the machine

  /** A coroutine waiting for its child. */
  datatype Parent = Parent(promise: Promise, k: imap<Outcome, Prog>)

  datatype Code = Running(p: Prog) | Suspended(p: Prog) | Ended

  /** How a root ends: its creator, or whoever holds its handle, gets the outcome, or the exception
      leaves through the thread that resumed or failed it, where nobody handles it. */
  datatype Ending = Returned(o: Outcome) | Escaped(e: int)

  /** One root coroutine with its chain of awaited children; the last parent is the nearest, the first
      one is the root. Nobody joins a root. `away` says that it has suspended, so that its creating
      call has returned. `stored`, `handed` and `unchecked` are history: exceptions put into promises,
      exceptions taken out by a parent, and promises destroyed without having been checked. */
  datatype Task =
    | Live(code: Code, top: Promise, parents: seq<Parent>, away: bool,
           stored: seq<int>, handed: seq<int>, unchecked: nat)
    | Over(ending: Ending, stored: seq<int>, handed: seq<int>, unchecked: nat)

  ghost function Start(p: Prog): Task {
    Live(Running(p), FRESH, [], false, [], [], 0)
  }

  /** All but the root have a parent that joins them. */
  ghost function JoinAll(parents: seq<Parent>): (r: seq<Parent>)
    ensures |r| == |parents| && (parents != [] ==> r[0] == parents[0])
    ensures forall i | 0 < i < |r| :: r[i].k == parents[i].k && r[i].promise == parents[i].promise.(joined := true)
  {
    if |parents| <= 1 then parents else
    var n := |parents| - 1;
    JoinAll(parents[..n]) + [parents[n].(promise := parents[n].promise.(joined := true))]
  }

  /** The parent, if any, goes on with the child's outcome. */
  ghost function GoOn(t: Task, o: Outcome, handed: seq<int>, unchecked: nat): Task
    requires t.Live?
  {
    if t.parents == [] then Over(Returned(o), t.stored, handed, unchecked) else
    var n := |t.parents| - 1;
    Live(Running(After(t.parents[n].k, o)), t.parents[n].promise, t.parents[..n], t.away,
         t.stored, handed, unchecked)
  }

  ghost function Suspend(t: Task, p: Prog): Task
    requires t.Live?
  {
    t.(code := Suspended(p), top := t.top.(joined := t.parents != []), parents := JoinAll(t.parents), away := true)
  }

  /** An exception leaves a body that is not joined: it is thrown out of the creating call, and the
      promise goes away without having been checked. A root that has been suspended has no such call
      on the stack: the exception leaves the thread's `resume` or the event handler. */
  ghost function Rethrow(t: Task, e: int): Task
    requires t.Live?
  {
    if t.parents == [] && t.away then Over(Escaped(e), t.stored, t.handed, t.unchecked)
    else GoOn(t, Exc(e), t.handed, t.unchecked + 1)
  }

  /** An exception leaves the body. Joined: it is stored for the parent. */
  ghost function Throw(t: Task, e: int): Task
    requires t.Live?
  {
    if t.top.joined then t.(code := Ended, top := Store(t.top, e), stored := t.stored + [e])
    else Rethrow(t, e)
  }

  /** `final_suspend` transfers to the parent, whose `await_resume` takes value and exception. The
      promise of a root stays with whoever holds its handle. */
  ghost function Transfer(t: Task): Task
    requires t.Live?
  {
    if t.parents == [] then Over(Returned(Outcomes(t.top)), t.stored, t.handed, t.unchecked) else
    GoOn(t, Outcomes(t.top),
         if t.top.exception.Some? then t.handed + [t.top.exception.value] else t.handed,
         t.unchecked + (if MayBeDestroyed(Cleared(t.top)) then 0 else 1))
  }

  /** The next step of a live task: its own, a resumption by the pool, or the outside failure of a
      suspended coroutine. When it happens is up to the schedule. */
  ghost function Advance(t: Task): Task
    requires t.Live?
  {
    match t.code
    case Running(p) =>
      (match p
       case Done(v) => t.(code := Ended, top := Ret(t.top, v))
       case Fail(e) => Throw(t, e)
       case Pause(next) => Suspend(t, next)
       case Raised(e) => Suspend(t, p)
       case Await(child, k) =>
         t.(code := Running(child), top := FRESH, parents := t.parents + [Parent(t.top, k)]))
    case Suspended(p) =>
      if !p.Raised? then t.(code := Running(p))
      else if t.top.joined then
        t.(code := Suspended(Done(0)), top := Store(t.top, p.e), stored := t.stored + [p.e])
      else Rethrow(t, p.e)
    case Ended => Transfer(t)
  }

  // ------------------------------------------------------------------ the invariant

  /** The outcome of a chain of parents once the innermost child ends with `o`. */
  ghost function Finish(o: Outcome, parents: seq<Parent>): Outcome
    decreases |parents|
  {
    if parents == [] then o else
    var n := |parents| - 1;
    Finish(Eval(After(parents[n].k, o)), parents[..n])
  }

  /** Does the body, or a child it creates, suspend? */
  function Suspends(p: Prog): bool
    decreases p, 1
  {
    match p
    case Done(v) => false
    case Fail(e) => false
    case Pause(next) => true
    case Raised(e) => true
    case Await(child, k) => Suspends(child) || SuspendsAfter(p, Eval(child))
  }

  function SuspendsAfter(p: Prog, o: Outcome): bool
    requires p.Await?
    decreases p, 0
  {
    o in p.k && Suspends(p.k[o])
  }

  lemma SuspendsAwait(child: Prog, k: imap<Outcome, Prog>)
    ensures Suspends(Await(child, k)) == (Suspends(child) || Suspends(After(k, Eval(child))))
  {
  }

  /** Will anything suspend after the innermost child has ended with `o`? */
  ghost function SuspendsFrom(o: Outcome, parents: seq<Parent>): bool
    decreases |parents|
  {
    parents != [] &&
    var p := After(parents[|parents| - 1].k, o);
    Suspends(p) || SuspendsFrom(Eval(p), parents[..|parents| - 1])
  }

  /** The outcome the innermost coroutine is heading for. */
  ghost function Heading(t: Task): Outcome
    requires t.Live?
  {
    if t.top.exception.Some? then Exc(t.top.exception.value)
    else match t.code
      case Running(p) => Eval(p)
      case Suspended(p) => Eval(p)
      case Ended => Val(t.top.val)
  }

  /** Has the root suspended, or will it? */
  ghost predicate GoesAway(t: Task)
    requires t.Live?
  {
    t.away || (t.code.Running? && Suspends(t.code.p)) || SuspendsFrom(Heading(t), t.parents)
  }

  /** How a root with outcome `o` ends. */
  function EndingOf(o: Outcome, away: bool): Ending {
    if o.Exc? && away then Escaped(o.e) else Returned(o)
  }

  /** The ending of the whole task. */
  ghost function Meaning(t: Task): Ending {
    if t.Over? then t.ending else EndingOf(Finish(Heading(t), t.parents), GoesAway(t))
  }

  function Pending(t: Task): seq<int>
    requires t.Live?
  {
    if t.top.exception.Some? then [t.top.exception.value] else []
  }

  predicate Untouched(pr: Promise) {
    pr.exception.None? && !pr.mayBeChecked && !pr.checked
  }

  /** Who is joined: never the root; whoever has suspended, with all between it and the root. */
  ghost predicate Joins(t: Task)
    requires t.Live?
  {
    && (if t.parents == [] then !t.top.joined else !t.parents[0].promise.joined)
    && (t.code.Suspended? ==> t.away && (t.parents != [] ==> t.top.joined))
    && (t.top.exception.Some? ==> t.top.joined)
    && (t.top.joined ==> t.away && forall i | 0 < i < |t.parents| :: t.parents[i].promise.joined)
    && (forall i | 0 < i < |t.parents| :: t.parents[i].promise.joined ==> t.away)
    && (forall i, j | 0 < i < j < |t.parents| :: t.parents[j].promise.joined ==> t.parents[i].promise.joined)
  }

  ghost predicate Inv(t: Task) {
    && (t.Over? ==> t.stored == t.handed)
    && (t.Live? ==>
      && t.stored == t.handed + Pending(t)
      && (forall i | 0 <= i < |t.parents| :: Untouched(t.parents[i].promise))
      && !t.top.checked
      && (t.top.mayBeChecked <==> t.code == Ended || t.top.exception.Some?)
      && (t.code != Ended && t.top.exception.Some? ==> t.code.p == Done(0))
      && Joins(t))
  }

  lemma {:induction false} FinishJoined(o: Outcome, parents: seq<Parent>)
    ensures Finish(o, JoinAll(parents)) == Finish(o, parents)
    decreases |parents|
  {
    if |parents| > 1 {
      var n := |parents| - 1;
      assert JoinAll(parents)[..n] == JoinAll(parents[..n]);
      FinishJoined(Eval(After(parents[n].k, o)), parents[..n]);
    }
  }

  lemma AwaitMeaning(t: Task)
    requires t.Live? && Inv(t) && t.code.Running? && t.code.p.Await?
    ensures Meaning(Advance(t)) == Meaning(t)
  {
    EvalAwait(t.code.p.child, t.code.p.k);
    SuspendsAwait(t.code.p.child, t.code.p.k);
    assert (t.parents + [Parent(t.top, t.code.p.k)])[..|t.parents|] == t.parents;
  }

  lemma SuspendMeaning(t: Task)
    requires t.Live? && Inv(t) && t.code.Running? && (t.code.p.Pause? || t.code.p.Raised?)
    ensures Meaning(Advance(t)) == Meaning(t)
  {
    FinishJoined(Heading(t), t.parents);
  }

  lemma GoOnMeaning(t: Task, o: Outcome, handed: seq<int>, unchecked: nat)
    requires t.Live? && t.parents != [] && Untouched(t.parents[|t.parents| - 1].promise)
    ensures Meaning(GoOn(t, o, handed, unchecked))
            == EndingOf(Finish(o, t.parents), t.away || SuspendsFrom(o, t.parents))
  {
  }

  /** Every step keeps the ending the task is heading for. */
  lemma AdvanceMeaning(t: Task)
    requires t.Live? && Inv(t)
    ensures Meaning(Advance(t)) == Meaning(t)
  {
    match t.code
    case Running(p) =>
      match p {
        case Done(v) =>
        case Fail(e) => if t.parents != [] { GoOnMeaning(t, Exc(e), t.handed, t.unchecked + 1); }
        case Await(_, _) => AwaitMeaning(t);
        case _ => SuspendMeaning(t);
      }
    case Suspended(p) =>
    case Ended =>
      if t.parents != [] { GoOnMeaning(t, Outcomes(t.top), Advance(t).handed, Advance(t).unchecked); }
  }

  lemma GoOnKeeps(t: Task, o: Outcome, handed: seq<int>, unchecked: nat)
    requires t.Live? && Joins(t) && t.stored == handed
    requires forall i | 0 <= i < |t.parents| :: Untouched(t.parents[i].promise)
    ensures Inv(GoOn(t, o, handed, unchecked))
  {
  }

  lemma SuspendKeeps(t: Task, p: Prog)
    requires t.Live? && Inv(t) && t.top.exception.None? && t.code.Running?
    ensures Inv(Suspend(t, p))
  {
  }

  lemma AwaitKeeps(t: Task)
    requires t.Live? && Inv(t) && t.code.Running? && t.code.p.Await?
    ensures Inv(Advance(t))
  {
  }

  lemma AdvanceKeeps(t: Task)
    requires t.Live? && Inv(t)
    ensures Inv(Advance(t))
  {
    match t.code
    case Running(p) =>
      match p {
        case Done(v) =>
        case Fail(e) => if !t.top.joined { GoOnKeeps(t, Exc(e), t.handed, t.unchecked + 1); }
        case Pause(next) => SuspendKeeps(t, next);
        case Raised(e) => SuspendKeeps(t, p);
        case Await(_, _) => AwaitKeeps(t);
      }
    case Suspended(p) =>
    case Ended =>
      if t.parents != [] { GoOnKeeps(t, Outcomes(t.top), Advance(t).handed, Advance(t).unchecked); }
  }

  // ------------------------------------------------------------------ every task ends

  /** Steps a body takes at most, with those of the children it creates. */
  function Cost(p: Prog): nat
    decreases p, 1
  {
    match p
    case Done(v) => 2
    case Fail(e) => 2
    case Pause(next) => 2 + Cost(next)
    case Raised(e) => 5
    case Await(child, k) => 1 + Cost(child) + CostAfter(p, Eval(child))
  }

  function CostAfter(p: Prog, o: Outcome): nat
    requires p.Await?
    decreases p, 0
  {
    if o in p.k then Cost(p.k[o]) else 2
  }

  lemma CostAwait(child: Prog, k: imap<Outcome, Prog>)
    ensures Cost(Await(child, k)) == 1 + Cost(child) + Cost(After(k, Eval(child)))
  {
  }

  ghost function CostFrom(o: Outcome, parents: seq<Parent>): nat
    decreases |parents|
  {
    if parents == [] then 0 else
    var p := After(parents[|parents| - 1].k, o);
    Cost(p) + CostFrom(Eval(p), parents[..|parents| - 1])
  }

  lemma {:induction false} CostJoined(o: Outcome, parents: seq<Parent>)
    ensures CostFrom(o, JoinAll(parents)) == CostFrom(o, parents)
    decreases |parents|
  {
    if |parents| > 1 {
      var n := |parents| - 1;
      assert JoinAll(parents)[..n] == JoinAll(parents[..n]);
      CostJoined(Eval(After(parents[n].k, o)), parents[..n]);
    }
  }

  /** Steps left. */
  ghost function Left(t: Task): nat {
    if t.Over? then 0 else
    (match t.code
     case Running(p) => Cost(p)
     case Suspended(p) => (if p.Raised? then 4 else 1 + Cost(p))
     case Ended => 1)
    + CostFrom(Heading(t), t.parents)
  }

  lemma AwaitEnds(t: Task)
    requires t.Live? && Inv(t) && t.code.Running? && t.code.p.Await?
    ensures Left(Advance(t)) < Left(t)
  {
    EvalAwait(t.code.p.child, t.code.p.k);
    CostAwait(t.code.p.child, t.code.p.k);
    assert (t.parents + [Parent(t.top, t.code.p.k)])[..|t.parents|] == t.parents;
  }

  lemma SuspendEnds(t: Task)
    requires t.Live? && t.code.Running? && (t.code.p.Pause? || t.code.p.Raised?) && t.top.exception.None?
    ensures Left(Advance(t)) < Left(t)
  {
    CostJoined(Heading(t), t.parents);
  }

  lemma GoOnEnds(t: Task, o: Outcome, handed: seq<int>, unchecked: nat)
    requires t.Live? && (t.parents != [] ==> t.parents[|t.parents| - 1].promise.exception.None?)
    ensures Left(GoOn(t, o, handed, unchecked)) == CostFrom(o, t.parents)
  {
  }

  lemma RunningEnds(t: Task)
    requires t.Live? && Inv(t) && t.code.Running?
    ensures Left(Advance(t)) < Left(t)
  {
    match t.code.p
    case Done(v) =>
    case Fail(e) => GoOnEnds(t, Exc(e), t.handed, t.unchecked + 1);
    case Await(_, _) => AwaitEnds(t);
    case _ => SuspendEnds(t);
  }

  lemma AdvanceEnds(t: Task)
    requires t.Live? && Inv(t)
    ensures Left(Advance(t)) < Left(t)
  {
    match t.code
    case Running(p) => RunningEnds(t);
    case Suspended(p) =>
    case Ended =>
      if t.parents != [] { GoOnEnds(t, Outcomes(t.top), Advance(t).handed, Advance(t).unchecked); }
  }

  // ------------------------------------------------------------------ exceptions before the join

  /** How many coroutines of the tree end by an exception before anything in them suspends. The body
      itself is not counted once it has suspended, which is what `settled` says. */
  function Early(p: Prog, settled: bool): nat
    decreases p, 1
  {
    match p
    case Done(v) => 0
    case Fail(e) => if settled then 0 else 1
    case Pause(next) => Early(next, true)
    case Raised(e) => 0
    case Await(child, k) =>
      Early(child, false) + EarlyAfter(p, Eval(child), settled || Suspends(child))
  }

  function EarlyAfter(p: Prog, o: Outcome, settled: bool): nat
    requires p.Await?
    decreases p, 0
  {
    if o in p.k then Early(p.k[o], settled) else if o.Exc? && !settled then 1 else 0
  }

  lemma EarlyAwait(child: Prog, k: imap<Outcome, Prog>, settled: bool)
    ensures Early(Await(child, k), settled)
            == Early(child, false) + Early(After(k, Eval(child)), settled || Suspends(child))
  {
  }

  /** A coroutine of the chain has suspended: it is joined, or it is the root and away. */
  ghost predicate SettledAt(parents: seq<Parent>, n: nat, away: bool)
    requires n < |parents|
  {
    if n == 0 then away else parents[n].promise.joined
  }

  ghost function EarlyFrom(o: Outcome, settled: bool, away: bool, parents: seq<Parent>): nat
    decreases |parents|
  {
    if parents == [] then 0 else
    var n := |parents| - 1;
    var p := After(parents[n].k, o);
    Early(p, SettledAt(parents, n, away) || settled)
    + EarlyFrom(Eval(p), settled || Suspends(p), away, parents[..n])
  }

  lemma {:induction false} EarlyJoined(o: Outcome, settled: bool, away: bool, parents: seq<Parent>)
    ensures EarlyFrom(o, settled, true, JoinAll(parents)) == EarlyFrom(o, true, away, parents)
    decreases |parents|
  {
    if parents != [] {
      var n := |parents| - 1;
      assert JoinAll(parents)[..n] == JoinAll(parents[..n]);
      EarlyJoined(Eval(After(parents[n].k, o)), settled || Suspends(After(parents[n].k, o)), away, parents[..n]);
    }
  }

  /** With everybody settled, who suspended no longer matters. */
  lemma {:induction false} EarlyAllSettled(o: Outcome, settled: bool, parents: seq<Parent>)
    requires forall i | 0 < i < |parents| :: parents[i].promise.joined
    ensures EarlyFrom(o, settled, true, parents) == EarlyFrom(o, true, true, parents)
    decreases |parents|
  {
    if parents != [] {
      var n := |parents| - 1;
      var p := After(parents[n].k, o);
      EarlyAllSettled(Eval(p), settled || Suspends(p), parents[..n]);
    }
  }

  ghost predicate Settled(t: Task)
    requires t.Live?
  {
    if t.parents == [] then t.away else t.top.joined
  }

  /** Promises already lost, and those still to be lost. */
  ghost function Lost(t: Task): nat {
    t.unchecked +
    if t.Over? then 0 else
    match t.code
    case Running(p) =>
      (if t.top.exception.Some? then 0 else Early(p, Settled(t)))
      + EarlyFrom(Heading(t), Suspends(p), t.away, t.parents)
    case Suspended(p) =>
      (if t.top.exception.Some? then 0 else Early(p, true)) + EarlyFrom(Heading(t), true, true, t.parents)
    case Ended => EarlyFrom(Heading(t), false, t.away, t.parents)
  }

  lemma AwaitLost(t: Task)
    requires t.Live? && Inv(t) && t.code.Running? && t.code.p.Await?
    ensures Lost(Advance(t)) == Lost(t)
  {
    EvalAwait(t.code.p.child, t.code.p.k);
    EarlyAwait(t.code.p.child, t.code.p.k, Settled(t));
    SuspendsAwait(t.code.p.child, t.code.p.k);
    assert (t.parents + [Parent(t.top, t.code.p.k)])[..|t.parents|] == t.parents;
    AwaitEarly(t.code.p.child, t.code.p.k, t.top, t.away, t.parents);
  }

  /** The parent just pushed is the one whose rest is counted next. */
  lemma AwaitEarly(child: Prog, k: imap<Outcome, Prog>, top: Promise, away: bool, parents: seq<Parent>)
    ensures var o, p := Eval(child), After(k, Eval(child));
            EarlyFrom(o, Suspends(child), away, parents + [Parent(top, k)])
            == Early(p, (if parents == [] then away else top.joined) || Suspends(child))
               + EarlyFrom(Eval(p), Suspends(child) || Suspends(p), away, parents)
  {
    assert (parents + [Parent(top, k)])[..|parents|] == parents;
  }

  lemma SuspendLost(t: Task)
    requires t.Live? && Inv(t) && t.code.Running? && (t.code.p.Pause? || t.code.p.Raised?)
    ensures Lost(Advance(t)) == Lost(t)
  {
    EarlyJoined(Heading(t), true, t.away, t.parents);
  }

  lemma ResumeLost(t: Task)
    requires t.Live? && Inv(t) && t.code.Suspended?
    ensures Lost(Advance(t)) == Lost(t)
  {
    EarlyAllSettled(Heading(t), Suspends(t.code.p), t.parents);
  }

  lemma AdvanceLost(t: Task)
    requires t.Live? && Inv(t)
    ensures Lost(Advance(t)) == Lost(t)
  {
    match t.code
    case Running(p) =>
      match p {
        case Done(v) =>
        case Fail(e) =>
        case Await(_, _) => AwaitLost(t);
        case _ => SuspendLost(t);
      }
    case Suspended(p) => ResumeLost(t);
    case Ended =>
  }

  // ------------------------------------------------------------------ any number of roots on a pool

  /** The pool's choices: which task takes its next step. An escaped exception ends the process, so a
      run of the program is a schedule up to its first escape; the model lets the others go on. */
  ghost predicate Schedule(ts: seq<Task>, order: seq<nat>)
    decreases |order|
  {
    order == [] ||
    (order[0] < |ts| && ts[order[0]].Live? && Schedule(ts[order[0] := Advance(ts[order[0]])], order[1..]))
  }

  ghost function Reached(ts: seq<Task>, order: seq<nat>): seq<Task>
    requires Schedule(ts, order)
    decreases |order|
  {
    if order == [] then ts else Reached(ts[order[0] := Advance(ts[order[0]])], order[1..])
  }

  /** Whatever the schedule, each task keeps its meaning, its losses and its bound on steps. */
  lemma {:induction false} ScheduleKeeps(ts: seq<Task>, order: seq<nat>, i: nat)
    requires i < |ts| && Schedule(ts, order) && (forall j | 0 <= j < |ts| :: Inv(ts[j]))
    ensures |Reached(ts, order)| == |ts| && Inv(Reached(ts, order)[i])
    ensures Meaning(Reached(ts, order)[i]) == Meaning(ts[i])
    ensures Lost(Reached(ts, order)[i]) == Lost(ts[i])
    ensures Left(Reached(ts, order)[i]) + Occ(order, i) <= Left(ts[i])
    decreases |order|
  {
    if order != [] {
      var j := order[0];
      AdvanceKeeps(ts[j]);
      AdvanceMeaning(ts[j]);
      AdvanceLost(ts[j]);
      AdvanceEnds(ts[j]);
      ScheduleKeeps(ts[j := Advance(ts[j])], order[1..], i);
    }
  }

  ghost function StartAll(ps: seq<Prog>): seq<Task> {
    seq(|ps|, i requires 0 <= i < |ps| => Start(ps[i]))
  }

  lemma Starts(p: Prog)
    ensures Inv(Start(p)) && Meaning(Start(p)) == EndingOf(Eval(p), Suspends(p))
    ensures Lost(Start(p)) == Early(p, false) && Left(Start(p)) == Cost(p)
  {
  }

  lemma AllStart(ps: seq<Prog>)
    ensures forall j | 0 <= j < |ps| :: StartAll(ps)[j] == Start(ps[j]) && Inv(StartAll(ps)[j])
  {
    forall j | 0 <= j < |ps| { Starts(ps[j]); }
  }

  lemma EndsSoon(t: Task)
    requires t.Live?
    ensures Left(t) > 0
  {
  }

  /** Main result: under any interleaving of suspensions and resumptions of any number of trees of
      coroutines, a root that is over has ended with the value or the exception of plain nested calls,
      every exception stored in a promise was handed over exactly once and in order, and the promises
      that went away unchecked are exactly the coroutines that threw before they suspended. The outcome
      reaches the root's creator if and only if it is a value or nothing in the tree suspends. */
  lemma LikeNestedCalls(ps: seq<Prog>, order: seq<nat>, i: nat)
    requires Schedule(StartAll(ps), order) && i < |ps|
    ensures i < |Reached(StartAll(ps), order)|
    ensures var t, o := Reached(StartAll(ps), order)[i], Eval(ps[i]);
            t.Over? ==>
              && (t.ending == Returned(o) <==> o.Val? || !Suspends(ps[i]))
              && (t.ending != Returned(o) ==> o.Exc? && t.ending == Escaped(o.e))
              && t.stored == t.handed
              && t.unchecked == Early(ps[i], false)
  {
    AllStart(ps);
    Starts(ps[i]);
    ScheduleKeeps(StartAll(ps), order, i);
  }

  /** And every root is over after at most `Cost` steps of its own, however they are interleaved. */
  lemma EndsInTime(ps: seq<Prog>, order: seq<nat>, i: nat)
    requires Schedule(StartAll(ps), order) && i < |ps|
    ensures Occ(order, i) <= Cost(ps[i])
    ensures i < |Reached(StartAll(ps), order)|
    ensures Occ(order, i) == Cost(ps[i]) ==> Reached(StartAll(ps), order)[i].Over?
  {
    AllStart(ps);
    Starts(ps[i]);
    ScheduleKeeps(StartAll(ps), order, i);
    var t := Reached(StartAll(ps), order)[i];
    if t.Live? { EndsSoon(t); }
  }

  /** The assertion that a promise is checked before it goes away fails in some run: a child that
      throws before it suspends. */
  lemma ThrowBeforeJoin() returns (p: Prog, order: seq<nat>)
    ensures Schedule(StartAll([p]), order) && |Reached(StartAll([p]), order)| == 1
    ensures var t := Reached(StartAll([p]), order)[0];
            t.Over? && t.ending == Returned(Exc(7)) && t.unchecked == 2
  {
    p, order := Await(Fail(7), imap[]), [0, 0, 0];
    var t0 := Start(p);
    var t1 := Advance(t0);
    var t2 := Advance(t1);
    var t3 := Advance(t2);
    assert StartAll([p]) == [t0];
    assert t2.code == Running(Fail(7));
    assert order[1..] == [0, 0] && order[1..][1..] == [0] && order[1..][1..][1..] == [];
    assert [t0][0 := t1] == [t1] && [t1][0 := t2] == [t2] && [t2][0 := t3] == [t3];
    assert Schedule([t2], [0]);
    assert Schedule([t1], [0, 0]);
  }

  /** An exception of a root that has suspended reaches nobody: it is not stored, not handed over, and
      leaves the worker that resumed the root. */
  lemma EscapesFromRoot(e: int) returns (p: Prog, order: seq<nat>)
    ensures Schedule(StartAll([p]), order)
    ensures Reached(StartAll([p]), order) == [Over(Escaped(e), [], [], 0)] && Eval(p) == Exc(e)
  {
    p, order := Pause(Fail(e)), [0, 0, 0];
    var t0 := Start(p);
    var t1 := Advance(t0);
    var t2 := Advance(t1);
    var t3 := Advance(t2);
    assert StartAll([p]) == [t0];
    assert order[1..] == [0, 0] && order[1..][1..] == [0] && order[1..][1..][1..] == [];
    assert [t0][0 := t1] == [t1] && [t1][0 := t2] == [t2] && [t2][0 := t3] == [t3];
    assert Schedule([t2], [0]);
    assert Schedule([t1], [0, 0]);
  }
}
