/** src/async/ThreadPool.cpp as a step machine: workers popping from the back of a shared list under
    a mutex and a condition variable, and a shutdown that pushes one null per worker. A critical
    section is one step; pushing a task and notifying for it are two. */
module Pool {
  import opened Util

  datatype Worker =
    | Testing             // at the loop condition
    | Popping             // about to take the lock and look for a task
    | Asleep              // waiting on the condition variable
    | Running(task: nat)  // resuming a coroutine
    | Exited

  datatype State = State(
    workers: seq<Worker>,
    tasks: seq<Option<nat>>,      // None is the null pushed by `blockingStop`
    stop: bool,
    owed: nat,                    // tasks pushed whose notify_one has not happened
    nulls: nat,                   // nulls pushed by `blockingStop`
    pushed: seq<nat>, popped: seq<nat>)   // history

  datatype Event =
    | Test(w: nat)
    | Pop(w: nat)
    | Return(w: nat)               // the resumed coroutine suspends or ends
    | Push(task: nat)
    | Notify(target: Option<nat>)
    | Spurious(w: nat)
    | Stop
    | PushNull

  function Initial(n: nat): State {
    State(seq(n, _ => Testing), [], false, 0, 0, [], [])
  }

  predicate Is(s: State, w: nat, k: Worker) {
    w < |s.workers| && s.workers[w] == k
  }

  ghost predicate Enabled(s: State, e: Event) {
    match e
    case Test(w) => Is(s, w, Testing)
    case Pop(w) => Is(s, w, Popping)
    case Return(w) => w < |s.workers| && s.workers[w].Running?
    case Push(_) => true
    case Notify(target) =>
      s.owed > 0 &&
      (if target.Some? then Is(s, target.value, Asleep) else forall w: nat :: !Is(s, w, Asleep))
    case Spurious(w) => Is(s, w, Asleep)
    case Stop => !s.stop
    case PushNull => s.stop && s.nulls < |s.workers|
  }

  function Set(s: State, w: nat, k: Worker): State
    requires w < |s.workers|
  {
    s.(workers := s.workers[w := k])
  }

  /** Lines 21-27, then lines 28-34 for a null. */
  function DoPop(s: State, w: nat): State
    requires w < |s.workers|
  {
    if s.tasks == [] then Set(s, w, Asleep) else
    var last := s.tasks[|s.tasks| - 1];
    var r := s.(tasks := s.tasks[..|s.tasks| - 1]);
    if last.None? then Set(r, w, Testing)
    else Set(r, w, Running(last.value)).(popped := s.popped + [last.value])
  }

  function DoPush(s: State, task: Option<nat>): State {
    s.(tasks := s.tasks + [task], owed := s.owed + 1)
  }

  function Apply(s: State, e: Event): State
    requires Enabled(s, e)
  {
    match e
    case Test(w) => Set(s, w, if s.stop then Exited else Popping)
    case Pop(w) => DoPop(s, w)
    case Return(w) => Set(s, w, Testing)
    case Push(task) => DoPush(s, Some(task)).(pushed := s.pushed + [task])
    case Notify(target) =>
      var r := s.(owed := s.owed - 1);
      if target.Some? then Set(r, target.value, Popping) else r
    case Spurious(w) => Set(s, w, Popping)
    case Stop => s.(stop := true)
    case PushNull => DoPush(s, None).(nulls := s.nulls + 1)
  }

  // ------------------------------------------------------------------ the invariant

  function PopperBit(k: Worker): nat { if k.Popping? then 1 else 0 }
  function SleeperBit(k: Worker): nat { if k.Asleep? then 1 else 0 }

  ghost function Poppers(s: State): nat { Sum(s.workers, PopperBit) }
  ghost function Sleepers(s: State): nat { Sum(s.workers, SleeperBit) }

  /** No lost wake-up: while somebody sleeps, the tasks are covered by awake poppers and by
      notifications still to come. */
  ghost predicate Covered(s: State) {
    Sleepers(s) > 0 ==> |s.tasks| <= Poppers(s) + s.owed
  }

  /** After the stop flag is up there are, or will be, tasks for all who still have to pop. */
  ghost predicate Supplied(s: State) {
    && s.nulls <= |s.workers| && (!s.stop ==> s.nulls == 0)
    && (s.stop ==> |s.tasks| + (|s.workers| - s.nulls) >= Poppers(s) + Sleepers(s))
  }

  /** Without the stop nobody leaves the loop. */
  ghost predicate Staffed(s: State) {
    !s.stop ==> forall w | 0 <= w < |s.workers| :: s.workers[w] != Exited
  }

  /** Every task pushed is queued or was popped, as often as it was pushed. */
  ghost predicate TasksKept(s: State) {
    forall h :: Occ(s.pushed, h) == Occ(s.tasks, Some(h)) + Occ(s.popped, h)
  }

  ghost predicate Inv(s: State) {
    Covered(s) && Supplied(s) && TasksKept(s) && Staffed(s)
  }

  lemma Change(s: State, w: nat, k: Worker)
    requires w < |s.workers|
    ensures Poppers(Set(s, w, k)) + PopperBit(s.workers[w]) == Poppers(s) + PopperBit(k)
    ensures Sleepers(Set(s, w, k)) + SleeperBit(s.workers[w]) == Sleepers(s) + SleeperBit(k)
  {
    SumUpdate(s.workers, w, k, PopperBit);
    SumUpdate(s.workers, w, k, SleeperBit);
  }

  lemma {:induction false} AtMostAll(q: seq<Worker>)
    ensures Sum(q, PopperBit) + Sum(q, SleeperBit) <= |q|
  {
    if q != [] { AtMostAll(q[1..]); }
  }

  lemma {:induction false} NoSleeper(q: seq<Worker>)
    requires forall w | 0 <= w < |q| :: !q[w].Asleep?
    ensures Sum(q, SleeperBit) == 0
  {
    if q != [] { NoSleeper(q[1..]); }
  }

  lemma {:induction false} NoPopper(q: seq<Worker>)
    requires forall w | 0 <= w < |q| :: !q[w].Popping?
    ensures Sum(q, PopperBit) == 0
  {
    if q != [] { NoPopper(q[1..]); }
  }

  lemma InitialInv(n: nat)
    ensures Inv(Initial(n))
  {
    NoSleeper(Initial(n).workers);
  }

  lemma PopKeeps(s: State, w: nat)
    requires Inv(s) && Enabled(s, Pop(w))
    ensures Inv(DoPop(s, w))
  {
    var s' := DoPop(s, w);
    Change(s, w, s'.workers[w]);
    assert s'.workers == Set(s, w, s'.workers[w]).workers;
    if s.tasks != [] {
      var n := |s.tasks| - 1;
      assert s.tasks == s.tasks[..n] + [s.tasks[n]];
      forall h ensures Occ(s'.pushed, h) == Occ(s'.tasks, Some(h)) + Occ(s'.popped, h) {
        OccAppend(s.tasks[..n], s.tasks[n], Some(h));
        if s.tasks[n].Some? { OccAppend(s.popped, s.tasks[n].value, h); }
        assert Occ(s.pushed, h) == Occ(s.tasks, Some(h)) + Occ(s.popped, h);
      }
    }
  }

  lemma PushKeeps(s: State, task: Option<nat>, s': State)
    requires Inv(s) && s'.workers == s.workers && s'.popped == s.popped && s'.stop == s.stop
    requires s'.tasks == s.tasks + [task] && s'.owed == s.owed + 1
    requires if task.Some? then s'.pushed == s.pushed + [task.value] && s'.nulls == s.nulls
             else s'.pushed == s.pushed && s'.nulls == s.nulls + 1 <= |s.workers| && s.stop
    ensures Inv(s')
  {
    forall h ensures Occ(s'.pushed, h) == Occ(s'.tasks, Some(h)) + Occ(s'.popped, h) {
      OccAppend(s.tasks, task, Some(h));
      if task.Some? { OccAppend(s.pushed, task.value, h); }
      assert Occ(s.pushed, h) == Occ(s.tasks, Some(h)) + Occ(s.popped, h);
    }
  }

  lemma StepKeeps(s: State, e: Event)
    requires Inv(s) && Enabled(s, e)
    ensures Inv(Apply(s, e))
  {
    match e
    case Test(w) => Change(s, w, if s.stop then Exited else Popping);
    case Pop(w) => PopKeeps(s, w);
    case Return(w) => Change(s, w, Testing);
    case Push(task) => PushKeeps(s, Some(task), Apply(s, e));
    case Notify(target) =>
      if target.Some? { Change(s, target.value, Popping); } else {
        NoSleeper(s.workers) by {
          forall w | 0 <= w < |s.workers| ensures !s.workers[w].Asleep? { assert !Is(s, w, Asleep); }
        }
      }
    case Spurious(w) => Change(s, w, Popping);
    case Stop => AtMostAll(s.workers);
    case PushNull => PushKeeps(s, None, Apply(s, e));
  }

  // ------------------------------------------------------------------ runs

  ghost predicate Runs(s: State, es: seq<Event>)
    decreases |es|
  {
    es == [] || (Enabled(s, es[0]) && Runs(Apply(s, es[0]), es[1..]))
  }

  ghost function End(s: State, es: seq<Event>): State
    requires Runs(s, es)
    decreases |es|
  {
    if es == [] then s else End(Apply(s, es[0]), es[1..])
  }

  lemma {:induction false} RunKeeps(s: State, es: seq<Event>)
    requires Inv(s) && Runs(s, es)
    ensures Inv(End(s, es)) && (s.stop ==> End(s, es).stop)
    decreases |es|
  {
    if es != [] {
      StepKeeps(s, es[0]);
      RunKeeps(Apply(s, es[0]), es[1..]);
    }
  }

  /** What the workers, `blockingStop` and pending notifications do by themselves. */
  predicate Own(e: Event) {
    !e.Push? && !e.Spurious? && !e.Stop?
  }

  /** In no reachable state does a task wait while only sleepers could take it: with a task queued,
      somebody asleep and no notification owed, an awake worker is on its way to the queue. */
  lemma NobodySleepsOverATask(n: nat, es: seq<Event>, w: nat)
    requires Runs(Initial(n), es)
    ensures var s := End(Initial(n), es);
            Is(s, w, Asleep) && s.tasks != [] && s.owed == 0 ==> exists v :: Is(s, v, Popping)
  {
    InitialInv(n);
    RunKeeps(Initial(n), es);
    var s := End(Initial(n), es);
    if Is(s, w, Asleep) && s.tasks != [] && s.owed == 0 {
      SumAtLeast(s.workers, w, SleeperBit);
      if forall v | 0 <= v < |s.workers| :: !s.workers[v].Popping? {
        NoPopper(s.workers);
      } else {
        var v :| 0 <= v < |s.workers| && s.workers[v].Popping?;
        assert Is(s, v, Popping);
      }
    }
  }

  /** Shutdown: a stopped pool in which nothing can move by itself has only exited workers. */
  lemma StoppedMeansExited(s: State, w: nat)
    requires Inv(s) && s.stop && w < |s.workers|
    requires forall e :: Own(e) ==> !Enabled(s, e)
    ensures s.workers[w] == Exited
  {
    assert !Enabled(s, PushNull);
    forall v | 0 <= v < |s.workers| ensures s.workers[v] == Asleep || s.workers[v] == Exited {
      assert !Enabled(s, Test(v)) && !Enabled(s, Pop(v)) && !Enabled(s, Return(v));
    }
    if s.owed > 0 {
      assert !Enabled(s, Notify(None));
      var v :| Is(s, v, Asleep);
      assert Enabled(s, Notify(Some(v)));
    }
    NoPopper(s.workers);
    if s.workers[w] == Asleep {
      SumAtLeast(s.workers, w, SleeperBit);
    }
  }

  function Weight(k: Worker): nat {
    match k
    case Popping => 4
    case Asleep => 3
    case Running(_) => 2
    case Testing => 1
    case Exited => 0
  }

  ghost function Energy(s: State): nat
    requires s.nulls <= |s.workers|
  {
    Sum(s.workers, Weight) + 2 * s.owed + 3 * (|s.workers| - s.nulls)
  }

  function Price(e: Event): int {
    if e.Push? then 2 else if e.Spurious? then 1 else -1
  }

  lemma EnergyDrops(s: State, e: Event)
    requires Supplied(s) && s.stop && Enabled(s, e)
    ensures Apply(s, e).nulls <= |Apply(s, e).workers|
    ensures Energy(Apply(s, e)) <= Energy(s) + Price(e)
  {
    match e
    case Test(w) => SumUpdate(s.workers, w, Exited, Weight);
    case Pop(w) => SumUpdate(s.workers, w, DoPop(s, w).workers[w], Weight);
    case Return(w) => SumUpdate(s.workers, w, Testing, Weight);
    case Notify(target) => if target.Some? { SumUpdate(s.workers, target.value, Popping, Weight); }
    case Spurious(w) => SumUpdate(s.workers, w, Popping, Weight);
    case _ =>
  }

  /** The steps of a run that the pool takes by itself. */
  function OwnSteps(es: seq<Event>): nat {
    if es == [] then 0 else (if Own(es[0]) then 1 else 0) + OwnSteps(es[1..])
  }

  /** What a run adds from outside. */
  function Fuel(es: seq<Event>): nat {
    if es == [] then 0 else (if Own(es[0]) || es[0].Stop? then 0 else Price(es[0])) + Fuel(es[1..])
  }

  /** From the stop on, the own steps of any run are bounded: by the energy at the stop, two for
      every task still pushed from outside and one for every spurious wake-up. Together with
      `StoppedMeansExited`, every worker exits. */
  lemma {:induction false} ShutdownIsBounded(s: State, es: seq<Event>)
    requires Inv(s) && s.stop && Runs(s, es)
    ensures OwnSteps(es) <= Energy(s) + Fuel(es)
    decreases |es|
  {
    if es != [] {
      EnergyDrops(s, es[0]);
      StepKeeps(s, es[0]);
      ShutdownIsBounded(Apply(s, es[0]), es[1..]);
    }
  }

  // ------------------------------------------------------------------ every task is resumed

  /** By this step some worker begins to resume `h`. */
  ghost predicate Begins(s: State, s': State, h: nat) {
    exists w :: !Is(s, w, Running(h)) && Is(s', w, Running(h))
  }

  /** How often a run begins to resume `h`. */
  ghost function Resumptions(s: State, es: seq<Event>, h: nat): nat
    requires Runs(s, es)
    decreases |es|
  {
    if es == [] then 0 else Bit(Begins(s, Apply(s, es[0]), h)) + Resumptions(Apply(s, es[0]), es[1..], h)
  }

  /** A pop is a resumption, and nothing else is. */
  lemma StepResumes(s: State, e: Event, h: nat)
    requires Enabled(s, e)
    ensures Occ(Apply(s, e).popped, h) == Occ(s.popped, h) + Bit(Begins(s, Apply(s, e), h))
  {
    if e.Pop? && s.tasks != [] {
      var last := s.tasks[|s.tasks| - 1];
      if last.Some? { OccAppend(s.popped, last.value, h); }
      if last == Some(h) { assert Is(Apply(s, e), e.w, Running(h)) && !Is(s, e.w, Running(h)); }
    }
  }

  lemma StepPushes(s: State, e: Event, h: nat)
    requires Enabled(s, e)
    ensures Occ(Apply(s, e).pushed, h) == Occ(s.pushed, h) + Bit(e == Push(h))
  {
    if e.Push? { OccAppend(s.pushed, e.task, h); }
  }

  lemma {:induction false} RunResumes(s: State, es: seq<Event>, h: nat)
    requires Runs(s, es)
    ensures Occ(End(s, es).popped, h) == Occ(s.popped, h) + Resumptions(s, es, h)
    ensures Occ(End(s, es).pushed, h) == Occ(s.pushed, h) + Occ(es, Push(h))
    decreases |es|
  {
    if es != [] {
      StepResumes(s, es[0], h);
      StepPushes(s, es[0], h);
      RunResumes(Apply(s, es[0]), es[1..], h);
    }
  }

  /** Over every run a coroutine was pushed as often as it is queued or a worker began to resume it. */
  lemma EveryTaskResumed(n: nat, es: seq<Event>, h: nat)
    requires Runs(Initial(n), es)
    ensures Occ(es, Push(h)) == Occ(End(Initial(n), es).tasks, Some(h)) + Resumptions(Initial(n), es, h)
  {
    InitialInv(n);
    RunKeeps(Initial(n), es);
    RunResumes(Initial(n), es, h);
    assert Occ(End(Initial(n), es).pushed, h)
           == Occ(End(Initial(n), es).tasks, Some(h)) + Occ(End(Initial(n), es).popped, h);
  }

  function IdleWeight(k: Worker): nat {
    match k
    case Running(_) => 3
    case Testing => 2
    case Popping => 1
    case _ => 0
  }

  /** Work before a pool that is given no more tasks comes to rest. */
  ghost function Busy(s: State): nat {
    Sum(s.workers, IdleWeight) + 5 * |s.tasks| + 2 * s.owed
  }

  lemma BusyDrops(s: State, e: Event)
    requires Enabled(s, e) && Own(e) && !e.PushNull?
    ensures Busy(Apply(s, e)) < Busy(s)
  {
    match e
    case Test(w) => SumUpdate(s.workers, w, Apply(s, e).workers[w], IdleWeight);
    case Pop(w) => SumUpdate(s.workers, w, DoPop(s, w).workers[w], IdleWeight);
    case Return(w) => SumUpdate(s.workers, w, Testing, IdleWeight);
    case Notify(target) => if target.Some? { SumUpdate(s.workers, target.value, Popping, IdleWeight); }
  }

  lemma OnlySleepers(s: State)
    requires Inv(s) && !s.stop && forall e :: Own(e) ==> !Enabled(s, e)
    ensures forall w | 0 <= w < |s.workers| :: s.workers[w] == Asleep
  {
    forall w | 0 <= w < |s.workers| ensures s.workers[w] == Asleep {
      assert !Enabled(s, Test(w)) && !Enabled(s, Pop(w)) && !Enabled(s, Return(w));
    }
  }

  lemma NothingOwed(s: State)
    requires forall e :: Own(e) ==> !Enabled(s, e)
    ensures s.owed == 0
  {
    if s.owed > 0 {
      assert !Enabled(s, Notify(None));
      var v :| Is(s, v, Asleep);
      assert Enabled(s, Notify(Some(v)));
    }
  }

  /** A pool that is not stopped and can do nothing by itself has done all its work: every coroutine was
      resumed as often as it was pushed, and all its workers are asleep, ready for more. */
  lemma RestingMeansDone(n: nat, es: seq<Event>, h: nat)
    requires n > 0 && Runs(Initial(n), es) && !End(Initial(n), es).stop
    requires forall e :: Own(e) ==> !Enabled(End(Initial(n), es), e)
    ensures var s := End(Initial(n), es);
            s.tasks == [] && |s.workers| == n && forall w | 0 <= w < n :: s.workers[w] == Asleep
    ensures Resumptions(Initial(n), es, h) == Occ(es, Push(h))
  {
    InitialInv(n);
    RunKeeps(Initial(n), es);
    RunStaffed(Initial(n), es);
    EveryTaskResumed(n, es, h);
    var s := End(Initial(n), es);
    OnlySleepers(s);
    NothingOwed(s);
    NoPopper(s.workers);
    SumAtLeast(s.workers, 0, SleeperBit);
  }

  /** The workers stay as many; a stop in the run stays. */
  lemma {:induction false} RunStaffed(s: State, es: seq<Event>)
    requires Runs(s, es)
    ensures |End(s, es).workers| == |s.workers| && (s.stop || Stop in es <==> End(s, es).stop)
    decreases |es|
  {
    if es != [] { RunStaffed(Apply(s, es[0]), es[1..]); }
  }

  /** In every run without a stop no worker has left its loop. */
  lemma NobodyLeaves(n: nat, es: seq<Event>, w: nat)
    requires Runs(Initial(n), es) && Stop !in es && w < n
    ensures w < |End(Initial(n), es).workers| && End(Initial(n), es).workers[w] != Exited
  {
    InitialInv(n);
    RunKeeps(Initial(n), es);
    RunStaffed(Initial(n), es);
  }

  /** And in every run with one, once nothing can move by itself, all have. */
  lemma EverybodyLeaves(n: nat, es: seq<Event>, w: nat)
    requires Runs(Initial(n), es) && Stop in es && w < n
    requires forall e :: Own(e) ==> !Enabled(End(Initial(n), es), e)
    ensures w < |End(Initial(n), es).workers| && End(Initial(n), es).workers[w] == Exited
  {
    InitialInv(n);
    RunKeeps(Initial(n), es);
    RunStaffed(Initial(n), es);
    StoppedMeansExited(End(Initial(n), es), w);
  }

  // ------------------------------------------------------------------ the class

  class ThreadPool {
    var workers: seq<Worker>
    var tasks: seq<Option<nat>>
    var stopFlag: bool
    ghost var owed: nat
    ghost var nulls: nat
    ghost var pushed: seq<nat>
    ghost var popped: seq<nat>

    ghost function View(): State
      reads this
    {
      State(workers, tasks, stopFlag, owed, nulls, pushed, popped)
    }

    constructor (threadNum: nat)
      ensures View() == Initial(threadNum) && Inv(View())
    {
      workers := seq(threadNum, _ => Testing);
      tasks, stopFlag, owed, nulls, pushed, popped := [], false, 0, 0, [], [];
      InitialInv(threadNum);
    }

    /** Line 18. */
    method TestStop(w: nat) returns (goesOn: bool)
      requires Inv(View()) && Enabled(View(), Test(w))
      modifies this
      ensures Inv(View()) && View() == old(Apply(View(), Test(w)))
      ensures goesOn <==> !stopFlag
      ensures workers == old(workers)[w := if goesOn then Popping else Exited]
    {
      StepKeeps(View(), Test(w));
      goesOn := !stopFlag;
      workers := workers[w := if goesOn then Popping else Exited];
    }

    /** Lines 21-28: wait for a task and take the one pushed last. */
    method PopTask(w: nat) returns (got: bool, task: Option<nat>)
      requires Inv(View()) && Enabled(View(), Pop(w))
      modifies this
      ensures Inv(View()) && View() == old(DoPop(View(), w))
      ensures got <==> old(tasks) != []
      ensures got ==> old(tasks) == tasks + [task]
      ensures workers == old(workers)[w := if !got then Asleep else if task.Some? then Running(task.value) else Testing]
    {
      PopKeeps(View(), w);
      if tasks == [] {
        workers := workers[w := Asleep];
        return false, None;
      }
      got, task := true, tasks[|tasks| - 1];
      tasks := tasks[..|tasks| - 1];
      if task.Some? {
        workers := workers[w := Running(task.value)];
        popped := popped + [task.value];
      } else {
        workers := workers[w := Testing];
      }
    }

    /** Lines 41-44. */
    method PushTask(task: Option<nat>)
      requires Inv(View()) && (task.None? ==> Enabled(View(), PushNull))
      modifies this
      ensures Inv(View())
      ensures View() == old(Apply(View(), if task.Some? then Push(task.value) else PushNull))
      ensures tasks == old(tasks) + [task] && owed == old(owed) + 1
    {
      StepKeeps(View(), if task.Some? then Push(task.value) else PushNull);
      tasks := tasks + [task];
      owed := owed + 1;
      if task.Some? { pushed := pushed + [task.value]; } else { nulls := nulls + 1; }
    }

    /** Line 33, when the coroutine has suspended or ended: back to the test of the flag. */
    method TaskReturned(w: nat)
      requires Inv(View()) && Enabled(View(), Return(w))
      modifies this
      ensures Inv(View()) && View() == old(Apply(View(), Return(w)))
      ensures workers == old(workers)[w := Testing]
    {
      StepKeeps(View(), Return(w));
      workers := workers[w := Testing];
    }

    /** Lines 54-55: the flag, then one null and one notification for each worker. What the workers do
        in between is in the runs of the machine. */
    method BlockingStop()
      requires Inv(View()) && !stopFlag
      modifies this
      ensures Inv(View()) && stopFlag && nulls == |workers| == |old(workers)| && owed == old(owed)
      ensures tasks == old(tasks) + seq(|old(workers)|, _ => None)
      ensures forall w | 0 <= w < |workers| :: workers[w] == old(workers)[w]
                || (old(workers)[w] == Asleep && workers[w] == Popping)
    {
      StepKeeps(View(), Stop);
      stopFlag := true;
      var i := 0;
      while i < |workers|
        invariant Inv(View()) && stopFlag && i == nulls <= |workers| == |old(workers)| && owed == old(owed)
        invariant tasks == old(tasks) + seq(i, _ => None)
        invariant forall w | 0 <= w < |workers| :: workers[w] == old(workers)[w]
                    || (old(workers)[w] == Asleep && workers[w] == Popping)
      {
        PushTask(None);
        var woken := NotifyOne();
        i := i + 1;
      }
    }

    /** Line 45: wake one sleeper, if there is one. */
    method NotifyOne() returns (woken: Option<nat>)
      requires Inv(View()) && owed > 0
      modifies this
      ensures Inv(View()) && old(Enabled(View(), Notify(woken)))
      ensures View() == old(Apply(View(), Notify(woken)))
    {
      woken := None;
      var w := 0;
      while w < |workers| && woken.None?
        invariant w <= |workers|
        invariant woken.None? ==> forall v | 0 <= v < w :: workers[v] != Asleep
        invariant woken.Some? ==> Is(View(), woken.value, Asleep)
      {
        if workers[w] == Asleep { woken := Some(w); }
        w := w + 1;
      }
      StepKeeps(View(), Notify(woken));
      owed := owed - 1;
      if woken.Some? { workers := workers[woken.value := Popping]; }
    }

    /** Lines 59-67. */
    method IsScheduled(address: nat) returns (found: bool)
      ensures found <==> Occ(tasks, Some(address)) > 0
    {
      for i := 0 to |tasks|
        invariant forall j | 0 <= j < i :: tasks[j] != Some(address)
      {
        if tasks[i] == Some(address) {
          OccIn(tasks, Some(address));
          return true;
        }
      }
      OccIn(tasks, Some(address));
      return false;
    }
  }
}
