/**
 Benchmarks running in the background: any number of runners, each with a worker thread that
 keeps a child process going and a controller that starts and stops it, and one process
 watcher whose SIGINT handler competes with the workers for its lock.

 A state is everything the threads share, and where each of them is.  A step is one
 thread's next action, or a child's exit.
 */
module AsyncRuns {
  import opened Options

  /** Where a worker is in `_run`; the first six comments name what it does next. */
  datatype WorkerPc =
    | Absent        // no thread
    | Check         // test the loop condition
    | TakeLock      // take the runner's lock
    | Recheck       // under the lock, test the stop flag again
    | EnterWatcher  // take the watcher's lock
    | CheckSigint   // under both locks, test for an interrupt
    | Spawn         // create the child
    | Register      // tell the watcher about it
    | Unlock        // leave both locks
    | Communicate   // wait for the child
    | SetRetcode    // record its return code, decide whether to go on
    | FinalLock     // after the loop, take the runner's lock
    | Unregister    // tell the watcher that the child is gone
    | Forget        // drop the child, leave the lock
    | Ended
    | Died          // SystemExit(130) inside the thread

  datatype ControllerPc = Idle | StartThread | StopLock | StopSet | Signal | Join

  datatype HandlerPc =
    | Waiting       // for a SIGINT, then for the watcher's lock
    | Flag          // under the lock, set the stop request
    | Interrupting(todo: set<nat>)
    | Reaping(todo: set<nat>)
    | Done

  datatype LockHolder = ByWorker | ByController

  datatype WatcherHolder = WorkerOf(i: nat) | SigintHandler

  datatype Runner = Runner(worker: WorkerPc, controller: ControllerPc, stop: bool, lock: Option<LockHolder>,
                           current: Option<nat>, retcode: int)

  datatype Child = Child(owner: nat, alive: bool, interrupted: bool, killed: bool)

  /** Children are numbered as they are created; the watcher registers them by number. */
  datatype State = State(runners: seq<Runner>, children: seq<Child>, registered: set<nat>,
                         watcherLock: Option<WatcherHolder>, sigint: bool, handler: HandlerPc)

  datatype Action =
    | WorkerStep(i: nat, spawned: bool, code: int)      // whether a spawn succeeds, and what a child returns
    | ControllerStep(i: nat, start: bool, useInt: bool) // what an idle controller is asked to do
    | HandlerStep(p: nat)                               // the process attended to
    | ChildExit(p: nat)

  predicate Init(s: State) {
    (forall i :: 0 <= i < |s.runners| ==> s.runners[i] == Runner(Absent, Idle, false, None, None, 0)) &&
    s.children == [] && s.registered == {} && s.watcherLock == None && !s.sigint && s.handler == Waiting
  }

  // ---------------------------------------------------------------- steps

  predicate WorkerCan(s: State, i: nat)
    requires i < |s.runners|
  {
    var r := s.runners[i];
    match r.worker
    case Absent | Ended | Died => false
    case TakeLock | FinalLock => r.lock == None
    case EnterWatcher => s.watcherLock == None
    case Communicate => r.current.Some? && r.current.value < |s.children| && !s.children[r.current.value].alive
    case Unregister => r.current.None? || s.watcherLock == None
    case _ => true
  }

  function WorkerNext(s: State, i: nat, spawned: bool, code: int): State
    requires i < |s.runners| && WorkerCan(s, i)
  {
    var r := s.runners[i];
    match r.worker
    case Check => s.(runners := s.runners[i := r.(worker := if r.stop then FinalLock else TakeLock)])
    case TakeLock => s.(runners := s.runners[i := r.(worker := Recheck, lock := Some(ByWorker))])
    case Recheck =>
      if r.stop then s.(runners := s.runners[i := r.(worker := FinalLock, lock := None)])
      else s.(runners := s.runners[i := r.(worker := EnterWatcher)])
    case EnterWatcher => s.(runners := s.runners[i := r.(worker := CheckSigint)], watcherLock := Some(WorkerOf(i)))
    case CheckSigint =>
      if s.sigint then s.(runners := s.runners[i := r.(worker := Died, lock := None)], watcherLock := None)
      else s.(runners := s.runners[i := r.(worker := Spawn)])
    case Spawn =>
      if spawned then
        s.(runners := s.runners[i := r.(worker := Register, current := Some(|s.children|))],
           children := s.children + [Child(i, true, false, false)])
      else
        s.(runners := s.runners[i := r.(worker := FinalLock, lock := None, retcode := 255)], watcherLock := None)
    case Register =>
      s.(runners := s.runners[i := r.(worker := Unlock)],
         registered := s.registered + (if r.current.Some? then {r.current.value} else {}))
    case Unlock => s.(runners := s.runners[i := r.(worker := Communicate, lock := None)], watcherLock := None)
    case Communicate => s.(runners := s.runners[i := r.(worker := SetRetcode)])
    case SetRetcode =>
      var ret := if r.stop then 0 else code;
      s.(runners := s.runners[i := r.(worker := if ret != 0 then FinalLock else Check, retcode := ret)])
    case FinalLock => s.(runners := s.runners[i := r.(worker := Unregister, lock := Some(ByWorker))])
    case Unregister =>
      s.(runners := s.runners[i := r.(worker := Forget)],
         registered := s.registered - (if r.current.Some? then {r.current.value} else {}))
    case Forget => s.(runners := s.runners[i := r.(worker := Ended, lock := None, current := None)])
  }

  predicate ControllerCan(s: State, i: nat, start: bool)
    requires i < |s.runners|
  {
    var r := s.runners[i];
    match r.controller
    case Idle => start ==> r.worker == Absent
    case StopLock => r.lock == None
    case Join => r.worker == Ended || r.worker == Died
    case _ => true
  }

  function ControllerNext(s: State, i: nat, start: bool, useInt: bool): State
    requires i < |s.runners| && ControllerCan(s, i, start)
  {
    var r := s.runners[i];
    match r.controller
    case Idle =>
      if start then s.(runners := s.runners[i := r.(controller := StartThread, stop := false)])
      else s.(runners := s.runners[i := r.(controller := StopLock)])
    case StartThread => s.(runners := s.runners[i := r.(controller := Idle, worker := Check)])
    case StopLock => s.(runners := s.runners[i := r.(controller := StopSet, lock := Some(ByController))])
    case StopSet => s.(runners := s.runners[i := r.(controller := Signal, stop := true)])
    case Signal =>
      s.(runners := s.runners[i := r.(controller := if r.worker == Absent then Idle else Join, lock := None)],
         children := if r.current.Some? && r.current.value < |s.children| then SendSignal(s.children, r.current.value, useInt) else s.children)
    case Join => s.(runners := s.runners[i := r.(controller := Idle, worker := Absent)])
  }

  function SendSignal(children: seq<Child>, p: nat, useInt: bool): seq<Child>
    requires p < |children|
  {
    children[p := if useInt then children[p].(interrupted := true) else children[p].(killed := true)]
  }

  predicate HandlerCan(s: State, p: nat) {
    match s.handler
    case Waiting => s.watcherLock == None
    case Flag => true
    case Interrupting(todo) => todo == {} || (p in todo && p < |s.children|)
    case Reaping(todo) => todo == {} || (p in todo && p < |s.children|)
    case Done => false
  }

  function HandlerNext(s: State, p: nat): State
    requires HandlerCan(s, p)
  {
    match s.handler
    case Waiting => s.(handler := Flag, watcherLock := Some(SigintHandler))
    case Flag => s.(handler := Interrupting(s.registered), sigint := true)
    case Interrupting(todo) =>
      if todo == {} then s.(handler := Reaping(s.registered))
      else
        var c := s.children[p];
        s.(handler := Interrupting(todo - {p}),
           children := if c.alive then s.children[p := c.(interrupted := true)] else s.children)
    case Reaping(todo) =>
      if todo == {} then s.(handler := Done, watcherLock := None)
      else
        // still alive here means that the deadline has passed
        var c := s.children[p];
        s.(handler := Reaping(todo - {p}), registered := s.registered - {p},
           children := if c.alive then s.children[p := c.(killed := true)] else s.children)
  }

  predicate Can(s: State, a: Action) {
    match a
    case WorkerStep(i, _, _) => i < |s.runners| && WorkerCan(s, i)
    case ControllerStep(i, start, _) => i < |s.runners| && ControllerCan(s, i, start)
    case HandlerStep(p) => HandlerCan(s, p)
    case ChildExit(p) => p < |s.children| && s.children[p].alive
  }

  function Next(s: State, a: Action): State
    requires Can(s, a)
  {
    match a
    case WorkerStep(i, spawned, code) => WorkerNext(s, i, spawned, code)
    case ControllerStep(i, start, useInt) => ControllerNext(s, i, start, useInt)
    case HandlerStep(p) => HandlerNext(s, p)
    case ChildExit(p) => s.(children := s.children[p := s.children[p].(alive := false)])
  }

  // ---------------------------------------------------------------- the invariant

  predicate UnderLock(w: WorkerPc) {
    w == Recheck || UnderLockToSpawn(w) || w == Unregister || w == Forget
  }

  /** From the second test of the stop flag to leaving the lock. */
  predicate UnderLockToSpawn(w: WorkerPc) {
    w == EnterWatcher || UnderWatcher(w)
  }

  predicate UnderWatcher(w: WorkerPc) {
    w == CheckSigint || Spawning(w)
  }

  predicate Spawning(w: WorkerPc) {
    w == Spawn || HasNewChild(w)
  }

  predicate HasNewChild(w: WorkerPc) {
    w == Register || w == Unlock
  }

  /** Who holds a runner's lock. */
  predicate LockOk(r: Runner) {
    && (r.lock == Some(ByWorker) <==> UnderLock(r.worker))
    && (r.lock == Some(ByController) <==> r.controller == StopSet || r.controller == Signal)
  }

  /** Who holds the watcher's lock. */
  predicate WatcherLockOk(s: State, i: nat)
    requires i < |s.runners|
  {
    s.watcherLock == Some(WorkerOf(i)) <==> UnderWatcher(s.runners[i].worker)
  }

  /** The flags that hold where a runner is, and its current child. */
  predicate FlagsOk(s: State, i: nat)
    requires i < |s.runners|
  {
    var r := s.runners[i];
    && (UnderLockToSpawn(r.worker) ==> !r.stop)
    && (Spawning(r.worker) ==> !s.sigint)
    && (r.controller == StartThread ==> r.worker == Absent && !r.stop)
    && (r.controller == Signal || r.controller == Join ==> r.stop)
    && (HasNewChild(r.worker) || r.worker == Communicate ==> r.current.Some?)
    && (r.current.Some? ==> r.current.value < |s.children| && s.children[r.current.value].owner == i)
  }

  predicate RunnerOk(s: State, i: nat)
    requires i < |s.runners|
  {
    LockOk(s.runners[i]) && WatcherLockOk(s, i) && FlagsOk(s, i)
  }

  predicate Signalled(c: Child) {
    c.killed || c.interrupted
  }

  predicate ChildOk(s: State, p: nat)
    requires p < |s.children|
  {
    var c := s.children[p];
    && c.owner < |s.runners|
    && (c.alive ==>
          var r := s.runners[c.owner];
          && r.current == Some(p)
          && (HasNewChild(r.worker) || r.worker == Communicate)
          && (p in s.registered || c.killed || r.worker == Register)
          && (r.stop && r.controller != Signal ==> Signalled(c)))
  }

  predicate HandlerOk(s: State) {
    && (s.watcherLock == Some(SigintHandler) <==> s.handler != Waiting && s.handler != Done)
    && (s.handler != Waiting && s.handler != Flag ==> s.sigint)
    && (forall p :: p in s.registered ==> p < |s.children|)
    && (match s.handler
        case Interrupting(todo) => todo <= s.registered
        case Reaping(todo) => todo == s.registered
        case Done => s.registered == {}
        case _ => true)
  }

  ghost predicate Inv(s: State) {
    (forall i :: 0 <= i < |s.runners| ==> RunnerOk(s, i)) &&
    (forall p :: 0 <= p < |s.children| ==> ChildOk(s, p)) &&
    HandlerOk(s) &&
    (s.watcherLock.Some? && s.watcherLock.value.WorkerOf? ==> s.watcherLock.value.i < |s.runners|)
  }

  lemma InitInv(s: State)
    requires Init(s)
    ensures Inv(s)
  {
  }

  lemma WorkerKeepsRunner(s: State, i: nat, spawned: bool, code: int, j: nat)
    requires Inv(s) && i < |s.runners| && WorkerCan(s, i) && j < |s.runners|
    ensures RunnerOk(WorkerNext(s, i, spawned, code), j)
  {
    if i == j {
      assert RunnerOk(s, i);
      WorkerKeepsOwnLock(s, i, spawned, code);
      WorkerKeepsWatcherLock(s, i, spawned, code);
      WorkerKeepsOwnFlags(s, i, spawned, code);
    } else {
      assert RunnerOk(s, i) && RunnerOk(s, j);
      WorkerKeepsOtherRunner(s, i, spawned, code, j);
    }
  }

  lemma WorkerKeepsOwnLock(s: State, i: nat, spawned: bool, code: int)
    requires i < |s.runners| && WorkerCan(s, i) && LockOk(s.runners[i])
    ensures LockOk(WorkerNext(s, i, spawned, code).runners[i])
  {
  }

  lemma WorkerKeepsWatcherLock(s: State, i: nat, spawned: bool, code: int)
    requires i < |s.runners| && WorkerCan(s, i) && WatcherLockOk(s, i)
    ensures WatcherLockOk(WorkerNext(s, i, spawned, code), i)
  {
  }

  lemma WorkerKeepsOwnFlags(s: State, i: nat, spawned: bool, code: int)
    requires i < |s.runners| && WorkerCan(s, i) && FlagsOk(s, i)
    ensures FlagsOk(WorkerNext(s, i, spawned, code), i)
  {
  }

  lemma WorkerKeepsOtherRunner(s: State, i: nat, spawned: bool, code: int, j: nat)
    requires i < |s.runners| && WorkerCan(s, i) && j < |s.runners| && i != j && RunnerOk(s, i) && RunnerOk(s, j)
    ensures RunnerOk(WorkerNext(s, i, spawned, code), j)
  {
  }

  lemma WorkerKeepsChild(s: State, i: nat, spawned: bool, code: int, p: nat)
    requires Inv(s) && i < |s.runners| && WorkerCan(s, i) && p < |WorkerNext(s, i, spawned, code).children|
    ensures ChildOk(WorkerNext(s, i, spawned, code), p)
  {
    assert RunnerOk(s, i);
    if p < |s.children| {
      assert ChildOk(s, p);
    }
  }

  lemma WorkerKeepsHandler(s: State, i: nat, spawned: bool, code: int)
    requires Inv(s) && i < |s.runners| && WorkerCan(s, i)
    ensures HandlerOk(WorkerNext(s, i, spawned, code))
    ensures var t := WorkerNext(s, i, spawned, code);
            |t.runners| == |s.runners| &&
            (t.watcherLock.Some? && t.watcherLock.value.WorkerOf? ==> t.watcherLock.value.i < |t.runners|)
  {
    hide ChildOk;
    assert RunnerOk(s, i);
  }

  lemma WorkerKeepsInv(s: State, i: nat, spawned: bool, code: int)
    requires Inv(s) && i < |s.runners| && WorkerCan(s, i)
    ensures Inv(WorkerNext(s, i, spawned, code))
  {
    hide WorkerNext, RunnerOk, ChildOk, HandlerOk;
    var t := WorkerNext(s, i, spawned, code);
    WorkerKeepsHandler(s, i, spawned, code);
    forall p: nat | p < |t.children|
      ensures ChildOk(t, p)
    {
      WorkerKeepsChild(s, i, spawned, code, p);
    }
    forall j: nat | j < |t.runners|
      ensures RunnerOk(t, j)
    {
      WorkerKeepsRunner(s, i, spawned, code, j);
    }
  }

  lemma ControllerKeepsInv(s: State, i: nat, start: bool, useInt: bool)
    requires Inv(s) && i < |s.runners| && ControllerCan(s, i, start)
    ensures Inv(ControllerNext(s, i, start, useInt))
  {
    var t := ControllerNext(s, i, start, useInt);
    ControllerLeavesShape(s, i, start, useInt);
    hide ControllerNext, RunnerOk, ChildOk, HandlerOk;
    forall p: nat | p < |t.children|
      ensures ChildOk(t, p)
    {
      ControllerKeepsChild(s, i, start, useInt, p);
    }
    forall j: nat | j < |t.runners|
      ensures RunnerOk(t, j)
    {
      ControllerKeepsRunner(s, i, start, useInt, j);
    }
  }

  lemma ControllerLeavesShape(s: State, i: nat, start: bool, useInt: bool)
    requires Inv(s) && i < |s.runners| && ControllerCan(s, i, start)
    ensures var t := ControllerNext(s, i, start, useInt);
            |t.runners| == |s.runners| && |t.children| == |s.children| && t.watcherLock == s.watcherLock && HandlerOk(t)
  {
    hide ChildOk, RunnerOk;
  }

  lemma ControllerKeepsChild(s: State, i: nat, start: bool, useInt: bool, p: nat)
    requires Inv(s) && i < |s.runners| && ControllerCan(s, i, start) && p < |ControllerNext(s, i, start, useInt).children|
    ensures ChildOk(ControllerNext(s, i, start, useInt), p)
  {
    hide HandlerOk;
    assert RunnerOk(s, i);
    assert ChildOk(s, p);
  }

  lemma ControllerKeepsRunner(s: State, i: nat, start: bool, useInt: bool, j: nat)
    requires Inv(s) && i < |s.runners| && ControllerCan(s, i, start) && j < |s.runners|
    ensures RunnerOk(ControllerNext(s, i, start, useInt), j)
  {
    assert RunnerOk(s, i) && RunnerOk(s, j);
    ControllerFrame(s, i, start, useInt);
    if i == j {
      ControllerKeepsOwnLock(s, i, start, useInt);
      ControllerKeepsOwnFlags(s, i, start, useInt);
    }
    hide ControllerNext, ControllerCan, Inv, ChildOk, HandlerOk, LockOk;
  }

  /** What a controller's step leaves alone. */
  lemma ControllerFrame(s: State, i: nat, start: bool, useInt: bool)
    requires i < |s.runners| && ControllerCan(s, i, start)
    ensures var t := ControllerNext(s, i, start, useInt);
            && |t.runners| == |s.runners| && (forall j :: 0 <= j < |s.runners| && j != i ==> t.runners[j] == s.runners[j])
            && t.runners[i].current == s.runners[i].current && t.watcherLock == s.watcherLock && t.sigint == s.sigint
            && |t.children| == |s.children| && (forall q :: 0 <= q < |s.children| ==> t.children[q].owner == s.children[q].owner)
    ensures RunnerOk(s, i) ==> UnderWatcher(ControllerNext(s, i, start, useInt).runners[i].worker) == UnderWatcher(s.runners[i].worker)
  {
  }

  lemma ControllerKeepsOwnLock(s: State, i: nat, start: bool, useInt: bool)
    requires i < |s.runners| && RunnerOk(s, i) && ControllerCan(s, i, start)
    ensures LockOk(ControllerNext(s, i, start, useInt).runners[i])
  {
    hide SendSignal, WatcherLockOk;
  }

  lemma ControllerKeepsOwnFlags(s: State, i: nat, start: bool, useInt: bool)
    requires i < |s.runners| && RunnerOk(s, i) && ControllerCan(s, i, start)
    ensures FlagsOk(ControllerNext(s, i, start, useInt), i)
  {
    hide WatcherLockOk;
  }

  lemma HandlerKeepsInv(s: State, p: nat)
    requires Inv(s) && HandlerCan(s, p)
    ensures Inv(HandlerNext(s, p))
  {
    var t := HandlerNext(s, p);
    forall q | 0 <= q < |t.children|
      ensures ChildOk(t, q)
    {
      assert ChildOk(s, q);
      assert RunnerOk(s, s.children[q].owner);
    }
    forall j | 0 <= j < |t.runners|
      ensures RunnerOk(t, j)
    {
      assert RunnerOk(s, j);
    }
  }

  lemma ExitKeepsInv(s: State, p: nat)
    requires Inv(s) && p < |s.children| && s.children[p].alive
    ensures Inv(Next(s, ChildExit(p)))
  {
    var t := Next(s, ChildExit(p));
    forall q | 0 <= q < |t.children|
      ensures ChildOk(t, q)
    {
      assert ChildOk(s, q);
    }
    forall j | 0 <= j < |t.runners|
      ensures RunnerOk(t, j)
    {
      assert RunnerOk(s, j);
    }
  }

  lemma StepKeepsInv(s: State, a: Action)
    requires Inv(s) && Can(s, a)
    ensures Inv(Next(s, a))
  {
    hide Inv, WorkerNext, ControllerNext, HandlerNext;
    match a
    case WorkerStep(i, spawned, code) => WorkerKeepsInv(s, i, spawned, code);
    case ControllerStep(i, start, useInt) => ControllerKeepsInv(s, i, start, useInt);
    case HandlerStep(p) => HandlerKeepsInv(s, p);
    case ChildExit(p) => ExitKeepsInv(s, p);
  }

  // ---------------------------------------------------------------- whole runs

  /** A run: any threads' steps in any order, from the initial state. */
  ghost predicate IsRun(run: seq<State>, actions: seq<Action>) {
    |run| == |actions| + 1 && Init(run[0]) &&
    forall k :: 0 <= k < |actions| ==> Can(run[k], actions[k]) && run[k + 1] == Next(run[k], actions[k])
  }

  lemma {:induction false} RunKeepsInv(run: seq<State>, actions: seq<Action>, k: nat)
    requires IsRun(run, actions) && k < |run|
    ensures Inv(run[k])
  {
    hide Inv, Can, Next, Init;
    if k == 0 {
      InitInv(run[0]);
    } else {
      RunKeepsInv(run, actions, k - 1);
      StepKeepsInv(run[k - 1], actions[k - 1]);
    }
  }

  ghost predicate LiveChildOf(s: State, i: nat, p: nat) {
    p < |s.children| && s.children[p].alive && s.children[p].owner == i
  }

  /** In every interleaving a runner has at most one live child. */
  lemma AtMostOneLiveChild(run: seq<State>, actions: seq<Action>, k: nat, i: nat, p: nat, q: nat)
    requires IsRun(run, actions) && k < |run|
    requires LiveChildOf(run[k], i, p) && LiveChildOf(run[k], i, q)
    ensures p == q
  {
    RunKeepsInv(run, actions, k);
    assert ChildOk(run[k], p) && ChildOk(run[k], q);
  }

  /** A step creates a child only for a runner that has not been asked to stop, and before any interrupt. */
  lemma WhoSpawns(s: State, a: Action)
    requires Inv(s) && Can(s, a)
    ensures |Next(s, a).children| == |s.children| ||
            (|Next(s, a).children| == |s.children| + 1 && a.WorkerStep? && a.i < |s.runners| &&
             !s.runners[a.i].stop && !s.sigint && s.handler == Waiting &&
             Next(s, a).children[|s.children|].owner == a.i)
    ensures forall p :: 0 <= p < |s.children| ==> Next(s, a).children[p].owner == s.children[p].owner
  {
    if a.WorkerStep? {
      assert RunnerOk(s, a.i);
    }
  }

  /** From the moment that stop() sets the flag until the next start(), the runner creates no child. */
  lemma {:induction false} NoSpawnAfterStop(run: seq<State>, actions: seq<Action>, j: nat, k: nat, i: nat)
    requires IsRun(run, actions) && j <= k < |run|
    requires forall n :: j <= n <= k ==> i < |run[n].runners| && run[n].runners[i].stop
    ensures |run[j].children| <= |run[k].children|
    ensures forall p :: |run[j].children| <= p < |run[k].children| ==> run[k].children[p].owner != i
  {
    hide Inv, Can, Next, Init;
    if j < k {
      NoSpawnAfterStop(run, actions, j, k - 1, i);
      RunKeepsInv(run, actions, k - 1);
      WhoSpawns(run[k - 1], actions[k - 1]);
    }
  }

  /** Once the SIGINT handler has the watcher's lock, no runner creates a child any more. */
  lemma {:induction false} NoSpawnAfterSigint(run: seq<State>, actions: seq<Action>, j: nat, k: nat)
    requires IsRun(run, actions) && j <= k < |run| && run[j].handler != Waiting
    ensures run[k].handler != Waiting && |run[k].children| == |run[j].children|
  {
    hide Inv, Can, Init, WorkerNext, ControllerNext;
    if j < k {
      NoSpawnAfterSigint(run, actions, j, k - 1);
      RunKeepsInv(run, actions, k - 1);
      WhoSpawns(run[k - 1], actions[k - 1]);
      OnlyHandlerMovesHandler(run[k - 1], actions[k - 1]);
    }
  }

  lemma OnlyHandlerMovesHandler(s: State, a: Action)
    requires Can(s, a) && s.handler != Waiting
    ensures Next(s, a).handler != Waiting
  {
  }

  /** When the handler is done, every child ever created has exited or has been killed. */
  lemma HandlerLeavesNoneRunning(run: seq<State>, actions: seq<Action>, k: nat, p: nat)
    requires IsRun(run, actions) && k < |run| && run[k].handler == Done
    requires p < |run[k].children|
    ensures !run[k].children[p].alive || run[k].children[p].killed
  {
    RunKeepsInv(run, actions, k);
    var s := run[k];
    assert ChildOk(s, p);
    assert RunnerOk(s, s.children[p].owner);
  }

  /** stop() returns with the step that joins the thread, or, without a thread, with the step that signals. */
  predicate StopReturns(s: State, a: Action, i: nat) {
    a.ControllerStep? && a.i == i && i < |s.runners| && Can(s, a) &&
    (s.runners[i].controller == Join || (s.runners[i].controller == Signal && s.runners[i].worker == Absent))
  }

  /** When stop() returns, the runner has no live child and no thread. */
  lemma StopReturnsWithNoneAlive(run: seq<State>, actions: seq<Action>, k: nat, i: nat, p: nat)
    requires IsRun(run, actions) && k < |actions| && StopReturns(run[k], actions[k], i)
    ensures run[k + 1].runners[i].worker == Absent && run[k + 1].runners[i].controller == Idle
    ensures !LiveChildOf(run[k + 1], i, p)
  {
    RunKeepsInv(run, actions, k + 1);
    if p < |run[k + 1].children| {
      assert ChildOk(run[k + 1], p);
    }
  }

  // ---------------------------------------------------------------- stopping takes a bounded number of steps

  /** An upper bound on the steps a worker still takes once its runner is to stop. */
  function StepsLeft(w: WorkerPc): nat {
    match w
    case Absent | Ended | Died => 0
    case Forget => 1
    case Unregister => 2
    case FinalLock => 3
    case Check => 4
    case SetRetcode => 5
    case Communicate => 6
    case Recheck => 4
    case TakeLock => 5
    case Unlock => 7
    case Register => 8
    case Spawn => 9
    case CheckSigint => 10
    case EnterWatcher => 11
  }

  lemma WorkerWindsDown(s: State, a: Action)
    requires Inv(s) && Can(s, a) && a.WorkerStep? && s.runners[a.i].stop
    ensures StepsLeft(Next(s, a).runners[a.i].worker) < StepsLeft(s.runners[a.i].worker)
  {
    assert RunnerOk(s, a.i);
  }

  lemma OthersLeaveWorker(s: State, a: Action, i: nat)
    requires Inv(s) && Can(s, a) && i < |s.runners| && s.runners[i].stop && Next(s, a).runners[i].stop
    requires !(a.WorkerStep? && a.i == i)
    ensures StepsLeft(Next(s, a).runners[i].worker) <= StepsLeft(s.runners[i].worker)
  {
    assert RunnerOk(s, i);
  }

  function WorkerSteps(actions: seq<Action>, i: nat): nat {
    if actions == [] then 0
    else WorkerSteps(actions[..|actions| - 1], i)
         + (if actions[|actions| - 1].WorkerStep? && actions[|actions| - 1].i == i then 1 else 0)
  }

  lemma OneShorter(actions: seq<Action>, j: nat, k: nat)
    requires j < k <= |actions|
    ensures |actions[j..k]| == k - j && actions[j..k][..k - j - 1] == actions[j..k - 1] && actions[j..k][k - j - 1] == actions[k - 1]
  {
  }

  /** Between stop()'s flag and the next start(), a worker takes at most six steps in any run. */
  lemma {:induction false} StopIsBounded(run: seq<State>, actions: seq<Action>, j: nat, k: nat, i: nat)
    requires IsRun(run, actions) && j <= k < |run|
    requires forall n :: j <= n <= k ==> i < |run[n].runners| && run[n].runners[i].stop
    ensures WorkerSteps(actions[j..k], i) + StepsLeft(run[k].runners[i].worker) <= StepsLeft(run[j].runners[i].worker) <= 6
  {
    hide Inv, Can, Next, Init, StepsLeft;
    RunKeepsInv(run, actions, j);
    StoppedWorker(run[j], i);
    if j < k {
      StopIsBounded(run, actions, j, k - 1, i);
      RunKeepsInv(run, actions, k - 1);
      OneShorter(actions, j, k);
      var a := actions[k - 1];
      if a.WorkerStep? && a.i == i {
        WorkerWindsDown(run[k - 1], a);
      } else {
        OthersLeaveWorker(run[k - 1], a, i);
      }
    }
  }

  lemma StoppedWorker(s: State, i: nat)
    requires Inv(s) && i < |s.runners| && s.runners[i].stop
    ensures StepsLeft(s.runners[i].worker) <= 6
  {
    assert RunnerOk(s, i);
  }

  // ---------------------------------------------------------------- return codes

  /** A controller's step that starts a runner. */
  predicate Starts(s: State, a: Action, i: nat) {
    a.ControllerStep? && a.i == i && a.start && i < |s.runners| && s.runners[i].controller == Idle
  }

  /** The worker is past its loop, or about to leave it, and is not being started again. */
  predicate LeftLoop(r: Runner) {
    match r.worker
    case FinalLock | Unregister | Forget | Ended => true
    case Check => r.stop
    case Absent => r.controller != StartThread
    case _ => false
  }

  lemma LeftLoopWorker(s: State, i: nat, spawned: bool, code: int)
    requires i < |s.runners| && WorkerCan(s, i) && LeftLoop(s.runners[i])
    ensures var t := WorkerNext(s, i, spawned, code);
            LeftLoop(t.runners[i]) && t.runners[i].retcode == s.runners[i].retcode && t.children == s.children
  {
  }

  lemma LeftLoopController(s: State, i: nat, start: bool, useInt: bool)
    requires i < |s.runners| && ControllerCan(s, i, start) && FlagsOk(s, i) && LeftLoop(s.runners[i])
    requires s.runners[i].controller == Idle ==> !start
    ensures var t := ControllerNext(s, i, start, useInt);
            LeftLoop(t.runners[i]) && t.runners[i].retcode == s.runners[i].retcode
  {
  }

  lemma OthersLeaveRunner(s: State, a: Action, i: nat)
    requires Can(s, a) && i < |s.runners| && !(a.WorkerStep? && a.i == i) && !(a.ControllerStep? && a.i == i)
    ensures i < |Next(s, a).runners| && Next(s, a).runners[i] == s.runners[i]
  {
  }

  lemma LeftLoopStep(s: State, a: Action, i: nat)
    requires Inv(s) && Can(s, a) && i < |s.runners| && LeftLoop(s.runners[i]) && !Starts(s, a, i)
    ensures |Next(s, a).runners| == |s.runners| && LeftLoop(Next(s, a).runners[i])
    ensures Next(s, a).runners[i].retcode == s.runners[i].retcode
    ensures |s.children| <= |Next(s, a).children| <= |s.children| + 1
    ensures forall p :: 0 <= p < |s.children| ==> Next(s, a).children[p].owner == s.children[p].owner
    ensures |Next(s, a).children| > |s.children| ==> Next(s, a).children[|s.children|].owner != i
  {
    assert RunnerOk(s, i);
    WhoSpawns(s, a);
    StepKeepsRunners(s, a);
    hide Inv, LeftLoop, WorkerNext, WorkerCan, ControllerNext, ControllerCan, HandlerNext, HandlerCan, LockOk, WatcherLockOk;
    if a.WorkerStep? && a.i == i {
      LeftLoopWorker(s, i, a.spawned, a.code);
    } else if a.ControllerStep? && a.i == i {
      LeftLoopController(s, i, a.start, a.useInt);
    } else {
      OthersLeaveRunner(s, a, i);
    }
  }

  lemma StepKeepsRunners(s: State, a: Action)
    requires Can(s, a)
    ensures |Next(s, a).runners| == |s.runners|
  {
  }

  /** Until the next start, a runner that has left its loop creates no child and keeps its return code. */
  lemma {:induction false} LeftLoopStays(run: seq<State>, actions: seq<Action>, k: nat, m: nat, i: nat)
    requires IsRun(run, actions) && k <= m < |run| && i < |run[k].runners| && LeftLoop(run[k].runners[i])
    requires forall n :: k <= n < m ==> !Starts(run[n], actions[n], i)
    ensures |run[m].runners| == |run[k].runners| && LeftLoop(run[m].runners[i])
    ensures run[m].runners[i].retcode == run[k].runners[i].retcode
    ensures |run[k].children| <= |run[m].children|
    ensures forall p :: |run[k].children| <= p < |run[m].children| ==> run[m].children[p].owner != i
  {
    hide Inv, Can, Next, Init, LeftLoop;
    if k < m {
      LeftLoopStays(run, actions, k, m - 1, i);
      RunKeepsInv(run, actions, m - 1);
      LeftLoopStep(run[m - 1], actions[m - 1], i);
    }
  }

  /** A worker's step in which it looks at what its child returned. */
  predicate ChildReturns(s: State, a: Action, i: nat, code: int) {
    a.WorkerStep? && a.i == i && a.code == code && i < |s.runners| && s.runners[i].worker == SetRetcode
  }

  /**
   A command that fails while nobody has asked to stop is not started again before the next
   start, and the runner's return code is the command's.
   */
  lemma FailureEndsTheRun(run: seq<State>, actions: seq<Action>, k: nat, m: nat, i: nat, code: int)
    requires IsRun(run, actions) && k < m < |run| && ChildReturns(run[k], actions[k], i, code)
    requires code != 0 && !run[k].runners[i].stop
    requires forall n :: k < n < m ==> !Starts(run[n], actions[n], i)
    ensures i < |run[m].runners| && run[m].runners[i].retcode == code
    ensures forall p :: |run[k].children| <= p < |run[m].children| ==> run[m].children[p].owner != i
  {
    assert run[k + 1] == Next(run[k], actions[k]);
    LeftLoopStays(run, actions, k + 1, m, i);
  }

  /** What a command returns once it was asked to stop is not a failure. */
  lemma StoppedIsSuccess(run: seq<State>, actions: seq<Action>, k: nat, m: nat, i: nat, code: int)
    requires IsRun(run, actions) && k < m < |run| && ChildReturns(run[k], actions[k], i, code)
    requires run[k].runners[i].stop
    requires forall n :: k < n < m ==> !Starts(run[n], actions[n], i)
    ensures i < |run[m].runners| && run[m].runners[i].retcode == 0
    ensures forall p :: |run[k].children| <= p < |run[m].children| ==> run[m].children[p].owner != i
  {
    assert run[k + 1] == Next(run[k], actions[k]);
    LeftLoopStays(run, actions, k + 1, m, i);
  }

  /** A command that cannot be started leaves 255, and is not tried again before the next start. */
  lemma FailedSpawnLeaves255(run: seq<State>, actions: seq<Action>, k: nat, m: nat, i: nat, code: int)
    requires IsRun(run, actions) && k < m < |run| && i < |run[k].runners|
    requires run[k].runners[i].worker == Spawn && actions[k] == WorkerStep(i, false, code)
    requires forall n :: k < n < m ==> !Starts(run[n], actions[n], i)
    ensures i < |run[m].runners| && run[m].runners[i].retcode == 255
    ensures forall p :: |run[k].children| <= p < |run[m].children| ==> run[m].children[p].owner != i
  {
    assert run[k + 1] == Next(run[k], actions[k]);
    LeftLoopStays(run, actions, k + 1, m, i);
  }

  /** Nothing else changes a return code. */
  lemma OnlyResultsChangeRetcode(s: State, a: Action, i: nat)
    requires Can(s, a) && i < |s.runners| && |Next(s, a).runners| == |s.runners|
    requires Next(s, a).runners[i].retcode != s.runners[i].retcode
    ensures ChildReturns(s, a, i, if a.WorkerStep? then a.code else 0) ||
            (a.WorkerStep? && a.i == i && s.runners[i].worker == Spawn && !a.spawned)
  {
  }

  // ---------------------------------------------------------------- a command that succeeds runs again and again

  /** Where a worker is in its loop, counted in its steps since it last created a child. */
  function Turn(w: WorkerPc): Option<nat> {
    match w
    case Register => Some(0)
    case Unlock => Some(1)
    case Communicate => Some(2)
    case SetRetcode => Some(3)
    case Check => Some(4)
    case TakeLock => Some(5)
    case Recheck => Some(6)
    case EnterWatcher => Some(7)
    case CheckSigint => Some(8)
    case Spawn => Some(9)
    case _ => None
  }

  /** How many children a runner has had. */
  function Owned(children: seq<Child>, i: nat): nat {
    if children == [] then 0
    else Owned(children[..|children| - 1], i) + if children[|children| - 1].owner == i then 1 else 0
  }

  lemma {:induction false} OwnedByOwners(a: seq<Child>, b: seq<Child>, i: nat)
    requires |a| == |b| && forall p :: 0 <= p < |a| ==> a[p].owner == b[p].owner
    ensures Owned(a, i) == Owned(b, i)
  {
    if a != [] {
      OwnedByOwners(a[..|a| - 1], b[..|b| - 1], i);
    }
  }

  /** Nobody asks runner i to stop, and no interrupt has come. */
  predicate Undisturbed(s: State, i: nat) {
    i < |s.runners| && !s.runners[i].stop && !s.sigint
  }

  /** A step in which runner i's command neither fails to start nor returns a failure. */
  predicate Succeeds(s: State, a: Action, i: nat) {
    a.WorkerStep? && a.i == i && i < |s.runners| ==>
      (s.runners[i].worker == Spawn ==> a.spawned) && (s.runners[i].worker == SetRetcode ==> a.code == 0)
  }

  lemma TurnStep(s: State, a: Action, i: nat)
    requires Inv(s) && Can(s, a) && Undisturbed(s, i) && Undisturbed(Next(s, a), i) && Succeeds(s, a, i)
    requires Turn(s.runners[i].worker).Some?
    ensures var w, v := s.runners[i].worker, Next(s, a).runners[i].worker;
            var more := |Next(s, a).children| > |s.children| && Next(s, a).children[|s.children|].owner == i;
            && Turn(v).Some?
            && Turn(v).value + (if more then 10 else 0) == Turn(w).value + if a.WorkerStep? && a.i == i then 1 else 0
  {
    assert RunnerOk(s, i);
    hide Inv, RunnerOk, LockOk, WatcherLockOk, ChildOk, HandlerOk;
  }

  lemma OwnedStep(s: State, a: Action, i: nat)
    requires Inv(s) && Can(s, a)
    ensures Owned(Next(s, a).children, i)
         == Owned(s.children, i)
            + if |Next(s, a).children| > |s.children| && Next(s, a).children[|s.children|].owner == i then 1 else 0
  {
    WhoSpawns(s, a);
    hide Next, Inv, Can;
    var n := |s.children|;
    OwnedByOwners(Next(s, a).children[..n], s.children, i);
    assert |Next(s, a).children| == n ==> Next(s, a).children[..n] == Next(s, a).children;
  }

  /**
   While nobody asks for a stop and the command returns zero, every ten steps of its worker
   start it once more: steps are neither lost nor do they lead out of the loop.
   */
  lemma {:induction false} SuccessRunsAgain(run: seq<State>, actions: seq<Action>, j: nat, k: nat, i: nat)
    requires IsRun(run, actions) && j <= k < |run|
    requires forall n :: j <= n <= k ==> Undisturbed(run[n], i)
    requires forall n :: j <= n < k ==> Succeeds(run[n], actions[n], i)
    requires i < |run[j].runners| && Turn(run[j].runners[i].worker).Some?
    ensures i < |run[k].runners| && Turn(run[k].runners[i].worker).Some?
    ensures 10 * Owned(run[k].children, i) + Turn(run[k].runners[i].worker).value
         == 10 * Owned(run[j].children, i) + Turn(run[j].runners[i].worker).value + WorkerSteps(actions[j..k], i)
  {
    hide Inv, Can, Next, Init, Turn, Owned, Succeeds, Undisturbed;
    if j < k {
      SuccessRunsAgain(run, actions, j, k - 1, i);
      RunKeepsInv(run, actions, k - 1);
      OneShorter(actions, j, k);
      StepKeepsRunners(run[k - 1], actions[k - 1]);
      assert run[k] == Next(run[k - 1], actions[k - 1]) && Undisturbed(run[k], i);
      assert Succeeds(run[k - 1], actions[k - 1], i);
      TurnStep(run[k - 1], actions[k - 1], i);
      OwnedStep(run[k - 1], actions[k - 1], i);
    }
  }

  // ---------------------------------------------------------------- signals

  /** stop() kills the runner's live child, or interrupts it if asked to, and touches no other. */
  lemma StopSignalsItsChild(run: seq<State>, actions: seq<Action>, k: nat, i: nat, start: bool, useInt: bool, p: nat)
    requires IsRun(run, actions) && k < |actions| && actions[k] == ControllerStep(i, start, useInt)
    requires i < |run[k].runners| && run[k].runners[i].controller == Signal && p < |run[k].children|
    ensures |run[k + 1].children| == |run[k].children|
    ensures LiveChildOf(run[k], i, p) ==>
              run[k + 1].children[p] == if useInt then run[k].children[p].(interrupted := true) else run[k].children[p].(killed := true)
    ensures run[k].children[p].owner != i ==> run[k + 1].children[p] == run[k].children[p]
  {
    RunKeepsInv(run, actions, k);
    assert RunnerOk(run[k], i) && ChildOk(run[k], p);
    assert run[k + 1] == Next(run[k], actions[k]);
  }

  /** The children that the handler is still to interrupt. */
  function Uninterrupted(s: State): set<nat> {
    if s.handler.Interrupting? then s.handler.todo else {}
  }

  /** A live child is known to the watcher, about to be, or interrupted and killed by the handler; it is interrupted first. */
  predicate HandledChild(s: State, p: nat)
    requires p < |s.children|
  {
    var c := s.children[p];
    c.alive ==>
      (p in s.registered || (c.owner < |s.runners| && s.runners[c.owner].worker == Register) || (c.interrupted && c.killed)) &&
      (s.sigint && p !in Uninterrupted(s) ==> c.interrupted)
  }

  ghost predicate Handled(s: State) {
    forall p :: 0 <= p < |s.children| ==> HandledChild(s, p)
  }

  lemma WorkerKeepsHandled(s: State, i: nat, spawned: bool, code: int, p: nat)
    requires Inv(s) && Handled(s) && i < |s.runners| && WorkerCan(s, i) && p < |WorkerNext(s, i, spawned, code).children|
    ensures HandledChild(WorkerNext(s, i, spawned, code), p)
  {
    assert RunnerOk(s, i);
    if p < |s.children| {
      assert ChildOk(s, p) && HandledChild(s, p);
    }
  }

  lemma ControllerKeepsHandled(s: State, i: nat, start: bool, useInt: bool, p: nat)
    requires Inv(s) && Handled(s) && i < |s.runners| && ControllerCan(s, i, start) && p < |s.children|
    ensures HandledChild(ControllerNext(s, i, start, useInt), p)
  {
    assert RunnerOk(s, i) && ChildOk(s, p) && HandledChild(s, p);
  }

  lemma HandlerKeepsHandled(s: State, q: nat, p: nat)
    requires Inv(s) && Handled(s) && HandlerCan(s, q) && p < |s.children|
    ensures HandledChild(HandlerNext(s, q), p)
  {
    assert ChildOk(s, p) && HandledChild(s, p);
    if s.children[p].owner < |s.runners| {
      assert RunnerOk(s, s.children[p].owner);
    }
  }

  lemma StepKeepsHandled(s: State, a: Action)
    requires Inv(s) && Handled(s) && Can(s, a)
    ensures Handled(Next(s, a))
  {
    forall p | 0 <= p < |Next(s, a).children|
      ensures HandledChild(Next(s, a), p)
    {
      match a
      case WorkerStep(i, spawned, code) => WorkerKeepsHandled(s, i, spawned, code, p);
      case ControllerStep(i, start, useInt) => ControllerKeepsHandled(s, i, start, useInt, p);
      case HandlerStep(q) => HandlerKeepsHandled(s, q, p);
      case ChildExit(q) => assert HandledChild(s, p);
    }
  }

  lemma {:induction false} RunKeepsHandled(run: seq<State>, actions: seq<Action>, k: nat)
    requires IsRun(run, actions) && k < |run|
    ensures Handled(run[k])
  {
    hide Inv, Can, Next, HandledChild;
    if k > 0 {
      RunKeepsHandled(run, actions, k - 1);
      RunKeepsInv(run, actions, k - 1);
      StepKeepsHandled(run[k - 1], actions[k - 1]);
    }
  }

  /** By the time the handler kills, every child that is still alive has been interrupted. */
  lemma InterruptedBeforeKilled(run: seq<State>, actions: seq<Action>, k: nat, p: nat)
    requires IsRun(run, actions) && k < |run| && (run[k].handler.Reaping? || run[k].handler.Done?)
    requires p < |run[k].children| && run[k].children[p].alive
    ensures run[k].children[p].interrupted
  {
    RunKeepsInv(run, actions, k);
    RunKeepsHandled(run, actions, k);
    assert HandledChild(run[k], p);
  }

  /** What a worker has left behind once it is through: its child is unregistered, and then forgotten. */
  predicate TidyRunner(s: State, i: nat)
    requires i < |s.runners|
  {
    var r := s.runners[i];
    (r.worker == Forget && r.current.Some? ==> r.current.value !in s.registered) && (r.worker == Ended ==> r.current == None)
  }

  ghost predicate Tidy(s: State) {
    forall i :: 0 <= i < |s.runners| ==> TidyRunner(s, i)
  }

  lemma WorkerKeepsTidy(s: State, i: nat, spawned: bool, code: int, j: nat)
    requires i < |s.runners| && WorkerCan(s, i) && j < |s.runners| && TidyRunner(s, j) && FlagsOk(s, i) && FlagsOk(s, j)
    ensures TidyRunner(WorkerNext(s, i, spawned, code), j)
  {
  }

  lemma StepKeepsTidy(s: State, a: Action)
    requires Inv(s) && Tidy(s) && Can(s, a)
    ensures Tidy(Next(s, a))
  {
    forall j | 0 <= j < |Next(s, a).runners|
      ensures TidyRunner(Next(s, a), j)
    {
      StepKeepsRunners(s, a);
      if a.WorkerStep? {
        assert RunnerOk(s, a.i) && RunnerOk(s, j) && TidyRunner(s, j);
        WorkerKeepsTidy(s, a.i, a.spawned, a.code, j);
      } else {
        assert TidyRunner(s, j);
        assert RunnerOk(s, j);
        hide Inv, Tidy, WorkerNext, WorkerCan, LockOk, WatcherLockOk, ChildOk;
      }
    }
  }

  lemma {:induction false} RunKeepsTidy(run: seq<State>, actions: seq<Action>, k: nat)
    requires IsRun(run, actions) && k < |run|
    ensures Tidy(run[k])
  {
    hide Inv, Can, Next, TidyRunner;
    if k > 0 {
      RunKeepsTidy(run, actions, k - 1);
      RunKeepsInv(run, actions, k - 1);
      StepKeepsTidy(run[k - 1], actions[k - 1]);
    } else {
      InitTidy(run[0]);
    }
  }

  lemma InitTidy(s: State)
    requires Init(s)
    ensures Tidy(s)
  {
  }

  /** A worker's last step forgets a child that the watcher no longer knows, and leaves no lock held. */
  lemma LastStepIsTidy(run: seq<State>, actions: seq<Action>, k: nat, i: nat)
    requires IsRun(run, actions) && k < |actions| && actions[k].WorkerStep? && actions[k].i == i
    requires i < |run[k].runners| && run[k].runners[i].worker == Forget
    ensures run[k].runners[i].current.Some? ==> run[k].runners[i].current.value !in run[k + 1].registered
    ensures i < |run[k + 1].runners| && run[k + 1].runners[i].worker == Ended
    ensures run[k + 1].runners[i].current == None && run[k + 1].runners[i].lock != Some(ByWorker)
  {
    RunKeepsTidy(run, actions, k);
    RunKeepsTidy(run, actions, k + 1);
    RunKeepsInv(run, actions, k + 1);
    assert TidyRunner(run[k], i);
    assert run[k + 1] == Next(run[k], actions[k]);
    assert TidyRunner(run[k + 1], i) && RunnerOk(run[k + 1], i);
  }

  /** A worker that finds the interrupt dies on the spot: it holds no lock, and takes no further step. */
  lemma InterruptEndsWorker(run: seq<State>, actions: seq<Action>, k: nat, i: nat)
    requires IsRun(run, actions) && k < |actions| && actions[k].WorkerStep? && actions[k].i == i
    requires i < |run[k].runners| && run[k].runners[i].worker == CheckSigint && run[k].sigint
    ensures i < |run[k + 1].runners| && !WorkerCan(run[k + 1], i) && run[k + 1].children == run[k].children
    ensures run[k + 1].runners[i].lock != Some(ByWorker) && run[k + 1].watcherLock != Some(WorkerOf(i))
    ensures run[k + 1].runners[i].worker == Died
  {
    RunKeepsInv(run, actions, k + 1);
    assert run[k + 1] == Next(run[k], actions[k]);
    assert RunnerOk(run[k + 1], i);
  }

  // ---------------------------------------------------------------- no deadlock

  /** A step that can be taken and is not a new request. */
  predicate CanMove(s: State, a: Action) {
    Can(s, a) && (a.ControllerStep? ==> s.runners[a.i].controller != Idle)
  }

  /**
   What a worker waits for: nothing, if it can step itself; the exit of its live child, which
   has been sent a signal if its runner is to stop; or a step of whoever holds the lock it needs.
   */
  ghost predicate WaitsFor(s: State, i: nat, a: Action)
    requires i < |s.runners|
  {
    var r := s.runners[i];
    if WorkerCan(s, i) then a.WorkerStep? && a.i == i
    else
      match r.worker
      case TakeLock | FinalLock => r.lock == Some(ByController) && a.ControllerStep? && a.i == i
      case Communicate =>
        && r.current.Some? && a == ChildExit(r.current.value) && LiveChildOf(s, i, r.current.value)
        && (r.stop && r.controller != Signal ==> Signalled(s.children[r.current.value]))
      case EnterWatcher | Unregister =>
        && s.watcherLock.Some?
        && (match s.watcherLock.value
            case WorkerOf(j) => j != i && a.WorkerStep? && a.i == j
            case SigintHandler => a.HandlerStep?)
      case _ => false
  }

  /** What a worker that has work left waits for can happen. */
  lemma WorkerNeverStuck(s: State, i: nat) returns (a: Action)
    requires Inv(s) && i < |s.runners|
    requires s.runners[i].worker !in {Absent, Ended, Died}
    ensures CanMove(s, a) && WaitsFor(s, i, a)
  {
    assert RunnerOk(s, i);
    var r := s.runners[i];
    if WorkerCan(s, i) {
      return WorkerStep(i, true, 0);
    }
    if r.worker == TakeLock || r.worker == FinalLock {
      assert r.lock.value == ByController;
      return ControllerStep(i, false, false);
    }
    if r.worker == Communicate {
      assert ChildOk(s, r.current.value);
      return ChildExit(r.current.value);
    }
    if s.watcherLock.value.WorkerOf? {
      var j := s.watcherLock.value.i;
      assert RunnerOk(s, j);
      return WorkerStep(j, true, 0);
    }
    a := HandlerMove(s);
  }

  /** In every run, the child that stop() waits for has been killed or interrupted: no kill goes to an earlier child. */
  lemma JoinWaitsForSignalledChild(run: seq<State>, actions: seq<Action>, k: nat, i: nat, p: nat)
    requires IsRun(run, actions) && k < |run| && i < |run[k].runners| && run[k].runners[i].controller == Join
    requires LiveChildOf(run[k], i, p)
    ensures run[k].runners[i].worker == Communicate && run[k].runners[i].current == Some(p) && Signalled(run[k].children[p])
  {
    RunKeepsInv(run, actions, k);
    assert RunnerOk(run[k], i) && ChildOk(run[k], p);
  }

  lemma HandlerMove(s: State) returns (a: Action)
    requires Inv(s) && s.handler != Waiting && s.handler != Done
    ensures CanMove(s, a) && a.HandlerStep?
  {
    match s.handler
    case Interrupting(todo) =>
      if todo == {} {
        a := HandlerStep(0);
      } else {
        var p :| p in todo;
        a := HandlerStep(p);
      }
    case Reaping(todo) =>
      if todo == {} {
        a := HandlerStep(0);
      } else {
        var p :| p in todo;
        a := HandlerStep(p);
      }
    case Flag => a := HandlerStep(0);
  }
}
