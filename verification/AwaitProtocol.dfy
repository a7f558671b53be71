/** Awaiting and completing tasks: worker threads step tasks, callback threads
    complete native ones, and each statement that touches shared memory is a
    separate step. Taking a task from the scheduler's queue and putting one on it
    are single steps: SchedulerPool opens up the mutex around them. */
module AwaitProtocol {
  import opened Wrappers

  type TaskId = nat

  datatype Thread = Worker(n: nat) | Callback(n: nat)

  /** A stored resume address: the block after the n-th await, or the exit block. */
  datatype Resume = Point(n: nat) | Exit

  /** Where the right to run a task is. History only. */
  datatype Place = Queued | Held(th: Thread) | Parked(on: TaskId) | InHand(th: Thread) | Over

  /** How far a task's completion has come. History only. */
  datatype Phase = NotYet | By(th: Thread) | Finished

  /** A task record. The fields from `waitsFor` on are history: no step branches on them
      except on `armed`, which allows a native task one completion. `waitsFor`, `registered`,
      `saw` and `woken` are about the task's last await: on which task, whether it registered
      there or saw it done, and how often it has been pushed for it. */
  datatype Task = Task(
    native: bool, next: Option<TaskId>, lock: Option<Thread>, done: bool, result: int, resume: Resume,
    waitsFor: Option<TaskId>, registered: bool, saw: bool, woken: nat,
    armed: bool, place: Place, phase: Phase, expected: Resume, tail: Option<Thread>,
    completions: nat, handed: bool, pushes: nat)

  datatype Pc =
    | Idle
    | Step(t: TaskId)                                           // about to call t.StepNext
    | Run(t: TaskId, r: nat)                                    // in the code after await r of t
    | AwLock(t: TaskId, s: TaskId, r: nat)                      // LockST(s)
    | AwTest(t: TaskId, s: TaskId, r: nat)                      // b := IsDone(s)
    | AwReg(t: TaskId, s: TaskId, r: nat)                       // s.nextTask := t
    | AwUnlock(t: TaskId, s: TaskId, r: nat, b: bool)           // UnLockST(s)
    | AwStore(t: TaskId, s: TaskId, r: nat, b: bool)            // t's resume address := the block after the await
    | AwRet(t: TaskId, s: TaskId, r: nat, b: bool)              // return b
    | RetAddr(t: TaskId, v: int)                                // t's resume address := exit block
    | RetVal(t: TaskId, v: int)                                 // t's result := v
    | CoLock(s: TaskId) | CoSet(s: TaskId) | CoGet(s: TaskId)   // TryQueueContinuous(s)
    | CoPush(s: TaskId, c: TaskId) | CoUnlock(s: TaskId)

  datatype State = State(tasks: map<TaskId, Task>, queue: seq<TaskId>, pc: map<Thread, Pc>, stale: bool)
  {
    function At(th: Thread): Pc { if th in pc then pc[th] else Idle }
    function Go(th: Thread, p: Pc): State { this.(pc := pc[th := p]) }
    function Set(t: TaskId, x: Task): State { this.(tasks := tasks[t := x]) }
  }

  /** `fused`: releasing the awaited task's lock and storing the own resume address are one step. */
  datatype Setting = Setting(workers: nat, fused: bool)

  datatype Action =
    | Spawn(u: TaskId, native: bool)       // an async call: create and queue
    | Fetch                                // take the first queued task
    | Dispatch(arm: bool)                  // enter StepNext; a native job may start its operation
    | BeginAwait(s: TaskId)
    | BeginReturn(v: int)
    | BeginComplete(s: TaskId, v: int)     // SetResult, then TryQueueContinuous
    | Advance                              // the next statement

  const NEW_TASK := Task(false, None, None, false, 0, Point(0),
                         None, false, false, 0,
                         false, Queued, NotYet, Point(0), None,
                         0, false, 0)

  // ----- the steps -----

  predicate CanAdvance(st: State, th: Thread) {
    match st.At(th)
    case Idle => false
    case Step(_) => false
    case Run(_, _) => false
    case AwLock(_, s, _) => s in st.tasks && st.tasks[s].lock == None
    case CoLock(s) => s in st.tasks && st.tasks[s].lock == None
    case _ => true
  }

  predicate Enabled(st: State, th: Thread, a: Action, w: Setting) {
    && (th.Worker? ==> th.n < w.workers)
    && match a
       case Spawn(u, _) => u !in st.tasks && (st.At(th).Run? || (th.Callback? && st.At(th).Idle?))
       case Fetch => th.Worker? && st.At(th).Idle? && st.queue != []
       case Dispatch(arm) => st.At(th).Step? && st.At(th).t in st.tasks && (arm ==> st.tasks[st.At(th).t].native)
       case BeginAwait(s) => st.At(th).Run? && s in st.tasks && st.At(th).t in st.tasks
       case BeginReturn(_) => st.At(th).Run? && st.At(th).t in st.tasks
       case BeginComplete(s, _) => th.Callback? && st.At(th).Idle? && s in st.tasks && st.tasks[s].armed
       case Advance => CanAdvance(st, th)
  }

  function Get(st: State, t: TaskId): Task { if t in st.tasks then st.tasks[t] else NEW_TASK }

  function Succ(r: Resume): Resume { match r case Point(n) => Point(n + 1) case Exit => Exit }

  function Enter(st: State, th: Thread, t: TaskId, arm: bool): State {
    var x := Get(st, t);
    if x.native then st.Set(t, x.(armed := arm, place := Over)).Go(th, Idle)
    else
      var st1 := st.(stale := st.stale || x.resume != x.expected);
      match x.resume
      case Exit => st1.Go(th, Idle)
      case Point(r) => st1.Go(th, Run(t, r))
  }

  // One function for each statement of AwaitNode, RetNode and TryQueueContinuous.

  function LockAwaited(st: State, th: Thread, t: TaskId, s: TaskId, r: nat): State {
    st.Set(s, Get(st, s).(lock := Some(th))).Go(th, AwTest(t, s, r))
  }

  function TestDone(st: State, th: Thread, t: TaskId, s: TaskId, r: nat): State {
    if Get(st, s).done then st.Set(t, Get(st, t).(saw := true)).Go(th, AwUnlock(t, s, r, true))
    else st.Go(th, AwReg(t, s, r))
  }

  function Register(st: State, th: Thread, t: TaskId, s: TaskId, r: nat): State {
    var st1 := st.Set(s, Get(st, s).(next := Some(t)));
    st1.Set(t, Get(st1, t).(place := Parked(s), tail := Some(th), registered := true)).Go(th, AwUnlock(t, s, r, false))
  }

  function StoreResume(st: State, th: Thread, t: TaskId, s: TaskId, r: nat, b: bool): State {
    st.Set(t, Get(st, t).(resume := Point(r + 1), tail := None)).Go(th, AwRet(t, s, r, b))
  }

  function UnlockAwaited(st: State, th: Thread, t: TaskId, s: TaskId, r: nat, b: bool, w: Setting): State {
    var st1 := st.Set(s, Get(st, s).(lock := None));
    if w.fused then StoreResume(st1, th, t, s, r, b) else st1.Go(th, AwStore(t, s, r, b))
  }

  function StoreExit(st: State, th: Thread, t: TaskId, v: int): State {
    st.Set(t, Get(st, t).(resume := Exit)).Go(th, RetVal(t, v))
  }

  /** The record of a task whose completion begins with its result. */
  function Answering(x: Task, th: Thread, v: int): Task {
    x.(result := v, phase := By(th), completions := x.completions + 1)
  }

  function StoreResult(st: State, th: Thread, t: TaskId, v: int): State {
    st.Set(t, Answering(Get(st, t), th, v)).Go(th, CoLock(t))
  }

  function LockOwn(st: State, th: Thread, s: TaskId): State {
    st.Set(s, Get(st, s).(lock := Some(th))).Go(th, CoSet(s))
  }

  function SetDone(st: State, th: Thread, s: TaskId): State {
    st.Set(s, Get(st, s).(done := true)).Go(th, CoGet(s))
  }

  function GetContinuous(st: State, th: Thread, s: TaskId): State {
    var st1 := st.Set(s, Get(st, s).(handed := true));
    match Get(st, s).next
    case None => st1.Go(th, CoUnlock(s))
    case Some(c) => st1.Set(c, Get(st1, c).(place := InHand(th))).Go(th, CoPush(s, c))
  }

  function PushContinuation(st: State, th: Thread, s: TaskId, c: TaskId): State {
    var st1 := st.Set(s, Get(st, s).(pushes := Get(st, s).pushes + 1));
    var y := Get(st1, c).(place := Queued, woken := Get(st1, c).woken + 1);
    st1.Set(c, y).(queue := st.queue + [c]).Go(th, CoUnlock(s))
  }

  function UnlockOwn(st: State, th: Thread, s: TaskId): State {
    var x := Get(st, s).(lock := None, phase := Finished);
    st.Set(s, if th.Worker? then x.(place := Over) else x).Go(th, Idle)
  }

  /** The statement that thread `th` is at. */
  function Advanced(st: State, th: Thread, w: Setting): State {
    match st.At(th)
    case AwLock(t, s, r) => LockAwaited(st, th, t, s, r)
    case AwTest(t, s, r) => TestDone(st, th, t, s, r)
    case AwReg(t, s, r) => Register(st, th, t, s, r)
    case AwUnlock(t, s, r, b) => UnlockAwaited(st, th, t, s, r, b, w)
    case AwStore(t, s, r, b) => StoreResume(st, th, t, s, r, b)
    case AwRet(t, _, _, b) => st.Go(th, if b then Step(t) else Idle)
    case RetAddr(t, v) => StoreExit(st, th, t, v)
    case RetVal(t, v) => StoreResult(st, th, t, v)
    case CoLock(s) => LockOwn(st, th, s)
    case CoSet(s) => SetDone(st, th, s)
    case CoGet(s) => GetContinuous(st, th, s)
    case CoPush(s, c) => PushContinuation(st, th, s, c)
    case CoUnlock(s) => UnlockOwn(st, th, s)
    case _ => st
  }

  function Create(st: State, u: TaskId, native: bool): State {
    st.Set(u, NEW_TASK.(native := native)).(queue := st.queue + [u])
  }

  function Take(st: State, th: Thread, t: TaskId): State
    requires st.queue != []
  {
    st.Set(t, Get(st, t).(place := Held(th))).(queue := st.queue[1..]).Go(th, Step(t))
  }

  function AwaitStarts(st: State, th: Thread, t: TaskId, s: TaskId, r: nat): State {
    st.Set(t, Begun(Get(st, t), s)).Go(th, AwLock(t, s, r))
  }

  /** The record of a task that begins an await on `s`. */
  function Begun(x: Task, s: TaskId): Task {
    x.(waitsFor := Some(s), registered := false, saw := false, woken := 0, expected := Succ(x.expected))
  }

  function ReturnStarts(st: State, th: Thread, t: TaskId, v: int): State {
    st.Set(t, Get(st, t).(expected := Exit)).Go(th, RetAddr(t, v))
  }

  function CompletionStarts(st: State, th: Thread, s: TaskId, v: int): State {
    st.Set(s, Answering(Get(st, s), th, v).(armed := false)).Go(th, CoLock(s))
  }

  function Next(st: State, th: Thread, a: Action, w: Setting): State
    requires Enabled(st, th, a, w)
  {
    match a
    case Spawn(u, native) => Create(st, u, native)
    case Fetch => Take(st, th, st.queue[0])
    case Dispatch(arm) => Enter(st, th, st.At(th).t, arm)
    case BeginAwait(s) => AwaitStarts(st, th, st.At(th).t, s, st.At(th).r)
    case BeginReturn(v) => ReturnStarts(st, th, st.At(th).t, v)
    case BeginComplete(s, v) => CompletionStarts(st, th, s, v)
    case Advance => Advanced(st, th, w)
  }

  const INIT := State(map[], [], map[], false)

  /** A run: from the initial state, `acts[i]` leads from state i to state i+1. */
  ghost predicate IsRun(run: seq<State>, acts: seq<(Thread, Action)>, w: Setting) {
    && |run| == |acts| + 1 && run[0] == INIT
    && forall i {:trigger acts[i]} :: 0 <= i < |acts| ==>
      Enabled(run[i], acts[i].0, acts[i].1, w) && run[i + 1] == Next(run[i], acts[i].0, acts[i].1, w)
  }

  // ----- what every step keeps -----

  /** The settings in which no other worker can come between unlocking the awaited task
      and storing the own resume address. Only what is said about resume addresses needs it. */
  predicate Safe(w: Setting) { w.workers <= 1 || w.fused }

  /** The task whose right to run a thread has. */
  function Token(th: Thread, p: Pc): Option<TaskId> {
    match p
    case Idle => None
    case Step(t) => Some(t)
    case Run(t, _) => Some(t)
    case AwLock(t, _, _) => Some(t)
    case AwTest(t, _, _) => Some(t)
    case AwReg(t, _, _) => Some(t)
    case AwUnlock(t, _, _, b) => if b then Some(t) else None
    case AwStore(t, _, _, b) => if b then Some(t) else None
    case AwRet(t, _, _, b) => if b then Some(t) else None
    case RetAddr(t, _) => Some(t)
    case RetVal(t, _) => Some(t)
    case _ => if th.Worker? && Completes(p).Some? then Completes(p) else None
  }

  function Completes(p: Pc): Option<TaskId> {
    match p
    case CoLock(s) => Some(s)
    case CoSet(s) => Some(s)
    case CoGet(s) => Some(s)
    case CoPush(s, _) => Some(s)
    case CoUnlock(s) => Some(s)
    case _ => None
  }

  function Locks(p: Pc): Option<TaskId> {
    match p
    case AwTest(_, s, _) => Some(s)
    case AwReg(_, s, _) => Some(s)
    case AwUnlock(_, s, _, _) => Some(s)
    case CoLock(_) => None
    case _ => Completes(p)
  }

  /** The task that has registered itself but not yet stored its resume address. */
  function Tail(p: Pc): Option<TaskId> {
    match p
    case AwUnlock(t, _, _, false) => Some(t)
    case AwStore(t, _, _, false) => Some(t)
    case _ => None
  }

  ghost predicate PcOk(st: State, th: Thread, w: Setting) {
    var p := st.At(th);
    && (th.Worker? && th.n >= w.workers ==> p == Idle)
    && (th.Callback? ==> p == Idle || Completes(p).Some?)
    && (Token(th, p).Some? ==> Token(th, p).value in st.tasks && st.tasks[Token(th, p).value].place == Held(th))
    && (Locks(p).Some? ==> Locks(p).value in st.tasks && st.tasks[Locks(p).value].lock == Some(th))
    && (Completes(p).Some? ==>
          Completes(p).value in st.tasks && st.tasks[Completes(p).value].phase == By(th)
          && st.tasks[Completes(p).value].native == th.Callback?)
    && (Tail(p).Some? ==> Tail(p).value in st.tasks && (Safe(w) ==> st.tasks[Tail(p).value].tail == Some(th)))
    && PcFacts(st, th, p, w)
  }

  /** Both addresses of `x` are after an await; in a safe setting both are after await `r` and `e`. */
  predicate Points(x: Task, r: nat, e: nat, w: Setting) {
    x.resume.Point? && x.expected.Point? && (Safe(w) ==> x.resume == Point(r) && x.expected == Point(e))
  }

  ghost predicate Awaiting(st: State, t: TaskId, s: TaskId, r: nat, w: Setting) {
    && t in st.tasks && s in st.tasks && !st.tasks[t].native
    && st.tasks[t].waitsFor == Some(s)
    && Points(st.tasks[t], r, r + 1, w)
  }

  predicate Undecided(x: Task) { !x.registered && !x.saw }

  ghost predicate PcFacts(st: State, th: Thread, p: Pc, w: Setting) {
    match p
    case Idle => true
    case Step(t) => Fit(st, t, w)
    case Run(t, r) => t in st.tasks && !st.tasks[t].native && Points(st.tasks[t], r, r, w)
    case AwLock(t, s, r) => Awaiting(st, t, s, r, w) && Undecided(st.tasks[t])
    case AwTest(t, s, r) => Awaiting(st, t, s, r, w) && Undecided(st.tasks[t])
    case AwReg(t, s, r) => Awaiting(st, t, s, r, w) && Undecided(st.tasks[t]) && !st.tasks[s].done
    case AwUnlock(t, s, r, b) => Awaiting(st, t, s, r, w)
      && (b ==> st.tasks[s].done)
      && (!b ==> st.tasks[t].place == Parked(s))
    case AwStore(t, s, r, b) => t in st.tasks && s in st.tasks && !st.tasks[t].native && !w.fused
      && (b || Safe(w) ==> Awaiting(st, t, s, r, w))
      && (b ==> st.tasks[s].done)
    case AwRet(t, s, r, b) => t in st.tasks && (b ==> Fit(st, t, w))
    case RetAddr(t, v) =>
      t in st.tasks && !st.tasks[t].native && st.tasks[t].expected == Exit && st.tasks[t].phase == NotYet
    case RetVal(t, v) =>
      t in st.tasks && !st.tasks[t].native && st.tasks[t].expected == Exit && st.tasks[t].phase == NotYet
      && (Safe(w) ==> st.tasks[t].resume == Exit)
    case CoLock(s) => s in st.tasks && !st.tasks[s].done && !st.tasks[s].handed && st.tasks[s].pushes == 0
    case CoSet(s) => s in st.tasks && !st.tasks[s].done && !st.tasks[s].handed && st.tasks[s].pushes == 0
    case CoGet(s) => s in st.tasks && st.tasks[s].done && !st.tasks[s].handed && st.tasks[s].pushes == 0
    case CoPush(s, c) =>
      s in st.tasks && st.tasks[s].done && st.tasks[s].handed && st.tasks[s].pushes == 0 && st.tasks[s].next == Some(c)
      && c in st.tasks && st.tasks[c].place == InHand(th) && st.tasks[c].waitsFor == Some(s)
    case CoUnlock(s) =>
      s in st.tasks && st.tasks[s].done && st.tasks[s].handed
      && st.tasks[s].pushes == if st.tasks[s].next == None then 0 else 1
  }

  /** A task that may be stepped: it has a resume address, in a safe setting the one it
      should have, and what it waited for is done. */
  ghost predicate Fit(st: State, t: TaskId, w: Setting) {
    && t in st.tasks && st.tasks[t].resume.Point? && (Safe(w) ==> st.tasks[t].resume == st.tasks[t].expected)
      && Ready(st, t)
  }

  ghost predicate Ready(st: State, t: TaskId) {
    && t in st.tasks
    && st.tasks[t].expected.Point?
    && (st.tasks[t].waitsFor.Some? ==>
      st.tasks[t].waitsFor.value in st.tasks && st.tasks[st.tasks[t].waitsFor.value].done)
  }

  ghost predicate TaskOk(st: State, t: TaskId, w: Setting)
    requires t in st.tasks
  {
    var x := st.tasks[t];
    && (x.place == Queued ==> t in st.queue && Ready(st, t))
    && (x.place.Held? ==> Token(x.place.th, st.At(x.place.th)) == Some(t))
    && (x.place.InHand? ==> st.At(x.place.th).CoPush? && st.At(x.place.th).c == t && Ready(st, t))
    && (x.place.Parked? ==>
          x.place.on in st.tasks && st.tasks[x.place.on].next.Some?
          && (st.tasks[x.place.on].next == Some(t) ==> !st.tasks[x.place.on].handed)
          && x.waitsFor == Some(x.place.on) && x.expected.Point?)
    && (x.lock.Some? ==> Locks(st.At(x.lock.value)) == Some(t))
    && (x.place == Queued || x.place.InHand? || x.place.Parked? ==> x.resume.Point?)
    && (Safe(w) ==> Settled(st, t, x))
    && (x.phase.By? ==> Completes(st.At(x.phase.th)) == Some(t))
    && LifeOk(st, t, x) && AwaitOk(st, x)
  }

  /** A task that saw the other done is not pushed for that await; one that registered is
      pushed once, after it has been taken from its parking place. */
  ghost predicate AwaitOk(st: State, x: Task) {
    && (x.waitsFor.Some? ==> x.waitsFor.value in st.tasks)
    && (x.saw ==> !x.registered && x.waitsFor.Some? && st.tasks[x.waitsFor.value].done)
    && (x.registered ==> x.waitsFor.Some? && (x.place.Parked? || st.tasks[x.waitsFor.value].done))
    && (x.registered ==> x.woken == if x.place.Parked? || x.place.InHand? then 0 else 1)
    && (!x.registered ==> x.woken == 0 && !x.place.Parked? && !x.place.InHand?)
  }

  /** Only the thread that registered a task has yet to store its resume address. */
  ghost predicate Settled(st: State, t: TaskId, x: Task) {
    && (x.place.Held? ==> x.tail == None)
    && (x.tail.Some? ==> Tail(st.At(x.tail.value)) == Some(t))
    && (x.tail.None? && (x.place == Queued || x.place.InHand? || x.place.Parked?) ==> x.resume == x.expected)
  }

  ghost predicate LifeOk(st: State, t: TaskId, x: Task) {
    && (x.next.Some? ==>
          x.next.value in st.tasks && st.tasks[x.next.value].waitsFor.Some?
          && (!x.handed ==> st.tasks[x.next.value].place == Parked(t)))
    && (x.handed ==> x.done)
    && (x.phase == NotYet ==> !x.done && !x.handed && x.pushes == 0 && x.completions == 0)
    && (x.phase != NotYet ==>
      x.completions == 1 && !x.armed && (!x.native ==> x.expected == Exit))
    && (x.phase == Finished ==> x.done && x.handed && x.pushes == if x.next == None then 0 else 1)
    && (x.armed ==> x.native)
    && (x.native && x.place != Over ==> !x.armed && x.phase == NotYet)
    && (x.native ==> x.tail == None && x.waitsFor == None && x.resume == x.expected == Point(0))
  }

  ghost predicate QueueOk(st: State) {
    && (forall i :: 0 <= i < |st.queue| ==> st.queue[i] in st.tasks && st.tasks[st.queue[i]].place == Queued)
    && (forall i, j :: 0 <= i < j < |st.queue| ==> st.queue[i] != st.queue[j])
  }

  ghost predicate Inv(st: State, w: Setting) {
    && (forall t :: t in st.tasks ==> TaskOk(st, t, w))
    && (forall th :: PcOk(st, th, w))
    && QueueOk(st)
    && (Safe(w) ==> !st.stale)
  }

  // ----- what a step of one thread leaves intact for the others -----

  /** Thread `th` may turn task `t` into `y`: it changes only what its own right to
      run, its locks and its completions cover. */
  ghost predicate MayChange(st: State, th: Thread, t: TaskId, y: Task, w: Setting)
    requires t in st.tasks
  {
    var x := st.tasks[t];
    && y.native == x.native
    && (x.waitsFor.Some? ==> y.waitsFor.Some?)
    && (y.place != x.place ==>
      x.place == Held(th) || x.place == InHand(th) || x.place == Queued || ParkedBehind(st, th, x.place))
    && (y.lock != x.lock ==> x.lock == None || x.lock == Some(th))
    && ((y.expected, y.waitsFor, y.registered, y.saw) != (x.expected, x.waitsFor, x.registered, x.saw) ==>
      x.place == Held(th))
    && (y.woken != x.woken ==> x.place == Held(th) || x.place == InHand(th))
    && (y.resume != x.resume ==> x.place == Held(th) || (y.resume.Point? && !x.native))
    && (Safe(w) && (y.resume, y.expected, y.waitsFor, y.tail) != (x.resume, x.expected, x.waitsFor, x.tail) ==>
          x.tail == Some(th) || (x.tail == None && x.place == Held(th)))
    && (y.next != x.next ==> x.lock == Some(th) && !x.done && y.next.Some?)
    && (x.done ==> y.done)
    && ((y.done, y.handed, y.pushes) != (x.done, x.handed, x.pushes) ==> x.phase == By(th) && x.lock == Some(th))
    && (y.phase != x.phase ==> x.phase == By(th) || (x.phase == NotYet && (x.native || x.place == Held(th))))
  }

  ghost predicate ParkedBehind(st: State, th: Thread, p: Place) {
    p.Parked? && p.on in st.tasks && st.tasks[p.on].lock == Some(th)
  }

  /** Only thread `th` moved, and it changed tasks only as it may. */
  ghost predicate StepOf(st: State, st': State, th: Thread, w: Setting) {
    && (forall o :: o != th ==> st'.At(o) == st.At(o))
    && (forall t :: t in st.tasks ==> t in st'.tasks && MayChange(st, th, t, st'.tasks[t], w))
  }

  lemma OtherPc(st: State, st': State, th: Thread, o: Thread, w: Setting)
    requires StepOf(st, st', th, w) && o != th && PcOk(st, o, w)
    requires forall t :: t in st.tasks ==> TaskOk(st, t, w)
    ensures PcOk(st', o, w)
  {
    var p := st.At(o);
    if p.AwLock? || p.AwTest? || p.AwReg? || p.AwUnlock? || p.AwStore? {
      assert TaskOk(st, p.t, w);
      OtherAwaiter(st, st', th, o, w);
    } else {
      OtherRest(st, st', th, o, w);
    }
  }

  lemma OtherRest(st: State, st': State, th: Thread, o: Thread, w: Setting)
    requires StepOf(st, st', th, w) && o != th && PcOk(st, o, w)
    requires Safe(w) ==> forall t :: t in st.tasks && st.tasks[t].place.Held? ==> st.tasks[t].tail == None
    requires var p := st.At(o); !(p.AwLock? || p.AwTest? || p.AwReg? || p.AwUnlock? || p.AwStore?)
    ensures PcOk(st', o, w)
  {
    if Completes(st.At(o)).Some? { OtherCompletes(st, st', th, o, w); } else { OtherRuns(st, st', th, o, w); }
  }

  lemma OtherCompletes(st: State, st': State, th: Thread, o: Thread, w: Setting)
    requires StepOf(st, st', th, w) && o != th && PcOk(st, o, w) && Completes(st.At(o)).Some?
    ensures PcOk(st', o, w)
  {
    var p := st.At(o);
    assert MayChange(st, th, p.s, st'.tasks[p.s], w);
    if p.CoPush? { assert MayChange(st, th, p.c, st'.tasks[p.c], w); }
  }

  lemma OtherRuns(st: State, st': State, th: Thread, o: Thread, w: Setting)
    requires StepOf(st, st', th, w) && o != th && PcOk(st, o, w)
    requires Safe(w) ==> forall t :: t in st.tasks && st.tasks[t].place.Held? ==> st.tasks[t].tail == None
    requires var p := st.At(o); p.Idle? || p.Step? || p.Run? || p.AwRet? || p.RetAddr? || p.RetVal?
    ensures PcOk(st', o, w)
  {
    var p := st.At(o);
    if !p.Idle? {
      assert MayChange(st, th, p.t, st'.tasks[p.t], w);
      if p.Step? || (p.AwRet? && p.b) { StillReady(st, st', th, p.t, w); }
    }
  }

  lemma StillReady(st: State, st': State, th: Thread, t: TaskId, w: Setting)
    requires StepOf(st, st', th, w) && Ready(st, t) && t in st'.tasks
    requires st'.tasks[t].expected == st.tasks[t].expected && st'.tasks[t].waitsFor == st.tasks[t].waitsFor
    ensures Ready(st', t)
  {
    if st.tasks[t].waitsFor.Some? {
      assert MayChange(st, th, st.tasks[t].waitsFor.value, st'.tasks[st.tasks[t].waitsFor.value], w);
    }
  }

  lemma OtherAwaiter(st: State, st': State, th: Thread, o: Thread, w: Setting)
    requires o != th && PcOk(st, o, w) && st'.At(o) == st.At(o)
    requires var p := st.At(o);
      && (p.AwLock? || p.AwTest? || p.AwReg? || p.AwUnlock? || p.AwStore?)
      && TaskOk(st, p.t, w)
      && p.t in st'.tasks && MayChange(st, th, p.t, st'.tasks[p.t], w)
      && p.s in st'.tasks && MayChange(st, th, p.s, st'.tasks[p.s], w)
    ensures PcOk(st', o, w)
  {
  }

  /** What thread `th` stands for with respect to task `t` is the same before and after. */
  predicate SameRoles(p: Pc, p': Pc, th: Thread, t: TaskId) {
    && (Token(th, p) == Some(t) ==> Token(th, p') == Some(t))
    && (Locks(p) == Some(t) ==> Locks(p') == Some(t))
    && (Tail(p) == Some(t) ==> Tail(p') == Some(t))
    && (Completes(p) == Some(t) ==> Completes(p') == Some(t))
    && (p.CoPush? && p.c == t ==> p'.CoPush? && p'.c == t)
  }

  /** Registrations survive: a task handed over leaves its parking place in the same step. */
  ghost predicate Links(st: State, st': State, t: TaskId)
    requires t in st.tasks && t in st'.tasks
  {
    var x, y := st.tasks[t], st'.tasks[t];
    && (y.next != x.next ==> y.next.Some? && !y.handed)
    && (y.handed && !x.handed && x.next.Some? && x.next.value in st'.tasks ==>
      st'.tasks[x.next.value].place != Parked(t))
    && (x.place.Parked? && y.place != x.place && x.place.on in st'.tasks ==> st'.tasks[x.place.on].handed)
  }

  lemma OtherTask(st: State, st': State, th: Thread, t: TaskId, w: Setting)
    requires StepOf(st, st', th, w) && t in st.tasks && st'.tasks[t] == st.tasks[t] && TaskOk(st, t, w)
    requires forall u :: u in st.tasks ==> Links(st, st', u)
    requires SameRoles(st.At(th), st'.At(th), th, t)
    requires t in st.queue ==> t in st'.queue
    ensures TaskOk(st', t, w)
  {
    var x := st.tasks[t];
    if x.waitsFor.Some? && x.waitsFor.value in st.tasks {
      assert MayChange(st, th, x.waitsFor.value, st'.tasks[x.waitsFor.value], w);
    }
    if x.place.Parked? { assert Links(st, st', x.place.on); }
    if x.next.Some? {
      assert Links(st, st', x.next.value) && MayChange(st, th, x.next.value, st'.tasks[x.next.value], w);
    }
  }

  /** Task `t`, changed by a step of `th`, is as it should be. */
  ghost predicate Good(st: State, st': State, th: Thread, t: TaskId, w: Setting) {
    && t in st'.tasks && TaskOk(st', t, w)
    && (t in st.tasks ==> MayChange(st, th, t, st'.tasks[t], w) && Links(st, st', t))
  }

  /** The step of `th` touches tasks `a` and `b` and no others. */
  ghost predicate Touches(st: State, st': State, th: Thread, a: TaskId, b: TaskId) {
    && st'.tasks.Keys == st.tasks.Keys + {a, b}
    && (forall t :: t in st.tasks && t != a && t != b ==> st'.tasks[t] == st.tasks[t])
    && (forall t :: t != a && t != b ==> SameRoles(st.At(th), st'.At(th), th, t))
    && (forall o :: o != th ==> st'.At(o) == st.At(o))
    && (forall i :: 0 <= i < |st.queue| && st.queue[i] != a && st.queue[i] != b ==> st.queue[i] in st'.queue)
  }

  /** A step that replaces the record of one task. */
  lemma TouchesOne(st: State, th: Thread, s: TaskId, x: Task, p: Pc)
    requires s in st.tasks && QueueOk(st) && (st.tasks[s].place == Queued ==> x.place == Queued)
    requires forall t :: t != s ==> SameRoles(st.At(th), p, th, t)
    ensures var st' := st.Set(s, x).Go(th, p); Touches(st, st', th, s, s) && QueueOk(st')
  {
  }

  /** A step that replaces the records of two tasks. */
  lemma TouchesTwo(st: State, th: Thread, s: TaskId, x: Task, t: TaskId, y: Task, p: Pc)
    requires s in st.tasks && t in st.tasks && QueueOk(st) && (st.tasks[t].place == Queued ==> y.place == Queued)
    requires s != t && st.tasks[s].place == Queued ==> x.place == Queued
    requires forall u :: u != s && u != t ==> SameRoles(st.At(th), p, th, u)
    ensures var st' := st.Set(s, x).Set(t, y).Go(th, p); Touches(st, st', th, s, t) && QueueOk(st')
  {
    hide SameRoles;
  }

  /** The tasks a thread is at work on exist. */
  lemma InTasks(st: State, th: Thread, w: Setting)
    requires Inv(st, w)
    ensures match st.At(th)
      case Idle => true
      case Step(t) => t in st.tasks
      case Run(t, _) => t in st.tasks
      case AwLock(t, s, _) => t in st.tasks && s in st.tasks
      case AwTest(t, s, _) => t in st.tasks && s in st.tasks
      case AwReg(t, s, _) => t in st.tasks && s in st.tasks
      case AwUnlock(t, s, _, _) => t in st.tasks && s in st.tasks
      case AwStore(t, s, _, _) => t in st.tasks && s in st.tasks
      case AwRet(t, _, _, _) => t in st.tasks
      case RetAddr(t, _) => t in st.tasks
      case RetVal(t, _) => t in st.tasks
      case CoPush(s, c) => s in st.tasks && c in st.tasks
      case p => Completes(p).value in st.tasks
  {
    assert PcOk(st, th, w);
  }

  lemma InvParts(st: State, th: Thread, t: TaskId, w: Setting)
    requires Inv(st, w) && t in st.tasks
    ensures PcOk(st, th, w) && TaskOk(st, t, w) && QueueOk(st) && (Safe(w) ==> !st.stale)
  {
  }

  /** A step is safe once the moving thread, the tasks it changed and the queue are. */
  lemma Assemble(st: State, st': State, th: Thread, a: TaskId, b: TaskId, w: Setting)
    requires Inv(st, w) && Touches(st, st', th, a, b)
    requires PcOk(st', th, w) && QueueOk(st') && (Safe(w) ==> !st'.stale)
    requires Good(st, st', th, a, w) && Good(st, st', th, b, w)
    ensures Inv(st', w)
  {
    forall t | t in st.tasks ensures t in st'.tasks && MayChange(st, th, t, st'.tasks[t], w) && Links(st, st', t) {
      if t != a && t != b { assert MayChange(st, th, t, st.tasks[t], w); }
    }
    forall t | t in st'.tasks ensures TaskOk(st', t, w) {
      if t != a && t != b { OtherTask(st, st', th, t, w); }
    }
    forall o ensures PcOk(st', o, w) {
      assert PcOk(st, o, w);
      if o != th { OtherPc(st, st', th, o, w); }
    }
  }

  lemma AwLockPc(st: State, th: Thread, t: TaskId, s: TaskId, r: nat, w: Setting)
    requires st.At(th) == AwLock(t, s, r) && Enabled(st, th, Advance, w) && PcOk(st, th, w)
    requires s in st.tasks && TaskOk(st, s, w) && t in st.tasks && TaskOk(st, t, w)
    ensures PcOk(LockAwaited(st, th, t, s, r), th, w)
  {
  }

  lemma AwLockAwaited(st: State, th: Thread, t: TaskId, s: TaskId, r: nat, w: Setting)
    requires st.At(th) == AwLock(t, s, r) && Enabled(st, th, Advance, w) && PcOk(st, th, w)
    requires s in st.tasks && TaskOk(st, s, w)
    ensures Good(st, LockAwaited(st, th, t, s, r), th, s, w)
  {
  }

  lemma AwLockAwaiter(st: State, th: Thread, t: TaskId, s: TaskId, r: nat, w: Setting)
    requires st.At(th) == AwLock(t, s, r) && Enabled(st, th, Advance, w) && PcOk(st, th, w)
    requires t in st.tasks && TaskOk(st, t, w) && s != t
    ensures Good(st, LockAwaited(st, th, t, s, r), th, t, w)
  {
  }

  lemma AwLockLocal(st: State, th: Thread, t: TaskId, s: TaskId, r: nat, w: Setting)
    requires st.At(th) == AwLock(t, s, r) && Enabled(st, th, Advance, w) && PcOk(st, th, w)
    requires s in st.tasks && TaskOk(st, s, w) && t in st.tasks && TaskOk(st, t, w)
    ensures var st' := LockAwaited(st, th, t, s, r);
      PcOk(st', th, w) && Good(st, st', th, s, w) && Good(st, st', th, t, w)
  {
    AwLockPc(st, th, t, s, r, w);
    AwLockAwaited(st, th, t, s, r, w);
    if s != t { AwLockAwaiter(st, th, t, s, r, w); }
  }

  lemma AwLockTouches(st: State, th: Thread, t: TaskId, s: TaskId, r: nat, w: Setting)
    requires st.At(th) == AwLock(t, s, r) && s in st.tasks && t in st.tasks && QueueOk(st)
    ensures var st' := LockAwaited(st, th, t, s, r);
      Touches(st, st', th, s, t) && QueueOk(st') && st'.stale == st.stale
  {
    var x := st.tasks[s].(lock := Some(th));
    var y := st.Set(s, x).tasks[t];
    TouchesTwo(st, th, s, x, t, y, AwTest(t, s, r));
    assert st.Set(s, x).Set(t, y) == st.Set(s, x);
  }

  lemma AwLockKeeps(st: State, th: Thread, t: TaskId, s: TaskId, r: nat, w: Setting)
    requires st.At(th) == AwLock(t, s, r) && Enabled(st, th, Advance, w) && Inv(st, w)
    ensures Inv(LockAwaited(st, th, t, s, r), w)
  {
    InTasks(st, th, w);
    hide PcOk, TaskOk, Good, Enabled, Touches, QueueOk;
    AwLockLocal(st, th, t, s, r, w);
    AwLockTouches(st, th, t, s, r, w);
    Assemble(st, LockAwaited(st, th, t, s, r), th, s, t, w);
  }

  lemma AwTestPc(st: State, th: Thread, t: TaskId, s: TaskId, r: nat, w: Setting)
    requires st.At(th) == AwTest(t, s, r) && PcOk(st, th, w)
    ensures PcOk(TestDone(st, th, t, s, r), th, w)
  {
  }

  lemma SeesDone(st: State, th: Thread, t: TaskId, s: TaskId, r: nat, w: Setting)
    requires st.At(th) == AwTest(t, s, r) && PcOk(st, th, w)
    requires s in st.tasks && t in st.tasks && TaskOk(st, t, w) && st.tasks[s].done
    ensures Good(st, TestDone(st, th, t, s, r), th, t, w)
  {
  }

  lemma SeesNotDone(st: State, th: Thread, t: TaskId, s: TaskId, r: nat, w: Setting)
    requires st.At(th) == AwTest(t, s, r) && PcOk(st, th, w)
    requires s in st.tasks && t in st.tasks && TaskOk(st, t, w) && !st.tasks[s].done
    ensures Good(st, TestDone(st, th, t, s, r), th, t, w)
  {
  }

  lemma AwTestLocal(st: State, th: Thread, t: TaskId, s: TaskId, r: nat, w: Setting)
    requires st.At(th) == AwTest(t, s, r) && PcOk(st, th, w)
    requires s in st.tasks && t in st.tasks && TaskOk(st, t, w)
    ensures var st' := TestDone(st, th, t, s, r); PcOk(st', th, w) && Good(st, st', th, t, w)
  {
    AwTestPc(st, th, t, s, r, w);
    if st.tasks[s].done { SeesDone(st, th, t, s, r, w); } else { SeesNotDone(st, th, t, s, r, w); }
  }

  lemma AwTestKeeps(st: State, th: Thread, t: TaskId, s: TaskId, r: nat, w: Setting)
    requires st.At(th) == AwTest(t, s, r) && Inv(st, w)
    ensures Inv(TestDone(st, th, t, s, r), w)
  {
    InTasks(st, th, w);
    InvParts(st, th, t, w);
    hide PcOk, TaskOk, Good, Enabled, Inv;
    var x, done := st.tasks[t], st.tasks[s].done;
    var p := if done then AwUnlock(t, s, r, true) else AwReg(t, s, r);
    TouchesOne(st, th, t, if done then x.(saw := true) else x, p);
    assert !done ==> st.Set(t, x) == st;
    hide Touches, QueueOk, SameRoles;
    AwTestLocal(st, th, t, s, r, w);
    Assemble(st, TestDone(st, th, t, s, r), th, t, t, w);
  }

  lemma AwRegPc(st: State, th: Thread, t: TaskId, s: TaskId, r: nat, w: Setting)
    requires st.At(th) == AwReg(t, s, r) && Enabled(st, th, Advance, w) && PcOk(st, th, w)
    requires s in st.tasks && TaskOk(st, s, w) && t in st.tasks && TaskOk(st, t, w)
    requires st.tasks[s].phase.By? ==> PcOk(st, st.tasks[s].phase.th, w)
    ensures PcOk(Register(st, th, t, s, r), th, w)
  {
  }

  lemma AwRegAwaited(st: State, th: Thread, t: TaskId, s: TaskId, r: nat, w: Setting)
    requires st.At(th) == AwReg(t, s, r) && Enabled(st, th, Advance, w) && PcOk(st, th, w)
    requires s in st.tasks && TaskOk(st, s, w) && t in st.tasks && TaskOk(st, t, w)
    requires st.tasks[s].phase.By? ==> PcOk(st, st.tasks[s].phase.th, w)
    ensures Good(st, Register(st, th, t, s, r), th, s, w)
  {
  }

  lemma AwRegAwaiter(st: State, th: Thread, t: TaskId, s: TaskId, r: nat, w: Setting)
    requires st.At(th) == AwReg(t, s, r) && Enabled(st, th, Advance, w) && PcOk(st, th, w)
    requires s in st.tasks && TaskOk(st, s, w) && t in st.tasks && TaskOk(st, t, w)
    requires st.tasks[s].phase.By? ==> PcOk(st, st.tasks[s].phase.th, w)
    ensures Good(st, Register(st, th, t, s, r), th, t, w)
  {
  }

  lemma AwRegLocal(st: State, th: Thread, t: TaskId, s: TaskId, r: nat, w: Setting)
    requires st.At(th) == AwReg(t, s, r) && Enabled(st, th, Advance, w) && PcOk(st, th, w)
    requires s in st.tasks && TaskOk(st, s, w) && t in st.tasks && TaskOk(st, t, w)
    requires st.tasks[s].phase.By? ==> PcOk(st, st.tasks[s].phase.th, w)
    ensures var st' := Register(st, th, t, s, r);
      PcOk(st', th, w) && Good(st, st', th, s, w) && Good(st, st', th, t, w)
  {
    AwRegPc(st, th, t, s, r, w);
    AwRegAwaited(st, th, t, s, r, w);
    AwRegAwaiter(st, th, t, s, r, w);
  }

  lemma AwRegNear(st: State, th: Thread, t: TaskId, s: TaskId, r: nat, w: Setting)
    requires st.At(th) == AwReg(t, s, r) && PcOk(st, th, w) && s in st.tasks && t in st.tasks && QueueOk(st)
    ensures var st' := Register(st, th, t, s, r);
      Touches(st, st', th, s, t) && st'.stale == st.stale
  {
  }

  lemma AwRegQueue(st: State, th: Thread, t: TaskId, s: TaskId, r: nat, w: Setting)
    requires st.At(th) == AwReg(t, s, r) && PcOk(st, th, w) && s in st.tasks && t in st.tasks && QueueOk(st)
    ensures QueueOk(Register(st, th, t, s, r))
  {
  }

  lemma AwRegTouches(st: State, th: Thread, t: TaskId, s: TaskId, r: nat, w: Setting)
    requires st.At(th) == AwReg(t, s, r) && PcOk(st, th, w) && s in st.tasks && t in st.tasks && QueueOk(st)
    ensures var st' := Register(st, th, t, s, r);
      Touches(st, st', th, s, t) && QueueOk(st') && st'.stale == st.stale
  {
    AwRegNear(st, th, t, s, r, w);
    AwRegQueue(st, th, t, s, r, w);
  }

  lemma AwRegKeeps(st: State, th: Thread, t: TaskId, s: TaskId, r: nat, w: Setting)
    requires st.At(th) == AwReg(t, s, r) && Enabled(st, th, Advance, w) && Inv(st, w)
    ensures Inv(Register(st, th, t, s, r), w)
  {
    assert PcOk(st, th, w);
    if st.tasks[s].phase.By? { assert PcOk(st, st.tasks[s].phase.th, w); }
    AwRegLocal(st, th, t, s, r, w);
    AwRegTouches(st, th, t, s, r, w);
    Assemble(st, Register(st, th, t, s, r), th, s, t, w);
  }

  lemma AwUnlockLocal(st: State, th: Thread, t: TaskId, s: TaskId, r: nat, b: bool, w: Setting)
    requires st.At(th) == AwUnlock(t, s, r, b) && Enabled(st, th, Advance, w) && PcOk(st, th, w)
    requires s in st.tasks && TaskOk(st, s, w) && t in st.tasks && TaskOk(st, t, w)
    ensures var st' := UnlockAwaited(st, th, t, s, r, b, w);
      PcOk(st', th, w) && Good(st, st', th, s, w) && Good(st, st', th, t, w)
  {
    if w.fused { UnlockFused(st, th, t, s, r, b, w); } else { UnlockAlone(st, th, t, s, r, b, w); }
  }

  lemma UnlockFusedPc(st: State, th: Thread, t: TaskId, s: TaskId, r: nat, b: bool, w: Setting)
    requires st.At(th) == AwUnlock(t, s, r, b) && PcOk(st, th, w) && w.fused
    requires s in st.tasks && TaskOk(st, s, w) && t in st.tasks && TaskOk(st, t, w)
    ensures PcOk(UnlockAwaited(st, th, t, s, r, b, w), th, w)
  {
    assert s != t ==> st.Set(s, st.tasks[s].(lock := None)).tasks[t] == st.tasks[t];
  }

  lemma UnlockFusedOwn(st: State, th: Thread, t: TaskId, s: TaskId, r: nat, b: bool, w: Setting)
    requires st.At(th) == AwUnlock(t, s, r, b) && PcOk(st, th, w) && w.fused
    requires s in st.tasks && TaskOk(st, s, w) && t in st.tasks && TaskOk(st, t, w)
    ensures Good(st, UnlockAwaited(st, th, t, s, r, b, w), th, t, w)
  {
    if b { GoesOnFused(st, th, t, s, r, w); } else { ParksFused(st, th, t, s, r, w); }
  }

  lemma GoesOnFused(st: State, th: Thread, t: TaskId, s: TaskId, r: nat, w: Setting)
    requires st.At(th) == AwUnlock(t, s, r, true) && PcOk(st, th, w) && w.fused
    requires s in st.tasks && TaskOk(st, s, w) && t in st.tasks && TaskOk(st, t, w)
    ensures Good(st, UnlockAwaited(st, th, t, s, r, true, w), th, t, w)
  {
    assert s != t ==> st.Set(s, st.tasks[s].(lock := None)).tasks[t] == st.tasks[t];
  }

  lemma ParksFused(st: State, th: Thread, t: TaskId, s: TaskId, r: nat, w: Setting)
    requires st.At(th) == AwUnlock(t, s, r, false) && PcOk(st, th, w) && w.fused
    requires s in st.tasks && TaskOk(st, s, w) && t in st.tasks && TaskOk(st, t, w)
    ensures Good(st, UnlockAwaited(st, th, t, s, r, false, w), th, t, w)
  {
    assert s != t ==> st.Set(s, st.tasks[s].(lock := None)).tasks[t] == st.tasks[t];
  }

  lemma UnlockFusedOther(st: State, th: Thread, t: TaskId, s: TaskId, r: nat, b: bool, w: Setting)
    requires st.At(th) == AwUnlock(t, s, r, b) && PcOk(st, th, w) && w.fused && s != t
    requires s in st.tasks && TaskOk(st, s, w) && t in st.tasks && TaskOk(st, t, w)
    ensures Good(st, UnlockAwaited(st, th, t, s, r, b, w), th, s, w)
  {
    var st1 := st.Set(s, st.tasks[s].(lock := None));
    assert st1.tasks[t] == st.tasks[t];
  }

  lemma UnlockFused(st: State, th: Thread, t: TaskId, s: TaskId, r: nat, b: bool, w: Setting)
    requires st.At(th) == AwUnlock(t, s, r, b) && PcOk(st, th, w) && w.fused
    requires s in st.tasks && TaskOk(st, s, w) && t in st.tasks && TaskOk(st, t, w)
    ensures var st' := UnlockAwaited(st, th, t, s, r, b, w);
      PcOk(st', th, w) && Good(st, st', th, s, w) && Good(st, st', th, t, w)
  {
    UnlockFusedPc(st, th, t, s, r, b, w);
    UnlockFusedOwn(st, th, t, s, r, b, w);
    if s != t { UnlockFusedOther(st, th, t, s, r, b, w); }
  }

  lemma UnlockAlonePc(st: State, th: Thread, t: TaskId, s: TaskId, r: nat, b: bool, w: Setting)
    requires st.At(th) == AwUnlock(t, s, r, b) && PcOk(st, th, w) && !w.fused
    requires s in st.tasks && TaskOk(st, s, w) && t in st.tasks && TaskOk(st, t, w)
    ensures PcOk(UnlockAwaited(st, th, t, s, r, b, w), th, w)
  {
  }

  lemma UnlockAloneOwn(st: State, th: Thread, t: TaskId, s: TaskId, r: nat, b: bool, w: Setting)
    requires st.At(th) == AwUnlock(t, s, r, b) && PcOk(st, th, w) && !w.fused
    requires s in st.tasks && TaskOk(st, s, w) && t in st.tasks && TaskOk(st, t, w)
    ensures Good(st, UnlockAwaited(st, th, t, s, r, b, w), th, t, w)
  {
  }

  lemma UnlockAloneOther(st: State, th: Thread, t: TaskId, s: TaskId, r: nat, b: bool, w: Setting)
    requires st.At(th) == AwUnlock(t, s, r, b) && PcOk(st, th, w) && !w.fused
    requires s in st.tasks && TaskOk(st, s, w) && t in st.tasks && TaskOk(st, t, w)
    ensures var st' := UnlockAwaited(st, th, t, s, r, b, w);
      Good(st, st', th, s, w)
  {
  }

  lemma UnlockAlone(st: State, th: Thread, t: TaskId, s: TaskId, r: nat, b: bool, w: Setting)
    requires st.At(th) == AwUnlock(t, s, r, b) && PcOk(st, th, w) && !w.fused
    requires s in st.tasks && TaskOk(st, s, w) && t in st.tasks && TaskOk(st, t, w)
    ensures var st' := UnlockAwaited(st, th, t, s, r, b, w);
      PcOk(st', th, w) && Good(st, st', th, s, w) && Good(st, st', th, t, w)
  {
    UnlockAlonePc(st, th, t, s, r, b, w);
    UnlockAloneOwn(st, th, t, s, r, b, w);
    UnlockAloneOther(st, th, t, s, r, b, w);
  }

  lemma FusedTouches(st: State, th: Thread, t: TaskId, s: TaskId, r: nat, b: bool, w: Setting)
    requires w.fused && st.At(th) == AwUnlock(t, s, r, b) && s in st.tasks && t in st.tasks && QueueOk(st)
    ensures var st' := UnlockAwaited(st, th, t, s, r, b, w);
      Touches(st, st', th, s, t) && QueueOk(st') && st'.stale == st.stale
  {
    var x := st.tasks[s].(lock := None);
    TouchesTwo(st, th, s, x, t, st.Set(s, x).tasks[t].(resume := Point(r + 1), tail := None), AwRet(t, s, r, b));
  }

  lemma AloneTouches(st: State, th: Thread, t: TaskId, s: TaskId, r: nat, b: bool, w: Setting)
    requires !w.fused && st.At(th) == AwUnlock(t, s, r, b) && s in st.tasks && t in st.tasks && QueueOk(st)
    ensures var st' := UnlockAwaited(st, th, t, s, r, b, w);
      Touches(st, st', th, s, t) && QueueOk(st') && st'.stale == st.stale
  {
    var x := st.tasks[s].(lock := None);
    var y := st.Set(s, x).tasks[t];
    TouchesTwo(st, th, s, x, t, y, AwStore(t, s, r, b));
    assert st.Set(s, x).Set(t, y) == st.Set(s, x);
  }

  lemma AwUnlockTouches(st: State, th: Thread, t: TaskId, s: TaskId, r: nat, b: bool, w: Setting)
    requires st.At(th) == AwUnlock(t, s, r, b) && PcOk(st, th, w) && s in st.tasks && t in st.tasks && QueueOk(st)
    ensures var st' := UnlockAwaited(st, th, t, s, r, b, w);
      Touches(st, st', th, s, t) && QueueOk(st') && st'.stale == st.stale
  {
    if w.fused { FusedTouches(st, th, t, s, r, b, w); } else { AloneTouches(st, th, t, s, r, b, w); }
  }

  lemma AwUnlockKeeps(st: State, th: Thread, t: TaskId, s: TaskId, r: nat, b: bool, w: Setting)
    requires st.At(th) == AwUnlock(t, s, r, b) && Enabled(st, th, Advance, w) && Inv(st, w)
    ensures Inv(UnlockAwaited(st, th, t, s, r, b, w), w)
  {
    InTasks(st, th, w);
    hide PcOk, TaskOk, Good, Enabled, Touches, QueueOk;
    AwUnlockLocal(st, th, t, s, r, b, w);
    AwUnlockTouches(st, th, t, s, r, b, w);
    Assemble(st, UnlockAwaited(st, th, t, s, r, b, w), th, s, t, w);
  }

  lemma AwStoreLocal(st: State, th: Thread, t: TaskId, s: TaskId, r: nat, b: bool, w: Setting)
    requires st.At(th) == AwStore(t, s, r, b) && Enabled(st, th, Advance, w) && PcOk(st, th, w)
    requires t in st.tasks && TaskOk(st, t, w) && s in st.tasks
    ensures var st' := StoreResume(st, th, t, s, r, b);
      PcOk(st', th, w) && Good(st, st', th, t, w)
  {
  }

  lemma AwStoreKeeps(st: State, th: Thread, t: TaskId, s: TaskId, r: nat, b: bool, w: Setting)
    requires st.At(th) == AwStore(t, s, r, b) && Enabled(st, th, Advance, w) && Inv(st, w)
    ensures Inv(StoreResume(st, th, t, s, r, b), w)
  {
    InTasks(st, th, w);
    InvParts(st, th, t, w);
    hide PcOk, TaskOk, Good, Enabled, Inv;
    TouchesOne(st, th, t, st.tasks[t].(resume := Point(r + 1), tail := None), AwRet(t, s, r, b));
    hide Touches, QueueOk, SameRoles;
    AwStoreLocal(st, th, t, s, r, b, w);
    Assemble(st, StoreResume(st, th, t, s, r, b), th, t, t, w);
  }

  lemma AwRetLocal(st: State, th: Thread, t: TaskId, s: TaskId, r: nat, b: bool, w: Setting)
    requires st.At(th) == AwRet(t, s, r, b) && Enabled(st, th, Advance, w) && PcOk(st, th, w)
    requires t in st.tasks && TaskOk(st, t, w)
    ensures var st' := st.Go(th, if b then Step(t) else Idle);
      PcOk(st', th, w) && Good(st, st', th, t, w)
  {
  }

  lemma AwRetKeeps(st: State, th: Thread, t: TaskId, s: TaskId, r: nat, b: bool, w: Setting)
    requires st.At(th) == AwRet(t, s, r, b) && Enabled(st, th, Advance, w) && Inv(st, w)
    ensures Inv(st.Go(th, if b then Step(t) else Idle), w)
  {
    InTasks(st, th, w);
    InvParts(st, th, t, w);
    hide PcOk, TaskOk, Good, Enabled, Inv;
    TouchesOne(st, th, t, st.tasks[t], if b then Step(t) else Idle);
    assert st.Set(t, st.tasks[t]) == st;
    hide Touches, QueueOk, SameRoles;
    AwRetLocal(st, th, t, s, r, b, w);
    Assemble(st, st.Go(th, if b then Step(t) else Idle), th, t, t, w);
  }

  lemma RetAddrLocal(st: State, th: Thread, t: TaskId, v: int, w: Setting)
    requires st.At(th) == RetAddr(t, v) && Enabled(st, th, Advance, w) && PcOk(st, th, w)
    requires t in st.tasks && TaskOk(st, t, w)
    ensures var st' := StoreExit(st, th, t, v);
      PcOk(st', th, w) && Good(st, st', th, t, w)
  {
  }

  lemma RetAddrKeeps(st: State, th: Thread, t: TaskId, v: int, w: Setting)
    requires st.At(th) == RetAddr(t, v) && Enabled(st, th, Advance, w) && Inv(st, w)
    ensures Inv(StoreExit(st, th, t, v), w)
  {
    InTasks(st, th, w);
    InvParts(st, th, t, w);
    hide PcOk, TaskOk, Good, Enabled, Inv;
    TouchesOne(st, th, t, st.tasks[t].(resume := Exit), RetVal(t, v));
    hide Touches, QueueOk, SameRoles;
    RetAddrLocal(st, th, t, v, w);
    Assemble(st, StoreExit(st, th, t, v), th, t, t, w);
  }

  lemma RetValLocal(st: State, th: Thread, t: TaskId, v: int, w: Setting)
    requires st.At(th) == RetVal(t, v) && Enabled(st, th, Advance, w) && PcOk(st, th, w)
    requires t in st.tasks && TaskOk(st, t, w)
    ensures var st' := StoreResult(st, th, t, v);
      PcOk(st', th, w) && Good(st, st', th, t, w)
  {
  }

  lemma RetValKeeps(st: State, th: Thread, t: TaskId, v: int, w: Setting)
    requires st.At(th) == RetVal(t, v) && Enabled(st, th, Advance, w) && Inv(st, w)
    ensures Inv(StoreResult(st, th, t, v), w)
  {
    InTasks(st, th, w);
    InvParts(st, th, t, w);
    hide PcOk, TaskOk, Good, Enabled, Inv;
    TouchesOne(st, th, t, Answering(st.tasks[t], th, v), CoLock(t));
    hide Touches, QueueOk, SameRoles, Answering;
    RetValLocal(st, th, t, v, w);
    Assemble(st, StoreResult(st, th, t, v), th, t, t, w);
  }

  lemma CoLockLocal(st: State, th: Thread, s: TaskId, w: Setting)
    requires st.At(th) == CoLock(s) && Enabled(st, th, Advance, w) && PcOk(st, th, w)
    requires s in st.tasks && TaskOk(st, s, w)
    ensures var st' := LockOwn(st, th, s);
      PcOk(st', th, w) && Good(st, st', th, s, w)
  {
  }

  lemma CoLockKeeps(st: State, th: Thread, s: TaskId, w: Setting)
    requires st.At(th) == CoLock(s) && Enabled(st, th, Advance, w) && Inv(st, w)
    ensures Inv(LockOwn(st, th, s), w)
  {
    InTasks(st, th, w);
    InvParts(st, th, s, w);
    hide PcOk, TaskOk, Good, Enabled, Inv;
    TouchesOne(st, th, s, st.tasks[s].(lock := Some(th)), CoSet(s));
    hide Touches, QueueOk, SameRoles;
    CoLockLocal(st, th, s, w);
    Assemble(st, LockOwn(st, th, s), th, s, s, w);
  }

  lemma CoSetLocal(st: State, th: Thread, s: TaskId, w: Setting)
    requires st.At(th) == CoSet(s) && Enabled(st, th, Advance, w) && PcOk(st, th, w)
    requires s in st.tasks && TaskOk(st, s, w)
    ensures var st' := SetDone(st, th, s);
      PcOk(st', th, w) && Good(st, st', th, s, w)
  {
  }

  lemma CoSetKeeps(st: State, th: Thread, s: TaskId, w: Setting)
    requires st.At(th) == CoSet(s) && Enabled(st, th, Advance, w) && Inv(st, w)
    ensures Inv(SetDone(st, th, s), w)
  {
    InTasks(st, th, w);
    InvParts(st, th, s, w);
    hide PcOk, TaskOk, Good, Enabled, Inv;
    TouchesOne(st, th, s, st.tasks[s].(done := true), CoGet(s));
    hide Touches, QueueOk, SameRoles;
    CoSetLocal(st, th, s, w);
    Assemble(st, SetDone(st, th, s), th, s, s, w);
  }

  lemma CoPushPc(st: State, th: Thread, s: TaskId, c: TaskId, w: Setting)
    requires st.At(th) == CoPush(s, c) && PcOk(st, th, w)
    ensures PcOk(PushContinuation(st, th, s, c), th, w)
  {
  }

  lemma CoPushMay(st: State, th: Thread, s: TaskId, c: TaskId, w: Setting)
    requires st.At(th) == CoPush(s, c) && PcOk(st, th, w) && s in st.tasks && c in st.tasks && s != c
    ensures var st' := PushContinuation(st, th, s, c); MayChange(st, th, s, st'.tasks[s], w) && Links(st, st', s)
  {
  }

  lemma CoPushSettled(st: State, th: Thread, s: TaskId, c: TaskId, w: Setting)
    requires st.At(th) == CoPush(s, c) && s in st.tasks && c in st.tasks && s != c && TaskOk(st, s, w)
    ensures var st' := PushContinuation(st, th, s, c);
      (Safe(w) ==> Settled(st', s, st'.tasks[s])) && AwaitOk(st', st'.tasks[s])
  {
    hide LifeOk;
  }

  lemma CoPushOwn(st: State, th: Thread, s: TaskId, c: TaskId, w: Setting)
    requires st.At(th) == CoPush(s, c) && PcOk(st, th, w)
    requires s in st.tasks && TaskOk(st, s, w) && c in st.tasks && TaskOk(st, c, w)
    ensures Good(st, PushContinuation(st, th, s, c), th, s, w)
  {
    assert s != c;
    CoPushMay(st, th, s, c, w);
    CoPushSettled(st, th, s, c, w);
    hide MayChange, Links, Settled, AwaitOk;
  }

  lemma CoPushOther(st: State, th: Thread, s: TaskId, c: TaskId, w: Setting)
    requires st.At(th) == CoPush(s, c) && Enabled(st, th, Advance, w) && PcOk(st, th, w)
    requires s in st.tasks && TaskOk(st, s, w) && c in st.tasks && TaskOk(st, c, w)
    ensures var st' := PushContinuation(st, th, s, c);
      Good(st, st', th, c, w)
  {
  }

  lemma CoPushLocal(st: State, th: Thread, s: TaskId, c: TaskId, w: Setting)
    requires st.At(th) == CoPush(s, c) && Enabled(st, th, Advance, w) && PcOk(st, th, w)
    requires s in st.tasks && TaskOk(st, s, w) && c in st.tasks && TaskOk(st, c, w)
    ensures var st' := PushContinuation(st, th, s, c);
      PcOk(st', th, w) && Good(st, st', th, s, w) && Good(st, st', th, c, w)
  {
    CoPushPc(st, th, s, c, w);
    CoPushOwn(st, th, s, c, w);
    CoPushOther(st, th, s, c, w);
  }

  lemma CoPushNear(st: State, th: Thread, s: TaskId, c: TaskId, w: Setting)
    requires st.At(th) == CoPush(s, c) && PcOk(st, th, w) && s in st.tasks && c in st.tasks && QueueOk(st)
    ensures var st' := PushContinuation(st, th, s, c);
      Touches(st, st', th, s, c) && st'.stale == st.stale
  {
  }

  lemma CoPushQueue(st: State, th: Thread, s: TaskId, c: TaskId, w: Setting)
    requires st.At(th) == CoPush(s, c) && PcOk(st, th, w) && s in st.tasks && c in st.tasks && QueueOk(st)
    ensures QueueOk(PushContinuation(st, th, s, c))
  {
  }

  lemma CoPushTouches(st: State, th: Thread, s: TaskId, c: TaskId, w: Setting)
    requires st.At(th) == CoPush(s, c) && PcOk(st, th, w) && s in st.tasks && c in st.tasks && QueueOk(st)
    ensures var st' := PushContinuation(st, th, s, c);
      Touches(st, st', th, s, c) && QueueOk(st') && st'.stale == st.stale
  {
    CoPushNear(st, th, s, c, w);
    CoPushQueue(st, th, s, c, w);
  }

  lemma CoPushKeeps(st: State, th: Thread, s: TaskId, c: TaskId, w: Setting)
    requires st.At(th) == CoPush(s, c) && Enabled(st, th, Advance, w) && Inv(st, w)
    ensures Inv(PushContinuation(st, th, s, c), w)
  {
    InTasks(st, th, w);
    hide PcOk, TaskOk, Good, Enabled, Touches, QueueOk;
    CoPushLocal(st, th, s, c, w);
    CoPushTouches(st, th, s, c, w);
    Assemble(st, PushContinuation(st, th, s, c), th, s, c, w);
  }

  lemma CoUnlockLocal(st: State, th: Thread, s: TaskId, w: Setting)
    requires st.At(th) == CoUnlock(s) && Enabled(st, th, Advance, w) && PcOk(st, th, w)
    requires s in st.tasks && TaskOk(st, s, w)
    ensures var st' := UnlockOwn(st, th, s);
      PcOk(st', th, w) && Good(st, st', th, s, w)
  {
  }

  lemma CoUnlockKeeps(st: State, th: Thread, s: TaskId, w: Setting)
    requires st.At(th) == CoUnlock(s) && Enabled(st, th, Advance, w) && Inv(st, w)
    ensures Inv(UnlockOwn(st, th, s), w)
  {
    InTasks(st, th, w);
    assert th.Worker? ==> st.tasks[s].place == Held(th) by { assert PcOk(st, th, w); }
    InvParts(st, th, s, w);
    hide PcOk, TaskOk, Good, Enabled, Inv;
    var x := st.tasks[s].(lock := None, phase := Finished);
    TouchesOne(st, th, s, if th.Worker? then x.(place := Over) else x, Idle);
    hide Touches, QueueOk, SameRoles;
    CoUnlockLocal(st, th, s, w);
    Assemble(st, UnlockOwn(st, th, s), th, s, s, w);
  }

  lemma GetPc(st: State, th: Thread, s: TaskId, c: TaskId, w: Setting)
    requires st.At(th) == CoGet(s) && PcOk(st, th, w) && TaskOk(st, s, w)
    requires st.tasks[s].next == Some(c) && c in st.tasks && TaskOk(st, c, w)
    ensures PcOk(GetContinuous(st, th, s), th, w)
  {
    hide Settled, Ready;
  }

  lemma GetMay(st: State, th: Thread, s: TaskId, c: TaskId, w: Setting)
    requires st.At(th) == CoGet(s) && PcOk(st, th, w)
    requires s in st.tasks && st.tasks[s].next == Some(c) && c in st.tasks && s != c
    ensures var st' := GetContinuous(st, th, s); MayChange(st, th, s, st'.tasks[s], w) && Links(st, st', s)
  {
  }

  lemma GetSettled(st: State, th: Thread, s: TaskId, c: TaskId, w: Setting)
    requires st.At(th) == CoGet(s) && s in st.tasks && TaskOk(st, s, w)
    requires st.tasks[s].next == Some(c) && c in st.tasks && s != c
    ensures var st' := GetContinuous(st, th, s);
      (Safe(w) ==> Settled(st', s, st'.tasks[s])) && AwaitOk(st', st'.tasks[s])
  {
    hide LifeOk;
  }

  lemma GetOwn(st: State, th: Thread, s: TaskId, c: TaskId, w: Setting)
    requires st.At(th) == CoGet(s) && PcOk(st, th, w) && TaskOk(st, s, w)
    requires st.tasks[s].next == Some(c) && c in st.tasks && TaskOk(st, c, w)
    ensures Good(st, GetContinuous(st, th, s), th, s, w)
  {
    assert c != s;
    GetMay(st, th, s, c, w);
    GetSettled(st, th, s, c, w);
    hide MayChange, Links, Settled, AwaitOk;
  }

  lemma GetOther(st: State, th: Thread, s: TaskId, c: TaskId, w: Setting)
    requires st.At(th) == CoGet(s) && PcOk(st, th, w) && TaskOk(st, s, w)
    requires st.tasks[s].next == Some(c) && c in st.tasks && TaskOk(st, c, w)
    ensures var st' := GetContinuous(st, th, s);
      Good(st, st', th, c, w)
  {
  }

  lemma GetLocal(st: State, th: Thread, s: TaskId, c: TaskId, w: Setting)
    requires st.At(th) == CoGet(s) && PcOk(st, th, w) && TaskOk(st, s, w)
    requires st.tasks[s].next == Some(c) && c in st.tasks && TaskOk(st, c, w)
    ensures var st' := GetContinuous(st, th, s);
      PcOk(st', th, w) && Good(st, st', th, s, w) && Good(st, st', th, c, w)
  {
    GetPc(st, th, s, c, w);
    GetOwn(st, th, s, c, w);
    GetOther(st, th, s, c, w);
  }

  lemma GetTouches(st: State, th: Thread, s: TaskId, c: TaskId, w: Setting)
    requires st.At(th) == CoGet(s) && s in st.tasks && QueueOk(st)
    requires st.tasks[s].next == Some(c) && c in st.tasks && st.tasks[c].place == Parked(s)
    ensures var st' := GetContinuous(st, th, s);
      Touches(st, st', th, s, c) && QueueOk(st') && st'.stale == st.stale
  {
    var x := st.tasks[s].(handed := true);
    var st1 := st.Set(s, x);
    TouchesTwo(st, th, s, x, c, st1.tasks[c].(place := InHand(th)), CoPush(s, c));
  }

  lemma GetNone(st: State, th: Thread, s: TaskId, w: Setting)
    requires st.At(th) == CoGet(s) && PcOk(st, th, w) && TaskOk(st, s, w) && st.tasks[s].next == None
    ensures var st' := GetContinuous(st, th, s); PcOk(st', th, w) && Good(st, st', th, s, w)
  {
  }

  lemma CoGetKeeps(st: State, th: Thread, s: TaskId, w: Setting)
    requires st.At(th) == CoGet(s) && Enabled(st, th, Advance, w) && Inv(st, w)
    ensures Inv(GetContinuous(st, th, s), w)
  {
    InTasks(st, th, w);
    if st.tasks[s].next.Some? { GetSomeKeeps(st, th, s, w); } else { GetNoneKeeps(st, th, s, w); }
  }

  lemma GetNoneKeeps(st: State, th: Thread, s: TaskId, w: Setting)
    requires st.At(th) == CoGet(s) && Inv(st, w) && s in st.tasks && st.tasks[s].next == None
    ensures Inv(GetContinuous(st, th, s), w)
  {
    hide PcOk, TaskOk, Good;
    GetNone(st, th, s, w);
    TouchesOne(st, th, s, st.tasks[s].(handed := true), CoUnlock(s));
    hide Touches, QueueOk, SameRoles;
    Assemble(st, GetContinuous(st, th, s), th, s, s, w);
  }

  lemma GetSomeKeeps(st: State, th: Thread, s: TaskId, w: Setting)
    requires st.At(th) == CoGet(s) && Inv(st, w) && s in st.tasks && st.tasks[s].next.Some?
    ensures Inv(GetContinuous(st, th, s), w)
  {
    var c := st.tasks[s].next.value;
    NextParked(st, th, s, w);
    hide PcOk, TaskOk, Good, Touches, QueueOk;
    GetLocal(st, th, s, c, w);
    GetTouches(st, th, s, c, w);
    Assemble(st, GetContinuous(st, th, s), th, s, c, w);
  }

  /** The task to continue is parked until the completer has read the field. */
  lemma NextParked(st: State, th: Thread, s: TaskId, w: Setting)
    requires st.At(th) == CoGet(s) && Inv(st, w) && s in st.tasks && st.tasks[s].next.Some?
    ensures st.tasks[s].next.value in st.tasks && st.tasks[st.tasks[s].next.value].place == Parked(s)
  {
    assert PcOk(st, th, w) && TaskOk(st, s, w);
  }

  lemma SpawnKeeps(st: State, th: Thread, u: TaskId, native: bool, w: Setting)
    requires Inv(st, w) && u !in st.tasks
    ensures Inv(Create(st, u, native), w)
  {
    var st' := Create(st, u, native);
    assert PcOk(st, th, w);
    SpawnPc(st, th, u, native, w);
    Assemble(st, st', th, u, u, w);
  }

  lemma SpawnPc(st: State, th: Thread, u: TaskId, native: bool, w: Setting)
    requires PcOk(st, th, w) && u !in st.tasks
    ensures PcOk(Create(st, u, native), th, w)
  {
  }

  /** In a safe setting only a task whose stored address is settled is on the queue when a worker looks. */
  lemma QueuedSettled(st: State, th: Thread, t: TaskId, w: Setting)
    requires Inv(st, w) && th.Worker? && th.n < w.workers && st.At(th).Idle?
    requires t in st.tasks && st.tasks[t].place == Queued
    ensures Fit(st, t, w) && (Safe(w) ==> st.tasks[t].tail == None)
  {
    assert TaskOk(st, t, w);
    if Safe(w) { forall o ensures st.tasks[t].tail != Some(o) { assert PcOk(st, o, w); } }
  }

  lemma FetchTask(st: State, th: Thread, t: TaskId, w: Setting)
    requires th.Worker? && th.n < w.workers && st.At(th).Idle? && PcOk(st, th, w)
    requires st.queue != [] && t == st.queue[0] && QueueOk(st) && t in st.tasks && TaskOk(st, t, w)
    requires Fit(st, t, w) && (Safe(w) ==> st.tasks[t].tail == None)
    ensures var st' := Take(st, th, t); PcOk(st', th, w) && Good(st, st', th, t, w)
  {
  }

  lemma FetchQueue(st: State, th: Thread, t: TaskId, w: Setting)
    requires th.Worker? && th.n < w.workers && st.At(th).Idle? && PcOk(st, th, w)
    requires st.queue != [] && t == st.queue[0] && QueueOk(st) && t in st.tasks && TaskOk(st, t, w)
    requires Fit(st, t, w) && (Safe(w) ==> st.tasks[t].tail == None)
    ensures var st' := Take(st, th, t);
      Touches(st, st', th, t, t) && QueueOk(st') && st'.stale == st.stale
  {
    forall i | 0 <= i < |st.queue| && st.queue[i] != t ensures st.queue[i] in st.queue[1..] {
      assert st.queue[1..][i - 1] == st.queue[i];
    }
  }

  lemma FetchLocal(st: State, th: Thread, t: TaskId, w: Setting)
    requires th.Worker? && th.n < w.workers && st.At(th).Idle? && PcOk(st, th, w)
    requires st.queue != [] && t == st.queue[0] && QueueOk(st) && t in st.tasks && TaskOk(st, t, w)
    requires Fit(st, t, w) && (Safe(w) ==> st.tasks[t].tail == None)
    ensures var st' := Take(st, th, t);
      PcOk(st', th, w) && Good(st, st', th, t, w)
      && Touches(st, st', th, t, t) && QueueOk(st') && st'.stale == st.stale
  {
    FetchTask(st, th, t, w);
    FetchQueue(st, th, t, w);
  }

  lemma FetchKeeps(st: State, th: Thread, w: Setting)
    requires Inv(st, w) && Enabled(st, th, Fetch, w)
    ensures Inv(Take(st, th, st.queue[0]), w)
  {
    var t := st.queue[0];
    assert PcOk(st, th, w);
    QueuedSettled(st, th, t, w);
    FetchLocal(st, th, t, w);
    Assemble(st, Take(st, th, t), th, t, t, w);
  }

  /** A fetched task goes on from some await, in a safe setting the right one. */
  lemma EnterRight(st: State, th: Thread, t: TaskId, w: Setting)
    requires Inv(st, w) && Fit(st, t, w) && !st.tasks[t].native
    ensures st.tasks[t].resume.Point? && (Safe(w) ==> st.tasks[t].resume == st.tasks[t].expected)
  {
  }

  lemma DispatchNative(st: State, th: Thread, t: TaskId, arm: bool, w: Setting)
    requires st.At(th) == Step(t) && PcOk(st, th, w) && TaskOk(st, t, w) && st.tasks[t].native && QueueOk(st)
    requires st.tasks[t].phase == NotYet
    ensures var st' := Enter(st, th, t, arm);
      PcOk(st', th, w) && Good(st, st', th, t, w)
      && Touches(st, st', th, t, t) && QueueOk(st') && st'.stale == st.stale
  {
  }

  lemma DispatchCompiled(st: State, th: Thread, t: TaskId, arm: bool, w: Setting)
    requires st.At(th) == Step(t) && PcOk(st, th, w) && TaskOk(st, t, w) && !st.tasks[t].native && QueueOk(st)
    requires st.tasks[t].resume.Point? && (Safe(w) ==> st.tasks[t].resume == st.tasks[t].expected)
    ensures var st' := Enter(st, th, t, arm);
      PcOk(st', th, w) && Good(st, st', th, t, w)
      && Touches(st, st', th, t, t) && QueueOk(st') && (Safe(w) ==> st'.stale == st.stale)
  {
  }

  lemma DispatchKeeps(st: State, th: Thread, t: TaskId, arm: bool, w: Setting)
    requires Inv(st, w) && st.At(th) == Step(t)
    ensures Inv(Enter(st, th, t, arm), w)
  {
    assert PcOk(st, th, w);
    if st.tasks[t].native {
      DispatchNative(st, th, t, arm, w);
    } else {
      EnterRight(st, th, t, w);
      DispatchCompiled(st, th, t, arm, w);
    }
    Assemble(st, Enter(st, th, t, arm), th, t, t, w);
  }

  lemma BeginAwaitLocal(st: State, th: Thread, t: TaskId, s: TaskId, r: nat, w: Setting)
    requires st.At(th) == Run(t, r) && PcOk(st, th, w) && t in st.tasks && TaskOk(st, t, w) && s in st.tasks
    ensures var st' := AwaitStarts(st, th, t, s, r); PcOk(st', th, w) && Good(st, st', th, t, w)
  {
  }

  lemma BeginAwaitKeeps(st: State, th: Thread, t: TaskId, s: TaskId, r: nat, w: Setting)
    requires Inv(st, w) && st.At(th) == Run(t, r) && s in st.tasks
    ensures Inv(AwaitStarts(st, th, t, s, r), w)
  {
    InTasks(st, th, w);
    InvParts(st, th, t, w);
    hide PcOk, TaskOk, Good, Enabled, Inv;
    TouchesOne(st, th, t, Begun(st.tasks[t], s), AwLock(t, s, r));
    hide Touches, QueueOk, SameRoles;
    BeginAwaitLocal(st, th, t, s, r, w);
    Assemble(st, AwaitStarts(st, th, t, s, r), th, t, t, w);
  }

  lemma BeginReturnLocal(st: State, th: Thread, t: TaskId, r: nat, v: int, w: Setting)
    requires st.At(th) == Run(t, r) && PcOk(st, th, w) && t in st.tasks && TaskOk(st, t, w) && QueueOk(st)
    ensures var st' := ReturnStarts(st, th, t, v);
      PcOk(st', th, w) && Good(st, st', th, t, w)
      && Touches(st, st', th, t, t) && QueueOk(st') && st'.stale == st.stale
  {
  }

  lemma BeginReturnKeeps(st: State, th: Thread, t: TaskId, r: nat, v: int, w: Setting)
    requires Inv(st, w) && st.At(th) == Run(t, r)
    ensures Inv(ReturnStarts(st, th, t, v), w)
  {
    assert PcOk(st, th, w);
    BeginReturnLocal(st, th, t, r, v, w);
    Assemble(st, ReturnStarts(st, th, t, v), th, t, t, w);
  }

  lemma BeginCompleteLocal(st: State, th: Thread, s: TaskId, v: int, w: Setting)
    requires th.Callback? && st.At(th).Idle? && PcOk(st, th, w) && s in st.tasks && TaskOk(st, s, w)
      && st.tasks[s].armed && QueueOk(st)
    ensures var st' := CompletionStarts(st, th, s, v);
      PcOk(st', th, w) && Good(st, st', th, s, w)
      && Touches(st, st', th, s, s) && QueueOk(st') && st'.stale == st.stale
  {
  }

  lemma BeginCompleteKeeps(st: State, th: Thread, s: TaskId, v: int, w: Setting)
    requires Inv(st, w) && Enabled(st, th, BeginComplete(s, v), w)
    ensures Inv(CompletionStarts(st, th, s, v), w)
  {
    assert PcOk(st, th, w);
    BeginCompleteLocal(st, th, s, v, w);
    Assemble(st, CompletionStarts(st, th, s, v), th, s, s, w);
  }

  // ----- every run -----

  lemma AdvanceKeeps(st: State, th: Thread, w: Setting)
    requires Inv(st, w) && Enabled(st, th, Advance, w)
    ensures Inv(Advanced(st, th, w), w)
  {
    hide Inv, PcOk, TaskOk, LockAwaited, TestDone, Register, UnlockAwaited, StoreResume;
    hide StoreExit, StoreResult, LockOwn, SetDone, GetContinuous, PushContinuation, UnlockOwn;
    match st.At(th)
    case AwLock(t, s, r) => AwLockKeeps(st, th, t, s, r, w);
    case AwTest(t, s, r) => AwTestKeeps(st, th, t, s, r, w);
    case AwReg(t, s, r) => AwRegKeeps(st, th, t, s, r, w);
    case AwUnlock(t, s, r, b) => AwUnlockKeeps(st, th, t, s, r, b, w);
    case AwStore(t, s, r, b) => AwStoreKeeps(st, th, t, s, r, b, w);
    case AwRet(t, s, r, b) => AwRetKeeps(st, th, t, s, r, b, w);
    case RetAddr(t, v) => RetAddrKeeps(st, th, t, v, w);
    case RetVal(t, v) => RetValKeeps(st, th, t, v, w);
    case CoLock(s) => CoLockKeeps(st, th, s, w);
    case CoSet(s) => CoSetKeeps(st, th, s, w);
    case CoGet(s) => CoGetKeeps(st, th, s, w);
    case CoPush(s, c) => CoPushKeeps(st, th, s, c, w);
    case CoUnlock(s) => CoUnlockKeeps(st, th, s, w);
  }

  lemma NextKeeps(st: State, th: Thread, a: Action, w: Setting)
    requires Inv(st, w) && Enabled(st, th, a, w)
    ensures Inv(Next(st, th, a, w), w)
  {
    match a
    case Spawn(u, native) => SpawnKeeps(st, th, u, native, w);
    case Fetch => FetchKeeps(st, th, w);
    case Dispatch(arm) => DispatchKeeps(st, th, st.At(th).t, arm, w);
    case BeginAwait(s) => BeginAwaitKeeps(st, th, st.At(th).t, s, st.At(th).r, w);
    case BeginReturn(v) => BeginReturnKeeps(st, th, st.At(th).t, st.At(th).r, v, w);
    case BeginComplete(s, v) => BeginCompleteKeeps(st, th, s, v, w);
    case Advance => AdvanceKeeps(st, th, w);
  }

  lemma {:induction false} Reached(run: seq<State>, acts: seq<(Thread, Action)>, w: Setting, i: nat)
    requires IsRun(run, acts, w) && i < |run|
    ensures Inv(run[i], w)
  {
    if i > 0 {
      Reached(run, acts, w, i - 1);
      NextKeeps(run[i - 1], acts[i - 1].0, acts[i - 1].1, w);
    }
  }

  /** The registration of `t` has been overwritten by a later one on the same task. */
  ghost predicate Overwritten(st: State, t: TaskId)
    requires t in st.tasks
  {
    var p := st.tasks[t].place;
    p.Parked? && p.on in st.tasks && st.tasks[p.on].next != Some(t)
  }

  /** Nobody runs the task or will take it from the queue. */
  ghost predicate Still(st: State, t: TaskId) { t !in st.queue && forall th :: Token(th, st.At(th)) != Some(t) }

  /** What has become of the last await of `t`, on task `s`. */
  ghost predicate Answered(st: State, t: TaskId, s: TaskId)
    requires t in st.tasks && s in st.tasks
  {
    var x, y := st.tasks[t], st.tasks[s];
    && (x.saw ==> y.done && !x.registered && x.woken == 0)
    && (x.registered && Overwritten(st, t) ==> x.place == Parked(s) && x.woken == 0 && Still(st, t))
    && (x.registered && !Overwritten(st, t) ==>
         if !y.done then y.next == Some(t) && x.place == Parked(s) && x.woken == 0 && Still(st, t)
         else x.woken == 1 || (x.woken == 0 && AboutToPush(st, s, t)))
  }

  /** The thread that completes `s` holds its lock and has yet to push `t`. */
  ghost predicate AboutToPush(st: State, s: TaskId, t: TaskId)
    requires s in st.tasks
  {
    var y := st.tasks[s];
    y.next == Some(t) && y.lock.Some? && (st.At(y.lock.value) == CoGet(s) || st.At(y.lock.value) == CoPush(s, t))
  }

  lemma AwaitAnswered(st: State, t: TaskId, w: Setting)
    requires Inv(st, w) && t in st.tasks && st.tasks[t].waitsFor.Some?
    ensures st.tasks[t].waitsFor.value in st.tasks && Answered(st, t, st.tasks[t].waitsFor.value)
  {
    assert TaskOk(st, t, w);
    var x, s := st.tasks[t], st.tasks[t].waitsFor.value;
    assert TaskOk(st, s, w);
    if x.place.Parked? {
      ParkedStill(st, t, w);
      if st.tasks[s].phase.By? { assert PcOk(st, st.tasks[s].phase.th, w); }
    }
    if x.place.InHand? { assert PcOk(st, x.place.th, w); }
  }

  lemma ParkedStill(st: State, t: TaskId, w: Setting)
    requires Inv(st, w) && t in st.tasks && st.tasks[t].place.Parked?
    ensures Still(st, t)
  {
    forall th ensures Token(th, st.At(th)) != Some(t) { assert PcOk(st, th, w); }
  }

  /** No wakeup is lost or doubled, whatever a task awaits and however often. A task that has
      registered on an unfinished task is parked there: not queued, not run by anyone, not yet
      pushed. Once the other is done, it has been pushed exactly once for that await, or the
      completer holding the lock is about to push it. A task that saw the other done is never
      pushed for that await. Only a task whose registration has been overwritten stays parked. */
  lemma WakeupExactlyOnce(run: seq<State>, acts: seq<(Thread, Action)>, w: Setting, i: nat, t: TaskId)
    requires IsRun(run, acts, w) && i < |run| && t in run[i].tasks && run[i].tasks[t].waitsFor.Some?
    ensures run[i].tasks[t].waitsFor.value in run[i].tasks && Answered(run[i], t, run[i].tasks[t].waitsFor.value)
  {
    Reached(run, acts, w, i);
    AwaitAnswered(run[i], t, w);
  }

  /** A completion pushes the task registered last, once, and no other. */
  lemma PushesOne(run: seq<State>, acts: seq<(Thread, Action)>, w: Setting, i: nat, s: TaskId)
    requires IsRun(run, acts, w) && i < |run| && s in run[i].tasks
    ensures var st := run[i]; var y := st.tasks[s];
      match y.next
      case None => y.pushes == 0
      case Some(t) => if !y.done then y.pushes == 0 else y.pushes == 1 || (y.pushes == 0 && AboutToPush(st, s, t))
    ensures forall th: Thread, c: TaskId :: run[i].At(th) == CoPush(s, c) ==> run[i].tasks[s].next == Some(c)
  {
    var st := run[i];
    Reached(run, acts, w, i);
    assert TaskOk(st, s, w);
    forall th: Thread, c: TaskId | st.At(th) == CoPush(s, c) ensures st.tasks[s].next == Some(c) {
      assert PcOk(st, th, w);
    }
    if st.tasks[s].phase.By? { assert PcOk(st, st.tasks[s].phase.th, w); }
  }

  /** At any time one thread at most has the right to run a task, and none while it is queued;
      none completes twice. A thread that has registered the task gives the right away then,
      although it has not left StepNext yet. */
  lemma RightToRunAlone(run: seq<State>, acts: seq<(Thread, Action)>, w: Setting, i: nat, t: TaskId)
    requires IsRun(run, acts, w) && i < |run| && t in run[i].tasks
    ensures forall a, b :: Token(a, run[i].At(a)) == Some(t) && Token(b, run[i].At(b)) == Some(t) ==> a == b
    ensures forall a :: Token(a, run[i].At(a)) == Some(t) ==> t !in run[i].queue
    ensures run[i].tasks[t].completions <= 1
  {
    var st := run[i];
    Reached(run, acts, w, i);
    assert TaskOk(st, t, w);
    forall a | Token(a, st.At(a)) == Some(t) ensures st.tasks[t].place == Held(a) && t !in st.queue {
      assert PcOk(st, a, w);
    }
  }
}
