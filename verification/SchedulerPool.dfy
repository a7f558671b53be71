/** The scheduler's queue under its mutex and condition variable: workers that sleep, any
    threads that queue tasks, signals that may find no sleeper, and wakeups without signal. */
module SchedulerPool {
  import opened Wrappers

  type Task = nat

  /** Where a thread is. Workers loop from WantLock to Running; a worker running a task and
      any other thread may queue a task, after which it is back where it was: `back` is the
      task the worker runs, or none for another thread. */
  datatype Pc =
    | WantLock                                  // ds.mu.Lock()
    | Check                                     // ds.tasks.Len()==0 ?
    | Asleep                                    // in ds.cond.Wait(ds.mu)
    | Woken                                     // the end of Wait: taking the mutex again
    | Take                                      // t := ds.tasks.Shift()
    | Release(t: Task)                          // ds.mu.UnLock()
    | Running(t: Task)                          // t.StepNext() until false
    | Outside                                   // not in the scheduler
    | QLock(x: Task, back: Option<Task>)        // QueueTask: s.mu.Lock()
    | QPush(x: Task, back: Option<Task>)        // s.tasks.Push(st)
    | QSignal(back: Option<Task>)               // s.cond.Signal()
    | QUnlock(back: Option<Task>)               // s.mu.UnLock()

  datatype State = State(workers: nat, mu: Option<nat>, queue: seq<Task>, pcs: seq<Pc>)

  datatype Action =
    | Advance                 // the next statement of a thread
    | Wake                    // a wakeup without a signal
    | Finish                  // StepNext has returned false
    | Queue(x: Task)          // a call of QueueTask
    | Signal(j: nat)          // signal, waking thread j when any thread sleeps

  predicate Holds(p: Pc) { p.Check? || p.Take? || p.Release? || p.QPush? || p.QSignal? || p.QUnlock? }

  predicate SomeoneSleeps(pcs: seq<Pc>) { exists j :: 0 <= j < |pcs| && pcs[j].Asleep? }

  predicate Enabled(s: State, i: nat, a: Action) {
    i < |s.pcs| &&
    match a
    case Advance =>
      (match s.pcs[i]
       case WantLock => s.mu == None
       case Woken => s.mu == None
       case QLock(_, _) => s.mu == None
       case Check => true
       case Take => true
       case Release(_) => true
       case QPush(_, _) => true
       case QUnlock(_) => true
       case _ => false)
    case Wake => s.pcs[i].Asleep?
    case Finish => s.pcs[i].Running?
    case Queue(_) => s.pcs[i].Running? || s.pcs[i].Outside?
    case Signal(j) => s.pcs[i].QSignal? && j < |s.pcs| && (s.pcs[j].Asleep? || !SomeoneSleeps(s.pcs))
  }

  function Go(s: State, i: nat, p: Pc): State
    requires i < |s.pcs|
  {
    s.(pcs := s.pcs[i := p])
  }

  function Back(back: Option<Task>): Pc { if back.None? then Outside else Running(back.value) }

  function Next(s: State, i: nat, a: Action): State
    requires Enabled(s, i, a)
  {
    match a
    case Advance =>
      (match s.pcs[i]
       case WantLock => Go(s, i, Check).(mu := Some(i))
       case Woken => Go(s, i, Check).(mu := Some(i))
       case Check => if s.queue == [] then Go(s, i, Asleep).(mu := None) else Go(s, i, Take)
       // Shift of an empty list takes nothing; it is shown not to happen.
       case Take =>
         if s.queue == [] then Go(s, i, Release(0))
         else Go(s, i, Release(s.queue[0])).(queue := s.queue[1..])
       case Release(t) => Go(s, i, Running(t)).(mu := None)
       case QLock(x, back) => Go(s, i, QPush(x, back)).(mu := Some(i))
       case QPush(x, back) => Go(s, i, QSignal(back)).(queue := s.queue + [x])
       case QUnlock(back) => Go(s, i, Back(back)).(mu := None)
       case _ => s)
    case Wake => Go(s, i, Woken)
    case Finish => Go(s, i, WantLock)
    case Queue(x) => Go(s, i, QLock(x, if s.pcs[i].Running? then Some(s.pcs[i].t) else None))
    case Signal(j) =>
      var s' := Go(s, i, QUnlock(s.pcs[i].back));
      if s.pcs[j].Asleep? then Go(s', j, Woken) else s'
  }

  /** The workers start by asking for the mutex; the other threads are outside. */
  ghost predicate Start(s: State) {
    && s.workers <= |s.pcs| && s.mu == None && s.queue == []
    && forall i :: 0 <= i < |s.pcs| ==> s.pcs[i] == if i < s.workers then WantLock else Outside
  }

  datatype Move = Move(thread: nat, action: Action)

  ghost predicate IsRun(states: seq<State>, moves: seq<Move>) {
    && |states| == |moves| + 1 && Start(states[0])
    && forall k {:trigger moves[k]} :: 0 <= k < |moves| ==>
         Enabled(states[k], moves[k].thread, moves[k].action)
           && states[k + 1] == Next(states[k], moves[k].thread, moves[k].action)
  }

  // ----- counting threads -----

  predicate Ready(p: Pc) { p.WantLock? || p.Check? || p.Woken? || p.Take? }

  function Bit(b: bool): nat { if b then 1 else 0 }

  /** The workers awake and without a task. */
  function ReadyCount(pcs: seq<Pc>): (n: nat) {
    if pcs == [] then 0 else ReadyCount(pcs[..|pcs| - 1]) + Bit(Ready(pcs[|pcs| - 1]))
  }

  lemma {:induction false} CountUpdate(pcs: seq<Pc>, i: nat, p: Pc)
    requires i < |pcs|
    ensures ReadyCount(pcs[i := p]) == ReadyCount(pcs) - Bit(Ready(pcs[i])) + Bit(Ready(p))
    ensures Ready(pcs[i]) ==> ReadyCount(pcs) > 0
  {
    var n := |pcs| - 1;
    if i < n {
      CountUpdate(pcs[..n], i, p);
      assert pcs[i := p][..n] == pcs[..n][i := p];
    } else {
      assert pcs[i := p][..n] == pcs[..n];
    }
  }

  // ----- what every reachable state keeps -----

  /** The mutex is held by exactly the thread that is between its lock and unlock. */
  ghost predicate Exclusive(s: State) {
    && (s.mu.Some? ==> s.mu.value < |s.pcs|)
    && forall i :: 0 <= i < |s.pcs| ==> (Holds(s.pcs[i]) <==> s.mu == Some(i))
  }

  /** Threads are workers or not, for good. */
  ghost predicate Roles(s: State) {
    && s.workers <= |s.pcs|
    && forall i :: 0 <= i < |s.pcs| ==>
         var p := s.pcs[i];
         if p.QLock? || p.QPush? || p.QSignal? || p.QUnlock? then p.back.Some? <==> i < s.workers
         else p.Outside? <==> i >= s.workers
  }

  /** A signal is on its way: a thread has pushed and not signalled yet. */
  ghost predicate SignalDue(s: State) { exists i :: 0 <= i < |s.pcs| && s.pcs[i].QSignal? }

  /** While a worker sleeps, queued tasks do not outnumber the workers awake without a
      task, but for one whose signal is due. */
  ghost predicate Conserving(s: State) {
    SomeoneSleeps(s.pcs) ==> |s.queue| <= ReadyCount(s.pcs) + Bit(SignalDue(s))
  }

  /** No thread is about to shift from an empty list. */
  ghost predicate ShiftSafe(s: State) { forall i :: 0 <= i < |s.pcs| && s.pcs[i].Take? ==> s.queue != [] }

  ghost predicate Inv(s: State) { Exclusive(s) && Roles(s) && Conserving(s) && ShiftSafe(s) }

  lemma NextExclusive(s: State, i: nat, a: Action)
    requires Exclusive(s) && Enabled(s, i, a)
    ensures Exclusive(Next(s, i, a))
  {
    assert Holds(s.pcs[i]) <==> s.mu == Some(i);
  }

  lemma NextRoles(s: State, i: nat, a: Action)
    requires Roles(s) && Enabled(s, i, a)
    ensures Roles(Next(s, i, a))
  {
  }

  lemma NextShiftSafe(s: State, i: nat, a: Action)
    requires Exclusive(s) && ShiftSafe(s) && Enabled(s, i, a)
    ensures ShiftSafe(Next(s, i, a))
  {
    forall k | 0 <= k < |s.pcs| && Next(s, i, a).pcs[k].Take? ensures Next(s, i, a).queue != [] {
      assert Holds(s.pcs[i]) <==> s.mu == Some(i);
      assert Holds(s.pcs[k]) <==> s.mu == Some(k);
    }
  }

  lemma OnlyOneHolds(s: State, i: nat, k: nat)
    requires Exclusive(s) && i < |s.pcs| && k < |s.pcs| && Holds(s.pcs[i]) && Holds(s.pcs[k])
    ensures i == k
  {
    assert s.mu == Some(i) && s.mu == Some(k);
  }

  /** A thread that holds the mutex and is not signalling leaves no signal due. */
  lemma NoneDue(s: State, i: nat)
    requires Exclusive(s) && i < |s.pcs| && Holds(s.pcs[i]) && !s.pcs[i].QSignal?
    ensures !SignalDue(s)
  {
    forall k | 0 <= k < |s.pcs| && Holds(s.pcs[k]) ensures k == i { OnlyOneHolds(s, i, k); }
  }

  /** Steps of a thread that touch neither the queue nor a signal. */
  lemma QuietStep(s: State, i: nat, s': State, p: Pc)
    requires Conserving(s) && i < |s.pcs| && s'.pcs == s.pcs[i := p] && s'.queue == s.queue
    requires !s.pcs[i].QSignal? && !p.QSignal? && !p.Asleep? && (Ready(s.pcs[i]) ==> Ready(p))
    ensures Conserving(s')
  {
    CountUpdate(s.pcs, i, p);
    if SomeoneSleeps(s'.pcs) {
      var j :| 0 <= j < |s'.pcs| && s'.pcs[j].Asleep?;
      assert s.pcs[j].Asleep?;
      if SignalDue(s) {
        var k :| 0 <= k < |s.pcs| && s.pcs[k].QSignal?;
        assert s'.pcs[k].QSignal?;
      }
    }
  }

  lemma TakeStep(s: State, i: nat, s': State)
    requires Exclusive(s) && Conserving(s) && i < |s.pcs| && s.pcs[i].Take? && s.queue != []
      && s' == Next(s, i, Advance)
    ensures Conserving(s')
  {
    NoneDue(s, i);
    CountUpdate(s.pcs, i, s'.pcs[i]);
    if SomeoneSleeps(s'.pcs) {
      var j :| 0 <= j < |s'.pcs| && s'.pcs[j].Asleep?;
      assert s.pcs[j].Asleep?;
    }
  }

  lemma PushStep(s: State, i: nat, s': State)
    requires Exclusive(s) && Conserving(s) && i < |s.pcs| && s.pcs[i].QPush? && s' == Next(s, i, Advance)
    ensures Conserving(s')
  {
    NoneDue(s, i);
    CountUpdate(s.pcs, i, s'.pcs[i]);
    assert s'.pcs[i].QSignal?;
    if SomeoneSleeps(s'.pcs) {
      var j :| 0 <= j < |s'.pcs| && s'.pcs[j].Asleep?;
      assert s.pcs[j].Asleep?;
    }
  }

  lemma SignalStep(s: State, i: nat, j: nat, s': State)
    requires Exclusive(s) && Conserving(s) && Enabled(s, i, Signal(j)) && s' == Next(s, i, Signal(j))
    ensures Conserving(s')
  {
    var p := QUnlock(s.pcs[i].back);
    CountUpdate(s.pcs, i, p);
    if s.pcs[j].Asleep? {
      CountUpdate(s.pcs[i := p], j, Woken);
    } else {
      assert forall k :: 0 <= k < |s'.pcs| && s'.pcs[k].Asleep? ==> s.pcs[k].Asleep?;
    }
  }

  lemma NextConserving(s: State, i: nat, a: Action)
    requires Exclusive(s) && ShiftSafe(s) && Conserving(s) && Enabled(s, i, a)
    ensures Conserving(Next(s, i, a))
  {
    var s' := Next(s, i, a);
    if a.Signal? {
      SignalStep(s, i, a.j, s');
    } else if a.Advance? && s.pcs[i].Take? {
      TakeStep(s, i, s');
    } else if a.Advance? && s.pcs[i].QPush? {
      PushStep(s, i, s');
    } else if a.Advance? && s.pcs[i].Check? && s.queue == [] {
      assert s'.queue == [];
    } else {
      QuietStep(s, i, s', s'.pcs[i]);
    }
  }

  lemma NextKeeps(s: State, i: nat, a: Action)
    requires Inv(s) && Enabled(s, i, a)
    ensures Inv(Next(s, i, a))
  {
    NextExclusive(s, i, a);
    NextRoles(s, i, a);
    NextShiftSafe(s, i, a);
    NextConserving(s, i, a);
  }

  /** On every run of any number of workers and other threads: workers do not sleep while
      there is more queued than the waking workers will take, and no shift meets an empty list. */
  lemma {:induction false} RunKeeps(states: seq<State>, moves: seq<Move>)
    requires IsRun(states, moves)
    ensures Inv(states[|moves|])
  {
    var n := |moves|;
    if n > 0 {
      RunKeeps(states[..n], moves[..n - 1]);
      hide Inv, Next, Enabled;
      var m := moves[n - 1];
      assert Enabled(states[n - 1], m.thread, m.action);
      NextKeeps(states[n - 1], m.thread, m.action);
    }
  }

  /** A step other than a wakeup without a signal and a new call of QueueTask. */
  ghost predicate Proceeds(s: State, i: nat, a: Action) { Enabled(s, i, a) && !a.Wake? && !a.Queue? }

  /** While a task is queued and there is a worker, some thread can go on by itself. */
  lemma NeverStuck(s: State) returns (i: nat, a: Action)
    requires Inv(s) && s.queue != [] && s.workers > 0
    ensures Proceeds(s, i, a)
  {
    if s.mu.Some? {
      i := s.mu.value;
      assert Holds(s.pcs[i]);
      a := Advance;
      if s.pcs[i].QSignal? {
        if SomeoneSleeps(s.pcs) {
          var j: nat :| 0 <= j < |s.pcs| && s.pcs[j].Asleep?;
          a := Signal(j);
        } else {
          a := Signal(i);
        }
      }
    } else if k: nat :| k < |s.pcs| && (s.pcs[k].WantLock? || s.pcs[k].Woken? || s.pcs[k].QLock?) {
      i, a := k, Advance;
    } else {
      i, a := 0, Finish;
      NobodyReady(s);
      assert !SignalDue(s);
      assert !SomeoneSleeps(s.pcs);
      assert !s.pcs[0].Asleep?;
    }
  }

  lemma NobodyReady(s: State)
    requires Exclusive(s) && s.mu == None
    requires forall k :: 0 <= k < |s.pcs| ==> !(s.pcs[k].WantLock? || s.pcs[k].Woken? || s.pcs[k].QLock?)
    ensures ReadyCount(s.pcs) == 0 && !SignalDue(s)
  {
    assert forall k :: 0 <= k < |s.pcs| ==> !Holds(s.pcs[k]);
    NoneReady(s.pcs);
  }

  lemma {:induction false} NoneReady(pcs: seq<Pc>)
    requires forall k :: 0 <= k < |pcs| ==> !Ready(pcs[k])
    ensures ReadyCount(pcs) == 0
  {
    if pcs != [] { NoneReady(pcs[..|pcs| - 1]); }
  }

  // ----- every task is taken in the end -----

  function Weight(p: Pc): nat {
    match p
    case Asleep => 0
    case Outside => 0
    case Take => 1
    case Check => 2
    case WantLock => 3
    case Woken => 3
    case Running(_) => 4
    case Release(_) => 5
    case QUnlock(_) => 5
    case QSignal(_) => 9
    case QPush(_, _) => 15
    case QLock(_, _) => 16
  }

  function Total(pcs: seq<Pc>): nat { if pcs == [] then 0 else Total(pcs[..|pcs| - 1]) + Weight(pcs[|pcs| - 1]) }

  /** How many steps at most there still are without new calls of QueueTask and wakeups
      without a signal. */
  function ToDo(s: State): nat { Total(s.pcs) + 5 * |s.queue| }

  lemma {:induction false} TotalUpdate(pcs: seq<Pc>, i: nat, p: Pc)
    requires i < |pcs|
    ensures Total(pcs[i := p]) == Total(pcs) - Weight(pcs[i]) + Weight(p)
  {
    var n := |pcs| - 1;
    if i < n {
      TotalUpdate(pcs[..n], i, p);
      assert pcs[i := p][..n] == pcs[..n][i := p];
    } else {
      assert pcs[i := p][..n] == pcs[..n];
    }
  }

  lemma StepsRunOut(s: State, i: nat, a: Action)
    requires ShiftSafe(s) && Proceeds(s, i, a)
    ensures ToDo(Next(s, i, a)) < ToDo(s)
  {
    if a.Signal? {
      TotalUpdate(s.pcs, i, QUnlock(s.pcs[i].back));
      if s.pcs[a.j].Asleep? { TotalUpdate(s.pcs[i := QUnlock(s.pcs[i].back)], a.j, Woken); }
    } else {
      TotalUpdate(s.pcs, i, Next(s, i, a).pcs[i]);
    }
  }

  ghost predicate AtRest(s: State) { forall i, a :: !Proceeds(s, i, a) }

  /** When no thread can go on, all workers sleep, no other thread is in the scheduler, and
      the queue is empty. */
  lemma RestMeansIdle(s: State)
    requires Inv(s) && AtRest(s) && s.workers > 0
    ensures s.queue == [] && s.mu == None
    ensures forall i :: 0 <= i < |s.pcs| ==> if i < s.workers then s.pcs[i].Asleep? else s.pcs[i].Outside?
  {
    if s.queue != [] {
      var i, a := NeverStuck(s);
      assert false;
    }
    assert s.mu == None by { if s.mu.Some? { HolderGoes(s); } }
    forall i | 0 <= i < |s.pcs| ensures if i < s.workers then s.pcs[i].Asleep? else s.pcs[i].Outside? {
      assert !Holds(s.pcs[i]) && !Proceeds(s, i, Advance) && !Proceeds(s, i, Finish);
    }
  }

  /** The thread that holds the mutex can go on. */
  lemma HolderGoes(s: State)
    requires Exclusive(s) && s.mu.Some?
    ensures exists a :: Proceeds(s, s.mu.value, a)
  {
    var i := s.mu.value;
    assert Holds(s.pcs[i]);
    if !s.pcs[i].QSignal? {
      assert Proceeds(s, i, Advance);
    } else if j: nat :| j < |s.pcs| && s.pcs[j].Asleep? {
      assert Proceeds(s, i, Signal(j));
    } else {
      assert Proceeds(s, i, Signal(i));
    }
  }

  lemma ProceedsLess(s: State, i: nat, a: Action)
    requires Inv(s) && Proceeds(s, i, a)
    ensures ToDo(Next(s, i, a)) < ToDo(s) && Next(s, i, a).workers == s.workers
  {
    StepsRunOut(s, i, a);
  }
  // ----- which tasks are started, and in which order -----

  /** The task of the thread's last call of QueueTask. */
  function LastCall(moves: seq<Move>, i: nat): seq<Task> {
    if moves == [] then []
    else
      var n := |moves| - 1;
      if moves[n].thread == i && moves[n].action.Queue? then [moves[n].action.x] else LastCall(moves[..n], i)
  }

  predicate Pushes(s: State, m: Move) { m.action.Advance? && m.thread < |s.pcs| && s.pcs[m.thread].QPush? }

  /** The tasks of the calls of QueueTask, in the order in which the calls pushed. */
  function Pushed(states: seq<State>, moves: seq<Move>): seq<Task>
    requires |states| == |moves| + 1
  {
    if moves == [] then []
    else
      var n := |moves| - 1;
      Pushed(states[..n + 1], moves[..n]) + if Pushes(states[n], moves[n]) then LastCall(moves[..n], moves[n].thread)
                                            else []
  }

  /** The tasks of all calls of QueueTask. */
  function Calls(moves: seq<Move>): seq<Task> {
    if moves == [] then []
    else
      var a := moves[|moves| - 1].action;
      Calls(moves[..|moves| - 1]) + if a.Queue? then [a.x] else []
  }

  predicate Starts(s: State, m: Move) { m.action.Advance? && m.thread < |s.pcs| && s.pcs[m.thread].Release? }

  function Current(s: State, i: nat): seq<Task> {
    if i < |s.pcs| && s.pcs[i].Running? then [s.pcs[i].t] else []
  }

  /** The tasks that workers have gone on to step, in order. */
  function Started(states: seq<State>, moves: seq<Move>): seq<Task>
    requires |states| == |moves| + 1
  {
    if moves == [] then []
    else
      var n := |moves| - 1;
      Started(states[..n + 1], moves[..n])
      + if Starts(states[n], moves[n]) then Current(states[n + 1], moves[n].thread) else []
  }

  /** The task that thread `i` went on to step last. */
  function LastStarted(states: seq<State>, moves: seq<Move>, i: nat): seq<Task>
    requires |states| == |moves| + 1
  {
    if moves == [] then []
    else
      var n := |moves| - 1;
      if moves[n].thread == i && Starts(states[n], moves[n]) then Current(states[n + 1], i)
      else LastStarted(states[..n + 1], moves[..n], i)
  }

  /** The task that has left the queue and is about to be stepped. */
  function InHand(s: State): seq<Task> {
    if s.mu.Some? && s.mu.value < |s.pcs| && s.pcs[s.mu.value].Release? then [s.pcs[s.mu.value].t] else []
  }

  /** What a step starts, has in hand and leaves in the queue is what was in hand and in the
      queue, and what the step pushes. */
  lemma NextInOrder(s: State, i: nat, a: Action)
    requires Exclusive(s) && ShiftSafe(s) && Enabled(s, i, a)
    ensures var s' := Next(s, i, a);
      (if Starts(s, Move(i, a)) then Current(s', i) else []) + InHand(s') + s'.queue
        == InHand(s) + s.queue + if Pushes(s, Move(i, a)) then [s.pcs[i].x] else []
  {
    var s' := Next(s, i, a);
    assert Holds(s.pcs[i]) <==> s.mu == Some(i);
    assert Starts(s, Move(i, a)) ==> InHand(s') == [];
    if a.Advance? && s.pcs[i].Take? { assert s.queue == [s.queue[0]] + s.queue[1..]; }
  }

  /** A call that has not pushed yet carries the task it was called with. */
  lemma {:induction false} CarriesItsTask(states: seq<State>, moves: seq<Move>, i: nat)
    requires IsRun(states, moves)
    ensures var s := states[|moves|];
      i < |s.pcs| && (s.pcs[i].QLock? || s.pcs[i].QPush?) ==> LastCall(moves, i) == [s.pcs[i].x]
  {
    var n := |moves|;
    if n > 0 {
      CarriesItsTask(states[..n], moves[..n - 1], i);
      var m := moves[n - 1];
      assert Enabled(states[n - 1], m.thread, m.action);
    }
  }

  /** Tasks are started in the order in which the calls of QueueTask pushed them: none is
      lost, none is started twice, and no other is started. */
  lemma {:induction false} StartedInOrder(states: seq<State>, moves: seq<Move>)
    requires IsRun(states, moves)
    ensures var s := states[|moves|]; Started(states, moves) + InHand(s) + s.queue == Pushed(states, moves)
  {
    var n := |moves|;
    if n > 0 {
      var m, s, s' := moves[n - 1], states[n - 1], states[n];
      StartedInOrder(states[..n], moves[..n - 1]);
      ThisStep(states, moves);
      hide IsRun, InHand, Starts, Pushes, Current, LastCall;
      Regroup(Started(states[..n], moves[..n - 1]), if Starts(s, m) then Current(s', m.thread) else [],
        InHand(s'), s'.queue, InHand(s), s.queue, if Pushes(s, m) then LastCall(moves[..n - 1], m.thread) else []);
    }
  }

  lemma Regroup(before: seq<Task>, start: seq<Task>, hand: seq<Task>, queue: seq<Task>, hand0: seq<Task>,
          queue0: seq<Task>, push: seq<Task>)
    requires start + hand + queue == hand0 + queue0 + push
    ensures (before + start) + hand + queue == (before + hand0 + queue0) + push
  {
    assert (before + start) + hand + queue == before + (start + hand + queue);
  }

  lemma ThisStep(states: seq<State>, moves: seq<Move>)
    requires IsRun(states, moves) && moves != []
    ensures var n := |moves| - 1; var s, s', m := states[n], states[n + 1], moves[n];
      (if Starts(s, m) then Current(s', m.thread) else []) + InHand(s') + s'.queue
        == InHand(s) + s.queue + if Pushes(s, m) then LastCall(moves[..n], m.thread) else []
  {
    var n := |moves| - 1;
    var m := moves[n];
    RunKeeps(states[..n + 1], moves[..n]);
    CarriesItsTask(states[..n + 1], moves[..n], m.thread);
    hide LastCall, Next, InHand, Current, Conserving, Roles;
    assert Enabled(states[n], m.thread, m.action) && m == Move(m.thread, m.action);
    NextInOrder(states[n], m.thread, m.action);
  }

  /** From its start until StepNext returns false a worker runs the task it started, also
      while it is in a call of QueueTask. */
  lemma {:induction false} RunsWhatItStarted(states: seq<State>, moves: seq<Move>, i: nat)
    requires IsRun(states, moves) && i < |states[|moves|].pcs|
    ensures RunsLast(states[|moves|].pcs[i], LastStarted(states, moves, i))
  {
    var n := |moves|;
    if n > 0 {
      var m, s := moves[n - 1], states[n - 1];
      assert Enabled(s, m.thread, m.action);
      RunsWhatItStarted(states[..n], moves[..n - 1], i);
      hide IsRun, LastStarted;
      NextRunsLast(s, m.thread, m.action, i, LastStarted(states[..n], moves[..n - 1], i));
    }
  }

  /** A worker at `p`, if it is stepping a task or in a call made by one, runs that task. */
  predicate RunsLast(p: Pc, last: seq<Task>) {
    && (p.Running? ==> last == [p.t])
    && (p.QLock? || p.QPush? || p.QSignal? || p.QUnlock? ==> p.back.Some? ==> last == [p.back.value])
  }

  lemma NextRunsLast(s: State, k: nat, a: Action, i: nat, last: seq<Task>)
    requires Enabled(s, k, a) && i < |s.pcs| && RunsLast(s.pcs[i], last)
    ensures var s' := Next(s, k, a);
      RunsLast(s'.pcs[i], if k == i && Starts(s, Move(k, a)) then Current(s', i) else last)
  {
  }

  /** How many calls for `x` have not pushed yet. */
  function Unpushed(pcs: seq<Pc>, x: Task): nat {
    if pcs == [] then 0 else Unpushed(pcs[..|pcs| - 1], x) + Bit(Carries(pcs[|pcs| - 1], x))
  }

  predicate Carries(p: Pc, x: Task) { (p.QLock? || p.QPush?) && p.x == x }

  lemma {:induction false} UnpushedUpdate(pcs: seq<Pc>, i: nat, p: Pc, x: Task)
    requires i < |pcs|
    ensures Unpushed(pcs[i := p], x) == Unpushed(pcs, x) - Bit(Carries(pcs[i], x)) + Bit(Carries(p, x))
  {
    var n := |pcs| - 1;
    if i < n {
      UnpushedUpdate(pcs[..n], i, p, x);
      assert pcs[i := p][..n] == pcs[..n][i := p];
    } else {
      assert pcs[i := p][..n] == pcs[..n];
    }
  }

  lemma NextUnpushed(s: State, i: nat, a: Action, x: Task)
    requires Enabled(s, i, a)
    ensures Unpushed(Next(s, i, a).pcs, x) + Bit(Pushes(s, Move(i, a)) && s.pcs[i].x == x)
      == Unpushed(s.pcs, x) + Bit(a.Queue? && a.x == x)
  {
    hide Unpushed;
    if a.Signal? {
      var p := QUnlock(s.pcs[i].back);
      UnpushedUpdate(s.pcs, i, p, x);
      if s.pcs[a.j].Asleep? { UnpushedUpdate(s.pcs[i := p], a.j, Woken, x); }
    } else {
      UnpushedUpdate(s.pcs, i, Next(s, i, a).pcs[i], x);
    }
  }

  /** Every call of QueueTask pushes its task once. */
  lemma {:induction false} EveryCallPushes(states: seq<State>, moves: seq<Move>, x: Task)
    requires IsRun(states, moves)
    ensures multiset(Pushed(states, moves))[x] + Unpushed(states[|moves|].pcs, x) == multiset(Calls(moves))[x]
  {
    var n := |moves|;
    if n > 0 {
      var m, s := moves[n - 1], states[n - 1];
      EveryCallPushes(states[..n], moves[..n - 1], x);
      CarriesItsTask(states[..n], moves[..n - 1], m.thread);
      hide Unpushed, Next, LastCall;
      assert Enabled(s, m.thread, m.action) && m == Move(m.thread, m.action);
      NextUnpushed(s, m.thread, m.action, x);
    } else {
      NothingCarried(states[0].pcs, x);
    }
  }

  lemma {:induction false} NothingCarried(pcs: seq<Pc>, x: Task)
    requires forall i :: 0 <= i < |pcs| ==> !pcs[i].QLock? && !pcs[i].QPush?
    ensures Unpushed(pcs, x) == 0
  {
    if pcs != [] { NothingCarried(pcs[..|pcs| - 1], x); }
  }

  /** At rest the tasks started are those that QueueTask was called with, each as often. */
  lemma RestMeansAllStarted(states: seq<State>, moves: seq<Move>)
    requires IsRun(states, moves) && AtRest(states[|moves|]) && states[|moves|].workers > 0
    ensures Started(states, moves) == Pushed(states, moves)
    ensures multiset(Started(states, moves)) == multiset(Calls(moves))
  {
    RunKeeps(states, moves);
    RestMeansIdle(states[|moves|]);
    StartedInOrder(states, moves);
    hide IsRun, Inv, AtRest, Started, Calls, Unpushed, Pushed;
    assert Started(states, moves) == Pushed(states, moves);
    forall x ensures multiset(Pushed(states, moves))[x] == multiset(Calls(moves))[x] {
      AllPushed(states, moves, x);
    }
  }

  lemma AllPushed(states: seq<State>, moves: seq<Move>, x: Task)
    requires IsRun(states, moves)
    requires forall i :: 0 <= i < |states[|moves|].pcs| ==>
      states[|moves|].pcs[i].Asleep? || states[|moves|].pcs[i].Outside?
    ensures multiset(Pushed(states, moves))[x] == multiset(Calls(moves))[x]
  {
    var pcs := states[|moves|].pcs;
    hide IsRun, Pushed, Calls, Unpushed;
    EveryCallPushes(states, moves, x);
    NothingCarried(pcs, x);
  }

  /** Left to themselves from move `k` on, the threads come to rest within `ToDo` steps,
      whatever their order, and then every task that QueueTask was ever called with has been
      started, each as often as it was queued. */
  lemma AllTasksStarted(states: seq<State>, moves: seq<Move>, k: nat)
    requires IsRun(states, moves) && k <= |moves| && states[0].workers > 0
    requires forall j {:trigger moves[j]} :: k <= j < |moves| ==>
      Proceeds(states[j], moves[j].thread, moves[j].action)
    ensures var last := states[|moves|];
      && last.workers == states[0].workers && |moves| - k + ToDo(last) <= ToDo(states[k])
      && (AtRest(last) ==> multiset(Started(states, moves)) == multiset(Calls(moves)))
  {
    WithinToDo(states, moves, k);
    if AtRest(states[|moves|]) { RestMeansAllStarted(states, moves); }
  }

  lemma {:induction false} WithinToDo(states: seq<State>, moves: seq<Move>, k: nat)
    requires IsRun(states, moves) && k <= |moves|
    requires forall j {:trigger moves[j]} :: k <= j < |moves| ==>
      Proceeds(states[j], moves[j].thread, moves[j].action)
    ensures |moves| - k + ToDo(states[|moves|]) <= ToDo(states[k])
    ensures states[|moves|].workers == states[0].workers
  {
    var n := |moves|;
    if n > 0 {
      var m := moves[n - 1];
      assert Enabled(states[n - 1], m.thread, m.action);
      if k < n {
        WithinToDo(states[..n], moves[..n - 1], k);
        RunKeeps(states[..n], moves[..n - 1]);
        ProceedsLess(states[n - 1], m.thread, m.action);
      } else {
        WithinToDo(states[..n], moves[..n - 1], n - 1);
      }
    }
  }
}
