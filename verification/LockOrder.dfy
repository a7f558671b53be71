/** How the runtime nests its locks: the event mutex, the tasks' locks and the scheduler's
    mutex, as the call stacks of workers, the loop thread and other threads. */
module LockOrder {

  datatype Lock = Ev | Of(task: nat) | Mu

  datatype Role = Worker | Loop | Other

  /** A call under way, at the statement it has reached. */
  datatype Frame =
    | Code(role: Role)                 // code that holds no lock: a task being stepped, a callback, any other
    | FetchLock | FetchTest | Sleep    // the worker loop's ds.mu.Lock(); under the lock; in ds.cond.Wait
    | PushLock | PushSignal            // QueueTask: s.mu.Lock(); under the lock
    | DoneLock(task: nat)              // TryQueueContinuous: mu.Lock()
    | DoneSet(task: nat)               // st.SetDone() and the call of QueueTaskIfPossible
    | DoneUnlock(task: nat)            // mu.UnLock()
    | AwaitLock(task: nat)             // LockST
    | AwaitTest(task: nat)             // the test, the registration and UnLockST
    | JobLock | JobPush                // QueueEvJob: evmu.Lock(); under the lock
    | DrainLock | Drain                // the loop's callback: evmu.Lock(); under the lock
    | Job                              // f(), called by the callback

  function Wants(f: Frame): (l: set<Lock>) {
    match f
    case FetchLock => {Mu}
    case PushLock => {Mu}
    case DoneLock(t) => {Of(t)}
    case AwaitLock(t) => {Of(t)}
    case JobLock => {Ev}
    case DrainLock => {Ev}
    case _ => {}
  }

  function Holds(f: Frame): (l: set<Lock>) {
    match f
    case FetchTest => {Mu}
    case PushSignal => {Mu}
    case DoneSet(t) => {Of(t)}
    case DoneUnlock(t) => {Of(t)}
    case AwaitTest(t) => {Of(t)}
    case JobPush => {Ev}
    case Drain => {Ev}
    case _ => {}
  }

  /** Innermost call last. */
  type Stack = seq<Frame>

  type State = seq<Stack>

  ghost predicate HeldBy(st: Stack, l: Lock) { exists k :: 0 <= k < |st| && l in Holds(st[k]) }

  ghost predicate Free(s: State, l: Lock) { forall j :: 0 <= j < |s| ==> !HeldBy(s[j], l) }

  /** `choice` picks between the ways a statement may go: a task is registered to go on or
      not, the list is empty or not, the worker finds a task or sleeps. */
  datatype Action = Call(f: Frame) | Go(choice: bool)

  /** The calls that code makes. Jobs of the event loop call QueueEvJob only if `nested`. */
  predicate MayCall(f: Frame, g: Frame, nested: bool) {
    match f
    case Code(role) =>
      g.PushLock? || g.DoneLock? || g.AwaitLock? || g.JobLock? || (role.Worker? && g.FetchLock?)
        || (role.Loop? && g.DrainLock?)
    case Job => g.PushLock? || g.DoneLock? || g.AwaitLock? || (nested && g.JobLock?)
    case _ => false
  }

  /** The innermost call's next statement: what its frame is replaced by. */
  function Replace(f: Frame, choice: bool): Stack {
    match f
    case Code(_) => [f]
    case FetchLock => [FetchTest]
    case FetchTest => if choice then [] else [Sleep]
    case Sleep => [FetchLock]
    case PushLock => [PushSignal]
    case PushSignal => []
    case DoneLock(t) => [DoneSet(t)]
    case DoneSet(t) => if choice then [DoneUnlock(t), PushLock] else [DoneUnlock(t)]
    case DoneUnlock(_) => []
    case AwaitLock(t) => [AwaitTest(t)]
    case AwaitTest(_) => []
    case JobLock => [JobPush]
    case JobPush => []
    case DrainLock => [Drain]
    case Drain => if choice then [Drain, Job] else []
    case Job => []
  }

  ghost predicate Enabled(s: State, i: nat, a: Action, nested: bool) {
    && i < |s| && s[i] != []
    && var f := s[i][|s[i]| - 1];
    match a
    case Call(g) => MayCall(f, g, nested)
    case Go(_) => !f.Code? && forall l :: l in Wants(f) ==> Free(s, l)
  }

  ghost function Next(s: State, i: nat, a: Action): State
    requires i < |s| && s[i] != []
  {
    var n := |s[i]| - 1;
    match a
    case Call(g) => s[i := s[i] + [g]]
    case Go(choice) => s[i := s[i][..n] + Replace(s[i][n], choice)]
  }

  datatype Move = Move(thread: nat, action: Action)

  ghost predicate Start(s: State) { forall i :: 0 <= i < |s| ==> |s[i]| == 1 && s[i][0].Code? }

  ghost predicate IsRun(states: seq<State>, moves: seq<Move>, nested: bool) {
    && |states| == |moves| + 1 && Start(states[0])
    && forall k {:trigger moves[k]} :: 0 <= k < |moves| ==>
         Enabled(states[k], moves[k].thread, moves[k].action, nested)
           && states[k + 1] == Next(states[k], moves[k].thread, moves[k].action)
  }

  // ----- the nesting of calls -----

  /** How deep a call may stand; calls inside a call stand deeper. */
  function Depth(f: Frame): nat {
    match f
    case Code(_) => 0
    case Drain => 1
    case DrainLock => 1
    case JobLock => 1
    case JobPush => 1
    case FetchLock => 1
    case FetchTest => 1
    case Sleep => 1
    case Job => 2
    case PushLock => 4
    case PushSignal => 4
    case _ => 3
  }

  /** Calls that have calls inside them. */
  predicate Outer(f: Frame) { f.Code? || f.Drain? || f.Job? || f.DoneUnlock? }

  ghost predicate Nested(st: Stack) {
    && st != [] && st[0].Code?
    && (forall a, b :: 0 <= a < b < |st| ==> Depth(st[a]) < Depth(st[b]))
    && (forall a :: 0 <= a < |st| - 1 ==> Outer(st[a]))
  }

  ghost predicate AllNested(s: State) { forall i :: 0 <= i < |s| ==> Nested(s[i]) }

  lemma Pushed(st: Stack, f: Frame)
    requires Nested(st) && Outer(st[|st| - 1]) && Depth(st[|st| - 1]) < Depth(f)
    ensures Nested(st + [f])
  {
    forall a, b | 0 <= a < b < |st + [f]| ensures Depth((st + [f])[a]) < Depth((st + [f])[b]) {
      if b == |st| && a < |st| - 1 { assert Depth(st[a]) < Depth(st[|st| - 1]); }
    }
  }

  lemma NextNested(s: State, i: nat, a: Action)
    requires AllNested(s) && Enabled(s, i, a, false)
    ensures AllNested(Next(s, i, a))
  {
    var st, n := s[i], |s[i]| - 1;
    assert Nested(st);
    if a.Call? {
      Pushed(st, a.f);
    } else {
      assert n > 0 && Nested(st[..n]);
      var r := Replace(st[n], a.choice);
      if |r| > 0 { Pushed(st[..n], r[0]); }
      if |r| > 1 { Pushed(st[..n] + [r[0]], r[1]); }
      assert st[..n] + r == if |r| == 0 then st[..n] else if |r| == 1 then st[..n] + [r[0]]
        else st[..n] + [r[0]] + [r[1]];
    }
    hide Nested;
  }

  lemma {:induction false} RunNested(states: seq<State>, moves: seq<Move>)
    requires IsRun(states, moves, false)
    ensures AllNested(states[|moves|])
  {
    var n := |moves|;
    if n > 0 {
      RunNested(states[..n], moves[..n - 1]);
      var m := moves[n - 1];
      assert Enabled(states[n - 1], m.thread, m.action, false);
      NextNested(states[n - 1], m.thread, m.action);
    }
  }

  // ----- mutual exclusion -----

  /** No lock is held twice, by two threads or by one. */
  ghost predicate Exclusive(s: State) {
    forall i, a, j, b, l ::
      0 <= i < |s| && 0 <= a < |s[i]| && 0 <= j < |s| && 0 <= b < |s[j]| && l in Holds(s[i][a]) && l in Holds(s[j][b])
      ==> i == j && a == b
  }

  lemma HeldOnce(s: State, i: nat, a: nat, j: nat, b: nat, l: Lock)
    requires Exclusive(s) && i < |s| && a < |s[i]| && j < |s| && b < |s[j]|
    requires l in Holds(s[i][a]) && l in Holds(s[j][b])
    ensures i == j && a == b
  {
  }

  /** What the new frames of a call hold, its old frame held or waited for. */
  lemma ReplaceHolds(f: Frame, choice: bool, a: nat, b: nat, l: Lock)
    requires a < |Replace(f, choice)| && l in Holds(Replace(f, choice)[a])
    ensures l in Holds(f) || l in Wants(f)
    ensures b < |Replace(f, choice)| && l in Holds(Replace(f, choice)[b]) ==> a == b
  {
  }

  /** Where a frame of the next state comes from: it stood there before, or replaces the
      innermost call of the thread that moves. */
  lemma NextHolds(s: State, i: nat, a: Action, nested: bool, j: nat, b: nat, l: Lock)
    requires Enabled(s, i, a, nested) && j < |s| && b < |Next(s, i, a)[j]| && l in Holds(Next(s, i, a)[j][b])
    ensures var n := |s[i]| - 1;
      || (b < |s[j]| && l in Holds(s[j][b]) && Next(s, i, a)[j][b] == s[j][b] && (j == i && a.Go? ==> b < n))
      || (j == i && a.Go? && n <= b && b - n < |Replace(s[i][n], a.choice)|
          && Next(s, i, a)[j][b] == Replace(s[i][n], a.choice)[b - n])
  {
  }

  lemma NextExclusive(s: State, i: nat, a: Action, nested: bool)
    requires Exclusive(s) && Enabled(s, i, a, nested)
    ensures Exclusive(Next(s, i, a))
  {
    var s' := Next(s, i, a);
    forall j, b, k, c, l | 0 <= j < |s'| && 0 <= b < |s'[j]| && 0 <= k < |s'| && 0 <= c < |s'[k]|
      && l in Holds(s'[j][b]) && l in Holds(s'[k][c])
      ensures j == k && b == c
    {
      NextHeldOnce(s, i, a, nested, j, b, k, c, l);
    }
  }

  lemma NextHeldOnce(s: State, i: nat, a: Action, nested: bool, j: nat, b: nat, k: nat, c: nat, l: Lock)
    requires Exclusive(s) && Enabled(s, i, a, nested) && j < |s| && k < |s|
    requires b < |Next(s, i, a)[j]| && c < |Next(s, i, a)[k]|
    requires l in Holds(Next(s, i, a)[j][b]) && l in Holds(Next(s, i, a)[k][c])
    ensures j == k && b == c
  {
    var n := |s[i]| - 1;
    NextHolds(s, i, a, nested, j, b, l);
    NextHolds(s, i, a, nested, k, c, l);
    var old1 := b < |s[j]| && l in Holds(s[j][b]) && (j == i && a.Go? ==> b < n);
    var old2 := c < |s[k]| && l in Holds(s[k][c]) && (k == i && a.Go? ==> c < n);
    if old1 && old2 {
      HeldOnce(s, j, b, k, c, l);
    } else if old1 {
      NewNotOld(s, i, a, nested, c - n, j, b, l);
    } else if old2 {
      NewNotOld(s, i, a, nested, b - n, k, c, l);
    } else {
      ReplaceHolds(s[i][n], a.choice, b - n, c - n, l);
    }
  }

  /** A lock that the new frames hold is held by no other frame: it was free, or was held
      by the frame they replace. */
  lemma NewNotOld(s: State, i: nat, a: Action, nested: bool, r: nat, j: nat, b: nat, l: Lock)
    requires Exclusive(s) && Enabled(s, i, a, nested) && a.Go? && j < |s| && b < |s[j]| && l in Holds(s[j][b])
    requires r < |Replace(s[i][|s[i]| - 1], a.choice)| && l in Holds(Replace(s[i][|s[i]| - 1], a.choice)[r])
    ensures j == i && b == |s[i]| - 1
  {
    var n := |s[i]| - 1;
    ReplaceHolds(s[i][n], a.choice, r, r, l);
    if l in Holds(s[i][n]) {
      HeldOnce(s, i, n, j, b, l);
    } else {
      assert Free(s, l) && HeldBy(s[j], l);
    }
  }

  lemma {:induction false} RunExclusive(states: seq<State>, moves: seq<Move>, nested: bool)
    requires IsRun(states, moves, nested)
    ensures Exclusive(states[|moves|])
  {
    var n := |moves|;
    if n > 0 {
      RunExclusive(states[..n], moves[..n - 1], nested);
      var m := moves[n - 1];
      assert Enabled(states[n - 1], m.thread, m.action, nested);
      NextExclusive(states[n - 1], m.thread, m.action, nested);
    }
  }

  /** The data that threads share. */
  datatype Shared = TaskQueue | JobList | StateMachine(task: nat)

  /** What the statement a call has reached reads or writes. */
  function Uses(f: Frame): set<Shared> {
    match f
    case FetchTest => {TaskQueue}
    case PushSignal => {TaskQueue}
    case DoneSet(t) => {StateMachine(t)}
    case AwaitTest(t) => {StateMachine(t)}
    case JobPush => {JobList}
    case Drain => {JobList}
    case _ => {}
  }

  /** No two threads are at statements that use the same data, whatever jobs do. */
  lemma UsedAlone(states: seq<State>, moves: seq<Move>, nested: bool, i: nat, a: nat, j: nat, b: nat, d: Shared)
    requires IsRun(states, moves, nested) && i < |states[|moves|]| && j < |states[|moves|]|
    requires a < |states[|moves|][i]| && d in Uses(states[|moves|][i][a])
    requires b < |states[|moves|][j]| && d in Uses(states[|moves|][j][b])
    ensures i == j && a == b
  {
    RunExclusive(states, moves, nested);
    var l := match d case TaskQueue => Mu case JobList => Ev case StateMachine(t) => Of(t);
    HeldOnce(states[|moves|], i, a, j, b, l);
  }

  // ----- waiting -----

  function Rank(l: Lock): nat { match l case Ev => 0 case Of(_) => 1 case Mu => 2 }

  ghost predicate WaitsFor(s: State, i: nat, j: nat, l: Lock) {
    i < |s| && j < |s| && s[i] != [] && l in Wants(s[i][|s[i]| - 1]) && HeldBy(s[j], l)
  }

  datatype Wait = Wait(thread: nat, lock: Lock)

  function After(c: seq<Wait>, k: nat): Wait
    requires k < |c|
  {
    if k + 1 < |c| then c[k + 1] else c[0]
  }

  /** Threads that each wait for a lock the next one holds, the last for one the first holds. */
  ghost predicate Cycle(s: State, c: seq<Wait>) {
    |c| > 0 && forall k {:trigger After(c, k)} :: 0 <= k < |c| ==>
      WaitsFor(s, c[k].thread, After(c, k).thread, c[k].lock)
  }

  /** A lock is only asked for by a thread whose locks all come before it. */
  lemma InRankOrder(st: Stack, l: Lock, held: Lock)
    requires Nested(st) && l in Wants(st[|st| - 1]) && HeldBy(st, held)
    ensures Rank(held) < Rank(l)
  {
    var k :| 0 <= k < |st| && held in Holds(st[k]);
    assert k < |st| - 1;
    assert Depth(st[k]) < Depth(st[|st| - 1]);
  }

  lemma RanksRise(s: State, i: nat, j: nat, k: nat, l: Lock, l2: Lock)
    requires AllNested(s) && WaitsFor(s, i, j, l) && WaitsFor(s, j, k, l2)
    ensures Rank(l) < Rank(l2)
  {
    assert Nested(s[j]);
    InRankOrder(s[j], l2, l);
  }

  lemma {:induction false} AlongCycle(s: State, c: seq<Wait>, k: nat)
    requires AllNested(s) && Cycle(s, c) && k < |c|
    ensures Rank(c[0].lock) + k <= Rank(c[k].lock)
  {
    if k > 0 {
      AlongCycle(s, c, k - 1);
      assert After(c, k - 1) == c[k];
      var next := After(c, k);
      hide AllNested, WaitsFor;
      RanksRise(s, c[k - 1].thread, c[k].thread, next.thread, c[k - 1].lock, c[k].lock);
    }
  }

  /** With locks nested in rank order no threads wait for each other in a circle. */
  lemma NoCycle(s: State, c: seq<Wait>)
    requires AllNested(s)
    ensures !Cycle(s, c)
  {
    if Cycle(s, c) {
      var n := |c| - 1;
      AlongCycle(s, c, n);
      assert After(c, n) == c[0];
      var next := After(c, 0);
      hide AllNested, WaitsFor;
      RanksRise(s, c[n].thread, c[0].thread, next.thread, c[n].lock, c[0].lock);
      assert false;
    }
  }

  /** A thread waiting for a lock, however long the chain of holders, ends at one that can go on. */
  lemma {:induction false} HolderGoes(s: State, i: nat, j: nat, l: Lock) returns (k: nat)
    requires AllNested(s) && WaitsFor(s, i, j, l)
    ensures Enabled(s, k, Go(true), false)
    decreases 2 - Rank(l)
  {
    assert Nested(s[j]);
    var f := s[j][|s[j]| - 1];
    var h :| 0 <= h < |s[j]| && l in Holds(s[j][h]);
    assert Depth(s[j][h]) <= Depth(f);
    if l2 :| l2 in Wants(f) && !Free(s, l2) {
      var j2 :| 0 <= j2 < |s| && HeldBy(s[j2], l2);
      RanksRise(s, i, j, j2, l, l2);
      k := HolderGoes(s, j, j2, l2);
    } else {
      k := j;
    }
  }

  // ----- when the circle can close -----

  /** Some run reaches threads that wait for each other in a circle. */
  ghost predicate Deadlocks(threads: nat, nested: bool) {
    exists states, moves, c :: IsRun(states, moves, nested) && |states[0]| == threads && Cycle(states[|moves|], c)
  }

  /** The loop thread with these calls under way, and nothing else going on. */
  ghost function Alone(threads: nat, st: Stack): (s: State)
    ensures |s| == threads
  {
    seq(threads, i => if i == 0 then st else [Code(Loop)])
  }

  lemma AloneStep(threads: nat, st: Stack, a: Action, st': Stack, nested: bool)
    requires threads > 0 && st != [] && Next([st], 0, a)[0] == st' && Enabled([st], 0, a, nested)
    ensures Enabled(Alone(threads, st), 0, a, nested) && Next(Alone(threads, st), 0, a) == Alone(threads, st')
  {
    var s := Alone(threads, st);
    assert s[0] == st == [st][0];
    forall l, j | 0 <= j < threads && Free([st], l) ensures !HeldBy(s[j], l) {
      assert !HeldBy([st][0], l);
    }
    assert Next(s, 0, a) == s[0 := st'] == Alone(threads, st');
  }

  lemma JobQueuesJobSteps(threads: nat)
    requires threads > 0
    ensures var s0, s1 := Alone(threads, [Code(Loop)]), Alone(threads, [Code(Loop), DrainLock]);
      Enabled(s0, 0, Call(DrainLock), true) && s1 == Next(s0, 0, Call(DrainLock))
    ensures var s1, s2 := Alone(threads, [Code(Loop), DrainLock]), Alone(threads, [Code(Loop), Drain]);
      Enabled(s1, 0, Go(true), true) && s2 == Next(s1, 0, Go(true))
    ensures var s2, s3 := Alone(threads, [Code(Loop), Drain]), Alone(threads, [Code(Loop), Drain, Job]);
      Enabled(s2, 0, Go(true), true) && s3 == Next(s2, 0, Go(true))
    ensures var s3, s4 := Alone(threads, [Code(Loop), Drain, Job]), Alone(threads, [Code(Loop), Drain, Job, JobLock]);
      Enabled(s3, 0, Call(JobLock), true) && s4 == Next(s3, 0, Call(JobLock))
  {
    hide Alone;
    AloneStep(threads, [Code(Loop)], Call(DrainLock), [Code(Loop), DrainLock], true);
    AloneStep(threads, [Code(Loop), DrainLock], Go(true), [Code(Loop), Drain], true);
    AloneStep(threads, [Code(Loop), Drain], Go(true), [Code(Loop), Drain, Job], true);
    AloneStep(threads, [Code(Loop), Drain, Job], Call(JobLock), [Code(Loop), Drain, Job, JobLock], true);
  }

  /** The loop's callback runs a job that queues a job: it waits for the lock it holds. */
  lemma JobQueuesJob(threads: nat)
    requires threads > 0
    ensures Deadlocks(threads, true)
  {
    var a, b, c, d := Call(DrainLock), Go(true), Go(true), Call(JobLock);
    var s0, s1, s2 := Alone(threads, [Code(Loop)]), Alone(threads, [Code(Loop), DrainLock]),
      Alone(threads, [Code(Loop), Drain]);
    var s3, s4 := Alone(threads, [Code(Loop), Drain, Job]), Alone(threads, [Code(Loop), Drain, Job, JobLock]);
    assert Start(s0);
    assert WaitsFor(s4, 0, 0, Ev) by { assert Ev in Holds(s4[0][1]); }
    JobQueuesJobSteps(threads);
    hide Alone, Enabled, Next, Start, WaitsFor;
    var states, moves := [s0, s1, s2, s3, s4], [Move(0, a), Move(0, b), Move(0, c), Move(0, d)];
    assert IsRun(states, moves, true);
    assert Cycle(states[|moves|], [Wait(0, Ev)]);
  }

  /** The runtime's threads can come to wait for each other in a circle if and only if event
      jobs call QueueEvJob. */
  lemma DeadlocksExactlyWhen(threads: nat, nested: bool)
    requires threads > 0
    ensures Deadlocks(threads, nested) <==> nested
  {
    if nested {
      JobQueuesJob(threads);
    } else {
      forall states, moves, c | IsRun(states, moves, false) ensures !Cycle(states[|moves|], c) {
        RunNested(states, moves);
        NoCycle(states[|moves|], c);
      }
    }
  }
  // ----- the order is used in full -----

  /** The calls of a job that completes task `t`, from the outside in. */
  function Completing(n: nat, t: nat): Stack {
    match n
    case 0 => [Code(Loop)]
    case 1 => [Code(Loop), DrainLock]
    case 2 => [Code(Loop), Drain]
    case 3 => [Code(Loop), Drain, Job]
    case 4 => [Code(Loop), Drain, Job, DoneLock(t)]
    case 5 => [Code(Loop), Drain, Job, DoneSet(t)]
    case _ => [Code(Loop), Drain, Job, DoneUnlock(t), PushLock]
  }

  function CompletingMove(n: nat, t: nat): Action {
    match n case 0 => Call(DrainLock) case 3 => Call(DoneLock(t)) case _ => Go(true)
  }

  lemma CompletingStep(threads: nat, n: nat, t: nat)
    requires threads > 0 && n < 6
    ensures var s, a := Alone(threads, Completing(n, t)), CompletingMove(n, t);
      Enabled(s, 0, a, false) && Next(s, 0, a) == Alone(threads, Completing(n + 1, t))
  {
    var st, st', a := Completing(n, t), Completing(n + 1, t), CompletingMove(n, t);
    forall l | l in Wants(st[|st| - 1]) ensures Free([st], l) {
      forall k | 0 <= k < |st| ensures l !in Holds(st[k]) {}
    }
    assert Next([st], 0, a)[0] == st';
    hide Next, Alone;
    AloneStep(threads, st, a, st', false);
  }

  /** The run of the loop thread up to call `m` of that job. */
  lemma CompletingRun(threads: nat, t: nat, m: nat) returns (states: seq<State>, moves: seq<Move>)
    requires threads > 0 && m <= 6
    ensures IsRun(states, moves, false) && |states[0]| == threads && states[|moves|] == Alone(threads, Completing(m, t))
  {
    states := seq(m + 1, n requires 0 <= n <= m => Alone(threads, Completing(n, t)));
    moves := seq(m, n requires 0 <= n < m => Move(0, CompletingMove(n, t)));
    forall k | 0 <= k < m ensures Enabled(states[k], 0, moves[k].action, false)
      && states[k + 1] == Next(states[k], 0, moves[k].action)
    {
      CompletingStep(threads, k, t);
    }
  }

  /** Some thread of some run holds `a` while it is about to ask for `b`. */
  ghost predicate Nests(threads: nat, a: Lock, b: Lock) {
    exists states, moves, i :: IsRun(states, moves, false) && |states[0]| == threads
      && i in states[|moves|] && HeldWhileAsking(i, a, b)
  }

  ghost predicate HeldWhileAsking(st: Stack, a: Lock, b: Lock) {
    st != [] && HeldBy(st, a) && b in Wants(st[|st| - 1])
  }

  /** The order of the locks is exact: a thread can hold one lock and ask for another if and
      only if the first comes before the second. */
  lemma NestsExactlyWhen(threads: nat, a: Lock, b: Lock)
    requires threads > 0
    ensures Nests(threads, a, b) <==> Rank(a) < Rank(b)
  {
    forall states, moves, st | IsRun(states, moves, false) && st in states[|moves|] && HeldWhileAsking(st, a, b)
      ensures Rank(a) < Rank(b)
    {
      RunNested(states, moves);
      InRankOrder(st, b, a);
    }
    if Rank(a) < Rank(b) {
      var t := match b case Of(t) => t case _ => match a case Of(t) => t case _ => 0;
      var m := if b == Mu then 6 else 4;
      var states, moves := CompletingRun(threads, t, m);
      var st := Completing(m, t);
      assert states[|moves|][0] == st;
      assert HeldBy(st, a) by { assert a in Holds(st[if a == Ev then 1 else 3]); }
      assert HeldWhileAsking(st, a, b);
    }
  }
}
