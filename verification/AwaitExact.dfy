/** Runs of the await protocol that go wrong, and when exactly there are such. */
module AwaitExact {
  import opened Wrappers
  import opened AwaitProtocol

  // ----- runs -----

  ghost predicate Reaches(st: State, w: Setting) {
    exists run, acts :: IsRun(run, acts, w) && run[|run| - 1] == st
  }

  lemma ReachNext(st: State, th: Thread, a: Action, w: Setting)
    requires Reaches(st, w) && Enabled(st, th, a, w)
    ensures Reaches(Next(st, th, a, w), w)
  {
    var run, acts :| IsRun(run, acts, w) && run[|run| - 1] == st;
    var run', acts' := run + [Next(st, th, a, w)], acts + [(th, a)];
    forall i | 0 <= i < |acts'|
      ensures Enabled(run'[i], acts'[i].0, acts'[i].1, w) && run'[i + 1] == Next(run'[i], acts'[i].0, acts'[i].1, w)
    {
      if i < |acts| { assert run'[i] == run[i] && run'[i + 1] == run[i + 1] && acts'[i] == acts[i]; }
    }
    assert IsRun(run', acts', w);
  }

  // Task 0 registers on native task 1, releases its lock, and before it stores its
  // resume address the callback completes task 1 and the second worker takes task 0.

  const W0 := Worker(0)
  const W1 := Worker(1)
  const CB := Callback(0)
  const AWAITER := NEW_TASK.(place := Held(W0))
  const STARTED := NEW_TASK.(native := true, armed := true, place := Over)
  const PARKED := NEW_TASK.(waitsFor := Some(1), registered := true, place := Parked(1), expected := Point(1),
    tail := Some(W0))
  const AWAITED := STARTED.(next := Some(0))
  const COMPLETED := AWAITED.(armed := false, result := 7, phase := By(CB), completions := 1,
                              lock := Some(CB), done := true, handed := true, pushes := 1)

  function Both(t0: Task, t1: Task, queue: seq<TaskId>, p0: Pc, p1: Pc, pcb: Pc): State {
    State(map[0 := t0, 1 := t1], queue, map[W0 := p0, W1 := p1, CB := pcb], false)
  }

  lemma ReachTo(st: State, th: Thread, a: Action, st': State, w: Setting)
    requires Reaches(st, w) && Enabled(st, th, a, w) && Next(st, th, a, w) == st'
    ensures Reaches(st', w)
  {
    ReachNext(st, th, a, w);
  }

  lemma StaleRunStart(w: Setting)
    requires w.workers >= 2
    ensures Reaches(Both(NEW_TASK, NEW_TASK.(native := true), [0, 1], Idle, Idle, Idle).(pc := map[]), w)
  {
    assert IsRun([INIT], [], w);
    assert Reaches(INIT, w);
    var s1 := State(map[0 := NEW_TASK], [0], map[], false);
    ReachTo(INIT, CB, Spawn(0, false), s1, w);
    assert NEW_TASK.(native := false) == NEW_TASK;
    ReachTo(s1, CB, Spawn(1, true), Both(NEW_TASK, NEW_TASK.(native := true), [0, 1], Idle, Idle, Idle).(pc := map[]),
      w);
  }

  lemma StaleRunEnter(w: Setting)
    requires w.workers >= 2
    ensures Reaches(Both(AWAITER, STARTED, [], Run(0, 0), Idle, Idle).(pc := map[W0 := Run(0, 0), W1 := Idle]), w)
  {
    StaleRunStart(w);
    var s2 := Both(NEW_TASK, NEW_TASK.(native := true), [0, 1], Idle, Idle, Idle).(pc := map[]);
    var s3 := s2.(tasks := map[0 := AWAITER, 1 := NEW_TASK.(native := true)], queue := [1], pc := map[W0 := Step(0)]);
    ReachTo(s2, W0, Fetch, s3, w);
    var s4 := s3.(pc := map[W0 := Run(0, 0)]);
    ReachTo(s3, W0, Dispatch(false), s4, w);
    var s5 := s4.(tasks := map[0 := AWAITER, 1 := NEW_TASK.(native := true, place := Held(W1))], queue := [],
      pc := map[W0 := Run(0, 0), W1 := Step(1)]);
    ReachTo(s4, W1, Fetch, s5, w);
    var s6 := s5.(tasks := map[0 := AWAITER, 1 := STARTED], pc := map[W0 := Run(0, 0), W1 := Idle]);
    ReachTo(s5, W1, Dispatch(true), s6, w);
  }

  lemma StaleRunAwait(w: Setting)
    requires w.workers >= 2 && !w.fused
    ensures Reaches(Both(AWAITER.(waitsFor := Some(1), expected := Point(1)), STARTED.(lock := Some(W0)), [],
                         Idle, Idle, Idle).(pc := map[W0 := AwReg(0, 1, 0), W1 := Idle]), w)
  {
    StaleRunEnter(w);
    var s6 := Both(AWAITER, STARTED, [], Run(0, 0), Idle, Idle).(pc := map[W0 := Run(0, 0), W1 := Idle]);
    var going := AWAITER.(waitsFor := Some(1), expected := Point(1));
    var target := STARTED;
    var s7 := s6.(tasks := map[0 := going, 1 := target], pc := map[W0 := AwLock(0, 1, 0), W1 := Idle]);
    ReachTo(s6, W0, BeginAwait(1), s7, w);
    var s8 := s7.(tasks := map[0 := going, 1 := target.(lock := Some(W0))],
      pc := map[W0 := AwTest(0, 1, 0), W1 := Idle]);
    ReachTo(s7, W0, Advance, s8, w);
    ReachTo(s8, W0, Advance, s8.(pc := map[W0 := AwReg(0, 1, 0), W1 := Idle]), w);
  }

  lemma StaleRunRegister(w: Setting)
    requires w.workers >= 2 && !w.fused
    ensures Reaches(Both(PARKED, AWAITED, [], Idle, Idle, Idle).(pc := map[W0 := AwStore(0, 1, 0, false), W1 := Idle]),
      w)
  {
    StaleRunAwait(w);
    var going, target := AWAITER.(waitsFor := Some(1), expected := Point(1)), STARTED.(lock := Some(W0));
    var s9 := Both(going, target, [], Idle, Idle, Idle).(pc := map[W0 := AwReg(0, 1, 0), W1 := Idle]);
    var s10 := s9.(tasks := map[0 := PARKED, 1 := AWAITED.(lock := Some(W0))],
      pc := map[W0 := AwUnlock(0, 1, 0, false), W1 := Idle]);
    ReachTo(s9, W0, Advance, s10, w);
    var s11 := s10.(tasks := map[0 := PARKED, 1 := AWAITED], pc := map[W0 := AwStore(0, 1, 0, false), W1 := Idle]);
    ReachTo(s10, W0, Advance, s11, w);
  }

  const BEGUN := AWAITED.(armed := false, result := 7, phase := By(CB), completions := 1)
  const GAP := AwStore(0, 1, 0, false)

  lemma StaleRunBegin(w: Setting)
    requires w.workers >= 2 && !w.fused
    ensures Reaches(Both(PARKED, BEGUN.(lock := Some(CB)), [], GAP, Idle, CoSet(1)), w)
  {
    StaleRunRegister(w);
    var s11 := Both(PARKED, AWAITED, [], Idle, Idle, Idle).(pc := map[W0 := GAP, W1 := Idle]);
    var s12 := Both(PARKED, BEGUN, [], GAP, Idle, CoLock(1));
    ReachTo(s11, CB, BeginComplete(1, 7), s12, w);
    ReachTo(s12, CB, Advance, Both(PARKED, BEGUN.(lock := Some(CB)), [], GAP, Idle, CoSet(1)), w);
  }

  lemma StaleRunSetDone(w: Setting)
    requires w.workers >= 2 && !w.fused
    ensures Reaches(Both(PARKED, BEGUN.(lock := Some(CB), done := true), [], GAP, Idle, CoGet(1)), w)
  {
    StaleRunBegin(w);
    var s13 := Both(PARKED, BEGUN.(lock := Some(CB)), [], GAP, Idle, CoSet(1));
    ReachTo(s13, CB, Advance, Both(PARKED, BEGUN.(lock := Some(CB), done := true), [], GAP, Idle, CoGet(1)), w);
  }

  lemma StaleRunHandOver(w: Setting)
    requires w.workers >= 2 && !w.fused
    ensures Reaches(Both(PARKED.(place := InHand(CB)), COMPLETED.(pushes := 0), [], GAP, Idle, CoPush(1, 0)), w)
  {
    StaleRunSetDone(w);
    var s14 := Both(PARKED, BEGUN.(lock := Some(CB), done := true), [], GAP, Idle, CoGet(1));
    ReachTo(s14, CB, Advance, Both(PARKED.(place := InHand(CB)), COMPLETED.(pushes := 0), [], GAP, Idle, CoPush(1, 0)),
      w);
  }

  lemma StaleRunComplete(w: Setting)
    requires w.workers >= 2 && !w.fused
    ensures Reaches(Both(PARKED.(place := Queued, woken := 1), COMPLETED, [0], GAP, Idle, CoUnlock(1)), w)
  {
    StaleRunHandOver(w);
    var s15 := Both(PARKED.(place := InHand(CB)), COMPLETED.(pushes := 0), [], GAP, Idle, CoPush(1, 0));
    ReachTo(s15, CB, Advance, Both(PARKED.(place := Queued, woken := 1), COMPLETED, [0], GAP, Idle, CoUnlock(1)), w);
  }

  lemma StaleRunFetch(w: Setting)
    requires w.workers >= 2 && !w.fused
    ensures Reaches(Both(PARKED.(place := Held(W1), woken := 1), COMPLETED, [], GAP, Step(0), CoUnlock(1)), w)
  {
    StaleRunComplete(w);
    var s16 := Both(PARKED.(place := Queued, woken := 1), COMPLETED, [0], GAP, Idle, CoUnlock(1));
    var s17 := Both(PARKED.(place := Held(W1), woken := 1), COMPLETED, [], GAP, Step(0), CoUnlock(1));
    ReachTo(s16, W1, Fetch, s17, w);
  }

  /** The second worker enters task 0 at its old address while the first has yet to store the new one. */
  lemma StaleRun(w: Setting)
    requires w.workers >= 2 && !w.fused
    ensures exists st :: Reaches(st, w) && st.stale && Inside(W0, st.At(W0)) == Inside(W1, st.At(W1)) == Some(0)
  {
    StaleRunFetch(w);
    var s17 := Both(PARKED.(place := Held(W1), woken := 1), COMPLETED, [], GAP, Step(0), CoUnlock(1));
    var s18 := s17.(pc := s17.pc[W1 := Run(0, 0)], stale := true);
    ReachTo(s17, W1, Dispatch(false), s18, w);
    assert s18.At(W0) == GAP && s18.At(W1) == Run(0, 0);
  }

  /** A task can be stepped from a stale resume address exactly when there are several
      workers and the two statements are separate, as they are in the code. */
  lemma StaleExactlyWhen(w: Setting)
    ensures (exists st :: Reaches(st, w) && st.stale) <==> !Safe(w)
  {
    if Safe(w) {
      forall st | Reaches(st, w) ensures !st.stale {
        ReachedInv(st, w);
      }
    } else {
      StaleRun(w);
    }
  }

  // ----- which wakeups are lost -----

  /** The step registers a task where `c` is registered. */
  ghost predicate Overwrites(st: State, th: Thread, a: Action, c: TaskId) {
    a.Advance? && st.At(th).AwReg? && st.At(th).s in st.tasks && st.tasks[st.At(th).s].next == Some(c)
  }

  ghost predicate Registers(st: State, th: Thread, a: Action) { a.Advance? && st.At(th).AwReg? }

  /** From `x` to `y` the task to continue stays, and nobody is parked. */
  predicate Calm(x: Task, y: Task) { y.next == x.next && (y.place.Parked? ==> y.place == x.place) }

  ghost predicate AllCalm(m: map<TaskId, Task>, m': map<TaskId, Task>) {
    forall c :: c in m ==> c in m' && Calm(m[c], m'[c])
  }

  lemma SetCalm(m: map<TaskId, Task>, m0: map<TaskId, Task>, k: TaskId, x: Task)
    requires AllCalm(m, m0) && (k in m ==> Calm(m0[k], x))
    ensures AllCalm(m, m0[k := x])
  {
  }

  lemma NothingSet(m: map<TaskId, Task>)
    ensures AllCalm(m, m)
  {
  }

  /** No statement but the registration itself registers or parks a task. */
  lemma AdvanceCalm(st: State, th: Thread, w: Setting)
    requires !st.At(th).AwReg?
    ensures AllCalm(st.tasks, Advanced(st, th, w).tasks)
  {
    var m := st.tasks;
    NothingSet(m);
    hide AllCalm;
    match st.At(th)
    case AwLock(_, s, _) => SetCalm(m, m, s, Get(st, s).(lock := Some(th)));
    case AwTest(t, _, _) => SetCalm(m, m, t, Get(st, t).(saw := true));
    case AwUnlock(t, s, r, b) => UnlockCalm(st, th, t, s, r, b, w);
    case AwStore(t, _, r, _) => SetCalm(m, m, t, Get(st, t).(resume := Point(r + 1), tail := None));
    case RetAddr(t, _) => SetCalm(m, m, t, Get(st, t).(resume := Exit));
    case RetVal(t, v) => SetCalm(m, m, t, Answering(Get(st, t), th, v));
    case CoLock(s) => SetCalm(m, m, s, Get(st, s).(lock := Some(th)));
    case CoSet(s) => SetCalm(m, m, s, Get(st, s).(done := true));
    case CoGet(s) => GetCalm(st, th, s);
    case CoPush(s, c) => PushCalm(st, th, s, c);
    case CoUnlock(s) =>
      var x := Get(st, s).(lock := None, phase := Finished);
      SetCalm(m, m, s, if th.Worker? then x.(place := Over) else x);
    case _ =>
  }

  lemma UnlockCalm(st: State, th: Thread, t: TaskId, s: TaskId, r: nat, b: bool, w: Setting)
    ensures AllCalm(st.tasks, UnlockAwaited(st, th, t, s, r, b, w).tasks)
  {
    var st1 := st.Set(s, Get(st, s).(lock := None));
    NothingSet(st.tasks);
    SetCalm(st.tasks, st.tasks, s, Get(st, s).(lock := None));
    SetCalm(st.tasks, st1.tasks, t, Get(st1, t).(resume := Point(r + 1), tail := None));
  }

  lemma GetCalm(st: State, th: Thread, s: TaskId)
    ensures AllCalm(st.tasks, GetContinuous(st, th, s).tasks)
  {
    var st1 := st.Set(s, Get(st, s).(handed := true));
    NothingSet(st.tasks);
    SetCalm(st.tasks, st.tasks, s, Get(st, s).(handed := true));
    if Get(st, s).next.Some? {
      var c := Get(st, s).next.value;
      SetCalm(st.tasks, st1.tasks, c, Get(st1, c).(place := InHand(th)));
    }
  }

  lemma PushCalm(st: State, th: Thread, s: TaskId, c: TaskId)
    ensures AllCalm(st.tasks, PushContinuation(st, th, s, c).tasks)
  {
    var st1 := st.Set(s, Get(st, s).(pushes := Get(st, s).pushes + 1));
    NothingSet(st.tasks);
    SetCalm(st.tasks, st.tasks, s, Get(st, s).(pushes := Get(st, s).pushes + 1));
    SetCalm(st.tasks, st1.tasks, c, Get(st1, c).(place := Queued, woken := Get(st1, c).woken + 1));
  }

  lemma NextCalm(st: State, th: Thread, a: Action, w: Setting)
    requires Enabled(st, th, a, w) && !Registers(st, th, a)
    ensures AllCalm(st.tasks, Next(st, th, a, w).tasks)
  {
    var m := st.tasks;
    NothingSet(m);
    hide AllCalm;
    match a
    case Spawn(u, native) => SetCalm(m, m, u, NEW_TASK.(native := native));
    case Fetch => SetCalm(m, m, st.queue[0], Get(st, st.queue[0]).(place := Held(th)));
    case Dispatch(arm) =>
      var t := st.At(th).t;
      if Get(st, t).native { SetCalm(m, m, t, Get(st, t).(armed := arm, place := Over)); }
    case BeginAwait(s) => SetCalm(m, m, st.At(th).t, Begun(Get(st, st.At(th).t), s));
    case BeginReturn(_) => SetCalm(m, m, st.At(th).t, Get(st, st.At(th).t).(expected := Exit));
    case BeginComplete(s, v) => SetCalm(m, m, s, Answering(Get(st, s), th, v).(armed := false));
    case Advance => AdvanceCalm(st, th, w);
  }

  /** A completer takes the task registered last from its parking place, and no other. */
  lemma GetLeaves(st: State, th: Thread, s: TaskId, w: Setting, c: TaskId)
    requires Inv(st, w) && st.At(th) == CoGet(s) && c in st.tasks && Overwritten(st, c)
    ensures c in GetContinuous(st, th, s).tasks && GetContinuous(st, th, s).tasks[c].place == st.tasks[c].place
  {
    assert PcOk(st, th, w) && TaskOk(st, s, w);
    hide Inv, PcOk, Settled, AwaitOk;
  }

  /** Whoever completes or has been taken by a completer is not parked. */
  lemma CompletingNotParked(st: State, th: Thread, w: Setting)
    requires PcOk(st, th, w)
    ensures st.At(th).CoPush? ==> st.At(th).c in st.tasks && !st.tasks[st.At(th).c].place.Parked?
    ensures st.At(th).CoUnlock? && th.Worker? ==> st.At(th).s in st.tasks && !st.tasks[st.At(th).s].place.Parked?
    ensures st.At(th).Step? ==> st.At(th).t in st.tasks && !st.tasks[st.At(th).t].place.Parked?
  {
  }

  lemma ParkedAfter(st: State, th: Thread, a: Action, w: Setting, c: TaskId)
    requires Inv(st, w) && Enabled(st, th, a, w) && c in st.tasks && !Registers(st, th, a) && Overwritten(st, c)
    ensures c in Next(st, th, a, w).tasks && Next(st, th, a, w).tasks[c].place == st.tasks[c].place
  {
    assert PcOk(st, th, w);
    CompletingNotParked(st, th, w);
    ParkedStill(st, c, w);
    if a.Advance? {
      if st.At(th).CoGet? { GetLeaves(st, th, st.At(th).s, w, c); } else { AdvanceLeaves(st, th, w, c); }
    } else {
      if a.Fetch? { assert st.queue[0] in st.queue; }
      hide Inv, PcOk, Still, Overwritten;
    }
  }

  lemma AdvanceLeaves(st: State, th: Thread, w: Setting, c: TaskId)
    requires c in st.tasks && st.tasks[c].place.Parked? && !st.At(th).AwReg? && !st.At(th).CoGet?
    requires st.At(th).CoPush? ==> st.At(th).c != c
    requires st.At(th).CoUnlock? && th.Worker? ==> st.At(th).s != c
    ensures c in Advanced(st, th, w).tasks && Advanced(st, th, w).tasks[c].place == st.tasks[c].place
  {
    match st.At(th)
    case AwUnlock(t, s, r, b) => UnlockLeaves(st, th, t, s, r, b, w, c);
    case CoPush(s, d) => PushLeaves(st, th, s, d, c);
    case _ => hide UnlockAwaited, PushContinuation;
  }

  lemma UnlockLeaves(st: State, th: Thread, t: TaskId, s: TaskId, r: nat, b: bool, w: Setting, c: TaskId)
    requires c in st.tasks
    ensures var m := UnlockAwaited(st, th, t, s, r, b, w).tasks; c in m && m[c].place == st.tasks[c].place
  {
  }

  lemma PushLeaves(st: State, th: Thread, s: TaskId, d: TaskId, c: TaskId)
    requires c in st.tasks && c != d
    ensures var m := PushContinuation(st, th, s, d).tasks; c in m && m[c].place == st.tasks[c].place
  {
  }

  lemma RegisteringOverwrites(st: State, th: Thread, w: Setting, c: TaskId)
    requires Inv(st, w) && c in st.tasks && st.At(th).AwReg?
    ensures var st' := Advanced(st, th, w);
      c in st'.tasks && (Overwritten(st', c) <==> Overwritten(st, c) || Overwrites(st, th, Advance, c))
  {
    assert PcOk(st, th, w) && TaskOk(st, c, w);
    var s := st.At(th).s;
    assert TaskOk(st, s, w);
  }

  /** A registration is lost in the step that registers a further task where it stood, in no
      other, and for good: the code's one field for the task to continue holds the last only. */
  lemma OverwrittenExactlyWhen(st: State, th: Thread, a: Action, w: Setting, c: TaskId)
    requires Inv(st, w) && Enabled(st, th, a, w) && c in st.tasks
    ensures c in Next(st, th, a, w).tasks
    ensures Overwritten(Next(st, th, a, w), c) <==> Overwritten(st, c) || Overwrites(st, th, a, c)
  {
    if Registers(st, th, a) {
      RegisteringOverwrites(st, th, w, c);
    } else {
      NextCalm(st, th, a, w);
      if st.tasks[c].place.Parked? { assert TaskOk(st, c, w); }
      if Overwritten(st, c) { ParkedAfter(st, th, a, w, c); }
      hide Next, Enabled, Inv, TaskOk;
    }
  }

  // Tasks 0 and 1 are awaiting task 2, which is not done: the second registration is put
  // where the first was.

  const NATIVE := NEW_TASK.(native := true)
  const ENTERED := NEW_TASK.(place := Held(W0))
  const WAITING := ENTERED.(waitsFor := Some(2), expected := Point(1))
  const WAITS := WAITING.(place := Parked(2), registered := true, resume := Point(1))

  function Three(t0: Task, t1: Task, t2: Task, queue: seq<TaskId>, p: Pc): State {
    State(map[0 := t0, 1 := t1, 2 := t2], queue, map[W0 := p], false)
  }

  lemma OverwriteRunSpawns(w: Setting)
    requires w.workers >= 1
    ensures Reaches(State(map[0 := NEW_TASK, 1 := NEW_TASK, 2 := NATIVE], [0, 1, 2], map[], false), w)
  {
    assert IsRun([INIT], [], w);
    assert Reaches(INIT, w);
    assert NEW_TASK.(native := false) == NEW_TASK;
    var s1 := State(map[0 := NEW_TASK], [0], map[], false);
    ReachTo(INIT, CB, Spawn(0, false), s1, w);
    var s2 := State(map[0 := NEW_TASK, 1 := NEW_TASK], [0, 1], map[], false);
    ReachTo(s1, CB, Spawn(1, false), s2, w);
    var s3 := State(map[0 := NEW_TASK, 1 := NEW_TASK, 2 := NATIVE], [0, 1, 2], map[], false);
    ReachTo(s2, CB, Spawn(2, true), s3, w);
  }

  lemma OverwriteRunStart(w: Setting)
    requires w.workers >= 1
    ensures Reaches(Three(ENTERED, NEW_TASK, NATIVE, [1, 2], Run(0, 0)), w)
  {
    OverwriteRunSpawns(w);
    var s3 := State(map[0 := NEW_TASK, 1 := NEW_TASK, 2 := NATIVE], [0, 1, 2], map[], false);
    var s4 := Three(ENTERED, NEW_TASK, NATIVE, [1, 2], Step(0));
    ReachTo(s3, W0, Fetch, s4, w);
    ReachTo(s4, W0, Dispatch(false), Three(ENTERED, NEW_TASK, NATIVE, [1, 2], Run(0, 0)), w);
  }

  lemma OverwriteRunBegins(w: Setting)
    requires w.workers >= 1
    ensures Reaches(Three(WAITING, NEW_TASK, NATIVE, [1, 2], AwLock(0, 2, 0)), w)
  {
    OverwriteRunStart(w);
    var s5 := Three(ENTERED, NEW_TASK, NATIVE, [1, 2], Run(0, 0));
    ReachTo(s5, W0, BeginAwait(2), Three(WAITING, NEW_TASK, NATIVE, [1, 2], AwLock(0, 2, 0)), w);
  }

  lemma OverwriteRunAwaits(w: Setting)
    requires w.workers >= 1
    ensures Reaches(Three(WAITING, NEW_TASK, NATIVE.(lock := Some(W0)), [1, 2], AwReg(0, 2, 0)), w)
  {
    OverwriteRunBegins(w);
    var s6 := Three(WAITING, NEW_TASK, NATIVE, [1, 2], AwLock(0, 2, 0));
    var s7 := Three(WAITING, NEW_TASK, NATIVE.(lock := Some(W0)), [1, 2], AwTest(0, 2, 0));
    ReachTo(s6, W0, Advance, s7, w);
    ReachTo(s7, W0, Advance, s7.(pc := map[W0 := AwReg(0, 2, 0)]), w);
  }

  lemma OverwriteRunParks(w: Setting)
    requires w.workers >= 1
    ensures Reaches(Three(WAITS.(resume := Point(0), tail := Some(W0)), NEW_TASK,
      NATIVE.(next := Some(0), lock := Some(W0)), [1, 2],
                          AwUnlock(0, 2, 0, false)), w)
  {
    OverwriteRunAwaits(w);
    var s8 := Three(WAITING, NEW_TASK, NATIVE.(lock := Some(W0)), [1, 2], AwReg(0, 2, 0));
    var parked := WAITS.(resume := Point(0), tail := Some(W0));
    var s9 := Three(parked, NEW_TASK, NATIVE.(next := Some(0), lock := Some(W0)), [1, 2], AwUnlock(0, 2, 0, false));
    ReachTo(s8, W0, Advance, s9, w);
  }

  lemma OverwriteRunStores(w: Setting)
    requires w.workers >= 1
    ensures Reaches(Three(WAITS, NEW_TASK, NATIVE.(next := Some(0)), [1, 2], AwRet(0, 2, 0, false)), w)
  {
    OverwriteRunParks(w);
    var parked := WAITS.(resume := Point(0), tail := Some(W0));
    var s9 := Three(parked, NEW_TASK, NATIVE.(next := Some(0), lock := Some(W0)), [1, 2], AwUnlock(0, 2, 0, false));
    var s11 := Three(WAITS, NEW_TASK, NATIVE.(next := Some(0)), [1, 2], AwRet(0, 2, 0, false));
    if w.fused {
      ReachTo(s9, W0, Advance, s11, w);
    } else {
      var s10 := Three(parked, NEW_TASK, NATIVE.(next := Some(0)), [1, 2], AwStore(0, 2, 0, false));
      ReachTo(s9, W0, Advance, s10, w);
      ReachTo(s10, W0, Advance, s11, w);
    }
  }

  lemma OverwriteRunSecond(w: Setting)
    requires w.workers >= 1
    ensures Reaches(Three(WAITS, ENTERED, NATIVE.(next := Some(0)), [2], Run(1, 0)), w)
  {
    OverwriteRunStores(w);
    var s11 := Three(WAITS, NEW_TASK, NATIVE.(next := Some(0)), [1, 2], AwRet(0, 2, 0, false));
    var s12 := s11.(pc := map[W0 := Idle]);
    ReachTo(s11, W0, Advance, s12, w);
    var s13 := Three(WAITS, ENTERED, NATIVE.(next := Some(0)), [2], Step(1));
    ReachTo(s12, W0, Fetch, s13, w);
    ReachTo(s13, W0, Dispatch(false), s13.(pc := map[W0 := Run(1, 0)]), w);
  }

  lemma OverwriteRunAgain(w: Setting)
    requires w.workers >= 1
    ensures Reaches(Three(WAITS, WAITING, NATIVE.(next := Some(0), lock := Some(W0)), [2], AwReg(1, 2, 0)), w)
  {
    OverwriteRunSecond(w);
    var s14 := Three(WAITS, ENTERED, NATIVE.(next := Some(0)), [2], Run(1, 0));
    var s15 := Three(WAITS, WAITING, NATIVE.(next := Some(0)), [2], AwLock(1, 2, 0));
    ReachTo(s14, W0, BeginAwait(2), s15, w);
    var held := NATIVE.(next := Some(0), lock := Some(W0));
    var s16 := Three(WAITS, WAITING, held, [2], AwTest(1, 2, 0));
    ReachTo(s15, W0, Advance, s16, w);
    ReachTo(s16, W0, Advance, Three(WAITS, WAITING, held, [2], AwReg(1, 2, 0)), w);
  }

  /** With any worker at all, two tasks that await a third one that is not done can lose a wakeup. */
  lemma OverwriteRun(w: Setting)
    requires w.workers >= 1
    ensures exists st :: Reaches(st, w) && 0 in st.tasks && Overwritten(st, 0)
  {
    OverwriteRunAgain(w);
    var held := NATIVE.(next := Some(0), lock := Some(W0));
    var s17 := Three(WAITS, WAITING, held, [2], AwReg(1, 2, 0));
    var parked := WAITS.(resume := Point(0), tail := Some(W0));
    var s18 := Three(WAITS, parked, held.(next := Some(1)), [2], AwUnlock(1, 2, 0, false));
    ReachTo(s17, W0, Advance, s18, w);
    assert Overwritten(s18, 0);
  }

  // ----- who is inside StepNext -----

  /** The task whose StepNext the thread is in with a write to the task still to come. */
  function Inside(th: Thread, p: Pc): Option<TaskId> {
    if p.Step? || p.AwRet? then None
    else if Token(th, p).Some? then Token(th, p)
    else Tail(p)
  }

  /** Two threads are inside the StepNext of one task. */
  ghost predicate InsideTwice(st: State) {
    exists a, b :: a != b && Inside(a, st.At(a)).Some? && Inside(a, st.At(a)) == Inside(b, st.At(b))
  }

  lemma InsideAlone(st: State, a: Thread, b: Thread, t: TaskId, w: Setting)
    requires Inv(st, w) && Safe(w) && Inside(a, st.At(a)) == Inside(b, st.At(b)) == Some(t)
    ensures a == b
  {
    assert PcOk(st, a, w) && PcOk(st, b, w);
    assert TaskOk(st, t, w);
  }

  /** Two threads can be inside the StepNext of one task at the same time if and only if there
      are several workers and the two statements are separate, as they are in the code. */
  lemma SingleRunnerExactlyWhen(w: Setting)
    ensures (forall st :: Reaches(st, w) ==> !InsideTwice(st)) <==> Safe(w)
  {
    if Safe(w) {
      forall st | Reaches(st, w) ensures !InsideTwice(st) {
        ReachedInv(st, w);
        forall a, b | Inside(a, st.At(a)).Some? && Inside(a, st.At(a)) == Inside(b, st.At(b)) ensures a == b {
          InsideAlone(st, a, b, Inside(a, st.At(a)).value, w);
        }
      }
    } else {
      StaleRun(w);
      var st :| Reaches(st, w) && st.stale && Inside(W0, st.At(W0)) == Inside(W1, st.At(W1)) == Some(0);
      assert InsideTwice(st);
    }
  }

  lemma ReachedInv(st: State, w: Setting)
    requires Reaches(st, w)
    ensures Inv(st, w)
  {
    var run, acts :| IsRun(run, acts, w) && run[|run| - 1] == st;
    Reached(run, acts, w, |run| - 1);
  }
}
