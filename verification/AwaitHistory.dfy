/** What a run of the await protocol shows by its actions: which values tasks returned, which
    awaits they began and how often they were queued. */
module AwaitHistory {
  import opened Wrappers
  import opened AwaitProtocol
  import AwaitExact

  type Acts = seq<(Thread, Action)>

  /** Thread `th` is in the code of task `t`. */
  predicate IsIn(st: State, th: Thread, t: TaskId) { st.At(th).Run? && st.At(th).t == t }

  /** Step `k` begins the return of `v` from task `t`, or its completion with `v`. */
  predicate Returns(run: seq<State>, acts: Acts, k: nat, t: TaskId, v: int)
    requires k < |acts| < |run|
  {
    acts[k].1 == BeginComplete(t, v) || (acts[k].1 == BeginReturn(v) && IsIn(run[k], acts[k].0, t))
  }

  predicate BeginsAwait(run: seq<State>, acts: Acts, k: nat, t: TaskId)
    requires k < |acts| < |run|
  {
    acts[k].1.BeginAwait? && IsIn(run[k], acts[k].0, t)
  }

  /** How many awaits task `t` has begun in the first `n` steps. */
  function Awaits(run: seq<State>, acts: Acts, n: nat, t: TaskId): nat
    requires n <= |acts| < |run|
  {
    if n == 0 then 0 else Awaits(run, acts, n - 1, t) + if BeginsAwait(run, acts, n - 1, t) then 1 else 0
  }

  /** The task that `t` has begun to await last. */
  function LastAwaited(run: seq<State>, acts: Acts, n: nat, t: TaskId): Option<TaskId>
    requires n <= |acts| < |run|
  {
    if n == 0 then None
    else if BeginsAwait(run, acts, n - 1, t) then Some(acts[n - 1].1.s)
    else LastAwaited(run, acts, n - 1, t)
  }

  /** How often task `t` has been put at the end of the queue since it began its last await. */
  function Queueings(run: seq<State>, acts: Acts, n: nat, t: TaskId): nat
    requires n <= |acts| < |run|
  {
    if n == 0 || BeginsAwait(run, acts, n - 1, t) then 0
    else Queueings(run, acts, n - 1, t)
         + if t in run[n - 1].tasks && run[n].queue == run[n - 1].queue + [t] then 1 else 0
  }

  // ----- what steps leave alone -----

  predicate Kept(x: Task, y: Task) {
    && y.native == x.native && y.result == x.result && (y.phase.NotYet? <==> x.phase.NotYet?)
    && y.expected == x.expected && y.waitsFor == x.waitsFor && y.woken == x.woken
  }

  predicate KeptAt(m: map<TaskId, Task>, m': map<TaskId, Task>, t: TaskId) {
    t in m ==> t in m' && Kept(m[t], m'[t])
  }

  lemma SetKept(m: map<TaskId, Task>, m0: map<TaskId, Task>, k: TaskId, x: Task, t: TaskId)
    requires KeptAt(m, m0, t) && (k == t && k in m0 ==> Kept(m0[k], x))
    ensures KeptAt(m, m0[k := x], t)
  {
  }

  /** The step gives task `t` a result, an await, a return or a wakeup. */
  predicate Writes(st: State, th: Thread, a: Action, t: TaskId) {
    match a
    case BeginAwait(_) => IsIn(st, th, t)
    case BeginReturn(_) => IsIn(st, th, t)
    case BeginComplete(s, _) => s == t
    case Advance => (st.At(th).RetVal? && st.At(th).t == t) || (st.At(th).CoPush? && st.At(th).c == t)
    case _ => false
  }

  lemma AdvanceKept(st: State, th: Thread, w: Setting, t: TaskId)
    requires PcOk(st, th, w) && !Writes(st, th, Advance, t)
    ensures KeptAt(st.tasks, Advanced(st, th, w).tasks, t)
  {
    var m := st.tasks;
    match st.At(th)
    case AwLock(_, s, _) => SetKept(m, m, s, Get(st, s).(lock := Some(th)), t);
    case AwTest(u, _, _) => SetKept(m, m, u, Get(st, u).(saw := true), t);
    case AwReg(u, s, _) => RegisterKept(st, th, u, s, t);
    case AwUnlock(u, s, r, _) => UnlockKept(st, u, s, r, t);
    case AwStore(u, _, r, _) => SetKept(m, m, u, Get(st, u).(resume := Point(r + 1), tail := None), t);
    case RetAddr(u, _) => SetKept(m, m, u, Get(st, u).(resume := Exit), t);
    case RetVal(u, v) => SetKept(m, m, u, Answering(Get(st, u), th, v), t);
    case CoLock(s) => SetKept(m, m, s, Get(st, s).(lock := Some(th)), t);
    case CoSet(s) => SetKept(m, m, s, Get(st, s).(done := true), t);
    case CoGet(s) => GetKept(st, th, s, t);
    case CoPush(s, c) => PushKept(st, th, s, c, t);
    case CoUnlock(s) =>
      var x := Get(st, s).(lock := None, phase := Finished);
      SetKept(m, m, s, if th.Worker? then x.(place := Over) else x, t);
    case _ =>
  }

  lemma RegisterKept(st: State, th: Thread, u: TaskId, s: TaskId, t: TaskId)
    ensures forall r :: KeptAt(st.tasks, Register(st, th, u, s, r).tasks, t)
  {
    var x := Get(st, s).(next := Some(u));
    var st1 := st.Set(s, x);
    SetKept(st.tasks, st.tasks, s, x, t);
    SetKept(st.tasks, st1.tasks, u, Get(st1, u).(place := Parked(s), tail := Some(th), registered := true), t);
  }

  lemma UnlockKept(st: State, u: TaskId, s: TaskId, r: nat, t: TaskId)
    ensures forall th, b, w :: KeptAt(st.tasks, UnlockAwaited(st, th, u, s, r, b, w).tasks, t)
  {
    var st1 := st.Set(s, Get(st, s).(lock := None));
    SetKept(st.tasks, st.tasks, s, Get(st, s).(lock := None), t);
    SetKept(st.tasks, st1.tasks, u, Get(st1, u).(resume := Point(r + 1), tail := None), t);
  }

  lemma GetKept(st: State, th: Thread, s: TaskId, t: TaskId)
    ensures KeptAt(st.tasks, GetContinuous(st, th, s).tasks, t)
  {
    var st1 := st.Set(s, Get(st, s).(handed := true));
    SetKept(st.tasks, st.tasks, s, Get(st, s).(handed := true), t);
    if Get(st, s).next.Some? {
      var c := Get(st, s).next.value;
      SetKept(st.tasks, st1.tasks, c, Get(st1, c).(place := InHand(th)), t);
    }
  }

  lemma PushKept(st: State, th: Thread, s: TaskId, c: TaskId, t: TaskId)
    requires c != t
    ensures KeptAt(st.tasks, PushContinuation(st, th, s, c).tasks, t)
  {
    var st1 := st.Set(s, Get(st, s).(pushes := Get(st, s).pushes + 1));
    SetKept(st.tasks, st.tasks, s, Get(st, s).(pushes := Get(st, s).pushes + 1), t);
    SetKept(st.tasks, st1.tasks, c, Get(st1, c).(place := Queued, woken := Get(st1, c).woken + 1), t);
  }

  lemma NextKept(st: State, th: Thread, a: Action, w: Setting, t: TaskId)
    requires Inv(st, w) && Enabled(st, th, a, w) && !Writes(st, th, a, t)
    ensures KeptAt(st.tasks, Next(st, th, a, w).tasks, t)
  {
    var m := st.tasks;
    assert PcOk(st, th, w);
    hide Inv, PcOk;
    match a
    case Spawn(u, native) => SetKept(m, m, u, NEW_TASK.(native := native), t);
    case Fetch => SetKept(m, m, st.queue[0], Get(st, st.queue[0]).(place := Held(th)), t);
    case Dispatch(arm) =>
      var u := st.At(th).t;
      if Get(st, u).native { SetKept(m, m, u, Get(st, u).(armed := arm, place := Over), t); }
    case BeginAwait(s) => SetKept(m, m, st.At(th).t, Begun(Get(st, st.At(th).t), s), t);
    case BeginReturn(_) => SetKept(m, m, st.At(th).t, Get(st, st.At(th).t).(expected := Exit), t);
    case BeginComplete(s, v) => SetKept(m, m, s, Answering(Get(st, s), th, v).(armed := false), t);
    case Advance => AdvanceKept(st, th, w, t);
  }
  /** What the steps that touch task `t` do to it. */
  lemma TouchedTask(st: State, th: Thread, a: Action, w: Setting, t: TaskId)
    requires Inv(st, w) && Enabled(st, th, a, w) && Writes(st, th, a, t)
    ensures t in st.tasks && t in Next(st, th, a, w).tasks
    ensures var x, y := st.tasks[t], Next(st, th, a, w).tasks[t];
      match a
      case BeginAwait(s) => y == Begun(x, s)
      case BeginReturn(_) => y == x.(expected := Exit)
      case BeginComplete(_, v) => y == Answering(x, th, v).(armed := false)
      case _ =>
        if st.At(th).RetVal? then y == Answering(x, th, st.At(th).v)
        else y.woken == x.woken + 1 && Kept(x, y.(woken := x.woken))
  {
    assert PcOk(st, th, w);
    hide Inv;
  }

  /** A task that is there already joins the queue when a completer pushes it. */
  lemma JoinsQueue(st: State, th: Thread, a: Action, w: Setting, t: TaskId)
    requires Inv(st, w) && Enabled(st, th, a, w) && t in st.tasks
    ensures Next(st, th, a, w).queue == st.queue + [t] <==> a.Advance? && st.At(th).CoPush? && st.At(th).c == t
  {
    hide Inv;
    var q := Next(st, th, a, w).queue;
    if a.Spawn? { assert q[|st.queue|] == a.u; }
    if a.Advance? && st.At(th).CoPush? { assert q[|st.queue|] == st.At(th).c; }
  }

  /** The record of a task tells what the actions of the run have done with it. */
  ghost predicate Tells(run: seq<State>, acts: Acts, n: nat, t: TaskId)
    requires n <= |acts| < |run|
  {
    if t !in run[n].tasks then
      Awaits(run, acts, n, t) == 0 && LastAwaited(run, acts, n, t) == None && Queueings(run, acts, n, t) == 0
    else
      var x := run[n].tasks[t];
      && (x.expected.Point? ==> x.expected == Point(Awaits(run, acts, n, t)))
      && x.waitsFor == LastAwaited(run, acts, n, t) && x.woken == Queueings(run, acts, n, t)
  }

  lemma {:induction false} RecordTells(run: seq<State>, acts: Acts, w: Setting, n: nat, t: TaskId)
    requires IsRun(run, acts, w) && n <= |acts|
    ensures Tells(run, acts, n, t)
  {
    if n > 0 {
      RecordTells(run, acts, w, n - 1, t);
      Reached(run, acts, w, n - 1);
      hide IsRun;
      NextTells(run, acts, w, n - 1, t);
    }
  }

  lemma NextTells(run: seq<State>, acts: Acts, w: Setting, n: nat, t: TaskId)
    requires n < |acts| < |run| && Tells(run, acts, n, t) && Inv(run[n], w)
    requires Enabled(run[n], acts[n].0, acts[n].1, w) && run[n + 1] == Next(run[n], acts[n].0, acts[n].1, w)
    ensures Tells(run, acts, n + 1, t)
  {
    var st, th, a := run[n], acts[n].0, acts[n].1;
    if Writes(st, th, a, t) {
      TouchedTask(st, th, a, w, t);
    } else {
      NextKept(st, th, a, w, t);
    }
    if t in st.tasks {
      JoinsQueue(st, th, a, w, t);
    } else if t in run[n + 1].tasks {
      NewTask(st, th, a, w, t);
    }
    hide Inv, Enabled, Next, KeptAt;
  }

  /** Tasks come into being by Spawn, as new ones. */
  lemma NewTask(st: State, th: Thread, a: Action, w: Setting, t: TaskId)
    requires Inv(st, w) && Enabled(st, th, a, w) && t !in st.tasks && t in Next(st, th, a, w).tasks
    ensures Next(st, th, a, w).tasks[t] == NEW_TASK.(native := Next(st, th, a, w).tasks[t].native)
    ensures forall u :: !IsIn(st, u, t)
  {
    forall u ensures !IsIn(st, u, t) { assert PcOk(st, u, w); }
    if a.Advance? {
      AdvanceNoNew(st, th, w, t);
    } else {
      assert PcOk(st, th, w);
      assert QueueOk(st);
      hide Inv, PcOk;
    }
  }

  lemma AdvanceNoNew(st: State, th: Thread, w: Setting, t: TaskId)
    requires Inv(st, w) && t !in st.tasks
    ensures t !in Advanced(st, th, w).tasks
  {
    InTasks(st, th, w);
    if st.At(th).CoGet? { assert TaskOk(st, st.At(th).s, w); }
    hide Inv;
  }
  // ----- results -----

  /** Task `t` has `v` for its result, or is in the middle of returning it. */
  ghost predicate Carries(st: State, t: TaskId, v: int) {
    && t in st.tasks
    && if st.tasks[t].phase.NotYet? then exists th :: Returning(st.At(th), t, v)
       else st.tasks[t].result == v
  }

  predicate Returning(p: Pc, t: TaskId, v: int) { p == RetAddr(t, v) || p == RetVal(t, v) }

  lemma ReturnStarts(st: State, th: Thread, a: Action, w: Setting, t: TaskId, v: int)
    requires Inv(st, w) && Enabled(st, th, a, w)
    requires a == BeginComplete(t, v) || (a == BeginReturn(v) && IsIn(st, th, t))
    ensures Carries(Next(st, th, a, w), t, v)
  {
    var st' := Next(st, th, a, w);
    TouchedTask(st, th, a, w, t);
    if a.BeginReturn? {
      assert Returning(st'.At(th), t, v);
      assert PcOk(st, th, w) && TaskOk(st, t, w);
    }
  }

  /** While a thread returns from a task no other thread gives the task anything. */
  lemma ReturningAlone(st: State, th: Thread, a: Action, w: Setting, t: TaskId, v: int, h: Thread)
    requires Inv(st, w) && Enabled(st, th, a, w) && t in st.tasks && Returning(st.At(h), t, v) && h != th
    ensures !Writes(st, th, a, t)
  {
    assert PcOk(st, h, w) && PcOk(st, th, w) && TaskOk(st, t, w);
    hide Inv;
  }

  lemma ReturnGoesOn(st: State, th: Thread, a: Action, w: Setting, t: TaskId, v: int)
    requires Inv(st, w) && Enabled(st, th, a, w) && t in st.tasks && Returning(st.At(th), t, v)
    ensures Carries(Next(st, th, a, w), t, v)
  {
    assert PcOk(st, th, w);
    hide Inv;
    var st' := Next(st, th, a, w);
    assert a == Advance;
    if st.At(th).RetAddr? { assert Returning(st'.At(th), t, v); }
  }

  /** A task that has a result keeps it. */
  lemma ResultFixed(st: State, th: Thread, a: Action, w: Setting, t: TaskId)
    requires Inv(st, w) && Enabled(st, th, a, w) && t in st.tasks && !st.tasks[t].phase.NotYet?
    ensures var st' := Next(st, th, a, w);
      t in st'.tasks && !st'.tasks[t].phase.NotYet? && st'.tasks[t].result == st.tasks[t].result
  {
    if Writes(st, th, a, t) {
      TouchedTask(st, th, a, w, t);
      assert TaskOk(st, t, w) && PcOk(st, th, w);
      hide Inv;
    } else {
      NextKept(st, th, a, w, t);
      hide Inv, Next;
    }
  }

  /** Once a task is returning no other step gives it a result. */
  lemma NextCarries(st: State, th: Thread, a: Action, w: Setting, t: TaskId, v: int)
    requires Inv(st, w) && Enabled(st, th, a, w) && Carries(st, t, v)
    ensures Carries(Next(st, th, a, w), t, v)
  {
    var st' := Next(st, th, a, w);
    if !st.tasks[t].phase.NotYet? {
      ResultFixed(st, th, a, w, t);
    } else {
      var h :| Returning(st.At(h), t, v);
      if h == th {
        ReturnGoesOn(st, th, a, w, t, v);
      } else {
        ReturningAlone(st, th, a, w, t, v, h);
        NextKept(st, th, a, w, t);
        OthersStay(st, th, a, w, h);
        hide Inv, Enabled, Next, Writes;
        assert Returning(st'.At(h), t, v);
      }
    }
  }

  lemma OthersStay(st: State, th: Thread, a: Action, w: Setting, h: Thread)
    requires Enabled(st, th, a, w) && h != th
    ensures Next(st, th, a, w).At(h) == st.At(h)
  {
    hide Get, Enabled;
    if a.Advance? { AdvanceOthers(st, th, w, h); }
    hide Advanced;
  }

  lemma AdvanceOthers(st: State, th: Thread, w: Setting, h: Thread)
    requires h != th
    ensures Advanced(st, th, w).At(h) == st.At(h)
  {
    hide Get;
  }

  /** What a task was returned with, or a native one completed with, is its result in every
      later state in which it is done. */
  lemma ResultIsReturned(run: seq<State>, acts: Acts, w: Setting, k: nat, t: TaskId, v: int, j: nat)
    requires IsRun(run, acts, w) && k < j <= |acts| && Returns(run, acts, k, t, v)
    ensures Carries(run[j], t, v) && (run[j].tasks[t].done ==> run[j].tasks[t].result == v)
    decreases j
  {
    Reached(run, acts, w, j - 1);
    Reached(run, acts, w, j);
    var st, th, a := run[j - 1], acts[j - 1].0, acts[j - 1].1;
    if j == k + 1 {
      ReturnStarts(st, th, a, w, t, v);
    } else {
      ResultIsReturned(run, acts, w, k, t, v, j - 1);
      NextCarries(st, th, a, w, t, v);
    }
    if run[j].tasks[t].done { DoneCarries(run[j], w, t, v); }
  }

  lemma DoneCarries(st: State, w: Setting, t: TaskId, v: int)
    requires Inv(st, w) && Carries(st, t, v) && st.tasks[t].done
    ensures st.tasks[t].result == v
  {
    assert TaskOk(st, t, w);
  }

  /** Some step before `n` returned `v` from task `t`, or completed it with `v`. */
  ghost predicate Returned(run: seq<State>, acts: Acts, n: nat, t: TaskId, v: int)
    requires n <= |acts| < |run|
  {
    exists k: nat :: k < n && Returns(run, acts, k, t, v)
  }

  /** Results and returns under way come from the actions of the run. */
  ghost predicate FromReturns(run: seq<State>, acts: Acts, n: nat)
    requires n <= |acts| < |run|
  {
    && (forall t :: t in run[n].tasks && !run[n].tasks[t].phase.NotYet? ==>
         Returned(run, acts, n, t, run[n].tasks[t].result))
    && (forall th, t: TaskId, v: int :: Returning(run[n].At(th), t, v) ==> Returned(run, acts, n, t, v))
  }
  lemma ReturnedLater(run: seq<State>, acts: Acts, n: nat, t: TaskId, v: int)
    requires n < |acts| < |run| && (Returned(run, acts, n, t, v) || Returns(run, acts, n, t, v))
    ensures Returned(run, acts, n + 1, t, v)
  {
  }

  /** A thread that is returning was returning the same before, or begins to now. */
  lemma ReturningFrom(st: State, th: Thread, a: Action, w: Setting, t: TaskId, v: int)
    requires Enabled(st, th, a, w) && Returning(Next(st, th, a, w).At(th), t, v)
    ensures Returning(st.At(th), t, v) || (a == BeginReturn(v) && IsIn(st, th, t))
  {
    hide Get;
  }

  lemma NextResult(run: seq<State>, acts: Acts, w: Setting, n: nat, t: TaskId)
    requires n < |acts| < |run| && FromReturns(run, acts, n) && Inv(run[n], w)
    requires Enabled(run[n], acts[n].0, acts[n].1, w) && run[n + 1] == Next(run[n], acts[n].0, acts[n].1, w)
    requires t in run[n + 1].tasks && !run[n + 1].tasks[t].phase.NotYet?
    ensures Returned(run, acts, n + 1, t, run[n + 1].tasks[t].result)
  {
    var st, th, a := run[n], acts[n].0, acts[n].1;
    if t !in st.tasks { NewTask(st, th, a, w, t); }
    var v := run[n + 1].tasks[t].result;
    if !st.tasks[t].phase.NotYet? {
      ResultFixed(st, th, a, w, t);
    } else if Writes(st, th, a, t) {
      TouchedTask(st, th, a, w, t);
      hide Inv, Enabled, Next;
      if a.Advance? { assert Returning(st.At(th), t, v); }
    } else {
      NextKept(st, th, a, w, t);
    }
    hide *;
    ReturnedLater(run, acts, n, t, v);
  }

  lemma NextReturning(run: seq<State>, acts: Acts, w: Setting, n: nat, h: Thread, t: TaskId, v: int)
    requires n < |acts| < |run| && FromReturns(run, acts, n)
    requires Enabled(run[n], acts[n].0, acts[n].1, w) && run[n + 1] == Next(run[n], acts[n].0, acts[n].1, w)
    requires Returning(run[n + 1].At(h), t, v)
    ensures Returned(run, acts, n + 1, t, v)
  {
    var st, th, a := run[n], acts[n].0, acts[n].1;
    if h == th { ReturningFrom(st, th, a, w, t, v); } else { OthersStay(st, th, a, w, h); }
    hide Next, Enabled;
    ReturnedLater(run, acts, n, t, v);
  }

  lemma {:induction false} ComeFromReturns(run: seq<State>, acts: Acts, w: Setting, n: nat)
    requires IsRun(run, acts, w) && n <= |acts|
    ensures FromReturns(run, acts, n)
  {
    if n > 0 {
      ComeFromReturns(run, acts, w, n - 1);
      Reached(run, acts, w, n - 1);
      assert Enabled(run[n - 1], acts[n - 1].0, acts[n - 1].1, w)
        && run[n] == Next(run[n - 1], acts[n - 1].0, acts[n - 1].1, w);
      hide IsRun, Enabled, Next, Inv, Returned, Returning;
      forall t | t in run[n].tasks && !run[n].tasks[t].phase.NotYet?
        ensures Returned(run, acts, n, t, run[n].tasks[t].result)
      {
        NextResult(run, acts, w, n - 1, t);
      }
      forall th, t: TaskId, v: int | Returning(run[n].At(th), t, v) ensures Returned(run, acts, n, t, v) {
        NextReturning(run, acts, w, n - 1, th, t, v);
      }
    }
  }

  /** A task is done only after it has been returned from, or completed, and its result is
      the value it was returned with. */
  lemma DoneMeansReturned(run: seq<State>, acts: Acts, w: Setting, n: nat, t: TaskId)
    requires IsRun(run, acts, w) && n <= |acts| && t in run[n].tasks && run[n].tasks[t].done
    ensures Returned(run, acts, n, t, run[n].tasks[t].result)
    ensures forall v :: Returned(run, acts, n, t, v) ==> v == run[n].tasks[t].result
  {
    Reached(run, acts, w, n);
    ComeFromReturns(run, acts, w, n);
    assert TaskOk(run[n], t, w);
    forall v | Returned(run, acts, n, t, v) ensures v == run[n].tasks[t].result {
      var k: nat :| k < n && Returns(run, acts, k, t, v);
      ResultIsReturned(run, acts, w, k, t, v, n);
    }
  }

  // ----- the main results -----

  /** A step that enters a compiled task finds the task it awaited last done, with the value
      in its result field that it was returned or completed with. The task goes on after
      some await of its own, and in a safe setting after as many as it has begun. */
  lemma ResumesWithResult(run: seq<State>, acts: Acts, w: Setting, i: nat)
    requires IsRun(run, acts, w) && i < |acts| && acts[i].1.Dispatch?
    requires !run[i].tasks[run[i].At(acts[i].0).t].native
    ensures var t, th := run[i].At(acts[i].0).t, acts[i].0;
      && IsIn(run[i + 1], th, t)
      && (Safe(w) ==> run[i + 1].At(th).r == Awaits(run, acts, i, t))
      && match LastAwaited(run, acts, i, t)
         case None => true
         case Some(s) =>
           && s in run[i].tasks && run[i].tasks[s].done && Returned(run, acts, i, s, run[i].tasks[s].result)
           && forall v :: Returned(run, acts, i, s, v) ==> v == run[i].tasks[s].result
  {
    var st, th, t := run[i], acts[i].0, run[i].At(acts[i].0).t;
    Reached(run, acts, w, i);
    RecordTells(run, acts, w, i, t);
    assert PcOk(st, th, w);
    EnterRight(st, th, t, w);
    hide Inv, PcOk, Returned, Awaits, LastAwaited, Queueings;
    if st.tasks[t].waitsFor.Some? { DoneMeansReturned(run, acts, w, i, st.tasks[t].waitsFor.value); }
  }

  /** Step `i` enters a compiled task elsewhere than after the last await it has begun. */
  ghost predicate GoesOnWrong(run: seq<State>, acts: Acts, i: nat)
    requires i < |acts| < |run|
  {
    var th := acts[i].0;
    && acts[i].1.Dispatch? && run[i].At(th).Step? && run[i].At(th).t in run[i].tasks
    && !run[i].tasks[run[i].At(th).t].native
    && run[i + 1].At(th) != Run(run[i].At(th).t, Awaits(run, acts, i, run[i].At(th).t))
  }

  /** A task is queued once at most for each of its awaits: never for an await that saw the
      other task done, and for one that registered as often as its record says. */
  lemma QueuedOnce(run: seq<State>, acts: Acts, w: Setting, n: nat, t: TaskId)
    requires IsRun(run, acts, w) && n <= |acts| && t in run[n].tasks
    ensures run[n].tasks[t].woken == Queueings(run, acts, n, t) <= 1
    ensures run[n].tasks[t].waitsFor == LastAwaited(run, acts, n, t)
  {
    Reached(run, acts, w, n);
    RecordTells(run, acts, w, n, t);
    assert TaskOk(run[n], t, w);
  }
  ghost predicate WrongBefore(run: seq<State>, acts: Acts, n: nat)
    requires n <= |acts| < |run|
  {
    exists i: nat :: i < n && GoesOnWrong(run, acts, i)
  }

  lemma WrongNext(run: seq<State>, acts: Acts, n: nat)
    requires n < |acts| < |run|
    ensures WrongBefore(run, acts, n + 1) <==> WrongBefore(run, acts, n) || GoesOnWrong(run, acts, n)
  {
    hide GoesOnWrong;
  }

  /** The mark for a stale step is set by the steps that go on in the wrong place. */
  lemma {:induction false} StaleTells(run: seq<State>, acts: Acts, w: Setting, n: nat)
    requires IsRun(run, acts, w) && n <= |acts|
    ensures run[n].stale <==> WrongBefore(run, acts, n)
  {
    if n > 0 {
      StaleTells(run, acts, w, n - 1);
      StaleGrows(run, acts, w, n - 1);
      WrongNext(run, acts, n - 1);
    }
  }

  lemma StaleGrows(run: seq<State>, acts: Acts, w: Setting, i: nat)
    requires IsRun(run, acts, w) && i < |acts|
    ensures run[i + 1].stale <==> run[i].stale || GoesOnWrong(run, acts, i)
  {
    var st, th, a := run[i], acts[i].0, acts[i].1;
    Reached(run, acts, w, i);
    assert Enabled(st, th, a, w) && run[i + 1] == Next(st, th, a, w);
    StaleStep(st, th, a, w);
    if a.Dispatch? { RecordTells(run, acts, w, i, st.At(th).t); }
    hide IsRun, Awaits, LastAwaited, Queueings, Inv, Next;
  }

  lemma StaleStep(st: State, th: Thread, a: Action, w: Setting)
    requires Inv(st, w) && Enabled(st, th, a, w)
    ensures !a.Dispatch? ==> Next(st, th, a, w).stale == st.stale
    ensures a.Dispatch? ==> st.At(th).t in st.tasks
    ensures a.Dispatch? && st.tasks[st.At(th).t].native ==> Next(st, th, a, w).stale == st.stale
    ensures a.Dispatch? && !st.tasks[st.At(th).t].native ==>
      var t, st' := st.At(th).t, Next(st, th, a, w);
      var x := st.tasks[t];
      && x.resume.Point? && x.expected.Point? && st'.At(th) == Run(t, x.resume.n)
      && st'.stale == (st.stale || x.resume != x.expected)
  {
    assert PcOk(st, th, w);
    hide Inv;
  }

  /** A task can go on elsewhere than after the last await it has begun exactly when there
      are several workers and unlocking and storing the address are two steps. */
  lemma GoesOnWrongExactlyWhen(w: Setting)
    ensures (exists run, acts, i: nat :: IsRun(run, acts, w) && i < |acts| && GoesOnWrong(run, acts, i)) <==> !Safe(w)
  {
    AwaitExact.StaleExactlyWhen(w);
    if st :| AwaitExact.Reaches(st, w) && st.stale {
      var run, acts :| IsRun(run, acts, w) && run[|run| - 1] == st;
      StaleTells(run, acts, w, |acts|);
    }
    forall run, acts, i: nat | IsRun(run, acts, w) && i < |acts| && GoesOnWrong(run, acts, i) ensures !Safe(w) {
      StaleTells(run, acts, w, |acts|);
      assert AwaitExact.Reaches(run[|run| - 1], w);
    }
  }
}
