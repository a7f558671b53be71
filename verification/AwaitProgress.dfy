/** The await protocol left to itself comes to rest, and then every wakeup that is due has
    been given. */
module AwaitProgress {
  import opened Wrappers
  import opened AwaitProtocol

  /** How many statements a thread has at most before it is outside all awaits and completions. */
  function Weight(p: Pc): nat {
    match p
    case Idle => 0
    case Step(_) => 0
    case Run(_, _) => 0
    case AwLock(_, _, _) => 6
    case AwTest(_, _, _) => 5
    case AwReg(_, _, _) => 4
    case AwUnlock(_, _, _, _) => 3
    case AwStore(_, _, _, _) => 2
    case AwRet(_, _, _, _) => 1
    case RetAddr(_, _) => 7
    case RetVal(_, _) => 6
    case CoLock(_) => 5
    case CoSet(_) => 4
    case CoGet(_) => 3
    case CoPush(_, _) => 2
    case CoUnlock(_) => 1
  }

  ghost function Total(m: map<Thread, Pc>): nat
    decreases |m|
  {
    if m == map[] then 0
    else
      var th :| th in m;
      Weight(m[th]) + Total(m - {th})
  }

  /** The sum does not depend on the order of the threads. */
  lemma {:induction false} TotalWithout(m: map<Thread, Pc>, th: Thread)
    requires th in m
    ensures Total(m) == Weight(m[th]) + Total(m - {th})
    decreases |m|
  {
    var k :| k in m && Total(m) == Weight(m[k]) + Total(m - {k});
    if k != th {
      TotalWithout(m - {k}, th);
      TotalWithout(m - {th}, k);
      assert m - {k} - {th} == m - {th} - {k};
    }
  }

  lemma TotalUpdate(m: map<Thread, Pc>, th: Thread, p: Pc)
    ensures Total(m[th := p]) == Weight(p) + Total(m - {th})
  {
    TotalWithout(m[th := p], th);
    assert m[th := p] - {th} == m - {th};
  }

  /** How many statements there still are at most if no thread takes a task from the queue,
      enters one, or begins an await, a return or a completion. */
  ghost function ToDo(st: State): nat { Total(st.pc) }

  ghost predicate Moves(st: State, st': State, th: Thread) {
    th in st.pc && st'.pc == st.pc[th := st'.At(th)] && Weight(st'.At(th)) < Weight(st.At(th))
  }

  lemma AwaitMoves(st: State, th: Thread, w: Setting)
    requires var p := st.At(th); p.AwLock? || p.AwTest? || p.AwReg? || p.AwRet? || p.RetAddr? || p.RetVal?
    ensures Moves(st, Advanced(st, th, w), th)
  {
    hide UnlockAwaited, GetContinuous, PushContinuation, UnlockOwn;
  }

  lemma UnlockMoves(st: State, th: Thread, w: Setting)
    requires st.At(th).AwUnlock? || st.At(th).AwStore?
    ensures Moves(st, Advanced(st, th, w), th)
  {
    hide GetContinuous, PushContinuation, UnlockOwn;
  }

  lemma CompletionMoves(st: State, th: Thread, w: Setting)
    requires var p := st.At(th); p.CoLock? || p.CoSet? || p.CoGet? || p.CoPush? || p.CoUnlock?
    ensures Moves(st, Advanced(st, th, w), th)
  {
    hide UnlockAwaited, Register;
  }

  lemma StepsRunOut(st: State, th: Thread, w: Setting)
    requires CanAdvance(st, th)
    ensures ToDo(Advanced(st, th, w)) < ToDo(st)
  {
    var p := st.At(th);
    if p.AwUnlock? || p.AwStore? {
      UnlockMoves(st, th, w);
    } else if p.CoLock? || p.CoSet? || p.CoGet? || p.CoPush? || p.CoUnlock? {
      CompletionMoves(st, th, w);
    } else {
      AwaitMoves(st, th, w);
    }
    hide Advanced;
    TotalUpdate(st.pc, th, Advanced(st, th, w).At(th));
    TotalWithout(st.pc, th);
  }

  ghost predicate AtRest(st: State) { forall th :: !CanAdvance(st, th) }

  /** Each task that registered with a task that is done has been pushed once for that await,
      unless a later registration has taken its place. */
  ghost predicate AllWoken(st: State) {
    forall t :: t in st.tasks && st.tasks[t].registered && !Overwritten(st, t) ==>
      var s := st.tasks[t].waitsFor;
      s.Some? && s.value in st.tasks && (st.tasks[s.value].done ==> st.tasks[t].woken == 1)
  }

  /** Whoever holds a lock can go on. */
  lemma HolderGoes(st: State, s: TaskId, w: Setting)
    requires Inv(st, w) && s in st.tasks && st.tasks[s].lock.Some?
    ensures CanAdvance(st, st.tasks[s].lock.value)
  {
    assert TaskOk(st, s, w);
  }

  /** When no thread can go on, all threads are outside awaits and completions, no task is
      locked, and no wakeup is due. */
  lemma RestMeansAllWoken(st: State, w: Setting)
    requires Inv(st, w) && AtRest(st)
    ensures AllWoken(st)
    ensures forall s :: s in st.tasks ==> st.tasks[s].lock == None
    ensures forall th :: st.At(th).Idle? || st.At(th).Step? || st.At(th).Run?
  {
    forall s | s in st.tasks ensures st.tasks[s].lock == None { if st.tasks[s].lock.Some? { HolderGoes(st, s, w); } }
    forall th ensures st.At(th).Idle? || st.At(th).Step? || st.At(th).Run? {
      assert PcOk(st, th, w) && !CanAdvance(st, th);
    }
    forall t | t in st.tasks && st.tasks[t].registered && !Overwritten(st, t)
      ensures var s := st.tasks[t].waitsFor;
        s.Some? && s.value in st.tasks && (st.tasks[s.value].done ==> st.tasks[t].woken == 1)
    {
      assert TaskOk(st, t, w);
      AwaitAnswered(st, t, w);
    }
  }

  /** Left to themselves, the threads of any reachable state come to rest within `ToDo`
      statements, whatever their order, and then every wakeup that is due has been given. */
  lemma {:induction false} AllWokenInTheEnd(st: State, states: seq<State>, threads: seq<Thread>, w: Setting)
    requires Inv(st, w) && |states| == |threads| + 1 && states[0] == st
    requires forall k {:trigger threads[k]} :: 0 <= k < |threads| ==>
      Enabled(states[k], threads[k], Advance, w) && states[k + 1] == Next(states[k], threads[k], Advance, w)
    ensures var last := states[|threads|];
      Inv(last, w) && |threads| + ToDo(last) <= ToDo(st) && (AtRest(last) ==> AllWoken(last))
  {
    var n := |threads|;
    if n > 0 {
      AllWokenInTheEnd(st, states[..n], threads[..n - 1], w);
      hide Inv, AtRest, AllWoken, Advanced, CanAdvance, ToDo;
      var th := threads[n - 1];
      assert Enabled(states[n - 1], th, Advance, w);
      NextKeeps(states[n - 1], th, Advance, w);
      StepsRunOut(states[n - 1], th, w);
    }
    if AtRest(states[n]) { RestMeansAllWoken(states[n], w); }
  }
}
