/** Jobs for the event loop: a list under a mutex, and wakeups of the loop that coalesce. */
module EventQueue {
  import opened Wrappers

  type Job = nat

  /** Where a thread is. Thread 0 is the loop's; it drains the list, and outside the
      callback it may queue jobs like any other thread. */
  datatype Pc =
    | Out
    | SendLock(f: Job)      // QueueEvJob: evmu.Lock()
    | SendPush(f: Job)      // evlist.Push(f)
    | SendUnlock            // evmu.UnLock()
    | SendAsync             // uv_async_send
    | DrainLock             // the callback: evmu.Lock()
    | DrainTest             // evlist.Len()>0 ?
    | DrainShift            // f := evlist.Shift()
    | DrainRun(f: Job)      // f()
    | DrainUnlock           // evmu.UnLock()

  /** `pending`: the loop has been sent a wakeup and has not answered it yet. */
  datatype State = State(mu: Option<nat>, list: seq<Job>, pending: bool, pcs: seq<Pc>)

  datatype Action = Send(f: Job) | Step

  predicate Holds(p: Pc) {
    p.SendPush? || p.SendUnlock? || p.DrainTest? || p.DrainShift? || p.DrainRun? || p.DrainUnlock?
  }

  predicate Enabled(s: State, i: nat, a: Action) {
    i < |s.pcs| &&
    match a
    case Send(_) => s.pcs[i].Out?
    case Step =>
      match s.pcs[i]
      case Out => i == 0 && s.pending
      case SendLock(_) => s.mu == None
      case DrainLock => s.mu == None
      case _ => true
  }

  function Go(s: State, i: nat, p: Pc): State
    requires i < |s.pcs|
  {
    s.(pcs := s.pcs[i := p])
  }

  function Next(s: State, i: nat, a: Action): State
    requires i < |s.pcs|
  {
    match a
    case Send(f) => Go(s, i, SendLock(f))
    case Step =>
      match s.pcs[i]
      // The loop answers a wakeup: the mark goes first, then the callback runs.
      case Out => Go(s, i, DrainLock).(pending := false)
      case SendLock(f) => Go(s, i, SendPush(f)).(mu := Some(i))
      case SendPush(f) => Go(s, i, SendUnlock).(list := s.list + [f])
      case SendUnlock => Go(s, i, SendAsync).(mu := None)
      case SendAsync => Go(s, i, Out).(pending := true)
      case DrainLock => Go(s, i, DrainTest).(mu := Some(i))
      case DrainTest => Go(s, i, if s.list != [] then DrainShift else DrainUnlock)
      case DrainShift => if s.list == [] then Go(s, i, DrainTest)
        else Go(s, i, DrainRun(s.list[0])).(list := s.list[1..])
      case DrainRun(_) => Go(s, i, DrainTest)
      case DrainUnlock => Go(s, i, Out).(mu := None)
  }

  datatype Move = Move(thread: nat, action: Action)

  ghost predicate Start(s: State) {
    s == State(None, [], false, s.pcs) && s.pcs != [] && forall i :: 0 <= i < |s.pcs| ==> s.pcs[i].Out?
  }

  ghost predicate IsRun(states: seq<State>, moves: seq<Move>) {
    && |states| == |moves| + 1 && Start(states[0])
    && forall k {:trigger moves[k]} :: 0 <= k < |moves| ==>
         Enabled(states[k], moves[k].thread, moves[k].action)
           && states[k + 1] == Next(states[k], moves[k].thread, moves[k].action)
  }

  // ----- what every reachable state keeps -----

  predicate Draining(p: Pc) { p.DrainLock? || p.DrainTest? || p.DrainShift? || p.DrainRun? }

  ghost predicate Exclusive(s: State) {
    && s.pcs != [] && (s.mu.Some? ==> s.mu.value < |s.pcs|)
    && (forall i :: 0 <= i < |s.pcs| ==> (Holds(s.pcs[i]) <==> s.mu == Some(i)))
    && (forall i :: 0 < i < |s.pcs| ==> !Draining(s.pcs[i]) && !s.pcs[i].DrainUnlock?)
  }

  /** A thread has pushed a job and has yet to wake the loop. */
  ghost predicate WakeupDue(s: State) { exists i :: 0 <= i < |s.pcs| && (s.pcs[i].SendUnlock? || s.pcs[i].SendAsync?) }

  /** Jobs in the list are never forgotten. */
  ghost predicate Heeded(s: State)
    requires s.pcs != []
  {
    s.list != [] ==> s.pending || Draining(s.pcs[0]) || WakeupDue(s)
  }

  ghost predicate Tested(s: State)
    requires s.pcs != []
  {
    (s.pcs[0].DrainShift? ==> s.list != []) && (s.pcs[0].DrainUnlock? ==> s.list == [])
  }

  ghost predicate Inv(s: State) { Exclusive(s) && Heeded(s) && Tested(s) }

  lemma NextExclusive(s: State, i: nat, a: Action)
    requires Exclusive(s) && Enabled(s, i, a)
    ensures Exclusive(Next(s, i, a))
  {
    assert Holds(s.pcs[i]) <==> s.mu == Some(i);
  }

  lemma NextTested(s: State, i: nat, a: Action)
    requires Exclusive(s) && Tested(s) && Enabled(s, i, a)
    ensures Tested(Next(s, i, a))
  {
    assert Holds(s.pcs[i]) <==> s.mu == Some(i);
    assert Holds(s.pcs[0]) <==> s.mu == Some(0);
  }

  lemma NextHeeded(s: State, i: nat, a: Action)
    requires Exclusive(s) && Tested(s) && Heeded(s) && Enabled(s, i, a)
    ensures Heeded(Next(s, i, a))
  {
    var s' := Next(s, i, a);
    if s.list != [] && WakeupDue(s) {
      var k :| 0 <= k < |s.pcs| && (s.pcs[k].SendUnlock? || s.pcs[k].SendAsync?);
      assert k != i ==> s'.pcs[k] == s.pcs[k];
      if k == i && a.Step? && s.pcs[i].SendUnlock? { assert s'.pcs[i].SendAsync?; }
    }
    if a.Step? && s.pcs[i].SendPush? { assert s'.pcs[i].SendUnlock?; }
  }

  lemma NextKeeps(s: State, i: nat, a: Action)
    requires Inv(s) && Enabled(s, i, a)
    ensures Inv(Next(s, i, a))
  {
    NextExclusive(s, i, a);
    NextTested(s, i, a);
    NextHeeded(s, i, a);
  }

  lemma {:induction false} RunKeeps(states: seq<State>, moves: seq<Move>)
    requires IsRun(states, moves)
    ensures Inv(states[|moves|])
  {
    var n := |moves|;
    if n > 0 {
      RunKeeps(states[..n], moves[..n - 1]);
      hide Inv, Next, Enabled;
      var m := moves[n - 1];
      assert Enabled(states[n - 1], m.thread, m.action);
      NextKeeps(states[n - 1], m.thread, m.action);
    }
  }

  // ----- every job is called in the end -----

  function Weight(p: Pc): nat {
    match p
    case Out => 0
    case SendLock(_) => 14
    case SendPush(_) => 13
    case SendUnlock => 8
    case SendAsync => 7
    case DrainLock => 4
    case DrainTest => 3
    case DrainShift => 2
    case DrainRun(_) => 5
    case DrainUnlock => 1
  }

  function Total(pcs: seq<Pc>): nat { if pcs == [] then 0 else Total(pcs[..|pcs| - 1]) + Weight(pcs[|pcs| - 1]) }

  /** How many steps at most there still are if no further job is queued. */
  function ToDo(s: State): nat { Total(s.pcs) + 4 * |s.list| + if s.pending then 6 else 0 }

  lemma {:induction false} TotalUpdate(pcs: seq<Pc>, i: nat, p: Pc)
    requires i < |pcs|
    ensures Total(pcs[i := p]) == Total(pcs) - Weight(pcs[i]) + Weight(p)
  {
    var n := |pcs| - 1;
    if i < n {
      TotalUpdate(pcs[..n], i, p);
      assert pcs[i := p][..n] == pcs[..n][i := p];
    } else {
      assert pcs[i := p][..n] == pcs[..n];
    }
  }

  lemma StepsRunOut(s: State, i: nat)
    requires Inv(s) && Enabled(s, i, Step)
    ensures ToDo(Next(s, i, Step)) < ToDo(s)
  {
    TotalUpdate(s.pcs, i, Next(s, i, Step).pcs[i]);
    assert i > 0 ==> !Draining(s.pcs[i]);
    assert s.pcs[i].DrainShift? ==> i == 0 && s.list != [];
  }

  ghost predicate AtRest(s: State) { forall i :: 0 <= i < |s.pcs| ==> !Enabled(s, i, Step) }

  /** When nothing is left to do, all threads are outside and the list is empty. */
  lemma RestMeansIdle(s: State)
    requires Inv(s) && AtRest(s)
    ensures s.list == [] && forall i :: 0 <= i < |s.pcs| ==> s.pcs[i].Out?
  {
    assert s.mu.Some? ==> Holds(s.pcs[s.mu.value]) && Enabled(s, s.mu.value, Step);
    assert !Enabled(s, 0, Step);
    forall i | 0 <= i < |s.pcs| ensures s.pcs[i].Out? {
      assert !Enabled(s, i, Step);
      assert i > 0 ==> !Draining(s.pcs[i]);
    }
  }

  // ----- which jobs are called, and in which order -----

  /** The job of the thread's last call of QueueEvJob. */
  function LastSent(moves: seq<Move>, i: nat): seq<Job> {
    if moves == [] then []
    else
      var n := |moves| - 1;
      if moves[n].thread == i && moves[n].action.Send? then [moves[n].action.f] else LastSent(moves[..n], i)
  }

  predicate Pushes(s: State, m: Move) { m.action.Step? && m.thread < |s.pcs| && s.pcs[m.thread].SendPush? }

  /** The jobs of the calls of QueueEvJob, in the order in which the calls pushed. */
  function Pushed(states: seq<State>, moves: seq<Move>): seq<Job>
    requires |states| == |moves| + 1
  {
    if moves == [] then []
    else
      var n := |moves| - 1;
      Pushed(states[..n + 1], moves[..n]) + if Pushes(states[n], moves[n]) then LastSent(moves[..n], moves[n].thread)
                                            else []
  }

  /** The jobs of all calls of QueueEvJob. */
  function Sends(moves: seq<Move>): seq<Job> {
    if moves == [] then []
    else
      var a := moves[|moves| - 1].action;
      Sends(moves[..|moves| - 1]) + if a.Send? then [a.f] else []
  }

  /** The job that the thread is about to call. */
  function InHand(s: State, i: nat): seq<Job> { if i < |s.pcs| && s.pcs[i].DrainRun? then [s.pcs[i].f] else [] }

  /** The jobs that have been called, in order. */
  function Ran(states: seq<State>, moves: seq<Move>): seq<Job>
    requires |states| == |moves| + 1
  {
    if moves == [] then []
    else
      var n := |moves| - 1;
      Ran(states[..n + 1], moves[..n]) + if moves[n].action.Step? then InHand(states[n], moves[n].thread) else []
  }

  /** What a step calls, has in hand and leaves in the list is what was in hand and in the
      list, and what the step pushes. */
  lemma NextInOrder(s: State, i: nat, a: Action)
    requires Exclusive(s) && Tested(s) && Enabled(s, i, a)
    ensures var s' := Next(s, i, a);
      (if a.Step? then InHand(s, i) else []) + InHand(s', 0) + s'.list
        == InHand(s, 0) + s.list + if Pushes(s, Move(i, a)) then [s.pcs[i].f] else []
  {
    var s' := Next(s, i, a);
    assert i > 0 ==> s'.pcs[0] == s.pcs[0] && InHand(s, i) == [];
    if a.Step? && s.pcs[i].DrainShift? { assert s.list == [s.list[0]] + s.list[1..]; }
  }

  /** A call that has not pushed yet carries the job it was called with. */
  lemma {:induction false} CarriesItsJob(states: seq<State>, moves: seq<Move>, i: nat)
    requires IsRun(states, moves)
    ensures var s := states[|moves|];
      i < |s.pcs| && (s.pcs[i].SendLock? || s.pcs[i].SendPush?) ==> LastSent(moves, i) == [s.pcs[i].f]
  {
    var n := |moves|;
    if n > 0 {
      CarriesItsJob(states[..n], moves[..n - 1], i);
      var m := moves[n - 1];
      assert Enabled(states[n - 1], m.thread, m.action);
    }
  }

  /** Jobs are called in the order in which the calls of QueueEvJob pushed them: none is
      forgotten, none is called twice, and no other is called. */
  lemma {:induction false} CalledInOrder(states: seq<State>, moves: seq<Move>)
    requires IsRun(states, moves)
    ensures var s := states[|moves|]; Ran(states, moves) + InHand(s, 0) + s.list == Pushed(states, moves)
  {
    var n := |moves|;
    if n > 0 {
      var m, s, s' := moves[n - 1], states[n - 1], states[n];
      CalledInOrder(states[..n], moves[..n - 1]);
      ThisStep(states, moves);
      hide IsRun, InHand, Pushes, LastSent;
      Regroup(Ran(states[..n], moves[..n - 1]), if m.action.Step? then InHand(s, m.thread) else [],
        InHand(s', 0), s'.list, InHand(s, 0), s.list, if Pushes(s, m) then LastSent(moves[..n - 1], m.thread) else []);
    }
  }

  lemma Regroup(before: seq<Job>, call: seq<Job>, hand: seq<Job>, list: seq<Job>, hand0: seq<Job>,
          list0: seq<Job>, push: seq<Job>)
    requires call + hand + list == hand0 + list0 + push
    ensures (before + call) + hand + list == (before + hand0 + list0) + push
  {
    assert (before + call) + hand + list == before + (call + hand + list);
  }

  lemma ThisStep(states: seq<State>, moves: seq<Move>)
    requires IsRun(states, moves) && moves != []
    ensures var n := |moves| - 1; var s, s', m := states[n], states[n + 1], moves[n];
      (if m.action.Step? then InHand(s, m.thread) else []) + InHand(s', 0) + s'.list
        == InHand(s, 0) + s.list + if Pushes(s, m) then LastSent(moves[..n], m.thread) else []
  {
    var n := |moves| - 1;
    var m := moves[n];
    RunKeeps(states[..n + 1], moves[..n]);
    CarriesItsJob(states[..n + 1], moves[..n], m.thread);
    hide LastSent, Next, InHand, Heeded;
    assert Enabled(states[n], m.thread, m.action) && m == Move(m.thread, m.action);
    NextInOrder(states[n], m.thread, m.action);
  }

  function Bit(b: bool): nat { if b then 1 else 0 }

  predicate Carries(p: Pc, f: Job) { (p.SendLock? || p.SendPush?) && p.f == f }

  /** How many calls for `f` have not pushed yet. */
  function Unpushed(pcs: seq<Pc>, f: Job): nat {
    if pcs == [] then 0 else Unpushed(pcs[..|pcs| - 1], f) + Bit(Carries(pcs[|pcs| - 1], f))
  }

  lemma {:induction false} UnpushedUpdate(pcs: seq<Pc>, i: nat, p: Pc, f: Job)
    requires i < |pcs|
    ensures Unpushed(pcs[i := p], f) == Unpushed(pcs, f) - Bit(Carries(pcs[i], f)) + Bit(Carries(p, f))
  {
    var n := |pcs| - 1;
    if i < n {
      UnpushedUpdate(pcs[..n], i, p, f);
      assert pcs[i := p][..n] == pcs[..n][i := p];
    } else {
      assert pcs[i := p][..n] == pcs[..n];
    }
  }

  lemma NextUnpushed(s: State, i: nat, a: Action, f: Job)
    requires Enabled(s, i, a)
    ensures Unpushed(Next(s, i, a).pcs, f) + Bit(Pushes(s, Move(i, a)) && s.pcs[i].f == f)
      == Unpushed(s.pcs, f) + Bit(a.Send? && a.f == f)
  {
    hide Unpushed;
    UnpushedUpdate(s.pcs, i, Next(s, i, a).pcs[i], f);
  }

  /** Every call of QueueEvJob pushes its job once. */
  lemma {:induction false} EveryCallPushes(states: seq<State>, moves: seq<Move>, f: Job)
    requires IsRun(states, moves)
    ensures multiset(Pushed(states, moves))[f] + Unpushed(states[|moves|].pcs, f) == multiset(Sends(moves))[f]
  {
    var n := |moves|;
    if n > 0 {
      var m, s := moves[n - 1], states[n - 1];
      EveryCallPushes(states[..n], moves[..n - 1], f);
      CarriesItsJob(states[..n], moves[..n - 1], m.thread);
      hide Unpushed, Next, LastSent;
      assert Enabled(s, m.thread, m.action) && m == Move(m.thread, m.action);
      NextUnpushed(s, m.thread, m.action, f);
    } else {
      NothingCarried(states[0].pcs, f);
    }
  }

  lemma {:induction false} NothingCarried(pcs: seq<Pc>, f: Job)
    requires forall i :: 0 <= i < |pcs| ==> !pcs[i].SendLock? && !pcs[i].SendPush?
    ensures Unpushed(pcs, f) == 0
  {
    if pcs != [] { NothingCarried(pcs[..|pcs| - 1], f); }
  }

  /** At rest the jobs called are those that QueueEvJob was called with, each as often. */
  lemma RestMeansAllRan(states: seq<State>, moves: seq<Move>)
    requires IsRun(states, moves) && AtRest(states[|moves|])
    ensures Ran(states, moves) == Pushed(states, moves)
    ensures multiset(Ran(states, moves)) == multiset(Sends(moves))
  {
    var s := states[|moves|];
    RunKeeps(states, moves);
    RestMeansIdle(s);
    CalledInOrder(states, moves);
    hide IsRun, Inv, AtRest, Ran, Sends, Unpushed, Pushed;
    assert Ran(states, moves) == Pushed(states, moves);
    forall f ensures multiset(Pushed(states, moves))[f] == multiset(Sends(moves))[f] {
      EveryCallPushes(states, moves, f);
      NothingCarried(s.pcs, f);
    }
  }

  /** Left to themselves from move `k` on, the threads come to rest within `ToDo` steps,
      whatever their order, and then every job that QueueEvJob was ever called with has been
      called, each as often as it was queued. */
  lemma AllJobsRun(states: seq<State>, moves: seq<Move>, k: nat)
    requires IsRun(states, moves) && k <= |moves|
    requires forall j {:trigger moves[j]} :: k <= j < |moves| ==> moves[j].action.Step?
    ensures |moves| - k + ToDo(states[|moves|]) <= ToDo(states[k])
    ensures AtRest(states[|moves|]) ==> multiset(Ran(states, moves)) == multiset(Sends(moves))
  {
    WithinToDo(states, moves, k);
    if AtRest(states[|moves|]) { RestMeansAllRan(states, moves); }
  }

  lemma {:induction false} WithinToDo(states: seq<State>, moves: seq<Move>, k: nat)
    requires IsRun(states, moves) && k <= |moves|
    requires forall j {:trigger moves[j]} :: k <= j < |moves| ==> moves[j].action.Step?
    ensures |moves| - k + ToDo(states[|moves|]) <= ToDo(states[k])
  {
    var n := |moves|;
    if k < n {
      WithinToDo(states[..n], moves[..n - 1], k);
      RunKeeps(states[..n], moves[..n - 1]);
      var m := moves[n - 1];
      assert Enabled(states[n - 1], m.thread, m.action);
      StepsRunOut(states[n - 1], m.thread);
    }
  }
}
