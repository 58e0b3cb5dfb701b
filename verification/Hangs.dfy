/** Runs in which a management call hangs, each with the calls that lead there; and what
    the default should_exit() rules out. */
module Hangs {
  import opened Wrappers

  import opened TaskStatus
  import opened Handshake
  import opened Invariants
  import opened Safety
  import opened Deadlock

  type Calls = seq<(nat, Op)>

  /** The calls that begin in a run, in order. */
  function CallsOf(ls: seq<Label>): Calls {
    if ls == [] then []
    else (if ls[0].Call? then [(ls[0].i, ls[0].op)] else []) + CallsOf(ls[1..])
  }

  /** should_exit() answers false throughout, as it does unless a class overrides it. */
  predicate DefaultExit(ls: seq<Label>) {
    forall k :: 0 <= k < |ls| ==> !(ls[k].Work? && ls[k].shouldExit)
  }

  lemma {:induction false} CallsAppend(ls: seq<Label>, ms: seq<Label>)
    ensures CallsOf(ls + ms) == CallsOf(ls) + CallsOf(ms)
  {
    if ls == [] {
      assert ls + ms == ms;
    } else {
      assert (ls + ms)[0] == ls[0] && (ls + ms)[1..] == ls[1..] + ms;
      CallsAppend(ls[1..], ms);
    }
  }

  lemma Then(s: State, ls: seq<Label>, t: State, ms: seq<Label>, u: State)
    requires Runs(s, ls) && After(s, ls) == t
    requires Runs(t, ms) && After(t, ms) == u
    ensures Runs(s, ls + ms) && After(s, ls + ms) == u
    ensures CallsOf(ls + ms) == CallsOf(ls) + CallsOf(ms)
  {
    RunsAppend(s, ls, ms);
    CallsAppend(ls, ms);
  }

  /** A thread in the middle of a run: nobody holds or waits for anything. */
  function At(st: TaskState, flag: bool, worker: WorkerPc, sups: seq<SupervisorPc>): State {
    State(st, flag, Free, Free, {}, worker, sups, None, 0, 0, 0)
  }

  // ----- start, should_exit() answers true, graceful_exit, join

  const START_RUN: seq<Label> := StartLabels(0)
  const WORKER_QUEUES: seq<Label> := [Work(false, {}), Work(false, {}), Work(true, {}), Work(false, {})]
  const EXIT_BEGINS: seq<Label> := [Call(0, GracefulExit), Sup(0, {}), Sup(0, {})]
  const EXIT_ENDS: seq<Label> := [Sup(0, {}), Sup(0, {}), Sup(0, {})]
  const JOIN_RUN: seq<Label> := [Call(0, Join), Sup(0, {}), Sup(0, {})]

  lemma WorkerQueuesForExit()
    ensures Runs(At(Running, false, LoopTest, [Idle]), WORKER_QUEUES)
    ensures After(At(Running, false, LoopTest, [Idle]), WORKER_QUEUES) == At(Running, true, ExitLockOuter, [Idle])
  {
  }

  lemma SupervisorOvertakes()
    ensures Runs(At(Running, true, ExitLockOuter, [Idle]), EXIT_BEGINS + EXIT_ENDS)
    ensures After(At(Running, true, ExitLockOuter, [Idle]), EXIT_BEGINS + EXIT_ENDS)
            == At(RequestExit, true, ExitLockOuter, [Idle])
  {
    var s := At(Running, true, ExitLockOuter, [LockInner(GracefulExit)]).(outer := Held(Supervisor(0), 1));
    assert Runs(At(Running, true, ExitLockOuter, [Idle]), EXIT_BEGINS);
    assert After(At(Running, true, ExitLockOuter, [Idle]), EXIT_BEGINS) == s;
    SupervisorEnds(s);
    Then(At(Running, true, ExitLockOuter, [Idle]), EXIT_BEGINS, s, EXIT_ENDS,
         At(RequestExit, true, ExitLockOuter, [Idle]));
  }

  lemma SupervisorEnds(s: State)
    requires s == At(Running, true, ExitLockOuter, [LockInner(GracefulExit)]).(outer := Held(Supervisor(0), 1))
    ensures Runs(s, EXIT_ENDS) && After(s, EXIT_ENDS) == At(RequestExit, true, ExitLockOuter, [Idle])
  {
  }

  lemma JoinerWaits()
    ensures Runs(At(RequestExit, true, ExitLockOuter, [Idle]), JOIN_RUN)
    ensures After(At(RequestExit, true, ExitLockOuter, [Idle]), JOIN_RUN)
            == At(RequestExit, true, ExitLockOuter, [JoinWait]).(outer := Held(Supervisor(0), 1))
  {
  }

  lemma WorkerWantsExit(s: State)
    requires s == At(Running, false, NoThread, [Idle])
    ensures Runs(s, START_RUN + WORKER_QUEUES)
    ensures After(s, START_RUN + WORKER_QUEUES) == At(Running, true, ExitLockOuter, [Idle])
    ensures CallsOf(START_RUN + WORKER_QUEUES) == [(0, Start)]
  {
    StartRunsThrough(s, 0);
    WorkerQueuesForExit();
    JoinHangCalls();
    Then(s, START_RUN, At(Running, false, LoopTest, [Idle]), WORKER_QUEUES, At(Running, true, ExitLockOuter, [Idle]));
  }

  lemma SupervisorJoins(s: State)
    requires s == At(Running, true, ExitLockOuter, [Idle])
    ensures Runs(s, EXIT_BEGINS + EXIT_ENDS + JOIN_RUN)
    ensures After(s, EXIT_BEGINS + EXIT_ENDS + JOIN_RUN)
            == At(RequestExit, true, ExitLockOuter, [JoinWait]).(outer := Held(Supervisor(0), 1))
    ensures CallsOf(EXIT_BEGINS + EXIT_ENDS + JOIN_RUN) == [(0, GracefulExit), (0, Join)]
  {
    SupervisorOvertakes();
    JoinerWaits();
    CallsAppend(EXIT_BEGINS, EXIT_ENDS);
    JoinHangCalls();
    Then(s, EXIT_BEGINS + EXIT_ENDS, At(RequestExit, true, ExitLockOuter, [Idle]), JOIN_RUN,
         At(RequestExit, true, ExitLockOuter, [JoinWait]).(outer := Held(Supervisor(0), 1)));
  }

  /** With an overridden should_exit(), the legal calls start, graceful_exit, join of one
      supervisor can hang: the worker's own graceful_exit() wants the mutex that join()
      holds while it waits for the worker. */
  lemma JoinCanHang() returns (ls: seq<Label>)
    ensures Runs(Init(false, 1), ls) && CallsOf(ls) == [(0, Start), (0, GracefulExit), (0, Join)]
    ensures Lost(After(Init(false, 1), ls), 0) && After(Init(false, 1), ls).sups[0] == JoinWait
  {
    var s, t := Init(false, 1), At(Running, true, ExitLockOuter, [Idle]);
    assert s.sups == [Idle];
    WorkerWantsExit(s);
    SupervisorJoins(t);
    ls := START_RUN + WORKER_QUEUES + (EXIT_BEGINS + EXIT_ENDS + JOIN_RUN);
    Then(s, START_RUN + WORKER_QUEUES, t, EXIT_BEGINS + EXIT_ENDS + JOIN_RUN,
         At(RequestExit, true, ExitLockOuter, [JoinWait]).(outer := Held(Supervisor(0), 1)));
  }

  lemma JoinHangCalls()
    ensures CallsOf(START_RUN) == [(0, Start)] && CallsOf(WORKER_QUEUES) == []
    ensures CallsOf(EXIT_BEGINS) == [(0, GracefulExit)] && CallsOf(EXIT_ENDS) == [] && CallsOf(JOIN_RUN) == [(0, Join)]
  {
  }

  // ----- start, suspend, and another supervisor's graceful_exit

  const SUSPEND_RUN: seq<Label> := [Call(0, Ask(Pause)), Sup(0, {}), Sup(0, {}), Sup(0, {})]
  const FLAG_RUN: seq<Label> := [Call(1, GracefulExit), Sup(1, {})]

  function Asked(worker: WorkerPc, flag: bool, sups: seq<SupervisorPc>): State {
    At(RequestPause, flag, worker, sups).(outer := Held(Supervisor(0), 1), waiters := {Supervisor(0)})
  }

  lemma SuspendAsks()
    ensures Runs(At(Running, false, LoopTest, [Idle, Idle]), SUSPEND_RUN)
    ensures After(At(Running, false, LoopTest, [Idle, Idle]), SUSPEND_RUN)
            == Asked(LoopTest, false, [Sleep(Pause), Idle])
  {
  }

  lemma FlagRises()
    ensures Runs(Asked(LoopTest, false, [Sleep(Pause), Idle]), FLAG_RUN)
    ensures After(Asked(LoopTest, false, [Sleep(Pause), Idle]), FLAG_RUN)
            == Asked(LoopTest, true, [Sleep(Pause), LockOuter(GracefulExit)])
  {
  }

  lemma SuspendWaits()
    ensures Runs(At(Running, false, NoThread, [Idle, Idle]), START_RUN + SUSPEND_RUN)
    ensures After(At(Running, false, NoThread, [Idle, Idle]), START_RUN + SUSPEND_RUN)
            == Asked(LoopTest, false, [Sleep(Pause), Idle])
    ensures CallsOf(START_RUN + SUSPEND_RUN) == [(0, Start), (0, Ask(Pause))]
  {
    StartRunsThrough(At(Running, false, NoThread, [Idle, Idle]), 0);
    SuspendAsks();
    SuspendHangCalls();
    Then(At(Running, false, NoThread, [Idle, Idle]), START_RUN,
         At(Running, false, LoopTest, [Idle, Idle]), SUSPEND_RUN,
         Asked(LoopTest, false, [Sleep(Pause), Idle]));
  }

  lemma SuspendHangs(s: State)
    requires s == At(Running, false, NoThread, [Idle, Idle])
    ensures Runs(s, START_RUN + SUSPEND_RUN + FLAG_RUN)
    ensures After(s, START_RUN + SUSPEND_RUN + FLAG_RUN)
            == Asked(LoopTest, true, [Sleep(Pause), LockOuter(GracefulExit)])
    ensures CallsOf(START_RUN + SUSPEND_RUN + FLAG_RUN) == [(0, Start), (0, Ask(Pause)), (1, GracefulExit)]
  {
    SuspendWaits();
    FlagRises();
    SuspendHangCalls();
    Then(s, START_RUN + SUSPEND_RUN, Asked(LoopTest, false, [Sleep(Pause), Idle]), FLAG_RUN,
         Asked(LoopTest, true, [Sleep(Pause), LockOuter(GracefulExit)]));
  }

  /** Even with the default should_exit(), a second supervisor's graceful_exit() can make
      suspend() hang: it raises m_should_exit before it queues for the mutex, and with
      that the suspend is lost, for the worker will leave without seeing the request. */
  lemma SuspendCanHang() returns (ls: seq<Label>)
    ensures Runs(Init(false, 2), ls) && DefaultExit(ls)
    ensures CallsOf(ls) == [(0, Start), (0, Ask(Pause)), (1, GracefulExit)]
    ensures Lost(After(Init(false, 2), ls), 0) && After(Init(false, 2), ls).sups[0] == Sleep(Pause)
  {
    assert Init(false, 2).sups == [Idle, Idle];
    SuspendHangs(Init(false, 2));
    ls := START_RUN + SUSPEND_RUN + FLAG_RUN;
  }

  lemma SuspendHangCalls()
    ensures CallsOf(START_RUN) == [(0, Start)] && CallsOf(SUSPEND_RUN) == [(0, Ask(Pause))]
    ensures CallsOf(FLAG_RUN) == [(1, GracefulExit)]
  {
  }

  // ----- what the default should_exit() rules out

  lemma {:induction false} DefaultNeverExits(s: State, ls: seq<Label>)
    requires Runs(s, ls) && DefaultExit(ls) && !InExit(s.worker)
    ensures !InExit(After(s, ls).worker)
    decreases |ls|
  {
    if ls != [] {
      assert !InExit(Next(s, ls[0]).worker);
      DefaultNeverExits(Next(s, ls[0]), ls[1..]);
    }
  }

  /** With the default should_exit() the worker never takes the outer mutex, so only two
      kinds of stall are left: a request to a worker that has ended or was never started,
      and a join of a worker parked as paused. */
  lemma DefaultStalls(startPaused: bool, n: nat, ls: seq<Label>, s: State)
    requires Runs(Init(startPaused, n), ls) && s == After(Init(startPaused, n), ls) && DefaultExit(ls)
    requires s.crash.None? && !AllIdle(s) && Stalled(s)
    ensures exists i :: 0 <= i < |s.sups| && s.outer == Held(Supervisor(i), 1) &&
              ((s.sups[i].Sleep? && (s.worker.NoThread? || s.worker.Done?))
               || (s.sups[i].JoinWait? && s.st == Paused && s.worker == WaitSleep))
  {
    assert Reachable(s);
    DefaultNeverExits(Init(startPaused, n), ls);
    StalledExactly(s);
    ReachableInv(s);
    var i :| Lost(s, i) && AtRest(s, i) && OthersQueue(s, i);
    assert Worker in s.waiters ==> NeedsNoWakeUp(s, Worker);
  }
}
