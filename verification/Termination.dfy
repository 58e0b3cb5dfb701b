/** Calls that end under every scheduler, without any fairness: the length of a run is
    bounded by the number of waits in it that time out or wake spuriously. */
module Termination {
  import opened TaskStatus
  import opened Handshake
  import opened Invariants
  import opened Progress
  import opened Solo

  /** The waits in a run that end without a signal. */
  function Timeouts(ls: seq<Label>): nat {
    if ls == [] then 0 else (if Timeout(ls[0]) then 1 else 0) + Timeouts(ls[1..])
  }

  // ----- shutting down

  /** graceful_exit() has raised m_should_exit, and join() may still be to come. */
  predicate Leaving(c: Play) {
    && c.sys.flag && |c.sys.sups| == 1 && c.sys.sups[0] != SetFlag
    && (c.todo == [Join] || c.todo == [])
  }

  /** What the supervisor still has to do. */
  function LeavingSup(c: Play): nat
    requires |c.sys.sups| == 1
  {
    var pc := c.sys.sups[0];
    if c.todo == [] then
      match pc
      case LockOuter(_) => 4
      case JoinTest => 3
      case JoinWait => 2
      case UnlockOuter(_) => 1
      case _ => 0
    else
      match pc
      case LockOuter(_) => 9
      case LockInner(_) => 8
      case Body(_) => 7
      case UnlockOuter(_) => 6
      case _ => 5
  }

  /** What the worker can still do; before the exit is set it may be parked. */
  function LeavingWorker(s: State): nat {
    match s.worker
    case WaitSleep => if Worker in s.waiters then 0 else 7
    case _ => ExitRank(s.worker)
  }

  function LeavingRank(c: Play): nat
    requires |c.sys.sups| == 1
  {
    20 * LeavingSup(c) + LeavingWorker(c.sys)
  }

  lemma LeavingWork(s: State, woken: set<Thread>)
    requires s.flag && !InExit(s.worker) && WorkerReady(s)
    ensures LeavingWorker(WorkerStep(s, false, woken)) < LeavingWorker(s)
    ensures WorkerStep(s, false, woken).flag && WorkerStep(s, false, woken).sups == s.sups
  {
  }

  lemma LeavingCall(c: Play, woken: set<Thread>)
    requires PlayInv(c) && Leaving(c) && PlayEnabled(c, Sup(0, woken))
    ensures Leaving(PlayNext(c, Sup(0, woken)))
    ensures LeavingSup(PlayNext(c, Sup(0, woken))) < LeavingSup(c)
  {
    var s := c.sys;
    if s.sups[0].Body? {
      assert Leaving(Play(BodyStep(s, 0, s.sups[0].op, woken), c.todo));
    } else if AtInner(s.sups[0]) {
      assert Leaving(Play(InnerStep(s, 0), c.todo));
    } else {
      assert Leaving(Play(OuterStep(s, 0), c.todo));
    }
  }

  lemma LeavingStep(c: Play, l: Label)
    requires PlayInv(c) && Leaving(c) && PlayEnabled(c, l) && !Timeout(l)
    ensures Leaving(PlayNext(c, l)) && LeavingRank(PlayNext(c, l)) < LeavingRank(c)
  {
    match l
    case Work(_, woken) => LeavingWork(c.sys, woken);
    case Sup(_, woken) => LeavingCall(c, woken);
    case Call(_, _) =>
    case _ =>
  }

  /** A time-out sends the parked worker round its wait loop once more. */
  lemma LeavingTimeout(c: Play, l: Label)
    requires PlayInv(c) && Leaving(c) && PlayEnabled(c, l) && Timeout(l)
    ensures Leaving(PlayNext(c, l)) && LeavingRank(PlayNext(c, l)) <= LeavingRank(c) + 6
  {
  }

  /** A play that can only time out is over. */
  lemma StoppedIsOver(c: Play)
    requires PlayInv(c)
    ensures (forall l :: PlayEnabled(c, l) ==> Timeout(l)) ==> Over(c.sys)
  {
    if !Finished(c) {
      HelpfulHelps(c);
      assert PlayEnabled(c, Helpful(c)) && !Timeout(Helpful(c));
    } else {
      FinishedIsOver(c);
    }
  }

  lemma LeavingRankBound(c: Play)
    requires |c.sys.sups| == 1
    ensures LeavingRank(c) <= 192
  {
  }

  /** Shutting down always ends: from the moment m_should_exit is up a run has at most 192
      steps and seven more for every time-out in it, whatever the scheduler does, and where
      it can go no further the thread is joined. */
  lemma {:induction false} ShutdownEnds(c: Play, ls: seq<Label>)
    requires PlayInv(c) && Leaving(c) && Plays(c, ls)
    ensures |PlayAfter(c, ls).sys.sups| == 1
    ensures |ls| + LeavingRank(PlayAfter(c, ls)) <= LeavingRank(c) + 7 * Timeouts(ls)
    ensures |ls| <= 192 + 7 * Timeouts(ls)
    ensures (forall l :: PlayEnabled(PlayAfter(c, ls), l) ==> Timeout(l)) ==> Over(PlayAfter(c, ls).sys)
    decreases |ls|
  {
    LeavingRankBound(c);
    if ls == [] {
      StoppedIsOver(c);
    } else {
      if Timeout(ls[0]) {
        LeavingTimeout(c, ls[0]);
      } else {
        LeavingStep(c, ls[0]);
      }
      PlayKeepsInv(c, ls[0]);
      ShutdownEnds(PlayNext(c, ls[0]), ls[1..]);
    }
  }

  // ----- suspending

  /** suspend() has written its request and has not returned. */
  predicate Suspending(c: Play) {
    |c.sys.sups| == 1 && (AwaitsAnswer(c.sys.sups[0], Pause) || c.sys.sups[0] == UnlockOuter(Ask(Pause)))
  }

  /** The number of worker steps until it is parked. */
  function ParkRank(s: State): nat {
    match s.worker
    case WaitSleep => if Worker in s.waiters then 0 else 3
    case WaitBody | WaitRetest => 1
    case WaitLock | WaitReacquire => 2
    case AskExit => 3
    case ExitTest => 4
    case LoopTest => 5
    case Answered(_) => 6
    case _ => 0
  }

  function SuspendRank(s: State): nat
    requires |s.sups| == 1
  {
    if s.st == RequestPause then 100 + SupRank(s) * 10 + AckRank(s.worker)
    else SupRank(s) * 10 + ParkRank(s)
  }

  lemma ParkStep(s: State, woken: set<Thread>)
    requires s.st == Paused && !s.flag && Serving(s.worker) && !Granted(s.worker) && WorkerReady(s)
    ensures ParkRank(WorkerStep(s, false, woken)) < ParkRank(s)
    ensures WorkerStep(s, false, woken).st == Paused && WorkerStep(s, false, woken).sups == s.sups
  {
  }

  lemma SuspendingWork(c: Play, woken: set<Thread>)
    requires PlayInv(c) && Suspending(c) && PlayEnabled(c, Work(false, woken))
    ensures Suspending(PlayNext(c, Work(false, woken)))
    ensures SuspendRank(PlayNext(c, Work(false, woken)).sys) < SuspendRank(c.sys)
  {
    if c.sys.st == RequestPause {
      SuspendingAck(c.sys, woken);
    } else {
      ParkStep(c.sys, woken);
    }
  }

  /** The worker comes nearer to its answer, or gives it. */
  lemma SuspendingAck(s: State, woken: set<Thread>)
    requires Inv(s) && |s.sups| == 1 && AwaitsAnswer(s.sups[0], Pause) && Pending(s, Pause)
    requires Enabled(s, Work(false, woken))
    ensures WorkerStep(s, false, woken).sups == s.sups
    ensures SuspendRank(WorkerStep(s, false, woken)) < SuspendRank(s)
  {
    WorkerStaysThere(s, false, woken);
    AckStep(s, Pause, woken);
    ParkRankBound(WorkerStep(s, false, woken));
  }

  lemma ParkRankBound(s: State)
    ensures ParkRank(s) <= 6
  {
  }

  lemma SuspendingSup(c: Play, woken: set<Thread>)
    requires PlayInv(c) && Suspending(c) && PlayEnabled(c, Sup(0, woken))
    ensures
      var c' := PlayNext(c, Sup(0, woken));
      || c'.sys.sups == [Idle]
      || (Suspending(c') && SuspendRank(c'.sys) < SuspendRank(c.sys))
  {
    var s := c.sys;
    assert SupAgrees(s.sups[0], s.st);
    if AtInner(s.sups[0]) {
      InnerComesNearer(s);
      assert SupStep(s, 0, woken) == InnerStep(s, 0);
      InnerLeavesWorker(s);
    } else {
      assert SupStep(s, 0, woken) == OuterStep(s, 0);
      assert OuterStep(s, 0).sups == [Idle];
    }
  }

  lemma InnerLeavesWorker(s: State)
    requires |s.sups| == 1 && AtInner(s.sups[0])
    ensures InnerStep(s, 0).st == s.st && InnerStep(s, 0).worker == s.worker
    ensures Worker in InnerStep(s, 0).waiters <==> Worker in s.waiters
  {
  }

  lemma SuspendingStep(c: Play, l: Label)
    requires PlayInv(c) && Suspending(c) && PlayEnabled(c, l) && !Timeout(l)
    ensures
      var c' := PlayNext(c, l);
      || c'.sys.sups == [Idle]
      || (Suspending(c') && SuspendRank(c'.sys) < SuspendRank(c.sys))
  {
    if l.Work? {
      SuspendingWork(c, l.woken);
    } else {
      SuspendingSup(c, l.woken);
    }
  }

  /** A time-out sends its thread round its wait loop once more. */
  lemma SuspendingTimeout(c: Play, l: Label)
    requires PlayInv(c) && Suspending(c) && PlayEnabled(c, l) && Timeout(l)
    ensures Suspending(PlayNext(c, l)) && SuspendRank(PlayNext(c, l).sys) <= SuspendRank(c.sys) + 20
  {
    var t := if l.WakeWorker? then Worker else Supervisor(0);
    assert NeedsNoWakeUp(c.sys, t);
  }

  predicate StaysSuspending(c: Play, ls: seq<Label>)
    requires Plays(c, ls)
    decreases |ls|
  {
    Suspending(c) && (ls == [] || StaysSuspending(PlayNext(c, ls[0]), ls[1..]))
  }

  lemma SuspendingMoves(c: Play)
    requires PlayInv(c) && Suspending(c)
    ensures exists l :: PlayEnabled(c, l) && !Timeout(l)
  {
    HelpfulHelps(c);
    assert PlayEnabled(c, Helpful(c)) && !Timeout(Helpful(c));
  }

  lemma SuspendRankBound(s: State)
    requires |s.sups| == 1 && (AwaitsAnswer(s.sups[0], Pause) || s.sups[0] == UnlockOuter(Ask(Pause)))
    ensures SuspendRank(s) <= 198
  {
  }

  lemma SuspendingOne(c: Play, l: Label)
    requires PlayInv(c) && Suspending(c) && PlayEnabled(c, l) && Suspending(PlayNext(c, l))
    ensures 1 + SuspendRank(PlayNext(c, l).sys) <= SuspendRank(c.sys) + if Timeout(l) then 21 else 0
  {
    if Timeout(l) {
      SuspendingTimeout(c, l);
    } else {
      SuspendingStep(c, l);
    }
  }

  /** suspend() always returns: from its request on it can go on for at most 198 steps and
      21 more for every time-out, whatever the scheduler does, and it never comes to a halt
      before it returns. */
  lemma {:induction false} SuspendEnds(c: Play, ls: seq<Label>)
    requires PlayInv(c) && Plays(c, ls) && StaysSuspending(c, ls)
    ensures |PlayAfter(c, ls).sys.sups| == 1
    ensures |ls| + SuspendRank(PlayAfter(c, ls).sys) <= SuspendRank(c.sys) + 21 * Timeouts(ls)
    ensures |ls| <= 198 + 21 * Timeouts(ls)
    ensures exists l :: PlayEnabled(PlayAfter(c, ls), l) && !Timeout(l)
    decreases |ls|
  {
    SuspendRankBound(c.sys);
    if ls == [] {
      SuspendingMoves(c);
    } else {
      SuspendingOne(c, ls[0]);
      assert Suspending(PlayNext(c, ls[0]));
      PlayKeepsInv(c, ls[0]);
      SuspendEnds(PlayNext(c, ls[0]), ls[1..]);
    }
  }

  // ----- the supervisor's own steps in a whole script

  /** Steps and calls of the supervisor, without those that end a wait by a time-out. */
  function OwnSteps(ls: seq<Label>): nat {
    if ls == [] then 0 else (if ls[0].Sup? || ls[0].Call? then 1 else 0) + OwnSteps(ls[1..])
  }

  /** The supervisor's waits that end without a signal. */
  function SupTimeouts(ls: seq<Label>): nat {
    if ls == [] then 0 else (if ls[0].WakeSup? then 1 else 0) + SupTimeouts(ls[1..])
  }

  /** A call takes at most 13 own steps and its beginning. */
  function OwnRank(c: Play): nat
    requires |c.sys.sups| == 1
  {
    14 * |c.todo| + SupRank(c.sys)
  }

  lemma OwnSup(c: Play, woken: set<Thread>)
    requires PlayInv(c) && PlayEnabled(c, Sup(0, woken))
    ensures |PlayNext(c, Sup(0, woken)).sys.sups| == 1
    ensures OwnRank(PlayNext(c, Sup(0, woken))) < OwnRank(c)
  {
    var s := c.sys;
    SupKeepsStage(s, c.todo, woken);
    if s.sups[0].Body? {
      BodyComesNearer(s, woken);
    } else if AtInner(s.sups[0]) {
      InnerComesNearer(s);
    } else {
      OuterComesNearer(s);
    }
  }

  /** The worker's steps bring no work to the supervisor. */
  lemma OwnWork(s: State, woken: set<Thread>)
    requires Inv(s) && |s.sups| == 1 && !InExit(s.worker) && WorkerReady(s)
    ensures WorkerStep(s, false, woken).sups == s.sups
    ensures SupRank(WorkerStep(s, false, woken)) <= SupRank(s)
  {
    assert SupAgrees(s.sups[0], s.st);
  }

  lemma OwnStep(c: Play, l: Label)
    requires PlayInv(c) && PlayEnabled(c, l)
    ensures |PlayNext(c, l).sys.sups| == 1
    ensures OwnSteps([l]) + OwnRank(PlayNext(c, l)) <= OwnRank(c) + 2 * SupTimeouts([l])
  {
    match l
    case Work(_, woken) => OwnWork(c.sys, woken);
    case Sup(_, woken) => OwnSup(c, woken);
    case Call(_, _) => OwnCall(c, l);
    case _ => OwnTimeout(c, l);
  }

  lemma OwnCall(c: Play, l: Label)
    requires PlayInv(c) && PlayEnabled(c, l) && l.Call?
    ensures |PlayNext(c, l).sys.sups| == 1
    ensures OwnRank(PlayNext(c, l)) < OwnRank(c)
  {
    assert |c.todo[1..]| == |c.todo| - 1;
  }

  lemma OwnTimeout(c: Play, l: Label)
    requires PlayInv(c) && PlayEnabled(c, l) && Timeout(l)
    ensures |PlayNext(c, l).sys.sups| == 1
    ensures OwnRank(PlayNext(c, l)) <= OwnRank(c) + if l.WakeSup? then 2 else 0
  {
    if l.WakeSup? {
      assert NeedsNoWakeUp(c.sys, Supervisor(0));
    }
  }

  /** In a whole script the supervisor takes at most 14 steps for each call, and two more
      for each of its waits that times out, under every scheduler: no call, resume() and
      join() included, ever sends it round a loop of its own. */
  lemma {:induction false} ScriptBound(c: Play, ls: seq<Label>)
    requires PlayInv(c) && Plays(c, ls)
    ensures |PlayAfter(c, ls).sys.sups| == 1
    ensures OwnSteps(ls) + OwnRank(PlayAfter(c, ls)) <= OwnRank(c) + 2 * SupTimeouts(ls)
    decreases |ls|
  {
    if ls != [] {
      OwnStep(c, ls[0]);
      assert [ls[0]][1..] == [];
      PlayKeepsInv(c, ls[0]);
      ScriptBound(PlayNext(c, ls[0]), ls[1..]);
    }
  }
}
