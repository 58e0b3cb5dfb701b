/** How many worker steps a request, and the end of the thread, can take. */
module Progress {
  import opened TaskStatus
  import opened Handshake
  import opened Invariants
  import opened Safety
  import opened Hangs

  /** The worker's own steps in a run; time-outs are not among them. */
  function WorkSteps(ls: seq<Label>): nat {
    if ls == [] then 0 else (if ls[0].Work? then 1 else 0) + WorkSteps(ls[1..])
  }

  /** Nothing but a supervisor that is just looking at the state can delay a worker that
      needs no wake-up, and that supervisor can move on. */
  lemma NotBlocked(s: State)
    requires Inv(s) && Serving(s.worker) && Worker !in s.waiters
    ensures WorkerReady(s) || (exists i :: 0 <= i < |s.sups| && s.inner == Held(Supervisor(i), 1) && SupReady(s, i))
  {
    if !WorkerReady(s) {
      var i := s.inner.owner.id;
      assert SupHoldsInner(s.sups[i]);
      assert SupReady(s, i);
    }
  }

  // ----- from a request to its answer

  /** The number of worker steps from pc to the next look at an open request. */
  function AckRank(pc: WorkerPc): nat {
    match pc
    case WaitBody | WaitRetest => 1
    case WaitLock | WaitReacquire => 2
    case AskExit | WaitSleep => 3
    case ExitTest => 4
    case LoopTest => 5
    case Updating => 6
    case AskExitAgain => 7
    case Answered(_) => 8
    case _ => 0
  }

  /** Request r is open, and the worker is there to answer it. */
  predicate Pending(s: State, r: Request) {
    s.st == Requested(r) && !s.flag && Serving(s.worker)
  }

  lemma AckStep(s: State, r: Request, woken: set<Thread>)
    requires Inv(s) && Pending(s, r) && Enabled(s, Work(false, woken))
    ensures
      var s' := WorkerStep(s, false, woken);
      s'.st == Target(r) || (Pending(s', r) && AckRank(s'.worker) < AckRank(s.worker))
  {
  }

  lemma AckOther(s: State, r: Request, l: Label)
    requires Inv(s) && Pending(s, r) && Enabled(s, l) && !l.Work?
    ensures Next(s, l).worker == s.worker
  {
    assert s.outer.Held? && AwaitsAnswer(s.sups[s.outer.owner.id], r);
    assert forall t :: t in s.waiters ==> NeedsNoWakeUp(s, t);
    if l.Sup? {
      assert l.i != s.outer.owner.id ==> !SupHoldsOuter(s.sups[l.i]);
    }
  }

  /** The request stays open, and m_should_exit down, through the whole run. */
  predicate StaysOpen(s: State, r: Request, ls: seq<Label>)
    requires Runs(s, ls)
    decreases |ls|
  {
    s.st == Requested(r) && !s.flag && (ls == [] || StaysOpen(Next(s, ls[0]), r, ls[1..]))
  }

  /** Every worker step brings the answer nearer: while a suspend or resume stays
      unanswered the worker takes at most seven steps, whatever any number of supervisors
      do and although no time-out is needed. */
  lemma {:induction false} AckBound(s: State, r: Request, ls: seq<Label>)
    requires Inv(s) && Serving(s.worker) && Runs(s, ls) && DefaultExit(ls) && StaysOpen(s, r, ls)
    ensures Serving(After(s, ls).worker)
    ensures WorkSteps(ls) + AckRank(After(s, ls).worker) <= AckRank(s.worker)
    ensures WorkSteps(ls) <= 7
    decreases |ls|
  {
    if ls != [] {
      var l := ls[0];
      if l.Work? {
        AckStep(s, r, l.woken);
      } else {
        AckOther(s, r, l);
      }
      StepKeepsInv(s, l);
      AckBound(Next(s, l), r, ls[1..]);
    }
  }

  // ----- from the exit flag to the end of task()

  /** The number of worker steps from pc to the end of task(), once m_should_exit is up
      and the state is REQUEST_EXIT; should_exit() may answer as it likes. */
  function ExitRank(pc: WorkerPc): nat {
    match pc
    case NoThread | Done => 0
    case LoopTest => 1
    case Updating => 2
    case AskExitAgain => 3
    case Answered(_) => 4
    case WaitBody | WaitRetest => 5
    case WaitLock | WaitReacquire => 6
    case WaitSleep | ExitTest | ExitUnlockOuter => 7
    case ExitBody => 8
    case ExitLockInner => 9
    case ExitLockOuter => 10
    case ExitFlag => 11
    case AskExit => 12
  }

  predicate Ending(s: State) {
    s.flag && s.st == RequestExit
  }

  lemma ExitWork(s: State, shouldExit: bool, woken: set<Thread>)
    requires Ending(s) && Enabled(s, Work(shouldExit, woken))
    ensures Ending(WorkerStep(s, shouldExit, woken))
    ensures ExitRank(WorkerStep(s, shouldExit, woken).worker) < ExitRank(s.worker)
  {
  }

  lemma ExitOther(s: State, l: Label)
    requires Inv(s) && Ending(s) && Enabled(s, l) && !l.Work? && !Starts(s, l)
    ensures Ending(Next(s, l)) && ExitRank(Next(s, l).worker) == ExitRank(s.worker)
  {
    assert forall t :: t in s.waiters ==> NeedsNoWakeUp(s, t);
  }

  /** Once graceful_exit() is done the worker takes at most twelve more steps, and each
      brings the end of task() nearer, for any should_exit() and any other calls. */
  lemma {:induction false} ExitBound(s: State, ls: seq<Label>)
    requires Inv(s) && Ending(s) && Runs(s, ls) && NoneStarts(s, ls)
    ensures Ending(After(s, ls))
    ensures WorkSteps(ls) + ExitRank(After(s, ls).worker) <= ExitRank(s.worker)
    ensures WorkSteps(ls) <= 12
    decreases |ls|
  {
    if ls != [] {
      var l := ls[0];
      if l.Work? {
        ExitWork(s, l.shouldExit, l.woken);
      } else {
        ExitOther(s, l);
      }
      StepKeepsInv(s, l);
      ExitBound(Next(s, l), ls[1..]);
    }
  }

  // ----- repeating graceful_exit() and join()

  /** Where a supervisor can be that only cleans up: graceful_exit(), join(), is_paused(). */
  predicate CleansUp(pc: SupervisorPc) {
    match pc
    case Idle | SetFlag | JoinTest | Told(_) => true
    case LockOuter(op) => op.GracefulExit? || op.Join?
    case LockInner(op) => op.GracefulExit? || op.IsPaused?
    case Body(op) => op.GracefulExit? || op.IsPaused?
    case UnlockOuter(op) => op.GracefulExit? || op.Join?
    case _ => false
  }

  /** The thread has been joined and the exit is set. */
  predicate Over(s: State) {
    && Ending(s) && s.worker == NoThread && s.waiters == {} && s.crash.None?
    && forall i :: 0 <= i < |s.sups| ==> CleansUp(s.sups[i])
  }

  /** Everything but the supervisors' positions and mutexes is as in s. */
  predicate Same(s: State, t: State) {
    t == s.(sups := t.sups, outer := t.outer, inner := t.inner) && |t.sups| == |s.sups|
  }

  predicate CleanUpCalls(ls: seq<Label>) {
    forall k :: 0 <= k < |ls| && ls[k].Call? ==> ls[k].op.GracefulExit? || ls[k].op.Join? || ls[k].op.IsPaused?
  }

  lemma OverStep(s: State, l: Label)
    requires Over(s) && Enabled(s, l)
    requires l.Call? ==> l.op.GracefulExit? || l.op.Join? || l.op.IsPaused?
    ensures Over(Next(s, l)) && Same(s, Next(s, l))
  {
    if l.Sup? && SupSignals(s, l.i) {
      assert l.woken <= s.waiters;
    }
  }

  lemma {:induction false} OverRun(s: State, ls: seq<Label>)
    requires Inv(s) && Over(s) && Runs(s, ls) && CleanUpCalls(ls)
    ensures Inv(After(s, ls)) && Over(After(s, ls)) && Same(s, After(s, ls))
    decreases |ls|
  {
    if ls != [] {
      OverStep(s, ls[0]);
      StepKeepsInv(s, ls[0]);
      OverRun(Next(s, ls[0]), ls[1..]);
    }
  }

  /** After exit and join, repeating graceful_exit() and join(), as the destructor does,
      changes nothing: whenever no call is in progress the state is what it was. */
  lemma RepeatChangesNothing(s: State, ls: seq<Label>)
    requires Inv(s) && Over(s) && AllIdle(s) && Runs(s, ls) && CleanUpCalls(ls)
    requires AllIdle(After(s, ls))
    ensures After(s, ls) == s
  {
    OverRun(s, ls);
    EaseIsFree(s);
    EaseIsFree(After(s, ls));
    assert After(s, ls).sups == s.sups;
  }

  lemma EaseIsFree(s: State)
    requires Inv(s) && s.worker == NoThread && AllIdle(s)
    ensures s.outer == Free && s.inner == Free
  {
    if s.outer.Held? && s.outer.owner.Supervisor? {
      OuterOwner(s);
    }
    if s.inner.Held? && s.inner.owner.Supervisor? {
      InnerOwner(s);
    }
  }
}
