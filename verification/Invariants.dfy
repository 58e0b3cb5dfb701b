/** What every step of the handshake keeps, for any number of supervisors, any calls,
    any should_exit() and any wake-ups. */
module Invariants {
  import opened Wrappers

  import opened TaskStatus
  import opened Handshake

  // ----- program counters and what they own

  predicate WorkerHoldsOuter(pc: WorkerPc) {
    pc.ExitLockInner? || pc.ExitBody? || pc.ExitUnlockOuter?
  }

  predicate WorkerHoldsInner(pc: WorkerPc) {
    pc.ExitBody? || pc.WaitBody? || pc.WaitRetest?
  }

  predicate SupHoldsOuter(pc: SupervisorPc) {
    match pc
    case Idle | SetFlag | LockOuter(_) | Told(_) => false
    case LockInner(op) => op != IsPaused
    case Body(op) => op != IsPaused
    case _ => true
  }

  predicate SupHoldsInner(pc: SupervisorPc) {
    pc.Body? || pc.Retest?
  }

  /** The call that a supervisor is inside. */
  function OpenCall(pc: SupervisorPc): Option<Op> {
    match pc
    case Idle => None
    case SetFlag => Some(GracefulExit)
    case LockOuter(op) => Some(op)
    case ClearFlag | Spawn => Some(Start)
    case JoinTest | JoinWait => Some(Join)
    case LockInner(op) => Some(op)
    case Body(op) => Some(op)
    case Sleep(r) => Some(Ask(r))
    case Reacquire(r) => Some(Ask(r))
    case Retest(r) => Some(Ask(r))
    case UnlockOuter(op) => Some(op)
    case Told(_) => Some(IsPaused)
  }

  /** The program counters that the code has. */
  predicate Possible(pc: SupervisorPc) {
    match pc
    case LockOuter(op) => op != IsPaused
    case LockInner(op) => op.Ask? || op.GracefulExit? || op.IsPaused?
    case Body(op) => op.Ask? || op.GracefulExit? || op.IsPaused?
    case UnlockOuter(op) => op != IsPaused
    case _ => true
  }

  /** Each mutex is held once, by the one thread whose program counter says so. */
  ghost predicate OuterOwned(s: State) {
    && (WorkerHoldsOuter(s.worker) <==> s.outer == Held(Worker, 1))
    && (forall i :: 0 <= i < |s.sups| ==> (SupHoldsOuter(s.sups[i]) <==> s.outer == Held(Supervisor(i), 1)))
    && (s.outer.Held? ==> s.outer.depth == 1 && (s.outer.owner.Supervisor? ==> s.outer.owner.id < |s.sups|))
  }

  ghost predicate InnerOwned(s: State) {
    && (WorkerHoldsInner(s.worker) <==> s.inner == Held(Worker, 1))
    && (forall i :: 0 <= i < |s.sups| ==> (SupHoldsInner(s.sups[i]) <==> s.inner == Held(Supervisor(i), 1)))
    && (s.inner.Held? ==> s.inner.depth == 1 && (s.inner.owner.Supervisor? ==> s.inner.owner.id < |s.sups|))
  }

  ghost predicate Mutexes(s: State) {
    && OuterOwned(s)
    && InnerOwned(s)
    && forall i :: 0 <= i < |s.sups| ==> Possible(s.sups[i])
  }

  // ----- the state of the handshake

  /** The worker may still begin an update, or is inside one. */
  predicate Granted(pc: WorkerPc) {
    pc == Answered(true) || pc.AskExitAgain? || pc.Updating?
  }

  predicate WorkerWaits(pc: WorkerPc) {
    pc.WaitSleep? || pc.WaitReacquire? || pc.WaitRetest?
  }

  /** The worker is somewhere in its loop and not in a graceful_exit() of its own. */
  predicate Serving(pc: WorkerPc) {
    !pc.NoThread? && !pc.Done? && !InExit(pc)
  }

  /** The supervisor is in the wait loop of its request. */
  predicate AwaitsAnswer(pc: SupervisorPc, r: Request) {
    pc == Sleep(r) || pc == Reacquire(r) || pc == Retest(r)
  }

  /** A waiting supervisor sees its own request or the worker's answer, nothing else,
      and the answer is still there when its call returns. */
  predicate SupAgrees(pc: SupervisorPc, st: TaskState) {
    match pc
    case Sleep(r) => st == Requested(r) || st == Target(r)
    case Reacquire(r) => st == Requested(r) || st == Target(r)
    case Retest(r) => st == Requested(r) || st == Target(r)
    case UnlockOuter(op) =>
      (op.Ask? ==> st == Target(op.request)) && (op.GracefulExit? ==> st == RequestExit)
    case _ => true
  }

  /** An open request has an owner: the holder of the outer mutex waits for its answer. */
  ghost predicate RequestOwned(s: State, r: Request) {
    && s.outer.Held? && s.outer.owner.Supervisor? && s.outer.owner.id < |s.sups|
    && AwaitsAnswer(s.sups[s.outer.owner.id], r)
  }

  /** A paused worker has no permission to update, and a waiting worker is paused or told to exit. */
  predicate WorkerAgrees(s: State) {
    && (s.st == Paused || s.st == RequestRun ==> !Granted(s.worker))
    && (WorkerWaits(s.worker) ==> s.st == Paused || s.st == RequestRun || s.st == RequestExit)
  }

  ghost predicate SupsAgree(s: State) {
    forall i :: 0 <= i < |s.sups| ==> SupAgrees(s.sups[i], s.st)
  }

  ghost predicate RequestsOwned(s: State) {
    && (s.st == RequestPause ==> RequestOwned(s, Pause))
    && (s.st == RequestRun ==> RequestOwned(s, Run))
    && (s.crash.Some? ==> s.crash.value != AgainstOpposite)
  }

  ghost predicate Agreement(s: State) {
    WorkerAgrees(s) && SupsAgree(s) && RequestsOwned(s)
  }

  /** A thread is in the waiter set only while what it waits for has not happened. */
  ghost predicate NeedsNoWakeUp(s: State, t: Thread) {
    match t
    case Worker => s.worker == WaitSleep && s.st == Paused
    case Supervisor(i) => i < |s.sups| && s.sups[i].Sleep? && s.st == Requested(s.sups[i].r)
  }

  ghost predicate Waiters(s: State) {
    forall t :: t in s.waiters ==> NeedsNoWakeUp(s, t)
  }

  /** join() waits for a thread that is there and returns without one; start() returns
      with one. */
  predicate ThreadAgrees(pc: SupervisorPc, worker: WorkerPc) {
    match pc
    case JoinWait => worker != NoThread
    case UnlockOuter(op) => (op.Join? ==> worker == NoThread) && (op.Start? ==> worker != NoThread)
    case _ => true
  }

  ghost predicate Joins(s: State) {
    forall i :: 0 <= i < |s.sups| ==> ThreadAgrees(s.sups[i], s.worker)
  }

  ghost predicate Inv(s: State) {
    Mutexes(s) && Agreement(s) && Waiters(s) && Joins(s)
  }

  lemma OuterOwner(s: State)
    requires Inv(s) && s.outer.Held? && s.outer.owner.Supervisor?
    ensures s.outer.owner.id < |s.sups| && SupHoldsOuter(s.sups[s.outer.owner.id])
  {
  }

  lemma InnerOwner(s: State)
    requires Inv(s) && s.inner.Held? && s.inner.owner.Supervisor?
    ensures s.inner.owner.id < |s.sups| && SupHoldsInner(s.sups[s.inner.owner.id])
  {
  }

  lemma InitInv(startPaused: bool, n: nat)
    ensures Inv(Init(startPaused, n))
  {
  }

  /** The only thread that a signal can be meant for. */
  lemma SignalEmpties(waiters: set<Thread>, woken: set<Thread>, t: Thread)
    requires SignalOk(waiters, woken)
    requires forall u :: u in waiters ==> u == t
    ensures waiters - woken == {}
  {
    if t in waiters {
      var u :| u in woken;
      assert u == t;
    }
  }

  /** At most one thread waits, so waking one is waking all. */
  lemma OneWaiter(s: State) returns (t: Thread)
    requires Inv(s)
    ensures forall u :: u in s.waiters ==> u == t
  {
    if u :| u in s.waiters {
      t := u;
      forall v | v in s.waiters
        ensures v == t
      {
        assert NeedsNoWakeUp(s, u) && NeedsNoWakeUp(s, v);
      }
    } else {
      t := Worker;
    }
  }

  /** Thread t keeps, takes or gives back mutex m, as its program counter says. */
  predicate Moves(m: Mutex, m': Mutex, t: Thread, before: bool, after: bool) {
    || (before == after && m' == m)
    || (!before && after && CanLock(m, t) && m' == Locked(m, t))
    || (before && !after && m' == Unlocked(m))
  }

  lemma SupMoves(s: State, s': State, i: nat, pc: SupervisorPc)
    requires Mutexes(s) && i < |s.sups| && s'.sups == s.sups[i := pc] && Possible(pc)
    requires WorkerHoldsOuter(s'.worker) == WorkerHoldsOuter(s.worker)
    requires WorkerHoldsInner(s'.worker) == WorkerHoldsInner(s.worker)
    requires Moves(s.outer, s'.outer, Supervisor(i), SupHoldsOuter(s.sups[i]), SupHoldsOuter(pc))
    requires Moves(s.inner, s'.inner, Supervisor(i), SupHoldsInner(s.sups[i]), SupHoldsInner(pc))
    ensures Mutexes(s')
  {
  }

  /** A step outside the status mutex leaves the agreement alone. */
  lemma SupBystands(s: State, s': State, i: nat, pc: SupervisorPc)
    requires Inv(s) && i < |s.sups| && s'.sups == s.sups[i := pc] && s'.st == s.st
    requires !AtInner(s.sups[i]) && !s.sups[i].Body? && SupAgrees(pc, s.st)
    requires s'.outer == s.outer || s.outer.Free? || s.outer.owner == Supervisor(i)
    requires s'.worker == s.worker || s'.worker.LoopTest? || s'.worker.NoThread?
    requires s'.crash.Some? ==> s'.crash.value != AgainstOpposite
    ensures Agreement(s')
  {
    assert SupsAgree(s');
  }

  lemma ExitKeepsMutexes(s: State, woken: set<Thread>)
    requires Mutexes(s) && InExit(s.worker) && Enabled(s, Work(false, woken))
    ensures Mutexes(ExitStep(s, woken))
  {
  }

  lemma ExitKeepsAgreement(s: State, woken: set<Thread>)
    requires Inv(s) && InExit(s.worker) && Enabled(s, Work(false, woken))
    ensures Agreement(ExitStep(s, woken))
  {
  }

  lemma ExitKeepsWaiters(s: State, woken: set<Thread>)
    requires Inv(s) && InExit(s.worker) && Enabled(s, Work(false, woken))
    ensures Waiters(ExitStep(s, woken))
  {
    if WorkerSignals(s) {
      var t := OneWaiter(s);
      SignalEmpties(s.waiters, woken, t);
    }
  }

  lemma WaitKeepsMutexes(s: State, woken: set<Thread>)
    requires Mutexes(s) && InWait(s.worker) && Enabled(s, Work(false, woken))
    ensures Mutexes(WaitStep(s, woken))
  {
  }

  lemma WaitKeepsAgreement(s: State, woken: set<Thread>)
    requires Inv(s) && InWait(s.worker) && Enabled(s, Work(false, woken))
    ensures Agreement(WaitStep(s, woken))
  {
    WaitAgrees(s, woken);
    OnlyAnswers(s, WaitStep(s, woken));
  }

  lemma WaitAgrees(s: State, woken: set<Thread>)
    requires WorkerAgrees(s) && InWait(s.worker)
    ensures WorkerAgrees(WaitStep(s, woken))
    ensures
      var s' := WaitStep(s, woken);
      && (s'.st == s.st || exists r :: s.st == Requested(r) && s'.st == Target(r))
      && s'.sups == s.sups && s'.outer == s.outer && s'.crash == s.crash
  {
    assert RequestPause == Requested(Pause) && Paused == Target(Pause);
    assert RequestRun == Requested(Run) && Running == Target(Run);
  }

  /** The state stays, or an open request gets its answer. */
  lemma OnlyAnswers(s: State, s': State)
    requires Agreement(s) && WorkerAgrees(s')
    requires s'.st == s.st || exists r :: s.st == Requested(r) && s'.st == Target(r)
    requires s'.sups == s.sups && s'.outer == s.outer && s'.crash == s.crash
    ensures Agreement(s')
  {
    forall i | 0 <= i < |s.sups|
      ensures SupAgrees(s.sups[i], s'.st)
    {
      assert SupAgrees(s.sups[i], s.st);
    }
  }

  lemma WaitKeepsWaiters(s: State, woken: set<Thread>)
    requires Inv(s) && InWait(s.worker) && Enabled(s, Work(false, woken))
    ensures Waiters(WaitStep(s, woken))
  {
    if WorkerSignals(s) {
      var t := OneWaiter(s);
      SignalEmpties(s.waiters, woken, t);
    }
  }

  lemma LoopKeepsMutexes(s: State, shouldExit: bool)
    requires Mutexes(s) && !InExit(s.worker) && !InWait(s.worker) && Enabled(s, Work(shouldExit, {}))
    ensures Mutexes(LoopStep(s, shouldExit))
  {
  }

  lemma LoopKeepsAgreement(s: State, shouldExit: bool)
    requires Inv(s) && !InExit(s.worker) && !InWait(s.worker) && Enabled(s, Work(shouldExit, {}))
    ensures Agreement(LoopStep(s, shouldExit))
  {
    LoopAgrees(s, shouldExit);
    OnlyWorkerMoves(s, LoopStep(s, shouldExit));
  }

  lemma LoopAgrees(s: State, shouldExit: bool)
    requires WorkerAgrees(s) && !InExit(s.worker) && !InWait(s.worker)
    ensures WorkerAgrees(LoopStep(s, shouldExit))
    ensures
      var s' := LoopStep(s, shouldExit);
      s' == s.(worker := s'.worker, updates := s'.updates)
  {
  }

  lemma OnlyWorkerMoves(s: State, s': State)
    requires Agreement(s) && s' == s.(worker := s'.worker, updates := s'.updates) && WorkerAgrees(s')
    ensures Agreement(s')
  {
  }

  lemma LoopKeepsWaiters(s: State, shouldExit: bool)
    requires Inv(s) && !InExit(s.worker) && !InWait(s.worker) && Enabled(s, Work(shouldExit, {}))
    ensures Waiters(LoopStep(s, shouldExit))
  {
  }

  lemma BodyKeepsMutexes(s: State, i: nat, woken: set<Thread>)
    requires Mutexes(s) && Enabled(s, Sup(i, woken)) && s.sups[i].Body?
    ensures Mutexes(BodyStep(s, i, s.sups[i].op, woken))
  {
    var s' := BodyStep(s, i, s.sups[i].op, woken);
    SupMoves(s, s', i, s'.sups[i]);
  }

  lemma AskKeepsAgreement(s: State, i: nat, r: Request, woken: set<Thread>)
    requires Inv(s) && i < |s.sups| && s.sups[i] == Body(Ask(r)) && s.crash.None?
    ensures Agreement(BodyStep(s, i, Ask(r), woken))
  {
    assert s.outer == Held(Supervisor(i), 1);
    assert !RequestOwned(s, Pause) && !RequestOwned(s, Run);
  }

  lemma BodyKeepsAgreement(s: State, i: nat, woken: set<Thread>)
    requires Inv(s) && Enabled(s, Sup(i, woken)) && s.sups[i].Body?
    ensures Agreement(BodyStep(s, i, s.sups[i].op, woken))
  {
    if s.sups[i].op.Ask? {
      AskKeepsAgreement(s, i, s.sups[i].op.request, woken);
    } else if s.sups[i].op.GracefulExit? {
      assert s.outer == Held(Supervisor(i), 1);
    }
  }

  lemma BodyKeepsWaiters(s: State, i: nat, woken: set<Thread>)
    requires Inv(s) && Enabled(s, Sup(i, woken)) && s.sups[i].Body?
    ensures Waiters(BodyStep(s, i, s.sups[i].op, woken))
  {
    if SupSignals(s, i) {
      var t := OneWaiter(s);
      SignalEmpties(s.waiters, woken, t);
    }
  }

  lemma InnerKeepsMutexes(s: State, i: nat)
    requires Mutexes(s) && Enabled(s, Sup(i, {})) && AtInner(s.sups[i])
    ensures Mutexes(InnerStep(s, i))
  {
    var s' := InnerStep(s, i);
    SupMoves(s, s', i, s'.sups[i]);
  }

  lemma InnerKeepsAgreement(s: State, i: nat)
    requires Inv(s) && Enabled(s, Sup(i, {})) && AtInner(s.sups[i])
    ensures Agreement(InnerStep(s, i))
  {
    var s' := InnerStep(s, i);
    assert SupAgrees(s.sups[i], s.st);
    SupWaitsOn(s, s', i, s'.sups[i]);
  }

  /** A step of supervisor i that stays in the wait loop of an open request. */
  lemma SupWaitsOn(s: State, s': State, i: nat, pc: SupervisorPc)
    requires Agreement(s) && i < |s.sups| && SupAgrees(pc, s.st)
    requires s' == s.(sups := s.sups[i := pc], inner := s'.inner, waiters := s'.waiters)
    requires forall r :: AwaitsAnswer(s.sups[i], r) && s.st == Requested(r) ==> AwaitsAnswer(pc, r)
    ensures Agreement(s')
  {
  }

  lemma InnerKeepsWaiters(s: State, i: nat)
    requires Inv(s) && Enabled(s, Sup(i, {})) && AtInner(s.sups[i])
    ensures Waiters(InnerStep(s, i))
  {
  }

  /** The rest of the management calls at the outer mutex, one thread at a time. */
  lemma OuterStepMoves(s: State, i: nat)
    requires i < |s.sups| && SupReady(s, i) && !AtInner(s.sups[i]) && !s.sups[i].Body? && Possible(s.sups[i])
    ensures
      var s' := OuterStep(s, i);
      && |s'.sups| == |s.sups| && s'.sups == s.sups[i := s'.sups[i]] && Possible(s'.sups[i])
      && s'.inner == s.inner
      && Moves(s.outer, s'.outer, Supervisor(i), SupHoldsOuter(s.sups[i]), SupHoldsOuter(s'.sups[i]))
      && SupHoldsInner(s'.sups[i]) == SupHoldsInner(s.sups[i])
  {
  }

  lemma OuterStepWorker(s: State, i: nat)
    requires i < |s.sups| && SupReady(s, i) && !AtInner(s.sups[i]) && !s.sups[i].Body?
    ensures
      var pc := OuterStep(s, i).worker;
      pc == s.worker || (s.worker.NoThread? && pc.LoopTest?) || (s.worker.Done? && pc.NoThread?)
  {
  }

  lemma OuterKeepsMutexes(s: State, i: nat)
    requires Mutexes(s) && Enabled(s, Sup(i, {})) && !AtInner(s.sups[i]) && !s.sups[i].Body?
    ensures Mutexes(OuterStep(s, i))
  {
    var s' := OuterStep(s, i);
    OuterStepMoves(s, i);
    OuterStepWorker(s, i);
    SupMoves(s, s', i, s'.sups[i]);
  }

  lemma OuterKeepsAgreement(s: State, i: nat)
    requires Inv(s) && Enabled(s, Sup(i, {})) && !AtInner(s.sups[i]) && !s.sups[i].Body?
    ensures Agreement(OuterStep(s, i))
  {
    var s' := OuterStep(s, i);
    SupBystands(s, s', i, s'.sups[i]);
  }

  lemma OuterKeepsWaiters(s: State, i: nat)
    requires Inv(s) && Enabled(s, Sup(i, {})) && !AtInner(s.sups[i]) && !s.sups[i].Body?
    ensures Waiters(OuterStep(s, i))
  {
    var s' := OuterStep(s, i);
    assert s'.waiters == s.waiters && s'.st == s.st && |s'.sups| == |s.sups|;
    assert s'.worker == s.worker || s.worker == NoThread || s.worker == Done;
    forall t | t in s.waiters
      ensures NeedsNoWakeUp(s', t)
    {
      assert NeedsNoWakeUp(s, t) && t != Supervisor(i);
    }
  }

  lemma WorkerKeepsInv(s: State, shouldExit: bool, woken: set<Thread>)
    requires Inv(s) && Enabled(s, Work(shouldExit, woken))
    ensures Inv(WorkerStep(s, shouldExit, woken))
  {
    WorkerKeepsJoins(s, shouldExit, woken);
    WorkerKeepsRest(s, shouldExit, woken);
  }

  lemma WorkerKeepsRest(s: State, shouldExit: bool, woken: set<Thread>)
    requires Inv(s) && Enabled(s, Work(shouldExit, woken))
    ensures Mutexes(WorkerStep(s, shouldExit, woken))
    ensures Agreement(WorkerStep(s, shouldExit, woken))
    ensures Waiters(WorkerStep(s, shouldExit, woken))
  {
    if InExit(s.worker) {
      ExitKeepsMutexes(s, woken);
      ExitKeepsAgreement(s, woken);
      ExitKeepsWaiters(s, woken);
    } else if InWait(s.worker) {
      WaitKeepsMutexes(s, woken);
      WaitKeepsAgreement(s, woken);
      WaitKeepsWaiters(s, woken);
    } else {
      LoopKeepsMutexes(s, shouldExit);
      LoopKeepsAgreement(s, shouldExit);
      LoopKeepsWaiters(s, shouldExit);
    }
  }

  /** A step of one supervisor that keeps the thread, or has the outer mutex to change it. */
  lemma JoinsKept(s: State, s': State, i: nat, pc: SupervisorPc)
    requires Inv(s) && i < |s.sups| && s'.sups == s.sups[i := pc] && ThreadAgrees(pc, s'.worker)
    requires s'.worker == s.worker || s.outer == Held(Supervisor(i), 1)
    ensures Joins(s')
  {
    forall j | 0 <= j < |s'.sups| && j != i
      ensures ThreadAgrees(s'.sups[j], s'.worker)
    {
      assert ThreadAgrees(s.sups[j], s.worker) && (SupHoldsOuter(s.sups[j]) <==> s.outer == Held(Supervisor(j), 1));
    }
  }

  lemma OuterKeepsJoins(s: State, i: nat)
    requires Inv(s) && Enabled(s, Sup(i, {})) && !AtInner(s.sups[i]) && !s.sups[i].Body?
    ensures Joins(OuterStep(s, i))
  {
    var s' := OuterStep(s, i);
    assert SupHoldsOuter(s.sups[i]) <==> s.outer == Held(Supervisor(i), 1);
    assert ThreadAgrees(s.sups[i], s.worker);
    JoinsKept(s, s', i, s'.sups[i]);
  }

  lemma WorkerKeepsJoins(s: State, shouldExit: bool, woken: set<Thread>)
    requires Joins(s)
    ensures Joins(WorkerStep(s, shouldExit, woken))
  {
    WorkerStaysThere(s, shouldExit, woken);
  }

  lemma WorkerStaysThere(s: State, shouldExit: bool, woken: set<Thread>)
    ensures WorkerStep(s, shouldExit, woken).worker == NoThread <==> s.worker == NoThread
    ensures WorkerStep(s, shouldExit, woken).sups == s.sups
  {
  }

  lemma BodyKeepsInv(s: State, i: nat, woken: set<Thread>)
    requires Inv(s) && Enabled(s, Sup(i, woken)) && s.sups[i].Body?
    ensures Inv(BodyStep(s, i, s.sups[i].op, woken))
  {
    BodyKeepsMutexes(s, i, woken);
    BodyKeepsAgreement(s, i, woken);
    BodyKeepsWaiters(s, i, woken);
  }

  lemma InnerKeepsInv(s: State, i: nat)
    requires Inv(s) && Enabled(s, Sup(i, {})) && AtInner(s.sups[i])
    ensures Inv(InnerStep(s, i))
  {
    InnerKeepsMutexes(s, i);
    InnerKeepsAgreement(s, i);
    InnerKeepsWaiters(s, i);
  }

  lemma OuterKeepsInv(s: State, i: nat)
    requires Inv(s) && Enabled(s, Sup(i, {})) && !AtInner(s.sups[i]) && !s.sups[i].Body?
    ensures Inv(OuterStep(s, i))
  {
    OuterKeepsMutexes(s, i);
    OuterKeepsAgreement(s, i);
    OuterKeepsWaiters(s, i);
    OuterKeepsJoins(s, i);
  }

  lemma SupKeepsInv(s: State, i: nat, woken: set<Thread>)
    requires Inv(s) && Enabled(s, Sup(i, woken))
    ensures Inv(SupStep(s, i, woken))
  {
    if s.sups[i].Body? {
      BodyKeepsInv(s, i, woken);
    } else if AtInner(s.sups[i]) {
      InnerKeepsInv(s, i);
    } else {
      OuterKeepsInv(s, i);
    }
  }

  lemma WakeWorkerKeepsInv(s: State)
    requires Inv(s) && Enabled(s, WakeWorker)
    ensures Inv(Next(s, WakeWorker))
  {
  }

  lemma WakeSupKeepsInv(s: State, i: nat)
    requires Inv(s) && Enabled(s, WakeSup(i))
    ensures Inv(Next(s, WakeSup(i)))
  {
    var s' := Next(s, WakeSup(i));
    SupMoves(s, s', i, s'.sups[i]);
    assert SupAgrees(s.sups[i], s.st);
    SupWaitsOn(s, s', i, s'.sups[i]);
  }

  lemma WakeKeepsInv(s: State, l: Label)
    requires Inv(s) && Enabled(s, l) && Timeout(l)
    ensures Inv(Next(s, l))
  {
    match l
    case WakeSup(i) => WakeSupKeepsInv(s, i);
    case _ => WakeWorkerKeepsInv(s);
  }

  lemma CallKeepsInv(s: State, l: Label)
    requires Inv(s) && Enabled(s, l) && l.Call?
    ensures Inv(Next(s, l))
  {
    var s' := Next(s, l);
    SupMoves(s, s', l.i, FirstPc(l.op));
    SupBystands(s, s', l.i, FirstPc(l.op));
    JoinsKept(s, s', l.i, FirstPc(l.op));
  }

  lemma StepKeepsInv(s: State, l: Label)
    requires Inv(s) && Enabled(s, l)
    ensures Inv(Next(s, l))
  {
    match l
    case Work(shouldExit, woken) => WorkerKeepsInv(s, shouldExit, woken);
    case Sup(i, woken) => SupKeepsInv(s, i, woken);
    case Call(_, _) => CallKeepsInv(s, l);
    case _ => WakeKeepsInv(s, l);
  }
}
