/** Who may change what: the state diagram of the handshake, the life of the worker, the
    exit flag, the answers of wait_to_run(), and what a call has done when it returns.
    Everything here is said of steps and runs, in terms of the states before and after. */
module Diagram {
  import opened Wrappers

  import opened TaskStatus
  import opened Handshake
  import opened Invariants
  import opened Safety

  // ----- the five states

  /** Label l is the step in which supervisor i writes the request r. */
  predicate Writes(s: State, l: Label, r: Request) {
    l.Sup? && l.i < |s.sups| && s.sups[l.i] == Body(Ask(r)) && s.inner == Held(Supervisor(l.i), 1)
  }

  predicate SleepsIn(s: State, i: nat, r: Request) {
    i < |s.sups| && s.sups[i] == Sleep(r)
  }

  /** Label l is the step in which someone's graceful_exit() writes REQUEST_EXIT. */
  predicate WritesExit(s: State, l: Label) {
    || (l.Work? && s.worker == ExitBody)
    || (l.Sup? && l.i < |s.sups| && s.sups[l.i] == Body(GracefulExit))
  }

  /** The arrows of the state diagram, and who may take each. */
  predicate Arrow(s: State, l: Label, s': State) {
    match (s.st, s'.st)
    case (Running, RequestPause) => Writes(s, l, Pause) && SleepsIn(s', l.i, Pause)
    case (RequestPause, Paused) => l.Work? && s.worker == WaitBody && s'.worker == Answered(false)
    case (Paused, RequestRun) => Writes(s, l, Run) && SleepsIn(s', l.i, Run)
    case (RequestRun, Running) => l.Work? && InWait(s.worker) && s'.worker == Answered(true)
    case (_, RequestExit) => WritesExit(s, l)
    case _ => false
  }

  lemma WorkerArrows(s: State, shouldExit: bool, woken: set<Thread>)
    requires Inv(s) && Enabled(s, Work(shouldExit, woken))
    requires WorkerStep(s, shouldExit, woken).st != s.st
    ensures Arrow(s, Work(shouldExit, woken), WorkerStep(s, shouldExit, woken))
    ensures WorkerSignals(s)
    ensures WorkerStep(s, shouldExit, woken).waiters == s.waiters - woken
  {
  }

  lemma SupArrows(s: State, i: nat, woken: set<Thread>)
    requires Inv(s) && Enabled(s, Sup(i, woken)) && SupStep(s, i, woken).st != s.st
    ensures Arrow(s, Sup(i, woken), SupStep(s, i, woken))
    ensures SupSignals(s, i)
    ensures SupStep(s, i, woken).waiters <= s.waiters - woken + {Supervisor(i)}
  {
    assert s.sups[i].Body?;
    assert SupHoldsOuter(s.sups[i]) ==> s.outer == Held(Supervisor(i), 1);
  }

  /** The state changes only along the five kinds of arrows, each taken by the thread and at
      the place that the design gives it; and with every change all waiters are woken, so
      none but the thread that made it can be waiting afterwards. */
  lemma StateDiagram(s: State, l: Label)
    requires Reachable(s) && Enabled(s, l) && Next(s, l).st != s.st
    ensures Arrow(s, l, Next(s, l))
    ensures Next(s, l).waiters <= {Mover(l)}
  {
    ReachableInv(s);
    SignalIsBroadcast(s, l);
    match l
    case Work(shouldExit, woken) =>
      WorkerStaysThere(s, shouldExit, woken);
      WorkerArrows(s, shouldExit, woken);
    case Sup(i, woken) => SupArrows(s, i, woken);
    case _ =>
  }

  // ----- the worker

  /** wait_to_run() answers true exactly in RUNNING and on REQUEST_RUN, false exactly on
      REQUEST_PAUSE and REQUEST_EXIT, and waits exactly while PAUSED. */
  lemma AnswersExactly(s: State, shouldExit: bool, woken: set<Thread>)
    requires Reachable(s) && Enabled(s, Work(shouldExit, woken)) && (s.worker.WaitBody? || s.worker.WaitRetest?)
    ensures
      var pc := Next(s, Work(shouldExit, woken)).worker;
      && (pc == Answered(true) <==> s.st == Running || s.st == RequestRun)
      && (pc == Answered(false) <==> s.st == RequestPause || s.st == RequestExit)
      && (pc == WaitSleep <==> s.st == Paused)
  {
    ReachableInv(s);
  }

  lemma SupLeavesWorker(s: State, i: nat, woken: set<Thread>)
    requires Enabled(s, Sup(i, woken))
    ensures
      var pc := SupStep(s, i, woken).worker;
      || pc == s.worker
      || (s.worker == NoThread && pc == LoopTest && s.sups[i].Spawn?)
      || (s.worker == Done && pc == NoThread && s.sups[i].JoinWait?)
  {
  }

  lemma WorkerEnds(s: State, shouldExit: bool, woken: set<Thread>)
    requires Enabled(s, Work(shouldExit, woken))
    ensures WorkerStep(s, shouldExit, woken).worker == Done ==> s.worker == LoopTest && s.flag
  {
  }

  /** The thread is made by start(), ends only by its own loop guard when m_should_exit is
      up, and is taken away only by a join() and only when it has ended. */
  lemma WorkerLife(s: State, l: Label)
    requires Enabled(s, l) && Next(s, l).worker != s.worker
    ensures s.worker == NoThread ==>
              l.Sup? && s.sups[l.i] == Spawn && Next(s, l).worker == LoopTest
    ensures Next(s, l).worker == NoThread ==> s.worker == Done && l.Sup? && s.sups[l.i] == JoinWait
    ensures Next(s, l).worker == Done ==> l.Work? && s.worker == LoopTest && s.flag
  {
    match l
    case Work(shouldExit, woken) =>
      WorkerStaysThere(s, shouldExit, woken);
      WorkerEnds(s, shouldExit, woken);
    case Sup(i, woken) => SupLeavesWorker(s, i, woken);
    case _ =>
  }

  /** The order of task(): each place of its loop is reached only from the place before it in
      the program and on the outcome that leads there, so in every round m_should_exit is
      read twice, should_exit() is asked while it was down, wait_to_run() comes after both
      and also after a graceful_exit() of the worker's own, and an update comes last. */
  lemma TaskOrder(s: State, shouldExit: bool, woken: set<Thread>)
    requires Reachable(s) && Enabled(s, Work(shouldExit, woken))
    ensures
      var s' := Next(s, Work(shouldExit, woken));
      match s'.worker
      case NoThread => false
      case LoopTest =>
        || s.worker == Answered(false) || (s.worker == Answered(true) && s.flag)
        || (s.worker == AskExitAgain && shouldExit) || s.worker == Updating
      case ExitTest => s.worker == LoopTest && !s.flag
      case AskExit => s.worker == ExitTest && !s.flag
      case ExitFlag => s.worker == AskExit && shouldExit
      case ExitLockOuter => s.worker == ExitFlag && s'.flag
      case ExitLockInner => s.worker == ExitLockOuter && s'.outer == Held(Worker, 1)
      case ExitBody => s.worker == ExitLockInner && s'.outer == s'.inner == Held(Worker, 1)
      case ExitUnlockOuter => s.worker == ExitBody && s'.st == RequestExit && s'.inner == Free
      case WaitLock =>
        || (s.worker == ExitTest && s.flag) || (s.worker == AskExit && !shouldExit)
        || (s.worker == ExitUnlockOuter && s'.outer == Free)
      case WaitBody => s.worker == WaitLock && s'.inner == Held(Worker, 1)
      case WaitSleep => InWait(s.worker) && s'.inner == Free && Worker in s'.waiters
      case WaitReacquire => s.worker == WaitSleep && Worker !in s.waiters
      case WaitRetest => s.worker == WaitReacquire && s'.inner == Held(Worker, 1)
      case Answered(_) => (s.worker == WaitBody || s.worker == WaitRetest) && s'.inner == Free
      case AskExitAgain => s.worker == Answered(true) && !s.flag
      case Updating => s.worker == AskExitAgain && !shouldExit
      case Done => s.worker == LoopTest && s.flag
  {
    ReachableInv(s);
    if InExit(s.worker) {
      ExitOrder(s, woken);
    } else if InWait(s.worker) {
      WaitOrder(s, woken);
    }
  }

  lemma ExitOrder(s: State, woken: set<Thread>)
    requires Inv(s) && InExit(s.worker) && Enabled(s, Work(false, woken))
    ensures
      var s' := ExitStep(s, woken);
      match s'.worker
      case ExitLockOuter => s.worker == ExitFlag && s'.flag
      case ExitLockInner => s.worker == ExitLockOuter && s'.outer == Held(Worker, 1)
      case ExitBody => s.worker == ExitLockInner && s'.outer == s'.inner == Held(Worker, 1)
      case ExitUnlockOuter => s.worker == ExitBody && s'.st == RequestExit && s'.inner == Free
      case WaitLock => s.worker == ExitUnlockOuter && s'.outer == Free
      case _ => false
  {
  }

  lemma WaitOrder(s: State, woken: set<Thread>)
    requires Inv(s) && InWait(s.worker) && Enabled(s, Work(false, woken))
    ensures
      var s' := WaitStep(s, woken);
      match s'.worker
      case WaitBody => s.worker == WaitLock && s'.inner == Held(Worker, 1)
      case WaitSleep => s'.inner == Free && Worker in s'.waiters
      case WaitReacquire => s.worker == WaitSleep && Worker !in s.waiters
      case WaitRetest => s.worker == WaitReacquire && s'.inner == Held(Worker, 1)
      case Answered(_) => (s.worker == WaitBody || s.worker == WaitRetest) && s'.inner == Free
      case _ => false
  {
  }

  /** Label l is the worker's step into update(). */
  predicate EntersUpdate(s: State, l: Label)
    requires Enabled(s, l)
  {
    !s.worker.Updating? && Next(s, l).worker.Updating?
  }

  lemma WorkerCounts(s: State, shouldExit: bool, woken: set<Thread>)
    ensures
      var s' := WorkerStep(s, shouldExit, woken);
      && s'.updates == s.updates + (if !s.worker.Updating? && s'.worker.Updating? then 1 else 0)
      && (s'.worker.Updating? ==> s.worker.AskExitAgain? && !shouldExit)
  {
  }

  /** The number of updates grows exactly when update() is entered; and that is by the worker
      alone, after a look at m_should_exit and when should_exit() has just answered false. */
  lemma UpdatesCount(s: State, l: Label)
    requires Enabled(s, l)
    ensures Next(s, l).updates == s.updates + if EntersUpdate(s, l) then 1 else 0
    ensures EntersUpdate(s, l) ==> l.Work? && !l.shouldExit && s.worker == AskExitAgain
  {
    match l
    case Work(shouldExit, woken) => WorkerCounts(s, shouldExit, woken);
    case Sup(i, woken) =>
      SupUpdatesStay(s, i, woken);
      SupLeavesWorker(s, i, woken);
    case _ =>
  }

  /** Label l makes wait_to_run() answer true. */
  predicate Grants(s: State, l: Label)
    requires Enabled(s, l)
  {
    InWait(s.worker) && Next(s, l).worker == Answered(true)
  }

  function GrantsIn(s: State, ls: seq<Label>): nat
    requires Runs(s, ls)
    decreases |ls|
  {
    if ls == [] then 0 else (if Grants(s, ls[0]) then 1 else 0) + GrantsIn(Next(s, ls[0]), ls[1..])
  }

  lemma WorkerUsesGrant(s: State, shouldExit: bool, woken: set<Thread>)
    ensures
      var s' := WorkerStep(s, shouldExit, woken);
      MayBegin(s'.worker) ==> MayBegin(s.worker) || (InWait(s.worker) && s'.worker == Answered(true))
  {
  }

  lemma GrantStep(s: State, l: Label)
    requires Enabled(s, l)
    ensures Begins(Next(s, l)) <= Begins(s) + if Grants(s, l) then 1 else 0
  {
    UpdatesCount(s, l);
    match l
    case Work(shouldExit, woken) => WorkerUsesGrant(s, shouldExit, woken);
    case Sup(i, woken) => SupLeavesWorker(s, i, woken);
    case _ =>
  }

  /** Every update needs a true answer of wait_to_run() of its own. */
  lemma {:induction false} UpdatesAreGranted(s: State, ls: seq<Label>)
    requires Runs(s, ls)
    ensures Begins(After(s, ls)) <= Begins(s) + GrantsIn(s, ls)
    ensures !MayBegin(s.worker) ==> After(s, ls).updates - s.updates <= GrantsIn(s, ls)
    decreases |ls|
  {
    if ls != [] {
      GrantStep(s, ls[0]);
      UpdatesAreGranted(Next(s, ls[0]), ls[1..]);
    }
  }

  // ----- the exit flag

  lemma WorkerFlag(s: State, shouldExit: bool, woken: set<Thread>)
    ensures WorkerStep(s, shouldExit, woken).flag <==> s.flag || s.worker == ExitFlag
  {
  }

  lemma SupFlag(s: State, i: nat, woken: set<Thread>)
    requires i < |s.sups|
    ensures SupStep(s, i, woken).flag <==> (s.flag || s.sups[i] == SetFlag) && s.sups[i] != ClearFlag
  {
  }

  /** m_should_exit is raised by graceful_exit(), of a supervisor or of the worker, and
      lowered by start(), and by nobody else. */
  lemma FlagLife(s: State, l: Label)
    requires Enabled(s, l)
    ensures Next(s, l).flag <==>
              || (l.Work? && s.worker == ExitFlag)
              || (l.Sup? && s.sups[l.i] == SetFlag)
              || (s.flag && !(l.Sup? && s.sups[l.i] == ClearFlag))
  {
    match l
    case Work(shouldExit, woken) => WorkerFlag(s, shouldExit, woken);
    case Sup(i, woken) => SupFlag(s, i, woken);
    case _ =>
  }

  /** graceful_exit() raises m_should_exit as its first act, whoever has the mutexes. */
  lemma ExitRaisesFirst(s: State, i: nat)
    requires Enabled(s, Call(i, GracefulExit))
    ensures Runs(s, [Call(i, GracefulExit), Sup(i, {})]) && After(s, [Call(i, GracefulExit), Sup(i, {})]).flag
  {
    TwoSteps(s, Call(i, GracefulExit), Sup(i, {}));
  }

  // ----- the environment

  /** Nothing that the program does not control is ruled out: between calls a supervisor may
      begin any call, every wait may time out or wake spuriously, should_exit() may answer
      as it likes, and a signal may wake any waiters, if it wakes one. */
  lemma EnvironmentIsFree(s: State, i: nat, op: Op, shouldExit: bool, woken: set<Thread>)
    requires s.crash.None?
    ensures i < |s.sups| && s.sups[i] == Idle ==> Enabled(s, Call(i, op))
    ensures i < |s.sups| && s.sups[i].Sleep? && Supervisor(i) in s.waiters ==> Enabled(s, WakeSup(i))
    ensures s.worker == WaitSleep && Worker in s.waiters ==> Enabled(s, WakeWorker)
    ensures WorkerReady(s) && woken <= s.waiters && (s.waiters == {} || woken != {}) ==>
              Enabled(s, Work(shouldExit, woken))
    ensures i < |s.sups| && SupReady(s, i) && woken <= s.waiters && (s.waiters == {} || woken != {}) ==>
              Enabled(s, Sup(i, woken))
  {
  }

  // ----- a whole call

  /** Supervisor i stays inside its call. */
  predicate StaysInside(s: State, ls: seq<Label>, i: nat)
    requires Runs(s, ls)
    decreases |ls|
  {
    i < |s.sups| && s.sups[i] != Idle && (ls == [] || StaysInside(Next(s, ls[0]), ls[1..], i))
  }

  /** Nobody's step changes what another supervisor, or the same one, is calling, until the
      call returns. */
  lemma CallGoesOn(s: State, l: Label, i: nat)
    requires Inv(s) && Enabled(s, l) && i < |s.sups| && s.sups[i] != Idle
    ensures i < |Next(s, l).sups|
    ensures Next(s, l).sups[i] == Idle || OpenCall(Next(s, l).sups[i]) == OpenCall(s.sups[i])
  {
    match l
    case Work(shouldExit, woken) => WorkerStaysThere(s, shouldExit, woken);
    case Sup(j, woken) =>
      SupKeepsOthers(s, j, woken);
      if j == i {
        CallStaysOpen(s, i, woken);
      }
    case _ =>
  }

  lemma {:induction false} CallRun(s: State, ls: seq<Label>, i: nat)
    requires Inv(s) && Runs(s, ls) && StaysInside(s, ls, i)
    ensures Inv(After(s, ls)) && i < |After(s, ls).sups|
    ensures After(s, ls).sups[i] != Idle && OpenCall(After(s, ls).sups[i]) == OpenCall(s.sups[i])
    decreases |ls|
  {
    if ls != [] {
      CallGoesOn(s, ls[0], i);
      StepKeepsInv(s, ls[0]);
      CallRun(Next(s, ls[0]), ls[1..], i);
    }
  }

  /** What the call op promises of the state in which it returns. */
  predicate Promised(s: State, op: Op) {
    match op
    case Start => s.worker != NoThread
    case Ask(r) => s.st == Target(r) && (r == Pause ==> !Granted(s.worker))
    case GracefulExit => s.st == RequestExit
    case Join => s.worker == NoThread
    case IsPaused => true
  }

  /** A call never returns at once; and when it does return, after whatever its own thread
      and all others have done since it began, what it promises holds. */
  lemma CallKeepsPromise(s: State, i: nat, op: Op, ls: seq<Label>, l: Label)
    requires Reachable(s) && Enabled(s, Call(i, op))
    requires Runs(Next(s, Call(i, op)), ls) && StaysInside(Next(s, Call(i, op)), ls, i)
    requires Enabled(After(Next(s, Call(i, op)), ls), l)
    ensures
      var t := After(Next(s, Call(i, op)), ls);
      && i < |Next(t, l).sups|
      && (Next(t, l).sups[i] == Idle ==> ls != [] && Promised(t, op) && Promised(Next(t, l), op))
  {
    var u := Next(s, Call(i, op));
    ReachableInv(s);
    StepKeepsInv(s, Call(i, op));
    assert u.sups[i] == FirstPc(op) && OpenCall(u.sups[i]) == Some(op);
    CallRun(u, ls, i);
    var t := After(u, ls);
    CallGoesOn(t, l, i);
    if Next(t, l).sups[i] == Idle {
      ReturnSteps(t, l, i, op);
      assert SupAgrees(t.sups[i], t.st) && ThreadAgrees(t.sups[i], t.worker);
    }
  }

  lemma CallOnlyReturnsLater(s: State, i: nat, op: Op)
    requires Enabled(s, Call(i, op))
    ensures i < |Next(s, Call(i, op)).sups| && Next(s, Call(i, op)).sups[i] != Idle
  {
  }

  /** is_paused() is told its answer only where it looks at the state, with the status mutex
      held, and is told whether that is PAUSED. */
  lemma ToldWhereItLooks(s: State, l: Label, i: nat)
    requires Reachable(s) && Enabled(s, l) && i < |s.sups| && !s.sups[i].Told?
    requires i < |Next(s, l).sups| && Next(s, l).sups[i].Told?
    ensures l.Sup? && l.i == i && s.sups[i] == Body(IsPaused) && s.inner == Held(Supervisor(i), 1)
    ensures Next(s, l).sups[i].paused <==> s.st == Paused
  {
    ReachableInv(s);
    assert Possible(s.sups[i]);
    match l
    case Work(shouldExit, woken) => WorkerStaysThere(s, shouldExit, woken);
    case Sup(j, woken) => SupKeepsOthers(s, j, woken);
    case _ =>
  }
}
