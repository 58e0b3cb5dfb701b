/** Safety of every run: what suspend(), the exit flag and a signal guarantee. */
module Safety {
  import opened Wrappers

  import opened TaskStatus
  import opened Handshake
  import opened Invariants

  /** s is reached by some run of some number of supervisors. */
  ghost predicate Reachable(s: State) {
    exists startPaused, n, ls ::
      Runs(Init(startPaused, n), ls) && s == After(Init(startPaused, n), ls)
  }

  lemma {:induction false} RunKeepsInv(s: State, ls: seq<Label>)
    requires Inv(s) && Runs(s, ls)
    ensures Inv(After(s, ls))
    decreases |ls|
  {
    if ls != [] {
      StepKeepsInv(s, ls[0]);
      RunKeepsInv(Next(s, ls[0]), ls[1..]);
    }
  }

  lemma ReachableInv(s: State)
    requires Reachable(s)
    ensures Inv(s)
  {
    var startPaused, n, ls :|
      Runs(Init(startPaused, n), ls) && s == After(Init(startPaused, n), ls);
    InitInv(startPaused, n);
    RunKeepsInv(Init(startPaused, n), ls);
  }

  // ----- the mutexes and the condition variable

  /** The thread that label l moves, and whether that move is a condition-variable wait. */
  predicate BeginsWait(s: State, l: Label) {
    match l
    case Work(_, _) => WorkerVerdict(s) == Some(Waits)
    case Sup(i, _) =>
      && i < |s.sups|
      && (match s.sups[i]
          case Body(Ask(r)) => RequestEntry(s.st, r).Asks?
          case Retest(r) => s.st != Target(r)
          case _ => false)
    case _ => false
  }

  function Mover(l: Label): Thread {
    match l
    case Sup(i, _) => Supervisor(i)
    case WakeSup(i) => Supervisor(i)
    case Call(i, _) => Supervisor(i)
    case _ => Worker
  }

  /** Both mutexes are recursive, yet no thread ever holds one twice; so a wait, which
      gives back one lock, really frees the status mutex, and then no one holds it. */
  lemma WaitFreesMutex(s: State, l: Label)
    requires Reachable(s) && Enabled(s, l) && BeginsWait(s, l)
    ensures s.inner == Held(Mover(l), 1)
    ensures Next(s, l).inner == Free && Mover(l) in Next(s, l).waiters
  {
    ReachableInv(s);
  }

  predicate Signals(s: State, l: Label) {
    match l
    case Work(_, _) => WorkerSignals(s)
    case Sup(i, _) => i < |s.sups| && SupSignals(s, i)
    case _ => false
  }

  /** trigger_all() signals one waiter. At every signal there is at most one, so that is
      all of them. */
  lemma SignalIsBroadcast(s: State, l: Label)
    requires Reachable(s) && Enabled(s, l)
    ensures |s.waiters| <= 1
    ensures Signals(s, l) ==> l.woken == s.waiters
  {
    ReachableInv(s);
    var t := OneWaiter(s);
    AtMostOne(s.waiters, t);
    if Signals(s, l) {
      SignalEmpties(s.waiters, l.woken, t);
    }
  }

  /** A thread that still waits for a signal waits for something that has not happened:
      wait_to_run() would wait again, and a request has no answer yet. So no wake-up is
      ever missed, even if no wait timed out. */
  lemma NoLostWakeUp(s: State)
    requires Reachable(s)
    ensures Worker in s.waiters ==> s.worker == WaitSleep && WokenVerdict(s.st).Waits?
    ensures forall i: nat :: Supervisor(i) in s.waiters ==>
              i < |s.sups| && s.sups[i].Sleep? && s.st != Target(s.sups[i].r)
  {
    ReachableInv(s);
    forall u | u in s.waiters
      ensures NeedsNoWakeUp(s, u)
    {
    }
  }

  lemma AtMostOne(a: set<Thread>, t: Thread)
    requires a <= {t}
    ensures |a| <= 1
  {
    if a != {} {
      assert a == {t};
    }
  }

  // ----- requests and their answers

  /** An open request belongs to the supervisor that holds the outer mutex and is in the
      wait loop of that request. */
  lemma OpenRequestHasOwner(s: State, r: Request)
    requires Reachable(s) && s.st == Requested(r)
    ensures s.outer.Held? && s.outer.owner.Supervisor? && s.outer.depth == 1
    ensures s.outer.owner.id < |s.sups| && AwaitsAnswer(s.sups[s.outer.owner.id], r)
  {
    ReachableInv(s);
  }

  /** No assertion about the opposite request ever fires. The others fire exactly when a
      suspend or resume meets the exit state, or start() finds a thread not yet joined. */
  lemma CrashExactly(s: State, l: Label)
    requires Reachable(s) && Enabled(s, l)
    ensures Next(s, l).crash != Some(AgainstOpposite)
    ensures Next(s, l).crash == Some(AfterExit) <==>
              l.Sup? && s.sups[l.i].Body? && s.sups[l.i].op.Ask? && s.st == RequestExit
    ensures Next(s, l).crash == Some(AlreadyStarted) <==>
              l.Sup? && s.sups[l.i].Spawn? && s.worker != NoThread
  {
    ReachableInv(s);
    match l
    case Work(shouldExit, woken) => WorkerNeverCrashes(s, shouldExit, woken);
    case Sup(i, woken) => SupCrashes(s, i, woken);
    case _ =>
  }

  lemma WorkerNeverCrashes(s: State, shouldExit: bool, woken: set<Thread>)
    ensures WorkerStep(s, shouldExit, woken).crash == s.crash
  {
  }

  lemma SupCrashes(s: State, i: nat, woken: set<Thread>)
    requires Inv(s) && Enabled(s, Sup(i, woken))
    ensures
      var crash := SupStep(s, i, woken).crash;
      && crash != Some(AgainstOpposite)
      && (crash == Some(AfterExit) <==> s.sups[i].Body? && s.sups[i].op.Ask? && s.st == RequestExit)
      && (crash == Some(AlreadyStarted) <==> s.sups[i].Spawn? && s.worker != NoThread)
  {
    if s.sups[i].Body? {
      BodyKeepsAgreement(s, i, woken);
    }
  }

  /** Supervisor i takes no step in the run. */
  predicate Rests(ls: seq<Label>, i: nat) {
    forall k :: 0 <= k < |ls| ==> !(ls[k].Sup? && ls[k].i == i)
  }

  lemma AnswerKeptByStep(s: State, l: Label, i: nat, r: Request)
    requires Inv(s) && Enabled(s, l) && i < |s.sups| && AwaitsAnswer(s.sups[i], r)
    requires s.st == Target(r) && !(l.Sup? && l.i == i)
    ensures Next(s, l).st == Target(r) && i < |Next(s, l).sups| && AwaitsAnswer(Next(s, l).sups[i], r)
  {
    assert s.outer == Held(Supervisor(i), 1);
    match l
    case Work(shouldExit, woken) => AnswerKeptByWork(s, shouldExit, woken);
    case Sup(j, woken) => AnswerKeptBySup(s, j, woken);
    case _ =>
  }

  /** The worker changes the state of no request, but in a graceful_exit() of its own. */
  lemma AnswerKeptByWork(s: State, shouldExit: bool, woken: set<Thread>)
    requires (s.st == Paused || s.st == Running) && !s.worker.ExitBody?
    ensures WorkerStep(s, shouldExit, woken).st == s.st && WorkerStep(s, shouldExit, woken).sups == s.sups
  {
  }

  /** Nor does a supervisor without the outer mutex. */
  lemma AnswerKeptBySup(s: State, j: nat, woken: set<Thread>)
    requires j < |s.sups| && !SupHoldsOuter(s.sups[j]) && Possible(s.sups[j])
    ensures SupStep(s, j, woken).st == s.st && |SupStep(s, j, woken).sups| == |s.sups|
    ensures forall i :: 0 <= i < |s.sups| && i != j ==> SupStep(s, j, woken).sups[i] == s.sups[i]
  {
  }

  /** The worker's answer is still there when the supervisor looks, however long that
      takes and whatever the others do meanwhile. */
  lemma {:induction false} AnswerKept(s: State, ls: seq<Label>, i: nat, r: Request)
    requires Inv(s) && Runs(s, ls) && i < |s.sups| && AwaitsAnswer(s.sups[i], r)
    requires s.st == Target(r) && Rests(ls, i)
    ensures After(s, ls).st == Target(r)
    ensures i < |After(s, ls).sups| && AwaitsAnswer(After(s, ls).sups[i], r)
    decreases |ls|
  {
    if ls != [] {
      AnswerKeptByStep(s, ls[0], i, r);
      StepKeepsInv(s, ls[0]);
      AnswerKept(Next(s, ls[0]), ls[1..], i, r);
    }
  }

  // ----- what holds when a call returns

  lemma SupKeepsOthers(s: State, j: nat, woken: set<Thread>)
    requires j < |s.sups|
    ensures |SupStep(s, j, woken).sups| == |s.sups|
    ensures SupStep(s, j, woken).sups == s.sups[j := SupStep(s, j, woken).sups[j]]
  {
  }

  lemma CallStaysOpen(s: State, i: nat, woken: set<Thread>)
    requires i < |s.sups| && Possible(s.sups[i])
    ensures
      var s' := SupStep(s, i, woken);
      && |s'.sups| == |s.sups|
      && (s'.sups[i] == Idle || OpenCall(s'.sups[i]) == OpenCall(s.sups[i]))
  {
    if s.sups[i].Body? {
      assert SupStep(s, i, woken) == BodyStep(s, i, s.sups[i].op, woken);
    } else if AtInner(s.sups[i]) {
      assert SupStep(s, i, woken) == InnerStep(s, i);
    } else {
      assert SupStep(s, i, woken) == OuterStep(s, i);
    }
  }

  // ----- suspension

  /** Label l is the step of resume() that writes REQUEST_RUN. */
  predicate AsksToRun(s: State, l: Label) {
    l.Sup? && l.i < |s.sups| && s.sups[l.i] == Body(Ask(Run)) && RequestEntry(s.st, Run).Asks?
  }

  predicate NoneAsksToRun(s: State, ls: seq<Label>)
    requires Runs(s, ls)
    decreases |ls|
  {
    ls == [] || (!AsksToRun(s, ls[0]) && NoneAsksToRun(Next(s, ls[0]), ls[1..]))
  }

  predicate Quiet(s: State) {
    (s.st == Paused || s.st == RequestExit) && !Granted(s.worker)
  }

  lemma QuietWork(s: State, shouldExit: bool, woken: set<Thread>)
    requires Inv(s) && Enabled(s, Work(shouldExit, woken)) && Quiet(s)
    ensures Quiet(WorkerStep(s, shouldExit, woken)) && WorkerStep(s, shouldExit, woken).updates == s.updates
  {
  }

  lemma QuietSup(s: State, i: nat, woken: set<Thread>)
    requires Enabled(s, Sup(i, woken)) && Quiet(s) && !AsksToRun(s, Sup(i, woken))
    requires Possible(s.sups[i])
    ensures Quiet(SupStep(s, i, woken)) && SupStep(s, i, woken).updates == s.updates
  {
  }

  lemma QuietStep(s: State, l: Label)
    requires Inv(s) && Enabled(s, l) && Quiet(s) && !AsksToRun(s, l)
    ensures Quiet(Next(s, l)) && Next(s, l).updates == s.updates
  {
    match l
    case Work(shouldExit, woken) => QuietWork(s, shouldExit, woken);
    case Sup(i, woken) => QuietSup(s, i, woken);
    case _ =>
  }

  lemma {:induction false} QuietRun(s: State, ls: seq<Label>)
    requires Inv(s) && Quiet(s) && Runs(s, ls) && NoneAsksToRun(s, ls)
    ensures Quiet(After(s, ls)) && After(s, ls).updates == s.updates
    decreases |ls|
  {
    if ls != [] {
      QuietStep(s, ls[0]);
      StepKeepsInv(s, ls[0]);
      QuietRun(Next(s, ls[0]), ls[1..]);
    }
  }

  /** With label l the call op of supervisor i returns. */
  predicate Returns(s: State, l: Label, i: nat, op: Op) {
    && Enabled(s, l) && i < |s.sups| && OpenCall(s.sups[i]) == Some(op)
    && i < |Next(s, l).sups| && Next(s, l).sups[i] == Idle
  }

  lemma ReturnSteps(s: State, l: Label, i: nat, op: Op)
    requires Inv(s) && Returns(s, l, i, op)
    ensures l.Sup? && l.i == i
    ensures if op == IsPaused then s.sups[i].Told? else s.sups[i] == UnlockOuter(op)
  {
    assert Possible(s.sups[i]);
    match l
    case Work(shouldExit, woken) => WorkerStaysThere(s, shouldExit, woken);
    case Sup(j, woken) => SupKeepsOthers(s, j, woken);
    case _ =>
  }

  /** When suspend() returns no update() is in progress or granted, and none begins in any
      later run until some resume() asks the worker to run. */
  lemma SuspendHolds(s: State, l: Label, i: nat, ls: seq<Label>)
    requires Reachable(s) && Returns(s, l, i, Ask(Pause))
    requires Runs(Next(s, l), ls) && NoneAsksToRun(Next(s, l), ls)
    ensures s.st == Paused && !Granted(s.worker)
    ensures After(Next(s, l), ls).updates == s.updates
    ensures !After(Next(s, l), ls).worker.Updating?
  {
    ReachableInv(s);
    ReturnSteps(s, l, i, Ask(Pause));
    assert SupAgrees(s.sups[i], s.st);
    QuietStep(s, l);
    StepKeepsInv(s, l);
    QuietRun(Next(s, l), ls);
  }

  /** When resume() returns the worker has acknowledged and may run. */
  lemma ResumeHolds(s: State, l: Label, i: nat)
    requires Reachable(s) && Returns(s, l, i, Ask(Run))
    ensures s.st == Running && Next(s, l).st == Running
  {
    ReachableInv(s);
    ReturnSteps(s, l, i, Ask(Run));
    assert SupAgrees(s.sups[i], s.st);
  }

  /** When graceful_exit() returns the exit is set. */
  lemma GracefulExitHolds(s: State, l: Label, i: nat)
    requires Reachable(s) && Returns(s, l, i, GracefulExit)
    ensures s.st == RequestExit && Next(s, l).st == RequestExit
  {
    ReachableInv(s);
    ReturnSteps(s, l, i, GracefulExit);
    assert SupAgrees(s.sups[i], s.st);
  }

  /** When start() returns the thread has a worker; when join() returns it has none. */
  lemma StartAndJoinHold(s: State, l: Label, i: nat, op: Op)
    requires Reachable(s) && Returns(s, l, i, op)
    ensures op == Start ==> s.worker != NoThread && Next(s, l).worker != NoThread
    ensures op == Join ==> s.worker == NoThread && Next(s, l).worker == NoThread
  {
    ReachableInv(s);
    ReturnSteps(s, l, i, op);
    assert ThreadAgrees(s.sups[i], s.worker);
  }

  /** The steps of a start() that nobody disturbs. */
  function StartLabels(i: nat): seq<Label> {
    [Call(i, Start), Sup(i, {}), Sup(i, {}), Sup(i, {}), Sup(i, {})]
  }

  lemma OneStep(s: State, l: Label)
    requires Enabled(s, l)
    ensures Runs(s, [l]) && After(s, [l]) == Next(s, l)
  {
    assert [l][1..] == [];
    assert Runs(Next(s, l), []) && After(Next(s, l), []) == Next(s, l);
  }

  lemma TwoSteps(s: State, l: Label, m: Label)
    requires Enabled(s, l) && Enabled(Next(s, l), m)
    ensures Runs(s, [l, m]) && After(s, [l, m]) == Next(Next(s, l), m)
  {
    OneStep(s, l);
    OneStep(Next(s, l), m);
    RunsAppend(s, [l], [m]);
    assert [l, m] == [l] + [m];
  }

  lemma StartTakesMutex(s: State, i: nat)
    requires s.crash.None? && i < |s.sups| && s.sups[i] == Idle && s.outer == Free
    ensures
      var ls := [Call(i, Start), Sup(i, {})];
      Runs(s, ls) && After(s, ls) == Goto(s, i, ClearFlag).(outer := Held(Supervisor(i), 1))
  {
    TwoSteps(s, Call(i, Start), Sup(i, {}));
    assert Next(Next(s, Call(i, Start)), Sup(i, {})).sups == s.sups[i := ClearFlag];
  }

  lemma StartSpawns(s: State, i: nat)
    requires s.crash.None? && i < |s.sups| && s.sups[i] == ClearFlag && s.worker == NoThread
    ensures
      var ls := [Sup(i, {}), Sup(i, {})];
      Runs(s, ls) && After(s, ls) == Goto(s, i, UnlockOuter(Start)).(flag := false, worker := LoopTest)
  {
    TwoSteps(s, Sup(i, {}), Sup(i, {}));
    assert Next(Next(s, Sup(i, {})), Sup(i, {})).sups == s.sups[i := UnlockOuter(Start)];
  }

  lemma StartReturns(s: State, i: nat)
    requires s.crash.None? && i < |s.sups| && s.sups[i] == UnlockOuter(Start)
    ensures Runs(s, [Sup(i, {})]) && After(s, [Sup(i, {})]) == Goto(s, i, Idle).(outer := Unlocked(s.outer))
  {
    OneStep(s, Sup(i, {}));
  }

  /** start() of a thread without a worker gives it one and lowers m_should_exit; the
      state of the handshake stays what it was. */
  lemma StartRunsThrough(s: State, i: nat)
    requires s.crash.None? && i < |s.sups| && s.sups[i] == Idle && s.outer == Free && s.worker == NoThread
    ensures Runs(s, StartLabels(i))
    ensures After(s, StartLabels(i)) == s.(flag := false, worker := LoopTest)
  {
    StartTakesMutex(s, i);
    var t := Goto(s, i, ClearFlag).(outer := Held(Supervisor(i), 1));
    StartSpawns(t, i);
    var u := Goto(t, i, UnlockOuter(Start)).(flag := false, worker := LoopTest);
    StartReturns(u, i);
    RunsAppend(s, [Call(i, Start), Sup(i, {})], [Sup(i, {}), Sup(i, {})]);
    RunsAppend(s, [Call(i, Start), Sup(i, {})] + [Sup(i, {}), Sup(i, {})], [Sup(i, {})]);
    assert StartLabels(i) == [Call(i, Start), Sup(i, {})] + [Sup(i, {}), Sup(i, {})] + [Sup(i, {})];
    assert s.sups[i := ClearFlag][i := UnlockOuter(Start)][i := Idle] == s.sups;
  }

  /** A true answer of is_paused() means that no update() is running or granted at the
      moment it is read. */
  lemma IsPausedIsSafe(s: State, i: nat, woken: set<Thread>)
    requires Reachable(s) && Enabled(s, Sup(i, woken)) && s.sups[i] == Body(IsPaused)
    ensures Next(s, Sup(i, woken)).sups[i].Told?
    ensures Next(s, Sup(i, woken)).sups[i].paused <==> s.st == Paused
    ensures Next(s, Sup(i, woken)).sups[i].paused ==> !Granted(s.worker)
  {
    ReachableInv(s);
  }

  // ----- exit

  /** The worker holds a permission that it may still use to begin an update. */
  predicate MayBegin(pc: WorkerPc) {
    pc == Answered(true) || pc.AskExitAgain?
  }

  function Begins(s: State): nat {
    s.updates + if MayBegin(s.worker) then 1 else 0
  }

  lemma ExitWorkIsFinal(s: State, shouldExit: bool, woken: set<Thread>)
    requires s.st == RequestExit
    ensures WorkerStep(s, shouldExit, woken).st == RequestExit
    ensures Begins(WorkerStep(s, shouldExit, woken)) <= Begins(s)
  {
  }

  lemma ExitSupIsFinal(s: State, i: nat, woken: set<Thread>)
    requires i < |s.sups| && s.st == RequestExit
    ensures SupStep(s, i, woken).st == RequestExit && Begins(SupStep(s, i, woken)) <= Begins(s)
  {
    if s.sups[i].Body? {
      ExitBodyIsFinal(s, i, s.sups[i].op, woken);
    } else if AtInner(s.sups[i]) {
      ExitInnerIsFinal(s, i);
    } else {
      ExitOuterIsFinal(s, i);
    }
  }

  lemma ExitBodyIsFinal(s: State, i: nat, op: Op, woken: set<Thread>)
    requires i < |s.sups| && s.st == RequestExit
    ensures BodyStep(s, i, op, woken).st == RequestExit && Begins(BodyStep(s, i, op, woken)) == Begins(s)
  {
  }

  lemma ExitInnerIsFinal(s: State, i: nat)
    requires i < |s.sups| && AtInner(s.sups[i])
    ensures InnerStep(s, i).st == s.st && Begins(InnerStep(s, i)) == Begins(s)
  {
  }

  lemma ExitOuterIsFinal(s: State, i: nat)
    requires i < |s.sups| && !AtInner(s.sups[i]) && !s.sups[i].Body?
    ensures OuterStep(s, i).st == s.st && Begins(OuterStep(s, i)) <= Begins(s)
  {
    var s' := OuterStep(s, i);
    assert s'.updates == s.updates;
    assert s'.worker == s.worker || s'.worker.LoopTest? || s'.worker.NoThread?;
  }

  lemma ExitStepIsFinal(s: State, l: Label)
    requires Enabled(s, l) && s.st == RequestExit
    ensures Next(s, l).st == RequestExit && Begins(Next(s, l)) <= Begins(s)
  {
    match l
    case Work(shouldExit, woken) => ExitWorkIsFinal(s, shouldExit, woken);
    case Sup(i, woken) => ExitSupIsFinal(s, i, woken);
    case _ =>
  }

  /** The exit state is never left, not even by start(); and once it is set at most one
      more update begins, the one that wait_to_run() had already granted. */
  lemma {:induction false} ExitIsFinal(s: State, ls: seq<Label>)
    requires Runs(s, ls) && s.st == RequestExit
    ensures After(s, ls).st == RequestExit
    ensures After(s, ls).updates <= s.updates + if MayBegin(s.worker) then 1 else 0
    ensures Begins(After(s, ls)) <= Begins(s)
    decreases |ls|
  {
    if ls != [] {
      ExitStepIsFinal(s, ls[0]);
      ExitIsFinal(Next(s, ls[0]), ls[1..]);
    }
  }

  /** After exit and join a thread can be started again, by anyone and at any moment, but
      it stays in the exit state and its new worker never begins an update. */
  lemma RestartNeverUpdates(s: State, ls: seq<Label>)
    requires Reachable(s) && s.st == RequestExit && s.worker == NoThread && Runs(s, ls)
    ensures After(s, ls).st == RequestExit
    ensures After(s, ls).updates == s.updates && !After(s, ls).worker.Updating?
  {
    ReachableInv(s);
    NoRequestAfterExit(s, ls);
    QuietRun(s, ls);
    ExitIsFinal(s, ls);
  }

  /** If the exit is set while the thread is paused, no update begins any more. */
  lemma ExitFromPause(s: State, l: Label, ls: seq<Label>)
    requires Reachable(s) && Enabled(s, l) && s.st == Paused && Next(s, l).st == RequestExit
    requires Runs(Next(s, l), ls)
    ensures After(Next(s, l), ls).updates == s.updates && !After(Next(s, l), ls).worker.Updating?
  {
    ReachableInv(s);
    StepKeepsInv(s, l);
    QuietStep(s, l);
    NoRequestAfterExit(Next(s, l), ls);
    QuietRun(Next(s, l), ls);
  }

  /** Label l is a step of start(). */
  predicate Starts(s: State, l: Label) {
    l.Sup? && l.i < |s.sups| && (s.sups[l.i].ClearFlag? || s.sups[l.i].Spawn?)
  }

  predicate NoneStarts(s: State, ls: seq<Label>)
    requires Runs(s, ls)
    decreases |ls|
  {
    ls == [] || (!Starts(s, ls[0]) && NoneStarts(Next(s, ls[0]), ls[1..]))
  }

  /** The worker has already passed its last look at m_should_exit before an update. */
  function Committed(s: State): nat {
    s.updates + if s.worker.AskExitAgain? then 1 else 0
  }

  lemma FlagWork(s: State, shouldExit: bool, woken: set<Thread>)
    requires s.flag
    ensures WorkerStep(s, shouldExit, woken).flag
    ensures Committed(WorkerStep(s, shouldExit, woken)) <= Committed(s)
  {
  }

  lemma FlagSup(s: State, i: nat, woken: set<Thread>)
    requires i < |s.sups| && s.flag && !Starts(s, Sup(i, woken))
    ensures SupStep(s, i, woken).flag && Committed(SupStep(s, i, woken)) <= Committed(s)
  {
  }

  /** graceful_exit() stops the updates with its first write, before it has any mutex:
      once m_should_exit is up no update begins, but for one whose look at it is past. */
  lemma {:induction false} FlagStopsUpdates(s: State, ls: seq<Label>)
    requires s.flag && Runs(s, ls) && NoneStarts(s, ls)
    ensures After(s, ls).flag && Committed(After(s, ls)) <= Committed(s)
    ensures !s.worker.AskExitAgain? ==> After(s, ls).updates == s.updates
    decreases |ls|
  {
    UpdatesGrow(s, ls);
    if ls != [] {
      match ls[0] {
        case Work(shouldExit, woken) => FlagWork(s, shouldExit, woken);
        case Sup(i, woken) => FlagSup(s, i, woken);
        case _ =>
      }
      FlagStopsUpdates(Next(s, ls[0]), ls[1..]);
    }
  }

  lemma OverrideStep(s: State, l: Label)
    requires Enabled(s, l) && (l.Work? ==> l.shouldExit)
    ensures Next(s, l).updates == s.updates
  {
    if l.Sup? {
      SupUpdatesStay(s, l.i, l.woken);
    }
  }

  /** While an overridden should_exit() answers true no update begins, in any state. */
  lemma {:induction false} OverrideStopsUpdates(s: State, ls: seq<Label>)
    requires Runs(s, ls) && forall k :: 0 <= k < |ls| && ls[k].Work? ==> ls[k].shouldExit
    ensures After(s, ls).updates == s.updates
    decreases |ls|
  {
    if ls != [] {
      OverrideStep(s, ls[0]);
      OverrideStopsUpdates(Next(s, ls[0]), ls[1..]);
    }
  }

  lemma WorkerUpdatesGrow(s: State, shouldExit: bool, woken: set<Thread>)
    ensures s.updates <= WorkerStep(s, shouldExit, woken).updates
  {
  }

  lemma SupUpdatesStay(s: State, i: nat, woken: set<Thread>)
    requires i < |s.sups|
    ensures SupStep(s, i, woken).updates == s.updates
  {
  }

  lemma {:induction false} UpdatesGrow(s: State, ls: seq<Label>)
    requires Runs(s, ls)
    ensures s.updates <= After(s, ls).updates
    decreases |ls|
  {
    if ls != [] {
      match ls[0] {
        case Work(shouldExit, woken) => WorkerUpdatesGrow(s, shouldExit, woken);
        case Sup(i, woken) => SupUpdatesStay(s, i, woken);
        case _ =>
      }
      UpdatesGrow(Next(s, ls[0]), ls[1..]);
    }
  }

  lemma {:induction false} NoRequestAfterExit(s: State, ls: seq<Label>)
    requires Runs(s, ls) && s.st == RequestExit
    ensures NoneAsksToRun(s, ls)
    decreases |ls|
  {
    if ls != [] {
      ExitStepIsFinal(s, ls[0]);
      NoRequestAfterExit(Next(s, ls[0]), ls[1..]);
    }
  }
}
