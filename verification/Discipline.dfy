/** What a caller can do so that no call is lost, for any number of supervisors. */
module Discipline {
  import opened Wrappers

  import opened TaskStatus
  import opened Handshake
  import opened Invariants
  import opened Safety
  import opened Deadlock
  import opened Hangs
  import opened Progress
  import opened Returning

  // ----- join() after graceful_exit(), with any should_exit()

  /** The worker may still begin a graceful_exit() of its own, or wants the mutex for one. */
  predicate ExitsItself(pc: WorkerPc) {
    pc.AskExit? || pc.ExitFlag? || pc.ExitLockOuter?
  }

  predicate CallsNoMore(ls: seq<Label>, i: nat) {
    forall k :: 0 <= k < |ls| ==> !(ls[k].Call? && ls[k].i == i)
  }

  /** The join of supervisor i is over, or it joins a worker that will end. */
  predicate JoinSafe(s: State, i: nat) {
    && i < |s.sups|
    && (s.sups[i] == Idle || s.sups[i] == UnlockOuter(Join)
        || (Joining(s.sups[i]) && Ending(s) && !ExitsItself(s.worker)))
  }

  lemma JoinSafeWork(s: State, shouldExit: bool, woken: set<Thread>, i: nat)
    requires Inv(s) && JoinSafe(s, i) && Enabled(s, Work(shouldExit, woken))
    ensures JoinSafe(WorkerStep(s, shouldExit, woken), i)
  {
    WorkerStaysThere(s, shouldExit, woken);
    if Joining(s.sups[i]) {
      assert s.outer == Held(Supervisor(i), 1);
      ExitWork(s, shouldExit, woken);
    }
  }

  lemma JoinSafeSup(s: State, j: nat, woken: set<Thread>, i: nat)
    requires Inv(s) && JoinSafe(s, i) && Enabled(s, Sup(j, woken))
    ensures JoinSafe(SupStep(s, j, woken), i)
  {
    if j == i {
      assert s.sups[i].UnlockOuter? || Joining(s.sups[i]);
    } else if Joining(s.sups[i]) {
      assert s.outer == Held(Supervisor(i), 1);
      BystanderStep(s, j, woken, i);
    } else {
      SupKeepsOthers(s, j, woken);
    }
  }

  lemma JoinSafeStep(s: State, l: Label, i: nat)
    requires Inv(s) && JoinSafe(s, i) && Enabled(s, l) && !(l.Call? && l.i == i)
    ensures JoinSafe(Next(s, l), i)
  {
    match l
    case Work(shouldExit, woken) => JoinSafeWork(s, shouldExit, woken, i);
    case Sup(j, woken) => JoinSafeSup(s, j, woken, i);
    case _ =>
  }

  lemma {:induction false} JoinSafeRun(s: State, ls: seq<Label>, i: nat)
    requires Inv(s) && JoinSafe(s, i) && Runs(s, ls) && CallsNoMore(ls, i)
    ensures !Lost(After(s, ls), i)
    decreases |ls|
  {
    if ls == [] {
      assert Joining(s.sups[i]) ==> s.outer == Held(Supervisor(i), 1);
    } else {
      JoinSafeStep(s, ls[0], i);
      StepKeepsInv(s, ls[0]);
      JoinSafeRun(Next(s, ls[0]), ls[1..], i);
    }
  }

  /** join() after a finished graceful_exit() is safe for every should_exit() if and only
      if the worker is not between its look at m_should_exit and the mutex that a
      graceful_exit() of its own needs, at the moment join() has that mutex. */
  lemma JoinExactly(s: State, i: nat)
    requires Reachable(s) && s.crash.None? && Ending(s) && i < |s.sups| && Joining(s.sups[i])
    ensures (forall ls :: Runs(s, ls) && CallsNoMore(ls, i) ==> !Lost(After(s, ls), i)) <==> !ExitsItself(s.worker)
  {
    ReachableInv(s);
    assert s.outer == Held(Supervisor(i), 1);
    if !ExitsItself(s.worker) {
      forall ls | Runs(s, ls) && CallsNoMore(ls, i)
        ensures !Lost(After(s, ls), i)
      {
        JoinSafeRun(s, ls, i);
      }
    } else if s.worker.AskExit? {
      OneStep(s, Work(true, {}));
      assert Lost(After(s, [Work(true, {})]), i) && CallsNoMore([Work(true, {})], i);
    } else {
      assert Runs(s, []) && CallsNoMore([], i) && Lost(After(s, []), i);
    }
  }

  // ----- suspend() and resume(), with the default should_exit()

  predicate InRequest(pc: SupervisorPc) {
    OpenCall(pc).Some? && OpenCall(pc).value.Ask?
  }

  predicate NoneRequests(s: State) {
    forall i :: 0 <= i < |s.sups| ==> !InRequest(s.sups[i])
  }

  predicate NoneIn(s: State, op: Op) {
    forall i :: 0 <= i < |s.sups| ==> OpenCall(s.sups[i]) != Some(op)
  }

  predicate BeginsExit(l: Label) {
    l.Call? && l.op.GracefulExit?
  }

  /** suspend() and resume() begin with a started thread and before any graceful_exit();
      graceful_exit() begins while no suspend() or resume() is open. exited says whether a
      graceful_exit() has begun. */
  predicate PoliteCall(s: State, l: Label, exited: bool) {
    && (l.Call? && l.op.Ask? ==> !exited && s.worker != NoThread)
    && (BeginsExit(l) ==> NoneRequests(s))
  }

  predicate Polite(s: State, ls: seq<Label>, exited: bool)
    requires Runs(s, ls)
    decreases |ls|
  {
    ls == [] || (PoliteCall(s, ls[0], exited) && Polite(Next(s, ls[0]), ls[1..], exited || BeginsExit(ls[0])))
  }

  /** Before the first graceful_exit() m_should_exit is down; then nobody asks any more. */
  predicate PoliteState(s: State, exited: bool) {
    && !InExit(s.worker)
    && (exited || s.worker == NoThread ==> NoneRequests(s))
    && (!exited ==> !s.flag && s.st != RequestExit && s.worker != Done && NoneIn(s, GracefulExit))
  }

  lemma PoliteWork(s: State, woken: set<Thread>, exited: bool)
    requires PoliteState(s, exited) && Enabled(s, Work(false, woken))
    ensures PoliteState(WorkerStep(s, false, woken), exited)
  {
    WorkerStaysThere(s, false, woken);
    assert WorkerStep(s, false, woken).flag == s.flag;
  }

  /** What one step of a call can do to the worker, the flag and the exit state. */
  lemma CallEffects(s: State, i: nat, woken: set<Thread>)
    requires i < |s.sups| && SupReady(s, i)
    ensures
      var s' := SupStep(s, i, woken);
      && (s'.worker == s.worker || (s.worker == NoThread && s'.worker == LoopTest)
          || (s.worker == Done && s'.worker == NoThread))
      && (OpenCall(s.sups[i]) != Some(GracefulExit) ==>
            (s'.flag ==> s.flag) && (s'.st == RequestExit ==> s.st == RequestExit))
  {
  }

  lemma PoliteSup(s: State, i: nat, woken: set<Thread>, exited: bool)
    requires Inv(s) && PoliteState(s, exited) && Enabled(s, Sup(i, woken))
    ensures PoliteState(SupStep(s, i, woken), exited)
  {
    SupKeepsOthers(s, i, woken);
    CallStaysOpen(s, i, woken);
    CallEffects(s, i, woken);
  }

  lemma PoliteStep(s: State, l: Label, exited: bool)
    requires Inv(s) && PoliteState(s, exited) && Enabled(s, l) && PoliteCall(s, l, exited)
    requires !(l.Work? && l.shouldExit)
    ensures PoliteState(Next(s, l), exited || BeginsExit(l))
  {
    match l
    case Work(_, woken) => PoliteWork(s, woken, exited);
    case Sup(i, woken) => PoliteSup(s, i, woken, exited);
    case _ =>
  }

  predicate Exited(ls: seq<Label>, exited: bool) {
    exited || exists k :: 0 <= k < |ls| && BeginsExit(ls[k])
  }

  lemma {:induction false} PoliteRun(s: State, ls: seq<Label>, exited: bool)
    requires Inv(s) && PoliteState(s, exited) && Runs(s, ls) && DefaultExit(ls) && Polite(s, ls, exited)
    ensures PoliteState(After(s, ls), Exited(ls, exited))
    decreases |ls|
  {
    if ls != [] {
      PoliteStep(s, ls[0], exited);
      StepKeepsInv(s, ls[0]);
      PoliteRun(Next(s, ls[0]), ls[1..], exited || BeginsExit(ls[0]));
      assert Exited(ls, exited) <==> Exited(ls[1..], exited || BeginsExit(ls[0]));
    }
  }

  /** Nobody's suspend() or resume() is ever lost or refused, as long as they begin after
      start() and before any graceful_exit(), and no graceful_exit() begins while one of
      them is open: each that owns the mutex can return. */
  lemma PoliteAsksReturn(startPaused: bool, n: nat, ls: seq<Label>, i: nat)
    requires Runs(Init(startPaused, n), ls) && DefaultExit(ls) && Polite(Init(startPaused, n), ls, false)
    requires After(Init(startPaused, n), ls).crash.None?
    requires i < |After(Init(startPaused, n), ls).sups| && InRequest(After(Init(startPaused, n), ls).sups[i])
    ensures !Lost(After(Init(startPaused, n), ls), i) && !Fails(After(Init(startPaused, n), ls), i)
    ensures SupHoldsOuter(After(Init(startPaused, n), ls).sups[i]) ==> MayReturn(After(Init(startPaused, n), ls), i)
  {
    var s := After(Init(startPaused, n), ls);
    assert Reachable(s);
    InitInv(startPaused, n);
    PoliteRun(Init(startPaused, n), ls, false);
    assert !Lost(s, i) && !Fails(s, i);
    if SupHoldsOuter(s.sups[i]) {
      ReturnsExactly(s, i);
    }
  }
}
