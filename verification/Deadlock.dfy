/** Calls that can never return: a set of states that no step leaves, for any number of
    supervisors, any calls and any should_exit(); and where such calls end up. Module
    Returning shows that every other call can return. */
module Deadlock {
  import opened TaskStatus
  import opened Handshake
  import opened Invariants
  import opened Safety

  /** The worker is in wait_to_run() or on its way there, past the loop guard. */
  predicate GoesToWait(pc: WorkerPc) {
    pc.ExitTest? || pc.AskExit? || InWait(pc)
  }

  /** The worker can still come to see a request. Once m_should_exit is up it leaves its
      loop at the next guard, so it has to be past that. */
  predicate CanAnswer(s: State) {
    Serving(s.worker) && (s.flag ==> GoesToWait(s.worker))
  }

  /** The worker has the status mutex, is about to read RUNNING, and will then leave. */
  predicate PassesBy(s: State) {
    s.flag && s.worker.WaitBody? && s.st == Running
  }

  /** Every supervisor but i queues for i's mutex. */
  predicate AllQueue(s: State, i: nat) {
    forall j :: 0 <= j < |s.sups| && j != i ==> s.sups[j].LockOuter?
  }

  /** The worker will never end while supervisor i joins it: it wants i's mutex for a
      graceful_exit() of its own; or nobody can raise m_should_exit any more; or it is
      parked, or will be, and nobody can change the state. */
  predicate NeverEnds(s: State, i: nat) {
    || s.worker.ExitFlag? || s.worker.ExitLockOuter?
    || (!s.flag && s.worker != Done && AllQueue(s, i))
    || (s.st == Paused && GoesToWait(s.worker))
  }

  /** Supervisor i holds m_mutex_pause_resume in a call that will never return. */
  predicate Lost(s: State, i: nat) {
    && s.crash.None? && i < |s.sups| && s.outer == Held(Supervisor(i), 1)
    && match s.sups[i]
       case LockInner(op) => op.Ask? && RequestEntry(s.st, op.request).Asks? && (!CanAnswer(s) || PassesBy(s))
       case Body(op) => op.Ask? && RequestEntry(s.st, op.request).Asks? && !CanAnswer(s)
       case Sleep(r) => s.st == Requested(r) && !CanAnswer(s)
       case Reacquire(r) => s.st == Requested(r) && !CanAnswer(s)
       case Retest(r) => s.st == Requested(r) && !CanAnswer(s)
       case JoinTest => s.worker != NoThread && NeverEnds(s, i)
       case JoinWait => NeverEnds(s, i)
       case _ => false
  }

  // ----- no step leaves the set

  lemma LostInExit(s: State, woken: set<Thread>, i: nat)
    requires Inv(s) && Lost(s, i) && InExit(s.worker) && Enabled(s, Work(false, woken))
    ensures Lost(ExitStep(s, woken), i)
  {
  }

  lemma LostInWait(s: State, woken: set<Thread>, i: nat)
    requires Inv(s) && Lost(s, i) && InWait(s.worker) && Enabled(s, Work(false, woken))
    ensures Lost(WaitStep(s, woken), i)
  {
    assert !RequestOwned(s, Pause) || AwaitsAnswer(s.sups[i], Pause);
    assert !RequestOwned(s, Run) || AwaitsAnswer(s.sups[i], Run);
  }

  lemma LostInLoop(s: State, shouldExit: bool, i: nat)
    requires Inv(s) && Lost(s, i) && !InExit(s.worker) && !InWait(s.worker) && Enabled(s, Work(shouldExit, {}))
    ensures Lost(LoopStep(s, shouldExit), i)
  {
  }

  lemma LostWork(s: State, shouldExit: bool, woken: set<Thread>, i: nat)
    requires Inv(s) && Lost(s, i) && Enabled(s, Work(shouldExit, woken))
    ensures Lost(WorkerStep(s, shouldExit, woken), i)
  {
    if InExit(s.worker) {
      LostInExit(s, woken, i);
    } else if InWait(s.worker) {
      LostInWait(s, woken, i);
    } else {
      LostInLoop(s, shouldExit, i);
    }
  }

  /** While supervisor i has the outer mutex another one can raise m_should_exit and ask
      is_paused(), and that is all. */
  lemma BystanderStep(s: State, j: nat, woken: set<Thread>, i: nat)
    requires Inv(s) && Enabled(s, Sup(j, woken)) && j != i && s.outer == Held(Supervisor(i), 1)
    ensures !s.sups[j].LockOuter?
    ensures
      var s' := SupStep(s, j, woken);
      && |s'.sups| == |s.sups|
      && s' == s.(sups := s.sups[j := s'.sups[j]], inner := s'.inner, flag := s'.flag)
      && (s'.flag <==> s.flag || s.sups[j].SetFlag?)
  {
    assert !SupHoldsOuter(s.sups[j]) && Possible(s.sups[j]);
  }

  lemma LostBystander(s: State, j: nat, woken: set<Thread>, i: nat)
    requires Inv(s) && Lost(s, i) && Enabled(s, Sup(j, woken)) && j != i
    ensures Lost(SupStep(s, j, woken), i)
  {
    BystanderStep(s, j, woken, i);
  }

  lemma LostOwner(s: State, woken: set<Thread>, i: nat)
    requires Inv(s) && Lost(s, i) && Enabled(s, Sup(i, woken))
    ensures Lost(SupStep(s, i, woken), i)
  {
    assert !SupHoldsInner(s.sups[i]) || !s.worker.WaitBody?;
  }

  lemma LostStep(s: State, l: Label, i: nat)
    requires Inv(s) && Lost(s, i) && Enabled(s, l)
    ensures Lost(Next(s, l), i)
  {
    match l
    case Work(shouldExit, woken) => LostWork(s, shouldExit, woken, i);
    case Sup(j, woken) =>
      if j == i {
        LostOwner(s, woken, i);
      } else {
        LostBystander(s, j, woken, i);
      }
    case _ =>
  }

  /** A lost call never returns, whatever anyone does: not by time-outs, not by the calls
      of other supervisors, not by should_exit(). */
  lemma {:induction false} LostForever(s: State, ls: seq<Label>, i: nat)
    requires Inv(s) && Lost(s, i) && Runs(s, ls)
    ensures Lost(After(s, ls), i)
    decreases |ls|
  {
    if ls != [] {
      LostStep(s, ls[0], i);
      StepKeepsInv(s, ls[0]);
      LostForever(Next(s, ls[0]), ls[1..], i);
    }
  }

  lemma QueueStep(s: State, l: Label, i: nat, j: nat)
    requires Inv(s) && Lost(s, i) && Enabled(s, l) && j < |s.sups| && s.sups[j].LockOuter?
    ensures j < |Next(s, l).sups| && Next(s, l).sups[j] == s.sups[j]
  {
    if l.Sup? && l.i != i {
      BystanderStep(s, l.i, l.woken, i);
    }
  }

  /** Nor does any call that queues for the mutex of a lost one. */
  lemma {:induction false} QueuedForever(s: State, ls: seq<Label>, i: nat, j: nat)
    requires Inv(s) && Lost(s, i) && Runs(s, ls) && j < |s.sups| && s.sups[j].LockOuter?
    ensures j < |After(s, ls).sups| && After(s, ls).sups[j] == s.sups[j]
    decreases |ls|
  {
    if ls != [] {
      QueueStep(s, ls[0], i, j);
      LostStep(s, ls[0], i);
      StepKeepsInv(s, ls[0]);
      QueuedForever(Next(s, ls[0]), ls[1..], i, j);
    }
  }

  // ----- where lost calls end up

  /** No thread can take a step of its own: only a time-out, a spurious wake-up or a new
      call could change anything. */
  ghost predicate Stalled(s: State) {
    forall l :: Enabled(s, l) ==> !l.Work? && !l.Sup?
  }

  /** Everyone but supervisor i is outside the management calls or queues for i's mutex. */
  predicate OthersQueue(s: State, i: nat) {
    forall j :: 0 <= j < |s.sups| && j != i ==> s.sups[j].Idle? || s.sups[j].LockOuter?
  }

  /** i waits in the condition variable for a worker that is gone or blocked, or joins one
      that is blocked or parked. */
  predicate AtRest(s: State, i: nat)
    requires i < |s.sups|
  {
    || (s.sups[i].Sleep? && Supervisor(i) in s.waiters
        && (s.worker.NoThread? || s.worker.Done? || s.worker.ExitLockOuter?))
    || (s.sups[i].JoinWait? && (s.worker.ExitLockOuter? || Worker in s.waiters))
  }

  lemma ReadyIsEnabled(s: State, i: nat)
    requires s.crash.None?
    ensures WorkerReady(s) ==> Enabled(s, Work(false, s.waiters))
    ensures i < |s.sups| && SupReady(s, i) ==> Enabled(s, Sup(i, s.waiters))
  {
  }

  lemma StalledThreads(s: State)
    requires Stalled(s) && s.crash.None?
    ensures !WorkerReady(s)
    ensures forall i :: 0 <= i < |s.sups| ==> !SupReady(s, i)
  {
    ReadyIsEnabled(s, 0);
    forall i | 0 <= i < |s.sups|
      ensures !SupReady(s, i)
    {
      ReadyIsEnabled(s, i);
    }
  }

  /** In a stall no one holds the status mutex. */
  lemma StalledInnerFree(s: State)
    requires Inv(s) && s.crash.None? && !WorkerReady(s)
    requires forall i :: 0 <= i < |s.sups| ==> !SupReady(s, i)
    ensures s.inner.Free?
  {
    if s.inner.Held? && s.inner.owner.Supervisor? {
      assert SupHoldsInner(s.sups[s.inner.owner.id]);
      assert SupReady(s, s.inner.owner.id);
    }
  }

  /** In a stall within a call, the outer mutex has an owner, a supervisor at rest. */
  lemma StalledOwner(s: State) returns (i: nat)
    requires Inv(s) && s.crash.None? && !AllIdle(s) && s.inner.Free? && !WorkerReady(s)
    requires forall j :: 0 <= j < |s.sups| ==> !SupReady(s, j)
    ensures Lost(s, i) && AtRest(s, i) && OthersQueue(s, i)
  {
    var k :| 0 <= k < |s.sups| && s.sups[k] != Idle;
    assert !SupReady(s, k);
    assert s.outer.Held?;
    assert s.outer.owner != Worker;
    i := s.outer.owner.id;
    assert SupHoldsOuter(s.sups[i]) && !SupReady(s, i);
    assert s.sups[i].JoinWait? ==> s.worker != NoThread;
    assert forall t :: t in s.waiters ==> NeedsNoWakeUp(s, t);
    forall j | 0 <= j < |s.sups| && j != i
      ensures s.sups[j].Idle? || s.sups[j].LockOuter?
    {
      assert !SupReady(s, j) && !SupHoldsOuter(s.sups[j]);
    }
  }

  /** Deadlock: inside some call, all threads are stuck if and only if one supervisor's
      call is lost and at rest and the others are idle or queue behind it. */
  lemma StalledExactly(s: State)
    requires Reachable(s) && s.crash.None? && !AllIdle(s)
    ensures Stalled(s) <==> exists i :: Lost(s, i) && AtRest(s, i) && OthersQueue(s, i)
  {
    ReachableInv(s);
    if Stalled(s) {
      StalledThreads(s);
      StalledInnerFree(s);
      var i := StalledOwner(s);
    }
    if i :| Lost(s, i) && AtRest(s, i) && OthersQueue(s, i) {
      LostAtRest(s, i);
    }
  }

  lemma LostAtRest(s: State, i: nat)
    requires Inv(s) && Lost(s, i) && AtRest(s, i) && OthersQueue(s, i)
    ensures Stalled(s)
  {
    assert Worker in s.waiters ==> NeedsNoWakeUp(s, Worker);
    forall j | 0 <= j < |s.sups|
      ensures !SupReady(s, j)
    {
    }
    assert !WorkerReady(s);
  }
}
