/** The converse of module Deadlock: a call that owns m_mutex_pause_resume, is not lost and
    will not fail an assertion can return, and how. So the set of lost calls is exact. */
module Returning {
  import opened TaskStatus
  import opened Handshake
  import opened Invariants
  import opened Safety
  import opened Deadlock
  import opened Hangs
  import opened Progress

  /** Supervisor i owns the outer mutex and its call will fail an assertion. */
  predicate Fails(s: State, i: nat) {
    && i < |s.sups|
    && match s.sups[i]
       case LockInner(op) => op.Ask? && s.st == RequestExit
       case Body(op) => op.Ask? && s.st == RequestExit
       case ClearFlag => s.worker != NoThread
       case Spawn => s.worker != NoThread
       case _ => false
  }

  /** Supervisor i owns the outer mutex, in a call that is neither lost nor about to fail. */
  ghost predicate Hopeful(s: State, i: nat) {
    s.crash.None? && i < |s.sups| && SupHoldsOuter(s.sups[i]) && !Lost(s, i) && !Fails(s, i)
  }

  // ----- how near the call is to its return

  /** The steps of supervisor i itself. */
  function OwnerRank(s: State, i: nat): nat
    requires i < |s.sups|
  {
    match s.sups[i]
    case LockInner(_) => 9
    case Body(_) => 8
    case Sleep(r) => if s.st == Target(r) then 4 else 6
    case Reacquire(r) => if s.st == Target(r) then 3 else 6
    case Retest(r) => if s.st == Target(r) then 2 else 7
    case JoinTest | ClearFlag => 3
    case JoinWait | Spawn => 2
    case UnlockOuter(_) => 1
    case _ => 0
  }

  /** The steps of the worker that supervisor i waits for. */
  function WorkerRank(s: State, i: nat): nat
    requires i < |s.sups|
  {
    match s.sups[i]
    case LockInner(_) => if s.inner == Held(Worker, 1) then 1 else 0
    case Sleep(_) => AckRank(s.worker)
    case Reacquire(r) =>
      if s.st == Requested(r) then AckRank(s.worker) else if s.inner == Held(Worker, 1) then 1 else 0
    case JoinWait => if s.flag then ExitRank(s.worker) else 20
    case _ => 0
  }

  /** Another supervisor has the status mutex. */
  predicate OtherInside(s: State, i: nat) {
    s.inner.Held? && s.inner.owner.Supervisor? && s.inner.owner.id != i
  }

  predicate Closer(s: State, s': State, i: nat)
    requires i < |s.sups| && i < |s'.sups|
  {
    || OwnerRank(s', i) < OwnerRank(s, i)
    || (OwnerRank(s', i) == OwnerRank(s, i) && WorkerRank(s', i) < WorkerRank(s, i))
    || (OwnerRank(s', i) == OwnerRank(s, i) && WorkerRank(s', i) == WorkerRank(s, i)
        && OtherInside(s, i) && !OtherInside(s', i))
  }

  predicate Joining(pc: SupervisorPc) {
    pc.JoinTest? || pc.JoinWait?
  }

  /** Supervisor i joins, and it takes a graceful_exit() for the worker to end. */
  predicate NeedsExit(s: State, i: nat)
    requires i < |s.sups|
  {
    Joining(s.sups[i]) && !s.flag
  }

  /** Supervisor i has returned in s', or is nearer to it than in s. */
  ghost predicate Comes(s: State, s': State, i: nat)
    requires i < |s.sups|
  {
    && i < |s'.sups|
    && (s'.sups[i] == Idle
        || (Hopeful(s', i) && Closer(s, s', i) && (NeedsExit(s', i) ==> NeedsExit(s, i))))
  }

  // ----- a step that brings it nearer

  lemma OtherMoves(s: State, i: nat) returns (l: Label)
    requires Inv(s) && Hopeful(s, i) && OtherInside(s, i)
    ensures Enabled(s, l) && l.Sup? && Comes(s, Next(s, l), i)
  {
    InnerOwner(s);
    var k := s.inner.owner.id;
    l := Sup(k, {});
    BystanderStep(s, k, {}, i);
    assert Next(s, l).sups[k].Told?;
  }

  lemma BodyMoves(s: State, i: nat)
    requires Inv(s) && Hopeful(s, i) && s.sups[i].Body?
    ensures Comes(s, BodyStep(s, i, s.sups[i].op, s.waiters), i)
  {
    assert !RequestOwned(s, Pause) && !RequestOwned(s, Run);
  }

  lemma InnerMoves(s: State, i: nat)
    requires Inv(s) && Hopeful(s, i) && AtInner(s.sups[i]) && SupReady(s, i)
    requires !(s.sups[i].Sleep? && s.st == Requested(s.sups[i].r))
    requires !(s.sups[i].Reacquire? && s.st == Requested(s.sups[i].r))
    ensures Comes(s, InnerStep(s, i), i)
  {
  }

  lemma OuterMoves(s: State, i: nat)
    requires Inv(s) && Hopeful(s, i) && !AtInner(s.sups[i]) && !s.sups[i].Body? && SupReady(s, i)
    ensures Comes(s, OuterStep(s, i), i)
  {
    assert forall j :: 0 <= j < |s.sups| && j != i ==> OuterStep(s, i).sups[j] == s.sups[j];
  }

  /** Nobody is in the way of a worker that needs no wake-up. */
  lemma WorkerCanMove(s: State, i: nat)
    requires Inv(s) && s.crash.None? && i < |s.sups| && !SupHoldsInner(s.sups[i]) && !OtherInside(s, i)
    requires Serving(s.worker) && Worker !in s.waiters
    ensures Enabled(s, Work(false, s.waiters))
  {
  }

  lemma WorkLeavesSups(s: State, woken: set<Thread>)
    requires !InExit(s.worker)
    ensures
      var s' := WorkerStep(s, false, woken);
      s'.sups == s.sups && s'.outer == s.outer && s'.crash == s.crash && s'.flag == s.flag
  {
  }

  lemma AskWork(s: State, r: Request)
    requires s.st == Requested(r) && CanAnswer(s) && WorkerAgrees(s) && WorkerReady(s)
    ensures
      var s' := WorkerStep(s, false, s.waiters);
      || s'.st == Target(r)
      || (s'.st == Requested(r) && CanAnswer(s') && AckRank(s'.worker) < AckRank(s.worker))
  {
  }

  /** The request is open: the worker's next step answers it or comes nearer to that. */
  lemma AskMoves(s: State, i: nat, r: Request)
    requires Inv(s) && Hopeful(s, i) && (s.sups[i] == Sleep(r) || s.sups[i] == Reacquire(r))
    requires s.st == Requested(r) && !OtherInside(s, i)
    ensures Enabled(s, Work(false, s.waiters)) && Comes(s, WorkerStep(s, false, s.waiters), i)
  {
    assert s.outer == Held(Supervisor(i), 1);
    assert Worker in s.waiters ==> NeedsNoWakeUp(s, Worker);
    WorkerCanMove(s, i);
    WorkLeavesSups(s, s.waiters);
    AskWork(s, r);
  }

  /** Supervisor i wants the status mutex, which the worker gives back with its next step. */
  lemma InsideMoves(s: State, i: nat)
    requires Inv(s) && Hopeful(s, i) && s.inner == Held(Worker, 1)
    requires s.sups[i].LockInner? || (s.sups[i].Reacquire? && s.st == Target(s.sups[i].r))
    ensures Enabled(s, Work(false, s.waiters)) && Comes(s, WorkerStep(s, false, s.waiters), i)
  {
    assert s.st != RequestPause && s.st != RequestRun;
  }

  lemma JoinWork(s: State)
    requires s.flag && Serving(s.worker) && WorkerAgrees(s) && WorkerReady(s)
    requires s.st != RequestPause && s.st != RequestRun && !(s.st == Paused && GoesToWait(s.worker))
    ensures
      var s' := WorkerStep(s, false, s.waiters);
      && s'.st == s.st && !InExit(s'.worker) && !(s.st == Paused && GoesToWait(s'.worker))
      && ExitRank(s'.worker) < ExitRank(s.worker)
  {
  }

  /** join() waits, and m_should_exit is up: the worker comes nearer to its end. */
  lemma JoinMoves(s: State, i: nat)
    requires Inv(s) && Hopeful(s, i) && s.sups[i].JoinWait? && s.worker != Done && s.flag && !OtherInside(s, i)
    ensures Enabled(s, Work(false, s.waiters)) && Comes(s, WorkerStep(s, false, s.waiters), i)
  {
    assert s.outer == Held(Supervisor(i), 1);
    assert ThreadAgrees(s.sups[i], s.worker);
    assert Worker in s.waiters ==> NeedsNoWakeUp(s, Worker);
    assert s.st != RequestPause && s.st != RequestRun;
    WorkerCanMove(s, i);
    WorkLeavesSups(s, s.waiters);
    JoinWork(s);
  }

  // ----- raising m_should_exit for a join()

  /** No time-out and no spurious wake-up, and should_exit() answers false. */
  predicate Plain(ls: seq<Label>) {
    NoTimeouts(ls) && DefaultExit(ls)
  }

  predicate NoCalls(ls: seq<Label>) {
    forall k :: 0 <= k < |ls| ==> !ls[k].Call?
  }

  /** The steps of supervisor k to the write of m_should_exit in a graceful_exit(). */
  function RaiseRank(pc: SupervisorPc): nat {
    match pc
    case SetFlag => 1
    case Idle => 2
    case Told(_) => 3
    case Body(_) => 4
    case _ => 5
  }

  /** Supervisor i joins, m_should_exit is down, and supervisor k can raise it. */
  ghost predicate CanRaise(s: State, i: nat, k: nat) {
    && Inv(s) && Hopeful(s, i) && s.sups[i].JoinWait? && !s.flag && s.worker != Done
    && k < |s.sups| && k != i && !s.sups[k].LockOuter?
  }

  lemma RaiserStep(s: State, i: nat, k: nat)
    requires CanRaise(s, i, k) && !s.sups[k].Idle? && SupReady(s, k)
    ensures Enabled(s, Sup(k, {}))
    ensures
      var s' := SupStep(s, k, {});
      && i < |s'.sups| && s'.sups[i].JoinWait? && Hopeful(s', i)
      && if s.sups[k].SetFlag? then s'.flag else
           !s'.flag && s'.worker != Done && k < |s'.sups| && !s'.sups[k].LockOuter?
           && RaiseRank(s'.sups[k]) < RaiseRank(s.sups[k])
  {
    assert !SupHoldsOuter(s.sups[k]) && Possible(s.sups[k]);
    BystanderStep(s, k, {}, i);
  }

  /** The worker gives back the status mutex that supervisor k wants. */
  lemma RaiserWaits(s: State, i: nat, k: nat)
    requires CanRaise(s, i, k) && s.inner == Held(Worker, 1)
    ensures Enabled(s, Work(false, s.waiters))
    ensures
      var s' := WorkerStep(s, false, s.waiters);
      s'.sups == s.sups && s'.inner == Free && Hopeful(s', i) && !s'.flag && s'.worker != Done
  {
    assert s.st != RequestPause && s.st != RequestRun;
    WorkLeavesSups(s, s.waiters);
  }

  /** The step that brings the write of m_should_exit nearer. */
  lemma RaiserMoves(s: State, i: nat, k: nat) returns (l: Label)
    requires CanRaise(s, i, k) && !(s.inner.Held? && s.inner.owner.Supervisor? && s.sups[k].LockInner?)
    ensures Enabled(s, l) && Plain([l])
    ensures
      var s' := Next(s, l);
      && i < |s'.sups| && s'.sups[i].JoinWait? && Hopeful(s', i)
      && (!s'.flag ==>
            && CanRaise(s', i, k)
            && (RaiseRank(s'.sups[k]) < RaiseRank(s.sups[k])
                || (s'.sups[k] == s.sups[k] && s.inner == Held(Worker, 1) && s'.inner == Free)))
  {
    if s.sups[k].Idle? {
      l := Call(k, GracefulExit);
    } else if SupReady(s, k) {
      RaiserStep(s, i, k);
      l := Sup(k, {});
    } else {
      assert !SupHoldsOuter(s.sups[k]) && Possible(s.sups[k]);
      RaiserWaits(s, i, k);
      l := Work(false, s.waiters);
    }
    StepKeepsInv(s, l);
  }

  lemma {:induction false} RaiseFlag(s: State, i: nat, k: nat) returns (ls: seq<Label>)
    requires CanRaise(s, i, k)
    ensures Runs(s, ls) && Plain(ls)
    ensures
      var t := After(s, ls);
      Inv(t) && t.flag && i < |t.sups| && t.sups[i].JoinWait? && Hopeful(t, i)
    decreases RaiseRank(s.sups[k]), if s.inner == Held(Worker, 1) then 1 else 0
  {
    if s.inner.Held? && s.inner.owner.Supervisor? && s.sups[k].LockInner? {
      InnerOwner(s);
      assert s.inner == Held(Supervisor(s.inner.owner.id), 1);
      ls := RaiseFlag(s, i, s.inner.owner.id);
    } else {
      var l := RaiserMoves(s, i, k);
      StepKeepsInv(s, l);
      var rest := [];
      if !Next(s, l).flag {
        rest := RaiseFlag(Next(s, l), i, k);
      }
      ls := [l] + rest;
      assert ls[0] == l && ls[1..] == rest;
    }
  }

  lemma Raiser(s: State, i: nat) returns (k: nat)
    requires Inv(s) && Hopeful(s, i) && s.sups[i].JoinWait? && s.worker != Done && !s.flag
    ensures CanRaise(s, i, k)
  {
    assert s.outer == Held(Supervisor(i), 1);
    k :| k < |s.sups| && k != i && !s.sups[k].LockOuter?;
  }

  lemma Raised(s: State, i: nat) returns (ls: seq<Label>)
    requires Inv(s) && Hopeful(s, i) && s.sups[i].JoinWait? && s.worker != Done && !s.flag
    ensures Runs(s, ls) && Plain(ls)
    ensures
      var t := After(s, ls);
      && Inv(t) && i < |t.sups| && Hopeful(t, i)
      && OwnerRank(t, i) == OwnerRank(s, i) && WorkerRank(t, i) < WorkerRank(s, i)
  {
    var k := Raiser(s, i);
    ls := RaiseFlag(s, i, k);
  }

  // ----- the whole way

  /** A step that brings supervisor i's call nearer to its return, unless it is a join
      that still needs m_should_exit. */
  lemma Helps(s: State, i: nat) returns (l: Label)
    requires Inv(s) && Hopeful(s, i) && !(s.sups[i].JoinWait? && s.worker != Done && !s.flag)
    ensures Enabled(s, l) && Plain([l]) && !l.Call? && Comes(s, Next(s, l), i)
  {
    if OtherInside(s, i) {
      l := OtherMoves(s, i);
    } else if (s.sups[i].Sleep? || s.sups[i].Reacquire?) && s.st == Requested(s.sups[i].r) {
      AskMoves(s, i, s.sups[i].r);
      l := Work(false, s.waiters);
    } else if SupReady(s, i) {
      SelfMoves(s, i);
      l := Sup(i, s.waiters);
    } else {
      BlockedMoves(s, i);
      l := Work(false, s.waiters);
    }
  }

  lemma SelfMoves(s: State, i: nat)
    requires Inv(s) && Hopeful(s, i) && SupReady(s, i)
    requires !((s.sups[i].Sleep? || s.sups[i].Reacquire?) && s.st == Requested(s.sups[i].r))
    ensures Enabled(s, Sup(i, s.waiters)) && Comes(s, SupStep(s, i, s.waiters), i)
  {
    ReadyIsEnabled(s, i);
    if s.sups[i].Body? {
      BodyMoves(s, i);
    } else if AtInner(s.sups[i]) {
      InnerMoves(s, i);
    } else {
      OuterMoves(s, i);
    }
  }

  lemma BlockedMoves(s: State, i: nat)
    requires Inv(s) && Hopeful(s, i) && !SupReady(s, i) && !OtherInside(s, i)
    requires !((s.sups[i].Sleep? || s.sups[i].Reacquire?) && s.st == Requested(s.sups[i].r))
    requires !(s.sups[i].JoinWait? && s.worker != Done && !s.flag)
    ensures Enabled(s, Work(false, s.waiters)) && Comes(s, WorkerStep(s, false, s.waiters), i)
  {
    if s.sups[i].JoinWait? {
      JoinMoves(s, i);
    } else {
      assert Supervisor(i) in s.waiters ==> NeedsNoWakeUp(s, Supervisor(i));
      assert SupAgrees(s.sups[i], s.st);
      InsideMoves(s, i);
    }
  }

  /** Supervisor i is between calls at the end of the run. */
  predicate HasReturned(s: State, ls: seq<Label>, i: nat)
    requires Runs(s, ls)
  {
    i < |After(s, ls).sups| && After(s, ls).sups[i] == Idle
  }

  /** A call that owns the outer mutex and is not lost can return; and but for a join that
      needs a graceful_exit(), without any new call. */
  lemma {:induction false} CanReturn(s: State, i: nat) returns (ls: seq<Label>)
    requires Inv(s) && Hopeful(s, i)
    ensures Runs(s, ls) && Plain(ls) && HasReturned(s, ls, i)
    ensures !NeedsExit(s, i) ==> NoCalls(ls)
    decreases OwnerRank(s, i), WorkerRank(s, i), OtherInside(s, i)
  {
    if s.sups[i].JoinWait? && s.worker != Done && !s.flag {
      ls := CanJoin(s, i);
    } else {
      var l := Helps(s, i);
      StepKeepsInv(s, l);
      var rest := [];
      if Next(s, l).sups[i] != Idle {
        rest := CanReturn(Next(s, l), i);
      }
      ls := [l] + rest;
      assert ls[0] == l && ls[1..] == rest;
    }
  }

  lemma {:induction false} CanJoin(s: State, i: nat) returns (ls: seq<Label>)
    requires Inv(s) && Hopeful(s, i) && s.sups[i].JoinWait? && s.worker != Done && !s.flag
    ensures Runs(s, ls) && Plain(ls) && HasReturned(s, ls, i)
    decreases OwnerRank(s, i), WorkerRank(s, i), OtherInside(s, i), 0
  {
    var first := Raised(s, i);
    var rest := CanReturn(After(s, first), i);
    RunsAppend(s, first, rest);
    ls := first + rest;
  }

  // ----- the exact condition

  lemma FailsStep(s: State, l: Label, i: nat)
    requires Inv(s) && Fails(s, i) && Enabled(s, l)
    ensures Fails(Next(s, l), i)
  {
    assert s.outer == Held(Supervisor(i), 1);
    match l
    case Work(shouldExit, woken) => FailsWork(s, shouldExit, woken, i);
    case Sup(j, woken) =>
      if j == i {
        FailsOwner(s, woken, i);
      } else {
        BystanderStep(s, j, woken, i);
      }
    case _ =>
  }

  lemma FailsWork(s: State, shouldExit: bool, woken: set<Thread>, i: nat)
    requires Fails(s, i)
    ensures Fails(WorkerStep(s, shouldExit, woken), i)
  {
    WorkerStaysThere(s, shouldExit, woken);
    if s.st == RequestExit {
      ExitWorkIsFinal(s, shouldExit, woken);
    }
  }

  lemma FailsOwner(s: State, woken: set<Thread>, i: nat)
    requires Fails(s, i)
    ensures Fails(SupStep(s, i, woken), i)
  {
  }

  lemma {:induction false} FailsForever(s: State, ls: seq<Label>, i: nat)
    requires Inv(s) && Fails(s, i) && Runs(s, ls)
    ensures Fails(After(s, ls), i)
    decreases |ls|
  {
    if ls != [] {
      FailsStep(s, ls[0], i);
      StepKeepsInv(s, ls[0]);
      FailsForever(Next(s, ls[0]), ls[1..], i);
    }
  }

  /** Some continuation brings supervisor i out of its call. */
  ghost predicate MayReturn(s: State, i: nat) {
    exists ls :: Runs(s, ls) && HasReturned(s, ls, i)
  }

  /** When a call hangs, exactly: a call that owns m_mutex_pause_resume has no continuation
      in which it returns if and only if it is lost or about to fail an assertion. */
  lemma ReturnsExactly(s: State, i: nat)
    requires Reachable(s) && s.crash.None? && i < |s.sups| && SupHoldsOuter(s.sups[i])
    ensures MayReturn(s, i) <==> !Lost(s, i) && !Fails(s, i)
  {
    ReachableInv(s);
    if Hopeful(s, i) {
      var ls := CanReturn(s, i);
    }
    forall ls | Runs(s, ls) && HasReturned(s, ls, i)
      ensures !Lost(s, i) && !Fails(s, i)
    {
      if Lost(s, i) {
        LostForever(s, ls, i);
      } else if Fails(s, i) {
        FailsForever(s, ls, i);
      }
    }
  }
}
