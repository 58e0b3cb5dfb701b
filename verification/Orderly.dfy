/** Any number of supervisors that call in the documented order, with the default
    should_exit(): no assertion fails, no call is lost, and at any moment all open calls
    can be finished, without a time-out and without a new call. */
module Orderly {
  import opened Wrappers

  import opened TaskStatus
  import opened Handshake
  import opened Invariants
  import opened Safety
  import opened Deadlock
  import opened Hangs
  import opened Progress
  import opened Returning
  import opened Discipline
  import opened Solo

  /** One start(), before any suspend(), resume() or graceful_exit(); no graceful_exit()
      while one of these is open, and none of them after it; and join() once the exit is
      set. is_paused() may be called at any time. */
  predicate OrderlyCall(s: State, l: Label, exited: bool) {
    && PoliteCall(s, l, exited)
    && (l.Call? && l.op.Start? ==> !exited && s.worker == NoThread && NoneIn(s, Start))
    && (BeginsExit(l) ==> NoneIn(s, Start))
    && (l.Call? && l.op.Join? ==> Ending(s))
  }

  predicate Orderly(s: State, ls: seq<Label>, exited: bool)
    requires Runs(s, ls)
    decreases |ls|
  {
    ls == [] || (OrderlyCall(s, ls[0], exited) && Orderly(Next(s, ls[0]), ls[1..], exited || BeginsExit(ls[0])))
  }

  predicate BeforeSpawn(pc: SupervisorPc) {
    pc == LockOuter(Start) || pc.ClearFlag? || pc.Spawn?
  }

  /** The start() that is open finds no thread, and it is the only one. */
  predicate StartsFresh(s: State) {
    && (forall i :: 0 <= i < |s.sups| ==> (BeforeSpawn(s.sups[i]) ==> s.worker == NoThread))
    && (forall i, j :: 0 <= i < j < |s.sups| ==>
          OpenCall(s.sups[i]) != Some(Start) || OpenCall(s.sups[j]) != Some(Start))
  }

  predicate OrderlyState(s: State, exited: bool) {
    && PoliteState(s, exited) && s.crash.None? && StartsFresh(s)
    && (exited ==> NoneIn(s, Start))
    && (!Ending(s) ==> NoneIn(s, Join))
  }

  // ----- the order is kept

  lemma OrderlyWork(s: State, woken: set<Thread>, exited: bool)
    requires OrderlyState(s, exited) && Enabled(s, Work(false, woken))
    ensures OrderlyState(WorkerStep(s, false, woken), exited)
  {
    PoliteWork(s, woken, exited);
    WorkerStaysThere(s, false, woken);
    WorkLeavesSups(s, woken);
    if s.st == RequestExit {
      ExitWorkIsFinal(s, false, woken);
    }
  }

  lemma OrderlySupStarts(s: State, i: nat, woken: set<Thread>, exited: bool)
    requires Inv(s) && OrderlyState(s, exited) && Enabled(s, Sup(i, woken))
    ensures StartsFresh(SupStep(s, i, woken))
  {
    SupKeepsOthers(s, i, woken);
    CallStaysOpen(s, i, woken);
    CallEffects(s, i, woken);
    assert BeforeSpawn(SupStep(s, i, woken).sups[i]) ==> BeforeSpawn(s.sups[i]) && !s.sups[i].Spawn?;
  }

  /** Only start() lowers m_should_exit, and only a failed assertion stops a step. */
  lemma OrderlySupEffects(s: State, i: nat, woken: set<Thread>, exited: bool)
    requires Inv(s) && OrderlyState(s, exited) && Enabled(s, Sup(i, woken))
    ensures SupStep(s, i, woken).crash.None?
    ensures Ending(s) ==> Ending(SupStep(s, i, woken))
  {
    SupCrashes(s, i, woken);
    if s.st == RequestExit {
      ExitSupIsFinal(s, i, woken);
    }
    assert s.sups[i].Spawn? ==> BeforeSpawn(s.sups[i]);
  }

  lemma OrderlySup(s: State, i: nat, woken: set<Thread>, exited: bool)
    requires Inv(s) && OrderlyState(s, exited) && Enabled(s, Sup(i, woken))
    ensures OrderlyState(SupStep(s, i, woken), exited)
  {
    PoliteSup(s, i, woken, exited);
    OrderlySupStarts(s, i, woken, exited);
    OrderlySupEffects(s, i, woken, exited);
    SupKeepsOthers(s, i, woken);
    CallStaysOpen(s, i, woken);
  }

  lemma OrderlyBegins(s: State, l: Label, exited: bool)
    requires Inv(s) && OrderlyState(s, exited) && Enabled(s, l) && OrderlyCall(s, l, exited) && l.Call?
    ensures OrderlyState(Next(s, l), exited || BeginsExit(l))
  {
    PoliteStep(s, l, exited);
    assert OpenCall(FirstPc(l.op)) == Some(l.op);
  }

  lemma OrderlyStep(s: State, l: Label, exited: bool)
    requires Inv(s) && OrderlyState(s, exited) && Enabled(s, l) && OrderlyCall(s, l, exited)
    requires !(l.Work? && l.shouldExit)
    ensures OrderlyState(Next(s, l), exited || BeginsExit(l))
  {
    match l
    case Work(_, woken) => OrderlyWork(s, woken, exited);
    case Sup(i, woken) => OrderlySup(s, i, woken, exited);
    case Call(_, _) => OrderlyBegins(s, l, exited);
    case _ => PoliteStep(s, l, exited);
  }

  lemma {:induction false} OrderlyRun(s: State, ls: seq<Label>, exited: bool)
    requires Inv(s) && OrderlyState(s, exited) && Runs(s, ls) && DefaultExit(ls) && Orderly(s, ls, exited)
    ensures Inv(After(s, ls)) && OrderlyState(After(s, ls), Exited(ls, exited))
    decreases |ls|
  {
    if ls != [] {
      OrderlyStep(s, ls[0], exited);
      StepKeepsInv(s, ls[0]);
      OrderlyRun(Next(s, ls[0]), ls[1..], exited || BeginsExit(ls[0]));
      assert Exited(ls, exited) <==> Exited(ls[1..], exited || BeginsExit(ls[0]));
    }
  }

  /** A run without new calls is in order. */
  lemma {:induction false} QuietIsOrderly(s: State, ls: seq<Label>, exited: bool)
    requires Inv(s) && OrderlyState(s, exited) && Runs(s, ls) && Plain(ls) && NoCalls(ls)
    ensures Inv(After(s, ls)) && OrderlyState(After(s, ls), exited)
    decreases |ls|
  {
    if ls != [] {
      OrderlyStep(s, ls[0], exited);
      StepKeepsInv(s, ls[0]);
      QuietIsOrderly(Next(s, ls[0]), ls[1..], exited);
    }
  }

  /** No call is lost, and no assertion is about to fail. */
  lemma OrderlyIsHopeful(s: State, exited: bool, i: nat)
    requires Inv(s) && OrderlyState(s, exited) && i < |s.sups|
    ensures !Lost(s, i) && !Fails(s, i) && !NeedsExit(s, i)
  {
    assert ThreadAgrees(s.sups[i], s.worker);
    assert OpenCall(s.sups[i]) == Some(Join) ==> Ending(s);
  }

  // ----- finishing the open calls

  /** The supervisors that are inside a call. */
  function OpenCalls(s: State): set<nat> {
    set i: nat | i < |s.sups| && s.sups[i] != Idle
  }

  lemma {:induction false} QuietOpensNone(s: State, ls: seq<Label>)
    requires Runs(s, ls) && NoCalls(ls)
    ensures |After(s, ls).sups| == |s.sups| && OpenCalls(After(s, ls)) <= OpenCalls(s)
    decreases |ls|
  {
    if ls != [] {
      if ls[0].Sup? {
        SupKeepsOthers(s, ls[0].i, ls[0].woken);
      } else if ls[0].Work? {
        WorkerStaysThere(s, ls[0].shouldExit, ls[0].woken);
      }
      assert !ls[0].Call?;
      QuietOpensNone(Next(s, ls[0]), ls[1..]);
    }
  }

  /** The run brings some call to its end and begins none. */
  ghost predicate Finishes(s: State, ls: seq<Label>) {
    Runs(s, ls) && Plain(ls) && NoCalls(ls) && OpenCalls(After(s, ls)) < OpenCalls(s)
  }

  lemma OwnerFinishes(s: State, exited: bool) returns (ls: seq<Label>)
    requires Inv(s) && OrderlyState(s, exited) && s.outer.Held?
    ensures Finishes(s, ls)
  {
    assert s.outer.owner.Supervisor?;
    OuterOwner(s);
    var k := s.outer.owner.id;
    OrderlyIsHopeful(s, exited, k);
    ls := CanReturn(s, k);
    QuietOpensNone(s, ls);
    assert k in OpenCalls(s) && k !in OpenCalls(After(s, ls));
  }

  /** The steps of a call that does not own the outer mutex. */
  function ApproachRank(pc: SupervisorPc): nat {
    match pc
    case SetFlag => 5
    case LockOuter(_) => 4
    case LockInner(_) => 3
    case Body(_) => 2
    case Told(_) => 1
    case _ => 0
  }

  /** A step of a call that goes for the outer mutex, or asks is_paused(), while nobody
      has that mutex. */
  lemma Approaches(s: State, exited: bool, i: nat)
    requires Inv(s) && OrderlyState(s, exited) && s.outer.Free?
    requires i < |s.sups| && s.sups[i] != Idle && SupReady(s, i)
    ensures
      var s' := SupStep(s, i, s.waiters);
      && |s'.sups| == |s.sups|
      && (s'.outer.Held? || s'.sups[i] == Idle || ApproachRank(s'.sups[i]) < ApproachRank(s.sups[i]))
  {
    assert !SupHoldsOuter(s.sups[i]) && Possible(s.sups[i]);
  }

  /** The worker gives back the status mutex that is_paused() wants. */
  lemma WorkerGivesBack(s: State, exited: bool, i: nat)
    requires Inv(s) && OrderlyState(s, exited) && s.outer.Free? && s.inner == Held(Worker, 1)
    requires i < |s.sups| && s.sups[i].LockInner?
    ensures Enabled(s, Work(false, s.waiters))
    ensures WorkerStep(s, false, s.waiters).inner == Free && WorkerStep(s, false, s.waiters).sups == s.sups
  {
  }

  lemma OneMore(s: State, l: Label, rest: seq<Label>)
    requires Enabled(s, l) && Plain([l]) && !l.Call?
    requires Runs(Next(s, l), rest) && Plain(rest) && NoCalls(rest)
    requires OpenCalls(After(Next(s, l), rest)) < OpenCalls(s)
    ensures Finishes(s, [l] + rest)
  {
    assert ([l] + rest)[0] == l && ([l] + rest)[1..] == rest;
  }

  lemma {:induction false} CallFinishes(s: State, exited: bool, i: nat) returns (ls: seq<Label>)
    requires Inv(s) && OrderlyState(s, exited) && i < |s.sups| && s.sups[i] != Idle
    ensures Finishes(s, ls)
    decreases ApproachRank(s.sups[i]), if s.inner == Held(Worker, 1) then 1 else 0, if s.outer.Held? then 0 else 1
  {
    if s.outer.Held? {
      ls := OwnerFinishes(s, exited);
    } else if SupReady(s, i) {
      ls := ReadyFinishes(s, exited, i);
    } else {
      assert !SupHoldsOuter(s.sups[i]) && s.sups[i].LockInner?;
      if s.inner.owner.Supervisor? {
        InnerOwner(s);
        ls := CallFinishes(s, exited, s.inner.owner.id);
      } else {
        WorkerGivesBack(s, exited, i);
        var l := Work(false, s.waiters);
        OrderlyStep(s, l, exited);
        StepKeepsInv(s, l);
        var rest := CallFinishes(Next(s, l), exited, i);
        OneMore(s, l, rest);
        ls := [l] + rest;
      }
    }
  }

  lemma {:induction false} ReadyFinishes(s: State, exited: bool, i: nat) returns (ls: seq<Label>)
    requires Inv(s) && OrderlyState(s, exited) && s.outer.Free?
    requires i < |s.sups| && s.sups[i] != Idle && SupReady(s, i)
    ensures Finishes(s, ls)
    decreases ApproachRank(s.sups[i]), if s.inner == Held(Worker, 1) then 1 else 0, 0
  {
    var l := Sup(i, s.waiters);
    ReadyIsEnabled(s, i);
    Approaches(s, exited, i);
    OrderlyStep(s, l, exited);
    StepKeepsInv(s, l);
    QuietOpensNone(s, [l]);
    OneStep(s, l);
    var rest := [];
    if Next(s, l).outer.Held? {
      rest := OwnerFinishes(Next(s, l), exited);
    } else if Next(s, l).sups[i] != Idle {
      rest := CallFinishes(Next(s, l), exited, i);
    } else {
      assert i in OpenCalls(s) && i !in OpenCalls(Next(s, l));
    }
    OneMore(s, l, rest);
    ls := [l] + rest;
  }

  lemma {:induction false} AllFinish(s: State, exited: bool) returns (ls: seq<Label>)
    requires Inv(s) && OrderlyState(s, exited)
    ensures Runs(s, ls) && Plain(ls) && NoCalls(ls) && AllIdle(After(s, ls))
    decreases OpenCalls(s)
  {
    if i :| 0 <= i < |s.sups| && s.sups[i] != Idle {
      var first := CallFinishes(s, exited, i);
      QuietIsOrderly(s, first, exited);
      var rest := AllFinish(After(s, first), exited);
      RunsAppend(s, first, rest);
      ls := first + rest;
    } else {
      ls := [];
    }
  }

  /** In every orderly use by any number of supervisors: no assertion has failed, nobody's
      call is lost, and all the open calls can be finished without any wait timing out and
      without a further call. */
  lemma OrderlyUse(startPaused: bool, n: nat, ls: seq<Label>) returns (ms: seq<Label>)
    requires Runs(Init(startPaused, n), ls) && DefaultExit(ls) && Orderly(Init(startPaused, n), ls, false)
    ensures
      var s := After(Init(startPaused, n), ls);
      && s.crash.None?
      && (forall i: nat :: i < |s.sups| ==> !Lost(s, i))
      && Runs(s, ms) && Plain(ms) && NoCalls(ms) && AllIdle(After(s, ms))
  {
    var s := After(Init(startPaused, n), ls);
    InitInv(startPaused, n);
    OrderlyRun(Init(startPaused, n), ls, false);
    forall i: nat | i < |s.sups|
      ensures !Lost(s, i)
    {
      OrderlyIsHopeful(s, Exited(ls, false), i);
    }
    ms := AllFinish(s, Exited(ls, false));
  }

  // ----- the scripts of one supervisor

  lemma ScriptCall(c: Play, l: Label)
    requires PlayInv(c) && PlayEnabled(c, l)
    ensures OrderlyCall(c.sys, l, |c.todo| <= 1)
    ensures (|PlayNext(c, l).todo| <= 1) == (|c.todo| <= 1 || BeginsExit(l))
  {
    if l.Call? {
      assert c.sys.sups[0] == Idle && l.op == c.todo[0];
      assert Tail(c.todo) ==> |c.todo| == 2 || Ordinary(c.todo[0]);
    }
  }

  /** Every run of a script of one supervisor is orderly. */
  lemma {:induction false} ScriptIsOrderly(c: Play, ls: seq<Label>)
    requires PlayInv(c) && Plays(c, ls)
    ensures Runs(c.sys, ls) && DefaultExit(ls) && Orderly(c.sys, ls, |c.todo| <= 1)
    decreases |ls|
  {
    if ls != [] {
      ScriptCall(c, ls[0]);
      PlayKeepsInv(c, ls[0]);
      ScriptIsOrderly(PlayNext(c, ls[0]), ls[1..]);
    }
  }
}
