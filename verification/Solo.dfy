/** One supervisor that plays a legal script of calls against a managed thread with the
    default should_exit(): no reachable state is stuck, and every script can be finished. */
module Solo {
  import opened TaskStatus
  import opened Handshake
  import opened Invariants
  import opened Progress

  /** A thread with its supervisor and the calls that are still to come. */
  datatype Play = Play(sys: State, todo: seq<Op>)

  predicate Ordinary(op: Op) {
    op.Ask? || op.IsPaused?
  }

  /** Any number of suspend, resume and is_paused, then graceful_exit and join. */
  predicate Tail(todo: seq<Op>) {
    && |todo| >= 2
    && todo[|todo| - 2] == GracefulExit && todo[|todo| - 1] == Join
    && forall k :: 0 <= k < |todo| - 2 ==> Ordinary(todo[k])
  }

  /** The documented life of a managed thread: start it first. */
  predicate Script(todo: seq<Op>) {
    todo != [] && todo[0] == Start && Tail(todo[1..])
  }

  /** Whatever suspends, resumes and questions lie between start and exit, it is a script. */
  lemma ScriptsAreGeneral(ops: seq<Op>)
    requires forall op :: op in ops ==> op == Ask(Pause) || op == Ask(Run) || op == IsPaused
    ensures Script([Start] + (ops + [GracefulExit, Join]))
  {
    var todo := ops + [GracefulExit, Join];
    assert ([Start] + todo)[1..] == todo;
    assert forall k :: 0 <= k < |todo| - 2 ==> todo[k] in ops;
  }

  predicate PlayEnabled(c: Play, l: Label) {
    && Enabled(c.sys, l)
    && (l.Work? ==> !l.shouldExit)
    && (l.Call? ==> c.todo != [] && l.op == c.todo[0])
  }

  function PlayNext(c: Play, l: Label): Play
    requires PlayEnabled(c, l)
  {
    Play(Next(c.sys, l), if l.Call? then c.todo[1..] else c.todo)
  }

  predicate Plays(c: Play, ls: seq<Label>)
    decreases |ls|
  {
    ls == [] || (PlayEnabled(c, ls[0]) && Plays(PlayNext(c, ls[0]), ls[1..]))
  }

  function PlayAfter(c: Play, ls: seq<Label>): Play
    requires Plays(c, ls)
    decreases |ls|
  {
    if ls == [] then c else PlayAfter(PlayNext(c, ls[0]), ls[1..])
  }

  function PlayInit(startPaused: bool, todo: seq<Op>): Play {
    Play(Init(startPaused, 1), todo)
  }

  // ----- the stages of a script

  predicate ActivePc(pc: SupervisorPc) {
    match pc
    case Idle | Told(_) => true
    case LockOuter(op) => op.Ask?
    case LockInner(op) => Ordinary(op)
    case Body(op) => Ordinary(op)
    case UnlockOuter(op) => op.Ask? || op.Start?
    case Sleep(_) => true
    case Reacquire(_) => true
    case Retest(_) => true
    case _ => false
  }

  predicate Fresh(s: State) {
    s.worker == NoThread && !s.flag && (s.st == Running || s.st == Paused)
  }

  predicate Stage(s: State, todo: seq<Op>)
    requires |s.sups| == 1
  {
    var pc := s.sups[0];
    || (Script(todo) && pc == Idle && Fresh(s))
    || (Tail(todo) && (pc == LockOuter(Start) || pc == ClearFlag || pc == Spawn) && Fresh(s))
    || (Tail(todo) && ActivePc(pc) && Serving(s.worker) && !s.flag && s.st != RequestExit)
    || (todo == [Join] && ExitStage(s, pc))
    || (todo == [] && JoinStage(s, pc))
  }

  predicate ExitStage(s: State, pc: SupervisorPc) {
    if pc == SetFlag then Serving(s.worker) && !s.flag && s.st != RequestExit
    else
      && s.flag && s.worker != NoThread && !InExit(s.worker)
      && match pc
         case LockOuter(op) => op == GracefulExit && s.st != RequestExit
         case LockInner(op) => op == GracefulExit && s.st != RequestExit
         case Body(op) => op == GracefulExit && s.st != RequestExit
         case UnlockOuter(op) => op == GracefulExit && s.st == RequestExit
         case Idle => s.st == RequestExit
         case _ => false
  }

  predicate JoinStage(s: State, pc: SupervisorPc) {
    && Ending(s)
    && if pc == UnlockOuter(Join) || pc == Idle then s.worker == NoThread
       else
         && (pc == LockOuter(Join) || pc == JoinTest || pc == JoinWait)
         && s.worker != NoThread && !InExit(s.worker)
  }

  /** A script is at one of its stages. */
  predicate Onward(s: State, todo: seq<Op>) {
    |s.sups| == 1 && s.crash.None? && Stage(s, todo)
  }

  ghost predicate PlayInv(c: Play) {
    Inv(c.sys) && Onward(c.sys, c.todo)
  }

  lemma PlayInitInv(startPaused: bool, todo: seq<Op>)
    requires Script(todo)
    ensures PlayInv(PlayInit(startPaused, todo))
  {
    InitInv(startPaused, 1);
  }

  lemma WaitKeepsStage(s: State, todo: seq<Op>, woken: set<Thread>)
    requires Inv(s) && |s.sups| == 1 && Stage(s, todo) && InWait(s.worker)
    ensures Stage(WaitStep(s, woken), todo)
  {
  }

  lemma LoopKeepsStage(s: State, todo: seq<Op>)
    requires |s.sups| == 1 && Stage(s, todo) && !InExit(s.worker) && !InWait(s.worker)
    ensures Stage(LoopStep(s, false), todo)
  {
  }

  lemma WorkKeepsStage(s: State, todo: seq<Op>, woken: set<Thread>)
    requires Inv(s) && |s.sups| == 1 && Stage(s, todo)
    ensures WorkerStep(s, false, woken).sups == s.sups && WorkerStep(s, false, woken).crash == s.crash
    ensures Stage(WorkerStep(s, false, woken), todo)
  {
    assert !InExit(s.worker);
    WorkerStaysThere(s, false, woken);
    if InWait(s.worker) {
      WaitKeepsStage(s, todo, woken);
    } else {
      LoopKeepsStage(s, todo);
    }
  }

  lemma BodyKeepsStage(s: State, todo: seq<Op>, woken: set<Thread>)
    requires Inv(s) && |s.sups| == 1 && Stage(s, todo) && s.crash.None? && s.sups[0].Body?
    ensures Stage(BodyStep(s, 0, s.sups[0].op, woken), todo)
    ensures BodyStep(s, 0, s.sups[0].op, woken).crash.None?
  {
    assert SupHoldsOuter(s.sups[0]) ==> s.outer == Held(Supervisor(0), 1);
  }

  lemma InnerKeepsStage(s: State, todo: seq<Op>)
    requires |s.sups| == 1 && Stage(s, todo) && AtInner(s.sups[0])
    ensures Stage(InnerStep(s, 0), todo)
  {
  }

  lemma OuterNeverFails(s: State, todo: seq<Op>)
    requires |s.sups| == 1 && Stage(s, todo) && s.crash.None? && !AtInner(s.sups[0]) && !s.sups[0].Body?
    ensures OuterStep(s, 0).crash.None? && |OuterStep(s, 0).sups| == 1
  {
  }

  lemma OuterReachesStage(s: State, todo: seq<Op>)
    requires |s.sups| == 1 && Stage(s, todo) && SupAgrees(s.sups[0], s.st) && ThreadAgrees(s.sups[0], s.worker)
    requires !AtInner(s.sups[0]) && !s.sups[0].Body? && |OuterStep(s, 0).sups| == 1
    ensures Stage(OuterStep(s, 0), todo)
  {
  }

  lemma OuterKeepsStage(s: State, todo: seq<Op>)
    requires Inv(s) && |s.sups| == 1 && Stage(s, todo) && s.crash.None?
    requires !AtInner(s.sups[0]) && !s.sups[0].Body?
    ensures OuterStep(s, 0).crash.None? && |OuterStep(s, 0).sups| == 1
    ensures Stage(OuterStep(s, 0), todo)
  {
    OuterNeverFails(s, todo);
    OuterReachesStage(s, todo);
  }

  lemma SupKeepsStage(s: State, todo: seq<Op>, woken: set<Thread>)
    requires Inv(s) && |s.sups| == 1 && Stage(s, todo) && s.crash.None?
    ensures |SupStep(s, 0, woken).sups| == 1 && SupStep(s, 0, woken).crash.None?
    ensures Stage(SupStep(s, 0, woken), todo)
  {
    if s.sups[0].Body? {
      BodyKeepsStage(s, todo, woken);
    } else if AtInner(s.sups[0]) {
      InnerKeepsStage(s, todo);
    } else {
      OuterKeepsStage(s, todo);
    }
  }

  lemma WakeKeepsStage(s: State, todo: seq<Op>, l: Label)
    requires |s.sups| == 1 && Stage(s, todo) && Enabled(s, l) && (l.WakeWorker? || l.WakeSup?)
    ensures Stage(Next(s, l), todo)
  {
  }

  lemma CallKeepsStage(s: State, todo: seq<Op>)
    requires Inv(s) && |s.sups| == 1 && Stage(s, todo) && s.sups[0] == Idle && todo != []
    ensures Stage(Goto(s, 0, FirstPc(todo[0])), todo[1..])
  {
    if Tail(todo) && |todo| > 2 {
      assert Ordinary(todo[0]) && Tail(todo[1..]);
    } else if Tail(todo) {
      assert todo[1..] == [Join];
    }
  }

  lemma SupGoesOnward(c: Play, woken: set<Thread>)
    requires PlayInv(c)
    ensures Onward(SupStep(c.sys, 0, woken), c.todo)
  {
    SupKeepsStage(c.sys, c.todo, woken);
  }

  lemma OtherGoesOnward(c: Play, l: Label)
    requires PlayInv(c) && PlayEnabled(c, l) && !l.Sup?
    ensures Onward(Next(c.sys, l), PlayNext(c, l).todo)
  {
    match l
    case Work(_, woken) => WorkKeepsStage(c.sys, c.todo, woken);
    case Call(_, _) => CallKeepsStage(c.sys, c.todo);
    case _ => WakeKeepsStage(c.sys, c.todo, l);
  }

  lemma PlayKeepsInv(c: Play, l: Label)
    requires PlayInv(c) && PlayEnabled(c, l)
    ensures PlayInv(PlayNext(c, l))
  {
    StepKeepsInv(c.sys, l);
    if l.Sup? {
      SupGoesOnward(c, l.woken);
    } else {
      OtherGoesOnward(c, l);
    }
  }

  lemma {:induction false} PlayRunKeepsInv(c: Play, ls: seq<Label>)
    requires PlayInv(c) && Plays(c, ls)
    ensures PlayInv(PlayAfter(c, ls))
    decreases |ls|
  {
    if ls != [] {
      PlayKeepsInv(c, ls[0]);
      PlayRunKeepsInv(PlayNext(c, ls[0]), ls[1..]);
    }
  }

  // ----- a label that always helps

  /** The distance of the supervisor to the end of its call. */
  function SupRank(s: State): nat
    requires |s.sups| == 1
  {
    match s.sups[0]
    case Idle => 0
    case Told(_) => 1
    case UnlockOuter(_) => 1
    case Retest(r) => if s.st == Target(r) then 2 else 7
    case Reacquire(r) => if s.st == Target(r) then 3 else 8
    case Sleep(r) => if s.st == Target(r) then 4 else if Supervisor(0) in s.waiters then 6 else 9
    case JoinWait => 2
    case JoinTest => 3
    case Spawn => 2
    case ClearFlag => 3
    case Body(_) => 10
    case LockInner(_) => 11
    case LockOuter(_) => 12
    case SetFlag => 13
  }

  /** What the supervisor waits for, as a distance of the worker. */
  function WaitRank(s: State): nat
    requires |s.sups| == 1
  {
    match s.sups[0]
    case LockInner(_) => if s.inner.Held? then 1 else 0
    case Reacquire(_) => if s.inner.Held? then 1 else 0
    case Sleep(_) => AckRank(s.worker)
    case JoinWait => ExitRank(s.worker)
    case _ => 0
  }

  predicate Finished(c: Play) {
    c.todo == [] && c.sys.sups == [Idle]
  }

  /** The next call if the supervisor is between calls, else its next step if it can take
      one, else the worker's: never a time-out or a spurious wake-up. */
  function Helpful(c: Play): Label
    requires |c.sys.sups| == 1 && !Finished(c)
  {
    if c.sys.sups[0] == Idle then Call(0, if c.todo == [] then Join else c.todo[0])
    else if SupReady(c.sys, 0) then Sup(0, c.sys.waiters)
    else Work(false, c.sys.waiters)
  }

  /** The play comes strictly nearer to its end. */
  predicate Nearer(c: Play, c': Play)
    requires |c.sys.sups| == 1 && |c'.sys.sups| == 1
  {
    || |c'.todo| < |c.todo|
    || (c'.todo == c.todo &&
        (SupRank(c'.sys) < SupRank(c.sys)
         || (SupRank(c'.sys) == SupRank(c.sys) && WaitRank(c'.sys) < WaitRank(c.sys))))
  }

  lemma BodyComesNearer(s: State, woken: set<Thread>)
    requires |s.sups| == 1 && s.sups[0].Body? && |BodyStep(s, 0, s.sups[0].op, woken).sups| == 1
    requires BodyStep(s, 0, s.sups[0].op, woken).crash.None?
    ensures SupRank(BodyStep(s, 0, s.sups[0].op, woken)) < SupRank(s)
  {
  }

  lemma InnerComesNearer(s: State)
    requires |s.sups| == 1 && AtInner(s.sups[0]) && SupReady(s, 0) && SupAgrees(s.sups[0], s.st)
    ensures |InnerStep(s, 0).sups| == 1 && SupRank(InnerStep(s, 0)) < SupRank(s)
  {
  }

  lemma OuterComesNearer(s: State)
    requires |s.sups| == 1 && !AtInner(s.sups[0]) && !s.sups[0].Body? && !s.sups[0].Idle?
    requires OuterStep(s, 0).crash.None?
    ensures |OuterStep(s, 0).sups| == 1 && SupRank(OuterStep(s, 0)) < SupRank(s)
  {
  }

  lemma HelpfulSup(c: Play)
    requires PlayInv(c) && !c.sys.sups[0].Idle? && SupReady(c.sys, 0)
    ensures PlayEnabled(c, Sup(0, c.sys.waiters))
    ensures |PlayNext(c, Sup(0, c.sys.waiters)).sys.sups| == 1
    ensures SupRank(PlayNext(c, Sup(0, c.sys.waiters)).sys) < SupRank(c.sys)
  {
    var s := c.sys;
    SupKeepsStage(s, c.todo, s.waiters);
    if s.sups[0].Body? {
      BodyComesNearer(s, s.waiters);
    } else if AtInner(s.sups[0]) {
      InnerComesNearer(s);
    } else {
      OuterComesNearer(s);
    }
  }

  lemma InnerIsWorkers(s: State)
    requires Inv(s) && |s.sups| == 1 && !SupHoldsInner(s.sups[0])
    ensures s.inner == Free || s.inner == Held(Worker, 1)
  {
  }

  /** The supervisor waits for an answer: the worker can move, and comes nearer to it. */
  lemma HelpfulInWait(c: Play)
    requires PlayInv(c) && c.sys.sups[0].Sleep? && !SupReady(c.sys, 0)
    ensures PlayEnabled(c, Work(false, c.sys.waiters))
    ensures |PlayNext(c, Work(false, c.sys.waiters)).sys.sups| == 1
    ensures Nearer(c, PlayNext(c, Work(false, c.sys.waiters)))
  {
    assert forall t :: t in c.sys.waiters ==> NeedsNoWakeUp(c.sys, t);
    InnerIsWorkers(c.sys);
    AckStep(c.sys, c.sys.sups[0].r, c.sys.waiters);
  }

  /** The supervisor waits in join(): the worker can move, and comes nearer to its end. */
  lemma HelpfulInJoin(c: Play)
    requires PlayInv(c) && c.sys.sups[0].JoinWait? && !SupReady(c.sys, 0)
    ensures PlayEnabled(c, Work(false, c.sys.waiters))
    ensures |PlayNext(c, Work(false, c.sys.waiters)).sys.sups| == 1
    ensures Nearer(c, PlayNext(c, Work(false, c.sys.waiters)))
  {
    assert forall t :: t in c.sys.waiters ==> NeedsNoWakeUp(c.sys, t);
    InnerIsWorkers(c.sys);
    ExitWork(c.sys, false, c.sys.waiters);
  }

  /** The supervisor waits for the status mutex: the worker has it and gives it back. */
  lemma HelpfulAtMutex(c: Play)
    requires PlayInv(c) && !c.sys.sups[0].Idle? && !c.sys.sups[0].Sleep? && !c.sys.sups[0].JoinWait?
    requires !SupReady(c.sys, 0)
    ensures PlayEnabled(c, Work(false, c.sys.waiters))
    ensures |PlayNext(c, Work(false, c.sys.waiters)).sys.sups| == 1
    ensures Nearer(c, PlayNext(c, Work(false, c.sys.waiters)))
  {
    InnerIsWorkers(c.sys);
  }

  lemma HelpfulHelps(c: Play)
    requires PlayInv(c) && !Finished(c)
    ensures PlayEnabled(c, Helpful(c))
    ensures |PlayNext(c, Helpful(c)).sys.sups| == 1
    ensures Nearer(c, PlayNext(c, Helpful(c)))
  {
    if c.sys.sups[0] == Idle {
      assert c.sys.sups == [Idle];
    } else if SupReady(c.sys, 0) {
      HelpfulSup(c);
    } else if c.sys.sups[0].Sleep? {
      HelpfulInWait(c);
    } else if c.sys.sups[0].JoinWait? {
      HelpfulInJoin(c);
    } else {
      HelpfulAtMutex(c);
    }
  }

  /** No reachable unfinished state of any legal script is stuck: the supervisor can go on
      or, where it has to wait, the worker can, without any wait timing out. */
  lemma NeverStuck(startPaused: bool, todo: seq<Op>, ls: seq<Label>)
    requires Script(todo) && Plays(PlayInit(startPaused, todo), ls)
    ensures
      var c := PlayAfter(PlayInit(startPaused, todo), ls);
      !Finished(c) ==> exists l :: PlayEnabled(c, l) && !Timeout(l)
  {
    PlayInitInv(startPaused, todo);
    PlayRunKeepsInv(PlayInit(startPaused, todo), ls);
    var c := PlayAfter(PlayInit(startPaused, todo), ls);
    if !Finished(c) {
      HelpfulHelps(c);
      assert PlayEnabled(c, Helpful(c));
    }
  }

  /** From wherever a run has got to, the rest of the script can be finished, again
      without a time-out; then the thread is joined for good. */
  lemma {:induction false} CanFinish(c: Play) returns (ls: seq<Label>)
    requires PlayInv(c)
    ensures Plays(c, ls) && NoTimeouts(ls)
    ensures Finished(PlayAfter(c, ls)) && Over(PlayAfter(c, ls).sys)
    decreases |c.todo|, SupRank(c.sys), WaitRank(c.sys)
  {
    if Finished(c) {
      FinishedIsOver(c);
      ls := [];
    } else {
      HelpfulHelps(c);
      PlayKeepsInv(c, Helpful(c));
      var rest := CanFinish(PlayNext(c, Helpful(c)));
      ls := [Helpful(c)] + rest;
      assert ls[0] == Helpful(c) && ls[1..] == rest;
    }
  }

  lemma FinishedIsOver(c: Play)
    requires PlayInv(c) && Finished(c)
    ensures Over(c.sys)
  {
    assert forall t :: t in c.sys.waiters ==> NeedsNoWakeUp(c.sys, t);
  }
}
