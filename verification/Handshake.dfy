/** One managed thread and any number of supervisors as a transition system.

    Every thread has a program counter. Taking a mutex is a step of its own; the code
    between taking the status mutex and releasing it (or waiting) is one step, which is
    taken while that mutex is held. Every read and write of m_should_exit is a step of
    its own. A label fixes all that the scheduler, the virtual should_exit() and the
    condition variable may choose, so a run is a sequence of labels. */
module Handshake {
  import opened Wrappers

  import opened TaskStatus

  datatype Thread = Worker | Supervisor(id: nat)

  /** A recursive mutex: its owner and how often the owner has locked it. */
  datatype Mutex = Free | Held(owner: Thread, depth: nat)

  predicate CanLock(m: Mutex, t: Thread) {
    m.Free? || m.owner == t
  }

  function Locked(m: Mutex, t: Thread): Mutex {
    if m.Free? then Held(t, 1) else Held(t, m.depth + 1)
  }

  function Unlocked(m: Mutex): Mutex {
    if m.Held? && m.depth > 1 then Held(m.owner, m.depth - 1) else Free
  }

  /** The public calls of a managed thread; Ask(Pause) is suspend(), Ask(Run) is resume(). */
  datatype Op = Start | Ask(request: Request) | GracefulExit | Join | IsPaused

  /** Where the worker is: no thread, inside task(), or finished and not yet joined. */
  datatype WorkerPc =
    | NoThread
    | LoopTest                                       // about to read m_should_exit in the loop guard
    | ExitTest                                       // about to read it again
    | AskExit                                        // about to call should_exit()
    | ExitFlag | ExitLockOuter | ExitLockInner | ExitBody | ExitUnlockOuter   // its own graceful_exit()
    | WaitLock | WaitBody | WaitSleep | WaitReacquire | WaitRetest            // wait_to_run()
    | Answered(go: bool)                             // wait_to_run() returned; about to read m_should_exit
    | AskExitAgain                                   // about to call should_exit() again
    | Updating                                       // inside update()
    | Done

  /** Where a supervisor is. */
  datatype SupervisorPc =
    | Idle
    | SetFlag                                        // graceful_exit(): about to write m_should_exit
    | LockOuter(op: Op)
    | ClearFlag | Spawn                              // start()
    | JoinTest | JoinWait                            // join()
    | LockInner(op: Op) | Body(op: Op)
    | Sleep(r: Request) | Reacquire(r: Request) | Retest(r: Request)
    | UnlockOuter(op: Op)
    | Told(paused: bool)                             // is_paused() has its answer

  /** outer is m_mutex_pause_resume, inner is the status mutex, flag is m_should_exit.
      The three counters are history: updates begun, pauses and resumes acknowledged. */
  datatype State = State(
    st: TaskState,
    flag: bool,
    outer: Mutex,
    inner: Mutex,
    waiters: set<Thread>,
    worker: WorkerPc,
    sups: seq<SupervisorPc>,
    crash: Option<Site>,
    updates: nat,
    pauses: nat,
    resumes: nat)

  function Init(startPaused: bool, n: nat): State {
    State(if startPaused then Paused else Running, false, Free, Free, {}, NoThread,
          seq(n, i => Idle), None, 0, 0, 0)
  }

  datatype Label =
    | Work(shouldExit: bool, woken: set<Thread>)     // the worker's next step
    | WakeWorker                                     // its wait times out or wakes spuriously
    | Call(i: nat, op: Op)                           // supervisor i begins a call
    | Sup(i: nat, woken: set<Thread>)                // supervisor i's next step
    | WakeSup(i: nat)                                // its wait times out or wakes spuriously

  /** The wait of a thread ends without a signal. */
  predicate Timeout(l: Label) {
    l.WakeWorker? || l.WakeSup?
  }

  predicate NoTimeouts(ls: seq<Label>) {
    forall k :: 0 <= k < |ls| ==> !Timeout(ls[k])
  }

  /** pthread_cond_signal wakes at least one waiter, if there is one. */
  predicate SignalOk(waiters: set<Thread>, woken: set<Thread>) {
    woken <= waiters && (waiters != {} ==> woken != {})
  }

  // ----- the worker

  /** The wait_to_run decision that the worker is about to take, if it is about to. */
  function WorkerVerdict(s: State): Option<Verdict> {
    match s.worker
    case WaitBody => Some(EntryVerdict(s.st))
    case WaitRetest => Some(WokenVerdict(s.st))
    case _ => None
  }

  predicate WorkerSignals(s: State) {
    || s.worker == ExitBody
    || (WorkerVerdict(s).Some? && WorkerVerdict(s).value.Answer? && WorkerVerdict(s).value.signals)
  }

  /** The worker can take a step that is not a time-out. */
  predicate WorkerReady(s: State) {
    match s.worker
    case NoThread | Done => false
    case ExitLockOuter => CanLock(s.outer, Worker)
    case ExitLockInner | WaitLock | WaitReacquire => CanLock(s.inner, Worker)
    case WaitSleep => Worker !in s.waiters
    case _ => true
  }

  function VerdictStep(s: State, v: Verdict, woken: set<Thread>): State {
    match v
    case Waits => s.(worker := WaitSleep, waiters := s.waiters + {Worker}, inner := Unlocked(s.inner))
    case Answer(go, next, signals) =>
      s.(worker := Answered(go), st := next, inner := Unlocked(s.inner),
         waiters := if signals then s.waiters - woken else s.waiters,
         pauses := if s.st == RequestPause && next == Paused then s.pauses + 1 else s.pauses,
         resumes := if s.st == RequestRun && next == Running then s.resumes + 1 else s.resumes)
  }

  predicate InExit(pc: WorkerPc) {
    pc.ExitFlag? || pc.ExitLockOuter? || pc.ExitLockInner? || pc.ExitBody? || pc.ExitUnlockOuter?
  }

  predicate InWait(pc: WorkerPc) {
    pc.WaitLock? || pc.WaitBody? || pc.WaitSleep? || pc.WaitReacquire? || pc.WaitRetest?
  }

  /** The worker's own graceful_exit(). */
  function ExitStep(s: State, woken: set<Thread>): State
    requires InExit(s.worker)
  {
    match s.worker
    case ExitFlag => s.(worker := ExitLockOuter, flag := true)
    case ExitLockOuter => s.(worker := ExitLockInner, outer := Locked(s.outer, Worker))
    case ExitLockInner => s.(worker := ExitBody, inner := Locked(s.inner, Worker))
    case ExitBody =>
      s.(worker := ExitUnlockOuter, st := RequestExit, waiters := s.waiters - woken, inner := Unlocked(s.inner))
    case ExitUnlockOuter => s.(worker := WaitLock, outer := Unlocked(s.outer))
  }

  /** wait_to_run(). */
  function WaitStep(s: State, woken: set<Thread>): State
    requires InWait(s.worker)
  {
    match s.worker
    case WaitLock => s.(worker := WaitBody, inner := Locked(s.inner, Worker))
    case WaitBody => VerdictStep(s, EntryVerdict(s.st), woken)
    case WaitSleep => s.(worker := WaitReacquire)
    case WaitReacquire => s.(worker := WaitRetest, inner := Locked(s.inner, Worker))
    case WaitRetest => VerdictStep(s, WokenVerdict(s.st), woken)
  }

  /** The loop of task() around them. */
  function LoopStep(s: State, shouldExit: bool): State
    requires !InExit(s.worker) && !InWait(s.worker)
  {
    match s.worker
    case NoThread | Done => s
    case LoopTest => s.(worker := if s.flag then Done else ExitTest)
    case ExitTest => s.(worker := if s.flag then WaitLock else AskExit)
    case AskExit => s.(worker := if shouldExit then ExitFlag else WaitLock)
    case Answered(go) => s.(worker := if go && !s.flag then AskExitAgain else LoopTest)
    case AskExitAgain =>
      if shouldExit then s.(worker := LoopTest) else s.(worker := Updating, updates := s.updates + 1)
    case Updating => s.(worker := LoopTest)
  }

  function WorkerStep(s: State, shouldExit: bool, woken: set<Thread>): State {
    if InExit(s.worker) then ExitStep(s, woken)
    else if InWait(s.worker) then WaitStep(s, woken)
    else LoopStep(s, shouldExit)
  }

  // ----- a supervisor

  function FirstPc(op: Op): SupervisorPc {
    match op
    case GracefulExit => SetFlag
    case IsPaused => LockInner(IsPaused)
    case _ => LockOuter(op)
  }

  /** Where a call goes once it owns the outer mutex. */
  function OuterPc(op: Op): SupervisorPc {
    match op
    case Start => ClearFlag
    case Join => JoinTest
    case _ => LockInner(op)
  }

  predicate SupReady(s: State, i: nat)
    requires i < |s.sups|
  {
    match s.sups[i]
    case Idle => false
    case LockOuter(_) => CanLock(s.outer, Supervisor(i))
    case LockInner(_) => CanLock(s.inner, Supervisor(i))
    case Reacquire(_) => CanLock(s.inner, Supervisor(i))
    case Sleep(_) => Supervisor(i) !in s.waiters
    case JoinWait => s.worker == Done
    case _ => true
  }

  predicate SupSignals(s: State, i: nat)
    requires i < |s.sups|
  {
    match s.sups[i]
    case Body(Ask(r)) => RequestEntry(s.st, r).Asks?
    case Body(GracefulExit) => true
    case _ => false
  }

  function Goto(s: State, i: nat, pc: SupervisorPc): State
    requires i < |s.sups|
  {
    s.(sups := s.sups[i := pc])
  }

  /** Begins or continues to wait: enqueue and release the status mutex in one step. */
  function SleepStep(s: State, i: nat, r: Request): State
    requires i < |s.sups|
  {
    Goto(s, i, Sleep(r)).(waiters := s.waiters + {Supervisor(i)}, inner := Unlocked(s.inner))
  }

  function BodyStep(s: State, i: nat, op: Op, woken: set<Thread>): State
    requires i < |s.sups|
  {
    match op
    case Ask(r) =>
      (match RequestEntry(s.st, r)
       case Refused(site) => s.(crash := Some(site))
       case Already => Goto(s, i, UnlockOuter(op)).(inner := Unlocked(s.inner))
       case Asks => SleepStep(s.(st := Requested(r), waiters := s.waiters - woken), i, r))
    case GracefulExit =>
      Goto(s, i, UnlockOuter(op)).(st := RequestExit, waiters := s.waiters - woken, inner := Unlocked(s.inner))
    case _ => Goto(s, i, Told(s.st == Paused)).(inner := Unlocked(s.inner))
  }

  /** Steps at the status mutex. */
  predicate AtInner(pc: SupervisorPc) {
    pc.LockInner? || pc.Sleep? || pc.Reacquire? || pc.Retest?
  }

  function InnerStep(s: State, i: nat): State
    requires i < |s.sups| && AtInner(s.sups[i])
  {
    match s.sups[i]
    case LockInner(op) => Goto(s, i, Body(op)).(inner := Locked(s.inner, Supervisor(i)))
    case Sleep(r) => Goto(s, i, Reacquire(r))
    case Reacquire(r) => Goto(s, i, Retest(r)).(inner := Locked(s.inner, Supervisor(i)))
    case Retest(r) =>
      if s.st == Target(r) then Goto(s, i, UnlockOuter(Ask(r))).(inner := Unlocked(s.inner))
      else SleepStep(s, i, r)
  }

  /** The rest of the management calls. */
  function OuterStep(s: State, i: nat): State
    requires i < |s.sups| && !AtInner(s.sups[i]) && !s.sups[i].Body?
  {
    match s.sups[i]
    case Idle => s
    case SetFlag => Goto(s, i, LockOuter(GracefulExit)).(flag := true)
    case LockOuter(op) => Goto(s, i, OuterPc(op)).(outer := Locked(s.outer, Supervisor(i)))
    case ClearFlag => Goto(s, i, Spawn).(flag := false)
    case Spawn =>
      if s.worker != NoThread then s.(crash := Some(AlreadyStarted))
      else Goto(s, i, UnlockOuter(Start)).(worker := LoopTest)
    case JoinTest => Goto(s, i, if s.worker == NoThread then UnlockOuter(Join) else JoinWait)
    case JoinWait => Goto(s, i, UnlockOuter(Join)).(worker := NoThread)
    case UnlockOuter(op) => Goto(s, i, Idle).(outer := Unlocked(s.outer))
    case Told(_) => Goto(s, i, Idle)
  }

  function SupStep(s: State, i: nat, woken: set<Thread>): State
    requires i < |s.sups|
  {
    var pc := s.sups[i];
    if pc.Body? then BodyStep(s, i, pc.op, woken)
    else if AtInner(pc) then InnerStep(s, i)
    else OuterStep(s, i)
  }

  /** No management call is in progress. */
  predicate AllIdle(s: State) {
    forall i :: 0 <= i < |s.sups| ==> s.sups[i] == Idle
  }

  // ----- steps and runs

  predicate Enabled(s: State, l: Label) {
    && s.crash.None?
    && match l
       case Work(_, woken) => WorkerReady(s) && (WorkerSignals(s) ==> SignalOk(s.waiters, woken))
       case WakeWorker => s.worker == WaitSleep && Worker in s.waiters
       case Call(i, _) => i < |s.sups| && s.sups[i] == Idle
       case Sup(i, woken) =>
         i < |s.sups| && SupReady(s, i) && (SupSignals(s, i) ==> SignalOk(s.waiters, woken))
       case WakeSup(i) => i < |s.sups| && s.sups[i].Sleep? && Supervisor(i) in s.waiters
  }

  function Next(s: State, l: Label): State
    requires Enabled(s, l)
  {
    match l
    case Work(shouldExit, woken) => WorkerStep(s, shouldExit, woken)
    case WakeWorker => s.(worker := WaitReacquire, waiters := s.waiters - {Worker})
    case Call(i, op) => Goto(s, i, FirstPc(op))
    case Sup(i, woken) => SupStep(s, i, woken)
    case WakeSup(i) => Goto(s, i, Reacquire(s.sups[i].r)).(waiters := s.waiters - {Supervisor(i)})
  }

  /** A label sequence is a run of s when each label is enabled in its turn. */
  predicate Runs(s: State, ls: seq<Label>)
    decreases |ls|
  {
    ls == [] || (Enabled(s, ls[0]) && Runs(Next(s, ls[0]), ls[1..]))
  }

  function After(s: State, ls: seq<Label>): State
    requires Runs(s, ls)
    decreases |ls|
  {
    if ls == [] then s else After(Next(s, ls[0]), ls[1..])
  }

  lemma {:induction false} RunsAppend(s: State, ls: seq<Label>, ms: seq<Label>)
    requires Runs(s, ls)
    ensures Runs(s, ls + ms) <==> Runs(After(s, ls), ms)
    ensures Runs(s, ls + ms) ==> After(s, ls + ms) == After(After(s, ls), ms)
    decreases |ls|
  {
    if ls == [] {
      assert ls + ms == ms;
    } else {
      assert (ls + ms)[0] == ls[0] && (ls + ms)[1..] == ls[1..] + ms;
      RunsAppend(Next(s, ls[0]), ls[1..], ms);
    }
  }
}
