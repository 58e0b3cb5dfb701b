/** The handshake implements a machine with three modes. */
module Refinement {
  import opened TaskStatus
  import opened Handshake
  import opened Invariants

  datatype Mode = Active | Suspended | Exited

  /** grant: the worker may begin an update or is inside one. */
  datatype Abstract = Abstract(mode: Mode, grant: bool)

  datatype Event = Stutter | DoPause | DoResume | DoExit | DoGrant | DoRelease

  /** The specification: pausing needs an idle worker, resuming needs a suspended one, a
      permission is given only to an active worker, and nothing leaves Exited. */
  predicate Allowed(a: Abstract, e: Event) {
    match e
    case Stutter => true
    case DoPause => a.mode == Active && !a.grant
    case DoResume => a.mode == Suspended && !a.grant
    case DoExit => true
    case DoGrant => a.mode == Active && !a.grant
    case DoRelease => a.grant
  }

  function Result(a: Abstract, e: Event): Abstract {
    match e
    case Stutter => a
    case DoPause => Abstract(Suspended, false)
    case DoResume => Abstract(Active, true)
    case DoExit => Abstract(Exited, a.grant)
    case DoGrant => Abstract(a.mode, true)
    case DoRelease => Abstract(a.mode, false)
  }

  predicate AllAllowed(a: Abstract, es: seq<Event>)
    decreases |es|
  {
    es == [] || (Allowed(a, es[0]) && AllAllowed(Result(a, es[0]), es[1..]))
  }

  function Final(a: Abstract, es: seq<Event>): Abstract
    decreases |es|
  {
    if es == [] then a else Final(Result(a, es[0]), es[1..])
  }

  function Count(es: seq<Event>, e: Event): nat {
    if es == [] then 0 else (if es[0] == e then 1 else 0) + Count(es[1..], e)
  }

  function ModeOf(st: TaskState): Mode {
    match st
    case Running | RequestPause => Active
    case Paused | RequestRun => Suspended
    case RequestExit => Exited
  }

  function View(s: State): Abstract {
    Abstract(ModeOf(s.st), Granted(s.worker))
  }

  /** Which abstract event a step is. A suspend takes effect where wait_to_run() writes
      PAUSED, a resume where it writes RUNNING. */
  function EventOf(s: State, l: Label): Event {
    match l
    case Work(shouldExit, _) =>
      (match s.worker
       case ExitBody => DoExit
       case WaitBody =>
         if s.st == RequestPause then DoPause
         else if s.st == RequestRun then DoResume
         else if s.st == Running then DoGrant
         else Stutter
       case WaitRetest => if s.st == RequestRun then DoResume else Stutter
       case Answered(go) => if go && s.flag then DoRelease else Stutter
       case AskExitAgain => if shouldExit then DoRelease else Stutter
       case Updating => DoRelease
       case _ => Stutter)
    case Sup(i, _) =>
      if i < |s.sups| && s.sups[i] == Body(GracefulExit) then DoExit else Stutter
    case _ => Stutter
  }

  function Events(s: State, ls: seq<Label>): seq<Event>
    requires Runs(s, ls)
    decreases |ls|
  {
    if ls == [] then [] else [EventOf(s, ls[0])] + Events(Next(s, ls[0]), ls[1..])
  }

  /** What one step owes the specification. */
  predicate Refines(s: State, s': State, e: Event) {
    && Allowed(View(s), e)
    && View(s') == Result(View(s), e)
    && s'.pauses == s.pauses + (if e == DoPause then 1 else 0)
    && s'.resumes == s.resumes + (if e == DoResume then 1 else 0)
  }

  lemma WaitRefines(s: State, woken: set<Thread>)
    requires WorkerAgrees(s) && InWait(s.worker)
    ensures Refines(s, WaitStep(s, woken), EventOf(s, Work(false, woken)))
  {
  }

  lemma LoopRefines(s: State, shouldExit: bool)
    requires !InExit(s.worker) && !InWait(s.worker)
    ensures Refines(s, LoopStep(s, shouldExit), EventOf(s, Work(shouldExit, {})))
  {
  }

  lemma ExitRefines(s: State, woken: set<Thread>)
    requires InExit(s.worker)
    ensures Refines(s, ExitStep(s, woken), EventOf(s, Work(false, woken)))
  {
  }

  lemma BodyRefines(s: State, i: nat, woken: set<Thread>)
    requires i < |s.sups| && s.sups[i].Body?
    ensures Refines(s, BodyStep(s, i, s.sups[i].op, woken), EventOf(s, Sup(i, woken)))
  {
  }

  lemma InnerRefines(s: State, i: nat)
    requires i < |s.sups| && AtInner(s.sups[i])
    ensures Refines(s, InnerStep(s, i), Stutter)
  {
  }

  lemma OuterRefines(s: State, i: nat)
    requires i < |s.sups| && SupReady(s, i) && !AtInner(s.sups[i]) && !s.sups[i].Body?
    ensures Refines(s, OuterStep(s, i), Stutter)
  {
  }

  lemma SupRefines(s: State, i: nat, woken: set<Thread>)
    requires Enabled(s, Sup(i, woken))
    ensures Refines(s, SupStep(s, i, woken), EventOf(s, Sup(i, woken)))
  {
    if s.sups[i].Body? {
      BodyRefines(s, i, woken);
    } else if AtInner(s.sups[i]) {
      InnerRefines(s, i);
    } else {
      OuterRefines(s, i);
    }
  }

  lemma StepRefines(s: State, l: Label)
    requires Inv(s) && Enabled(s, l)
    ensures Refines(s, Next(s, l), EventOf(s, l))
  {
    match l
    case Work(shouldExit, woken) =>
      if InExit(s.worker) {
        ExitRefines(s, woken);
      } else if InWait(s.worker) {
        WaitRefines(s, woken);
      } else {
        LoopRefines(s, shouldExit);
      }
    case Sup(i, woken) => SupRefines(s, i, woken);
    case _ =>
  }

  /** Every run is a run of the specification, with the same mode and permission at its
      end, and its acknowledgements are the specification's pauses and resumes. */
  lemma {:induction false} RunRefines(s: State, ls: seq<Label>)
    requires Inv(s) && Runs(s, ls)
    ensures AllAllowed(View(s), Events(s, ls))
    ensures View(After(s, ls)) == Final(View(s), Events(s, ls))
    ensures After(s, ls).pauses == s.pauses + Count(Events(s, ls), DoPause)
    ensures After(s, ls).resumes == s.resumes + Count(Events(s, ls), DoResume)
    decreases |ls|
  {
    if ls != [] {
      var l, rest := ls[0], ls[1..];
      StepRefines(s, l);
      StepKeepsInv(s, l);
      RunRefines(Next(s, l), rest);
      var es := Events(s, ls);
      assert es[0] == EventOf(s, l) && es[1..] == Events(Next(s, l), rest);
    }
  }

  /** In the specification pauses and resumes alternate until the exit. */
  lemma {:induction false} Alternates(a: Abstract, es: seq<Event>)
    requires AllAllowed(a, es)
    ensures a.mode == Exited ==> Final(a, es).mode == Exited
    ensures Final(a, es).mode != Exited ==>
              (if a.mode == Suspended then 1 else 0) + Count(es, DoPause) - Count(es, DoResume)
              == if Final(a, es).mode == Suspended then 1 else 0
    decreases |es|
  {
    if es != [] {
      Alternates(Result(a, es[0]), es[1..]);
    }
  }

  /** Before exit, acknowledged pauses and resumes balance: their difference, counting a
      paused start as a pause, is 1 exactly while the thread is suspended. */
  lemma AcksBalance(startPaused: bool, n: nat, ls: seq<Label>)
    requires Runs(Init(startPaused, n), ls)
    ensures
      var s := After(Init(startPaused, n), ls);
      s.st != RequestExit ==>
        (if startPaused then 1 else 0) + s.pauses - s.resumes
        == if s.st == Paused || s.st == RequestRun then 1 else 0
  {
    var s := Init(startPaused, n);
    InitInv(startPaused, n);
    RunRefines(s, ls);
    Alternates(View(s), Events(s, ls));
  }
}
