/** The five-state task status shared by a managed thread and its supervisors.

    The pure functions below decide each critical section of the status; the
    transition system of module Handshake is built from them, and the class at the
    end runs the same methods in place, against every environment that may change the
    state while a method waits on the condition variable. */
module TaskStatus {

  datatype TaskState = Running | RequestPause | Paused | RequestRun | RequestExit

  /** What a supervisor can ask of the worker: suspend() asks Pause, resume() asks Run. */
  datatype Request = Pause | Run

  /** The state a supervisor writes when it asks. */
  function Requested(r: Request): TaskState {
    match r
    case Pause => RequestPause
    case Run => RequestRun
  }

  /** The state the worker writes to acknowledge. */
  function Target(r: Request): TaskState {
    match r
    case Pause => Paused
    case Run => Running
  }

  function Opposite(r: Request): Request {
    match r
    case Pause => Run
    case Run => Pause
  }

  /** The assertions of the management API, by the rule that fails. */
  datatype Site = AgainstOpposite | AfterExit | AlreadyStarted

  /** The outcome of the first part of a blocking request, before any wait. */
  datatype Entry = Refused(site: Site) | Already | Asks

  function RequestEntry(st: TaskState, r: Request): Entry {
    if st == Requested(Opposite(r)) then Refused(AgainstOpposite)
    else if st == RequestExit then Refused(AfterExit)
    else if st == Target(r) then Already
    else Asks
  }

  /** What wait_to_run decides when it looks at the state. */
  datatype Verdict = Answer(go: bool, next: TaskState, signals: bool) | Waits

  /** The loop test of wait_to_run. */
  function LoopVerdict(st: TaskState): Verdict {
    if st == RequestRun then Answer(true, Running, true) else Waits
  }

  function EntryVerdict(st: TaskState): Verdict {
    match st
    case Running => Answer(true, Running, false)
    case RequestExit => Answer(false, RequestExit, false)
    case RequestPause => Answer(false, Paused, true)
    case _ => LoopVerdict(st)
  }

  /** What wait_to_run decides after each wake-up. */
  function WokenVerdict(st: TaskState): Verdict {
    if st == RequestExit then Answer(false, RequestExit, false) else LoopVerdict(st)
  }

  /** How a call ended: it failed an assertion, it returned, or it is still waiting
      after every wake-up it was given. */
  datatype Outcome = Aborted(site: Site) | Returned(go: bool) | StillWaiting

  /** The wake-up at which a request returns: the first that finds the target. */
  function FirstIndex(wakes: seq<TaskState>, st: TaskState): (k: nat)
    ensures k <= |wakes|
    ensures forall j :: 0 <= j < k ==> wakes[j] != st
    ensures k < |wakes| ==> wakes[k] == st
  {
    if wakes == [] || wakes[0] == st then 0 else 1 + FirstIndex(wakes[1..], st)
  }

  /** The wake-up at which wait_to_run answers: the first that finds REQUEST_RUN or
      REQUEST_EXIT. */
  function FirstAnswer(wakes: seq<TaskState>): (k: nat)
    ensures k <= |wakes|
    ensures forall j :: 0 <= j < k ==> WokenVerdict(wakes[j]).Waits?
    ensures k < |wakes| ==> WokenVerdict(wakes[k]).Answer?
  {
    if wakes == [] || WokenVerdict(wakes[0]).Answer? then 0 else 1 + FirstAnswer(wakes[1..])
  }

  /** The object itself. A call holds the mutex except while it waits, so the only
      interference is at a wait: wakes[k] is the state that the call finds when it
      owns the mutex again after its wait number k, whatever woke it. */
  class ManagedTaskStatus {
    var state: TaskState
    var triggers: nat

    constructor (running: bool)
      ensures state == if running then Running else Paused
      ensures triggers == 0
    {
      state := if running then Running else Paused;
      triggers := 0;
    }

    method PauseTaskBlocking(wakes: seq<TaskState>) returns (outcome: Outcome, waits: nat)
      modifies this
      ensures
        match RequestEntry(old(state), Pause)
        case Refused(site) =>
          outcome == Aborted(site) && waits == 0 && state == old(state) && triggers == old(triggers)
        case Already =>
          outcome == Returned(true) && waits == 0 && state == Paused && triggers == old(triggers)
        case Asks =>
          && triggers == old(triggers) + 1
          && var k := FirstIndex(wakes, Paused);
          if k < |wakes| then outcome == Returned(true) && waits == k + 1 && state == Paused
          else
            && outcome == StillWaiting && waits == |wakes|
            && state == if wakes == [] then RequestPause else wakes[|wakes| - 1]
      ensures outcome == Aborted(AgainstOpposite) <==> old(state) == RequestRun
      ensures outcome == Aborted(AfterExit) <==> old(state) == RequestExit
      ensures outcome.Returned? ==> state == Paused
      ensures outcome == StillWaiting ==> (old(state) == Running || old(state) == RequestPause) && Paused !in wakes
      ensures triggers == old(triggers) + if old(state) == Running || old(state) == RequestPause then 1 else 0
    {
      waits := 0;
      if state == RequestRun { return Aborted(AgainstOpposite), 0; }
      if state == RequestExit { return Aborted(AfterExit), 0; }
      if state == Paused { return Returned(true), 0; }
      state := RequestPause;
      triggers := triggers + 1;
      while state != Paused
        invariant waits <= FirstIndex(wakes, Paused) || (state == Paused && waits == FirstIndex(wakes, Paused) + 1)
        invariant waits <= |wakes|
        invariant state == if waits == 0 then RequestPause else wakes[waits - 1]
        invariant triggers == old(triggers) + 1
        decreases |wakes| - waits
      {
        if waits == |wakes| { return StillWaiting, waits; }
        state := wakes[waits];
        waits := waits + 1;
      }
      outcome := Returned(true);
    }

    method ResumeTaskBlocking(wakes: seq<TaskState>) returns (outcome: Outcome, waits: nat)
      modifies this
      ensures
        match RequestEntry(old(state), Run)
        case Refused(site) =>
          outcome == Aborted(site) && waits == 0 && state == old(state) && triggers == old(triggers)
        case Already =>
          outcome == Returned(true) && waits == 0 && state == Running && triggers == old(triggers)
        case Asks =>
          && triggers == old(triggers) + 1
          && var k := FirstIndex(wakes, Running);
          if k < |wakes| then outcome == Returned(true) && waits == k + 1 && state == Running
          else
            && outcome == StillWaiting && waits == |wakes|
            && state == if wakes == [] then RequestRun else wakes[|wakes| - 1]
      ensures outcome == Aborted(AgainstOpposite) <==> old(state) == RequestPause
      ensures outcome == Aborted(AfterExit) <==> old(state) == RequestExit
      ensures outcome.Returned? ==> state == Running
      ensures outcome == StillWaiting ==> (old(state) == Paused || old(state) == RequestRun) && Running !in wakes
      ensures triggers == old(triggers) + if old(state) == Paused || old(state) == RequestRun then 1 else 0
    {
      waits := 0;
      if state == RequestPause { return Aborted(AgainstOpposite), 0; }
      if state == RequestExit { return Aborted(AfterExit), 0; }
      if state == Running { return Returned(true), 0; }
      state := RequestRun;
      triggers := triggers + 1;
      while state != Running
        invariant waits <= FirstIndex(wakes, Running) || (state == Running && waits == FirstIndex(wakes, Running) + 1)
        invariant waits <= |wakes|
        invariant state == if waits == 0 then RequestRun else wakes[waits - 1]
        invariant triggers == old(triggers) + 1
        decreases |wakes| - waits
      {
        if waits == |wakes| { return StillWaiting, waits; }
        state := wakes[waits];
        waits := waits + 1;
      }
      outcome := Returned(true);
    }

    method WaitToRun(wakes: seq<TaskState>) returns (outcome: Outcome, waits: nat)
      modifies this
      ensures
        match EntryVerdict(old(state))
        case Answer(go, next, signals) =>
          && outcome == Returned(go) && waits == 0 && state == next
          && triggers == old(triggers) + (if signals then 1 else 0)
        case Waits =>
          var k := FirstAnswer(wakes);
          if k < |wakes| then
            var v := WokenVerdict(wakes[k]);
            && outcome == Returned(v.go) && waits == k + 1 && state == v.next
            && triggers == old(triggers) + (if v.signals then 1 else 0)
          else
            && outcome == StillWaiting && waits == |wakes| && triggers == old(triggers)
            && state == if wakes == [] then old(state) else wakes[|wakes| - 1]
      ensures outcome == Returned(true) ==> state == Running
      ensures outcome == Returned(false) ==> state == Paused || state == RequestExit
      ensures outcome == StillWaiting <==> old(state) == Paused && RequestRun !in wakes && RequestExit !in wakes
      ensures triggers == old(triggers)
                          + if outcome.Returned? && state != old(state) && state != RequestExit then 1 else 0
    {
      waits := 0;
      if state == Running { return Returned(true), 0; }
      if state == RequestExit { return Returned(false), 0; }
      if state == RequestPause {
        state := Paused;
        triggers := triggers + 1;
        return Returned(false), 0;
      }
      while state != RequestRun
        invariant waits <= FirstAnswer(wakes) || (state == RequestRun && waits == FirstAnswer(wakes) + 1)
        invariant waits <= |wakes|
        invariant if waits == 0 then state == old(state) else old(state) == Paused && state == wakes[waits - 1]
        invariant triggers == old(triggers)
        decreases |wakes| - waits
      {
        if waits == |wakes| { return StillWaiting, waits; }
        state := wakes[waits];
        waits := waits + 1;
        if state == RequestExit { return Returned(false), waits; }
      }
      state := Running;
      triggers := triggers + 1;
      outcome := Returned(true);
    }

    method SetExitFlagBlocking()
      modifies this
      ensures state == RequestExit && triggers == old(triggers) + 1
    {
      state := RequestExit;
      triggers := triggers + 1;
    }

    method IsPaused() returns (b: bool)
      ensures b <==> state == Paused
    {
      b := state == Paused;
    }
  }
}
