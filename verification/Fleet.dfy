/** A vehicle's parts: one managed thread each, all interleaved, managed in order by the
    one thread that starts the vehicle and later stops it. */
module Fleet {
  import opened TaskStatus
  import opened Handshake
  import opened Invariants
  import opened Hangs
  import opened Solo

  /** What Part::start() and Part::shutdown() call on a threaded part. */
  const START_OPS: seq<Op> := [Start, Ask(Run)]
  const STOP_OPS: seq<Op> := [GracefulExit, Join]

  function Issue(k: nat, ops: seq<Op>): Calls {
    if ops == [] then [] else [(k, ops[0])] + Issue(k, ops[1..])
  }

  /** The calls of a loop over the parts from index k on; an unthreaded part gets none. */
  function CallsFrom(threaded: seq<bool>, ops: seq<Op>, k: nat): Calls
    requires k <= |threaded|
    decreases |threaded| - k
  {
    if k == |threaded| then []
    else (if threaded[k] then Issue(k, ops) else []) + CallsFrom(threaded, ops, k + 1)
  }

  /** The calls that are for part k. */
  function Rest(calls: Calls, k: nat): seq<Op> {
    if calls == [] then []
    else (if calls[0].0 == k then [calls[0].1] else []) + Rest(calls[1..], k)
  }

  lemma {:induction false} RestAppend(a: Calls, b: Calls, k: nat)
    ensures Rest(a + b, k) == Rest(a, k) + Rest(b, k)
  {
    if a == [] {
      assert a + b == b;
    } else {
      assert (a + b)[0] == a[0] && (a + b)[1..] == a[1..] + b;
      RestAppend(a[1..], b, k);
      var head := if a[0].0 == k then [a[0].1] else [];
      assert Rest(a, k) == head + Rest(a[1..], k) && Rest(a + b, k) == head + Rest(a[1..] + b, k);
    }
  }

  lemma {:induction false} RestIssue(k: nat, ops: seq<Op>, j: nat)
    ensures Rest(Issue(k, ops), j) == if j == k then ops else []
  {
    if ops != [] {
      assert Issue(k, ops)[1..] == Issue(k, ops[1..]);
      RestIssue(k, ops[1..], j);
    }
  }

  lemma {:induction false} RestCalls(threaded: seq<bool>, ops: seq<Op>, k: nat, j: nat)
    requires k <= |threaded|
    ensures Rest(CallsFrom(threaded, ops, k), j) == if k <= j < |threaded| && threaded[j] then ops else []
    decreases |threaded| - k
  {
    if k < |threaded| {
      RestCalls(threaded, ops, k + 1, j);
      RestIssue(k, ops, j);
      RestAppend(if threaded[k] then Issue(k, ops) else [], CallsFrom(threaded, ops, k + 1), j);
    }
  }

  /** The parts come in list order. */
  predicate InListOrder(calls: Calls) {
    forall i, j :: 0 <= i < j < |calls| ==> calls[i].0 <= calls[j].0
  }

  predicate OnlyParts(calls: Calls, low: nat, high: nat) {
    forall i :: 0 <= i < |calls| ==> low <= calls[i].0 < high
  }

  predicate OnlyOps(calls: Calls, ops: seq<Op>) {
    forall i :: 0 <= i < |calls| ==> calls[i].1 in ops
  }

  lemma {:induction false} IssueOrder(k: nat, ops: seq<Op>)
    ensures InListOrder(Issue(k, ops)) && OnlyParts(Issue(k, ops), k, k + 1) && OnlyOps(Issue(k, ops), ops)
  {
    if ops != [] {
      IssueOrder(k, ops[1..]);
      assert Issue(k, ops)[1..] == Issue(k, ops[1..]);
    }
  }

  lemma {:induction false} CallsOrder(threaded: seq<bool>, ops: seq<Op>, k: nat)
    requires k <= |threaded|
    ensures InListOrder(CallsFrom(threaded, ops, k))
    ensures OnlyParts(CallsFrom(threaded, ops, k), k, |threaded|)
    ensures OnlyOps(CallsFrom(threaded, ops, k), ops)
    decreases |threaded| - k
  {
    if k < |threaded| {
      CallsOrder(threaded, ops, k + 1);
      IssueOrder(k, ops);
    }
  }

  lemma OnePart(threaded: seq<bool>, ops: seq<Op>, k: nat, calls: Calls)
    requires k < |threaded|
    ensures calls + CallsFrom(threaded, ops, k)
            == (if threaded[k] then calls + Issue(k, ops) else calls) + CallsFrom(threaded, ops, k + 1)
  {
  }

  lemma CallsExactly(threaded: seq<bool>, ops: seq<Op>)
    ensures InListOrder(CallsFrom(threaded, ops, 0))
    ensures forall k: nat ::
              Rest(CallsFrom(threaded, ops, 0), k) == if k < |threaded| && threaded[k] then ops else []
  {
    CallsOrder(threaded, ops, 0);
    forall k: nat
      ensures Rest(CallsFrom(threaded, ops, 0), k) == if k < |threaded| && threaded[k] then ops else []
    {
      RestCalls(threaded, ops, 0, k);
    }
  }

  /** The loops of Vehicle::start_blocking() and Vehicle::stop(): the parts are called in
      list order, each threaded one with these calls in their order, the others not at all. */
  method LoopCalls(threaded: seq<bool>, ops: seq<Op>) returns (calls: Calls)
    ensures calls == CallsFrom(threaded, ops, 0)
    ensures InListOrder(calls)
    ensures forall k: nat :: Rest(calls, k) == if k < |threaded| && threaded[k] then ops else []
  {
    calls := [];
    for k := 0 to |threaded|
      invariant calls + CallsFrom(threaded, ops, k) == CallsFrom(threaded, ops, 0)
    {
      OnePart(threaded, ops, k, calls);
      if threaded[k] {
        calls := calls + Issue(k, ops);
      }
    }
    assert CallsFrom(threaded, ops, |threaded|) == [];
    assert calls == CallsFrom(threaded, ops, 0);
    CallsExactly(threaded, ops);
  }

  function FullScript(threaded: seq<bool>): Calls {
    CallsFrom(threaded, START_OPS, 0) + CallsFrom(threaded, STOP_OPS, 0)
  }

  /** All parts are started, in list order, before any is shut down, and that is in list
      order again. */
  lemma ScriptOrder(threaded: seq<bool>) returns (n: nat)
    ensures n <= |FullScript(threaded)|
    ensures OnlyOps(FullScript(threaded)[..n], [Start, Ask(Run)]) && InListOrder(FullScript(threaded)[..n])
    ensures OnlyOps(FullScript(threaded)[n..], [GracefulExit, Join]) && InListOrder(FullScript(threaded)[n..])
  {
    var starts, stops := CallsFrom(threaded, START_OPS, 0), CallsFrom(threaded, STOP_OPS, 0);
    n := |starts|;
    assert FullScript(threaded)[..n] == starts && FullScript(threaded)[n..] == stops;
    CallsOrder(threaded, START_OPS, 0);
    CallsOrder(threaded, STOP_OPS, 0);
  }

  // ----- the product of the parts

  datatype Fleet = Fleet(parts: seq<State>, script: Calls)

  datatype Move = Move(k: nat, l: Label)

  predicate PartIdle(s: State) {
    s.sups == [Idle]
  }

  predicate FleetIdle(f: Fleet) {
    forall k :: 0 <= k < |f.parts| ==> PartIdle(f.parts[k])
  }

  /** The vehicle's thread makes the next call only when it is in none. */
  predicate MoveEnabled(f: Fleet, m: Move) {
    && m.k < |f.parts| && Enabled(f.parts[m.k], m.l)
    && (m.l.Work? ==> !m.l.shouldExit)
    && (m.l.Call? ==> f.script != [] && f.script[0] == (m.k, m.l.op) && FleetIdle(f))
  }

  function MoveNext(f: Fleet, m: Move): Fleet
    requires MoveEnabled(f, m)
  {
    Fleet(f.parts[m.k := Next(f.parts[m.k], m.l)], if m.l.Call? then f.script[1..] else f.script)
  }

  predicate Moves(f: Fleet, ms: seq<Move>)
    decreases |ms|
  {
    ms == [] || (MoveEnabled(f, ms[0]) && Moves(MoveNext(f, ms[0]), ms[1..]))
  }

  function FleetAfter(f: Fleet, ms: seq<Move>): Fleet
    requires Moves(f, ms)
    decreases |ms|
  {
    if ms == [] then f else FleetAfter(MoveNext(f, ms[0]), ms[1..])
  }

  /** Parts are constructed paused, threaded or not. */
  function FleetInit(threaded: seq<bool>): Fleet {
    Fleet(seq(|threaded|, k => Init(true, 1)), FullScript(threaded))
  }

  // ----- the invariant, part by part

  predicate ResumePc(pc: SupervisorPc) {
    pc == LockOuter(Ask(Run)) || pc == LockInner(Ask(Run)) || pc == Body(Ask(Run))
    || AwaitsAnswer(pc, Run) || pc == UnlockOuter(Ask(Run)) || pc == Idle
  }

  /** Between the resume of Part::start() and the shutdown the part runs. */
  predicate RunsWhenStarted(s: State, todo: seq<Op>)
    requires |s.sups| == 1
  {
    |todo| == 2 ==> ResumePc(s.sups[0]) && (s.sups[0] == Idle ==> s.st == Running)
  }

  /** The calls that may still be ahead of a threaded part. */
  predicate PartTodo(todo: seq<Op>) {
    || todo == [Start, Ask(Run), GracefulExit, Join]
    || todo == [Ask(Run), GracefulExit, Join]
    || todo == [GracefulExit, Join]
    || todo == [Join]
    || todo == []
  }

  ghost predicate ThreadedInv(c: Play) {
    PlayInv(c) && PartTodo(c.todo) && RunsWhenStarted(c.sys, c.todo)
  }

  ghost predicate PartInv(s: State, todo: seq<Op>, threaded: bool) {
    if threaded then ThreadedInv(Play(s, todo)) else s == Init(true, 1) && todo == []
  }

  /** Every part is in order, and at most one of them is inside a management call. */
  ghost predicate FleetInv(f: Fleet, threaded: seq<bool>) {
    && |f.parts| == |threaded|
    && (forall k :: 0 <= k < |f.parts| ==> PartInv(f.parts[k], Rest(f.script, k), threaded[k]))
    && (forall j, k :: 0 <= j < k < |f.parts| ==> PartIdle(f.parts[j]) || PartIdle(f.parts[k]))
    && (forall i :: 0 <= i < |f.script| ==> f.script[i].0 < |f.parts|)
  }

  lemma RunningStays(s: State, todo: seq<Op>, woken: set<Thread>)
    requires |s.sups| == 1 && RunsWhenStarted(s, todo) && !InExit(s.worker)
    ensures |WorkerStep(s, false, woken).sups| == 1 && RunsWhenStarted(WorkerStep(s, false, woken), todo)
  {
  }

  lemma ResumeSteps(s: State, todo: seq<Op>, woken: set<Thread>)
    requires |s.sups| == 1 && RunsWhenStarted(s, todo) && SupAgrees(s.sups[0], s.st)
    ensures |SupStep(s, 0, woken).sups| == 1 && RunsWhenStarted(SupStep(s, 0, woken), todo)
  {
  }

  lemma RunsWork(s: State, todo: seq<Op>, l: Label)
    requires |s.sups| == 1 && RunsWhenStarted(s, todo) && !InExit(s.worker)
    requires Enabled(s, l) && l.Work? && !l.shouldExit
    ensures |Next(s, l).sups| == 1 && RunsWhenStarted(Next(s, l), todo)
  {
    RunningStays(s, todo, l.woken);
    assert Next(s, l) == WorkerStep(s, false, l.woken);
  }

  lemma RunsSup(s: State, todo: seq<Op>, l: Label)
    requires |s.sups| == 1 && RunsWhenStarted(s, todo) && SupAgrees(s.sups[0], s.st)
    requires Enabled(s, l) && l.Sup?
    ensures |Next(s, l).sups| == 1 && RunsWhenStarted(Next(s, l), todo)
  {
    ResumeSteps(s, todo, l.woken);
    assert Next(s, l) == SupStep(s, 0, l.woken);
  }

  lemma ThreadedFacts(c: Play)
    requires ThreadedInv(c)
    ensures |c.sys.sups| == 1 && !InExit(c.sys.worker) && SupAgrees(c.sys.sups[0], c.sys.st)
  {
  }

  lemma RunsOther(c: Play, l: Label)
    requires ThreadedInv(c) && PlayEnabled(c, l) && !l.Work? && !l.Sup?
    ensures |Next(c.sys, l).sups| == 1 && RunsWhenStarted(Next(c.sys, l), PlayNext(c, l).todo)
    ensures PartTodo(PlayNext(c, l).todo)
  {
  }

  lemma ThreadedStep(c: Play, l: Label)
    requires ThreadedInv(c) && PlayEnabled(c, l)
    ensures ThreadedInv(PlayNext(c, l))
  {
    PlayKeepsInv(c, l);
    ThreadedFacts(c);
    if l.Work? {
      RunsWork(c.sys, c.todo, l);
    } else if l.Sup? {
      RunsSup(c.sys, c.todo, l);
    } else {
      RunsOther(c, l);
    }
  }

  /** Only a worker's step leaves a part idle or not as it was found. */
  lemma StepOfIdle(s: State, l: Label)
    requires Enabled(s, l) && |s.sups| == 1
    ensures l.Sup? || l.WakeSup? ==> !PartIdle(s)
    ensures l.Work? || l.WakeWorker? ==> Next(s, l).sups == s.sups
  {
    if l.Work? {
      WorkerStaysThere(s, l.shouldExit, l.woken);
    }
  }

  lemma NothingMoves(s: State, l: Label)
    requires s == Init(true, 1) && Enabled(s, l)
    ensures l.Call?
  {
  }

  /** A move of part k is a step of its own play. */
  lemma MoveIsPlay(f: Fleet, m: Move)
    requires MoveEnabled(f, m)
    ensures PlayEnabled(Play(f.parts[m.k], Rest(f.script, m.k)), m.l)
    ensures MoveNext(f, m).parts[m.k] == Next(f.parts[m.k], m.l)
    ensures Rest(MoveNext(f, m).script, m.k) == PlayNext(Play(f.parts[m.k], Rest(f.script, m.k)), m.l).todo
  {
  }

  /** A move leaves the plays of all other parts alone. */
  lemma MoveFrames(f: Fleet, m: Move, j: nat)
    requires MoveEnabled(f, m) && j < |f.parts| && j != m.k
    ensures MoveNext(f, m).parts[j] == f.parts[j] && Rest(MoveNext(f, m).script, j) == Rest(f.script, j)
  {
  }

  lemma MoveKeepsParts(f: Fleet, threaded: seq<bool>, m: Move, j: nat)
    requires FleetInv(f, threaded) && MoveEnabled(f, m) && j < |f.parts|
    ensures PartInv(MoveNext(f, m).parts[j], Rest(MoveNext(f, m).script, j), threaded[j])
  {
    assert PartInv(f.parts[j], Rest(f.script, j), threaded[j]);
    if j != m.k {
      MoveFrames(f, m, j);
    } else {
      MoveIsPlay(f, m);
      PartSteps(f.parts[j], Rest(f.script, j), threaded[j], m.l);
    }
  }

  lemma PartSteps(s: State, todo: seq<Op>, threaded: bool, l: Label)
    requires PartInv(s, todo, threaded) && PlayEnabled(Play(s, todo), l)
    ensures PartInv(Next(s, l), PlayNext(Play(s, todo), l).todo, threaded)
  {
    if threaded {
      ThreadedStep(Play(s, todo), l);
    } else {
      NothingMoves(s, l);
    }
  }

  lemma MoveKeepsInv(f: Fleet, threaded: seq<bool>, m: Move)
    requires FleetInv(f, threaded) && MoveEnabled(f, m)
    ensures FleetInv(MoveNext(f, m), threaded)
  {
    var f' := MoveNext(f, m);
    forall k | 0 <= k < |f'.parts|
      ensures PartInv(f'.parts[k], Rest(f'.script, k), threaded[k])
    {
      MoveKeepsParts(f, threaded, m, k);
    }
    assert PartInv(f.parts[m.k], Rest(f.script, m.k), threaded[m.k]);
    StepOfIdle(f.parts[m.k], m.l);
    forall j, k | 0 <= j < k < |f'.parts|
      ensures PartIdle(f'.parts[j]) || PartIdle(f'.parts[k])
    {
      assert PartIdle(f.parts[j]) || PartIdle(f.parts[k]);
    }
  }

  lemma {:induction false} MovesKeepInv(f: Fleet, threaded: seq<bool>, ms: seq<Move>)
    requires FleetInv(f, threaded) && Moves(f, ms)
    ensures FleetInv(FleetAfter(f, ms), threaded)
    decreases |ms|
  {
    if ms != [] {
      MoveKeepsInv(f, threaded, ms[0]);
      MovesKeepInv(MoveNext(f, ms[0]), threaded, ms[1..]);
    }
  }

  lemma FleetInitInv(threaded: seq<bool>)
    ensures FleetInv(FleetInit(threaded), threaded)
  {
    var f := FleetInit(threaded);
    CallsOrder(threaded, START_OPS, 0);
    CallsOrder(threaded, STOP_OPS, 0);
    forall k | 0 <= k < |f.parts|
      ensures PartInv(f.parts[k], Rest(f.script, k), threaded[k])
    {
      RestOfFull(threaded, k);
      if threaded[k] {
        var todo := [Start, Ask(Run), GracefulExit, Join];
        assert todo[1..] == [Ask(Run), GracefulExit, Join];
        PlayInitInv(true, todo);
      }
    }
  }

  lemma RestOfFull(threaded: seq<bool>, k: nat)
    requires k < |threaded|
    ensures Rest(FullScript(threaded), k)
            == if threaded[k] then [Start, Ask(Run), GracefulExit, Join] else []
  {
    RestAppend(CallsFrom(threaded, START_OPS, 0), CallsFrom(threaded, STOP_OPS, 0), k);
    RestCalls(threaded, START_OPS, 0, k);
    RestCalls(threaded, STOP_OPS, 0, k);
  }

  // ----- the main results

  lemma StartedPart(s: State)
    requires ThreadedInv(Play(s, STOP_OPS)) && PartIdle(s)
    ensures s.st == Running && Serving(s.worker)
  {
    assert s.sups[0] == Idle;
  }

  /** After the start loop every threaded part has a live worker in state RUNNING, and no
      other part has a worker, for every list of parts and every interleaving. */
  lemma StartedFleet(threaded: seq<bool>, ms: seq<Move>, k: nat)
    requires Moves(FleetInit(threaded), ms) && k < |threaded|
    requires FleetIdle(FleetAfter(FleetInit(threaded), ms))
    requires FleetAfter(FleetInit(threaded), ms).script == CallsFrom(threaded, STOP_OPS, 0)
    ensures
      var f := FleetAfter(FleetInit(threaded), ms);
      && |f.parts| == |threaded|
      && (threaded[k] ==> f.parts[k].st == Running && Serving(f.parts[k].worker))
      && (!threaded[k] ==> f.parts[k] == Init(true, 1))
  {
    FleetInitInv(threaded);
    MovesKeepInv(FleetInit(threaded), threaded, ms);
    RestCalls(threaded, STOP_OPS, 0, k);
    var f := FleetAfter(FleetInit(threaded), ms);
    assert PartInv(f.parts[k], Rest(f.script, k), threaded[k]);
    assert PartIdle(f.parts[k]);
    if threaded[k] {
      StartedPart(f.parts[k]);
    }
  }

  lemma OverIsStill(s: State, l: Label)
    requires |s.sups| == 1 && PartIdle(s) && s.worker == NoThread && s.waiters == {} && Enabled(s, l)
    ensures l.Call?
  {
  }

  /** After stop() every threaded part's worker is finished and joined, in the exit state,
      and nothing in the whole vehicle can move any more; so no worker updates again. */
  lemma StoppedFleet(threaded: seq<bool>, ms: seq<Move>)
    requires Moves(FleetInit(threaded), ms)
    requires FleetIdle(FleetAfter(FleetInit(threaded), ms)) && FleetAfter(FleetInit(threaded), ms).script == []
    ensures
      var f := FleetAfter(FleetInit(threaded), ms);
      && |f.parts| == |threaded|
      && (forall k :: 0 <= k < |threaded| ==> f.parts[k].worker == NoThread)
      && (forall k :: 0 <= k < |threaded| && threaded[k] ==> f.parts[k].st == RequestExit)
      && (forall m :: !MoveEnabled(f, m))
  {
    FleetInitInv(threaded);
    MovesKeepInv(FleetInit(threaded), threaded, ms);
    var f := FleetAfter(FleetInit(threaded), ms);
    forall k | 0 <= k < |threaded|
      ensures f.parts[k].worker == NoThread && f.parts[k].waiters == {} && |f.parts[k].sups| == 1
      ensures threaded[k] ==> f.parts[k].st == RequestExit
    {
      assert PartInv(f.parts[k], Rest(f.script, k), threaded[k]);
      assert PartIdle(f.parts[k]);
      if threaded[k] {
        FinishedIsOver(Play(f.parts[k], []));
      }
    }
    forall m | MoveEnabled(f, m)
      ensures false
    {
      assert PartIdle(f.parts[m.k]);
      OverIsStill(f.parts[m.k], m.l);
    }
  }

  /** The next call can begin when none is open. */
  lemma NextCall(f: Fleet, threaded: seq<bool>) returns (m: Move)
    requires FleetInv(f, threaded) && FleetIdle(f) && f.script != []
    ensures MoveEnabled(f, m) && m.l.Call?
  {
    var k := f.script[0].0;
    assert k < |f.parts|;
    assert PartInv(f.parts[k], Rest(f.script, k), threaded[k]) && PartIdle(f.parts[k]);
    m := Move(k, Call(0, f.script[0].1));
  }

  /** The part whose call is open can move, and not by a time-out. */
  lemma OpenCallMoves(f: Fleet, threaded: seq<bool>, k: nat) returns (m: Move)
    requires FleetInv(f, threaded) && k < |f.parts| && !PartIdle(f.parts[k])
    ensures m.k == k && MoveEnabled(f, m) && !Timeout(m.l) && !m.l.Call?
  {
    assert PartInv(f.parts[k], Rest(f.script, k), threaded[k]);
    var c := Play(f.parts[k], Rest(f.script, k));
    assert c.sys.sups == [c.sys.sups[0]];
    HelpfulHelps(c);
    m := Move(k, Helpful(c));
  }

  /** Starting and stopping never get stuck: until all is over the next call can begin, or
      the very part whose call is open can move, in either case without a time-out. */
  lemma FleetNeverStuck(threaded: seq<bool>, ms: seq<Move>)
    requires Moves(FleetInit(threaded), ms)
    ensures
      var f := FleetAfter(FleetInit(threaded), ms);
      !(FleetIdle(f) && f.script == []) ==>
        exists m :: MoveEnabled(f, m) && !Timeout(m.l) && (m.l.Call? || !PartIdle(f.parts[m.k]))
  {
    FleetInitInv(threaded);
    MovesKeepInv(FleetInit(threaded), threaded, ms);
    var f := FleetAfter(FleetInit(threaded), ms);
    if FleetIdle(f) && f.script != [] {
      var m := NextCall(f, threaded);
    } else if !FleetIdle(f) {
      var k :| 0 <= k < |f.parts| && !PartIdle(f.parts[k]);
      var m := OpenCallMoves(f, threaded, k);
    }
  }

  predicate MovesWithoutTimeouts(ms: seq<Move>) {
    forall i :: 0 <= i < |ms| ==> !Timeout(ms[i].l)
  }

  /** Drives the one part that is inside a call to the end of that call. */
  lemma {:induction false} FinishCall(f: Fleet, threaded: seq<bool>, k: nat) returns (ms: seq<Move>)
    requires FleetInv(f, threaded) && k < |f.parts| && |f.parts[k].sups| == 1
    requires forall j :: 0 <= j < |f.parts| && j != k ==> PartIdle(f.parts[j])
    ensures Moves(f, ms) && MovesWithoutTimeouts(ms)
    ensures FleetIdle(FleetAfter(f, ms)) && FleetAfter(f, ms).script == f.script
    decreases SupRank(f.parts[k]), WaitRank(f.parts[k])
  {
    if PartIdle(f.parts[k]) {
      ms := [];
    } else {
      assert PartInv(f.parts[k], Rest(f.script, k), threaded[k]);
      var c := Play(f.parts[k], Rest(f.script, k));
      HelpfulHelps(c);
      var m := Move(k, Helpful(c));
      MoveKeepsInv(f, threaded, m);
      PlayKeepsInv(c, m.l);
      var rest := FinishCall(MoveNext(f, m), threaded, k);
      ms := [m] + rest;
      assert ms[0] == m && ms[1..] == rest;
    }
  }

  lemma {:induction false} MovesAppend(f: Fleet, ms: seq<Move>, ns: seq<Move>)
    requires Moves(f, ms) && Moves(FleetAfter(f, ms), ns)
    ensures Moves(f, ms + ns) && FleetAfter(f, ms + ns) == FleetAfter(FleetAfter(f, ms), ns)
    decreases |ms|
  {
    if ms == [] {
      assert ms + ns == ns;
    } else {
      assert (ms + ns)[0] == ms[0] && (ms + ns)[1..] == ms[1..] + ns;
      MovesAppend(MoveNext(f, ms[0]), ms[1..], ns);
    }
  }

  /** What it takes to continue a run: it has kept the invariant and no call is open. */
  ghost predicate Rested(f: Fleet, threaded: seq<bool>, ms: seq<Move>) {
    && Moves(f, ms) && MovesWithoutTimeouts(ms)
    && FleetInv(FleetAfter(f, ms), threaded) && FleetIdle(FleetAfter(f, ms))
  }

  /** Closes the call that is open, if there is one. */
  lemma FinishOpen(f: Fleet, threaded: seq<bool>) returns (ms: seq<Move>)
    requires FleetInv(f, threaded)
    ensures Rested(f, threaded, ms) && FleetAfter(f, ms).script == f.script
  {
    if FleetIdle(f) {
      ms := [];
    } else {
      var k :| 0 <= k < |f.parts| && !PartIdle(f.parts[k]);
      assert PartInv(f.parts[k], Rest(f.script, k), threaded[k]);
      ms := FinishCall(f, threaded, k);
      MovesKeepInv(f, threaded, ms);
    }
  }

  /** Makes the next call and sees it through. */
  lemma FinishNext(f: Fleet, threaded: seq<bool>) returns (ms: seq<Move>)
    requires FleetInv(f, threaded) && FleetIdle(f) && f.script != []
    ensures Rested(f, threaded, ms) && |FleetAfter(f, ms).script| < |f.script|
  {
    var m := NextCall(f, threaded);
    MoveKeepsInv(f, threaded, m);
    var rest := FinishOpen(MoveNext(f, m), threaded);
    ms := [m] + rest;
    assert ms[0] == m && ms[1..] == rest;
  }

  lemma {:induction false} FinishCalls(f: Fleet, threaded: seq<bool>) returns (ms: seq<Move>)
    requires FleetInv(f, threaded) && FleetIdle(f)
    ensures Rested(f, threaded, ms) && FleetAfter(f, ms).script == []
    decreases |f.script|
  {
    if f.script == [] {
      ms := [];
    } else {
      var first := FinishNext(f, threaded);
      var rest := FinishCalls(FleetAfter(f, first), threaded);
      MovesAppend(f, first, rest);
      ms := first + rest;
    }
  }

  /** From wherever starting and stopping have got to, the vehicle can be brought to the
      end of stop(), without any wait timing out. */
  lemma FleetCanFinish(threaded: seq<bool>, ms: seq<Move>) returns (ns: seq<Move>)
    requires Moves(FleetInit(threaded), ms)
    ensures
      var f := FleetAfter(FleetInit(threaded), ms);
      && Moves(f, ns) && MovesWithoutTimeouts(ns)
      && FleetIdle(FleetAfter(f, ns)) && FleetAfter(f, ns).script == []
  {
    FleetInitInv(threaded);
    MovesKeepInv(FleetInit(threaded), threaded, ms);
    var f := FleetAfter(FleetInit(threaded), ms);
    var first := FinishOpen(f, threaded);
    var rest := FinishCalls(FleetAfter(f, first), threaded);
    MovesAppend(f, first, rest);
    ns := first + rest;
  }

  // ----- parts are held back until their resume

  /** Until its resume has begun a part has made no update and is paused. */
  predicate HeldBack(c: Play) {
    |c.todo| >= 3 ==>
      && c.sys.st == Paused && c.sys.updates == 0 && !Granted(c.sys.worker)
      && (c.sys.sups == [Idle] || c.sys.sups == [LockOuter(Start)] || c.sys.sups == [ClearFlag]
          || c.sys.sups == [Spawn] || c.sys.sups == [UnlockOuter(Start)])
  }

  lemma HeldBackWork(s: State, woken: set<Thread>)
    requires s.st == Paused && !Granted(s.worker) && !InExit(s.worker)
    ensures
      var s' := WorkerStep(s, false, woken);
      s'.st == Paused && s'.updates == s.updates && !Granted(s'.worker) && s'.sups == s.sups
  {
  }

  lemma HeldBackStep(c: Play, l: Label)
    requires ThreadedInv(c) && HeldBack(c) && PlayEnabled(c, l)
    ensures HeldBack(PlayNext(c, l))
  {
    ThreadedFacts(c);
    if l.Work? {
      if |c.todo| >= 3 {
        HeldBackWork(c.sys, l.woken);
      }
    } else if l.Call? {
      assert c.todo == [Start, Ask(Run), GracefulExit, Join] || |c.todo| <= 3;
    }
  }

  ghost predicate AllHeldBack(f: Fleet, threaded: seq<bool>) {
    forall k :: 0 <= k < |f.parts| && k < |threaded| && threaded[k] ==> HeldBack(Play(f.parts[k], Rest(f.script, k)))
  }

  lemma MoveHoldsBack(f: Fleet, threaded: seq<bool>, m: Move)
    requires FleetInv(f, threaded) && AllHeldBack(f, threaded) && MoveEnabled(f, m)
    ensures AllHeldBack(MoveNext(f, m), threaded)
  {
    forall k | 0 <= k < |f.parts| && threaded[k]
      ensures HeldBack(Play(MoveNext(f, m).parts[k], Rest(MoveNext(f, m).script, k)))
    {
      assert PartInv(f.parts[k], Rest(f.script, k), threaded[k]);
      if k == m.k {
        MoveIsPlay(f, m);
        HeldBackStep(Play(f.parts[k], Rest(f.script, k)), m.l);
      } else {
        MoveFrames(f, m, k);
      }
    }
  }

  lemma {:induction false} MovesHoldBack(f: Fleet, threaded: seq<bool>, ms: seq<Move>)
    requires FleetInv(f, threaded) && AllHeldBack(f, threaded) && Moves(f, ms)
    ensures FleetInv(FleetAfter(f, ms), threaded) && AllHeldBack(FleetAfter(f, ms), threaded)
    decreases |ms|
  {
    if ms != [] {
      MoveHoldsBack(f, threaded, ms[0]);
      MoveKeepsInv(f, threaded, ms[0]);
      MovesHoldBack(MoveNext(f, ms[0]), threaded, ms[1..]);
    }
  }

  /** No part's worker updates before the start loop has come to the part's resume, and an
      unthreaded part has no worker that could. */
  lemma NoUpdateBeforeResume(threaded: seq<bool>, ms: seq<Move>, k: nat)
    requires Moves(FleetInit(threaded), ms) && k < |threaded|
    ensures
      var f := FleetAfter(FleetInit(threaded), ms);
      && |f.parts| == |threaded|
      && (Ask(Run) in Rest(f.script, k) || !threaded[k] ==> f.parts[k].st == Paused && f.parts[k].updates == 0)
  {
    FleetInitInv(threaded);
    MovesHoldBack(FleetInit(threaded), threaded, ms);
    var f := FleetAfter(FleetInit(threaded), ms);
    assert PartInv(f.parts[k], Rest(f.script, k), threaded[k]);
    if threaded[k] {
      assert HeldBack(Play(f.parts[k], Rest(f.script, k)));
      if Ask(Run) in Rest(f.script, k) {
        ResumeAhead(Play(f.parts[k], Rest(f.script, k)));
      }
    }
  }

  lemma ResumeAhead(c: Play)
    requires PartTodo(c.todo) && HeldBack(c) && Ask(Run) in c.todo
    ensures c.sys.st == Paused && c.sys.updates == 0
  {
  }
}
