/** Concurrent calls of the locked map agree with a plain map used by one thread, in the
    order in which the calls took the mutex. */
module Linearizability {
  import opened LockedMap

  /** A call that has taken the mutex: its number and what it does. */
  datatype Record<K, V> = Record(id: nat, op: MapOp<K, V>)

  function Replay<K, V>(order: seq<Record<K, V>>): map<K, V> {
    if order == [] then map[] else Effect(Replay(order[..|order| - 1]), order[|order| - 1].op)
  }

  /** A thread: outside, queueing for the mutex, inside before and after the operation. */
  datatype Pc<K, V> =
    | Outside
    | Queued(id: nat, op: MapOp<K, V>)
    | Inside(id: nat, op: MapOp<K, V>)
    | Finished(id: nat, op: MapOp<K, V>, reply: Reply<V>)

  /** data and owner are the object. The rest is history: calls so far, those that have
      taken the mutex in that order, the replies of those that have returned, and for
      each call the calls that had returned before it began. */
  datatype State<K, V> = State(
    data: map<K, V>,
    owner: int,                       // the thread that holds the mutex, or -1
    pcs: seq<Pc<K, V>>,
    calls: seq<MapOp<K, V>>,
    order: seq<Record<K, V>>,
    place: map<nat, nat>,             // where a call is in order
    replies: map<nat, Reply<V>>,
    before: seq<set<nat>>)

  function Init<K, V>(n: nat): State<K, V> {
    State(map[], -1, seq(n, i => Outside), [], [], map[], map[], [])
  }

  datatype Label<K, V> = Invoke(t: nat, op: MapOp<K, V>) | Acquire(t: nat) | Act(t: nat) | Release(t: nat)

  predicate Enabled<K, V>(s: State<K, V>, l: Label<K, V>) {
    && l.t < |s.pcs|
    && match l
       case Invoke(t, _) => s.pcs[t].Outside?
       case Acquire(t) => s.pcs[t].Queued? && s.owner == -1
       case Act(t) => s.pcs[t].Inside?
       case Release(t) => s.pcs[t].Finished?
  }

  function Next<K, V>(s: State<K, V>, l: Label<K, V>): State<K, V>
    requires Enabled(s, l)
  {
    match l
    case Invoke(t, op) =>
      s.(pcs := s.pcs[t := Queued(|s.calls|, op)], calls := s.calls + [op],
         before := s.before + [s.replies.Keys])
    case Acquire(t) =>
      var q := s.pcs[t];
      s.(pcs := s.pcs[t := Inside(q.id, q.op)], owner := t,
         order := s.order + [Record(q.id, q.op)], place := s.place[q.id := |s.order|])
    case Act(t) =>
      var q := s.pcs[t];
      s.(pcs := s.pcs[t := Finished(q.id, q.op, ReplyOf(s.data, q.op))], data := Effect(s.data, q.op))
    case Release(t) =>
      var q := s.pcs[t];
      s.(pcs := s.pcs[t := Outside], owner := -1, replies := s.replies[q.id := q.reply])
  }

  predicate Runs<K, V>(s: State<K, V>, ls: seq<Label<K, V>>)
    decreases |ls|
  {
    ls == [] || (Enabled(s, ls[0]) && Runs(Next(s, ls[0]), ls[1..]))
  }

  function After<K, V>(s: State<K, V>, ls: seq<Label<K, V>>): State<K, V>
    requires Runs(s, ls)
    decreases |ls|
  {
    if ls == [] then s else After(Next(s, ls[0]), ls[1..])
  }

  // ----- the invariant

  predicate Holds<K, V>(pc: Pc<K, V>) {
    pc.Inside? || pc.Finished?
  }

  /** One thread at most is inside, the owner of the mutex; its call is the last to have
      taken it. The data are the replay of all calls but one that has not acted yet. */
  ghost predicate Exclusive<K, V>(s: State<K, V>) {
    && (forall t :: 0 <= t < |s.pcs| ==> (Holds(s.pcs[t]) <==> s.owner == t))
    && -1 <= s.owner < |s.pcs|
    && (s.owner == -1 ==> s.data == Replay(s.order))
    && (s.owner != -1 ==>
          && var pc := s.pcs[s.owner];
          && s.order != [] && s.order[|s.order| - 1] == Record(pc.id, pc.op)
          && var earlier := Replay(s.order[..|s.order| - 1]);
          && (pc.Inside? ==> s.data == earlier)
          && (pc.Finished? ==> s.data == Effect(earlier, pc.op) && pc.reply == ReplyOf(earlier, pc.op)))
  }

  /** Each call that has taken the mutex has one place in the order. */
  ghost predicate Placed<K, V>(s: State<K, V>) {
    && (forall id :: id in s.place ==> s.place[id] < |s.order| && s.order[s.place[id]].id == id)
    && (forall j :: 0 <= j < |s.order| ==>
          && s.order[j].id in s.place && s.place[s.order[j].id] == j
          && s.order[j].id < |s.calls| && s.order[j].op == s.calls[s.order[j].id])
  }

  ghost predicate Ordered<K, V>(s: State<K, V>) {
    Placed(s) && Exclusive(s)
  }

  /** The calls in progress are numbered apart; queued ones have no place yet, and those
      inside have not returned. */
  ghost predicate Numbered<K, V>(s: State<K, V>) {
    && (forall t :: 0 <= t < |s.pcs| && !s.pcs[t].Outside? ==>
          s.pcs[t].id < |s.calls| && s.pcs[t].op == s.calls[s.pcs[t].id] && s.pcs[t].id !in s.replies)
    && (forall t :: 0 <= t < |s.pcs| && s.pcs[t].Queued? ==> s.pcs[t].id !in s.place)
    && (forall t, u :: 0 <= t < u < |s.pcs| && !s.pcs[t].Outside? && !s.pcs[u].Outside? ==> s.pcs[t].id != s.pcs[u].id)
  }

  ghost predicate RepliedAt<K, V>(s: State<K, V>, id: nat) {
    && id in s.place && s.place[id] < |s.order| && id in s.replies
    && s.replies[id] == ReplyOf(Replay(s.order[..s.place[id]]), s.order[s.place[id]].op)
  }

  /** Replies are those of the plain map at the call's place. */
  ghost predicate Replied<K, V>(s: State<K, V>) {
    && (forall id :: id in s.replies ==> RepliedAt(s, id))
    && (forall j :: 0 <= j < |s.order| ==>
          s.order[j].id in s.replies || (s.owner != -1 && j == |s.order| - 1))
  }

  /** A call that had returned before another began comes first in the order. */
  ghost predicate RealTime<K, V>(s: State<K, V>) {
    && |s.before| == |s.calls|
    && (forall b :: 0 <= b < |s.before| ==> s.before[b] <= s.replies.Keys)
    && (forall a, b :: b in s.place && b < |s.before| && a in s.before[b] ==> a in s.place && s.place[a] < s.place[b])
  }

  ghost predicate Inv<K(!new), V(!new)>(s: State<K, V>) {
    Ordered(s) && Numbered(s) && Replied(s) && RealTime(s)
  }

  lemma InitInv<K(!new), V(!new)>(n: nat)
    ensures Inv(Init<K, V>(n))
  {
  }

  lemma InvokeKeepsOrder<K(!new), V(!new)>(s: State<K, V>, l: Label<K, V>)
    requires Inv(s) && Enabled(s, l) && l.Invoke?
    ensures Ordered(Next(s, l))
  {
  }

  lemma InvokeKeepsNumbered<K(!new), V(!new)>(s: State<K, V>, l: Label<K, V>)
    requires Inv(s) && Enabled(s, l) && l.Invoke?
    ensures Numbered(Next(s, l))
  {
  }

  lemma InvokeKeepsRealTime<K(!new), V(!new)>(s: State<K, V>, l: Label<K, V>)
    requires Inv(s) && Enabled(s, l) && l.Invoke?
    ensures RealTime(Next(s, l))
  {
    forall id | id in s.place
      ensures id < |s.calls|
    {
      assert s.order[s.place[id]].id == id;
    }
    OneCallMore(s, Next(s, l));
  }

  /** A new call has no place yet, and knows the calls that have returned. */
  lemma OneCallMore<K(!new), V(!new)>(s: State<K, V>, s': State<K, V>)
    requires RealTime(s) && forall id :: id in s.place ==> id < |s.calls|
    requires s'.place == s.place && s'.replies == s.replies
    requires s'.before == s.before + [s.replies.Keys] && |s'.calls| == |s.calls| + 1
    ensures RealTime(s')
  {
    assert forall b :: 0 <= b < |s.before| ==> s'.before[b] == s.before[b];
  }

  lemma AcquireKeepsPlaced<K(!new), V(!new)>(s: State<K, V>, l: Label<K, V>)
    requires Inv(s) && Enabled(s, l) && l.Acquire?
    ensures Placed(Next(s, l))
  {
    OnePlaceMore(s, Next(s, l), s.pcs[l.t].id, s.pcs[l.t].op);
  }

  /** The call gets the next place. */
  lemma OnePlaceMore<K(!new), V(!new)>(s: State<K, V>, s': State<K, V>, id: nat, op: MapOp<K, V>)
    requires Placed(s) && id !in s.place && id < |s.calls| && op == s.calls[id]
    requires s'.order == s.order + [Record(id, op)] && s'.place == s.place[id := |s.order|] && s'.calls == s.calls
    ensures Placed(s')
  {
    forall j | 0 <= j < |s.order|
      ensures s'.order[j] == s.order[j] && s.order[j].id != id
    {
      assert s.order[j].id in s.place;
    }
  }

  lemma AcquireKeepsExclusive<K(!new), V(!new)>(s: State<K, V>, l: Label<K, V>)
    requires Inv(s) && Enabled(s, l) && l.Acquire?
    ensures Exclusive(Next(s, l))
  {
    assert Next(s, l).order[..|s.order|] == s.order;
  }

  lemma AcquireKeepsReplied<K(!new), V(!new)>(s: State<K, V>, l: Label<K, V>)
    requires Inv(s) && Enabled(s, l) && l.Acquire?
    ensures Replied(Next(s, l))
  {
    var s' := Next(s, l);
    forall id | id in s'.replies
      ensures RepliedAt(s', id)
    {
      AcquireKeepsReply(s, l, id);
    }
  }

  lemma AcquireKeepsReply<K(!new), V(!new)>(s: State<K, V>, l: Label<K, V>, id: nat)
    requires Numbered(s) && Enabled(s, l) && l.Acquire? && RepliedAt(s, id)
    ensures RepliedAt(Next(s, l), id)
  {
    assert Next(s, l).order[..s.place[id]] == s.order[..s.place[id]];
    assert id != s.pcs[l.t].id;
  }

  lemma AcquireKeepsNumbered<K(!new), V(!new)>(s: State<K, V>, l: Label<K, V>)
    requires Inv(s) && Enabled(s, l) && l.Acquire?
    ensures Numbered(Next(s, l))
  {
  }

  lemma AcquireKeepsRealTime<K(!new), V(!new)>(s: State<K, V>, l: Label<K, V>)
    requires Inv(s) && Enabled(s, l) && l.Acquire?
    ensures RealTime(Next(s, l))
  {
  }

  lemma ActKeepsOrder<K(!new), V(!new)>(s: State<K, V>, l: Label<K, V>)
    requires Inv(s) && Enabled(s, l) && l.Act?
    ensures Ordered(Next(s, l))
  {
  }

  lemma ActKeepsHistory<K(!new), V(!new)>(s: State<K, V>, l: Label<K, V>)
    requires Inv(s) && Enabled(s, l) && l.Act?
    ensures Numbered(Next(s, l)) && Replied(Next(s, l)) && RealTime(Next(s, l))
  {
  }

  lemma ReleaseKeepsOrder<K(!new), V(!new)>(s: State<K, V>, l: Label<K, V>)
    requires Inv(s) && Enabled(s, l) && l.Release?
    ensures Ordered(Next(s, l))
  {
  }

  lemma ReleaseKeepsReplied<K(!new), V(!new)>(s: State<K, V>, l: Label<K, V>)
    requires Inv(s) && Enabled(s, l) && l.Release?
    ensures Replied(Next(s, l))
  {
    var s' := Next(s, l);
    var id := s.pcs[l.t].id;
    assert s.owner == l.t && id in s.place && s.place[id] == |s.order| - 1;
    assert s'.order == s.order && s'.place == s.place && s'.replies == s.replies[id := s.pcs[l.t].reply];
    forall other | other in s'.replies
      ensures RepliedAt(s', other)
    {
      assert other != id ==> RepliedAt(s, other);
    }
  }

  lemma ReleaseKeepsNumbered<K(!new), V(!new)>(s: State<K, V>, l: Label<K, V>)
    requires Inv(s) && Enabled(s, l) && l.Release?
    ensures Numbered(Next(s, l))
  {
  }

  lemma ReleaseKeepsRealTime<K(!new), V(!new)>(s: State<K, V>, l: Label<K, V>)
    requires Inv(s) && Enabled(s, l) && l.Release?
    ensures RealTime(Next(s, l))
  {
  }

  lemma StepKeepsInv<K(!new), V(!new)>(s: State<K, V>, l: Label<K, V>)
    requires Inv(s) && Enabled(s, l)
    ensures Inv(Next(s, l))
  {
    match l
    case Invoke(_, _) =>
      InvokeKeepsOrder(s, l);
      InvokeKeepsNumbered(s, l);
      InvokeKeepsRealTime(s, l);
    case Acquire(_) =>
      AcquireKeepsPlaced(s, l);
      AcquireKeepsExclusive(s, l);
      AcquireKeepsReplied(s, l);
      AcquireKeepsNumbered(s, l);
      AcquireKeepsRealTime(s, l);
    case Act(_) =>
      ActKeepsOrder(s, l);
      ActKeepsHistory(s, l);
    case Release(_) =>
      ReleaseKeepsOrder(s, l);
      ReleaseKeepsReplied(s, l);
      ReleaseKeepsNumbered(s, l);
      ReleaseKeepsRealTime(s, l);
  }

  lemma {:induction false} RunKeepsInv<K(!new), V(!new)>(s: State<K, V>, ls: seq<Label<K, V>>)
    requires Inv(s) && Runs(s, ls)
    ensures Inv(After(s, ls))
    decreases |ls|
  {
    if ls != [] {
      StepKeepsInv(s, ls[0]);
      RunKeepsInv(Next(s, ls[0]), ls[1..]);
    }
  }

  /** The order is a sequential history of s: every returned call is in it once, with the
      operation it was called with and the reply of a plain map; a call that returned
      before another was invoked precedes it. */
  ghost predicate Linearizes<K, V>(order: seq<Record<K, V>>, s: State<K, V>) {
    && (forall i, j :: 0 <= i < j < |order| ==> order[i].id != order[j].id)
    && (forall j :: 0 <= j < |order| ==> order[j].id < |s.calls| && order[j].op == s.calls[order[j].id])
    && (forall id :: id in s.replies ==> exists j :: 0 <= j < |order| && order[j].id == id)
    && (forall j :: 0 <= j < |order| && order[j].id in s.replies ==>
          s.replies[order[j].id] == ReplyOf(Replay(order[..j]), order[j].op))
    && (forall i, j :: 0 <= i < |order| && 0 <= j < |order| && order[j].id < |s.before| ==>
          order[i].id in s.before[order[j].id] ==> i < j)
  }

  /** Every run of any number of threads is linearizable, by the order in which the calls
      took the mutex; while no thread holds the mutex that order holds exactly the returned
      calls, and the data are what the plain map has become. */
  lemma Linearizable<K(!new), V(!new)>(n: nat, ls: seq<Label<K, V>>)
    requires Runs(Init<K, V>(n), ls)
    ensures
      var s := After(Init<K, V>(n), ls);
      && Linearizes(s.order, s)
      && |s.before| == |s.calls|
      && (s.owner == -1 ==>
            s.data == Replay(s.order) && forall j :: 0 <= j < |s.order| ==> s.order[j].id in s.replies)
  {
    InitInv<K, V>(n);
    RunKeepsInv(Init<K, V>(n), ls);
    var s := After(Init<K, V>(n), ls);
    forall id | id in s.replies
      ensures exists j :: 0 <= j < |s.order| && s.order[j].id == id
    {
      assert RepliedAt(s, id) && s.order[s.place[id]].id == id;
    }
  }

  // ----- what that means without the history variables and without the replay

  /** The history grows by a call exactly when one is invoked, and by a reply exactly when a
      call returns, with the reply that it computed while it had the mutex. */
  lemma HistoryLife<K(!new), V(!new)>(s: State<K, V>, l: Label<K, V>)
    requires Enabled(s, l)
    ensures Next(s, l).calls == if l.Invoke? then s.calls + [l.op] else s.calls
    ensures Next(s, l).replies == if l.Release? then s.replies[s.pcs[l.t].id := s.pcs[l.t].reply] else s.replies
    ensures s.order <= Next(s, l).order
    ensures l.Invoke? ==> Next(s, l).pcs[l.t] == Queued(|s.calls|, l.op)
  {
  }

  lemma {:induction false} HistoryGrows<K(!new), V(!new)>(s: State<K, V>, ls: seq<Label<K, V>>)
    requires Runs(s, ls)
    ensures s.order <= After(s, ls).order && s.calls <= After(s, ls).calls
    ensures s.before <= After(s, ls).before
    decreases |ls|
  {
    if ls != [] {
      HistoryLife(s, ls[0]);
      HistoryGrows(Next(s, ls[0]), ls[1..]);
    }
  }

  /** What a call knows to have returned before it is what had returned when it was invoked. */
  lemma BeforeExactly<K(!new), V(!new)>(s: State<K, V>, l: Label<K, V>, ls: seq<Label<K, V>>)
    requires Inv(s) && Enabled(s, l) && l.Invoke? && Runs(Next(s, l), ls)
    ensures
      var before := After(Next(s, l), ls).before;
      |s.calls| < |before| && before[|s.calls|] == s.replies.Keys
  {
    HistoryGrows(Next(s, l), ls);
  }

  lemma {:induction false} RunsAppend<K(!new), V(!new)>(s: State<K, V>, ls: seq<Label<K, V>>, ms: seq<Label<K, V>>)
    requires Runs(s, ls + ms)
    ensures Runs(s, ls) && Runs(After(s, ls), ms) && After(s, ls + ms) == After(After(s, ls), ms)
    decreases |ls|
  {
    if ls == [] {
      assert ls + ms == ms;
    } else {
      assert (ls + ms)[0] == ls[0] && (ls + ms)[1..] == ls[1..] + ms;
      RunsAppend(Next(s, ls[0]), ls[1..], ms);
    }
  }

  /** Real time: a call that has returned at some moment of a run comes in the order before
      every call that is invoked only after that moment. */
  lemma RealTimeOrder<K(!new), V(!new)>(n: nat, ls: seq<Label<K, V>>, ms: seq<Label<K, V>>, i: nat, j: nat)
    requires Runs(Init<K, V>(n), ls + ms)
    requires i < |After(Init<K, V>(n), ls + ms).order| && j < |After(Init<K, V>(n), ls + ms).order|
    ensures Runs(Init<K, V>(n), ls)
    ensures
      var s, order := After(Init<K, V>(n), ls), After(Init<K, V>(n), ls + ms).order;
      order[i].id in s.replies && order[j].id >= |s.calls| ==> i < j
  {
    RunsAppend(Init<K, V>(n), ls, ms);
    var s := After(Init<K, V>(n), ls);
    InitInv<K, V>(n);
    RunKeepsInv(Init<K, V>(n), ls);
    RunKeepsInv(s, ms);
    HistoryGrows(s, ms);
    var order := After(s, ms).order;
    assert forall b :: 0 <= b < |s.order| ==> s.order[b].id < |s.calls|;
    if order[i].id in s.replies && order[j].id >= |s.calls| {
      assert RepliedAt(s, order[i].id);
      assert order[s.place[order[i].id]].id == order[i].id && After(s, ms).place[order[i].id] == i;
    }
  }

  /** Call number i of the order gives key k its value, and no later one touches k. */
  predicate LastInsert<K(==), V(==)>(order: seq<Record<K, V>>, k: K, i: nat) {
    && i < |order| && order[i].op.Insert? && order[i].op.key == k
    && forall j :: i < j < |order| ==> !order[j].op.Clear? && !(order[j].op.Insert? && order[j].op.key == k)
  }

  lemma {:induction false} ReplayGives<K, V>(order: seq<Record<K, V>>, k: K, i: nat)
    requires LastInsert(order, k, i)
    ensures k in Replay(order) && Replay(order)[k] == order[i].op.value
  {
    if i < |order| - 1 {
      ReplayGives(order[..|order| - 1], k, i);
    }
  }

  lemma {:induction false} ReplayHas<K, V>(order: seq<Record<K, V>>, k: K) returns (i: nat)
    requires k in Replay(order)
    ensures LastInsert(order, k, i)
  {
    var n := |order| - 1;
    if order[n].op.Insert? && order[n].op.key == k {
      i := n;
    } else {
      i := ReplayHas(order[..n], k);
    }
  }

  /** at(k) on the plain map: the last insertion of k that no clear() follows. */
  lemma AtReply<K, V>(order: seq<Record<K, V>>, k: K)
    ensures ReplyOf(Replay(order), At(k)) == OutOfRange <==> forall i: nat :: !LastInsert(order, k, i)
    ensures forall i: nat :: LastInsert(order, k, i) ==> ReplyOf(Replay(order), At(k)) == Found(order[i].op.value)
  {
    AtLaw(Replay(order), k);
    if k in Replay(order) {
      var i := ReplayHas(order, k);
    }
    forall i: nat | LastInsert(order, k, i)
      ensures k in Replay(order) && Replay(order)[k] == order[i].op.value
    {
      ReplayGives(order, k, i);
    }
  }

  /** What at(k) returned, in any run of any number of threads: the value of the last
      insertion of k before it in the order that is not followed by a clear(), and the
      exception exactly if there is no such insertion. */
  lemma AtSeesLastInsert<K(!new), V(!new)>(n: nat, ls: seq<Label<K, V>>, j: nat, k: K)
    requires Runs(Init<K, V>(n), ls)
    requires
      var s := After(Init<K, V>(n), ls);
      j < |s.order| && s.order[j].op == At(k) && s.order[j].id in s.replies
    ensures
      var s := After(Init<K, V>(n), ls);
      var earlier, reply := s.order[..j], s.replies[s.order[j].id];
      && (reply == OutOfRange <==> forall i: nat :: !LastInsert(earlier, k, i))
      && (forall i: nat :: LastInsert(earlier, k, i) ==> reply == Found(earlier[i].op.value))
  {
    Linearizable(n, ls);
    AtReply(After(Init<K, V>(n), ls).order[..j], k);
  }

  // ----- no call is kept waiting for ever

  predicate NoneInvokes<K, V>(ls: seq<Label<K, V>>) {
    forall i :: 0 <= i < |ls| ==> !ls[i].Invoke?
  }

  lemma OneStep<K(!new), V(!new)>(s: State<K, V>, l: Label<K, V>)
    requires Enabled(s, l)
    ensures Runs(s, [l]) && After(s, [l]) == Next(s, l)
  {
    assert [l][1..] == [];
    assert Runs(Next(s, l), []) && After(Next(s, l), []) == Next(s, l);
  }

  lemma {:induction false} RunsOn<K(!new), V(!new)>(s: State<K, V>, ls: seq<Label<K, V>>, ms: seq<Label<K, V>>)
    requires Runs(s, ls) && Runs(After(s, ls), ms)
    ensures Runs(s, ls + ms) && After(s, ls + ms) == After(After(s, ls), ms)
    decreases |ls|
  {
    if ls == [] {
      assert ls + ms == ms;
    } else {
      assert (ls + ms)[0] == ls[0] && (ls + ms)[1..] == ls[1..] + ms;
      RunsOn(Next(s, ls[0]), ls[1..], ms);
    }
  }

  /** The thread that has the mutex can finish its call; nobody else moves. */
  lemma OwnerFinishes<K(!new), V(!new)>(s: State<K, V>, t: nat) returns (ls: seq<Label<K, V>>)
    requires Inv(s) && t < |s.pcs| && Holds(s.pcs[t])
    ensures Runs(s, ls) && NoneInvokes(ls)
    ensures After(s, ls).owner == -1 && After(s, ls).pcs == s.pcs[t := Outside]
  {
    if s.pcs[t].Inside? {
      var u := Next(s, Act(t));
      OneStep(s, Act(t));
      OneStep(u, Release(t));
      RunsOn(s, [Act(t)], [Release(t)]);
      ls := [Act(t)] + [Release(t)];
      assert s.pcs[t := u.pcs[t]][t := Outside] == s.pcs[t := Outside];
    } else {
      OneStep(s, Release(t));
      ls := [Release(t)];
    }
  }

  lemma FreeIsTaken<K(!new), V(!new)>(s: State<K, V>, t: nat)
    requires Inv(s) && t < |s.pcs| && s.pcs[t].Queued? && s.owner == -1
    ensures Enabled(s, Acquire(t)) && Inv(Next(s, Acquire(t)))
    ensures Next(s, Acquire(t)).pcs == s.pcs[t := Inside(s.pcs[t].id, s.pcs[t].op)]
  {
    StepKeepsInv(s, Acquire(t));
  }

  /** A thread that queues while the mutex is free can take it and finish its call. */
  lemma QueuedFinishes<K(!new), V(!new)>(s: State<K, V>, t: nat) returns (ls: seq<Label<K, V>>)
    requires Inv(s) && t < |s.pcs| && s.pcs[t].Queued? && s.owner == -1
    ensures Runs(s, ls) && NoneInvokes(ls) && t < |After(s, ls).pcs| && After(s, ls).pcs[t].Outside?
  {
    FreeIsTaken(s, t);
    var u := Next(s, Acquire(t));
    var rest := OwnerFinishes(u, t);
    ls := [Acquire(t)] + rest;
    assert ls[0] == Acquire(t) && ls[1..] == rest;
  }

  /** Any thread that is in no call may begin any. */
  lemma AnyCallMayBegin<K(!new), V(!new)>(s: State<K, V>, t: nat, op: MapOp<K, V>)
    requires t < |s.pcs| && s.pcs[t].Outside?
    ensures Enabled(s, Invoke(t, op))
  {
  }

  /** In every state of every run each call in progress can be brought to its return, without
      any new call: there is no deadlock. */
  lemma EveryCallCanReturn<K(!new), V(!new)>(n: nat, ls: seq<Label<K, V>>, t: nat) returns (ms: seq<Label<K, V>>)
    requires Runs(Init<K, V>(n), ls) && t < |After(Init<K, V>(n), ls).pcs|
    ensures
      var s := After(Init<K, V>(n), ls);
      Runs(s, ms) && NoneInvokes(ms) && t < |After(s, ms).pcs| && After(s, ms).pcs[t].Outside?
  {
    InitInv<K, V>(n);
    RunKeepsInv(Init<K, V>(n), ls);
    var s := After(Init<K, V>(n), ls);
    ms := [];
    if s.owner != -1 {
      ms := OwnerFinishes(s, s.owner);
      RunKeepsInv(s, ms);
    }
    var u := After(s, ms);
    if !u.pcs[t].Outside? {
      var rest := QueuedFinishes(u, t);
      RunsOn(s, ms, rest);
      ms := ms + rest;
    }
  }
}
