/** The recursive mutex and the scoped lock, and that together they lose no lock. */
module Locks {
  import opened Wrappers

  type ThreadId = nat

  class Mutex {
    var holder: Option<ThreadId>
    var depth: nat

    ghost predicate Valid()
      reads this
    {
      holder.None? <==> depth == 0
    }

    /** Lock() would return without blocking. */
    predicate Available(t: ThreadId)
      reads this
    {
      holder == None || holder == Some(t)
    }

    /** How often thread t holds it. */
    ghost function HeldBy(t: ThreadId): nat
      reads this
    {
      if holder == Some(t) then depth else 0
    }

    constructor ()
      ensures Valid() && holder == None && depth == 0
      ensures forall t :: Available(t)
    {
      holder := None;
      depth := 0;
    }

    method Lock(t: ThreadId)
      requires Valid() && Available(t)
      modifies this
      ensures Valid() && holder == Some(t) && depth == old(depth) + 1
      ensures forall u :: Available(u) <==> u == t
    {
      holder := Some(t);
      depth := depth + 1;
    }

    method Unlock(t: ThreadId)
      requires Valid() && holder == Some(t)
      modifies this
      ensures Valid() && depth == old(depth) - 1
      ensures holder == if depth == 0 then None else Some(t)
      ensures forall u :: Available(u) <==> u == t || depth == 0
    {
      depth := depth - 1;
      if depth == 0 {
        holder := None;
      }
    }

    method TryLock(t: ThreadId) returns (ok: bool)
      requires Valid()
      modifies this
      ensures Valid() && (ok <==> old(Available(t)))
      ensures ok <==> old(depth) == 0 || old(holder) == Some(t)
      ensures if ok then holder == Some(t) && depth == old(depth) + 1
              else holder == old(holder) && depth == old(depth)
    {
      if holder != None && holder != Some(t) {
        return false;
      }
      Lock(t);
      ok := true;
    }
  }

  class Lock {
    var mutex: Mutex?
    var cnt: nat

    constructor Take(m: Mutex, t: ThreadId)
      requires m.Valid() && m.Available(t)
      modifies m
      ensures mutex == m && cnt == 1
      ensures m.Valid() && m.holder == Some(t) && m.depth == old(m.depth) + 1
    {
      mutex := m;
      cnt := 1;
      new;
      m.Lock(t);
    }

    constructor Empty()
      ensures mutex == null && cnt == 0
    {
      mutex := null;
      cnt := 0;
    }

    /** Copying takes the other's mutex once more; an empty lock cannot be copied. */
    constructor Copy(other: Lock, t: ThreadId)
      requires other.mutex != null && other.mutex.Valid() && other.mutex.Available(t)
      modifies other.mutex
      ensures mutex == old(other.mutex) && cnt == 1
      ensures mutex.Valid() && mutex.holder == Some(t) && mutex.depth == old(other.mutex.depth) + 1
    {
      mutex := other.mutex;
      cnt := 1;
      new;
      mutex.Lock(t);
    }

    /** Moving is an exchange with an empty lock. */
    constructor Move(other: Lock)
      modifies other
      ensures mutex == old(other.mutex) && cnt == old(other.cnt)
      ensures other.mutex == null && other.cnt == 0
    {
      mutex := null;
      cnt := 0;
      new;
      MoveAssign(other);
    }

    method MoveAssign(other: Lock)
      modifies this, other
      ensures mutex == old(other.mutex) && cnt == old(other.cnt)
      ensures other.mutex == old(mutex) && other.cnt == old(cnt)
    {
      mutex, other.mutex := other.mutex, mutex;
      cnt, other.cnt := other.cnt, cnt;
    }

    method Destroy(t: ThreadId)
      requires cnt > 0 ==> mutex != null && mutex.Valid() && cnt <= mutex.HeldBy(t)
      modifies this, mutex
      ensures cnt == 0 && mutex == old(mutex)
      ensures old(cnt) > 0 ==> mutex.Valid() && mutex.depth == old(mutex.depth) - old(cnt)
      ensures old(cnt) > 0 ==> mutex.holder == if mutex.depth == 0 then None else Some(t)
      ensures old(cnt) == 0 && mutex != null ==> mutex.depth == old(mutex.depth) && mutex.holder == old(mutex.holder)
    {
      while cnt > 0
        invariant cnt <= old(cnt) && mutex == old(mutex)
        invariant old(cnt) > 0 ==> mutex != null && mutex.Valid()
        invariant old(cnt) > 0 ==> mutex.depth == old(mutex.depth) - old(cnt) + cnt
        invariant old(cnt) > 0 ==> mutex.holder == if mutex.depth == 0 then None else Some(t)
        invariant old(cnt) == 0 && mutex != null ==>
                    mutex.depth == old(mutex.depth) && mutex.holder == old(mutex.holder)
      {
        mutex.Unlock(t);
        cnt := cnt - 1;
      }
    }
  }

  // ----- the sum over the live locks of a thread

  /** What a lock holds: its mutex and how often. */
  type Share = (Mutex?, nat)

  ghost function Part(share: Share, m: Mutex): nat {
    if share.0 == m then share.1 else 0
  }

  ghost function Sum(view: seq<Share>, m: Mutex): nat {
    if view == [] then 0 else Sum(view[..|view| - 1], m) + Part(view[|view| - 1], m)
  }

  lemma SumPush(view: seq<Share>, share: Share, m: Mutex)
    ensures Sum(view + [share], m) == Sum(view, m) + Part(share, m)
  {
    assert (view + [share])[..|view|] == view;
  }

  lemma {:induction false} SumSet(view: seq<Share>, k: nat, share: Share, m: Mutex)
    requires k < |view|
    ensures Sum(view[k := share], m) + Part(view[k], m) == Sum(view, m) + Part(share, m)
  {
    var n := |view| - 1;
    if k == n {
      assert view[k := share][..n] == view[..n];
    } else {
      assert view[k := share][..n] == view[..n][k := share];
      SumSet(view[..n], k, share, m);
    }
  }

  lemma {:induction false} SumDrop(view: seq<Share>, k: nat, m: Mutex)
    requires k < |view|
    ensures Sum(view[..k] + view[k + 1..], m) + Part(view[k], m) == Sum(view, m)
  {
    var n := |view| - 1;
    if k == n {
      assert view[..k] + view[k + 1..] == view[..n];
    } else {
      var rest := view[..k] + view[k + 1..];
      assert rest[..n - 1] == view[..n][..k] + view[..n][k + 1..];
      SumDrop(view[..n], k, m);
    }
  }

  lemma {:induction false} SumCovers(view: seq<Share>, k: nat, m: Mutex)
    requires k < |view|
    ensures Part(view[k], m) <= Sum(view, m)
  {
    SumDrop(view, k, m);
  }

  /** The locks that a thread has alive, on stack or heap, in any order. */
  class Scope {
    const t: ThreadId
    const mutexes: set<Mutex>
    var live: seq<Lock>

    ghost function View(): seq<Share>
      reads this, live
    {
      seq(|live|, i requires 0 <= i < |live| reads this, live => (live[i].mutex, live[i].cnt))
    }

    /** The live locks are apart, and each is empty or holds one of the mutexes once. */
    ghost predicate Shaped()
      reads this, live, mutexes
    {
      && (forall i, j :: 0 <= i < j < |live| ==> live[i] != live[j])
      && (forall i :: 0 <= i < |live| ==>
            if live[i].mutex == null then live[i].cnt == 0 else live[i].mutex in mutexes && live[i].cnt == 1)
      && (forall m :: m in mutexes ==> m.Valid())
    }

    /** Conservation: the thread holds each mutex as often as its live locks say. */
    ghost predicate Conserved()
      reads this, live, mutexes
    {
      Shaped() && forall m :: m in mutexes ==> m.HeldBy(t) == Sum(View(), m)
    }

    constructor (t: ThreadId, mutexes: set<Mutex>)
      requires forall m :: m in mutexes ==> m.Valid() && m.HeldBy(t) == 0
      ensures Conserved() && live == [] && this.t == t && this.mutexes == mutexes
    {
      this.t := t;
      this.mutexes := mutexes;
      live := [];
    }

    method Construct(m: Mutex)
      requires Conserved() && m in mutexes && m.Available(t)
      modifies this, m
      ensures Conserved() && View() == old(View()) + [(m, 1)]
    {
      var l := new Lock.Take(m, t);
      live := live + [l];
      assert View() == old(View()) + [(m, 1)];
      forall n | n in mutexes
        ensures n.HeldBy(t) == Sum(View(), n)
      {
        SumPush(old(View()), (m, 1), n);
      }
    }

    method ConstructEmpty()
      requires Conserved()
      modifies this
      ensures Conserved() && View() == old(View()) + [(null, 0)]
    {
      var l := new Lock.Empty();
      live := live + [l];
      assert View() == old(View()) + [(null, 0)];
      forall n | n in mutexes
        ensures n.HeldBy(t) == Sum(View(), n)
      {
        SumPush(old(View()), (null, 0), n);
      }
    }

    method Copy(k: nat)
      requires Conserved() && k < |live| && live[k].mutex != null
      modifies this, live[k].mutex
      ensures Conserved() && View() == old(View()) + [(old(live[k].mutex), 1)]
    {
      ghost var m := live[k].mutex;
      HoldsItsMutex(k);
      var l := new Lock.Copy(live[k], t);
      live := live + [l];
      assert View() == old(View()) + [(m, 1)];
      forall n | n in mutexes
        ensures n.HeldBy(t) == Sum(View(), n)
      {
        SumPush(old(View()), (m, 1), n);
      }
    }

    method Move(k: nat)
      requires Conserved() && k < |live|
      modifies this, live[k]
      ensures Conserved()
      ensures View() == old(View())[k := (null, 0)] + [old(View()[k])]
    {
      var l := new Lock.Move(live[k]);
      live := live + [l];
      ghost var was := old(View());
      assert View() == was[k := (null, 0)] + [was[k]];
      forall n | n in mutexes
        ensures n.HeldBy(t) == Sum(View(), n)
      {
        SumSet(was, k, (null, 0), n);
        SumPush(was[k := (null, 0)], was[k], n);
      }
    }

    /** Move assignment, also of a lock to itself. */
    method MoveAssign(j: nat, k: nat)
      requires Conserved() && j < |live| && k < |live|
      modifies live[j], live[k]
      ensures Conserved() && View() == old(View())[j := old(View()[k])][k := old(View()[j])]
    {
      live[j].MoveAssign(live[k]);
      ghost var was := old(View());
      assert View() == was[j := was[k]][k := was[j]];
      forall n | n in mutexes
        ensures n.HeldBy(t) == Sum(View(), n)
      {
        SumSet(was, j, was[k], n);
        SumSet(was[j := was[k]], k, was[j], n);
      }
    }

    /** A lock that dies gives back its share and no other. */
    method Release(k: nat)
      requires Conserved() && k < |live|
      modifies live[k], live[k].mutex
      ensures forall n :: n in mutexes ==> n.Valid() && n.HeldBy(t) + Part(old(View())[k], n) == old(n.HeldBy(t))
      ensures live[k].mutex == old(live[k].mutex)
    {
      if live[k].mutex != null {
        HoldsItsMutex(k);
      }
      live[k].Destroy(t);
    }

    method Destroy(k: nat)
      requires Conserved() && k < |live|
      modifies this, live[k], live[k].mutex
      ensures Conserved() && View() == old(View())[..k] + old(View())[k + 1..]
      ensures live == old(live)[..k] + old(live)[k + 1..]
    {
      ghost var was := View();
      Release(k);
      ghost var all := live;
      live := live[..k] + live[k + 1..];
      assert View() == was[..k] + was[k + 1..] by {
        assert forall i :: 0 <= i < |live| ==> live[i] == all[if i < k then i else i + 1];
      }
      forall n | n in mutexes
        ensures n.HeldBy(t) == Sum(View(), n)
      {
        SumDrop(was, k, n);
      }
    }

    /** The end of every lock's life leaves no mutex held. */
    method DestroyAll()
      requires Conserved()
      modifies this, live, mutexes
      ensures Conserved() && live == [] && forall m :: m in mutexes ==> m.HeldBy(t) == 0
    {
      while |live| > 0
        invariant Conserved() && live <= old(live)
        decreases |live|
      {
        Destroy(|live| - 1);
      }
    }

    /** A live lock's mutex is held by the thread, so locking it again cannot block and
        unlocking it is legal. */
    lemma HoldsItsMutex(k: nat)
      requires Conserved() && k < |live| && live[k].mutex != null
      ensures live[k].mutex.Valid() && live[k].mutex.holder == Some(t)
      ensures live[k].cnt <= live[k].mutex.HeldBy(t)
    {
      SumCovers(View(), k, live[k].mutex);
      assert View()[k] == (live[k].mutex, live[k].cnt);
    }

    /** When no lock that points at a mutex is alive the thread does not hold it. */
    lemma NoneAliveNoneHeld(m: Mutex)
      requires Conserved() && m in mutexes && forall i :: 0 <= i < |live| ==> live[i].mutex != m
      ensures m.HeldBy(t) == 0
    {
      SumOfNone(View(), m);
    }
  }

  lemma {:induction false} SumOfNone(view: seq<Share>, m: Mutex)
    requires forall i :: 0 <= i < |view| ==> view[i].0 != m
    ensures Sum(view, m) == 0
  {
    if view != [] {
      SumOfNone(view[..|view| - 1], m);
    }
  }
}
