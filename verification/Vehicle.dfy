/** The vehicle's frame loop: parts exchange data through the store, in list order. */
module Vehicle {
  import opened LockedMap

  /** A shared pointer to part data: null, or the identity of an object. */
  datatype Datum = Null | Object(id: nat)

  /** What a part is to the vehicle: its two topics. */
  datatype Wiring = Wiring(input: string, output: string)

  /** What run() of part i returns in frame f for a given input. Any behaviour of the
      parts in one execution, stateful or threaded, is some such function. */
  type Behaviour = (nat, nat, Datum) -> Datum

  datatype Write = Write(topic: string, datum: Datum)

  type Contents = map<string, Datum>

  /** What the store gives for a key: null when it is absent. */
  function Stored(store: Contents, topic: string): Datum {
    if topic in store then store[topic] else Null
  }

  /** The datum last written to a topic; if there is none, what the store had before. */
  function Latest(base: Contents, log: seq<Write>, topic: string): Datum {
    if log == [] then Stored(base, topic)
    else if log[|log| - 1].topic == topic then log[|log| - 1].datum
    else Latest(base, log[..|log| - 1], topic)
  }

  /** The store after the writes of a log. */
  function StoreOf(base: Contents, log: seq<Write>): Contents {
    if log == [] then base
    else StoreOf(base, log[..|log| - 1])[log[|log| - 1].topic := log[|log| - 1].datum]
  }

  /** All writes before part i of frame f runs, when the first frame found base. */
  function LogAt(parts: seq<Wiring>, run: Behaviour, base: Contents, f: nat, i: nat): seq<Write>
    requires i <= |parts|
    decreases f, i
  {
    if i > 0 then
      var log := LogAt(parts, run, base, f, i - 1);
      log + [Write(parts[i - 1].output, run(f, i - 1, Latest(base, log, parts[i - 1].input)))]
    else if f > 0 then LogAt(parts, run, base, f - 1, |parts|)
    else []
  }

  function StoreAt(parts: seq<Wiring>, run: Behaviour, base: Contents, f: nat, i: nat): Contents
    requires i <= |parts|
  {
    StoreOf(base, LogAt(parts, run, base, f, i))
  }

  function InputOf(parts: seq<Wiring>, run: Behaviour, base: Contents, f: nat, i: nat): Datum
    requires i < |parts|
  {
    Latest(base, LogAt(parts, run, base, f, i), parts[i].input)
  }

  function OutputOf(parts: seq<Wiring>, run: Behaviour, base: Contents, f: nat, i: nat): Datum
    requires i < |parts|
  {
    run(f, i, InputOf(parts, run, base, f, i))
  }

  // ----- the store and the loop, in place

  /** The store: get() turns the missing-key exception into a null datum. */
  class Memory {
    const data: LockedMap<string, Datum>

    constructor ()
      ensures fresh(data) && data.data == map[] && data.depth == 0
    {
      data := new LockedMap<string, Datum>();
    }

    method Get(key: string) returns (msg: Datum)
      modifies data
      ensures data.data == old(data.data) && data.depth == old(data.depth)
      ensures key in data.data ==> msg == data.data[key]
      ensures key !in data.data ==> msg == Null
    {
      var reply := data.At(key);
      match reply
      case Found(d) => msg := d;
      case _ => msg := Null;
    }

    method Put(key: string, msg: Datum)
      modifies data
      ensures data.data == old(data.data)[key := msg] && data.depth == old(data.depth)
    {
      data.Insert(key, msg);
    }
  }

  class Vehicle {
    var parts: seq<Wiring>
    const store: Memory

    constructor ()
      ensures parts == [] && fresh(store) && fresh(store.data) && store.data.data == map[]
    {
      parts := [];
      store := new Memory();
    }

    method Add(part: Wiring)
      modifies this
      ensures parts == old(parts) + [part] && store.data.data == old(store.data.data)
    {
      parts := parts + [part];
    }

    /** One frame: each part in turn gets its input and its output is stored. */
    method UpdateParts(run: Behaviour, ghost base: Contents, frame: nat) returns (inputs: seq<Datum>)
      requires store.data.data == StoreAt(parts, run, base, frame, 0)
      modifies store.data
      ensures store.data.data == StoreAt(parts, run, base, frame, |parts|)
      ensures |inputs| == |parts|
      ensures forall i :: 0 <= i < |parts| ==> inputs[i] == InputOf(parts, run, base, frame, i)
    {
      inputs := [];
      for i := 0 to |parts|
        invariant store.data.data == StoreAt(parts, run, base, frame, i)
        invariant |inputs| == i
        invariant forall j :: 0 <= j < i ==> inputs[j] == InputOf(parts, run, base, frame, j)
      {
        PartTurn(parts, run, base, frame, i);
        var input := store.Get(parts[i].input);
        assert input == InputOf(parts, run, base, frame, i);
        var output := run(frame, i, input);
        store.Put(parts[i].output, output);
        inputs := inputs + [input];
      }
    }

    /** The frame loop, for the number of frames that pass until the vehicle is stopped. */
    method RunFrames(run: Behaviour, frames: nat)
      modifies store.data
      ensures store.data.data == StoreAt(parts, run, old(store.data.data), frames, 0)
    {
      ghost var base := store.data.data;
      for f := 0 to frames
        invariant store.data.data == StoreAt(parts, run, base, f, 0)
      {
        var _ := UpdateParts(run, base, f);
      }
    }
  }

  // ----- what the parts see

  lemma {:induction false} StoreIsLatest(base: Contents, log: seq<Write>, topic: string)
    ensures Latest(base, log, topic) == Stored(StoreOf(base, log), topic)
  {
    if log != [] {
      StoreIsLatest(base, log[..|log| - 1], topic);
    }
  }

  predicate LastWrite(log: seq<Write>, topic: string, k: int) {
    0 <= k < |log| && log[k].topic == topic && forall j :: k < j < |log| ==> log[j].topic != topic
  }

  /** Latest, without recursion: the datum of the last write to the topic. */
  lemma {:induction false} LatestIsLastWrite(base: Contents, log: seq<Write>, topic: string, k: int)
    requires LastWrite(log, topic, k)
    ensures Latest(base, log, topic) == log[k].datum
  {
    if k < |log| - 1 {
      LatestIsLastWrite(base, log[..|log| - 1], topic, k);
    }
  }

  lemma {:induction false} LatestOfNone(base: Contents, log: seq<Write>, topic: string)
    requires forall w :: w in log ==> w.topic != topic
    ensures Latest(base, log, topic) == Stored(base, topic)
  {
    if log != [] {
      LatestOfNone(base, log[..|log| - 1], topic);
    }
  }

  /** One turn of the loop over the parts. */
  lemma PartTurn(parts: seq<Wiring>, run: Behaviour, base: Contents, f: nat, i: nat)
    requires i < |parts|
    ensures
      var store := StoreAt(parts, run, base, f, i);
      var input := Stored(store, parts[i].input);
      && input == InputOf(parts, run, base, f, i)
      && StoreAt(parts, run, base, f, i + 1) == store[parts[i].output := run(f, i, input)]
  {
    var log := LogAt(parts, run, base, f, i);
    StoreIsLatest(base, log, parts[i].input);
    assert LogAt(parts, run, base, f, i + 1)[..|log|] == log;
  }

  /** The topics that have been written when part i of frame f runs: those of the parts
      before it, and after the first frame those of all parts. */
  predicate Written(parts: seq<Wiring>, f: nat, i: nat, topic: string)
    requires i <= |parts|
  {
    exists j :: 0 <= j < |parts| && (f > 0 || j < i) && parts[j].output == topic
  }

  lemma KeysOfTurn(parts: seq<Wiring>, run: Behaviour, base: Contents, f: nat, i: nat, topic: string)
    requires i < |parts|
    ensures topic in StoreAt(parts, run, base, f, i + 1)
            <==> topic in StoreAt(parts, run, base, f, i) || topic == parts[i].output
  {
    PartTurn(parts, run, base, f, i);
  }

  lemma {:induction false} KeysAreWritten(parts: seq<Wiring>, run: Behaviour, base: Contents, f: nat, i: nat,
                                          topic: string)
    requires i <= |parts|
    ensures topic in StoreAt(parts, run, base, f, i) <==> topic in base || Written(parts, f, i, topic)
    decreases f, i
  {
    if i > 0 {
      KeysAreWritten(parts, run, base, f, i - 1, topic);
      KeysOfTurn(parts, run, base, f, i - 1, topic);
      OneMoreWritten(parts, f, i - 1, topic);
    } else if f > 0 {
      KeysAreWritten(parts, run, base, f - 1, |parts|, topic);
      AllWritten(parts, f - 1, topic);
    }
  }

  lemma OneMoreWritten(parts: seq<Wiring>, f: nat, i: nat, topic: string)
    requires i < |parts|
    ensures Written(parts, f, i + 1, topic) <==> Written(parts, f, i, topic) || parts[i].output == topic
  {
    if Written(parts, f, i + 1, topic) && parts[i].output != topic {
      var j :| 0 <= j < |parts| && (f > 0 || j < i + 1) && parts[j].output == topic;
      assert f > 0 || j < i;
    }
  }

  lemma AllWritten(parts: seq<Wiring>, f: nat, topic: string)
    ensures Written(parts, f + 1, 0, topic) <==> Written(parts, f, |parts|, topic)
  {
  }

  lemma LatestOfTurn(parts: seq<Wiring>, run: Behaviour, base: Contents, f: nat, i: nat, topic: string)
    requires i < |parts|
    ensures Latest(base, LogAt(parts, run, base, f, i + 1), topic)
            == if parts[i].output == topic then OutputOf(parts, run, base, f, i)
               else Latest(base, LogAt(parts, run, base, f, i), topic)
  {
    var log := LogAt(parts, run, base, f, i);
    assert LogAt(parts, run, base, f, i + 1)[..|log|] == log;
  }

  /** Part j is the last one before index i that writes the topic. */
  predicate LastProducer(parts: seq<Wiring>, topic: string, j: nat, i: nat) {
    && j < i <= |parts| && parts[j].output == topic
    && NoProducer(parts, topic, j + 1, i)
  }

  /** No part from index low on and before index high writes the topic. */
  predicate NoProducer(parts: seq<Wiring>, topic: string, low: nat, high: nat) {
    forall k :: low <= k < high && k < |parts| ==> parts[k].output != topic
  }

  lemma {:induction false} LatestOfLast(parts: seq<Wiring>, run: Behaviour, base: Contents, f: nat, i: nat,
                                        topic: string, j: nat)
    requires LastProducer(parts, topic, j, i)
    ensures Latest(base, LogAt(parts, run, base, f, i), topic) == OutputOf(parts, run, base, f, j)
    decreases i
  {
    LatestOfTurn(parts, run, base, f, i - 1, topic);
    if j < i - 1 {
      LatestOfLast(parts, run, base, f, i - 1, topic, j);
    }
  }

  lemma {:induction false} LatestStays(parts: seq<Wiring>, run: Behaviour, base: Contents, f: nat, i: nat,
                                       topic: string)
    requires i <= |parts| && NoProducer(parts, topic, 0, i)
    ensures Latest(base, LogAt(parts, run, base, f, i), topic) == Latest(base, LogAt(parts, run, base, f, 0), topic)
    decreases i
  {
    if i > 0 {
      LatestOfTurn(parts, run, base, f, i - 1, topic);
      LatestStays(parts, run, base, f, i - 1, topic);
    }
  }

  /** A part gets what the last producer of its topic before it in the list has produced in
      the same frame from what that got itself. If there is none before it, it gets what the last producer in the
      whole list produced in the previous frame; and in the first frame what the store had
      before, or null. */
  lemma ConsumerGets(parts: seq<Wiring>, run: Behaviour, base: Contents, f: nat, i: nat, j: nat)
    requires i < |parts|
    ensures
      var topic, input := parts[i].input, InputOf(parts, run, base, f, i);
      && (LastProducer(parts, topic, j, i) ==> input == run(f, j, InputOf(parts, run, base, f, j)))
      && (NoProducer(parts, topic, 0, i) ==>
            && (f > 0 && LastProducer(parts, topic, j, |parts|) ==>
                  input == run(f - 1, j, InputOf(parts, run, base, f - 1, j)))
            && (f == 0 && topic in base ==> input == base[topic])
            && (f == 0 && topic !in base ==> input == Null))
  {
    var topic := parts[i].input;
    if LastProducer(parts, topic, j, i) {
      LatestOfLast(parts, run, base, f, i, topic, j);
    }
    if NoProducer(parts, topic, 0, i) {
      LatestStays(parts, run, base, f, i, topic);
      if f > 0 && LastProducer(parts, topic, j, |parts|) {
        LatestOfLast(parts, run, base, f - 1, |parts|, topic, j);
      }
    }
  }

  /** The cases of ConsumerGets are all there are. */
  lemma {:induction false} ProducerOrNone(parts: seq<Wiring>, topic: string, i: nat) returns (j: nat)
    requires i <= |parts|
    ensures NoProducer(parts, topic, 0, i) || LastProducer(parts, topic, j, i)
  {
    if i == 0 {
      j := 0;
    } else if parts[i - 1].output == topic {
      j := i - 1;
    } else {
      j := ProducerOrNone(parts, topic, i - 1);
    }
  }

  lemma {:induction false} NoWrite(parts: seq<Wiring>, run: Behaviour, base: Contents, f: nat, i: nat, topic: string)
    requires i <= |parts| && NoProducer(parts, topic, 0, |parts|)
    ensures forall w :: w in LogAt(parts, run, base, f, i) ==> w.topic != topic
    decreases f, i
  {
    if i > 0 {
      NoWrite(parts, run, base, f, i - 1, topic);
    } else if f > 0 {
      NoWrite(parts, run, base, f - 1, |parts|, topic);
    }
  }

  /** A topic that no part writes gives in every frame what the store had before, and null
      if it had nothing. */
  lemma NoProducerGivesOld(parts: seq<Wiring>, run: Behaviour, base: Contents, f: nat, i: nat)
    requires i < |parts| && NoProducer(parts, parts[i].input, 0, |parts|)
    ensures parts[i].input in base ==> InputOf(parts, run, base, f, i) == base[parts[i].input]
    ensures parts[i].input !in base ==> InputOf(parts, run, base, f, i) == Null
  {
    NoWrite(parts, run, base, f, i, parts[i].input);
    LatestOfNone(base, LogAt(parts, run, base, f, i), parts[i].input);
  }

  /** In the first frame of a new vehicle a part whose topic no earlier part writes gets null;
      in particular the first part does. */
  lemma FirstFrameGivesNull(parts: seq<Wiring>, run: Behaviour, i: nat)
    requires i < |parts| && NoProducer(parts, parts[i].input, 0, i)
    ensures InputOf(parts, run, map[], 0, i) == Null
  {
    ConsumerGets(parts, run, map[], 0, i, 0);
  }
}
