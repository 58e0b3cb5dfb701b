/** The locked hash map: its methods, and any number of threads that call them at once. */
module LockedMap {

  /** What the methods do to a plain map. */
  datatype MapOp<K, V> = Insert(key: K, value: V) | At(key: K) | Clear | Size | Empty

  /** OutOfRange is the exception of at() for a key that is not there. */
  datatype Reply<V> = Nothing | Found(value: V) | OutOfRange | Number(n: nat) | Answer(b: bool)

  function Effect<K, V>(m: map<K, V>, op: MapOp<K, V>): map<K, V> {
    match op
    case Insert(k, v) => m[k := v]
    case Clear => map[]
    case _ => m
  }

  function ReplyOf<K, V>(m: map<K, V>, op: MapOp<K, V>): Reply<V> {
    match op
    case Insert(_, _) => Nothing
    case Clear => Nothing
    case At(k) => if k in m then Found(m[k]) else OutOfRange
    case Size => Number(|m|)
    case Empty => Answer(|m| == 0)
  }

  /** insert() gives its key the value, whether or not it had one, and leaves all others. */
  lemma InsertLaw<K, V>(m: map<K, V>, key: K, value: V)
    ensures ReplyOf(m, Insert(key, value)) == Nothing
    ensures key in Effect(m, Insert(key, value)) && Effect(m, Insert(key, value))[key] == value
    ensures forall k :: k != key ==>
              (k in Effect(m, Insert(key, value)) <==> k in m)
              && (k in m ==> Effect(m, Insert(key, value))[k] == m[k])
  {
  }

  /** at() throws exactly when the key is not there, and else returns its value. */
  lemma AtLaw<K, V>(m: map<K, V>, key: K)
    ensures Effect(m, At(key)) == m
    ensures ReplyOf(m, At(key)) == OutOfRange <==> key !in m
    ensures key in m ==> ReplyOf(m, At(key)) == Found(m[key])
  {
  }

  lemma ClearLaw<K, V>(m: map<K, V>)
    ensures ReplyOf(m, Clear) == Nothing && forall k :: k !in Effect(m, Clear)
  {
  }

  lemma SizeLaw<K, V>(m: map<K, V>)
    ensures Effect(m, Size) == m && ReplyOf(m, Size) == Number(|m.Keys|)
  {
  }

  /** empty() is true exactly when no key is there; so size() is then 0. */
  lemma EmptyLaw<K, V>(m: map<K, V>)
    ensures Effect(m, Empty) == m && ReplyOf(m, Empty).Answer?
    ensures ReplyOf(m, Empty) == Answer(true) <==> forall k :: k !in m
    ensures ReplyOf(m, Empty) == Answer(true) <==> ReplyOf(m, Size) == Number(0)
  {
    if |m| != 0 {
      var k :| k in m;
    }
  }

  class LockedMap<K(==), V> {
    var data: map<K, V>
    var depth: nat          // how often the caller's thread holds the recursive mutex

    constructor ()
      ensures data == map[] && depth == 0
    {
      data := map[];
      depth := 0;
    }

    method Insert(key: K, value: V)
      modifies this
      ensures data == Effect(old(data), MapOp.Insert(key, value)) && depth == old(depth)
      ensures data == old(data)[key := value]
    {
      depth := depth + 1;
      data := data[key := value];
      depth := depth - 1;
    }

    /** The lock is given back also when the key is missing. */
    method At(key: K) returns (reply: Reply<V>)
      modifies this
      ensures data == old(data) && depth == old(depth)
      ensures reply == ReplyOf(data, MapOp.At(key))
      ensures reply == if key in data then Found(data[key]) else OutOfRange
    {
      depth := depth + 1;
      if key in data {
        reply := Found(data[key]);
      } else {
        reply := OutOfRange;
      }
      depth := depth - 1;
    }

    method Clear()
      modifies this
      ensures data == Effect(old(data), MapOp.Clear) == map[] && depth == old(depth)
    {
      depth := depth + 1;
      data := map[];
      depth := depth - 1;
    }

    method Size() returns (n: nat)
      modifies this
      ensures data == old(data) && depth == old(depth) && n == |data.Keys|
      ensures Number(n) == ReplyOf(data, MapOp.Size)
    {
      depth := depth + 1;
      n := |data|;
      depth := depth - 1;
    }

    method Empty() returns (b: bool)
      modifies this
      ensures data == old(data) && depth == old(depth)
      ensures b <==> forall k :: k !in data
      ensures Answer(b) == ReplyOf(data, MapOp.Empty)
    {
      depth := depth + 1;
      b := |data| == 0;
      depth := depth - 1;
    }
  }
}
