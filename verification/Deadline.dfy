/** The deadline of a timed wait, in the machine's integers. */
module Deadline {
  import opened Wrappers

  const NS_PER_SECOND: int := 1_000_000_000
  const NS_PER_MS: int := 1_000_000
  const TWO_63: int := 0x8000_0000_0000_0000
  const TWO_64: int := 0x1_0000_0000_0000_0000

  /** A signed 64-bit time; normalised when the nanoseconds are less than a second. */
  datatype Timespec = Timespec(sec: int, nsec: int)

  predicate Normal(t: Timespec) {
    0 <= t.sec < 0x8000_0000_0000_0000 && 0 <= t.nsec < 1_000_000_000
  }

  /** Conversion to uint64_t. */
  function Unsigned(n: int): int {
    n % TWO_64
  }

  /** Conversion back to a signed 64-bit integer. */
  function Signed(n: int): int {
    var u := n % TWO_64;
    if u < TWO_63 then u else u - TWO_64
  }

  /** ms_to_timespec: one uint64_t product, split. */
  function MsToTimespec(ms: int): Timespec {
    var ns := Unsigned(Unsigned(ms) * NS_PER_MS);
    Timespec(Signed(ns / NS_PER_SECOND), Signed(ns % NS_PER_SECOND))
  }

  /** operator+: None where it fails its assertion that neither time is negative; the
      carry is computed in uint64_t. */
  function Plus(a: Timespec, b: Timespec): Option<Timespec> {
    if a.sec < 0 || b.sec < 0 then None
    else
      var ns := Unsigned(a.nsec + b.nsec);
      Some(Timespec(Signed(Unsigned(a.sec + b.sec) + ns / NS_PER_SECOND), Signed(ns % NS_PER_SECOND)))
  }

  /** The time as one number of nanoseconds. */
  function Ns(t: Timespec): int {
    t.sec * 1_000_000_000 + t.nsec
  }

  /** The seconds of a + b fit the time type. */
  predicate SumFits(a: Timespec, b: Timespec) {
    Ns(a) + Ns(b) < 0x8000_0000_0000_0000 * 1_000_000_000
  }

  lemma SmallStays(n: int)
    requires 0 <= n < TWO_63
    ensures Unsigned(n) == n && Signed(n) == n
  {
  }

  /** Whole seconds and the rest, of a number that fits. */
  lemma SplitExact(ns: int)
    requires 0 <= ns < TWO_63
    ensures 0 <= ns / NS_PER_SECOND < TWO_63 && 0 <= ns % NS_PER_SECOND < NS_PER_SECOND
    ensures ns / NS_PER_SECOND * NS_PER_SECOND + ns % NS_PER_SECOND == ns
  {
  }

  /** For every 32-bit timeout the conversion is exact, without wrap-around. */
  lemma MsExact(ms: int)
    requires 0 <= ms < 0x1_0000_0000
    ensures Normal(MsToTimespec(ms)) && Ns(MsToTimespec(ms)) == ms * 1_000_000
  {
    var ns := ms * NS_PER_MS;
    assert MsToTimespec(ms) == Timespec(ns / NS_PER_SECOND, ns % NS_PER_SECOND) by {
      SmallStays(ms);
      SmallStays(ns);
      SplitExact(ns);
      SmallStays(ns / NS_PER_SECOND);
      SmallStays(ns % NS_PER_SECOND);
    }
    SplitExact(ns);
  }

  /** The nanoseconds of a sum and the second that they carry over. */
  lemma Carry(n: int, m: int)
    requires 0 <= n < NS_PER_SECOND && 0 <= m < NS_PER_SECOND
    ensures Unsigned(n + m) == n + m
    ensures (n + m) / NS_PER_SECOND == if n + m < NS_PER_SECOND then 0 else 1
    ensures Signed((n + m) % NS_PER_SECOND) == if n + m < NS_PER_SECOND then n + m else n + m - NS_PER_SECOND
  {
  }

  /** The seconds of a sum: they wrap around when they do not fit. */
  lemma Seconds(n: int, m: int, carry: int)
    requires 0 <= n < TWO_63 && 0 <= m < TWO_63 && 0 <= carry <= 1
    ensures Signed(Unsigned(n + m) + carry) == if n + m + carry < TWO_63 then n + m + carry else n + m + carry - TWO_64
  {
  }

  /** Addition of normalised times is exact if and only if the sum fits. */
  lemma PlusExact(a: Timespec, b: Timespec)
    requires Normal(a) && Normal(b)
    ensures Plus(a, b).Some?
    ensures SumFits(a, b) <==> Normal(Plus(a, b).value) && Ns(Plus(a, b).value) == Ns(a) + Ns(b)
  {
    var carry := if a.nsec + b.nsec < NS_PER_SECOND then 0 else 1;
    var sec := a.sec + b.sec + carry;
    PlusIs(a, b, carry);
    assert SumFits(a, b) <==> sec < TWO_63;
  }

  lemma PlusIs(a: Timespec, b: Timespec, carry: int)
    requires Normal(a) && Normal(b) && carry == if a.nsec + b.nsec < NS_PER_SECOND then 0 else 1
    ensures
      var sec := a.sec + b.sec + carry;
      Plus(a, b) == Some(Timespec(if sec < TWO_63 then sec else sec - TWO_64, a.nsec + b.nsec - carry * NS_PER_SECOND))
  {
    Carry(a.nsec, b.nsec);
    Seconds(a.sec, b.sec, carry);
  }

  /** Normalised times are equal when they are the same number of nanoseconds. */
  lemma NormalUnique(a: Timespec, b: Timespec)
    requires Normal(a) && Normal(b) && Ns(a) == Ns(b)
    ensures a == b
  {
  }

  /** The deadline that the wait is given is normalised and exactly start plus timeout,
      for every timeout, if and only if its seconds fit. */
  lemma DeadlineExact(start: Timespec, ms: int)
    requires Normal(start) && 0 <= ms < 0x1_0000_0000
    ensures Plus(start, MsToTimespec(ms)).Some?
    ensures
      var deadline := Plus(start, MsToTimespec(ms)).value;
      Ns(start) + ms * 1_000_000 < 0x8000_0000_0000_0000 * 1_000_000_000
      <==> Normal(deadline) && Ns(deadline) == Ns(start) + ms * 1_000_000
  {
    MsExact(ms);
    PlusExact(start, MsToTimespec(ms));
  }

  lemma PlusCommutes(a: Timespec, b: Timespec)
    ensures Plus(a, b) == Plus(b, a)
    ensures Plus(a, b) == None <==> a.sec < 0 || b.sec < 0
  {
  }

  lemma PlusAssociates(a: Timespec, b: Timespec, c: Timespec)
    requires Normal(a) && Normal(b) && Normal(c)
    requires Ns(a) + Ns(b) + Ns(c) < 0x8000_0000_0000_0000 * 1_000_000_000
    ensures Plus(a, b).Some? && Plus(b, c).Some?
    ensures Plus(Plus(a, b).value, c) == Plus(a, Plus(b, c).value)
  {
    PlusExact(a, b);
    PlusExact(b, c);
    var ab, bc := Plus(a, b).value, Plus(b, c).value;
    PlusExact(ab, c);
    PlusExact(a, bc);
    NormalUnique(Plus(ab, c).value, Plus(a, bc).value);
  }

  predicate Before(a: Timespec, b: Timespec) {
    a.sec < b.sec || (a.sec == b.sec && a.nsec < b.nsec)
  }

  lemma BeforeIsLess(a: Timespec, b: Timespec)
    requires Normal(a) && Normal(b)
    ensures Before(a, b) <==> Ns(a) < Ns(b)
  {
  }

  /** Adding the same time keeps the order, strictly and both ways. */
  lemma PlusKeepsOrder(a: Timespec, b: Timespec, c: Timespec)
    requires Normal(a) && Normal(b) && Normal(c) && SumFits(a, c) && SumFits(b, c)
    ensures Before(a, b) <==> Before(Plus(a, c).value, Plus(b, c).value)
  {
    PlusExact(a, c);
    PlusExact(b, c);
    BeforeIsLess(a, b);
    BeforeIsLess(Plus(a, c).value, Plus(b, c).value);
  }
}
