/** The image list camera: which files it shows, in which order. */
module ImageList {
  import opened Wrappers

  // ----- the numeric prefix of a file name

  predicate IsSpace(c: char) {
    c == ' ' || '\t' <= c <= '\r'
  }

  predicate IsDigit(c: char) {
    '0' <= c <= '9'
  }

  function DigitOf(c: char): nat
    requires IsDigit(c)
  {
    (c - '0') as nat
  }

  /** Everything before the first underscore, or the whole name. */
  function Prefix(name: string): string {
    if name == [] || name[0] == '_' then [] else [name[0]] + Prefix(name[1..])
  }

  function SkipSpace(s: string): string {
    if s != [] && IsSpace(s[0]) then SkipSpace(s[1..]) else s
  }

  function Digits(s: string): (digits: string)
    ensures forall c :: c in digits ==> IsDigit(c)
  {
    if s == [] || !IsDigit(s[0]) then [] else [s[0]] + Digits(s[1..])
  }

  function Value(digits: string): nat
    requires forall c :: c in digits ==> IsDigit(c)
  {
    if digits == [] then 0
    else 10 * Value(digits[..|digits| - 1]) + DigitOf(digits[|digits| - 1])
  }

  /** std::stoi: white space, a sign, digits; anything may follow. None where it throws,
      because there is no digit or the number is no 32-bit int. */
  function Stoi(text: string): Option<int> {
    var s := SkipSpace(text);
    var signed := s != [] && (s[0] == '-' || s[0] == '+');
    var digits := Digits(if signed then s[1..] else s);
    var n: int := if signed && s[0] == '-' then 0 - Value(digits) else Value(digits);
    if digits == [] || !(-0x8000_0000 <= n < 0x8000_0000) then None else Some(n)
  }

  /** The number a file is sorted by. */
  function Token(name: string): Option<int> {
    Stoi(Prefix(name))
  }

  function Decimal(n: nat): string {
    var last := ['0' + (n % 10) as char];
    if n < 10 then last else Decimal(n / 10) + last
  }

  lemma {:induction false} DecimalValue(n: nat)
    ensures Decimal(n) != [] && forall c :: c in Decimal(n) ==> IsDigit(c)
    ensures Value(Decimal(n)) == n
  {
    if n >= 10 {
      DecimalValue(n / 10);
      assert Decimal(n)[..|Decimal(n)| - 1] == Decimal(n / 10);
    }
  }

  /** The base is ten. */
  lemma ValueExactly(digits: string, c: char)
    requires (forall d :: d in digits ==> '0' <= d <= '9') && '0' <= c <= '9'
    ensures Value([]) == 0 && Value(digits + [c]) == 10 * Value(digits) + (c as int - 48)
  {
    assert (digits + [c])[..|digits|] == digits;
  }

  lemma {:induction false} PrefixAppend(p: string, rest: string)
    requires '_' !in p
    ensures Prefix(p + rest) == p + Prefix(rest)
  {
    if p == [] {
      assert p + rest == rest;
    } else {
      assert (p + rest)[0] == p[0] && (p + rest)[1..] == p[1..] + rest;
      PrefixAppend(p[1..], rest);
      assert [p[0]] + (p[1..] + Prefix(rest)) == p + Prefix(rest);
    }
  }

  /** Only the part before the first underscore counts. */
  lemma PrefixExactly(p: string, rest: string)
    requires '_' !in p
    ensures Prefix(p) == p && Prefix(p + ("_" + rest)) == p
  {
    PrefixAppend(p, "");
    assert p + "" == p;
    PrefixAppend(p, "_" + rest);
  }

  /** Space, tab, line feed, vertical tab, form feed, carriage return. */
  predicate Blank(c: char) {
    c as int == 32 || 9 <= c as int <= 13
  }

  /** The text does not begin with a digit. */
  predicate NoDigitFirst(s: string) {
    s == [] || !('0' <= s[0] <= '9')
  }

  lemma {:induction false} SkipsBlanks(spaces: string, rest: string)
    requires (forall c :: c in spaces ==> Blank(c)) && (rest == [] || !Blank(rest[0]))
    ensures SkipSpace(spaces + rest) == rest
  {
    if spaces == [] {
      assert spaces + rest == rest;
    } else {
      assert (spaces + rest)[0] == spaces[0] && (spaces + rest)[1..] == spaces[1..] + rest;
      assert Blank(spaces[0]);
      SkipsBlanks(spaces[1..], rest);
    }
  }

  lemma {:induction false} TakesDigits(digits: string, rest: string)
    requires (forall c :: c in digits ==> '0' <= c <= '9') && NoDigitFirst(rest)
    ensures Digits(digits + rest) == digits
  {
    if digits == [] {
      assert digits + rest == rest;
    } else {
      assert (digits + rest)[0] == digits[0] && (digits + rest)[1..] == digits[1..] + rest;
      assert digits[0] in digits && forall c :: c in digits[1..] ==> c in digits;
      TakesDigits(digits[1..], rest);
      assert digits == [digits[0]] + digits[1..];
    }
  }

  /** std::stoi reads white space, an optional sign and all the digits that follow, and
      ignores the rest; it throws exactly if there is no digit or the number is no int. */
  lemma StoiExactly(spaces: string, sign: string, digits: string, rest: string)
    requires forall c :: c in spaces ==> Blank(c)
    requires sign == "" || sign == "+" || sign == "-"
    requires (forall c :: c in digits ==> '0' <= c <= '9') && NoDigitFirst(rest)
    requires sign == "" && digits == "" && rest != "" ==> !Blank(rest[0]) && rest[0] != '+' && rest[0] != '-'
    ensures
      var n: int := if sign == "-" then 0 - Value(digits) else Value(digits);
      Stoi(spaces + (sign + (digits + rest)))
      == if digits == "" || n < -2147483648 || n > 2147483647 then None else Some(n)
  {
    var s := sign + (digits + rest);
    assert digits != "" ==> digits[0] in digits && (digits + rest)[0] == digits[0];
    assert digits == "" ==> digits + rest == rest;
    if sign == "" {
      assert s == digits + rest;
    } else {
      assert s[0] == sign[0] && s[1..] == digits + rest;
    }
    SkipsBlanks(spaces, s);
    TakesDigits(digits, rest);
  }

  lemma StoiOfDigits(digits: string, rest: string)
    requires (forall c :: c in digits ==> '0' <= c <= '9') && digits != "" && NoDigitFirst(rest)
    requires Value(digits) <= 2147483647
    ensures Stoi(digits + rest) == Some(Value(digits))
  {
    StoiExactly("", "", digits, rest);
    assert "" + ("" + (digits + rest)) == digits + rest;
  }

  lemma PrefixFirst(rest: string)
    requires NoDigitFirst(rest)
    ensures NoDigitFirst(Prefix(rest))
  {
  }

  /** A file whose name begins with a number is sorted by that number, whatever follows its
      digits: an underscore or anything else. */
  lemma TokenOfNumbered(n: nat, rest: string)
    requires n < 0x8000_0000 && NoDigitFirst(rest)
    ensures Token(Decimal(n) + rest) == Some(n)
  {
    DecimalValue(n);
    var digits := Decimal(n);
    assert '_' !in digits && forall c :: c in digits ==> '0' <= c <= '9';
    PrefixAppend(digits, rest);
    PrefixFirst(rest);
    StoiOfDigits(digits, Prefix(rest));
  }

  /** A file whose name begins with neither a digit, a sign nor white space has no number. */
  lemma TokenOfUnnumbered(name: string)
    requires NoDigitFirst(name) && (name != "" ==> !Blank(name[0]) && name[0] != '+' && name[0] != '-')
    ensures Token(name) == None
  {
    StoiExactly("", "", "", Prefix(name));
    assert "" + ("" + ("" + Prefix(name))) == Prefix(name);
  }

  // ----- filter and sort

  predicate IsJpg(name: string) {
    |name| >= 4 && name[|name| - 4..] == ".jpg"
  }

  /** The suffix, exactly. */
  lemma JpgExactly(name: string)
    ensures IsJpg(name) <==> exists stem :: name == stem + ".jpg"
  {
    if IsJpg(name) {
      assert name == name[..|name| - 4] + ".jpg";
    }
  }

  function Filtered(names: seq<string>): seq<string> {
    if names == [] then []
    else
      var last := names[|names| - 1];
      Filtered(names[..|names| - 1]) + (if IsJpg(last) then [last] else [])
  }

  predicate Numbered(files: seq<string>) {
    forall f :: f in files ==> Token(f).Some?
  }

  predicate Sorted(files: seq<string>)
    requires Numbered(files)
  {
    forall i, j :: 0 <= i < j < |files| ==> Token(files[i]).value <= Token(files[j]).value
  }

  /** What std::sort guarantees; it need not keep the order of equal numbers. */
  predicate SortOf(files: seq<string>, unsorted: seq<string>) {
    multiset(files) == multiset(unsorted) && Numbered(files) && Sorted(files)
  }

  function Inserted(files: seq<string>, f: string, k: nat): seq<string>
    requires k <= |files|
  {
    files[..k] + [f] + files[k..]
  }

  lemma InsertedHasAll(files: seq<string>, f: string, k: nat)
    requires k <= |files|
    ensures multiset(Inserted(files, f, k)) == multiset(files + [f])
    ensures forall g :: g in Inserted(files, f, k) ==> g == f || g in files
  {
    assert files == files[..k] + files[k..];
  }

  lemma InsertedIsSorted(files: seq<string>, f: string, k: nat)
    requires Numbered(files) && Sorted(files) && Token(f).Some? && k <= |files|
    requires forall j :: 0 <= j < k ==> Token(files[j]).value <= Token(f).value
    requires forall j :: k <= j < |files| ==> Token(f).value < Token(files[j]).value
    ensures Numbered(Inserted(files, f, k)) && Sorted(Inserted(files, f, k))
  {
    InsertedHasAll(files, f, k);
    forall i, j | 0 <= i < j < |Inserted(files, f, k)|
      ensures
        var r := Inserted(files, f, k);
        Token(r[i]).Some? && Token(r[j]).Some? && Token(r[i]).value <= Token(r[j]).value
    {
      InsertedInOrder(files, f, k, Inserted(files, f, k), i, j);
    }
  }

  lemma InsertedIsSortOf(files: seq<string>, f: string, k: nat)
    requires Numbered(files) && Sorted(files) && Token(f).Some? && k <= |files|
    requires forall j :: 0 <= j < k ==> Token(files[j]).value <= Token(f).value
    requires forall j :: k <= j < |files| ==> Token(f).value < Token(files[j]).value
    ensures SortOf(Inserted(files, f, k), files + [f])
  {
    InsertedHasAll(files, f, k);
    InsertedIsSorted(files, f, k);
  }

  lemma InsertedInOrder(files: seq<string>, f: string, k: nat, r: seq<string>, i: nat, j: nat)
    requires Numbered(files) && Sorted(files) && Token(f).Some? && k <= |files|
    requires forall j :: 0 <= j < k ==> Token(files[j]).value <= Token(f).value
    requires forall j :: k <= j < |files| ==> Token(f).value < Token(files[j]).value
    requires r == Inserted(files, f, k) && i < j < |r|
    ensures Token(r[i]).Some? && Token(r[j]).Some? && Token(r[i]).value <= Token(r[j]).value
  {
    var a := if i < k then i else i - 1;
    var b := if j < k then j else j - 1;
    assert i != k ==> r[i] == files[a];
    assert j != k ==> r[j] == files[b];
  }

  /** In a sorted list all files before one that is not above f are not above f either. */
  lemma NoneAbove(files: seq<string>, f: string, k: nat)
    requires Numbered(files) && Sorted(files) && Token(f).Some? && k <= |files|
    requires k > 0 ==> Token(files[k - 1]).value <= Token(f).value
    ensures forall j :: 0 <= j < k ==> Token(files[j]).value <= Token(f).value
  {
    forall j | 0 <= j < k
      ensures Token(files[j]).value <= Token(f).value
    {
      assert j < k - 1 ==> Token(files[j]).value <= Token(files[k - 1]).value;
    }
  }

  /** Puts one file into a sorted list. */
  method InsertFile(files: seq<string>, f: string) returns (r: seq<string>)
    requires Numbered(files) && Sorted(files) && Token(f).Some?
    ensures SortOf(r, files + [f])
  {
    var k := |files|;
    while k > 0 && Token(f).value < Token(files[k - 1]).value
      invariant 0 <= k <= |files|
      invariant forall j :: k <= j < |files| ==> Token(f).value < Token(files[j]).value
    {
      k := k - 1;
    }
    NoneAbove(files, f, k);
    InsertedIsSortOf(files, f, k);
    r := Inserted(files, f, k);
  }

  /** std::sort with the comparator of the constructor. With two files or more the
      comparator reads every name, so one name without a number makes it throw. */
  method SortFiles(unsorted: seq<string>) returns (files: Option<seq<string>>)
    ensures files.None? <==> |unsorted| >= 2 && !Numbered(unsorted)
    ensures files.Some? && |unsorted| >= 2 ==> SortOf(files.value, unsorted)
    ensures |unsorted| < 2 ==> files == Some(unsorted)
  {
    if |unsorted| < 2 {
      return Some(unsorted);
    }
    var sorted := [];
    for i := 0 to |unsorted|
      invariant SortOf(sorted, unsorted[..i])
      invariant Numbered(unsorted[..i])
    {
      if Token(unsorted[i]).None? {
        assert unsorted[i] in unsorted;
        return None;
      }
      sorted := InsertFile(sorted, unsorted[i]);
      assert unsorted[..i + 1] == unsorted[..i] + [unsorted[i]];
    }
    assert unsorted[..|unsorted|] == unsorted;
    files := Some(sorted);
  }

  lemma {:induction false} FilteredKeepsJpgs(names: seq<string>, f: string)
    ensures multiset(Filtered(names))[f] == if IsJpg(f) then multiset(names)[f] else 0
  {
    if names != [] {
      FilteredKeepsJpgs(names[..|names| - 1], f);
      assert names == names[..|names| - 1] + [names[|names| - 1]];
    }
  }

  /** The loop over the directory's entries. */
  method FilterNames(names: seq<string>) returns (unsorted: seq<string>)
    ensures unsorted == Filtered(names)
  {
    unsorted := [];
    for i := 0 to |names|
      invariant unsorted == Filtered(names[..i])
    {
      assert names[..i + 1][..i] == names[..i];
      if IsJpg(names[i]) {
        unsorted := unsorted + [names[i]];
      }
    }
    assert names[..|names|] == names;
  }

  /** The loop that puts the directory in front. */
  method WithBase(base: string, order: seq<string>) returns (paths: seq<string>)
    ensures |paths| == |order|
    ensures forall i :: 0 <= i < |order| ==> paths[i] == base + "/" + order[i]
  {
    paths := [];
    for i := 0 to |order|
      invariant |paths| == i && forall j :: 0 <= j < i ==> paths[j] == base + "/" + order[j]
    {
      paths := paths + [base + "/" + order[i]];
    }
  }

  /** The constructor's work: filter, sort, and put the directory in front. It fails only
      where the sort throws; then no camera exists. */
  method LoadList(base: string, names: seq<string>) returns (files: Option<seq<string>>, order: seq<string>)
    ensures files.None? <==> |Filtered(names)| >= 2 && !Numbered(Filtered(names))
    ensures files.Some? ==>
      && multiset(order) == multiset(Filtered(names))
      && (|order| >= 2 ==> SortOf(order, Filtered(names)))
      && |files.value| == |order|
      && forall i :: 0 <= i < |order| ==> files.value[i] == base + "/" + order[i]
  {
    var unsorted := FilterNames(names);
    var sorted := SortFiles(unsorted);
    if sorted.None? {
      return None, [];
    }
    order := sorted.value;
    SameMembers(order, unsorted);
    var paths := WithBase(base, order);
    files := Some(paths);
  }

  lemma SameMembers(a: seq<string>, b: seq<string>)
    requires multiset(a) == multiset(b)
    ensures |a| == |b|
  {
    assert |multiset(a)| == |a| && |multiset(b)| == |b|;
  }

  // ----- the camera

  class ImageListCamera {
    var filenames: seq<string>
    var frame: nat
    var output: Option<string>    // the file loaded last

    ghost predicate Valid()
      reads this
    {
      filenames == [] || frame < |filenames|
    }

    constructor (files: seq<string>)
      ensures Valid() && filenames == files && frame == 0 && output == None
    {
      filenames := files;
      frame := 0;
      output := None;
    }

    method Update()
      requires Valid()
      modifies this
      ensures Valid() && filenames == old(filenames)
      ensures filenames == [] ==> frame == old(frame) && output == old(output)
      ensures filenames != [] ==>
        frame == (old(frame) + 1) % |filenames| && output == Some(filenames[frame])
    {
      if |filenames| > 0 {
        frame := (frame + 1) % |filenames|;
        output := Some(filenames[frame]);
      }
    }

    /** Update number k of a camera loads file k modulo their number. */
    method Updates(k: nat)
      requires Valid() && frame == 0
      modifies this
      ensures Valid() && filenames == old(filenames)
      ensures filenames != [] ==> frame == k % |filenames|
      ensures filenames != [] && k > 0 ==> output == Some(filenames[k % |filenames|])
    {
      for i := 0 to k
        invariant Valid() && filenames == old(filenames)
        invariant filenames != [] ==> frame == i % |filenames|
        invariant filenames != [] && i > 0 ==> output == Some(filenames[i % |filenames|])
      {
        if |filenames| > 0 {
          NextIndex(i, |filenames|);
        }
        Update();
      }
    }
  }

  lemma MultipleAbove(d: int, n: int)
    requires d >= 1 && n >= 0
    ensures d * n >= n
  {
    assert d * n == n + (d - 1) * n;
  }

  /** Division with remainder is unique. */
  lemma Remainder(a: nat, n: nat, q: int, r: int)
    requires n > 0 && a == q * n + r && 0 <= r < n
    ensures a % n == r
  {
    var q', r' := a / n, a % n;
    assert a == q' * n + r' && 0 <= r' < n;
    assert (q' - q) * n == r - r';
    if q' > q {
      MultipleAbove(q' - q, n);
    } else if q' < q {
      MultipleAbove(q - q', n);
    }
  }

  lemma NextFrame(k: nat, n: nat)
    requires n > 0
    ensures (k + 1) % n == if k % n + 1 == n then 0 else k % n + 1
  {
    var q, r := k / n, k % n;
    assert k == q * n + r;
    if r + 1 == n {
      NextQuotient(q, n);
      Remainder(k + 1, n, q + 1, 0);
    } else {
      Remainder(k + 1, n, q, r + 1);
    }
  }

  lemma NextIndex(k: nat, n: nat)
    requires n > 0
    ensures (k + 1) % n == (k % n + 1) % n
  {
    NextFrame(k, n);
    if k % n + 1 < n {
      Remainder(k % n + 1, n, 0, k % n + 1);
    }
  }

  lemma NextQuotient(q: int, n: int)
    ensures (q + 1) * n == q * n + n
  {
  }

  /** Where d further updates lead, for at most one round. */
  lemma {:induction false} Ahead(k: nat, d: nat, n: nat)
    requires n > 0 && d <= n
    ensures (k + d) % n == if k % n + d < n then k % n + d else k % n + d - n
  {
    if d > 0 {
      Ahead(k, d - 1, n);
      NextFrame(k + (d - 1), n);
    }
  }

  /** The d-th update after number k loads this file. */
  predicate Loads(k: nat, n: nat, d: nat, file: nat)
    requires n > 0
  {
    (k + d) % n == file
  }

  /** Any n consecutive updates load each of n files exactly once. */
  lemma EachOnce(k: nat, n: nat, file: nat)
    requires file < n
    ensures exists d: nat :: 0 < d <= n && Loads(k, n, d, file)
    ensures forall c: nat, d: nat :: 0 < c <= n && 0 < d <= n && Loads(k, n, c, file) && Loads(k, n, d, file) ==> c == d
  {
    forall d: nat, f: nat | d <= n && Loads(k, n, d, f)
      ensures f == if k % n + d < n then k % n + d else k % n + d - n
    {
      Ahead(k, d, n);
    }
    var d := if file > k % n then file - k % n else file + n - k % n;
    Ahead(k, d, n);
    assert Loads(k, n, d, file);
  }
}
