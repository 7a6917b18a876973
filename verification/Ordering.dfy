/**
  Comparison sorting. Go's sort.Slice is not stable: it promises only some
  ordered rearrangement. Under a strict weak order whose ties are gone there
  is exactly one, which is why the planner's output does not depend on how the
  provider lists its records.
*/
module Ordering {
  /** The laws of a strict weak order at three values. */
  ghost predicate WeakAt<T>(less: (T, T) -> bool, a: T, b: T, c: T) {
    && !less(a, a)
    && (less(a, b) && less(b, c) ==> less(a, c))
    && (less(a, c) ==> less(a, b) || less(b, c))
  }

  ghost predicate StrictWeak<T(!new)>(less: (T, T) -> bool) {
    forall a, b, c :: WeakAt(less, a, b, c)
  }

  /** The laws of a strict total order at three values. */
  ghost predicate TotalAt<T>(less: (T, T) -> bool, a: T, b: T, c: T) {
    && !less(a, a)
    && (less(a, b) && less(b, c) ==> less(a, c))
    && (a == b || less(a, b) || less(b, a))
  }

  ghost predicate StrictTotal<T(!new)>(less: (T, T) -> bool) {
    forall a, b, c :: TotalAt(less, a, b, c)
  }

  /** Go's order on strings, and the order of a comparator that falls through key after key. */
  predicate LexLess<T(==)>(less: (T, T) -> bool, a: seq<T>, b: seq<T>) {
    if b == [] then false
    else if a == [] then true
    else if a[0] != b[0] then less(a[0], b[0])
    else LexLess(less, a[1..], b[1..])
  }

  lemma {:induction false} LexTotal<T(!new)>(less: (T, T) -> bool, a: seq<T>, b: seq<T>, c: seq<T>)
    requires StrictTotal(less)
    ensures !LexLess(less, a, a)
    ensures LexLess(less, a, b) && LexLess(less, b, c) ==> LexLess(less, a, c)
    ensures a == b || LexLess(less, a, b) || LexLess(less, b, a)
    decreases |a|
  {
    if a != [] {
      var rest := (s: seq<T>) => if s == [] then s else s[1..];
      LexTotal(less, a[1..], rest(b), rest(c));
      if b != [] {
        assert a[0] == b[0] && a[1..] == b[1..] ==> a == [a[0]] + a[1..] == b;
        assert TotalAt(less, a[0], b[0], a[0]);
        if c != [] {
          assert TotalAt(less, a[0], b[0], c[0]);
          assert TotalAt(less, b[0], c[0], b[0]);
        }
      }
    }
  }

  predicate CharLess(a: char, b: char) {
    a < b
  }

  predicate StringLess(a: string, b: string) {
    LexLess(CharLess, a, b)
  }

  /** The strings part at the given place, where the first ends or has the smaller ASCII code. */
  ghost predicate PartsAt(a: string, b: string, i: nat) {
    && i <= |a| && i < |b|
    && (forall k :: 0 <= k < i ==> a[k] == b[k])
    && (i < |a| ==> a[i] as int < b[i] as int)
  }

  /** The first place where two strings differ decides their order. */
  lemma {:induction false} StringLessMeans(a: string, b: string)
    ensures StringLess(a, b) <==> exists i: nat :: PartsAt(a, b, i)
    decreases |a|
  {
    if a != [] && b != [] && a[0] == b[0] {
      StringLessMeans(a[1..], b[1..]);
      if i: nat :| PartsAt(a[1..], b[1..], i) {
        assert PartsAt(a, b, i + 1) by {
          forall k | 0 <= k < i + 1 ensures a[k] == b[k] {
            assert k > 0 ==> a[k] == a[1..][k - 1] && b[k] == b[1..][k - 1];
          }
        }
      }
      if i: nat :| PartsAt(a, b, i) {
        assert PartsAt(a[1..], b[1..], i - 1);
      }
    } else if b != [] && (a == [] || a[0] < b[0]) {
      assert PartsAt(a, b, 0);
    }
  }

  predicate KeyLess(a: seq<string>, b: seq<string>) {
    LexLess(StringLess, a, b)
  }

  lemma StringLessTotal()
    ensures StrictTotal(StringLess)
  {
    forall a, b, c ensures TotalAt(CharLess, a, b, c) {}
    forall a, b, c ensures TotalAt(StringLess, a, b, c) {
      LexTotal(CharLess, a, b, c);
    }
  }

  lemma KeyLessTotal()
    ensures StrictTotal(KeyLess)
  {
    StringLessTotal();
    forall a, b, c ensures TotalAt(KeyLess, a, b, c) {
      LexTotal(StringLess, a, b, c);
    }
  }

  /** A comparator that compares keys in turn is a strict weak order, tied only on equal keys. */
  lemma KeyedOrder<T(!new)>(less: (T, T) -> bool, key: T -> seq<string>)
    requires forall a, b :: less(a, b) <==> KeyLess(key(a), key(b))
    ensures StrictWeak(less)
    ensures forall a, b :: less(a, b) || less(b, a) || key(a) == key(b)
  {
    KeyLessTotal();
    forall a, b, c ensures WeakAt(less, a, b, c) {
      assert TotalAt(KeyLess, key(a), key(b), key(c));
      assert TotalAt(KeyLess, key(b), key(a), key(c));
      assert TotalAt(KeyLess, key(b), key(c), key(a));
    }
    forall a, b ensures less(a, b) || less(b, a) || key(a) == key(b) {
      assert TotalAt(KeyLess, key(a), key(b), key(a));
    }
  }

  /** The same for a single key. */
  lemma SingleKeyOrder<T(!new)>(less: (T, T) -> bool, key: T -> string)
    requires forall a, b :: less(a, b) <==> StringLess(key(a), key(b))
    ensures StrictWeak(less)
    ensures forall a, b :: less(a, b) || less(b, a) || key(a) == key(b)
  {
    StringLessTotal();
    forall a, b, c ensures WeakAt(less, a, b, c) {
      assert TotalAt(StringLess, key(a), key(b), key(c));
      assert TotalAt(StringLess, key(b), key(a), key(c));
      assert TotalAt(StringLess, key(b), key(c), key(a));
    }
    forall a, b ensures less(a, b) || less(b, a) || key(a) == key(b) {
      assert TotalAt(StringLess, key(a), key(b), key(a));
    }
  }

  ghost predicate NoneBelow<T>(less: (T, T) -> bool, x: T, s: seq<T>) {
    forall y :: y in s ==> !less(y, x)
  }

  /** What sort.Slice promises of its result: nothing is less than a value before it. */
  ghost predicate Ordered<T>(less: (T, T) -> bool, s: seq<T>) {
    s == [] || (NoneBelow(less, s[0], s[1..]) && Ordered(less, s[1..]))
  }

  /** The same promise, value against value. */
  lemma {:induction false} OrderedAt<T>(less: (T, T) -> bool, s: seq<T>, i: nat, j: nat)
    requires Ordered(less, s) && i < j < |s|
    ensures !less(s[j], s[i])
  {
    if i == 0 {
      assert s[j] == s[1..][j - 1];
    } else {
      OrderedAt(less, s[1..], i - 1, j - 1);
    }
  }

  predicate NoRepeats<T(==)>(s: seq<T>) {
    forall i, j :: 0 <= i < j < |s| ==> s[i] != s[j]
  }

  /** No two of the values tie. */
  ghost predicate NoTies<T>(less: (T, T) -> bool, s: seq<T>) {
    forall x, y :: x in s && y in s && x != y ==> less(x, y) || less(y, x)
  }

  lemma SameMembers<T>(s: seq<T>, t: seq<T>)
    requires multiset(s) == multiset(t)
    ensures |s| == |t|
    ensures forall x :: x in s <==> x in t
  {
    assert |s| == |multiset(s)| == |multiset(t)| == |t|;
    forall x ensures x in s <==> x in t {
      assert x in s <==> x in multiset(s);
      assert x in t <==> x in multiset(t);
    }
  }

  /** Any two ordered rearrangements of the same untied values are the same sequence. */
  lemma {:induction false} OrderedUnique<T(!new)>(less: (T, T) -> bool, s: seq<T>, t: seq<T>)
    requires multiset(s) == multiset(t)
    requires Ordered(less, s) && Ordered(less, t) && NoTies(less, s)
    ensures s == t
  {
    SameMembers(s, t);
    if s != [] {
      assert s == [s[0]] + s[1..] && t == [t[0]] + t[1..];
      assert s[0] in s && t[0] in t;
      assert s[0] in t && t[0] in s;
      assert s[0] == t[0];
      assert multiset(s[1..]) == multiset(s) - multiset{s[0]};
      assert multiset(t[1..]) == multiset(t) - multiset{t[0]};
      OrderedUnique(less, s[1..], t[1..]);
    }
  }

  function Insert<T>(less: (T, T) -> bool, x: T, s: seq<T>): seq<T> {
    if s == [] then [x]
    else if less(x, s[0]) then [x] + s
    else [s[0]] + Insert(less, x, s[1..])
  }

  function Sort<T>(less: (T, T) -> bool, s: seq<T>): seq<T> {
    if s == [] then [] else Insert(less, s[|s| - 1], Sort(less, s[..|s| - 1]))
  }

  lemma {:induction false} InsertMembers<T>(less: (T, T) -> bool, x: T, s: seq<T>)
    ensures multiset(Insert(less, x, s)) == multiset(s) + multiset{x}
    ensures forall y :: y in Insert(less, x, s) <==> y in s || y == x
  {
    if s != [] {
      assert s == [s[0]] + s[1..];
      InsertMembers(less, x, s[1..]);
    }
  }

  lemma {:induction false} SortMembers<T>(less: (T, T) -> bool, s: seq<T>)
    ensures multiset(Sort(less, s)) == multiset(s)
    ensures |Sort(less, s)| == |s|
    ensures forall y :: y in Sort(less, s) <==> y in s
  {
    if s != [] {
      assert s == s[..|s| - 1] + [s[|s| - 1]];
      SortMembers(less, s[..|s| - 1]);
      InsertMembers(less, s[|s| - 1], Sort(less, s[..|s| - 1]));
    }
    SameMembers(Sort(less, s), s);
  }

  lemma {:induction false} InsertOrdered<T(!new)>(less: (T, T) -> bool, x: T, s: seq<T>)
    requires StrictWeak(less) && Ordered(less, s)
    ensures Ordered(less, Insert(less, x, s))
  {
    if s != [] {
      InsertMembers(less, x, s[1..]);
      if less(x, s[0]) {
        forall y | y in s ensures !less(y, x) {
          assert WeakAt(less, y, x, s[0]) && WeakAt(less, s[0], s[0], s[0]);
        }
        assert ([x] + s)[1..] == s;
      } else {
        var r := Insert(less, x, s[1..]);
        InsertOrdered(less, x, s[1..]);
        assert ([s[0]] + r)[1..] == r;
      }
    }
  }

  lemma {:induction false} SortOrdered<T(!new)>(less: (T, T) -> bool, s: seq<T>)
    requires StrictWeak(less)
    ensures Ordered(less, Sort(less, s))
  {
    if s != [] {
      SortOrdered(less, s[..|s| - 1]);
      InsertOrdered(less, s[|s| - 1], Sort(less, s[..|s| - 1]));
    }
  }

  lemma {:induction false} NoRepeatsCounts<T>(s: seq<T>)
    ensures NoRepeats(s) <==> forall x :: multiset(s)[x] <= 1
    decreases |s|
  {
    if s != [] {
      NoRepeatsCounts(s[1..]);
      assert s == [s[0]] + s[1..];
      assert multiset(s) == multiset{s[0]} + multiset(s[1..]);
      assert s[0] in s[1..] <==> s[0] in multiset(s[1..]);
      if forall x :: multiset(s)[x] <= 1 {
        forall x ensures multiset(s[1..])[x] <= 1 {
          assert multiset(s)[x] <= 1;
        }
        assert multiset(s)[s[0]] <= 1;
      }
      if NoRepeats(s) {
        forall x ensures multiset(s)[x] <= 1 {
          assert x in s[1..] <==> x in multiset(s[1..]);
        }
      }
    }
  }

  lemma NoRepeatsPermuted<T>(s: seq<T>, t: seq<T>)
    requires multiset(s) == multiset(t) && NoRepeats(s)
    ensures NoRepeats(t)
  {
    NoRepeatsCounts(s);
    NoRepeatsCounts(t);
  }

  lemma HeadNotAbove<T(!new)>(less: (T, T) -> bool, x: T, s: seq<T>, j: nat)
    requires StrictWeak(less) && Ordered(less, s) && 0 < j <= |s| && !less(x, s[j - 1])
    ensures !less(x, s[0])
  {
    if j > 1 {
      assert s[j - 1] == s[1..][j - 2];
      assert WeakAt(less, x, s[j - 1], s[0]);
    }
  }

  lemma Spliced<T>(x: T, s: seq<T>, j: nat)
    requires 0 < j <= |s|
    ensures [s[0]] + (s[1..][..j - 1] + [x] + s[1..][j - 1..]) == s[..j] + [x] + s[j..]
  {
  }

  /** Scanning down from the end finds the place that scanning up from the start finds. */
  lemma {:induction false} InsertSplits<T(!new)>(less: (T, T) -> bool, x: T, s: seq<T>, j: nat)
    requires StrictWeak(less) && Ordered(less, s) && j <= |s|
    requires j > 0 ==> !less(x, s[j - 1])
    requires j < |s| ==> less(x, s[j])
    ensures Insert(less, x, s) == s[..j] + [x] + s[j..]
  {
    if j > 0 {
      HeadNotAbove(less, x, s, j);
      var rest := s[1..];
      assert j > 1 ==> rest[j - 2] == s[j - 1];
      assert j < |s| ==> rest[j - 1] == s[j];
      InsertSplits(less, x, rest, j - 1);
      Spliced(x, s, j);
    }
  }

  method InsertAt<T(!new)>(a: array<T>, i: nat, less: (T, T) -> bool)
    requires i < a.Length && StrictWeak(less) && Ordered(less, a[..i])
    modifies a
    ensures a[..i + 1] == Insert(less, old(a[i]), old(a[..i]))
    ensures a[i + 1..] == old(a[i + 1..])
  {
    hide Insert, Ordered, StrictWeak;
    var x := a[i];
    var j := i;
    ghost var was := a[..i];
    while j > 0 && less(x, a[j - 1])
      invariant 0 <= j <= i
      invariant forall k :: 0 <= k < j ==> a[k] == was[k]
      invariant forall k :: j <= k < i ==> a[k + 1] == was[k]
      invariant a[i + 1..] == old(a[i + 1..])
      invariant j < i ==> less(x, was[j])
    {
      a[j] := a[j - 1];
      j := j - 1;
    }
    a[j] := x;
    assert a[..i + 1] == was[..j] + [x] + was[j..];
    InsertSplits(less, x, was, j);
  }

  /** A sort in place, as sort.Slice performs it. */
  method SortSlice<T(!new)>(a: array<T>, less: (T, T) -> bool)
    requires StrictWeak(less)
    modifies a
    ensures multiset(a[..]) == multiset(old(a[..]))
    ensures Ordered(less, a[..])
  {
    ghost var was := a[..];
    for i := 0 to a.Length
      invariant a[..i] == Sort(less, was[..i])
      invariant a[i..] == was[i..]
    {
      SortOrdered(less, was[..i]);
      assert was[..i + 1][..i] == was[..i];
      assert a[i] == a[i..][0] == was[i];
      InsertAt(a, i, less);
    }
    assert was[..a.Length] == was && a[..a.Length] == a[..];
    SortOrdered(less, was);
    SortMembers(less, was);
  }
}
