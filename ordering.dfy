/**
 * Ordering a sequence by one key, ascending or descending: what
 * `OrderBy("<column> ASC")` and `OrderBy("<column> DESC")` do to the query.
 * The sort is an insertion sort; what it guarantees is that its result is
 * ordered by the key and is a permutation of its input.
 */
module Ordering {
  import opened Fields

  /** Whether a value with key `a` may precede one with key `b` in the requested direction. */
  predicate InOrder(a: Value, b: Value, descending: bool) {
    if descending then ValueLeq(b, a) else ValueLeq(a, b)
  }

  lemma InOrderTotalOrder(a: Value, b: Value, c: Value, descending: bool)
    ensures InOrder(a, b, descending) || InOrder(b, a, descending)
    ensures InOrder(a, b, descending) && InOrder(b, c, descending) ==> InOrder(a, c, descending)
    ensures InOrder(a, b, descending) && InOrder(b, a, descending) ==> a == b
  {
    ValueLeqTotalOrder(a, b, c);
    ValueLeqTotalOrder(c, b, a);
  }

  predicate SortedBy<T>(s: seq<T>, key: T -> Value, descending: bool) {
    forall i, j :: 0 <= i < j < |s| ==> InOrder(key(s[i]), key(s[j]), descending)
  }

  /** Insert `x` before the first element it may precede. */
  function Insert<T>(x: T, s: seq<T>, key: T -> Value, descending: bool): seq<T> {
    if s == [] || InOrder(key(x), key(s[0]), descending) then [x] + s
    else [s[0]] + Insert(x, s[1..], key, descending)
  }

  function SortBy<T>(s: seq<T>, key: T -> Value, descending: bool): seq<T> {
    if s == [] then [] else Insert(s[0], SortBy(s[1..], key, descending), key, descending)
  }

  lemma {:induction false} InsertPermutes<T>(x: T, s: seq<T>, key: T -> Value, descending: bool)
    ensures multiset(Insert(x, s, key, descending)) == multiset(s) + multiset{x}
  {
    if s != [] && !InOrder(key(x), key(s[0]), descending) {
      InsertPermutes(x, s[1..], key, descending);
      assert s == [s[0]] + s[1..];
    }
  }

  lemma {:induction false} InsertSorted<T>(x: T, s: seq<T>, key: T -> Value, descending: bool)
    requires SortedBy(s, key, descending)
    ensures SortedBy(Insert(x, s, key, descending), key, descending)
  {
    if s == [] {
    } else if InOrder(key(x), key(s[0]), descending) {
      forall j | 0 < j < |s|
        ensures InOrder(key(x), key(s[j]), descending)
      {
        InOrderTotalOrder(key(x), key(s[0]), key(s[j]), descending);
      }
    } else {
      InOrderTotalOrder(key(x), key(s[0]), key(x), descending);
      var rest := Insert(x, s[1..], key, descending);
      InsertSorted(x, s[1..], key, descending);
      InsertPermutes(x, s[1..], key, descending);
      forall j | 0 <= j < |rest|
        ensures InOrder(key(s[0]), key(rest[j]), descending)
      {
        assert rest[j] in multiset(rest);
        if rest[j] != x {
          assert rest[j] in multiset(s[1..]);
          var k :| 0 <= k < |s[1..]| && s[1..][k] == rest[j];
          assert s[k + 1] == rest[j];
        }
      }
    }
  }

  /** The sorted sequence holds exactly the elements of the input, with their multiplicities. */
  lemma {:induction false} SortByPermutes<T>(s: seq<T>, key: T -> Value, descending: bool)
    ensures multiset(SortBy(s, key, descending)) == multiset(s)
  {
    if s != [] {
      SortByPermutes(s[1..], key, descending);
      InsertPermutes(s[0], SortBy(s[1..], key, descending), key, descending);
      assert s == [s[0]] + s[1..];
    }
  }

  /** The sorted sequence is ordered by the key in the requested direction. */
  lemma {:induction false} SortBySorted<T>(s: seq<T>, key: T -> Value, descending: bool)
    ensures SortedBy(SortBy(s, key, descending), key, descending)
  {
    if s != [] {
      SortBySorted(s[1..], key, descending);
      InsertSorted(s[0], SortBy(s[1..], key, descending), key, descending);
    }
  }

  function Reverse<T>(s: seq<T>): seq<T> {
    if s == [] then [] else Reverse(s[1..]) + [s[0]]
  }

  lemma {:induction false} ReverseAt<T>(s: seq<T>)
    ensures |Reverse(s)| == |s|
    ensures forall k :: 0 <= k < |s| ==> Reverse(s)[k] == s[|s| - 1 - k]
    ensures multiset(Reverse(s)) == multiset(s)
  {
    if s != [] {
      ReverseAt(s[1..]);
      assert s == [s[0]] + s[1..];
    }
  }

  /** No two different elements of `s` share a key: the data set has no ties. */
  predicate KeyInjective<T(==)>(s: seq<T>, key: T -> Value) {
    forall x, y :: x in s && y in s && key(x) == key(y) ==> x == y
  }

  /** Two orderings of the same tie-free data set start with the same element. */
  lemma SortedHeadsAgree<T>(a: seq<T>, b: seq<T>, key: T -> Value, descending: bool)
    requires a != [] && multiset(a) == multiset(b)
    requires SortedBy(a, key, descending) && SortedBy(b, key, descending)
    requires KeyInjective(a, key)
    ensures b != [] && a[0] == b[0]
  {
    assert a[0] in multiset(b) && b[0] in multiset(a);
    var k :| 0 <= k < |b| && b[k] == a[0];
    var m :| 0 <= m < |a| && a[m] == b[0];
    assert InOrder(key(b[0]), key(a[0]), descending) by {
      if k != 0 {
        assert InOrder(key(b[0]), key(b[k]), descending);
      } else {
        InOrderTotalOrder(key(a[0]), key(a[0]), key(a[0]), descending);
      }
    }
    assert InOrder(key(a[0]), key(b[0]), descending) by {
      if m != 0 { assert InOrder(key(a[0]), key(a[m]), descending); }
    }
    InOrderTotalOrder(key(a[0]), key(b[0]), key(a[0]), descending);
    assert b[0] in a;
  }

  /** Without ties there is only one ordering of a data set. */
  lemma {:induction false} SortedPermutationUnique<T>(a: seq<T>, b: seq<T>, key: T -> Value, descending: bool)
    requires multiset(a) == multiset(b)
    requires SortedBy(a, key, descending) && SortedBy(b, key, descending)
    requires KeyInjective(a, key)
    ensures a == b
    decreases |a|
  {
    if a == [] {
      assert |b| == |multiset(b)| == 0;
    } else {
      SortedHeadsAgree(a, b, key, descending);
      TailOfPermutation(a, b);
      SortedTail(a, key, descending);
      SortedTail(b, key, descending);
      assert KeyInjective(a[1..], key) by {
        forall x | x in a[1..] ensures x in a { }
      }
      SortedPermutationUnique(a[1..], b[1..], key, descending);
      assert a == [a[0]] + a[1..] && b == [b[0]] + b[1..];
    }
  }

  lemma SortedTail<T>(a: seq<T>, key: T -> Value, descending: bool)
    requires a != [] && SortedBy(a, key, descending)
    ensures SortedBy(a[1..], key, descending)
  {
    forall i, j | 0 <= i < j < |a[1..]|
      ensures InOrder(key(a[1..][i]), key(a[1..][j]), descending)
    {
      assert a[1..][i] == a[i + 1] && a[1..][j] == a[j + 1];
    }
  }

  lemma TailOfPermutation<T>(a: seq<T>, b: seq<T>)
    requires a != [] && b != [] && a[0] == b[0] && multiset(a) == multiset(b)
    ensures multiset(a[1..]) == multiset(b[1..])
  {
    assert a == [a[0]] + a[1..] && b == [b[0]] + b[1..];
    assert multiset(a[1..]) == multiset(a) - multiset{a[0]};
    assert multiset(b[1..]) == multiset(b) - multiset{b[0]};
  }

  /**
   * On a data set without ties, sorting descending yields the ascending
   * order reversed.
   */
  lemma DescendingIsReversedAscending<T>(s: seq<T>, key: T -> Value)
    requires KeyInjective(s, key)
    ensures SortBy(s, key, true) == Reverse(SortBy(s, key, false))
  {
    var up := SortBy(s, key, false);
    var down := SortBy(s, key, true);
    SortByPermutes(s, key, false);
    SortByPermutes(s, key, true);
    SortBySorted(s, key, false);
    SortBySorted(s, key, true);
    ReverseAt(up);
    var rev := Reverse(up);
    forall i, j | 0 <= i < j < |rev|
      ensures InOrder(key(rev[i]), key(rev[j]), true)
    {
      assert rev[i] == up[|up| - 1 - i] && rev[j] == up[|up| - 1 - j];
    }
    forall x | x in down ensures x in s {
      assert x in multiset(down);
    }
    SortedPermutationUnique(down, rev, key, true);
  }
}
