/** `sort.Slice` over any strict order; callers may only use that the result is some sorted arrangement. */
module Sorting {

  ghost predicate StrictOrder<T(!new)>(less: (T, T) -> bool) {
    (forall a :: !less(a, a)) && forall a, b, c :: less(a, b) && less(b, c) ==> less(a, c)
  }

  /** No element is less than one before it. */
  ghost predicate Sorted<T>(less: (T, T) -> bool, s: seq<T>) {
    forall i, j :: 0 <= i < j < |s| ==> !less(s[j], s[i])
  }

  function Insert<T>(less: (T, T) -> bool, x: T, s: seq<T>): (r: seq<T>)
    ensures |r| == |s| + 1
    decreases |s|
  {
    if |s| == 0 || less(x, s[0]) then [x] + s else [s[0]] + Insert(less, x, s[1..])
  }

  lemma {:induction false} InsertBag<T>(less: (T, T) -> bool, x: T, s: seq<T>)
    ensures multiset(Insert(less, x, s)) == multiset{x} + multiset(s)
    decreases |s|
  {
    if |s| > 0 && !less(x, s[0]) {
      InsertBag(less, x, s[1..]);
      assert s == [s[0]] + s[1..];
    }
  }

  lemma {:induction false} InsertSorted<T(!new)>(less: (T, T) -> bool, x: T, s: seq<T>)
    requires StrictOrder(less) && Sorted(less, s)
    ensures Sorted(less, Insert(less, x, s))
    decreases |s|
  {
    var t := Insert(less, x, s);
    if |s| > 0 && less(x, s[0]) {
      forall j | 0 <= j < |s| ensures !less(s[j], x) {
        if j > 0 { assert !less(s[j], s[0]); }
      }
    } else if |s| > 0 {
      var rest := Insert(less, x, s[1..]);
      InsertSorted(less, x, s[1..]);
      InsertBag(less, x, s[1..]);
      forall j | 0 < j < |t| ensures !less(t[j], s[0]) {
        assert t[j] == rest[j - 1] && rest[j - 1] in multiset(rest);
        if t[j] != x {
          assert t[j] in multiset(s[1..]);
          var i :| 0 <= i < |s[1..]| && s[1..][i] == t[j];
          assert s[i + 1] == t[j];
        }
      }
      forall i, j | 0 <= i < j < |t| ensures !less(t[j], t[i]) {
        if i > 0 { assert t[i] == rest[i - 1] && t[j] == rest[j - 1]; }
      }
    }
  }

  method SortSlice<T(!new)>(s: seq<T>, less: (T, T) -> bool) returns (t: seq<T>)
    requires StrictOrder(less)
    ensures multiset(t) == multiset(s) && Sorted(less, t)
  {
    t := [];
    var i := 0;
    while i < |s|
      invariant 0 <= i <= |s| && multiset(t) == multiset(s[..i]) && Sorted(less, t)
    {
      InsertBag(less, s[i], t);
      InsertSorted(less, s[i], t);
      t := Insert(less, s[i], t);
      assert s[..i + 1] == s[..i] + [s[i]];
      i := i + 1;
    }
    assert s[..i] == s;
  }

  /** The first element of a sorted arrangement, which nothing in it precedes. */
  lemma FirstIsLeast<T(!new)>(less: (T, T) -> bool, s: seq<T>, t: seq<T>)
    requires StrictOrder(less) && Sorted(less, t) && multiset(t) == multiset(s) && |t| > 0
    ensures t[0] in s && forall x <- s :: !less(x, t[0])
  {
    assert t[0] in multiset(s);
    forall x <- s ensures !less(x, t[0]) {
      assert x in multiset(t);
      var j :| 0 <= j < |t| && t[j] == x;
    }
  }

  /** Any two different elements are ordered. */
  ghost predicate Ordered<T>(less: (T, T) -> bool, s: seq<T>) {
    forall x <- s, y <- s :: x == y || less(x, y) || less(y, x)
  }

  /** An order that tells all elements apart leaves one sorted arrangement. */
  lemma {:induction false} SortedIsUnique<T(!new)>(less: (T, T) -> bool, s: seq<T>, t: seq<T>)
    requires Sorted(less, s) && Sorted(less, t) && multiset(s) == multiset(t) && Ordered(less, s)
    ensures s == t
    decreases |s|
  {
    assert |s| == |multiset(s)| == |multiset(t)| == |t|;
    if |s| > 0 {
      SameFirst(less, s, t);
      assert s == [s[0]] + s[1..] && t == [t[0]] + t[1..];
      assert multiset(s[1..]) == multiset(s) - multiset{s[0]} == multiset(t[1..]);
      assert forall x <- s[1..] :: x in s;
      SortedIsUnique(less, s[1..], t[1..]);
    }
  }

  lemma SameFirst<T(!new)>(less: (T, T) -> bool, s: seq<T>, t: seq<T>)
    requires Sorted(less, s) && Sorted(less, t) && multiset(s) == multiset(t) && Ordered(less, s) && |s| > 0 && |t| > 0
    ensures s[0] == t[0]
  {
    assert s[0] in multiset(t) && t[0] in multiset(s);
    var i :| 0 <= i < |t| && t[i] == s[0];
    var j :| 0 <= j < |s| && s[j] == t[0];
    assert i > 0 ==> !less(s[0], t[0]);
    assert j > 0 ==> !less(t[0], s[0]);
  }
}
