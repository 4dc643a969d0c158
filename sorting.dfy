/** The stable sort by an integer key that the pages use to order dated
    records (`[...xs].sort((a, b) => key(a) - key(b))`). */
module Sorting {

  /** Insert `x` in front of the first element whose key is not smaller. */
  function Insert<T>(x: T, s: seq<T>, key: T -> int): (r: seq<T>)
    ensures |r| == |s| + 1
  {
    if s == [] then [x]
    else if key(x) <= key(s[0]) then [x] + s
    else [s[0]] + Insert(x, s[1..], key)
  }

  /** Insertion sort, ascending by `key`; elements with equal keys keep
      their input order. */
  function SortBy<T>(s: seq<T>, key: T -> int): (r: seq<T>)
    ensures |r| == |s|
  {
    if s == [] then [] else Insert(s[0], SortBy(s[1..], key), key)
  }

  ghost predicate Ascending<T>(s: seq<T>, key: T -> int)
  {
    forall i, j :: 0 <= i < j < |s| ==> key(s[i]) <= key(s[j])
  }

  lemma {:induction false} InsertPerm<T>(x: T, s: seq<T>, key: T -> int)
    ensures multiset(Insert(x, s, key)) == multiset(s) + multiset{x}
  {
    if s != [] && key(x) > key(s[0]) {
      InsertPerm(x, s[1..], key);
      assert s == [s[0]] + s[1..];
    }
  }

  /** A bound every element and `x` meet is met by every element of the result. */
  lemma {:induction false} InsertBound<T>(x: T, s: seq<T>, key: T -> int, b: int)
    requires b <= key(x)
    requires forall k :: 0 <= k < |s| ==> b <= key(s[k])
    ensures forall k :: 0 <= k < |Insert(x, s, key)| ==> b <= key(Insert(x, s, key)[k])
  {
    if s != [] && key(x) > key(s[0]) {
      InsertBound(x, s[1..], key, b);
    }
  }

  lemma {:induction false} InsertSorted<T>(x: T, s: seq<T>, key: T -> int)
    requires Ascending(s, key)
    ensures Ascending(Insert(x, s, key), key)
  {
    if s != [] {
      var r := Insert(x, s, key);
      if key(x) > key(s[0]) {
        var rest := Insert(x, s[1..], key);
        InsertSorted(x, s[1..], key);
        InsertBound(x, s[1..], key, key(s[0]));
        forall i, j | 0 <= i < j < |r| ensures key(r[i]) <= key(r[j]) {
          assert r[j] == rest[j - 1];
          if i > 0 { assert r[i] == rest[i - 1]; }
        }
      } else {
        forall i, j | 0 <= i < j < |r| ensures key(r[i]) <= key(r[j]) {
          assert r[j] == s[j - 1];
          if i > 0 { assert r[i] == s[i - 1]; }
        }
      }
    }
  }

  /** The result is ascending and holds exactly the input's elements. */
  lemma {:induction false} SortByKeeps<T>(s: seq<T>, key: T -> int)
    ensures Ascending(SortBy(s, key), key)
    ensures multiset(SortBy(s, key)) == multiset(s)
  {
    if s != [] {
      SortByKeeps(s[1..], key);
      InsertSorted(s[0], SortBy(s[1..], key), key);
      InsertPerm(s[0], SortBy(s[1..], key), key);
      assert s == [s[0]] + s[1..];
    }
  }
}
