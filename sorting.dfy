/**
 * The result of JavaScript's stable `Array.prototype.sort` with an ascending
 * integer-key comparator, written as a stable insertion sort.
 */
module Sorting {

  ghost predicate SortedBy<T>(s: seq<T>, key: T -> int) {
    forall i, j :: 0 <= i < j < |s| ==> key(s[i]) <= key(s[j])
  }

  /** Inserts `x` in front of the first element whose key is not smaller. */
  function Insert<T>(x: T, s: seq<T>, key: T -> int): (r: seq<T>)
    ensures |r| == |s| + 1
    ensures multiset(r) == multiset(s) + multiset{x}
    decreases |s|
  {
    if s == [] || key(x) <= key(s[0]) then [x] + s
    else
      var rest := Insert(x, s[1..], key);
      assert s == [s[0]] + s[1..];
      [s[0]] + rest
  }

  lemma {:induction false} InsertSorted<T>(x: T, s: seq<T>, key: T -> int)
    requires SortedBy(s, key)
    ensures SortedBy(Insert(x, s, key), key)
    decreases |s|
  {
    if s == [] || key(x) <= key(s[0]) {
    } else {
      var rest := Insert(x, s[1..], key);
      InsertSorted(x, s[1..], key);
      InsertHead(x, s[1..], key);
      assert rest[0] == x || rest[0] == s[1..][0];
    }
  }

  /** The head of an insertion is either the inserted element or the old head. */
  lemma {:induction false} InsertHead<T>(x: T, s: seq<T>, key: T -> int)
    ensures s == [] ==> Insert(x, s, key)[0] == x
    ensures s != [] ==> Insert(x, s, key)[0] == x || Insert(x, s, key)[0] == s[0]
  {
  }

  /** The elements of `s` whose key is `k`, in their order in `s`. */
  function WithKey<T>(s: seq<T>, key: T -> int, k: int): seq<T>
    decreases |s|
  {
    if s == [] then [] else (if key(s[0]) == k then [s[0]] else []) + WithKey(s[1..], key, k)
  }

  lemma WithKeyCons<T>(x: T, s: seq<T>, key: T -> int, k: int)
    ensures WithKey([x] + s, key, k) == (if key(x) == k then [x] else []) + WithKey(s, key, k)
  {
    assert ([x] + s)[1..] == s;
  }

  /**
   * Insertion moves `x` only past elements of a smaller key, so among the
   * elements of any one key the order is that of `[x] + s`.
   */
  lemma {:induction false} InsertWithKey<T>(x: T, s: seq<T>, key: T -> int, k: int)
    ensures WithKey(Insert(x, s, key), key, k) == WithKey([x] + s, key, k)
    decreases |s|
  {
    if s != [] && key(x) > key(s[0]) {
      var rest := Insert(x, s[1..], key);
      assert s == [s[0]] + s[1..];
      InsertWithKey(x, s[1..], key, k);
      WithKeyCons(s[0], rest, key, k);
      WithKeyCons(x, s[1..], key, k);
      WithKeyCons(s[0], s[1..], key, k);
      WithKeyCons(x, s, key, k);
    }
  }

  /**
   * Stable ascending sort by `key`: the elements of each key keep the order
   * they had in `s`.
   */
  function SortBy<T>(s: seq<T>, key: T -> int): (r: seq<T>)
    ensures |r| == |s|
    ensures multiset(r) == multiset(s)
    ensures SortedBy(r, key)
    ensures forall k :: WithKey(r, key, k) == WithKey(s, key, k)
    decreases |s|
  {
    if s == [] then []
    else
      var tail := SortBy(s[1..], key);
      InsertSorted(s[0], tail, key);
      assert s == [s[0]] + s[1..];
      assert forall k :: WithKey(Insert(s[0], tail, key), key, k) == WithKey(s, key, k) by {
        forall k
          ensures WithKey(Insert(s[0], tail, key), key, k) == WithKey(s, key, k)
        {
          InsertWithKey(s[0], tail, key, k);
          WithKeyCons(s[0], tail, key, k);
          WithKeyCons(s[0], s[1..], key, k);
        }
      }
      Insert(s[0], tail, key)
  }
}
