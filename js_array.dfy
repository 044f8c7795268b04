/**
 * The two `Array.prototype` operations the statistics pass relies on: `sort` with a numeric comparator,
 * which ECMAScript requires to be stable, and `reverse`.
 */
module JsArray {

  /** Ascending by `key`, the order `arr.sort((a, b) => key(a) - key(b))` produces. */
  predicate SortedBy<T>(s: seq<T>, key: T -> int) {
    forall i, j :: 0 <= i < j < |s| ==> key(s[i]) <= key(s[j])
  }

  /**
   * Places `x` after every element whose key does not exceed its own: where a stable sort puts an
   * element that arrives last.
   */
  function Insert<T>(s: seq<T>, x: T, key: T -> int): (r: seq<T>)
    ensures multiset(r) == multiset(s) + multiset{x}
    ensures |r| == |s| + 1
  {
    if s == [] then [x]
    else if key(x) < key(s[0]) then [x] + s
    else
      assert s == [s[0]] + s[1..];
      [s[0]] + Insert(s[1..], x, key)
  }

  lemma {:induction false} InsertKeepsSorted<T>(s: seq<T>, x: T, key: T -> int)
    requires SortedBy(s, key)
    ensures SortedBy(Insert(s, x, key), key)
  {
    if s != [] && key(x) >= key(s[0]) {
      var rest := Insert(s[1..], x, key);
      InsertKeepsSorted(s[1..], x, key);
      forall j | 0 <= j < |rest| ensures key(s[0]) <= key(rest[j]) {
        assert rest[j] in multiset(rest);
        if rest[j] != x {
          assert rest[j] in multiset(s[1..]);
          var i :| 0 <= i < |s[1..]| && s[1..][i] == rest[j];
          assert s[i + 1] == rest[j];
        }
      }
      assert Insert(s, x, key) == [s[0]] + rest;
    }
  }

  /** The inserted array holds exactly the old elements and `x`. */
  lemma {:induction false} InsertMembers<T>(s: seq<T>, x: T, key: T -> int)
    ensures forall y :: y in Insert(s, x, key) <==> y in s || y == x
  {
    if s != [] && key(x) >= key(s[0]) {
      InsertMembers(s[1..], x, key);
      assert s == [s[0]] + s[1..];
    }
  }

  /** A stable sort, ascending by `key` (insertion sort, element by element from the front). */
  function SortBy<T>(s: seq<T>, key: T -> int): (r: seq<T>)
    ensures SortedBy(r, key)
    ensures multiset(r) == multiset(s)
    ensures |r| == |s|
  {
    if s == [] then []
    else
      assert s == s[..|s| - 1] + [s[|s| - 1]];
      InsertKeepsSorted(SortBy(s[..|s| - 1], key), s[|s| - 1], key);
      Insert(SortBy(s[..|s| - 1], key), s[|s| - 1], key)
  }

  /** An element whose key is not below any other's is appended by `Insert`. */
  lemma {:induction false} InsertMaximal<T>(s: seq<T>, x: T, key: T -> int)
    requires SortedBy(s, key)
    requires forall i :: 0 <= i < |s| ==> key(s[i]) <= key(x)
    ensures Insert(s, x, key) == s + [x]
  {
    if s != [] {
      InsertMaximal(s[1..], x, key);
    }
  }

  /** Sorting what is already sorted changes nothing: a stable sort keeps the order of equal keys. */
  lemma {:induction false} SortBySorted<T>(s: seq<T>, key: T -> int)
    requires SortedBy(s, key)
    ensures SortBy(s, key) == s
  {
    if s != [] {
      var init := s[..|s| - 1];
      SortBySorted(init, key);
      InsertMaximal(init, s[|s| - 1], key);
      assert init + [s[|s| - 1]] == s;
    }
  }

  /** In a sorted array, an element outside the first `n` has a key no smaller than any of theirs. */
  lemma SortedPrefixHasLeastKeys<T>(s: seq<T>, n: nat, key: T -> int)
    requires SortedBy(s, key) && n <= |s|
    ensures forall x, k :: x in s && x !in s[..n] && 0 <= k < n ==> key(s[k]) <= key(x)
  {
    forall x, k | x in s && x !in s[..n] && 0 <= k < n ensures key(s[k]) <= key(x) {
      var i :| 0 <= i < |s| && s[i] == x;
      assert forall j :: 0 <= j < n ==> s[..n][j] == s[j];
    }
  }

  /** `arr.reverse()`. */
  function Reversed<T>(s: seq<T>): (r: seq<T>)
    ensures |r| == |s|
    ensures forall i :: 0 <= i < |s| ==> r[i] == s[|s| - 1 - i]
  {
    if s == [] then [] else Reversed(s[1..]) + [s[0]]
  }

  /** Reversing an ascending array gives a descending one. */
  lemma ReversedDescends<T>(s: seq<T>, key: T -> int)
    requires SortedBy(s, key)
    ensures forall a, b :: 0 <= a < b < |s| ==> key(Reversed(s)[a]) >= key(Reversed(s)[b])
  {
    var r := Reversed(s);
    forall a, b | 0 <= a < b < |s| ensures key(r[a]) >= key(r[b]) {
      assert r[a] == s[|s| - 1 - a] && r[b] == s[|s| - 1 - b];
    }
  }

  lemma ReversedSameElements<T>(s: seq<T>)
    ensures multiset(Reversed(s)) == multiset(s)
  {
    if s != [] {
      ReversedSameElements(s[1..]);
      assert s == [s[0]] + s[1..];
    }
  }
}
