/** `Array.prototype.sort` with a comparator `(a, b) => key(b) - key(a)`: a
    stable sort into descending order of an integer key. Both the scan
    archive (by timestamp) and the area chart (by count) sort this way. */
module Sorting {

  predicate Descending<T>(s: seq<T>, key: T -> int) {
    forall i, j | 0 <= i < j < |s| :: key(s[i]) >= key(s[j])
  }

  /** `x` placed after every element whose key is at least its own: where a
      stable sort puts the element that came last. */
  function InsertDesc<T>(s: seq<T>, x: T, key: T -> int): seq<T> {
    if s == [] then [x]
    else if key(s[0]) >= key(x) then [s[0]] + InsertDesc(s[1..], x, key)
    else [x] + s
  }

  /** The sorted sequence: elements with equal keys keep their order. */
  function SortDesc<T>(s: seq<T>, key: T -> int): seq<T> {
    if s == [] then [] else InsertDesc(SortDesc(s[..|s| - 1], key), s[|s| - 1], key)
  }

  lemma {:induction false} InsertCounts<T>(s: seq<T>, x: T, key: T -> int)
    ensures multiset(InsertDesc(s, x, key)) == multiset(s) + multiset{x}
  {
    if s != [] && key(s[0]) >= key(x) {
      InsertCounts(s[1..], x, key);
      assert s == [s[0]] + s[1..];
    }
  }

  /** Inserting an element with key at most `t` among elements with keys at
      most `t` gives elements with keys at most `t`. */
  lemma {:induction false} InsertBounded<T>(s: seq<T>, x: T, key: T -> int, t: int)
    requires forall i | 0 <= i < |s| :: key(s[i]) <= t
    requires key(x) <= t
    ensures forall i | 0 <= i < |InsertDesc(s, x, key)| :: key(InsertDesc(s, x, key)[i]) <= t
  {
    if s != [] && key(s[0]) >= key(x) {
      InsertBounded(s[1..], x, key, t);
    }
  }

  lemma {:induction false} InsertKeepsOrder<T>(s: seq<T>, x: T, key: T -> int)
    requires Descending(s, key)
    ensures Descending(InsertDesc(s, x, key), key)
  {
    if s != [] && key(s[0]) >= key(x) {
      InsertKeepsOrder(s[1..], x, key);
      InsertBounded(s[1..], x, key, key(s[0]));
      var r := InsertDesc(s[1..], x, key);
      assert InsertDesc(s, x, key) == [s[0]] + r;
    }
  }

  /** The sort yields descending keys, and a rearrangement of its input. */
  lemma {:induction false} SortDescSorts<T>(s: seq<T>, key: T -> int)
    ensures Descending(SortDesc(s, key), key)
    ensures multiset(SortDesc(s, key)) == multiset(s)
  {
    if s != [] {
      SortDescSorts(s[..|s| - 1], key);
      InsertKeepsOrder(SortDesc(s[..|s| - 1], key), s[|s| - 1], key);
      InsertCounts(SortDesc(s[..|s| - 1], key), s[|s| - 1], key);
      assert s == s[..|s| - 1] + [s[|s| - 1]];
    }
  }

  /** An element whose key is at most the last key of a descending sequence
      goes at its end. */
  lemma {:induction false} InsertAtEnd<T>(s: seq<T>, x: T, key: T -> int)
    requires Descending(s + [x], key)
    ensures InsertDesc(s, x, key) == s + [x]
  {
    if s != [] {
      assert Descending(s[1..] + [x], key) by {
        assert s[1..] + [x] == (s + [x])[1..];
      }
      InsertAtEnd(s[1..], x, key);
      assert key(s[0]) >= key(x) by {
        assert (s + [x])[0] == s[0] && (s + [x])[|s|] == x;
      }
      assert s == [s[0]] + s[1..];
    }
  }

  /** A sequence already in descending order is left as it is: the sort moves
      no two elements whose order is already right. */
  lemma {:induction false} SortOfSorted<T>(s: seq<T>, key: T -> int)
    requires Descending(s, key)
    ensures SortDesc(s, key) == s
  {
    if s != [] {
      var init := s[..|s| - 1];
      assert Descending(init, key);
      SortOfSorted(init, key);
      assert s == init + [s[|s| - 1]];
      InsertAtEnd(init, s[|s| - 1], key);
    }
  }

  /** Pushing onto a descending sequence and sorting inserts the new element
      after every element whose key is at least its own. */
  lemma SortAfterPush<T>(s: seq<T>, x: T, key: T -> int)
    requires Descending(s, key)
    ensures SortDesc(s + [x], key) == InsertDesc(s, x, key)
  {
    assert (s + [x])[..|s + [x]| - 1] == s;
    SortOfSorted(s, key);
  }

  /** The elements whose key is `k`, in their order. */
  function WithKey<T>(s: seq<T>, key: T -> int, k: int): seq<T> {
    if s == [] then [] else (if key(s[0]) == k then [s[0]] else []) + WithKey(s[1..], key, k)
  }

  lemma {:induction false} WithKeyAppend<T>(s: seq<T>, t: seq<T>, key: T -> int, k: int)
    ensures WithKey(s + t, key, k) == WithKey(s, key, k) + WithKey(t, key, k)
  {
    if s != [] {
      WithKeyAppend(s[1..], t, key, k);
      assert (s + t)[1..] == s[1..] + t;
    } else {
      assert s + t == t;
    }
  }

  lemma {:induction false} WithKeyNone<T>(s: seq<T>, key: T -> int, k: int)
    requires forall i | 0 <= i < |s| :: key(s[i]) < k
    ensures WithKey(s, key, k) == []
  {
    if s != [] {
      WithKeyNone(s[1..], key, k);
    }
  }

  /** Inserting into a descending sequence puts the new element after every
      element with the same key. */
  lemma {:induction false} InsertWithKey<T>(s: seq<T>, x: T, key: T -> int, k: int)
    requires Descending(s, key)
    ensures WithKey(InsertDesc(s, x, key), key, k) == WithKey(s, key, k) + (if key(x) == k then [x] else [])
  {
    if s == [] {
    } else if key(s[0]) >= key(x) {
      var head := if key(s[0]) == k then [s[0]] else [];
      assert Descending(s[1..], key);
      InsertWithKey(s[1..], x, key, k);
      assert InsertDesc(s, x, key) == [s[0]] + InsertDesc(s[1..], x, key);
      assert WithKey(s, key, k) == head + WithKey(s[1..], key, k);
    } else {
      InsertFirst(s, x, key, k);
    }
  }

  /** An element with a larger key than every element goes first. */
  lemma InsertFirst<T>(s: seq<T>, x: T, key: T -> int, k: int)
    requires Descending(s, key) && s != [] && key(s[0]) < key(x)
    ensures WithKey(InsertDesc(s, x, key), key, k) == WithKey(s, key, k) + (if key(x) == k then [x] else [])
  {
    assert InsertDesc(s, x, key) == [x] + s;
    if key(x) == k {
      assert forall i | 0 <= i < |s| :: key(s[i]) <= key(s[0]);
      WithKeyNone(s, key, k);
    }
  }

  /** The sort is stable: the elements with any one key come out in the
      order they went in. */
  lemma {:induction false} SortStable<T>(s: seq<T>, key: T -> int, k: int)
    ensures WithKey(SortDesc(s, key), key, k) == WithKey(s, key, k)
  {
    if s != [] {
      var init, y := s[..|s| - 1], s[|s| - 1];
      SortStable(init, key, k);
      SortDescSorts(init, key);
      InsertWithKey(SortDesc(init, key), y, key, k);
      assert s == init + [y];
      WithKeyAppend(init, [y], key, k);
    }
  }
}
