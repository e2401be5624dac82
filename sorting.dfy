/** A stable insertion sort by an integer key, largest key first.
    It stands for the document store's `sort("timestamp", -1)` and for the
    sort inside Python's `statistics.median` (used with a negated key). */
module Sorting {

  /** `s` is ordered by `key`, largest first. */
  ghost predicate Descending<T>(s: seq<T>, key: T -> int)
  {
    forall i, j :: 0 <= i < j < |s| ==> key(s[i]) >= key(s[j])
  }

  /** Inserts `x` in front of the first element whose key is not larger. */
  function Insert<T>(x: T, s: seq<T>, key: T -> int): (r: seq<T>)
    ensures |r| == |s| + 1
    ensures multiset(r) == multiset(s) + multiset{x}
  {
    if |s| == 0 then [x]
    else if key(x) >= key(s[0]) then [x] + s
    else
      assert s == [s[0]] + s[1..];
      [s[0]] + Insert(x, s[1..], key)
  }

  function SortDesc<T>(s: seq<T>, key: T -> int): (r: seq<T>)
    ensures |r| == |s|
    ensures multiset(r) == multiset(s)
  {
    if |s| == 0 then []
    else
      assert s == [s[0]] + s[1..];
      Insert(s[0], SortDesc(s[1..], key), key)
  }

  lemma {:induction false} InsertDescending<T>(x: T, s: seq<T>, key: T -> int)
    requires Descending(s, key)
    ensures Descending(Insert(x, s, key), key)
  {
    if |s| == 0 || key(x) >= key(s[0]) {
    } else {
      InsertDescending(x, s[1..], key);
      var r := Insert(x, s, key);
      var t := Insert(x, s[1..], key);
      assert r == [s[0]] + t;
      // every element of the inserted tail is x or an element of s[1..]
      forall j | 0 <= j < |t| ensures key(s[0]) >= key(t[j]) {
        assert t[j] in multiset(t);
        assert t[j] == x || t[j] in multiset(s[1..]);
        if t[j] != x {
          var m :| 0 <= m < |s[1..]| && s[1..][m] == t[j];
          assert s[m + 1] == t[j];
        }
      }
    }
  }

  lemma {:induction false} SortDescSorted<T>(s: seq<T>, key: T -> int)
    ensures Descending(SortDesc(s, key), key)
  {
    if |s| > 0 {
      SortDescSorted(s[1..], key);
      InsertDescending(s[0], SortDesc(s[1..], key), key);
    }
  }
  /** Sorting a list already in order leaves it as it is. */
  lemma {:induction false} SortDescKeepsDescending<T>(s: seq<T>, key: T -> int)
    requires Descending(s, key)
    ensures SortDesc(s, key) == s
  {
    if |s| > 0 {
      SortDescKeepsDescending(s[1..], key);
      assert s == [s[0]] + s[1..];
    }
  }
  /** Order between neighbours is order throughout. */
  lemma {:induction false} DescendingFromAdjacent<T>(s: seq<T>, key: T -> int)
    requires forall i :: 0 < i < |s| ==> key(s[i - 1]) >= key(s[i])
    ensures Descending(s, key)
  {
    if |s| > 1 {
      var init := s[..|s| - 1];
      DescendingFromAdjacent(init, key);
      forall i, j | 0 <= i < j < |s|
        ensures key(s[i]) >= key(s[j])
      {
        if j < |s| - 1 {
          assert key(init[i]) >= key(init[j]);
        } else if i < |s| - 2 {
          assert key(init[i]) >= key(init[|s| - 2]);
        }
      }
    }
  }
}
