/** Ordering table rows by a numeric column, largest first, as the tables'
    `sort_values(..., ascending=False)` does. */
module Ranking {

  /** Every row's key is at least the key of every row after it. */
  ghost predicate Descending<T>(s: seq<T>, key: T -> int)
  {
    forall i, j :: 0 <= i < j < |s| ==> key(s[i]) >= key(s[j])
  }

  /** `x` placed before the first row whose key does not exceed its own. */
  function Insert<T>(x: T, s: seq<T>, key: T -> int): (r: seq<T>)
    ensures |r| == |s| + 1
  {
    if s == [] || key(s[0]) <= key(x) then [x] + s
    else [s[0]] + Insert(x, s[1..], key)
  }

  /** Insertion sort, largest key first; rows with equal keys keep their
      order. */
  function SortDesc<T>(s: seq<T>, key: T -> int): (r: seq<T>)
    ensures |r| == |s|
  {
    if s == [] then [] else Insert(s[0], SortDesc(s[1..], key), key)
  }

  /** Inserting keeps every row and adds `x`. */
  lemma {:induction false} InsertPermutes<T>(x: T, s: seq<T>, key: T -> int)
    ensures multiset(Insert(x, s, key)) == multiset(s) + multiset{x}
    decreases |s|
  {
    if s != [] && key(s[0]) > key(x) {
      InsertPermutes(x, s[1..], key);
      assert s == [s[0]] + s[1..];
    }
  }

  /** The first row after an insertion is `x` or the old first row. */
  lemma InsertHead<T>(x: T, s: seq<T>, key: T -> int)
    ensures Insert(x, s, key)[0] == x || (s != [] && Insert(x, s, key)[0] == s[0])
  {
  }

  /** Inserting into a descending sequence keeps it descending. */
  lemma {:induction false} InsertSorted<T>(x: T, s: seq<T>, key: T -> int)
    requires Descending(s, key)
    ensures Descending(Insert(x, s, key), key)
    decreases |s|
  {
    if s != [] && key(s[0]) > key(x) {
      var rest := Insert(x, s[1..], key);
      InsertSorted(x, s[1..], key);
      InsertHead(x, s[1..], key);
      var r := [s[0]] + rest;
      forall i, j | 0 <= i < j < |r|
        ensures key(r[i]) >= key(r[j])
      {
        if i == 0 {
          InsertMember(x, s[1..], key, j - 1);
        }
      }
    }
  }

  /** Each row of an insertion is `x` or a row of `s`. */
  lemma {:induction false} InsertMember<T>(x: T, s: seq<T>, key: T -> int, k: int)
    requires 0 <= k < |s| + 1
    ensures Insert(x, s, key)[k] == x || exists m :: 0 <= m < |s| && Insert(x, s, key)[k] == s[m]
    decreases |s|
  {
    if s != [] && key(s[0]) > key(x) && k > 0 {
      InsertMember(x, s[1..], key, k - 1);
      if Insert(x, s, key)[k] != x {
        var m :| 0 <= m < |s[1..]| && Insert(x, s[1..], key)[k - 1] == s[1..][m];
        assert Insert(x, s, key)[k] == s[m + 1];
      }
    }
  }

  /** The sort orders the rows, largest key first, and keeps them all. */
  lemma {:induction false} SortDescSpec<T>(s: seq<T>, key: T -> int)
    ensures Descending(SortDesc(s, key), key)
    ensures multiset(SortDesc(s, key)) == multiset(s)
    decreases |s|
  {
    if s != [] {
      SortDescSpec(s[1..], key);
      InsertSorted(s[0], SortDesc(s[1..], key), key);
      InsertPermutes(s[0], SortDesc(s[1..], key), key);
      assert s == [s[0]] + s[1..];
    }
  }

  /** A row whose key is larger than every other row's comes first. */
  lemma TopComesFirst<T>(s: seq<T>, key: T -> int, top: T)
    requires top in multiset(s)
    requires forall k :: 0 <= k < |s| && s[k] != top ==> key(s[k]) < key(top)
    ensures SortDesc(s, key) != [] && SortDesc(s, key)[0] == top
  {
    var r := SortDesc(s, key);
    SortDescSpec(s, key);
    assert top in multiset(r);
    var t :| 0 <= t < |r| && r[t] == top;
    assert r[0] in multiset(s);
    var k0 :| 0 <= k0 < |s| && s[k0] == r[0];
    assert t == 0 || key(r[0]) >= key(r[t]);
  }
}
