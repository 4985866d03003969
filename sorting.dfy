/** The ordering step of a query (`.sort({field: 1 | -1})`, `$sort`), as an
    insertion sort on an integer key. A descending sort is an ascending sort
    on the negated key. */
module Sorting {

  ghost predicate Ascending<T>(s: seq<T>, key: T -> int) {
    forall i, j :: 0 <= i < j < |s| ==> key(s[i]) <= key(s[j])
  }

  /** `x` inserted before the first element of `s` with a larger key. */
  function Insert<T>(x: T, s: seq<T>, key: T -> int): (r: seq<T>)
    requires Ascending(s, key)
    ensures Ascending(r, key)
    ensures multiset(r) == multiset(s) + multiset{x}
    ensures |r| == |s| + 1
    ensures r[0] == x || (s != [] && r[0] == s[0])
  {
    if s == [] then
      [x]
    else if key(x) <= key(s[0]) then
      PrependAscending(x, s, key);
      [x] + s
    else
      AscendingTail(s, key);
      var rest := Insert(x, s[1..], key);
      InsertStep(x, s, rest, key);
      [s[0]] + rest
  }

  lemma AscendingTail<T>(s: seq<T>, key: T -> int)
    requires Ascending(s, key) && s != []
    ensures Ascending(s[1..], key)
  {
  }

  /** The head of `s` in front of `x` inserted into the rest of `s`. */
  lemma InsertStep<T>(x: T, s: seq<T>, rest: seq<T>, key: T -> int)
    requires s != [] && key(s[0]) < key(x)
    requires Ascending(s, key) && Ascending(rest, key)
    requires multiset(rest) == multiset(s[1..]) + multiset{x}
    requires |rest| == |s|
    requires rest[0] == x || (|s| > 1 && rest[0] == s[1])
    ensures Ascending([s[0]] + rest, key)
    ensures multiset([s[0]] + rest) == multiset(s) + multiset{x}
  {
    assert s == [s[0]] + s[1..];
    assert multiset(s) == multiset{s[0]} + multiset(s[1..]);
    PrependAscending(s[0], rest, key);
  }

  /** Putting an element no larger than the head in front keeps a sequence
      ascending. */
  lemma PrependAscending<T>(h: T, s: seq<T>, key: T -> int)
    requires Ascending(s, key)
    requires s != [] && key(h) <= key(s[0])
    ensures Ascending([h] + s, key)
  {
    var r := [h] + s;
    forall i, j | 0 <= i < j < |r| ensures key(r[i]) <= key(r[j]) {
      if i == 0 {
        assert key(s[0]) <= key(s[j - 1]);
      } else {
        assert r[i] == s[i - 1] && r[j] == s[j - 1];
      }
    }
  }

  /** `s` ordered by `key`, ascending; a permutation of `s`. */
  function SortBy<T>(s: seq<T>, key: T -> int): (r: seq<T>)
    ensures Ascending(r, key)
    ensures multiset(r) == multiset(s)
    ensures |r| == |s|
  {
    if s == [] then []
    else
      assert s == [s[0]] + s[1..];
      Insert(s[0], SortBy(s[1..], key), key)
  }
}
