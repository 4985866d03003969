/** Sequence operations that stand for the collection and array idioms of the
    source: `filter`, `find`/`findOne` (first match), `limit`, `skip`,
    and de-duplication through a `Set`. */
module Seqs {
  import opened Wrappers

  ghost predicate Distinct<T>(s: seq<T>) {
    forall i, j :: 0 <= i < j < |s| ==> s[i] != s[j]
  }

  /** No two elements of `s` share a key (a collection's `_id` index). */
  ghost predicate KeysDistinct<T, K>(s: seq<T>, key: T -> K) {
    forall i, j :: 0 <= i < j < |s| ==> key(s[i]) != key(s[j])
  }

  /** The keys present in `s`. */
  function Keys<T, K>(s: seq<T>, key: T -> K): (ks: set<K>)
    ensures forall i :: 0 <= i < |s| ==> key(s[i]) in ks
    ensures forall k :: k in ks ==> exists i :: 0 <= i < |s| && key(s[i]) == k
  {
    set i | 0 <= i < |s| :: key(s[i])
  }

  /** Appending an element adds its key. */
  lemma KeysAppend<T, K>(s: seq<T>, x: T, key: T -> K)
    ensures Keys(s + [x], key) == Keys(s, key) + {key(x)}
  {
    var r := s + [x];
    forall k | k in Keys(r, key) ensures k in Keys(s, key) + {key(x)} {
      var i :| 0 <= i < |r| && key(r[i]) == k;
      if i < |s| { assert key(s[i]) == k; }
    }
    forall k | k in Keys(s, key) ensures k in Keys(r, key) {
      var i :| 0 <= i < |s| && key(s[i]) == k;
      assert key(r[i]) == k;
    }
    assert key(r[|s|]) == key(x);
  }

  /** The elements of `s` that satisfy `keep`, in their order. */
  function Filter<T(!new)>(s: seq<T>, keep: T -> bool): (r: seq<T>)
    ensures |r| <= |s|
    ensures forall x :: x in r <==> x in s && keep(x)
  {
    if s == [] then []
    else if keep(s[0]) then [s[0]] + Filter(s[1..], keep)
    else Filter(s[1..], keep)
  }

  lemma {:induction false} FilterAppend<T(!new)>(a: seq<T>, b: seq<T>, keep: T -> bool)
    ensures Filter(a + b, keep) == Filter(a, keep) + Filter(b, keep)
  {
    if a != [] {
      assert (a + b)[1..] == a[1..] + b;
      FilterAppend(a[1..], b, keep);
    } else {
      assert a + b == b;
    }
  }

  /** Filtering keeps everything when every element passes. */
  lemma {:induction false} FilterAll<T(!new)>(s: seq<T>, keep: T -> bool)
    requires forall x :: x in s ==> keep(x)
    ensures Filter(s, keep) == s
  {
    if s != [] {
      FilterAll(s[1..], keep);
    }
  }

  lemma {:induction false} FilterDistinct<T(!new)>(s: seq<T>, keep: T -> bool)
    requires Distinct(s)
    ensures Distinct(Filter(s, keep))
  {
    if s != [] {
      FilterDistinct(s[1..], keep);
      var rest := Filter(s[1..], keep);
      assert s[0] !in s[1..] by {
        forall k | 0 <= k < |s[1..]| ensures s[1..][k] != s[0] {
          assert s[1..][k] == s[k + 1];
        }
      }
      if keep(s[0]) {
        var r := [s[0]] + rest;
        forall i, j | 0 <= i < j < |r| ensures r[i] != r[j] {
          if i == 0 {
            assert r[j] == rest[j - 1];
            assert r[j] in rest;
          } else {
            assert r[i] == rest[i - 1] && r[j] == rest[j - 1];
          }
        }
      }
    }
  }

  lemma {:induction false} FilterKeysDistinct<T(!new), K>(s: seq<T>, keep: T -> bool, key: T -> K)
    requires KeysDistinct(s, key)
    ensures KeysDistinct(Filter(s, keep), key)
  {
    if s != [] {
      FilterKeysDistinct(s[1..], keep, key);
      var rest := Filter(s[1..], keep);
      if keep(s[0]) {
        var r := [s[0]] + rest;
        forall i, j | 0 <= i < j < |r| ensures key(r[i]) != key(r[j]) {
          if i == 0 {
            assert r[j] == rest[j - 1];
            assert r[j] in s[1..];
            var k :| 0 <= k < |s[1..]| && s[1..][k] == r[j];
            assert s[k + 1] == r[j];
          } else {
            assert r[i] == rest[i - 1] && r[j] == rest[j - 1];
          }
        }
      }
    }
  }

  /** Every occurrence of `x` removed (`arr.filter(y => y !== x)`). */
  function Without<T(==,!new)>(s: seq<T>, x: T): (r: seq<T>)
    ensures x !in r
    ensures forall y :: y != x ==> (y in r <==> y in s)
    ensures |r| <= |s|
  {
    Filter(s, y => y != x)
  }

  /** Removing an element that was just appended, and was absent before,
      gives back the original sequence. */
  lemma WithoutAppended<T(!new)>(s: seq<T>, x: T)
    requires x !in s
    ensures Without(s + [x], x) == s
  {
    var keep := y => y != x;
    FilterAppend(s, [x], keep);
    FilterAll(s, keep);
    assert Filter([x], keep) == [];
  }

  lemma WithoutDistinct<T(!new)>(s: seq<T>, x: T)
    requires Distinct(s)
    ensures Distinct(Without(s, x))
  {
    FilterDistinct(s, y => y != x);
  }

  /** Removing an element that occurs exactly once shortens the sequence by
      one. */
  lemma {:induction false} WithoutOne<T(!new)>(s: seq<T>, x: T)
    requires Distinct(s) && x in s
    ensures |Without(s, x)| == |s| - 1
  {
    var i :| 0 <= i < |s| && s[i] == x;
    var keep := (y: T) => y != x;
    var a, b := s[..i], s[i + 1..];
    assert s == a + [x] + b;
    assert x !in a by {
      forall k | 0 <= k < |a| ensures a[k] != x { assert a[k] == s[k]; }
    }
    assert x !in b by {
      forall k | 0 <= k < |b| ensures b[k] != x { assert b[k] == s[i + 1 + k]; }
    }
    FilterAppend(a + [x], b, keep);
    FilterAppend(a, [x], keep);
    FilterAll(a, keep);
    FilterAll(b, keep);
    assert Filter([x], keep) == [];
  }

  /** The first `n` elements (a query's `limit(n)`). */
  function Take<T>(s: seq<T>, n: nat): (r: seq<T>)
    ensures |r| <= n && |r| <= |s|
    ensures r <= s
    ensures |s| >= n ==> |r| == n
  {
    if |s| <= n then s else s[..n]
  }

  /** `skip(skip).limit(limit)` as MongoDB applies it: skip first, then
      limit, where a limit of 0 means "no limit". */
  function Slice<T>(s: seq<T>, skip: nat, limit: nat): (r: seq<T>)
    ensures limit > 0 ==> |r| <= limit
    ensures skip >= |s| ==> r == []
    ensures skip < |s| ==> r <= s[skip..]
    ensures limit == 0 && skip < |s| ==> r == s[skip..]
    ensures limit > 0 && skip + limit <= |s| ==> |r| == limit
  {
    if skip >= |s| then [] else if limit == 0 then s[skip..] else Take(s[skip..], limit)
  }

  /** Index of the first element whose key is `k` (a `findById`/`findOne`). */
  function FindIndex<T, K(==)>(s: seq<T>, key: T -> K, k: K): (r: Option<nat>)
    ensures r.Some? ==> r.value < |s| && key(s[r.value]) == k
    ensures r.Some? ==> forall i :: 0 <= i < r.value ==> key(s[i]) != k
    ensures r.None? <==> k !in Keys(s, key)
  {
    if s == [] then None
    else if key(s[0]) == k then Some(0)
    else match FindIndex(s[1..], key, k)
      case None => None
      case Some(i) => Some(i + 1)
  }

  /** The elements of `s` in order of first occurrence, each once (what
      `[...new Set(s)]` gives). */
  function Dedup<T(==,!new)>(s: seq<T>): (r: seq<T>)
    ensures Distinct(r)
    ensures forall x :: x in r <==> x in s
    ensures |r| <= |s|
    decreases |s|
  {
    if s == [] then []
    else
      var init := Dedup(s[..|s| - 1]);
      var last := s[|s| - 1];
      assert forall x :: x in s <==> x in s[..|s| - 1] || x == last by {
        assert s == s[..|s| - 1] + [last];
      }
      if last in init then init else init + [last]
  }

  /** De-duplicating a concatenation lists the first part's distinct
      elements first, in their own order. */
  lemma {:induction false} DedupPrefix<T(!new)>(a: seq<T>, b: seq<T>)
    ensures Dedup(a) <= Dedup(a + b)
    decreases |b|
  {
    if b == [] {
      assert a + b == a;
    } else {
      var b' := b[..|b| - 1];
      assert (a + b)[..|a + b| - 1] == a + b';
      DedupPrefix(a, b');
    }
  }

  /** Index of the first occurrence of `x` (`indexOf`). */
  function FirstIndexOf<T(==)>(s: seq<T>, x: T): (i: nat)
    requires x in s
    ensures i < |s| && s[i] == x && x !in s[..i]
  {
    if s[0] == x then 0
    else
      assert x in s[1..] by {
        var k :| 0 <= k < |s| && s[k] == x;
        assert s[1..][k - 1] == x;
      }
      var i := FirstIndexOf(s[1..], x);
      assert s[..i + 1] == [s[0]] + s[1..][..i];
      i + 1
  }

  /** `s` without its first occurrence of `x` (a `deleteOne`, or a string
      `replace` whose pattern is one character and whose replacement is
      empty). */
  function DeleteFirst<T(==)>(s: seq<T>, x: T): (r: seq<T>)
    ensures x !in s ==> r == s
    ensures x in s ==> exists i :: 0 <= i < |s| && s[i] == x && x !in s[..i] && r == s[..i] + s[i + 1..]
    ensures x in s ==> |r| == |s| - 1
  {
    if x in s then
      var i := FirstIndexOf(s, x);
      s[..i] + s[i + 1..]
    else
      s
  }

  /** Deleting an element that was just appended, and was absent before,
      gives back the original sequence. */
  lemma DeleteFirstAppended<T>(s: seq<T>, x: T)
    requires x !in s
    ensures DeleteFirst(s + [x], x) == s
  {
    var i := FirstIndexOf(s + [x], x);
    assert (s + [x])[..i] == s;
  }

  /** Appending an absent element keeps a sequence free of repeats. */
  lemma AppendDistinct<T>(s: seq<T>, x: T)
    requires Distinct(s) && x !in s
    ensures Distinct(s + [x])
  {
    var r := s + [x];
    forall i, j | 0 <= i < j < |r| ensures r[i] != r[j] {
      if j == |s| {
        assert r[i] in s;
      }
    }
  }

  /** Deleting an element only removes: what is left was there before, and
      a sequence free of repeats stays so. */
  lemma DeleteFirstSubset<T>(s: seq<T>, x: T)
    ensures forall y :: y in DeleteFirst(s, x) ==> y in s
    ensures Distinct(s) ==> Distinct(DeleteFirst(s, x))
  {
    if x in s {
      var i := FirstIndexOf(s, x);
      var r := s[..i] + s[i + 1..];
      assert DeleteFirst(s, x) == r;
      forall k | 0 <= k < |r| ensures r[k] == s[if k < i then k else k + 1] {
      }
      forall y | y in r ensures y in s {
        var k :| 0 <= k < |r| && r[k] == y;
      }
      if Distinct(s) {
        forall a, b | 0 <= a < b < |r| ensures r[a] != r[b] {
          assert r[a] == s[if a < i then a else a + 1];
        }
      }
    }
  }

  /** Deleting the first copy of `x` removes one kept element when `x` is
      kept, and none otherwise. */
  lemma FilterDeleteFirst<T(!new)>(s: seq<T>, x: T, keep: T -> bool)
    requires x in s
    ensures |Filter(DeleteFirst(s, x), keep)| == |Filter(s, keep)| - (if keep(x) then 1 else 0)
  {
    var i := FirstIndexOf(s, x);
    var a, b := s[..i], s[i + 1..];
    assert s == (a + [x]) + b;
    assert DeleteFirst(s, x) == a + b;
    var one := if keep(x) then 1 else 0;
    assert |Filter([x], keep)| == one by {
      assert [x][1..] == [];
    }
    FilterAppend(a, [x], keep);
    FilterAppend(a + [x], b, keep);
    FilterAppend(a, b, keep);
  }

  /** Filtering twice by a weaker and then a stronger test is filtering by
      the stronger one. */
  lemma {:induction false} FilterFilter<T(!new)>(s: seq<T>, weak: T -> bool, strong: T -> bool)
    requires forall x :: strong(x) ==> weak(x)
    ensures Filter(Filter(s, weak), strong) == Filter(s, strong)
  {
    if s != [] {
      FilterFilter(s[1..], weak, strong);
    }
  }

  /** In a sequence free of repeats every element occurs at most once. */
  lemma {:induction false} DistinctOnce<T>(s: seq<T>, x: T)
    requires Distinct(s)
    ensures multiset(s)[x] <= 1
  {
    if s != [] {
      assert s == [s[0]] + s[1..];
      DistinctOnce(s[1..], x);
      if s[0] == x {
        assert x !in s[1..] by {
          forall k | 0 <= k < |s[1..]| ensures s[1..][k] != x {
            assert s[1..][k] == s[k + 1];
          }
        }
      }
    }
  }

  /** A rearrangement of a sequence free of repeats is free of repeats. */
  lemma DistinctPermutation<T>(a: seq<T>, b: seq<T>)
    requires Distinct(a) && multiset(a) == multiset(b)
    ensures Distinct(b)
  {
    forall i, j | 0 <= i < j < |b| ensures b[i] != b[j] {
      if b[i] == b[j] {
        var x := b[i];
        assert b == b[..j] + [x] + b[j + 1..];
        assert x in b[..j];
        assert multiset(b)[x] >= 2;
        DistinctOnce(a, x);
        assert false;
      }
    }
  }

  /** A rearrangement has the same length and the same members. */
  lemma PermutationMembers<T>(a: seq<T>, b: seq<T>)
    requires multiset(a) == multiset(b)
    ensures |a| == |b|
    ensures forall x :: x in a <==> x in b
  {
    assert |multiset(a)| == |multiset(b)|;
    forall x ensures x in a <==> x in b {
      assert x in a <==> x in multiset(a);
      assert x in b <==> x in multiset(b);
    }
  }
}
