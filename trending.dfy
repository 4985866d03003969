/** `getTrendingHashtags`: the aggregation `$unwind` tags, `$group` by tag
    with a count, `$sort` by count descending, `$limit`, written as a
    pipeline of functions over the post collection. */
module Trending {
  import opened Wrappers
  import opened Seqs
  import opened Sorting
  import opened Schema

  /** One output row: `{hashtag, count}`. */
  datatype TagCount = TagCount(hashtag: string, count: nat)

  function Hashtag(e: TagCount): string { e.hashtag }

  /** `$unwind: "$tags"`: every tag of every post, in collection order, with
      repeats (a tag listed twice in one post appears twice). */
  function Unwind(posts: seq<Post>): (r: seq<string>)
    ensures forall t :: t in r ==> exists p :: p in posts && t in p.tags
    ensures forall p, t :: p in posts && t in p.tags ==> t in r
    decreases |posts|
  {
    if posts == [] then []
    else
      var init := posts[..|posts| - 1];
      var last := posts[|posts| - 1];
      assert forall p :: p in posts <==> p in init || p == last by {
        assert posts == init + [last];
      }
      Unwind(init) + last.tags
  }

  /** Unwinding a collection with one more post adds that post's tags. */
  lemma UnwindAppend(posts: seq<Post>, p: Post)
    ensures multiset(Unwind(posts + [p])) == multiset(Unwind(posts)) + multiset(p.tags)
  {
    assert (posts + [p])[..|posts|] == posts;
  }

  /** `$group: {_id: "$tags", count: {$sum: 1}}`: one row per distinct tag
      (in order of first occurrence) with its number of occurrences. */
  function Group(tags: seq<string>): (g: seq<TagCount>)
    ensures |g| == |Dedup(tags)|
    ensures forall i :: 0 <= i < |g| ==> g[i] == TagCount(Dedup(tags)[i], multiset(tags)[Dedup(tags)[i]])
    ensures forall e :: e in g <==> e.hashtag in tags && e.count == multiset(tags)[e.hashtag]
    ensures Distinct(g)
  {
    var d := Dedup(tags);
    var g := seq(|d|, i requires 0 <= i < |d| => TagCount(d[i], multiset(tags)[d[i]]));
    forall e: TagCount | e.hashtag in tags && e.count == multiset(tags)[e.hashtag] ensures e in g {
      var i :| 0 <= i < |d| && d[i] == e.hashtag;
      assert g[i] == e;
    }
    assert forall i, j :: 0 <= i < j < |g| ==> g[i].hashtag != g[j].hashtag;
    g
  }

  function NegCount(e: TagCount): int { -(e.count as int) }

  /** `parseInt(req.query.limit) || 10`: a missing, unparsable (`None`) or
      zero limit becomes 10; a negative one makes `$limit` fail, which the
      handler answers with 500. */
  function TrendingLimit(raw: Option<int>): (r: Result<nat>)
    ensures raw.None? || raw.value == 0 ==> r == Success(10)
    ensures raw.Some? && raw.value > 0 ==> r == Success(raw.value)
    ensures raw.Some? && raw.value < 0 ==> r == Failure(InternalError)
  {
    if raw.None? || raw.value == 0 then Success(10)
    else if raw.value < 0 then Failure(InternalError)
    else Success(raw.value)
  }

  /** The groups, most frequent first. */
  function Ranked(posts: seq<Post>): (r: seq<TagCount>)
    ensures multiset(r) == multiset(Group(Unwind(posts)))
    ensures Ascending(r, NegCount)
  {
    SortBy(Group(Unwind(posts)), NegCount)
  }

  /** The ranked rows are the groups: one row per distinct tag, each with
      its number of occurrences, counts non-increasing. */
  lemma RankedRows(posts: seq<Post>)
    ensures var r := Ranked(posts);
      && |r| == |Dedup(Unwind(posts))|
      && (forall e :: e in r <==> e.hashtag in Unwind(posts) && e.count == multiset(Unwind(posts))[e.hashtag])
      && (forall i, j :: 0 <= i < j < |r| ==> r[i].hashtag != r[j].hashtag)
      && (forall i, j :: 0 <= i < j < |r| ==> r[i].count >= r[j].count)
  {
    var tags := Unwind(posts);
    var g := Group(tags);
    var r := Ranked(posts);
    assert |r| == |g| && forall e :: e in r <==> e in g by {
      PermutationMembers(g, r);
    }
    assert Distinct(r) by {
      DistinctPermutation(g, r);
    }
    forall i, j | 0 <= i < j < |r| ensures r[i].hashtag != r[j].hashtag && r[i].count >= r[j].count {
      assert r[i] in g && r[j] in g;
      assert NegCount(r[i]) <= NegCount(r[j]);
    }
  }

  /** `getTrendingHashtags`. */
  function TrendingHashtags(posts: seq<Post>, rawLimit: Option<int>): (r: Result<seq<TagCount>>)
    ensures r.Failure? <==> rawLimit.Some? && rawLimit.value < 0
    ensures r.Failure? ==> r.status == InternalError
    ensures r.Success? ==> r.value <= Ranked(posts) && |r.value| <= TrendingLimit(rawLimit).value
    ensures r.Success? ==>
      |r.value| == if |Ranked(posts)| < TrendingLimit(rawLimit).value then |Ranked(posts)| else TrendingLimit(rawLimit).value
    ensures r.Success? ==> forall i, j :: 0 <= i < j < |r.value| ==> r.value[i].hashtag != r.value[j].hashtag
    ensures r.Success? ==> forall i, j :: 0 <= i < j < |r.value| ==> r.value[i].count >= r.value[j].count
    ensures r.Success? ==> forall e :: e in r.value ==>
      e.count >= 1 && e.count == multiset(Unwind(posts))[e.hashtag]
  {
    match TrendingLimit(rawLimit)
    case Failure(s) => Failure(s)
    case Success(limit) =>
      var ranked := Ranked(posts);
      var top := Take(ranked, limit);
      RankedRows(posts);
      PrefixRows(ranked, top, multiset(Unwind(posts)));
      Success(top)
  }

  /** A prefix of a ranking keeps its properties: tags once each, counts
      non-increasing, and every row a tag with its number of occurrences. */
  lemma PrefixRows(ranked: seq<TagCount>, top: seq<TagCount>, occurrences: multiset<string>)
    requires top <= ranked
    requires forall i, j :: 0 <= i < j < |ranked| ==> ranked[i].hashtag != ranked[j].hashtag
    requires forall i, j :: 0 <= i < j < |ranked| ==> ranked[i].count >= ranked[j].count
    requires forall e :: e in ranked ==> e.hashtag in occurrences && e.count == occurrences[e.hashtag]
    ensures forall i, j :: 0 <= i < j < |top| ==> top[i].hashtag != top[j].hashtag
    ensures forall i, j :: 0 <= i < j < |top| ==> top[i].count >= top[j].count
    ensures forall e :: e in top ==> e.count >= 1 && e.count == occurrences[e.hashtag]
  {
    assert forall i :: 0 <= i < |top| ==> top[i] == ranked[i];
    forall e | e in top ensures e.count >= 1 && e.count == occurrences[e.hashtag] {
      var i :| 0 <= i < |top| && top[i] == e;
      assert ranked[i] == e;
    }
  }

  /** The cut keeps the most frequent tags: a tag that occurs but is not
      listed occurs no more often than any listed one. */
  lemma OmittedNotMoreFrequent(posts: seq<Post>, rawLimit: Option<int>, t: string)
    requires TrendingHashtags(posts, rawLimit).Success?
    requires t in Unwind(posts)
    requires forall e :: e in TrendingHashtags(posts, rawLimit).value ==> e.hashtag != t
    ensures forall e :: e in TrendingHashtags(posts, rawLimit).value ==> multiset(Unwind(posts))[t] <= e.count
  {
    RankedRows(posts);
    CutKeepsMostFrequent(Ranked(posts), TrendingHashtags(posts, rawLimit).value,
                         TagCount(t, multiset(Unwind(posts))[t]));
  }

  /** A prefix of a ranking by count holds rows at least as frequent as any
      row of the ranking it does not hold. */
  lemma CutKeepsMostFrequent(ranked: seq<TagCount>, top: seq<TagCount>, row: TagCount)
    requires top <= ranked && row in ranked
    requires forall i, j :: 0 <= i < j < |ranked| ==> ranked[i].count >= ranked[j].count
    requires forall e :: e in top ==> e.hashtag != row.hashtag
    ensures forall e :: e in top ==> row.count <= e.count
  {
    var k := FirstIndexOf(ranked, row);
    assert forall i :: 0 <= i < |top| ==> top[i] == ranked[i];
    assert forall i :: 0 <= i < |top| ==> top[i].hashtag != row.hashtag;
    assert k >= |top|;
  }

  /** With fewer distinct tags than the limit, every tag is listed. */
  lemma AllTagsWhenFew(posts: seq<Post>, rawLimit: Option<int>, t: string)
    requires TrendingHashtags(posts, rawLimit).Success?
    requires |Dedup(Unwind(posts))| <= TrendingLimit(rawLimit).value
    requires t in Unwind(posts)
    ensures exists e :: e in TrendingHashtags(posts, rawLimit).value && e.hashtag == t
  {
    var row := TagCount(t, multiset(Unwind(posts))[t]);
    RankedRows(posts);
    assert TrendingHashtags(posts, rawLimit).value == Ranked(posts);
    assert row in Ranked(posts);
  }
}
