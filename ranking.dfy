/** The pipeline of `get_recommendations` as a specification: the category filter,
    scoring of every candidate, a stable sort by descending score and truncation. The
    method that runs it over the engine's snapshot is
    `Engine.RecommendationEngine.GetRecommendations`. */
module Ranking {
  import opened Wrappers
  import opened Records
  import opened Scoring

  /** A post paired with its score, as in the list `post_scores`. */
  datatype Scored = Scored(post: Post, score: real)

  // ---------------------------------------------------------------------------
  // Category filter

  /** True when some post's `category` is not an object, so that `.get` raises. */
  predicate FilterRaises(posts: seq<Post>) {
    exists i :: 0 <= i < |posts| && posts[i].category.NotAnObject?
  }

  /** The posts of category `c`, in order. */
  function KeepCategory(posts: seq<Post>, c: int): (r: seq<Post>)
    ensures |r| <= |posts|
  {
    if posts == [] then []
    else (if posts[0].category == Category(Some(c)) then [posts[0]] else []) + KeepCategory(posts[1..], c)
  }

  /** `[post for post in posts if post.get('category', {}).get('id') == c]`, or None
      when a post's `category` is not an object (the filter raises). */
  function InCategory(posts: seq<Post>, c: int): (r: Option<seq<Post>>)
    ensures r.None? <==> exists i :: 0 <= i < |posts| && posts[i].category.NotAnObject?
    ensures r.Some? ==> forall p :: p in r.value <==> p in posts && p.category == Category(Some(c))
    ensures r.Some? ==> |r.value| <= |posts|
  {
    if FilterRaises(posts) then None
    else
      KeepCategoryMembers(posts, c);
      Some(KeepCategory(posts, c))
  }

  lemma {:induction false} KeepCategoryMembers(posts: seq<Post>, c: int)
    ensures forall p :: p in KeepCategory(posts, c) <==> p in posts && p.category == Category(Some(c))
  {
    if posts != [] {
      KeepCategoryMembers(posts[1..], c);
      assert posts == [posts[0]] + posts[1..];
    }
  }

  lemma {:induction false} KeepCategoryAppend(a: seq<Post>, b: seq<Post>, c: int)
    ensures KeepCategory(a + b, c) == KeepCategory(a, c) + KeepCategory(b, c)
  {
    if a == [] {
      assert a + b == b;
    } else {
      var ab := a + b;
      assert ab[0] == a[0];
      assert ab[1..] == a[1..] + b;
      KeepCategoryAppend(a[1..], b, c);
      var head := if a[0].category == Category(Some(c)) then [a[0]] else [];
      assert KeepCategory(ab, c) == head + KeepCategory(ab[1..], c);
      assert KeepCategory(a, c) == head + KeepCategory(a[1..], c);
    }
  }

  lemma FilterRaisesAppend(a: seq<Post>, b: seq<Post>)
    ensures FilterRaises(a + b) <==> FilterRaises(a) || FilterRaises(b)
  {
    var ab := a + b;
    if FilterRaises(ab) {
      var i :| 0 <= i < |ab| && ab[i].category.NotAnObject?;
      if i < |a| {
        assert a[i] == ab[i];
      } else {
        assert b[i - |a|] == ab[i];
      }
    }
    if FilterRaises(a) {
      var i :| 0 <= i < |a| && a[i].category.NotAnObject?;
      assert ab[i] == a[i];
    }
    if FilterRaises(b) {
      var i :| 0 <= i < |b| && b[i].category.NotAnObject?;
      assert ab[|a| + i] == b[i];
    }
  }

  /** The filter distributes over concatenation: it keeps the snapshot order, and it
      raises on a list exactly when it raises on one of the parts. */
  lemma InCategoryAppend(a: seq<Post>, b: seq<Post>, c: int)
    ensures InCategory(a + b, c)
         == if InCategory(a, c).Some? && InCategory(b, c).Some?
            then Some(InCategory(a, c).value + InCategory(b, c).value) else None
  {
    FilterRaisesAppend(a, b);
    KeepCategoryAppend(a, b, c);
  }

  /** The filter keeps each post of the category exactly as often as it occurs, and no
      other post. */
  lemma InCategoryCounts(posts: seq<Post>, c: int, p: Post)
    requires InCategory(posts, c).Some?
    ensures multiset(InCategory(posts, c).value)[p]
         == if p.category == Category(Some(c)) then multiset(posts)[p] else 0
  {
    KeepCategoryCounts(posts, c, p);
  }

  lemma {:induction false} KeepCategoryCounts(posts: seq<Post>, c: int, p: Post)
    ensures multiset(KeepCategory(posts, c))[p]
         == if p.category == Category(Some(c)) then multiset(posts)[p] else 0
  {
    if posts != [] {
      KeepCategoryCounts(posts[1..], c, p);
      var head := if posts[0].category == Category(Some(c)) then [posts[0]] else [];
      assert KeepCategory(posts, c) == head + KeepCategory(posts[1..], c);
      assert multiset(KeepCategory(posts, c)) == multiset(head) + multiset(KeepCategory(posts[1..], c));
      assert posts == [posts[0]] + posts[1..];
      assert multiset(posts) == multiset{posts[0]} + multiset(posts[1..]);
    }
  }

  /** The candidate posts: all of them, or those of the requested category. */
  function Candidates(posts: seq<Post>, categoryId: Option<int>): Option<seq<Post>> {
    match categoryId
    case None => Some(posts)
    case Some(c) => InCategory(posts, c)
  }

  // ---------------------------------------------------------------------------
  // Scoring every candidate

  function ScoreAll(posts: seq<Post>, mood: Option<string>, nowMs: real): (r: seq<Scored>)
    ensures |r| == |posts|
    ensures forall i :: 0 <= i < |r| ==> r[i] == Scored(posts[i], PostScore(posts[i], mood, nowMs))
  {
    seq(|posts|, i requires 0 <= i < |posts| => Scored(posts[i], PostScore(posts[i], mood, nowMs)))
  }

  function PostsOf(s: seq<Scored>): (r: seq<Post>)
    ensures |r| == |s|
    ensures forall i :: 0 <= i < |s| ==> r[i] == s[i].post
  {
    seq(|s|, i requires 0 <= i < |s| => s[i].post)
  }

  // ---------------------------------------------------------------------------
  // Stable sort by descending score

  predicate SortedDesc(s: seq<Scored>) {
    forall i, j :: 0 <= i < j < |s| ==> s[i].score >= s[j].score
  }

  /** Places `x` after every element with a higher score and before the others, so
      that it precedes the elements with its own score. */
  function Insert(x: Scored, s: seq<Scored>): (r: seq<Scored>)
    ensures multiset(r) == multiset(s) + multiset{x}
  {
    if s == [] then [x]
    else if s[0].score <= x.score then [x] + s
    else
      assert s == [s[0]] + s[1..];
      [s[0]] + Insert(x, s[1..])
  }

  /** A bound on every score survives the insertion of an element within it. */
  lemma {:induction false} InsertBounded(x: Scored, s: seq<Scored>, b: real)
    requires x.score <= b && forall i :: 0 <= i < |s| ==> s[i].score <= b
    ensures forall i :: 0 <= i < |Insert(x, s)| ==> Insert(x, s)[i].score <= b
  {
    if s != [] && s[0].score > x.score {
      InsertBounded(x, s[1..], b);
    }
  }

  /** Inserting into a descending list keeps it descending. */
  lemma {:induction false} InsertSorted(x: Scored, s: seq<Scored>)
    requires SortedDesc(s)
    ensures SortedDesc(Insert(x, s))
  {
    if s != [] && s[0].score > x.score {
      var rest := Insert(x, s[1..]);
      InsertSorted(x, s[1..]);
      assert forall i :: 0 <= i < |s[1..]| ==> s[1..][i].score <= s[0].score;
      InsertBounded(x, s[1..], s[0].score);
      SortedCons(s[0], rest);
    }
  }

  /** A head no lower than every element of a descending list extends it. */
  lemma SortedCons(h: Scored, rest: seq<Scored>)
    requires SortedDesc(rest) && forall i :: 0 <= i < |rest| ==> rest[i].score <= h.score
    ensures SortedDesc([h] + rest)
  {
    var r := [h] + rest;
    forall i, j | 0 <= i < j < |r| ensures r[i].score >= r[j].score {
      assert r[j] == rest[j - 1];
      if i > 0 {
        assert r[i] == rest[i - 1];
      }
    }
  }

  /** `sorted(post_scores, key=lambda x: x[1], reverse=True)`. */
  function SortByScore(s: seq<Scored>): (r: seq<Scored>)
    ensures multiset(r) == multiset(s)
    ensures |r| == |s|
    ensures SortedDesc(r)
  {
    if s == [] then []
    else
      assert s == [s[0]] + s[1..];
      var rest := SortByScore(s[1..]);
      InsertSorted(s[0], rest);
      Insert(s[0], rest)
  }

  /** The elements of `s` with score `v`, in order. */
  function WithScore(s: seq<Scored>, v: real): seq<Scored> {
    if s == [] then []
    else (if s[0].score == v then [s[0]] else []) + WithScore(s[1..], v)
  }

  lemma {:induction false} WithScoreAppend(a: seq<Scored>, b: seq<Scored>, v: real)
    ensures WithScore(a + b, v) == WithScore(a, v) + WithScore(b, v)
  {
    if a == [] {
      assert a + b == b;
    } else {
      var ab := a + b;
      assert ab[0] == a[0];
      assert ab[1..] == a[1..] + b;
      WithScoreAppend(a[1..], b, v);
      var head := if a[0].score == v then [a[0]] else [];
      assert WithScore(ab, v) == head + WithScore(ab[1..], v);
      assert WithScore(a, v) == head + WithScore(a[1..], v);
    }
  }

  lemma {:induction false} InsertStable(x: Scored, s: seq<Scored>, v: real)
    ensures WithScore(Insert(x, s), v) == (if x.score == v then [x] else []) + WithScore(s, v)
  {
    assert WithScore([x], v) == (if x.score == v then [x] else []) by {
      assert [x][1..] == [];
    }
    if s == [] {
    } else if s[0].score <= x.score {
      WithScoreAppend([x], s, v);
    } else {
      assert s == [s[0]] + s[1..];
      assert WithScore([s[0]], v) == (if s[0].score == v then [s[0]] else []) by {
        assert [s[0]][1..] == [];
      }
      InsertStable(x, s[1..], v);
      WithScoreAppend([s[0]], Insert(x, s[1..]), v);
      WithScoreAppend([s[0]], s[1..], v);
    }
  }

  /** The sort is stable: for every score, the elements with that score keep their
      relative order. */
  lemma {:induction false} SortStable(s: seq<Scored>, v: real)
    ensures WithScore(SortByScore(s), v) == WithScore(s, v)
  {
    if s != [] {
      SortStable(s[1..], v);
      InsertStable(s[0], SortByScore(s[1..]), v);
    }
  }

  // ---------------------------------------------------------------------------
  // Truncation

  /** Python's `s[:limit]`; a negative limit drops that many elements from the end. */
  function Take<T>(s: seq<T>, limit: int): (r: seq<T>)
    ensures 0 <= limit ==> |r| == if limit < |s| then limit else |s|
    ensures limit < 0 ==> |r| == if |s| + limit > 0 then |s| + limit else 0
    ensures r == s[..|r|]
  {
    if limit >= 0 then (if limit < |s| then s[..limit] else s)
    else if |s| + limit > 0 then s[..|s| + limit]
    else []
  }

  // ---------------------------------------------------------------------------
  // The whole pipeline

  /** The posts `get_recommendations` returns. The user name is not an input: the
      result does not depend on it, and the profiles are never consulted. */
  function Recommend(posts: seq<Post>, categoryId: Option<int>, mood: Option<string>,
                     limit: int, nowMs: real): seq<Post>
  {
    if posts == [] then []
    else match Candidates(posts, categoryId)
      case None => []
      case Some(c) => PostsOf(Take(SortByScore(ScoreAll(c, mood, nowMs)), limit))
  }

  /** The posts of `ps` whose score is `v`, in order. */
  function PostsScoring(ps: seq<Post>, v: real, mood: Option<string>, nowMs: real): seq<Post> {
    if ps == [] then []
    else (if PostScore(ps[0], mood, nowMs) == v then [ps[0]] else [])
         + PostsScoring(ps[1..], v, mood, nowMs)
  }

  predicate IsPrefix<T(==)>(a: seq<T>, b: seq<T>) {
    |a| <= |b| && a == b[..|a|]
  }

  // ---------------------------------------------------------------------------
  // Properties of the pipeline

  /** No posts, no recommendations. */
  lemma RecommendEmpty(categoryId: Option<int>, mood: Option<string>, limit: int, nowMs: real)
    ensures Recommend([], categoryId, mood, limit, nowMs) == []
  {
  }

  /** Every recommendation is a post of the snapshot, no more often than it occurs
      there, and belongs to the requested category when one is given. */
  lemma RecommendMembers(posts: seq<Post>, categoryId: Option<int>, mood: Option<string>,
                         limit: int, nowMs: real)
    ensures var r := Recommend(posts, categoryId, mood, limit, nowMs);
      && multiset(r) <= multiset(posts)
      && (categoryId.Some? ==> forall p :: p in r ==> p.category == Category(Some(categoryId.value)))
  {
    var r := Recommend(posts, categoryId, mood, limit, nowMs);
    if posts != [] && Candidates(posts, categoryId).Some? {
      var c := Candidates(posts, categoryId).value;
      var scored := ScoreAll(c, mood, nowMs);
      var sorted := SortByScore(scored);
      assert r == PostsOf(Take(sorted, limit));
      TakePostsBound(sorted, limit);
      assert multiset(PostsOf(sorted)) == multiset(c) by {
        PostsOfSort(scored);
        assert PostsOf(scored) == c;
      }
      CandidatesBound(posts, categoryId);
      if categoryId.Some? {
        forall p | p in r ensures p.category == Category(Some(categoryId.value)) {
          assert p in multiset(r);
          assert p in multiset(c);
        }
      }
    }
  }

  /** Truncation keeps at most what it was given. */
  lemma TakePostsBound(sorted: seq<Scored>, limit: int)
    ensures multiset(PostsOf(Take(sorted, limit))) <= multiset(PostsOf(sorted))
  {
    var r := PostsOf(Take(sorted, limit));
    var all := PostsOf(sorted);
    assert r == all[..|r|];
    assert all == r + all[|r|..];
  }

  /** The candidates are drawn from the snapshot, each at most as often as it occurs. */
  lemma CandidatesBound(posts: seq<Post>, categoryId: Option<int>)
    requires Candidates(posts, categoryId).Some?
    ensures multiset(Candidates(posts, categoryId).value) <= multiset(posts)
  {
    if categoryId.Some? {
      var c := Candidates(posts, categoryId).value;
      forall p ensures multiset(c)[p] <= multiset(posts)[p] {
        InCategoryCounts(posts, categoryId.value, p);
      }
    }
  }

  /** Inserting a scored post adds its post to the multiset of posts. */
  lemma {:induction false} PostsOfInsert(x: Scored, s: seq<Scored>)
    ensures multiset(PostsOf(Insert(x, s))) == multiset(PostsOf(s)) + multiset{x.post}
  {
    if s == [] {
      assert PostsOf([x]) == [x.post];
    } else if s[0].score <= x.score {
      PostsOfAppend([x], s);
      assert PostsOf([x]) == [x.post];
    } else {
      assert s == [s[0]] + s[1..];
      PostsOfInsert(x, s[1..]);
      PostsOfAppend([s[0]], Insert(x, s[1..]));
      PostsOfAppend([s[0]], s[1..]);
    }
  }

  /** Sorting permutes the posts. */
  lemma {:induction false} PostsOfSort(s: seq<Scored>)
    ensures multiset(PostsOf(SortByScore(s))) == multiset(PostsOf(s))
  {
    if s != [] {
      var rest := SortByScore(s[1..]);
      PostsOfSort(s[1..]);
      PostsOfInsertCons(s[0], s[1..], rest);
      assert s == [s[0]] + s[1..];
    }
  }

  /** Inserting into a permutation of the tail gives a permutation of the whole list. */
  lemma PostsOfInsertCons(x: Scored, tail: seq<Scored>, sortedTail: seq<Scored>)
    requires multiset(PostsOf(sortedTail)) == multiset(PostsOf(tail))
    ensures multiset(PostsOf(Insert(x, sortedTail))) == multiset(PostsOf([x] + tail))
  {
    PostsOfInsert(x, sortedTail);
    PostsOfAppend([x], tail);
    assert PostsOf([x]) == [x.post];
  }

  /** A category without posts yields no recommendations: there is no fallback to the
      unfiltered list. */
  lemma RecommendNoFallback(posts: seq<Post>, c: int, mood: Option<string>, limit: int, nowMs: real)
    requires forall i :: 0 <= i < |posts| ==> posts[i].category != Category(Some(c))
    ensures Recommend(posts, Some(c), mood, limit, nowMs) == []
  {
    if posts != [] && InCategory(posts, c).Some? {
      var cands := InCategory(posts, c).value;
      assert forall p :: p in cands ==> false;
    }
  }

  /** The length is `min(limit, number of candidates)` for a non-negative limit. */
  lemma RecommendLength(posts: seq<Post>, categoryId: Option<int>, mood: Option<string>,
                        limit: int, nowMs: real)
    requires 0 <= limit
    ensures var r := Recommend(posts, categoryId, mood, limit, nowMs);
      && |r| <= limit
      && (Candidates(posts, categoryId).Some? ==>
            |r| == if limit < |Candidates(posts, categoryId).value| then limit
                   else |Candidates(posts, categoryId).value|)
  {
  }

  /** Scores never increase along the result. */
  lemma RecommendOrdered(posts: seq<Post>, categoryId: Option<int>, mood: Option<string>,
                         limit: int, nowMs: real)
    ensures var r := Recommend(posts, categoryId, mood, limit, nowMs);
      forall i, j :: 0 <= i < j < |r| ==> PostScore(r[i], mood, nowMs) >= PostScore(r[j], mood, nowMs)
  {
    var r := Recommend(posts, categoryId, mood, limit, nowMs);
    if posts != [] && Candidates(posts, categoryId).Some? {
      var c := Candidates(posts, categoryId).value;
      var sorted := SortByScore(ScoreAll(c, mood, nowMs));
      ScoresConsistent(c, mood, nowMs);
      forall i, j | 0 <= i < j < |r| ensures PostScore(r[i], mood, nowMs) >= PostScore(r[j], mood, nowMs) {
        assert sorted[i] in multiset(ScoreAll(c, mood, nowMs));
        assert sorted[j] in multiset(ScoreAll(c, mood, nowMs));
      }
    }
  }

  /** Posts with equal scores keep their input order: for every score, the
      recommendations with that score are the first ones of the candidates with it. */
  lemma RecommendStable(posts: seq<Post>, categoryId: Option<int>, mood: Option<string>,
                        limit: int, nowMs: real, v: real)
    requires posts != [] && Candidates(posts, categoryId).Some?
    ensures IsPrefix(PostsScoring(Recommend(posts, categoryId, mood, limit, nowMs), v, mood, nowMs),
                     PostsScoring(Candidates(posts, categoryId).value, v, mood, nowMs))
  {
    var c := Candidates(posts, categoryId).value;
    var scored := ScoreAll(c, mood, nowMs);
    var sorted := SortByScore(scored);
    var top := Take(sorted, limit);
    assert Recommend(posts, categoryId, mood, limit, nowMs) == PostsOf(top);
    assert PostsOf(scored) == c;
    assert forall x :: x in scored ==> x.score == PostScore(x.post, mood, nowMs) by {
      ScoresConsistent(c, mood, nowMs);
    }
    assert forall x :: x in sorted ==> x.score == PostScore(x.post, mood, nowMs) by {
      forall x | x in sorted ensures x.score == PostScore(x.post, mood, nowMs) {
        assert x in multiset(scored);
      }
    }
    assert forall x :: x in top ==> x.score == PostScore(x.post, mood, nowMs) by {
      assert top == sorted[..|top|];
    }
    PostsScoringOf(top, v, mood, nowMs);
    PostsScoringOf(scored, v, mood, nowMs);
    assert IsPrefix(WithScore(top, v), WithScore(scored, v)) by {
      SortStable(scored, v);
      WithScorePrefix(sorted, |top|, v);
      assert top == sorted[..|top|];
    }
    PostsOfPrefix(WithScore(top, v), WithScore(scored, v));
  }

  lemma PostsOfPrefix(a: seq<Scored>, b: seq<Scored>)
    requires IsPrefix(a, b)
    ensures IsPrefix(PostsOf(a), PostsOf(b))
  {
    assert PostsOf(a) == PostsOf(b)[..|a|];
  }

  lemma ScoresConsistent(c: seq<Post>, mood: Option<string>, nowMs: real)
    ensures forall x :: x in ScoreAll(c, mood, nowMs) ==> x.score == PostScore(x.post, mood, nowMs)
  {
  }

  lemma {:induction false} PostsScoringOf(s: seq<Scored>, v: real, mood: Option<string>, nowMs: real)
    requires forall x :: x in s ==> x.score == PostScore(x.post, mood, nowMs)
    ensures PostsScoring(PostsOf(s), v, mood, nowMs) == PostsOf(WithScore(s, v))
  {
    if s != [] {
      PostsScoringOf(s[1..], v, mood, nowMs);
      var ps := PostsOf(s);
      assert ps[1..] == PostsOf(s[1..]);
      assert s[0] in s;
      var head := if s[0].score == v then [s[0]] else [];
      assert PostsOf(head) == if PostScore(ps[0], mood, nowMs) == v then [ps[0]] else [];
      PostsOfAppend(head, WithScore(s[1..], v));
    }
  }

  lemma PostsOfAppend(a: seq<Scored>, b: seq<Scored>)
    ensures PostsOf(a + b) == PostsOf(a) + PostsOf(b)
  {
    assert forall i :: 0 <= i < |a + b| ==> PostsOf(a + b)[i] == (PostsOf(a) + PostsOf(b))[i];
  }

  lemma {:induction false} WithScorePrefix(s: seq<Scored>, k: nat, v: real)
    requires k <= |s|
    ensures IsPrefix(WithScore(s[..k], v), WithScore(s, v))
  {
    if k > 0 {
      WithScorePrefix(s[1..], k - 1, v);
      assert s[..k][1..] == s[1..][..k - 1];
    }
  }
}
