/** Scoring of one post (engagement, mood, recency) and the quality of a list of
    recommendations. */
module Scoring {
  import opened Wrappers
  import opened Records

  const MillisPerDay: real := 86400000.0

  /** The seconds since the epoch of 0001-01-01 00:00 and of 10000-01-01 00:00 (UTC):
      `datetime.fromtimestamp` accepts a timestamp in [MinTimestamp, MaxTimestamp) and
      raises outside it, because a `datetime` has a year between 1 and 9999. */
  const MinTimestamp: real := -62135596800.0
  const MaxTimestamp: real := 253402300800.0

  // ---------------------------------------------------------------------------
  // Mood compatibility

  /** ASCII lower-casing of one character. */
  function LowerChar(c: char): char {
    if 'A' <= c <= 'Z' then (c as int + 32) as char else c
  }

  function Lower(s: string): (r: string)
    ensures |r| == |s|
    ensures forall i :: 0 <= i < |s| ==> r[i] == LowerChar(s[i])
  {
    seq(|s|, i requires 0 <= i < |s| => LowerChar(s[i]))
  }

  /** The fixed table of moods; any other mood gets 0.5. */
  function MoodTable(mood: string): (r: real)
    ensures 0.0 <= r <= 1.0
    ensures mood == "happy" ==> r == 1.0
    ensures mood !in {"happy", "inspired", "calm", "focused", "energetic"} ==> r == 0.5
  {
    if mood == "happy" then 1.0
    else if mood == "inspired" then 0.8
    else if mood == "calm" then 0.6
    else if mood == "focused" then 0.4
    else if mood == "energetic" then 0.2
    else 0.5
  }

  predicate AllText(tags: seq<Tag>) {
    forall i :: 0 <= i < |tags| ==> tags[i].Text?
  }

  /** The number of tags equal to `mood` when both are lower-cased. */
  function MatchCount(tags: seq<Tag>, mood: string): (n: nat)
    requires AllText(tags)
    ensures n <= |tags|
  {
    if tags == [] then 0
    else (if Lower(tags[0].s) == Lower(mood) then 1 else 0) + MatchCount(tags[1..], mood)
  }

  /** `_calculate_mood_score`. Every path that raises inside it gives 0.5. */
  function MoodScore(post: Post, mood: string): (r: real)
    ensures 0.0 <= r <= 1.0
  {
    match post.summary
    case NoSummary => 0.5
    case BadSummary => 0.5
    case Summary(emotions) =>
      match emotions
      case NoEmotions => 0.5
      case NotAList => MoodTable(Lower(mood))
      case Emotions(tags) =>
        if !AllText(tags) then 0.5
        else if tags == [] then 0.5
        else MatchCount(tags, mood) as real / |tags| as real
  }

  // ---------------------------------------------------------------------------
  // Recency

  /** Whole days between `createdMs` and `nowMs`, rounded down like `timedelta.days`. */
  function DaysOld(nowMs: real, createdMs: real): int {
    ((nowMs - createdMs) / MillisPerDay).Floor
  }

  /** `max(0, 30 - days_old) / 30`. */
  function RecencyBoost(daysOld: int): (r: real)
    ensures r >= 0.0
  {
    (if 30 - daysOld > 0 then 30 - daysOld else 0) as real / 30.0
  }

  // ---------------------------------------------------------------------------
  // Post score

  predicate Parses(f: NumField) { !f.Bad? }

  function ValueOr0(f: NumField): real {
    if f.Num? then f.v else 0.0
  }

  /** The linear engagement part of the score. */
  function BaseScore(post: Post): real {
    ValueOr0(post.viewCount) * 0.1 + ValueOr0(post.upvoteCount) * 1.5
    + ValueOr0(post.shareCount) * 2.0 + ValueOr0(post.averageRating) * 0.5
  }

  /** True when `datetime.fromtimestamp` accepts a timestamp of `seconds`. */
  predicate InDatetimeRange(seconds: real) {
    MinTimestamp <= seconds < MaxTimestamp
  }

  /** True when a field the score reads makes the code raise: `float()` rejects an
      engagement field, `created_at / 1000.0` raises, or the quotient is a timestamp
      outside the range of `datetime`. */
  predicate ScoreRaises(post: Post) {
    !Parses(post.viewCount) || !Parses(post.upvoteCount) || !Parses(post.shareCount)
    || !Parses(post.averageRating) || post.createdAt.Bad?
    || (post.createdAt.Num? && post.createdAt.v != 0.0 && !InDatetimeRange(post.createdAt.v / 1000.0))
  }

  /** The mood factor: applied only for a non-empty mood. */
  function MoodFactor(post: Post, mood: Option<string>): (r: real)
    ensures 1.0 <= r <= 2.0
    ensures (mood.None? || mood == Some("")) ==> r == 1.0
  {
    if mood.Some? && mood.value != "" then 1.0 + MoodScore(post, mood.value) else 1.0
  }

  /** The recency factor: applied only when `created_at` is present and non-zero. */
  function RecencyFactor(post: Post, nowMs: real): (r: real)
    ensures r >= 1.0
    ensures (post.createdAt.Absent? || post.createdAt == Num(0.0)) ==> r == 1.0
  {
    if post.createdAt.Num? && post.createdAt.v != 0.0
    then 1.0 + RecencyBoost(DaysOld(nowMs, post.createdAt.v))
    else 1.0
  }

  /** `_calculate_post_score`; a raised exception gives 0.0. */
  function PostScore(post: Post, mood: Option<string>, nowMs: real): (r: real)
    ensures ScoreRaises(post) ==> r == 0.0
  {
    if ScoreRaises(post) then 0.0
    else BaseScore(post) * MoodFactor(post, mood) * RecencyFactor(post, nowMs)
  }

  // ---------------------------------------------------------------------------
  // Recommendation quality

  /** `sum(float(rec.get('engagement_score', 0)) ...)`, or None when a value raises. */
  function EngagementTotal(recs: seq<Post>): Option<real> {
    if recs == [] then Some(0.0)
    else if recs[0].engagementScore.Bad? then None
    else match EngagementTotal(recs[1..])
      case None => None
      case Some(t) => Some(ValueOr0(recs[0].engagementScore) + t)
  }

  /** `rec.get('category', {}).get('id')`, or None when it raises. */
  function CategoryKey(p: Post): Option<Option<int>> {
    match p.category
    case NoCategory => Some(None)
    case Category(id) => Some(id)
    case NotAnObject => None
  }

  predicate CategoriesReadable(recs: seq<Post>) {
    forall i :: 0 <= i < |recs| ==> CategoryKey(recs[i]).Some?
  }

  /** The set of category ids (a missing id counts as the value None). */
  function CategorySet(recs: seq<Post>): set<Option<int>>
    requires CategoriesReadable(recs)
  {
    set i | 0 <= i < |recs| :: CategoryKey(recs[i]).value
  }

  /** `get_recommendation_quality`. */
  function Quality(recs: seq<Post>): (q: real)
    ensures q <= 1.0
    ensures recs == [] ==> q == 0.0
  {
    if recs == [] then 0.0
    else match EngagementTotal(recs)
      case None => 0.0
      case Some(total) =>
        if !CategoriesReadable(recs) then 0.0
        else
          var n := |recs| as real;
          var q := total / n * 0.7 + |CategorySet(recs)| as real / n * 0.3;
          if q < 1.0 then q else 1.0
  }

  // ---------------------------------------------------------------------------
  // Properties of the mood score

  lemma LowerIdempotent(s: string)
    ensures Lower(Lower(s)) == Lower(s)
  {
  }

  /** A string without upper-case ASCII letters is its own lower-case form. */
  lemma LowerOfLowercase(s: string)
    requires forall i :: 0 <= i < |s| ==> !('A' <= s[i] <= 'Z')
    ensures Lower(s) == s
  {
  }

  lemma {:induction false} MatchCountCaseInsensitive(tags: seq<Tag>, m1: string, m2: string)
    requires AllText(tags) && Lower(m1) == Lower(m2)
    ensures MatchCount(tags, m1) == MatchCount(tags, m2)
  {
    if tags != [] {
      MatchCountCaseInsensitive(tags[1..], m1, m2);
    }
  }

  /** The requested mood is compared without regard to ASCII case. */
  lemma MoodScoreCaseInsensitive(post: Post, m1: string, m2: string)
    requires Lower(m1) == Lower(m2)
    ensures MoodScore(post, m1) == MoodScore(post, m2)
  {
    if post.summary.Summary? && post.summary.emotions.Emotions? && AllText(post.summary.emotions.tags) {
      MatchCountCaseInsensitive(post.summary.emotions.tags, m1, m2);
    }
  }

  /** A list of emotion strings gives the share of tags that match the mood. */
  lemma {:induction false} MoodScoreFromTags(post: Post, mood: string, tags: seq<Tag>)
    requires post.summary == Summary(Emotions(tags)) && tags != [] && AllText(tags)
    ensures MoodScore(post, mood) == MatchCount(tags, mood) as real / |tags| as real
    ensures (forall i :: 0 <= i < |tags| ==> Lower(tags[i].s) == Lower(mood)) ==> MoodScore(post, mood) == 1.0
    ensures (forall i :: 0 <= i < |tags| ==> Lower(tags[i].s) != Lower(mood)) ==> MoodScore(post, mood) == 0.0
  {
    var n := |tags| as real;
    assert n >= 1.0;
    assert MoodScore(post, mood) == MatchCount(tags, mood) as real / n;
    if forall i :: 0 <= i < |tags| ==> Lower(tags[i].s) == Lower(mood) {
      AllMatch(tags, mood);
      DivSelf(n);
    }
    if forall i :: 0 <= i < |tags| ==> Lower(tags[i].s) != Lower(mood) {
      NoneMatch(tags, mood);
      assert 0.0 / n == 0.0;
    }
  }

  lemma DivSelf(n: real)
    requires n > 0.0
    ensures n / n == 1.0
  {
  }

  lemma {:induction false} AllMatch(tags: seq<Tag>, mood: string)
    requires AllText(tags)
    requires forall i :: 0 <= i < |tags| ==> Lower(tags[i].s) == Lower(mood)
    ensures MatchCount(tags, mood) == |tags|
  {
    if tags != [] {
      AllMatch(tags[1..], mood);
    }
  }

  lemma {:induction false} NoneMatch(tags: seq<Tag>, mood: string)
    requires AllText(tags)
    requires forall i :: 0 <= i < |tags| ==> Lower(tags[i].s) != Lower(mood)
    ensures MatchCount(tags, mood) == 0
  {
    if tags != [] {
      NoneMatch(tags[1..], mood);
    }
  }

  /** A list of emotion strings: the tests' cases, plus a case-insensitive half match. */
  lemma MoodScoreTagExamples(p: Post)
    ensures MoodScore(p.(summary := Summary(Emotions([Text("happy")]))), "happy") == 1.0
    ensures MoodScore(p.(summary := Summary(Emotions([Text("calm")]))), "happy") == 0.0
    ensures MoodScore(p.(summary := Summary(Emotions([Text("Happy"), Text("calm")]))), "happy") == 0.5
  {
    LowerOfLowercase("happy");
    LowerOfLowercase("calm");
    assert Lower("Happy") == "happy";
    assert "calm" != "happy" by { assert "calm"[0] != "happy"[0]; }
    var two := [Text("Happy"), Text("calm")];
    assert two[1..] == [Text("calm")];
    assert [Text("calm")][1..] == [];
    assert [Text("happy")][1..] == [];
  }

  /** For every mood, an absent `emotions` field, an absent or unreadable summary or an
      empty list gives 0.5, not the table value. */
  lemma MoodScoreDefaults(p: Post, m: string)
    ensures MoodScore(p.(summary := Summary(Emotions([]))), m) == 0.5
    ensures MoodScore(p.(summary := Summary(NoEmotions)), m) == 0.5
    ensures MoodScore(p.(summary := NoSummary), m) == 0.5
    ensures MoodScore(p.(summary := BadSummary), m) == 0.5
  {
  }

  /** For every mood, only a present `emotions` value that is not a list uses the table,
      looked up with the lower-cased mood. */
  lemma MoodScoreUsesTable(p: Post, m: string)
    ensures MoodScore(p.(summary := Summary(NotAList)), m) == MoodTable(Lower(m))
    ensures p.summary != Summary(NotAList) && MoodScore(p, m) != 0.5 ==>
      p.summary.Summary? && p.summary.emotions.Emotions? && AllText(p.summary.emotions.tags)
      && p.summary.emotions.tags != []
  {
  }

  /** The table values the tests expect, including a mood in mixed case. */
  lemma MoodScoreTableExamples(p: Post)
    ensures MoodScore(p.(summary := Summary(NotAList)), "happy") == 1.0
    ensures MoodScore(p.(summary := Summary(NotAList)), "Calm") == 0.6
    ensures MoodScore(p.(summary := Summary(NotAList)), "unknown_mood") == 0.5
  {
    LowerOfLowercase("happy");
    LowerOfLowercase("unknown_mood");
    assert Lower("Calm") == "calm";
  }

  // ---------------------------------------------------------------------------
  // Properties of the recency boost

  /** The boost is 1 for a post created today, falls linearly to 0 at 30 days, stays 0
      after that, and exceeds 1 for a post dated in the future. */
  lemma RecencyBoostShape(d: int, d2: int)
    ensures RecencyBoost(0) == 1.0
    ensures d >= 30 ==> RecencyBoost(d) == 0.0
    ensures 0 <= d ==> RecencyBoost(d) <= 1.0
    ensures d < 0 ==> RecencyBoost(d) > 1.0
    ensures d <= d2 ==> RecencyBoost(d2) <= RecencyBoost(d)
  {
  }

  /** A post created in the last day scores twice what it would without `created_at`;
      a post at least 30 days old scores the same as without it; a timestamp outside
      the range of `datetime` scores 0. */
  lemma RecencyDoublesFreshPosts(post: Post, mood: Option<string>, nowMs: real)
    requires post.createdAt.Num? && post.createdAt.v != 0.0
    ensures InDatetimeRange(post.createdAt.v / 1000.0) && DaysOld(nowMs, post.createdAt.v) == 0 ==>
      PostScore(post, mood, nowMs) == 2.0 * PostScore(post.(createdAt := Absent), mood, nowMs)
    ensures InDatetimeRange(post.createdAt.v / 1000.0) && DaysOld(nowMs, post.createdAt.v) >= 30 ==>
      PostScore(post, mood, nowMs) == PostScore(post.(createdAt := Absent), mood, nowMs)
    ensures !InDatetimeRange(post.createdAt.v / 1000.0) ==> PostScore(post, mood, nowMs) == 0.0
  {
    var q := post.(createdAt := Absent);
    assert InDatetimeRange(post.createdAt.v / 1000.0) ==> ScoreRaises(post) == ScoreRaises(q);
    assert BaseScore(post) == BaseScore(q);
    assert MoodFactor(post, mood) == MoodFactor(q, mood);
    assert RecencyFactor(q, nowMs) == 1.0;
  }

  // ---------------------------------------------------------------------------
  // Monotonicity of the post score

  lemma MulMonotone(x: real, y: real, a: real, b: real, f: real, g: real)
    requires x == a * f * g && y == b * f * g
    requires a <= b && f >= 1.0 && g >= 1.0
    ensures x <= y
  {
    assert (b - a) * f >= 0.0;
    assert (b - a) * f * g >= 0.0;
  }

  lemma MulAtLeastOne(x: real, y: real, b: real, f: real, g: real)
    requires x == b * f * g && y == b * 1.0 * g
    requires b >= 0.0 && f >= 1.0 && g >= 1.0
    ensures x >= y
  {
    assert b * g >= 0.0;
    assert b * g * (f - 1.0) >= 0.0;
    assert b * f * g == b * g * (f - 1.0) + b * g;
  }

  /** When nothing raises, the score is the engagement part times both factors. */
  lemma ScoreIsProduct(post: Post, mood: Option<string>, nowMs: real, b: real, f: real, g: real)
    requires !ScoreRaises(post)
    requires b == BaseScore(post) && f == MoodFactor(post, mood) && g == RecencyFactor(post, nowMs)
    ensures PostScore(post, mood, nowMs) == b * f * g
  {
  }

  /** Raising `upvote_count` never lowers the score; nothing else changes. When another
      field raises, both scores are 0. */
  lemma ScoreMonotoneInUpvotes(post: Post, u1: real, u2: real, mood: Option<string>, nowMs: real)
    requires u1 <= u2
    ensures PostScore(post.(upvoteCount := Num(u1)), mood, nowMs)
         <= PostScore(post.(upvoteCount := Num(u2)), mood, nowMs)
  {
    var p1 := post.(upvoteCount := Num(u1));
    var p2 := post.(upvoteCount := Num(u2));
    assert ScoreRaises(p1) == ScoreRaises(p2);
    if ScoreRaises(p1) {
      return;
    }
    var f, g := MoodFactor(post, mood), RecencyFactor(post, nowMs);
    var b1, b2 := BaseScore(p1), BaseScore(p2);
    assert b1 <= b2 by {
      assert ValueOr0(p1.upvoteCount) == u1 && ValueOr0(p2.upvoteCount) == u2;
    }
    assert MoodFactor(p1, mood) == f && MoodFactor(p2, mood) == f by {
      assert p1.summary == post.summary && p2.summary == post.summary;
    }
    assert RecencyFactor(p1, nowMs) == g && RecencyFactor(p2, nowMs) == g by {
      assert p1.createdAt == post.createdAt && p2.createdAt == post.createdAt;
    }
    ScoreFollowsBase(p1, p2, mood, nowMs);
  }

  /** Two posts with the same factors are ordered as their engagement parts. */
  lemma ScoreFollowsBase(p1: Post, p2: Post, mood: Option<string>, nowMs: real)
    requires !ScoreRaises(p1) && !ScoreRaises(p2) && BaseScore(p1) <= BaseScore(p2)
    requires MoodFactor(p1, mood) == MoodFactor(p2, mood)
    requires RecencyFactor(p1, nowMs) == RecencyFactor(p2, nowMs)
    ensures PostScore(p1, mood, nowMs) <= PostScore(p2, mood, nowMs)
  {
    var b1, b2 := BaseScore(p1), BaseScore(p2);
    var f, g := MoodFactor(p1, mood), RecencyFactor(p1, nowMs);
    ScoreIsProduct(p1, mood, nowMs, b1, f, g);
    ScoreIsProduct(p2, mood, nowMs, b2, f, g);
    MulMonotone(PostScore(p1, mood, nowMs), PostScore(p2, mood, nowMs), b1, b2, f, g);
  }

  /** For a non-negative engagement part, asking for a mood never lowers the score. */
  lemma MoodNeverLowers(post: Post, mood: string, nowMs: real)
    requires BaseScore(post) >= 0.0
    ensures PostScore(post, Some(mood), nowMs) >= PostScore(post, None, nowMs)
  {
    if !ScoreRaises(post) {
      var b, f, g := BaseScore(post), MoodFactor(post, Some(mood)), RecencyFactor(post, nowMs);
      ScoreIsProduct(post, Some(mood), nowMs, b, f, g);
      ScoreIsProduct(post, None, nowMs, b, 1.0, g);
      MulAtLeastOne(PostScore(post, Some(mood), nowMs), PostScore(post, None, nowMs), b, f, g);
    }
  }


  // ---------------------------------------------------------------------------
  // Properties of the quality score

  lemma {:induction false} CategorySetBounds(recs: seq<Post>)
    requires CategoriesReadable(recs)
    ensures |CategorySet(recs)| <= |recs|
    ensures recs != [] ==> |CategorySet(recs)| >= 1
  {
    if recs != [] {
      var n := |recs|;
      var init := recs[..n - 1];
      assert CategoriesReadable(init) by {
        forall i | 0 <= i < |init| ensures CategoryKey(init[i]).Some? {
          assert init[i] == recs[i];
        }
      }
      CategorySetBounds(init);
      assert CategorySet(recs) == CategorySet(init) + {CategoryKey(recs[n - 1]).value} by {
        forall k | k in CategorySet(recs) ensures k in CategorySet(init) + {CategoryKey(recs[n - 1]).value} {
          var i :| 0 <= i < |recs| && k == CategoryKey(recs[i]).value;
          if i < n - 1 {
            assert init[i] == recs[i];
          }
        }
        forall k | k in CategorySet(init) ensures k in CategorySet(recs) {
          var i :| 0 <= i < |init| && k == CategoryKey(init[i]).value;
          assert init[i] == recs[i];
        }
      }
      assert CategoryKey(recs[n - 1]).value in CategorySet(recs);
    }
  }

  lemma {:induction false} EngagementTotalNonNegative(recs: seq<Post>)
    requires forall i :: 0 <= i < |recs| ==> recs[i].engagementScore.Num? ==> recs[i].engagementScore.v >= 0.0
    requires EngagementTotal(recs).Some?
    ensures EngagementTotal(recs).value >= 0.0
  {
    if recs != [] {
      EngagementTotalNonNegative(recs[1..]);
    }
  }

  /** With non-negative engagement scores, readable categories and no value that raises,
      the quality of a non-empty list is strictly positive. */
  lemma QualityPositive(recs: seq<Post>)
    requires recs != []
    requires forall i :: 0 <= i < |recs| ==> recs[i].engagementScore.Num? ==> recs[i].engagementScore.v >= 0.0
    requires EngagementTotal(recs).Some? && CategoriesReadable(recs)
    ensures 0.0 < Quality(recs)
  {
    EngagementTotalNonNegative(recs);
    CategorySetBounds(recs);
    var n := |recs| as real;
    var total := EngagementTotal(recs).value;
    assert total / n >= 0.0;
    assert |CategorySet(recs)| as real / n > 0.0;
  }

  /** The diversity term is exactly 1 for a single post, so its quality is
      `min(1, 0.7·engagement + 0.3)`, with a missing engagement score read as 0; a
      value that raises gives 0. */
  lemma QualitySingle(p: Post)
    ensures (p.engagementScore.Bad? || CategoryKey(p).None?) ==> Quality([p]) == 0.0
    ensures !p.engagementScore.Bad? && CategoryKey(p).Some? ==>
      var e := ValueOr0(p.engagementScore);
      Quality([p]) == if 0.7 * e + 0.3 < 1.0 then 0.7 * e + 0.3 else 1.0
  {
    assert [p][1..] == [];
    assert [p][0] == p;
    if p.engagementScore.Bad? || CategoryKey(p).None? {
      return;
    }
    assert CategoriesReadable([p]);
    var k := CategoryKey(p).value;
    assert EngagementTotal([p]) == Some(ValueOr0(p.engagementScore));
    assert k in CategorySet([p]);
    assert CategorySet([p]) == {k};
    assert |CategorySet([p])| == 1;
  }
}
