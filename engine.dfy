/** The recommendation engine: built once from a snapshot, it keeps the snapshot, the
    interest profiles and a lookup of posts by id, and answers queries over them. */
module Engine {
  import opened Wrappers
  import opened Records
  import opened Scoring
  import opened Profiles
  import opened Ranking

  /** `{str(post['id']): post for post in posts}`. */
  function PostLookup(posts: seq<Post>): (r: map<string, Post>)
    ensures forall k :: k in r <==> exists i :: 0 <= i < |posts| && posts[i].id == k
    ensures forall k :: k in r ==> r[k].id == k && r[k] in posts
    decreases |posts|
  {
    if posts == [] then map[]
    else
      var init := posts[..|posts| - 1];
      var last := posts[|posts| - 1];
      assert forall i :: 0 <= i < |init| ==> init[i] == posts[i];
      assert forall p :: p in init ==> p in posts;
      PostLookup(init)[last.id := last]
  }

  /** A later post with the same id replaces an earlier one: each id maps to the last
      post that carries it. */
  lemma {:induction false} PostLookupKeepsLast(posts: seq<Post>, i: nat)
    requires i < |posts| && LastWithId(posts, i)
    ensures PostLookup(posts)[posts[i].id] == posts[i]
    decreases |posts|
  {
    var init := posts[..|posts| - 1];
    if i < |posts| - 1 {
      assert init[i] == posts[i];
      assert LastWithId(init, i);
      PostLookupKeepsLast(init, i);
    }
  }

  /** `posts[i]` is the last post with its id. */
  predicate LastWithId(posts: seq<Post>, i: nat)
    requires i < |posts|
  {
    forall j :: i < j < |posts| ==> posts[j].id != posts[i].id
  }

  /** `_build_user_profiles`: the nested loops that fill the profiles in place. A
      rating that does not parse abandons the whole build with `{}`. */
  method BuildUserProfiles(interactions: seq<InteractionList>) returns (profiles: ProfileMap)
    ensures profiles == BuildProfiles(interactions)
  {
    profiles := map[];
    for i := 0 to |interactions|
      invariant Accumulate(Flatten(interactions[..i])) == Some(profiles)
    {
      var g := interactions[i];
      var baseWeight := BaseWeight(g.kind);
      ghost var done := Flatten(interactions[..i]);
      assert done + TagEvents(g)[..0] == done;
      for j := 0 to |g.events|
        invariant Accumulate(done + TagEvents(g)[..j]) == Some(profiles)
      {
        EventStep(done, g, j, profiles);
        var next := ApplyEvent(profiles, g.kind, baseWeight, g.events[j]);
        if next.None? {
          RaisedEventEmptiesProfiles(interactions, i, j);
          return map[];
        }
        profiles := next.value;
      }
      assert TagEvents(g)[..|g.events|] == TagEvents(g);
      FlattenStep(interactions, i);
    }
    assert interactions[..|interactions|] == interactions;
  }

  /** The body of the inner loop for one interaction `e` of type `kind`: skip it when
      either key is empty, otherwise add its weight to its entry; None when `float()`
      raises on its rating. */
  method ApplyEvent(profiles: ProfileMap, kind: string, baseWeight: real, e: Event)
    returns (next: Option<ProfileMap>)
    requires baseWeight == BaseWeight(kind)
    ensures next == Step(profiles, Tagged(kind, e))
  {
    var userId := UserKey(e);
    var postId := PostKey(e);
    if userId == "" || postId == "" {
      return Some(profiles);
    }
    var updated := profiles;
    if userId !in updated {
      updated := updated[userId := map[]];
    }
    assert updated == profiles[userId := if userId in profiles then profiles[userId] else map[]];
    var weight := baseWeight;
    if kind == "rated" {
      if e.rating.Bad? {
        return None;
      }
      var rating := if e.rating.Num? then e.rating.v / 100.0 else 0.0 / 100.0;
      weight := weight * (1.0 + rating);
      RatedWeight(e);
      assert weight == 2.0 * (1.0 + (if e.rating.Num? then e.rating.v else 0.0) / 100.0);
    } else {
      assert Weight(kind, e) == Some(weight);
    }
    updated := AddToEntry(updated, userId, postId, weight);
    AddWeightAfterCreate(profiles, userId, postId, weight);
    next := Some(updated);
  }

  /** `profiles[user][post] += weight`, creating the entry at 0 when it is absent. */
  method AddToEntry(profiles: ProfileMap, userId: string, postId: string, weight: real)
    returns (updated: ProfileMap)
    requires userId in profiles
    ensures updated == AddWeight(profiles, userId, postId, weight)
  {
    ghost var prof := profiles[userId];
    ghost var current := if postId in prof then prof[postId] else 0.0;
    updated := profiles;
    if postId !in updated[userId] {
      updated := updated[userId := updated[userId][postId := 0.0]];
    } else {
      assert prof[postId := current] == prof;
      assert profiles[userId := prof] == profiles;
    }
    assert updated == profiles[userId := prof[postId := current]];
    assert updated[userId][postId] == current;
    assert updated[userId][postId := current + weight] == prof[postId := current + weight];
    updated := updated[userId := updated[userId][postId := updated[userId][postId] + weight]];
  }

  /** One more event of list `g` is one more step of the fold. */
  lemma EventStep(done: seq<Tagged>, g: InteractionList, j: nat, before: ProfileMap)
    requires j < |g.events|
    requires Accumulate(done + TagEvents(g)[..j]) == Some(before)
    ensures Accumulate(done + TagEvents(g)[..j + 1]) == Step(before, Tagged(g.kind, g.events[j]))
  {
    var t := Tagged(g.kind, g.events[j]);
    assert done + TagEvents(g)[..j + 1] == (done + TagEvents(g)[..j]) + [t];
    AccumulateSnoc(done + TagEvents(g)[..j], t, before);
  }

  /** A counted event whose rating raises leaves no profiles at all. */
  lemma RaisedEventEmptiesProfiles(gs: seq<InteractionList>, i: nat, j: nat)
    requires i < |gs| && j < |gs[i].events|
    requires Malformed(Tagged(gs[i].kind, gs[i].events[j]))
    ensures BuildProfiles(gs) == map[]
  {
    var all := Flatten(gs);
    FlattenStep(gs, i);
    FlattenPrefix(gs, i + 1);
    var pre := Flatten(gs[..i]);
    var k := |pre| + j;
    assert Flatten(gs[..i + 1]) == pre + TagEvents(gs[i]);
    assert all[k] == Flatten(gs[..i + 1])[k];
    assert Malformed(all[k]);
    AccumulateFailsIff(all);
  }

  class RecommendationEngine {
    const data: Snapshot
    const userProfiles: ProfileMap
    const postLookup: map<string, Post>

    constructor (data: Snapshot)
      ensures this.data == data
      ensures userProfiles == BuildProfiles(data.interactions)
      ensures postLookup == PostLookup(data.posts)
    {
      this.data := data;
      var profiles := BuildUserProfiles(data.interactions);
      userProfiles := profiles;
      postLookup := PostLookup(data.posts);
    }

    /** `is_personalized`: some event of some list names the user in its `username`. */
    method IsPersonalized(username: string) returns (b: bool)
      ensures b <==> exists i, j :: 0 <= i < |data.interactions| && 0 <= j < |data.interactions[i].events|
                                   && data.interactions[i].events[j].username == Some(username)
    {
      var lists := data.interactions;
      for i := 0 to |lists|
        invariant forall i', j :: 0 <= i' < i && 0 <= j < |lists[i'].events|
                    ==> lists[i'].events[j].username != Some(username)
      {
        var events := lists[i].events;
        for j := 0 to |events|
          invariant forall j' :: 0 <= j' < j ==> events[j'].username != Some(username)
        {
          if events[j].username == Some(username) {
            return true;
          }
        }
      }
      return false;
    }

    /** `get_recommendations`. The user name plays no part in the result. */
    method GetRecommendations(username: string, categoryId: Option<int>, mood: Option<string>,
                              limit: int, nowMs: real) returns (result: seq<Post>)
      ensures result == Recommend(data.posts, categoryId, mood, limit, nowMs)
    {
      var available := data.posts;
      if available == [] {
        return [];
      }
      if categoryId.Some? {
        var filtered := InCategory(available, categoryId.value);
        if filtered.None? {
          return [];
        }
        available := filtered.value;
      }
      var postScores: seq<Scored> := [];
      for i := 0 to |available|
        invariant |postScores| == i
        invariant forall k :: 0 <= k < i ==> postScores[k] == Scored(available[k], PostScore(available[k], mood, nowMs))
      {
        var score := PostScore(available[i], mood, nowMs);
        postScores := postScores + [Scored(available[i], score)];
      }
      assert postScores == ScoreAll(available, mood, nowMs);
      var recommendations := SortByScore(postScores);
      result := PostsOf(Take(recommendations, limit));
    }

    /** `get_recommendation_quality`; it does not read the engine's state. */
    method GetRecommendationQuality(recommendations: seq<Post>) returns (q: real)
      ensures q == Quality(recommendations)
      ensures q <= 1.0
    {
      q := Quality(recommendations);
    }
  }
}
