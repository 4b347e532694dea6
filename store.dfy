/** The interaction recorder of `DatabaseService`, with the SQL session replaced by an
    in-memory store: a list of users, a list of interactions and the category
    preference scores per user id. */
module Store {
  import opened Wrappers

  /** The reasons `validate_interaction` raises `ValueError`. */
  datatype ValidationError = InvalidType | RatingRequired | RatingOutOfRange

  /** The result of validation: accepted, or rejected with a reason. */
  datatype Check = Accepted | Rejected(reason: ValidationError)

  datatype User = User(id: nat, username: string)

  /** A stored interaction; `createdAt` is the clock reading when it was recorded. */
  datatype Interaction = Interaction(userId: nat, postId: int, kind: string, rating: Option<real>, createdAt: int)

  /** One element of a history list; `rating` is present only for a non-zero rating. */
  datatype HistoryEntry = HistoryEntry(postId: int, timestamp: int, rating: Option<real>)

  /** The result of `get_user_history`: the `views`, `likes` and `ratings` lists. */
  datatype History = History(views: seq<HistoryEntry>, likes: seq<HistoryEntry>, ratings: seq<HistoryEntry>)

  /** The category every preference update goes to. */
  const PreferenceCategory: int := 1

  predicate ValidKind(kind: string) {
    kind in ["view", "like", "rate", "inspire"]
  }

  /** `validate_interaction`: the type must be known, and a `rate` needs a rating in
      [0, 5]; other types do not look at the rating. */
  function ValidateInteraction(kind: string, rating: Option<real>): (r: Check)
    ensures r.Accepted? <==> ValidKind(kind) && (kind == "rate" ==> rating.Some? && 0.0 <= rating.value <= 5.0)
    ensures !ValidKind(kind) ==> r == Rejected(InvalidType)
    ensures kind == "rate" && rating.None? ==> r == Rejected(RatingRequired)
  {
    if !ValidKind(kind) then Rejected(InvalidType)
    else if kind == "rate" then
      if rating.None? then Rejected(RatingRequired)
      else if !(0.0 <= rating.value <= 5.0) then Rejected(RatingOutOfRange)
      else Accepted
    else Accepted
  }

  /** The preference counter is bumped for a `like` or a `rate` whose rating is absent
      or above 3. */
  predicate BumpsPreference(kind: string, rating: Option<real>) {
    kind in ["like", "rate"] && (rating.None? || rating.value > 3.0)
  }

  /** The number of recorded interactions of user `uid` that bumped the counter. */
  function BumpCount(xs: seq<Interaction>, uid: nat): nat
    decreases |xs|
  {
    if xs == [] then 0
    else
      var last := xs[|xs| - 1];
      BumpCount(xs[..|xs| - 1], uid)
        + (if last.userId == uid && BumpsPreference(last.kind, last.rating) then 1 else 0)
  }

  /** `_update_user_preferences` as a function: the category-1 score of the user
      becomes 1 when absent and grows by 1 otherwise. */
  function Bump(prefs: map<nat, map<int, real>>, uid: nat): map<nat, map<int, real>> {
    var current := if uid in prefs then prefs[uid] else map[];
    prefs[uid := current[PreferenceCategory :=
      if PreferenceCategory in current then current[PreferenceCategory] + 1.0 else 1.0]]
  }

  /** The preference scores agree with the recorded interactions: a user has a map
      exactly when some interaction bumped it, and the map holds category 1 with the
      number of those interactions. */
  ghost predicate PrefsMatch(prefs: map<nat, map<int, real>>, xs: seq<Interaction>) {
    && (forall u :: u in prefs <==> BumpCount(xs, u) > 0)
    && (forall u :: u in prefs ==> prefs[u] == map[PreferenceCategory := BumpCount(xs, u) as real])
  }

  /** Recording one interaction, and bumping when the rule says so, keeps the scores in
      agreement with the interactions. */
  lemma PrefsAfterAppend(prefs: map<nat, map<int, real>>, xs: seq<Interaction>, x: Interaction)
    requires PrefsMatch(prefs, xs)
    ensures PrefsMatch(if BumpsPreference(x.kind, x.rating) then Bump(prefs, x.userId) else prefs, xs + [x])
  {
    var ys := xs + [x];
    assert ys[..|ys| - 1] == xs;
    var after := if BumpsPreference(x.kind, x.rating) then Bump(prefs, x.userId) else prefs;
    forall u ensures (u in after <==> BumpCount(ys, u) > 0)
      && (u in after ==> after[u] == map[PreferenceCategory := BumpCount(ys, u) as real])
    {
      assert BumpCount(ys, u) == BumpCount(xs, u)
        + (if x.userId == u && BumpsPreference(x.kind, x.rating) then 1 else 0);
      if BumpsPreference(x.kind, x.rating) && u == x.userId && u in prefs {
        assert prefs[u][PreferenceCategory] == BumpCount(xs, u) as real;
        assert after[u] == map[PreferenceCategory := BumpCount(xs, u) as real + 1.0];
      }
    }
  }

  /** The interactions of user `uid`, in recording order. */
  function ForUser(xs: seq<Interaction>, uid: nat): (r: seq<Interaction>)
    ensures forall x :: x in r <==> x in xs && x.userId == uid
    ensures |r| <= |xs|
  {
    if xs == [] then []
    else (if xs[0].userId == uid then [xs[0]] else []) + ForUser(xs[1..], uid)
  }

  /** Selecting a user's interactions distributes over concatenation, so it keeps the
      recording order. */
  lemma {:induction false} ForUserAppend(a: seq<Interaction>, b: seq<Interaction>, uid: nat)
    ensures ForUser(a + b, uid) == ForUser(a, uid) + ForUser(b, uid)
  {
    if a == [] {
      assert a + b == b;
    } else {
      var ab := a + b;
      assert ab[0] == a[0];
      assert ab[1..] == a[1..] + b;
      ForUserAppend(a[1..], b, uid);
      var head := if a[0].userId == uid then [a[0]] else [];
      assert ForUser(ab, uid) == head + ForUser(ab[1..], uid);
      assert ForUser(a, uid) == head + ForUser(a[1..], uid);
    }
  }

  /** Each interaction of the user is selected exactly as often as it was recorded. */
  lemma {:induction false} ForUserCounts(xs: seq<Interaction>, uid: nat, x: Interaction)
    ensures multiset(ForUser(xs, uid))[x] == if x.userId == uid then multiset(xs)[x] else 0
  {
    if xs != [] {
      ForUserCounts(xs[1..], uid, x);
      var head := if xs[0].userId == uid then [xs[0]] else [];
      assert ForUser(xs, uid) == head + ForUser(xs[1..], uid);
      assert multiset(ForUser(xs, uid)) == multiset(head) + multiset(ForUser(xs[1..], uid));
      assert xs == [xs[0]] + xs[1..];
      assert multiset(xs) == multiset{xs[0]} + multiset(xs[1..]);
    }
  }

  function Reverse<T>(xs: seq<T>): (r: seq<T>)
    ensures |r| == |xs|
    ensures forall i :: 0 <= i < |xs| ==> r[i] == xs[|xs| - 1 - i]
  {
    if xs == [] then [] else Reverse(xs[1..]) + [xs[0]]
  }

  /** The dictionary built for one interaction; `if interaction.rating:` keeps the
      rating only when it is present and non-zero. */
  function EntryOf(x: Interaction): (e: HistoryEntry)
    ensures e.postId == x.postId && e.timestamp == x.createdAt
    ensures e.rating.Some? <==> x.rating.Some? && x.rating.value != 0.0
    ensures e.rating.Some? ==> e.rating == x.rating
  {
    HistoryEntry(x.postId, x.createdAt,
                 if x.rating.Some? && x.rating.value != 0.0 then x.rating else None)
  }

  /** The entries of the interactions of one type, in the given order. */
  function EntriesOfKind(xs: seq<Interaction>, kind: string): (r: seq<HistoryEntry>)
    ensures |r| <= |xs|
  {
    if xs == [] then []
    else (if xs[0].kind == kind then [EntryOf(xs[0])] else []) + EntriesOfKind(xs[1..], kind)
  }

  /** The number of interactions of one type. */
  function CountKind(xs: seq<Interaction>, kind: string): nat {
    if xs == [] then 0 else (if xs[0].kind == kind then 1 else 0) + CountKind(xs[1..], kind)
  }

  // ---------------------------------------------------------------------------
  // Properties of the history buckets

  lemma {:induction false} EntriesCount(xs: seq<Interaction>, kind: string)
    ensures |EntriesOfKind(xs, kind)| == CountKind(xs, kind)
  {
    if xs != [] {
      EntriesCount(xs[1..], kind);
    }
  }

  /** With every stored type valid, the three buckets together hold every interaction
      of the user except the `inspire` ones. */
  lemma {:induction false} BucketsPartition(xs: seq<Interaction>)
    requires forall i :: 0 <= i < |xs| ==> ValidKind(xs[i].kind)
    ensures |EntriesOfKind(xs, "view")| + |EntriesOfKind(xs, "like")| + |EntriesOfKind(xs, "rate")|
            + CountKind(xs, "inspire") == |xs|
  {
    EntriesCount(xs, "view");
    EntriesCount(xs, "like");
    EntriesCount(xs, "rate");
    if xs != [] {
      BucketsPartition(xs[1..]);
    }
  }

  /** Reversing the history reverses each bucket: every bucket is newest-first. */
  lemma {:induction false} EntriesOfReverse(xs: seq<Interaction>, kind: string)
    ensures EntriesOfKind(Reverse(xs), kind) == Reverse(EntriesOfKind(xs, kind))
  {
    if xs != [] {
      EntriesOfReverse(xs[1..], kind);
      EntriesOfAppend(Reverse(xs[1..]), [xs[0]], kind);
      var head := if xs[0].kind == kind then [EntryOf(xs[0])] else [];
      ReverseAppend(head, EntriesOfKind(xs[1..], kind));
      assert Reverse(head) == head;
    }
  }

  lemma {:induction false} EntriesOfAppend(a: seq<Interaction>, b: seq<Interaction>, kind: string)
    ensures EntriesOfKind(a + b, kind) == EntriesOfKind(a, kind) + EntriesOfKind(b, kind)
  {
    if a == [] {
      assert a + b == b;
    } else {
      var ab := a + b;
      assert ab[0] == a[0];
      assert ab[1..] == a[1..] + b;
      EntriesOfAppend(a[1..], b, kind);
      var head := if a[0].kind == kind then [EntryOf(a[0])] else [];
      assert EntriesOfKind(ab, kind) == head + EntriesOfKind(ab[1..], kind);
      assert EntriesOfKind(a, kind) == head + EntriesOfKind(a[1..], kind);
    }
  }

  /** One more interaction adds its entry to the bucket of its type only. */
  lemma BucketStep(xs: seq<Interaction>, i: nat, kind: string)
    requires i < |xs|
    ensures EntriesOfKind(xs[..i + 1], kind)
         == EntriesOfKind(xs[..i], kind) + (if xs[i].kind == kind then [EntryOf(xs[i])] else [])
  {
    assert xs[..i + 1] == xs[..i] + [xs[i]];
    EntriesOfAppend(xs[..i], [xs[i]], kind);
    assert EntriesOfKind([xs[i]], kind) == (if xs[i].kind == kind then [EntryOf(xs[i])] else []) + EntriesOfKind([], kind);
  }

  lemma ReverseAppend<T>(a: seq<T>, b: seq<T>)
    ensures Reverse(a + b) == Reverse(b) + Reverse(a)
  {
  }

  // ---------------------------------------------------------------------------
  // The store

  /** Users are numbered from 1 in creation order and have distinct names; every
      interaction belongs to a user and passed validation; a user's preference map
      holds category 1 only, with the number of interactions that bumped it. */
  ghost predicate StoreValid(users: seq<User>, xs: seq<Interaction>, prefs: map<nat, map<int, real>>) {
    && (forall i :: 0 <= i < |users| ==> users[i].id == i + 1)
    && (forall i, j :: 0 <= i < j < |users| ==> users[i].username != users[j].username)
    && (forall k :: 0 <= k < |xs| ==>
          1 <= xs[k].userId <= |users| && ValidateInteraction(xs[k].kind, xs[k].rating).Accepted?)
    && PrefsMatch(prefs, xs)
  }

  /** Recording an accepted interaction of a known user keeps the store invariant. */
  lemma RecordKeepsValid(users: seq<User>, xs: seq<Interaction>, prefs: map<nat, map<int, real>>, x: Interaction)
    requires StoreValid(users, xs, prefs)
    requires 1 <= x.userId <= |users| && ValidateInteraction(x.kind, x.rating).Accepted?
    ensures StoreValid(users, xs + [x], if BumpsPreference(x.kind, x.rating) then Bump(prefs, x.userId) else prefs)
  {
    PrefsAfterAppend(prefs, xs, x);
    var ys := xs + [x];
    assert forall k :: 0 <= k < |xs| ==> ys[k] == xs[k];
  }

  class DatabaseService {
    var users: seq<User>
    var interactions: seq<Interaction>
    var preferences: map<nat, map<int, real>>

    /** The store invariant on the current state. */
    ghost predicate Valid()
      reads this
    {
      StoreValid(users, interactions, preferences)
    }

    /** Opening the database: the rows already in the file, which a new file has none
        of, become the initial state. */
    constructor (users0: seq<User>, interactions0: seq<Interaction>, preferences0: map<nat, map<int, real>>)
      requires StoreValid(users0, interactions0, preferences0)
      ensures Valid()
      ensures users == users0 && interactions == interactions0 && preferences == preferences0
    {
      users, interactions, preferences := users0, interactions0, preferences0;
    }

    /** `session.query(User).filter_by(username=...).first()`. */
    function FindUser(username: string): (r: Option<User>)
      reads this
      requires Valid()
      ensures r.Some? <==> exists i :: 0 <= i < |users| && users[i].username == username
      ensures r.Some? ==> r.value in users && r.value.username == username && 1 <= r.value.id <= |users|
    {
      FirstNamed(users, username)
    }

    /** `record_interaction`: validate first; on success get or create the user, append
        one interaction and bump the category-1 preference when the rule says so. A
        rejected call changes nothing. */
    method RecordInteraction(username: string, postId: int, kind: string, rating: Option<real>, now: int)
      returns (outcome: Check)
      requires Valid()
      modifies this
      ensures Valid()
      ensures outcome == ValidateInteraction(kind, rating)
      ensures outcome.Rejected? ==>
        users == old(users) && interactions == old(interactions) && preferences == old(preferences)
      ensures outcome.Accepted? ==>
        && users == (if old(FindUser(username)).Some? then old(users)
                     else old(users) + [User(|old(users)| + 1, username)])
        && FindUser(username).Some?
        && var x := Interaction(FindUser(username).value.id, postId, kind, rating, now);
        && interactions == old(interactions) + [x]
        && preferences == if BumpsPreference(kind, rating) then Bump(old(preferences), x.userId)
                          else old(preferences)
    {
      outcome := ValidateInteraction(kind, rating);
      if outcome.Rejected? {
        return;
      }
      var user := GetOrCreateUser(username);
      var x := Interaction(user.id, postId, kind, rating, now);
      assert 1 <= user.id <= |users| by {
        assert FindUser(username) == Some(user);
      }
      RecordKeepsValid(users, interactions, preferences, x);
      ghost var found := FindUser(username);
      interactions := interactions + [x];
      if BumpsPreference(kind, rating) {
        UpdateUserPreferences(user.id);
      }
      assert FindUser(username) == found;
    }

    /** The get-or-create step of `record_interaction`: a new user gets the next id. */
    method GetOrCreateUser(username: string) returns (user: User)
      requires Valid()
      modifies this
      ensures Valid()
      ensures interactions == old(interactions) && preferences == old(preferences)
      ensures users == (if old(FindUser(username)).Some? then old(users)
                        else old(users) + [User(|old(users)| + 1, username)])
      ensures FindUser(username) == Some(user)
    {
      var found := FirstNamed(users, username);
      if found.None? {
        user := User(|users| + 1, username);
        FirstNamedAppend(users, user);
        users := users + [user];
      } else {
        user := found.value;
      }
    }

    /** `_update_user_preferences`. */
    method UpdateUserPreferences(userId: nat)
      modifies this
      ensures users == old(users) && interactions == old(interactions)
      ensures preferences == Bump(old(preferences), userId)
    {
      var current := if userId in preferences then preferences[userId] else map[];
      if PreferenceCategory in current {
        preferences := preferences[userId := current[PreferenceCategory := current[PreferenceCategory] + 1.0]];
      } else {
        preferences := preferences[userId := current[PreferenceCategory := 1.0]];
      }
    }

    /** `get_user_history`: an unknown user gets three empty lists; otherwise the user's
        interactions, newest first, are split by type and `inspire` is dropped. */
    method GetUserHistory(username: string) returns (history: History)
      requires Valid()
      ensures FindUser(username).None? ==> history == History([], [], [])
      ensures FindUser(username).Some? ==>
        var mine := Reverse(ForUser(interactions, FindUser(username).value.id));
        && history.views == EntriesOfKind(mine, "view")
        && history.likes == EntriesOfKind(mine, "like")
        && history.ratings == EntriesOfKind(mine, "rate")
    {
      var user := FirstNamed(users, username);
      if user.None? {
        return History([], [], []);
      }
      var mine := Reverse(ForUser(interactions, user.value.id));
      var views, likes, ratings := [], [], [];
      for i := 0 to |mine|
        invariant views == EntriesOfKind(mine[..i], "view")
        invariant likes == EntriesOfKind(mine[..i], "like")
        invariant ratings == EntriesOfKind(mine[..i], "rate")
      {
        var entry := EntryOf(mine[i]);
        BucketStep(mine, i, "view");
        BucketStep(mine, i, "like");
        BucketStep(mine, i, "rate");
        if mine[i].kind == "view" {
          views := views + [entry];
        } else if mine[i].kind == "like" {
          likes := likes + [entry];
        } else if mine[i].kind == "rate" {
          ratings := ratings + [entry];
        }
      }
      assert mine[..|mine|] == mine;
      history := History(views, likes, ratings);
    }

    /** `get_user_preferences`: `{}` for an unknown user, otherwise the user's map from
        category id to score, which is category 1 with the number of bumping
        interactions, or empty when there were none. */
    method GetUserPreferences(username: string) returns (prefs: map<int, real>)
      requires Valid()
      ensures FindUser(username).None? ==> prefs == map[]
      ensures FindUser(username).Some? ==>
        var n := BumpCount(interactions, FindUser(username).value.id);
        prefs == if n > 0 then map[PreferenceCategory := n as real] else map[]
      ensures forall c :: c in prefs ==> c == PreferenceCategory && prefs[c] >= 1.0
    {
      var user := FirstNamed(users, username);
      if user.None? {
        return map[];
      }
      prefs := if user.value.id in preferences then preferences[user.value.id] else map[];
    }
  }

  /** The first user with the given name. */
  function FirstNamed(users: seq<User>, username: string): (r: Option<User>)
    ensures r.Some? <==> exists i :: 0 <= i < |users| && users[i].username == username
    ensures r.Some? ==> exists i :: 0 <= i < |users| && users[i] == r.value && r.value.username == username
  {
    if users == [] then None
    else if users[0].username == username then Some(users[0])
    else
      var r := FirstNamed(users[1..], username);
      assert forall i :: 0 < i < |users| ==> users[i] == users[1..][i - 1];
      r
  }

  /** A user appended after no user of that name is the one found. */
  lemma {:induction false} FirstNamedAppend(users: seq<User>, u: User)
    requires FirstNamed(users, u.username).None?
    ensures FirstNamed(users + [u], u.username) == Some(u)
  {
    if users != [] {
      assert (users + [u])[1..] == users[1..] + [u];
      FirstNamedAppend(users[1..], u);
    }
  }
}
