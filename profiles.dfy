/** The interest profiles the engine builds from the interaction snapshot: for each
    user key, a map from post key to an accumulated weight. This module gives the
    specification as a fold over the events in iteration order; the loop that builds
    the profiles in place is `Engine.BuildUserProfiles`. */
module Profiles {
  import opened Wrappers
  import opened Records

  type Profile = map<string, real>
  type ProfileMap = map<string, Profile>

  /** One event together with the name of the list it came from. */
  datatype Tagged = Tagged(kind: string, event: Event)

  /** The fixed per-type weight; an unknown type name weighs 1. */
  function BaseWeight(kind: string): (w: real)
    ensures w >= 1.0
    ensures kind !in {"viewed", "liked", "inspired", "rated"} ==> w == 1.0
  {
    if kind == "viewed" then 1.0
    else if kind == "liked" then 3.0
    else if kind == "inspired" then 4.0
    else if kind == "rated" then 2.0
    else 1.0
  }

  /** The user key `str(interaction.get('id', ''))`: the event's `id`, not its user id. */
  function UserKey(e: Event): string { e.id.GetOr("") }

  /** The post key `str(interaction.get('post_id', ''))`. */
  function PostKey(e: Event): string { e.postId.GetOr("") }

  /** Events with an empty user key or post key are skipped. */
  predicate Counted(e: Event) { UserKey(e) != "" && PostKey(e) != "" }

  /** The weight one event adds, or None when reading its rating raises. Only a `rated`
      event reads its rating; a missing rating counts as 0. */
  function Weight(kind: string, e: Event): Option<real> {
    if kind == "rated" then
      match e.rating
      case Absent => Some(BaseWeight(kind) * (1.0 + 0.0 / 100.0))
      case Num(r) => Some(BaseWeight(kind) * (1.0 + r / 100.0))
      case Bad => None
    else Some(BaseWeight(kind))
  }

  /** A `rated` event fails exactly when its rating is unreadable; otherwise it weighs
      2 scaled by `1 + rating / 100`, with a missing rating read as 0. */
  lemma RatedWeight(e: Event)
    ensures Weight("rated", e).None? <==> e.rating.Bad?
    ensures !e.rating.Bad? ==>
      var r := if e.rating.Num? then e.rating.v else 0.0;
      Weight("rated", e) == Some(2.0 * (1.0 + r / 100.0))
  {
  }

  /** `profiles[u][pid] += w`, creating the inner map and the entry (at 0) when absent. */
  function AddWeight(p: ProfileMap, u: string, pid: string, w: real): ProfileMap {
    var prof := if u in p then p[u] else map[];
    p[u := prof[pid := (if pid in prof then prof[pid] else 0.0) + w]]
  }

  /** The effect of one event, or None when it raises. */
  function Step(p: ProfileMap, t: Tagged): Option<ProfileMap> {
    if !Counted(t.event) then Some(p)
    else match Weight(t.kind, t.event)
      case None => None
      case Some(w) => Some(AddWeight(p, UserKey(t.event), PostKey(t.event), w))
  }

  /** The profiles after the events `ts`, in order, starting from no profiles; None
      once some event raised. */
  function Accumulate(ts: seq<Tagged>): Option<ProfileMap>
    decreases |ts|
  {
    if ts == [] then Some(map[])
    else match Accumulate(ts[..|ts| - 1])
      case None => None
      case Some(p) => Step(p, ts[|ts| - 1])
  }

  function TagEvents(g: InteractionList): (r: seq<Tagged>)
    ensures |r| == |g.events|
    ensures forall i :: 0 <= i < |r| ==> r[i] == Tagged(g.kind, g.events[i])
  {
    seq(|g.events|, i requires 0 <= i < |g.events| => Tagged(g.kind, g.events[i]))
  }

  /** All events of all lists, list by list, in order. */
  function Flatten(gs: seq<InteractionList>): seq<Tagged>
    decreases |gs|
  {
    if gs == [] then [] else Flatten(gs[..|gs| - 1]) + TagEvents(gs[|gs| - 1])
  }

  /** `_build_user_profiles`: a raised exception gives no profiles at all. */
  function BuildProfiles(gs: seq<InteractionList>): ProfileMap {
    Accumulate(Flatten(gs)).GetOr(map[])
  }

  // ---------------------------------------------------------------------------
  // Reference definitions

  /** A counted event whose rating cannot be read. */
  predicate Malformed(t: Tagged) { Counted(t.event) && Weight(t.kind, t.event).None? }

  /** A counted event on the pair (u, pid). */
  predicate Hits(t: Tagged, u: string, pid: string) {
    Counted(t.event) && UserKey(t.event) == u && PostKey(t.event) == pid
  }

  /** The sum of the weights of the events on the pair (u, pid). */
  function TotalWeight(ts: seq<Tagged>, u: string, pid: string): real
    decreases |ts|
  {
    if ts == [] then 0.0
    else
      var last := ts[|ts| - 1];
      TotalWeight(ts[..|ts| - 1], u, pid)
        + (if Hits(last, u, pid) then Weight(last.kind, last.event).GetOr(0.0) else 0.0)
  }

  // ---------------------------------------------------------------------------
  // Properties

  /** Building fails exactly when some counted event has a rating that cannot be read. */
  lemma {:induction false} AccumulateFailsIff(ts: seq<Tagged>)
    ensures Accumulate(ts).None? <==> exists i :: 0 <= i < |ts| && Malformed(ts[i])
  {
    if ts != [] {
      var init := ts[..|ts| - 1];
      AccumulateFailsIff(init);
      if exists i :: 0 <= i < |init| && Malformed(init[i]) {
        var i :| 0 <= i < |init| && Malformed(init[i]);
        assert ts[i] == init[i];
      }
      if exists i :: 0 <= i < |ts| && Malformed(ts[i]) {
        var i :| 0 <= i < |ts| && Malformed(ts[i]);
        if i < |init| {
          assert init[i] == ts[i];
        }
      }
    }
  }

  /** Accumulating one more event is one more step. */
  lemma AccumulateSnoc(init: seq<Tagged>, t: Tagged, q: ProfileMap)
    requires Accumulate(init) == Some(q)
    ensures Accumulate(init + [t]) == Step(q, t)
  {
    assert (init + [t])[..|init|] == init;
  }

  /** Creating an empty profile first does not change what adding a weight gives. */
  lemma AddWeightAfterCreate(p: ProfileMap, u: string, pid: string, w: real)
    ensures AddWeight(p[u := if u in p then p[u] else map[]], u, pid, w) == AddWeight(p, u, pid, w)
  {
    var prof := if u in p then p[u] else map[];
    var entry := prof[pid := (if pid in prof then prof[pid] else 0.0) + w];
    assert p[u := prof][u := entry] == p[u := entry];
  }

  /** One event adds its weight to its own pair and touches nothing else. */
  lemma StepEffect(q: ProfileMap, t: Tagged, p: ProfileMap, u: string, pid: string)
    requires Step(q, t) == Some(p)
    ensures u in p <==> u in q || (Counted(t.event) && UserKey(t.event) == u)
    ensures u in p ==> (pid in p[u] <==> (u in q && pid in q[u]) || Hits(t, u, pid))
    ensures u in p && pid in p[u] ==>
      p[u][pid] == (if u in q && pid in q[u] then q[u][pid] else 0.0)
                   + (if Hits(t, u, pid) then Weight(t.kind, t.event).GetOr(0.0) else 0.0)
  {
  }

  /** The keys are exactly the users and pairs some counted event names. */
  lemma {:induction false} AccumulateKeys(ts: seq<Tagged>, p: ProfileMap, u: string, pid: string)
    requires Accumulate(ts) == Some(p)
    ensures u in p <==> exists i :: 0 <= i < |ts| && Counted(ts[i].event) && UserKey(ts[i].event) == u
    ensures u in p ==> (pid in p[u] <==> exists i :: 0 <= i < |ts| && Hits(ts[i], u, pid))
  {
    if ts != [] {
      var init := ts[..|ts| - 1];
      var last := ts[|ts| - 1];
      var q := Accumulate(init).value;
      AccumulateKeys(init, q, u, pid);
      StepEffect(q, last, p, u, pid);
      forall i | 0 <= i < |init| ensures init[i] == ts[i] { }
      if exists i :: 0 <= i < |ts| && Counted(ts[i].event) && UserKey(ts[i].event) == u {
        var i :| 0 <= i < |ts| && Counted(ts[i].event) && UserKey(ts[i].event) == u;
        if i < |init| { assert Counted(init[i].event) && UserKey(init[i].event) == u; }
      }
      if exists i :: 0 <= i < |ts| && Hits(ts[i], u, pid) {
        var i :| 0 <= i < |ts| && Hits(ts[i], u, pid);
        if i < |init| { assert Hits(init[i], u, pid); }
      }
    }
  }

  /** Each profile entry is the sum of the weights of the events on its pair; a pair
      without an entry has no weight at all. */
  lemma {:induction false} AccumulateIsSum(ts: seq<Tagged>, p: ProfileMap, u: string, pid: string)
    requires Accumulate(ts) == Some(p)
    ensures u in p && pid in p[u] ==> p[u][pid] == TotalWeight(ts, u, pid)
    ensures !(u in p && pid in p[u]) ==> TotalWeight(ts, u, pid) == 0.0
  {
    if ts != [] {
      var init := ts[..|ts| - 1];
      var last := ts[|ts| - 1];
      var q := Accumulate(init).value;
      AccumulateIsSum(init, q, u, pid);
      StepEffect(q, last, p, u, pid);
    }
  }

  /** All entries are positive when every counted `rated` event has a rating above -100
      (in particular a non-negative one) or none. */
  lemma {:induction false} AccumulatePositive(ts: seq<Tagged>, p: ProfileMap)
    requires forall i :: 0 <= i < |ts| && Counted(ts[i].event) && ts[i].kind == "rated" && ts[i].event.rating.Num?
               ==> ts[i].event.rating.v > -100.0
    requires Accumulate(ts) == Some(p)
    ensures forall u, pid :: u in p && pid in p[u] ==> p[u][pid] > 0.0
  {
    if ts != [] {
      var init := ts[..|ts| - 1];
      var last := ts[|ts| - 1];
      forall i | 0 <= i < |init| ensures init[i] == ts[i] { }
      var q := Accumulate(init).value;
      AccumulatePositive(init, q);
      if Counted(last.event) {
        var w := Weight(last.kind, last.event).value;
        assert w > 0.0;
      }
    }
  }

  /** With non-negative weights, a later fold keeps every key of an earlier one and
      never lowers an entry: profiles only grow. */
  lemma {:induction false} AccumulateGrows(ts: seq<Tagged>, k: nat, p: ProfileMap)
    requires k <= |ts|
    requires forall i :: 0 <= i < |ts| && Counted(ts[i].event) && ts[i].kind == "rated" && ts[i].event.rating.Num?
               ==> ts[i].event.rating.v >= -100.0
    requires Accumulate(ts) == Some(p)
    ensures Accumulate(ts[..k]).Some?
    ensures forall u, pid :: u in Accumulate(ts[..k]).value && pid in Accumulate(ts[..k]).value[u]
              ==> u in p && pid in p[u] && Accumulate(ts[..k]).value[u][pid] <= p[u][pid]
    decreases |ts|
  {
    if k == |ts| {
      assert ts[..k] == ts;
    } else {
      var init := ts[..|ts| - 1];
      var last := ts[|ts| - 1];
      forall i | 0 <= i < |init| ensures init[i] == ts[i] { }
      var q := Accumulate(init).value;
      AccumulateGrows(init, k, q);
      assert init[..k] == ts[..k];
      if Counted(last.event) {
        var w := Weight(last.kind, last.event).value;
        assert w >= 0.0;
      }
    }
  }

  /** The same event twice on a pair adds its weight twice: repetitions accumulate. */
  lemma RepeatedEventAddsUp(ts: seq<Tagged>, t: Tagged, p: ProfileMap, w: real)
    requires Accumulate(ts) == Some(p) && Counted(t.event) && Weight(t.kind, t.event) == Some(w)
    ensures var u, pid := UserKey(t.event), PostKey(t.event);
      && Accumulate(ts + [t, t]).Some?
      && u in Accumulate(ts + [t, t]).value
      && pid in Accumulate(ts + [t, t]).value[u]
      && Accumulate(ts + [t, t]).value[u][pid]
         == (if u in p && pid in p[u] then p[u][pid] else 0.0) + 2.0 * w
  {
    var ts2 := ts + [t, t];
    assert ts2[..|ts2| - 1] == ts + [t];
    assert (ts + [t])[..|ts|] == ts;
  }

  /** The profiles of a snapshot: empty when some counted event has an unreadable
      rating; otherwise one profile per user key of a counted event, and each entry the
      total weight of the events on its pair. */
  lemma BuildProfilesSpec(gs: seq<InteractionList>, u: string, pid: string)
    ensures (exists i :: 0 <= i < |Flatten(gs)| && Malformed(Flatten(gs)[i])) ==> BuildProfiles(gs) == map[]
    ensures (forall i :: 0 <= i < |Flatten(gs)| ==> !Malformed(Flatten(gs)[i])) ==>
      var ts, p := Flatten(gs), BuildProfiles(gs);
      && (u in p <==> exists i :: 0 <= i < |ts| && Counted(ts[i].event) && UserKey(ts[i].event) == u)
      && (u in p && pid in p[u] ==> p[u][pid] == TotalWeight(ts, u, pid))
  {
    var ts := Flatten(gs);
    AccumulateFailsIff(ts);
    if Accumulate(ts).Some? {
      BuildProfilesEntries(gs, ts, Accumulate(ts).value, u, pid);
    }
  }

  lemma BuildProfilesEntries(gs: seq<InteractionList>, ts: seq<Tagged>, p: ProfileMap, u: string, pid: string)
    requires ts == Flatten(gs) && Accumulate(ts) == Some(p)
    ensures BuildProfiles(gs) == p
    ensures u in p <==> exists i :: 0 <= i < |ts| && Counted(ts[i].event) && UserKey(ts[i].event) == u
    ensures u in p && pid in p[u] ==> p[u][pid] == TotalWeight(ts, u, pid)
  {
    AccumulateKeys(ts, p, u, pid);
    AccumulateIsSum(ts, p, u, pid);
  }

  // ---------------------------------------------------------------------------
  // Facts about prefixes, used by the loop in the engine

  lemma {:induction false} FlattenStep(gs: seq<InteractionList>, i: nat)
    requires i < |gs|
    ensures Flatten(gs[..i + 1]) == Flatten(gs[..i]) + TagEvents(gs[i])
  {
    assert gs[..i + 1][..i] == gs[..i];
  }

  lemma {:induction false} FlattenPrefix(gs: seq<InteractionList>, i: nat)
    requires i <= |gs|
    ensures |Flatten(gs[..i])| <= |Flatten(gs)|
    ensures Flatten(gs[..i]) == Flatten(gs)[..|Flatten(gs[..i])|]
    decreases |gs|
  {
    if i == |gs| {
      assert gs[..i] == gs;
    } else {
      var init := gs[..|gs| - 1];
      FlattenPrefix(init, i);
      assert init[..i] == gs[..i];
    }
  }

  lemma {:induction false} AccumulateNoneExtends(ts: seq<Tagged>, k: nat)
    requires k <= |ts| && Accumulate(ts[..k]).None?
    ensures Accumulate(ts).None?
    decreases |ts|
  {
    if k < |ts| {
      var init := ts[..|ts| - 1];
      assert init[..k] == ts[..k];
      AccumulateNoneExtends(init, k);
    } else {
      assert ts[..k] == ts;
    }
  }
}
