/** The response-shape normalisation that `DataFetcher.fetch_data` applies to a decoded
    JSON body: whatever the upstream returns, the caller receives a list of objects. */
module ResponseShape {

  /** A decoded JSON value. */
  datatype Json =
    | JNull
    | JBool(b: bool)
    | JNumber(n: real)
    | JString(s: string)
    | JArray(items: seq<Json>)
    | JObject(fields: map<string, Json>)

  /** The outcome of one HTTP GET: any exception on the way (transport error, an error
      status rejected by `raise_for_status`, a body that is not JSON) or a decoded body. */
  datatype Response = Failed | Body(json: Json)

  /** Python truthiness of a JSON value. */
  predicate Truthy(v: Json) {
    match v
    case JNull => false
    case JBool(b) => b
    case JNumber(n) => n != 0.0
    case JString(s) => s != ""
    case JArray(xs) => xs != []
    case JObject(m) => m != map[]
  }

  /** The list comprehension `[r for r in result if isinstance(r, dict)]`. */
  function ObjectsIn(xs: seq<Json>): (r: seq<Json>)
    ensures |r| <= |xs|
    ensures forall x :: x in r ==> x.JObject? && x in xs
  {
    if xs == [] then []
    else if xs[0].JObject? then [xs[0]] + ObjectsIn(xs[1..])
    else ObjectsIn(xs[1..])
  }

  /** The final step: a list is filtered down to its objects, anything else becomes `[]`. */
  function KeepObjects(v: Json): (r: seq<Json>)
    ensures forall x :: x in r ==> x.JObject?
    ensures !v.JArray? ==> r == []
  {
    match v
    case JArray(xs) => ObjectsIn(xs)
    case _ => []
  }

  /** The value the branches select before the final filter. Defined for every shape
      except the empty object, which returns `[]` before any selection. */
  function Selected(data: Json): Json
    requires data != JObject(map[])
  {
    match data
    case JObject(m) =>
      if "posts" in m then m["posts"]
      else if "data" in m then m["data"]
      else JArray([data])
    case JArray(_) => data
    case _ => if Truthy(data) then JArray([data]) else JArray([])
  }

  /** The normalisation of a decoded body into a list of objects. */
  function Normalise(data: Json): (r: seq<Json>)
    ensures forall x :: x in r ==> x.JObject?
  {
    if data == JObject(map[]) then [] else KeepObjects(Selected(data))
  }

  /** `fetch_data`: every failure gives the empty list. */
  function FetchData(resp: Response): (r: seq<Json>)
    ensures resp.Failed? ==> r == []
    ensures forall x :: x in r ==> x.JObject?
  {
    match resp
    case Failed => []
    case Body(json) => Normalise(json)
  }

  // ---------------------------------------------------------------------------
  // Properties of the object filter

  /** The filter distributes over concatenation, so it keeps the original order. */
  lemma {:induction false} ObjectsInAppend(a: seq<Json>, b: seq<Json>)
    ensures ObjectsIn(a + b) == ObjectsIn(a) + ObjectsIn(b)
  {
    if a == [] {
      assert a + b == b;
    } else {
      assert (a + b)[1..] == a[1..] + b;
      ObjectsInAppend(a[1..], b);
    }
  }

  /** Every object of the input is kept, exactly as often as it occurs; nothing else is. */
  lemma {:induction false} ObjectsInCounts(xs: seq<Json>, x: Json)
    ensures multiset(ObjectsIn(xs))[x] == if x.JObject? then multiset(xs)[x] else 0
  {
    if xs != [] {
      ObjectsInCounts(xs[1..], x);
      assert xs == [xs[0]] + xs[1..];
    }
  }

  /** A list made only of objects passes through unchanged. */
  lemma {:induction false} ObjectsInAllObjects(xs: seq<Json>)
    requires forall i :: 0 <= i < |xs| ==> xs[i].JObject?
    ensures ObjectsIn(xs) == xs
  {
    if xs != [] {
      ObjectsInAllObjects(xs[1..]);
    }
  }

  /** Filtering twice is filtering once. */
  lemma ObjectsInIdempotent(xs: seq<Json>)
    ensures ObjectsIn(ObjectsIn(xs)) == ObjectsIn(xs)
  {
    var r := ObjectsIn(xs);
    assert forall i :: 0 <= i < |r| ==> r[i] in r;
    ObjectsInAllObjects(r);
  }

  // ---------------------------------------------------------------------------
  // Properties of the normalisation

  lemma NormaliseEmptyObject()
    ensures Normalise(JObject(map[])) == []
  {
  }

  /** With a `posts` key the result is the objects of that value, and a `data` key
      beside it makes no difference. */
  lemma NormalisePostsFirst(m: map<string, Json>)
    requires "posts" in m
    ensures Normalise(JObject(m)) == KeepObjects(m["posts"])
    ensures Normalise(JObject(m)) == Normalise(JObject(m - {"data"}))
  {
    assert "posts" in m - {"data"};
  }

  /** Without `posts`, a `data` key is used. */
  lemma NormaliseDataKey(m: map<string, Json>)
    requires "posts" !in m && "data" in m
    ensures Normalise(JObject(m)) == KeepObjects(m["data"])
  {
  }

  /** A non-empty object with neither key is itself the one element of the result. */
  lemma NormaliseBareObject(m: map<string, Json>)
    requires m != map[] && "posts" !in m && "data" !in m
    ensures Normalise(JObject(m)) == [JObject(m)]
  {
  }

  /** A top-level list keeps its objects, in order. */
  lemma NormaliseList(xs: seq<Json>)
    ensures Normalise(JArray(xs)) == ObjectsIn(xs)
  {
  }

  /** A scalar body, truthy or not, ends up as the empty list. */
  lemma NormaliseScalar(v: Json)
    requires !v.JArray? && !v.JObject?
    ensures Normalise(v) == []
  {
    if Truthy(v) {
      assert ObjectsIn([v]) == ObjectsIn([v][1..]);
    }
  }

  /** Whichever branch selected it (`posts`, `data`), a selected value that is not a
      list gives the empty list. */
  lemma NormaliseSelectedNotList(data: Json)
    requires data != JObject(map[]) && !Selected(data).JArray?
    ensures Normalise(data) == []
    ensures data.JObject? && ("posts" in data.fields || "data" in data.fields)
  {
  }

  /** The result is never longer than the list the branches selected. */
  lemma NormaliseBounded(data: Json)
    requires data != JObject(map[]) && Selected(data).JArray?
    ensures |Normalise(data)| <= |Selected(data).items|
  {
  }

  /** The table of response shapes and expected lengths: the wrapped forms. */
  lemma ResponseFormatWrapped(o: map<string, Json>)
    requires o == map["id" := JNumber(1.0)]
    ensures |Normalise(JObject(map["posts" := JArray([JObject(o)])]))| == 1
    ensures |Normalise(JObject(map["data" := JArray([JObject(o), JObject(o)])]))| == 2
  {
    var one := JObject(o);
    var withPosts := map["posts" := JArray([one])];
    var withData := map["data" := JArray([one, one])];
    assert "posts" in withPosts;
    assert "posts" !in withData && "data" in withData;
    NormalisePostsFirst(withPosts);
    NormaliseDataKey(withData);
    ObjectsInAllObjects([one]);
    ObjectsInAllObjects([one, one]);
  }

  /** The table of response shapes and expected lengths: the bare forms. */
  lemma ResponseFormatBare(o: map<string, Json>)
    requires o == map["id" := JNumber(1.0)]
    ensures |Normalise(JArray([JObject(o), JObject(o), JObject(o)]))| == 3
    ensures |Normalise(JObject(o))| == 1
    ensures |Normalise(JObject(map[]))| == 0
    ensures |Normalise(JArray([]))| == 0
  {
    var one := JObject(o);
    assert "id" in o;
    NormaliseList([one, one, one]);
    ObjectsInAllObjects([one, one, one]);
    NormaliseBareObject(o);
  }
}
