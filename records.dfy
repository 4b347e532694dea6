/** The records of the snapshot the recommendation engine is built from. The upstream
    sends loosely typed JSON objects; each field the engine reads becomes a datatype
    field whose constructors tell apart the cases the engine's code treats differently. */
module Records {
  import opened Wrappers

  /** A numeric field read with `float(post.get(name, 0))`: absent (counts as 0), a
      value `float()` accepts, or a present value `float()` rejects (it raises). */
  datatype NumField = Absent | Num(v: real) | Bad

  /** The `category` field of a post: absent (`{}` is used instead), an object whose
      `id` may be missing, or a present value that is not an object (`.get` raises). */
  datatype CategoryField = NoCategory | Category(id: Option<int>) | NotAnObject

  /** One element of `post_summary.emotions`: a string, or anything else
      (`.lower()` raises on it). */
  datatype Tag = Text(s: string) | NonText

  /** The `emotions` field of a post summary: absent (`[]` is used instead), a list, or
      a present value that is not a list. */
  datatype EmotionsField = NoEmotions | Emotions(tags: seq<Tag>) | NotAList

  /** The `post_summary` field: absent (`{}` is used instead), an object, or a present
      value that is not an object (`.get` raises). */
  datatype SummaryField = NoSummary | Summary(emotions: EmotionsField) | BadSummary

  /** A post. `id` is the string key `str(post['id'])`. `createdAt` is in milliseconds
      since the epoch, and its constructors follow the recency code rather than
      `float()`: `Absent` also stands for a present but falsy value, `Num` for a number,
      and `Bad` for a truthy value on which `/ 1000.0` raises (a string, say). A number
      that `datetime.fromtimestamp` rejects is a `Num`; the score tells it apart. */
  datatype Post = Post(
    id: string,
    category: CategoryField,
    viewCount: NumField,
    upvoteCount: NumField,
    shareCount: NumField,
    averageRating: NumField,
    createdAt: NumField,
    summary: SummaryField,
    engagementScore: NumField)

  /** One interaction event. `id` and `postId` are the strings `str(...)` gives for the
      fields when present; `username` is present only when it is a string. */
  datatype Event = Event(
    id: Option<string>,
    postId: Option<string>,
    username: Option<string>,
    rating: NumField)

  /** One entry of the `interactions` mapping: a type name and its events. */
  datatype InteractionList = InteractionList(kind: string, events: seq<Event>)

  /** An upstream user record; the engine keeps the list but never reads it. */
  datatype UserRecord = UserRecord(id: Option<string>, username: Option<string>)

  /** The snapshot the engine is built from. The entries of `interactions` are in the
      order of the source mapping, one per type name. */
  datatype Snapshot = Snapshot(
    posts: seq<Post>,
    users: seq<UserRecord>,
    interactions: seq<InteractionList>)
}
