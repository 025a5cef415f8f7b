/** The rows the four bulk fetches return, reduced to the fields that matter for
    keying a batch: every entity has an `id`; a post points at its author, a
    profile at its user and its member type. Floating-point columns are not
    modelled. */
module Entities {

  type Key = string

  datatype Option<T> = None | Some(value: T)

  /** The four entity types a loader can be built for. */
  datatype Entity = User | Post | Profile | MemberType

  /** The properties a loader may be keyed on or may filter by. */
  datatype KeyProp = Id | AuthorId | UserId | MemberTypeId

  /** One subscription edge included with a fetched user. */
  datatype SubscribedEdge = SubscribedEdge(subscriberId: Key, authorId: Key)

  /** A fetched row. A user row carries its two subscription lists; the edges in
      them have an `authorId`, the user row itself does not. */
  datatype Row =
    | UserRow(id: Key, name: string, userSubscribedTo: seq<SubscribedEdge>, subscribedToUser: seq<SubscribedEdge>)
    | PostRow(id: Key, title: string, content: string, authorId: Key)
    | ProfileRow(id: Key, isMale: bool, yearOfBirth: int, userId: Key, memberTypeId: Key)
    | MemberTypeRow(id: Key, postsLimitPerMonth: int)

  function EntityOf(r: Row): Entity
  {
    match r
    case UserRow(_, _, _, _) => User
    case PostRow(_, _, _, _) => Post
    case ProfileRow(_, _, _, _, _) => Profile
    case MemberTypeRow(_, _) => MemberType
  }

  /** Whether rows of entity `e` have property `p` at the top level. */
  predicate EntityHasProp(e: Entity, p: KeyProp)
  {
    match p
    case Id => true
    case AuthorId => e == Post
    case UserId => e == Profile
    case MemberTypeId => e == Profile
  }

  /** `p in r`: the property test the batch function makes on a row. */
  predicate HasProp(r: Row, p: KeyProp)
  {
    EntityHasProp(EntityOf(r), p)
  }

  /** `r[p]`, for a property the row has. */
  function KeyOf(r: Row, p: KeyProp): Key
    requires HasProp(r, p)
  {
    match p
    case Id => r.id
    case AuthorId => r.authorId
    case UserId => r.userId
    case MemberTypeId => r.memberTypeId
  }

  /** `'authorId' in item`: the shape test that makes a row grouped rather than
      stored singly. */
  predicate IsFanOutRow(r: Row)
  {
    HasProp(r, AuthorId)
  }

  /** Whether the rows of entity `e` pass that test. */
  predicate FanOutEntity(e: Entity)
  {
    EntityHasProp(e, AuthorId)
  }

  /** Only post rows are grouped; a user row is not, even though the
      subscription edges it includes carry an `authorId`. */
  lemma FanOutRowsArePosts(r: Row)
    ensures IsFanOutRow(r) <==> r.PostRow?
  {
  }
}
