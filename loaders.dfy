/** The four loaders `createDataLoaders` builds. Each is `createDataLoader`
    applied to a bulk fetch (one `findMany` on one table, filtered by one
    property with `in keys`) and to the property its batch map is keyed on. */
module Loaders {
  import opened Entities
  import opened Batch

  /** What `createDataLoader` is given: the entity its fetch returns, the
      property the fetch filters by, and the key property `keyProp`. */
  datatype Loader = Loader(entity: Entity, filterProp: KeyProp, keyProp: KeyProp)

  /** The loader's rows have its key property, and it groups on the same
      property its fetch filters by. */
  predicate WellFormed(l: Loader)
  {
    EntityHasProp(l.entity, l.keyProp) && l.filterProp == l.keyProp
  }

  function CreateUserLoader(): (l: Loader)
    ensures WellFormed(l) && l.entity == User && l.keyProp == Id && !FanOutEntity(l.entity)
  {
    Loader(User, Id, Id)
  }

  function CreatePostLoader(): (l: Loader)
    ensures WellFormed(l) && l.entity == Post && l.keyProp == AuthorId && FanOutEntity(l.entity)
  {
    Loader(Post, AuthorId, AuthorId)
  }

  function CreateProfileLoader(): (l: Loader)
    ensures WellFormed(l) && l.entity == Profile && l.keyProp == UserId && !FanOutEntity(l.entity)
  {
    Loader(Profile, UserId, UserId)
  }

  function CreateMemberTypeLoader(): (l: Loader)
    ensures WellFormed(l) && l.entity == MemberType && l.keyProp == Id && !FanOutEntity(l.entity)
  {
    Loader(MemberType, Id, Id)
  }

  /** The record `createDataLoaders` returns. */
  datatype DataLoaders = DataLoaders(user: Loader, post: Loader, profile: Loader, memberType: Loader)

  function CreateDataLoaders(): (d: DataLoaders)
    ensures WellFormed(d.user) && WellFormed(d.post) && WellFormed(d.profile) && WellFormed(d.memberType)
    ensures d.user.entity == User && d.post.entity == Post
    ensures d.profile.entity == Profile && d.memberType.entity == MemberType
    ensures FanOutEntity(d.post.entity)
    ensures !FanOutEntity(d.user.entity) && !FanOutEntity(d.profile.entity) && !FanOutEntity(d.memberType.entity)
  {
    DataLoaders(CreateUserLoader(), CreatePostLoader(), CreateProfileLoader(), CreateMemberTypeLoader())
  }

  // ---------------------------------------------------------------------------
  // The bulk fetch

  /** What a loader's fetch promises about the rows it returns for `keys`:
      rows of the loader's entity whose filter property is a requested key. */
  predicate FetchContract(l: Loader, keys: seq<Key>, rows: seq<Row>)
  {
    forall r :: r in rows ==> EntityOf(r) == l.entity && HasProp(r, l.filterProp) && KeyOf(r, l.filterProp) in keys
  }

  /** `findMany({ where: { <filterProp>: { in: keys } } })` over a table held
      as a sequence: the rows of the loader's entity whose filter property is
      a requested key, in table order. */
  function FindMany(l: Loader, table: seq<Row>, keys: seq<Key>): (rows: seq<Row>)
    requires EntityHasProp(l.entity, l.filterProp)
    ensures FetchContract(l, keys, rows)
    ensures forall r :: r in table && EntityOf(r) == l.entity && KeyOf(r, l.filterProp) in keys ==> r in rows
    ensures forall r :: r in rows ==> r in table
    decreases |table|
  {
    if table == [] then []
    else
      var r := table[0];
      (if EntityOf(r) == l.entity && KeyOf(r, l.filterProp) in keys then [r] else [])
      + FindMany(l, table[1..], keys)
  }

  /** The rows of a well-formed loader's fetch are fit for its batch function. */
  lemma FetchedRowsTyped(l: Loader, keys: seq<Key>, rows: seq<Row>)
    requires WellFormed(l) && FetchContract(l, keys, rows)
    ensures Typed(rows, l.entity, l.keyProp)
    ensures forall r :: r in rows ==> KeyOf(r, l.keyProp) in keys
  {
  }

  // ---------------------------------------------------------------------------
  // What a loader answers

  /** Each answer of a well-formed loader: nothing when no fetched row has the
      key; a group of exactly the fetched rows with the key when the loader is
      the post loader; otherwise a single fetched row with the key. */
  lemma LoaderAnswers(l: Loader, keys: seq<Key>, rows: seq<Row>, i: nat)
    requires WellFormed(l) && FetchContract(l, keys, rows) && i < |keys|
    ensures Typed(rows, l.entity, l.keyProp)
    ensures Reshape(keys, rows, l.entity, l.keyProp)[i] == None <==>
              forall r :: r in rows ==> KeyOf(r, l.keyProp) != keys[i]
    ensures Reshape(keys, rows, l.entity, l.keyProp)[i].Some? ==>
              (Reshape(keys, rows, l.entity, l.keyProp)[i].value.Group? <==> l.entity == Post)
  {
    AnswerShape(keys, rows, l.entity, l.keyProp, i);
  }

  /** Under the fetch contract every fetched row lands under a requested key:
      each position asking for its key gets an answer, and for posts the row
      is in that answer's group. */
  lemma NothingWasted(l: Loader, keys: seq<Key>, rows: seq<Row>)
    requires WellFormed(l) && FetchContract(l, keys, rows)
    ensures Typed(rows, l.entity, l.keyProp)
    ensures forall r :: r in rows ==> KeyOf(r, l.keyProp) in keys
    ensures forall r, i :: r in rows && 0 <= i < |keys| && keys[i] == KeyOf(r, l.keyProp) ==>
              Reshape(keys, rows, l.entity, l.keyProp)[i].Some? &&
              (l.entity == Post ==> r in Reshape(keys, rows, l.entity, l.keyProp)[i].value.rows)
  {
    forall r, i | r in rows && 0 <= i < |keys| && keys[i] == KeyOf(r, l.keyProp)
      ensures Reshape(keys, rows, l.entity, l.keyProp)[i].Some?
      ensures l.entity == Post ==> r in Reshape(keys, rows, l.entity, l.keyProp)[i].value.rows
    {
      AnswerShape(keys, rows, l.entity, l.keyProp, i);
    }
  }

  /** With each author asked for once, the post loader's answers together hold
      every fetched post exactly once. */
  lemma PostLoaderKeepsEveryPost(keys: seq<Key>, rows: seq<Row>)
    requires FetchContract(CreatePostLoader(), keys, rows) && Distinct(keys)
    ensures multiset(Flatten(Reshape(keys, rows, Post, AuthorId))) == multiset(rows)
    ensures |Flatten(Reshape(keys, rows, Post, AuthorId))| == |rows|
  {
    FetchedRowsTyped(CreatePostLoader(), keys, rows);
    FanOutPartitionsRows(keys, rows, Post, AuthorId);
  }

  /** End to end for posts: the post loader, over what `findMany` returns from
      the post table, answers an author with exactly that author's posts. */
  lemma PostLoaderFindsAuthorsPosts(table: seq<Row>, keys: seq<Key>, i: nat)
    requires i < |keys|
    ensures var rows := FindMany(CreatePostLoader(), table, keys);
            var answer := Reshape(keys, rows, Post, AuthorId)[i];
            (answer == None <==> forall r :: r in table && r.PostRow? ==> r.authorId != keys[i]) &&
            (answer.Some? ==>
               (answer.value.Group? &&
                forall r :: r in answer.value.rows <==> r in table && r.PostRow? && r.authorId == keys[i]))
  {
    var l := CreatePostLoader();
    var rows := FindMany(l, table, keys);
    LoaderAnswers(l, keys, rows, i);
    AnswerShape(keys, rows, Post, AuthorId, i);
  }

  /** End to end for users: the user loader answers an id with a user row of
      that id from the table, and with nothing when the table has none. */
  lemma UserLoaderFindsUser(table: seq<Row>, keys: seq<Key>, i: nat)
    requires i < |keys|
    ensures var rows := FindMany(CreateUserLoader(), table, keys);
            var answer := Reshape(keys, rows, User, Id)[i];
            (answer == None <==> forall r :: r in table && r.UserRow? ==> r.id != keys[i]) &&
            (answer.Some? ==>
               (answer.value.Single? &&
                answer.value.row in table && answer.value.row.UserRow? && answer.value.row.id == keys[i]))
  {
    var l := CreateUserLoader();
    var rows := FindMany(l, table, keys);
    LoaderAnswers(l, keys, rows, i);
    AnswerShape(keys, rows, User, Id, i);
  }
}
