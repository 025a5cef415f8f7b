# Batch loaders of the GraphQL endpoint

This model covers the batch loaders of the GraphQL route. `createDataLoader` builds a loader's
batch function. That function receives a batch of requested keys. It fetches all matching rows with
one bulk query and then reshapes the rows back into key order. There are two phases:

1. The fetched rows are folded into a map keyed on the loader's key property. A post, recognised by
   carrying an `authorId`, is appended to the list of posts under its key. Any other row overwrites
   the entry under its key.
2. Each requested key is looked up in the map, in request order. A key with no rows reads back as
   `undefined`.

`createDataLoaders` builds four such loaders:
- users by `id`;
- posts by `authorId` (the only loader that fans out into lists);
- profiles by `userId`;
- member types by `id`.

Each loader's fetch filters on the same property it groups on. The loaders are built once and
attached to the server instance when the GraphQL plugin registers (`src/routes/graphql/index.ts:9-11`).
No resolver in this repository uses them: the resolvers query the database directly.

Files:

- `entities.dfy` — the fetched rows, with the key fields they carry. It also defines the property
  test `p in item` and the property read `item[p]`.
- `batch.dfy` — the batch function as a method with two loops (`Batch.BatchLoad`). It is proved
  against a per-key specification (`Batch.Reshape`, built from `Batch.Matching`, which filters the
  rows by key). The module also holds the properties of that specification:
  - alignment with the keys;
  - absent keys;
  - last write wins for singular loaders;
  - the fan-out groups partition the fetched rows;
  - rows under unrequested keys are irrelevant.
- `loaders.dfy` — the four factories, the registry and the contract of the bulk fetch. It also holds
  `findMany` over a table, and end-to-end statements for the post and user loaders.

The batch function's row type `V` is generic in the source. The model expresses this as a ghost
entity parameter: all rows of one call are of that entity and carry the key property. The generic
bound alone does not ensure this, since `V` may be the whole `Value` union. What ensures it is the
call sites: each factory instantiates `V` with a single entity type (`src/routes/graphql/loaders.ts:35`,
46, 56, 66), its fetch reads that one table, and the chosen key is a required column of it.

## Model

| member | source | states |
|---|---|---|
| Batch.BatchLoad | src/routes/graphql/loaders.ts:10-31 | returns exactly one answer per requested key, in key order; the answers equal the per-key specification `Reshape`; equal keys get identical answers |
| Batch.Matching | src/routes/graphql/loaders.ts:14-22 | the rows carrying key `k` are exactly the fetched rows whose key property is `k`; none is invented and none is missed |
| Batch.Reshape | src/routes/graphql/loaders.ts:24-30 | the answer sequence has the length of the key sequence |
| Batch.BuildMapAgrees | src/routes/graphql/loaders.ts:14-22 | after the forEach over the rows, the map entry under any key is what the per-key specification says: absent if no row has the key, otherwise the rows with that key in fetch order for posts, or the last such row for other entities |
| Batch.BuildMapPrefix | src/routes/graphql/loaders.ts:15-21 | one iteration of the forEach turns the map for the first n rows into the map for the first n+1 rows |
| Batch.ReadBackAgrees | src/routes/graphql/loaders.ts:24-28 | reading the map back key by key (`resultMap.get(key)`) yields the specification's answers |
| Batch.AnswerShape | src/routes/graphql/loaders.ts:24-30 | an answer is `undefined` exactly when no fetched row has that key; a post answer is a non-empty list holding exactly the posts with that key; any other answer is a fetched row with that key |
| Batch.SingularLastWins | src/routes/graphql/loaders.ts:19-20 | for a non-post loader, the answer for a key is the last fetched row with that key; no later row has that key |
| Batch.GroupsPartitionRows | src/routes/graphql/loaders.ts:15-18 | when every row's key is requested and keys are distinct, the per-key groups together are a permutation of the fetched rows |
| Batch.FanOutPartitionsRows | src/routes/graphql/loaders.ts:14-30 | for posts with distinct requested keys, the groups in the answers together hold every fetched row exactly once (same multiset, sizes summing to the row count) |
| Batch.FlattenReshape | src/routes/graphql/loaders.ts:24-30 | for posts, concatenating the answers gives the per-key groups in key order |
| Batch.Requested | src/routes/graphql/loaders.ts:24-28 | a specification helper for the read-back property; the code itself never filters by requested key. It keeps exactly the rows whose key is among the requested keys |
| Batch.MatchingRequested | src/routes/graphql/loaders.ts:14-22 | dropping rows under unrequested keys leaves each requested key's rows unchanged, in order |
| Batch.UnrequestedRowsIgnored | src/routes/graphql/loaders.ts:14-30 | rows whose key no one asked for change no answer: the answers over the requested rows alone are the same |
| Entities.FanOutRowsArePosts | src/routes/graphql/loaders.ts:15 | the `'authorId' in item` test holds exactly for post rows; a user row is not grouped although its included subscription edges carry `authorId` |
| Loaders.CreateUserLoader | src/routes/graphql/loaders.ts:34-43 | the user loader fetches users filtered by `id` and groups on `id`; it does not fan out |
| Loaders.CreatePostLoader | src/routes/graphql/loaders.ts:45-53 | the post loader fetches posts filtered by `authorId` and groups on `authorId`; it fans out |
| Loaders.CreateProfileLoader | src/routes/graphql/loaders.ts:55-63 | the profile loader fetches profiles filtered by `userId` and groups on `userId`; it does not fan out |
| Loaders.CreateMemberTypeLoader | src/routes/graphql/loaders.ts:65-73 | the member-type loader fetches member types filtered by `id` and groups on `id`; it does not fan out |
| Loaders.CreateDataLoaders | src/routes/graphql/loaders.ts:75-82 | the registry has the four loaders for users, posts, profiles and member types; each groups on the property its fetch filters by; only the post loader fans out |
| Loaders.FindMany | src/routes/graphql/loaders.ts:37-70 | the four fetches (lines 37-40, 48-50, 58-60, 68-70): `findMany` with `in keys` returns rows of the table, of the loader's entity, whose filter property is requested, and it returns all of them |
| Loaders.FetchedRowsTyped | src/routes/graphql/loaders.ts:36-41 | rows that meet a loader's fetch contract are of one entity and carry the key property, and every row's key is requested |
| Loaders.LoaderAnswers | src/routes/graphql/loaders.ts:10-31 | for each registered loader, an answer is `undefined` exactly when no fetched row has the key, and it is a list exactly for the post loader |
| Loaders.NothingWasted | src/routes/graphql/loaders.ts:14-28 | under the fetch contract, every fetched row's key is requested; every position asking for that key gets an answer, and a fetched post is in its author's list |
| Loaders.PostLoaderKeepsEveryPost | src/routes/graphql/loaders.ts:45-53 | with each author asked for once, the post loader's lists together hold every fetched post exactly once |
| Loaders.PostLoaderFindsAuthorsPosts | src/routes/graphql/loaders.ts:45-53 | over `findMany` on the post table, an author's answer is `undefined` iff the table has no post by them; otherwise it is a list holding exactly their posts |
| Loaders.UserLoaderFindsUser | src/routes/graphql/loaders.ts:34-43 | over `findMany` on the user table, an id's answer is `undefined` iff no user has that id; otherwise it is a user row of the table with that id |

## Left out

- The `dataloader` library: per-tick coalescing of `load` calls, its cache, and its key deduplication.
  The lemmas that need distinct keys state this as a precondition.
- The database and Prisma. The bulk fetch is an input of `Batch.BatchLoad`, constrained only by
  `Loaders.FetchContract`. `Loaders.FindMany` fixes table order, but Prisma guarantees no order, and
  no batch lemma depends on it.
- `async`/`await` and promise rejection are not modelled. A failing fetch rejects the whole batch.
- Rows of mixed entity types in one batch are not modelled. No factory produces them, because each
  fetches from one table. If a post met a key already holding a single row, `push` would fail at run
  time.
- Floating-point columns (`balance`, `discount`), the `UUID` scalar, and the GraphQL schema and
  the resolvers are not modelled.
- `index.ts`, the depth limit of 5 and the request handler are not part of this model. This includes
  loaders being created once when the plugin registers (`src/routes/graphql/index.ts:9-11`), not
  once per request.
- An empty list for a post key with no posts: the code answers `undefined` instead (the map has no
  entry), and the model follows the code.
