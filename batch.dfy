/** The batch function that `createDataLoader` hands to DataLoader: given the
    requested keys and the rows of one bulk fetch, it groups the rows by the
    loader's key property into a map and reads the map back in key order.

    `BatchLoad` is the imperative function itself. `Reshape` is its reference
    specification, defined per key through `Matching` (the rows whose key
    property is that key, in fetch order) without any map. `BuildMap` is the
    map the first loop builds, and `BuildMapAgrees` connects the two. */
module Batch {
  import opened Entities

  /** A value of the batch map: one row, or the list of posts grouped under a key. */
  datatype Entry = Single(row: Row) | Group(rows: seq<Row>)

  /** Every row has the key property `p`. */
  predicate Keyed(rows: seq<Row>, p: KeyProp)
  {
    forall r :: r in rows ==> HasProp(r, p)
  }

  /** The rows are of entity `e` (the loader's `V`) and `e` has the key
      property `p` (`keyProp: keyof V`). */
  predicate Typed(rows: seq<Row>, e: Entity, p: KeyProp)
  {
    EntityHasProp(e, p) && forall r :: r in rows ==> EntityOf(r) == e
  }

  predicate Distinct(keys: seq<Key>)
  {
    forall i, j :: 0 <= i < j < |keys| ==> keys[i] != keys[j]
  }

  // ---------------------------------------------------------------------------
  // Reference specification

  /** The fetched rows whose key property equals `k`, in fetch order. */
  function Matching(rows: seq<Row>, p: KeyProp, k: Key): (g: seq<Row>)
    requires Keyed(rows, p)
    ensures forall r :: r in g ==> r in rows && KeyOf(r, p) == k
    ensures forall r :: r in rows && KeyOf(r, p) == k ==> r in g
    ensures |g| <= |rows|
    decreases |rows|
  {
    if rows == [] then []
    else
      var init, last := rows[..|rows| - 1], rows[|rows| - 1];
      assert rows == init + [last];
      Matching(init, p, k) + (if KeyOf(last, p) == k then [last] else [])
  }

  /** What the batch answers for key `k`: nothing when no row matches; for
      posts, the whole group; for any other entity, the last matching row. */
  function EntryFor(rows: seq<Row>, e: Entity, p: KeyProp, k: Key): Option<Entry>
    requires Keyed(rows, p)
  {
    var g := Matching(rows, p, k);
    if g == [] then None
    else if FanOutEntity(e) then Some(Group(g))
    else Some(Single(g[|g| - 1]))
  }

  /** The batch result: one answer per requested key, in key order. */
  function Reshape(keys: seq<Key>, rows: seq<Row>, e: Entity, p: KeyProp): (result: seq<Option<Entry>>)
    requires Keyed(rows, p)
    ensures |result| == |keys|
  {
    seq(|keys|, i requires 0 <= i < |keys| => EntryFor(rows, e, p, keys[i]))
  }

  lemma MatchingSnoc(init: seq<Row>, last: Row, p: KeyProp, k: Key)
    requires Keyed(init + [last], p)
    ensures Matching(init + [last], p, k) == Matching(init, p, k) + (if KeyOf(last, p) == k then [last] else [])
  {
    assert (init + [last])[..|init|] == init;
  }

  // ---------------------------------------------------------------------------
  // The map the first loop builds

  /** `resultMap.get(k)`. */
  function Get(m: map<Key, Entry>, k: Key): Option<Entry>
  {
    if k in m then Some(m[k]) else None
  }

  /** The posts already grouped under `k` (`resultMap.get(k) || []`). */
  function GroupAt(m: map<Key, Entry>, k: Key): seq<Row>
  {
    if k in m && m[k].Group? then m[k].rows else []
  }

  /** One step of the first loop. */
  function Insert(m: map<Key, Entry>, r: Row, p: KeyProp): map<Key, Entry>
    requires HasProp(r, p)
  {
    var k := KeyOf(r, p);
    if IsFanOutRow(r) then m[k := Group(GroupAt(m, k) + [r])] else m[k := Single(r)]
  }

  /** The map after the first loop has processed `rows`. */
  function BuildMap(rows: seq<Row>, p: KeyProp): map<Key, Entry>
    requires Keyed(rows, p)
    decreases |rows|
  {
    if rows == [] then map[]
    else
      var init := rows[..|rows| - 1];
      assert forall r :: r in init ==> r in rows;
      Insert(BuildMap(init, p), rows[|rows| - 1], p)
  }

  lemma BuildMapSnoc(init: seq<Row>, last: Row, p: KeyProp)
    requires Keyed(init + [last], p)
    ensures BuildMap(init + [last], p) == Insert(BuildMap(init, p), last, p)
  {
    assert (init + [last])[..|init|] == init;
  }

  /** The first loop's step from `rows[..n]` to `rows[..n + 1]`. */
  lemma BuildMapPrefix(rows: seq<Row>, n: nat, p: KeyProp)
    requires Keyed(rows, p) && n < |rows|
    ensures Keyed(rows[..n + 1], p)
    ensures BuildMap(rows[..n + 1], p) == Insert(BuildMap(rows[..n], p), rows[n], p)
  {
    assert rows[..n + 1] == rows[..n] + [rows[n]];
    BuildMapSnoc(rows[..n], rows[n], p);
  }

  /** A row under another key leaves the map's answer for `k` alone... */
  lemma BuildMapSnocOther(init: seq<Row>, last: Row, p: KeyProp, k: Key)
    requires Keyed(init + [last], p) && KeyOf(last, p) != k
    ensures Get(BuildMap(init + [last], p), k) == Get(BuildMap(init, p), k)
  {
    BuildMapSnoc(init, last, p);
  }

  /** ...and the reference answer for `k` too. */
  lemma EntryForSnocOther(init: seq<Row>, last: Row, e: Entity, p: KeyProp, k: Key)
    requires Keyed(init + [last], p) && KeyOf(last, p) != k
    ensures EntryFor(init + [last], e, p, k) == EntryFor(init, e, p, k)
  {
    MatchingSnoc(init, last, p, k);
    assert Matching(init + [last], p, k) == Matching(init, p, k);
  }

  /** A post under key `k` is appended to the group already there, which is
      every earlier post under `k`. */
  lemma InsertFanOut(init: seq<Row>, last: Row, e: Entity, p: KeyProp, k: Key)
    requires Typed(init + [last], e, p) && KeyOf(last, p) == k && FanOutEntity(e)
    requires Get(BuildMap(init, p), k) == EntryFor(init, e, p, k)
    ensures Get(BuildMap(init + [last], p), k) == EntryFor(init + [last], e, p, k)
  {
    BuildMapSnoc(init, last, p);
    MatchingSnoc(init, last, p, k);
    assert last in init + [last];
    assert GroupAt(BuildMap(init, p), k) == Matching(init, p, k);
  }

  /** Any other row under key `k` replaces what was there, and is the last
      matching row. */
  lemma InsertSingle(init: seq<Row>, last: Row, e: Entity, p: KeyProp, k: Key)
    requires Typed(init + [last], e, p) && KeyOf(last, p) == k && !FanOutEntity(e)
    ensures Get(BuildMap(init + [last], p), k) == EntryFor(init + [last], e, p, k)
  {
    BuildMapSnoc(init, last, p);
    MatchingSnoc(init, last, p, k);
    assert last in init + [last];
  }

  /** For rows of one entity type, the map holds exactly what the reference says. */
  lemma {:induction false} BuildMapAgrees(rows: seq<Row>, e: Entity, p: KeyProp, k: Key)
    requires Typed(rows, e, p)
    ensures Get(BuildMap(rows, p), k) == EntryFor(rows, e, p, k)
    decreases |rows|
  {
    if rows != [] {
      var init, last := rows[..|rows| - 1], rows[|rows| - 1];
      assert rows == init + [last];
      BuildMapAgrees(init, e, p, k);
      if KeyOf(last, p) != k {
        BuildMapSnocOther(init, last, p, k);
        EntryForSnocOther(init, last, e, p, k);
      } else if FanOutEntity(e) {
        InsertFanOut(init, last, e, p, k);
      } else {
        InsertSingle(init, last, e, p, k);
      }
    }
  }

  /** Reading the finished map back in key order gives the reference result. */
  lemma ReadBackAgrees(keys: seq<Key>, rows: seq<Row>, e: Entity, p: KeyProp, sorted: seq<Option<Entry>>)
    requires Typed(rows, e, p)
    requires |sorted| == |keys|
    requires forall j :: 0 <= j < |keys| ==> sorted[j] == Get(BuildMap(rows, p), keys[j])
    ensures sorted == Reshape(keys, rows, e, p)
  {
    forall j | 0 <= j < |keys|
      ensures sorted[j] == EntryFor(rows, e, p, keys[j])
    {
      BuildMapAgrees(rows, e, p, keys[j]);
    }
  }

  // ---------------------------------------------------------------------------
  // The batch function

  /** The function passed to `new DataLoader`: `rows` is what the fetch returned
      for `keys`, `e` the loader's row type. */
  method BatchLoad(keys: seq<Key>, rows: seq<Row>, ghost e: Entity, keyProp: KeyProp) returns (sorted: seq<Option<Entry>>)
    requires Typed(rows, e, keyProp)
    ensures |sorted| == |keys|
    ensures sorted == Reshape(keys, rows, e, keyProp)
    ensures forall i, j :: 0 <= i < |keys| && 0 <= j < |keys| && keys[i] == keys[j] ==> sorted[i] == sorted[j]
  {
    var resultMap: map<Key, Entry> := map[];
    var n := 0;
    while n < |rows|
      invariant 0 <= n <= |rows|
      invariant Keyed(rows[..n], keyProp)
      invariant resultMap == BuildMap(rows[..n], keyProp)
    {
      var item := rows[n];
      var k := KeyOf(item, keyProp);
      if IsFanOutRow(item) {
        var posts := if k in resultMap && resultMap[k].Group? then resultMap[k].rows else [];
        posts := posts + [item];
        resultMap := resultMap[k := Group(posts)];
      } else {
        resultMap := resultMap[k := Single(item)];
      }
      BuildMapPrefix(rows, n, keyProp);
      n := n + 1;
    }
    assert rows[..n] == rows;

    sorted := [];
    var i := 0;
    while i < |keys|
      invariant 0 <= i <= |keys|
      invariant |sorted| == i
      invariant forall j :: 0 <= j < i ==> sorted[j] == Get(resultMap, keys[j])
    {
      sorted := sorted + [if keys[i] in resultMap then Some(resultMap[keys[i]]) else None];
      i := i + 1;
    }
    ReadBackAgrees(keys, rows, e, keyProp, sorted);
  }

  // ---------------------------------------------------------------------------
  // Properties of the specification

  /** What each answer can be. A requested key gets nothing exactly when no
      fetched row carries it. For posts the answer is the non-empty group of
      exactly the rows with that key; for other entities it is one fetched row
      with that key. */
  lemma AnswerShape(keys: seq<Key>, rows: seq<Row>, e: Entity, p: KeyProp, i: nat)
    requires Typed(rows, e, p) && i < |keys|
    ensures Reshape(keys, rows, e, p)[i] == None <==> forall r :: r in rows ==> KeyOf(r, p) != keys[i]
    ensures Reshape(keys, rows, e, p)[i].Some? ==>
              match Reshape(keys, rows, e, p)[i].value
              case Group(g) =>
                FanOutEntity(e) && g != [] &&
                forall r :: r in g <==> r in rows && KeyOf(r, p) == keys[i]
              case Single(r) =>
                !FanOutEntity(e) && r in rows && KeyOf(r, p) == keys[i]
  {
    var g := Matching(rows, p, keys[i]);
    if g != [] {
      assert g[|g| - 1] in g;
    }
  }

  /** Singular rows: the answer for a matched key is the LAST fetched row with
      that key. */
  lemma {:induction false} SingularLastWins(rows: seq<Row>, e: Entity, p: KeyProp, k: Key) returns (j: nat)
    requires Typed(rows, e, p) && !FanOutEntity(e)
    requires exists r :: r in rows && KeyOf(r, p) == k
    ensures j < |rows| && KeyOf(rows[j], p) == k
    ensures forall j' :: j < j' < |rows| ==> KeyOf(rows[j'], p) != k
    ensures EntryFor(rows, e, p, k) == Some(Single(rows[j]))
    decreases |rows|
  {
    var init, last := rows[..|rows| - 1], rows[|rows| - 1];
    assert rows == init + [last];
    if KeyOf(last, p) == k {
      MatchingSnoc(init, last, p, k);
      j := |rows| - 1;
    } else {
      var r :| r in rows && KeyOf(r, p) == k;
      assert r in init;
      j := SingularLastWins(init, e, p, k);
      EntryForSnocOther(init, last, e, p, k);
      assert rows[j] == init[j];
    }
  }

  /** The groups for a list of keys, concatenated. */
  function Groups(rows: seq<Row>, p: KeyProp, keys: seq<Key>): seq<Row>
    requires Keyed(rows, p)
    decreases |keys|
  {
    if keys == [] then [] else Matching(rows, p, keys[0]) + Groups(rows, p, keys[1..])
  }

  lemma {:induction false} GroupsOfNoRows(p: KeyProp, keys: seq<Key>)
    ensures Groups([], p, keys) == []
    decreases |keys|
  {
    if keys != [] {
      GroupsOfNoRows(p, keys[1..]);
    }
  }

  /** A key of a distinct list is either its head or in its tail, never both. */
  lemma HeadOrTail(keys: seq<Key>, k: Key)
    requires keys != [] && Distinct(keys)
    ensures Distinct(keys[1..])
    ensures k in keys <==> k == keys[0] || k in keys[1..]
    ensures k == keys[0] ==> k !in keys[1..]
  {
    assert keys == [keys[0]] + keys[1..];
  }

  /** Appending a row adds one copy of it to the groups, if its key is listed. */
  lemma {:induction false} GroupsSnoc(init: seq<Row>, r: Row, p: KeyProp, keys: seq<Key>, x: Row)
    requires Keyed(init + [r], p) && Distinct(keys)
    ensures multiset(Groups(init + [r], p, keys))[x] ==
            multiset(Groups(init, p, keys))[x] + (if x == r && KeyOf(r, p) in keys then 1 else 0)
    decreases |keys|
  {
    if keys != [] {
      var rows, k, rest := init + [r], KeyOf(r, p), keys[1..];
      HeadOrTail(keys, k);
      GroupsSnoc(init, r, p, rest, x);
      MatchingSnoc(init, r, p, keys[0]);
      assert multiset(Matching(rows, p, keys[0]))[x] ==
             multiset(Matching(init, p, keys[0]))[x] + (if x == r && k == keys[0] then 1 else 0);
      assert Groups(rows, p, keys) == Matching(rows, p, keys[0]) + Groups(rows, p, rest);
      assert Groups(init, p, keys) == Matching(init, p, keys[0]) + Groups(init, p, rest);
    }
  }

  /** Appending a row whose key is listed keeps the groups a permutation of the rows. */
  lemma GroupsPartitionSnoc(init: seq<Row>, last: Row, p: KeyProp, keys: seq<Key>)
    requires Keyed(init + [last], p) && Distinct(keys) && KeyOf(last, p) in keys
    requires multiset(Groups(init, p, keys)) == multiset(init)
    ensures multiset(Groups(init + [last], p, keys)) == multiset(init + [last])
  {
    forall x
      ensures multiset(Groups(init + [last], p, keys))[x] == multiset(init + [last])[x]
    {
      GroupsSnoc(init, last, p, keys, x);
    }
  }

  /** Grouping under distinct keys that cover every row neither drops nor
      duplicates a row: the groups together are a permutation of the rows. */
  lemma {:induction false} GroupsPartitionRows(rows: seq<Row>, p: KeyProp, keys: seq<Key>)
    requires Keyed(rows, p) && Distinct(keys)
    requires forall r :: r in rows ==> KeyOf(r, p) in keys
    ensures multiset(Groups(rows, p, keys)) == multiset(rows)
    decreases |rows|
  {
    if rows == [] {
      GroupsOfNoRows(p, keys);
    } else {
      var init, last := rows[..|rows| - 1], rows[|rows| - 1];
      assert rows == init + [last];
      GroupsPartitionRows(init, p, keys);
      GroupsPartitionSnoc(init, last, p, keys);
    }
  }

  /** The rows an answer list carries, concatenated in key order. */
  function Flatten(entries: seq<Option<Entry>>): seq<Row>
    decreases |entries|
  {
    if entries == [] then []
    else
      (match entries[0]
       case None => []
       case Some(Single(r)) => [r]
       case Some(Group(g)) => g)
      + Flatten(entries[1..])
  }

  /** For posts, the answers carry exactly the groups of the requested keys. */
  lemma {:induction false} FlattenReshape(keys: seq<Key>, rows: seq<Row>, e: Entity, p: KeyProp)
    requires Typed(rows, e, p) && FanOutEntity(e)
    ensures Flatten(Reshape(keys, rows, e, p)) == Groups(rows, p, keys)
    decreases |keys|
  {
    if keys != [] {
      assert Reshape(keys, rows, e, p)[1..] == Reshape(keys[1..], rows, e, p);
      FlattenReshape(keys[1..], rows, e, p);
    }
  }

  /** Posts, each keyed by one of the distinct requested keys: the answers
      together hold every fetched row exactly once. */
  lemma FanOutPartitionsRows(keys: seq<Key>, rows: seq<Row>, e: Entity, p: KeyProp)
    requires Typed(rows, e, p) && FanOutEntity(e) && Distinct(keys)
    requires forall r :: r in rows ==> KeyOf(r, p) in keys
    ensures multiset(Flatten(Reshape(keys, rows, e, p))) == multiset(rows)
    ensures |Flatten(Reshape(keys, rows, e, p))| == |rows|
  {
    var flat := Flatten(Reshape(keys, rows, e, p));
    FlattenReshape(keys, rows, e, p);
    GroupsPartitionRows(rows, p, keys);
    assert |multiset(flat)| == |flat|;
  }

  /** The fetched rows whose key property is one of the requested keys. */
  function Requested(rows: seq<Row>, p: KeyProp, keys: seq<Key>): (kept: seq<Row>)
    requires Keyed(rows, p)
    ensures forall r :: r in kept <==> r in rows && KeyOf(r, p) in keys
    decreases |rows|
  {
    if rows == [] then []
    else
      var init, last := rows[..|rows| - 1], rows[|rows| - 1];
      assert rows == init + [last];
      Requested(init, p, keys) + (if KeyOf(last, p) in keys then [last] else [])
  }

  lemma RequestedSnoc(init: seq<Row>, last: Row, p: KeyProp, keys: seq<Key>)
    requires Keyed(init + [last], p)
    ensures Requested(init + [last], p, keys) == Requested(init, p, keys) + (if KeyOf(last, p) in keys then [last] else [])
  {
    assert (init + [last])[..|init|] == init;
  }

  lemma {:induction false} MatchingRequested(rows: seq<Row>, p: KeyProp, keys: seq<Key>, k: Key)
    requires Keyed(rows, p) && k in keys
    ensures Matching(Requested(rows, p, keys), p, k) == Matching(rows, p, k)
    decreases |rows|
  {
    if rows != [] {
      var init, last := rows[..|rows| - 1], rows[|rows| - 1];
      assert rows == init + [last];
      MatchingRequested(init, p, keys, k);
      RequestedSnoc(init, last, p, keys);
      MatchingSnoc(init, last, p, k);
      var kept := Requested(init, p, keys);
      if KeyOf(last, p) in keys {
        MatchingSnoc(kept, last, p, k);
      } else {
        assert Requested(rows, p, keys) == kept;
        assert Matching(rows, p, k) == Matching(init, p, k);
      }
    }
  }

  lemma EntryForRequested(rows: seq<Row>, e: Entity, p: KeyProp, keys: seq<Key>, k: Key)
    requires Keyed(rows, p) && k in keys
    ensures EntryFor(Requested(rows, p, keys), e, p, k) == EntryFor(rows, e, p, k)
  {
    MatchingRequested(rows, p, keys, k);
  }

  /** A fetched row whose key was not requested changes no answer. */
  lemma UnrequestedRowsIgnored(keys: seq<Key>, rows: seq<Row>, e: Entity, p: KeyProp)
    requires Typed(rows, e, p)
    ensures Typed(Requested(rows, p, keys), e, p)
    ensures Reshape(keys, Requested(rows, p, keys), e, p) == Reshape(keys, rows, e, p)
  {
    var kept := Requested(rows, p, keys);
    forall i | 0 <= i < |keys|
      ensures Reshape(keys, kept, e, p)[i] == Reshape(keys, rows, e, p)[i]
    {
      EntryForRequested(rows, e, p, keys, keys[i]);
    }
  }
}
