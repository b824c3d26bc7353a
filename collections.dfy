/**
 * A MongoDB collection seen as the sequence of its documents in natural
 * (insertion) order, and the queries the two backends issue against it:
 * `find(filter)`, `sort`, `to_list(n)`, `countDocuments`, and the single-
 * document `findOne`, `update_one`/`findOneAndUpdate` and
 * `delete_one`/`findOneAndDelete` on the `id` field.
 */
module Collections {
  import opened Wrappers

  // ---------------------------------------------------------------------------
  // find(filter) and countDocuments(filter)
  // ---------------------------------------------------------------------------

  /** The documents that match `keep`, in their natural order. */
  function Filter<R(==)>(s: seq<R>, keep: R -> bool): (r: seq<R>)
    ensures |r| <= |s|
    ensures multiset(r) <= multiset(s)
    ensures forall x :: x in r ==> keep(x)
    ensures forall x :: x in s && keep(x) ==> x in r
    ensures forall x :: x in s ==> multiset(r)[x] == if keep(x) then multiset(s)[x] else 0
  {
    if s == [] then []
    else
      assert s == [s[0]] + s[1..];
      (if keep(s[0]) then [s[0]] else []) + Filter(s[1..], keep)
  }

  /** Filtering goes through the collection in order: a document appended to
      the collection is appended to the result exactly when it matches. */
  lemma {:induction false} FilterAppend<R>(s: seq<R>, x: R, keep: R -> bool)
    ensures Filter(s + [x], keep) == Filter(s, keep) + (if keep(x) then [x] else [])
  {
    if s == [] {
      assert [] + [x] == [x] && [x][1..] == [];
    } else {
      var t := s + [x];
      var head := if keep(s[0]) then [s[0]] else [];
      var tail := if keep(x) then [x] else [];
      assert t[0] == s[0] && t[1..] == s[1..] + [x];
      FilterAppend(s[1..], x, keep);
      calc {
        Filter(t, keep);
        head + Filter(s[1..] + [x], keep);
        head + (Filter(s[1..], keep) + tail);
        { Associative(head, Filter(s[1..], keep), tail); }
        (head + Filter(s[1..], keep)) + tail;
        Filter(s, keep) + tail;
      }
    }
  }

  lemma Associative<R>(a: seq<R>, b: seq<R>, c: seq<R>)
    ensures a + (b + c) == (a + b) + c
  {
  }

  /** `countDocuments(filter)`. */
  function Count<R(==)>(s: seq<R>, keep: R -> bool): nat {
    |Filter(s, keep)|
  }

  /** A filtered count never exceeds the size of the collection, and equals it
      exactly when every document matches. */
  lemma {:induction false} CountBounds<R>(s: seq<R>, keep: R -> bool)
    ensures Count(s, keep) <= |s|
    ensures Count(s, keep) == |s| <==> forall x :: x in s ==> keep(x)
  {
    if s != [] {
      CountBounds(s[1..], keep);
      assert s == [s[0]] + s[1..];
      if !keep(s[0]) {
        assert Count(s, keep) == Count(s[1..], keep) < |s|;
      }
    }
  }

  // ---------------------------------------------------------------------------
  // sort({key: 1}) and to_list(n)
  // ---------------------------------------------------------------------------

  /** Ascending order by an integer sort key. */
  predicate SortedBy<R(==)>(s: seq<R>, key: R -> int) {
    forall i, j :: 0 <= i < j < |s| ==> key(s[i]) <= key(s[j])
  }

  /** Putting the old head back in front of a sorted insertion into the tail
      keeps the order, since the head is below both the tail and `x`. */
  lemma PrependSorted<R>(h: R, s: seq<R>, x: R, tail: seq<R>, key: R -> int)
    requires SortedBy([h] + s, key) && key(h) <= key(x)
    requires SortedBy(tail, key) && multiset(tail) == multiset(s) + multiset{x}
    ensures SortedBy([h] + tail, key)
  {
    var r := [h] + tail;
    forall k | 0 <= k < |tail| ensures key(h) <= key(tail[k]) {
      var y := tail[k];
      assert y in multiset(tail);
      if y != x {
        assert y in multiset(s);
        var m :| 0 <= m < |s| && s[m] == y;
        var hs := [h] + s;
        assert hs[0] == h && hs[m + 1] == y;
        assert key(hs[0]) <= key(hs[m + 1]);
      }
    }
    forall i, j | 0 <= i < j < |r| ensures key(r[i]) <= key(r[j]) {
      assert r[j] == tail[j - 1];
      if i > 0 { assert r[i] == tail[i - 1]; }
    }
  }

  /** Inserts `x` into a sorted sequence after every element whose key is not
      greater than its own. */
  function InsertBy<R(==)>(x: R, s: seq<R>, key: R -> int): (r: seq<R>)
    requires SortedBy(s, key)
    ensures SortedBy(r, key)
    ensures multiset(r) == multiset(s) + multiset{x}
  {
    if s == [] then [x]
    else if key(x) < key(s[0]) then [x] + s
    else
      var tail := InsertBy(x, s[1..], key);
      assert s == [s[0]] + s[1..];
      PrependSorted(s[0], s[1..], x, tail, key);
      [s[0]] + tail
  }

  /** `sort({key: 1})`: the documents reordered by ascending key. */
  function SortBy<R(==)>(s: seq<R>, key: R -> int): (r: seq<R>)
    ensures SortedBy(r, key)
    ensures multiset(r) == multiset(s)
  {
    if s == [] then []
    else
      assert s == s[..|s| - 1] + [s[|s| - 1]];
      InsertBy(s[|s| - 1], SortBy(s[..|s| - 1], key), key)
  }

  /** `to_list(n)`: at most the first `n` documents of the cursor. */
  function Take<R(==)>(s: seq<R>, n: nat): (r: seq<R>)
    ensures |r| <= n && |r| <= |s|
    ensures r == s[..|r|]
    ensures |s| <= n ==> r == s
  {
    if |s| <= n then s else s[..n]
  }

  /** A prefix of a sorted sequence is sorted and holds only its elements. */
  lemma TakeSorted<R>(s: seq<R>, n: nat, key: R -> int)
    requires SortedBy(s, key)
    ensures SortedBy(Take(s, n), key)
    ensures multiset(Take(s, n)) <= multiset(s)
  {
    var r := Take(s, n);
    assert s == r + s[|r|..];
  }

  /** The query shape both public list routes use: the matching documents,
      sorted, capped at `limit`. */
  function SortedPage<R(==)>(s: seq<R>, keep: R -> bool, key: R -> int, limit: nat): (r: seq<R>)
  {
    Take(SortBy(Filter(s, keep), key), limit)
  }

  /** A sorted page holds only matching documents of the collection, in key
      order, at most `limit` of them; when no more than `limit` documents
      match, it holds every one of them. */
  lemma SortedPageSpec<R>(s: seq<R>, keep: R -> bool, key: R -> int, limit: nat)
    ensures |SortedPage(s, keep, key, limit)| <= limit
    ensures SortedBy(SortedPage(s, keep, key, limit), key)
    ensures multiset(SortedPage(s, keep, key, limit)) <= multiset(s)
    ensures forall x :: x in SortedPage(s, keep, key, limit) ==> keep(x) && x in s
    ensures Count(s, keep) <= limit ==>
              multiset(SortedPage(s, keep, key, limit)) == multiset(Filter(s, keep))
  {
    var f := Filter(s, keep);
    var sorted := SortBy(f, key);
    TakeSorted(sorted, limit, key);
    var r := Take(sorted, limit);
    forall x | x in r ensures keep(x) && x in s {
      assert x in multiset(r);
      assert x in multiset(f);
    }
  }

  // ---------------------------------------------------------------------------
  // Single-document operations on the `id` field
  // ---------------------------------------------------------------------------

  /** The ids present in a collection. */
  function Ids<R(==)>(s: seq<R>, idOf: R -> string): set<string> {
    set x | x in s :: idOf(x)
  }

  /** No two documents share an id (the unique index on `id`). */
  predicate UniqueIds<R(==)>(s: seq<R>, idOf: R -> string) {
    forall i, j :: 0 <= i < j < |s| ==> idOf(s[i]) != idOf(s[j])
  }

  /** Position of the first document whose id is `id`, or `|s|` if none. */
  function IndexOfId<R(==)>(s: seq<R>, idOf: R -> string, id: string): (i: nat)
    ensures i <= |s|
    ensures i < |s| ==> idOf(s[i]) == id
    ensures forall j :: 0 <= j < i ==> idOf(s[j]) != id
    ensures i == |s| <==> id !in Ids(s, idOf)
  {
    if s == [] then 0
    else if idOf(s[0]) == id then 0
    else
      assert s == [s[0]] + s[1..];
      assert Ids(s, idOf) == {idOf(s[0])} + Ids(s[1..], idOf);
      1 + IndexOfId(s[1..], idOf, id)
  }

  /** `findOne({id})`. */
  function FindById<R(==)>(s: seq<R>, idOf: R -> string, id: string): (r: Option<R>)
    ensures r.None? <==> id !in Ids(s, idOf)
    ensures r.Some? ==> r.value in s && idOf(r.value) == id
  {
    var i := IndexOfId(s, idOf, id);
    if i < |s| then Some(s[i]) else None
  }

  /** The first document that matches `p` (`findOne(filter)`). */
  function FindWhere<R(==)>(s: seq<R>, p: R -> bool): (r: Option<R>)
    ensures r.Some? ==> r.value in s && p(r.value)
    ensures r.None? ==> forall x :: x in s ==> !p(x)
  {
    if s == [] then None
    else if p(s[0]) then Some(s[0])
    else
      assert s == [s[0]] + s[1..];
      FindWhere(s[1..], p)
  }

  /** `update_one({id}, ...)`: rewrites the first document with that id through
      `change`; with no such document the collection is unchanged. */
  function UpdateById<R(==)>(s: seq<R>, idOf: R -> string, id: string, change: R -> R): (r: seq<R>)
    ensures |r| == |s|
    ensures id !in Ids(s, idOf) ==> r == s
  {
    var i := IndexOfId(s, idOf, id);
    if i < |s| then s[i := change(s[i])] else s
  }

  /** `delete_one({id})`: removes the first document with that id; with no such
      document the collection is unchanged. */
  function DeleteById<R(==)>(s: seq<R>, idOf: R -> string, id: string): (r: seq<R>)
    ensures id !in Ids(s, idOf) ==> r == s
    ensures id in Ids(s, idOf) ==> |r| == |s| - 1
  {
    var i := IndexOfId(s, idOf, id);
    if i < |s| then s[..i] + s[i + 1..] else s
  }

  /** Removing position `i` from a collection with unique ids leaves unique
      ids, and every remaining document is one of the others. */
  lemma RemoveAtUnique<R>(s: seq<R>, idOf: R -> string, i: nat)
    requires UniqueIds(s, idOf) && i < |s|
    ensures UniqueIds(s[..i] + s[i + 1..], idOf)
    ensures forall x :: x in s[..i] + s[i + 1..] ==> x in s && idOf(x) != idOf(s[i])
  {
    var r := s[..i] + s[i + 1..];
    forall a, b | 0 <= a < b < |r| ensures idOf(r[a]) != idOf(r[b]) {
      var a' := if a < i then a else a + 1;
      var b' := if b < i then b else b + 1;
      assert r[a] == s[a'] && r[b] == s[b'];
    }
    forall x | x in r ensures x in s && idOf(x) != idOf(s[i]) {
      var k :| 0 <= k < |r| && r[k] == x;
      var k' := if k < i then k else k + 1;
      assert x == s[k'];
    }
  }

  /** Removing position `i` keeps every document whose id differs from the
      removed one's. */
  lemma RemoveAtKeeps<R>(s: seq<R>, idOf: R -> string, i: nat)
    requires i < |s|
    ensures forall x :: x in s && idOf(x) != idOf(s[i]) ==> x in s[..i] + s[i + 1..]
  {
    var r := s[..i] + s[i + 1..];
    forall x | x in s && idOf(x) != idOf(s[i]) ensures x in r {
      var k :| 0 <= k < |s| && s[k] == x;
      if k < i { assert r[k] == x; } else { assert r[k - 1] == x; }
    }
  }

  /** Deleting by id, under the unique-id invariant, removes exactly the one
      document with that id and keeps every other document, in order. */
  lemma DeleteByIdSpec<R>(s: seq<R>, idOf: R -> string, id: string)
    requires UniqueIds(s, idOf)
    ensures UniqueIds(DeleteById(s, idOf, id), idOf)
    ensures Ids(DeleteById(s, idOf, id), idOf) == Ids(s, idOf) - {id}
    ensures forall x :: x in s && idOf(x) != id ==> x in DeleteById(s, idOf, id)
    ensures forall x :: x in DeleteById(s, idOf, id) ==> x in s
    ensures id in Ids(s, idOf) ==>
              multiset(DeleteById(s, idOf, id)) + multiset{FindById(s, idOf, id).value} == multiset(s)
  {
    var i := IndexOfId(s, idOf, id);
    if i < |s| {
      var r := DeleteById(s, idOf, id);
      assert r == s[..i] + s[i + 1..];
      RemoveAtUnique(s, idOf, i);
      RemoveAtKeeps(s, idOf, i);
      forall y | y in Ids(s, idOf) - {id} ensures y in Ids(r, idOf) {
        var x :| x in s && idOf(x) == y;
      }
      assert s == s[..i] + [s[i]] + s[i + 1..];
    }
  }

  /** Updating by id, under the unique-id invariant and with a change that keeps
      the id, rewrites exactly the document with that id and nothing else. */
  lemma UpdateByIdSpec<R>(s: seq<R>, idOf: R -> string, id: string, change: R -> R)
    requires UniqueIds(s, idOf)
    requires forall x :: idOf(change(x)) == idOf(x)
    ensures UniqueIds(UpdateById(s, idOf, id, change), idOf)
    ensures Ids(UpdateById(s, idOf, id, change), idOf) == Ids(s, idOf)
    ensures forall x :: x in s && idOf(x) != id ==> x in UpdateById(s, idOf, id, change)
    ensures forall x :: x in UpdateById(s, idOf, id, change) && idOf(x) != id ==> x in s
    ensures id in Ids(s, idOf) ==>
              FindById(UpdateById(s, idOf, id, change), idOf, id)
                == Some(change(FindById(s, idOf, id).value))
  {
    var i := IndexOfId(s, idOf, id);
    var r := UpdateById(s, idOf, id, change);
    if i < |s| {
      assert forall k :: 0 <= k < |s| ==> idOf(r[k]) == idOf(s[k]);
      forall x | x in s && idOf(x) != id ensures x in r {
        var k :| 0 <= k < |s| && s[k] == x;
        assert r[k] == x;
      }
      forall x | x in r && idOf(x) != id ensures x in s {
        var k :| 0 <= k < |r| && r[k] == x;
        assert k != i;
      }
      forall y | y in Ids(s, idOf) ensures y in Ids(r, idOf) {
        var x :| x in s && idOf(x) == y;
        var k :| 0 <= k < |s| && s[k] == x;
        assert idOf(r[k]) == y;
      }
      forall y | y in Ids(r, idOf) ensures y in Ids(s, idOf) {
        var x :| x in r && idOf(x) == y;
        var k :| 0 <= k < |r| && r[k] == x;
        assert idOf(s[k]) == y;
      }
      assert IndexOfId(r, idOf, id) == i;
    }
  }

  /** Appending a document whose id is new keeps the ids unique. */
  lemma InsertFreshSpec<R>(s: seq<R>, idOf: R -> string, x: R)
    requires UniqueIds(s, idOf)
    requires idOf(x) !in Ids(s, idOf)
    ensures UniqueIds(s + [x], idOf)
    ensures Ids(s + [x], idOf) == Ids(s, idOf) + {idOf(x)}
  {
    var r := s + [x];
    forall y | y in Ids(r, idOf) ensures y in Ids(s, idOf) + {idOf(x)} {
      var z :| z in r && idOf(z) == y;
    }
  }

  /** An update by id preserves a property of every document when the one
      rewritten document still has it after the change. */
  lemma UpdateByIdKeeps<R>(s: seq<R>, idOf: R -> string, id: string, change: R -> R, P: R -> bool)
    requires forall x :: x in s ==> P(x)
    requires id in Ids(s, idOf) ==> P(change(FindById(s, idOf, id).value))
    ensures forall x :: x in UpdateById(s, idOf, id, change) ==> P(x)
  {
    var i := IndexOfId(s, idOf, id);
    var r := UpdateById(s, idOf, id, change);
    forall x | x in r ensures P(x) {
      var k :| 0 <= k < |r| && r[k] == x;
      assert r[k] == s[k] || (k == i && r[k] == change(s[k]));
    }
  }

  /** An update by id through a change that keeps a second key (a username,
      say) keeps that key unique and its set of values unchanged. */
  lemma UpdateByIdKeepsKey<R>(s: seq<R>, idOf: R -> string, id: string, change: R -> R, key: R -> string)
    requires UniqueIds(s, key)
    requires forall x :: key(change(x)) == key(x)
    ensures UniqueIds(UpdateById(s, idOf, id, change), key)
    ensures Ids(UpdateById(s, idOf, id, change), key) == Ids(s, key)
  {
    var r := UpdateById(s, idOf, id, change);
    var i := IndexOfId(s, idOf, id);
    assert forall k :: 0 <= k < |s| ==> key(r[k]) == key(s[k]);
    forall y | y in Ids(s, key) ensures y in Ids(r, key) {
      var x :| x in s && key(x) == y;
      var k :| 0 <= k < |s| && s[k] == x;
      assert key(r[k]) == y;
    }
    forall y | y in Ids(r, key) ensures y in Ids(s, key) {
      var x :| x in r && key(x) == y;
      var k :| 0 <= k < |r| && r[k] == x;
      assert key(s[k]) == y;
    }
  }
}
