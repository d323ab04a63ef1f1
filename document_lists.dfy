/** The list operations the in-memory document stores are built from:
    `FirstOrDefault` by id, `List.Remove` (first occurrence), the
    remove-then-append upsert, and the notebook cascade of a library
    delete. */
module DocumentLists {
  import opened Common
  import opened Models

  function LibraryKey(l: Library): Guid { l.id }
  function NotebookKey(n: Notebook): Guid { n.id }
  function PageKey(p: Page): Guid { p.id }

  /** No two entries share an id. */
  predicate UniqueIds<T>(xs: seq<T>, key: T -> Guid)
  {
    forall i, j :: 0 <= i < j < |xs| ==> key(xs[i]) != key(xs[j])
  }

  /** The position of the first entry with the given id. */
  function FirstIndex<T>(xs: seq<T>, key: T -> Guid, id: Guid): (r: Option<nat>)
    ensures r.None? <==> forall i :: 0 <= i < |xs| ==> key(xs[i]) != id
    ensures r.Some? ==> r.value < |xs| && key(xs[r.value]) == id
    ensures r.Some? ==> forall j :: 0 <= j < r.value ==> key(xs[j]) != id
  {
    if |xs| == 0 then None
    else if key(xs[0]) == id then Some(0)
    else
      match FirstIndex(xs[1..], key, id)
      case None => None
      case Some(i) => Some(i + 1)
  }

  /** `FirstOrDefault(x => x.Id == id)`. */
  function FirstWithId<T>(xs: seq<T>, key: T -> Guid, id: Guid): (r: Option<T>)
    ensures r.None? <==> forall i :: 0 <= i < |xs| ==> key(xs[i]) != id
    ensures r.Some? ==> r.value in xs && key(r.value) == id
  {
    match FirstIndex(xs, key, id)
    case None => None
    case Some(i) => Some(xs[i])
  }

  /** With unique ids, the entry found is the one entry with that id. */
  lemma FirstWithIdIsTheEntry<T>(xs: seq<T>, key: T -> Guid, y: T)
    requires UniqueIds(xs, key) && y in xs
    ensures FirstWithId(xs, key, key(y)) == Some(y)
  {
    var k :| 0 <= k < |xs| && xs[k] == y;
    var i := FirstIndex(xs, key, key(y)).value;
    assert !(i < k) && !(k < i);
  }

  /** `List.Remove(x)`: drops the first occurrence of `x`, if any. */
  function RemoveFirst<T(==)>(xs: seq<T>, x: T): (r: seq<T>)
    ensures x !in xs ==> r == xs
    ensures multiset(r) == multiset(xs) - multiset{x}
    ensures |r| == if x in xs then |xs| - 1 else |xs|
  {
    if |xs| == 0 then []
    else
      assert xs == [xs[0]] + xs[1..];
      if xs[0] == x then xs[1..] else [xs[0]] + RemoveFirst(xs[1..], x)
  }

  /** Removing the first occurrence cuts the list at that position. */
  lemma {:induction false} RemoveFirstAt<T>(xs: seq<T>, x: T, i: nat)
    requires i < |xs| && xs[i] == x && x !in xs[..i]
    ensures RemoveFirst(xs, x) == xs[..i] + xs[i + 1..]
  {
    if i > 0 {
      var tail := xs[1..];
      assert xs[0] != x by {
        assert xs[..i][0] == xs[0];
      }
      assert x !in tail[..i - 1] by {
        assert tail[..i - 1] == xs[..i][1..];
      }
      RemoveFirstAt(tail, x, i - 1);
      assert RemoveFirst(xs, x) == [xs[0]] + RemoveFirst(tail, x);
      assert xs[..i] == [xs[0]] + tail[..i - 1];
      assert xs[i + 1..] == tail[i..];
    }
  }

  /** The removal a store performs for an id: the first entry with that
      id goes, when there is one. */
  function RemoveWithId<T(==)>(xs: seq<T>, key: T -> Guid, id: Guid): (r: seq<T>)
    ensures FirstWithId(xs, key, id).None? ==> r == xs
    ensures FirstWithId(xs, key, id).Some? ==>
              |r| == |xs| - 1 && multiset(r) == multiset(xs) - multiset{FirstWithId(xs, key, id).value}
  {
    match FirstWithId(xs, key, id)
    case None => xs
    case Some(existing) => RemoveFirst(xs, existing)
  }

  /** Cutting out the entry at `i` keeps the ids unique and keeps exactly
      the entries with other ids. */
  lemma CutSpec<T>(xs: seq<T>, key: T -> Guid, i: nat)
    requires UniqueIds(xs, key) && i < |xs|
    ensures UniqueIds(xs[..i] + xs[i + 1..], key)
    ensures forall y :: y in xs[..i] + xs[i + 1..] ==> y in xs && key(y) != key(xs[i])
    ensures forall y :: y in xs && key(y) != key(xs[i]) ==> y in xs[..i] + xs[i + 1..]
  {
    var r := xs[..i] + xs[i + 1..];
    forall a, b | 0 <= a < b < |r| ensures key(r[a]) != key(r[b]) {
      var a' := if a < i then a else a + 1;
      var b' := if b < i then b else b + 1;
      assert r[a] == xs[a'] && r[b] == xs[b'];
    }
    forall y | y in r ensures y in xs && key(y) != key(xs[i]) {
      var k :| 0 <= k < |r| && r[k] == y;
      if k < i { assert xs[k] == y; } else { assert xs[k + 1] == y; }
    }
    forall y | y in xs && key(y) != key(xs[i]) ensures y in r {
      var k :| 0 <= k < |xs| && xs[k] == y;
      if k < i { assert r[k] == y; } else { assert r[k - 1] == y; }
    }
  }

  /** With unique ids, removal by id keeps exactly the other entries and
      the ids stay unique. */
  lemma RemoveWithIdSpec<T>(xs: seq<T>, key: T -> Guid, id: Guid)
    requires UniqueIds(xs, key)
    ensures UniqueIds(RemoveWithId(xs, key, id), key)
    ensures forall y :: y in RemoveWithId(xs, key, id) ==> y in xs && key(y) != id
    ensures forall y :: y in xs && key(y) != id ==> y in RemoveWithId(xs, key, id)
  {
    match FirstIndex(xs, key, id)
    case None =>
    case Some(i) =>
      assert xs[i] !in xs[..i] by {
        forall j | 0 <= j < i ensures xs[..i][j] != xs[i] {
          assert key(xs[j]) != id;
        }
      }
      RemoveFirstAt(xs, xs[i], i);
      CutSpec(xs, key, i);
  }

  /** `Save…Async`: remove the stored entry with the same id, then append. */
  function Upsert<T(==)>(xs: seq<T>, key: T -> Guid, item: T): (r: seq<T>)
    ensures |r| > 0 && r[|r| - 1] == item
  {
    RemoveWithId(xs, key, key(item)) + [item]
  }

  /** After an upsert the ids are still unique, the saved entry is the one
      a load finds, and every entry with another id is still there. */
  lemma UpsertSpec<T>(xs: seq<T>, key: T -> Guid, item: T)
    requires UniqueIds(xs, key)
    ensures UniqueIds(Upsert(xs, key, item), key)
    ensures FirstWithId(Upsert(xs, key, item), key, key(item)) == Some(item)
    ensures forall y :: y in Upsert(xs, key, item) ==> y == item || (y in xs && key(y) != key(item))
    ensures forall y :: y in xs && key(y) != key(item) ==> y in Upsert(xs, key, item)
  {
    var kept := RemoveWithId(xs, key, key(item));
    RemoveWithIdSpec(xs, key, key(item));
    var r := kept + [item];
    forall a, b | 0 <= a < b < |r| ensures key(r[a]) != key(r[b]) {
      assert r[a] == kept[a];
      if b == |kept| {
        assert kept[a] in kept;
        assert key(kept[a]) != key(item);
      } else {
        assert r[b] == kept[b];
        assert key(kept[a]) != key(kept[b]);
      }
    }
    FirstWithIdIsTheEntry(r, key, item);
  }

  /** Saving one entry does not change what a load of another id finds. */
  lemma UpsertLeavesOtherIds<T>(xs: seq<T>, key: T -> Guid, item: T, id: Guid)
    requires UniqueIds(xs, key) && id != key(item)
    ensures FirstWithId(Upsert(xs, key, item), key, id) == FirstWithId(xs, key, id)
  {
    UpsertSpec(xs, key, item);
    var r := Upsert(xs, key, item);
    match FirstWithId(xs, key, id)
    case None =>
      forall i | 0 <= i < |r| ensures key(r[i]) != id {
        assert r[i] in r;
        if r[i] != item {
          var k :| 0 <= k < |xs| && xs[k] == r[i];
        }
      }
    case Some(y) =>
      assert y in r;
      FirstWithIdIsTheEntry(r, key, y);
  }

  /** Removing an id makes loads of it fail and leaves the other ids as
      they were. */
  lemma RemoveWithIdLoads<T>(xs: seq<T>, key: T -> Guid, id: Guid, other: Guid)
    requires UniqueIds(xs, key) && other != id
    ensures FirstWithId(RemoveWithId(xs, key, id), key, id).None?
    ensures FirstWithId(RemoveWithId(xs, key, id), key, other) == FirstWithId(xs, key, other)
  {
    RemoveWithIdSpec(xs, key, id);
    var r := RemoveWithId(xs, key, id);
    forall i | 0 <= i < |r| ensures key(r[i]) != id {
      assert r[i] in r;
    }
    match FirstWithId(xs, key, other)
    case None =>
      forall i | 0 <= i < |r| ensures key(r[i]) != other {
        assert r[i] in r;
        var k :| 0 <= k < |xs| && xs[k] == r[i];
      }
    case Some(y) =>
      assert y in r;
      FirstWithIdIsTheEntry(r, key, y);
  }

  /** `_notebooks.Where(n => n.LibraryId == libraryId).ToList()`. */
  function NotebooksOf(nbs: seq<Notebook>, libraryId: Guid): (r: seq<Notebook>)
    ensures |r| <= |nbs|
    ensures forall n :: n in r <==> n in nbs && n.libraryId == libraryId
  {
    if |nbs| == 0 then []
    else if nbs[0].libraryId == libraryId then [nbs[0]] + NotebooksOf(nbs[1..], libraryId)
    else NotebooksOf(nbs[1..], libraryId)
  }

  /** The notebooks that survive a cascade: those of other libraries, in
      their stored order. */
  function NotebooksOutside(nbs: seq<Notebook>, libraryId: Guid): (r: seq<Notebook>)
    ensures |r| + |NotebooksOf(nbs, libraryId)| == |nbs|
    ensures forall n :: n in r <==> n in nbs && n.libraryId != libraryId
  {
    if |nbs| == 0 then []
    else if nbs[0].libraryId == libraryId then NotebooksOutside(nbs[1..], libraryId)
    else [nbs[0]] + NotebooksOutside(nbs[1..], libraryId)
  }

  /** The list after the first `k` notebooks of the library were removed. */
  function DropFirstOf(nbs: seq<Notebook>, libraryId: Guid, k: nat): seq<Notebook>
  {
    if |nbs| == 0 then []
    else if nbs[0].libraryId == libraryId && k > 0 then DropFirstOf(nbs[1..], libraryId, k - 1)
    else [nbs[0]] + DropFirstOf(nbs[1..], libraryId, k)
  }

  lemma {:induction false} DropNoneOf(nbs: seq<Notebook>, libraryId: Guid)
    ensures DropFirstOf(nbs, libraryId, 0) == nbs
  {
    if |nbs| > 0 {
      DropNoneOf(nbs[1..], libraryId);
      assert nbs == [nbs[0]] + nbs[1..];
    }
  }

  /** One turn of the cascade loop: `Remove` of the next notebook to delete
      drops exactly the next notebook of the library. */
  lemma {:induction false} DropNextOf(nbs: seq<Notebook>, libraryId: Guid, k: nat)
    requires k < |NotebooksOf(nbs, libraryId)|
    ensures RemoveFirst(DropFirstOf(nbs, libraryId, k), NotebooksOf(nbs, libraryId)[k])
         == DropFirstOf(nbs, libraryId, k + 1)
  {
    var m := NotebooksOf(nbs, libraryId)[k];
    assert m in NotebooksOf(nbs, libraryId);
    if nbs[0].libraryId == libraryId {
      if k > 0 {
        assert m == NotebooksOf(nbs[1..], libraryId)[k - 1];
        DropNextOf(nbs[1..], libraryId, k - 1);
      } else {
        DropNoneOf(nbs, libraryId);
        DropNoneOf(nbs[1..], libraryId);
      }
    } else {
      DropNextOf(nbs[1..], libraryId, k);
      var d := DropFirstOf(nbs[1..], libraryId, k);
      assert DropFirstOf(nbs, libraryId, k) == [nbs[0]] + d;
      assert ([nbs[0]] + d)[0] != m && ([nbs[0]] + d)[1..] == d;
    }
  }

  /** Once every notebook of the library was removed, the survivors are
      exactly the other libraries' notebooks. */
  lemma {:induction false} DropAllOf(nbs: seq<Notebook>, libraryId: Guid)
    ensures DropFirstOf(nbs, libraryId, |NotebooksOf(nbs, libraryId)|) == NotebooksOutside(nbs, libraryId)
  {
    if |nbs| > 0 {
      DropAllOf(nbs[1..], libraryId);
    }
  }

  /** The cascade keeps the notebook ids unique. */
  lemma {:induction false} OutsideKeepsUniqueIds(nbs: seq<Notebook>, libraryId: Guid)
    requires UniqueIds(nbs, NotebookKey)
    ensures UniqueIds(NotebooksOutside(nbs, libraryId), NotebookKey)
  {
    if |nbs| > 0 {
      var tail := nbs[1..];
      UniqueTail(nbs, NotebookKey);
      OutsideKeepsUniqueIds(tail, libraryId);
      if nbs[0].libraryId != libraryId {
        var rest := NotebooksOutside(tail, libraryId);
        forall y | y in rest ensures y.id != nbs[0].id {
          var k :| 0 <= k < |tail| && tail[k] == y;
          assert nbs[k + 1] == y;
          assert NotebookKey(nbs[0]) != NotebookKey(nbs[k + 1]);
        }
        UniqueCons(nbs[0], rest, NotebookKey);
      }
    }
  }

  /** Dropping the head keeps the keys unique. */
  lemma UniqueTail<T>(xs: seq<T>, key: T -> Guid)
    requires |xs| > 0 && UniqueIds(xs, key)
    ensures UniqueIds(xs[1..], key)
  {
    var tail := xs[1..];
    forall a, b | 0 <= a < b < |tail| ensures key(tail[a]) != key(tail[b]) {
      assert tail[a] == xs[a + 1] && tail[b] == xs[b + 1];
    }
  }

  /** A head whose key no other entry has keeps the keys unique. */
  lemma UniqueCons<T>(x: T, rest: seq<T>, key: T -> Guid)
    requires UniqueIds(rest, key) && forall y :: y in rest ==> key(y) != key(x)
    ensures UniqueIds([x] + rest, key)
  {
    var r := [x] + rest;
    forall a, b | 0 <= a < b < |r| ensures key(r[a]) != key(r[b]) {
      if a == 0 {
        assert r[b] == rest[b - 1] && rest[b - 1] in rest;
      } else {
        assert r[a] == rest[a - 1] && r[b] == rest[b - 1];
      }
    }
  }
}
