/** The shape every collection shares: documents in natural (insertion) order, each with
    an ObjectId and the two timestamps Mongoose maintains, and the store operations the
    controllers use on them (findById, findByIdAndDelete, findByIdAndUpdate, findOne,
    findOneAndDelete, create). */
module Documents {
  import opened Common

  datatype Doc<T> = Doc(id: Id, createdAt: Time, updatedAt: Time, body: T)

  function IdsOf<T>(c: seq<Doc<T>>): set<Id> {
    if c == [] then {} else {c[0].id} + IdsOf(c[1..])
  }

  lemma {:induction false} IdsOfMembers<T>(c: seq<Doc<T>>)
    ensures forall i :: 0 <= i < |c| ==> c[i].id in IdsOf(c)
    ensures forall id :: id in IdsOf(c) ==> exists i :: 0 <= i < |c| && c[i].id == id
  {
    if c != [] {
      IdsOfMembers(c[1..]);
      forall id | id in IdsOf(c) ensures exists i :: 0 <= i < |c| && c[i].id == id {
        if id != c[0].id {
          var i :| 0 <= i < |c[1..]| && c[1..][i].id == id;
          assert c[i + 1].id == id;
        }
      }
    }
  }

  lemma IdsOfAppend<T>(c: seq<Doc<T>>, d: Doc<T>)
    ensures IdsOf(c + [d]) == IdsOf(c) + {d.id}
  {
    IdsOfMembers(c);
    IdsOfMembers(c + [d]);
    assert forall i :: 0 <= i < |c| ==> (c + [d])[i] == c[i];
    assert (c + [d])[|c|] == d;
  }

  predicate UniqueIds<T>(c: seq<Doc<T>>) {
    forall i, j :: 0 <= i < j < |c| ==> c[i].id != c[j].id
  }

  /** An id that a newly created document may receive: a well-formed ObjectId that the
      collection does not hold yet. */
  predicate FreshId<T>(c: seq<Doc<T>>, id: Id) {
    IsValidObjectId(id) && id !in IdsOf(c)
  }

  /** Creating a document with a fresh id keeps the ids unique and adds exactly that id. */
  lemma AppendFresh<T>(c: seq<Doc<T>>, d: Doc<T>)
    requires UniqueIds(c) && d.id !in IdsOf(c)
    ensures UniqueIds(c + [d])
    ensures IdsOf(c + [d]) == IdsOf(c) + {d.id}
  {
    IdsOfMembers(c);
    IdsOfAppend(c, d);
  }

  /** `findById(id)`: the first document with that id, if any. */
  function Find<T>(c: seq<Doc<T>>, id: Id): (r: Option<Doc<T>>)
    ensures r.Some? <==> id in IdsOf(c)
    ensures r.Some? ==> r.value in c && r.value.id == id
  {
    if c == [] then None
    else if c[0].id == id then Some(c[0])
    else Find(c[1..], id)
  }

  /** With unique ids, the document found is the only one carrying that id. */
  lemma {:induction false} FindUnique<T>(c: seq<Doc<T>>, k: nat)
    requires UniqueIds(c) && k < |c|
    ensures Find(c, c[k].id) == Some(c[k])
  {
    if k > 0 {
      assert c[0].id != c[k].id;
      assert c[1..][k - 1] == c[k];
      FindUnique(c[1..], k - 1);
    }
  }

  /** Writes `d` over the stored document with the same id (`findByIdAndUpdate`, `save`). */
  function Replace<T>(c: seq<Doc<T>>, d: Doc<T>): (r: seq<Doc<T>>)
    ensures |r| == |c|
  {
    seq(|c|, i requires 0 <= i < |c| => if c[i].id == d.id then d else c[i])
  }

  /** Two collections whose documents carry the same ids position by position hold the
      same set of ids. */
  lemma {:induction false} IdsOfSameIds<T>(a: seq<Doc<T>>, b: seq<Doc<T>>)
    requires |a| == |b| && forall i :: 0 <= i < |a| ==> a[i].id == b[i].id
    ensures IdsOf(a) == IdsOf(b)
  {
    if a != [] {
      IdsOfSameIds(a[1..], b[1..]);
    }
  }

  /** Replacing a document keeps the ids and their uniqueness, finds the new version under
      its id, and leaves every document with another id where it was. */
  lemma ReplaceSpec<T>(c: seq<Doc<T>>, d: Doc<T>)
    requires UniqueIds(c) && d.id in IdsOf(c)
    ensures UniqueIds(Replace(c, d))
    ensures IdsOf(Replace(c, d)) == IdsOf(c)
    ensures Find(Replace(c, d), d.id) == Some(d)
    ensures forall i :: 0 <= i < |c| && c[i].id != d.id ==> Replace(c, d)[i] == c[i]
  {
    var r := Replace(c, d);
    assert forall i :: 0 <= i < |c| ==> r[i].id == c[i].id;
    IdsOfSameIds(r, c);
    IdsOfMembers(c);
    var k :| 0 <= k < |c| && c[k].id == d.id;
    assert r[k] == d;
    FindUnique(r, k);
  }

  /** `findByIdAndDelete(id)`: drops the document with that id. */
  function Without<T>(c: seq<Doc<T>>, id: Id): (r: seq<Doc<T>>)
    ensures |r| <= |c|
  {
    if c == [] then []
    else if c[0].id == id then Without(c[1..], id)
    else [c[0]] + Without(c[1..], id)
  }

  /** Deleting by id keeps every other document and nothing else. */
  lemma {:induction false} WithoutMembers<T(!new)>(c: seq<Doc<T>>, id: Id)
    ensures forall d :: d in Without(c, id) <==> d in c && d.id != id
  {
    if c != [] {
      WithoutMembers(c[1..], id);
      assert c == [c[0]] + c[1..];
    }
  }

  /** Deleting by id removes exactly that id from the collection's ids. */
  lemma {:induction false} WithoutIds<T>(c: seq<Doc<T>>, id: Id)
    ensures IdsOf(Without(c, id)) == IdsOf(c) - {id}
  {
    if c != [] {
      var rest := Without(c[1..], id);
      WithoutIds(c[1..], id);
      if c[0].id != id {
        assert ([c[0]] + rest)[1..] == rest;
      }
    }
  }

  /** Deleting by id keeps the ids unique. */
  lemma {:induction false} WithoutUnique<T(!new)>(c: seq<Doc<T>>, id: Id)
    requires UniqueIds(c)
    ensures UniqueIds(Without(c, id))
  {
    if c != [] {
      var rest := Without(c[1..], id);
      assert UniqueIds(c[1..]);
      WithoutUnique(c[1..], id);
      if c[0].id != id {
        WithoutMembers(c[1..], id);
        var r := [c[0]] + rest;
        forall j | 0 < j < |r| ensures r[j].id != c[0].id {
          assert r[j] == rest[j - 1];
          assert rest[j - 1] in c[1..];
        }
      }
    }
  }

  /** Deleting an id that is not there changes nothing. */
  lemma {:induction false} WithoutAbsent<T>(c: seq<Doc<T>>, id: Id)
    requires id !in IdsOf(c)
    ensures Without(c, id) == c
  {
    if c != [] {
      WithoutAbsent(c[1..], id);
      assert c == [c[0]] + c[1..];
    }
  }

  /** A `$match` stage: the elements satisfying `p`, in their original order. */
  function Filter<T>(s: seq<T>, p: T -> bool): (r: seq<T>)
    ensures |r| <= |s|
    ensures forall i :: 0 <= i < |r| ==> p(r[i])
  {
    if s == [] then []
    else (if p(s[0]) then [s[0]] else []) + Filter(s[1..], p)
  }

  /** The elements kept are exactly those of the input that satisfy the predicate. */
  lemma {:induction false} FilterMembers<T(!new)>(s: seq<T>, p: T -> bool)
    ensures forall x :: x in Filter(s, p) <==> x in s && p(x)
  {
    if s != [] {
      FilterMembers(s[1..], p);
      assert s == [s[0]] + s[1..];
    }
  }

  /** A `$lookup` on an array of ids: the documents whose id is listed, in the order of
      the joined collection. */
  function DocsIn<T>(c: seq<Doc<T>>, ids: set<Id>): (r: seq<Doc<T>>)
    ensures |r| <= |c|
    ensures forall i :: 0 <= i < |r| ==> r[i].id in ids
  {
    if c == [] then []
    else (if c[0].id in ids then [c[0]] else []) + DocsIn(c[1..], ids)
  }

  /** The join keeps exactly the documents whose id is listed. */
  lemma {:induction false} DocsInMembers<T(!new)>(c: seq<Doc<T>>, ids: set<Id>)
    ensures forall d :: d in DocsIn(c, ids) <==> d in c && d.id in ids
  {
    if c != [] {
      DocsInMembers(c[1..], ids);
      assert c == [c[0]] + c[1..];
    }
  }

  /** Against a collection with unique ids, the join yields one document per listed id
      that resolves. */
  lemma {:induction false} DocsInCount<T>(c: seq<Doc<T>>, ids: set<Id>)
    requires UniqueIds(c)
    ensures |DocsIn(c, ids)| == |ids * IdsOf(c)|
  {
    if c != [] {
      var tail := c[1..];
      assert UniqueIds(tail);
      DocsInCount(tail, ids);
      IdsOfMembers(tail);
      assert c[0].id !in IdsOf(tail);
      if c[0].id in ids {
        assert ids * IdsOf(c) == {c[0].id} + ids * IdsOf(tail);
      } else {
        assert ids * IdsOf(c) == ids * IdsOf(tail);
      }
    }
  }

  // ---------------------------------------------------------------------------
  // Two-state toggles keyed by the document body (likes, subscriptions)

  /** `findOne(key)` finds something. */
  predicate Present<T(==)>(c: seq<Doc<T>>, key: T) {
    exists i :: 0 <= i < |c| && c[i].body == key
  }

  /** At most one document per key: what a sequence of toggles maintains. */
  predicate UniqueBodies<T(==)>(c: seq<Doc<T>>) {
    forall i, j :: 0 <= i < j < |c| ==> c[i].body != c[j].body
  }

  /** `findOne(key)`: the first document whose fields equal `key`. */
  function FirstWith<T(==)>(c: seq<Doc<T>>, key: T): (r: Option<Doc<T>>)
    ensures r.Some? <==> Present(c, key)
    ensures r.Some? ==> r.value in c && r.value.body == key
  {
    if c == [] then None
    else if c[0].body == key then Some(c[0])
    else
      var r := FirstWith(c[1..], key);
      assert Present(c[1..], key) ==> Present(c, key);
      assert Present(c, key) ==> Present(c[1..], key);
      r
  }

  /** `findOneAndDelete(key)`: removes the first document whose fields equal `key`. */
  function RemoveFirst<T(==)>(c: seq<Doc<T>>, key: T): (r: seq<Doc<T>>)
    ensures |r| <= |c|
  {
    if c == [] then []
    else if c[0].body == key then c[1..]
    else [c[0]] + RemoveFirst(c[1..], key)
  }

  /** Deleting the first document of a key keeps every document of other keys, adds
      nothing, and changes nothing when no document has that key. */
  lemma {:induction false} RemoveFirstMembers<T(!new)>(c: seq<Doc<T>>, key: T)
    ensures forall d :: d in RemoveFirst(c, key) ==> d in c
    ensures forall d: Doc<T> :: d.body != key ==> (d in RemoveFirst(c, key) <==> d in c)
    ensures !Present(c, key) ==> RemoveFirst(c, key) == c
  {
    if c != [] {
      var tail := c[1..];
      assert c == [c[0]] + tail;
      if c[0].body != key {
        RemoveFirstMembers(tail, key);
        assert !Present(c, key) ==> !Present(tail, key);
      }
    }
  }

  /** Deleting keeps ids unique. */
  lemma {:induction false} RemoveFirstUniqueIds<T(!new)>(c: seq<Doc<T>>, key: T)
    requires UniqueIds(c)
    ensures UniqueIds(RemoveFirst(c, key))
  {
    if c != [] && c[0].body != key {
      var tail := c[1..];
      assert UniqueIds(tail);
      RemoveFirstUniqueIds(tail, key);
      RemoveFirstMembers(tail, key);
      var rest := RemoveFirst(tail, key);
      assert ([c[0]] + rest)[1..] == rest;
      assert forall d :: d in rest ==> d.id != c[0].id;
    }
  }

  /** With at most one document per key, deleting keeps that so and leaves none for
      this key. */
  lemma {:induction false} RemoveFirstUniqueBodies<T(!new)>(c: seq<Doc<T>>, key: T)
    requires UniqueBodies(c)
    ensures UniqueBodies(RemoveFirst(c, key)) && !Present(RemoveFirst(c, key), key)
  {
    if c != [] {
      var tail := c[1..];
      assert UniqueBodies(tail);
      if c[0].body == key {
        assert forall i :: 0 <= i < |tail| ==> tail[i].body != key;
      } else {
        RemoveFirstUniqueBodies(tail, key);
        RemoveFirstMembers(tail, key);
        var rest := RemoveFirst(tail, key);
        assert ([c[0]] + rest)[1..] == rest;
        assert forall d :: d in rest ==> d.body != c[0].body;
      }
    }
  }

  /** One toggle: delete the existing document for `key`, or create one. */
  function Toggled<T(==)>(c: seq<Doc<T>>, key: T, newId: Id, now: Time): seq<Doc<T>>
  {
    if Present(c, key) then RemoveFirst(c, key) else c + [Doc(newId, now, now, key)]
  }

  /** A toggle flips the presence of its key, keeps at most one document per key and
      unique ids, and leaves the documents of every other key exactly as they were. */
  lemma ToggledSpec<T(!new)>(c: seq<Doc<T>>, key: T, newId: Id, now: Time)
    requires UniqueBodies(c) && UniqueIds(c) && newId !in IdsOf(c)
    ensures Present(Toggled(c, key, newId, now), key) == !Present(c, key)
    ensures UniqueBodies(Toggled(c, key, newId, now))
    ensures UniqueIds(Toggled(c, key, newId, now))
    ensures forall d: Doc<T> :: d.body != key ==> (d in Toggled(c, key, newId, now) <==> d in c)
  {
    var r := Toggled(c, key, newId, now);
    if Present(c, key) {
      RemoveFirstMembers(c, key);
      RemoveFirstUniqueIds(c, key);
      RemoveFirstUniqueBodies(c, key);
    } else {
      var d := Doc(newId, now, now, key);
      AppendFresh(c, d);
      assert r[|c|] == d;
      forall i, j | 0 <= i < j < |r| ensures r[i].body != r[j].body {
        if j == |c| {
          assert r[i] == c[i];
        }
      }
    }
  }

  /** Deleting the document just created restores the collection exactly. */
  lemma {:induction false} RemoveFirstOfAppended<T>(c: seq<Doc<T>>, d: Doc<T>)
    requires !Present(c, d.body)
    ensures RemoveFirst(c + [d], d.body) == c
  {
    if c == [] {
      assert [] + [d] == [d];
    } else {
      assert (c + [d])[1..] == c[1..] + [d];
      assert !Present(c[1..], d.body);
      RemoveFirstOfAppended(c[1..], d);
      assert c[0].body != d.body;
      assert [c[0]] + c[1..] == c;
    }
  }

  /** Toggling the same key twice restores its presence; starting from "absent" it
      restores the whole collection. */
  lemma ToggleTwice<T(!new)>(c: seq<Doc<T>>, key: T, id1: Id, t1: Time, id2: Id, t2: Time)
    requires UniqueBodies(c) && UniqueIds(c) && id1 !in IdsOf(c)
    ensures Present(Toggled(Toggled(c, key, id1, t1), key, id2, t2), key) == Present(c, key)
    ensures !Present(c, key) ==> Toggled(Toggled(c, key, id1, t1), key, id2, t2) == c
  {
    var once := Toggled(c, key, id1, t1);
    ToggledSpec(c, key, id1, t1);
    if Present(c, key) {
      assert !Present(once, key);
      assert Toggled(once, key, id2, t2) == once + [Doc(id2, t2, t2, key)];
      assert (once + [Doc(id2, t2, t2, key)])[|once|].body == key;
    } else {
      RemoveFirstOfAppended(c, Doc(id1, t1, t1, key));
    }
  }

  // ---------------------------------------------------------------------------
  // Duplicate-free lists of ids (Playlist.videos)

  predicate Distinct<T(==)>(s: seq<T>) {
    forall i, j :: 0 <= i < j < |s| ==> s[i] != s[j]
  }

  function Elems<T(==)>(s: seq<T>): set<T> {
    set x | x in s
  }

  /** A duplicate-free list has as many entries as distinct values. */
  lemma {:induction false} DistinctCard<T>(s: seq<T>)
    requires Distinct(s)
    ensures |Elems(s)| == |s|
  {
    if s != [] {
      assert Distinct(s[1..]);
      DistinctCard(s[1..]);
      assert s == [s[0]] + s[1..];
      assert Elems(s) == {s[0]} + Elems(s[1..]);
      assert s[0] !in Elems(s[1..]);
    }
  }

  /** `list.filter(x => x !== v)`. */
  function RemoveAll<T(==)>(s: seq<T>, v: T): (r: seq<T>)
    ensures |r| <= |s|
  {
    if s == [] then []
    else if s[0] == v then RemoveAll(s[1..], v)
    else [s[0]] + RemoveAll(s[1..], v)
  }

  /** Filtering out `v` keeps exactly the other entries and keeps a list duplicate-free. */
  lemma {:induction false} RemoveAllSpec<T(!new)>(s: seq<T>, v: T)
    ensures forall x :: x in RemoveAll(s, v) <==> x in s && x != v
    ensures Distinct(s) ==> Distinct(RemoveAll(s, v))
  {
    if s != [] {
      RemoveAllSpec(s[1..], v);
      assert s == [s[0]] + s[1..];
      assert Distinct(s) ==> Distinct(s[1..]) && s[0] !in s[1..];
    }
  }

  lemma {:induction false} RemoveAllAbsent<T>(s: seq<T>, v: T)
    requires v !in s
    ensures RemoveAll(s, v) == s
  {
    if s != [] {
      assert v !in s[1..];
      RemoveAllAbsent(s[1..], v);
      assert s == [s[0]] + s[1..];
    }
  }

  /** In a duplicate-free list, removing the entry at position `k` keeps every other entry
      in its relative order. */
  lemma {:induction false} RemoveAllAt<T>(s: seq<T>, k: nat)
    requires Distinct(s) && k < |s|
    ensures RemoveAll(s, s[k]) == s[..k] + s[k + 1..]
  {
    if k == 0 {
      RemoveAllAbsent(s[1..], s[0]);
    } else {
      assert Distinct(s[1..]);
      RemoveAllAt(s[1..], k - 1);
      assert s[1..][k - 1] == s[k];
      assert s[1..][..k - 1] == s[1..k];
      assert s[1..][k..] == s[k + 1..];
      assert s[0] != s[k];
      assert s[..k] == [s[0]] + s[1..k];
    }
  }

  /** Appending a new entry keeps the list duplicate-free and leaves the earlier entries
      where they were. */
  lemma AppendDistinct<T>(s: seq<T>, v: T)
    requires Distinct(s) && v !in s
    ensures Distinct(s + [v])
    ensures (s + [v])[..|s|] == s && (s + [v])[|s|] == v
  {
  }

  /** Appending an entry that was not listed and then removing it gives back the
      original list. */
  lemma {:induction false} AppendThenRemove<T>(s: seq<T>, v: T)
    requires v !in s
    ensures RemoveAll(s + [v], v) == s
  {
    if s == [] {
      assert [] + [v] == [v];
    } else {
      assert (s + [v])[1..] == s[1..] + [v];
      AppendThenRemove(s[1..], v);
      assert [s[0]] + s[1..] == s;
    }
  }
}
