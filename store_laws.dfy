/** What each store action promises: what it changes, what it leaves alone,
    and the invariants it keeps. */
module StoreLaws {
  import opened Roadmap
  import opened Seqs
  import opened Actions

  // ---------------------------------------------------------------- items

  /** `addEmptyItem` appends one fresh item at the end, in Q1 and the first
      settings key, and parks its card at the origin; nothing else changes. */
  lemma AddEmptyItemAppends(s: State, id: string)
    ensures var r := AddEmptyItem(s, id);
      && |r.items| == |s.items| + 1 && r.items[..|s.items|] == s.items
      && r.items[|s.items|].id == id
      && r.items[|s.items|].title == "New Item"
      && r.items[|s.items|].description == ""
      && r.items[|s.items|].quarter == Q1
      && r.items[|s.items|].category == (if s.keys == [] then Unassigned else Ref(s.keys[0]))
      && r.items[|s.items|].progress == 0
      && r.positions.Keys == s.positions.Keys + {id} && r.positions[id] == Position(0, 0)
      && (forall k :: k in s.positions && k != id ==> r.positions[k] == s.positions[k])
      && r.keys == s.keys && r.settings == s.settings && r.categoryOrder == s.categoryOrder
  {
  }

  /** With a fresh id, item ids stay unique. */
  lemma AddEmptyItemKeepsIdsUnique(s: State, id: string)
    requires UniqueIds(s.items) && id !in Ids(s.items)
    ensures UniqueIds(AddEmptyItem(s, id).items)
  {
    var r := AddEmptyItem(s, id).items;
    forall i, j | 0 <= i < j < |r| ensures Ids(r)[i] != Ids(r)[j] {
      if j == |s.items| {
        assert Ids(s.items)[i] == s.items[i].id;
      } else {
        assert Ids(s.items)[i] != Ids(s.items)[j];
      }
    }
  }

  /** `updateItem` overlays the update onto exactly the items with the id; the
      length, the order and every other item are unchanged. */
  lemma UpdateItemOverlaysMatching(s: State, id: string, u: ItemUpdate)
    ensures var r := UpdateItem(s, id, u);
      && |r.items| == |s.items|
      && (forall i :: 0 <= i < |s.items| ==>
            r.items[i] == (if s.items[i].id == id then Overlay(s.items[i], u) else s.items[i]))
      && r.positions == s.positions && r.keys == s.keys
      && r.settings == s.settings && r.categoryOrder == s.categoryOrder
  {
  }

  /** An update for an id no item has changes nothing. */
  lemma UpdateItemAbsentIdIsNoOp(s: State, id: string, u: ItemUpdate)
    requires id !in Ids(s.items)
    ensures UpdateItem(s, id, u) == s
  {
    forall x | x in s.items ensures OverlayIfId(id, u)(x) == x {
      var i :| 0 <= i < |s.items| && s.items[i] == x;
      assert Ids(s.items)[i] == x.id;
    }
    MapFixed(s.items, OverlayIfId(id, u));
  }

  /** `moveItem` sets the quarter of the matching items and nothing else. */
  lemma MoveItemSetsOnlyQuarter(s: State, id: string, q: Quarter)
    ensures var r := MoveItem(s, id, q);
      && |r.items| == |s.items|
      && (forall i :: 0 <= i < |s.items| ==>
            r.items[i] == (if s.items[i].id == id then s.items[i].(quarter := q) else s.items[i]))
      && r.positions == s.positions && r.keys == s.keys
      && r.settings == s.settings && r.categoryOrder == s.categoryOrder
  {
  }

  /** Updates that leave the id alone keep the id sequence, hence uniqueness. */
  lemma UpdateItemKeepsIds(s: State, id: string, u: ItemUpdate)
    requires u.id.None?
    ensures Ids(UpdateItem(s, id, u).items) == Ids(s.items)
  {
  }

  /** `deleteItem` drops exactly the items with the id and the id's position;
      nothing else changes. */
  lemma DeleteItemRemovesId(s: State, id: string)
    ensures var r := DeleteItem(s, id);
      && (forall x :: x in r.items <==> x in s.items && x.id != id)
      && multiset(r.items) + multiset(Filter(s.items, HasId(id))) == multiset(s.items)
      && r.positions == s.positions - {id}
      && r.keys == s.keys && r.settings == s.settings && r.categoryOrder == s.categoryOrder
  {
    forall x { FilterMember(s.items, HasOtherId(id), x); }
    FilterSplitsMultiset(s.items, HasOtherId(id), HasId(id));
  }

  /** With unique ids, deleting the id of the item at `k` removes that item
      and keeps the others in order. */
  lemma DeleteItemDropsOne(s: State, k: nat)
    requires UniqueIds(s.items) && k < |s.items|
    ensures DeleteItem(s, s.items[k].id).items == s.items[..k] + s.items[k + 1..]
  {
    var id := s.items[k].id;
    forall i | 0 <= i < |s.items| && i != k ensures HasOtherId(id)(s.items[i]) {
      assert Ids(s.items)[i] == s.items[i].id && Ids(s.items)[k] == id;
    }
    FilterDropsIndex(s.items, k, HasOtherId(id));
  }

  /** Deleting keeps item ids unique. */
  lemma DeleteItemKeepsIdsUnique(s: State, id: string)
    requires UniqueIds(s.items)
    ensures UniqueIds(DeleteItem(s, id).items)
  {
    FilterIdsUnique(s.items, HasOtherId(id));
  }

  /** Filtering keeps ids unique. */
  lemma {:induction false} FilterIdsUnique(items: seq<Item>, p: Item -> bool)
    requires UniqueIds(items)
    ensures UniqueIds(Filter(items, p))
  {
    if items != [] {
      assert UniqueIds(items[1..]) by {
        forall i, j | 0 <= i < j < |items| - 1 ensures Ids(items[1..])[i] != Ids(items[1..])[j] {
          assert Ids(items)[i + 1] != Ids(items)[j + 1];
        }
      }
      FilterIdsUnique(items[1..], p);
      var rest := Filter(items[1..], p);
      if p(items[0]) {
        forall x | x in rest ensures x.id != items[0].id {
          FilterMember(items[1..], p, x);
          var k :| 0 <= k < |items[1..]| && items[1..][k] == x;
          assert Ids(items)[0] != Ids(items)[k + 1];
        }
        var r := [items[0]] + rest;
        forall i, j | 0 <= i < j < |r| ensures Ids(r)[i] != Ids(r)[j] {
          if i == 0 {
            assert r[j] in rest;
          } else {
            assert Ids(rest)[i - 1] != Ids(rest)[j - 1];
          }
        }
      } else {
        assert Filter(items, p) == rest;
      }
    }
  }

  // ------------------------------------------------------------ reordering

  /** With unique ids, looking an item's id up finds that item. */
  lemma LastWithIdFindsUnique(items: seq<Item>, x: Item)
    requires UniqueIds(items) && x in items
    ensures LastWithId(items, x.id) == Some(x)
  {
    var r := LastWithId(items, x.id);
    var i :| 0 <= i < |items| && items[i] == x;
    var j :| 0 <= j < |items| && items[j] == r.value;
    assert Ids(items)[i] == Ids(items)[j];
  }

  /** Looking up a concatenation of id lists concatenates the lookups. */
  lemma {:induction false} LookupAllConcat(items: seq<Item>, a: seq<string>, b: seq<string>)
    ensures LookupAll(items, a + b) == LookupAll(items, a) + LookupAll(items, b)
  {
    if a == [] {
      assert a + b == b;
    } else {
      assert (a + b)[0] == a[0];
      assert (a + b)[1..] == a[1..] + b;
      LookupAllConcat(items, a[1..], b);
      calc {
        LookupAll(items, a + b);
        LookupOne(items, a[0]) + LookupAll(items, a[1..] + b);
        LookupOne(items, a[0]) + (LookupAll(items, a[1..]) + LookupAll(items, b));
        (LookupOne(items, a[0]) + LookupAll(items, a[1..])) + LookupAll(items, b);
      }
    }
  }

  /** Looking up a sequence of ids is looking up one of them and the rest. */
  lemma LookupAllAt(items: seq<Item>, b: seq<string>, k: nat)
    requires k < |b|
    ensures multiset(LookupAll(items, b))
            == multiset(LookupOne(items, b[k])) + multiset(LookupAll(items, b[..k] + b[k + 1..]))
  {
    assert b == b[..k] + ([b[k]] + b[k + 1..]);
    LookupAllConcat(items, b[..k], [b[k]] + b[k + 1..]);
    LookupAllConcat(items, [b[k]], b[k + 1..]);
    LookupAllConcat(items, b[..k], b[k + 1..]);
    assert [b[k]][1..] == [];
    assert LookupAll(items, [b[k]]) == LookupOne(items, b[k]);
  }

  /** Looking up a permutation of the ids yields a permutation of the items. */
  lemma {:induction false} LookupAllPermutation(items: seq<Item>, a: seq<string>, b: seq<string>)
    requires multiset(a) == multiset(b)
    ensures multiset(LookupAll(items, a)) == multiset(LookupAll(items, b))
    decreases |a|
  {
    if a != [] {
      assert a[0] in multiset(b);
      var k :| 0 <= k < |b| && b[k] == a[0];
      var b' := b[..k] + b[k + 1..];
      assert multiset(a[1..]) == multiset(b') by {
        assert a == [a[0]] + a[1..];
        assert b == b[..k] + [b[k]] + b[k + 1..];
        assert multiset(a[1..]) == multiset(a) - multiset{a[0]};
        assert multiset(b') == multiset(b) - multiset{b[k]};
      }
      LookupAllPermutation(items, a[1..], b');
      LookupAllAt(items, b, k);
    }
  }

  /** With unique ids, looking up the ids of some items gives those items back. */
  lemma {:induction false} LookupOwnIds(items: seq<Item>, xs: seq<Item>)
    requires UniqueIds(items)
    requires forall x :: x in xs ==> x in items
    ensures LookupAll(items, Ids(xs)) == xs
  {
    if xs != [] {
      var ids := Ids(xs);
      assert ids[0] == xs[0].id;
      assert ids[1..] == Ids(xs[1..]);
      LookupOwnIds(items, xs[1..]);
      LastWithIdFindsUnique(items, xs[0]);
      assert LookupOne(items, ids[0]) == [xs[0]];
      assert LookupAll(items, ids) == LookupOne(items, ids[0]) + LookupAll(items, ids[1..]);
      assert xs == [xs[0]] + xs[1..];
    }
  }

  /** The cell's items looked up in any order of their ids are the cell's
      items, up to order. */
  lemma LookupBucketPermutes(items: seq<Item>, c: CategoryRef, q: Quarter, orderedIds: seq<string>)
    requires UniqueIds(items)
    requires multiset(orderedIds) == multiset(Ids(Bucket(items, c, q)))
    ensures multiset(LookupAll(items, orderedIds)) == multiset(Bucket(items, c, q))
    ensures forall x :: x in LookupAll(items, orderedIds) ==> InBucket(x, c, q)
  {
    var bucket := Bucket(items, c, q);
    var looked := LookupAll(items, orderedIds);
    assert forall x :: x in bucket ==> x in items by {
      forall x | x in bucket ensures x in items {
        FilterMember(items, IsInBucket(c, q), x);
      }
    }
    LookupAllPermutation(items, orderedIds, Ids(bucket));
    LookupOwnIds(items, bucket);
    assert multiset(looked) == multiset(bucket);
    forall x | x in looked ensures InBucket(x, c, q) {
      assert x in multiset(looked);
      assert x in multiset(bucket);
      assert x in bucket;
      FilterMember(items, IsInBucket(c, q), x);
    }
  }

  /** `reorderItems` with a permutation of the cell's ids (and unique item ids)
      neither gains nor loses an item; the cell's items are the ones looked up,
      in the given order, and the items outside it keep their order. */
  lemma ReorderItemsPermutes(s: State, c: CategoryRef, q: Quarter, orderedIds: seq<string>)
    requires UniqueIds(s.items)
    requires multiset(orderedIds) == multiset(Ids(Bucket(s.items, c, q)))
    ensures var r := ReorderItems(s, c, q, orderedIds);
      && multiset(r.items) == multiset(s.items)
      && OutsideBucket(r.items, c, q) == OutsideBucket(s.items, c, q)
      && Bucket(r.items, c, q) == LookupAll(s.items, orderedIds)
      && r.positions == s.positions && r.keys == s.keys
      && r.settings == s.settings && r.categoryOrder == s.categoryOrder
  {
    var outside := OutsideBucket(s.items, c, q);
    var looked := LookupAll(s.items, orderedIds);
    LookupBucketPermutes(s.items, c, q, orderedIds);
    FilterSplitsMultiset(s.items, IsInBucket(c, q), IsOutsideBucket(c, q));
    ReorderSplit(outside, looked, c, q);
  }

  /** Filtering the items outside a cell followed by the items inside it
      separates the two again. */
  lemma ReorderSplit(outside: seq<Item>, looked: seq<Item>, c: CategoryRef, q: Quarter)
    requires forall x :: x in outside ==> !InBucket(x, c, q)
    requires forall x :: x in looked ==> InBucket(x, c, q)
    ensures Filter(outside + looked, IsInBucket(c, q)) == looked
    ensures Filter(outside + looked, IsOutsideBucket(c, q)) == outside
  {
    FilterConcat(outside, looked, IsInBucket(c, q));
    FilterConcat(outside, looked, IsOutsideBucket(c, q));
    FilterNoneKept(outside, IsInBucket(c, q));
    FilterAllKept(outside, IsOutsideBucket(c, q));
    FilterAllKept(looked, IsInBucket(c, q));
    FilterNoneKept(looked, IsOutsideBucket(c, q));
  }

  /** Reordering a cell by the ids of a rearrangement `xs` of its items puts
      exactly `xs` in the cell, after the items outside it. */
  lemma ReorderWithOwnItems(s: State, c: CategoryRef, q: Quarter, xs: seq<Item>)
    requires UniqueIds(s.items)
    requires multiset(xs) == multiset(Bucket(s.items, c, q))
    ensures var r := ReorderItems(s, c, q, Ids(xs));
      && r.items == OutsideBucket(s.items, c, q) + xs
      && Bucket(r.items, c, q) == xs
      && OutsideBucket(r.items, c, q) == OutsideBucket(s.items, c, q)
      && multiset(r.items) == multiset(s.items)
  {
    var bucket := Bucket(s.items, c, q);
    forall x | x in xs ensures x in s.items && InBucket(x, c, q) {
      assert x in multiset(xs);
      assert x in bucket;
      FilterMember(s.items, IsInBucket(c, q), x);
    }
    LookupOwnIds(s.items, xs);
    FilterSplitsMultiset(s.items, IsInBucket(c, q), IsOutsideBucket(c, q));
    ReorderSplit(OutsideBucket(s.items, c, q), xs, c, q);
  }

  /** Unknown ids are skipped, and a cell item whose id is not listed is gone. */
  lemma ReorderItemsDropsUnlisted(s: State, c: CategoryRef, q: Quarter, orderedIds: seq<string>, x: Item)
    requires x in Bucket(s.items, c, q) && x.id !in orderedIds
    ensures var r := ReorderItems(s, c, q, orderedIds);
      && x !in r.items
      && |r.items| == |OutsideBucket(s.items, c, q)| + |Filter(orderedIds, Known(s.items))|
  {
    FilterMember(s.items, IsOutsideBucket(c, q), x);
  }

  // ----------------------------------------------------------- categories

  /** `addCategory` of a known category is a no-op. */
  lemma AddCategoryKnownIsNoOp(s: State, c: string)
    requires c in s.settings
    ensures AddCategory(s, c) == s
  {
  }

  /** A new category is appended once to the keys and to the order, gets the
      first palette colour not yet used (else the fallback), its display name
      and black text; the items are untouched. */
  lemma AddCategoryAppends(s: State, c: string)
    requires c !in s.settings
    ensures var r := AddCategory(s, c);
      && r.keys == s.keys + [c] && r.categoryOrder == s.categoryOrder + [c]
      && r.settings.Keys == s.settings.Keys + {c}
      && (forall k :: k in s.settings ==> r.settings[k] == s.settings[k])
      && r.settings[c].name == DisplayName(c)
      && r.settings[c].textColor == "text-black"
      && (r.settings[c].color == FallbackColor <==> forall p :: p in Palette ==> p in UsedColors(s.settings))
      && (r.settings[c].color != FallbackColor ==>
            exists i :: 0 <= i < |Palette| && Palette[i] == r.settings[c].color
                        && r.settings[c].color !in UsedColors(s.settings)
                        && forall j :: 0 <= j < i ==> Palette[j] in UsedColors(s.settings))
      && r.items == s.items && r.positions == s.positions
  {
    var used := UsedColors(s.settings);
    var i := FirstFreeIndex(Palette, used);
    FirstFreeIndexFinds(Palette, used);
    if i < |Palette| {
      assert Palette[i] != FallbackColor;
    } else {
      forall p | p in Palette ensures p in used {
        var j :| 0 <= j < |Palette| && Palette[j] == p;
      }
    }
  }

  /** Adding a category keeps the settings keys well formed. */
  lemma AddCategoryKeepsWellFormed(s: State, c: string)
    requires SettingsWellFormed(s)
    ensures SettingsWellFormed(AddCategory(s, c))
  {
  }

  /** Editing settings changes only that category's record (creating it, at
      the end of the key order, when it is unknown); well-formedness is kept. */
  lemma UpdateCategorySettingsOnlyThat(s: State, c: string, u: SettingsUpdate)
    requires SettingsWellFormed(s)
    ensures var r := UpdateCategorySettings(s, c, u);
      && SettingsWellFormed(r)
      && r.settings.Keys == s.settings.Keys + {c}
      && r.settings[c] == OverlaySettings(if c in s.settings then s.settings[c] else NoSettings, u)
      && (forall k :: k in s.settings && k != c ==> r.settings[k] == s.settings[k])
      && r.keys == (if c in s.settings then s.keys else s.keys + [c])
      && r.items == s.items && r.positions == s.positions && r.categoryOrder == s.categoryOrder
  {
  }

  /** `deleteCategory` removes the settings entry and every order entry of the
      category, keeps the other keys and order entries in order, and moves its
      items (only those) to the first remaining settings key. */
  lemma DeleteCategoryRemoves(s: State, c: string)
    requires SettingsWellFormed(s)
    ensures var r := DeleteCategory(s, c);
      && SettingsWellFormed(r)
      && r.settings == s.settings - {c}
      && c !in r.keys && c !in r.categoryOrder
      && r.keys == Filter(s.keys, IsNot(c))
      && r.categoryOrder == Filter(s.categoryOrder, IsNot(c))
      && (forall k :: k in r.keys <==> k in s.keys && k != c)
      && (forall k :: k in r.categoryOrder <==> k in s.categoryOrder && k != c)
      && |r.items| == |s.items|
      && (forall i :: 0 <= i < |s.items| ==>
            r.items[i] == (if s.items[i].category == Ref(c)
                           then s.items[i].(category := FirstKey(r.keys)) else s.items[i]))
      && r.positions == s.positions
  {
    var keys := Filter(s.keys, IsNot(c));
    forall k ensures k in keys <==> k in s.keys && k != c {
      FilterMember(s.keys, IsNot(c), k);
    }
    forall k ensures k in Filter(s.categoryOrder, IsNot(c)) <==> k in s.categoryOrder && k != c {
      FilterMember(s.categoryOrder, IsNot(c), k);
    }
    FilterKeepsDistinct(s.keys, IsNot(c));
  }

  /** The fallback is the first key in insertion order other than the deleted
      one, not the first entry of `categoryOrder`. */
  lemma DeleteCategoryFallback(s: State, c: string)
    requires SettingsWellFormed(s)
    ensures s.keys != [] && s.keys[0] != c ==> FirstKey(DeleteCategory(s, c).keys) == Ref(s.keys[0])
    ensures s.keys != [] && s.keys[0] == c ==> FirstKey(DeleteCategory(s, c).keys) == FirstKey(s.keys[1..])
  {
    if s.keys != [] && s.keys[0] == c {
      assert c !in s.keys[1..];
      FilterAllKept(s.keys[1..], IsNot(c));
    }
  }

  /** Deleting a present category shrinks the category set by exactly one. */
  lemma DeleteCategoryShrinksByOne(s: State, c: string)
    requires SettingsWellFormed(s) && c in s.settings
    ensures |DeleteCategory(s, c).keys| == |s.keys| - 1
    ensures |DeleteCategory(s, c).settings| == |s.settings| - 1
  {
    FilterDropsOne(s.keys, IsNot(c), c);
  }

  /** `reorderCategories` takes the order verbatim, so repeating it is harmless. */
  lemma ReorderCategoriesIdempotent(s: State, o: seq<string>)
    ensures ReorderCategories(ReorderCategories(s, o), o) == ReorderCategories(s, o)
    ensures ReorderCategories(s, o).categoryOrder == o
    ensures ReorderCategories(s, o).(categoryOrder := s.categoryOrder) == s
  {
  }
}
