/** The selection state machine of the calculator (App.tsx): the map of
    selected items, the toggle and quantity handlers, and the roll-up of
    price and time over the selection. */
module App {
  import opened Catalog

  datatype Option<T> = None | Some(value: T)

  /** One selected item and how many of it. */
  datatype Entry = Entry(item: Item, quantity: int)

  /** The selection: a JavaScript Map from key to entry, seen as its keys in
      insertion order (the order `forEach` and `values()` visit) and the entry
      stored under each key. */
  datatype Selection = Selection(order: seq<string>, entries: map<string, Entry>)

  const Empty := Selection([], map[])

  predicate NoDuplicates(s: seq<string>)
  {
    forall i, j :: 0 <= i < j < |s| ==> s[i] != s[j]
  }

  /** What every JavaScript Map satisfies: each key appears once in the
      order, and the order holds exactly the keys of the map. */
  predicate Valid(s: Selection)
  {
    && NoDuplicates(s.order)
    && (forall k :: k in s.order ==> k in s.entries)
    && (forall k :: k in s.entries ==> k in s.order)
  }

  /** Every selected quantity is at least 1. */
  predicate QuantitiesPositive(m: map<string, Entry>)
  {
    forall k :: k in m ==> m[k].quantity >= 1
  }

  // ---------------------------------------------------------------------
  // Keys

  /** The key of an add-on under its parent service. */
  function ChildKey(parentName: string, childName: string): (k: string)
    ensures |k| > |parentName|
  {
    parentName + "-" + childName
  }

  /** The key a toggle acts on: `parent-item` for an add-on, the bare name for
      a top-level service. */
  function ToggleKey(item: Item, parent: Option<Item>): (k: string)
    ensures parent.None? ==> k == item.name
    ensures parent.Some? ==> k == ChildKey(parent.value.name, item.name) && k != parent.value.name
  {
    match parent
    case None => item.name
    case Some(p) => ChildKey(p.name, item.name)
  }

  /** The keys of the first `n` add-ons of `item`, as the cascade builds them. */
  function AddOnKeysUpTo(item: Item, n: nat): set<string>
    requires n <= |item.addOns|
  {
    set i | 0 <= i < n :: ChildKey(item.name, item.addOns[i].name)
  }

  lemma AddOnKeysStep(item: Item, i: nat)
    requires i < |item.addOns|
    ensures AddOnKeysUpTo(item, i + 1) == AddOnKeysUpTo(item, i) + {ChildKey(item.name, item.addOns[i].name)}
  {
  }

  /** Every key the removal of `item` cascades to. */
  function CascadeKeys(item: Item): set<string>
  {
    AddOnKeysUpTo(item, |item.addOns|)
  }

  lemma CascadeKeysOf(item: Item, a: Item)
    requires a in item.addOns
    ensures ChildKey(item.name, a.name) in CascadeKeys(item)
  {
    var i :| 0 <= i < |item.addOns| && item.addOns[i] == a;
    assert ChildKey(item.name, item.addOns[i].name) in CascadeKeys(item);
  }

  // ---------------------------------------------------------------------
  // The order of keys after deletions

  /** `s` without the keys in `gone`, the rest in their order. */
  function Without(s: seq<string>, gone: set<string>): (r: seq<string>)
    ensures forall k :: k in r <==> k in s && k !in gone
  {
    if s == [] then []
    else
      var init, last := s[..|s| - 1], s[|s| - 1];
      assert s == init + [last];
      Without(init, gone) + (if last in gone then [] else [last])
  }

  lemma AppendNoDuplicates(s: seq<string>, k: string)
    requires NoDuplicates(s) && k !in s
    ensures NoDuplicates(s + [k])
  {
  }

  lemma {:induction false} WithoutNoDuplicates(s: seq<string>, gone: set<string>)
    requires NoDuplicates(s)
    ensures NoDuplicates(Without(s, gone))
  {
    if s != [] {
      var init, last := s[..|s| - 1], s[|s| - 1];
      forall j | 0 <= j < |init| ensures init[j] != last {
        assert init[j] == s[j];
      }
      WithoutNoDuplicates(init, gone);
      if last !in gone {
        AppendNoDuplicates(Without(init, gone), last);
      }
    }
  }

  lemma {:induction false} WithoutNothing(s: seq<string>, gone: set<string>)
    requires forall k :: k in s ==> k !in gone
    ensures Without(s, gone) == s
  {
    if s != [] {
      var init, last := s[..|s| - 1], s[|s| - 1];
      WithoutNothing(init, gone);
      assert last in s;
      assert Without(s, gone) == init + [last];
      assert init + [last] == s;
    }
  }

  lemma {:induction false} WithoutTwice(s: seq<string>, a: set<string>, b: set<string>)
    ensures Without(Without(s, a), b) == Without(s, a + b)
  {
    if s != [] {
      var init, last := s[..|s| - 1], s[|s| - 1];
      WithoutTwice(init, a, b);
      var w := Without(init, a);
      if last in a {
        assert Without(s, a) == w;
      } else {
        var wl := w + [last];
        assert Without(s, a) == wl;
        assert wl[..|wl| - 1] == w;
      }
    }
  }

  lemma WithoutAppended(s: seq<string>, k: string, gone: set<string>)
    requires k in gone
    ensures Without(s + [k], gone) == Without(s, gone)
  {
    assert (s + [k])[..|s|] == s;
  }

  // ---------------------------------------------------------------------
  // Map operations

  /** `Map.delete` of every key in `gone`. */
  function DeleteAll(s: Selection, gone: set<string>): (r: Selection)
    requires Valid(s)
    ensures Valid(r)
    ensures r.entries == s.entries - gone
  {
    WithoutNoDuplicates(s.order, gone);
    Selection(Without(s.order, gone), s.entries - gone)
  }

  /** Deleting one more key after some deletions, whether or not the key is
      still there. */
  lemma DeleteOneMore(s: Selection, gone: set<string>, k: string)
    requires Valid(s)
    ensures var d := DeleteAll(s, gone);
      DeleteAll(s, gone + {k}) == if k in d.entries then DeleteAll(d, {k}) else d
  {
    var d := DeleteAll(s, gone);
    var r := DeleteAll(s, gone + {k});
    WithoutTwice(s.order, gone, {k});
    if k in d.entries {
      DeleteAgainEntries(s.entries, gone, k);
    } else {
      WithoutAbsent(d.order, k);
      DeleteAbsentEntries(d.entries, k);
      assert r.entries == s.entries - (gone + {k});
      DeleteAgainEntries(s.entries, gone, k);
    }
  }

  lemma DeleteAgainEntries(m: map<string, Entry>, gone: set<string>, k: string)
    ensures (m - gone) - {k} == m - (gone + {k})
  {
  }

  lemma DeleteAbsentEntries(m: map<string, Entry>, k: string)
    requires k !in m
    ensures m - {k} == m
  {
  }

  lemma WithoutAbsent(s: seq<string>, k: string)
    requires k !in s
    ensures Without(s, {k}) == s
  {
    WithoutNothing(s, {k});
  }

  /** `Map.set`: a new key goes to the end of the order, an existing key
      keeps its place. */
  function Set(s: Selection, k: string, e: Entry): (r: Selection)
    requires Valid(s)
    ensures Valid(r)
    ensures r.entries == s.entries[k := e]
    ensures k in s.entries ==> r.order == s.order
    ensures k !in s.entries ==> r.order == s.order + [k]
  {
    if k in s.entries then Selection(s.order, s.entries[k := e])
    else
      var r := Selection(s.order + [k], s.entries[k := e]);
      assert forall x :: x in r.order <==> x in s.order || x == k;
      r
  }

  /** The cascade of handleToggleItem after its first `n` add-ons: each
      add-on key that is still present is deleted, one after another. */
  function Cascade(s: Selection, item: Item, n: nat): (r: Selection)
    requires Valid(s) && n <= |item.addOns|
    ensures Valid(r)
  {
    if n == 0 then s
    else
      var d := Cascade(s, item, n - 1);
      var k := ChildKey(item.name, item.addOns[n - 1].name);
      if k in d.entries then DeleteAll(d, {k}) else d
  }

  /** Deleting the add-on keys one by one is deleting them all at once. */
  lemma {:induction false} CascadeDeletes(s: Selection, key: string, item: Item, n: nat)
    requires Valid(s) && n <= |item.addOns|
    ensures Cascade(DeleteAll(s, {key}), item, n) == DeleteAll(s, {key} + AddOnKeysUpTo(item, n))
  {
    if n == 0 {
      assert {key} + AddOnKeysUpTo(item, 0) == {key};
    } else {
      CascadeDeletes(s, key, item, n - 1);
      var k := ChildKey(item.name, item.addOns[n - 1].name);
      AddOnKeysStep(item, n - 1);
      assert {key} + AddOnKeysUpTo(item, n) == ({key} + AddOnKeysUpTo(item, n - 1)) + {k};
      DeleteOneMore(s, {key} + AddOnKeysUpTo(item, n - 1), k);
    }
  }

  // ---------------------------------------------------------------------
  // handleToggleItem

  /** The selection after toggling `item` (under `parent` for an add-on).
      A present key is removed together with the keys of the item's own
      add-ons; an absent key is inserted with quantity 1, and an add-on whose
      parent was not selected brings its parent in with quantity 1. */
  function Toggled(s: Selection, item: Item, parent: Option<Item>): (r: Selection)
    requires Valid(s)
    ensures Valid(r)
  {
    var key := ToggleKey(item, parent);
    if key in s.entries then DeleteAll(s, {key} + CascadeKeys(item))
    else
      var withItem := Set(s, key, Entry(item, 1));
      if parent.Some? && parent.value.name !in s.entries then
        Set(withItem, parent.value.name, Entry(parent.value, 1))
      else withItem
  }

  /** The entries after a toggle that removes. */
  lemma ToggledRemovalEntries(s: Selection, item: Item, parent: Option<Item>)
    requires Valid(s) && ToggleKey(item, parent) in s.entries
    ensures Toggled(s, item, parent).entries == s.entries - ({ToggleKey(item, parent)} + CascadeKeys(item))
  {
  }

  /** The entries after a toggle that inserts. */
  lemma ToggledInsertionEntries(s: Selection, item: Item, parent: Option<Item>)
    requires Valid(s) && ToggleKey(item, parent) !in s.entries
    ensures var withItem := s.entries[ToggleKey(item, parent) := Entry(item, 1)];
      Toggled(s, item, parent).entries ==
        if parent.Some? && parent.value.name !in s.entries
        then withItem[parent.value.name := Entry(parent.value, 1)]
        else withItem
  {
  }

  /** A toggle flips whether its key is selected. */
  lemma ToggleFlipsKey(s: Selection, item: Item, parent: Option<Item>)
    requires Valid(s)
    ensures ToggleKey(item, parent) in Toggled(s, item, parent).entries
            <==> ToggleKey(item, parent) !in s.entries
  {
    if ToggleKey(item, parent) in s.entries {
      ToggledRemovalEntries(s, item, parent);
    } else {
      ToggledInsertionEntries(s, item, parent);
    }
  }

  /** Toggling an absent key inserts it with quantity 1 and touches no other
      key except the parent of an add-on. */
  lemma ToggleInserts(s: Selection, item: Item, parent: Option<Item>)
    requires Valid(s)
    requires ToggleKey(item, parent) !in s.entries
    ensures var r := Toggled(s, item, parent);
      && ToggleKey(item, parent) in r.entries
      && r.entries[ToggleKey(item, parent)] == Entry(item, 1)
      && (forall k :: k in r.entries && k != ToggleKey(item, parent) ==>
            k in s.entries || (parent.Some? && k == parent.value.name))
      && (forall k :: k in s.entries ==> k in r.entries && r.entries[k] == s.entries[k])
  {
    ToggledInsertionEntries(s, item, parent);
  }

  /** Toggling an add-on selects its parent: with quantity 1 when the parent
      was not selected, and leaving the parent's entry as it was otherwise. */
  lemma ToggleSelectsParent(s: Selection, item: Item, p: Item)
    requires Valid(s)
    requires ChildKey(p.name, item.name) !in s.entries
    ensures var r := Toggled(s, item, Some(p));
      && p.name in r.entries
      && (p.name !in s.entries ==> r.entries[p.name] == Entry(p, 1))
      && (p.name in s.entries ==> r.entries[p.name] == s.entries[p.name])
  {
    ToggledInsertionEntries(s, item, Some(p));
  }

  /** Toggling a present key removes it and every add-on key of the item, and
      nothing else; in particular removing an add-on leaves its parent and its
      siblings selected. */
  lemma ToggleRemoves(s: Selection, item: Item, parent: Option<Item>)
    requires Valid(s)
    requires ToggleKey(item, parent) in s.entries
    ensures var r := Toggled(s, item, parent);
      && ToggleKey(item, parent) !in r.entries
      && (forall a :: a in item.addOns ==> ChildKey(item.name, a.name) !in r.entries)
      && (forall k :: k in r.entries ==> k in s.entries && r.entries[k] == s.entries[k])
      && (forall k :: k in s.entries && k != ToggleKey(item, parent) && k !in CascadeKeys(item) ==> k in r.entries)
  {
    ToggledRemovalEntries(s, item, parent);
    forall a | a in item.addOns
      ensures ChildKey(item.name, a.name) in CascadeKeys(item)
    {
      CascadeKeysOf(item, a);
    }
  }

  /** None of the keys an item's removal cascades to is selected. */
  lemma CascadeKeysAbsent(m: map<string, Entry>, item: Item)
    requires forall a :: a in item.addOns ==> ChildKey(item.name, a.name) !in m
    ensures forall k :: k in CascadeKeys(item) ==> k !in m
  {
    forall k | k in CascadeKeys(item) ensures k !in m {
      var i :| 0 <= i < |item.addOns| && k == ChildKey(item.name, item.addOns[i].name);
      assert item.addOns[i] in item.addOns;
    }
  }

  /** Inserting a fresh key at the end and then removing a set of keys that
      holds it and nothing else selected gives back the selection. */
  lemma InsertThenRemove(s: Selection, k: string, e: Entry, gone: set<string>)
    requires Valid(s) && k !in s.entries && k in gone
    requires forall x :: x in gone ==> x !in s.entries
    ensures DeleteAll(Set(s, k, e), gone) == s
  {
    WithoutAppended(s.order, k, gone);
    WithoutNothing(s.order, gone);
    assert s.entries[k := e] - gone == s.entries;
  }

  /** Toggling a top-level service twice, starting with it unselected and none
      of its add-ons selected, gives back the original selection, order
      included. */
  lemma ToggleServiceTwice(s: Selection, item: Item)
    requires Valid(s)
    requires item.name !in s.entries
    requires forall a :: a in item.addOns ==> ChildKey(item.name, a.name) !in s.entries
    ensures Toggled(Toggled(s, item, None), item, None) == s
  {
    var e := Entry(item, 1);
    assert Toggled(s, item, None) == Selection(s.order + [item.name], s.entries[item.name := e]);
    CascadeKeysAbsent(s.entries, item);
    InsertThenRemove(s, item.name, e, {item.name} + CascadeKeys(item));
  }

  /** Toggling an add-on twice while its parent is selected gives back the
      original selection. */
  lemma ToggleAddOnTwice(s: Selection, item: Item, p: Item)
    requires Valid(s)
    requires p.name in s.entries
    requires ChildKey(p.name, item.name) !in s.entries
    requires item.addOns == []
    ensures Toggled(Toggled(s, item, Some(p)), item, Some(p)) == s
  {
    var key := ChildKey(p.name, item.name);
    var e := Entry(item, 1);
    assert Toggled(s, item, Some(p)) == Selection(s.order + [key], s.entries[key := e]);
    assert {key} + CascadeKeys(item) == {key};
    InsertThenRemove(s, key, e, {key});
  }

  /** Toggling an add-on twice while its parent is NOT selected does not give
      back the original selection: the parent stays selected. */
  lemma ToggleAddOnTwiceKeepsParent(s: Selection, item: Item, p: Item)
    requires Valid(s)
    requires p.name !in s.entries
    requires ChildKey(p.name, item.name) !in s.entries
    requires item.addOns == []
    ensures var r := Toggled(Toggled(s, item, Some(p)), item, Some(p));
      && p.name in r.entries && r.entries[p.name] == Entry(p, 1)
      && r != s
  {
    var key := ChildKey(p.name, item.name);
    var once := Toggled(s, item, Some(p));
    ToggledInsertionEntries(s, item, Some(p));
    assert key in once.entries && once.entries[p.name] == Entry(p, 1);
    ToggledRemovalEntries(once, item, Some(p));
    assert CascadeKeys(item) == {};
  }

  // ---------------------------------------------------------------------
  // The parent/child invariant, relative to a catalog

  /** Two catalog services with the same name are the same service. */
  predicate UniqueNames(c: seq<Item>)
  {
    forall p, q :: p in c && q in c && p.name == q.name ==> p == q
  }

  /** Add-ons have no add-ons of their own. */
  predicate AddOnsAreLeaves(c: seq<Item>)
  {
    forall p, a :: p in c && a in p.addOns ==> a.addOns == []
  }

  /** No service name is also the key of an add-on. */
  predicate NamesAreNotAddOnKeys(c: seq<Item>)
  {
    forall p, q, a :: p in c && q in c && a in q.addOns ==> p.name != ChildKey(q.name, a.name)
  }

  /** The key of an add-on determines its parent. */
  predicate AddOnKeysDetermineParent(c: seq<Item>)
  {
    forall p, q, a, b ::
      (p in c && q in c && a in p.addOns && b in q.addOns &&
       ChildKey(p.name, a.name) == ChildKey(q.name, b.name)) ==> p.name == q.name
  }

  /** The assumptions the keying scheme silently relies on. */
  predicate WellFormed(c: seq<Item>)
  {
    UniqueNames(c) && AddOnsAreLeaves(c) && NamesAreNotAddOnKeys(c) && AddOnKeysDetermineParent(c)
  }

  /** Every selected add-on has its parent service selected. */
  predicate ParentsSelected(c: seq<Item>, m: map<string, Entry>)
  {
    forall p, a :: p in c && a in p.addOns && ChildKey(p.name, a.name) in m ==> p.name in m
  }

  /** A toggle the page can send: a service of the catalog, or an add-on of
      one under that service. */
  predicate CatalogToggle(c: seq<Item>, item: Item, parent: Option<Item>)
  {
    match parent
    case None => item in c
    case Some(p) => p in c && item in p.addOns
  }

  /** No catalog service is named like a key the removal of a catalog
      service cascades to. */
  lemma NameNotCascaded(c: seq<Item>, item: Item, p: Item)
    requires NamesAreNotAddOnKeys(c) && item in c && p in c
    ensures p.name !in CascadeKeys(item)
  {
  }

  /** Removing a service together with its add-ons keeps every remaining
      add-on's parent. */
  lemma RemovingServiceKeepsParents(c: seq<Item>, m: map<string, Entry>, item: Item)
    requires UniqueNames(c) && NamesAreNotAddOnKeys(c) && ParentsSelected(c, m) && item in c
    ensures ParentsSelected(c, m - ({item.name} + CascadeKeys(item)))
  {
    var gone := {item.name} + CascadeKeys(item);
    var r := m - gone;
    forall p, a | p in c && a in p.addOns && ChildKey(p.name, a.name) in r
      ensures p.name in r
    {
      if p.name == item.name {
        CascadeKeysOf(item, a);
        assert false;
      }
      NameNotCascaded(c, item, p);
    }
  }

  /** Removing an add-on keeps every remaining add-on's parent. */
  lemma RemovingAddOnKeepsParents(c: seq<Item>, m: map<string, Entry>, item: Item, q: Item)
    requires AddOnsAreLeaves(c) && NamesAreNotAddOnKeys(c) && ParentsSelected(c, m)
    requires q in c && item in q.addOns
    ensures ParentsSelected(c, m - ({ChildKey(q.name, item.name)} + CascadeKeys(item)))
  {
    var key := ChildKey(q.name, item.name);
    assert CascadeKeys(item) == {};
    forall p, a | p in c && a in p.addOns && ChildKey(p.name, a.name) in m - {key}
      ensures p.name in m - {key}
    {
      assert p.name != key;
    }
  }

  /** Inserting a service keeps every add-on's parent. */
  lemma InsertingServiceKeepsParents(c: seq<Item>, m: map<string, Entry>, item: Item)
    requires WellFormed(c) && ParentsSelected(c, m) && item in c
    ensures ParentsSelected(c, m[item.name := Entry(item, 1)])
  {
  }

  /** Inserting an add-on, with its parent when absent, keeps every add-on's
      parent. */
  lemma InsertingAddOnKeepsParents(c: seq<Item>, m: map<string, Entry>, item: Item, q: Item)
    requires WellFormed(c) && ParentsSelected(c, m) && q in c && item in q.addOns
    ensures var withItem := m[ChildKey(q.name, item.name) := Entry(item, 1)];
      ParentsSelected(c, if q.name !in m then withItem[q.name := Entry(q, 1)] else withItem)
  {
    var key := ChildKey(q.name, item.name);
    var withItem := m[key := Entry(item, 1)];
    var r := if q.name !in m then withItem[q.name := Entry(q, 1)] else withItem;
    assert q.name in r;
    forall p, a | p in c && a in p.addOns && ChildKey(p.name, a.name) in r
      ensures p.name in r
    {
      var k := ChildKey(p.name, a.name);
      if k !in m {
        assert k != q.name;
        assert k == key;
      }
    }
  }

  /** Toggling keeps every selected add-on's parent selected. */
  lemma TogglePreservesParents(c: seq<Item>, s: Selection, item: Item, parent: Option<Item>)
    requires WellFormed(c) && Valid(s) && ParentsSelected(c, s.entries)
    requires CatalogToggle(c, item, parent)
    ensures ParentsSelected(c, Toggled(s, item, parent).entries)
  {
    if ToggleKey(item, parent) in s.entries {
      ToggledRemovalEntries(s, item, parent);
      match parent
      case None => RemovingServiceKeepsParents(c, s.entries, item);
      case Some(q) => RemovingAddOnKeepsParents(c, s.entries, item, q);
    } else {
      ToggledInsertionEntries(s, item, parent);
      match parent
      case None => InsertingServiceKeepsParents(c, s.entries, item);
      case Some(q) => InsertingAddOnKeepsParents(c, s.entries, item, q);
    }
  }

  /** Toggling keeps every quantity at least 1. */
  lemma TogglePreservesQuantities(s: Selection, item: Item, parent: Option<Item>)
    requires Valid(s) && QuantitiesPositive(s.entries)
    ensures QuantitiesPositive(Toggled(s, item, parent).entries)
  {
    if ToggleKey(item, parent) in s.entries {
      ToggledRemovalEntries(s, item, parent);
    } else {
      ToggledInsertionEntries(s, item, parent);
    }
  }

  /** Toggling a catalog service twice from a selection that keeps the
      parent/child invariant gives back that selection. */
  lemma ToggleCatalogServiceTwice(c: seq<Item>, s: Selection, item: Item)
    requires WellFormed(c) && Valid(s) && ParentsSelected(c, s.entries)
    requires item in c && item.name !in s.entries
    ensures Toggled(Toggled(s, item, None), item, None) == s
  {
    ToggleServiceTwice(s, item);
  }

  // ---------------------------------------------------------------------
  // handleUpdateQuantity

  /** The selection after changing the quantity under `key` by `delta`. */
  function QuantityUpdated(s: Selection, key: string, delta: int): (r: Selection)
    requires Valid(s)
    ensures Valid(r)
  {
    if key in s.entries && s.entries[key].quantity + delta >= 1 then
      Selection(s.order, s.entries[key := s.entries[key].(quantity := s.entries[key].quantity + delta)])
    else s
  }

  /** An unknown key or a result below 1 leaves the selection as it is;
      otherwise only the quantity under `key` changes, to `quantity + delta`. */
  lemma QuantityUpdateEffect(s: Selection, key: string, delta: int)
    requires Valid(s)
    ensures var r := QuantityUpdated(s, key, delta);
      && r.order == s.order
      && r.entries.Keys == s.entries.Keys
      && (forall k :: k in s.entries && k != key ==> r.entries[k] == s.entries[k])
      && (key !in s.entries || s.entries[key].quantity + delta < 1 ==> r == s)
      && (key in s.entries && s.entries[key].quantity + delta >= 1 ==>
            r.entries[key].item == s.entries[key].item &&
            r.entries[key].quantity == s.entries[key].quantity + delta)
  {
  }

  lemma QuantityUpdatePreservesQuantities(s: Selection, key: string, delta: int)
    requires Valid(s) && QuantitiesPositive(s.entries)
    ensures QuantitiesPositive(QuantityUpdated(s, key, delta).entries)
  {
  }

  /** A change that would go below 1 is refused outright: the selection is
      left as it was, and the quantity is not clamped to 1. */
  lemma QuantityUpdateRefusesRatherThanClamps(s: Selection, key: string, delta: int)
    requires Valid(s) && key in s.entries && s.entries[key].quantity + delta < 1
    ensures QuantityUpdated(s, key, delta) == s
    ensures s.entries[key].quantity != 1 ==> QuantityUpdated(s, key, delta).entries[key].quantity != 1
  {
  }

  /** The selection after `n` decrements of the quantity under `key`. */
  function Decremented(s: Selection, key: string, n: nat): (r: Selection)
    requires Valid(s)
    ensures Valid(r)
  {
    if n == 0 then s else QuantityUpdated(Decremented(s, key, n - 1), key, -1)
  }

  /** However often it is decremented, a quantity stops at 1. */
  lemma {:induction false} DecrementsStopAtOne(s: Selection, key: string, n: nat)
    requires Valid(s) && key in s.entries && s.entries[key].quantity >= 1
    ensures var r := Decremented(s, key, n);
      && key in r.entries
      && r.entries[key].quantity == if s.entries[key].quantity - n >= 1 then s.entries[key].quantity - n else 1
  {
    if n > 0 {
      DecrementsStopAtOne(s, key, n - 1);
    }
  }

  // ---------------------------------------------------------------------
  // Every state the handlers reach

  /** An event that reaches the reducer. */
  datatype Event = ToggleItem(item: Item, parent: Option<Item>) | UpdateQuantity(key: string, delta: int)

  function Step(s: Selection, e: Event): (r: Selection)
    requires Valid(s)
    ensures Valid(r)
  {
    match e
    case ToggleItem(item, parent) => Toggled(s, item, parent)
    case UpdateQuantity(key, delta) => QuantityUpdated(s, key, delta)
  }

  /** The selection after handling `events` in order. */
  function Run(s: Selection, events: seq<Event>): (r: Selection)
    requires Valid(s)
    ensures Valid(r)
  {
    if events == [] then s else Step(Run(s, events[..|events| - 1]), events[|events| - 1])
  }

  predicate CatalogEvent(c: seq<Item>, e: Event)
  {
    e.ToggleItem? ==> CatalogToggle(c, e.item, e.parent)
  }

  /** Whatever the page sends, starting from the empty selection, every
      selected add-on has its parent selected and every quantity is at
      least 1. */
  lemma {:induction false} ReachableSelections(c: seq<Item>, events: seq<Event>)
    requires WellFormed(c)
    requires forall e :: e in events ==> CatalogEvent(c, e)
    ensures var r := Run(Empty, events);
      ParentsSelected(c, r.entries) && QuantitiesPositive(r.entries)
  {
    if events != [] {
      var init, last := events[..|events| - 1], events[|events| - 1];
      assert forall e :: e in init ==> e in events;
      ReachableSelections(c, init);
      var prev := Run(Empty, init);
      match last
      case ToggleItem(item, parent) =>
        assert last in events;
        TogglePreservesParents(c, prev, item, parent);
        TogglePreservesQuantities(prev, item, parent);
      case UpdateQuantity(key, delta) =>
        QuantityUpdatePreservesQuantities(prev, key, delta);
    }
  }

  // ---------------------------------------------------------------------
  // The roll-up of price and time

  datatype Totals = Totals(price: int, hours: int, days: int)
  {
    function Plus(t: Totals): Totals
    {
      Totals(price + t.price, hours + t.hours, days + t.days)
    }
  }

  const Zero := Totals(0, 0, 0)

  /** What one entry adds to the totals. */
  function Cost(e: Entry): Totals
  {
    Totals(e.item.price * e.quantity, e.item.hours * e.quantity, e.item.days * e.quantity)
  }

  predicate AllIn(keys: seq<string>, entries: map<string, Entry>)
  {
    forall k :: k in keys ==> k in entries
  }

  /** The totals over the entries under `keys`, visited in order. */
  function SumOver(keys: seq<string>, entries: map<string, Entry>): Totals
    requires AllIn(keys, entries)
  {
    if keys == [] then Zero
    else SumOver(keys[..|keys| - 1], entries).Plus(Cost(entries[keys[|keys| - 1]]))
  }

  /** The totals of a selection. */
  function TotalsOf(s: Selection): Totals
    requires Valid(s)
  {
    SumOver(s.order, s.entries)
  }

  lemma EmptyTotals()
    ensures TotalsOf(Empty) == Zero
  {
  }

  /** Entries outside `keys` do not affect the sum over `keys`. */
  lemma {:induction false} SumOverFrame(keys: seq<string>, m: map<string, Entry>, m': map<string, Entry>)
    requires AllIn(keys, m) && AllIn(keys, m')
    requires forall k :: k in keys ==> m[k] == m'[k]
    ensures SumOver(keys, m) == SumOver(keys, m')
  {
    if keys != [] {
      SumOverFrame(keys[..|keys| - 1], m, m');
    }
  }

  lemma PlusSwap(a: Totals, b: Totals, c: Totals)
    ensures a.Plus(b).Plus(c) == a.Plus(c).Plus(b)
  {
  }

  /** Dropping the last key keeps the rest free of duplicates, and the last
      key does not occur before. */
  lemma InitNoDuplicates(keys: seq<string>)
    requires NoDuplicates(keys) && keys != []
    ensures NoDuplicates(keys[..|keys| - 1])
    ensures keys[|keys| - 1] !in keys[..|keys| - 1]
  {
    var init := keys[..|keys| - 1];
    forall j | 0 <= j < |init| ensures init[j] != keys[|keys| - 1] {
      assert init[j] == keys[j];
    }
  }

  /** A sequence without duplicates has as many elements as distinct keys. */
  lemma {:induction false} DistinctCount(keys: seq<string>)
    requires NoDuplicates(keys)
    ensures |set k | k in keys| == |keys|
  {
    if keys != [] {
      var init, last := keys[..|keys| - 1], keys[|keys| - 1];
      InitNoDuplicates(keys);
      DistinctCount(init);
      assert (set k | k in keys) == (set k | k in init) + {last};
    }
  }

  /** The order holds one key per entry. */
  lemma OrderCountsEntries(s: Selection)
    requires Valid(s)
    ensures |s.order| == |s.entries|
  {
    DistinctCount(s.order);
    assert s.entries.Keys == set k | k in s.order;
  }

  /** A key's entry can be taken out of the sum wherever it stands. */
  lemma {:induction false} SumOverWithout(keys: seq<string>, m: map<string, Entry>, k: string)
    requires AllIn(keys, m) && NoDuplicates(keys) && k in keys
    ensures SumOver(keys, m) == SumOver(Without(keys, {k}), m).Plus(Cost(m[k]))
  {
    var init, last := keys[..|keys| - 1], keys[|keys| - 1];
    assert keys == init + [last];
    InitNoDuplicates(keys);
    if last == k {
      WithoutAbsent(init, k);
      assert Without(keys, {k}) == init;
    } else {
      SumOverWithout(init, m, k);
      var w := Without(init, {k}) + [last];
      assert Without(keys, {k}) == w;
      assert w[..|w| - 1] == Without(init, {k});
      var t := SumOver(Without(init, {k}), m);
      assert SumOver(w, m) == t.Plus(Cost(m[last]));
      assert SumOver(keys, m) == t.Plus(Cost(m[k])).Plus(Cost(m[last]));
      PlusSwap(t, Cost(m[k]), Cost(m[last]));
    }
  }

  lemma HeadIsMember(b: seq<string>)
    requires b != []
    ensures b[0] in b
  {
  }

  /** The totals do not depend on the order in which the keys are visited. */
  lemma {:induction false} SumOverAnyOrder(a: seq<string>, b: seq<string>, m: map<string, Entry>)
    requires AllIn(a, m) && NoDuplicates(a) && NoDuplicates(b)
    requires forall k :: k in a <==> k in b
    ensures SumOver(a, m) == SumOver(b, m)
  {
    if a == [] {
      if b != [] {
        HeadIsMember(b);
        assert false;
      }
    } else {
      var init, last := a[..|a| - 1], a[|a| - 1];
      assert a == init + [last];
      InitNoDuplicates(a);
      SumOverWithout(b, m, last);
      WithoutNoDuplicates(b, {last});
      SumOverAnyOrder(init, Without(b, {last}), m);
    }
  }

  /** Two selections holding the same entries have the same totals, whatever
      order their keys were inserted in. */
  lemma TotalsIgnoreOrder(s: Selection, s': Selection)
    requires Valid(s) && Valid(s') && s.entries == s'.entries
    ensures TotalsOf(s) == TotalsOf(s')
  {
    SumOverAnyOrder(s.order, s'.order, s.entries);
  }

  /** With whole-number prices and times and positive quantities, no total is
      negative. */
  lemma {:induction false} TotalsNonNegative(keys: seq<string>, m: map<string, Entry>)
    requires AllIn(keys, m)
    requires forall k :: k in m ==> m[k].quantity >= 1
    ensures var t := SumOver(keys, m); t.price >= 0 && t.hours >= 0 && t.days >= 0
  {
    if keys != [] {
      TotalsNonNegative(keys[..|keys| - 1], m);
      var e := m[keys[|keys| - 1]];
      assert e.item.price * e.quantity >= 0 && e.item.hours * e.quantity >= 0 && e.item.days * e.quantity >= 0;
    }
  }

  /** Selecting a service adds its price and time once. */
  lemma TotalsAfterSelectingService(s: Selection, item: Item)
    requires Valid(s) && item.name !in s.entries
    ensures TotalsOf(Toggled(s, item, None)) == TotalsOf(s).Plus(Cost(Entry(item, 1)))
  {
    var r := Toggled(s, item, None);
    assert r.order == s.order + [item.name];
    assert r.order[..|r.order| - 1] == s.order;
    SumOverFrame(s.order, s.entries, r.entries);
  }

  lemma CostShift(item: Item, q: int, delta: int)
    ensures Cost(Entry(item, q + delta)) ==
            Cost(Entry(item, q)).Plus(Totals(item.price * delta, item.hours * delta, item.days * delta))
  {
    assert item.price * (q + delta) == item.price * q + item.price * delta;
    assert item.hours * (q + delta) == item.hours * q + item.hours * delta;
    assert item.days * (q + delta) == item.days * q + item.days * delta;
  }

  /** An accepted quantity change moves the totals by `delta` times the
      item's price and time. */
  lemma TotalsAfterQuantityUpdate(s: Selection, key: string, delta: int)
    requires Valid(s) && key in s.entries && s.entries[key].quantity + delta >= 1
    ensures var item := s.entries[key].item;
      TotalsOf(QuantityUpdated(s, key, delta)) ==
      TotalsOf(s).Plus(Totals(item.price * delta, item.hours * delta, item.days * delta))
  {
    var e := s.entries[key];
    var e' := e.(quantity := e.quantity + delta);
    var m' := s.entries[key := e'];
    assert QuantityUpdated(s, key, delta) == Selection(s.order, m');
    var rest := Without(s.order, {key});
    WithoutNoDuplicates(s.order, {key});
    SumOverWithout(s.order, s.entries, key);
    SumOverWithout(s.order, m', key);
    SumOverFrame(rest, s.entries, m');
    CostShift(e.item, e.quantity, delta);
  }

  // ---------------------------------------------------------------------
  // The state held by the page, updated in place by the handlers

  class SelectedItems {
    var order: seq<string>
    var entries: map<string, Entry>

    function Value(): Selection
      reads this
    {
      Selection(order, entries)
    }

    /** The page starts with nothing selected. */
    constructor ()
      ensures Value() == Empty
    {
      order := [];
      entries := map[];
    }

    /** handleToggleItem: removes a present key together with the keys of
        the item's add-ons; or inserts an absent key and, for an add-on, its
        parent when the parent was not selected before. */
    method ToggleItem(item: Item, parent: Option<Item>)
      requires Valid(Value())
      modifies this
      ensures Valid(Value())
      ensures Value() == Toggled(old(Value()), item, parent)
    {
      var key := ToggleKey(item, parent);
      if key in entries {
        DeleteWithAddOns(key, item);
      } else {
        var prev := entries;
        entries := entries[key := Entry(item, 1)];
        order := order + [key];
        if parent.Some? && parent.value.name !in prev {
          entries := entries[parent.value.name := Entry(parent.value, 1)];
          order := order + [parent.value.name];
        }
      }
    }

    /** The removal half of handleToggleItem: deletes `key`, then walks the
        item's add-ons and deletes each add-on key that is present. */
    method DeleteWithAddOns(key: string, item: Item)
      requires Valid(Value()) && key in entries
      modifies this
      ensures Value() == DeleteAll(old(Value()), {key} + CascadeKeys(item))
    {
      var o, m := Without(order, {key}), entries - {key};
      ghost var first := DeleteAll(Value(), {key});
      var i := 0;
      while i < |item.addOns|
        invariant 0 <= i <= |item.addOns|
        invariant Selection(o, m) == Cascade(first, item, i)
      {
        var addOnKey := ChildKey(item.name, item.addOns[i].name);
        if addOnKey in m {
          o, m := Without(o, {addOnKey}), m - {addOnKey};
        }
        i := i + 1;
      }
      CascadeDeletes(Value(), key, item, |item.addOns|);
      order, entries := o, m;
    }

    /** handleUpdateQuantity: changes the quantity under `key` by `delta`
        unless the key is unknown or the result would be below 1. */
    method UpdateQuantity(key: string, delta: int)
      requires Valid(Value())
      modifies this
      ensures Valid(Value())
      ensures Value() == QuantityUpdated(old(Value()), key, delta)
    {
      if key in entries {
        var current := entries[key];
        var newQuantity := current.quantity + delta;
        if newQuantity >= 1 {
          entries := entries[key := current.(quantity := newQuantity)];
        }
      }
    }

    /** The roll-up: accumulates price, hours and days over the entries in
        map order. */
    method ComputeTotals() returns (t: Totals)
      requires Valid(Value())
      ensures t == TotalsOf(Value())
    {
      var price, hours, days := 0, 0, 0;
      var i := 0;
      while i < |order|
        invariant 0 <= i <= |order|
        invariant Totals(price, hours, days) == SumOver(order[..i], entries)
      {
        var e := entries[order[i]];
        assert order[..i + 1][..i] == order[..i];
        price := price + e.item.price * e.quantity;
        if e.item.hours != 0 {
          hours := hours + e.item.hours * e.quantity;
        }
        if e.item.days != 0 {
          days := days + e.item.days * e.quantity;
        }
        i := i + 1;
      }
      assert order[..i] == order;
      t := Totals(price, hours, days);
    }
  }
}
