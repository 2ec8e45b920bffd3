/** `groupByCategory`: the filtered list split into one group per category,
    the groups sorted by category name. */
module Grouping {
  import opened Seqs
  import opened Sorting
  import opened Catalog

  /** One entry `[category, products]` of the result. */
  datatype Group = Group(category: string, items: seq<Product>)

  /** `([a], [b]) => a.localeCompare(b)`. */
  function GroupKey(g: Group): SortKey {
    StrKey(g.category)
  }

  function GroupCategories(gs: seq<Group>): (r: seq<string>)
    ensures |r| == |gs|
  {
    seq(|gs|, i requires 0 <= i < |gs| => gs[i].category)
  }

  /** The groups' products one group after another. */
  function Flatten(gs: seq<Group>): seq<Product> {
    if |gs| == 0 then [] else gs[0].items + Flatten(gs[1..])
  }

  /** `map.has(c)` / `map.get(c)` over the entries in insertion order: the
      position of the entry for `c`, or -1. */
  function IndexOfCategory(gs: seq<Group>, c: string): (r: int)
    ensures -1 <= r < |gs|
    ensures r >= 0 ==> gs[r].category == c
    ensures r < 0 ==> c !in GroupCategories(gs)
  {
    if |gs| == 0 then -1
    else if gs[0].category == c then 0
    else
      var r := IndexOfCategory(gs[1..], c);
      assert GroupCategories(gs) == [gs[0].category] + GroupCategories(gs[1..]);
      if r < 0 then -1 else r + 1
  }

  lemma {:induction false} FlattenAppend(gs: seq<Group>, g: Group)
    ensures Flatten(gs + [g]) == Flatten(gs) + g.items
  {
    if |gs| == 0 {
      assert Flatten([g]) == g.items + Flatten([]);
    } else {
      assert (gs + [g])[1..] == gs[1..] + [g];
      FlattenAppend(gs[1..], g);
    }
  }

  /** Pushing `p` into one group adds `p` to the flattened products. */
  lemma {:induction false} FlattenPush(gs: seq<Group>, k: nat, p: Product)
    requires k < |gs|
    ensures multiset(Flatten(gs[k := Group(gs[k].category, gs[k].items + [p])]))
         == multiset(Flatten(gs)) + multiset{p}
  {
    var gs' := gs[k := Group(gs[k].category, gs[k].items + [p])];
    if k > 0 {
      assert gs'[1..] == gs[1..][k - 1 := Group(gs[k].category, gs[k].items + [p])];
      FlattenPush(gs[1..], k - 1, p);
    } else {
      assert gs'[1..] == gs[1..];
    }
  }

  lemma {:induction false} FlattenInsert(g: Group, gs: seq<Group>)
    ensures multiset(Flatten(Insert(g, gs, GroupKey))) == multiset(g.items) + multiset(Flatten(gs))
  {
    if |gs| > 0 && !KeyLe(GroupKey(g), GroupKey(gs[0])) {
      var r := Insert(g, gs, GroupKey);
      assert r[0] == gs[0] && r[1..] == Insert(g, gs[1..], GroupKey);
      FlattenInsert(g, gs[1..]);
    } else {
      assert ([g] + gs)[1..] == gs;
    }
  }

  /** Reordering the groups by the sort keeps every product. */
  lemma {:induction false} FlattenSortOn(gs: seq<Group>)
    ensures multiset(Flatten(SortOn(gs, GroupKey))) == multiset(Flatten(gs))
  {
    if |gs| > 0 {
      FlattenSortOn(gs[1..]);
      FlattenInsert(gs[0], SortOn(gs[1..], GroupKey));
    }
  }

  /** The keys of groups are distinct exactly when their categories are. */
  lemma DistinctCategoriesKeys(gs: seq<Group>)
    requires forall a, b :: 0 <= a < b < |gs| ==> gs[a].category != gs[b].category
    ensures KeysDistinct(gs, GroupKey)
  {
  }

  lemma CategoriesSnoc(seen: seq<Product>, p: Product)
    ensures Categories(seen + [p]) == Categories(seen) + [p.category]
  {
  }

  /** No two entries share a category. */
  ghost predicate DistinctCategories(entries: seq<Group>) {
    forall a, b :: 0 <= a < b < |entries| ==> entries[a].category != entries[b].category
  }

  /** Each entry holds exactly the scanned products of its category, in scan
      order, and at least one. */
  ghost predicate ItemsMatch(entries: seq<Group>, seen: seq<Product>) {
    forall j :: 0 <= j < |entries| ==>
      entries[j].items == Filter(seen, InCategory(entries[j].category)) && |entries[j].items| > 0
  }

  /** The entries' categories are the categories of the scanned products. */
  ghost predicate SameCategories(entries: seq<Group>, seen: seq<Product>) {
    forall c :: c in GroupCategories(entries) <==> c in Categories(seen)
  }

  /** What the entries built from the scanned products `seen` satisfy: one
      entry per category seen so far, each holding that category's products in
      scan order, and all the scanned products between them. */
  ghost predicate Grouped(entries: seq<Group>, seen: seq<Product>) {
    && DistinctCategories(entries)
    && ItemsMatch(entries, seen)
    && SameCategories(entries, seen)
    && multiset(Flatten(entries)) == multiset(seen)
  }

  lemma NewEntryItems(entries: seq<Group>, seen: seq<Product>, p: Product)
    requires ItemsMatch(entries, seen) && SameCategories(entries, seen)
    requires p.category !in GroupCategories(entries)
    ensures ItemsMatch(entries + [Group(p.category, [p])], seen + [p])
  {
    var entries' := entries + [Group(p.category, [p])];
    forall j | 0 <= j < |entries'|
      ensures entries'[j].items == Filter(seen + [p], InCategory(entries'[j].category))
    {
      FilterSnoc(seen, p, InCategory(entries'[j].category));
      if j < |entries| {
        assert GroupCategories(entries)[j] == entries[j].category;
      } else {
        forall m | 0 <= m < |seen| ensures !InCategory(p.category)(seen[m]) {
          assert Categories(seen)[m] == seen[m].category;
        }
        FilterNonePass(seen, InCategory(p.category));
      }
    }
  }

  /** A product of a category not seen yet opens a new entry at the end. */
  lemma GroupNew(entries: seq<Group>, seen: seq<Product>, p: Product)
    requires Grouped(entries, seen)
    requires p.category !in GroupCategories(entries)
    ensures Grouped(entries + [Group(p.category, [p])], seen + [p])
  {
    var entries' := entries + [Group(p.category, [p])];
    NewEntryItems(entries, seen, p);
    CategoriesSnoc(seen, p);
    assert GroupCategories(entries') == GroupCategories(entries) + [p.category];
    FlattenAppend(entries, Group(p.category, [p]));
    assert DistinctCategories(entries') by {
      forall a | 0 <= a < |entries| ensures entries[a].category != p.category {
        assert GroupCategories(entries)[a] == entries[a].category;
      }
    }
  }

  lemma JoinEntryItems(entries: seq<Group>, seen: seq<Product>, k: nat, p: Product)
    requires ItemsMatch(entries, seen) && DistinctCategories(entries)
    requires k < |entries| && entries[k].category == p.category
    ensures ItemsMatch(entries[k := Group(entries[k].category, entries[k].items + [p])], seen + [p])
  {
    var entries' := entries[k := Group(entries[k].category, entries[k].items + [p])];
    forall j | 0 <= j < |entries'|
      ensures entries'[j].items == Filter(seen + [p], InCategory(entries'[j].category))
    {
      FilterSnoc(seen, p, InCategory(entries[j].category));
    }
  }

  /** A product of a category already seen is pushed onto that entry. */
  lemma GroupJoin(entries: seq<Group>, seen: seq<Product>, k: nat, p: Product)
    requires Grouped(entries, seen)
    requires k < |entries| && entries[k].category == p.category
    ensures Grouped(entries[k := Group(entries[k].category, entries[k].items + [p])], seen + [p])
  {
    var entries' := entries[k := Group(entries[k].category, entries[k].items + [p])];
    JoinEntryItems(entries, seen, k, p);
    CategoriesSnoc(seen, p);
    assert GroupCategories(entries') == GroupCategories(entries);
    assert GroupCategories(entries)[k] == p.category;
    FlattenPush(entries, k, p);
  }

  /** The groups come in strictly increasing order of category. */
  ghost predicate OrderedCategories(groups: seq<Group>) {
    forall i, j :: 0 <= i < j < |groups| ==>
      StrLe(groups[i].category, groups[j].category) && groups[i].category != groups[j].category
  }

  lemma SortOnSameGroups(entries: seq<Group>)
    ensures forall g :: g in SortOn(entries, GroupKey) <==> g in entries
  {
    var groups := SortOn(entries, GroupKey);
    forall g ensures g in groups <==> g in entries {
      assert g in groups <==> g in multiset(groups);
      assert g in entries <==> g in multiset(entries);
    }
  }

  /** Sorting entries with distinct categories orders them strictly. */
  lemma SortedGroupsOrdered(entries: seq<Group>)
    requires DistinctCategories(entries)
    ensures OrderedCategories(SortOn(entries, GroupKey))
  {
    var groups := SortOn(entries, GroupKey);
    SortOnSorted(entries, GroupKey);
    DistinctCategoriesKeys(entries);
    SortOnKeysDistinct(entries, GroupKey);
    forall i, j | 0 <= i < j < |groups|
      ensures StrLe(groups[i].category, groups[j].category) && groups[i].category != groups[j].category
    {
      assert KeyLe(GroupKey(groups[i]), GroupKey(groups[j]));
      assert GroupKey(groups[i]) != GroupKey(groups[j]);
    }
  }

  /** Sorting keeps each entry whole, so the entries still match the list. */
  lemma SortedGroupsMatch(entries: seq<Group>, list: seq<Product>)
    requires ItemsMatch(entries, list)
    ensures ItemsMatch(SortOn(entries, GroupKey), list)
  {
    var groups := SortOn(entries, GroupKey);
    SortOnSameGroups(entries);
    forall i | 0 <= i < |groups|
      ensures groups[i].items == Filter(list, InCategory(groups[i].category)) && |groups[i].items| > 0
    {
      assert groups[i] in entries;
    }
  }

  lemma GroupCategoriesHas(gs: seq<Group>, g: Group)
    requires g in gs
    ensures g.category in GroupCategories(gs)
  {
    var n :| 0 <= n < |gs| && gs[n] == g;
    assert GroupCategories(gs)[n] == g.category;
  }

  lemma GroupCategoriesWitness(gs: seq<Group>, c: string) returns (g: Group)
    requires c in GroupCategories(gs)
    ensures g in gs && g.category == c
  {
    var m :| 0 <= m < |gs| && GroupCategories(gs)[m] == c;
    g := gs[m];
  }

  /** Sorting keeps the set of categories. */
  lemma SortedGroupsCategories(entries: seq<Group>, list: seq<Product>)
    requires SameCategories(entries, list)
    ensures SameCategories(SortOn(entries, GroupKey), list)
  {
    var groups := SortOn(entries, GroupKey);
    SortOnSameGroups(entries);
    forall c ensures c in GroupCategories(groups) <==> c in GroupCategories(entries) {
      if c in GroupCategories(groups) {
        var g := GroupCategoriesWitness(groups, c);
        GroupCategoriesHas(entries, g);
      }
      if c in GroupCategories(entries) {
        var g := GroupCategoriesWitness(entries, c);
        GroupCategoriesHas(groups, g);
      }
    }
  }

  lemma GroupedEmpty()
    ensures Grouped([], [])
  {
    assert Flatten([]) == [];
  }

  /** The `forEach` of `groupByCategory`: the map's entries, in order of first
      appearance of their category. */
  method CollectEntries(list: seq<Product>) returns (entries: seq<Group>)
    ensures Grouped(entries, list)
  {
    entries := [];
    ghost var seen: seq<Product> := [];
    GroupedEmpty();
    var i := 0;
    while i < |list|
      invariant 0 <= i <= |list|
      invariant seen == list[..i]
      invariant Grouped(entries, seen)
    {
      var p := list[i];
      var k := IndexOfCategory(entries, p.category);
      if k < 0 {
        GroupNew(entries, seen, p);
        entries := entries + [Group(p.category, [p])];
      } else {
        GroupJoin(entries, seen, k, p);
        entries := entries[k := Group(entries[k].category, entries[k].items + [p])];
      }
      seen := seen + [p];
      i := i + 1;
    }
    assert seen == list;
  }

  /** `groupByCategory(list)`: collect the products into a map keyed by
      category, then sort the entries by key.
      The result has one group per category of `list`, in increasing order of
      category; each group holds exactly the products of its category, in
      their order in `list`; together the groups hold every product of `list`. */
  method GroupByCategory(list: seq<Product>) returns (groups: seq<Group>)
    ensures OrderedCategories(groups)
    ensures ItemsMatch(groups, list)
    ensures SameCategories(groups, list)
    ensures multiset(Flatten(groups)) == multiset(list)
  {
    var entries := CollectEntries(list);
    SortedGroupsOrdered(entries);
    SortedGroupsMatch(entries, list);
    SortedGroupsCategories(entries, list);
    FlattenSortOn(entries);
    groups := SortOn(entries, GroupKey);
  }

  /** Filtering a sorted list leaves it sorted. */
  lemma {:induction false} FilterSorted(s: seq<Product>, f: Product -> bool, key: Product -> SortKey)
    requires SortedOn(s, key)
    ensures SortedOn(Filter(s, f), key)
  {
    if |s| > 0 {
      SortedOnTail(s, key);
      FilterSorted(s[1..], f, key);
      if f(s[0]) {
        var r' := Filter(s[1..], f);
        FilterSpec(s[1..], f);
        forall j | 0 <= j < |r'| ensures KeyLe(key(s[0]), key(r'[j])) {
          var m :| 0 <= m < |s[1..]| && s[1..][m] == r'[j];
          assert s[m + 1] == r'[j];
        }
        SortedOnCons(s[0], r', key);
      }
    }
  }

  /** Grouping the sorted list keeps the sort inside every group: what the
      catalog shows under each category heading follows the chosen order. */
  lemma GroupsKeepOrder(list: seq<Product>, key: Product -> SortKey, groups: seq<Group>)
    requires SortedOn(list, key) && ItemsMatch(groups, list)
    ensures forall i :: 0 <= i < |groups| ==> SortedOn(groups[i].items, key)
  {
    forall i | 0 <= i < |groups| ensures SortedOn(groups[i].items, key) {
      FilterSorted(list, InCategory(groups[i].category), key);
    }
  }
}
