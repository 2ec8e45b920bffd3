/** `useFiltered`: the text search, the category filter and the sort that
    produce the product list shown by the catalog. */
module Pipeline {
  import opened Wrappers
  import opened Text
  import opened Seqs
  import opened Sorting
  import opened Catalog

  // ---------------------------------------------------------------- the query

  /** `(query || "").toLowerCase().trim()`. */
  function NormalizeQuery(query: string): string {
    Trim(Lower(query))
  }

  /** Normalising twice changes nothing more than normalising once. */
  lemma NormalizeQueryIdempotent(query: string)
    ensures NormalizeQuery(NormalizeQuery(query)) == NormalizeQuery(query)
  {
    var t := Trim(Lower(query));
    TrimLower(t);
    TrimIdempotent(Lower(query));
    TrimLower(query);
    LowerIdempotent(Trim(query));
  }

  /** The normalised query is lower-case and carries no space at either end;
      it is empty exactly when the query holds nothing but spaces. */
  lemma NormalizeQuerySpec(query: string)
    ensures var q := NormalizeQuery(query);
      && Lower(q) == q
      && (|q| > 0 ==> !IsSpace(q[0]) && !IsSpace(q[|q| - 1]))
      && (q == "" <==> forall i :: 0 <= i < |query| ==> IsSpace(query[i]))
  {
    var q := NormalizeQuery(query);
    TrimLower(query);
    LowerIdempotent(Trim(query));
    TrimSpec(Lower(query));
    var lo := TrimOffset(Lower(query));
    if q == "" {
      forall i | 0 <= i < |query| ensures IsSpace(query[i]) {
        LowerCharKeepsSpace(query[i]);
      }
    } else {
      LowerCharKeepsSpace(query[lo]);
      assert Lower(query)[lo] == q[0];
    }
  }

  // ---------------------------------------------------------------- the haystack

  function OrEmpty(s: Option<string>): string {
    s.GetOr("")
  }

  function Codes(vs: seq<Variant>): (r: seq<string>)
    ensures |r| == |vs|
  {
    seq(|vs|, i requires 0 <= i < |vs| => vs[i].code)
  }

  /** `[p.name, p.subtitle, p.category, p.appearance, ...codes]`; `join`
      renders an absent field as the empty string. */
  function HaystackParts(p: Product): seq<string> {
    [p.name, OrEmpty(p.subtitle), p.category, OrEmpty(p.appearance)] + Codes(p.variants)
  }

  /** The searched text: the parts joined with single spaces, lower-cased. */
  function Haystack(p: Product): string {
    Lower(Join(HaystackParts(p), " "))
  }

  /** The text filter `hay.includes(q)`. */
  function MatchesQuery(q: string): Product -> bool {
    (p: Product) => Contains(Haystack(p), q)
  }

  /** A product is found by any query that occurs, ignoring case, in one of
      its fields: name, subtitle, category, appearance or a variant code. */
  lemma FieldHitMatches(p: Product, k: nat, q: string)
    requires k < |HaystackParts(p)|
    requires Contains(Lower(HaystackParts(p)[k]), q)
    ensures MatchesQuery(q)(p)
  {
    ContainsPartLower(HaystackParts(p), " ", k, q);
  }

  // ---------------------------------------------------------------- selection

  /** `cat && cat !== "Todas"`: whether the category filter applies. */
  predicate CategoryApplies(cat: string) {
    cat != "" && cat != "Todas"
  }

  /** The two filters in the order the source applies them. */
  function Selected(products: seq<Product>, query: string, cat: string): seq<Product> {
    var q := NormalizeQuery(query);
    var found := if q != "" then Filter(products, MatchesQuery(q)) else products;
    if CategoryApplies(cat) then Filter(found, InCategory(cat)) else found
  }

  /** A product's verdict under both filters at once. */
  predicate Passes(p: Product, q: string, cat: string) {
    (q != "" ==> Contains(Haystack(p), q)) && (CategoryApplies(cat) ==> p.category == cat)
  }

  function PassesAll(q: string, cat: string): Product -> bool {
    (p: Product) => Passes(p, q, cat)
  }

  /** The two filters in a row keep the same products, in the same order, as
      the single test `Passes`. */
  lemma SelectedIsOneFilter(products: seq<Product>, query: string, cat: string)
    ensures Selected(products, query, cat) == Filter(products, PassesAll(NormalizeQuery(query), cat))
  {
    var q := NormalizeQuery(query);
    var h := PassesAll(q, cat);
    if q != "" && CategoryApplies(cat) {
      FilterFilter(products, MatchesQuery(q), InCategory(cat), h);
    } else if q != "" {
      FilterExt(products, MatchesQuery(q), h);
    } else if CategoryApplies(cat) {
      FilterExt(products, InCategory(cat), h);
    } else {
      FilterAllPass(products, h);
    }
  }

  /** The selection is the catalog with exactly the failing products left out:
      a subsequence, holding every product that passes and no other. */
  lemma SelectedSpec(products: seq<Product>, query: string, cat: string)
    ensures var sel, q := Selected(products, query, cat), NormalizeQuery(query);
      && IsSubseq(sel, products)
      && (forall p :: p in sel <==> p in products && Passes(p, q, cat))
      && multiset(sel) <= multiset(products)
  {
    var q := NormalizeQuery(query);
    SelectedIsOneFilter(products, query, cat);
    FilterSpec(products, PassesAll(q, cat));
    FilterIsSubseq(products, PassesAll(q, cat));
  }

  // ---------------------------------------------------------------- ordering

  /** `a.variants?.[0]?.price ?? 0`. */
  function FirstPrice(p: Product): int {
    if |p.variants| == 0 then 0 else p.variants[0].price.GetOr(0)
  }

  /** `a.name.localeCompare(b.name)`. */
  function NameKey(p: Product): SortKey {
    StrKey(p.name)
  }

  /** `priceOf(a) - priceOf(b)`. */
  function PriceAscKey(p: Product): SortKey {
    IntKey(FirstPrice(p))
  }

  /** `priceOf(b) - priceOf(a)`: ascending in the negated price. */
  function PriceDescKey(p: Product): SortKey {
    IntKey(-FirstPrice(p))
  }

  /** The sort step by mode; an unknown mode keeps the order. */
  function Ordered(list: seq<Product>, sort: string): seq<Product> {
    if sort == "nombre" then SortOn(list, NameKey)
    else if sort == "precio_asc" then SortOn(list, PriceAscKey)
    else if sort == "precio_desc" then SortOn(list, PriceDescKey)
    else list
  }

  /** Products with equal sort keys keep their filtered order. */
  ghost predicate StableUnder(r: seq<Product>, s: seq<Product>, key: Product -> SortKey) {
    forall k :: WithKey(r, key, k) == WithKey(s, key, k)
  }

  lemma SortOnStableAll(s: seq<Product>, key: Product -> SortKey)
    ensures StableUnder(SortOn(s, key), s, key)
  {
    forall k ensures WithKey(SortOn(s, key), key, k) == WithKey(s, key, k) {
      SortOnStable(s, key, k);
    }
  }

  /** What each mode promises about the order of the list it returns. */
  lemma OrderedSpec(s: seq<Product>, sort: string)
    ensures var r := Ordered(s, sort);
      && multiset(r) == multiset(s)
      && (sort == "nombre" ==>
            StableUnder(r, s, NameKey) &&
            forall i, j :: 0 <= i < j < |r| ==> StrLe(r[i].name, r[j].name))
      && (sort == "precio_asc" ==>
            StableUnder(r, s, PriceAscKey) &&
            forall i, j :: 0 <= i < j < |r| ==> FirstPrice(r[i]) <= FirstPrice(r[j]))
      && (sort == "precio_desc" ==>
            StableUnder(r, s, PriceDescKey) &&
            forall i, j :: 0 <= i < j < |r| ==> FirstPrice(r[i]) >= FirstPrice(r[j]))
      && (sort != "nombre" && sort != "precio_asc" && sort != "precio_desc" ==> r == s)
  {
    var r := Ordered(s, sort);
    if sort == "nombre" {
      SortOnSorted(s, NameKey);
      SortOnStableAll(s, NameKey);
      forall i, j | 0 <= i < j < |r| ensures StrLe(r[i].name, r[j].name) {
        assert KeyLe(NameKey(r[i]), NameKey(r[j]));
      }
    } else if sort == "precio_asc" {
      SortOnSorted(s, PriceAscKey);
      SortOnStableAll(s, PriceAscKey);
      forall i, j | 0 <= i < j < |r| ensures FirstPrice(r[i]) <= FirstPrice(r[j]) {
        assert KeyLe(PriceAscKey(r[i]), PriceAscKey(r[j]));
      }
    } else if sort == "precio_desc" {
      SortOnSorted(s, PriceDescKey);
      SortOnStableAll(s, PriceDescKey);
      forall i, j | 0 <= i < j < |r| ensures FirstPrice(r[i]) >= FirstPrice(r[j]) {
        assert KeyLe(PriceDescKey(r[i]), PriceDescKey(r[j]));
      }
    }
  }

  /** The filtered list, the selection and the catalog share the same
      products: the sort neither adds nor drops any. */
  lemma FilteredMembers(products: seq<Product>, query: string, cat: string, sort: string)
    ensures var list, q := Ordered(Selected(products, query, cat), sort), NormalizeQuery(query);
      && multiset(list) <= multiset(products)
      && forall p :: p in list <==> p in products && Passes(p, q, cat)
  {
    var sel := Selected(products, query, cat);
    var list := Ordered(sel, sort);
    SelectedSpec(products, query, cat);
    OrderedSpec(sel, sort);
    forall p ensures p in list <==> p in sel {
      assert p in list <==> p in multiset(list);
      assert p in sel <==> p in multiset(sel);
    }
  }

  // ---------------------------------------------------------------- useFiltered

  /** `useFiltered(products, query, cat, sort)`: copy the catalog, narrow it by
      the query and then by the category, and sort it by the chosen mode. */
  method UseFiltered(products: seq<Product>, query: string, cat: string, sort: string)
    returns (list: seq<Product>)
    ensures list == Ordered(Selected(products, query, cat), sort)
    ensures var q := NormalizeQuery(query);
      forall p :: p in list <==> p in products && Passes(p, q, cat)
    ensures multiset(list) <= multiset(products)
    ensures sort == "nombre" ==> forall i, j :: 0 <= i < j < |list| ==> StrLe(list[i].name, list[j].name)
    ensures sort == "precio_asc" ==> forall i, j :: 0 <= i < j < |list| ==> FirstPrice(list[i]) <= FirstPrice(list[j])
    ensures sort == "precio_desc" ==> forall i, j :: 0 <= i < j < |list| ==> FirstPrice(list[i]) >= FirstPrice(list[j])
    ensures sort != "nombre" && sort != "precio_asc" && sort != "precio_desc" ==>
      IsSubseq(list, products)
  {
    var q := NormalizeQuery(query);
    list := products;
    if q != "" {
      list := Filter(list, MatchesQuery(q));
    }
    if CategoryApplies(cat) {
      list := Filter(list, InCategory(cat));
    }
    assert list == Selected(products, query, cat);
    SelectedSpec(products, query, cat);
    OrderedSpec(list, sort);
    FilteredMembers(products, query, cat, sort);
    if sort == "nombre" {
      list := SortOn(list, NameKey);
    } else if sort == "precio_asc" {
      list := SortOn(list, PriceAscKey);
    } else if sort == "precio_desc" {
      list := SortOn(list, PriceDescKey);
    }
  }
}
