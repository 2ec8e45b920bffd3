/** The read-only catalog: products and their variants, the variant lookup
    used by combos, the category list and the small display helpers. */
module Catalog {
  import opened Wrappers
  import opened Text
  import opened Sorting

  /** A purchasable size of a product. `price` is in centavos; `None` stands
      for an absent or non-numeric price. */
  datatype Variant = Variant(size: string, code: string, price: Option<int>)

  /** A catalog entry. Absent `subtitle` and `appearance` are `None`; an absent
      variant list is the empty sequence. */
  datatype Product = Product(
    name: string,
    category: string,
    subtitle: Option<string>,
    appearance: Option<string>,
    variants: seq<Variant>)

  /** What the lookup returns: `{ prod, variant }`. */
  datatype Match = Match(prod: Product, variant: Variant)

  /** `Number(variant.price) || 0`. */
  function PriceOrZero(v: Variant): int {
    v.price.GetOr(0)
  }

  // ---------------------------------------------------------------- lookup

  /** The lookup's test for one variant: the code is compared ignoring case;
      the size is compared exactly, and only when a size is given (`""` is
      JavaScript-falsy, so it means "any size"). */
  predicate Hit(v: Variant, code: string, size: string) {
    Lower(v.code) == Lower(code) && (size == "" || v.size == size)
  }

  /** A position in the catalog: product index, variant index. */
  datatype Pos = Pos(i: nat, j: nat)

  ghost predicate Before(i': int, j': int, p: Pos) {
    i' < p.i || (i' == p.i && j' < p.j)
  }

  /** The first variant at or after `from` that the lookup accepts. */
  function FindFrom(vs: seq<Variant>, from: nat, code: string, size: string): (r: Option<nat>)
    requires from <= |vs|
    ensures r.Some? ==> from <= r.value < |vs| && Hit(vs[r.value], code, size)
    ensures r.Some? ==> forall j :: from <= j < r.value ==> !Hit(vs[j], code, size)
    ensures r.None? ==> forall j :: from <= j < |vs| ==> !Hit(vs[j], code, size)
    decreases |vs| - from
  {
    if from == |vs| then None
    else if Hit(vs[from], code, size) then Some(from)
    else FindFrom(vs, from + 1, code, size)
  }

  /** The first position, in catalog-then-variant order, at or after product
      `from`, whose variant the lookup accepts. */
  function LocateFrom(products: seq<Product>, from: nat, code: string, size: string): (r: Option<Pos>)
    requires from <= |products|
    ensures r.Some? ==> from <= r.value.i < |products| && r.value.j < |products[r.value.i].variants|
    ensures r.Some? ==> Hit(products[r.value.i].variants[r.value.j], code, size)
    ensures r.Some? ==> forall i', j' ::
      from <= i' < |products| && 0 <= j' < |products[i'].variants| && Before(i', j', r.value) ==>
      !Hit(products[i'].variants[j'], code, size)
    ensures r.None? ==> forall i', j' ::
      from <= i' < |products| && 0 <= j' < |products[i'].variants| ==>
      !Hit(products[i'].variants[j'], code, size)
    decreases |products| - from
  {
    if from == |products| then None
    else match FindFrom(products[from].variants, 0, code, size)
      case Some(j) => Some(Pos(from, j))
      case None => LocateFrom(products, from + 1, code, size)
  }

  /** `lookupVariant(code, size)`: the first match, or `null`. */
  function Lookup(products: seq<Product>, code: string, size: string): (r: Option<Match>)
    ensures r.None? <==> forall i, j :: 0 <= i < |products| && 0 <= j < |products[i].variants| ==>
      !Hit(products[i].variants[j], code, size)
    ensures r.Some? ==> r.value.prod in products && r.value.variant in r.value.prod.variants
    ensures r.Some? ==> Hit(r.value.variant, code, size)
  {
    match LocateFrom(products, 0, code, size)
    case None => None
    case Some(p) => Some(Match(products[p.i], products[p.i].variants[p.j]))
  }

  /** The nested loops of `lookupVariant`, with the early return. */
  method LookupVariant(products: seq<Product>, code: string, size: string) returns (m: Option<Match>)
    ensures m == Lookup(products, code, size)
  {
    var i := 0;
    while i < |products|
      invariant 0 <= i <= |products|
      invariant forall i', j' :: 0 <= i' < i && 0 <= j' < |products[i'].variants| ==>
        !Hit(products[i'].variants[j'], code, size)
    {
      var vs := products[i].variants;
      var j := 0;
      while j < |vs|
        invariant 0 <= j <= |vs|
        invariant forall j' :: 0 <= j' < j ==> !Hit(vs[j'], code, size)
      {
        if Hit(vs[j], code, size) {
          ghost var r := LocateFrom(products, 0, code, size);
          assert r.Some?;
          assert !Before(i, j, r.value);
          assert r.value == Pos(i, j);
          return Some(Match(products[i], vs[j]));
        }
        j := j + 1;
      }
      i := i + 1;
    }
    return None;
  }

  /** Codes that differ only in letter case find the same variant. */
  lemma {:induction false} LocateCaseInsensitive(products: seq<Product>, from: nat, c1: string, c2: string, size: string)
    requires from <= |products|
    requires Lower(c1) == Lower(c2)
    ensures LocateFrom(products, from, c1, size) == LocateFrom(products, from, c2, size)
    decreases |products| - from
  {
    if from < |products| {
      FindCaseInsensitive(products[from].variants, 0, c1, c2, size);
      LocateCaseInsensitive(products, from + 1, c1, c2, size);
    }
  }

  lemma {:induction false} FindCaseInsensitive(vs: seq<Variant>, from: nat, c1: string, c2: string, size: string)
    requires from <= |vs|
    requires Lower(c1) == Lower(c2)
    ensures FindFrom(vs, from, c1, size) == FindFrom(vs, from, c2, size)
    decreases |vs| - from
  {
    if from < |vs| {
      FindCaseInsensitive(vs, from + 1, c1, c2, size);
    }
  }

  lemma LookupCaseInsensitive(products: seq<Product>, c1: string, c2: string, size: string)
    requires Lower(c1) == Lower(c2)
    ensures Lookup(products, c1, size) == Lookup(products, c2, size)
  {
    LocateCaseInsensitive(products, 0, c1, c2, size);
  }

  // ---------------------------------------------------------------- categories

  /** `new Set(xs)` read back in insertion order: first occurrences only. */
  function Distinct(xs: seq<string>): (r: seq<string>)
    ensures forall x :: x in r <==> x in xs
    ensures forall i, j :: 0 <= i < j < |r| ==> r[i] != r[j]
  {
    if |xs| == 0 then []
    else
      var d := Distinct(xs[..|xs| - 1]);
      var x := xs[|xs| - 1];
      assert xs == xs[..|xs| - 1] + [x];
      if x in d then d else d + [x]
  }

  function Categories(products: seq<Product>): (r: seq<string>)
    ensures |r| == |products| && forall i :: 0 <= i < |r| ==> r[i] == products[i].category
  {
    seq(|products|, i requires 0 <= i < |products| => products[i].category)
  }

  /** `(p) => p.category === cat`. */
  function InCategory(cat: string): Product -> bool {
    (p: Product) => p.category == cat
  }

  function CategoryKey(c: string): SortKey {
    StrKey(c)
  }

  /** `ALL_CATEGORIES`: the distinct categories, sorted by `Array.prototype.sort`'s
      default (character) order. */
  function AllCategories(products: seq<Product>): seq<string>
  {
    SortOn(Distinct(Categories(products)), CategoryKey)
  }

  /** The category list holds each category of the catalog exactly once, in
      strictly increasing order. */
  lemma AllCategoriesSpec(products: seq<Product>)
    ensures var r := AllCategories(products);
      && (forall c :: c in r <==> exists i :: 0 <= i < |products| && products[i].category == c)
      && (forall i, j :: 0 <= i < j < |r| ==> StrLe(r[i], r[j]) && r[i] != r[j])
  {
    var cats := Categories(products);
    var d := Distinct(cats);
    var r := AllCategories(products);
    assert multiset(r) == multiset(d);
    forall c ensures c in r <==> exists i :: 0 <= i < |products| && products[i].category == c {
      assert c in r <==> c in multiset(d);
      if c in cats {
        var i :| 0 <= i < |cats| && cats[i] == c;
        assert products[i].category == c;
      }
    }
    SortOnSorted(d, CategoryKey);
    SortOnKeysDistinct(d, CategoryKey);
  }

  // ---------------------------------------------------------------- display helpers

  /** The short labels shown in the category slider. */
  const DISPLAY_NAME: map<string, string> := map[
    "All Purpose / Multiusos" := "APC",
    "Protectores de tela" := "Protectores",
    "Control de olores" := "Olores",
    "Piel y Vinilo" := "Piel/Vinilo",
    "Desinfectantes" := "Desinfect.",
    "Automotriz" := "Auto"
  ]

  /** `DISPLAY_NAME[cat] || cat`. */
  function DisplayName(cat: string): (r: string)
    ensures cat in DISPLAY_NAME ==> r == DISPLAY_NAME[cat]
    ensures cat !in DISPLAY_NAME ==> r == cat
    ensures |r| > 0 <==> |cat| > 0
  {
    if cat in DISPLAY_NAME && DISPLAY_NAME[cat] != "" then DISPLAY_NAME[cat] else cat
  }

  /** `calcMaxGrid(w)`: how many columns fit a viewport `w` pixels wide. */
  function CalcMaxGrid(w: int): (m: int)
    ensures 1 <= m <= 3
  {
    if w < 768 then 1 else if w < 1280 then 2 else 3
  }

  lemma CalcMaxGridMonotone(w1: int, w2: int)
    requires w1 <= w2
    ensures CalcMaxGrid(w1) <= CalcMaxGrid(w2)
  {
  }

  /** `setGrid(g => Math.min(g, m))` on resize. */
  function ClampGrid(g: int, m: int): (r: int)
    ensures r <= m && r <= g && (r == g || r == m)
  {
    if g < m then g else m
  }

  /** After a resize the chosen column count is between 1 and what fits. */
  lemma ClampGridFits(g: int, w: int)
    requires g >= 1
    ensures 1 <= ClampGrid(g, CalcMaxGrid(w)) <= CalcMaxGrid(w)
    ensures g <= CalcMaxGrid(w) ==> ClampGrid(g, CalcMaxGrid(w)) == g
  {
  }
}
