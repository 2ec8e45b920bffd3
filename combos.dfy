/** Combos: bundles of variant references that `addCombo` resolves through the
    lookup and hands to `addLines`. */
module Combos {
  import opened Wrappers
  import opened Catalog
  import opened CartEngine
  import Text

  /** A combo item `{ code, size, qty }`; a missing `qty` is represented by 0,
      which `qty || 1` turns into 1 like `undefined`. */
  datatype ComboItem = ComboItem(code: string, size: string, qty: int)

  /** A combo; its description and colour are presentation only. */
  datatype Combo = Combo(id: string, name: string, items: seq<ComboItem>)

  /** The `map` step for one item: the looked-up line, or nothing on a miss. */
  function ExpandItem(products: seq<Product>, it: ComboItem): (r: seq<Entry>)
    ensures |r| <= 1
  {
    match Lookup(products, it.code, it.size)
    case None => []
    case Some(m) => [Entry(m.prod, Some(m.variant), OrOne(it.qty))]
  }

  /** `combo.items.map(...).filter(Boolean)`. */
  function Expand(products: seq<Product>, items: seq<ComboItem>): (r: seq<Entry>)
    ensures |r| <= |items|
  {
    if |items| == 0 then [] else ExpandItem(products, items[0]) + Expand(products, items[1..])
  }

  /** Expansion works item by item, in item order. */
  lemma {:induction false} ExpandAppend(products: seq<Product>, a: seq<ComboItem>, b: seq<ComboItem>)
    ensures Expand(products, a + b) == Expand(products, a) + Expand(products, b)
  {
    if |a| == 0 {
      assert a + b == b;
    } else {
      assert (a + b)[0] == a[0] && (a + b)[1..] == a[1..] + b;
      ExpandAppend(products, a[1..], b);
    }
  }

  /** An entry names a variant of one of the catalog's products, with a
      non-zero quantity. */
  predicate Resolved(products: seq<Product>, e: Entry) {
    e.variant.Some? && e.prod in products && e.variant.value in e.prod.variants && e.qty != 0
  }

  lemma ExpandItemResolved(products: seq<Product>, it: ComboItem)
    ensures forall i :: 0 <= i < |ExpandItem(products, it)| ==> Resolved(products, ExpandItem(products, it)[i])
  {
  }

  /** Every expanded line is a variant of the catalog that the lookup accepts,
      with a non-zero quantity. */
  lemma {:induction false} ExpandFound(products: seq<Product>, items: seq<ComboItem>)
    ensures forall i :: 0 <= i < |Expand(products, items)| ==> Resolved(products, Expand(products, items)[i])
  {
    if |items| > 0 {
      var h, t := ExpandItem(products, items[0]), Expand(products, items[1..]);
      ExpandFound(products, items[1..]);
      ExpandItemResolved(products, items[0]);
      forall i | 0 <= i < |h + t| ensures Resolved(products, (h + t)[i]) {
        if i >= |h| { assert (h + t)[i] == t[i - |h|]; } else { assert (h + t)[i] == h[i]; }
      }
    }
  }

  /** The expansion has one line per item exactly when every item is found. */
  lemma {:induction false} ExpandComplete(products: seq<Product>, items: seq<ComboItem>)
    ensures |Expand(products, items)| == |items| <==>
      forall i :: 0 <= i < |items| ==> Lookup(products, items[i].code, items[i].size).Some?
  {
    if |items| > 0 {
      ExpandComplete(products, items[1..]);
      var rest := items[1..];
      if Lookup(products, items[0].code, items[0].size).Some? {
        assert forall i :: 1 <= i < |items| ==> items[i] == rest[i - 1];
      }
    }
  }

  /** Every expanded line is a variant of the catalog that the lookup accepts
      for some item, with a non-zero quantity; the expansion has one line per
      item exactly when every item is found. */
  lemma ExpandSpec(products: seq<Product>, items: seq<ComboItem>)
    ensures var r := Expand(products, items);
      && (forall i :: 0 <= i < |r| ==>
            r[i].variant.Some? && r[i].prod in products && r[i].variant.value in r[i].prod.variants
            && r[i].qty != 0)
      && (|r| == |items| <==> forall i :: 0 <= i < |items| ==> Lookup(products, items[i].code, items[i].size).Some?)
  {
    ExpandFound(products, items);
    ExpandComplete(products, items);
  }

  /** The reference behaviour: one `add` for each item the lookup finds, in
      item order, skipping misses, with quantity `qty || 1`. */
  function AddItems(lines: seq<Line>, products: seq<Product>, items: seq<ComboItem>): seq<Line>
    decreases |items|
  {
    if |items| == 0 then lines
    else
      var next := match Lookup(products, items[0].code, items[0].size)
        case None => lines
        case Some(m) => AddTo(lines, m.prod, Some(m.variant), OrOne(items[0].qty));
      AddItems(next, products, items[1..])
  }

  /** `addCombo` is exactly the sequence of single adds over the found items. */
  lemma {:induction false} AddComboIsSequentialAdds(lines: seq<Line>, products: seq<Product>, items: seq<ComboItem>)
    ensures AddAll(lines, Expand(products, items)) == AddItems(lines, products, items)
    decreases |items|
  {
    if |items| > 0 {
      var head := ExpandItem(products, items[0]);
      var rest := Expand(products, items[1..]);
      AddAllAppend(lines, head, rest);
      match Lookup(products, items[0].code, items[0].size)
      case None =>
        AddComboIsSequentialAdds(lines, products, items[1..]);
      case Some(m) =>
        assert head[1..] == [];
        AddComboIsSequentialAdds(AddTo(lines, m.prod, Some(m.variant), OrOne(items[0].qty)), products, items[1..]);
    }
  }

  /** `addCombo(combo)` (opening the drawer is presentation). */
  method AddCombo(cart: Cart, products: seq<Product>, combo: Combo)
    requires cart.Valid()
    modifies cart
    ensures cart.Valid()
    ensures cart.items == AddItems(old(cart.items), products, combo.items)
  {
    AddComboIsSequentialAdds(cart.items, products, combo.items);
    cart.AddLines(Expand(products, combo.items));
  }

  /** A combo naming one existing and one unknown code expands to exactly one
      line, for the existing code; letter case in the code does not matter. */
  lemma PartialCombo()
    ensures var v := Variant("1.5 kg", "PLFC1.5", Some(18900));
      var p := Product("Prelavador", "Prelavadores", None, None, [v]);
      Expand([p], [ComboItem("plfc1.5", "1.5 kg", 1), ComboItem("NOPE", "1 L", 1)])
        == [Entry(p, Some(v), 1)]
  {
    var v := Variant("1.5 kg", "PLFC1.5", Some(18900));
    var p := Product("Prelavador", "Prelavadores", None, None, [v]);
    assert Text.Lower("PLFC1.5") == Text.Lower("plfc1.5");
    assert Hit(v, "plfc1.5", "1.5 kg");
    assert Text.Lower("PLFC1.5")[0] != Text.Lower("NOPE")[0];
    assert !Hit(v, "NOPE", "1 L");
  }
}
