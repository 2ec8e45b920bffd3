/** The cart of `useCart`: an ordered list of quote lines with add, batch add,
    quantity update, removal, clearing and the subtotal. */
module CartEngine {
  import opened Wrappers
  import opened Seqs
  import opened Catalog

  /** One quote line. `price` (centavos) is copied from the variant when the
      line is created and never looked up again. */
  datatype Line = Line(name: string, category: string, size: string, code: string, price: int, qty: int)

  /** The line key `${name}-${code}`: a string, not a pair. */
  function Key(name: string, code: string): string {
    name + "-" + code
  }

  function LineKey(x: Line): string {
    Key(x.name, x.code)
  }

  /** Because the key is a joined string, different name/code pairs can share
      a key, and the cart then treats them as one line. */
  lemma KeyCollision()
    ensures Key("a-b", "c") == Key("a", "b-c")
  {
  }

  /** `lines.findIndex(x => key(x) === key)`. */
  function IndexOfKey(lines: seq<Line>, key: string): (r: int)
    ensures -1 <= r < |lines|
    ensures r >= 0 ==> LineKey(lines[r]) == key
    ensures r >= 0 ==> forall j :: 0 <= j < r ==> LineKey(lines[j]) != key
    ensures r == -1 <==> forall j :: 0 <= j < |lines| ==> LineKey(lines[j]) != key
  {
    if |lines| == 0 then -1
    else if LineKey(lines[0]) == key then 0
    else
      var k := IndexOfKey(lines[1..], key);
      if k < 0 then -1 else k + 1
  }

  /** No two lines share a key. */
  ghost predicate KeysUnique(lines: seq<Line>) {
    forall i, j :: 0 <= i < j < |lines| ==> LineKey(lines[i]) != LineKey(lines[j])
  }

  ghost predicate QtysPositive(lines: seq<Line>) {
    forall i :: 0 <= i < |lines| ==> lines[i].qty >= 1
  }

  /** The line `add` appends for a variant not yet in the cart. */
  function NewLine(prod: Product, v: Variant, n: int): Line {
    Line(prod.name, prod.category, v.size, v.code, PriceOrZero(v), n)
  }

  // ---------------------------------------------------------------- add

  /** The cart after `add(prod, variant, n)`. */
  function AddTo(lines: seq<Line>, prod: Product, variant: Option<Variant>, n: int): seq<Line>
  {
    match variant
    case None => lines
    case Some(v) =>
      var k := IndexOfKey(lines, Key(prod.name, v.code));
      if k >= 0 then lines[k := lines[k].(qty := lines[k].qty + n)]
      else lines + [NewLine(prod, v, n)]
  }

  /** With a key already in the cart, `add` changes only that line's quantity,
      by `n`, in place; with a new key it appends exactly one line at the end. */
  lemma AddToSpec(lines: seq<Line>, prod: Product, v: Variant, n: int)
    ensures var r, k := AddTo(lines, prod, Some(v), n), IndexOfKey(lines, Key(prod.name, v.code));
      && (k >= 0 ==> |r| == |lines| && r[k] == lines[k].(qty := lines[k].qty + n)
                     && forall j :: 0 <= j < |lines| && j != k ==> r[j] == lines[j])
      && (k < 0 ==> r == lines + [Line(prod.name, prod.category, v.size, v.code, v.price.GetOr(0), n)])
  {
  }

  /** `add` never creates a second line for a key. */
  lemma AddToKeepsKeysUnique(lines: seq<Line>, prod: Product, variant: Option<Variant>, n: int)
    requires KeysUnique(lines)
    ensures KeysUnique(AddTo(lines, prod, variant, n))
  {
    if variant.Some? {
      var key := Key(prod.name, variant.value.code);
      var k := IndexOfKey(lines, key);
      var r := AddTo(lines, prod, variant, n);
      if k < 0 {
        forall i, j | 0 <= i < j < |r| ensures LineKey(r[i]) != LineKey(r[j]) {
          if j == |lines| { assert LineKey(r[j]) == key; }
        }
      }
    }
  }

  /** `add` with a positive quantity keeps every quantity positive. */
  lemma AddToKeepsQtysPositive(lines: seq<Line>, prod: Product, variant: Option<Variant>, n: int)
    requires QtysPositive(lines) && n >= 1
    ensures QtysPositive(AddTo(lines, prod, variant, n))
  {
  }

  /** Adding the same variant twice, 2 then 3 say, yields one line with the sum. */
  lemma AddTwiceMerges(lines: seq<Line>, prod: Product, v: Variant, a: int, b: int)
    requires IndexOfKey(lines, Key(prod.name, v.code)) < 0
    ensures AddTo(AddTo(lines, prod, Some(v), a), prod, Some(v), b) == lines + [NewLine(prod, v, a + b)]
  {
    var once := lines + [NewLine(prod, v, a)];
    assert forall j :: 0 <= j < |lines| ==> once[j] == lines[j];
    assert LineKey(once[|lines|]) == Key(prod.name, v.code);
    assert IndexOfKey(once, Key(prod.name, v.code)) == |lines|;
  }

  // ---------------------------------------------------------------- addLines

  /** One element of the list handed to `addLines`. */
  datatype Entry = Entry(prod: Product, variant: Option<Variant>, qty: int)

  /** `qty || 1` on a number: zero, the only falsy integer, becomes 1. */
  function OrOne(q: int): (r: int)
    ensures q == 0 ==> r == 1
    ensures q != 0 ==> r == q
  {
    if q == 0 then 1 else q
  }

  /** The cart after `addLines(entries)`: one `add` per entry, left to right. */
  function AddAll(lines: seq<Line>, entries: seq<Entry>): seq<Line>
    decreases |entries|
  {
    if |entries| == 0 then lines
    else AddAll(AddTo(lines, entries[0].prod, entries[0].variant, OrOne(entries[0].qty)), entries[1..])
  }

  /** Adding a batch and then another is adding their concatenation. */
  lemma {:induction false} AddAllAppend(lines: seq<Line>, a: seq<Entry>, b: seq<Entry>)
    ensures AddAll(lines, a + b) == AddAll(AddAll(lines, a), b)
    decreases |a|
  {
    if |a| == 0 {
      assert a + b == b;
    } else {
      assert (a + b)[0] == a[0] && (a + b)[1..] == a[1..] + b;
      AddAllAppend(AddTo(lines, a[0].prod, a[0].variant, OrOne(a[0].qty)), a[1..], b);
    }
  }

  lemma {:induction false} AddAllKeepsKeysUnique(lines: seq<Line>, entries: seq<Entry>)
    requires KeysUnique(lines)
    ensures KeysUnique(AddAll(lines, entries))
    decreases |entries|
  {
    if |entries| > 0 {
      var e := entries[0];
      AddToKeepsKeysUnique(lines, e.prod, e.variant, OrOne(e.qty));
      AddAllKeepsKeysUnique(AddTo(lines, e.prod, e.variant, OrOne(e.qty)), entries[1..]);
    }
  }

  /** The quantity the cart holds under `key`, 0 when there is no such line. */
  function QtyOf(lines: seq<Line>, key: string): int {
    var k := IndexOfKey(lines, key);
    if k >= 0 then lines[k].qty else 0
  }

  function SumQty(entries: seq<Entry>): int
    decreases |entries|
  {
    if |entries| == 0 then 0 else OrOne(entries[0].qty) + SumQty(entries[1..])
  }

  predicate AllKeyed(entries: seq<Entry>, key: string) {
    forall i :: 0 <= i < |entries| ==>
      entries[i].variant.Some? && Key(entries[i].prod.name, entries[i].variant.value.code) == key
  }

  /** One `add` under `key`: the key is then present, its quantity has grown by
      `n`, and nothing else moved. */
  lemma AddToSameKey(lines: seq<Line>, prod: Product, v: Variant, n: int, key: string)
    requires Key(prod.name, v.code) == key
    ensures var r := AddTo(lines, prod, Some(v), n);
      && IndexOfKey(r, key) >= 0
      && QtyOf(r, key) == QtyOf(lines, key) + n
      && |lines| <= |r| <= |lines| + 1
      && (IndexOfKey(lines, key) >= 0 ==> |r| == |lines|)
      && forall j :: 0 <= j < |lines| && LineKey(lines[j]) != key ==> r[j] == lines[j]
  {
    var r := AddTo(lines, prod, Some(v), n);
    var k := IndexOfKey(lines, key);
    if k >= 0 {
      assert LineKey(r[k]) == key;
      assert forall j :: 0 <= j < k ==> r[j] == lines[j];
      assert IndexOfKey(r, key) == k;
    } else {
      assert forall j :: 0 <= j < |lines| ==> r[j] == lines[j];
      assert LineKey(r[|lines|]) == key;
      assert IndexOfKey(r, key) == |lines|;
    }
  }

  /** Merge invariant: any number of adds under one key leave exactly one line
      for that key, holding the sum of the added quantities, and every line
      under another key where it was. */
  lemma {:induction false} AddAllSameKey(lines: seq<Line>, entries: seq<Entry>, key: string)
    requires AllKeyed(entries, key)
    ensures var r := AddAll(lines, entries);
      && QtyOf(r, key) == QtyOf(lines, key) + SumQty(entries)
      && (|entries| > 0 ==> IndexOfKey(r, key) >= 0)
      && |lines| <= |r| <= |lines| + 1
      && (IndexOfKey(lines, key) >= 0 ==> |r| == |lines|)
      && forall j :: 0 <= j < |lines| && LineKey(lines[j]) != key ==> r[j] == lines[j]
    decreases |entries|
  {
    if |entries| > 0 {
      var e := entries[0];
      var n := OrOne(e.qty);
      var next := AddTo(lines, e.prod, e.variant, n);
      AddToSameKey(lines, e.prod, e.variant.value, n, key);
      assert AllKeyed(entries[1..], key);
      AddAllSameKey(next, entries[1..], key);
    }
  }

  // ---------------------------------------------------------------- subtotal

  /** The line's contribution `(x.price || 0) * x.qty`. */
  function Amount(x: Line): int {
    x.price * x.qty
  }

  /** `items.reduce((s, x) => s + amount(x), 0)`: a left fold. */
  function Subtotal(lines: seq<Line>): int
  {
    if |lines| == 0 then 0 else Subtotal(lines[..|lines| - 1]) + Amount(lines[|lines| - 1])
  }

  /** The subtotal is additive over concatenated carts. */
  lemma {:induction false} SubtotalAppend(a: seq<Line>, b: seq<Line>)
    ensures Subtotal(a + b) == Subtotal(a) + Subtotal(b)
    decreases |b|
  {
    if |b| == 0 {
      assert a + b == a;
    } else {
      var c := a + b;
      assert c[..|c| - 1] == a + b[..|b| - 1];
      SubtotalAppend(a, b[..|b| - 1]);
    }
  }

  lemma SubtotalSingle(x: Line)
    ensures Subtotal([x]) == Amount(x)
  {
    assert [x][..0] == [];
  }

  /** Replacing one line changes the subtotal by the difference of the two amounts. */
  lemma SubtotalReplace(lines: seq<Line>, k: int, x: Line)
    requires 0 <= k < |lines|
    ensures Subtotal(lines[k := x]) == Subtotal(lines) - Amount(lines[k]) + Amount(x)
  {
    var pre, post := lines[..k], lines[k + 1..];
    assert lines == pre + [lines[k]] + post;
    assert lines[k := x] == pre + [x] + post;
    SubtotalAppend(pre + [lines[k]], post);
    SubtotalAppend(pre, [lines[k]]);
    SubtotalAppend(pre + [x], post);
    SubtotalAppend(pre, [x]);
    SubtotalSingle(x);
    SubtotalSingle(lines[k]);
  }

  /** Cutting one line out lowers the subtotal by its amount. */
  lemma SubtotalAround(pre: seq<Line>, x: Line, post: seq<Line>)
    ensures Subtotal(pre + [x] + post) == Subtotal(pre) + Amount(x) + Subtotal(post)
    ensures Subtotal(pre + post) == Subtotal(pre) + Subtotal(post)
  {
    SubtotalAppend(pre + [x], post);
    SubtotalAppend(pre, [x]);
    SubtotalSingle(x);
    SubtotalAppend(pre, post);
  }

  lemma AmountMoreQty(x: Line, n: int)
    ensures Amount(x.(qty := x.qty + n)) == Amount(x) + x.price * n
  {
    assert x.price * (x.qty + n) == x.price * x.qty + x.price * n;
  }

  /** Each `add` raises the subtotal by the line's price times the added
      quantity; an absent variant leaves it as it was. */
  lemma AddToSubtotal(lines: seq<Line>, prod: Product, variant: Option<Variant>, n: int)
    ensures variant.None? ==> Subtotal(AddTo(lines, prod, variant, n)) == Subtotal(lines)
    ensures variant.Some? ==>
      var k := IndexOfKey(lines, Key(prod.name, variant.value.code));
      Subtotal(AddTo(lines, prod, variant, n))
        == Subtotal(lines) + (if k >= 0 then lines[k].price else PriceOrZero(variant.value)) * n
  {
    if variant.Some? {
      var v := variant.value;
      var k := IndexOfKey(lines, Key(prod.name, v.code));
      if k >= 0 {
        var x := lines[k];
        SubtotalReplace(lines, k, x.(qty := x.qty + n));
        AmountMoreQty(x, n);
        assert Subtotal(AddTo(lines, prod, variant, n)) == Subtotal(lines) + x.price * n;
      } else {
        var x := NewLine(prod, v, n);
        var r := lines + [x];
        assert r[..|r| - 1] == lines;
        assert Subtotal(r) == Subtotal(lines) + Amount(x);
        assert Amount(x) == PriceOrZero(v) * n;
      }
    }
  }

  // ---------------------------------------------------------------- updateQty

  /** `Math.max(1, q)`. */
  function ClampQty(q: int): (r: int)
    ensures r >= 1 && r >= q && (q >= 1 ==> r == q)
    ensures r == 1 || r == q
  {
    if q < 1 then 1 else q
  }

  /** The `map` step of `updateQty`: every line under `key` gets quantity `max(1, q)`. */
  function SetQty(lines: seq<Line>, key: string, q: int): (r: seq<Line>)
    ensures |r| == |lines|
  {
    seq(|lines|, i requires 0 <= i < |lines| =>
      if LineKey(lines[i]) == key then lines[i].(qty := ClampQty(q)) else lines[i])
  }

  function QtyPositive(x: Line): bool {
    x.qty > 0
  }

  /** The cart after `updateQty(key, q)`: the `map`, then `filter(x => x.qty > 0)`
      over every line, not only the updated one. */
  function UpdateQtyOf(lines: seq<Line>, key: string, q: int): seq<Line> {
    Filter(SetQty(lines, key, q), QtyPositive)
  }

  /** Filtering a cart keeps its keys unique. */
  lemma {:induction false} FilterKeepsKeysUnique(lines: seq<Line>, f: Line -> bool)
    requires KeysUnique(lines)
    ensures KeysUnique(Filter(lines, f))
  {
    if |lines| > 0 {
      var rest := Filter(lines[1..], f);
      FilterKeepsKeysUnique(lines[1..], f);
      FilterSpec(lines[1..], f);
      if f(lines[0]) {
        var r := [lines[0]] + rest;
        forall j | 1 <= j < |r| ensures LineKey(r[0]) != LineKey(r[j]) {
          var k :| 0 <= k < |lines[1..]| && lines[1..][k] == r[j];
          assert lines[k + 1] == r[j];
        }
      }
    }
  }

  lemma SetQtyKeys(lines: seq<Line>, key: string, q: int)
    ensures var m := SetQty(lines, key, q);
      forall i :: 0 <= i < |m| ==> LineKey(m[i]) == LineKey(lines[i])
  {
  }

  lemma UpdateQtyKeysUnique(lines: seq<Line>, key: string, q: int)
    requires KeysUnique(lines)
    ensures KeysUnique(UpdateQtyOf(lines, key, q))
  {
    var m := SetQty(lines, key, q);
    SetQtyKeys(lines, key, q);
    assert KeysUnique(m) by {
      forall i, j | 0 <= i < j < |m| ensures LineKey(m[i]) != LineKey(m[j]) {
        assert LineKey(m[i]) == LineKey(lines[i]) && LineKey(m[j]) == LineKey(lines[j]);
      }
    }
    FilterKeepsKeysUnique(m, QtyPositive);
  }

  lemma UpdateQtyKeepsTarget(lines: seq<Line>, key: string, q: int)
    requires IndexOfKey(lines, key) >= 0
    ensures var r := UpdateQtyOf(lines, key, q);
      IndexOfKey(r, key) >= 0 && r[IndexOfKey(r, key)].qty == ClampQty(q)
  {
    var m := SetQty(lines, key, q);
    var r := UpdateQtyOf(lines, key, q);
    var k := IndexOfKey(lines, key);
    FilterSpec(m, QtyPositive);
    SetQtyKeys(lines, key, q);
    assert m[k] in m && QtyPositive(m[k]);
    assert LineKey(m[k]) == key;
    assert m[k] in r;
    var t := IndexOfKey(r, key);
    assert t >= 0 by {
      var i :| 0 <= i < |r| && r[i] == m[k];
    }
    assert r[t] in m;
    var h :| 0 <= h < |m| && m[h] == r[t];
    assert LineKey(lines[h]) == key;
  }

  /** Every line with a positive quantity, other than those under `key`,
      survives `updateQty` unchanged. */
  lemma UpdateQtyKeepsOthers(lines: seq<Line>, key: string, q: int)
    ensures var r := UpdateQtyOf(lines, key, q);
      forall i :: 0 <= i < |lines| && LineKey(lines[i]) != key && lines[i].qty > 0 ==> lines[i] in r
  {
    var m := SetQty(lines, key, q);
    FilterSpec(m, QtyPositive);
    forall i | 0 <= i < |lines| && LineKey(lines[i]) != key && lines[i].qty > 0
      ensures lines[i] in UpdateQtyOf(lines, key, q)
    {
      assert m[i] == lines[i];
      assert m[i] in m;
    }
  }

  /** After `updateQty` every quantity is at least 1, the `qty > 0` filter drops
      exactly the lines with a quantity of 0 or less, keys stay unique, the lines
      that remain are in their old order, and the line under `key` is never dropped. */
  lemma UpdateQtySpec(lines: seq<Line>, key: string, q: int)
    ensures var r := UpdateQtyOf(lines, key, q);
      && QtysPositive(r)
      && IsSubseq(r, SetQty(lines, key, q))
      && (forall x :: x in SetQty(lines, key, q) && x.qty > 0 ==> x in r)
      && (forall i :: 0 <= i < |lines| && LineKey(lines[i]) != key && lines[i].qty > 0 ==> lines[i] in r)
      && (KeysUnique(lines) ==> KeysUnique(r))
      && (IndexOfKey(lines, key) >= 0 ==>
            IndexOfKey(r, key) >= 0 && r[IndexOfKey(r, key)].qty == ClampQty(q))
  {
    var m := SetQty(lines, key, q);
    FilterIsSubseq(m, QtyPositive);
    FilterSpec(m, QtyPositive);
    if KeysUnique(lines) {
      UpdateQtyKeysUnique(lines, key, q);
    }
    UpdateQtyKeepsOthers(lines, key, q);
    if IndexOfKey(lines, key) >= 0 {
      UpdateQtyKeepsTarget(lines, key, q);
    }
  }

  /** `updateQty(key, 0)` keeps the line, with quantity 1: `Math.max(1, 0)` is 1,
      so the `qty > 0` filter has nothing to drop. */
  lemma UpdateQtyZeroKeepsLine(x: Line)
    ensures UpdateQtyOf([x], LineKey(x), 0) == [x.(qty := 1)]
  {
    var m := SetQty([x], LineKey(x), 0);
    assert m == [x.(qty := 1)];
    assert m[1..] == [];
  }

  /** On a cart whose quantities are all positive, `updateQty` removes nothing:
      it changes exactly the quantity of the lines under `key`. */
  lemma UpdateQtyOnPositiveCart(lines: seq<Line>, key: string, q: int)
    requires QtysPositive(lines)
    ensures var r := UpdateQtyOf(lines, key, q);
      && |r| == |lines|
      && forall i :: 0 <= i < |lines| ==>
           r[i] == if LineKey(lines[i]) == key then lines[i].(qty := ClampQty(q)) else lines[i]
  {
    FilterAllPass(SetQty(lines, key, q), QtyPositive);
  }

  // ---------------------------------------------------------------- remove

  function KeyIsNot(key: string): Line -> bool {
    x => LineKey(x) != key
  }

  /** The cart after `remove(key)`. */
  function RemoveKey(lines: seq<Line>, key: string): seq<Line> {
    Filter(lines, KeyIsNot(key))
  }

  /** `remove` drops exactly the lines under `key` and keeps the rest in order;
      with the key absent it changes nothing. */
  lemma RemoveKeySpec(lines: seq<Line>, key: string)
    ensures var r := RemoveKey(lines, key);
      && (forall i :: 0 <= i < |r| ==> LineKey(r[i]) != key)
      && (forall x :: x in lines && LineKey(x) != key ==> x in r)
      && IsSubseq(r, lines)
      && (IndexOfKey(lines, key) < 0 ==> r == lines)
  {
    FilterIsSubseq(lines, KeyIsNot(key));
    FilterSpec(lines, KeyIsNot(key));
    if IndexOfKey(lines, key) < 0 {
      FilterAllPass(lines, KeyIsNot(key));
    }
  }

  /** In a cart with unique keys, `remove` takes out the one line under `key`. */
  lemma RemoveKeyPresent(lines: seq<Line>, key: string)
    requires KeysUnique(lines)
    requires IndexOfKey(lines, key) >= 0
    ensures var k := IndexOfKey(lines, key);
      RemoveKey(lines, key) == lines[..k] + lines[k + 1..]
  {
    var k := IndexOfKey(lines, key);
    forall i | 0 <= i < |lines| && i != k ensures KeyIsNot(key)(lines[i]) {
      if i > k {
        assert LineKey(lines[k]) != LineKey(lines[i]);
      }
    }
    FilterDropOne(lines, k, KeyIsNot(key));
  }

  /** Removing a present key lowers the subtotal by that line's amount. */
  lemma RemoveKeySubtotal(lines: seq<Line>, key: string)
    requires KeysUnique(lines)
    requires IndexOfKey(lines, key) >= 0
    ensures Subtotal(RemoveKey(lines, key)) == Subtotal(lines) - Amount(lines[IndexOfKey(lines, key)])
  {
    var k := IndexOfKey(lines, key);
    var pre, post := lines[..k], lines[k + 1..];
    RemoveKeyPresent(lines, key);
    assert lines == pre + [lines[k]] + post;
    SubtotalAround(pre, lines[k], post);
  }

  // ---------------------------------------------------------------- the cart object

  class Cart {
    var items: seq<Line>

    ghost predicate Valid()
      reads this
    {
      KeysUnique(items)
    }

    constructor ()
      ensures Valid() && items == []
    {
      items := [];
    }

    /** `add(prod, variant, qty)`. */
    method Add(prod: Product, variant: Option<Variant>, n: int)
      requires Valid()
      modifies this
      ensures Valid()
      ensures items == AddTo(old(items), prod, variant, n)
    {
      if variant.None? {
        return;
      }
      var v := variant.value;
      var key := Key(prod.name, v.code);
      AddToKeepsKeysUnique(items, prod, variant, n);
      var i := 0;
      while i < |items| && LineKey(items[i]) != key
        invariant 0 <= i <= |items|
        invariant forall j :: 0 <= j < i ==> LineKey(items[j]) != key
      {
        i := i + 1;
      }
      if i < |items| {
        items := items[i := items[i].(qty := items[i].qty + n)];
      } else {
        items := items + [NewLine(prod, v, n)];
      }
    }

    /** `addLines(entries)`: `add(e.prod, e.variant, e.qty || 1)` for each entry in turn. */
    method AddLines(entries: seq<Entry>)
      requires Valid()
      modifies this
      ensures Valid()
      ensures items == AddAll(old(items), entries)
    {
      var i := 0;
      while i < |entries|
        invariant 0 <= i <= |entries|
        invariant Valid()
        invariant AddAll(old(items), entries) == AddAll(items, entries[i..])
      {
        var e := entries[i];
        assert entries[i..][1..] == entries[i + 1..];
        Add(e.prod, e.variant, OrOne(e.qty));
        i := i + 1;
      }
    }

    /** `updateQty(key, q)`. */
    method UpdateQty(key: string, q: int)
      requires Valid()
      modifies this
      ensures Valid()
      ensures items == UpdateQtyOf(old(items), key, q)
    {
      UpdateQtySpec(items, key, q);
      items := Filter(SetQty(items, key, q), QtyPositive);
    }

    /** `remove(key)`. */
    method Remove(key: string)
      requires Valid()
      modifies this
      ensures Valid()
      ensures items == RemoveKey(old(items), key)
    {
      FilterKeepsKeysUnique(items, KeyIsNot(key));
      items := Filter(items, KeyIsNot(key));
    }

    /** `clear()`. */
    method Clear()
      modifies this
      ensures Valid() && items == []
    {
      items := [];
    }

    /** `subtotal`, recomputed from the current lines; 0 for the empty cart. */
    function CurrentSubtotal(): (r: int)
      reads this
      ensures items == [] ==> r == 0
    {
      Subtotal(items)
    }
  }
}
