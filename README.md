# Magno Clean catalogue: cart, lookup, filtering and grouping

A Dafny model of the logic inside the product catalogue page of the Magno
Clean site (`CatalogoMagnoClean.jsx`). It covers:

- the quote cart (`useCart`): `add`, `addLines`, `updateQty`, `remove`,
  `clear`, the `subtotal`, and the text of the WhatsApp quote message. The
  cart is the class `CartEngine.Cart`. Its field `items` is the list of
  quote lines, and each method is tied to a function of the old list
  (`AddTo`, `AddAll`, `UpdateQtyOf`, `RemoveKey`).
- `lookupVariant`, the nested search for a variant by code (letter case
  ignored) and an optional size, and `addCombo`, which resolves a combo's
  items through that lookup and hands the found lines to `addLines`.
- `useFiltered`, which normalises the search query, keeps the products
  whose text (name, subtitle, category, appearance, variant codes) contains
  it, keeps one category unless it is `"Todas"`, and sorts by name or by
  first-variant price.
- `groupByCategory`, which collects the filtered products per category in
  first-seen order and sorts the groups by category name.
- the small helpers `displayName`, `calcMaxGrid`, the grid clamp on resize
  and `ALL_CATEGORIES`.

Prices are integers (centavos). A variant's price is `Option<int>`: `None`
stands for an absent or non-numeric price, which the page turns into 0.

Modules follow the page's structure:

- `Wrappers`, `Text`, `Seqs` and `Sorting` are the JavaScript built-ins the
  page relies on: `toLowerCase`, `trim`, `includes`, `join`, `split`,
  `filter` and the stable `Array.prototype.sort`.
- `Catalog` holds the products and `lookupVariant`.
- `CartEngine` holds `useCart`.
- `Combos` holds `addCombo`.
- `Message` holds the quote text.
- `Pipeline` holds `useFiltered`.
- `Grouping` holds `groupByCategory`.

Two behaviours of the code worth knowing:

- `updateQty(key, 0)` does not remove the line. `Math.max(1, 0)` is 1, so
  the line stays with quantity 1, and the `qty > 0` filter drops nothing
  that `updateQty` itself wrote (`UpdateQtyZeroKeepsLine`, `UpdateQtySpec`,
  `UpdateQtyOnPositiveCart`).
- A cart line is identified by the string `` `${name}-${code}` ``, not by
  the (name, code) pair. Different pairs can share a key
  (`CartEngine.KeyCollision`), and the cart then merges them into one line.

## Model

| member | source | states |
|---|---|---|
| CartEngine.Key | src/components/CatalogoMagnoClean.jsx:56 | definition: the key of a variant added under a product, the string `name + "-" + code` |
| CartEngine.LineKey | src/components/CatalogoMagnoClean.jsx:57 | definition: the key of a stored line, from its name and code |
| CartEngine.NewLine | src/components/CatalogoMagnoClean.jsx:65-72 | definition: the line appended for a new variant, copying name, category, size and code, with the variant's price or 0 |
| CartEngine.AddTo | src/components/CatalogoMagnoClean.jsx:55-74 | definition: the `setItems` updater of `add`: no change without a variant, an in-place quantity raise for a present key, an appended line otherwise |
| CartEngine.AddAll | src/components/CatalogoMagnoClean.jsx:77 | definition: one `AddTo` per entry, left to right, with quantity `OrOne(qty)` |
| CartEngine.SetQty | src/components/CatalogoMagnoClean.jsx:82 | definition: the `map` step of `updateQty`, giving every line under the key quantity `ClampQty(q)` |
| CartEngine.UpdateQtyOf | src/components/CatalogoMagnoClean.jsx:80-84 | definition: the updater of `updateQty`, `SetQty` followed by the `qty > 0` filter |
| CartEngine.RemoveKey | src/components/CatalogoMagnoClean.jsx:87 | definition: the updater of `remove`, the filter keeping lines whose key differs |
| CartEngine.Amount | src/components/CatalogoMagnoClean.jsx:92 | definition: one line's contribution, its price times its quantity |
| CartEngine.Subtotal | src/components/CatalogoMagnoClean.jsx:91-94 | definition: the `reduce` summing every line's amount from 0 |
| CartEngine.Cart.constructor | src/components/CatalogoMagnoClean.jsx:51 | the cart starts empty, with unique keys |
| CartEngine.Cart.Add | src/components/CatalogoMagnoClean.jsx:53-75 | the new lines are `AddTo` of the old ones, and keys stay unique; a missing variant changes nothing |
| CartEngine.Cart.AddLines | src/components/CatalogoMagnoClean.jsx:77 | the new lines are one `add` per entry, left to right, with the entry's quantity, or 1 when it is 0; keys stay unique |
| CartEngine.Cart.UpdateQty | src/components/CatalogoMagnoClean.jsx:79-84 | the new lines are the map to `max(1, q)` followed by the `qty > 0` filter; keys stay unique |
| CartEngine.Cart.Remove | src/components/CatalogoMagnoClean.jsx:86-87 | the new lines are those whose key differs; keys stay unique |
| CartEngine.Cart.Clear | src/components/CatalogoMagnoClean.jsx:89 | the cart is empty afterwards |
| CartEngine.Cart.CurrentSubtotal | src/components/CatalogoMagnoClean.jsx:91-94 | the subtotal of an empty cart is 0 |
| CartEngine.KeyCollision | src/components/CatalogoMagnoClean.jsx:56-57 | the joined-string key makes ("a-b", "c") and ("a", "b-c") the same line |
| CartEngine.IndexOfKey | src/components/CatalogoMagnoClean.jsx:57 | `findIndex`: -1 exactly when no line has the key, otherwise the first line with it |
| CartEngine.AddToSpec | src/components/CatalogoMagnoClean.jsx:53-75 | a present key only gains `n` on that line, in place, and every other line is unchanged; a new key appends one line with the variant's price or 0 |
| CartEngine.AddToKeepsKeysUnique | src/components/CatalogoMagnoClean.jsx:56-73 | `add` never creates a second line for a key |
| CartEngine.AddToKeepsQtysPositive | src/components/CatalogoMagnoClean.jsx:53-75 | adding a positive quantity keeps every quantity positive |
| CartEngine.AddTwiceMerges | src/components/CatalogoMagnoClean.jsx:56-73 | adding the same new variant twice gives one line holding the sum |
| CartEngine.OrOne | src/components/CatalogoMagnoClean.jsx:77 | the quantity fallback turns 0 into 1 and keeps any non-zero quantity |
| CartEngine.AddAllAppend | src/components/CatalogoMagnoClean.jsx:77 | adding two batches in turn is adding their concatenation |
| CartEngine.AddAllKeepsKeysUnique | src/components/CatalogoMagnoClean.jsx:77 | a batch add keeps keys unique |
| CartEngine.AddToSameKey | src/components/CatalogoMagnoClean.jsx:53-75 | one add under a key makes the key present and raises its quantity by `n`; only that line changes, and the cart grows by at most one line |
| CartEngine.AddAllSameKey | src/components/CatalogoMagnoClean.jsx:77 | any batch under one key leaves one line holding the old quantity plus the sum of the added quantities (0 counted as 1), and every other line where it was |
| CartEngine.SubtotalAppend | src/components/CatalogoMagnoClean.jsx:91-94 | the subtotal is additive over concatenated carts |
| CartEngine.SubtotalReplace | src/components/CatalogoMagnoClean.jsx:91-94 | replacing one line changes the subtotal by the difference of the two amounts |
| CartEngine.AddToSubtotal | src/components/CatalogoMagnoClean.jsx:53-75 | `add` raises the subtotal by the line's price times `n`, using the stored price for an existing line and the variant's price or 0 for a new one; a missing variant leaves it unchanged |
| CartEngine.ClampQty | src/components/CatalogoMagnoClean.jsx:81 | `Math.max(1, q)` is 1 or `q`, at least both, so it is exactly 1 when `q < 1` and `q` otherwise |
| CartEngine.UpdateQtySpec | src/components/CatalogoMagnoClean.jsx:79-84 | afterwards every quantity is at least 1, every mapped line with a positive quantity survives (in particular every other line with a positive quantity), the remaining lines keep their order, keys stay unique, and a present key keeps its line with quantity `max(1, q)` |
| CartEngine.UpdateQtyKeepsOthers | src/components/CatalogoMagnoClean.jsx:81-83 | a line under another key with a positive quantity is not dropped |
| CartEngine.UpdateQtyZeroKeepsLine | src/components/CatalogoMagnoClean.jsx:79-84 | `updateQty(key, 0)` on a one-line cart keeps that line, with quantity 1 |
| CartEngine.UpdateQtyOnPositiveCart | src/components/CatalogoMagnoClean.jsx:79-84 | on a cart of positive quantities nothing is removed, and exactly the lines under the key get `max(1, q)` |
| CartEngine.RemoveKeySpec | src/components/CatalogoMagnoClean.jsx:86-87 | no line under the key survives, every other line does, in order, and an absent key changes nothing |
| CartEngine.RemoveKeyPresent | src/components/CatalogoMagnoClean.jsx:86-87 | with unique keys, `remove` cuts out exactly the line at the key's index |
| CartEngine.RemoveKeySubtotal | src/components/CatalogoMagnoClean.jsx:86-94 | removing a present key lowers the subtotal by that line's amount |
| Catalog.PriceOrZero | src/components/CatalogoMagnoClean.jsx:70 | definition: `Number(variant.price)`, or 0 when the price is absent or not a number |
| Catalog.Hit | src/components/CatalogoMagnoClean.jsx:606 | definition: the lookup's test, codes equal after lower-casing and, when a size is given, sizes equal |
| Catalog.Categories | src/components/CatalogoMagnoClean.jsx:642 | definition: `products.map((p) => p.category)` |
| Catalog.AllCategories | src/components/CatalogoMagnoClean.jsx:641-644 | definition: the distinct categories, sorted |
| Catalog.FindFrom | src/components/CatalogoMagnoClean.jsx:605-606 | the inner loop: the first accepted variant at or after `from`, or none |
| Catalog.LocateFrom | src/components/CatalogoMagnoClean.jsx:604-611 | the first accepted position in product-then-variant order, or none if no variant is accepted |
| Catalog.Lookup | src/components/CatalogoMagnoClean.jsx:603-612 | `null` exactly when no variant matches; otherwise a catalogue product and one of its variants whose code matches ignoring case and whose size matches when one is given |
| Catalog.LookupVariant | src/components/CatalogoMagnoClean.jsx:603-612 | the nested loops with the early return compute `Lookup` |
| Catalog.LookupCaseInsensitive | src/components/CatalogoMagnoClean.jsx:606 | codes that differ only in letter case find the same variant |
| Catalog.Distinct | src/components/CatalogoMagnoClean.jsx:642 | `new Set(xs)` holds the same elements with no repeats |
| Catalog.AllCategoriesSpec | src/components/CatalogoMagnoClean.jsx:641-644 | `ALL_CATEGORIES` holds each catalogue category exactly once, in strictly increasing order |
| Catalog.DisplayName | src/components/CatalogoMagnoClean.jsx:28-36 | a listed category gets its short label and any other is shown as is; the result is empty only for the empty name |
| Catalog.CalcMaxGrid | src/components/CatalogoMagnoClean.jsx:597 | between 1 and 3 columns |
| Catalog.CalcMaxGridMonotone | src/components/CatalogoMagnoClean.jsx:597 | a wider viewport never allows fewer columns |
| Catalog.ClampGrid | src/components/CatalogoMagnoClean.jsx:634 | `Math.min(g, m)` is at most both and equals one of them |
| Catalog.ClampGridFits | src/components/CatalogoMagnoClean.jsx:630-634 | after a resize the grid is between 1 and what fits, and stays as chosen when it already fits |
| Combos.ExpandItem | src/components/CatalogoMagnoClean.jsx:616-620 | definition: one combo item looked up, giving the entry with quantity `OrOne(qty)`, or nothing on a miss |
| Combos.Expand | src/components/CatalogoMagnoClean.jsx:615-621 | definition: `ExpandItem` over the items in order, misses dropped |
| Combos.AddItems | src/components/CatalogoMagnoClean.jsx:614-622 | definition: the reference behaviour, one `AddTo` per found item in item order |
| Combos.ExpandSpec | src/components/CatalogoMagnoClean.jsx:615-621 | each resolved line is a catalogue variant with a non-zero quantity, and there is one line per item exactly when every item is found |
| Combos.ExpandAppend | src/components/CatalogoMagnoClean.jsx:615-621 | items are resolved one by one, in item order |
| Combos.AddComboIsSequentialAdds | src/components/CatalogoMagnoClean.jsx:614-624 | adding the resolved lines is one `add` per found item, in order, skipping misses |
| Combos.AddCombo | src/components/CatalogoMagnoClean.jsx:614-624 | the cart becomes the sequential adds of the found items, and keys stay unique |
| Combos.PartialCombo | src/components/CatalogoMagnoClean.jsx:614-621 | a combo with one known code in another case and one unknown code resolves to the known variant only |
| Message.LineText | src/components/CatalogoMagnoClean.jsx:97 | definition: the text of one cart line, name, size, code and quantity |
| Message.LineTexts | src/components/CatalogoMagnoClean.jsx:97 | definition: `LineText` of every cart line, in cart order |
| Message.SubtotalText | src/components/CatalogoMagnoClean.jsx:99 | definition: the closing line, the subtotal formatted by `fmt` between `Subtotal estimado: $` and ` MXN` |
| Message.MessageLines | src/components/CatalogoMagnoClean.jsx:99 | definition: header, blank, the line texts, blank, subtotal line |
| Message.MessageBody | src/components/CatalogoMagnoClean.jsx:96-99 | definition: `MessageLines` joined with line breaks |
| Message.MessageLayout | src/components/CatalogoMagnoClean.jsx:96-99 | split at line breaks, the body gives back header, blank, one line per cart line, blank, subtotal, as long as no field holds a line break |
| Message.MessageLineOrder | src/components/CatalogoMagnoClean.jsx:96-99 | the body has four more lines than the cart, with each cart line's text at its cart position after the header |
| Message.HeaderText | src/components/CatalogoMagnoClean.jsx:98 | the header is the source's greeting literal |
| Message.LineTextOneLine | src/components/CatalogoMagnoClean.jsx:97 | a cart line's text has no line break if its name, size and code have none |
| Message.EmptyCartMessage | src/components/CatalogoMagnoClean.jsx:96-99 | an empty cart gives header, two blank lines and the subtotal line |
| Message.SingleLineText | src/components/CatalogoMagnoClean.jsx:97 | the exact text of one sample cart line |
| Message.SingleLineMessage | src/components/CatalogoMagnoClean.jsx:91-99 | the exact body and subtotal line for a one-line cart |
| Pipeline.NormalizeQuery | src/components/CatalogoMagnoClean.jsx:443 | definition: the query lower-cased, then trimmed |
| Pipeline.HaystackParts | src/components/CatalogoMagnoClean.jsx:448-450 | definition: name, subtitle, category, appearance (absent ones as empty text) and each variant's code |
| Pipeline.Haystack | src/components/CatalogoMagnoClean.jsx:448-451 | definition: the parts joined with spaces, lower-cased |
| Pipeline.MatchesQuery | src/components/CatalogoMagnoClean.jsx:447-453 | definition: the search test, the haystack contains the normalised query |
| Pipeline.CategoryApplies | src/components/CatalogoMagnoClean.jsx:456 | definition: the category filter applies unless the category is empty or `"Todas"` |
| Pipeline.Selected | src/components/CatalogoMagnoClean.jsx:446-456 | definition: the search filter when the query is non-empty, then the category filter when it applies |
| Pipeline.FirstPrice | src/components/CatalogoMagnoClean.jsx:462-464 | definition: `variants?.[0]?.price ?? 0` |
| Pipeline.Ordered | src/components/CatalogoMagnoClean.jsx:458-466 | definition: the stable sort by name, ascending or descending first price, or no sort for any other mode |
| Pipeline.NormalizeQuerySpec | src/components/CatalogoMagnoClean.jsx:443 | the normalised query is lower case with no space at either end, and is empty exactly when the query is all spaces |
| Pipeline.NormalizeQueryIdempotent | src/components/CatalogoMagnoClean.jsx:443 | normalising twice changes nothing |
| Pipeline.FieldHitMatches | src/components/CatalogoMagnoClean.jsx:447-453 | a product whose name, subtitle, category, appearance or a variant code contains the query, ignoring case, passes the search |
| Pipeline.SelectedIsOneFilter | src/components/CatalogoMagnoClean.jsx:446-456 | the search filter followed by the category filter is one filter by both tests |
| Pipeline.SelectedSpec | src/components/CatalogoMagnoClean.jsx:443-456 | the selection keeps catalogue order, and a product is in it exactly when it is in the catalogue and passes both tests |
| Pipeline.OrderedSpec | src/components/CatalogoMagnoClean.jsx:458-466 | each sort mode permutes the list into name order, ascending or descending first price, stably; an unknown mode keeps the list |
| Pipeline.FilteredMembers | src/components/CatalogoMagnoClean.jsx:441-469 | the result holds each product at most as often as the catalogue does, and holds it exactly when it passes both tests |
| Pipeline.UseFiltered | src/components/CatalogoMagnoClean.jsx:441-469 | the method computes `Ordered(Selected(products, query, cat), sort)`, with its membership, order per sort mode, and catalogue order under an unknown mode |
| Grouping.IndexOfCategory | src/components/CatalogoMagnoClean.jsx:474 | `map.has` / `map.get`: a group with the category, or -1 when there is none |
| Grouping.GroupNew | src/components/CatalogoMagnoClean.jsx:474 | starting a group for a new category keeps the grouping invariant |
| Grouping.GroupJoin | src/components/CatalogoMagnoClean.jsx:475 | pushing onto the category's group keeps the grouping invariant |
| Grouping.CollectEntries | src/components/CatalogoMagnoClean.jsx:472-476 | the `forEach` builds one group per category, holding that category's products in list order, covering the list exactly |
| Grouping.FlattenSortOn | src/components/CatalogoMagnoClean.jsx:477 | sorting the groups loses or adds no product |
| Grouping.SortedGroupsOrdered | src/components/CatalogoMagnoClean.jsx:477 | sorted groups have strictly increasing category names |
| Grouping.GroupByCategory | src/components/CatalogoMagnoClean.jsx:471-478 | groups have strictly increasing, distinct categories; each holds exactly its category's products in list order and is non-empty; the categories are those of the list; all groups together are a permutation of the list |
| Grouping.GroupsKeepOrder | src/components/CatalogoMagnoClean.jsx:626-627 | grouping a list sorted by some key leaves every group sorted by that key |
| Text.Lower | src/components/CatalogoMagnoClean.jsx:443 | definition: `toLowerCase`, character by character |
| Text.Trim | src/components/CatalogoMagnoClean.jsx:443 | definition: `trim`, dropping ECMAScript white space and line terminators at both ends |
| Text.Contains | src/components/CatalogoMagnoClean.jsx:452 | definition: `includes`, the needle occurs at some position |
| Text.Join | src/components/CatalogoMagnoClean.jsx:451 | definition: `join`, the parts with the separator between neighbours |
| Seqs.Filter | src/components/CatalogoMagnoClean.jsx:447 | definition: `filter`, the passing elements in their original order |
| Sorting.StrLe | src/components/CatalogoMagnoClean.jsx:460 | definition: character-by-character order, standing in for `localeCompare` |
| Sorting.SortOn | src/components/CatalogoMagnoClean.jsx:458-466 | definition: a stable insertion sort by a key, standing in for `Array.prototype.sort` |
| Sorting.SortOnSorted | src/components/CatalogoMagnoClean.jsx:458-466 | the library sort orders by the comparator's key |
| Sorting.SortOnStable | src/components/CatalogoMagnoClean.jsx:458-466 | items with equal keys keep their relative order |
| Sorting.SortOnSortedInput | src/components/CatalogoMagnoClean.jsx:458-466 | an already sorted list is left unchanged |

## Left out

- Rendering: the JSX, the drawer, the slider, `CategoryBadge`, the colour
  table and `textOn` are presentation, not engine logic.
- `toLocaleString("es-MX", …)` is a parameter `fmt` of the message
  functions, because locale formatting is host code.
- `encodeURIComponent` of the body and `window.open` are host calls. The
  model stops at the plain body text.
- `localeCompare` is modelled by character order (`StrLe`), because
  locale collation tables are host data. The same goes for the default
  order of `Array.prototype.sort`, which compares UTF-16 code units.
- `toLowerCase` is modelled for ASCII and the Latin-1 capitals. Other
  scripts' case mappings are not modelled.
- JavaScript coercions (`Number(...)`, `String(code)`, `undefined` fields)
  become explicit values. `Option` stands for a price or text that may be
  absent, `""` for a missing size, and `0` for a missing combo quantity.
  A variant without a code is not modelled.
- React state: `useState` and `useMemo` are plain recomputation. The
  batching of `setItems` updaters is modelled as applying them in order.
- `window.innerWidth`, the resize listener and its removal are host
  events. The model takes the width as a parameter.
- The product and combo tables are data, not logic. `App.jsx` only mounts
  the page and is not part of this model.
- The quantity steppers are event handlers and are not modelled. The
  product table's steppers (lines 168, 173 and 176) keep a local quantity:
  the minus button and the input clamp with `Math.max(1, …)`, and the plus
  button adds 1 unclamped. The drawer's steppers (lines 533-535) call
  `updateQty`: the minus button and the input clamp first, and the plus
  button passes `x.qty + 1`. In every case `updateQty` itself clamps
  (line 82), which `ClampQty` models.
- Quantities are modelled as integers (`Line.qty: int`). In the page a
  quantity is a JavaScript number, and the number inputs (lines 173 and
  534) accept a fraction such as 2.5, which `add`, `updateQty`, the
  subtotal and the message then carry. Fractional quantities are not
  modelled.
- Catalog.DisplayName: `DISPLAY_NAME` is a plain object, so a category
  named after an inherited `Object.prototype` member (`"constructor"`,
  `"toString"`) looks up that inherited value. The model returns the name
  itself for every category outside the six labels.
- CartEngine.Cart.CurrentSubtotal: its own contract states only the
  empty-cart case. The fold's properties are stated by `SubtotalAppend`,
  `SubtotalReplace`, `AddToSubtotal` and `RemoveKeySubtotal` of the
  function `Subtotal` it returns.
