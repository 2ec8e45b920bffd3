/** The stable sort behind `Array.prototype.sort` (stable since ECMAScript 2019)
    and the orders the catalog sorts by. `localeCompare` is modelled by plain
    lexicographic order on characters, `StrLe`. */
module Sorting {

  /** What a comparator compares: a number (a price) or a text (a name). */
  datatype SortKey = IntKey(n: int) | StrKey(s: string)

  /** Lexicographic order on strings, character by character. */
  predicate StrLe(a: string, b: string)
    decreases |a|
  {
    |a| == 0 || (|b| > 0 && (a[0] < b[0] || (a[0] == b[0] && StrLe(a[1..], b[1..]))))
  }

  lemma {:induction false} StrLeReflexive(a: string)
    ensures StrLe(a, a)
  {
    if |a| > 0 { StrLeReflexive(a[1..]); }
  }

  lemma {:induction false} StrLeTotal(a: string, b: string)
    ensures StrLe(a, b) || StrLe(b, a)
  {
    if |a| > 0 && |b| > 0 && a[0] == b[0] { StrLeTotal(a[1..], b[1..]); }
  }

  lemma {:induction false} StrLeTransitive(a: string, b: string, c: string)
    requires StrLe(a, b) && StrLe(b, c)
    ensures StrLe(a, c)
  {
    if |a| > 0 && |b| > 0 && |c| > 0 && a[0] == b[0] == c[0] {
      StrLeTransitive(a[1..], b[1..], c[1..]);
    }
  }

  /** The comparator's verdict "`a` may come before `b`". Numbers and texts are
      never compared with each other by the source; numbers are put first. */
  predicate KeyLe(a: SortKey, b: SortKey) {
    match (a, b)
    case (IntKey(x), IntKey(y)) => x <= y
    case (StrKey(x), StrKey(y)) => StrLe(x, y)
    case (IntKey(_), StrKey(_)) => true
    case (StrKey(_), IntKey(_)) => false
  }

  lemma KeyLeReflexive(a: SortKey)
    ensures KeyLe(a, a)
  {
    if a.StrKey? { StrLeReflexive(a.s); }
  }

  lemma KeyLeTotal(a: SortKey, b: SortKey)
    ensures KeyLe(a, b) || KeyLe(b, a)
  {
    if a.StrKey? && b.StrKey? { StrLeTotal(a.s, b.s); }
  }

  lemma KeyLeTransitive(a: SortKey, b: SortKey, c: SortKey)
    requires KeyLe(a, b) && KeyLe(b, c)
    ensures KeyLe(a, c)
  {
    if a.StrKey? && b.StrKey? && c.StrKey? { StrLeTransitive(a.s, b.s, c.s); }
  }

  ghost predicate SortedOn<T>(s: seq<T>, key: T -> SortKey) {
    forall i, j :: 0 <= i < j < |s| ==> KeyLe(key(s[i]), key(s[j]))
  }

  lemma SortedOnTail<T>(s: seq<T>, key: T -> SortKey)
    requires |s| > 0 && SortedOn(s, key)
    ensures SortedOn(s[1..], key)
  {
    forall i, j | 0 <= i < j < |s| - 1 ensures KeyLe(key(s[1..][i]), key(s[1..][j])) {
      assert s[1..][i] == s[i + 1] && s[1..][j] == s[j + 1];
    }
  }

  lemma SortedOnCons<T>(x: T, s: seq<T>, key: T -> SortKey)
    requires SortedOn(s, key)
    requires forall j :: 0 <= j < |s| ==> KeyLe(key(x), key(s[j]))
    ensures SortedOn([x] + s, key)
  {
    var r := [x] + s;
    forall i, j | 0 <= i < j < |r| ensures KeyLe(key(r[i]), key(r[j])) {
      if i > 0 {
        assert r[i] == s[i - 1];
      }
      assert r[j] == s[j - 1];
    }
  }

  /** Puts `x` in front of the first element whose key is not below its own. */
  function Insert<T>(x: T, s: seq<T>, key: T -> SortKey): (r: seq<T>)
    ensures |r| == |s| + 1
    ensures multiset(r) == multiset(s) + multiset{x}
  {
    if |s| == 0 then [x]
    else if KeyLe(key(x), key(s[0])) then [x] + s
    else
      assert s == [s[0]] + s[1..];
      [s[0]] + Insert(x, s[1..], key)
  }

  /** `list.sort(cmp)` with a comparator that orders by `key`. */
  function SortOn<T>(s: seq<T>, key: T -> SortKey): (r: seq<T>)
    ensures multiset(r) == multiset(s)
  {
    if |s| == 0 then []
    else
      assert s == [s[0]] + s[1..];
      Insert(s[0], SortOn(s[1..], key), key)
  }

  lemma {:induction false} InsertSorted<T>(x: T, s: seq<T>, key: T -> SortKey)
    requires SortedOn(s, key)
    ensures SortedOn(Insert(x, s, key), key)
  {
    if |s| > 0 {
      if KeyLe(key(x), key(s[0])) {
        var r := [x] + s;
        forall i, j | 0 <= i < j < |r| ensures KeyLe(key(r[i]), key(r[j])) {
          if i == 0 && j > 1 { KeyLeTransitive(key(x), key(s[0]), key(s[j - 1])); }
        }
      } else {
        KeyLeTotal(key(x), key(s[0]));
        var t := Insert(x, s[1..], key);
        InsertSorted(x, s[1..], key);
        var r := [s[0]] + t;
        forall j | 1 <= j < |r| ensures KeyLe(key(s[0]), key(r[j])) {
          assert r[j] in multiset(t);
          assert r[j] == x || r[j] in multiset(s[1..]);
          if r[j] != x {
            var k :| 0 <= k < |s[1..]| && s[1..][k] == r[j];
            assert s[k + 1] == r[j];
          }
        }
      }
    }
  }

  /** The result of the sort is ordered by `key`. */
  lemma {:induction false} SortOnSorted<T>(s: seq<T>, key: T -> SortKey)
    ensures SortedOn(SortOn(s, key), key)
  {
    if |s| > 0 {
      SortOnSorted(s[1..], key);
      InsertSorted(s[0], SortOn(s[1..], key), key);
    }
  }

  /** The elements of `s` whose key is `k`, in order. */
  function WithKey<T>(s: seq<T>, key: T -> SortKey, k: SortKey): seq<T>
  {
    if |s| == 0 then []
    else if key(s[0]) == k then [s[0]] + WithKey(s[1..], key, k)
    else WithKey(s[1..], key, k)
  }

  lemma {:induction false} InsertWithKey<T>(x: T, s: seq<T>, key: T -> SortKey, k: SortKey)
    ensures WithKey(Insert(x, s, key), key, k)
         == if key(x) == k then [x] + WithKey(s, key, k) else WithKey(s, key, k)
  {
    if |s| > 0 && !KeyLe(key(x), key(s[0])) {
      KeyLeReflexive(key(x));
      assert Insert(x, s, key)[1..] == Insert(x, s[1..], key);
      InsertWithKey(x, s[1..], key, k);
    }
  }

  /** The sort is stable: elements with equal keys keep their relative order. */
  lemma {:induction false} SortOnStable<T>(s: seq<T>, key: T -> SortKey, k: SortKey)
    ensures WithKey(SortOn(s, key), key, k) == WithKey(s, key, k)
  {
    if |s| > 0 {
      SortOnStable(s[1..], key, k);
      InsertWithKey(s[0], SortOn(s[1..], key), key, k);
    }
  }

  /** A sort that finds its input already ordered leaves it as it is. */
  lemma {:induction false} SortOnSortedInput<T>(s: seq<T>, key: T -> SortKey)
    requires SortedOn(s, key)
    ensures SortOn(s, key) == s
  {
    if |s| > 0 {
      assert SortedOn(s[1..], key) by {
        forall i, j | 0 <= i < j < |s[1..]| ensures KeyLe(key(s[1..][i]), key(s[1..][j])) {
          assert s[1..][i] == s[i + 1] && s[1..][j] == s[j + 1];
        }
      }
      SortOnSortedInput(s[1..], key);
      if |s| > 1 {
        assert KeyLe(key(s[0]), key(s[1]));
      }
    }
  }

  /** No two elements of `s` share a key. */
  ghost predicate KeysDistinct<T>(s: seq<T>, key: T -> SortKey) {
    forall i, j :: 0 <= i < j < |s| ==> key(s[i]) != key(s[j])
  }

  lemma {:induction false} InsertKeysDistinct<T>(x: T, s: seq<T>, key: T -> SortKey)
    requires KeysDistinct(s, key)
    requires forall i :: 0 <= i < |s| ==> key(s[i]) != key(x)
    ensures KeysDistinct(Insert(x, s, key), key)
  {
    if |s| > 0 && !KeyLe(key(x), key(s[0])) {
      var t := Insert(x, s[1..], key);
      InsertKeysDistinct(x, s[1..], key);
      forall j | 0 <= j < |t| ensures key(t[j]) != key(s[0]) {
        assert t[j] in multiset(t);
        if t[j] != x {
          assert t[j] in multiset(s[1..]);
          var k :| 0 <= k < |s[1..]| && s[1..][k] == t[j];
          assert s[k + 1] == t[j];
        }
      }
    }
  }

  /** Sorting keeps keys distinct: with distinct keys the sorted order is strict. */
  lemma {:induction false} SortOnKeysDistinct<T>(s: seq<T>, key: T -> SortKey)
    requires KeysDistinct(s, key)
    ensures KeysDistinct(SortOn(s, key), key)
  {
    if |s| > 0 {
      var r := SortOn(s[1..], key);
      SortOnKeysDistinct(s[1..], key);
      forall i | 0 <= i < |r| ensures key(r[i]) != key(s[0]) {
        assert r[i] in multiset(s[1..]);
        var k :| 0 <= k < |s[1..]| && s[1..][k] == r[i];
        assert s[k + 1] == r[i];
      }
      InsertKeysDistinct(s[0], r, key);
    }
  }
}
