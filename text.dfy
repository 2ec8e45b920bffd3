/** The string operations the engine relies on: `toLowerCase`, `trim`,
    `includes`, `join`, `split` and the decimal rendering of an integer. */
module Text {

  // ---------------------------------------------------------------- case

  /** `toLowerCase` on one character, for ASCII A-Z and the Latin-1 capitals
      U+00C0..U+00DE (U+00D7, the multiplication sign, has no lower case). */
  function LowerChar(c: char): char {
    if 'A' <= c <= 'Z' || ('\U{00C0}' <= c <= '\U{00DE}' && c != '\U{00D7}')
    then (c as int + 32) as char
    else c
  }

  function Lower(s: string): (r: string)
    ensures |r| == |s|
  {
    seq(|s|, i requires 0 <= i < |s| => LowerChar(s[i]))
  }

  lemma LowerCharIdempotent(c: char)
    ensures LowerChar(LowerChar(c)) == LowerChar(c)
  {
  }

  lemma LowerIdempotent(s: string)
    ensures Lower(Lower(s)) == Lower(s)
  {
    forall i | 0 <= i < |s| ensures Lower(Lower(s))[i] == Lower(s)[i] {
      LowerCharIdempotent(s[i]);
    }
  }

  // ---------------------------------------------------------------- trim

  /** The characters `String.prototype.trim` strips: the ECMAScript WhiteSpace
      code points (TAB, VT, FF, ZWNBSP and every Zs space) and the four
      LineTerminator code points. */
  const SpaceChars: set<char> := {
    '\t', '\n', '\U{000B}', '\U{000C}', '\r', ' ', '\U{00A0}', '\U{1680}',
    '\U{2028}', '\U{2029}', '\U{202F}', '\U{205F}', '\U{3000}', '\U{FEFF}'
  }

  predicate IsSpace(c: char) {
    c in SpaceChars || ('\U{2000}' <= c <= '\U{200A}')
  }

  /** Lower-casing never turns a space into a non-space or back. */
  lemma LowerCharKeepsSpace(c: char)
    ensures IsSpace(LowerChar(c)) == IsSpace(c)
  {
  }

  function TrimStart(s: string): (r: string)
    ensures |r| <= |s| && r == s[|s| - |r|..]
    ensures forall i :: 0 <= i < |s| - |r| ==> IsSpace(s[i])
    ensures |r| > 0 ==> !IsSpace(r[0])
  {
    if |s| > 0 && IsSpace(s[0]) then TrimStart(s[1..]) else s
  }

  function TrimEnd(s: string): (r: string)
    ensures |r| <= |s| && r == s[..|r|]
    ensures forall i :: |r| <= i < |s| ==> IsSpace(s[i])
    ensures |r| > 0 ==> !IsSpace(r[|r| - 1])
  {
    if |s| > 0 && IsSpace(s[|s| - 1]) then TrimEnd(s[..|s| - 1]) else s
  }

  /** `s.trim()`: `s` without its leading and trailing spaces. */
  function Trim(s: string): (r: string)
  {
    TrimEnd(TrimStart(s))
  }

  /** Where the trimmed text starts in the input. */
  function TrimOffset(s: string): nat
  {
    |s| - |TrimStart(s)|
  }

  lemma TrimSlice(s: string)
    ensures var r, lo := Trim(s), TrimOffset(s);
      lo + |r| <= |s| && r == s[lo..lo + |r|]
  {
    var t := TrimStart(s);
    var lo := |s| - |t|;
    assert t == s[lo..];
    assert TrimEnd(t) == t[..|TrimEnd(t)|];
  }

  lemma TrimCutsSpaces(s: string)
    ensures var r, lo := Trim(s), TrimOffset(s);
      && (forall i :: 0 <= i < lo ==> IsSpace(s[i]))
      && (forall i :: lo + |r| <= i < |s| ==> IsSpace(s[i]))
  {
    var t := TrimStart(s);
    var r := TrimEnd(t);
    var lo := |s| - |t|;
    assert t == s[lo..];
    forall i | lo + |r| <= i < |s| ensures IsSpace(s[i]) {
      assert s[i] == t[i - lo];
    }
  }

  lemma TrimEnds(s: string)
    ensures var r := Trim(s);
      |r| > 0 ==> !IsSpace(r[0]) && !IsSpace(r[|r| - 1])
  {
    var t := TrimStart(s);
    var r := TrimEnd(t);
    if |r| > 0 {
      assert r[0] == t[0];
    }
  }

  /** What `trim` returns: a contiguous slice of its input, with only spaces cut
      away on either side, and no space at either end. */
  lemma TrimSpec(s: string)
    ensures var r, lo := Trim(s), TrimOffset(s);
      && lo + |r| <= |s| && r == s[lo..lo + |r|]
      && (forall i :: 0 <= i < lo ==> IsSpace(s[i]))
      && (forall i :: lo + |r| <= i < |s| ==> IsSpace(s[i]))
      && (|r| > 0 ==> !IsSpace(r[0]) && !IsSpace(r[|r| - 1]))
  {
    TrimSlice(s);
    TrimCutsSpaces(s);
    TrimEnds(s);
  }

  lemma {:induction false} TrimStartNoLeading(s: string)
    requires |s| == 0 || !IsSpace(s[0])
    ensures TrimStart(s) == s
  {
  }

  lemma {:induction false} TrimEndNoTrailing(s: string)
    requires |s| == 0 || !IsSpace(s[|s| - 1])
    ensures TrimEnd(s) == s
  {
  }

  lemma TrimIdempotent(s: string)
    ensures Trim(Trim(s)) == Trim(s)
  {
    var r := Trim(s);
    TrimSpec(s);
    TrimStartNoLeading(r);
    TrimEndNoTrailing(r);
  }

  /** Trimming commutes with lower-casing, because lower-casing maps spaces to
      spaces and non-spaces to non-spaces. */
  lemma {:induction false} TrimStartLower(s: string)
    ensures TrimStart(Lower(s)) == Lower(TrimStart(s))
  {
    var l := Lower(s);
    if |s| > 0 {
      assert IsSpace(l[0]) == IsSpace(s[0]) by {
        assert l[0] == LowerChar(s[0]);
        LowerCharKeepsSpace(s[0]);
      }
      if IsSpace(s[0]) {
        assert l[1..] == Lower(s[1..]);
        TrimStartLower(s[1..]);
      }
    }
  }

  lemma {:induction false} TrimEndLower(s: string)
    ensures TrimEnd(Lower(s)) == Lower(TrimEnd(s))
  {
    var l := Lower(s);
    if |s| > 0 {
      var n := |s| - 1;
      assert l[n] == LowerChar(s[n]);
      LowerCharKeepsSpace(s[n]);
      if IsSpace(s[n]) {
        assert TrimEnd(l) == TrimEnd(l[..n]);
        assert TrimEnd(s) == TrimEnd(s[..n]);
        assert l[..n] == Lower(s[..n]);
        TrimEndLower(s[..n]);
      } else {
        assert TrimEnd(l) == l;
        assert TrimEnd(s) == s;
      }
    }
  }

  lemma TrimLower(s: string)
    ensures Trim(Lower(s)) == Lower(Trim(s))
  {
    TrimStartLower(s);
    TrimEndLower(TrimStart(s));
  }

  // ---------------------------------------------------------------- includes

  /** `hay.includes(needle)`. */
  function Contains(hay: string, needle: string): (b: bool)
    ensures b <==> exists i :: 0 <= i <= |hay| && needle <= hay[i..]
  {
    if needle <= hay then
      assert needle <= hay[0..];
      true
    else if |hay| == 0 then false
    else
      var b := Contains(hay[1..], needle);
      assert forall i :: 1 <= i <= |hay| ==> hay[i..] == hay[1..][i - 1..];
      assert b ==> exists i :: 1 <= i <= |hay| && needle <= hay[i..];
      b
  }

  // ---------------------------------------------------------------- join / split

  /** `parts.join(sep)`. */
  function Join(parts: seq<string>, sep: string): string
  {
    if |parts| == 0 then ""
    else if |parts| == 1 then parts[0]
    else parts[0] + sep + Join(parts[1..], sep)
  }

  /** Where part `k` starts inside `Join(parts, sep)`. */
  function JoinOffset(parts: seq<string>, sep: string, k: nat): nat
    requires k < |parts|
  {
    if k == 0 then 0 else |parts[0]| + |sep| + JoinOffset(parts[1..], sep, k - 1)
  }

  /** Every part appears in the joined text at its offset. */
  lemma {:induction false} JoinHasPart(parts: seq<string>, sep: string, k: nat)
    requires k < |parts|
    ensures var o, j := JoinOffset(parts, sep, k), Join(parts, sep);
      o + |parts[k]| <= |j| && j[o..o + |parts[k]|] == parts[k]
  {
    if k == 0 {
      if |parts| > 1 {
        assert Join(parts, sep) == parts[0] + (sep + Join(parts[1..], sep));
      }
    } else {
      JoinHasPart(parts[1..], sep, k - 1);
      var pre := parts[0] + sep;
      var rest := Join(parts[1..], sep);
      var o' := JoinOffset(parts[1..], sep, k - 1);
      assert Join(parts, sep) == pre + rest;
      assert (pre + rest)[|pre| + o'..|pre| + o' + |parts[k]|] == rest[o'..o' + |parts[k]|];
    }
  }

  lemma LowerSlice(s: string, lo: nat, hi: nat)
    requires lo <= hi <= |s|
    ensures Lower(s)[lo..hi] == Lower(s[lo..hi])
  {
  }

  /** A text containing a slice of `hay` that contains `needle` is itself contained. */
  lemma ContainsInfix(hay: string, lo: nat, hi: nat, needle: string)
    requires lo <= hi <= |hay| && Contains(hay[lo..hi], needle)
    ensures Contains(hay, needle)
  {
    var i :| 0 <= i <= hi - lo && needle <= hay[lo..hi][i..];
    assert needle <= hay[lo + i..] by {
      forall k | 0 <= k < |needle| ensures needle[k] == hay[lo + i..][k] {
        assert needle[k] == hay[lo..hi][i..][k];
      }
    }
  }

  /** A needle found, ignoring case, in one part is found in the lower-cased
      joined text. */
  lemma ContainsPartLower(parts: seq<string>, sep: string, k: nat, needle: string)
    requires k < |parts| && Contains(Lower(parts[k]), needle)
    ensures Contains(Lower(Join(parts, sep)), needle)
  {
    var j := Join(parts, sep);
    var o := JoinOffset(parts, sep, k);
    var hi := o + |parts[k]|;
    JoinHasPart(parts, sep, k);
    LowerSlice(j, o, hi);
    var lj := Lower(j);
    assert lj[o..hi] == Lower(parts[k]);
    ContainsInfix(lj, o, hi, needle);
  }

  /** `s.split(c)` for a one-character separator: the pieces between
      occurrences of `c`; never empty. */
  function Split(s: string, c: char): (r: seq<string>)
    ensures |r| > 0
  {
    if |s| == 0 then [""]
    else if s[0] == c then [""] + Split(s[1..], c)
    else
      var rest := Split(s[1..], c);
      [[s[0]] + rest[0]] + rest[1..]
  }

  lemma {:induction false} SplitNoSeparator(p: string, c: char)
    requires c !in p
    ensures Split(p, c) == [p]
  {
    if |p| > 0 {
      SplitNoSeparator(p[1..], c);
      assert [p[0]] + p[1..] == p;
    }
  }

  lemma {:induction false} SplitAfterPiece(p: string, c: char, rest: string)
    requires c !in p
    ensures Split(p + [c] + rest, c) == [p] + Split(rest, c)
  {
    if |p| == 0 {
      assert p + [c] + rest == [c] + rest;
      assert ([c] + rest)[1..] == rest;
    } else {
      var s := p + [c] + rest;
      assert s[1..] == p[1..] + [c] + rest;
      SplitAfterPiece(p[1..], c, rest);
      assert [p[0]] + p[1..] == p;
    }
  }

  /** Splitting at a separator undoes joining with it, as long as no piece
      contains the separator. */
  lemma {:induction false} SplitJoin(parts: seq<string>, c: char)
    requires |parts| > 0
    requires forall i :: 0 <= i < |parts| ==> c !in parts[i]
    ensures Split(Join(parts, [c]), c) == parts
  {
    if |parts| == 1 {
      SplitNoSeparator(parts[0], c);
    } else {
      SplitJoin(parts[1..], c);
      SplitAfterPiece(parts[0], c, Join(parts[1..], [c]));
      assert [parts[0]] + parts[1..] == parts;
    }
  }

  // ---------------------------------------------------------------- numbers

  function DigitChar(d: nat): (c: char)
    requires d < 10
    ensures '0' <= c <= '9'
  {
    "0123456789"[d]
  }

  predicate IsDigits(s: string) {
    forall i :: 0 <= i < |s| ==> '0' <= s[i] <= '9'
  }

  /** The decimal rendering of a natural number, as `${n}` gives it. */
  function NatToString(n: nat): (s: string)
    ensures |s| > 0 && IsDigits(s)
  {
    if n < 10 then [DigitChar(n)] else NatToString(n / 10) + [DigitChar(n % 10)]
  }

  /** The decimal rendering of an integer: a minus sign for negative numbers. */
  function IntToString(n: int): string
  {
    if n < 0 then "-" + NatToString(-n) else NatToString(n)
  }

  /** The value of a string of decimal digits, read left to right. */
  function DecimalValue(s: string): nat
    requires IsDigits(s)
  {
    if |s| == 0 then 0 else 10 * DecimalValue(s[..|s| - 1]) + (s[|s| - 1] as int - '0' as int)
  }

  lemma {:induction false} NatToStringRoundTrip(n: nat)
    ensures DecimalValue(NatToString(n)) == n
  {
    if n >= 10 {
      var s := NatToString(n);
      assert s[..|s| - 1] == NatToString(n / 10);
      NatToStringRoundTrip(n / 10);
    }
  }

  /** The rendering of an integer never contains a line break. */
  lemma IntToStringOneLine(n: int)
    ensures '\n' !in IntToString(n)
  {
    var d := NatToString(if n < 0 then -n else n);
    assert '\n' !in d;
  }
}
