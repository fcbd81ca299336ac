/**
 * The Go string operations the handlers rely on. A Go string is a sequence of
 * bytes holding UTF-8; here a string is the sequence of runes it decodes to,
 * and `ByteLen` gives what Go's `len` returns for it.
 */
module Text {
  import opened Wrappers

  /** Number of bytes UTF-8 spends on one rune. */
  function Utf8Len(c: char): (n: nat)
    ensures 1 <= n <= 4
    ensures n == 1 <==> c as int < 0x80
  {
    if c as int < 0x80 then 1
    else if c as int < 0x800 then 2
    else if c as int < 0x1_0000 then 3
    else 4
  }

  /** Go's `len` of a string: its length in UTF-8 bytes, not in runes. */
  function ByteLen(s: string): (n: nat)
    ensures |s| <= n <= 4 * |s|
    ensures n == 0 <==> s == []
  {
    if s == [] then 0 else Utf8Len(s[0]) + ByteLen(s[1..])
  }

  lemma {:induction false} ByteLenAppend(a: string, b: string)
    ensures ByteLen(a + b) == ByteLen(a) + ByteLen(b)
  {
    if a == [] {
      assert a + b == b;
    } else {
      assert (a + b)[0] == a[0];
      assert (a + b)[1..] == a[1..] + b;
      ByteLenAppend(a[1..], b);
    }
  }

  /** For text that is pure ASCII, bytes and runes coincide. */
  lemma {:induction false} ByteLenAscii(s: string)
    requires forall i :: 0 <= i < |s| ==> s[i] as int < 0x80
    ensures ByteLen(s) == |s|
  {
    if s != [] {
      ByteLenAscii(s[1..]);
    }
  }

  /** Go's `unicode.IsSpace`: the Latin-1 spaces and the White_Space runes above Latin-1. */
  predicate IsSpace(c: char): (b: bool)
    ensures c as int < 0x100 ==> (b <==> c in {'\t', '\n', '\U{000B}', '\U{000C}', '\r', ' ', '\U{0085}', '\U{00A0}'})
  {
    c == '\t' || c == '\n' || c == '\U{000B}' || c == '\U{000C}' || c == '\r' || c == ' '
    || c == '\U{0085}' || c == '\U{00A0}' || c == '\U{1680}'
    || ('\U{2000}' <= c <= '\U{200A}')
    || c == '\U{2028}' || c == '\U{2029}' || c == '\U{202F}' || c == '\U{205F}' || c == '\U{3000}'
  }

  /** `s` without its longest prefix of runes that `drop` selects. */
  function DropLeading(s: string, drop: char -> bool): (r: string)
    ensures |r| <= |s| && r == s[|s| - |r|..]
    ensures r != [] ==> !drop(r[0])
  {
    if s != [] && drop(s[0]) then
      var r := DropLeading(s[1..], drop);
      assert s[1..][|s| - 1 - |r|..] == s[|s| - |r|..];
      r
    else s
  }

  /** Every rune `DropLeading` removes is one `drop` selects. */
  lemma {:induction false} DropLeadingSelected(s: string, drop: char -> bool)
    ensures forall i :: 0 <= i < |s| - |DropLeading(s, drop)| ==> drop(s[i])
  {
    if s != [] && drop(s[0]) {
      DropLeadingSelected(s[1..], drop);
      assert forall i :: 1 <= i < |s| ==> s[1..][i - 1] == s[i];
    }
  }

  /** `s` without its longest suffix of runes that `drop` selects. */
  function DropTrailing(s: string, drop: char -> bool): (r: string)
    ensures |r| <= |s| && r == s[..|r|]
    ensures r != [] ==> !drop(r[|r| - 1])
  {
    if s != [] && drop(s[|s| - 1]) then
      var r := DropTrailing(s[..|s| - 1], drop);
      assert s[..|s| - 1][..|r|] == s[..|r|];
      r
    else s
  }

  /** Every rune `DropTrailing` removes is one `drop` selects. */
  lemma {:induction false} DropTrailingSelected(s: string, drop: char -> bool)
    ensures forall i :: |DropTrailing(s, drop)| <= i < |s| ==> drop(s[i])
  {
    if s != [] && drop(s[|s| - 1]) {
      DropTrailingSelected(s[..|s| - 1], drop);
      assert forall i :: 0 <= i < |s| - 1 ==> s[..|s| - 1][i] == s[i];
    }
  }

  /**
   * `r` is a stretch of `s` starting at `i`, and every rune of `s` before or
   * after that stretch is one `drop` selects.
   */
  ghost predicate StrippedAt(s: string, r: string, drop: char -> bool, i: int) {
    && 0 <= i && i + |r| <= |s| && r == s[i..i + |r|]
    && (forall k :: 0 <= k < i ==> drop(s[k]))
    && (forall k :: i + |r| <= k < |s| ==> drop(s[k]))
  }

  /** `r` is `s` with some selected runes removed from its two ends, and nothing else. */
  ghost predicate StripsEnds(s: string, r: string, drop: char -> bool) {
    exists i :: StrippedAt(s, r, drop, i)
  }

  /** Go's `strings.Trim` family: drop selected runes from both ends. */
  function Trim(s: string, drop: char -> bool): (r: string)
    ensures |r| <= |s|
  {
    DropTrailing(DropLeading(s, drop), drop)
  }

  /** What `Trim` leaves is `s` between its selected prefix and suffix, with kept runes at both ends. */
  lemma TrimStrips(s: string, drop: char -> bool)
    ensures StripsEnds(s, Trim(s, drop), drop)
    ensures var r := Trim(s, drop); r == [] || (!drop(r[0]) && !drop(r[|r| - 1]))
  {
    var t := DropLeading(s, drop);
    DropLeadingSelected(s, drop);
    DropTrailingSelected(t, drop);
    StrippedFromParts(s, t, Trim(s, drop), drop);
  }

  /** A text whose ends are kept is its own trim, and the trim is empty exactly when every rune is selected. */
  lemma TrimKept(s: string, drop: char -> bool)
    ensures (s == [] || (!drop(s[0]) && !drop(s[|s| - 1]))) ==> Trim(s, drop) == s
    ensures Trim(s, drop) == [] <==> forall i :: 0 <= i < |s| ==> drop(s[i])
  {
    var t := DropLeading(s, drop);
    DropLeadingSelected(s, drop);
    DropTrailingSelected(t, drop);
    StrippedFromParts(s, t, Trim(s, drop), drop);
  }

  /**
   * Dropping a selected prefix of `s` to get `t`, then a selected suffix of
   * `t` to get `r`, strips `s` at |s| - |t|; when both drops are maximal, `r`
   * starts and ends with kept runes.
   */
  lemma StrippedFromParts(s: string, t: string, r: string, drop: char -> bool)
    requires |t| <= |s| && t == s[|s| - |t|..]
    requires forall k :: 0 <= k < |s| - |t| ==> drop(s[k])
    requires t != [] ==> !drop(t[0])
    requires |r| <= |t| && r == t[..|r|]
    requires forall k :: |r| <= k < |t| ==> drop(t[k])
    requires r != [] ==> !drop(r[|r| - 1])
    ensures StripsEnds(s, r, drop)
    ensures r == [] || (!drop(r[0]) && !drop(r[|r| - 1]))
    ensures (s == [] || (!drop(s[0]) && !drop(s[|s| - 1]))) ==> r == s
    ensures r == [] <==> forall k :: 0 <= k < |s| ==> drop(s[k])
  {
    var i := |s| - |t|;
    assert r == s[i..i + |r|];
    forall k | i + |r| <= k < |s|
      ensures drop(s[k])
    {
      assert s[k] == t[k - i];
    }
    assert StrippedAt(s, r, drop, i);
    if r != [] {
      assert r[0] == t[0];
    }
    if s != [] && !drop(s[0]) && !drop(s[|s| - 1]) {
      assert i == 0;
      assert |r| == |t|;
    }
  }

  /**
   * The trim is exact: when `s[i..j]` is surrounded by selected runes only and
   * its own ends are kept, it is what `Trim` returns.
   */
  lemma TrimExact(s: string, drop: char -> bool, i: nat, j: nat)
    requires i <= j <= |s|
    requires forall k :: 0 <= k < i ==> drop(s[k])
    requires forall k :: j <= k < |s| ==> drop(s[k])
    requires i < j ==> !drop(s[i]) && !drop(s[j - 1])
    ensures Trim(s, drop) == s[i..j]
  {
    TrimStrips(s, drop);
    StrippedUnique(s, Trim(s, drop), drop, i, j);
  }

  /** Two ways of stripping `s` down to a run whose ends are kept give the same run. */
  lemma StrippedUnique(s: string, r: string, drop: char -> bool, i: nat, j: nat)
    requires StripsEnds(s, r, drop)
    requires r == [] || (!drop(r[0]) && !drop(r[|r| - 1]))
    requires i <= j <= |s|
    requires forall k :: 0 <= k < i ==> drop(s[k])
    requires forall k :: j <= k < |s| ==> drop(s[k])
    requires i < j ==> !drop(s[i]) && !drop(s[j - 1])
    ensures r == s[i..j]
  {
    var m :| StrippedAt(s, r, drop, m);
    if r == [] {
      // everything is dropped, so there is no kept rune at `i`
      assert i == j;
    } else {
      assert !drop(s[m]) by {
        assert r[0] == s[m];
      }
      var e := m + |r|;
      assert !drop(s[e - 1]) by {
        assert r[|r| - 1] == s[e - 1];
      }
      assert i < j;
      assert m == i;
      assert e == j;
    }
  }

  /** Stripping ends selected by `drop` keeps every rune `drop` does not select. */
  lemma StripsEndsKeeps(s: string, r: string, drop: char -> bool, c: char)
    requires StripsEnds(s, r, drop) && !drop(c)
    ensures c in r <==> c in s
  {
    var m :| StrippedAt(s, r, drop, m);
    if c in s {
      var k :| 0 <= k < |s| && s[k] == c;
      assert r[k - m] == c;
    }
    if c in r {
      var j :| 0 <= j < |r| && r[j] == c;
      assert s[m + j] == c;
    }
  }

  /** Go's `strings.TrimSpace`: `Trim` of the space runes. */
  function TrimSpace(s: string): string {
    Trim(s, IsSpace)
  }

  /** `TrimSpace` removes exactly the leading and trailing space runes, and is empty exactly for blank text. */
  lemma TrimSpaceStrips(s: string)
    ensures StripsEnds(s, TrimSpace(s), IsSpace)
    ensures var r := TrimSpace(s); r == [] || (!IsSpace(r[0]) && !IsSpace(r[|r| - 1]))
  {
    var r := TrimSpace(s);
    assert r == Trim(s, IsSpace);
    TrimStrips(s, IsSpace);
  }

  /** Position of the first occurrence of `c` in `s`. */
  function FirstIndex(s: string, c: char): (r: Option<nat>)
    ensures r.None? <==> c !in s
    ensures r.Some? ==> r.value < |s| && s[r.value] == c && c !in s[..r.value]
  {
    if s == [] then None
    else if s[0] == c then Some(0)
    else match FirstIndex(s[1..], c)
      case None => None
      case Some(i) =>
        assert s[..i + 1] == [s[0]] + s[1..][..i];
        Some(i + 1)
  }

  /** A position holding `c` with no `c` before it is the first index of `c`. */
  lemma {:induction false} FirstIndexAt(s: string, c: char, k: nat)
    requires k < |s| && s[k] == c && c !in s[..k]
    ensures FirstIndex(s, c) == Some(k)
  {
    if k > 0 {
      assert s[0] == s[..k][0];
      assert s[1..][..k - 1] == s[..k][1..];
      FirstIndexAt(s[1..], c, k - 1);
    }
  }

  /**
   * Go's `strings.SplitN(s, sep, 2)` when it yields two parts: the text before
   * the first `sep` and everything after it.
   */
  function Cut(s: string, sep: char): (r: Option<(string, string)>)
    ensures r.None? <==> sep !in s
    ensures r.Some? ==> sep !in r.value.0 && s == r.value.0 + [sep] + r.value.1
  {
    match FirstIndex(s, sep)
    case None => None
    case Some(i) =>
      assert s == s[..i] + [sep] + s[i + 1..];
      Some((s[..i], s[i + 1..]))
  }

  /** The inverse of `Split`: the parts glued back together with `sep`. */
  function Join(parts: seq<string>, sep: char): string
    requires |parts| >= 1
  {
    if |parts| == 1 then parts[0] else parts[0] + [sep] + Join(parts[1..], sep)
  }

  /** Go's `strings.Split(s, sep)`: every piece between separators, empty ones included. */
  function Split(s: string, sep: char): (parts: seq<string>)
    ensures |parts| >= 1
    ensures forall i :: 0 <= i < |parts| ==> sep !in parts[i]
    ensures Join(parts, sep) == s
    decreases |s|
  {
    match FirstIndex(s, sep)
    case None => [s]
    case Some(i) =>
      var rest := Split(s[i + 1..], sep);
      assert ([s[..i]] + rest)[1..] == rest;
      assert s == s[..i] + [sep] + s[i + 1..];
      [s[..i]] + rest
  }

  /** Splitting what `Join` glued together gives the parts back. */
  lemma {:induction false} SplitJoin(parts: seq<string>, sep: char)
    requires |parts| >= 1
    requires forall i :: 0 <= i < |parts| ==> sep !in parts[i]
    ensures Split(Join(parts, sep), sep) == parts
  {
    if |parts| > 1 {
      var p := parts[0];
      var tail := Join(parts[1..], sep);
      var s := p + [sep] + tail;
      assert sep !in p;
      assert s[|p|] == sep;
      FirstIndexAt(s, sep, |p|);
      assert s[..|p|] == p;
      assert s[|p| + 1..] == tail;
      SplitJoin(parts[1..], sep);
    }
  }
}
