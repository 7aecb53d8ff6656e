/**
 * The string operations of Python's `str` that the pipeline relies on,
 * restricted to ASCII: case mapping (`lower`, `title`), substring search
 * (`in`), `split`/`join`, character replacement and integer formatting.
 * Characters outside ASCII are left unchanged by the case mappings and
 * count as non-whitespace.
 */
module Text {

  predicate IsUpper(c: char) { 'A' <= c <= 'Z' }
  predicate IsLowerLetter(c: char) { 'a' <= c <= 'z' }
  predicate IsDigit(c: char) { '0' <= c <= '9' }
  /** A letter that has case, so it takes part in `str.title()`'s word boundaries. */
  predicate IsCased(c: char) { IsUpper(c) || IsLowerLetter(c) }

  /** ASCII whitespace as `str.split()` with no argument sees it (tab to carriage return, the four separators 0x1c-0x1f, space). */
  predicate IsSpace(c: char) { ('\t' <= c <= '\r') || ('\U{1C}' <= c <= ' ') }

  function Lower(c: char): (r: char)
    ensures !IsUpper(r)
    ensures IsUpper(c) || r == c
  {
    if IsUpper(c) then (c as int + 32) as char else c
  }

  function Upper(c: char): (r: char)
    ensures !IsLowerLetter(r)
    ensures IsLowerLetter(c) || r == c
  {
    if IsLowerLetter(c) then (c as int - 32) as char else c
  }

  /** `s.lower()`. */
  function LowerStr(s: string): string {
    seq(|s|, i requires 0 <= i < |s| => Lower(s[i]))
  }

  /** `s.replace(a, b)` for single characters. */
  function ReplaceChar(s: string, a: char, b: char): string {
    seq(|s|, i requires 0 <= i < |s| => if s[i] == a then b else s[i])
  }

  /** `sub` occurs in `s` starting at index `i`. */
  predicate OccursAt(s: string, sub: string, i: int) {
    0 <= i <= |s| - |sub| && s[i..i + |sub|] == sub
  }

  /** Python's `sub in s`: `sub` occurs as a contiguous block of `s`. */
  predicate Contains(s: string, sub: string) {
    exists i | 0 <= i <= |s| :: OccursAt(s, sub, i)
  }

  /** An occurrence of an occurrence is an occurrence. */
  lemma ContainsTransitive(s: string, t: string, u: string)
    requires Contains(s, t) && Contains(t, u)
    ensures Contains(s, u)
  {
    var i :| 0 <= i <= |s| && OccursAt(s, t, i);
    var j :| 0 <= j <= |t| && OccursAt(t, u, j);
    assert 0 <= i <= |s| - |t| && s[i..i + |t|] == t;
    assert 0 <= j <= |t| - |u| && t[j..j + |u|] == u;
    forall k | 0 <= k < |u|
      ensures s[i + j..i + j + |u|][k] == u[k]
    {
      assert s[i..i + |t|][j + k] == t[j + k];
      assert t[j..j + |u|][k] == u[k];
    }
    assert s[i + j..i + j + |u|] == u;
    assert OccursAt(s, u, i + j);
  }

  /** Index of the first `c` in `s`, as `s.index(c)`. */
  function IndexOf(s: string, c: char): (i: nat)
    requires c in s
    ensures i < |s| && s[i] == c && c !in s[..i]
  {
    if s[0] == c then 0
    else
      var j := IndexOf(s[1..], c);
      assert s[..j + 1] == [s[0]] + s[1..][..j];
      j + 1
  }

  /** The first occurrence is the only position with `c` and no `c` before it. */
  lemma IndexOfUnique(s: string, c: char, i: nat)
    requires i < |s| && s[i] == c && c !in s[..i]
    ensures IndexOf(s, c) == i
  {
    var k := IndexOf(s, c);
    assert forall j :: 0 <= j < i ==> s[..i][j] == s[j];
    assert forall j :: 0 <= j < k ==> s[..k][j] == s[j];
  }

  /** `sep.join(parts)`. */
  function Join(sep: string, parts: seq<string>): string
  {
    if |parts| == 0 then ""
    else if |parts| == 1 then parts[0]
    else parts[0] + sep + Join(sep, parts[1..])
  }

  /** `s.split(c)` for a single-character separator: never empty, no piece holds `c`. */
  function SplitOn(s: string, c: char): (r: seq<string>)
    ensures |r| >= 1
    ensures forall k :: 0 <= k < |r| ==> c !in r[k]
    decreases |s|
  {
    if c !in s then [s]
    else
      var i := IndexOf(s, c);
      [s[..i]] + SplitOn(s[i + 1..], c)
  }

  /** Splitting and joining again with the same separator gives the string back. */
  lemma {:induction false} JoinSplit(s: string, c: char)
    ensures Join([c], SplitOn(s, c)) == s
    decreases |s|
  {
    if c in s {
      var i := IndexOf(s, c);
      JoinSplit(s[i + 1..], c);
      assert s == s[..i] + [c] + s[i + 1..];
    }
  }

  /** Joining pieces free of the separator and splitting again gives the pieces back. */
  lemma {:induction false} SplitJoin(parts: seq<string>, c: char)
    requires |parts| >= 1
    requires forall k :: 0 <= k < |parts| ==> c !in parts[k]
    ensures SplitOn(Join([c], parts), c) == parts
  {
    if |parts| > 1 {
      var p := parts[0];
      var rest := Join([c], parts[1..]);
      assert Join([c], parts) == p + [c] + rest;
      SplitAtFirst(p, c, rest);
      SplitJoin(parts[1..], c);
      assert parts == [p] + parts[1..];
    }
  }

  /** Text free of `c`, then `c`: splitting at `c` gives that text, then the pieces of the rest. */
  lemma SplitAtFirst(p: string, c: char, rest: string)
    requires c !in p
    ensures SplitOn(p + [c] + rest, c) == [p] + SplitOn(rest, c)
  {
    var s := p + [c] + rest;
    assert s[..|p|] == p;
    IndexOfUnique(s, c, |p|);
    assert s[|p| + 1..] == rest;
  }

  /** A first character other than the separator sticks to the first piece. */
  lemma SplitOnCons(x: char, s: string, c: char)
    requires x != c
    ensures SplitOn([x] + s, c) == [[x] + SplitOn(s, c)[0]] + SplitOn(s, c)[1..]
  {
    var t := [x] + s;
    assert t[1..] == s;
    if c in s {
      var i := IndexOf(s, c);
      assert t[i + 1] == c;
      assert t[..i + 1] == [x] + s[..i];
      IndexOfUnique(t, c, i + 1);
      assert t[i + 2..] == s[i + 1..];
    } else {
      assert c !in t;
    }
  }

  /** Drops the single space that `", ".join` puts after each comma. */
  function DropLeadingSpace(t: string): string {
    if t != [] && t[0] == ' ' then t[1..] else t
  }

  /** Drops the leading space of every piece. */
  function DropSpaces(fs: seq<string>): (r: seq<string>)
    ensures |r| == |fs|
  {
    if fs == [] then [] else [DropLeadingSpace(fs[0])] + DropSpaces(fs[1..])
  }

  /** Reads back a list written with `", ".join(items)`. */
  function SplitList(s: string): seq<string> {
    var f := SplitOn(s, ',');
    [f[0]] + DropSpaces(f[1..])
  }

  /** A non-empty list of comma-free items survives `", ".join` followed by `SplitList`. */
  lemma {:induction false} SplitListJoin(items: seq<string>)
    requires |items| >= 1
    requires forall k :: 0 <= k < |items| ==> ',' !in items[k]
    ensures SplitList(Join(", ", items)) == items
  {
    if |items| > 1 {
      var rest := items[1..];
      SplitListJoin(rest);
      assert Join(", ", items) == items[0] + ", " + Join(", ", rest);
      SplitListCons(items[0], Join(", ", rest));
      assert items == [items[0]] + rest;
    }
  }

  /** Reading back `a + ", " + j` gives `a`, then what `j` reads back as. */
  lemma SplitListCons(a: string, j: string)
    requires ',' !in a
    ensures SplitList(a + ", " + j) == [a] + SplitList(j)
  {
    var g := SplitOn(j, ',');
    SplitAfterFirst(a, j);
    SplitOnCons(' ', j, ',');
    var f := SplitOn(a + ", " + j, ',');
    assert f[1..] == [[' '] + g[0]] + g[1..];
    assert DropSpaces(f[1..]) == [g[0]] + DropSpaces(g[1..]);
  }

  lemma SplitAfterFirst(a: string, j: string)
    requires ',' !in a
    ensures SplitOn(a + ", " + j, ',') == [a] + SplitOn([' '] + j, ',')
  {
    assert a + ", " + j == a + [','] + ([' '] + j);
    SplitAtFirst(a, ',', [' '] + j);
  }

  /** Length of the leading run of non-separator characters. */
  function RunLength(s: string, sep: char -> bool): (n: nat)
    requires s != [] && !sep(s[0])
    ensures 1 <= n <= |s|
    ensures forall i :: 0 <= i < n ==> !sep(s[i])
    ensures n < |s| ==> sep(s[n])
  {
    if |s| == 1 || sep(s[1]) then 1 else 1 + RunLength(s[1..], sep)
  }

  /**
   * The maximal runs of characters that are not separators, in order; with
   * `IsSpace` as separator this is Python's argument-less `str.split()`.
   */
  function Tokens(s: string, sep: char -> bool): (r: seq<string>)
    ensures forall k :: 0 <= k < |r| ==> r[k] != [] && forall i :: 0 <= i < |r[k]| ==> !sep(r[k][i])
    decreases |s|
  {
    if s == [] then []
    else if sep(s[0]) then Tokens(s[1..], sep)
    else
      var n := RunLength(s, sep);
      [s[..n]] + Tokens(s[n..], sep)
  }

  /** `s.split()`. */
  function Words(s: string): seq<string> {
    Tokens(s, IsSpace)
  }

  function TitleFrom(s: string, prevCased: bool): (r: string)
    ensures |r| == |s|
  {
    if s == [] then []
    else
      var c := s[0];
      var out := if !IsCased(c) then c else if prevCased then Lower(c) else Upper(c);
      [out] + TitleFrom(s[1..], IsCased(c))
  }

  /** `s.title()` over ASCII. */
  function Title(s: string): string {
    TitleFrom(s, false)
  }

  /**
   * `str.title()` upper-cases a letter that starts a word (no letter just
   * before it), lower-cases every other letter and keeps the rest.
   */
  lemma {:induction false} TitleAt(s: string, i: nat)
    requires i < |s|
    ensures !IsCased(s[i]) ==> Title(s)[i] == s[i]
    ensures IsCased(s[i]) && (i == 0 || !IsCased(s[i - 1])) ==> Title(s)[i] == Upper(s[i])
    ensures IsCased(s[i]) && i > 0 && IsCased(s[i - 1]) ==> Title(s)[i] == Lower(s[i])
  {
    TitleFromAt(s, false, i);
  }

  lemma {:induction false} TitleFromAt(s: string, prev: bool, i: nat)
    requires i < |s|
    ensures var before := if i == 0 then prev else IsCased(s[i - 1]);
      TitleFrom(s, prev)[i] == if !IsCased(s[i]) then s[i] else if before then Lower(s[i]) else Upper(s[i])
  {
    if i > 0 {
      TitleFromAt(s[1..], IsCased(s[0]), i - 1);
    }
  }

  function DigitChar(d: nat): (c: char)
    requires d < 10
    ensures IsDigit(c)
  {
    ('0' as int + d) as char
  }

  /** Decimal notation of a natural number, as `str(n)`. */
  function NatToString(n: nat): (r: string)
    ensures r != []
    ensures forall i :: 0 <= i < |r| ==> IsDigit(r[i])
    ensures r[0] == '0' ==> n == 0
  {
    if n < 10 then [DigitChar(n)] else NatToString(n / 10) + [DigitChar(n % 10)]
  }

  /** Value of a string of decimal digits. */
  function ParseNat(s: string): nat
    requires forall i :: 0 <= i < |s| ==> IsDigit(s[i])
  {
    if s == [] then 0
    else
      assert IsDigit(s[|s| - 1]);
      10 * ParseNat(s[..|s| - 1]) + (s[|s| - 1] as int - '0' as int)
  }

  /** Reading back the decimal notation gives the number. */
  lemma {:induction false} ParseNatToString(n: nat)
    ensures ParseNat(NatToString(n)) == n
  {
    if n >= 10 {
      ParseNatToString(n / 10);
      var s := NatToString(n);
      assert s[..|s| - 1] == NatToString(n / 10);
    }
  }
}
