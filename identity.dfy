/**
 * Product identity: which scanned files are images to process, and the
 * product key a file name resolves to. The key is the slug of either the
 * name segment the product-name pattern captures or, when the pattern does
 * not match, the part of the stem before the first underscore.
 */
module Identity {
  import opened Wrappers
  import opened Text
  import Config

  /** An absolute path, as the list of its components below the root `/`. */
  datatype SourcePath = SourcePath(segments: seq<string>)

  /** `str(p)`. */
  function PathStr(p: SourcePath): string {
    "/" + Join("/", p.segments)
  }

  /** `p.name`: the last component, empty for the root. */
  function Name(p: SourcePath): string {
    if p.segments == [] then "" else p.segments[|p.segments| - 1]
  }

  /** `s.rfind(c)`: index of the last `c`, or -1. */
  function RFind(s: string, c: char): (i: int)
    ensures -1 <= i < |s|
    ensures i == -1 ==> c !in s
    ensures i >= 0 ==> s[i] == c && c !in s[i + 1..]
  {
    if s == [] then -1
    else if s[|s| - 1] == c then |s| - 1
    else
      var j := RFind(s[..|s| - 1], c);
      assert s[j + 1..] == s[..|s| - 1][j + 1..] + [s[|s| - 1]];
      j
  }

  /** Position of the dot that starts the suffix, when the name has one. */
  function SuffixStart(name: string): Option<nat> {
    var i := RFind(name, '.');
    if 0 < i < |name| - 1 then Some(i) else None
  }

  /** `Path(name).suffix`: from the last dot on, unless that dot is first or last. */
  function Suffix(name: string): string {
    match SuffixStart(name)
    case Some(i) => name[i..]
    case None => ""
  }

  /** `Path(name).stem`: the name without its suffix. */
  function Stem(name: string): string {
    match SuffixStart(name)
    case Some(i) => name[..i]
    case None => name
  }

  /**
   * Stem and suffix split the name: the suffix is empty or a dot followed by
   * at least one dot-free character, and the stem is never empty when the
   * suffix is not.
   */
  lemma StemSuffixSplit(name: string)
    ensures Stem(name) + Suffix(name) == name
    ensures Suffix(name) == "" || (|Suffix(name)| >= 2 && Suffix(name)[0] == '.' && '.' !in Suffix(name)[1..])
    ensures Suffix(name) != "" ==> Stem(name) != ""
  {
    var i := RFind(name, '.');
    if 0 < i < |name| - 1 {
      assert name[i..][1..] == name[i + 1..];
    }
  }

  /** The scan's filter on a regular file: an accepted extension in any case, and no `listing_print_files` anywhere in the path. */
  predicate IsImageCandidate(p: SourcePath) {
    LowerStr(Suffix(Name(p))) in Config.AllowedExtensions && !Contains(PathStr(p), Config.ProcessedMarker)
  }

  /** An accepted file always has a non-empty stem. */
  lemma CandidateHasStem(p: SourcePath)
    requires IsImageCandidate(p)
    ensures Stem(Name(p)) != "" && Suffix(Name(p)) != ""
  {
    StemSuffixSplit(Name(p));
    assert LowerStr("") == "";
  }

  /** Characters a slug keeps: lower-case ASCII letters and digits. */
  predicate IsSlugChar(c: char) { IsLowerLetter(c) || IsDigit(c) }

  /** Everything else separates the words of a slug. */
  predicate IsSlugSeparator(c: char) { !IsSlugChar(c) }

  /** A well-formed slug: words of letters and digits joined by single dashes. */
  predicate IsSlug(r: string) {
    && (forall i :: 0 <= i < |r| ==> IsSlugChar(r[i]) || r[i] == '-')
    && (r != [] ==> r[0] != '-' && r[|r| - 1] != '-')
    && (forall i :: 0 <= i < |r| - 1 ==> !DoubleDash(r, i))
  }

  /** Two dashes in a row at `i`. */
  predicate DoubleDash(r: string, i: nat)
    requires i + 1 < |r|
  {
    r[i] == '-' && r[i + 1] == '-'
  }

  /** A comma with a digit on both sides, which the slug step deletes ("1,000" becomes "1000"). */
  predicate DigitCommaAt(s: string, i: nat)
    requires i < |s|
  {
    s[i] == ',' && 0 < i && i + 1 < |s| && IsDigit(s[i - 1]) && IsDigit(s[i + 1])
  }

  function DropDigitCommasFrom(s: string, i: nat): string
    requires i <= |s|
    decreases |s| - i
  {
    if i == |s| then []
    else (if DigitCommaAt(s, i) then [] else [s[i]]) + DropDigitCommasFrom(s, i + 1)
  }

  /** Keeps at most `KeyMaxLength` characters and strips a dash the cut leaves at the end. */
  function TruncateSlug(t: string): string {
    var u := if |t| <= Config.KeyMaxLength then t else t[..Config.KeyMaxLength];
    if u != [] && u[|u| - 1] == '-' then u[..|u| - 1] else u
  }

  /**
   * The slug step with a 50-character limit, over ASCII: lower-case, delete
   * commas between digits, turn every run of other characters into a single
   * dash with none at either end, then cut to the limit.
   */
  function Slugify(s: string): (r: string)
    ensures IsSlug(r)
    ensures |r| <= Config.KeyMaxLength
  {
    var words := Tokens(DropDigitCommasFrom(LowerStr(s), 0), IsSlugSeparator);
    JoinIsSlug(words);
    TruncateKeepsSlug(Join("-", words));
    TruncateSlug(Join("-", words))
  }

  lemma {:induction false} JoinIsSlug(words: seq<string>)
    requires forall k :: 0 <= k < |words| ==> words[k] != [] && forall i :: 0 <= i < |words[k]| ==> !IsSlugSeparator(words[k][i])
    ensures IsSlug(Join("-", words))
    ensures words != [] ==> Join("-", words) != []
  {
    if |words| > 1 {
      var w := words[0];
      var rest := Join("-", words[1..]);
      JoinIsSlug(words[1..]);
      var s := Join("-", words);
      assert s == w + "-" + rest;
      forall i | 0 <= i < |s|
        ensures IsSlugChar(s[i]) || s[i] == '-'
      {
        if i < |w| { assert s[i] == w[i]; } else if i > |w| { assert s[i] == rest[i - |w| - 1]; }
      }
      forall i | 0 <= i < |s| - 1
        ensures !DoubleDash(s, i)
      {
        if i < |w| { assert s[i] == w[i]; }
        else if i == |w| { assert s[i + 1] == rest[0]; }
        else {
          assert s[i] == rest[i - |w| - 1] && s[i + 1] == rest[i - |w|];
          assert !DoubleDash(rest, i - |w| - 1);
        }
      }
    }
  }

  lemma TruncateKeepsSlug(t: string)
    requires IsSlug(t)
    ensures IsSlug(TruncateSlug(t)) && |TruncateSlug(t)| <= Config.KeyMaxLength
  {
    var u := if |t| <= Config.KeyMaxLength then t else t[..Config.KeyMaxLength];
    assert forall i :: 0 <= i < |u| ==> u[i] == t[i];
    var v := TruncateSlug(t);
    assert forall i :: 0 <= i < |v| ==> v[i] == t[i];
    forall i | 0 <= i < |v| - 1 ensures !DoubleDash(v, i) {
      assert !DoubleDash(t, i);
    }
    if u != [] && u[|u| - 1] == '-' {
      assert |u| >= 2;
      assert !DoubleDash(t, |u| - 2);
    }
  }

  /** A slug within the length limit is its own slug, so keys are stable under the slug step. */
  lemma SlugifyFixesSlugs(r: string)
    requires IsSlug(r) && |r| <= Config.KeyMaxLength
    ensures Slugify(r) == r
  {
    SlugIsLowerAndCommaFree(r);
    NoCommaUnchanged(r, 0);
    assert DropDigitCommasFrom(LowerStr(r), 0) == r;
    JoinTokensOfSlug(r);
    assert TruncateSlug(r) == r;
  }

  lemma SlugIsLowerAndCommaFree(r: string)
    requires IsSlug(r)
    ensures LowerStr(r) == r && ',' !in r
  {
    assert forall i :: 0 <= i < |r| ==> !IsUpper(r[i]) && r[i] != ',';
  }

  /** The slug step is idempotent. */
  lemma SlugifyIdempotent(s: string)
    ensures Slugify(Slugify(s)) == Slugify(s)
  {
    SlugifyFixesSlugs(Slugify(s));
  }

  lemma {:induction false} NoCommaUnchanged(s: string, i: nat)
    requires i <= |s| && ',' !in s
    ensures DropDigitCommasFrom(s, i) == s[i..]
    decreases |s| - i
  {
    if i < |s| {
      NoCommaUnchanged(s, i + 1);
    }
  }

  lemma {:induction false} JoinTokensOfSlug(r: string)
    requires IsSlug(r)
    ensures Join("-", Tokens(r, IsSlugSeparator)) == r
    ensures r != [] ==> Tokens(r, IsSlugSeparator) != []
    decreases |r|
  {
    if r != [] {
      var n := RunLength(r, IsSlugSeparator);
      if n < |r| {
        var tail := r[n + 1..];
        SlugTail(r, n);
        JoinTokensOfSlug(tail);
        var ts := Tokens(tail, IsSlugSeparator);
        TokensAfterWord(r, n);
        JoinCons(r[..n], ts);
        SplitAtDash(r, n);
      } else {
        assert r[n..] == [] && r[..n] == r;
        assert Tokens(r[n..], IsSlugSeparator) == [];
        assert Tokens(r, IsSlugSeparator) == [r];
      }
    }
  }

  /** A word followed by a separator: the tokens are the word, then the tokens after the separator. */
  lemma TokensAfterWord(r: string, n: nat)
    requires r != [] && !IsSlugSeparator(r[0])
    requires n == RunLength(r, IsSlugSeparator) && n < |r|
    ensures Tokens(r, IsSlugSeparator) == [r[..n]] + Tokens(r[n + 1..], IsSlugSeparator)
  {
    TokensSkipSeparator(r[n..]);
    assert r[n..][1..] == r[n + 1..];
  }

  lemma SplitAtDash(r: string, n: nat)
    requires n < |r| && r[n] == '-'
    ensures r == r[..n] + "-" + r[n + 1..]
  {
    assert r == r[..n] + [r[n]] + r[n + 1..];
  }

  lemma JoinCons(w: string, ts: seq<string>)
    requires ts != []
    ensures Join("-", [w] + ts) == w + "-" + Join("-", ts)
  {
    assert ([w] + ts)[1..] == ts;
  }

  /** After a word of a slug comes a dash and then another slug. */
  lemma SlugTail(r: string, n: nat)
    requires IsSlug(r) && n < |r| && IsSlugSeparator(r[n])
    ensures r[n] == '-' && n + 1 < |r| && IsSlug(r[n + 1..])
  {
    var tail := r[n + 1..];
    assert forall i :: 0 <= i < |tail| ==> tail[i] == r[n + 1 + i];
    assert !DoubleDash(r, n);
    forall i | 0 <= i < |tail| - 1 ensures !DoubleDash(tail, i) {
      assert !DoubleDash(r, n + 1 + i);
    }
  }

  lemma TokensSkipSeparator(s: string)
    requires s != [] && IsSlugSeparator(s[0])
    ensures Tokens(s, IsSlugSeparator) == Tokens(s[1..], IsSlugSeparator)
  {
  }

  /** `p.stem.split('_')[0] if '_' in p.stem else p.stem`. */
  function FallbackStem(stem: string): (r: string)
    ensures r <= stem
    ensures '_' !in r
    ensures |r| < |stem| ==> stem[|r|] == '_'
  {
    if '_' in stem then SplitOn(stem, '_')[0] else stem
  }

  /**
   * `product_key`: the slug of the segment the product-name pattern
   * captured (`capture`, the pattern's first group, or `None` when the name
   * does not match), falling back to the stem's part before its first
   * underscore.
   */
  function ProductKey(name: string, capture: Option<string>): (r: string)
    ensures IsSlug(r) && |r| <= Config.KeyMaxLength
  {
    var raw := match capture
      case Some(g) => g
      case None => FallbackStem(Stem(name));
    Slugify(raw)
  }

  /** The key of a scanned file, given the product-name pattern as a function from a name to its first group. */
  function KeyOf(p: SourcePath, pattern: string -> Option<string>): string {
    ProductKey(Name(p), pattern(Name(p)))
  }

  /**
   * The fallback key ignores everything from the first underscore on: two
   * names the pattern rejects whose stems agree up to that point share a key.
   */
  lemma FallbackIgnoresAfterUnderscore(a: string, b: string, k: nat)
    requires k < |Stem(a)| && k < |Stem(b)|
    requires Stem(a)[..k] == Stem(b)[..k] && '_' !in Stem(a)[..k]
    requires Stem(a)[k] == '_' && Stem(b)[k] == '_'
    ensures ProductKey(a, None) == ProductKey(b, None)
  {
    FallbackPrefix(Stem(a), k);
    FallbackPrefix(Stem(b), k);
  }

  lemma FallbackPrefix(stem: string, k: nat)
    requires k < |stem| && stem[k] == '_' && '_' !in stem[..k]
    ensures FallbackStem(stem) == stem[..k]
  {
    var r := FallbackStem(stem);
    assert forall j :: 0 <= j < k ==> stem[..k][j] == stem[j];
    assert forall j :: 0 <= j < |r| ==> r[j] == stem[j];
  }

  /**
   * A name that starts with an underscore and that the pattern rejects
   * resolves to the empty key.
   */
  lemma EmptyKeyExample()
    ensures ProductKey("_x.jpg", None) == ""
  {
    var name := "_x.jpg";
    assert RFind(name, '.') == 2;
    assert Stem(name) == "_x";
    FallbackPrefix("_x", 0);
    assert LowerStr("") == "";
    assert DropDigitCommasFrom("", 0) == "";
  }
}
