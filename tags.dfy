/**
 * Tag generation: the default tags, the category's extra tags, the
 * lower-cased location and the key's words longer than two characters, with
 * duplicates removed in first-seen order and cut to the marketplace limit.
 */
module Tags {
  import opened Seqs
  import opened Text
  import Config

  function CategoryTags(category: string): seq<string> {
    if category == "Landscapes" then ["nature", "scenic", "landscape photography"]
    else if category == "Architecture" then ["building", "structure", "architectural"]
    else if category == "Cityscapes" then ["urban", "city", "skyline"]
    else if category == "Nature" then ["natural", "outdoor", "wilderness"]
    else []
  }

  function LocationTags(location: string): seq<string> {
    if location != "Other" then [LowerStr(location)] else []
  }

  /** The words of the key, with dashes read as spaces. */
  function KeyWords(key: string): seq<string> {
    Words(ReplaceChar(key, '-', ' '))
  }

  /** The words longer than two characters, in order. */
  function LongWords(words: seq<string>): seq<string> {
    if words == [] then []
    else LongWords(words[..|words| - 1]) + (if |words[|words| - 1]| > 2 then [words[|words| - 1]] else [])
  }

  /** `[k for k in keywords if len(k) > 2]` keeps exactly the words longer than two characters. */
  lemma {:induction false} LongWordsShape(words: seq<string>)
    ensures forall i :: 0 <= i < |LongWords(words)| ==> |LongWords(words)[i]| > 2 && LongWords(words)[i] in words
    ensures forall j :: 0 <= j < |words| && |words[j]| > 2 ==> words[j] in LongWords(words)
    decreases |words|
  {
    if words != [] {
      var init := words[..|words| - 1];
      var w := words[|words| - 1];
      assert words == init + [w];
      LongWordsShape(init);
      var r := LongWords(words);
      assert r[..|LongWords(init)|] == LongWords(init);
      forall j | 0 <= j < |words| && |words[j]| > 2 ensures words[j] in r {
        if j < |init| {
          assert init[j] == words[j];
          var i :| 0 <= i < |LongWords(init)| && LongWords(init)[i] == words[j];
          assert r[i] == words[j];
        } else {
          assert r[|r| - 1] == w;
        }
      }
      forall i | 0 <= i < |r| ensures |r[i]| > 2 && r[i] in words {
        if i < |LongWords(init)| {
          assert r[i] == LongWords(init)[i];
        }
      }
    }
  }

  /** Every tag candidate, in the order they are added. */
  function Candidates(key: string, category: string, location: string): seq<string> {
    Config.DefaultTags + CategoryTags(category) + LocationTags(location) + LongWords(KeyWords(key))
  }

  /** The tags of a listing: at most 13, no duplicates, in first-seen order. */
  function TagList(key: string, category: string, location: string): seq<string> {
    Take(Dedup(Candidates(key, category, location)), Config.TagLimit)
  }

  /**
   * `generate_tags(product_key, category, location)`: the list is built up
   * in the source's order, then `dict.fromkeys` removes repeats and the
   * slice keeps 13.
   */
  method GenerateTags(key: string, category: string, location: string) returns (tags: seq<string>)
    ensures tags == TagList(key, category, location)
  {
    var all := Config.DefaultTags;
    all := all + CategoryTags(category);
    if location != "Other" {
      all := all + [LowerStr(location)];
    }
    var keywords := KeyWords(key);
    all := all + LongWords(keywords);
    assert all == Candidates(key, category, location);
    tags := Take(Dedup(all), Config.TagLimit);
  }

  /** The five default tags are distinct, so they survive duplicate removal unchanged. */
  lemma DefaultsDistinct()
    ensures NoDup(Config.DefaultTags)
  {
  }

  /**
   * Removing repeats from a list that starts with distinct items and keeping
   * the first `n`: those items stay first, nothing repeats, nothing new
   * appears, and nothing is lost while there is room.
   */
  lemma {:induction false} DedupTakeShape<T>(head: seq<T>, rest: seq<T>, n: nat)
    requires NoDup(head) && |head| <= n
    ensures var r := Take(Dedup(head + rest), n);
      && |r| <= n
      && NoDup(r)
      && (forall i :: 0 <= i < |r| ==> r[i] in head + rest)
      && (|Dedup(head + rest)| <= n ==> forall i :: 0 <= i < |head + rest| ==> (head + rest)[i] in r)
      && |r| >= |head|
      && r[..|head|] == head
  {
    var d := Dedup(head + rest);
    var r := Take(d, n);
    DedupOfNoDup(head);
    DedupPrefix(head, rest);
    DedupFrom(head + rest);
    assert r <= d;
    assert forall i :: 0 <= i < |r| ==> r[i] == d[i];
  }

  /**
   * What the tag list promises: at most 13 tags, none twice, every one a
   * candidate, every candidate kept while there is room, and the five
   * default tags first and in order.
   */
  lemma TagListShape(key: string, category: string, location: string)
    ensures var tags := TagList(key, category, location);
      var cands := Candidates(key, category, location);
      && |tags| <= Config.TagLimit
      && NoDup(tags)
      && (forall i :: 0 <= i < |tags| ==> tags[i] in cands)
      && (|Dedup(cands)| <= Config.TagLimit ==> forall i :: 0 <= i < |cands| ==> cands[i] in tags)
      && |tags| >= |Config.DefaultTags|
      && tags[..|Config.DefaultTags|] == Config.DefaultTags
  {
    var rest := CategoryTags(category) + LocationTags(location) + LongWords(KeyWords(key));
    assert Candidates(key, category, location) == Config.DefaultTags + rest;
    DefaultsDistinct();
    DedupTakeShape(Config.DefaultTags, rest, Config.TagLimit);
  }

  /** The words of a key carry only the key's own characters. */
  lemma KeyWordsFromKey(key: string, c: char)
    requires c != ' ' && c !in key
    ensures forall k :: 0 <= k < |LongWords(KeyWords(key))| ==> c !in LongWords(KeyWords(key))[k]
  {
    var s := ReplaceChar(key, '-', ' ');
    assert c !in s;
    TokensKeepOut(s, IsSpace, c);
    LongWordsShape(KeyWords(key));
  }

  lemma {:induction false} TokensKeepOut(s: string, sep: char -> bool, c: char)
    requires c !in s
    ensures forall k :: 0 <= k < |Tokens(s, sep)| ==> c !in Tokens(s, sep)[k]
    decreases |s|
  {
    if s != [] {
      if sep(s[0]) {
        TokensKeepOut(s[1..], sep, c);
      } else {
        var n := RunLength(s, sep);
        TokensKeepOut(s[n..], sep, c);
        assert c !in s[..n];
      }
    }
  }

  /**
   * No tag holds a comma when the key and the location hold none, so the
   * comma-joined tag column of the exports reads back as the tag list.
   */
  lemma TagsCommaFree(key: string, category: string, location: string)
    requires ',' !in key && ',' !in location
    ensures forall i :: 0 <= i < |TagList(key, category, location)| ==> ',' !in TagList(key, category, location)[i]
  {
    var cands := Candidates(key, category, location);
    var tags := TagList(key, category, location);
    TagListShape(key, category, location);
    KeyWordsFromKey(key, ',');
    var fixed := Config.DefaultTags + CategoryTags(category) + LocationTags(location);
    var tail := LongWords(KeyWords(key));
    FixedTagsCommaFree(category);
    assert ',' !in LowerStr(location);
    CommaFreeConcat(Config.DefaultTags + CategoryTags(category), LocationTags(location));
    assert cands == fixed + tail;
    CommaFreeConcat(fixed, tail);
    forall i | 0 <= i < |tags| ensures ',' !in tags[i] {
      var j :| 0 <= j < |cands| && cands[j] == tags[i];
    }
  }

  lemma FixedTagsCommaFree(category: string)
    ensures forall i :: 0 <= i < |Config.DefaultTags + CategoryTags(category)| ==> ',' !in (Config.DefaultTags + CategoryTags(category))[i]
  {
    assert forall i :: 0 <= i < |Config.DefaultTags| ==> ',' !in Config.DefaultTags[i];
    assert forall i :: 0 <= i < |CategoryTags(category)| ==> ',' !in CategoryTags(category)[i];
    CommaFreeConcat(Config.DefaultTags, CategoryTags(category));
  }

  lemma CommaFreeConcat(a: seq<string>, b: seq<string>)
    requires forall i :: 0 <= i < |a| ==> ',' !in a[i]
    requires forall i :: 0 <= i < |b| ==> ',' !in b[i]
    ensures forall i :: 0 <= i < |a + b| ==> ',' !in (a + b)[i]
  {
  }
}
