/**
 * Mapping tags to user-facing categories: keyword inference per tag, a per-tag
 * cache in `tagCategoryMappings` that re-infers when its entry is empty, and the
 * per-market union with "Sports" added for sports tags, returned sorted.
 */
module Categorization {
  import opened Wrappers
  import Text
  import Seqs
  import opened Types
  import Db

  /** `CATEGORY_KEYWORDS`, in dictionary order. */
  const CategoryKeywords: seq<(string, seq<string>)> := [
    ("Politics", ["politics", "political", "election", "president", "congress", "senate", "house",
                  "democrat", "republican", "vote", "voting", "candidate", "campaign"]),
    ("Sports", ["sports", "sport", "football", "basketball", "baseball", "soccer", "nfl", "nba",
                "mlb", "nhl", "olympics", "championship", "tournament"]),
    ("Crypto", ["crypto", "cryptocurrency", "bitcoin", "ethereum", "btc", "eth", "blockchain",
                "defi", "nft", "web3", "token"]),
    ("Finance", ["finance", "financial", "stock", "market", "trading", "investment", "bank",
                 "banking", "economy", "federal reserve", "fed"]),
    ("Geopolitics", ["geopolitics", "geopolitical", "war", "conflict", "diplomacy", "international",
                     "foreign policy", "military", "nato", "united nations"]),
    ("Earnings", ["earnings", "quarterly", "q1", "q2", "q3", "q4", "revenue", "profit",
                  "financial report", "earnings report"]),
    ("Tech", ["tech", "technology", "ai", "artificial intelligence", "software", "hardware",
              "startup", "silicon valley", "tech company"]),
    ("Culture", ["culture", "entertainment", "movie", "tv", "television", "celebrity", "music",
                 "art", "media", "film", "show"]),
    ("World", ["world", "global", "international", "country", "nation", "worldwide"]),
    ("Economy", ["economy", "economic", "gdp", "inflation", "unemployment", "recession",
                 "growth", "economic growth"]),
    ("Trump", ["trump", "donald trump", "trump administration"]),
    ("Elections", ["election", "elections", "presidential election", "midterm", "primary",
                   "general election", "ballot"]),
    ("Mentions", [])]

  function Names(entries: seq<(string, seq<string>)>): (r: seq<string>)
    ensures |r| == |entries| && forall i :: 0 <= i < |entries| ==> r[i] == entries[i].0
  {
    seq(|entries|, i requires 0 <= i < |entries| => entries[i].0)
  }

  /** The inference table and the migration's canonical list name the same categories in the same order. */
  lemma KeywordTableMatchesCanonicalList()
    ensures Names(CategoryKeywords) == Db.AllCategories
  {
  }

  /** The lower-cased tagLabel, a space and the lower-cased tagSlug. */
  function SearchText(tagLabel: string, tagSlug: string): string {
    Text.Lower(tagLabel) + " " + Text.Lower(tagSlug)
  }

  /** Some keyword, lower-cased, occurs in the text. */
  predicate AnyKeyword(keywords: seq<string>, text: string) {
    exists k :: 0 <= k < |keywords| && Text.Contains(text, Text.Lower(keywords[k]))
  }

  predicate Selected(entry: (string, seq<string>), text: string) {
    entry.0 != "Mentions" && AnyKeyword(entry.1, text)
  }

  /** The categories of `entries`, in order, that a search text selects. */
  function InferFrom(entries: seq<(string, seq<string>)>, text: string): (r: seq<string>)
    ensures |r| <= |entries| && "Mentions" !in r
  {
    if entries == [] then []
    else
      var last := entries[|entries| - 1];
      InferFrom(entries[..|entries| - 1], text) + (if Selected(last, text) then [last.0] else [])
  }

  /** What `infer_categories_for_tag` returns. */
  function InferredCategories(tagLabel: string, tagSlug: string): seq<string> {
    InferFrom(CategoryKeywords, SearchText(tagLabel, tagSlug))
  }

  /** A category is inferred exactly when it is not "Mentions" and one of its keywords occurs in the text. */
  lemma {:induction false} InferFromMembership(entries: seq<(string, seq<string>)>, text: string, c: string)
    ensures c in InferFrom(entries, text) <==>
      exists i :: 0 <= i < |entries| && entries[i].0 == c && Selected(entries[i], text)
  {
    if entries != [] {
      var init := entries[..|entries| - 1];
      InferFromMembership(init, text, c);
      assert forall i :: 0 <= i < |init| ==> init[i] == entries[i];
      if exists i :: 0 <= i < |entries| && entries[i].0 == c && Selected(entries[i], text) {
        var i :| 0 <= i < |entries| && entries[i].0 == c && Selected(entries[i], text);
        if i < |init| {
          assert init[i] == entries[i];
        }
      }
    }
  }

  /** With distinct category names, inference never repeats a category. */
  lemma {:induction false} InferFromDistinct(entries: seq<(string, seq<string>)>, text: string)
    requires Seqs.Distinct(Names(entries))
    ensures Seqs.Distinct(InferFrom(entries, text))
  {
    if entries != [] {
      var init, last := entries[..|entries| - 1], entries[|entries| - 1];
      assert Names(init) == Names(entries)[..|init|];
      InferFromDistinct(init, text);
      forall i | 0 <= i < |init|
        ensures init[i].0 != last.0
      {
        assert Names(entries)[i] == init[i].0 && Names(entries)[|init|] == last.0;
      }
      InferFromMembership(init, text, last.0);
    }
  }

  /** Inference never yields "Mentions", never repeats a category, and yields only canonical names. */
  lemma InferredCategoriesShape(tagLabel: string, tagSlug: string)
    ensures "Mentions" !in InferredCategories(tagLabel, tagSlug)
    ensures Seqs.Distinct(InferredCategories(tagLabel, tagSlug))
    ensures forall c :: c in InferredCategories(tagLabel, tagSlug) ==> c in Db.AllCategories
  {
    var text := SearchText(tagLabel, tagSlug);
    InferFromMembership(CategoryKeywords, text, "Mentions");
    KeywordTableMatchesCanonicalList();
    Db.AllCategoriesDistinct();
    InferFromDistinct(CategoryKeywords, text);
    forall c | c in InferredCategories(tagLabel, tagSlug)
      ensures c in Db.AllCategories
    {
      InferFromMembership(CategoryKeywords, text, c);
      var i :| 0 <= i < |CategoryKeywords| && CategoryKeywords[i].0 == c && Selected(CategoryKeywords[i], text);
      assert Names(CategoryKeywords)[i] == c;
    }
  }

  /** The keyword loop for one category, with its `break` on the first hit. */
  method AnyKeywordIn(keywords: seq<string>, text: string) returns (found: bool)
    ensures found == AnyKeyword(keywords, text)
  {
    found := false;
    var k := 0;
    while k < |keywords| && !found
      invariant 0 <= k <= |keywords|
      invariant found ==> AnyKeyword(keywords, text)
      invariant !found ==> forall j :: 0 <= j < k ==> !Text.Contains(text, Text.Lower(keywords[j]))
    {
      if Text.Contains(text, Text.Lower(keywords[k])) {
        found := true;
      }
      k := k + 1;
    }
  }

  /** `infer_categories_for_tag`. */
  method InferCategoriesForTag(tagLabel: string, tagSlug: string) returns (matched: seq<string>)
    ensures matched == InferredCategories(tagLabel, tagSlug)
  {
    var text := Text.Lower(tagLabel) + " " + Text.Lower(tagSlug);
    matched := [];
    for i := 0 to |CategoryKeywords|
      invariant matched == InferFrom(CategoryKeywords[..i], text)
    {
      assert CategoryKeywords[..i + 1][..i] == CategoryKeywords[..i];
      var (category, keywords) := CategoryKeywords[i];
      if category == "Mentions" {
        continue;
      }
      var found := AnyKeywordIn(keywords, text);
      if found {
        matched := matched + [category];
      }
    }
    assert CategoryKeywords[..|CategoryKeywords|] == CategoryKeywords;
  }

  // ---------- the per-tag cache ----------

  /** What `get_categories_for_tag` returns: a non-empty cached list, or a fresh inference. */
  function CategoriesForTag(mappings: map<string, Db.TagMapping>, tagId: string, tagLabel: string, tagSlug: string)
    : seq<string>
  {
    if tagId in mappings && mappings[tagId].categories != [] then mappings[tagId].categories
    else InferredCategories(tagLabel, tagSlug)
  }

  /** The mappings after `get_categories_for_tag`: written only when the cache had nothing. */
  function MappingsAfter(mappings: map<string, Db.TagMapping>, tagId: string, tagLabel: string, tagSlug: string,
                         now: real): map<string, Db.TagMapping>
  {
    if tagId in mappings && mappings[tagId].categories != [] then mappings
    else mappings[tagId := Db.TagMapping(InferredCategories(tagLabel, tagSlug), tagLabel, tagSlug, now)]
  }

  /**
   * A lookup answers the same before and after any lookup of the same tag with the
   * same tagLabel and tagSlug, and any lookup of another tag leaves it alone.
   */
  lemma CategoriesForTagStable(mappings: map<string, Db.TagMapping>, tagId: string, tagLabel: string, tagSlug: string,
                               now: real, other: string, otherLabel: string, otherSlug: string)
    requires other == tagId ==> otherLabel == tagLabel && otherSlug == tagSlug
    ensures CategoriesForTag(MappingsAfter(mappings, tagId, tagLabel, tagSlug, now), other, otherLabel, otherSlug) ==
            CategoriesForTag(mappings, other, otherLabel, otherSlug)
  {
  }

  /** `get_categories_for_tag`. */
  method GetCategoriesForTag(db: Db.Database, tagId: string, tagLabel: string, tagSlug: string, now: real)
    returns (categories: seq<string>)
    modifies db`tagCategoryMappings
    ensures categories == CategoriesForTag(old(db.tagCategoryMappings), tagId, tagLabel, tagSlug)
    ensures db.tagCategoryMappings == MappingsAfter(old(db.tagCategoryMappings), tagId, tagLabel, tagSlug, now)
  {
    if tagId in db.tagCategoryMappings && db.tagCategoryMappings[tagId].categories != [] {
      return db.tagCategoryMappings[tagId].categories;
    }
    categories := InferCategoriesForTag(tagLabel, tagSlug);
    db.tagCategoryMappings := db.tagCategoryMappings[tagId := Db.TagMapping(categories, tagLabel, tagSlug, now)];
  }

  /** A cached non-empty list is returned unchanged and nothing is written. */
  lemma CachedCategoriesWin(mappings: map<string, Db.TagMapping>, tagId: string, tagLabel: string, tagSlug: string, now: real)
    requires tagId in mappings && mappings[tagId].categories != []
    ensures CategoriesForTag(mappings, tagId, tagLabel, tagSlug) == mappings[tagId].categories
    ensures MappingsAfter(mappings, tagId, tagLabel, tagSlug, now) == mappings
  {
  }

  /** A missing or empty entry is re-inferred and the inference is stored under the tag id. */
  lemma EmptyEntryReinferred(mappings: map<string, Db.TagMapping>, tagId: string, tagLabel: string, tagSlug: string, now: real)
    requires tagId !in mappings || mappings[tagId].categories == []
    ensures CategoriesForTag(mappings, tagId, tagLabel, tagSlug) == InferredCategories(tagLabel, tagSlug)
    ensures MappingsAfter(mappings, tagId, tagLabel, tagSlug, now)[tagId].categories == InferredCategories(tagLabel, tagSlug)
  {
  }

  // ---------- per-market derivation ----------

  /**
   * `tags_dict.get(tag_id, {})`, read for its 'label' and 'slug' entries with "" as the
   * default; the fields are called `tagLabel` and `tagSlug` because `label` is a Dafny keyword.
   */
  function InfoOf(dict: map<string, TagInfo>, tagId: string): TagInfo {
    if tagId in dict then dict[tagId] else TagInfo("", "")
  }

  function Answer(mappings: map<string, Db.TagMapping>, dict: map<string, TagInfo>, tagId: string): seq<string> {
    CategoriesForTag(mappings, tagId, InfoOf(dict, tagId).tagLabel, InfoOf(dict, tagId).tagSlug)
  }

  /** The categories of a market's tags, plus "Sports" when one of its tags is a sports tag. */
  predicate InDerived(c: string, mappings: map<string, Db.TagMapping>, dict: map<string, TagInfo>,
                      sports: set<string>, tagIds: seq<string>)
  {
    exists j :: 0 <= j < |tagIds| && (c in Answer(mappings, dict, tagIds[j]) || (c == "Sports" && tagIds[j] in sports))
  }

  /** One more tag adds exactly its own answer, and "Sports" when it is a sports tag. */
  lemma InDerivedSnoc(mappings: map<string, Db.TagMapping>, dict: map<string, TagInfo>, sports: set<string>,
                      tagIds: seq<string>, i: nat)
    requires i < |tagIds|
    ensures forall c :: InDerived(c, mappings, dict, sports, tagIds[..i + 1]) <==>
      InDerived(c, mappings, dict, sports, tagIds[..i]) ||
      c in Answer(mappings, dict, tagIds[i]) || (c == "Sports" && tagIds[i] in sports)
  {
    var p, q := tagIds[..i + 1], tagIds[..i];
    forall c
      ensures InDerived(c, mappings, dict, sports, p) <==>
        InDerived(c, mappings, dict, sports, q) ||
        c in Answer(mappings, dict, tagIds[i]) || (c == "Sports" && tagIds[i] in sports)
    {
      if InDerived(c, mappings, dict, sports, p) {
        var j :| 0 <= j < |p| && (c in Answer(mappings, dict, p[j]) || (c == "Sports" && p[j] in sports));
        if j < i {
          assert p[j] == q[j];
        }
      }
      if InDerived(c, mappings, dict, sports, q) {
        var j :| 0 <= j < |q| && (c in Answer(mappings, dict, q[j]) || (c == "Sports" && q[j] in sports));
        assert p[j] == q[j];
      }
      assert p[i] == tagIds[i];
    }
  }

  /** Any lookup made while deriving leaves every later answer as it was. */
  lemma AnswerStable(mappings: map<string, Db.TagMapping>, dict: map<string, TagInfo>, tagId: string, now: real,
                     other: string)
    ensures Answer(MappingsAfter(mappings, tagId, InfoOf(dict, tagId).tagLabel, InfoOf(dict, tagId).tagSlug, now),
                   dict, other) == Answer(mappings, dict, other)
  {
  }

  /** Turns a set into a duplicate-free list of its elements (`list(s)`: the order is unspecified). */
  method ListOf(s: set<string>) returns (r: seq<string>)
    ensures Seqs.Distinct(r) && forall x :: x in r <==> x in s
  {
    r := [];
    var rest := s;
    while rest != {}
      invariant rest <= s && (forall x :: x in r <==> x in s && x !in rest)
      invariant Seqs.Distinct(r)
      decreases |rest|
    {
      var x :| x in rest;
      r := r + [x];
      rest := rest - {x};
    }
  }

  /**
   * `derive_categories_for_market`: the sorted union, without duplicates, of the
   * categories of the market's tags, with "Sports" for a sports tag.
   */
  method DeriveCategoriesForMarket(db: Db.Database, market: MarketMetadata, now: real)
    returns (categories: seq<string>)
    modifies db`tagCategoryMappings, db`sportsTagIds, db`tagsDictionary
    ensures db.sportsTagIds == old(db.sportsTagIds) && db.tagsDictionary == old(db.tagsDictionary)
    ensures Text.StrictlySorted(categories)
    ensures forall c :: c in categories <==>
      InDerived(c, old(db.tagCategoryMappings), Db.GetOrCache(old(db.tagsDictionary), None, map[], now).0,
                Db.GetOrCache(old(db.sportsTagIds), None, {}, now).0, market.tagIds)
  {
    var sports := db.GetOrCacheSportsTagIds(None, now);
    var dict := db.GetOrCacheTagsDictionary(None, now);
    ghost var m0 := db.tagCategoryMappings;
    var all: set<string> := {};
    for i := 0 to |market.tagIds|
      invariant db.sportsTagIds == old(db.sportsTagIds) && db.tagsDictionary == old(db.tagsDictionary)
      invariant forall t :: Answer(db.tagCategoryMappings, dict, t) == Answer(m0, dict, t)
      invariant forall c :: c in all <==> InDerived(c, m0, dict, sports, market.tagIds[..i])
    {
      all := DeriveStep(db, dict, sports, market.tagIds, i, now, all, m0);
    }
    assert market.tagIds[..|market.tagIds|] == market.tagIds;
    categories := SortedList(all);
  }

  /** One tag of the derivation loop: its categories, and "Sports" when it is a sports tag, join the set. */
  method DeriveStep(db: Db.Database, dict: map<string, TagInfo>, sports: set<string>, tagIds: seq<string>, i: nat,
                    now: real, all: set<string>, ghost m0: map<string, Db.TagMapping>)
    returns (all': set<string>)
    requires i < |tagIds|
    requires forall t :: Answer(db.tagCategoryMappings, dict, t) == Answer(m0, dict, t)
    requires forall c :: c in all <==> InDerived(c, m0, dict, sports, tagIds[..i])
    modifies db`tagCategoryMappings
    ensures forall t :: Answer(db.tagCategoryMappings, dict, t) == Answer(m0, dict, t)
    ensures forall c :: c in all' <==> InDerived(c, m0, dict, sports, tagIds[..i + 1])
  {
    var tagId := tagIds[i];
    var info := InfoOf(dict, tagId);
    ghost var before := db.tagCategoryMappings;
    var tagCategories := GetCategoriesForTag(db, tagId, info.tagLabel, info.tagSlug, now);
    assert tagCategories == Answer(m0, dict, tagId);
    forall t
      ensures Answer(db.tagCategoryMappings, dict, t) == Answer(m0, dict, t)
    {
      AnswerStable(before, dict, tagId, now, t);
    }
    all' := all + (set c | c in tagCategories);
    if tagId in sports {
      all' := all' + {"Sports"};
    }
    InDerivedSnoc(m0, dict, sports, tagIds, i);
  }

  /** `sorted(list(s))`: the elements of the set, each once, in increasing order. */
  method SortedList(all: set<string>) returns (categories: seq<string>)
    ensures Text.StrictlySorted(categories) && forall c :: c in categories <==> c in all
  {
    var listed := ListOf(all);
    categories := Text.SortStrings(listed);
    Text.SortStringsSorted(listed);
    forall c
      ensures c in categories <==> c in listed
    {
      assert c in categories <==> c in multiset(categories);
      assert c in listed <==> c in multiset(listed);
    }
  }
}
