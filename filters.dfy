/**
 * The filter engine: whether one trade matches one user's filter, and the
 * order-preserving list of matching filters for a trade.
 */
module Filters {
  import opened Wrappers
  import Text
  import Seqs
  import opened Types

  /** The four trade attributes a filter looks at. */
  datatype TradeView = TradeView(notional: real, price: real, side: string, conditionId: Option<string>)

  /** A single fill is judged by its notional and price. */
  function ViewOfTrade(t: Trade): (v: TradeView)
    ensures v.notional == t.size * t.price && v.price == t.price
    ensures v.side == t.side && v.conditionId == t.conditionId
  {
    TradeView(t.Notional(), t.price, t.side, t.conditionId)
  }

  /** An aggregated trade is judged by its total notional and its VWAP. */
  function ViewOfAggregate(a: AggregatedTrade): (v: TradeView)
    ensures v.notional == a.totalNotionalUsd && v.price == a.vwapPrice
    ensures v.side == a.side && v.conditionId == a.conditionId
  {
    TradeView(a.totalNotionalUsd, a.vwapPrice, a.side, a.conditionId)
  }

  /** `[c.lower() for c in s]`. */
  function LowerAll(s: seq<string>): (r: seq<string>)
    ensures |r| == |s| && forall i :: 0 <= i < |s| ==> r[i] == Text.Lower(s[i])
  {
    seq(|s|, i requires 0 <= i < |s| => Text.Lower(s[i]))
  }

  /** Lower-cased legacy category of the market, when it is truthy. */
  predicate CategoryIs(m: MarketMetadata, lowered: string) {
    Truthy(m.category) && Text.Lower(m.category.value) == lowered
  }

  /** One exclusion entry rejects the market. */
  predicate Rejects(e: string, m: MarketMetadata) {
    (Text.Lower(e) == "sports" && m.isSports) || CategoryIs(m, Text.Lower(e))
  }

  /** The `for excluded_cat in exclude_categories` loop: some entry rejects the market. */
  predicate ExcludedByLoop(excluded: seq<string>, m: MarketMetadata) {
    excluded != [] && (Rejects(excluded[0], m) || ExcludedByLoop(excluded[1..], m))
  }

  function SetOf(s: seq<string>): set<string> {
    set x | x in s
  }

  /**
   * `trade_matches_user_filter` on a trade view: the gates in the order the
   * source checks them, each returning early with a rejection.
   */
  predicate MatchesView(v: TradeView, m: MarketMetadata, f: UserFilter)
    ensures MatchesView(v, m, f) ==>
      f.enabled && v.notional >= f.minNotionalUsd && f.minPrice <= v.price <= f.maxPrice && v.side in f.sides
  {
    if !f.enabled then false
    else if v.notional < f.minNotionalUsd then false
    else if !(f.minPrice <= v.price <= f.maxPrice) then false
    else if v.side !in f.sides then false
    else if "sports" in LowerAll(f.excludeCategories) && m.isSports then false
    else if f.excludeCategories != [] && ExcludedByLoop(f.excludeCategories, m) then false
    else if f.categoryFilter != [] && SetOf(m.tagIds) * SetOf(f.categoryFilter) == {} &&
            !(Truthy(m.category) && Text.Lower(m.category.value) in LowerAll(f.categoryFilter)) then false
    else if f.marketsFilter != [] && !(v.conditionId.Some? && v.conditionId.value in f.marketsFilter) then false
    else true
  }

  /** `trade_matches_user_filter`. */
  predicate TradeMatches(t: Trade, m: MarketMetadata, f: UserFilter) {
    MatchesView(ViewOfTrade(t), m, f)
  }

  /** `aggregated_trade_matches_user_filter`. */
  predicate AggregatedMatches(a: AggregatedTrade, m: MarketMetadata, f: UserFilter) {
    MatchesView(ViewOfAggregate(a), m, f)
  }

  // ---------- the gates stated independently ----------

  predicate SportsGate(m: MarketMetadata, f: UserFilter) {
    m.isSports ==> forall e :: e in f.excludeCategories ==> Text.Lower(e) != "sports"
  }

  predicate LegacyCategoryGate(m: MarketMetadata, f: UserFilter) {
    forall e :: e in f.excludeCategories ==> !CategoryIs(m, Text.Lower(e))
  }

  predicate IncludeGate(m: MarketMetadata, f: UserFilter) {
    f.categoryFilter != [] ==>
      (exists id :: id in m.tagIds && id in f.categoryFilter) ||
      (exists c :: c in f.categoryFilter && CategoryIs(m, Text.Lower(c)))
  }

  predicate MarketsGate(v: TradeView, f: UserFilter) {
    f.marketsFilter != [] ==> v.conditionId.Some? && v.conditionId.value in f.marketsFilter
  }

  /** Every hard gate at once, with no order among them. */
  predicate AllGates(v: TradeView, m: MarketMetadata, f: UserFilter) {
    f.enabled && v.notional >= f.minNotionalUsd && f.minPrice <= v.price <= f.maxPrice &&
    v.side in f.sides && SportsGate(m, f) && LegacyCategoryGate(m, f) && IncludeGate(m, f) &&
    MarketsGate(v, f)
  }

  /** The exclusion loop rejects exactly when some entry is "sports" on a sports market or names the category. */
  lemma {:induction false} ExcludedByLoopIff(excluded: seq<string>, m: MarketMetadata)
    ensures ExcludedByLoop(excluded, m) <==> exists e :: e in excluded && Rejects(e, m)
  {
    if excluded != [] {
      ExcludedByLoopIff(excluded[1..], m);
      assert excluded[0] in excluded;
      if exists e :: e in excluded && Rejects(e, m) {
        var e :| e in excluded && Rejects(e, m);
        if e != excluded[0] {
          assert e in excluded[1..];
        }
      }
      if exists e :: e in excluded[1..] && Rejects(e, m) {
        var e :| e in excluded[1..] && Rejects(e, m);
        assert e in excluded;
      }
    }
  }

  lemma LoweredContains(s: seq<string>, w: string)
    ensures w in LowerAll(s) <==> exists e :: e in s && Text.Lower(e) == w
  {
    var lowered := LowerAll(s);
    if w in lowered {
      var i :| 0 <= i < |lowered| && lowered[i] == w;
      assert s[i] in s;
    }
    if exists e :: e in s && Text.Lower(e) == w {
      var e :| e in s && Text.Lower(e) == w;
      var i :| 0 <= i < |s| && s[i] == e;
      assert lowered[i] == w;
    }
  }

  lemma OverlapIff(a: seq<string>, b: seq<string>)
    ensures SetOf(a) * SetOf(b) != {} <==> exists id :: id in a && id in b
  {
    if SetOf(a) * SetOf(b) != {} {
      var id :| id in SetOf(a) * SetOf(b);
      assert id in a && id in b;
    }
    if exists id :: id in a && id in b {
      var id :| id in a && id in b;
      assert id in SetOf(a) * SetOf(b);
    }
  }

  /** The early-return checks and the conjunction of the gates agree on every input. */
  lemma MatchesIffAllGates(v: TradeView, m: MarketMetadata, f: UserFilter)
    ensures MatchesView(v, m, f) <==> AllGates(v, m, f)
  {
    ExcludedByLoopIff(f.excludeCategories, m);
    LoweredContains(f.excludeCategories, "sports");
    OverlapIff(m.tagIds, f.categoryFilter);
    if Truthy(m.category) {
      LoweredContains(f.categoryFilter, Text.Lower(m.category.value));
    }
  }

  /** A disabled filter matches nothing. */
  lemma DisabledNeverMatches(v: TradeView, m: MarketMetadata, f: UserFilter)
    requires !f.enabled
    ensures !MatchesView(v, m, f)
  {
  }

  /** A match meets the notional threshold, the inclusive price range and the side list. */
  lemma MatchMeetsThresholds(v: TradeView, m: MarketMetadata, f: UserFilter)
    requires MatchesView(v, m, f)
    ensures f.enabled && v.notional >= f.minNotionalUsd && f.minPrice <= v.price <= f.maxPrice
    ensures v.side in f.sides
  {
  }

  /** Excluding "sports" in any letter case rejects every sports market. */
  lemma SportsExcluded(v: TradeView, m: MarketMetadata, f: UserFilter, e: string)
    requires e in f.excludeCategories && Text.Lower(e) == "sports" && m.isSports
    ensures !MatchesView(v, m, f)
  {
    MatchesIffAllGates(v, m, f);
  }

  /** Excluding the market's legacy category, compared case-insensitively, rejects it. */
  lemma LegacyCategoryExcluded(v: TradeView, m: MarketMetadata, f: UserFilter, e: string)
    requires e in f.excludeCategories && Truthy(m.category)
    requires Text.Lower(e) == Text.Lower(m.category.value)
    ensures !MatchesView(v, m, f)
  {
    MatchesIffAllGates(v, m, f);
  }

  /** A non-empty include list demands a shared tag id or the market's category by name. */
  lemma IncludeListRequired(v: TradeView, m: MarketMetadata, f: UserFilter)
    requires MatchesView(v, m, f) && f.categoryFilter != []
    ensures (exists id :: id in m.tagIds && id in f.categoryFilter) ||
            (exists c :: c in f.categoryFilter && CategoryIs(m, Text.Lower(c)))
  {
    MatchesIffAllGates(v, m, f);
  }

  /** A non-empty market allow-list demands the trade's condition id; an empty one ignores it. */
  lemma MarketsFilterRequired(v: TradeView, m: MarketMetadata, f: UserFilter, other: Option<string>)
    ensures MatchesView(v, m, f) && f.marketsFilter != [] ==>
      v.conditionId.Some? && v.conditionId.value in f.marketsFilter
    ensures f.marketsFilter == [] ==> MatchesView(v, m, f) == MatchesView(v.(conditionId := other), m, f)
  {
  }

  /** Matching never reads the selected categories nor the chat id. */
  lemma SelectedCategoriesIgnored(v: TradeView, m: MarketMetadata, f: UserFilter,
                                  selected: seq<string>, chat: Option<string>)
    ensures MatchesView(v, m, f) == MatchesView(v, m, f.(selectedCategories := selected, telegramChatId := chat))
  {
  }

  // ---------- matching users ----------

  /** The filters that match a trade, in their original order. */
  function MatchingFor(v: TradeView, m: MarketMetadata, filters: seq<UserFilter>): seq<UserFilter> {
    Seqs.Filter(filters, f => MatchesView(v, m, f))
  }

  /** One more filter is appended to the matching users exactly when it matches. */
  lemma MatchingForSnoc(v: TradeView, m: MarketMetadata, filters: seq<UserFilter>, i: nat)
    requires i < |filters|
    ensures MatchingFor(v, m, filters[..i + 1]) ==
      MatchingFor(v, m, filters[..i]) + (if MatchesView(v, m, filters[i]) then [filters[i]] else [])
  {
    Seqs.FilterSnoc(filters[..i], filters[i], f => MatchesView(v, m, f));
    assert filters[..i + 1] == filters[..i] + [filters[i]];
  }

  /** The matching users are exactly the filters passing every gate, in their stored order. */
  lemma MatchingForMembers(v: TradeView, m: MarketMetadata, filters: seq<UserFilter>)
    ensures forall f :: f in MatchingFor(v, m, filters) <==> f in filters && AllGates(v, m, f)
  {
    forall f | f in filters {
      MatchesIffAllGates(v, m, f);
    }
  }

  /** The loop shared by both `get_matching_users_*` functions. */
  method CollectMatching(v: TradeView, m: MarketMetadata, filters: seq<UserFilter>)
    returns (matching: seq<UserFilter>)
    ensures matching == MatchingFor(v, m, filters)
    ensures forall f :: f in matching <==> f in filters && AllGates(v, m, f)
  {
    matching := [];
    for i := 0 to |filters|
      invariant matching == MatchingFor(v, m, filters[..i])
    {
      MatchingForSnoc(v, m, filters, i);
      if MatchesView(v, m, filters[i]) {
        matching := matching + [filters[i]];
      }
    }
    assert filters[..|filters|] == filters;
    MatchingForMembers(v, m, filters);
  }

  /** `get_matching_users_for_trade`. */
  method GetMatchingUsersForTrade(t: Trade, m: MarketMetadata, filters: seq<UserFilter>)
    returns (matching: seq<UserFilter>)
    ensures matching == MatchingFor(ViewOfTrade(t), m, filters)
    ensures forall f :: f in matching <==> f in filters && AllGates(ViewOfTrade(t), m, f)
  {
    matching := CollectMatching(ViewOfTrade(t), m, filters);
  }

  /** `get_matching_users_for_aggregated_trade`. */
  method GetMatchingUsersForAggregatedTrade(a: AggregatedTrade, m: MarketMetadata, filters: seq<UserFilter>)
    returns (matching: seq<UserFilter>)
    ensures matching == MatchingFor(ViewOfAggregate(a), m, filters)
    ensures forall f :: f in matching <==> f in filters && AllGates(ViewOfAggregate(a), m, f)
  {
    matching := CollectMatching(ViewOfAggregate(a), m, filters);
  }
}
