/**
 * The MongoDB collections the worker reads and writes, as fields of one store,
 * and the pure rules behind each helper: the filter join with its legacy
 * category migration, the dedup set with expiry, the single trade marker, the
 * market cache with its 24-hour window and the "cached or provided" caches.
 * Times are real seconds since the epoch, passed in by the caller.
 */
module Db {
  import opened Wrappers
  import Text
  import Seqs
  import opened Types

  // ---------- documents ----------

  /**
   * A `whaleAlertConfigs` document. `userId` is the text of the stored id ("" when
   * absent); an absent optional key is `None`; `enabled` says whether the
   * document has `enabled: true`.
   */
  datatype ConfigDoc = ConfigDoc(
    userId: string,
    minNotionalUsd: Option<real>,
    minPrice: Option<real>,
    maxPrice: Option<real>,
    sides: Option<seq<string>>,
    marketsFilter: Option<seq<string>>,
    categoryFilter: Option<seq<string>>,
    excludeCategories: Option<seq<string>>,
    selectedCategories: Option<seq<string>>,
    enabled: bool)

  /** A `telegramAccounts` document; `chatId` is the text of the stored id ("" when absent). */
  datatype TelegramAccount = TelegramAccount(userId: string, isActive: bool, chatId: string)

  /** The single `whaleAlertCursors` document. */
  datatype MarkerDoc = MarkerDoc(lastProcessedTimestamp: int, lastProcessedTxHash: Option<string>, updatedAt: real)

  /** The `updatedAt` of a cached market: absent or falsy, a datetime, or some other truthy value. */
  datatype UpdatedAt = NoUpdatedAt | At(time: real) | NotADatetime

  /** A `marketMetadata` document. */
  datatype CachedMarket = CachedMarket(meta: MarketMetadata, updatedAt: UpdatedAt)

  /** A `gammaCache` document. */
  datatype GammaDoc<T> = GammaDoc(data: T, updatedAt: real)

  /** A `tagCategoryMappings` document; `inferredAt` is not modelled. */
  datatype TagMapping = TagMapping(categories: seq<string>, tagLabel: string, tagSlug: string, updatedAt: real)

  // ---------- legacy category migration ----------

  /** The canonical categories, in canonical order. */
  const AllCategories: seq<string> := [
    "Politics", "Sports", "Crypto", "Finance", "Geopolitics",
    "Earnings", "Tech", "Culture", "World", "Economy",
    "Trump", "Elections", "Mentions"]

  /** Lower-case spellings of the canonical categories. */
  const CategoryMap: map<string, string> := map[
    "politics" := "Politics", "sports" := "Sports", "crypto" := "Crypto",
    "finance" := "Finance", "geopolitics" := "Geopolitics", "earnings" := "Earnings",
    "tech" := "Tech", "culture" := "Culture", "world" := "World",
    "economy" := "Economy", "trump" := "Trump", "elections" := "Elections",
    "mentions" := "Mentions"]

  /** The canonical name of one excluded value, if it has one. */
  function Normalize(cat: string): Option<string> {
    var lowered := Text.Strip(Text.Lower(cat));
    if lowered in CategoryMap then Some(CategoryMap[lowered])
    else if cat in AllCategories then Some(cat)
    else None
  }

  /** A recognised value always normalises to a canonical category. */
  lemma NormalizeCanonical(cat: string)
    ensures Normalize(cat).Some? ==> Normalize(cat).value in AllCategories
  {
  }

  /** The names a normalisation `norm` picks out of a list of values. */
  function Normalized(excluded: seq<string>, norm: string -> Option<string>): set<string> {
    if excluded == [] then {}
    else
      var last := norm(excluded[|excluded| - 1]);
      Normalized(excluded[..|excluded| - 1], norm) + (if last.Some? then {last.value} else {})
  }

  lemma {:induction false} NormalizedIff(excluded: seq<string>, norm: string -> Option<string>, c: string)
    ensures c in Normalized(excluded, norm) <==> exists x :: x in excluded && norm(x) == Some(c)
  {
    if excluded != [] {
      var init, last := excluded[..|excluded| - 1], excluded[|excluded| - 1];
      NormalizedIff(init, norm, c);
      assert excluded == init + [last];
      if exists x :: x in excluded && norm(x) == Some(c) {
        var x :| x in excluded && norm(x) == Some(c);
        if x != last {
          assert x in init;
        }
      }
    }
  }

  /** The canonical names excluded by a list of values. */
  function ExcludedCanonical(excluded: seq<string>): set<string> {
    Normalized(excluded, Normalize)
  }

  /** The normalisation loop over `excludeCategories`, for a normalisation rule `norm`. */
  method NormalizeAll(excluded: seq<string>, norm: string -> Option<string>) returns (canonical: set<string>)
    ensures canonical == Normalized(excluded, norm)
  {
    canonical := {};
    for i := 0 to |excluded|
      invariant canonical == Normalized(excluded[..i], norm)
    {
      assert excluded[..i + 1][..i] == excluded[..i];
      var n := norm(excluded[i]);
      if n.Some? {
        canonical := canonical + {n.value};
      }
    }
    assert excluded[..|excluded|] == excluded;
  }

  lemma AllCategoriesDistinct()
    ensures Seqs.Distinct(AllCategories)
  {
  }

  /** Whether the migration applies: no selected categories but some excluded ones. */
  predicate MigrationApplies(selected: seq<string>, excluded: seq<string>) {
    selected == [] && excluded != []
  }

  /** The selected categories after the migration. */
  function Migrated(selected: seq<string>, excluded: seq<string>): seq<string> {
    if MigrationApplies(selected, excluded) then
      var canonical := ExcludedCanonical(excluded);
      Seqs.Filter(AllCategories, c => c !in canonical)
    else selected
  }

  /** A name is excluded exactly when some value of the list normalises to it. */
  lemma ExcludedCanonicalIff(excluded: seq<string>, c: string)
    ensures c in ExcludedCanonical(excluded) <==> exists x :: x in excluded && Normalize(x) == Some(c)
  {
    NormalizedIff(excluded, Normalize, c);
  }

  /**
   * A migrated list is the canonical list, in canonical order, minus the excluded
   * names: it has no duplicates and holds only canonical names.
   */
  lemma MigratedSelection(selected: seq<string>, excluded: seq<string>)
    requires MigrationApplies(selected, excluded)
    ensures Seqs.Distinct(Migrated(selected, excluded))
    ensures forall c :: c in Migrated(selected, excluded) <==>
      c in AllCategories && c !in ExcludedCanonical(excluded)
  {
    var canonical := ExcludedCanonical(excluded);
    AllCategoriesDistinct();
    Seqs.FilterDistinct(AllCategories, c => c !in canonical);
  }

  /** Without the migration condition the stored selection is kept unchanged. */
  lemma MigrationOnlyWhenSelectionEmpty(selected: seq<string>, excluded: seq<string>)
    ensures !MigrationApplies(selected, excluded) ==> Migrated(selected, excluded) == selected
    ensures MigrationApplies(selected, excluded) ==>
      Migrated(selected, excluded) == Seqs.Filter(AllCategories, c => c !in ExcludedCanonical(excluded))
  {
  }

  // ---------- filters joined with telegram accounts ----------

  /** `find_one({'userId': u, 'isActive': True})`: the first active account of the user. */
  function FindActiveAccount(accounts: seq<TelegramAccount>, userId: string): (r: Option<TelegramAccount>)
    ensures r.Some? ==> r.value in accounts && r.value.userId == userId && r.value.isActive
    ensures r.None? ==> forall a :: a in accounts ==> !(a.userId == userId && a.isActive)
  {
    if accounts == [] then None
    else if accounts[0].userId == userId && accounts[0].isActive then Some(accounts[0])
    else FindActiveAccount(accounts[1..], userId)
  }

  /** The `UserFilter` built from one config and the user's chat id, with the documented defaults. */
  function BuildUserFilter(cfg: ConfigDoc, chatId: string): (f: UserFilter)
    ensures f.userId == cfg.userId && f.enabled == cfg.enabled && f.telegramChatId == Some(chatId)
    ensures f.excludeCategories == cfg.excludeCategories.GetOr([])
    ensures cfg.selectedCategories.GetOr([]) != [] ==> f.selectedCategories == cfg.selectedCategories.value
  {
    var excluded := cfg.excludeCategories.GetOr([]);
    UserFilter(
      cfg.userId,
      cfg.minNotionalUsd.GetOr(0.0),
      cfg.minPrice.GetOr(0.0),
      cfg.maxPrice.GetOr(1.0),
      cfg.sides.GetOr(["BUY", "SELL"]),
      cfg.marketsFilter.GetOr([]),
      cfg.categoryFilter.GetOr([]),
      excluded,
      Migrated(cfg.selectedCategories.GetOr([]), excluded),
      cfg.enabled,
      Some(chatId))
  }

  /** The filters one config contributes: none or one. */
  function FilterOf(cfg: ConfigDoc, accounts: seq<TelegramAccount>): seq<UserFilter> {
    if !cfg.enabled || cfg.userId == "" then []
    else
      match FindActiveAccount(accounts, cfg.userId)
      case None => []
      case Some(a) => [BuildUserFilter(cfg, a.chatId)]
  }

  /** What `get_all_user_filters` returns for the given collections. */
  function FiltersFromStore(configs: seq<ConfigDoc>, accounts: seq<TelegramAccount>): (r: seq<UserFilter>)
    ensures |r| <= |configs|
  {
    if configs == [] then []
    else FiltersFromStore(configs[..|configs| - 1], accounts) + FilterOf(configs[|configs| - 1], accounts)
  }

  /**
   * Every loaded filter comes from an enabled config with a non-empty user id and
   * carries the chat id of an active account of that user.
   */
  lemma {:induction false} LoadedFiltersHaveAccounts(configs: seq<ConfigDoc>, accounts: seq<TelegramAccount>)
    ensures forall f :: f in FiltersFromStore(configs, accounts) ==>
      f.userId != "" && f.enabled &&
      exists a :: a in accounts && a.userId == f.userId && a.isActive && f.telegramChatId == Some(a.chatId)
  {
    if configs != [] {
      LoadedFiltersHaveAccounts(configs[..|configs| - 1], accounts);
    }
  }

  /** A config's filter is among the loaded filters. */
  lemma {:induction false} FiltersFromStoreHas(configs: seq<ConfigDoc>, accounts: seq<TelegramAccount>, c: nat)
    requires c < |configs|
    ensures forall f :: f in FilterOf(configs[c], accounts) ==> f in FiltersFromStore(configs, accounts)
  {
    var n := |configs| - 1;
    var init := configs[..n];
    assert FiltersFromStore(configs, accounts) ==
      FiltersFromStore(init, accounts) + FilterOf(configs[n], accounts);
    if c < n {
      assert init[c] == configs[c];
      FiltersFromStoreHas(init, accounts, c);
    }
  }

  /** A config with an empty user id, or without an active account, yields no filter. */
  lemma SkippedConfigs(cfg: ConfigDoc, accounts: seq<TelegramAccount>)
    ensures cfg.userId == "" ==> FilterOf(cfg, accounts) == []
    ensures (forall a :: a in accounts ==> !(a.userId == cfg.userId && a.isActive)) ==> FilterOf(cfg, accounts) == []
  {
    if forall a :: a in accounts ==> !(a.userId == cfg.userId && a.isActive) {
      assert FindActiveAccount(accounts, cfg.userId).None?;
    }
  }

  /** Missing thresholds default to 0, 0 and 1, and missing sides to both sides. */
  lemma FilterDefaults(cfg: ConfigDoc, chatId: string)
    requires cfg.minNotionalUsd.None? && cfg.minPrice.None? && cfg.maxPrice.None? && cfg.sides.None?
    ensures var f := BuildUserFilter(cfg, chatId);
      f.minNotionalUsd == 0.0 && f.minPrice == 0.0 && f.maxPrice == 1.0 && f.sides == ["BUY", "SELL"]
  {
  }

  /** Account `i` is the first one carrying the chat id. */
  predicate FirstWithChat(accounts: seq<TelegramAccount>, chatId: string, i: nat)
    requires i < |accounts|
  {
    accounts[i].chatId == chatId && forall j :: 0 <= j < i ==> accounts[j].chatId != chatId
  }

  /** `update_one({'chatId': c}, {'$set': {'isActive': False}})`: the first account with that chat id is deactivated. */
  function Deactivated(accounts: seq<TelegramAccount>, chatId: string): (r: seq<TelegramAccount>)
    ensures |r| == |accounts|
    ensures forall i :: 0 <= i < |r| ==> r[i].userId == accounts[i].userId && r[i].chatId == accounts[i].chatId
    ensures forall i :: 0 <= i < |r| ==>
      r[i].isActive == (accounts[i].isActive && !FirstWithChat(accounts, chatId, i))
  {
    if accounts == [] then []
    else if accounts[0].chatId == chatId then [accounts[0].(isActive := false)] + accounts[1..]
    else [accounts[0]] + Deactivated(accounts[1..], chatId)
  }

  /** After deactivating the only account with a chat id, no loaded filter carries that chat id. */
  lemma DeactivatedChatGetsNoFilter(configs: seq<ConfigDoc>, accounts: seq<TelegramAccount>, chatId: string,
                                    k: nat)
    requires k < |accounts| && accounts[k].chatId == chatId
    requires forall i :: 0 <= i < |accounts| && i != k ==> accounts[i].chatId != chatId
    ensures forall f :: f in FiltersFromStore(configs, Deactivated(accounts, chatId)) ==>
      f.telegramChatId != Some(chatId)
  {
    var after := Deactivated(accounts, chatId);
    DeactivatedOnly(accounts, chatId, k);
    LoadedFiltersHaveAccounts(configs, after);
  }

  lemma {:induction false} DeactivatedOnly(accounts: seq<TelegramAccount>, chatId: string, k: nat)
    requires k < |accounts| && accounts[k].chatId == chatId
    requires forall i :: 0 <= i < |accounts| && i != k ==> accounts[i].chatId != chatId
    ensures forall a :: a in Deactivated(accounts, chatId) && a.chatId == chatId ==> !a.isActive
  {
    if accounts[0].chatId != chatId {
      DeactivatedOnly(accounts[1..], chatId, k - 1);
    } else {
      assert k == 0;
    }
  }

  // ---------- dedup set, marker, market cache ----------

  /** The default lifetime of a dedup record, in minutes. */
  const DefaultTtlMinutes: int := 15

  /** The market cache's freshness window: 24 hours in seconds. */
  const MarketCacheTtlSeconds: real := 86400.0

  /** The dedup set after `mark_trade_as_processed(key, ttl)` at `now`: one record per key. */
  function MarkProcessed(processed: map<string, real>, key: string, ttlMinutes: int, now: real): map<string, real> {
    processed[key := now + (ttlMinutes * 60) as real]
  }

  /** `is_trade_processed`: a record exists and has not expired. */
  predicate IsProcessed(processed: map<string, real>, key: string, now: real) {
    key in processed && processed[key] > now
  }

  /** A key marked at time t counts as processed exactly while now < t + ttl minutes; other keys are untouched. */
  lemma ProcessedWindow(processed: map<string, real>, key: string, ttlMinutes: int, t: real, now: real, other: string)
    requires other != key
    ensures IsProcessed(MarkProcessed(processed, key, ttlMinutes, t), key, now) <==> now < t + (ttlMinutes * 60) as real
    ensures IsProcessed(MarkProcessed(processed, key, ttlMinutes, t), other, now) == IsProcessed(processed, other, now)
  {
  }

  /** The marker read back from the cursor document. */
  function MarkerOf(doc: Option<MarkerDoc>): Option<TradeMarker> {
    match doc
    case None => None
    case Some(d) => Some(TradeMarker(d.lastProcessedTimestamp, d.lastProcessedTxHash, Some(d.updatedAt)))
  }

  /** Reading after a write returns the written timestamp and hash, stamped with the write time. */
  lemma MarkerRoundTrip(m: TradeMarker, now: real)
    ensures MarkerOf(None).None?
    ensures MarkerOf(Some(MarkerDoc(m.lastProcessedTimestamp, m.lastProcessedTxHash, now))) ==
      Some(m.(updatedAt := Some(now)))
  {
  }

  /** A cache entry that `get_or_upsert_market` returns without refetching. */
  function CacheHit(markets: map<string, CachedMarket>, conditionId: string, now: real): Option<MarketMetadata> {
    if conditionId !in markets then None
    else
      var c := markets[conditionId];
      match c.updatedAt
      case NoUpdatedAt => None
      case At(t) => if now - t < MarketCacheTtlSeconds then Some(c.meta.(conditionId := conditionId)) else None
      case NotADatetime => Some(c.meta.(conditionId := conditionId))
  }

  /** An entry stored at time t is served exactly while it is younger than 24 hours. */
  lemma MarketFreshness(markets: map<string, CachedMarket>, conditionId: string, md: MarketMetadata, t: real, now: real)
    ensures var stored := markets[conditionId := CachedMarket(md, At(t))];
      CacheHit(stored, conditionId, now).Some? <==> now - t < MarketCacheTtlSeconds
    ensures var stored := markets[conditionId := CachedMarket(md, At(t))];
      CacheHit(stored, conditionId, now).Some? ==> CacheHit(stored, conditionId, now).value == md.(conditionId := conditionId)
  {
  }

  /** The shared rule of the gamma caches: non-empty cached data wins, then non-empty provided data is stored. */
  function GetOrCache<T(==)>(doc: Option<GammaDoc<T>>, provided: Option<T>, empty: T, now: real)
    : (r: (T, Option<GammaDoc<T>>))
    ensures doc.Some? && doc.value.data != empty ==> r == (doc.value.data, doc)
    ensures !(doc.Some? && doc.value.data != empty) && provided.Some? && provided.value != empty ==>
      r == (provided.value, Some(GammaDoc(provided.value, now)))
    ensures !(doc.Some? && doc.value.data != empty) && !(provided.Some? && provided.value != empty) ==>
      r == (empty, doc)
  {
    if doc.Some? && doc.value.data != empty then (doc.value.data, doc)
    else if provided.Some? && provided.value != empty then (provided.value, Some(GammaDoc(provided.value, now)))
    else (empty, doc)
  }

  /** Once non-empty data is cached, later calls return it whatever they provide, and write nothing. */
  lemma GetOrCacheStable<T>(doc: Option<GammaDoc<T>>, provided: Option<T>, later: Option<T>, empty: T,
                                now: real, now2: real)
    ensures var (v, d) := GetOrCache(doc, provided, empty, now);
      v != empty ==> GetOrCache(d, later, empty, now2) == (v, d)
  {
  }

  // ---------- the store ----------

  class Database {
    /** Whether the `filterReloadSignals` document `global` exists. */
    var reloadSignal: bool
    var configs: seq<ConfigDoc>
    var telegramAccounts: seq<TelegramAccount>
    var cursor: Option<MarkerDoc>
    /** `processedTrades`: key to `expiresAt`. */
    var processedTrades: map<string, real>
    var markets: map<string, CachedMarket>
    var sportsTagIds: Option<GammaDoc<set<string>>>
    var tagsDictionary: Option<GammaDoc<map<string, TagInfo>>>
    var tagCategoryMappings: map<string, TagMapping>

    constructor(configs: seq<ConfigDoc>, accounts: seq<TelegramAccount>)
      ensures this.configs == configs && telegramAccounts == accounts
      ensures !reloadSignal && cursor.None? && processedTrades == map[] && markets == map[]
      ensures sportsTagIds.None? && tagsDictionary.None? && tagCategoryMappings == map[]
    {
      this.configs := configs;
      telegramAccounts := accounts;
      reloadSignal := false;
      cursor := None;
      processedTrades := map[];
      markets := map[];
      sportsTagIds := None;
      tagsDictionary := None;
      tagCategoryMappings := map[];
    }

    /** `check_filter_reload_signal`. */
    method CheckFilterReloadSignal() returns (present: bool)
      ensures present == reloadSignal
    {
      present := reloadSignal;
    }

    /** `clear_filter_reload_signal`. */
    method ClearFilterReloadSignal()
      modifies this`reloadSignal
      ensures !reloadSignal
    {
      reloadSignal := false;
    }

    /** `get_all_user_filters`: enabled configs joined with active telegram accounts, migrated. */
    method GetAllUserFilters() returns (filters: seq<UserFilter>)
      ensures filters == FiltersFromStore(configs, telegramAccounts)
    {
      filters := [];
      for i := 0 to |configs|
        invariant filters == FiltersFromStore(configs[..i], telegramAccounts)
      {
        var cfg := configs[i];
        assert configs[..i + 1][..i] == configs[..i];
        if !cfg.enabled || cfg.userId == "" {
          continue;
        }
        var account := FindActiveAccount(telegramAccounts, cfg.userId);
        if account.None? {
          continue;
        }
        var selected := cfg.selectedCategories.GetOr([]);
        var excluded := cfg.excludeCategories.GetOr([]);
        if selected == [] && excluded != [] {
          var canonical := NormalizeAll(excluded, Normalize);
          selected := Seqs.Filter(AllCategories, c => c !in canonical);
        }
        filters := filters + [UserFilter(
          cfg.userId, cfg.minNotionalUsd.GetOr(0.0), cfg.minPrice.GetOr(0.0), cfg.maxPrice.GetOr(1.0),
          cfg.sides.GetOr(["BUY", "SELL"]), cfg.marketsFilter.GetOr([]), cfg.categoryFilter.GetOr([]),
          excluded, selected, cfg.enabled, Some(account.value.chatId))];
      }
      assert configs[..|configs|] == configs;
    }

    /** `get_last_processed_trade_marker`. */
    method GetLastProcessedTradeMarker() returns (m: Option<TradeMarker>)
      ensures m == MarkerOf(cursor)
    {
      m := MarkerOf(cursor);
    }

    /** `set_last_processed_trade_marker`: upsert of the single cursor document. */
    method SetLastProcessedTradeMarker(m: TradeMarker, now: real)
      modifies this`cursor
      ensures cursor == Some(MarkerDoc(m.lastProcessedTimestamp, m.lastProcessedTxHash, now))
    {
      cursor := Some(MarkerDoc(m.lastProcessedTimestamp, m.lastProcessedTxHash, now));
    }

    /** `mark_trade_as_processed`. */
    method MarkTradeAsProcessed(key: string, ttlMinutes: int, now: real)
      modifies this`processedTrades
      ensures processedTrades == MarkProcessed(old(processedTrades), key, ttlMinutes, now)
    {
      processedTrades := MarkProcessed(processedTrades, key, ttlMinutes, now);
    }

    /** `is_trade_processed`. */
    method IsTradeProcessed(key: string, now: real) returns (seen: bool)
      ensures seen == IsProcessed(processedTrades, key, now)
    {
      seen := key in processedTrades && processedTrades[key] > now;
    }

    /**
     * `get_or_upsert_market`: a fresh cache entry wins over `provided`; otherwise
     * provided metadata is stored with the current time and returned; otherwise none.
     */
    method GetOrUpsertMarket(conditionId: string, provided: Option<MarketMetadata>, now: real)
      returns (r: Option<MarketMetadata>)
      modifies this`markets
      ensures CacheHit(old(markets), conditionId, now).Some? ==>
        r == CacheHit(old(markets), conditionId, now) && markets == old(markets)
      ensures CacheHit(old(markets), conditionId, now).None? && provided.Some? ==>
        r == provided && markets == old(markets)[conditionId := CachedMarket(provided.value, At(now))]
      ensures CacheHit(old(markets), conditionId, now).None? && provided.None? ==>
        r.None? && markets == old(markets)
    {
      r := CacheHit(markets, conditionId, now);
      if r.None? && provided.Some? {
        markets := markets[conditionId := CachedMarket(provided.value, At(now))];
        r := provided;
      }
    }

    /** `get_or_cache_sports_tag_ids`. */
    method GetOrCacheSportsTagIds(provided: Option<set<string>>, now: real) returns (ids: set<string>)
      modifies this`sportsTagIds
      ensures (ids, sportsTagIds) == GetOrCache(old(sportsTagIds), provided, {}, now)
    {
      var (v, d) := GetOrCache(sportsTagIds, provided, {}, now);
      ids, sportsTagIds := v, d;
    }

    /** `get_or_cache_tags_dictionary`. */
    method GetOrCacheTagsDictionary(provided: Option<map<string, TagInfo>>, now: real)
      returns (dict: map<string, TagInfo>)
      modifies this`tagsDictionary
      ensures (dict, tagsDictionary) == GetOrCache(old(tagsDictionary), provided, map[], now)
    {
      var (v, d) := GetOrCache(tagsDictionary, provided, map[], now);
      dict, tagsDictionary := v, d;
    }

    /** The account update behind deactivating a chat that blocked the bot or does not exist. */
    method DeactivateChat(chatId: string)
      modifies this`telegramAccounts
      ensures telegramAccounts == Deactivated(old(telegramAccounts), chatId)
    {
      telegramAccounts := Deactivated(telegramAccounts, chatId);
    }
  }
}
