/**
 * The worker's records: a trade fill with its two keys, the aggregate of several
 * fills, a market's metadata, a user's filter and the last-processed-trade marker.
 * Prices and sizes are real numbers; the floating-point rounding of the running
 * program is not modelled.
 */
module Types {
  import opened Wrappers
  import Text

  /** One fill as returned by the trades endpoint. */
  datatype Trade = Trade(
    transactionHash: string,
    proxyWallet: string,
    side: string,
    size: real,
    price: real,
    conditionId: Option<string>,
    outcome: Option<string>,
    timestamp: int)
  {
    /** The USD value of the fill. */
    function Notional(): real {
      size * price
    }
  }

  // ---------- fill key ----------

  /** The text a fill key holds for an optional field: its value when truthy, "None" otherwise. */
  function KeyText(o: Option<string>): string {
    if Truthy(o) then o.value else "None"
  }

  /**
   * The seven colon-separated fields of a fill key. `repr` is Python's rendering
   * of a float, which is not modelled.
   */
  function FillKeyFields(t: Trade, repr: real -> string): seq<string> {
    [t.transactionHash, t.proxyWallet, KeyText(t.conditionId), KeyText(t.outcome),
     t.side, repr(t.size), repr(t.price)]
  }

  /** `Trade.get_fill_key`. */
  function FillKey(t: Trade, repr: real -> string): string {
    Text.Join(FillKeyFields(t, repr), ":")
  }

  predicate ColonFree(t: Trade, repr: real -> string) {
    forall k :: 0 <= k < 7 ==> ':' !in FillKeyFields(t, repr)[k]
  }

  /** When no field contains ':', the fill key can be split back into its seven fields. */
  lemma FillKeyDecodes(t: Trade, repr: real -> string)
    requires ColonFree(t, repr)
    ensures Text.Split(FillKey(t, repr), ':') == FillKeyFields(t, repr)
  {
    Text.SplitJoin(FillKeyFields(t, repr), ':');
  }

  /**
   * Two colon-free fills with the same fill key agree on hash, wallet, side,
   * the rendered size and price, and on condition and outcome up to the "None"
   * stand-in for a missing value.
   */
  lemma FillKeyInjective(t1: Trade, t2: Trade, repr: real -> string)
    requires ColonFree(t1, repr) && ColonFree(t2, repr)
    requires FillKey(t1, repr) == FillKey(t2, repr)
    ensures t1.transactionHash == t2.transactionHash && t1.proxyWallet == t2.proxyWallet
    ensures t1.side == t2.side && repr(t1.size) == repr(t2.size) && repr(t1.price) == repr(t2.price)
    ensures KeyText(t1.conditionId) == KeyText(t2.conditionId)
    ensures KeyText(t1.outcome) == KeyText(t2.outcome)
  {
    FillKeyDecodes(t1, repr);
    FillKeyDecodes(t2, repr);
    assert FillKeyFields(t1, repr) == FillKeyFields(t2, repr);
  }

  // ---------- aggregation key ----------

  datatype AggregationKey = AggregationKey(
    transactionHash: string,
    proxyWallet: string,
    conditionId: Option<string>,
    outcome: Option<string>,
    side: string)

  /** A falsy optional string (missing or empty) becomes `None`. */
  function Normalized(o: Option<string>): (r: Option<string>)
    ensures r.Some? <==> Truthy(o)
    ensures r.Some? ==> r == o
  {
    if Truthy(o) then o else None
  }

  /** `Trade.get_aggregation_key`. */
  function AggregationKeyOf(t: Trade): AggregationKey {
    AggregationKey(t.transactionHash, t.proxyWallet, Normalized(t.conditionId),
                   Normalized(t.outcome), t.side)
  }

  /**
   * Fills with the same aggregation key agree on the first five fill-key fields,
   * and the aggregation key keeps exactly hash, wallet, condition, outcome and side.
   */
  lemma AggregationKeyRefinesFillKey(t1: Trade, t2: Trade, repr: real -> string)
    ensures AggregationKeyOf(t1) == AggregationKeyOf(t2) ==>
      FillKeyFields(t1, repr)[..5] == FillKeyFields(t2, repr)[..5]
    ensures AggregationKeyOf(t1) == AggregationKeyOf(t2) <==>
      t1.transactionHash == t2.transactionHash && t1.proxyWallet == t2.proxyWallet &&
      t1.side == t2.side && Normalized(t1.conditionId) == Normalized(t2.conditionId) &&
      Normalized(t1.outcome) == Normalized(t2.outcome)
  {
  }

  // ---------- aggregated trade ----------

  /** Several fills of one transaction combined into one whale trade. */
  datatype AggregatedTrade = AggregatedTrade(
    transactionHash: string,
    proxyWallet: string,
    side: string,
    conditionId: Option<string>,
    outcome: Option<string>,
    totalSize: real,
    totalNotionalUsd: real,
    vwapPrice: real,
    timestamp: int,
    fillCount: int)

  function SumSize(fills: seq<Trade>): real {
    if fills == [] then 0.0 else fills[0].size + SumSize(fills[1..])
  }

  function SumNotional(fills: seq<Trade>): real {
    if fills == [] then 0.0 else fills[0].Notional() + SumNotional(fills[1..])
  }

  /** `max(fill.timestamp for fill in fills)`. */
  function MaxTimestamp(fills: seq<Trade>): (r: int)
    requires fills != []
    ensures forall i :: 0 <= i < |fills| ==> fills[i].timestamp <= r
    ensures exists i :: 0 <= i < |fills| && fills[i].timestamp == r
  {
    if |fills| == 1 then fills[0].timestamp
    else
      var rest := MaxTimestamp(fills[1..]);
      assert forall i :: 1 <= i < |fills| ==> fills[i] == fills[1..][i - 1];
      if fills[0].timestamp >= rest then fills[0].timestamp else rest
  }

  /** Volume-weighted average price, guarded against a zero total size. */
  function Vwap(notional: real, size: real): real {
    if size > 0.0 then notional / size else 0.0
  }

  /** The VWAP times the total size recovers the notional. */
  lemma VwapScales(notional: real, size: real)
    requires size > 0.0
    ensures Vwap(notional, size) * size == notional
  {
  }

  /**
   * `AggregatedTrade.from_fills`: an empty list is an error; otherwise the
   * common fields come from the first fill, sizes and notionals are summed and
   * the timestamp is the latest one.
   */
  function FromFills(fills: seq<Trade>): (r: Result<AggregatedTrade, string>)
    ensures r.Failure? <==> fills == []
    ensures r.Success? ==>
      r.value.transactionHash == fills[0].transactionHash && r.value.proxyWallet == fills[0].proxyWallet &&
      r.value.side == fills[0].side && r.value.conditionId == fills[0].conditionId &&
      r.value.outcome == fills[0].outcome
    ensures r.Success? ==>
      r.value.totalSize == SumSize(fills) && r.value.totalNotionalUsd == SumNotional(fills) &&
      r.value.fillCount == |fills|
    ensures r.Success? ==>
      (forall i :: 0 <= i < |fills| ==> fills[i].timestamp <= r.value.timestamp) &&
      (exists i :: 0 <= i < |fills| && fills[i].timestamp == r.value.timestamp)
  {
    if fills == [] then Failure("Cannot aggregate empty list of fills")
    else
      var first := fills[0];
      var totalSize := SumSize(fills);
      var totalNotional := SumNotional(fills);
      Success(AggregatedTrade(
        first.transactionHash, first.proxyWallet, first.side, first.conditionId, first.outcome,
        totalSize, totalNotional, Vwap(totalNotional, totalSize), MaxTimestamp(fills), |fills|))
  }

  /** The aggregate's VWAP is the notional per unit of size, and 0 when the total size is not positive. */
  lemma FromFillsVwap(fills: seq<Trade>)
    requires fills != []
    ensures var a := FromFills(fills).value;
      (a.totalSize > 0.0 ==> a.vwapPrice * a.totalSize == a.totalNotionalUsd) &&
      (a.totalSize <= 0.0 ==> a.vwapPrice == 0.0)
  {
    var a := FromFills(fills).value;
    if a.totalSize > 0.0 {
      VwapScales(a.totalNotionalUsd, a.totalSize);
    }
  }

  lemma {:induction false} SumsAppend(a: seq<Trade>, b: seq<Trade>)
    ensures SumSize(a + b) == SumSize(a) + SumSize(b)
    ensures SumNotional(a + b) == SumNotional(a) + SumNotional(b)
  {
    if a != [] {
      assert (a + b)[1..] == a[1..] + b;
      SumsAppend(a[1..], b);
    } else {
      assert a + b == b;
    }
  }

  /** Aggregating two batches of fills and adding the totals equals aggregating them together. */
  lemma FromFillsAppend(a: seq<Trade>, b: seq<Trade>)
    requires a != [] && b != []
    ensures FromFills(a + b).value.totalSize == FromFills(a).value.totalSize + FromFills(b).value.totalSize
    ensures FromFills(a + b).value.totalNotionalUsd ==
      FromFills(a).value.totalNotionalUsd + FromFills(b).value.totalNotionalUsd
    ensures FromFills(a + b).value.fillCount == FromFills(a).value.fillCount + FromFills(b).value.fillCount
    ensures FromFills(a + b).value.timestamp ==
      if FromFills(a).value.timestamp >= FromFills(b).value.timestamp
      then FromFills(a).value.timestamp else FromFills(b).value.timestamp
  {
    SumsAppend(a, b);
    var m, ma, mb := MaxTimestamp(a + b), MaxTimestamp(a), MaxTimestamp(b);
    assert forall i :: 0 <= i < |a| ==> (a + b)[i] == a[i];
    assert forall i :: 0 <= i < |b| ==> (a + b)[|a| + i] == b[i];
    var k :| 0 <= k < |a + b| && (a + b)[k].timestamp == m;
    if k < |a| {
      assert (a + b)[k] == a[k];
    } else {
      assert (a + b)[k] == b[k - |a|];
    }
  }

  /** With non-negative sizes, the notional sum lies between the size sum scaled by the least and greatest price. */
  lemma {:induction false} NotionalBetween(fills: seq<Trade>, lo: real, hi: real)
    requires forall i :: 0 <= i < |fills| ==> fills[i].size >= 0.0 && lo <= fills[i].price <= hi
    ensures lo * SumSize(fills) <= SumNotional(fills) <= hi * SumSize(fills)
  {
    if fills != [] {
      var f := fills[0];
      NotionalBetween(fills[1..], lo, hi);
      assert f.size * lo <= f.size * f.price <= f.size * hi by {
        assert f.size * (f.price - lo) >= 0.0;
        assert f.size * (hi - f.price) >= 0.0;
      }
    }
  }

  /**
   * The VWAP of fills with non-negative sizes lies within their price range; when
   * the total size is zero it is 0.
   */
  lemma VwapWithinPriceRange(fills: seq<Trade>, lo: real, hi: real)
    requires fills != []
    requires forall i :: 0 <= i < |fills| ==> fills[i].size >= 0.0 && lo <= fills[i].price <= hi
    ensures var a := FromFills(fills).value;
      (a.totalSize > 0.0 ==> lo <= a.vwapPrice <= hi) && (a.totalSize <= 0.0 ==> a.vwapPrice == 0.0)
  {
    var n, s := SumNotional(fills), SumSize(fills);
    NotionalBetween(fills, lo, hi);
    if s > 0.0 {
      VwapBounds(n, s, lo, hi);
    }
  }

  lemma VwapBounds(n: real, s: real, lo: real, hi: real)
    requires s > 0.0 && lo * s <= n <= hi * s
    ensures lo <= Vwap(n, s) <= hi
  {
    var v := Vwap(n, s);
    VwapScales(n, s);
    assert (v - lo) * s >= 0.0;
    assert (hi - v) * s >= 0.0;
  }

  /** A single fill with positive size aggregates to itself: VWAP is its price. */
  lemma SingleFill(t: Trade)
    requires t.size > 0.0
    ensures var a := FromFills([t]).value;
      a.vwapPrice == t.price && a.totalSize == t.size && a.totalNotionalUsd == t.Notional() &&
      a.timestamp == t.timestamp && a.fillCount == 1
  {
    assert [t][1..] == [];
    assert SumSize([t]) == t.size + SumSize([]);
    assert SumNotional([t]) == t.Notional() + SumNotional([]);
    VwapScales(t.Notional(), t.size);
    assert Vwap(t.Notional(), t.size) * t.size == t.price * t.size;
  }

  // ---------- market metadata, filters and marker ----------

  /** A market's metadata as built from the markets endpoint or read from the cache. */
  datatype MarketMetadata = MarketMetadata(
    conditionId: string,
    title: string,
    slug: Option<string>,
    description: Option<string>,
    imageUrl: Option<string>,
    category: Option<string>,
    subcategory: Option<string>,
    tags: seq<string>,
    tagIds: seq<string>,
    isSports: bool,
    categories: seq<string>)

  /** One user's alert filter. */
  datatype UserFilter = UserFilter(
    userId: string,
    minNotionalUsd: real,
    minPrice: real,
    maxPrice: real,
    sides: seq<string>,
    marketsFilter: seq<string>,
    categoryFilter: seq<string>,
    excludeCategories: seq<string>,
    selectedCategories: seq<string>,
    enabled: bool,
    telegramChatId: Option<string>)

  /**
   * A tag dictionary entry: the source's 'label' and 'slug' (renamed because `label` is a
   * Dafny keyword); the publication and audit timestamps are not modelled.
   */
  datatype TagInfo = TagInfo(tagLabel: string, tagSlug: string)

  /** The last processed trade; `updatedAt` is seconds since the epoch. */
  datatype TradeMarker = TradeMarker(
    lastProcessedTimestamp: int,
    lastProcessedTxHash: Option<string>,
    updatedAt: Option<real>)
}
