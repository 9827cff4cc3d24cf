/**
 * The poll cycle of `run_worker`: decide whether to reload the filters, fetch the
 * recent trades, keep the ones not yet processed up to the cursor, fetch metadata
 * for unknown markets, mark each trade processed before matching it, queue the
 * alerts, and move the cursor to the newest trade.
 */
module Worker {
  import opened Wrappers
  import Seqs
  import Text
  import opened Types
  import Filters
  import Db
  import PolymarketClient
  import Notifications
  import Dispatcher
  import Time

  /** The default `POLL_INTERVAL_SECONDS`. */
  const DefaultPollIntervalSeconds: real := 10.0

  // ---------- reload decision ----------

  datatype ReloadReason = SettingsChanged | PeriodicRefresh

  /** The signal wins; otherwise the interval since the last reload decides. */
  function ReloadDecision(signal: bool, now: real, lastReload: real, interval: real): (r: Option<ReloadReason>)
    ensures r.Some? <==> signal || now - lastReload >= interval
    ensures r == Some(SettingsChanged) <==> signal
  {
    if signal then Some(SettingsChanged)
    else if now - lastReload >= interval then Some(PeriodicRefresh)
    else None
  }

  // ---------- change detection ----------

  /** `{f.user_id: f for f in filters}`: a later filter for the same user replaces an earlier one. */
  function ByUserId(filters: seq<UserFilter>): map<string, UserFilter> {
    if filters == [] then map[]
    else
      var last := filters[|filters| - 1];
      ByUserId(filters[..|filters| - 1])[last.userId := last]
  }

  /** Each user maps to that user's last filter. */
  lemma {:induction false} ByUserIdLastWins(filters: seq<UserFilter>, i: nat)
    requires i < |filters|
    requires forall j :: i < j < |filters| ==> filters[j].userId != filters[i].userId
    ensures filters[i].userId in ByUserId(filters) && ByUserId(filters)[filters[i].userId] == filters[i]
  {
    if i < |filters| - 1 {
      var init := filters[..|filters| - 1];
      assert forall j :: i < j < |init| ==> init[j] == filters[j];
      ByUserIdLastWins(init, i);
    }
  }

  lemma {:induction false} ByUserIdKeys(filters: seq<UserFilter>, id: string)
    ensures id in ByUserId(filters) <==> exists i :: 0 <= i < |filters| && filters[i].userId == id
  {
    if filters != [] {
      var init := filters[..|filters| - 1];
      ByUserIdKeys(init, id);
      assert forall i :: 0 <= i < |init| ==> init[i] == filters[i];
    }
  }

  /** The compared fields differ: thresholds, enabled, or the sides as a set. */
  predicate ValuesDiffer(o: UserFilter, n: UserFilter) {
    o.minNotionalUsd != n.minNotionalUsd || o.minPrice != n.minPrice || o.maxPrice != n.maxPrice ||
    Filters.SetOf(o.sides) != Filters.SetOf(n.sides) || o.enabled != n.enabled
  }

  /** Whether a reload counts as a change. */
  predicate FiltersChanged(oldFilters: seq<UserFilter>, newFilters: seq<UserFilter>) {
    |oldFilters| != |newFilters| ||
    exists i :: 0 <= i < |newFilters| && newFilters[i].userId in ByUserId(oldFilters) &&
      ValuesDiffer(ByUserId(oldFilters)[newFilters[i].userId], newFilters[i])
  }

  /** Reloading the same filters, one per user, is not a change, whatever the order of the sides. */
  lemma {:induction false} SameFiltersUnchanged(filters: seq<UserFilter>, reordered: seq<UserFilter>)
    requires forall i, j :: 0 <= i < j < |filters| ==> filters[i].userId != filters[j].userId
    requires |reordered| == |filters|
    requires forall i :: 0 <= i < |filters| ==>
      reordered[i] == filters[i].(sides := reordered[i].sides) && Filters.SetOf(reordered[i].sides) == Filters.SetOf(filters[i].sides)
    ensures !FiltersChanged(filters, reordered)
  {
    forall i | 0 <= i < |reordered|
      ensures !(reordered[i].userId in ByUserId(filters) && ValuesDiffer(ByUserId(filters)[reordered[i].userId], reordered[i]))
    {
      ByUserIdLastWins(filters, i);
    }
  }

  /** A filter whose threshold moved is a change, even with the same number of filters. */
  lemma ThresholdChangeDetected(filters: seq<UserFilter>, k: nat, threshold: real)
    requires k < |filters| && threshold != filters[k].minNotionalUsd
    requires forall i, j :: 0 <= i < j < |filters| ==> filters[i].userId != filters[j].userId
    ensures FiltersChanged(filters, filters[k := filters[k].(minNotionalUsd := threshold)])
  {
    ByUserIdLastWins(filters, k);
    var changed := filters[k := filters[k].(minNotionalUsd := threshold)];
    assert changed[k].userId in ByUserId(filters) && ValuesDiffer(ByUserId(filters)[changed[k].userId], changed[k]);
  }

  // ---------- new-trade selection ----------

  /** The cursor hash: the marker's hash when there is a marker and the hash is non-empty. */
  function CursorOf(marker: Option<TradeMarker>): Option<string> {
    if marker.Some? && Truthy(marker.value.lastProcessedTxHash) then marker.value.lastProcessedTxHash else None
  }

  /** The trades before the cursor, in order, that the dedup set has not seen. */
  function SelectNew(trades: seq<Trade>, cursor: Option<string>, processed: map<string, real>, now: real)
    : (r: seq<Trade>)
    ensures |r| <= |trades|
  {
    if trades == [] then []
    else if cursor.Some? && trades[0].transactionHash == cursor.value then []
    else
      (if Db.IsProcessed(processed, trades[0].transactionHash, now) then [] else [trades[0]]) +
      SelectNew(trades[1..], cursor, processed, now)
  }

  /** The position of the first trade with the hash, or the length when there is none. */
  function CursorIndex(trades: seq<Trade>, hash: string): (k: nat)
    ensures k <= |trades| && (k < |trades| ==> trades[k].transactionHash == hash)
    ensures forall j :: 0 <= j < k ==> trades[j].transactionHash != hash
  {
    if trades == [] then 0
    else if trades[0].transactionHash == hash then 0
    else 1 + CursorIndex(trades[1..], hash)
  }

  /** With a cursor, the selection is the cursor-free selection of the trades before the cursor. */
  lemma {:induction false} SelectNewCutsAtCursor(trades: seq<Trade>, c: string, processed: map<string, real>, now: real)
    ensures SelectNew(trades, Some(c), processed, now) ==
            SelectNew(trades[..CursorIndex(trades, c)], None, processed, now)
  {
    if trades != [] && trades[0].transactionHash != c {
      SelectNewCutsAtCursor(trades[1..], c, processed, now);
      assert trades[..CursorIndex(trades, c)][1..] == trades[1..][..CursorIndex(trades[1..], c)];
    }
  }

  /** Without a cursor, the selection holds exactly the trades the dedup set has not seen. */
  lemma {:induction false} SelectNewMembers(trades: seq<Trade>, processed: map<string, real>, now: real)
    ensures forall t :: t in SelectNew(trades, None, processed, now) <==>
      t in trades && !Db.IsProcessed(processed, t.transactionHash, now)
  {
    if trades != [] {
      SelectNewMembers(trades[1..], processed, now);
      assert trades == [trades[0]] + trades[1..];
    }
  }

  /** Every selected trade is in the response and unseen by the dedup set, with or without a cursor. */
  lemma {:induction false} SelectNewUnprocessed(trades: seq<Trade>, cursor: Option<string>,
                                                processed: map<string, real>, now: real)
    ensures forall t :: t in SelectNew(trades, cursor, processed, now) ==>
      t in trades && !Db.IsProcessed(processed, t.transactionHash, now)
  {
    if trades != [] && !(cursor.Some? && trades[0].transactionHash == cursor.value) {
      SelectNewUnprocessed(trades[1..], cursor, processed, now);
      assert trades == [trades[0]] + trades[1..];
    }
  }

  /** Every selected trade sits at or after the start of the list in sorted position, before the cursor. */
  lemma {:induction false} SelectNewBeforeCursor(trades: seq<Trade>, cursor: Option<string>,
                                                 processed: map<string, real>, now: real)
    ensures forall t :: t in SelectNew(trades, cursor, processed, now) ==>
      exists i :: 0 <= i < |trades| && trades[i] == t &&
        (cursor.Some? ==> forall j :: 0 <= j <= i ==> trades[j].transactionHash != cursor.value)
  {
    if trades != [] && !(cursor.Some? && trades[0].transactionHash == cursor.value) {
      SelectNewBeforeCursor(trades[1..], cursor, processed, now);
      forall t | t in SelectNew(trades, cursor, processed, now)
        ensures exists i :: (0 <= i < |trades| && trades[i] == t &&
          (cursor.Some? ==> forall j :: 0 <= j <= i ==> trades[j].transactionHash != cursor.value))
      {
        if t in SelectNew(trades[1..], cursor, processed, now) {
          var i :| 0 <= i < |trades[1..]| && trades[1..][i] == t &&
            (cursor.Some? ==> forall j :: 0 <= j <= i ==> trades[1..][j].transactionHash != cursor.value);
          assert trades[i + 1] == t;
          assert cursor.Some? ==> forall j :: 0 <= j <= i + 1 ==> trades[j].transactionHash != cursor.value by {
            if cursor.Some? {
              forall j | 0 <= j <= i + 1 ensures trades[j].transactionHash != cursor.value {
                if j > 0 {
                  assert trades[j] == trades[1..][j - 1];
                }
              }
            }
          }
        } else {
          assert trades[0] == t;
        }
      }
    }
  }

  // ---------- markets to fetch ----------

  /** The condition ids of the trades that are set and not in the fresh cache, each once, in first-seen order. */
  function MissingIds(trades: seq<Trade>, markets: map<string, Db.CachedMarket>, now: real): (r: seq<string>)
    ensures |r| <= |trades|
  {
    if trades == [] then []
    else
      var acc := MissingIds(trades[..|trades| - 1], markets, now);
      var cid := trades[|trades| - 1].conditionId;
      if Truthy(cid) && Db.CacheHit(markets, cid.value, now).None? && cid.value !in acc then acc + [cid.value]
      else acc
  }

  /**
   * The missing ids hold no repeats and are exactly the set, uncached condition ids
   * of the trades, and a prefix of the trades gives a prefix of the list.
   */
  lemma {:induction false} MissingIdsShape(trades: seq<Trade>, markets: map<string, Db.CachedMarket>, now: real, n: nat)
    requires n <= |trades|
    ensures Seqs.Distinct(MissingIds(trades, markets, now))
    ensures forall x :: x in MissingIds(trades, markets, now) <==>
      Db.CacheHit(markets, x, now).None? && x != "" && exists i :: 0 <= i < |trades| && trades[i].conditionId == Some(x)
    ensures var pre := MissingIds(trades[..n], markets, now);
      |pre| <= |MissingIds(trades, markets, now)| && MissingIds(trades, markets, now)[..|pre|] == pre
  {
    if trades != [] {
      var init := trades[..|trades| - 1];
      var acc := MissingIds(init, markets, now);
      if n == |trades| {
        MissingIdsShape(init, markets, now, |init|);
        assert trades[..n] == trades;
      } else {
        MissingIdsShape(init, markets, now, n);
        assert init[..n] == trades[..n];
      }
      assert forall i :: 0 <= i < |init| ==> init[i] == trades[i];
    }
  }

  /** The trades with the given condition id, in order. */
  function TradesIn(trades: seq<Trade>, cid: string): seq<Trade> {
    if trades == [] then []
    else
      var last := trades[|trades| - 1];
      TradesIn(trades[..|trades| - 1], cid) + (if last.conditionId == Some(cid) then [last] else [])
  }

  /** One more trade: its condition id joins the missing list if uncached and new, and the trade joins its group. */
  lemma CollectSnoc(trades: seq<Trade>, i: nat, markets: map<string, Db.CachedMarket>, now: real)
    requires i < |trades|
    ensures var acc := MissingIds(trades[..i], markets, now);
      var cid := trades[i].conditionId;
      MissingIds(trades[..i + 1], markets, now) ==
        if Truthy(cid) && Db.CacheHit(markets, cid.value, now).None? && cid.value !in acc then acc + [cid.value]
        else acc
    ensures forall c :: (TradesIn(trades[..i + 1], c) ==
      TradesIn(trades[..i], c) + (if trades[i].conditionId == Some(c) then [trades[i]] else []))
  {
    assert trades[..i + 1][..i] == trades[..i];
  }

  /** No trade with that condition id means no group. */
  lemma {:induction false} TradesInNone(trades: seq<Trade>, cid: string)
    requires forall i :: 0 <= i < |trades| ==> trades[i].conditionId != Some(cid)
    ensures TradesIn(trades, cid) == []
  {
    if trades != [] {
      var init := trades[..|trades| - 1];
      assert forall i :: 0 <= i < |init| ==> init[i] == trades[i];
      TradesInNone(init, cid);
    }
  }

  /** The market cache after storing the fetched metadata: each id is upserted in order. */
  function StoredBatch(markets: map<string, Db.CachedMarket>, batch: seq<(string, MarketMetadata)>, now: real)
    : map<string, Db.CachedMarket>
  {
    if batch == [] then markets
    else
      var before := StoredBatch(markets, batch[..|batch| - 1], now);
      var (cid, md) := batch[|batch| - 1];
      if Db.CacheHit(before, cid, now).Some? then before else before[cid := Db.CachedMarket(md, Db.At(now))]
  }

  /**
   * After the batch is stored, every fetched id is served by the cache at the same
   * time, and ids outside the batch are untouched.
   */
  lemma {:induction false} StoredBatchServes(markets: map<string, Db.CachedMarket>, batch: seq<(string, MarketMetadata)>,
                                             now: real, cid: string)
    ensures (exists i :: 0 <= i < |batch| && batch[i].0 == cid) ==> Db.CacheHit(StoredBatch(markets, batch, now), cid, now).Some?
    ensures (forall i :: 0 <= i < |batch| ==> batch[i].0 != cid) ==>
      (cid in StoredBatch(markets, batch, now) <==> cid in markets) &&
      (cid in markets ==> StoredBatch(markets, batch, now)[cid] == markets[cid])
  {
    if batch != [] {
      var init := batch[..|batch| - 1];
      StoredBatchServes(markets, init, now, cid);
      assert forall i :: 0 <= i < |init| ==> init[i] == batch[i];
      var before := StoredBatch(markets, init, now);
      var (c, md) := batch[|batch| - 1];
      if c != cid {
        assert Db.CacheHit(StoredBatch(markets, batch, now), cid, now) == Db.CacheHit(before, cid, now);
      }
    }
  }

  // ---------- processing ----------

  /** What the processing loop does to one trade, in order. */
  datatype Event = Marked(hash: string) | LookedUp(hash: string) | Matched(hash: string)

  /** Every lookup and every match of a trade comes after that trade was marked processed. */
  predicate MarkedFirst(events: seq<Event>) {
    forall j :: 0 <= j < |events| && !events[j].Marked? ==>
      exists i :: 0 <= i < j && events[i] == Marked(events[j].hash)
  }

  /** The dedup set after marking the trades with the default lifetime at time `now`. */
  function MarkedAll(processed: map<string, real>, trades: seq<Trade>, now: real): map<string, real> {
    if trades == [] then processed
    else Db.MarkProcessed(MarkedAll(processed, trades[..|trades| - 1], now),
                          trades[|trades| - 1].transactionHash, Db.DefaultTtlMinutes, now)
  }

  /** Every processed trade is seen by the dedup set for the next 15 minutes. */
  lemma {:induction false} MarkedAllSeen(processed: map<string, real>, trades: seq<Trade>, now: real, later: real)
    requires now <= later < now + (Db.DefaultTtlMinutes * 60) as real
    ensures forall t :: t in trades ==> Db.IsProcessed(MarkedAll(processed, trades, now), t.transactionHash, later)
  {
    if trades != [] {
      var init := trades[..|trades| - 1];
      MarkedAllSeen(processed, init, now, later);
      assert forall t :: t in trades ==> t in init || t == trades[|trades| - 1];
    }
  }

  /** The alerts of one trade: the matching users with a chat id, when its market is cached. */
  function AlertsOf(t: Trade, markets: map<string, Db.CachedMarket>, filters: seq<UserFilter>, now: real)
    : seq<(string, Notifications.AlertMessage)>
  {
    if !Truthy(t.conditionId) then []
    else
      match Db.CacheHit(markets, t.conditionId.value, now)
      case None => []
      case Some(market) =>
        var users := Filters.MatchingFor(Filters.ViewOfTrade(t), market, filters);
        if users == [] then []
        else Notifications.Deliveries(users, Notifications.BuildTradeAlertMessage(t, market, users[0]))
  }

  /** The alerts of the trades, in trade order. */
  function AlertsFor(trades: seq<Trade>, markets: map<string, Db.CachedMarket>, filters: seq<UserFilter>, now: real)
    : seq<(string, Notifications.AlertMessage)>
  {
    if trades == [] then []
    else AlertsFor(trades[..|trades| - 1], markets, filters, now) + AlertsOf(trades[|trades| - 1], markets, filters, now)
  }

  /** One more trade of the loop: it is marked last and its alerts come last. */
  lemma ProcessedPrefix(processed: map<string, real>, trades: seq<Trade>, i: nat,
                        markets: map<string, Db.CachedMarket>, filters: seq<UserFilter>, now: real)
    requires i < |trades|
    ensures MarkedAll(processed, trades[..i + 1], now) ==
      Db.MarkProcessed(MarkedAll(processed, trades[..i], now), trades[i].transactionHash, Db.DefaultTtlMinutes, now)
    ensures AlertsFor(trades[..i + 1], markets, filters, now) ==
      AlertsFor(trades[..i], markets, filters, now) + AlertsOf(trades[i], markets, filters, now)
  {
    assert trades[..i + 1][..i] == trades[..i];
  }

  /** Every alert goes to a matching user with that chat id, for a trade with a cached market. */
  lemma {:induction false} AlertsGoToMatchingUsers(trades: seq<Trade>, markets: map<string, Db.CachedMarket>,
                                                   filters: seq<UserFilter>, now: real)
    ensures forall a :: a in AlertsFor(trades, markets, filters, now) ==>
      exists t, f :: t in trades && f in filters && f.telegramChatId == Some(a.0) &&
        Truthy(t.conditionId) && Db.CacheHit(markets, t.conditionId.value, now).Some? &&
        Filters.AllGates(Filters.ViewOfTrade(t), Db.CacheHit(markets, t.conditionId.value, now).value, f)
  {
    if trades != [] {
      var init, t := trades[..|trades| - 1], trades[|trades| - 1];
      AlertsGoToMatchingUsers(init, markets, filters, now);
      forall a | a in AlertsOf(t, markets, filters, now)
        ensures exists f :: (f in filters && f.telegramChatId == Some(a.0) &&
          Truthy(t.conditionId) && Db.CacheHit(markets, t.conditionId.value, now).Some? &&
          Filters.AllGates(Filters.ViewOfTrade(t), Db.CacheHit(markets, t.conditionId.value, now).value, f))
      {
        var market := Db.CacheHit(markets, t.conditionId.value, now).value;
        var users := Filters.MatchingFor(Filters.ViewOfTrade(t), market, filters);
        var message := Notifications.BuildTradeAlertMessage(t, market, users[0]);
        Notifications.DeliveriesFollowUsers(users, message);
        var withChat := Seqs.Filter(users, Notifications.HasChat);
        var k :| 0 <= k < |Notifications.Deliveries(users, message)| && Notifications.Deliveries(users, message)[k] == a;
        var f := withChat[k];
        assert f in users;
        Filters.MatchesIffAllGates(Filters.ViewOfTrade(t), market, f);
      }
    }
  }

  // ---------- the cursor ----------

  /** The marking step keeps every lookup and match behind its mark. */
  lemma MarkedFirstSnoc(events: seq<Event>, e: Event)
    requires MarkedFirst(events)
    requires e.Marked? || Marked(e.hash) in events
    ensures MarkedFirst(events + [e])
  {
    var all := events + [e];
    forall j | 0 <= j < |all| && !all[j].Marked?
      ensures exists i :: 0 <= i < j && all[i] == Marked(all[j].hash)
    {
      if j < |events| {
        var i :| 0 <= i < j && events[i] == Marked(events[j].hash);
        assert all[i] == events[i];
      } else {
        var i :| 0 <= i < |events| && events[i] == Marked(e.hash);
        assert all[i] == events[i];
      }
    }
  }

  /**
   * A trade processed in one poll is not selected again by a poll less than
   * 15 minutes later, whatever the later response holds.
   */
  lemma NoReprocessingWithinTtl(processed: map<string, real>, newTrades: seq<Trade>, now: real,
                                later: real, trades: seq<Trade>, cursor: Option<string>)
    requires now <= later < now + (Db.DefaultTtlMinutes * 60) as real
    ensures forall t, u :: t in SelectNew(trades, cursor, MarkedAll(processed, newTrades, now), later) && u in newTrades ==>
      t.transactionHash != u.transactionHash
  {
    MarkedAllSeen(processed, newTrades, now, later);
    SelectNewUnprocessed(trades, cursor, MarkedAll(processed, newTrades, now), later);
  }

  /** Lookups and matches of a marked trade keep every lookup and match behind its mark. */
  lemma MarkedAfter(events: seq<Event>, h: string, later: seq<Event>)
    requires MarkedFirst(events) && Marked(h) in events
    requires forall e :: e in later ==> e.hash == h
    ensures MarkedFirst(events + later)
  {
    var all := events + later;
    forall j | 0 <= j < |all| && !all[j].Marked?
      ensures exists i :: 0 <= i < j && all[i] == Marked(all[j].hash)
    {
      if j < |events| {
        var i :| 0 <= i < j && events[i] == Marked(events[j].hash);
        assert all[i] == events[i];
      } else {
        assert all[j] in later;
        var i :| 0 <= i < |events| && events[i] == Marked(h);
        assert all[i] == events[i];
      }
    }
  }

  /** The marker after a poll: the newest processed trade, or the old marker when nothing was processed. */
  function NextMarker(marker: Option<TradeMarker>, newTrades: seq<Trade>): (r: Option<TradeMarker>)
    ensures newTrades == [] ==> r == marker
    ensures newTrades != [] ==> r.Some? && exists t :: (t in newTrades &&
      r.value.lastProcessedTimestamp == t.timestamp && r.value.lastProcessedTxHash == Some(t.transactionHash))
  {
    if newTrades == [] then marker
    else Some(TradeMarker(newTrades[0].timestamp, Some(newTrades[0].transactionHash), None))
  }

  /** The new trades of a poll: the fetched trades, deduplicated and cut at the cursor. */
  function PollTrades(fetched: Result<seq<Trade>, PolymarketClient.Response<seq<PolymarketClient.TradeRecord>>>,
                      marker: Option<TradeMarker>, processed: map<string, real>, now: real): (r: seq<Trade>)
    ensures fetched.Failure? ==> r == []
    ensures fetched.Success? ==> forall t :: t in r ==> t in fetched.value && !Db.IsProcessed(processed, t.transactionHash, now)
  {
    if fetched.Failure? then []
    else
      SelectNewUnprocessed(fetched.value, CursorOf(marker), processed, now);
      SelectNew(fetched.value, CursorOf(marker), processed, now)
  }

  /**
   * With the cursor's own trade in the response at the cursor's timestamp, every
   * new trade is at least as recent, so the marker never moves back.
   */
  lemma CursorKeepsMarkerMonotone(trades: seq<Trade>, marker: TradeMarker, processed: map<string, real>, now: real, k: nat)
    requires PolymarketClient.NewestFirst(trades)
    requires Truthy(marker.lastProcessedTxHash)
    requires k < |trades| && trades[k].transactionHash == marker.lastProcessedTxHash.value
    requires trades[k].timestamp == marker.lastProcessedTimestamp
    ensures forall t :: t in SelectNew(trades, CursorOf(Some(marker)), processed, now) ==>
      t.timestamp >= marker.lastProcessedTimestamp
    ensures var next := NextMarker(Some(marker), SelectNew(trades, CursorOf(Some(marker)), processed, now));
      next.Some? && next.value.lastProcessedTimestamp >= marker.lastProcessedTimestamp
  {
    var c := marker.lastProcessedTxHash.value;
    SelectNewBeforeCursor(trades, Some(c), processed, now);
    var sel := SelectNew(trades, Some(c), processed, now);
    forall t | t in sel ensures t.timestamp >= marker.lastProcessedTimestamp {
      var i :| 0 <= i < |trades| && trades[i] == t && forall j :: 0 <= j <= i ==> trades[j].transactionHash != c;
      assert i < k;
    }
    if sel != [] {
      assert sel[0] in sel;
    }
  }

  /** A two-record response: the cursor's own trade, then an older one. */
  lemma {:induction false} CollectPair(ra: PolymarketClient.TradeRecord, rb: PolymarketClient.TradeRecord)
    requires PolymarketClient.ValidRecord(ra) && PolymarketClient.ValidRecord(rb)
    requires Truthy(ra.transactionHash) && Truthy(rb.transactionHash) && ra.transactionHash != rb.transactionHash
    ensures PolymarketClient.Collect([ra, rb], ra.transactionHash) == [PolymarketClient.ToTrade(rb)]
    ensures PolymarketClient.Collect([ra, rb], None) == [PolymarketClient.ToTrade(ra), PolymarketClient.ToTrade(rb)]
  {
    assert [ra, rb][..1] == [ra] && [ra][..0] == [];
    assert PolymarketClient.Claimed([ra]) == {ra.transactionHash.value};
  }

  /** A cursor that no trade carries never stops the selection. */
  lemma {:induction false} SelectNewMissingCursor(trades: seq<Trade>, c: string, processed: map<string, real>, now: real)
    requires forall t :: t in trades ==> t.transactionHash != c
    ensures SelectNew(trades, Some(c), processed, now) == SelectNew(trades, None, processed, now)
  {
    if trades != [] {
      assert trades[0] in trades;
      assert forall t :: t in trades[1..] ==> t in trades;
      SelectNewMissingCursor(trades[1..], c, processed, now);
    }
  }

  /**
   * As written, the fetch never returns the cursor's own trade, so the cursor
   * break of the selection never fires: every poll selects exactly as if there
   * were no cursor.
   */
  lemma AsWrittenCursorNeverStops(resp: PolymarketClient.Response<seq<PolymarketClient.TradeRecord>>,
                                  marker: Option<TradeMarker>, processed: map<string, real>, now: real)
    ensures var fetched := PolymarketClient.RecentTrades(resp, marker);
      PollTrades(fetched, marker, processed, now) == PollTrades(fetched, None, processed, now)
  {
    var fetched := PolymarketClient.RecentTrades(resp, marker);
    if fetched.Success? && CursorOf(marker).Some? {
      PolymarketClient.RecentTradesShape(resp, marker);
      SelectNewMissingCursor(fetched.value, CursorOf(marker).value, processed, now);
    }
  }

  /**
   * As written, the response loses the cursor's own trade, so the cursor never
   * stops the selection: an older trade the dedup set has forgotten is selected
   * again by the poll and becomes the marker.
   */
  lemma AsWrittenMarkerRegresses(ra: PolymarketClient.TradeRecord, rb: PolymarketClient.TradeRecord)
    requires PolymarketClient.ValidRecord(ra) && PolymarketClient.ValidRecord(rb)
    requires Truthy(ra.transactionHash) && Truthy(rb.transactionHash) && ra.transactionHash != rb.transactionHash
    requires ra.timestamp > rb.timestamp
    ensures var marker := TradeMarker(ra.timestamp, ra.transactionHash, None);
      var newTrades := PollTrades(PolymarketClient.RecentTrades(PolymarketClient.Ok([ra, rb]), Some(marker)),
                                  Some(marker), map[], 0.0);
      var next := NextMarker(Some(marker), newTrades);
      next.Some? && next.value.lastProcessedTimestamp < marker.lastProcessedTimestamp
  {
    var marker := TradeMarker(ra.timestamp, ra.transactionHash, None);
    CollectPair(ra, rb);
    var tb := PolymarketClient.ToTrade(rb);
    assert PolymarketClient.CollectAsWritten([ra, rb], Some(marker)) == [tb];
    assert PolymarketClient.SortNewestFirst([tb]) == [tb] by {
      assert [tb][1..] == [];
    }
    assert CursorOf(Some(marker)) == ra.transactionHash;
    assert SelectNew([tb], ra.transactionHash, map[], 0.0) == [tb] by {
      assert [tb][1..] == [];
    }
  }

  /**
   * The corrected response keeps the cursor trade, the selection stops there,
   * and the marker stays where it was.
   */
  lemma CorrectedMarkerHolds(ra: PolymarketClient.TradeRecord, rb: PolymarketClient.TradeRecord)
    requires PolymarketClient.ValidRecord(ra) && PolymarketClient.ValidRecord(rb)
    requires Truthy(ra.transactionHash) && Truthy(rb.transactionHash) && ra.transactionHash != rb.transactionHash
    requires ra.timestamp > rb.timestamp
    ensures var marker := TradeMarker(ra.timestamp, ra.transactionHash, None);
      var corrected := PolymarketClient.RecentTradesKeepingCursor(PolymarketClient.Ok([ra, rb]));
      corrected.Success? && NextMarker(Some(marker), PollTrades(corrected, Some(marker), map[], 0.0)) == Some(marker)
  {
    var marker := TradeMarker(ra.timestamp, ra.transactionHash, None);
    CollectPair(ra, rb);
    var ta, tb := PolymarketClient.ToTrade(ra), PolymarketClient.ToTrade(rb);
    assert PolymarketClient.SortNewestFirst([tb]) == [tb] by {
      assert [tb][1..] == [];
    }
    assert PolymarketClient.SortNewestFirst([ta, tb]) == [ta, tb] by {
      assert [ta, tb][1..] == [tb];
      assert PolymarketClient.InsertDesc(ta, [tb]) == [ta, tb];
    }
    assert CursorOf(Some(marker)) == ra.transactionHash;
    assert SelectNew([ta, tb], ra.transactionHash, map[], 0.0) == [];
  }

  /** The regression on concrete records: marker at 1000 for "a", then "b" at 900. */
  lemma AsWrittenMarkerRegressesExample()
    ensures var ra := PolymarketClient.TradeRecord(Some("a"), 1.0, 0.5, 1000, None, "BUY", None, None);
      var rb := PolymarketClient.TradeRecord(Some("b"), 1.0, 0.5, 900, None, "BUY", None, None);
      var marker := TradeMarker(1000, Some("a"), None);
      var newTrades := PollTrades(PolymarketClient.RecentTrades(PolymarketClient.Ok([ra, rb]), Some(marker)),
                                  Some(marker), map[], 0.0);
      var next := NextMarker(Some(marker), newTrades);
      next.Some? && next.value.lastProcessedTimestamp < 1000
  {
    var ra := PolymarketClient.TradeRecord(Some("a"), 1.0, 0.5, 1000, None, "BUY", None, None);
    var rb := PolymarketClient.TradeRecord(Some("b"), 1.0, 0.5, 900, None, "BUY", None, None);
    assert Text.Upper("BUY") == "BUY" by {
      assert "BUY"[1..] == "UY" && "UY"[1..] == "Y" && "Y"[1..] == "";
    }
    assert PolymarketClient.ValidRecord(ra) && PolymarketClient.ValidRecord(rb);
    AsWrittenMarkerRegresses(ra, rb);
  }

  // ---------- the worker ----------

  /** The sports ids the worker starts with: the cache, or else the fetched set. */
  function StartupSet(doc: Option<Db.GammaDoc<set<string>>>, fetched: set<string>, now: real): set<string> {
    var cached := Db.GetOrCache(doc, None, {}, now).0;
    if cached != {} then cached else fetched
  }

  /** The sports-id cache document after start-up: the fetched set is stored when the cache had none. */
  function StartupSetDoc(doc: Option<Db.GammaDoc<set<string>>>, fetched: set<string>, now: real)
    : Option<Db.GammaDoc<set<string>>>
  {
    if Db.GetOrCache(doc, None, {}, now).0 == {} && fetched != {} then Db.GetOrCache(doc, Some(fetched), {}, now).1
    else doc
  }

  /** The tags-dictionary cache document after start-up. */
  function StartupDictDoc(doc: Option<Db.GammaDoc<map<string, TagInfo>>>, fetched: map<string, TagInfo>, now: real)
    : Option<Db.GammaDoc<map<string, TagInfo>>>
  {
    if Db.GetOrCache(doc, None, map[], now).0 == map[] && fetched != map[] then Db.GetOrCache(doc, Some(fetched), map[], now).1
    else doc
  }

  /** The tags dictionary the worker starts with: the cache, or else the fetched dictionary. */
  function StartupDict(doc: Option<Db.GammaDoc<map<string, TagInfo>>>, fetched: map<string, TagInfo>, now: real)
    : map<string, TagInfo>
  {
    var cached := Db.GetOrCache(doc, None, map[], now).0;
    if cached != map[] then cached else fetched
  }

  /** The state `run_worker` keeps across polls, over the shared stores, queue registry and clock. */
  class Worker {
    const db: Db.Database
    const registry: Dispatcher.Registry<Notifications.AlertMessage>
    const clock: Time.Clock
    /** `POLL_INTERVAL_SECONDS`. */
    const pollInterval: real
    /** The filter reload interval. */
    const reloadInterval: real
    var sportsTagIds: set<string>
    var tagsDict: map<string, TagInfo>
    var allUserFilters: seq<UserFilter>
    var lastFilterReload: real
    var lastMarker: Option<TradeMarker>
    var pollCount: nat
    /** What the poll loops did to the trades, in order. */
    ghost var events: seq<Event>

    ghost predicate Valid()
      reads this, registry, registry.instance
    {
      registry.Valid() && registry.instance != null && pollInterval >= 0.0 && MarkedFirst(events)
    }

    /**
     * The state after the new trades were processed from the given earlier state:
     * each marked, their alerts queued in order, and the marker moved to the newest.
     */
    ghost predicate Processed(newTrades: seq<Trade>, processed0: map<string, real>,
                              pending0: seq<(string, Notifications.AlertMessage)>, marker0: Option<TradeMarker>, now: real)
      reads this, db, registry, registry.instance
    {
      db.processedTrades == MarkedAll(processed0, newTrades, now) &&
      registry.Pending() == pending0 + AlertsFor(newTrades, db.markets, allUserFilters, now) &&
      lastMarker == NextMarker(marker0, newTrades)
    }

    /**
     * Start-up: the queue first, then the categorisation data (cache, or else the
     * fetched data, stored when non-empty), the filters, the reload time and the marker.
     */
    constructor(db: Db.Database, registry: Dispatcher.Registry<Notifications.AlertMessage>, clock: Time.Clock,
                pollInterval: real, reloadInterval: real,
                sportsResp: PolymarketClient.Response<seq<PolymarketClient.SportRecord>>,
                tagsResp: PolymarketClient.Response<seq<PolymarketClient.TagRecord>>)
      requires registry.Valid() && pollInterval >= 0.0
      modifies db`sportsTagIds, db`tagsDictionary, registry`instance
      ensures Valid() && pollCount == 0 && events == []
      ensures this.db == db && this.registry == registry && this.clock == clock
      ensures this.pollInterval == pollInterval && this.reloadInterval == reloadInterval
      ensures registry.Pending() == old(registry.Pending())
      ensures var fetched := if sportsResp.Ok? then PolymarketClient.SportsIds(sportsResp.body) else {};
        sportsTagIds == StartupSet(old(db.sportsTagIds), fetched, clock.now) &&
        db.sportsTagIds == StartupSetDoc(old(db.sportsTagIds), fetched, clock.now)
      ensures var fetched := if tagsResp.Ok? then PolymarketClient.TagsDict(tagsResp.body) else map[];
        tagsDict == StartupDict(old(db.tagsDictionary), fetched, clock.now) &&
        db.tagsDictionary == StartupDictDoc(old(db.tagsDictionary), fetched, clock.now)
      ensures allUserFilters == Db.FiltersFromStore(db.configs, db.telegramAccounts)
      ensures lastFilterReload == clock.now && lastMarker == Db.MarkerOf(db.cursor)
    {
      var queue := registry.GetNotificationQueue();
      var now := clock.now;
      var ids, dict, filters, marker := LoadStartup(db, sportsResp, tagsResp, now);
      this.db := db;
      this.registry := registry;
      this.clock := clock;
      this.pollInterval := pollInterval;
      this.reloadInterval := reloadInterval;
      pollCount := 0;
      events := [];
      sportsTagIds := ids;
      tagsDict := dict;
      allUserFilters := filters;
      lastFilterReload := now;
      lastMarker := marker;
    }

    /** The start-up reads: the sports ids, the tags dictionary, the user filters, then the marker. */
    static method LoadStartup(db: Db.Database, sportsResp: PolymarketClient.Response<seq<PolymarketClient.SportRecord>>,
                              tagsResp: PolymarketClient.Response<seq<PolymarketClient.TagRecord>>, now: real)
      returns (ids: set<string>, dict: map<string, TagInfo>, filters: seq<UserFilter>, marker: Option<TradeMarker>)
      modifies db`sportsTagIds, db`tagsDictionary
      ensures var fetched := if sportsResp.Ok? then PolymarketClient.SportsIds(sportsResp.body) else {};
        ids == StartupSet(old(db.sportsTagIds), fetched, now) &&
        db.sportsTagIds == StartupSetDoc(old(db.sportsTagIds), fetched, now)
      ensures var fetched := if tagsResp.Ok? then PolymarketClient.TagsDict(tagsResp.body) else map[];
        dict == StartupDict(old(db.tagsDictionary), fetched, now) &&
        db.tagsDictionary == StartupDictDoc(old(db.tagsDictionary), fetched, now)
      ensures filters == Db.FiltersFromStore(db.configs, db.telegramAccounts) && marker == Db.MarkerOf(db.cursor)
    {
      ids := LoadSportsTagIds(db, sportsResp, now);
      dict := LoadTagsDictionary(db, tagsResp, now);
      filters := db.GetAllUserFilters();
      marker := db.GetLastProcessedTradeMarker();
    }

    /** The sports ids at start-up: the cache, or else the fetched set, stored when non-empty. */
    static method LoadSportsTagIds(db: Db.Database, resp: PolymarketClient.Response<seq<PolymarketClient.SportRecord>>,
                                   now: real) returns (ids: set<string>)
      modifies db`sportsTagIds
      ensures var fetched := if resp.Ok? then PolymarketClient.SportsIds(resp.body) else {};
        ids == StartupSet(old(db.sportsTagIds), fetched, now) &&
        db.sportsTagIds == StartupSetDoc(old(db.sportsTagIds), fetched, now)
    {
      ids := db.GetOrCacheSportsTagIds(None, now);
      if ids == {} {
        ids := PolymarketClient.FetchSportsTagIds(resp);
        if ids != {} {
          var stored := db.GetOrCacheSportsTagIds(Some(ids), now);
        }
      }
    }

    /** The tags dictionary at start-up: the cache, or else the fetched dictionary, stored when non-empty. */
    static method LoadTagsDictionary(db: Db.Database, resp: PolymarketClient.Response<seq<PolymarketClient.TagRecord>>,
                                     now: real) returns (dict: map<string, TagInfo>)
      modifies db`tagsDictionary
      ensures var fetched := if resp.Ok? then PolymarketClient.TagsDict(resp.body) else map[];
        dict == StartupDict(old(db.tagsDictionary), fetched, now) &&
        db.tagsDictionary == StartupDictDoc(old(db.tagsDictionary), fetched, now)
    {
      dict := db.GetOrCacheTagsDictionary(None, now);
      if dict == map[] {
        dict := PolymarketClient.FetchTagsDictionary(resp);
        if dict != map[] {
          var stored := db.GetOrCacheTagsDictionary(Some(dict), now);
        }
      }
    }

    /** The change check of a reload: counts first, then each new filter against the old one of its user. */
    static method DetectFiltersChanged(oldFilters: seq<UserFilter>, newFilters: seq<UserFilter>) returns (changed: bool)
      ensures changed == FiltersChanged(oldFilters, newFilters)
    {
      if |oldFilters| != |newFilters| {
        return true;
      }
      var oldById := ByUserId(oldFilters);
      for i := 0 to |newFilters|
        invariant forall j :: 0 <= j < i ==>
          !(newFilters[j].userId in oldById && ValuesDiffer(oldById[newFilters[j].userId], newFilters[j]))
      {
        var newFilter := newFilters[i];
        if newFilter.userId in oldById && ValuesDiffer(oldById[newFilter.userId], newFilter) {
          return true;
        }
      }
      return false;
    }

    /**
     * The reload step of a poll at the clock's time. A failed load keeps the old
     * filters and reload time; the signal is cleared only by a successful reload,
     * which is the only kind a set signal can cause.
     */
    method ReloadStep(loadFails: bool) returns (reason: Option<ReloadReason>, changed: bool)
      requires Valid()
      modifies this`allUserFilters, this`lastFilterReload, db`reloadSignal
      ensures Valid()
      ensures reason == ReloadDecision(old(db.reloadSignal), clock.now, old(lastFilterReload), reloadInterval)
      ensures reason.None? || loadFails ==>
        allUserFilters == old(allUserFilters) && lastFilterReload == old(lastFilterReload) && !changed
      ensures reason.Some? && !loadFails ==>
        allUserFilters == Db.FiltersFromStore(db.configs, db.telegramAccounts) && lastFilterReload == clock.now &&
        changed == FiltersChanged(old(allUserFilters), allUserFilters)
      ensures db.reloadSignal == (old(db.reloadSignal) && loadFails)
    {
      var now := clock.now;
      changed := false;
      var signal := db.CheckFilterReloadSignal();
      reason := ReloadDecision(signal, now, lastFilterReload, reloadInterval);
      if reason.None? || loadFails {
        return;
      }
      var newFilters := db.GetAllUserFilters();
      changed := DetectFiltersChanged(allUserFilters, newFilters);
      allUserFilters := newFilters;
      lastFilterReload := now;
      if reason == Some(SettingsChanged) {
        db.ClearFilterReloadSignal();
      }
    }

    /**
     * The new trades of a poll: with a cursor, stop at the cursor's trade; skip the
     * trades the dedup set holds. Also reports whether the cursor was reached.
     */
    method SelectNewTrades(trades: seq<Trade>) returns (newTrades: seq<Trade>, seenCursor: bool)
      ensures newTrades == SelectNew(trades, CursorOf(lastMarker), db.processedTrades, clock.now)
      ensures seenCursor <==> CursorOf(lastMarker).Some? && CursorIndex(trades, CursorOf(lastMarker).value) < |trades|
    {
      var cursor := CursorOf(lastMarker);
      var now := clock.now;
      ghost var whole := SelectNew(trades, cursor, db.processedTrades, now);
      newTrades, seenCursor := [], false;
      var i := 0;
      while i < |trades|
        invariant 0 <= i <= |trades|
        invariant whole == newTrades + SelectNew(trades[i..], cursor, db.processedTrades, now)
        invariant cursor.Some? ==> CursorIndex(trades[i..], cursor.value) + i == CursorIndex(trades, cursor.value)
        invariant !seenCursor
      {
        var trade := trades[i];
        assert trades[i..][0] == trade && trades[i..][1..] == trades[i + 1..];
        if cursor.Some? && trade.transactionHash == cursor.value {
          seenCursor := true;
          break;
        }
        var seen := db.IsTradeProcessed(trade.transactionHash, now);
        ghost var rest := SelectNew(trades[i + 1..], cursor, db.processedTrades, now);
        if !seen {
          Seqs.AppendAssoc(newTrades, [trade], rest);
          newTrades := newTrades + [trade];
        } else {
          assert [] + rest == rest;
        }
        i := i + 1;
      }
      if !seenCursor {
        assert trades[i..] == [];
      }
    }

    /**
     * The condition ids to batch-fetch, and the trades grouped under each. The
     * per-trade cache checks write nothing.
     */
    method CollectMissingConditionIds(newTrades: seq<Trade>) returns (missing: seq<string>, groups: map<string, seq<Trade>>)
      modifies db`markets
      ensures db.markets == old(db.markets)
      ensures missing == MissingIds(newTrades, db.markets, clock.now)
      ensures forall cid :: cid in groups <==> cid in missing
      ensures forall cid :: cid in groups ==> groups[cid] == TradesIn(newTrades, cid)
    {
      var now := clock.now;
      missing, groups := [], map[];
      for i := 0 to |newTrades|
        invariant db.markets == old(db.markets)
        invariant missing == MissingIds(newTrades[..i], db.markets, now)
        invariant forall cid :: cid in groups <==> cid in missing
        invariant forall cid :: cid in groups ==> groups[cid] == TradesIn(newTrades[..i], cid)
      {
        missing, groups := CollectStep(newTrades, i, now, missing, groups);
      }
      assert newTrades[..|newTrades|] == newTrades;
    }

    /** The loop body at position `i`: an uncached condition id joins the list once and its trade joins its group. */
    method CollectStep(newTrades: seq<Trade>, i: nat, now: real, missing: seq<string>, groups: map<string, seq<Trade>>)
      returns (missing': seq<string>, groups': map<string, seq<Trade>>)
      requires i < |newTrades|
      requires missing == MissingIds(newTrades[..i], db.markets, now)
      requires forall cid :: cid in groups <==> cid in missing
      requires forall cid :: cid in groups ==> groups[cid] == TradesIn(newTrades[..i], cid)
      modifies db`markets
      ensures db.markets == old(db.markets)
      ensures missing' == MissingIds(newTrades[..i + 1], db.markets, now)
      ensures forall cid :: cid in groups' <==> cid in missing'
      ensures forall cid :: cid in groups' ==> groups'[cid] == TradesIn(newTrades[..i + 1], cid)
    {
      missing', groups' := missing, groups;
      var trade := newTrades[i];
      CollectSnoc(newTrades, i, db.markets, now);
      MissingIdsShape(newTrades[..i], db.markets, now, i);
      if Truthy(trade.conditionId) {
        var cid := trade.conditionId.value;
        var cached := db.GetOrUpsertMarket(cid, None, now);
        if cached.None? {
          if cid !in groups' {
            assert forall j :: 0 <= j < i ==> newTrades[..i][j].conditionId != Some(cid);
            TradesInNone(newTrades[..i], cid);
            missing' := missing' + [cid];
            groups' := groups'[cid := []];
          }
          groups' := groups'[cid := groups'[cid] + [trade]];
        }
      }
    }

    /** Stores each fetched market through the cache, in batch order. */
    method StoreBatch(batch: seq<(string, MarketMetadata)>)
      modifies db`markets
      ensures db.markets == StoredBatch(old(db.markets), batch, clock.now)
    {
      var now := clock.now;
      for i := 0 to |batch|
        invariant db.markets == StoredBatch(old(db.markets), batch[..i], now)
      {
        assert batch[..i + 1][..i] == batch[..i];
        var (cid, metadata) := batch[i];
        var stored := db.GetOrUpsertMarket(cid, Some(metadata), now);
      }
      assert batch[..|batch|] == batch;
    }

    /** The lookup and alerting of one trade: its market from the cache, then the matching users. */
    method AlertTrade(trade: Trade, now: real) returns (lookedUp: bool, matched: bool)
      requires registry.Valid() && registry.instance != null
      modifies db`markets, registry`instance, registry.instance
      ensures registry.Valid() && registry.instance == old(registry.instance)
      ensures db.markets == old(db.markets)
      ensures registry.Pending() == old(registry.Pending()) + AlertsOf(trade, db.markets, allUserFilters, now)
      ensures lookedUp == Truthy(trade.conditionId)
      ensures matched == (lookedUp && Db.CacheHit(db.markets, trade.conditionId.value, now).Some?)
    {
      lookedUp, matched := false, false;
      if !Truthy(trade.conditionId) {
        return;
      }
      lookedUp := true;
      var market := db.GetOrUpsertMarket(trade.conditionId.value, None, now);
      if market.None? {
        return;
      }
      matched := true;
      var matching := Filters.GetMatchingUsersForTrade(trade, market.value, allUserFilters);
      if matching != [] {
        Notifications.SendAlertsForTrade(registry, trade, market.value, matching);
      }
    }

    /** One trade of the processing loop: mark it, then look its market up and alert the matching users. */
    method ProcessTrade(trade: Trade, now: real)
      requires Valid()
      modifies db`processedTrades, db`markets, registry`instance, registry.instance, this`events
      ensures Valid() && registry.instance == old(registry.instance)
      ensures db.processedTrades == Db.MarkProcessed(old(db.processedTrades), trade.transactionHash, Db.DefaultTtlMinutes, now)
      ensures db.markets == old(db.markets)
      ensures registry.Pending() == old(registry.Pending()) + AlertsOf(trade, db.markets, allUserFilters, now)
      ensures |old(events)| < |events| && events[..|old(events)|] == old(events) && events[|old(events)|] == Marked(trade.transactionHash)
    {
      db.MarkTradeAsProcessed(trade.transactionHash, Db.DefaultTtlMinutes, now);
      var h := trade.transactionHash;
      MarkedFirstSnoc(events, Marked(h));
      ghost var marked := events + [Marked(h)];
      events := marked;
      var lookedUp, matched := AlertTrade(trade, now);
      assert Marked(h) in marked by {
        assert marked[|marked| - 1] == Marked(h);
      }
      ghost var later := (if lookedUp then [LookedUp(h)] else []) + (if matched then [Matched(h)] else []);
      MarkedAfter(marked, h, later);
      events := marked + later;
      assert events[..|marked|] == marked;
    }

    /** The loop body at position `i`: the trade there is processed and the loop's invariant moves on by one. */
    method ProcessAt(newTrades: seq<Trade>, i: nat, now: real, ghost processed0: map<string, real>,
                     ghost pending0: seq<(string, Notifications.AlertMessage)>)
      requires i < |newTrades| && Valid()
      requires db.processedTrades == MarkedAll(processed0, newTrades[..i], now)
      requires registry.Pending() == pending0 + AlertsFor(newTrades[..i], db.markets, allUserFilters, now)
      modifies db`processedTrades, db`markets, registry`instance, registry.instance, this`events
      ensures Valid() && registry.instance == old(registry.instance)
      ensures db.markets == old(db.markets)
      ensures db.processedTrades == MarkedAll(processed0, newTrades[..i + 1], now)
      ensures registry.Pending() == pending0 + AlertsFor(newTrades[..i + 1], db.markets, allUserFilters, now)
    {
      ProcessedPrefix(processed0, newTrades, i, db.markets, allUserFilters, now);
      ghost var sent := AlertsFor(newTrades[..i], db.markets, allUserFilters, now);
      ProcessTrade(newTrades[i], now);
      Seqs.AppendAssoc(pending0, sent, AlertsOf(newTrades[i], db.markets, allUserFilters, now));
    }

    /**
     * The processing loop: each trade is marked processed, then its market is
     * looked up in the cache, then the matching users are alerted.
     */
    method ProcessNewTrades(newTrades: seq<Trade>)
      requires Valid()
      modifies db`processedTrades, db`markets, registry`instance, registry.instance, this`events
      ensures Valid() && registry.instance == old(registry.instance)
      ensures db.processedTrades == MarkedAll(old(db.processedTrades), newTrades, clock.now)
      ensures db.markets == old(db.markets)
      ensures registry.Pending() == old(registry.Pending()) + AlertsFor(newTrades, db.markets, allUserFilters, clock.now)
    {
      var now := clock.now;
      ghost var pending0 := registry.Pending();
      for i := 0 to |newTrades|
        invariant Valid() && registry.instance == old(registry.instance)
        invariant db.markets == old(db.markets)
        invariant db.processedTrades == MarkedAll(old(db.processedTrades), newTrades[..i], now)
        invariant registry.Pending() == pending0 + AlertsFor(newTrades[..i], db.markets, allUserFilters, now)
      {
        ProcessAt(newTrades, i, now, old(db.processedTrades), pending0);
      }
      assert newTrades[..|newTrades|] == newTrades;
    }

    /** The marker advance: the newest processed trade becomes the marker, stored with the time. */
    method AdvanceMarker(newTrades: seq<Trade>)
      modifies this`lastMarker, db`cursor
      ensures lastMarker == NextMarker(old(lastMarker), newTrades)
      ensures newTrades == [] ==> db.cursor == old(db.cursor)
      ensures newTrades != [] ==>
        db.cursor == Some(Db.MarkerDoc(newTrades[0].timestamp, Some(newTrades[0].transactionHash), clock.now))
    {
      if newTrades != [] {
        var newest := newTrades[0];
        lastMarker := Some(TradeMarker(newest.timestamp, Some(newest.transactionHash), None));
        db.SetLastProcessedTradeMarker(lastMarker.value, clock.now);
      }
    }

    /**
     * The guarded part of a poll at the clock's time: fetch, select, batch-fetch
     * the missing markets, process, advance the marker. `resp` is the trades
     * response; `batch` is what the batch metadata fetch returns, or none when it
     * raises. Anything raising skips the rest.
     */
    method FetchAndProcess(resp: PolymarketClient.Response<seq<PolymarketClient.TradeRecord>>,
                           batch: Option<seq<(string, MarketMetadata)>>)
      returns (newTrades: seq<Trade>, completed: bool)
      requires Valid()
      modifies this`lastMarker, this`events, db`processedTrades, db`markets, db`cursor, registry`instance, registry.instance
      ensures Valid() && registry.instance == old(registry.instance)
      ensures newTrades == PollTrades(PolymarketClient.RecentTrades(resp, old(lastMarker)), old(lastMarker), old(db.processedTrades), clock.now)
      ensures completed <==> resp.Ok? && (MissingIds(newTrades, old(db.markets), clock.now) == [] || batch.Some?)
      ensures completed ==>
        db.markets == (if MissingIds(newTrades, old(db.markets), clock.now) == [] then old(db.markets)
                       else StoredBatch(old(db.markets), batch.value, clock.now)) &&
        Processed(newTrades, old(db.processedTrades), old(registry.Pending()), old(lastMarker), clock.now)
      ensures completed && newTrades != [] ==>
        db.cursor == Some(Db.MarkerDoc(newTrades[0].timestamp, Some(newTrades[0].transactionHash), clock.now))
      ensures !completed || newTrades == [] ==> db.cursor == old(db.cursor) && lastMarker == old(lastMarker)
      ensures !completed ==>
        db.markets == old(db.markets) && db.processedTrades == old(db.processedTrades) &&
        registry.Pending() == old(registry.Pending())
    {
      newTrades, completed := [], false;
      var fetched := PolymarketClient.FetchRecentTrades(resp, lastMarker);
      if fetched.Failure? {
        return;
      }
      var seenCursor;
      newTrades, seenCursor := SelectNewTrades(fetched.value);
      var ready := PrepareMarkets(newTrades, batch);
      if !ready {
        return;
      }
      ProcessAndAdvance(newTrades);
      completed := true;
    }

    /**
     * The cache checks for the new trades, then the batch fetch of the missing
     * markets; without a batch (the fetch raised) the poll stops here.
     */
    method PrepareMarkets(newTrades: seq<Trade>, batch: Option<seq<(string, MarketMetadata)>>) returns (ready: bool)
      modifies db`markets
      ensures ready <==> MissingIds(newTrades, old(db.markets), clock.now) == [] || batch.Some?
      ensures db.markets == (if MissingIds(newTrades, old(db.markets), clock.now) == [] || batch.None? then old(db.markets)
                             else StoredBatch(old(db.markets), batch.value, clock.now))
    {
      var missing, groups := CollectMissingConditionIds(newTrades);
      if missing != [] && batch.None? {
        return false;
      }
      if missing != [] {
        StoreBatch(batch.value);
      }
      return true;
    }

    /** The processing loop over the new trades, then the marker update. */
    method ProcessAndAdvance(newTrades: seq<Trade>)
      requires Valid()
      modifies this`lastMarker, this`events, db`processedTrades, db`markets, db`cursor, registry`instance, registry.instance
      ensures Valid() && registry.instance == old(registry.instance)
      ensures db.markets == old(db.markets)
      ensures db.processedTrades == MarkedAll(old(db.processedTrades), newTrades, clock.now)
      ensures registry.Pending() == old(registry.Pending()) + AlertsFor(newTrades, db.markets, allUserFilters, clock.now)
      ensures lastMarker == NextMarker(old(lastMarker), newTrades)
      ensures newTrades == [] ==> db.cursor == old(db.cursor)
      ensures newTrades != [] ==>
        db.cursor == Some(Db.MarkerDoc(newTrades[0].timestamp, Some(newTrades[0].transactionHash), clock.now))
    {
      ProcessNewTrades(newTrades);
      AdvanceMarker(newTrades);
    }

    /**
     * One pass of the polling loop: count it, reload the filters if due
     * (`loadFails` says whether loading raises), run the guarded part, then sleep
     * the poll interval.
     */
    method PollCycle(loadFails: bool, resp: PolymarketClient.Response<seq<PolymarketClient.TradeRecord>>,
                     batch: Option<seq<(string, MarketMetadata)>>)
      returns (newTrades: seq<Trade>, completed: bool)
      requires Valid()
      modifies this`allUserFilters, this`lastFilterReload, this`lastMarker, this`pollCount, this`events
      modifies db`reloadSignal, db`processedTrades, db`markets, db`cursor, registry`instance, registry.instance, clock
      ensures Valid() && registry.instance == old(registry.instance)
      ensures pollCount == old(pollCount) + 1 && clock.now == old(clock.now) + pollInterval
      ensures db.reloadSignal == (old(db.reloadSignal) && loadFails)
      ensures var reason := ReloadDecision(old(db.reloadSignal), old(clock.now), old(lastFilterReload), reloadInterval);
        if reason.Some? && !loadFails
        then allUserFilters == Db.FiltersFromStore(db.configs, db.telegramAccounts) && lastFilterReload == old(clock.now)
        else allUserFilters == old(allUserFilters) && lastFilterReload == old(lastFilterReload)
      ensures newTrades ==
        PollTrades(PolymarketClient.RecentTrades(resp, old(lastMarker)), old(lastMarker), old(db.processedTrades), old(clock.now))
      ensures completed <==> resp.Ok? && (MissingIds(newTrades, old(db.markets), old(clock.now)) == [] || batch.Some?)
      ensures completed ==>
        Processed(newTrades, old(db.processedTrades), old(registry.Pending()), old(lastMarker), old(clock.now))
      ensures !completed || newTrades == [] ==> db.cursor == old(db.cursor) && lastMarker == old(lastMarker)
      ensures !completed ==> db.processedTrades == old(db.processedTrades) && registry.Pending() == old(registry.Pending())
    {
      pollCount := pollCount + 1;
      var reason, changed := ReloadStep(loadFails);
      newTrades, completed := FetchAndProcess(resp, batch);
      clock.Sleep(pollInterval);
    }
  }
}
