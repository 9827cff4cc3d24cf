/**
 * Alert fan-out: one message per trade, built from the trade and its market, queued
 * once for every matching user that has a Telegram chat id. The message is kept as
 * its parts; the text layout and the number formatting are not modelled.
 */
module Notifications {
  import opened Wrappers
  import Text
  import Seqs
  import opened Types
  import Dispatcher

  const BaseUrl: string := "https://polymarket.com"
  const BuyEmoji: string := "\U{1F7E2}"
  const SellEmoji: string := "\U{1F534}"
  const SportsLabel: string := "\U{1F3C8} Sports"
  const TagsPrefix: string := "\n\U{1F3F7}\U{FE0F} Tags: "

  /** The parts an alert message is built from. */
  datatype AlertMessage = AlertMessage(
    title: string,
    categoryInfo: string,
    tagsInfo: string,
    sideEmoji: string,
    side: string,
    notionalUsd: real,
    price: real,
    size: real,
    fillCountInfo: string,
    aggregated: bool,
    walletLink: string,
    walletDisplay: string,
    marketLink: string)

  /** The wallet shortened to its first 6 and last 4 characters when longer than 10. */
  function WalletDisplay(wallet: string): string {
    if |wallet| > 10 then wallet[..6] + "..." + wallet[|wallet| - 4..] else wallet
  }

  /** A long wallet shows 13 characters keeping both ends; a short one is shown whole. */
  lemma WalletDisplayShape(wallet: string)
    ensures |wallet| <= 10 ==> WalletDisplay(wallet) == wallet
    ensures |wallet| > 10 ==>
      var r := WalletDisplay(wallet);
      |r| == 13 && Text.IsPrefix(wallet[..6], r) && r[6..9] == "..." && r[9..] == wallet[|wallet| - 4..]
  {
    if |wallet| > 10 {
      var r := WalletDisplay(wallet);
      assert r[..6] == wallet[..6];
    }
  }

  /** The market link: by slug, else by condition id, else the site itself. */
  function MarketLink(m: MarketMetadata): string {
    if Truthy(m.slug) then BaseUrl + "/event/" + m.slug.value
    else if m.conditionId != "" then BaseUrl + "/condition/" + m.conditionId
    else BaseUrl
  }

  /** The slug link wins over the condition link, which wins over the bare site. */
  lemma MarketLinkChoice(m: MarketMetadata)
    ensures Text.IsPrefix(BaseUrl, MarketLink(m))
    ensures Truthy(m.slug) ==> MarketLink(m) == BaseUrl + "/event/" + m.slug.value
    ensures !Truthy(m.slug) && m.conditionId != "" ==> MarketLink(m) == BaseUrl + "/condition/" + m.conditionId
    ensures MarketLink(m) == BaseUrl <==> !Truthy(m.slug) && m.conditionId == ""
  {
    assert (BaseUrl + "/event/" + m.slug.GetOr(""))[..|BaseUrl|] == BaseUrl;
    assert (BaseUrl + "/condition/" + m.conditionId)[..|BaseUrl|] == BaseUrl;
  }

  function SideEmoji(side: string): string {
    if side == "BUY" then BuyEmoji else SellEmoji
  }

  /** The sports label for a sports market, else the capitalised legacy category, else nothing. */
  function CategoryInfo(m: MarketMetadata): string {
    if m.isSports then SportsLabel
    else if Truthy(m.category) then Text.Capitalize(m.category.value)
    else ""
  }

  lemma CategoryInfoChoice(m: MarketMetadata)
    ensures m.isSports ==> CategoryInfo(m) == SportsLabel
    ensures !m.isSports ==> |CategoryInfo(m)| == |m.category.GetOr("")|
    ensures !m.isSports && Truthy(m.category) ==> CategoryInfo(m) == Text.Capitalize(m.category.value)
    ensures !m.isSports && Truthy(m.category) ==>
      CategoryInfo(m)[0] == Text.UpperChar(m.category.value[0]) &&
      forall i :: 1 <= i < |CategoryInfo(m)| ==> CategoryInfo(m)[i] == Text.LowerChar(m.category.value[i])
    ensures CategoryInfo(m) == "" <==> !m.isSports && !Truthy(m.category)
  {
  }

  /** At most the first three tag labels, joined by ", ", after the tags marker; nothing without tags. */
  function TagsInfo(m: MarketMetadata): string {
    if m.tags != [] then TagsPrefix + Text.Join(if |m.tags| > 3 then m.tags[..3] else m.tags, ", ") else ""
  }

  function FillCountInfo(fillCount: int): string {
    if fillCount > 1 then " (" + Text.IntToString(fillCount) + " fills in one tx)" else ""
  }

  /** The fill count is shown exactly when the aggregate has more than one fill. */
  lemma FillCountShownIff(fillCount: int)
    ensures FillCountInfo(fillCount) != "" <==> fillCount > 1
  {
  }

  /**
   * `build_trade_alert_message`. The user filter is accepted and never read, so
   * every user gets the same message.
   */
  function BuildTradeAlertMessage(trade: Trade, market: MarketMetadata, userFilter: UserFilter): (r: AlertMessage)
    ensures r.notionalUsd == trade.size * trade.price && r.price == trade.price && r.size == trade.size
    ensures r.fillCountInfo == "" && !r.aggregated && r.title == market.title
  {
    AlertMessage(market.title, CategoryInfo(market), TagsInfo(market), SideEmoji(trade.side), trade.side,
                 trade.Notional(), trade.price, trade.size, "", false,
                 BaseUrl + "/profile/" + trade.proxyWallet, WalletDisplay(trade.proxyWallet), MarketLink(market))
  }

  /** `build_aggregated_trade_alert_message`: totals and VWAP in place of size and price, plus the fill count. */
  function BuildAggregatedAlertMessage(agg: AggregatedTrade, market: MarketMetadata, userFilter: UserFilter)
    : (r: AlertMessage)
    ensures r.notionalUsd == agg.totalNotionalUsd && r.price == agg.vwapPrice && r.size == agg.totalSize
    ensures r.aggregated && (r.fillCountInfo != "" <==> agg.fillCount > 1) && r.title == market.title
  {
    FillCountShownIff(agg.fillCount);
    AlertMessage(market.title, CategoryInfo(market), TagsInfo(market), SideEmoji(agg.side), agg.side,
                 agg.totalNotionalUsd, agg.vwapPrice, agg.totalSize, FillCountInfo(agg.fillCount), true,
                 BaseUrl + "/profile/" + agg.proxyWallet, WalletDisplay(agg.proxyWallet), MarketLink(market))
  }

  // ---------- fan-out ----------

  predicate HasChat(u: UserFilter) {
    Truthy(u.telegramChatId)
  }

  /** The pairs queued for the users, in order: one per user with a chat id. */
  function Deliveries(users: seq<UserFilter>, message: AlertMessage): (r: seq<(string, AlertMessage)>)
    ensures |r| <= |users|
  {
    if users == [] then []
    else
      var last := users[|users| - 1];
      Deliveries(users[..|users| - 1], message) +
      (if HasChat(last) then [(last.telegramChatId.value, message)] else [])
  }

  /** One more user adds a delivery exactly when that user has a chat id. */
  lemma DeliveriesSnoc(users: seq<UserFilter>, i: nat, message: AlertMessage)
    requires i < |users|
    ensures Deliveries(users[..i + 1], message) == Deliveries(users[..i], message) +
      (if HasChat(users[i]) then [(users[i].telegramChatId.value, message)] else [])
  {
    assert users[..i + 1][..i] == users[..i];
  }

  /** The deliveries are the users with a chat id, in input order, each paired with the one message. */
  lemma {:induction false} DeliveriesFollowUsers(users: seq<UserFilter>, message: AlertMessage)
    ensures var withChat := Seqs.Filter(users, HasChat);
      |Deliveries(users, message)| == |withChat| &&
      forall i :: 0 <= i < |withChat| ==>
        withChat[i] in withChat && HasChat(withChat[i]) &&
        Deliveries(users, message)[i] == (withChat[i].telegramChatId.value, message)
  {
    if users != [] {
      DeliveriesFollowUsers(users[..|users| - 1], message);
      Seqs.FilterSnoc(users[..|users| - 1], users[|users| - 1], HasChat);
      assert users[..|users| - 1] + [users[|users| - 1]] == users;
    }
  }

  /** One user of the loop: a user without a chat id is skipped, any other gets the message queued. */
  method QueueOne(reg: Dispatcher.Registry<AlertMessage>, message: AlertMessage, user: UserFilter) returns (queued: bool)
    requires reg.Valid()
    modifies reg`instance, reg.instance
    ensures reg.Valid() && (old(reg.instance) != null ==> reg.instance == old(reg.instance))
    ensures old(reg.instance) == null ==> reg.instance == null || fresh(reg.instance)
    ensures queued == HasChat(user)
    ensures reg.Pending() == old(reg.Pending()) + (if queued then [(user.telegramChatId.value, message)] else [])
  {
    if !Truthy(user.telegramChatId) {
      assert reg.Pending() + [] == reg.Pending();
      return false;
    }
    reg.EnqueueNotification(user.telegramChatId.value, message);
    return true;
  }

  /** The loop body at position `i`: the user there is queued or skipped, and the deliveries move on by one. */
  method QueueAt(reg: Dispatcher.Registry<AlertMessage>, message: AlertMessage, users: seq<UserFilter>, i: nat,
                 ghost before: seq<(string, AlertMessage)>) returns (queued: bool)
    requires i < |users| && reg.Valid() && reg.Pending() == before + Deliveries(users[..i], message)
    modifies reg`instance, reg.instance
    ensures reg.Valid() && (old(reg.instance) != null ==> reg.instance == old(reg.instance))
    ensures old(reg.instance) == null ==> reg.instance == null || fresh(reg.instance)
    ensures reg.Pending() == before + Deliveries(users[..i + 1], message)
    ensures |Deliveries(users[..i + 1], message)| == |Deliveries(users[..i], message)| + (if queued then 1 else 0)
  {
    DeliveriesSnoc(users, i, message);
    ghost var sent := Deliveries(users[..i], message);
    queued := QueueOne(reg, message, users[i]);
    Seqs.AppendAssoc(before, sent, if HasChat(users[i]) then [(users[i].telegramChatId.value, message)] else []);
  }

  /**
   * The loop of `send_alerts_for_trade`: each user with a chat id gets the message
   * queued, the others are counted as skipped.
   */
  method QueueForUsers(reg: Dispatcher.Registry<AlertMessage>, message: AlertMessage, users: seq<UserFilter>)
    returns (queued: nat, skipped: nat)
    requires reg.Valid()
    modifies reg`instance, reg.instance
    ensures reg.Valid() && (old(reg.instance) != null ==> reg.instance == old(reg.instance))
    ensures reg.Pending() == old(reg.Pending()) + Deliveries(users, message)
    ensures queued == |Deliveries(users, message)| && queued + skipped == |users|
  {
    queued, skipped := 0, 0;
    ghost var before := reg.Pending();
    for i := 0 to |users|
      invariant reg.Valid()
      invariant old(reg.instance) != null ==> reg.instance == old(reg.instance)
      invariant old(reg.instance) == null ==> reg.instance == null || fresh(reg.instance)
      invariant reg.Pending() == before + Deliveries(users[..i], message)
      invariant queued == |Deliveries(users[..i], message)| && queued + skipped == i
    {
      var q := QueueAt(reg, message, users, i, before);
      if q {
        queued := queued + 1;
      } else {
        skipped := skipped + 1;
      }
    }
    assert users[..|users|] == users;
  }

  /** `send_alerts_for_trade`: nothing for no users, else the one message for each user with a chat id. */
  method SendAlertsForTrade(reg: Dispatcher.Registry<AlertMessage>, trade: Trade, market: MarketMetadata,
                            users: seq<UserFilter>)
    requires reg.Valid()
    modifies reg`instance, reg.instance
    ensures reg.Valid() && (old(reg.instance) != null ==> reg.instance == old(reg.instance))
    ensures users == [] ==> reg.Pending() == old(reg.Pending()) && reg.instance == old(reg.instance)
    ensures users != [] ==>
      reg.Pending() == old(reg.Pending()) + Deliveries(users, BuildTradeAlertMessage(trade, market, users[0]))
  {
    if users == [] {
      return;
    }
    var message := BuildTradeAlertMessage(trade, market, users[0]);
    var queued, skipped := QueueForUsers(reg, message, users);
  }

  /** `send_alerts_for_aggregated_trade`: the same fan-out with the aggregated message. */
  method SendAlertsForAggregatedTrade(reg: Dispatcher.Registry<AlertMessage>, agg: AggregatedTrade,
                                      market: MarketMetadata, users: seq<UserFilter>)
    requires reg.Valid()
    modifies reg`instance, reg.instance
    ensures reg.Valid() && (old(reg.instance) != null ==> reg.instance == old(reg.instance))
    ensures users == [] ==> reg.Pending() == old(reg.Pending()) && reg.instance == old(reg.instance)
    ensures users != [] ==>
      reg.Pending() == old(reg.Pending()) + Deliveries(users, BuildAggregatedAlertMessage(agg, market, users[0]))
  {
    if users == [] {
      return;
    }
    var message := BuildAggregatedAlertMessage(agg, market, users[0]);
    var queued, skipped := QueueForUsers(reg, message, users);
  }

  /** `send_alert_to_chat`: queues the message and reports true. */
  method SendAlertToChat(reg: Dispatcher.Registry<AlertMessage>, chatId: string, message: AlertMessage)
    returns (ok: bool)
    requires reg.Valid()
    modifies reg`instance, reg.instance
    ensures reg.Valid() && ok && (old(reg.instance) != null ==> reg.instance == old(reg.instance))
    ensures reg.Pending() == old(reg.Pending()) + [(chatId, message)]
  {
    reg.EnqueueNotification(chatId, message);
    return true;
  }
}
